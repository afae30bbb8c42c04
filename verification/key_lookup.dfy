/**
 Choosing a binding declaratively: the innermost visible scope that has a suitable binding and, within it,
 the binding added last (internal/ui/dispatch/dispatcher.go).
 */
module KeyLookup {
  import opened Text
  import opened Conditions
  import opened Scopes

  datatype Key = Key(text: string, stroke: string)

  predicate KeyMatches(name: string, k: Key) { name == k.text || name == k.stroke }

  datatype Binding = Binding(action: string, scope: string, when: Option<Expr>, keys: seq<string>,
                             sequence: seq<string>, args: string)

  /** What ValidateBindings lets through. */
  predicate Validated(b: Binding) {
    b.action != "" && b.scope != "" && (b.when.Some? ==> ValidCondition(b.when.value)) &&
    (|b.keys| > 0 <==> |b.sequence| == 0) && "" !in b.keys && "" !in b.sequence && |b.sequence| != 1
  }

  /** `b` is suitable, no scope inside its own offers a suitable binding, and none was added after it in its scope. */
  ghost predicate Innermost(all: seq<Binding>, vis: seq<Scope>, ok: Binding -> bool, b: Binding) {
    ok(b) && exists j, t :: ScopeIsFirst(all, vis, ok, b.scope, j) && IsLatest(all, ok, b, t)
  }

  ghost predicate ScopeIsFirst(all: seq<Binding>, vis: seq<Scope>, ok: Binding -> bool, name: string, j: int) {
    0 <= j < |vis| && vis[j].name == name &&
    forall i, u :: 0 <= i < j && 0 <= u < |all| && all[u].scope == vis[i].name ==> !ok(all[u])
  }

  ghost predicate IsLatest(all: seq<Binding>, ok: Binding -> bool, b: Binding, t: int) {
    0 <= t < |all| && all[t] == b && forall u :: t < u < |all| && all[u].scope == b.scope ==> !ok(all[u])
  }

  /** Some visible scope offers a suitable binding. */
  ghost predicate Offered(all: seq<Binding>, vis: seq<Scope>, ok: Binding -> bool) {
    exists j, u :: 0 <= j < |vis| && 0 <= u < |all| && all[u].scope == vis[j].name && ok(all[u])
  }

  lemma InnermostIsOffered(all: seq<Binding>, vis: seq<Scope>, ok: Binding -> bool, b: Binding)
    requires Innermost(all, vis, ok, b)
    ensures Offered(all, vis, ok) && b in all
  {
  }

  /** There is at most one such binding. */
  lemma InnermostIsUnique(all: seq<Binding>, vis: seq<Scope>, ok: Binding -> bool, b: Binding, c: Binding)
    requires Innermost(all, vis, ok, b) && Innermost(all, vis, ok, c)
    ensures b == c
  {
    var i, t :| ScopeIsFirst(all, vis, ok, b.scope, i) && IsLatest(all, ok, b, t);
    var j, u :| ScopeIsFirst(all, vis, ok, c.scope, j) && IsLatest(all, ok, c, u);
    assert all[t].scope == vis[i].name && all[u].scope == vis[j].name;
  }

  /** The last of the first `m` bindings in scope `name` that is suitable. */
  function Latest(all: seq<Binding>, m: nat, name: string, ok: Binding -> bool): (l: Option<Binding>)
    requires m <= |all|
    ensures l.Some? ==> l.value.scope == name && ok(l.value)
  {
    if m == 0 then None
    else if all[m - 1].scope == name && ok(all[m - 1]) then Some(all[m - 1])
    else Latest(all, m - 1, name, ok)
  }

  lemma {:induction false} LatestIsLatest(all: seq<Binding>, m: nat, name: string, ok: Binding -> bool)
    requires m <= |all| && forall u :: m <= u < |all| && all[u].scope == name ==> !ok(all[u])
    ensures var l := Latest(all, m, name, ok);
            if l.Some? then l.value.scope == name && ok(l.value) && exists t :: IsLatest(all, ok, l.value, t)
            else forall u :: 0 <= u < |all| && all[u].scope == name ==> !ok(all[u])
  {
    if m > 0 {
      if all[m - 1].scope == name && ok(all[m - 1]) {
        assert IsLatest(all, ok, all[m - 1], m - 1);
      } else {
        LatestIsLatest(all, m - 1, name, ok);
      }
    }
  }

  // ---------- scanning scopes from the inside out ----------

  function FirstScope(all: seq<Binding>, vis: seq<Scope>, j: nat, ok: Binding -> bool): Option<Binding>
    requires j <= |vis|
    decreases |vis| - j
  {
    if j == |vis| then None
    else
      var l := Latest(all, |all|, vis[j].name, ok);
      if l.Some? then l else FirstScope(all, vis, j + 1, ok)
  }

  lemma {:induction false} FirstScopeIsInnermost(all: seq<Binding>, vis: seq<Scope>, j: nat, ok: Binding -> bool)
    requires j <= |vis| && forall i, u :: 0 <= i < j && 0 <= u < |all| && all[u].scope == vis[i].name ==> !ok(all[u])
    ensures var f := FirstScope(all, vis, j, ok);
            if f.Some? then Innermost(all, vis, ok, f.value) else !Offered(all, vis, ok)
    decreases |vis| - j
  {
    if j < |vis| {
      var l := Latest(all, |all|, vis[j].name, ok);
      LatestIsLatest(all, |all|, vis[j].name, ok);
      if l.Some? {
        assert ScopeIsFirst(all, vis, ok, l.value.scope, j);
      } else {
        FirstScopeIsInnermost(all, vis, j + 1, ok);
      }
    }
  }

  // ---------- picking from a candidate list ----------

  /** One pass over a list: the first suitable binding fixes the scope, later ones of that scope replace it. */
  function Pick(w: Option<Binding>, ok: Binding -> bool, list: seq<Binding>): Option<Binding> {
    if list == [] then w
    else
      var before, b := Pick(w, ok, list[..|list| - 1]), list[|list| - 1];
      if ok(b) && (before.None? || before.value.scope == b.scope) then Some(b) else before
  }

  lemma {:induction false} PickAppend(w: Option<Binding>, ok: Binding -> bool, xs: seq<Binding>, ys: seq<Binding>)
    ensures Pick(w, ok, xs + ys) == Pick(Pick(w, ok, xs), ok, ys)
  {
    if ys == [] {
      Empties(xs);
    } else {
      var n := |ys| - 1;
      PickAppend(w, ok, xs, ys[..n]);
      CutLast(xs, ys);
      assert (xs + ys)[..|xs + ys| - 1] == xs + ys[..n];
    }
  }

  lemma PickSingle(w: Option<Binding>, ok: Binding -> bool, b: Binding)
    ensures Pick(w, ok, []) == w
    ensures Pick(w, ok, [b]) == if ok(b) && (w.None? || w.value.scope == b.scope) then Some(b) else w
  {
    assert [b][..0] == [];
  }

  /** Filtering first or testing while picking is the same. */
  lemma {:induction false} PickFiltered(w: Option<Binding>, p: Binding -> bool, ok: Binding -> bool,
                                        both: Binding -> bool, list: seq<Binding>)
    requires forall i :: 0 <= i < |list| ==> both(list[i]) == (p(list[i]) && ok(list[i]))
    ensures Pick(w, ok, Filter(p, list)) == Pick(w, both, list)
  {
    if list != [] {
      var n := |list| - 1;
      PickFiltered(w, p, ok, both, list[..n]);
      PickAppend(w, ok, Filter(p, list[..n]), if p(list[n]) then [list[n]] else []);
      PickSingle(Pick(w, ok, Filter(p, list[..n])), ok, list[n]);
    }
  }

  /** The bindings satisfying `listed`, scope by visible scope. */
  function Listing(all: seq<Binding>, vis: seq<Scope>, n: nat, listed: Binding -> bool): seq<Binding>
    requires n <= |vis|
  {
    if n == 0 then [] else Listing(all, vis, n - 1, listed) + InScope(all, vis[n - 1].name, listed)
  }

  function InScope(all: seq<Binding>, name: string, listed: Binding -> bool): seq<Binding> {
    Filter(Mine(name, listed), all)
  }

  function Mine(name: string, listed: Binding -> bool): Binding -> bool {
    (b: Binding) => b.scope == name && listed(b)
  }

  lemma {:induction false} ListingMembers(all: seq<Binding>, vis: seq<Scope>, n: nat, listed: Binding -> bool,
                                          b: Binding)
    requires n <= |vis|
    ensures b in Listing(all, vis, n, listed) <==>
              b in all && listed(b) && exists j :: 0 <= j < n && vis[j].name == b.scope
  {
    if n > 0 {
      ListingMembers(all, vis, n - 1, listed, b);
      FilterMembers(Mine(vis[n - 1].name, listed), all, b);
    }
  }

  lemma {:induction false} PickInScope(w: Option<Binding>, ok: Binding -> bool, all: seq<Binding>, m: nat, name: string,
                                       mine: Binding -> bool)
    requires m <= |all| &&
             forall i ::
               0 <= i < |all| ==>
                 (ok(all[i]) && all[i].scope == name ==> mine(all[i])) && (mine(all[i]) ==> all[i].scope == name)
    ensures Pick(w, ok, Filter(mine, all[..m])) ==
            if w.Some? && w.value.scope != name then w
            else if Latest(all, m, name, ok).Some? then Latest(all, m, name, ok) else w
  {
    if m > 0 {
      PickInScope(w, ok, all, m - 1, name, mine);
      FilterSnoc(mine, all, m - 1);
      PickAppend(w, ok, Filter(mine, all[..m - 1]), if mine(all[m - 1]) then [all[m - 1]] else []);
      PickSingle(Pick(w, ok, Filter(mine, all[..m - 1])), ok, all[m - 1]);
    }
  }

  /** Picking from the listing chooses the innermost, latest suitable binding. */
  lemma {:induction false} PickIsInnermost(all: seq<Binding>, vis: seq<Scope>, n: nat, listed: Binding -> bool,
                                           ok: Binding -> bool)
    requires n <= |vis| && forall i :: 0 <= i < |all| && ok(all[i]) ==> listed(all[i])
    ensures var p := Pick(None, ok, Listing(all, vis, n, listed));
            if p.Some? then Innermost(all, vis, ok, p.value) else !Offered(all, vis[..n], ok)
  {
    if n > 0 {
      var name := vis[n - 1].name;
      var before := Pick(None, ok, Listing(all, vis, n - 1, listed));
      PickIsInnermost(all, vis, n - 1, listed, ok);
      PickAppend(None, ok, Listing(all, vis, n - 1, listed), InScope(all, name, listed));
      PickScope(before, ok, all, name, listed);
      StillInnermost(all, vis, n, ok, before);
    }
  }

  lemma PickScope(w: Option<Binding>, ok: Binding -> bool, all: seq<Binding>, name: string, listed: Binding -> bool)
    requires forall i :: 0 <= i < |all| && ok(all[i]) ==> listed(all[i])
    ensures var l := Latest(all, |all|, name, ok);
            Pick(w, ok, InScope(all, name, listed)) ==
              if l.Some? && (w.None? || w.value.scope == l.value.scope) then l else w
  {
    Empties(all);
    PickInScope(w, ok, all, |all|, name, Mine(name, listed));
    LatestIsLatest(all, |all|, name, ok);
  }

  lemma StillInnermost(all: seq<Binding>, vis: seq<Scope>, n: nat, ok: Binding -> bool, before: Option<Binding>)
    requires 0 < n <= |vis| &&
             if before.Some? then Innermost(all, vis, ok, before.value) else !Offered(all, vis[..n - 1], ok)
    ensures var l := Latest(all, |all|, vis[n - 1].name, ok);
            if l.Some? && (before.None? || before.value.scope == l.value.scope) then Innermost(all, vis, ok, l.value)
            else before.None? ==> !Offered(all, vis[..n], ok)
  {
    LatestIsLatest(all, |all|, vis[n - 1].name, ok);
    var l := Latest(all, |all|, vis[n - 1].name, ok);
    if l.Some? {
      if before.Some? && before.value.scope == l.value.scope {
        TakesOver(all, vis, ok, before.value, l.value);
      } else if before.None? {
        ComesFirst(all, vis, n, ok, l.value);
      }
    } else if before.None? {
      NothingOffered(all, vis, n, ok);
    }
  }

  lemma TakesOver(all: seq<Binding>, vis: seq<Scope>, ok: Binding -> bool, b: Binding, l: Binding)
    requires Innermost(all, vis, ok, b) && b.scope == l.scope && ok(l) && exists t :: IsLatest(all, ok, l, t)
    ensures Innermost(all, vis, ok, l)
  {
    var j, u :| ScopeIsFirst(all, vis, ok, b.scope, j) && IsLatest(all, ok, b, u);
    var t :| IsLatest(all, ok, l, t);
    assert ScopeIsFirst(all, vis, ok, l.scope, j);
  }

  lemma ComesFirst(all: seq<Binding>, vis: seq<Scope>, n: nat, ok: Binding -> bool, l: Binding)
    requires 0 < n <= |vis| && !Offered(all, vis[..n - 1], ok) && l.scope == vis[n - 1].name && ok(l) &&
             exists t :: IsLatest(all, ok, l, t)
    ensures Innermost(all, vis, ok, l)
  {
    var t :| IsLatest(all, ok, l, t);
    assert forall i :: 0 <= i < n - 1 ==> vis[..n - 1][i] == vis[i];
    assert ScopeIsFirst(all, vis, ok, l.scope, n - 1);
  }

  lemma NothingOffered(all: seq<Binding>, vis: seq<Scope>, n: nat, ok: Binding -> bool)
    requires 0 < n <= |vis| && !Offered(all, vis[..n - 1], ok)
    requires forall u :: 0 <= u < |all| && all[u].scope == vis[n - 1].name ==> !ok(all[u])
    ensures !Offered(all, vis[..n], ok)
  {
    forall j, u | 0 <= j < n && 0 <= u < |all| && all[u].scope == vis[..n][j].name ensures !ok(all[u]) {
      if j < n - 1 { assert vis[..n - 1][j] == vis[..n][j]; }
    }
  }
  /** What makes a binding unusable: each of these alone, and nothing else. */
  lemma RejectedIff(b: Binding)
    ensures !Validated(b) <==>
            b.action == "" || b.scope == "" || (b.when.Some? && !ValidCondition(b.when.value)) ||
            (b.keys == [] && b.sequence == []) || (b.keys != [] && b.sequence != []) ||
            (exists k :: 0 <= k < |b.keys| && b.keys[k] == "") ||
            (exists k :: 0 <= k < |b.sequence| && b.sequence[k] == "") ||
            |b.sequence| == 1
  {
  }
}
