/**
 The dispatcher as it runs: its buffered keys and candidates change on every key press
 (internal/ui/dispatch/dispatcher.go).
 */
module DispatcherObject {
  import opened Text
  import opened Conditions
  import opened Scopes
  import opened KeyLookup
  import opened Dispatch

  function Anything(): Binding -> bool { (b: Binding) => true }

  function OfScope(all: seq<Binding>, name: string): seq<Binding> { InScope(all, name, Anything()) }

  function StartsWith(env: Env, k: Key): Binding -> bool {
    (b: Binding) => env.Enabled(b) && |b.sequence| > 0 && KeyMatches(b.sequence[0], k)
  }

  /** Scanning one scope's bindings for those a key starts gives that scope's share of the candidates. */
  lemma ScopeStarts(all: seq<Binding>, env: Env, k: Key, name: string)
    ensures Filter(StartsWith(env, k), OfScope(all, name)) == Filter(Continues([k]), InScope(all, name, SeqIn(env)))
  {
    var both := (b: Binding) => b.scope == name && StartsWith(env, k)(b);
    FilterTwice(Mine(name, Anything()), StartsWith(env, k), both, all);
    FilterTwice(Mine(name, SeqIn(env)), Continues([k]), both, all);
  }

  /** Scanning one scope's bindings backwards finds the latest of that scope. */
  lemma {:induction false} LatestOfScope(all: seq<Binding>, m: nat, name: string, ok: Binding -> bool)
    requires m <= |all|
    ensures var mine := Filter(Mine(name, Anything()), all[..m]);
            Latest(mine, |mine|, name, ok) == Latest(all, m, name, ok)
  {
    if m > 0 {
      LatestOfScope(all, m - 1, name, ok);
      FilterSnoc(Mine(name, Anything()), all, m - 1);
      var before := Filter(Mine(name, Anything()), all[..m - 1]);
      Empties(before);
      if all[m - 1].scope == name { LatestSnoc(before, |before|, all[m - 1], name, ok); }
    }
  }

  lemma {:induction false} LatestSnoc(list: seq<Binding>, m: nat, b: Binding, name: string, ok: Binding -> bool)
    requires m <= |list|
    ensures Latest(list + [b], m, name, ok) == Latest(list, m, name, ok)
  {
    if m > 0 { LatestSnoc(list, m - 1, b, name, ok); }
  }

  lemma OfScopeSnoc(all: seq<Binding>, i: nat, name: string)
    requires i < |all|
    ensures OfScope(all[..i + 1], name) == OfScope(all[..i], name) + if all[i].scope == name then [all[i]] else []
  {
    FilterSnoc(Mine(name, Anything()), all, i);
  }

  type Table = map<string, seq<Binding>>

  function LookIn(table: Table, name: string): seq<Binding> { if name in table then table[name] else [] }

  /** The table files the bindings by scope, in the order they were added. */
  ghost predicate Filed(table: Table, list: seq<Binding>) { forall name :: LookIn(table, name) == OfScope(list, name) }

  lemma FileOne(table: Table, all: seq<Binding>, i: nat, b: Binding, after: Table)
    requires i < |all| && all[i] == b && Filed(table, all[..i]) &&
             after == table[b.scope := LookIn(table, b.scope) + [b]]
    ensures Filed(after, all[..i + 1])
  {
    forall name ensures LookIn(after, name) == OfScope(all[..i + 1], name) {
      OfScopeSnoc(all, i, name);
      assert LookIn(table, name) == OfScope(all[..i], name);
      Empties(LookIn(table, name));
      if name == b.scope {
        assert LookIn(after, name) == LookIn(table, name) + [b];
      } else {
        assert LookIn(after, name) == LookIn(table, name);
      }
    }
  }

  class Dispatcher {
    ghost const all: seq<Binding>
    var table: Table
    var rules: Rules
    var state: Provider
    var buffered: seq<Key>
    var candidates: seq<Binding>

    function Lookup(name: string): seq<Binding>
      reads this
    {
      LookIn(table, name)
    }

    ghost predicate Valid()
      reads this
    {
      AllValidated(all) && Filed(table, all) && (buffered == [] ==> candidates == [])
    }

    function Pending(): Pending reads this { Dispatch.Pending(buffered, candidates) }

    function Around(scopes: seq<Scope>): Env reads this { Env(scopes, rules, state) }

    constructor (available: seq<Binding>, builtIn: map<string, Expr>)
      requires AllValidated(available)
      ensures Valid() && all == available && Pending() == IDLE && rules == Rules(builtIn, map[]) && state == None
    {
      all := available;
      rules := Rules(builtIn, map[]);
      state, buffered, candidates, table := None, [], [], map[];
      new;
      for i := 0 to |available|
        invariant all == available && Pending() == IDLE && rules == Rules(builtIn, map[]) && state == None
        invariant Filed(table, available[..i])
      {
        var b := available[i];
        var after := table[b.scope := Lookup(b.scope) + [b]];
        FileOne(table, available, i, b, after);
        table := after;
      }
      Empties(available);
    }

    /** None when some binding does not pass validation. */
    static method New(available: seq<Binding>, builtIn: map<string, Expr>) returns (d: Option<Dispatcher>)
      ensures d.Some? <==> AllValidated(available)
      ensures d.Some? ==> fresh(d.value) && d.value.Valid() && d.value.all == available && d.value.Pending() == IDLE
    {
      for i := 0 to |available|
        invariant forall k :: 0 <= k < i ==> Validated(available[k])
      {
        if !Validated(available[i]) { return None; }
      }
      var made := new Dispatcher(available, builtIn);
      return Some(made);
    }

    method ResetSequence()
      modifies this`buffered, this`candidates
      ensures Pending() == IDLE
    {
      buffered, candidates := [], [];
    }

    method EligibleCandidates(env: Env) returns (live: seq<Binding>)
      ensures live == Filter(SeenIn(env), candidates)
    {
      var visible := VisibleScopes(env.scopes);
      live := [];
      for i := 0 to |candidates|
        invariant live == Filter(SeenIn(env), candidates[..i])
      {
        FilterSnoc(SeenIn(env), candidates, i);
        if env.Enabled(candidates[i]) && exists j :: 0 <= j < |visible| && visible[j].name == candidates[i].scope {
          live := live + [candidates[i]];
        }
      }
      Empties(candidates);
    }

    method StartsInScope(env: Env, k: Key, name: string) returns (found: seq<Binding>)
      requires Valid()
      ensures found == Filter(Continues([k]), InScope(all, name, SeqIn(env)))
    {
      var mine := Lookup(name);
      found := [];
      for i := 0 to |mine|
        invariant found == Filter(StartsWith(env, k), mine[..i])
      {
        FilterSnoc(StartsWith(env, k), mine, i);
        if env.Enabled(mine[i]) && |mine[i].sequence| > 0 && KeyMatches(mine[i].sequence[0], k) {
          found := found + [mine[i]];
        }
      }
      Empties(mine);
      ScopeStarts(all, env, k, name);
    }

    method InitialSequenceCandidates(env: Env, k: Key) returns (found: seq<Binding>)
      requires Valid()
      ensures found == Initial(all, env, k)
    {
      var visible := VisibleScopes(env.scopes);
      found := [];
      for i := 0 to |visible|
        invariant found == Filter(Continues([k]), Listing(all, visible, i, SeqIn(env)))
      {
        var more := StartsInScope(env, k, visible[i].name);
        FilterAppend(Continues([k]), Listing(all, visible, i, SeqIn(env)), InScope(all, visible[i].name, SeqIn(env)));
        found := found + more;
      }
    }

    method LatestKeyBinding(env: Env, k: Key, name: string) returns (b: Option<Binding>)
      requires Valid()
      ensures b == Latest(all, |all|, name, KeyIn(env, k))
    {
      var mine := Lookup(name);
      LatestOfScope(all, |all|, name, KeyIn(env, k));
      Empties(all);
      forall i | 0 <= i < |mine| ensures mine[i].scope == name { FilterMembers(Mine(name, Anything()), all, mine[i]); }
      for i := |mine| downto 0
        invariant Latest(mine, |mine|, name, KeyIn(env, k)) == Latest(mine, i, name, KeyIn(env, k))
      {
        if KeyIn(env, k)(mine[i]) { return Some(mine[i]); }
      }
      return None;
    }

    method KeyBinding(env: Env, k: Key) returns (b: Option<Binding>)
      requires Valid()
      ensures b == FirstScope(all, Visible(env.scopes), 0, KeyIn(env, k))
    {
      var visible := VisibleScopes(env.scopes);
      for i := 0 to |visible|
        invariant FirstScope(all, visible, 0, KeyIn(env, k)) == FirstScope(all, visible, i, KeyIn(env, k))
      {
        b := LatestKeyBinding(env, k, visible[i].name);
        if b.Some? { return; }
      }
      return None;
    }

    method Choose(live: seq<Binding>, n: nat) returns (winner: Option<Binding>)
      ensures winner == Pick(None, EndsAt(n), live)
    {
      winner := None;
      for i := 0 to |live|
        invariant winner == Pick(None, EndsAt(n), live[..i])
      {
        assert live[..i + 1][..i] == live[..i];
        if |live[i].sequence| == n && (winner.None? || winner.value.scope == live[i].scope) { winner := Some(live[i]); }
      }
      Empties(live);
    }

    method ResolveSequenceKey(k: Key, eligible: seq<Binding>) returns (r: Result)
      modifies this`buffered, this`candidates
      ensures (Pending(), r) == ContinueSequence(old(buffered), eligible, k)
    {
      if KeyMatches("esc", k) {
        ResetSequence();
        return Swallowed;
      }
      var next := buffered + [k];
      var live := [];
      for i := 0 to |eligible|
        invariant live == Filter(Continues(next), eligible[..i])
      {
        FilterSnoc(Continues(next), eligible, i);
        if IsPrefix(eligible[i].sequence, next) { live := live + [eligible[i]]; }
      }
      Empties(eligible);
      var winner := Choose(live, |next|);
      if live == [] {
        ResetSequence();
        return Swallowed;
      }
      buffered, candidates := next, live;
      if winner.Some? {
        ResetSequence();
        return Fired(winner.value);
      }
      return Waiting;
    }

    /** One key press, resolved against the scopes and the state of the moment. */
    method Resolve(k: Key, scopes: seq<Scope>) returns (r: Result)
      requires Valid()
      modifies this`buffered, this`candidates
      ensures Valid()
      ensures (Pending(), r) == Step(all, Around(scopes), old(Pending()), k)
    {
      var env := Around(scopes);
      if k.text == "" { return Ignored; }
      if |buffered| > 0 {
        var eligible := EligibleCandidates(env);
        r := ResolveSequenceKey(k, eligible);
        return;
      }
      var live := InitialSequenceCandidates(env, k);
      if |live| > 0 {
        buffered, candidates := [k], live;
        return Waiting;
      }
      var b := KeyBinding(env, k);
      r := if b.Some? then Fired(b.value) else Ignored;
    }

    /** None for a condition that does not parse or is blank: the override is dropped. */
    method SetActionWhen(action: string, when: Option<Expr>)
      modifies this`rules
      ensures rules.builtIn == old(rules).builtIn
      ensures rules.overrides ==
                if when.Some? then old(rules).overrides[action := when.value] else old(rules).overrides - {action}
    {
      rules :=
        rules.(overrides := if when.Some? then rules.overrides[action := when.value] else rules.overrides - {action});
    }
  }
}
