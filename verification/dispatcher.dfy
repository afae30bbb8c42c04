/**
 Resolving keys one at a time against scopes and conditions that may change between keys
 (internal/ui/dispatch/dispatcher.go).
 */
module Dispatch {
  import opened Text
  import opened Conditions
  import opened Scopes
  import opened KeyLookup

  // Conditions attached to actions: generated ones, and those set for configured overrides.
  datatype Rules = Rules(builtIn: map<string, Expr>, overrides: map<string, Expr>)
  {
    function ActionWhen(action: string): Option<Expr> {
      if action in overrides then Some(overrides[action])
      else if action in builtIn then Some(builtIn[action])
      else None
    }
  }

  /** What a key press is resolved against. */
  datatype Env = Env(scopes: seq<Scope>, rules: Rules, state: Provider)
  {
    predicate Enabled(b: Binding) { Matches(b.when, state) && Matches(rules.ActionWhen(b.action), state) }

    predicate Shows(name: string) { exists i :: 0 <= i < |Visible(scopes)| && Visible(scopes)[i].name == name }

    predicate Sees(b: Binding) { Enabled(b) && Shows(b.scope) }
  }

  // A candidate's scope is its binding's own, so a candidate is kept as the binding.
  datatype Pending = Pending(typed: seq<Key>, live: seq<Binding>)

  const IDLE := Pending([], [])

  // Fired names the binding whose action, scope and arguments are returned; all but Ignored consume the key.
  datatype Result = Ignored | Swallowed | Waiting | Fired(binding: Binding)

  predicate IsPrefix(full: seq<string>, typed: seq<Key>) {
    |typed| <= |full| && forall i :: 0 <= i < |typed| ==> KeyMatches(full[i], typed[i])
  }

  function SeqIn(env: Env): Binding -> bool { (b: Binding) => env.Enabled(b) && |b.sequence| > 0 }

  function Continues(typed: seq<Key>): Binding -> bool { (b: Binding) => IsPrefix(b.sequence, typed) }

  function EndsAt(n: nat): Binding -> bool { (b: Binding) => |b.sequence| == n }

  function SeenIn(env: Env): Binding -> bool { (b: Binding) => env.Sees(b) }

  function KeyIn(env: Env, k: Key): Binding -> bool {
    (b: Binding) => env.Enabled(b) && exists i :: 0 <= i < |b.keys| && KeyMatches(b.keys[i], k)
  }

  /** All enabled sequence bindings of the visible scopes, innermost scope first. */
  function Starting(all: seq<Binding>, env: Env): seq<Binding> {
    Listing(all, Visible(env.scopes), |Visible(env.scopes)|, SeqIn(env))
  }

  function Initial(all: seq<Binding>, env: Env, k: Key): seq<Binding> { Filter(Continues([k]), Starting(all, env)) }

  function ContinueSequence(typed: seq<Key>, eligible: seq<Binding>, k: Key): (Pending, Result) {
    var next := typed + [k];
    var live := Filter(Continues(next), eligible);
    var winner := Pick(None, EndsAt(|next|), live);
    if KeyMatches("esc", k) then (IDLE, Swallowed)
    else if live == [] then (IDLE, Swallowed)
    else if winner.Some? then (IDLE, Fired(winner.value))
    else (Pending(next, live), Waiting)
  }

  function ResolveIdle(all: seq<Binding>, env: Env, k: Key): (Pending, Result) {
    var live := Initial(all, env, k);
    if live != [] then (Pending([k], live), Waiting)
    else
      var b := FirstScope(all, Visible(env.scopes), 0, KeyIn(env, k));
      (IDLE, if b.Some? then Fired(b.value) else Ignored)
  }

  /** One key press. */
  function Step(all: seq<Binding>, env: Env, p: Pending, k: Key): (Pending, Result) {
    if k.text == "" then (p, Ignored)
    else if p.typed == [] then ResolveIdle(all, env, k)
    else ContinueSequence(p.typed, Filter(SeenIn(env), p.live), k)
  }

  ghost predicate AllValidated(all: seq<Binding>) { forall i :: 0 <= i < |all| ==> Validated(all[i]) }

  // ---------- fixed surroundings: the same as a whole-sequence lookup ----------

  /** Feeding the keys one by one from an idle dispatcher: the state reached and the last result. */
  function Feed(all: seq<Binding>, env: Env, keys: seq<Key>): (Pending, Result) {
    if keys == [] then (IDLE, Ignored) else Step(all, env, Feed(all, env, keys[..|keys| - 1]).0, keys[|keys| - 1])
  }

  /** An enabled binding whose sequence is exactly the first `n` keys. */
  function Complete(env: Env, keys: seq<Key>, n: nat): Binding -> bool
    requires n <= |keys|
  {
    (b: Binding) => env.Enabled(b) && |b.sequence| == n && IsPrefix(b.sequence, keys[..n])
  }

  /** An enabled binding whose sequence begins with the first `n` keys. */
  function Live(env: Env, keys: seq<Key>, n: nat): Binding -> bool
    requires n <= |keys|
  {
    (b: Binding) => env.Enabled(b) && |b.sequence| > 0 && IsPrefix(b.sequence, keys[..n])
  }

  /** No proper prefix of the keys completes a binding, and all of them still begin one. */
  ghost predicate InProgress(all: seq<Binding>, env: Env, keys: seq<Key>) {
    forall n {:trigger Complete(env, keys, n)} {:trigger Live(env, keys, n)} :: 1 <= n < |keys| ==>
      !Offered(all, Visible(env.scopes), Complete(env, keys, n)) &&
      Offered(all, Visible(env.scopes), Live(env, keys, n))
  }

  /** Keys that have a name; `esc` only as the first. */
  predicate Plain(keys: seq<Key>) {
    (forall i :: 0 <= i < |keys| ==> keys[i].text != "") && forall i :: 1 <= i < |keys| ==> !KeyMatches("esc", keys[i])
  }

  function LiveNow(all: seq<Binding>, env: Env, keys: seq<Key>): seq<Binding> {
    Filter(Continues(keys), Starting(all, env))
  }

  lemma StartingMembers(all: seq<Binding>, env: Env, b: Binding)
    ensures b in Starting(all, env) <==> b in all && |b.sequence| > 0 && env.Sees(b)
  {
    var vis := Visible(env.scopes);
    ListingMembers(all, vis, |vis|, SeqIn(env), b);
  }

  lemma LiveNowMembers(all: seq<Binding>, env: Env, keys: seq<Key>, b: Binding)
    ensures b in LiveNow(all, env, keys) <==> b in all && |b.sequence| > 0 && env.Sees(b) && IsPrefix(b.sequence, keys)
  {
    FilterMembers(Continues(keys), Starting(all, env), b);
    StartingMembers(all, env, b);
  }

  lemma LiveNowOffered(all: seq<Binding>, env: Env, keys: seq<Key>)
    ensures LiveNow(all, env, keys) != [] <==> Offered(all, Visible(env.scopes), Live(env, keys, |keys|))
  {
    var vis, live := Visible(env.scopes), LiveNow(all, env, keys);
    Empties(keys);
    if live != [] {
      LiveNowMembers(all, env, keys, live[0]);
      var j :| 0 <= j < |vis| && vis[j].name == live[0].scope;
      var u :| 0 <= u < |all| && all[u] == live[0];
    }
    if Offered(all, vis, Live(env, keys, |keys|)) {
      var j, u :| 0 <= j < |vis| && 0 <= u < |all| && all[u].scope == vis[j].name && Live(env, keys, |keys|)(all[u]);
      LiveNowMembers(all, env, keys, all[u]);
    }
  }

  /** The candidates left by one more key are those of the longer prefix. */
  lemma LiveNowNarrows(all: seq<Binding>, env: Env, keys: seq<Key>, k: Key)
    ensures Filter(Continues(keys + [k]), Filter(SeenIn(env), LiveNow(all, env, keys))) == LiveNow(all, env, keys + [k])
  {
    var live := LiveNow(all, env, keys);
    forall i | 0 <= i < |live| ensures SeenIn(env)(live[i]) { LiveNowMembers(all, env, keys, live[i]); }
    FilterAll(SeenIn(env), live);
    forall b: Binding ensures IsPrefix(b.sequence, keys + [k]) ==> IsPrefix(b.sequence, keys) {
      PrefixShrinks(b.sequence, keys, k);
    }
    FilterTwice(Continues(keys), Continues(keys + [k]), Continues(keys + [k]), Starting(all, env));
  }

  lemma PrefixShrinks(full: seq<string>, keys: seq<Key>, k: Key)
    ensures IsPrefix(full, keys + [k]) <==> IsPrefix(full, keys) && |keys| < |full| && KeyMatches(full[|keys|], k)
  {
    assert forall i :: 0 <= i < |keys| ==> (keys + [k])[i] == keys[i];
    assert (keys + [k])[|keys|] == k;
  }

  /** The winner among the candidates left is the innermost, latest binding that the keys complete. */
  lemma WinnerIsInnermost(all: seq<Binding>, env: Env, keys: seq<Key>)
    requires keys != []
    ensures var w := Pick(None, EndsAt(|keys|), LiveNow(all, env, keys));
            if w.Some? then Innermost(all, Visible(env.scopes), Complete(env, keys, |keys|), w.value)
            else !Offered(all, Visible(env.scopes), Complete(env, keys, |keys|))
  {
    var vis, done := Visible(env.scopes), Complete(env, keys, |keys|);
    Empties(keys);
    Empties(vis);
    var list := Starting(all, env);
    forall i | 0 <= i < |list| ensures done(list[i]) == (Continues(keys)(list[i]) && EndsAt(|keys|)(list[i])) {
      StartingMembers(all, env, list[i]);
    }
    PickFiltered(None, Continues(keys), EndsAt(|keys|), done, list);
    PickIsInnermost(all, vis, |vis|, SeqIn(env), done);
  }

  lemma NarrowProgress(all: seq<Binding>, env: Env, keys: seq<Key>, n: nat)
    requires InProgress(all, env, keys) && n <= |keys|
    ensures InProgress(all, env, keys[..n])
  {
    var vis, short := Visible(env.scopes), keys[..n];
    forall m {:trigger Complete(env, short, m)} {:trigger Live(env, short, m)} | 1 <= m < n
      ensures !Offered(all, vis, Complete(env, short, m)) && Offered(all, vis, Live(env, short, m))
    {
      assert short[..m] == keys[..m];
      SameOffer(all, vis, Complete(env, keys, m), Complete(env, short, m));
      SameOffer(all, vis, Live(env, keys, m), Live(env, short, m));
    }
  }

  lemma SameOffer(all: seq<Binding>, vis: seq<Scope>, p: Binding -> bool, q: Binding -> bool)
    requires forall b :: p(b) == q(b)
    ensures Offered(all, vis, p) == Offered(all, vis, q)
  {
  }

  lemma {:induction false} FeedWaits(all: seq<Binding>, env: Env, keys: seq<Key>)
    requires Plain(keys) && keys != [] && InProgress(all, env, keys)
    requires Offered(all, Visible(env.scopes), Live(env, keys, |keys|))
    requires !Offered(all, Visible(env.scopes), Complete(env, keys, |keys|))
    ensures Feed(all, env, keys) == (Pending(keys, LiveNow(all, env, keys)), Waiting)
    decreases |keys|, 1
  {
    LiveNowOffered(all, env, keys);
    if |keys| == 1 {
      assert keys == [keys[0]] && keys[..0] == [];
    } else {
      FeedOneMore(all, env, keys);
      WinnerIsInnermost(all, env, keys);
    }
  }

  lemma {:induction false} FeedBefore(all: seq<Binding>, env: Env, keys: seq<Key>)
    requires Plain(keys) && |keys| > 1 && InProgress(all, env, keys)
    ensures Feed(all, env, keys[..|keys| - 1]) ==
              (Pending(keys[..|keys| - 1], LiveNow(all, env, keys[..|keys| - 1])), Waiting)
    decreases |keys| - 1, 2
  {
    var n := |keys| - 1;
    var short, vis := keys[..n], Visible(env.scopes);
    NarrowProgress(all, env, keys, n);
    Empties(short);
    SameOffer(all, vis, Complete(env, keys, n), Complete(env, short, n));
    SameOffer(all, vis, Live(env, keys, n), Live(env, short, n));
    FeedWaits(all, env, short);
  }

  /** What the candidates left by the last key make of it. */
  function Verdict(keys: seq<Key>, live: seq<Binding>): (Pending, Result) {
    var winner := Pick(None, EndsAt(|keys|), live);
    if live == [] then (IDLE, Swallowed)
    else if winner.Some? then (IDLE, Fired(winner.value))
    else (Pending(keys, live), Waiting)
  }

  lemma FeedOneMore(all: seq<Binding>, env: Env, keys: seq<Key>)
    requires Plain(keys) && |keys| > 1 && InProgress(all, env, keys)
    ensures Feed(all, env, keys) == Verdict(keys, LiveNow(all, env, keys))
    decreases |keys|, 0
  {
    var n := |keys| - 1;
    TakeSnoc(keys, n);
    Empties(keys);
    FeedBefore(all, env, keys);
    LiveNowNarrows(all, env, keys[..n], keys[n]);
  }

  /**
   With fixed surroundings, the key after a sequence in progress fires the innermost, latest binding that the
   keys complete; if there is none it waits while some sequence begins with them, and else is swallowed.
   */
  lemma FeedIsLookup(all: seq<Binding>, env: Env, keys: seq<Key>)
    requires Plain(keys) && |keys| > 1 && InProgress(all, env, keys)
    ensures var (p, r) := Feed(all, env, keys);
            var vis := Visible(env.scopes);
            if Offered(all, vis, Complete(env, keys, |keys|)) then
              r.Fired? && p == IDLE && Innermost(all, vis, Complete(env, keys, |keys|), r.binding)
            else if Offered(all, vis, Live(env, keys, |keys|)) then r == Waiting && p.typed == keys
            else r == Swallowed && p == IDLE
  {
    var vis, done := Visible(env.scopes), Complete(env, keys, |keys|);
    FeedOneMore(all, env, keys);
    WinnerIsInnermost(all, env, keys);
    LiveNowOffered(all, env, keys);
    var w := Pick(None, EndsAt(|keys|), LiveNow(all, env, keys));
    if w.Some? { InnermostIsOffered(all, vis, done, w.value); }
    if Offered(all, vis, done) { CompleteIsLive(all, env, keys); }
  }

  lemma CompleteIsLive(all: seq<Binding>, env: Env, keys: seq<Key>)
    requires keys != [] && Offered(all, Visible(env.scopes), Complete(env, keys, |keys|))
    ensures Offered(all, Visible(env.scopes), Live(env, keys, |keys|))
  {
    var vis, done := Visible(env.scopes), Complete(env, keys, |keys|);
    var j, u :| 0 <= j < |vis| && 0 <= u < |all| && all[u].scope == vis[j].name && done(all[u]);
    assert Live(env, keys, |keys|)(all[u]);
  }

  /**
   The first key: a sequence that begins with it takes precedence over every single-key binding, in whatever scope;
   otherwise the innermost, latest single-key binding fires, and a key nobody wants is left to others.
   */
  lemma FirstKey(all: seq<Binding>, env: Env, k: Key)
    requires k.text != ""
    ensures var (p, r) := Feed(all, env, [k]);
            var vis := Visible(env.scopes);
            if Offered(all, vis, Live(env, [k], 1)) then r == Waiting && p.typed == [k]
            else if Offered(all, vis, KeyIn(env, k)) then
              r.Fired? && p == IDLE && Innermost(all, vis, KeyIn(env, k), r.binding)
            else r == Ignored && p == IDLE
  {
    var vis := Visible(env.scopes);
    assert [k][..0] == [];
    LiveNowOffered(all, env, [k]);
    FirstScopeIsInnermost(all, vis, 0, KeyIn(env, k));
    var b := FirstScope(all, vis, 0, KeyIn(env, k));
    if b.Some? { InnermostIsOffered(all, vis, KeyIn(env, k), b.value); }
  }

  // ---------- surroundings that change between keys ----------

  datatype Input = Input(key: Key, env: Env)

  // `since` holds the keys of the sequence in progress together with what each was resolved against.
  datatype Trace = Trace(pending: Pending, since: seq<Input>)

  function Advance(all: seq<Binding>, tr: Trace, i: Input): Trace {
    var p := Step(all, i.env, tr.pending, i.key).0;
    Trace(p, if p.typed == [] then [] else if i.key.text == "" then tr.since else tr.since + [i])
  }

  function Run(all: seq<Binding>, inputs: seq<Input>): Trace {
    if inputs == [] then Trace(IDLE, []) else Advance(all, Run(all, inputs[..|inputs| - 1]), inputs[|inputs| - 1])
  }

  /** At this key the binding was visible, enabled and had the key as its i-th. */
  ghost predicate SeenAt(input: Input, b: Binding, i: nat) {
    input.env.Sees(b) && i < |b.sequence| && KeyMatches(b.sequence[i], input.key)
  }

  ghost predicate SeenThroughout(inputs: seq<Input>, b: Binding) {
    forall i :: 0 <= i < |inputs| ==> SeenAt(inputs[i], b, i)
  }

  ghost predicate Good(all: seq<Binding>, tr: Trace) {
    |tr.pending.typed| == |tr.since| && (forall i :: 0 <= i < |tr.since| ==> tr.pending.typed[i] == tr.since[i].key) &&
    (tr.since == [] <==> tr.pending.live == []) &&
    forall b :: b in tr.pending.live ==> b in all && |b.sequence| > |tr.since| && SeenThroughout(tr.since, b)
  }

  lemma {:induction false} PickMember(w: Option<Binding>, ok: Binding -> bool, list: seq<Binding>)
    ensures var p := Pick(w, ok, list); p != w ==> p.Some? && p.value in list && ok(p.value)
    ensures Pick(w, ok, list).None? ==> forall b :: b in list ==> !ok(b)
  {
    if list != [] {
      PickMember(w, ok, list[..|list| - 1]);
      TakeSnoc(list, |list| - 1);
      Empties(list);
    }
  }

  /** The candidates left by a key have been visible, enabled and matching up to and including it. */
  lemma StillSeen(all: seq<Binding>, tr: Trace, i: Input, b: Binding)
    requires Good(all, tr) && b in Filter(Continues(tr.pending.typed + [i.key]), Filter(SeenIn(i.env), tr.pending.live))
    ensures b in all && |b.sequence| >= |tr.since| + 1 && SeenThroughout(tr.since + [i], b)
  {
    var seen, next := Filter(SeenIn(i.env), tr.pending.live), tr.pending.typed + [i.key];
    FilterMembers(Continues(next), seen, b);
    FilterMembers(SeenIn(i.env), tr.pending.live, b);
    PrefixShrinks(b.sequence, tr.pending.typed, i.key);
    assert forall k :: 0 <= k < |tr.since| ==> (tr.since + [i])[k] == tr.since[k];
  }

  lemma StartIsSeen(all: seq<Binding>, i: Input, b: Binding)
    requires AllValidated(all) && b in Initial(all, i.env, i.key)
    ensures b in all && |b.sequence| > 1 && SeenThroughout([i], b)
  {
    LiveNowMembers(all, i.env, [i.key], b);
  }

  lemma AdvanceKeeps(all: seq<Binding>, tr: Trace, i: Input)
    requires AllValidated(all) && Good(all, tr)
    ensures Good(all, Advance(all, tr, i))
  {
    if i.key.text != "" {
      if tr.pending.typed == [] {
        forall b | b in Initial(all, i.env, i.key)
          ensures b in all && |b.sequence| > 1 && SeenThroughout([i], b)
        {
          StartIsSeen(all, i, b);
        }
      } else {
        ContinueKeeps(all, tr, i);
      }
    }
  }

  lemma ContinueKeeps(all: seq<Binding>, tr: Trace, i: Input)
    requires Good(all, tr) && tr.pending.typed != [] && i.key.text != ""
    ensures Good(all, Advance(all, tr, i))
  {
    var next := tr.pending.typed + [i.key];
    var live := Filter(Continues(next), Filter(SeenIn(i.env), tr.pending.live));
    PickMember(None, EndsAt(|next|), live);
    if live != [] && Pick(None, EndsAt(|next|), live).None? { LongerKeeps(all, tr, i, live); }
  }

  lemma LongerKeeps(all: seq<Binding>, tr: Trace, i: Input, live: seq<Binding>)
    requires Good(all, tr) && live != [] && forall b :: b in live ==> |b.sequence| != |tr.since| + 1
    requires live == Filter(Continues(tr.pending.typed + [i.key]), Filter(SeenIn(i.env), tr.pending.live))
    ensures Good(all, Trace(Pending(tr.pending.typed + [i.key], live), tr.since + [i]))
  {
    var since, next := tr.since + [i], tr.pending.typed + [i.key];
    forall b | b in live
      ensures b in all && |b.sequence| > |since| && SeenThroughout(since, b)
    {
      StillSeen(all, tr, i, b);
    }
    forall k | 0 <= k < |since| ensures next[k] == since[k].key { }
  }

  lemma {:induction false} RunIsGood(all: seq<Binding>, inputs: seq<Input>)
    requires AllValidated(all)
    ensures Good(all, Run(all, inputs))
  {
    if inputs != [] {
      RunIsGood(all, inputs[..|inputs| - 1]);
      AdvanceKeeps(all, Run(all, inputs[..|inputs| - 1]), inputs[|inputs| - 1]);
    }
  }

  predicate Named(i: Input) { i.key.text != "" }

  /** The keys of the sequence in progress are the last named keys pressed, none left out. */
  lemma {:induction false} SinceIsLatest(all: seq<Binding>, inputs: seq<Input>)
    ensures EndsWith(Filter(Named, inputs), Run(all, inputs).since)
  {
    if inputs != [] {
      var n := |inputs| - 1;
      SinceIsLatest(all, inputs[..n]);
      SinceGrows(Filter(Named, inputs[..n]), Run(all, inputs[..n]).since, inputs[n], Run(all, inputs).since);
    }
  }

  lemma SinceGrows(pressed: seq<Input>, since: seq<Input>, i: Input, since': seq<Input>)
    requires EndsWith(pressed, since) && (since' == [] || since' == if Named(i) then since + [i] else since)
    ensures EndsWith(pressed + if Named(i) then [i] else [], since')
  {
    SuffixSnoc(pressed, since, i);
    Empties(pressed);
  }

  /** A sequence fires only if its binding was visible, enabled and matching at every one of its keys. */
  lemma FiredWasSeenThroughout(all: seq<Binding>, inputs: seq<Input>, i: Input, b: Binding)
    requires AllValidated(all) && Run(all, inputs).pending.typed != []
    requires Step(all, i.env, Run(all, inputs).pending, i.key).1 == Fired(b)
    ensures var since := Run(all, inputs).since + [i];
            b in all && |b.sequence| == |since| && SeenThroughout(since, b)
  {
    var tr := Run(all, inputs);
    RunIsGood(all, inputs);
    var next := tr.pending.typed + [i.key];
    var live := Filter(Continues(next), Filter(SeenIn(i.env), tr.pending.live));
    PickMember(None, EndsAt(|next|), live);
    StillSeen(all, tr, i, b);
  }

  /** A condition that is absent, or fully known and true. */
  ghost predicate FullyHolds(c: Option<Expr>, state: Provider) {
    c.Some? ==> (forall p :: p in Paths(c.value) ==> Known(state, p)) && Holds(c.value, Truth(state))
  }

  ghost predicate RulesValid(rules: Rules) {
    (forall action :: action in rules.overrides ==> ValidCondition(rules.overrides[action])) &&
    (forall action :: action in rules.builtIn ==> ValidCondition(rules.builtIn[action]))
  }

  /** The binding's own condition, and its action's: the configured one, or else the built-in one. */
  ghost predicate ConditionsHold(env: Env, b: Binding) {
    FullyHolds(b.when, env.state) &&
    (b.action in env.rules.overrides ==> FullyHolds(Some(env.rules.overrides[b.action]), env.state)) &&
    (b.action !in env.rules.overrides && b.action in env.rules.builtIn ==>
       FullyHolds(Some(env.rules.builtIn[b.action]), env.state))
  }

  lemma MatchesFullyIff(c: Option<Expr>, state: Provider)
    requires c.Some? ==> ValidCondition(c.value)
    ensures Matches(c, state) <==> FullyHolds(c, state)
  {
    if c.Some? { MatchesIff(c.value, state); }
  }

  /** A binding is enabled exactly when every condition there is for it is fully known and true. */
  lemma EnabledIff(env: Env, b: Binding)
    requires RulesValid(env.rules) && (b.when.Some? ==> ValidCondition(b.when.value))
    ensures env.Enabled(b) <==> ConditionsHold(env, b)
  {
    MatchesFullyIff(b.when, env.state);
    MatchesFullyIff(env.rules.ActionWhen(b.action), env.state);
  }

  /** A sequence fires only if all conditions for its binding held at every one of its keys. */
  lemma FiredConditionHeld(all: seq<Binding>, inputs: seq<Input>, i: Input, b: Binding, env: Env, k: nat)
    requires AllValidated(all) && Run(all, inputs).pending.typed != []
    requires Step(all, i.env, Run(all, inputs).pending, i.key).1 == Fired(b) && k <= |Run(all, inputs).since|
    requires env == (Run(all, inputs).since + [i])[k].env && RulesValid(env.rules)
    ensures ConditionsHold(env, b)
  {
    FiredWasSeenThroughout(all, inputs, i, b);
    var u :| 0 <= u < |all| && all[u] == b;
    var since := Run(all, inputs).since + [i];
    assert SeenAt(since[k], b, k);
    EnabledIff(env, b);
  }

  /**
   A single key fires only a binding in a visible scope that has the key by one of its names and whose conditions hold.
   */
  lemma KeyConditionHeld(all: seq<Binding>, env: Env, k: Key, b: Binding)
    requires AllValidated(all) && RulesValid(env.rules) && Step(all, env, IDLE, k).1 == Fired(b)
    ensures b in all && ConditionsHold(env, b) && env.Shows(b.scope) && (k.text in b.keys || k.stroke in b.keys)
  {
    var vis := Visible(env.scopes);
    FirstScopeIsInnermost(all, vis, 0, KeyIn(env, k));
    InnermostIsOffered(all, vis, KeyIn(env, k), b);
    var j, t :| ScopeIsFirst(all, vis, KeyIn(env, k), b.scope, j) && IsLatest(all, KeyIn(env, k), b, t);
    assert all[t] == b;
    EnabledIff(env, b);
  }

  /** What an idle dispatcher takes of a binding: one of its keys, or the first of its sequence. */
  ghost predicate Takes(b: Binding, k: Key) {
    k.text in b.keys || k.stroke in b.keys ||
    (b.sequence != [] && (b.sequence[0] == k.text || b.sequence[0] == k.stroke))
  }

  lemma TakesIsOffer(env: Env, k: Key, b: Binding)
    requires env.Enabled(b)
    ensures Takes(b, k) <==> KeyIn(env, k)(b) || Live(env, [k], 1)(b)
  {
    assert [k][..1] == [k];
    if k.text in b.keys {
      var i :| 0 <= i < |b.keys| && b.keys[i] == k.text;
      assert KeyMatches(b.keys[i], k);
    }
    if k.stroke in b.keys {
      var i :| 0 <= i < |b.keys| && b.keys[i] == k.stroke;
      assert KeyMatches(b.keys[i], k);
    }
  }

  lemma TakenIffOffered(all: seq<Binding>, env: Env, k: Key, vis: seq<Scope>)
    requires vis == Visible(env.scopes)
    ensures (exists b :: b in all && env.Sees(b) && Takes(b, k)) <==>
              Offered(all, vis, KeyIn(env, k)) || Offered(all, vis, Live(env, [k], 1))
  {
    if b :| b in all && env.Sees(b) && Takes(b, k) {
      TakesIsOffer(env, k, b);
      var u :| 0 <= u < |all| && all[u] == b;
      var j :| 0 <= j < |vis| && vis[j].name == b.scope;
      assert all[u].scope == vis[j].name;
    }
    if Offered(all, vis, KeyIn(env, k)) {
      var j, u :| 0 <= j < |vis| && 0 <= u < |all| && all[u].scope == vis[j].name && KeyIn(env, k)(all[u]);
      TakesIsOffer(env, k, all[u]);
      assert env.Sees(all[u]);
    }
    if Offered(all, vis, Live(env, [k], 1)) {
      var j, u :| 0 <= j < |vis| && 0 <= u < |all| && all[u].scope == vis[j].name && Live(env, [k], 1)(all[u]);
      TakesIsOffer(env, k, all[u]);
      assert env.Sees(all[u]);
    }
  }

  /** A key is left alone exactly when it has no name or no visible enabled binding takes it. */
  lemma IgnoredIff(all: seq<Binding>, env: Env, k: Key)
    ensures Step(all, env, IDLE, k).1 == Ignored <==>
              k.text == "" || !exists b :: b in all && env.Sees(b) && Takes(b, k)
  {
    if k.text != "" {
      assert [k][..0] == [];
      FirstKey(all, env, k);
      TakenIffOffered(all, env, k, Visible(env.scopes));
    }
  }

  /** While a sequence is pending a key is consumed exactly when it has a name; one without a name changes nothing. */
  lemma PendingConsumes(all: seq<Binding>, env: Env, p: Pending, k: Key)
    requires p.typed != []
    ensures Step(all, env, p, k).1 == Ignored <==> k.text == ""
    ensures k.text == "" ==> Step(all, env, p, k).0 == p
    ensures k.text != "" && (k.text == "esc" || k.stroke == "esc") ==> Step(all, env, p, k) == (IDLE, Swallowed)
  {
  }

  function Longest(all: seq<Binding>, n: nat): nat
    requires n <= |all|
  {
    if n == 0 then 0
    else if |all[n - 1].sequence| > Longest(all, n - 1) then |all[n - 1].sequence| else Longest(all, n - 1)
  }

  lemma {:induction false} LongestBounds(all: seq<Binding>, n: nat, b: Binding)
    requires n <= |all| && b in all[..n]
    ensures |b.sequence| <= Longest(all, n)
  {
    TakeSnoc(all, n - 1);
    if b in all[..n - 1] { LongestBounds(all, n - 1, b); }
  }

  lemma PendingIsShort(all: seq<Binding>, inputs: seq<Input>)
    requires AllValidated(all) && Run(all, inputs).pending.typed != []
    ensures |Run(all, inputs).since| < Longest(all, |all|)
  {
    RunIsGood(all, inputs);
    var b := Run(all, inputs).pending.live[0];
    Empties(all);
    LongestBounds(all, |all|, b);
  }

  lemma {:induction false} PendingGrows(all: seq<Binding>, inputs: seq<Input>, more: seq<Input>)
    requires AllValidated(all) && forall i :: 0 <= i < |more| ==> Named(more[i])
    requires forall k {:trigger more[..k]} :: 0 <= k <= |more| ==> Run(all, inputs + more[..k]).pending.typed != []
    ensures |Run(all, inputs + more).since| == |Run(all, inputs).since| + |more|
  {
    if more == [] {
      Empties(inputs);
    } else {
      var n := |more| - 1;
      forall k | 0 <= k <= n
        ensures Run(all, inputs + more[..n][..k]).pending.typed != []
      {
        assert more[..n][..k] == more[..k];
      }
      PendingGrows(all, inputs, more[..n]);
      CutLast(inputs, more);
      assert more[..|more|] == more;
      assert (inputs + more)[..|inputs + more| - 1] == inputs + more[..n];
    }
  }

  /** Once started, a sequence ends within one key less than the longest binding has, whatever happens meanwhile. */
  lemma PendingEnds(all: seq<Binding>, inputs: seq<Input>, more: seq<Input>)
    requires AllValidated(all) && Run(all, inputs).pending.typed != []
    requires (forall i :: 0 <= i < |more| ==> Named(more[i])) && |more| >= Longest(all, |all|) - 1
    ensures exists k :: 0 <= k <= |more| && Run(all, inputs + more[..k]).pending.typed == []
  {
    if forall k {:trigger more[..k]} :: 0 <= k <= |more| ==> Run(all, inputs + more[..k]).pending.typed != [] {
      PendingGrows(all, inputs, more);
      RunIsGood(all, inputs);
      assert more[..|more|] == more;
      PendingIsShort(all, inputs + more);
    }
  }
}
