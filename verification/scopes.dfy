/** Which scopes a key can reach (internal/ui/common/scope.go). */
module Scopes {
  import opened Text

  datatype Leak = LeakAll | LeakGlobal | LeakNone

  datatype Scope = Scope(name: string, leak: Leak, isGlobal: bool)

  function Globals(scopes: seq<Scope>, from: nat, to: nat): seq<Scope>
    requires from <= to <= |scopes|
  {
    if from == to then [] else Globals(scopes, from, to - 1) + if scopes[to - 1].isGlobal then [scopes[to - 1]] else []
  }

  function VisibleFrom(scopes: seq<Scope>, i: nat): seq<Scope>
    requires i <= |scopes|
    decreases |scopes| - i
  {
    if i == |scopes| then scopes
    else if scopes[i].leak.LeakNone? then scopes[..i + 1]
    else if scopes[i].leak.LeakGlobal? then scopes[..i + 1] + Globals(scopes, i + 1, |scopes|)
    else VisibleFrom(scopes, i + 1)
  }

  function Visible(scopes: seq<Scope>): seq<Scope> { VisibleFrom(scopes, 0) }

  method VisibleScopes(scopes: seq<Scope>) returns (visible: seq<Scope>)
    ensures visible == Visible(scopes)
  {
    for i := 0 to |scopes|
      invariant VisibleFrom(scopes, 0) == VisibleFrom(scopes, i)
    {
      if scopes[i].leak.LeakNone? { return scopes[..i + 1]; }
      if scopes[i].leak.LeakGlobal? {
        var rest := [];
        for j := i + 1 to |scopes|
          invariant rest == Globals(scopes, i + 1, j)
        {
          if scopes[j].isGlobal { rest := rest + [scopes[j]]; }
        }
        return scopes[..i + 1] + rest;
      }
    }
    return scopes;
  }

  /**
   Scope `j` is not cut off: nothing inside it stops the key, or the innermost stop lets globals through and it is one.
   */
  ghost predicate Reaches(scopes: seq<Scope>, j: int) {
    0 <= j < |scopes| &&
    forall i :: 0 <= i < j && !scopes[i].leak.LeakAll? && (forall k :: 0 <= k < i ==> scopes[k].leak.LeakAll?) ==>
      scopes[i].leak.LeakGlobal? && scopes[j].isGlobal
  }

  /** The first `n` scopes without those that are cut off, in order. */
  ghost function Reached(scopes: seq<Scope>, n: nat): seq<Scope>
    requires n <= |scopes|
  {
    if n == 0 then [] else Reached(scopes, n - 1) + if Reaches(scopes, n - 1) then [scopes[n - 1]] else []
  }

  lemma {:induction false} NothingStops(scopes: seq<Scope>, i: nat)
    requires i <= |scopes| && forall k :: 0 <= k < i - 1 ==> scopes[k].leak.LeakAll?
    ensures Reached(scopes, i) == scopes[..i]
  {
    if i > 0 {
      NothingStops(scopes, i - 1);
      TakeSnoc(scopes, i - 1);
    }
  }

  lemma {:induction false} AfterStop(scopes: seq<Scope>, i: nat, n: nat)
    requires i < n <= |scopes| && !scopes[i].leak.LeakAll? && forall k :: 0 <= k < i ==> scopes[k].leak.LeakAll?
    ensures Reached(scopes, n) == scopes[..i + 1] + if scopes[i].leak.LeakGlobal? then Globals(scopes, i + 1, n) else []
  {
    if n == i + 1 {
      NothingStops(scopes, i + 1);
    } else {
      AfterStop(scopes, i, n - 1);
      assert Reaches(scopes, n - 1) <==> scopes[i].leak.LeakGlobal? && scopes[n - 1].isGlobal;
    }
  }

  lemma {:induction false} VisibleFromIs(scopes: seq<Scope>, i: nat)
    requires i <= |scopes| && forall k :: 0 <= k < i ==> scopes[k].leak.LeakAll?
    ensures VisibleFrom(scopes, i) == Reached(scopes, |scopes|)
    decreases |scopes| - i
  {
    if i == |scopes| {
      NothingStops(scopes, i);
    } else if scopes[i].leak.LeakAll? {
      VisibleFromIs(scopes, i + 1);
    } else {
      AfterStop(scopes, i, |scopes|);
    }
  }

  /** Exactly the scopes that are not cut off stay visible, innermost first. */
  lemma VisibleIsReached(scopes: seq<Scope>)
    ensures Visible(scopes) == Reached(scopes, |scopes|)
  {
    VisibleFromIs(scopes, 0);
  }
}
