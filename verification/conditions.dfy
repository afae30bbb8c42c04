/** `when` conditions over model state (internal/ui/actionmeta/condition.go). */
module Conditions {
  import opened Text

  // What Go's expression parser can hand over; anything else is Other.
  datatype Expr =
    | Ident(name: string)
    | Selector(base: Expr, field: string)
    | Paren(inner: Expr)
    | Unary(isNot: bool, operand: Expr)
    | Binary(op: BinaryOp, left: Expr, right: Expr)
    | Other

  datatype BinaryOp = AndOp | OrOp | OtherOp

  datatype Value = Bool(b: bool) | NotBool

  // None: no state provider is set.
  type Provider = Option<string -> Option<Value>>

  function StatePath(e: Expr): Option<string> {
    match e
    case Ident(name) => Some(name)
    case Selector(base, field) =>
      var b := StatePath(base);
      if b.Some? then Some(b.value + "." + field) else None
    case _ => None
  }

  predicate ValidCondition(e: Expr) {
    StatePath(e).Some? ||
    match e
    case Paren(x) => ValidCondition(x)
    case Unary(isNot, x) => isNot && ValidCondition(x)
    case Binary(op, x, y) => !op.OtherOp? && ValidCondition(x) && ValidCondition(y)
    case _ => false
  }

  // Value and validity, as the source returns them.
  function Evaluate(e: Expr, state: Provider): (bool, bool) {
    var path := StatePath(e);
    if path.Some? then EvaluatePath(path.value, state)
    else
      match e
      case Paren(x) => Evaluate(x, state)
      case Unary(_, x) => var (v, ok) := Evaluate(x, state); (!v, ok)
      case Binary(op, x, y) =>
        var (l, lok) := Evaluate(x, state);
        var (r, rok) := Evaluate(y, state);
        if op.AndOp? then (l && r, lok && rok) else (l || r, lok && rok)
      case _ => (false, false)
  }

  function EvaluatePath(path: string, state: Provider): (bool, bool) {
    if path == "true" then (true, true)
    else if path == "false" then (false, true)
    else if state.None? then (false, false)
    else
      var v := state.value(path);
      (v.Some? && v.value.Bool? && v.value.b, v.Some? && v.value.Bool?)
  }

  // None is the unconditional condition.
  predicate Matches(c: Option<Expr>, state: Provider) {
    c.None? || (Evaluate(c.value, state).0 && Evaluate(c.value, state).1)
  }

  // ---------- what a condition means ----------

  /** Every state path the condition mentions, wherever it stands. */
  ghost function Paths(e: Expr): set<string> {
    var path := StatePath(e);
    if path.Some? then {path.value}
    else
      match e
      case Paren(x) => Paths(x)
      case Unary(_, x) => Paths(x)
      case Binary(_, x, y) => Paths(x) + Paths(y)
      case _ => {}
  }

  /** Plain boolean reading under a total assignment of the paths. */
  ghost predicate Holds(e: Expr, truth: string -> bool) {
    var path := StatePath(e);
    if path.Some? then truth(path.value)
    else
      match e
      case Paren(x) => Holds(x, truth)
      case Unary(_, x) => !Holds(x, truth)
      case Binary(op, x, y) =>
        if op.AndOp? then Holds(x, truth) && Holds(y, truth) else Holds(x, truth) || Holds(y, truth)
      case _ => false
  }

  /** `true`, `false` and every path the provider gives a boolean for. */
  predicate Known(state: Provider, path: string) {
    path == "true" || path == "false" ||
    (state.Some? && (state.value(path) == Some(Bool(true)) || state.value(path) == Some(Bool(false))))
  }

  ghost function Truth(state: Provider): string -> bool {
    path => path == "true" || (path != "false" && state.Some? && state.value(path) == Some(Bool(true)))
  }

  lemma {:induction false} EvaluateMeaning(e: Expr, state: Provider)
    requires ValidCondition(e)
    ensures Evaluate(e, state).1 <==> forall p :: p in Paths(e) ==> Known(state, p)
    ensures Evaluate(e, state).0 == Holds(e, Truth(state))
  {
    if StatePath(e).Some? {
      var path := StatePath(e).value;
      assert Paths(e) == {path} && path in Paths(e);
      assert Evaluate(e, state) == EvaluatePath(path, state);
      forall p | p in Paths(e) && Known(state, path) ensures Known(state, p) { assert p == path; }
    } else {
      match e
      case Paren(x) => EvaluateMeaning(x, state);
      case Unary(_, x) => EvaluateMeaning(x, state);
      case Binary(_, x, y) => EvaluateMeaning(x, state); EvaluateMeaning(y, state);
      case _ =>
    }
  }

  /** Fails closed: a match needs every path known, even under a negation or beside a true disjunct. */
  lemma MatchesIff(e: Expr, state: Provider)
    requires ValidCondition(e)
    ensures Matches(Some(e), state) <==> (forall p :: p in Paths(e) ==> Known(state, p)) && Holds(e, Truth(state))
  {
    EvaluateMeaning(e, state);
  }
  /** A name followed by field names, as written with dots. */
  function Dotted(names: seq<string>): Expr
    requires names != []
  {
    if |names| == 1 then Ident(names[0]) else Selector(Dotted(names[..|names| - 1]), names[|names| - 1])
  }

  lemma FieldPath(base: Expr, before: seq<string>, field: string)
    requires StatePath(base).Some? && SplitOn(StatePath(base).value, '.') == before && '.' !in field
    ensures StatePath(Selector(base, field)).Some? &&
            SplitOn(StatePath(Selector(base, field)).value, '.') == before + [field]
  {
    SplitLast(StatePath(base).value, field, '.');
    assert StatePath(Selector(base, field)).value == StatePath(base).value + ['.'] + field;
  }

  lemma LastName<T>(names: seq<T>)
    requires names != []
    ensures names[..|names| - 1] + [names[|names| - 1]] == names
  {
  }

  /** A state path spells the names of its chain, and nothing but such a chain has one. */
  lemma {:induction false} DottedPath(names: seq<string>)
    requires names != [] && forall i :: 0 <= i < |names| ==> '.' !in names[i]
    ensures StatePath(Dotted(names)).Some? && SplitOn(StatePath(Dotted(names)).value, '.') == names
  {
    var n := |names| - 1;
    if n == 0 {
      SplitSingle(names[0], '.');
      assert names == [names[0]];
    } else {
      DottedPath(names[..n]);
      FieldPath(Dotted(names[..n]), names[..n], names[n]);
      LastName(names);
    }
  }

  lemma {:induction false} OnlyDottedHasPath(e: Expr) returns (names: seq<string>)
    requires StatePath(e).Some?
    ensures names != [] && e == Dotted(names)
  {
    match e
    case Ident(name) => names := [name];
    case Selector(base, field) =>
      var before := OnlyDottedHasPath(base);
      names := before + [field];
      assert names[..|names| - 1] == before;
  }
}
