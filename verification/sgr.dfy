/** Terminal styles and the parameters of an SGR sequence (applyParamsToStyle in internal/screen/ansi_parser.go). */
module Sgr {
  import opened Text

  datatype Attr = Bold | Faint | Italic | Underline | Blink | Reverse | Strikethrough | Foreground | Background

  // Ansi: one of the sixteen named colours; Palette: an index given after 38;5 or 48;5; Rgb: after 38;2 or 48;2.
  datatype Color = Ansi(n: int) | Palette(n: int) | Rgb(r: int, g: int, b: int)

  datatype Value = On | Paint(color: Color)

  /** The properties that are set. */
  type Style = map<Attr, Value>

  const PLAIN: Style := map[]

  function Get(s: Style, a: Attr): Option<Value> { if a in s then Some(s[a]) else None }

  // Nothing is a field that has no effect: empty, unknown, or not a number.
  datatype Op = Reset | Put(attr: Attr, value: Value) | Drop(attrs: set<Attr>) | Nothing

  function Apply(s: Style, op: Op): Style {
    match op
    case Reset => PLAIN
    case Put(a, v) => s[a := v]
    case Drop(attrs) => s - attrs
    case Nothing => s
  }

  function ApplyAll(s: Style, ops: seq<Op>): Style
    decreases |ops|
  {
    if ops == [] then s else ApplyAll(Apply(s, ops[0]), ops[1..])
  }

  // ---------- reading the parameters ----------

  function ColorOp(code: int): Op {
    if 30 <= code <= 37 then Put(Foreground, Paint(Ansi(code - 30)))
    else if code == 39 then Drop({Foreground})
    else if 40 <= code <= 47 then Put(Background, Paint(Ansi(code - 40)))
    else if code == 49 then Drop({Background})
    else if 90 <= code <= 97 then Put(Foreground, Paint(Ansi(code - 90 + 8)))
    else if 100 <= code <= 107 then Put(Background, Paint(Ansi(code - 100 + 8)))
    else Nothing
  }

  function SimpleOp(code: int): Op {
    match code
    case 0 => Reset
    case 1 => Put(Bold, On)
    case 2 => Put(Faint, On)
    case 3 => Put(Italic, On)
    case 4 => Put(Underline, On)
    case 5 => Put(Blink, On)
    case 6 => Put(Blink, On)
    case 7 => Put(Reverse, On)
    case 8 => Put(Faint, On) // hidden text has no counterpart
    case 9 => Put(Strikethrough, On)
    case 22 => Drop({Bold, Faint})
    case 23 => Drop({Italic})
    case 24 => Drop({Underline})
    case 25 => Drop({Blink})
    case 27 => Drop({Reverse})
    case 28 => Drop({Faint})
    case 29 => Drop({Strikethrough})
    case _ => ColorOp(code)
  }

  predicate Indexed(parts: seq<string>, i: nat) { i + 2 < |parts| && parts[i + 1] == "5" }

  predicate Direct(parts: seq<string>, i: nat) { i + 4 < |parts| && parts[i + 1] == "2" }

  function Extended(parts: seq<string>, i: nat, a: Attr): Op
    requires Indexed(parts, i) || Direct(parts, i)
  {
    if Indexed(parts, i) then
      var n := Atoi(parts[i + 2]);
      if n.Some? then Put(a, Paint(Palette(n.value))) else Nothing
    else
      var r, g, b := Atoi(parts[i + 2]), Atoi(parts[i + 3]), Atoi(parts[i + 4]);
      if r.Some? && g.Some? && b.Some? then Put(a, Paint(Rgb(r.value, g.value, b.value))) else Nothing
  }

  /** The operation that starts at field `i` and how many fields it takes. */
  function OpAt(parts: seq<string>, i: nat): (r: (Op, nat))
    requires i < |parts|
    ensures 1 <= r.1 <= |parts| - i
  {
    var code := Atoi(parts[i]);
    if code.None? then (Nothing, 1)
    else if (code.value == 38 || code.value == 48) && (Indexed(parts, i) || Direct(parts, i)) then
      (Extended(parts, i, if code.value == 38 then Foreground else Background), if Indexed(parts, i) then 3 else 5)
    else (SimpleOp(code.value), 1)
  }

  function Ops(parts: seq<string>, i: nat): seq<Op>
    requires i <= |parts|
    decreases |parts| - i
  {
    if i == |parts| then [] else [OpAt(parts, i).0] + Ops(parts, i + OpAt(parts, i).1)
  }

  /** The operations an SGR parameter string stands for. */
  function Program(param: string): seq<Op> { Ops(SplitOn(param, ';'), 0) }

  lemma HeadTail(s: Style, op: Op, rest: seq<Op>)
    ensures ApplyAll(s, [op] + rest) == ApplyAll(Apply(s, op), rest)
  {
    assert ([op] + rest)[1..] == rest;
  }

  method ApplyParams(style: Style, param: string) returns (out: Style)
    ensures out == ApplyAll(style, Program(param))
  {
    if param == "" {
      HeadTail(style, Nothing, []);
      assert Program(param) == [Nothing];
      return style;
    }
    var parts := SplitOn(param, ';');
    out := style;
    var i := 0;
    while i < |parts|
      invariant i <= |parts| && ApplyAll(style, Program(param)) == ApplyAll(out, Ops(parts, i))
    {
      var (op, width) := OpAt(parts, i);
      HeadTail(out, op, Ops(parts, i + width));
      out := Apply(out, op);
      i := i + width;
    }
  }

  // ---------- the last operation on an attribute decides ----------

  predicate Touches(op: Op, a: Attr) {
    match op
    case Reset => true
    case Put(b, _) => a == b
    case Drop(attrs) => a in attrs
    case Nothing => false
  }

  function Leaves(op: Op): Option<Value> { if op.Put? then Some(op.value) else None }

  lemma {:induction false} Untouched(s: Style, ops: seq<Op>, a: Attr)
    requires forall i :: 0 <= i < |ops| ==> !Touches(ops[i], a)
    ensures Get(ApplyAll(s, ops), a) == Get(s, a)
    decreases |ops|
  {
    if ops != [] { Untouched(Apply(s, ops[0]), ops[1..], a); }
  }

  lemma {:induction false} ApplyAppend(s: Style, xs: seq<Op>, ys: seq<Op>)
    ensures ApplyAll(s, xs + ys) == ApplyAll(ApplyAll(s, xs), ys)
    decreases |xs|
  {
    if xs == [] {
      Empties(ys);
    } else {
      assert (xs + ys)[1..] == xs[1..] + ys;
      ApplyAppend(Apply(s, xs[0]), xs[1..], ys);
    }
  }

  lemma ApplyUpTo(s: Style, ops: seq<Op>, k: nat)
    requires k < |ops|
    ensures ApplyAll(s, ops) == ApplyAll(Apply(ApplyAll(s, ops[..k]), ops[k]), ops[k + 1..])
  {
    Cut(ops, k);
    ApplyAppend(s, ops[..k], ops[k..]);
    assert ops[k..][1..] == ops[k + 1..];
  }

  /** Whatever came before, an attribute ends up as the last operation that touches it leaves it. */
  lemma LastWins(s: Style, ops: seq<Op>, a: Attr, k: nat)
    requires k < |ops| && Touches(ops[k], a) && forall i :: k < i < |ops| ==> !Touches(ops[i], a)
    ensures Get(ApplyAll(s, ops), a) == Leaves(ops[k])
  {
    ApplyUpTo(s, ops, k);
    Untouched(Apply(ApplyAll(s, ops[..k]), ops[k]), ops[k + 1..], a);
  }

  ghost predicate TouchedAfter(ops: seq<Op>, a: Attr, k: nat) { exists i :: k <= i < |ops| && Touches(ops[i], a) }

  lemma {:induction false} LastTouch(ops: seq<Op>, a: Attr, k: nat, n: nat) returns (i: nat)
    requires k <= n <= |ops| && exists j :: k <= j < n && Touches(ops[j], a)
    ensures k <= i < n && Touches(ops[i], a) && forall j :: i < j < n ==> !Touches(ops[j], a)
  {
    if Touches(ops[n - 1], a) { return n - 1; }
    i := LastTouch(ops, a, k, n - 1);
  }

  /** Two styles can differ afterwards only in attributes the operations do not touch. */
  lemma SameWhereTouched(s: Style, t: Style, ops: seq<Op>, a: Attr)
    ensures Get(ApplyAll(s, ops), a) == Get(ApplyAll(t, ops), a) <==> TouchedAfter(ops, a, 0) || Get(s, a) == Get(t, a)
  {
    if TouchedAfter(ops, a, 0) {
      var k := LastTouch(ops, a, 0, |ops|);
      LastWins(s, ops, a, k);
      LastWins(t, ops, a, k);
    } else {
      Untouched(s, ops, a);
      Untouched(t, ops, a);
    }
  }

  lemma StylesEqual(s: Style, t: Style)
    requires forall a :: Get(s, a) == Get(t, a)
    ensures s == t
  {
    assert forall a :: a in s <==> Get(s, a).Some?;
    assert forall a :: a in t <==> Get(t, a).Some?;
    assert forall a :: a in s ==> Get(s, a) == Some(s[a]) && Get(t, a) == Some(t[a]);
  }

  /** Sending the same sequence twice is sending it once. */
  lemma ApplyTwice(s: Style, ops: seq<Op>)
    ensures ApplyAll(ApplyAll(s, ops), ops) == ApplyAll(s, ops)
  {
    forall a ensures Get(ApplyAll(ApplyAll(s, ops), ops), a) == Get(ApplyAll(s, ops), a) {
      if !TouchedAfter(ops, a, 0) { Untouched(s, ops, a); }
      SameWhereTouched(ApplyAll(s, ops), s, ops, a);
    }
    StylesEqual(ApplyAll(ApplyAll(s, ops), ops), ApplyAll(s, ops));
  }

  // ---------- the standard's default for an empty field ----------

  /** Section 8.3.117 of ECMA-48: an empty field means 0, wherever it stands. */
  function Filled(parts: seq<string>): (out: seq<string>)
    ensures |out| == |parts| && forall i :: 0 <= i < |parts| ==> out[i] == if parts[i] == "" then "0" else parts[i]
  {
    seq(|parts|, i requires 0 <= i < |parts| => if parts[i] == "" then "0" else parts[i])
  }

  /**
   The operations the parameter string stands for when an empty field is read as the standard reads it. Only that
   default is taken from the standard; the codes keep the meaning the source gives them (8 sets faint, 21 is ignored).
   */
  function Standard(param: string): seq<Op> { Ops(Filled(SplitOn(param, ';')), 0) }

  /** The lists differ only where the first does nothing. */
  ghost predicate Defaulted(xs: seq<Op>, ys: seq<Op>) {
    |xs| == |ys| && forall k :: 0 <= k < |xs| ==> xs[k] == ys[k] || xs[k].Nothing?
  }

  lemma ZeroIsReset()
    ensures Atoi("0") == Some(0) && Atoi("") == None
  {
    assert DigitsValue("0") == 0;
  }

  /** Filling in zeros moves no field boundary and only adds effects where there were none. */
  lemma OpAtFilled(parts: seq<string>, i: nat)
    requires i < |parts|
    ensures OpAt(Filled(parts), i).1 == OpAt(parts, i).1
    ensures OpAt(Filled(parts), i).0 == OpAt(parts, i).0 || OpAt(parts, i).0.Nothing?
  {
    ZeroIsReset();
    assert Indexed(Filled(parts), i) == Indexed(parts, i) && Direct(Filled(parts), i) == Direct(parts, i);
  }

  lemma DefaultedCons(x: Op, y: Op, xs: seq<Op>, ys: seq<Op>)
    requires (x == y || x.Nothing?) && Defaulted(xs, ys)
    ensures Defaulted([x] + xs, [y] + ys)
  {
  }

  lemma {:induction false} OpsFilled(parts: seq<string>, filled: seq<string>, i: nat)
    requires i <= |parts| && filled == Filled(parts)
    ensures Defaulted(Ops(parts, i), Ops(filled, i))
    decreases |parts| - i
  {
    if i < |parts| {
      OpAtFilled(parts, i);
      var n := i + OpAt(parts, i).1;
      OpsFilled(parts, filled, n);
      DefaultedCons(OpAt(parts, i).0, OpAt(filled, i).0, Ops(parts, n), Ops(filled, n));
    }
  }

  lemma ProgramDefaulted(param: string)
    ensures Defaulted(Program(param), Standard(param))
  {
    OpsFilled(SplitOn(param, ';'), Filled(SplitOn(param, ';')), 0);
  }

  /** Operation `k` is the last in the standard's reading to touch the attribute, and the source skips it. */
  ghost predicate SkipsLast(xs: seq<Op>, ys: seq<Op>, a: Attr, k: int) {
    0 <= k < |xs| && |xs| == |ys| && xs[k] != ys[k] && Touches(ys[k], a) &&
    forall i :: k < i < |ys| ==> !Touches(ys[i], a)
  }

  /** Where the last operation on the attribute is skipped, the attribute already had the value it stands for. */
  ghost predicate AlreadyThere(s: Style, xs: seq<Op>, ys: seq<Op>, a: Attr) {
    forall k :: SkipsLast(xs, ys, a, k) ==> Get(ApplyAll(s, xs[..k]), a) == Leaves(ys[k])
  }

  lemma SkippedLeaves(s: Style, xs: seq<Op>, ys: seq<Op>, a: Attr, k: nat)
    requires Defaulted(xs, ys) && SkipsLast(xs, ys, a, k)
    ensures Get(ApplyAll(s, xs), a) == Get(ApplyAll(s, xs[..k]), a) && Get(ApplyAll(s, ys), a) == Leaves(ys[k])
  {
    LastWins(s, ys, a, k);
    ApplyUpTo(s, xs, k);
    var rest := xs[k + 1..];
    forall i | 0 <= i < |rest| ensures !Touches(rest[i], a) { assert rest[i] == xs[k + 1 + i]; }
    Untouched(ApplyAll(s, xs[..k]), rest, a);
  }

  lemma AttributeAgreesIff(s: Style, xs: seq<Op>, ys: seq<Op>, a: Attr)
    requires Defaulted(xs, ys)
    ensures Get(ApplyAll(s, xs), a) == Get(ApplyAll(s, ys), a) <==> AlreadyThere(s, xs, ys, a)
  {
    if TouchedAfter(ys, a, 0) {
      var k := LastTouch(ys, a, 0, |ys|);
      assert forall i :: SkipsLast(xs, ys, a, i) ==> i == k;
      if xs[k] == ys[k] {
        LastWins(s, ys, a, k);
        LastWins(s, xs, a, k);
      } else {
        assert SkipsLast(xs, ys, a, k);
        SkippedLeaves(s, xs, ys, a, k);
      }
    } else {
      Untouched(s, xs, a);
      Untouched(s, ys, a);
    }
  }

  lemma ListsAgreeIff(s: Style, xs: seq<Op>, ys: seq<Op>)
    requires Defaulted(xs, ys)
    ensures ApplyAll(s, xs) == ApplyAll(s, ys) <==> forall a :: AlreadyThere(s, xs, ys, a)
  {
    var left, right := ApplyAll(s, xs), ApplyAll(s, ys);
    forall a ensures Get(left, a) == Get(right, a) <==> AlreadyThere(s, xs, ys, a) { AttributeAgreesIff(s, xs, ys, a); }
    if forall a :: AlreadyThere(s, xs, ys, a) { StylesEqual(left, right); }
  }

  /**
   From a given style the source gives the standard's result exactly when each attribute whose last operation is a
   skipped empty field already had, at that point, the value the field stands for.
   */
  lemma DefaultAgreesIff(s: Style, param: string)
    ensures ApplyAll(s, Program(param)) == ApplyAll(s, Standard(param)) <==>
            forall a :: AlreadyThere(s, Program(param), Standard(param), a)
  {
    ProgramDefaulted(param);
    ListsAgreeIff(s, Program(param), Standard(param));
  }

  /**
   Operation `j` is the last before `k` to touch the attribute, and leaves what operation `k` of the standard would.
   */
  ghost predicate MadeUp(xs: seq<Op>, ys: seq<Op>, a: Attr, j: int, k: int) {
    0 <= j < k < |xs| && |xs| == |ys| && Touches(xs[j], a) && Leaves(xs[j]) == Leaves(ys[k]) &&
    forall i :: j < i < k ==> !Touches(xs[i], a)
  }

  /** Every skipped last operation on the attribute repeats what the operations before it had done. */
  ghost predicate AlwaysMadeUp(xs: seq<Op>, ys: seq<Op>, a: Attr) {
    forall k :: SkipsLast(xs, ys, a, k) ==> exists j :: MadeUp(xs, ys, a, j, k)
  }

  lemma MadeUpIsThere(s: Style, xs: seq<Op>, ys: seq<Op>, a: Attr, j: nat, k: nat)
    requires MadeUp(xs, ys, a, j, k)
    ensures Get(ApplyAll(s, xs[..k]), a) == Leaves(ys[k])
  {
    var before := xs[..k];
    assert before[j] == xs[j] && forall i :: j < i < k ==> before[i] == xs[i];
    LastWins(s, before, a, j);
  }

  /** If nothing made up for the skipped operation, some style shows the difference. */
  lemma NotMadeUpShows(xs: seq<Op>, ys: seq<Op>, a: Attr, k: nat) returns (s: Style)
    requires SkipsLast(xs, ys, a, k) && forall j :: !MadeUp(xs, ys, a, j, k)
    ensures Get(ApplyAll(s, xs[..k]), a) != Leaves(ys[k])
  {
    var before := xs[..k];
    s := if Leaves(ys[k]).None? then map[a := On] else PLAIN;
    assert forall i :: 0 <= i < k ==> before[i] == xs[i];
    if TouchedAfter(before, a, 0) {
      var j := LastTouch(before, a, 0, k);
      LastWins(s, before, a, j);
      assert !MadeUp(xs, ys, a, j, k);
    } else {
      Untouched(s, before, a);
    }
  }

  lemma ListsAlwaysAgreeIff(xs: seq<Op>, ys: seq<Op>)
    requires Defaulted(xs, ys)
    ensures (forall s: Style :: ApplyAll(s, xs) == ApplyAll(s, ys)) <==> forall a :: AlwaysMadeUp(xs, ys, a)
  {
    if forall a :: AlwaysMadeUp(xs, ys, a) {
      forall s: Style ensures ApplyAll(s, xs) == ApplyAll(s, ys) {
        forall a, k | SkipsLast(xs, ys, a, k) ensures Get(ApplyAll(s, xs[..k]), a) == Leaves(ys[k]) {
          assert AlwaysMadeUp(xs, ys, a);
          var j :| MadeUp(xs, ys, a, j, k);
          MadeUpIsThere(s, xs, ys, a, j, k);
        }
        assert forall a :: AlreadyThere(s, xs, ys, a);
        ListsAgreeIff(s, xs, ys);
      }
    } else {
      var a :| !AlwaysMadeUp(xs, ys, a);
      var k :| SkipsLast(xs, ys, a, k) && forall j :: !MadeUp(xs, ys, a, j, k);
      var s := NotMadeUpShows(xs, ys, a, k);
      assert !AlreadyThere(s, xs, ys, a);
      ListsAgreeIff(s, xs, ys);
    }
  }

  /**
   A parameter string is read as the standard reads it, from every style, exactly when each attribute whose last
   operation is a skipped empty field was last touched before it by an operation with the same effect.
   */
  lemma AlwaysAgreesIff(param: string)
    ensures (forall s: Style :: ApplyAll(s, Program(param)) == ApplyAll(s, Standard(param))) <==>
            forall a :: AlwaysMadeUp(Program(param), Standard(param), a)
  {
    ProgramDefaulted(param);
    ListsAlwaysAgreeIff(Program(param), Standard(param));
  }

  /** A parameter string without an empty field is read as the standard reads it. */
  lemma NoEmptyFieldAgrees(param: string)
    requires "" !in SplitOn(param, ';')
    ensures Program(param) == Standard(param)
  {
    var parts := SplitOn(param, ';');
    SameElements(Filled(parts), parts);
  }

  lemma OneOp(parts: seq<string>)
    requires |parts| > 0 && OpAt(parts, 0).1 == |parts|
    ensures Ops(parts, 0) == [OpAt(parts, 0).0]
  {
    assert Ops(parts, |parts|) == [];
  }

  /** `ESC [ m` leaves a bold style bold, where the standard resets it. */
  lemma EmptySequenceIsNotReset()
    ensures ApplyAll(map[Bold := On], Program("")) == map[Bold := On]
    ensures ApplyAll(map[Bold := On], Standard("")) == PLAIN
  {
    ZeroIsReset();
    assert SplitOn("", ';') == [""];
    OneOp([""]);
    OneOp(Filled([""]));
    HeadTail(map[Bold := On], Nothing, []);
    HeadTail(map[Bold := On], Reset, []);
  }

  lemma ThirtyEight(s: string)
    requires s == "38"
    ensures Atoi(s) == Some(38)
  {
    assert Itoa(38) == s by { assert Itoa(3) == "3"; }
    AtoiItoa(38);
  }

  lemma ShortColour(parts: seq<string>)
    requires parts == ["38", "5", ""]
    ensures Ops(parts, 0) == [Nothing] && Ops(Filled(parts), 0) == [Put(Foreground, Paint(Palette(0)))]
  {
    ZeroIsReset();
    ThirtyEight("38");
    OneOp(parts);
    OneOp(Filled(parts));
  }

  /** `ESC [ 38;5; m` sets no colour, where the standard selects palette colour 0. */
  lemma EmptyColourIsSkipped()
    ensures ApplyAll(PLAIN, Program("38;5;")) == PLAIN
    ensures ApplyAll(PLAIN, Standard("38;5;")) == map[Foreground := Paint(Palette(0))]
  {
    SplitHead("38", "5;", ';');
    SplitHead("5", "", ';');
    assert "38" + [';'] + "5;" == "38;5;" && "5" + [';'] + "" == "5;" && SplitOn("", ';') == [""];
    assert SplitOn("38;5;", ';') == ["38", "5", ""];
    ShortColour(SplitOn("38;5;", ';'));
    HeadTail(PLAIN, Nothing, []);
    HeadTail(PLAIN, Put(Foreground, Paint(Palette(0))), []);
  }
  // ---------- what the codes do ----------

  lemma NumberField(n: nat)
    requires n <= MAX_INT
    ensures ';' !in Itoa(n) && Atoi(Itoa(n)) == Some(n) && Itoa(n) != ""
  {
    AtoiItoa(n);
    assert !IsDigit(';');
  }

  lemma OneField(s: Style, n: nat, parts: seq<string>)
    requires n <= MAX_INT && parts == [Itoa(n)]
    ensures ApplyAll(s, Ops(parts, 0)) == Apply(s, SimpleOp(n))
  {
    NumberField(n);
    OneOp(parts);
    HeadTail(s, SimpleOp(n), []);
  }

  /** A single code has the effect of its row in the table. */
  lemma OneCode(s: Style, n: nat)
    requires n <= MAX_INT
    ensures ApplyAll(s, Program(Itoa(n))) == Apply(s, SimpleOp(n))
  {
    NumberField(n);
    SplitSingle(Itoa(n), ';');
    OneField(s, n, [Itoa(n)]);
  }

  /** 0 resets; 1 to 9 set one attribute each, 6 blinks like 5 and 8 is shown faint. */
  lemma SettingCodes(s: Style)
    ensures ApplyAll(s, Program(Itoa(0))) == map[]
    ensures ApplyAll(s, Program(Itoa(1))) == s[Bold := On] && ApplyAll(s, Program(Itoa(2))) == s[Faint := On]
    ensures ApplyAll(s, Program(Itoa(3))) == s[Italic := On] && ApplyAll(s, Program(Itoa(4))) == s[Underline := On]
    ensures ApplyAll(s, Program(Itoa(5))) == ApplyAll(s, Program(Itoa(6))) == s[Blink := On]
    ensures ApplyAll(s, Program(Itoa(7))) == s[Reverse := On] && ApplyAll(s, Program(Itoa(8))) == s[Faint := On]
    ensures ApplyAll(s, Program(Itoa(9))) == s[Strikethrough := On]
  {
    forall n: nat | n <= 9 ensures ApplyAll(s, Program(Itoa(n))) == Apply(s, SimpleOp(n)) { OneCode(s, n); }
  }

  /** 22 to 29 clear what 1 to 9 set, 22 both weights; 39 and 49 clear the colours. */
  predicate ClearsOnly(n: nat, cleared: set<Attr>) {
    (n == 22 && cleared == {Bold, Faint}) || (n == 23 && cleared == {Italic}) || (n == 24 && cleared == {Underline}) ||
    (n == 25 && cleared == {Blink}) || (n == 27 && cleared == {Reverse}) || (n == 28 && cleared == {Faint}) ||
    (n == 29 && cleared == {Strikethrough}) || (n == 39 && cleared == {Foreground}) ||
    (n == 49 && cleared == {Background})
  }

  lemma ClearingOps(n: nat, cleared: set<Attr>)
    requires ClearsOnly(n, cleared)
    ensures n <= MAX_INT && SimpleOp(n) == Drop(cleared)
  {
  }

  lemma ClearingCodes(s: Style, n: nat, cleared: set<Attr>)
    requires ClearsOnly(n, cleared)
    ensures ApplyAll(s, Program(Itoa(n))) == s - cleared
  {
    ClearingOps(n, cleared);
    OneCode(s, n);
  }

  /** The eight colours and their bright forms, for text and background; nothing else changes. */
  lemma ColourCodes(s: Style, n: nat)
    ensures 30 <= n <= 37 ==> ApplyAll(s, Program(Itoa(n))) == s[Foreground := Paint(Ansi(n - 30))]
    ensures 40 <= n <= 47 ==> ApplyAll(s, Program(Itoa(n))) == s[Background := Paint(Ansi(n - 40))]
    ensures 90 <= n <= 97 ==> ApplyAll(s, Program(Itoa(n))) == s[Foreground := Paint(Ansi(n - 82))]
    ensures 100 <= n <= 107 ==> ApplyAll(s, Program(Itoa(n))) == s[Background := Paint(Ansi(n - 92))]
  {
    if n <= 107 { OneCode(s, n); }
  }

  lemma OtherOps(n: nat)
    requires 9 < n < 22 || n == 26 || n == 38 || n == 48 || 49 < n < 90 || 97 < n < 100 || n > 107
    ensures SimpleOp(n) == Nothing
  {
  }

  /** Every other single code, 38 and 48 alone included, does nothing. */
  lemma OtherCodes(s: Style, n: nat)
    requires n <= MAX_INT && (9 < n < 22 || n == 26 || n == 38 || n == 48 || 49 < n < 90 || 97 < n < 100 || n > 107)
    ensures ApplyAll(s, Program(Itoa(n))) == s
  {
    OtherOps(n);
    OneCode(s, n);
  }

  /** Fields joined by semicolons. */
  function FieldsText(parts: seq<string>): string {
    if parts == [] then "" else if |parts| == 1 then parts[0] else parts[0] + [';'] + FieldsText(parts[1..])
  }

  lemma {:induction false} FieldsApart(parts: seq<string>)
    requires parts != [] && forall i :: 0 <= i < |parts| ==> ';' !in parts[i]
    ensures SplitOn(FieldsText(parts), ';') == parts
  {
    if |parts| == 1 {
      SplitSingle(parts[0], ';');
    } else {
      FieldsApart(parts[1..]);
      SplitHead(parts[0], FieldsText(parts[1..]), ';');
      Cut(parts, 1);
    }
  }

  /** The code that announces a colour for text or background. */
  function Announces(a: Attr): nat { if a.Foreground? then 38 else 48 }

  lemma IndexedFields(s: Style, a: Attr, n: nat, parts: seq<string>)
    requires (a.Foreground? || a.Background?) && n <= MAX_INT && parts == [Itoa(Announces(a)), "5", Itoa(n)]
    ensures ApplyAll(s, Ops(parts, 0)) == s[a := Paint(Palette(n))]
  {
    NumberField(Announces(a));
    NumberField(n);
    OneOp(parts);
    HeadTail(s, Put(a, Paint(Palette(n))), []);
  }

  /** `38;5;n` and `48;5;n` choose colour `n` of the palette. */
  lemma IndexedColour(s: Style, a: Attr, n: nat)
    requires (a.Foreground? || a.Background?) && n <= MAX_INT
    ensures ApplyAll(s, Program(FieldsText([Itoa(Announces(a)), "5", Itoa(n)]))) == s[a := Paint(Palette(n))]
  {
    var parts := [Itoa(Announces(a)), "5", Itoa(n)];
    NumberField(Announces(a));
    NumberField(n);
    FieldsApart(parts);
    IndexedFields(s, a, n, parts);
  }

  lemma DirectFields(s: Style, a: Attr, r: nat, g: nat, b: nat, parts: seq<string>)
    requires (a.Foreground? || a.Background?) && r <= MAX_INT && g <= MAX_INT && b <= MAX_INT
    requires parts == [Itoa(Announces(a)), "2", Itoa(r), Itoa(g), Itoa(b)]
    ensures ApplyAll(s, Ops(parts, 0)) == s[a := Paint(Rgb(r, g, b))]
  {
    NumberField(Announces(a));
    NumberField(r);
    NumberField(g);
    NumberField(b);
    OneOp(parts);
    HeadTail(s, Put(a, Paint(Rgb(r, g, b))), []);
  }

  /** `38;2;r;g;b` and `48;2;r;g;b` choose a colour by its parts. */
  lemma DirectColour(s: Style, a: Attr, r: nat, g: nat, b: nat)
    requires (a.Foreground? || a.Background?) && r <= MAX_INT && g <= MAX_INT && b <= MAX_INT
    ensures ApplyAll(s, Program(FieldsText([Itoa(Announces(a)), "2", Itoa(r), Itoa(g), Itoa(b)]))) ==
            s[a := Paint(Rgb(r, g, b))]
  {
    var parts := [Itoa(Announces(a)), "2", Itoa(r), Itoa(g), Itoa(b)];
    NumberField(Announces(a));
    NumberField(r);
    NumberField(g);
    NumberField(b);
    FieldsApart(parts);
    DirectFields(s, a, r, g, b, parts);
  }

  // ---------- codes one after the other ----------

  /** The fields of one complete code: a number other than 38 and 48, or a colour with all it needs. */
  predicate Complete(fields: seq<string>) {
    |fields| > 0 && OpAt(fields, 0).1 == |fields| &&
    (|fields| > 1 || (Atoi(fields[0]) != Some(38) && Atoi(fields[0]) != Some(48)))
  }

  lemma OpAtShift(all: seq<string>, n: nat, parts: seq<string>, i: nat)
    requires n <= |all| && all[n..] == parts && i < |parts|
    ensures OpAt(all, n + i) == OpAt(parts, i)
  {
    assert forall k :: i <= k < |parts| ==> all[n + k] == parts[k];
  }

  lemma {:induction false} OpsShift(all: seq<string>, n: nat, parts: seq<string>, i: nat)
    requires n <= |all| && all[n..] == parts && i <= |parts|
    ensures Ops(all, n + i) == Ops(parts, i)
    decreases |parts| - i
  {
    if i < |parts| {
      OpAtShift(all, n, parts, i);
      OpsShift(all, n, parts, i + OpAt(parts, i).1);
    }
  }

  lemma FirstOpAlone(fields: seq<string>, rest: seq<string>)
    requires Complete(fields)
    ensures OpAt(fields + rest, 0) == OpAt(fields, 0)
  {
    assert forall k :: 0 <= k < |fields| ==> (fields + rest)[k] == fields[k];
  }

  /** A complete code takes effect first, whatever follows it, and the rest is read as if it stood alone. */
  lemma CodesInTurn(s: Style, fields: seq<string>, rest: seq<string>)
    requires Complete(fields) && rest != []
    requires forall i :: 0 <= i < |fields| ==> ';' !in fields[i]
    requires forall i :: 0 <= i < |rest| ==> ';' !in rest[i]
    ensures ApplyAll(s, Program(FieldsText(fields + rest))) ==
            ApplyAll(ApplyAll(s, Program(FieldsText(fields))), Program(FieldsText(rest)))
  {
    FieldsApart(fields);
    FieldsApart(rest);
    FieldsApart(fields + rest);
    FirstOpAlone(fields, rest);
    OneOp(fields);
    assert (fields + rest)[|fields|..] == rest;
    OpsShift(fields + rest, |fields|, rest, 0);
    HeadTail(s, OpAt(fields, 0).0, Ops(rest, 0));
    HeadTail(s, OpAt(fields, 0).0, []);
  }
}
