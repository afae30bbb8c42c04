/** Lines and rows of the revision graph (internal/parser/row.go, row_line.go). */
module GraphRows {
  import opened Text
  import opened Sgr
  import opened Ansi
  import opened RowPrefixes

  // ---------- cutting the graph column off a line ----------

  /** The graph column of a line: its first `indent` cells, filled up with spaces unless the line has no text at all. */
  function GutterOf(cells: seq<Cell>, indent: nat): (g: seq<Cell>)
    ensures |g| == if cells == [] then 0 else indent
  {
    if indent <= |cells| then cells[..indent]
    else if cells == [] then []
    else cells + Spaces(indent - |cells|, cells[|cells| - 1].style)
  }

  function Width(segments: seq<Segment>, n: nat): nat
    requires n <= |segments|
  {
    if n == 0 then 0 else Width(segments, n - 1) + |segments[n - 1].text|
  }

  /** The first segment, from `i` on, with which the graph column is complete. */
  function CutFrom(segments: seq<Segment>, indent: nat, i: nat): (k: nat)
    requires i <= |segments|
    ensures i <= k <= |segments|
    ensures k < |segments| ==> indent <= Width(segments, k + 1)
    ensures forall j :: i < j <= k ==> Width(segments, j) < indent
    decreases |segments| - i
  {
    if i == |segments| || indent <= Width(segments, i + 1) then i else CutFrom(segments, indent, i + 1)
  }

  function Tail(s: Segment, n: int): seq<Segment> {
    if 0 <= n < |s.text| then [Segment(s.text[n..], s.style)] else []
  }

  lemma CellsUpTo(segments: seq<Segment>, n: nat)
    requires n < |segments|
    ensures Cells(segments[..n + 1]) == Cells(segments[..n]) + Styled(segments[n].text, segments[n].style)
  {
    TakeSnoc(segments, n);
    CellsSnoc(segments[..n], segments[n]);
  }

  lemma {:induction false} WidthIs(segments: seq<Segment>, n: nat)
    requires n <= |segments|
    ensures |Cells(segments[..n])| == Width(segments, n)
  {
    if n > 0 {
      WidthIs(segments, n - 1);
      CellsUpTo(segments, n - 1);
    }
  }

  lemma {:induction false} WidthGrows(segments: seq<Segment>, m: nat, n: nat)
    requires m <= n <= |segments|
    ensures Width(segments, m) <= Width(segments, n)
    decreases n
  {
    if m < n { WidthGrows(segments, m, n - 1); }
  }

  /** The segments left of the line: what follows the segment that completes the column, or the rest of the last one. */
  function Remaining(segments: seq<Segment>, indent: nat): seq<Segment> {
    var k := CutFrom(segments, indent, 0);
    if k == |segments| then []
    else if k + 1 < |segments| then segments[k + 1..]
    else Tail(segments[k], indent - Width(segments, k))
  }

  lemma TakenAtCut(segments: seq<Segment>, i: nat, n: nat)
    requires i < |segments| && n <= |segments[i].text|
    ensures Width(segments, i) + n <= |Cells(segments)|
    ensures Cells(segments[..i]) + Styled(segments[i].text[..n], segments[i].style) ==
              Cells(segments)[..Width(segments, i) + n]
  {
    var a, b, rest := Cells(segments[..i]), Styled(segments[i].text, segments[i].style), Cells(segments[i + 1..]);
    CellsUpTo(segments, i);
    CellsFrom(segments, i + 1);
    WidthIs(segments, i);
    assert Styled(segments[i].text[..n], segments[i].style) == b[..n];
    TakeOfThree(a, b, rest, n);
  }

  lemma TakeOfThree<T>(a: seq<T>, b: seq<T>, c: seq<T>, n: nat)
    requires n <= |b|
    ensures ((a + b) + c)[..|a| + n] == a + b[..n]
  {
  }

  lemma FillUp(segments: seq<Segment>, indent: nat)
    requires CutFrom(segments, indent, 0) == |segments| && segments != []
    ensures |Cells(segments)| < indent
  {
    WidthIs(segments, |segments|);
    Empties(segments);
  }

  function Spaces(n: nat, style: Style): seq<Cell> { seq(n, i requires 0 <= i < n => Cell(' ', style)) }

  /** Collects the graph column; `k` is the segment that completes it and `n` how much of it was taken. */
  method TakeColumn(segments: seq<Segment>, indent: nat) returns (k: nat, n: nat, taken: seq<Cell>)
    ensures k == CutFrom(segments, indent, 0)
    ensures k < |segments| ==>
              n == indent - Width(segments, k) && indent <= |Cells(segments)| && taken == Cells(segments)[..indent]
    ensures k == |segments| ==> taken == Cells(segments)
  {
    var left := indent;
    k, n, taken := 0, 0, [];
    while k < |segments|
      invariant k <= |segments| && taken == Cells(segments[..k]) && left == indent - Width(segments, k)
      invariant CutFrom(segments, indent, 0) == CutFrom(segments, indent, k)
    {
      var s := segments[k];
      n := if left < |s.text| then left else |s.text|;
      TakenAtCut(segments, k, n);
      taken := taken + Styled(s.text[..n], s.style);
      left := left - n;
      if left == 0 { return; }
      CellsUpTo(segments, k);
      Empties(s.text);
      k := k + 1;
    }
    Empties(segments);
  }

  method ChopSegments(segments: seq<Segment>, indent: nat) returns (rest: seq<Segment>, gutter: seq<Cell>)
    ensures rest == Remaining(segments, indent) && gutter == GutterOf(Cells(segments), indent)
  {
    if |segments| == 0 { return [], []; }
    var k, n, taken := TakeColumn(segments, indent);
    if k < |segments| {
      return if k + 1 < |segments| then segments[k + 1..] else Tail(segments[k], n), taken;
    }
    FillUp(segments, indent);
    return [], if |taken| > 0 then taken + Spaces(indent - |taken|, taken[|taken| - 1].style) else [];
  }

  /** A segment that is not the last reaches past the end of the graph column. */
  ghost predicate Straddles(segments: seq<Segment>, indent: nat) {
    exists k :: 0 <= k < |segments| - 1 && (k == 0 || Width(segments, k) < indent) && indent < Width(segments, k + 1)
  }

  lemma CellsAppend(xs: seq<Segment>, ys: seq<Segment>)
    ensures Cells(xs + ys) == Cells(xs) + Cells(ys)
  {
    if ys == [] {
      Empties(xs);
      Empties(Cells(xs));
    } else {
      var n := |ys| - 1;
      CellsAppend(xs, ys[..n]);
      CutLast(xs, ys);
      CellsSnoc(xs + ys[..n], ys[n]);
      Regroup(Cells(xs), Cells(ys[..n]), Styled(ys[n].text, ys[n].style));
    }
  }

  lemma CellsFrom(segments: seq<Segment>, k: nat)
    requires k <= |segments|
    ensures Cells(segments) == Cells(segments[..k]) + Cells(segments[k..])
  {
    Cut(segments, k);
    CellsAppend(segments[..k], segments[k..]);
  }

  lemma TailCells(s: Segment, n: nat)
    requires n <= |s.text|
    ensures Cells(Tail(s, n)) == Styled(s.text, s.style)[n..]
  {
    if n < |s.text| {
      var t := Segment(s.text[n..], s.style);
      assert Tail(s, n) == [] + [t];
      CellsSnoc([], t);
      Empties(Styled(t.text, t.style));
    }
  }

  /** Cut inside the last segment, or at its end: the rest of the line is kept. */
  lemma LastRemains(segments: seq<Segment>, indent: nat)
    requires CutFrom(segments, indent, 0) + 1 == |segments|
    ensures indent <= |Cells(segments)| && Cells(Remaining(segments, indent)) == Cells(segments)[indent..]
  {
    var k := |segments| - 1;
    var a, b := Cells(segments[..k]), Styled(segments[k].text, segments[k].style);
    Empties(segments);
    CellsUpTo(segments, k);
    WidthIs(segments, k);
    TailCells(segments[k], indent - |a|);
    DropOfTwo(a, b, indent);
  }

  lemma DropOfTwo<T>(a: seq<T>, b: seq<T>, n: nat)
    requires |a| <= n <= |a| + |b|
    ensures (a + b)[n..] == b[n - |a|..]
  {
  }

  ghost function Shown(cells: seq<Cell>, indent: nat): seq<Cell> {
    if indent <= |cells| then cells[..indent] else cells
  }

  /** No text is lost exactly when no segment but the last reaches past the graph column. */
  lemma ChopKeepsTextIff(segments: seq<Segment>, indent: nat)
    ensures Shown(Cells(segments), indent) + Cells(Remaining(segments, indent)) == Cells(segments) <==>
              !Straddles(segments, indent)
  {
    var k, cells := CutFrom(segments, indent, 0), Cells(segments);
    StraddlesAtCut(segments, indent, k);
    if k + 1 < |segments| {
      CutBefore(segments, indent, k);
    } else if k + 1 == |segments| {
      LastRemains(segments, indent);
      Cut(cells, indent);
    } else {
      if segments != [] { FillUp(segments, indent); }
      Empties(cells);
    }
  }

  lemma CutBefore(segments: seq<Segment>, indent: nat, k: nat)
    requires k == CutFrom(segments, indent, 0) && k + 1 < |segments|
    ensures Shown(Cells(segments), indent) + Cells(Remaining(segments, indent)) == Cells(segments) <==>
              indent == Width(segments, k + 1)
  {
    var cells, rest := Cells(segments), Cells(segments[k + 1..]);
    CellsFrom(segments, k + 1);
    WidthIs(segments, k + 1);
    assert |Shown(cells, indent) + rest| == indent + |rest|;
    if indent == Width(segments, k + 1) { assert Shown(cells, indent) == Cells(segments[..k + 1]); }
  }

  lemma StraddlesAtCut(segments: seq<Segment>, indent: nat, k: nat)
    requires k == CutFrom(segments, indent, 0)
    ensures Straddles(segments, indent) <==> k + 1 < |segments| && indent < Width(segments, k + 1)
  {
    if Straddles(segments, indent) {
      var j :| 0 <= j < |segments| - 1 && (j == 0 || Width(segments, j) < indent) && indent < Width(segments, j + 1);
      if k < j { WidthGrows(segments, k + 1, j); }
    }
  }

  // ---------- rows ----------

  datatype Flags = Flags(revision: bool, highlightable: bool, elided: bool)

  datatype Line = Line(segments: seq<Segment>, gutter: seq<Cell>, flags: Flags)

  datatype Row = Row(commit: Option<Commit>, lines: seq<Line>, indent: nat, previous: Option<Row>)

  const NO_ROW := Row(None, [], 0, None)

  predicate HasRune(gutter: seq<Cell>, c: char) { exists i :: 0 <= i < |gutter| && gutter[i].c == c }

  predicate SaysHidden(segments: seq<Segment>) {
    exists i :: 0 <= i < |segments| && (Trim(segments[i].text) == "hidden" || Trim(segments[i].text) == "(hidden)")
  }

  function FlagsAfter(lines: seq<Line>, gutter: seq<Cell>): Flags {
    if lines == [] then Flags(true, true, false)
    else if HasRune(gutter, '~') then Flags(false, false, true)
    else Flags(false, lines[|lines| - 1].flags.highlightable, false)
  }

  /** A line cut at the row's graph column; without a commit lines are dropped. */
  function WithLine(row: Row, segments: seq<Segment>): Row {
    if row.commit.None? then row
    else
      var rest, gutter := Remaining(segments, row.indent), GutterOf(Cells(segments), row.indent);
      var c := row.commit.value;
      row.(lines := row.lines + [Line(rest, gutter, FlagsAfter(row.lines, gutter))],
           commit := if row.lines != [] then row.commit
                     else Some(c.(workingCopy := HasRune(gutter, '@'), hidden := c.hidden || SaysHidden(rest))))
  }

  ghost predicate NoneElided(lines: seq<Line>, n: int) {
    forall j :: 0 <= j < n && j < |lines| ==> !lines[j].flags.elided
  }

  /**
   One Revision line, the first; Highlightable lines up to the first elided one; every graph column as wide as the first
   or empty.
   */
  ghost predicate LineOk(lines: seq<Line>, indent: nat, i: int) {
    0 <= i < |lines| ==>
      (lines[i].flags.revision == (i == 0) && (lines[i].flags.highlightable <==> NoneElided(lines, i + 1)) &&
       (|lines[i].gutter| == indent || (i > 0 && |lines[i].gutter| == 0)) && (i == 0 ==> !lines[i].flags.elided))
  }

  ghost predicate LinesOk(lines: seq<Line>, indent: nat) { forall i :: LineOk(lines, indent, i) }

  ghost predicate RowOk(row: Row) { LinesOk(row.lines, row.indent) }

  lemma NoneElidedSnoc(lines: seq<Line>, line: Line)
    ensures forall i :: 0 <= i <= |lines| ==> NoneElided(lines + [line], i) == NoneElided(lines, i)
    ensures NoneElided(lines + [line], |lines| + 1) <==> NoneElided(lines, |lines|) && !line.flags.elided
  {
    var out := lines + [line];
    assert out[|lines|] == line && forall i :: 0 <= i < |lines| ==> out[i] == lines[i];
  }

  lemma LinesOkSnoc(lines: seq<Line>, indent: nat, line: Line)
    requires LinesOk(lines, indent) && line.flags == FlagsAfter(lines, line.gutter)
    requires |line.gutter| == indent || (lines != [] && |line.gutter| == 0)
    ensures LinesOk(lines + [line], indent)
  {
    var n, out := |lines|, lines + [line];
    NoneElidedSnoc(lines, line);
    forall i ensures LineOk(out, indent, i) {
      if 0 <= i < n { assert LineOk(lines, indent, i) && out[i] == lines[i]; }
      if i == n { assert LineOk(lines, indent, n - 1); }
    }
  }

  lemma WithLineKeeps(row: Row, segments: seq<Segment>)
    requires RowOk(row) && (row.lines == [] ==> |Cells(segments)| >= row.indent)
    ensures RowOk(WithLine(row, segments))
  {
    if row.commit.Some? {
      var gutter := GutterOf(Cells(segments), row.indent);
      LinesOkSnoc(row.lines, row.indent, Line(Remaining(segments, row.indent), gutter, FlagsAfter(row.lines, gutter)));
    }
  }

  // ---------- extending the graph below a row ----------

  datatype Answer = No | Yes | Carry

  const EXTENDS := "\U{2502}|\U{256D}\U{251C}\U{2510}\U{2524}\U{250C}\U{256E}\U{252C}\U{253C}+\\."
  const CARRIES := "\U{2500}-"
  const BAR: char := '\U{2502}'

  function CanExtend(c: char): Answer { if c in EXTENDS then Yes else if c in CARRIES then Carry else No }

  /** Whether the column goes on below the first `n` lines. */
  function MaskAt(lines: seq<Line>, n: nat, col: nat): bool
    requires n <= |lines|
  {
    if n == 0 then false
    else
      var l := lines[n - 1];
      if !l.flags.highlightable || col >= |l.gutter| then MaskAt(lines, n - 1, col)
      else
        match CanExtend(l.gutter[col].c)
        case Yes => true
        case No => false
        case Carry => MaskAt(lines, n - 1, col)
  }

  predicate Decides(l: Line, col: nat) {
    l.flags.highlightable && col < |l.gutter| && !CanExtend(l.gutter[col].c).Carry?
  }

  /** A column goes on exactly when the last line that decides about it has a glyph leading down. */
  lemma {:induction false} MaskMeans(lines: seq<Line>, n: nat, col: nat)
    requires n <= |lines|
    ensures MaskAt(lines, n, col) <==>
            exists k :: 0 <= k < n && Decides(lines[k], col) && CanExtend(lines[k].gutter[col].c).Yes? &&
                        forall j :: k < j < n ==> !Decides(lines[j], col)
  {
    if n > 0 {
      MaskMeans(lines, n - 1, col);
      if Decides(lines[n - 1], col) {
        assert MaskAt(lines, n, col) == CanExtend(lines[n - 1].gutter[col].c).Yes?;
      } else {
        assert MaskAt(lines, n, col) == MaskAt(lines, n - 1, col);
      }
    }
  }

  function LastHighlightable(lines: seq<Line>, n: nat): Option<seq<Cell>>
    requires n <= |lines|
  {
    if n == 0 then None
    else if lines[n - 1].flags.highlightable then Some(lines[n - 1].gutter)
    else LastHighlightable(lines, n - 1)
  }

  /** The mask of the first `n` lines, filled in place; every index stays inside it. */
  method UpdateMask(mask: array<bool>, line: Line, ghost lines: seq<Line>, ghost n: nat)
    requires n < |lines| && lines[n] == line && line.flags.highlightable && |line.gutter| <= mask.Length
    requires forall c :: 0 <= c < mask.Length ==> mask[c] == MaskAt(lines, n, c)
    modifies mask
    ensures forall c :: 0 <= c < mask.Length ==> mask[c] == MaskAt(lines, n + 1, c)
  {
    for i := 0 to |line.gutter|
      invariant forall c :: 0 <= c < mask.Length ==> mask[c] == MaskAt(lines, if c < i then n + 1 else n, c)
    {
      match CanExtend(line.gutter[i].c) {
        case Yes => mask[i] := true;
        case No => mask[i] := false;
        case Carry =>
      }
    }
  }

  method FillMask(mask: array<bool>, lines: seq<Line>)
    requires forall i :: 0 <= i < |lines| ==> |lines[i].gutter| <= mask.Length
    requires forall c :: 0 <= c < mask.Length ==> !mask[c]
    modifies mask
    ensures forall c :: 0 <= c < mask.Length ==> mask[c] == MaskAt(lines, |lines|, c)
  {
    for n := 0 to |lines|
      invariant forall c :: 0 <= c < mask.Length ==> mask[c] == MaskAt(lines, n, c)
    {
      if lines[n].flags.highlightable { UpdateMask(mask, lines[n], lines, n); }
    }
  }

  function DrawnCell(goesOn: bool, style: Style): Cell { Cell(if goesOn then BAR else ' ', style) }

  method Draw(mask: array<bool>, last: seq<Cell>) returns (gutter: seq<Cell>)
    ensures |gutter| == if |last| < mask.Length then |last| else mask.Length
    ensures forall c :: 0 <= c < |gutter| ==> gutter[c] == DrawnCell(mask[c], last[c].style)
  {
    gutter := [];
    var n := if |last| < mask.Length then |last| else mask.Length;
    for c := 0 to n
      invariant |gutter| == c && forall k :: 0 <= k < c ==> gutter[k] == DrawnCell(mask[k], last[k].style)
    {
      gutter := gutter + [DrawnCell(mask[c], last[c].style)];
    }
  }

  lemma {:induction false} LastHighlightableWidth(lines: seq<Line>, n: nat, indent: nat)
    requires LinesOk(lines, indent) && 0 < n <= |lines|
    ensures LastHighlightable(lines, n).Some? && |LastHighlightable(lines, n).value| <= indent
  {
    assert LineOk(lines, indent, n - 1) && LineOk(lines, indent, 0);
    if !lines[n - 1].flags.highlightable && n > 1 { LastHighlightableWidth(lines, n - 1, indent); }
  }

  /** The graph column drawn under a row: a bar where the column goes on, in the style of the last line shown. */
  method Extend(row: Row) returns (gutter: seq<Cell>)
    requires RowOk(row) && row.lines != []
    ensures var last := LastHighlightable(row.lines, |row.lines|);
            last.Some? && |gutter| == |last.value| &&
            forall c ::
              0 <= c < |gutter| ==>
                gutter[c] == Cell(if MaskAt(row.lines, |row.lines|, c) then '\U{2502}' else ' ', last.value[c].style)
  {
    var mask := new bool[|row.lines[0].gutter|](_ => false);
    forall i | 0 <= i < |row.lines| ensures |row.lines[i].gutter| <= mask.Length {
      assert LineOk(row.lines, row.indent, 0) && LineOk(row.lines, row.indent, i);
    }
    FillMask(mask, row.lines);
    LastHighlightableWidth(row.lines, |row.lines|, row.indent);
    gutter := Draw(mask, LastHighlightable(row.lines, |row.lines|).value);
  }

  // ---------- the objects the parser fills in ----------

  class GraphLine {
    var segments: seq<Segment>
    var gutter: seq<Cell>
    var flags: Flags

    constructor (segments: seq<Segment>)
      ensures this.segments == segments && gutter == [] && flags == Flags(false, false, false)
    {
      this.segments, gutter, flags := segments, [], Flags(false, false, false);
    }

    method Chop(indent: nat)
      requires gutter == []
      modifies this`segments, this`gutter
      ensures segments == Remaining(old(segments), indent) && gutter == GutterOf(Cells(old(segments)), indent)
    {
      segments, gutter := ChopSegments(segments, indent);
    }

    /** Takes the metadata out of the line. */
    method ParseRowPrefixes() returns (index: int, commit: Option<Commit>)
      modifies this`segments
      ensures Prefixes(segments, index, commit) == ParsePrefixes(old(segments), PREFIX)
    {
      var k := FindPrefix(segments, PREFIX);
      if k == |segments| { return -1, None; }
      var parts := SplitStr(segments[k].text, PREFIX);
      if |parts| < 3 || |parts| > 8 { return -1, None; }
      segments := segments[k := Segment(parts[0], PLAIN)];
      return k + 1, Some(CommitOf(parts));
    }
  }

  class GraphRow {
    var commit: Option<Commit>
    var lines: seq<Line>
    var indent: nat
    var previous: Option<Row>

    function Value(): Row reads this { Row(commit, lines, indent, previous) }

    constructor ()
      ensures Value() == NO_ROW
    {
      commit, lines, indent, previous := None, [], 0, None;
    }

    method AddLine(line: GraphLine)
      requires line.gutter == []
      modifies this, line
      ensures Value() == WithLine(old(Value()), old(line.segments))
    {
      if commit.None? { return; }
      line.Chop(indent);
      if |lines| == 0 {
        line.flags := Flags(true, true, false);
        commit :=
          Some(commit.value.(workingCopy := HasRune(line.gutter, '@'), hidden := commit.value.hidden ||
                             SaysHidden(line.segments)));
      } else if HasRune(line.gutter, '~') {
        line.flags := Flags(false, false, true);
      } else {
        line.flags := lines[|lines| - 1].flags.(revision := false, elided := false);
      }
      lines := lines + [Line(line.segments, line.gutter, line.flags)];
    }
  }
  // ---------- what the glyphs and marks say ----------

  /**
   Corners and branches that lead down continue a column, horizontal strokes leave it as it is, anything else ends it.
   */
  lemma GlyphsDecide(c: char)
    ensures CanExtend(c).Carry? <==> c == '\U{2500}' || c == '-'
    ensures CanExtend(c).Yes? <==>
            c == '\U{2502}' || c == '|' || c == '\U{256D}' || c == '\U{251C}' || c == '\U{2510}' || c == '\U{2524}' ||
            c == '\U{250C}' || c == '\U{256E}' || c == '\U{252C}' || c == '\U{253C}' || c == '+' || c == '\\' ||
            c == '.'
  {
    assert EXTENDS ==
             ['\U{2502}', '|', '\U{256D}', '\U{251C}', '\U{2510}', '\U{2524}', '\U{250C}', '\U{256E}', '\U{252C}',
                       '\U{253C}', '+', '\\', '.'];
    assert CARRIES == ['\U{2500}', '-'];
  }

  predicate HasGlyph(cells: seq<Cell>, c: char) { exists k :: 0 <= k < |cells| && cells[k].c == c }

  /**
   The first line of a row says in its graph column whether it is the working copy, and in its text whether it is
   hidden.
   */
  lemma FirstLineMarks(row: Row, segments: seq<Segment>, out: Row)
    requires row.commit.Some? && row.lines == [] && out == WithLine(row, segments)
    ensures |out.lines| == 1 && out.lines[0].flags.revision && out.lines[0].flags.highlightable
    ensures out.commit.Some? && out.indent == row.indent && out.previous == row.previous
    ensures out.commit.value.workingCopy <==> HasGlyph(out.lines[0].gutter, '@')
    ensures out.commit.value.hidden <==>
            row.commit.value.hidden ||
            exists k :: 0 <= k < |out.lines[0].segments| &&
                        Trim(out.lines[0].segments[k].text) in ["hidden", "(hidden)"]
    ensures out.commit.value ==
              row.commit.value.(workingCopy := out.commit.value.workingCopy, hidden := out.commit.value.hidden)
  {
  }

  /**
   Every later line leaves the commit and the lines before it alone, and is elided exactly when its column says so.
   */
  lemma LaterLineMarks(row: Row, segments: seq<Segment>, out: Row)
    requires row.commit.Some? && row.lines != [] && out == WithLine(row, segments)
    ensures out.commit == row.commit && out.indent == row.indent && out.previous == row.previous
    ensures |out.lines| == |row.lines| + 1 && out.lines[..|row.lines|] == row.lines
    ensures out.lines[|row.lines|].flags.elided <==> HasGlyph(out.lines[|row.lines|].gutter, '~')
  {
  }
  /** A column that is too short is filled up with blanks in the style of its last cell; an empty one stays empty. */
  lemma ColumnMeans(cells: seq<Cell>, indent: nat, k: nat)
    ensures indent <= |cells| ==> GutterOf(cells, indent) == cells[..indent]
    ensures cells == [] ==> GutterOf(cells, indent) == []
    ensures 0 < |cells| < indent ==>
              |GutterOf(cells, indent)| == indent && GutterOf(cells, indent)[..|cells|] == cells &&
              (|cells| <= k < indent ==> GutterOf(cells, indent)[k] == Cell(' ', cells[|cells| - 1].style))
  {
  }
  /** What is left of a line has no empty segment if the line had none. */
  lemma RestHasNoEmpty(segments: seq<Segment>, indent: nat)
    requires forall i :: 0 <= i < |segments| ==> segments[i].text != ""
    ensures forall i :: 0 <= i < |Remaining(segments, indent)| ==> Remaining(segments, indent)[i].text != ""
  {
  }
}
