/**
 Terminal output as styled cells: the escape parser and the line breaker (internal/screen/ansi_parser.go, segment.go).
 Every character these two look for is ASCII, so reading characters or bytes makes no difference to them.
 */
module Ansi {
  import opened Text
  import opened Sgr

  datatype Cell = Cell(c: char, style: Style)

  datatype Segment = Segment(text: string, style: Style)

  const ESC: char := '\U{1B}'

  function Styled(text: string, style: Style): (cells: seq<Cell>)
    ensures |cells| == |text| && forall i :: 0 <= i < |cells| ==> cells[i] == Cell(text[i], style)
  {
    seq(|text|, i requires 0 <= i < |text| => Cell(text[i], style))
  }

  lemma StyledAppend(a: string, b: string, style: Style)
    ensures Styled(a + b, style) == Styled(a, style) + Styled(b, style)
  {
  }

  lemma StyledOne(c: char, style: Style)
    ensures Styled([c], style) == [Cell(c, style)] && Styled("", style) == []
  {
  }

  function Cells(segments: seq<Segment>): seq<Cell> {
    if segments == [] then []
    else Cells(segments[..|segments| - 1]) + Styled(segments[|segments| - 1].text, segments[|segments| - 1].style)
  }

  lemma CellsSnoc(segments: seq<Segment>, s: Segment)
    ensures Cells(segments + [s]) == Cells(segments) + Styled(s.text, s.style)
  {
    assert (segments + [s])[..|segments|] == segments;
  }

  // ---------- the reference: one character at a time ----------

  datatype Mode = Text | Escaped | Params(param: string)

  datatype Machine = Machine(mode: Mode, style: Style, out: seq<Cell>)

  const START := Machine(Mode.Text, PLAIN, [])

  /** An escape takes the next character with it; after `ESC [` everything up to `m` is a parameter string. */
  function Feed(m: Machine, c: char): Machine {
    match m.mode
    case Text => if c == ESC then m.(mode := Escaped) else m.(out := m.out + [Cell(c, m.style)])
    case Escaped =>
      if c == '[' then m.(mode := Params(""))
      else Machine(Mode.Text, m.style, m.out + [Cell(ESC, m.style), Cell(c, m.style)])
    case Params(p) =>
      if c == 'm' then Machine(Mode.Text, ApplyAll(m.style, Program(p)), m.out) else m.(mode := Params(p + [c]))
  }

  /** A lone escape at the end is text; an unfinished sequence shows nothing. */
  function Finish(m: Machine): seq<Cell> { if m.mode.Escaped? then m.out + [Cell(ESC, m.style)] else m.out }

  function Fed(input: string): Machine { Fold(Feed, START, input) }

  function Reference(input: string): seq<Cell> { Finish(Fed(input)) }

  lemma FedOne(input: string, i: nat)
    requires i < |input|
    ensures Fed(input[..i + 1]) == Feed(Fed(input[..i]), input[i])
  {
    TakeSnoc(input, i);
    FoldSnoc(Feed, START, input[..i], input[i]);
  }

  // ---------- the parser ----------

  lemma ParamStep(input: string, i: nat, m: Machine, param: string)
    requires i < |input| && Fed(input[..i]) == m.(mode := Params(param))
    ensures Fed(input[..i + 1]) == if input[i] == 'm' then Machine(Mode.Text, ApplyAll(m.style, Program(param)), m.out)
                                   else m.(mode := Params(param + [input[i]]))
  {
    FedOne(input, i);
  }

  /** Reads up to and including `m`; `closed` is false when the input ends first. */
  method ReadParams(input: string, from: nat, ghost m: Machine) returns (param: string, i: nat, closed: bool)
    requires from <= |input| && Fed(input[..from]) == m && m.mode == Params("")
    ensures from <= i <= |input| && (!closed ==> i == |input|)
    ensures Fed(input[..i]) ==
              if closed then Machine(Mode.Text, ApplyAll(m.style, Program(param)), m.out) else m.(mode := Params(param))
  {
    param, i := "", from;
    while i < |input|
      invariant from <= i <= |input| && Fed(input[..i]) == m.(mode := Params(param))
    {
      ParamStep(input, i, m, param);
      var c := input[i];
      i := i + 1;
      if c == 'm' { return param, i, true; }
      param := param + [c];
    }
    return param, i, false;
  }

  method NextStyle(style: Style, param: string) returns (out: Style)
    ensures out == ApplyAll(style, Program(param))
  {
    if param == "0" {
      ResetProgram(style);
      return PLAIN;
    }
    out := ApplyParams(style, param);
  }

  lemma ResetProgram(style: Style)
    ensures ApplyAll(style, Program("0")) == PLAIN
  {
    assert "0"[1..] == "" && SplitOn("", ';') == [""];
    assert ['0'] + "" == "0";
    assert SplitOn("0", ';') == ["0"];
    assert DigitsValue("0") == 0;
    assert Program("0") == [Reset];
    HeadTail(style, Reset, []);
  }

  /** What the segments and the text collected so far show. */
  ghost function Shown(segments: seq<Segment>, buffer: string, style: Style): seq<Cell> {
    Cells(segments) + Styled(buffer, style)
  }

  lemma ShownPush(segments: seq<Segment>, buffer: string, style: Style, c: char)
    ensures Shown(segments, buffer + [c], style) == Shown(segments, buffer, style) + [Cell(c, style)]
  {
    StyledAppend(buffer, [c], style);
    StyledOne(c, style);
  }

  method Flush(segments: seq<Segment>, buffer: string, style: Style) returns (out: seq<Segment>)
    ensures Cells(out) == Shown(segments, buffer, style)
    ensures (forall i :: 0 <= i < |segments| ==> segments[i].text != "") ==>
              forall i :: 0 <= i < |out| ==> out[i].text != ""
  {
    if |buffer| > 0 {
      CellsSnoc(segments, Segment(buffer, style));
      return segments + [Segment(buffer, style)];
    }
    StyledOne('m', style);
    Empties(Cells(segments));
    return segments;
  }

  /** The segments show exactly what the reference shows; none is empty. */
  method ParseFromReader(input: string) returns (segments: seq<Segment>)
    ensures Cells(segments) == Reference(input)
    ensures forall i :: 0 <= i < |segments| ==> segments[i].text != ""
  {
    var buffer, style, i := "", PLAIN, 0;
    segments := [];
    StyledOne('m', PLAIN);
    while i < |input|
      invariant i <= |input| && forall k :: 0 <= k < |segments| ==> segments[k].text != ""
      invariant i < |input| ==> Fed(input[..i]) == Machine(Mode.Text, style, Shown(segments, buffer, style))
      invariant i == |input| ==> Reference(input) == Shown(segments, buffer, style)
    {
      var b := input[i];
      FedOne(input, i);
      Empties(input);
      i := i + 1;
      ShownPush(segments, buffer, style, b);
      if b == ESC {
        if i == |input| {
          buffer := buffer + [b];
        } else if input[i] == '[' {
          FedOne(input, i);
          ghost var m := Fed(input[..i + 1]);
          segments := Flush(segments, buffer, style);
          buffer := "";
          var param, closed;
          param, i, closed := ReadParams(input, i + 1, m);
          Empties(input);
          style := NextStyle(style, param);
          StyledOne('m', style);
          Empties(Cells(segments));
        } else {
          FedOne(input, i);
          ShownPush(segments, buffer + [b], style, input[i]);
          buffer := buffer + [b] + [input[i]];
          i := i + 1;
        }
      } else {
        buffer := buffer + [b];
      }
    }
    segments := Flush(segments, buffer, style);
  }

  // ---------- printing and reading back ----------

  datatype Piece = Piece(param: string, text: string)

  function PrintPiece(p: Piece): string { [ESC, '['] + p.param + ['m'] + p.text }

  /** Styled text written out: each piece is introduced by its own sequence. */
  function Print(pieces: seq<Piece>): string {
    if pieces == [] then "" else Print(pieces[..|pieces| - 1]) + PrintPiece(pieces[|pieces| - 1])
  }

  /** The style in force after the pieces, and the cells they stand for. */
  function StyleAfter(pieces: seq<Piece>): Style {
    if pieces == [] then PLAIN
    else ApplyAll(StyleAfter(pieces[..|pieces| - 1]), Program(pieces[|pieces| - 1].param))
  }

  function Meaning(pieces: seq<Piece>): seq<Cell> {
    if pieces == [] then []
    else Meaning(pieces[..|pieces| - 1]) + Styled(pieces[|pieces| - 1].text, StyleAfter(pieces))
  }

  predicate Printable(p: Piece) { 'm' !in p.param && ESC !in p.text }

  lemma {:induction false} FeedText(m: Machine, text: string)
    requires m.mode.Text? && ESC !in text
    ensures Fold(Feed, m, text) == m.(out := m.out + Styled(text, m.style))
  {
    StyledOne('m', m.style);
    Empties(m.out);
    if text != "" {
      var n := |text| - 1;
      FeedText(m, text[..n]);
      TakeSnoc(text, n);
      Empties(text);
      ShownText(m.out, text[..n], text[n], m.style);
    }
  }

  lemma ShownText(out: seq<Cell>, text: string, c: char, style: Style)
    ensures (out + Styled(text, style)) + [Cell(c, style)] == out + Styled(text + [c], style)
  {
    StyledAppend(text, [c], style);
    StyledOne(c, style);
  }

  lemma {:induction false} FeedParam(m: Machine, param: string)
    requires m.mode == Params("") && 'm' !in param
    ensures Fold(Feed, m, param) == m.(mode := Params(param))
  {
    if param != "" {
      var n := |param| - 1;
      FeedParam(m, param[..n]);
      TakeSnoc(param, n);
      Empties(param);
    }
  }

  lemma FeedPair(m: Machine, c: char, d: char)
    ensures Fold(Feed, m, [c, d]) == Feed(Feed(m, c), d) && Fold(Feed, m, [c]) == Feed(m, c)
  {
    FoldOne(Feed, m, c);
    FoldSnoc(Feed, m, [c], d);
    assert [c] + [d] == [c, d];
  }

  lemma FeedPiece(m: Machine, p: Piece)
    requires m.mode.Text? && Printable(p)
    ensures var style := ApplyAll(m.style, Program(p.param));
            Fold(Feed, m, PrintPiece(p)) == Machine(Mode.Text, style, m.out + Styled(p.text, style))
  {
    var m1 := m.(mode := Params(""));
    var m2 := Machine(Mode.Text, ApplyAll(m.style, Program(p.param)), m.out);
    FeedPair(m, ESC, '[');
    FeedParam(m1, p.param);
    FeedPair(m1.(mode := Params(p.param)), 'm', 'm');
    FeedText(m2, p.text);
    FoldAppend(Feed, m, [ESC, '['], p.param);
    FoldAppend(Feed, m, [ESC, '['] + p.param, ['m']);
    FoldAppend(Feed, m, [ESC, '['] + p.param + ['m'], p.text);
  }

  lemma FedPiece(before: string, p: Piece, style: Style, out: seq<Cell>)
    requires Fed(before) == Machine(Mode.Text, style, out) && Printable(p)
    ensures var next := ApplyAll(style, Program(p.param));
            Fed(before + PrintPiece(p)) == Machine(Mode.Text, next, out + Styled(p.text, next))
  {
    FoldAppend(Feed, START, before, PrintPiece(p));
    FeedPiece(Fed(before), p);
  }

  lemma {:induction false} FedPrint(pieces: seq<Piece>)
    requires forall i :: 0 <= i < |pieces| ==> Printable(pieces[i])
    ensures Fed(Print(pieces)) == Machine(Mode.Text, StyleAfter(pieces), Meaning(pieces))
  {
    if pieces != [] {
      var n := |pieces| - 1;
      FedPrint(pieces[..n]);
      FedPiece(Print(pieces[..n]), pieces[n], StyleAfter(pieces[..n]), Meaning(pieces[..n]));
    }
  }

  /** Reading printed pieces gives back their text in the styles their parameters add up to. */
  lemma PrintRoundTrip(pieces: seq<Piece>)
    requires forall i :: 0 <= i < |pieces| ==> Printable(pieces[i])
    ensures Reference(Print(pieces)) == Meaning(pieces)
  {
    FedPrint(pieces);
  }

  // ---------- breaking lines ----------

  predicate IsBreak(cell: Cell) { cell.c == '\n' }

  /** The cells between newlines; a last line with nothing on it is not reported. */
  ghost function LinesOf(cells: seq<Cell>): seq<seq<Cell>> {
    var p := SplitBy(IsBreak, cells);
    if p[|p| - 1] == [] then p[..|p| - 1] else p
  }

  ghost function LineCells(lines: seq<seq<Segment>>): seq<seq<Cell>> {
    seq(|lines|, i requires 0 <= i < |lines| => Cells(lines[i]))
  }

  predicate CleanLine(line: seq<Segment>) {
    forall i :: 0 <= i < |line| ==> line[i].text != "" && '\n' !in line[i].text
  }

  lemma LineCellsSnoc(lines: seq<seq<Segment>>, line: seq<Segment>)
    ensures LineCells(lines + [line]) == LineCells(lines) + [Cells(line)]
  {
    assert forall i :: 0 <= i < |lines| ==> (lines + [line])[i] == lines[i];
  }

  method IndexByte(text: string, b: char) returns (idx: int)
    ensures -1 <= idx < |text| && (idx >= 0 ==> text[idx] == b)
    ensures forall k :: 0 <= k < (if idx < 0 then |text| else idx) ==> text[k] != b
  {
    for i := 0 to |text|
      invariant forall k :: 0 <= k < i ==> text[k] != b
    {
      if text[i] == b { return i; }
    }
    return -1;
  }

  /** Lines finished so far and the line being built, as cells of what has been read. */
  ghost predicate BrokenInto(cells: seq<Cell>, lines: seq<seq<Segment>>, line: seq<Segment>) {
    SplitBy(IsBreak, cells) == LineCells(lines) + [Cells(line)]
  }

  lemma AddText(cells: seq<Cell>, lines: seq<seq<Segment>>, line: seq<Segment>, s: Segment)
    requires BrokenInto(cells, lines, line) && '\n' !in s.text
    ensures BrokenInto(cells + Styled(s.text, s.style), lines, line + [s])
  {
    SplitByRun(IsBreak, cells, Styled(s.text, s.style));
    CellsSnoc(line, s);
    var p := SplitBy(IsBreak, cells);
    assert p[..|p| - 1] == LineCells(lines) && p[|p| - 1] == Cells(line);
  }

  lemma AddBreak(cells: seq<Cell>, lines: seq<seq<Segment>>, line: seq<Segment>, style: Style)
    requires BrokenInto(cells, lines, line)
    ensures BrokenInto(cells + Styled("\n", style), lines + [line], [])
  {
    StyledOne('\n', style);
    SplitByCut(IsBreak, cells, Cell('\n', style));
    LineCellsSnoc(lines, line);
  }

  /** A segment without text adds nothing to a line. */
  method Append(line: seq<Segment>, s: Segment, ghost cells: seq<Cell>, ghost lines: seq<seq<Segment>>)
    returns (out: seq<Segment>)
    requires BrokenInto(cells, lines, line) && CleanLine(line) && '\n' !in s.text
    ensures BrokenInto(cells + Styled(s.text, s.style), lines, out) && CleanLine(out)
  {
    if |s.text| > 0 {
      AddText(cells, lines, line, s);
      return line + [s];
    }
    assert Styled(s.text, s.style) == [];
    Empties(cells);
    return line;
  }

  lemma CutAtBreak(text: string, idx: nat, style: Style, cells: seq<Cell>)
    requires idx < |text| && text[idx] == '\n'
    ensures cells + Styled(text, style) ==
              ((cells + Styled(text[..idx], style)) + Styled("\n", style)) + Styled(text[idx + 1..], style)
  {
    assert text == text[..idx] + ("\n" + text[idx + 1..]);
    StyledAppend(text[..idx], "\n" + text[idx + 1..], style);
    StyledAppend("\n", text[idx + 1..], style);
  }

  /** One segment: its lines are added to the output and its rest to the line being built. */
  method BreakSegment(s: Segment, lines: seq<seq<Segment>>, line: seq<Segment>, ghost cells: seq<Cell>)
      returns (out: seq<seq<Segment>>, rest: seq<Segment>)
    requires BrokenInto(cells, lines, line) && CleanLine(line) && forall i :: 0 <= i < |lines| ==> CleanLine(lines[i])
    ensures BrokenInto(cells + Styled(s.text, s.style), out, rest)
    ensures CleanLine(rest) && forall i :: 0 <= i < |out| ==> CleanLine(out[i])
  {
    var text := s.text;
    out, rest := lines, line;
    ghost var done := cells;
    var idx := IndexByte(text, '\n');
    while idx != -1
      invariant -1 <= idx < |text| && (idx >= 0 ==> text[idx] == '\n')
      invariant forall k :: 0 <= k < (if idx < 0 then |text| else idx) ==> text[k] != '\n'
      invariant done + Styled(text, s.style) == cells + Styled(s.text, s.style)
      invariant BrokenInto(done, out, rest) && CleanLine(rest) && forall i :: 0 <= i < |out| ==> CleanLine(out[i])
      decreases |text|
    {
      CutAtBreak(text, idx, s.style, done);
      rest := Append(rest, Segment(text[..idx], s.style), done, out);
      done := done + Styled(text[..idx], s.style);
      AddBreak(done, out, rest, s.style);
      out, rest := out + [rest], [];
      done := done + Styled("\n", s.style);
      text := text[idx + 1..];
      idx := IndexByte(text, '\n');
    }
    rest := Append(rest, Segment(text, s.style), done, out);
  }

  /** The lines are the text between newlines; no segment is empty and none holds a newline. */
  method BreakNewLines(raw: seq<Segment>) returns (lines: seq<seq<Segment>>)
    ensures LineCells(lines) == LinesOf(Cells(raw))
    ensures forall i :: 0 <= i < |lines| ==> CleanLine(lines[i])
  {
    var line: seq<Segment> := [];
    lines := [];
    assert LineCells([]) == [];
    for i := 0 to |raw|
      invariant BrokenInto(Cells(raw[..i]), lines, line) && CleanLine(line) &&
                forall k :: 0 <= k < |lines| ==> CleanLine(lines[k])
    {
      CellsSnoc(raw[..i], raw[i]);
      TakeSnoc(raw, i);
      lines, line := BreakSegment(raw[i], lines, line, Cells(raw[..i]));
    }
    Empties(raw);
    CleanIsVisible(line);
    if |line| > 0 {
      LineCellsSnoc(lines, line);
      lines := lines + [line];
    }
  }

  lemma CleanIsVisible(line: seq<Segment>)
    requires CleanLine(line)
    ensures Cells(line) == [] <==> line == []
  {
  }

  /** Breaking and joining: everything but the newlines is kept, in order, one line for each newline and for a rest. */
  lemma LinesKeepCells(cells: seq<Cell>)
    ensures var lines := LinesOf(cells); Flat(lines, |lines|) == Outside(IsBreak, cells)
    ensures |Filter(IsBreak, cells)| <= |LinesOf(cells)| <= |Filter(IsBreak, cells)| + 1
    ensures |LinesOf(cells)| == |Filter(IsBreak, cells)| <==> cells == [] || IsBreak(cells[|cells| - 1])
  {
    var p := SplitBy(IsBreak, cells);
    SplitByKeeps(IsBreak, cells);
    SplitByCount(IsBreak, cells);
    FlatFrame(p, p[..|p| - 1], |p| - 1);
    Empties(Flat(p, |p| - 1));
  }
}
