/** Rows from lines, in batches (ParseRowsStreaming in internal/parser/streaming_log_parser.go). */
module Streaming {
  import opened Text
  import opened Sgr
  import opened Ansi
  import opened RowPrefixes
  import opened GraphRows

  // ---------- all rows at once ----------

  // The rows finished so far and the one being filled; lines before the first revision belong to NO_ROW and are
  // dropped.
  datatype Builder = Builder(rows: seq<Row>, row: Row)

  const EMPTY := Builder([], NO_ROW)

  /** The line starts a revision; metadata in the last segment but one is not taken as a start. */
  predicate StartsRow(p: Prefixes) { p.index != -1 && p.index != |p.segments| - 1 }

  function FreshRow(before: Row, p: Prefixes): Row
    requires p.commit.Some? && 0 <= p.index <= |p.segments|
  {
    Row(p.commit, [], Width(p.segments, p.index), if before.commit.Some? then Some(before) else None)
  }

  function Finished(b: Builder): seq<Row> { if b.row.commit.Some? then b.rows + [b.row] else b.rows }

  function AddLine(b: Builder, line: seq<Segment>): Builder {
    var p := ParsePrefixes(line, PREFIX);
    if StartsRow(p) then Builder(Finished(b), WithLine(FreshRow(b.row, p), p.segments))
    else Builder(b.rows, WithLine(b.row, p.segments))
  }

  function Built(lines: seq<seq<Segment>>): Builder { Fold(AddLine, EMPTY, lines) }

  /** The unbatched row list. */
  function AllRows(lines: seq<seq<Segment>>): seq<Row> { Finished(Built(lines)) }

  /** The row is well formed and knows the complete row before it. */
  ghost predicate Linked(rows: seq<Row>, k: int) {
    0 <= k < |rows| ==>
      RowOk(rows[k]) && rows[k].commit.Some? && rows[k].lines != [] &&
      rows[k].previous == if k == 0 then None else Some(rows[k - 1])
  }

  ghost predicate AllLinked(rows: seq<Row>) { forall k :: Linked(rows, k) }

  ghost predicate BuilderOk(b: Builder) {
    AllLinked(Finished(b)) && (b.row.commit.None? ==> b == EMPTY)
  }

  lemma FreshLineOk(before: Row, p: Prefixes)
    requires p.commit.Some? && 0 <= p.index <= |p.segments|
    ensures var row := WithLine(FreshRow(before, p), p.segments);
            RowOk(row) && row.commit.Some? && row.lines != [] &&
            row.previous == if before.commit.Some? then Some(before) else None
  {
    WidthIs(p.segments, p.index);
    CellsFrom(p.segments, p.index);
    WithLineKeeps(FreshRow(before, p), p.segments);
  }

  lemma LinkedSnoc(rows: seq<Row>, row: Row)
    requires AllLinked(rows) && RowOk(row) && row.commit.Some? && row.lines != []
    requires row.previous == if rows == [] then None else Some(rows[|rows| - 1])
    ensures AllLinked(rows + [row])
  {
    forall k ensures Linked(rows + [row], k) { assert Linked(rows, k); }
  }

  lemma LinkedLast(rows: seq<Row>, row: Row)
    requires AllLinked(rows + [row])
    ensures AllLinked(rows) && RowOk(row) && row.commit.Some? && row.lines != []
    ensures row.previous == if rows == [] then None else Some(rows[|rows| - 1])
  {
    forall k ensures Linked(rows, k) { assert Linked(rows + [row], k); }
    assert Linked(rows + [row], |rows|);
  }

  lemma StartKeeps(b: Builder, p: Prefixes)
    requires BuilderOk(b) && p.commit.Some? && 0 <= p.index <= |p.segments|
    ensures BuilderOk(Builder(Finished(b), WithLine(FreshRow(b.row, p), p.segments)))
  {
    FreshLineOk(b.row, p);
    LinkedSnoc(Finished(b), WithLine(FreshRow(b.row, p), p.segments));
  }

  lemma ExtendKeeps(b: Builder, segments: seq<Segment>)
    requires BuilderOk(b)
    ensures BuilderOk(Builder(b.rows, WithLine(b.row, segments)))
  {
    if b.row.commit.Some? {
      LinkedLast(b.rows, b.row);
      WithLineKeeps(b.row, segments);
      LinkedSnoc(b.rows, WithLine(b.row, segments));
    }
  }

  lemma {:induction false} BuiltIsOk(lines: seq<seq<Segment>>)
    ensures BuilderOk(Built(lines))
  {
    if lines != [] {
      var b, p := Built(lines[..|lines| - 1]), ParsePrefixes(lines[|lines| - 1], PREFIX);
      BuiltIsOk(lines[..|lines| - 1]);
      if StartsRow(p) { StartKeeps(b, p); } else { ExtendKeeps(b, p.segments); }
    }
  }

  /** Every row is well formed and its Previous is the complete row before it in the list. */
  lemma RowsAreLinked(lines: seq<seq<Segment>>, k: nat)
    requires k < |AllRows(lines)|
    ensures var rows := AllRows(lines);
            RowOk(rows[k]) && rows[k].lines != [] && rows[k].previous == if k == 0 then None else Some(rows[k - 1])
  {
    BuiltIsOk(lines);
    assert Linked(AllRows(lines), k);
  }

  // ---------- where rows begin ----------

  /**
   A line printed by a template finishes the row before it and begins a new one: with the ids and conditions printed, as
   far in as the text before the metadata reaches, and knowing the row before. Only when exactly one segment follows the
   metadata it begins none.
   */
  lemma TemplateLineStartsRow(b: Builder, before: seq<Segment>, lead: string, changeId: string, commitId: string,
                              flags: seq<bool>, pad: string, s: Segment, after: seq<Segment>, out: Builder, sep: string)
    requires sep == PREFIX && Word(changeId) && Word(commitId) && |flags| <= 5 && Blank(pad) && !Contains(lead, sep)
    requires s.text == JoinStr(LineFields(lead, changeId, commitId, flags, pad), sep)
    requires forall i :: 0 <= i < |before| ==> !Contains(before[i].text, sep)
    requires out == AddLine(b, before + [s] + after)
    ensures |after| != 1 ==>
              out.rows == (if b.row.commit.Some? then b.rows + [b.row] else b.rows) && |out.row.lines| == 1 &&
              out.row.commit.Some? && out.row.indent == |Cells(before)| + |lead| &&
              Says(out.row.commit.value.(workingCopy := false, hidden := false), changeId, commitId, flags) &&
              out.row.previous == if b.row.commit.Some? then Some(b.row) else None
    ensures |after| == 1 ==> out == Builder(b.rows, WithLine(b.row, before + [Segment(lead, PLAIN)] + after))
  {
    var c := TemplateLineIsRead(before, lead, changeId, commitId, flags, pad, s, after, sep);
    var segments := before + [Segment(lead, PLAIN)] + after;
    ColumnWidth(before, Segment(lead, PLAIN), after);
    if |after| != 1 {
      var row := FreshRow(b.row, Prefixes(segments, |before| + 1, Some(c)));
      FirstLineMarks(row, segments, WithLine(row, segments));
    }
  }

  lemma ColumnWidth(before: seq<Segment>, s: Segment, after: seq<Segment>)
    ensures Width(before + [s] + after, |before| + 1) == |Cells(before)| + |s.text|
  {
    var all := before + [s] + after;
    assert all[..|before| + 1] == before + [s];
    WidthIs(all, |before| + 1);
    CellsSnoc(before, s);
  }

  /** A line without metadata goes on with the row, or is dropped before the first one. */
  lemma PlainLineGoesOn(b: Builder, line: seq<Segment>, sep: string)
    requires sep == PREFIX && forall i :: 0 <= i < |line| ==> !Contains(line[i].text, sep)
    ensures AddLine(b, line) == Builder(b.rows, WithLine(b.row, line))
    ensures b.row.commit.None? ==> AddLine(b, line) == b
  {
    assert PrefixSegment(line, sep, 0) == |line|;
  }

  // ---------- in batches ----------

  datatype Batch = Batch(rows: seq<Row>, hasMore: bool)

  // Batches handed over, rows waiting for the next one, and the row being filled.
  datatype Stream = Stream(batches: seq<Batch>, waiting: seq<Row>, row: Row)

  function Flush(s: Stream, size: nat): Stream {
    if |s.waiting| > size then Stream(s.batches + [Batch(s.waiting, true)], [], s.row) else s
  }

  function StreamLine(size: nat): (Stream, seq<Segment>) -> Stream {
    (s: Stream, line: seq<Segment>) =>
      var p := ParsePrefixes(line, PREFIX);
      if StartsRow(p) then
        var f := Flush(s, size);
        Stream(f.batches, if s.row.commit.Some? then f.waiting + [s.row] else f.waiting,
               WithLine(FreshRow(s.row, p), p.segments))
      else s.(row := WithLine(s.row, p.segments))
  }

  function Streamed(lines: seq<seq<Segment>>, size: nat): Stream {
    Fold(StreamLine(size), Stream([], [], NO_ROW), lines)
  }

  function Last(s: Stream): seq<Row> { if s.row.commit.Some? then s.waiting + [s.row] else s.waiting }

  /** What a consumer that keeps asking receives; nothing at all when there are no rows. */
  function Batches(lines: seq<seq<Segment>>, size: nat): seq<Batch> {
    var s := Streamed(lines, size);
    if Last(s) == [] then s.batches else s.batches + [Batch(Last(s), false)]
  }

  function RowsOf(batches: seq<Batch>, n: nat): seq<Row>
    requires n <= |batches|
  {
    if n == 0 then [] else RowsOf(batches, n - 1) + batches[n - 1].rows
  }

  lemma {:induction false} RowsOfSnoc(batches: seq<Batch>, b: Batch, n: nat)
    requires n <= |batches|
    ensures RowsOf(batches + [b], n) == RowsOf(batches, n)
    ensures RowsOf(batches + [b], |batches| + 1) == RowsOf(batches + [b], |batches|) + b.rows
  {
    if n > 0 { RowsOfSnoc(batches, b, n - 1); }
  }

  /** Full batches so far; what was handed over and what waits add up to the finished rows. */
  ghost predicate StreamOk(s: Stream, b: Builder, size: nat) {
    s.row == b.row && RowsOf(s.batches, |s.batches|) + s.waiting == b.rows && |s.waiting| <= size + 1 &&
    (forall i :: 0 <= i < |s.batches| ==> |s.batches[i].rows| == size + 1 && s.batches[i].hasMore) &&
    (s.batches != [] ==> s.row.commit.Some?)
  }

  lemma FlushedRows(batches: seq<Batch>, waiting: seq<Row>, b: Batch)
    requires b.rows == waiting
    ensures RowsOf(batches + [b], |batches| + 1) + [] == RowsOf(batches, |batches|) + waiting
  {
    RowsOfSnoc(batches, b, |batches|);
    Empties(RowsOf(batches, |batches|) + waiting);
  }

  lemma FlushKeeps(s: Stream, b: Builder, size: nat)
    requires StreamOk(s, b, size) && BuilderOk(b)
    ensures StreamOk(Flush(s, size), b, size) && |Flush(s, size).waiting| <= size
  {
    if |s.waiting| > size {
      FlushedRows(s.batches, s.waiting, Batch(s.waiting, true));
      assert b.row.commit.Some?;
    }
  }

  lemma StreamLineKeeps(s: Stream, b: Builder, line: seq<Segment>, size: nat)
    requires StreamOk(s, b, size) && BuilderOk(b)
    ensures StreamOk(StreamLine(size)(s, line), AddLine(b, line), size)
  {
    var p := ParsePrefixes(line, PREFIX);
    if StartsRow(p) {
      FlushKeeps(s, b, size);
      FreshLineOk(s.row, p);
      var f := Flush(s, size);
      Regroup(RowsOf(f.batches, |f.batches|), f.waiting, [s.row]);
    }
  }

  lemma {:induction false} StreamedIsOk(lines: seq<seq<Segment>>, size: nat)
    ensures StreamOk(Streamed(lines, size), Built(lines), size)
  {
    if lines != [] {
      var before := lines[..|lines| - 1];
      StreamedIsOk(before, size);
      BuiltIsOk(before);
      StreamLineKeeps(Streamed(before, size), Built(before), lines[|lines| - 1], size);
    }
  }

  /** Closing the stream `s` after all lines: what its batches `bs` promise about the finished rows. */
  lemma ClosingAddsUp(s: Stream, b: Builder, size: nat, bs: seq<Batch>)
    requires StreamOk(s, b, size) && bs == if Last(s) == [] then s.batches else s.batches + [Batch(Last(s), false)]
    ensures RowsOf(bs, |bs|) == Finished(b)
    ensures forall i :: 0 <= i < |bs| ==> |bs[i].rows| > 0 && bs[i].hasMore == (i + 1 < |bs|)
    ensures forall i :: 0 <= i < |bs| - 1 ==> |bs[i].rows| == size + 1
    ensures bs != [] ==> |bs[|bs| - 1].rows| <= size + 2
    ensures bs == [] <==> Finished(b) == []
  {
    if Last(s) == [] {
      Empties(RowsOf(s.batches, |s.batches|));
    } else {
      RowsOfSnoc(s.batches, Batch(Last(s), false), |s.batches|);
      Regroup(RowsOf(s.batches, |s.batches|), s.waiting, [s.row]);
    }
  }

  /**
   Batching changes nothing: the batches add up to the unbatched rows, every batch but the last holds size + 1 rows,
   the last holds at least one, and HasMore says exactly that another batch, not empty, follows.
   */
  lemma BatchesAddUp(lines: seq<seq<Segment>>, size: nat, bs: seq<Batch>)
    requires bs == Batches(lines, size)
    ensures RowsOf(bs, |bs|) == AllRows(lines)
    ensures forall i :: 0 <= i < |bs| ==> |bs[i].rows| > 0 && bs[i].hasMore == (i + 1 < |bs|)
    ensures forall i :: 0 <= i < |bs| - 1 ==> |bs[i].rows| == size + 1
    ensures bs != [] ==> |bs[|bs| - 1].rows| <= size + 2
    ensures bs == [] <==> AllRows(lines) == []
  {
    StreamedIsOk(lines, size);
    ClosingAddsUp(Streamed(lines, size), Built(lines), size, bs);
  }

  // ---------- the loop ----------

  lemma {:induction false} BatchesGrow(lines: seq<seq<Segment>>, size: nat, i: nat)
    requires i <= |lines|
    ensures Streamed(lines[..i], size).batches <= Batches(lines, size)
    decreases |lines| - i
  {
    if i == |lines| {
      Empties(lines);
    } else {
      StreamedOne(lines, size, i);
      BatchesGrow(lines, size, i + 1);
    }
  }

  lemma StreamedOne(lines: seq<seq<Segment>>, size: nat, i: nat)
    requires i < |lines|
    ensures Streamed(lines[..i + 1], size) == StreamLine(size)(Streamed(lines[..i], size), lines[i])
    ensures Streamed(lines[..i], size).batches <= Streamed(lines[..i + 1], size).batches
    ensures StartsRow(ParsePrefixes(lines[i], PREFIX)) ==>
            Flush(Streamed(lines[..i], size), size).batches == Streamed(lines[..i + 1], size).batches
    ensures StartsRow(ParsePrefixes(lines[i], PREFIX)) && |Streamed(lines[..i], size).waiting| > size ==>
            |Streamed(lines[..i + 1], size).batches| == |Streamed(lines[..i], size).batches| + 1
  {
    TakeSnoc(lines, i);
    FoldSnoc(StreamLine(size), Stream([], [], NO_ROW), lines[..i], lines[i]);
  }

  method IndentOf(segments: seq<Segment>, n: nat) returns (indent: nat)
    requires n <= |segments|
    ensures indent == Width(segments, n)
  {
    indent := 0;
    for j := 0 to n
      invariant indent == Width(segments, j)
    {
      indent := indent + |segments[j].text|;
    }
  }

  method AddTo(row: Row, line: GraphLine) returns (next: Row)
    requires line.gutter == []
    modifies line
    ensures next == WithLine(row, old(line.segments))
  {
    var r := new GraphRow();
    r.commit, r.lines, r.indent, r.previous := row.commit, row.lines, row.indent, row.previous;
    r.AddLine(line);
    next := r.Value();
  }

  /** One line: whether it starts a revision, and the row it goes to. */
  method ReadLine(segments: seq<Segment>, row: Row) returns (starts: bool, next: Row)
    ensures var p := ParsePrefixes(segments, PREFIX);
            starts == StartsRow(p) && next == WithLine(if starts then FreshRow(row, p) else row, p.segments)
  {
    var line := new GraphLine(segments);
    var index, commit := line.ParseRowPrefixes();
    starts := index != -1 && index != |line.segments| - 1;
    next := row;
    if starts {
      var indent := IndentOf(line.segments, index);
      next := Row(commit, [], indent, if row.commit.Some? then Some(row) else None);
    }
    next := AddTo(next, line);
  }

  /** One line of the loop; `open` is false when a batch is due and the consumer has stopped asking. */
  method TakeLine(segments: seq<Segment>, s: Stream, size: nat, asked: nat) returns (open: bool, t: Stream)
    requires |s.batches| <= asked
    ensures open ==> t == StreamLine(size)(s, segments) && |t.batches| <= asked
    ensures !open ==> |s.batches| == asked && |s.waiting| > size && StartsRow(ParsePrefixes(segments, PREFIX))
  {
    var starts, next := ReadLine(segments, s.row);
    var batches, waiting := s.batches, s.waiting;
    if starts {
      if |waiting| > size {
        if |batches| == asked { return false, s; }
        batches, waiting := batches + [Batch(waiting, true)], [];
      }
      if s.row.commit.Some? { waiting := waiting + [s.row]; }
    }
    return true, Stream(batches, waiting, next);
  }

  function Delivered(lines: seq<seq<Segment>>, size: nat, asked: nat): seq<Batch> {
    var all := Batches(lines, size);
    if asked < |all| then all[..asked] else all
  }

  lemma StoppedAt(lines: seq<seq<Segment>>, size: nat, i: nat)
    requires i < |lines| && |Streamed(lines[..i], size).waiting| > size && StartsRow(ParsePrefixes(lines[i], PREFIX))
    ensures var sent := Streamed(lines[..i], size).batches; Delivered(lines, size, |sent|) == sent
  {
    StreamedOne(lines, size, i);
    BatchesGrow(lines, size, i + 1);
    StrictPrefix(Streamed(lines[..i], size).batches, Streamed(lines[..i + 1], size).batches, Batches(lines, size));
  }

  lemma StrictPrefix<T>(a: seq<T>, b: seq<T>, c: seq<T>)
    requires a <= b <= c && |a| < |b|
    ensures |a| < |c| && c[..|a|] == a
  {
  }

  /**
   The parser's side for a consumer that asks `asked` times and then cancels or closes:
   it delivers that many batches, or all of them.
   */
  method ParseRowsStreaming(lines: seq<seq<Segment>>, size: nat, asked: nat) returns (batches: seq<Batch>)
    ensures batches == Delivered(lines, size, asked)
  {
    var s := Stream([], [], NO_ROW);
    for i := 0 to |lines|
      invariant |s.batches| <= asked && s == Streamed(lines[..i], size)
    {
      StreamedOne(lines, size, i);
      var open, t := TakeLine(lines[i], s, size, asked);
      if !open {
        StoppedAt(lines, size, i);
        return s.batches;
      }
      s := t;
    }
    Empties(lines);
    batches := s.batches;
    if |Last(s)| > 0 && |batches| < asked { batches := batches + [Batch(Last(s), false)]; }
  }

  /** Whatever a consumer has received when it stops is a prefix of the unbatched rows. */
  lemma DeliveredIsPrefix(lines: seq<seq<Segment>>, size: nat, n: nat)
    requires n <= |Batches(lines, size)|
    ensures RowsOf(Batches(lines, size), n) <= AllRows(lines)
  {
    BatchesAddUp(lines, size, Batches(lines, size));
    RowsOfPrefix(Batches(lines, size), n, |Batches(lines, size)|);
  }

  lemma {:induction false} RowsOfPrefix(batches: seq<Batch>, m: nat, n: nat)
    requires m <= n <= |batches|
    ensures RowsOf(batches, m) <= RowsOf(batches, n)
    decreases n
  {
    if m < n { RowsOfPrefix(batches, m, n - 1); }
  }
}
