/** Drawing only the visible part of a list (internal/ui/render/list.go). An item is the sequence of its lines. */
module ListWindow {
  import opened Text

  /** The part of `s` from `from` up to `to`, as far as it exists. */
  function Clip<T>(s: seq<T>, from: int, to: int): seq<T> {
    var lo := if from < 0 then 0 else if from > |s| then |s| else from;
    var hi := if to < lo then lo else if to > |s| then |s| else to;
    s[lo..hi]
  }

  lemma SliceLeft<T>(a: seq<T>, b: seq<T>, i: nat, j: nat)
    requires i <= j <= |a|
    ensures (a + b)[i..j] == a[i..j]
  {
  }

  lemma SliceRight<T>(a: seq<T>, b: seq<T>, i: nat, j: nat)
    requires i <= j <= |b|
    ensures (a + b)[|a| + i..|a| + j] == b[i..j]
  {
  }

  lemma SliceAcross<T>(a: seq<T>, b: seq<T>, i: nat, j: nat)
    requires i <= |a| && j <= |b|
    ensures (a + b)[i..|a| + j] == a[i..] + b[..j]
  {
  }

  lemma ClipAppend<T>(a: seq<T>, b: seq<T>, from: int, to: int)
    requires 0 <= from <= to
    ensures Clip(a + b, from, to) == Clip(a, from, to) + Clip(b, from - |a|, to - |a|)
  {
    var m, n := |a|, |b|;
    if to <= m {
      SliceLeft(a, b, from, to);
      assert Clip(a + b, from, to) == a[from..to] && Clip(a, from, to) == a[from..to] &&
             Clip(b, from - m, to - m) == [];
      Empties(a[from..to]);
    } else if from >= m {
      var i := Min(from - m, n);
      var j := Min(to - m, n);
      SliceRight(a, b, i, j);
      assert Clip(a + b, from, to) == (a + b)[m + i..m + j] && Clip(a, from, to) == [] &&
             Clip(b, from - m, to - m) == b[i..j];
      Empties(b[i..j]);
    } else {
      var j := Min(to - m, n);
      SliceAcross(a, b, from, j);
      assert Clip(a + b, from, to) == (a + b)[from..m + j] && Clip(a, from, to) == a[from..] &&
             Clip(b, from - m, to - m) == b[..j];
    }
  }

  lemma ClipIs<T>(s: seq<T>, from: int, to: int)
    requires 0 <= from <= |s| && from <= to
    ensures Clip(s, from, to) == s[from..Min(to, |s|)]
  {
  }

  lemma ClipBounds<T>(s: seq<T>, from: int, to: int)
    ensures Clip(s, Max(from, 0), Min(|s|, to)) == Clip(s, from, to) || Min(|s|, to) < Max(from, 0)
  {
  }

  lemma SliceOfTwo<T>(a: seq<T>, b: seq<T>, from: nat, to: nat)
    requires from <= to <= |a|
    ensures (a + b)[from..to] == a[from..to] && (a + b)[|a|..|a| + |b|] == b
  {
  }

  /** First line shown: inside the list, with no empty rows below it that the list could fill. */
  function ClampStartLine(startLine: int, viewHeight: int, total: int): (r: int)
    ensures 0 <= r <= Max(total - viewHeight, 0)
    ensures 0 <= startLine <= Max(total - viewHeight, 0) ==> r == startLine
    ensures startLine < 0 ==> r == 0
    ensures startLine > Max(total - viewHeight, 0) ==> r == Max(total - viewHeight, 0)
  {
    var s := if startLine < 0 then 0 else startLine;
    if s > Max(total - viewHeight, 0) then Max(total - viewHeight, 0) else s
  }

  // An item's lines from `offset`, `count` of them, drawn from screen row `y` of the view on.
  datatype Span = Span(index: nat, y: int, offset: int, count: int, itemStart: int, itemEnd: int)

  function Item<T>(items: seq<seq<T>>, i: nat): seq<T> { if i < |items| then items[i] else [] }

  /** What the spans put on the screen, one after the other. */
  ghost function Drawn<T>(items: seq<seq<T>>, spans: seq<Span>): seq<T> {
    if spans == [] then []
    else
      var s := spans[|spans| - 1];
      Drawn(items, spans[..|spans| - 1]) + Clip(Item(items, s.index), s.offset, s.offset + s.count)
  }

  lemma DrawnSnoc<T>(items: seq<seq<T>>, spans: seq<Span>, s: Span)
    ensures Drawn(items, spans + [s]) == Drawn(items, spans) + Clip(Item(items, s.index), s.offset, s.offset + s.count)
  {
    assert (spans + [s])[..|spans|] == spans;
  }

  /** The span shows `count` lines that its item has. */
  ghost predicate SpanOk<T>(items: seq<seq<T>>, s: Span) {
    0 < s.count && 0 <= s.offset && s.offset + s.count <= |Item(items, s.index)|
  }

  ghost predicate SpansOk<T>(items: seq<seq<T>>, spans: seq<Span>) {
    forall k :: 0 <= k < |spans| ==> SpanOk(items, spans[k])
  }

  lemma SpansOkSnoc<T>(items: seq<seq<T>>, spans: seq<Span>, s: Span)
    requires SpansOk(items, spans) && SpanOk(items, s)
    ensures SpansOk(items, spans + [s])
  {
  }

  /** The row and the item after the last span. */
  function RowAfter(spans: seq<Span>): int {
    if spans == [] then 0 else spans[|spans| - 1].y + spans[|spans| - 1].count
  }

  function ItemAfter(spans: seq<Span>): nat { if spans == [] then 0 else spans[|spans| - 1].index + 1 }

  ghost predicate FollowsOn(spans: seq<Span>, k: int) {
    0 <= k < |spans| ==> spans[k].y == RowAfter(spans[..k]) && spans[k].index >= ItemAfter(spans[..k])
  }

  /** Spans follow each other without gap or overlap from the top row, in the order of their items. */
  ghost predicate Contiguous(spans: seq<Span>) { forall k :: FollowsOn(spans, k) }

  lemma {:induction false} FlatLength<T>(items: seq<seq<T>>, i: nat, j: nat)
    requires i <= j <= |items|
    ensures |Flat(items, i)| <= |Flat(items, j)|
    decreases j
  {
    if i < j { FlatLength(items, i, j - 1); }
  }

  /** Rows already covered when the list has been laid out down to line `listY`. */
  function Covered(listY: int, start: int, height: int): int { Max(0, Min(listY - start, height)) }

  /** Rows and items are used in order, up to row `rows` and item `i`. */
  ghost predicate Placed(spans: seq<Span>, i: nat, rows: int) {
    Contiguous(spans) && ItemAfter(spans) <= i && RowAfter(spans) == rows
  }

  /** What is on the screen is the visible part of the first `i` items. */
  ghost predicate Shows<T>(items: seq<seq<T>>, spans: seq<Span>, i: nat, start: int, height: int)
    requires i <= |items|
  {
    SpansOk(items, spans) && Drawn(items, spans) == Clip(Flat(items, i), start, start + height)
  }

  /** What has been laid out after `i` items. */
  ghost predicate LaidOut<T>(items: seq<seq<T>>, spans: seq<Span>, i: nat, start: int, height: int) {
    i <= |items| && Placed(spans, i, Covered(|Flat(items, i)|, start, height)) && Shows(items, spans, i, start, height)
  }

  /** The span of item `i`, which begins at list line `itemStart`. */
  function SpanAt(i: nat, itemStart: int, itemEnd: int, start: int, height: int): Span {
    var from, to := Max(itemStart, start), Min(itemEnd, start + height);
    Span(i, from - start, from - itemStart, to - from, itemStart, itemEnd)
  }

  lemma NothingVisible<T>(items: seq<seq<T>>, spans: seq<Span>, i: nat, start: int, height: int)
    requires i < |items| && 0 <= start && height > 0 && LaidOut(items, spans, i, start, height)
    requires var a := |Flat(items, i)|; Min(a + |items[i]|, start + height) <= Max(a, start)
    ensures LaidOut(items, spans, i + 1, start, height)
  {
    var a := Flat(items, i);
    ClipAppend(a, items[i], start, start + height);
    assert Clip(items[i], start - |a|, start + height - |a|) == [];
    Empties(Clip(a, start, start + height));
  }

  lemma SpanNumbers(i: nat, a: int, h: int, start: int, height: int)
    requires 0 <= a && 0 <= start && Min(a + h, start + height) > Max(a, start)
    ensures var s := SpanAt(i, a, a + h, start, height);
            0 < s.count && 0 <= s.offset && s.offset + s.count <= h && s.offset == Max(start - a, 0) &&
            s.offset + s.count == Min(h, start + height - a) &&
            s.y == Covered(a, start, height) && s.y + s.count == Covered(a + h, start, height)
  {
  }

  lemma AddContiguous(spans: seq<Span>, s: Span)
    requires Contiguous(spans) && s.y == RowAfter(spans) && s.index >= ItemAfter(spans)
    ensures Contiguous(spans + [s])
  {
    var out := spans + [s];
    forall k ensures FollowsOn(out, k) {
      if 0 <= k < |out| {
        assert FollowsOn(spans, k);
        assert out[..k] == if k < |spans| then spans[..k] else spans;
      }
    }
  }

  lemma AddPlaced(spans: seq<Span>, i: nat, s: Span, rows: int, rows': int)
    requires Placed(spans, i, rows) && s.y == rows && s.index == i && s.y + s.count == rows'
    ensures Placed(spans + [s], i + 1, rows')
  {
    AddContiguous(spans, s);
  }

  /** Item `b` after the lines `a`: the span holds exactly what the window shows of it. */
  lemma ClipGrows<T>(a: seq<T>, b: seq<T>, i: nat, start: int, height: int, s: Span)
    requires 0 <= start && 0 < height && Min(|a| + |b|, start + height) > Max(|a|, start)
    requires s == SpanAt(i, |a|, |a| + |b|, start, height)
    ensures Clip(a, start, start + height) + Clip(b, s.offset, s.offset + s.count) == Clip(a + b, start, start + height)
    ensures s.index == i && 0 < s.count && 0 <= s.offset && s.offset + s.count <= |b|
  {
    SpanNumbers(i, |a|, |b|, start, height);
    ClipAppend(a, b, start, start + height);
    assert Clip(b, s.offset, s.offset + s.count) == Clip(b, start - |a|, start + height - |a|) by {
      ClipBounds(b, start - |a|, start + height - |a|);
    }
  }

  lemma AddDrawn<T>(items: seq<seq<T>>, spans: seq<Span>, s: Span, before: seq<T>, after: seq<T>)
    requires SpansOk(items, spans) && SpanOk(items, s) && Drawn(items, spans) == before
    requires before + Clip(Item(items, s.index), s.offset, s.offset + s.count) == after
    ensures SpansOk(items, spans + [s]) && Drawn(items, spans + [s]) == after
  {
    DrawnSnoc(items, spans, s);
    SpansOkSnoc(items, spans, s);
  }

  lemma SpanShows<T>(items: seq<seq<T>>, spans: seq<Span>, i: nat, start: int, height: int, s: Span, above: seq<T>)
    requires i < |items| && 0 <= start && height > 0 && Shows(items, spans, i, start, height) && above == Flat(items, i)
    requires Min(|above| + |items[i]|, start + height) > Max(|above|, start)
    requires s == SpanAt(i, |above|, |above| + |items[i]|, start, height)
    ensures Shows(items, spans + [s], i + 1, start, height)
  {
    ClipGrows(above, items[i], i, start, height, s);
    AddDrawn(items, spans, s, Clip(above, start, start + height), Clip(above + items[i], start, start + height));
  }

  lemma SpanPlaced(spans: seq<Span>, i: nat, h: nat, start: int, height: int, a: nat, s: Span)
    requires 0 <= start && height > 0 && Placed(spans, i, Covered(a, start, height))
    requires Min(a + h, start + height) > Max(a, start) && s == SpanAt(i, a, a + h, start, height)
    ensures Placed(spans + [s], i + 1, Covered(a + h, start, height))
  {
    SpanNumbers(i, a, h, start, height);
    AddPlaced(spans, i, s, Covered(a, start, height), Covered(a + h, start, height));
  }

  lemma AddSpan<T>(items: seq<seq<T>>, spans: seq<Span>, i: nat, start: int, height: int, a: int, s: Span)
    requires i < |items| && 0 <= start && height > 0 && LaidOut(items, spans, i, start, height)
    requires a == |Flat(items, i)| && Min(a + |items[i]|, start + height) > Max(a, start) &&
             s == SpanAt(i, a, a + |items[i]|, start, height)
    ensures LaidOut(items, spans + [s], i + 1, start, height)
  {
    SpanShows(items, spans, i, start, height, s, Flat(items, i));
    SpanPlaced(spans, i, |items[i]|, start, height, a, s);
  }

  method LayoutAll<T>(items: seq<seq<T>>, start: int, height: int) returns (spans: seq<Span>)
    requires 0 <= start
    ensures height > 0 ==> LaidOut(items, spans, |items|, start, height)
    ensures height <= 0 ==> spans == []
  {
    spans := [];
    if height <= 0 { return; }
    var listY := 0;
    for i := 0 to |items|
      invariant listY == |Flat(items, i)| && LaidOut(items, spans, i, start, height)
    {
      var itemEnd := listY + |items[i]|;
      var s := SpanAt(i, listY, itemEnd, start, height);
      if itemEnd > start && listY < start + height && s.count > 0 {
        AddSpan(items, spans, i, start, height, listY, s);
        spans := spans + [s];
      } else {
        NothingVisible(items, spans, i, start, height);
      }
      listY := itemEnd;
    }
  }

  /**
   With a start line inside its bounds the spans show exactly the lines from there on and fill every row the list can
   fill.
   */
  lemma WindowIsSlice<T>(items: seq<seq<T>>, spans: seq<Span>, start: int, height: int)
    requires height > 0 && LaidOut(items, spans, |items|, start, height)
    requires 0 <= start <= Max(|Flat(items, |items|)| - height, 0)
    ensures var all := Flat(items, |items|);
            Drawn(items, spans) == all[start..start + Min(height, |all|)]
  {
    var all := Flat(items, |items|);
    ClipIs(all, start, start + height);
    assert Min(start + height, |all|) == start + Min(height, |all|);
  }

  lemma ContiguousPrefix(spans: seq<Span>, n: nat)
    requires Contiguous(spans) && n <= |spans|
    ensures Contiguous(spans[..n])
  {
    forall k ensures FollowsOn(spans[..n], k) {
      assert FollowsOn(spans, k);
      if 0 <= k < n { assert spans[..n][..k] == spans[..k]; }
    }
  }

  lemma {:induction false} DrawnLength<T>(items: seq<seq<T>>, spans: seq<Span>)
    requires SpansOk(items, spans) && Contiguous(spans)
    ensures |Drawn(items, spans)| == RowAfter(spans)
  {
    if spans != [] {
      ContiguousPrefix(spans, |spans| - 1);
      assert FollowsOn(spans, |spans| - 1);
      DrawnLength(items, spans[..|spans| - 1]);
    }
  }

  /** The lines of the span stand on its rows. */
  ghost predicate OnRows<T>(drawn: seq<T>, item: seq<T>, s: Span) {
    0 <= s.y && 0 <= s.count && s.y + s.count <= |drawn| &&
    drawn[s.y..s.y + s.count] == Clip(item, s.offset, s.offset + s.count)
  }

  lemma OnRowsStill<T>(drawn: seq<T>, more: seq<T>, item: seq<T>, s: Span)
    requires OnRows(drawn, item, s)
    ensures OnRows(drawn + more, item, s)
  {
    SliceOfTwo(drawn, more, s.y, s.y + s.count);
  }

  lemma OnRowsNow<T>(drawn: seq<T>, item: seq<T>, s: Span)
    requires s.y == |drawn| && 0 <= s.offset && 0 <= s.count && s.offset + s.count <= |item|
    ensures OnRows(drawn + Clip(item, s.offset, s.offset + s.count), item, s)
  {
    SliceOfTwo(drawn, Clip(item, s.offset, s.offset + s.count), 0, 0);
  }

  lemma LastOnRows<T>(items: seq<seq<T>>, spans: seq<Span>, last: Span)
    requires SpansOk(items, spans) && Contiguous(spans) && spans != [] && last == spans[|spans| - 1]
    ensures OnRows(Drawn(items, spans), Item(items, last.index), last)
  {
    var n := |spans| - 1;
    ContiguousPrefix(spans, n);
    assert FollowsOn(spans, n);
    DrawnLength(items, spans[..n]);
    assert Drawn(items, spans) ==
             Drawn(items, spans[..n]) + Clip(Item(items, last.index), last.offset, last.offset + last.count);
    OnRowsNow(Drawn(items, spans[..n]), Item(items, last.index), last);
  }

  /** Each span puts its own lines of its item on its rows. */
  lemma {:induction false} RowsOfSpan<T>(items: seq<seq<T>>, spans: seq<Span>, k: nat)
    requires SpansOk(items, spans) && Contiguous(spans) && k < |spans|
    ensures OnRows(Drawn(items, spans), Item(items, spans[k].index), spans[k])
    decreases |spans|
  {
    var n := |spans| - 1;
    var before, last := spans[..n], spans[n];
    if k == n {
      LastOnRows(items, spans, last);
    } else {
      ContiguousPrefix(spans, n);
      RowsOfSpan(items, before, k);
      assert before[k] == spans[k];
      OnRowsStill(Drawn(items, before), Clip(Item(items, last.index), last.offset, last.offset + last.count),
                  Item(items, spans[k].index), spans[k]);
    }
  }

  // ---------- keeping the cursor in view ----------

  /** The start line after making item `cursor` visible. */
  function StartFor<T>(items: seq<seq<T>>, cursor: nat, start: int, height: int): (r: int)
    requires cursor < |items|
  {
    var from, to := |Flat(items, cursor)|, |Flat(items, cursor + 1)|;
    if height <= 0 then start
    else if from < Max(start, 0) then from
    else if to > Max(start, 0) + height then Max(to - height, 0)
    else start
  }

  /** The start line stays inside its bounds, moves only if it must, and an item that fits is wholly visible. */
  lemma CursorIsVisible<T>(items: seq<seq<T>>, cursor: nat, start: int, height: int)
    requires cursor < |items| && height > 0 && 0 <= start <= Max(|Flat(items, |items|)| - height, 0)
    ensures var r := StartFor(items, cursor, start, height);
            var from, to := |Flat(items, cursor)|, |Flat(items, cursor + 1)|;
            0 <= r <= Max(|Flat(items, |items|)| - height, 0) &&
            (to - from <= height ==> r <= from && to <= r + height) &&
            (start <= from && to <= start + height ==> r == start) &&
            (from < to ==> r < to && from < r + height)
  {
    FlatLength(items, 0, cursor);
    FlatLength(items, cursor, cursor + 1);
    FlatLength(items, cursor + 1, |items|);
  }

  /**
   No start line nearer to the one before shows an item that fits; of a taller one its first or last lines are shown.
   */
  lemma CursorMovesLeast<T>(items: seq<seq<T>>, cursor: nat, start: nat, height: int, other: int)
    requires cursor < |items| && height > 0
    ensures var r := StartFor(items, cursor, start, height);
            var from, to := |Flat(items, cursor)|, |Flat(items, cursor + 1)|;
            (to - from <= height && other <= from && to <= other + height ==>
               Max(r - start, start - r) <= Max(other - start, start - other)) &&
            (to - from > height ==> r == from || r == to - height || r == start)
  {
    FlatLength(items, cursor, cursor + 1);
  }

  /** The start line of a frame: inside its bounds, then moved to the cursor item if asked. */
  function SettledStart<T>(items: seq<seq<T>>, start: int, height: int, cursor: int, ensureCursor: bool): int {
    var s := ClampStartLine(start, height, |Flat(items, |items|)|);
    if ensureCursor && 0 <= cursor < |items| then StartFor(items, cursor, s, height) else s
  }

  class ListRenderer {
    var startLine: int
    var firstRow: int
    var lastRow: int

    constructor ()
      ensures startLine == 0 && firstRow == -1 && lastRow == -1
    {
      startLine, firstRow, lastRow := 0, -1, -1;
    }

    method EnsureCursorVisible<T>(items: seq<seq<T>>, cursor: int, height: int)
      modifies this`startLine
      ensures startLine ==
                if 0 <= cursor < |items| then StartFor(items, cursor, old(startLine), height) else old(startLine)
    {
      if cursor < 0 || cursor >= |items| || height <= 0 { return; }
      var from := 0;
      for i := 0 to cursor
        invariant from == |Flat(items, i)| && startLine == old(startLine)
      {
        from := from + |items[i]|;
      }
      var to := from + |items[cursor]|;
      var start := Max(startLine, 0);
      if from < start {
        startLine := from;
      } else if to > start + height {
        startLine := Max(to - height, 0);
      }
    }

    /** The start line for this frame: inside its bounds, with a cursor item that fits wholly visible. */
    method SettleStart<T>(items: seq<seq<T>>, height: int, cursor: int, ensureCursor: bool)
      modifies this`startLine
      ensures startLine == SettledStart(items, old(startLine), height, cursor, ensureCursor)
      ensures 0 <= startLine <= Max(|Flat(items, |items|)| - height, 0)
      ensures ensureCursor && 0 <= cursor < |items| && |items[cursor]| <= height && height > 0 ==>
                startLine <= |Flat(items, cursor)| && |Flat(items, cursor)| + |items[cursor]| <= startLine + height
    {
      var total := 0;
      for i := 0 to |items|
        invariant total == |Flat(items, i)| && startLine == old(startLine)
      {
        total := total + |items[i]|;
      }
      startLine := ClampStartLine(startLine, height, total);
      if ensureCursor && 0 <= cursor < |items| {
        if height > 0 { CursorIsVisible(items, cursor, startLine, height); }
        EnsureCursorVisible(items, cursor, height);
      }
    }

    /**
     Screen row y shows line startLine + y of the fully expanded list, every row the list can fill is filled,
     and a cursor item that fits is wholly on the screen.
     */
    method Render<T>(items: seq<seq<T>>, height: int, cursor: int, ensureCursor: bool) returns (spans: seq<Span>)
      modifies this
      ensures items == [] ==> spans == [] && startLine == old(startLine)
      ensures items != [] ==> startLine == SettledStart(items, old(startLine), height, cursor, ensureCursor)
      ensures items != [] ==> 0 <= startLine <= Max(|Flat(items, |items|)| - height, 0)
      ensures SpansOk(items, spans) && Contiguous(spans)
      ensures items != [] && height > 0 ==>
                Drawn(items, spans) == Flat(items, |items|)[startLine..startLine + Min(height, |Flat(items, |items|)|)]
      ensures ensureCursor && 0 <= cursor < |items| && |items[cursor]| <= height && height > 0 ==>
                startLine <= |Flat(items, cursor)| && |Flat(items, cursor)| + |items[cursor]| <= startLine + height
      ensures items != [] ==> firstRow == (if spans != [] then spans[0].index else -1)
      ensures items != [] ==> lastRow == (if spans != [] then spans[|spans| - 1].index else -1)
    {
      spans := [];
      if |items| == 0 { return; }
      SettleStart(items, height, cursor, ensureCursor);
      spans := LayoutAll(items, startLine, height);
      if height > 0 { WindowIsSlice(items, spans, startLine, height); }
      if |spans| > 0 {
        firstRow, lastRow := spans[0].index, spans[|spans| - 1].index;
      } else {
        firstRow, lastRow := -1, -1;
      }
    }
  }
}
