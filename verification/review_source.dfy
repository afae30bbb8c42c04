/**
 Where a comment lives: turning a selection into old/new line ranges and finding those lines again
 (internal/ui/annotation/document.go and annotationsAfterPatchLine in renderer.go).
 */
module ReviewSource {
  import opened Text
  import opened PatchLines

  // Start and End of the source; both 0 when no line of that side is covered.
  datatype LineRange = LineRange(first: int, last: int)

  const NO_LINES := LineRange(0, 0)

  datatype Annotation = Annotation(id: int, changeId: string, file: string, oldLines: LineRange, newLines: LineRange,
                                   snippet: string, comment: string)

  datatype Presentation = DiffView | FileView

  datatype FileItem = FileItem(path: string, patch: Option<PatchFile>, content: seq<string>,
                               contentLoaded: bool, contentErr: Option<string>)

  function ExtendRange(r: LineRange, line: int): LineRange {
    if line == 0 then r
    else LineRange(if r.first == 0 || line < r.first then line else r.first, if line > r.last then line else r.last)
  }

  predicate LineInRange(line: int, r: LineRange) {
    line > 0 && r.first > 0 && r.first <= line <= r.last
  }

  datatype Source = Source(file: Option<FileItem>, presentation: Presentation)
  {
    function PatchLinesOf(): seq<PatchLine> {
      if file.Some? && file.value.patch.Some? then file.value.patch.value.lines else []
    }

    function Len(): nat {
      if file.None? then 0
      else if presentation.FileView? then |file.value.content| else |PatchLinesOf()|
    }

    predicate Commentable(index: int) {
      0 <= index < Len() && (presentation.FileView? || PatchLinesOf()[index].Commentable())
    }

    // A deleted file is shown with its old lines.
    predicate UsesOldLines() {
      presentation.FileView? && file.Some? && file.value.patch.Some? && file.value.patch.value.newPath == ""
    }

    function AnnotationLines(a: Annotation): LineRange { if UsesOldLines() then a.oldLines else a.newLines }

    predicate Contains(index: int, a: Annotation) {
      0 <= index < Len() &&
      if presentation.FileView? then LineInRange(index + 1, AnnotationLines(a))
      else
        LineInRange(PatchLinesOf()[index].newLine, a.newLines) || LineInRange(PatchLinesOf()[index].oldLine, a.oldLines)
    }

    /** Whether the renderer shows the comment right after line `index`. */
    predicate ShownAfter(index: int, a: Annotation) {
      0 <= index < Len() &&
      if presentation.FileView? then AnnotationLines(a).last == index + 1
      else AnnotationAfterPatchLine(a, PatchLinesOf()[index])
    }

    /** The anchor: the place a comment is attached to, found by scanning the lines in order. */
    method Anchor(a: Annotation) returns (index: Option<nat>)
      ensures index == AnchorOf(a)
    {
      if presentation.FileView? {
        var lines := AnnotationLines(a);
        if lines.last <= 0 || lines.last > Len() { return None; }
        return Some(lines.last - 1);
      }
      if file.None? || file.value.patch.None? { return None; }
      var lines := PatchLinesOf();
      for i := 0 to |lines|
        invariant forall k :: 0 <= k < i ==> !IsAnchorLine(a, lines[k])
      {
        if a.newLines.last > 0 && a.newLines.last == lines[i].newLine {
          FirstAnchorIs(a, lines, i);
          return Some(i);
        }
        if a.newLines.last == 0 && a.oldLines.last > 0 && a.oldLines.last == lines[i].oldLine {
          FirstAnchorIs(a, lines, i);
          return Some(i);
        }
      }
      FirstAnchorIs(a, lines, |lines|);
      return None;
    }

    function AnchorOf(a: Annotation): Option<nat> {
      if presentation.FileView? then
        var lines := AnnotationLines(a);
        if lines.last <= 0 || lines.last > Len() then None else Some(lines.last - 1)
      else FirstAnchor(a, PatchLinesOf(), 0)
    }

    /** The ranges and the snippet (kept as its lines) recorded for a comment on lines `from` to `to`. */
    method AnnotationLocation(from: int, to: int)
      returns (oldLines: LineRange, newLines: LineRange, snippet: seq<string>)
      ensures file.None? || from < 0 || to < from || to >= Len() ==> oldLines == newLines == NO_LINES && snippet == []
      ensures file.Some? && 0 <= from <= to < Len() ==> oldLines == OldRange(from, to) && newLines == NewRange(from, to)
      ensures file.Some? && 0 <= from <= to < Len() ==> snippet == Snippet(from, to)
    {
      if file.None? || from < 0 || to < from || to >= Len() {
        return NO_LINES, NO_LINES, [];
      }
      if presentation.FileView? {
        var lines := LineRange(from + 1, to + 1);
        snippet := Snippet(from, to);
        if UsesOldLines() { return lines, NO_LINES, snippet; }
        return NO_LINES, lines, snippet;
      }
      var lines := PatchLinesOf();
      oldLines, newLines, snippet := NO_LINES, NO_LINES, [];
      for i := from to to + 1
        invariant oldLines == SideRange(lines, from, i, true) && newLines == SideRange(lines, from, i, false)
        invariant snippet == SnippetLines(lines, from, i)
      {
        if lines[i].Commentable() {
          snippet := snippet + [lines[i].raw];
          oldLines := ExtendRange(oldLines, lines[i].oldLine);
          newLines := ExtendRange(newLines, lines[i].newLine);
        }
      }
    }

    function OldRange(from: int, to: int): LineRange
      requires file.Some? && 0 <= from <= to < Len()
    {
      if presentation.FileView? then (if UsesOldLines() then LineRange(from + 1, to + 1) else NO_LINES)
      else SideRange(PatchLinesOf(), from, to + 1, true)
    }

    /** Context lines of the complete file, or the raw commentable lines of the diff. */
    function Snippet(from: int, to: int): (lines: seq<string>)
      requires file.Some? && 0 <= from <= to < Len()
      ensures presentation.FileView? ==>
        (|lines| == to + 1 - from && forall i :: 0 <= i < |lines| ==> lines[i] == " " + file.value.content[from + i])
    {
      if presentation.FileView?
        then seq(to + 1 - from, i requires 0 <= i < to + 1 - from => " " + file.value.content[from + i])
      else SnippetLines(PatchLinesOf(), from, to + 1)
    }

    function NewRange(from: int, to: int): LineRange
      requires file.Some? && 0 <= from <= to < Len()
    {
      if presentation.FileView? then (if UsesOldLines() then NO_LINES else LineRange(from + 1, to + 1))
      else SideRange(PatchLinesOf(), from, to + 1, false)
    }
  }

  function Number(l: PatchLine, oldSide: bool): int { if oldSide then l.oldLine else l.newLine }

  /** The smallest range covering the numbers of the commentable lines in [lo, hi). */
  function SideRange(lines: seq<PatchLine>, lo: int, hi: int, oldSide: bool): LineRange
    requires 0 <= lo <= hi <= |lines|
    decreases hi
  {
    if lo == hi then NO_LINES
    else
      var r := SideRange(lines, lo, hi - 1, oldSide);
      if lines[hi - 1].Commentable() then ExtendRange(r, Number(lines[hi - 1], oldSide)) else r
  }

  function SnippetLines(lines: seq<PatchLine>, lo: int, hi: int): seq<string>
    requires 0 <= lo <= hi <= |lines|
    decreases hi
  {
    if lo == hi then []
    else SnippetLines(lines, lo, hi - 1) + if lines[hi - 1].Commentable() then [lines[hi - 1].raw] else []
  }

  predicate IsAnchorLine(a: Annotation, l: PatchLine) {
    (a.newLines.last > 0 && a.newLines.last == l.newLine) ||
    (a.newLines.last == 0 && a.oldLines.last > 0 && a.oldLines.last == l.oldLine)
  }

  function FirstAnchor(a: Annotation, lines: seq<PatchLine>, i: nat): Option<nat>
    requires i <= |lines|
    decreases |lines| - i
  {
    if i == |lines| then None else if IsAnchorLine(a, lines[i]) then Some(i) else FirstAnchor(a, lines, i + 1)
  }

  lemma {:induction false} FirstAnchorFrom(a: Annotation, lines: seq<PatchLine>, j: nat, i: nat)
    requires j <= i <= |lines| && forall k :: j <= k < i ==> !IsAnchorLine(a, lines[k])
    ensures FirstAnchor(a, lines, j) == FirstAnchor(a, lines, i)
    decreases i - j
  {
    if j < i { FirstAnchorFrom(a, lines, j + 1, i); }
  }

  lemma FirstAnchorIs(a: Annotation, lines: seq<PatchLine>, i: nat)
    requires i <= |lines| && (i < |lines| ==> IsAnchorLine(a, lines[i]))
    requires forall k :: 0 <= k < i ==> !IsAnchorLine(a, lines[k])
    ensures FirstAnchor(a, lines, 0) == if i < |lines| then Some(i) else None
  {
    FirstAnchorFrom(a, lines, 0, i);
  }

  // The renderer's test for a diff line.
  predicate AnnotationAfterPatchLine(a: Annotation, l: PatchLine) {
    (a.newLines.last > 0 && a.newLines.last == l.newLine) || (a.newLines.last == 0 && a.oldLines.last == l.oldLine)
  }

  // ---------- when a comment is found again ----------

  predicate OnSide(l: PatchLine, oldSide: bool) {
    l.kind.Context? || (if oldSide then l.kind.Removed? else l.kind.Added?)
  }

  /** Numbers exist exactly where the kind says so. */
  ghost predicate Numbered(lines: seq<PatchLine>) {
    forall i :: 0 <= i < |lines| ==>
      lines[i].oldLine >= 0 && lines[i].newLine >= 0 &&
      (lines[i].oldLine > 0 <==> OnSide(lines[i], true)) && (lines[i].newLine > 0 <==> OnSide(lines[i], false))
  }

  ghost predicate Rising(lines: seq<PatchLine>, oldSide: bool) {
    forall i, j :: 0 <= i < j < |lines| && Number(lines[i], oldSide) > 0 && Number(lines[j], oldSide) > 0 ==>
      Number(lines[i], oldSide) < Number(lines[j], oldSide)
  }

  ghost predicate Falling(lines: seq<PatchLine>, oldSide: bool) {
    forall i, j :: 0 <= i < j < |lines| && Number(lines[i], oldSide) > 0 && Number(lines[j], oldSide) > 0 ==>
      Number(lines[i], oldSide) > Number(lines[j], oldSide)
  }

  ghost predicate Monotone(lines: seq<PatchLine>, oldSide: bool) { Rising(lines, oldSide) || Falling(lines, oldSide) }

  /** Numbers exist where they should, and each side's go up or go down. */
  ghost predicate WellNumbered(lines: seq<PatchLine>) {
    Numbered(lines) && Monotone(lines, true) && Monotone(lines, false)
  }

  /** The range covers every number in the selection and both its ends are numbers of it. */
  lemma {:induction false} SideRangeCovers(lines: seq<PatchLine>, lo: int, hi: int, oldSide: bool)
    returns (p: int, q: int)
    requires Numbered(lines) && 0 <= lo <= hi <= |lines|
    ensures forall k ::
              lo <= k < hi && Number(lines[k], oldSide) > 0 ==>
                LineInRange(Number(lines[k], oldSide), SideRange(lines, lo, hi, oldSide))
    ensures var r := SideRange(lines, lo, hi, oldSide);
            r == NO_LINES || (lo <= p < hi && lo <= q < hi && r.first > 0 && r.last > 0 &&
              Number(lines[p], oldSide) == r.first && Number(lines[q], oldSide) == r.last)
    decreases hi
  {
    p, q := lo, lo;
    if lo < hi {
      p, q := SideRangeCovers(lines, lo, hi - 1, oldSide);
      var r, n := SideRange(lines, lo, hi - 1, oldSide), Number(lines[hi - 1], oldSide);
      if n > 0 {
        if r.first == 0 || n < r.first { p := hi - 1; }
        if n > r.last { q := hi - 1; }
      }
    }
  }

  lemma InSelection(lines: seq<PatchLine>, i: int, p: int, q: int, oldSide: bool)
    requires Monotone(lines, oldSide) && 0 <= i < |lines| && 0 <= p < |lines| && 0 <= q < |lines|
    requires 0 < Number(lines[p], oldSide) <= Number(lines[i], oldSide) <= Number(lines[q], oldSide)
    ensures p <= i <= q || q <= i <= p
  {
  }

  /** A comment as newAnnotation builds it: only the ranges matter for finding it again. */
  ghost predicate MadeFrom(a: Annotation, s: Source, from: int, to: int) {
    s.file.Some? && 0 <= from <= to < s.Len() && a.oldLines == s.OldRange(from, to) &&
    a.newLines == s.NewRange(from, to)
  }

  /** It covers exactly the commentable lines of its selection. */
  ghost predicate CoversSelection(s: Source, a: Annotation, from: int, to: int) {
    forall i :: s.Contains(i, a) <==> from <= i <= to && s.Commentable(i)
  }

  /** It is anchored inside the selection, and shown after its anchor and nowhere else. */
  ghost predicate ShownOnce(s: Source, a: Annotation, from: int, to: int) {
    s.AnchorOf(a).Some? && from <= s.AnchorOf(a).value <= to && s.Commentable(s.AnchorOf(a).value) &&
    forall i :: s.ShownAfter(i, a) <==> i == s.AnchorOf(a).value
  }

  lemma DiffCommentContains(s: Source, a: Annotation, from: int, to: int, i: int)
    requires s.presentation.DiffView? && WellNumbered(s.PatchLinesOf()) && MadeFrom(a, s, from, to)
    ensures s.Contains(i, a) <==> from <= i <= to && s.Commentable(i)
  {
    var lines := s.PatchLinesOf();
    var p, q := SideRangeCovers(lines, from, to + 1, true);
    var p', q' := SideRangeCovers(lines, from, to + 1, false);
    if s.Contains(i, a) {
      if LineInRange(lines[i].newLine, a.newLines) { InSelection(lines, i, p', q', false); }
      if LineInRange(lines[i].oldLine, a.oldLines) { InSelection(lines, i, p, q, true); }
    }
  }

  lemma DiffCommentAnchor(s: Source, a: Annotation, from: int, to: int) returns (at: nat)
    requires s.presentation.DiffView? && WellNumbered(s.PatchLinesOf()) && MadeFrom(a, s, from, to)
    requires s.Commentable(from)
    ensures s.AnchorOf(a) == Some(at) && from <= at <= to && s.Commentable(at)
    ensures forall i :: s.ShownAfter(i, a) <==> i == at
  {
    var lines := s.PatchLinesOf();
    var p, q := SideRangeCovers(lines, from, to + 1, true);
    var p', q' := SideRangeCovers(lines, from, to + 1, false);
    at := if a.newLines == NO_LINES then q else q';
    assert Number(lines[from], true) > 0 || Number(lines[from], false) > 0;
    assert IsAnchorLine(a, lines[at]);
    forall k | 0 <= k < |lines| && k != at
      ensures !IsAnchorLine(a, lines[k]) && !AnnotationAfterPatchLine(a, lines[k])
    {
    }
    FirstAnchorIs(a, lines, at);
  }

  /**
   The comment round trip.  In a patch whose numbers go up or go down on each side, or in the complete file, a comment
   made on a selection whose first line is commentable covers exactly the commentable lines of that selection,
   is anchored inside it, and is shown after its anchor and nowhere else.
   */
  lemma CommentRoundTrip(s: Source, a: Annotation, from: int, to: int)
    requires MadeFrom(a, s, from, to) && s.Commentable(from)
    requires s.presentation.DiffView? ==> WellNumbered(s.PatchLinesOf())
    ensures CoversSelection(s, a, from, to) && ShownOnce(s, a, from, to)
  {
    if s.presentation.DiffView? {
      forall i
        ensures s.Contains(i, a) <==> from <= i <= to && s.Commentable(i)
      {
        DiffCommentContains(s, a, from, to, i);
      }
      var at := DiffCommentAnchor(s, a, from, to);
    }
  }

  // ---------- and when it is not ----------

  /** Three numbers of a side, the middle one between the others. */
  ghost predicate Between(lines: seq<PatchLine>, oldSide: bool, p: int, q: int, r: int)
    requires 0 <= p < q < r < |lines|
  {
    var a, b, c := Number(lines[p], oldSide), Number(lines[q], oldSide), Number(lines[r], oldSide);
    a > 0 && b > 0 && c > 0 ==> a < b < c || a > b > c
  }

  ghost predicate AllBetween(lines: seq<PatchLine>, oldSide: bool) {
    forall p, q, r :: 0 <= p < q < r < |lines| ==> Between(lines, oldSide, p, q, r)
  }

  ghost predicate AllDistinct(lines: seq<PatchLine>, oldSide: bool) {
    forall p, q ::
      0 <= p < q < |lines| && Number(lines[p], oldSide) > 0 ==> Number(lines[p], oldSide) != Number(lines[q], oldSide)
  }

  /** Any pair goes the way the outermost one goes. */
  lemma SameDirection(lines: seq<PatchLine>, oldSide: bool, f: int, p: int, q: int, l: int)
    requires AllBetween(lines, oldSide) && 0 <= f <= p < q <= l < |lines|
    requires Number(lines[f], oldSide) > 0 && Number(lines[p], oldSide) > 0 && Number(lines[q], oldSide) > 0 &&
             Number(lines[l], oldSide) > 0
    ensures Number(lines[p], oldSide) < Number(lines[q], oldSide) <==>
              Number(lines[f], oldSide) < Number(lines[l], oldSide)
  {
    if f < p { assert Between(lines, oldSide, f, p, q); }
    if q < l { assert Between(lines, oldSide, f, q, l); }
  }

  /** A side without repeated numbers whose triples are all in order goes up or goes down. */
  lemma InOrderIsMonotone(lines: seq<PatchLine>, oldSide: bool)
    requires AllBetween(lines, oldSide) && AllDistinct(lines, oldSide)
    ensures Monotone(lines, oldSide)
  {
    if !Rising(lines, oldSide) && !Falling(lines, oldSide) {
      var p, q :| 0 <= p < q < |lines| && Number(lines[p], oldSide) > 0 && Number(lines[q], oldSide) > 0 &&
                  Number(lines[p], oldSide) >= Number(lines[q], oldSide);
      var p', q' :| 0 <= p' < q' < |lines| && Number(lines[p'], oldSide) > 0 && Number(lines[q'], oldSide) > 0 &&
                    Number(lines[p'], oldSide) <= Number(lines[q'], oldSide);
      var f, l := if p < p' then p else p', if q > q' then q else q';
      SameDirection(lines, oldSide, f, p, q, l);
      SameDirection(lines, oldSide, f, p', q', l);
    }
  }

  /** The comment made from a selection. */
  function CommentOn(s: Source, from: int, to: int): Annotation
    requires s.file.Some? && 0 <= from <= to < s.Len()
  {
    Annotation(0, "", "", s.OldRange(from, to), s.NewRange(from, to), "", "")
  }

  /** Two selected lines of a side drag in every line numbered between them. */
  lemma DragsIn(s: Source, from: int, to: int, oldSide: bool, i: int)
    requires s.presentation.DiffView? && s.file.Some? && Numbered(s.PatchLinesOf()) && 0 <= from <= to < s.Len() &&
             0 <= i < s.Len()
    requires var lines := s.PatchLinesOf();
             var a, b, n := Number(lines[from], oldSide), Number(lines[to], oldSide), Number(lines[i], oldSide);
             a > 0 && b > 0 && n > 0 && (a <= n <= b || b <= n <= a)
    ensures s.Contains(i, CommentOn(s, from, to))
  {
    var p, q := SideRangeCovers(s.PatchLinesOf(), from, to + 1, oldSide);
  }

  /** Every selection that begins on a commentable line is covered by the comment made from it. */
  ghost predicate AlwaysCovers(s: Source)
    requires s.file.Some?
  {
    forall from, to ::
      0 <= from <= to < s.Len() && s.Commentable(from) ==> CoversSelection(s, CommentOn(s, from, to), from, to)
  }

  /** So no line outside the selection is numbered between its ends. */
  lemma NotDraggedIn(s: Source, from: int, to: int, oldSide: bool, i: int, a: int, b: int, n: int)
    requires s.presentation.DiffView? && s.file.Some? && Numbered(s.PatchLinesOf()) && AlwaysCovers(s)
    requires 0 <= from <= to < s.Len() && 0 <= i < s.Len() && !(from <= i <= to)
    requires a == Number(s.PatchLinesOf()[from], oldSide) > 0 && b == Number(s.PatchLinesOf()[to], oldSide) > 0
    requires n == Number(s.PatchLinesOf()[i], oldSide) > 0
    ensures !(a <= n <= b) && !(b <= n <= a)
  {
    assert s.Commentable(from) && CoversSelection(s, CommentOn(s, from, to), from, to);
    if a <= n <= b || b <= n <= a { DragsIn(s, from, to, oldSide, i); }
  }

  lemma CoveringNeedsDistinct(s: Source, oldSide: bool)
    requires s.presentation.DiffView? && s.file.Some? && Numbered(s.PatchLinesOf()) && AlwaysCovers(s)
    ensures AllDistinct(s.PatchLinesOf(), oldSide)
  {
    var lines := s.PatchLinesOf();
    forall p, q | 0 <= p < q < |lines| && Number(lines[p], oldSide) > 0
      ensures Number(lines[p], oldSide) != Number(lines[q], oldSide)
    {
      var a, n := Number(lines[p], oldSide), Number(lines[q], oldSide);
      if n > 0 { NotDraggedIn(s, p, p, oldSide, q, a, a, n); }
    }
  }

  lemma CoveringNeedsBetween(s: Source, oldSide: bool, p: int, q: int, r: int)
    requires s.presentation.DiffView? && s.file.Some? && Numbered(s.PatchLinesOf()) && AlwaysCovers(s) &&
             0 <= p < q < r < s.Len()
    ensures Between(s.PatchLinesOf(), oldSide, p, q, r)
  {
    var lines := s.PatchLinesOf();
    var a, b, c := Number(lines[p], oldSide), Number(lines[q], oldSide), Number(lines[r], oldSide);
    if a > 0 && b > 0 && c > 0 {
      NotDraggedIn(s, p, q, oldSide, r, a, b, c);
      NotDraggedIn(s, q, r, oldSide, p, b, c, a);
    }
  }

  lemma CoveringNeedsMonotone(s: Source, oldSide: bool)
    requires s.presentation.DiffView? && s.file.Some? && Numbered(s.PatchLinesOf()) && AlwaysCovers(s)
    ensures Monotone(s.PatchLinesOf(), oldSide)
  {
    CoveringNeedsDistinct(s, oldSide);
    forall p, q, r | 0 <= p < q < r < s.Len() ensures Between(s.PatchLinesOf(), oldSide, p, q, r) {
      CoveringNeedsBetween(s, oldSide, p, q, r);
    }
    InOrderIsMonotone(s.PatchLinesOf(), oldSide);
  }

  /**
   Every selection that begins on a commentable line is found again: covered exactly, and shown once inside itself.
   */
  ghost predicate AlwaysFound(s: Source)
    requires s.file.Some?
  {
    forall from, to :: 0 <= from <= to < s.Len() && s.Commentable(from) ==>
      CoversSelection(s, CommentOn(s, from, to), from, to) && ShownOnce(s, CommentOn(s, from, to), from, to)
  }

  /**
   In the diff, every selection that begins on a commentable line is found again if and only if each side's numbers
   go up or go down.
   */
  lemma RoundTripIff(s: Source)
    requires s.presentation.DiffView? && s.file.Some? && Numbered(s.PatchLinesOf())
    ensures AlwaysFound(s) <==> Monotone(s.PatchLinesOf(), true) && Monotone(s.PatchLinesOf(), false)
  {
    if Monotone(s.PatchLinesOf(), true) && Monotone(s.PatchLinesOf(), false) {
      forall from, to | 0 <= from <= to < s.Len() && s.Commentable(from)
        ensures CoversSelection(s, CommentOn(s, from, to), from, to) && ShownOnce(s, CommentOn(s, from, to), from, to)
      {
        CommentRoundTrip(s, CommentOn(s, from, to), from, to);
      }
    }
    if AlwaysCovers(s) {
      CoveringNeedsMonotone(s, true);
      CoveringNeedsMonotone(s, false);
    }
  }
  /**
   In the diff a comment is anchored at the first line with its last new number, or with its last old one if it has no
   new.
   */
  lemma AnchorMeans(s: Source, a: Annotation, k: nat)
    requires s.presentation.DiffView?
    ensures s.AnchorOf(a) == Some(k) <==>
            k < |s.PatchLinesOf()| && AnchoredAt(a, s.PatchLinesOf()[k]) &&
            forall i :: 0 <= i < k ==> !AnchoredAt(a, s.PatchLinesOf()[i])
  {
    FirstMeans(a, s.PatchLinesOf(), 0);
  }

  predicate AnchoredAt(a: Annotation, l: PatchLine) {
    if a.newLines.last != 0 then 0 < a.newLines.last == l.newLine else 0 < a.oldLines.last == l.oldLine
  }

  lemma {:induction false} FirstMeans(a: Annotation, lines: seq<PatchLine>, i: nat)
    requires i <= |lines|
    ensures FirstAnchor(a, lines, i).None? ==> forall k :: i <= k < |lines| ==> !AnchoredAt(a, lines[k])
    ensures FirstAnchor(a, lines, i).Some? ==>
              i <= FirstAnchor(a, lines, i).value < |lines| && AnchoredAt(a, lines[FirstAnchor(a, lines, i).value]) &&
              forall k :: i <= k < FirstAnchor(a, lines, i).value ==> !AnchoredAt(a, lines[k])
    decreases |lines| - i
  {
    if i < |lines| && !IsAnchorLine(a, lines[i]) { FirstMeans(a, lines, i + 1); }
  }
}
