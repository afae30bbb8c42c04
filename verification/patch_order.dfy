/**
 Comments on patches whose hunks come in any order: from the patch text to when every comment is found again
 (internal/ui/annotation/patch.go, document.go).
 */
module PatchOrder {
  import opened Text
  import opened PatchLines
  import opened PatchParser
  import opened PatchReturns
  import opened PatchNumbers
  import opened ReviewSource
  import Pairing

  /** Hunks that have lines on a side start at line 1 or later there. */
  ghost predicate Started(h: Hunk) {
    forall oldSide :: SideCount(h.items, |h.items|, oldSide) > 0 ==> SideStart(h, oldSide) >= 1
  }

  predicate Fits(l: PatchLine) { NumberFits(l, true) && NumberFits(l, false) }

  lemma {:induction false} ItemsFit(h: Hunk, k: nat)
    requires Started(h) && k <= |h.items|
    ensures All(Fits, ItemLines(h, k))
  {
    if k > 0 {
      ItemsFit(h, k - 1);
      ItemNumber(h, k - 1, true);
      ItemNumber(h, k - 1, false);
      AllAppend(Fits, ItemLines(h, k - 1), [ItemLine(h, k - 1)]);
    }
  }

  lemma FileFits(f: FilePatch)
    requires forall i :: 0 <= i < |f.hunks| ==> Started(f.hunks[i])
    ensures All(Fits, FileOf(f).lines)
  {
    var pieces := LinePieces(f.hunks);
    forall i | 0 <= i < |pieces| ensures All(Fits, pieces[i]) {
      var h := f.hunks[i];
      ItemsFit(h, |h.items|);
      AllAppend(Fits, [Plain(HunkHeader, HunkText(h))], ItemLines(h, |h.items|));
    }
    AllFlat(Fits, pieces, |f.hunks|);
    var extra := ExtraLines(f.extra, |f.extra|);
    ExtrasAreUnnumbered(f.extra, |f.extra|);
    forall i | 0 <= i < |extra| ensures Fits(extra[i]) { assert Unnumbered(extra[i]); }
    AllAppend(Fits, extra, HunkLines(f.hunks));
  }

  /** Summary and pairing keep the numbers. */
  lemma FittingIsNumbered(g: PatchFile, score: Pairing.Score)
    requires All(Fits, g.lines)
    ensures Numbered(Finished(g, score).lines)
  {
    var now := Finished(g, score).lines;
    if |g.lines| + Shift(g) > 0 { FinishedLine(g, score, 0); }
    forall i | 0 <= i < |now| ensures Fits(now[i]) {
      FinishedLine(g, score, i);
      if i >= Shift(g) {
        var l := g.lines[i - Shift(g)];
        assert Fits(l) && now[i].(pairContent := "").kind == l.(pairContent := "").kind;
        assert now[i].(pairContent := "").oldLine == l.(pairContent := "").oldLine;
        assert now[i].(pairContent := "").newLine == l.(pairContent := "").newLine;
      }
    }
    forall i | 0 <= i < |now|
      ensures now[i].oldLine >= 0 && now[i].newLine >= 0
      ensures now[i].oldLine > 0 <==> OnSide(now[i], true)
      ensures now[i].newLine > 0 <==> OnSide(now[i], false)
    {
      assert Fits(now[i]);
    }
  }

  /** Numbers exist exactly where they should in every printed file. */
  lemma FinishedIsNumbered(f: FilePatch, score: Pairing.Score)
    requires forall i :: 0 <= i < |f.hunks| ==> Started(f.hunks[i])
    ensures Numbered(Finished(FileOf(f), score).lines)
  {
    FileFits(f);
    FittingIsNumbered(FileOf(f), score);
  }

  lemma StrippedStarted(h: Hunk)
    requires Started(h)
    ensures Started(StripHunk(h))
  {
    SameCounts(h.items, |h.items|);
    forall oldSide | SideCount(StripHunk(h).items, |h.items|, oldSide) > 0
      ensures SideStart(StripHunk(h), oldSide) >= 1
    {
      assert SideCount(h.items, |h.items|, oldSide) > 0;
    }
  }

  // ---------- whatever was read ----------

  /** A line has no number on a side it does not belong to. */
  predicate OffSideIsZero(l: PatchLine) {
    (!OnSide(l, true) ==> l.oldLine == 0) && (!OnSide(l, false) ==> l.newLine == 0)
  }

  ghost predicate FileIsSound(f: PatchFile) { All(OffSideIsZero, f.lines) }

  ghost predicate ReaderIsSound(r: Reader) {
    (forall k :: 0 <= k < |r.done| ==> FileIsSound(r.done[k])) && (r.current.Some? ==> FileIsSound(r.current.value))
  }

  lemma WithLineIsSound(r: Reader, l: PatchLine)
    requires ReaderIsSound(r) && r.current.Some? && OffSideIsZero(l)
    ensures ReaderIsSound(r.WithLine(l))
  {
    AllAppend(OffSideIsZero, r.current.value.lines, [l]);
  }

  lemma HunkStepIsSound(r: Reader, raw: string, d: Decoders)
    requires ReaderIsSound(r) && r.current.Some?
    ensures ReaderIsSound(StepHunk(r, raw, d))
  {
    WithLineIsSound(r, Plain(HunkHeader, raw));
    WithLineIsSound(r, Plain(Metadata, raw));
    if raw != "" {
      WithLineIsSound(r, PatchLine(Context, raw, raw[1..], r.oldLine, r.newLine, ""));
      WithLineIsSound(r, PatchLine(Removed, raw, raw[1..], r.oldLine, 0, ""));
      WithLineIsSound(r, PatchLine(Added, raw, raw[1..], 0, r.newLine, ""));
    }
  }

  lemma PathsAreSound(r: Reader)
    requires ReaderIsSound(r) && r.current.Some?
    ensures forall p :: ReaderIsSound(r.WithOldPath(p)) && ReaderIsSound(r.WithNewPath(p))
  {
  }

  lemma HeaderStepIsSound(r: Reader, raw: string, d: Decoders)
    requires ReaderIsSound(r) && r.current.Some?
    ensures ReaderIsSound(StepHeader(r, raw, d))
  {
    PathsAreSound(r);
    WithLineIsSound(r.WithOldPath(""), Plain(HunkHeader, raw));
    WithLineIsSound(r.WithOldPath(""), Plain(Metadata, raw));
    WithLineIsSound(r.WithNewPath(""), Plain(HunkHeader, raw));
    WithLineIsSound(r.WithNewPath(""), Plain(Metadata, raw));
    WithLineIsSound(r, Plain(HunkHeader, raw));
    WithLineIsSound(r, Plain(Metadata, raw));
  }

  lemma StepIsSound(r: Reader, raw: string, d: Decoders)
    requires ReaderIsSound(r)
    ensures ReaderIsSound(Step(r, raw, d))
  {
    if r.current.Some? {
      HunkStepIsSound(r, raw, d);
      HeaderStepIsSound(r, raw, d);
    }
  }

  lemma {:induction false} LinesAreSound(lines: seq<string>, d: Decoders)
    ensures ReaderIsSound(Fold(StepOf(d), PatchParser.START, lines))
  {
    if lines != [] {
      LinesAreSound(lines[..|lines| - 1], d);
      StepIsSound(Fold(StepOf(d), PatchParser.START, lines[..|lines| - 1]), lines[|lines| - 1], d);
    }
  }

  /** No text gives a line a number on a side it does not belong to. */
  lemma ReadIsSound(content: string, shell: ShellWords, parsed: seq<PatchFile>, k: nat)
    requires parsed == ParsedFiles(content, shell) && k < |parsed|
    ensures FileIsSound(parsed[k])
  {
    LinesAreSound(SplitOn(Without(content, '\r'), '\n'), GitDecoders(shell));
  }

  /** Lines got positive numbers on their sides: no hunk with lines of a side starts at 0 or below there. */
  ghost predicate Positive(lines: seq<PatchLine>) {
    forall i, oldSide :: 0 <= i < |lines| && OnSide(lines[i], oldSide) ==> Number(lines[i], oldSide) >= 1
  }

  lemma SoundIsNumbered(f: PatchFile, score: Pairing.Score)
    requires FileIsSound(f) && Positive(f.lines)
    ensures Numbered(Finished(f, score).lines)
  {
    forall i | 0 <= i < |f.lines| ensures Fits(f.lines[i]) {
      assert OffSideIsZero(f.lines[i]);
      assert OnSide(f.lines[i], true) ==> Number(f.lines[i], true) >= 1;
      assert OnSide(f.lines[i], false) ==> Number(f.lines[i], false) >= 1;
    }
    FittingIsNumbered(f, score);
  }

  /**
   Whatever patch text was read: every comment on a file is found again exactly when the numbers of each side go up or
   go down.
   */
  lemma ReadRoundTripIff(content: string, shell: ShellWords, parsed: seq<PatchFile>, score: Pairing.Score, k: nat,
                         item: FileItem)
    requires parsed == ParsedFiles(content, shell) && k < |parsed| && Positive(parsed[k].lines)
    requires item.patch == Some(FinishedAll(parsed, score)[k])
    ensures AlwaysFound(Source(Some(item), DiffView)) <==>
            Monotone(item.patch.value.lines, true) && Monotone(item.patch.value.lines, false)
  {
    ReadIsSound(content, shell, parsed, k);
    SoundIsNumbered(parsed[k], score);
    assert Source(Some(item), DiffView).PatchLinesOf() == item.patch.value.lines;
    RoundTripIff(Source(Some(item), DiffView));
  }

  /**
   After reading a printed patch, every comment on a file is found again exactly when the numbers of each side go up or
   go down.
   */
  lemma ParsedRoundTripIff(files: seq<FilePatch>, shell: ShellWords, parsed: seq<PatchFile>, score: Pairing.Score,
                           k: nat, item: FileItem)
    requires (forall i :: 0 <= i < |files| ==> ValidFile(StripFile(files[i]), shell)) && k < |files|
    requires (forall i :: 0 <= i < |files[k].hunks| ==> Started(files[k].hunks[i])) &&
             parsed == ParsedFiles(PrintPatch(files), shell)
    requires k < |parsed| && item.patch == Some(FinishedAll(parsed, score)[k])
    ensures AlwaysFound(Source(Some(item), DiffView)) <==>
            Monotone(item.patch.value.lines, true) && Monotone(item.patch.value.lines, false)
  {
    PatchRoundTrip(files, shell);
    FinishedAt(files, parsed, score, k);
    var f := StripFile(files[k]);
    forall i | 0 <= i < |f.hunks| ensures Started(f.hunks[i]) { StrippedStarted(files[k].hunks[i]); }
    FinishedIsNumbered(f, score);
    assert Source(Some(item), DiffView).PatchLinesOf() == item.patch.value.lines;
    RoundTripIff(Source(Some(item), DiffView));
  }

  // ---------- a patch that fails ----------

  // Lines 2 and 3 are deleted by the first hunk, line 1 by the second.
  const SHUFFLED := FilePatch("a/f b/f", [], Markers(Some("f"), Some("f")),
                              [Hunk(2, 1, "", [Delete("x"), Delete("y")]), Hunk(1, 1, "", [Delete("z")])])

  predicate Deletes(h: Hunk, start: nat, count: nat) {
    h.oldStart == start && h.newStart == 1 && |h.items| == count && forall i :: 0 <= i < count ==> h.items[i].Delete?
  }

  /** A patch of that shape, whatever the deleted texts. */
  predicate Shuffled(f: FilePatch) {
    |f.hunks| == 2 && Deletes(f.hunks[0], 2, 2) && Deletes(f.hunks[1], 1, 1) && f.extra == [] &&
    OldPath(f.paths) == NewPath(f.paths)
  }

  lemma ShuffledExample(shell: ShellWords)
    ensures Shuffled(SHUFFLED) && ValidFile(SHUFFLED, shell)
  {
    var f := SHUFFLED;
    assert ValidHunk(f.hunks[0]) && ValidHunk(f.hunks[1]);
  }

  lemma DeletionNumbers(h: Hunk, k: nat)
    requires k < |h.items| && forall i :: 0 <= i < |h.items| ==> h.items[i].Delete?
    ensures OldCount(h.items, k) == k && ItemLine(h, k).oldLine == h.oldStart + k
    ensures |ItemLines(h, |h.items|)| == |h.items| && ItemLines(h, |h.items|)[k] == ItemLine(h, k)
  {
    DeletionCount(h.items, k);
    ItemLinesAt(h, |h.items|, k);
  }

  lemma {:induction false} DeletionCount(items: seq<Item>, k: nat)
    requires k <= |items| && forall i :: 0 <= i < |items| ==> items[i].Delete?
    ensures OldCount(items, k) == k
  {
    if k > 0 { DeletionCount(items, k - 1); }
  }

  lemma {:induction false} ItemLinesAt(h: Hunk, n: nat, k: nat)
    requires k < n <= |h.items|
    ensures |ItemLines(h, n)| == n && ItemLines(h, n)[k] == ItemLine(h, k)
  {
    if k < n - 1 { ItemLinesAt(h, n - 1, k); } else if n > 1 { ItemLinesAt(h, n - 1, 0); }
  }

  lemma TwoPieces<T>(pieces: seq<seq<T>>, a: seq<T>, b: seq<T>)
    requires pieces == [a, b]
    ensures Flat(pieces, 2) == a + b
  {
    assert Flat(pieces, 1) == [] + a;
  }

  /** The old line numbers of the five lines: header, 2, 3, header, 1. */
  lemma ShuffledLines(f: FilePatch, first: Hunk, second: Hunk)
    requires Shuffled(f) && first == f.hunks[0] && second == f.hunks[1]
    ensures |FileOf(f).lines| == 5
    ensures FileOf(f).lines[1].oldLine == 2 && FileOf(f).lines[2].oldLine == 3 && FileOf(f).lines[4].oldLine == 1
  {
    var a, b := OneHunkLines(first), OneHunkLines(second);
    DeletionNumbers(first, 0);
    DeletionNumbers(first, 1);
    DeletionNumbers(second, 0);
    assert LinePieces(f.hunks) == [a, b];
    TwoPieces(LinePieces(f.hunks), a, b);
    assert a[1] == ItemLine(first, 0) && a[2] == ItemLine(first, 1) && b[1] == ItemLine(second, 0);
  }

  lemma ShuffledIsNotMonotone(f: FilePatch, score: Pairing.Score)
    requires Shuffled(f)
    ensures !Monotone(Finished(FileOf(f), score).lines, true)
  {
    var g, now := FileOf(f), Finished(FileOf(f), score).lines;
    ShuffledLines(f, f.hunks[0], f.hunks[1]);
    forall i | 0 <= i < 5 ensures |now| == 5 && Number(now[i], true) == g.lines[i].oldLine {
      FinishedLine(g, score, i);
      assert now[i].(pairContent := "").oldLine == g.lines[i].(pairContent := "").oldLine;
    }
    assert Number(now[1], true) == 2 && Number(now[2], true) == 3 && Number(now[4], true) == 1;
  }

  lemma ShuffledIsStarted(f: FilePatch, h: Hunk, start: nat, count: nat)
    requires Deletes(h, start, count) && start >= 1
    ensures Started(h)
  {
  }

  lemma ShuffledViewFails(f: FilePatch, score: Pairing.Score, item: FileItem)
    requires Shuffled(f) && item.patch == Some(Finished(FileOf(f), score))
    ensures !AlwaysFound(Source(Some(item), DiffView))
  {
    ShuffledIsStarted(f, f.hunks[0], 2, 2);
    ShuffledIsStarted(f, f.hunks[1], 1, 1);
    FinishedIsNumbered(f, score);
    ShuffledIsNotMonotone(f, score);
    assert Source(Some(item), DiffView).PatchLinesOf() == Finished(FileOf(f), score).lines;
    RoundTripIff(Source(Some(item), DiffView));
  }

  lemma OnlyFile(files: seq<FilePatch>, parsed: seq<PatchFile>, score: Pairing.Score)
    requires |files| == 1 && parsed == FilesOf(files)
    ensures |parsed| == 1 && FinishedAll(parsed, score)[0] == Finished(FileOf(files[0]), score)
  {
  }

  /** Reading a patch that deletes lines 2 and 3 before line 1 gives lines on which some comment is not found again. */
  lemma ShuffledPatchFails(files: seq<FilePatch>, shell: ShellWords, parsed: seq<PatchFile>, score: Pairing.Score,
                           item: FileItem)
    requires |files| == 1 && Shuffled(files[0]) && ValidFile(files[0], shell) &&
             parsed == ParsedFiles(PrintPatch(files), shell)
    requires |parsed| > 0 && item.patch == Some(FinishedAll(parsed, score)[0])
    ensures !AlwaysFound(Source(Some(item), DiffView))
  {
    CleanPatchRoundTrip(files, shell);
    OnlyFile(files, parsed, score);
    ShuffledViewFails(files[0], score, item);
  }
  /** Such a patch is SHUFFLED. */
  lemma ShuffledTextFails(shell: ShellWords, parsed: seq<PatchFile>, score: Pairing.Score, item: FileItem)
    requires parsed == ParsedFiles(PrintPatch([SHUFFLED]), shell)
    ensures |parsed| == 1
    ensures item.patch == Some(FinishedAll(parsed, score)[0]) ==> !AlwaysFound(Source(Some(item), DiffView))
  {
    ShuffledExample(shell);
    CleanPatchRoundTrip([SHUFFLED], shell);
    if item.patch == Some(FinishedAll(parsed, score)[0]) { ShuffledPatchFails([SHUFFLED], shell, parsed, score, item); }
  }
}
