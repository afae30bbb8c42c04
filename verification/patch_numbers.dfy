/**
 What the numbers of a parsed patch mean: they agree with the two file versions the patch describes,
 and they increase when the hunks do, so that comments can be found again in either view.
 */
module PatchNumbers {
  import opened Text
  import opened PatchLines
  import opened PatchParser
  import opened PatchReturns
  import opened FileLines
  import opened ReviewSource
  import Pairing

  // ---------- agreement with the file versions ----------

  /** The texts of one side of the first `k` items, in order. */
  function SideTexts(items: seq<Item>, k: nat, oldSide: bool): seq<string>
    requires k <= |items|
  {
    if k == 0 then []
    else SideTexts(items, k - 1, oldSide) +
         if (if oldSide then items[k - 1].OldSide() else items[k - 1].NewSide()) then [items[k - 1].text] else []
  }

  function SideStart(h: Hunk, oldSide: bool): nat { if oldSide then h.oldStart else h.newStart }

  function SideCount(items: seq<Item>, k: nat, oldSide: bool): nat
    requires k <= |items|
  {
    if oldSide then OldCount(items, k) else NewCount(items, k)
  }

  /** The hunk's side is a stretch of that version of the file, at the line its header names. */
  ghost predicate Describes(h: Hunk, version: seq<string>, oldSide: bool) {
    var n := SideCount(h.items, |h.items|, oldSide);
    n > 0 ==>
      1 <= SideStart(h, oldSide) && SideStart(h, oldSide) - 1 + n <= |version| &&
      version[SideStart(h, oldSide) - 1..SideStart(h, oldSide) - 1 + n] == SideTexts(h.items, |h.items|, oldSide)
  }

  /** A numbered line has the text of that line of the version. */
  predicate Agrees(l: PatchLine, version: seq<string>, oldSide: bool) {
    Number(l, oldSide) > 0 ==> Number(l, oldSide) <= |version| && version[Number(l, oldSide) - 1] == l.content
  }

  function AgreesWith(version: seq<string>, oldSide: bool): PatchLine -> bool { l => Agrees(l, version, oldSide) }

  lemma {:induction false} SideTextAt(items: seq<Item>, k: nat, m: nat, oldSide: bool)
    requires k <= m <= |items|
    ensures |SideTexts(items, m, oldSide)| == SideCount(items, m, oldSide)
    ensures SideCount(items, k, oldSide) <= SideCount(items, m, oldSide)
    ensures k < m && (if oldSide then items[k].OldSide() else items[k].NewSide()) ==>
              SideCount(items, k, oldSide) < SideCount(items, m, oldSide) &&
              SideTexts(items, m, oldSide)[SideCount(items, k, oldSide)] == items[k].text
    decreases m
  {
    if m > 0 {
      SideTextAt(items, if k < m then k else m - 1, m - 1, oldSide);
    }
  }

  lemma ItemAgrees(h: Hunk, version: seq<string>, k: nat, oldSide: bool)
    requires Describes(h, version, oldSide) && k < |h.items|
    ensures Agrees(ItemLine(h, k), version, oldSide)
  {
    var n := |h.items|;
    SideTextAt(h.items, k, n, oldSide);
    if if oldSide then h.items[k].OldSide() else h.items[k].NewSide() {
      var lo, c := SideStart(h, oldSide) - 1, SideCount(h.items, k, oldSide);
      assert version[lo..lo + SideCount(h.items, n, oldSide)][c] == version[lo + c];
    }
  }

  lemma {:induction false} ItemsAgree(h: Hunk, version: seq<string>, k: nat, oldSide: bool)
    requires Describes(h, version, oldSide) && k <= |h.items|
    ensures All(AgreesWith(version, oldSide), ItemLines(h, k))
  {
    if k > 0 {
      ItemsAgree(h, version, k - 1, oldSide);
      ItemAgrees(h, version, k - 1, oldSide);
      AllAppend(AgreesWith(version, oldSide), ItemLines(h, k - 1), [ItemLine(h, k - 1)]);
    }
  }

  /** A line that is no change: metadata or a hunk header. */
  predicate Unnumbered(l: PatchLine) { !l.Commentable() && l.oldLine == 0 && l.newLine == 0 }

  lemma {:induction false} ExtrasAreUnnumbered(extra: seq<string>, k: nat)
    requires k <= |extra|
    ensures All(Unnumbered, ExtraLines(extra, k))
  {
    if k > 0 {
      ExtrasAreUnnumbered(extra, k - 1);
      AllAppend(Unnumbered, ExtraLines(extra, k - 1),
                if ShouldShowMetadata(extra[k - 1]) then [Plain(Metadata, extra[k - 1])] else []);
    }
  }

  lemma OneHunkAgrees(h: Hunk, version: seq<string>, oldSide: bool)
    requires Describes(h, version, oldSide)
    ensures All(AgreesWith(version, oldSide), OneHunkLines(h))
  {
    ItemsAgree(h, version, |h.items|, oldSide);
    AllAppend(AgreesWith(version, oldSide), [Plain(HunkHeader, HunkText(h))], ItemLines(h, |h.items|));
  }

  lemma UnnumberedAgree(lines: seq<PatchLine>, version: seq<string>, oldSide: bool)
    requires All(Unnumbered, lines)
    ensures All(AgreesWith(version, oldSide), lines)
  {
    forall i | 0 <= i < |lines|
      ensures Agrees(lines[i], version, oldSide)
    {
      assert Unnumbered(lines[i]);
    }
  }

  lemma FileAgrees(f: FilePatch, version: seq<string>, oldSide: bool)
    requires forall i :: 0 <= i < |f.hunks| ==> Describes(f.hunks[i], version, oldSide)
    ensures All(AgreesWith(version, oldSide), FileOf(f).lines)
  {
    var ok := AgreesWith(version, oldSide);
    var pieces := LinePieces(f.hunks);
    forall i | 0 <= i < |pieces|
      ensures All(ok, pieces[i])
    {
      OneHunkAgrees(f.hunks[i], version, oldSide);
    }
    AllFlat(ok, pieces, |f.hunks|);
    ExtrasAreUnnumbered(f.extra, |f.extra|);
    UnnumberedAgree(ExtraLines(f.extra, |f.extra|), version, oldSide);
    AllAppend(ok, ExtraLines(f.extra, |f.extra|), HunkLines(f.hunks));
  }

  /** The number of lines the summary adds. */
  function Shift(f: PatchFile): nat {
    if f.oldPath != "" && f.newPath != "" && f.oldPath != f.newPath then 1 else 0
  }

  /** Summary and pairing touch neither kinds, texts nor numbers. */
  lemma FinishedLine(f: PatchFile, score: Pairing.Score, i: nat)
    requires i < |f.lines| + Shift(f)
    ensures |Finished(f, score).lines| == |f.lines| + Shift(f)
    ensures var l := Finished(f, score).lines[i];
            if i < Shift(f) then Unnumbered(l)
            else l.(pairContent := "") == f.lines[i - Shift(f)].(pairContent := "")
  {
    var g := WithSummary(f);
    assert Finished(f, score).lines[i] == Pairing.PairedLine(g.lines, i, score);
  }

  lemma SameAgreement(l: PatchLine, m: PatchLine, version: seq<string>, oldSide: bool)
    requires l.(pairContent := "") == m.(pairContent := "") && Agrees(m, version, oldSide)
    ensures Agrees(l, version, oldSide)
  {
    assert l.content == m.content && l.oldLine == m.oldLine && l.newLine == m.newLine;
  }

  lemma AgreesWhenFinished(f: PatchFile, score: Pairing.Score, version: seq<string>, oldSide: bool, i: nat)
    requires All(AgreesWith(version, oldSide), f.lines) && i < |Finished(f, score).lines|
    ensures Agrees(Finished(f, score).lines[i], version, oldSide)
  {
    FinishedLine(f, score, i);
    if i >= Shift(f) {
      assert AgreesWith(version, oldSide)(f.lines[i - Shift(f)]);
      SameAgreement(Finished(f, score).lines[i], f.lines[i - Shift(f)], version, oldSide);
    }
  }

  lemma {:induction false} StrippedTexts(items: seq<Item>, k: nat, oldSide: bool)
    requires k <= |items|
    ensures SideTexts(Mapped(StripItem, items), k, oldSide) == Mapped(Strip, SideTexts(items, k, oldSide))
  {
    if k > 0 {
      StrippedTexts(items, k - 1, oldSide);
      if if oldSide then items[k - 1].OldSide() else items[k - 1].NewSide() {
        MappedSnoc(Strip, SideTexts(items, k - 1, oldSide), items[k - 1].text);
      }
    }
  }

  /** Without its carriage returns a hunk describes the version without them. */
  lemma StrippedDescribes(h: Hunk, version: seq<string>, oldSide: bool)
    requires Describes(h, version, oldSide)
    ensures Describes(StripHunk(h), Mapped(Strip, version), oldSide)
  {
    var n := |h.items|;
    SameCounts(h.items, n);
    StrippedTexts(h.items, n, oldSide);
    SideTextAt(h.items, n, n, oldSide);
    if SideCount(h.items, n, oldSide) > 0 {
      MappedSlice(Strip, version, SideStart(h, oldSide) - 1,
                  SideStart(h, oldSide) - 1 + SideCount(h.items, n, oldSide));
    }
  }

  lemma MappedSlice<T, U>(f: T -> U, xs: seq<T>, i: nat, j: nat)
    requires i <= j <= |xs|
    ensures Mapped(f, xs)[i..j] == Mapped(f, xs[i..j])
  {
  }

  lemma CleanAgrees(f: FilePatch, score: Pairing.Score, version: seq<string>, oldSide: bool, i: nat)
    requires forall k :: 0 <= k < |f.hunks| ==> Describes(f.hunks[k], version, oldSide)
    requires i < |Finished(FileOf(f), score).lines|
    ensures Agrees(Finished(FileOf(f), score).lines[i], version, oldSide)
  {
    FileAgrees(f, version, oldSide);
    AgreesWhenFinished(FileOf(f), score, version, oldSide, i);
  }

  /** Line n of the diff view has the text of line n of the file version, carriage returns aside, on either side. */
  lemma DiffAgreesWithFiles(f: FilePatch, score: Pairing.Score, version: seq<string>, oldSide: bool, i: nat)
    requires forall k :: 0 <= k < |f.hunks| ==> Describes(f.hunks[k], version, oldSide)
    requires i < |Finished(FileOf(StripFile(f)), score).lines|
    ensures Agrees(Finished(FileOf(StripFile(f)), score).lines[i], Mapped(Strip, version), oldSide)
  {
    var g := StripFile(f);
    forall k | 0 <= k < |g.hunks| ensures Describes(g.hunks[k], Mapped(Strip, version), oldSide) {
      StrippedDescribes(f.hunks[k], version, oldSide);
    }
    CleanAgrees(g, score, Mapped(Strip, version), oldSide, i);
  }

  /** The complete-file view shows every line of the version. */
  predicate Shows(lines: seq<string>, ended: bool) {
    FileVersion(lines, ended) && (ended || |lines| == 1 || Strip(lines[|lines| - 1]) != "")
  }

  /** Line n of the diff view is line n of the file view: from the patch text and the file text to the two screens. */
  lemma DiffAgreesWithFileView(f: FilePatch, score: Pairing.Score, version: seq<string>, ended: bool, oldSide: bool,
                               i: nat)
    requires (forall k :: 0 <= k < |f.hunks| ==> Describes(f.hunks[k], version, oldSide)) && Shows(version, ended)
    requires i < |Finished(FileOf(StripFile(f)), score).lines|
    ensures Agrees(Finished(FileOf(StripFile(f)), score).lines[i], SplitFileLines(VersionText(version, ended)), oldSide)
  {
    DiffAgreesWithFiles(f, score, version, oldSide, i);
    ViewHasVersionLinesIff(version, ended, Mapped(Strip, version));
  }

  // ---------- increasing numbers ----------

  /** Hunks that have lines on a side start at line 1 or later and after the lines of earlier hunks. */
  ghost predicate Increasing(hunks: seq<Hunk>, oldSide: bool) {
    (forall i :: 0 <= i < |hunks| && SideCount(hunks[i].items, |hunks[i].items|, oldSide) > 0 ==>
                   SideStart(hunks[i], oldSide) >= 1) &&
    forall i, j :: 0 <= i < j < |hunks| && SideCount(hunks[i].items, |hunks[i].items|, oldSide) > 0 &&
                   SideCount(hunks[j].items, |hunks[j].items|, oldSide) > 0 ==>
      SideStart(hunks[i], oldSide) + SideCount(hunks[i].items, |hunks[i].items|, oldSide) <=
      SideStart(hunks[j], oldSide)
  }

  /** The numbers of one side appear where the kind says and increase. */
  ghost predicate SideNumbered(lines: seq<PatchLine>, oldSide: bool) {
    (forall i :: 0 <= i < |lines| ==> NumberFits(lines[i], oldSide)) &&
    forall i, j :: 0 <= i < j < |lines| && Number(lines[i], oldSide) > 0 && Number(lines[j], oldSide) > 0 ==>
      Number(lines[i], oldSide) < Number(lines[j], oldSide)
  }

  predicate NumberFits(l: PatchLine, oldSide: bool) {
    Number(l, oldSide) >= 0 &&
    (Number(l, oldSide) > 0 <==> l.kind.Context? || (if oldSide then l.kind.Removed? else l.kind.Added?))
  }

  /** All numbers of the side lie in [lo, hi). */
  ghost predicate Within(lines: seq<PatchLine>, oldSide: bool, lo: int, hi: int) {
    forall i :: 0 <= i < |lines| && Number(lines[i], oldSide) > 0 ==> lo <= Number(lines[i], oldSide) < hi
  }

  lemma NumberedAppend(a: seq<PatchLine>, b: seq<PatchLine>, oldSide: bool)
    requires SideNumbered(a, oldSide) && SideNumbered(b, oldSide)
    requires forall i, j :: 0 <= i < |a| && 0 <= j < |b| && Number(a[i], oldSide) > 0 && Number(b[j], oldSide) > 0 ==>
               Number(a[i], oldSide) < Number(b[j], oldSide)
    ensures SideNumbered(a + b, oldSide)
  {
  }

  lemma ItemNumber(h: Hunk, k: nat, oldSide: bool)
    requires k < |h.items| && (SideCount(h.items, |h.items|, oldSide) > 0 ==> SideStart(h, oldSide) >= 1)
    ensures NumberFits(ItemLine(h, k), oldSide)
    ensures var n := Number(ItemLine(h, k), oldSide);
            n > 0 ==> n == SideStart(h, oldSide) + SideCount(h.items, k, oldSide) &&
                      SideCount(h.items, k + 1, oldSide) == SideCount(h.items, k, oldSide) + 1
  {
    SideTextAt(h.items, k, |h.items|, oldSide);
  }

  lemma {:induction false} ItemsNumbered(h: Hunk, k: nat, oldSide: bool)
    requires k <= |h.items| && (SideCount(h.items, |h.items|, oldSide) > 0 ==> SideStart(h, oldSide) >= 1)
    ensures SideNumbered(ItemLines(h, k), oldSide)
    ensures Within(ItemLines(h, k), oldSide, SideStart(h, oldSide),
                   SideStart(h, oldSide) + SideCount(h.items, k, oldSide))
  {
    if k > 0 {
      ItemsNumbered(h, k - 1, oldSide);
      ItemNumber(h, k - 1, oldSide);
      NumberedSnoc(ItemLines(h, k - 1), ItemLine(h, k - 1), oldSide, SideStart(h, oldSide),
                   SideStart(h, oldSide) + SideCount(h.items, k - 1, oldSide),
                   SideStart(h, oldSide) + SideCount(h.items, k, oldSide));
    }
  }

  lemma NumberedSnoc(a: seq<PatchLine>, l: PatchLine, oldSide: bool, lo: int, mid: int, hi: int)
    requires SideNumbered(a, oldSide) && Within(a, oldSide, lo, mid) && NumberFits(l, oldSide)
    requires lo <= mid <= hi && (Number(l, oldSide) > 0 ==> Number(l, oldSide) == mid && mid + 1 == hi)
    ensures SideNumbered(a + [l], oldSide) && Within(a + [l], oldSide, lo, hi)
  {
    NumberedAppend(a, [l], oldSide);
  }

  lemma OneHunkNumbered(h: Hunk, oldSide: bool)
    requires SideCount(h.items, |h.items|, oldSide) > 0 ==> SideStart(h, oldSide) >= 1
    ensures SideNumbered(OneHunkLines(h), oldSide)
    ensures Within(OneHunkLines(h), oldSide, SideStart(h, oldSide),
                   SideStart(h, oldSide) + SideCount(h.items, |h.items|, oldSide))
  {
    ItemsNumbered(h, |h.items|, oldSide);
    NumberedAppend([Plain(HunkHeader, HunkText(h))], ItemLines(h, |h.items|), oldSide);
  }

  /** Every number so far lies below the start of any later stretch that has lines on the side. */
  ghost predicate BelowLater(lines: seq<PatchLine>, starts: seq<int>, counts: seq<int>, k: nat, oldSide: bool)
    requires |starts| == |counts|
  {
    forall i, j :: 0 <= i < |lines| && k <= j < |starts| && Number(lines[i], oldSide) > 0 && counts[j] > 0 ==>
      Number(lines[i], oldSide) < starts[j]
  }

  lemma BelowLaterStep(a: seq<PatchLine>, b: seq<PatchLine>, starts: seq<int>, counts: seq<int>, k: nat, oldSide: bool)
    requires |starts| == |counts| && 0 < k <= |starts|
    requires BelowLater(a, starts, counts, k - 1, oldSide)
    requires Within(b, oldSide, starts[k - 1], starts[k - 1] + counts[k - 1])
    requires forall j ::
               k <= j < |starts| && counts[k - 1] > 0 && counts[j] > 0 ==> starts[k - 1] + counts[k - 1] <= starts[j]
    ensures BelowLater(a + b, starts, counts, k, oldSide)
  {
    forall i, j | 0 <= i < |a + b| && k <= j < |starts| && Number((a + b)[i], oldSide) > 0 && counts[j] > 0
      ensures Number((a + b)[i], oldSide) < starts[j]
    {
      if i >= |a| { assert (a + b)[i] == b[i - |a|]; }
    }
  }

  /** Numbered stretches that follow one another stay numbered when joined. */
  lemma {:induction false} StretchesNumbered(pieces: seq<seq<PatchLine>>, starts: seq<int>, counts: seq<int>, k: nat,
                                             oldSide: bool)
    requires |pieces| == |starts| == |counts| && k <= |pieces|
    requires forall i :: 0 <= i < |pieces| ==>
               SideNumbered(pieces[i], oldSide) && Within(pieces[i], oldSide, starts[i], starts[i] + counts[i])
    requires forall i, j ::
               0 <= i < j < |pieces| && counts[i] > 0 && counts[j] > 0 ==> starts[i] + counts[i] <= starts[j]
    ensures SideNumbered(Flat(pieces, k), oldSide) && BelowLater(Flat(pieces, k), starts, counts, k, oldSide)
  {
    if k > 0 {
      StretchesNumbered(pieces, starts, counts, k - 1, oldSide);
      var a, b := Flat(pieces, k - 1), pieces[k - 1];
      forall i, j | 0 <= i < |a| && 0 <= j < |b| && Number(a[i], oldSide) > 0 && Number(b[j], oldSide) > 0
        ensures Number(a[i], oldSide) < Number(b[j], oldSide)
      {
        assert starts[k - 1] <= Number(b[j], oldSide) < starts[k - 1] + counts[k - 1];
      }
      NumberedAppend(a, b, oldSide);
      BelowLaterStep(a, b, starts, counts, k, oldSide);
    }
  }

  lemma HunksNumbered(hunks: seq<Hunk>, oldSide: bool)
    requires Increasing(hunks, oldSide)
    ensures SideNumbered(HunkLines(hunks), oldSide)
  {
    var pieces := LinePieces(hunks);
    var starts := seq(|hunks|, i requires 0 <= i < |hunks| => SideStart(hunks[i], oldSide) as int);
    var counts :=
      seq(|hunks|, i requires 0 <= i < |hunks| => SideCount(hunks[i].items, |hunks[i].items|, oldSide) as int);
    forall i | 0 <= i < |pieces|
      ensures SideNumbered(pieces[i], oldSide) && Within(pieces[i], oldSide, starts[i], starts[i] + counts[i])
    {
      OneHunkNumbered(hunks[i], oldSide);
    }
    StretchesNumbered(pieces, starts, counts, |hunks|, oldSide);
  }

  lemma UnnumberedFirst(a: seq<PatchLine>, b: seq<PatchLine>, oldSide: bool)
    requires All(Unnumbered, a) && SideNumbered(b, oldSide)
    ensures SideNumbered(a + b, oldSide)
  {
    assert forall i :: 0 <= i < |a| ==> Unnumbered(a[i]);
    NumberedAppend(a, b, oldSide);
  }

  lemma FileNumbered(f: FilePatch, oldSide: bool)
    requires Increasing(f.hunks, oldSide)
    ensures SideNumbered(FileOf(f).lines, oldSide)
  {
    HunksNumbered(f.hunks, oldSide);
    ExtrasAreUnnumbered(f.extra, |f.extra|);
    UnnumberedFirst(ExtraLines(f.extra, |f.extra|), HunkLines(f.hunks), oldSide);
  }

  lemma FinishedNumbered(f: PatchFile, score: Pairing.Score, oldSide: bool)
    requires SideNumbered(f.lines, oldSide)
    ensures SideNumbered(Finished(f, score).lines, oldSide)
  {
    var now, shift := Finished(f, score).lines, Shift(f);
    if |f.lines| + shift > 0 { FinishedLine(f, score, 0); }
    forall i | 0 <= i < |now|
      ensures NumberFits(now[i], oldSide)
      ensures i < shift ==> Number(now[i], oldSide) == 0
      ensures i >= shift ==> Number(now[i], oldSide) == Number(f.lines[i - shift], oldSide)
    {
      FinishedLine(f, score, i);
      if i >= shift {
        assert now[i].(pairContent := "").kind == now[i].kind;
        assert NumberFits(f.lines[i - shift], oldSide);
      }
    }
  }

  lemma BothSidesNumbered(lines: seq<PatchLine>)
    requires SideNumbered(lines, true) && SideNumbered(lines, false)
    ensures WellNumbered(lines)
  {
    assert forall i :: 0 <= i < |lines| ==> NumberFits(lines[i], true) && NumberFits(lines[i], false);
    assert forall i ::
             0 <= i < |lines| ==>
               lines[i].oldLine == Number(lines[i], true) && lines[i].newLine == Number(lines[i], false);
  }

  /** A patch whose hunks increase is numbered as the comment round trip needs. */
  lemma IncreasingPatchIsWellNumbered(f: FilePatch, score: Pairing.Score)
    requires Increasing(f.hunks, true) && Increasing(f.hunks, false)
    ensures WellNumbered(Finished(FileOf(f), score).lines)
  {
    FileNumbered(f, true);
    FileNumbered(f, false);
    FinishedNumbered(FileOf(f), score, true);
    FinishedNumbered(FileOf(f), score, false);
    BothSidesNumbered(Finished(FileOf(f), score).lines);
  }

  /** Dropping carriage returns moves no line. */
  lemma StrippedIncreasing(hunks: seq<Hunk>, oldSide: bool)
    requires Increasing(hunks, oldSide)
    ensures Increasing(Mapped(StripHunk, hunks), oldSide)
  {
    var stripped := Mapped(StripHunk, hunks);
    forall i | 0 <= i < |hunks|
      ensures SideStart(stripped[i], oldSide) == SideStart(hunks[i], oldSide)
      ensures SideCount(stripped[i].items, |stripped[i].items|, oldSide) ==
                SideCount(hunks[i].items, |hunks[i].items|, oldSide)
    {
      SameCounts(hunks[i].items, |hunks[i].items|);
    }
  }

  lemma FinishedAt(files: seq<FilePatch>, parsed: seq<PatchFile>, score: Pairing.Score, k: nat)
    requires parsed == FilesOf(Stripped(files)) && k < |files|
    ensures FinishedAll(parsed, score)[k] == Finished(FileOf(StripFile(files[k])), score)
  {
  }

  /**
   From the printed patch to the comment and back: read a patch whose hunks increase, carriage returns or not, comment
   on a selection, and the comment covers that selection and is shown once, inside it.
   */
  lemma CommentOnParsedPatch(files: seq<FilePatch>, shell: ShellWords, parsed: seq<PatchFile>, score: Pairing.Score,
                             k: nat,
                             item: FileItem, a: Annotation, from: int, to: int)
    requires (forall i :: 0 <= i < |files| ==> ValidFile(StripFile(files[i]), shell)) && k < |files|
    requires Increasing(files[k].hunks, true) && Increasing(files[k].hunks, false)
    requires parsed == ParsedFiles(PrintPatch(files), shell)
    requires k < |parsed| && item.patch == Some(FinishedAll(parsed, score)[k])
    requires MadeFrom(a, Source(Some(item), DiffView), from, to) && Source(Some(item), DiffView).Commentable(from)
    ensures CoversSelection(Source(Some(item), DiffView), a, from, to) &&
            ShownOnce(Source(Some(item), DiffView), a, from, to)
  {
    PatchRoundTrip(files, shell);
    FinishedAt(files, parsed, score, k);
    StrippedIncreasing(files[k].hunks, true);
    StrippedIncreasing(files[k].hunks, false);
    IncreasingPatchIsWellNumbered(StripFile(files[k]), score);
    CommentRoundTrip(Source(Some(item), DiffView), a, from, to);
  }

  /** The anchor of a comment on new lines carries the last of its new line numbers. */
  lemma AnchorNumber(s: Source, a: Annotation, from: int, to: int)
    requires s.presentation.DiffView? && WellNumbered(s.PatchLinesOf()) && MadeFrom(a, s, from, to) &&
             s.Commentable(from)
    requires a.newLines != NO_LINES
    ensures s.AnchorOf(a).Some? && s.AnchorOf(a).value < |s.PatchLinesOf()|
    ensures 0 < a.newLines.last == s.PatchLinesOf()[s.AnchorOf(a).value].newLine
  {
    var at := DiffCommentAnchor(s, a, from, to);
    var p, q := SideRangeCovers(s.PatchLinesOf(), from, to + 1, false);
    assert s.ShownAfter(at, a);
  }

  lemma SameTextInFileView(item: FileItem, a: Annotation, from: int, to: int)
    requires item.patch.Some? && item.patch.value.newPath != "" && WellNumbered(item.patch.value.lines)
    requires forall i :: 0 <= i < |item.patch.value.lines| ==> Agrees(item.patch.value.lines[i], item.content, false)
    requires MadeFrom(a, Source(Some(item), DiffView), from, to) && Source(Some(item), DiffView).Commentable(from)
    requires a.newLines != NO_LINES
    ensures var diff, full := Source(Some(item), DiffView).AnchorOf(a), Source(Some(item), FileView).AnchorOf(a);
            full.Some? && diff.Some? && full.value < |item.content| && diff.value < |item.patch.value.lines| &&
            item.content[full.value] == item.patch.value.lines[diff.value].content
  {
    var diff := Source(Some(item), DiffView);
    assert diff.PatchLinesOf() == item.patch.value.lines;
    AnchorNumber(diff, a, from, to);
    assert Agrees(item.patch.value.lines[diff.AnchorOf(a).value], item.content, false);
  }

  /** A comment made in the diff on new lines is found in the complete file, on a line with the same text. */
  lemma DiffCommentInFileView(f: FilePatch, score: Pairing.Score, version: seq<string>, ended: bool,
                              item: FileItem, a: Annotation, from: int, to: int)
    requires Increasing(f.hunks, true) && Increasing(f.hunks, false) && Shows(version, ended)
    requires forall k :: 0 <= k < |f.hunks| ==> Describes(f.hunks[k], version, false)
    requires item.content == SplitFileLines(VersionText(version, ended))
    requires item.patch == Some(Finished(FileOf(StripFile(f)), score)) && item.patch.value.newPath != ""
    requires MadeFrom(a, Source(Some(item), DiffView), from, to) && Source(Some(item), DiffView).Commentable(from)
    requires a.newLines != NO_LINES
    ensures var diff, full := Source(Some(item), DiffView).AnchorOf(a), Source(Some(item), FileView).AnchorOf(a);
            full.Some? && diff.Some? && full.value < |item.content| && diff.value < |item.patch.value.lines| &&
            item.content[full.value] == item.patch.value.lines[diff.value].content
  {
    StrippedIncreasing(f.hunks, true);
    StrippedIncreasing(f.hunks, false);
    IncreasingPatchIsWellNumbered(StripFile(f), score);
    forall i | 0 <= i < |item.patch.value.lines|
      ensures Agrees(item.patch.value.lines[i], item.content, false)
    {
      DiffAgreesWithFileView(f, score, version, ended, false, i);
    }
    SameTextInFileView(item, a, from, to);
  }
}
