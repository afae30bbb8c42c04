/**
 Carriage returns in a patch: the parser drops them before reading (internal/ui/annotation/patch.go), so a patch of a
 file with CRLF line ends is read as the patch of the same file without them.
 */
module PatchReturns {
  import opened Text
  import opened PatchLines
  import opened PatchParser
  import Pairing

  // strings.ReplaceAll(s, "\r", "")
  function Strip(s: string): string { Without(s, '\r') }

  function StripItem(i: Item): Item {
    match i
    case Keep(t) => Keep(Strip(t))
    case Delete(t) => Delete(Strip(t))
    case Insert(t) => Insert(Strip(t))
    case NoNewline => NoNewline
  }

  function StripHunk(h: Hunk): Hunk { Hunk(h.oldStart, h.newStart, Strip(h.section), Mapped(StripItem, h.items)) }

  function StripPath(p: Option<string>): Option<string> { if p.Some? then Some(Strip(p.value)) else None }

  function StripPaths(p: Paths): Paths {
    match p
    case Markers(o, n) => Markers(StripPath(o), StripPath(n))
    case Rename(source, target) => Rename(Strip(source), Strip(target))
    case InHeader(source, target) => InHeader(Strip(source), Strip(target))
  }

  /** The same patch of the same file, without carriage returns. */
  function StripFile(f: FilePatch): FilePatch {
    FilePatch(Strip(f.header), Mapped(Strip, f.extra), StripPaths(f.paths), Mapped(StripHunk, f.hunks))
  }

  function Stripped(files: seq<FilePatch>): seq<FilePatch> { Mapped(StripFile, files) }

  // ---------- stripping commutes with printing ----------

  lemma StripAfter(p: string, rest: string)
    requires '\r' !in p
    ensures Strip(p + rest) == p + Strip(rest)
  {
    WithoutAppend(p, rest, '\r');
    WithoutAbsent(p, '\r');
  }

  lemma {:induction false} StripJoin(lines: seq<string>)
    ensures Strip(JoinLines(lines)) == JoinLines(Mapped(Strip, lines))
  {
    if lines != [] {
      StripJoin(lines[1..]);
      WithoutAppend(lines[0] + "\n", JoinLines(lines[1..]), '\r');
      WithoutAppend(lines[0], "\n", '\r');
      WithoutAbsent("\n", '\r');
      assert Mapped(Strip, lines)[1..] == Mapped(Strip, lines[1..]);
    }
  }

  lemma {:induction false} SameCounts(items: seq<Item>, k: nat)
    requires k <= |items|
    ensures OldCount(Mapped(StripItem, items), k) == OldCount(items, k) &&
            NewCount(Mapped(StripItem, items), k) == NewCount(items, k)
  {
    if k > 0 { SameCounts(items, k - 1); }
  }

  lemma StripRaw(i: Item)
    ensures Strip(i.Raw()) == StripItem(i).Raw()
  {
    match i
    case Keep(t) => StripAfter(" ", t);
    case Delete(t) => StripAfter("-", t);
    case Insert(t) => StripAfter("+", t);
    case NoNewline => WithoutAbsent(NO_NEWLINE, '\r');
  }

  lemma StripNextItem(items: seq<Item>, stripped: seq<Item>, k: nat)
    requires k < |items| && stripped == Mapped(StripItem, items)
    requires Mapped(Strip, ItemTexts(items, k)) == ItemTexts(stripped, k)
    ensures Mapped(Strip, ItemTexts(items, k + 1)) == ItemTexts(stripped, k + 1)
  {
    StripRaw(items[k]);
    MappedSnoc(Strip, ItemTexts(items, k), items[k].Raw());
  }

  lemma {:induction false} StripItemTexts(items: seq<Item>, stripped: seq<Item>, k: nat)
    requires k <= |items| && stripped == Mapped(StripItem, items)
    ensures Mapped(Strip, ItemTexts(items, k)) == ItemTexts(stripped, k)
  {
    if k == 0 {
      MappedNone(Strip, ItemTexts(items, 0), ItemTexts(stripped, 0));
    } else {
      StripItemTexts(items, stripped, k - 1);
      StripNextItem(items, stripped, k - 1);
    }
  }

  lemma StripHeader(a: string, b: string, section: string)
    requires '\r' !in a && '\r' !in b
    ensures Strip("@@" + (" " + (("-" + a) + (" " + (("+" + b) + (" " + ("@@" + section))))))) ==
            "@@" + (" " + (("-" + a) + (" " + (("+" + b) + (" " + ("@@" + Strip(section)))))))
  {
    StripAfter("@@", section);
    StripAfter(" ", "@@" + section);
    StripAfter("+" + b, " " + ("@@" + section));
    StripAfter(" ", ("+" + b) + (" " + ("@@" + section)));
    StripAfter("-" + a, " " + (("+" + b) + (" " + ("@@" + section))));
    StripAfter(" ", ("-" + a) + (" " + (("+" + b) + (" " + ("@@" + section)))));
    StripAfter("@@", " " + (("-" + a) + (" " + (("+" + b) + (" " + ("@@" + section))))));
  }

  lemma StripHunkText(h: Hunk)
    ensures Strip(HunkText(h)) == HunkText(StripHunk(h))
  {
    var o, n := OldCount(h.items, |h.items|), NewCount(h.items, |h.items|);
    SameCounts(h.items, |h.items|);
    RangeIsOneLine(h.oldStart, o);
    RangeIsOneLine(h.newStart, n);
    StripHeader(RangeText(h.oldStart, o), RangeText(h.newStart, n), h.section);
  }

  lemma StripOneHunk(h: Hunk)
    ensures Mapped(Strip, OneHunk(h)) == OneHunk(StripHunk(h))
  {
    StripHunkText(h);
    StripItemTexts(h.items, Mapped(StripItem, h.items), |h.items|);
    MappedSnoc(Strip, ItemTexts(h.items, |h.items|), HunkText(h));
  }

  lemma StripHunkTexts(hunks: seq<Hunk>)
    ensures Mapped(Strip, HunkTexts(hunks)) == HunkTexts(Mapped(StripHunk, hunks))
  {
    var stripped := HunkPieces(Mapped(StripHunk, hunks));
    forall i | 0 <= i < |hunks| ensures stripped[i] == Mapped(Strip, HunkPieces(hunks)[i]) { StripOneHunk(hunks[i]); }
    MappedFlat(Strip, HunkPieces(hunks), stripped, |hunks|);
  }

  lemma StripMarker(keyword: string, prefix: string, p: Option<string>)
    requires '\r' !in keyword && '\r' !in prefix
    ensures Strip(keyword + MarkerText(prefix, p)) == keyword + MarkerText(prefix, StripPath(p))
  {
    StripAfter(keyword, MarkerText(prefix, p));
    if p.Some? {
      var end := if ' ' in p.value then "\t" else "";
      WithoutAppend(prefix + p.value, end, '\r');
      WithoutAbsent(end, '\r');
      StripAfter(prefix, p.value);
      WithoutMembers(p.value, '\r', ' ');
    } else {
      WithoutAbsent("/dev/null", '\r');
    }
  }

  lemma StripPathTexts(p: Paths)
    ensures Mapped(Strip, PathTexts(p)) == PathTexts(StripPaths(p))
  {
    match p
    case Markers(o, n) =>
      StripMarker("--- ", "a/", o);
      StripMarker("+++ ", "b/", n);
    case Rename(source, target) =>
      StripAfter("rename from ", source);
      StripAfter("rename to ", target);
    case InHeader(_, _) =>
  }

  lemma StripFileTexts(f: FilePatch)
    ensures Mapped(Strip, FileTexts(f)) == FileTexts(StripFile(f))
  {
    StripAfter("diff --git ", f.header);
    StripPathTexts(f.paths);
    StripHunkTexts(f.hunks);
    MappedFour(Strip, OpeningText(f), f.extra, PathTexts(f.paths), HunkTexts(f.hunks));
  }

  /** Printing and then dropping the carriage returns is printing the patch without them. */
  lemma StripPrinted(files: seq<FilePatch>)
    ensures Strip(PrintPatch(files)) == PrintPatch(Stripped(files))
  {
    var texts, stripped := PatchTexts(files), PatchTexts(Stripped(files));
    forall i | 0 <= i < |files| ensures stripped[i] == Mapped(Strip, texts[i]) { StripFileTexts(files[i]); }
    MappedFlat(Strip, texts, stripped, |files|);
    StripJoin(Flat(texts, |files|));
  }

  // ---------- the round trip, carriage returns and all ----------

  lemma ReadsStripped(content: string, shell: ShellWords)
    ensures ParsedFiles(content, shell) == ParsedFiles(Strip(content), shell)
  {
    WithoutMembers(content, '\r', '\r');
    WithoutAbsent(Strip(content), '\r');
  }

  /**
   Reading a printed patch gives its files back without carriage returns: paths, line kinds, texts and line numbers.
   */
  lemma PatchRoundTrip(files: seq<FilePatch>, shell: ShellWords)
    requires forall i :: 0 <= i < |files| ==> ValidFile(StripFile(files[i]), shell)
    ensures ParsedFiles(PrintPatch(files), shell) == FilesOf(Stripped(files))
  {
    ReadsStripped(PrintPatch(files), shell);
    StripPrinted(files);
    CleanPatchRoundTrip(Stripped(files), shell);
  }

  /** A line comes back with its own number, and with its own text exactly when that holds no carriage return. */
  lemma LineComesBackIff(h: Hunk, k: nat)
    requires k < |h.items| && !h.items[k].NoNewline?
    ensures ItemLine(StripHunk(h), k).oldLine == ItemLine(h, k).oldLine &&
            ItemLine(StripHunk(h), k).newLine == ItemLine(h, k).newLine
    ensures ItemLine(StripHunk(h), k).content == h.items[k].text <==> '\r' !in h.items[k].text
  {
    SameCounts(h.items, k);
    WithoutMembers(h.items[k].text, '\r', '\r');
    if '\r' !in h.items[k].text { WithoutAbsent(h.items[k].text, '\r'); }
  }
  // ---------- which header lines are shown ----------

  function AsMetadata(raw: string): PatchLine { PatchLine(Metadata, raw, raw, 0, 0, "") }

  /** A line of the extended header is shown unless it is empty or says what the view shows elsewhere. */
  function HeaderIsShown(): string -> bool {
    (raw: string) => raw != "" && !("index " <= raw) && !("rename from " <= raw) && !("rename to " <= raw)
  }

  lemma {:induction false} ShownExtras(extra: seq<string>, k: nat)
    requires k <= |extra|
    ensures ExtraLines(extra, k) == Mapped(AsMetadata, Filter(HeaderIsShown(), extra[..k]))
  {
    if k > 0 {
      ShownExtras(extra, k - 1);
      FilterSnoc(HeaderIsShown(), extra, k - 1);
      if HeaderIsShown()(extra[k - 1]) {
        MappedSnoc(AsMetadata, Filter(HeaderIsShown(), extra[..k - 1]), extra[k - 1]);
      } else {
        Empties(Filter(HeaderIsShown(), extra[..k - 1]));
        Empties(ExtraLines(extra, k - 1));
      }
    }
  }

  /** A file read from a printed patch shows just these header lines, in order, and then its hunks. */
  lemma HeaderLinesShown(files: seq<FilePatch>, shell: ShellWords, parsed: seq<PatchFile>, k: nat)
    requires (forall i :: 0 <= i < |files| ==> ValidFile(StripFile(files[i]), shell)) && k < |files|
    requires parsed == ParsedFiles(PrintPatch(files), shell)
    ensures |parsed| == |files|
    ensures parsed[k].lines ==
              Mapped(AsMetadata, Filter(HeaderIsShown(), Mapped(Strip, files[k].extra))) +
                HunkLines(StripFile(files[k]).hunks)
  {
    PatchRoundTrip(files, shell);
    var extra := StripFile(files[k]).extra;
    ShownExtras(extra, |extra|);
    Empties(extra);
  }

  /** Of the header of a new empty file the mode is shown and the index line is not. */
  lemma NewFileShowsMode(extra: seq<string>)
    requires extra == ["new file mode 100644", "index 0000000..e69de29"]
    ensures ExtraLines(extra, 2) == [AsMetadata(extra[0])]
  {
    assert extra[0][0] == 'n' && "index " <= extra[1];
    assert ExtraLines(extra, 1) == ExtraLines(extra, 0) + [AsMetadata(extra[0])];
  }

  /** A file under two names begins with a line naming both; nothing else is put in front. */
  lemma SummaryNamesBoth(f: PatchFile, score: Pairing.Score)
    requires f.oldPath != "" && f.newPath != "" && f.oldPath != f.newPath
    ensures |Finished(f, score).lines| == |f.lines| + 1
    ensures Finished(f, score).lines[0].(pairContent := "") == AsMetadata(f.oldPath + " -> " + f.newPath)
    ensures forall i :: 0 <= i < |f.lines| ==>
              Finished(f, score).lines[i + 1].(pairContent := "") == f.lines[i].(pairContent := "")
  {
  }
  /** Inside a hunk a line that is no body line ends it, and is shown under the same condition. */
  lemma OtherLineEndsHunk(r: Reader, raw: string, d: Decoders)
    requires r.current.Some? && r.inHunk && raw != "" && raw[0] !in " -+" && raw != "\\ No newline at end of file"
    requires d.hunk(raw).None? && !("diff --git " <= raw)
    ensures Step(r, raw, d).current.Some? && !Step(r, raw, d).inHunk
    ensures Step(r, raw, d).current.value.lines ==
              r.current.value.lines + if HeaderIsShown()(raw) then [AsMetadata(raw)] else []
  {
    Empties(r.current.value.lines);
    assert raw[0] != ' ' && raw[0] != '-' && raw[0] != '+';
  }
  /** Without carriage returns a file has the same paths without them. */
  lemma StripPathsMeans(p: Paths)
    ensures OldPath(StripPaths(p)) == Strip(OldPath(p)) && NewPath(StripPaths(p)) == Strip(NewPath(p))
  {
  }
}
