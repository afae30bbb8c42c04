/**
 The git patch reader (internal/ui/annotation/patch.go, parseGitPatch) and its partner, a printer of
 structured patches in unified format.  `shell` stands for the quoted-word splitter of go-shellwords.
 */
module PatchParser {
  import opened Text
  import opened PatchLines
  import Pairing

  type ShellWords = string -> Option<seq<string>>

  // ---------- headers ----------

  function TrimPrefix(s: string, prefix: string): string {
    if prefix <= s then s[|prefix|..] else s
  }

  function ParseMarkerPath(path: string, prefix: string, shell: ShellWords): string {
    var path := if path != "" && path[|path| - 1] == '\t' then path[..|path| - 1] else path;
    if path == "/dev/null" then ""
    else if !("\"" <= path) then TrimPrefix(path, prefix)
    else
      var fields := shell(path);
      TrimPrefix(if fields.Some? && |fields.value| > 0 then fields.value[0] else path, prefix)
  }

  const SEPARATOR := " b/"

  /** `s` is the same path twice, joined by the separator before the second. */
  predicate IsTwice(s: string, p: string) { s == p + SEPARATOR + p }

  /** The path of an unquoted header that repeats one path; the length leaves one candidate. */
  function RepeatedPath(s: string): (p: Option<string>)
    ensures p.Some? ==> IsTwice(s, p.value)
    ensures p.None? ==> forall q :: !IsTwice(s, q)
  {
    var n := (|s| - 3) / 2;
    if 0 <= n <= |s| && IsTwice(s, s[..n]) then Some(s[..n])
    else
      assert forall q :: IsTwice(s, q) ==> |q| == n && q == s[..n];
      None
  }

  lemma TwiceAt(s: string, i: nat)
    requires i + 3 <= |s|
    ensures IsTwice(s, s[..i]) <==> s[i..i + 3] == SEPARATOR && s[..i] == s[i + 3..]
  {
    if s[i..i + 3] == SEPARATOR && s[..i] == s[i + 3..] {
      Cut(s, i);
      Cut(s[i..], 3);
      Regroup(s[..i], SEPARATOR, s[..i]);
    }
    if IsTwice(s, s[..i]) {
      var p := s[..i];
      assert (p + SEPARATOR + p)[i..i + 3] == SEPARATOR && (p + SEPARATOR + p)[i + 3..] == p;
    }
  }

  lemma TwiceIsUnique(s: string, p: string)
    requires IsTwice(s, p)
    ensures |s| == 2 * |p| + 3 && p == s[..|p|]
  {
  }

  /** The scan for a separator with equal text on both sides (strings.Index inlined). */
  method ScanRepeatedPath(s: string) returns (p: Option<string>)
    ensures p == RepeatedPath(s)
  {
    var want := RepeatedPath(s);
    if want.Some? { TwiceIsUnique(s, want.value); }
    var index := 0;
    while index + 3 <= |s|
      invariant 0 <= index <= |s|
      invariant want.Some? ==> index <= |want.value|
    {
      TwiceAt(s, index);
      if s[index..index + 3] == SEPARATOR && s[..index] == s[index + 3..] {
        TwiceIsUnique(s, s[..index]);
        return Some(s[..index]);
      }
      index := index + 1;
    }
    return None;
  }

  function ParseDiffHeader(line: string, shell: ShellWords): (string, string) {
    var header := TrimPrefix(line, "diff --git ");
    var fields := shell(header);
    if fields.Some? && |fields.value| == 2 then
      (TrimPrefix(fields.value[0], "a/"), TrimPrefix(fields.value[1], "b/"))
    else
      match RepeatedPath(TrimPrefix(header, "a/"))
      case Some(p) => (p, p)
      case None => ("", "")
  }

  predicate ShouldShowMetadata(line: string) {
    !(line == "" || "index " <= line || "rename from " <= line || "rename to " <= line)
  }

  function ParseRangeStart(field: string, sign: char): Option<int> {
    if field == "" || field[0] != sign then None else Atoi(SplitOn(field[1..], ',')[0])
  }

  function ParseHunkHeader(line: string): Option<(int, int)> {
    if !("@@" <= line) then None
    else
      var fields := Fields(line);
      if |fields| < 3 then None
      else
        var o, n := ParseRangeStart(fields[1], '-'), ParseRangeStart(fields[2], '+');
        if o.Some? && n.Some? then Some((o.value, n.value)) else None
  }

  // ---------- the line-by-line reader ----------

  // How the three kinds of header line are decoded.
  datatype Decoders = Decoders(paths: string -> (string, string), marker: (string, string) -> string,
                               hunk: string -> Option<(int, int)>)

  function GitDecoders(shell: ShellWords): Decoders {
    Decoders(line => ParseDiffHeader(line, shell), (path, prefix) => ParseMarkerPath(path, prefix, shell),
             ParseHunkHeader)
  }

  // `current` is the file being read; the source keeps it as the last of its files.
  datatype Reader = Reader(done: seq<PatchFile>, current: Option<PatchFile>, oldLine: int, newLine: int, inHunk: bool)
  {
    function Files(): seq<PatchFile> { done + if current.Some? then [current.value] else [] }
    function WithOldPath(p: string): Reader requires current.Some? {
      this.(current := Some(current.value.(oldPath := p)))
    }
    function WithNewPath(p: string): Reader requires current.Some? {
      this.(current := Some(current.value.(newPath := p)))
    }
    function WithLine(l: PatchLine): Reader requires current.Some? {
      this.(current := Some(current.value.(lines := current.value.lines + [l])))
    }
  }

  const START := Reader([], None, 0, 0, false)

  function Plain(kind: Kind, raw: string): PatchLine { PatchLine(kind, raw, raw, 0, 0, "") }

  /** One line of the patch. */
  function Step(r: Reader, raw: string, d: Decoders): Reader {
    if "diff --git " <= raw then
      var (o, n) := d.paths(raw);
      Reader(r.Files(), Some(PatchFile(o, n, [])), r.oldLine, r.newLine, false)
    else if r.current.None? then r
    else if !r.inHunk then StepHeader(r, raw, d)
    else StepHunk(r, raw, d)
  }

  function StepHeader(r: Reader, raw: string, d: Decoders): Reader
    requires r.current.Some?
  {
    if "--- " <= raw then r.WithOldPath(d.marker(raw[4..], "a/"))
    else if "+++ " <= raw then r.WithNewPath(d.marker(raw[4..], "b/"))
    else if "rename from " <= raw then r.WithOldPath(d.marker(raw[12..], ""))
    else if "rename to " <= raw then r.WithNewPath(d.marker(raw[10..], ""))
    else
      var r := if "new file mode " <= raw then r.WithOldPath("")
               else if "deleted file mode " <= raw then r.WithNewPath("") else r;
      match d.hunk(raw)
      case Some((o, n)) => r.WithLine(Plain(HunkHeader, raw)).(oldLine := o, newLine := n, inHunk := true)
      case None => if ShouldShowMetadata(raw) then r.WithLine(Plain(Metadata, raw)) else r
  }

  const NO_NEWLINE := "\\ No newline at end of file"

  function StepHunk(r: Reader, raw: string, d: Decoders): Reader
    requires r.current.Some?
  {
    match d.hunk(raw)
    case Some((o, n)) => r.WithLine(Plain(HunkHeader, raw)).(oldLine := o, newLine := n)
    case None =>
      if raw == NO_NEWLINE then r.WithLine(Plain(Metadata, raw))
      else if raw == "" then r
      else if raw[0] == ' ' then
        r.WithLine(PatchLine(Context, raw, raw[1..], r.oldLine, r.newLine, ""))
        .(oldLine := r.oldLine + 1, newLine := r.newLine + 1)
      else if raw[0] == '-' then
        r.WithLine(PatchLine(Removed, raw, raw[1..], r.oldLine, 0, "")).(oldLine := r.oldLine + 1)
      else if raw[0] == '+' then
        r.WithLine(PatchLine(Added, raw, raw[1..], 0, r.newLine, "")).(newLine := r.newLine + 1)
      else
        var r := r.(inHunk := false);
        if ShouldShowMetadata(raw) then r.WithLine(Plain(Metadata, raw)) else r
  }

  type Machine = (Reader, string) -> Reader

  function StepOf(d: Decoders): Machine { (r, raw) => Step(r, raw, d) }

  /** A renamed file starts with a line naming both paths. */
  function WithSummary(f: PatchFile): PatchFile {
    if f.oldPath != "" && f.newPath != "" && f.oldPath != f.newPath
    then f.(lines := [Plain(Metadata, f.oldPath + " -> " + f.newPath)] + f.lines)
    else f
  }

  ghost function Finished(f: PatchFile, score: Pairing.Score): PatchFile {
    var g := WithSummary(f);
    g.(lines := Pairing.PairedLines(g.lines, score))
  }

  ghost function FinishedAll(fs: seq<PatchFile>, score: Pairing.Score): seq<PatchFile> {
    seq(|fs|, i requires 0 <= i < |fs| => Finished(fs[i], score))
  }

  ghost function ParsedFiles(content: string, shell: ShellWords): seq<PatchFile> {
    Fold(StepOf(GitDecoders(shell)), START, SplitOn(Without(content, '\r'), '\n')).Files()
  }

  method ParseGitPatch(content: string, shell: ShellWords, score: Pairing.Score) returns (files: seq<PatchFile>)
    requires Pairing.Symmetric(score)
    ensures files == FinishedAll(ParsedFiles(content, shell), score)
  {
    var read := ReadLines(SplitOn(Without(content, '\r'), '\n'), shell);
    files := FinishFiles(read, score);
  }

  method FinishFiles(read: seq<PatchFile>, score: Pairing.Score) returns (files: seq<PatchFile>)
    requires Pairing.Symmetric(score)
    ensures files == FinishedAll(read, score)
  {
    files := [];
    ghost var want := FinishedAll(read, score);
    for i := 0 to |read|
      invariant files == want[..i]
    {
      var f := FinishFile(read[i], score);
      TakeSnoc(want, i);
      files := files + [f];
    }
    Empties(want);
  }

  method ReadLines(lines: seq<string>, shell: ShellWords) returns (files: seq<PatchFile>)
    ensures files == Fold(StepOf(GitDecoders(shell)), START, lines).Files()
  {
    var step := StepOf(GitDecoders(shell));
    var r := START;
    for i := 0 to |lines|
      invariant r == Fold(step, START, lines[..i])
    {
      FoldSnoc(step, START, lines[..i], lines[i]);
      TakeSnoc(lines, i);
      r := step(r, lines[i]);
    }
    Empties(lines);
    files := r.Files();
  }

  method FinishFile(read: PatchFile, score: Pairing.Score) returns (f: PatchFile)
    requires Pairing.Symmetric(score)
    ensures f == Finished(read, score)
  {
    f := WithSummary(read);
    var buffer := new PatchLine[|f.lines|](k requires 0 <= k < |f.lines| => f.lines[k]);
    assert buffer[..] == f.lines;
    Pairing.PairChangedBlocks(buffer, score);
    f := f.(lines := buffer[..]);
  }

  // ---------- structured patches ----------

  datatype Item = Keep(text: string) | Delete(text: string) | Insert(text: string) | NoNewline
  {
    predicate OldSide() { Keep? || Delete? }
    predicate NewSide() { Keep? || Insert? }
    function Raw(): string {
      match this
      case Keep(t) => " " + t
      case Delete(t) => "-" + t
      case Insert(t) => "+" + t
      case NoNewline => NO_NEWLINE
    }
  }

  datatype Hunk = Hunk(oldStart: nat, newStart: nat, section: string, items: seq<Item>)

  // Where a file's paths are stated: by the ---/+++ markers, by rename lines when no text changed, or by the opening
  // line alone, as for a mode change, a copy or an empty file.
  datatype Paths =
    | Markers(oldSide: Option<string>, newSide: Option<string>)
    | Rename(source: string, target: string)
    | InHeader(source: string, target: string)

  datatype FilePatch = FilePatch(header: string, extra: seq<string>, paths: Paths, hunks: seq<Hunk>)

  /** The number of old-side (new-side) lines among the first `k` items. */
  function OldCount(items: seq<Item>, k: nat): nat
    requires k <= |items|
  {
    if k == 0 then 0 else OldCount(items, k - 1) + if items[k - 1].OldSide() then 1 else 0
  }

  function NewCount(items: seq<Item>, k: nat): nat
    requires k <= |items|
  {
    if k == 0 then 0 else NewCount(items, k - 1) + if items[k - 1].NewSide() then 1 else 0
  }

  // ---------- printing ----------

  // The count is omitted when it is 1.
  function RangeText(start: nat, count: nat): string {
    if count == 1 then Itoa(start) else Itoa(start) + "," + Itoa(count)
  }

  function HunkText(h: Hunk): string {
    "@@" + (" " + (("-" + RangeText(h.oldStart, OldCount(h.items, |h.items|))) +
                   (" " + (("+" + RangeText(h.newStart, NewCount(h.items, |h.items|))) + (" " + ("@@" + h.section))))))
  }

  function ItemTexts(items: seq<Item>, k: nat): seq<string>
    requires k <= |items|
  {
    if k == 0 then [] else ItemTexts(items, k - 1) + [items[k - 1].Raw()]
  }

  function OneHunk(h: Hunk): seq<string> { [HunkText(h)] + ItemTexts(h.items, |h.items|) }

  function HunkPieces(hunks: seq<Hunk>): (pieces: seq<seq<string>>)
    ensures |pieces| == |hunks| && forall i :: 0 <= i < |hunks| ==> pieces[i] == OneHunk(hunks[i])
  {
    seq(|hunks|, i requires 0 <= i < |hunks| => OneHunk(hunks[i]))
  }

  function HunkTexts(hunks: seq<Hunk>): seq<string> { Flat(HunkPieces(hunks), |hunks|) }

  // A tab ends a marker path that holds a blank.
  function MarkerText(prefix: string, p: Option<string>): string {
    match p
    case None => "/dev/null"
    case Some(path) => prefix + path + if ' ' in path then "\t" else ""
  }

  function PathTexts(p: Paths): seq<string> {
    match p
    case Markers(o, n) => ["--- " + MarkerText("a/", o), "+++ " + MarkerText("b/", n)]
    case Rename(source, target) => ["rename from " + source, "rename to " + target]
    case InHeader(_, _) => []
  }

  function OpeningText(f: FilePatch): string { "diff --git " + f.header }

  function FileTexts(f: FilePatch): seq<string> {
    [OpeningText(f)] + f.extra + PathTexts(f.paths) + HunkTexts(f.hunks)
  }

  function PatchTexts(files: seq<FilePatch>): seq<seq<string>> {
    seq(|files|, i requires 0 <= i < |files| => FileTexts(files[i]))
  }

  function PrintPatch(files: seq<FilePatch>): string { JoinLines(Flat(PatchTexts(files), |files|)) }

  // ---------- which patches can be printed ----------

  predicate OneLine(s: string) { '\n' !in s && '\r' !in s }

  predicate ValidItem(i: Item) { i.NoNewline? || OneLine(i.text) }

  predicate ValidHunk(h: Hunk) {
    h.oldStart <= MAX_INT && h.newStart <= MAX_INT && OneLine(h.section) &&
    (h.section == "" || h.section[0] == ' ') && forall i :: 0 <= i < |h.items| ==> ValidItem(h.items[i])
  }

  predicate ValidPath(p: string) { p != "" && OneLine(p) && p[|p| - 1] != '\t' }

  predicate ValidPaths(p: Paths) {
    match p
    case Markers(o, n) => (o.Some? ==> ValidPath(o.value)) && (n.Some? ==> ValidPath(n.value))
    case Rename(source, target) =>
      ValidPath(source) && ValidPath(target) && source[0] != '"' && target[0] != '"' &&
      source != "/dev/null" && target != "/dev/null"
    case InHeader(_, _) => true
  }

  /**
   The words of the header are the two paths; or it repeats one path and is not two words, as with a blank in the path.
   */
  predicate HeaderStates(header: string, source: string, target: string, shell: ShellWords) {
    shell(header) == Some(["a/" + source, "b/" + target]) ||
    (header == "a/" + (source + SEPARATOR + source) && source == target &&
     !(shell(header).Some? && |shell(header).value| == 2))
  }

  predicate IsRename(line: string) { "rename from " <= line || "rename to " <= line }

  /** An extended header line: anything that is not itself a header, a marker or a hunk. */
  predicate ValidExtra(line: string) {
    OneLine(line) && !("diff --git " <= line) && !("--- " <= line) && !("+++ " <= line) && ParseHunkHeader(line).None?
  }

  predicate ValidFile(f: FilePatch, shell: ShellWords) {
    OneLine(f.header) && ValidPaths(f.paths) &&
    (f.paths.InHeader? ==> HeaderStates(f.header, f.paths.source, f.paths.target, shell) &&
                           forall i :: 0 <= i < |f.extra| ==> !IsRename(f.extra[i])) &&
    (forall i :: 0 <= i < |f.extra| ==> ValidExtra(f.extra[i])) &&
    (forall i :: 0 <= i < |f.hunks| ==> ValidHunk(f.hunks[i]))
  }

  // ---------- what reading them must give ----------

  /** Item `k` of a hunk, numbered by the hunk start plus the lines of its side before it. */
  function ItemLine(h: Hunk, k: nat): PatchLine
    requires k < |h.items|
  {
    var o, n := h.oldStart + OldCount(h.items, k), h.newStart + NewCount(h.items, k);
    match h.items[k]
    case Keep(t) => PatchLine(Context, " " + t, t, o, n, "")
    case Delete(t) => PatchLine(Removed, "-" + t, t, o, 0, "")
    case Insert(t) => PatchLine(Added, "+" + t, t, 0, n, "")
    case NoNewline => Plain(Metadata, NO_NEWLINE)
  }

  function ItemLines(h: Hunk, k: nat): seq<PatchLine>
    requires k <= |h.items|
  {
    if k == 0 then [] else ItemLines(h, k - 1) + [ItemLine(h, k - 1)]
  }

  function OneHunkLines(h: Hunk): seq<PatchLine> { [Plain(HunkHeader, HunkText(h))] + ItemLines(h, |h.items|) }

  function LinePieces(hunks: seq<Hunk>): (pieces: seq<seq<PatchLine>>)
    ensures |pieces| == |hunks| && forall i :: 0 <= i < |hunks| ==> pieces[i] == OneHunkLines(hunks[i])
  {
    seq(|hunks|, i requires 0 <= i < |hunks| => OneHunkLines(hunks[i]))
  }

  function HunkLines(hunks: seq<Hunk>): seq<PatchLine> { Flat(LinePieces(hunks), |hunks|) }

  function ExtraLines(extra: seq<string>, k: nat): seq<PatchLine>
    requires k <= |extra|
  {
    if k == 0 then []
    else ExtraLines(extra, k - 1) + if ShouldShowMetadata(extra[k - 1]) then [Plain(Metadata, extra[k - 1])] else []
  }

  function OldPath(p: Paths): string {
    match p
    case Markers(o, _) => if o.Some? then o.value else ""
    case Rename(source, _) => source
    case InHeader(source, _) => source
  }

  function NewPath(p: Paths): string {
    match p
    case Markers(_, n) => if n.Some? then n.value else ""
    case Rename(_, target) => target
    case InHeader(_, target) => target
  }

  const CREATED := "new file mode "
  const DELETED := "deleted file mode "

  /** One of the first `k` lines begins with the mode keyword. */
  predicate HasMode(extra: seq<string>, k: nat, mode: string)
    requires k <= |extra|
  {
    exists i :: 0 <= i < k && mode <= extra[i]
  }

  /**
   The old path of a file stated by its opening line is dropped by a mode line for a new file, the new one of a deleted
   one.
   */
  function StatedPath(f: FilePatch, path: string, mode: string): string {
    if f.paths.InHeader? && HasMode(f.extra, |f.extra|, mode) then "" else path
  }

  function FileOf(f: FilePatch): PatchFile {
    PatchFile(StatedPath(f, OldPath(f.paths), CREATED), StatedPath(f, NewPath(f.paths), DELETED),
              ExtraLines(f.extra, |f.extra|) + HunkLines(f.hunks))
  }

  function FilesOf(files: seq<FilePatch>): seq<PatchFile> {
    seq(|files|, i requires 0 <= i < |files| => FileOf(files[i]))
  }

  // ---------- the round trip ----------

  lemma RangeStartOf(sign: char, start: nat, count: nat)
    requires start <= MAX_INT
    ensures ParseRangeStart([sign] + RangeText(start, count), sign) == Some(start)
    ensures !IsSpace(sign) ==> NoSpace([sign] + RangeText(start, count))
  {
    var digits, text := Itoa(start), RangeText(start, count);
    assert ([sign] + text)[1..] == text;
    assert ',' !in digits;
    AtoiItoa(start);
    if count == 1 {
      SplitSingle(digits, ',');
    } else {
      SplitHead(digits, Itoa(count), ',');
      assert text == digits + [','] + Itoa(count);
    }
    forall i | 0 <= i < |text|
      ensures !IsSpace(text[i])
    {
      PrintableIsNotSpace(text[i]);
    }
  }

  lemma FieldsNext(w: string, rest: string)
    requires w != "" && NoSpace(w)
    ensures Fields(w + (" " + rest)) == [w] + Fields(rest)
  {
    BlankIsSpace();
    FieldsCons(w, " " + rest);
    FieldsBlank(rest);
  }

  lemma FieldsThree(a: string, b: string, c: string, rest: string)
    requires a != "" && NoSpace(a) && b != "" && NoSpace(b) && c != "" && NoSpace(c)
    ensures Fields(a + (" " + (b + (" " + (c + (" " + rest)))))) == [a, b, c] + Fields(rest)
  {
    FieldsNext(c, rest);
    FieldsNext(b, c + (" " + rest));
    FieldsNext(a, b + (" " + (c + (" " + rest))));
    ThreeHeads(a, b, c, Fields(rest));
  }

  lemma HeaderFrom(text: string, fields: seq<string>, o: int, n: int)
    requires "@@" <= text && Fields(text) == fields && |fields| >= 3
    requires ParseRangeStart(fields[1], '-') == Some(o) && ParseRangeStart(fields[2], '+') == Some(n)
    ensures ParseHunkHeader(text) == Some((o, n))
  {
  }

  lemma AtSigns()
    ensures NoSpace("@@")
  {
    PrintableIsNotSpace('@');
  }

  lemma HeaderFields(text: string, r1: string, r2: string, rest: string, fields: seq<string>)
    requires r1 != "" && NoSpace(r1) && r2 != "" && NoSpace(r2)
    requires text == "@@" + (" " + (r1 + (" " + (r2 + (" " + rest))))) && fields == ["@@", r1, r2] + Fields(rest)
    ensures "@@" <= text && Fields(text) == fields
  {
    AtSigns();
    FieldsThree("@@", r1, r2, rest);
  }

  lemma HeaderOf(r1: string, r2: string, rest: string, o: int, n: int)
    requires r1 != "" && NoSpace(r1) && r2 != "" && NoSpace(r2)
    requires ParseRangeStart(r1, '-') == Some(o) && ParseRangeStart(r2, '+') == Some(n)
    ensures ParseHunkHeader("@@" + (" " + (r1 + (" " + (r2 + (" " + rest)))))) == Some((o, n))
  {
    var text, fields := "@@" + (" " + (r1 + (" " + (r2 + (" " + rest))))), ["@@", r1, r2] + Fields(rest);
    HeaderFields(text, r1, r2, rest, fields);
    HeaderFrom(text, fields, o, n);
  }

  /** The starts printed in a hunk header are the ones read back, whatever the section text says. */
  lemma HunkHeaderRoundTrip(h: Hunk)
    requires ValidHunk(h)
    ensures ParseHunkHeader(HunkText(h)) == Some((h.oldStart, h.newStart))
  {
    var oc, nc := OldCount(h.items, |h.items|), NewCount(h.items, |h.items|);
    PrintableIsNotSpace('-');
    PrintableIsNotSpace('+');
    RangeStartOf('-', h.oldStart, oc);
    RangeStartOf('+', h.newStart, nc);
    HeaderOf("-" + RangeText(h.oldStart, oc), "+" + RangeText(h.newStart, nc), "@@" + h.section, h.oldStart,
             h.newStart);
  }

  // What a machine must do with each kind of line for the round trip to go through.

  ghost predicate ReadsHeader(step: Machine, h: Hunk) {
    forall r: Reader :: r.current.Some? ==>
      step(r, HunkText(h)) ==
      r.WithLine(Plain(HunkHeader, HunkText(h))).(oldLine := h.oldStart, newLine := h.newStart, inHunk := true)
  }

  /** The reader stands before item `k` of the hunk. */
  predicate Before(r: Reader, h: Hunk, k: nat)
    requires k <= |h.items|
  {
    r.current.Some? && r.inHunk && r.oldLine == h.oldStart + OldCount(h.items, k) &&
    r.newLine == h.newStart + NewCount(h.items, k)
  }

  ghost predicate ReadsItems(step: Machine, h: Hunk) {
    forall r: Reader, k {:trigger step(r, h.items[k].Raw())} :: 0 <= k < |h.items| && Before(r, h, k) ==>
      step(r, h.items[k].Raw()) == AfterItem(r, h, k)
  }

  ghost predicate ReadsHunk(step: Machine, h: Hunk) { ReadsHeader(step, h) && ReadsItems(step, h) }

  ghost predicate ReadsExtra(step: Machine, raw: string) {
    forall r: Reader {:trigger step(r, raw)} :: r.current.Some? && !r.inHunk ==>
      step(r, raw).done == r.done && !step(r, raw).inHunk && step(r, raw).current.Some? &&
      step(r, raw).current.value.lines ==
        r.current.value.lines + if ShouldShowMetadata(raw) then [Plain(Metadata, raw)] else []
  }

  /** A mode line drops a path, and no other extended header line touches the paths. */
  ghost predicate ReadsModes(step: Machine, raw: string) {
    forall r: Reader {:trigger step(r, raw)} :: r.current.Some? && !r.inHunk ==>
      step(r, raw).current.Some? &&
      step(r, raw).current.value.oldPath == (if CREATED <= raw then "" else r.current.value.oldPath) &&
      step(r, raw).current.value.newPath == (if DELETED <= raw then "" else r.current.value.newPath)
  }

  /** The opening line states the paths. */
  ghost predicate ReadsStated(step: Machine, line: string, source: string, target: string) {
    forall r: Reader {:trigger step(r, line)} ::
      step(r, line).current.Some? && step(r, line).current.value.oldPath == source &&
      step(r, line).current.value.newPath == target
  }

  ghost predicate ReadsPaths(step: Machine, p: Paths)
    requires !p.InHeader?
  {
    forall r: Reader :: r.current.Some? && !r.inHunk ==> ReadsPathsAt(step, p, r)
  }

  ghost predicate ReadsPathsAt(step: Machine, p: Paths, r: Reader)
    requires !p.InHeader? && r.current.Some?
  {
    step(r, PathTexts(p)[0]) == r.WithOldPath(OldPath(p)) &&
    step(r.WithOldPath(OldPath(p)), PathTexts(p)[1]) == r.WithOldPath(OldPath(p)).WithNewPath(NewPath(p))
  }

  ghost predicate ReadsOpening(step: Machine, line: string) {
    forall r: Reader {:trigger step(r, line)} ::
      step(r, line).done == r.Files() && !step(r, line).inHunk && step(r, line).current.Some? &&
      step(r, line).current.value.lines == []
  }

  ghost predicate ReadsFile(step: Machine, f: FilePatch) {
    ReadsOpening(step, OpeningText(f)) &&
    (if f.paths.InHeader? then
       ReadsStated(step, OpeningText(f), f.paths.source, f.paths.target) &&
       forall i :: 0 <= i < |f.extra| ==> ReadsModes(step, f.extra[i])
     else ReadsPaths(step, f.paths)) &&
    (forall i :: 0 <= i < |f.extra| ==> ReadsExtra(step, f.extra[i])) &&
    (forall i :: 0 <= i < |f.hunks| ==> ReadsHunk(step, f.hunks[i]))
  }

  lemma {:induction false} FoldItems(step: Machine, r: Reader, h: Hunk, k: nat)
    requires ReadsItems(step, h) && k <= |h.items| && Before(r, h, 0)
    ensures Fold(step, r, ItemTexts(h.items, k)) ==
            r.(current := Some(r.current.value.(lines := r.current.value.lines + ItemLines(h, k))),
               oldLine := h.oldStart + OldCount(h.items, k), newLine := h.newStart + NewCount(h.items, k))
  {
    if k == 0 {
      Empties(r.current.value.lines);
    } else {
      FoldItems(step, r, h, k - 1);
      FoldSnoc(step, r, ItemTexts(h.items, k - 1), h.items[k - 1].Raw());
      Regroup(r.current.value.lines, ItemLines(h, k - 1), [ItemLine(h, k - 1)]);
    }
  }

  lemma FoldHunks(step: Machine, r: Reader, hunks: seq<Hunk>)
    requires r.current.Some? && forall i :: 0 <= i < |hunks| ==> ReadsHunk(step, hunks[i])
    ensures var r' := Fold(step, r, HunkTexts(hunks));
            r'.done == r.done && r'.current.Some? &&
            r'.current.value == r.current.value.(lines := r.current.value.lines + HunkLines(hunks))
  {
    var pieces, results := HunkPieces(hunks), LinePieces(hunks);
    forall i, t {:trigger Fold(step, t, pieces[i])} | 0 <= i < |pieces| && HasCurrent(t)
      ensures HasCurrent(Fold(step, t, pieces[i])) && AllButLines(Fold(step, t, pieces[i])) == AllButLines(t)
      ensures CurrentLines(Fold(step, t, pieces[i])) == CurrentLines(t) + results[i]
    {
      FoldOneHunk(step, t, hunks[i]);
    }
    FoldPieces(step, HasCurrent, AllButLines, CurrentLines, r, pieces, results, |hunks|);
  }

  predicate HasCurrent(r: Reader) { r.current.Some? }

  function AllButLines(r: Reader): (seq<PatchFile>, string, string) {
    (r.done, if r.current.Some? then r.current.value.oldPath else "",
     if r.current.Some? then r.current.value.newPath else "")
  }

  function CurrentLines(r: Reader): seq<PatchLine> { if r.current.Some? then r.current.value.lines else [] }

  lemma FoldOneHunk(step: Machine, r: Reader, h: Hunk)
    requires ReadsHunk(step, h) && r.current.Some?
    ensures var r' := Fold(step, r, OneHunk(h));
            r'.done == r.done && r'.current.Some? &&
            r'.current.value == r.current.value.(lines := r.current.value.lines + OneHunkLines(h))
  {
    FoldAppend(step, r, [HunkText(h)], ItemTexts(h.items, |h.items|));
    FoldSnoc(step, r, [], HunkText(h));
    Empties([HunkText(h)]);
    FoldItems(step, step(r, HunkText(h)), h, |h.items|);
    Regroup(r.current.value.lines, [Plain(HunkHeader, HunkText(h))], ItemLines(h, |h.items|));
  }

  lemma {:induction false} FoldExtra(step: Machine, r: Reader, extra: seq<string>, k: nat)
    requires r.current.Some? && !r.inHunk && k <= |extra| && forall i :: 0 <= i < |extra| ==> ReadsExtra(step, extra[i])
    ensures var r' := Fold(step, r, extra[..k]);
            r'.done == r.done && !r'.inHunk && r'.current.Some? &&
            r'.current.value.lines == r.current.value.lines + ExtraLines(extra, k)
  {
    if k == 0 {
      Empties(r.current.value.lines);
    } else {
      FoldExtra(step, r, extra, k - 1);
      FoldSnoc(step, r, extra[..k - 1], extra[k - 1]);
      TakeSnoc(extra, k - 1);
      Regroup(r.current.value.lines, ExtraLines(extra, k - 1),
              if ShouldShowMetadata(extra[k - 1]) then [Plain(Metadata, extra[k - 1])] else []);
    }
  }

  lemma {:induction false} FoldModes(step: Machine, r: Reader, extra: seq<string>, k: nat)
    requires r.current.Some? && !r.inHunk && k <= |extra|
    requires forall i :: 0 <= i < |extra| ==> ReadsExtra(step, extra[i]) && ReadsModes(step, extra[i])
    ensures var r' := Fold(step, r, extra[..k]);
            r'.current.Some? &&
            r'.current.value.oldPath == (if HasMode(extra, k, CREATED) then "" else r.current.value.oldPath) &&
            r'.current.value.newPath == (if HasMode(extra, k, DELETED) then "" else r.current.value.newPath)
  {
    if k > 0 {
      FoldModes(step, r, extra, k - 1);
      FoldExtra(step, r, extra, k - 1);
      FoldSnoc(step, r, extra[..k - 1], extra[k - 1]);
      TakeSnoc(extra, k - 1);
      NextMode(extra, k - 1, CREATED);
      NextMode(extra, k - 1, DELETED);
    }
  }

  lemma NextMode(extra: seq<string>, k: nat, mode: string)
    requires k < |extra|
    ensures HasMode(extra, k + 1, mode) <==> HasMode(extra, k, mode) || mode <= extra[k]
  {
  }

  lemma FoldPaths(step: Machine, r: Reader, p: Paths)
    requires r.current.Some? && !r.inHunk && !p.InHeader? && ReadsPaths(step, p)
    ensures Fold(step, r, PathTexts(p)) == r.WithOldPath(OldPath(p)).WithNewPath(NewPath(p))
  {
    var t := PathTexts(p);
    assert ReadsPathsAt(step, p, r);
    FoldSnoc(step, r, [], t[0]);
    FoldSnoc(step, r, [t[0]], t[1]);
    TwoLines(t);
  }

  lemma TwoLines<T>(t: seq<T>)
    requires |t| == 2
    ensures t == [t[0]] + [t[1]] && [] + [t[0]] == [t[0]]
  {
  }

  /** What has been read of a file before its hunks. */
  ghost predicate HeaderRead(r: Reader, f: FilePatch, done: seq<PatchFile>) {
    r.done == done && r.current.Some? && r.current.value == FileOf(f).(lines := ExtraLines(f.extra, |f.extra|))
  }

  lemma FoldOpening(step: Machine, r: Reader, f: FilePatch, r1: Reader, r2: Reader)
    requires ReadsOpening(step, OpeningText(f)) && forall i :: 0 <= i < |f.extra| ==> ReadsExtra(step, f.extra[i])
    requires r1 == step(r, OpeningText(f)) && r2 == Fold(step, r1, f.extra)
    ensures r1.current.Some? && !r1.inHunk && r2.done == r.Files() && !r2.inHunk && r2.current.Some? &&
            r2.current.value.lines == ExtraLines(f.extra, |f.extra|)
  {
    FoldExtra(step, r1, f.extra, |f.extra|);
    Empties(f.extra);
    Empties(ExtraLines(f.extra, |f.extra|));
  }

  lemma FoldStated(step: Machine, f: FilePatch, r1: Reader, r2: Reader)
    requires f.paths.InHeader? && r1.current.Some? && !r1.inHunk && r2 == Fold(step, r1, f.extra)
    requires r1.current.value.oldPath == f.paths.source && r1.current.value.newPath == f.paths.target
    requires forall i :: 0 <= i < |f.extra| ==> ReadsExtra(step, f.extra[i]) && ReadsModes(step, f.extra[i])
    ensures r2.current.Some? && r2.current.value.oldPath == StatedPath(f, f.paths.source, CREATED) &&
            r2.current.value.newPath == StatedPath(f, f.paths.target, DELETED)
  {
    FoldModes(step, r1, f.extra, |f.extra|);
    Empties(f.extra);
  }

  lemma FoldHeader(step: Machine, r: Reader, f: FilePatch)
    requires ReadsFile(step, f)
    ensures HeaderRead(Fold(step, r, [OpeningText(f)] + f.extra + PathTexts(f.paths)), f, r.Files())
  {
    var a, b, c := [OpeningText(f)], f.extra, PathTexts(f.paths);
    var r1 := step(r, OpeningText(f));
    var r2 := Fold(step, r1, b);
    FoldAppend(step, r, a + b, c);
    FoldAppend(step, r, a, b);
    FoldOne(step, r, OpeningText(f));
    FoldOpening(step, r, f, r1, r2);
    if f.paths.InHeader? { FoldStated(step, f, r1, r2); } else { FoldPaths(step, r2, f.paths); }
  }

  lemma FoldFile(step: Machine, r: Reader, f: FilePatch)
    requires ReadsFile(step, f)
    ensures Fold(step, r, FileTexts(f)).Files() == r.Files() + [FileOf(f)]
  {
    var header := [OpeningText(f)] + f.extra + PathTexts(f.paths);
    FoldAppend(step, r, header, HunkTexts(f.hunks));
    FoldHeader(step, r, f);
    FoldHunks(step, Fold(step, r, header), f.hunks);
  }

  // ---------- the reader's steps do what the round trip needs ----------

  /** Only lines that begin with an at sign are hunk headers. */
  ghost predicate HunksNeedAtSign(d: Decoders) {
    forall raw :: d.hunk(raw).Some? ==> raw != "" && raw[0] == '@'
  }

  lemma StepReadsHeader(r: Reader, raw: string, o: int, n: int, d: Decoders)
    requires r.current.Some? && raw != "" && raw[0] == '@' && d.hunk(raw) == Some((o, n))
    ensures Step(r, raw, d) == r.WithLine(Plain(HunkHeader, raw)).(oldLine := o, newLine := n, inHunk := true)
  {
  }

  /** A body line is read by its first character alone, so `--- ` or `+++ ` inside a hunk is a change. */
  lemma StepReadsBody(r: Reader, raw: string, text: string, d: Decoders)
    requires HunksNeedAtSign(d) && r.current.Some? && r.inHunk
    requires raw == " " + text || raw == "-" + text || raw == "+" + text
    ensures Step(r, raw, d) == BodyStep(r, raw, text)
  {
    assert raw[1..] == text;
    assert raw != NO_NEWLINE by { assert raw[0] != NO_NEWLINE[0]; }
  }

  lemma StepReadsNoNewline(r: Reader, d: Decoders)
    requires HunksNeedAtSign(d) && r.current.Some? && r.inHunk
    ensures Step(r, NO_NEWLINE, d) == r.WithLine(Plain(Metadata, NO_NEWLINE))
  {
    assert NO_NEWLINE[0] == '\\';
  }

  /** What body line `raw` with text `text` does to the reader. */
  function BodyStep(r: Reader, raw: string, text: string): Reader
    requires r.current.Some? && raw != ""
  {
    if raw[0] == ' ' then
      r.WithLine(PatchLine(Context, raw, text, r.oldLine, r.newLine, ""))
      .(oldLine := r.oldLine + 1, newLine := r.newLine + 1)
    else if raw[0] == '-' then r.WithLine(PatchLine(Removed, raw, text, r.oldLine, 0, "")).(oldLine := r.oldLine + 1)
    else r.WithLine(PatchLine(Added, raw, text, 0, r.newLine, "")).(newLine := r.newLine + 1)
  }

  /** After item `k` the reader stands before item `k + 1`, one line longer. */
  function AfterItem(r: Reader, h: Hunk, k: nat): Reader
    requires k < |h.items| && r.current.Some?
  {
    r.WithLine(ItemLine(h, k)).(oldLine := h.oldStart + OldCount(h.items, k + 1),
                                newLine := h.newStart + NewCount(h.items, k + 1))
  }

  lemma BodyStepIsItem(r: Reader, h: Hunk, k: nat)
    requires k < |h.items| && Before(r, h, k) && !h.items[k].NoNewline?
    ensures BodyStep(r, h.items[k].Raw(), h.items[k].text) == AfterItem(r, h, k)
  {
  }

  lemma StepReadsItem(r: Reader, h: Hunk, k: nat, d: Decoders)
    requires HunksNeedAtSign(d) && k < |h.items| && Before(r, h, k)
    ensures Step(r, h.items[k].Raw(), d) == AfterItem(r, h, k)
  {
    if h.items[k].NoNewline? {
      StepReadsNoNewline(r, d);
    } else {
      StepReadsBody(r, h.items[k].Raw(), h.items[k].text, d);
      BodyStepIsItem(r, h, k);
    }
  }

  lemma StepReadsHunk(h: Hunk, d: Decoders)
    requires HunksNeedAtSign(d) && d.hunk(HunkText(h)) == Some((h.oldStart, h.newStart))
    ensures ReadsHunk(StepOf(d), h)
  {
    assert ReadsHeader(StepOf(d), h) by {
      forall r: Reader | r.current.Some?
        ensures StepOf(d)(r, HunkText(h)) ==
                r.WithLine(Plain(HunkHeader, HunkText(h))).(oldLine := h.oldStart, newLine := h.newStart,
                                                            inHunk := true)
      {
        StepReadsHeader(r, HunkText(h), h.oldStart, h.newStart, d);
      }
    }
    assert ReadsItems(StepOf(d), h) by {
      forall r: Reader, k | 0 <= k < |h.items| && Before(r, h, k)
        ensures StepOf(d)(r, h.items[k].Raw()) == AfterItem(r, h, k)
      {
        StepReadsItem(r, h, k, d);
      }
    }
  }

  lemma StepReadsExtra(raw: string, d: Decoders)
    requires !("diff --git " <= raw) && !("--- " <= raw) && !("+++ " <= raw) && d.hunk(raw).None?
    ensures ReadsExtra(StepOf(d), raw)
  {
    forall r: Reader | r.current.Some? && !r.inHunk
      ensures var r' := StepOf(d)(r, raw);
              r'.done == r.done && !r'.inHunk && r'.current.Some? &&
              r'.current.value.lines ==
                r.current.value.lines + if ShouldShowMetadata(raw) then [Plain(Metadata, raw)] else []
    {
      Empties(r.current.value.lines);
    }
  }

  lemma StepReadsModes(raw: string, d: Decoders)
    requires !("diff --git " <= raw) && !("--- " <= raw) && !("+++ " <= raw) && !IsRename(raw) && d.hunk(raw).None?
    ensures ReadsModes(StepOf(d), raw)
  {
    assert CREATED <= raw ==> raw[0] == 'n';
    assert DELETED <= raw ==> raw[0] == 'd';
  }

  /** A header that states two paths is read back with them. */
  lemma HeaderRoundTrip(header: string, source: string, target: string, shell: ShellWords)
    requires HeaderStates(header, source, target, shell)
    ensures ParseDiffHeader("diff --git " + header, shell) == (source, target)
  {
    assert ("diff --git " + header)[|"diff --git "|..] == header;
    assert ("a/" + source)[2..] == source && ("b/" + target)[2..] == target;
    if shell(header) != Some(["a/" + source, "b/" + target]) {
      var twice := source + SEPARATOR + source;
      assert ("a/" + twice)[2..] == twice;
      assert IsTwice(twice, source);
      TwiceIsUnique(twice, source);
      TwiceIsUnique(twice, RepeatedPath(twice).value);
    }
  }

  /** A header that is not two words and repeats no path states none. */
  lemma HeaderStatesNothing(header: string, shell: ShellWords)
    requires !(shell(header).Some? && |shell(header).value| == 2)
    requires forall p :: !IsTwice(TrimPrefix(header, "a/"), p)
    ensures ParseDiffHeader("diff --git " + header, shell) == ("", "")
  {
    assert ("diff --git " + header)[|"diff --git "|..] == header;
  }

  lemma StepReadsStated(header: string, source: string, target: string, shell: ShellWords)
    requires HeaderStates(header, source, target, shell)
    ensures ReadsStated(StepOf(GitDecoders(shell)), "diff --git " + header, source, target)
  {
    HeaderRoundTrip(header, source, target, shell);
  }

  /** An unquoted marker path loses one trailing tab and its prefix, nothing else. */
  lemma UnquotedMarker(text: string, bare: string, prefix: string, shell: ShellWords)
    requires bare != "" && bare[|bare| - 1] != '\t' && bare[0] != '/' && bare[0] != '"' && prefix <= bare
    requires text == bare || text == bare + "\t"
    ensures ParseMarkerPath(text, prefix, shell) == bare[|prefix|..]
  {
    if text != bare {
      assert text[..|text| - 1] == bare;
    }
  }

  lemma MarkerRoundTrip(prefix: string, p: Option<string>, shell: ShellWords)
    requires prefix == "a/" || prefix == "b/"
    requires p.Some? ==> ValidPath(p.value)
    ensures ParseMarkerPath(MarkerText(prefix, p), prefix, shell) == if p.Some? then p.value else ""
  {
    if p.Some? {
      var bare := prefix + p.value;
      assert bare[0] == prefix[0] && bare[|bare| - 1] == p.value[|p.value| - 1];
      assert bare[|prefix|..] == p.value;
      Empties(bare);
      UnquotedMarker(MarkerText(prefix, p), bare, prefix, shell);
    }
  }

  /** A quoted path is the first word it is read as, without its prefix; if that fails it is kept as it stands. */
  lemma QuotedMarker(text: string, prefix: string, path: string, shell: ShellWords)
    requires "\"" <= text && text[|text| - 1] != '\t'
    ensures shell(text).Some? && |shell(text).value| > 0 && shell(text).value[0] == prefix + path ==>
              ParseMarkerPath(text, prefix, shell) == path
    ensures (shell(text).None? || |shell(text).value| == 0) && (prefix == "" || prefix[0] != '"') ==>
              ParseMarkerPath(text, prefix, shell) == text
  {
    assert (prefix + path)[|prefix|..] == path;
    assert prefix <= prefix + path;
    assert text[0] == '"' && text[0..] == text;
    assert prefix != "" && prefix <= text ==> prefix[0] == text[0];
  }

  /** A marker or rename line sets one path; `rest` is what follows its keyword. */
  lemma StepReadsOldPath(r: Reader, keyword: string, rest: string, d: Decoders)
    requires r.current.Some? && !r.inHunk && (keyword == "--- " || keyword == "rename from ")
    ensures Step(r, keyword + rest, d) == r.WithOldPath(d.marker(rest, if keyword == "--- " then "a/" else ""))
  {
    assert (keyword + rest)[|keyword|..] == rest;
    assert (keyword + rest)[0] == keyword[0];
  }

  lemma StepReadsNewPath(r: Reader, keyword: string, rest: string, d: Decoders)
    requires r.current.Some? && !r.inHunk && (keyword == "+++ " || keyword == "rename to ")
    ensures Step(r, keyword + rest, d) == r.WithNewPath(d.marker(rest, if keyword == "+++ " then "b/" else ""))
  {
    assert (keyword + rest)[|keyword|..] == rest;
    assert (keyword + rest)[0] == keyword[0];
    assert keyword == "rename to " ==> (keyword + rest)[7] == 't';
  }

  lemma StepReadsMarkers(p: Paths, shell: ShellWords, d: Decoders, r: Reader)
    requires ValidPaths(p) && p.Markers? && d == GitDecoders(shell) && r.current.Some? && !r.inHunk
    ensures Step(r, "--- " + MarkerText("a/", p.oldSide), d) == r.WithOldPath(OldPath(p))
    ensures Step(r.WithOldPath(OldPath(p)), "+++ " + MarkerText("b/", p.newSide), d) ==
              r.WithOldPath(OldPath(p)).WithNewPath(NewPath(p))
  {
    MarkerRoundTrip("a/", p.oldSide, shell);
    MarkerRoundTrip("b/", p.newSide, shell);
    StepReadsOldPath(r, "--- ", MarkerText("a/", p.oldSide), d);
    StepReadsNewPath(r.WithOldPath(OldPath(p)), "+++ ", MarkerText("b/", p.newSide), d);
  }

  lemma StepReadsRename(p: Paths, shell: ShellWords, d: Decoders, r: Reader)
    requires ValidPaths(p) && p.Rename? && d == GitDecoders(shell) && r.current.Some? && !r.inHunk
    ensures Step(r, "rename from " + p.source, d) == r.WithOldPath(OldPath(p))
    ensures Step(r.WithOldPath(OldPath(p)), "rename to " + p.target, d) ==
              r.WithOldPath(OldPath(p)).WithNewPath(NewPath(p))
  {
    StepReadsOldPath(r, "rename from ", p.source, d);
    StepReadsNewPath(r.WithOldPath(OldPath(p)), "rename to ", p.target, d);
  }

  lemma StepReadsPathsAt(p: Paths, shell: ShellWords, r: Reader)
    requires ValidPaths(p) && !p.InHeader? && r.current.Some? && !r.inHunk
    ensures Step(r, PathTexts(p)[0], GitDecoders(shell)) == r.WithOldPath(OldPath(p))
    ensures Step(r.WithOldPath(OldPath(p)), PathTexts(p)[1], GitDecoders(shell)) ==
              r.WithOldPath(OldPath(p)).WithNewPath(NewPath(p))
  {
    if p.Markers? {
      StepReadsMarkers(p, shell, GitDecoders(shell), r);
    } else {
      StepReadsRename(p, shell, GitDecoders(shell), r);
    }
  }

  lemma StepReadsPaths(p: Paths, shell: ShellWords)
    requires ValidPaths(p) && !p.InHeader?
    ensures ReadsPaths(StepOf(GitDecoders(shell)), p)
  {
    var step := StepOf(GitDecoders(shell));
    forall r: Reader | r.current.Some? && !r.inHunk
      ensures ReadsPathsAt(step, p, r)
    {
      StepReadsPathsAt(p, shell, r);
    }
  }

  lemma StepReadsFile(f: FilePatch, shell: ShellWords)
    requires ValidFile(f, shell)
    ensures ReadsFile(StepOf(GitDecoders(shell)), f)
  {
    var d := GitDecoders(shell);
    if f.paths.InHeader? {
      StepReadsStated(f.header, f.paths.source, f.paths.target, shell);
    } else {
      StepReadsPaths(f.paths, shell);
    }
    forall i | 0 <= i < |f.extra|
      ensures ReadsExtra(StepOf(d), f.extra[i]) && (f.paths.InHeader? ==> ReadsModes(StepOf(d), f.extra[i]))
    {
      StepReadsExtra(f.extra[i], d);
      if f.paths.InHeader? { StepReadsModes(f.extra[i], d); }
    }
    forall i | 0 <= i < |f.hunks|
      ensures ReadsHunk(StepOf(d), f.hunks[i])
    {
      HunkHeaderRoundTrip(f.hunks[i]);
      StepReadsHunk(f.hunks[i], d);
    }
  }

  lemma StepReadsEnd(r: Reader, d: Decoders)
    requires HunksNeedAtSign(d)
    ensures Step(r, "", d) == r
  {
  }

  lemma RangeIsOneLine(start: nat, count: nat)
    ensures OneLine(RangeText(start, count))
  {
  }

  lemma HunkTextIsOneLine(h: Hunk)
    requires ValidHunk(h)
    ensures OneLine(HunkText(h))
  {
    RangeIsOneLine(h.oldStart, OldCount(h.items, |h.items|));
    RangeIsOneLine(h.newStart, NewCount(h.items, |h.items|));
  }

  lemma RawIsOneLine(i: Item)
    requires ValidItem(i)
    ensures OneLine(i.Raw())
  {
  }

  lemma {:induction false} ItemTextsAreLines(items: seq<Item>, k: nat)
    requires k <= |items| && forall i :: 0 <= i < |items| ==> ValidItem(items[i])
    ensures All(OneLine, ItemTexts(items, k))
  {
    if k > 0 {
      ItemTextsAreLines(items, k - 1);
      RawIsOneLine(items[k - 1]);
      AllAppend(OneLine, ItemTexts(items, k - 1), [items[k - 1].Raw()]);
    }
  }

  lemma HunkTextsAreLines(hunks: seq<Hunk>)
    requires forall i :: 0 <= i < |hunks| ==> ValidHunk(hunks[i])
    ensures All(OneLine, HunkTexts(hunks))
  {
    var pieces := HunkPieces(hunks);
    forall i | 0 <= i < |pieces|
      ensures All(OneLine, pieces[i])
    {
      var h := hunks[i];
      ItemTextsAreLines(h.items, |h.items|);
      HunkTextIsOneLine(h);
      AllAppend(OneLine, [HunkText(h)], ItemTexts(h.items, |h.items|));
    }
    AllFlat(OneLine, pieces, |hunks|);
  }

  lemma MarkerIsOneLine(keyword: string, prefix: string, p: Option<string>)
    requires OneLine(keyword) && OneLine(prefix) && (p.Some? ==> ValidPath(p.value))
    ensures OneLine(keyword + MarkerText(prefix, p))
  {
  }

  lemma PathTextsAreLines(p: Paths)
    requires ValidPaths(p)
    ensures All(OneLine, PathTexts(p))
  {
    match p
    case Markers(o, n) =>
      MarkerIsOneLine("--- ", "a/", o);
      MarkerIsOneLine("+++ ", "b/", n);
    case Rename(source, target) =>
      assert OneLine("rename from " + source) && OneLine("rename to " + target);
    case InHeader(_, _) =>
  }

  lemma FileTextsAreLines(f: FilePatch, shell: ShellWords)
    requires ValidFile(f, shell)
    ensures All(OneLine, FileTexts(f))
  {
    HunkTextsAreLines(f.hunks);
    PathTextsAreLines(f.paths);
    AllAppend(OneLine, [OpeningText(f)], f.extra);
    AllAppend(OneLine, [OpeningText(f)] + f.extra, PathTexts(f.paths));
    AllAppend(OneLine, [OpeningText(f)] + f.extra + PathTexts(f.paths), HunkTexts(f.hunks));
  }

  lemma {:induction false} JoinedHasNoReturn(lines: seq<string>)
    requires All(OneLine, lines)
    ensures '\r' !in JoinLines(lines)
  {
    if lines != [] { JoinedHasNoReturn(lines[1..]); }
  }

  /** A printed patch comes apart into the lines it was made of. */
  lemma PrintedLines(files: seq<FilePatch>, lines: seq<string>, shell: ShellWords)
    requires (forall i :: 0 <= i < |files| ==> ValidFile(files[i], shell)) && lines == Flat(PatchTexts(files), |files|)
    ensures SplitOn(Without(JoinLines(lines), '\r'), '\n') == lines + [""]
  {
    forall i | 0 <= i < |files|
      ensures All(OneLine, PatchTexts(files)[i])
    {
      FileTextsAreLines(files[i], shell);
    }
    AllFlat(OneLine, PatchTexts(files), |files|);
    JoinedHasNoReturn(lines);
    WithoutAbsent(JoinLines(lines), '\r');
    SplitJoin(lines);
  }

  /** The reading loop over the lines of valid files yields the files. */
  lemma LinesAreRead(files: seq<FilePatch>, shell: ShellWords)
    requires forall i :: 0 <= i < |files| ==> ValidFile(files[i], shell)
    ensures Fold(StepOf(GitDecoders(shell)), START, Flat(PatchTexts(files), |files|)).Files() == FilesOf(files)
  {
    var step := StepOf(GitDecoders(shell));
    forall i, r {:trigger Fold(step, r, PatchTexts(files)[i])} | 0 <= i < |files|
      ensures Fold(step, r, PatchTexts(files)[i]).Files() == r.Files() + [FilesOf(files)[i]]
    {
      StepReadsFile(files[i], shell);
      FoldFile(step, r, files[i]);
    }
    FoldFlat(step, (r: Reader) => r.Files(), START, PatchTexts(files), FilesOf(files), |files|);
    Empties(FilesOf(files));
  }

  /**
   Reading a printed patch without carriage returns gives its files back: paths, line kinds, texts and line numbers.
   */
  lemma CleanPatchRoundTrip(files: seq<FilePatch>, shell: ShellWords)
    requires forall i :: 0 <= i < |files| ==> ValidFile(files[i], shell)
    ensures ParsedFiles(PrintPatch(files), shell) == FilesOf(files)
  {
    var lines := Flat(PatchTexts(files), |files|);
    var d := GitDecoders(shell);
    PrintedLines(files, lines, shell);
    LinesAreRead(files, shell);
    FoldSnoc(StepOf(d), START, lines, "");
    StepReadsEnd(Fold(StepOf(d), START, lines), d);
  }
}
