/** The metadata jj is asked to print in front of each revision (ParseRowPrefixes in internal/parser/row_line.go). */
module RowPrefixes {
  import opened Text
  import opened Sgr
  import opened Ansi

  const PREFIX := "_PREFIX:"

  datatype Commit = Commit(changeId: string, commitId: string, hasBookmarks: bool, hasLocalBookmarks: bool,
                           hasWorkspace: bool,
                           root: bool, empty: bool, workingCopy: bool, hidden: bool)

  predicate At(s: string, sep: string, i: int) { 0 <= i <= |s| - |sep| && s[i..i + |sep|] == sep }

  /** The first place of `sep` in `s` at or after `i`; beyond the end if there is none. */
  function Find(s: string, sep: string, i: nat): (k: nat)
    requires i <= |s|
    ensures i <= k && (forall j :: i <= j < k ==> !At(s, sep, j)) && (k <= |s| ==> At(s, sep, k))
    decreases |s| - i
  {
    if At(s, sep, i) then i else if i == |s| then |s| + 1 else Find(s, sep, i + 1)
  }

  predicate Contains(s: string, sep: string) { Find(s, sep, 0) <= |s| }

  /** strings.Split for a separator that is not empty. */
  function SplitStr(s: string, sep: string): (parts: seq<string>)
    requires sep != ""
    ensures |parts| >= 1
    decreases |s|
  {
    var k := Find(s, sep, 0);
    if k > |s| then [s] else [s[..k]] + SplitStr(s[k + |sep|..], sep)
  }

  function IsTrue(s: string): bool { Trim(s) == "true" }

  /** The commit described by the fields after the text before the first prefix. */
  function CommitOf(parts: seq<string>): Commit
    requires 3 <= |parts| <= 8
  {
    var n := |parts|;
    Commit(Trim(parts[1]), Trim(parts[2]),
           n >= 6 && IsTrue(parts[3]), n >= 6 && IsTrue(parts[4]), n >= 6 && IsTrue(parts[5]),
           if n == 4 || n == 5 then IsTrue(parts[3]) else n >= 7 && IsTrue(parts[6]),
           if n == 5 then IsTrue(parts[4]) else n == 8 && IsTrue(parts[7]),
           false, false)
  }

  /** The number of the segment after the metadata and the commit, if the line has well-formed metadata. */
  datatype Prefixes = Prefixes(segments: seq<Segment>, index: int, commit: Option<Commit>)

  function PrefixSegment(segments: seq<Segment>, sep: string, i: nat): (k: nat)
    requires i <= |segments|
    ensures i <= k <= |segments| && (k < |segments| ==> Contains(segments[k].text, sep))
    ensures forall j :: i <= j < k ==> !Contains(segments[j].text, sep)
    decreases |segments| - i
  {
    if i == |segments| || Contains(segments[i].text, sep) then i else PrefixSegment(segments, sep, i + 1)
  }

  function ParsePrefixes(segments: seq<Segment>, sep: string): (p: Prefixes)
    requires sep != ""
    ensures p.commit.None? ==> p == Prefixes(segments, -1, None)
    ensures p.commit.Some? ==> 1 <= p.index <= |segments| == |p.segments|
  {
    var k := PrefixSegment(segments, sep, 0);
    if k == |segments| then Prefixes(segments, -1, None)
    else
      var parts := SplitStr(segments[k].text, sep);
      if |parts| < 3 || |parts| > 8 then Prefixes(segments, -1, None)
      else Prefixes(segments[k := Segment(parts[0], PLAIN)], k + 1, Some(CommitOf(parts)))
  }

  method FindPrefix(segments: seq<Segment>, sep: string) returns (k: nat)
    ensures k == PrefixSegment(segments, sep, 0)
  {
    k := 0;
    while k < |segments| && !Contains(segments[k].text, sep)
      invariant k <= |segments| && PrefixSegment(segments, sep, 0) == PrefixSegment(segments, sep, k)
    {
      k := k + 1;
    }
  }

  // ---------- reading back what was printed ----------

  function JoinStr(parts: seq<string>, sep: string): string {
    if parts == [] then "" else if |parts| == 1 then parts[0] else parts[0] + (sep + JoinStr(parts[1..], sep))
  }

  /** The separator's first character does not occur again in it, so it cannot overlap itself. */
  predicate Solid(sep: string) { sep != "" && forall i :: 0 < i < |sep| ==> sep[i] != sep[0] }

  lemma FoundAfterPart(part: string, sep: string, rest: string, j: nat)
    requires Solid(sep) && !Contains(part, sep)
    ensures j < |part| ==> !At(part + (sep + rest), sep, j)
    ensures At(part + (sep + rest), sep, |part|)
  {
    var s, m := part + (sep + rest), |part|;
    assert s[m..m + |sep|] == sep;
    assert s[m] == sep[0];
    assert j < m < j + |sep| ==> s[j..j + |sep|][m - j] == s[m];
    assert j + |sep| <= m ==> part[j..j + |sep|] == s[j..j + |sep|];
    assert j + |sep| <= m ==> !At(part, sep, j);
  }

  lemma FirstIsAfterPart(part: string, sep: string, rest: string)
    requires Solid(sep) && !Contains(part, sep)
    ensures Find(part + (sep + rest), sep, 0) == |part|
  {
    FoundAfterPart(part, sep, rest, 0);
    var k := Find(part + (sep + rest), sep, 0);
    if k < |part| { FoundAfterPart(part, sep, rest, k); }
  }

  lemma TakeApart<T>(a: seq<T>, b: seq<T>, c: seq<T>)
    ensures (a + (b + c))[..|a|] == a && (a + (b + c))[|a| + |b|..] == c
  {
  }

  lemma SplitFirst(part: string, sep: string, rest: string)
    requires Solid(sep) && !Contains(part, sep)
    ensures SplitStr(part + (sep + rest), sep) == [part] + SplitStr(rest, sep)
  {
    FirstIsAfterPart(part, sep, rest);
    TakeApart(part, sep, rest);
  }

  /** Joined fields come apart again. */
  lemma {:induction false} SplitJoinStr(parts: seq<string>, sep: string)
    requires parts != [] && Solid(sep) && forall i :: 0 <= i < |parts| ==> !Contains(parts[i], sep)
    ensures SplitStr(JoinStr(parts, sep), sep) == parts
  {
    if |parts| > 1 {
      var rest := JoinStr(parts[1..], sep);
      SplitJoinStr(parts[1..], sep);
      SplitFirst(parts[0], sep, rest);
      Cut(parts, 1);
    } else {
      assert parts == [parts[0]];
    }
  }

  lemma PrefixSegmentIs(before: seq<Segment>, s: Segment, after: seq<Segment>, sep: string)
    requires Contains(s.text, sep) && forall i :: 0 <= i < |before| ==> !Contains(before[i].text, sep)
    ensures PrefixSegment(before + [s] + after, sep, 0) == |before|
  {
    var all := before + [s] + after;
    assert all[|before|] == s && forall i :: 0 <= i < |before| ==> all[i] == before[i];
  }

  lemma ReplaceMiddle<T>(before: seq<T>, x: T, y: T, after: seq<T>)
    ensures |before + [x] + after| > |before| && (before + [x] + after)[|before|] == x
    ensures (before + [x] + after)[|before| := y] == before + [y] + after
  {
  }

  lemma ParsedAs(segments: seq<Segment>, k: nat, parts: seq<string>, sep: string)
    requires sep != "" && k < |segments| && PrefixSegment(segments, sep, 0) == k &&
             SplitStr(segments[k].text, sep) == parts && 3 <= |parts| <= 8
    ensures ParsePrefixes(segments, sep) ==
              Prefixes(segments[k := Segment(parts[0], PLAIN)], k + 1, Some(CommitOf(parts)))
  {
  }

  lemma JoinedContains(parts: seq<string>, sep: string)
    requires |parts| > 1 && Solid(sep) && !Contains(parts[0], sep)
    ensures Contains(JoinStr(parts, sep), sep)
  {
    FirstIsAfterPart(parts[0], sep, JoinStr(parts[1..], sep));
  }

  lemma PrintedText(parts: seq<string>, sep: string)
    requires Solid(sep) && |parts| > 1 && forall i :: 0 <= i < |parts| ==> !Contains(parts[i], sep)
    ensures SplitStr(JoinStr(parts, sep), sep) == parts && Contains(JoinStr(parts, sep), sep)
  {
    SplitJoinStr(parts, sep);
    JoinedContains(parts, sep);
  }

  /** A line printed with its fields joined by the prefix, as the log template asks, yields those fields. */
  lemma PrintedPrefixIsRead(before: seq<Segment>, parts: seq<string>, s: Segment, after: seq<Segment>, sep: string)
    requires Solid(sep) && 3 <= |parts| <= 8 && s.text == JoinStr(parts, sep) &&
             forall i :: 0 <= i < |parts| ==> !Contains(parts[i], sep)
    requires forall i :: 0 <= i < |before| ==> !Contains(before[i].text, sep)
    ensures ParsePrefixes(before + [s] + after, sep) ==
            Prefixes(before + [Segment(parts[0], PLAIN)] + after, |before| + 1, Some(CommitOf(parts)))
  {
    PrintedText(parts, sep);
    PrefixSegmentIs(before, s, after, sep);
    ReplaceMiddle(before, s, Segment(parts[0], PLAIN), after);
    ParsedAs(before + [s] + after, |before|, parts, sep);
  }

  lemma PrefixIsSolid(sep: string)
    requires sep == PREFIX
    ensures Solid(sep)
  {
  }

  /** So does the line jj prints for the template that joins the fields with the prefix jjui uses. */
  lemma LogPrefixIsRead(before: seq<Segment>, parts: seq<string>, s: Segment, after: seq<Segment>, sep: string)
    requires sep == PREFIX && 3 <= |parts| <= 8 && s.text == JoinStr(parts, sep) &&
             forall i :: 0 <= i < |parts| ==> !Contains(parts[i], sep)
    requires forall i :: 0 <= i < |before| ==> !Contains(before[i].text, sep)
    ensures ParsePrefixes(before + [s] + after, sep) ==
            Prefixes(before + [Segment(parts[0], PLAIN)] + after, |before| + 1, Some(CommitOf(parts)))
  {
    PrefixIsSolid(sep);
    PrintedPrefixIsRead(before, parts, s, after, sep);
  }
  // ---------- the fields the templates print ----------

  /** How a template prints a condition. */
  function FlagText(b: bool): string { if b then "true" else "false" }

  /** An id as printed: not empty, without blanks and without the character the prefix begins with. */
  predicate Word(s: string) { s != "" && NoSpace(s) && '_' !in s }

  /** The text before the prefix, two ids and some conditions; blanks may follow the last field. */
  function LineFields(lead: string, changeId: string, commitId: string, flags: seq<bool>, pad: string): seq<string> {
    if flags == [] then [lead, changeId, commitId + pad]
    else [lead, changeId, commitId] + Mapped(FlagText, flags[..|flags| - 1]) + [FlagText(flags[|flags| - 1]) + pad]
  }

  predicate Blank(pad: string) { forall i :: 0 <= i < |pad| ==> IsSpace(pad[i]) }

  lemma {:induction false} TrimmedWord(w: string, pad: string)
    requires w != "" && NoSpace(w) && Blank(pad)
    ensures TrimRight(w + pad) == w
  {
    if pad == "" {
      Empties(w);
    } else {
      var n := |pad| - 1;
      assert (w + pad)[..|w + pad| - 1] == w + pad[..n] && (w + pad)[|w + pad| - 1] == pad[n];
      TrimmedWord(w, pad[..n]);
    }
  }

  /** Blanks after a word are trimmed, and nothing of the word. */
  lemma WordIsRead(w: string, pad: string)
    requires w != "" && NoSpace(w) && Blank(pad)
    ensures Trim(w + pad) == w
  {
    assert (w + pad)[0] == w[0];
    TrimmedWord(w, pad);
  }

  lemma FlagIsRead(b: bool, pad: string)
    requires Blank(pad)
    ensures IsTrue(FlagText(b) + pad) == b
  {
    var w := FlagText(b);
    forall i | 0 <= i < |w| ensures !IsSpace(w[i]) { PrintableIsNotSpace(w[i]); }
    WordIsRead(w, pad);
  }

  /** Text that contains the separator has its first character. */
  lemma HasFirst(s: string, sep: string)
    requires sep != "" && Contains(s, sep)
    ensures sep[0] in s
  {
    var k := Find(s, sep, 0);
    assert s[k..k + |sep|][0] == s[k];
  }

  lemma PaddedLacks(w: string, pad: string)
    requires '_' !in w && Blank(pad)
    ensures '_' !in w + pad
  {
    PrintableIsNotSpace('_');
  }

  lemma FieldIsSolid(lead: string, changeId: string, commitId: string, flags: seq<bool>, pad: string, sep: string,
                     i: nat)
    requires Word(changeId) && Word(commitId) && Blank(pad) && sep == PREFIX && !Contains(lead, sep)
    requires i < |LineFields(lead, changeId, commitId, flags, pad)|
    ensures !Contains(LineFields(lead, changeId, commitId, flags, pad)[i], sep)
  {
    var f := LineFields(lead, changeId, commitId, flags, pad)[i];
    if i > 0 {
      PaddedLacks(commitId, pad);
      if flags != [] { PaddedLacks(FlagText(flags[|flags| - 1]), pad); }
      assert '_' !in f;
      if Contains(f, sep) { HasFirst(f, sep); }
    }
  }

  lemma FlagField(flags: seq<bool>, pad: string, parts: seq<string>, i: nat)
    requires Blank(pad) && i < |flags| && |parts| == 3 + |flags|
    requires parts[3 + i] == FlagText(flags[i]) + if i == |flags| - 1 then pad else ""
    ensures IsTrue(parts[3 + i]) == flags[i]
  {
    FlagIsRead(flags[i], if i == |flags| - 1 then pad else "");
  }

  lemma FieldAt(lead: string, changeId: string, commitId: string, flags: seq<bool>, pad: string, parts: seq<string>,
                i: nat)
    requires parts == LineFields(lead, changeId, commitId, flags, pad) && i < |flags|
    ensures |parts| == 3 + |flags| && parts[3 + i] == FlagText(flags[i]) + if i == |flags| - 1 then pad else ""
  {
    Empties(FlagText(flags[i]));
  }

  lemma IdFields(lead: string, changeId: string, commitId: string, flags: seq<bool>, pad: string, parts: seq<string>)
    requires parts == LineFields(lead, changeId, commitId, flags, pad)
    ensures |parts| == 3 + |flags| && parts[0] == lead && parts[1] == changeId + "" &&
            parts[2] == commitId + if flags == [] then pad else ""
  {
    Empties(changeId);
    Empties(commitId);
  }

  lemma PartIsRead(part: string, w: string, pad: string)
    requires part == w + pad && Word(w) && Blank(pad)
    ensures Trim(part) == w
  {
    WordIsRead(w, pad);
  }

  lemma IdsAreRead(lead: string, changeId: string, commitId: string, flags: seq<bool>, pad: string, parts: seq<string>)
    requires Word(changeId) && Word(commitId) && Blank(pad) && parts == LineFields(lead, changeId, commitId, flags, pad)
    ensures |parts| == 3 + |flags| && parts[0] == lead && Trim(parts[1]) == changeId && Trim(parts[2]) == commitId
  {
    IdFields(lead, changeId, commitId, flags, pad, parts);
    PartIsRead(parts[1], changeId, "");
    PartIsRead(parts[2], commitId, if flags == [] then pad else "");
  }

  lemma FlagsAreRead(lead: string, changeId: string, commitId: string, flags: seq<bool>, pad: string,
                     parts: seq<string>)
    requires Blank(pad) && parts == LineFields(lead, changeId, commitId, flags, pad) && |parts| == 3 + |flags|
    ensures forall i :: 0 <= i < |flags| ==> IsTrue(parts[3 + i]) == flags[i]
  {
    forall i | 0 <= i < |flags| ensures IsTrue(parts[3 + i]) == flags[i] {
      FieldAt(lead, changeId, commitId, flags, pad, parts, i);
      FlagField(flags, pad, parts, i);
    }
  }

  /** What the conditions behind the two ids say, by their number. */
  predicate Says(c: Commit, changeId: string, commitId: string, flags: seq<bool>) {
    var n := |flags|;
    c.changeId == changeId && c.commitId == commitId && !c.workingCopy && !c.hidden &&
    (n == 0 ==> !c.hasBookmarks && !c.hasLocalBookmarks && !c.hasWorkspace && !c.root && !c.empty) &&
    (n == 1 ==> !c.hasBookmarks && !c.hasLocalBookmarks && !c.hasWorkspace && c.root == flags[0] && !c.empty) &&
    (n == 2 ==> !c.hasBookmarks && !c.hasLocalBookmarks && !c.hasWorkspace && c.root == flags[0] &&
                c.empty == flags[1]) &&
    (n >= 3 ==> c.hasBookmarks == flags[0] && c.hasLocalBookmarks == flags[1] && c.hasWorkspace == flags[2]) &&
    (n == 3 ==> !c.root && !c.empty) &&
    (n == 4 ==> c.root == flags[3] && !c.empty) &&
    (n == 5 ==> c.root == flags[3] && c.empty == flags[4])
  }

  lemma CommitSays(parts: seq<string>, changeId: string, commitId: string, flags: seq<bool>)
    requires |flags| <= 5 && |parts| == 3 + |flags| && Trim(parts[1]) == changeId && Trim(parts[2]) == commitId
    requires forall i :: 0 <= i < |flags| ==> IsTrue(parts[3 + i]) == flags[i]
    ensures Says(CommitOf(parts), changeId, commitId, flags)
  {
  }

  /** A line printed by one of jjui's templates yields the ids and conditions printed, and keeps everything else. */
  lemma TemplateLineIsRead(before: seq<Segment>, lead: string, changeId: string, commitId: string, flags: seq<bool>,
                           pad: string, s: Segment, after: seq<Segment>, sep: string)
    returns (c: Commit)
    requires sep == PREFIX && Word(changeId) && Word(commitId) && |flags| <= 5 && Blank(pad) && !Contains(lead, sep)
    requires s.text == JoinStr(LineFields(lead, changeId, commitId, flags, pad), sep)
    requires forall i :: 0 <= i < |before| ==> !Contains(before[i].text, sep)
    ensures ParsePrefixes(before + [s] + after, sep) ==
            Prefixes(before + [Segment(lead, PLAIN)] + after, |before| + 1, Some(c))
    ensures Says(c, changeId, commitId, flags)
  {
    var parts := LineFields(lead, changeId, commitId, flags, pad);
    IdsAreRead(lead, changeId, commitId, flags, pad, parts);
    FlagsAreRead(lead, changeId, commitId, flags, pad, parts);
    forall i | 0 <= i < |parts| ensures !Contains(parts[i], sep) {
      FieldIsSolid(lead, changeId, commitId, flags, pad, sep, i);
    }
    LogPrefixIsRead(before, parts, s, after, sep);
    c := CommitOf(parts);
    CommitSays(parts, changeId, commitId, flags);
  }

  /** With too few or too many fields the line is left as it is. */
  lemma OtherLengthIsLeft(before: seq<Segment>, parts: seq<string>, s: Segment, after: seq<Segment>, sep: string)
    requires Solid(sep) && (|parts| == 2 || |parts| > 8) && s.text == JoinStr(parts, sep) &&
             forall i :: 0 <= i < |parts| ==> !Contains(parts[i], sep)
    requires forall i :: 0 <= i < |before| ==> !Contains(before[i].text, sep)
    ensures ParsePrefixes(before + [s] + after, sep) == Prefixes(before + [s] + after, -1, None)
  {
    PrintedText(parts, sep);
    PrefixSegmentIs(before, s, after, sep);
    ReplaceMiddle(before, s, s, after);
  }
}
