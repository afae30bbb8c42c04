/** The lines of the complete-file view (splitFileLines in internal/ui/annotation/document.go). */
module FileLines {
  import opened Text
  import opened PatchParser
  import opened PatchReturns

  function TrimNewline(s: string): string { if s != "" && s[|s| - 1] == '\n' then s[..|s| - 1] else s }

  function SplitFileLines(value: string): seq<string> {
    var text := TrimNewline(Strip(value));
    if text == "" then [""] else SplitOn(text, '\n')
  }

  /** The text of a file with these lines; the last one may lack its newline. */
  function VersionText(lines: seq<string>, ended: bool): string {
    if ended then JoinLines(lines) else LinesBetween(lines)
  }

  predicate NoNewlines(lines: seq<string>) { forall i :: 0 <= i < |lines| ==> '\n' !in lines[i] }

  /** The lines of a file: none holds a newline, and a last line without newline is not empty. */
  predicate FileVersion(lines: seq<string>, ended: bool) {
    lines != [] && NoNewlines(lines) && (!ended ==> lines[|lines| - 1] != "")
  }

  lemma {:induction false} JoinIsBetween(lines: seq<string>)
    requires lines != []
    ensures JoinLines(lines) == LinesBetween(lines) + "\n"
  {
    if |lines| == 1 {
      assert lines[1..] == [];
      Empties(lines[0] + "\n");
    } else {
      JoinIsBetween(lines[1..]);
      Regroup(lines[0] + "\n", LinesBetween(lines[1..]), "\n");
    }
  }

  lemma {:induction false} StripBetween(lines: seq<string>)
    ensures Strip(LinesBetween(lines)) == LinesBetween(Mapped(Strip, lines))
  {
    if |lines| > 1 {
      StripBetween(lines[1..]);
      WithoutAppend(lines[0] + "\n", LinesBetween(lines[1..]), '\r');
      WithoutAppend(lines[0], "\n", '\r');
      WithoutAbsent("\n", '\r');
      assert Mapped(Strip, lines)[1..] == Mapped(Strip, lines[1..]);
    }
  }

  lemma {:induction false} SplitBetween(lines: seq<string>)
    requires lines != [] && NoNewlines(lines)
    ensures SplitOn(LinesBetween(lines), '\n') == lines
  {
    if |lines| == 1 {
      SplitSingle(lines[0], '\n');
    } else {
      SplitBetween(lines[1..]);
      SplitHead(lines[0], LinesBetween(lines[1..]), '\n');
      Cut(lines, 1);
    }
  }

  lemma {:induction false} BetweenIsEmpty(lines: seq<string>)
    requires lines != []
    ensures LinesBetween(lines) == "" <==> lines == [""]
  {
  }

  /** Text between newlines comes apart into its lines again; no lines at all would read as one empty line. */
  lemma ReadsBetween(lines: seq<string>)
    requires lines != [] && NoNewlines(lines)
    ensures (if LinesBetween(lines) == "" then [""] else SplitOn(LinesBetween(lines), '\n')) == lines
  {
    BetweenIsEmpty(lines);
    SplitBetween(lines);
  }

  lemma {:induction false} BetweenEnds(lines: seq<string>)
    requires lines != [] && NoNewlines(lines)
    ensures TrimNewline(LinesBetween(lines)) ==
            LinesBetween(if |lines| > 1 && lines[|lines| - 1] == "" then lines[..|lines| - 1] else lines)
  {
    if |lines| > 1 { BetweenSnoc(lines[..|lines| - 1], lines[|lines| - 1]); }
    TakeSnoc(lines, |lines| - 1);
    Empties(lines);
  }

  lemma {:induction false} BetweenSnoc(lines: seq<string>, last: string)
    requires lines != []
    ensures LinesBetween(lines + [last]) == LinesBetween(lines) + "\n" + last
  {
    if |lines| > 1 {
      BetweenSnoc(lines[1..], last);
      assert (lines + [last])[1..] == lines[1..] + [last];
      Regroup(lines[0] + "\n", LinesBetween(lines[1..]), "\n" + last);
      Regroup(LinesBetween(lines[1..]), "\n", last);
      Regroup(LinesBetween(lines), "\n", last);
    } else {
      assert lines + [last] == [lines[0], last] && [lines[0], last][1..] == [last];
    }
  }

  lemma StrippedVersion(lines: seq<string>, i: nat)
    requires i < |lines| && '\n' !in lines[i]
    ensures '\n' !in Mapped(Strip, lines)[i]
  {
    WithoutMembers(lines[i], '\r', '\n');
  }

  lemma StrippedLines(lines: seq<string>)
    requires NoNewlines(lines)
    ensures NoNewlines(Mapped(Strip, lines))
  {
    forall i | 0 <= i < |lines| ensures '\n' !in Mapped(Strip, lines)[i] { StrippedVersion(lines, i); }
  }

  lemma TrimmedEnd(lines: seq<string>, stripped: seq<string>)
    requires lines != [] && stripped == Mapped(Strip, lines)
    ensures TrimNewline(Strip(JoinLines(lines))) == LinesBetween(stripped)
  {
    StripJoin(lines);
    JoinIsBetween(stripped);
    var text := LinesBetween(stripped);
    assert (text + "\n")[..|text|] == text;
  }

  /** A file whose last line has its newline is shown line by line, carriage returns aside. */
  lemma EndedView(lines: seq<string>, stripped: seq<string>)
    requires lines != [] && NoNewlines(lines) && stripped == Mapped(Strip, lines)
    ensures SplitFileLines(JoinLines(lines)) == stripped
  {
    StrippedLines(lines);
    TrimmedEnd(lines, stripped);
    ReadsBetween(stripped);
  }

  /** Without it, a last line that is empty once stripped is taken for the end of the line before. */
  lemma UnendedView(lines: seq<string>, stripped: seq<string>, shown: seq<string>)
    requires lines != [] && NoNewlines(lines) && stripped == Mapped(Strip, lines)
    requires shown == if |lines| > 1 && stripped[|lines| - 1] == "" then stripped[..|lines| - 1] else stripped
    ensures SplitFileLines(LinesBetween(lines)) == shown
  {
    StrippedLines(lines);
    StripBetween(lines);
    BetweenEnds(stripped);
    ReadsBetween(shown);
  }

  /**
   The view's lines are the version's lines without carriage returns, exactly when the last line is not
   an unended one made of carriage returns only after other lines; then the view lacks that line.
   */
  lemma ViewHasVersionLinesIff(lines: seq<string>, ended: bool, stripped: seq<string>)
    requires FileVersion(lines, ended) && stripped == Mapped(Strip, lines)
    ensures SplitFileLines(VersionText(lines, ended)) == stripped <==>
              ended || |lines| == 1 || stripped[|lines| - 1] != ""
    ensures !ended && |lines| > 1 && stripped[|lines| - 1] == "" ==>
              SplitFileLines(VersionText(lines, ended)) == stripped[..|lines| - 1]
  {
    if ended {
      EndedView(lines, stripped);
    } else if |lines| > 1 && stripped[|lines| - 1] == "" {
      UnendedView(lines, stripped, stripped[..|lines| - 1]);
    } else {
      UnendedView(lines, stripped, stripped);
    }
  }
}
