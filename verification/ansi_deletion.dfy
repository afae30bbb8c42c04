/**
 The escape parser compared with deleting every `ESC [ ... m` (internal/screen/ansi_parser.go): they differ only where
 an escape is taken along by the escape before it.
 */
module AnsiDeletion {
  import opened Text
  import opened Sgr
  import opened Ansi

  /** The same, except that an escape after an escape is text by itself and the second one stays open. */
  function FeedDeleting(m: Machine, c: char): Machine {
    if m.mode.Escaped? && c == ESC then m.(out := m.out + [Cell(ESC, m.style)]) else Feed(m, c)
  }

  function Deleted(input: string): Machine { Fold(FeedDeleting, START, input) }

  /** Every `ESC [ ... m` deleted, wherever it begins, and its parameters folded into the style. */
  function Deleting(input: string): seq<Cell> { Finish(Deleted(input)) }

  lemma DeletedOne(input: string, i: nat)
    requires i < |input|
    ensures Deleted(input[..i + 1]) == FeedDeleting(Deleted(input[..i]), input[i])
  {
    TakeSnoc(input, i);
    FoldSnoc(FeedDeleting, START, input[..i], input[i]);
  }

  /**
   A bracket read as text although it stands straight after an escape: that escape was taken along by the one before it.
   */
  ghost predicate PairedEscape(input: string, k: int) {
    0 < k < |input| && input[k] == '[' && input[k - 1] == ESC && Fed(input[..k]).mode.Text?
  }

  /** So far both show the same; after a pair of escapes one has shown both and the other still holds the second. */
  ghost predicate InSync(m: Machine, n: Machine, last: Option<char>) {
    m.style == n.style &&
    ((m.mode == n.mode && m.out == n.out && (m.mode.Text? ==> last != Some(ESC))) ||
     (m.mode.Text? && n.mode.Escaped? && m.out == n.out + [Cell(ESC, m.style)] && last == Some(ESC)))
  }

  /** One has shown at least two cells more, and that lead is not lost again. */
  ghost predicate Ahead(m: Machine, n: Machine) {
    |m.out| >= |n.out| + 2 &&
    (n.mode.Params? || (m.mode.Text? && n.mode.Text?) || (m.mode.Escaped? && n.mode.Escaped?) ||
     (m.mode.Text? && n.mode.Escaped? && |m.out| >= |n.out| + 3))
  }

  lemma SyncStep(m: Machine, n: Machine, last: Option<char>, c: char)
    requires InSync(m, n, last)
    ensures if m.mode.Text? && last == Some(ESC) && c == '[' then Ahead(Feed(m, c), FeedDeleting(n, c))
            else InSync(Feed(m, c), FeedDeleting(n, c), Some(c))
  {
    assert (m.out + [Cell(ESC, m.style)]) + [Cell(c, m.style)] == m.out + [Cell(ESC, m.style), Cell(c, m.style)];
    assert (n.out + [Cell(ESC, n.style)]) + [Cell(c, n.style)] == n.out + [Cell(ESC, n.style), Cell(c, n.style)];
  }

  lemma AheadStep(m: Machine, n: Machine, c: char)
    requires Ahead(m, n)
    ensures Ahead(Feed(m, c), FeedDeleting(n, c))
  {
  }

  function LastOf(input: string, i: nat): Option<char>
    requires i <= |input|
  {
    if i == 0 then None else Some(input[i - 1])
  }

  /** No bracket among the first `i` characters stands after a paired escape. */
  ghost predicate Unpaired(input: string, i: nat) { forall k :: 0 <= k < i ==> !PairedEscape(input, k) }

  ghost predicate Related(unpaired: bool, m: Machine, n: Machine, last: Option<char>) {
    if unpaired then InSync(m, n, last) else Ahead(m, n)
  }

  lemma RelatedStep(unpaired: bool, m: Machine, n: Machine, last: Option<char>, c: char)
    requires Related(unpaired, m, n, last)
    ensures Related(unpaired && !(m.mode.Text? && last == Some(ESC) && c == '['), Feed(m, c), FeedDeleting(n, c),
                    Some(c))
  {
    if unpaired { SyncStep(m, n, last, c); } else { AheadStep(m, n, c); }
  }

  lemma UnpairedStep(input: string, i: nat, m: Machine)
    requires i < |input| && m == Fed(input[..i])
    ensures Unpaired(input, i + 1) <==>
            Unpaired(input, i) && !(m.mode.Text? && LastOf(input, i) == Some(ESC) && input[i] == '[')
  {
    assert PairedEscape(input, i) <==> m.mode.Text? && LastOf(input, i) == Some(ESC) && input[i] == '[';
  }

  lemma TrackOne(input: string, i: nat, m: Machine, n: Machine, was: bool)
    requires i < |input| && m == Fed(input[..i]) && n == Deleted(input[..i]) && was == Unpaired(input, i)
    requires Related(was, m, n, LastOf(input, i))
    ensures Related(Unpaired(input, i + 1), Feed(m, input[i]), FeedDeleting(n, input[i]), LastOf(input, i + 1))
  {
    UnpairedStep(input, i, m);
    RelatedStep(was, m, n, LastOf(input, i), input[i]);
  }

  lemma {:induction false} Track(input: string, i: nat, m: Machine, n: Machine)
    requires i <= |input| && m == Fed(input[..i]) && n == Deleted(input[..i])
    ensures Related(Unpaired(input, i), m, n, LastOf(input, i))
  {
    if i > 0 {
      var m', n' := Fed(input[..i - 1]), Deleted(input[..i - 1]);
      Track(input, i - 1, m', n');
      TrackOne(input, i - 1, m', n', Unpaired(input, i - 1));
      FedOne(input, i - 1);
      DeletedOne(input, i - 1);
    }
  }

  lemma RelatedEnd(unpaired: bool, m: Machine, n: Machine, last: Option<char>)
    requires Related(unpaired, m, n, last)
    ensures Finish(m) == Finish(n) <==> unpaired
    ensures |Finish(m)| >= |Finish(n)|
  {
  }

  /**
   The parser shows what plain deletion would, exactly when no bracket stands after an even run of escapes in text:
   such a bracket is text to the parser, which then shows more.
   */
  lemma DeletesIff(input: string)
    ensures Reference(input) == Deleting(input) <==> forall k :: 0 <= k < |input| ==> !PairedEscape(input, k)
    ensures |Reference(input)| >= |Deleting(input)|
  {
    Empties(input);
    Track(input, |input|, Fed(input), Deleted(input));
    RelatedEnd(Unpaired(input, |input|), Fed(input), Deleted(input), LastOf(input, |input|));
  }

  /** How many escapes stand straight before position `k`. */
  function EscapesBefore(input: string, k: nat): nat
    requires k <= |input|
  {
    if k > 0 && input[k - 1] == ESC then 1 + EscapesBefore(input, k - 1) else 0
  }

  ghost predicate InParameters(input: string, k: nat)
    requires k <= |input|
  {
    Fed(input[..k]).mode.Params?
  }

  /** Outside a parameter string an escape is pending exactly after an odd run of them. */
  lemma {:induction false} PendingIsOddRun(input: string, k: nat)
    requires k <= |input|
    ensures !InParameters(input, k) ==> (Fed(input[..k]).mode.Escaped? <==> EscapesBefore(input, k) % 2 == 1)
  {
    if k > 0 {
      PendingIsOddRun(input, k - 1);
      FedOne(input, k - 1);
    }
  }

  /** The brackets in question are those after an even run of escapes, at least two, outside a parameter string. */
  lemma PairedIsEvenRun(input: string, k: nat)
    requires k < |input|
    ensures PairedEscape(input, k) <==>
            input[k] == '[' && !InParameters(input, k) && EscapesBefore(input, k) > 0 &&
            EscapesBefore(input, k) % 2 == 0
  {
    PendingIsOddRun(input, k);
  }

  /** The input `ESC ESC [ 1 m x`. */
  predicate PairThenBold(input: string) {
    |input| == 6 && input[0] == input[1] == ESC && input[2] == '[' && input[3] == '1' && input[4] == 'm' &&
    input[5] == 'x'
  }

  /** The first `i` characters are shown as they are. */
  ghost predicate AllText(input: string, i: nat)
    requires i <= |input|
  {
    Fed(input[..i]) == Machine(Mode.Text, PLAIN, Styled(input[..i], PLAIN))
  }

  lemma TextGoesOn(input: string, i: nat)
    requires i < |input| && AllText(input, i) && input[i] != ESC
    ensures AllText(input, i + 1)
  {
    FedOne(input, i);
    TakeSnoc(input, i);
    StyledAppend(input[..i], [input[i]], PLAIN);
    StyledOne(input[i], PLAIN);
  }

  lemma PairStarts(input: string)
    requires PairThenBold(input)
    ensures AllText(input, 2)
  {
    FedOne(input, 0);
    FedOne(input, 1);
  }

  lemma PairIsText(input: string)
    requires PairThenBold(input)
    ensures AllText(input, 6)
  {
    PairStarts(input);
    TextGoesOn(input, 2);
    TextGoesOn(input, 3);
    TextGoesOn(input, 4);
    TextGoesOn(input, 5);
  }

  lemma PairIsDeleted(input: string)
    requires PairThenBold(input)
    ensures Deleted(input[..6]) == Machine(Mode.Text, map[Bold := On], [Cell(ESC, PLAIN), Cell('x', map[Bold := On])])
  {
    DeletedOne(input, 0);
    DeletedOne(input, 1);
    assert Deleted(input[..2]) == Machine(Escaped, PLAIN, [Cell(ESC, PLAIN)]);
    DeletedOne(input, 2);
    DeletedOne(input, 3);
    assert "" + ['1'] == "1";
    assert Deleted(input[..4]) == Machine(Params("1"), PLAIN, [Cell(ESC, PLAIN)]);
    DeletedOne(input, 4);
    BoldProgram();
    assert Deleted(input[..5]) == Machine(Mode.Text, map[Bold := On], [Cell(ESC, PLAIN)]);
    DeletedOne(input, 5);
  }

  /** `ESC ESC [ 1 m x` is shown as it is, where plain deletion leaves one escape and a bold x. */
  lemma EscapedEscapeIsText(input: string)
    requires PairThenBold(input)
    ensures Reference(input) == Styled(input, PLAIN)
    ensures Deleting(input) == [Cell(ESC, PLAIN), Cell('x', map[Bold := On])]
  {
    PairIsText(input);
    PairIsDeleted(input);
    Empties(input);
  }

  lemma BoldProgram()
    ensures ApplyAll(PLAIN, Program("1")) == map[Bold := On]
  {
    assert "1"[1..] == "" && SplitOn("", ';') == [""];
    assert ['1'] + "" == "1";
    assert SplitOn("1", ';') == ["1"];
    assert DigitsValue("1") == 1;
    assert Program("1") == [Put(Bold, On)];
    HeadTail(PLAIN, Put(Bold, On), []);
  }
}
