/**
 Pairing of removed with added lines inside each changed block (internal/ui/annotation/patch.go,
 pairChangedBlocks and relatedLinePairs).  The theory of pairs holds for any symmetric score of two
 line texts; SharedWords is the score the code uses, with `wordChar` for "is a letter or a digit".
 */
module Pairing {
  import opened Text
  import opened PatchLines
  import WordDiff

  const MAX_PAIRING_LINES := 128

  type Score = (string, string) -> nat

  ghost predicate Symmetric(score: Score) {
    forall a, b :: score(a, b) == score(b, a)
  }

  // ---------- what a pair is ----------

  /** Within [lo, hi), line `y` scores higher with line `x` than any other, and above zero. */
  ghost predicate UniqueBest(lines: seq<PatchLine>, x: int, lo: int, hi: int, y: int, score: Score)
    requires 0 <= x < |lines| && 0 <= lo <= hi <= |lines|
  {
    lo <= y < hi && score(lines[x].content, lines[y].content) > 0 &&
    forall z :: lo <= z < hi && z != y ==>
      score(lines[x].content, lines[z].content) < score(lines[x].content, lines[y].content)
  }

  ghost predicate Mutual(lines: seq<PatchLine>, lo: int, mid: int, hi: int, r: int, a: int, score: Score)
    requires 0 <= lo <= mid <= hi <= |lines|
  {
    mid - lo <= 128 && hi - mid <= 128 &&
    lo <= r < mid <= a < hi &&
    UniqueBest(lines, r, mid, hi, a, score) && UniqueBest(lines, a, lo, mid, r, score)
  }

  /** A changed block: a maximal run of removed lines and the maximal run of added lines after it. */
  ghost predicate Block(lines: seq<PatchLine>, lo: int, mid: int, hi: int) {
    0 <= lo < mid <= hi <= |lines| &&
    (forall k :: lo <= k < mid ==> lines[k].kind.Removed?) &&
    (forall k :: mid <= k < hi ==> lines[k].kind.Added?) &&
    (lo > 0 ==> !lines[lo - 1].kind.Removed?) &&
    (mid < |lines| ==> !lines[mid].kind.Removed?) &&
    (hi < |lines| ==> !lines[hi].kind.Added?)
  }

  /** Removed line `r` and added line `a` are each other's unique best inside one block. */
  ghost predicate Paired(lines: seq<PatchLine>, r: int, a: int, score: Score) {
    exists lo, mid, hi :: Block(lines, lo, mid, hi) && Mutual(lines, lo, mid, hi, r, a, score)
  }

  ghost predicate Partner(lines: seq<PatchLine>, i: int, p: int, score: Score) {
    Paired(lines, i, p, score) || Paired(lines, p, i, score)
  }

  /** The lines after pairing: each paired line carries its partner's text, nothing else changes. */
  ghost function PairedLine(lines: seq<PatchLine>, i: int, score: Score): PatchLine
    requires 0 <= i < |lines|
  {
    if p :| Partner(lines, i, p, score) then lines[i].(pairContent := lines[p].content) else lines[i]
  }

  ghost function PairedLines(lines: seq<PatchLine>, score: Score): (out: seq<PatchLine>)
    ensures |out| == |lines|
  {
    seq(|lines|, i requires 0 <= i < |lines| => PairedLine(lines, i, score))
  }

  // ---------- blocks are disjoint, so pairs are a matching ----------

  lemma SameBlock(lines: seq<PatchLine>, lo: int, mid: int, hi: int, lo': int, mid': int, hi': int, k: int)
    requires Block(lines, lo, mid, hi) && Block(lines, lo', mid', hi')
    requires lo <= k < hi && lo' <= k < hi'
    ensures lo == lo' && mid == mid' && hi == hi'
  {
    assert lines[lo].kind.Removed? && lines[lo'].kind.Removed?;
    assert lo <= lo' ==> lo' < mid;
    assert lo' <= lo ==> lo < mid';
  }

  lemma PairedInBlock(lines: seq<PatchLine>, lo: int, mid: int, hi: int, i: int, r: int, a: int, score: Score)
    requires Block(lines, lo, mid, hi) && lo <= i < hi && (i == r || i == a)
    ensures Paired(lines, r, a, score) <==> Mutual(lines, lo, mid, hi, r, a, score)
  {
    if Paired(lines, r, a, score) {
      var lo', mid', hi' :| Block(lines, lo', mid', hi') && Mutual(lines, lo', mid', hi', r, a, score);
      SameBlock(lines, lo, mid, hi, lo', mid', hi', i);
    }
  }

  lemma PairedShape(lines: seq<PatchLine>, r: int, a: int, score: Score)
    requires Paired(lines, r, a, score)
    ensures 0 <= r < a < |lines| && lines[r].kind.Removed? && lines[a].kind.Added?
  {
  }

  lemma PairIsFunction(lines: seq<PatchLine>, r: int, a: int, r': int, a': int, score: Score)
    requires Paired(lines, r, a, score) && Paired(lines, r', a', score)
    ensures r == r' <==> a == a'
  {
    var lo, mid, hi :| Block(lines, lo, mid, hi) && Mutual(lines, lo, mid, hi, r, a, score);
    if r == r' { PairedInBlock(lines, lo, mid, hi, r, r', a', score); }
    if a == a' { PairedInBlock(lines, lo, mid, hi, a, r', a', score); }
  }

  /** Pairing is an injective partial matching: no line has two partners. */
  lemma PartnersAreUnique(lines: seq<PatchLine>, i: int, p: int, q: int, score: Score)
    requires Partner(lines, i, p, score) && Partner(lines, i, q, score)
    ensures p == q
  {
    if Paired(lines, i, p, score) {
      PairedShape(lines, i, p, score);
      if Paired(lines, q, i, score) { PairedShape(lines, q, i, score); }
      PairIsFunction(lines, i, p, i, q, score);
    } else {
      PairedShape(lines, p, i, score);
      if Paired(lines, i, q, score) { PairedShape(lines, i, q, score); }
      PairIsFunction(lines, p, i, q, i, score);
    }
  }

  lemma PairedLineOf(lines: seq<PatchLine>, i: int, p: int, score: Score)
    requires Partner(lines, i, p, score)
    ensures 0 <= i < |lines| && 0 <= p < |lines|
    ensures PairedLine(lines, i, score) == lines[i].(pairContent := lines[p].content)
  {
    if Paired(lines, i, p, score) { PairedShape(lines, i, p, score); } else { PairedShape(lines, p, i, score); }
    var q :| Partner(lines, i, q, score) && PairedLine(lines, i, score) == lines[i].(pairContent := lines[q].content);
    PartnersAreUnique(lines, i, p, q, score);
  }

  /** The recorded texts mirror each other across a pair, and only paired lines change. */
  lemma PairContentIsSymmetric(lines: seq<PatchLine>, r: int, a: int, score: Score)
    requires Paired(lines, r, a, score)
    ensures 0 <= r < a < |lines|
    ensures PairedLines(lines, score)[r] == lines[r].(pairContent := lines[a].content)
    ensures PairedLines(lines, score)[a] == lines[a].(pairContent := lines[r].content)
  {
    PairedShape(lines, r, a, score);
    PairedLineOf(lines, r, a, score);
    PairedLineOf(lines, a, r, score);
  }

  // ---------- the score ----------

  predicate HasLetterOrDigit(word: string, wordChar: char -> bool) {
    exists i :: 0 <= i < |word| && wordChar(word[i])
  }

  /** How many different words with a letter or digit two lines have in common. */
  function SharedWords(a: string, b: string, wordChar: char -> bool): nat {
    |set w | w in Fields(a) && w in Fields(b) && HasLetterOrDigit(w, wordChar)|
  }

  lemma SharedWordsSymmetric(wordChar: char -> bool)
    ensures Symmetric((a, b) => SharedWords(a, b, wordChar))
  {
    forall a, b
      ensures SharedWords(a, b, wordChar) == SharedWords(b, a, wordChar)
    {
      assert (set w | w in Fields(a) && w in Fields(b) && HasLetterOrDigit(w, wordChar))
          == (set w | w in Fields(b) && w in Fields(a) && HasLetterOrDigit(w, wordChar));
    }
  }

  /** Two lines score exactly when some word with a letter or digit is in both. */
  lemma ScoresIff(a: string, b: string, wordChar: char -> bool)
    ensures SharedWords(a, b, wordChar) > 0 <==>
            exists w, k :: w in Fields(a) && w in Fields(b) && 0 <= k < |w| && wordChar(w[k])
  {
    var shared := set w | w in Fields(a) && w in Fields(b) && HasLetterOrDigit(w, wordChar);
    if |shared| > 0 {
      var w :| w in shared;
      var k :| 0 <= k < |w| && wordChar(w[k]);
    }
    if w, k :| w in Fields(a) && w in Fields(b) && 0 <= k < |w| && wordChar(w[k]) { assert w in shared; }
  }

  method WordSet(words: seq<string>, among: set<string>, restrict: bool, wordChar: char -> bool)
    returns (found: set<string>)
    ensures restrict ==> found == set w | w in words && HasLetterOrDigit(w, wordChar) && w in among
    ensures !restrict ==> found == set w | w in words && HasLetterOrDigit(w, wordChar)
  {
    found := {};
    for i := 0 to |words|
      invariant found == set w | w in words[..i] && HasLetterOrDigit(w, wordChar) && (restrict ==> w in among)
    {
      assert words[..i + 1] == words[..i] + [words[i]];
      if HasLetterOrDigit(words[i], wordChar) && (restrict ==> words[i] in among) {
        found := found + {words[i]};
      }
    }
    assert words[..|words|] == words;
  }

  method WordsOf(line: string) returns (words: seq<string>)
    ensures words == Fields(line)
  {
    var tokens;
    tokens, words := WordDiff.SplitWordTokens(line);
  }

  method SharedLineWords(a: string, b: string, wordChar: char -> bool) returns (n: nat)
    ensures n == SharedWords(a, b, wordChar)
  {
    var oldWords := WordsOf(a);
    var newWords := WordsOf(b);
    var newSet := WordSet(newWords, {}, false, wordChar);
    var shared := WordSet(oldWords, newSet, true, wordChar);
    SameWords(oldWords, newWords, newSet, shared, wordChar);
    n := |shared|;
  }

  lemma SameWords(xs: seq<string>, ys: seq<string>, newSet: set<string>, shared: set<string>, wordChar: char -> bool)
    requires newSet == set w | w in ys && HasLetterOrDigit(w, wordChar)
    requires shared == set w | w in xs && HasLetterOrDigit(w, wordChar) && w in newSet
    ensures shared == set w | w in xs && w in ys && HasLetterOrDigit(w, wordChar)
  {
  }

  // ---------- the computation ----------

  /** The scan for the best candidate of line `x` in [lo, hi), counting how often the best occurs. */
  method BestMatch(lines: seq<PatchLine>, x: int, lo: int, hi: int, score: Score)
    returns (best: int, bestScore: nat, bestCount: nat)
    requires 0 <= x < |lines| && 0 <= lo <= hi <= |lines|
    ensures bestScore > 0 && bestCount == 1 ==> UniqueBest(lines, x, lo, hi, best, score)
    ensures bestScore > 0 && bestCount == 1 ==> bestScore == score(lines[x].content, lines[best].content)
    ensures forall y :: UniqueBest(lines, x, lo, hi, y, score) ==> bestScore > 0 && bestCount == 1 && y == best
  {
    best, bestScore, bestCount := -1, 0, 0;
    ghost var rival := -1;
    for y := lo to hi
      invariant forall z :: lo <= z < y ==> score(lines[x].content, lines[z].content) <= bestScore
      invariant bestScore == 0 <==> bestCount == 0
      invariant bestScore > 0 ==> lo <= best < y && score(lines[x].content, lines[best].content) == bestScore
      invariant bestCount == 1 ==>
                  forall z :: lo <= z < y && z != best ==> score(lines[x].content, lines[z].content) < bestScore
      invariant bestCount > 1 ==> lo <= rival < y && rival != best
      invariant bestCount > 1 ==> score(lines[x].content, lines[rival].content) == bestScore
    {
      var s := score(lines[x].content, lines[y].content);
      if s > bestScore {
        best, bestScore, bestCount := y, s, 1;
      } else if s > 0 && s == bestScore {
        bestCount, rival := bestCount + 1, y;
      }
    }
  }

  // A Go map read: a missing key reads as zero.
  function Lookup(m: map<int, int>, k: int): int { if k in m then m[k] else 0 }

  /** Each line of [xs, xe) that has a unique best in [lo, hi), with that best and its score. */
  ghost predicate AreBestMatches(lines: seq<PatchLine>, xs: int, xe: int, lo: int, hi: int, score: Score,
                                 best: map<int, int>, scores: map<int, int>)
    requires 0 <= xs <= |lines| && xe <= |lines| && 0 <= lo <= hi <= |lines|
  {
    best.Keys == scores.Keys &&
    (forall x :: x in best ==> xs <= x < xe && UniqueBest(lines, x, lo, hi, best[x], score)) &&
    (forall x :: x in best ==> scores[x] == score(lines[x].content, lines[best[x]].content)) &&
    forall x, y :: xs <= x < xe && UniqueBest(lines, x, lo, hi, y, score) ==> x in best && best[x] == y
  }

  method BestMatches(lines: seq<PatchLine>, xs: int, xe: int, lo: int, hi: int, score: Score)
    returns (best: map<int, int>, scores: map<int, int>)
    requires 0 <= xs <= xe <= |lines| && 0 <= lo <= hi <= |lines|
    ensures AreBestMatches(lines, xs, xe, lo, hi, score, best, scores)
  {
    best, scores := map[], map[];
    for x := xs to xe
      invariant AreBestMatches(lines, xs, x, lo, hi, score, best, scores)
    {
      var y, bestScore, bestCount := BestMatch(lines, x, lo, hi, score);
      if bestScore > 0 && bestCount == 1 {
        best, scores := best[x := y], scores[x := bestScore];
      }
    }
  }

  /** The test made on the two best-match maps. */
  predicate Agrees(r: int, removedBest: map<int, int>, removedScore: map<int, int>,
                   addedBest: map<int, int>, addedScore: map<int, int>)
    requires r in removedBest && r in removedScore
  {
    Lookup(addedBest, removedBest[r]) == r && removedScore[r] == Lookup(addedScore, removedBest[r])
  }

  /** It says exactly that the match is mutual, although a missing key reads as line 0. */
  lemma AgreementIsMutual(lines: seq<PatchLine>, lo: int, mid: int, hi: int, r: int, a: int, score: Score,
                          removedBest: map<int, int>, removedScore: map<int, int>,
                          addedBest: map<int, int>, addedScore: map<int, int>)
    requires 0 <= lo <= mid <= hi <= |lines| && Symmetric(score)
    requires mid - lo <= MAX_PAIRING_LINES && hi - mid <= MAX_PAIRING_LINES
    requires AreBestMatches(lines, lo, mid, mid, hi, score, removedBest, removedScore)
    requires AreBestMatches(lines, mid, hi, lo, mid, score, addedBest, addedScore)
    ensures (r in removedBest && removedBest[r] == a && Agrees(r, removedBest, removedScore, addedBest, addedScore))
            <==> Mutual(lines, lo, mid, hi, r, a, score)
  {
  }

  method KeepAgreeing(removedBest: map<int, int>, removedScore: map<int, int>,
                      addedBest: map<int, int>, addedScore: map<int, int>) returns (pairs: map<int, int>)
    requires removedBest.Keys == removedScore.Keys
    ensures forall r :: r in pairs <==> r in removedBest && Agrees(r, removedBest, removedScore, addedBest, addedScore)
    ensures forall r :: r in pairs ==> pairs[r] == removedBest[r]
  {
    pairs := map[];
    var todo: set<int> := removedBest.Keys;
    while todo != {}
      invariant todo <= removedBest.Keys
      invariant forall r :: r in pairs <==>
                  r in removedBest && r !in todo && Agrees(r, removedBest, removedScore, addedBest, addedScore)
      invariant forall r :: r in pairs ==> pairs[r] == removedBest[r]
      decreases |todo|
    {
      var r := PickOne(todo);
      todo := todo - {r};
      if Agrees(r, removedBest, removedScore, addedBest, addedScore) {
        pairs := pairs[r := removedBest[r]];
      }
    }
  }

  /** Exactly the mutually unique best matches, when both sides are within the limit. */
  method RelatedLinePairs(lines: seq<PatchLine>, lo: int, mid: int, hi: int, score: Score)
    returns (pairs: map<int, int>)
    requires 0 <= lo <= mid <= hi <= |lines| && Symmetric(score)
    ensures forall r, a :: (r in pairs && pairs[r] == a) <==> Mutual(lines, lo, mid, hi, r, a, score)
  {
    if mid - lo > MAX_PAIRING_LINES || hi - mid > MAX_PAIRING_LINES {
      return map[];
    }
    var removedBest, removedScore := BestMatches(lines, lo, mid, mid, hi, score);
    var addedBest, addedScore := BestMatches(lines, mid, hi, lo, mid, score);
    pairs := KeepAgreeing(removedBest, removedScore, addedBest, addedScore);
    forall r, a
      ensures (r in pairs && pairs[r] == a) <==> Mutual(lines, lo, mid, hi, r, a, score)
    {
      AgreementIsMutual(lines, lo, mid, hi, r, a, score, removedBest, removedScore, addedBest, addedScore);
    }
  }

  ghost function Image(pairs: map<int, int>, done: set<int>): set<int> {
    set r | r in done && r in pairs :: pairs[r]
  }

  /** The texts after the pairs whose removed line is in `done` have been written. */
  ghost predicate PairsWritten(was: seq<PatchLine>, now: seq<PatchLine>, pairs: map<int, int>, done: set<int>)
    requires done <= pairs.Keys && forall i :: i in pairs ==> 0 <= i < |was| && 0 <= pairs[i] < |was|
  {
    |now| == |was| &&
    (forall i :: i in done ==> now[i] == was[i].(pairContent := was[pairs[i]].content)) &&
    (forall i :: i in done ==> now[pairs[i]] == was[pairs[i]].(pairContent := was[i].content)) &&
    (forall i :: 0 <= i < |was| && i !in done && i !in Image(pairs, done) ==> now[i] == was[i])
  }

  lemma PairsWrittenStep(was: seq<PatchLine>, before: seq<PatchLine>, now: seq<PatchLine>,
                         pairs: map<int, int>, done: set<int>, r: int)
    requires done <= pairs.Keys && r in pairs && r !in done && |now| == |was|
    requires forall i :: i in pairs ==> 0 <= i < |was| && 0 <= pairs[i] < |was|
    requires forall i, j :: i in pairs && j in pairs ==> pairs[i] != j && (pairs[i] == pairs[j] ==> i == j)
    requires PairsWritten(was, before, pairs, done)
    requires now[r] == before[r].(pairContent := before[pairs[r]].content)
    requires now[pairs[r]] == before[pairs[r]].(pairContent := before[r].content)
    requires forall i :: 0 <= i < |was| && i != r && i != pairs[r] ==> now[i] == before[i]
    ensures PairsWritten(was, now, pairs, done + {r})
  {
    assert r !in Image(pairs, done) && pairs[r] !in Image(pairs, done);
    assert before[r] == was[r] && before[pairs[r]] == was[pairs[r]];
    assert Image(pairs, done + {r}) == Image(pairs, done) + {pairs[r]};
  }

  method WritePairs(lines: array<PatchLine>, pairs: map<int, int>)
    requires forall r :: r in pairs ==> 0 <= r < lines.Length && 0 <= pairs[r] < lines.Length
    requires forall r, s :: r in pairs && s in pairs ==> pairs[r] != s && (pairs[r] == pairs[s] ==> r == s)
    modifies lines
    ensures PairsWritten(old(lines[..]), lines[..], pairs, pairs.Keys)
  {
    ghost var was := lines[..];
    var todo: set<int> := pairs.Keys;
    NoneLeft(pairs.Keys);
    while todo != {}
      invariant todo <= pairs.Keys && PairsWritten(was, lines[..], pairs, pairs.Keys - todo)
      decreases |todo|
    {
      var r := PickOne(todo);
      WriteNextPair(lines, was, pairs, pairs.Keys - todo, r);
      TakeOut(pairs.Keys, todo, r);
      todo := todo - {r};
    }
  }

  method WriteNextPair(lines: array<PatchLine>, ghost was: seq<PatchLine>, pairs: map<int, int>, ghost done: set<int>,
                       r: int)
    requires |was| == lines.Length && forall i :: i in pairs ==> 0 <= i < |was| && 0 <= pairs[i] < |was|
    requires forall i, j :: i in pairs && j in pairs ==> pairs[i] != j && (pairs[i] == pairs[j] ==> i == j)
    requires done <= pairs.Keys && r in pairs && r !in done && PairsWritten(was, lines[..], pairs, done)
    modifies lines
    ensures PairsWritten(was, lines[..], pairs, done + {r})
  {
    ghost var before := lines[..];
    WritePair(lines, r, pairs[r]);
    PairsWrittenStep(was, before, lines[..], pairs, done, r);
  }

  method WritePair(lines: array<PatchLine>, r: int, a: int)
    requires 0 <= r < lines.Length && 0 <= a < lines.Length && r != a
    modifies lines
    ensures lines[r] == old(lines[r]).(pairContent := old(lines[a]).content)
    ensures lines[a] == old(lines[a]).(pairContent := old(lines[r]).content)
    ensures forall i :: 0 <= i < lines.Length && i != r && i != a ==> lines[i] == old(lines[i])
  {
    lines[r] := lines[r].(pairContent := lines[a].content);
    lines[a] := lines[a].(pairContent := lines[r].content);
  }

  /** No block lies on both sides of position `i`. */
  ghost predicate Boundary(lines: seq<PatchLine>, i: int) {
    forall lo, mid, hi :: Block(lines, lo, mid, hi) ==> hi <= i || i <= lo
  }

  lemma OutsideBlocks(lines: seq<PatchLine>, i: int, score: Score)
    requires 0 <= i < |lines| && Boundary(lines, i) && !lines[i].kind.Removed?
    ensures Boundary(lines, i + 1) && PairedLine(lines, i, score) == lines[i]
  {
  }

  lemma BlockStep(lines: seq<PatchLine>, lo: int, mid: int, hi: int)
    requires Block(lines, lo, mid, hi) && Boundary(lines, lo)
    ensures Boundary(lines, hi)
    ensures hi < |lines| && lines[hi].kind.Removed? ==> !lines[hi - 1].kind.Removed?
  {
    forall lo', mid', hi' | Block(lines, lo', mid', hi')
      ensures hi' <= hi || hi <= lo'
    {
      if lo <= lo' < hi {
        SameBlock(lines, lo, mid, hi, lo', mid', hi', lo');
      }
    }
    assert lines[hi - 1].kind.Removed? ==> hi == mid;
  }

  /** The map computed for a block names exactly the partners of its lines. */
  lemma BlockPartners(lines: seq<PatchLine>, lo: int, mid: int, hi: int, pairs: map<int, int>, i: int, p: int,
                      score: Score)
    requires Block(lines, lo, mid, hi) && lo <= i < hi
    requires forall r, a :: (r in pairs && pairs[r] == a) <==> Mutual(lines, lo, mid, hi, r, a, score)
    ensures Partner(lines, i, p, score) <==> (i in pairs && pairs[i] == p) || (p in pairs && pairs[p] == i)
  {
    PairedInBlock(lines, lo, mid, hi, i, i, p, score);
    PairedInBlock(lines, lo, mid, hi, i, p, i, score);
  }

  lemma BlockIsPaired(was: seq<PatchLine>, before: seq<PatchLine>, now: seq<PatchLine>, lo: int, mid: int, hi: int,
                      pairs: map<int, int>, i: int, score: Score)
    requires Block(was, lo, mid, hi) && lo <= i < hi && |before| == |was|
    requires forall k :: lo <= k < hi ==> before[k] == was[k]
    requires forall r :: r in pairs ==> lo <= r < hi && lo <= pairs[r] < hi
    requires PairsWritten(before, now, pairs, pairs.Keys)
    requires forall r, a :: (r in pairs && pairs[r] == a) <==> Mutual(was, lo, mid, hi, r, a, score)
    ensures now[i] == PairedLine(was, i, score)
  {
    if i in pairs {
      BlockPartners(was, lo, mid, hi, pairs, i, pairs[i], score);
      PairedLineOf(was, i, pairs[i], score);
    } else if r :| r in pairs && pairs[r] == i {
      BlockPartners(was, lo, mid, hi, pairs, i, r, score);
      PairedLineOf(was, i, r, score);
    } else {
      forall p
        ensures !Partner(was, i, p, score)
      {
        BlockPartners(was, lo, mid, hi, pairs, i, p, score);
      }
    }
  }

  lemma SameMutual(xs: seq<PatchLine>, ys: seq<PatchLine>, lo: int, mid: int, hi: int, score: Score)
    requires |xs| == |ys| && 0 <= lo <= mid <= hi <= |xs|
    requires forall k :: lo <= k < hi ==> xs[k] == ys[k]
    ensures forall r, a :: Mutual(xs, lo, mid, hi, r, a, score) <==> Mutual(ys, lo, mid, hi, r, a, score)
  {
  }

  /** What one pass has settled: everything before `i` is final, the rest is untouched. */
  ghost predicate SettledTo(was: seq<PatchLine>, now: seq<PatchLine>, i: int, score: Score) {
    |now| == |was| && 0 <= i <= |was| && Boundary(was, i) &&
    (0 < i < |was| && was[i].kind.Removed? ==> !was[i - 1].kind.Removed?) &&
    (forall k :: 0 <= k < i ==> now[k] == PairedLine(was, k, score)) &&
    (forall k :: i <= k < |was| ==> now[k] == was[k])
  }

  lemma SettleBlock(was: seq<PatchLine>, before: seq<PatchLine>, now: seq<PatchLine>, lo: int, mid: int, hi: int,
                    pairs: map<int, int>, score: Score)
    requires SettledTo(was, before, lo, score) && Block(was, lo, mid, hi)
    requires forall r :: r in pairs ==> lo <= r < hi && lo <= pairs[r] < hi
    requires PairsWritten(before, now, pairs, pairs.Keys)
    requires forall r, a :: (r in pairs && pairs[r] == a) <==> Mutual(was, lo, mid, hi, r, a, score)
    ensures SettledTo(was, now, hi, score)
  {
    BlockStep(was, lo, mid, hi);
    InsideIsPaired(was, before, now, lo, mid, hi, pairs, score);
    OutsideIsUntouched(before, now, lo, hi, pairs);
  }

  lemma InsideIsPaired(was: seq<PatchLine>, before: seq<PatchLine>, now: seq<PatchLine>, lo: int, mid: int, hi: int,
                       pairs: map<int, int>, score: Score)
    requires SettledTo(was, before, lo, score) && Block(was, lo, mid, hi)
    requires forall r :: r in pairs ==> lo <= r < hi && lo <= pairs[r] < hi
    requires PairsWritten(before, now, pairs, pairs.Keys)
    requires forall r, a :: (r in pairs && pairs[r] == a) <==> Mutual(was, lo, mid, hi, r, a, score)
    ensures forall i :: lo <= i < hi ==> now[i] == PairedLine(was, i, score)
  {
    forall i | lo <= i < hi
      ensures now[i] == PairedLine(was, i, score)
    {
      BlockIsPaired(was, before, now, lo, mid, hi, pairs, i, score);
    }
  }

  lemma OutsideIsUntouched(before: seq<PatchLine>, now: seq<PatchLine>, lo: int, hi: int, pairs: map<int, int>)
    requires 0 <= lo <= hi <= |before| && forall r :: r in pairs ==> lo <= r < hi && lo <= pairs[r] < hi
    requires PairsWritten(before, now, pairs, pairs.Keys)
    ensures |now| == |before| && forall i :: 0 <= i < |before| && !(lo <= i < hi) ==> now[i] == before[i]
  {
    assert forall i :: 0 <= i < |before| && !(lo <= i < hi) ==> i !in Image(pairs, pairs.Keys);
  }

  method PairBlock(lines: array<PatchLine>, lo: int, ghost was: seq<PatchLine>, score: Score) returns (hi: int)
    requires SettledTo(was, lines[..], lo, score) && Symmetric(score)
    requires lo < lines.Length && was[lo].kind.Removed?
    modifies lines
    ensures lo < hi && SettledTo(was, lines[..], hi, score)
  {
    ghost var before := lines[..];
    var mid;
    mid, hi := TailBlock(lines[..], lo, was);
    var pairs := RelatedLinePairs(lines[..], lo, mid, hi, score);
    SameMutual(before, was, lo, mid, hi, score);
    assert forall r :: r in pairs ==> Mutual(was, lo, mid, hi, r, pairs[r], score);
    WritePairs(lines, pairs);
    SettleBlock(was, before, lines[..], lo, mid, hi, pairs, score);
  }

  /** The bounds of the block that starts at `lo`, read from the part not yet paired. */
  method TailBlock(now: seq<PatchLine>, lo: int, ghost was: seq<PatchLine>) returns (mid: int, hi: int)
    requires |now| == |was| && 0 <= lo < |was| && forall k :: lo <= k < |was| ==> now[k] == was[k]
    requires was[lo].kind.Removed? && (lo > 0 ==> !was[lo - 1].kind.Removed?)
    ensures Block(was, lo, mid, hi)
  {
    mid := lo;
    while mid < |now| && now[mid].kind.Removed?
      invariant lo <= mid <= |now| && forall k :: lo <= k < mid ==> now[k].kind.Removed?
    {
      mid := mid + 1;
    }
    hi := mid;
    while hi < |now| && now[hi].kind.Added?
      invariant mid <= hi <= |now| && forall k :: mid <= k < hi ==> now[k].kind.Added?
    {
      hi := hi + 1;
    }
  }

  /** After the pass every line is as PairedLine says, whatever order the pairs were written in. */
  method PairChangedBlocks(lines: array<PatchLine>, score: Score)
    requires Symmetric(score)
    modifies lines
    ensures lines[..] == PairedLines(old(lines[..]), score)
  {
    ghost var was := lines[..];
    var i := 0;
    while i < lines.Length
      invariant SettledTo(was, lines[..], i, score)
    {
      if !lines[i].kind.Removed? {
        OutsideBlocks(was, i, score);
        i := i + 1;
      } else {
        i := PairBlock(lines, i, was, score);
      }
    }
    assert lines[..] == PairedLines(was, score);
  }
}
