/**
 Word tokens and the changed-word computation behind the highlighting of paired diff lines
 (internal/ui/annotation/highlight.go).
 */
module WordDiff {
  import opened Text

  datatype Token = Token(text: string, wordIndex: nat, isWord: bool)

  function TokenText(tokens: seq<Token>): string {
    if tokens == [] then "" else TokenText(tokens[..|tokens| - 1]) + tokens[|tokens| - 1].text
  }

  /** A token is a non-empty run of characters that are all blank or all not blank. */
  predicate IsRun(t: Token) {
    t.text != "" && forall i :: 0 <= i < |t.text| ==> IsSpace(t.text[i]) == !t.isWord
  }

  lemma FieldsOfBlanks(value: string, n: nat, rest: string)
    requires value != "" && IsSpace(value[0]) && n == SpaceRun(value, true) && rest == value[n..]
    ensures n > 0 && Fields(value) == Fields(rest)
  {
    assert SpaceRun(rest, true) == 0;
    assert TrimLeft(value) == rest;
    assert TrimLeft(rest) == rest;
  }

  lemma FieldsOfWord(value: string, n: nat)
    requires value != "" && !IsSpace(value[0]) && n == SpaceRun(value, false)
    ensures n > 0 && Fields(value) == [value[..n]] + Fields(value[n..])
  {
    assert SpaceRun(value, true) == 0;
    assert TrimLeft(value) == value;
  }

  /** The first run of a line is its first word, or nothing. */
  lemma FieldsOfRun(value: string, n: nat, more: seq<string>)
    requires value != "" && n == SpaceRun(value, IsSpace(value[0])) &&
             more == if IsSpace(value[0]) then [] else [value[..n]]
    ensures n > 0 && Fields(value) == more + Fields(value[n..])
  {
    if IsSpace(value[0]) {
      FieldsOfBlanks(value, n, value[n..]);
      Empties(Fields(value[n..]));
    } else {
      FieldsOfWord(value, n);
    }
  }

  /** Blank runs and words alternate, and the word tokens are `words`, numbered in order. */
  ghost predicate Tokenized(tokens: seq<Token>, words: seq<string>) {
    if tokens == [] then words == []
    else
      var n, w := |tokens| - 1, |words| - 1;
      var t := tokens[n];
      IsRun(t) && (n > 0 ==> tokens[n - 1].isWord != t.isWord) &&
      if t.isWord then w >= 0 && t.wordIndex == w && words[w] == t.text && Tokenized(tokens[..n], words[..w])
      else Tokenized(tokens[..n], words)
  }

  lemma TokenizedSnoc(tokens: seq<Token>, words: seq<string>, t: Token, more: seq<string>)
    requires Tokenized(tokens, words) && IsRun(t)
    requires tokens != [] ==> tokens[|tokens| - 1].isWord != t.isWord
    requires if t.isWord then t.wordIndex == |words| && more == [t.text] else more == []
    ensures Tokenized(tokens + [t], words + more)
    ensures TokenText(tokens + [t]) == TokenText(tokens) + t.text
  {
    assert (tokens + [t])[..|tokens|] == tokens;
    assert (words + more)[..|words|] == words;
    assert more == [] ==> words + more == words;
  }

  lemma RunIs(s: string, space: bool, n: nat)
    requires n <= |s| && (n < |s| ==> IsSpace(s[n]) != space)
    requires forall i :: 0 <= i < n ==> IsSpace(s[i]) == space
    ensures n == SpaceRun(s, space)
  {
  }

  lemma RunOf(s: string, n: nat, t: Token)
    requires 0 < n <= |s| && t.text == s[..n]
    requires forall i :: 0 <= i < n ==> IsSpace(s[i]) == !t.isWord
    ensures IsRun(t)
  {
    assert forall i :: 0 <= i < n ==> t.text[i] == s[i];
  }

  /**
   The first run of a non-empty line, found by scanning for the first change of class; `more` is its word, if it is one.
   */
  method NextToken(rest: string, wordCount: nat) returns (token: Token, after: string, more: seq<string>)
    requires rest != ""
    ensures rest == token.text + after && |after| < |rest| && IsRun(token)
    ensures token.isWord == !IsSpace(rest[0]) && (token.isWord ==> token.wordIndex == wordCount)
    ensures after != "" ==> IsSpace(after[0]) == token.isWord
    ensures more == (if token.isWord then [token.text] else []) && Fields(rest) == more + Fields(after)
  {
    var whitespace := IsSpace(rest[0]);
    var end := 0;
    while end < |rest| && IsSpace(rest[end]) == whitespace
      invariant 0 <= end <= |rest|
      invariant forall i :: 0 <= i < end ==> IsSpace(rest[i]) == whitespace
    {
      end := end + 1;
    }
    RunIs(rest, whitespace, end);
    token := Token(rest[..end], if whitespace then 0 else wordCount, !whitespace);
    after, more := rest[end..], if whitespace then [] else [rest[..end]];
    FieldsOfRun(rest, end, more);
    Cut(rest, end);
    RunOf(rest, end, token);
  }

  /** How far splitting has come: what is cut off, what its words are, and where the next run starts. */
  ghost predicate SplitSoFar(value: string, tokens: seq<Token>, words: seq<string>, rest: string) {
    TokenText(tokens) + rest == value && words + Fields(rest) == Fields(value) && Tokenized(tokens, words) &&
    (tokens != [] && rest != "" ==> IsSpace(rest[0]) == tokens[|tokens| - 1].isWord)
  }

  lemma SplitStep(value: string, tokens: seq<Token>, words: seq<string>, rest: string, token: Token, after: string,
                  more: seq<string>)
    requires SplitSoFar(value, tokens, words, rest) && rest != "" && IsRun(token) && rest == token.text + after
    requires token.isWord == !IsSpace(rest[0]) && (token.isWord ==> token.wordIndex == |words|)
    requires after != "" ==> IsSpace(after[0]) == token.isWord
    requires more == (if token.isWord then [token.text] else []) && Fields(rest) == more + Fields(after)
    ensures SplitSoFar(value, tokens + [token], words + more, after)
  {
    TokenizedSnoc(tokens, words, token, more);
    Regroup(TokenText(tokens), token.text, after);
    Regroup(words, more, Fields(after));
  }

  lemma SplitStart(value: string)
    ensures SplitSoFar(value, [], [], value)
  {
    Empties(value);
    Empties(Fields(value));
  }

  /** One more token off the front. */
  method TakeToken(ghost value: string, tokens: seq<Token>, words: seq<string>, rest: string)
      returns (tokens': seq<Token>, words': seq<string>, rest': string)
    requires SplitSoFar(value, tokens, words, rest) && |rest| > 0
    ensures SplitSoFar(value, tokens', words', rest') && |rest'| < |rest|
  {
    var token, after, more := NextToken(rest, |words|);
    SplitStep(value, tokens, words, rest, token, after, more);
    tokens', words', rest' := tokens + [token], words + more, after;
  }

  /** Splits a line into maximal runs of blanks and words; the words are those of strings.Fields. */
  method SplitWordTokens(value: string) returns (tokens: seq<Token>, words: seq<string>)
    ensures TokenText(tokens) == value
    ensures words == Fields(value)
    ensures Tokenized(tokens, words)
  {
    tokens, words := [], [];
    var rest := value;
    SplitStart(value);
    while |rest| > 0
      invariant SplitSoFar(value, tokens, words, rest)
      decreases |rest|
    {
      tokens, words, rest := TakeToken(value, tokens, words, rest);
    }
    Empties(TokenText(tokens));
    Empties(words);
  }

  // ---------- common subsequences ----------

  /** `at` lists increasing positions of `words` that spell `s`. */
  ghost predicate Embeds<T>(s: seq<T>, words: seq<T>, at: seq<int>) {
    |at| == |s| &&
    (forall i {:trigger at[i]} :: 0 <= i < |at| ==> 0 <= at[i] < |words| && words[at[i]] == s[i]) &&
    forall i, j :: 0 <= i < j < |at| ==> at[i] < at[j]
  }

  ghost predicate Subsequence<T>(s: seq<T>, words: seq<T>) {
    exists at :: Embeds(s, words, at)
  }

  /** The recurrence the table is filled with, for the words from position `i` and `j` on. */
  ghost function Common<T>(a: seq<T>, b: seq<T>, i: nat, j: nat): nat
    decreases |a| - i + |b| - j
  {
    if i >= |a| || j >= |b| then 0
    else if a[i] == b[j] then Common(a, b, i + 1, j + 1) + 1
    else Max(Common(a, b, i + 1, j), Common(a, b, i, j + 1))
  }

  /** No common subsequence is longer than the recurrence says. */
  lemma {:induction false} CommonIsUpperBound<T>(s: seq<T>, a: seq<T>, b: seq<T>, f: seq<int>, g: seq<int>,
                                              k: nat, i: nat, j: nat)
    requires Embeds(s, a, f) && Embeds(s, b, g)
    requires k <= |s| && (k < |s| ==> i <= f[k] && j <= g[k])
    ensures |s| - k <= Common(a, b, i, j)
    decreases |a| - i + |b| - j
  {
    if k < |s| {
      assert a[f[k]] == s[k] == b[g[k]];
      if a[i] == b[j] {
        CommonIsUpperBound(s, a, b, f, g, k + 1, i + 1, j + 1);
      } else if f[k] > i {
        CommonIsUpperBound(s, a, b, f, g, k, i + 1, j);
      } else {
        CommonIsUpperBound(s, a, b, f, g, k, i, j + 1);
      }
    }
  }

  /** The words among the first `n` whose mark is clear. */
  ghost function Kept<T>(words: seq<T>, changed: seq<bool>, n: nat): seq<T>
    requires n <= |words| == |changed|
  {
    if n == 0 then [] else Kept(words, changed, n - 1) + (if changed[n - 1] then [] else [words[n - 1]])
  }

  lemma EmbedsSnoc<T>(s: seq<T>, words: seq<T>, at: seq<int>, p: nat)
    requires Embeds(s, words, at) && p < |words| && forall k :: 0 <= k < |at| ==> at[k] < p
    ensures Embeds(s + [words[p]], words, at + [p])
  {
  }

  lemma {:induction false} KeptIsSubsequence<T>(words: seq<T>, changed: seq<bool>, n: nat) returns (at: seq<int>)
    requires n <= |words| == |changed|
    ensures Embeds(Kept(words, changed, n), words, at)
    ensures forall k :: 0 <= k < |at| ==> at[k] < n
  {
    if n == 0 {
      at := [];
    } else {
      at := KeptIsSubsequence(words, changed, n - 1);
      if changed[n - 1] {
        assert Kept(words, changed, n) == Kept(words, changed, n - 1);
      } else {
        EmbedsSnoc(Kept(words, changed, n - 1), words, at, n - 1);
        at := at + [n - 1];
      }
    }
  }

  lemma {:induction false} KeptFrame<T>(words: seq<T>, xs: seq<bool>, ys: seq<bool>, n: nat)
    requires n <= |words| == |xs| == |ys| && forall k :: 0 <= k < n ==> xs[k] == ys[k]
    ensures Kept(words, xs, n) == Kept(words, ys, n)
  {
    if n > 0 { KeptFrame(words, xs, ys, n - 1); }
  }

  lemma {:induction false} KeptAllChanged<T>(words: seq<T>, changed: seq<bool>, n: nat, m: nat)
    requires n <= m <= |words| == |changed|
    requires forall k :: n <= k < m ==> changed[k]
    ensures Kept(words, changed, m) == Kept(words, changed, n)
  {
    if n < m { KeptAllChanged(words, changed, n, m - 1); }
  }

  const PRODUCT_CUTOFF := 10000

  /** What the marks promise: the unmarked words are one longest common subsequence of both lines. */
  ghost predicate MarksLongestCommon<T(!new)>(a: seq<T>, b: seq<T>, ca: seq<bool>, cb: seq<bool>) {
    |ca| == |a| && |cb| == |b| &&
    Kept(a, ca, |a|) == Kept(b, cb, |b|) &&
    Subsequence(Kept(a, ca, |a|), a) && Subsequence(Kept(a, ca, |a|), b) &&
    forall s :: Subsequence(s, a) && Subsequence(s, b) ==> |s| <= |Kept(a, ca, |a|)|
  }

  lemma CommonLengthIsLongest<T(!new)>(a: seq<T>, b: seq<T>, ca: seq<bool>, cb: seq<bool>)
    requires |ca| == |a| && |cb| == |b|
    requires Kept(a, ca, |a|) == Kept(b, cb, |b|) && |Kept(a, ca, |a|)| == Common(a, b, 0, 0)
    ensures MarksLongestCommon(a, b, ca, cb)
  {
    var f := KeptIsSubsequence(a, ca, |a|);
    var g := KeptIsSubsequence(b, cb, |b|);
    forall s | Subsequence(s, a) && Subsequence(s, b)
      ensures |s| <= |Kept(a, ca, |a|)|
    {
      var f' :| Embeds(s, a, f');
      var g' :| Embeds(s, b, g');
      CommonIsUpperBound(s, a, b, f', g', 0, 0, 0);
    }
  }

  method AllChanged(length: nat) returns (result: seq<bool>)
    ensures |result| == length && forall k :: 0 <= k < length ==> result[k]
  {
    result := [];
    for i := 0 to length
      invariant |result| == i && forall k :: 0 <= k < i ==> result[k]
    {
      result := result + [true];
    }
  }

  method FillTable<T(==)>(a: seq<T>, b: seq<T>) returns (common: array2<nat>)
    ensures fresh(common) && common.Length0 == |a| + 1 && common.Length1 == |b| + 1
    ensures forall i, j {:trigger common[i, j]} :: 0 <= i <= |a| && 0 <= j <= |b| ==> common[i, j] == Common(a, b, i, j)
  {
    common := new nat[|a| + 1, |b| + 1]((i, j) => 0);
    var i := |a|;
    while i > 0
      invariant 0 <= i <= |a|
      invariant forall x, y {:trigger common[x, y]} ::
                  i <= x <= |a| && 0 <= y <= |b| ==> common[x, y] == Common(a, b, x, y)
      invariant forall x :: 0 <= x < i ==> common[x, |b|] == 0
    {
      i := i - 1;
      var j := |b|;
      while j > 0
        invariant 0 <= j <= |b|
        invariant forall x, y {:trigger common[x, y]} ::
                    i < x <= |a| && 0 <= y <= |b| ==> common[x, y] == Common(a, b, x, y)
        invariant forall y {:trigger common[i, y]} :: j <= y <= |b| ==> common[i, y] == Common(a, b, i, y)
        invariant forall x :: 0 <= x < i ==> common[x, |b|] == 0
      {
        j := j - 1;
        common[i, j] := if a[i] == b[j] then common[i + 1, j + 1] + 1
                        else Max(common[i + 1, j], common[i, j + 1]);
      }
    }
  }

  /** How far the walk has come: equal words kept on both sides, and no chance of a longest one lost. */
  ghost predicate WalkInvariant<T>(a: seq<T>, b: seq<T>, ca: seq<bool>, cb: seq<bool>, i: nat, j: nat) {
    i <= |a| == |ca| && j <= |b| == |cb| &&
    (forall k :: i <= k < |a| ==> ca[k]) && (forall k :: j <= k < |b| ==> cb[k]) &&
    Kept(a, ca, i) == Kept(b, cb, j) && |Kept(a, ca, i)| + Common(a, b, i, j) == Common(a, b, 0, 0)
  }

  lemma WalkKeepsBoth<T>(a: seq<T>, b: seq<T>, ca: seq<bool>, cb: seq<bool>, i: nat, j: nat)
    requires WalkInvariant(a, b, ca, cb, i, j) && i < |a| && j < |b| && a[i] == b[j]
    ensures WalkInvariant(a, b, ca[i := false], cb[j := false], i + 1, j + 1)
  {
    KeptFrame(a, ca, ca[i := false], i);
    KeptFrame(b, cb, cb[j := false], j);
  }

  lemma WalkSkips<T>(a: seq<T>, b: seq<T>, ca: seq<bool>, cb: seq<bool>, i: nat, j: nat)
    requires WalkInvariant(a, b, ca, cb, i, j) && i < |a| && j < |b| && a[i] != b[j]
    ensures Common(a, b, i + 1, j) >= Common(a, b, i, j + 1) ==> WalkInvariant(a, b, ca, cb, i + 1, j)
    ensures Common(a, b, i + 1, j) < Common(a, b, i, j + 1) ==> WalkInvariant(a, b, ca, cb, i, j + 1)
  {
    assert Kept(a, ca, i + 1) == Kept(a, ca, i) && Kept(b, cb, j + 1) == Kept(b, cb, j);
  }

  /**
   Marks the changed words of two lines.  Over the cutoff everything is marked; otherwise the
   unmarked words are a longest common subsequence.
   */
  method ChangedWordPositions<T(==,!new)>(a: seq<T>, b: seq<T>) returns (ca: seq<bool>, cb: seq<bool>)
    ensures |ca| == |a| && |cb| == |b|
    ensures |a| * |b| > 10000 ==> (forall k :: 0 <= k < |a| ==> ca[k]) && (forall k :: 0 <= k < |b| ==> cb[k])
    ensures |a| * |b| <= 10000 ==> MarksLongestCommon(a, b, ca, cb)
  {
    ca := AllChanged(|a|);
    cb := AllChanged(|b|);
    if |a| * |b| > PRODUCT_CUTOFF {
      return;
    }
    var common := FillTable(a, b);
    var i, j := 0, 0;
    while i < |a| && j < |b|
      invariant WalkInvariant(a, b, ca, cb, i, j)
      invariant forall x, y {:trigger common[x, y]} ::
                  0 <= x <= |a| && 0 <= y <= |b| ==> common[x, y] == Common(a, b, x, y)
      decreases |a| - i + |b| - j
    {
      if a[i] == b[j] {
        WalkKeepsBoth(a, b, ca, cb, i, j);
        ca, cb := ca[i := false], cb[j := false];
        i, j := i + 1, j + 1;
      } else if common[i + 1, j] >= common[i, j + 1] {
        WalkSkips(a, b, ca, cb, i, j);
        i := i + 1;
      } else {
        WalkSkips(a, b, ca, cb, i, j);
        j := j + 1;
      }
    }
    KeptAllChanged(a, ca, i, |a|);
    KeptAllChanged(b, cb, j, |b|);
    CommonLengthIsLongest(a, b, ca, cb);
  }
}
