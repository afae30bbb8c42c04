/** The names of the Git remotes as `jj git remote list` prints them (internal/jj/remote_parser.go). */
module RemoteList {
  import opened Text

  /** The first word of a line that is not blank. */
  function FirstWord(whole: string): seq<string> {
    var line := Trim(whole);
    if line == "" then [] else (FirstField(line, whole); [Fields(line)[0]])
  }

  /** `f` of each of the first `n` elements, one after the other. */
  function Collected<A, B>(f: A -> seq<B>, xs: seq<A>, n: nat): seq<B>
    requires n <= |xs|
  {
    if n == 0 then [] else Collected(f, xs, n - 1) + f(xs[n - 1])
  }

  lemma FirstField(line: string, whole: string)
    requires line == Trim(whole) && line != ""
    ensures |Fields(line)| > 0 && Fields(line)[0] != ""
  {
    var t := TrimLeft(whole);
    assert line <= t && !IsSpace(t[0]);
    assert line[0] == t[0];
    assert TrimLeft(line) == line;
  }

  /** `x` moved to the front, if it is there. */
  function ToFront<T(==)>(xs: seq<T>, x: T): seq<T> {
    var i := FirstIndex(xs, x);
    if i < |xs| then [x] + (xs[..i] + xs[i + 1..]) else xs
  }

  function FirstIndex<T(==)>(xs: seq<T>, x: T): (i: nat)
    ensures i <= |xs| && x !in xs[..i] && (i < |xs| ==> xs[i] == x)
  {
    if xs == [] || xs[0] == x then 0
    else
      var i := FirstIndex(xs[1..], x);
      assert xs[..1 + i] == [xs[0]] + xs[1..][..i];
      1 + i
  }

  lemma SameMultiset<T>(xs: seq<T>, a: seq<T>, x: T, b: seq<T>)
    requires xs == a + ([x] + b)
    ensures multiset([x] + (a + b)) == multiset(xs)
  {
  }

  lemma CutAround<T>(xs: seq<T>, i: nat)
    requires i < |xs|
    ensures xs == xs[..i] + ([xs[i]] + xs[i + 1..])
  {
  }

  /** Moving to the front neither adds nor loses anything. */
  lemma ToFrontKeeps<T>(xs: seq<T>, x: T)
    ensures multiset(ToFront(xs, x)) == multiset(xs) && (x in xs ==> ToFront(xs, x)[0] == x)
  {
    var i := FirstIndex(xs, x);
    if i < |xs| {
      CutAround(xs, i);
      SameMultiset(xs, xs[..i], x, xs[i + 1..]);
    } else {
      Empties(xs);
    }
  }

  function RemoteNames(output: string, preferred: string): seq<string> {
    var lines := SplitOn(Trim(output), '\n');
    ToFront(Collected(FirstWord, lines, |lines|), preferred)
  }

  lemma WordAdded(line: string, name: string)
    requires name == Trim(line)
    ensures name == "" ==> FirstWord(line) == []
    ensures name != "" ==> |Fields(name)| > 0 && FirstWord(line) == [Fields(name)[0]]
  {
    if name != "" { FirstField(name, line); }
  }

  method ParseRemoteListOutput(output: string, preferred: string) returns (remotes: seq<string>)
    ensures remotes == RemoteNames(output, preferred)
  {
    remotes := [];
    var lines := SplitOn(Trim(output), '\n');
    for k := 0 to |lines|
      invariant remotes == Collected(FirstWord, lines, k)
    {
      var name := Trim(lines[k]);
      WordAdded(lines[k], name);
      if name != "" { remotes := remotes + [Fields(name)[0]]; } else { Empties(remotes); }
    }
    remotes := ToFront(remotes, preferred);
  }

  predicate NoneEmpty<T>(xs: seq<seq<T>>) { forall i :: 0 <= i < |xs| ==> |xs[i]| > 0 }

  lemma {:induction false} CollectedNonEmpty<A, T>(f: A -> seq<seq<T>>, xs: seq<A>, n: nat)
    requires n <= |xs| && forall i :: 0 <= i < |xs| ==> NoneEmpty(f(xs[i]))
    ensures NoneEmpty(Collected(f, xs, n))
  {
    if n > 0 { CollectedNonEmpty(f, xs, n - 1); }
  }

  lemma WordIsName(line: string)
    ensures NoneEmpty(FirstWord(line))
  {
    WordAdded(line, Trim(line));
    if Trim(line) != "" { FirstField(Trim(line), line); }
  }

  lemma SameNonEmpty<T>(xs: seq<seq<T>>, ys: seq<seq<T>>)
    requires multiset(xs) == multiset(ys) && NoneEmpty(ys)
    ensures NoneEmpty(xs)
  {
    forall i | 0 <= i < |xs| ensures |xs[i]| > 0 {
      assert xs[i] in multiset(xs) && xs[i] in multiset(ys);
    }
  }

  /** Whatever is printed, every remote has a name. */
  lemma RemotesHaveNames(output: string, preferred: string)
    ensures NoneEmpty(RemoteNames(output, preferred))
  {
    var lines := SplitOn(Trim(output), '\n');
    var words := Collected(FirstWord, lines, |lines|);
    forall i | 0 <= i < |lines| ensures NoneEmpty(FirstWord(lines[i])) { WordIsName(lines[i]); }
    CollectedNonEmpty(FirstWord, lines, |lines|);
    ToFrontKeeps(words, preferred);
    SameNonEmpty(ToFront(words, preferred), words);
  }
}
