/**
 The string operations of Go's standard library that the modelled code calls: white space,
 Split, Fields, TrimSpace, Itoa and Atoi.  Strings are sequences of Unicode characters.
 */
module Text {

  datatype Option<+T> = None | Some(value: T)

  function Max(a: int, b: int): (m: int)
    ensures m >= a && m >= b && (m == a || m == b)
  {
    if a >= b then a else b
  }

  function Min(a: int, b: int): (m: int)
    ensures m <= a && m <= b && (m == a || m == b)
  {
    if a <= b then a else b
  }

  lemma Regroup<T>(a: seq<T>, b: seq<T>, c: seq<T>)
    ensures a + (b + c) == (a + b) + c
  {
  }

  lemma Cut<T>(s: seq<T>, n: nat)
    requires n <= |s|
    ensures s == s[..n] + s[n..]
  {
  }

  lemma SameElements<T>(a: seq<T>, b: seq<T>)
    requires |a| == |b| && forall k :: 0 <= k < |a| ==> a[k] == b[k]
    ensures a == b
  {
  }

  lemma CutLast<T>(s: seq<T>, t: seq<T>)
    requires t != []
    ensures s + t == (s + t[..|t| - 1]) + [t[|t| - 1]]
  {
  }

  lemma ThreeHeads<T>(a: T, b: T, c: T, rest: seq<T>)
    ensures [a] + ([b] + ([c] + rest)) == [a, b, c] + rest
  {
  }

  lemma Empties<T>(s: seq<T>)
    ensures s + [] == s && [] + s == s && s[..|s|] == s
  {
  }

  lemma TakeSnoc<T>(s: seq<T>, i: nat)
    requires i < |s|
    ensures s[..i] + [s[i]] == s[..i + 1]
  {
  }

  predicate EndsWith<T(==)>(s: seq<T>, end: seq<T>) { |end| <= |s| && s[|s| - |end|..] == end }

  lemma SuffixSnoc<T>(s: seq<T>, end: seq<T>, x: T)
    requires EndsWith(s, end)
    ensures EndsWith(s + [x], end + [x]) && EndsWith(s + [x], []) && EndsWith(s, [])
  {
  }

  /** Left fold: a loop that feeds `xs` one by one to a state machine. */
  function Fold<S, X>(f: (S, X) -> S, s: S, xs: seq<X>): S {
    if xs == [] then s else f(Fold(f, s, xs[..|xs| - 1]), xs[|xs| - 1])
  }

  lemma FoldSnoc<S, X>(f: (S, X) -> S, s: S, xs: seq<X>, x: X)
    ensures Fold(f, s, xs + [x]) == f(Fold(f, s, xs), x)
  {
    assert (xs + [x])[..|xs|] == xs;
  }

  lemma FoldOne<S, X>(f: (S, X) -> S, s: S, x: X)
    ensures Fold(f, s, [x]) == f(s, x)
  {
    assert [x][..0] == [];
  }

  lemma {:induction false} FoldAppend<S, X>(f: (S, X) -> S, s: S, xs: seq<X>, ys: seq<X>)
    ensures Fold(f, s, xs + ys) == Fold(f, Fold(f, s, xs), ys)
  {
    if ys == [] {
      Empties(xs);
    } else {
      var n := |ys| - 1;
      FoldAppend(f, s, xs, ys[..n]);
      CutLast(xs, ys);
      FoldSnoc(f, s, xs + ys[..n], ys[n]);
    }
  }

  /** The concatenation of the first `k` pieces. */
  function Flat<T>(pieces: seq<seq<T>>, k: nat): seq<T>
    requires k <= |pieces|
  {
    if k == 0 then [] else Flat(pieces, k - 1) + pieces[k - 1]
  }

  /** If each piece adds one result, whatever state it starts in, the concatenation adds them all in order. */
  lemma {:induction false} FoldFlat<S(!new), X, R>(f: (S, X) -> S, out: S -> seq<R>, s: S, pieces: seq<seq<X>>,
                                                   results: seq<R>, k: nat)
    requires k <= |pieces| == |results| && out(s) == []
    requires forall i, t {:trigger Fold(f, t, pieces[i])} ::
               0 <= i < |pieces| ==> out(Fold(f, t, pieces[i])) == out(t) + [results[i]]
    ensures out(Fold(f, s, Flat(pieces, k))) == results[..k]
  {
    if k > 0 {
      FoldFlat(f, out, s, pieces, results, k - 1);
      FoldAppend(f, s, Flat(pieces, k - 1), pieces[k - 1]);
      TakeSnoc(results, k - 1);
    }
  }

  /** The same when a piece adds several results and only states satisfying `ok` are considered. */
  lemma {:induction false} FoldPieces<S(!new), X, R, A>(f: (S, X) -> S, ok: S -> bool, frame: S -> A, out: S -> seq<R>,
                                                        s: S, pieces: seq<seq<X>>, results: seq<seq<R>>, k: nat)
    requires k <= |pieces| == |results| && ok(s)
    requires forall i, t {:trigger Fold(f, t, pieces[i])} :: 0 <= i < |pieces| && ok(t) ==>
               ok(Fold(f, t, pieces[i])) && frame(Fold(f, t, pieces[i])) == frame(t) &&
               out(Fold(f, t, pieces[i])) == out(t) + results[i]
    ensures ok(Fold(f, s, Flat(pieces, k))) && frame(Fold(f, s, Flat(pieces, k))) == frame(s)
    ensures out(Fold(f, s, Flat(pieces, k))) == out(s) + Flat(results, k)
  {
    if k == 0 {
      Empties(out(s));
    } else {
      FoldPieces(f, ok, frame, out, s, pieces, results, k - 1);
      FoldAppend(f, s, Flat(pieces, k - 1), pieces[k - 1]);
      Regroup(out(s), Flat(results, k - 1), results[k - 1]);
    }
  }

  ghost predicate IsTrace<W, E>(step: (W, E, W) -> bool, ws: seq<W>, es: seq<E>) {
    |ws| == |es| + 1 && forall k {:trigger es[k]} :: 0 <= k < |es| ==> step(ws[k], es[k], ws[k + 1])
  }

  /** A run can be extended by a step from its last moment. */
  lemma TraceSnoc<W, E>(step: (W, E, W) -> bool, ws: seq<W>, es: seq<E>, e: E, w: W)
    requires IsTrace(step, ws, es) && step(ws[|es|], e, w)
    ensures IsTrace(step, ws + [w], es + [e]) && (ws + [w])[0] == ws[0]
  {
    forall k | 0 <= k < |es| + 1 ensures step((ws + [w])[k], (es + [e])[k], (ws + [w])[k + 1]) {
      if k < |es| { assert step(ws[k], es[k], ws[k + 1]); }
    }
  }

  /** A relation that every step extends holds between any two moments of a run. */
  lemma {:induction false} Chain<W(!new), E(!new)>(rel: (W, W) -> bool, step: (W, E, W) -> bool, ws: seq<W>, es: seq<E>,
                                                   i: nat, j: nat)
    requires IsTrace(step, ws, es) && i <= j <= |es|
    requires forall a :: rel(a, a)
    requires forall a, b, e, c {:trigger rel(a, b), step(b, e, c)} :: rel(a, b) && step(b, e, c) ==> rel(a, c)
    ensures rel(ws[i], ws[j])
    decreases j
  {
    if i < j {
      Chain(rel, step, ws, es, i, j - 1);
      assert step(ws[j - 1], es[j - 1], ws[j]);
    }
  }

  ghost predicate All<T>(p: T -> bool, xs: seq<T>) {
    forall i :: 0 <= i < |xs| ==> p(xs[i])
  }

  lemma AllAppend<T>(p: T -> bool, xs: seq<T>, ys: seq<T>)
    requires All(p, xs) && All(p, ys)
    ensures All(p, xs + ys)
  {
  }

  lemma {:induction false} AllFlat<T>(p: T -> bool, pieces: seq<seq<T>>, k: nat)
    requires k <= |pieces| && forall i :: 0 <= i < |pieces| ==> All(p, pieces[i])
    ensures All(p, Flat(pieces, k))
  {
    if k > 0 {
      AllFlat(p, pieces, k - 1);
      AllAppend(p, Flat(pieces, k - 1), pieces[k - 1]);
    }
  }

  /** The elements satisfying `p`, in order. */
  function Filter<T>(p: T -> bool, xs: seq<T>): seq<T> {
    if xs == [] then [] else Filter(p, xs[..|xs| - 1]) + if p(xs[|xs| - 1]) then [xs[|xs| - 1]] else []
  }

  lemma {:induction false} FilterMembers<T>(p: T -> bool, xs: seq<T>, x: T)
    ensures x in Filter(p, xs) <==> x in xs && p(x)
  {
    if xs != [] {
      FilterMembers(p, xs[..|xs| - 1], x);
      TakeSnoc(xs, |xs| - 1);
      Empties(xs);
    }
  }

  lemma FilterSnoc<T>(p: T -> bool, xs: seq<T>, i: nat)
    requires i < |xs|
    ensures Filter(p, xs[..i + 1]) == Filter(p, xs[..i]) + if p(xs[i]) then [xs[i]] else []
  {
    assert xs[..i + 1][..i] == xs[..i];
  }

  lemma {:induction false} FilterAgree<T>(p: T -> bool, q: T -> bool, xs: seq<T>)
    requires forall i :: 0 <= i < |xs| ==> p(xs[i]) == q(xs[i])
    ensures Filter(p, xs) == Filter(q, xs)
  {
    if xs != [] { FilterAgree(p, q, xs[..|xs| - 1]); }
  }

  lemma {:induction false} FilterAppend<T>(p: T -> bool, xs: seq<T>, ys: seq<T>)
    ensures Filter(p, xs + ys) == Filter(p, xs) + Filter(p, ys)
  {
    if ys == [] {
      Empties(xs);
      Empties(Filter(p, xs));
    } else {
      var n := |ys| - 1;
      FilterAppend(p, xs, ys[..n]);
      CutLast(xs, ys);
      assert (xs + ys)[..|xs + ys| - 1] == xs + ys[..n];
    }
  }

  lemma FilterOne<T>(p: T -> bool, x: T)
    ensures Filter(p, [x]) == (if p(x) then [x] else []) && Filter(p, []) == []
  {
    assert [x][..0] == [];
  }

  lemma {:induction false} FilterTwice<T>(p: T -> bool, q: T -> bool, both: T -> bool, xs: seq<T>)
    requires forall i :: 0 <= i < |xs| ==> both(xs[i]) == (p(xs[i]) && q(xs[i]))
    ensures Filter(q, Filter(p, xs)) == Filter(both, xs)
  {
    if xs != [] {
      var n := |xs| - 1;
      FilterTwice(p, q, both, xs[..n]);
      FilterAppend(q, Filter(p, xs[..n]), if p(xs[n]) then [xs[n]] else []);
      FilterOne(q, xs[n]);
      Empties(Filter(p, xs[..n]));
      Empties(Filter(both, xs[..n]));
    }
  }

  lemma {:induction false} FilterAll<T>(p: T -> bool, xs: seq<T>)
    requires forall i :: 0 <= i < |xs| ==> p(xs[i])
    ensures Filter(p, xs) == xs
  {
    if xs != [] {
      FilterAll(p, xs[..|xs| - 1]);
      TakeSnoc(xs, |xs| - 1);
      Empties(xs);
    }
  }

  /** All elements but one satisfy `p`. */
  lemma FilterAllBut<T>(p: T -> bool, xs: seq<T>, k: nat)
    requires k < |xs| && forall i :: 0 <= i < |xs| ==> p(xs[i]) == (i != k)
    ensures Filter(p, xs) == xs[..k] + xs[k + 1..]
  {
    FilterAll(p, xs[..k]);
    FilterAll(p, xs[k + 1..]);
    FilterSnoc(p, xs, k);
    Cut(xs, k + 1);
    FilterAppend(p, xs[..k + 1], xs[k + 1..]);
    Empties(xs[..k]);
  }

  /** The pieces between the elements satisfying `cut`; there is always one more piece than cuts. */
  function SplitBy<T>(cut: T -> bool, xs: seq<T>): (pieces: seq<seq<T>>)
    ensures |pieces| >= 1
  {
    if xs == [] then [[]]
    else
      var before, x := SplitBy(cut, xs[..|xs| - 1]), xs[|xs| - 1];
      if cut(x) then before + [[]] else before[..|before| - 1] + [before[|before| - 1] + [x]]
  }

  lemma SplitByCut<T>(cut: T -> bool, xs: seq<T>, x: T)
    requires cut(x)
    ensures SplitBy(cut, xs + [x]) == SplitBy(cut, xs) + [[]]
  {
    assert (xs + [x])[..|xs|] == xs;
  }

  /** Elements without a cut join the last piece. */
  lemma {:induction false} SplitByRun<T>(cut: T -> bool, xs: seq<T>, ys: seq<T>)
    requires forall i :: 0 <= i < |ys| ==> !cut(ys[i])
    ensures var p := SplitBy(cut, xs);
            SplitBy(cut, xs + ys) == p[..|p| - 1] + [p[|p| - 1] + ys]
  {
    var p := SplitBy(cut, xs);
    if ys == [] {
      Empties(xs);
      Empties(p[|p| - 1]);
      TakeSnoc(p, |p| - 1);
      Empties(p);
    } else {
      var n := |ys| - 1;
      SplitByRun(cut, xs, ys[..n]);
      CutLast(xs, ys);
      assert (xs + ys)[..|xs + ys| - 1] == xs + ys[..n];
      CutLast(p[|p| - 1], ys);
    }
  }

  lemma FlatSnoc<T>(p: seq<seq<T>>, piece: seq<T>)
    ensures Flat(p + [piece], |p| + 1) == Flat(p, |p|) + piece
  {
    FlatFrame(p, p + [piece], |p|);
  }

  lemma FlatLastGrows<T>(p: seq<seq<T>>, x: T)
    requires |p| >= 1
    ensures Flat(p[..|p| - 1] + [p[|p| - 1] + [x]], |p|) == Flat(p, |p|) + [x]
  {
    var n := |p| - 1;
    FlatFrame(p, p[..n] + [p[n] + [x]], n);
    Regroup(Flat(p, n), p[n], [x]);
  }

  lemma FlatSplitCut<T>(cut: T -> bool, p: seq<seq<T>>, kept: seq<T>, x: T)
    requires |p| >= 1 && Flat(p, |p|) == kept
    ensures var q := if cut(x) then p + [[]] else p[..|p| - 1] + [p[|p| - 1] + [x]];
            Flat(q, |q|) == kept + if cut(x) then [] else [x]
  {
    if cut(x) { FlatSnoc(p, []); } else { FlatLastGrows(p, x); }
  }

  /** Nothing but the cuts is lost, and nothing moves. */
  lemma {:induction false} SplitByKeeps<T>(cut: T -> bool, xs: seq<T>)
    ensures Flat(SplitBy(cut, xs), |SplitBy(cut, xs)|) == Outside(cut, xs)
  {
    if xs != [] {
      var before, x := xs[..|xs| - 1], xs[|xs| - 1];
      SplitByKeeps(cut, before);
      FlatSplitCut(cut, SplitBy(cut, before), Outside(cut, before), x);
    }
  }

  /** The elements that are not cuts. */
  function Outside<T>(cut: T -> bool, xs: seq<T>): seq<T> {
    if xs == [] then [] else Outside(cut, xs[..|xs| - 1]) + if cut(xs[|xs| - 1]) then [] else [xs[|xs| - 1]]
  }

  lemma {:induction false} SplitByCount<T>(cut: T -> bool, xs: seq<T>)
    ensures |SplitBy(cut, xs)| == 1 + |Filter(cut, xs)|
  {
    if xs != [] { SplitByCount(cut, xs[..|xs| - 1]); }
  }

  lemma {:induction false} FlatFrame<T>(p: seq<seq<T>>, q: seq<seq<T>>, k: nat)
    requires k <= |p| && k <= |q| && p[..k] == q[..k]
    ensures Flat(p, k) == Flat(q, k)
  {
    if k > 0 {
      assert p[..k - 1] == p[..k][..k - 1] && q[..k - 1] == q[..k][..k - 1];
      assert p[k - 1] == p[..k][k - 1] && q[k - 1] == q[..k][k - 1];
      FlatFrame(p, q, k - 1);
    }
  }

  /** `f` of every element. */
  function Mapped<T, U>(f: T -> U, xs: seq<T>): (ys: seq<U>)
    ensures |ys| == |xs| && forall i :: 0 <= i < |xs| ==> ys[i] == f(xs[i])
  {
    seq(|xs|, i requires 0 <= i < |xs| => f(xs[i]))
  }

  lemma MappedNone<T, U>(f: T -> U, xs: seq<T>, ys: seq<U>)
    requires |xs| == 0 && |ys| == 0
    ensures Mapped(f, xs) == ys
  {
  }

  lemma MappedAppend<T, U>(f: T -> U, xs: seq<T>, ys: seq<T>)
    ensures Mapped(f, xs + ys) == Mapped(f, xs) + Mapped(f, ys)
  {
  }

  lemma MappedSnoc<T, U>(f: T -> U, xs: seq<T>, x: T)
    ensures Mapped(f, xs + [x]) == Mapped(f, xs) + [f(x)] && Mapped(f, [x] + xs) == [f(x)] + Mapped(f, xs)
  {
  }

  lemma MappedFour<T, U>(f: T -> U, x: T, a: seq<T>, b: seq<T>, c: seq<T>)
    ensures Mapped(f, [x] + a + b + c) == [f(x)] + Mapped(f, a) + Mapped(f, b) + Mapped(f, c)
  {
    MappedSnoc(f, a, x);
    MappedAppend(f, [x] + a, b);
    MappedAppend(f, [x] + a + b, c);
  }

  lemma {:induction false} MappedFlat<T, U>(f: T -> U, pieces: seq<seq<T>>, mapped: seq<seq<U>>, k: nat)
    requires k <= |pieces| == |mapped| && forall i :: 0 <= i < |pieces| ==> mapped[i] == Mapped(f, pieces[i])
    ensures Mapped(f, Flat(pieces, k)) == Flat(mapped, k)
  {
    if k > 0 {
      MappedFlat(f, pieces, mapped, k - 1);
      MappedAppend(f, Flat(pieces, k - 1), pieces[k - 1]);
    }
  }

  /** Some element of a set: Go visits the keys of a map in no particular order. */
  method PickOne<T>(s: set<T>) returns (x: T)
    requires s != {}
    ensures x in s
  {
    x :| x in s;
  }

  lemma SameEntry<K, V>(m: map<K, V>, k: K)
    requires k in m
    ensures m[k := m[k]] == m
  {
  }

  lemma NoEntry<K, V>(m: map<K, V>, k: K)
    requires k !in m
    ensures m - {k} == m
  {
  }

  lemma NoneLeft<T>(all: set<T>)
    ensures all - all == {} && all - {} == all
  {
  }

  lemma TakeOut<T>(all: set<T>, todo: set<T>, x: T)
    requires todo <= all && x in todo
    ensures all - (todo - {x}) == (all - todo) + {x} && todo - {x} <= all && |todo - {x}| < |todo|
  {
  }

  // The White_Space characters, as inclusive ranges.
  const SPACES: seq<(char, char)> :=
    [('\t', '\r'), (' ', ' '), ('\U{85}', '\U{85}'), ('\U{A0}', '\U{A0}'), ('\U{1680}', '\U{1680}'),
     ('\U{2000}', '\U{200A}'), ('\U{2028}', '\U{2029}'), ('\U{202F}', '\U{202F}'),
     ('\U{205F}', '\U{205F}'), ('\U{3000}', '\U{3000}')]

  // unicode.IsSpace
  predicate IsSpace(c: char) {
    exists i :: 0 <= i < |SPACES| && SPACES[i].0 <= c <= SPACES[i].1
  }

  lemma BlankIsSpace()
    ensures IsSpace(' ')
  {
    assert SPACES[1].0 <= ' ' <= SPACES[1].1;
  }

  lemma PrintableIsNotSpace(c: char)
    requires '!' <= c <= '~'
    ensures !IsSpace(c)
  {
  }

  /** Length of the longest prefix of `s` whose characters all satisfy, or all fail, IsSpace. */
  function SpaceRun(s: string, space: bool): (n: nat)
    ensures n <= |s|
    ensures forall i :: 0 <= i < n ==> IsSpace(s[i]) == space
    ensures n < |s| ==> IsSpace(s[n]) != space
  {
    if s == "" || IsSpace(s[0]) != space then 0 else 1 + SpaceRun(s[1..], space)
  }

  // strings.TrimSpace
  function TrimLeft(s: string): (r: string)
    ensures |r| <= |s| && r == s[|s| - |r|..]
  {
    s[SpaceRun(s, true)..]
  }

  function TrimRight(s: string): (r: string)
    ensures r <= s
    ensures r != "" ==> !IsSpace(r[|r| - 1])
  {
    if s != "" && IsSpace(s[|s| - 1]) then TrimRight(s[..|s| - 1]) else s
  }

  function Trim(s: string): string {
    TrimRight(TrimLeft(s))
  }

  // strings.Fields
  function Fields(s: string): seq<string>
    decreases |s|
  {
    var t := TrimLeft(s);
    if t == "" then []
    else
      var n := SpaceRun(t, false);
      assert n > 0;
      [t[..n]] + Fields(t[n..])
  }

  predicate NoSpace(s: string) {
    forall i :: 0 <= i < |s| ==> !IsSpace(s[i])
  }

  lemma {:induction false} SpaceRunWord(w: string, rest: string)
    requires NoSpace(w)
    requires rest == "" || IsSpace(rest[0])
    ensures SpaceRun(w + rest, false) == |w|
  {
    if w == "" {
      assert w + rest == rest;
    } else {
      assert (w + rest)[1..] == w[1..] + rest;
      SpaceRunWord(w[1..], rest);
    }
  }

  /** Fields reads a blank-free word that is followed by a blank (or by nothing) as one field. */
  lemma FieldsCons(w: string, rest: string)
    requires w != "" && NoSpace(w)
    requires rest == "" || IsSpace(rest[0])
    ensures Fields(w + rest) == [w] + Fields(rest)
  {
    var s := w + rest;
    assert s[0] == w[0];
    assert SpaceRun(s, true) == 0;
    assert TrimLeft(s) == s;
    SpaceRunWord(w, rest);
    assert s[..|w|] == w && s[|w|..] == rest;
  }

  lemma FieldsBlank(rest: string)
    ensures Fields(" " + rest) == Fields(rest)
  {
    BlankIsSpace();
    assert (" " + rest)[1..] == rest;
    assert TrimLeft(" " + rest) == TrimLeft(rest) by {
      assert SpaceRun(" " + rest, true) == 1 + SpaceRun(rest, true);
    }
  }

  /** strings.Split(s, sep) for a one-character separator. */
  function SplitOn(s: string, sep: char): (parts: seq<string>)
    ensures |parts| >= 1
  {
    if s == "" then [""]
    else if s[0] == sep then [""] + SplitOn(s[1..], sep)
    else
      var rest := SplitOn(s[1..], sep);
      [[s[0]] + rest[0]] + rest[1..]
  }

  function JoinLines(lines: seq<string>): string {
    if lines == [] then "" else lines[0] + "\n" + JoinLines(lines[1..])
  }

  /** strings.Join with newlines between the lines. */
  function LinesBetween(lines: seq<string>): string {
    if lines == [] then "" else if |lines| == 1 then lines[0] else lines[0] + "\n" + LinesBetween(lines[1..])
  }

  lemma {:induction false} SplitHead(line: string, rest: string, sep: char)
    requires sep !in line
    ensures SplitOn(line + [sep] + rest, sep) == [line] + SplitOn(rest, sep)
  {
    if line == "" {
      assert line + [sep] + rest == [sep] + rest;
      assert ([sep] + rest)[1..] == rest;
    } else {
      assert (line + [sep] + rest)[1..] == line[1..] + [sep] + rest;
      SplitHead(line[1..], rest, sep);
      assert [line[0]] + line[1..] == line;
    }
  }

  lemma {:induction false} SplitSingle(s: string, sep: char)
    requires sep !in s
    ensures SplitOn(s, sep) == [s]
  {
    if s != "" {
      SplitSingle(s[1..], sep);
      assert [s[0]] + s[1..] == s;
    }
  }

  lemma {:induction false} SplitLast(before: string, last: string, sep: char)
    requires sep !in last
    ensures SplitOn(before + [sep] + last, sep) == SplitOn(before, sep) + [last]
  {
    if before == "" {
      assert before + [sep] + last == [sep] + last && ([sep] + last)[1..] == last;
      SplitSingle(last, sep);
    } else {
      assert (before + [sep] + last)[1..] == before[1..] + [sep] + last && (before + [sep] + last)[0] == before[0];
      SplitLast(before[1..], last, sep);
    }
  }

  /** Splitting newline-terminated lines gives the lines back, then one empty string. */
  lemma {:induction false} SplitJoin(lines: seq<string>)
    requires forall i :: 0 <= i < |lines| ==> '\n' !in lines[i]
    ensures SplitOn(JoinLines(lines), '\n') == lines + [""]
  {
    if lines == [] {
    } else {
      SplitJoin(lines[1..]);
      SplitHead(lines[0], JoinLines(lines[1..]), '\n');
      assert JoinLines(lines) == lines[0] + ['\n'] + JoinLines(lines[1..]);
      assert [lines[0]] + (lines[1..] + [""]) == lines + [""];
    }
  }

  // strings.ReplaceAll(s, c, "") for one character
  function Without(s: string, c: char): string {
    if s == "" then "" else (if s[0] == c then "" else [s[0]]) + Without(s[1..], c)
  }

  lemma {:induction false} WithoutAppend(a: string, b: string, c: char)
    ensures Without(a + b, c) == Without(a, c) + Without(b, c)
  {
    if a == "" {
      Empties(b);
      Empties(Without(b, c));
    } else {
      assert (a + b)[0] == a[0] && (a + b)[1..] == a[1..] + b;
      WithoutAppend(a[1..], b, c);
      Regroup(if a[0] == c then "" else [a[0]], Without(a[1..], c), Without(b, c));
    }
  }

  lemma {:induction false} WithoutMembers(s: string, c: char, d: char)
    ensures d in Without(s, c) <==> d in s && d != c
  {
    if s != "" { WithoutMembers(s[1..], c, d); }
  }

  lemma {:induction false} WithoutAbsent(s: string, c: char)
    requires c !in s
    ensures Without(s, c) == s
  {
    if s != "" { WithoutAbsent(s[1..], c); }
  }

  predicate IsDigit(c: char) { '0' <= c <= '9' }

  function Digit(n: nat): char
    requires n < 10
  {
    ['0', '1', '2', '3', '4', '5', '6', '7', '8', '9'][n]
  }

  // strconv.Itoa of a non-negative number
  function Itoa(n: nat): (s: string)
    ensures s != "" && forall i :: 0 <= i < |s| ==> IsDigit(s[i])
  {
    if n < 10 then [Digit(n)] else Itoa(n / 10) + [Digit(n % 10)]
  }

  function DigitsValue(s: string): (n: nat)
    requires forall i :: 0 <= i < |s| ==> IsDigit(s[i])
  {
    if s == "" then 0
    else assert IsDigit(s[|s| - 1]); DigitsValue(s[..|s| - 1]) * 10 + (s[|s| - 1] as int - '0' as int)
  }

  const MAX_INT: int := 0x7FFF_FFFF_FFFF_FFFF

  /** strconv.Atoi on a 64-bit int: an optional sign, at least one digit, no overflow. */
  function Atoi(s: string): (r: Option<int>)
    ensures r.Some? ==> -MAX_INT - 1 <= r.value <= MAX_INT
  {
    var neg := s != "" && s[0] == '-';
    var digits := if s != "" && (s[0] == '-' || s[0] == '+') then s[1..] else s;
    if digits == "" || exists i :: 0 <= i < |digits| && !IsDigit(digits[i]) then None
    else
      var v: int := DigitsValue(digits);
      if neg then (if v <= MAX_INT + 1 then Some(-v) else None)
      else if v <= MAX_INT then Some(v) else None
  }

  lemma {:induction false} ItoaValue(n: nat)
    ensures DigitsValue(Itoa(n)) == n
  {
    if n < 10 {
      assert Itoa(n)[..0] == "";
    } else {
      ItoaValue(n / 10);
      var s := Itoa(n);
      assert s[..|s| - 1] == Itoa(n / 10);
      assert s[|s| - 1] == Digit(n % 10);
    }
  }

  lemma AtoiItoa(n: nat)
    requires n <= MAX_INT
    ensures Atoi(Itoa(n)) == Some(n)
  {
    ItoaValue(n);
    assert IsDigit(Itoa(n)[0]);
  }
}
