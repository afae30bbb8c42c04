/**
 Where the cursor stands in a revset expression (analyzeCompletionContext in internal/ui/revset/completion_provider.go).
 */
module RevsetScan {
  import opened Text

  // An open bracket: the function it belongs to, the argument it is at and the named arguments already given.
  datatype Frame = Frame(name: string, argIndex: nat, argStart: nat, used: set<string>)

  datatype Scan = Scan(frames: seq<Frame>, quote: Option<char>, escaped: bool)

  const START := Scan([], None, false)

  predicate IsNameChar(c: char) { 'a' <= c <= 'z' || 'A' <= c <= 'Z' || '0' <= c <= '9' || c == '_' }

  function NameStart(input: string, end: nat): (start: nat)
    requires end <= |input|
    ensures start <= end && (forall k :: start <= k < end ==> IsNameChar(input[k])) &&
            (start > 0 ==> !IsNameChar(input[start - 1]))
  {
    if end == 0 || !IsNameChar(input[end - 1]) then end else NameStart(input, end - 1)
  }

  function NameBefore(input: string, end: nat): string
    requires end <= |input|
  {
    input[NameStart(input, end)..end]
  }

  function Part(input: string, from: int, to: int): string {
    if 0 <= from <= to <= |input| then input[from..to] else ""
  }

  function FirstOf(s: string, c: char, i: nat): (k: nat)
    requires i <= |s|
    ensures i <= k <= |s| && (k < |s| ==> s[k] == c) && forall j :: i <= j < k ==> s[j] != c
    decreases |s| - i
  {
    if i == |s| || s[i] == c then i else FirstOf(s, c, i + 1)
  }

  function Recorded(segment: string, used: set<string>): set<string> {
    var k := FirstOf(segment, '=', 0);
    if k == |segment| || Trim(segment[..k]) == "" then used else used + {Trim(segment[..k])}
  }

  function NextArgument(f: Frame, input: string, i: nat): Frame {
    Frame(f.name, f.argIndex + 1, i + 1, Recorded(Part(input, f.argStart, i), f.used))
  }

  /** One character outside quotes. */
  function FeedPlain(input: string, s: Scan, i: nat): Scan
    requires i < |input|
  {
    var c, n := input[i], |s.frames|;
    if c == '\'' || c == '"' then s.(quote := Some(c))
    else if c == '(' then s.(frames := s.frames + [Frame(NameBefore(input, i), 0, i + 1, {})])
    else if c == ')' && n > 0 then s.(frames := s.frames[..n - 1])
    else if c == ',' && n > 0 then s.(frames := s.frames[..n - 1] + [NextArgument(s.frames[n - 1], input, i)])
    else s
  }

  function Feed(input: string, s: Scan, i: nat): Scan
    requires i < |input|
  {
    if s.quote.None? then FeedPlain(input, s, i)
    else if s.escaped then s.(escaped := false)
    else if input[i] == '\\' then s.(escaped := true)
    else if input[i] == s.quote.value then s.(quote := None)
    else s
  }

  /** The state after the characters from `i` up to `j`. */
  function ScanFrom(input: string, s: Scan, i: nat, j: nat): Scan
    requires i <= j <= |input|
    decreases j
  {
    if i == j then s else Feed(input, ScanFrom(input, s, i, j - 1), j - 1)
  }

  lemma {:induction false} ScanOn(input: string, s: Scan, i: nat, j: nat, k: nat)
    requires i <= j <= k <= |input|
    ensures ScanFrom(input, s, i, k) == ScanFrom(input, ScanFrom(input, s, i, j), j, k)
    decreases k
  {
    if j < k { ScanOn(input, s, i, j, k - 1); }
  }

  lemma ScanJoin(input: string, s: Scan, t: Scan, u: Scan, i: nat, j: nat, k: nat)
    requires i <= j <= k <= |input| && ScanFrom(input, s, i, j) == t && ScanFrom(input, t, j, k) == u
    ensures ScanFrom(input, s, i, k) == u
  {
    ScanOn(input, s, i, j, k);
  }

  lemma ScanOne(input: string, s: Scan, i: nat)
    requires i < |input|
    ensures ScanFrom(input, s, i, i + 1) == Feed(input, s, i)
  {
    assert ScanFrom(input, s, i, i) == s;
  }

  // ---------- well-bracketed pieces ----------

  // A quoted character: itself, or written with a backslash.
  datatype Quoted = Lit(c: char) | Esc(c: char)

  datatype Item = Plain(c: char) | Comma | Quote(q: char, body: seq<Quoted>) | Group(inner: Items)

  datatype Items = Nil | Cons(head: Item, tail: Items)

  function QuotedText(body: seq<Quoted>, n: nat): string
    requires n <= |body|
  {
    if n == 0 then "" else QuotedText(body, n - 1) + if body[n - 1].Lit? then [body[n - 1].c] else ['\\', body[n - 1].c]
  }

  function ItemText(x: Item): string {
    match x
    case Plain(c) => [c]
    case Comma => ","
    case Quote(q, body) => [q] + QuotedText(body, |body|) + [q]
    case Group(inner) => "(" + ItemsText(inner) + ")"
  }

  function ItemsText(xs: Items): string {
    match xs
    case Nil => ""
    case Cons(x, rest) => ItemText(x) + ItemsText(rest)
  }

  /** Quotes are closed, brackets match, and a plain character is none of the special ones. */
  ghost predicate ItemOk(x: Item) {
    match x
    case Plain(c) => c !in "'\"(),"
    case Comma => true
    case Quote(q, body) =>
      (q == '\'' || q == '"') && forall i :: 0 <= i < |body| && body[i].Lit? ==> body[i].c != q && body[i].c != '\\'
    case Group(inner) => ItemsOk(inner)
  }

  ghost predicate ItemsOk(xs: Items) {
    match xs
    case Nil => true
    case Cons(x, rest) => ItemOk(x) && ItemsOk(rest)
  }

  /** Commas that are not inside brackets or quotes. */
  function Commas(xs: Items): nat {
    match xs
    case Nil => 0
    case Cons(x, rest) => (if x.Comma? then 1 else 0) + Commas(rest)
  }

  ghost predicate TextAt(input: string, i: nat, text: string) {
    i + |text| <= |input| && forall k :: 0 <= k < |text| ==> input[i + k] == text[k]
  }

  lemma TextAtAppend(input: string, i: nat, a: string, b: string)
    requires TextAt(input, i, a + b)
    ensures TextAt(input, i, a) && TextAt(input, i + |a|, b)
  {
    assert forall k :: 0 <= k < |a| ==> (a + b)[k] == a[k];
    assert forall k :: 0 <= k < |b| ==> (a + b)[|a| + k] == b[k];
  }

  ghost predicate Open(s: Scan) { s.quote.None? && !s.escaped }

  /**
   Same brackets open below the innermost one, which is at the argument `commas` further on; without commas nothing
   changed at all.
   */
  ghost predicate Moved(s: Scan, t: Scan, commas: nat) {
    Open(t) && |t.frames| == |s.frames| && (commas == 0 ==> t == s) &&
    (s.frames != [] ==>
      var n := |s.frames| - 1;
      t.frames[..n] == s.frames[..n] && t.frames[n].name == s.frames[n].name &&
      t.frames[n].argIndex == s.frames[n].argIndex + commas)
  }

  lemma MovedTwice(s: Scan, t: Scan, u: Scan, a: nat, b: nat)
    requires Moved(s, t, a) && Moved(t, u, b)
    ensures Moved(s, u, a + b)
  {
  }

  lemma {:induction false} ScanQuoted(input: string, s: Scan, i: nat, q: char, body: seq<Quoted>, n: nat)
    requires n <= |body| && TextAt(input, i, QuotedText(body, n)) && s.quote == Some(q) && !s.escaped
    requires forall k :: 0 <= k < |body| && body[k].Lit? ==> body[k].c != q && body[k].c != '\\'
    ensures ScanFrom(input, s, i, i + |QuotedText(body, n)|) == s
  {
    if n > 0 {
      var before, last := QuotedText(body, n - 1), body[n - 1];
      var tail := if last.Lit? then [last.c] else ['\\', last.c];
      TextAtAppend(input, i, before, tail);
      ScanQuoted(input, s, i, q, body, n - 1);
      var j := i + |before|;
      ScanOn(input, s, i, j, j + |tail|);
      assert input[j + 0] == tail[0] && (last.Esc? ==> input[j + 1] == tail[1]);
      ScanOne(input, s, j);
      if last.Esc? {
        ScanOn(input, s, j, j + 1, j + 2);
        ScanOne(input, s.(escaped := true), j + 1);
      }
    }
  }

  lemma ScanQuote(input: string, s: Scan, i: nat, q: char, body: seq<Quoted>, end: nat)
    requires ItemOk(Quote(q, body)) && TextAt(input, i, ItemText(Quote(q, body))) && Open(s) &&
             end == i + |ItemText(Quote(q, body))|
    ensures ScanFrom(input, s, i, end) == s
  {
    var text := QuotedText(body, |body|);
    TextAtAppend(input, i, [q] + text, [q]);
    TextAtAppend(input, i, [q], text);
    var inside, j := s.(quote := Some(q)), i + 1 + |text|;
    ScanOne(input, s, i);
    assert input[i + 0] == [q][0] && input[j + 0] == [q][0];
    ScanQuoted(input, inside, i + 1, q, body, |body|);
    ScanOne(input, inside, j);
    ScanJoin(input, s, inside, inside, i, i + 1, j);
    ScanJoin(input, s, inside, s, i, j, end);
  }

  lemma ScanPlain(input: string, s: Scan, i: nat, c: char)
    requires c !in "'\"()," && TextAt(input, i, [c]) && Open(s)
    ensures ScanFrom(input, s, i, i + 1) == s
  {
    assert input[i + 0] == [c][0];
    ScanOne(input, s, i);
  }

  lemma ScanComma(input: string, s: Scan, i: nat)
    requires TextAt(input, i, ",") && Open(s)
    ensures Moved(s, ScanFrom(input, s, i, i + 1), 1)
  {
    assert input[i + 0] == ","[0];
    ScanOne(input, s, i);
  }

  lemma {:induction false} ScanItem(input: string, s: Scan, i: nat, x: Item, end: nat)
    requires ItemOk(x) && TextAt(input, i, ItemText(x)) && Open(s) && end == i + |ItemText(x)|
    ensures Moved(s, ScanFrom(input, s, i, end), if x.Comma? then 1 else 0)
    decreases x, 0
  {
    match x
    case Plain(c) => ScanPlain(input, s, i, c);
    case Comma => ScanComma(input, s, i);
    case Quote(q, body) => ScanQuote(input, s, i, q, body, end);
    case Group(inner) => ScanGroup(input, s, i, inner, end);
  }

  lemma ClosesGroup(input: string, s: Scan, f: Frame, t: Scan, commas: nat, j: nat)
    requires Open(s) && Moved(s.(frames := s.frames + [f]), t, commas) && j < |input| && input[j] == ')'
    ensures Feed(input, t, j) == s
  {
    var pushed := s.(frames := s.frames + [f]);
    assert pushed.frames[..|s.frames|] == s.frames;
  }

  lemma GroupText(input: string, i: nat, text: string)
    requires TextAt(input, i, "(" + text + ")")
    ensures i + |text| + 2 <= |input| && input[i] == '(' && TextAt(input, i + 1, text) && input[i + 1 + |text|] == ')'
  {
    TextAtAppend(input, i, "(" + text, ")");
    TextAtAppend(input, i, "(", text);
    assert input[i + 0] == "("[0] && input[i + 1 + |text| + 0] == ")"[0];
  }

  lemma OpensGroup(input: string, s: Scan, i: nat, pushed: Scan)
    requires Open(s) && i < |input| && input[i] == '(' &&
             pushed == s.(frames := s.frames + [Frame(NameBefore(input, i), 0, i + 1, {})])
    ensures ScanFrom(input, s, i, i + 1) == pushed && Open(pushed)
  {
    ScanOne(input, s, i);
  }

  lemma AroundGroup(input: string, s: Scan, f: Frame, t: Scan, i: nat, j: nat, end: nat, commas: nat)
    requires Open(s) && i < j < |input| && end == j + 1 && input[j] == ')'
    requires ScanFrom(input, s, i, i + 1) == s.(frames := s.frames + [f]) &&
             t == ScanFrom(input, s.(frames := s.frames + [f]), i + 1, j)
    requires Moved(s.(frames := s.frames + [f]), t, commas)
    ensures ScanFrom(input, s, i, end) == s
  {
    ClosesGroup(input, s, f, t, commas, j);
    ScanOne(input, t, j);
    ScanJoin(input, s, s.(frames := s.frames + [f]), t, i, i + 1, j);
    ScanJoin(input, s, t, s, i, j, end);
  }

  lemma {:induction false} ScanGroup(input: string, s: Scan, i: nat, inner: Items, end: nat)
    requires ItemsOk(inner) && TextAt(input, i, ItemText(Group(inner))) && Open(s) &&
             end == i + |ItemText(Group(inner))|
    ensures ScanFrom(input, s, i, end) == s
    decreases inner, 1
  {
    var text := ItemsText(inner);
    GroupText(input, i, text);
    var j := i + 1 + |text|;
    var f := Frame(NameBefore(input, i), 0, i + 1, {});
    var pushed := s.(frames := s.frames + [f]);
    OpensGroup(input, s, i, pushed);
    ScanItems(input, pushed, i + 1, inner, j);
    AroundGroup(input, s, f, ScanFrom(input, pushed, i + 1, j), i, j, end, Commas(inner));
  }

  /** A first item and the rest after it. */
  lemma ScanRest(input: string, s: Scan, t: Scan, u: Scan, i: nat, j: nat, k: nat, a: nat, b: nat)
    requires i <= j <= k <= |input| && t == ScanFrom(input, s, i, j) && u == ScanFrom(input, t, j, k)
    requires Moved(s, t, a) && Moved(t, u, b)
    ensures Moved(s, ScanFrom(input, s, i, k), a + b)
  {
    ScanJoin(input, s, t, u, i, j, k);
    MovedTwice(s, t, u, a, b);
  }

  /**
   A well-bracketed, quote-closed piece changes nothing but the innermost bracket's argument:
   that moves on by one for each comma of the piece outside its own brackets and quotes.
   */
  lemma {:induction false} ScanItems(input: string, s: Scan, i: nat, xs: Items, end: nat)
    requires ItemsOk(xs) && TextAt(input, i, ItemsText(xs)) && Open(s) && end == i + |ItemsText(xs)|
    ensures Moved(s, ScanFrom(input, s, i, end), Commas(xs))
    decreases xs, 0
  {
    if xs.Cons? {
      TextAtAppend(input, i, ItemText(xs.head), ItemsText(xs.tail));
      var j := i + |ItemText(xs.head)|;
      ScanItem(input, s, i, xs.head, j);
      var t := ScanFrom(input, s, i, j);
      ScanItems(input, t, j, xs.tail, end);
      ScanRest(input, s, t, ScanFrom(input, t, j, end), i, j, end, if xs.head.Comma? then 1 else 0, Commas(xs.tail));
    }
  }
}
