/**
 Which argument is being typed, and which candidates must be offered for it (internal/ui/revset/completion_provider.go).
 */
module RevsetOffers {
  import opened Text
  import opened RevsetScan
  import opened RevsetCompletion

  // ---------- arguments of a call ----------

  /** The first `n` arguments with commas between them. */
  function ArgsText(args: seq<Items>, n: nat): string
    requires 0 < n <= |args|
  {
    if n == 1 then ItemsText(args[0]) else ArgsText(args, n - 1) + ("," + ItemsText(args[n - 1]))
  }

  /** Where the last of them begins. */
  function LastStart(args: seq<Items>, n: nat): nat
    requires 0 < n <= |args|
  {
    if n == 1 then 0 else |ArgsText(args, n - 1)| + 1
  }

  ghost predicate PlainArgs(args: seq<Items>) {
    forall i :: 0 <= i < |args| ==> ItemsOk(args[i]) && Commas(args[i]) == 0
  }

  /** The names given by the first `n` arguments. */
  function Given(args: seq<Items>, n: nat): set<string>
    requires n <= |args|
  {
    if n == 0 then {} else Recorded(ItemsText(args[n - 1]), Given(args, n - 1))
  }

  /** The text begins `name=`, blanks around the name aside. */
  ghost predicate GivesName(text: string, name: string) {
    name != "" && exists k :: EqualsAt(text, k) && Trim(text[..k]) == name
  }

  /** The first equals sign of the text. */
  ghost predicate EqualsAt(text: string, k: int) {
    0 <= k < |text| && text[k] == '=' && forall i :: 0 <= i < k ==> text[i] != '='
  }

  lemma RecordedName(text: string, used: set<string>, name: string)
    ensures name in Recorded(text, used) <==> name in used || GivesName(text, name)
  {
    var k := FirstOf(text, '=', 0);
    assert forall j :: EqualsAt(text, j) <==> j == k < |text|;
  }

  lemma GivenStep(args: seq<Items>, n: nat, name: string)
    requires 0 < n <= |args|
    ensures name in Given(args, n) <==> name in Given(args, n - 1) || GivesName(ItemsText(args[n - 1]), name)
  {
    RecordedName(ItemsText(args[n - 1]), Given(args, n - 1), name);
  }

  ghost predicate SomeGives(args: seq<Items>, n: nat, name: string)
    requires n <= |args|
  {
    exists i :: 0 <= i < n && GivesName(ItemsText(args[i]), name)
  }

  lemma SomeGivesStep(args: seq<Items>, n: nat, name: string)
    requires 0 < n <= |args|
    ensures SomeGives(args, n, name) <==> SomeGives(args, n - 1, name) || GivesName(ItemsText(args[n - 1]), name)
  {
  }

  lemma NoneGiven(args: seq<Items>, name: string)
    ensures name !in Given(args, 0) && !SomeGives(args, 0, name)
  {
  }

  /** A name counts as given exactly when some argument gives it. */
  lemma {:induction false} GivenMeans(args: seq<Items>, n: nat, name: string)
    requires n <= |args|
    ensures name in Given(args, n) <==> SomeGives(args, n, name)
  {
    if n == 0 {
      NoneGiven(args, name);
    } else {
      GivenMeans(args, n - 1, name);
      GivenStep(args, n, name);
      SomeGivesStep(args, n, name);
    }
  }

  lemma PartIs(input: string, at: nat, text: string)
    requires TextAt(input, at, text)
    ensures Part(input, at, at + |text|) == text
  {
  }

  /** The innermost bracket at argument `index`, which begins at `start`, with these names given before it. */
  function At(s: Scan, name: string, index: nat, start: nat, used: set<string>): Scan
    requires s.frames != []
  {
    s.(frames := s.frames[..|s.frames| - 1] + [Frame(name, index, start, used)])
  }

  /** A comma after an argument moves on to the next one and records the name the argument gives. */
  lemma CommaMoves(input: string, s: Scan, name: string, index: nat, start: nat, used: set<string>, text: string,
                   comma: nat)
    requires Open(s) && s.frames != [] && TextAt(input, start, text) && comma == start + |text| < |input| &&
             input[comma] == ','
    ensures Feed(input, At(s, name, index, start, used), comma) ==
              At(s, name, index + 1, comma + 1, Recorded(text, used))
  {
    var f, below := Frame(name, index, start, used), s.frames[..|s.frames| - 1];
    NextArgumentIs(input, f, text, comma);
    LastOfTwo(below, f);
    CommaFeeds(input, s.(frames := below + [f]), below, f, comma);
  }

  lemma NextArgumentIs(input: string, f: Frame, text: string, comma: nat)
    requires TextAt(input, f.argStart, text) && comma == f.argStart + |text|
    ensures NextArgument(f, input, comma) == Frame(f.name, f.argIndex + 1, comma + 1, Recorded(text, f.used))
  {
    PartIs(input, f.argStart, text);
  }

  lemma LastOfTwo<T>(below: seq<T>, f: T)
    ensures (below + [f])[..|below|] == below && (below + [f])[|below|] == f
  {
  }

  lemma CommaFeeds(input: string, t: Scan, below: seq<Frame>, f: Frame, comma: nat)
    requires Open(t) && comma < |input| && input[comma] == ',' && |t.frames| == |below| + 1
    requires t.frames[..|below|] == below && t.frames[|below|] == f
    ensures Feed(input, t, comma) == t.(frames := below + [NextArgument(f, input, comma)])
  {
  }

  lemma ArgsParts(input: string, at: nat, args: seq<Items>, n: nat)
    requires 1 < n <= |args| && TextAt(input, at, ArgsText(args, n))
    ensures TextAt(input, at, ArgsText(args, n - 1)) && at + LastStart(args, n) <= |input|
    ensures input[at + LastStart(args, n) - 1] == ',' && TextAt(input, at + LastStart(args, n), ItemsText(args[n - 1]))
  {
    var before := ArgsText(args, n - 1);
    TextAtAppend(input, at, before, "," + ItemsText(args[n - 1]));
    TextAtAppend(input, at + |before|, ",", ItemsText(args[n - 1]));
    assert input[at + |before| + 0] == ","[0];
  }

  lemma {:induction false} LastArgText(input: string, at: nat, args: seq<Items>, n: nat)
    requires 0 < n <= |args| && TextAt(input, at, ArgsText(args, n))
    ensures TextAt(input, at + LastStart(args, n), ItemsText(args[n - 1]))
    ensures at + LastStart(args, n) + |ItemsText(args[n - 1])| == at + |ArgsText(args, n)|
  {
    if n > 1 { ArgsParts(input, at, args, n); }
  }

  /** The scan from `at` to `end` has come to argument `index` of the innermost bracket. */
  ghost predicate Reaches(input: string, s: Scan, at: nat, end: nat, name: string, index: nat, start: nat,
                          used: set<string>) {
    Open(s) && s.frames != [] && at <= end <= |input| && ScanFrom(input, s, at, end) == At(s, name, index, start, used)
  }

  lemma FirstArgScan(input: string, s: Scan, at: nat, arg: Items, end: nat, name: string)
    requires ItemsOk(arg) && Commas(arg) == 0 && TextAt(input, at, ItemsText(arg)) && end == at + |ItemsText(arg)|
    requires Reaches(input, s, at, at, name, 0, at, {})
    ensures Reaches(input, s, at, end, name, 0, at, {})
  {
    ScanItems(input, s, at, arg, end);
  }

  /** Two arguments with a comma between them, the second without commas of its own. */
  ghost predicate Adjacent(input: string, start: nat, comma: nat, end: nat, before: Items, arg: Items) {
    comma == start + |ItemsText(before)| < |input| && input[comma] == ',' && TextAt(input, start, ItemsText(before)) &&
    TextAt(input, comma + 1, ItemsText(arg)) && end == comma + 1 + |ItemsText(arg)| && ItemsOk(arg) && Commas(arg) == 0
  }

  lemma LastTwo(input: string, at: nat, args: seq<Items>, n: nat, comma: nat, end: nat, start: nat)
    requires 1 < n <= |args| && PlainArgs(args) && TextAt(input, at, ArgsText(args, n))
    requires end == at + |ArgsText(args, n)| && comma == at + |ArgsText(args, n - 1)|
    requires start == at + LastStart(args, n - 1)
    ensures Adjacent(input, start, comma, end, args[n - 2], args[n - 1])
  {
    ArgsParts(input, at, args, n);
    LastArgText(input, at, args, n - 1);
    LastArgText(input, at, args, n);
  }

  lemma {:induction false} ArgsScan(input: string, s: Scan, at: nat, args: seq<Items>, n: nat, end: nat, name: string,
                                    start: nat, used: set<string>)
    requires 0 < n <= |args| && PlainArgs(args) && TextAt(input, at, ArgsText(args, n)) &&
             end == at + |ArgsText(args, n)|
    requires Reaches(input, s, at, at, name, 0, at, {})
    requires start == at + LastStart(args, n) && used == Given(args, n - 1)
    ensures Reaches(input, s, at, end, name, n - 1, start, used)
  {
    if n == 1 {
      FirstArgScan(input, s, at, args[0], end, name);
    } else {
      var comma := at + |ArgsText(args, n - 1)|;
      var start', used' := at + LastStart(args, n - 1), Given(args, n - 2);
      ArgsParts(input, at, args, n);
      ArgsScan(input, s, at, args, n - 1, comma, name, start', used');
      OneMoreArg(input, s, at, args, n, comma, end, name, start', used', used);
    }
  }

  lemma OneMoreArg(input: string, s: Scan, at: nat, args: seq<Items>, n: nat, comma: nat, end: nat, name: string,
                   start: nat, used: set<string>, more: set<string>)
    requires 1 < n <= |args| && PlainArgs(args) && TextAt(input, at, ArgsText(args, n))
    requires end == at + |ArgsText(args, n)| && comma == at + |ArgsText(args, n - 1)|
    requires start == at + LastStart(args, n - 1)
    requires used == Given(args, n - 2) && more == Given(args, n - 1)
    requires Reaches(input, s, at, comma, name, n - 2, start, used)
    ensures Reaches(input, s, at, end, name, n - 1, comma + 1, more)
  {
    LastTwo(input, at, args, n, comma, end, start);
    GivenNext(args, n - 1, args[n - 2], used);
    OneMore(input, s, at, start, comma, end, name, n - 2, used, args[n - 2], args[n - 1], more);
  }

  lemma GivenNext(args: seq<Items>, n: nat, last: Items, used: set<string>)
    requires 0 < n <= |args| && last == args[n - 1] && used == Given(args, n - 1)
    ensures Given(args, n) == Recorded(ItemsText(last), used)
  {
  }

  lemma OneMore(input: string, s: Scan, at: nat, start: nat, comma: nat, end: nat, name: string, index: nat,
                used: set<string>, before: Items, arg: Items, more: set<string>)
    requires Reaches(input, s, at, comma, name, index, start, used) && Adjacent(input, start, comma, end, before, arg)
    requires more == Recorded(ItemsText(before), used)
    ensures Reaches(input, s, at, end, name, index + 1, comma + 1, more)
  {
    CommaMoves(input, s, name, index, start, used, ItemsText(before), comma);
    OverComma(input, s, At(s, name, index, start, used), at, comma, arg, end);
  }

  /** A comma and an argument without commas after it. */
  lemma OverComma(input: string, s: Scan, t: Scan, at: nat, comma: nat, arg: Items, end: nat)
    requires at <= comma < |input| && t == ScanFrom(input, s, at, comma) && Open(Feed(input, t, comma))
    requires ItemsOk(arg) && Commas(arg) == 0 && TextAt(input, comma + 1, ItemsText(arg)) &&
             end == comma + 1 + |ItemsText(arg)|
    ensures ScanFrom(input, s, at, end) == Feed(input, t, comma)
  {
    var u := Feed(input, t, comma);
    ScanOne(input, t, comma);
    ScanItems(input, u, comma + 1, arg, end);
    ScanJoin(input, s, t, u, at, comma, comma + 1);
    ScanJoin(input, s, u, u, at, comma + 1, end);
  }

  /** A name of letters, digits and underscores before a bracket is the function's name. */
  lemma NameIsRead(input: string, before: string, name: string, rest: string)
    requires input == before + (name + rest)
    requires forall i ::
               0 <= i < |name| ==>
                 'a' <= name[i] <= 'z' || 'A' <= name[i] <= 'Z' || '0' <= name[i] <= '9' || name[i] == '_'
    requires before == "" || before[|before| - 1] in " (,|&~:.-+"
    ensures |before| + |name| <= |input| && NameBefore(input, |before| + |name|) == name
  {
    var end := |before| + |name|;
    var start := NameStart(input, end);
    assert forall k :: |before| <= k < end ==> input[k] == name[k - |before|];
    assert before != "" ==> input[|before| - 1] == before[|before| - 1];
    assert start == |before|;
    assert input[|before|..end] == name;
  }

  lemma OpensBracket(input: string, s: Scan, at: nat, t: Scan)
    requires at < |input| && input[at] == '(' && Open(s) && t == ScanFrom(input, s, at, at + 1)
    ensures Open(t) && t.frames != [] && t == At(t, NameBefore(input, at), 0, at + 1, {})
  {
    ScanOne(input, s, at);
    assert t.frames[..|t.frames| - 1] == s.frames;
  }

  lemma ContextIs(input: string, f: Frame)
    requires f.argStart <= |input|
    requires var frames := ScanFrom(input, START, 0, |input|).frames; frames != [] && frames[|frames| - 1] == f
    ensures ContextOf(input) == ArgumentContext(input, f)
  {
    ScanInRange(input, |input|);
  }

  /**
   In a call the function, the number of the argument, where it begins and the names given before it are recognised.
   */
  lemma CallContext(input: string, s: Scan, at: nat, args: seq<Items>, n: nat, f: Frame)
    requires at < |input| && input[at] == '(' && s == ScanFrom(input, START, 0, at) && Open(s)
    requires 0 < n <= |args| && PlainArgs(args) && TextAt(input, at + 1, ArgsText(args, n))
    requires at + 1 + |ArgsText(args, n)| == |input|
    requires f == Frame(NameBefore(input, at), n - 1, at + 1 + LastStart(args, n), Given(args, n - 1))
    ensures f.argStart <= |input| && ContextOf(input) == ArgumentContext(input, f)
  {
    var t := ScanFrom(input, s, at, at + 1);
    var u := ScanFrom(input, t, at + 1, |input|);
    OpensBracket(input, s, at, t);
    ArgsScan(input, t, at + 1, args, n, |input|, NameBefore(input, at), f.argStart, f.used);
    ScanJoin(input, START, s, t, 0, at, at + 1);
    ScanJoin(input, START, t, u, 0, at + 1, |input|);
    LastArgText(input, at + 1, args, n);
    assert u.frames[|u.frames| - 1] == f;
    ContextIs(input, f);
  }

  // ---------- the argument being typed ----------

  predicate Blank(s: string) { forall i :: 0 <= i < |s| ==> IsSpace(s[i]) }

  lemma {:induction false} BlanksSkipped(blanks: string, rest: string)
    requires Blank(blanks) && (rest == "" || !IsSpace(rest[0]))
    ensures SpaceRun(blanks + rest, true) == |blanks|
  {
    if blanks == "" {
      assert blanks + rest == rest;
    } else {
      assert (blanks + rest)[1..] == blanks[1..] + rest;
      BlanksSkipped(blanks[1..], rest);
    }
  }

  lemma FirstIs(s: string, c: char, k: nat)
    requires k <= |s| && (forall j :: 0 <= j < k ==> s[j] != c) && (k < |s| ==> s[k] == c)
    ensures FirstOf(s, c, 0) == k
  {
  }

  lemma DropTwo<T>(a: seq<T>, b: seq<T>, c: seq<T>)
    ensures (a + (b + c))[|a|..] == b + c && (a + (b + c))[|a| + |b|..] == c
  {
  }

  lemma NamedIs(input: string, top: Frame, from: nat, eq: nat, gap: nat)
    requires top.argStart <= |input| && from == top.argStart + SpaceRun(input[top.argStart..], true)
    requires eq == FirstOf(input[from..], '=', 0) < |input| - from && gap == SpaceRun(input[from + eq + 1..], true)
    ensures ArgumentContext(input, top) ==
            Context(top.name, top.argIndex, Trim(input[from..][..eq]), true, top.used, from + eq + 1 + gap, true)
  {
  }

  lemma DropAgain<T>(s: seq<T>, i: nat, j: nat)
    requires i <= |s| && j <= |s| - i
    ensures s[i..][j..] == s[i + j..]
  {
  }

  lemma SplitsAtEquals(arg: string, name: string, rest: string)
    requires arg == name + ("=" + rest) && '=' !in name
    ensures FirstOf(arg, '=', 0) == |name| < |arg| && arg[..|name|] == name && arg[|name| + 1..] == rest
  {
    DropTwo(name, "=", rest);
    assert arg[|name|] == '=';
    assert forall j :: 0 <= j < |name| ==> arg[j] == name[j];
    FirstIs(arg, '=', |name|);
  }

  lemma ArgBegins(input: string, before: string, blanks: string, arg: string)
    requires input == before + (blanks + arg) && Blank(blanks) && (arg == "" || !IsSpace(arg[0]))
    ensures SpaceRun(input[|before|..], true) == |blanks| && input[|before| + |blanks|..] == arg
  {
    DropTwo(before, blanks, arg);
    BlanksSkipped(blanks, arg);
  }

  lemma ValueBegins(input: string, from: nat, eq: nat, gap: string, value: string)
    requires from <= |input| && eq < |input| - from && input[from..][eq + 1..] == gap + value
    requires Blank(gap) && (value == "" || !IsSpace(value[0]))
    ensures SpaceRun(input[from + eq + 1..], true) == |gap|
  {
    DropAgain(input, from, eq + 1);
    BlanksSkipped(gap, value);
  }

  lemma ValueFacts(input: string, from: nat, name: string, gap: string, value: string)
    requires from <= |input| && input[from..] == name + ("=" + (gap + value)) && '=' !in name
    requires Blank(gap) && (value == "" || !IsSpace(value[0]))
    ensures FirstOf(input[from..], '=', 0) == |name| < |input| - from && input[from..][..|name|] == name
    ensures SpaceRun(input[from + |name| + 1..], true) == |gap| && |input| == from + |name| + 1 + |gap| + |value|
  {
    SplitsAtEquals(input[from..], name, gap + value);
    ValueBegins(input, from, |name|, gap, value);
  }

  lemma NameIsKept(input: string, top: Frame, from: nat, name: string, gap: nat)
    requires top.argStart <= |input| && from == top.argStart + SpaceRun(input[top.argStart..], true)
    requires FirstOf(input[from..], '=', 0) == |name| < |input| - from && input[from..][..|name|] == name
    requires gap == SpaceRun(input[from + |name| + 1..], true)
    ensures ArgumentContext(input, top) ==
            Context(top.name, top.argIndex, Trim(name), true, top.used, from + |name| + 1 + gap, true)
  {
    NamedIs(input, top, from, |name|, gap);
  }

  /** `name=value`: the value is what is completed, for the argument of that name. */
  lemma NamedValue(input: string, top: Frame, before: string, blanks: string, arg: string, name: string, gap: string,
                   value: string)
    requires input == before + (blanks + arg) && arg == name + ("=" + (gap + value)) && top.argStart == |before|
    requires Blank(blanks) && name != "" && !IsSpace(name[0]) && '=' !in name
    requires Blank(gap) && (value == "" || !IsSpace(value[0]))
    ensures ArgumentContext(input, top) ==
            Context(top.name, top.argIndex, Trim(name), true, top.used, |input| - |value|, true)
  {
    var from := |before| + |blanks|;
    ArgBegins(input, before, blanks, arg);
    ValueFacts(input, from, name, gap, value);
    NameIsKept(input, top, from, name, |gap|);
  }

  lemma TokenBegins(arg: string, lead: string, token: string)
    requires arg == lead + token && (forall k :: 0 <= k < |token| ==> !IsTokenBreak(token[k]))
    requires lead == "" || IsTokenBreak(lead[|lead| - 1])
    ensures TokenStart(arg, |arg|) == |lead|
  {
    var start := TokenStart(arg, |arg|);
    assert forall k :: |lead| <= k < |arg| ==> arg[k] == token[k - |lead|];
    assert forall k :: 0 <= k < |lead| ==> arg[k] == lead[k];
  }

  lemma UnnamedIs(input: string, top: Frame, from: nat)
    requires top.argStart <= |input| && from == top.argStart + SpaceRun(input[top.argStart..], true)
    requires FirstOf(input[from..], '=', 0) == |input| - from
    ensures ArgumentContext(input, top) ==
            Context(top.name, top.argIndex, "", false, top.used, from + TokenStart(input[from..], |input| - from), true)
  {
  }

  /** Otherwise the last token of the argument is. */
  lemma LastToken(input: string, top: Frame, before: string, blanks: string, arg: string, lead: string, token: string)
    requires input == before + (blanks + arg) && arg == lead + token && top.argStart == |before|
    requires Blank(blanks) && '=' !in arg && (arg == "" || !IsSpace(arg[0]))
    requires forall k :: 0 <= k < |token| ==> !IsTokenBreak(token[k])
    requires lead == "" || IsTokenBreak(lead[|lead| - 1])
    ensures ArgumentContext(input, top) ==
            Context(top.name, top.argIndex, "", false, top.used, |input| - |token|, true)
  {
    ArgBegins(input, before, blanks, arg);
    FirstIs(arg, '=', |arg|);
    TokenBegins(arg, lead, token);
    UnnamedIs(input, top, |before| + |blanks|);
  }

  /** Where all brackets and quotes are closed, the last token of the whole input is. */
  lemma OutsideCalls(input: string, whole: Items, lead: string, token: string)
    requires ItemsOk(whole) && input == ItemsText(whole) && input == lead + token
    requires forall k :: 0 <= k < |token| ==> !IsTokenBreak(token[k])
    requires lead == "" || IsTokenBreak(lead[|lead| - 1])
    ensures ContextOf(input) == Context("", 0, "", false, {}, |lead|, false)
  {
    ScanItems(input, START, 0, whole, |input|);
    TokenBegins(input, lead, token);
  }

  /** Blanks, operators, dots and colons end a token. */
  lemma TokenBreaks(c: char)
    ensures IsTokenBreak(c) <==>
              IsSpace(c) || c == ',' || c == '|' || c == '&' || c == '~' || c == '(' || c == '.' || c == ':'
  {
    assert ",|&~(.:" == [',', '|', '&', '~', '(', '.', ':'];
  }

  // ---------- what is offered ----------

  function Begins(token: string): SourceItem -> bool { (si: SourceItem) => token <= si.name }

  /** A candidate replaces the token by the name, and opens a function's bracket, or both if it takes nothing. */
  function Offer(start: nat, token: string): SourceItem -> Completion {
    (si: SourceItem) =>
      Completion(si.name,
                 if !si.kind.Function? then si.name
                 else if si.hasParameters then si.name + ['('] else si.name + ['(', ')'],
                 start, si.kind, token, if token <= si.name then si.name[|token|..] else si.name, si.hasParameters)
  }

  lemma OfferIs(si: SourceItem, start: nat, token: string)
    ensures CompletionFor(si, start, token) == Offer(start, token)(si)
  {
  }

  lemma {:induction false} MatchesAre(items: seq<SourceItem>, n: nat, start: nat, token: string)
    requires n <= |items|
    ensures MatchUpTo(items, n, start, token) == Mapped(Offer(start, token), Filter(Begins(token), items[..n]))
  {
    if n > 0 {
      var before := Filter(Begins(token), items[..n - 1]);
      MatchesAre(items, n - 1, start, token);
      FilterSnoc(Begins(token), items, n - 1);
      OfferIs(items[n - 1], start, token);
      if token <= items[n - 1].name {
        MappedSnoc(Offer(start, token), before, items[n - 1]);
      } else {
        Empties(before);
        Empties(MatchUpTo(items, n - 1, start, token));
      }
    }
  }

  lemma AllMatches(items: seq<SourceItem>, start: nat, token: string)
    ensures MatchUpTo(items, |items|, start, token) == Mapped(Offer(start, token), Filter(Begins(token), items))
  {
    MatchesAre(items, |items|, start, token);
    Empties(items);
  }

  /** For an empty input: the history, then every item. */
  lemma OfferedAtStart(p: Provider, history: seq<string>)
    ensures GetCompletionItems(p, "", history) ==
            Mapped((h: string) => Completion(h, h, 0, History, "", h, false), history) + Mapped(Offer(0, ""), p.items)
  {
    AllMatches(p.items, 0, "");
    FilterAll(Begins(""), p.items);
    SameElements(FromHistory(history), Mapped((h: string) => Completion(h, h, 0, History, "", h, false), history));
  }

  /**
   Outside calls, and in a call of an unknown function: every item whose name begins with the token, if there is one.
   */
  lemma OfferedOutside(p: Provider, input: string, history: seq<string>, c: Context, token: string)
    requires input != "" && c == ContextOf(input) && token == input[c.tokenStart..]
    requires !c.inFunction || c.functionName !in p.functions
    ensures GetCompletionItems(p, input, history) ==
            if token == "" then [] else Mapped(Offer(c.tokenStart, token), Filter(Begins(token), p.items))
  {
    AllMatches(p.items, c.tokenStart, token);
  }

  /** The parameters still to be given by name whose `name=` begins with the token. */
  function Wanted(used: set<string>, token: string): Parameter -> bool {
    (q: Parameter) => q.named && q.name !in used && token <= q.name + ['=']
  }

  function Label(start: nat, token: string): Parameter -> Completion {
    (q: Parameter) =>
      Completion(q.name + ['='], q.name + ['='], start, Argument, token,
                 if token <= q.name + ['='] then (q.name + ['='])[|token|..] else "", false)
  }

  lemma {:induction false} LabelsAre(ps: seq<Parameter>, n: nat, start: nat, token: string, used: set<string>)
    requires n <= |ps|
    ensures Labels(ps, n, start, token, used) == Mapped(Label(start, token), Filter(Wanted(used, token), ps[..n]))
  {
    if n > 0 {
      var before := Filter(Wanted(used, token), ps[..n - 1]);
      LabelsAre(ps, n - 1, start, token, used);
      FilterSnoc(Wanted(used, token), ps, n - 1);
      if Wanted(used, token)(ps[n - 1]) {
        MappedSnoc(Label(start, token), before, ps[n - 1]);
      } else {
        Empties(before);
        Empties(Labels(ps, n - 1, start, token, used));
      }
    }
  }

  /** The list a parameter draws on, if it has one. */
  function ListOf(p: Provider, q: Option<Parameter>): seq<SourceItem> {
    if q.Some? && q.value.source.Some? && q.value.source.value in p.bySource then p.bySource[q.value.source.value]
    else []
  }

  lemma NothingMatches(items: seq<SourceItem>, start: nat, token: string)
    requires items == []
    ensures Mapped(Offer(start, token), Filter(Begins(token), items)) == []
  {
  }

  lemma ValuesAre(p: Provider, source: Option<SourceId>, items: seq<SourceItem>, start: nat, token: string,
                  allowEmpty: bool)
    requires items == if source.Some? && source.value in p.bySource then p.bySource[source.value] else []
    ensures Values(p, source, start, token, allowEmpty) ==
            if token == "" && !allowEmpty then [] else Mapped(Offer(start, token), Filter(Begins(token), items))
  {
    AllMatches(items, start, token);
    if items == [] { NothingMatches(items, start, token); }
  }

  /**
   After `name=` of a known function: every value of that parameter's list that begins with what is typed, all if
   nothing is.
   */
  lemma OfferedAsValue(p: Provider, input: string, history: seq<string>, c: Context, token: string,
                       q: Option<Parameter>)
    requires input != "" && c == ContextOf(input) && token == input[c.tokenStart..]
    requires c.inFunction && c.functionName in p.functions && c.namedValue
    requires q == NamedParameter(p.functions[c.functionName], c.argName)
    ensures GetCompletionItems(p, input, history) ==
            Mapped(Offer(c.tokenStart, token), Filter(Begins(token), ListOf(p, q)))
  {
    if q.Some? {
      ValuesAre(p, q.value.source, ListOf(p, q), c.tokenStart, token, true);
    } else {
      NothingMatches(ListOf(p, q), c.tokenStart, token);
    }
  }

  /**
   At an argument of a known function: the labels still to be given, then the values of the parameter in that place.
   */
  lemma OfferedAsArgument(p: Provider, input: string, history: seq<string>, c: Context, token: string,
                          ps: seq<Parameter>)
    requires input != "" && c == ContextOf(input) && token == input[c.tokenStart..]
    requires c.inFunction && c.functionName in p.functions && !c.namedValue && ps == p.functions[c.functionName]
    ensures GetCompletionItems(p, input, history) ==
            Mapped(Label(c.tokenStart, token), Filter(Wanted(c.used, token), ps)) +
            if token == "" then []
            else Mapped(Offer(c.tokenStart, token), Filter(Begins(token), ListOf(p, ParameterAt(ps, c.argIndex))))
  {
    var q := ParameterAt(ps, c.argIndex);
    LabelsAre(ps, |ps|, c.tokenStart, token, c.used);
    Empties(ps);
    Empties(Labels(ps, |ps|, c.tokenStart, token, c.used));
    if q.Some? {
      ValuesAre(p, q.value.source, ListOf(p, q), c.tokenStart, token, false);
    } else {
      NothingMatches(ListOf(p, q), c.tokenStart, token);
    }
  }

  // ---------- parameters by place and by name ----------

  predicate IsPositional(q: Parameter) { q.positional }

  lemma FilterCons<T>(p: T -> bool, x: T, xs: seq<T>)
    ensures Filter(p, [x] + xs) == (if p(x) then [x] else []) + Filter(p, xs)
  {
    FilterAppend(p, [x], xs);
    FilterOne(p, x);
  }

  /** The parameter in place `index` among the positional ones, or a variadic one before it. */
  ghost predicate InPlace(positional: seq<Parameter>, index: nat, q: Option<Parameter>) {
    match q
    case Some(r) =>
      exists j :: 0 <= j < |positional| && j <= index && positional[j] == r && (j == index || r.variadic) &&
                  forall i :: 0 <= i < j ==> !positional[i].variadic
    case None => |positional| <= index && forall i :: 0 <= i < |positional| ==> !positional[i].variadic
  }

  lemma InPlaceCons(x: Parameter, rest: seq<Parameter>, index: nat, q: Option<Parameter>)
    requires index > 0 && !x.variadic && InPlace(rest, index - 1, q)
    ensures InPlace([x] + rest, index, q)
  {
    var all := [x] + rest;
    assert forall i :: 0 <= i < |rest| ==> all[i + 1] == rest[i];
    if q.Some? {
      var j :| 0 <= j < |rest| && j <= index - 1 && rest[j] == q.value && (j == index - 1 || q.value.variadic) &&
               forall i :: 0 <= i < j ==> !rest[i].variadic;
      assert all[j + 1] == q.value;
      forall i | 0 <= i < j + 1 ensures !all[i].variadic { if i > 0 { assert all[i] == rest[i - 1]; } }
    } else {
      forall i | 0 <= i < |all| ensures !all[i].variadic { if i > 0 { assert all[i] == rest[i - 1]; } }
    }
  }

  lemma FirstInPlace(positional: seq<Parameter>, index: nat, r: Parameter)
    requires positional != [] && positional[0] == r && (index == 0 || r.variadic)
    ensures InPlace(positional, index, Some(r))
  {
  }

  lemma HeadAndTail<T>(xs: seq<T>)
    requires xs != []
    ensures xs == [xs[0]] + xs[1..]
  {
  }

  lemma {:induction false} ParameterInPlace(ps: seq<Parameter>, index: nat)
    ensures InPlace(Filter(IsPositional, ps), index, ParameterAt(ps, index))
  {
    if ps != [] {
      HeadAndTail(ps);
      FilterCons(IsPositional, ps[0], ps[1..]);
      Empties(Filter(IsPositional, ps[1..]));
      if !ps[0].positional {
        ParameterInPlace(ps[1..], index);
      } else if index > 0 && !ps[0].variadic {
        ParameterInPlace(ps[1..], index - 1);
        InPlaceCons(ps[0], Filter(IsPositional, ps[1..]), index, ParameterAt(ps, index));
      } else {
        FirstInPlace(Filter(IsPositional, ps), index, ps[0]);
      }
    }
  }

  /** The first parameter that can be given by that name. */
  lemma {:induction false} ParameterByName(ps: seq<Parameter>, name: string)
    ensures var q := NamedParameter(ps, name);
            if q.Some? then exists i :: 0 <= i < |ps| && ps[i] == q.value && ps[i].named && ps[i].name == name &&
                                        forall j :: 0 <= j < i ==> !(ps[j].named && ps[j].name == name)
            else forall j :: 0 <= j < |ps| ==> !(ps[j].named && ps[j].name == name)
  {
    if ps != [] && !(ps[0].named && ps[0].name == name) {
      ParameterByName(ps[1..], name);
      assert forall j :: 0 < j < |ps| ==> ps[j] == ps[1..][j - 1];
      var q := NamedParameter(ps[1..], name);
      if q.Some? {
        var i :| 0 <= i < |ps[1..]| && ps[1..][i] == q.value && ps[1..][i].named && ps[1..][i].name == name &&
                 forall j :: 0 <= j < i ==> !(ps[1..][j].named && ps[1..][j].name == name);
        assert ps[i + 1] == q.value;
      }
    }
  }
}
