/** Completing a revset expression and splicing the choice in (internal/ui/revset/completion_provider.go, revset.go). */
module RevsetCompletion {
  import opened Text
  import opened RevsetScan
  import opened RemoteList

  // ---------- the context at the end of the input ----------

  predicate IsTokenBreak(c: char) { IsSpace(c) || c in ",|&~(.:" }

  /** Where the last token of the first `n` characters begins. */
  function TokenStart(input: string, n: nat): (start: nat)
    requires n <= |input|
    ensures start <= n && (forall k :: start <= k < n ==> !IsTokenBreak(input[k])) &&
            (start > 0 ==> IsTokenBreak(input[start - 1]))
  {
    if n == 0 || IsTokenBreak(input[n - 1]) then n else TokenStart(input, n - 1)
  }

  datatype Context = Context(functionName: string, argIndex: nat, argName: string, namedValue: bool, used: set<string>,
                             tokenStart: nat, inFunction: bool)

  ghost predicate StartsInRange(frames: seq<Frame>, n: nat) {
    forall k :: 0 <= k < |frames| ==> frames[k].argStart <= n
  }

  lemma {:induction false} ScanInRange(input: string, j: nat)
    requires j <= |input|
    ensures StartsInRange(ScanFrom(input, START, 0, j).frames, j)
  {
    if j > 0 { ScanInRange(input, j - 1); }
  }

  /** Innermost bracket `top` is open: the argument being typed, or the value after its `=`. */
  function ArgumentContext(input: string, top: Frame): (c: Context)
    requires top.argStart <= |input|
    ensures c.tokenStart <= |input| && c.functionName == top.name && c.argIndex == top.argIndex && c.inFunction
  {
    var from := top.argStart + SpaceRun(input[top.argStart..], true);
    var arg := input[from..];
    var eq := FirstOf(arg, '=', 0);
    if eq < |arg| then
      var value := from + eq + 1;
      Context(top.name, top.argIndex, Trim(arg[..eq]), true, top.used, value + SpaceRun(input[value..], true), true)
    else Context(top.name, top.argIndex, "", false, top.used, from + TokenStart(arg, |arg|), true)
  }

  function ContextOf(input: string): (c: Context)
    ensures c.tokenStart <= |input|
  {
    var frames := ScanFrom(input, START, 0, |input|).frames;
    if frames == [] then Context("", 0, "", false, {}, TokenStart(input, |input|), false)
    else
      ScanInRange(input, |input|);
      ArgumentContext(input, frames[|frames| - 1])
  }

  method AnalyzeContext(input: string) returns (c: Context)
    ensures c == ContextOf(input)
  {
    var s := START;
    for i := 0 to |input|
      invariant s == ScanFrom(input, START, 0, i)
    {
      s := Feed(input, s, i);
    }
    if |s.frames| == 0 { return Context("", 0, "", false, {}, TokenStart(input, |input|), false); }
    ScanInRange(input, |input|);
    c := ArgumentContext(input, s.frames[|s.frames| - 1]);
  }

  /** Complete pieces with an opening bracket before each but the first: `n` calls are open. */
  function NestedText(pieces: seq<Items>, n: nat): string
    requires n < |pieces|
  {
    if n == 0 then ItemsText(pieces[0]) else NestedText(pieces, n - 1) + ("(" + ItemsText(pieces[n]))
  }

  lemma CallText(input: string, a: string, b: string)
    requires TextAt(input, 0, a + ("(" + b))
    ensures TextAt(input, 0, a) && |a| < |input| && input[|a|] == '(' && TextAt(input, |a| + 1, b)
  {
    TextAtAppend(input, 0, a, "(" + b);
    TextAtAppend(input, |a|, "(", b);
    assert input[|a| + 0] == ("(" + b)[0];
  }

  /** Outside quotes with `n` brackets open, the innermost for function `name` and at argument `index`. */
  ghost predicate InCall(s: Scan, n: nat, name: string, index: nat) {
    Open(s) && |s.frames| == n && (n > 0 ==> s.frames[n - 1].name == name && s.frames[n - 1].argIndex == index)
  }

  lemma OpensCall(input: string, s: Scan, n: nat, at: nat)
    requires Open(s) && |s.frames| == n && at < |input| && input[at] == '('
    ensures InCall(Feed(input, s, at), n + 1, NameBefore(input, at), 0)
  {
  }

  lemma StaysInCall(s: Scan, t: Scan, n: nat, name: string, commas: nat)
    requires InCall(s, n, name, 0) && n > 0 && Moved(s, t, commas)
    ensures InCall(t, n, name, commas)
  {
  }

  /** One more bracket and a complete piece after it. */
  lemma CallStep(input: string, s: Scan, t: Scan, n: nat, at: nat, piece: Items, end: nat)
    requires Open(s) && |s.frames| == n && at < |input| && input[at] == '(' && t == ScanFrom(input, s, at, at + 1)
    requires ItemsOk(piece) && TextAt(input, at + 1, ItemsText(piece)) && end == at + 1 + |ItemsText(piece)|
    ensures InCall(ScanFrom(input, t, at + 1, end), n + 1, NameBefore(input, at), Commas(piece))
  {
    ScanOne(input, s, at);
    OpensCall(input, s, n, at);
    ScanItems(input, t, at + 1, piece, end);
    StaysInCall(t, ScanFrom(input, t, at + 1, end), n + 1, NameBefore(input, at), Commas(piece));
  }

  /** Where the n-th open bracket stands. */
  function BracketAt(pieces: seq<Items>, n: nat): nat
    requires 0 < n < |pieces|
  {
    |NestedText(pieces, n - 1)|
  }

  /** The scan of one more call, from the scan `s` up to its bracket. */
  lemma NestedStep(input: string, start: Scan, s: Scan, n: nat, at: nat, piece: Items, end: nat)
    requires at < |input| && input[at] == '(' && ItemsOk(piece) && TextAt(input, at + 1, ItemsText(piece))
    requires s == ScanFrom(input, start, 0, at) && Open(s) && |s.frames| == n && end == at + 1 + |ItemsText(piece)|
    ensures InCall(ScanFrom(input, start, 0, end), n + 1, NameBefore(input, at), Commas(piece))
  {
    var t := ScanFrom(input, s, at, at + 1);
    var u := ScanFrom(input, t, at + 1, end);
    CallStep(input, s, t, n, at, piece, end);
    ScanJoin(input, start, s, t, 0, at, at + 1);
    ScanJoin(input, start, t, u, 0, at + 1, end);
  }

  lemma {:induction false} NestedScan(input: string, pieces: seq<Items>, n: nat, end: nat)
    requires n < |pieces| && (forall i :: 0 <= i < |pieces| ==> ItemsOk(pieces[i])) &&
             TextAt(input, 0, NestedText(pieces, n))
    requires end == |NestedText(pieces, n)|
    ensures n > 0 ==> BracketAt(pieces, n) < |input|
    ensures InCall(ScanFrom(input, START, 0, end), n, if n > 0 then NameBefore(input, BracketAt(pieces, n)) else "",
                   Commas(pieces[n]))
  {
    if n == 0 {
      ScanItems(input, START, 0, pieces[0], end);
    } else {
      var a := NestedText(pieces, n - 1);
      CallText(input, a, ItemsText(pieces[n]));
      NestedScan(input, pieces, n - 1, |a|);
      NestedStep(input, START, ScanFrom(input, START, 0, |a|), n - 1, |a|, pieces[n], end);
    }
  }

  lemma InsideCall(input: string, s: Scan, n: nat, name: string, index: nat)
    requires s == ScanFrom(input, START, 0, |input|) && InCall(s, n, name, index) && n > 0
    ensures ContextOf(input).inFunction && ContextOf(input).functionName == name && ContextOf(input).argIndex == index
  {
    ScanInRange(input, |input|);
  }

  /** However many calls are open, the innermost function and the argument being typed are recognised. */
  lemma CallIsRecognised(pieces: seq<Items>, n: nat, input: string)
    requires 0 < n < |pieces| && (forall i :: 0 <= i < |pieces| ==> ItemsOk(pieces[i])) &&
             input == NestedText(pieces, n)
    ensures BracketAt(pieces, n) < |input| && ContextOf(input).inFunction &&
            ContextOf(input).argIndex == Commas(pieces[n])
    ensures ContextOf(input).functionName == NameBefore(input, BracketAt(pieces, n))
  {
    NestedScan(input, pieces, n, |input|);
    InsideCall(input, ScanFrom(input, START, 0, |input|), n, NameBefore(input, BracketAt(pieces, n)),
               Commas(pieces[n]));
  }

  // ---------- candidates ----------

  datatype Kind = Function | Alias | History | Bookmark | Tag | Remote | Argument

  datatype SourceItem = SourceItem(name: string, kind: Kind, hasParameters: bool)

  datatype Completion = Completion(name: string, insertText: string, replaceStart: int, kind: Kind,
                                   matched: string, rest: string, hasParameters: bool)

  datatype SourceId = Revsets | Remotes

  // What an argument accepts: `source` names a list of values, if any.
  datatype Parameter = Parameter(name: string, named: bool, positional: bool, variadic: bool, source: Option<SourceId>)

  datatype Provider = Provider(items: seq<SourceItem>, bySource: map<SourceId, seq<SourceItem>>,
                               functions: map<string, seq<Parameter>>)

  function InsertText(si: SourceItem): string {
    if !si.kind.Function? then si.name else if si.hasParameters then si.name + "(" else si.name + "()"
  }

  function CompletionFor(si: SourceItem, start: nat, token: string): Completion {
    Completion(si.name, InsertText(si), start, si.kind, token, if token <= si.name then si.name[|token|..] else si.name,
               si.hasParameters)
  }

  function MatchUpTo(items: seq<SourceItem>, n: nat, start: nat, token: string): seq<Completion>
    requires n <= |items|
  {
    if n == 0 then []
    else
      MatchUpTo(items, n - 1, start, token) +
      if token <= items[n - 1].name then [CompletionFor(items[n - 1], start, token)] else []
  }

  function MatchItems(items: seq<SourceItem>, start: nat, token: string, allowEmpty: bool): seq<Completion> {
    if token == "" && !allowEmpty then [] else MatchUpTo(items, |items|, start, token)
  }

  method MatchSourceItems(items: seq<SourceItem>, start: nat, token: string, allowEmpty: bool)
    returns (found: seq<Completion>)
    ensures found == MatchItems(items, start, token, allowEmpty)
  {
    found := [];
    if token == "" && !allowEmpty { return; }
    for i := 0 to |items|
      invariant found == MatchUpTo(items, i, start, token)
    {
      if token <= items[i].name { found := found + [CompletionFor(items[i], start, token)]; }
    }
  }

  function Labels(ps: seq<Parameter>, n: nat, start: nat, token: string, used: set<string>): seq<Completion>
    requires n <= |ps|
  {
    if n == 0 then []
    else
      var p, text := ps[n - 1], ps[n - 1].name + "=";
      Labels(ps, n - 1, start, token, used) +
      if p.named && p.name !in used && token <= text
        then [Completion(text, text, start, Argument, token, text[|token|..], false)]
      else []
  }

  function ParameterAt(ps: seq<Parameter>, index: nat): Option<Parameter> {
    if ps == [] then None
    else if !ps[0].positional then ParameterAt(ps[1..], index)
    else if index == 0 || ps[0].variadic then Some(ps[0])
    else ParameterAt(ps[1..], index - 1)
  }

  function NamedParameter(ps: seq<Parameter>, name: string): Option<Parameter> {
    if ps == [] then None else if ps[0].named && ps[0].name == name then Some(ps[0]) else NamedParameter(ps[1..], name)
  }

  function Values(p: Provider, source: Option<SourceId>, start: nat, token: string, allowEmpty: bool): seq<Completion> {
    if source.None? || source.value !in p.bySource then []
    else MatchItems(p.bySource[source.value], start, token, allowEmpty)
  }

  function ArgumentCompletions(p: Provider, c: Context, token: string): seq<Completion> {
    if c.functionName !in p.functions then MatchItems(p.items, c.tokenStart, token, false)
    else
      var ps := p.functions[c.functionName];
      if c.namedValue then
        var arg := NamedParameter(ps, c.argName);
        if arg.None? then [] else Values(p, arg.value.source, c.tokenStart, token, true)
      else
        var labels, arg := Labels(ps, |ps|, c.tokenStart, token, c.used), ParameterAt(ps, c.argIndex);
        if arg.None? then labels else labels + Values(p, arg.value.source, c.tokenStart, token, false)
  }

  function FromHistory(history: seq<string>): seq<Completion> {
    seq(|history|,
        i requires 0 <= i < |history| => Completion(history[i], history[i], 0, History, "", history[i], false))
  }

  function GetCompletionItems(p: Provider, input: string, history: seq<string>): seq<Completion> {
    if input == "" then FromHistory(history) + MatchUpTo(p.items, |p.items|, 0, "")
    else
      var c := ContextOf(input);
      var token := input[c.tokenStart..];
      if !c.inFunction then MatchItems(p.items, c.tokenStart, token, false) else ArgumentCompletions(p, c, token)
  }

  // ---------- accepting a candidate ----------

  function ApplyCompletion(input: string, item: Completion): string {
    if item.kind.History? then item.name
    else
      var bare := item.insertText == "";
      var text := if bare then InsertText(SourceItem(item.name, item.kind, item.hasParameters)) else item.insertText;
      var start := if bare then TokenStart(input, |input|) else item.replaceStart;
      input[..if start < 0 || start > |input| then |input| else start] + text
  }

  /** The candidate replaces the end of the input by something that begins with it. */
  ghost predicate Extends(input: string, c: Completion) {
    c.kind.History? ||
    (0 <= c.replaceStart <= |input| && input[c.replaceStart..] <= c.insertText &&
     (c.insertText == "" ==> c.name == "" && !c.kind.Function?))
  }

  ghost predicate AllExtend(input: string, cs: seq<Completion>) { forall k :: 0 <= k < |cs| ==> Extends(input, cs[k]) }

  lemma {:induction false} MatchesExtend(input: string, items: seq<SourceItem>, n: nat, start: nat, token: string)
    requires n <= |items| && start <= |input| && token == input[start..]
    ensures AllExtend(input, MatchUpTo(items, n, start, token))
  {
    if n > 0 { MatchesExtend(input, items, n - 1, start, token); }
  }

  lemma {:induction false} LabelsExtend(input: string, ps: seq<Parameter>, n: nat, start: nat, token: string,
                                        used: set<string>)
    requires n <= |ps| && start <= |input| && token == input[start..]
    ensures AllExtend(input, Labels(ps, n, start, token, used))
  {
    if n > 0 { LabelsExtend(input, ps, n - 1, start, token, used); }
  }

  lemma ArgumentsExtend(p: Provider, input: string, c: Context)
    requires c.tokenStart <= |input|
    ensures AllExtend(input, ArgumentCompletions(p, c, input[c.tokenStart..]))
  {
    var token := input[c.tokenStart..];
    MatchesExtend(input, p.items, |p.items|, c.tokenStart, token);
    if c.functionName in p.functions {
      var ps := p.functions[c.functionName];
      LabelsExtend(input, ps, |ps|, c.tokenStart, token, c.used);
      forall source | source in p.bySource
        ensures AllExtend(input, MatchUpTo(p.bySource[source], |p.bySource[source]|, c.tokenStart, token))
      {
        MatchesExtend(input, p.bySource[source], |p.bySource[source]|, c.tokenStart, token);
      }
    }
  }

  lemma CompletionsExtend(p: Provider, input: string, history: seq<string>)
    ensures AllExtend(input, GetCompletionItems(p, input, history))
  {
    var c := ContextOf(input);
    if input == "" {
      MatchesExtend(input, p.items, |p.items|, 0, "");
    } else {
      MatchesExtend(input, p.items, |p.items|, c.tokenStart, input[c.tokenStart..]);
      ArgumentsExtend(p, input, c);
    }
  }

  lemma SpliceKeeps<T>(input: seq<T>, start: nat, text: seq<T>)
    requires start <= |input|
    ensures input <= input[..start] + text <==> input[start..] <= text
  {
    var out := input[..start] + text;
    if input <= out {
      assert forall k :: start <= k < |input| ==> input[k] == out[k];
    } else if input[start..] <= text {
      assert forall k :: 0 <= k < |input| ==> input[k] == out[k];
    }
  }

  /**
   Accepting keeps everything typed exactly when the candidate has text to insert or there is no last token to fall back
   to.
   */
  lemma AcceptKeepsTypedIff(p: Provider, input: string, history: seq<string>, k: nat)
    requires k < |GetCompletionItems(p, input, history)| && !GetCompletionItems(p, input, history)[k].kind.History?
    ensures var item := GetCompletionItems(p, input, history)[k];
            input <= ApplyCompletion(input, item) <==> item.insertText != "" || TokenStart(input, |input|) == |input|
  {
    var item := GetCompletionItems(p, input, history)[k];
    CompletionsExtend(p, input, history);
    assert Extends(input, item);
    SpliceKeeps(input, item.replaceStart, item.insertText);
    SpliceKeeps(input, TokenStart(input, |input|), "");
  }

  // ---------- every candidate has text to insert ----------

  predicate AllNamed(items: seq<SourceItem>) { forall i :: 0 <= i < |items| ==> items[i].name != "" }

  /** A value offered after `name=` has a name. */
  predicate NamedValuesHaveNames(p: Provider) {
    forall f, i :: f in p.functions && 0 <= i < |p.functions[f]| ==> NamedValues(p, p.functions[f][i])
  }

  predicate NamedValues(p: Provider, q: Parameter) {
    q.named && q.source.Some? && q.source.value in p.bySource ==> AllNamed(p.bySource[q.source.value])
  }

  ghost predicate AllHaveText(cs: seq<Completion>) { forall k :: 0 <= k < |cs| ==> cs[k].insertText != "" }

  lemma {:induction false} MatchesHaveText(items: seq<SourceItem>, n: nat, start: nat, token: string)
    requires n <= |items| && (token != "" || AllNamed(items))
    ensures AllHaveText(MatchUpTo(items, n, start, token))
  {
    if n > 0 { MatchesHaveText(items, n - 1, start, token); }
  }

  lemma ListHasText(items: seq<SourceItem>, start: nat, token: string, allowEmpty: bool)
    requires allowEmpty ==> AllNamed(items)
    ensures AllHaveText(MatchItems(items, start, token, allowEmpty))
  {
    if token != "" || allowEmpty { MatchesHaveText(items, |items|, start, token); }
  }

  lemma {:induction false} LabelsHaveText(ps: seq<Parameter>, n: nat, start: nat, token: string, used: set<string>)
    requires n <= |ps|
    ensures AllHaveText(Labels(ps, n, start, token, used))
  {
    if n > 0 { LabelsHaveText(ps, n - 1, start, token, used); }
  }

  lemma {:induction false} NamedParameterAt(ps: seq<Parameter>, name: string) returns (i: nat)
    requires NamedParameter(ps, name).Some?
    ensures i < |ps| && ps[i].named && NamedParameter(ps, name) == Some(ps[i])
  {
    i := 0;
    if !(ps[0].named && ps[0].name == name) {
      var j := NamedParameterAt(ps[1..], name);
      i := j + 1;
    }
  }

  lemma NamedValueHasText(p: Provider, f: string, name: string, start: nat, token: string)
    requires NamedValuesHaveNames(p) && f in p.functions && NamedParameter(p.functions[f], name).Some?
    ensures AllHaveText(Values(p, NamedParameter(p.functions[f], name).value.source, start, token, true))
  {
    var i := NamedParameterAt(p.functions[f], name);
    var q := p.functions[f][i];
    assert NamedValues(p, q);
    if q.source.Some? && q.source.value in p.bySource { ListHasText(p.bySource[q.source.value], start, token, true); }
  }

  lemma PositionalValueHasText(p: Provider, source: Option<SourceId>, start: nat, token: string)
    ensures AllHaveText(Values(p, source, start, token, false))
  {
    if source.Some? && source.value in p.bySource { ListHasText(p.bySource[source.value], start, token, false); }
  }

  lemma ArgumentsHaveText(p: Provider, c: Context, token: string)
    requires NamedValuesHaveNames(p)
    ensures AllHaveText(ArgumentCompletions(p, c, token))
  {
    ListHasText(p.items, c.tokenStart, token, false);
    if c.functionName in p.functions {
      var ps := p.functions[c.functionName];
      LabelsHaveText(ps, |ps|, c.tokenStart, token, c.used);
      if NamedParameter(ps, c.argName).Some? { NamedValueHasText(p, c.functionName, c.argName, c.tokenStart, token); }
      if ParameterAt(ps, c.argIndex).Some? {
        PositionalValueHasText(p, ParameterAt(ps, c.argIndex).value.source, c.tokenStart, token);
      }
    }
  }

  /** Accepting a candidate computed for the input keeps everything typed. */
  lemma AcceptKeepsTyped(p: Provider, input: string, history: seq<string>, k: nat)
    requires NamedValuesHaveNames(p)
    requires k < |GetCompletionItems(p, input, history)| && !GetCompletionItems(p, input, history)[k].kind.History?
    ensures input <= ApplyCompletion(input, GetCompletionItems(p, input, history)[k])
  {
    var c := ContextOf(input);
    if input != "" {
      AcceptKeepsTypedIff(p, input, history, k);
      ListHasText(p.items, c.tokenStart, input[c.tokenStart..], false);
      ArgumentsHaveText(p, c, input[c.tokenStart..]);
    }
  }

  // ---------- the lists the program builds ----------

  /**
   Of the built-in functions' parameters only `remote` is also taken by name
   (internal/jj/source/function_source.go:171-184).
   */
  predicate BuiltIn(q: Parameter) { q.named ==> q == Parameter("remote", true, true, false, Some(Remotes)) }

  function RemoteItems(names: seq<string>): seq<SourceItem> { Mapped(name => SourceItem(name, Remote, false), names) }

  /** Whatever jj prints as its remotes, with the built-in functions nothing typed is ever lost. */
  lemma BuiltInKeepsTyped(p: Provider, output: string, preferred: string, input: string, history: seq<string>, k: nat)
    requires forall f, i :: f in p.functions && 0 <= i < |p.functions[f]| ==> BuiltIn(p.functions[f][i])
    requires Remotes in p.bySource ==> p.bySource[Remotes] == RemoteItems(RemoteNames(output, preferred))
    requires k < |GetCompletionItems(p, input, history)| && !GetCompletionItems(p, input, history)[k].kind.History?
    ensures input <= ApplyCompletion(input, GetCompletionItems(p, input, history)[k])
  {
    RemotesHaveNames(output, preferred);
    forall f, i | f in p.functions && 0 <= i < |p.functions[f]| ensures NamedValues(p, p.functions[f][i]) {
      assert BuiltIn(p.functions[f][i]);
    }
    AcceptKeepsTyped(p, input, history, k);
  }
}
