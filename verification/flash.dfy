/** Tracking commands whose start and end are reported separately, in either order (internal/ui/flash/flash.go). */
module Flash {
  import opened Text

  // A shown message; `command` is empty unless it reports a finished command.
  datatype Message = Message(id: nat, text: string, command: string, err: Option<string>)

  datatype Outcome = Outcome(output: string, err: Option<string>)

  datatype State = State(messages: seq<Message>, history: seq<Message>, commands: map<int, string>,
                         results: map<int, Outcome>, currentId: nat)

  const HISTORY_LIMIT := 50

  const FRESH := State([], [], map[], map[], 0)

  datatype Event =
    | Running(id: int, command: string)
    | Completed(id: int, outcome: Outcome)
    | Note(text: string, err: Option<string>)
    | Expire(messageId: nat)
    | DismissOldest
    | DeleteEntry(entryId: nat)

  // ---------- one message ----------

  function LastOf<T>(s: seq<T>, n: nat): seq<T> { if |s| > n then s[|s| - n..] else s }

  function MessageFor(id: nat, text: string, command: string, err: Option<string>): Message {
    Message(id, Trim(text), command, err)
  }

  function Remember(history: seq<Message>, m: Message): seq<Message> {
    if m.command != "" then LastOf(history + [m], HISTORY_LIMIT) else history
  }

  function Show(s: State, m: Message): State {
    s.(messages := s.messages + [m], currentId := m.id, history := Remember(s.history, m))
  }

  predicate NothingToSay(text: string, command: string, err: Option<string>) {
    text == "" && err.None? && command == ""
  }

  /** AddWithCommand: nothing at all is worth no message; a command's message is also remembered. */
  function AddWithCommand(s: State, text: string, command: string, err: Option<string>): State {
    if NothingToSay(Trim(text), command, err) then s else Show(s, MessageFor(s.currentId + 1, text, command, err))
  }

  function IndexOf(ms: seq<Message>, id: nat, i: nat): (k: nat)
    requires i <= |ms|
    ensures i <= k <= |ms| && (k < |ms| ==> ms[k].id == id)
    decreases |ms| - i
  {
    if i == |ms| || ms[i].id == id then i else IndexOf(ms, id, i + 1)
  }

  function WithoutMessage(ms: seq<Message>, id: nat): seq<Message> {
    var k := IndexOf(ms, id, 0);
    if k == |ms| then ms else ms[..k] + ms[k + 1..]
  }

  function OnRunning(s: State, id: int, command: string): State {
    if id in s.results then AddWithCommand(s.(commands := s.commands - {id}, results := s.results - {id}),
                                           s.results[id].output, command, s.results[id].err)
    else s.(commands := s.commands[id := command])
  }

  function OnCompleted(s: State, id: int, o: Outcome): State {
    if id == 0 then AddWithCommand(s, o.output, "", o.err)
    else if id !in s.commands || s.commands[id] == "" then s.(results := s.results[id := o])
    else AddWithCommand(s.(commands := s.commands - {id}), o.output, s.commands[id], o.err)
  }

  function Apply(s: State, e: Event): State {
    match e
    case Running(id, command) => OnRunning(s, id, command)
    case Completed(id, o) => OnCompleted(s, id, o)
    case Note(text, err) => AddWithCommand(s, text, "", err)
    case Expire(id) => s.(messages := WithoutMessage(s.messages, id))
    case DismissOldest => if s.messages == [] then s else s.(messages := s.messages[1..])
    case DeleteEntry(id) => s.(history := WithoutMessage(s.history, id), messages := WithoutMessage(s.messages, id))
  }

  // ---------- runs ----------

  // What was reported so far, which starts were reported before their ends, the messages recorded for finished commands
  // with the command ids they are for, and the message ids deleted from the history by hand.
  datatype World = World(state: State, ran: map<int, string>, ended: map<int, Outcome>, startedFirst: set<int>,
                         ids: seq<int>, log: seq<Message>, deleted: set<nat>)

  const START := World(FRESH, map[], map[], {}, [], [], {})

  /** Each report arrives at most once and commands have a non-zero id. Nothing says which report comes first. */
  predicate Possible(w: World, e: Event) {
    match e
    case Running(id, _) => id != 0 && id !in w.ran
    case Completed(id, _) => id == 0 || id !in w.ended
    case _ => true
  }

  /** The command whose second report this is, if it is one. */
  function Meets(w: World, e: Event): Option<int> {
    match e
    case Running(id, _) => if id in w.ended then Some(id) else None
    case Completed(id, _) => if id != 0 && id in w.ran then Some(id) else None
    case _ => None
  }

  function CommandOf(w: World, e: Event, id: int): string
    requires Meets(w, e) == Some(id)
  {
    if e.Running? then e.command else w.ran[id]
  }

  /** The command recorded by this event: one that is now reported both ways and is not empty. */
  function Finishes(w: World, e: Event): Option<int> {
    var id := Meets(w, e);
    if id.Some? && CommandOf(w, e, id.value) != "" then id else None
  }

  function Next(w: World, e: Event): World {
    var t := Apply(w.state, e);
    var done := Finishes(w, e);
    World(t,
          if e.Running? then w.ran[e.id := e.command] else w.ran,
          if e.Completed? && e.id != 0 then w.ended[e.id := e.outcome] else w.ended,
          if e.Running? && e.id !in w.ended then w.startedFirst + {e.id} else w.startedFirst,
          if done.Some? then w.ids + [done.value] else w.ids,
          if done.Some? && |t.messages| > 0 then w.log + [t.messages[|t.messages| - 1]] else w.log,
          if e.DeleteEntry? && IndexOf(w.state.history, e.entryId, 0) < |w.state.history| then w.deleted + {e.entryId}
          else w.deleted)
  }

  /** An empty command that was reported running first and then completed. */
  predicate Stuck(w: World, id: int) { id in w.ran && id in w.ended && w.ran[id] == "" && id in w.startedFirst }

  /** The maps hold exactly the half-reported commands, and the stuck ones in both. */
  ghost predicate Halves(w: World) {
    (forall id :: id in w.state.commands <==> id in w.ran && (id !in w.ended || Stuck(w, id))) &&
    (forall id :: id in w.state.results <==> id in w.ended && (id !in w.ran || Stuck(w, id))) &&
    (forall id :: id in w.state.commands ==> w.state.commands[id] == w.ran[id]) &&
    (forall id :: id in w.state.results ==> w.state.results[id] == w.ended[id]) &&
    (forall id :: id in w.ran ==> id != 0) && (forall id :: id in w.ended ==> id != 0) &&
    (forall id :: id in w.startedFirst ==> id in w.ran) &&
    (forall id :: id in w.ran && id !in w.ended ==> id in w.startedFirst)
  }

  /** The k-th recorded message tells of its own command and outcome. */
  ghost predicate Recorded(w: World, k: int) {
    0 <= k < |w.ids| && k < |w.log| ==>
      (w.ids[k] in w.ran && w.ids[k] in w.ended &&
       w.log[k] == MessageFor(w.log[k].id, w.ended[w.ids[k]].output, w.ran[w.ids[k]], w.ended[w.ids[k]].err))
  }

  ghost predicate OncePerCommand(w: World) {
    |w.log| == |w.ids| && (forall k :: Recorded(w, k)) &&
    (forall i, j :: 0 <= i < j < |w.ids| ==> w.ids[i] != w.ids[j]) &&
    (forall id :: id in w.ids <==> id in w.ran && id in w.ended && w.ran[id] != "")
  }

  /** Ids grow along the list and none is beyond `top`. */
  ghost predicate Growing(ms: seq<Message>, top: nat) {
    (forall i, j :: 0 <= i < j < |ms| ==> ms[i].id < ms[j].id) && forall i :: 0 <= i < |ms| ==> ms[i].id <= top
  }

  ghost predicate Inv(w: World) {
    Halves(w) && OncePerCommand(w) && Growing(w.log, w.state.currentId) &&
    Growing(w.state.messages, w.state.currentId) &&
    HistoryOk(w)
  }

  function NotIn(ids: set<nat>): Message -> bool { (m: Message) => m.id !in ids }

  function Other(id: nat): Message -> bool { (m: Message) => m.id != id }

  function Kept(ms: seq<Message>, deleted: set<nat>): seq<Message> { Filter(NotIn(deleted), ms) }

  /**
   The history is an end of the records that were not deleted; it holds at most fifty, and of the last fifty records
   all that were not deleted.
   */
  ghost predicate HistoryOk(w: World) {
    EndsWith(Kept(w.log, w.deleted), w.state.history) &&
    EndsWith(w.state.history, Kept(LastOf(w.log, HISTORY_LIMIT), w.deleted)) &&
    |w.state.history| <= HISTORY_LIMIT && Growing(w.state.history, w.state.currentId) &&
    forall id :: id in w.deleted ==> id <= w.state.currentId
  }

  lemma LastOfSnoc<T>(s: seq<T>, x: T, n: nat)
    requires n > 0
    ensures LastOf(LastOf(s, n) + [x], n) == LastOf(s + [x], n)
  {
  }

  lemma GrowingSnoc(ms: seq<Message>, top: nat, m: Message)
    requires Growing(ms, top) && m.id == top + 1
    ensures Growing(ms + [m], top + 1)
  {
  }

  lemma GrowingWithout(ms: seq<Message>, top: nat, id: nat)
    requires Growing(ms, top)
    ensures Growing(WithoutMessage(ms, id), top)
  {
  }

  /** A command reported both ways is recorded under the next message id. */
  lemma AddedMessage(s: State, text: string, command: string, err: Option<string>)
    requires command != ""
    ensures AddWithCommand(s, text, command, err).messages ==
              s.messages + [MessageFor(s.currentId + 1, text, command, err)]
    ensures AddWithCommand(s, text, command, err).currentId == s.currentId + 1
    ensures AddWithCommand(s, text, command, err).commands == s.commands &&
            AddWithCommand(s, text, command, err).results == s.results
    ensures AddWithCommand(s, text, command, err).history ==
              LastOf(s.history + [MessageFor(s.currentId + 1, text, command, err)], HISTORY_LIMIT)
  {
  }

  /** Both reports are in: both halves are forgotten. */
  lemma HalvesMeet(w: World, v: World, id: int, command: string, o: Outcome)
    requires Halves(w) && id != 0 && (id in w.ran) != (id in w.ended) && (command != "" || id !in w.startedFirst)
    requires (id in w.ran ==> w.ran[id] == command) && (id in w.ended ==> w.ended[id] == o)
    requires v.ran == w.ran[id := command] && v.ended == w.ended[id := o] && v.startedFirst == w.startedFirst
    requires v.state.commands == w.state.commands - {id} && v.state.results == w.state.results - {id}
    ensures Halves(v)
  {
    forall i | i != id ensures Stuck(v, i) == Stuck(w, i) { }
  }

  /** The second report of an empty command that was reported running first: both halves stay. */
  lemma HalvesStick(w: World, v: World, id: int, o: Outcome)
    requires Halves(w) && id in w.ran && id !in w.ended && w.ran[id] == ""
    requires v.ran == w.ran && v.ended == w.ended[id := o] && v.startedFirst == w.startedFirst
    requires v.state.commands == w.state.commands && v.state.results == w.state.results[id := o]
    ensures Halves(v)
  {
    assert Stuck(v, id);
    forall i | i != id ensures Stuck(v, i) == Stuck(w, i) { }
  }

  lemma HalvesStart(w: World, v: World, id: int, command: string)
    requires Halves(w) && id != 0 && id !in w.ran && id !in w.ended
    requires v.ran == w.ran[id := command] && v.ended == w.ended && v.startedFirst == w.startedFirst + {id}
    requires v.state.commands == w.state.commands[id := command] && v.state.results == w.state.results
    ensures Halves(v)
  {
    forall i | i != id ensures Stuck(v, i) == Stuck(w, i) { }
  }

  lemma HalvesEnd(w: World, v: World, id: int, o: Outcome)
    requires Halves(w) && id != 0 && id !in w.ran && id !in w.ended
    requires v.ran == w.ran && v.ended == w.ended[id := o] && v.startedFirst == w.startedFirst
    requires v.state.commands == w.state.commands && v.state.results == w.state.results[id := o]
    ensures Halves(v)
  {
    forall i | i != id ensures Stuck(v, i) == Stuck(w, i) { }
  }

  /** The log entry made when the second report of `id` comes in. */
  lemma LogGrows(w: World, v: World, id: int, m: Message)
    requires OncePerCommand(w) && id !in w.ids && v.ids == w.ids + [id] && v.log == w.log + [m]
    requires v.ran.Keys == w.ran.Keys + {id} && v.ended.Keys == w.ended.Keys + {id} && (id in w.ran || id in w.ended)
    requires (forall i :: i in w.ran ==> v.ran[i] == w.ran[i]) && forall i :: i in w.ended ==> v.ended[i] == w.ended[i]
    requires m == MessageFor(m.id, v.ended[id].output, v.ran[id], v.ended[id].err) && v.ran[id] != ""
    ensures OncePerCommand(v)
  {
    var n := |w.ids|;
    assert v.ids[n] == id && v.log[n] == m;
    forall k ensures Recorded(v, k) {
      assert Recorded(w, k);
      if 0 <= k < n { assert v.ids[k] == w.ids[k] && v.log[k] == w.log[k]; }
    }
    forall i
      ensures i in v.ids <==> i in v.ran && i in v.ended && v.ran[i] != ""
    {
      assert i in v.ids <==> i in w.ids || i == id;
    }
  }

  lemma LastOfGrowing(ms: seq<Message>, n: nat, top: nat)
    requires Growing(ms, top)
    ensures Growing(LastOf(ms, n), top)
  {
  }

  lemma EndOfEnd<T>(s: seq<T>, a: seq<T>, b: seq<T>)
    requires EndsWith(s, a) && EndsWith(a, b)
    ensures EndsWith(s, b)
  {
  }

  lemma LastIsEnd<T>(s: seq<T>, n: nat)
    ensures EndsWith(s, LastOf(s, n)) && |LastOf(s, n)| <= n
  {
  }

  lemma EndOfLast<T>(s: seq<T>, end: seq<T>, n: nat)
    requires EndsWith(s, end) && |end| <= n
    ensures EndsWith(LastOf(s, n), end)
  {
  }

  /** An end of `s` that has an end of it with `n` elements, or all of `s`, and no more than `n`, is that one. */
  lemma EndIsLast<T>(s: seq<T>, end: seq<T>, n: nat)
    requires EndsWith(s, end) && EndsWith(end, LastOf(s, n)) && |end| <= n
    ensures end == LastOf(s, n)
  {
  }

  lemma FilterEnd<T>(p: T -> bool, s: seq<T>, end: seq<T>)
    requires EndsWith(s, end)
    ensures EndsWith(Filter(p, s), Filter(p, end))
  {
    var n := |s| - |end|;
    Cut(s, n);
    FilterAppend(p, s[..n], end);
  }

  lemma {:induction false} FilterShorter<T>(p: T -> bool, s: seq<T>)
    ensures |Filter(p, s)| <= |s|
  {
    if s != [] { FilterShorter(p, s[..|s| - 1]); }
  }

  lemma KeptSnoc(ms: seq<Message>, m: Message, deleted: set<nat>)
    requires m.id !in deleted
    ensures Kept(ms + [m], deleted) == Kept(ms, deleted) + [m]
  {
    FilterAppend(NotIn(deleted), ms, [m]);
    FilterOne(NotIn(deleted), m);
  }

  /** The last `n` records with one more are an end of the last `n` before, followed by it. */
  lemma LastKeptGrows(log: seq<Message>, m: Message, n: nat, deleted: set<nat>, h: seq<Message>)
    requires n > 0 && m.id !in deleted && EndsWith(h, Kept(LastOf(log, n), deleted))
    ensures EndsWith(LastOf(h + [m], n), Kept(LastOf(log + [m], n), deleted))
  {
    var before, after := LastOf(log, n), LastOf(log + [m], n);
    LastOfSnoc(log, m, n);
    LastIsEnd(before + [m], n);
    FilterEnd(NotIn(deleted), before + [m], after);
    KeptSnoc(before, m, deleted);
    SuffixSnoc(h, Kept(before, deleted), m);
    EndOfEnd(h + [m], Kept(before + [m], deleted), Kept(after, deleted));
    FilterShorter(NotIn(deleted), after);
    EndOfLast(h + [m], Kept(after, deleted), n);
  }

  /** The commands and outcomes recorded do not depend on the messages shown. */
  lemma SameRecords(w: World, v: World)
    requires OncePerCommand(w) && v.ran == w.ran && v.ended == w.ended && v.ids == w.ids && v.log == w.log
    ensures OncePerCommand(v)
  {
    forall k ensures Recorded(v, k) { assert Recorded(w, k); }
  }

  lemma SameHalves(w: World, v: World)
    requires Halves(w) && v.ran == w.ran && v.ended == w.ended && v.startedFirst == w.startedFirst
    requires v.state.commands == w.state.commands && v.state.results == w.state.results
    ensures Halves(v)
  {
    forall i ensures Stuck(v, i) == Stuck(w, i) { }
  }

  lemma HistoryGrows(w: World, m: Message, t: State, v: World)
    requires HistoryOk(w) && m.id == w.state.currentId + 1 && t.currentId == m.id
    requires t.history == LastOf(w.state.history + [m], HISTORY_LIMIT) && v.log == w.log + [m] && v.state == t &&
             v.deleted == w.deleted
    ensures HistoryOk(v)
  {
    var n, h := HISTORY_LIMIT, w.state.history;
    KeptSnoc(w.log, m, w.deleted);
    SuffixSnoc(Kept(w.log, w.deleted), h, m);
    LastIsEnd(h + [m], n);
    EndOfEnd(Kept(v.log, w.deleted), h + [m], t.history);
    LastKeptGrows(w.log, m, n, w.deleted, h);
    GrowingSnoc(h, w.state.currentId, m);
    LastOfGrowing(h + [m], n, m.id);
  }

  /** The second report of a command: it is recorded, and both halves are forgotten. */
  lemma FinishKeeps(w: World, v: World, s: State, id: int, command: string, o: Outcome)
    requires Inv(w) && id != 0 && command != "" && (id in w.ran) != (id in w.ended)
    requires (id in w.ran ==> w.ran[id] == command) && (id in w.ended ==> w.ended[id] == o)
    requires s == w.state.(commands := w.state.commands - {id}, results := w.state.results - {id})
    requires v.state == AddWithCommand(s, o.output, command, o.err) && v.ran == w.ran[id := command] &&
             v.ended == w.ended[id := o]
    requires v.ids == w.ids + [id] && v.log == w.log + [MessageFor(s.currentId + 1, o.output, command, o.err)]
    requires v.deleted == w.deleted && v.startedFirst == w.startedFirst
    ensures Inv(v)
  {
    var m := MessageFor(s.currentId + 1, o.output, command, o.err);
    AddedMessage(s, o.output, command, o.err);
    HalvesMeet(w, v, id, command, o);
    LogGrows(w, v, id, m);
    GrowingSnoc(w.log, s.currentId, m);
    GrowingSnoc(s.messages, s.currentId, m);
    HistoryGrows(w, m, v.state, v);
  }

  /** Nothing is recorded by a report that does not complete a command that is not empty. */
  lemma NothingRecorded(w: World, v: World)
    requires OncePerCommand(w) && v.ids == w.ids && v.log == w.log
    requires forall id :: id in w.ran ==> id in v.ran && v.ran[id] == w.ran[id]
    requires forall id :: id in w.ended ==> id in v.ended && v.ended[id] == w.ended[id]
    requires forall id :: id in v.ran && id in v.ended && !(id in w.ran && id in w.ended) ==> v.ran[id] == ""
    ensures OncePerCommand(v)
  {
    forall k ensures Recorded(v, k) { assert Recorded(w, k); }
  }

  lemma FirstReportKeeps(w: World, e: Event)
    requires Inv(w) && Possible(w, e) && Meets(w, e).None? && (e.Running? || (e.Completed? && e.id != 0))
    ensures Inv(Next(w, e))
  {
    var v := Next(w, e);
    if e.Running? { HalvesStart(w, v, e.id, e.command); } else { HalvesEnd(w, v, e.id, e.outcome); }
    NothingRecorded(w, v);
  }

  lemma StartedLastKeeps(w: World, e: Event)
    requires Inv(w) && e.Running? && e.command != "" && e.id != 0 && e.id !in w.ran && e.id in w.ended
    ensures Inv(Next(w, e))
  {
    var id, o := e.id, w.ended[e.id];
    var s := w.state.(commands := w.state.commands - {id}, results := w.state.results - {id});
    SameEntry(w.ended, id);
    AddedMessage(s, o.output, e.command, o.err);
    FinishKeeps(w, Next(w, e), s, id, e.command, o);
  }

  lemma EndedLastKeeps(w: World, e: Event)
    requires Inv(w) && e.Completed? && e.id != 0 && e.id in w.ran && e.id !in w.ended && w.ran[e.id] != ""
    ensures Inv(Next(w, e))
  {
    var id, command := e.id, w.ran[e.id];
    var s := w.state.(commands := w.state.commands - {id}, results := w.state.results - {id});
    SameEntry(w.ran, id);
    NoEntry(w.state.results, id);
    AddedMessage(s, e.outcome.output, command, e.outcome.err);
    FinishKeeps(w, Next(w, e), s, id, command, e.outcome);
  }

  /** An empty command: completed first, it leaves a message and both halves are forgotten. */
  lemma EmptyAfterEndKeeps(w: World, e: Event)
    requires Inv(w) && e.Running? && e.command == "" && e.id != 0 && e.id !in w.ran && e.id in w.ended
    ensures Inv(Next(w, e))
  {
    var v, id := Next(w, e), e.id;
    var s := w.state.(commands := w.state.commands - {id}, results := w.state.results - {id});
    var u := w.(state := s, ran := w.ran[id := ""]);
    SameEntry(w.ended, id);
    HalvesMeet(w, u, id, "", w.ended[id]);
    NothingRecorded(w, u);
    NoteKeeps(u, v, w.ended[id].output, w.ended[id].err);
  }

  /** Reported running first, it stays in both maps. */
  lemma EmptyBeforeEndKeeps(w: World, e: Event)
    requires Inv(w) && e.Completed? && e.id in w.ran && e.id !in w.ended && w.ran[e.id] == ""
    ensures Inv(Next(w, e))
  {
    HalvesStick(w, Next(w, e), e.id, e.outcome);
    NothingRecorded(w, Next(w, e));
  }

  /** A note without a command leaves the records alone. */
  lemma NoteKeeps(w: World, v: World, text: string, err: Option<string>)
    requires Inv(w) && v == w.(state := AddWithCommand(w.state, text, "", err))
    ensures Inv(v)
  {
    SameRecords(w, v);
    SameHalves(w, v);
    GrowingSnoc(w.state.messages, w.state.currentId, MessageFor(w.state.currentId + 1, text, "", err));
  }

  lemma ShownKeeps(w: World, v: World)
    requires Inv(w) && v == w.(state := w.state.(messages := v.state.messages)) &&
             Growing(v.state.messages, w.state.currentId)
    ensures Inv(v)
  {
    SameRecords(w, v);
    SameHalves(w, v);
  }

  lemma ExpiryKeeps(w: World, e: Event)
    requires Inv(w) && (e.Expire? || e.DismissOldest?)
    ensures Inv(Next(w, e))
  {
    if e.Expire? { GrowingWithout(w.state.messages, w.state.currentId, e.messageId); }
    ShownKeeps(w, Next(w, e));
  }

  lemma {:induction false} IndexIsFirst(ms: seq<Message>, id: nat, i: nat)
    requires i <= |ms|
    ensures forall k :: i <= k < IndexOf(ms, id, i) ==> ms[k].id != id
    decreases |ms| - i
  {
    if i < |ms| && ms[i].id != id { IndexIsFirst(ms, id, i + 1); }
  }

  /** Ids grow, so taking the entry with an id out is keeping those with another one. */
  lemma WithoutIsFilter(ms: seq<Message>, id: nat, top: nat)
    requires Growing(ms, top)
    ensures WithoutMessage(ms, id) == Filter(Other(id), ms)
  {
    var k := IndexOf(ms, id, 0);
    IndexIsFirst(ms, id, 0);
    if k == |ms| { FilterAll(Other(id), ms); } else { FilterAllBut(Other(id), ms, k); }
  }

  lemma KeptTwice(ms: seq<Message>, deleted: set<nat>, id: nat)
    ensures Filter(Other(id), Kept(ms, deleted)) == Kept(ms, deleted + {id})
  {
    FilterTwice(NotIn(deleted), Other(id), NotIn(deleted + {id}), ms);
  }

  lemma HistoryPruned(w: World, v: World, id: nat)
    requires HistoryOk(w) && v.log == w.log && v.deleted == w.deleted + {id} && v.state.currentId == w.state.currentId
    requires v.state.history == WithoutMessage(w.state.history, id) && id <= w.state.currentId
    ensures HistoryOk(v)
  {
    var h, last := w.state.history, LastOf(w.log, HISTORY_LIMIT);
    GrowingWithout(h, w.state.currentId, id);
    WithoutIsFilter(h, id, w.state.currentId);
    KeptTwice(w.log, w.deleted, id);
    KeptTwice(last, w.deleted, id);
    FilterEnd(Other(id), Kept(w.log, w.deleted), h);
    FilterEnd(Other(id), h, Kept(last, w.deleted));
    FilterShorter(Other(id), h);
  }

  lemma PruneKeeps(w: World, v: World, id: nat)
    requires Inv(w) && id <= w.state.currentId
    requires v == w.(state := w.state.(history := WithoutMessage(w.state.history, id)), deleted := w.deleted + {id})
    ensures Inv(v)
  {
    SameRecords(w, v);
    SameHalves(w, v);
    HistoryPruned(w, v, id);
  }

  lemma DeletionState(w: World, id: nat)
    ensures IndexOf(w.state.history, id, 0) == |w.state.history| ==>
              Next(w, DeleteEntry(id)) == w.(state := w.state.(messages := WithoutMessage(w.state.messages, id)))
    ensures IndexOf(w.state.history, id, 0) < |w.state.history| ==>
              Next(w, DeleteEntry(id)) ==
              w.(state := w.state.(messages := WithoutMessage(w.state.messages, id),
                                   history := WithoutMessage(w.state.history, id)),
                 deleted := w.deleted + {id})
  {
  }

  lemma DeletionKeeps(w: World, id: nat)
    requires Inv(w)
    ensures Inv(Next(w, DeleteEntry(id)))
  {
    DeletionState(w, id);
    GrowingWithout(w.state.messages, w.state.currentId, id);
    var v := w.(state := w.state.(messages := WithoutMessage(w.state.messages, id)));
    ShownKeeps(w, v);
    var k := IndexOf(w.state.history, id, 0);
    if k < |w.state.history| {
      assert w.state.history[k].id == id;
      PruneKeeps(v, Next(w, DeleteEntry(id)), id);
    }
  }

  lemma NextKeeps(w: World, e: Event)
    requires Inv(w) && Possible(w, e)
    ensures Inv(Next(w, e))
  {
    if Finishes(w, e).Some? {
      if e.Running? { StartedLastKeeps(w, e); } else { EndedLastKeeps(w, e); }
    } else if Meets(w, e).Some? {
      if e.Running? { EmptyAfterEndKeeps(w, e); } else { EmptyBeforeEndKeeps(w, e); }
    } else {
      match e
      case Running(_, _) => FirstReportKeeps(w, e);
      case Completed(id, o) =>
        if id == 0 { NoteKeeps(w, Next(w, e), o.output, o.err); } else { FirstReportKeeps(w, e); }
      case Note(text, err) => NoteKeeps(w, Next(w, e), text, err);
      case DeleteEntry(id) => DeletionKeeps(w, id);
      case _ => ExpiryKeeps(w, e);
    }
  }

  ghost predicate Steps(w: World, e: Event, v: World) { Possible(w, e) && v == Next(w, e) }

  ghost predicate IsRun(ws: seq<World>, es: seq<Event>) {
    |ws| == |es| + 1 && ws[0] == START &&
    forall i {:trigger es[i]} :: 0 <= i < |es| ==> Steps(ws[i], es[i], ws[i + 1])
  }

  lemma StartIsGood(w: World)
    requires w == START
    ensures Inv(w)
  {
  }

  lemma StepKeeps(w: World, e: Event, v: World)
    requires Inv(w) && Steps(w, e, v)
    ensures Inv(v)
  {
    NextKeeps(w, e);
  }

  lemma {:induction false} RunIsGood(ws: seq<World>, es: seq<Event>, i: nat)
    requires IsRun(ws, es) && i <= |es|
    ensures Inv(ws[i])
  {
    if i == 0 {
      StartIsGood(ws[0]);
    } else {
      RunIsGood(ws, es, i - 1);
      assert Steps(ws[i - 1], es[i - 1], ws[i]);
      StepKeeps(ws[i - 1], es[i - 1], ws[i]);
    }
  }

  /** Entry `k` is the record of command `id`, made of its own command and outcome, and there is no other. */
  ghost predicate IsRecordOf(w: World, id: int, k: int) {
    0 <= k < |w.ids| && |w.log| == |w.ids| && w.ids[k] == id && id in w.ran && id in w.ended &&
    w.log[k].command == w.ran[id] && w.log[k].text == Trim(w.ended[id].output) && w.log[k].err == w.ended[id].err &&
    forall j :: 0 <= j < |w.ids| && w.ids[j] == id ==> j == k
  }

  /**
   Whatever the order of the reports: a command is recorded, once and as itself, exactly when it was reported both ways
   and is not empty.
   */
  lemma RecordedIff(ws: seq<World>, es: seq<Event>, i: nat, id: int)
    requires IsRun(ws, es) && i <= |es|
    ensures (exists k :: IsRecordOf(ws[i], id, k)) <==> id in ws[i].ran && id in ws[i].ended && ws[i].ran[id] != ""
  {
    RunIsGood(ws, es, i);
    RecordOf(ws[i], id);
  }

  lemma RecordOf(w: World, id: int)
    requires OncePerCommand(w)
    ensures (exists k :: IsRecordOf(w, id, k)) <==> id in w.ran && id in w.ended && w.ran[id] != ""
  {
    if id in w.ids {
      var k :| 0 <= k < |w.ids| && w.ids[k] == id;
      assert Recorded(w, k);
      assert IsRecordOf(w, id, k);
    }
  }

  /** So a command that is not empty is recorded exactly once when both its reports are in. */
  lemma RecordedExactlyOnce(ws: seq<World>, es: seq<Event>, i: nat, id: int)
    requires IsRun(ws, es) && i <= |es| && id in ws[i].ran && id in ws[i].ended && ws[i].ran[id] != ""
    ensures exists k :: IsRecordOf(ws[i], id, k)
  {
    RecordedIff(ws, es, i, id);
  }

  /**
   The maps hold the commands reported one way only; an id is in both exactly when it is stuck, and in neither
   otherwise.
   */
  lemma HalvesAre(ws: seq<World>, es: seq<Event>, i: nat, id: int)
    requires IsRun(ws, es) && i <= |es|
    ensures id in ws[i].state.commands && id in ws[i].state.results <==> Stuck(ws[i], id)
    ensures id in ws[i].state.commands && id !in ws[i].state.results <==> id in ws[i].ran && id !in ws[i].ended
    ensures id in ws[i].state.results && id !in ws[i].state.commands <==> id in ws[i].ended && id !in ws[i].ran
  {
    RunIsGood(ws, es, i);
  }

  /** Reported running and then completed, an empty command stays in both maps and is not recorded. */
  lemma EmptyCommandSticks(id: int, o: Outcome, w: World)
    requires id != 0 && w == Next(Next(START, Running(id, "")), Completed(id, o))
    ensures Stuck(w, id) && w.state.commands == map[id := ""] && w.state.results == map[id := o] &&
            w.log == w.state.history == []
  {
  }

  /** Reported completed and then running, it is forgotten; its output is shown as a message without a command. */
  lemma EmptyCommandIsShown(id: int, o: Outcome, w: World)
    requires id != 0 && Trim(o.output) != "" && w == Next(Next(START, Completed(id, o)), Running(id, ""))
    ensures !Stuck(w, id) && w.state.commands == map[] && w.state.results == map[] && w.log == w.state.history == []
    ensures w.state.messages == [MessageFor(1, o.output, "", o.err)]
  {
  }

  /**
   The history is an end of the records not deleted by hand, at most fifty and with growing ids, and of the last fifty
   records it has all not deleted; so without a deletion it is the last fifty.
   */
  lemma HistoryIsLatest(ws: seq<World>, es: seq<Event>, i: nat, log: seq<Message>, history: seq<Message>,
                        deleted: set<nat>)
    requires IsRun(ws, es) && i <= |es| && log == ws[i].log && history == ws[i].state.history &&
             deleted == ws[i].deleted
    ensures EndsWith(Kept(log, deleted), history) && |history| <= 50
    ensures EndsWith(history, Kept(LastOf(log, 50), deleted))
    ensures deleted == {} ==> history == LastOf(log, 50)
    ensures forall j, k :: 0 <= j < k < |log| ==> log[j].id < log[k].id
    ensures forall j, k :: 0 <= j < k < |history| ==> history[j].id < history[k].id
  {
    RunIsGood(ws, es, i);
    if deleted == {} {
      FilterAll(NotIn(deleted), log);
      FilterAll(NotIn(deleted), LastOf(log, HISTORY_LIMIT));
      EndIsLast(log, history, HISTORY_LIMIT);
    }
  }

  // ---------- the object ----------

  method RemoveFrom(ms: seq<Message>, id: nat) returns (out: seq<Message>)
    ensures out == WithoutMessage(ms, id)
  {
    for i := 0 to |ms|
      invariant IndexOf(ms, id, 0) == IndexOf(ms, id, i)
    {
      if ms[i].id == id { return ms[..i] + ms[i + 1..]; }
    }
    return ms;
  }

  class Tracker {
    var messages: seq<Message>
    var history: seq<Message>
    var commands: map<int, string>
    var results: map<int, Outcome>
    var currentId: nat

    function Value(): State reads this { State(messages, history, commands, results, currentId) }

    constructor ()
      ensures Value() == FRESH
    {
      messages, history, commands, results, currentId := [], [], map[], map[], 0;
    }

    /** The new message's id; 0 when there is nothing to say. */
    method AddMessage(text: string, command: string, err: Option<string>) returns (id: nat)
      modifies this
      ensures Value() == AddWithCommand(old(Value()), text, command, err)
      ensures id == if currentId == old(currentId) then 0 else currentId
    {
      if NothingToSay(Trim(text), command, err) { return 0; }
      id := currentId + 1;
      ShowMessage(MessageFor(id, text, command, err));
    }

    method ShowMessage(m: Message)
      modifies this
      ensures Value() == Show(old(Value()), m)
    {
      currentId := m.id;
      messages := messages + [m];
      if m.command != "" {
        history := history + [m];
        if |history| > HISTORY_LIMIT { history := history[|history| - HISTORY_LIMIT..]; }
      }
    }

    method Running(id: int, command: string)
      modifies this
      ensures Value() == OnRunning(old(Value()), id, command)
    {
      commands := commands[id := command];
      if id in results {
        var r := results[id];
        commands, results := commands - {id}, results - {id};
        assert commands == old(commands) - {id};
        var _ := AddMessage(r.output, command, r.err);
      }
    }

    method Completed(id: int, o: Outcome)
      modifies this
      ensures Value() == OnCompleted(old(Value()), id, o)
    {
      if id == 0 {
        var _ := AddMessage(o.output, "", o.err);
        return;
      }
      var command := if id in commands then commands[id] else "";
      if command == "" {
        results := results[id := o];
        return;
      }
      commands := commands - {id};
      var _ := AddMessage(o.output, command, o.err);
    }

    method RemoveLiveMessage(id: nat)
      modifies this`messages
      ensures messages == WithoutMessage(old(messages), id)
    {
      messages := RemoveFrom(messages, id);
    }

    method DeleteEntry(id: nat)
      modifies this`messages, this`history
      ensures messages == WithoutMessage(old(messages), id) && history == WithoutMessage(old(history), id)
    {
      history := RemoveFrom(history, id);
      RemoveLiveMessage(id);
    }

    method Update(e: Event)
      modifies this
      ensures Value() == Apply(old(Value()), e)
    {
      match e {
        case Running(id, command) => Running(id, command);
        case Completed(id, o) => Completed(id, o);
        case Note(text, err) => var _ := AddMessage(text, "", err);
        case Expire(id) => RemoveLiveMessage(id);
        case DismissOldest => if |messages| > 0 { messages := messages[1..]; }
        case DeleteEntry(id) => DeleteEntry(id);
      }
    }
  }
  // ---------- what each event does to the messages ----------

  /** Deletion and expiry take out the message with that id, deletion also from the history. */
  lemma RemovalOfMessages(s: State, id: nat, top: nat)
    requires Growing(s.messages, top)
    ensures Apply(s, Expire(id)) == s.(messages := Filter(Other(id), s.messages))
    ensures Growing(s.history, top) ==>
              Apply(s, DeleteEntry(id)) ==
              s.(messages := Filter(Other(id), s.messages), history := Filter(Other(id), s.history))
  {
    WithoutIsFilter(s.messages, id, top);
    if Growing(s.history, top) { WithoutIsFilter(s.history, id, top); }
  }

  /** A note with something to say comes last; the oldest message is the one dismissed. */
  lemma NotesAndDismissal(s: State, text: string, err: Option<string>)
    ensures Trim(text) == "" && err.None? ==> Apply(s, Note(text, err)) == s
    ensures Trim(text) != "" || err.Some? ==>
              Apply(s, Note(text, err)) ==
              s.(messages := s.messages + [Message(s.currentId + 1, Trim(text), "", err)], currentId := s.currentId + 1)
    ensures s.messages != [] ==> Apply(s, DismissOldest) == s.(messages := s.messages[1..])
    ensures s.messages == [] ==> Apply(s, DismissOldest) == s
  {
  }
}
