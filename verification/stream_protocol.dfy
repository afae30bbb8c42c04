/**
 Parser and consumer as interleaved steps over their two channels (waitForControl and the sends of
 internal/parser/streaming_log_parser.go, RequestMore and Close of internal/ui/graph/graph_streamer.go,
 the request loop of internal/parser/log_parser.go).
 */
module StreamProtocol {
  import opened Text
  import opened Ansi
  import opened GraphRows
  import opened Streaming

  // The parser waits for a request before batch `next`, or has one and sends batch `next`, or has closed its channel.
  datatype Parser = Waiting(next: nat) | Sending(next: nat) | Ended

  // The consumer is between requests, awaits an answer, or will not ask again.
  datatype Consumer = Idle | Awaiting | Finished

  // `got` are the batches received; `asked` and `closed` count requests made and requests answered by the closed
  // channel.
  datatype System = System(parser: Parser, control: nat, rows: seq<Batch>, consumer: Consumer,
                           got: seq<Batch>, asked: nat, closed: nat, cancelled: bool)

  const INITIAL := System(Waiting(0), 0, [], Idle, [], 0, 0, false)

  datatype Action =
    | Ask             // the consumer puts a request on the control channel
    | Take            // the parser takes a request that was buffered there
    | Send            // the parser puts a batch on the row channel
    | Receive         // the consumer takes it
    | ReceiveClosed   // the consumer finds the row channel closed and empty
    | Cancel          // the context is cancelled
    | ParserStops     // the waiting parser notices
    | ConsumerStops   // the consumer notices

  /** What the parser does with a request: send the next batch, or close when there was nothing to send at all. */
  function Serve(batches: seq<Batch>, next: nat): Parser { if next < |batches| then Sending(next) else Ended }

  /**
   `buffered`: the control channel holds one request (GraphStreamer); otherwise handing over needs both sides
   (ParseRows).
   */
  predicate Enabled(batches: seq<Batch>, buffered: bool, s: System, a: Action) {
    match a
    case Ask => s.consumer.Idle? && if buffered then s.control == 0 else s.parser.Waiting?
    case Take => s.control > 0 && s.parser.Waiting?
    case Send => s.parser.Sending? && s.parser.next < |batches| && |s.rows| < 1
    case Receive => s.consumer.Awaiting? && s.rows != []
    case ReceiveClosed => s.consumer.Awaiting? && s.rows == [] && s.parser.Ended?
    case Cancel => !s.cancelled
    case ParserStops => s.cancelled && s.parser.Waiting?
    case ConsumerStops => s.cancelled && !s.consumer.Finished?
  }

  function Do(batches: seq<Batch>, buffered: bool, s: System, a: Action): System
    requires Enabled(batches, buffered, s, a)
  {
    match a
    case Ask =>
      var t := s.(consumer := Awaiting, asked := s.asked + 1);
      if buffered then t.(control := 1) else t.(parser := Serve(batches, s.parser.next))
    case Take => s.(control := s.control - 1, parser := Serve(batches, s.parser.next))
    case Send =>
      var b := batches[s.parser.next];
      s.(rows := s.rows + [b], parser := if b.hasMore then Waiting(s.parser.next + 1) else Ended)
    case Receive =>
      s.(rows := s.rows[1..], got := s.got + [s.rows[0]], consumer := if s.rows[0].hasMore then Idle else Finished)
    case ReceiveClosed => s.(consumer := Finished, closed := s.closed + 1)
    case Cancel => s.(cancelled := true)
    case ParserStops => s.(parser := Ended)
    case ConsumerStops => s.(consumer := Finished)
  }

  /** HasMore says whether another batch follows. */
  ghost predicate WellBatched(batches: seq<Batch>) {
    forall i :: 0 <= i < |batches| ==> batches[i].hasMore == (i + 1 < |batches|)
  }

  // ---------- what holds in every reachable state ----------

  /** Received so far, and at most one batch under way, in order. */
  ghost predicate InOrder(batches: seq<Batch>, s: System) {
    |s.rows| <= 1 && s.control <= 1 && |s.got| <= |batches| && s.got == batches[..|s.got|] &&
    (s.rows != [] ==> |s.got| < |batches| && s.rows == [batches[|s.got|]]) &&
    (s.parser.Sending? ==> s.parser.next == |s.got| + |s.rows| < |batches|) &&
    (s.parser.Waiting? ==> s.parser.next == |s.got| + |s.rows| && (s.parser.next < |batches| || batches == []))
  }

  /** Every request is accounted for: answered by a batch, answered by the closed channel, or still open. */
  ghost predicate Accounted(batches: seq<Batch>, s: System) {
    s.closed <= 1 && (!s.cancelled ==> s.asked == |s.got| + s.closed + if s.consumer.Awaiting? then 1 else 0)
  }

  /** Before cancellation the two sides agree on whose turn it is. */
  ghost predicate InStep(batches: seq<Batch>, s: System) {
    match s.consumer
    case Idle => s.control == 0 && s.rows == [] && s.parser == Waiting(|s.got|) && s.closed == 0
    case Awaiting =>
      s.closed == 0 &&
      if s.control == 1 then s.rows == [] && s.parser == Waiting(|s.got|)
      else if s.rows == [] then s.parser == Sending(|s.got|) || (s.parser.Ended? && batches == [])
      else s.parser == if |s.got| + 1 < |batches| then Waiting(|s.got| + 1) else Ended
    case Finished =>
      s.got == batches && s.control == 0 && s.rows == [] && s.parser.Ended? &&
      s.closed == if batches == [] then 1 else 0
  }

  ghost predicate Inv(batches: seq<Batch>, s: System) {
    InOrder(batches, s) && Accounted(batches, s) && (!s.cancelled ==> InStep(batches, s)) &&
    (s.consumer.Awaiting? ==> s.closed == 0) &&
    (s.closed > 0 ==> s.consumer.Finished?) && (s.control == 1 && !s.cancelled ==> s.consumer.Awaiting?)
  }

  lemma RequestKeeps(batches: seq<Batch>, buffered: bool, s: System, a: Action)
    requires Inv(batches, s) && Enabled(batches, buffered, s, a) && (a.Ask? || a.Take?)
    ensures Inv(batches, Do(batches, buffered, s, a))
  {
  }

  lemma SendKeeps(batches: seq<Batch>, buffered: bool, s: System)
    requires WellBatched(batches) && Inv(batches, s) && Enabled(batches, buffered, s, Send)
    ensures Inv(batches, Do(batches, buffered, s, Send))
  {
  }

  lemma ReceiveKeeps(batches: seq<Batch>, buffered: bool, s: System)
    requires WellBatched(batches) && Inv(batches, s) && Enabled(batches, buffered, s, Receive)
    ensures Inv(batches, Do(batches, buffered, s, Receive))
  {
    TakeSnoc(batches, |s.got|);
  }

  lemma StepKeeps(batches: seq<Batch>, buffered: bool, s: System, a: Action)
    requires WellBatched(batches) && Inv(batches, s) && Enabled(batches, buffered, s, a)
    ensures Inv(batches, Do(batches, buffered, s, a))
  {
    match a
    case Ask => RequestKeeps(batches, buffered, s, a);
    case Take => RequestKeeps(batches, buffered, s, a);
    case Send => SendKeeps(batches, buffered, s);
    case Receive => ReceiveKeeps(batches, buffered, s);
    case _ =>
  }

  // ---------- whole runs ----------

  ghost predicate Steps(batches: seq<Batch>, buffered: bool, s: System, a: Action, t: System) {
    Enabled(batches, buffered, s, a) && t == Do(batches, buffered, s, a)
  }

  /** The states of some interleaving from the start. */
  ghost predicate IsRun(batches: seq<Batch>, buffered: bool, ss: seq<System>, acts: seq<Action>) {
    |ss| == |acts| + 1 && ss[0] == INITIAL &&
    forall i {:trigger acts[i]} :: 0 <= i < |acts| ==> Steps(batches, buffered, ss[i], acts[i], ss[i + 1])
  }

  ghost predicate Reachable(batches: seq<Batch>, buffered: bool, s: System) {
    exists ss, acts :: IsRun(batches, buffered, ss, acts) && ss[|acts|] == s
  }

  lemma {:induction false} RunKeeps(batches: seq<Batch>, buffered: bool, ss: seq<System>, acts: seq<Action>, i: nat)
    requires WellBatched(batches) && IsRun(batches, buffered, ss, acts) && i <= |acts|
    ensures Inv(batches, ss[i])
  {
    if i > 0 {
      RunKeeps(batches, buffered, ss, acts, i - 1);
      StepKeeps(batches, buffered, ss[i - 1], acts[i - 1]);
    }
  }

  lemma ReachableIsGood(batches: seq<Batch>, buffered: bool, s: System)
    requires WellBatched(batches) && Reachable(batches, buffered, s)
    ensures Inv(batches, s)
  {
    var ss, acts :| IsRun(batches, buffered, ss, acts) && ss[|acts|] == s;
    RunKeeps(batches, buffered, ss, acts, |acts|);
  }

  /** The row channel never holds more than one batch, and what was received is always the first batches in order. */
  lemma ReceivedInOrder(batches: seq<Batch>, buffered: bool, s: System)
    requires WellBatched(batches) && Reachable(batches, buffered, s)
    ensures |s.rows| <= 1 && s.got <= batches
    ensures !s.cancelled ==> s.asked == |s.got| + s.closed + if s.consumer.Awaiting? then 1 else 0
    ensures s.consumer.Finished? && !s.cancelled ==> s.got == batches && s.closed == if batches == [] then 1 else 0
  {
    ReachableIsGood(batches, buffered, s);
  }

  /** Some step other than cancelling can be taken. */
  ghost predicate CanGoOn(batches: seq<Batch>, buffered: bool, s: System) {
    exists a :: a != Cancel && Enabled(batches, buffered, s, a)
  }

  /** The step an uncancelled system can always take. */
  function Next(s: System): Action {
    if s.consumer.Idle? then Ask
    else if s.control > 0 then Take
    else if s.parser.Sending? then Send
    else if s.rows != [] then Receive
    else ReceiveClosed
  }

  lemma NeverStuck(batches: seq<Batch>, buffered: bool, s: System)
    requires Inv(batches, s) && !s.cancelled && !s.consumer.Finished?
    ensures Next(s) != Cancel && Enabled(batches, buffered, s, Next(s))
  {
  }

  /** Before cancellation no reachable state is stuck short of the end. */
  lemma ReachableGoesOn(batches: seq<Batch>, buffered: bool, s: System)
    requires WellBatched(batches) && Reachable(batches, buffered, s) && !s.cancelled
    ensures s.consumer.Finished? || CanGoOn(batches, buffered, s)
  {
    ReachableIsGood(batches, buffered, s);
    if !s.consumer.Finished? { NeverStuck(batches, buffered, s); }
  }

  /** Steps left before the end. */
  function Left(batches: seq<Batch>, s: System): int {
    4 * (|batches| + 1 - |s.got|) +
    match s.consumer
    case Idle => 1
    case Finished => -4
    case Awaiting => if s.control > 0 then 0 else if s.parser.Sending? then -1 else -2
  }

  lemma StepGetsCloser(batches: seq<Batch>, buffered: bool, s: System, a: Action)
    requires WellBatched(batches) && Inv(batches, s) && !s.cancelled && a != Cancel && Enabled(batches, buffered, s, a)
    ensures var t := Do(batches, buffered, s, a); !t.cancelled && 0 <= Left(batches, t) < Left(batches, s)
  {
    StepKeeps(batches, buffered, s, a);
  }

  /**
   Any schedule, chosen step by step, ends with every batch delivered: no interleaving loses,
   repeats or reorders one, and none goes on for ever.
   */
  method Drive(batches: seq<Batch>, buffered: bool) returns (s: System)
    requires WellBatched(batches)
    ensures s.consumer.Finished? && s.got == batches && s.asked == |batches| + s.closed && s.closed <= 1
  {
    s := INITIAL;
    while !s.consumer.Finished?
      invariant Inv(batches, s) && !s.cancelled && Left(batches, s) >= 0
      decreases Left(batches, s)
    {
      NeverStuck(batches, buffered, s);
      var a :| a != Cancel && Enabled(batches, buffered, s, a);
      StepKeeps(batches, buffered, s, a);
      StepGetsCloser(batches, buffered, s, a);
      s := Do(batches, buffered, s, a);
    }
  }

  /** The rows collected by the request loop are the unbatched rows, whatever the schedule. */
  method ParseRows(lines: seq<seq<Segment>>) returns (rows: seq<Row>)
    ensures rows == AllRows(lines)
  {
    var batches := Batches(lines, 50);
    BatchesAddUp(lines, 50, batches);
    var s := Drive(batches, false);
    rows := RowsOf(s.got, |s.got|);
  }

  /** At any moment, cancelled or not, the rows received are a prefix of the unbatched rows. */
  lemma ReceivedIsPrefix(lines: seq<seq<Segment>>, size: nat, buffered: bool, s: System)
    requires Reachable(Batches(lines, size), buffered, s)
    ensures RowsOf(s.got, |s.got|) <= AllRows(lines)
  {
    var batches := Batches(lines, size);
    BatchesAddUp(lines, size, batches);
    ReachableIsGood(batches, buffered, s);
    SameRows(s.got, batches, |s.got|);
    DeliveredIsPrefix(lines, size, |s.got|);
  }

  lemma {:induction false} SameRows(xs: seq<Batch>, ys: seq<Batch>, n: nat)
    requires n <= |xs| && n <= |ys| && forall i :: 0 <= i < n ==> xs[i] == ys[i]
    ensures RowsOf(xs, n) == RowsOf(ys, n)
  {
    if n > 0 { SameRows(xs, ys, n - 1); }
  }
}
