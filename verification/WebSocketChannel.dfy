/**
  One WebSocket channel: a bounded queue of incoming messages with byte accounting, handlers that run one
  at a time, and pausing of the socket between two thresholds.

  A turn is a function of the state and of a script: the reaction of the k-th handler invocation of the
  whole run. Handlers are called inside the drain loop and may finish or close the channel, or stop the
  listener, before they return.
 */
module WebSocketChannels {
  import opened Results

  const MAX_INPUT_MESSAGES: nat := 64
  const MAX_INPUT_BYTES: nat := 2 * 1024 * 1024

  /** The socket only moves forward through these. */
  datatype Ready = Open | Closing | Closed

  datatype Message = Message(binary: bool, value: seq<nat>, bytes: nat)

  /** How a handler invocation ends its synchronous part. */
  datatype Handling = Returns | Throws | Promises

  /** Everything a handler does to its channel before returning. */
  datatype Reaction = Reaction(handling: Handling, finishes: bool, closes: bool, stopsListener: bool)

  type Script = nat -> Reaction

  datatype Limits = Limits(maxText: Option<nat>, maxBinary: Option<nat>)

  datatype Queue = Queue(incoming: seq<Message>, draining: bool, messages: int, bytes: int, inFlight: Option<Message>)

  datatype Socket = Socket(ready: Ready, paused: bool)

  /** The promise of `finish`: never asked for, waiting for the close of the socket, or settled. */
  datatype Finish = NotAsked | Awaiting(timedOut: bool) | Confirmed | Unconfirmed

  /** What else the channel asks before it admits or dispatches. */
  datatype Ends = Ends(finishing: Finish, accepting: bool, textListener: bool, binaryListener: bool)

  /** History: messages admitted and handed over, how many were dropped, how many handler runs are over. */
  datatype Log = Log(admitted: seq<Message>, handed: seq<Message>, dropped: nat, completed: nat)

  datatype Channel = Channel(limits: Limits, queue: Queue, socket: Socket, ends: Ends, log: Log)

  function Created(limits: Limits): Channel {
    Channel(limits, Queue([], false, 0, 0, None), Socket(Open, false), Ends(NotAsked, true, false, false),
            Log([], [], 0, 0))
  }

  function Max(a: nat, b: nat): nat {
    if a < b then b else a
  }

  function Budget(limits: Limits): nat {
    var text := if limits.maxText.Some? then limits.maxText.value else 0;
    var binary := if limits.maxBinary.Some? then limits.maxBinary.value else 0;
    Max(MAX_INPUT_BYTES, Max(text, binary))
  }

  /** The dispatch gate. */
  predicate Dispatching(c: Channel) {
    c.ends.finishing.NotAsked? && c.ends.accepting && c.socket.ready.Open?
  }

  predicate HasListener(ends: Ends, m: Message) {
    if m.binary then ends.binaryListener else ends.textListener
  }

  /** terminate() and close() both leave an open socket closing. */
  function Leaving(socket: Socket): Socket {
    if socket.ready.Open? then socket.(ready := Closing) else socket
  }

  function Terminate(c: Channel): Channel {
    c.(socket := Leaving(c.socket))
  }

  /** Give a message back to the budget, and resume the socket below the low threshold. */
  function Release(c: Channel, bytes: nat): Channel {
    var left := c.queue.bytes - bytes;
    var resumes := c.ends.binaryListener && left < MAX_INPUT_BYTES / 4 && !c.socket.ready.Closed?;
    c.(queue := c.queue.(messages := c.queue.messages - 1, bytes := left),
       socket := c.socket.(paused := c.socket.paused && !resumes))
  }

  /** `finish` answers every call with the same promise; on a closed socket it is fulfilled at once. */
  function Asked(finishing: Finish, ready: Ready): Finish {
    if !finishing.NotAsked? then finishing else if ready.Closed? then Confirmed else Awaiting(false)
  }

  /** The socket has closed; `graceful`: with the code of a normal closure. */
  function Answered(finishing: Finish, graceful: bool): Finish {
    if !finishing.Awaiting? then finishing
    else if finishing.timedOut || !graceful then Unconfirmed
    else Confirmed
  }

  /** What the handler does to the channel before it returns. */
  function React(c: Channel, r: Reaction): Channel {
    c.(ends := c.ends.(accepting := c.ends.accepting && !r.stopsListener,
                       finishing := if r.finishes then Asked(c.ends.finishing, c.socket.ready) else c.ends.finishing),
       socket := if r.finishes || r.closes then Leaving(c.socket) else c.socket)
  }

  /** The handler has returned a promise: the message stays in flight and keeps its place in the budget. */
  function Keep(c: Channel): Channel
    requires c.queue.incoming != []
  {
    var m := c.queue.incoming[0];
    c.(queue := c.queue.(incoming := c.queue.incoming[1..], inFlight := Some(m)),
       log := c.log.(handed := c.log.handed + [m]))
  }

  /** The handler is over already: the message leaves the budget. */
  function Conclude(c: Channel): Channel
    requires c.queue.incoming != []
  {
    var m := c.queue.incoming[0];
    Release(c.(queue := c.queue.(incoming := c.queue.incoming[1..]),
               log := c.log.(handed := c.log.handed + [m], completed := c.log.completed + 1)), m.bytes)
  }

  /** The first message is handed to its handler, which answers with a reaction. */
  function Hand(c: Channel, reaction: Reaction): Channel
    requires c.queue.incoming != []
  {
    match reaction.handling
    case Promises => Keep(React(c, reaction))
    case Returns => Conclude(React(c, reaction))
    case Throws => Conclude(Terminate(React(c, reaction)))
  }

  function Drop(c: Channel): Channel
    requires c.queue.incoming != []
  {
    Release(c.(queue := c.queue.(incoming := c.queue.incoming[1..]), log := c.log.(dropped := c.log.dropped + 1)),
            c.queue.incoming[0].bytes)
  }

  /** One iteration of the drain loop. It leaves a message in flight exactly when the loop returns. */
  function Dispatch(c: Channel, script: Script): Channel
    requires c.queue.incoming != []
  {
    if Dispatching(c) && HasListener(c.ends, c.queue.incoming[0])
    then Hand(c, script(|c.log.handed|))
    else Drop(c)
  }

  function DrainLoop(c: Channel, script: Script): Channel
    requires c.queue.inFlight.None?
    decreases |c.queue.incoming|
  {
    if c.queue.incoming == [] then c.(queue := c.queue.(draining := false))
    else
      var next := Dispatch(c, script);
      if next.queue.inFlight.Some? then next else DrainLoop(next, script)
  }

  function Drain(c: Channel, script: Script): Channel
    requires !c.queue.draining ==> c.queue.inFlight.None?
  {
    if c.queue.draining then c else DrainLoop(c.(queue := c.queue.(draining := true)), script)
  }

  predicate Refused(c: Channel, m: Message) {
    || !c.ends.finishing.NotAsked? || !c.ends.accepting || !HasListener(c.ends, m)
    || (m.binary && c.limits.maxBinary.None?)
  }

  predicate TooLarge(limits: Limits, m: Message) {
    var limit := if m.binary then limits.maxBinary else limits.maxText;
    limit.Some? && m.bytes > limit.value
  }

  predicate Overflows(c: Channel, m: Message) {
    c.queue.messages >= MAX_INPUT_MESSAGES || c.queue.bytes + m.bytes > Budget(c.limits)
  }

  /** Count the message, pause the socket at the high threshold, and append. */
  function Admit(c: Channel, m: Message): Channel {
    var bytes := c.queue.bytes + m.bytes;
    var pauses := c.ends.binaryListener && bytes >= MAX_INPUT_BYTES / 2;
    c.(queue := c.queue.(messages := c.queue.messages + 1, bytes := bytes, incoming := c.queue.incoming + [m]),
       socket := c.socket.(paused := c.socket.paused || pauses),
       log := c.log.(admitted := c.log.admitted + [m]))
  }

  /** The handler in flight has settled: everything its continuation does before draining again. */
  function Settle(c: Channel, ok: bool): Channel
    requires c.queue.inFlight.Some?
  {
    var settled := c.(queue := c.queue.(inFlight := None, draining := false),
                      log := c.log.(completed := c.log.completed + 1));
    Release(if ok then settled else Terminate(settled), c.queue.inFlight.value.bytes)
  }

  datatype Event =
    | Arrives(message: Message)
    | HandlerSettles(ok: bool)
    | ListenText
    | ListenBinary
    | FinishCalled
    | CloseCalled
    | GateCloses
    | DeadlinePasses
    | SocketClosed(graceful: bool)

  /** A closed socket emits nothing further. */
  function Step(c: Channel, e: Event, script: Script): Channel
    requires !c.queue.draining ==> c.queue.inFlight.None?
  {
    match e
    case Arrives(m) =>
      if c.socket.ready.Closed? then c
      else if Refused(c, m) || TooLarge(c.limits, m) || Overflows(c, m) then Terminate(c)
      else Drain(Admit(c, m), script)
    case HandlerSettles(ok) =>
      if c.queue.inFlight.None? then c else Drain(Settle(c, ok), script)
    case ListenText => c.(ends := c.ends.(textListener := true))
    case ListenBinary => if c.limits.maxBinary.None? then c else c.(ends := c.ends.(binaryListener := true))
    case FinishCalled =>
      if !c.ends.finishing.NotAsked? then c
      else Terminate(c).(ends := c.ends.(finishing := Asked(NotAsked, c.socket.ready)))
    case CloseCalled => Terminate(c)
    case GateCloses => c.(ends := c.ends.(accepting := false))
    case DeadlinePasses =>
      if c.ends.finishing.Awaiting? then Terminate(c).(ends := c.ends.(finishing := Awaiting(true))) else c
    case SocketClosed(graceful) =>
      if c.socket.ready.Closed? then c
      else c.(socket := c.socket.(ready := Closed), ends := c.ends.(finishing := Answered(c.ends.finishing, graceful)))
  }

  // ---------------------------------------------------------------- what every turn keeps

  function BytesOfFirst(messages: seq<Message>, n: nat): nat
    requires n <= |messages|
  {
    if n == 0 then 0 else BytesOfFirst(messages, n - 1) + messages[n - 1].bytes
  }

  function Bytes(messages: seq<Message>): nat {
    BytesOfFirst(messages, |messages|)
  }

  lemma {:induction false} BytesOfPrefix(a: seq<Message>, b: seq<Message>, n: nat)
    requires n <= |a| && n <= |b| && forall i | 0 <= i < n :: a[i] == b[i]
    ensures BytesOfFirst(a, n) == BytesOfFirst(b, n)
  {
    if n > 0 {
      BytesOfPrefix(a, b, n - 1);
    }
  }

  lemma BytesOfPush(a: seq<Message>, m: Message)
    ensures Bytes(a + [m]) == Bytes(a) + m.bytes
  {
    BytesOfPrefix(a + [m], a, |a|);
  }

  lemma {:induction false} BytesOfShift(a: seq<Message>, n: nat)
    requires 0 < n <= |a|
    ensures BytesOfFirst(a, n) == a[0].bytes + BytesOfFirst(a[1..], n - 1)
  {
    if n > 1 {
      BytesOfShift(a, n - 1);
    }
  }

  /** How many messages a handler is working on, and their bytes. */
  function Busy(q: Queue): nat {
    if q.inFlight.Some? then 1 else 0
  }

  function BusyBytes(q: Queue): nat {
    if q.inFlight.Some? then q.inFlight.value.bytes else 0
  }

  /** The counters are the queue plus the message in flight, and within their bounds. */
  ghost predicate Counted(c: Channel) {
    && c.queue.messages == |c.queue.incoming| + Busy(c.queue) <= MAX_INPUT_MESSAGES
    && c.queue.bytes == Bytes(c.queue.incoming) + BusyBytes(c.queue) <= Budget(c.limits)
  }

  /** Nothing overtakes: what was admitted was handed over in order, or dropped after the gate closed. */
  ghost predicate InOrder(q: Queue, log: Log) {
    && |log.admitted| == |log.handed| + log.dropped + |q.incoming|
    && (forall i :: 0 <= i < |log.handed| ==> log.handed[i] == log.admitted[i])
    && (forall i :: 0 <= i < |q.incoming| ==> q.incoming[i] == log.admitted[|log.handed| + log.dropped + i])
    && |log.handed| == log.completed + Busy(q)
    && (q.inFlight.Some? ==> log.handed[|log.handed| - 1] == q.inFlight.value)
  }

  /** A paused socket that is not closed still has a quarter of the byte limit to work off. */
  ghost predicate Paced(c: Channel) {
    c.socket.paused && !c.socket.ready.Closed? ==> c.ends.binaryListener && c.queue.bytes >= MAX_INPUT_BYTES / 4
  }

  /** What holds inside the drain loop. */
  ghost predicate LoopInv(c: Channel) {
    && Counted(c) && InOrder(c.queue, c.log) && Paced(c)
    && (c.log.dropped != 0 ==> !Dispatching(c))
    && (forall m | m in c.queue.incoming :: HasListener(c.ends, m))
  }

  /** What holds between turns. */
  ghost predicate Inv(c: Channel) {
    LoopInv(c) && (c.queue.draining <==> c.queue.inFlight.Some?) && (!c.queue.draining ==> c.queue.incoming == [])
  }

  lemma CreatedInv(limits: Limits)
    ensures Inv(Created(limits))
  {
  }

  /** The first message of the queue leaves it and is handed over or dropped: the order is kept. */
  lemma HeadLeaves(q: Queue, log: Log, next: Queue, after: Log)
    requires InOrder(q, log) && q.inFlight.None? && q.incoming != []
    requires next.incoming == q.incoming[1..] && after.admitted == log.admitted
    requires
      || (after.handed == log.handed + [q.incoming[0]] && log.dropped == after.dropped == 0
          && if next.inFlight.None? then after.completed == log.completed + 1
             else after.completed == log.completed && next.inFlight == Some(q.incoming[0]))
      || (after == log.(dropped := log.dropped + 1) && next.inFlight.None?)
    ensures InOrder(next, after)
  {
    assert forall i :: 0 <= i < |next.incoming| ==> next.incoming[i] == q.incoming[i + 1];
  }

  /** The counters still include one message of `bytes` that has left the queue. */
  ghost predicate Owing(c: Channel, bytes: nat) {
    && c.queue.messages == |c.queue.incoming| + Busy(c.queue) + 1 <= MAX_INPUT_MESSAGES
    && c.queue.bytes == Bytes(c.queue.incoming) + BusyBytes(c.queue) + bytes <= Budget(c.limits)
    && (c.socket.paused && !c.socket.ready.Closed? ==> c.ends.binaryListener)
  }

  lemma ReleaseKeeps(c: Channel, bytes: nat)
    requires Owing(c, bytes)
    ensures var next := Release(c, bytes);
            && Counted(next) && Paced(next)
            && (next.limits, next.ends, next.log, next.socket.ready) == (c.limits, c.ends, c.log, c.socket.ready)
            && next.queue == c.queue.(messages := c.queue.messages - 1, bytes := c.queue.bytes - bytes)
  {
  }

  /** What a handler does to the channel, and terminating it, disturb nothing in the queue. */
  lemma ReactionKeeps(c: Channel, reaction: Reaction)
    requires LoopInv(c) && c.log.dropped == 0
    ensures LoopInv(React(c, reaction)) && LoopInv(Terminate(c))
  {
  }

  lemma KeepKeeps(c: Channel)
    requires LoopInv(c) && c.queue.inFlight.None? && c.queue.incoming != [] && c.log.dropped == 0
    ensures LoopInv(Keep(c))
  {
    BytesOfShift(c.queue.incoming, |c.queue.incoming|);
    HeadLeaves(c.queue, c.log, Keep(c).queue, Keep(c).log);
    assert forall k | k in Keep(c).queue.incoming :: k in c.queue.incoming;
  }

  lemma ConcludeKeeps(c: Channel)
    requires LoopInv(c) && c.queue.inFlight.None? && c.queue.incoming != [] && c.log.dropped == 0
    ensures LoopInv(Conclude(c))
  {
    var m := c.queue.incoming[0];
    var over := c.(queue := c.queue.(incoming := c.queue.incoming[1..]),
                   log := c.log.(handed := c.log.handed + [m], completed := c.log.completed + 1));
    assert Owing(over, m.bytes) by {
      BytesOfShift(c.queue.incoming, |c.queue.incoming|);
    }
    assert InOrder(over.queue, over.log) by {
      HeadLeaves(c.queue, c.log, over.queue, over.log);
    }
    ReleaseKeeps(over, m.bytes);
    assert forall k | k in over.queue.incoming :: k in c.queue.incoming;
  }

  lemma HandKeeps(c: Channel, reaction: Reaction)
    requires LoopInv(c) && c.queue.inFlight.None? && c.queue.incoming != [] && Dispatching(c)
    ensures var next := Hand(c, reaction);
            && LoopInv(next) && next.limits == c.limits
            && next.queue.incoming == c.queue.incoming[1..] && next.queue.draining == c.queue.draining
            && next.queue.messages <= c.queue.messages
  {
    ReactionKeeps(c, reaction);
    var called := React(c, reaction);
    ReactionKeeps(called, reaction);
    match reaction.handling
    case Promises => KeepKeeps(called);
    case Returns => ConcludeKeeps(called);
    case Throws => ConcludeKeeps(Terminate(called));
  }

  lemma DropKeeps(c: Channel)
    requires LoopInv(c) && c.queue.inFlight.None? && c.queue.incoming != [] && !Dispatching(c)
    ensures var next := Drop(c);
            && LoopInv(next) && next.limits == c.limits && !Dispatching(next)
            && next.queue.incoming == c.queue.incoming[1..] && next.queue.draining == c.queue.draining
            && next.queue.messages <= c.queue.messages
  {
    var next := Drop(c);
    BytesOfShift(c.queue.incoming, |c.queue.incoming|);
    HeadLeaves(c.queue, c.log, next.queue, next.log);
    assert forall k | k in next.queue.incoming :: k in c.queue.incoming;
  }

  lemma DispatchKeeps(c: Channel, script: Script)
    requires LoopInv(c) && c.queue.inFlight.None? && c.queue.incoming != []
    ensures var next := Dispatch(c, script);
            && LoopInv(next) && next.limits == c.limits
            && next.queue.incoming == c.queue.incoming[1..] && next.queue.draining == c.queue.draining
            && next.queue.messages <= c.queue.messages
            && (!Dispatching(c) ==> !Dispatching(next))
  {
    assert HasListener(c.ends, c.queue.incoming[0]);
    if Dispatching(c) {
      HandKeeps(c, script(|c.log.handed|));
    } else {
      DropKeeps(c);
    }
  }

  lemma {:induction false} DrainLoopKeeps(c: Channel, script: Script)
    requires LoopInv(c) && c.queue.inFlight.None? && c.queue.draining
    ensures var after := DrainLoop(c, script);
            && Inv(after) && after.queue.messages <= c.queue.messages && after.limits == c.limits
            && (!Dispatching(c) ==> !Dispatching(after))
    decreases |c.queue.incoming|
  {
    if c.queue.incoming != [] {
      DispatchKeeps(c, script);
      var next := Dispatch(c, script);
      if next.queue.inFlight.None? {
        DrainLoopKeeps(next, script);
      }
    }
  }

  lemma SettlementKeeps(c: Channel, ok: bool, script: Script)
    requires Inv(c) && c.queue.inFlight.Some?
    ensures var after := Step(c, HandlerSettles(ok), script);
            && Inv(after) && after.queue.messages < c.queue.messages && after.limits == c.limits
            && (!Dispatching(c) ==> !Dispatching(after))
  {
    var settled := Settle(c, ok);
    var over := c.(queue := c.queue.(inFlight := None, draining := false),
                   log := c.log.(completed := c.log.completed + 1));
    ReleaseKeeps(over, c.queue.inFlight.value.bytes);
    ReleaseKeeps(Terminate(over), c.queue.inFlight.value.bytes);
    var again := settled.(queue := settled.queue.(draining := true));
    assert LoopInv(again);
    DrainLoopKeeps(again, script);
  }

  lemma ArrivalKeeps(c: Channel, m: Message, script: Script)
    requires Inv(c)
    ensures var after := Step(c, Arrives(m), script);
            && Inv(after) && after.limits == c.limits
            && (!Dispatching(c) ==> !Dispatching(after))
  {
    if !c.socket.ready.Closed? && !Refused(c, m) && !TooLarge(c.limits, m) && !Overflows(c, m) {
      var queued := Admit(c, m);
      assert Counted(queued) by {
        BytesOfPush(c.queue.incoming, m);
      }
      assert LoopInv(queued);
      if !c.queue.draining {
        DrainLoopKeeps(queued.(queue := queued.queue.(draining := true)), script);
      }
    }
  }

  lemma StepKeeps(c: Channel, e: Event, script: Script)
    requires Inv(c)
    ensures var after := Step(c, e, script);
            && Inv(after) && after.limits == c.limits
            && (!Dispatching(c) ==> !Dispatching(after))
  {
    match e
    case Arrives(m) => ArrivalKeeps(c, m, script);
    case HandlerSettles(ok) =>
      if c.queue.inFlight.Some? {
        SettlementKeeps(c, ok, script);
      }
    case _ =>
  }

  ghost function Run(c: Channel, events: seq<Event>, script: Script): (after: Channel)
    requires Inv(c)
    ensures Inv(after) && after.limits == c.limits
    decreases |events|
  {
    if events == [] then c
    else
      StepKeeps(c, events[0], script);
      Run(Step(c, events[0], script), events[1..], script)
  }

  // ---------------------------------------------------------------- theorems about runs

  /** A channel after any run from its creation, whatever arrives and however its handlers behave. */
  ghost function After(limits: Limits, events: seq<Event>, script: Script): (c: Channel)
    ensures Inv(c) && c.limits == limits
  {
    CreatedInv(limits);
    Run(Created(limits), events, script)
  }

  lemma OrderSays(q: Queue, log: Log)
    requires InOrder(q, log)
    ensures log.handed <= log.admitted
    ensures log.dropped == 0 ==> log.admitted == log.handed + q.incoming
  {
    assert log.handed == log.admitted[..|log.handed|];
  }

  /**
    In every run the messages handed to handlers are a prefix, in order, of the messages admitted; while
    the gate is open none is missing but those still queued; and at most one handler run is unfinished.
   */
  lemma HandlersSeeAPrefixOneAtATime(limits: Limits, events: seq<Event>, script: Script)
    ensures var c := After(limits, events, script);
            && c.log.handed <= c.log.admitted
            && (Dispatching(c) ==> c.log.admitted == c.log.handed + c.queue.incoming)
            && c.log.completed <= |c.log.handed| <= c.log.completed + 1
            && (|c.log.handed| == c.log.completed + 1 <==> c.queue.inFlight.Some?)
  {
    var c := After(limits, events, script);
    OrderSays(c.queue, c.log);
  }

  /** The counters never leave their bounds and always equal the queue plus the message in flight. */
  lemma CountersStayInBounds(limits: Limits, events: seq<Event>, script: Script)
    ensures var c := After(limits, events, script);
            && 0 <= c.queue.messages <= 64
            && 0 <= c.queue.bytes <= Budget(limits)
            && c.queue.messages == |c.queue.incoming| + Busy(c.queue)
            && c.queue.bytes == Bytes(c.queue.incoming) + BusyBytes(c.queue)
  {
    assert Counted(After(limits, events, script));
  }

  /** The dispatch gate, once closed, stays closed. */
  lemma {:induction false} DispatchGateOnlyCloses(c: Channel, events: seq<Event>, script: Script)
    requires Inv(c) && !Dispatching(c)
    ensures !Dispatching(Run(c, events, script))
    decreases |events|
  {
    if events != [] {
      StepKeeps(c, events[0], script);
      DispatchGateOnlyCloses(Step(c, events[0], script), events[1..], script);
    }
  }

  /**
    Backpressure cannot deadlock: between turns a non-empty queue has a handler in flight, and a paused
    socket that is not closed has at least 512 KiB queued, with a handler in flight.
   */
  lemma PausedMeansWorkInFlight(limits: Limits, events: seq<Event>, script: Script)
    ensures var c := After(limits, events, script);
            && (c.queue.incoming != [] ==> c.queue.inFlight.Some?)
            && (c.socket.paused && !c.socket.ready.Closed? ==> c.queue.bytes >= 512 * 1024 && c.queue.inFlight.Some?)
  {
    var c := After(limits, events, script);
    assert Inv(c) && Counted(c);
  }

  /**
    From any reachable state, as many handler completions as there are queued messages empty the queue
    and resume the socket unless it has closed, whether the handlers succeed or fail.
   */
  lemma {:induction false} CompletionsResumeTheSocket(c: Channel, outcomes: seq<Event>, script: Script)
    requires Inv(c)
    requires forall e | e in outcomes :: e.HandlerSettles?
    requires |outcomes| >= c.queue.messages
    ensures var after := Run(c, outcomes, script);
            && after.queue.messages == 0 && after.queue.bytes == 0
            && (after.socket.paused ==> after.socket.ready.Closed?)
    decreases |outcomes|
  {
    if outcomes != [] {
      assert outcomes[0].HandlerSettles?;
      if c.queue.inFlight.Some? {
        SettlementKeeps(c, outcomes[0].ok, script);
      }
      CompletionsResumeTheSocket(Step(c, outcomes[0], script), outcomes[1..], script);
    }
  }

  /** Neither draining nor a handler changes a promise of `finish` that was asked for, or closes the socket. */
  lemma {:induction false} DrainLoopLeavesTheFinish(c: Channel, script: Script)
    requires c.queue.inFlight.None? && !c.ends.finishing.NotAsked?
    ensures DrainLoop(c, script).ends.finishing == c.ends.finishing
    ensures DrainLoop(c, script).socket.ready.Closed? <==> c.socket.ready.Closed?
    decreases |c.queue.incoming|
  {
    if c.queue.incoming != [] {
      var next := Dispatch(c, script);
      assert next == Drop(c);
      DrainLoopLeavesTheFinish(next, script);
    }
  }

  lemma StepLeavesTheFinish(c: Channel, e: Event, script: Script)
    requires Inv(c) && c.ends.finishing.Awaiting? && !c.socket.ready.Closed? && !e.SocketClosed?
    ensures var after := Step(c, e, script);
      && !after.socket.ready.Closed?
      && after.ends.finishing == if e.DeadlinePasses? then Awaiting(true) else c.ends.finishing
  {
    if e.HandlerSettles? && c.queue.inFlight.Some? {
      var settled := Settle(c, e.ok);
      DrainLoopLeavesTheFinish(settled.(queue := settled.queue.(draining := true)), script);
    }
  }

  /**
    Whatever happens between asking for `finish` and the close of the socket, its promise is fulfilled if
    and only if the socket closes normally and the deadline has not passed before; otherwise it is rejected.
   */
  lemma {:induction false} FinishConfirmsExactly(c: Channel, events: seq<Event>, graceful: bool, script: Script)
    requires Inv(c) && c.ends.finishing.Awaiting? && !c.socket.ready.Closed?
    requires forall e | e in events :: !e.SocketClosed?
    ensures var after := Step(Run(c, events, script), SocketClosed(graceful), script);
      && after.socket.ready.Closed?
      && after.ends.finishing
           == if graceful && !c.ends.finishing.timedOut && DeadlinePasses !in events then Confirmed else Unconfirmed
    decreases |events|
  {
    if events != [] {
      StepLeavesTheFinish(c, events[0], script);
      StepKeeps(c, events[0], script);
      FinishConfirmsExactly(Step(c, events[0], script), events[1..], graceful, script);
      assert events == [events[0]] + events[1..];
    }
  }

  // ---------------------------------------------------------------- the object

  /** The closure of one channel. `script` answers for the route's handlers. */
  class WebSocketChannel {
    const limits: Limits
    var textListener: bool
    var binaryListener: bool
    var incoming: seq<Message>
    var draining: bool
    var queuedMessages: int
    var queuedBytes: int
    var finishing: Finish
    var accepting: bool
    var ready: Ready
    var paused: bool
    var inFlight: Option<Message>
    var log: Log

    ghost function View(): Channel
      reads this
    {
      Channel(limits, Queue(incoming, draining, queuedMessages, queuedBytes, inFlight), Socket(ready, paused),
              Ends(finishing, accepting, textListener, binaryListener), log)
    }

    constructor (limits: Limits)
      ensures this.limits == limits && View() == Created(limits)
    {
      this.limits := limits;
      textListener, binaryListener := false, false;
      incoming, draining, queuedMessages, queuedBytes := [], false, 0, 0;
      finishing, accepting, ready, paused := NotAsked, true, Open, false;
      inFlight, log := None, Log([], [], 0, 0);
    }

    method TerminateSocket()
      modifies this`ready
      ensures View() == Terminate(old(View()))
    {
      if ready.Open? {
        ready := Closing;
      }
    }

    method ReleaseInput(bytes: nat)
      modifies this`queuedMessages, this`queuedBytes, this`paused
      ensures View() == Release(old(View()), bytes)
    {
      queuedMessages := queuedMessages - 1;
      queuedBytes := queuedBytes - bytes;
      if binaryListener && queuedBytes < MAX_INPUT_BYTES / 4 && !ready.Closed? {
        paused := false;
      }
    }

    /** The synchronous part of one handler invocation. */
    method CallHandler(reaction: Reaction)
      modifies this`accepting, this`finishing, this`ready
      ensures View() == React(old(View()), reaction)
    {
      if reaction.stopsListener {
        accepting := false;
      }
      if reaction.finishes {
        finishing := Asked(finishing, ready);
        TerminateSocket();
      }
      if reaction.closes {
        TerminateSocket();
      }
    }

    /** Shift a message off the queue and hand it to its handler. */
    method HandNext(reaction: Reaction)
      requires incoming != []
      modifies this
      ensures View() == Hand(old(View()), reaction)
    {
      var message := incoming[0];
      incoming := incoming[1..];
      CallHandler(reaction);
      log := log.(handed := log.handed + [message]);
      if reaction.handling.Promises? {
        inFlight := Some(message);
        return;
      }
      log := log.(completed := log.completed + 1);
      if reaction.handling.Throws? {
        TerminateSocket();
      }
      ReleaseInput(message.bytes);
    }

    /** The body of the drain loop. */
    method DispatchNext(script: Script)
      requires incoming != []
      modifies this
      ensures View() == Dispatch(old(View()), script)
    {
      var message := incoming[0];
      if finishing.NotAsked? && accepting && ready.Open? && (if message.binary then binaryListener else textListener) {
        HandNext(script(|log.handed|));
        return;
      }
      incoming := incoming[1..];
      log := log.(dropped := log.dropped + 1);
      ReleaseInput(message.bytes);
    }

    method DrainInputs(script: Script)
      requires !draining ==> inFlight.None?
      modifies this
      ensures View() == Drain(old(View()), script)
    {
      if draining {
        return;
      }
      draining := true;
      ghost var start := View();
      while incoming != []
        invariant inFlight.None?
        invariant DrainLoop(View(), script) == DrainLoop(start, script)
        decreases |incoming|
      {
        DispatchNext(script);
        if inFlight.Some? {
          return;
        }
      }
      draining := false;
    }

    method OnMessage(m: Message, script: Script)
      requires !ready.Closed? && (!draining ==> inFlight.None?)
      modifies this
      ensures View() == Step(old(View()), Arrives(m), script)
    {
      var deaf := if m.binary then !binaryListener || limits.maxBinary.None? else !textListener;
      if !finishing.NotAsked? || !accepting || deaf {
        TerminateSocket();
        return;
      }
      if m.binary && limits.maxBinary.Some? && m.bytes > limits.maxBinary.value {
        TerminateSocket();
        return;
      }
      if !m.binary && limits.maxText.Some? && m.bytes > limits.maxText.value {
        TerminateSocket();
        return;
      }
      if queuedMessages >= MAX_INPUT_MESSAGES || queuedBytes + m.bytes > Budget(limits) {
        TerminateSocket();
        return;
      }
      ghost var before := View();
      queuedMessages := queuedMessages + 1;
      queuedBytes := queuedBytes + m.bytes;
      if binaryListener && queuedBytes >= MAX_INPUT_BYTES / 2 {
        paused := true;
      }
      incoming := incoming + [m];
      log := log.(admitted := log.admitted + [m]);
      assert View() == Admit(before, m);
      DrainInputs(script);
    }

    /** The continuation of the handler in flight. */
    method OnSettled(ok: bool, script: Script)
      requires inFlight.Some? && draining
      modifies this
      ensures View() == Step(old(View()), HandlerSettles(ok), script)
    {
      var bytes := inFlight.value.bytes;
      inFlight := None;
      log := log.(completed := log.completed + 1);
      if !ok {
        TerminateSocket();
      }
      ReleaseInput(bytes);
      draining := false;
      DrainInputs(script);
    }

    method Finish()
      requires !draining ==> inFlight.None?
      modifies this
      ensures forall script: Script :: View() == Step(old(View()), FinishCalled, script)
    {
      if !finishing.NotAsked? {
        return;
      }
      finishing := if ready.Closed? then Confirmed else Awaiting(false);
      TerminateSocket();
    }

    /** The deadline of a finish passes while it waits for the socket. */
    method OnDeadline()
      requires finishing.Awaiting? && (!draining ==> inFlight.None?)
      modifies this`finishing, this`ready
      ensures forall script: Script :: View() == Step(old(View()), DeadlinePasses, script)
    {
      finishing := Awaiting(true);
      TerminateSocket();
    }

    /** The socket has closed, and with it a finish that waits is settled. */
    method OnClosed(graceful: bool)
      requires !ready.Closed? && (!draining ==> inFlight.None?)
      modifies this`finishing, this`ready
      ensures forall script: Script :: View() == Step(old(View()), SocketClosed(graceful), script)
    {
      ready := Closed;
      if finishing.Awaiting? {
        finishing := if finishing.timedOut || !graceful then Unconfirmed else Confirmed;
      }
    }

    method CloseSocket()
      requires !draining ==> inFlight.None?
      modifies this`ready
      ensures forall script: Script :: View() == Step(old(View()), CloseCalled, script)
    {
      TerminateSocket();
    }

    /** The listener has left the generation of this socket. */
    method StopAccepting()
      requires !draining ==> inFlight.None?
      modifies this`accepting
      ensures forall script: Script :: View() == Step(old(View()), GateCloses, script)
    {
      accepting := false;
    }

    method ListenToText()
      requires !draining ==> inFlight.None?
      modifies this`textListener
      ensures forall script: Script :: View() == Step(old(View()), ListenText, script)
    {
      textListener := true;
    }

    /** Refused on a route without binary ingress. */
    method ListenToBinary() returns (ok: bool)
      requires !draining ==> inFlight.None?
      modifies this
      ensures ok <==> limits.maxBinary.Some?
      ensures forall script: Script :: View() == Step(old(View()), ListenBinary, script)
    {
      if limits.maxBinary.None? {
        return false;
      }
      binaryListener := true;
      return true;
    }
  }
}
