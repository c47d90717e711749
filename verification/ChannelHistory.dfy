/**
  One WebSocket channel against the history of a run: when a message is admitted, when the socket is paused and
  resumed, what each handler does to the channel, and which events close the gate.
 */
module ChannelHistories {
  import opened Results
  import opened WebSocketChannels

  const HIGH_WATER: nat := 1024 * 1024
  const LOW_WATER: nat := 512 * 1024

  // ---------------------------------------------------------------- what handlers do

  /** A handler that leaves an open socket open. */
  predicate Calm(r: Reaction) {
    !r.finishes && !r.closes && !r.handling.Throws?
  }

  predicate NoneStopsTheListener(script: Script, from: nat, to: nat) {
    forall k: nat | from <= k < to :: !script(k).stopsListener
  }

  predicate NoneFinishes(script: Script, from: nat, to: nat) {
    forall k: nat | from <= k < to :: !script(k).finishes
  }

  predicate AllCalm(script: Script, from: nat, to: nat) {
    forall k: nat | from <= k < to :: Calm(script(k))
  }

  /** Which handlers were called follows from the log; what they did, from the script. */
  ghost predicate Handled(c: Channel, t: Channel, script: Script) {
    var from, to := |c.log.handed|, |t.log.handed|;
    && from <= to && (!Dispatching(c) ==> to == from)
    && t.ends.textListener == c.ends.textListener && t.ends.binaryListener == c.ends.binaryListener
    && (t.ends.accepting <==> c.ends.accepting && NoneStopsTheListener(script, from, to))
    && (t.ends.finishing.NotAsked? <==> c.ends.finishing.NotAsked? && NoneFinishes(script, from, to))
    && (t.socket.ready.Open? <==> c.socket.ready.Open? && AllCalm(script, from, to))
    && (t.socket.ready.Closed? <==> c.socket.ready.Closed?)
  }

  /** Messages leave the budget, and the socket is resumed below the low threshold and never paused. */
  predicate Relieved(c: Channel, t: Channel) {
    && t.limits == c.limits && t.log.admitted == c.log.admitted && t.queue.bytes <= c.queue.bytes
    && (t.socket.paused ==> c.socket.paused)
    && (c.socket.paused && !t.socket.paused ==> t.queue.bytes < LOW_WATER)
  }

  lemma DispatchHandles(c: Channel, script: Script)
    requires c.queue.incoming != []
    ensures Handled(c, Dispatch(c, script), script) && Relieved(c, Dispatch(c, script))
  {
    var next := Dispatch(c, script);
    var from := |c.log.handed|;
    assert Dispatching(c) && HasListener(c.ends, c.queue.incoming[0]) ==> |next.log.handed| == from + 1;
    assert script(from) == script(from);
  }

  lemma HandledTwice(c: Channel, s: Channel, t: Channel, script: Script)
    requires Handled(c, s, script) && Handled(s, t, script)
    ensures Handled(c, t, script)
  {
    var from, between, to := |c.log.handed|, |s.log.handed|, |t.log.handed|;
    assert NoneStopsTheListener(script, from, to) <==>
      NoneStopsTheListener(script, from, between) && NoneStopsTheListener(script, between, to);
    assert NoneFinishes(script, from, to) <==> NoneFinishes(script, from, between) && NoneFinishes(script, between, to);
    assert AllCalm(script, from, to) <==> AllCalm(script, from, between) && AllCalm(script, between, to);
  }

  lemma {:induction false} DrainLoopHandles(c: Channel, script: Script)
    requires c.queue.inFlight.None?
    ensures Handled(c, DrainLoop(c, script), script) && Relieved(c, DrainLoop(c, script))
    decreases |c.queue.incoming|
  {
    if c.queue.incoming != [] {
      var next := Dispatch(c, script);
      DispatchHandles(c, script);
      hide Handled, Dispatch;
      if next.queue.inFlight.None? {
        DrainLoopHandles(next, script);
        HandledTwice(c, next, DrainLoop(next, script), script);
      }
    }
  }

  // ---------------------------------------------------------------- one turn

  /** A message is admitted: somebody listens, its frame and the queue are within the limits of the route. */
  predicate Admits(c: Channel, m: Message) {
    var bytes, text, binary := c.queue.bytes + m.bytes, c.limits.maxText, c.limits.maxBinary;
    && !c.socket.ready.Closed? && c.ends.finishing.NotAsked? && c.ends.accepting
    && (if m.binary then c.ends.binaryListener && binary.Some? && m.bytes <= binary.value
        else c.ends.textListener && (text.Some? ==> m.bytes <= text.value))
    && c.queue.messages < 64
    && (bytes <= 2097152 || (text.Some? && bytes <= text.value) || (binary.Some? && bytes <= binary.value))
  }

  /** What makes an open socket leave, besides a handler. */
  predicate Disturbs(c: Channel, e: Event) {
    match e
    case Arrives(m) => !Admits(c, m)
    case HandlerSettles(ok) => !ok && c.queue.inFlight.Some?
    case FinishCalled => c.ends.finishing.NotAsked?
    case CloseCalled => true
    case DeadlinePasses => c.ends.finishing.Awaiting?
    case SocketClosed(_) => true
    case _ => false
  }

  /** A message that is not admitted costs the socket and leaves no other trace. */
  lemma ArrivalAdmitsExactlyWhen(c: Channel, m: Message, script: Script)
    requires Inv(c)
    ensures var after := Step(c, Arrives(m), script);
      if Admits(c, m) then after.log.admitted == c.log.admitted + [m]
      else after == c.(socket := c.socket.(ready := if c.socket.ready.Open? then Closing else c.socket.ready))
  {
    AdmissionSpelled(c, m);
    if Admits(c, m) && !c.queue.draining {
      var queued := Admit(c, m);
      DrainLoopHandles(queued.(queue := queued.queue.(draining := true)), script);
    }
    hide Admits, Refused, TooLarge, Overflows, Inv;
  }

  lemma AdmissionSpelled(c: Channel, m: Message)
    ensures Admits(c, m)
       <==> !c.socket.ready.Closed? && !Refused(c, m) && !TooLarge(c.limits, m) && !Overflows(c, m)
  {
  }

  ghost predicate HandledBy(c: Channel, e: Event, t: Channel, script: Script) {
    var from, to := |c.log.handed|, |t.log.handed|;
    && from <= to && (!Dispatching(c) ==> to == from)
    && (t.ends.textListener <==> c.ends.textListener || e.ListenText?)
    && (t.ends.binaryListener <==> c.ends.binaryListener || (e.ListenBinary? && c.limits.maxBinary.Some?))
    && (t.ends.accepting <==> c.ends.accepting && !e.GateCloses? && NoneStopsTheListener(script, from, to))
    && (t.ends.finishing.NotAsked? <==>
          c.ends.finishing.NotAsked? && !e.FinishCalled? && NoneFinishes(script, from, to))
    && (t.socket.ready.Open? <==> c.socket.ready.Open? && !Disturbs(c, e) && AllCalm(script, from, to))
    && (t.socket.ready.Closed? <==> c.socket.ready.Closed? || e.SocketClosed?)
  }

  /** The ends of the channel and its socket move only by the events named and by what the called handlers do. */
  lemma StepHandles(c: Channel, e: Event, script: Script)
    requires Inv(c)
    ensures HandledBy(c, e, Step(c, e, script), script)
  {
    match e
    case Arrives(m) => ArrivalHandles(c, m, script);
    case HandlerSettles(ok) => SettlementHandles(c, ok, script);
    case _ => OthersHandle(c, e, script);
  }

  lemma OthersHandle(c: Channel, e: Event, script: Script)
    requires Inv(c) && !e.Arrives? && !e.HandlerSettles?
    ensures HandledBy(c, e, Step(c, e, script), script)
  {
    var n := |c.log.handed|;
    assert NoneStopsTheListener(script, n, n) && NoneFinishes(script, n, n) && AllCalm(script, n, n);
    hide Inv;
  }

  lemma ArrivalHandles(c: Channel, m: Message, script: Script)
    requires Inv(c)
    ensures HandledBy(c, Arrives(m), Step(c, Arrives(m), script), script)
  {
    AdmissionSpelled(c, m);
    if Admits(c, m) && !c.queue.draining {
      var queued := Admit(c, m);
      DrainLoopHandles(queued.(queue := queued.queue.(draining := true)), script);
    }
    hide Admits, Refused, TooLarge, Overflows, Inv, DrainLoop;
  }

  lemma SettlementHandles(c: Channel, ok: bool, script: Script)
    requires Inv(c)
    ensures HandledBy(c, HandlerSettles(ok), Step(c, HandlerSettles(ok), script), script)
  {
    if c.queue.inFlight.Some? {
      var settled := Settle(c, ok);
      DrainLoopHandles(settled.(queue := settled.queue.(draining := true)), script);
    }
    hide Inv, DrainLoop;
  }

  // ---------------------------------------------------------------- a whole run

  lemma {:induction false} RunLast(c: Channel, events: seq<Event>, e: Event, script: Script)
    requires Inv(c)
    ensures Run(c, events + [e], script) == Step(Run(c, events, script), e, script)
    decreases |events|
  {
    if events == [] {
      StepKeeps(c, e, script);
      assert [e][1..] == [];
      assert Run(c, [e], script) == Run(Step(c, e, script), [], script);
    } else {
      assert (events + [e])[1..] == events[1..] + [e];
      StepKeeps(c, events[0], script);
      RunLast(Step(c, events[0], script), events[1..], e, script);
    }
  }

  ghost predicate NeverDisturbed(limits: Limits, events: seq<Event>, script: Script) {
    forall i: nat | i < |events| :: !Disturbs(After(limits, events[..i], script), events[i])
  }

  lemma NeverDisturbedGrows(limits: Limits, init: seq<Event>, e: Event, script: Script)
    ensures NeverDisturbed(limits, init + [e], script)
       <==> NeverDisturbed(limits, init, script) && !Disturbs(After(limits, init, script), e)
  {
    hide Disturbs, After;
    var events, n := init + [e], |init|;
    assert forall j: nat | j < n :: events[..j] == init[..j] && events[j] == init[j];
    assert events[..n] == init && events[n] == e;
  }

  /** What a run and the handlers it has called make of the ends of the channel and of its socket. */
  ghost predicate EndsAre(c: Channel, limits: Limits, events: seq<Event>, script: Script) {
    var handed := |c.log.handed|;
    && (c.ends.accepting <==> GateCloses !in events && NoneStopsTheListener(script, 0, handed))
    && (c.ends.finishing.NotAsked? <==> FinishCalled !in events && NoneFinishes(script, 0, handed))
    && (c.ends.textListener <==> ListenText in events)
    && (c.ends.binaryListener <==> ListenBinary in events && limits.maxBinary.Some?)
    && (c.socket.ready.Open? <==> NeverDisturbed(limits, events, script) && AllCalm(script, 0, handed))
    && (c.socket.ready.Closed? <==> SocketClosed(true) in events || SocketClosed(false) in events)
  }

  lemma EndsStep(before: Channel, e: Event, after: Channel, limits: Limits, init: seq<Event>, script: Script)
    requires EndsAre(before, limits, init, script) && before.limits == limits
    requires before == After(limits, init, script) && HandledBy(before, e, after, script)
    ensures EndsAre(after, limits, init + [e], script)
  {
    hide After, Disturbs, NeverDisturbed, NoneStopsTheListener, NoneFinishes, AllCalm;
    NeverDisturbedGrows(limits, init, e, script);
    HistoryOfHandlers(script, |before.log.handed|, |after.log.handed|);
  }

  /**
    In every run: the channel accepts until the listener leaves it or a handler that was called stops it; it
    has been asked to finish exactly by a call or by such a handler; its socket is open exactly if nothing has
    disturbed it and no such handler has failed, finished or closed it.
   */
  lemma {:induction false} EndsFollowTheHistory(limits: Limits, events: seq<Event>, script: Script)
    ensures EndsAre(After(limits, events, script), limits, events, script)
    decreases |events|
  {
    if events == [] {
      assert After(limits, events, script) == Created(limits);
    } else {
      var n := |events| - 1;
      var init, e := events[..n], events[n];
      assert events == init + [e];
      EndsFollowTheHistory(limits, init, script);
      AfterLast(limits, init, e, script);
      hide EndsAre, HandledBy, After, Step, Inv;
      StepHandles(After(limits, init, script), e, script);
      EndsStep(After(limits, init, script), e, After(limits, events, script), limits, init, script);
    }
  }

  lemma AfterLast(limits: Limits, init: seq<Event>, e: Event, script: Script)
    ensures After(limits, init + [e], script) == Step(After(limits, init, script), e, script)
  {
    CreatedInv(limits);
    RunLast(Created(limits), init, e, script);
  }

  lemma HistoryOfHandlers(script: Script, between: nat, to: nat)
    requires between <= to
    ensures NoneStopsTheListener(script, 0, to) <==>
      NoneStopsTheListener(script, 0, between) && NoneStopsTheListener(script, between, to)
    ensures NoneFinishes(script, 0, to) <==> NoneFinishes(script, 0, between) && NoneFinishes(script, between, to)
    ensures AllCalm(script, 0, to) <==> AllCalm(script, 0, between) && AllCalm(script, between, to)
  {
  }

  // ---------------------------------------------------------------- pausing and resuming

  /** At high water the socket of a binary channel is paused. */
  predicate HeldAtHighWater(c: Channel) {
    c.ends.binaryListener && c.queue.bytes >= HIGH_WATER ==> c.socket.paused
  }

  /** One turn pauses the socket, or resumes it. */
  predicate PacedBy(c: Channel, e: Event, t: Channel) {
    && (!c.socket.paused && t.socket.paused ==>
          && e.Arrives? && Admits(c, e.message) && c.ends.binaryListener
          && c.queue.bytes + e.message.bytes >= HIGH_WATER)
    && (c.socket.paused && !t.socket.paused ==> t.queue.bytes < LOW_WATER)
  }

  /** The messages a turn hands over before one of them keeps its handler busy. */
  predicate UntilAPromise(c: Channel, t: Channel, script: Script) {
    var from, to := |c.log.handed|, |t.log.handed|;
    && from <= to
    && (forall k: nat | from <= k < to - 1 :: !script(k).handling.Promises?)
    && (t.queue.inFlight.Some? <==> from < to && script(to - 1).handling.Promises?)
  }

  lemma {:induction false} DrainLoopStopsAtAPromise(c: Channel, script: Script)
    requires c.queue.inFlight.None?
    ensures UntilAPromise(c, DrainLoop(c, script), script)
    decreases |c.queue.incoming|
  {
    if c.queue.incoming != [] {
      var next := Dispatch(c, script);
      DispatchIsAPromise(c, script);
      hide Dispatch, Inv;
      if next.queue.inFlight.None? {
        DrainLoopStopsAtAPromise(next, script);
      }
    }
  }

  lemma DispatchIsAPromise(c: Channel, script: Script)
    requires c.queue.inFlight.None? && c.queue.incoming != []
    ensures var n, next := |c.log.handed|, Dispatch(c, script);
      && n <= |next.log.handed| <= n + 1
      && (next.queue.inFlight.Some? <==> |next.log.handed| == n + 1 && script(n).handling.Promises?)
  {
  }

  /**
    The socket is paused only by admitting a message that takes a binary channel to 1 MiB or more, and resumed
    only below 512 KiB. At 1 MiB it stays paused, whatever happens, except that listening for binary messages
    may begin late, when that much is queued already.
   */
  lemma PausedExactlyWhen(c: Channel, e: Event, script: Script)
    requires Inv(c)
    ensures PacedBy(c, e, Step(c, e, script))
    ensures HeldAtHighWater(c) ==>
      (HeldAtHighWater(Step(c, e, script)) <==>
         !(e.ListenBinary? && c.limits.maxBinary.Some? && c.queue.bytes >= HIGH_WATER && !c.socket.paused))
  {
    match e
    case Arrives(m) => ArrivalPaces(c, m, script);
    case HandlerSettles(ok) => SettlementPaces(c, ok, script);
    case _ => hide Inv, DrainLoop;
  }

  lemma ArrivalPaces(c: Channel, m: Message, script: Script)
    requires Inv(c)
    ensures PacedBy(c, Arrives(m), Step(c, Arrives(m), script))
    ensures HeldAtHighWater(c) ==> HeldAtHighWater(Step(c, Arrives(m), script))
  {
    AdmissionSpelled(c, m);
    if Admits(c, m) && !c.queue.draining {
      var queued := Admit(c, m);
      DrainLoopHandles(queued.(queue := queued.queue.(draining := true)), script);
    }
    hide Admits, Refused, TooLarge, Overflows, Inv, DrainLoop;
  }

  lemma SettlementPaces(c: Channel, ok: bool, script: Script)
    requires Inv(c)
    ensures PacedBy(c, HandlerSettles(ok), Step(c, HandlerSettles(ok), script))
    ensures HeldAtHighWater(c) ==> HeldAtHighWater(Step(c, HandlerSettles(ok), script))
  {
    if c.queue.inFlight.Some? {
      var settled := Settle(c, ok);
      assert settled.queue.bytes <= c.queue.bytes;
      DrainLoopHandles(settled.(queue := settled.queue.(draining := true)), script);
    }
    hide DrainLoop, Bytes, InOrder, HasListener;
  }

  /**
    In every run that begins to listen for binary messages before its first message, or never does, the socket
    is paused whenever 1 MiB or more is queued for a binary channel.
   */
  lemma {:induction false} HighWaterPausesTheSocket(limits: Limits, before: seq<Event>,
                                                         later: seq<Event>, script: Script)
    requires forall e | e in before :: !e.Arrives?
    requires ListenBinary in before || ListenBinary !in later
    ensures HeldAtHighWater(After(limits, before + later, script))
    decreases |later|
  {
    if later == [] {
      NothingQueuedBefore(limits, before, script);
      assert before + later == before;
    } else {
      var n := |later| - 1;
      var init, e := before + later[..n], later[n];
      assert before + later == init + [e] && later == later[..n] + [e];
      HighWaterPausesTheSocket(limits, before, later[..n], script);
      AfterLast(limits, init, e, script);
      var c := After(limits, init, script);
      EndsFollowTheHistory(limits, init, script);
      assert e.ListenBinary? ==> ListenBinary in init;
      hide After, Step, Inv, Disturbs, HeldAtHighWater;
      PausedExactlyWhen(c, e, script);
      HeldMeansPaused(c);
    }
  }

  lemma HeldMeansPaused(c: Channel)
    ensures HeldAtHighWater(c) && c.ends.binaryListener && c.queue.bytes >= HIGH_WATER ==> c.socket.paused
  {
  }

  lemma {:induction false} NothingQueuedBefore(limits: Limits, events: seq<Event>, script: Script)
    requires forall e | e in events :: !e.Arrives?
    ensures After(limits, events, script).queue == Queue([], false, 0, 0, None)
    decreases |events|
  {
    if events == [] {
      assert After(limits, events, script) == Created(limits);
    } else {
      var n := |events| - 1;
      var init, e := events[..n], events[n];
      assert events == init + [e];
      NothingQueuedBefore(limits, init, script);
      AfterLast(limits, init, e, script);
      hide After, Inv;
    }
  }

  // ---------------------------------------------------------------- handlers one at a time

  /**
    While a handler is busy nothing is handed over and nothing ends but by its settlement. Otherwise a turn
    hands over what is queued up to the first handler that promises something, which is then the busy one.
   */
  lemma HandsOverUntilAPromise(c: Channel, e: Event, script: Script)
    requires Inv(c)
    ensures var t := Step(c, e, script);
      if c.queue.inFlight.Some? && !e.HandlerSettles?
      then t.queue.inFlight == c.queue.inFlight && t.log.handed == c.log.handed && t.log.completed == c.log.completed
      else UntilAPromise(c, t, script)
  {
    if e.HandlerSettles? && c.queue.inFlight.Some? {
      var settled := Settle(c, e.ok);
      DrainLoopStopsAtAPromise(settled.(queue := settled.queue.(draining := true)), script);
    } else if e.Arrives? && !c.queue.draining {
      var queued := Admit(c, e.message);
      DrainLoopStopsAtAPromise(queued.(queue := queued.queue.(draining := true)), script);
    }
    hide DrainLoop, Refused, TooLarge, Overflows, Counted, InOrder, Paced, HasListener;
  }

  /** Once the dispatch gate is closed no handler is called any more. */
  lemma {:induction false} NothingIsHandedOnceClosed(c: Channel, events: seq<Event>, script: Script)
    requires Inv(c) && !Dispatching(c)
    ensures |Run(c, events, script).log.handed| == |c.log.handed|
    decreases |events|
  {
    if events != [] {
      StepHandles(c, events[0], script);
      StepKeeps(c, events[0], script);
      hide Step, Inv, Disturbs, Dispatching;
      NothingIsHandedOnceClosed(Step(c, events[0], script), events[1..], script);
    }
  }

  /** From the call of `finish` to the close of the socket: fulfilled exactly by a timely normal close. */
  lemma FinishFollowsTheClose(c: Channel, events: seq<Event>, graceful: bool, script: Script)
    requires Inv(c) && c.ends.finishing.NotAsked? && !c.socket.ready.Closed?
    requires forall e | e in events :: !e.SocketClosed?
    ensures var asked := Step(c, FinishCalled, script);
      && Inv(asked) && !asked.socket.ready.Open?
      && Step(Run(asked, events, script), SocketClosed(graceful), script).ends.finishing
      == (if graceful && DeadlinePasses !in events then Confirmed else Unconfirmed)
  {
    StepKeeps(c, FinishCalled, script);
    FinishConfirmsExactly(Step(c, FinishCalled, script), events, graceful, script);
  }

  /** On a closed socket `finish` is fulfilled at once, and a settled promise never changes. */
  lemma {:induction false} SettledFinishStays(c: Channel, events: seq<Event>, script: Script)
    requires Inv(c) && c.socket.ready.Closed?
    ensures c.ends.finishing.NotAsked? ==> Step(c, FinishCalled, script).ends.finishing.Confirmed?
    ensures c.ends.finishing.Confirmed? || c.ends.finishing.Unconfirmed? ==>
      Run(c, events, script).ends.finishing == c.ends.finishing
    decreases |events|
  {
    if events != [] {
      var e := events[0];
      if e.HandlerSettles? && c.queue.inFlight.Some? && !c.ends.finishing.NotAsked? {
        var settled := Settle(c, e.ok);
        DrainLoopLeavesTheFinish(settled.(queue := settled.queue.(draining := true)), script);
      }
      StepKeeps(c, e, script);
      StepHandles(c, e, script);
      assert c.ends.finishing.Confirmed? || c.ends.finishing.Unconfirmed? ==>
        Step(c, e, script).ends.finishing == c.ends.finishing;
      hide Step, Inv, Disturbs, Dispatching;
      SettledFinishStays(Step(c, e, script), events[1..], script);
    }
  }
}
