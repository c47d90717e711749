/**
  The two coroutines of the HTTP listener and its flags against the history of a run: which stages a drain and
  a close have passed, which failures they report, and what moved the gate and the bindings.
 */
module CoroutineHistories {
  import opened Results
  import opened HttpListeners
  import opened TrafficHistories

  // ---------------------------------------------------------------- the drain

  /** How far a drain has come. Waiting for tasks, at 3 and at 5, is skipped when there are none. */
  function DrainStage(d: Drain): nat {
    match d
    case NotStarted => 0
    case Scheduled => 1
    case AwaitRequests(_, _) => 2
    case AwaitTasks(_, _) => 3
    case Confirming(_) => 4
    case AwaitLast(_, _) => 5
    case _ => 6
  }

  function StageOf(h: Listener, l: nat): nat {
    if l < |h.leases| then DrainStage(h.leases[l].drain) else 0
  }

  /** What one step of a run does to the drain of the current lease. */
  predicate InOrder(h: Listener, e: Event, l: nat) {
    var before, after := StageOf(h, l), StageOf(Step(h, e), l);
    && before <= after
    && (before < 2 ==> after <= before + 1)
    && (before < 4 <= after ==>
          after == 4 && h.tasks == {} && l < |h.leases| && h.requests <= OwnerSet(h.leases[l].owner))
    && (before == 4 < after ==> e.DrainContinues? && (AllClosed(h) || e.timedOut))
    && (before < 6 == after ==> h.tasks == {})
    && (before == 0 < after ==> e == DrainCalled(l) && Current(h, l))
    && (0 < before < after ==> e.DrainContinues? && e.lease == l)
  }

  /**
    A drain only advances and skips nothing but an empty wait: it confirms the close of the sockets after the
    requests and the tasks, leaves that only when all have closed or the deadline has passed, and ends with
    no task left.
   */
  lemma DrainAdvancesInOrder(h: Listener, e: Event, l: nat)
    requires Inv(h) && h.suspension == Some(l)
    ensures InOrder(h, e, l)
  {
    hide *;
    if e.DrainContinues? && e.lease == l {
      OwnTurnInOrder(h, l, e.clean, e.timedOut);
    } else {
      OthersInOrder(h, e, l);
    }
  }

  lemma OwnTurnInOrder(h: Listener, l: nat, clean: bool, timedOut: bool)
    requires Inv(h) && h.suspension == Some(l)
    ensures InOrder(h, DrainContinues(l, clean, timedOut), l)
  {
    assert DrainTurn(h, l, clean, timedOut).leases[l].drain == NextDrain(h, l, clean, timedOut).drain;
    hide DrainTurn, ServingInv, ClosingInv;
  }

  lemma OthersInOrder(h: Listener, e: Event, l: nat)
    requires Inv(h) && h.suspension == Some(l) && !(e.DrainContinues? && e.lease == l)
    ensures InOrder(h, e, l)
  {
    OthersLeaveTheDrain(h, e, l);
  }

  /** Nobody else moves a drain, and only its call starts it. */
  lemma OthersLeaveTheDrain(h: Listener, e: Event, l: nat)
    requires l < |h.leases| && !(e.DrainContinues? && e.lease == l)
    ensures StageOf(Step(h, e), l) == StageOf(h, l)
      || (e == DrainCalled(l) && Current(h, l) && StageOf(h, l) == 0 && StageOf(Step(h, e), l) == 1)
  {
    match e
    case DrainContinues(k, clean, timedOut) =>
      DrainTurnMovesOneLease(h, k, clean, timedOut);
      hide DrainTurn;
    case Peer(_) => hide DrainStage;
    case CloseContinues(_, _) => hide DrainStage, NextClosing;
    case _ => hide DrainTurn;
  }

  /**
    A failure that the drain of `l` collects in one turn: a cleanup call or a request handler has failed, a
    socket is open after the deadline, a WebSocket owner has failed, or the lease is not current at the end.
   */
  predicate DrainFault(h: Listener, l: nat, e: Event) {
    && e.DrainContinues? && e.lease == l
    && var before, after := StageOf(h, l), StageOf(Step(h, e), l);
       && before != after
       && (|| (before <= 2 && !e.clean)
           || (before == 4 && !AllClosed(h))
           || (after == 6 && (!e.clean || !Current(h, l))))
  }

  ghost predicate DrainFaulted(h: Listener, l: nat, events: seq<Event>) {
    exists i: nat :: i < |events| && DrainFault(Run(h, events[..i]), l, events[i])
  }

  /** The drain has collected a failure, or has ended with one. */
  predicate Doubtful(h: Listener, l: nat) {
    l < |h.leases| &&
    match h.leases[l].drain
    case AwaitRequests(_, faulty) => faulty
    case AwaitTasks(_, faulty) => faulty
    case Confirming(faulty) => faulty
    case AwaitLast(_, faulty) => faulty
    case Rejected => true
    case _ => false
  }

  lemma DoubtStep(h: Listener, l: nat, e: Event)
    ensures Doubtful(Step(h, e), l) <==> Doubtful(h, l) || DrainFault(h, l, e)
  {
    hide *;
    match e
    case DrainContinues(k, clean, timedOut) =>
      if k == l {
        DrainTurnDoubt(h, l, clean, timedOut);
      } else {
        OtherTurnsKeepDoubt(h, l, e);
      }
    case _ => OtherTurnsKeepDoubt(h, l, e);
  }

  lemma DrainTurnDoubt(h: Listener, l: nat, clean: bool, timedOut: bool)
    ensures var e := DrainContinues(l, clean, timedOut);
      Doubtful(Step(h, e), l) <==> Doubtful(h, l) || DrainFault(h, l, e)
  {
    if l < |h.leases| {
      assert DrainTurn(h, l, clean, timedOut).leases[l].drain == NextDrain(h, l, clean, timedOut).drain;
      MoveDoubt(h, l, clean, timedOut);
    }
    hide DrainTurn, NextDrain, Current, AllClosed;
  }

  lemma MoveDoubt(h: Listener, l: nat, clean: bool, timedOut: bool)
    requires l < |h.leases|
    ensures var d := NextDrain(h, l, clean, timedOut).drain;
      var before, after := StageOf(h, l), DrainStage(d);
      var lost := !clean || !Current(h, l);
      var fault := (before <= 2 && !clean) || (before == 4 && !AllClosed(h)) || (after == 6 && lost);
      Doubtful(WithLease(h, l, h.leases[l].(drain := d)), l) <==> Doubtful(h, l) || (before != after && fault)
  {
  }

  lemma OtherTurnsKeepDoubt(h: Listener, l: nat, e: Event)
    requires !(e.DrainContinues? && e.lease == l)
    ensures Doubtful(Step(h, e), l) == Doubtful(h, l) && !DrainFault(h, l, e)
  {
    match e
    case DrainContinues(k, clean, timedOut) =>
      DrainTurnMovesOneLease(h, k, clean, timedOut);
      hide DrainTurn;
    case Peer(_) => hide DrainTurn, DrainStage;
    case CloseCalled =>
    case CloseContinues(_, _) => hide DrainTurn, NextClosing, DrainStage;
    case _ => LeaseCallsKeepDoubt(h, l, e);
  }

  lemma LeaseCallsKeepDoubt(h: Listener, l: nat, e: Event)
    requires !e.DrainContinues? && !e.Peer? && !e.CloseCalled? && !e.CloseContinues?
    ensures Doubtful(Step(h, e), l) == Doubtful(h, l)
  {
    if l < |h.leases| {
      var before, after := h.leases[l], Step(h, e).leases[l];
      assert after.drain == before.drain || (before.drain.NotStarted? && after.drain.Scheduled?);
    }
  }

  lemma FaultedGrows(h: Listener, l: nat, init: seq<Event>, e: Event)
    ensures DrainFaulted(h, l, init + [e]) <==> DrainFaulted(h, l, init) || DrainFault(Run(h, init), l, e)
  {
    hide DrainFault, Run;
    var events, n := init + [e], |init|;
    assert forall j: nat | j < n :: events[..j] == init[..j] && events[j] == init[j];
    assert events[..n] == init && events[n] == e;
    if i: nat :| i < |init| && DrainFault(Run(h, init[..i]), l, init[i]) {
      assert DrainFault(Run(h, events[..i]), l, events[i]);
    }
    if DrainFault(Run(h, init), l, e) {
      assert DrainFault(Run(h, events[..n]), l, events[n]);
    }
  }

  /**
    A drain carries a failure exactly when one was collected on its way. So it ends rejected if and only if
    something failed, and fulfilled if and only if nothing did.
   */
  lemma {:induction false} DrainEndsRejectedExactlyForAFault(h: Listener, events: seq<Event>, l: nat)
    requires l < |h.leases| ==> h.leases[l].drain.NotStarted?
    ensures Doubtful(Run(h, events), l) <==> DrainFaulted(h, l, events)
    ensures StageOf(Run(h, events), l) == 6 ==>
      (Run(h, events).leases[l].drain.Rejected? <==> DrainFaulted(h, l, events))
    decreases |events|
  {
    if events != [] {
      var n := |events| - 1;
      var init, e := events[..n], events[n];
      assert events == init + [e];
      RunLast(h, init, e);
      DrainEndsRejectedExactlyForAFault(h, init, l);
      hide Run, Step;
      DoubtStep(Run(h, init), l, e);
      FaultedGrows(h, l, init, e);
    }
  }

  /**
    No drain waits for a success: once its requests and tasks have ended and its sockets have closed or the
    deadline has passed, every turn takes it further, whatever fails.
   */
  lemma DrainNeverWaitsForSuccess(h: Listener, l: nat, clean: bool, timedOut: bool)
    requires l < |h.leases| && h.requests <= OwnerSet(h.leases[l].owner) && h.tasks == {} && (timedOut || AllClosed(h))
    requires h.leases[l].drain.AwaitRequests? ==> h.leases[l].drain.waiting !! h.requests
    requires 0 < StageOf(h, l) < 6
    ensures StageOf(h, l) < StageOf(DrainTurn(h, l, clean, timedOut), l)
  {
    assert DrainTurn(h, l, clean, timedOut).leases[l].drain == NextDrain(h, l, clean, timedOut).drain;
    hide DrainTurn;
  }

  // ---------------------------------------------------------------- the close

  /** How far the close has come. Waiting for tasks, at 3, 5 and 8, is skipped when there are none. */
  function CloseStage(c: Closing): nat {
    match c
    case NotClosing => 0
    case CloseScheduled => 1
    case CloseRequests(_, _) => 2
    case CloseTasks(loop, _, _) => if loop == 0 then 3 else if loop == 1 then 5 else 8
    case CloseServer(_) => 4
    case CloseWebSocketServer(_) => 6
    case CloseConfirming(_) => 7
    case Closed(_) => 9
  }

  /** The stages that no close skips. */
  predicate Mandatory(stage: nat) {
    stage in {1, 2, 4, 6, 7}
  }

  /**
    The close only advances and skips nothing but an empty wait: it waits for the servers when the requests and
    the tasks have ended, for the HTTP server first, and the end comes with no task left.
   */
  lemma CloseAdvancesInOrder(h: Listener, e: Event)
    requires Inv(h)
    ensures var before, after := CloseStage(h.closing), CloseStage(Step(h, e).closing);
      && before <= after
      && (forall stage | before < stage < after :: !Mandatory(stage))
      && (before < 4 <= after ==> h.tasks == {} && h.requests == {})
      && (before < 6 <= after ==> h.tasks == {})
      && (before == 7 < after ==> AllClosed(h) || e.timedOut)
      && (before < 9 == after ==> h.tasks == {})
      && (before == 0 < after <==> e.CloseCalled? && before == 0)
      && (0 < before < after ==> e.CloseContinues?)
  {
    match e
    case DrainContinues(l, clean, timedOut) =>
      DrainTurnMovesOneLease(h, l, clean, timedOut);
      hide Step, DrainTurn;
    case _ =>
  }

  /** Every stage of the close that a run has left behind was the stage of some moment of it. */
  lemma {:induction false} CloseMissesNoStage(h: Listener, events: seq<Event>, stage: nat) returns (i: nat)
    requires Inv(h) && h.closing.NotClosing? && Mandatory(stage) && stage <= CloseStage(Run(h, events).closing)
    ensures i <= |events| && CloseStage(Run(h, events[..i]).closing) == stage
    decreases |events|
  {
    assert events[..|events|] == events;
    if CloseStage(Run(h, events).closing) == stage {
      return |events|;
    }
    assert events != [];
    var n := |events| - 1;
    var init, e := events[..n], events[n];
    assert events == init + [e];
    RunLast(h, init, e);
    RunKeeps(h, init);
    CloseAdvancesInOrder(Run(h, init), e);
    hide Run, Step, Inv, Mandatory;
    i := CloseMissesNoStage(h, init, stage);
    assert events[..i] == init[..i];
  }

  /** A failure that the close collects in one turn. */
  predicate CloseFault(h: Listener, e: Event) {
    && e.CloseContinues?
    && var before, after := CloseStage(h.closing), CloseStage(Step(h, e).closing);
       && before != after
       && (|| (before in {1, 2, 4, 6} && !e.clean)
           || (before == 7 && !AllClosed(h))
           || (after == 9 && !e.clean))
  }

  ghost predicate CloseFaulted(h: Listener, events: seq<Event>) {
    exists i: nat :: i < |events| && CloseFault(Run(h, events[..i]), events[i])
  }

  predicate CloseDoubtful(h: Listener) {
    match h.closing
    case NotClosing => false
    case CloseScheduled => false
    case Closed(ok) => !ok
    case CloseRequests(_, faulty) => faulty
    case CloseTasks(_, _, faulty) => faulty
    case CloseServer(faulty) => faulty
    case CloseWebSocketServer(faulty) => faulty
    case CloseConfirming(faulty) => faulty
  }

  lemma CloseDoubtStep(h: Listener, e: Event)
    requires Inv(h)
    ensures CloseDoubtful(Step(h, e)) <==> CloseDoubtful(h) || CloseFault(h, e)
  {
    match e
    case DrainContinues(l, clean, timedOut) =>
      DrainTurnMovesOneLease(h, l, clean, timedOut);
      hide DrainTurn;
    case _ =>
  }

  lemma CloseFaultedGrows(h: Listener, init: seq<Event>, e: Event)
    ensures CloseFaulted(h, init + [e]) <==> CloseFaulted(h, init) || CloseFault(Run(h, init), e)
  {
    hide CloseFault, Run;
    var events, n := init + [e], |init|;
    assert forall j: nat | j < n :: events[..j] == init[..j] && events[j] == init[j];
    assert events[..n] == init && events[n] == e;
    if i: nat :| i < |init| && CloseFault(Run(h, init[..i]), init[i]) {
      assert CloseFault(Run(h, events[..i]), events[i]);
    }
    if CloseFault(Run(h, init), e) {
      assert CloseFault(Run(h, events[..n]), events[n]);
    }
  }

  /** A close that has come to its end has failed if and only if something failed on its way. */
  lemma {:induction false} CloseFailsExactlyForAFault(h: Listener, events: seq<Event>)
    requires Inv(h) && h.closing.NotClosing?
    ensures CloseDoubtful(Run(h, events)) <==> CloseFaulted(h, events)
    ensures Run(h, events).closing.Closed? ==> Run(h, events).closing == Closed(!CloseFaulted(h, events))
    decreases |events|
  {
    if events != [] {
      var n := |events| - 1;
      var init, e := events[..n], events[n];
      assert events == init + [e];
      RunLast(h, init, e);
      RunKeeps(h, init);
      CloseFailsExactlyForAFault(h, init);
      hide Run, Step, Inv;
      CloseDoubtStep(Run(h, init), e);
      CloseFaultedGrows(h, init, e);
    }
  }

  /** Nor does the close. */
  lemma CloseNeverWaitsForSuccess(h: Listener, clean: bool, timedOut: bool)
    requires h.requests == {} && h.tasks == {} && (timedOut || AllClosed(h)) && 0 < CloseStage(h.closing) < 9
    requires h.closing.CloseTasks? ==> h.closing.loop <= 2
    ensures CloseStage(h.closing) < CloseStage(CloseTurn(h, clean, timedOut).closing)
  {
  }

  // ---------------------------------------------------------------- the gate and the bindings

  /**
    A suspension is granted exactly while the listener accepts, and for a named owner only if its request came
    in through the open gate, has not settled since and can still be answered.
   */
  lemma SuspensionGrantedExactlyWhen(h: Listener, events: seq<Event>, owner: Option<nat>, usable: bool)
    requires Inv(h) && h.requests == {}
    ensures var t := Run(h, events);
      var after := Step(t, SuspendCalled(owner, usable));
      var granted := t.accepting && (owner.Some? ==>
        usable && exists i: nat :: OpenSince(Requests, h, events, i, owner.value));
      && (granted ==>
            && after.suspension == Some(|t.leases|) && !after.accepting && after.generation == t.generation + 1
            && after.leases == t.leases + [Lease(owner, NotStarted, false, false, false, false)])
      && (!granted ==> after == t)
  {
    RunKeeps(h, events);
    if owner.Some? {
      UnderWayIsWhatBeganAndHasNotEnded(Requests, h, events, owner.value);
    }
    hide Run;
  }

  /** Nothing but a suspension, a resume and a close moves the gate. */
  lemma GateMoves(h: Listener, e: Event)
    ensures h.accepting != Step(h, e).accepting || h.generation != Step(h, e).generation ==>
      e.SuspendCalled? || e.ResumeCalled? || e.CloseCalled?
    ensures e.ResumeCalled? ==> Step(h, e).generation == h.generation
    ensures h.closing.NotClosing? && e.CloseCalled? ==>
      !Step(h, e).accepting && Step(h, e).generation == h.generation + 1
  {
    match e
    case DrainContinues(l, clean, timedOut) =>
      DrainTurnMovesOneLease(h, l, clean, timedOut);
      hide DrainTurn;
    case _ =>
  }

  /** Nothing but a replacement moves the bindings, to the prepared ones, and each lease does so at most once. */
  lemma BindingsMove(h: Listener, e: Event)
    requires Inv(h)
    ensures var after := Step(h, e);
      && (h.bindings != after.bindings ==>
            && e.ReplaceContinues? && e.prepared == Some(after.bindings) && h.suspension == Some(e.lease)
            && !h.leases[e.lease].replaced && after.leases[e.lease].replaced)
      && (forall l: nat | l < |h.leases| && h.leases[l].replaced ::
            l < |after.leases| && after.leases[l].replaced)
  {
    if e.ReplaceContinues? {
      assert e.lease < |h.leases| ==> Ordered(h.leases[e.lease]);
      hide DrainTurn, CloseTurn, TrafficTurn, ServingInv, ClosingInv, DrainInv;
    } else {
      OthersLeaveTheBindings(h, e);
      hide Inv, Step;
    }
  }

  lemma OthersLeaveTheBindings(h: Listener, e: Event)
    requires !e.ReplaceContinues?
    ensures Step(h, e).bindings == h.bindings && |h.leases| <= |Step(h, e).leases|
    ensures forall l: nat | l < |h.leases| :: Step(h, e).leases[l].replaced == h.leases[l].replaced
  {
    match e
    case DrainContinues(l, clean, timedOut) =>
      DrainTurnMovesOneLease(h, l, clean, timedOut);
      if l < |h.leases| {
        assert DrainTurn(h, l, clean, timedOut).leases[l].replaced == h.leases[l].replaced;
      }
      hide DrainTurn;
    case _ => hide DrainTurn;
  }

  /**
    Unless somebody suspends or closes it, the listener goes on accepting under the same bindings; and it is
    closing from the first close on and not before.
   */
  lemma {:induction false} NothingElseStopsTheListener(h: Listener, events: seq<Event>)
    requires Inv(h) && h.accepting
    ensures (forall e | e in events :: !e.SuspendCalled? && !e.CloseCalled?) ==>
      var t := Run(h, events); t.accepting && t.generation == h.generation && t.bindings == h.bindings
    ensures Run(h, events).closing.NotClosing? <==> CloseCalled !in events
    decreases |events|
  {
    if events != [] {
      var n := |events| - 1;
      var init, e := events[..n], events[n];
      assert events == init + [e];
      RunLast(h, init, e);
      RunKeeps(h, init);
      NothingElseStopsTheListener(h, init);
      var before := Run(h, init);
      hide Run;
      GateMoves(before, e);
      BindingsMove(before, e);
      CloseAdvancesInOrder(before, e);
    }
  }

  /**
    The compilation of new bindings counts once: either they land now and the lease can resume, or the lease
    never can, whatever is compiled later.
   */
  lemma CompilationSettlesOnce(h: Listener, l: nat, prepared: Option<nat>, later: seq<Event>)
    requires Inv(h) && l < |h.leases| && h.leases[l].compiling
    ensures var after := Step(h, ReplaceContinues(l, prepared));
      if prepared.Some? && h.closing.NotClosing?
      then after.bindings == prepared.value && after.leases[l].replaced && CanResume(after, l)
      else after.bindings == h.bindings && !Run(after, later).accepting && Run(after, later).bindings == h.bindings
  {
    assert Ordered(h.leases[l]) && h.suspension == Some(l);
    var e := ReplaceContinues(l, prepared);
    StepKeeps(h, e);
    if !(prepared.Some? && h.closing.NotClosing?) {
      FailedReplaceIsFinal(Step(h, e), l, later);
    }
  }

  /** The current lease, once drained, reopens the listener under whatever bindings it prepares, at the first try. */
  lemma DrainedLeaseReopens(h: Listener, l: nat, prepared: nat)
    requires Inv(h) && Current(h, l) && h.leases[l].drained && !h.leases[l].replacing
    ensures var t := Step(Step(Step(h, ReplaceCalled(l)), ReplaceContinues(l, Some(prepared))), ResumeCalled(l));
      && t.accepting && t.bindings == prepared && t.generation == h.generation && t.suspension.None?
      && t.requests == h.requests && t.tasks == {} && t.sockets == map[]
  {
    StepKeeps(h, ReplaceCalled(l));
    CompilationSettlesOnce(Step(h, ReplaceCalled(l)), l, Some(prepared), []);
    assert DrainInv(h, h.leases[l]) && Ordered(h.leases[l]);
  }
}
