/**
  Shutting down cannot get stuck: from every reachable state in which closing has begun, some continuation
  reaches the end. The restore, the admitted calls, the retirements and the drains of the listener never
  wait for each other in a circle, and none of them waits for the request that asked for the restore.
 */
module ShutdownProgress {
  import opened Results
  import H = HttpListeners
  import opened Lifecycles
  import opened TrafficSettling

  // ---------------------------------------------------------------- what else every run keeps

  /** No drain waits for the request of its own owner. */
  ghost predicate LeasesSound(h: H.Listener) {
    forall l | 0 <= l < |h.leases| && h.leases[l].drain.AwaitRequests? ::
      h.leases[l].drain.waiting !! H.OwnerSet(h.leases[l].owner)
  }

  /** Leases are never lost, and a drain that has started never has not started again. */
  ghost predicate LeasesOnward(before: H.Listener, after: H.Listener) {
    && |before.leases| <= |after.leases|
    && (forall l | 0 <= l < |before.leases| ::
          && after.leases[l].owner == before.leases[l].owner
          && (after.leases[l].drain.NotStarted? ==> before.leases[l].drain.NotStarted?))
  }

  lemma LeasesMove(h: H.Listener, e: H.Event)
    requires LeasesSound(h)
    ensures LeasesSound(H.Step(h, e)) && LeasesOnward(h, H.Step(h, e))
  {
    if e.DrainContinues? {
      DrainTurnMoves(h, e.lease, e.clean, e.timedOut);
    } else if e.Peer? || e.CloseCalled? || e.CloseContinues? {
      LeasesStay(h, e);
    } else {
      LeaseCallMoves(h, e);
    }
    hide H.DrainTurn, H.TrafficTurn, H.CloseTurn, H.Suspend, H.DrainCall, H.BeginReplace, H.FinishReplace, H.Resume;
  }

  lemma LeasesStay(h: H.Listener, e: H.Event)
    requires e.Peer? || e.CloseCalled? || e.CloseContinues?
    ensures H.Step(h, e).leases == h.leases
  {
  }

  lemma LeaseCallMoves(h: H.Listener, e: H.Event)
    requires LeasesSound(h)
    requires !e.DrainContinues? && !e.Peer? && !e.CloseCalled? && !e.CloseContinues?
    ensures LeasesSound(H.Step(h, e)) && LeasesOnward(h, H.Step(h, e))
  {
    hide H.DrainTurn, H.TrafficTurn, H.CloseTurn;
  }

  lemma DrainTurnMoves(h: H.Listener, l: nat, clean: bool, timedOut: bool)
    requires LeasesSound(h)
    ensures LeasesSound(H.DrainTurn(h, l, clean, timedOut)) && LeasesOnward(h, H.DrainTurn(h, l, clean, timedOut))
  {
    if l < |h.leases| {
      var after := H.DrainTurn(h, l, clean, timedOut);
      assert forall k | 0 <= k < |h.leases| && k != l :: after.leases[k] == h.leases[k];
    }
  }

  /** Every retirement that waits for a drain has started it. */
  ghost predicate DrainsStarted(s: App) {
    forall m | m in s.retirements && s.retirements[m].DrainingTransport? ::
      s.retirements[m].lease < |s.http.leases| && !s.http.leases[s.retirements[m].lease].drain.NotStarted?
  }

  ghost predicate Driven(s: App) {
    LeasesSound(s.http) && DrainsStarted(s)
  }

  /** The listener events that one turn of the application amounts to. */
  function ListenerEvents(s: App, e: Event): seq<H.Event> {
    match e
    case RestoreContinues(outcome, usable, prepared) =>
      (match s.restore
       case AwaitListener(owner) => [H.SuspendCalled(Some(owner), usable)]
       case Draining(lease, _, asked, _, _) => if asked then [] else [H.DrainCalled(lease)]
       case Initializing(lease, _) => if outcome.Thrown? then [] else [H.ReplaceCalled(lease)]
       case Replacing(lease, _) => [H.ReplaceContinues(lease, prepared)]
       case Marking(lease, _) =>
         if outcome.Thrown? || !s.shutdown.Running? || s.restoreFailed then [] else [H.ResumeCalled(lease)]
       case _ => [])
    case RetirementContinues(m, ok) =>
      if m in s.retirements && s.retirements[m].Suspending? && H.CanSuspend(s.http, None, true)
      then [H.SuspendCalled(None, true), H.DrainCalled(|s.http.leases|)]
      else []
    case ShutdownContinues =>
      if s.shutdown.ClosingResources? && !s.shutdown.asked then [H.CloseCalled] else []
    case Peer(t) => [H.Peer(t)]
    case TransportDrains(l, clean, timedOut) => [H.DrainContinues(l, clean, timedOut)]
    case TransportCloses(clean, timedOut) => [H.CloseContinues(clean, timedOut)]
    case _ => []
  }

  function Moved(h: H.Listener, es: seq<H.Event>): H.Listener
    requires |es| <= 2
  {
    if |es| == 0 then h else if |es| == 1 then H.Step(h, es[0]) else H.Step(H.Step(h, es[0]), es[1])
  }

  lemma ListenerMoves(s: App, e: Event)
    ensures |ListenerEvents(s, e)| <= 2
    ensures Step(s, e).http == Moved(s.http, ListenerEvents(s, e))
  {
    if e.RestoreContinues? {
      RestoreMovesTheListener(s, e);
    } else {
      hide RestoreTurn, H.DrainTurn, H.TrafficTurn, H.CloseTurn;
    }
    hide RestoreTurn, RetirementTurn, ShutdownTurn;
  }

  lemma RestoreMovesTheListener(s: App, e: Event)
    requires e.RestoreContinues?
    ensures |ListenerEvents(s, e)| <= 2
    ensures Step(s, e).http == Moved(s.http, ListenerEvents(s, e))
  {
    hide H.DrainTurn, H.TrafficTurn, H.CloseTurn, DrainsSettled;
  }

  lemma DrivenStep(s: App, e: Event)
    requires Driven(s)
    ensures Driven(Step(s, e))
  {
    ListenerMoves(s, e);
    var es, after := ListenerEvents(s, e), Step(s, e);
    if |es| >= 1 {
      LeasesMove(s.http, es[0]);
    }
    if |es| == 2 {
      LeasesMove(H.Step(s.http, es[0]), es[1]);
    }
    assert LeasesSound(after.http) && LeasesOnward(s.http, after.http);
    RetirementsStart(s, e);
  }

  lemma RetirementsStart(s: App, e: Event)
    requires Driven(s) && LeasesOnward(s.http, Step(s, e).http)
    ensures DrainsStarted(Step(s, e))
  {
    if e.RetirementContinues? {
      RetirementStarts(s, e.generation, e.ok);
    } else {
      RetirementsWait(s, e);
      hide Step, LeasesSound;
    }
  }

  lemma RetirementStarts(s: App, m: nat, ok: bool)
    requires Driven(s) && LeasesOnward(s.http, RetirementTurn(s, m, ok).http)
    ensures DrainsStarted(RetirementTurn(s, m, ok))
  {
    hide H.DrainTurn, H.CloseTurn, H.TrafficTurn, LeasesSound;
  }

  lemma RetirementsWait(s: App, e: Event)
    requires !e.RetirementContinues?
    ensures forall m | m in Step(s, e).retirements ::
      Step(s, e).retirements[m].ClosingModules? || (m in s.retirements && Step(s, e).retirements[m] == s.retirements[m])
  {
    hide H.DrainTurn, H.CloseTurn, H.TrafficTurn;
  }

  // ---------------------------------------------------------------- the way there

  /** Everything the models promise of a reachable application in which closing has begun. */
  ghost predicate Closing(s: App) {
    Inv(s) && Driven(s) && !s.shutdown.Running?
  }

  lemma Onward(s: App, e: Event)
    requires Closing(s)
    ensures Closing(Step(s, e))
  {
    StepKeeps(s, e);
    DrivenStep(s, e);
    hide *;
    StaysClosing(s, e);
  }

  lemma StaysClosing(s: App, e: Event)
    requires !s.shutdown.Running?
    ensures !Step(s, e).shutdown.Running?
  {
    hide RestoreTurn, RetirementTurn, H.TrafficTurn, H.DrainTurn, H.CloseTurn;
    RestoreLeavesTheShutdown(s, e);
  }

  lemma RestoreLeavesTheShutdown(s: App, e: Event)
    ensures e.RestoreContinues? || e.RetirementContinues? ==> Step(s, e).shutdown == s.shutdown
  {
    hide H.TrafficTurn, H.DrainTurn, H.CloseTurn;
  }

  // ---------------------------------------------------------------- the traffic settles

  lemma SettleWhileClosing(s: App, owner: Option<nat>) returns (events: seq<Event>)
    requires Closing(s)
    ensures forall e | e in events :: Settling(e, owner)
    ensures var t := Run(s, events); Closing(t) && Still(t, owner) && SameButTraffic(s, t)
  {
    events := SettleTraffic(s, owner);
    EveryRunIsDriven(s, events);
    hide Inv, Driven, Still, Run;
  }

  // ---------------------------------------------------------------- the restore ends

  /** Whose request asked for the restore under way. */
  function OwnerOf(s: App): Option<nat> {
    match s.restore
    case Queued(owner) => Some(owner)
    case AwaitListener(owner) => Some(owner)
    case Draining(lease, _, _, _, _) => LeaseOwner(s, lease)
    case Applying(lease, _) => LeaseOwner(s, lease)
    case Installing(lease, _) => LeaseOwner(s, lease)
    case Initializing(lease, _) => LeaseOwner(s, lease)
    case Replacing(lease, _) => LeaseOwner(s, lease)
    case Marking(lease, _) => LeaseOwner(s, lease)
    case _ => None
  }

  function LeaseOwner(s: App, lease: nat): Option<nat> {
    if lease < |s.http.leases| then s.http.leases[lease].owner else None
  }

  /** How many turns a drain has left when nothing is under way that it waits for. */
  function DrainRank(d: H.Drain): nat {
    match d
    case NotStarted => 6
    case Scheduled => 5
    case AwaitRequests(_, _) => 4
    case AwaitTasks(_, _) => 4
    case Confirming(_) => 3
    case AwaitLast(_, _) => 3
    case _ => 0
  }

  lemma DrainAdvances(h: H.Listener, l: nat)
    requires LeasesSound(h) && l < |h.leases| && H.Quiet(h, h.leases[l].owner)
    requires !h.leases[l].drain.NotStarted? && DrainRank(h.leases[l].drain) > 0
    ensures var after := H.DrainTurn(h, l, true, true);
      && after == h.(leases := after.leases, sockets := after.sockets) && |after.leases| == |h.leases|
      && DrainRank(after.leases[l].drain) < DrainRank(h.leases[l].drain)
      && !after.leases[l].drain.NotStarted? && after.leases[l].owner == h.leases[l].owner
      && H.Quiet(after, h.leases[l].owner)
  {
    assert h.leases[l].drain.AwaitRequests? ==> h.leases[l].drain.waiting !! h.requests;
  }

  /** How many turns the restore has left at most. */
  function RestoreRank(s: App): nat {
    match s.restore
    case Queued(_) => 30
    case AwaitListener(_) => 29
    case Draining(lease, _, _, calls, retired) =>
      10 + (if calls.None? then 1 else 0) + (if retired.None? then 1 else 0)
      + (if lease < |s.http.leases| then DrainRank(s.http.leases[lease].drain) else 0)
    case Applying(_, _) => 9
    case Installing(_, _) => 8
    case Initializing(_, _) => 7
    case Replacing(_, _) => 6
    case Marking(_, _) => 5
    case CleaningUp(_) => 3
    case Settled(_) => 2
    case Idle => 0
  }

  /** What ends the restore soonest: the drain goes on while it is all that is awaited, later steps fail. */
  function NextOfRestore(s: App): Event {
    if s.restore.Draining? && s.restore.asked && s.restore.calls.Some? && s.restore.retired.Some? && !DrainsSettled(s)
    then TransportDrains(s.restore.lease, true, true)
    else if s.restore.Settled? then RestoreSettles
    else RestoreContinues(Thrown, true, None)
  }

  predicate OwnedBy(s: App, owner: Option<nat>) {
    OwnerOf(s) == owner || s.restore.CleaningUp? || s.restore.Settled? || s.restore.Idle?
  }

  ghost predicate Ending(s: App, owner: Option<nat>) {
    Closing(s) && Still(s, owner) && OwnedBy(s, owner)
  }

  /** The restore is one turn nearer its end, and still nothing else is under way. */
  ghost predicate Nearer(s: App, t: App, owner: Option<nat>) {
    Still(t, owner) && OwnedBy(t, owner) && RestoreRank(t) < RestoreRank(s) && t.shutdown == s.shutdown
  }

  lemma DrainNearer(s: App, owner: Option<nat>)
    requires Ending(s, owner) && NextOfRestore(s).TransportDrains?
    ensures Nearer(s, Step(s, NextOfRestore(s)), owner)
  {
    var lease := s.restore.lease;
    assert H.Current(s.http, lease) && !s.http.leases[lease].drain.NotStarted?;
    DrainAdvances(s.http, lease);
    hide H.Inv, H.DrainTurn, H.Quiet, ShutdownInv, RetirementInv, Driven;
  }

  lemma AskingNearer(s: App, owner: Option<nat>)
    requires Ending(s, owner) && s.restore.Draining? && !s.restore.asked
    ensures Nearer(s, Step(s, NextOfRestore(s)), owner)
  {
    assert H.Current(s.http, s.restore.lease) && s.http.leases[s.restore.lease].drain.NotStarted?;
    hide H.Inv, H.DrainTurn, H.TrafficTurn, ShutdownInv, RetirementInv, RestoreInv, Driven, H.Current;
  }

  lemma DrainingNearer(s: App, owner: Option<nat>)
    requires Ending(s, owner) && s.restore.Draining? && s.restore.asked && !NextOfRestore(s).TransportDrains?
    ensures Nearer(s, Step(s, NextOfRestore(s)), owner)
  {
    assert H.Current(s.http, s.restore.lease);
    hide H.Inv, H.DrainTurn, H.TrafficTurn, ShutdownInv, RetirementInv, RestoreInv, Driven, H.DrainCall, H.Quiet;
  }

  lemma WaitingNearer(s: App, owner: Option<nat>)
    requires Ending(s, owner) && (s.restore.Queued? || s.restore.AwaitListener?)
    ensures Nearer(s, Step(s, NextOfRestore(s)), owner)
  {
    hide H.Inv, H.DrainTurn, H.TrafficTurn, ShutdownInv, RetirementInv, Driven;
  }

  lemma RebuildingNearer(s: App, owner: Option<nat>)
    requires Ending(s, owner) && Restoring(s)
    requires !s.restore.Queued? && !s.restore.AwaitListener? && !s.restore.Draining?
    ensures Nearer(s, Step(s, NextOfRestore(s)), owner)
  {
    hide H.Inv, H.DrainTurn, H.TrafficTurn, ShutdownInv, RetirementInv, Driven;
  }

  lemma RestoreAdvances(s: App, owner: Option<nat>)
    requires Ending(s, owner) && Restoring(s)
    ensures Ending(Step(s, NextOfRestore(s)), owner) && Nearer(s, Step(s, NextOfRestore(s)), owner)
  {
    Onward(s, NextOfRestore(s));
    if NextOfRestore(s).TransportDrains? {
      DrainNearer(s, owner);
    } else if s.restore.Draining? && !s.restore.asked {
      AskingNearer(s, owner);
    } else if s.restore.Draining? {
      DrainingNearer(s, owner);
    } else if s.restore.Queued? || s.restore.AwaitListener? {
      WaitingNearer(s, owner);
    } else {
      RebuildingNearer(s, owner);
    }
    hide Closing, Still, OwnedBy, Step, NextOfRestore, RestoreRank;
  }

  /** The restore ends although the request that asked for it has not settled, nor anything else happens. */
  lemma {:induction false} EndRestore(s: App, owner: Option<nat>) returns (events: seq<Event>)
    requires Ending(s, owner)
    ensures forall e | e in events :: !e.Peer?
    ensures Ending(Run(s, events), owner) && Run(s, events).restore.Idle?
    decreases RestoreRank(s)
  {
    if s.restore.Idle? {
      return [];
    }
    var e := NextOfRestore(s);
    RestoreAdvances(s, owner);
    hide Ending, Step, RestoreRank;
    var rest := EndRestore(Step(s, e), owner);
    RunFirst(s, e, rest);
    events := [e] + rest;
  }

  // ---------------------------------------------------------------- the retirements end

  /** The restore is over and nothing is under way any more. */
  ghost predicate Resolving(s: App) {
    Closing(s) && Still(s, None) && s.restore.Idle?
  }

  /** How many turns a retirement has left at most. */
  function RetirementRank(s: App, m: nat): nat {
    if m !in s.retirements then 0
    else match s.retirements[m]
      case ClosingModules => 9
      case Suspending => 8
      case DrainingTransport(lease) =>
        1 + if lease < |s.http.leases| then DrainRank(s.http.leases[lease].drain) else 0
  }

  function NextOfRetirement(s: App, m: nat): Event
    requires m in s.retirements
  {
    match s.retirements[m]
    case DrainingTransport(lease) =>
      if lease < |s.http.leases| && DrainRank(s.http.leases[lease].drain) > 0
      then TransportDrains(lease, true, true)
      else RetirementContinues(m, true)
    case _ => RetirementContinues(m, true)
  }

  lemma RetirementAdvances(s: App, m: nat)
    requires Resolving(s) && m in s.retirements
    ensures var t := Step(s, NextOfRetirement(s, m));
      && Resolving(t) && t.shutdown == s.shutdown && RetirementRank(t, m) < RetirementRank(s, m)
      && (t.retirements.Keys == s.retirements.Keys || t.retirements.Keys == s.retirements.Keys - {m})
  {
    Onward(s, NextOfRetirement(s, m));
    if NextOfRetirement(s, m).TransportDrains? {
      RetirementDrains(s, m);
    } else {
      RetirementTurns(s, m);
    }
    hide Closing, Step, Still, RetirementRank, NextOfRetirement;
  }

  lemma RetirementDrains(s: App, m: nat)
    requires Resolving(s) && m in s.retirements && NextOfRetirement(s, m).TransportDrains?
    ensures var t := Step(s, NextOfRetirement(s, m));
      && Still(t, None) && t.restore.Idle? && t.shutdown == s.shutdown && RetirementRank(t, m) < RetirementRank(s, m)
      && t.retirements == s.retirements
  {
    var lease := s.retirements[m].lease;
    assert H.Quiet(s.http, s.http.leases[lease].owner);
    DrainAdvances(s.http, lease);
    hide Inv, H.DrainTurn, LeasesSound;
  }

  lemma RetirementTurns(s: App, m: nat)
    requires Resolving(s) && m in s.retirements && NextOfRetirement(s, m).RetirementContinues?
    ensures var t := Step(s, NextOfRetirement(s, m));
      && Still(t, None) && t.restore.Idle? && t.shutdown == s.shutdown && RetirementRank(t, m) < RetirementRank(s, m)
      && (t.retirements.Keys == s.retirements.Keys || t.retirements.Keys == s.retirements.Keys - {m})
  {
    hide Inv, H.DrainTurn, H.TrafficTurn, H.CloseTurn, RestoreTurn, ShutdownTurn, LeasesSound;
  }

  lemma {:induction false} EndRetirements(s: App) returns (events: seq<Event>)
    requires Resolving(s)
    ensures var t := Run(s, events); Resolving(t) && t.retirements == map[] && t.shutdown == s.shutdown
    decreases |s.retirements.Keys|, if s.retirements == map[] then 0 else 1, 0
  {
    if s.retirements == map[] {
      return [];
    }
    assert s.retirements.Keys != {};
    var m :| m in s.retirements.Keys;
    events := EndRetirement(s, m);
  }

  lemma {:induction false} EndRetirement(s: App, m: nat) returns (events: seq<Event>)
    requires Resolving(s) && m in s.retirements
    ensures var t := Run(s, events); Resolving(t) && t.retirements == map[] && t.shutdown == s.shutdown
    decreases |s.retirements.Keys|, 0, RetirementRank(s, m)
  {
    var e := NextOfRetirement(s, m);
    RetirementAdvances(s, m);
    var t := Step(s, e);
    hide Resolving, Step, RetirementRank, NextOfRetirement;
    var rest: seq<Event>;
    if m in t.retirements {
      rest := EndRetirement(t, m);
    } else {
      assert |t.retirements.Keys| < |s.retirements.Keys|;
      rest := EndRetirements(t);
    }
    RunFirst(s, e, rest);
    events := [e] + rest;
  }

  // ---------------------------------------------------------------- the shutdown ends

  function CloseRank(c: H.Closing): nat {
    match c
    case NotClosing => 9
    case CloseScheduled => 8
    case CloseRequests(_, _) => 7
    case CloseTasks(loop, _, _) => if loop == 0 then 7 else if loop == 1 then 6 else 4
    case CloseServer(_) => 6
    case CloseWebSocketServer(_) => 5
    case CloseConfirming(_) => 4
    case Closed(_) => 0
  }

  /** How many turns the shutdown has left at most. */
  function ShutdownRank(s: App): nat {
    match s.shutdown
    case Running => 50
    case Requested => 40
    case AwaitRestore => 39
    case AwaitCalls(_) => 38
    case AwaitRetirements(_) => 37
    case ClosingRetired => 36
    case ClosingResources(asked, modulesClosed) =>
      if !asked then 35 else if !modulesClosed then 20 + CloseRank(s.http.closing) else 10 + CloseRank(s.http.closing)
    case ClosingDatabase => 2
    case Down => 0
  }

  function NextOfShutdown(s: App): Event {
    if s.shutdown.ClosingResources? && s.shutdown.asked && s.shutdown.modulesClosed && !s.http.closing.Closed?
    then TransportCloses(true, true)
    else ShutdownContinues
  }

  lemma CloseAdvances(h: H.Listener)
    requires H.Inv(h) && H.Quiet(h, None) && !h.closing.NotClosing? && !h.closing.Closed?
    ensures var after := H.CloseTurn(h, true, true);
      after == h.(closing := after.closing) && CloseRank(after.closing) < CloseRank(h.closing)
  {
  }

  lemma ShutdownAdvances(s: App)
    requires Resolving(s) && s.retirements == map[] && !s.shutdown.Down?
    ensures var t := Step(s, NextOfShutdown(s));
      Resolving(t) && t.retirements == map[] && ShutdownRank(t) < ShutdownRank(s)
  {
    Onward(s, NextOfShutdown(s));
    if NextOfShutdown(s).TransportCloses? {
      CloseAdvances(s.http);
      hide Driven, H.Inv, H.CloseTurn;
    } else {
      hide Driven, H.Inv, RestoreTurn, RetirementTurn, H.TrafficTurn, H.DrainTurn, H.CloseTurn;
    }
  }

  lemma {:induction false} EndShutdown(s: App) returns (events: seq<Event>)
    requires Resolving(s) && s.retirements == map[]
    ensures Run(s, events).shutdown.Down?
    decreases ShutdownRank(s)
  {
    if s.shutdown.Down? {
      return [];
    }
    var e := NextOfShutdown(s);
    ShutdownAdvances(s);
    hide Resolving, Step, ShutdownRank, NextOfShutdown;
    var rest := EndShutdown(Step(s, e));
    RunFirst(s, e, rest);
    events := [e] + rest;
  }

  // ---------------------------------------------------------------- the theorem

  lemma {:induction false} EveryRunIsDriven(s: App, events: seq<Event>)
    requires Inv(s) && Driven(s)
    ensures Inv(Run(s, events)) && Driven(Run(s, events))
    decreases |events|
  {
    if events != [] {
      StepKeeps(s, events[0]);
      DrivenStep(s, events[0]);
      EveryRunIsDriven(Step(s, events[0]), events[1..]);
    }
  }

  /**
    From every reachable state with closing begun, some continuation ends the restore although the request
    that asked for it has not settled, and a further one ends the shutdown.
   */
  lemma ShutdownCanFinish(events: seq<Event>) returns (first: seq<Event>, second: seq<Event>)
    requires !Run(STARTED, events).shutdown.Running?
    ensures var s := Run(STARTED, events);
      && (OwnerOf(s).Some? ==> Peer(H.RequestSettles(OwnerOf(s).value)) !in first)
      && Run(s, first).restore.Idle?
      && Run(Run(s, first), second).shutdown.Down?
  {
    StartedInv();
    EveryRunIsDriven(STARTED, events);
    var s := Run(STARTED, events);
    first, second := FinishFrom(s);
  }

  lemma FinishFrom(s: App) returns (first: seq<Event>, second: seq<Event>)
    requires Closing(s)
    ensures OwnerOf(s).Some? ==> Peer(H.RequestSettles(OwnerOf(s).value)) !in first
    ensures Run(s, first).restore.Idle? && Run(Run(s, first), second).shutdown.Down?
  {
    var owner := OwnerOf(s);
    var traffic := SettleWhileClosing(s, owner);
    var still := Run(s, traffic);
    assert OwnerOf(still) == owner;
    hide Closing, Still, Step, Run, OwnerOf;
    var restore := EndRestore(still, owner);
    first := traffic + restore;
    RunConcat(s, traffic, restore);
    var idle := Run(still, restore);
    var last := SettleWhileClosing(idle, None);
    var quiet := Run(idle, last);
    var retirements := EndRetirements(quiet);
    var shutdown := EndShutdown(Run(quiet, retirements));
    RunConcat(idle, last, retirements);
    RunConcat(idle, last + retirements, shutdown);
    second := last + retirements + shutdown;
  }
}
