/**
  The application against the history of a run: which stages a restore has passed, what makes restoring fail,
  which generations are retired and which retirements are under way, and what `apply` and the database have
  waited for.
 */
module LifecycleHistories {
  import opened Results
  import A = CallAdmissions
  import H = HttpListeners
  import T = TrafficHistories
  import opened Lifecycles
  import opened Generations
  import opened ShutdownProgress

  // ---------------------------------------------------------------- the course of a restore

  function RestoreStage(r: Restore): nat {
    match r
    case Idle => 0
    case Queued(_) => 1
    case AwaitListener(_) => 2
    case Draining(_, _, _, _, _) => 3
    case Applying(_, _) => 4
    case Installing(_, _) => 5
    case Initializing(_, _) => 6
    case Replacing(_, _) => 7
    case Marking(_, _) => 8
    case CleaningUp(_) => 9
    case Settled(_) => 10
  }

  /**
    Restoring fails in this turn: an owner has not drained or the old modules have not retired, `apply` has
    not confirmed, a step of the rebuild has failed, or a retirement cannot close its modules.
   */
  predicate FailsNow(s: App, e: Event) {
    match e
    case RestoreContinues(outcome, _, prepared) =>
      (match s.restore
       case Draining(lease, _, _, _, retired) =>
         DrainsSettled(s) && (s.http.leases[lease].drain.Rejected? || retired == Some(false))
       case Applying(_, _) => outcome != Fulfilled(true)
       case Installing(_, _) => outcome.Thrown?
       case Initializing(_, _) => outcome.Thrown?
       case Replacing(_, _) => prepared.None?
       case Marking(_, _) => outcome.Thrown?
       case _ => false)
    case RetirementContinues(m, ok) => !ok && m in s.retirements && s.retirements[m].ClosingModules?
    case _ => false
  }

  /** The stage that follows: a failure skips the rest, and cleans up exactly when new modules are installed. */
  function NextStage(s: App, e: Event): nat {
    var stage := RestoreStage(s.restore);
    match e
    case RunCalled(_) => if stage == 0 && s.shutdown.Running? && !s.restoreFailed then 1 else stage
    case RestoreContinues(_, usable, _) =>
      if stage == 0 then 0
      else if FailsNow(s, e) then (if stage >= 6 then 9 else 10)
      else if stage == 1 && !s.shutdown.Running? then 10
      else if stage == 2 && !(s.http.accepting && s.restore.owner in s.http.requests && usable) then 10
      else if stage == 3 && !DrainsSettled(s) then 3
      else if stage >= 8 then 10
      else stage + 1
    case RestoreSettles => if stage == 10 then 0 else stage
    case _ => stage
  }

  /** The lease that the stages 3 to 8 of a restore work through. */
  function LeaseUsed(r: Restore): Option<nat> {
    match r
    case Draining(lease, _, _, _, _) => Some(lease)
    case Applying(lease, _) => Some(lease)
    case Installing(lease, _) => Some(lease)
    case Initializing(lease, _) => Some(lease)
    case Replacing(lease, _) => Some(lease)
    case Marking(lease, _) => Some(lease)
    case _ => None
  }

  lemma RestoreTurnAdvances(s: App, outcome: Outcome, usable: bool, prepared: Option<nat>)
    requires Inv(s)
    ensures var e := RestoreContinues(outcome, usable, prepared);
      var after := RestoreTurn(s, outcome, usable, prepared);
      && RestoreStage(after.restore) == NextStage(s, e)
      && (after.restoreFailed <==> s.restoreFailed || FailsNow(s, e))
  {
    if s.restore.Replacing? || s.restore.Initializing? || s.restore.Marking? {
      LateTurnAdvances(s, outcome, usable, prepared);
      hide RestoreTurn, NextStage, FailsNow, Inv;
    } else if s.restore.AwaitListener? {
      SuspendingTurnAdvances(s, outcome, usable, prepared);
      hide RestoreTurn, NextStage, FailsNow, Inv;
    } else if s.restore.Draining? {
      DrainingTurnAdvances(s, outcome, usable, prepared);
      hide RestoreTurn, NextStage, FailsNow, Inv;
    } else {
      hide H.Suspend, H.DrainCall, H.BeginReplace, H.FinishReplace, H.Resume, H.ClosingInv, RetirementInv, Reopen;
      hide H.LeaseInv, DrainsSettled, RestoreInv, ShutdownInv;
    }
  }

  lemma SuspendingTurnAdvances(s: App, outcome: Outcome, usable: bool, prepared: Option<nat>)
    requires Inv(s) && s.restore.AwaitListener?
    ensures var e := RestoreContinues(outcome, usable, prepared);
      var after := RestoreTurn(s, outcome, usable, prepared);
      && RestoreStage(after.restore) == NextStage(s, e)
      && (after.restoreFailed <==> s.restoreFailed || FailsNow(s, e))
  {
    hide H.Suspend, H.LeaseInv, H.ClosingInv, RestoreInv, ShutdownInv, RetirementInv, Reopen, DrainsSettled;
  }

  lemma DrainingTurnAdvances(s: App, outcome: Outcome, usable: bool, prepared: Option<nat>)
    requires Inv(s) && s.restore.Draining?
    ensures var e := RestoreContinues(outcome, usable, prepared);
      var after := RestoreTurn(s, outcome, usable, prepared);
      && RestoreStage(after.restore) == NextStage(s, e)
      && (after.restoreFailed <==> s.restoreFailed || FailsNow(s, e))
  {
    hide H.DrainCall, Reopen, H.Inv, ShutdownInv, RetirementInv, HoldsLease;
  }

  lemma LateTurnAdvances(s: App, outcome: Outcome, usable: bool, prepared: Option<nat>)
    requires Inv(s) && (s.restore.Replacing? || s.restore.Initializing? || s.restore.Marking?)
    ensures var e := RestoreContinues(outcome, usable, prepared);
      var after := RestoreTurn(s, outcome, usable, prepared);
      && RestoreStage(after.restore) == NextStage(s, e)
      && (after.restoreFailed <==> s.restoreFailed || FailsNow(s, e))
  {
    assert H.Ordered(s.http.leases[s.restore.lease]);
    hide H.Suspend, H.DrainCall, H.BeginReplace, H.FinishReplace, H.Resume, H.ClosingInv, RetirementInv;
    hide H.ServingInv, DrainsSettled;
  }

  /** In every turn the restore takes the stage that follows, and restoring fails exactly when something fails now. */
  lemma RestoreAdvancesInOrder(s: App, e: Event)
    requires Inv(s)
    ensures RestoreStage(Step(s, e).restore) == NextStage(s, e)
    ensures Step(s, e).restoreFailed <==> s.restoreFailed || FailsNow(s, e)
  {
    match e
    case RestoreContinues(outcome, usable, prepared) =>
      hide *;
      RestoreTurnAdvances(s, outcome, usable, prepared);
      StepOfRestore(s, outcome, usable, prepared);
    case _ => hide RestoreTurn, Inv, H.TrafficTurn, H.DrainTurn, H.CloseTurn;
  }

  lemma StepOfRestore(s: App, outcome: Outcome, usable: bool, prepared: Option<nat>)
    ensures Step(s, RestoreContinues(outcome, usable, prepared)) == RestoreTurn(s, outcome, usable, prepared)
  {
  }

  predicate KeepsWhatItRead(s: App, e: Event, t: App) {
    var before, after := RestoreStage(s.restore), RestoreStage(t.restore);
    && (before == 0 && after == 1 ==> e == RunCalled(t.restore.owner))
    && (before == 1 && after == 2 ==> t.restore.owner == s.restore.owner)
    && (before == 2 && after == 3 ==>
          && t.restore.lease == |s.http.leases| && t.restore.original == s.modules
          && t.http.leases
          == s.http.leases + [H.Lease(Some(s.restore.owner), H.NotStarted, false, false, false, false)])
    && (before <= 2 && after == 10 ==> Replaced(t).None?)
    && (3 <= before <= after <= 8 ==> LeaseUsed(t.restore) == LeaseUsed(s.restore))
    && (3 <= before <= after ==> Replaced(t) == Replaced(s))
  }

  /**
    A restore works through one lease, the one it was granted, for the request that asked for it, and retires
    the generation that was current when it stopped the gates. A restore that stopped nothing retires nothing.
   */
  lemma RestoreKeepsWhatItRead(s: App, e: Event)
    requires Inv(s)
    ensures KeepsWhatItRead(s, e, Step(s, e))
  {
    match e
    case RestoreContinues(outcome, usable, prepared) =>
      hide *;
      StepOfRestore(s, outcome, usable, prepared);
      RestoreTurnKeepsWhatItRead(s, outcome, usable, prepared);
    case _ => hide H.Inv, Inv, H.TrafficTurn, H.DrainTurn, H.CloseTurn, RestoreTurn;
  }

  lemma RestoreTurnKeepsWhatItRead(s: App, outcome: Outcome, usable: bool, prepared: Option<nat>)
    ensures KeepsWhatItRead(s, RestoreContinues(outcome, usable, prepared), RestoreTurn(s, outcome, usable, prepared))
  {
    hide H.DrainCall, H.BeginReplace, H.FinishReplace, H.Resume, DrainsSettled;
  }

  /** From position `from` on the restore under way has not come to its end and is at least at `stage`. */
  ghost predicate UnderWaySince(events: seq<Event>, from: nat, stage: nat) {
    forall t: nat | from <= t <= |events| :: stage <= RestoreStage(Run(STARTED, events[..t]).restore) <= 8
  }

  /**
    No restore skips a stage: one that has come as far as a stage has been through each stage before it since
    it was accepted. In particular nothing is installed before the drains, the retirement and `apply`, and the
    gates reopen only after all of that, the initialization and the new bindings.
   */
  lemma {:induction false} RestoreMissesNoStage(events: seq<Event>, stage: nat) returns (i: nat)
    requires 1 <= stage <= RestoreStage(Run(STARTED, events).restore) <= 8
    ensures i <= |events| && RestoreStage(Run(STARTED, events[..i]).restore) == stage
    ensures UnderWaySince(events, i, stage)
    decreases |events|
  {
    assert events[..|events|] == events;
    if RestoreStage(Run(STARTED, events).restore) == stage {
      return |events|;
    }
    assert events != [];
    var n := |events| - 1;
    var init, e := events[..n], events[n];
    assert events == init + [e];
    hide Run, RestoreStage;
    NoStageIsSkipped(init, e);
    i := RestoreMissesNoStage(init, stage);
    assert forall t: nat | t <= n :: events[..t] == init[..t];
  }

  lemma NoStageIsSkipped(events: seq<Event>, e: Event)
    ensures var before := RestoreStage(Run(STARTED, events).restore);
      var after := RestoreStage(Run(STARTED, events + [e]).restore);
      1 <= after <= 8 ==> before == after || before == after - 1
  {
    hide Run, Step, Inv, FailsNow;
    StartedInv();
    RunKeeps(STARTED, events);
    RunLast(STARTED, events, e);
    RestoreAdvancesInOrder(Run(STARTED, events), e);
  }

  ghost predicate FailedIn(events: seq<Event>) {
    exists i: nat :: i < |events| && FailsNow(Run(STARTED, events[..i]), events[i])
  }

  lemma FailedGrows(init: seq<Event>, e: Event)
    ensures FailedIn(init + [e]) <==> FailedIn(init) || FailsNow(Run(STARTED, init), e)
  {
    hide FailsNow, Run;
    var events, n := init + [e], |init|;
    assert forall j: nat | j < n :: events[..j] == init[..j] && events[j] == init[j];
    assert events[..n] == init && events[n] == e;
    if i: nat :| i < |init| && FailsNow(Run(STARTED, init[..i]), init[i]) {
      assert FailsNow(Run(STARTED, events[..i]), events[i]);
    }
    if FailsNow(Run(STARTED, init), e) {
      assert FailsNow(Run(STARTED, events[..n]), events[n]);
    }
  }

  /**
    A restore is accepted exactly when the application has not been closed, no other restore is under way and
    nothing has failed restoring in the whole run.
   */
  lemma {:induction false} RunIsAcceptedExactlyWhen(events: seq<Event>)
    ensures Run(STARTED, events).restoreFailed <==> FailedIn(events)
    ensures Run(STARTED, events).shutdown.Running? <==> CloseCalled !in events
    ensures RunAccepted(Run(STARTED, events))
       <==> CloseCalled !in events && !FailedIn(events) && Run(STARTED, events).restore.Idle?
    decreases |events|
  {
    if events != [] {
      var n := |events| - 1;
      var init, e := events[..n], events[n];
      assert events == init + [e];
      RunLast(STARTED, init, e);
      StartedInv();
      RunKeeps(STARTED, init);
      RunIsAcceptedExactlyWhen(init);
      hide Run, Step, Inv, FailsNow, FailedIn;
      RestoreAdvancesInOrder(Run(STARTED, init), e);
      ShutdownAdvancesInOrder(Run(STARTED, init), e);
      FailedGrows(init, e);
    }
  }

  /** A restore that is still queued when closing begins never stops anything. */
  lemma RestoreStartsOnlyBeforeClosing(events: seq<Event>, e: Event)
    requires Run(STARTED, events).restore.Queued? && !Run(STARTED, events + [e]).restore.Queued?
    ensures CloseCalled in events ==> Run(STARTED, events + [e]).restore == Settled(None)
    ensures CloseCalled !in events ==>
      Run(STARTED, events + [e]).restore == AwaitListener(Run(STARTED, events).restore.owner)
  {
    var s := Run(STARTED, events);
    StartedInv();
    RunKeeps(STARTED, events);
    RunLast(STARTED, events, e);
    RunIsAcceptedExactlyWhen(events);
    hide Run, Step, Inv, FailedIn;
    RestoreAdvancesInOrder(s, e);
    RestoreKeepsWhatItRead(s, e);
  }

  // ---------------------------------------------------------------- generations

  lemma InstallsOnly(s: App, e: Event)
    ensures var after := Step(s, e);
      if s.restore.Installing? && e.RestoreContinues? && e.outcome.Fulfilled?
      then after.modules == s.installed && after.installed == s.installed + 1
      else after.modules == s.modules && after.installed == s.installed
  {
    hide H.Suspend, H.DrainCall, H.BeginReplace, H.FinishReplace, H.Resume, H.TrafficTurn, H.DrainTurn, H.CloseTurn;
    hide H.CanResume, H.CanSuspend, H.CanBeginReplace, H.ReplaceLands, DrainsSettled, A.Step;
  }

  /** How many generations a run has installed after the first. */
  function Installs(s: App, events: seq<Event>): nat
    decreases |events|
  {
    if events == [] then 0
    else
      var e := events[0];
      var installs := s.restore.Installing? && e.RestoreContinues? && e.outcome.Fulfilled?;
      Installs(Step(s, e), events[1..]) + if installs then 1 else 0
  }

  /** The current modules are the newest generation in every run, one more for each successful install. */
  lemma {:induction false} ModulesAreTheNewest(s: App, events: seq<Event>)
    requires s.modules + 1 == s.installed
    ensures Run(s, events).modules + 1 == Run(s, events).installed == s.installed + Installs(s, events)
    decreases |events|
  {
    if events != [] {
      InstallsOnly(s, events[0]);
      hide Step;
      ModulesAreTheNewest(Step(s, events[0]), events[1..]);
    }
  }

  /** Generations with something outstanding: replaced and to be closed, being closed, or retired for a restore. */
  datatype Roll = ToBeClosed | BeingClosed | Retired

  function Enrolled(r: Roll, s: App): set<nat> {
    match r
    case ToBeClosed => s.retired
    case BeingClosed => s.retirements.Keys
    case Retired => s.quiescent
  }

  /**
    A generation is to be closed when the gates stop for its restore, is being closed when that restore has
    settled, and has retired when its `retireForRestore` is fulfilled.
   */
  predicate Enters(r: Roll, s: App, e: Event, m: nat) {
    match r
    case ToBeClosed =>
      && e.RestoreContinues? && s.restore.AwaitListener? && m == s.modules
      && s.http.accepting && s.restore.owner in s.http.requests && e.usable
    case BeingClosed => e.RestoreSettles? && s.restore == Settled(Some(m))
    case Retired =>
      && e.RestoreContinues? && s.restore.Draining? && s.restore.original == m
      && s.restore.asked && s.restore.calls.Some? && s.restore.retired.None? && e.outcome.Fulfilled?
  }

  /**
    A retirement leaves when its modules have closed. One that could not close them leaves at once if it need
    not or cannot stop the transport, and otherwise when the drain of the transport has settled.
   */
  predicate Leaves(r: Roll, s: App, e: Event, m: nat) {
    && e.RetirementContinues? && e.generation == m && m in s.retirements
    && match r
       case ToBeClosed => e.ok && s.retirements[m].ClosingModules?
       case BeingClosed =>
         (match s.retirements[m]
          case ClosingModules => e.ok || !s.shutdown.Running? || !s.restore.Idle?
          case Suspending => !s.http.accepting
          case DrainingTransport(lease) =>
            lease < |s.http.leases| && (s.http.leases[lease].drain.Fulfilled? || s.http.leases[lease].drain.Rejected?))
       case Retired => false
  }

  lemma RollStep(r: Roll, s: App, e: Event, m: nat)
    requires Inv(s)
    ensures m in Enrolled(r, Step(s, e)) <==> Enters(r, s, e, m) || (m in Enrolled(r, s) && !Leaves(r, s, e, m))
  {
    match e
    case RestoreContinues(outcome, usable, prepared) =>
      hide *;
      StepOfRestore(s, outcome, usable, prepared);
      RestoreTurnRolls(r, s, outcome, usable, prepared, m);
    case RetirementContinues(k, ok) =>
      hide *;
      RetirementTurnRolls(r, s, k, ok, m);
    case _ => hide RestoreTurn, RetirementTurn, Inv, H.TrafficTurn, H.DrainTurn, H.CloseTurn;
  }

  lemma RetirementTurnRolls(r: Roll, s: App, k: nat, ok: bool, m: nat)
    requires Inv(s)
    ensures var e := RetirementContinues(k, ok);
      m in Enrolled(r, Step(s, e)) <==> Enters(r, s, e, m) || (m in Enrolled(r, s) && !Leaves(r, s, e, m))
  {
    hide RestoreTurn, ShutdownTurn, H.LeaseInv, H.ClosingInv, ShutdownInv, RestoreInv, H.TrafficTurn, H.DrainTurn;
  }

  lemma RestoreTurnRolls(r: Roll, s: App, outcome: Outcome, usable: bool, prepared: Option<nat>, m: nat)
    requires Inv(s)
    ensures var e := RestoreContinues(outcome, usable, prepared);
      m in Enrolled(r, RestoreTurn(s, outcome, usable, prepared))
      <==> Enters(r, s, e, m) || (m in Enrolled(r, s) && !Leaves(r, s, e, m))
  {
    hide H.LeaseInv, H.ClosingInv, H.Suspend, H.DrainCall, H.BeginReplace, H.FinishReplace, H.Resume;
    hide H.CanResume, H.CanBeginReplace, H.ReplaceLands, DrainsSettled, RestoreInv, ShutdownInv, RetirementInv;
  }

  ghost predicate NeverLeaves(r: Roll, events: seq<Event>, from: nat, m: nat) {
    forall j: nat | from <= j < |events| :: !Leaves(r, Run(STARTED, events[..j]), events[j], m)
  }

  ghost predicate EnrolledSince(r: Roll, events: seq<Event>, i: nat, m: nat) {
    && i < |events| && Enters(r, Run(STARTED, events[..i]), events[i], m)
    && NeverLeaves(r, events, i + 1, m)
  }

  lemma RollGrows(r: Roll, init: seq<Event>, e: Event, m: nat)
    ensures var stays := (exists i: nat :: EnrolledSince(r, init, i, m)) && !Leaves(r, Run(STARTED, init), e, m);
      (exists i: nat :: EnrolledSince(r, init + [e], i, m)) <==> Enters(r, Run(STARTED, init), e, m) || stays
  {
    hide Enters, Leaves, Run;
    var events, n := init + [e], |init|;
    assert forall j: nat | j < n :: events[..j] == init[..j] && events[j] == init[j];
    assert events[..n] == init;
    assert forall from: nat | from <= n ::
        NeverLeaves(r, events, from, m) <==> NeverLeaves(r, init, from, m) && !Leaves(r, Run(STARTED, init), e, m);
    assert EnrolledSince(r, events, n, m) <==> Enters(r, Run(STARTED, init), e, m);
    forall i: nat | i < n
      ensures EnrolledSince(r, events, i, m)
         <==> EnrolledSince(r, init, i, m) && !Leaves(r, Run(STARTED, init), e, m)
    {
    }
    if i: nat :| EnrolledSince(r, init, i, m) {
      assert i < n;
    }
  }

  /**
    After every run exactly those generations are still to be closed, are being closed and have retired that
    the events of the run put there and did not take away since.
   */
  lemma {:induction false} RollsFollowTheHistory(r: Roll, events: seq<Event>, m: nat)
    ensures m in Enrolled(r, Run(STARTED, events)) <==> exists i: nat :: EnrolledSince(r, events, i, m)
    decreases |events|
  {
    if events != [] {
      var n := |events| - 1;
      var init, e := events[..n], events[n];
      assert events == init + [e];
      RunLast(STARTED, init, e);
      StartedInv();
      RunKeeps(STARTED, init);
      RollsFollowTheHistory(r, init, m);
      hide Run, Step, Inv, Enters, Leaves, Enrolled;
      RollStep(r, Run(STARTED, init), e, m);
      RollGrows(r, init, e, m);
    }
  }

  /**
    A retirement that cannot close its modules stops the calls at once, and unless the application is closing,
    a restore is under way or the transport has stopped already, stops and drains the transport next.
   */
  lemma FailedRetirementStopsEverything(s: App, m: nat, ok: bool)
    requires Inv(s) && m in s.retirements && s.retirements[m].ClosingModules?
    ensures var failed := Step(s, RetirementContinues(m, false));
      var stopped := Step(failed, RetirementContinues(m, ok));
      var lease := |s.http.leases|;
      && failed.restoreFailed && !failed.admission.accepting && failed.retired == s.retired
      && (s.shutdown.Running? && s.restore.Idle? && s.http.accepting ==>
            && !stopped.http.accepting && stopped.http.suspension == Some(lease)
            && stopped.http.leases == s.http.leases + [H.Lease(None, H.Scheduled, false, false, false, false)]
            && stopped.retirements == s.retirements[m := DrainingTransport(lease)])
  {
    hide H.LeaseInv, H.ClosingInv, ShutdownInv, RestoreInv;
  }

  // ---------------------------------------------------------------- what apply and the database have waited for

  /** The listener events of a whole run. */
  function ListenerHistory(s: App, events: seq<Event>): seq<H.Event>
    decreases |events|
  {
    if events == [] then [] else ListenerEvents(s, events[0]) + ListenerHistory(Step(s, events[0]), events[1..])
  }

  lemma {:induction false} ListenerConcat(h: H.Listener, first: seq<H.Event>, second: seq<H.Event>)
    ensures H.Run(h, first + second) == H.Run(H.Run(h, first), second)
    decreases |first|
  {
    if first == [] {
      assert first + second == second;
    } else {
      assert (first + second)[1..] == first[1..] + second;
      ListenerConcat(H.Step(h, first[0]), first[1..], second);
    }
  }

  lemma MovedIsRun(h: H.Listener, es: seq<H.Event>)
    requires |es| <= 2
    ensures Moved(h, es) == H.Run(h, es)
  {
    if |es| == 2 {
      assert es[1..][1..] == [];
      assert H.Run(h, es) == H.Run(H.Step(h, es[0]), es[1..]) == H.Run(H.Step(H.Step(h, es[0]), es[1]), []);
    } else if |es| == 1 {
      assert es[1..] == [];
      assert H.Run(h, es) == H.Run(H.Step(h, es[0]), []);
    }
  }

  /** The listener of the application moves by its own events only. */
  lemma {:induction false} ListenerFollowsItsHistory(s: App, events: seq<Event>)
    ensures Run(s, events).http == H.Run(s.http, ListenerHistory(s, events))
    decreases |events|
  {
    if events != [] {
      ListenerMoves(s, events[0]);
      MovedIsRun(s.http, ListenerEvents(s, events[0]));
      hide Step, ListenerEvents, H.Run;
      ListenerFollowsItsHistory(Step(s, events[0]), events[1..]);
      ListenerConcat(s.http, ListenerEvents(s, events[0]), ListenerHistory(Step(s, events[0]), events[1..]));
    }
  }

  /** What one turn of the application does to the admission of calls. */
  function GateEvents(s: App, e: Event): seq<A.Event> {
    match e
    case RestoreContinues(outcome, usable, _) =>
      if s.restore.AwaitListener? && s.http.accepting && s.restore.owner in s.http.requests && usable then [A.Pause]
      else if s.restore.Marking? && outcome.Fulfilled? && s.shutdown.Running? && !s.restoreFailed then [A.Resume]
      else []
    case RetirementContinues(m, ok) =>
      if m in s.retirements && s.retirements[m].ClosingModules? && !ok then [A.Pause] else []
    case ShutdownContinues => if s.shutdown.Requested? then [A.Pause] else []
    case CapabilityCall(synchronous, invocation) => [A.Call(synchronous, invocation)]
    case CapabilitySettles(promise) => [A.Settle(promise)]
    case _ => []
  }

  lemma GateMoves(s: App, e: Event)
    requires Inv(s)
    ensures Step(s, e).admission == A.Run(s.admission, GateEvents(s, e))
  {
    GateMovesOnce(s, e);
    var es := GateEvents(s, e);
    if |es| == 1 {
      assert es[1..] == [];
      assert A.Run(s.admission, es) == A.Run(A.Step(s.admission, es[0]), []);
    }
  }

  lemma GateMovesOnce(s: App, e: Event)
    requires Inv(s)
    ensures |GateEvents(s, e)| <= 1
    ensures var es := GateEvents(s, e);
      Step(s, e).admission == if |es| == 0 then s.admission else A.Step(s.admission, es[0])
  {
    match e
    case RestoreContinues(outcome, usable, prepared) =>
      if s.restore.Marking? {
        ReopenCannotThrow(s);
      }
      hide H.LeaseInv, H.ClosingInv, H.DrainCall, H.BeginReplace, H.FinishReplace, H.Resume, DrainsSettled, A.Step;
    case _ => hide H.Inv, RestoreTurn, RestoreInv, ShutdownInv, H.TrafficTurn, H.DrainTurn, H.CloseTurn, A.Step;
  }

  function GateHistory(s: App, events: seq<Event>): seq<A.Event>
    decreases |events|
  {
    if events == [] then [] else GateEvents(s, events[0]) + GateHistory(Step(s, events[0]), events[1..])
  }

  lemma {:induction false} GateConcat(a: A.Admission, first: seq<A.Event>, second: seq<A.Event>)
    ensures A.Run(a, first + second) == A.Run(A.Run(a, first), second)
    decreases |first|
  {
    if first == [] {
      assert first + second == second;
    } else {
      assert (first + second)[1..] == first[1..] + second;
      GateConcat(A.Step(a, first[0]), first[1..], second);
    }
  }

  /** So does the admission of its calls. */
  lemma {:induction false} GateFollowsItsHistory(s: App, events: seq<Event>)
    requires Inv(s)
    ensures Run(s, events).admission == A.Run(s.admission, GateHistory(s, events))
    decreases |events|
  {
    if events != [] {
      StepKeeps(s, events[0]);
      GateMoves(s, events[0]);
      hide Step, GateEvents, A.Run, Inv;
      GateFollowsItsHistory(Step(s, events[0]), events[1..]);
      GateConcat(s.admission, GateEvents(s, events[0]), GateHistory(Step(s, events[0]), events[1..]));
    }
  }

  /** The restore under way is about to call `apply`, or the database may be closing. */
  predicate PastTheDrains(s: App) {
    s.restore.Applying? || !DatabaseOpen(s)
  }

  /** Whenever `apply` runs, and when the database closes, every call that ever came through the gate has settled. */
  lemma EveryAdmittedCallHasSettled(events: seq<Event>, i: nat, p: nat)
    requires PastTheDrains(Run(STARTED, events))
    requires var calls := GateHistory(STARTED, events);
      i < |calls| && calls[i] == A.Call(false, A.Returns(p)) && A.Run(A.OPEN, calls[..i]).accepting
    ensures A.Settle(p) in GateHistory(STARTED, events)[i + 1..]
  {
    var calls := GateHistory(STARTED, events);
    StartedInv();
    RunKeeps(STARTED, events);
    GateFollowsItsHistory(STARTED, events);
    A.PendingAreTheAdmittedUnsettled(A.OPEN, calls, p);
    assert Run(STARTED, events).admission.pending == {};
    assert A.Settle(p) !in calls[i + 1..] ==> A.OpenCall(A.OPEN, calls, i, p);
  }

  /**
    Whenever `apply` runs, every request but the owner's, every upgrade, socket, session, handler and cleanup
    that the listener ever admitted has ended; so it has when the database closes after a clean close.
   */
  lemma EverythingAdmittedHasEnded(events: seq<Event>, r: T.Registry, i: nat, x: nat)
    requires var s := Run(STARTED, events);
      if s.restore.Applying? then r.Requests? ==> OwnerOf(s) != Some(x)
      else !DatabaseOpen(s) && s.http.closing == H.Closed(true)
    requires T.BegunAt(r, H.Opened(0), ListenerHistory(STARTED, events), i, x)
    ensures !T.NeverEnds(r, H.Opened(0), ListenerHistory(STARTED, events), i + 1, x)
  {
    var s, history := Run(STARTED, events), ListenerHistory(STARTED, events);
    StartedInv();
    RunKeeps(STARTED, events);
    ListenerFollowsItsHistory(STARTED, events);
    H.OpenedInv(0);
    if s.restore.Applying? {
      T.DrainWaitsForEverything(r, H.Opened(0), history, s.restore.lease, i, x);
    } else {
      T.CleanCloseWaitsForEverything(r, H.Opened(0), history, i, x);
    }
  }
}
