/**
  The application lifecycle: one maintenance (restore) task, the retirement of replaced modules and the
  shutdown coroutine, over the HTTP listener and the capability admission gate.

  As in the listener, one function is one synchronous turn and a coroutine is a phase. Module generations
  are numbered; the installation functions, `apply`, `retireForRestore`, `close` and `initialize` are
  steps of the environment that succeed or fail.
 */
module Lifecycles {
  import opened Results
  import A = CallAdmissions
  import H = HttpListeners

  /** Where `maintenance.run` stands. `original` are the modules it retires. */
  datatype Restore =
    | Idle
    | Queued(owner: nat)
    | AwaitListener(owner: nat)
    | Draining(lease: nat, original: nat, asked: bool, calls: Option<set<nat>>, retired: Option<bool>)
    | Applying(lease: nat, original: nat)
    | Installing(lease: nat, original: nat)
    | Initializing(lease: nat, original: nat)
    | Replacing(lease: nat, original: nat)
    | Marking(lease: nat, original: nat)
    | CleaningUp(original: nat)
    | Settled(previous: Option<nat>)

  /** Where the retirement of one module generation stands. */
  datatype Retirement =
    | ClosingModules
    | Suspending
    | DrainingTransport(lease: nat)

  datatype Shutdown =
    | Running
    | Requested
    | AwaitRestore
    | AwaitCalls(waiting: set<nat>)
    | AwaitRetirements(waiting: set<nat>)
    | ClosingRetired
    | ClosingResources(asked: bool, modulesClosed: bool)
    | ClosingDatabase
    | Down

  datatype App = App(
    http: H.Listener,
    admission: A.Admission,
    modules: nat,
    installed: nat,              // generations installed so far
    restore: Restore,
    restoreFailed: bool,
    retirements: map<nat, Retirement>,
    retired: set<nat>,           // replaced generations that still have to be closed
    quiescent: set<nat>,         // history: generations whose retireForRestore succeeded
    shutdown: Shutdown)

  const STARTED := App(H.Opened(0), A.OPEN, 0, 1, Idle, false, map[], {}, {}, Running)

  // ---------------------------------------------------------------- the restore task

  /** `restoring` is set from the call of run until the settled callback. */
  predicate Restoring(s: App) {
    !s.restore.Idle?
  }

  predicate RunAccepted(s: App) {
    s.shutdown.Running? && !Restoring(s) && !s.restoreFailed
  }

  function RunCall(s: App, owner: nat): App {
    if RunAccepted(s) then s.(restore := Queued(owner)) else s
  }

  /** The catch block of the restore task. */
  function Fail(s: App, original: nat): App {
    s.(restoreFailed := true,
       restore := if s.modules != original then CleaningUp(original) else Settled(Some(original)))
  }

  /** Suspending the transport, pausing the calls and recording the retired generation is one turn. */
  function SuspendForRestore(s: App, owner: nat, usable: bool): App {
    if H.CanSuspend(s.http, Some(owner), usable) then
      s.(http := H.Suspend(s.http, Some(owner), usable),
         admission := A.Step(s.admission, A.Pause),
         retired := s.retired + {s.modules},
         restore := Draining(|s.http.leases|, s.modules, false, None, None))
    else s.(restore := Settled(None))
  }

  /** All three drains have settled. */
  predicate DrainsSettled(s: App)
    requires s.restore.Draining?
  {
    && s.restore.asked
    && s.restore.lease < |s.http.leases|
    && (s.http.leases[s.restore.lease].drain.Fulfilled? || s.http.leases[s.restore.lease].drain.Rejected?)
    && s.restore.calls.Some? && s.restore.calls.value !! s.admission.pending
    && s.restore.retired.Some?
  }

  /** The final turn: both gates reopen, unless closing has begun or a retirement has failed meanwhile. */
  function Reopen(s: App, lease: nat, original: nat): App {
    if !s.shutdown.Running? || s.restoreFailed then s.(restore := Settled(Some(original)))
    else if !H.CanResume(s.http, lease) then Fail(s, original)
    else
      var resumed := s.(http := H.Resume(s.http, lease));
      if s.admission.pending != {} then Fail(resumed, original)
      else resumed.(admission := A.Step(s.admission, A.Resume), restore := Settled(Some(original)))
  }

  /** How the awaited operation settled: `confirmed` matters to `apply` only. */
  datatype Outcome = Fulfilled(confirmed: bool) | Thrown

  /**
    One continuation of the restore task. `usable` is what the listener finds about the owner's request,
    `prepared` the compiled bindings of the new generation.
   */
  function RestoreTurn(s: App, outcome: Outcome, usable: bool, prepared: Option<nat>): App {
    match s.restore
    case Queued(owner) =>
      if s.shutdown.Running? then s.(restore := AwaitListener(owner)) else s.(restore := Settled(None))
    case AwaitListener(owner) => SuspendForRestore(s, owner, usable)
    case Draining(lease, original, asked, calls, retired) =>
      if !asked then s.(http := H.DrainCall(s.http, lease), restore := s.restore.(asked := true))
      else if calls.None? then s.(restore := s.restore.(calls := Some(s.admission.pending)))
      else if retired.None? then
        s.(restore := s.restore.(retired := Some(outcome.Fulfilled?)),
           quiescent := if outcome.Fulfilled? then s.quiescent + {original} else s.quiescent)
      else if !DrainsSettled(s) then s
      else if s.http.leases[lease].drain.Rejected? || !retired.value then Fail(s, original)
      else s.(restore := Applying(lease, original))
    case Applying(lease, original) =>
      if outcome.Thrown? then Fail(s, original)
      else if !outcome.confirmed then s.(restoreFailed := true, restore := Settled(Some(original)))
      else s.(restore := Installing(lease, original))
    case Installing(lease, original) =>
      if outcome.Thrown? then Fail(s, original)
      else s.(modules := s.installed, installed := s.installed + 1, restore := Initializing(lease, original))
    case Initializing(lease, original) =>
      if outcome.Thrown? || !H.CanBeginReplace(s.http, lease) then Fail(s, original)
      else s.(http := H.BeginReplace(s.http, lease), restore := Replacing(lease, original))
    case Replacing(lease, original) =>
      var landed := s.(http := H.FinishReplace(s.http, lease, prepared));
      if H.ReplaceLands(s.http, lease, prepared)
      then landed.(restore := Marking(lease, original))
      else Fail(landed, original)
    case Marking(lease, original) =>
      if outcome.Thrown? then Fail(s, original) else Reopen(s, lease, original)
    case CleaningUp(original) => s.(restore := Settled(Some(original)))
    case _ => s
  }

  /** The settled callback: clear `restoring` and start the retirement of the replaced generation. */
  function RestoreSettled(s: App): App {
    match s.restore
    case Settled(None) => s.(restore := Idle)
    case Settled(Some(previous)) =>
      s.(restore := Idle, retirements := s.retirements[previous := ClosingModules])
    case _ => s
  }

  // ---------------------------------------------------------------- retirement

  /** A retirement task has rejected: its generation stays in `retired` for the shutdown to close. */
  function RetirementFailed(s: App, m: nat): App {
    s.(retirements := s.retirements - {m})
  }

  /** One continuation of the retirement of generation `m`; `ok`: closing the modules succeeded. */
  function RetirementTurn(s: App, m: nat, ok: bool): App {
    if m !in s.retirements then s
    else match s.retirements[m]
      case ClosingModules =>
        if ok then s.(retirements := s.retirements - {m}, retired := s.retired - {m})
        else
          var stopped := s.(restoreFailed := true, admission := A.Step(s.admission, A.Pause));
          if s.shutdown.Running? && !Restoring(s)
          then stopped.(retirements := s.retirements[m := Suspending])
          else RetirementFailed(stopped, m)
      case Suspending =>
        if H.CanSuspend(s.http, None, true) then
          var lease := |s.http.leases|;
          s.(http := H.DrainCall(H.Suspend(s.http, None, true), lease),
             retirements := s.retirements[m := DrainingTransport(lease)])
        else RetirementFailed(s, m)
      case DrainingTransport(lease) =>
        if lease < |s.http.leases| && (s.http.leases[lease].drain.Fulfilled? || s.http.leases[lease].drain.Rejected?)
        then RetirementFailed(s, m)
        else s
  }

  // ---------------------------------------------------------------- shutdown

  function CloseCall(s: App): App {
    if s.shutdown.Running? then s.(shutdown := Requested) else s
  }

  /** One continuation of the shutdown coroutine. Failures are collected and do not change its course. */
  function ShutdownTurn(s: App): App {
    match s.shutdown
    case Requested =>
      var paused := s.(admission := A.Step(s.admission, A.Pause));
      if Restoring(s) then paused.(shutdown := AwaitRestore)
      else paused.(shutdown := AwaitCalls(s.admission.pending))
    case AwaitRestore =>
      if Restoring(s) then s else s.(shutdown := AwaitCalls(s.admission.pending))
    case AwaitCalls(waiting) =>
      if waiting !! s.admission.pending then s.(shutdown := AwaitRetirements(s.retirements.Keys)) else s
    case AwaitRetirements(waiting) =>
      if waiting !! s.retirements.Keys then s.(shutdown := ClosingRetired) else s
    case ClosingRetired => s.(shutdown := ClosingResources(false, false))
    case ClosingResources(asked, modulesClosed) =>
      if !asked then s.(http := H.CloseCall(s.http), shutdown := ClosingResources(true, modulesClosed))
      else if !modulesClosed then s.(shutdown := ClosingResources(true, true))
      else if s.http.closing.Closed? then s.(shutdown := ClosingDatabase)
      else s
    case ClosingDatabase => s.(shutdown := Down)
    case _ => s
  }

  // ---------------------------------------------------------------- runs

  datatype Event =
    | RunCalled(owner: nat)
    | RestoreContinues(outcome: Outcome, usable: bool, prepared: Option<nat>)
    | RestoreSettles
    | RetirementContinues(generation: nat, ok: bool)
    | CloseCalled
    | ShutdownContinues
    | CapabilityCall(synchronous: bool, invocation: A.Invocation)
    | CapabilitySettles(promise: nat)
    | Peer(traffic: H.Traffic)
    | TransportDrains(lease: nat, clean: bool, timedOut: bool)
    | TransportCloses(clean: bool, timedOut: bool)

  function Step(s: App, e: Event): App {
    match e
    case RunCalled(owner) => RunCall(s, owner)
    case RestoreContinues(outcome, usable, prepared) => RestoreTurn(s, outcome, usable, prepared)
    case RestoreSettles => RestoreSettled(s)
    case RetirementContinues(m, ok) => RetirementTurn(s, m, ok)
    case CloseCalled => CloseCall(s)
    case ShutdownContinues => ShutdownTurn(s)
    case CapabilityCall(synchronous, invocation) =>
      s.(admission := A.Step(s.admission, A.Call(synchronous, invocation)))
    case CapabilitySettles(promise) => s.(admission := A.Step(s.admission, A.Settle(promise)))
    case Peer(t) => s.(http := H.TrafficTurn(s.http, t))
    case TransportDrains(l, clean, timedOut) => s.(http := H.DrainTurn(s.http, l, clean, timedOut))
    case TransportCloses(clean, timedOut) => s.(http := H.CloseTurn(s.http, clean, timedOut))
  }

  function Run(s: App, events: seq<Event>): App
    decreases |events|
  {
    if events == [] then s else Run(Step(s, events[0]), events[1..])
  }

  // ---------------------------------------------------------------- what every run keeps

  /** The restore task owns the suspension of the listener. */
  predicate HoldsLease(s: App, lease: nat) {
    H.Current(s.http, lease) && !s.admission.accepting
  }

  /** The old generation is gone: this is what `apply` may rely on. */
  ghost predicate Drained(s: App, lease: nat, original: nat) {
    && HoldsLease(s, lease)
    && s.http.leases[lease].drained
    && s.admission.pending == {}
    && original in s.quiescent
  }

  ghost predicate RestoreInv(s: App) {
    match s.restore
    case Draining(lease, original, asked, calls, retired) =>
      && HoldsLease(s, lease) && s.modules == original
      && (asked <==> !s.http.leases[lease].drain.NotStarted?)
      && (calls.Some? ==> s.admission.pending <= calls.value)
      && (retired == Some(true) ==> original in s.quiescent)
      && !s.http.leases[lease].replacing
    case Applying(lease, original) =>
      Drained(s, lease, original) && s.modules == original && !s.http.leases[lease].replacing
    case Installing(lease, original) =>
      Drained(s, lease, original) && s.modules == original && !s.http.leases[lease].replacing
    case Initializing(lease, original) =>
      Drained(s, lease, original) && s.modules != original && !s.http.leases[lease].replacing
    case Replacing(lease, original) =>
      Drained(s, lease, original) && s.modules != original && s.http.leases[lease].compiling
    case Marking(lease, original) =>
      Drained(s, lease, original) && s.modules != original && s.http.leases[lease].replaced
    case CleaningUp(original) => s.restoreFailed && !s.http.accepting
    case _ => true
  }

  /** The shutdown coroutine has not yet passed the point where it waits for the restore task. */
  predicate BeforeTeardown(d: Shutdown) {
    d.Running? || d.Requested? || d.AwaitRestore?
  }

  predicate ListenerAsked(d: Shutdown) {
    (d.ClosingResources? && d.asked) || d.ClosingDatabase? || d.Down?
  }

  predicate RetirementsGone(d: Shutdown) {
    d.ClosingRetired? || d.ClosingResources? || d.ClosingDatabase? || d.Down?
  }

  predicate CallsGone(d: Shutdown) {
    d.AwaitRetirements? || RetirementsGone(d)
  }

  ghost predicate ShutdownInv(s: App) {
    && (Restoring(s) ==> BeforeTeardown(s.shutdown))
    && (s.http.closing.NotClosing? <==> !ListenerAsked(s.shutdown))
    && (s.shutdown.ClosingResources? && s.shutdown.modulesClosed ==> s.shutdown.asked)
    && (s.shutdown.ClosingDatabase? || s.shutdown.Down? ==> s.http.closing.Closed?)
    && (!s.shutdown.Running? && !s.shutdown.Requested? ==> !s.admission.accepting)
    && (s.shutdown.AwaitCalls? ==> s.admission.pending <= s.shutdown.waiting)
    && (CallsGone(s.shutdown) ==> s.admission.pending == {})
    && (s.shutdown.AwaitRetirements? ==> s.retirements.Keys <= s.shutdown.waiting)
    && (RetirementsGone(s.shutdown) ==> s.retirements == map[])
  }

  ghost predicate RetirementInv(s: App) {
    forall m | m in s.retirements && !s.retirements[m].ClosingModules? :: s.restoreFailed && !Restoring(s)
  }

  ghost predicate Inv(s: App) {
    && H.Inv(s.http)
    && (s.restoreFailed ==> !s.admission.accepting)
    && s.modules < s.installed
    && RestoreInv(s) && ShutdownInv(s) && RetirementInv(s)
  }

  lemma StartedInv()
    ensures Inv(STARTED)
  {
  }

  lemma RunCallKeeps(s: App, owner: nat)
    requires Inv(s)
    ensures Inv(RunCall(s, owner))
  {
  }

  lemma SuspendForRestoreKeeps(s: App, owner: nat, usable: bool)
    requires Inv(s) && s.restore == AwaitListener(owner)
    ensures Inv(SuspendForRestore(s, owner, usable))
  {
    H.SuspendKeeps(s.http, Some(owner), usable);
  }

  lemma AskingForTheDrainKeeps(s: App, outcome: Outcome, usable: bool, prepared: Option<nat>)
    requires Inv(s) && s.restore.Draining? && !s.restore.asked
    ensures Inv(RestoreTurn(s, outcome, usable, prepared))
  {
    var lease := s.restore.lease;
    H.DrainCallKeeps(s.http, lease);
    assert H.Ordered(s.http.leases[lease]);
  }

  lemma AwaitingTheDrainsKeeps(s: App, outcome: Outcome, usable: bool, prepared: Option<nat>)
    requires Inv(s) && s.restore.Draining? && s.restore.asked
    ensures Inv(RestoreTurn(s, outcome, usable, prepared))
  {
    assert H.Ordered(s.http.leases[s.restore.lease]);
    hide H.Inv;
    if DrainsSettled(s) {
      assert s.admission.pending == {};
    }
  }

  lemma DrainingKeeps(s: App, outcome: Outcome, usable: bool, prepared: Option<nat>)
    requires Inv(s) && s.restore.Draining?
    ensures Inv(RestoreTurn(s, outcome, usable, prepared))
  {
    hide *;
    if s.restore.asked {
      AwaitingTheDrainsKeeps(s, outcome, usable, prepared);
    } else {
      AskingForTheDrainKeeps(s, outcome, usable, prepared);
    }
  }

  lemma RebuildKeeps(s: App, outcome: Outcome, usable: bool, prepared: Option<nat>)
    requires Inv(s) && (s.restore.Applying? || s.restore.Installing?)
    ensures Inv(RestoreTurn(s, outcome, usable, prepared))
  {
  }

  lemma ReplaceKeeps(s: App, outcome: Outcome, usable: bool, prepared: Option<nat>)
    requires Inv(s) && (s.restore.Initializing? || s.restore.Replacing?)
    ensures Inv(RestoreTurn(s, outcome, usable, prepared))
  {
    H.ReplaceKeeps(s.http, s.restore.lease, prepared);
  }

  /** At the single reopening point neither gate can refuse. */
  lemma ReopenCannotThrow(s: App)
    requires Inv(s) && s.restore.Marking?
    ensures H.CanResume(s.http, s.restore.lease)
    ensures s.admission.pending == {}
  {
  }

  lemma MarkingKeeps(s: App, outcome: Outcome, usable: bool, prepared: Option<nat>)
    requires Inv(s) && s.restore.Marking?
    ensures Inv(RestoreTurn(s, outcome, usable, prepared))
  {
    ReopenCannotThrow(s);
    H.ResumeKeeps(s.http, s.restore.lease);
  }

  lemma RestoreTurnKeeps(s: App, outcome: Outcome, usable: bool, prepared: Option<nat>)
    requires Inv(s)
    ensures Inv(RestoreTurn(s, outcome, usable, prepared))
  {
    match s.restore
    case AwaitListener(owner) => SuspendForRestoreKeeps(s, owner, usable);
    case Draining(_, _, _, _, _) => DrainingKeeps(s, outcome, usable, prepared);
    case Applying(_, _) => RebuildKeeps(s, outcome, usable, prepared);
    case Installing(_, _) => RebuildKeeps(s, outcome, usable, prepared);
    case Initializing(_, _) => ReplaceKeeps(s, outcome, usable, prepared);
    case Replacing(_, _) => ReplaceKeeps(s, outcome, usable, prepared);
    case Marking(_, _) => MarkingKeeps(s, outcome, usable, prepared);
    case _ =>
  }

  lemma RestoreSettledKeeps(s: App)
    requires Inv(s)
    ensures Inv(RestoreSettled(s))
  {
  }

  lemma RetirementTurnKeeps(s: App, m: nat, ok: bool)
    requires Inv(s)
    ensures Inv(RetirementTurn(s, m, ok))
  {
    if m in s.retirements {
      match s.retirements[m]
      case ClosingModules =>
      case Suspending =>
        H.SuspendKeeps(s.http, None, true);
        H.DrainCallKeeps(H.Suspend(s.http, None, true), |s.http.leases|);
      case DrainingTransport(_) =>
    }
  }

  lemma ShutdownTurnKeeps(s: App)
    requires Inv(s)
    ensures Inv(ShutdownTurn(s))
  {
    match s.shutdown
    case ClosingResources(asked, _) =>
      H.CloseCallKeeps(s.http);
      assert !Restoring(s);
    case Requested =>
    case _ =>
  }

  lemma CloseCallKeeps(s: App)
    requires Inv(s)
    ensures Inv(CloseCall(s))
  {
  }

  lemma AdmissionKeeps(s: App, e: A.Event)
    requires Inv(s) && (e.Call? || e.Settle?)
    ensures Inv(s.(admission := A.Step(s.admission, e)))
  {
  }

  lemma PeerKeeps(s: App, t: H.Traffic)
    requires Inv(s)
    ensures Inv(s.(http := H.TrafficTurn(s.http, t)))
  {
    H.TrafficKeeps(s.http, t);
    H.TrafficFrame(s.http, t);
  }

  lemma TransportDrainKeeps(s: App, l: nat, clean: bool, timedOut: bool)
    requires Inv(s)
    ensures Inv(s.(http := H.DrainTurn(s.http, l, clean, timedOut)))
  {
    H.DrainTurnKeeps(s.http, l, clean, timedOut);
    H.DrainTurnMovesOneLease(s.http, l, clean, timedOut);
    if l < |s.http.leases| {
      H.DrainTurnMovesOnlyTheDrain(s.http, l, clean, timedOut);
    }
  }

  lemma TransportCloseKeeps(s: App, clean: bool, timedOut: bool)
    requires Inv(s)
    ensures Inv(s.(http := H.CloseTurn(s.http, clean, timedOut)))
  {
    H.CloseTurnKeeps(s.http, clean, timedOut);
  }

  lemma StepKeeps(s: App, e: Event)
    requires Inv(s)
    ensures Inv(Step(s, e))
  {
    match e
    case RunCalled(owner) => RunCallKeeps(s, owner);
    case RestoreContinues(outcome, usable, prepared) => RestoreTurnKeeps(s, outcome, usable, prepared);
    case RestoreSettles => RestoreSettledKeeps(s);
    case RetirementContinues(m, ok) => RetirementTurnKeeps(s, m, ok);
    case CloseCalled => CloseCallKeeps(s);
    case ShutdownContinues => ShutdownTurnKeeps(s);
    case CapabilityCall(synchronous, invocation) => AdmissionKeeps(s, A.Call(synchronous, invocation));
    case CapabilitySettles(promise) => AdmissionKeeps(s, A.Settle(promise));
    case Peer(t) => PeerKeeps(s, t);
    case TransportDrains(l, clean, timedOut) => TransportDrainKeeps(s, l, clean, timedOut);
    case TransportCloses(clean, timedOut) => TransportCloseKeeps(s, clean, timedOut);
  }

  lemma {:induction false} RunKeeps(s: App, events: seq<Event>)
    requires Inv(s)
    ensures Inv(Run(s, events))
    decreases |events|
  {
    if events != [] {
      StepKeeps(s, events[0]);
      RunKeeps(Step(s, events[0]), events[1..]);
    }
  }

  // ---------------------------------------------------------------- theorems about runs

  /** The database is closed by the last turn of the shutdown and may be closing in the turn before. */
  predicate DatabaseOpen(s: App) {
    !s.shutdown.ClosingDatabase? && !s.shutdown.Down?
  }

  /** No restore can run any more: one has failed, and none is on its way to `apply`. */
  predicate Over(s: App) {
    s.restoreFailed && (s.restore.Idle? || s.restore.CleaningUp? || s.restore.Settled?)
  }

  /** Unless that is so, every generation that is still being closed has retired before. */
  predicate OlderHaveRetired(s: App) {
    || Over(s)
    || (&& (forall m | m in s.retirements :: m in s.quiescent)
        && (s.restore.Settled? && s.restore.previous.Some? ==> s.restore.previous.value in s.quiescent))
  }

  lemma OlderStayRetired(s: App, e: Event)
    requires Inv(s) && OlderHaveRetired(s)
    ensures OlderHaveRetired(Step(s, e))
  {
    hide H.Inv, H.Suspend, H.DrainCall, H.DrainTurn, H.TrafficTurn, H.CloseTurn, H.CloseCall, A.Step;
  }

  lemma {:induction false} OlderHaveRetiredInEveryRun(s: App, events: seq<Event>)
    requires Inv(s) && OlderHaveRetired(s)
    ensures OlderHaveRetired(Run(s, events))
    decreases |events|
  {
    if events != [] {
      StepKeeps(s, events[0]);
      OlderStayRetired(s, events[0]);
      OlderHaveRetiredInEveryRun(Step(s, events[0]), events[1..]);
    }
  }

  /**
    Whenever `apply` executes, in whatever run: both gates are stopped, no admitted request except the
    owner's is active, no upgrade, socket or WebSocket task of the old generation is left, no capability
    call is pending, the old modules and every older generation that is still being closed have retired,
    and the database is open.
   */
  lemma ApplyRunsAlone(events: seq<Event>)
    requires Run(STARTED, events).restore.Applying?
    ensures var s := Run(STARTED, events);
            && !s.http.accepting && !s.admission.accepting
            && s.restore.lease < |s.http.leases|
            && H.Quiet(s.http, s.http.leases[s.restore.lease].owner)
            && s.admission.pending == {}
            && s.modules == s.restore.original && s.restore.original in s.quiescent
            && (forall m | m in s.retirements :: m in s.quiescent)
            && DatabaseOpen(s)
  {
    StartedInv();
    RunKeeps(STARTED, events);
    OlderHaveRetiredInEveryRun(STARTED, events);
    var s := Run(STARTED, events);
    assert H.DrainInv(s.http, s.http.leases[s.restore.lease]);
  }

  /** How far the shutdown has come; waiting for a restore, at 2, is skipped when there is none. */
  function ShutdownStage(d: Shutdown): nat {
    match d
    case Running => 0
    case Requested => 1
    case AwaitRestore => 2
    case AwaitCalls(_) => 3
    case AwaitRetirements(_) => 4
    case ClosingRetired => 5
    case ClosingResources(asked, modulesClosed) => if !asked then 6 else if !modulesClosed then 7 else 8
    case ClosingDatabase => 9
    case Down => 10
  }

  /**
    The shutdown only advances, one stage at a time: past the calls when none is pending, past the retirements
    when none is left, to the database when the modules and the listener have closed.
   */
  lemma ShutdownAdvancesInOrder(s: App, e: Event)
    requires Inv(s)
    ensures var before, after := ShutdownStage(s.shutdown), ShutdownStage(Step(s, e).shutdown);
      && before <= after
      && after <= (if before == 1 && !Restoring(s) then 3 else before + 1)
      && (before == 0 < after <==> e.CloseCalled? && before == 0)
      && (0 < before < after ==> e.ShutdownContinues?)
      && (before < 3 <= after ==> !Restoring(s))
      && (before == 3 < after ==> s.admission.pending == {})
      && (before == 4 < after ==> s.retirements == map[])
      && (before == 6 < after ==> Step(s, e).http.closing.CloseScheduled?)
      && (before == 8 < after ==> s.shutdown == ClosingResources(true, true) && s.http.closing.Closed?)
  {
    hide H.Inv, H.Suspend, H.DrainCall, H.DrainTurn, H.TrafficTurn, H.CloseTurn, A.Step, RestoreInv, RetirementInv;
    match e
    case RestoreContinues(outcome, usable, prepared) => RestoreKeepsTheShutdown(s, outcome, usable, prepared);
    case ShutdownContinues => hide RestoreTurn;
    case _ => hide RestoreTurn, ShutdownTurn;
  }

  lemma RestoreKeepsTheShutdown(s: App, outcome: Outcome, usable: bool, prepared: Option<nat>)
    ensures RestoreTurn(s, outcome, usable, prepared).shutdown == s.shutdown
  {
    hide H.Suspend, H.DrainCall, H.CanSuspend, H.BeginReplace, H.FinishReplace, H.Resume, A.Step, DrainsSettled;
  }

  lemma {:induction false} RunLast(s: App, events: seq<Event>, e: Event)
    ensures Run(s, events + [e]) == Step(Run(s, events), e)
    decreases |events|
  {
    if events == [] {
      assert [e][1..] == [];
    } else {
      assert (events + [e])[1..] == events[1..] + [e];
      RunLast(Step(s, events[0]), events[1..], e);
    }
  }

  /** Every stage that a run has left behind was the stage of some moment of it. */
  lemma {:induction false} ShutdownMissesNoStage(events: seq<Event>, stage: nat) returns (i: nat)
    requires stage != 2 && stage <= ShutdownStage(Run(STARTED, events).shutdown)
    ensures i <= |events| && ShutdownStage(Run(STARTED, events[..i]).shutdown) == stage
    decreases |events|
  {
    assert events[..|events|] == events;
    if ShutdownStage(Run(STARTED, events).shutdown) == stage {
      return |events|;
    }
    assert events != [];
    var n := |events| - 1;
    var init, e := events[..n], events[n];
    assert events == init + [e];
    RunLast(STARTED, init, e);
    StartedInv();
    RunKeeps(STARTED, init);
    ShutdownAdvancesInOrder(Run(STARTED, init), e);
    hide Run, Step, Inv;
    i := ShutdownMissesNoStage(init, stage);
    assert events[..i] == init[..i];
  }

  /** The database closes in one kind of turn only: the modules and the listener have both closed before. */
  lemma DatabaseWaitsForBoth(events: seq<Event>, e: Event)
    requires DatabaseOpen(Run(STARTED, events)) && !DatabaseOpen(Run(STARTED, events + [e]))
    ensures e.ShutdownContinues?
    ensures Run(STARTED, events).shutdown == ClosingResources(true, true)
    ensures Run(STARTED, events).http.closing.Closed?
  {
    hide Run, Step, Inv;
    StartedInv();
    RunKeeps(STARTED, events);
    RunLast(STARTED, events, e);
    ShutdownAdvancesInOrder(Run(STARTED, events), e);
  }

  /**
    The database outlives the restore task, every admitted call, every retirement, the closing of the retired
    modules, of the current modules and of the listener; once it may be closing, no restore can start. The
    witnesses are the moments at which the retired modules were closing, at which the listener had been asked
    to close, and at which the current modules had closed.
   */
  lemma DatabaseClosesLast(events: seq<Event>, owner: nat) returns (retired: nat, asked: nat, closed: nat)
    requires !DatabaseOpen(Run(STARTED, events))
    ensures var s := Run(STARTED, events);
            && s.restore.Idle? && RunCall(s, owner) == s
            && s.admission.pending == {} && s.retirements == map[]
            && s.http.closing.Closed? && !s.http.accepting
    ensures retired <= |events| && Run(STARTED, events[..retired]).shutdown.ClosingRetired?
    ensures asked <= |events| && Run(STARTED, events[..asked]).shutdown == ClosingResources(true, false)
    ensures closed <= |events| && Run(STARTED, events[..closed]).shutdown == ClosingResources(true, true)
  {
    StartedInv();
    RunKeeps(STARTED, events);
    retired := ShutdownMissesNoStage(events, 5);
    asked := ShutdownMissesNoStage(events, 7);
    closed := ShutdownMissesNoStage(events, 8);
  }

  /** Restoring has failed, or closing has begun. */
  predicate Doomed(s: App) {
    s.restoreFailed || !s.shutdown.Running?
  }

  ghost predicate GatesOnlyStop(before: App, after: App) {
    && (after.http.accepting ==> before.http.accepting)
    && (after.admission.accepting ==> before.admission.accepting)
  }

  lemma RestoreTurnOpens(s: App, outcome: Outcome, usable: bool, prepared: Option<nat>)
    requires Inv(s)
    ensures var after := RestoreTurn(s, outcome, usable, prepared);
            || GatesOnlyStop(s, after)
            || (s.restore.Marking? && !Doomed(s) && after.http.accepting && after.admission.accepting
                && after.http.bindings == s.http.bindings)
  {
    if s.restore.Marking? {
      ReopenCannotThrow(s);
      hide H.Inv, ShutdownInv, RetirementInv;
    } else {
      OnlyMarkingOpens(s, outcome, usable, prepared);
      hide RestoreTurn, Inv;
    }
  }

  lemma OnlyMarkingOpens(s: App, outcome: Outcome, usable: bool, prepared: Option<nat>)
    requires !s.restore.Marking?
    ensures GatesOnlyStop(s, RestoreTurn(s, outcome, usable, prepared))
  {
    hide Reopen, DrainsSettled;
  }

  /** A gate of the application reopens in one kind of turn only, and then both reopen and none refuses. */
  lemma BothGatesReopenTogether(s: App, e: Event)
    requires Inv(s) && !GatesOnlyStop(s, Step(s, e))
    ensures e.RestoreContinues? && s.restore.Marking? && !Doomed(s)
    ensures Step(s, e).http.accepting && Step(s, e).admission.accepting
    ensures Step(s, e).http.bindings == s.http.bindings && s.modules != s.restore.original
  {
    match e
    case RestoreContinues(outcome, usable, prepared) => RestoreTurnOpens(s, outcome, usable, prepared);
    case Peer(t) => H.TrafficFrame(s.http, t);
    case TransportDrains(l, clean, timedOut) => H.DrainTurnMovesOneLease(s.http, l, clean, timedOut);
    case _ =>
  }

  lemma DoomedStep(s: App, e: Event)
    requires Inv(s) && Doomed(s)
    ensures Doomed(Step(s, e)) && GatesOnlyStop(s, Step(s, e))
  {
    if !GatesOnlyStop(s, Step(s, e)) {
      BothGatesReopenTogether(s, e);
      assert false;
    }
  }

  /** Once restoring has failed or closing has begun, neither gate goes from stopped back to accepting. */
  lemma {:induction false} DoomedGatesStayStopped(s: App, events: seq<Event>)
    requires Inv(s) && Doomed(s)
    ensures Doomed(Run(s, events)) && GatesOnlyStop(s, Run(s, events))
    decreases |events|
  {
    if events != [] {
      StepKeeps(s, events[0]);
      DoomedStep(s, events[0]);
      DoomedGatesStayStopped(Step(s, events[0]), events[1..]);
    }
  }

  // ---------------------------------------------------------------- a late retirement failure

  /** Somebody is still going to stop the transport. */
  ghost predicate StopperPending(s: App) {
    || s.restore.Queued? || s.restore.AwaitListener?
    || exists m :: m in s.retirements && s.retirements[m].Suspending?
  }

  /** What a failed retirement is meant to achieve while the application is not closing. */
  ghost predicate Covered(s: App) {
    s.restoreFailed && s.shutdown.Running? && s.http.accepting ==> StopperPending(s)
  }

  /**
    The two turns that lose the stop. A retirement fails between the settlement of a restore and its callback,
    when that restore has reopened the gates or was refused before it stopped them. Or a restore is refused by
    the listener after a retirement has failed and left it to that restore to stop the transport.
   */
  predicate LosesTheStop(s: App, e: Event) {
    s.shutdown.Running? && s.http.accepting &&
    match e
    case RetirementContinues(m, ok) =>
      !ok && m in s.retirements && s.retirements[m].ClosingModules? && s.restore.Settled?
    case RestoreContinues(_, usable, _) =>
      s.restoreFailed && s.restore.AwaitListener? && !H.CanSuspend(s.http, Some(s.restore.owner), usable)
    case _ => false
  }

  lemma CoveredRetirement(s: App, m: nat, ok: bool)
    requires Inv(s) && Covered(s)
    ensures Covered(RetirementTurn(s, m, ok)) <==> !LosesTheStop(s, RetirementContinues(m, ok))
  {
    var after := RetirementTurn(s, m, ok);
    assert forall k | k in s.retirements && k != m && s.retirements[k].Suspending? ::
        k in after.retirements && after.retirements[k].Suspending?;
    if m in s.retirements && s.retirements[m].ClosingModules? && !ok && s.shutdown.Running? && !Restoring(s) {
      assert m in after.retirements && after.retirements[m].Suspending?;
    }
  }

  lemma CoveredRestore(s: App, outcome: Outcome, usable: bool, prepared: Option<nat>)
    requires Inv(s) && Covered(s)
    ensures Covered(RestoreTurn(s, outcome, usable, prepared))
       <==> !LosesTheStop(s, RestoreContinues(outcome, usable, prepared))
  {
    assert Restoring(s) ==> forall m | m in s.retirements :: s.retirements[m].ClosingModules?;
    if s.restore.AwaitListener? {
      assert RestoreTurn(s, outcome, usable, prepared) == SuspendForRestore(s, s.restore.owner, usable);
    } else {
      RestoreTurnOpens(s, outcome, usable, prepared);
    }
  }

  lemma CoveredOther(s: App, e: Event)
    requires Inv(s) && Covered(s) && !e.RetirementContinues? && !e.RestoreContinues?
    ensures Covered(Step(s, e))
  {
    var after := Step(s, e);
    assert forall k | k in s.retirements && s.retirements[k].Suspending? ::
        k in after.retirements && after.retirements[k].Suspending?;
    if e.Peer? {
      H.TrafficFrame(s.http, e.traffic);
    } else if e.TransportDrains? {
      H.DrainTurnMovesOneLease(s.http, e.lease, e.clean, e.timedOut);
    }
  }

  /** Exactly those two turns lose the stop; every other turn keeps it. */
  lemma StopIsLostExactlyWhen(s: App, e: Event)
    requires Inv(s) && Covered(s)
    ensures Covered(Step(s, e)) <==> !LosesTheStop(s, e)
  {
    match e
    case RetirementContinues(m, ok) => CoveredRetirement(s, m, ok);
    case RestoreContinues(outcome, usable, prepared) => CoveredRestore(s, outcome, usable, prepared);
    case _ => CoveredOther(s, e);
  }

  /** Once the stop is lost, nothing short of shutting the application down or another failure brings it back. */
  lemma {:induction false} LostStopStaysLost(s: App, events: seq<Event>)
    requires Inv(s) && !Covered(s) && s.retirements == map[] && s.restore.Idle?
    requires CloseCalled !in events
    ensures Run(s, events).http.accepting && Run(s, events).restoreFailed && Run(s, events).restore.Idle?
    ensures !Run(s, events).admission.accepting
    decreases |events|
  {
    if events != [] {
      var e := events[0];
      if e.Peer? {
        H.TrafficFrame(s.http, e.traffic);
      } else if e.TransportDrains? {
        H.DrainTurnMovesOneLease(s.http, e.lease, e.clean, e.timedOut);
      }
      StepKeeps(s, e);
      LostStopStaysLost(Step(s, e), events[1..]);
    }
  }

  // ---------------------------------------------------------------- runs that exist

  lemma {:induction false} RunConcat(s: App, first: seq<Event>, second: seq<Event>)
    ensures Run(s, first + second) == Run(Run(s, first), second)
    decreases |first|
  {
    if first == [] {
      assert first + second == second;
    } else {
      assert (first + second)[1..] == first[1..] + second;
      RunConcat(Step(s, first[0]), first[1..], second);
    }
  }

  /** The restore task continues and what it awaited went well. */
  function Well(prepared: nat): Event {
    RestoreContinues(Fulfilled(true), true, Some(prepared))
  }

  function SuspendEvents(owner: nat, prepared: nat): seq<Event> {
    [RunCalled(owner), Well(prepared), Well(prepared), Well(prepared), Well(prepared), Well(prepared)]
  }

  function DrainEvents(lease: nat): seq<Event> {
    [TransportDrains(lease, true, false), TransportDrains(lease, true, false), TransportDrains(lease, true, false)]
  }

  function RebuildEvents(prepared: nat): seq<Event> {
    [Well(prepared), Well(prepared), Well(prepared), Well(prepared), Well(prepared), Well(prepared)]
  }

  /** Both gates are open, and a run that the request `owner` asks for would be accepted. */
  ghost predicate Ready(s: App, owner: nat) {
    && Inv(s) && s.restore.Idle? && !Doomed(s)
    && s.http.accepting && s.admission.accepting && owner in s.http.requests
  }

  /** The transport is suspended for its owner, everything has been asked to drain, the old modules have retired. */
  ghost predicate Asked(s: App, lease: nat, owner: nat, calls: set<nat>) {
    && s.restore == Draining(lease, s.modules, true, Some(calls), Some(true))
    && H.Current(s.http, lease)
    && s.http.leases[lease] == H.Lease(Some(owner), H.Scheduled, false, false, false, false)
    && !Doomed(s) && s.modules < s.installed
  }

  /** However much traffic and however many calls are under way, the restore gets as far as waiting for them. */
  lemma SuspendSegment(s: App, owner: nat, prepared: nat)
    requires Ready(s, owner)
    ensures var t := Run(s, SuspendEvents(owner, prepared));
            && Asked(t, |s.http.leases|, owner, s.admission.pending)
            && t.http == H.DrainCall(H.Suspend(s.http, Some(owner), true), |s.http.leases|)
            && t.admission == A.Step(s.admission, A.Pause)
            && t.retirements == s.retirements && t.installed == s.installed && t.modules == s.modules
  {
    var s3 := AcceptSegment(s, owner, prepared);
    var s6 := AskSegment(s3, |s.http.leases|, prepared);
    RunSix(s, SuspendEvents(owner, prepared));
    hide RestoreTurn, Run, Inv, RetirementTurn, ShutdownTurn, H.TrafficTurn, H.DrainTurn;
  }

  /** The run is accepted, starts and suspends the transport. */
  lemma AcceptSegment(s: App, owner: nat, prepared: nat) returns (t: App)
    requires Ready(s, owner)
    ensures t == Step(Step(Step(s, RunCalled(owner)), Well(prepared)), Well(prepared))
    ensures t == s.(http := H.Suspend(s.http, Some(owner), true), admission := A.Step(s.admission, A.Pause),
                    retired := s.retired + {s.modules},
                    restore := Draining(|s.http.leases|, s.modules, false, None, None))
  {
    var s1 := Step(s, RunCalled(owner));
    assert s1 == s.(restore := Queued(owner));
    var s2 := Step(s1, Well(prepared));
    assert s2 == s.(restore := AwaitListener(owner));
    t := Step(s2, Well(prepared));
  }

  /** The three drains are asked for, and the old modules retire. */
  lemma AskSegment(s: App, lease: nat, prepared: nat) returns (t: App)
    requires s.restore == Draining(lease, s.modules, false, None, None)
    ensures t == Step(Step(Step(s, Well(prepared)), Well(prepared)), Well(prepared))
    ensures t == s.(http := H.DrainCall(s.http, lease), quiescent := s.quiescent + {s.modules},
                    restore := Draining(lease, s.modules, true, Some(s.admission.pending), Some(true)))
  {
    var calls := Some(s.admission.pending);
    var s4 := Step(s, Well(prepared));
    assert s4 == s.(http := H.DrainCall(s.http, lease), restore := Draining(lease, s.modules, true, None, None));
    var s5 := Step(s4, Well(prepared));
    assert s5 == s4.(restore := Draining(lease, s.modules, true, calls, None));
    t := Step(s5, Well(prepared));
  }

  lemma RunSix(s: App, events: seq<Event>)
    requires |events| == 6
    ensures Run(s, events)
         == Step(Step(Step(Step(Step(Step(s, events[0]), events[1]), events[2]), events[3]), events[4]), events[5])
  {
    var s1 := Step(s, events[0]);
    var s2 := Step(s1, events[1]);
    var s3 := Step(s2, events[2]);
    calc {
      Run(s, events);
      Run(s1, events[1..]);
      { assert events[1..][1..] == events[2..]; }
      Run(s2, events[2..]);
      { assert events[2..][1..] == events[3..]; }
      Run(s3, events[3..]);
      { RunThree(s3, events[3..]); }
      Step(Step(Step(s3, events[3]), events[4]), events[5]);
    }
  }

  lemma RunThree(s: App, events: seq<Event>)
    requires |events| == 3
    ensures Run(s, events) == Step(Step(Step(s, events[0]), events[1]), events[2])
  {
    var s1 := Step(s, events[0]);
    var s2 := Step(s1, events[1]);
    assert events[1..][1..] == events[2..] && events[2..][1..] == [];
    assert Run(s, events) == Run(s1, events[1..]) == Run(s2, events[2..]);
    assert Run(s2, events[2..]) == Run(Step(s2, events[2]), []);
  }

  /** With nothing left but the owner's request, the drain is fulfilled: it does not wait for that request. */
  lemma DrainSegment(s: App, lease: nat, owner: nat)
    requires H.Current(s.http, lease)
    requires s.http.leases[lease] == H.Lease(Some(owner), H.Scheduled, false, false, false, false)
    requires H.Quiet(s.http, Some(owner))
    ensures Run(s, DrainEvents(lease)) == s.(http := H.WithLease(s.http, lease,
              H.Lease(Some(owner), H.Fulfilled, true, false, false, false)).(sockets := map[]))
  {
    var e := TransportDrains(lease, true, false);
    assert s.http.requests - {owner} == {};
    var s1 := Step(s, e);
    assert s1.http.leases[lease].drain == H.AwaitRequests({}, false);
    var s2 := Step(s1, e);
    assert s2.http.leases[lease].drain == H.Confirming(false);
    var s3 := Step(s2, e);
    assert s3.http.leases[lease].drain == H.Fulfilled;
    RunThree(s, DrainEvents(lease));
    hide RestoreTurn, RetirementTurn, ShutdownTurn, Run;
  }

  /** `apply` starts, succeeds, and new modules are installed. */
  lemma InstallSegment(s: App, lease: nat, calls: set<nat>, prepared: nat) returns (t: App)
    requires lease < |s.http.leases| && s.http.leases[lease].drain.Fulfilled? && calls !! s.admission.pending
    requires s.restore == Draining(lease, s.modules, true, Some(calls), Some(true))
    ensures Step(s, Well(prepared)).restore.Applying?
    ensures t == Step(Step(Step(s, Well(prepared)), Well(prepared)), Well(prepared))
    ensures t == s.(restore := Initializing(lease, s.modules), modules := s.installed, installed := s.installed + 1)
  {
    var s1 := Step(s, Well(prepared));
    assert s1 == s.(restore := Applying(lease, s.modules));
    var s2 := Step(s1, Well(prepared));
    assert s2 == s.(restore := Installing(lease, s.modules));
    t := Step(s2, Well(prepared));
  }

  lemma ReplaceSegment(s: App, lease: nat, owner: nat, original: nat, prepared: nat) returns (t: App)
    requires H.Current(s.http, lease)
    requires s.http.leases[lease] == H.Lease(Some(owner), H.Fulfilled, true, false, false, false)
    requires s.restore == Initializing(lease, original)
    ensures t == Step(Step(s, Well(prepared)), Well(prepared))
    ensures H.CanResume(t.http, lease) && t.http.bindings == prepared
    ensures t == s.(http := H.FinishReplace(H.BeginReplace(s.http, lease), lease, Some(prepared)),
                    restore := Marking(lease, original))
  {
    var s4 := Step(s, Well(prepared));
    assert s4 == s.(http := H.BeginReplace(s.http, lease), restore := Replacing(lease, original));
    t := Step(s4, Well(prepared));
  }

  lemma ResumeSegment(s: App, lease: nat, original: nat, prepared: nat)
    requires H.CanResume(s.http, lease) && s.admission.pending == {} && !Doomed(s)
    requires s.restore == Marking(lease, original)
    ensures Step(s, Well(prepared)) == s.(http := H.Resume(s.http, lease),
              admission := A.Step(s.admission, A.Resume), restore := Settled(Some(original)))
  {
  }

  /** A restore has reopened both gates under new bindings. */
  ghost predicate Reopened(t: App, original: nat, installed: nat, prepared: nat) {
    && t.restore == Settled(Some(original)) && t.modules == installed && !Doomed(t)
    && t.http.accepting && t.admission.accepting && t.http.bindings == prepared && t.admission.pending == {}
  }

  lemma RebuildSegment(s: App, lease: nat, owner: nat, calls: set<nat>, prepared: nat)
    requires H.Current(s.http, lease)
    requires s.http.leases[lease] == H.Lease(Some(owner), H.Fulfilled, true, false, false, false)
    requires s.restore == Draining(lease, s.modules, true, Some(calls), Some(true))
    requires s.admission.pending == {} && !Doomed(s) && s.modules < s.installed
    ensures Step(s, Well(prepared)).restore.Applying?
    ensures var t := Run(s, RebuildEvents(prepared));
            && Reopened(t, s.modules, s.installed, prepared) && t.installed == s.installed + 1
            && t.http.requests == s.http.requests && t.http.tasks == s.http.tasks && t.http.sockets == s.http.sockets
            && t.retirements == s.retirements && |t.http.leases| == |s.http.leases|
  {
    var s3 := InstallSegment(s, lease, calls, prepared);
    var s5 := ReplaceSegment(s3, lease, owner, s.modules, prepared);
    ResumeSegment(s5, lease, s.modules, prepared);
    RunSix(s, RebuildEvents(prepared));
    hide RestoreTurn, Step, Run;
  }

  /** From the moment everything has drained but the owner's request, the restore applies and reopens. */
  lemma ApplySegment(s: App, lease: nat, owner: nat, calls: set<nat>, prepared: nat)
    requires Asked(s, lease, owner, calls) && H.Quiet(s.http, Some(owner)) && s.admission.pending == {}
    ensures Step(Run(s, DrainEvents(lease)), Well(prepared)).restore.Applying?
    ensures var t := Run(s, DrainEvents(lease) + RebuildEvents(prepared));
            && Reopened(t, s.modules, s.installed, prepared) && t.installed == s.installed + 1
            && t.http.requests == s.http.requests && t.http.tasks == {} && t.http.sockets == map[]
            && t.retirements == s.retirements && |t.http.leases| == |s.http.leases|
  {
    hide Run, Step, RestoreTurn;
    DrainSegment(s, lease, owner);
    RebuildSegment(Run(s, DrainEvents(lease)), lease, owner, calls, prepared);
    RunConcat(s, DrainEvents(lease), RebuildEvents(prepared));
  }

  /** The events of one undisturbed restore, up to the settlement of its promise. */
  function UndisturbedRestore(owner: nat, lease: nat, prepared: nat): seq<Event> {
    SuspendEvents(owner, prepared) + (DrainEvents(lease) + RebuildEvents(prepared))
  }

  /** Both gates are open and nothing is under way but the request `owner`. */
  ghost predicate Resting(s: App, owner: nat) {
    Ready(s, owner) && H.Quiet(s.http, Some(owner)) && s.admission.pending == {}
  }

  /** While nothing but its own request is under way, a restore applies, reopens both gates and can be repeated. */
  lemma UndisturbedRestoreCompletes(s: App, owner: nat, prepared: nat)
    requires Resting(s, owner)
    ensures var t := Run(s, UndisturbedRestore(owner, |s.http.leases|, prepared));
            && Reopened(t, s.modules, s.installed, prepared) && t.installed == s.installed + 1
            && t.http.requests == {owner} && t.http.tasks == {} && t.http.sockets == map[]
            && t.retirements == s.retirements && |t.http.leases| == |s.http.leases| + 1
            && Inv(t) && Resting(RestoreSettled(t), owner)
  {
    hide Run, Step, RestoreTurn;
    var lease := |s.http.leases|;
    SuspendSegment(s, owner, prepared);
    var asked := Run(s, SuspendEvents(owner, prepared));
    SuspendedQuietly(s, owner);
    ApplySegment(asked, lease, owner, {}, prepared);
    RunConcat(s, SuspendEvents(owner, prepared), DrainEvents(lease) + RebuildEvents(prepared));
    RunKeeps(s, UndisturbedRestore(owner, lease, prepared));
    RestoreSettledKeeps(Run(s, UndisturbedRestore(owner, lease, prepared)));
  }

  lemma SuspendedQuietly(s: App, owner: nat)
    requires Resting(s, owner)
    ensures var h := H.DrainCall(H.Suspend(s.http, Some(owner), true), |s.http.leases|);
      H.Quiet(h, Some(owner)) && h.requests == {owner} && |h.leases| == |s.http.leases| + 1
  {
  }

  /** A first restore, asked for by request 7; when it has settled, request 8 arrives. */
  function FirstRestore(): seq<Event> {
    [Peer(H.RequestArrives(7))] + UndisturbedRestore(7, 0, 1)
    + [RestoreSettles, Peer(H.RequestSettles(7)), Peer(H.RequestArrives(8))]
  }

  lemma FirstRestoreRests() returns (between: App)
    ensures between == Run(STARTED, FirstRestore()) && Resting(between, 8)
    ensures between.retirements == map[0 := ClosingModules] && between.modules == 1 && |between.http.leases| == 1
  {
    StartedInv();
    var arrived := Step(STARTED, Peer(H.RequestArrives(7)));
    StepKeeps(STARTED, Peer(H.RequestArrives(7)));
    assert Run(STARTED, [Peer(H.RequestArrives(7))]) == Run(arrived, []) == arrived;
    UndisturbedRestoreCompletes(arrived, 7, 1);
    var restored := Run(arrived, UndisturbedRestore(7, 0, 1));
    between := NextRequest(restored, 0, 7, 8);
    RunConcat(STARTED, [Peer(H.RequestArrives(7))], UndisturbedRestore(7, 0, 1));
    RunConcat(STARTED, [Peer(H.RequestArrives(7))] + UndisturbedRestore(7, 0, 1),
              [RestoreSettles, Peer(H.RequestSettles(7)), Peer(H.RequestArrives(8))]);
  }

  /** Once the restore has settled and its request too, the next request finds the application resting. */
  lemma NextRequest(s: App, original: nat, owner: nat, next: nat) returns (t: App)
    requires Inv(s) && Resting(RestoreSettled(s), owner) && s.restore == Settled(Some(original))
    ensures t == Run(s, [RestoreSettles, Peer(H.RequestSettles(owner)), Peer(H.RequestArrives(next))])
    ensures Resting(t, next) && t.retirements == s.retirements[original := ClosingModules]
    ensures t.modules == s.modules && t.http.leases == s.http.leases
  {
    var events := [RestoreSettles, Peer(H.RequestSettles(owner)), Peer(H.RequestArrives(next))];
    RunThree(s, events);
    StepKeeps(s, events[0]);
    var settled := Step(s, events[0]);
    StepKeeps(settled, events[1]);
    StepKeeps(Step(settled, events[1]), events[2]);
    t := Step(Step(settled, events[1]), events[2]);
  }

  /**
    Two restores; the retirement of the first fails just after the second has reopened the gates, then the
    second settles and its own retirement succeeds.
   */
  function LateFailure(): seq<Event> {
    FirstRestore() + UndisturbedRestore(8, 1, 2)
    + [RetirementContinues(0, false), RestoreSettles, RetirementContinues(1, true)]
  }

  /**
    Two restores; the retirement of the first fails while the second has been accepted but has not suspended
    the transport yet, and the transport then refuses to suspend because the connection of its request is gone.
   */
  function RefusedRestore(): seq<Event> {
    FirstRestore()
    + ([RunCalled(8), Well(2), RetirementContinues(0, false)]
       + [RestoreContinues(Fulfilled(true), false, None), RestoreSettles])
  }

  /** Restoring has failed and the calls are stopped, yet HTTP accepts and nothing is left that would stop it. */
  ghost predicate StopIsLost(s: App) {
    && Inv(s) && s.restoreFailed && s.shutdown.Running? && s.http.accepting && !s.admission.accepting
    && !Covered(s) && s.restore.Idle? && s.retirements == map[]
  }

  /** The loss is real after a late failure, and LostStopStaysLost applies to the state it ends in. */
  lemma LateFailureLosesTheStop()
    ensures StopIsLost(Run(STARTED, LateFailure()))
  {
    var between := FirstRestoreRests();
    UndisturbedRestoreCompletes(between, 8, 2);
    var second := Run(between, UndisturbedRestore(8, 1, 2));
    var tail := [RetirementContinues(0, false), RestoreSettles, RetirementContinues(1, true)];
    RunConcat(STARTED, FirstRestore(), UndisturbedRestore(8, 1, 2));
    RunConcat(STARTED, FirstRestore() + UndisturbedRestore(8, 1, 2), tail);
    LateFailureEnds(second);
  }

  lemma LateFailureEnds(second: App)
    requires Inv(second) && Reopened(second, 1, second.modules, 2) && second.retirements == map[0 := ClosingModules]
    ensures StopIsLost(Run(second, [RetirementContinues(0, false), RestoreSettles, RetirementContinues(1, true)]))
  {
    var tail := [RetirementContinues(0, false), RestoreSettles, RetirementContinues(1, true)];
    RunThree(second, tail);
    assert Covered(second) && LosesTheStop(second, tail[0]);
    StopIsLostExactlyWhen(second, tail[0]);
    var lost := Step(second, tail[0]);
    assert lost.retirements == map[];
    RunKeeps(second, tail);
    assert Step(lost, tail[1]).retirements == map[1 := ClosingModules];
    hide Inv, Run, RestoreTurn, ShutdownTurn;
  }

  /** So it is after a refused restore. */
  lemma RefusedRestoreLosesTheStop()
    ensures StopIsLost(Run(STARTED, RefusedRestore()))
  {
    var between := FirstRestoreRests();
    var fails := [RunCalled(8), Well(2), RetirementContinues(0, false)];
    var ends := [RestoreContinues(Fulfilled(true), false, None), RestoreSettles];
    RunConcat(STARTED, FirstRestore(), fails + ends);
    RunConcat(between, fails, ends);
    var failed := FailsBeforeSuspending(between);
    RefusalEnds(failed);
  }

  lemma FailsBeforeSuspending(between: App) returns (failed: App)
    requires Resting(between, 8) && between.retirements == map[0 := ClosingModules]
    ensures failed == Run(between, [RunCalled(8), Well(2), RetirementContinues(0, false)])
    ensures Inv(failed) && failed.restore == AwaitListener(8) && failed.restoreFailed && failed.retirements == map[]
    ensures failed.http == between.http && failed.shutdown.Running?
  {
    var events := [RunCalled(8), Well(2), RetirementContinues(0, false)];
    RunThree(between, events);
    RunKeeps(between, events);
    failed := Run(between, events);
    var s2 := Step(Step(between, events[0]), events[1]);
    assert s2 == between.(restore := AwaitListener(8));
  }

  lemma RefusalEnds(failed: App)
    requires Inv(failed) && failed.restore == AwaitListener(8) && failed.restoreFailed && failed.retirements == map[]
    requires failed.http.accepting && failed.shutdown.Running?
    ensures StopIsLost(Run(failed, [RestoreContinues(Fulfilled(true), false, None), RestoreSettles]))
  {
    var refused := RestoreContinues(Fulfilled(true), false, None);
    assert Covered(failed) && LosesTheStop(failed, refused);
    var s1 := Step(failed, refused);
    assert s1 == failed.(restore := Settled(None));
    var s2 := Step(s1, RestoreSettles);
    assert [refused, RestoreSettles][1..] == [RestoreSettles] && [RestoreSettles][1..] == [];
    assert Run(failed, [refused, RestoreSettles]) == Run(s1, [RestoreSettles]) == Run(s2, []) == s2;
    StepKeeps(failed, refused);
    StepKeeps(s1, RestoreSettles);
  }

  // ---------------------------------------------------------------- the object

  /** The closure of the application lifecycle over its listener and its admission gate. */
  class Lifecycle {
    const listener: H.HttpListener
    const gate: A.CallAdmission
    var modules: nat
    var installed: nat
    var restore: Restore
    var restoreFailed: bool
    var retirements: map<nat, Retirement>
    var retired: set<nat>
    ghost var quiescent: set<nat>
    var shutdown: Shutdown

    ghost function View(): App
      reads this, listener, gate
    {
      App(listener.View(), gate.View(), modules, installed, restore, restoreFailed, retirements, retired,
          quiescent, shutdown)
    }

    constructor (listener: H.HttpListener, gate: A.CallAdmission)
      requires listener.View() == H.Opened(0) && gate.View() == A.OPEN
      ensures this.listener == listener && this.gate == gate && View() == STARTED
    {
      this.listener, this.gate := listener, gate;
      modules, installed := 0, 1;
      restore, restoreFailed := Idle, false;
      retirements, retired, quiescent := map[], {}, {};
      shutdown := Running;
    }

    /** maintenance.run: a run that is not accepted is rejected as unavailable. */
    method RunMaintenance(owner: nat) returns (accepted: bool)
      modifies this
      ensures accepted <==> RunAccepted(old(View()))
      ensures View() == Step(old(View()), RunCalled(owner))
    {
      if !shutdown.Running? || !restore.Idle? || restoreFailed {
        return false;
      }
      restore := Queued(owner);
      return true;
    }

    method FailRestore(original: nat)
      modifies this
      ensures View() == Fail(old(View()), original)
    {
      restoreFailed := true;
      restore := if modules != original then CleaningUp(original) else Settled(Some(original));
    }

    method SuspendOwner(owner: nat, usable: bool)
      modifies this, listener, gate
      ensures View() == SuspendForRestore(old(View()), owner, usable)
    {
      var lease := listener.SuspendTransport(Some(owner), usable);
      if lease.Err? {
        restore := Settled(None);
        return;
      }
      gate.PauseCalls();
      retired := retired + {modules};
      restore := Draining(lease.value, modules, false, None, None);
    }

    /** The part of the restore task between suspending the transport and calling `apply`. */
    method DrainOwners(outcome: Outcome, ghost usable: bool, ghost prepared: Option<nat>)
      requires restore.Draining?
      modifies this, listener
      ensures View() == RestoreTurn(old(View()), outcome, usable, prepared)
    {
      var lease, original := restore.lease, restore.original;
      if !restore.asked {
        listener.DrainLease(lease);
        restore := restore.(asked := true);
      } else if restore.calls.None? {
        restore := restore.(calls := Some(gate.pending));
      } else if restore.retired.None? {
        restore := restore.(retired := Some(outcome.Fulfilled?));
        if outcome.Fulfilled? {
          quiescent := quiescent + {original};
        }
      } else if lease < |listener.leases| && restore.calls.value !! gate.pending {
        var drain := listener.leases[lease].drain;
        if drain.Rejected? || (drain.Fulfilled? && !restore.retired.value) {
          FailRestore(original);
        } else if drain.Fulfilled? {
          restore := Applying(lease, original);
        }
      }
    }

    /** The part of the restore task around `apply` and the installation of new modules. */
    method ApplyAndInstall(outcome: Outcome, ghost usable: bool, ghost prepared: Option<nat>)
      requires restore.Applying? || restore.Installing?
      modifies this
      ensures View() == RestoreTurn(old(View()), outcome, usable, prepared)
    {
      var lease, original := restore.lease, restore.original;
      if outcome.Thrown? {
        FailRestore(original);
      } else if restore.Installing? {
        modules, installed := installed, installed + 1;
        restore := Initializing(lease, original);
      } else if outcome.confirmed {
        restore := Installing(lease, original);
      } else {
        restoreFailed := true;
        restore := Settled(Some(original));
      }
    }

    /** The new modules are initialized: the listener starts to compile their bindings. */
    method BeginReplacement(outcome: Outcome, ghost usable: bool, ghost prepared: Option<nat>)
      requires restore.Initializing?
      modifies this, listener
      ensures View() == RestoreTurn(old(View()), outcome, usable, prepared)
    {
      var lease, original := restore.lease, restore.original;
      var begun := false;
      if outcome.Fulfilled? {
        begun := listener.ReplaceBindings(lease);
      }
      if begun {
        restore := Replacing(lease, original);
      } else {
        FailRestore(original);
      }
    }

    /** The compilation has settled: the new bindings land, or the restore fails. */
    method FinishReplacement(ghost outcome: Outcome, ghost usable: bool, prepared: Option<nat>)
      requires restore.Replacing?
      modifies this, listener
      ensures View() == RestoreTurn(old(View()), outcome, usable, prepared)
    {
      var lease, original := restore.lease, restore.original;
      var landed := false;
      if lease < |listener.leases| {
        landed := listener.LandBindings(lease, prepared);
      }
      if landed {
        restore := Marking(lease, original);
      } else {
        FailRestore(original);
      }
    }

    /** The last turn: the gates reopen unless closing has begun or a retirement has failed meanwhile. */
    method ReopenGates(outcome: Outcome, ghost usable: bool, ghost prepared: Option<nat>)
      requires restore.Marking?
      modifies this, listener, gate
      ensures View() == RestoreTurn(old(View()), outcome, usable, prepared)
    {
      var lease, original := restore.lease, restore.original;
      if outcome.Thrown? {
        FailRestore(original);
        return;
      }
      if !shutdown.Running? || restoreFailed {
        restore := Settled(Some(original));
        return;
      }
      var resumed := listener.ResumeTransport(lease);
      if !resumed {
        FailRestore(original);
        return;
      }
      var reopened := gate.ResumeCalls();
      if reopened {
        restore := Settled(Some(original));
      } else {
        FailRestore(original);
      }
    }

    method ContinueRestore(outcome: Outcome, usable: bool, prepared: Option<nat>)
      modifies this, listener, gate
      ensures View() == Step(old(View()), RestoreContinues(outcome, usable, prepared))
    {
      match restore
      case Queued(owner) => restore := if shutdown.Running? then AwaitListener(owner) else Settled(None);
      case AwaitListener(owner) => SuspendOwner(owner, usable);
      case Draining(_, _, _, _, _) =>
        hide RestoreTurn;
        DrainOwners(outcome, usable, prepared);
      case Applying(_, _) =>
        hide RestoreTurn;
        ApplyAndInstall(outcome, usable, prepared);
      case Installing(_, _) =>
        hide RestoreTurn;
        ApplyAndInstall(outcome, usable, prepared);
      case Initializing(_, _) =>
        hide RestoreTurn;
        BeginReplacement(outcome, usable, prepared);
      case Replacing(_, _) =>
        hide RestoreTurn;
        FinishReplacement(outcome, usable, prepared);
      case Marking(_, _) =>
        hide RestoreTurn;
        ReopenGates(outcome, usable, prepared);
      case CleaningUp(original) => restore := Settled(Some(original));
      case _ =>
    }

    method SettleRestore()
      modifies this
      ensures View() == Step(old(View()), RestoreSettles)
    {
      if restore.Settled? {
        var previous := restore.previous;
        restore := Idle;
        if previous.Some? {
          retirements := retirements[previous.value := ClosingModules];
        }
      }
    }

    method ContinueRetirement(m: nat, ok: bool)
      requires m in retirements
      modifies this, listener, gate
      ensures View() == Step(old(View()), RetirementContinues(m, ok))
    {
      match retirements[m]
      case ClosingModules =>
        if ok {
          retirements := retirements - {m};
          retired := retired - {m};
          return;
        }
        restoreFailed := true;
        gate.PauseCalls();
        if shutdown.Running? && restore.Idle? {
          retirements := retirements[m := Suspending];
        } else {
          retirements := retirements - {m};
        }
      case Suspending =>
        var lease := listener.SuspendTransport(None, true);
        if lease.Ok? {
          listener.DrainLease(lease.value);
          retirements := retirements[m := DrainingTransport(lease.value)];
        } else {
          retirements := retirements - {m};
        }
      case DrainingTransport(lease) =>
        if lease < |listener.leases| {
          var drain := listener.leases[lease].drain;
          if drain.Fulfilled? || drain.Rejected? {
            retirements := retirements - {m};
          }
        }
    }

    method Close()
      modifies this
      ensures View() == Step(old(View()), CloseCalled)
    {
      if shutdown.Running? {
        shutdown := Requested;
      }
    }

    method ContinueShutdown()
      modifies this, listener, gate
      ensures View() == Step(old(View()), ShutdownContinues)
    {
      match shutdown
      case Requested =>
        gate.PauseCalls();
        shutdown := if restore.Idle? then AwaitCalls(gate.pending) else AwaitRestore;
      case AwaitRestore =>
        if restore.Idle? {
          shutdown := AwaitCalls(gate.pending);
        }
      case AwaitCalls(waiting) =>
        if waiting !! gate.pending {
          shutdown := AwaitRetirements(retirements.Keys);
        }
      case AwaitRetirements(waiting) =>
        if waiting !! retirements.Keys {
          shutdown := ClosingRetired;
        }
      case ClosingRetired => shutdown := ClosingResources(false, false);
      case ClosingResources(asked, modulesClosed) =>
        if !asked {
          listener.Close();
          shutdown := ClosingResources(true, modulesClosed);
        } else if !modulesClosed {
          shutdown := ClosingResources(true, true);
        } else if listener.closing.Closed? {
          shutdown := ClosingDatabase;
        }
      case ClosingDatabase => shutdown := Down;
      case _ =>
    }
  }
}
