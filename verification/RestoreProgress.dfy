/**
  A restore can complete: from every reachable state in which a request may ask for one, whatever else is
  under way, some continuation in which that request stays unsettled runs `apply` and reopens both gates.
 */
module RestoreProgress {
  import opened Results
  import A = CallAdmissions
  import H = HttpListeners
  import opened Lifecycles
  import opened TrafficSettling

  /** Between restores both gates are open, unless restoring has failed or closing has begun. */
  predicate OpenUnlessDoomed(s: App) {
    !Doomed(s) && (s.restore.Idle? || s.restore.Queued? || s.restore.AwaitListener? || s.restore.Settled?) ==>
      s.http.accepting && s.admission.accepting
  }

  lemma OpenUnlessDoomedStep(s: App, e: Event)
    requires Inv(s) && OpenUnlessDoomed(s)
    ensures OpenUnlessDoomed(Step(s, e))
  {
    match e
    case RestoreContinues(outcome, usable, prepared) =>
      OpenAfterRestoreTurn(s, outcome, usable, prepared);
      hide RestoreTurn, Inv;
    case Peer(t) =>
      H.TrafficFrame(s.http, t);
      hide H.TrafficTurn;
    case TransportDrains(l, clean, timedOut) => H.DrainTurnMovesOneLease(s.http, l, clean, timedOut);
    case _ => hide H.DrainTurn, H.TrafficTurn, RestoreTurn;
  }

  lemma OpenAfterRestoreTurn(s: App, outcome: Outcome, usable: bool, prepared: Option<nat>)
    requires Inv(s) && OpenUnlessDoomed(s)
    ensures OpenUnlessDoomed(RestoreTurn(s, outcome, usable, prepared))
  {
    hide H.ServingInv, H.LeaseInv, H.ClosingInv, H.DrainCall, H.BeginReplace, ShutdownInv, RetirementInv;
    hide DrainsSettled;
  }

  lemma {:induction false} OpenUnlessDoomedInEveryRun(s: App, events: seq<Event>)
    requires Inv(s) && OpenUnlessDoomed(s)
    ensures Inv(Run(s, events)) && OpenUnlessDoomed(Run(s, events))
    decreases |events|
  {
    if events != [] {
      StepKeeps(s, events[0]);
      OpenUnlessDoomedStep(s, events[0]);
      OpenUnlessDoomedInEveryRun(Step(s, events[0]), events[1..]);
    }
  }

  /** Settling the traffic takes nothing from what has been asked for. */
  lemma AskedStays(s: App, t: App, lease: nat, owner: nat, calls: set<nat>)
    requires Asked(s, lease, owner, calls) && SameButTraffic(s, t)
    ensures Asked(t, lease, owner, calls) && t.modules == s.modules && t.installed == s.installed
  {
  }

  /** `traffic` is all that has to happen besides: everything but the owner's request settles. */
  lemma RestoreCanComplete(events: seq<Event>, owner: nat, prepared: nat) returns (traffic: seq<Event>)
    requires RunAccepted(Run(STARTED, events)) && owner in Run(STARTED, events).http.requests
    ensures forall e | e in traffic :: Settling(e, Some(owner))
    ensures var s := Run(STARTED, events);
      var lease := |s.http.leases|;
      var asked := Run(Run(s, SuspendEvents(owner, prepared)), traffic);
      var t := Run(asked, DrainEvents(lease) + RebuildEvents(prepared));
      && Step(Run(asked, DrainEvents(lease)), Well(prepared)).restore.Applying?
      && Reopened(t, s.modules, s.installed, prepared)
      && t.http.requests == {owner}
  {
    StartedInv();
    OpenUnlessDoomedInEveryRun(STARTED, events);
    traffic := CompleteFrom(Run(STARTED, events), owner, prepared);
  }

  lemma CompleteFrom(s: App, owner: nat, prepared: nat) returns (traffic: seq<Event>)
    requires Ready(s, owner)
    ensures forall e | e in traffic :: Settling(e, Some(owner))
    ensures var lease := |s.http.leases|;
      var asked := Run(Run(s, SuspendEvents(owner, prepared)), traffic);
      var t := Run(asked, DrainEvents(lease) + RebuildEvents(prepared));
      && Step(Run(asked, DrainEvents(lease)), Well(prepared)).restore.Applying?
      && Reopened(t, s.modules, s.installed, prepared)
      && t.http.requests == {owner}
  {
    var lease := |s.http.leases|;
    SuspendSegment(s, owner, prepared);
    RunKeeps(s, SuspendEvents(owner, prepared));
    var suspended := Run(s, SuspendEvents(owner, prepared));
    assert suspended.http.requests == s.http.requests;
    hide Run, Step, Settling, Inv;
    traffic := SettleTraffic(suspended, Some(owner));
    OwnerStays(suspended, owner, traffic);
    var asked := Run(suspended, traffic);
    AskedStays(suspended, asked, lease, owner, s.admission.pending);
    ApplySegment(asked, lease, owner, s.admission.pending, prepared);
    OnlyTheOwner(asked, owner);
  }

  lemma OnlyTheOwner(s: App, owner: nat)
    requires Still(s, Some(owner)) && owner in s.http.requests
    ensures s.http.requests == {owner}
  {
  }
}
