/**
  No generation of modules is forgotten: each one that was ever installed is the current one, is kept among
  the retired ones that the shutdown closes, or has been closed by its retirement.
 */
module Generations {
  import opened Results
  import H = HttpListeners
  import opened Lifecycles

  /** Is the current generation among the retired ones already, because a restore is about to replace it? */
  predicate AboutToReplace(s: App) {
    s.restore.Draining? || s.restore.Applying? || s.restore.Installing?
  }

  /** The generation that the restore under way has replaced or is about to replace. */
  function Replaced(s: App): Option<nat> {
    match s.restore
    case Draining(_, original, _, _, _) => Some(original)
    case Applying(_, original) => Some(original)
    case Installing(_, original) => Some(original)
    case Initializing(_, original) => Some(original)
    case Replacing(_, original) => Some(original)
    case Marking(_, original) => Some(original)
    case CleaningUp(original) => Some(original)
    case Settled(previous) => previous
    case _ => None
  }

  /** `closed` holds the generations whose retirement has closed them. */
  ghost predicate Accounted(s: App, closed: set<nat>) {
    && s.modules < s.installed
    && (forall m: nat | m < s.installed :: m == s.modules || m in s.retired || m in closed)
    && (forall m | m in s.retirements :: m < s.installed)
    && (AboutToReplace(s) ==> s.modules in s.retired)
    && (Replaced(s).Some? ==> Replaced(s).value < s.installed)
    && (!Over(s) ==>
          && s.modules !in s.retirements
          && (s.restore.Settled? ==> s.restore.previous != Some(s.modules)))
  }

  /** The generation that a retirement closes in one event. */
  function ClosedBy(s: App, e: Event): set<nat> {
    if e.RetirementContinues? && e.ok && e.generation in s.retirements && s.retirements[e.generation].ClosingModules?
    then {e.generation}
    else {}
  }

  function ClosedIn(s: App, events: seq<Event>): set<nat>
    decreases |events|
  {
    if events == [] then {} else ClosedBy(s, events[0]) + ClosedIn(Step(s, events[0]), events[1..])
  }

  predicate BeforeApply(s: App) {
    s.restore.Queued? || s.restore.AwaitListener? || s.restore.Draining?
  }

  lemma RestoreAccounts(s: App, outcome: Outcome, usable: bool, prepared: Option<nat>, closed: set<nat>)
    requires Inv(s) && Accounted(s, closed)
    ensures Accounted(RestoreTurn(s, outcome, usable, prepared), closed)
  {
    hide *;
    if BeforeApply(s) {
      EarlyTurnAccounts(s, outcome, usable, prepared, closed);
    } else {
      LateTurnAccounts(s, outcome, usable, prepared, closed);
    }
  }

  lemma EarlyTurnAccounts(s: App, outcome: Outcome, usable: bool, prepared: Option<nat>, closed: set<nat>)
    requires Inv(s) && Accounted(s, closed) && BeforeApply(s)
    ensures Accounted(RestoreTurn(s, outcome, usable, prepared), closed)
  {
    hide H.Inv, H.Suspend, H.DrainCall, H.CanSuspend, H.Current, Drained, HoldsLease, DrainsSettled, ShutdownInv;
    hide RetirementInv, Reopen;
  }

  lemma LateTurnAccounts(s: App, outcome: Outcome, usable: bool, prepared: Option<nat>, closed: set<nat>)
    requires Inv(s) && Accounted(s, closed) && !BeforeApply(s)
    ensures Accounted(RestoreTurn(s, outcome, usable, prepared), closed)
  {
    hide H.Inv, H.Suspend, H.DrainCall, H.BeginReplace, H.FinishReplace, H.ReplaceLands, H.Resume, H.CanResume;
    hide H.CanSuspend, H.CanBeginReplace, H.Current, Drained, HoldsLease, DrainsSettled, ShutdownInv, RetirementInv;
  }

  lemma RetirementAccounts(s: App, m: nat, ok: bool, closed: set<nat>)
    requires Inv(s) && Accounted(s, closed)
    ensures Accounted(RetirementTurn(s, m, ok), closed + ClosedBy(s, RetirementContinues(m, ok)))
  {
    hide H.Inv, H.DrainTurn, ShutdownInv;
  }

  lemma SettlementAccounts(s: App, closed: set<nat>)
    requires Inv(s) && Accounted(s, closed)
    ensures Accounted(RestoreSettled(s), closed)
  {
    hide H.Inv, ShutdownInv;
  }

  lemma OthersAccount(s: App, e: Event, closed: set<nat>)
    requires Inv(s) && Accounted(s, closed)
    requires !e.RestoreContinues? && !e.RetirementContinues? && !e.RestoreSettles?
    ensures Accounted(Step(s, e), closed)
  {
    hide H.Inv, H.DrainTurn, H.TrafficTurn, H.CloseTurn, ShutdownInv, RetirementInv, RestoreInv;
  }

  lemma AccountedStep(s: App, e: Event, closed: set<nat>)
    requires Inv(s) && Accounted(s, closed)
    ensures Accounted(Step(s, e), closed + ClosedBy(s, e))
  {
    assert !e.RetirementContinues? ==> closed + ClosedBy(s, e) == closed;
    match e
    case RestoreContinues(outcome, usable, prepared) => RestoreAccounts(s, outcome, usable, prepared, closed);
    case RetirementContinues(m, ok) => RetirementAccounts(s, m, ok, closed);
    case RestoreSettles => SettlementAccounts(s, closed);
    case _ => OthersAccount(s, e, closed);
    hide Accounted, Inv, RestoreTurn, RetirementTurn, ShutdownTurn, RestoreSettled;
  }

  lemma {:induction false} AccountedInEveryRun(s: App, events: seq<Event>, closed: set<nat>)
    requires Inv(s) && Accounted(s, closed)
    ensures Accounted(Run(s, events), closed + ClosedIn(s, events))
    decreases |events|
  {
    if events == [] {
      assert closed + {} == closed;
    } else {
      var e := events[0];
      StepKeeps(s, e);
      AccountedStep(s, e, closed);
      hide Inv, Accounted, Step;
      AccountedInEveryRun(Step(s, e), events[1..], closed + ClosedBy(s, e));
      var rest := ClosedIn(Step(s, e), events[1..]);
      assert closed + (ClosedBy(s, e) + rest) == closed + ClosedBy(s, e) + rest;
    }
  }

  /**
    In every run each installed generation is the current one, is among the retired ones, or has been closed
    by its retirement. When the shutdown closes the retired ones, no retirement is under way any more, so it
    closes every replaced generation that has not been closed before.
   */
  lemma NoGenerationIsForgotten(events: seq<Event>)
    ensures var s := Run(STARTED, events);
      && (forall m: nat | m < s.installed :: m == s.modules || m in s.retired || m in ClosedIn(STARTED, events))
      && (s.shutdown.ClosingRetired? ==> s.retirements == map[])
  {
    StartedInv();
    RunKeeps(STARTED, events);
    AccountedInEveryRun(STARTED, events, {});
    assert {} + ClosedIn(STARTED, events) == ClosedIn(STARTED, events);
  }
}
