/**
  The debounced saver against the history of a run: which values are accepted, which are discarded, when it
  comes to rest, and how each drain ends.
 */
module SaverHistories {
  import opened Results
  import opened LatestValueSavers

  lemma {:induction false} RunLast<T>(s: Saver<T>, events: seq<Event<T>>, e: Event<T>)
    ensures Run(s, events + [e]) == Step(Run(s, events), e)
    decreases |events|
  {
    if events == [] {
      assert [e][1..] == [];
    } else {
      assert (events + [e])[1..] == events[1..] + [e];
      RunLast(Step(s, events[0]), events[1..], e);
    }
  }

  // ---------------------------------------------------------------- what is accepted and what is discarded

  /** The values scheduled before the first dispose. */
  function ScheduledIn<T>(events: seq<Event<T>>): seq<T>
    decreases |events|
  {
    if events == [] || events[0].Dispose? then []
    else (if events[0].Schedule? then [events[0].value] else []) + ScheduledIn(events[1..])
  }

  lemma AcceptsInOneStep<T>(s: Saver<T>, e: Event<T>)
    ensures Step(s, e).disposed <==> s.disposed || e.Dispose?
    ensures Step(s, e).log.scheduled == s.log.scheduled + (if e.Schedule? && !s.disposed then [e.value] else [])
  {
  }

  /** In every run exactly the values scheduled before the first dispose are accepted, in order. */
  lemma {:induction false} AcceptsUntilDisposed<T>(s: Saver<T>, events: seq<Event<T>>)
    ensures Run(s, events).log.scheduled == s.log.scheduled + (if s.disposed then [] else ScheduledIn(events))
    decreases |events|
  {
    if events != [] {
      AcceptsInOneStep(s, events[0]);
      hide Step;
      AcceptsUntilDisposed(Step(s, events[0]), events[1..]);
    }
  }

  /** The event at `i` is the first dispose, asks for no flush and finds a value pending. */
  ghost predicate DiscardsAt<T(!new)>(events: seq<Event<T>>, i: nat) {
    && i < |events| && events[i] == Dispose(false)
    && !Run(Created(), events[..i]).disposed && Run(Created(), events[..i]).pending.Some?
  }

  lemma DiscardsInOneStep<T>(s: Saver<T>, e: Event<T>)
    ensures Step(s, e).log.discarded <==> s.log.discarded || (e == Dispose(false) && !s.disposed && s.pending.Some?)
  {
  }

  /**
    A value is discarded exactly by a first dispose that asks for no flush while the value is pending. So no
    run loses one whose disposes all flush.
   */
  lemma {:induction false} DiscardsExactlyWhen<T(!new)>(events: seq<Event<T>>)
    ensures Run(Created(), events).log.discarded <==> exists i: nat :: DiscardsAt(events, i)
    ensures Dispose(false) !in events ==> !Run(Created(), events).log.discarded
    decreases |events|
  {
    if events != [] {
      var n := |events| - 1;
      var init, e := events[..n], events[n];
      assert events == init + [e];
      RunLast(Created(), init, e);
      DiscardsExactlyWhen(init);
      DiscardsInOneStep(Run(Created(), init), e);
      hide Step, Run;
      assert forall i: nat | i < n :: events[..i] == init[..i] && events[i] == init[i];
      assert forall i: nat | i < n :: DiscardsAt(events, i) <==> DiscardsAt(init, i);
      assert events[..n] == init;
      if i: nat :| DiscardsAt(init, i) {
        assert i < n && DiscardsAt(events, i);
      }
      if e == Dispose(false) && !Run(Created(), init).disposed && Run(Created(), init).pending.Some? {
        assert DiscardsAt(events, n);
      }
    }
  }

  /** After a dispose that asks for no flush nothing is saved any more but what is being saved already. */
  lemma {:induction false} NothingIsSavedAfterADiscard<T>(s: Saver<T>, events: seq<Event<T>>)
    requires Inv(s) && s.disposed && s.pending.None?
    ensures Run(s, events).log.attempts == s.log.attempts && Run(s, events).pending.None?
    decreases |events|
  {
    if events != [] {
      StepKeeps(s, events[0]);
      NothingIsSavedAfterADiscard(Step(s, events[0]), events[1..]);
    }
  }

  /** A first dispose without a flush leaves nothing pending and waits exactly for the drain under way, if any. */
  lemma {:induction false} DisposeWaitsForTheDrain<T>(s: Saver<T>, events: seq<Event<T>>)
    requires Inv(s) && !s.disposed && s.drains.awaited.None?
    ensures var disposed := Step(s, Dispose(false));
      var t := Run(disposed, events);
      && disposed.disposed && disposed.pending.None? && disposed.log.attempts == s.log.attempts
      && (s.phase.Rest? ==> t.drains.awaited.None? && !t.reported)
      && (!s.phase.Rest? ==>
            && (t.drains.awaited.None? ==> s.drains.newest in t.drains.fulfilled)
            && (s.drains.newest in t.drains.fulfilled ==> Step(t, DisposeContinues).drains.awaited.None?))
  {
    var disposed := Step(s, Dispose(false));
    StepKeeps(s, Dispose(false));
    DisposedRun(disposed, s.drains.newest, events);
  }

  lemma {:induction false} DisposedRun<T>(s: Saver<T>, g: nat, events: seq<Event<T>>)
    requires Inv(s) && s.disposed && s.pending.None?
    requires s.drains.awaited.Some? ==> s.drains.awaited == Some(g)
    ensures var t := Run(s, events);
      && (t.drains.awaited.Some? ==> t.drains.awaited == s.drains.awaited)
      && (s.drains.awaited.Some? && t.drains.awaited.None? ==> g in t.drains.fulfilled)
      && (s.phase.Rest? ==> !t.reported)
    decreases |events|
  {
    if events != [] {
      var next := Step(s, events[0]);
      StepKeeps(s, events[0]);
      DisposedRun(next, g, events[1..]);
      if g in next.drains.fulfilled {
        FulfilledStays(next, g, events[1..]);
      }
    }
  }

  lemma {:induction false} FulfilledStays<T>(s: Saver<T>, g: nat, events: seq<Event<T>>)
    requires g in s.drains.fulfilled
    ensures g in Run(s, events).drains.fulfilled
    decreases |events|
  {
    if events != [] {
      FulfilledStays(Step(s, events[0]), g, events[1..]);
    }
  }

  // ---------------------------------------------------------------- coming to rest

  /** How many turns the saver needs to come to rest, if nothing more is scheduled. */
  function Turns<T>(s: Saver<T>): nat {
    (if s.pending.Some? then 3 else 0) + match s.phase
      case Rest => 0
      case Saving(_) => 2
      case Leaving(_) => 1
  }

  /** The turn that has to come next: the timer fires, the save settles somehow, or the drain finishes. */
  function NextTurn<T>(s: Saver<T>, ok: bool, reporterThrows: bool): Event<T> {
    match s.phase
    case Rest => TimerFires
    case Saving(_) => SaveSettles(ok, reporterThrows)
    case Leaving(_) => DrainFinishes
  }

  /** Every such turn brings it nearer to rest, whatever becomes of the save, and it is at rest only when done. */
  lemma EveryTurnIsProgress<T>(s: Saver<T>, ok: bool, reporterThrows: bool)
    requires Inv(s) && s.reported
    ensures Turns(Step(s, NextTurn(s, ok, reporterThrows))) < Turns(s)
  {
  }

  /**
    From every reachable state at most five such turns bring the saver to rest, whether its saves succeed or
    fail; then, unless a dispose discarded it, the last accepted value has been given to `save`.
   */
  lemma {:induction false} ComesToRest<T>(s: Saver<T>, ok: bool, reporterThrows: bool) returns (events: seq<Event<T>>)
    requires Inv(s)
    ensures |events| <= Turns(s) <= 5
    ensures forall e | e in events :: !e.Schedule? && !e.Dispose? && !e.Flush?
    ensures var t := Run(s, events);
      !t.reported && t.phase.Rest? && !t.timer && (!t.log.discarded ==> SavedUpTo(t.log) == |t.log.scheduled|)
    decreases Turns(s)
  {
    if !s.reported {
      return [];
    }
    var e := NextTurn(s, ok, reporterThrows);
    EveryTurnIsProgress(s, ok, reporterThrows);
    StepKeeps(s, e);
    assert !e.Schedule? && !e.Dispose? && !e.Flush?;
    hide Step, Inv, Turns, NextTurn, SavedUpTo;
    var rest := ComesToRest(Step(s, e), ok, reporterThrows);
    assert ([e] + rest)[1..] == rest;
    events := [e] + rest;
  }

  /** A flush, at rest, starts saving the newest value at once; while a drain runs it leaves the work to that. */
  lemma FlushStartsTheSave<T>(s: Saver<T>, e: Event<T>)
    requires Inv(s) && (e == Flush || (e == TimerFires && s.timer) || e == Dispose(true))
    ensures var t := Step(s, e);
      && !t.timer
      && (s.phase.Rest? && s.pending.Some? ==>
            && t.phase == Saving(|s.log.scheduled| - 1) && t.pending.None?
            && t.log.attempts == s.log.attempts + [|s.log.scheduled| - 1])
      && (!s.phase.Rest? ==> t.phase == s.phase && t.pending == s.pending && t.log == s.log)
  {
  }

  // ---------------------------------------------------------------- how drains end

  /** A save of drain `g` fails at `i`, and so does the reporting of its failure. */
  ghost predicate BreaksAt<T(!new)>(events: seq<Event<T>>, i: nat, g: nat) {
    && i < |events| && events[i] == SaveSettles(false, true)
    && Run(Created(), events[..i]).phase.Saving? && Run(Created(), events[..i]).drains.newest == g
  }

  predicate Broken<T>(s: Saver<T>, g: nat) {
    g in s.drains.rejected || (s.phase == Leaving(true) && g == s.drains.newest)
  }

  lemma BreaksInOneStep<T>(s: Saver<T>, e: Event<T>, g: nat)
    requires Inv(s)
    ensures Broken(Step(s, e), g)
       <==> Broken(s, g) || (e == SaveSettles(false, true) && s.phase.Saving? && s.drains.newest == g)
  {
  }

  /**
    Every drain but the one under way has ended; one is rejected exactly when a save of it failed and the
    reporter threw, and fulfilled otherwise.
   */
  lemma {:induction false} DrainsEndExactly<T(!new)>(events: seq<Event<T>>, g: nat)
    ensures var s := Run(Created(), events);
      && (Broken(s, g) <==> exists i: nat :: BreaksAt(events, i, g))
      && (0 < g < s.drains.newest || (0 < g == s.drains.newest && s.phase.Rest?) ==>
            if Broken(s, g) then g in s.drains.rejected && g !in s.drains.fulfilled
            else g in s.drains.fulfilled && g !in s.drains.rejected)
      && (g in s.drains.fulfilled + s.drains.rejected ==> 0 < g <= s.drains.newest)
    decreases |events|
  {
    if events != [] {
      var n := |events| - 1;
      var init, e := events[..n], events[n];
      assert events == init + [e];
      RunLast(Created(), init, e);
      CreatedInv<T>();
      RunKeeps(Created(), init);
      DrainsEndExactly(init, g);
      BreaksInOneStep(Run(Created(), init), e, g);
      EndsInOneStep(Run(Created(), init), e, g);
      hide Step, Run, Inv, Broken;
      BreaksGrow(init, e, g);
    }
  }

  ghost predicate EndedExactly<T>(s: Saver<T>, g: nat) {
    && (0 < g < s.drains.newest || (0 < g == s.drains.newest && s.phase.Rest?) ==>
          if Broken(s, g) then g in s.drains.rejected && g !in s.drains.fulfilled
          else g in s.drains.fulfilled && g !in s.drains.rejected)
    && (g in s.drains.fulfilled + s.drains.rejected ==> 0 < g <= s.drains.newest)
  }

  lemma EndsInOneStep<T>(s: Saver<T>, e: Event<T>, g: nat)
    requires Inv(s) && EndedExactly(s, g)
    ensures EndedExactly(Step(s, e), g)
  {
  }

  lemma BreaksGrow<T(!new)>(init: seq<Event<T>>, e: Event<T>, g: nat)
    ensures var s := Run(Created(), init);
      (exists i: nat :: BreaksAt(init + [e], i, g))
      <==> ((exists i: nat :: BreaksAt(init, i, g))
            || (e == SaveSettles(false, true) && s.phase.Saving? && s.drains.newest == g))
  {
    hide Run;
    var events, n := init + [e], |init|;
    assert forall i: nat | i < n :: events[..i] == init[..i] && events[i] == init[i];
    assert forall i: nat | i < n :: BreaksAt(events, i, g) <==> BreaksAt(init, i, g);
    assert events[..n] == init && events[n] == e;
    if i: nat :| BreaksAt(init, i, g) {
      assert i < n && BreaksAt(events, i, g);
    }
    if e == SaveSettles(false, true) && Run(Created(), init).phase.Saving? && Run(Created(), init).drains.newest == g {
      assert BreaksAt(events, n, g);
    }
  }
}
