/**
  The debounced saver of the newest value. Saves are identified by the index of the value they persist in
  the sequence of all accepted values, drains by their generation: the promise that `flush` hands out.

  One function is one turn. A drain that has left its loop but whose `finally` callback has not yet run is
  a phase of its own, because other turns can come in between.
 */
module LatestValueSavers {
  import opened Basics
  import opened Results

  datatype Phase =
    | Rest
    | Saving(index: nat)
    | Leaving(failed: bool)

  /** History: values accepted, saves started (by index), how many of them have settled, and discards. */
  datatype Log<T> = Log(scheduled: seq<T>, attempts: seq<nat>, settled: nat, discarded: bool)

  /** The drain promises: the newest one, how the earlier ones ended, and the one a dispose waits for. */
  datatype Drains = Drains(newest: nat, fulfilled: set<nat>, rejected: set<nat>, awaited: Option<nat>)

  datatype Saver<T> = Saver(timer: bool, pending: Option<T>, disposed: bool, phase: Phase,
                            reported: bool, log: Log<T>, drains: Drains)

  datatype Event<T> =
    | Schedule(value: T)
    | Flush
    | Dispose(flush: bool)
    | TimerFires
    | SaveSettles(ok: bool, reporterThrows: bool)
    | DrainFinishes
    | DisposeContinues

  function Created<T>(): Saver<T> {
    Saver(false, None, false, Rest, false, Log([], [], 0, false), Drains(0, {}, {}, None))
  }

  /** One pass of the drain loop up to its await: take the pending value and start saving it. */
  function Take<T>(s: Saver<T>): Saver<T> {
    var index := |s.log.scheduled| - 1;
    if index < 0 then s
    else s.(pending := None, phase := Saving(index), log := s.log.(attempts := s.log.attempts + [index]))
  }

  function Drain<T>(s: Saver<T>): Saver<T> {
    var cleared := s.(timer := false);
    if !s.phase.Rest? then cleared
    else if s.pending.None? then cleared.(reported := false)
    else Take(cleared.(drains := s.drains.(newest := s.drains.newest + 1)))
  }

  function ScheduleValue<T>(s: Saver<T>, value: T): Saver<T> {
    if s.disposed then s
    else s.(pending := Some(value), reported := true, timer := s.phase.Rest?,
            log := s.log.(scheduled := s.log.scheduled + [value]))
  }

  function DisposeSaver<T>(s: Saver<T>, flush: bool): Saver<T> {
    if s.disposed then (if flush then Drain(s) else s)
    else
      var stopped := s.(disposed := true, timer := false);
      if flush then Drain(stopped)
      else stopped.(pending := None, reported := if s.phase.Rest? then false else s.reported,
                    drains := if s.phase.Rest? then s.drains else s.drains.(awaited := Some(s.drains.newest)),
                    log := s.log.(discarded := s.log.discarded || s.pending.Some?))
  }

  /** A save has settled. The loop goes on unless the error reporter throws. */
  function Settle<T>(s: Saver<T>, ok: bool, reporterThrows: bool): Saver<T> {
    var settled := s.(log := s.log.(settled := |s.log.attempts|));
    if !ok && reporterThrows then settled.(phase := Leaving(true))
    else if s.pending.Some? then Take(settled)
    else settled.(phase := Leaving(false))
  }

  /** The `finally` callback of a drain, after which its promise is settled. */
  function Finish<T>(s: Saver<T>, failed: bool): Saver<T> {
    var g := s.drains.newest;
    var ended := s.(phase := Rest,
                    drains := if failed then s.drains.(rejected := s.drains.rejected + {g})
                              else s.drains.(fulfilled := s.drains.fulfilled + {g}));
    if s.pending.Some? then Drain(ended) else ended.(reported := false)
  }

  function Step<T>(s: Saver<T>, e: Event<T>): Saver<T> {
    match e
    case Schedule(value) => ScheduleValue(s, value)
    case Flush => Drain(s)
    case Dispose(flush) => DisposeSaver(s, flush)
    case TimerFires => if s.timer then Drain(s) else s
    case SaveSettles(ok, reporterThrows) => if s.phase.Saving? then Settle(s, ok, reporterThrows) else s
    case DrainFinishes => if s.phase.Leaving? then Finish(s, s.phase.failed) else s
    case DisposeContinues =>
      if s.drains.awaited.Some? && s.drains.awaited.value in s.drains.fulfilled
      then s.(reported := false, drains := s.drains.(awaited := None))
      else s
  }

  function Run<T>(s: Saver<T>, events: seq<Event<T>>): Saver<T>
    decreases |events|
  {
    if events == [] then s else Run(Step(s, events[0]), events[1..])
  }

  // ---------------------------------------------------------------- what every turn keeps

  /** How many of the accepted values are covered by saves that have settled. */
  function SavedUpTo<T>(log: Log<T>): nat {
    if 0 < log.settled <= |log.attempts| then log.attempts[log.settled - 1] + 1 else 0
  }

  ghost predicate LogInv<T>(s: Saver<T>) {
    && Increasing(s.log.attempts)
    && (forall i | 0 <= i < |s.log.attempts| :: s.log.attempts[i] < |s.log.scheduled|)
    && s.log.settled + (if s.phase.Saving? then 1 else 0) == |s.log.attempts|
    && (s.phase.Saving? ==> s.log.attempts[s.log.settled] == s.phase.index)
    && (s.pending.Some? ==>
          && 0 < |s.log.scheduled|
          && s.pending.value == s.log.scheduled[|s.log.scheduled| - 1]
          && (forall i | 0 <= i < |s.log.attempts| :: s.log.attempts[i] < |s.log.scheduled| - 1))
    && (s.pending.None? && !s.log.discarded && 0 < |s.log.scheduled| ==>
          && s.log.attempts != []
          && s.log.attempts[|s.log.attempts| - 1] == |s.log.scheduled| - 1)
  }

  ghost predicate FlagInv<T>(s: Saver<T>) {
    && (s.timer ==> s.phase.Rest? && s.pending.Some? && !s.disposed)
    && (s.pending.Some? ==> s.timer || !s.phase.Rest?)
    && (s.reported <==> s.pending.Some? || !s.phase.Rest?)
    && (s.log.discarded ==> s.disposed && s.pending.None?)
  }

  ghost predicate DrainInv<T>(s: Saver<T>) {
    && (forall g | g in s.drains.fulfilled + s.drains.rejected :: 0 < g <= s.drains.newest)
    && (!s.phase.Rest? ==> 0 < s.drains.newest && s.drains.newest !in s.drains.fulfilled + s.drains.rejected)
  }

  /** A dispose that discards waits for the running drain alone. */
  ghost predicate AwaitInv<T>(s: Saver<T>) {
    s.drains.awaited.Some? ==>
      s.disposed && s.pending.None? && (s.phase.Rest? || s.drains.awaited.value == s.drains.newest)
  }

  ghost predicate Inv<T>(s: Saver<T>) {
    AwaitInv(s) && LogInv(s) && FlagInv(s) && DrainInv(s)
  }

  lemma CreatedInv<T>()
    ensures Inv(Created<T>())
  {
  }

  lemma DrainKeeps<T>(s: Saver<T>)
    requires LogInv(s) && DrainInv(s) && AwaitInv(s)
    requires s.reported <==> s.pending.Some? || !s.phase.Rest?
    requires s.log.discarded ==> s.disposed && s.pending.None?
    ensures Inv(Drain(s))
  {
  }

  lemma ScheduleKeeps<T>(s: Saver<T>, value: T)
    requires Inv(s)
    ensures Inv(ScheduleValue(s, value))
  {
  }

  lemma DisposeKeeps<T>(s: Saver<T>, flush: bool)
    requires Inv(s)
    ensures Inv(DisposeSaver(s, flush))
  {
    if flush {
      DrainKeeps(s);
      DrainKeeps(s.(disposed := true, timer := false));
    }
  }

  lemma SettleKeeps<T>(s: Saver<T>, ok: bool, reporterThrows: bool)
    requires Inv(s) && s.phase.Saving?
    ensures Inv(Settle(s, ok, reporterThrows))
  {
  }

  lemma FinishKeeps<T>(s: Saver<T>, failed: bool)
    requires Inv(s) && s.phase.Leaving?
    ensures Inv(Finish(s, failed))
  {
    if s.pending.Some? {
      var g := s.drains.newest;
      DrainKeeps(s.(phase := Rest, drains := s.drains.(rejected := s.drains.rejected + {g})));
      DrainKeeps(s.(phase := Rest, drains := s.drains.(fulfilled := s.drains.fulfilled + {g})));
    }
  }

  lemma StepKeeps<T>(s: Saver<T>, e: Event<T>)
    requires Inv(s)
    ensures Inv(Step(s, e))
  {
    match e
    case Schedule(value) => ScheduleKeeps(s, value);
    case Flush => DrainKeeps(s);
    case Dispose(flush) => DisposeKeeps(s, flush);
    case TimerFires => DrainKeeps(s);
    case SaveSettles(ok, reporterThrows) =>
      if s.phase.Saving? {
        SettleKeeps(s, ok, reporterThrows);
      }
    case DrainFinishes =>
      if s.phase.Leaving? {
        FinishKeeps(s, s.phase.failed);
      }
    case DisposeContinues =>
  }

  lemma {:induction false} RunKeeps<T>(s: Saver<T>, events: seq<Event<T>>)
    requires Inv(s)
    ensures Inv(Run(s, events))
    decreases |events|
  {
    if events != [] {
      StepKeeps(s, events[0]);
      RunKeeps(Step(s, events[0]), events[1..]);
    }
  }

  // ---------------------------------------------------------------- theorems about runs

  /** `xs` can be read off `ys` from left to right, leaving some values out. */
  ghost predicate Subsequence<T>(xs: seq<T>, ys: seq<T>)
    decreases |ys|
  {
    if xs == [] then true
    else if ys == [] then false
    else
      var xs', ys' := xs[..|xs| - 1], ys[..|ys| - 1];
      (xs[|xs| - 1] == ys[|ys| - 1] && Subsequence(xs', ys')) || Subsequence(xs, ys')
  }

  function Values<T>(scheduled: seq<T>, indices: seq<nat>): (values: seq<T>)
    requires forall i | 0 <= i < |indices| :: indices[i] < |scheduled|
    ensures |values| == |indices|
    ensures forall i | 0 <= i < |indices| :: values[i] == scheduled[indices[i]]
  {
    seq(|indices|, i requires 0 <= i < |indices| => scheduled[indices[i]])
  }

  lemma {:induction false} IncreasingIndicesAreASubsequence<T>(ys: seq<T>, indices: seq<nat>)
    requires Increasing(indices)
    requires forall i | 0 <= i < |indices| :: indices[i] < |ys|
    ensures Subsequence(Values(ys, indices), ys)
    decreases |ys|
  {
    if indices != [] {
      var n := |indices| - 1;
      assert indices[n] < |ys|;
      var ys' := ys[..|ys| - 1];
      assert forall i | 0 <= i < n :: indices[i] < indices[n];
      if indices[n] == |ys| - 1 {
        IncreasingIndicesAreASubsequence(ys', indices[..n]);
        assert Values(ys, indices)[..n] == Values(ys', indices[..n]);
      } else {
        IncreasingIndicesAreASubsequence(ys', indices);
        assert Values(ys, indices) == Values(ys', indices);
      }
    }
  }

  /**
    In every run: at most one save is unsettled; the values given to `save` are an in-order subsequence of
    the accepted values; a pending value has an armed timer or a running drain; the reported flag is
    exactly "pending or running".
   */
  lemma SavesAreSerialAndInOrder<T>(events: seq<Event<T>>)
    ensures var s := Run(Created(), events);
            && s.log.settled <= |s.log.attempts| <= s.log.settled + 1
            && (|s.log.attempts| == s.log.settled + 1 <==> s.phase.Saving?)
            && (forall i | 0 <= i < |s.log.attempts| :: s.log.attempts[i] < |s.log.scheduled|)
            && Subsequence(Values(s.log.scheduled, s.log.attempts), s.log.scheduled)
            && (s.pending.Some? ==> s.timer || !s.phase.Rest?)
            && (s.reported <==> s.pending.Some? || !s.phase.Rest?)
  {
    CreatedInv<T>();
    RunKeeps(Created(), events);
    var s := Run(Created(), events);
    IncreasingIndicesAreASubsequence(s.log.scheduled, s.log.attempts);
  }

  /**
    Nothing is lost: when nothing is pending or running and no dispose has discarded a value, the last
    value given to `save` is the last value accepted, and its save has settled.
   */
  lemma QuiescentMeansSaved<T>(events: seq<Event<T>>)
    requires var s := Run(Created(), events); !s.reported && !s.log.discarded
    ensures var s := Run(Created(), events); SavedUpTo(s.log) == |s.log.scheduled|
  {
    CreatedInv<T>();
    RunKeeps(Created(), events);
  }

  // ---------------------------------------------------------------- what flush promises

  /** The promise a flush returns: None stands for one that is already fulfilled. */
  function FlushPromise<T>(s: Saver<T>): Option<nat> {
    if !s.phase.Rest? then Some(s.drains.newest)
    else if s.pending.Some? then Some(s.drains.newest + 1)
    else None
  }

  predicate Fulfilled<T>(s: Saver<T>, promise: Option<nat>) {
    promise.None? || promise.value in s.drains.fulfilled
  }

  /** A value is pending although the drain has already left its loop. */
  predicate Gap<T>(s: Saver<T>) {
    s.phase == Leaving(false) && s.pending.Some?
  }

  /** In state `t`, drain `g` still covers the first `n` values. */
  ghost predicate Covers<T>(t: Saver<T>, g: nat, n: nat) {
    && n <= |t.log.scheduled| && 0 < g <= t.drains.newest
    && (g in t.drains.fulfilled ==> SavedUpTo(t.log) >= n)
    && (g == t.drains.newest ==>
          match t.phase
          case Saving(index) => t.pending.Some? || n <= index + 1
          case Leaving(failed) => failed || SavedUpTo(t.log) >= n
          case Rest => true)
  }

  lemma SavedOnlyGrows<T>(s: Saver<T>, e: Event<T>)
    requires Inv(s)
    ensures SavedUpTo(Step(s, e).log) >= SavedUpTo(s.log)
    ensures s.log.discarded ==> Step(s, e).log.discarded
  {
  }

  lemma CoverStep<T>(s: Saver<T>, e: Event<T>, g: nat, n: nat)
    requires Inv(s) && Covers(s, g, n) && !Step(s, e).log.discarded
    ensures Covers(Step(s, e), g, n)
  {
    SavedOnlyGrows(s, e);
    StepKeeps(s, e);
  }

  lemma {:induction false} DiscardIsFinal<T>(s: Saver<T>, events: seq<Event<T>>)
    requires Inv(s) && s.log.discarded
    ensures Run(s, events).log.discarded
    decreases |events|
  {
    if events != [] {
      StepKeeps(s, events[0]);
      SavedOnlyGrows(s, events[0]);
      DiscardIsFinal(Step(s, events[0]), events[1..]);
    }
  }

  lemma {:induction false} CoverRun<T>(s: Saver<T>, events: seq<Event<T>>, g: nat, n: nat)
    requires Inv(s) && Covers(s, g, n) && !Run(s, events).log.discarded
    ensures Covers(Run(s, events), g, n)
    decreases |events|
  {
    if events != [] {
      var next := Step(s, events[0]);
      StepKeeps(s, events[0]);
      if next.log.discarded {
        DiscardIsFinal(next, events[1..]);
      }
      CoverStep(s, events[0], g, n);
      CoverRun(next, events[1..], g, n);
    }
  }

  /** Along any continuation without a discard, a fulfilled flush has saved everything accepted before it. */
  ghost predicate FlushKeepsItsWord<T(!new)>(s: Saver<T>) {
    forall events: seq<Event<T>> ::
      var t := Run(Step(s, Flush), events);
      !t.log.discarded && Fulfilled(t, FlushPromise(s)) ==> SavedUpTo(t.log) >= |s.log.scheduled|
  }

  /**
    `flush` is documented to persist all currently scheduled work. It does so exactly when it is not
    called in the gap between the end of a drain loop and the `finally` callback of that drain while a
    newer value is pending: there it returns the old promise.
   */
  lemma FlushKeepsItsWordOutsideTheGap<T(!new)>(s: Saver<T>)
    requires Inv(s) && !s.log.discarded
    ensures FlushKeepsItsWord(s) <==> !Gap(s)
  {
    StepKeeps(s, Flush);
    if Gap(s) {
      var finish: seq<Event<T>> := [DrainFinishes];
      var t := Run(Step(s, Flush), finish);
      assert t == Run(Step(Step(s, Flush), DrainFinishes), []);
      assert Fulfilled(t, FlushPromise(s)) && !t.log.discarded && SavedUpTo(t.log) < |s.log.scheduled|;
    } else {
      forall events: seq<Event<T>> | (var t := Run(Step(s, Flush), events);
                                      !t.log.discarded && Fulfilled(t, FlushPromise(s)))
        ensures SavedUpTo(Run(Step(s, Flush), events).log) >= |s.log.scheduled|
      {
        if FlushPromise(s).Some? {
          CoverRun(Step(s, Flush), events, FlushPromise(s).value, |s.log.scheduled|);
        } else {
          SavedNeverShrinks(Step(s, Flush), events);
        }
      }
    }
  }

  lemma {:induction false} SavedNeverShrinks<T>(s: Saver<T>, events: seq<Event<T>>)
    requires Inv(s)
    ensures SavedUpTo(Run(s, events).log) >= SavedUpTo(s.log)
    decreases |events|
  {
    if events != [] {
      StepKeeps(s, events[0]);
      SavedOnlyGrows(s, events[0]);
      SavedNeverShrinks(Step(s, events[0]), events[1..]);
    }
  }

  /** The gap is reachable: a value scheduled just after the loop has found nothing more to do. */
  lemma TheGapIsReachable<T>(first: T, second: T)
    ensures Gap(Run(Created(), [Schedule(first), Flush, SaveSettles(true, false), Schedule(second)]))
  {
    var events := [Schedule(first), Flush, SaveSettles(true, false), Schedule(second)];
    var s1 := Step(Created(), events[0]);
    var s2 := Step(s1, events[1]);
    var s3 := Step(s2, events[2]);
    assert s3.phase == Leaving(false);
    assert events[1..][1..] == events[2..] && events[2..][1..] == events[3..] && events[3..][1..] == [];
    assert Run(Created(), events) == Run(s1, events[1..]) == Run(s2, events[2..]) == Run(s3, events[3..]);
    assert Run(s3, events[3..]) == Run(Step(s3, events[3]), []);
  }

  // ---------------------------------------------------------------- the object

  /** The closure of one saver. `starting` hands the value of a new save to the environment. */
  class LatestValueSaver<T> {
    var timer: bool
    var pending: Option<T>
    var disposed: bool
    var phase: Phase
    var reported: bool
    var drains: Drains
    var log: Log<T>

    ghost function View(): Saver<T>
      reads this
    {
      Saver(timer, pending, disposed, phase, reported, log, drains)
    }

    constructor ()
      ensures View() == Created()
    {
      timer, pending, disposed, phase, reported := false, None, false, Rest, false;
      drains := Drains(0, {}, {}, None);
      log := Log([], [], 0, false);
    }

    /** Take the pending value; what is returned is passed to `save`. */
    method TakePending() returns (value: T)
      requires LogInv(View()) && pending.Some?
      modifies this`pending, this`phase, this`log
      ensures View() == Take(old(View()))
      ensures value == log.scheduled[log.attempts[|log.attempts| - 1]]
    {
      value := pending.value;
      pending := None;
      var index := |log.scheduled| - 1;
      log := log.(attempts := log.attempts + [index]);
      phase := Saving(index);
    }

    method DrainPending() returns (starting: Option<T>)
      requires LogInv(View())
      modifies this
      ensures View() == Drain(old(View()))
      ensures starting.Some? <==> old(phase).Rest? && old(pending).Some?
      ensures starting.Some? ==> starting == old(pending)
    {
      timer := false;
      if !phase.Rest? {
        return None;
      }
      if pending.None? {
        reported := false;
        return None;
      }
      drains := drains.(newest := drains.newest + 1);
      var value := TakePending();
      return Some(value);
    }

    method ScheduleNewest(value: T)
      requires Inv(View())
      modifies this
      ensures Inv(View()) && View() == Step(old(View()), Schedule(value))
    {
      ScheduleKeeps(View(), value);
      if disposed {
        return;
      }
      pending := Some(value);
      log := log.(scheduled := log.scheduled + [value]);
      reported := true;
      timer := phase.Rest?;
    }

    /** `promise` is the drain the caller waits for; None stands for a promise that is already fulfilled. */
    method FlushPending() returns (promise: Option<nat>, starting: Option<T>)
      requires Inv(View())
      modifies this
      ensures promise == FlushPromise(old(View()))
      ensures Inv(View()) && View() == Step(old(View()), Flush)
    {
      DrainKeeps(View());
      starting := DrainPending();
      promise := if phase.Rest? then None else Some(drains.newest);
    }

    method DisposeOf(flush: bool) returns (starting: Option<T>)
      requires Inv(View())
      modifies this
      ensures Inv(View()) && View() == Step(old(View()), Dispose(flush))
    {
      DisposeKeeps(View(), flush);
      starting := None;
      if disposed {
        if flush {
          starting := DrainPending();
        }
        return;
      }
      disposed := true;
      timer := false;
      if flush {
        starting := DrainPending();
        return;
      }
      if pending.Some? {
        log := log.(discarded := true);
      }
      pending := None;
      if phase.Rest? {
        reported := false;
      } else {
        drains := drains.(awaited := Some(drains.newest));
      }
    }

    method OnTimer() returns (starting: Option<T>)
      requires Inv(View()) && timer
      modifies this
      ensures Inv(View()) && View() == Step(old(View()), TimerFires)
    {
      DrainKeeps(View());
      starting := DrainPending();
    }

    /** The save in progress has settled: the loop takes the next value, or is left. */
    method OnSaveSettled(ok: bool, reporterThrows: bool) returns (starting: Option<T>)
      requires Inv(View()) && phase.Saving?
      modifies this
      ensures Inv(View()) && View() == Step(old(View()), SaveSettles(ok, reporterThrows))
    {
      SettleKeeps(View(), ok, reporterThrows);
      log := log.(settled := |log.attempts|);
      if !ok && reporterThrows {
        phase := Leaving(true);
        return None;
      }
      if pending.None? {
        phase := Leaving(false);
        return None;
      }
      var index := |log.scheduled| - 1;
      starting := pending;
      pending := None;
      log := log.(attempts := log.attempts + [index]);
      phase := Saving(index);
    }

    method OnDrainFinished() returns (starting: Option<T>)
      requires Inv(View()) && phase.Leaving?
      modifies this
      ensures Inv(View()) && View() == Step(old(View()), DrainFinishes)
    {
      FinishKeeps(View(), phase.failed);
      var g := drains.newest;
      if phase.failed {
        drains := drains.(rejected := drains.rejected + {g});
      } else {
        drains := drains.(fulfilled := drains.fulfilled + {g});
      }
      phase := Rest;
      starting := None;
      if pending.Some? {
        starting := DrainPending();
      } else {
        reported := false;
      }
    }

    /** The drain that a discarding dispose waits for has been fulfilled. */
    method ContinueDispose()
      requires Inv(View()) && drains.awaited.Some? && drains.awaited.value in drains.fulfilled
      modifies this`reported, this`drains
      ensures Inv(View()) && View() == Step(old(View()), DisposeContinues)
    {
      StepKeeps(View(), DisposeContinues);
      reported := false;
      drains := drains.(awaited := None);
    }
  }
}
