/**
  Turning wheel deltas into discrete steps: deltas accumulate until they reach the threshold, whole steps
  are taken out at once, and an event emits at most a capped number of them. Distances and times are exact
  reals; a delta that is not a finite number is outside the model.
 */
module WheelSteps {

  datatype Mode = Pixel | Line | Page

  /** One wheel event with the clock and the window height it is read under. */
  datatype Event = Event(deltaY: real, mode: Mode, at: real, innerHeight: real)

  datatype Options = Options(thresholdPx: real, resetAfterMs: real, maxStepsPerEvent: int)

  datatype State = State(accumulatedPx: real, lastEventAt: real)

  function Initial(): State {
    State(0.0, 0.0)
  }

  function Sign(x: real): int {
    if x > 0.0 then 1 else if x < 0.0 then -1 else 0
  }

  function Abs(x: real): (r: real)
    ensures r >= 0.0 && (r == x || r == -x)
  {
    if x < 0.0 then -x else x
  }

  function Pixels(e: Event): real {
    match e.mode
    case Line => e.deltaY * 16.0
    case Page => e.deltaY * (if e.innerHeight > 320.0 then e.innerHeight else 320.0)
    case Pixel => e.deltaY
  }

  function Cap(o: Options): (cap: int)
    ensures cap >= 1
  {
    if o.maxStepsPerEvent > 1 then o.maxStepsPerEvent else 1
  }

  function Whole(x: real, t: real): int
    requires t != 0.0
  {
    (x / t).Floor
  }

  function Multiple(n: int, t: real): real {
    n as real * t
  }

  // ---------------------------------------------------------------- one event

  predicate Resets(o: Options, s: State, e: Event) {
    || e.at - s.lastEventAt > o.resetAfterMs
    || (s.accumulatedPx != 0.0 && Sign(s.accumulatedPx) != Sign(Pixels(e)))
  }

  function Reached(o: Options, s: State, e: Event): real {
    (if Resets(o, s, e) then 0.0 else s.accumulatedPx) + Pixels(e)
  }

  /** The whole steps in the reached distance. */
  function Complete(o: Options, s: State, e: Event): int
    requires o.thresholdPx != 0.0
  {
    if Pixels(e) == 0.0 then 0 else Whole(Abs(Reached(o, s, e)), o.thresholdPx)
  }

  /**
    The state after one event. A threshold of zero leaves no number behind; the next event drops that residual
    for its missing sign, so it is written as zero.
   */
  function Next(o: Options, s: State, e: Event): State {
    var reached := Reached(o, s, e);
    if Pixels(e) == 0.0 then s
    else if o.thresholdPx == 0.0 then State(0.0, e.at)
    else State(reached - Multiple(Sign(reached) * Complete(o, s, e), o.thresholdPx), e.at)
  }

  /** A threshold of zero is reached infinitely often. */
  function Emitted(o: Options, s: State, e: Event): int {
    if Pixels(e) == 0.0 then 0
    else if o.thresholdPx == 0.0 then Sign(Reached(o, s, e)) * Cap(o)
    else Sign(Reached(o, s, e)) * (if Complete(o, s, e) < Cap(o) then Complete(o, s, e) else Cap(o))
  }

  // ---------------------------------------------------------------- multiples of the threshold

  lemma Scale(a: real, b: real, t: real)
    requires t > 0.0
    ensures a <= b <==> a * t <= b * t
    ensures a < b <==> a * t < b * t
  {
  }

  /** A quotient lies between two integers when the dividend lies between their multiples. */
  lemma Between(q: real, x: real, t: real, n: int)
    requires t > 0.0 && q * t == x
    ensures n as real <= q < (n + 1) as real <==> Multiple(n, t) <= x < Multiple(n + 1, t)
  {
    var low: real, high: real := n as real, (n + 1) as real;
    Scale(low, q, t);
    Scale(q, high, t);
  }

  lemma WholeIs(x: real, t: real, n: int)
    requires t > 0.0
    ensures Whole(x, t) == n <==> Multiple(n, t) <= x < Multiple(n + 1, t)
  {
    Between(x / t, x, t, n);
  }

  lemma Distribute(a: int, b: int, t: real)
    ensures Multiple(a + b, t) == Multiple(a, t) + Multiple(b, t)
    ensures Multiple(1, t) == t && Multiple(0, t) == 0.0
    ensures Multiple(-a, t) == -Multiple(a, t)
  {
    assert (-a) as real == -(a as real);
    assert (-(a as real)) * t == -(a as real * t);
  }

  /** Taking the whole thresholds out of a distance leaves less than one, on the same side of zero. */
  lemma TakeOut(reached: real, t: real)
    requires t > 0.0
    ensures var n := Whole(Abs(reached), t);
      var rest := reached - Multiple(Sign(reached) * n, t);
      && n >= 0
      && Abs(rest) < t
      && Abs(reached) == Abs(rest) + Multiple(n, t)
      && (rest != 0.0 ==> Sign(rest) == Sign(reached))
  {
    var n := Whole(Abs(reached), t);
    WholeIs(Abs(reached), t, n);
    Distribute(n, 1, t);
    WholeOfDistance(Abs(reached), t);
    hide Multiple, Whole;
    if reached > 0.0 {
      assert Sign(reached) * n == n;
    } else if reached < 0.0 {
      assert Sign(reached) * n == -n;
    } else {
      assert Sign(reached) * n == 0;
    }
  }

  lemma WholeOfDistance(x: real, t: real)
    requires t > 0.0 && x >= 0.0
    ensures Whole(x, t) >= 0
  {
    Scale(0.0, x / t, t);
  }

  /** The split of a distance into whole thresholds and a rest below one is unique. */
  lemma WholeAndRest(total: real, t: real, n: int, rest: real)
    requires t > 0.0 && 0.0 <= rest < t && total == rest + Multiple(n, t)
    ensures Whole(total, t) == n
  {
    WholeIs(total, t, n);
    Distribute(n, 1, t);
  }

  // ---------------------------------------------------------------- runs

  function After(o: Options, s: State, es: seq<Event>, n: nat): State
    requires n <= |es|
  {
    if n == 0 then s else Next(o, After(o, s, es, n - 1), es[n - 1])
  }

  /** All the whole steps of the first n events, before the cap. */
  function CompleteSum(o: Options, s: State, es: seq<Event>, n: nat): int
    requires o.thresholdPx != 0.0 && n <= |es|
  {
    if n == 0 then 0 else CompleteSum(o, s, es, n - 1) + Complete(o, After(o, s, es, n - 1), es[n - 1])
  }

  function EmittedSum(o: Options, s: State, es: seq<Event>, n: nat): int
    requires n <= |es|
  {
    if n == 0 then 0 else EmittedSum(o, s, es, n - 1) + Emitted(o, After(o, s, es, n - 1), es[n - 1])
  }

  function Distance(es: seq<Event>, n: nat): (d: real)
    requires n <= |es|
    ensures d >= 0.0
  {
    if n == 0 then 0.0 else Distance(es, n - 1) + Abs(Pixels(es[n - 1]))
  }

  /** The residual below the threshold. */
  predicate Settled(o: Options, s: State) {
    Abs(s.accumulatedPx) < o.thresholdPx
  }

  /** After every event of every run the residual is below the threshold, so no backlog is carried over. */
  lemma {:induction false} ResidualStaysBelowTheThreshold(o: Options, s: State, es: seq<Event>, n: nat)
    requires o.thresholdPx > 0.0 && n <= |es| && Settled(o, s)
    ensures Settled(o, After(o, s, es, n))
  {
    if n > 0 {
      ResidualStaysBelowTheThreshold(o, s, es, n - 1);
      TakeSteps(o, After(o, s, es, n - 1), es[n - 1]);
    }
  }

  /** With a threshold of zero, every moving event of every run emits the cap in its own direction. */
  lemma {:induction false} ZeroThresholdEmitsTheCap(o: Options, s: State, es: seq<Event>, n: nat)
    requires o.thresholdPx == 0.0 && s.accumulatedPx == 0.0 && n < |es|
    ensures After(o, s, es, n).accumulatedPx == 0.0
    ensures Emitted(o, After(o, s, es, n), es[n]) == Sign(Pixels(es[n])) * Cap(o)
  {
    if n > 0 {
      ZeroThresholdEmitsTheCap(o, s, es, n - 1);
    }
  }

  /** One event with movement: what it reached is split into whole steps and a residual in its direction. */
  lemma TakeSteps(o: Options, s: State, e: Event)
    requires o.thresholdPx > 0.0 && Settled(o, s)
    ensures Settled(o, Next(o, s, e)) && Complete(o, s, e) >= 0
    ensures Pixels(e) != 0.0 ==>
      && Sign(Reached(o, s, e)) == Sign(Pixels(e))
      && Abs(Reached(o, s, e)) == Abs(Next(o, s, e).accumulatedPx) + Multiple(Complete(o, s, e), o.thresholdPx)
      && (Next(o, s, e).accumulatedPx != 0.0 ==> Sign(Next(o, s, e).accumulatedPx) == Sign(Pixels(e)))
  {
    hide Multiple, Whole;
    if Pixels(e) != 0.0 {
      assert Sign(Reached(o, s, e)) == Sign(Pixels(e));
      TakeOut(Reached(o, s, e), o.thresholdPx);
    }
  }

  // ---------------------------------------------------------------- gestures

  /** Events k < n move in one direction, and none finds a residual that has outlived the reset window. */
  predicate Gesture(o: Options, s: State, es: seq<Event>, n: nat, direction: int)
    requires n <= |es|
  {
    forall k | 0 <= k < n ::
      var before := After(o, s, es, k);
      || Pixels(es[k]) == 0.0
      || (Sign(Pixels(es[k])) == direction
          && (before.accumulatedPx == 0.0 || es[k].at - before.lastEventAt <= o.resetAfterMs))
  }

  predicate Leans(s: State, direction: int) {
    s.accumulatedPx == 0.0 || Sign(s.accumulatedPx) == direction
  }

  /**
    Over a gesture, the steps before the cap are exactly the whole thresholds in the distance travelled, and
    the residual is what is left of it.
   */
  lemma {:induction false} StepsMeasureTheDistance(o: Options, s: State, es: seq<Event>, n: nat, direction: int)
    requires o.thresholdPx > 0.0 && n <= |es| && Settled(o, s) && Leans(s, direction)
    requires Gesture(o, s, es, n, direction)
    ensures Settled(o, After(o, s, es, n)) && Leans(After(o, s, es, n), direction)
    ensures Abs(s.accumulatedPx) + Distance(es, n)
      == Abs(After(o, s, es, n).accumulatedPx) + Multiple(CompleteSum(o, s, es, n), o.thresholdPx)
    ensures CompleteSum(o, s, es, n) == Whole(Abs(s.accumulatedPx) + Distance(es, n), o.thresholdPx)
  {
    hide Multiple, Whole, Next, Complete;
    var t := o.thresholdPx;
    if n > 0 {
      StepsMeasureTheDistance(o, s, es, n - 1, direction);
      GestureStep(o, After(o, s, es, n - 1), es[n - 1], direction);
      Distribute(CompleteSum(o, s, es, n - 1), Complete(o, After(o, s, es, n - 1), es[n - 1]), t);
    } else {
      Distribute(0, 0, t);
    }
    WholeAndRest(
      Abs(s.accumulatedPx) + Distance(es, n), t, CompleteSum(o, s, es, n), Abs(After(o, s, es, n).accumulatedPx));
  }

  lemma NoMovement(o: Options, s: State, e: Event)
    requires o.thresholdPx > 0.0 && Pixels(e) == 0.0
    ensures Next(o, s, e) == s && Multiple(Complete(o, s, e), o.thresholdPx) == 0.0
  {
    Distribute(0, 0, o.thresholdPx);
  }

  /** One event of a gesture adds its distance to the residual. */
  lemma GestureStep(o: Options, s: State, e: Event, direction: int)
    requires o.thresholdPx > 0.0 && Settled(o, s) && Leans(s, direction)
    requires
      || Pixels(e) == 0.0
      || (Sign(Pixels(e)) == direction
          && (s.accumulatedPx == 0.0 || e.at - s.lastEventAt <= o.resetAfterMs))
    ensures Settled(o, Next(o, s, e)) && Leans(Next(o, s, e), direction)
    ensures Abs(s.accumulatedPx) + Abs(Pixels(e))
      == Abs(Next(o, s, e).accumulatedPx) + Multiple(Complete(o, s, e), o.thresholdPx)
  {
    hide Multiple, Whole, Next, Complete;
    TakeSteps(o, s, e);
    if Pixels(e) != 0.0 {
      assert Reached(o, s, e) == s.accumulatedPx + Pixels(e);
      assert Abs(Reached(o, s, e)) == Abs(s.accumulatedPx) + Abs(Pixels(e));
    } else {
      NoMovement(o, s, e);
    }
  }

  /** How a gesture is cut into events does not matter to the steps before the cap nor to the residual. */
  lemma SplittingDoesNotMatter(
      o: Options, s: State, a: seq<Event>, b: seq<Event>, direction: int)
    requires o.thresholdPx > 0.0 && Settled(o, s) && Leans(s, direction)
    requires Gesture(o, s, a, |a|, direction) && Gesture(o, s, b, |b|, direction)
    requires Distance(a, |a|) == Distance(b, |b|)
    ensures CompleteSum(o, s, a, |a|) == CompleteSum(o, s, b, |b|)
    ensures After(o, s, a, |a|).accumulatedPx == After(o, s, b, |b|).accumulatedPx
  {
    hide Multiple, Whole, Next, Complete;
    StepsMeasureTheDistance(o, s, a, |a|, direction);
    StepsMeasureTheDistance(o, s, b, |b|, direction);
  }

  predicate HitsTheCap(o: Options, s: State, es: seq<Event>, k: nat)
    requires o.thresholdPx != 0.0 && k < |es|
  {
    Complete(o, After(o, s, es, k), es[k]) > Cap(o)
  }

  /**
    What a gesture emits points in its direction and never exceeds the steps before the cap; it equals them
    exactly when no event hits the cap.
   */
  lemma {:induction false} EmittedExactlyWhenUncapped(o: Options, s: State, es: seq<Event>, n: nat, direction: int)
    requires o.thresholdPx > 0.0 && n <= |es| && Settled(o, s) && Leans(s, direction)
    requires direction == 1 || direction == -1
    requires Gesture(o, s, es, n, direction)
    ensures 0 <= direction * EmittedSum(o, s, es, n) <= CompleteSum(o, s, es, n)
    ensures direction * EmittedSum(o, s, es, n) == CompleteSum(o, s, es, n)
      <==> forall k | 0 <= k < n :: !HitsTheCap(o, s, es, k)
  {
    hide Multiple, Whole, Next, Complete, Emitted;
    if n > 0 {
      EmittedExactlyWhenUncapped(o, s, es, n - 1, direction);
      StepsMeasureTheDistance(o, s, es, n - 1, direction);
      var before, e := After(o, s, es, n - 1), es[n - 1];
      TakeSteps(o, before, e);
      EmittedOnce(o, before, e, direction);
      var sum, more := EmittedSum(o, s, es, n - 1), Emitted(o, before, e);
      assert direction * (sum + more) == direction * sum + direction * more;
      assert HitsTheCap(o, s, es, n - 1) <==> Complete(o, before, e) > Cap(o);
      assert (forall k | 0 <= k < n :: !HitsTheCap(o, s, es, k))
        <==> (forall k | 0 <= k < n - 1 :: !HitsTheCap(o, s, es, k)) && !HitsTheCap(o, s, es, n - 1);
    }
  }

  lemma EmittedOnce(o: Options, s: State, e: Event, direction: int)
    requires o.thresholdPx > 0.0 && Settled(o, s)
    requires direction == 1 || direction == -1
    requires Pixels(e) == 0.0 || Sign(Pixels(e)) == direction
    ensures 0 <= direction * Emitted(o, s, e) <= Complete(o, s, e)
    ensures direction * Emitted(o, s, e) == Complete(o, s, e) <==> Complete(o, s, e) <= Cap(o)
  {
    hide Multiple, Whole;
    TakeSteps(o, s, e);
  }

  // ---------------------------------------------------------------- starting over

  /** When the wheel last moved within the first n events. */
  function LastMove(s: State, es: seq<Event>, n: nat): real
    requires n <= |es|
  {
    if n == 0 then s.lastEventAt
    else if Pixels(es[n - 1]) != 0.0 then es[n - 1].at
    else LastMove(s, es, n - 1)
  }

  lemma {:induction false} ClockIsThatOfTheLastMove(o: Options, s: State, es: seq<Event>, n: nat)
    requires n <= |es|
    ensures After(o, s, es, n).lastEventAt == LastMove(s, es, n)
  {
    if n > 0 {
      ClockIsThatOfTheLastMove(o, s, es, n - 1);
    }
  }

  predicate Against(left: real, moved: real) {
    left < 0.0 < moved || moved < 0.0 < left
  }

  /** The event at n moves after a pause longer than the reset window, or against what has accumulated. */
  predicate StartsOver(o: Options, s: State, es: seq<Event>, n: nat)
    requires n < |es|
  {
    var left := After(o, s, es, n).accumulatedPx;
    && Pixels(es[n]) != 0.0
    && (es[n].at - LastMove(s, es, n) > o.resetAfterMs || Against(left, Pixels(es[n])))
  }

  /**
    After such an event nothing of what went before is felt: state and steps are those of a new accumulator
    that sees this event first.
   */
  lemma {:induction false} StartingOverForgets(o: Options, s: State, es: seq<Event>, n: nat, m: nat)
    requires n < m <= |es| && StartsOver(o, s, es, n)
    ensures var anew := State(0.0, es[n].at);
      && After(o, s, es, m) == After(o, anew, es[n..], m - n)
      && EmittedSum(o, s, es, m) == EmittedSum(o, s, es, n) + EmittedSum(o, anew, es[n..], m - n)
    decreases m
  {
    var anew, later := State(0.0, es[n].at), es[n..];
    assert later[m - n - 1] == es[m - 1];
    if m == n + 1 {
      ClockIsThatOfTheLastMove(o, s, es, n);
      ForgetsOnce(o, After(o, s, es, n), es[n]);
      assert After(o, anew, later, 0) == anew && EmittedSum(o, anew, later, 0) == 0;
      hide Next, Emitted;
    } else {
      StartingOverForgets(o, s, es, n, m - 1);
      hide Next, Emitted, StartsOver;
    }
  }

  lemma ForgetsOnce(o: Options, s: State, e: Event)
    requires Pixels(e) != 0.0
    requires e.at - s.lastEventAt > o.resetAfterMs || Against(s.accumulatedPx, Pixels(e))
    ensures Next(o, s, e) == Next(o, State(0.0, e.at), e) && Emitted(o, s, e) == Emitted(o, State(0.0, e.at), e)
  {
    assert Reached(o, s, e) == Pixels(e) == Reached(o, State(0.0, e.at), e);
    hide Reached, Whole, Multiple;
  }

  /** A line is 16 pixels, and a page the height of the window, but at least 320. */
  lemma LinesAndPagesArePixels(o: Options, s: State, e: Event)
    ensures var px := if e.mode.Line? then e.deltaY * 16.0
                      else if e.mode.Pixel? then e.deltaY
                      else if e.innerHeight >= 320.0 then e.deltaY * e.innerHeight else e.deltaY * 320.0;
      var moved := e.(deltaY := px, mode := Pixel);
      && Next(o, s, e) == Next(o, s, moved) && Emitted(o, s, e) == Emitted(o, s, moved)
  {
    hide Multiple, Whole;
  }

  /** One event emits its whole steps in its own direction, up to the configured number and at least up to one. */
  lemma EmissionIsCapped(o: Options, s: State, e: Event)
    requires o.thresholdPx > 0.0 && Settled(o, s) && Pixels(e) != 0.0
    ensures var n, steps := Complete(o, s, e), Emitted(o, s, e);
      && (n <= 1 || n <= o.maxStepsPerEvent ==> steps == Sign(Pixels(e)) * n)
      && (n >= 1 && n > o.maxStepsPerEvent ==>
            steps == Sign(Pixels(e)) * (if o.maxStepsPerEvent >= 1 then o.maxStepsPerEvent else 1))
  {
    TakeSteps(o, s, e);
    hide Multiple, Whole, Complete;
  }

  // ---------------------------------------------------------------- the accumulator

  class WheelStepAccumulator {
    const options: Options
    var accumulatedPx: real
    var lastEventAt: real

    function View(): State
      reads this
    {
      State(accumulatedPx, lastEventAt)
    }

    constructor (options: Options)
      ensures this.options == options && View() == Initial()
    {
      this.options := options;
      accumulatedPx, lastEventAt := 0.0, 0.0;
    }

    method Consume(e: Event) returns (steps: int)
      requires options.thresholdPx == 0.0 ==> accumulatedPx == 0.0
      modifies this
      ensures options.thresholdPx == 0.0 ==> accumulatedPx == 0.0
      ensures View() == Next(options, old(View()), e)
      ensures steps == Emitted(options, old(View()), e)
      ensures options.thresholdPx > 0.0 && old(Settled(options, View())) ==> Settled(options, View())
    {
      if options.thresholdPx > 0.0 && Settled(options, View()) {
        TakeSteps(options, View(), e);
      }
      hide Multiple, Whole;
      var deltaPx := Pixels(e);
      if deltaPx == 0.0 {
        return 0;
      }
      var directionChanged := accumulatedPx != 0.0 && Sign(accumulatedPx) != Sign(deltaPx);
      if e.at - lastEventAt > options.resetAfterMs || directionChanged {
        accumulatedPx := 0.0;
      }
      lastEventAt := e.at;
      accumulatedPx := accumulatedPx + deltaPx;
      if options.thresholdPx == 0.0 {
        steps := Sign(accumulatedPx) * Cap(options);
        accumulatedPx := 0.0;
        return;
      }
      var completeSteps := Whole(Abs(accumulatedPx), options.thresholdPx);
      if completeSteps == 0 {
        Distribute(0, 0, options.thresholdPx);
        return 0;
      }
      var direction := Sign(accumulatedPx);
      accumulatedPx := accumulatedPx - Multiple(direction * completeSteps, options.thresholdPx);
      steps := direction * (if completeSteps < Cap(options) then completeSteps else Cap(options));
    }
  }
}
