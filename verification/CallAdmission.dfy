/**
  The admission gate in front of the installed capability tree.

  A call through a bound capability is admitted only while the gate is open. An admitted asynchronous
  call is remembered until its promise settles; draining waits for a snapshot of the remembered promises.
  Promises are identified by number.
 */
module CallAdmissions {

  datatype Admission = Admission(accepting: bool, pending: set<nat>)

  /** What the wrapped method does once the gate has let the call through. */
  datatype Invocation =
    | Unavailable          // the owner is gone, or the member is no longer a function
    | Throws               // the method threw before returning
    | Returns(promise: nat)

  /** What the caller of the wrapper observes. */
  datatype Answer = Rejected | Direct | Admitted(promise: nat)

  datatype Event =
    | Call(synchronous: bool, invocation: Invocation)
    | Settle(promise: nat)
    | Pause
    | Resume

  const OPEN := Admission(true, {})

  function CallAnswer(a: Admission, synchronous: bool, invocation: Invocation): Answer {
    if !a.accepting || !invocation.Returns? then Rejected
    else if synchronous then Direct
    else Admitted(invocation.promise)
  }

  function Step(a: Admission, e: Event): Admission {
    match e
    case Call(synchronous, invocation) =>
      var answer := CallAnswer(a, synchronous, invocation);
      if answer.Admitted? then a.(pending := a.pending + {answer.promise}) else a
    case Settle(promise) => a.(pending := a.pending - {promise})
    case Pause => a.(accepting := false)
    case Resume => if a.pending == {} then a.(accepting := true) else a
  }

  function Run(a: Admission, events: seq<Event>): Admission
    decreases |events|
  {
    if events == [] then a else Run(Step(a, events[0]), events[1..])
  }

  /** The promises that settle somewhere in a sequence of events. */
  function SettledIn(events: seq<Event>): set<nat> {
    set e | e in events && e.Settle? :: e.promise
  }

  /**
    Once paused and until the next resume, the remembered calls are exactly those of the moment of the
    pause that have not settled since: a paused gate admits nothing, whatever callers try.
   */
  lemma {:induction false} PausedCallsOnlySettle(a: Admission, events: seq<Event>)
    requires !a.accepting
    requires Resume !in events
    ensures !Run(a, events).accepting
    ensures Run(a, events).pending == a.pending - SettledIn(events)
    decreases |events|
  {
    if events != [] {
      var next := Step(a, events[0]);
      PausedCallsOnlySettle(next, events[1..]);
      assert SettledIn(events) == SettledIn(events[1..]) + SettledIn([events[0]]) by {
        assert events == [events[0]] + events[1..];
      }
    }
  }

  /**
    Pause, then drain the snapshot taken by the pause: as soon as every promise of that snapshot has
    settled, a resume is accepted. Conversely a resume that comes earlier is refused.
   */
  lemma ResumeAcceptedExactlyAfterDrain(a: Admission, events: seq<Event>)
    requires Resume !in events
    ensures var drained := Run(Step(a, Pause), events);
            Step(drained, Resume).accepting <==> a.pending <= SettledIn(events)
  {
    PausedCallsOnlySettle(Step(a, Pause), events);
    var left := a.pending - SettledIn(events);
    if a.pending <= SettledIn(events) {
      assert left == {};
    } else {
      var p :| p in a.pending && p !in SettledIn(events);
      assert p in left;
    }
  }

  lemma {:induction false} RunLast(a: Admission, events: seq<Event>, e: Event)
    ensures Run(a, events + [e]) == Step(Run(a, events), e)
    decreases |events|
  {
    if events == [] {
      assert [e][1..] == [];
    } else {
      assert (events + [e])[1..] == events[1..] + [e];
      RunLast(Step(a, events[0]), events[1..], e);
    }
  }

  /** The call at position `i` returned the promise `p` through an open gate, and `p` has not settled since. */
  ghost predicate OpenCall(a: Admission, events: seq<Event>, i: nat, p: nat) {
    && i < |events|
    && events[i] == Call(false, Returns(p))
    && Run(a, events[..i]).accepting
    && Settle(p) !in events[i + 1..]
  }

  /**
    Whatever happens, the remembered promises are those of the asynchronous calls that came through the
    open gate and have not settled since: no such call is lost, and no other call is waited for.
   */
  lemma {:induction false} PendingAreTheAdmittedUnsettled(a: Admission, events: seq<Event>, p: nat)
    ensures p in Run(a, events).pending
       <==> (p in a.pending && Settle(p) !in events) || exists i: nat :: OpenCall(a, events, i, p)
    decreases |events|
  {
    if events != [] {
      var n := |events| - 1;
      var init, e := events[..n], events[n];
      assert events == init + [e];
      RunLast(a, init, e);
      PendingAreTheAdmittedUnsettled(a, init, p);
      forall i: nat | i < n
        ensures OpenCall(a, events, i, p) <==> OpenCall(a, init, i, p) && e != Settle(p)
      {
        assert events[i + 1..] == init[i + 1..] + [e] && events[..i] == init[..i];
      }
      assert OpenCall(a, events, n, p) <==> e == Call(false, Returns(p)) && Run(a, init).accepting;
      assert forall i: nat :: OpenCall(a, init, i, p) ==> i < n;
      if p in Run(a, events).pending && p !in Run(a, init).pending {
        assert OpenCall(a, events, n, p);
      } else if p in Run(a, events).pending && exists i: nat :: OpenCall(a, init, i, p) {
        var i: nat :| OpenCall(a, init, i, p);
        assert OpenCall(a, events, i, p);
      }
    }
  }

  /**
    Until it is paused, an open gate hands every call through: the answer is the wrapped method's own. From
    the pause to the next resume it refuses them all.
   */
  lemma {:induction false} GateDecidesAlone(a: Admission, events: seq<Event>, synchronous: bool, p: nat)
    requires if a.accepting then Pause !in events else Resume !in events
    ensures Run(a, events).accepting == a.accepting
    ensures CallAnswer(Run(a, events), synchronous, Returns(p))
         == if !a.accepting then Rejected else if synchronous then Direct else Admitted(p)
    ensures CallAnswer(Run(a, events), synchronous, Throws) == Rejected
    ensures CallAnswer(Run(a, events), synchronous, Unavailable) == Rejected
    decreases |events|
  {
    if events != [] {
      GateDecidesAlone(Step(a, events[0]), events[1..], synchronous, p);
    }
  }

  /** The gate as the object whose fields every bound capability shares. */
  class CallAdmission {
    var accepting: bool
    var pending: set<nat>

    ghost function View(): Admission
      reads this
    {
      Admission(accepting, pending)
    }

    constructor ()
      ensures View() == OPEN
    {
      accepting, pending := true, {};
    }

    method PauseCalls()
      modifies this
      ensures View() == Step(old(View()), Pause)
    {
      accepting := false;
    }

    /** Refused while calls are still pending. */
    method ResumeCalls() returns (ok: bool)
      modifies this
      ensures ok <==> old(pending) == {}
      ensures View() == Step(old(View()), Resume)
    {
      if pending != {} {
        return false;
      }
      accepting := true;
      return true;
    }

    method Invoke(synchronous: bool, invocation: Invocation) returns (answer: Answer)
      modifies this
      ensures answer == CallAnswer(old(View()), synchronous, invocation)
      ensures View() == Step(old(View()), Call(synchronous, invocation))
    {
      if !accepting {
        return Rejected;
      }
      match invocation
      case Unavailable => return Rejected;
      case Throws => return Rejected;
      case Returns(promise) =>
        if synchronous {
          return Direct;
        }
        pending := pending + {promise};
        return Admitted(promise);
    }

    method Settled(promise: nat)
      modifies this
      ensures View() == Step(old(View()), Settle(promise))
    {
      pending := pending - {promise};
    }
  }
}
