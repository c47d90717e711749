/**
  The registries of the HTTP listener against the history of a run: what they hold is exactly what has been
  admitted and has not ended since. A drain or a close that succeeds has therefore waited for all of it.
 */
module TrafficHistories {
  import opened Results
  import opened HttpListeners

  lemma {:induction false} RunLast(h: Listener, events: seq<Event>, e: Event)
    ensures Run(h, events + [e]) == Step(Run(h, events), e)
    decreases |events|
  {
    if events == [] {
      assert [e][1..] == [];
    } else {
      assert (events + [e])[1..] == events[1..] + [e];
      RunLast(Step(h, events[0]), events[1..], e);
    }
  }

  // ---------------------------------------------------------------- what is under way

  datatype Registry = Requests | Upgrades | Sockets | Tasks

  /** What the listener remembers as not yet ended. */
  function UnderWay(r: Registry, h: Listener): set<nat> {
    match r
    case Requests => h.requests
    case Upgrades => h.upgrades.Keys
    case Sockets => set s | s in h.sockets && h.sockets[s].open
    case Tasks => h.tasks
  }

  /** An upgrade is authorized, its raw socket is alive, and no suspension came between. */
  predicate Connects(h: Listener, t: Traffic) {
    && t.UpgradeDecides? && t.id in h.upgrades && t.socket !in h.sockets
    && t.authorized && !t.destroyed
    && h.accepting && h.generation == h.upgrades[t.id].generation
  }

  /** A request comes in, an upgrade comes in, a socket opens, or something starts that a drain must wait for. */
  predicate Begins(r: Registry, h: Listener, e: Event, x: nat) {
    e.Peer? &&
    match r
    case Requests => e.traffic == RequestArrives(x) && h.accepting
    case Upgrades => e.traffic == UpgradeArrives(x) && h.accepting && x !in h.tasks
    case Sockets => Connects(h, e.traffic) && e.traffic.socket == x
    case Tasks =>
      match e.traffic
      case UpgradeArrives(id) => id == x && h.accepting
      case UpgradeDecides(_, _, _, _, session) => Connects(h, e.traffic) && session == Some(x)
      case HandlerStarts(s, task) =>
        task == x && s in UnderWay(Sockets, h) && h.accepting && h.sockets[s].generation == h.generation
      case SocketCloses(s, cleanup) => s in UnderWay(Sockets, h) && cleanup == Some(x)
      case _ => false
  }

  predicate Ends(r: Registry, h: Listener, e: Event, x: nat) {
    e.Peer? &&
    match r
    case Requests => e.traffic == RequestSettles(x)
    case Upgrades => e.traffic.UpgradeDecides? && e.traffic.id == x
    case Sockets => e.traffic.SocketCloses? && e.traffic.socket == x
    case Tasks => e.traffic == TaskSettles(x) && x !in h.upgrades
  }

  /** From position `from` of a run on nothing has ended `x`. */
  ghost predicate NeverEnds(r: Registry, h: Listener, events: seq<Event>, from: nat, x: nat) {
    forall j: nat | from <= j < |events| :: !Ends(r, Run(h, events[..j]), events[j], x)
  }

  ghost predicate BegunAt(r: Registry, h: Listener, events: seq<Event>, i: nat, x: nat) {
    i < |events| && Begins(r, Run(h, events[..i]), events[i], x)
  }

  ghost predicate OpenSince(r: Registry, h: Listener, events: seq<Event>, i: nat, x: nat) {
    BegunAt(r, h, events, i, x) && NeverEnds(r, h, events, i + 1, x)
  }

  lemma PeersMoveTheRegistries(r: Registry, h: Listener, t: Traffic, x: nat)
    requires ServingInv(h)
    ensures x in UnderWay(r, TrafficTurn(h, t))
       <==> Begins(r, h, Peer(t), x) || (x in UnderWay(r, h) && !Ends(r, h, Peer(t), x))
  {
  }

  /** Nothing but a peer moves a registry; a drain forgets sockets only when they all have closed. */
  lemma OthersLeaveTheRegistries(r: Registry, h: Listener, e: Event, x: nat)
    requires Inv(h) && !e.Peer?
    ensures x in UnderWay(r, Step(h, e)) <==> x in UnderWay(r, h)
  {
    match e
    case DrainContinues(l, clean, timedOut) =>
      DrainTurnMovesOneLease(h, l, clean, timedOut);
      if l < |h.leases| {
        assert Ordered(h.leases[l]);
        assert NextDrain(h, l, clean, timedOut).clears ==> AllClosed(h);
      }
    case _ =>
  }

  lemma RegistryStep(r: Registry, h: Listener, e: Event, x: nat)
    requires Inv(h)
    ensures x in UnderWay(r, Step(h, e)) <==> Begins(r, h, e, x) || (x in UnderWay(r, h) && !Ends(r, h, e, x))
  {
    hide *;
    if e.Peer? {
      PeerStep(r, h, e.traffic, x);
    } else {
      OthersLeaveTheRegistries(r, h, e, x);
      OnlyPeersBeginOrEnd(r, h, e, x);
    }
  }

  lemma PeerStep(r: Registry, h: Listener, t: Traffic, x: nat)
    requires Inv(h)
    ensures x in UnderWay(r, Step(h, Peer(t)))
       <==> Begins(r, h, Peer(t), x) || (x in UnderWay(r, h) && !Ends(r, h, Peer(t), x))
  {
    PeersMoveTheRegistries(r, h, t, x);
  }

  lemma OnlyPeersBeginOrEnd(r: Registry, h: Listener, e: Event, x: nat)
    requires !e.Peer?
    ensures !Begins(r, h, e, x) && !Ends(r, h, e, x)
  {
  }

  /**
    After every run each registry holds exactly what began and has not ended since: no request, upgrade,
    socket, session, handler or cleanup that was admitted is ever forgotten, and nothing else is kept.
   */
  lemma {:induction false} UnderWayIsWhatBeganAndHasNotEnded(r: Registry, h: Listener, events: seq<Event>, x: nat)
    requires Inv(h)
    ensures x in UnderWay(r, Run(h, events))
       <==> (x in UnderWay(r, h) && NeverEnds(r, h, events, 0, x)) || exists i: nat :: OpenSince(r, h, events, i, x)
    decreases |events|
  {
    if events != [] {
      var n := |events| - 1;
      var init, e := events[..n], events[n];
      assert events == init + [e];
      var before := Run(h, init);
      RunLast(h, init, e);
      RunKeeps(h, init);
      UnderWayIsWhatBeganAndHasNotEnded(r, h, init, x);
      RegistryStep(r, before, e, x);
      hide Inv, UnderWay, Begins, Ends, Run, Step;
      HistoryGrows(r, h, init, e, x);
    }
  }

  lemma HistoryGrows(r: Registry, h: Listener, init: seq<Event>, e: Event, x: nat)
    ensures var events := init + [e];
      && (NeverEnds(r, h, events, 0, x) <==> NeverEnds(r, h, init, 0, x) && !Ends(r, Run(h, init), e, x))
      && ((exists i: nat :: OpenSince(r, h, events, i, x))
          <==>
          (Begins(r, Run(h, init), e, x)
           || ((exists i: nat :: OpenSince(r, h, init, i, x)) && !Ends(r, Run(h, init), e, x))))
  {
    hide Begins, Ends, Run;
    var events, n := init + [e], |init|;
    assert forall j: nat | j < n :: events[..j] == init[..j] && events[j] == init[j];
    assert events[..n] == init;
    assert forall from: nat | from <= n ::
        NeverEnds(r, h, events, from, x) <==> NeverEnds(r, h, init, from, x) && !Ends(r, Run(h, init), e, x);
    assert OpenSince(r, h, events, n, x) <==> Begins(r, Run(h, init), e, x);
    forall i: nat | i < n
      ensures OpenSince(r, h, events, i, x) <==> OpenSince(r, h, init, i, x) && !Ends(r, Run(h, init), e, x)
    {
    }
    if i: nat :| OpenSince(r, h, init, i, x) {
      assert i < n;
    }
  }

  // ---------------------------------------------------------------- what a drain and a close have waited for

  /** What began in a run and is not under way at its end has ended. */
  lemma GoneMeansEnded(r: Registry, h: Listener, events: seq<Event>, i: nat, x: nat)
    requires Inv(h) && BegunAt(r, h, events, i, x) && x !in UnderWay(r, Run(h, events))
    ensures !NeverEnds(r, h, events, i + 1, x)
  {
    UnderWayIsWhatBeganAndHasNotEnded(r, h, events, x);
    if NeverEnds(r, h, events, i + 1, x) {
      assert OpenSince(r, h, events, i, x);
    }
  }

  /**
    When the drain of a lease is fulfilled, each request but the owner's, each upgrade, socket, session,
    handler and cleanup that ever began has ended; and so it stays while the lease keeps the suspension.
   */
  lemma DrainWaitsForEverything(r: Registry, h: Listener, events: seq<Event>, l: nat, i: nat, x: nat)
    requires Inv(h) && BegunAt(r, h, events, i, x)
    requires var t := Run(h, events);
      t.suspension == Some(l) && l < |t.leases| && t.leases[l].drained && (r.Requests? ==> t.leases[l].owner != Some(x))
    ensures !NeverEnds(r, h, events, i + 1, x)
  {
    RunKeeps(h, events);
    var t := Run(h, events);
    assert Ordered(t.leases[l]) && DrainInv(t, t.leases[l]);
    GoneMeansEnded(r, h, events, i, x);
  }

  /** When a close has succeeded, everything that ever began has ended. */
  lemma CleanCloseWaitsForEverything(r: Registry, h: Listener, events: seq<Event>, i: nat, x: nat)
    requires Inv(h) && BegunAt(r, h, events, i, x) && Run(h, events).closing == Closed(true)
    ensures !NeverEnds(r, h, events, i + 1, x)
  {
    RunKeeps(h, events);
    GoneMeansEnded(r, h, events, i, x);
  }

  /** An upgrade keeps what it read when it came in until it is decided, and a socket what it read when it opened. */
  lemma {:induction false} GenerationsAreThoseOfTheBeginning(h: Listener, events: seq<Event>, i: nat, x: nat)
    requires Inv(h)
    ensures OpenSince(Upgrades, h, events, i, x) ==>
      var origin := Run(h, events[..i]);
      x in Run(h, events).upgrades && Run(h, events).upgrades[x] == Upgrade(origin.generation, origin.bindings)
    ensures OpenSince(Sockets, h, events, i, x) ==>
      var origin := Run(h, events[..i]);
      x in Run(h, events).sockets && Run(h, events).sockets[x] == Socket(origin.generation, origin.bindings, true)
    decreases |events|
  {
    if i < |events| {
      var n := |events| - 1;
      var init, e := events[..n], events[n];
      assert events == init + [e] && events[..i] == init[..i];
      RunLast(h, init, e);
      RunKeeps(h, init);
      var before := Run(h, init);
      if i < n {
        GenerationsAreThoseOfTheBeginning(h, init, i, x);
        HistoryHolds(Upgrades, h, init, e, i, x);
        HistoryHolds(Sockets, h, init, e, i, x);
        hide Run;
        KeepsWhatItRead(before, e, x);
      } else {
        assert before == Run(h, events[..i]);
        hide Run;
        ReadsTheGeneration(before, e, x);
      }
    }
  }

  lemma HistoryHolds(r: Registry, h: Listener, init: seq<Event>, e: Event, i: nat, x: nat)
    requires i < |init|
    ensures OpenSince(r, h, init + [e], i, x) <==> OpenSince(r, h, init, i, x) && !Ends(r, Run(h, init), e, x)
  {
    hide Begins, Ends, Run;
    var events, n := init + [e], |init|;
    assert forall j: nat | j < n :: events[..j] == init[..j] && events[j] == init[j];
    assert events[..n] == init;
  }

  lemma ReadsTheGeneration(h: Listener, e: Event, x: nat)
    requires Inv(h)
    ensures Begins(Upgrades, h, e, x) ==>
      x in Step(h, e).upgrades && Step(h, e).upgrades[x] == Upgrade(h.generation, h.bindings)
    ensures Begins(Sockets, h, e, x) ==>
      x in Step(h, e).sockets && Step(h, e).sockets[x] == Socket(h.generation, h.bindings, true)
  {
  }

  lemma KeepsWhatItRead(h: Listener, e: Event, x: nat)
    requires Inv(h)
    ensures x in h.upgrades && !Ends(Upgrades, h, e, x) ==>
      x in Step(h, e).upgrades && Step(h, e).upgrades[x] == h.upgrades[x]
    ensures x in h.sockets && h.sockets[x].open && !Ends(Sockets, h, e, x) ==>
      x in Step(h, e).sockets && Step(h, e).sockets[x] == h.sockets[x]
  {
    match e
    case DrainContinues(l, clean, timedOut) =>
      OthersLeaveTheRegistries(Sockets, h, e, x);
      DrainTurnMovesOneLease(h, l, clean, timedOut);
    case Peer(t) => PeerKeepsWhatItRead(h, t, x);
    case _ =>
  }

  lemma PeerKeepsWhatItRead(h: Listener, t: Traffic, x: nat)
    requires Inv(h)
    ensures x in h.upgrades && !Ends(Upgrades, h, Peer(t), x) ==>
      x in TrafficTurn(h, t).upgrades && TrafficTurn(h, t).upgrades[x] == h.upgrades[x]
    ensures x in h.sockets && h.sockets[x].open && !Ends(Sockets, h, Peer(t), x) ==>
      x in TrafficTurn(h, t).sockets && TrafficTurn(h, t).sockets[x] == h.sockets[x]
  {
  }
}
