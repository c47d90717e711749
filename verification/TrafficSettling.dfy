/**
  Whatever traffic and calls are under way, they can settle one by one while everything else stays as it
  is: what the coroutines of the application wait for besides each other.
 */
module TrafficSettling {
  import opened Results
  import H = HttpListeners
  import opened Lifecycles

  /** Nothing is under way but the request that asked for the restore. */
  ghost predicate Still(s: App, owner: Option<nat>) {
    H.Quiet(s.http, owner) && s.admission.pending == {}
  }

  lemma RunFirst(s: App, e: Event, rest: seq<Event>)
    ensures Run(s, [e] + rest) == Run(Step(s, e), rest)
  {
    assert ([e] + rest)[1..] == rest;
  }

  function OpenSockets(h: H.Listener): set<nat> {
    set k | k in h.sockets && h.sockets[k].open
  }

  /** How many requests, upgrades, sockets, tasks and calls have not settled. */
  function Unsettled(s: App, owner: Option<nat>): nat {
    |s.http.requests - H.OwnerSet(owner)| + |s.http.upgrades.Keys| + |OpenSockets(s.http)| + |s.http.tasks|
    + |s.admission.pending|
  }

  /** An event in which something other than the owner's request settles. */
  predicate Settling(e: Event, owner: Option<nat>) {
    || e.CapabilitySettles?
    || (e.Peer? && match e.traffic
        case RequestSettles(id) => Some(id) != owner
        case UpgradeDecides(_, authorized, _, _, _) => !authorized
        case SocketCloses(_, cleanup) => cleanup.None?
        case TaskSettles(_) => true
        case _ => false)
  }

  /** The application but for its traffic. */
  predicate SameButTraffic(s: App, t: App) {
    && s == t.(http := s.http, admission := s.admission)
    && s.http == t.http.(requests := s.http.requests, upgrades := s.http.upgrades, sockets := s.http.sockets,
                         tasks := s.http.tasks)
    && s.admission.accepting == t.admission.accepting
  }

  /** As long as something has not settled, something can. */
  lemma SettleOne(s: App, owner: Option<nat>) returns (e: Event)
    requires H.ServingInv(s.http) && Unsettled(s, owner) > 0
    ensures Settling(e, owner) && SameButTraffic(s, Step(s, e))
    ensures Unsettled(Step(s, e), owner) < Unsettled(s, owner)
  {
    var others := s.http.requests - H.OwnerSet(owner);
    if others != {} {
      e := SettleRequest(s, owner);
    } else if s.http.upgrades.Keys != {} {
      e := RefuseUpgrade(s, owner);
    } else if OpenSockets(s.http) != {} {
      e := CloseSocket(s, owner);
    } else if s.http.tasks != {} {
      e := SettleTask(s, owner);
    } else {
      var p :| p in s.admission.pending;
      e := CapabilitySettles(p);
    }
  }

  lemma SettleRequest(s: App, owner: Option<nat>) returns (e: Event)
    requires s.http.requests - H.OwnerSet(owner) != {}
    ensures Settling(e, owner) && SameButTraffic(s, Step(s, e))
    ensures Unsettled(Step(s, e), owner) < Unsettled(s, owner)
  {
    var others := s.http.requests - H.OwnerSet(owner);
    var id :| id in others;
    e := Peer(H.RequestSettles(id));
    var t := Step(s, e);
    assert t == s.(http := s.http.(requests := s.http.requests - {id}));
    hide Step;
    assert t.http.requests - H.OwnerSet(owner) == others - {id};
  }

  lemma RefuseUpgrade(s: App, owner: Option<nat>) returns (e: Event)
    requires s.http.upgrades.Keys != {}
    ensures Settling(e, owner) && SameButTraffic(s, Step(s, e))
    ensures Unsettled(Step(s, e), owner) < Unsettled(s, owner)
  {
    var id :| id in s.http.upgrades.Keys;
    e := Peer(H.UpgradeDecides(id, false, false, 0, None));
    assert Step(s, e).http.upgrades.Keys == s.http.upgrades.Keys - {id};
  }

  lemma CloseSocket(s: App, owner: Option<nat>) returns (e: Event)
    requires OpenSockets(s.http) != {}
    ensures Settling(e, owner) && SameButTraffic(s, Step(s, e))
    ensures Unsettled(Step(s, e), owner) < Unsettled(s, owner)
  {
    var k :| k in OpenSockets(s.http);
    e := Peer(H.SocketCloses(k, None));
    assert OpenSockets(Step(s, e).http) == OpenSockets(s.http) - {k};
  }

  lemma SettleTask(s: App, owner: Option<nat>) returns (e: Event)
    requires s.http.tasks != {} && s.http.upgrades.Keys == {}
    ensures Settling(e, owner) && SameButTraffic(s, Step(s, e))
    ensures Unsettled(Step(s, e), owner) < Unsettled(s, owner)
  {
    var task :| task in s.http.tasks;
    e := Peer(H.TaskSettles(task));
    assert Step(s, e).http.tasks == s.http.tasks - {task};
  }

  lemma NothingUnsettled(s: App, owner: Option<nat>)
    requires Unsettled(s, owner) == 0
    ensures Still(s, owner)
  {
    assert s.http.requests - H.OwnerSet(owner) == {} && OpenSockets(s.http) == {};
    assert forall k | k in s.http.sockets && s.http.sockets[k].open :: k in OpenSockets(s.http);
    assert s.http.upgrades.Keys == {};
  }

  /** All traffic but the owner's request settles, and nothing else changes. */
  lemma {:induction false} SettleTraffic(s: App, owner: Option<nat>) returns (events: seq<Event>)
    requires Inv(s)
    ensures forall e | e in events :: Settling(e, owner)
    ensures var t := Run(s, events); Inv(t) && Still(t, owner) && SameButTraffic(s, t)
    decreases Unsettled(s, owner)
  {
    if Unsettled(s, owner) == 0 {
      NothingUnsettled(s, owner);
      return [];
    }
    var e := SettleOne(s, owner);
    StepKeeps(s, e);
    hide Inv, Still, Step, Settling, Unsettled;
    var rest := SettleTraffic(Step(s, e), owner);
    RunFirst(s, e, rest);
    events := [e] + rest;
  }

  /** The owner's request is still there when everything else has settled. */
  lemma {:induction false} OwnerStays(s: App, owner: nat, events: seq<Event>)
    requires owner in s.http.requests && forall e | e in events :: Settling(e, Some(owner))
    ensures owner in Run(s, events).http.requests
    decreases |events|
  {
    if events != [] {
      var e := events[0];
      assert e in events && Settling(e, Some(owner));
      assert owner in Step(s, e).http.requests;
      assert forall later | later in events[1..] :: later in events;
      hide Step, Settling;
      OwnerStays(Step(s, e), owner, events[1..]);
    }
  }
}
