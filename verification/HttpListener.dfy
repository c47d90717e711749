/**
  The HTTP listener: request and upgrade admission, the suspension lease a maintenance owner works
  through, and the two drain coroutines.

  One function below is one synchronous turn of the event loop. A coroutine is a phase; a turn that
  finds the awaited condition still false leaves the listener as it is. Requests, upgrades, sockets and
  WebSocket tasks are identified by number, and so are compiled route bindings. `served` is a history
  variable: the bindings that answered for each generation in which the listener was accepting.
 */
module HttpListeners {
  import opened Results

  /** An upgrade whose authorization is still running, with what it read when it was admitted. */
  datatype Upgrade = Upgrade(generation: nat, bindings: nat)

  /** An upgraded socket: the generation it opened in and the bindings whose route authorized it. */
  datatype Socket = Socket(generation: nat, authorizedBy: nat, open: bool)

  /** Where `drainHttpTransport` stands; `faulty` says that it has already collected a failure. */
  datatype Drain =
    | NotStarted
    | Scheduled
    | AwaitRequests(waiting: set<nat>, faulty: bool)
    | AwaitTasks(waiting: set<nat>, faulty: bool)
    | Confirming(faulty: bool)
    | AwaitLast(waiting: set<nat>, faulty: bool)
    | Fulfilled
    | Rejected

  datatype Lease = Lease(owner: Option<nat>, drain: Drain, drained: bool,
                         replacing: bool, compiling: bool, replaced: bool)

  /** Where `closeHttpResources` stands; the three task loops are told apart by `loop`. */
  datatype Closing =
    | NotClosing
    | CloseScheduled
    | CloseRequests(waiting: set<nat>, faulty: bool)
    | CloseTasks(loop: nat, waiting: set<nat>, faulty: bool)
    | CloseServer(faulty: bool)
    | CloseWebSocketServer(faulty: bool)
    | CloseConfirming(faulty: bool)
    | Closed(ok: bool)

  datatype Listener = Listener(
    accepting: bool,
    generation: nat,
    bindings: nat,
    suspension: Option<nat>,
    closing: Closing,
    requests: set<nat>,
    upgrades: map<nat, Upgrade>,
    sockets: map<nat, Socket>,
    tasks: set<nat>,
    leases: seq<Lease>,
    served: map<nat, nat>)

  function Opened(bindings: nat): Listener {
    Listener(true, 0, bindings, None, NotClosing, {}, map[], map[], {}, [], map[0 := bindings])
  }

  predicate Current(h: Listener, l: nat) {
    h.closing.NotClosing? && h.suspension == Some(l) && l < |h.leases|
  }

  predicate AllClosed(h: Listener) {
    forall s | s in h.sockets :: !h.sockets[s].open
  }

  function OwnerSet(owner: Option<nat>): set<nat> {
    if owner.Some? then {owner.value} else {}
  }

  function WithLease(h: Listener, l: nat, lease: Lease): Listener
    requires l < |h.leases|
  {
    h.(leases := h.leases[l := lease])
  }

  // ---------------------------------------------------------------- the lease

  /** `usable`: the owner's response is unfinished, its socket is alive and no other request shares it. */
  predicate CanSuspend(h: Listener, owner: Option<nat>, usable: bool) {
    && h.closing.NotClosing? && h.suspension.None? && h.accepting
    && (owner.Some? ==> owner.value in h.requests && usable)
  }

  function Suspend(h: Listener, owner: Option<nat>, usable: bool): Listener {
    if !CanSuspend(h, owner, usable) then h
    else h.(accepting := false, generation := h.generation + 1, suspension := Some(|h.leases|),
            leases := h.leases + [Lease(owner, NotStarted, false, false, false, false)])
  }

  function DrainCall(h: Listener, l: nat): Listener {
    if Current(h, l) && h.leases[l].drain.NotStarted?
    then WithLease(h, l, h.leases[l].(drain := Scheduled))
    else h
  }

  /** Where a drain goes next, and whether it clears the registry of sockets on its way. */
  datatype DrainMove = DrainMove(drain: Drain, clears: bool)

  /** The head of the first task loop: leave it, or wait for a snapshot of the tasks. */
  function EnterTasks(h: Listener, faulty: bool): DrainMove {
    DrainMove(if h.tasks == {} then Confirming(faulty) else AwaitTasks(h.tasks, faulty), false)
  }

  /** The head of the second task loop. Leaving it, the rest of the drain runs in the same turn. */
  function EnterLast(h: Listener, l: nat, faulty: bool, clean: bool): DrainMove {
    if h.tasks != {} then DrainMove(AwaitLast(h.tasks, faulty), false)
    else if faulty || !clean then DrainMove(Rejected, false)
    else if Current(h, l) then DrainMove(Fulfilled, true)
    else DrainMove(Rejected, true)
  }

  /**
    One continuation of a lease's drain. `clean`: no cleanup call, request handler or WebSocket owner
    reported a failure to this turn; `timedOut`: the confirmation deadline has passed.
   */
  function NextDrain(h: Listener, l: nat, clean: bool, timedOut: bool): DrainMove
    requires l < |h.leases|
  {
    var lease := h.leases[l];
    match lease.drain
    case Scheduled => DrainMove(AwaitRequests(h.requests - OwnerSet(lease.owner), !clean), false)
    case AwaitRequests(waiting, faulty) =>
      if waiting !! h.requests then EnterTasks(h, faulty || !clean) else DrainMove(lease.drain, false)
    case AwaitTasks(waiting, faulty) =>
      if waiting !! h.tasks then EnterTasks(h, faulty) else DrainMove(lease.drain, false)
    case Confirming(faulty) =>
      if AllClosed(h) then EnterLast(h, l, faulty, clean)
      else if timedOut then EnterLast(h, l, true, clean)
      else DrainMove(lease.drain, false)
    case AwaitLast(waiting, faulty) =>
      if waiting !! h.tasks then EnterLast(h, l, faulty, clean) else DrainMove(lease.drain, false)
    case _ => DrainMove(lease.drain, false)
  }

  function DrainTurn(h: Listener, l: nat, clean: bool, timedOut: bool): Listener {
    if l >= |h.leases| then h
    else
      var move := NextDrain(h, l, clean, timedOut);
      var lease := h.leases[l].(drain := move.drain, drained := h.leases[l].drained || move.drain.Fulfilled?);
      WithLease(if move.clears then h.(sockets := map[]) else h, l, lease)
  }

  predicate CanBeginReplace(h: Listener, l: nat) {
    Current(h, l) && h.leases[l].drained && !h.leases[l].replaced && !h.leases[l].replacing
  }

  function BeginReplace(h: Listener, l: nat): Listener {
    if CanBeginReplace(h, l)
    then WithLease(h, l, h.leases[l].(replacing := true, compiling := true))
    else h
  }

  /** `prepared` is None when compiling the new bindings failed. */
  predicate ReplaceLands(h: Listener, l: nat, prepared: Option<nat>) {
    l < |h.leases| && h.leases[l].compiling && prepared.Some? && Current(h, l)
  }

  function FinishReplace(h: Listener, l: nat, prepared: Option<nat>): Listener {
    if ReplaceLands(h, l, prepared) then
      WithLease(h, l, h.leases[l].(compiling := false, replaced := true)).(bindings := prepared.value)
    else if l < |h.leases| then
      WithLease(h, l, h.leases[l].(compiling := false))
    else h
  }

  predicate CanResume(h: Listener, l: nat) {
    Current(h, l) && h.leases[l].drained && h.leases[l].replaced
  }

  function Resume(h: Listener, l: nat): Listener {
    if CanResume(h, l)
    then h.(suspension := None, accepting := true, served := h.served[h.generation := h.bindings])
    else h
  }

  // ---------------------------------------------------------------- closing

  function CloseCall(h: Listener): Listener {
    if h.closing.NotClosing?
    then h.(accepting := false, generation := h.generation + 1, closing := CloseScheduled)
    else h
  }

  /** The head of one of the three task loops of the close coroutine, and what follows each. */
  function EnterCloseLoop(h: Listener, loop: nat, faulty: bool, clean: bool): Closing {
    if h.tasks != {} then CloseTasks(loop, h.tasks, faulty)
    else if loop == 0 then CloseServer(faulty)
    else if loop == 1 then CloseWebSocketServer(faulty)
    else Closed(!faulty && clean)
  }

  function NextClosing(h: Listener, clean: bool, timedOut: bool): Closing {
    match h.closing
    case CloseScheduled => CloseRequests(h.requests, !clean)
    case CloseRequests(waiting, faulty) =>
      if waiting !! h.requests then EnterCloseLoop(h, 0, faulty || !clean, clean) else h.closing
    case CloseTasks(loop, waiting, faulty) =>
      if waiting !! h.tasks then EnterCloseLoop(h, loop, faulty, clean) else h.closing
    case CloseServer(faulty) => EnterCloseLoop(h, 1, faulty || !clean, clean)
    case CloseWebSocketServer(faulty) => CloseConfirming(faulty || !clean)
    case CloseConfirming(faulty) =>
      if AllClosed(h) then EnterCloseLoop(h, 2, faulty, clean)
      else if timedOut then EnterCloseLoop(h, 2, true, clean)
      else h.closing
    case _ => h.closing
  }

  function CloseTurn(h: Listener, clean: bool, timedOut: bool): Listener {
    h.(closing := NextClosing(h, clean, timedOut))
  }

  // ---------------------------------------------------------------- traffic

  /** The gate a channel of socket generation `g` asks before it admits or dispatches a message. */
  predicate Gate(h: Listener, g: nat) {
    h.accepting && h.generation == g
  }

  function UpgradeDecided(h: Listener, id: nat, authorized: bool, destroyed: bool,
                          socket: nat, session: Option<nat>): Listener {
    if id !in h.upgrades then h
    else
      var upgrade := h.upgrades[id];
      var decided := h.(upgrades := h.upgrades - {id});
      if !authorized || !h.accepting || h.generation != upgrade.generation || destroyed || socket in h.sockets
      then decided
      else decided.(sockets := h.sockets[socket := Socket(h.generation, upgrade.bindings, true)],
                    tasks := h.tasks + OwnerSet(session))
  }

  /** What peers and handlers do. */
  datatype Traffic =
    | RequestArrives(id: nat)
    | RequestSettles(id: nat)
    | UpgradeArrives(id: nat)
    | UpgradeDecides(id: nat, authorized: bool, destroyed: bool, socket: nat, session: Option<nat>)
    | HandlerStarts(socket: nat, task: nat)
    | SocketCloses(socket: nat, cleanup: Option<nat>)
    | TaskSettles(task: nat)

  function TrafficTurn(h: Listener, t: Traffic): Listener {
    match t
    case RequestArrives(id) =>
      if h.accepting then h.(requests := h.requests + {id}) else h
    case RequestSettles(id) => h.(requests := h.requests - {id})
    case UpgradeArrives(id) =>
      if h.accepting && id !in h.tasks
      then h.(upgrades := h.upgrades[id := Upgrade(h.generation, h.bindings)], tasks := h.tasks + {id})
      else h
    case UpgradeDecides(id, authorized, destroyed, socket, session) =>
      UpgradeDecided(h, id, authorized, destroyed, socket, session)
    case HandlerStarts(socket, task) =>
      if socket in h.sockets && h.sockets[socket].open && Gate(h, h.sockets[socket].generation)
      then h.(tasks := h.tasks + {task})
      else h
    case SocketCloses(socket, cleanup) =>
      if socket in h.sockets && h.sockets[socket].open
      then h.(sockets := h.sockets[socket := h.sockets[socket].(open := false)],
              tasks := h.tasks + OwnerSet(cleanup))
      else h
    case TaskSettles(task) =>
      if task in h.upgrades then h else h.(tasks := h.tasks - {task})
  }

  // ---------------------------------------------------------------- runs

  datatype Event =
    | SuspendCalled(owner: Option<nat>, usable: bool)
    | DrainCalled(lease: nat)
    | DrainContinues(lease: nat, clean: bool, timedOut: bool)
    | ReplaceCalled(lease: nat)
    | ReplaceContinues(lease: nat, prepared: Option<nat>)
    | ResumeCalled(lease: nat)
    | CloseCalled
    | CloseContinues(clean: bool, timedOut: bool)
    | Peer(traffic: Traffic)

  function Step(h: Listener, e: Event): Listener {
    match e
    case SuspendCalled(owner, usable) => Suspend(h, owner, usable)
    case DrainCalled(l) => DrainCall(h, l)
    case DrainContinues(l, clean, timedOut) => DrainTurn(h, l, clean, timedOut)
    case ReplaceCalled(l) => BeginReplace(h, l)
    case ReplaceContinues(l, prepared) => FinishReplace(h, l, prepared)
    case ResumeCalled(l) => Resume(h, l)
    case CloseCalled => CloseCall(h)
    case CloseContinues(clean, timedOut) => CloseTurn(h, clean, timedOut)
    case Peer(t) => TrafficTurn(h, t)
  }

  function Run(h: Listener, events: seq<Event>): Listener
    decreases |events|
  {
    if events == [] then h else Run(Step(h, events[0]), events[1..])
  }

  // ---------------------------------------------------------------- what every run keeps

  /** Generation and bindings: one set of bindings serves one accepting generation. */
  ghost predicate ServingInv(h: Listener) {
    && (h.accepting <==> h.generation in h.served)
    && (h.accepting <==> h.suspension.None? && h.closing.NotClosing?)
    && (h.accepting ==> h.served[h.generation] == h.bindings)
    && (forall g | g in h.served :: g <= h.generation)
    && (forall u | u in h.upgrades ::
          && u in h.tasks
          && h.upgrades[u].generation in h.served
          && h.served[h.upgrades[u].generation] == h.upgrades[u].bindings)
    && (forall s | s in h.sockets ::
          && h.sockets[s].generation in h.served
          && h.served[h.sockets[s].generation] == h.sockets[s].authorizedBy)
  }

  /** Nothing but the owner's request is left of the traffic that was admitted. */
  ghost predicate Quiet(h: Listener, owner: Option<nat>) {
    h.requests <= OwnerSet(owner) && h.tasks == {} && h.upgrades == map[] && AllClosed(h)
  }

  ghost predicate DrainInv(h: Listener, lease: Lease) {
    match lease.drain
    case AwaitRequests(waiting, _) => h.requests <= OwnerSet(lease.owner) + waiting
    case AwaitTasks(_, _) => h.requests <= OwnerSet(lease.owner)
    case Confirming(_) => h.requests <= OwnerSet(lease.owner)
    case AwaitLast(_, faulty) => h.requests <= OwnerSet(lease.owner) && (!faulty ==> AllClosed(h))
    case Fulfilled => Quiet(h, lease.owner) && h.sockets == map[]
    case _ => true
  }

  ghost predicate LeaseInv(h: Listener) {
    && (h.suspension.Some? ==> h.suspension.value < |h.leases| && DrainInv(h, h.leases[h.suspension.value]))
    && (forall l | 0 <= l < |h.leases| :: Ordered(h.leases[l]))
    && (forall l | 0 <= l < |h.leases| && h.suspension != Some(l) :: h.leases[l].drained && h.leases[l].replaced)
  }

  /** The flags of one lease only ever rise in this order. */
  predicate Ordered(lease: Lease) {
    && (lease.drained <==> lease.drain.Fulfilled?)
    && (lease.compiling ==> lease.replacing && !lease.replaced)
    && (lease.replaced ==> lease.replacing)
    && (lease.replacing ==> lease.drained)
  }

  ghost predicate ClosingInv(h: Listener) {
    match h.closing
    case CloseRequests(waiting, _) => h.requests <= waiting
    case CloseTasks(loop, _, faulty) => h.requests == {} && loop <= 2 && (loop == 2 && !faulty ==> AllClosed(h))
    case CloseServer(_) => h.requests == {}
    case CloseWebSocketServer(_) => h.requests == {}
    case CloseConfirming(_) => h.requests == {}
    case Closed(ok) => h.requests == {} && (ok ==> Quiet(h, None))
    case _ => true
  }

  ghost predicate Inv(h: Listener) {
    ServingInv(h) && LeaseInv(h) && ClosingInv(h)
  }

  lemma OpenedInv(bindings: nat)
    ensures Inv(Opened(bindings))
  {
  }

  /** A turn that only moves one lease along. */
  lemma LeaseChangeKeeps(h: Listener, l: nat, lease: Lease)
    requires Inv(h) && l < |h.leases| && Ordered(lease)
    requires if h.suspension == Some(l) then DrainInv(h, lease) else lease.drained && lease.replaced
    ensures Inv(WithLease(h, l, lease))
  {
    var after := WithLease(h, l, lease);
    assert forall k | 0 <= k < |after.leases| :: after.leases[k] == if k == l then lease else h.leases[k];
    if h.suspension.Some? {
      assert DrainInv(after, after.leases[h.suspension.value]);
    }
  }

  /** A turn that only moves the close coroutine along. */
  lemma ClosingChangeKeeps(h: Listener, closing: Closing)
    requires Inv(h) && !h.closing.NotClosing? && !closing.NotClosing?
    requires ClosingInv(h.(closing := closing))
    ensures Inv(h.(closing := closing))
  {
    var after := h.(closing := closing);
    if h.suspension.Some? {
      assert DrainInv(after, after.leases[h.suspension.value]);
    }
  }

  lemma NoTasksNoUpgrades(h: Listener)
    requires ServingInv(h) && h.tasks == {}
    ensures h.upgrades == map[]
  {
    assert forall u | u in h.upgrades :: u in h.tasks;
  }

  lemma SuspendKeeps(h: Listener, owner: Option<nat>, usable: bool)
    requires Inv(h)
    ensures Inv(Suspend(h, owner, usable))
  {
  }

  lemma DrainCallKeeps(h: Listener, l: nat)
    requires Inv(h)
    ensures Inv(DrainCall(h, l))
  {
  }

  lemma DrainTurnKeeps(h: Listener, l: nat, clean: bool, timedOut: bool)
    requires Inv(h)
    ensures Inv(DrainTurn(h, l, clean, timedOut))
  {
    if l < |h.leases| {
      var move := NextDrain(h, l, clean, timedOut);
      var lease := h.leases[l].(drain := move.drain, drained := h.leases[l].drained || move.drain.Fulfilled?);
      if h.tasks == {} {
        NoTasksNoUpgrades(h);
      }
      assert Ordered(h.leases[l]);
      var base := if move.clears then h.(sockets := map[]) else h;
      assert Inv(base);
      LeaseChangeKeeps(base, l, lease);
    }
  }

  lemma ReplaceKeeps(h: Listener, l: nat, prepared: Option<nat>)
    requires Inv(h)
    ensures Inv(BeginReplace(h, l))
    ensures Inv(FinishReplace(h, l, prepared))
  {
    if CanBeginReplace(h, l) {
      LeaseChangeKeeps(h, l, h.leases[l].(replacing := true, compiling := true));
    }
    if ReplaceLands(h, l, prepared) {
      LeaseChangeKeeps(h, l, h.leases[l].(compiling := false, replaced := true));
    } else if l < |h.leases| {
      LeaseChangeKeeps(h, l, h.leases[l].(compiling := false));
    }
  }

  lemma ResumeKeeps(h: Listener, l: nat)
    requires Inv(h)
    ensures Inv(Resume(h, l))
  {
  }

  lemma CloseCallKeeps(h: Listener)
    requires Inv(h)
    ensures Inv(CloseCall(h))
  {
  }

  lemma CloseTurnKeeps(h: Listener, clean: bool, timedOut: bool)
    requires Inv(h)
    ensures Inv(CloseTurn(h, clean, timedOut))
  {
    if !h.closing.NotClosing? {
      if h.tasks == {} {
        NoTasksNoUpgrades(h);
      }
      ClosingChangeKeeps(h, NextClosing(h, clean, timedOut));
    }
  }

  /** Traffic moves neither a coroutine nor a flag, and adds nothing while the listener is suspended. */
  lemma TrafficFrame(h: Listener, t: Traffic)
    requires ServingInv(h)
    ensures var after := TrafficTurn(h, t);
            && after == h.(requests := after.requests, upgrades := after.upgrades,
                           sockets := after.sockets, tasks := after.tasks)
            && (!h.accepting ==> after.requests <= h.requests && after.upgrades.Keys <= h.upgrades.Keys)
            && (!h.accepting && AllClosed(h) ==> AllClosed(after) && after.tasks <= h.tasks)
  {
  }

  lemma TrafficKeepsServing(h: Listener, t: Traffic)
    requires ServingInv(h)
    ensures ServingInv(TrafficTurn(h, t))
  {
  }

  lemma TrafficKeeps(h: Listener, t: Traffic)
    requires Inv(h)
    ensures Inv(TrafficTurn(h, t))
  {
    TrafficFrame(h, t);
    TrafficKeepsServing(h, t);
    var after := TrafficTurn(h, t);
    if h.suspension.Some? {
      assert DrainInv(after, after.leases[h.suspension.value]);
    }
  }

  lemma StepKeeps(h: Listener, e: Event)
    requires Inv(h)
    ensures Inv(Step(h, e))
  {
    match e
    case SuspendCalled(owner, usable) => SuspendKeeps(h, owner, usable);
    case DrainCalled(l) => DrainCallKeeps(h, l);
    case DrainContinues(l, clean, timedOut) => DrainTurnKeeps(h, l, clean, timedOut);
    case ReplaceCalled(l) => ReplaceKeeps(h, l, None);
    case ReplaceContinues(l, prepared) => ReplaceKeeps(h, l, prepared);
    case ResumeCalled(l) => ResumeKeeps(h, l);
    case CloseCalled => CloseCallKeeps(h);
    case CloseContinues(clean, timedOut) => CloseTurnKeeps(h, clean, timedOut);
    case Peer(t) => TrafficKeeps(h, t);
  }

  lemma {:induction false} RunKeeps(h: Listener, events: seq<Event>)
    requires Inv(h)
    ensures Inv(Run(h, events))
    decreases |events|
  {
    if events != [] {
      StepKeeps(h, events[0]);
      RunKeeps(Step(h, events[0]), events[1..]);
    }
  }

  // ---------------------------------------------------------------- theorems about runs

  /** History only grows: no turn rewrites what served an earlier generation. */
  ghost predicate Extends(before: Listener, after: Listener) {
    && before.generation <= after.generation
    && (forall g | g in before.served :: g in after.served && after.served[g] == before.served[g])
    && (forall g | g in after.served && g !in before.served :: before.generation <= g)
  }

  lemma StepExtends(h: Listener, e: Event)
    requires Inv(h)
    ensures Extends(h, Step(h, e))
  {
    match e
    case DrainContinues(l, clean, timedOut) => DrainTurnMovesOneLease(h, l, clean, timedOut);
    case Peer(t) => assert Step(h, e).served == h.served;
    case _ =>
  }

  lemma {:induction false} RunExtends(h: Listener, events: seq<Event>)
    requires Inv(h)
    ensures Extends(h, Run(h, events))
    decreases |events|
  {
    if events != [] {
      StepKeeps(h, events[0]);
      StepExtends(h, events[0]);
      RunExtends(Step(h, events[0]), events[1..]);
    }
  }

  /**
    Every upgraded socket was authorized by the bindings that serve the generation it opens in, at the
    moment it opens and at every later moment of the run.
   */
  lemma SocketsOpenUnderTheBindingsThatAuthorizedThem(h: Listener, e: Event, later: seq<Event>, s: nat)
    requires Inv(h) && s !in h.sockets && s in Step(h, e).sockets
    ensures h.accepting
    ensures var socket := Step(h, e).sockets[s];
            && socket.generation == h.generation
            && socket.authorizedBy == h.bindings
            && socket.generation in Run(Step(h, e), later).served
            && Run(Step(h, e), later).served[socket.generation] == socket.authorizedBy
  {
    SocketsComeFromUpgrades(h, e, s);
    StepKeeps(h, e);
    RunExtends(Step(h, e), later);
  }

  lemma SocketsComeFromUpgrades(h: Listener, e: Event, s: nat)
    requires ServingInv(h) && s !in h.sockets && s in Step(h, e).sockets
    ensures h.accepting && e.Peer? && e.traffic.UpgradeDecides?
    ensures Step(h, e).sockets[s] == Socket(h.generation, h.bindings, true)
    ensures Step(h, e).served == h.served
  {
    match e
    case DrainContinues(l, clean, timedOut) => DrainTurnMovesOneLease(h, l, clean, timedOut);
    case _ =>
  }

  /** The gate of a generation, once seen closed, is closed for the rest of the run. */
  lemma {:induction false} GateOnlyCloses(h: Listener, g: nat, events: seq<Event>)
    requires Inv(h)
    requires g in h.served && !Gate(h, g)
    ensures !Gate(Run(h, events), g)
    decreases |events|
  {
    if events != [] {
      StepKeeps(h, events[0]);
      StepExtends(h, events[0]);
      var next := Step(h, events[0]);
      assert !Gate(next, g) by {
        assert g <= h.generation && (g == h.generation ==> h.accepting);
      }
      GateOnlyCloses(next, g, events[1..]);
    }
  }

  /**
    Only the current lease, drained and replaced, reopens the listener, and at that moment nothing of the
    old generation is left except the owner's own request.
   */
  lemma OnlyTheCurrentLeaseReopens(h: Listener, e: Event)
    requires Inv(h) && !h.accepting && Step(h, e).accepting
    ensures e.ResumeCalled? && CanResume(h, e.lease)
    ensures Quiet(h, h.leases[e.lease].owner)
    ensures Step(h, e).served[h.generation] == h.bindings && h.generation !in h.served
  {
    SuspensionMoves(h, e);
    assert DrainInv(h, h.leases[e.lease]);
  }

  /** How the suspension and the admission flag move in one turn. */
  lemma SuspensionMoves(h: Listener, e: Event)
    ensures |Step(h, e).leases| >= |h.leases|
    ensures Step(h, e).suspension != h.suspension ==>
              || (e.SuspendCalled? && Step(h, e).suspension == Some(|h.leases|))
              || (e.ResumeCalled? && CanResume(h, e.lease) && Step(h, e).suspension.None?)
    ensures !h.accepting && Step(h, e).accepting ==> e.ResumeCalled? && CanResume(h, e.lease)
  {
    match e
    case DrainContinues(l, clean, timedOut) => DrainTurnMovesOneLease(h, l, clean, timedOut);
    case _ =>
  }

  lemma DrainTurnMovesOneLease(h: Listener, l: nat, clean: bool, timedOut: bool)
    ensures var after := DrainTurn(h, l, clean, timedOut);
            && after == h.(leases := after.leases, sockets := after.sockets)
            && (after.sockets == h.sockets || after.sockets == map[])
            && |after.leases| == |h.leases|
            && (forall k | 0 <= k < |h.leases| && k != l :: after.leases[k] == h.leases[k])
  {
  }

  /** A drain turn touches only the drain part of its lease, and nothing once that has been fulfilled. */
  lemma DrainTurnMovesOnlyTheDrain(h: Listener, l: nat, clean: bool, timedOut: bool)
    requires Inv(h) && l < |h.leases|
    ensures var before, after := h.leases[l], DrainTurn(h, l, clean, timedOut).leases[l];
            && after == before.(drain := after.drain, drained := after.drained)
            && (before.drain.NotStarted? <==> after.drain.NotStarted?)
            && (before.drained ==> after == before)
  {
    assert Ordered(h.leases[l]);
  }

  /** The lease an event acts through, if any. */
  function LeaseOf(e: Event): Option<nat> {
    match e
    case DrainCalled(l) => Some(l)
    case DrainContinues(l, _, _) => Some(l)
    case ReplaceCalled(l) => Some(l)
    case ReplaceContinues(l, _) => Some(l)
    case ResumeCalled(l) => Some(l)
    case _ => None
  }

  /** A lease that no longer owns the suspension cannot change anything at all. */
  lemma StaleLeaseIsInert(h: Listener, e: Event)
    requires Inv(h) && LeaseOf(e).Some? && h.suspension != LeaseOf(e)
    ensures Step(h, e) == h
  {
    var l := LeaseOf(e).value;
    if l < |h.leases| {
      assert Ordered(h.leases[l]);
      assert WithLease(h, l, h.leases[l]) == h;
    }
  }

  /** After close() even the lease that owned the suspension can only finish its own bookkeeping. */
  lemma ClosedListenerIgnoresLeases(h: Listener, e: Event)
    requires Inv(h) && LeaseOf(e).Some? && !h.closing.NotClosing?
    ensures var after := Step(h, e);
            && (after.accepting, after.generation, after.bindings) == (h.accepting, h.generation, h.bindings)
            && (after.suspension, after.closing, after.served) == (h.suspension, h.closing, h.served)
            && (after.requests, after.tasks, after.upgrades) == (h.requests, h.tasks, h.upgrades)
  {
    match e
    case DrainContinues(l, clean, timedOut) => DrainTurnMovesOneLease(h, l, clean, timedOut);
    case _ =>
  }

  /** A replacement that was begun and failed: `replacing` is never taken back. */
  predicate ReplaceFailed(h: Listener, l: nat) {
    l < |h.leases| && h.leases[l].replacing && !h.leases[l].compiling && !h.leases[l].replaced
  }

  /** A failed replacement is final: the lease can never resume, so the listener never accepts again. */
  lemma {:induction false} FailedReplaceIsFinal(h: Listener, l: nat, events: seq<Event>)
    requires Inv(h) && ReplaceFailed(h, l)
    ensures ReplaceFailed(Run(h, events), l)
    ensures !Run(h, events).accepting && Run(h, events).bindings == h.bindings
    decreases |events|
  {
    assert h.suspension == Some(l);
    if events != [] {
      StepKeeps(h, events[0]);
      var next := Step(h, events[0]);
      ReplaceStaysFailed(h, l, events[0]);
      FailedReplaceIsFinal(next, l, events[1..]);
    }
  }

  lemma ReplaceStaysFailed(h: Listener, l: nat, e: Event)
    requires Inv(h) && ReplaceFailed(h, l)
    ensures ReplaceFailed(Step(h, e), l) && Step(h, e).bindings == h.bindings
  {
    assert Ordered(h.leases[l]);
    match e
    case DrainContinues(k, clean, timedOut) => DrainTurnMovesOneLease(h, k, clean, timedOut);
    case _ =>
  }

  /** Closing is final, and once it succeeds nothing admitted is left running for the rest of the run. */
  lemma {:induction false} ClosingIsFinal(h: Listener, events: seq<Event>)
    requires Inv(h) && !h.closing.NotClosing?
    ensures !Run(h, events).accepting && !Run(h, events).closing.NotClosing?
    ensures h.closing == Closed(true) ==> Quiet(Run(h, events), None)
    decreases |events|
  {
    if events != [] {
      StepKeeps(h, events[0]);
      var next := Step(h, events[0]);
      ClosingOnlyAdvances(h, events[0]);
      ClosingIsFinal(next, events[1..]);
    }
  }

  lemma ClosingOnlyAdvances(h: Listener, e: Event)
    requires ServingInv(h) && !h.closing.NotClosing?
    ensures !Step(h, e).closing.NotClosing? && (h.closing.Closed? ==> Step(h, e).closing == h.closing)
  {
    match e
    case DrainContinues(l, clean, timedOut) => DrainTurnMovesOneLease(h, l, clean, timedOut);
    case _ =>
  }

  /**
    From the moment a lease's drain is fulfilled, and for as long as the lease keeps the suspension, no
    admitted request except the owner's, no upgrade, no WebSocket task and no socket exists.
   */
  lemma {:induction false} DrainedStaysQuiet(h: Listener, l: nat, events: seq<Event>)
    requires Inv(h) && h.suspension == Some(l) && h.leases[l].drained
    requires Run(h, events).suspension == Some(l)
    ensures l < |Run(h, events).leases| && Run(h, events).leases[l].drained
    ensures Quiet(Run(h, events), h.leases[l].owner) && Run(h, events).sockets == map[]
    decreases |events|
  {
    if events != [] {
      StepKeeps(h, events[0]);
      var next := Step(h, events[0]);
      if next.suspension == Some(l) {
        LeasesKeepTheirOwner(h, events[0], l);
        DrainedStaysQuiet(next, l, events[1..]);
      } else {
        NeverSuspendedAgain(next, l, events[1..]);
      }
    }
  }

  lemma LeasesKeepTheirOwner(h: Listener, e: Event, l: nat)
    requires Inv(h) && l < |h.leases| && h.leases[l].drained
    ensures l < |Step(h, e).leases|
    ensures Step(h, e).leases[l].owner == h.leases[l].owner && Step(h, e).leases[l].drained
  {
    assert Ordered(h.leases[l]);
    match e
    case DrainContinues(k, clean, timedOut) =>
      DrainTurnMovesOneLease(h, k, clean, timedOut);
      if k < |h.leases| {
        DrainTurnMovesOnlyTheDrain(h, k, clean, timedOut);
      }
    case Peer(t) => TrafficFrame(h, t);
    case _ =>
  }

  /** A lease that has lost the suspension never gets it back: later suspensions get new leases. */
  lemma {:induction false} NeverSuspendedAgain(h: Listener, l: nat, events: seq<Event>)
    requires Inv(h) && l < |h.leases| && h.suspension != Some(l)
    ensures Run(h, events).suspension != Some(l)
    decreases |events|
  {
    if events != [] {
      StepKeeps(h, events[0]);
      SuspensionMoves(h, events[0]);
      NeverSuspendedAgain(Step(h, events[0]), l, events[1..]);
    }
  }

  // ---------------------------------------------------------------- the object

  datatype Denial = InvalidState | InvalidOwner

  /**
    The listener as the closure variables its handlers and leases share. Each method is one synchronous
    turn; its contract says which turn of the state machine above it is.
   */
  class HttpListener {
    var accepting: bool
    var generation: nat
    var bindings: nat
    var suspension: Option<nat>
    var closing: Closing
    var requests: set<nat>
    var upgrades: map<nat, Upgrade>
    var sockets: map<nat, Socket>
    var tasks: set<nat>
    var leases: seq<Lease>
    ghost var served: map<nat, nat>

    ghost function View(): Listener
      reads this
    {
      Listener(accepting, generation, bindings, suspension, closing, requests, upgrades, sockets, tasks, leases, served)
    }

    constructor (bindings: nat)
      ensures View() == Opened(bindings)
    {
      accepting, generation := true, 0;
      this.bindings := bindings;
      suspension, closing := None, NotClosing;
      requests, upgrades, sockets, tasks, leases := {}, map[], map[], {}, [];
      served := map[0 := bindings];
    }

    /** A request that is not admitted is answered with status 503. */
    method AdmitRequest(id: nat) returns (admitted: bool)
      modifies this
      ensures admitted <==> old(accepting)
      ensures View() == Step(old(View()), Peer(RequestArrives(id)))
    {
      if !accepting {
        return false;
      }
      requests := requests + {id};
      return true;
    }

    /** An upgrade that is not admitted has its raw socket destroyed. `id` is the promise of a new task. */
    method AdmitUpgrade(id: nat) returns (admitted: bool)
      requires id !in tasks
      modifies this
      ensures admitted <==> old(accepting)
      ensures View() == Step(old(View()), Peer(UpgradeArrives(id)))
    {
      if !accepting {
        return false;
      }
      upgrades := upgrades[id := Upgrade(generation, bindings)];
      tasks := tasks + {id};
      return true;
    }

    /** The authorization of an upgrade has answered; `socket` is the new socket if one opens. */
    method DecideUpgrade(id: nat, authorized: bool, destroyed: bool, socket: nat, session: Option<nat>)
      returns (connected: bool)
      requires id in upgrades && socket !in sockets
      modifies this
      ensures connected ==> old(accepting) && socket in sockets
      ensures connected ==> sockets[socket] == Socket(old(generation), old(upgrades)[id].bindings, true)
      ensures connected <==> authorized && !destroyed && Gate(old(View()), old(upgrades)[id].generation)
      ensures View() == Step(old(View()), Peer(UpgradeDecides(id, authorized, destroyed, socket, session)))
    {
      var admitted := upgrades[id];
      upgrades := upgrades - {id};
      if !authorized {
        return false;
      }
      if !accepting || generation != admitted.generation || destroyed {
        return false;
      }
      sockets := sockets[socket := Socket(generation, admitted.bindings, true)];
      if session.Some? {
        tasks := tasks + {session.value};
      }
      return true;
    }

    method SuspendTransport(owner: Option<nat>, usable: bool) returns (lease: Result<nat, Denial>)
      modifies this
      ensures lease.Ok? <==> CanSuspend(old(View()), owner, usable)
      ensures lease.Ok? ==> lease.value == |old(leases)|
      ensures View() == Step(old(View()), SuspendCalled(owner, usable))
    {
      if !closing.NotClosing? || suspension.Some? || !accepting {
        return Err(InvalidState);
      }
      if owner.Some? {
        if owner.value !in requests || !usable {
          return Err(InvalidOwner);
        }
      }
      accepting := false;
      generation := generation + 1;
      suspension := Some(|leases|);
      leases := leases + [Lease(owner, NotStarted, false, false, false, false)];
      return Ok(|leases| - 1);
    }

    method DrainLease(l: nat)
      modifies this
      ensures View() == Step(old(View()), DrainCalled(l))
    {
      if !closing.NotClosing? || suspension != Some(l) || l >= |leases| || !leases[l].drain.NotStarted? {
        return;
      }
      leases := leases[l := leases[l].(drain := Scheduled)];
    }

    /** A replace that cannot begin is rejected as invalid_state. */
    method ReplaceBindings(l: nat) returns (begun: bool)
      modifies this
      ensures begun <==> CanBeginReplace(old(View()), l)
      ensures View() == Step(old(View()), ReplaceCalled(l))
    {
      if !closing.NotClosing? || suspension != Some(l) || l >= |leases| {
        return false;
      }
      if !leases[l].drained || leases[l].replaced || leases[l].replacing {
        return false;
      }
      leases := leases[l := leases[l].(replacing := true, compiling := true)];
      return true;
    }

    /** The compilation of the new bindings has settled; `prepared` is None when it failed. */
    method LandBindings(l: nat, prepared: Option<nat>) returns (landed: bool)
      requires l < |leases|
      modifies this
      ensures landed <==> ReplaceLands(old(View()), l, prepared)
      ensures View() == Step(old(View()), ReplaceContinues(l, prepared))
    {
      var compiled := leases[l].compiling && prepared.Some?;
      leases := leases[l := leases[l].(compiling := false)];
      if !compiled || !closing.NotClosing? || suspension != Some(l) {
        return false;
      }
      bindings := prepared.value;
      leases := leases[l := leases[l].(replaced := true)];
      return true;
    }

    /** A resume that cannot be granted is refused as invalid_state. */
    method ResumeTransport(l: nat) returns (resumed: bool)
      modifies this
      ensures resumed <==> CanResume(old(View()), l)
      ensures View() == Step(old(View()), ResumeCalled(l))
    {
      if !closing.NotClosing? || suspension != Some(l) || l >= |leases| {
        return false;
      }
      if !leases[l].drained || !leases[l].replaced {
        return false;
      }
      suspension := None;
      accepting := true;
      served := served[generation := bindings];
      return true;
    }

    method Close()
      modifies this
      ensures View() == Step(old(View()), CloseCalled)
    {
      if !closing.NotClosing? {
        return;
      }
      accepting := false;
      generation := generation + 1;
      closing := CloseScheduled;
    }

    /** Leave the first task loop of a drain, or wait for the tasks there are. */
    method EnterTaskLoop(l: nat, faulty: bool)
      requires l < |leases|
      modifies this`leases
      ensures leases == old(leases)[l := old(leases)[l].(drain := EnterTasks(old(View()), faulty).drain)]
    {
      var next := if tasks == {} then Confirming(faulty) else AwaitTasks(tasks, faulty);
      leases := leases[l := leases[l].(drain := next)];
    }

    /** Leave the second task loop and end the drain, or wait for the tasks there are. */
    method EnterLastLoop(l: nat, faulty: bool, clean: bool)
      requires l < |leases|
      modifies this`leases, this`sockets
      ensures var move := EnterLast(old(View()), l, faulty, clean);
        var lease := old(leases)[l];
        && sockets == (if move.clears then map[] else old(sockets))
        && leases == old(leases)[l := lease.(drain := move.drain, drained := lease.drained || move.drain.Fulfilled?)]
    {
      if tasks != {} {
        leases := leases[l := leases[l].(drain := AwaitLast(tasks, faulty))];
        return;
      }
      if faulty || !clean {
        leases := leases[l := leases[l].(drain := Rejected)];
        return;
      }
      sockets := map[];
      if closing.NotClosing? && suspension == Some(l) {
        leases := leases[l := leases[l].(drain := Fulfilled, drained := true)];
      } else {
        leases := leases[l := leases[l].(drain := Rejected)];
      }
    }

    /** What the drain of a lease awaits may have come. */
    method ContinueDrain(l: nat, clean: bool, timedOut: bool)
      requires l < |leases| && Ordered(leases[l])
      modifies this`leases, this`sockets
      ensures View() == Step(old(View()), DrainContinues(l, clean, timedOut))
    {
      match leases[l].drain
      case Scheduled =>
        var others := requests - OwnerSet(leases[l].owner);
        leases := leases[l := leases[l].(drain := AwaitRequests(others, !clean))];
      case AwaitRequests(waiting, faulty) =>
        if waiting !! requests {
          EnterTaskLoop(l, faulty || !clean);
        }
      case AwaitTasks(waiting, faulty) =>
        if waiting !! tasks {
          EnterTaskLoop(l, faulty);
        }
      case Confirming(_) => ContinueConfirmation(l, clean, timedOut);
      case AwaitLast(_, _) => ContinueConfirmation(l, clean, timedOut);
      case _ =>
    }

    /** The part of a drain that confirms the close of every socket. */
    method ContinueConfirmation(l: nat, clean: bool, timedOut: bool)
      requires l < |leases| && Ordered(leases[l])
      requires leases[l].drain.Confirming? || leases[l].drain.AwaitLast?
      modifies this`leases, this`sockets
      ensures View() == DrainTurn(old(View()), l, clean, timedOut)
    {
      var confirmed := forall s | s in sockets :: !sockets[s].open;
      match leases[l].drain
      case Confirming(faulty) =>
        if confirmed || timedOut {
          EnterLastLoop(l, faulty || !confirmed, clean);
        }
      case AwaitLast(waiting, faulty) =>
        if waiting !! tasks {
          EnterLastLoop(l, faulty, clean);
        }
    }

    /** Leave one of the three task loops of the close, or wait for the tasks there are. */
    method EnterTaskLoopOfClose(loop: nat, faulty: bool, clean: bool)
      modifies this`closing
      ensures closing == EnterCloseLoop(old(View()), loop, faulty, clean)
    {
      if tasks != {} {
        closing := CloseTasks(loop, tasks, faulty);
      } else if loop == 0 {
        closing := CloseServer(faulty);
      } else if loop == 1 {
        closing := CloseWebSocketServer(faulty);
      } else {
        closing := Closed(!faulty && clean);
      }
    }

    /** What the close awaits may have come. */
    method ContinueClose(clean: bool, timedOut: bool)
      modifies this`closing
      ensures View() == Step(old(View()), CloseContinues(clean, timedOut))
    {
      match closing
      case CloseScheduled => closing := CloseRequests(requests, !clean);
      case CloseRequests(waiting, faulty) =>
        if waiting !! requests {
          EnterTaskLoopOfClose(0, faulty || !clean, clean);
        }
      case CloseTasks(loop, waiting, faulty) =>
        if waiting !! tasks {
          EnterTaskLoopOfClose(loop, faulty, clean);
        }
      case CloseServer(faulty) => EnterTaskLoopOfClose(1, faulty || !clean, clean);
      case CloseWebSocketServer(faulty) => closing := CloseConfirming(faulty || !clean);
      case CloseConfirming(faulty) =>
        var confirmed := forall s | s in sockets :: !sockets[s].open;
        if confirmed || timedOut {
          EnterTaskLoopOfClose(2, faulty || !confirmed, clean);
        }
      case _ =>
    }

    method SettleRequest(id: nat)
      modifies this`requests
      ensures View() == Step(old(View()), Peer(RequestSettles(id)))
    {
      requests := requests - {id};
    }

    /** A WebSocket task has settled; the task of an upgrade does so only after its decision. */
    method SettleTask(task: nat)
      requires task !in upgrades
      modifies this`tasks
      ensures View() == Step(old(View()), Peer(TaskSettles(task)))
    {
      tasks := tasks - {task};
    }

    /** A channel hands a message to its route, whose handler returns a promise. */
    method StartHandler(socket: nat, task: nat) returns (started: bool)
      requires socket in sockets && sockets[socket].open
      modifies this`tasks
      ensures started <==> Gate(old(View()), sockets[socket].generation)
      ensures View() == Step(old(View()), Peer(HandlerStarts(socket, task)))
    {
      if !accepting || generation != sockets[socket].generation {
        return false;
      }
      tasks := tasks + {task};
      return true;
    }

    /** A socket has closed; `cleanup` is the task of its close callback. */
    method OnSocketClosed(socket: nat, cleanup: Option<nat>)
      requires socket in sockets && sockets[socket].open
      modifies this`sockets, this`tasks
      ensures View() == Step(old(View()), Peer(SocketCloses(socket, cleanup)))
    {
      sockets := sockets[socket := sockets[socket].(open := false)];
      if cleanup.Some? {
        tasks := tasks + {cleanup.value};
      }
    }
  }
}
