/** The server's list of live connections (src/lib_http_server.cpp, src/lib_http_connection.cpp). Every
    accepted socket brings two emitters, the socket's at 2k and the connection's at 2k + 1, wired as
    handle_connection and start wire them: the connection's "closed" has a run-once listener that erases
    the connection from the list, and the socket's "closed" is delegated to it. The list owns the
    connections in it, the delegation does not: it does nothing once its connection has expired. */
module Connections {
  import opened Emitters
  import opened EmissionLaws

  const CLOSED := "closed"
  const MAX_LISTENERS := 10

  function SocketOf(k: nat): nat { 2 * k }

  function ConnectionOf(k: nat): nat { 2 * k + 1 }

  // Ids are handed out by one global counter; each accept registers five listeners.
  function EraserId(k: nat): int { 5 * k + 1 }

  function Eraser(k: nat): Entry {
    Entry(true, Callback(EraserId(k), []))
  }

  function Relay(k: nat): Entry {
    Entry(false, Callback(5 * k + 3, [Emit(ConnectionOf(k), CLOSED)]))
  }

  // The relay once its destination has expired.
  function SilentRelay(k: nat): Entry {
    Relay(k).(callback := Callback(5 * k + 3, []))
  }

  // Another listener of a connection's "closed": it does nothing to emitters, or it throws.
  function Watcher(runOnce: bool, id: int, throws: bool): Entry {
    Entry(runOnce, Callback(id, if throws then [Raise] else []))
  }

  // The erasing listener, seen as what EmissionLaws counts.
  function EraserFocus(k: nat): Focus {
    Focus(ConnectionOf(k), CLOSED, EraserId(k), true)
  }

  // connections is the source's list; held are the connections that someone besides it owns; sound turns
  // false if an entry is erased that is not in the list.
  datatype Server = Server(world: World, accepted: nat, connections: seq<nat>, held: set<nat>, sound: bool)

  const NO_CONNECTIONS := Server(World([], multiset{}, Nothing), 0, [], {}, true)

  datatype Op =
    | Accept
    | SocketCloses(k: nat)
    | Watch(k: nat, runOnce: bool, id: int, throws: bool)
    | Hold(k: nat)   // someone becomes an owner of the connection
    | LetGo(k: nat)  // the last owner besides the list lets go of it

  // ------------------------------------------------------------------------------------------
  // Steps

  const NEW_EMITTER := Emitter(map[], 0, MAX_LISTENERS)

  function WithNewEmitters(w: World): World {
    w.(emitters := w.emitters + [NEW_EMITTER, NEW_EMITTER])
  }

  // on_error and on_closed in handle_connection
  function WireConnection(fuel: nat, w: World, k: nat): Result {
    var r := AddSpec(fuel, w, ConnectionOf(k), "error", Entry(false, Callback(5 * k, [])));
    if r.outcome.Done? then AddSpec(fuel, r.world, ConnectionOf(k), CLOSED, Eraser(k)) else r
  }

  // HttpServerConnectionImpl::start
  function WireSocket(fuel: nat, w: World, k: nat): Result {
    var socket, connection := SocketOf(k), ConnectionOf(k);
    var r1 := AddSpec(fuel, w, socket, "data_received", Entry(true, Callback(5 * k + 2, [])));
    if !r1.outcome.Done? then r1
    else
      var r2 := DelegateSpec(fuel, r1.world, socket, CLOSED, connection, CLOSED, 5 * k + 3);
      if !r2.outcome.Done? then r2
      else AddSpec(fuel, r2.world, socket, "error", Entry(false, Callback(5 * k + 4, [Emit(connection, "error")])))
  }

  // handle_connection up to client_connected
  function AcceptSpec(fuel: nat, w: World, k: nat): Result {
    var r := WireConnection(fuel, WithNewEmitters(w), k);
    if r.outcome.Done? then WireSocket(fuel, r.world, k) else r
  }

  predicate Expired(s: Server, k: nat) {
    k !in s.connections && k !in s.held
  }

  // The world as the socket of an expired connection finds it.
  function Silenced(w: World, k: nat): World {
    if SocketOf(k) >= |w.emitters| then w
    else
      var em := w.emitters[SocketOf(k)];
      w.(emitters := w.emitters[SocketOf(k) := em.(listeners := em.listeners[CLOSED := [SilentRelay(k)]])])
  }

  // While the relay runs it owns the connection too, so whoever lets go during a close does so after it.
  function RunOp(fuel: nat, s: Server, op: Op): World {
    match op
    case Accept => AcceptSpec(fuel, s.world, s.accepted).world
    case SocketCloses(k) =>
      EmitSpec(fuel, if Expired(s, k) then Silenced(s.world, k) else s.world, SocketOf(k), CLOSED).world
    case Watch(k, runOnce, id, throws) =>
      AddSpec(fuel, s.world, ConnectionOf(k), CLOSED, Watcher(runOnce, id, throws)).world
    case _ => s.world
  }

  function Holders(held: set<nat>, op: Op): set<nat> {
    match op
    case Hold(k) => held + {k}
    case LetGo(k) => held - {k}
    case _ => held
  }

  // How often connection k was erased between two moments.
  function Erasures(before: Log, after: Log, k: nat): int {
    Fires(after, EraserFocus(k)) - Fires(before, EraserFocus(k))
  }

  function Survivors(list: seq<nat>, before: Log, after: Log): seq<nat> {
    if list == [] then []
    else if Erasures(before, after, list[0]) != 0 then Survivors(list[1..], before, after)
    else [list[0]] + Survivors(list[1..], before, after)
  }

  predicate ErasesSoundly(s: Server, after: Log) {
    forall k :: 0 <= k < s.accepted && Erasures(s.world.log, after, k) != 0 ==>
      Erasures(s.world.log, after, k) == 1 && k in s.connections
  }

  function Step(fuel: nat, s: Server, op: Op): Server {
    var w := RunOp(fuel, s, op);
    var kept := Survivors(s.connections, s.world.log, w.log);
    Server(w, if op.Accept? then s.accepted + 1 else s.accepted,
           if op.Accept? then kept + [s.accepted] else kept,
           Holders(s.held, op),
           s.sound && ErasesSoundly(s, w.log))
  }

  function After(fuel: nat, s: Server, ops: seq<Op>): Server
    decreases |ops|
  {
    if ops == [] then s else After(fuel, Step(fuel, s, ops[0]), ops[1..])
  }

  // ------------------------------------------------------------------------------------------
  // What can be read off the calls themselves, connection by connection: the watchers registered before
  // the first close, those over the limit left out, whether one of them throws, whether someone besides
  // the list owns the connection, and the closes of its socket up to its expiry.

  datatype Fate = Fate(watchers: nat, throws: bool, held: bool, closes: nat)

  const ACCEPTED := Fate(0, false, false, 0)

  // The first close takes the connection out of the list.
  predicate Alive(f: Fate) {
    f.closes == 0 || f.held
  }

  function Watched(f: Fate, throws: bool): Fate {
    if f.closes == 0 && f.watchers < MAX_LISTENERS - 1 then f.(watchers := f.watchers + 1, throws := f.throws || throws)
    else f
  }

  function NextFate(f: Fate, op: Op): Fate {
    match op
    case Accept => f
    case SocketCloses(_) => if Alive(f) then f.(closes := f.closes + 1) else f
    case Watch(_, _, _, throws) => Watched(f, throws)
    case Hold(_) => f.(held := true)
    case LetGo(_) => f.(held := false)
  }

  function Next(fates: seq<Fate>, op: Op): seq<Fate> {
    if op.Accept? then fates + [ACCEPTED]
    else if op.k < |fates| then fates[op.k := NextFate(fates[op.k], op)]
    else fates
  }

  function Fates(fates: seq<Fate>, ops: seq<Op>): seq<Fate>
    decreases |ops|
  {
    if ops == [] then fates else Fates(Next(fates, ops[0]), ops[1..])
  }

  // Sockets exist once accepted, a connection that has expired cannot be watched or owned again, and ids
  // are never handed out twice.
  predicate Possible(fates: seq<Fate>, op: Op) {
    match op
    case Accept => true
    case SocketCloses(k) => k < |fates|
    case Watch(k, _, id, _) => k < |fates| && Alive(fates[k]) && id != -1 && id != EraserId(k)
    case Hold(k) => k < |fates| && Alive(fates[k])
    case LetGo(k) => k < |fates|
  }

  predicate IsRun(fates: seq<Fate>, ops: seq<Op>)
    decreases |ops|
  {
    ops == [] || (Possible(fates, ops[0]) && IsRun(Next(fates, ops[0]), ops[1..]))
  }

  // A throwing watcher was there at the first close, and the socket closed again while someone besides the
  // list had owned the connection ever since.
  predicate ClosedAgain(f: Fate) {
    f.throws && f.closes >= 2
  }

  predicate Safe(fates: seq<Fate>) {
    forall k :: 0 <= k < |fates| ==> !ClosedAgain(fates[k])
  }

  // Whether a close reaches the eraser.
  predicate Strikes(f: Fate) {
    Alive(f) && (f.closes == 0 || f.throws)
  }

  // How often a call erases connection k.
  function Struck(fates: seq<Fate>, op: Op, k: nat): int {
    if op.SocketCloses? && op.k == k && k < |fates| && Strikes(fates[k]) then 1 else 0
  }

  ghost predicate ErasesAs(before: Log, after: Log, fates: seq<Fate>, op: Op) {
    forall k: nat :: Erasures(before, after, k) == Struck(fates, op, k)
  }

  // The accepted connections whose socket has not closed, in accept order.
  function Open(fates: seq<Fate>): seq<nat> {
    if fates == [] then []
    else
      var n := |fates| - 1;
      Open(fates[..n]) + (if fates[n].closes == 0 then [n] else [])
  }

  // ------------------------------------------------------------------------------------------
  // Emissions to listeners that do nothing to emitters, or throw

  function Of(em: Emitter, event: string): seq<Entry> {
    if event in em.listeners then em.listeners[event] else []
  }

  predicate Mild(list: seq<Entry>) {
    list == [] || (
      list[0].callback.id != -1 && (list[0].callback.script == [] || list[0].callback.script == [Raise])
        && Mild(list[1..]))
  }

  predicate Raises(list: seq<Entry>) {
    list != [] && (list[0].callback.script == [Raise] || Raises(list[1..]))
  }

  // The calls of f that one loop over the list makes before it ends or throws.
  function Hits(list: seq<Entry>, f: Focus): nat {
    if list == [] then 0
    else (if Counts(f, list[0]) then 1 else 0) + (if list[0].callback.script == [Raise] then 0 else Hits(list[1..], f))
  }

  ghost predicate FiresGrow(before: Log, after: Log, e: nat, event: string, list: seq<Entry>) {
    forall f: Focus :: Fires(after, f) == Fires(before, f) + (if f.e == e && f.event == event then Hits(list, f) else 0)
  }

  lemma {:induction false} MildDispatch(fuel: nat, w: World, e: nat, event: string, entries: seq<Entry>)
    requires Mild(entries)
    ensures var r := DispatchSpec(fuel, w, e, event, entries);
      && r.outcome == (if Raises(entries) then Threw(Raised) else Done)
      && r.world.emitters == w.emitters && FiresGrow(w.log, r.world.log, e, event, entries)
    decreases |entries|
  {
    if entries != [] {
      var w1 := Called(w, e, event, entries[0]);
      if entries[0].callback.script == [] {
        assert RunSpec(fuel, w1, []) == Result(Done, w1);
        MildDispatch(fuel, w1, e, event, entries[1..]);
      } else {
        assert RunSpec(fuel, w1, [Raise]) == Result(Threw(Raised), w1);
      }
    }
  }

  // What an emission leaves of its emitter.
  function Emitted(em: Emitter, event: string): Emitter {
    var list := Of(em, event);
    if Raises(list) then em.(listeners := em.listeners[event := list], depth := Up(em.depth))
    else em.(listeners := em.listeners[event := Persistent(list)])
  }

  predicate InRange(em: Emitter) {
    -128 <= em.depth <= 127
  }

  lemma MildImpl(fuel: nat, w: World, e: nat, event: string)
    requires e < |w.emitters| && InRange(w.emitters[e]) && Mild(Of(w.emitters[e], event)) && (e, event) !in w.active
    ensures var em := w.emitters[e];
      var r := EmitImplSpec(fuel, SetDepth(w, e, Up(em.depth)), e, event);
      && r.outcome == (if Raises(Of(em, event)) then Threw(Raised) else Done)
      && r.world.emitters == w.emitters[e := Emitted(em, event)]
      && FiresGrow(w.log, r.world.log, e, event, Of(em, event))
  {
    var em := w.emitters[e];
    var list := Of(em, event);
    var w1 := SetDepth(w, e, Up(em.depth));
    assert List(w1, e, event) == list;
    var inner := Enter(SetList(w1, e, event, list), e, event);
    MildDispatch(fuel, inner, e, event, list);
    var loop := LoopSpec(fuel, w1, e, event).world;
    assert loop.emitters == w.emitters[e := em.(listeners := em.listeners[event := list], depth := Up(em.depth))];
    assert List(loop, e, event) == list;
    assert em.listeners[event := list][event := Persistent(list)] == em.listeners[event := Persistent(list)];
    assert !Raises(list) ==> LoopEnd(loop, e, event).emitters[e] == Emitted(em, event);
    assert LoopEnd(loop, e, event).emitters == loop.emitters[e := LoopEnd(loop, e, event).emitters[e]];
  }

  /** Emitting to mild listeners throws exactly if one of them does or the emitter is too deep. It changes
      nothing but its emitter, whose list keeps its persistent listeners unless it threw. */
  lemma MildEmit(fuel: nat, w: World, e: nat, event: string)
    requires e < |w.emitters| && InRange(w.emitters[e]) && Mild(Of(w.emitters[e], event)) && (e, event) !in w.active
    requires event != "" && event + SELF_DESTRUCT !in w.emitters[e].listeners && fuel > 0
    ensures var em := w.emitters[e];
      var r := EmitSpec(fuel, w, e, event);
      if Up(em.depth) > MAX_EMIT_DEPTH then r == Result(Threw(TooDeep), SetDepth(w, e, Up(em.depth)))
      else
        && r.outcome == (if Raises(Of(em, event)) then Threw(Raised) else Done)
        && r.world.emitters == w.emitters[e := Emitted(em, event)]
        && FiresGrow(w.log, r.world.log, e, event, Of(em, event))
  {
    var em := w.emitters[e];
    if Up(em.depth) <= MAX_EMIT_DEPTH {
      MildImpl(fuel - 1, w, e, event);
      var r := EmitImplSpec(fuel - 1, SetDepth(w, e, Up(em.depth)), e, event);
      assert |event + SELF_DESTRUCT| > |event|;
      assert r.world.emitters[e].listeners.Keys == em.listeners.Keys + {event};
    }
  }

  // An emitter without companions of the events used here, whose "listener_added" nobody listens to.
  predicate Clear(em: Emitter) {
    && CLOSED + SELF_DESTRUCT !in em.listeners && LISTENER_ADDED + SELF_DESTRUCT !in em.listeners
    && Of(em, LISTENER_ADDED) == [] && InRange(em)
  }

  const EVENTS := {"error", "data_received", CLOSED}

  function Added1(em: Emitter, event: string, entry: Entry): Emitter {
    var list := Of(em, event);
    em.(listeners := em.listeners[event := list][LISTENER_ADDED := []][event := list + [entry]])
  }

  // What an addition leaves of such an emitter: refused when the list is full or the emitter too deep, else
  // appended.
  function AddedTo(em: Emitter, event: string, entry: Entry): Emitter {
    var list := Of(em, event);
    var stored := em.(listeners := em.listeners[event := list]);
    if em.maxListeners != 0 && |list| >= em.maxListeners then stored
    else if Up(em.depth) > MAX_EMIT_DEPTH then stored.(depth := Up(em.depth))
    else Added1(em, event, entry)
  }

  lemma ClearAdd(fuel: nat, w: World, e: nat, event: string, entry: Entry)
    requires e < |w.emitters| && Clear(w.emitters[e]) && event in EVENTS && w.active == multiset{} && fuel > 0
    ensures var em := w.emitters[e];
      var list := Of(em, event);
      var r := AddSpec(fuel, w, e, event, entry);
      && (forall f: Focus :: Fires(r.world.log, f) == Fires(w.log, f))
      && r.world.emitters == w.emitters[e := AddedTo(em, event, entry)]
      && r.outcome == (if em.maxListeners != 0 && |list| >= em.maxListeners then Threw(TooMany)
                       else if Up(em.depth) > MAX_EMIT_DEPTH then Threw(TooDeep)
                       else Done)
  {
    var em := w.emitters[e];
    var list := Of(em, event);
    var w0 := SetList(w, e, event, list);
    EventsAreOthers(event);
    if !(em.maxListeners != 0 && |list| >= em.maxListeners) {
      MildEmit(fuel, w0, e, LISTENER_ADDED);
      if Up(em.depth) <= MAX_EMIT_DEPTH {
        var r := EmitSpec(fuel, w0, e, LISTENER_ADDED).world;
        assert r.emitters[e] == em.(listeners := em.listeners[event := list][LISTENER_ADDED := []]);
        assert List(r, e, event) == list;
      }
    }
  }

  lemma EventsAreOthers(event: string)
    requires event in EVENTS
    ensures event !in {"", "newListener", LISTENER_ADDED, CLOSED + SELF_DESTRUCT, LISTENER_ADDED + SELF_DESTRUCT}
  {
    assert |event| <= 13 && |CLOSED + SELF_DESTRUCT| == 19 && |LISTENER_ADDED + SELF_DESTRUCT| == 27;
    assert event[0] != "newListener"[0] && event[0] != LISTENER_ADDED[0];
  }

  lemma AddedIsClear(em: Emitter, event: string, entry: Entry)
    requires Clear(em) && event in EVENTS
    ensures var r := Added1(em, event, entry);
      && Clear(r) && r.depth == em.depth && r.maxListeners == em.maxListeners
      && Of(r, event) == Of(em, event) + [entry]
      && forall other <- EVENTS :: other != event ==> Of(r, other) == Of(em, other)
  {
    EventsAreOthers(event);
  }

  // ------------------------------------------------------------------------------------------
  // Accepting

  lemma ConnectionWired(fuel: nat, w: World, k: nat)
    requires ConnectionOf(k) < |w.emitters| && w.emitters[ConnectionOf(k)] == NEW_EMITTER && w.active == multiset{}
    requires fuel > 0
    ensures var r := WireConnection(fuel, w, k);
      var em := r.world.emitters[ConnectionOf(k)];
      && r.outcome.Done? && r.world.emitters == w.emitters[ConnectionOf(k) := em]
      && Clear(em) && em.depth == 0 && em.maxListeners == MAX_LISTENERS && Of(em, CLOSED) == [Eraser(k)]
      && Of(em, "error") == [Entry(false, Callback(5 * k, []))]
      && forall f: Focus :: Fires(r.world.log, f) == Fires(w.log, f)
  {
    var e := ConnectionOf(k);
    var first := Entry(false, Callback(5 * k, []));
    ClearAdd(fuel, w, e, "error", first);
    AddedIsClear(NEW_EMITTER, "error", first);
    var em1 := Added1(NEW_EMITTER, "error", first);
    var w1 := AddSpec(fuel, w, e, "error", first).world;
    ClearAdd(fuel, w1, e, CLOSED, Eraser(k));
    AddedIsClear(em1, CLOSED, Eraser(k));
  }

  lemma SocketWired(fuel: nat, w: World, k: nat)
    requires ConnectionOf(k) < |w.emitters| && w.emitters[SocketOf(k)] == NEW_EMITTER && w.active == multiset{}
    requires fuel > 0
    ensures var r := WireSocket(fuel, w, k);
      var em := r.world.emitters[SocketOf(k)];
      && r.outcome.Done? && r.world.emitters == w.emitters[SocketOf(k) := em]
      && Clear(em) && em.depth == 0 && Of(em, CLOSED) == [Relay(k)]
      && Of(em, "data_received") == [Entry(true, Callback(5 * k + 2, []))]
      && Of(em, "error") == [Entry(false, Callback(5 * k + 4, [Emit(ConnectionOf(k), "error")]))]
      && forall f: Focus :: Fires(r.world.log, f) == Fires(w.log, f)
  {
    var e := SocketOf(k);
    var first := Entry(true, Callback(5 * k + 2, []));
    var last := Entry(false, Callback(5 * k + 4, [Emit(ConnectionOf(k), "error")]));
    ClearAdd(fuel, w, e, "data_received", first);
    AddedIsClear(NEW_EMITTER, "data_received", first);
    var em1 := Added1(NEW_EMITTER, "data_received", first);
    var w1 := AddSpec(fuel, w, e, "data_received", first).world;
    ClearAdd(fuel, w1, e, CLOSED, Relay(k));
    AddedIsClear(em1, CLOSED, Relay(k));
    var em2 := Added1(em1, CLOSED, Relay(k));
    var w2 := AddSpec(fuel, w1, e, CLOSED, Relay(k)).world;
    ClearAdd(fuel, w2, e, "error", last);
    AddedIsClear(em2, "error", last);
  }

  /** Accepting completes, and adds two emitters: the socket's with a run-once data listener and with its
      "closed" and "error" passed on to the connection, the connection's with the server's error listener and
      with the eraser. */
  lemma AcceptCompletes(fuel: nat, w: World, k: nat)
    requires |w.emitters| == 2 * k && w.active == multiset{} && fuel > 0
    ensures var r := AcceptSpec(fuel, w, k);
      && r.outcome.Done? && |r.world.emitters| == 2 * k + 2 && r.world.emitters[..2 * k] == w.emitters
      && r.world.active == w.active
      && (forall f: Focus :: Fires(r.world.log, f) == Fires(w.log, f))
      && InPlace(r.world.emitters[2 * k], r.world.emitters[2 * k + 1], k, ACCEPTED)
      && (var socket, connection := r.world.emitters[2 * k], r.world.emitters[2 * k + 1];
          && Of(socket, CLOSED) == [Entry(false, Callback(5 * k + 3, [Emit(2 * k + 1, CLOSED)]))]
          && Of(socket, "error") == [Entry(false, Callback(5 * k + 4, [Emit(2 * k + 1, "error")]))]
          && Of(socket, "data_received") == [Entry(true, Callback(5 * k + 2, []))]
          && Of(connection, CLOSED) == [Entry(true, Callback(5 * k + 1, []))]
          && Of(connection, "error") == [Entry(false, Callback(5 * k, []))] && connection.maxListeners == 10)
  {
    var socket, connection := AcceptWires(fuel, w, k);
    NewlyWired(socket, connection, k);
  }

  lemma AcceptWires(fuel: nat, w: World, k: nat) returns (socket: Emitter, connection: Emitter)
    requires |w.emitters| == 2 * k && w.active == multiset{} && fuel > 0
    ensures var r := AcceptSpec(fuel, w, k);
      && r.outcome.Done? && r.world.active == w.active && r.world.emitters == w.emitters + [socket, connection]
      && forall f: Focus :: Fires(r.world.log, f) == Fires(w.log, f)
    ensures Clear(socket) && socket.depth == 0 && Of(socket, CLOSED) == [Relay(k)]
    ensures Of(socket, "data_received") == [Entry(true, Callback(5 * k + 2, []))]
    ensures Of(socket, "error") == [Entry(false, Callback(5 * k + 4, [Emit(ConnectionOf(k), "error")]))]
    ensures Clear(connection) && connection.depth == 0 && Of(connection, CLOSED) == [Eraser(k)]
    ensures Of(connection, "error") == [Entry(false, Callback(5 * k, []))] && connection.maxListeners == MAX_LISTENERS
  {
    var w0 := WithNewEmitters(w);
    ConnectionWired(fuel, w0, k);
    var w1 := WireConnection(fuel, w0, k).world;
    SocketWired(fuel, w1, k);
    var w2 := WireSocket(fuel, w1, k).world;
    socket, connection := w2.emitters[SocketOf(k)], w1.emitters[ConnectionOf(k)];
  }

  lemma NewlyWired(socket: Emitter, connection: Emitter, k: nat)
    requires Clear(socket) && socket.depth == 0 && Of(socket, CLOSED) == [Relay(k)]
    requires Clear(connection) && connection.depth == 0 && Of(connection, CLOSED) == [Eraser(k)]
    requires connection.maxListeners == MAX_LISTENERS
    ensures InPlace(socket, connection, k, ACCEPTED)
  {
    assert [Eraser(k)][1..] == [];
  }

  // ------------------------------------------------------------------------------------------
  // Closing

  predicate IsSocket(em: Emitter, k: nat) {
    Clear(em) && Of(em, CLOSED) == [Relay(k)]
  }

  predicate IsConnection(em: Emitter) {
    Clear(em) && Mild(Of(em, CLOSED)) && em.maxListeners == MAX_LISTENERS
  }

  // Both emissions get past the depth guard.
  predicate Reaches(socket: Emitter, connection: Emitter) {
    Up(socket.depth) <= MAX_EMIT_DEPTH && Up(connection.depth) <= MAX_EMIT_DEPTH
  }

  lemma RelayDispatch(fuel: nat, w: World, k: nat)
    requires ConnectionOf(k) < |w.emitters| && IsConnection(w.emitters[ConnectionOf(k)]) && fuel > 0
    requires (ConnectionOf(k), CLOSED) !in w.active
    ensures var em := w.emitters[ConnectionOf(k)];
      var r := DispatchSpec(fuel, w, SocketOf(k), CLOSED, [Relay(k)]);
      if Up(em.depth) > MAX_EMIT_DEPTH then
        && r.outcome.Threw? && r.world.emitters == w.emitters[ConnectionOf(k) := em.(depth := Up(em.depth))]
        && (forall j: nat :: Fires(r.world.log, EraserFocus(j)) == Fires(w.log, EraserFocus(j)))
      else
        && r.outcome == (if Raises(Of(em, CLOSED)) then Threw(Raised) else Done)
        && r.world.emitters == w.emitters[ConnectionOf(k) := Emitted(em, CLOSED)]
        && (forall j: nat :: Fires(r.world.log, EraserFocus(j)) == Fires(w.log, EraserFocus(j))
              + (if j == k then Hits(Of(em, CLOSED), EraserFocus(k)) else 0))
  {
    var w1 := Called(w, SocketOf(k), CLOSED, Relay(k));
    assert forall j: nat :: Fires(w1.log, EraserFocus(j)) == Fires(w.log, EraserFocus(j));
    MildEmit(fuel, w1, ConnectionOf(k), CLOSED);
    RelayIsOneEmission(fuel, w, k);
  }

  lemma RelayIsOneEmission(fuel: nat, w: World, k: nat)
    ensures DispatchSpec(fuel, w, SocketOf(k), CLOSED, [Relay(k)])
         == EmitSpec(fuel, Called(w, SocketOf(k), CLOSED, Relay(k)), ConnectionOf(k), CLOSED)
  {
    var w1 := Called(w, SocketOf(k), CLOSED, Relay(k));
    var script := Relay(k).callback.script;
    var r := EmitSpec(fuel, w1, ConnectionOf(k), CLOSED);
    assert script[1..] == [] && RunSpec(fuel, w1, script) == r;
    assert [Relay(k)][1..] == [];
  }

  // The loop over the socket's one listener.
  lemma RelayLoop(fuel: nat, w: World, k: nat)
    requires ConnectionOf(k) < |w.emitters| && IsConnection(w.emitters[ConnectionOf(k)]) && fuel > 0
    requires Of(w.emitters[SocketOf(k)], CLOSED) == [Relay(k)] && w.active == multiset{}
    ensures var inner := Enter(SetList(w, SocketOf(k), CLOSED, [Relay(k)]), SocketOf(k), CLOSED);
      var r := DispatchSpec(fuel, inner, SocketOf(k), CLOSED, [Relay(k)]);
      LoopSpec(fuel, w, SocketOf(k), CLOSED) == Result(r.outcome, r.world.(active := w.active))
      && inner.log == w.log && inner.emitters == w.emitters
  {
    var e := SocketOf(k);
    assert List(w, e, CLOSED) == [Relay(k)];
    var em := w.emitters[e];
    assert em.listeners[CLOSED := [Relay(k)]] == em.listeners;
  }

  // What the close of its socket does to a connection's emitter.
  function Heard(socket: Emitter, connection: Emitter): Emitter {
    if Up(socket.depth) > MAX_EMIT_DEPTH then connection
    else if Up(connection.depth) > MAX_EMIT_DEPTH then connection.(depth := Up(connection.depth))
    else Emitted(connection, CLOSED)
  }

  /** A socket that emits "closed" makes its connection emit "closed" to its listeners, unless one of the
      two is too deep, and returns unless a listener throws. No other emitter is touched. */
  lemma CloseReachesTheConnection(fuel: nat, w: World, k: nat)
    requires ConnectionOf(k) < |w.emitters| && fuel > 1 && w.active == multiset{}
    requires IsSocket(w.emitters[SocketOf(k)], k) && IsConnection(w.emitters[ConnectionOf(k)])
    ensures var socket, connection := w.emitters[SocketOf(k)], w.emitters[ConnectionOf(k)];
      var r := EmitSpec(fuel, w, SocketOf(k), CLOSED);
      var completes := Reaches(socket, connection) && !Raises(Of(connection, CLOSED));
      var socket' := socket.(depth := if completes then socket.depth else Up(socket.depth));
      && r.outcome.Done? == completes
      && r.world.emitters == w.emitters[SocketOf(k) := socket'][ConnectionOf(k) := Heard(socket, connection)]
      && (forall j: nat :: Fires(r.world.log, EraserFocus(j)) == Fires(w.log, EraserFocus(j))
            + (if j == k && Reaches(socket, connection) then Hits(Of(connection, CLOSED), EraserFocus(k)) else 0))
  {
    var e := SocketOf(k);
    var socket := w.emitters[e];
    if Up(socket.depth) <= MAX_EMIT_DEPTH {
      var w1 := SetDepth(w, e, Up(socket.depth));
      var inner := Enter(SetList(w1, e, CLOSED, [Relay(k)]), e, CLOSED);
      RelayLoop(fuel - 1, w1, k);
      RelayDispatch(fuel - 1, inner, k);
      var r := LoopSpec(fuel - 1, w1, e, CLOSED);
      if r.outcome.Done? {
        RelayEnds(fuel, w, k, r.world);
      } else {
        assert EmitSpec(fuel, w, e, CLOSED) == r;
      }
    }
  }

  // The end of an emission whose loop returned: the relay stays, the depth is restored.
  lemma RelayEnds(fuel: nat, w: World, k: nat, r: World)
    requires ConnectionOf(k) < |w.emitters| && fuel > 1 && w.active == multiset{}
    requires IsSocket(w.emitters[SocketOf(k)], k) && Up(w.emitters[SocketOf(k)].depth) <= MAX_EMIT_DEPTH
    requires var w1 := SetDepth(w, SocketOf(k), Up(w.emitters[SocketOf(k)].depth));
      LoopSpec(fuel - 1, w1, SocketOf(k), CLOSED) == Result(Done, r)
      && |r.emitters| == |w.emitters| && r.emitters[SocketOf(k)] == w1.emitters[SocketOf(k)]
    ensures var end := EmitSpec(fuel, w, SocketOf(k), CLOSED);
      && end.outcome.Done? && end.world.emitters == r.emitters[SocketOf(k) := w.emitters[SocketOf(k)]]
      && end.world.log == Then(r.log, Finished(SocketOf(k), CLOSED))
  {
    var e := SocketOf(k);
    var em := w.emitters[e];
    assert [Relay(k)][1..] == [] && Persistent([Relay(k)]) == [Relay(k)];
    assert List(r, e, CLOSED) == [Relay(k)] && em.listeners[CLOSED := [Relay(k)]] == em.listeners;
    assert LoopEnd(r, e, CLOSED).emitters == r.emitters[e := em];
  }

  // ------------------------------------------------------------------------------------------
  // What every step keeps, connection by connection

  // Where a connection's emitters stand. After a close that threw, the eraser is still registered and
  // both depths are left raised; after one that returned, the eraser is gone for good. Once the connection
  // has expired, only its socket can still be heard of.
  predicate InPlace(socket: Emitter, connection: Emitter, k: nat, f: Fate) {
    if Alive(f) then IsSocket(socket, k) && Wired(socket, connection, k, f) else Clear(socket)
  }

  predicate Wired(socket: Emitter, connection: Emitter, k: nat, f: Fate) {
    var list := Of(connection, CLOSED);
    && IsConnection(connection)
    && (if f.closes == 0 || f.throws then
          && list != [] && list[0] == Eraser(k) && Count(list[1..], EraserFocus(k)) == 0
          && Raises(list[1..]) == f.throws
          && socket.depth == connection.depth == (if f.closes == 0 then 0 else 1)
          && (f.closes == 0 ==> |list| == f.watchers + 1)
        else Count(list, EraserFocus(k)) == 0)
  }

  lemma {:induction false} NoCountNoHits(list: seq<Entry>, f: Focus)
    requires Count(list, f) == 0
    ensures Hits(list, f) == 0
  {
    if list != [] {
      NoCountNoHits(list[1..], f);
    }
  }

  lemma {:induction false} MildPersistent(list: seq<Entry>)
    requires Mild(list)
    ensures Mild(Persistent(list))
  {
    if list != [] {
      MildPersistent(list[1..]);
      assert ([list[0]] + Persistent(list[1..]))[1..] == Persistent(list[1..]);
    }
  }

  lemma {:induction false} MildAppend(list: seq<Entry>, entry: Entry)
    requires Mild(list) && Mild([entry])
    ensures Mild(list + [entry]) && (Raises(list + [entry]) <==> Raises(list) || entry.callback.script == [Raise])
  {
    if list == [] {
      assert list + [entry] == [entry] && [entry][1..] == [];
    } else {
      assert (list + [entry])[1..] == list[1..] + [entry];
      MildAppend(list[1..], entry);
    }
  }

  lemma EmittedIsConnection(em: Emitter)
    requires IsConnection(em)
    ensures var r := Emitted(em, CLOSED);
      IsConnection(r) && Of(r, CLOSED) == if Raises(Of(em, CLOSED)) then Of(em, CLOSED) else Persistent(Of(em, CLOSED))
  {
    EventsAreOthers(CLOSED);
    MildPersistent(Of(em, CLOSED));
  }

  // The eraser is called by a close exactly if it is registered; it stays exactly if the close throws.
  lemma CloseInPlace(socket: Emitter, connection: Emitter, k: nat, f: Fate)
    requires InPlace(socket, connection, k, f) && Alive(f)
    ensures var list := Of(connection, CLOSED);
      var completes := Reaches(socket, connection) && !Raises(list);
      var socket' := socket.(depth := if completes then socket.depth else Up(socket.depth));
      && (!ClosedAgain(f.(closes := f.closes + 1))
        ==> InPlace(socket', Heard(socket, connection), k, f.(closes := f.closes + 1)))
      && (if Reaches(socket, connection) then Hits(list, EraserFocus(k)) else 0)
           == if Strikes(f) then 1 else 0
  {
    var list := Of(connection, CLOSED);
    CountPersistent(list, EraserFocus(k));
    EmittedIsConnection(connection);
    if f.closes == 0 || f.throws {
      NoCountNoHits(list[1..], EraserFocus(k));
    } else {
      NoCountNoHits(list, EraserFocus(k));
    }
  }

  lemma WatcherIsMild(k: nat, runOnce: bool, id: int, throws: bool)
    requires id != -1 && id != EraserId(k)
    ensures var entry := Watcher(runOnce, id, throws); Mild([entry]) && Count([entry], EraserFocus(k)) == 0
  {
    var entry := Watcher(runOnce, id, throws);
    assert [entry][1..] == [] && Count([], EraserFocus(k)) == 0;
  }

  lemma WatchInPlace(socket: Emitter, connection: Emitter, k: nat, f: Fate, runOnce: bool, id: int, throws: bool)
    requires InPlace(socket, connection, k, f) && Alive(f) && id != -1 && id != EraserId(k)
    ensures InPlace(socket, AddedTo(connection, CLOSED, Watcher(runOnce, id, throws)), k, Watched(f, throws))
  {
    var list := Of(connection, CLOSED);
    var entry := Watcher(runOnce, id, throws);
    EventsAreOthers(CLOSED);
    AddedIsClear(connection, CLOSED, entry);
    WatcherIsMild(k, runOnce, id, throws);
    MildAppend(list, entry);
    CountAppend(list, [entry], EraserFocus(k));
    if list != [] {
      assert (list + [entry])[1..] == list[1..] + [entry];
      MildAppend(list[1..], entry);
      CountAppend(list[1..], [entry], EraserFocus(k));
    }
  }

  predicate At(w: World, k: nat, f: Fate) {
    ConnectionOf(k) < |w.emitters| && InPlace(w.emitters[SocketOf(k)], w.emitters[ConnectionOf(k)], k, f)
    && Fires(w.log, EraserFocus(k)) == if f.closes == 0 then 0 else 1
  }

  ghost predicate Sound(w: World, fates: seq<Fate>) {
    && w.active == multiset{} && |w.emitters| == 2 * |fates|
    && (forall k :: 0 <= k < |fates| ==> At(w, k, fates[k]))
    && (forall k: nat :: k >= |fates| ==> Fires(w.log, EraserFocus(k)) == 0)
  }

  lemma SoundAccept(fuel: nat, w: World, fates: seq<Fate>)
    requires Sound(w, fates) && fuel > 0
    ensures var r := AcceptSpec(fuel, w, |fates|).world;
      Sound(r, Next(fates, Accept)) && ErasesAs(w.log, r.log, fates, Accept)
  {
    AcceptCompletes(fuel, w, |fates|);
    var r := AcceptSpec(fuel, w, |fates|).world;
    var fates' := Next(fates, Accept);
    forall k | 0 <= k < |fates'| ensures At(r, k, fates'[k]) {
      if k < |fates| {
        assert At(w, k, fates[k]);
        assert r.emitters[2 * k] == r.emitters[..2 * |fates|][2 * k];
        assert r.emitters[2 * k + 1] == r.emitters[..2 * |fates|][2 * k + 1];
      }
    }
  }

  lemma SoundWatch(fuel: nat, w: World, fates: seq<Fate>, k: nat, runOnce: bool, id: int, throws: bool)
    requires Sound(w, fates) && Possible(fates, Watch(k, runOnce, id, throws)) && fuel > 0
    ensures var r := AddSpec(fuel, w, ConnectionOf(k), CLOSED, Watcher(runOnce, id, throws)).world;
      var op := Watch(k, runOnce, id, throws);
      Sound(r, Next(fates, op)) && ErasesAs(w.log, r.log, fates, op)
  {
    assert At(w, k, fates[k]);
    ClearAdd(fuel, w, ConnectionOf(k), CLOSED, Watcher(runOnce, id, throws));
    WatchInPlace(w.emitters[SocketOf(k)], w.emitters[ConnectionOf(k)], k, fates[k], runOnce, id, throws);
    var r := AddSpec(fuel, w, ConnectionOf(k), CLOSED, Watcher(runOnce, id, throws)).world;
    OneConnectionChanges(w, r, fates, k, Watched(fates[k], throws));
  }

  // A step that erases nothing and changes one connection's emitter only.
  lemma OneConnectionChanges(w: World, r: World, fates: seq<Fate>, k: nat, f: Fate)
    requires Sound(w, fates) && k < |fates| && r.active == w.active && |r.emitters| == |w.emitters|
    requires r.emitters == w.emitters[ConnectionOf(k) := r.emitters[ConnectionOf(k)]]
    requires (forall f: Focus :: Fires(r.log, f) == Fires(w.log, f)) && f.closes == fates[k].closes
    requires InPlace(w.emitters[SocketOf(k)], r.emitters[ConnectionOf(k)], k, f)
    ensures Sound(r, fates[k := f])
  {
    var fates' := fates[k := f];
    forall j | 0 <= j < |fates'| ensures At(r, j, fates'[j]) {
      assert At(w, j, fates[j]);
    }
  }

  // The close of one socket, as seen from the other connections.
  lemma OneSocketCloses(w: World, r: World, fates: seq<Fate>, k: nat, f: Fate)
    requires Sound(w, fates) && k < |fates| && r.active == w.active && |r.emitters| == |w.emitters|
    requires forall j :: 0 <= j < |w.emitters| && j != SocketOf(k) && j != ConnectionOf(k)
               ==> r.emitters[j] == w.emitters[j]
    requires forall j: nat :: j != k ==> Fires(r.log, EraserFocus(j)) == Fires(w.log, EraserFocus(j))
    requires At(r, k, f)
    ensures Sound(r, fates[k := f])
  {
    var fates' := fates[k := f];
    forall j | 0 <= j < |fates'| ensures At(r, j, fates'[j]) {
      assert At(w, j, fates[j]);
    }
  }

  // A close erases the connection if its eraser is registered, which after a throwing close it still is.
  lemma SoundClose(fuel: nat, w: World, fates: seq<Fate>, k: nat)
    requires Sound(w, fates) && k < |fates| && Alive(fates[k]) && fuel > 1
    ensures var r := EmitSpec(fuel, w, SocketOf(k), CLOSED).world;
      && (!ClosedAgain(Next(fates, SocketCloses(k))[k]) ==> Sound(r, Next(fates, SocketCloses(k))))
      && ErasesAs(w.log, r.log, fates, SocketCloses(k))
  {
    assert At(w, k, fates[k]);
    CloseReachesTheConnection(fuel, w, k);
    CloseInPlace(w.emitters[SocketOf(k)], w.emitters[ConnectionOf(k)], k, fates[k]);
    var r := EmitSpec(fuel, w, SocketOf(k), CLOSED).world;
    var f := fates[k].(closes := fates[k].closes + 1);
    if !ClosedAgain(f) {
      OneSocketCloses(w, r, fates, k, f);
    }
  }

  /** The socket of an expired connection emits "closed" to nobody: no connection is erased and no emitter
      but its own is touched. */
  lemma CloseReachesNobody(fuel: nat, w: World, k: nat)
    requires ConnectionOf(k) < |w.emitters| && fuel > 0 && w.active == multiset{} && Clear(w.emitters[SocketOf(k)])
    ensures var r := EmitSpec(fuel, Silenced(w, k), SocketOf(k), CLOSED);
      && r.outcome == (if Up(w.emitters[SocketOf(k)].depth) <= MAX_EMIT_DEPTH then Done else Threw(TooDeep))
      && |r.world.emitters| == |w.emitters| && Clear(r.world.emitters[SocketOf(k)])
      && r.world.emitters == w.emitters[SocketOf(k) := r.world.emitters[SocketOf(k)]]
      && (forall j: nat :: Fires(r.world.log, EraserFocus(j)) == Fires(w.log, EraserFocus(j)))
  {
    assert [SilentRelay(k)][1..] == [];
    EventsAreOthers(CLOSED);
    MildEmit(fuel, Silenced(w, k), SocketOf(k), CLOSED);
  }

  lemma SoundSilentClose(fuel: nat, w: World, fates: seq<Fate>, k: nat)
    requires Sound(w, fates) && k < |fates| && !Alive(fates[k]) && fuel > 0
    ensures var r := EmitSpec(fuel, Silenced(w, k), SocketOf(k), CLOSED).world;
      Sound(r, Next(fates, SocketCloses(k))) && ErasesAs(w.log, r.log, fates, SocketCloses(k))
  {
    assert At(w, k, fates[k]);
    CloseReachesNobody(fuel, w, k);
    OneSocketCloses(w, EmitSpec(fuel, Silenced(w, k), SocketOf(k), CLOSED).world, fates, k, fates[k]);
  }

  lemma SoundOwnership(w: World, fates: seq<Fate>, op: Op)
    requires Sound(w, fates) && Possible(fates, op) && (op.Hold? || op.LetGo?)
    ensures Sound(w, Next(fates, op)) && ErasesAs(w.log, w.log, fates, op)
  {
    var fates' := Next(fates, op);
    forall j | 0 <= j < |fates'| ensures At(w, j, fates'[j]) {
      assert At(w, j, fates[j]);
    }
  }

  // ------------------------------------------------------------------------------------------
  // The list

  lemma {:induction false} InOpen(fates: seq<Fate>, k: nat)
    ensures k in Open(fates) <==> k < |fates| && fates[k].closes == 0
  {
    if fates != [] {
      InOpen(fates[..|fates| - 1], k);
    }
  }

  lemma {:induction false} SurvivorsAppend(list: seq<nat>, k: nat, before: Log, after: Log)
    ensures Survivors(list + [k], before, after)
         == Survivors(list, before, after) + if Erasures(before, after, k) != 0 then [] else [k]
  {
    if list == [] {
      assert [k][1..] == [] && [] + [k] == [k];
    } else {
      assert (list + [k])[1..] == list[1..] + [k];
      SurvivorsAppend(list[1..], k, before, after);
    }
  }

  // Every connection that is open before is erased exactly if it is closed afterwards.
  lemma {:induction false} SurvivorsAreOpen(fates: seq<Fate>, fates': seq<Fate>, before: Log, after: Log)
    requires |fates| <= |fates'|
    requires forall k :: 0 <= k < |fates| ==> fates[k].closes <= fates'[k].closes
    requires forall k :: 0 <= k < |fates| && fates[k].closes == 0 ==>
      (Erasures(before, after, k) != 0 <==> fates'[k].closes != 0)
    ensures Survivors(Open(fates), before, after) == Open(fates'[..|fates|])
  {
    if fates == [] {
      assert fates'[..0] == [];
    } else {
      var n := |fates| - 1;
      SurvivorsAreOpen(fates[..n], fates', before, after);
      assert fates'[..|fates|][..n] == fates'[..n] && fates'[..|fates|][n] == fates'[n];
      assert forall k :: 0 <= k < n ==> fates[..n][k] == fates[k];
      assert Open(fates[..n]) + [] == Open(fates[..n]) && Open(fates'[..n]) + [] == Open(fates'[..n]);
      if fates[n].closes == 0 {
        SurvivorsAppend(Open(fates[..n]), n, before, after);
      }
    }
  }

  // In a sound state everything is known; an unsound one stays unsound.
  ghost predicate Live(s: Server, fates: seq<Fate>) {
    && s.accepted == |fates| && (s.sound <==> Safe(fates))
    && (s.sound ==> Sound(s.world, fates) && s.connections == Open(fates) && HeldAs(s.held, fates))
  }

  ghost predicate HeldAs(held: set<nat>, fates: seq<Fate>) {
    forall k: nat :: k in held <==> k < |fates| && fates[k].held
  }

  lemma SafetyIsLost(fates: seq<Fate>, op: Op)
    requires !Safe(fates)
    ensures !Safe(Next(fates, op))
  {
    var k :| 0 <= k < |fates| && ClosedAgain(fates[k]);
    assert ClosedAgain(Next(fates, op)[k]);
  }

  // From a safe state only one kind of step leads out: closing once more after a close that threw.
  lemma SafetyStep(fates: seq<Fate>, op: Op)
    requires Safe(fates) && Possible(fates, op)
    ensures Safe(Next(fates, op)) <==> !(op.SocketCloses? && ClosedAgain(Next(fates, op)[op.k]))
  {
    var fates' := Next(fates, op);
    forall k | 0 <= k < |fates'| && !(op.SocketCloses? && k == op.k) ensures !ClosedAgain(fates'[k]) {
      if k < |fates| {
        assert !ClosedAgain(fates[k]);
      }
    }
  }

  lemma StepErases(fuel: nat, s: Server, op: Op, fates: seq<Fate>)
    requires Live(s, fates) && s.sound && Possible(fates, op) && fuel > 1
    ensures var w := RunOp(fuel, s, op);
      (Safe(Next(fates, op)) ==> Sound(w, Next(fates, op))) && ErasesAs(s.world.log, w.log, fates, op)
  {
    match op
    case Accept => SoundAccept(fuel, s.world, fates);
    case Watch(k, runOnce, id, throws) => SoundWatch(fuel, s.world, fates, k, runOnce, id, throws);
    case SocketCloses(k) =>
      InOpen(fates, k);
      if Alive(fates[k]) {
        SoundClose(fuel, s.world, fates, k);
        assert Safe(Next(fates, op)) ==> !ClosedAgain(Next(fates, op)[k]);
      } else {
        SoundSilentClose(fuel, s.world, fates, k);
      }
    case _ => SoundOwnership(s.world, fates, op);
  }

  // One step erases soundly exactly if it leads to a safe state.
  lemma SoundStep(s: Server, after: Log, op: Op, fates: seq<Fate>)
    requires s.accepted == |fates| && s.connections == Open(fates) && Safe(fates) && Possible(fates, op)
    requires ErasesAs(s.world.log, after, fates, op)
    ensures ErasesSoundly(s, after) <==> Safe(Next(fates, op))
  {
    SafetyStep(fates, op);
    if op.SocketCloses? {
      InOpen(fates, op.k);
      assert !ClosedAgain(fates[op.k]);
    }
  }

  lemma OpenSurvive(fates: seq<Fate>, op: Op, before: Log, after: Log)
    requires Possible(fates, op) && ErasesAs(before, after, fates, op)
    ensures Survivors(Open(fates), before, after) == Open(Next(fates, op)[..|fates|])
  {
    SurvivorsAreOpen(fates, Next(fates, op), before, after);
  }

  lemma OpenAfter(fates: seq<Fate>, op: Op)
    ensures var fates' := Next(fates, op);
      if op.Accept? then |fates'| == |fates| + 1 && Open(fates') == Open(fates'[..|fates|]) + [|fates|]
      else |fates'| == |fates| && fates'[..|fates|] == fates'
  {
  }

  lemma HoldersAfter(held: set<nat>, fates: seq<Fate>, op: Op)
    requires HeldAs(held, fates) && Possible(fates, op)
    ensures HeldAs(Holders(held, op), Next(fates, op))
  {
  }

  lemma SoundStepKeepsTheList(fuel: nat, s: Server, op: Op, fates: seq<Fate>)
    requires Live(s, fates) && s.sound && Possible(fates, op) && fuel > 1
    ensures Live(Step(fuel, s, op), Next(fates, op))
  {
    StepErases(fuel, s, op, fates);
    SoundStep(s, RunOp(fuel, s, op).log, op, fates);
    OpenSurvive(fates, op, s.world.log, RunOp(fuel, s, op).log);
    OpenAfter(fates, op);
    HoldersAfter(s.held, fates, op);
  }

  lemma StepKeepsTheList(fuel: nat, s: Server, op: Op, fates: seq<Fate>)
    requires Live(s, fates) && Possible(fates, op) && fuel > 1
    ensures Live(Step(fuel, s, op), Next(fates, op))
  {
    if s.sound {
      SoundStepKeepsTheList(fuel, s, op, fates);
    } else {
      SafetyIsLost(fates, op);
      OpenAfter(fates, op);
    }
  }

  lemma {:induction false} RunsKeepTheList(fuel: nat, s: Server, ops: seq<Op>, fates: seq<Fate>)
    requires Live(s, fates) && IsRun(fates, ops) && fuel > 1
    ensures Live(After(fuel, s, ops), Fates(fates, ops))
    decreases |ops|
  {
    if ops != [] {
      StepKeepsTheList(fuel, s, ops[0], fates);
      RunsKeepTheList(fuel, Step(fuel, s, ops[0]), ops[1..], Next(fates, ops[0]));
    }
  }

  /** After any accepts, closes and repeated closes, with any other listeners that do nothing to emitters
      or throw, and with owners of connections that come and go: an entry is erased that is no longer in the
      list exactly if some connection had a throwing watcher at the first close of its socket, and the
      socket closed again while someone had owned the connection ever since. */
  lemma ErasingIsSoundExactly(fuel: nat, ops: seq<Op>)
    requires IsRun([], ops) && fuel > 1
    ensures After(fuel, NO_CONNECTIONS, ops).sound <==> Safe(Fates([], ops))
  {
    RunsKeepTheList(fuel, NO_CONNECTIONS, ops, []);
  }

  /** As long as that has not happened, the list holds exactly the accepted connections whose socket has
      not closed, in accept order, each entry was erased exactly once if its socket has ever closed, and a
      connection has expired exactly if it was erased and nobody else has owned it ever since. */
  lemma LiveConnections(fuel: nat, ops: seq<Op>)
    requires IsRun([], ops) && fuel > 1 && Safe(Fates([], ops))
    ensures var s := After(fuel, NO_CONNECTIONS, ops);
      var fates := Fates([], ops);
      && s.sound && s.accepted == |fates| && s.connections == Open(fates)
      && forall k :: 0 <= k < s.accepted ==>
           && Fires(s.world.log, EraserFocus(k)) == (if fates[k].closes == 0 then 0 else 1)
           && (Expired(s, k) <==> !Alive(fates[k]))
  {
    var s := After(fuel, NO_CONNECTIONS, ops);
    var fates := Fates([], ops);
    RunsKeepTheList(fuel, NO_CONNECTIONS, ops, []);
    forall k | 0 <= k < s.accepted
      ensures Fires(s.world.log, EraserFocus(k)) == if fates[k].closes == 0 then 0 else 1
      ensures Expired(s, k) <==> !Alive(fates[k])
    {
      InOpen(fates, k);
      assert At(s.world, k, fates[k]);
    }
  }

  lemma OneCall(fates: seq<Fate>, op: Op, rest: seq<Op>)
    ensures Fates(fates, [op] + rest) == Fates(Next(fates, op), rest)
    ensures IsRun(fates, [op] + rest) <==> Possible(fates, op) && IsRun(Next(fates, op), rest)
  {
    assert ([op] + rest)[1..] == rest;
  }

  // What comes of a connection that a throwing listener watches when its socket closes twice.
  lemma TwoCloses(held: bool)
    ensures var ops := [Watch(0, true, 7, true)] + ([SocketCloses(0)] + ([SocketCloses(0)] + []));
      IsRun([ACCEPTED.(held := held)], ops)
      && Fates([ACCEPTED.(held := held)], ops) == [Fate(1, true, held, if held then 2 else 1)]
  {
    var f := ACCEPTED.(held := held);
    var f1 := Fate(1, true, held, 0);
    var f2 := Fate(1, true, held, 1);
    var f3 := Fate(1, true, held, if held then 2 else 1);
    assert Next([f], Watch(0, true, 7, true)) == [f1];
    assert Next([f1], SocketCloses(0)) == [f2] && Next([f2], SocketCloses(0)) == [f3];
    OneCall([f], Watch(0, true, 7, true), [SocketCloses(0)] + ([SocketCloses(0)] + []));
    OneCall([f1], SocketCloses(0), [SocketCloses(0)] + []);
    OneCall([f2], SocketCloses(0), []);
  }

  const OWNED_RUN := [Accept, Hold(0), Watch(0, true, 7, true), SocketCloses(0), SocketCloses(0)]

  const UNOWNED_RUN := [Accept, Watch(0, true, 7, true), SocketCloses(0), SocketCloses(0)]

  lemma OwnedFates()
    ensures IsRun([], OWNED_RUN) && Fates([], OWNED_RUN) == [Fate(1, true, true, 2)]
  {
    var ops := [Watch(0, true, 7, true)] + ([SocketCloses(0)] + ([SocketCloses(0)] + []));
    assert OWNED_RUN == [Accept] + ([Hold(0)] + ops);
    assert Next([], Accept) == [ACCEPTED] && Next([ACCEPTED], Hold(0)) == [ACCEPTED.(held := true)];
    OneCall([], Accept, [Hold(0)] + ops);
    OneCall([ACCEPTED], Hold(0), ops);
    TwoCloses(true);
  }

  lemma UnownedFates()
    ensures IsRun([], UNOWNED_RUN) && Fates([], UNOWNED_RUN) == [Fate(1, true, false, 1)]
  {
    var ops := [Watch(0, true, 7, true)] + ([SocketCloses(0)] + ([SocketCloses(0)] + []));
    assert UNOWNED_RUN == [Accept] + ops;
    assert Next([], Accept) == [ACCEPTED] && ACCEPTED.(held := false) == ACCEPTED;
    OneCall([], Accept, ops);
    TwoCloses(false);
  }

  /** A failing run: accept, own the connection, watch it with a run-once listener that throws, close, close.
      Without the owner the second close finds the connection expired, and nothing is erased twice. */
  lemma ThrowingWatcherErasesTwice(fuel: nat)
    requires fuel > 1
    ensures IsRun([], OWNED_RUN) && !After(fuel, NO_CONNECTIONS, OWNED_RUN).sound
    ensures IsRun([], UNOWNED_RUN) && After(fuel, NO_CONNECTIONS, UNOWNED_RUN).sound
  {
    OwnedFates();
    UnownedFates();
    ErasingIsSoundExactly(fuel, OWNED_RUN);
    ErasingIsSoundExactly(fuel, UNOWNED_RUN);
    assert ClosedAgain([Fate(1, true, true, 2)][0]);
  }
}
