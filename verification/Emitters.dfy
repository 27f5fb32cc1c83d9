/** Event emitters and the graph that delegate_to wires between them
    (include/base_event_emitter.h, src/base_event_emitter.cpp, src/base_callback.cpp).

    A World is every live emitter. A listener is a callback whose effect on emitters is a finite script
    of actions. Running one is given twice: by the functions below, which are the specification, and by
    the class EventHub in EventHub.dfy, which changes its fields step by step as the source does. */
module Emitters {

  // ------------------------------------------------------------------------------------------
  // Data

  // An id of -1 marks an empty callback. Delegating to (target, event) is a script of one Emit.
  datatype Callback = Callback(id: int, script: seq<Action>)

  datatype Action =
    | Emit(target: nat, event: string)
    | Add(target: nat, event: string, runOnce: bool, callback: Callback)
    | Remove(target: nat, event: string, id: int)
    | RemoveAll(target: nat, event: string)
    | Raise

  datatype Entry = Entry(runOnce: bool, callback: Callback)

  datatype Emitter = Emitter(listeners: map<string, seq<Entry>>, depth: int, maxListeners: nat)

  datatype Reason = EmptyEvent | TooDeep | TooMany | SelfDelegation | Raised

  // Undefined: the list a loop is iterating over was changed under it, which C++ leaves undefined.
  // OutOfFuel: the bound on nested emissions given to the specification was used up.
  datatype Outcome = Done | Threw(reason: Reason) | Undefined | OutOfFuel

  datatype Note =
    | Fired(e: nat, event: string, runOnce: bool, id: int, level: nat)
    | Added(e: nat, event: string, runOnce: bool, id: int)
    | Dropped(e: nat, event: string, entries: seq<Entry>)
    | Finished(e: nat, event: string)

  datatype Log = Nothing | Then(earlier: Log, note: Note)

  // active holds one (emitter, event) for every loop over a listener list now on the call stack.
  datatype World = World(emitters: seq<Emitter>, active: multiset<(nat, string)>, log: Log)

  datatype Result = Result(outcome: Outcome, world: World)

  const MAX_EMIT_DEPTH := 100
  const SELF_DESTRUCT := "_selfdestruct"
  const LISTENER_ADDED := "listener_added"
  const LISTENER_REMOVED := "listener_removed"

  // The depth counter is an 8-bit atomic, which wraps.
  function Up(depth: int): int {
    if depth == 127 then -128 else depth + 1
  }

  function Down(depth: int): int {
    if depth == -128 then 127 else depth - 1
  }

  function List(w: World, e: nat, event: string): seq<Entry> {
    if e < |w.emitters| && event in w.emitters[e].listeners then w.emitters[e].listeners[event] else []
  }

  function SetList(w: World, e: nat, event: string, list: seq<Entry>): World
    requires e < |w.emitters|
  {
    w.(emitters := w.emitters[e := w.emitters[e].(listeners := w.emitters[e].listeners[event := list])])
  }

  function SetDepth(w: World, e: nat, depth: int): World
    requires e < |w.emitters|
  {
    w.(emitters := w.emitters[e := w.emitters[e].(depth := depth)])
  }

  function Log1(w: World, note: Note): World {
    w.(log := Then(w.log, note))
  }

  function Enter(w: World, e: nat, event: string): World {
    w.(active := w.active + multiset{(e, event)})
  }

  function Persistent(list: seq<Entry>): seq<Entry> {
    if list == [] then []
    else if list[0].runOnce then Persistent(list[1..])
    else [list[0]] + Persistent(list[1..])
  }

  function WithId(list: seq<Entry>, id: int): seq<Entry> {
    if list == [] then []
    else if list[0].callback.id == id then [list[0]] + WithId(list[1..], id)
    else WithId(list[1..], id)
  }

  function WithoutId(list: seq<Entry>, id: int): seq<Entry> {
    if list == [] then []
    else if list[0].callback.id == id then WithoutId(list[1..], id)
    else [list[0]] + WithoutId(list[1..], id)
  }

  function Ids(list: seq<Entry>): seq<int> {
    if list == [] then []
    else if list[0].callback.id == -1 then Ids(list[1..])
    else [list[0].callback.id] + Ids(list[1..])
  }

  predicate AtMax(w: World, e: nat, event: string)
    requires e < |w.emitters|
  {
    w.emitters[e].maxListeners != 0 && |List(w, e, event)| >= w.emitters[e].maxListeners
  }

  // ------------------------------------------------------------------------------------------
  // Specification of emission. The fuel bounds how deeply emissions may nest; a target outside the
  // world is a destination that has expired, on which delegated events are silently dropped.

  function EmitSpec(fuel: nat, w: World, e: nat, event: string): (r: Result)
    ensures r.world.active == w.active && |r.world.emitters| == |w.emitters|
    decreases fuel, 0, 0
  {
    if e >= |w.emitters| then Result(Done, w)
    else if event == "" then Result(Threw(EmptyEvent), w)
    else
      var depth := Up(w.emitters[e].depth);
      var w1 := SetDepth(w, e, depth);
      if depth > MAX_EMIT_DEPTH then Result(Threw(TooDeep), w1)
      else if fuel == 0 then Result(OutOfFuel, w1)
      else
        var r := EmitImplSpec(fuel - 1, w1, e, event);
        if r.outcome.Done? && event + SELF_DESTRUCT in r.world.emitters[e].listeners
        then EmitImplSpec(fuel - 1, r.world, e, event + SELF_DESTRUCT)
        else r
  }

  // The depth has been raised by the caller; emit_impl lowers it when its loop ends normally.
  function EmitImplSpec(fuel: nat, w: World, e: nat, event: string): (r: Result)
    requires e < |w.emitters|
    ensures r.world.active == w.active && |r.world.emitters| == |w.emitters|
    decreases fuel, 7, 0
  {
    var r := LoopSpec(fuel, w, e, event);
    if !r.outcome.Done? then r
    else
      var list := List(r.world, e, event);
      if (e, event) in w.active && Persistent(list) != list then Result(Undefined, r.world)
      else Result(Done, LoopEnd(r.world, e, event))
  }

  function LoopSpec(fuel: nat, w: World, e: nat, event: string): (r: Result)
    requires e < |w.emitters|
    ensures r.world.active == w.active && |r.world.emitters| == |w.emitters|
    decreases fuel, 6, 0
  {
    var w0 := SetList(w, e, event, List(w, e, event));
    var r := DispatchSpec(fuel, Enter(w0, e, event), e, event, List(w, e, event));
    Result(r.outcome, r.world.(active := w.active))
  }

  function LoopEnd(w: World, e: nat, event: string): World
    requires e < |w.emitters|
  {
    var w1 := SetList(Log1(w, Finished(e, event)), e, event, Persistent(List(w, e, event)));
    SetDepth(w1, e, Down(w1.emitters[e].depth))
  }

  function DispatchSpec(fuel: nat, w: World, e: nat, event: string, entries: seq<Entry>): (r: Result)
    ensures r.world.active == w.active && |r.world.emitters| == |w.emitters|
    decreases fuel, 5, |entries|
  {
    if entries == [] then Result(Done, w)
    else if entries[0].callback.id == -1 then DispatchSpec(fuel, w, e, event, entries[1..])
    else
      var r := RunSpec(fuel, Called(w, e, event, entries[0]), entries[0].callback.script);
      if !r.outcome.Done? then r else DispatchSpec(fuel, r.world, e, event, entries[1..])
  }

  function Called(w: World, e: nat, event: string, entry: Entry): World {
    Log1(w, Fired(e, event, entry.runOnce, entry.callback.id, |w.active|))
  }

  function RunSpec(fuel: nat, w: World, script: seq<Action>): (r: Result)
    ensures r.world.active == w.active && |r.world.emitters| == |w.emitters|
    decreases fuel, 4, |script|
  {
    if script == [] then Result(Done, w)
    else
      var r := ActSpec(fuel, w, script[0]);
      if !r.outcome.Done? then r else RunSpec(fuel, r.world, script[1..])
  }

  function ActSpec(fuel: nat, w: World, action: Action): (r: Result)
    ensures r.world.active == w.active && |r.world.emitters| == |w.emitters|
    decreases fuel, 3, 0
  {
    match action
    case Raise => Result(Threw(Raised), w)
    case Emit(e, event) => EmitSpec(fuel, w, e, event)
    case Add(e, event, runOnce, callback) => AddSpec(fuel, w, e, event, Entry(runOnce, callback))
    case Remove(e, event, id) => RemoveSpec(fuel, w, e, event, id)
    case RemoveAll(e, event) =>
      if e >= |w.emitters| then Result(Done, w)
      else if (e, event) in w.active && List(w, e, event) != [] then Result(Undefined, w)
      else Result(Done, SetList(Log1(w, Dropped(e, event, List(w, e, event))), e, event, []))
  }

  function AddSpec(fuel: nat, w: World, e: nat, event: string, entry: Entry): (r: Result)
    ensures r.world.active == w.active && |r.world.emitters| == |w.emitters|
    decreases fuel, 1, 0
  {
    if e >= |w.emitters| then Result(Done, w)
    else if event == "" then Result(Threw(EmptyEvent), w)
    else
      var w0 := SetList(w, e, event, List(w, e, event));
      if AtMax(w, e, event) then Result(Threw(TooMany), w0)
      else
        var r := if event == "newListener" then Result(Done, w0) else EmitSpec(fuel, w0, e, LISTENER_ADDED);
        if !r.outcome.Done? then r
        else if (e, event) in w.active then Result(Undefined, r.world)
        else Result(Done, Appended(r.world, e, event, entry))
  }

  function RemoveSpec(fuel: nat, w: World, e: nat, event: string, id: int): (r: Result)
    ensures r.world.active == w.active && |r.world.emitters| == |w.emitters|
    decreases fuel, 2, 0
  {
    if e >= |w.emitters| then Result(Done, w)
    else
      var matched := WithId(List(w, e, event), id);
      var r := AnnounceLoopSpec(fuel, w, e, event, |matched|);
      if !r.outcome.Done? then r
      else if (e, event) in w.active && matched != [] then Result(Undefined, r.world)
      else Result(Done, Discarded(r.world, e, event, id))
  }

  // The passes of remove_listener's predicate, which runs while the list is being traversed.
  function AnnounceLoopSpec(fuel: nat, w: World, e: nat, event: string, times: nat): (r: Result)
    requires e < |w.emitters|
    ensures r.world.active == w.active && |r.world.emitters| == |w.emitters|
    decreases fuel, 1, times + 1
  {
    var w0 := SetList(w, e, event, List(w, e, event));
    var r := AnnounceSpec(fuel, Enter(w0, e, event), e, times);
    Result(r.outcome, r.world.(active := w.active))
  }

  function Appended(w: World, e: nat, event: string, entry: Entry): World
    requires e < |w.emitters|
  {
    SetList(Log1(w, Added(e, event, entry.runOnce, entry.callback.id)), e, event, List(w, e, event) + [entry])
  }

  function Discarded(w: World, e: nat, event: string, id: int): World
    requires e < |w.emitters|
  {
    var list := List(w, e, event);
    SetList(Log1(w, Dropped(e, event, WithId(list, id))), e, event, WithoutId(list, id))
  }

  // remove_listener emits "listener_removed" once for every entry it is about to erase.
  function AnnounceSpec(fuel: nat, w: World, e: nat, times: nat): (r: Result)
    ensures r.world.active == w.active && |r.world.emitters| == |w.emitters|
    decreases fuel, 1, times
  {
    if times == 0 then Result(Done, w)
    else
      var r := EmitSpec(fuel, w, e, LISTENER_REMOVED);
      if !r.outcome.Done? then r else AnnounceSpec(fuel, r.world, e, times - 1)
  }

  // delegate_to: a listener that repeats the event on the destination. Only a destination that is the
  // source itself is rejected.
  function DelegateSpec(fuel: nat, w: World, e: nat, event: string, dest: nat, destEvent: string, id: int): Result {
    if dest >= |w.emitters| then Result(Done, w)
    else if dest == e then Result(Threw(SelfDelegation), w)
    else AddSpec(fuel, w, e, event, Entry(false, Callback(id, [Emit(dest, destEvent)])))
  }

  // rollback_event_on_exception: a listener registered for the duration of an action, kept if the
  // action returns and removed again if it throws.
  function RollbackSpec(fuel: nat, w: World, e: nat, event: string, entry: Entry, action: seq<Action>): Result {
    var added := AddSpec(fuel, w, e, event, entry);
    if !added.outcome.Done? then added
    else
      var r := RunSpec(fuel, added.world, action);
      if !r.outcome.Threw? then r
      else
        var removed := RemoveSpec(fuel, r.world, e, event, entry.callback.id);
        if !removed.outcome.Done? then removed else Result(r.outcome, removed.world)
  }
}
