/** The emitters as mutable state. Each method performs the source's statements on the fields and is
    proved to compute what the specification in Emitters.dfy says, so every theorem about the
    specification is a theorem about these methods. Termination is by the depth budget. */
module EventHubs {
  import opened Emitters
  import opened EmissionLaws

  const ANYWHERE := Focus(0, "", 0, false)

  class EventHub {
    var emitters: seq<Emitter>
    var active: multiset<(nat, string)>  // loops now on the call stack; C++ keeps no such record
    ghost var log: Log

    ghost function Now(): World
      reads this
    {
      World(emitters, active, log)
    }

    constructor (n: nat, maxListeners: nat)
      ensures Now() == World(seq(n, i => Emitter(map[], 0, maxListeners)), multiset{}, Nothing)
      ensures Ready(Now())
    {
      emitters := seq(n, i => Emitter(map[], 0, maxListeners));
      active := multiset{};
      log := Nothing;
    }

    method ListenersOf(e: nat, event: string) returns (list: seq<Entry>)
      requires e < |emitters|
      ensures list == List(Now(), e, event)
    {
      list := if event in emitters[e].listeners then emitters[e].listeners[event] else [];
    }

    method StoreListeners(e: nat, event: string, list: seq<Entry>)
      requires e < |emitters|
      modifies this`emitters
      ensures Now() == SetList(old(Now()), e, event, list)
    {
      emitters := emitters[e := emitters[e].(listeners := emitters[e].listeners[event := list])];
    }

    method StoreDepth(e: nat, depth: int)
      requires e < |emitters|
      modifies this`emitters
      ensures Now() == SetDepth(old(Now()), e, depth)
    {
      emitters := emitters[e := emitters[e].(depth := depth)];
    }

    // emit. A companion event would be emitted here too; a Ready world has none.
    method EmitEvent(e: nat, event: string) returns (outcome: Outcome)
      requires Ready(Now()) && !IsCompanion(event)
      modifies this
      ensures Result(outcome, Now()) == EmitSpec(Budget(old(Now())), old(Now()), e, event)
      decreases Budget(Now()), 0
    {
      ghost var w := Now();
      if e >= |emitters| {
        return Done;
      }
      if event == "" {
        return Threw(EmptyEvent);
      }
      var depth := Up(emitters[e].depth);
      StoreDepth(e, depth);
      if depth > MAX_EMIT_DEPTH {
        return Threw(TooDeep);
      }
      RaisedDepthFacts(w, e, ANYWHERE);
      ghost var w1 := Now();
      outcome := EmitImpl(e, event);
      ImplKeeps(Budget(w1), w1, e, event, ANYWHERE, 0);
    }

    // emit_impl
    method EmitImpl(e: nat, event: string) returns (outcome: Outcome)
      requires Ready(Now()) && !IsCompanion(event) && e < |emitters| && -127 <= emitters[e].depth
      modifies this
      ensures Result(outcome, Now()) == EmitImplSpec(Budget(old(Now())), old(Now()), e, event)
      decreases Budget(Now()), 7
    {
      ghost var w := Now();
      ghost var fuel := Budget(w);
      LoopKeeps(fuel, w, e, event, ANYWHERE, 0);
      outcome := CallListeners(e, event);
      if outcome != Done {
        return;
      }
      var list := ListenersOf(e, event);
      if (e, event) in active && Persistent(list) != list {
        return Undefined;
      }
      log := Then(log, Finished(e, event));
      StoreListeners(e, event, Persistent(list));
      StoreDepth(e, Down(emitters[e].depth));
    }

    // the loop of emit_impl
    method CallListeners(e: nat, event: string) returns (outcome: Outcome)
      requires Ready(Now()) && !IsCompanion(event) && e < |emitters|
      modifies this
      ensures Result(outcome, Now()) == LoopSpec(Budget(old(Now())), old(Now()), e, event)
      decreases Budget(Now()), 6
    {
      ghost var w := Now();
      ghost var fuel := Budget(w);
      var outer := active;
      var callbacks := ListenersOf(e, event);
      ListsArePlain(w, e, event);
      LookedUpFacts(w, e, event, ANYWHERE);
      StoreListeners(e, event, callbacks);
      active := active + multiset{(e, event)};
      ghost var inner := Now();
      assert inner == Enter(SetList(w, e, event, callbacks), e, event) && Depths(inner) == Depths(w);
      for i := 0 to |callbacks|
        invariant Ready(Now()) && Depths(Now()) == Depths(w)
        invariant DispatchSpec(fuel, Now(), e, event, callbacks[i..]) == DispatchSpec(fuel, inner, e, event, callbacks)
      {
        assert callbacks[i..][0] == callbacks[i] && callbacks[i..][1..] == callbacks[i + 1..];
        if callbacks[i].callback.id != -1 {
          log := Then(log, Fired(e, event, callbacks[i].runOnce, callbacks[i].callback.id, |active|));
          ghost var called := Now();
          assert Depths(called) == Depths(w);
          RunKeeps(fuel, called, callbacks[i].callback.script, ANYWHERE, 0);
          outcome := RunScript(callbacks[i].callback.script);
          if outcome != Done {
            active := outer;
            return;
          }
        }
      }
      active := outer;
      outcome := Done;
    }

    // a listener's body
    method RunScript(script: seq<Action>) returns (outcome: Outcome)
      requires Ready(Now()) && PlainScript(script)
      modifies this
      ensures Result(outcome, Now()) == RunSpec(Budget(old(Now())), old(Now()), script)
      decreases Budget(Now()), 4
    {
      ghost var w := Now();
      ghost var fuel := Budget(w);
      for i := 0 to |script|
        invariant Ready(Now()) && Depths(Now()) == Depths(w)
        invariant RunSpec(fuel, Now(), script[i..]) == RunSpec(fuel, w, script)
      {
        assert script[i..][0] == script[i] && script[i..][1..] == script[i + 1..];
        ActKeeps(fuel, Now(), script[i], ANYWHERE, 0);
        outcome := Perform(script[i]);
        if outcome != Done {
          return;
        }
      }
      outcome := Done;
    }

    method Perform(action: Action) returns (outcome: Outcome)
      requires Ready(Now()) && PlainAction(action)
      modifies this
      ensures Result(outcome, Now()) == ActSpec(Budget(old(Now())), old(Now()), action)
      decreases Budget(Now()), 3
    {
      match action {
        case Raise => outcome := Threw(Raised);
        case Emit(e, event) => outcome := EmitEvent(e, event);
        case Add(e, event, runOnce, callback) => outcome := AddListener(e, event, Entry(runOnce, callback));
        case Remove(e, event, id) => outcome := RemoveListener(e, event, id);
        case RemoveAll(e, event) => outcome := RemoveAllListeners(e, event);
      }
    }

    method AddListener(e: nat, event: string, entry: Entry) returns (outcome: Outcome)
      requires Ready(Now()) && !IsCompanion(event) && PlainScript(entry.callback.script)
      modifies this
      ensures Result(outcome, Now()) == AddSpec(Budget(old(Now())), old(Now()), e, event, entry)
      decreases Budget(Now()), 1
    {
      ghost var w := Now();
      if e >= |emitters| {
        return Done;
      }
      if event == "" {
        return Threw(EmptyEvent);
      }
      var list := ListenersOf(e, event);
      LookedUpFacts(w, e, event, ANYWHERE);
      StoreListeners(e, event, list);
      if emitters[e].maxListeners != 0 && |list| >= emitters[e].maxListeners {
        return Threw(TooMany);
      }
      if event != "newListener" {
        outcome := EmitEvent(e, LISTENER_ADDED);
        if outcome != Done {
          return;
        }
      }
      if (e, event) in active {
        return Undefined;
      }
      log := Then(log, Added(e, event, entry.runOnce, entry.callback.id));
      list := ListenersOf(e, event);
      StoreListeners(e, event, list + [entry]);
      outcome := Done;
    }

    // delegate_to, with detect_delegate_loops; dest is out of range when the destination has expired
    method DelegateTo(e: nat, event: string, dest: nat, destEvent: string, id: int) returns (outcome: Outcome)
      requires Ready(Now()) && !IsCompanion(event) && !IsCompanion(destEvent)
      modifies this
      ensures Result(outcome, Now()) == DelegateSpec(Budget(old(Now())), old(Now()), e, event, dest, destEvent, id)
    {
      if dest >= |emitters| {
        return Done;
      }
      if dest == e {
        return Threw(SelfDelegation);
      }
      outcome := AddListener(e, event, Entry(false, Callback(id, [Emit(dest, destEvent)])));
    }

    method RemoveListener(e: nat, event: string, id: int) returns (outcome: Outcome)
      requires Ready(Now()) && !IsCompanion(event)
      modifies this
      ensures Result(outcome, Now()) == RemoveSpec(Budget(old(Now())), old(Now()), e, event, id)
      decreases Budget(Now()), 2
    {
      if e >= |emitters| {
        return Done;
      }
      var list := ListenersOf(e, event);
      var matched := WithId(list, id);
      outcome := AnnounceRemovals(e, event, |matched|);
      if outcome != Done {
        return;
      }
      if (e, event) in active && matched != [] {
        return Undefined;
      }
      list := ListenersOf(e, event);
      log := Then(log, Dropped(e, event, WithId(list, id)));
      StoreListeners(e, event, WithoutId(list, id));
    }

    // the passes of remove_listener's predicate
    method AnnounceRemovals(e: nat, event: string, times: nat) returns (outcome: Outcome)
      requires Ready(Now()) && !IsCompanion(event) && e < |emitters|
      modifies this
      ensures Result(outcome, Now()) == AnnounceLoopSpec(Budget(old(Now())), old(Now()), e, event, times)
      decreases Budget(Now()), 1
    {
      ghost var w := Now();
      ghost var fuel := Budget(w);
      var outer := active;
      var list := ListenersOf(e, event);
      LookedUpFacts(w, e, event, ANYWHERE);
      StoreListeners(e, event, list);
      active := active + multiset{(e, event)};
      ghost var inner := Now();
      assert Depths(inner) == Depths(w);
      for i := 0 to times
        invariant Ready(Now()) && Depths(Now()) == Depths(w)
        invariant AnnounceSpec(fuel, Now(), e, times - i) == AnnounceSpec(fuel, inner, e, times)
      {
        EmitKeeps(fuel, Now(), e, LISTENER_REMOVED, ANYWHERE, 0);
        outcome := EmitEvent(e, LISTENER_REMOVED);
        if outcome != Done {
          active := outer;
          return;
        }
      }
      active := outer;
      outcome := Done;
    }

    // remove_all_listeners( event )
    method RemoveAllListeners(e: nat, event: string) returns (outcome: Outcome)
      modifies this
      ensures Result(outcome, Now()) == ActSpec(Budget(old(Now())), old(Now()), RemoveAll(e, event))
    {
      if e >= |emitters| {
        return Done;
      }
      var list := ListenersOf(e, event);
      if (e, event) in active && list != [] {
        return Undefined;
      }
      log := Then(log, Dropped(e, event, list));
      StoreListeners(e, event, []);
      outcome := Done;
    }
  }
}
