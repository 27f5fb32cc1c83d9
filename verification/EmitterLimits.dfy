/** Where the emitter's promises stop: the specification does not depend on the fuel it is given, and
    three families of inputs for which a property fails in the code. */
module EmitterLimits {
  import opened Emitters
  import opened EmissionLaws
  import opened Delegation
  import opened Rollback

  // ------------------------------------------------------------------------------------------
  // Enough fuel is enough: an emission that ends has one result

  lemma EmitMoreFuel(fuel: nat, w: World, e: nat, event: string)
    requires !EmitSpec(fuel, w, e, event).outcome.OutOfFuel?
    ensures EmitSpec(fuel + 1, w, e, event) == EmitSpec(fuel, w, e, event)
    decreases fuel, 0, 0
  {
    if e < |w.emitters| && event != "" {
      var depth := Up(w.emitters[e].depth);
      if depth <= MAX_EMIT_DEPTH {
        var w1 := SetDepth(w, e, depth);
        ImplMoreFuel(fuel - 1, w1, e, event);
        var r := EmitImplSpec(fuel - 1, w1, e, event);
        if r.outcome.Done? && event + SELF_DESTRUCT in r.world.emitters[e].listeners {
          ImplMoreFuel(fuel - 1, r.world, e, event + SELF_DESTRUCT);
        }
      }
    }
  }

  lemma ImplMoreFuel(fuel: nat, w: World, e: nat, event: string)
    requires e < |w.emitters| && !EmitImplSpec(fuel, w, e, event).outcome.OutOfFuel?
    ensures EmitImplSpec(fuel + 1, w, e, event) == EmitImplSpec(fuel, w, e, event)
    decreases fuel, 7, 0
  {
    var w0 := SetList(w, e, event, List(w, e, event));
    DispatchMoreFuel(fuel, Enter(w0, e, event), e, event, List(w, e, event));
  }

  lemma DispatchMoreFuel(fuel: nat, w: World, e: nat, event: string, entries: seq<Entry>)
    requires !DispatchSpec(fuel, w, e, event, entries).outcome.OutOfFuel?
    ensures DispatchSpec(fuel + 1, w, e, event, entries) == DispatchSpec(fuel, w, e, event, entries)
    decreases fuel, 5, |entries|
  {
    if entries != [] {
      if entries[0].callback.id == -1 {
        DispatchMoreFuel(fuel, w, e, event, entries[1..]);
      } else {
        var w1 := Called(w, e, event, entries[0]);
        RunMoreFuel(fuel, w1, entries[0].callback.script);
        var r := RunSpec(fuel, w1, entries[0].callback.script);
        if r.outcome.Done? {
          DispatchMoreFuel(fuel, r.world, e, event, entries[1..]);
        }
      }
    }
  }

  lemma RunMoreFuel(fuel: nat, w: World, script: seq<Action>)
    requires !RunSpec(fuel, w, script).outcome.OutOfFuel?
    ensures RunSpec(fuel + 1, w, script) == RunSpec(fuel, w, script)
    decreases fuel, 4, |script|
  {
    if script != [] {
      ActMoreFuel(fuel, w, script[0]);
      var r := ActSpec(fuel, w, script[0]);
      if r.outcome.Done? {
        RunMoreFuel(fuel, r.world, script[1..]);
      }
    }
  }

  lemma ActMoreFuel(fuel: nat, w: World, action: Action)
    requires !ActSpec(fuel, w, action).outcome.OutOfFuel?
    ensures ActSpec(fuel + 1, w, action) == ActSpec(fuel, w, action)
    decreases fuel, 3, 0
  {
    match action {
      case Emit(e, event) => EmitMoreFuel(fuel, w, e, event);
      case Add(e, event, _, _) =>
        if e < |w.emitters| && event != "" && !AtMax(w, e, event) && event != "newListener" {
          EmitMoreFuel(fuel, SetList(w, e, event, List(w, e, event)), e, LISTENER_ADDED);
        }
      case Remove(e, event, id) =>
        if e < |w.emitters| {
          var matched := WithId(List(w, e, event), id);
          assert !AnnounceLoopSpec(fuel, w, e, event, |matched|).outcome.OutOfFuel?;
          AnnounceMoreFuel(fuel, Enter(SetList(w, e, event, List(w, e, event)), e, event), e, |matched|);
          assert AnnounceLoopSpec(fuel + 1, w, e, event, |matched|) == AnnounceLoopSpec(fuel, w, e, event, |matched|);
        }
      case RemoveAll(_, _) =>
      case Raise =>
    }
  }

  lemma AnnounceMoreFuel(fuel: nat, w: World, e: nat, times: nat)
    requires !AnnounceSpec(fuel, w, e, times).outcome.OutOfFuel?
    ensures AnnounceSpec(fuel + 1, w, e, times) == AnnounceSpec(fuel, w, e, times)
    decreases fuel, 1, times
  {
    if times > 0 {
      EmitMoreFuel(fuel, w, e, LISTENER_REMOVED);
      var r := EmitSpec(fuel, w, e, LISTENER_REMOVED);
      if r.outcome.Done? {
        AnnounceMoreFuel(fuel, r.world, e, times - 1);
      }
    }
  }

  /** The result of an emission is the same for every fuel that covers the depth budget. */
  lemma {:induction false} EmissionIsFuelIndependent(fuel: nat, w: World, e: nat, event: string)
    requires Ready(w) && !IsCompanion(event) && fuel >= Budget(w)
    ensures EmitSpec(fuel, w, e, event) == EmitSpec(Budget(w), w, e, event)
    decreases fuel
  {
    if fuel > Budget(w) {
      EmissionIsFuelIndependent(fuel - 1, w, e, event);
      EmissionTerminates(fuel - 1, w, e, event);
      EmitMoreFuel(fuel - 1, w, e, event);
    }
  }

  /** The listener limit, when those who hear of new listeners only observe: an addition is refused
      exactly when the list is full, and otherwise the list grows by one and stays within the limit. */
  lemma AdditionsRespectTheLimit(fuel: nat, w: World, e: nat, event: string, entry: Entry)
    requires NoCompanionKeys(w) && e < |w.emitters| && event != "" && !IsCompanion(event) && fuel > 0
    requires -128 <= w.emitters[e].depth < MAX_EMIT_DEPTH && Quiet(List(w, e, LISTENER_ADDED))
    requires (e, event) !in w.active
    ensures var r := AddSpec(fuel, w, e, event, entry);
      var full := w.emitters[e].maxListeners != 0 && |List(w, e, event)| >= w.emitters[e].maxListeners;
      && r.outcome == (if full then Threw(TooMany) else Done)
      && List(r.world, e, event) == List(w, e, event) + (if full then [] else [entry])
      && (!full && w.emitters[e].maxListeners != 0 ==> |List(r.world, e, event)| <= w.emitters[e].maxListeners)
  {
    var w0 := SetList(w, e, event, List(w, e, event));
    LookupKeepsTables(w, e, event);
    QuietEmit(fuel, w0, e, LISTENER_ADDED);
  }

  // ------------------------------------------------------------------------------------------
  // A "_selfdestruct" companion defeats the depth guard: emit raises the depth once but emit_impl
  // lowers it in both of its calls.

  const ARMED := "y" + SELF_DESTRUCT

  const LEAKY: Emitter :=
    Emitter(map["y" := [], ARMED := [], "x" := [Entry(false, Callback(1, [Emit(0, "y"), Emit(0, "x")]))]], 0, 10)

  lemma LeakyEmitLowersDepth(fuel: nat, w: World)
    requires fuel > 0 && w.emitters == [LEAKY.(depth := 1)]
    ensures var r := EmitSpec(fuel, w, 0, "y"); r.outcome.Done? && r.world.emitters == [LEAKY]
  {
    assert "y" != ARMED && "x" != ARMED;
    var w1 := SetDepth(w, 0, 2);
    EmptyImpl(fuel - 1, w1, "y");
    var w2 := EmitImplSpec(fuel - 1, w1, 0, "y").world;
    EmptyImpl(fuel - 1, w2, ARMED);
  }

  lemma EmptyImpl(fuel: nat, w: World, event: string)
    requires |w.emitters| == 1 && event in w.emitters[0].listeners && w.emitters[0].listeners[event] == []
    requires -127 <= w.emitters[0].depth
    ensures var r := EmitImplSpec(fuel, w, 0, event);
      r.outcome.Done? && r.world.emitters == [w.emitters[0].(depth := w.emitters[0].depth - 1)]
  {
    assert w.emitters[0].listeners[event := []] == w.emitters[0].listeners;
    var w0 := SetList(w, 0, event, List(w, 0, event));
    assert w0.emitters == w.emitters;
    assert DispatchSpec(fuel, Enter(w0, 0, event), 0, event, []) == Result(Done, Enter(w0, 0, event));
    var r := LoopSpec(fuel, w, 0, event);
    assert r.world.emitters == w.emitters && List(r.world, 0, event) == [];
    assert Persistent([]) == [];
  }

  /** However deep the nesting allowed, this emission has not returned: its depth never rises above 1. */
  lemma {:induction false} CompanionsDefeatTheGuard(fuel: nat, w: World)
    requires w.emitters == [LEAKY]
    ensures EmitSpec(fuel, w, 0, "x").outcome.OutOfFuel?
    decreases fuel
  {
    if fuel > 0 {
      var list := LEAKY.listeners["x"];
      var w1 := SetDepth(w, 0, 1);
      var w2 := Enter(SetList(w1, 0, "x", list), 0, "x");
      assert w2.emitters == [LEAKY.(depth := 1)] by {
        assert LEAKY.listeners["x" := list] == LEAKY.listeners;
      }
      var w3 := Called(w2, 0, "x", list[0]);
      var script := list[0].callback.script;
      var first := EmitSpec(fuel - 1, w3, 0, "y");
      assert ActSpec(fuel - 1, w3, script[0]) == first;
      if fuel > 1 {
        LeakyEmitLowersDepth(fuel - 1, w3);
        CompanionsDefeatTheGuard(fuel - 1, first.world);
        assert script[1..] == [Emit(0, "x")];
        assert ActSpec(fuel - 1, first.world, script[1..][0]).outcome.OutOfFuel?;
      }
      assert RunSpec(fuel - 1, w3, script).outcome.OutOfFuel?;
      assert DispatchSpec(fuel - 1, w2, 0, "x", list) == RunSpec(fuel - 1, w3, script);
      assert LoopSpec(fuel - 1, w1, 0, "x").outcome.OutOfFuel?;
    }
  }

  // ------------------------------------------------------------------------------------------
  // A run-once listener that emits its own event is erased too late

  function Reentrant(depth: int): Emitter {
    Emitter(map["x" := [Entry(true, Callback(7, [Emit(0, "x")]))]], depth, 10)
  }

  /** It is called again at every level until the depth guard throws, and is still registered then. */
  lemma {:induction false} RunOnceMayFireRepeatedly(fuel: nat, w: World, depth: int)
    requires -128 <= depth <= MAX_EMIT_DEPTH && w.emitters == [Reentrant(depth)] && fuel >= MAX_EMIT_DEPTH - depth
    ensures var r := EmitSpec(fuel, w, 0, "x");
      && r.outcome == Threw(TooDeep) && r.world.emitters == [Reentrant(MAX_EMIT_DEPTH + 1)]
      && Fires(r.world.log, Focus(0, "x", 7, true)) == Fires(w.log, Focus(0, "x", 7, true)) + MAX_EMIT_DEPTH - depth
    decreases MAX_EMIT_DEPTH - depth
  {
    var list := Reentrant(depth).listeners["x"];
    if depth < MAX_EMIT_DEPTH {
      var w1 := SetDepth(w, 0, depth + 1);
      assert Reentrant(depth).listeners["x" := list] == Reentrant(depth).listeners;
      var w2 := Enter(SetList(w1, 0, "x", List(w1, 0, "x")), 0, "x");
      assert w2.emitters == [Reentrant(depth + 1)];
      var w3 := Called(w2, 0, "x", list[0]);
      RunOnceMayFireRepeatedly(fuel - 1, w3, depth + 1);
      var r := EmitSpec(fuel - 1, w3, 0, "x");
      assert ActSpec(fuel - 1, w3, list[0].callback.script[0]) == r;
      assert RunSpec(fuel - 1, w3, list[0].callback.script) == r;
      assert DispatchSpec(fuel - 1, w2, 0, "x", list) == r;
      assert EmitSpec(fuel, w, 0, "x") == LoopSpec(fuel - 1, w1, 0, "x");
    }
  }

  // ------------------------------------------------------------------------------------------
  // Rollback after a depth overflow

  const TICK := Entry(false, Callback(1, [Emit(0, "tick")]))

  const TICKING := World([Emitter(map["tick" := [TICK]], 0, 10)], multiset{}, Nothing)

  const TEMPORARY := Entry(false, Callback(2, []))

  /** An action that runs into the depth guard leaves the temporary listener behind. */
  lemma RollbackMayLeaveTheListener(fuel: nat)
    requires fuel >= 100
    ensures var r := RollbackSpec(fuel, TICKING, 0, "ready", TEMPORARY, [Emit(0, "tick")]);
      r.outcome == Threw(TooDeep) && WithId(List(r.world, 0, "ready"), 2) != []
  {
    TickingNames();
    TickingLists(0, "tick");
    TickingIsStatic();
    TickingIsReady();
    TickingHasRoom();
    TickingWithTemporary(fuel);
    var added := AddSpec(fuel, TICKING, 0, "ready", TEMPORARY).world;
    TickThrows(fuel, added);
    var thrown := RunSpec(fuel, added, [Emit(0, "tick")]);
    assert List(thrown.world, 0, LISTENER_REMOVED) == List(added, 0, LISTENER_REMOVED) == [];
    RollbackUndoesTheListener(fuel, TICKING, 0, "ready", TEMPORARY, [Emit(0, "tick")]);
  }

  lemma TickingWithTemporary(fuel: nat)
    requires fuel >= 100
    ensures var r := AddSpec(fuel, TICKING, 0, "ready", TEMPORARY);
      && r.outcome.Done? && Static(r.world) && Ready(r.world) && Depths(r.world) == [0]
      && ListAdded(TICKING, r.world, 0, "ready", TEMPORARY)
  {
    TickingNames();
    TickingLists(0, "tick");
    TickingIsStatic();
    TickingIsReady();
    TickingHasRoom();
    EmitOn(fuel, TICKING, SetList(TICKING, 0, "ready", []), 0, LISTENER_ADDED);
    assert Completes(fuel, TICKING, [0], 0, LISTENER_ADDED);
    assert AddSpec(fuel, TICKING, 0, "ready", TEMPORARY).outcome.Done?;
    AddedToGraph(fuel, TICKING, 0, "ready", TEMPORARY);
    AddKeeps(fuel, TICKING, 0, "ready", TEMPORARY, Focus(0, "", 0, false), 0);
  }

  lemma TickThrows(fuel: nat, w: World)
    requires Static(w) && Ready(w) && Depths(w) == [0] && List(w, 0, "tick") == List(TICKING, 0, "tick") && fuel >= 100
    ensures var r := RunSpec(fuel, w, [Emit(0, "tick")]);
      r.outcome == Threw(TooDeep) && SameLists(w, r.world)
        && |r.world.emitters| == 1 && r.world.emitters[0].depth == 101
  {
    TickingNames();
    TickingLists(0, "tick");
    RestingBudget();
    var n := (0, "tick");
    assert Edge(w, n.0, n.1, 0, "tick") && LeadsInto(w, n, {n});
    assert |w.emitters| == |Depths(w)|;
    CyclesThrow(fuel, w, 0, "tick", {n});
    var action := [Emit(0, "tick")];
    assert ActSpec(fuel, w, action[0]) == EmitSpec(fuel, w, 0, "tick");
    assert RunSpec(fuel, w, action) == ActSpec(fuel, w, action[0]);
  }

  lemma TickingNames()
    ensures !IsCompanion("tick") && !IsCompanion("ready") && "ready" != "newListener"
    ensures "tick" != LISTENER_ADDED && "tick" != LISTENER_REMOVED
  {
    assert "tick"[0] != LISTENER_ADDED[0] && "ready"[0] != "newListener"[0];
  }

  lemma TickingLists(e: nat, event: string)
    ensures List(TICKING, e, event) == if e == 0 && event == "tick" then [TICK] else []
    ensures [TICK][1..] == [] && ScriptTargets([Emit(0, "tick")], 0, "tick")
  {
  }

  lemma TickingIsStatic()
    ensures Static(TICKING)
  {
    forall e: nat, event
      ensures RelaysOnly(List(TICKING, e, event))
    {
      TickingLists(e, event);
    }
  }

  lemma TickingIsReady()
    ensures Ready(TICKING) && NoCompanionKeys(TICKING) && Depths(TICKING) == [0] && Budget(TICKING) == 100
  {
    TickingNames();
    assert Depths(TICKING) == [0];
    RestingBudget();
  }

  lemma RestingBudget()
    ensures Slack([0]) == 100
  {
    assert [0][1..] == [];
  }

  lemma TickingIsFresh()
    ensures FreshIn(TICKING, 2)
  {
    forall e: nat, event
      ensures CleanList(List(TICKING, e, event), 2) && WithoutId(List(TICKING, e, event), 2) == List(TICKING, e, event)
    {
      TickingLists(e, event);
    }
  }

  lemma TickingHasRoom()
    ensures FreshIn(TICKING, 2) && On(TICKING, SetList(TICKING, 0, "ready", []))
  {
    TickingNames();
    TickingIsFresh();
    SetListFacts(TICKING, 0, "ready", []);
  }
}
