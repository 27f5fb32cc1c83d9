/** The graph that delegate_to builds: nodes are (emitter, event) pairs, and a persistent listener that
    emits on other emitters is a bundle of edges. Whether an emission comes back is a property of the
    graph: it completes when the edges go down some ranking, and throws when it enters a cycle. */
module Delegation {
  import opened Emitters
  import opened EmissionLaws

  // ------------------------------------------------------------------------------------------
  // Graphs

  // A callback that only passes events on: what delegate_to registers.
  predicate RelayScript(script: seq<Action>) {
    forall i :: 0 <= i < |script| ==> script[i].Emit? && script[i].event != "" && !IsCompanion(script[i].event)
  }

  predicate RelaysOnly(list: seq<Entry>) {
    forall i :: 0 <= i < |list| ==> !list[i].runOnce && RelayScript(list[i].callback.script)
  }

  // g serves as the graph: only its lists matter.
  ghost predicate Static(g: World) {
    forall e: nat, event :: RelaysOnly(List(g, e, event))
  }

  // A world of the same graph, with depth counters, loops and log of its own.
  ghost predicate On(g: World, w: World) {
    && Ready(w)
    && |w.emitters| == |g.emitters|
    && (forall e: nat, event :: List(w, e, event) == List(g, e, event))
  }

  predicate ScriptTargets(script: seq<Action>, e: nat, event: string) {
    script != [] && (script[0] == Emit(e, event) || ScriptTargets(script[1..], e, event))
  }

  predicate ListTargets(list: seq<Entry>, e: nat, event: string) {
    && list != []
    && ((list[0].callback.id != -1 && ScriptTargets(list[0].callback.script, e, event))
      || ListTargets(list[1..], e, event))
  }

  // An edge of the graph: emitting the first event on the first emitter emits the second on the second.
  predicate Edge(g: World, e: nat, event: string, e': nat, event': string) {
    ListTargets(List(g, e, event), e', event')
  }

  /** Whether an emission completes, read off the graph: every node reached must have depth to spare. */
  ghost predicate Completes(fuel: nat, g: World, depths: seq<int>, e: nat, event: string)
    decreases fuel
  {
    e < |depths| ==>
      && depths[e] < MAX_EMIT_DEPTH
      && fuel > 0
      && forall e': nat, event' :: Edge(g, e, event, e', event')
           ==> Completes(fuel - 1, g, depths[e := depths[e] + 1], e', event')
  }

  ghost predicate ScriptCompletes(fuel: nat, g: World, depths: seq<int>, script: seq<Action>) {
    forall e: nat, event :: ScriptTargets(script, e, event) ==> Completes(fuel, g, depths, e, event)
  }

  ghost predicate EntriesComplete(fuel: nat, g: World, depths: seq<int>, entries: seq<Entry>) {
    forall e: nat, event :: ListTargets(entries, e, event) ==> Completes(fuel, g, depths, e, event)
  }

  lemma CompletesByEntries(fuel: nat, g: World, depths: seq<int>, e: nat, event: string)
    requires fuel > 0 && e < |depths| && depths[e] < MAX_EMIT_DEPTH
    ensures Completes(fuel, g, depths, e, event)
       <==> EntriesComplete(fuel - 1, g, depths[e := depths[e] + 1], List(g, e, event))
  {
    forall e': nat, event'
      ensures Edge(g, e, event, e', event') == ListTargets(List(g, e, event), e', event')
    {
    }
  }

  // ------------------------------------------------------------------------------------------
  // Running on a graph: lists never change, no loop is disturbed, only the depth guard throws

  ghost predicate Returns(g: World, depths: seq<int>, r: Result, completes: bool) {
    && (forall e: nat, event :: List(r.world, e, event) == List(g, e, event))
    && !r.outcome.Undefined?
    && (r.outcome.Threw? ==> r.outcome == Threw(TooDeep))
    && (r.outcome.Done? <==> completes)
    && (r.outcome.Done? ==> On(g, r.world) && Depths(r.world) == depths)
  }

  lemma {:induction false} RelaysAreKept(list: seq<Entry>)
    requires RelaysOnly(list)
    ensures Persistent(list) == list
  {
    if list != [] {
      assert RelaysOnly(list[1..]);
      RelaysAreKept(list[1..]);
    }
  }

  lemma RaisedDepthOn(g: World, w: World, e: nat)
    requires On(g, w) && e < |w.emitters| && w.emitters[e].depth < MAX_EMIT_DEPTH
    ensures var w1 := SetDepth(w, e, w.emitters[e].depth + 1);
      On(g, w1) && Depths(w1) == Depths(w)[e := Depths(w)[e] + 1] && Depths(w) == Depths(w1)[e := Depths(w1)[e] - 1]
  {
    RaisedDepthFacts(w, e, Focus(0, "", 0, false));
  }

  lemma LoopEntryOn(g: World, w: World, e: nat, event: string)
    requires On(g, w) && e < |w.emitters| && !IsCompanion(event)
    ensures var inner := Enter(SetList(w, e, event, List(w, e, event)), e, event);
      On(g, inner) && Depths(inner) == Depths(w) && PlainList(List(w, e, event))
  {
    ListsArePlain(w, e, event);
    SetListFacts(w, e, event, List(w, e, event));
    LookedUpFacts(w, e, event, Focus(0, "", 0, false));
    var inner := Enter(SetList(w, e, event, List(w, e, event)), e, event);
    assert Depths(inner) == Depths(w);
  }

  lemma EmitOn(fuel: nat, g: World, w: World, e: nat, event: string)
    requires Static(g) && On(g, w) && !IsCompanion(event) && event != ""
    ensures Returns(g, Depths(w), EmitSpec(fuel, w, e, event), Completes(fuel, g, Depths(w), e, event))
    decreases fuel, 0, 0
  {
    if e < |w.emitters| {
      if w.emitters[e].depth == MAX_EMIT_DEPTH || fuel == 0 {
        GuardReturns(fuel, g, w, e, event);
      } else {
        var w1 := SetDepth(w, e, w.emitters[e].depth + 1);
        RaisedDepthOn(g, w, e);
        ImplOn(fuel - 1, g, w1, e, event);
        NoCompanionRan(fuel, g, w, e, event);
        LoopReturns(fuel, g, Depths(w), EmitImplSpec(fuel - 1, w1, e, event), e, event);
      }
    }
  }

  lemma GuardReturns(fuel: nat, g: World, w: World, e: nat, event: string)
    requires On(g, w) && event != "" && e < |w.emitters| && (w.emitters[e].depth == MAX_EMIT_DEPTH || fuel == 0)
    ensures Returns(g, Depths(w), EmitSpec(fuel, w, e, event), Completes(fuel, g, Depths(w), e, event))
  {
    GuardedEmit(fuel, w, e, event);
    SetDepthLists(w, e, w.emitters[e].depth + 1);
    assert Depths(w)[e] == w.emitters[e].depth;
  }

  // What the loop returned, one level further up.
  lemma LoopReturns(fuel: nat, g: World, depths: seq<int>, r: Result, e: nat, event: string)
    requires e < |depths| && depths[e] < MAX_EMIT_DEPTH && fuel > 0
    requires var inner := depths[e := depths[e] + 1];
      Returns(g, inner[e := inner[e] - 1], r, EntriesComplete(fuel - 1, g, inner, List(g, e, event)))
    ensures Returns(g, depths, r, Completes(fuel, g, depths, e, event))
  {
    var inner := depths[e := depths[e] + 1];
    assert inner[e := inner[e] - 1] == depths;
    CompletesByEntries(fuel, g, depths, e, event);
  }

  lemma GuardedEmit(fuel: nat, w: World, e: nat, event: string)
    requires event != "" && e < |w.emitters| && -128 <= w.emitters[e].depth <= MAX_EMIT_DEPTH
    requires w.emitters[e].depth == MAX_EMIT_DEPTH || fuel == 0
    ensures EmitSpec(fuel, w, e, event) ==
      Result(if w.emitters[e].depth == MAX_EMIT_DEPTH then Threw(TooDeep) else OutOfFuel,
             SetDepth(w, e, w.emitters[e].depth + 1))
  {
  }

  lemma NoCompanionRan(fuel: nat, g: World, w: World, e: nat, event: string)
    requires e < |w.emitters| && -128 <= w.emitters[e].depth < MAX_EMIT_DEPTH && fuel > 0 && event != ""
    requires var r := EmitImplSpec(fuel - 1, SetDepth(w, e, w.emitters[e].depth + 1), e, event);
      r.outcome.Done? ==> On(g, r.world)
    ensures EmitSpec(fuel, w, e, event) == EmitImplSpec(fuel - 1, SetDepth(w, e, w.emitters[e].depth + 1), e, event)
  {
  }

  lemma ImplOn(fuel: nat, g: World, w: World, e: nat, event: string)
    requires Static(g) && On(g, w) && !IsCompanion(event) && e < |w.emitters| && -127 <= w.emitters[e].depth
    ensures var r := EmitImplSpec(fuel, w, e, event);
      Returns(g, Depths(w)[e := Depths(w)[e] - 1], r, EntriesComplete(fuel, g, Depths(w), List(g, e, event)))
    decreases fuel, 7, 0
  {
    LoopOn(fuel, g, w, e, event);
    var r := LoopSpec(fuel, w, e, event);
    if r.outcome.Done? {
      assert r.world.emitters[e].depth == Depths(r.world)[e] == Depths(w)[e];
      RelaysAreKept(List(g, e, event));
      LoopEndOn(g, r.world, e, event);
    }
  }

  // The loop has nothing to erase among relays.
  lemma LoopEndOn(g: World, w: World, e: nat, event: string)
    requires Static(g) && On(g, w) && !IsCompanion(event) && e < |w.emitters| && -127 <= w.emitters[e].depth
    ensures var r := LoopEnd(w, e, event); On(g, r) && Depths(r) == Depths(w)[e := w.emitters[e].depth - 1]
  {
    RelaysAreKept(List(g, e, event));
    LoopEndFacts(w, e, event, Focus(e, event, 0, false));
    forall e': nat, event'
      ensures List(LoopEnd(w, e, event), e', event') == List(g, e', event')
    {
      LoopEndFacts(w, e, event, Focus(e', event', 0, false));
    }
  }

  lemma LoopOn(fuel: nat, g: World, w: World, e: nat, event: string)
    requires Static(g) && On(g, w) && !IsCompanion(event) && e < |w.emitters|
    ensures Returns(g, Depths(w), LoopSpec(fuel, w, e, event), EntriesComplete(fuel, g, Depths(w), List(g, e, event)))
    decreases fuel, 6, 0
  {
    var list := List(w, e, event);
    LoopEntryOn(g, w, e, event);
    var inner := Enter(SetList(w, e, event, list), e, event);
    DispatchOn(fuel, g, inner, e, event, list);
    var r := DispatchSpec(fuel, inner, e, event, list);
    assert Depths(r.world.(active := w.active)) == Depths(r.world);
  }

  lemma DispatchOn(fuel: nat, g: World, w: World, e: nat, event: string, entries: seq<Entry>)
    requires Static(g) && On(g, w) && RelaysOnly(entries) && PlainList(entries)
    ensures Returns(g, Depths(w), DispatchSpec(fuel, w, e, event, entries),
      EntriesComplete(fuel, g, Depths(w), entries))
    decreases fuel, 5, |entries|
  {
    if entries != [] {
      assert RelaysOnly(entries[1..]) && PlainList(entries[1..]);
      if entries[0].callback.id == -1 {
        DispatchOn(fuel, g, w, e, event, entries[1..]);
      } else {
        var w1 := Called(w, e, event, entries[0]);
        assert Depths(w1) == Depths(w) && On(g, w1);
        RunOn(fuel, g, w1, entries[0].callback.script);
        var r := RunSpec(fuel, w1, entries[0].callback.script);
        if r.outcome.Done? {
          DispatchOn(fuel, g, r.world, e, event, entries[1..]);
        }
      }
    }
  }

  lemma RunOn(fuel: nat, g: World, w: World, script: seq<Action>)
    requires Static(g) && On(g, w) && RelayScript(script)
    ensures Returns(g, Depths(w), RunSpec(fuel, w, script), ScriptCompletes(fuel, g, Depths(w), script))
    decreases fuel, 4, |script|
  {
    if script != [] {
      EmitOn(fuel, g, w, script[0].target, script[0].event);
      var r := ActSpec(fuel, w, script[0]);
      if r.outcome.Done? {
        assert RelayScript(script[1..]);
        RunOn(fuel, g, r.world, script[1..]);
      }
    }
  }

  // ------------------------------------------------------------------------------------------
  // Cycles and rankings

  // From every node of the set some edge leads back into the set: the set contains a cycle.
  ghost predicate Recurrent(g: World, nodes: set<(nat, string)>) {
    forall n {:trigger LeadsInto(g, n, nodes)} :: n in nodes ==> LeadsInto(g, n, nodes)
  }

  ghost predicate LeadsInto(g: World, n: (nat, string), nodes: set<(nat, string)>) {
    n.0 < |g.emitters| && exists n' <- nodes :: Edge(g, n.0, n.1, n'.0, n'.1)
  }

  lemma {:induction false} CyclesNeverComplete(fuel: nat, g: World, depths: seq<int>, n: (nat, string),
      nodes: set<(nat, string)>)
    requires Recurrent(g, nodes) && n in nodes && |depths| == |g.emitters|
    ensures !Completes(fuel, g, depths, n.0, n.1)
    decreases fuel
  {
    assert LeadsInto(g, n, nodes);
    if fuel > 0 {
      var n' :| n' in nodes && Edge(g, n.0, n.1, n'.0, n'.1);
      CyclesNeverComplete(fuel - 1, g, depths[n.0 := depths[n.0] + 1], n', nodes);
    }
  }

  /** Emitting into a delegation cycle always ends in the depth guard's exception, with some emitter's
      counter left at 101 and every listener list as it was. */
  lemma CyclesThrow(fuel: nat, w: World, e: nat, event: string, nodes: set<(nat, string)>)
    requires Static(w) && Ready(w) && !IsCompanion(event) && event != ""
    requires Recurrent(w, nodes) && (e, event) in nodes && fuel >= Budget(w)
    ensures var r := EmitSpec(fuel, w, e, event);
      && r.outcome == Threw(TooDeep) && Overflowed(r.world)
      && forall e: nat, event :: List(r.world, e, event) == List(w, e, event)
  {
    EmitOn(fuel, w, w, e, event);
    CyclesNeverComplete(fuel, w, Depths(w), (e, event), nodes);
    EmissionTerminates(fuel, w, e, event);
  }

  // Every edge goes to a node of lower rank.
  ghost predicate Ranked(g: World, rank: (nat, string) -> nat) {
    forall e: nat, event, e': nat, event' :: Edge(g, e, event, e', event') ==> rank(e', event') < rank(e, event)
  }

  predicate RoomFor(depths: seq<int>, levels: nat) {
    forall i :: 0 <= i < |depths| ==> depths[i] + levels <= MAX_EMIT_DEPTH
  }

  lemma {:induction false} RankedGraphsComplete(fuel: nat, g: World, depths: seq<int>, e: nat, event: string,
      rank: (nat, string) -> nat)
    requires Ranked(g, rank) && fuel > rank(e, event) && RoomFor(depths, rank(e, event) + 1)
    ensures Completes(fuel, g, depths, e, event)
    decreases fuel
  {
    if e < |depths| {
      forall e': nat, event' | Edge(g, e, event, e', event')
        ensures Completes(fuel - 1, g, depths[e := depths[e] + 1], e', event')
      {
        RankedGraphsComplete(fuel - 1, g, depths[e := depths[e] + 1], e', event', rank);
      }
    }
  }

  /** Without a cycle, and with room for the longest path, an emission completes and leaves lists and
      depths as they were. */
  lemma RankedEmissionCompletes(fuel: nat, w: World, e: nat, event: string, rank: (nat, string) -> nat)
    requires Static(w) && Ready(w) && !IsCompanion(event) && event != ""
    requires Ranked(w, rank) && RoomFor(Depths(w), rank(e, event) + 1) && fuel > rank(e, event)
    ensures var r := EmitSpec(fuel, w, e, event);
      && r.outcome.Done? && Depths(r.world) == Depths(w)
      && forall e: nat, event :: List(r.world, e, event) == List(w, e, event)
  {
    RankedGraphsComplete(fuel, w, Depths(w), e, event, rank);
    EmitOn(fuel, w, w, e, event);
  }

  // ------------------------------------------------------------------------------------------
  // Building graphs with delegate_to

  lemma {:induction false} AppendTargets(list: seq<Entry>, id: int, e: nat, event: string, e': nat, event': string)
    requires id != -1
    ensures ListTargets(list + [Entry(false, Callback(id, [Emit(e, event)]))], e', event')
       <==> ListTargets(list, e', event') || (e' == e && event' == event)
  {
    var entry := Entry(false, Callback(id, [Emit(e, event)]));
    if list == [] {
      assert list + [entry] == [entry];
      assert entry.callback.script[1..] == [];
      assert ScriptTargets(entry.callback.script, e', event') <==> e' == e && event' == event;
    } else {
      assert (list + [entry])[0] == list[0] && (list + [entry])[1..] == list[1..] + [entry];
      AppendTargets(list[1..], id, e, event, e', event');
    }
  }

  ghost predicate EdgeAdded(w: World, r: World, from: (nat, string), to: (nat, string)) {
    forall n: (nat, string), n': (nat, string) :: Edge(r, n.0, n.1, n'.0, n'.1)
      <==> Edge(w, n.0, n.1, n'.0, n'.1) || (n == from && n' == to)
  }

  /** delegate_to adds exactly one edge, and what it builds is again a graph of relays. */
  lemma DelegationAddsAnEdge(fuel: nat, w: World, e: nat, event: string, dest: nat, destEvent: string, id: int)
    requires Static(w) && Ready(w) && !IsCompanion(event) && !IsCompanion(destEvent) && destEvent != "" && id != -1
    requires e < |w.emitters| && dest < |w.emitters|
    requires DelegateSpec(fuel, w, e, event, dest, destEvent, id).outcome.Done?
    ensures var r := DelegateSpec(fuel, w, e, event, dest, destEvent, id).world;
      && e != dest && event != "" && Static(r) && Ready(r) && |r.emitters| == |w.emitters|
      && EdgeAdded(w, r, (e, event), (dest, destEvent))
  {
    var entry := Entry(false, Callback(id, [Emit(dest, destEvent)]));
    AddKeeps(fuel, w, e, event, entry, Focus(0, "", 0, false), 0);
    AddedToGraph(fuel, w, e, event, entry);
    var r := AddSpec(fuel, w, e, event, entry).world;
    forall n: (nat, string), n': (nat, string)
      ensures Edge(r, n.0, n.1, n'.0, n'.1)
         <==> Edge(w, n.0, n.1, n'.0, n'.1) || (n == (e, event) && n' == (dest, destEvent))
    {
      assert List(r, n.0, n.1) == if n == (e, event) then List(w, e, event) + [entry] else List(w, n.0, n.1);
      AppendTargets(List(w, e, event), id, dest, destEvent, n'.0, n'.1);
    }
  }

  lemma AddedToGraph(fuel: nat, w: World, e: nat, event: string, entry: Entry)
    requires Static(w) && Ready(w) && !IsCompanion(event) && !entry.runOnce && RelayScript(entry.callback.script)
    requires e < |w.emitters| && AddSpec(fuel, w, e, event, entry).outcome.Done?
    ensures var r := AddSpec(fuel, w, e, event, entry).world;
      Static(r) && ListAdded(w, r, e, event, entry)
  {
    LookedUpFacts(w, e, event, Focus(0, "", 0, false));
    SetListFacts(w, e, event, List(w, e, event));
    var w0 := SetList(w, e, event, List(w, e, event));
    EmitOn(fuel, w, w0, e, LISTENER_ADDED);
    var mid := if event == "newListener" then w0 else EmitSpec(fuel, w0, e, LISTENER_ADDED).world;
    AppendedLists(mid, e, event, entry);
    AddedStaysStatic(w, AddSpec(fuel, w, e, event, entry).world, e, event, entry);
  }

  ghost predicate ListAdded(w: World, r: World, e: nat, event: string, entry: Entry) {
    forall e': nat, event' :: List(r, e', event')
      == if e' == e && event' == event then List(w, e, event) + [entry] else List(w, e', event')
  }

  lemma AppendedLists(w: World, e: nat, event: string, entry: Entry)
    requires e < |w.emitters|
    ensures ListAdded(w, Appended(w, e, event, entry), e, event, entry)
  {
    SetListFacts(Log1(w, Added(e, event, entry.runOnce, entry.callback.id)), e, event, List(w, e, event) + [entry]);
  }

  lemma AddedStaysStatic(w: World, r: World, e: nat, event: string, entry: Entry)
    requires Static(w) && !entry.runOnce && RelayScript(entry.callback.script) && ListAdded(w, r, e, event, entry)
    ensures Static(r)
  {
    forall e': nat, event'
      ensures RelaysOnly(List(r, e', event'))
    {
      assert RelaysOnly(List(w, e', event'));
    }
  }

  lemma LeadsBackAndForth(w: World, w1: World, w2: World, n: (nat, string), n': (nat, string))
    requires EdgeAdded(w, w1, n, n') && EdgeAdded(w1, w2, n', n)
    ensures LeadsInto(w2, n, {n, n'}) && LeadsInto(w2, n', {n, n'})
  {
    assert Edge(w1, n.0, n.1, n'.0, n'.1);
    assert Edge(w2, n.0, n.1, n'.0, n'.1) && Edge(w2, n'.0, n'.1, n.0, n.1);
  }

  lemma TwoEdgesThrow(fuel: nat, w: World, w1: World, w2: World, n: (nat, string), n': (nat, string))
    requires EdgeAdded(w, w1, n, n') && EdgeAdded(w1, w2, n', n) && Static(w2) && Ready(w2)
    requires n.0 < |w2.emitters| && n'.0 < |w2.emitters| && n.1 != "" && n'.1 != ""
    requires !IsCompanion(n.1) && !IsCompanion(n'.1) && fuel >= Budget(w2)
    ensures EmitSpec(fuel, w2, n.0, n.1).outcome == Threw(TooDeep)
  {
    LeadsBackAndForth(w, w1, w2, n, n');
    CyclesThrow(fuel, w2, n.0, n.1, {n, n'});
  }

  /** Two emitters may delegate to each other without either call objecting; the first emission that
      reaches the pair then throws. */
  lemma MutualDelegationThrows(fuel: nat, w: World, e: nat, event: string, dest: nat, destEvent: string, id: int,
      id': int)
    requires Static(w) && Ready(w) && !IsCompanion(event) && !IsCompanion(destEvent) && id != -1 && id' != -1
    requires event != "" && destEvent != "" && e < |w.emitters| && dest < |w.emitters|
    requires var r := DelegateSpec(fuel, w, e, event, dest, destEvent, id);
      r.outcome.Done? && DelegateSpec(fuel, r.world, dest, destEvent, e, event, id').outcome.Done?
    ensures var w1 := DelegateSpec(fuel, w, e, event, dest, destEvent, id).world;
      var w2 := DelegateSpec(fuel, w1, dest, destEvent, e, event, id').world;
      fuel >= Budget(w2) ==> EmitSpec(fuel, w2, e, event).outcome == Threw(TooDeep)
  {
    var w1 := DelegateSpec(fuel, w, e, event, dest, destEvent, id).world;
    var w2 := DelegateSpec(fuel, w1, dest, destEvent, e, event, id').world;
    DelegationAddsAnEdge(fuel, w, e, event, dest, destEvent, id);
    DelegationAddsAnEdge(fuel, w1, dest, destEvent, e, event, id');
    if fuel >= Budget(w2) {
      TwoEdgesThrow(fuel, w, w1, w2, (e, event), (dest, destEvent));
    }
  }
}
