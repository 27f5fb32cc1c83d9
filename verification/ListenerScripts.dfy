/** What the calls that listeners make come to. Emitters.dfy runs them with depth counters, a log, listener
    limits, exceptions, announcements and loops under way; here they are read as plain changes of listener
    lists, and every run that returns is proved to make exactly these changes. */
module ListenerScripts {
  import opened Emitters
  import opened EmissionLaws
  import Rollback
  import RunOnce

  // ------------------------------------------------------------------------------------------
  // The plain reading

  // Every listener list of a number of emitters, and nothing else.
  datatype Tables = Tables(count: nat, lists: map<(nat, string), seq<Entry>>)

  function At(t: Tables, e: nat, event: string): seq<Entry> {
    if (e, event) in t.lists then t.lists[(e, event)] else []
  }

  function Put(t: Tables, e: nat, event: string, list: seq<Entry>): Tables {
    t.(lists := t.lists[(e, event) := list])
  }

  // The listeners that are there for more than one call.
  function Lasting(list: seq<Entry>): seq<Entry> {
    if list == [] then []
    else
      var last := list[|list| - 1];
      Lasting(list[..|list| - 1]) + (if last.runOnce then [] else [last])
  }

  // The listeners of all other ids.
  function Others(list: seq<Entry>, id: int): seq<Entry> {
    if list == [] then []
    else
      var last := list[|list| - 1];
      Others(list[..|list| - 1], id) + (if last.callback.id == id then [] else [last])
  }

  function PlayEmit(fuel: nat, t: Tables, e: nat, event: string): (r: Tables)
    ensures r.count == t.count
    decreases fuel, 0, 0
  {
    if e >= t.count || fuel == 0 then t
    else
      var t1 := PlayCalls(fuel - 1, t, At(t, e, event));
      Put(t1, e, event, Lasting(At(t, e, event)))
  }

  function PlayCalls(fuel: nat, t: Tables, entries: seq<Entry>): (r: Tables)
    ensures r.count == t.count
    decreases fuel, 5, |entries|
  {
    if entries == [] then t
    else if entries[0].callback.id == -1 then PlayCalls(fuel, t, entries[1..])
    else PlayCalls(fuel, Play(fuel, t, entries[0].callback.script), entries[1..])
  }

  function Play(fuel: nat, t: Tables, script: seq<Action>): (r: Tables)
    ensures r.count == t.count
    decreases fuel, 4, |script|
  {
    if script == [] then t else Play(fuel, PlayCall(fuel, t, script[0]), script[1..])
  }

  function PlayCall(fuel: nat, t: Tables, action: Action): (r: Tables)
    ensures r.count == t.count
    decreases fuel, 3, 0
  {
    match action
    case Raise => t
    case Emit(e, event) => PlayEmit(fuel, t, e, event)
    case Add(e, event, runOnce, callback) =>
      if e >= t.count then t
      else
        var t1 := if event == "newListener" then t else PlayEmit(fuel, t, e, LISTENER_ADDED);
        Put(t1, e, event, At(t1, e, event) + [Entry(runOnce, callback)])
    case Remove(e, event, id) =>
      if e >= t.count then t
      else
        var kept := Others(At(t, e, event), id);
        Put(PlayAnnounce(fuel, t, e, |At(t, e, event)| - |kept|), e, event, kept)
    case RemoveAll(e, event) => if e >= t.count then t else Put(t, e, event, [])
  }

  function PlayAnnounce(fuel: nat, t: Tables, e: nat, times: int): (r: Tables)
    ensures r.count == t.count
    decreases fuel, 1, times
  {
    if times <= 0 then t else PlayAnnounce(fuel, PlayEmit(fuel, t, e, LISTENER_REMOVED), e, times - 1)
  }

  // ------------------------------------------------------------------------------------------
  // Every run that returns is played

  ghost predicate Shows(w: World, t: Tables) {
    |w.emitters| == t.count && forall e: nat, event :: List(w, e, event) == At(t, e, event)
  }

  lemma {:induction false} LastingIsPersistent(list: seq<Entry>)
    ensures Lasting(list) == Persistent(list)
  {
    if list != [] {
      var n := |list| - 1;
      LastingIsPersistent(list[..n]);
      PersistentAppend(list[..n], list[n]);
      assert list == list[..n] + [list[n]];
    }
  }

  lemma {:induction false} PersistentAppend(list: seq<Entry>, entry: Entry)
    ensures Persistent(list + [entry]) == Persistent(list) + (if entry.runOnce then [] else [entry])
  {
    if list == [] {
      assert list + [entry] == [entry] && [entry][1..] == [];
    } else {
      assert (list + [entry])[0] == list[0] && (list + [entry])[1..] == list[1..] + [entry];
      PersistentAppend(list[1..], entry);
    }
  }

  lemma {:induction false} OthersIsWithoutId(list: seq<Entry>, id: int)
    ensures Others(list, id) == WithoutId(list, id) && |WithId(list, id)| == |list| - |Others(list, id)|
  {
    if list != [] {
      var n := |list| - 1;
      OthersIsWithoutId(list[..n], id);
      WithoutIdAppend(list[..n], list[n], id);
      assert list == list[..n] + [list[n]];
    }
  }

  lemma {:induction false} WithoutIdAppend(list: seq<Entry>, entry: Entry, id: int)
    ensures WithoutId(list + [entry], id) == WithoutId(list, id) + (if entry.callback.id == id then [] else [entry])
    ensures WithId(list + [entry], id) == WithId(list, id) + (if entry.callback.id == id then [entry] else [])
  {
    if list == [] {
      assert list + [entry] == [entry] && [entry][1..] == [];
    } else {
      assert (list + [entry])[0] == list[0] && (list + [entry])[1..] == list[1..] + [entry];
      WithoutIdAppend(list[1..], entry, id);
    }
  }

  lemma StoredShows(w: World, t: Tables, e: nat, event: string, list: seq<Entry>)
    requires Shows(w, t) && e < |w.emitters|
    ensures Shows(SetList(w, e, event, list), Put(t, e, event, list))
  {
    SetListFacts(w, e, event, list);
  }

  // Looking an event up changes no list.
  lemma LookupShows(w: World, t: Tables, e: nat, event: string)
    requires Shows(w, t) && e < |w.emitters|
    ensures Shows(SetList(w, e, event, List(w, e, event)), t)
  {
    SetListFacts(w, e, event, List(w, e, event));
  }

  lemma SameEmittersShow(w: World, w': World, t: Tables)
    requires Shows(w, t) && w'.emitters == w.emitters
    ensures Shows(w', t)
  {
    forall e: nat, event ensures List(w', e, event) == At(t, e, event) {
      assert List(w', e, event) == List(w, e, event);
    }
  }

  lemma DepthsDoNotShow(w: World, t: Tables, e: nat, depth: int)
    requires Shows(w, t) && e < |w.emitters|
    ensures Shows(SetDepth(w, e, depth), t)
  {
    SetDepthLists(w, e, depth);
  }

  const ANYWHERE := Focus(0, "", 0, false)

  lemma EmitPlays(fuel: nat, w: World, e: nat, event: string, t: Tables)
    requires Ready(w) && !IsCompanion(event) && Shows(w, t) && EmitSpec(fuel, w, e, event).outcome.Done?
    ensures Shows(EmitSpec(fuel, w, e, event).world, PlayEmit(fuel, t, e, event))
    decreases fuel, 0, 0
  {
    if e < |w.emitters| {
      var w1 := SetDepth(w, e, w.emitters[e].depth + 1);
      DepthsDoNotShow(w, t, e, w.emitters[e].depth + 1);
      RaisedDepthFacts(w, e, ANYWHERE);
      ImplKeeps(fuel - 1, w1, e, event, ANYWHERE, 0);
      assert EmitSpec(fuel, w, e, event) == EmitImplSpec(fuel - 1, w1, e, event);
      ImplPlays(fuel - 1, w1, e, event, t);
    }
  }

  lemma ImplPlays(fuel: nat, w: World, e: nat, event: string, t: Tables)
    requires Ready(w) && !IsCompanion(event) && Shows(w, t) && e < |w.emitters| && -127 <= w.emitters[e].depth
    requires EmitImplSpec(fuel, w, e, event).outcome.Done?
    ensures var list := List(w, e, event);
      Shows(EmitImplSpec(fuel, w, e, event).world, Put(PlayCalls(fuel, t, list), e, event, Lasting(list)))
    decreases fuel, 7, 0
  {
    var list := List(w, e, event);
    LoopKeeps(fuel, w, e, event, ANYWHERE, 0);
    LoopPlays(fuel, w, e, event, t);
    var r := LoopSpec(fuel, w, e, event).world;
    var t1 := PlayCalls(fuel, t, list);
    var w0 := Log1(r, Finished(e, event));
    SameEmittersShow(r, w0, t1);
    LastingIsPersistent(list);
    StoredShows(w0, t1, e, event, Persistent(list));
    var w1 := SetList(w0, e, event, Persistent(list));
    DepthsDoNotShow(w1, Put(t1, e, event, Lasting(list)), e, Down(w1.emitters[e].depth));
  }

  lemma LoopPlays(fuel: nat, w: World, e: nat, event: string, t: Tables)
    requires Ready(w) && !IsCompanion(event) && Shows(w, t) && e < |w.emitters|
    requires LoopSpec(fuel, w, e, event).outcome.Done?
    ensures Shows(LoopSpec(fuel, w, e, event).world, PlayCalls(fuel, t, List(w, e, event)))
    decreases fuel, 6, 0
  {
    var list := List(w, e, event);
    var w0 := SetList(w, e, event, list);
    var inner := Enter(w0, e, event);
    ListsArePlain(w, e, event);
    LookedUpFacts(w, e, event, ANYWHERE);
    assert Ready(inner);
    LookupShows(w, t, e, event);
    SameEmittersShow(w0, inner, t);
    DispatchPlays(fuel, inner, e, event, list, t);
    var r := DispatchSpec(fuel, inner, e, event, list).world;
    SameEmittersShow(r, r.(active := w.active), PlayCalls(fuel, t, list));
  }

  lemma DispatchPlays(fuel: nat, w: World, e: nat, event: string, entries: seq<Entry>, t: Tables)
    requires Ready(w) && PlainList(entries) && Shows(w, t) && DispatchSpec(fuel, w, e, event, entries).outcome.Done?
    ensures Shows(DispatchSpec(fuel, w, e, event, entries).world, PlayCalls(fuel, t, entries))
    decreases fuel, 5, |entries|
  {
    if entries != [] {
      assert forall i :: 0 <= i < |entries[1..]| ==> entries[1..][i] == entries[i + 1];
      if entries[0].callback.id == -1 {
        DispatchPlays(fuel, w, e, event, entries[1..], t);
      } else {
        var script := entries[0].callback.script;
        var w1 := Called(w, e, event, entries[0]);
        SameEmittersShow(w, w1, t);
        assert Ready(w1);
        RunKeeps(fuel, w1, script, ANYWHERE, 0);
        RunPlays(fuel, w1, script, t);
        DispatchPlays(fuel, RunSpec(fuel, w1, script).world, e, event, entries[1..], Play(fuel, t, script));
      }
    }
  }

  /** A run that returns has changed the listener lists exactly as its calls read, those that listeners
      make in turn included, in order. */
  lemma RunPlays(fuel: nat, w: World, script: seq<Action>, t: Tables)
    requires Ready(w) && PlainScript(script) && Shows(w, t) && RunSpec(fuel, w, script).outcome.Done?
    ensures Shows(RunSpec(fuel, w, script).world, Play(fuel, t, script))
    decreases fuel, 4, |script|
  {
    if script != [] {
      var r := ActSpec(fuel, w, script[0]).world;
      ActKeeps(fuel, w, script[0], ANYWHERE, 0);
      CallPlays(fuel, w, script[0], t);
      assert forall i :: 0 <= i < |script[1..]| ==> script[1..][i] == script[i + 1];
      RunPlays(fuel, r, script[1..], PlayCall(fuel, t, script[0]));
    }
  }

  lemma CallPlays(fuel: nat, w: World, action: Action, t: Tables)
    requires Ready(w) && PlainAction(action) && Shows(w, t) && ActSpec(fuel, w, action).outcome.Done?
    ensures Shows(ActSpec(fuel, w, action).world, PlayCall(fuel, t, action))
    decreases fuel, 3, 0
  {
    match action {
      case Raise =>
      case Emit(e, event) => EmitPlays(fuel, w, e, event, t);
      case Add(e, event, runOnce, callback) =>
        if e < |w.emitters| {
          AddPlays(fuel, w, e, event, Entry(runOnce, callback), t);
        }
      case Remove(e, event, id) =>
        if e < |w.emitters| {
          RemovePlays(fuel, w, e, event, id, t);
        }
      case RemoveAll(e, event) =>
        if e < |w.emitters| {
          ClearPlays(w, e, event, t);
        }
    }
  }

  lemma ClearPlays(w: World, e: nat, event: string, t: Tables)
    requires Shows(w, t) && e < |w.emitters|
    ensures var cleared := SetList(Log1(w, Dropped(e, event, List(w, e, event))), e, event, []);
      Shows(cleared, PlayCall(0, t, RemoveAll(e, event)))
  {
    var w1 := Log1(w, Dropped(e, event, List(w, e, event)));
    SameEmittersShow(w, w1, t);
    StoredShows(w1, t, e, event, []);
  }

  lemma AddPlays(fuel: nat, w: World, e: nat, event: string, entry: Entry, t: Tables)
    requires Ready(w) && !IsCompanion(event) && Shows(w, t) && e < |w.emitters|
    requires AddSpec(fuel, w, e, event, entry).outcome.Done?
    ensures var add := Add(e, event, entry.runOnce, entry.callback);
      Shows(AddSpec(fuel, w, e, event, entry).world, PlayCall(fuel, t, add))
    decreases fuel, 1, 0
  {
    var w0 := SetList(w, e, event, List(w, e, event));
    LookupShows(w, t, e, event);
    LookedUpFacts(w, e, event, ANYWHERE);
    var t1 := t;
    var mid := w0;
    if event != "newListener" {
      EmitPlays(fuel, w0, e, LISTENER_ADDED, t);
      t1, mid := PlayEmit(fuel, t, e, LISTENER_ADDED), EmitSpec(fuel, w0, e, LISTENER_ADDED).world;
    }
    var w1 := Log1(mid, Added(e, event, entry.runOnce, entry.callback.id));
    SameEmittersShow(mid, w1, t1);
    StoredShows(w1, t1, e, event, At(t1, e, event) + [entry]);
  }

  lemma RemovePlays(fuel: nat, w: World, e: nat, event: string, id: int, t: Tables)
    requires Ready(w) && !IsCompanion(event) && Shows(w, t) && e < |w.emitters|
    requires RemoveSpec(fuel, w, e, event, id).outcome.Done?
    ensures Shows(RemoveSpec(fuel, w, e, event, id).world, PlayCall(fuel, t, Remove(e, event, id)))
    decreases fuel, 2, 0
  {
    var list := List(w, e, event);
    var times := |WithId(list, id)|;
    OthersIsWithoutId(list, id);
    AnnounceLoopPlays(fuel, w, e, event, times, t);
    var r := AnnounceLoopSpec(fuel, w, e, event, times).world;
    DiscardShows(r, PlayAnnounce(fuel, t, e, times), e, event, id);
  }

  lemma DiscardShows(w: World, t: Tables, e: nat, event: string, id: int)
    requires Shows(w, t) && e < |w.emitters|
    ensures Shows(Discarded(w, e, event, id), Put(t, e, event, Others(At(t, e, event), id)))
  {
    var list := List(w, e, event);
    OthersIsWithoutId(list, id);
    var logged := Log1(w, Dropped(e, event, WithId(list, id)));
    SameEmittersShow(w, logged, t);
    StoredShows(logged, t, e, event, WithoutId(list, id));
  }

  lemma AnnounceLoopPlays(fuel: nat, w: World, e: nat, event: string, times: nat, t: Tables)
    requires Ready(w) && !IsCompanion(event) && Shows(w, t) && e < |w.emitters|
    requires AnnounceLoopSpec(fuel, w, e, event, times).outcome.Done?
    ensures var r := AnnounceLoopSpec(fuel, w, e, event, times).world;
      Shows(r, PlayAnnounce(fuel, t, e, times)) && List(r, e, event) == List(w, e, event)
    decreases fuel, 1, times + 1
  {
    var w0 := SetList(w, e, event, List(w, e, event));
    var inner := Enter(w0, e, event);
    LookupShows(w, t, e, event);
    LookedUpFacts(w, e, event, ANYWHERE);
    SameEmittersShow(w0, inner, t);
    assert Ready(inner);
    AnnouncePlays(fuel, inner, e, times, t);
    AnnounceLoopKeeps(fuel, w, e, event, times, ANYWHERE, 0);
    var r := AnnounceLoopSpec(fuel, w, e, event, times).world;
    SameEmittersShow(AnnounceSpec(fuel, inner, e, times).world, r, PlayAnnounce(fuel, t, e, times));
  }

  lemma AnnouncePlays(fuel: nat, w: World, e: nat, times: nat, t: Tables)
    requires Ready(w) && Shows(w, t) && AnnounceSpec(fuel, w, e, times).outcome.Done?
    ensures Shows(AnnounceSpec(fuel, w, e, times).world, PlayAnnounce(fuel, t, e, times))
    decreases fuel, 1, times
  {
    if times > 0 {
      var r := EmitSpec(fuel, w, e, LISTENER_REMOVED);
      RemovalIsPlain(fuel, w, e);
      EmitPlays(fuel, w, e, LISTENER_REMOVED, t);
      AnnouncePlays(fuel, r.world, e, times - 1, PlayEmit(fuel, t, e, LISTENER_REMOVED));
    }
  }

  lemma RemovalIsPlain(fuel: nat, w: World, e: nat)
    requires Ready(w)
    ensures !IsCompanion(LISTENER_REMOVED)
    ensures var r := EmitSpec(fuel, w, e, LISTENER_REMOVED); r.outcome.Done? ==> Ready(r.world)
  {
    EmitKeeps(fuel, w, e, LISTENER_REMOVED, ANYWHERE, 0);
  }

  // ------------------------------------------------------------------------------------------
  // Each call of a run that returns, where it stands

  lemma {:induction false} RunsCompose(fuel: nat, w: World, first: seq<Action>, rest: seq<Action>)
    ensures var r := RunSpec(fuel, w, first);
      RunSpec(fuel, w, first + rest) == if r.outcome.Done? then RunSpec(fuel, r.world, rest) else r
    decreases |first|
  {
    if first == [] {
      assert first + rest == rest;
    } else {
      assert (first + rest)[0] == first[0] && (first + rest)[1..] == first[1..] + rest;
      RunsCompose(fuel, ActSpec(fuel, w, first[0]).world, first[1..], rest);
    }
  }

  // A run stops where the first call that does not return stops it, and nothing after that call is done.
  lemma RunsStopAtTheFirst(fuel: nat, w: World, script: seq<Action>, k: nat)
    requires k <= |script| && !RunSpec(fuel, w, script[..k]).outcome.Done?
    ensures RunSpec(fuel, w, script) == RunSpec(fuel, w, script[..k])
  {
    RunsCompose(fuel, w, script[..k], script[k..]);
    assert script[..k] + script[k..] == script;
  }

  lemma LastCall(fuel: nat, w: World, script: seq<Action>, k: nat)
    requires k < |script|
    ensures var before := RunSpec(fuel, w, script[..k]);
      RunSpec(fuel, w, script[..k + 1]) ==
        if before.outcome.Done? then ActSpec(fuel, before.world, script[k]) else before
  {
    assert script[..k + 1] == script[..k] + [script[k]] && [script[k]][1..] == [];
    RunsCompose(fuel, w, script[..k], [script[k]]);
    var m := RunSpec(fuel, w, script[..k]).world;
    assert RunSpec(fuel, ActSpec(fuel, m, script[k]).world, []).outcome.Done?;
  }

  /** Right after a call that returned: an added listener is the last of its list and in the log, a removed
      id and a cleared list are gone, an emission is complete; and no run that raises returns. */
  lemma CallsTakeEffect(fuel: nat, w: World, script: seq<Action>, k: nat)
    requires k < |script| && RunSpec(fuel, w, script).outcome.Done?
    ensures var before, after := RunSpec(fuel, w, script[..k]), RunSpec(fuel, w, script[..k + 1]);
      && before.outcome.Done? && after.outcome.Done?
      && RunSpec(fuel, after.world, script[k + 1..]) == RunSpec(fuel, w, script)
      && match script[k]
         case Raise => false
         case Add(e, event, runOnce, callback) =>
           var list := List(after.world, e, event);
           e < |w.emitters| ==>
             && event != "" && list != [] && list[|list| - 1] == Entry(runOnce, callback)
             && RunOnce.Adds(after.world.log, Focus(e, event, callback.id, runOnce))
                  > RunOnce.Adds(before.world.log, Focus(e, event, callback.id, runOnce))
         case Remove(e, event, id) =>
           forall i :: 0 <= i < |List(after.world, e, event)| ==> List(after.world, e, event)[i].callback.id != id
         case RemoveAll(e, event) => List(after.world, e, event) == []
         case Emit(e, event) =>
           e < |w.emitters| ==>
             event != "" && RunOnce.Ends(after.world.log, Focus(e, event, 0, false))
                              > RunOnce.Ends(before.world.log, Focus(e, event, 0, false))
  {
    var before := RunSpec(fuel, w, script[..k]);
    var after := RunSpec(fuel, w, script[..k + 1]);
    assert script[..k + 1] + script[k + 1..] == script;
    RunsCompose(fuel, w, script[..k + 1], script[k + 1..]);
    LastCall(fuel, w, script, k);
    match script[k]
    case Raise =>
    case Add(e, event, runOnce, callback) =>
      if e < |w.emitters| {
        AddTakesEffect(fuel, before.world, e, event, Entry(runOnce, callback));
      }
    case Remove(e, event, id) => RemoveTakesEffect(fuel, before.world, e, event, id);
    case RemoveAll(e, event) => ClearTakesEffect(fuel, before.world, e, event);
    case Emit(e, event) =>
      if e < |w.emitters| {
        EmitTakesEffect(fuel, before.world, e, event);
      }
  }

  lemma AddTakesEffect(fuel: nat, w: World, e: nat, event: string, entry: Entry)
    requires AddSpec(fuel, w, e, event, entry).outcome.Done? && e < |w.emitters|
    ensures var r := AddSpec(fuel, w, e, event, entry).world;
      var f := Focus(e, event, entry.callback.id, entry.runOnce);
      && event != "" && List(r, e, event) != [] && List(r, e, event)[|List(r, e, event)| - 1] == entry
      && RunOnce.Adds(r.log, f) > RunOnce.Adds(w.log, f)
  {
    var w0 := SetList(w, e, event, List(w, e, event));
    var f := Focus(e, event, entry.callback.id, entry.runOnce);
    var mid := w0;
    if event != "newListener" {
      RunOnce.EmitLedger(fuel, w0, e, LISTENER_ADDED, f);
      mid := EmitSpec(fuel, w0, e, LISTENER_ADDED).world;
    }
    SetListFacts(Log1(mid, Added(e, event, entry.runOnce, entry.callback.id)), e, event, List(mid, e, event) + [entry]);
  }

  lemma {:induction false} NoneWithId(list: seq<Entry>, id: int)
    ensures forall i :: 0 <= i < |WithoutId(list, id)| ==> WithoutId(list, id)[i].callback.id != id
  {
    if list != [] {
      NoneWithId(list[1..], id);
    }
  }

  lemma RemoveTakesEffect(fuel: nat, w: World, e: nat, event: string, id: int)
    requires RemoveSpec(fuel, w, e, event, id).outcome.Done?
    ensures var list := List(RemoveSpec(fuel, w, e, event, id).world, e, event);
      forall i :: 0 <= i < |list| ==> list[i].callback.id != id
  {
    if e < |w.emitters| {
      var r := AnnounceLoopSpec(fuel, w, e, event, |WithId(List(w, e, event), id)|).world;
      var list := List(r, e, event);
      NoneWithId(list, id);
      SetListFacts(Log1(r, Dropped(e, event, WithId(list, id))), e, event, WithoutId(list, id));
    }
  }

  lemma ClearTakesEffect(fuel: nat, w: World, e: nat, event: string)
    requires ActSpec(fuel, w, RemoveAll(e, event)).outcome.Done?
    ensures List(ActSpec(fuel, w, RemoveAll(e, event)).world, e, event) == []
  {
    if e < |w.emitters| {
      SetListFacts(Log1(w, Dropped(e, event, List(w, e, event))), e, event, []);
    }
  }

  lemma EmitTakesEffect(fuel: nat, w: World, e: nat, event: string)
    requires EmitSpec(fuel, w, e, event).outcome.Done? && e < |w.emitters|
    ensures var r := EmitSpec(fuel, w, e, event).world;
      var f := Focus(e, event, 0, false);
      event != "" && RunOnce.Ends(r.log, f) > RunOnce.Ends(w.log, f)
  {
    var f := Focus(e, event, 0, false);
    var w1 := SetDepth(w, e, Up(w.emitters[e].depth));
    var list := List(w1, e, event);
    var inner := Enter(SetList(w1, e, event, list), e, event);
    var r := EmitImplSpec(fuel - 1, w1, e, event);
    RunOnce.DispatchLedger(fuel - 1, inner, e, event, list, f);
    RunOnce.LoopEndLedger(LoopSpec(fuel - 1, w1, e, event).world, e, event, f);
    if r.outcome.Done? && event + SELF_DESTRUCT in r.world.emitters[e].listeners {
      RunOnce.ImplLedger(fuel - 1, r.world, e, event + SELF_DESTRUCT, f);
    }
  }

  // ------------------------------------------------------------------------------------------
  // Scripts that only add and remove, where those told of it only observe

  // One list under the calls of a script.
  function Fold(list: seq<Entry>, script: seq<Action>, e: nat, event: string): seq<Entry> {
    if script == [] then list
    else
      var n := |script| - 1;
      FoldCall(Fold(list, script[..n], e, event), script[n], e, event)
  }

  function FoldCall(list: seq<Entry>, action: Action, e: nat, event: string): seq<Entry> {
    match action
    case Add(e', event', runOnce, callback) =>
      if (e', event') == (e, event) then list + [Entry(runOnce, callback)] else list
    case Remove(e', event', id) => if (e', event') == (e, event) then Others(list, id) else list
    case RemoveAll(e', event') => if (e', event') == (e, event) then [] else list
    case _ => list
  }

  predicate IsAnnouncement(event: string) {
    event == LISTENER_ADDED || event == LISTENER_REMOVED
  }

  predicate Simple(count: nat, action: Action) {
    match action
    case Add(e, event, _, _) => e < count && event != "" && !IsAnnouncement(event) && !IsCompanion(event)
    case Remove(e, event, _) => e < count && !IsAnnouncement(event) && !IsCompanion(event)
    case RemoveAll(e, event) => e < count && !IsAnnouncement(event) && !IsCompanion(event)
    case _ => false
  }

  predicate AllSimple(count: nat, script: seq<Action>) {
    forall i :: 0 <= i < |script| ==> Simple(count, script[i])
  }

  // No loop is under way, and announcements get through to listeners that do nothing.
  ghost predicate Serene(w: World) {
    && Rollback.NoCompanionKeys(w) && w.active == multiset{}
    && forall e :: 0 <= e < |w.emitters| ==>
         && -128 <= w.emitters[e].depth < MAX_EMIT_DEPTH
         && Rollback.Quiet(List(w, e, LISTENER_ADDED)) && Rollback.Quiet(List(w, e, LISTENER_REMOVED))
  }

  // Every addition finds room, the additions and removals before it counted.
  predicate HasRoom(w: World, script: seq<Action>) {
    script == [] || (
      var n := |script| - 1;
      HasRoom(w, script[..n]) && (script[n].Add? ==> RoomFor(w, script[..n], script[n].target, script[n].event)))
  }

  predicate RoomFor(w: World, script: seq<Action>, e: nat, event: string) {
    e < |w.emitters| && (w.emitters[e].maxListeners == 0
      || |Fold(List(w, e, event), script, e, event)| < w.emitters[e].maxListeners)
  }

  // What such calls leave: the same emitters with folded lists.
  ghost predicate Folded(w: World, r: World, script: seq<Action>) {
    && Serene(r) && |r.emitters| == |w.emitters|
    && (forall e :: 0 <= e < |w.emitters| ==> r.emitters[e].maxListeners == w.emitters[e].maxListeners)
    && forall e: nat, event :: List(r, e, event) == Fold(List(w, e, event), script, e, event)
  }

  ghost predicate CallFolded(w: World, r: World, action: Action) {
    && Serene(r) && |r.emitters| == |w.emitters|
    && (forall e :: 0 <= e < |w.emitters| ==> r.emitters[e].maxListeners == w.emitters[e].maxListeners)
    && forall e: nat, event :: List(r, e, event) == FoldCall(List(w, e, event), action, e, event)
  }

  lemma StoredIsSerene(w: World, w': World, e: nat, event: string, list: seq<Entry>)
    requires Serene(w) && Rollback.SameTables(w, w') && w'.active == w.active && e < |w.emitters|
    requires !IsAnnouncement(event) && !IsCompanion(event)
    ensures var r := SetList(w', e, event, list);
      && Serene(r) && |r.emitters| == |w.emitters|
      && (forall i :: 0 <= i < |w.emitters| ==> r.emitters[i].maxListeners == w.emitters[i].maxListeners)
      && forall e': nat, event' ::
           List(r, e', event') == if e' == e && event' == event then list else List(w, e', event')
  {
    SetListFacts(w', e, event, list);
    var r := SetList(w', e, event, list);
    forall i | 0 <= i < |r.emitters|
      ensures -128 <= r.emitters[i].depth < MAX_EMIT_DEPTH
      ensures Rollback.Quiet(List(r, i, LISTENER_ADDED)) && Rollback.Quiet(List(r, i, LISTENER_REMOVED))
    {
      assert List(r, i, LISTENER_ADDED) == List(w, i, LISTENER_ADDED);
      assert List(r, i, LISTENER_REMOVED) == List(w, i, LISTENER_REMOVED);
    }
  }

  // add_listener up to the append, which changes no list.
  function BeforeAppend(fuel: nat, w: World, e: nat, event: string): Result
    requires e < |w.emitters|
  {
    var w0 := SetList(w, e, event, List(w, e, event));
    if event == "newListener" then Result(Done, w0) else EmitSpec(fuel, w0, e, LISTENER_ADDED)
  }

  lemma SimpleBeforeAppend(fuel: nat, w: World, e: nat, event: string)
    requires Serene(w) && e < |w.emitters| && !IsCompanion(event) && !IsAnnouncement(event) && fuel > 0
    ensures var r := BeforeAppend(fuel, w, e, event);
      r.outcome.Done? && Rollback.SameTables(w, r.world) && r.world.active == w.active
  {
    var w0 := SetList(w, e, event, List(w, e, event));
    Rollback.LookupKeepsTables(w, e, event);
    if event != "newListener" {
      assert List(w0, e, LISTENER_ADDED) == List(w, e, LISTENER_ADDED);
      Rollback.QuietEmit(fuel, w0, e, LISTENER_ADDED);
    }
  }

  lemma SimpleAdd(fuel: nat, w: World, e: nat, event: string, entry: Entry)
    requires Serene(w) && Simple(|w.emitters|, Add(e, event, entry.runOnce, entry.callback)) && fuel > 0
    ensures var r := AddSpec(fuel, w, e, event, entry);
      if RoomFor(w, [], e, event)
      then r.outcome.Done? && CallFolded(w, r.world, Add(e, event, entry.runOnce, entry.callback))
      else r.outcome == Threw(TooMany)
  {
    if RoomFor(w, [], e, event) {
      var mid := BeforeAppend(fuel, w, e, event).world;
      SimpleBeforeAppend(fuel, w, e, event);
      assert AddSpec(fuel, w, e, event, entry) == Result(Done, Appended(mid, e, event, entry));
      var logged := Log1(mid, Added(e, event, entry.runOnce, entry.callback.id));
      assert SameLists(mid, logged) && List(mid, e, event) == List(w, e, event);
      StoredIsSerene(w, logged, e, event, List(mid, e, event) + [entry]);
    }
  }

  lemma SimpleAnnouncements(fuel: nat, w: World, e: nat, event: string, times: nat)
    requires Serene(w) && e < |w.emitters| && !IsCompanion(event) && fuel > 0
    ensures var r := AnnounceLoopSpec(fuel, w, e, event, times);
      r.outcome.Done? && Rollback.SameTables(w, r.world) && r.world.active == w.active
  {
    var w0 := SetList(w, e, event, List(w, e, event));
    var inner := Enter(w0, e, event);
    Rollback.LookupKeepsTables(w, e, event);
    assert SameLists(w0, inner);
    assert List(inner, e, LISTENER_REMOVED) == List(w, e, LISTENER_REMOVED);
    Rollback.QuietAnnounce(fuel, inner, e, times);
    assert SameLists(AnnounceSpec(fuel, inner, e, times).world, AnnounceLoopSpec(fuel, w, e, event, times).world);
  }

  lemma SimpleRemove(fuel: nat, w: World, e: nat, event: string, id: int)
    requires Serene(w) && Simple(|w.emitters|, Remove(e, event, id)) && fuel > 0
    ensures var r := RemoveSpec(fuel, w, e, event, id);
      r.outcome.Done? && CallFolded(w, r.world, Remove(e, event, id))
  {
    var list := List(w, e, event);
    var times := |WithId(list, id)|;
    SimpleAnnouncements(fuel, w, e, event, times);
    var r := AnnounceLoopSpec(fuel, w, e, event, times).world;
    var logged := Log1(r, Dropped(e, event, WithId(list, id)));
    assert SameLists(r, logged) && List(r, e, event) == list;
    OthersIsWithoutId(list, id);
    StoredIsSerene(w, logged, e, event, WithoutId(list, id));
  }

  lemma SimpleClear(fuel: nat, w: World, e: nat, event: string)
    requires Serene(w) && Simple(|w.emitters|, RemoveAll(e, event))
    ensures var r := ActSpec(fuel, w, RemoveAll(e, event));
      r.outcome.Done? && CallFolded(w, r.world, RemoveAll(e, event))
  {
    var logged := Log1(w, Dropped(e, event, List(w, e, event)));
    assert SameLists(w, logged);
    StoredIsSerene(w, logged, e, event, []);
  }

  lemma SimpleCall(fuel: nat, w: World, action: Action)
    requires Serene(w) && Simple(|w.emitters|, action) && fuel > 0
    ensures var r := ActSpec(fuel, w, action);
      if action.Add? ==> RoomFor(w, [], action.target, action.event)
      then r.outcome.Done? && CallFolded(w, r.world, action)
      else r.outcome == Threw(TooMany)
  {
    match action
    case Add(e, event, runOnce, callback) => SimpleAdd(fuel, w, e, event, Entry(runOnce, callback));
    case Remove(e, event, id) => SimpleRemove(fuel, w, e, event, id);
    case RemoveAll(e, event) => SimpleClear(fuel, w, e, event);
  }

  /** At rest, with listeners of the announcements that only observe, a script of additions and removals
      returns exactly if every addition finds room, and then every list is the fold of the script over it:
      additions append, a removal takes out an id, a clearing empties. Otherwise the listener limit throws. */
  lemma {:induction false} SimpleScriptsFold(fuel: nat, w: World, script: seq<Action>)
    requires Serene(w) && AllSimple(|w.emitters|, script) && fuel > 0
    ensures var r := RunSpec(fuel, w, script);
      if HasRoom(w, script) then r.outcome.Done? && Folded(w, r.world, script) else r.outcome == Threw(TooMany)
    decreases |script|
  {
    if script != [] {
      var n := |script| - 1;
      var before := RunSpec(fuel, w, script[..n]);
      SimpleScriptsFold(fuel, w, script[..n]);
      LastCall(fuel, w, script, n);
      assert script[..n + 1] == script;
      if HasRoom(w, script[..n]) {
        assert Simple(|w.emitters|, script[n]);
        SimpleCall(fuel, before.world, script[n]);
        LastFolds(w, before.world, script, ActSpec(fuel, before.world, script[n]).world);
      }
    }
  }

  lemma LastFolds(w: World, before: World, script: seq<Action>, r: World)
    requires script != [] && Folded(w, before, script[..|script| - 1])
    ensures CallFolded(before, r, script[|script| - 1]) ==> Folded(w, r, script)
    ensures var action, first := script[|script| - 1], script[..|script| - 1];
      action.Add? ==>
        RoomFor(before, [], action.target, action.event) == RoomFor(w, first, action.target, action.event)
  {
    var action := script[|script| - 1];
    if CallFolded(before, r, action) {
      forall e: nat, event ensures List(r, e, event) == Fold(List(w, e, event), script, e, event) {
        assert List(before, e, event) == Fold(List(w, e, event), script[..|script| - 1], e, event);
      }
    }
  }

  // ------------------------------------------------------------------------------------------
  // rollback_event_on_exception when the action returns

  /** A rollback that returns has only added the listener and performed the action: nothing is undone. */
  lemma ReturningActionsKeepTheListener(fuel: nat, w: World, e: nat, event: string, entry: Entry,
      action: seq<Action>, t: Tables)
    requires Ready(w) && Shows(w, t) && e < |w.emitters| && PlainScript(action)
    requires !IsCompanion(event) && PlainScript(entry.callback.script)
    requires RollbackSpec(fuel, w, e, event, entry, action).outcome.Done?
    ensures var r := RollbackSpec(fuel, w, e, event, entry, action).world;
      Shows(r, Play(fuel, t, [Add(e, event, entry.runOnce, entry.callback)] + action))
  {
    var add := Add(e, event, entry.runOnce, entry.callback);
    var script := [add] + action;
    assert script[1..] == action;
    RunPlays(fuel, w, script, t);
  }

  /** If the action returns and neither it nor any listener touches the temporary listener, which is not
      run-once, the listener is registered once more than before. */
  lemma KeptListenersAreRegistered(fuel: nat, w: World, e: nat, event: string, entry: Entry, action: seq<Action>)
    requires Ready(w) && e < |w.emitters| && PlainScript(action) && !entry.runOnce && entry.callback.id != -1
    requires !IsCompanion(event) && PlainScript(entry.callback.script)
    requires RollbackSpec(fuel, w, e, event, entry, action).outcome.Done?
    requires var f := Focus(e, event, entry.callback.id, false);
      && RunOnce.ObeysWorld(w, RunOnce.NoChanges(f)) && RunOnce.Obeys(action, RunOnce.NoChanges(f))
      && RunOnce.Obeys(entry.callback.script, RunOnce.NoChanges(f))
    ensures var f := Focus(e, event, entry.callback.id, false);
      Registered(RollbackSpec(fuel, w, e, event, entry, action).world, f) == Registered(w, f) + 1
  {
    var f := Focus(e, event, entry.callback.id, false);
    var added := AddSpec(fuel, w, e, event, entry).world;
    AddKeeps(fuel, w, e, event, entry, f, 0);
    AddedOnce(fuel, w, e, event, entry);
    RunKeeps(fuel, added, action, f, 0);
    RunOnce.RunObeys(fuel, added, action, RunOnce.NoChanges(f));
  }

  lemma AddedOnce(fuel: nat, w: World, e: nat, event: string, entry: Entry)
    requires e < |w.emitters| && AddSpec(fuel, w, e, event, entry).outcome.Done?
    requires var rule := RunOnce.NoChanges(Focus(e, event, entry.callback.id, entry.runOnce));
      RunOnce.ObeysWorld(w, rule) && RunOnce.Obeys(entry.callback.script, rule)
    ensures var f := Focus(e, event, entry.callback.id, entry.runOnce);
      var r := AddSpec(fuel, w, e, event, entry).world;
      Net(r.log, f) == Net(w.log, f) + 1 && RunOnce.ObeysWorld(r, RunOnce.NoChanges(f))
  {
    var rule := RunOnce.NoChanges(Focus(e, event, entry.callback.id, entry.runOnce));
    var w0 := SetList(w, e, event, List(w, e, event));
    RunOnce.StoredObeys(w, e, event, List(w, e, event), rule);
    var mid := w0;
    if event != "newListener" {
      RunOnce.EmitObeys(fuel, w0, e, LISTENER_ADDED, rule);
      mid := EmitSpec(fuel, w0, e, LISTENER_ADDED).world;
    }
    var logged := Log1(mid, Added(e, event, entry.runOnce, entry.callback.id));
    RunOnce.SameEmittersObey(mid, logged, rule);
    assert RunOnce.ObeysList(List(logged, e, event), rule);
    RunOnce.StoredObeys(logged, e, event, List(logged, e, event) + [entry], rule);
  }

  // ------------------------------------------------------------------------------------------
  // Calls that come to nothing

  /** On an emitter that has expired every call returns and changes nothing; delegating to one registers
      nothing. */
  lemma ExpiredEmittersHearNothing(fuel: nat, w: World, action: Action, dest: nat, destEvent: string, id: int)
    requires !action.Raise? && action.target >= |w.emitters|
    ensures ActSpec(fuel, w, action) == Result(Done, w)
    ensures dest >= |w.emitters| ==>
      forall e, event: string :: DelegateSpec(fuel, w, e, event, dest, destEvent, id) == Result(Done, w)
  {
  }

  /** Events without a name are refused, an emitter cannot delegate to itself, and removing an id that is not
      there returns and changes no list, even of a loop under way. */
  lemma RefusedCallsChangeNothing(fuel: nat, w: World, e: nat, event: string, entry: Entry, id: int)
    requires e < |w.emitters|
    ensures EmitSpec(fuel, w, e, "") == Result(Threw(EmptyEvent), w)
    ensures AddSpec(fuel, w, e, "", entry) == Result(Threw(EmptyEvent), w)
    ensures DelegateSpec(fuel, w, e, event, e, event, id) == Result(Threw(SelfDelegation), w)
    ensures WithId(List(w, e, event), id) == [] ==>
      RemoveSpec(fuel, w, e, event, id).outcome.Done? && SameLists(w, RemoveSpec(fuel, w, e, event, id).world)
    ensures ActSpec(fuel, w, Raise) == Result(Threw(Raised), w)
  {
    if WithId(List(w, e, event), id) == [] {
      AbsentIds(fuel, w, e, event, id);
    }
  }

  lemma AbsentIds(fuel: nat, w: World, e: nat, event: string, id: int)
    requires e < |w.emitters| && WithId(List(w, e, event), id) == []
    ensures RemoveSpec(fuel, w, e, event, id).outcome.Done? && SameLists(w, RemoveSpec(fuel, w, e, event, id).world)
  {
    var list := List(w, e, event);
    var w0 := SetList(w, e, event, list);
    SetListFacts(w, e, event, list);
    NothingRemoved(list, id);
    var inner := Enter(w0, e, event);
    assert AnnounceSpec(fuel, inner, e, 0) == Result(Done, inner);
    var r := AnnounceLoopSpec(fuel, w, e, event, 0).world;
    assert AnnounceLoopSpec(fuel, w, e, event, 0).outcome.Done?;
    assert r.emitters == w0.emitters && SameLists(w0, r);
    SetListFacts(Log1(r, Dropped(e, event, [])), e, event, list);
    assert SameLists(r, Log1(r, Dropped(e, event, [])));
  }
}
