/** How often a run-once listener is called in a run, whether the run returns, throws, or is undefined.
    Nothing here asks for balanced depths or for emitters without companions. */
module RunOnce {
  import opened Emitters
  import opened EmissionLaws

  // ------------------------------------------------------------------------------------------
  // What the log records

  function Adds(log: Log, f: Focus): nat {
    match log
    case Nothing => 0
    case Then(earlier, Added(e, event, runOnce, id)) =>
      Adds(earlier, f) + (if Focus(e, event, id, runOnce) == f then 1 else 0)
    case Then(earlier, _) => Adds(earlier, f)
  }

  // Completed emissions of the listener's event.
  function Ends(log: Log, f: Focus): nat {
    match log
    case Nothing => 0
    case Then(earlier, Finished(e, event)) => Ends(earlier, f) + (if e == f.e && event == f.event then 1 else 0)
    case Then(earlier, _) => Ends(earlier, f)
  }

  // Registrations that are not accounted for by additions.
  function Old(w: World, f: Focus): int {
    Registered(w, f) - Adds(w.log, f)
  }

  // ------------------------------------------------------------------------------------------
  // First induction, for every script and every outcome: registrations only come from additions, and
  // a completed emission of the event leaves none of the run-once ones that were there before it.

  predicate Ledger(w: World, r: World, f: Focus) {
    && Adds(w.log, f) <= Adds(r.log, f) && Ends(w.log, f) <= Ends(r.log, f)
    && Old(r, f) <= Old(w, f)
    && (f.runOnce && Ends(w.log, f) < Ends(r.log, f) ==> Old(r, f) + Adds(w.log, f) <= 0)
  }

  // In a run that returns, whoever was called was called by an emission that completed.
  predicate Settled(w: World, r: Result, f: Focus) {
    Ledger(w, r.world, f)
    && (r.outcome.Done? && Fires(w.log, f) < Fires(r.world.log, f) ==> Ends(w.log, f) < Ends(r.world.log, f))
  }

  lemma StoredLedger(w: World, e: nat, event: string, list: seq<Entry>, f: Focus)
    requires e < |w.emitters| && Count(list, f) <= Count(List(w, e, event), f)
    ensures Old(SetList(w, e, event, list), f) <= Old(w, f)
  {
  }

  lemma LookupLedger(w: World, e: nat, event: string, f: Focus)
    requires e < |w.emitters|
    ensures Old(SetList(w, e, event, List(w, e, event)), f) == Old(w, f)
  {
  }

  lemma EmitLedger(fuel: nat, w: World, e: nat, event: string, f: Focus)
    ensures Settled(w, EmitSpec(fuel, w, e, event), f)
    decreases fuel, 0, 0
  {
    if e < |w.emitters| && event != "" && Up(w.emitters[e].depth) <= MAX_EMIT_DEPTH && fuel > 0 {
      var w1 := SetDepth(w, e, Up(w.emitters[e].depth));
      ImplLedger(fuel - 1, w1, e, event, f);
      var r := EmitImplSpec(fuel - 1, w1, e, event);
      if r.outcome.Done? && event + SELF_DESTRUCT in r.world.emitters[e].listeners {
        ImplLedger(fuel - 1, r.world, e, event + SELF_DESTRUCT, f);
      }
    }
  }

  lemma ImplLedger(fuel: nat, w: World, e: nat, event: string, f: Focus)
    requires e < |w.emitters|
    ensures Settled(w, EmitImplSpec(fuel, w, e, event), f)
    decreases fuel, 7, 0
  {
    var list := List(w, e, event);
    var inner := Enter(SetList(w, e, event, list), e, event);
    LookupLedger(w, e, event, f);
    DispatchLedger(fuel, inner, e, event, list, f);
    var r := LoopSpec(fuel, w, e, event);
    if r.outcome.Done? {
      LoopEndLedger(r.world, e, event, f);
    }
  }

  lemma LoopEndLedger(w: World, e: nat, event: string, f: Focus)
    requires e < |w.emitters|
    ensures Ledger(w, LoopEnd(w, e, event), f)
    ensures Fires(LoopEnd(w, e, event).log, f) == Fires(w.log, f)
    ensures (e, event) == (f.e, f.event) ==> Ends(w.log, f) < Ends(LoopEnd(w, e, event).log, f)
    ensures (e, event) == (f.e, f.event) && f.runOnce ==> Registered(LoopEnd(w, e, event), f) == 0
  {
    CountPersistent(List(w, e, event), f);
  }

  lemma DispatchLedger(fuel: nat, w: World, e: nat, event: string, entries: seq<Entry>, f: Focus)
    ensures var r := DispatchSpec(fuel, w, e, event, entries);
      Ledger(w, r.world, f) && ((e, event) != (f.e, f.event) ==> Settled(w, r, f))
    decreases fuel, 5, |entries|
  {
    if entries != [] {
      if entries[0].callback.id == -1 {
        DispatchLedger(fuel, w, e, event, entries[1..], f);
      } else {
        var w1 := Called(w, e, event, entries[0]);
        RunLedger(fuel, w1, entries[0].callback.script, f);
        var r := RunSpec(fuel, w1, entries[0].callback.script);
        if r.outcome.Done? {
          DispatchLedger(fuel, r.world, e, event, entries[1..], f);
        }
      }
    }
  }

  lemma RunLedger(fuel: nat, w: World, script: seq<Action>, f: Focus)
    ensures Settled(w, RunSpec(fuel, w, script), f)
    decreases fuel, 4, |script|
  {
    if script != [] {
      ActLedger(fuel, w, script[0], f);
      var r := ActSpec(fuel, w, script[0]);
      if r.outcome.Done? {
        RunLedger(fuel, r.world, script[1..], f);
      }
    }
  }

  lemma ActLedger(fuel: nat, w: World, action: Action, f: Focus)
    ensures Settled(w, ActSpec(fuel, w, action), f)
    decreases fuel, 3, 0
  {
    match action {
      case Raise =>
      case Emit(e, event) => EmitLedger(fuel, w, e, event, f);
      case Add(e, event, runOnce, callback) => AddLedger(fuel, w, e, event, Entry(runOnce, callback), f);
      case Remove(e, event, id) => RemoveLedger(fuel, w, e, event, id, f);
      case RemoveAll(e, event) =>
        if e < |w.emitters| {
          StoredLedger(Log1(w, Dropped(e, event, List(w, e, event))), e, event, [], f);
        }
    }
  }

  lemma AddLedger(fuel: nat, w: World, e: nat, event: string, entry: Entry, f: Focus)
    ensures Settled(w, AddSpec(fuel, w, e, event, entry), f)
    decreases fuel, 1, 0
  {
    if e < |w.emitters| && event != "" {
      var w0 := SetList(w, e, event, List(w, e, event));
      LookupLedger(w, e, event, f);
      EmitLedger(fuel, w0, e, LISTENER_ADDED, f);
      var r := if event == "newListener" then Result(Done, w0) else EmitSpec(fuel, w0, e, LISTENER_ADDED);
      if r.outcome.Done? && (e, event) !in w.active {
        AppendedLedger(r.world, e, event, entry, f);
      }
    }
  }

  lemma AppendedLedger(w: World, e: nat, event: string, entry: Entry, f: Focus)
    requires e < |w.emitters|
    ensures var r := Appended(w, e, event, entry);
      Ledger(w, r, f) && Fires(r.log, f) == Fires(w.log, f) && Ends(r.log, f) == Ends(w.log, f)
  {
    CountAppend(List(w, e, event), [entry], f);
    assert Count([entry], f) == if Counts(f, entry) then 1 else 0;
  }

  lemma RemoveLedger(fuel: nat, w: World, e: nat, event: string, id: int, f: Focus)
    ensures Settled(w, RemoveSpec(fuel, w, e, event, id), f)
    decreases fuel, 2, 0
  {
    if e < |w.emitters| {
      var times := |WithId(List(w, e, event), id)|;
      LookupLedger(w, e, event, f);
      AnnounceLedger(fuel, Enter(SetList(w, e, event, List(w, e, event)), e, event), e, times, f);
      var r := AnnounceLoopSpec(fuel, w, e, event, times);
      if r.outcome.Done? {
        DiscardedLedger(r.world, e, event, id, f);
      }
    }
  }

  lemma DiscardedLedger(w: World, e: nat, event: string, id: int, f: Focus)
    requires e < |w.emitters|
    ensures var r := Discarded(w, e, event, id);
      Ledger(w, r, f) && Fires(r.log, f) == Fires(w.log, f) && Ends(r.log, f) == Ends(w.log, f)
  {
    CountSplit(List(w, e, event), id, f);
  }

  lemma AnnounceLedger(fuel: nat, w: World, e: nat, times: nat, f: Focus)
    ensures Settled(w, AnnounceSpec(fuel, w, e, times), f)
    decreases fuel, 1, times
  {
    if times > 0 {
      EmitLedger(fuel, w, e, LISTENER_REMOVED, f);
      var r := EmitSpec(fuel, w, e, LISTENER_REMOVED);
      if r.outcome.Done? {
        AnnounceLedger(fuel, r.world, e, times - 1, f);
      }
    }
  }

  // ------------------------------------------------------------------------------------------
  // Second induction: what listeners whose scripts obey a rule leave alone

  // Never emit the listener's event; never add, remove or clear away the listener.
  datatype Rule = NoCalls(f: Focus) | NoChanges(f: Focus)

  // Emitting this event reaches the listener's list, directly or as a companion.
  predicate Touches(e: nat, event: string, f: Focus) {
    e == f.e && (event == f.event || event + SELF_DESTRUCT == f.event)
  }

  // When the listener's event is one of the two announcements, adding or removing any listener of the same
  // emitter emits it.
  predicate Allows(rule: Rule, action: Action) {
    match rule
    case NoCalls(f) =>
      (match action
       case Emit(e, event) => !Touches(e, event, f)
       case Add(e, _, _, _) => !Touches(e, LISTENER_ADDED, f)
       case Remove(e, _, _) => !Touches(e, LISTENER_REMOVED, f)
       case _ => true)
    case NoChanges(f) =>
      (match action
       case Add(e, event, runOnce, callback) => Focus(e, event, callback.id, runOnce) != f
       case Remove(e, event, id) => (e, event, id) != (f.e, f.event, f.id)
       case RemoveAll(e, event) => (e, event) != (f.e, f.event)
       case _ => true)
  }

  // A script obeys a rule if its actions do, and the scripts of all callbacks it adds.
  predicate Obeys(script: seq<Action>, rule: Rule) {
    forall i :: 0 <= i < |script| ==> ObeysAction(script[i], rule)
  }

  predicate ObeysAction(action: Action, rule: Rule) {
    Allows(rule, action) && (action.Add? ==> Obeys(action.callback.script, rule))
  }

  predicate ObeysList(list: seq<Entry>, rule: Rule) {
    forall i :: 0 <= i < |list| ==> Obeys(list[i].callback.script, rule)
  }

  ghost predicate ObeysWorld(w: World, rule: Rule) {
    forall e: nat, event :: ObeysList(List(w, e, event), rule)
  }

  predicate Same(before: Log, after: Log, rule: Rule) {
    match rule
    case NoCalls(f) => Fires(after, f) == Fires(before, f)
    case NoChanges(f) => Adds(after, f) == Adds(before, f) && Net(after, f) == Net(before, f)
  }

  ghost predicate Untouched(w: World, r: World, rule: Rule) {
    ObeysWorld(r, rule) && Same(w.log, r.log, rule)
  }

  lemma {:induction false} ObeysSublists(list: seq<Entry>, id: int, rule: Rule)
    requires ObeysList(list, rule)
    ensures ObeysList(Persistent(list), rule) && ObeysList(WithoutId(list, id), rule)
  {
    if list != [] {
      assert Obeys(list[0].callback.script, rule);
      assert forall i :: 0 <= i < |list[1..]| ==> list[1..][i] == list[i + 1];
      ObeysSublists(list[1..], id, rule);
    }
  }

  lemma StoredObeys(w: World, e: nat, event: string, list: seq<Entry>, rule: Rule)
    requires ObeysWorld(w, rule) && e < |w.emitters| && ObeysList(list, rule)
    ensures ObeysWorld(SetList(w, e, event, list), rule)
  {
    SetListFacts(w, e, event, list);
  }

  lemma DeeperObeys(w: World, e: nat, depth: int, rule: Rule)
    requires ObeysWorld(w, rule) && e < |w.emitters|
    ensures ObeysWorld(SetDepth(w, e, depth), rule)
  {
    SetDepthLists(w, e, depth);
  }

  lemma SameEmittersObey(w: World, w': World, rule: Rule)
    requires ObeysWorld(w, rule) && w'.emitters == w.emitters
    ensures ObeysWorld(w', rule)
  {
    forall e: nat, event ensures ObeysList(List(w', e, event), rule) {
      assert List(w', e, event) == List(w, e, event);
    }
  }

  lemma LoopEntryObeys(w: World, e: nat, event: string, rule: Rule)
    requires ObeysWorld(w, rule) && e < |w.emitters|
    ensures ObeysWorld(Enter(SetList(w, e, event, List(w, e, event)), e, event), rule)
  {
    StoredObeys(w, e, event, List(w, e, event), rule);
    SameEmittersObey(SetList(w, e, event, List(w, e, event)),
      Enter(SetList(w, e, event, List(w, e, event)), e, event), rule);
  }

  lemma LoopEndObeys(w: World, e: nat, event: string, rule: Rule)
    requires ObeysWorld(w, rule) && e < |w.emitters|
    ensures ObeysWorld(LoopEnd(w, e, event), rule)
  {
    ObeysSublists(List(w, e, event), 0, rule);
    var w0 := Log1(w, Finished(e, event));
    SameEmittersObey(w, w0, rule);
    StoredObeys(w0, e, event, Persistent(List(w, e, event)), rule);
    var w1 := SetList(w0, e, event, Persistent(List(w, e, event)));
    DeeperObeys(w1, e, Down(w1.emitters[e].depth), rule);
  }

  lemma EmitObeys(fuel: nat, w: World, e: nat, event: string, rule: Rule)
    requires ObeysWorld(w, rule) && Allows(rule, Emit(e, event))
    ensures Untouched(w, EmitSpec(fuel, w, e, event).world, rule)
    decreases fuel, 0, 0
  {
    if e < |w.emitters| && event != "" {
      var w1 := SetDepth(w, e, Up(w.emitters[e].depth));
      DeeperObeys(w, e, Up(w.emitters[e].depth), rule);
      if Up(w.emitters[e].depth) <= MAX_EMIT_DEPTH && fuel > 0 {
        ImplObeys(fuel - 1, w1, e, event, rule);
        var r := EmitImplSpec(fuel - 1, w1, e, event);
        if r.outcome.Done? && event + SELF_DESTRUCT in r.world.emitters[e].listeners {
          ImplObeys(fuel - 1, r.world, e, event + SELF_DESTRUCT, rule);
        }
      }
    }
  }

  // Emissions of the listener's own event call it.
  predicate Hears(rule: Rule, e: nat, event: string) {
    rule.NoCalls? && (e, event) == (rule.f.e, rule.f.event)
  }

  lemma ImplObeys(fuel: nat, w: World, e: nat, event: string, rule: Rule)
    requires ObeysWorld(w, rule) && e < |w.emitters| && !Hears(rule, e, event)
    ensures Untouched(w, EmitImplSpec(fuel, w, e, event).world, rule)
    decreases fuel, 7, 0
  {
    LoopObeys(fuel, w, e, event, rule);
    var r := LoopSpec(fuel, w, e, event);
    if r.outcome.Done? {
      LoopEndObeys(r.world, e, event, rule);
      LoopEndLedger(r.world, e, event, rule.f);
    }
  }

  lemma LoopObeys(fuel: nat, w: World, e: nat, event: string, rule: Rule)
    requires ObeysWorld(w, rule) && e < |w.emitters|
    ensures var r := LoopSpec(fuel, w, e, event).world;
      && ObeysWorld(r, rule)
      && (if Hears(rule, e, event) then Fires(r.log, rule.f) <= Fires(w.log, rule.f) + Count(List(w, e, event), rule.f)
          else Same(w.log, r.log, rule))
    decreases fuel, 6, 0
  {
    var list := List(w, e, event);
    LoopEntryObeys(w, e, event, rule);
    var inner := Enter(SetList(w, e, event, list), e, event);
    DispatchObeys(fuel, inner, e, event, list, rule);
    SameEmittersObey(DispatchSpec(fuel, inner, e, event, list).world, LoopSpec(fuel, w, e, event).world, rule);
  }

  // One loop calls the listener at most as often as it is in the list.
  lemma DispatchObeys(fuel: nat, w: World, e: nat, event: string, entries: seq<Entry>, rule: Rule)
    requires ObeysWorld(w, rule) && ObeysList(entries, rule)
    ensures var r := DispatchSpec(fuel, w, e, event, entries).world;
      && ObeysWorld(r, rule)
      && (if Hears(rule, e, event) then Fires(r.log, rule.f) <= Fires(w.log, rule.f) + Count(entries, rule.f)
          else Same(w.log, r.log, rule))
    decreases fuel, 5, |entries|
  {
    if entries != [] {
      assert Obeys(entries[0].callback.script, rule);
      assert forall i :: 0 <= i < |entries[1..]| ==> entries[1..][i] == entries[i + 1];
      if entries[0].callback.id == -1 {
        DispatchObeys(fuel, w, e, event, entries[1..], rule);
      } else {
        var w1 := Called(w, e, event, entries[0]);
        SameEmittersObey(w, w1, rule);
        RunObeys(fuel, w1, entries[0].callback.script, rule);
        var r := RunSpec(fuel, w1, entries[0].callback.script);
        if r.outcome.Done? {
          DispatchObeys(fuel, r.world, e, event, entries[1..], rule);
        }
      }
    }
  }

  lemma RunObeys(fuel: nat, w: World, script: seq<Action>, rule: Rule)
    requires ObeysWorld(w, rule) && Obeys(script, rule)
    ensures Untouched(w, RunSpec(fuel, w, script).world, rule)
    decreases fuel, 4, |script|
  {
    if script != [] {
      assert ObeysAction(script[0], rule);
      ActObeys(fuel, w, script[0], rule);
      var r := ActSpec(fuel, w, script[0]);
      if r.outcome.Done? {
        assert forall i :: 0 <= i < |script[1..]| ==> script[1..][i] == script[i + 1];
        RunObeys(fuel, r.world, script[1..], rule);
      }
    }
  }

  lemma ActObeys(fuel: nat, w: World, action: Action, rule: Rule)
    requires ObeysWorld(w, rule) && ObeysAction(action, rule)
    ensures Untouched(w, ActSpec(fuel, w, action).world, rule)
    decreases fuel, 3, 0
  {
    match action {
      case Raise =>
      case Emit(e, event) => EmitObeys(fuel, w, e, event, rule);
      case Add(e, event, runOnce, callback) =>
        if e < |w.emitters| && event != "" {
          StoredObeys(w, e, event, List(w, e, event), rule);
          var w0 := SetList(w, e, event, List(w, e, event));
          EmitObeys(fuel, w0, e, LISTENER_ADDED, rule);
          AddedObeys(fuel, w, w0, e, event, Entry(runOnce, callback), rule);
        }
      case Remove(e, event, id) =>
        if e < |w.emitters| {
          LoopEntryObeys(w, e, event, rule);
          var inner := Enter(SetList(w, e, event, List(w, e, event)), e, event);
          AnnounceObeys(fuel, inner, e, |WithId(List(w, e, event), id)|, rule);
          RemovedObeys(fuel, w, e, event, id, rule);
        }
      case RemoveAll(e, event) => DroppedObeys(fuel, w, e, event, rule);
    }
  }

  lemma DroppedObeys(fuel: nat, w: World, e: nat, event: string, rule: Rule)
    requires ObeysWorld(w, rule) && Allows(rule, RemoveAll(e, event))
    ensures Untouched(w, ActSpec(fuel, w, RemoveAll(e, event)).world, rule)
  {
    if e < |w.emitters| {
      var w1 := Log1(w, Dropped(e, event, List(w, e, event)));
      SameEmittersObey(w, w1, rule);
      StoredObeys(w1, e, event, [], rule);
    }
  }

  // The end of an addition whose announcement kept the scripts clear of the event.
  lemma AddedObeys(fuel: nat, w: World, w0: World, e: nat, event: string, entry: Entry, rule: Rule)
    requires e < |w.emitters| && event != "" && w0 == SetList(w, e, event, List(w, e, event))
    requires Obeys(entry.callback.script, rule) && ObeysWorld(w0, rule)
    requires ObeysWorld(EmitSpec(fuel, w0, e, LISTENER_ADDED).world, rule)
    requires rule.NoChanges? ==> Allows(rule, Add(e, event, entry.runOnce, entry.callback))
    ensures var r := AddSpec(fuel, w, e, event, entry).world;
      && ObeysWorld(r, rule)
      && (Same(w.log, r.log, rule) || Same(EmitSpec(fuel, w0, e, LISTENER_ADDED).world.log, r.log, rule))
  {
    var mid := if event == "newListener" then w0 else EmitSpec(fuel, w0, e, LISTENER_ADDED).world;
    var w1 := Log1(mid, Added(e, event, entry.runOnce, entry.callback.id));
    SameEmittersObey(mid, w1, rule);
    var list := List(w1, e, event) + [entry];
    assert ObeysList(List(w1, e, event), rule);
    assert ObeysList(list, rule);
    StoredObeys(w1, e, event, list, rule);
  }

  lemma {:induction false} OthersDropped(list: seq<Entry>, id: int, f: Focus)
    ensures id != f.id ==> Count(WithId(list, id), f) == 0
  {
    if list != [] {
      OthersDropped(list[1..], id, f);
      assert ([list[0]] + WithId(list[1..], id))[1..] == WithId(list[1..], id);
    }
  }

  lemma RemovedObeys(fuel: nat, w: World, e: nat, event: string, id: int, rule: Rule)
    requires e < |w.emitters| && (rule.NoChanges? ==> Allows(rule, Remove(e, event, id)))
    requires var inner := Enter(SetList(w, e, event, List(w, e, event)), e, event);
      ObeysWorld(AnnounceSpec(fuel, inner, e, |WithId(List(w, e, event), id)|).world, rule)
    ensures var inner := Enter(SetList(w, e, event, List(w, e, event)), e, event);
      var r := RemoveSpec(fuel, w, e, event, id).world;
      ObeysWorld(r, rule)
      && Same(AnnounceSpec(fuel, inner, e, |WithId(List(w, e, event), id)|).world.log, r.log, rule)
  {
    var times := |WithId(List(w, e, event), id)|;
    var inner := Enter(SetList(w, e, event, List(w, e, event)), e, event);
    var r := AnnounceLoopSpec(fuel, w, e, event, times).world;
    SameEmittersObey(AnnounceSpec(fuel, inner, e, times).world, r, rule);
    ObeysSublists(List(r, e, event), id, rule);
    OthersDropped(List(r, e, event), id, rule.f);
    var w1 := Log1(r, Dropped(e, event, WithId(List(r, e, event), id)));
    SameEmittersObey(r, w1, rule);
    StoredObeys(w1, e, event, WithoutId(List(r, e, event), id), rule);
  }

  lemma AnnounceObeys(fuel: nat, w: World, e: nat, times: nat, rule: Rule)
    requires ObeysWorld(w, rule) && Allows(rule, Emit(e, LISTENER_REMOVED))
    ensures Untouched(w, AnnounceSpec(fuel, w, e, times).world, rule)
    decreases fuel, 1, times
  {
    if times > 0 {
      EmitObeys(fuel, w, e, LISTENER_REMOVED, rule);
      var r := EmitSpec(fuel, w, e, LISTENER_REMOVED);
      if r.outcome.Done? {
        AnnounceObeys(fuel, r.world, e, times - 1, rule);
      }
    }
  }

  // ------------------------------------------------------------------------------------------
  // The run itself may emit the event as often as it likes

  predicate AddsOnlyObedient(script: seq<Action>, f: Focus) {
    forall i :: 0 <= i < |script| && script[i].Add? ==> Obeys(script[i].callback.script, NoCalls(f))
  }

  // Calls so far and, while the run goes on, calls still to come are covered by registrations.
  ghost predicate Covered(w: World, r: Result, f: Focus) {
    && ObeysWorld(r.world, NoCalls(f))
    && Fires(r.world.log, f) - Adds(r.world.log, f) + (if r.outcome.Done? then Registered(r.world, f) else 0)
         <= Fires(w.log, f) + Old(w, f)
  }

  lemma ImplCovers(fuel: nat, w: World, e: nat, event: string, f: Focus)
    requires ObeysWorld(w, NoCalls(f)) && e < |w.emitters| && f.runOnce
    ensures Covered(w, EmitImplSpec(fuel, w, e, event), f)
  {
    ImplLedger(fuel, w, e, event, f);
    if (e, event) != (f.e, f.event) {
      ImplObeys(fuel, w, e, event, NoCalls(f));
    } else {
      LoopObeys(fuel, w, e, event, NoCalls(f));
      var r := LoopSpec(fuel, w, e, event);
      if r.outcome.Done? {
        LoopEndObeys(r.world, e, event, NoCalls(f));
        LoopEndLedger(r.world, e, event, f);
      }
    }
  }

  lemma EmitCovers(fuel: nat, w: World, e: nat, event: string, f: Focus)
    requires ObeysWorld(w, NoCalls(f)) && f.runOnce
    ensures Covered(w, EmitSpec(fuel, w, e, event), f)
  {
    if e < |w.emitters| && event != "" {
      var w1 := SetDepth(w, e, Up(w.emitters[e].depth));
      DeeperObeys(w, e, Up(w.emitters[e].depth), NoCalls(f));
      SetDepthLists(w, e, Up(w.emitters[e].depth));
      if Up(w.emitters[e].depth) <= MAX_EMIT_DEPTH && fuel > 0 {
        ImplCovers(fuel - 1, w1, e, event, f);
        var r := EmitImplSpec(fuel - 1, w1, e, event);
        if r.outcome.Done? && event + SELF_DESTRUCT in r.world.emitters[e].listeners {
          ImplCovers(fuel - 1, r.world, e, event + SELF_DESTRUCT, f);
        }
      }
    }
  }

  lemma AnnounceCovers(fuel: nat, w: World, e: nat, times: nat, f: Focus)
    requires ObeysWorld(w, NoCalls(f)) && f.runOnce
    ensures Covered(w, AnnounceSpec(fuel, w, e, times), f)
    decreases times
  {
    if times > 0 {
      EmitCovers(fuel, w, e, LISTENER_REMOVED, f);
      var r := EmitSpec(fuel, w, e, LISTENER_REMOVED);
      if r.outcome.Done? {
        AnnounceCovers(fuel, r.world, e, times - 1, f);
      }
    }
  }

  lemma AddCovers(fuel: nat, w: World, e: nat, event: string, entry: Entry, f: Focus)
    requires ObeysWorld(w, NoCalls(f)) && f.runOnce && Obeys(entry.callback.script, NoCalls(f))
    ensures Covered(w, AddSpec(fuel, w, e, event, entry), f)
  {
    AddLedger(fuel, w, e, event, entry, f);
    if e < |w.emitters| && event != "" {
      var w0 := SetList(w, e, event, List(w, e, event));
      StoredObeys(w, e, event, List(w, e, event), NoCalls(f));
      LookupLedger(w, e, event, f);
      EmitCovers(fuel, w0, e, LISTENER_ADDED, f);
      AddedObeys(fuel, w, w0, e, event, entry, NoCalls(f));
      var r := if event == "newListener" then Result(Done, w0) else EmitSpec(fuel, w0, e, LISTENER_ADDED);
      if r.outcome.Done? && !AtMax(w, e, event) && (e, event) !in w.active {
        AppendedLedger(r.world, e, event, entry, f);
      }
    }
  }

  lemma RemoveCovers(fuel: nat, w: World, e: nat, event: string, id: int, f: Focus)
    requires ObeysWorld(w, NoCalls(f)) && f.runOnce
    ensures Covered(w, RemoveSpec(fuel, w, e, event, id), f)
  {
    RemoveLedger(fuel, w, e, event, id, f);
    if e < |w.emitters| {
      var times := |WithId(List(w, e, event), id)|;
      var inner := Enter(SetList(w, e, event, List(w, e, event)), e, event);
      LookupLedger(w, e, event, f);
      LoopEntryObeys(w, e, event, NoCalls(f));
      AnnounceCovers(fuel, inner, e, times, f);
      RemovedObeys(fuel, w, e, event, id, NoCalls(f));
      var r := AnnounceLoopSpec(fuel, w, e, event, times);
      if r.outcome.Done? {
        DiscardedLedger(r.world, e, event, id, f);
      }
    }
  }

  lemma ActCovers(fuel: nat, w: World, action: Action, f: Focus)
    requires ObeysWorld(w, NoCalls(f)) && f.runOnce && (action.Add? ==> Obeys(action.callback.script, NoCalls(f)))
    ensures Covered(w, ActSpec(fuel, w, action), f)
  {
    match action {
      case Raise =>
      case Emit(e, event) => EmitCovers(fuel, w, e, event, f);
      case Add(e, event, runOnce, callback) => AddCovers(fuel, w, e, event, Entry(runOnce, callback), f);
      case Remove(e, event, id) => RemoveCovers(fuel, w, e, event, id, f);
      case RemoveAll(e, event) =>
        ActLedger(fuel, w, action, f);
        DroppedObeys(fuel, w, e, event, NoCalls(f));
    }
  }

  lemma {:induction false} RunCovers(fuel: nat, w: World, script: seq<Action>, f: Focus)
    requires ObeysWorld(w, NoCalls(f)) && f.runOnce && AddsOnlyObedient(script, f)
    ensures Covered(w, RunSpec(fuel, w, script), f)
    decreases |script|
  {
    if script != [] {
      ActCovers(fuel, w, script[0], f);
      var r := ActSpec(fuel, w, script[0]);
      if r.outcome.Done? {
        assert forall i :: 0 <= i < |script[1..]| ==> script[1..][i] == script[i + 1];
        RunCovers(fuel, r.world, script[1..], f);
      }
    }
  }

  // ------------------------------------------------------------------------------------------
  // Theorems

  /** As long as no listener, nor any listener they add, emits a run-once listener's event, the listener
      is called at most once for each registration: in every run, however often the run itself emits the
      event, and whether it returns, throws, or is undefined. */
  lemma RunOnceNeverFiresTwice(fuel: nat, w: World, script: seq<Action>, f: Focus)
    requires f.runOnce && ObeysWorld(w, NoCalls(f)) && AddsOnlyObedient(script, f)
    ensures var r := RunSpec(fuel, w, script).world;
      Fires(r.log, f) - Fires(w.log, f) <= Registered(w, f) + Adds(r.log, f) - Adds(w.log, f)
  {
    RunCovers(fuel, w, script, f);
  }

  /** A registered run-once listener that a run neither adds nor removes is called exactly once if its
      event completes an emission anywhere in the run, whatever stops the run later; a run that returns
      without completing one does not call it. */
  lemma RunOnceListenersFireOnce(fuel: nat, w: World, script: seq<Action>, f: Focus)
    requires Ready(w) && PlainScript(script) && f.id != -1 && f.runOnce && Registered(w, f) == 1
    requires ObeysWorld(w, NoCalls(f)) && AddsOnlyObedient(script, f)
    requires var r := RunSpec(fuel, w, script).world;
      Adds(r.log, f) == Adds(w.log, f) && Net(r.log, f) == Net(w.log, f)
    ensures var r := RunSpec(fuel, w, script);
      && Fires(r.world.log, f) <= Fires(w.log, f) + 1
      && (Ends(w.log, f) < Ends(r.world.log, f) ==> Fires(r.world.log, f) == Fires(w.log, f) + 1)
      && (Ends(w.log, f) == Ends(r.world.log, f) && r.outcome.Done? ==> Fires(r.world.log, f) == Fires(w.log, f))
  {
    RunOnceNeverFiresTwice(fuel, w, script, f);
    RunKeeps(fuel, w, script, f, 0);
    RunLedger(fuel, w, script, f);
  }

  /** The same, read off the scripts before the run: nothing in the run, no registered listener, and none
      that any of them adds, adds this listener, removes its id or clears its list. */
  lemma UndisturbedRunOnceListenersFireOnce(fuel: nat, w: World, script: seq<Action>, f: Focus)
    requires Ready(w) && PlainScript(script) && f.id != -1 && f.runOnce && Registered(w, f) == 1
    requires ObeysWorld(w, NoCalls(f)) && AddsOnlyObedient(script, f)
    requires ObeysWorld(w, NoChanges(f)) && Obeys(script, NoChanges(f))
    ensures var r := RunSpec(fuel, w, script);
      && Fires(r.world.log, f) <= Fires(w.log, f) + 1
      && (Ends(w.log, f) < Ends(r.world.log, f) ==> Fires(r.world.log, f) == Fires(w.log, f) + 1)
      && (Ends(w.log, f) == Ends(r.world.log, f) && r.outcome.Done? ==> Fires(r.world.log, f) == Fires(w.log, f))
  {
    RunObeys(fuel, w, script, NoChanges(f));
    RunOnceListenersFireOnce(fuel, w, script, f);
  }
}
