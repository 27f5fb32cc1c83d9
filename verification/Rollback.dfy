/** rollback_event_on_exception registers a listener for the duration of an action. The proof runs the
    action twice in lockstep, once in a world with the extra listener and once without, and shows that
    the two runs agree on everything but that listener. */
module Rollback {
  import opened Emitters
  import opened EmissionLaws

  // ------------------------------------------------------------------------------------------
  // Scripts that do not know the id x, and emitters without companions

  predicate CleanScript(script: seq<Action>, x: int) {
    forall i :: 0 <= i < |script| ==> CleanAction(script[i], x)
  }

  predicate CleanAction(action: Action, x: int) {
    match action
    case Emit(_, event) => !IsCompanion(event)
    case Add(_, event, _, callback) => !IsCompanion(event) && callback.id != x && CleanScript(callback.script, x)
    case Remove(_, event, id) => !IsCompanion(event) && id != x
    case RemoveAll(_, event) => !IsCompanion(event)
    case Raise => true
  }

  // The listener with id x only observes; all others are ignorant of x.
  predicate CleanEntry(entry: Entry, x: int) {
    if entry.callback.id == x then entry.callback.script == [] else CleanScript(entry.callback.script, x)
  }

  predicate CleanList(list: seq<Entry>, x: int) {
    list != [] ==> CleanEntry(list[0], x) && CleanList(list[1..], x)
  }

  predicate NoCompanionKeys(w: World) {
    forall i :: 0 <= i < |w.emitters| ==> forall event <- w.emitters[i].listeners :: !IsCompanion(event)
  }

  // b is a plus listeners with id x, which are all in the list `home`.
  ghost predicate Agree(a: World, b: World, x: int, home: (nat, string)) {
    && NoCompanionKeys(a) && NoCompanionKeys(b)
    && |a.emitters| == |b.emitters| && a.active == b.active
    && (forall i :: 0 <= i < |a.emitters| ==>
         a.emitters[i].depth == b.emitters[i].depth && a.emitters[i].maxListeners == b.emitters[i].maxListeners)
    && (forall e: nat, event {:trigger List(a, e, event)} {:trigger List(b, e, event)}
      :: ListsAgree(a, b, x, home, e, event))
  }

  predicate ListsAgree(a: World, b: World, x: int, home: (nat, string), e: nat, event: string) {
    && List(a, e, event) == WithoutId(List(b, e, event), x) && CleanList(List(b, e, event), x)
    && ((e, event) != home ==> List(a, e, event) == List(b, e, event))
  }

  ghost predicate SameFate(a: Result, b: Result, x: int, home: (nat, string)) {
    a.outcome == b.outcome && Agree(a.world, b.world, x, home)
  }

  // Runs that stay within the emitters' listener limits and meet no undefined behaviour.
  predicate WithinLimits(outcome: Outcome) {
    outcome != Threw(TooMany) && !outcome.Undefined? && !outcome.OutOfFuel?
  }

  // ------------------------------------------------------------------------------------------
  // Lists

  lemma {:induction false} WithoutIdAppend(l: seq<Entry>, r: seq<Entry>, x: int)
    ensures WithoutId(l + r, x) == WithoutId(l, x) + WithoutId(r, x)
    ensures CleanList(l, x) && CleanList(r, x) ==> CleanList(l + r, x)
  {
    if l == [] {
      assert l + r == r;
    } else {
      assert (l + r)[0] == l[0] && (l + r)[1..] == l[1..] + r;
      WithoutIdAppend(l[1..], r, x);
    }
  }

  lemma {:induction false} PersistentAgrees(list: seq<Entry>, x: int)
    requires CleanList(list, x)
    ensures WithoutId(Persistent(list), x) == Persistent(WithoutId(list, x)) && CleanList(Persistent(list), x)
  {
    if list != [] {
      PersistentAgrees(list[1..], x);
    }
  }

  lemma {:induction false} RemovalsAgree(list: seq<Entry>, x: int, id: int)
    requires CleanList(list, x) && id != x
    ensures WithoutId(WithoutId(list, id), x) == WithoutId(WithoutId(list, x), id) && CleanList(WithoutId(list, id), x)
    ensures WithId(WithoutId(list, x), id) == WithId(list, id)
  {
    if list != [] {
      RemovalsAgree(list[1..], x, id);
    }
  }

  lemma {:induction false} WithoutIdShrinks(list: seq<Entry>, x: int)
    ensures |WithoutId(list, x)| <= |list|
    ensures Persistent(list) == list ==> Persistent(WithoutId(list, x)) == WithoutId(list, x)
  {
    if list != [] {
      WithoutIdShrinks(list[1..], x);
      PersistentShrinks(list[1..]);
      if Persistent(list) == list {
        assert Persistent(list)[1..] == list[1..];
      }
    }
  }

  lemma {:induction false} PersistentShrinks(list: seq<Entry>)
    ensures |Persistent(list)| <= |list|
  {
    if list != [] {
      PersistentShrinks(list[1..]);
    }
  }

  // ------------------------------------------------------------------------------------------
  // Single updates keep two worlds in agreement

  lemma SetListsAgree(a: World, b: World, x: int, home: (nat, string), e: nat, event: string, la: seq<Entry>,
      lb: seq<Entry>)
    requires Agree(a, b, x, home) && e < |a.emitters| && !IsCompanion(event)
    requires la == WithoutId(lb, x) && CleanList(lb, x) && ((e, event) != home ==> la == lb)
    ensures Agree(SetList(a, e, event, la), SetList(b, e, event, lb), x, home)
  {
    var a', b' := SetList(a, e, event, la), SetList(b, e, event, lb);
    forall e': nat, event'
      ensures ListsAgree(a', b', x, home, e', event')
    {
      assert ListsAgree(a, b, x, home, e', event');
    }
  }

  lemma SetDepthsAgree(a: World, b: World, x: int, home: (nat, string), e: nat, depth: int)
    requires Agree(a, b, x, home) && e < |a.emitters|
    ensures Agree(SetDepth(a, e, depth), SetDepth(b, e, depth), x, home)
  {
    var a', b' := SetDepth(a, e, depth), SetDepth(b, e, depth);
    forall e': nat, event'
      ensures ListsAgree(a', b', x, home, e', event')
    {
      assert ListsAgree(a, b, x, home, e', event');
    }
  }

  // Agreement does not look at the log, and the two sides may enter and leave a loop together.
  lemma LogsDoNotMatter(a: World, b: World, x: int, home: (nat, string), a': World, b': World)
    requires Agree(a, b, x, home) && a'.emitters == a.emitters && b'.emitters == b.emitters && a'.active == b'.active
    ensures Agree(a', b', x, home)
  {
    forall e': nat, event'
      ensures ListsAgree(a', b', x, home, e', event')
    {
      assert ListsAgree(a, b, x, home, e', event');
    }
  }

  // ------------------------------------------------------------------------------------------
  // The lockstep induction: b's run decides, a's run follows

  lemma EmitAgrees(fuel: nat, a: World, b: World, x: int, home: (nat, string), e: nat, event: string)
    requires Agree(a, b, x, home) && x != -1 && !IsCompanion(event)
    requires WithinLimits(EmitSpec(fuel, b, e, event).outcome)
    ensures SameFate(EmitSpec(fuel, a, e, event), EmitSpec(fuel, b, e, event), x, home)
    decreases fuel, 0, 0
  {
    if e < |a.emitters| && event != "" {
      var depth := Up(a.emitters[e].depth);
      SetDepthsAgree(a, b, x, home, e, depth);
      if depth <= MAX_EMIT_DEPTH {
        var a1, b1 := SetDepth(a, e, depth), SetDepth(b, e, depth);
        var rb := EmitImplSpec(fuel - 1, b1, e, event);
        if rb.outcome.Done? {
          ImplAgrees(fuel - 1, a1, b1, x, home, e, event);
        } else {
          assert EmitSpec(fuel, b, e, event) == rb;
          ImplAgrees(fuel - 1, a1, b1, x, home, e, event);
        }
      }
    }
  }

  lemma ImplAgrees(fuel: nat, a: World, b: World, x: int, home: (nat, string), e: nat, event: string)
    requires Agree(a, b, x, home) && x != -1 && !IsCompanion(event) && e < |a.emitters|
    requires WithinLimits(EmitImplSpec(fuel, b, e, event).outcome)
    ensures SameFate(EmitImplSpec(fuel, a, e, event), EmitImplSpec(fuel, b, e, event), x, home)
    decreases fuel, 7, 0
  {
    var rb := LoopSpec(fuel, b, e, event);
    if rb.outcome.Done? {
      LoopAgrees(fuel, a, b, x, home, e, event);
      var ra := LoopSpec(fuel, a, e, event);
      assert ListsAgree(ra.world, rb.world, x, home, e, event);
      WithoutIdShrinks(List(rb.world, e, event), x);
      LoopEndsAgree(ra.world, rb.world, x, home, e, event);
    } else {
      LoopAgrees(fuel, a, b, x, home, e, event);
    }
  }

  lemma LoopEndsAgree(a: World, b: World, x: int, home: (nat, string), e: nat, event: string)
    requires Agree(a, b, x, home) && !IsCompanion(event) && e < |a.emitters|
    ensures Agree(LoopEnd(a, e, event), LoopEnd(b, e, event), x, home)
  {
    assert ListsAgree(a, b, x, home, e, event);
    var la, lb := List(a, e, event), List(b, e, event);
    PersistentAgrees(lb, x);
    var a0, b0 := Log1(a, Finished(e, event)), Log1(b, Finished(e, event));
    LogsDoNotMatter(a, b, x, home, a0, b0);
    SetListsAgree(a0, b0, x, home, e, event, Persistent(la), Persistent(lb));
    var a1, b1 := SetList(a0, e, event, Persistent(la)), SetList(b0, e, event, Persistent(lb));
    assert a1.emitters[e].depth == b1.emitters[e].depth;
    SetDepthsAgree(a1, b1, x, home, e, Down(a1.emitters[e].depth));
  }

  lemma LookupsAgree(a: World, b: World, x: int, home: (nat, string), e: nat, event: string)
    requires Agree(a, b, x, home) && !IsCompanion(event) && e < |a.emitters|
    ensures Agree(SetList(a, e, event, List(a, e, event)), SetList(b, e, event, List(b, e, event)), x, home)
    ensures Agree(Enter(SetList(a, e, event, List(a, e, event)), e, event),
                  Enter(SetList(b, e, event, List(b, e, event)), e, event), x, home)
  {
    assert ListsAgree(a, b, x, home, e, event);
    SetListsAgree(a, b, x, home, e, event, List(a, e, event), List(b, e, event));
    var a0, b0 := SetList(a, e, event, List(a, e, event)), SetList(b, e, event, List(b, e, event));
    LogsDoNotMatter(a0, b0, x, home, Enter(a0, e, event), Enter(b0, e, event));
  }

  lemma LoopAgrees(fuel: nat, a: World, b: World, x: int, home: (nat, string), e: nat, event: string)
    requires Agree(a, b, x, home) && x != -1 && !IsCompanion(event) && e < |a.emitters|
    requires WithinLimits(LoopSpec(fuel, b, e, event).outcome)
    ensures SameFate(LoopSpec(fuel, a, e, event), LoopSpec(fuel, b, e, event), x, home)
    decreases fuel, 6, 0
  {
    LookupsAgree(a, b, x, home, e, event);
    assert ListsAgree(a, b, x, home, e, event);
    var la, lb := List(a, e, event), List(b, e, event);
    var a1, b1 := Enter(SetList(a, e, event, la), e, event), Enter(SetList(b, e, event, lb), e, event);
    DispatchAgrees(fuel, a1, b1, x, home, e, event, lb);
    var ra, rb := DispatchSpec(fuel, a1, e, event, la), DispatchSpec(fuel, b1, e, event, lb);
    LogsDoNotMatter(ra.world, rb.world, x, home, ra.world.(active := a.active), rb.world.(active := b.active));
  }

  lemma DispatchAgrees(fuel: nat, a: World, b: World, x: int, home: (nat, string), e: nat, event: string,
      entries: seq<Entry>)
    requires Agree(a, b, x, home) && x != -1 && CleanList(entries, x)
    requires WithinLimits(DispatchSpec(fuel, b, e, event, entries).outcome)
    ensures SameFate(DispatchSpec(fuel, a, e, event, WithoutId(entries, x)),
      DispatchSpec(fuel, b, e, event, entries), x, home)
    decreases fuel, 5, |entries|
  {
    if entries != [] {
      var rest := entries[1..];
      var b1 := Called(b, e, event, entries[0]);
      if entries[0].callback.id == x {
        assert WithoutId(entries, x) == WithoutId(rest, x);
        assert RunSpec(fuel, b1, []) == Result(Done, b1);
        LogsDoNotMatter(a, b, x, home, a, b1);
        DispatchAgrees(fuel, a, b1, x, home, e, event, rest);
      } else {
        assert WithoutId(entries, x) == [entries[0]] + WithoutId(rest, x);
        assert WithoutId(entries, x)[1..] == WithoutId(rest, x);
        if entries[0].callback.id == -1 {
          DispatchAgrees(fuel, a, b, x, home, e, event, rest);
        } else {
          var a1 := Called(a, e, event, entries[0]);
          var script := entries[0].callback.script;
          LogsDoNotMatter(a, b, x, home, a1, b1);
          RunAgrees(fuel, a1, b1, x, home, script);
          if RunSpec(fuel, b1, script).outcome.Done? {
            DispatchAgrees(fuel, RunSpec(fuel, a1, script).world, RunSpec(fuel, b1, script).world,
              x, home, e, event, rest);
          }
        }
      }
    }
  }

  lemma RunAgrees(fuel: nat, a: World, b: World, x: int, home: (nat, string), script: seq<Action>)
    requires Agree(a, b, x, home) && x != -1 && CleanScript(script, x)
    requires WithinLimits(RunSpec(fuel, b, script).outcome)
    ensures SameFate(RunSpec(fuel, a, script), RunSpec(fuel, b, script), x, home)
    decreases fuel, 4, |script|
  {
    if script != [] {
      ActAgrees(fuel, a, b, x, home, script[0]);
      if ActSpec(fuel, b, script[0]).outcome.Done? {
        assert CleanScript(script[1..], x);
        RunAgrees(fuel, ActSpec(fuel, a, script[0]).world, ActSpec(fuel, b, script[0]).world, x, home, script[1..]);
      }
    }
  }

  lemma ActAgrees(fuel: nat, a: World, b: World, x: int, home: (nat, string), action: Action)
    requires Agree(a, b, x, home) && x != -1 && CleanAction(action, x)
    requires WithinLimits(ActSpec(fuel, b, action).outcome)
    ensures SameFate(ActSpec(fuel, a, action), ActSpec(fuel, b, action), x, home)
    decreases fuel, 3, 0
  {
    match action {
      case Raise =>
      case Emit(e, event) => EmitAgrees(fuel, a, b, x, home, e, event);
      case Add(e, event, runOnce, callback) => AddAgrees(fuel, a, b, x, home, e, event, Entry(runOnce, callback));
      case Remove(e, event, id) => RemoveAgrees(fuel, a, b, x, home, e, event, id);
      case RemoveAll(e, event) =>
        if e < |a.emitters| {
          assert ListsAgree(a, b, x, home, e, event);
          var a1 := Log1(a, Dropped(e, event, List(a, e, event)));
          var b1 := Log1(b, Dropped(e, event, List(b, e, event)));
          LogsDoNotMatter(a, b, x, home, a1, b1);
          SetListsAgree(a1, b1, x, home, e, event, [], []);
        }
    }
  }

  lemma AddAgrees(fuel: nat, a: World, b: World, x: int, home: (nat, string), e: nat, event: string, entry: Entry)
    requires Agree(a, b, x, home) && x != -1 && !IsCompanion(event)
    requires entry.callback.id != x && CleanScript(entry.callback.script, x)
    requires WithinLimits(AddSpec(fuel, b, e, event, entry).outcome)
    ensures SameFate(AddSpec(fuel, a, e, event, entry), AddSpec(fuel, b, e, event, entry), x, home)
    decreases fuel, 1, 0
  {
    if e < |a.emitters| && event != "" {
      LookupsAgree(a, b, x, home, e, event);
      assert ListsAgree(a, b, x, home, e, event);
      WithoutIdShrinks(List(b, e, event), x);
      assert !AtMax(b, e, event) && !AtMax(a, e, event);
      var a0, b0 := SetList(a, e, event, List(a, e, event)), SetList(b, e, event, List(b, e, event));
      var ra := if event == "newListener" then Result(Done, a0) else EmitSpec(fuel, a0, e, LISTENER_ADDED);
      var rb := if event == "newListener" then Result(Done, b0) else EmitSpec(fuel, b0, e, LISTENER_ADDED);
      if event != "newListener" {
        EmitAgrees(fuel, a0, b0, x, home, e, LISTENER_ADDED);
      }
      if rb.outcome.Done? {
        AppendsAgree(ra.world, rb.world, x, home, e, event, entry);
      }
    }
  }

  lemma AppendsAgree(a: World, b: World, x: int, home: (nat, string), e: nat, event: string, entry: Entry)
    requires Agree(a, b, x, home) && !IsCompanion(event) && e < |a.emitters|
    requires entry.callback.id != x && CleanScript(entry.callback.script, x)
    ensures Agree(Appended(a, e, event, entry), Appended(b, e, event, entry), x, home)
  {
    assert ListsAgree(a, b, x, home, e, event);
    var note := Added(e, event, entry.runOnce, entry.callback.id);
    LogsDoNotMatter(a, b, x, home, Log1(a, note), Log1(b, note));
    WithoutIdAppend(List(b, e, event), [entry], x);
    assert CleanList([entry], x) && WithoutId([entry], x) == [entry];
    SetListsAgree(Log1(a, note), Log1(b, note), x, home, e, event, List(a, e, event) + [entry],
      List(b, e, event) + [entry]);
  }

  lemma RemoveAgrees(fuel: nat, a: World, b: World, x: int, home: (nat, string), e: nat, event: string, id: int)
    requires Agree(a, b, x, home) && x != -1 && !IsCompanion(event) && id != x
    requires WithinLimits(RemoveSpec(fuel, b, e, event, id).outcome)
    ensures SameFate(RemoveSpec(fuel, a, e, event, id), RemoveSpec(fuel, b, e, event, id), x, home)
    decreases fuel, 2, 0
  {
    if e < |a.emitters| {
      assert ListsAgree(a, b, x, home, e, event);
      RemovalsAgree(List(b, e, event), x, id);
      var times := |WithId(List(b, e, event), id)|;
      AnnounceLoopAgrees(fuel, a, b, x, home, e, event, times);
      var ra, rb := AnnounceLoopSpec(fuel, a, e, event, times), AnnounceLoopSpec(fuel, b, e, event, times);
      if rb.outcome.Done? {
        DiscardsAgree(ra.world, rb.world, x, home, e, event, id);
      }
    }
  }

  lemma AnnounceLoopAgrees(fuel: nat, a: World, b: World, x: int, home: (nat, string), e: nat, event: string,
      times: nat)
    requires Agree(a, b, x, home) && x != -1 && !IsCompanion(event) && e < |a.emitters|
    requires WithinLimits(AnnounceLoopSpec(fuel, b, e, event, times).outcome)
    ensures SameFate(AnnounceLoopSpec(fuel, a, e, event, times), AnnounceLoopSpec(fuel, b, e, event, times), x, home)
    decreases fuel, 1, times + 1
  {
    LookupsAgree(a, b, x, home, e, event);
    var a1 := Enter(SetList(a, e, event, List(a, e, event)), e, event);
    var b1 := Enter(SetList(b, e, event, List(b, e, event)), e, event);
    AnnounceAgrees(fuel, a1, b1, x, home, e, times);
    var ra, rb := AnnounceSpec(fuel, a1, e, times), AnnounceSpec(fuel, b1, e, times);
    LogsDoNotMatter(ra.world, rb.world, x, home, ra.world.(active := a.active), rb.world.(active := b.active));
  }

  lemma DiscardsAgree(a: World, b: World, x: int, home: (nat, string), e: nat, event: string, id: int)
    requires Agree(a, b, x, home) && !IsCompanion(event) && e < |a.emitters| && id != x
    ensures Agree(Discarded(a, e, event, id), Discarded(b, e, event, id), x, home)
  {
    assert ListsAgree(a, b, x, home, e, event);
    RemovalsAgree(List(b, e, event), x, id);
    var a1 := Log1(a, Dropped(e, event, WithId(List(a, e, event), id)));
    var b1 := Log1(b, Dropped(e, event, WithId(List(b, e, event), id)));
    LogsDoNotMatter(a, b, x, home, a1, b1);
    SetListsAgree(a1, b1, x, home, e, event, WithoutId(List(a, e, event), id), WithoutId(List(b, e, event), id));
  }

  lemma AnnounceAgrees(fuel: nat, a: World, b: World, x: int, home: (nat, string), e: nat, times: nat)
    requires Agree(a, b, x, home) && x != -1
    requires WithinLimits(AnnounceSpec(fuel, b, e, times).outcome)
    ensures SameFate(AnnounceSpec(fuel, a, e, times), AnnounceSpec(fuel, b, e, times), x, home)
    decreases fuel, 1, times
  {
    if times > 0 {
      EmitAgrees(fuel, a, b, x, home, e, LISTENER_REMOVED);
      if EmitSpec(fuel, b, e, LISTENER_REMOVED).outcome.Done? {
        AnnounceAgrees(fuel, EmitSpec(fuel, a, e, LISTENER_REMOVED).world, EmitSpec(fuel, b, e, LISTENER_REMOVED).world,
          x, home, e, times - 1);
      }
    }
  }

  // ------------------------------------------------------------------------------------------
  // Announcing to listeners that only observe

  predicate Quiet(list: seq<Entry>) {
    list != [] ==> !list[0].runOnce && list[0].callback.script == [] && Quiet(list[1..])
  }

  ghost predicate SameTables(w: World, w': World) {
    && |w'.emitters| == |w.emitters| && NoCompanionKeys(w')
    && (forall i :: 0 <= i < |w.emitters| ==>
         w'.emitters[i].depth == w.emitters[i].depth && w'.emitters[i].maxListeners == w.emitters[i].maxListeners)
    && SameLists(w, w')
  }

  lemma {:induction false} QuietIsPersistent(list: seq<Entry>)
    requires Quiet(list)
    ensures Persistent(list) == list
  {
    if list != [] {
      QuietIsPersistent(list[1..]);
    }
  }

  lemma {:induction false} QuietDispatch(fuel: nat, w: World, e: nat, event: string, entries: seq<Entry>)
    requires Quiet(entries)
    ensures var r := DispatchSpec(fuel, w, e, event, entries); r.outcome.Done? && r.world.emitters == w.emitters
    decreases |entries|
  {
    if entries != [] {
      var w1 := Called(w, e, event, entries[0]);
      assert RunSpec(fuel, w1, []) == Result(Done, w1);
      QuietDispatch(fuel, if entries[0].callback.id == -1 then w else w1, e, event, entries[1..]);
    }
  }

  // Looking an event up, or storing the list it has already, creates at most an empty key.
  lemma LookupKeepsTables(w: World, e: nat, event: string)
    requires NoCompanionKeys(w) && e < |w.emitters| && !IsCompanion(event)
    ensures SameTables(w, SetList(w, e, event, List(w, e, event)))
  {
    SetListFacts(w, e, event, List(w, e, event));
  }

  lemma QuietLoop(fuel: nat, w: World, e: nat, event: string)
    requires NoCompanionKeys(w) && e < |w.emitters| && !IsCompanion(event) && Quiet(List(w, e, event))
    ensures LoopSpec(fuel, w, e, event).outcome.Done? && SameTables(w, LoopSpec(fuel, w, e, event).world)
  {
    var w0 := SetList(w, e, event, List(w, e, event));
    LookupKeepsTables(w, e, event);
    QuietDispatch(fuel, Enter(w0, e, event), e, event, List(w, e, event));
    assert LoopSpec(fuel, w, e, event).world.emitters == w0.emitters;
  }

  lemma QuietLoopEnd(w: World, e: nat, event: string, depth: int)
    requires NoCompanionKeys(w) && e < |w.emitters| && !IsCompanion(event) && Quiet(List(w, e, event))
    requires w.emitters[e].depth == Up(depth) && -128 <= depth <= 127
    ensures SameTables(SetDepth(w, e, depth), LoopEnd(w, e, event))
  {
    QuietIsPersistent(List(w, e, event));
    LookupKeepsTables(w, e, event);
  }

  lemma QuietEmit(fuel: nat, w: World, e: nat, event: string)
    requires NoCompanionKeys(w) && e < |w.emitters| && event != "" && !IsCompanion(event) && fuel > 0
    requires -128 <= w.emitters[e].depth <= 127 && Up(w.emitters[e].depth) <= MAX_EMIT_DEPTH
    requires Quiet(List(w, e, event))
    ensures var r := EmitSpec(fuel, w, e, event); r.outcome.Done? && SameTables(w, r.world)
  {
    var w1 := SetDepth(w, e, Up(w.emitters[e].depth));
    QuietLoop(fuel - 1, w1, e, event);
    var w2 := LoopSpec(fuel - 1, w1, e, event).world;
    QuietLoopEnd(w2, e, event, w.emitters[e].depth);
    QuietIsPersistent(List(w2, e, event));
    assert EmitSpec(fuel, w, e, event) == Result(Done, LoopEnd(w2, e, event));
    SetDepthLists(w, e, Up(w.emitters[e].depth));
    SetDepthLists(w2, e, w.emitters[e].depth);
  }

  lemma {:induction false} QuietAnnounce(fuel: nat, w: World, e: nat, times: nat)
    requires NoCompanionKeys(w) && e < |w.emitters| && fuel > 0 && Quiet(List(w, e, LISTENER_REMOVED))
    requires -128 <= w.emitters[e].depth <= 127 && Up(w.emitters[e].depth) <= MAX_EMIT_DEPTH
    ensures var r := AnnounceSpec(fuel, w, e, times); r.outcome.Done? && SameTables(w, r.world)
    decreases times
  {
    if times > 0 {
      QuietEmit(fuel, w, e, LISTENER_REMOVED);
      QuietAnnounce(fuel, EmitSpec(fuel, w, e, LISTENER_REMOVED).world, e, times - 1);
    }
  }

  // ------------------------------------------------------------------------------------------
  // The theorem

  // The id has been issued to a new callback: nobody else knows it.
  ghost predicate FreshIn(w: World, x: int) {
    forall e: nat, event :: CleanList(List(w, e, event), x) && WithoutId(List(w, e, event), x) == List(w, e, event)
  }

  // Whether the temporary listener can be taken out again after the action has thrown: it is gone
  // already, or the emitter's depth counter still lets "listener_removed" through.
  predicate CanRollBack(w: World, e: nat, event: string, x: int) {
    WithId(List(w, e, event), x) == [] || (e < |w.emitters| && Up(w.emitters[e].depth) <= MAX_EMIT_DEPTH)
  }

  lemma AddedAgrees(fuel: nat, w: World, e: nat, event: string, entry: Entry)
    requires NoCompanionKeys(w) && !IsCompanion(event) && e < |w.emitters| && fuel > 0
    requires entry.callback.script == [] && FreshIn(w, entry.callback.id) && Quiet(List(w, e, LISTENER_ADDED))
    requires -128 <= w.emitters[e].depth < MAX_EMIT_DEPTH && AddSpec(fuel, w, e, event, entry).outcome.Done?
    ensures Agree(w, AddSpec(fuel, w, e, event, entry).world, entry.callback.id, (e, event))
  {
    var w0 := SetList(w, e, event, List(w, e, event));
    LookupKeepsTables(w, e, event);
    if event == "newListener" {
      AppendedToTables(w, w0, e, event, entry);
    } else {
      QuietEmit(fuel, w0, e, LISTENER_ADDED);
      AppendedToTables(w, EmitSpec(fuel, w0, e, LISTENER_ADDED).world, e, event, entry);
    }
  }

  lemma AppendedToTables(w: World, w': World, e: nat, event: string, entry: Entry)
    requires NoCompanionKeys(w) && SameTables(w, w') && w.active == w'.active && e < |w.emitters| && !IsCompanion(event)
    requires entry.callback.script == [] && FreshIn(w, entry.callback.id)
    ensures Agree(w, Appended(w', e, event, entry), entry.callback.id, (e, event))
  {
    var x := entry.callback.id;
    var r := Appended(w', e, event, entry);
    SetListFacts(Log1(w', Added(e, event, entry.runOnce, x)), e, event, List(w', e, event) + [entry]);
    WithoutIdAppend(List(w, e, event), [entry], x);
    assert CleanList([entry], x) && WithoutId([entry], x) == [];
    forall e': nat, event'
      ensures ListsAgree(w, r, x, (e, event), e', event')
    {
      assert CleanList(List(w, e', event'), x);
    }
  }

  // What taking the listener out does, given that the listeners told of it only observe.
  lemma RemovalAgrees(fuel: nat, a: World, b: World, x: int, e: nat, event: string)
    requires Agree(a, b, x, (e, event)) && e < |a.emitters| && !IsCompanion(event) && fuel > 0
    requires (e, event) !in b.active
    requires Quiet(List(b, e, LISTENER_REMOVED)) && -128 <= b.emitters[e].depth <= 127
    ensures var r := RemoveSpec(fuel, b, e, event, x);
      if CanRollBack(b, e, event, x) then
        r.outcome.Done? && SameLists(a, r.world)
      else
        r.outcome == Threw(TooDeep) && SameLists(b, r.world)
  {
    var times := |WithId(List(b, e, event), x)|;
    QuietAnnounceLoop(fuel, b, e, event, times);
    var r := AnnounceLoopSpec(fuel, b, e, event, times);
    if r.outcome.Done? {
      DiscardedIsAlone(a, b, r.world, x, e, event);
    }
  }

  lemma DiscardedIsAlone(a: World, b: World, b': World, x: int, e: nat, event: string)
    requires Agree(a, b, x, (e, event)) && e < |a.emitters| && |b'.emitters| == |b.emitters|
    requires SameLists(b, b')
    ensures SameLists(a, Discarded(b', e, event, x))
  {
    var list := List(b', e, event);
    SetListFacts(Log1(b', Dropped(e, event, WithId(list, x))), e, event, WithoutId(list, x));
    forall e': nat, event'
      ensures List(Discarded(b', e, event, x), e', event') == List(a, e', event')
    {
      assert ListsAgree(a, b, x, (e, event), e', event');
    }
  }

  lemma RefusedAnnounce(fuel: nat, w: World, e: nat, times: nat)
    requires e < |w.emitters| && Up(w.emitters[e].depth) > MAX_EMIT_DEPTH && times > 0
    ensures var r := AnnounceSpec(fuel, w, e, times); r.outcome == Threw(TooDeep) && SameLists(w, r.world)
  {
    SetDepthLists(w, e, Up(w.emitters[e].depth));
  }

  lemma QuietAnnounceLoop(fuel: nat, w: World, e: nat, event: string, times: nat)
    requires NoCompanionKeys(w) && e < |w.emitters| && !IsCompanion(event) && fuel > 0
    requires Quiet(List(w, e, LISTENER_REMOVED)) && -128 <= w.emitters[e].depth <= 127
    ensures var r := AnnounceLoopSpec(fuel, w, e, event, times);
      && SameLists(w, r.world)
      && r.outcome == if times == 0 || Up(w.emitters[e].depth) <= MAX_EMIT_DEPTH then Done else Threw(TooDeep)
  {
    var w0 := SetList(w, e, event, List(w, e, event));
    LookupKeepsTables(w, e, event);
    if Up(w.emitters[e].depth) <= MAX_EMIT_DEPTH {
      QuietAnnounce(fuel, Enter(w0, e, event), e, times);
    } else if times > 0 {
      RefusedAnnounce(fuel, Enter(w0, e, event), e, times);
    }
    assert SameLists(w0, Enter(w0, e, event));
    assert AnnounceLoopSpec(fuel, w, e, event, times).world.emitters
      == AnnounceSpec(fuel, Enter(w0, e, event), e, times).world.emitters;
  }

  /** When the action throws, the listener tables are left exactly as the action alone would have left
      them if the temporary listener can be taken out. It cannot if the throw left the emitter's own
      depth counter at the limit: then a second exception replaces the first and the listener stays. */
  lemma RollbackUndoesTheListener(fuel: nat, w: World, e: nat, event: string, entry: Entry, action: seq<Action>)
    requires NoCompanionKeys(w) && !IsCompanion(event) && e < |w.emitters| && fuel > 0
    requires entry.callback.id != -1 && entry.callback.script == []
    requires FreshIn(w, entry.callback.id) && CleanScript(action, entry.callback.id)
    requires Quiet(List(w, e, LISTENER_ADDED)) && -128 <= w.emitters[e].depth < MAX_EMIT_DEPTH
    requires AddSpec(fuel, w, e, event, entry).outcome.Done?
    requires var thrown := RunSpec(fuel, AddSpec(fuel, w, e, event, entry).world, action);
      && thrown.outcome.Threw? && thrown.outcome != Threw(TooMany)
      && Quiet(List(thrown.world, e, LISTENER_REMOVED)) && -128 <= thrown.world.emitters[e].depth <= 127
    ensures var thrown := RunSpec(fuel, AddSpec(fuel, w, e, event, entry).world, action);
      var alone := RunSpec(fuel, w, action);
      var r := RollbackSpec(fuel, w, e, event, entry, action);
      && alone.outcome == thrown.outcome
      && (if CanRollBack(thrown.world, e, event, entry.callback.id) then
            r.outcome == alone.outcome && SameLists(alone.world, r.world)
          else
            r.outcome == Threw(TooDeep) && WithId(List(r.world, e, event), entry.callback.id) != [])
  {
    var x := entry.callback.id;
    var added := AddSpec(fuel, w, e, event, entry);
    AddedAgrees(fuel, w, e, event, entry);
    RunAgrees(fuel, w, added.world, x, (e, event), action);
    var thrown := RunSpec(fuel, added.world, action);
    RemovalAgrees(fuel, RunSpec(fuel, w, action).world, thrown.world, x, e, event);
  }
}
