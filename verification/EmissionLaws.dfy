/** What every emission keeps, whatever graph delegate_to has built: it terminates, restores every
    depth counter or throws, never changes a list that is being iterated over, calls exactly the
    listeners of the list in order, and accounts for every registration. One induction over the call
    tree proves all of it; the theorems at the end read the parts off. */
module EmissionLaws {
  import opened Emitters

  // ------------------------------------------------------------------------------------------
  // Worlds without "_selfdestruct" companions

  predicate IsCompanion(event: string) {
    |SELF_DESTRUCT| <= |event| && event[|event| - |SELF_DESTRUCT|..] == SELF_DESTRUCT
  }

  // No action of the script, nor of a callback it adds, names a companion event.
  predicate PlainScript(script: seq<Action>) {
    forall i :: 0 <= i < |script| ==> PlainAction(script[i])
  }

  predicate PlainAction(action: Action) {
    match action
    case Emit(_, event) => !IsCompanion(event)
    case Add(_, event, _, callback) => !IsCompanion(event) && PlainScript(callback.script)
    case Remove(_, event, _) => !IsCompanion(event)
    case RemoveAll(_, event) => !IsCompanion(event)
    case Raise => true
  }

  predicate PlainList(list: seq<Entry>) {
    forall i :: 0 <= i < |list| ==> PlainScript(list[i].callback.script)
  }

  predicate PlainEmitter(emitter: Emitter) {
    forall event <- emitter.listeners :: !IsCompanion(event) && PlainList(emitter.listeners[event])
  }

  predicate PlainWorld(w: World) {
    forall i :: 0 <= i < |w.emitters| ==> PlainEmitter(w.emitters[i])
  }

  // ------------------------------------------------------------------------------------------
  // Depth budget

  function Depths(w: World): seq<int> {
    seq(|w.emitters|, i requires 0 <= i < |w.emitters| => w.emitters[i].depth)
  }

  predicate DepthOk(w: World) {
    forall i :: 0 <= i < |w.emitters| ==> -128 <= w.emitters[i].depth <= MAX_EMIT_DEPTH
  }

  predicate Overflowed(w: World) {
    exists i :: 0 <= i < |w.emitters| && w.emitters[i].depth == MAX_EMIT_DEPTH + 1
  }

  function Slack(depths: seq<int>): nat {
    if depths == [] then 0
    else (if depths[0] < MAX_EMIT_DEPTH then MAX_EMIT_DEPTH - depths[0] else 0) + Slack(depths[1..])
  }

  // How many more emissions can be nested inside one another before one of them throws.
  function Budget(w: World): nat {
    Slack(Depths(w))
  }

  lemma {:induction false} SlackStep(depths: seq<int>, i: nat)
    requires i < |depths| && depths[i] < MAX_EMIT_DEPTH
    ensures Slack(depths[i := depths[i] + 1]) == Slack(depths) - 1
  {
    if i == 0 {
      assert depths[i := depths[i] + 1][1..] == depths[1..];
    } else {
      assert depths[i := depths[i] + 1][1..] == depths[1..][i - 1 := depths[i] + 1];
      SlackStep(depths[1..], i - 1);
    }
  }

  lemma BudgetStep(w: World, e: nat)
    requires e < |w.emitters| && w.emitters[e].depth < MAX_EMIT_DEPTH
    ensures Budget(SetDepth(w, e, w.emitters[e].depth + 1)) == Budget(w) - 1
  {
    assert Depths(SetDepth(w, e, w.emitters[e].depth + 1)) == Depths(w)[e := w.emitters[e].depth + 1];
    SlackStep(Depths(w), e);
  }

  // ------------------------------------------------------------------------------------------
  // Accounting for registrations: what a Focus counts are the entries of one list with one id

  datatype Focus = Focus(e: nat, event: string, id: int, runOnce: bool)

  predicate Counts(f: Focus, entry: Entry) {
    entry.callback.id == f.id && entry.runOnce == f.runOnce
  }

  function Count(list: seq<Entry>, f: Focus): nat {
    if list == [] then 0 else (if Counts(f, list[0]) then 1 else 0) + Count(list[1..], f)
  }

  function Registered(w: World, f: Focus): nat {
    Count(List(w, f.e, f.event), f)
  }

  // Registrations added, less those erased by remove_listener or remove_all_listeners.
  function Net(log: Log, f: Focus): int {
    match log
    case Nothing => 0
    case Then(earlier, Added(e, event, runOnce, id)) =>
      Net(earlier, f) + (if Focus(e, event, id, runOnce) == f then 1 else 0)
    case Then(earlier, Dropped(e, event, entries)) =>
      Net(earlier, f) - (if e == f.e && event == f.event then Count(entries, f) else 0)
    case Then(earlier, _) => Net(earlier, f)
  }

  function Fires(log: Log, f: Focus): nat {
    match log
    case Nothing => 0
    case Then(earlier, Fired(e, event, runOnce, id, _)) =>
      Fires(earlier, f) + (if Focus(e, event, id, runOnce) == f then 1 else 0)
    case Then(earlier, _) => Fires(earlier, f)
  }

  // A run-once registration is used up by a call; a persistent one is not.
  function Balance(w: World, f: Focus): int {
    Registered(w, f) - Net(w.log, f) + (if f.runOnce then Fires(w.log, f) else 0)
  }

  // The ids called by loops at one nesting level, in order.
  function Calls(log: Log, level: nat): seq<int> {
    match log
    case Nothing => []
    case Then(earlier, Fired(_, _, _, id, l)) => Calls(earlier, level) + (if l == level then [id] else [])
    case Then(earlier, _) => Calls(earlier, level)
  }

  lemma {:induction false} CountAppend(a: seq<Entry>, b: seq<Entry>, f: Focus)
    ensures Count(a + b, f) == Count(a, f) + Count(b, f)
  {
    if a == [] {
      assert a + b == b;
    } else {
      assert (a + b)[1..] == a[1..] + b;
      CountAppend(a[1..], b, f);
    }
  }

  lemma {:induction false} CountPersistent(list: seq<Entry>, f: Focus)
    ensures Count(Persistent(list), f) == if f.runOnce then 0 else Count(list, f)
    ensures Persistent(list) == list && f.runOnce ==> Count(list, f) == 0
  {
    if list != [] {
      CountPersistent(list[1..], f);
      assert ([list[0]] + Persistent(list[1..]))[1..] == Persistent(list[1..]);
    }
  }

  lemma {:induction false} CountSplit(list: seq<Entry>, id: int, f: Focus)
    ensures Count(WithId(list, id), f) + Count(WithoutId(list, id), f) == Count(list, f)
  {
    if list != [] {
      CountSplit(list[1..], id, f);
      assert ([list[0]] + WithId(list[1..], id))[1..] == WithId(list[1..], id);
      assert ([list[0]] + WithoutId(list[1..], id))[1..] == WithoutId(list[1..], id);
    }
  }

  lemma {:induction false} PlainSublists(list: seq<Entry>, id: int)
    requires PlainList(list)
    ensures PlainList(Persistent(list)) && PlainList(WithoutId(list, id))
  {
    if list != [] {
      assert PlainScript(list[0].callback.script);
      assert forall i :: 0 <= i < |list[1..]| ==> list[1..][i] == list[i + 1];
      PlainSublists(list[1..], id);
    }
  }

  lemma {:induction false} NothingRemoved(list: seq<Entry>, id: int)
    requires WithId(list, id) == []
    ensures WithoutId(list, id) == list
  {
    if list != [] {
      NothingRemoved(list[1..], id);
    }
  }

  // ------------------------------------------------------------------------------------------
  // The induction

  predicate Ready(w: World) {
    PlainWorld(w) && DepthOk(w)
  }

  // What running anything from w to r keeps, seen from one focus and one nesting level.
  predicate Keeps(w: World, r: Result, f: Focus, level: nat) {
    && Stable(w, r, f, level)
    && (r.outcome.Done? ==> Depths(r.world) == Depths(w) && Balance(r.world, f) == Balance(w, f))
  }

  predicate Stable(w: World, r: Result, f: Focus, level: nat) {
    && PlainWorld(r.world)
    && (if r.outcome == Threw(TooDeep) then Overflowed(r.world) else DepthOk(r.world))
    && Freezes(w, r, f)
    && (level <= |w.active| ==> Calls(r.world.log, level) == Calls(w.log, level))
    && (f.runOnce ==> Balance(w, f) <= Balance(r.world, f))
  }

  predicate Freezes(w: World, r: Result, f: Focus) {
    (f.e, f.event) in w.active && !r.outcome.Undefined? ==> List(r.world, f.e, f.event) == List(w, f.e, f.event)
  }

  // Storing a list back, as the source's operator[] lookups do, touches no counter and no other list.
  lemma SetListFacts(w: World, e: nat, event: string, list: seq<Entry>)
    requires e < |w.emitters|
    ensures forall e', event' ::
      List(SetList(w, e, event, list), e', event') == if e' == e && event' == event then list else List(w, e', event')
    ensures Depths(SetList(w, e, event, list)) == Depths(w)
    ensures PlainWorld(w) && PlainList(list) && !IsCompanion(event) ==> PlainWorld(SetList(w, e, event, list))
    ensures DepthOk(w) ==> DepthOk(SetList(w, e, event, list))
  {
  }

  ghost predicate SameLists(w: World, w': World) {
    forall e: nat, event :: List(w', e, event) == List(w, e, event)
  }

  lemma SetDepthLists(w: World, e: nat, depth: int)
    requires e < |w.emitters|
    ensures SameLists(w, SetDepth(w, e, depth))
  {
  }

  lemma ListsArePlain(w: World, e: nat, event: string)
    requires PlainWorld(w)
    ensures PlainList(List(w, e, event))
  {
  }

  // Calls made but not yet paid for: run-once entries are erased only when the loop is over.
  function UsedUp(e: nat, event: string, entries: seq<Entry>, f: Focus): nat {
    if f.runOnce && f.e == e && f.event == event then Count(entries, f) else 0
  }

  lemma LoopEndFacts(w: World, e: nat, event: string, f: Focus)
    requires Ready(w) && e < |w.emitters| && !IsCompanion(event) && -127 <= w.emitters[e].depth
    ensures var r := LoopEnd(w, e, event);
      && Ready(r)
      && Depths(r) == Depths(w)[e := w.emitters[e].depth - 1]
      && List(r, e, event) == Persistent(List(w, e, event))
      && ((f.e, f.event) != (e, event) ==> List(r, f.e, f.event) == List(w, f.e, f.event))
      && Balance(r, f) + UsedUp(e, event, List(w, e, event), f) == Balance(w, f)
  {
    var list := List(w, e, event);
    ListsArePlain(w, e, event);
    PlainSublists(list, 0);
    CountPersistent(list, f);
    SetListFacts(w, e, event, Persistent(list));
    var w2 := SetList(w, e, event, Persistent(list));
    assert w2.emitters[e].depth == w.emitters[e].depth;
    assert Depths(LoopEnd(w, e, event)) == Depths(w)[e := w.emitters[e].depth - 1];
  }

  lemma AppendedFacts(w: World, e: nat, event: string, entry: Entry, f: Focus)
    requires Ready(w) && e < |w.emitters| && !IsCompanion(event) && PlainScript(entry.callback.script)
    ensures var r := Appended(w, e, event, entry);
      && Ready(r)
      && Depths(r) == Depths(w)
      && ((f.e, f.event) != (e, event) ==> List(r, f.e, f.event) == List(w, f.e, f.event))
      && Balance(r, f) == Balance(w, f)
  {
    ListsArePlain(w, e, event);
    var list := List(w, e, event);
    SetListFacts(Log1(w, Added(e, event, entry.runOnce, entry.callback.id)), e, event, list + [entry]);
    CountAppend(list, [entry], f);
    assert Count([entry], f) == if Counts(f, entry) then 1 else 0;
  }

  lemma DiscardedFacts(w: World, e: nat, event: string, id: int, f: Focus)
    requires Ready(w) && e < |w.emitters| && !IsCompanion(event)
    ensures var r := Discarded(w, e, event, id);
      && Ready(r)
      && Depths(r) == Depths(w)
      && ((f.e, f.event) != (e, event) || WithId(List(w, e, event), id) == []
          ==> List(r, f.e, f.event) == List(w, f.e, f.event))
      && Balance(r, f) == Balance(w, f)
  {
    ListsArePlain(w, e, event);
    var list := List(w, e, event);
    PlainSublists(list, id);
    CountSplit(list, id, f);
    SetListFacts(Log1(w, Dropped(e, event, WithId(list, id))), e, event, WithoutId(list, id));
    if WithId(list, id) == [] {
      NothingRemoved(list, id);
    }
  }

  lemma RaisedDepthFacts(w: World, e: nat, f: Focus)
    requires Ready(w) && e < |w.emitters| && w.emitters[e].depth < MAX_EMIT_DEPTH
    ensures var w1 := SetDepth(w, e, w.emitters[e].depth + 1);
      && Ready(w1)
      && Depths(w) == Depths(w1)[e := w1.emitters[e].depth - 1]
      && Budget(w1) == Budget(w) - 1
      && List(w1, f.e, f.event) == List(w, f.e, f.event)
  {
    BudgetStep(w, e);
    var w1 := SetDepth(w, e, w.emitters[e].depth + 1);
    assert Depths(w) == Depths(w1)[e := w1.emitters[e].depth - 1];
  }

  lemma EmitKeeps(fuel: nat, w: World, e: nat, event: string, f: Focus, level: nat)
    requires Ready(w) && !IsCompanion(event) && f.id != -1
    ensures Keeps(w, EmitSpec(fuel, w, e, event), f, level)
    ensures fuel >= Budget(w) ==> !EmitSpec(fuel, w, e, event).outcome.OutOfFuel?
    decreases fuel, 0, 0
  {
    if e < |w.emitters| && event != "" {
      var w1 := SetDepth(w, e, w.emitters[e].depth + 1);
      if w.emitters[e].depth == MAX_EMIT_DEPTH {
        assert EmitSpec(fuel, w, e, event) == Result(Threw(TooDeep), w1);
        assert w1.emitters[e].depth == MAX_EMIT_DEPTH + 1;
      } else {
        RaisedDepthFacts(w, e, f);
        if fuel == 0 {
          assert EmitSpec(fuel, w, e, event) == Result(OutOfFuel, w1);
        } else {
          ImplKeeps(fuel - 1, w1, e, event, f, level);
          assert EmitSpec(fuel, w, e, event) == EmitImplSpec(fuel - 1, w1, e, event);
        }
      }
    }
  }

  // emit_impl is entered with the depth already raised and lowers it on the way out.
  lemma ImplKeeps(fuel: nat, w: World, e: nat, event: string, f: Focus, level: nat)
    requires Ready(w) && !IsCompanion(event) && f.id != -1
    requires e < |w.emitters| && -127 <= w.emitters[e].depth
    ensures var r := EmitImplSpec(fuel, w, e, event);
      && Stable(w, r, f, level)
      && (r.outcome.Done? ==> Depths(r.world) == Depths(w)[e := w.emitters[e].depth - 1])
      && (r.outcome.Done? ==> Balance(r.world, f) == Balance(w, f))
      && (r.outcome.Done? ==> List(r.world, e, event) == Persistent(List(w, e, event)))
      && (r.outcome.Done? && level == |w.active| + 1
          ==> Calls(r.world.log, level) == Calls(w.log, level) + Ids(List(w, e, event)))
      && (fuel >= Budget(w) ==> !r.outcome.OutOfFuel?)
    decreases fuel, 7, 0
  {
    LoopKeeps(fuel, w, e, event, f, level);
    var r := LoopSpec(fuel, w, e, event);
    if r.outcome.Done? {
      assert r.world.emitters[e].depth == Depths(r.world)[e] == Depths(w)[e];
      LoopEndFacts(r.world, e, event, f);
    }
  }

  lemma LoopKeeps(fuel: nat, w: World, e: nat, event: string, f: Focus, level: nat)
    requires Ready(w) && !IsCompanion(event) && f.id != -1 && e < |w.emitters|
    ensures var r := LoopSpec(fuel, w, e, event);
      && |r.world.emitters| == |w.emitters|
      && Stable(w, r, f, level)
      && (r.outcome.Done? ==> Depths(r.world) == Depths(w))
      && (r.outcome.Done? ==> List(r.world, e, event) == List(w, e, event))
      && (r.outcome.Done? ==> Balance(r.world, f) == Balance(w, f) + UsedUp(e, event, List(w, e, event), f))
      && (r.outcome.Done? && level == |w.active| + 1
          ==> Calls(r.world.log, level) == Calls(w.log, level) + Ids(List(w, e, event)))
      && (fuel >= Budget(w) ==> !r.outcome.OutOfFuel?)
    decreases fuel, 6, 0
  {
    var list := List(w, e, event);
    ListsArePlain(w, e, event);
    LookedUpFacts(w, e, event, f);
    LookedUpFacts(w, e, event, f.(e := e, event := event));
    var inner := Enter(SetList(w, e, event, list), e, event);
    assert |inner.active| == |w.active| + 1;
    DispatchKeeps(fuel, inner, e, event, list, f, level);
    DispatchKeeps(fuel, inner, e, event, list, f.(e := e, event := event), level);
  }

  predicate DispatchKept(w: World, r: Result, e: nat, event: string, entries: seq<Entry>, f: Focus, level: nat) {
    && Stable(w, r, f, if level == |w.active| then level + 1 else level)
    && (r.outcome.Done? ==>
      && Depths(r.world) == Depths(w)
      && Balance(r.world, f) == Balance(w, f) + UsedUp(e, event, entries, f)
      && (level == |w.active| ==> Calls(r.world.log, level) == Calls(w.log, level) + Ids(entries)))
  }

  // One call of the loop, then the rest of the loop.
  lemma DispatchStep(w: World, mid: World, r: Result, e: nat, event: string, entries: seq<Entry>, f: Focus, level: nat)
    requires entries != [] && entries[0].callback.id != -1 && mid.active == w.active
    requires Keeps(Called(w, e, event, entries[0]), Result(Done, mid), f, level)
    requires DispatchKept(mid, r, e, event, entries[1..], f, level)
    ensures DispatchKept(w, r, e, event, entries, f, level)
  {
    var w1 := Called(w, e, event, entries[0]);
    assert Depths(w1) == Depths(w) && List(w1, f.e, f.event) == List(w, f.e, f.event);
    if r.outcome.Done? && level == |w.active| {
      var id := entries[0].callback.id;
      assert Ids(entries) == [id] + Ids(entries[1..]);
      assert Calls(w.log, level) + [id] + Ids(entries[1..]) == Calls(w.log, level) + Ids(entries);
    }
  }

  lemma DispatchKeeps(fuel: nat, w: World, e: nat, event: string, entries: seq<Entry>, f: Focus, level: nat)
    requires Ready(w) && PlainList(entries) && !IsCompanion(event) && f.id != -1 && (e, event) in w.active
    ensures DispatchKept(w, DispatchSpec(fuel, w, e, event, entries), e, event, entries, f, level)
    ensures fuel >= Budget(w) ==> !DispatchSpec(fuel, w, e, event, entries).outcome.OutOfFuel?
    decreases fuel, 5, |entries|
  {
    if entries != [] {
      assert forall i :: 0 <= i < |entries[1..]| ==> entries[1..][i] == entries[i + 1];
      if entries[0].callback.id == -1 {
        DispatchKeeps(fuel, w, e, event, entries[1..], f, level);
      } else {
        var w1 := Called(w, e, event, entries[0]);
        assert Depths(w1) == Depths(w);
        RunKeeps(fuel, w1, entries[0].callback.script, f, level);
        var r := RunSpec(fuel, w1, entries[0].callback.script);
        if r.outcome.Done? {
          DispatchKeeps(fuel, r.world, e, event, entries[1..], f, level);
          DispatchStep(w, r.world, DispatchSpec(fuel, r.world, e, event, entries[1..]), e, event, entries, f, level);
        } else {
          assert List(w1, f.e, f.event) == List(w, f.e, f.event);
        }
      }
    }
  }

  lemma RunKeeps(fuel: nat, w: World, script: seq<Action>, f: Focus, level: nat)
    requires Ready(w) && PlainScript(script) && f.id != -1
    ensures Keeps(w, RunSpec(fuel, w, script), f, level)
    ensures fuel >= Budget(w) ==> !RunSpec(fuel, w, script).outcome.OutOfFuel?
    decreases fuel, 4, |script|
  {
    if script != [] {
      ActKeeps(fuel, w, script[0], f, level);
      var r := ActSpec(fuel, w, script[0]);
      if r.outcome.Done? {
        assert forall i :: 0 <= i < |script[1..]| ==> script[1..][i] == script[i + 1];
        RunKeeps(fuel, r.world, script[1..], f, level);
      }
    }
  }

  lemma ActKeeps(fuel: nat, w: World, action: Action, f: Focus, level: nat)
    requires Ready(w) && PlainAction(action) && f.id != -1
    ensures Keeps(w, ActSpec(fuel, w, action), f, level)
    ensures fuel >= Budget(w) ==> !ActSpec(fuel, w, action).outcome.OutOfFuel?
    decreases fuel, 3, 0
  {
    match action {
      case Raise =>
      case Emit(e, event) =>
        EmitKeeps(fuel, w, e, event, f, level);
      case Add(e, event, runOnce, callback) =>
        AddKeeps(fuel, w, e, event, Entry(runOnce, callback), f, level);
      case Remove(e, event, id) =>
        RemoveKeeps(fuel, w, e, event, id, f, level);
      case RemoveAll(e, event) =>
        if e < |w.emitters| {
          SetListFacts(Log1(w, Dropped(e, event, List(w, e, event))), e, event, []);
        }
    }
  }

  lemma AddKeeps(fuel: nat, w: World, e: nat, event: string, entry: Entry, f: Focus, level: nat)
    requires Ready(w) && !IsCompanion(event) && PlainScript(entry.callback.script) && f.id != -1
    ensures Keeps(w, AddSpec(fuel, w, e, event, entry), f, level)
    ensures fuel >= Budget(w) ==> !AddSpec(fuel, w, e, event, entry).outcome.OutOfFuel?
    decreases fuel, 1, 0
  {
    if e < |w.emitters| && event != "" {
      LookedUpFacts(w, e, event, f);
      var w0 := SetList(w, e, event, List(w, e, event));
      EmitKeeps(fuel, w0, e, LISTENER_ADDED, f, level);
      var r := if event == "newListener" then Result(Done, w0) else EmitSpec(fuel, w0, e, LISTENER_ADDED);
      KeepsAfterLookup(w, w0, r, f, level);
      if r.outcome.Done? && (e, event) !in w.active {
        AppendedFacts(r.world, e, event, entry, f);
      }
    }
  }

  lemma KeepsAfterLookup(w: World, w0: World, r: Result, f: Focus, level: nat)
    requires Keeps(w0, r, f, level) && Depths(w0) == Depths(w) && w0.active == w.active && w0.log == w.log
    requires List(w0, f.e, f.event) == List(w, f.e, f.event)
    ensures Keeps(w, r, f, level)
  {
  }

  // Looking an event up may create its key, and changes nothing else.
  lemma LookedUpFacts(w: World, e: nat, event: string, f: Focus)
    requires Ready(w) && e < |w.emitters| && !IsCompanion(event)
    ensures var w0 := SetList(w, e, event, List(w, e, event));
      Ready(w0) && Depths(w0) == Depths(w) && List(w0, f.e, f.event) == List(w, f.e, f.event)
  {
    ListsArePlain(w, e, event);
    SetListFacts(w, e, event, List(w, e, event));
  }

  lemma RemoveKeeps(fuel: nat, w: World, e: nat, event: string, id: int, f: Focus, level: nat)
    requires Ready(w) && !IsCompanion(event) && f.id != -1
    ensures Keeps(w, RemoveSpec(fuel, w, e, event, id), f, level)
    ensures fuel >= Budget(w) ==> !RemoveSpec(fuel, w, e, event, id).outcome.OutOfFuel?
    decreases fuel, 2, 0
  {
    if e < |w.emitters| {
      var matched := WithId(List(w, e, event), id);
      AnnounceLoopKeeps(fuel, w, e, event, |matched|, f, level);
      var r := AnnounceLoopSpec(fuel, w, e, event, |matched|);
      if r.outcome.Done? {
        DiscardedFacts(r.world, e, event, id, f);
      }
    }
  }

  lemma AnnounceLoopKeeps(fuel: nat, w: World, e: nat, event: string, times: nat, f: Focus, level: nat)
    requires Ready(w) && e < |w.emitters| && !IsCompanion(event) && f.id != -1
    ensures var r := AnnounceLoopSpec(fuel, w, e, event, times);
      && Keeps(w, r, f, level)
      && (r.outcome.Done? ==> List(r.world, e, event) == List(w, e, event))
      && (fuel >= Budget(w) ==> !r.outcome.OutOfFuel?)
    decreases fuel, 1, times + 1
  {
    LookedUpFacts(w, e, event, f);
    LookedUpFacts(w, e, event, f.(e := e, event := event));
    var inner := Enter(SetList(w, e, event, List(w, e, event)), e, event);
    assert |inner.active| == |w.active| + 1 && Depths(inner) == Depths(w);
    AnnounceKeeps(fuel, inner, e, times, f, level);
    AnnounceKeeps(fuel, inner, e, times, f.(e := e, event := event), level);
  }

  lemma AnnounceKeeps(fuel: nat, w: World, e: nat, times: nat, f: Focus, level: nat)
    requires Ready(w) && f.id != -1
    ensures Keeps(w, AnnounceSpec(fuel, w, e, times), f, level)
    ensures fuel >= Budget(w) ==> !AnnounceSpec(fuel, w, e, times).outcome.OutOfFuel?
    decreases fuel, 1, times
  {
    if times > 0 {
      EmitKeeps(fuel, w, e, LISTENER_REMOVED, f, level);
      var r := EmitSpec(fuel, w, e, LISTENER_REMOVED);
      if r.outcome.Done? {
        AnnounceKeeps(fuel, r.world, e, times - 1, f, level);
      }
    }
  }

  // ------------------------------------------------------------------------------------------
  // Theorems

  /** On any delegation graph, cycles included: emission ends, with every depth restored unless it
      throws, and it throws for nesting exactly when some emitter's depth has reached 101. */
  lemma EmissionTerminates(fuel: nat, w: World, e: nat, event: string)
    requires Ready(w) && !IsCompanion(event) && fuel >= Budget(w)
    ensures var r := EmitSpec(fuel, w, e, event);
      && (r.outcome.Done? || r.outcome.Threw? || r.outcome.Undefined?)
      && (r.outcome.Done? ==> Depths(r.world) == Depths(w))
      && (r.outcome == Threw(TooDeep) <==> Overflowed(r.world))
  {
    EmitKeeps(fuel, w, e, event, Focus(0, "", 0, false), 0);
  }

  // From rest, nesting is bounded by a hundred emissions an emitter.
  lemma {:induction false} BudgetAtRest(depths: seq<int>)
    requires forall i :: 0 <= i < |depths| ==> depths[i] == 0
    ensures Slack(depths) == MAX_EMIT_DEPTH * |depths|
  {
    if depths != [] {
      BudgetAtRest(depths[1..]);
    }
  }

  /** A completed emission calls exactly the listeners registered when it started, in registration
      order, and leaves exactly the persistent ones, in order. */
  lemma EmissionCallsTheListeners(fuel: nat, w: World, e: nat, event: string)
    requires Ready(w) && !IsCompanion(event) && event != "" && e < |w.emitters|
    requires EmitSpec(fuel, w, e, event).outcome.Done?
    ensures var r := EmitSpec(fuel, w, e, event).world;
      && Calls(r.log, |w.active| + 1) == Calls(w.log, |w.active| + 1) + Ids(List(w, e, event))
      && List(r, e, event) == Persistent(List(w, e, event))
  {
    var w1 := SetDepth(w, e, Up(w.emitters[e].depth));
    ImplKeeps(fuel - 1, w1, e, event, Focus(0, "", 0, false), |w.active| + 1);
  }

  /** No defined run, completed or not, changes a list that a caller is iterating over. */
  lemma IteratedListsAreFrozen(fuel: nat, w: World, script: seq<Action>, e: nat, event: string)
    requires Ready(w) && PlainScript(script) && (e, event) in w.active
    requires !RunSpec(fuel, w, script).outcome.Undefined?
    ensures List(RunSpec(fuel, w, script).world, e, event) == List(w, e, event)
  {
    RunKeeps(fuel, w, script, Focus(e, event, 0, false), 0);
  }

  /** Conservation over a whole completed run: every run-once registration is still there, was erased by
      a removal, or was called, once; persistent registrations are unaffected by calls. */
  lemma RegistrationsAreAccountedFor(fuel: nat, w: World, script: seq<Action>, f: Focus)
    requires Ready(w) && PlainScript(script) && f.id != -1
    requires RunSpec(fuel, w, script).outcome.Done?
    ensures var r := RunSpec(fuel, w, script).world;
      Registered(r, f) == Registered(w, f) + (Net(r.log, f) - Net(w.log, f))
                          - (if f.runOnce then Fires(r.log, f) - Fires(w.log, f) else 0)
  {
    RunKeeps(fuel, w, script, f, 0);
  }

  /** In a run that returns, a run-once listener registered once and never added again fires at most once,
      even if listeners emit its event; unless it was removed, it fired exactly if it is gone. */
  lemma ReturningRunsFireOnce(fuel: nat, w: World, script: seq<Action>, f: Focus)
    requires Ready(w) && PlainScript(script) && f.id != -1 && f.runOnce && Registered(w, f) == 1
    requires RunSpec(fuel, w, script).outcome.Done?
    requires Net(RunSpec(fuel, w, script).world.log, f) <= Net(w.log, f)
    ensures var r := RunSpec(fuel, w, script).world;
      && Fires(r.log, f) <= Fires(w.log, f) + 1
      && (Net(r.log, f) == Net(w.log, f) ==> (Fires(r.log, f) == Fires(w.log, f) + 1 <==> Registered(r, f) == 0))
  {
    RunKeeps(fuel, w, script, f, 0);
  }

  lemma EmissionUsesUpRunOnce(fuel: nat, w: World, f: Focus)
    requires Ready(w) && f.id != -1 && f.runOnce && f.e < |w.emitters| && f.event != "" && !IsCompanion(f.event)
    requires EmitSpec(fuel, w, f.e, f.event).outcome.Done?
    ensures var r := EmitSpec(fuel, w, f.e, f.event).world;
      Registered(r, f) == 0 && Fires(r.log, f) == Fires(w.log, f) + Registered(w, f) + Net(r.log, f) - Net(w.log, f)
  {
    EmitKeeps(fuel, w, f.e, f.event, f, 0);
    EmissionCallsTheListeners(fuel, w, f.e, f.event);
    CountPersistent(List(w, f.e, f.event), f);
  }
}
