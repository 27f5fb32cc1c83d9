/** What the socket stream keeps: received bytes, write accounting, the end of the wire. */
module StreamLaws {
  import opened Wrappers
  import Emitters
  import Semaphores
  import opened SocketStream

  // ------------------------------------------------------------------------------------------
  // What every script keeps

  // Reading is all that scripts can do to the receiving side.
  predicate InputFollows(a: Input, b: Input) {
    b == a || b == ReadAll(a)
  }

  predicate OutputFollows(a: Output, b: Output) {
    b == a || (b.pending - |b.inFlight| == a.pending - |a.inFlight| && |b.inFlight| >= |a.inFlight|)
  }

  predicate FlagsFollow(s: Stream, t: Stream) {
    && (s.end ==> t.end && t.output == s.output)
    && (s.closed ==> t.closed) && ((s.closed ==> s.end) ==> (t.closed ==> t.end))
    && t.spare == s.spare && (t.held ==> s.held) && t.reading == s.reading
  }

  predicate Follows(s: Stream, t: Stream) {
    InputFollows(s.input, t.input) && OutputFollows(s.output, t.output) && FlagsFollow(s, t)
  }

  // The list being iterated over cannot change, other lists may.
  predicate ListsFollow(a: Lists, b: Lists, within: Option<Event>) {
    b.maxListeners == a.maxListeners && (within.Some? ==> ListOf(b, within.value) == ListOf(a, within.value))
  }

  lemma OtherListsStay(lists: Lists, event: Event, ls: seq<Listener>, within: Option<Event>)
    requires within != Some(event)
    ensures ListsFollow(lists, WithList(lists, event, ls), within)
  {
    match event
    case DataReceived =>
    case WriteCompletion =>
    case _ =>
  }

  // Adding and removing listeners touches nothing but the emitter.
  lemma ListenFollows(s: Stream, event: Event, l: Listener, within: Option<Event>)
    ensures var t := ListenSpec(s, event, l, within).s;
      t == s.(hub := t.hub) && t.hub.log == s.hub.log && ListsFollow(s.hub.lists, t.hub.lists, within)
  {
    if within != Some(event) {
      OtherListsStay(s.hub.lists, event, ListOf(s.hub.lists, event) + [l], within);
    }
  }

  lemma UnlistenFollows(s: Stream, event: Event, id: int, within: Option<Event>)
    ensures var t := UnlistenSpec(s, event, id, within).s;
      t == s.(hub := t.hub) && t.hub.log == s.hub.log && ListsFollow(s.hub.lists, t.hub.lists, within)
  {
    if within != Some(event) {
      OtherListsStay(s.hub.lists, event, Without(ListOf(s.hub.lists, event), id), within);
    }
  }

  lemma WriteFollows(s: Stream, data: string, async: bool)
    ensures var t := WriteSpec(s, data, async).s;
      Follows(s, t) && t.hub.lists == s.hub.lists
  {
  }

  lemma CloseFollows(s: Stream, announce: bool)
    ensures var t := CloseSpec(s, announce).s;
      Follows(s, t) && t.hub.lists == s.hub.lists
  {
  }

  lemma ActFollows(s: Stream, act: Act, within: Option<Event>)
    ensures var t := ActSpec(s, act, within).s;
      Follows(s, t) && ListsFollow(s.hub.lists, t.hub.lists, within)
  {
    match act
    case Listen(event, l) => ListenFollows(s, event, l, within);
    case Unlisten(event, id) => UnlistenFollows(s, event, id, within);
    case Write(data, async) => WriteFollows(s, data, async);
    case WriteRange(data, async) => WriteFollows(s, data, async);
    case Close(announce) => CloseFollows(s, announce);
    case _ =>
  }

  lemma {:induction false} RunFollows(s: Stream, script: seq<Act>, within: Option<Event>)
    ensures var t := RunSpec(s, script, within).s; Follows(s, t) && ListsFollow(s.hub.lists, t.hub.lists, within)
    decreases |script|
  {
    if script != [] {
      ActFollows(s, script[0], within);
      RunFollows(ActSpec(s, script[0], within).s, script[1..], within);
    }
  }

  lemma {:induction false} CallFollows(s: Stream, ls: seq<Listener>, event: Event)
    ensures var t := CallSpec(s, ls, event).s; Follows(s, t) && ListsFollow(s.hub.lists, t.hub.lists, Some(event))
    decreases |ls|
  {
    if ls != [] {
      RunFollows(s, ls[0].script, Some(event));
      CallFollows(RunSpec(s, ls[0].script, Some(event)).s, ls[1..], event);
    }
  }

  // Emitting keeps what scripts keep, and leaves the persistent listeners of its own event.
  lemma EmitFollows(s: Stream, event: Event)
    ensures var r := EmitSpec(s, event);
      var list := ListOf(s.hub.lists, event);
      && Follows(s, r.s) && r.s.hub.lists.maxListeners == s.hub.lists.maxListeners
      && ListOf(r.s.hub.lists, event) == (if r.Stopped() then list else Persistent(list))
  {
    if Emittable(s.hub) {
      CallFollows(s.(hub := Entered(s.hub, event)), ListOf(s.hub.lists, event), event);
    }
  }

  lemma CaughtKeeps(r: Ran)
    ensures var t := Caught(r); t == r.s.(hub := t.hub) && t.hub.lists == r.s.hub.lists
  {
  }

  // ------------------------------------------------------------------------------------------
  // Receiving

  predicate Conserved(s: Stream) {
    s.input.handedOut + s.input.buffer == s.input.received && s.input.bytesRead == |s.input.received|
  }

  function Lost(s: Stream): int {
    |s.input.received| - |s.input.handedOut| - |s.input.buffer|
  }

  function Uncounted(s: Stream): int {
    |s.input.received| - s.input.bytesRead
  }

  /** What an arrival needs: the flush of the buffer and the delivery of the chunk return normally, and
      a listener is left for the chunk after the flush. */
  predicate Delivers(s: Stream, chunk: string, err: ReadError) {
    !s.held || err.OtherError? || chunk == "" || s.hub.lists.onData == []
    || Hears(Arrived(s.(reading := false), chunk), chunk)
  }

  predicate Hears(s: Stream, chunk: string) {
    var flushed := FlushSpec(s);
    !flushed.Stopped() && flushed.s.hub.lists.onData != [] && !DeliverSpec(flushed.s, chunk).Stopped()
  }

  function Heard(s: Stream, data: string): string {
    if Emittable(s.hub) && s.hub.lists.onData != [] then data else ""
  }

  lemma DeliverFollows(s: Stream, data: string)
    requires s.input.buffer == ""
    ensures var r := DeliverSpec(s, data);
      && r.s.input == s.input.(handedOut := s.input.handedOut + Heard(s, data))
      && r.s.hub.lists.onData == (if r.Stopped() then s.hub.lists.onData else Persistent(s.hub.lists.onData))
      && (!Emittable(s.hub) ==> r.Stopped())
  {
    var heard := Emittable(s.hub) && s.hub.lists.onData != [];
    assert s.input.handedOut + "" == s.input.handedOut;
    var s1 := if heard then s.(input := s.input.(handedOut := s.input.handedOut + data)) else s;
    EmitFollows(s1, DataReceived);
  }

  lemma FlushFollows(s: Stream)
    requires s.hub.lists.onData != []
    ensures var r := FlushSpec(s);
      && r.s.input.received == s.input.received && r.s.input.bytesRead == s.input.bytesRead && r.s.input.buffer == ""
      && |r.s.input.handedOut| <= |s.input.handedOut| + |s.input.buffer|
      && (!r.Stopped() ==> r.s.input.handedOut == s.input.handedOut + s.input.buffer)
  {
    if s.input.buffer != "" {
      DeliverFollows(s.(input := s.input.(buffer := "")), s.input.buffer);
    } else {
      assert s.input.handedOut + "" == s.input.handedOut;
    }
  }

  // Taking a chunk that was just counted as received.
  lemma TakeChunkConserves(s: Stream, chunk: string)
    requires chunk != "" && s.hub.lists.onData != []
    ensures var r := TakeChunkSpec(s, chunk);
      && r.s.input.received == s.input.received
      && |r.s.input.handedOut| + |r.s.input.buffer| <= |s.input.handedOut| + |s.input.buffer| + |chunk|
      && r.s.input.bytesRead == s.input.bytesRead + (if r.Stopped() then 0 else |chunk|)
      && (Hears(s, chunk) ==>
            !r.Stopped() && r.s.input.handedOut + r.s.input.buffer == s.input.handedOut + s.input.buffer + chunk)
      && (!Hears(s, chunk) ==>
            r.Stopped() || |r.s.input.handedOut| + |r.s.input.buffer|
              < |s.input.handedOut| + |s.input.buffer| + |chunk|)
  {
    FlushFollows(s);
    var flushed := FlushSpec(s);
    if !flushed.Stopped() {
      DeliverFollows(flushed.s, chunk);
      var handed := DeliverSpec(flushed.s, chunk).s.input.handedOut;
      assert handed + "" == handed;
    }
  }

  lemma HearingConserves(s: Stream, chunk: string)
    requires s.hub.lists.onData != [] && chunk != ""
    ensures var s1 := Arrived(s, chunk);
      var t := TakeChunkSpec(s1, chunk).s;
      && Lost(t) >= Lost(s) && Uncounted(t) >= Uncounted(s)
      && (Conserved(s) && Hears(s1, chunk) ==> Conserved(t))
      && (Conserved(s) && !Hears(s1, chunk) ==> Lost(t) > 0 || Uncounted(t) > 0)
  {
    TakeChunkConserves(Arrived(s, chunk), chunk);
  }

  // What an arrival does to the receiving side is what taking its chunk does.
  lemma ArrivalTakes(s: Stream, chunk: string, err: ReadError)
    ensures var s0 := s.(reading := false);
      HandleReadSpec(s, chunk, err).input ==
        if s.held && !err.OtherError? && chunk != "" then TakeChunkSpec(Arrived(s0, chunk), chunk).s.input else s.input
  {
    CaughtKeeps(ReadHandlerSpec(s.(reading := false), chunk, err));
  }

  /** An arrival never recovers a byte, and keeps the books balanced exactly when it delivers. */
  lemma ArrivalConserves(s: Stream, chunk: string, err: ReadError)
    ensures var t := HandleReadSpec(s, chunk, err);
      && Lost(t) >= Lost(s) && Uncounted(t) >= Uncounted(s)
      && (Conserved(s) ==> (Conserved(t) <==> Delivers(s, chunk, err)))
      && (Conserved(s) && !Delivers(s, chunk, err) ==> Lost(t) > 0 || Uncounted(t) > 0)
  {
    var s0 := s.(reading := false);
    ArrivalTakes(s, chunk, err);
    if s.held && !err.OtherError? && chunk != "" && s.hub.lists.onData != [] {
      HearingConserves(s0, chunk);
    }
  }

  lemma CompletedFollows(s: Stream, ok: bool)
    ensures Follows(s, CompletedSpec(s, ok).s)
  {
    EmitFollows(s, WriteCompletion);
  }

  lemma WriteHandlerFollows(s: Stream, ok: bool)
    ensures var t := WriteHandlerSpec(s, ok).s; InputFollows(s.input, t.input)
  {
    CompletedFollows(s, ok);
    EmitFollows(Decremented(CompletedSpec(s, ok).s), AllWritesCompleted);
  }

  lemma HandleWriteFollows(s: Stream, data: string, ok: bool)
    ensures var t := HandleWriteSpec(s, data, ok); InputFollows(s.input, t.input)
  {
    WriteHandlerFollows(Finished(s, data), ok);
    CaughtKeeps(WriteHandlerSpec(Finished(s, data), ok));
  }

  lemma OtherStepsConserve(s: Stream, op: Op)
    requires !op.Arrive?
    ensures InputFollows(s.input, Step(s, op).input)
  {
    match op
    case Complete(data, ok) => HandleWriteFollows(s, data, ok);
    case Do(act) => ActFollows(s, act, None);
  }

  predicate AllDeliver(s: Stream, ops: seq<Op>)
    decreases |ops|
  {
    ops == [] || (
      (ops[0].Arrive? ==> Delivers(s, ops[0].chunk, ops[0].err)) && AllDeliver(Step(s, ops[0]), ops[1..]))
  }

  lemma {:induction false} LossIsForever(s: Stream, ops: seq<Op>)
    requires IsRun(s, ops)
    ensures Lost(After(s, ops)) >= Lost(s) && Uncounted(After(s, ops)) >= Uncounted(s)
    decreases |ops|
  {
    if ops != [] {
      var op := ops[0];
      if op.Arrive? {
        ArrivalConserves(s, op.chunk, op.err);
      } else {
        OtherStepsConserve(s, op);
      }
      LossIsForever(Step(s, op), ops[1..]);
    }
  }

  /** Over a whole run, the bytes handed out followed by the bytes still buffered are the bytes received,
      in order, and bytes_read is their number, exactly when every arrival on the way delivers. */
  lemma {:induction false} RunConserves(s: Stream, ops: seq<Op>)
    requires Conserved(s) && IsRun(s, ops)
    ensures Conserved(After(s, ops)) <==> AllDeliver(s, ops)
    decreases |ops|
  {
    if ops != [] {
      var op := ops[0];
      var t := Step(s, op);
      if op.Arrive? {
        ArrivalConserves(s, op.chunk, op.err);
      } else {
        OtherStepsConserve(s, op);
      }
      if Conserved(t) {
        RunConserves(t, ops[1..]);
      } else {
        LossIsForever(t, ops[1..]);
      }
    }
  }

  // ------------------------------------------------------------------------------------------
  // Listeners that do not throw

  // limited: the stream takes a limited number of listeners for an event.
  // persistent: listeners that hear data stay after they are called.
  datatype Rules = Rules(limited: bool, persistent: bool)

  predicate Calm(script: seq<Act>, within: Option<Event>, rules: Rules) {
    forall i :: 0 <= i < |script| ==> CalmAct(script[i], within, rules)
  }

  predicate CalmAct(act: Act, within: Option<Event>, rules: Rules) {
    match act
    case Throw => false
    case Listen(event, l) => within != Some(event) && CalmListener(l, event, rules)
    case Unlisten(event, _) => within != Some(event)
    case _ => true
  }

  // Under a limit, only listeners that are called once may add others.
  predicate CalmListener(l: Listener, event: Event, rules: Rules) {
    && Calm(l.script, Some(event), rules)
    && (rules.persistent && event == DataReceived ==> !l.runOnce)
    && (rules.limited && !l.runOnce ==> AddsNothing(l.script))
  }

  predicate AddsNothing(script: seq<Act>) {
    forall i :: 0 <= i < |script| ==> !script[i].Listen?
  }

  predicate CalmList(ls: seq<Listener>, event: Event, rules: Rules) {
    forall i :: 0 <= i < |ls| ==> CalmListener(ls[i], event, rules)
  }

  // How many listeners of an event a script may add, counting those that the added ones may add.
  function Uses(script: seq<Act>, event: Event): nat {
    if script == [] then 0 else UsesOfAct(script[0], event) + Uses(script[1..], event)
  }

  function UsesOfAct(act: Act, event: Event): nat {
    if act.Listen? then (if act.event == event then 1 else 0) + Uses(act.listener.script, event) else 0
  }

  function UsesOfAll(ls: seq<Listener>, event: Event): nat {
    if ls == [] then 0 else Uses(ls[0].script, event) + UsesOfAll(ls[1..], event)
  }

  // Listeners of an event, with those that the registered ones may add, the list under iteration aside.
  function Load(lists: Lists, within: Option<Event>, event: Event): nat {
    |ListOf(lists, event)|
    + (if within == Some(DataReceived) then 0 else UsesOfAll(lists.onData, event))
    + (if within == Some(WriteCompletion) then 0 else UsesOfAll(lists.onCompletion, event))
    + (if within == Some(AllWritesCompleted) then 0 else UsesOfAll(lists.onDrained, event))
  }

  predicate FitsOne(lists: Lists, within: Option<Event>, script: seq<Act>, rest: seq<Listener>, event: Event) {
    Load(lists, within, event) + Uses(script, event) + UsesOfAll(rest, event) <= lists.maxListeners
  }

  // There is room for everything the script, the listeners after it and the registered ones may add.
  predicate Fits(lists: Lists, within: Option<Event>, script: seq<Act>, rest: seq<Listener>) {
    lists.maxListeners != 0 ==>
      && FitsOne(lists, within, script, rest, DataReceived) && FitsOne(lists, within, script, rest, WriteCompletion)
      && FitsOne(lists, within, script, rest, AllWritesCompleted)
  }

  predicate CalmLists(lists: Lists, rules: Rules) {
    && CalmList(lists.onData, DataReceived, rules) && CalmList(lists.onCompletion, WriteCompletion, rules)
    && CalmList(lists.onDrained, AllWritesCompleted, rules) && (rules.limited <==> lists.maxListeners != 0)
  }

  /** Listeners that do not throw, do not touch their own list, and for whose additions there is room. */
  predicate CalmHub(hub: Hub, rules: Rules) {
    0 <= hub.depth < 99 && CalmLists(hub.lists, rules) && Fits(hub.lists, None, [], [])
  }

  lemma {:induction false} AddingNothingUsesNothing(script: seq<Act>, event: Event)
    requires AddsNothing(script)
    ensures Uses(script, event) == 0
  {
    if script != [] {
      AddingNothingUsesNothing(script[1..], event);
    }
  }

  lemma {:induction false} UsesAppend(ls: seq<Listener>, l: Listener, event: Event)
    ensures UsesOfAll(ls + [l], event) == UsesOfAll(ls, event) + Uses(l.script, event)
  {
    if ls == [] {
      assert ls + [l] == [l] && [l][1..] == [];
    } else {
      assert (ls + [l])[1..] == ls[1..] + [l];
      UsesAppend(ls[1..], l, event);
    }
  }

  lemma {:induction false} CalmSublists(ls: seq<Listener>, id: int, event: Event, rules: Rules)
    requires CalmList(ls, event, rules)
    ensures CalmList(Persistent(ls), event, rules) && CalmList(Without(ls, id), event, rules)
  {
    if ls != [] {
      assert CalmListener(ls[0], event, rules);
      assert forall i :: 0 <= i < |ls[1..]| ==> ls[1..][i] == ls[i + 1];
      CalmSublists(ls[1..], id, event, rules);
    }
  }

  lemma {:induction false} SublistsUseLess(ls: seq<Listener>, id: int, event: Event)
    ensures |Without(ls, id)| <= |ls| && UsesOfAll(Without(ls, id), event) <= UsesOfAll(ls, event)
    ensures |Persistent(ls)| <= |ls|
  {
    if ls != [] {
      SublistsUseLess(ls[1..], id, event);
      assert ([ls[0]] + Without(ls[1..], id))[1..] == Without(ls[1..], id);
    }
  }

  lemma {:induction false} PersistentUseNothing(ls: seq<Listener>, own: Event, event: Event, rules: Rules)
    requires CalmList(ls, own, rules) && rules.limited
    ensures UsesOfAll(Persistent(ls), event) == 0
  {
    if ls != [] {
      assert CalmListener(ls[0], own, rules);
      assert forall i :: 0 <= i < |ls[1..]| ==> ls[1..][i] == ls[i + 1];
      PersistentUseNothing(ls[1..], own, event, rules);
      if !ls[0].runOnce {
        AddingNothingUsesNothing(ls[0].script, event);
        assert ([ls[0]] + Persistent(ls[1..]))[1..] == Persistent(ls[1..]);
      }
    }
  }

  lemma ListIsCalm(lists: Lists, event: Event, rules: Rules)
    requires CalmLists(lists, rules)
    ensures CalmList(ListOf(lists, event), event, rules)
  {
  }

  lemma StoredIsCalm(lists: Lists, event: Event, ls: seq<Listener>, rules: Rules)
    requires CalmLists(lists, rules) && CalmList(ls, event, rules)
    ensures CalmLists(WithList(lists, event, ls), rules)
  {
  }

  predicate IsListEvent(event: Event) {
    event != Closed && event != ErrorRaised
  }

  // What a listener takes up, and what it may add, is what its script's act had set aside.
  lemma LoadOfAppended(lists: Lists, within: Option<Event>, event: Event, l: Listener, of: Event)
    requires within != Some(event) && IsListEvent(of)
    ensures Load(WithList(lists, event, ListOf(lists, event) + [l]), within, of)
         <= Load(lists, within, of) + UsesOfAct(Listen(event, l), of)
  {
    UsesAppend(ListOf(lists, event), l, of);
  }

  lemma FitsOneAfterListen(lists: Lists, within: Option<Event>, event: Event, l: Listener, script: seq<Act>,
      rest: seq<Listener>, of: Event)
    requires FitsOne(lists, within, script, rest, of) && within != Some(event) && IsListEvent(of)
    requires script != [] && script[0] == Listen(event, l)
    ensures FitsOne(WithList(lists, event, ListOf(lists, event) + [l]), within, script[1..], rest, of)
    ensures event == of ==> |ListOf(lists, event)| < lists.maxListeners
  {
    LoadOfAppended(lists, within, event, l, of);
    UnfoldUses(script, of);
  }

  lemma FitsAfterListen(lists: Lists, within: Option<Event>, event: Event, l: Listener, script: seq<Act>,
      rest: seq<Listener>)
    requires Fits(lists, within, script, rest) && within != Some(event)
    requires script != [] && script[0] == Listen(event, l)
    ensures Fits(WithList(lists, event, ListOf(lists, event) + [l]), within, script[1..], rest)
    ensures lists.maxListeners != 0 ==> |ListOf(lists, event)| < lists.maxListeners
  {
    if lists.maxListeners != 0 {
      FitsOneAfterListen(lists, within, event, l, script, rest, DataReceived);
      FitsOneAfterListen(lists, within, event, l, script, rest, WriteCompletion);
      FitsOneAfterListen(lists, within, event, l, script, rest, AllWritesCompleted);
    }
  }

  lemma UnfoldUses(script: seq<Act>, event: Event)
    requires script != []
    ensures Uses(script, event) == UsesOfAct(script[0], event) + Uses(script[1..], event)
  {
  }

  lemma LoadOfReduced(lists: Lists, within: Option<Event>, event: Event, id: int, of: Event)
    requires within != Some(event) && IsListEvent(of)
    ensures Load(WithList(lists, event, Without(ListOf(lists, event), id)), within, of) <= Load(lists, within, of)
  {
    SublistsUseLess(ListOf(lists, event), id, of);
  }

  lemma FitsAfterUnlisten(lists: Lists, within: Option<Event>, event: Event, id: int, script: seq<Act>,
      rest: seq<Listener>)
    requires Fits(lists, within, script, rest) && within != Some(event)
    ensures Fits(WithList(lists, event, Without(ListOf(lists, event), id)), within, script, rest)
  {
    LoadOfReduced(lists, within, event, id, DataReceived);
    LoadOfReduced(lists, within, event, id, WriteCompletion);
    LoadOfReduced(lists, within, event, id, AllWritesCompleted);
  }

  lemma FitsWithLess(lists: Lists, within: Option<Event>, script: seq<Act>, rest: seq<Listener>)
    requires Fits(lists, within, script, rest) && script != []
    ensures Fits(lists, within, script[1..], rest)
  {
    UnfoldUses(script, DataReceived);
    UnfoldUses(script, WriteCompletion);
    UnfoldUses(script, AllWritesCompleted);
  }

  lemma OtherActsAreCalm(s: Stream, act: Act, within: Option<Event>)
    requires !act.Throw? && !act.Listen? && !act.Unlisten? && 0 <= s.hub.depth < 100
    ensures var r := ActSpec(s, act, within);
      !r.Stopped() && r.s.hub.depth == s.hub.depth && r.s.hub.lists == s.hub.lists
  {
  }

  // A stream in the middle of a script: room for what is left of it and for the listeners after it.
  predicate CalmAt(s: Stream, within: Option<Event>, script: seq<Act>, rest: seq<Listener>, rules: Rules) {
    0 <= s.hub.depth < 100 && CalmLists(s.hub.lists, rules) && Fits(s.hub.lists, within, script, rest)
  }

  lemma ListenIsCalm(s: Stream, within: Option<Event>, script: seq<Act>, rest: seq<Listener>, rules: Rules)
    requires CalmAt(s, within, script, rest, rules) && script != [] && script[0].Listen?
    requires CalmAct(script[0], within, rules)
    ensures var r := ActSpec(s, script[0], within);
      !r.Stopped() && r.s.hub.depth == s.hub.depth && CalmAt(r.s, within, script[1..], rest, rules)
  {
    var Listen(event, l) := script[0];
    var list := ListOf(s.hub.lists, event);
    FitsAfterListen(s.hub.lists, within, event, l, script, rest);
    ListIsCalm(s.hub.lists, event, rules);
    StoredIsCalm(s.hub.lists, event, list + [l], rules);
  }

  lemma UnlistenIsCalm(s: Stream, within: Option<Event>, event: Event, id: int, script: seq<Act>, rest: seq<Listener>,
      rules: Rules)
    requires CalmAt(s, within, script, rest, rules) && within != Some(event)
    ensures var r := UnlistenSpec(s, event, id, within);
      !r.Stopped() && r.s.hub.depth == s.hub.depth && CalmAt(r.s, within, script, rest, rules)
  {
    FitsAfterUnlisten(s.hub.lists, within, event, id, script, rest);
    ListIsCalm(s.hub.lists, event, rules);
    CalmSublists(ListOf(s.hub.lists, event), id, event, rules);
    StoredIsCalm(s.hub.lists, event, Without(ListOf(s.hub.lists, event), id), rules);
  }

  lemma ActIsCalm(s: Stream, within: Option<Event>, script: seq<Act>, rest: seq<Listener>, rules: Rules)
    requires CalmAt(s, within, script, rest, rules) && script != [] && CalmAct(script[0], within, rules)
    ensures var r := ActSpec(s, script[0], within);
      !r.Stopped() && r.s.hub.depth == s.hub.depth && CalmAt(r.s, within, script[1..], rest, rules)
  {
    var act := script[0];
    if act.Listen? {
      ListenIsCalm(s, within, script, rest, rules);
    } else {
      FitsWithLess(s.hub.lists, within, script, rest);
      if act.Unlisten? {
        UnlistenIsCalm(s, within, act.event, act.id, script[1..], rest, rules);
      } else {
        OtherActsAreCalm(s, act, within);
      }
    }
  }

  lemma {:induction false} CalmRun(s: Stream, within: Option<Event>, script: seq<Act>, rest: seq<Listener>,
      rules: Rules)
    requires Calm(script, within, rules) && CalmAt(s, within, script, rest, rules)
    ensures var r := RunSpec(s, script, within);
      !r.Stopped() && r.s.hub.depth == s.hub.depth && CalmAt(r.s, within, [], rest, rules)
    decreases |script|
  {
    if script != [] {
      ActIsCalm(s, within, script, rest, rules);
      CalmRun(ActSpec(s, script[0], within).s, within, script[1..], rest, rules);
    }
  }

  lemma {:induction false} CalmCall(s: Stream, ls: seq<Listener>, event: Event, rules: Rules)
    requires CalmList(ls, event, rules) && CalmAt(s, Some(event), [], ls, rules)
    ensures var r := CallSpec(s, ls, event);
      !r.Stopped() && r.s.hub.depth == s.hub.depth && CalmAt(r.s, Some(event), [], [], rules)
    decreases |ls|
  {
    if ls != [] {
      assert CalmListener(ls[0], event, rules);
      CalmRun(s, Some(event), ls[0].script, ls[1..], rules);
      assert forall i :: 0 <= i < |ls[1..]| ==> ls[1..][i] == ls[i + 1];
      CalmCall(RunSpec(s, ls[0].script, Some(event)).s, ls[1..], event, rules);
    }
  }

  // Entering a loop sets aside what its listeners may add; leaving it drops those that added.
  lemma FitsInLoop(lists: Lists, event: Event)
    requires Fits(lists, None, [], [])
    ensures Fits(lists, Some(event), [], ListOf(lists, event))
  {
  }

  lemma LoadAfterLoop(lists: Lists, event: Event, rules: Rules, of: Event)
    requires CalmLists(lists, rules) && rules.limited && IsListEvent(of)
    ensures Load(Spent(lists, event), None, of) <= Load(lists, Some(event), of)
  {
    ListIsCalm(lists, event, rules);
    PersistentUseNothing(ListOf(lists, event), event, of, rules);
    SublistsUseLess(ListOf(lists, event), 0, of);
  }

  lemma FitsAfterLoop(lists: Lists, event: Event, rules: Rules)
    requires CalmLists(lists, rules) && Fits(lists, Some(event), [], [])
    ensures CalmLists(Spent(lists, event), rules) && Fits(Spent(lists, event), None, [], [])
  {
    ListIsCalm(lists, event, rules);
    CalmSublists(ListOf(lists, event), 0, event, rules);
    StoredIsCalm(lists, event, Persistent(ListOf(lists, event)), rules);
    if rules.limited {
      LoadAfterLoop(lists, event, rules, DataReceived);
      LoadAfterLoop(lists, event, rules, WriteCompletion);
      LoadAfterLoop(lists, event, rules, AllWritesCompleted);
    }
  }

  lemma CalmEmit(s: Stream, event: Event, rules: Rules)
    requires CalmHub(s.hub, rules)
    ensures var r := EmitSpec(s, event); !r.Stopped() && r.s.hub.depth == s.hub.depth && CalmHub(r.s.hub, rules)
  {
    var s1 := s.(hub := Entered(s.hub, event));
    var list := ListOf(s.hub.lists, event);
    ListIsCalm(s.hub.lists, event, rules);
    FitsInLoop(s.hub.lists, event);
    CalmCall(s1, list, event, rules);
    FitsAfterLoop(CallSpec(s1, list, event).s.hub.lists, event, rules);
  }

  lemma CalmAnnounce(s: Stream, event: Event, rules: Rules)
    requires CalmHub(s.hub, rules)
    ensures var r := Announce(s, event);
      !r.Stopped() && r.s == s.(hub := r.s.hub) && CalmHub(r.s.hub, rules) && r.s.hub.lists == s.hub.lists
  {
  }

  lemma CalmDeliver(s: Stream, data: string, rules: Rules)
    requires CalmHub(s.hub, rules)
    ensures var r := DeliverSpec(s, data);
      !r.Stopped() && CalmHub(r.s.hub, rules) && r.s.hub.lists.onData == Persistent(s.hub.lists.onData)
  {
    var heard := Emittable(s.hub) && s.hub.lists.onData != [];
    var s1 := if heard then s.(input := s.input.(handedOut := s.input.handedOut + data)) else s;
    CalmEmit(s1, DataReceived, rules);
    EmitFollows(s1, DataReceived);
  }

  lemma CalmFlush(s: Stream, rules: Rules)
    requires CalmHub(s.hub, rules)
    ensures var r := FlushSpec(s);
      && !r.Stopped() && CalmHub(r.s.hub, rules)
      && r.s.hub.lists.onData == (if s.input.buffer == "" then s.hub.lists.onData else Persistent(s.hub.lists.onData))
  {
    if s.input.buffer != "" {
      CalmDeliver(s.(input := s.input.(buffer := "")), s.input.buffer, rules);
    }
  }

  lemma CalmTake(s: Stream, chunk: string, rules: Rules)
    requires CalmHub(s.hub, rules)
    ensures var r := TakeChunkSpec(s, chunk); !r.Stopped() && CalmHub(r.s.hub, rules)
    ensures var onData := s.hub.lists.onData;
      Hears(s, chunk) <==> onData != [] && (s.input.buffer == "" || Persistent(onData) != [])
  {
    CalmFlush(s, rules);
    CalmDeliver(FlushSpec(s).s, chunk, rules);
  }

  /** When no listener throws, an arrival delivers exactly when no flush comes first or the flush leaves
      a listener: run-once listeners alone see the old bytes and nobody sees the chunk. */
  lemma CalmArrivalDelivers(s: Stream, chunk: string, err: ReadError, rules: Rules)
    requires CalmHub(s.hub, rules) && s.held && !err.OtherError? && chunk != "" && s.hub.lists.onData != []
    ensures Delivers(s, chunk, err) <==> s.input.buffer == "" || Persistent(s.hub.lists.onData) != []
  {
    CalmTake(Arrived(s.(reading := false), chunk), chunk, rules);
  }

  lemma CalmArrival(s: Stream, chunk: string, err: ReadError, rules: Rules)
    requires CalmHub(s.hub, rules)
    ensures CalmHub(HandleReadSpec(s, chunk, err).hub, rules)
  {
    var s0 := s.(reading := false);
    CalmAnnounce(s0, ErrorRaised, rules);
    CalmTake(Arrived(s0, chunk), chunk, rules);
  }

  /** A live stream whose listeners do not throw, run-once ones among them, goes on reading after every
      error-free chunk until it is closed, and stops at an error or at the end of the file. */
  lemma CalmStreamsKeepReading(s: Stream, chunk: string, err: ReadError, rules: Rules)
    requires CalmHub(s.hub, rules) && s.held
    ensures var t := HandleReadSpec(s, chunk, err); t.reading <==> err.NoError? && !t.closed
  {
    var s0 := s.(reading := false);
    CalmAnnounce(s0, ErrorRaised, rules);
    CalmTake(Arrived(s0, chunk), chunk, rules);
    TakeChunkOutput(Arrived(s0, chunk), chunk);
  }

  lemma CalmCompletion(s: Stream, data: string, ok: bool, rules: Rules)
    requires CalmHub(s.hub, rules)
    ensures CalmHub(HandleWriteSpec(s, data, ok).hub, rules)
    ensures !CompletedSpec(Finished(s, data), ok).Stopped()
  {
    var s0 := Finished(s, data);
    CalmAnnounce(s0, ErrorRaised, rules);
    CalmEmit(s0, WriteCompletion, rules);
    CalmEmit(Decremented(CompletedSpec(s0, ok).s), AllWritesCompleted, rules);
  }

  // From outside, any call will do; a listener that is added must be calm, and unless it is refused there
  // must be room for it and for what it may add.
  predicate CalmOp(s: Stream, op: Op, rules: Rules) {
    op.Do? && op.act.Listen? ==>
      && CalmListener(op.act.listener, op.act.event, rules)
      && (IsFull(s.hub.lists, op.act.event) || Fits(s.hub.lists, None, [op.act], []))
  }

  predicate IsFull(lists: Lists, event: Event) {
    lists.maxListeners != 0 && |ListOf(lists, event)| >= lists.maxListeners
  }

  predicate AllCalm(s: Stream, ops: seq<Op>, rules: Rules)
    decreases |ops|
  {
    ops == [] || (CalmOp(s, ops[0], rules) && AllCalm(Step(s, ops[0]), ops[1..], rules))
  }

  lemma CalmCallFromOutside(s: Stream, act: Act, rules: Rules)
    requires CalmHub(s.hub, rules) && CalmOp(s, Do(act), rules)
    ensures CalmHub(ActSpec(s, act, None).s.hub, rules)
  {
    match act
    case Throw =>
    case Listen(event, l) =>
      if !IsFull(s.hub.lists, event) {
        ListenIsCalm(s, None, [act], [], rules);
        assert [act][1..] == [];
      }
    case Unlisten(event, id) => UnlistenIsCalm(s, None, event, id, [], [], rules);
    case _ => OtherActsAreCalm(s, act, None);
  }

  lemma CalmStep(s: Stream, op: Op, rules: Rules)
    requires CalmHub(s.hub, rules) && CalmOp(s, op, rules)
    ensures CalmHub(Step(s, op).hub, rules)
  {
    match op
    case Arrive(chunk, err) => CalmArrival(s, chunk, err, rules);
    case Complete(data, ok) => CalmCompletion(s, data, ok, rules);
    case Do(act) => CalmCallFromOutside(s, act, rules);
  }

  lemma {:induction false} PersistentStay(ls: seq<Listener>, rules: Rules)
    requires CalmList(ls, DataReceived, rules) && rules.persistent
    ensures Persistent(ls) == ls
  {
    if ls != [] {
      assert CalmListener(ls[0], DataReceived, rules);
      assert forall i :: 0 <= i < |ls[1..]| ==> ls[1..][i] == ls[i + 1];
      PersistentStay(ls[1..], rules);
    }
  }

  /** With persistent data listeners that do not throw, added and removed at will, and reads at any point,
      from outside or inside other listeners, no run loses, repeats or reorders a byte. */
  lemma {:induction false} SteadyRunsConserve(s: Stream, ops: seq<Op>, rules: Rules)
    requires Conserved(s) && rules.persistent && CalmHub(s.hub, rules) && IsRun(s, ops) && AllCalm(s, ops, rules)
    ensures Conserved(After(s, ops))
    decreases |ops|
  {
    if ops != [] {
      var op := ops[0];
      CalmStep(s, op, rules);
      if op.Arrive? {
        CalmTake(Arrived(s.(reading := false), op.chunk), op.chunk, rules);
        PersistentStay(s.hub.lists.onData, rules);
        ArrivalConserves(s, op.chunk, op.err);
      } else {
        OtherStepsConserve(s, op);
      }
      SteadyRunsConserve(Step(s, op), ops[1..], rules);
    }
  }

  // ------------------------------------------------------------------------------------------
  // Writes in flight

  predicate Accounted(s: Stream) {
    s.output.pending == |s.output.inFlight|
  }

  function Excess(output: Output): int {
    output.pending - |output.inFlight|
  }

  /** How often the completion of one write lowers the counter: through the stream, unless it is gone or a
      listener throws first; through the semaphore itself, if the stream is gone afterwards and someone
      else owns the semaphore. Nobody else does in the source; then the counter is gone with the stream. */
  function Decrements(s: Stream, data: string, ok: bool): nat {
    (if s.held && !CompletedSpec(Finished(s, data), ok).Stopped() then 1 else 0)
    + (if !HandleWriteSpec(s, data, ok).held && s.spare then 1 else 0)
  }

  lemma WriteHandlerExcess(s: Stream, ok: bool)
    ensures var r := CompletedSpec(s, ok);
      Excess(WriteHandlerSpec(s, ok).s.output) == Excess(s.output) - (if r.Stopped() then 0 else 1)
    ensures WriteHandlerSpec(s, ok).s.spare == s.spare
  {
    CompletedFollows(s, ok);
    EmitFollows(Decremented(CompletedSpec(s, ok).s), AllWritesCompleted);
  }

  lemma CompletionExcess(s: Stream, data: string, ok: bool)
    requires data in s.output.inFlight
    ensures Excess(HandleWriteSpec(s, data, ok).output) == Excess(s.output) + 1 - Decrements(s, data, ok)
  {
    var s0 := Finished(s, data);
    assert |s0.output.inFlight| == |s.output.inFlight| - 1;
    if s.held {
      WriteHandlerExcess(s0, ok);
      CaughtKeeps(WriteHandlerSpec(s0, ok));
    }
  }

  /** The counter stays the number of writes in flight exactly when the completion lowers it once. */
  lemma CompletionAccounts(s: Stream, data: string, ok: bool)
    requires Accounted(s) && data in s.output.inFlight
    ensures Accounted(HandleWriteSpec(s, data, ok)) <==> Decrements(s, data, ok) == 1
  {
    CompletionExcess(s, data, ok);
  }

  // Decrements missed on the way, less those made twice.
  function Unsettled(s: Stream, ops: seq<Op>): int
    decreases |ops|
  {
    if ops == [] then 0
    else
      (if ops[0].Complete? then 1 - Decrements(s, ops[0].data, ops[0].ok) else 0)
      + Unsettled(Step(s, ops[0]), ops[1..])
  }

  lemma DeliverOutput(s: Stream, data: string)
    ensures var t := DeliverSpec(s, data).s; OutputFollows(s.output, t.output) && FlagsFollow(s, t)
  {
    var heard := Emittable(s.hub) && s.hub.lists.onData != [];
    EmitFollows(if heard then s.(input := s.input.(handedOut := s.input.handedOut + data)) else s, DataReceived);
  }

  lemma FlushOutput(s: Stream)
    ensures var t := FlushSpec(s).s; OutputFollows(s.output, t.output) && FlagsFollow(s, t)
  {
    if s.input.buffer != "" {
      DeliverOutput(s.(input := s.input.(buffer := "")), s.input.buffer);
    }
  }

  lemma TakeChunkOutput(s: Stream, chunk: string)
    ensures var t := TakeChunkSpec(s, chunk).s; OutputFollows(s.output, t.output) && FlagsFollow(s, t)
  {
    if s.hub.lists.onData != [] {
      FlushOutput(s);
      DeliverOutput(FlushSpec(s).s, chunk);
    }
  }

  lemma ArrivalOutput(s: Stream, chunk: string, err: ReadError)
    ensures var t := HandleReadSpec(s, chunk, err); OutputFollows(s.output, t.output) && Latched(s, t)
  {
    var s0 := s.(reading := false);
    TakeChunkOutput(Arrived(s0, chunk), chunk);
    CaughtKeeps(ReadHandlerSpec(s0, chunk, err));
  }

  lemma OtherStepsAccount(s: Stream, op: Op)
    requires !op.Complete?
    ensures OutputFollows(s.output, Step(s, op).output)
  {
    match op
    case Arrive(chunk, err) => ArrivalOutput(s, chunk, err);
    case Do(act) => ActFollows(s, act, None);
  }

  /** Over a whole run, the counter is off by exactly the decrements missed, less those made twice. */
  lemma {:induction false} RunAccounts(s: Stream, ops: seq<Op>)
    requires IsRun(s, ops)
    ensures Excess(After(s, ops).output) == Excess(s.output) + Unsettled(s, ops)
    ensures Accounted(s) ==> (Accounted(After(s, ops)) <==> Unsettled(s, ops) == 0)
    decreases |ops|
  {
    if ops != [] {
      var op := ops[0];
      if op.Complete? {
        CompletionExcess(s, op.data, op.ok);
      } else {
        OtherStepsAccount(s, op);
      }
      RunAccounts(Step(s, op), ops[1..]);
    }
  }

  /** While the stream lives, listeners that do not throw, run-once ones among them, are enough. */
  lemma {:induction false} CalmRunsAccount(s: Stream, ops: seq<Op>, rules: Rules)
    requires Accounted(s) && !s.spare && CalmHub(s.hub, rules) && IsRun(s, ops) && AllCalm(s, ops, rules)
    requires After(s, ops).held
    ensures Accounted(After(s, ops))
    decreases |ops|
  {
    if ops != [] {
      var op := ops[0];
      CalmStep(s, op, rules);
      StepLatches(s, op);
      RunLatches(Step(s, op), ops[1..]);
      if op.Complete? {
        CalmCompletion(s, op.data, op.ok, rules);
        CompletionAccounts(s, op.data, op.ok);
      } else {
        OtherStepsAccount(s, op);
      }
      CalmRunsAccount(Step(s, op), ops[1..], rules);
    }
  }

  function Drains(log: seq<Event>): nat {
    if log == [] then 0 else (if log[0] == AllWritesCompleted then 1 else 0) + Drains(log[1..])
  }

  lemma {:induction false} DrainsAppend(log: seq<Event>, event: Event)
    ensures Drains(log + [event]) == Drains(log) + (if event == AllWritesCompleted then 1 else 0)
  {
    if log != [] {
      assert (log + [event])[1..] == log[1..] + [event];
      DrainsAppend(log[1..], event);
    } else {
      assert [event][1..] == [];
    }
  }

  // A call logs at most that it was refused or that the stream was closed.
  lemma ActLogs(s: Stream, act: Act, within: Option<Event>)
    ensures var log := ActSpec(s, act, within).s.hub.log;
      log == s.hub.log || log == s.hub.log + [ErrorRaised] || log == s.hub.log + [Closed]
  {
    if act.Listen? {
      ListenFollows(s, act.event, act.listener, within);
    } else if act.Unlisten? {
      UnlistenFollows(s, act.event, act.id, within);
    }
  }

  lemma ActDepth(s: Stream, act: Act, within: Option<Event>)
    ensures var r := ActSpec(s, act, within); !r.Stopped() ==> r.s.hub.depth == s.hub.depth
  {
  }

  predicate Undrained(s: Stream, r: Ran) {
    Drains(r.s.hub.log) == Drains(s.hub.log) && (!r.Stopped() ==> r.s.hub.depth == s.hub.depth)
  }

  lemma {:induction false} RunDrains(s: Stream, script: seq<Act>, within: Option<Event>)
    ensures Undrained(s, RunSpec(s, script, within))
    decreases |script|
  {
    if script != [] {
      ActLogs(s, script[0], within);
      ActDepth(s, script[0], within);
      DrainsAppend(s.hub.log, ErrorRaised);
      DrainsAppend(s.hub.log, Closed);
      RunDrains(ActSpec(s, script[0], within).s, script[1..], within);
    }
  }

  lemma {:induction false} CallDrains(s: Stream, ls: seq<Listener>, event: Event)
    ensures Undrained(s, CallSpec(s, ls, event))
    decreases |ls|
  {
    if ls != [] {
      RunDrains(s, ls[0].script, Some(event));
      CallDrains(RunSpec(s, ls[0].script, Some(event)).s, ls[1..], event);
    }
  }

  lemma EmitDrains(s: Stream, event: Event)
    requires -128 <= s.hub.depth <= 127
    ensures var r := EmitSpec(s, event);
      && Drains(r.s.hub.log) == Drains(s.hub.log) + (if Emittable(s.hub) && event == AllWritesCompleted then 1 else 0)
      && (!r.Stopped() ==> r.s.hub.depth == s.hub.depth && Emittable(s.hub))
  {
    DrainsAppend(s.hub.log, event);
    CallDrains(s.(hub := Entered(s.hub, event)), ListOf(s.hub.lists, event), event);
  }

  lemma CompletedDrains(s: Stream, ok: bool)
    requires -128 <= s.hub.depth <= 127
    ensures var r := CompletedSpec(s, ok);
      && Drains(r.s.hub.log) == Drains(s.hub.log)
      && (!r.Stopped() ==> r.s.hub.depth == s.hub.depth && Emittable(s.hub))
  {
    EmitDrains(s, WriteCompletion);
    DrainsAppend(s.hub.log, ErrorRaised);
  }

  lemma WriteHandlerDrains(s: Stream, ok: bool)
    requires -128 <= s.hub.depth <= 127 && !CompletedSpec(s, ok).Stopped()
    ensures var drained := Semaphores.DrainedBy(CompletedSpec(s, ok).s.output.pending);
      Drains(WriteHandlerSpec(s, ok).s.hub.log) == Drains(s.hub.log) + (if drained then 1 else 0)
  {
    CompletedDrains(s, ok);
    EmitDrains(Decremented(CompletedSpec(s, ok).s), AllWritesCompleted);
  }

  lemma CaughtDrains(r: Ran)
    ensures Drains(Caught(r).hub.log) == Drains(r.s.hub.log)
  {
    DrainsAppend(r.s.hub.log, ErrorRaised);
  }

  /** When the listeners of one completed write have returned, "all_writes_completed" is emitted, once,
      exactly if no write is in flight then, those that the listeners started included. */
  lemma DrainedExactlyWhenIdle(s: Stream, data: string, ok: bool)
    requires Accounted(s) && s.held && data in s.output.inFlight && -128 <= s.hub.depth <= 127
    requires !CompletedSpec(Finished(s, data), ok).Stopped()
    ensures var idle := CompletedSpec(Finished(s, data), ok).s.output.inFlight == multiset{};
      Drains(HandleWriteSpec(s, data, ok).hub.log) == Drains(s.hub.log) + (if idle then 1 else 0)
  {
    var s0 := Finished(s, data);
    assert |s0.output.inFlight| == |s.output.inFlight| - 1;
    CompletedFollows(s0, ok);
    WriteHandlerDrains(s0, ok);
    CaughtDrains(WriteHandlerSpec(s0, ok));
  }

  // ------------------------------------------------------------------------------------------
  // The end of the wire

  predicate Latched(s: Stream, t: Stream) {
    && (s.end ==> t.end && t.output.wire == s.output.wire)
    && (s.closed ==> t.closed) && ((s.closed ==> s.end) ==> (t.closed ==> t.end))
    && t.spare == s.spare && (t.held ==> s.held)
  }

  lemma CompletionLatches(s: Stream, data: string, ok: bool)
    ensures Latched(s, HandleWriteSpec(s, data, ok))
  {
    var s0 := Finished(s, data);
    CompletedFollows(s0, ok);
    EmitFollows(Decremented(CompletedSpec(s0, ok).s), AllWritesCompleted);
    CaughtKeeps(WriteHandlerSpec(s0, ok));
  }

  lemma StepLatches(s: Stream, op: Op)
    ensures Latched(s, Step(s, op))
  {
    match op
    case Arrive(chunk, err) => ArrivalOutput(s, chunk, err);
    case Complete(data, ok) => CompletionLatches(s, data, ok);
    case Do(act) => ActFollows(s, act, None);
  }

  /** Closed implies ended, neither flag is ever cleared, and once the stream has ended no sequence of
      calls, arrivals and completions adds a byte to the wire. */
  lemma {:induction false} RunLatches(s: Stream, ops: seq<Op>)
    ensures Latched(s, After(s, ops))
    decreases |ops|
  {
    if ops != [] {
      StepLatches(s, ops[0]);
      RunLatches(Step(s, ops[0]), ops[1..]);
    }
  }
}
