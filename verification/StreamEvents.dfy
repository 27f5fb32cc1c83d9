/** What the calls that a stream's listeners make come to, and which events the handlers emit. The handlers
    run scripts with a depth guard, exceptions and lists under iteration; here a script is summed up by
    what it says, and every script that returns is proved to come to exactly that. */
module StreamEvents {
  import opened Wrappers
  import Emitters
  import Semaphores
  import opened SocketStream
  import opened StreamLaws

  // ------------------------------------------------------------------------------------------
  // Reading a script

  predicate Ends(act: Act) {
    act.End? || act.Close?
  }

  predicate Reads(script: seq<Act>) {
    script != [] && (script[0].Read? || Reads(script[1..]))
  }

  predicate Stops(script: seq<Act>) {
    script != [] && (Ends(script[0]) || Stops(script[1..]))
  }

  predicate Shuts(script: seq<Act>) {
    script != [] && (script[0].Close? || Shuts(script[1..]))
  }

  predicate LetsGo(script: seq<Act>) {
    script != [] && (script[0].Release? || LetsGo(script[1..]))
  }

  predicate IsWrite(act: Act) {
    act.Write? || (act.WriteRange? && act.data != "")
  }

  function SaidBy(act: Act): string {
    if IsWrite(act) then act.data else ""
  }

  function StartedBy(act: Act): multiset<string> {
    if IsWrite(act) && act.async then multiset{act.data} else multiset{}
  }

  // Bytes that are accepted for the wire: those written before the stream is ended.
  function Said(script: seq<Act>): string {
    if script == [] || Ends(script[0]) then "" else SaidBy(script[0]) + Said(script[1..])
  }

  // The asynchronous ones among these writes.
  function Started(script: seq<Act>): multiset<string> {
    if script == [] || Ends(script[0]) then multiset{} else StartedBy(script[0]) + Started(script[1..])
  }

  function EventsBy(act: Act, ended: bool): seq<Event> {
    if IsWrite(act) && ended then [ErrorRaised] else if act == Close(true) then [Closed] else []
  }

  // The events of a script: an error for each write after the end, and announced closes.
  function Events(script: seq<Act>, ended: bool): seq<Event> {
    if script == [] then []
    else EventsBy(script[0], ended) + Events(script[1..], ended || Ends(script[0]))
  }

  // Listeners of all other ids, from the end of the list.
  function Others(ls: seq<Listener>, id: int): seq<Listener> {
    if ls == [] then []
    else
      var last := ls[|ls| - 1];
      Others(ls[..|ls| - 1], id) + (if last.id == id then [] else [last])
  }

  function Lasting(ls: seq<Listener>): seq<Listener> {
    if ls == [] then []
    else
      var last := ls[|ls| - 1];
      Lasting(ls[..|ls| - 1]) + (if last.runOnce then [] else [last])
  }

  // One listener list under the calls of a script.
  function Fold(ls: seq<Listener>, script: seq<Act>, event: Event): seq<Listener>
    decreases |script|
  {
    if script == [] then ls else Fold(FoldAct(ls, script[0], event), script[1..], event)
  }

  function FoldAct(ls: seq<Listener>, act: Act, event: Event): seq<Listener> {
    match act
    case Listen(of, l) => if of == event then ls + [l] else ls
    case Unlisten(of, id) => if of == event then Others(ls, id) else ls
    case _ => ls
  }

  function FoldLists(lists: Lists, script: seq<Act>): Lists {
    Lists(Fold(lists.onData, script, DataReceived), Fold(lists.onCompletion, script, WriteCompletion),
          Fold(lists.onDrained, script, AllWritesCompleted), lists.maxListeners)
  }

  // The buffer is handed out by the first read; nothing arrives while a script runs.
  function ReadBy(input: Input, script: seq<Act>): Input {
    if Reads(script) then Input("", input.bytesRead, input.received, input.handedOut + input.buffer) else input
  }

  function WrittenBy(output: Output, ended: bool, script: seq<Act>): Output {
    if ended then output else Plus(output, Said(script), Started(script))
  }

  function Plus(output: Output, data: string, started: multiset<string>): Output {
    Output(output.pending + |started|, output.inFlight + started, output.wire + data)
  }

  function LoggedBy(hub: Hub, ended: bool, script: seq<Act>): Hub {
    Hub(hub.depth, hub.log + Events(script, ended), FoldLists(hub.lists, script))
  }

  // What a script that returns makes of a stream.
  function Summary(s: Stream, script: seq<Act>): Stream {
    Stream(s.closed || Shuts(script), s.end || Stops(script), s.reading, s.held && !LetsGo(script), s.spare,
           ReadBy(s.input, script), WrittenBy(s.output, s.closed || s.end, script),
           LoggedBy(s.hub, s.closed || s.end, script))
  }

  // ------------------------------------------------------------------------------------------
  // Every script that returns comes to its summary

  lemma {:induction false} OthersIsWithout(ls: seq<Listener>, id: int)
    ensures Others(ls, id) == Without(ls, id)
  {
    if ls != [] {
      var n := |ls| - 1;
      OthersIsWithout(ls[..n], id);
      WithoutAppend(ls[..n], ls[n], id);
      assert ls == ls[..n] + [ls[n]];
    }
  }

  lemma {:induction false} WithoutAppend(ls: seq<Listener>, l: Listener, id: int)
    ensures Without(ls + [l], id) == Without(ls, id) + (if l.id == id then [] else [l])
  {
    if ls == [] {
      assert ls + [l] == [l] && [l][1..] == [];
    } else {
      assert (ls + [l])[0] == ls[0] && (ls + [l])[1..] == ls[1..] + [l];
      WithoutAppend(ls[1..], l, id);
    }
  }

  lemma {:induction false} LastingIsPersistent(ls: seq<Listener>)
    ensures Lasting(ls) == Persistent(ls)
  {
    if ls != [] {
      var n := |ls| - 1;
      LastingIsPersistent(ls[..n]);
      PersistentAppend(ls[..n], ls[n]);
      assert ls == ls[..n] + [ls[n]];
    }
  }

  lemma {:induction false} PersistentAppend(ls: seq<Listener>, l: Listener)
    ensures Persistent(ls + [l]) == Persistent(ls) + (if l.runOnce then [] else [l])
  {
    if ls == [] {
      assert ls + [l] == [l] && [l][1..] == [];
    } else {
      assert (ls + [l])[0] == ls[0] && (ls + [l])[1..] == ls[1..] + [l];
      PersistentAppend(ls[1..], l);
    }
  }

  predicate Touches(act: Act) {
    act.Listen? || act.Unlisten?
  }

  // Listeners come and go, and nothing else changes.
  lemma ListsFold(s: Stream, act: Act, within: Option<Event>)
    requires Touches(act) && !ActSpec(s, act, within).Stopped()
    ensures ActSpec(s, act, within).s == s.(hub := s.hub.(lists := FoldLists(s.hub.lists, [act])))
  {
    FoldOne(s.hub.lists.onData, act, [], DataReceived);
    FoldOne(s.hub.lists.onCompletion, act, [], WriteCompletion);
    FoldOne(s.hub.lists.onDrained, act, [], AllWritesCompleted);
    if act.Unlisten? {
      OthersIsWithout(ListOf(s.hub.lists, act.event), act.id);
    }
  }

  lemma FoldOne(ls: seq<Listener>, act: Act, rest: seq<Act>, event: Event)
    ensures Fold(ls, [act], event) == FoldAct(ls, act, event)
    ensures Fold(ls, [act] + rest, event) == Fold(FoldAct(ls, act, event), rest, event)
  {
    assert [act][1..] == [] && ([act] + rest)[1..] == rest;
    assert Fold(FoldAct(ls, act, event), [], event) == FoldAct(ls, act, event);
  }

  lemma FoldUnfolds(lists: Lists, act: Act, rest: seq<Act>)
    ensures FoldLists(FoldLists(lists, [act]), rest) == FoldLists(lists, [act] + rest)
    ensures !Touches(act) ==> FoldLists(lists, [act]) == lists
  {
    FoldOne(lists.onData, act, rest, DataReceived);
    FoldOne(lists.onCompletion, act, rest, WriteCompletion);
    FoldOne(lists.onDrained, act, rest, AllWritesCompleted);
  }

  lemma WritesWrite(s: Stream, data: string, async: bool)
    requires !WriteSpec(s, data, async).Stopped()
    ensures var t := WriteSpec(s, data, async).s;
      var started := if async then multiset{data} else multiset{};
      && t == s.(output := t.output, hub := s.hub.(log := t.hub.log))
      && t.output == (if s.closed || s.end then s.output else Plus(s.output, data, started))
      && t.hub.log == s.hub.log + (if s.closed || s.end then [ErrorRaised] else [])
  {
    assert s.output.inFlight + multiset{} == s.output.inFlight && s.hub.log + [] == s.hub.log;
  }

  lemma OtherActs(s: Stream, act: Act, within: Option<Event>)
    requires !IsWrite(act) && !Touches(act) && !ActSpec(s, act, within).Stopped()
    ensures var t := ActSpec(s, act, within).s;
      && t.output == s.output && t.hub == s.hub.(log := s.hub.log + EventsBy(act, s.closed || s.end))
      && t.reading == s.reading && t.spare == s.spare && t.held == (s.held && !act.Release?)
      && t.closed == (s.closed || act.Close?) && t.end == (s.end || Ends(act))
      && t.input == if act.Read? then ReadBy(s.input, [act]) else s.input
  {
    assert s.hub.log + [] == s.hub.log;
    FlagsUnfold(act, []);
    assert [act] + [] == [act];
  }

  lemma SummaryOfOne(s: Stream, act: Act)
    ensures Summary(s, [act]) ==
      Stream(s.closed || act.Close?, s.end || Ends(act), s.reading, s.held && !act.Release?, s.spare,
             ReadBy(s.input, [act]),
             if s.closed || s.end || Ends(act) then s.output else Plus(s.output, SaidBy(act), StartedBy(act)),
             Hub(s.hub.depth, s.hub.log + EventsBy(act, s.closed || s.end), FoldLists(s.hub.lists, [act])))
  {
    FlagsUnfold(act, []);
    assert [act] + [] == [act];
    SaidUnfolds(act, []);
    EventsUnfold(act, [], s.closed || s.end);
    PlusNothing(s.output);
  }

  // One act, as its own summary.
  lemma ActsComeTo(s: Stream, act: Act, within: Option<Event>)
    requires !ActSpec(s, act, within).Stopped()
    ensures ActSpec(s, act, within).s == Summary(s, [act])
  {
    SummaryOfOne(s, act);
    FoldUnfolds(s.hub.lists, act, []);
    PlusNothing(s.output);
    FlagsUnfold(act, []);
    if Touches(act) {
      ListsFold(s, act, within);
      assert s.hub.log + [] == s.hub.log;
    } else if IsWrite(act) {
      WritesWrite(s, act.data, act.async);
    } else {
      OtherActs(s, act, within);
    }
  }

  lemma EventsUnfold(act: Act, rest: seq<Act>, ended: bool)
    ensures Events([act], ended) == EventsBy(act, ended)
    ensures Events([act] + rest, ended) == EventsBy(act, ended) + Events(rest, ended || Ends(act))
  {
    assert [act][1..] == [] && ([act] + rest)[1..] == rest;
    assert EventsBy(act, ended) + [] == EventsBy(act, ended);
  }

  lemma OutputUnfolds(output: Output, ended: bool, act: Act, rest: seq<Act>)
    ensures WrittenBy(WrittenBy(output, ended, [act]), ended || Ends(act), rest)
         == WrittenBy(output, ended, [act] + rest)
  {
    SaidUnfolds(act, rest);
    PlusNothing(output);
    if !ended && !Ends(act) {
      PlusTwice(output, SaidBy(act), StartedBy(act), Said(rest), Started(rest));
    }
  }

  lemma PlusNothing(output: Output)
    ensures Plus(output, "", multiset{}) == output
  {
    assert output.inFlight + multiset{} == output.inFlight && output.wire + "" == output.wire;
  }

  lemma PlusTwice(output: Output, x: string, a: multiset<string>, y: string, b: multiset<string>)
    ensures Plus(Plus(output, x, a), y, b) == Plus(output, x + y, a + b)
  {
    assert output.inFlight + a + b == output.inFlight + (a + b) && output.wire + x + y == output.wire + (x + y);
  }

  lemma SaidUnfolds(act: Act, rest: seq<Act>)
    ensures Said([act]) == (if Ends(act) then "" else SaidBy(act))
    ensures Started([act]) == (if Ends(act) then multiset{} else StartedBy(act))
    ensures Said([act] + rest) == (if Ends(act) then "" else SaidBy(act) + Said(rest))
    ensures Started([act] + rest) == (if Ends(act) then multiset{} else StartedBy(act) + Started(rest))
  {
    SaidByFirst(act, rest);
    SaidByFirst(act, []);
    assert [act] + [] == [act];
    assert SaidBy(act) + "" == SaidBy(act) && StartedBy(act) + multiset{} == StartedBy(act);
  }

  lemma SaidByFirst(act: Act, rest: seq<Act>)
    ensures Said([act] + rest) == (if Ends(act) then "" else SaidBy(act) + Said(rest))
    ensures Started([act] + rest) == (if Ends(act) then multiset{} else StartedBy(act) + Started(rest))
  {
    assert ([act] + rest)[1..] == rest;
  }

  lemma LogUnfolds(log: seq<Event>, ended: bool, act: Act, rest: seq<Act>)
    ensures log + Events([act], ended) + Events(rest, ended || Ends(act)) == log + Events([act] + rest, ended)
  {
    EventsUnfold(act, rest, ended);
  }

  lemma FlagsUnfold(act: Act, rest: seq<Act>)
    ensures Shuts([act] + rest) == (Shuts([act]) || Shuts(rest)) && Stops([act] + rest) == (Stops([act]) || Stops(rest))
    ensures LetsGo([act] + rest) == (LetsGo([act]) || LetsGo(rest))
    ensures Reads([act] + rest) == (Reads([act]) || Reads(rest))
    ensures Stops([act]) == Ends(act) && Shuts([act]) == act.Close? && LetsGo([act]) == act.Release?
    ensures Reads([act]) == act.Read?
  {
    assert [act][1..] == [] && ([act] + rest)[1..] == rest;
  }

  lemma InputUnfolds(input: Input, act: Act, rest: seq<Act>)
    ensures ReadBy(ReadBy(input, [act]), rest) == ReadBy(input, [act] + rest)
  {
    FlagsUnfold(act, rest);
    var handed := input.handedOut + input.buffer;
    assert handed + "" == handed;
  }

  lemma SummaryUnfolds(s: Stream, act: Act, rest: seq<Act>)
    ensures Summary(Summary(s, [act]), rest) == Summary(s, [act] + rest)
  {
    FlagsUnfold(act, rest);
    InputUnfolds(s.input, act, rest);
    OutputUnfolds(s.output, s.closed || s.end, act, rest);
    LogUnfolds(s.hub.log, s.closed || s.end, act, rest);
    FoldUnfolds(s.hub.lists, act, rest);
  }

  lemma NothingSaid(s: Stream)
    ensures Summary(s, []) == s
  {
    PlusNothing(s.output);
    assert s.hub.log + [] == s.hub.log;
  }

  /** A script that returns has handed out the buffer if it reads, put on the wire and in flight what it
      writes before the stream is ended, raised an error for every later write, set the flags it asks for,
      and made its changes of listeners, in order, and nothing else. */
  lemma {:induction false} ScriptsComeTo(s: Stream, script: seq<Act>, within: Option<Event>)
    requires !RunSpec(s, script, within).Stopped()
    ensures RunSpec(s, script, within).s == Summary(s, script)
    decreases |script|
  {
    if script == [] {
      NothingSaid(s);
    } else {
      ActsComeTo(s, script[0], within);
      ScriptsComeTo(ActSpec(s, script[0], within).s, script[1..], within);
      SummaryUnfolds(s, script[0], script[1..]);
      assert [script[0]] + script[1..] == script;
    }
  }

  // ------------------------------------------------------------------------------------------
  // Emissions

  // Everything that the listeners of a list do, one after the other.
  function AllScripts(ls: seq<Listener>): seq<Act> {
    if ls == [] then [] else ls[0].script + AllScripts(ls[1..])
  }

  lemma {:induction false} RunsCompose(s: Stream, first: seq<Act>, rest: seq<Act>, within: Option<Event>)
    ensures var r := RunSpec(s, first, within);
      RunSpec(s, first + rest, within) == if r.Stopped() then r else RunSpec(r.s, rest, within)
    decreases |first|
  {
    if first == [] {
      assert first + rest == rest;
    } else {
      assert (first + rest)[0] == first[0] && (first + rest)[1..] == first[1..] + rest;
      RunsCompose(ActSpec(s, first[0], within).s, first[1..], rest, within);
    }
  }

  /** Calling the listeners of a list is running their scripts one after the other, up to the first exception. */
  lemma {:induction false} CallsAreOneScript(s: Stream, ls: seq<Listener>, event: Event)
    ensures CallSpec(s, ls, event) == RunSpec(s, AllScripts(ls), Some(event))
    decreases |ls|
  {
    if ls != [] {
      RunsCompose(s, ls[0].script, AllScripts(ls[1..]), Some(event));
      CallsAreOneScript(RunSpec(s, ls[0].script, Some(event)).s, ls[1..], event);
    }
  }

  function Heard(s: Stream, event: Event): seq<Act> {
    AllScripts(ListOf(s.hub.lists, event))
  }

  // The stream after an emission whose listeners return: the event, then what they say, and the listeners
  // that were there for one call are gone.
  function Emitted(s: Stream, event: Event): Stream {
    var t := Summary(s.(hub := s.hub.(log := s.hub.log + [event])), Heard(s, event));
    t.(hub := t.hub.(lists := WithList(t.hub.lists, event, Lasting(ListOf(s.hub.lists, event)))))
  }

  lemma EmissionsComeTo(s: Stream, event: Event)
    requires -128 <= s.hub.depth <= 127
    ensures !EmitSpec(s, event).Stopped() ==> Emittable(s.hub) && EmitSpec(s, event).s == Emitted(s, event)
    ensures !Emittable(s.hub) ==>
      EmitSpec(s, event) == Ran(Threw, s.(hub := s.hub.(depth := Emitters.Up(s.hub.depth))))
  {
    if Emittable(s.hub) {
      var s1 := s.(hub := Entered(s.hub, event));
      var list := ListOf(s.hub.lists, event);
      CallsAreOneScript(s1, list, event);
      CallFollows(s1, list, event);
      LastingIsPersistent(list);
      if !EmitSpec(s, event).Stopped() {
        ScriptsComeTo(s1, AllScripts(list), Some(event));
        DepthApart(s, event);
      }
    }
  }

  // The depth plays no part in a summary.
  lemma DepthApart(s: Stream, event: Event)
    ensures var s1 := s.(hub := Entered(s.hub, event));
      var s2 := s.(hub := s.hub.(log := s.hub.log + [event]));
      var t1, t2 := Summary(s1, Heard(s, event)), Summary(s2, Heard(s, event));
      t1 == t2.(hub := t2.hub.(depth := s1.hub.depth))
  {
  }

  // ------------------------------------------------------------------------------------------
  // Which event comes first

  lemma {:induction false} RunLogsGrow(s: Stream, script: seq<Act>, within: Option<Event>)
    ensures s.hub.log <= RunSpec(s, script, within).s.hub.log
    decreases |script|
  {
    if script != [] {
      ActLogs(s, script[0], within);
      RunLogsGrow(ActSpec(s, script[0], within).s, script[1..], within);
    }
  }

  lemma EmitLogsGrow(s: Stream, event: Event)
    ensures s.hub.log + (if Emittable(s.hub) then [event] else []) <= EmitSpec(s, event).s.hub.log
  {
    if Emittable(s.hub) {
      var s1 := s.(hub := Entered(s.hub, event));
      CallsAreOneScript(s1, ListOf(s.hub.lists, event), event);
      RunLogsGrow(s1, Heard(s, event), Some(event));
    }
  }

  lemma HandlerLogs(s: Stream, ok: bool)
    requires Emittable(s.hub)
    ensures s.hub.log + [if ok then WriteCompletion else ErrorRaised] <= WriteHandlerSpec(s, ok).s.hub.log
  {
    EmitLogsGrow(s, WriteCompletion);
    EmitLogsGrow(Decremented(CompletedSpec(s, ok).s), AllWritesCompleted);
  }

  /** The first event of a completed write is "write_completion" if it succeeded and "error" if it failed,
      whatever its listeners do. */
  lemma CompletionsAreAnnounced(s: Stream, data: string, ok: bool)
    requires s.held && Emittable(s.hub)
    ensures s.hub.log + [if ok then WriteCompletion else ErrorRaised] <= HandleWriteSpec(s, data, ok).hub.log
  {
    HandlerLogs(Finished(s, data), ok);
    var r := WriteHandlerSpec(Finished(s, data), ok);
    assert r.s.hub.log <= Caught(r).hub.log;
  }

  /** A failed write calls no listener of "write_completion": unless it was the last one in flight, it
      raises the error, is counted off, and changes nothing else. */
  lemma FailedWritesCallNobody(s: Stream, data: string)
    requires s.held && Emittable(s.hub) && s.output.pending > 1
    ensures HandleWriteSpec(s, data, false) ==
      s.(output := Output(s.output.pending - 1, s.output.inFlight - multiset{data}, s.output.wire),
         hub := s.hub.(log := s.hub.log + [ErrorRaised]))
  {
  }

  /** A read error, a refused write and an announced close emit one event and call nobody; on an emitter
      that is too deep they emit nothing, and the two calls throw. */
  lemma ErrorsAndClosesAreAnnounced(s: Stream, chunk: string, data: string, async: bool)
    ensures s.held && Emittable(s.hub) ==>
      HandleReadSpec(s, chunk, OtherError)
      == s.(reading := false, hub := s.hub.(log := s.hub.log + [ErrorRaised]))
    ensures Emittable(s.hub) && (s.closed || s.end) ==>
      WriteSpec(s, data, async) == Ran(Returned, s.(hub := s.hub.(log := s.hub.log + [ErrorRaised])))
    ensures Emittable(s.hub) ==>
      CloseSpec(s, true)
      == Ran(Returned, s.(closed := true, end := true, hub := s.hub.(log := s.hub.log + [Closed])))
    ensures !Emittable(s.hub) ==>
      var deeper := s.hub.(depth := Emitters.Up(s.hub.depth));
      && CloseSpec(s, true) == Ran(Threw, s.(closed := true, end := true, hub := deeper))
      && (s.closed || s.end ==> WriteSpec(s, data, async) == Ran(Threw, s.(hub := deeper)))
    ensures CloseSpec(s, false) == Ran(Returned, s.(closed := true, end := true))
  {
  }

  // ------------------------------------------------------------------------------------------
  // What the handlers come to, when listeners are calm

  function CountedOff(s: Stream): Stream {
    s.(output := s.output.(pending := s.output.pending - 1))
  }

  // A completed write: its event and its listeners, then the counter, then the drain if it was the last.
  function Completion(s: Stream, data: string, ok: bool): Stream {
    var s0 := s.(output := s.output.(inFlight := s.output.inFlight - multiset{data}));
    var t := Settled(Told(s0, ok));
    if !t.held && t.spare then CountedOff(t) else t
  }

  function Told(s: Stream, ok: bool): Stream {
    if ok then Emitted(s, WriteCompletion) else s.(hub := s.hub.(log := s.hub.log + [ErrorRaised]))
  }

  function Settled(s: Stream): Stream {
    if s.output.pending <= 1 then Emitted(CountedOff(s), AllWritesCompleted) else CountedOff(s)
  }

  lemma CalmEmissionsComeTo(s: Stream, event: Event, rules: Rules)
    requires CalmHub(s.hub, rules)
    ensures EmitSpec(s, event) == Ran(Returned, Emitted(s, event)) && CalmHub(Emitted(s, event).hub, rules)
  {
    CalmEmit(s, event, rules);
    EmissionsComeTo(s, event);
  }

  lemma ToldComesTo(s: Stream, ok: bool, rules: Rules)
    requires CalmHub(s.hub, rules)
    ensures CompletedSpec(s, ok) == Ran(Returned, Told(s, ok)) && CalmHub(Told(s, ok).hub, rules)
  {
    CalmAnnounce(s, ErrorRaised, rules);
    if ok {
      CalmEmissionsComeTo(s, WriteCompletion, rules);
    }
  }

  lemma HandlerComesTo(s: Stream, ok: bool, rules: Rules)
    requires CalmHub(s.hub, rules)
    ensures WriteHandlerSpec(s, ok) == Ran(Returned, Settled(Told(s, ok)))
  {
    ToldComesTo(s, ok, rules);
    CalmEmissionsComeTo(CountedOff(Told(s, ok)), AllWritesCompleted, rules);
  }

  /** A completed write of a live stream with calm listeners, first its own event and listeners, then the
      counter, and "all_writes_completed" exactly when no other write is counted any more. */
  lemma CompletionsComeTo(s: Stream, data: string, ok: bool, rules: Rules)
    requires CalmHub(s.hub, rules) && s.held
    ensures HandleWriteSpec(s, data, ok) == Completion(s, data, ok)
  {
    HandlerComesTo(Finished(s, data), ok, rules);
  }

  // A delivery: the bytes are handed out if somebody listens.
  function Delivery(s: Stream, data: string): Stream {
    var heard := if s.hub.lists.onData == [] then "" else data;
    Emitted(s.(input := s.input.(handedOut := s.input.handedOut + heard)), DataReceived)
  }

  // A chunk for listeners: first what is buffered, by itself, then the chunk.
  function Taken(s: Stream, chunk: string): Stream {
    var s1 := if s.input.buffer == "" then s
              else Delivery(s.(input := s.input.(buffer := "")), s.input.buffer);
    var s2 := Delivery(s1, chunk);
    s2.(input := s2.input.(bytesRead := s2.input.bytesRead + |chunk|))
  }

  function Arrival(s: Stream, chunk: string, err: ReadError): Stream {
    var s0 := s.(reading := false);
    if err.OtherError? then s0.(hub := s0.hub.(log := s0.hub.log + [ErrorRaised]))
    else
      var s1 := Received(s0, chunk);
      s1.(reading := err.NoError? && !s1.closed)
  }

  function Received(s: Stream, chunk: string): Stream {
    var input := s.input;
    if chunk == "" then s
    else if s.hub.lists.onData == []
    then s.(input := Input(input.buffer + chunk, input.bytesRead + |chunk|, input.received + chunk, input.handedOut))
    else Taken(s.(input := input.(received := input.received + chunk)), chunk)
  }

  lemma ReceivedComesTo(s: Stream, chunk: string, rules: Rules)
    requires CalmHub(s.hub, rules)
    ensures chunk != "" ==> TakeChunkSpec(Arrived(s, chunk), chunk) == Ran(Returned, Received(s, chunk))
    ensures Received(s, chunk).reading == s.reading
  {
    if s.hub.lists.onData != [] {
      ChunksComeTo(Arrived(s, chunk), chunk, rules);
    }
  }

  lemma DeliveriesComeTo(s: Stream, data: string, rules: Rules)
    requires CalmHub(s.hub, rules)
    ensures var r := DeliverSpec(s, data); !r.Stopped() && r.s == Delivery(s, data) && CalmHub(r.s.hub, rules)
  {
    var heard := if s.hub.lists.onData == [] then "" else data;
    assert s.input.handedOut + "" == s.input.handedOut;
    var s1 := s.(input := s.input.(handedOut := s.input.handedOut + heard));
    CalmEmit(s1, DataReceived, rules);
    EmissionsComeTo(s1, DataReceived);
    assert s.hub.lists.onData == [] ==> s1 == s;
  }

  lemma ChunksComeTo(s: Stream, chunk: string, rules: Rules)
    requires CalmHub(s.hub, rules) && s.hub.lists.onData != []
    ensures TakeChunkSpec(s, chunk) == Ran(Returned, Taken(s, chunk))
  {
    var s1 := s;
    if s.input.buffer != "" {
      DeliveriesComeTo(s.(input := s.input.(buffer := "")), s.input.buffer, rules);
      s1 := Delivery(s.(input := s.input.(buffer := "")), s.input.buffer);
    }
    DeliveriesComeTo(s1, chunk, rules);
  }

  /** An arrival at a live stream with calm listeners: an error is raised; without listeners the chunk is
      buffered; otherwise the buffer and then the chunk are delivered, each as an event of its own, and the
      stream reads on unless it was closed or has come to its end. */
  lemma ArrivalsComeTo(s: Stream, chunk: string, err: ReadError, rules: Rules)
    requires CalmHub(s.hub, rules) && s.held
    ensures HandleReadSpec(s, chunk, err) == Arrival(s, chunk, err)
  {
    var s0 := s.(reading := false);
    CalmAnnounce(s0, ErrorRaised, rules);
    ReceivedComesTo(s0, chunk, rules);
  }

  /** A handler that runs for a stream that is gone does nothing to it but keep the books. */
  lemma GoneStreamsHearNothing(s: Stream, chunk: string, err: ReadError, data: string, ok: bool)
    requires !s.held
    ensures HandleReadSpec(s, chunk, err) == s.(reading := false)
    ensures var t := HandleWriteSpec(s, data, ok);
      t == s.(output := Output(if s.spare then s.output.pending - 1 else s.output.pending,
                               s.output.inFlight - multiset{data}, s.output.wire))
  {
  }

  // ------------------------------------------------------------------------------------------
  // Exceptions

  predicate Throws(script: seq<Act>) {
    script != [] && (script[0].Throw? || Throws(script[1..]))
  }

  /** A script that throws does not return, and what it did before stays done. */
  lemma {:induction false} ThrowingScriptsStop(s: Stream, script: seq<Act>, within: Option<Event>)
    requires Throws(script)
    ensures RunSpec(s, script, within).Stopped()
    decreases |script|
  {
    var r := ActSpec(s, script[0], within);
    if !r.Stopped() {
      ThrowingScriptsStop(r.s, script[1..], within);
    }
  }

  lemma ThrowEndsTheScript(s: Stream, script: seq<Act>, rest: seq<Act>, within: Option<Event>)
    requires !RunSpec(s, script, within).Stopped()
    ensures RunSpec(s, script + ([Throw] + rest), within) == Ran(Threw, Summary(s, script))
  {
    RunsCompose(s, script, [Throw] + rest, within);
    ScriptsComeTo(s, script, within);
  }

  // What run_if_valid makes of a handler that threw: an error event, if the emitter still takes one.
  function Reported(s: Stream): Stream {
    if Emittable(s.hub) then s.(hub := s.hub.(log := s.hub.log + [ErrorRaised]))
    else s.(hub := s.hub.(depth := Emitters.Up(s.hub.depth)))
  }

  /** When a listener of a completed write throws, the handler stops there: the exception becomes an error
      event, and the counter is left as the listeners left it. */
  lemma ThrowingCompletionsAreReported(s: Stream, data: string)
    requires s.held
    ensures var r := EmitSpec(Finished(s, data), WriteCompletion);
      r.how == Threw ==>
        var t := Reported(r.s);
        HandleWriteSpec(s, data, true) == if !t.held && t.spare then CountedOff(t) else t
  {
  }

  /** When a listener of a chunk throws, the exception becomes an error event, the chunk is not counted, and
      the stream does not read on. */
  lemma ThrowingArrivalsAreReported(s: Stream, chunk: string, err: ReadError)
    requires s.held && !err.OtherError? && chunk != "" && s.hub.lists.onData != [] && s.input.buffer == ""
    ensures var r := DeliverSpec(Arrived(s.(reading := false), chunk), chunk);
      r.how == Threw ==>
        && HandleReadSpec(s, chunk, err) == Reported(r.s) && !Reported(r.s).reading
        && Reported(r.s).input.bytesRead == s.input.bytesRead
  {
    var s1 := Arrived(s.(reading := false), chunk);
    DeliverFollows(s1, chunk);
    DeliverOutput(s1, chunk);
  }
}
