/** Socket streams (src/lib_net_socket_stream.cpp, include/lib_net_socket_stream.h).

    A Stream is what the members of NetSocketStreamImpl hold, with four histories beside them: the bytes
    received, the bytes handed out, the bytes accepted for the wire, and the writes in flight. A listener
    is a finite script of calls on the stream. The functions below are the specification; the class in
    NetSocketStream.dfy changes its fields step by step as the source does. */
module SocketStream {
  import opened Wrappers
  import Emitters
  import Semaphores

  datatype Act =
    | Read
    | Write(data: string, async: bool)
    | WriteRange(data: string, async: bool)
    | End
    | Close(announce: bool)
    | Release  // the last owner lets go of the stream
    | Listen(event: Event, listener: Listener)
    | Unlisten(event: Event, id: int)
    | Throw

  datatype Listener = Listener(id: int, runOnce: bool, script: seq<Act>)

  datatype Event = DataReceived | WriteCompletion | AllWritesCompleted | Closed | ErrorRaised

  // The error a completed read reports; end of file is ENOENT.
  datatype ReadError = NoError | EndOfFile | OtherError

  // received and handedOut are histories, as are wire (the bytes accepted, in call order) and inFlight.
  datatype Input = Input(buffer: string, bytesRead: nat, received: string, handedOut: string)

  datatype Output = Output(pending: int, inFlight: multiset<string>, wire: string)

  datatype Lists = Lists(onData: seq<Listener>, onCompletion: seq<Listener>, onDrained: seq<Listener>,
      maxListeners: nat)

  // The stream's emitter.
  datatype Hub = Hub(depth: int, log: seq<Event>, lists: Lists)

  // held: the stream object is alive. spare: someone besides it owns the semaphore that counts its writes.
  datatype Stream = Stream(closed: bool, end: bool, reading: bool, held: bool, spare: bool,
    input: Input, output: Output, hub: Hub)

  // Undefined: a script changed the list that is being iterated over, which C++ leaves undefined.
  datatype How = Returned | Threw | Undefined

  datatype Ran = Ran(how: How, s: Stream) {
    predicate Stopped() {
      how != Returned
    }
  }

  function Persistent(ls: seq<Listener>): seq<Listener> {
    if ls == [] then []
    else if ls[0].runOnce then Persistent(ls[1..])
    else [ls[0]] + Persistent(ls[1..])
  }

  function Without(ls: seq<Listener>, id: int): seq<Listener> {
    if ls == [] then []
    else if ls[0].id == id then Without(ls[1..], id)
    else [ls[0]] + Without(ls[1..], id)
  }

  // The listeners of the events whose listeners the model runs; those of the other two are outside it.
  function ListOf(lists: Lists, event: Event): seq<Listener> {
    match event
    case DataReceived => lists.onData
    case WriteCompletion => lists.onCompletion
    case AllWritesCompleted => lists.onDrained
    case _ => []
  }

  function WithList(lists: Lists, event: Event, ls: seq<Listener>): Lists {
    match event
    case DataReceived => lists.(onData := ls)
    case WriteCompletion => lists.(onCompletion := ls)
    case AllWritesCompleted => lists.(onDrained := ls)
    case _ => lists
  }

  function Spent(lists: Lists, event: Event): Lists {
    WithList(lists, event, Persistent(ListOf(lists, event)))
  }

  // Every event of the stream goes through one emitter, whose depth guard stays raised after a throw.
  predicate Emittable(hub: Hub) {
    Emitters.Up(hub.depth) <= Emitters.MAX_EMIT_DEPTH
  }

  function Refused(s: Stream): Ran {
    Ran(Threw, s.(hub := s.hub.(depth := Emitters.Up(s.hub.depth))))
  }

  // Emitting an event whose listeners are outside the model.
  function Announce(s: Stream, event: Event): Ran {
    if Emittable(s.hub) then Ran(Returned, s.(hub := s.hub.(log := s.hub.log + [event]))) else Refused(s)
  }

  predicate Writable(s: Stream) {
    !s.closed && !s.end
  }

  // ------------------------------------------------------------------------------------------
  // Calls on the stream. A write that is refused throws inside emit_error_on_throw, which emits an error.

  function ReadAll(input: Input): Input {
    input.(handedOut := input.handedOut + input.buffer, buffer := "")
  }

  function Accepted(output: Output, data: string, async: bool): Output {
    if async then Output(output.pending + 1, output.inFlight + multiset{data}, output.wire + data)
    else output.(wire := output.wire + data)
  }

  function WriteSpec(s: Stream, data: string, async: bool): Ran {
    if Writable(s) then Ran(Returned, s.(output := Accepted(s.output, data, async))) else Announce(s, ErrorRaised)
  }

  function EndSpec(s: Stream): Stream {
    s.(end := true)
  }

  function CloseSpec(s: Stream, announce: bool): Ran {
    var s1 := s.(closed := true, end := true);
    if announce then Announce(s1, Closed) else Ran(Returned, s1)
  }

  // within is the event whose listeners are being called, if any.
  function ActSpec(s: Stream, act: Act, within: Option<Event>): Ran {
    match act
    case Read => Ran(Returned, s.(input := ReadAll(s.input)))
    case Write(data, async) => WriteSpec(s, data, async)
    case WriteRange(data, async) => if data == "" then Ran(Returned, s) else WriteSpec(s, data, async)
    case End => Ran(Returned, EndSpec(s))
    case Close(announce) => CloseSpec(s, announce)
    case Release => Ran(Returned, s.(held := false))
    case Listen(event, l) => ListenSpec(s, event, l, within)
    case Unlisten(event, id) => UnlistenSpec(s, event, id, within)
    case Throw => Ran(Threw, s)
  }

  // add_listener: a full list and a too deep announcement throw
  function ListenSpec(s: Stream, event: Event, l: Listener, within: Option<Event>): Ran {
    var list := ListOf(s.hub.lists, event);
    if s.hub.lists.maxListeners != 0 && |list| >= s.hub.lists.maxListeners then Ran(Threw, s)
    else if !Emittable(s.hub) then Refused(s)
    else if within == Some(event) then Ran(Undefined, s)
    else Ran(Returned, s.(hub := s.hub.(lists := WithList(s.hub.lists, event, list + [l]))))
  }

  // remove_listener announces each listener it finds, which the depth guard may refuse.
  function UnlistenSpec(s: Stream, event: Event, id: int, within: Option<Event>): Ran {
    var kept := Without(ListOf(s.hub.lists, event), id);
    if kept == ListOf(s.hub.lists, event) then Ran(Returned, s)
    else if !Emittable(s.hub) then Refused(s)
    else if within == Some(event) then Ran(Undefined, s)
    else Ran(Returned, s.(hub := s.hub.(lists := WithList(s.hub.lists, event, kept))))
  }

  function RunSpec(s: Stream, script: seq<Act>, within: Option<Event>): Ran
    decreases |script|
  {
    if script == [] then Ran(Returned, s)
    else
      var r := ActSpec(s, script[0], within);
      if r.Stopped() then r else RunSpec(r.s, script[1..], within)
  }

  // The loop goes over the list as it was found; it cannot change under a loop that returns.
  function CallSpec(s: Stream, ls: seq<Listener>, event: Event): Ran
    decreases |ls|
  {
    if ls == [] then Ran(Returned, s)
    else
      var r := RunSpec(s, ls[0].script, Some(event));
      if r.Stopped() then r else CallSpec(r.s, ls[1..], event)
  }

  function Entered(hub: Hub, event: Event): Hub {
    hub.(depth := Emitters.Up(hub.depth), log := hub.log + [event])
  }

  function Left(hub: Hub, event: Event): Hub {
    hub.(depth := Emitters.Down(hub.depth), lists := Spent(hub.lists, event))
  }

  function EmitSpec(s: Stream, event: Event): Ran {
    if !Emittable(s.hub) then Refused(s)
    else
      var r := CallSpec(s.(hub := Entered(s.hub, event)), ListOf(s.hub.lists, event), event);
      if r.Stopped() then r else Ran(Returned, r.s.(hub := Left(r.s.hub, event)))
  }

  // ------------------------------------------------------------------------------------------
  // Completions. run_if_valid does nothing for a stream that is gone, and catches what a handler throws.

  function Caught(r: Ran): Stream {
    if r.how == Threw then Announce(r.s, ErrorRaised).s else r.s
  }

  // emit_data_received: data counts as handed out once the first listener is called with it
  function DeliverSpec(s: Stream, data: string): Ran {
    var heard := Emittable(s.hub) && s.hub.lists.onData != [];
    EmitSpec(if heard then s.(input := s.input.(handedOut := s.input.handedOut + data)) else s, DataReceived)
  }

  // The buffer that bridges a late listener is delivered first, as an emission of its own.
  function FlushSpec(s: Stream): Ran {
    if s.input.buffer == "" then Ran(Returned, s)
    else DeliverSpec(s.(input := s.input.(buffer := "")), s.input.buffer)
  }

  function Buffered(input: Input, chunk: string): Input {
    input.(buffer := input.buffer + chunk)
  }

  function Counted(s: Stream, chunk: string): Stream {
    s.(input := s.input.(bytesRead := s.input.bytesRead + |chunk|))
  }

  function TakeChunkSpec(s: Stream, chunk: string): Ran {
    if s.hub.lists.onData == [] then Ran(Returned, Counted(s.(input := Buffered(s.input, chunk)), chunk))
    else
      var flushed := FlushSpec(s);
      if flushed.Stopped() then flushed
      else
        var r := DeliverSpec(flushed.s, chunk);
        if r.Stopped() then r else Ran(Returned, Counted(r.s, chunk))
  }

  function Arrived(s: Stream, chunk: string): Stream {
    s.(input := s.input.(received := s.input.received + chunk))
  }

  function ReadHandlerSpec(s: Stream, chunk: string, err: ReadError): Ran {
    if err.OtherError? then Announce(s, ErrorRaised)
    else
      var r := if chunk == "" then Ran(Returned, s) else TakeChunkSpec(Arrived(s, chunk), chunk);
      if !r.Stopped() && err.NoError? && !r.s.closed then Ran(Returned, r.s.(reading := true)) else r
  }

  // handle_read
  function HandleReadSpec(s: Stream, chunk: string, err: ReadError): Stream {
    var s0 := s.(reading := false);
    if s.held then Caught(ReadHandlerSpec(s0, chunk, err)) else s0
  }

  function CompletedSpec(s: Stream, ok: bool): Ran {
    if ok then EmitSpec(s, WriteCompletion) else Announce(s, ErrorRaised)
  }

  function Decremented(s: Stream): Stream {
    s.(output := s.output.(pending := s.output.pending - 1))
  }

  function WriteHandlerSpec(s: Stream, ok: bool): Ran {
    var r := CompletedSpec(s, ok);
    if r.Stopped() then r
    else if Semaphores.DrainedBy(r.s.output.pending) then EmitSpec(Decremented(r.s), AllWritesCompleted)
    else Ran(Returned, Decremented(r.s))
  }

  function Finished(s: Stream, data: string): Stream {
    s.(output := s.output.(inFlight := s.output.inFlight - multiset{data}))
  }

  // handle_write, for a write that was in flight
  function HandleWriteSpec(s: Stream, data: string, ok: bool): Stream {
    var s0 := Finished(s, data);
    var s1 := if s.held then Caught(WriteHandlerSpec(s0, ok)) else s0;
    if !s1.held && s1.spare then Decremented(s1) else s1
  }

  // ------------------------------------------------------------------------------------------
  // Runs

  datatype Op =
    | Arrive(chunk: string, err: ReadError)
    | Complete(data: string, ok: bool)
    | Do(act: Act)

  // Only writes that are in flight complete, which is the I/O service's promise.
  predicate Enabled(s: Stream, op: Op) {
    op.Complete? ==> op.data in s.output.inFlight
  }

  function Step(s: Stream, op: Op): Stream {
    match op
    case Arrive(chunk, err) => HandleReadSpec(s, chunk, err)
    case Complete(data, ok) => HandleWriteSpec(s, data, ok)
    case Do(act) => ActSpec(s, act, None).s
  }

  predicate IsRun(s: Stream, ops: seq<Op>)
    decreases |ops|
  {
    ops == [] || (Enabled(s, ops[0]) && IsRun(Step(s, ops[0]), ops[1..]))
  }

  function After(s: Stream, ops: seq<Op>): Stream
    decreases |ops|
  {
    if ops == [] then s else After(Step(s, ops[0]), ops[1..])
  }
}
