/** The socket stream as an object. Each method performs the source's statements on the fields and is
    proved to compute what SocketStream.dfy specifies, so the theorems of StreamLaws.dfy hold of it. */
module NetSocketStreams {
  import opened Wrappers
  import Emitters
  import Semaphores
  import opened SocketStream

  class NetSocketStream {
    var closed: bool
    var end: bool
    var responseBuffers: string
    var bytesRead: nat
    var pendingWrites: int
    var emitDepth: int
    var lists: Lists
    var reading: bool
    var held: bool
    const spare: bool
    ghost var received: string
    ghost var handedOut: string
    ghost var wire: string
    ghost var inFlight: multiset<string>
    ghost var log: seq<Event>

    ghost function Now(): Stream
      reads this
    {
      Stream(closed, end, reading, held, spare, Input(responseBuffers, bytesRead, received, handedOut),
             Output(pendingWrites, inFlight, wire), Hub(emitDepth, log, lists))
    }

    constructor (maxListeners: nat, spare: bool)
      ensures Now() == Stream(false, false, false, true, spare, Input("", 0, "", ""), Output(0, multiset{}, ""),
                              Hub(0, [], Lists([], [], [], maxListeners)))
    {
      closed, end, reading, held, this.spare := false, false, false, true, spare;
      responseBuffers, bytesRead, pendingWrites, emitDepth := "", 0, 0, 0;
      lists := Lists([], [], [], maxListeners);
      received, handedOut, wire, inFlight, log := "", "", "", multiset{}, [];
    }

    // emit up to the depth test; false means that it threw
    method Enter(event: Event) returns (entered: bool)
      modifies this
      ensures entered == Emittable(old(Now()).hub)
      ensures Now() == if entered then old(Now()).(hub := Entered(old(Now()).hub, event)) else Refused(old(Now())).s
    {
      emitDepth := Emitters.Up(emitDepth);
      entered := emitDepth <= Emitters.MAX_EMIT_DEPTH;
      if entered {
        log := log + [event];
      }
    }

    method Tell(event: Event) returns (how: How)
      requires event == Closed || event == ErrorRaised
      requires -128 <= emitDepth <= 127
      modifies this
      ensures Ran(how, Now()) == Announce(old(Now()), event)
    {
      var entered := Enter(event);
      if entered {
        emitDepth := Emitters.Down(emitDepth);
      }
      how := if entered then Returned else Threw;
    }

    method Emit(event: Event) returns (how: How)
      requires -128 <= emitDepth <= 127
      modifies this
      ensures Ran(how, Now()) == EmitSpec(old(Now()), event)
      ensures -128 <= emitDepth <= 127
    {
      var callbacks := ListOf(lists, event);
      var entered := Enter(event);
      if !entered {
        return Threw;
      }
      how := CallListeners(callbacks, event);
      if how != Returned {
        return;
      }
      lists := Spent(lists, event);
      emitDepth := Emitters.Down(emitDepth);
    }

    // the loop of emit_impl
    method CallListeners(callbacks: seq<Listener>, event: Event) returns (how: How)
      requires -128 <= emitDepth <= 127
      modifies this
      ensures Ran(how, Now()) == CallSpec(old(Now()), callbacks, event)
      ensures -128 <= emitDepth <= 127
    {
      ghost var s := Now();
      for i := 0 to |callbacks|
        invariant -128 <= emitDepth <= 127
        invariant CallSpec(Now(), callbacks[i..], event) == CallSpec(s, callbacks, event)
      {
        assert callbacks[i..][0] == callbacks[i] && callbacks[i..][1..] == callbacks[i + 1..];
        how := Run(callbacks[i].script, Some(event));
        if how != Returned {
          return;
        }
      }
      how := Returned;
    }

    // a listener's body; within is the event whose listeners are being called, if any
    method Run(script: seq<Act>, within: Option<Event>) returns (how: How)
      requires -128 <= emitDepth <= 127
      modifies this
      ensures Ran(how, Now()) == RunSpec(old(Now()), script, within)
      ensures -128 <= emitDepth <= 127
    {
      ghost var s := Now();
      for i := 0 to |script|
        invariant -128 <= emitDepth <= 127
        invariant RunSpec(Now(), script[i..], within) == RunSpec(s, script, within)
      {
        assert script[i..][0] == script[i] && script[i..][1..] == script[i + 1..];
        how := Perform(script[i], within);
        if how != Returned {
          return;
        }
      }
      how := Returned;
    }

    method Perform(act: Act, within: Option<Event>) returns (how: How)
      requires -128 <= emitDepth <= 127
      modifies this
      ensures Ran(how, Now()) == ActSpec(old(Now()), act, within)
      ensures -128 <= emitDepth <= 127
    {
      how := Returned;
      match act
      case Read => var _ := ReadBuffer();
      case Write(data, async) => how := WriteData(data, async);
      case WriteRange(data, async) => how := WriteBytes(data, async);
      case End => EndStream();
      case Close(announce) => how := CloseStream(announce);
      case Release => held := false;
      case Listen(event, l) => how := AddListener(event, l, within);
      case Unlisten(event, id) => how := RemoveListener(event, id, within);
      case Throw => how := Threw;
    }

    // add_listener on the stream's emitter, up to the change of the list
    method AddListener(event: Event, l: Listener, within: Option<Event>) returns (how: How)
      requires -128 <= emitDepth <= 127
      modifies this
      ensures Ran(how, Now()) == ListenSpec(old(Now()), event, l, within)
      ensures -128 <= emitDepth <= 127
    {
      var list := ListOf(lists, event);
      if lists.maxListeners != 0 && |list| >= lists.maxListeners {
        return Threw;
      }
      how := Change(event, list + [l], within);
    }

    // remove_listener on the stream's emitter
    method RemoveListener(event: Event, id: int, within: Option<Event>) returns (how: How)
      requires -128 <= emitDepth <= 127
      modifies this
      ensures Ran(how, Now()) == UnlistenSpec(old(Now()), event, id, within)
      ensures -128 <= emitDepth <= 127
    {
      var kept := Without(ListOf(lists, event), id);
      how := Returned;
      if kept != ListOf(lists, event) {
        how := Change(event, kept, within);
      }
    }

    // announces a change of a list, then makes it
    method Change(event: Event, list: seq<Listener>, within: Option<Event>) returns (how: How)
      requires -128 <= emitDepth <= 127
      modifies this
      ensures -128 <= emitDepth <= 127
      ensures Ran(how, Now()) ==
        if !Emittable(old(Now()).hub) then Refused(old(Now()))
        else if within == Some(event) then Ran(Undefined, old(Now()))
        else Ran(Returned, old(Now()).(hub := old(Now()).hub.(lists := WithList(old(Now()).hub.lists, event, list))))
    {
      emitDepth := Emitters.Up(emitDepth);
      if emitDepth > Emitters.MAX_EMIT_DEPTH {
        return Threw;
      }
      emitDepth := Emitters.Down(emitDepth);
      if within == Some(event) {
        return Undefined;
      }
      lists := WithList(lists, event, list);
      how := Returned;
    }

    // read: swaps the buffer out
    method ReadBuffer() returns (data: string)
      modifies this
      ensures Now() == old(Now()).(input := ReadAll(old(Now()).input)) && data == old(responseBuffers)
    {
      data := responseBuffers;
      responseBuffers := "";
      handedOut := handedOut + data;
    }

    // async_write and write of a buffer, send_file and async_send_file
    method WriteData(data: string, async: bool) returns (how: How)
      requires -128 <= emitDepth <= 127
      modifies this
      ensures Ran(how, Now()) == WriteSpec(old(Now()), data, async)
      ensures -128 <= emitDepth <= 127
    {
      if closed || end {
        how := Tell(ErrorRaised);
        return;
      }
      how := Returned;
      if async {
        pendingWrites := pendingWrites + 1;
        inFlight := inFlight + multiset{data};
      }
      wire := wire + data;
    }

    // the templated writes, which test for an empty range first
    method WriteBytes(data: string, async: bool) returns (how: How)
      requires -128 <= emitDepth <= 127
      modifies this
      ensures Ran(how, Now()) == ActSpec(old(Now()), WriteRange(data, async), None)
      ensures -128 <= emitDepth <= 127
    {
      if data == "" {
        return Returned;
      }
      how := WriteData(data, async);
    }

    method EndStream()
      modifies this
      ensures Now() == EndSpec(old(Now()))
    {
      end := true;
    }

    method CloseStream(announce: bool) returns (how: How)
      requires -128 <= emitDepth <= 127
      modifies this
      ensures Ran(how, Now()) == CloseSpec(old(Now()), announce)
      ensures -128 <= emitDepth <= 127
    {
      closed, end := true, true;
      how := Returned;
      if announce {
        how := Tell(Closed);
      }
    }

    method Deliver(data: string) returns (how: How)
      requires -128 <= emitDepth <= 127
      modifies this
      ensures Ran(how, Now()) == DeliverSpec(old(Now()), data)
      ensures -128 <= emitDepth <= 127
    {
      if Emitters.Up(emitDepth) <= Emitters.MAX_EMIT_DEPTH && lists.onData != [] {
        handedOut := handedOut + data;
      }
      how := Emit(DataReceived);
    }

    method Flush() returns (how: How)
      requires -128 <= emitDepth <= 127
      modifies this
      ensures Ran(how, Now()) == FlushSpec(old(Now()))
      ensures -128 <= emitDepth <= 127
    {
      if responseBuffers == "" {
        return Returned;
      }
      var buff := responseBuffers;
      responseBuffers := "";
      how := Deliver(buff);
    }

    // handle_read's part under bytes_transferred > 0
    method TakeChunk(chunk: string) returns (how: How)
      requires -128 <= emitDepth <= 127
      modifies this
      ensures Ran(how, Now()) == TakeChunkSpec(old(Now()), chunk)
      ensures -128 <= emitDepth <= 127
    {
      if |lists.onData| > 0 {
        how := Flush();
        if how != Returned {
          return;
        }
        how := Deliver(chunk);
        if how != Returned {
          return;
        }
      } else {
        responseBuffers := responseBuffers + chunk;
      }
      bytesRead := bytesRead + |chunk|;
      how := Returned;
    }

    // the catch clause of emit_error_on_throw
    method CatchError(how: How)
      requires -128 <= emitDepth <= 127
      modifies this
      ensures Now() == Caught(Ran(how, old(Now())))
      ensures -128 <= emitDepth <= 127
    {
      if how == Threw {
        var _ := Tell(ErrorRaised);
      }
    }

    // handle_read
    method HandleRead(chunk: string, err: ReadError)
      requires -128 <= emitDepth <= 127
      modifies this
      ensures Now() == HandleReadSpec(old(Now()), chunk, err)
      ensures -128 <= emitDepth <= 127
    {
      reading := false;
      if !held {
        return;
      }
      var how := Returned;
      if err.OtherError? {
        how := Tell(ErrorRaised);
      } else {
        if chunk != "" {
          received := received + chunk;
          how := TakeChunk(chunk);
        }
        if how == Returned && err.NoError? && !closed {
          reading := true;
        }
      }
      CatchError(how);
    }

    // handle_write
    method HandleWrite(ghost data: string, ok: bool)
      requires -128 <= emitDepth <= 127 && data in inFlight
      modifies this
      ensures Now() == HandleWriteSpec(old(Now()), data, ok)
      ensures -128 <= emitDepth <= 127
    {
      inFlight := inFlight - multiset{data};
      ghost var s0 := Finished(old(Now()), data);
      assert Now() == s0;
      if held {
        var how := FinishWrite(ok);
        CatchError(how);
        assert Now() == Caught(WriteHandlerSpec(s0, ok));
      }
      if !held && spare {
        pendingWrites := pendingWrites - 1;
      }
    }

    method FinishWrite(ok: bool) returns (how: How)
      requires -128 <= emitDepth <= 127
      modifies this
      ensures Ran(how, Now()) == WriteHandlerSpec(old(Now()), ok)
      ensures -128 <= emitDepth <= 127
    {
      if ok {
        how := Emit(WriteCompletion);
      } else {
        how := Tell(ErrorRaised);
      }
      if how != Returned {
        return;
      }
      var drained := Semaphores.DrainedBy(pendingWrites);
      pendingWrites := pendingWrites - 1;
      if drained {
        how := Emit(AllWritesCompleted);
      }
    }
  }
}
