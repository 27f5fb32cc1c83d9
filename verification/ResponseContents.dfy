/** What a handler's calls put into a response: the message on the wire carries the status, the headers and
    the body that the calls say, read off the calls alone. */
module ResponseContents {
  import S = SocketStream
  import StreamLaws
  import opened Wrappers
  import opened HttpHeaders
  import opened ServerResponse

  // ------------------------------------------------------------------------------------------
  // Reading the calls

  // The calls that send what has not been sent yet.
  predicate Sends(op: Op) {
    op.Send? || op.End? || (op.Close? && op.sendResponse) || op.PrepareRaw?
  }

  // How many calls come before the first of them.
  function DraftLength(ops: seq<Op>): (n: nat)
    ensures n <= |ops| && (n < |ops| ==> Sends(ops[n]))
    ensures forall i :: 0 <= i < n ==> !Sends(ops[i])
  {
    if ops == [] || Sends(ops[0]) then 0 else 1 + DraftLength(ops[1..])
  }

  // What was written since the body was last cleared.
  function Written(ops: seq<Op>): string {
    if ops == [] then ""
    else
      var n := |ops| - 1;
      match ops[n]
      case Append(data) => Written(ops[..n]) + data
      case ClearBody => ""
      case _ => Written(ops[..n])
  }

  function Fields(ops: seq<Op>): seq<Header> {
    if ops == [] then []
    else
      var n := |ops| - 1;
      Fields(ops[..n]) + (if ops[n].AddHeader? then [Header(ops[n].name, ops[n].value)] else [])
  }

  // The status line that was sent, if any.
  function LineSent(ops: seq<Op>): Phase {
    if ops == [] then Blank
    else
      var n := |ops| - 1;
      if ops[n].SendStatus? then Status(ops[n].code, ops[n].reason) else LineSent(ops[..n])
  }

  // The raw bytes of a script, as long as the socket takes them.
  function RawWritten(x: Served, ops: seq<Op>): string
    decreases |ops|
  {
    if ops == [] then ""
    else
      (if ops[0].WriteRaw? && Live(x.s) then ops[0].data else "") + RawWritten(Step(x, ops[0]).x, ops[1..])
  }

  // The message that the first sending call completes, given the calls before it.
  function Composed(ops: seq<Op>, op: Op): Phase
    requires Sends(op)
  {
    var line := if LineSent(ops).Blank? then Status(200, "OK") else LineSent(ops);
    var text := Written(ops);
    if op.PrepareRaw? then Whole(line.code, line.reason, Dated(Fields(ops), op.date), op.length, "")
    else Whole(line.code, line.reason, Dated(Fields(ops), op.date), |text|, text)
  }

  // The message of a whole run.
  function Contents(s: S.Stream, ops: seq<Op>): Phase
    requires DraftLength(ops) < |ops|
  {
    var k := DraftLength(ops);
    var message := Composed(ops[..k], ops[k]);
    message.(payload := message.payload + RawWritten(After(Served(FRESH, s), ops[..k + 1]), ops[k + 1..]))
  }

  // The headers with a date: an empty Date header is filled in, a missing one is put last.
  function Dated(hs: seq<Header>, date: string): (r: seq<Header>)
    ensures |hs| <= |r| <= |hs| + 1
    ensures forall i :: 0 <= i < |hs| && r[i] != hs[i] ==> hs[i] == Header("Date", "") && r[i] == Header("Date", date)
    ensures |r| > |hs| ==> r[|hs|] == Header("Date", date)
  {
    if hs == [] then [Header("Date", date)]
    else if hs[0].name == "Date" then [if hs[0].value == "" then Header("Date", date) else hs[0]] + hs[1..]
    else [hs[0]] + Dated(hs[1..], date)
  }

  lemma WithDateSkips(h: Header, rest: seq<Header>, date: string)
    requires h.name != "Date"
    ensures WithDate([h] + rest, date) == [h] + WithDate(rest, date)
  {
    var hs := [h] + rest;
    assert hs[1..] == rest;
    var i := Find(rest, "Date");
    assert Find(hs, "Date") == 1 + i;
    if i < |rest| {
      assert hs[i + 1] == rest[i];
    }
  }

  lemma {:induction false} DatedIsWithDate(hs: seq<Header>, date: string)
    ensures Dated(hs, date) == WithDate(hs, date)
  {
    if hs == [] {
      assert WithDate([], date) == [] + [Header("Date", date)];
    } else {
      assert hs == [hs[0]] + hs[1..];
      if hs[0].name != "Date" {
        DatedIsWithDate(hs[1..], date);
        WithDateSkips(hs[0], hs[1..], date);
      } else {
        assert Find(hs, "Date") == 0 && hs[0 := Header("Date", date)] == [Header("Date", date)] + hs[1..];
      }
    }
  }

  // ------------------------------------------------------------------------------------------
  // Runs from their end

  lemma {:induction false} AfterLast(x: Served, ops: seq<Op>)
    requires ops != []
    ensures After(x, ops) == Step(After(x, ops[..|ops| - 1]), ops[|ops| - 1]).x
    decreases |ops|
  {
    if |ops| > 1 {
      var y := Step(x, ops[0]).x;
      AfterLast(y, ops[1..]);
      assert ops[1..][..|ops| - 2] == ops[..|ops| - 1][1..];
    } else {
      assert ops[1..] == [] && ops[..0] == [];
    }
  }

  lemma {:induction false} AfterBoth(x: Served, first: seq<Op>, rest: seq<Op>)
    ensures After(x, first + rest) == After(After(x, first), rest)
    ensures AllDisciplined(x, first + rest) <==> AllDisciplined(x, first) && AllDisciplined(After(x, first), rest)
    decreases |first|
  {
    if first == [] {
      assert first + rest == rest;
    } else {
      assert (first + rest)[0] == first[0] && (first + rest)[1..] == first[1..] + rest;
      AfterBoth(Step(x, first[0]).x, first[1..], rest);
    }
  }

  lemma {:induction false} PhaseBoth(phase: Phase, x: Served, first: seq<Op>, rest: seq<Op>)
    ensures PhaseAfter(phase, x, first + rest) == PhaseAfter(PhaseAfter(phase, x, first), After(x, first), rest)
    decreases |first|
  {
    if first == [] {
      assert first + rest == rest;
    } else {
      assert (first + rest)[0] == first[0] && (first + rest)[1..] == first[1..] + rest;
      PhaseBoth(NextPhase(phase, x, first[0]), Step(x, first[0]).x, first[1..], rest);
    }
  }

  // A run cut after its first k calls.
  lemma Cut(x: Served, ops: seq<Op>, k: nat)
    requires AllDisciplined(x, ops) && k <= |ops|
    ensures AllDisciplined(x, ops[..k]) && AllDisciplined(After(x, ops[..k]), ops[k..])
    ensures After(After(x, ops[..k]), ops[k..]) == After(x, ops)
    ensures PhaseAfter(PhaseAfter(Blank, x, ops[..k]), After(x, ops[..k]), ops[k..]) == PhaseAfter(Blank, x, ops)
  {
    assert ops[..k] + ops[k..] == ops;
    AfterBoth(x, ops[..k], ops[k..]);
    PhaseBoth(Blank, x, ops[..k], ops[k..]);
  }

  // ------------------------------------------------------------------------------------------
  // A socket that no longer takes bytes never does again

  lemma StepStaysDead(x: Served, op: Op)
    requires !Live(x.s)
    ensures !Live(Step(x, op).x.s)
  {
    match op
    case SendStatus(code, reason) => WriteWrites(x.s, StatusLine(code, reason), true);
    case SendHeaders(date) => WriteWrites(x.s, HeadersToString(WithDate(x.r.headers, date)), true);
    case SendBody => BodyWrites(x.s, x.r.body);
    case Send(date) => SendStaysDead(x, date);
    case End(date) => SendStaysDead(x, date);
    case Close(_, date) => SendStaysDead(x, date);
    case PrepareRaw(n, date) =>
      var x0 := x.(r := x.r.(bodySent := true, body := ""));
      SendStaysDead(x0, date);
      LengthWrites(SendSpec(x0, date).x.s, n);
    case WriteRaw(data, async) => WriteWrites(x.s, data, async);
    case Socket(event) => StreamLaws.StepLatches(x.s, event);
    case _ =>
  }

  lemma SendStaysDead(x: Served, date: string)
    requires !Live(x.s)
    ensures !Live(SendSpec(x, date).x.s)
  {
    if x.s.held {
      SendWrites(x, date);
    }
  }

  lemma {:induction false} DeadPhasesStay(phase: Phase, x: Served, ops: seq<Op>)
    requires !Live(x.s)
    ensures PhaseAfter(phase, x, ops) == phase
    decreases |ops|
  {
    if ops != [] {
      StepStaysDead(x, ops[0]);
      DeadPhasesStay(phase, Step(x, ops[0]).x, ops[1..]);
    }
  }

  // ------------------------------------------------------------------------------------------
  // Before the first sending call

  predicate Drafting(op: Op) {
    !Sends(op) && !op.SendHeaders? && !op.SendBody? && !op.Reset?
  }

  lemma DraftStep(x: Served, op: Op)
    requires Drafting(op)
    ensures var r := Step(x, op).x.r;
      && r.headersSent == x.r.headersSent && r.bodySent == x.r.bodySent && r.raw == x.r.raw
      && r.body == (if op.Append? then x.r.body + op.data else if op.ClearBody? then "" else x.r.body)
      && r.headers == x.r.headers + (if op.AddHeader? then [Header(op.name, op.value)] else [])
  {
    assert x.r.headers + [] == x.r.headers;
  }

  /** Up to the first sending call, the buffered body and headers are what the calls have written. */
  lemma {:induction false} DraftsCollect(s: S.Stream, ops: seq<Op>)
    requires forall i :: 0 <= i < |ops| ==> Drafting(ops[i])
    ensures var r := After(Served(FRESH, s), ops).r;
      && r.body == Written(ops) && r.headers == Fields(ops) && !r.headersSent && !r.bodySent && r.raw.None?
    decreases |ops|
  {
    if ops != [] {
      var n := |ops| - 1;
      DraftsCollect(s, ops[..n]);
      AfterLast(Served(FRESH, s), ops);
      DraftStep(After(Served(FRESH, s), ops[..n]), ops[n]);
      assert Fields(ops[..n]) + [] == Fields(ops[..n]);
    }
  }

  lemma DraftPhase(phase: Phase, x: Served, op: Op)
    requires Framed(phase, x) && Disciplined(x, op) && Drafting(op) && !phase.Whole? && x.r.raw.None?
    ensures Live(x.s) ==> NextPhase(phase, x, op) == if op.SendStatus? then Status(op.code, op.reason) else phase
  {
  }

  lemma {:induction false} DraftPhases(s: S.Stream, ops: seq<Op>)
    requires s.output.wire == "" && AllDisciplined(Served(FRESH, s), ops)
    requires forall i :: 0 <= i < |ops| ==> Drafting(ops[i])
    ensures var x := Served(FRESH, s);
      Live(After(x, ops).s) ==> PhaseAfter(Blank, x, ops) == LineSent(ops)
    decreases |ops|
  {
    var x := Served(FRESH, s);
    if ops != [] && Live(After(x, ops).s) {
      var n := |ops| - 1;
      var y := After(x, ops[..n]);
      assert [ops[n]][1..] == [];
      Cut(x, ops, n);
      assert ops[n..] == [ops[n]];
      AfterLast(x, ops);
      DraftPhases(s, ops[..n]);
      DraftsCollect(s, ops[..n]);
      ResponsesAreFramed(Blank, x, ops[..n]);
      if !Live(y.s) {
        StepStaysDead(y, ops[n]);
      }
      LineSentIsNoMessage(ops[..n]);
      DraftPhase(LineSent(ops[..n]), y, ops[n]);
      assert PhaseAfter(LineSent(ops[..n]), y, [ops[n]]) == NextPhase(LineSent(ops[..n]), y, ops[n]);
    }
  }

  lemma {:induction false} LineSentIsNoMessage(ops: seq<Op>)
    ensures !LineSent(ops).Whole?
  {
    if ops != [] {
      LineSentIsNoMessage(ops[..|ops| - 1]);
    }
  }

  // ------------------------------------------------------------------------------------------
  // After it

  function RawByte(x: Served, op: Op): string {
    if op.WriteRaw? && Live(x.s) then op.data else ""
  }

  lemma MessageStep(phase: Phase, x: Served, op: Op)
    requires phase.Whole? && Framed(phase, x) && Disciplined(x, op)
    ensures NextPhase(phase, x, op) == phase.(payload := phase.payload + RawByte(x, op))
  {
    assert phase.payload + "" == phase.payload;
  }

  // A message on the wire stays as it is, but for raw bytes.
  lemma {:induction false} MessagesStay(phase: Phase, x: Served, ops: seq<Op>)
    requires phase.Whole? && Framed(phase, x) && AllDisciplined(x, ops)
    ensures PhaseAfter(phase, x, ops) == phase.(payload := phase.payload + RawWritten(x, ops))
    ensures x.r.raw.None? ==> RawWritten(x, ops) == ""
    decreases |ops|
  {
    if ops == [] {
      assert phase.payload + "" == phase.payload;
    } else {
      var y := Step(x, ops[0]).x;
      var raw := RawByte(x, ops[0]);
      StepFrames(phase, x, ops[0]);
      MessageStep(phase, x, ops[0]);
      MessagesStay(NextPhase(phase, x, ops[0]), y, ops[1..]);
      Regrouped(phase.payload, raw, RawWritten(y, ops[1..]));
      if x.r.raw.None? {
        RawStaysNone(x, ops[0]);
        assert "" + "" == "";
      }
    }
  }

  lemma Regrouped(a: string, b: string, c: string)
    ensures a + b + c == a + (b + c)
  {
  }

  lemma RawStaysNone(x: Served, op: Op)
    requires x.r.headersSent && x.r.bodySent && Disciplined(x, op) && x.r.raw.None?
    ensures Step(x, op).x.r.raw.None? && !op.WriteRaw?
  {
    match op
    case Send(date) => if x.s.held { SendWrites(x, date); }
    case End(date) => if x.s.held { SendWrites(x, date); }
    case Close(_, date) => if x.s.held { SendWrites(x, date); }
    case _ =>
  }

  // ------------------------------------------------------------------------------------------
  // The first sending call, and the whole run

  lemma SendingPhase(phase: Phase, x: Served, ops: seq<Op>, op: Op)
    requires Live(x.s) && Sends(op) && phase == LineSent(ops) && !phase.Whole?
    requires x.r.body == Written(ops) && x.r.headers == Fields(ops)
    ensures NextPhase(phase, x, op) == Composed(ops, op)
  {
    DatedIsWithDate(x.r.headers, op.date);
  }

  lemma NotSentByDrafts(s: S.Stream, ops: seq<Op>)
    requires s.output.wire == "" && AllDisciplined(Served(FRESH, s), ops)
    requires forall i :: 0 <= i < |ops| ==> Drafting(ops[i])
    ensures !PhaseAfter(Blank, Served(FRESH, s), ops).Whole?
  {
    DraftsCollect(s, ops);
    ResponsesAreFramed(Blank, Served(FRESH, s), ops);
  }

  lemma {:induction false} DraftsAreDrafting(x: Served, ops: seq<Op>)
    requires AllDisciplined(x, ops) && forall i :: 0 <= i < |ops| ==> !Sends(ops[i])
    ensures forall i :: 0 <= i < |ops| ==> Drafting(ops[i])
    decreases |ops|
  {
    if ops != [] {
      assert forall i :: 0 <= i < |ops[1..]| ==> ops[1..][i] == ops[i + 1];
      DraftsAreDrafting(Step(x, ops[0]).x, ops[1..]);
      forall i | 0 <= i < |ops| ensures Drafting(ops[i]) {
        assert i > 0 ==> Drafting(ops[1..][i - 1]);
      }
    }
  }

  // A message only comes of a call that sends, on a socket that takes it.
  lemma MessagesAreSent(s: S.Stream, ops: seq<Op>)
    requires s.output.wire == "" && AllDisciplined(Served(FRESH, s), ops)
    requires PhaseAfter(Blank, Served(FRESH, s), ops).Whole?
    ensures var k := DraftLength(ops);
      && k < |ops| && Live(After(Served(FRESH, s), ops[..k]).s)
      && forall i :: 0 <= i < k ==> Drafting(ops[i])
  {
    var x := Served(FRESH, s);
    var k := DraftLength(ops);
    var y := After(x, ops[..k]);
    Cut(x, ops, k);
    DraftsAreDrafting(x, ops[..k]);
    NotSentByDrafts(s, ops[..k]);
    assert forall i :: 0 <= i < k ==> ops[..k][i] == ops[i];
    if !Live(y.s) {
      DeadPhasesStay(PhaseAfter(Blank, x, ops[..k]), y, ops[k..]);
    }
  }

  // The first sending call and everything after it.
  lemma SentFrom(s: S.Stream, first: seq<Op>, y: Served, rest: seq<Op>)
    requires rest != [] && Sends(rest[0]) && Live(y.s) && AllDisciplined(y, rest)
    requires Framed(LineSent(first), y) && !LineSent(first).Whole?
    requires y.r.body == Written(first) && y.r.headers == Fields(first) && y.r.raw.None?
    ensures var z := Step(y, rest[0]).x;
      var message := Composed(first, rest[0]);
      && PhaseAfter(LineSent(first), y, rest) == message.(payload := message.payload + RawWritten(z, rest[1..]))
      && (!rest[0].PrepareRaw? ==> RawWritten(z, rest[1..]) == "")
  {
    SendingPhase(LineSent(first), y, first, rest[0]);
    StepFrames(LineSent(first), y, rest[0]);
    MessagesStay(Composed(first, rest[0]), Step(y, rest[0]).x, rest[1..]);
    if !rest[0].PrepareRaw? {
      SendingIsNotRaw(y, rest[0]);
    }
  }

  // Where a run on a live socket stands before its first sending call.
  lemma DraftState(s: S.Stream, ops: seq<Op>)
    requires s.output.wire == "" && AllDisciplined(Served(FRESH, s), ops)
    requires forall i :: 0 <= i < |ops| ==> Drafting(ops[i])
    requires Live(After(Served(FRESH, s), ops).s)
    ensures var y := After(Served(FRESH, s), ops);
      && PhaseAfter(Blank, Served(FRESH, s), ops) == LineSent(ops) && !LineSent(ops).Whole? && Framed(LineSent(ops), y)
      && y.r.body == Written(ops) && y.r.headers == Fields(ops) && y.r.raw.None?
  {
    DraftPhases(s, ops);
    DraftsCollect(s, ops);
    LineSentIsNoMessage(ops);
    ResponsesAreFramed(Blank, Served(FRESH, s), ops);
  }

  lemma FirstSending(s: S.Stream, ops: seq<Op>, k: nat)
    requires s.output.wire == "" && AllDisciplined(Served(FRESH, s), ops)
    requires k == DraftLength(ops) < |ops| && Live(After(Served(FRESH, s), ops[..k]).s)
    requires forall i :: 0 <= i < k ==> Drafting(ops[i])
    ensures PhaseAfter(Blank, Served(FRESH, s), ops) == Contents(s, ops)
    ensures !ops[k].PrepareRaw? ==> RawWritten(After(Served(FRESH, s), ops[..k + 1]), ops[k + 1..]) == ""
  {
    var x := Served(FRESH, s);
    var y := After(x, ops[..k]);
    Cut(x, ops, k);
    DraftState(s, ops[..k]);
    SentFrom(s, ops[..k], y, ops[k..]);
    AfterLast(x, ops[..k + 1]);
    assert ops[..k + 1][..k] == ops[..k] && ops[k..][1..] == ops[k + 1..];
  }

  lemma SendingIsNotRaw(x: Served, op: Op)
    requires Sends(op) && !op.PrepareRaw? && x.r.raw.None?
    ensures Step(x, op).x.r.raw.None?
  {
    if x.s.held {
      SendWrites(x, op.date);
    }
  }

  lemma WireIsPhase(s: S.Stream, ops: seq<Op>)
    requires s.output.wire == "" && AllDisciplined(Served(FRESH, s), ops)
    ensures After(Served(FRESH, s), ops).s.output.wire == PhaseText(PhaseAfter(Blank, Served(FRESH, s), ops))
  {
    ResponsesAreFramed(Blank, Served(FRESH, s), ops);
  }

  /** What a run of a fresh response has put on its wire once there is a message: the status line that was
      asked for, or 200 OK; the headers that were added, in order, with a date; and the text that was written
      since the body was last cleared, up to the first call that sends. With a raw body, the raw bytes that
      the socket took, under the length declared for them. */
  lemma ContentsAreAsWritten(s: S.Stream, ops: seq<Op>)
    requires s.output.wire == "" && AllDisciplined(Served(FRESH, s), ops)
    requires PhaseAfter(Blank, Served(FRESH, s), ops).Whole?
    ensures DraftLength(ops) < |ops|
    ensures PhaseAfter(Blank, Served(FRESH, s), ops) == Contents(s, ops)
    ensures After(Served(FRESH, s), ops).s.output.wire == PhaseText(Contents(s, ops))
  {
    MessagesAreSent(s, ops);
    FirstSending(s, ops, DraftLength(ops));
    WireIsPhase(s, ops);
  }

  /** Without a raw body that is exactly what was written: the wire can be told from the calls alone. */
  lemma BodiesAreAsWritten(s: S.Stream, ops: seq<Op>)
    requires s.output.wire == "" && AllDisciplined(Served(FRESH, s), ops)
    requires PhaseAfter(Blank, Served(FRESH, s), ops).Whole?
    requires forall i :: 0 <= i < |ops| ==> !ops[i].PrepareRaw?
    ensures var k := DraftLength(ops);
      && k < |ops|
      && var line := if LineSent(ops[..k]).Blank? then Status(200, "OK") else LineSent(ops[..k]);
         var body := Written(ops[..k]);
         After(Served(FRESH, s), ops).s.output.wire
         == Message(StatusLine(line.code, line.reason), Dated(Fields(ops[..k]), ops[k].date), |body|, body)
  {
    ContentsAreAsWritten(s, ops);
    MessagesAreSent(s, ops);
    FirstSending(s, ops, DraftLength(ops));
    LineSentIsNoMessage(ops[..DraftLength(ops)]);
    var body := Written(ops[..DraftLength(ops)]);
    assert body + "" == body;
  }
}
