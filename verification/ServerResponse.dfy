/** Server responses (src/lib_http_server_response.cpp) and error pages (src/lib_http_site.cpp), on a
    socket stream. The clock's Date text is a parameter of the operations that read it. */
module ServerResponse {
  import S = SocketStream
  import StreamLaws
  import opened Wrappers
  import opened Text
  import opened HttpHeaders
  import HttpMethods
  import HttpRequest

  // raw records the length given to prepare_raw_write; the source keeps no such member.
  datatype Response = Response(statusSent: bool, headersSent: bool, bodySent: bool,
    headers: seq<Header>, body: string, raw: Option<nat>)

  // A response and the socket it holds weakly.
  datatype Served = Served(r: Response, s: S.Stream)

  // How a call ended: the error of a refused write may itself be refused, and then escapes as an exception.
  datatype Out = Out(how: S.How, x: Served) {
    predicate Stopped() {
      how != S.Returned
    }
  }

  const FRESH := Response(false, false, false, [], "", None)

  function StatusText(code: nat, reason: string): string {
    "HTTP/1.1 " + HttpRequest.Decimal(code) + " " + reason
  }

  function StatusLine(code: nat, reason: string): string {
    StatusText(code, reason) + CRLF
  }

  const OK_LINE := StatusLine(200, "OK")

  function ContentLength(n: nat): Header {
    Header("Content-Length", HttpRequest.Decimal(n))
  }

  // m_headers["Date"], which adds the header when it is missing, given a value when it is empty
  function WithDate(hs: seq<Header>, date: string): seq<Header> {
    var i := Find(hs, "Date");
    if i == |hs| then hs + [Header("Date", date)]
    else if hs[i].value == "" then hs[i := Header("Date", date)]
    else hs
  }

  // write_async on the socket
  function Put(s: S.Stream, data: string): S.Ran {
    S.WriteSpec(s, data, true)
  }

  function PutLength(s: S.Stream, n: nat): S.Ran {
    var r := Put(s, HeaderToString(ContentLength(n)));
    if r.Stopped() then r else Put(r.s, BLANK_LINE)
  }

  function PutBody(s: S.Stream, body: string): S.Ran {
    var r := PutLength(s, |body|);
    if r.Stopped() then r else Put(r.s, body)
  }

  // ------------------------------------------------------------------------------------------
  // Operations. Each does nothing to a socket that has expired, and then says that nothing was sent; an
  // exception leaves the flag of the part as it was.

  function SendStatusSpec(x: Served, line: string): Out {
    if !x.s.held then Out(S.Returned, x.(r := x.r.(statusSent := false)))
    else
      var put := Put(x.s, line);
      Out(put.how, Served(if put.Stopped() then x.r else x.r.(statusSent := true), put.s))
  }

  function SendHeadersSpec(x: Served, date: string): Out {
    if !x.s.held then Out(S.Returned, x.(r := x.r.(headersSent := false)))
    else
      var r := x.r.(headers := WithDate(x.r.headers, date));
      var put := Put(x.s, HeadersToString(r.headers));
      Out(put.how, Served(if put.Stopped() then r else r.(headersSent := true), put.s))
  }

  function SendBodySpec(x: Served): Out {
    if !x.s.held then Out(S.Returned, x.(r := x.r.(bodySent := false)))
    else
      var put := PutBody(x.s, x.r.body);
      Out(put.how, Served(if put.Stopped() then x.r else x.r.(bodySent := true), put.s))
  }

  function StatusIfMissing(x: Served): Out {
    if x.r.statusSent then Out(S.Returned, x) else SendStatusSpec(x, OK_LINE)
  }

  function HeadersIfMissing(x: Served, date: string): Out {
    if x.r.headersSent then Out(S.Returned, x) else SendHeadersSpec(x, date)
  }

  function BodyIfMissing(x: Served): Out {
    if x.r.bodySent then Out(S.Returned, x) else SendBodySpec(x)
  }

  function SendSpec(x: Served, date: string): Out {
    var o1 := StatusIfMissing(x);
    if o1.Stopped() then o1
    else
      var o2 := HeadersIfMissing(o1.x, date);
      if o2.Stopped() then o2 else BodyIfMissing(o2.x)
  }

  function PrepareRawSpec(x: Served, n: nat, date: string): Out {
    if !x.s.held then Out(S.Returned, x)
    else
      var o := SendSpec(x.(r := x.r.(bodySent := true, body := "")), date);
      if o.Stopped() then o
      else
        var put := PutLength(o.x.s, n);
        Out(put.how, Served(if put.Stopped() then o.x.r else o.x.r.(raw := Some(n)), put.s))
  }

  function WriteRawSpec(x: Served, data: string, async: bool): Out {
    if !x.s.held then Out(S.Returned, x)
    else
      var put := S.WriteSpec(x.s, data, async);
      Out(put.how, x.(s := put.s))
  }

  function EndSpec(x: Served, date: string): Out {
    var o := SendSpec(x, date);
    if o.Stopped() || !o.x.s.held then o else Out(S.Returned, o.x.(s := S.EndSpec(o.x.s)))
  }

  function StopSpec(x: Served): Out {
    if !x.s.held then Out(S.Returned, x)
    else
      var closed := S.CloseSpec(S.EndSpec(x.s), true);
      Out(closed.how, x.(s := closed.s))
  }

  function CloseSpec(x: Served, sendResponse: bool, date: string): Out {
    if !sendResponse then StopSpec(x)
    else
      var o := SendSpec(x, date);
      if o.Stopped() then o else StopSpec(o.x)
  }

  datatype Op =
    | SendStatus(code: nat, reason: string)
    | SendHeaders(date: string)
    | SendBody
    | Send(date: string)
    | End(date: string)
    | Close(sendResponse: bool, date: string)
    | Reset
    | AddHeader(name: string, value: string)
    | Append(data: string)
    | ClearBody
    | PrepareRaw(length: nat, date: string)
    | WriteRaw(data: string, async: bool)  // write_raw_body, write_file and async_write_file
    | Socket(event: S.Op)                  // something else happens to the socket

  function Step(x: Served, op: Op): Out {
    match op
    case SendStatus(code, reason) => SendStatusSpec(x, StatusLine(code, reason))
    case SendHeaders(date) => SendHeadersSpec(x, date)
    case SendBody => SendBodySpec(x)
    case Send(date) => SendSpec(x, date)
    case End(date) => EndSpec(x, date)
    case Close(sendResponse, date) => CloseSpec(x, sendResponse, date)
    case Reset => Out(S.Returned, x.(r := FRESH))
    case AddHeader(name, value) => Out(S.Returned, x.(r := x.r.(headers := x.r.headers + [Header(name, value)])))
    case Append(data) => Out(S.Returned, x.(r := x.r.(body := x.r.body + data)))
    case ClearBody => Out(S.Returned, x.(r := x.r.(body := "")))
    case PrepareRaw(n, date) => PrepareRawSpec(x, n, date)
    case WriteRaw(data, async) => WriteRawSpec(x, data, async)
    case Socket(event) => Out(S.Returned, x.(s := S.Step(x.s, event)))
  }

  // Calls by one or many callers, each of whom may catch what a call throws and go on.
  function After(x: Served, ops: seq<Op>): Served
    decreases |ops|
  {
    if ops == [] then x else After(Step(x, ops[0]).x, ops[1..])
  }

  // Calls of one function body, which an exception ends.
  function Script(x: Served, ops: seq<Op>): Out
    decreases |ops|
  {
    if ops == [] then Out(S.Returned, x)
    else
      var o := Step(x, ops[0]);
      if o.Stopped() then o else Script(o.x, ops[1..])
  }

  // ------------------------------------------------------------------------------------------
  // What a write does to the socket

  predicate Live(s: S.Stream) {
    s.held && S.Writable(s)
  }

  predicate SameState(s: S.Stream, t: S.Stream) {
    t.closed == s.closed && t.end == s.end && t.held == s.held
  }

  // A write on a writable stream always returns; any other changes nothing that matters here.
  predicate Wrote(s: S.Stream, r: S.Ran, data: string) {
    && SameState(s, r.s)
    && (S.Writable(s) ==> !r.Stopped() && r.s.output.wire == s.output.wire + data)
    && (!S.Writable(s) ==> r.s.output == s.output)
  }

  predicate Sent(x: Served, o: Out, data: string) {
    Wrote(x.s, S.Ran(o.how, o.x.s), data)
  }

  lemma WriteWrites(s: S.Stream, data: string, async: bool)
    ensures Wrote(s, S.WriteSpec(s, data, async), data)
  {
  }

  lemma WroteBoth(s: S.Stream, r: S.Ran, q: S.Ran, a: string, b: string)
    requires Wrote(s, r, a) && if r.Stopped() then q == r else Wrote(r.s, q, b)
    ensures Wrote(s, q, a + b)
  {
    assert s.output.wire + a + b == s.output.wire + (a + b);
  }

  lemma NothingWritten(s: S.Stream)
    ensures Wrote(s, S.Ran(S.Returned, s), "")
  {
    assert s.output.wire + "" == s.output.wire;
  }

  function LengthText(n: nat): string {
    HeaderToString(ContentLength(n)) + BLANK_LINE
  }

  lemma LengthWrites(s: S.Stream, n: nat)
    ensures Wrote(s, PutLength(s, n), LengthText(n))
  {
    var r := Put(s, HeaderToString(ContentLength(n)));
    WriteWrites(s, HeaderToString(ContentLength(n)), true);
    WriteWrites(r.s, BLANK_LINE, true);
    WroteBoth(s, r, PutLength(s, n), HeaderToString(ContentLength(n)), BLANK_LINE);
  }

  lemma BodyWrites(s: S.Stream, body: string)
    ensures Wrote(s, PutBody(s, body), LengthText(|body|) + body)
  {
    var r := PutLength(s, |body|);
    LengthWrites(s, |body|);
    WriteWrites(r.s, body, true);
    WroteBoth(s, r, PutBody(s, body), LengthText(|body|), body);
  }

  function StatusPart(r: Response): string {
    if r.statusSent then "" else OK_LINE
  }

  function HeadersPart(r: Response, date: string): string {
    if r.headersSent then "" else HeadersToString(WithDate(r.headers, date))
  }

  function BodyPart(r: Response): string {
    if r.bodySent then "" else LengthText(|r.body|) + r.body
  }

  // The writes of one send, in order.
  function SendText(r: Response, date: string): string {
    StatusPart(r) + (HeadersPart(r, date) + BodyPart(r))
  }

  lemma StatusWrites(x: Served)
    requires x.s.held
    ensures var o := StatusIfMissing(x);
      Sent(x, o, StatusPart(x.r)) && o.x.r == x.r.(statusSent := x.r.statusSent || !o.Stopped())
  {
    NothingWritten(x.s);
    WriteWrites(x.s, OK_LINE, true);
  }

  lemma HeadersWrite(x: Served, date: string)
    requires x.s.held
    ensures var o := HeadersIfMissing(x, date);
      && Sent(x, o, HeadersPart(x.r, date))
      && o.x.r == x.r.(headersSent := x.r.headersSent || !o.Stopped(), headers := o.x.r.headers)
      && o.x.r.headers == (if x.r.headersSent then x.r.headers else WithDate(x.r.headers, date))
  {
    NothingWritten(x.s);
    WriteWrites(x.s, HeadersToString(WithDate(x.r.headers, date)), true);
  }

  lemma BodyIsWritten(x: Served)
    requires x.s.held
    ensures var o := BodyIfMissing(x);
      Sent(x, o, BodyPart(x.r)) && o.x.r == x.r.(bodySent := x.r.bodySent || !o.Stopped())
  {
    NothingWritten(x.s);
    BodyWrites(x.s, x.r.body);
  }

  lemma SendWrites(x: Served, date: string)
    requires x.s.held
    ensures var o := SendSpec(x, date);
      && Sent(x, o, SendText(x.r, date))
      && (o.x.r.headers == x.r.headers || (o.x.r.headers == WithDate(x.r.headers, date) && !x.r.headersSent))
      && (!o.Stopped() && !x.r.headersSent ==> o.x.r.headers == WithDate(x.r.headers, date))
      && o.x.r.raw == x.r.raw && o.x.r.body == x.r.body
      && (x.r.statusSent ==> o.x.r.statusSent) && (x.r.headersSent ==> o.x.r.headersSent)
      && (x.r.bodySent ==> o.x.r.bodySent)
      && (!o.Stopped() ==> o.x.r.statusSent && o.x.r.headersSent && o.x.r.bodySent)
  {
    var o := SendSpec(x, date);
    var o1 := StatusIfMissing(x);
    StatusWrites(x);
    var rest := HeadersPart(x.r, date) + BodyPart(x.r);
    if !o1.Stopped() {
      var o2 := HeadersIfMissing(o1.x, date);
      HeadersWrite(o1.x, date);
      if !o2.Stopped() {
        BodyIsWritten(o2.x);
      }
      WroteBoth(o1.x.s, S.Ran(o2.how, o2.x.s), S.Ran(o.how, o.x.s), HeadersPart(x.r, date), BodyPart(x.r));
    }
    WroteBoth(x.s, S.Ran(o1.how, o1.x.s), S.Ran(o.how, o.x.s), StatusPart(x.r), rest);
  }

  // Sending again after a send that returned does nothing; after one that threw it still puts nothing on
  // the wire; and once the socket has expired sending is silent.
  lemma SendingAgainAddsNothing(x: Served, date: string, again: string)
    ensures x.s.held && !SendSpec(x, date).Stopped() ==> SendSpec(SendSpec(x, date).x, again) == SendSpec(x, date)
    ensures SendSpec(SendSpec(x, date).x, again).x.s.output.wire == SendSpec(x, date).x.s.output.wire
    ensures !x.s.held ==> SendSpec(x, date).x.s == x.s
  {
    if x.s.held {
      SendWrites(x, date);
      SendWrites(SendSpec(x, date).x, again);
    }
  }

  // ------------------------------------------------------------------------------------------
  // Well-formed wires

  /** The header that ends a head is the length header, and its value is the number in decimal. */
  lemma LengthsAreWritten(n: nat)
    ensures IsLengthHeader(ContentLength(n)) && HttpRequest.Value(ContentLength(n).value) == n
  {
    HttpRequest.DecimalIsTheNumber(n);
  }

  // What is on a wire: nothing, a status line, or a status line and a head with the bytes after it.
  datatype Phase =
    | Blank
    | Status(code: nat, reason: string)
    | Whole(code: nat, reason: string, headers: seq<Header>, length: nat, payload: string)

  // A head that ends with its Content-Length, and the bytes after it.
  function HeadAndBody(headers: seq<Header>, length: nat, payload: string): string {
    HeadersToString(headers) + (LengthText(length) + payload)
  }

  function Message(line: string, headers: seq<Header>, length: nat, payload: string): string {
    line + HeadAndBody(headers, length, payload)
  }

  function PhaseText(phase: Phase): string {
    match phase
    case Blank => ""
    case Status(code, reason) => StatusLine(code, reason)
    case Whole(code, reason, headers, length, payload) => Message(StatusLine(code, reason), headers, length, payload)
  }

  // Header names are compared without regard to case (section 3.2 of RFC 7230).
  predicate IsLengthHeader(h: Header) {
    HttpMethods.EqualNoCase(h.name, "Content-Length")
  }

  // One line that is read back as the same header, and no length of the message.
  predicate GoodHeader(h: Header) {
    SingleLine(h) && Readable(h) && !StartsWithSpace(h.name) && !IsLengthHeader(h)
  }

  predicate AllGood(hs: seq<Header>) {
    forall i :: 0 <= i < |hs| ==> GoodHeader(hs[i])
  }

  predicate GoodReason(reason: string) {
    Free(reason, {'\r', '\n'})
  }

  predicate GoodDate(date: string) {
    Free(date, {'\r', '\n'}) && !StartsWithSpace(date)
  }

  predicate GoodPhase(phase: Phase) {
    (!phase.Blank? ==> GoodReason(phase.reason)) && (phase.Whole? ==> AllGood(phase.headers))
  }

  predicate Complete(phase: Phase) {
    phase.Whole? ==> phase.length == |phase.payload|
  }

  /** A wire that holds nothing, one status line, or one whole message with a single Content-Length, which
      is the number of bytes after the head. */
  ghost predicate WellFormed(wire: string) {
    exists phase: Phase :: GoodPhase(phase) && Complete(phase) && wire == PhaseText(phase)
  }

  lemma {:induction false} HeadersAppend(hs: seq<Header>, h: Header)
    ensures HeadersToString(hs + [h]) == HeadersToString(hs) + (HeaderToString(h) + CRLF)
    ensures AllSingleLine(hs + [h]) <==> AllSingleLine(hs) && SingleLine(h)
    ensures AllReadable(hs + [h]) <==> AllReadable(hs) && Readable(h)
  {
    if hs == [] {
      assert [h][1..] == [];
      assert HeadersToString([h]) == HeaderToString(h) + CRLF + "";
    } else {
      HeadersAppend(hs[1..], h);
      assert (hs + [h])[1..] == hs[1..] + [h];
      var a, b, c := HeaderToString(hs[0]) + CRLF, HeadersToString(hs[1..]), HeaderToString(h) + CRLF;
      assert a + (b + c) == a + b + c;
    }
  }

  /** What follows the status line of a message is read back as exactly the headers that were sent, with
      the Content-Length last. */
  lemma MessageHeadReadsBack(hs: seq<Header>, length: nat, payload: string)
    requires AllSingleLine(hs) && AllReadable(hs) && (hs != [] ==> !StartsWithSpace(hs[0].name))
    ensures ParseHeaders(HeadAndBody(hs, length, payload)) == Success(hs + [ContentLength(length)])
  {
    var h := ContentLength(length);
    LengthIsReadable(length);
    HeadersAppend(hs, h);
    assert (hs + [h])[0] == if hs == [] then h else hs[0];
    HeaderBlockRoundTrip(hs + [h], payload);
    HeadText(HeadersToString(hs), HeaderToString(h), payload);
  }

  lemma LengthIsReadable(length: nat)
    ensures SingleLine(ContentLength(length)) && Readable(ContentLength(length))
  {
    HttpRequest.DecimalDigits(length);
  }

  lemma HeadText(a: string, b: string, payload: string)
    ensures a + (b + CRLF) + CRLF + payload == a + (b + BLANK_LINE + payload)
  {
    assert BLANK_LINE == CRLF + CRLF;
  }

  lemma {:induction false} GoodIsReadable(hs: seq<Header>)
    requires AllGood(hs)
    ensures AllSingleLine(hs) && AllReadable(hs) && (hs != [] ==> !StartsWithSpace(hs[0].name))
  {
    if hs != [] {
      assert GoodHeader(hs[0]);
      assert forall i :: 0 <= i < |hs[1..]| ==> hs[1..][i] == hs[i + 1];
      GoodIsReadable(hs[1..]);
    }
  }

  lemma Cancel(a: string, b: string, c: string, d: string)
    requires a + b == c + d && |a| == |c|
    ensures a == c && b == d
  {
    assert (a + b)[..|a|] == a && (c + d)[..|c|] == c && (a + b)[|a|..] == b && (c + d)[|c|..] == d;
  }

  lemma DecimalLength(n: nat)
    ensures |HttpRequest.Decimal(n)| >= 1 && (n < 10 <==> |HttpRequest.Decimal(n)| == 1)
  {
    if n >= 10 {
      assert |HttpRequest.Decimal(n / 10)| >= 1;
    }
  }

  lemma {:induction false} DecimalIsInjective(m: nat, n: nat)
    requires HttpRequest.Decimal(m) == HttpRequest.Decimal(n)
    ensures m == n
  {
    DecimalLength(m);
    DecimalLength(n);
    var last := [('0' as int + m % 10) as char];
    var last2 := [('0' as int + n % 10) as char];
    if m >= 10 {
      Cancel(HttpRequest.Decimal(m / 10), last, HttpRequest.Decimal(n / 10), last2);
      DecimalIsInjective(m / 10, n / 10);
    } else {
      assert "" + last == last && "" + last2 == last2;
    }
    assert last[0] == last2[0];
  }

  // A status line ends at the first line break of the text it starts.
  lemma StatusLineEnds(code: nat, reason: string, rest: string)
    requires GoodReason(reason)
    ensures Search(StatusLine(code, reason) + rest, CRLF) == |StatusText(code, reason)|
  {
    var text := StatusText(code, reason);
    HttpRequest.DecimalDigits(code);
    assert Free(text, {'\r'});
    SearchSkips(text, CRLF + rest, CRLF);
    assert StatusLine(code, reason) + rest == text + (CRLF + rest) && (CRLF + rest)[..2] == CRLF;
  }

  lemma CodeAndReason(code: nat, reason: string)
    ensures StatusText(code, reason) == "HTTP/1.1 " + (HttpRequest.Decimal(code) + (" " + reason))
    ensures FindAny(HttpRequest.Decimal(code) + (" " + reason), {' '}) == |HttpRequest.Decimal(code)|
  {
    HttpRequest.DecimalDigits(code);
    FindAnyAt(HttpRequest.Decimal(code), " " + reason, {' '});
  }

  lemma StatusTextIsUnique(code: nat, reason: string, code2: nat, reason2: string)
    requires StatusText(code, reason) == StatusText(code2, reason2)
    ensures code == code2 && reason == reason2
  {
    var d, d2 := HttpRequest.Decimal(code), HttpRequest.Decimal(code2);
    CodeAndReason(code, reason);
    CodeAndReason(code2, reason2);
    Cancel("HTTP/1.1 ", d + (" " + reason), "HTTP/1.1 ", d2 + (" " + reason2));
    Cancel(d, " " + reason, d2, " " + reason2);
    Cancel(" ", reason, " ", reason2);
    DecimalIsInjective(code, code2);
  }

  lemma StatusLineIsUnique(code: nat, reason: string, rest: string, code2: nat, reason2: string, rest2: string)
    requires GoodReason(reason) && GoodReason(reason2)
    requires StatusLine(code, reason) + rest == StatusLine(code2, reason2) + rest2
    ensures code == code2 && reason == reason2 && rest == rest2
  {
    StatusLineEnds(code, reason, rest);
    StatusLineEnds(code2, reason2, rest2);
    Cancel(StatusLine(code, reason), rest, StatusLine(code2, reason2), rest2);
    Cancel(StatusText(code, reason), CRLF, StatusText(code2, reason2), CRLF);
    StatusTextIsUnique(code, reason, code2, reason2);
  }

  lemma GoodHeadReadsBack(hs: seq<Header>, length: nat, payload: string)
    requires AllGood(hs)
    ensures ParseHeaders(HeadAndBody(hs, length, payload)) == Success(hs + [ContentLength(length)])
  {
    GoodIsReadable(hs);
    MessageHeadReadsBack(hs, length, payload);
  }

  lemma LastHeader(hs: seq<Header>, h: Header, hs2: seq<Header>, h2: Header)
    requires hs + [h] == hs2 + [h2]
    ensures hs == hs2 && h == h2
  {
    var all, all2 := hs + [h], hs2 + [h2];
    assert |all| == |all2| && all[|hs|] == all2[|hs2|] && all[..|hs|] == hs && all2[..|hs2|] == hs2;
  }

  lemma HeadIsUnique(hs: seq<Header>, length: nat, payload: string, hs2: seq<Header>, length2: nat, payload2: string)
    requires AllGood(hs) && AllGood(hs2)
    requires HeadAndBody(hs, length, payload) == HeadAndBody(hs2, length2, payload2)
    ensures hs == hs2 && length == length2 && payload == payload2
  {
    GoodHeadReadsBack(hs, length, payload);
    GoodHeadReadsBack(hs2, length2, payload2);
    LastHeader(hs, ContentLength(length), hs2, ContentLength(length2));
    DecimalIsInjective(length, length2);
    Cancel(HeadersToString(hs), LengthText(length) + payload, HeadersToString(hs), LengthText(length) + payload2);
    Cancel(LengthText(length), payload, LengthText(length), payload2);
  }

  // The head of a message holds a blank line, which no status line does.
  lemma HeadIsNoStatusLine(hs: seq<Header>, length: nat, payload: string, code: nat, reason: string)
    requires GoodReason(reason)
    ensures HeadAndBody(hs, length, payload) != StatusLine(code, reason)
  {
    var head, line := HeadAndBody(hs, length, payload), StatusLine(code, reason);
    HttpRequest.DecimalDigits(code);
    assert forall i :: 0 <= i < |line| - 2 ==> line[i] != '\r';
    var i := |HeadersToString(hs)| + |HeaderToString(ContentLength(length))|;
    assert head == HeadersToString(hs) + HeaderToString(ContentLength(length)) + (BLANK_LINE + payload);
    assert head[i] == '\r' && i < |head| - 2;
  }

  // The status line and what follows it, for a phase that has one.
  function RestText(phase: Phase): string
    requires !phase.Blank?
  {
    if phase.Status? then "" else HeadAndBody(phase.headers, phase.length, phase.payload)
  }

  lemma PhaseApart(phase: Phase)
    requires !phase.Blank?
    ensures PhaseText(phase) == StatusLine(phase.code, phase.reason) + RestText(phase)
    ensures phase.Status? <==> RestText(phase) == ""
  {
    assert phase.Status? ==> StatusLine(phase.code, phase.reason) + "" == StatusLine(phase.code, phase.reason);
  }

  /** A text is what at most one phase puts on the wire. */
  lemma PhaseIsUnique(phase: Phase, other: Phase)
    requires GoodPhase(phase) && GoodPhase(other) && PhaseText(phase) == PhaseText(other)
    ensures phase == other
  {
    if !phase.Blank? && !other.Blank? {
      PhaseApart(phase);
      PhaseApart(other);
      StatusLineIsUnique(phase.code, phase.reason, RestText(phase), other.code, other.reason, RestText(other));
      if phase.Whole? && other.Whole? {
        HeadIsUnique(phase.headers, phase.length, phase.payload, other.headers, other.length, other.payload);
      }
    }
  }

  lemma PhaseIsWellFormed(phase: Phase)
    requires GoodPhase(phase)
    ensures WellFormed(PhaseText(phase)) <==> Complete(phase)
  {
    if WellFormed(PhaseText(phase)) {
      var other: Phase :| GoodPhase(other) && Complete(other) && PhaseText(phase) == PhaseText(other);
      PhaseIsUnique(phase, other);
    }
  }

  // Two status lines in a row are nothing that a wire may hold.
  lemma TwoLinesAreMalformed(code: nat, reason: string, code2: nat, reason2: string)
    requires GoodReason(reason) && GoodReason(reason2)
    ensures !WellFormed(StatusLine(code, reason) + StatusLine(code2, reason2))
  {
    var wire := StatusLine(code, reason) + StatusLine(code2, reason2);
    if WellFormed(wire) {
      var other: Phase :| GoodPhase(other) && Complete(other) && wire == PhaseText(other);
      PhaseApart(other);
      StatusLineIsUnique(code, reason, StatusLine(code2, reason2), other.code, other.reason, RestText(other));
      if other.Whole? {
        HeadIsNoStatusLine(other.headers, other.length, other.payload, code2, reason2);
      }
    }
  }

  // ------------------------------------------------------------------------------------------
  // Framing

  // What the three flags and the wire say about each other while bytes can still be written.
  predicate Framed(phase: Phase, x: Served) {
    && x.s.output.wire == PhaseText(phase) && GoodPhase(phase) && AllGood(x.r.headers)
    && (Live(x.s) ==>
          x.r.statusSent == !phase.Blank? && x.r.headersSent == x.r.bodySent == phase.Whole?
          && (x.r.raw.Some? ==> phase.Whole?))
    && (phase.Whole? ==>
          x.r.statusSent && x.r.headersSent && x.r.bodySent
          && phase.length == (if x.r.raw.Some? then x.r.raw.value else |phase.payload|))
  }

  /** The calls a handler may make at a given moment: a status line only if none was sent, a raw length
      only before anything but the status, raw bytes only after it, no direct send_headers or send_body,
      no reset, and headers and dates on one line, no Content-Length among them. Anything may happen to the
      socket at any time, its end, its close and its loss included, that puts nothing on the wire. */
  predicate Disciplined(x: Served, op: Op) {
    match op
    case SendStatus(_, reason) => !x.r.statusSent && GoodReason(reason)
    case SendHeaders(_) => false
    case SendBody => false
    case Reset => false
    case AddHeader(name, value) => GoodHeader(Header(name, value))
    case Send(date) => GoodDate(date)
    case End(date) => GoodDate(date)
    case Close(_, date) => GoodDate(date)
    case PrepareRaw(_, date) => !x.r.headersSent && !x.r.bodySent && GoodDate(date)
    case WriteRaw(_, _) => x.r.raw.Some?
    case Socket(event) => S.Step(x.s, event).output.wire == x.s.output.wire
    case _ => true
  }

  predicate AllDisciplined(x: Served, ops: seq<Op>)
    decreases |ops|
  {
    ops == [] || (Disciplined(x, ops[0]) && AllDisciplined(Step(x, ops[0]).x, ops[1..]))
  }

  function NextPhase(phase: Phase, x: Served, op: Op): Phase {
    if !Live(x.s) then phase
    else match op
      case SendStatus(code, reason) => Status(code, reason)
      case Send(date) => SentPhase(phase, x.r, date)
      case End(date) => SentPhase(phase, x.r, date)
      case Close(sendResponse, date) => if sendResponse then SentPhase(phase, x.r, date) else phase
      case PrepareRaw(n, date) => WholePhase(phase, WithDate(x.r.headers, date), n, "")
      case WriteRaw(data, _) => if phase.Whole? then phase.(payload := phase.payload + data) else phase
      case _ => phase
  }

  function WholePhase(phase: Phase, headers: seq<Header>, length: nat, payload: string): Phase {
    if phase.Blank? then Whole(200, "OK", headers, length, payload)
    else Whole(phase.code, phase.reason, headers, length, payload)
  }

  // A message is sent once: a whole one stays as it is.
  function SentPhase(phase: Phase, r: Response, date: string): Phase {
    if phase.Whole? then phase else WholePhase(phase, WithDate(r.headers, date), |r.body|, r.body)
  }

  function PhaseAfter(phase: Phase, x: Served, ops: seq<Op>): Phase
    decreases |ops|
  {
    if ops == [] then phase else PhaseAfter(NextPhase(phase, x, ops[0]), Step(x, ops[0]).x, ops[1..])
  }

  lemma DatedIsGood(hs: seq<Header>, date: string)
    requires AllGood(hs) && GoodDate(date)
    ensures AllGood(WithDate(hs, date))
  {
    var h := Header("Date", date);
    assert GoodHeader(h);
    assert forall i :: 0 <= i < |WithDate(hs, date)| ==>
      WithDate(hs, date)[i] == h || (i < |hs| && WithDate(hs, date)[i] == hs[i]);
  }

  lemma SentText(phase: Phase, r: Response, date: string, length: nat, payload: string)
    requires !phase.Whole? && r.statusSent == !phase.Blank? && !r.headersSent
    ensures PhaseText(phase) + (StatusPart(r) + (HeadersPart(r, date) + (LengthText(length) + payload)))
         == PhaseText(WholePhase(phase, WithDate(r.headers, date), length, payload))
  {
    var rest := HeadAndBody(WithDate(r.headers, date), length, payload);
    if phase.Blank? {
      assert "" + (OK_LINE + rest) == OK_LINE + rest;
    } else {
      assert "" + rest == rest;
    }
  }

  lemma FirstSendFrames(phase: Phase, x: Served, date: string)
    requires Framed(phase, x) && GoodDate(date) && Live(x.s) && !phase.Whole?
    ensures var o := SendSpec(x, date);
      Framed(SentPhase(phase, x.r, date), o.x) && SameState(x.s, o.x.s) && !o.Stopped()
  {
    DatedIsGood(x.r.headers, date);
    SendWrites(x, date);
    SentText(phase, x.r, date, |x.r.body|, x.r.body);
  }

  lemma SendFrames(phase: Phase, x: Served, date: string)
    requires Framed(phase, x) && GoodDate(date)
    ensures var o := SendSpec(x, date);
      && Framed(if Live(x.s) then SentPhase(phase, x.r, date) else phase, o.x) && SameState(x.s, o.x.s)
      && (Live(x.s) ==> !o.Stopped())
  {
    DatedIsGood(x.r.headers, date);
    if Live(x.s) && !phase.Whole? {
      FirstSendFrames(phase, x, date);
    } else if x.s.held {
      SendWrites(x, date);
      NothingWritten(x.s);
    }
  }

  // The head alone, before a raw body, and the length after it.
  lemma RawText(phase: Phase, r: Response, n: nat, date: string)
    requires !phase.Whole? && r.statusSent == !phase.Blank? && !r.headersSent && r.bodySent
    ensures PhaseText(phase) + (SendText(r, date) + LengthText(n))
         == PhaseText(WholePhase(phase, WithDate(r.headers, date), n, ""))
  {
    SentText(phase, r, date, n, "");
    Regroup(StatusPart(r), HeadersPart(r, date), LengthText(n));
  }

  lemma Regroup(a: string, b: string, c: string)
    ensures a + (b + "") + c == a + (b + (c + ""))
  {
  }

  lemma RawFrames(phase: Phase, x: Served, n: nat, date: string)
    requires Framed(phase, x) && Disciplined(x, PrepareRaw(n, date))
    ensures Framed(NextPhase(phase, x, PrepareRaw(n, date)), PrepareRawSpec(x, n, date).x)
  {
    if x.s.held {
      DatedIsGood(x.r.headers, date);
      var x0 := x.(r := x.r.(bodySent := true, body := ""));
      var o := SendSpec(x0, date);
      SendWrites(x0, date);
      LengthWrites(o.x.s, n);
      if Live(x.s) {
        var put := PutLength(o.x.s, n);
        WroteBoth(x.s, S.Ran(o.how, o.x.s), put, SendText(x0.r, date), LengthText(n));
        RawText(phase, x0.r, n, date);
      }
    }
  }

  lemma RawBytesFrame(phase: Phase, x: Served, data: string, async: bool)
    requires Framed(phase, x) && x.r.raw.Some?
    ensures Framed(NextPhase(phase, x, WriteRaw(data, async)), WriteRawSpec(x, data, async).x)
  {
    WriteWrites(x.s, data, async);
    if Live(x.s) {
      PayloadGrows(phase, data);
    }
  }

  lemma PayloadGrows(phase: Phase, data: string)
    requires phase.Whole?
    ensures PhaseText(phase) + data == PhaseText(phase.(payload := phase.payload + data))
  {
    AppendedLast(StatusLine(phase.code, phase.reason), HeadersToString(phase.headers), LengthText(phase.length),
      phase.payload, data);
  }

  lemma AppendedLast(a: string, b: string, c: string, d: string, data: string)
    ensures a + (b + (c + d)) + data == a + (b + (c + (d + data)))
  {
    assert c + d + data == c + (d + data);
    assert b + (c + d) + data == b + (c + d + data);
    assert a + (b + (c + d)) + data == a + (b + (c + d) + data);
  }

  lemma EndFrames(phase: Phase, x: Served, date: string)
    requires Framed(phase, x) && GoodDate(date)
    ensures Framed(if Live(x.s) then SentPhase(phase, x.r, date) else phase, EndSpec(x, date).x)
  {
    SendFrames(phase, x, date);
  }

  lemma StopFrames(phase: Phase, x: Served)
    requires Framed(phase, x)
    ensures Framed(phase, StopSpec(x).x)
  {
  }

  lemma CloseFrames(phase: Phase, x: Served, date: string)
    requires Framed(phase, x) && GoodDate(date)
    ensures Framed(if Live(x.s) then SentPhase(phase, x.r, date) else phase, CloseSpec(x, true, date).x)
  {
    SendFrames(phase, x, date);
    StopFrames(if Live(x.s) then SentPhase(phase, x.r, date) else phase, SendSpec(x, date).x);
  }

  lemma SocketFrames(phase: Phase, x: Served, event: S.Op)
    requires Framed(phase, x) && Disciplined(x, Socket(event))
    ensures Framed(phase, Step(x, Socket(event)).x)
  {
    StreamLaws.StepLatches(x.s, event);
  }

  lemma StatusFrames(phase: Phase, x: Served, code: nat, reason: string)
    requires Framed(phase, x) && Disciplined(x, SendStatus(code, reason))
    ensures Framed(NextPhase(phase, x, SendStatus(code, reason)), Step(x, SendStatus(code, reason)).x)
  {
    var line := StatusLine(code, reason);
    WriteWrites(x.s, line, true);
    assert "" + line == line;
  }

  lemma StepFrames(phase: Phase, x: Served, op: Op)
    requires Framed(phase, x) && Disciplined(x, op)
    ensures Framed(NextPhase(phase, x, op), Step(x, op).x)
  {
    match op
    case SendStatus(code, reason) => StatusFrames(phase, x, code, reason);
    case Send(date) => SendFrames(phase, x, date);
    case End(date) => EndFrames(phase, x, date);
    case Close(sendResponse, date) => if sendResponse { CloseFrames(phase, x, date); } else { StopFrames(phase, x); }
    case PrepareRaw(n, date) => RawFrames(phase, x, n, date);
    case WriteRaw(data, async) => RawBytesFrame(phase, x, data, async);
    case Socket(event) => SocketFrames(phase, x, event);
    case _ =>
  }

  /** However a disciplined handler drives the response, with the socket ended, closed or lost at any
      point, the wire is empty, one status line, or one message: a head with a single Content-Length, which
      is the number of body bytes after it, or the length declared for a raw body. It is well formed exactly
      if the bytes after the head are as many as declared. */
  lemma {:induction false} ResponsesAreFramed(phase: Phase, x: Served, ops: seq<Op>)
    requires Framed(phase, x) && AllDisciplined(x, ops)
    ensures Framed(PhaseAfter(phase, x, ops), After(x, ops))
    ensures WellFormed(After(x, ops).s.output.wire) <==> Complete(PhaseAfter(phase, x, ops))
    decreases |ops|
  {
    if ops != [] {
      StepFrames(phase, x, ops[0]);
      ResponsesAreFramed(NextPhase(phase, x, ops[0]), Step(x, ops[0]).x, ops[1..]);
    } else {
      PhaseIsWellFormed(phase);
    }
  }

  /** Every response starts fresh, on a wire that holds nothing yet. Without a raw body its wire is well
      formed at every moment. */
  lemma FreshResponsesAreFramed(s: S.Stream, ops: seq<Op>)
    requires s.output.wire == "" && AllDisciplined(Served(FRESH, s), ops)
    ensures Framed(PhaseAfter(Blank, Served(FRESH, s), ops), After(Served(FRESH, s), ops))
    ensures var t := After(Served(FRESH, s), ops); t.r.raw.None? ==> WellFormed(t.s.output.wire)
  {
    ResponsesAreFramed(Blank, Served(FRESH, s), ops);
  }

  /** After a disciplined run, the message on the wire, its status line aside, is parsed to the headers that
      were sent and one Content-Length, the last. */
  lemma SentHeadsReadBack(phase: Phase, x: Served, ops: seq<Op>)
    requires Framed(phase, x) && AllDisciplined(x, ops) && PhaseAfter(phase, x, ops).Whole?
    ensures var sent := PhaseAfter(phase, x, ops);
      var wire := After(x, ops).s.output.wire;
      var line := StatusLine(sent.code, sent.reason);
      && line <= wire && ParseHeaders(wire[|line|..]) == Success(sent.headers + [ContentLength(sent.length)])
      && (forall i :: 0 <= i < |sent.headers| ==> !IsLengthHeader(sent.headers[i]))
  {
    ResponsesAreFramed(phase, x, ops);
    var sent := PhaseAfter(phase, x, ops);
    var line, rest := StatusLine(sent.code, sent.reason), HeadAndBody(sent.headers, sent.length, sent.payload);
    assert (line + rest)[|line|..] == rest;
    GoodHeadReadsBack(sent.headers, sent.length, sent.payload);
    assert forall i :: 0 <= i < |sent.headers| ==> GoodHeader(sent.headers[i]);
  }

  lemma StatusAfterMessage(phase: Phase, x: Served, code: nat, reason: string)
    requires Framed(phase, x) && GoodReason(reason) && Live(x.s) && phase.Whole?
    ensures var line := StatusLine(code, reason);
      WellFormed(Step(x, SendStatus(code, reason)).x.s.output.wire) <==> |phase.payload| + |line| == phase.length
  {
    var line := StatusLine(code, reason);
    WriteWrites(x.s, line, true);
    PayloadGrows(phase, line);
    PhaseIsWellFormed(phase.(payload := phase.payload + line));
  }

  /** What a status line does to a wire in any state: on a live socket that has one already, it is never
      right, unless it happens to fill up a raw body; otherwise it leaves the wire as good as it was. */
  lemma StatusOnAnyWire(phase: Phase, x: Served, code: nat, reason: string)
    requires Framed(phase, x) && GoodReason(reason)
    ensures WellFormed(Step(x, SendStatus(code, reason)).x.s.output.wire) <==>
      if Live(x.s) && x.r.statusSent
      then phase.Whole? && |phase.payload| + |StatusLine(code, reason)| == phase.length
      else Complete(phase)
  {
    var line := StatusLine(code, reason);
    WriteWrites(x.s, line, true);
    if !Live(x.s) {
      PhaseIsWellFormed(phase);
    } else if phase.Whole? {
      StatusAfterMessage(phase, x, code, reason);
    } else if phase.Status? {
      TwoLinesAreMalformed(phase.code, phase.reason, code, reason);
    } else {
      assert "" + line == line;
      PhaseIsWellFormed(Status(code, reason));
    }
  }

  /** The guard on send_status is exact: a well-formed wire stays well formed exactly unless the socket is
      live and a status line was sent before. */
  lemma StatusGuardIsExact(phase: Phase, x: Served, code: nat, reason: string)
    requires Framed(phase, x) && GoodReason(reason) && WellFormed(x.s.output.wire)
    ensures WellFormed(Step(x, SendStatus(code, reason)).x.s.output.wire) <==> !(Live(x.s) && x.r.statusSent)
  {
    PhaseIsWellFormed(phase);
    StatusOnAnyWire(phase, x, code, reason);
  }

  // ------------------------------------------------------------------------------------------
  // The end of the wire

  // Any number of responses over one socket; each call names the response it is made on.
  datatype Host = Host(responses: seq<Response>, s: S.Stream)

  datatype Call = Call(response: nat, op: Op)

  function Perform(host: Host, call: Call): Host {
    if call.response >= |host.responses| then host
    else
      var x := Step(Served(host.responses[call.response], host.s), call.op).x;
      Host(host.responses[call.response := x.r], x.s)
  }

  function PerformAll(host: Host, calls: seq<Call>): Host
    decreases |calls|
  {
    if calls == [] then host else PerformAll(Perform(host, calls[0]), calls[1..])
  }

  predicate Frozen(s: S.Stream, t: S.Stream) {
    s.end ==> t.end && t.output.wire == s.output.wire
  }

  lemma SendFrozen(x: Served, date: string)
    ensures Frozen(x.s, SendSpec(x, date).x.s)
  {
    if x.s.held {
      SendWrites(x, date);
    }
  }

  lemma RawFrozen(x: Served, n: nat, date: string)
    ensures Frozen(x.s, PrepareRawSpec(x, n, date).x.s)
  {
    if x.s.held {
      var x0 := x.(r := x.r.(bodySent := true, body := ""));
      SendFrozen(x0, date);
      LengthWrites(SendSpec(x0, date).x.s, n);
    }
  }

  lemma StepFrozen(x: Served, op: Op)
    ensures Frozen(x.s, Step(x, op).x.s)
  {
    match op
    case SendStatus(code, reason) => WriteWrites(x.s, StatusLine(code, reason), true);
    case SendHeaders(date) => WriteWrites(x.s, HeadersToString(WithDate(x.r.headers, date)), true);
    case SendBody => BodyWrites(x.s, x.r.body);
    case Send(date) => SendFrozen(x, date);
    case End(date) => SendFrozen(x, date);
    case Close(_, date) => SendFrozen(x, date);
    case PrepareRaw(n, date) => RawFrozen(x, n, date);
    case WriteRaw(data, async) => WriteWrites(x.s, data, async);
    case Socket(event) => StreamLaws.StepLatches(x.s, event);
    case _ =>
  }

  /** Once the stream has ended, no sequence of calls on any of its responses, reset, direct sends and
      whole second responses included, adds a byte to the wire. */
  lemma {:induction false} EndFreezesEveryResponse(host: Host, calls: seq<Call>)
    ensures Frozen(host.s, PerformAll(host, calls).s)
    decreases |calls|
  {
    if calls != [] {
      if calls[0].response < |host.responses| {
        StepFrozen(Served(host.responses[calls[0].response], host.s), calls[0].op);
      }
      EndFreezesEveryResponse(Perform(host, calls[0]), calls[1..]);
    }
  }

  // ------------------------------------------------------------------------------------------
  // Ending, closing, and sockets that are gone

  lemma EndingEnds(x: Served, date: string)
    requires x.s.held
    ensures var o := EndSpec(x, date);
      && (Live(x.s) ==> !o.Stopped())
      && (!o.Stopped() ==> o.x.s.end && o.x.r.statusSent && o.x.r.headersSent && o.x.r.bodySent)
  {
    SendWrites(x, date);
  }

  lemma StoppingCloses(x: Served)
    requires x.s.held
    ensures var o := StopSpec(x);
      && o.x.s.closed && o.x.s.end && o.x.r == x.r && o.x.s.output == x.s.output
      && (o.Stopped() <==> !S.Emittable(x.s.hub))
      && o.x.s.hub.log == x.s.hub.log + (if o.Stopped() then [] else [S.Closed])
  {
    assert x.s.hub.log + [] == x.s.hub.log;
  }

  /** An end that returns has sent everything and ended the stream, one on a live socket does return; a close
      has also closed it, with or without sending first, unless the sending threw. */
  lemma EndingAndClosing(x: Served, date: string)
    requires x.s.held
    ensures var o := EndSpec(x, date);
      && (Live(x.s) ==> !o.Stopped())
      && (!o.Stopped() ==> o.x.s.end && o.x.r.statusSent && o.x.r.headersSent && o.x.r.bodySent)
    ensures var o := CloseSpec(x, true, date);
      Live(x.s) ==> o.x.s.closed && o.x.s.end && o.x.r.statusSent && o.x.r.headersSent && o.x.r.bodySent
    ensures var o := CloseSpec(x, true, date); !o.Stopped() ==> o.x.s.closed && o.x.s.end
    ensures var o := CloseSpec(x, false, date); o.x.s.closed && o.x.s.end && o.x.r == x.r
  {
    EndingEnds(x, date);
    SendWrites(x, date);
    StoppingCloses(x);
    StoppingCloses(SendSpec(x, date).x);
  }

  /** On a socket that is gone every call returns, writes nothing, and does not claim to have sent anything. */
  lemma ExpiredSocketsTakeNothing(x: Served, op: Op)
    requires !x.s.held && !op.Socket?
    ensures var o := Step(x, op);
      && !o.Stopped() && o.x.s == x.s
      && (op.SendStatus? ==> !o.x.r.statusSent) && (op.SendHeaders? ==> !o.x.r.headersSent)
      && (op.SendBody? ==> !o.x.r.bodySent) && (op.PrepareRaw? || op.WriteRaw? ==> o.x.r == x.r)
      && (op.Send? || op.End? ==>
            && o.x.r.statusSent == x.r.statusSent && o.x.r.headersSent == x.r.headersSent
            && o.x.r.bodySent == x.r.bodySent)
  {
  }

  /** Declaring a raw body drops the buffered one, and everything but the raw bytes counts as sent. */
  lemma RawBodiesReplaceTheBuffer(x: Served, n: nat, date: string)
    requires Live(x.s)
    ensures var o := PrepareRawSpec(x, n, date);
      && !o.Stopped() && o.x.r.body == "" && o.x.r.raw == Some(n)
      && o.x.r.statusSent && o.x.r.headersSent && o.x.r.bodySent
  {
    var x0 := x.(r := x.r.(bodySent := true, body := ""));
    SendWrites(x0, date);
    LengthWrites(SendSpec(x0, date).x.s, n);
  }

  predicate Counts(s: S.Stream, t: S.Stream, n: nat) {
    t.output.pending == s.output.pending + n && |t.output.inFlight| == |s.output.inFlight| + n
  }

  /** The parts of a response go out asynchronously: the status and the headers are one write in flight each,
      the body is three; raw bytes are as they are asked for. */
  lemma PartsAreInFlight(x: Served, line: string, date: string, data: string, async: bool)
    requires Live(x.s)
    ensures Counts(x.s, SendStatusSpec(x, line).x.s, 1) && Counts(x.s, SendHeadersSpec(x, date).x.s, 1)
    ensures Counts(x.s, SendBodySpec(x).x.s, 3)
    ensures Counts(x.s, WriteRawSpec(x, data, async).x.s, if async then 1 else 0)
  {
  }

  /** A part that is sent by itself, though it was sent before, is written again. */
  lemma PartsAreWritten(x: Served, date: string)
    requires Live(x.s)
    ensures var o := SendHeadersSpec(x, date);
      && o.x.r == x.r.(headersSent := true, headers := WithDate(x.r.headers, date))
      && Sent(x, o, HeadersToString(WithDate(x.r.headers, date)))
    ensures var o := SendBodySpec(x);
      && o.x.r == x.r.(bodySent := true) && Sent(x, o, LengthText(|x.r.body|) + x.r.body)
  {
    WriteWrites(x.s, HeadersToString(WithDate(x.r.headers, date)), true);
    BodyWrites(x.s, x.r.body);
  }

  // ------------------------------------------------------------------------------------------
  // Error pages

  // An error listener is the finite script of calls it makes on the response.
  type Handlers = map<nat, seq<Op>>

  // create_http_server_error_response
  function DefaultErrorPage(code: nat, reason: string, date: string): seq<Op> {
    [SendStatus(code, reason), AddHeader("Content-Type", "text/plain"), AddHeader("Connection", "close"),
     Append(ErrorText(code, reason)), End(date), Close(true, date)]
  }

  function ErrorText(code: nat, reason: string): string {
    HttpRequest.Decimal(code) + " " + reason + CRLF
  }

  // emit_page_error: the listener for the code, else the one for any error, which is kept under 0
  function ErrorPage(handlers: Handlers, code: nat, reason: string, date: string): seq<Op> {
    [Reset] + (if code in handlers then handlers[code]
               else if 0 in handlers then handlers[0]
               else DefaultErrorPage(code, reason, date))
  }

  /** The listener for the code decides alone; without one, the listener for any error; without that one too,
      the default page. Whoever it is finds the response reset. */
  lemma ErrorListenersComeFirst(x: Served, handlers: Handlers, code: nat, reason: string, date: string)
    ensures var cleared := x.(r := FRESH);
      var page := Script(x, ErrorPage(handlers, code, reason, date));
      && (code in handlers ==> page == Script(cleared, handlers[code]))
      && (code !in handlers && 0 in handlers ==> page == Script(cleared, handlers[0]))
      && (code !in handlers && 0 !in handlers ==> page == Script(cleared, DefaultErrorPage(code, reason, date)))
  {
    var page := ErrorPage(handlers, code, reason, date);
    assert page[0] == Reset;
    assert code in handlers ==> page[1..] == handlers[code];
    assert code !in handlers && 0 in handlers ==> page[1..] == handlers[0];
    assert code !in handlers && 0 !in handlers ==> page[1..] == DefaultErrorPage(code, reason, date);
  }

  const ERROR_HEADERS := [Header("Content-Type", "text/plain"), Header("Connection", "close")]

  lemma ScriptUnfolds(x: Served, op: Op, rest: seq<Op>)
    ensures var o := Step(x, op); Script(x, [op] + rest) == if o.Stopped() then o else Script(o.x, rest)
  {
    assert ([op] + rest)[1..] == rest;
  }

  function WithHeader(x: Served, h: Header): Served {
    x.(r := x.r.(headers := x.r.headers + [h]))
  }

  lemma HeaderUnfolds(x: Served, h: Header, rest: seq<Op>)
    ensures Script(x, [AddHeader(h.name, h.value)] + rest) == Script(WithHeader(x, h), rest)
  {
    ScriptUnfolds(x, AddHeader(h.name, h.value), rest);
  }

  lemma TextUnfolds(x: Served, text: string, rest: seq<Op>)
    requires x.r.body == ""
    ensures Script(x, [Append(text)] + rest) == Script(x.(r := x.r.(body := text)), rest)
  {
    assert "" + text == text;
    ScriptUnfolds(x, Append(text), rest);
  }

  lemma StatusUnfolds(x: Served, code: nat, reason: string, rest: seq<Op>)
    ensures var o := SendStatusSpec(x.(r := FRESH), StatusLine(code, reason));
      Script(x, [Reset] + ([SendStatus(code, reason)] + rest)) == if o.Stopped() then o else Script(o.x, rest)
    ensures SendStatusSpec(x.(r := FRESH), StatusLine(code, reason)).x.r.headers == []
    ensures SendStatusSpec(x.(r := FRESH), StatusLine(code, reason)).x.r.body == ""
  {
    ScriptUnfolds(x, Reset, [SendStatus(code, reason)] + rest);
    ScriptUnfolds(x.(r := FRESH), SendStatus(code, reason), rest);
  }

  function Filled(x: Served, text: string): Served {
    x.(r := x.r.(headers := ERROR_HEADERS, body := text))
  }

  function LastCalls(date: string): seq<Op> {
    [End(date)] + [Close(true, date)]
  }

  function QuietCalls(text: string, date: string): seq<Op> {
    [AddHeader(ERROR_HEADERS[0].name, ERROR_HEADERS[0].value)]
    + ([AddHeader(ERROR_HEADERS[1].name, ERROR_HEADERS[1].value)] + ([Append(text)] + LastCalls(date)))
  }

  // The calls between the status and the end change the response only, and none of them throws.
  lemma QuietCallsUnfold(x: Served, text: string, date: string)
    requires x.r.headers == [] && x.r.body == ""
    ensures Script(x, QuietCalls(text, date)) == Script(Filled(x, text), LastCalls(date))
  {
    var x1 := WithHeader(x, ERROR_HEADERS[0]);
    var x2 := WithHeader(x1, ERROR_HEADERS[1]);
    var last := [Append(text)] + LastCalls(date);
    HeaderUnfolds(x, ERROR_HEADERS[0], [AddHeader(ERROR_HEADERS[1].name, ERROR_HEADERS[1].value)] + last);
    HeaderUnfolds(x1, ERROR_HEADERS[1], last);
    TextUnfolds(x2, text, LastCalls(date));
    assert x2.r.headers == ERROR_HEADERS;
  }

  lemma LastCallsUnfold(x: Served, date: string)
    ensures var o := EndSpec(x, date);
      Script(x, LastCalls(date)) == if o.Stopped() then o else CloseSpec(o.x, true, date)
  {
    var o := EndSpec(x, date);
    ScriptUnfolds(x, End(date), [Close(true, date)]);
    assert [Close(true, date)] + [] == [Close(true, date)];
    ScriptUnfolds(o.x, Close(true, date), []);
  }

  // What the default page comes to: a status, the page in the response, the end and the close.
  function PageSpec(x: Served, code: nat, reason: string, date: string): Out {
    var o1 := SendStatusSpec(x.(r := FRESH), StatusLine(code, reason));
    if o1.Stopped() then o1
    else
      var o2 := EndSpec(Filled(o1.x, ErrorText(code, reason)), date);
      if o2.Stopped() then o2 else CloseSpec(o2.x, true, date)
  }

  lemma PageUnfolds(x: Served, code: nat, reason: string, date: string)
    ensures Script(x, ErrorPage(map[], code, reason, date)) == PageSpec(x, code, reason, date)
  {
    var text := ErrorText(code, reason);
    var o := SendStatusSpec(x.(r := FRESH), StatusLine(code, reason));
    assert ErrorPage(map[], code, reason, date) == [Reset] + ([SendStatus(code, reason)] + QuietCalls(text, date));
    StatusUnfolds(x, code, reason, QuietCalls(text, date));
    QuietCallsUnfold(o.x, text, date);
    LastCallsUnfold(Filled(o.x, text), date);
  }

  lemma ClosingAgain(x: Served, date: string)
    requires x.s.held && x.s.end && x.r.statusSent && x.r.headersSent && x.r.bodySent
    ensures var t := CloseSpec(x, true, date).x; t.s.closed && t.s.end && t.s.output == x.s.output
  {
  }

  /** Without listeners, an error page on a live socket puts one whole message on the wire, whatever the
      response had sent or buffered before, and ends and closes the stream. */
  lemma DefaultErrorPageIsOneMessage(x: Served, code: nat, reason: string, date: string)
    requires Live(x.s)
    ensures var t := Script(x, ErrorPage(map[], code, reason, date)).x;
      var text := HttpRequest.Decimal(code) + " " + reason + CRLF;
      && t.s.closed && t.s.end
      && t.s.output.wire == x.s.output.wire
           + Message(StatusLine(code, reason),
                     [Header("Content-Type", "text/plain"), Header("Connection", "close"), Header("Date", date)],
                     |text|, text)
  {
    assert ERROR_HEADERS + [Header("Date", date)]
        == [Header("Content-Type", "text/plain"), Header("Connection", "close"), Header("Date", date)];
    var line, text := StatusLine(code, reason), ErrorText(code, reason);
    var o := SendStatusSpec(x.(r := FRESH), line);
    var x1 := Filled(o.x, text);
    PageUnfolds(x, code, reason, date);
    WriteWrites(x.s, line, true);
    SendWrites(x1, date);
    ClosingAgain(EndSpec(x1, date).x, date);
    PageText(x1.r, date);
    var sent := SendSpec(x1, date);
    WroteBoth(x.s, S.Ran(o.how, o.x.s), S.Ran(sent.how, sent.x.s), line, SendText(x1.r, date));
  }

  lemma PageText(r: Response, date: string)
    requires r == Response(true, false, false, ERROR_HEADERS, r.body, None)
    ensures SendText(r, date) == HeadAndBody(ERROR_HEADERS + [Header("Date", date)], |r.body|, r.body)
  {
    assert WithDate(ERROR_HEADERS, date) == ERROR_HEADERS + [Header("Date", date)] by {
      assert ERROR_HEADERS[1..][1..] == [];
    }
    var head := HeadersToString(WithDate(ERROR_HEADERS, date));
    assert head + (LengthText(|r.body|) + r.body) == "" + (head + (LengthText(|r.body|) + r.body));
  }

  // ------------------------------------------------------------------------------------------
  // Error pages after something was sent: the reset forgets the status line that is on the wire

  // Text up to the first colon, a space, and text that does not start with white space.
  predicate ReadsAsHeader(reason: string) {
    var i := FindAny(reason, {':'});
    i + 1 < |reason| && reason[i + 1] == ' ' && !StartsWithSpace(reason[i + 2..])
  }

  function LinePrefix(code: nat): string {
    "HTTP/1.1 " + HttpRequest.Decimal(code) + " "
  }

  function AsHeader(code: nat, reason: string): Header
    requires ReadsAsHeader(reason)
  {
    var i := FindAny(reason, {':'});
    Header(LinePrefix(code) + reason[..i], reason[i + 2..])
  }

  lemma AsHeaderIsGood(code: nat, reason: string)
    requires GoodReason(reason) && ReadsAsHeader(reason)
    ensures GoodHeader(AsHeader(code, reason))
  {
    var h := AsHeader(code, reason);
    HttpRequest.DecimalDigits(code);
    assert h.name[0] == 'H' && "Content-Length"[0] == 'C' && |h.name| > 9;
    assert !IsLengthHeader(h);
    assert Free(h.name, {'\r', '\n'}) && Free(h.name, {':'});
  }

  lemma AsHeaderIsPrinted(code: nat, reason: string)
    requires ReadsAsHeader(reason)
    ensures HeaderToString(AsHeader(code, reason)) == StatusText(code, reason)
  {
    var i := FindAny(reason, {':'});
    Reassembled(LinePrefix(code), reason, i);
  }

  lemma Reassembled(prefix: string, s: string, i: nat)
    requires i + 1 < |s| && s[i] == ':' && s[i + 1] == ' '
    ensures prefix + s[..i] + ": " + s[i + 2..] == prefix + s
  {
    assert s == s[..i] + ": " + s[i + 2..];
  }

  lemma OnlySuchReasonsRead(code: nat, reason: string, h: Header)
    requires Readable(h) && HeaderToString(h) == StatusText(code, reason)
    ensures ReadsAsHeader(reason)
  {
    var prefix, text := LinePrefix(code), StatusText(code, reason);
    HttpRequest.DecimalDigits(code);
    assert Free(prefix, {':'}) && text == prefix + reason && text == h.name + (": " + h.value);
    var p := |h.name|;
    assert text[p] == ':' && text[p + 1] == ' ' && text[p + 2..] == h.value;
    assert p >= |prefix|;
    var i := p - |prefix|;
    assert reason[i] == ':' && reason[i + 1] == ' ' && reason[i + 2..] == text[p + 2..];
    assert forall k :: 0 <= k < i ==> reason[k] == text[|prefix| + k] == h.name[|prefix| + k];
    assert FindAny(reason, {':'}) == i;
  }

  function FirstHeader(hs: seq<Header>, length: nat): Header {
    if hs == [] then ContentLength(length) else hs[0]
  }

  function AfterFirst(hs: seq<Header>, length: nat, payload: string): string {
    if hs == [] then CRLF + payload else HeadAndBody(hs[1..], length, payload)
  }

  lemma HeadStarts(hs: seq<Header>, length: nat, payload: string)
    ensures HeadAndBody(hs, length, payload)
         == HeaderToString(FirstHeader(hs, length)) + (CRLF + AfterFirst(hs, length, payload))
  {
    if hs == [] {
      assert BLANK_LINE == CRLF + CRLF;
    } else {
      var a, b, c := HeaderToString(hs[0]), HeadersToString(hs[1..]), LengthText(length) + payload;
      assert a + CRLF + b + c == a + (CRLF + (b + c));
    }
  }

  lemma FirstLineIsUnique(a: string, rest: string, b: string, rest2: string)
    requires Free(a, {'\r'}) && Free(b, {'\r'}) && a + (CRLF + rest) == b + (CRLF + rest2)
    ensures a == b
  {
    SearchSkips(a, CRLF + rest, CRLF);
    SearchSkips(b, CRLF + rest2, CRLF);
    assert (CRLF + rest)[..2] == CRLF && (CRLF + rest2)[..2] == CRLF;
    Cancel(a, CRLF + rest, b, CRLF + rest2);
  }

  // A message whose status line is read as the first header of another one.
  lemma StatusAsHeader(code: nat, reason: string, rest: string, hs: seq<Header>, length: nat, payload: string)
    requires GoodReason(reason) && AllGood(hs)
    requires StatusText(code, reason) + (CRLF + rest) == HeadAndBody(hs, length, payload)
    ensures ReadsAsHeader(reason)
  {
    var h := FirstHeader(hs, length);
    HttpRequest.DecimalDigits(code);
    LengthIsReadable(length);
    assert hs != [] ==> GoodHeader(hs[0]);
    HeadStarts(hs, length, payload);
    assert Free(HeaderToString(h), {'\r'}) && Free(StatusText(code, reason), {'\r'});
    FirstLineIsUnique(StatusText(code, reason), rest, HeaderToString(h), AfterFirst(hs, length, payload));
    OnlySuchReasonsRead(code, reason, h);
  }

  lemma MessageAsHead(code: nat, reason: string, hs: seq<Header>, length: nat, payload: string)
    requires ReadsAsHeader(reason)
    ensures Message(StatusLine(code, reason), hs, length, payload)
         == HeadAndBody([AsHeader(code, reason)] + hs, length, payload)
  {
    var all := [AsHeader(code, reason)] + hs;
    assert all[1..] == hs;
    AsHeaderIsPrinted(code, reason);
    HeadStarts(all, length, payload);
    LineThenRest(StatusText(code, reason), HeadAndBody(hs, length, payload));
  }

  lemma LineThenRest(a: string, b: string)
    ensures a + CRLF + b == a + (CRLF + b)
  {
  }

  lemma MessageFitsStatus(first: Phase, second: Phase)
    requires first.Status? && second.Whole? && GoodPhase(first) && GoodPhase(second) && Complete(second)
    requires ReadsAsHeader(second.reason)
    ensures WellFormed(PhaseText(first) + PhaseText(second))
  {
    var hs := [AsHeader(second.code, second.reason)] + second.headers;
    AsHeaderIsGood(second.code, second.reason);
    MessageAsHead(second.code, second.reason, second.headers, second.length, second.payload);
    PhaseIsWellFormed(Whole(first.code, first.reason, hs, second.length, second.payload));
  }

  lemma OnlySuchMessagesFit(first: Phase, second: Phase)
    requires first.Status? && second.Whole? && GoodPhase(first) && GoodPhase(second)
    requires WellFormed(PhaseText(first) + PhaseText(second))
    ensures ReadsAsHeader(second.reason)
  {
    var wire := PhaseText(first) + PhaseText(second);
    var rest := HeadAndBody(second.headers, second.length, second.payload);
    var other: Phase :| GoodPhase(other) && Complete(other) && wire == PhaseText(other);
    PhaseApart(other);
    StatusLineIsUnique(first.code, first.reason, PhaseText(second), other.code, other.reason, RestText(other));
    LineThenRest(StatusText(second.code, second.reason), rest);
    StatusAsHeader(second.code, second.reason, rest, other.headers, other.length, other.payload);
  }

  function PagePhase(code: nat, reason: string, date: string): Phase {
    var text := ErrorText(code, reason);
    Whole(code, reason, ERROR_HEADERS + [Header("Date", date)], |text|, text)
  }

  lemma PageIsGood(code: nat, reason: string, date: string)
    requires GoodReason(reason) && GoodDate(date)
    ensures GoodPhase(PagePhase(code, reason, date)) && Complete(PagePhase(code, reason, date))
  {
    assert GoodHeader(ERROR_HEADERS[0]) && GoodHeader(ERROR_HEADERS[1]) && GoodHeader(Header("Date", date));
  }

  /** What a default error page makes of a wire in any state: one whole message of a blank wire; after a
      status line alone something malformed, unless the page's reason makes its status line look like a
      header; after a message, something well formed only if the page fills up a raw body exactly. */
  lemma ErrorPageOnAnyWire(phase: Phase, x: Served, code: nat, reason: string, date: string)
    requires x.s.output.wire == PhaseText(phase) && GoodPhase(phase) && Live(x.s)
    requires GoodReason(reason) && GoodDate(date)
    ensures WellFormed(Script(x, ErrorPage(map[], code, reason, date)).x.s.output.wire) <==>
      match phase
      case Blank => true
      case Status(_, _) => ReadsAsHeader(reason)
      case Whole(_, _, _, length, payload) => |payload| + |PhaseText(PagePhase(code, reason, date))| == length
  {
    var page := PagePhase(code, reason, date);
    DefaultErrorPageIsOneMessage(x, code, reason, date);
    assert ERROR_HEADERS + [Header("Date", date)]
        == [Header("Content-Type", "text/plain"), Header("Connection", "close"), Header("Date", date)];
    PageIsGood(code, reason, date);
    match phase
    case Blank =>
      assert "" + PhaseText(page) == PhaseText(page);
      PhaseIsWellFormed(page);
    case Status(_, _) =>
      if ReadsAsHeader(reason) {
        MessageFitsStatus(phase, page);
      } else if WellFormed(PhaseText(phase) + PhaseText(page)) {
        OnlySuchMessagesFit(phase, page);
      }
    case Whole(_, _, _, _, payload) =>
      PayloadGrows(phase, PhaseText(page));
      PhaseIsWellFormed(phase.(payload := payload + PhaseText(page)));
  }
}
