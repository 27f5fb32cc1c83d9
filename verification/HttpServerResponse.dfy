/** The response as an object on a NetSocketStream. Each method performs the source's statements and is
    proved to compute what ServerResponse.dfy specifies. */
module HttpServerResponses {
  import S = SocketStream
  import opened NetSocketStreams
  import opened Wrappers
  import opened HttpHeaders
  import opened ServerResponse

  class HttpServerResponse {
    const socket: NetSocketStream
    var headers: seq<Header>
    var body: string
    var statusSent: bool
    var headersSent: bool
    var bodySent: bool
    ghost var raw: Option<nat>

    ghost function Now(): Served
      reads this, socket
    {
      Served(Response(statusSent, headersSent, bodySent, headers, body, raw), socket.Now())
    }

    // The depth of the stream's emitter is an int8_t.
    ghost predicate Valid()
      reads socket
    {
      -128 <= socket.emitDepth <= 127
    }

    constructor (socket: NetSocketStream)
      ensures this.socket == socket && Now() == Served(FRESH, socket.Now())
    {
      this.socket := socket;
      headers, body, statusSent, headersSent, bodySent, raw := [], "", false, false, false, None;
    }

    // write_async on the socket
    method WriteAsync(data: string) returns (how: S.How)
      requires Valid()
      modifies socket
      ensures Valid() && S.Ran(how, socket.Now()) == Put(old(socket.Now()), data)
    {
      how := socket.WriteData(data, true);
    }

    // send_status, in both forms
    method SendStatus(line: string) returns (how: S.How)
      requires Valid()
      modifies this, socket
      ensures Valid() && Out(how, Now()) == SendStatusSpec(old(Now()), line)
    {
      how := S.Returned;
      if socket.held {
        how := WriteAsync(line);
        if how != S.Returned {
          return;
        }
      }
      statusSent := socket.held;
    }

    // m_headers["Date"], given a value when it has none
    method AddDate(date: string)
      modifies this`headers
      ensures headers == WithDate(old(headers), date)
    {
      var i := Find(headers, "Date");
      if i == |headers| {
        headers := headers + [Header("Date", "")];
      }
      if headers[i].value == "" {
        headers := headers[i := Header("Date", date)];
      }
      assert old(headers) + [Header("Date", "")][0 := Header("Date", date)] == old(headers) + [Header("Date", date)];
    }

    method SendHeaders(date: string) returns (how: S.How)
      requires Valid()
      modifies this, socket
      ensures Valid() && Out(how, Now()) == SendHeadersSpec(old(Now()), date)
    {
      how := S.Returned;
      if socket.held {
        AddDate(date);
        how := WriteAsync(HeadersToString(headers));
        if how != S.Returned {
          return;
        }
      }
      headersSent := socket.held;
    }

    method WriteLength(n: nat) returns (how: S.How)
      requires Valid()
      modifies socket
      ensures Valid() && S.Ran(how, socket.Now()) == PutLength(old(socket.Now()), n)
    {
      how := WriteAsync(HeaderToString(ContentLength(n)));
      if how != S.Returned {
        return;
      }
      how := WriteAsync(BLANK_LINE);
    }

    // the three writes of send_body
    method WriteBody() returns (how: S.How)
      requires Valid()
      modifies socket
      ensures Valid() && S.Ran(how, socket.Now()) == PutBody(old(socket.Now()), body)
    {
      how := WriteLength(|body|);
      if how != S.Returned {
        return;
      }
      how := WriteAsync(body);
    }

    method SendBody() returns (how: S.How)
      requires Valid()
      modifies this, socket
      ensures Valid() && Out(how, Now()) == SendBodySpec(old(Now()))
    {
      how := S.Returned;
      if socket.held {
        how := WriteBody();
        if how != S.Returned {
          return;
        }
      }
      bodySent := socket.held;
    }

    // result means something only if the call returns
    method Send(date: string) returns (how: S.How, result: bool)
      requires Valid()
      modifies this, socket
      ensures Valid() && Out(how, Now()) == SendSpec(old(Now()), date)
      ensures how == S.Returned ==> result == old(!statusSent || !headersSent || !bodySent)
    {
      how, result := S.Returned, false;
      if !statusSent {
        result := true;
        how := SendStatus(OK_LINE);
        if how != S.Returned {
          return;
        }
      }
      if !headersSent {
        result := true;
        how := SendHeaders(date);
        if how != S.Returned {
          return;
        }
      }
      if !bodySent {
        result := true;
        how := SendBody();
      }
    }

    method PrepareRawWrite(n: nat, date: string) returns (how: S.How)
      requires Valid()
      modifies this, socket
      ensures Valid() && Out(how, Now()) == PrepareRawSpec(old(Now()), n, date)
    {
      how := S.Returned;
      if socket.held {
        bodySent := true;
        body := "";
        var result;
        how, result := Send(date);
        if how != S.Returned {
          return;
        }
        how := WriteLength(n);
        if how == S.Returned {
          raw := Some(n);
        }
      }
    }

    // write_raw_body; write_file and async_write_file, given the file's contents
    method WriteRawBody(data: string, async: bool) returns (how: S.How)
      requires Valid()
      modifies this, socket
      ensures Valid() && Out(how, Now()) == WriteRawSpec(old(Now()), data, async)
    {
      how := S.Returned;
      if socket.held {
        how := socket.WriteData(data, async);
      }
    }

    method End(date: string) returns (how: S.How)
      requires Valid()
      modifies this, socket
      ensures Valid() && Out(how, Now()) == ServerResponse.EndSpec(old(Now()), date)
    {
      var result;
      how, result := Send(date);
      if how == S.Returned && socket.held {
        socket.EndStream();
      }
    }

    method Close(sendResponse: bool, date: string) returns (how: S.How)
      requires Valid()
      modifies this, socket
      ensures Valid() && Out(how, Now()) == ServerResponse.CloseSpec(old(Now()), sendResponse, date)
    {
      how := S.Returned;
      if sendResponse {
        var result;
        how, result := Send(date);
        if how != S.Returned {
          return;
        }
      }
      if socket.held {
        socket.EndStream();
        how := socket.CloseStream(true);
      }
    }

    method Reset()
      modifies this
      ensures Now() == Step(old(Now()), ServerResponse.Reset).x
    {
      statusSent := false;
      headers := [];
      headersSent := false;
      body := "";
      bodySent := false;
      raw := None;
    }

    method AddHeader(name: string, value: string)
      modifies this
      ensures Now() == Step(old(Now()), ServerResponse.AddHeader(name, value)).x
    {
      headers := headers + [Header(name, value)];
    }

    // write
    method Append(data: string)
      modifies this
      ensures Now() == Step(old(Now()), ServerResponse.Append(data)).x
    {
      body := body + data;
    }

    method ClearBody()
      modifies this
      ensures Now() == Step(old(Now()), ServerResponse.ClearBody).x
    {
      body := "";
    }

    // the add_header and write calls of an error page, on a fresh response
    method FillPage(text: string)
      requires headers == [] && body == ""
      modifies this
      ensures Now() == Filled(old(Now()), text)
    {
      AddHeader("Content-Type", "text/plain");
      AddHeader("Connection", "close");
      Append(text);
    }

    // create_http_server_error_response, after the reset that emit_page_error does first
    method ErrorPage(code: nat, reason: string, date: string) returns (how: S.How)
      requires Valid()
      modifies this, socket
      ensures Valid() && Out(how, Now()) == Script(old(Now()), ServerResponse.ErrorPage(map[], code, reason, date))
    {
      PageUnfolds(Now(), code, reason, date);
      Reset();
      how := SendStatus(StatusLine(code, reason));
      if how != S.Returned {
        return;
      }
      FillPage(ErrorText(code, reason));
      how := End(date);
      if how != S.Returned {
        return;
      }
      how := Close(true, date);
    }
  }
}
