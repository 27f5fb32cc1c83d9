/** Requests as the client prints them (src/lib_http_client.cpp, src/lib_http_url.cpp) and as
    request_parser reads them (src/lib_http_parser_impl.cpp). */
module HttpRequest {
  import opened Wrappers
  import opened Text
  import opened UrlCoding
  import opened HttpHeaders
  import HttpMethods

  datatype UrlPath = UrlPath(path: string, query: seq<QueryPair>, fragment: Option<string>)

  datatype RequestLine = RequestLine(httpMethod: HttpMethods.HttpMethod, url: UrlPath, version: string)

  datatype Request = Request(line: RequestLine, headers: seq<Header>)

  // ------------------------------------------------------------------------------------------
  // Printing

  function PairToString(p: QueryPair): string {
    "?" + p.name + (if p.value.Some? then "=" + p.value.value else "")
  }

  function QueryToString(query: seq<QueryPair>): string {
    if query == [] then "" else PairToString(query[0]) + QueryToString(query[1..])
  }

  function FragmentToString(fragment: Option<string>): string {
    if fragment.Some? then "#" + fragment.value else ""
  }

  function UrlToString(url: UrlPath): string {
    url.path + QueryToString(url.query) + FragmentToString(url.fragment)
  }

  // to_string( HttpAbsoluteUrlPath )
  method PrintUrl(url: UrlPath) returns (ss: string)
    ensures ss == UrlToString(url)
  {
    ss := url.path;
    for i := 0 to |url.query|
      invariant ss + QueryToString(url.query[i..]) == url.path + QueryToString(url.query)
    {
      var qp := url.query[i];
      assert url.query[i..][0] == qp && url.query[i..][1..] == url.query[i + 1..];
      assert ss + (PairToString(qp) + QueryToString(url.query[i + 1..]))
        == ss + PairToString(qp) + QueryToString(url.query[i + 1..]);
      ghost var before := ss;
      ss := ss + "?" + qp.name;
      if qp.value.Some? {
        ss := ss + "=" + qp.value.value;
      }
      assert ss == before + PairToString(qp);
    }
    assert url.query[|url.query|..] == [] && ss + "" == ss;
    if url.fragment.Some? {
      ss := ss + "#" + url.fragment.value;
    }
    assert url.fragment.None? ==> ss + "" == ss;
  }

  function Decimal(n: nat): string {
    (if n < 10 then "" else Decimal(n / 10)) + [('0' as int + n % 10) as char]
  }

  function HostHeader(host: string, port: nat): Header {
    Header("Host", host + ":" + Decimal(port))
  }

  // The message HttpClientImpl::request writes.
  function ClientMessage(m: HttpMethods.HttpMethod, url: UrlPath, host: string, port: nat): string {
    HttpMethods.ToString(m) + " " + UrlToString(url) + " HTTP/1.1\r\n"
    + ("Host: " + host + ":" + Decimal(port) + "\r\n\r\n")
  }

  // ------------------------------------------------------------------------------------------
  // Parsing. Each parser answers with its value and with what is left of its view.

  datatype Parsed<T> = Parsed(value: T, rest: string)

  // path_parser
  function ParsePath(s: string): Result<Parsed<string>, ParseError> {
    if s == "" then Failure(EmptyInput)
    else if s[0] != '/' then Failure(InvalidPath)
    else
      var end := FindAny(s, {' ', '?', '#'});
      var path :- UrlDecode(s[..end]);
      Success(Parsed(path, s[end..]))
  }

  // query_parser: a view that does not start with '?' is returned whole, which leaves nothing
  function ParseQuery(s: string): Result<Parsed<seq<QueryPair>>, ParseError> {
    if s == "" || s[0] != '?' || s[1..] == "" then Success(Parsed([], ""))
    else
      var end := FindAny(s[1..], {'#', ' '});
      if end == 0 then Success(Parsed([], s[1..]))
      else
        var query :- ParseQueryPairs(s[1..][..end]);
        Success(Parsed(query, s[1..][end..]))
  }

  // fragment_parser
  function ParseFragment(s: string): Result<Option<string>, ParseError> {
    if s == "" || s[0] != '#' then Success(None)
    else
      var fragment :- UrlDecode(s[1..][..FindAny(s[1..], {' '})]);
      Success(Some(fragment))
  }

  // absolute_url_path_parser
  function ParseUrl(s: string): Result<Parsed<UrlPath>, ParseError> {
    var end := FindAny(s, {' '});
    if end == 0 then Failure(EmptyInput)
    else
      var path :- ParsePath(s[..end]);
      var query :- ParseQuery(TrimLeft(path.rest));
      var fragment :- ParseFragment(TrimLeft(query.rest));
      Success(Parsed(UrlPath(path.value, query.value, fragment), s[end..]))
  }

  predicate IsVersionChar(c: char) {
    c == '.' || '0' <= c <= '9'
  }

  // http_version_parser
  function ParseVersion(s: string): Result<string, ParseError> {
    if s == "" then Failure(EmptyInput)
    else
      var pos := Search(s, "HTTP/");
      if pos == |s| then Failure(InvalidVersion)
      else
        var version := s[pos + 5..];
        if version == "" || !(forall c <- version :: IsVersionChar(c)) then Failure(InvalidVersion)
        else Success(version)
  }

  // request_line_parser, with http_method_parser
  function ParseRequestLine(s: string): Result<RequestLine, ParseError> {
    if s == "" then Failure(EmptyInput)
    else
      var end := FindAny(s, {' '});
      match HttpMethods.FromString(s[..end])
      case None => Failure(UnknownMethod)
      case Some(m) => ParseAfterMethod(m, TrimLeft(s[end..]))
  }

  function ParseAfterMethod(m: HttpMethods.HttpMethod, s: string): Result<RequestLine, ParseError> {
    var url :- ParseUrl(s);
    var version :- ParseVersion(TrimLeft(url.rest));
    Success(RequestLine(m, url.value, version))
  }

  // request_parser
  function ParseRequest(s: string): Result<Request, ParseError> {
    if s == "" then Failure(EmptyInput)
    else
      var end := Search(s, CRLF);
      if end == |s| then Failure(NoLineEnd)
      else
        var line :- ParseRequestLine(s[..end]);
        var headers :- ParseHeaders(s[end + 2..]);
        Success(Request(line, headers))
  }

  method ReadUrl(str: string) returns (r: Result<Parsed<UrlPath>, ParseError>)
    ensures r == ParseUrl(str)
  {
    var s := str[..FindAny(str, {' '})];
    var after := str[|s|..];
    if s == "" {
      return Failure(EmptyInput);
    }
    if s[0] != '/' {
      return Failure(InvalidPath);
    }
    var end := FindAny(s, {' ', '?', '#'});
    var path := DecodeUrl(s[..end]);
    if path.Failure? {
      return Failure(path.error);
    }
    s := TrimLeft(s[end..]);
    var query := [];
    if s == "" || s[0] != '?' || |s| == 1 {
      s := "";
    } else {
      s := s[1..];
      end := FindAny(s, {'#', ' '});
      if end != 0 {
        var pairs := SplitQuery(s[..end]);
        if pairs.Failure? {
          return Failure(pairs.error);
        }
        query := pairs.value;
      }
      s := s[end..];
    }
    s := TrimLeft(s);
    var fragment := None;
    if s != "" && s[0] == '#' {
      s := s[1..];
      var text := DecodeUrl(s[..FindAny(s, {' '})]);
      if text.Failure? {
        return Failure(text.error);
      }
      fragment := Some(text.value);
    }
    return Success(Parsed(UrlPath(path.value, query, fragment), after));
  }

  method ReadRequest(str: string) returns (r: Result<Request, ParseError>)
    ensures r == ParseRequest(str)
  {
    if str == "" {
      return Failure(EmptyInput);
    }
    var lineEnd := Search(str, CRLF);
    if lineEnd >= |str| {
      return Failure(NoLineEnd);
    }
    var s := str[..lineEnd];
    if s == "" {
      return Failure(EmptyInput);
    }
    var end := FindAny(s, {' '});
    var m := HttpMethods.FromString(s[..end]);
    if m.None? {
      return Failure(UnknownMethod);
    }
    s := TrimLeft(s[end..]);
    var url := ReadUrl(s);
    if url.Failure? {
      return Failure(url.error);
    }
    s := TrimLeft(url.value.rest);
    var version := ParseVersion(s);
    if version.Failure? {
      return Failure(version.error);
    }
    var headers := ReadHeaders(str[lineEnd + 2..]);
    if headers.Failure? {
      return Failure(headers.error);
    }
    return Success(Request(RequestLine(m.value, url.value.value, version.value), headers.value));
  }

  // ------------------------------------------------------------------------------------------
  // Round trip

  const DELIMITERS := {' ', '?', '#', '%', '&', '='}

  predicate Plain(s: string) {
    forall i :: 0 <= i < |s| ==> s[i] !in DELIMITERS && !IsSpace(s[i])
  }

  predicate PlainPair(p: QueryPair) {
    Plain(p.name) && (p.value.Some? ==> Plain(p.value.value))
  }

  predicate PlainUrl(url: UrlPath) {
    && Plain(url.path)
    && (forall i :: 0 <= i < |url.query| ==> PlainPair(url.query[i]))
    && (url.fragment.Some? ==> Plain(url.fragment.value))
  }

  // What keeps a URL intact.
  predicate Printable(url: UrlPath) {
    && url.path != "" && url.path[0] == '/'
    && (url.query == [] || (|url.query| == 1 && HasValue(url.query[0])))
    && (url.fragment.Some? ==> url.query != [])
  }

  // Nothing in a printed URL but its delimiters needs care.
  predicate NoBreaks(s: string) {
    forall i :: 0 <= i < |s| ==> s[i] !in {'%', '&'} && !IsSpace(s[i])
  }

  lemma {:induction false} PrintedQuery(query: seq<QueryPair>)
    requires forall i :: 0 <= i < |query| ==> PlainPair(query[i])
    ensures NoBreaks(QueryToString(query)) && Free(QueryToString(query), {'#'})
  {
    if query != [] {
      assert PlainPair(query[0]);
      PrintedQuery(query[1..]);
    }
  }

  lemma PrintedUrl(url: UrlPath)
    requires PlainUrl(url)
    ensures NoBreaks(UrlToString(url))
  {
    PrintedQuery(url.query);
  }

  lemma PathApart(path: string, rest: string)
    requires Plain(path) && path != "" && path[0] == '/'
    requires rest == "" || rest[0] in {'?', '#'}
    ensures ParsePath(path + rest) == Success(Parsed(path, rest))
  {
    FindAnyAt(path, rest, {' ', '?', '#'});
    assert (path + rest)[..|path|] == path && (path + rest)[|path|..] == rest;
    PlainDecodes(path);
  }

  lemma FragmentReadBack(fragment: Option<string>)
    requires fragment.Some? ==> Plain(fragment.value)
    ensures ParseFragment(TrimLeft(FragmentToString(fragment))) == Success(fragment)
  {
    if fragment.Some? {
      var s := FragmentToString(fragment);
      assert s[1..] == fragment.value && TrimLeft(s) == s;
      FindAnyAt(fragment.value, "", {' '});
      assert fragment.value + "" == fragment.value && fragment.value[..|fragment.value|] == fragment.value;
      PlainDecodes(fragment.value);
    }
  }

  function QueryValue(q: string): Result<seq<QueryPair>, ParseError> {
    if q == "" then Success([]) else ParseQueryPairs(q)
  }

  // A query is the text after its '?' up to the fragment.
  lemma QueryApart(q: string, fragment: Option<string>)
    requires Free(q, {'#', ' '})
    ensures ParseQuery("?" + q + FragmentToString(fragment)) == (
      match QueryValue(q)
      case Failure(e) => Failure(e)
      case Success(pairs) => Success(Parsed(pairs, FragmentToString(fragment))))
  {
    var tail := FragmentToString(fragment);
    var s := "?" + q + tail;
    assert s[1..] == q + tail;
    FindAnyAt(q, tail, {'#', ' '});
    assert (q + tail)[..|q|] == q && (q + tail)[|q|..] == tail;
  }

  // However many pairs are printed, at most one is read.
  lemma AtMostOnePair(q: string)
    requires Free(q, {'&'})
    ensures var r := ParseQueryPairs(q); r.Success? ==> |r.value| == 1
  {
    if q != "" {
      assert q + "" == q;
      ParseFirst(q, "");
    }
  }

  lemma PairText(p: QueryPair)
    ensures PairToString(p)[1..] == p.name + (if p.value.Some? then "=" + p.value.value else "")
  {
  }

  lemma OnePair(p: QueryPair)
    requires PlainPair(p)
    ensures var q := PairToString(p)[1..];
      q != "" ==> ParseQueryPairs(q) == Success([ReadBack(p)])
    ensures PairToString(p)[1..] == "" ==> !HasValue(p)
  {
    var q := PairToString(p)[1..];
    PairText(p);
    if q != "" {
      PlainPairReadBack(p);
      assert Free(q, {'&'}) && q + "" == q;
      ParseFirst(q, "");
    }
  }

  lemma PlainPairReadBack(p: QueryPair)
    requires PlainPair(p) && (p.name != "" || p.value.Some?)
    ensures ParseQueryPair(p.name + (if p.value.Some? then "=" + p.value.value else "")) == Success(ReadBack(p))
  {
    PlainDecodes(p.name);
    if p.value.Some? {
      PlainDecodes(p.value.value);
      SplitAtEquals(p.name, p.value.value);
      assert p.name + ("=" + p.value.value) == p.name + "=" + p.value.value;
    } else {
      assert p.name + "" == p.name;
      NameAlone(p.name);
    }
  }

  lemma SingleQuery(p: QueryPair)
    requires PlainPair(p)
    ensures QueryValue(PairToString(p)[1..]) == Success([p]) <==> HasValue(p)
  {
    OnePair(p);
    assert [ReadBack(p)] == [p] <==> ReadBack(p) == p;
  }

  // The text after the first '?' is read back as the list exactly when the list is one pair with a value.
  lemma QueryTextReadBack(query: seq<QueryPair>)
    requires query != [] && forall i :: 0 <= i < |query| ==> PlainPair(query[i])
    ensures QueryValue(QueryToString(query)[1..]) == Success(query) <==> |query| == 1 && HasValue(query[0])
  {
    var text := QueryToString(query);
    if |query| == 1 {
      assert PlainPair(query[0]);
      SingleQuery(query[0]);
      assert QueryToString(query[1..]) == "" && text == PairToString(query[0]) && query == [query[0]];
    } else {
      PrintedQuery(query);
      AtMostOnePair(text[1..]);
    }
  }

  // The query of a printed URL, and what is left for the fragment.
  lemma QueryReadBack(query: seq<QueryPair>, fragment: Option<string>)
    requires query != [] && forall i :: 0 <= i < |query| ==> PlainPair(query[i])
    ensures var r := ParseQuery(QueryToString(query) + FragmentToString(fragment));
      && (r.Success? ==> r.value.rest == FragmentToString(fragment))
      && ((r.Success? && r.value.value == query) <==> (|query| == 1 && HasValue(query[0])))
  {
    var q := QueryToString(query)[1..];
    QueryTextApart(query);
    QueryApart(q, fragment);
    QueryTextReadBack(query);
  }

  lemma QueryTextApart(query: seq<QueryPair>)
    requires query != [] && forall i :: 0 <= i < |query| ==> PlainPair(query[i])
    ensures var text := QueryToString(query); text == "?" + text[1..] && Free(text[1..], {'#', ' '})
  {
    PrintedQuery(query);
    FirstIsMark(query[0], QueryToString(query[1..]));
    TailIsFree(QueryToString(query));
  }

  lemma FirstIsMark(p: QueryPair, rest: string)
    ensures var text := PairToString(p) + rest; text == "?" + text[1..]
  {
    assert (PairToString(p) + rest)[0] == '?';
  }

  lemma TailIsFree(text: string)
    requires NoBreaks(text) && Free(text, {'#'})
    ensures text != "" ==> Free(text[1..], {'#', ' '})
  {
    forall i | 0 <= i < |text| - 1 ensures text[1..][i] !in {'#', ' '} {
      assert text[i + 1] != '#' && !IsSpace(text[i + 1]);
    }
  }

  lemma UrlReadBack(url: UrlPath, more: string)
    requires PlainUrl(url)
    requires more != "" && more[0] == ' '
    requires UrlToString(url) != ""
    ensures var r := ParseUrl(UrlToString(url) + more);
      && (r.Success? ==> r.value.rest == more)
      && ((r.Success? && r.value.value == url) <==> Printable(url))
  {
    var u := UrlToString(url);
    var tail := FragmentToString(url.fragment);
    var rest := QueryToString(url.query) + tail;
    PrintedUrl(url);
    FindAnyAt(u, more, {' '});
    assert (u + more)[..|u|] == u && (u + more)[|u|..] == more;
    if url.path == "" || url.path[0] != '/' {
      assert u[0] != '/';
    } else {
      assert u == url.path + rest;
      PathApart(url.path, rest);
      assert TrimLeft(rest) == rest;
      if url.query == [] {
        assert rest == tail;
        assert ParseQuery(rest) == Success(Parsed([], ""));
      } else {
        QueryReadBack(url.query, url.fragment);
        FragmentReadBack(url.fragment);
      }
    }
  }

  lemma VersionReadBack()
    ensures ParseVersion(TrimLeft(VERSION)) == Success("1.1")
  {
    var s := VERSION;
    assert s[1..] == "HTTP/1.1" && TrimLeft(s) == "HTTP/1.1";
    assert "HTTP/1.1" == "HTTP/" + "1.1";
    assert "HTTP/1.1"[5..] == "1.1";
  }

  lemma MethodApart(m: HttpMethods.HttpMethod, s: string)
    ensures ParseRequestLine(HttpMethods.ToString(m) + (" " + s)) == ParseAfterMethod(m, TrimLeft(s))
  {
    var word, after := HttpMethods.ToString(m), " " + s;
    HttpMethods.ParsesExactlyTheMethodNames(word, m);
    FindAnyAt(word, after, {' '});
    assert (word + after)[..|word|] == word && (word + after)[|word|..] == after && after[1..] == s;
  }

  const VERSION := " HTTP/1.1"

  lemma EmptyUrlFails(m: HttpMethods.HttpMethod)
    ensures ParseAfterMethod(m, TrimLeft("" + VERSION)).Failure?
  {
    var s := "HTTP/1.1";
    assert "" + VERSION == VERSION && VERSION[1..] == s && TrimLeft(VERSION) == TrimLeft(s) == s;
    assert ParsePath(s[..FindAny(s, {' '})]).Failure?;
  }

  lemma RequestLineReadBack(m: HttpMethods.HttpMethod, url: UrlPath)
    requires PlainUrl(url)
    ensures var line := HttpMethods.ToString(m) + (" " + (UrlToString(url) + VERSION));
      ParseRequestLine(line) == Success(RequestLine(m, url, "1.1")) <==> Printable(url)
  {
    var u := UrlToString(url);
    MethodApart(m, u + VERSION);
    if u == "" {
      EmptyUrlFails(m);
    } else {
      PrintedUrl(url);
      assert TrimLeft(u + VERSION) == u + VERSION;
      UrlReadBack(url, VERSION);
      VersionReadBack();
    }
  }

  lemma {:induction false} DecimalDigits(n: nat)
    ensures forall i :: 0 <= i < |Decimal(n)| ==> '0' <= Decimal(n)[i] <= '9'
  {
    if n >= 10 {
      DecimalDigits(n / 10);
    }
  }

  // The number that decimal digits write.
  function Value(s: string): int {
    if s == "" then 0 else 10 * Value(s[..|s| - 1]) + (s[|s| - 1] as int - '0' as int)
  }

  lemma {:induction false} DecimalIsTheNumber(n: nat)
    ensures Value(Decimal(n)) == n && (n > 0 ==> Decimal(n)[0] != '0')
  {
    var s := Decimal(n);
    var last := [('0' as int + n % 10) as char];
    if n >= 10 {
      DecimalIsTheNumber(n / 10);
      assert s == Decimal(n / 10) + last && s[..|s| - 1] == Decimal(n / 10);
    } else {
      assert s == "" + last && s[..|s| - 1] == "";
    }
  }

  lemma HostLine(host: string, port: nat)
    requires Free(host, {'\r', '\n'})
    ensures AllSingleLine([HostHeader(host, port)])
    ensures AllReadable([HostHeader(host, port)]) <==> !StartsWithSpace(host)
    ensures HeadersToString([HostHeader(host, port)]) + CRLF == "Host: " + host + ":" + Decimal(port) + "\r\n\r\n"
  {
    var h := HostHeader(host, port);
    DecimalDigits(port);
    assert [h][1..] == [];
    assert h.value[0] == if host == "" then ':' else host[0];
    assert HeadersToString([h]) == HeaderToString(h) + CRLF + "";
  }

  lemma MessageApart(m: HttpMethods.HttpMethod, u: string, head: string, tail: string)
    ensures HttpMethods.ToString(m) + " " + u + " HTTP/1.1\r\n" + head + tail
         == HttpMethods.ToString(m) + (" " + (u + VERSION)) + (CRLF + (head + tail))
  {
    assert " HTTP/1.1\r\n" == VERSION + CRLF;
  }

  lemma LineApart(line: string, block: string)
    requires Free(line, {'\r'}) && line != ""
    ensures ParseRequest(line + (CRLF + block)) == (
      match ParseRequestLine(line)
      case Failure(e) => Failure(e)
      case Success(l) =>
        match ParseHeaders(block)
        case Failure(e) => Failure(e)
        case Success(hs) => Success(Request(l, hs)))
  {
    var s := line + (CRLF + block);
    SearchSkips(line, CRLF + block, CRLF);
    assert s[..|line|] == line && s[|line| + 2..] == block;
  }

  // The request line and the headers are read independently of each other.
  lemma PartsReadBack(line: string, block: string, l: RequestLine, hs: seq<Header>)
    requires Free(line, {'\r'}) && line != ""
    ensures ParseRequest(line + (CRLF + block)) == Success(Request(l, hs))
       <==> ParseRequestLine(line) == Success(l) && ParseHeaders(block) == Success(hs)
  {
    LineApart(line, block);
  }

  lemma HostReadsBack(host: string, port: nat, tail: string)
    requires Free(host, {'\r', '\n'})
    ensures var hs := [HostHeader(host, port)];
      ParseHeaders(HeadersToString(hs) + CRLF + tail) == Success(hs) <==> !StartsWithSpace(host)
  {
    HostLine(host, port);
    HeaderBlockRoundTrip([HostHeader(host, port)], tail);
  }

  /** The text the client prints, whatever follows it on the connection, is read back as the same
      method, the same URL, version 1.1 and the one Host header, exactly when the path is absolute,
      at most one query pair is given and has a non-empty value, a fragment only comes with a query,
      and the host does not start with white space. The URL's parts hold no delimiters. */
  lemma RequestRoundTrip(m: HttpMethods.HttpMethod, url: UrlPath, host: string, port: nat, tail: string)
    requires PlainUrl(url) && Free(host, {'\r', '\n'}) && port < 0x10000
    ensures ParseRequest(ClientMessage(m, url, host, port) + tail)
         == Success(Request(RequestLine(m, url, "1.1"), [HostHeader(host, port)]))
       <==> Printable(url) && !StartsWithSpace(host)
  {
    var line := HttpMethods.ToString(m) + (" " + (UrlToString(url) + VERSION));
    var hs := [HostHeader(host, port)];
    HostLine(host, port);
    MessageApart(m, UrlToString(url), "Host: " + host + ":" + Decimal(port) + "\r\n\r\n", tail);
    LineIsWhole(m, url);
    PartsReadBack(line, HeadersToString(hs) + CRLF + tail, RequestLine(m, url, "1.1"), hs);
    RequestLineReadBack(m, url);
    HostReadsBack(host, port, tail);
  }

  lemma LineIsWhole(m: HttpMethods.HttpMethod, url: UrlPath)
    requires PlainUrl(url)
    ensures Free(HttpMethods.ToString(m) + (" " + (UrlToString(url) + VERSION)), {'\r'})
  {
    PrintedUrl(url);
    HttpMethods.NamesAreWords(m);
    assert Free(VERSION, {'\r'}) && Free(UrlToString(url), {'\r'});
  }

  // ------------------------------------------------------------------------------------------
  // What is refused

  /** A version is read exactly if something follows the first "HTTP/" and all of it is digits and dots. */
  lemma VersionsAreExact(before: string, version: string)
    requires Free(before, {'H'})
    ensures ParseVersion(before + ("HTTP/" + version)) ==
      if version != "" && Free(version, set c: char | !IsVersionChar(c)) then Success(version)
      else Failure(InvalidVersion)
    ensures before != "" ==> ParseVersion(before) == Failure(InvalidVersion)
  {
    var s := before + ("HTTP/" + version);
    SearchSkips(before, "HTTP/" + version, "HTTP/");
    SearchSkips(before, "", "HTTP/");
    assert before + "" == before;
    assert ("HTTP/" + version)[..5] == "HTTP/" && s[|before| + 5..] == version;
  }

  /** A request needs a line end, something before it, a method it knows, and a path from the root. */
  lemma RefusedRequests(s: string, line: string, block: string)
    ensures ParseRequest("") == Failure(EmptyInput)
    ensures s != "" && Search(s, CRLF) == |s| ==> ParseRequest(s) == Failure(NoLineEnd)
    ensures ParseRequest(CRLF + block) == Failure(EmptyInput)
    ensures line != "" && HttpMethods.FromString(line[..FindAny(line, {' '})]).None? ==>
      ParseRequestLine(line) == Failure(UnknownMethod)
    ensures line == "" || line[0] == ' ' ==> ParseUrl(line) == Failure(EmptyInput)
    ensures line != "" && line[0] !in {' ', '/'} ==> ParseUrl(line) == Failure(InvalidPath)
  {
    var t := CRLF + block;
    assert t[..2] == CRLF && Search(t, CRLF) == 0 && t[..0] == "";
    if line != "" && line[0] != ' ' {
      var end := FindAny(line, {' '});
      assert end > 0 && line[..end][0] == line[0];
    }
  }
}
