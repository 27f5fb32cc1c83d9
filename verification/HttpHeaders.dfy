/** Header blocks: printing (src/lib_http_headers.cpp, src/base_key_value.cpp) and parsing
    (src/lib_http_parser_impl.cpp). */
module HttpHeaders {
  import opened Wrappers
  import opened Text
  import opened UrlCoding

  datatype Header = Header(name: string, value: string)

  const BLANK_LINE := "\r\n\r\n"

  // key_value_t::to_string
  function HeaderToString(h: Header): string {
    h.name + ": " + h.value
  }

  // HttpHeaders::to_string
  function HeadersToString(hs: seq<Header>): string {
    if hs == [] then "" else HeaderToString(hs[0]) + CRLF + HeadersToString(hs[1..])
  }

  // HttpHeaders::find; |hs| for the end iterator
  function Find(hs: seq<Header>, name: string): (i: nat)
    ensures i <= |hs|
    ensures i < |hs| ==> hs[i].name == name
    ensures forall k :: 0 <= k < i ==> hs[k].name != name
  {
    if hs == [] || hs[0].name == name then 0 else 1 + Find(hs[1..], name)
  }

  // ------------------------------------------------------------------------------------------
  // Splitting into lines

  // The CRLF-separated pieces of a text, empty ones included.
  function Lines(s: string): seq<string> {
    var pos := Search(s, CRLF);
    if pos == |s| then [s] else [s[..pos]] + Lines(s[pos + 2..])
  }

  function JoinLines(lines: seq<string>): string {
    if lines == [] then "" else if |lines| == 1 then lines[0] else lines[0] + CRLF + JoinLines(lines[1..])
  }

  function NonEmpty(lines: seq<string>): seq<string> {
    if lines == [] then [] else if lines[0] == "" then NonEmpty(lines[1..]) else [lines[0]] + NonEmpty(lines[1..])
  }

  lemma {:induction false} LinesPartitionTheText(s: string)
    ensures JoinLines(Lines(s)) == s
    decreases |s|
  {
    var pos := Search(s, CRLF);
    if pos < |s| {
      LinesPartitionTheText(s[pos + 2..]);
    }
  }

  lemma {:induction false} LinesAreWhole(s: string, k: nat)
    requires k < |Lines(s)|
    ensures Search(Lines(s)[k], CRLF) == |Lines(s)[k]|
    decreases |s|
  {
    var pos := Search(s, CRLF);
    FirstLineIsWhole(s);
    if pos < |s| {
      if k > 0 {
        LinesAreWhole(s[pos + 2..], k - 1);
      }
    } else {
      assert s[..pos] == s;
    }
  }

  lemma {:induction false} FirstLineIsWhole(s: string)
    ensures var pos := Search(s, CRLF); Search(s[..pos], CRLF) == pos
  {
    var pos := Search(s, CRLF);
    if pos == |s| {
      assert s[..pos] == s;
    } else if pos > 0 {
      FirstLineIsWhole(s[1..]);
      assert s[..pos][1..] == s[1..][..pos - 1];
      if pos >= 2 {
        assert s[..pos][..2] == s[..2];
      }
    }
  }

  // split_headers
  method SplitHeaders(str: string) returns (headers: seq<string>)
    ensures headers == NonEmpty(Lines(str))
  {
    var s := str;
    headers := [];
    var pos := Search(s, CRLF);
    ghost var all := NonEmpty(Lines(str));
    while s != ""
      invariant s != "" ==> pos == Search(s, CRLF)
      invariant headers + NonEmpty(Lines(s)) == all
      decreases |s|
    {
      SplitStep(headers, s, all);
      var tmp := s[..pos];
      if tmp != "" {
        headers := headers + [tmp];
      }
      if pos < |s| {
        s := s[pos + 2..];
        pos := Search(s, CRLF);
      } else {
        s := s[|s|..];
      }
    }
    assert Lines("") == [""] && NonEmpty([""]) == [];
  }

  lemma SplitStep(headers: seq<string>, s: string, all: seq<string>)
    requires s != "" && headers + NonEmpty(Lines(s)) == all
    ensures var pos := Search(s, CRLF);
      (if pos == 0 then headers else headers + [s[..pos]])
        + NonEmpty(Lines(if pos < |s| then s[pos + 2..] else s[|s|..])) == all
  {
    LinesStep(s);
    var pos := Search(s, CRLF);
    assert s[|s|..] == "";
    OneMoreLine(headers, s[..pos], NonEmpty(Lines(if pos < |s| then s[pos + 2..] else "")));
  }

  lemma OneMoreLine(headers: seq<string>, line: string, more: seq<string>)
    ensures headers + ([line] + more) == headers + [line] + more && [] + more == more
  {
  }

  lemma LinesStep(s: string)
    requires s != ""
    ensures var pos := Search(s, CRLF);
      var rest := if pos < |s| then s[pos + 2..] else "";
      NonEmpty(Lines(s)) == (if pos == 0 then [] else [s[..pos]]) + NonEmpty(Lines(rest))
  {
    var pos := Search(s, CRLF);
    assert Lines("") == [""] && NonEmpty([""]) == [];
    if pos == |s| {
      assert s[..pos] == s && Lines(s)[1..] == [];
    } else {
      assert Lines(s)[0] == s[..pos] && Lines(s)[1..] == Lines(s[pos + 2..]);
    }
  }

  predicate IsLine(s: string) {
    s != "" && Free(s, {'\r'})
  }

  predicate AreLines(lines: seq<string>) {
    lines == [] || (IsLine(lines[0]) && AreLines(lines[1..]))
  }

  lemma LineAlone(line: string)
    requires IsLine(line)
    ensures NonEmpty(Lines(line)) == [line]
  {
    SearchSkips(line, "", CRLF);
    assert line + "" == line && line[..|line|] == line;
    LinesStep(line);
    assert Lines("") == [""] && NonEmpty([""]) == [];
  }

  lemma LineThen(line: string, text: string)
    requires IsLine(line)
    ensures NonEmpty(Lines(line + (CRLF + text))) == [line] + NonEmpty(Lines(text))
  {
    var s := line + (CRLF + text);
    SearchSkips(line, CRLF + text, CRLF);
    assert s[..|line|] == line && s[|line| + 2..] == text;
    LinesStep(s);
  }

  // Joining lines and splitting them again.
  lemma {:induction false} SplitInvertsJoin(lines: seq<string>)
    requires AreLines(lines)
    ensures NonEmpty(Lines(JoinLines(lines))) == lines
  {
    if lines == [] {
      assert Lines("") == [""] && NonEmpty([""]) == [];
    } else if |lines| == 1 {
      LineAlone(lines[0]);
    } else {
      SplitInvertsJoin(lines[1..]);
      LineThen(lines[0], JoinLines(lines[1..]));
      assert lines[0] + CRLF + JoinLines(lines[1..]) == lines[0] + (CRLF + JoinLines(lines[1..]));
    }
  }

  // ------------------------------------------------------------------------------------------
  // Parsing

  // header_pair_parser
  function ParseHeader(s: string): Result<Header, ParseError> {
    var pos := FindAny(s, {':'});
    if pos == |s| then Failure(NoColon) else Success(Header(s[..pos], TrimLeft(s[pos + 1..])))
  }

  function ParseAll(lines: seq<string>): Result<seq<Header>, ParseError> {
    if lines == [] then Success([])
    else
      var h :- ParseHeader(lines[0]);
      var hs :- ParseAll(lines[1..]);
      Success([h] + hs)
  }

  // The part of the text that header_parser looks at.
  function HeaderText(s: string): string {
    TrimLeft(s[..Search(s, BLANK_LINE)])
  }

  function ParseHeaders(s: string): Result<seq<Header>, ParseError> {
    ParseAll(NonEmpty(Lines(HeaderText(s))))
  }

  function PrependHeaders(hs: seq<Header>, r: Result<seq<Header>, ParseError>): Result<seq<Header>, ParseError> {
    match r
    case Success(more) => Success(hs + more)
    case Failure(e) => Failure(e)
  }

  // header_parser
  method ReadHeaders(str: string) returns (r: Result<seq<Header>, ParseError>)
    ensures r == ParseHeaders(str)
  {
    var s := TrimLeft(str[..Search(str, BLANK_LINE)]);
    if s == "" {
      assert Lines("") == [""] && NonEmpty([""]) == [];
      return Success([]);
    }
    var headers := SplitHeaders(s);
    var result := [];
    assert headers[0..] == headers && PrependHeaders([], ParseAll(headers)) == ParseAll(headers) by {
      assert forall hs: seq<Header> :: [] + hs == hs;
    }
    for i := 0 to |headers|
      invariant ParseAll(headers) == PrependHeaders(result, ParseAll(headers[i..]))
    {
      assert headers[i..][1..] == headers[i + 1..];
      var header := ParseHeader(headers[i]);
      if header.Failure? {
        return Failure(header.error);
      }
      assert forall hs: seq<Header> :: result + ([header.value] + hs) == result + [header.value] + hs;
      result := result + [header.value];
    }
    assert headers[|headers|..] == [] && result + [] == result;
    return Success(result);
  }

  // ------------------------------------------------------------------------------------------
  // Round trip

  predicate SingleLine(h: Header) {
    Free(h.name, {'\r', '\n'}) && Free(h.value, {'\r', '\n'})
  }

  predicate AllSingleLine(hs: seq<Header>) {
    hs == [] || (SingleLine(hs[0]) && AllSingleLine(hs[1..]))
  }

  predicate Readable(h: Header) {
    Free(h.name, {':'}) && !StartsWithSpace(h.value)
  }

  predicate AllReadable(hs: seq<Header>) {
    hs == [] || (Readable(hs[0]) && AllReadable(hs[1..]))
  }

  function HeaderLines(hs: seq<Header>): seq<string> {
    if hs == [] then [] else [HeaderToString(hs[0])] + HeaderLines(hs[1..])
  }

  lemma LineFacts(h: Header)
    requires SingleLine(h)
    ensures IsLine(HeaderToString(h)) && IsLine(TrimLeft(HeaderToString(h)))
  {
    var line := HeaderToString(h);
    assert forall i :: 0 <= i < |line| ==> line[i] != '\r';
    TrimLeftFacts(line);
    TrimToColon(h);
  }

  lemma {:induction false} TrimToColon(h: Header)
    ensures TrimLeft(HeaderToString(h)) == TrimLeft(h.name) + ": " + h.value
    decreases |h.name|
  {
    var line := HeaderToString(h);
    if StartsWithSpace(h.name) {
      var shorter := h.(name := h.name[1..]);
      assert line[1..] == HeaderToString(shorter);
      TrimToColon(shorter);
    } else {
      assert line[0] == if h.name == "" then ':' else h.name[0];
      assert TrimLeft(h.name) == h.name;
    }
  }

  lemma ParsePrinted(h: Header)
    ensures ParseHeader(HeaderToString(h)) == Success(h) <==> Readable(h)
    ensures var r := ParseHeader(HeaderToString(h)); r.Success? && r.value.name <= h.name
  {
    var line := HeaderToString(h);
    var pos := FindAny(line, {':'});
    assert line[|h.name|] == ':';
    assert pos <= |h.name|;
    assert line[..pos] == h.name[..pos];
    if pos == |h.name| {
      assert line[..pos] == h.name && line[pos + 1..] == " " + h.value;
      assert (" " + h.value)[1..] == h.value;
      TrimLeftFacts(h.value);
      assert TrimLeft(" " + h.value) == TrimLeft(h.value);
      assert Free(h.name, {':'}) by {
        assert forall i :: 0 <= i < pos ==> h.name[i] == line[i];
      }
    } else {
      assert h.name[pos] == line[pos] == ':';
    }
  }

  // The first line is read after the whole block has lost its leading white space.
  lemma ParseTrimmed(h: Header)
    ensures ParseHeader(TrimLeft(HeaderToString(h))) == Success(h) <==> Readable(h) && !StartsWithSpace(h.name)
  {
    TrimToColon(h);
    TrimLeftFacts(h.name);
    var trimmed := h.(name := TrimLeft(h.name));
    assert HeaderToString(trimmed) == TrimLeft(HeaderToString(h));
    ParsePrinted(trimmed);
    if StartsWithSpace(h.name) {
      var name := ParseHeader(HeaderToString(trimmed)).value.name;
      assert name != "" ==> name[0] == trimmed.name[0];
    } else {
      assert trimmed == h;
    }
  }

  lemma {:induction false} BlockIsJoinedLines(hs: seq<Header>)
    requires hs != []
    ensures HeadersToString(hs) == JoinLines(HeaderLines(hs)) + CRLF
  {
    if |hs| > 1 {
      BlockIsJoinedLines(hs[1..]);
      assert HeaderLines(hs)[1..] == HeaderLines(hs[1..]) && |HeaderLines(hs[1..])| >= 1;
      var first, rest := HeaderToString(hs[0]), JoinLines(HeaderLines(hs[1..]));
      assert first + CRLF + (rest + CRLF) == (first + CRLF + rest) + CRLF;
    } else {
      assert HeadersToString(hs[1..]) == "" && HeaderLines(hs) == [HeaderToString(hs[0])];
      assert HeaderToString(hs[0]) + CRLF + "" == HeaderToString(hs[0]) + CRLF;
    }
  }

  lemma {:induction false} HeaderLinesAreLines(hs: seq<Header>)
    requires AllSingleLine(hs)
    ensures AreLines(HeaderLines(hs))
  {
    if hs != [] {
      LineFacts(hs[0]);
      HeaderLinesAreLines(hs[1..]);
      assert HeaderLines(hs)[1..] == HeaderLines(hs[1..]);
    }
  }

  lemma SearchPastCrlf(s: string)
    requires s != "" && s[0] != '\r'
    ensures Search(CRLF + s, BLANK_LINE) == 2 + Search(s, BLANK_LINE)
  {
    var t := CRLF + s;
    var u := t[1..];
    assert u == "\n" + s && u[1..] == s;
    if |t| >= 4 {
      assert t[..4][2] == s[0];
    }
    if |u| >= 4 {
      assert u[..4][0] == '\n';
    }
  }

  lemma JoinedStart(lines: seq<string>, more: string)
    requires AreLines(lines) && lines != []
    ensures var s := JoinLines(lines) + more; s != "" && s[0] != '\r'
  {
    assert |lines| > 1 ==> JoinLines(lines) == lines[0] + (CRLF + JoinLines(lines[1..]));
  }

  lemma FirstLineApart(lines: seq<string>, more: string)
    requires |lines| > 1
    ensures JoinLines(lines) + more == lines[0] + (CRLF + (JoinLines(lines[1..]) + more))
    ensures |JoinLines(lines)| == |lines[0]| + 2 + |JoinLines(lines[1..])|
  {
  }

  // The blank line after a block of lines is the first one.
  lemma {:induction false} BlankLineEndsTheBlock(lines: seq<string>, tail: string)
    requires AreLines(lines) && lines != []
    ensures Search(JoinLines(lines) + (BLANK_LINE + tail), BLANK_LINE) == |JoinLines(lines)|
  {
    var more := BLANK_LINE + tail;
    if |lines| == 1 {
      SearchSkips(lines[0], more, BLANK_LINE);
    } else {
      var s := JoinLines(lines[1..]) + more;
      BlankLineEndsTheBlock(lines[1..], tail);
      FirstLineApart(lines, more);
      JoinedStart(lines[1..], more);
      SearchSkips(lines[0], CRLF + s, BLANK_LINE);
      SearchPastCrlf(s);
    }
  }

  lemma TrimmedBlock(lines: seq<string>)
    requires AreLines(lines) && lines != [] && TrimLeft(lines[0]) != ""
    ensures TrimLeft(JoinLines(lines)) == JoinLines([TrimLeft(lines[0])] + lines[1..])
  {
    var trimmed := [TrimLeft(lines[0])] + lines[1..];
    assert trimmed[1..] == lines[1..];
    if |lines| > 1 {
      var rest := CRLF + JoinLines(lines[1..]);
      assert JoinLines(lines) == lines[0] + rest && JoinLines(trimmed) == TrimLeft(lines[0]) + rest;
      TrimLeftOfConcat(lines[0], rest);
    }
  }

  lemma {:induction false} ParseAllPrinted(hs: seq<Header>)
    ensures ParseAll(HeaderLines(hs)) == Success(hs) <==> AllReadable(hs)
  {
    if hs != [] {
      var lines := HeaderLines(hs);
      assert lines[0] == HeaderToString(hs[0]) && lines[1..] == HeaderLines(hs[1..]);
      ParsePrinted(hs[0]);
      ParseAllPrinted(hs[1..]);
      CompareHeaders(ParseHeader(lines[0]), ParseAll(lines[1..]), hs);
    }
  }

  // Comparing what was read with the list, first header and rest separately.
  lemma CompareHeaders(h: Result<Header, ParseError>, more: Result<seq<Header>, ParseError>, hs: seq<Header>)
    requires hs != []
    ensures h.Success? && more.Success? ==>
      ([h.value] + more.value == hs <==> h.value == hs[0] && more.value == hs[1..])
  {
    if h.Success? && more.Success? {
      assert ([h.value] + more.value)[0] == h.value && ([h.value] + more.value)[1..] == more.value;
    }
  }

  /** Printing a header list, ending it with a blank line and parsing it, whatever follows, gives the
      list back, in order, exactly when no name contains a colon, no value starts with white space and
      the first name does not either. Names and values hold no line breaks. */
  lemma HeaderBlockRoundTrip(hs: seq<Header>, tail: string)
    requires AllSingleLine(hs) && hs != []
    ensures ParseHeaders(HeadersToString(hs) + CRLF + tail) == Success(hs)
       <==> AllReadable(hs) && !StartsWithSpace(hs[0].name)
  {
    var lines := HeaderLines(hs);
    var s := HeadersToString(hs) + CRLF + tail;
    BlockIsJoinedLines(hs);
    HeaderLinesAreLines(hs);
    assert s == JoinLines(lines) + (BLANK_LINE + tail) by {
      assert JoinLines(lines) + CRLF + CRLF == JoinLines(lines) + BLANK_LINE;
    }
    LineFacts(hs[0]);
    BlockLines(lines, tail);
    var trimmed := [TrimLeft(lines[0])] + lines[1..];
    assert trimmed[1..] == lines[1..] == HeaderLines(hs[1..]);
    ParseTrimmed(hs[0]);
    ParseAllPrinted(hs[1..]);
    CompareHeaders(ParseHeader(trimmed[0]), ParseAll(trimmed[1..]), hs);
  }

  // The lines that are read of a block, whatever follows its blank line.
  lemma BlockLines(lines: seq<string>, tail: string)
    requires AreLines(lines) && lines != [] && IsLine(TrimLeft(lines[0]))
    ensures ParseHeaders(JoinLines(lines) + (BLANK_LINE + tail)) == ParseAll([TrimLeft(lines[0])] + lines[1..])
  {
    var s := JoinLines(lines) + (BLANK_LINE + tail);
    BlankLineEndsTheBlock(lines, tail);
    assert s[..|JoinLines(lines)|] == JoinLines(lines);
    TrimmedBlock(lines);
    var trimmed := [TrimLeft(lines[0])] + lines[1..];
    assert trimmed[1..] == lines[1..];
    SplitInvertsJoin(trimmed);
  }

  lemma EmptyBlockRoundTrip()
    ensures ParseHeaders(HeadersToString([]) + CRLF) == Success([])
  {
    var s := HeadersToString([]) + CRLF;
    assert s == CRLF && Search(s, BLANK_LINE) == 2 && s[..2] == CRLF;
    assert CRLF[1..] == "\n" && "\n"[1..] == "";
    assert TrimLeft("\n") == "";
    assert Lines("") == [""] && NonEmpty([""]) == [];
  }

  // ------------------------------------------------------------------------------------------
  // Lines as others write them

  /** A header line is read as the text before its first colon and the text after it without the white space
      in between, however much there is; a line without a colon is no header. */
  lemma HeaderLinesRead(name: string, space: string, value: string)
    requires Free(name, {':'}) && !StartsWithSpace(value) && forall i :: 0 <= i < |space| ==> IsSpace(space[i])
    ensures ParseHeader(name + (":" + (space + value))) == Success(Header(name, value))
    ensures ParseHeader(name) == Failure(NoColon)
  {
    var line := name + (":" + (space + value));
    FindAnyAt(name, ":" + (space + value), {':'});
    FindAnyAt(name, "", {':'});
    assert name + "" == name;
    assert line[..|name|] == name && line[|name| + 1..] == space + value;
    TrimSpace(space, value);
  }

  lemma {:induction false} TrimSpace(space: string, value: string)
    requires !StartsWithSpace(value) && forall i :: 0 <= i < |space| ==> IsSpace(space[i])
    ensures TrimLeft(space + value) == value
  {
    if space == "" {
      assert space + value == value;
    } else {
      assert (space + value)[1..] == space[1..] + value;
      TrimSpace(space[1..], value);
    }
  }

  predicate SomeColonless(lines: seq<string>) {
    exists i :: 0 <= i < |lines| && Free(lines[i], {':'})
  }

  /** A block is read exactly if all its lines have colons: one line without fails the whole block. */
  lemma {:induction false} ColonlessLinesFail(lines: seq<string>)
    ensures if SomeColonless(lines) then ParseAll(lines) == Failure(NoColon)
            else ParseAll(lines).Success? && |ParseAll(lines).value| == |lines|
  {
    if lines != [] {
      var rest := lines[1..];
      ColonlessLinesFail(rest);
      assert forall i :: 0 <= i < |rest| ==> rest[i] == lines[i + 1];
      if SomeColonless(rest) {
        var i :| 0 <= i < |rest| && Free(rest[i], {':'});
        assert Free(lines[i + 1], {':'});
      }
      if Free(lines[0], {':'}) {
        FindAnyAt(lines[0], "", {':'});
        assert lines[0] + "" == lines[0];
      } else {
        var i :| 0 <= i < |lines[0]| && lines[0][i] in {':'};
        assert FindAny(lines[0], {':'}) < |lines[0]|;
        if SomeColonless(lines) {
          var k :| 0 <= k < |lines| && Free(lines[k], {':'});
          assert k > 0 && rest[k - 1] == lines[k];
        }
      }
    }
  }

  /** The same for the text of a block, whatever follows its blank line. */
  lemma BlocksNeedColons(lines: seq<string>, tail: string)
    requires AreLines(lines) && lines != [] && !StartsWithSpace(lines[0])
    ensures ParseHeaders(JoinLines(lines) + (BLANK_LINE + tail)) == ParseAll(lines)
    ensures SomeColonless(lines) ==> ParseHeaders(JoinLines(lines) + (BLANK_LINE + tail)) == Failure(NoColon)
  {
    TrimLeftFacts(lines[0]);
    assert [TrimLeft(lines[0])] + lines[1..] == lines;
    BlockLines(lines, tail);
    ColonlessLinesFail(lines);
  }
}
