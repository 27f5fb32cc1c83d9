/** Percent-decoding and query strings (src/lib_http_parser.cpp, src/lib_http_parser_impl.cpp). */
module UrlCoding {
  import opened Wrappers
  import opened Text

  // Truncated: a '%' with fewer than two characters after it, where the source reads past its view.
  datatype ParseError =
    | EmptyInput | InvalidHex | Truncated | InvalidPath | UnknownMethod | InvalidVersion | NoLineEnd | NoColon

  function HexValue(c: char): Option<nat> {
    if '0' <= c <= '9' then Some(c as int - '0' as int)
    else if 'a' <= c <= 'f' then Some(c as int - 'a' as int + 10)
    else if 'A' <= c <= 'F' then Some(c as int - 'A' as int + 10)
    else None
  }

  // make_hex of a view
  function MakeHex(s: string): Result<char, ParseError> {
    if s == "" then Failure(Truncated)
    else match HexValue(s[0])
      case None => Failure(InvalidHex)
      case Some(hi) =>
        if |s| == 1 then Failure(Truncated)
        else match HexValue(s[1])
          case None => Failure(InvalidHex)
          case Some(lo) => Success((16 * hi + lo) as char)
  }

  function UrlDecode(s: string): Result<string, ParseError> {
    if s == "" then Success("")
    else if s[0] == '%' then
      var c :- MakeHex(s[1..]);
      var rest :- UrlDecode(s[3..]);
      Success([c] + rest)
    else
      var rest :- UrlDecode(s[1..]);
      Success([s[0]] + rest)
  }

  function Prepend(prefix: string, r: Result<string, ParseError>): Result<string, ParseError> {
    match r
    case Success(s) => Success(prefix + s)
    case Failure(e) => Failure(e)
  }

  lemma PrependTwice(a: string, b: string, r: Result<string, ParseError>)
    ensures Prepend(a, Prepend(b, r)) == Prepend(a + b, r)
  {
    if r.Success? {
      assert a + (b + r.value) == a + b + r.value;
    }
  }

  lemma {:induction false} LiteralsDecode(prefix: string, s: string)
    requires Free(prefix, {'%'})
    ensures UrlDecode(prefix + s) == Prepend(prefix, UrlDecode(s))
  {
    if prefix == "" {
      assert prefix + s == s && forall t: string :: "" + t == t;
    } else {
      assert (prefix + s)[1..] == prefix[1..] + s;
      LiteralsDecode(prefix[1..], s);
      PrependTwice([prefix[0]], prefix[1..], UrlDecode(s));
      assert [prefix[0]] + prefix[1..] == prefix;
    }
  }

  // url_decode: copies up to the next '%', then one decoded escape, and so on
  method DecodeUrl(str: string) returns (r: Result<string, ParseError>)
    ensures r == UrlDecode(str)
  {
    var s, result := str, "";
    var pos := FindAny(s, {'%'});
    assert forall t: string :: "" + t == t;
    while pos != |s|
      invariant pos == FindAny(s, {'%'})
      invariant UrlDecode(str) == Prepend(result, UrlDecode(s))
      decreases |s|
    {
      LiteralsDecode(s[..pos], s[pos..]);
      assert s[..pos] + s[pos..] == s;
      PrependTwice(result, s[..pos], UrlDecode(s[pos..]));
      result := result + s[..pos];
      ghost var escape := s[pos..];
      s := s[pos + 1..];
      assert escape[1..] == s;
      var hex := MakeHex(s);
      if hex.Failure? {
        return Failure(hex.error);
      }
      assert escape[3..] == s[2..];
      PrependTwice(result, [hex.value], UrlDecode(s[2..]));
      result := result + [hex.value];
      s := s[2..];
      pos := FindAny(s, {'%'});
    }
    PlainDecodes(s);
    return Success(result + s);
  }

  lemma PlainDecodes(s: string)
    requires Free(s, {'%'})
    ensures UrlDecode(s) == Success(s)
  {
    LiteralsDecode(s, "");
    assert s + "" == s;
  }

  // ------------------------------------------------------------------------------------------
  // Encoders: every character is written as itself or escaped, in either case of either digit

  datatype Spelling = Literal | Escaped(upperHi: bool, upperLo: bool)

  function HexDigit(v: nat, upper: bool): char
    requires v < 16
  {
    if v < 10 then ('0' as int + v) as char
    else if upper then ('A' as int + v - 10) as char
    else ('a' as int + v - 10) as char
  }

  function Spell(c: char, how: Spelling): string
    requires c < 256 as char
  {
    match how
    case Literal => [c]
    case Escaped(hi, lo) => ['%', HexDigit(c as int / 16, hi), HexDigit(c as int % 16, lo)]
  }

  predicate Bytes(s: string) {
    forall i :: 0 <= i < |s| ==> s[i] < 256 as char
  }

  function Encode(s: string, how: seq<Spelling>): string
    requires Bytes(s) && |how| == |s|
  {
    if s == "" then "" else Spell(s[0], how[0]) + Encode(s[1..], how[1..])
  }

  predicate Escapes(s: string, how: seq<Spelling>, chars: set<char>)
    requires |how| == |s|
  {
    forall i :: 0 <= i < |s| && s[i] in chars ==> how[i].Escaped?
  }

  function Percents(s: string): nat {
    if s == "" then 0 else (if s[0] == '%' then 1 else 0) + Percents(s[1..])
  }

  lemma {:induction false} PercentsAppend(s: string, t: string)
    ensures Percents(s + t) == Percents(s) + Percents(t)
  {
    if s == "" {
      assert s + t == t;
    } else {
      assert (s + t)[1..] == s[1..] + t;
      PercentsAppend(s[1..], t);
    }
  }

  lemma {:induction false} NoPercents(s: string)
    requires Free(s, {'%'})
    ensures Percents(s) == 0
  {
    if s != "" {
      NoPercents(s[1..]);
    }
  }

  // Every '%' that decoding accepts is followed by two hex digits, so each one costs two characters.
  lemma {:induction false} DecodedLength(s: string)
    ensures UrlDecode(s).Success? ==> |UrlDecode(s).value| == |s| - 2 * Percents(s)
    decreases |s|
  {
    if s != "" && s[0] != '%' {
      DecodedLength(s[1..]);
    } else if s != "" && MakeHex(s[1..]).Success? {
      DecodedLength(s[3..]);
      var rest := s[1..];
      assert rest[0] == s[1] != '%' && rest[1..][0] == s[2] != '%';
      assert Percents(rest) == Percents(rest[1..]) == Percents(rest[1..][1..]);
      assert rest[1..][1..] == s[3..];
    }
  }

  function EscapeCount(how: seq<Spelling>): nat {
    if how == [] then 0 else (if how[0].Escaped? then 1 else 0) + EscapeCount(how[1..])
  }

  function BareCount(s: string, how: seq<Spelling>): nat
    requires |how| == |s|
  {
    if s == "" then 0 else (if s[0] == '%' && how[0].Literal? then 1 else 0) + BareCount(s[1..], how[1..])
  }

  lemma {:induction false} EncodedCounts(s: string, how: seq<Spelling>)
    requires Bytes(s) && |how| == |s|
    ensures |Encode(s, how)| == |s| + 2 * EscapeCount(how)
    ensures Percents(Encode(s, how)) == EscapeCount(how) + BareCount(s, how)
    ensures BareCount(s, how) == 0 <==> Escapes(s, how, {'%'})
  {
    if s != "" {
      EncodedCounts(s[1..], how[1..]);
      PercentsAppend(Spell(s[0], how[0]), Encode(s[1..], how[1..]));
      var spelled := Spell(s[0], how[0]);
      if how[0].Escaped? {
        NoPercents(spelled[1..]);
      } else {
        assert spelled[1..] == "";
      }
      assert Escapes(s, how, {'%'}) <==> (s[0] == '%' ==> how[0].Escaped?) && Escapes(s[1..], how[1..], {'%'}) by {
        assert forall i :: 0 < i < |s| ==> s[i] == s[1..][i - 1] && how[i] == how[1..][i - 1];
      }
    }
  }

  lemma SpelledDecodes(c: char, how: Spelling, rest: string)
    requires c < 256 as char && (c == '%' ==> how.Escaped?)
    ensures UrlDecode(Spell(c, how) + rest) == Prepend([c], UrlDecode(rest))
  {
    var s := Spell(c, how) + rest;
    if how.Escaped? {
      assert s[1..][0] == s[1] && s[1..][1] == s[2] && s[3..] == rest;
    } else {
      assert s[1..] == rest;
    }
  }

  lemma {:induction false} DecodeInvertsEncode(s: string, how: seq<Spelling>)
    requires Bytes(s) && |how| == |s| && Escapes(s, how, {'%'})
    ensures UrlDecode(Encode(s, how)) == Success(s)
  {
    if s != "" {
      assert Escapes(s[1..], how[1..], {'%'});
      DecodeInvertsEncode(s[1..], how[1..]);
      SpelledDecodes(s[0], how[0], Encode(s[1..], how[1..]));
      assert s == [s[0]] + s[1..];
    }
  }

  /** Decoding inverts an encoder exactly when the encoder escapes every '%', whichever other characters
      it escapes and in whichever case. */
  lemma DecodeInvertsExactlyTheEscapers(s: string, how: seq<Spelling>)
    requires Bytes(s) && |how| == |s|
    ensures UrlDecode(Encode(s, how)) == Success(s) <==> Escapes(s, how, {'%'})
  {
    if Escapes(s, how, {'%'}) {
      DecodeInvertsEncode(s, how);
    } else {
      EncodedCounts(s, how);
      DecodedLength(Encode(s, how));
    }
  }

  lemma {:induction false} EncodedIsFree(s: string, how: seq<Spelling>, chars: set<char>)
    requires Bytes(s) && |how| == |s| && Escapes(s, how, chars)
    requires forall c <- chars :: c != '%' && HexValue(c).None?
    ensures Free(Encode(s, how), chars)
  {
    if s != "" {
      EncodedIsFree(s[1..], how[1..], chars);
    }
  }

  // ------------------------------------------------------------------------------------------
  // What can be decoded at all

  // A '%' is followed by two hex digits.
  predicate IsEscape(s: string, i: nat)
    requires i < |s|
  {
    i + 2 < |s| && HexValue(s[i + 1]).Some? && HexValue(s[i + 2]).Some?
  }

  predicate EscapesUpTo(s: string, n: nat)
    requires n <= |s|
  {
    forall i :: 0 <= i < n && s[i] == '%' ==> IsEscape(s, i)
  }

  lemma EscapeApart(s: string)
    requires s != ""
    ensures s[0] == '%' ==> (MakeHex(s[1..]).Success? <==> IsEscape(s, 0))
  {
  }

  /** A text is decoded exactly if every '%' is followed by two hex digits. */
  lemma {:induction false} DecodesExactlyEscapes(s: string)
    ensures UrlDecode(s).Success? <==> EscapesUpTo(s, |s|)
    decreases |s|
  {
    if s != "" {
      EscapeApart(s);
      if s[0] != '%' {
        DecodesExactlyEscapes(s[1..]);
        ShiftEscapes(s, 1);
      } else if IsEscape(s, 0) {
        DecodesExactlyEscapes(s[3..]);
        assert s[1] != '%' && s[2] != '%';
        ShiftEscapes(s, 3);
      }
    }
  }

  // Escapes do not depend on the text before them.
  lemma ShiftEscapes(s: string, n: nat)
    requires n <= |s| && EscapesUpTo(s, n)
    ensures EscapesUpTo(s, |s|) <==> EscapesUpTo(s[n..], |s[n..]|)
  {
    var t := s[n..];
    assert forall i :: n <= i < |s| ==> t[i - n] == s[i];
    assert forall i :: n <= i < |s| ==> (IsEscape(s, i) <==> IsEscape(t, i - n));
    if EscapesUpTo(s, |s|) {
      forall i | 0 <= i < |t| && t[i] == '%' ensures IsEscape(t, i) {
        assert s[i + n] == '%' && IsEscape(s, i + n);
      }
    }
    if EscapesUpTo(t, |t|) {
      forall i | 0 <= i < |s| && s[i] == '%' ensures IsEscape(s, i) {
        assert i >= n ==> t[i - n] == '%' && IsEscape(t, i - n);
      }
    }
  }

  /** The first '%' that is not is an invalid digit, unless the text ends before the second digit. */
  lemma {:induction false} FirstBadEscape(s: string, i: nat)
    requires i < |s| && s[i] == '%' && EscapesUpTo(s, i) && !IsEscape(s, i)
    ensures UrlDecode(s) == Failure(
      if (i + 1 < |s| && HexValue(s[i + 1]).None?) || (i + 2 < |s| && HexValue(s[i + 2]).None?) then InvalidHex
      else Truncated)
    decreases |s|
  {
    EscapeApart(s);
    var n := if s[0] == '%' then 3 else 1;
    if i > 0 {
      assert s[0] == '%' ==> IsEscape(s, 0) && s[1] != '%' && s[2] != '%';
      var t := s[n..];
      assert forall k :: n <= k < |s| ==> t[k - n] == s[k];
      forall k | 0 <= k < i - n && t[k] == '%' ensures IsEscape(t, k) {
        assert s[k + n] == '%' && IsEscape(s, k + n);
      }
      FirstBadEscape(t, i - n);
    }
  }

  // ------------------------------------------------------------------------------------------
  // Query strings

  datatype QueryPair = QueryPair(name: string, value: Option<string>)

  // When there is no '=', npos + 1 wraps to 0, nothing is removed, and the name is read again as value.
  function ParseQueryPair(s: string): Result<QueryPair, ParseError> {
    if s == "" then Failure(EmptyInput)
    else
      var pos := FindAny(s, {'='});
      var name :- UrlDecode(s[..pos]);
      var rest := if pos == |s| then s else s[pos + 1..];
      if rest == "" then Success(QueryPair(name, None))
      else
        var value :- UrlDecode(rest);
        Success(QueryPair(name, Some(value)))
  }

  function ParseQueryPairs(s: string): Result<seq<QueryPair>, ParseError> {
    if s == "" then Failure(EmptyInput)
    else
      var cur := FindAny(s, {'&'});
      var pair :- ParseQueryPair(s[..cur]);
      var rest := if cur == |s| then "" else s[cur + 1..];
      if rest == "" then Success([pair])
      else
        var pairs :- ParseQueryPairs(rest);
        Success([pair] + pairs)
  }

  function PrependPairs(pairs: seq<QueryPair>, r: Result<seq<QueryPair>, ParseError>)
    : Result<seq<QueryPair>, ParseError>
  {
    match r
    case Success(more) => Success(pairs + more)
    case Failure(e) => Failure(e)
  }

  lemma PrependOneMore(pairs: seq<QueryPair>, pair: QueryPair, r: Result<seq<QueryPair>, ParseError>)
    ensures PrependPairs(pairs, PrependPairs([pair], r)) == PrependPairs(pairs + [pair], r)
  {
    if r.Success? {
      assert pairs + ([pair] + r.value) == pairs + [pair] + r.value;
    }
  }

  // parse_query_pairs: the view shrinks by at least one character a round
  method SplitQuery(str: string) returns (r: Result<seq<QueryPair>, ParseError>)
    ensures r == ParseQueryPairs(str)
  {
    if str == "" {
      return Failure(EmptyInput);
    }
    var s, pairs := str, [];
    assert PrependPairs([], ParseQueryPairs(str)) == ParseQueryPairs(str) by {
      assert forall more: seq<QueryPair> :: [] + more == more;
    }
    while s != ""
      invariant s != "" ==> ParseQueryPairs(str) == PrependPairs(pairs, ParseQueryPairs(s))
      invariant s == "" ==> ParseQueryPairs(str) == Success(pairs)
      decreases |s|
    {
      var cur := FindAny(s, {'&'});
      var pair := ParseQueryPair(s[..cur]);
      if pair.Failure? {
        return Failure(pair.error);
      }
      ghost var rest := if cur == |s| then "" else s[cur + 1..];
      if cur >= |s| {
        cur := |s| - 1;
      }
      assert s[cur + 1..] == rest;
      if rest != "" {
        PrependOneMore(pairs, pair.value, ParseQueryPairs(rest));
      }
      s, pairs := s[cur + 1..], pairs + [pair.value];
    }
    return Success(pairs);
  }

  // A pair as some encoder writes it.
  datatype Spelled = Spelled(pair: QueryPair, name: seq<Spelling>, value: seq<Spelling>)

  predicate WellSpelled(p: Spelled) {
    && Bytes(p.pair.name) && |p.name| == |p.pair.name| && Escapes(p.pair.name, p.name, {'%', '=', '&'})
    && (p.pair.value.Some? ==>
         Bytes(p.pair.value.value) && |p.value| == |p.pair.value.value|
           && Escapes(p.pair.value.value, p.value, {'%', '&'}))
  }

  predicate AllWellSpelled(ps: seq<Spelled>) {
    forall i :: 0 <= i < |ps| ==> WellSpelled(ps[i])
  }

  function PrintPair(p: Spelled): string
    requires WellSpelled(p)
  {
    Encode(p.pair.name, p.name) + if p.pair.value.Some? then "=" + Encode(p.pair.value.value, p.value) else ""
  }

  function PrintPairs(ps: seq<Spelled>): string
    requires AllWellSpelled(ps)
  {
    if ps == [] then "" else PrintPair(ps[0]) + if |ps| == 1 then "" else "&" + PrintPairs(ps[1..])
  }

  function Pairs(ps: seq<Spelled>): seq<QueryPair> {
    if ps == [] then [] else [ps[0].pair] + Pairs(ps[1..])
  }

  // What a printed pair is read back as.
  function ReadBack(p: QueryPair): QueryPair {
    match p.value
    case None => QueryPair(p.name, Some(p.name))
    case Some(v) => if v == "" then QueryPair(p.name, None) else p
  }

  predicate HasValue(p: QueryPair) {
    p.value.Some? && p.value.value != ""
  }

  lemma NonEmptyEncoding(s: string, how: seq<Spelling>)
    requires Bytes(s) && |how| == |s|
    ensures Encode(s, how) == "" <==> s == ""
  {
  }

  // Splitting one pair at its first '='.
  lemma SplitAtEquals(name: string, value: string)
    requires Free(name, {'='})
    requires UrlDecode(name).Success? && UrlDecode(value).Success?
    ensures ParseQueryPair(name + "=" + value) ==
      Success(QueryPair(UrlDecode(name).value, if value == "" then None else Some(UrlDecode(value).value)))
  {
    var s := name + "=" + value;
    FindAnyAt(name, "=" + value, {'='});
    assert s == name + ("=" + value) && s[..|name|] == name && s[|name| + 1..] == value;
  }

  lemma NameAlone(name: string)
    requires Free(name, {'='}) && UrlDecode(name).Success? && name != ""
    ensures ParseQueryPair(name) == Success(QueryPair(UrlDecode(name).value, Some(UrlDecode(name).value)))
  {
    FindAnyAt(name, "", {'='});
    assert name + "" == name && name[..|name|] == name;
  }

  lemma PairReadsBack(p: Spelled)
    requires WellSpelled(p) && PrintPair(p) != ""
    ensures ParseQueryPair(PrintPair(p)) == Success(ReadBack(p.pair)) && Free(PrintPair(p), {'&'})
  {
    var name := Encode(p.pair.name, p.name);
    EncodedIsFree(p.pair.name, p.name, {'=', '&'});
    DecodeInvertsEncode(p.pair.name, p.name);
    if p.pair.value.Some? {
      var v := p.pair.value.value;
      EncodedIsFree(v, p.value, {'&'});
      DecodeInvertsEncode(v, p.value);
      NonEmptyEncoding(v, p.value);
      SplitAtEquals(name, Encode(v, p.value));
      assert PrintPair(p) == name + "=" + Encode(v, p.value);
    } else {
      assert name + "" == name;
      NameAlone(name);
    }
  }

  predicate AllHaveValues(ps: seq<Spelled>) {
    ps == [] || (HasValue(ps[0].pair) && AllHaveValues(ps[1..]))
  }

  lemma ParseFirst(first: string, tail: string)
    requires first != "" && Free(first, {'&'}) && (tail == "" || tail[0] == '&')
    ensures ParseQueryPairs(first + tail) == (
      match ParseQueryPair(first)
      case Failure(e) => Failure(e)
      case Success(p) => if |tail| <= 1 then Success([p]) else PrependPairs([p], ParseQueryPairs(tail[1..])))
  {
    var s := first + tail;
    var rest := if |first| == |s| then "" else s[|first| + 1..];
    FindAnyAt(first, tail, {'&'});
    assert s[..|first|] == first && rest == (if tail == "" then "" else tail[1..]);
    assert |tail| <= 1 <==> rest == "";
    ParseStep(s);
  }

  lemma ParseStep(s: string)
    requires s != ""
    ensures var cur := FindAny(s, {'&'});
      var rest := if cur == |s| then "" else s[cur + 1..];
      ParseQueryPairs(s) == (
        match ParseQueryPair(s[..cur])
        case Failure(e) => Failure(e)
        case Success(p) => if rest == "" then Success([p]) else PrependPairs([p], ParseQueryPairs(rest)))
  {
  }

  lemma FirstPairReadsBack(ps: seq<Spelled>)
    requires AllWellSpelled(ps) && ps != [] && PrintPair(ps[0]) != ""
    ensures var rest := PrintPairs(ps[1..]);
      ParseQueryPairs(PrintPairs(ps)) == if rest == "" then Success([ReadBack(ps[0].pair)])
                                         else PrependPairs([ReadBack(ps[0].pair)], ParseQueryPairs(rest))
  {
    var tail := if |ps| == 1 then "" else "&" + PrintPairs(ps[1..]);
    PairReadsBack(ps[0]);
    ParseFirst(PrintPair(ps[0]), tail);
    assert |ps| > 1 ==> tail[1..] == PrintPairs(ps[1..]);
  }

  lemma EmptyFirstPairFails(ps: seq<Spelled>)
    requires AllWellSpelled(ps) && ps != [] && PrintPair(ps[0]) == ""
    ensures ParseQueryPairs(PrintPairs(ps)).Failure? && !HasValue(ps[0].pair)
  {
    if |ps| > 1 {
      var tail := "&" + PrintPairs(ps[1..]);
      assert PrintPairs(ps) == "" + tail == tail;
      assert FindAny(tail, {'&'}) == 0 && tail[..0] == "";
    }
  }

  // Comparing the outcome with the list, first pair and rest separately.
  lemma CompareFirst(q: QueryPair, more: Result<seq<QueryPair>, ParseError>, p: QueryPair, rest: seq<QueryPair>,
      ends: bool)
    requires ends ==> more.Failure?
    requires rest != []
    ensures var parsed := if ends then Success([q]) else PrependPairs([q], more);
      parsed == Success([p] + rest) <==> q == p && more == Success(rest)
  {
    if ends {
      assert |[p] + rest| > 1;
    } else if more.Success? && [q] + more.value == [p] + rest {
      assert ([q] + more.value)[0] == q && ([q] + more.value)[1..] == more.value && ([p] + rest)[1..] == rest;
    }
  }

  /** Printing a list of pairs with any encoder that escapes '%' and '&', and '=' in names, and parsing
      the result gives the list back exactly when every pair has a non-empty value. */
  lemma {:induction false} QueryRoundTrip(ps: seq<Spelled>)
    requires AllWellSpelled(ps) && ps != []
    ensures ParseQueryPairs(PrintPairs(ps)) == Success(Pairs(ps)) <==> AllHaveValues(ps)
  {
    var rest := ps[1..];
    if PrintPair(ps[0]) == "" {
      EmptyFirstPairFails(ps);
    } else {
      FirstPairReadsBack(ps);
      if rest == [] {
        assert Pairs(ps) == [ps[0].pair];
      } else {
        QueryRoundTrip(rest);
        CompareFirst(ReadBack(ps[0].pair), ParseQueryPairs(PrintPairs(rest)),
          ps[0].pair, Pairs(rest), PrintPairs(rest) == "");
      }
    }
  }
}
