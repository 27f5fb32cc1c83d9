/** URLs as browsers write them: every part percent-encoded, the query's pairs joined with '&'
    (sections 2.1 and 3.3 to 3.5 of RFC 3986). The parser is proved to undo any such encoding. */
module EncodedUrls {
  import opened Wrappers
  import opened Text
  import opened UrlCoding
  import opened HttpRequest
  import HttpMethods

  // A URL as some encoder writes it.
  datatype SpelledUrl = SpelledUrl(
    path: string, pathSpelling: seq<Spelling>, query: seq<Spelled>, fragment: Option<string>,
    fragmentSpelling: seq<Spelling>)

  const AFTER_PATH := {' ', '?', '#', '%'}
  const AFTER_PAIR := {' ', '#'}

  predicate SpelledPair(p: Spelled) {
    && WellSpelled(p) && Escapes(p.pair.name, p.name, AFTER_PAIR)
    && (p.pair.value.Some? ==> Escapes(p.pair.value.value, p.value, AFTER_PAIR))
  }

  // Whatever ends a part inside the URL is escaped in the part, and so is '%'; anything else may be.
  predicate WellSpelledUrl(u: SpelledUrl) {
    && Bytes(u.path) && |u.pathSpelling| == |u.path| && Escapes(u.path, u.pathSpelling, AFTER_PATH)
    && (forall i :: 0 <= i < |u.query| ==> SpelledPair(u.query[i]))
    && (u.fragment.Some? ==>
          Bytes(u.fragment.value) && |u.fragmentSpelling| == |u.fragment.value|
          && Escapes(u.fragment.value, u.fragmentSpelling, {' ', '%'}))
  }

  function PathText(u: SpelledUrl): string
    requires WellSpelledUrl(u)
  {
    Encode(u.path, u.pathSpelling)
  }

  function FragmentText(u: SpelledUrl): Option<string>
    requires WellSpelledUrl(u)
  {
    if u.fragment.Some? then Some(Encode(u.fragment.value, u.fragmentSpelling)) else None
  }

  function QueryText(u: SpelledUrl): string
    requires WellSpelledUrl(u)
  {
    assert AllWellSpelled(u.query);
    if u.query == [] then "" else "?" + PrintPairs(u.query)
  }

  function UrlText(u: SpelledUrl): string
    requires WellSpelledUrl(u)
  {
    PathText(u) + (QueryText(u) + FragmentToString(FragmentText(u)))
  }

  function Decoded(u: SpelledUrl): UrlPath {
    UrlPath(u.path, Pairs(u.query), u.fragment)
  }

  // ------------------------------------------------------------------------------------------
  // Parts

  lemma EncodedParts(s: string, how: seq<Spelling>, chars: set<char>)
    requires Bytes(s) && |how| == |s| && Escapes(s, how, chars) && '%' in chars
    requires forall c <- chars :: c == '%' || HexValue(c).None?
    ensures Free(Encode(s, how), chars - {'%'}) && UrlDecode(Encode(s, how)) == Success(s)
  {
    EncodedIsFree(s, how, chars - {'%'});
    DecodeInvertsEncode(s, how);
  }

  lemma PairTextIsFree(p: Spelled)
    requires SpelledPair(p)
    ensures Free(PrintPair(p), AFTER_PAIR)
  {
    EncodedIsFree(p.pair.name, p.name, AFTER_PAIR);
    if p.pair.value.Some? {
      EncodedIsFree(p.pair.value.value, p.value, AFTER_PAIR);
    }
  }

  lemma {:induction false} PairsTextIsFree(ps: seq<Spelled>)
    requires forall i :: 0 <= i < |ps| ==> SpelledPair(ps[i])
    ensures AllWellSpelled(ps) && Free(PrintPairs(ps), AFTER_PAIR)
  {
    if ps != [] {
      assert SpelledPair(ps[0]);
      assert forall i :: 0 <= i < |ps[1..]| ==> ps[1..][i] == ps[i + 1];
      PairTextIsFree(ps[0]);
      PairsTextIsFree(ps[1..]);
    }
  }

  lemma FirstCharacter(s: string, how: seq<Spelling>)
    requires Bytes(s) && |how| == |s| && Escapes(s, how, {'%'})
    ensures Encode(s, how) == "" <==> s == ""
    ensures s != "" ==> (Encode(s, how)[0] == '/' <==> s[0] == '/' && how[0].Literal?)
  {
  }

  // The path, and what is left after it.
  lemma PathReadsBack(u: SpelledUrl, rest: string)
    requires WellSpelledUrl(u) && (rest == "" || rest[0] in {'?', '#'})
    ensures var r := ParsePath(PathText(u) + rest);
      if u.path != "" && u.path[0] == '/' && u.pathSpelling[0].Literal? then r == Success(Parsed(u.path, rest))
      else r.Failure?
  {
    var text := PathText(u);
    EncodedParts(u.path, u.pathSpelling, AFTER_PATH);
    FirstCharacter(u.path, u.pathSpelling);
    FindAnyAt(text, rest, {' ', '?', '#'});
    assert (text + rest)[..|text|] == text && (text + rest)[|text|..] == rest;
    if text != "" {
      assert (text + rest)[0] == text[0];
    }
  }

  lemma FragmentReadsBack(u: SpelledUrl)
    requires WellSpelledUrl(u)
    ensures ParseFragment(TrimLeft(FragmentToString(FragmentText(u)))) == Success(u.fragment)
  {
    if u.fragment.Some? {
      var text := Encode(u.fragment.value, u.fragmentSpelling);
      var s := "#" + text;
      EncodedParts(u.fragment.value, u.fragmentSpelling, {' ', '%'});
      FindAnyAt(text, "", {' '});
      assert s[1..] == text && TrimLeft(s) == s && text + "" == text && text[..|text|] == text;
    }
  }

  lemma QueryReadsBack(u: SpelledUrl)
    requires WellSpelledUrl(u) && u.query != []
    ensures var r := ParseQuery(QueryText(u) + FragmentToString(FragmentText(u)));
      && (r.Success? ==> r.value.rest == FragmentToString(FragmentText(u)))
      && ((r.Success? && r.value.value == Pairs(u.query)) <==> AllHaveValues(u.query))
  {
    PairsTextIsFree(u.query);
    var q := PrintPairs(u.query);
    QueryApart(q, FragmentText(u));
    QueryRoundTrip(u.query);
    if q == "" {
      EmptyQueryHasNoValues(u.query);
    }
  }

  lemma EmptyQueryHasNoValues(ps: seq<Spelled>)
    requires AllWellSpelled(ps) && ps != [] && PrintPairs(ps) == ""
    ensures !AllHaveValues(ps) && Pairs(ps) != []
  {
  }

  // ------------------------------------------------------------------------------------------
  // The whole URL

  // What a browser's URL must have to be read: a path from the root, values for all its names, and a
  // fragment only after a query.
  predicate ReadableUrl(u: SpelledUrl)
    requires WellSpelledUrl(u)
  {
    && u.path != "" && u.path[0] == '/' && u.pathSpelling[0].Literal?
    && AllHaveValues(u.query) && (u.fragment.Some? ==> u.query != [])
  }

  lemma RestStarts(u: SpelledUrl)
    requires WellSpelledUrl(u)
    ensures var rest := QueryText(u) + FragmentToString(FragmentText(u));
      (rest == "" || rest[0] in {'?', '#'}) && TrimLeft(rest) == rest && Free(rest, {' '})
  {
    PairsTextIsFree(u.query);
    if u.fragment.Some? {
      EncodedParts(u.fragment.value, u.fragmentSpelling, {' ', '%'});
    }
  }

  lemma TextEnds(u: SpelledUrl, more: string)
    requires WellSpelledUrl(u) && (more == "" || more[0] == ' ')
    ensures FindAny(UrlText(u) + more, {' '}) == |UrlText(u)|
    ensures (UrlText(u) + more)[..|UrlText(u)|] == UrlText(u) && (UrlText(u) + more)[|UrlText(u)|..] == more
  {
    EncodedParts(u.path, u.pathSpelling, AFTER_PATH);
    RestStarts(u);
    FindAnyAt(UrlText(u), more, {' '});
  }

  // Query and fragment, once the path is read.
  lemma RestReadsBack(u: SpelledUrl)
    requires WellSpelledUrl(u)
    ensures var rest := QueryText(u) + FragmentToString(FragmentText(u));
      var query := ParseQuery(rest);
      (query.Success? && query.value.value == Pairs(u.query)
       && ParseFragment(TrimLeft(query.value.rest)) == Success(u.fragment))
      == (AllHaveValues(u.query) && (u.fragment.Some? ==> u.query != []))
  {
    var tail := FragmentToString(FragmentText(u));
    FragmentReadsBack(u);
    if u.query == [] {
      assert "" + tail == tail;
      assert ParseQuery(tail) == Success(Parsed([], "")) && Pairs([]) == [];
    } else {
      QueryReadsBack(u);
    }
  }

  /** A URL in any spelling that escapes what would end its parts, followed by a space, is read as the URL it
      spells, exactly if its path is from the root, every pair has a non-empty value, and a fragment comes
      only with a query. */
  lemma EncodedUrlReadsBack(u: SpelledUrl, more: string)
    requires WellSpelledUrl(u) && (more == "" || more[0] == ' ')
    ensures ParseUrl(UrlText(u) + more) == Success(Parsed(Decoded(u), more)) <==> ReadableUrl(u)
  {
    var rest := QueryText(u) + FragmentToString(FragmentText(u));
    TextEnds(u, more);
    RestStarts(u);
    PathReadsBack(u, rest);
    RestReadsBack(u);
  }

  /** The same in a request line, for every method. */
  lemma EncodedRequestLineReadsBack(m: HttpMethods.HttpMethod, u: SpelledUrl)
    requires WellSpelledUrl(u) && ReadableUrl(u)
    ensures ParseRequestLine(HttpMethods.ToString(m) + (" " + (UrlText(u) + VERSION)))
         == Success(RequestLine(m, Decoded(u), "1.1"))
  {
    FirstCharacter(u.path, u.pathSpelling);
    MethodApart(m, UrlText(u) + VERSION);
    assert TrimLeft(UrlText(u) + VERSION) == UrlText(u) + VERSION;
    EncodedUrlReadsBack(u, VERSION);
    VersionReadBack();
  }
}
