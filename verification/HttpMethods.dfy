/** Request methods and their text form (include/lib_http_request.h, src/lib_http_request.cpp). */
module HttpMethods {
  import opened Wrappers

  datatype HttpMethod = Options | Get | Head | Post | Put | Delete | Trace | Connect | Any

  function ToString(m: HttpMethod): string {
    match m
    case Get => "GET"
    case Post => "POST"
    case Connect => "CONNECT"
    case Delete => "DELETE"
    case Head => "HEAD"
    case Options => "OPTIONS"
    case Put => "PUT"
    case Trace => "TRACE"
    case Any => "ANY"
  }

  // c | ' ': sets bit 5 of a byte.
  function OrSpace(c: char): char {
    if c < 256 as char && (c as int / 32) % 2 == 0 then (c as int + 32) as char else c
  }

  predicate EqualNoCase(lhs: string, rhs: string)
  {
    |lhs| == |rhs| && forall i :: 0 <= i < |lhs| ==> OrSpace(lhs[i]) == OrSpace(rhs[i])
  }

  // is_equal_nc: the loop runs to the end, and-ing into an accumulator
  method IsEqualNoCase(lhs: string, rhs: string) returns (result: bool)
    ensures result == EqualNoCase(lhs, rhs)
  {
    if |lhs| != |rhs| {
      return false;
    }
    result := true;
    for n := 0 to |lhs|
      invariant result == forall i :: 0 <= i < n ==> OrSpace(lhs[i]) == OrSpace(rhs[i])
    {
      result := result && OrSpace(lhs[n]) == OrSpace(rhs[n]);
    }
  }

  function LowerName(m: HttpMethod): string {
    match m
    case Get => "get"
    case Post => "post"
    case Connect => "connect"
    case Delete => "delete"
    case Head => "head"
    case Options => "options"
    case Put => "put"
    case Trace => "trace"
    case Any => "any"
  }

  // http_request_method_from_string; None is the exception for an unknown method
  function FromString(s: string): Option<HttpMethod>
  {
    if EqualNoCase("get", s) then Some(Get)
    else if EqualNoCase("post", s) then Some(Post)
    else if EqualNoCase("connect", s) then Some(Connect)
    else if EqualNoCase("delete", s) then Some(Delete)
    else if EqualNoCase("head", s) then Some(Head)
    else if EqualNoCase("options", s) then Some(Options)
    else if EqualNoCase("put", s) then Some(Put)
    else if EqualNoCase("trace", s) then Some(Trace)
    else if EqualNoCase("any", s) then Some(Any)
    else None
  }

  predicate SameLetter(c: char, d: char) {
    c == d || ('A' <= c <= 'Z' && d as int == c as int + 32) || ('A' <= d <= 'Z' && c as int == d as int + 32)
  }

  predicate SameWord(s: string, t: string) {
    |s| == |t| && forall i :: 0 <= i < |s| ==> SameLetter(s[i], t[i])
  }

  lemma NamesAreWords(m: HttpMethod)
    ensures ToString(m) != "" && forall i :: 0 <= i < |ToString(m)| ==> 'A' <= ToString(m)[i] <= 'Z'
  {
  }

  /** A text is read as a method exactly when it spells the method's printed form in letters of either
      case; in particular what ToString prints is read back. */
  lemma ParsesExactlyTheMethodNames(s: string, m: HttpMethod)
    ensures FromString(s) == Some(m) <==> SameWord(ToString(m), s)
    ensures FromString(ToString(m)) == Some(m)
  {
    WordIsFold(m, s);
    WordIsFold(m, ToString(m));
    FoundByFold(s, m);
    FoundByFold(ToString(m), m);
  }

  function Fold(s: string): string
  {
    seq(|s|, i requires 0 <= i < |s| => OrSpace(s[i]))
  }

  lemma EqualNoCaseIsEqualFold(lhs: string, rhs: string)
    ensures EqualNoCase(lhs, rhs) <==> Fold(lhs) == Fold(rhs)
  {
    if Fold(lhs) == Fold(rhs) {
      assert |Fold(lhs)| == |Fold(rhs)|;
      forall i | 0 <= i < |lhs|
        ensures OrSpace(lhs[i]) == OrSpace(rhs[i])
      {
        assert Fold(lhs)[i] == Fold(rhs)[i];
      }
    }
  }

  lemma FoundIsNamed(s: string)
    ensures FromString(s).Some? ==> EqualNoCase(LowerName(FromString(s).value), s)
  {
  }

  lemma NamedIsFound(s: string, m: HttpMethod)
    requires EqualNoCase(LowerName(m), s)
    ensures FromString(s).Some?
  {
  }

  lemma LowerNamesDiffer(m: HttpMethod, m': HttpMethod)
    requires LowerName(m) == LowerName(m')
    ensures m == m'
  {
    var s, t := LowerName(m), LowerName(m');
    assert |s| == |t| && s[0] == t[0] && s[1] == t[1];
  }

  lemma FoundByFold(s: string, m: HttpMethod)
    ensures FromString(s) == Some(m) <==> Fold(s) == LowerName(m)
  {
    EqualNoCaseIsEqualFold(LowerName(m), s);
    LowerIsFolded(m);
    FoundIsNamed(s);
    if EqualNoCase(LowerName(m), s) {
      NamedIsFound(s, m);
      EqualNoCaseIsEqualFold(LowerName(FromString(s).value), s);
      LowerIsFolded(FromString(s).value);
      LowerNamesDiffer(m, FromString(s).value);
    }
  }

  lemma LowerIsFolded(m: HttpMethod)
    ensures Fold(LowerName(m)) == LowerName(m)
  {
  }

  lemma WordIsFold(m: HttpMethod, s: string)
    ensures SameWord(ToString(m), s) <==> Fold(s) == LowerName(m)
  {
    var name := ToString(m);
    if |name| == |s| {
      forall i | 0 <= i < |s|
        ensures SameLetter(name[i], s[i]) <==> Fold(s)[i] == LowerName(m)[i]
      {
        assert 'A' <= name[i] <= 'Z';
        assert OrSpace(name[i]) == Fold(name)[i] == LowerName(m)[i];
      }
    } else {
      assert |Fold(s)| == |s| && |LowerName(m)| == |name|;
    }
  }

  /** The names of section 4.1 of RFC 7231, and ANY, are the methods; nothing else is, in any case. */
  lemma MethodNames(s: string)
    ensures FromString("GET") == Some(Get) && FromString("HEAD") == Some(Head) && FromString("POST") == Some(Post)
    ensures FromString("PUT") == Some(Put) && FromString("DELETE") == Some(Delete)
    ensures FromString("CONNECT") == Some(Connect) && FromString("OPTIONS") == Some(Options)
    ensures FromString("TRACE") == Some(Trace) && FromString("ANY") == Some(Any)
    ensures FromString(s).Some? <==> exists m :: SameWord(ToString(m), s)
  {
    forall m: HttpMethod
      ensures FromString(ToString(m)) == Some(m) && (FromString(s) == Some(m) <==> SameWord(ToString(m), s))
    {
      ParsesExactlyTheMethodNames(s, m);
    }
    assert ToString(Get) == "GET" && ToString(Head) == "HEAD" && ToString(Post) == "POST" && ToString(Put) == "PUT";
    assert ToString(Delete) == "DELETE" && ToString(Connect) == "CONNECT" && ToString(Options) == "OPTIONS";
    assert ToString(Trace) == "TRACE" && ToString(Any) == "ANY";
    if FromString(s).Some? {
      assert SameWord(ToString(FromString(s).value), s);
    }
  }

  /** Two bytes are compared as equal exactly if they differ in bit 5 at most, letters or not. */
  lemma OnlyBitFiveIsIgnored(c: char, d: char)
    requires c < 256 as char && d < 256 as char
    ensures EqualNoCase([c], [d]) <==> c as int / 64 == d as int / 64 && c as int % 32 == d as int % 32
  {
    assert [c][0] == c && [d][0] == d;
    assert OrSpace(c) as int == c as int / 64 * 64 + 32 + c as int % 32;
    assert OrSpace(d) as int == d as int / 64 * 64 + 32 + d as int % 32;
  }
}
