/** Views and searches. A position of |s| stands for npos. */
module Text {

  const CRLF := "\r\n"

  // find_first_of
  function FindAny(s: string, chars: set<char>): (i: nat)
    ensures i <= |s|
    ensures forall k :: 0 <= k < i ==> s[k] !in chars
    ensures i < |s| ==> s[i] in chars
  {
    if s == "" || s[0] in chars then 0 else 1 + FindAny(s[1..], chars)
  }

  // search: the first occurrence of a non-empty pattern
  function Search(s: string, pattern: string): (i: nat)
    requires pattern != ""
    ensures i <= |s|
    ensures i < |s| ==> i + |pattern| <= |s| && s[i..i + |pattern|] == pattern
  {
    if |s| < |pattern| then |s|
    else if s[..|pattern|] == pattern then 0
    else
      var i := 1 + Search(s[1..], pattern);
      assert i < |s| ==> s[i..i + |pattern|] == s[1..][i - 1..i - 1 + |pattern|];
      i
  }

  predicate IsSpace(c: char) {
    c == ' ' || '\t' <= c <= '\r'
  }

  function TrimLeft(s: string): string {
    if s != "" && IsSpace(s[0]) then TrimLeft(s[1..]) else s
  }

  predicate StartsWithSpace(s: string) {
    s != "" && IsSpace(s[0])
  }

  predicate Free(s: string, chars: set<char>) {
    forall i :: 0 <= i < |s| ==> s[i] !in chars
  }

  lemma {:induction false} FindAnyAt(prefix: string, suffix: string, chars: set<char>)
    requires Free(prefix, chars) && (suffix == "" || suffix[0] in chars)
    ensures FindAny(prefix + suffix, chars) == |prefix|
  {
    if prefix == "" {
      assert prefix + suffix == suffix;
    } else {
      assert (prefix + suffix)[1..] == prefix[1..] + suffix;
      FindAnyAt(prefix[1..], suffix, chars);
    }
  }

  // A prefix without the pattern's first character holds no occurrence of it.
  lemma {:induction false} SearchSkips(prefix: string, s: string, pattern: string)
    requires pattern != "" && Free(prefix, {pattern[0]})
    ensures Search(prefix + s, pattern) == |prefix| + Search(s, pattern)
  {
    if prefix == "" {
      assert prefix + s == s;
    } else {
      var t := prefix + s;
      assert t[1..] == prefix[1..] + s;
      SearchSkips(prefix[1..], s, pattern);
      if |t| >= |pattern| {
        assert t[..|pattern|][0] == prefix[0];
      }
    }
  }

  lemma {:induction false} TrimLeftFacts(s: string)
    ensures TrimLeft(s) == s <==> !StartsWithSpace(s)
    ensures |TrimLeft(s)| <= |s| && !StartsWithSpace(TrimLeft(s))
    ensures TrimLeft(s) == s[|s| - |TrimLeft(s)|..]
  {
    if StartsWithSpace(s) {
      TrimLeftFacts(s[1..]);
    }
  }

  lemma {:induction false} TrimLeftOfConcat(s: string, t: string)
    requires TrimLeft(s) != ""
    ensures TrimLeft(s + t) == TrimLeft(s) + t
  {
    assert (s + t)[1..] == s[1..] + t;
    if StartsWithSpace(s) {
      TrimLeftOfConcat(s[1..], t);
    }
  }
}
