/** Routing of requests to registered sites (src/lib_http_site.cpp). The search compares string lengths;
    it is proved to find the deepest registered ancestor of the request path, and among equally deep
    ones the first registered. */
module Routing {
  import opened HttpMethods

  // ------------------------------------------------------------------------------------------
  // Paths. A path is its text; normalised absolute paths are rendered from their components.

  // The position after the last '/', or 0.
  function NameStart(s: string): (i: nat)
    ensures i <= |s|
  {
    if s == "" then 0 else if s[|s| - 1] == '/' then |s| else NameStart(s[..|s| - 1])
  }

  // boost::filesystem::path::parent_path on normalised paths
  function ParentPath(s: string): (p: string)
    ensures s != "" ==> |p| < |s|
  {
    var i := NameStart(s);
    if i == 0 then "" else if i == 1 then (if |s| == 1 then "" else "/") else s[..i - 1]
  }

  predicate IsAncestor(parent: string, child: string)
    decreases |child|
  {
    parent == child || (child != "" && IsAncestor(parent, ParentPath(child)))
  }

  // The number of steps up to the empty path.
  function Depth(s: string): nat
    decreases |s|
  {
    if s == "" then 0 else 1 + Depth(ParentPath(s))
  }

  // is_parent_of: stops as soon as what is left is too short to be the parent
  method IsParentOf(parent: string, child: string) returns (result: bool)
    ensures result == IsAncestor(parent, child)
  {
    var c := child;
    while |c| >= |parent|
      invariant IsAncestor(parent, child) == IsAncestor(parent, c)
      decreases |c|
    {
      if c == parent {
        return true;
      }
      c := ParentPath(c);
    }
    if IsAncestor(parent, c) {
      AncestorsAreShorter(parent, c);
    }
    return false;
  }

  lemma {:induction false} AncestorsAreShorter(parent: string, child: string)
    requires IsAncestor(parent, child)
    ensures parent == child || (|parent| < |child| && Depth(parent) < Depth(child))
    decreases |child|
  {
    if parent != child {
      AncestorsAreShorter(parent, ParentPath(child));
    }
  }

  // Ancestors of one path form a chain.
  lemma {:induction false} AncestorsAreNested(a: string, b: string, s: string)
    requires IsAncestor(a, s) && IsAncestor(b, s)
    ensures IsAncestor(a, b) || IsAncestor(b, a)
    decreases |s|
  {
    if a != s && b != s {
      AncestorsAreNested(a, b, ParentPath(s));
    }
  }

  /** Why comparing string lengths finds the deepest ancestor: on the ancestors of one path the two
      orders agree, and equal lengths mean equal paths. */
  lemma LengthOrderIsDepthOrder(a: string, b: string, s: string)
    requires IsAncestor(a, s) && IsAncestor(b, s)
    ensures |a| < |b| <==> Depth(a) < Depth(b)
    ensures |a| == |b| <==> a == b
  {
    AncestorsAreNested(a, b, s);
    if IsAncestor(a, b) {
      AncestorsAreShorter(a, b);
    } else {
      AncestorsAreShorter(b, a);
    }
  }

  // ------------------------------------------------------------------------------------------
  // Normalised absolute paths

  predicate IsComponent(c: string) {
    c != "" && '/' !in c
  }

  predicate AreComponents(cs: seq<string>) {
    forall i :: 0 <= i < |cs| ==> IsComponent(cs[i])
  }

  function Joined(cs: seq<string>): string {
    if cs == [] then "" else Joined(cs[..|cs| - 1]) + "/" + cs[|cs| - 1]
  }

  function Render(cs: seq<string>): string {
    if cs == [] then "/" else Joined(cs)
  }

  lemma {:induction false} NameStartAfterSlash(prefix: string, name: string)
    requires '/' !in name
    ensures NameStart(prefix + "/" + name) == |prefix| + 1
    decreases |name|
  {
    var s := prefix + "/" + name;
    if name == "" {
      assert s[|s| - 1] == '/';
    } else {
      var init := name[..|name| - 1];
      assert s[..|s| - 1] == prefix + "/" + init;
      assert s[|s| - 1] == name[|name| - 1];
      NameStartAfterSlash(prefix, init);
    }
  }

  lemma JoinedParent(cs: seq<string>)
    requires AreComponents(cs) && cs != []
    ensures var s := Render(cs);
      && |s| >= 2 && ParentPath(s) == Render(cs[..|cs| - 1]) && s[NameStart(s)..] == cs[|cs| - 1]
  {
    var prefix, name := Joined(cs[..|cs| - 1]), cs[|cs| - 1];
    NameStartAfterSlash(prefix, name);
    if |cs| > 1 {
      assert Joined(cs[..|cs| - 1]) != "";
    }
    assert (prefix + "/" + name)[..|prefix|] == prefix;
  }

  lemma {:induction false} RenderIsInjective(p: seq<string>, c: seq<string>)
    requires AreComponents(p) && AreComponents(c) && Render(p) == Render(c)
    ensures p == c
    decreases |c|
  {
    if c != [] {
      JoinedParent(c);
    }
    if p != [] {
      JoinedParent(p);
    }
    if c != [] && p != [] {
      RenderIsInjective(p[..|p| - 1], c[..|c| - 1]);
      assert p == p[..|p| - 1] + [p[|p| - 1]] && c == c[..|c| - 1] + [c[|c| - 1]];
    }
  }

  /** On normalised paths the ancestor test is the prefix order on components, and depth counts them. */
  lemma {:induction false} AncestorIsComponentPrefix(p: seq<string>, c: seq<string>)
    requires AreComponents(p) && AreComponents(c)
    ensures IsAncestor(Render(p), Render(c)) <==> p <= c
    ensures Depth(Render(c)) == |c| + 1
    decreases |c|
  {
    assert ParentPath("/") == "";
    if Render(p) == Render(c) {
      RenderIsInjective(p, c);
    }
    if c == [] {
      assert Depth("/") == 1 + Depth("");
      assert !IsAncestor(Render(p), "") by {
        if p != [] {
          JoinedParent(p);
        }
      }
    } else {
      JoinedParent(c);
      var init := c[..|c| - 1];
      AncestorIsComponentPrefix(p, init);
      assert p <= c <==> p == c || p <= init;
    }
  }

  // ------------------------------------------------------------------------------------------
  // Registrations

  datatype Registration = Registration(host: string, path: string, httpMethod: HttpMethod, listener: nat)

  predicate HostMatches(registered: string, current: string) {
    registered == current || registered == "*" || current == "*"
  }

  predicate MethodMatches(registered: HttpMethod, current: HttpMethod) {
    current == registered || registered == Any || current == Any
  }

  predicate Matches(site: Registration, host: string, path: string, m: HttpMethod) {
    HostMatches(site.host, host) && IsAncestor(site.path, path) && MethodMatches(site.httpMethod, m)
  }

  // The routing rule: the deepest matching path wins, the first registration breaks ties; the length
  // of the list stands for the end iterator.
  predicate IsRoute(sites: seq<Registration>, host: string, path: string, m: HttpMethod, r: nat) {
    && r <= |sites|
    && (r < |sites| ==> Matches(sites[r], host, path, m))
    && forall j :: 0 <= j < |sites| && Matches(sites[j], host, path, m) ==> Outranks(sites, r, j)
  }

  // r is deeper than j, or as deep and no later.
  predicate Outranks(sites: seq<Registration>, r: nat, j: nat) {
    && r < |sites| && j < |sites|
    && Depth(sites[r].path) >= Depth(sites[j].path)
    && (Depth(sites[r].path) == Depth(sites[j].path) ==> r <= j)
  }

  lemma RouteIsUnique(sites: seq<Registration>, host: string, path: string, m: HttpMethod, r: nat, r': nat)
    requires IsRoute(sites, host, path, m, r) && IsRoute(sites, host, path, m, r')
    ensures r == r'
  {
    if r < |sites| {
      assert Matches(sites[r], host, path, m);
    }
    if r' < |sites| {
      assert Matches(sites[r'], host, path, m);
    }
  }

  /** A new registration takes over exactly those requests that it matches and whose previous winner, if
      any, has a strictly shorter path. */
  lemma AppendingIsIncremental(sites: seq<Registration>, site: Registration, host: string, path: string,
      m: HttpMethod, r: nat, r': nat)
    requires IsRoute(sites, host, path, m, r) && IsRoute(sites + [site], host, path, m, r')
    ensures var takesOver := Matches(site, host, path, m) && (r == |sites| || |sites[r].path| < |site.path|);
      r' == if takesOver then |sites| else if r == |sites| then |sites| + 1 else r
  {
    var all := sites + [site];
    var takesOver := Matches(site, host, path, m) && (r == |sites| || |sites[r].path| < |site.path|);
    if Matches(site, host, path, m) && r < |sites| {
      LengthOrderIsDepthOrder(sites[r].path, site.path, path);
    }
    var expected := if takesOver then |sites| else if r == |sites| then |sites| + 1 else r;
    assert all[|sites|] == site;
    forall j | 0 <= j < |all| && Matches(all[j], host, path, m)
      ensures Outranks(all, expected, j)
    {
      assert j < |sites| ==> all[j] == sites[j];
    }
    RouteIsUnique(all, host, path, m, r', expected);
  }

  /** Removing a registration that does not win leaves the winner as it was. */
  lemma RemovingALoserKeepsTheWinner(sites: seq<Registration>, k: nat, host: string, path: string, m: HttpMethod,
      r: nat, r': nat)
    requires k < |sites| && k != r && IsRoute(sites, host, path, m, r)
    requires IsRoute(sites[..k] + sites[k + 1..], host, path, m, r')
    ensures r' == if r < k then r else r - 1
  {
    var rest := sites[..k] + sites[k + 1..];
    var expected := if r < k then r else r - 1;
    RouteIsUnique(rest, host, path, m, r', expected);
  }

  lemma {:induction false} AbsoluteAncestors(a: string, path: string)
    requires path != "" && path[0] == '/' && IsAncestor(a, path)
    ensures a == "" || a[0] == '/'
    decreases |path|
  {
    if a != path {
      if ParentPath(path) == "" {
        assert a == "";
      } else {
        AbsoluteAncestors(a, ParentPath(path));
      }
    }
  }

  predicate IsAbsolute(path: string) {
    path != "" && path[0] == '/'
  }

  /** The host-specific overload stores the host name where the path belongs, whatever path was asked for.
      Such a registration matches some absolute path of a request whose host and method it matches exactly
      if the host name is empty or looks like an absolute path itself, which no host name does. */
  lemma HostRegistrationsNeverMatch(hostname: string, m: HttpMethod, listener: nat, host: string, current: HttpMethod)
    ensures var site := Registration(hostname, hostname, m, listener);
      (exists path :: IsAbsolute(path) && Matches(site, host, path, current))
      <==> HostMatches(hostname, host) && MethodMatches(m, current) && (hostname == "" || IsAbsolute(hostname))
  {
    forall path | IsAbsolute(path) && IsAncestor(hostname, path)
      ensures hostname == "" || IsAbsolute(hostname)
    {
      AbsoluteAncestors(hostname, path);
    }
    var sample := if hostname == "" then "/" else hostname;
    assert ParentPath("/") == "" && IsAncestor("", "");
    assert IsAncestor(hostname, sample);
    if hostname == "" || IsAbsolute(hostname) {
      assert IsAbsolute(sample);
    }
  }

  // What on_requests_for( method, path, listener ) registers.
  function ForAnyHost(m: HttpMethod, path: string, listener: nat): Registration {
    Registration("*", path, m, listener)
  }

  /** A registration for any host is found for every host, by its own method, by any method if it was made
      for any, and by every request of method Any, exactly on its path and below. */
  lemma AnyHostAnswersEveryHost(m: HttpMethod, path: string, listener: nat, host: string, p: string,
      current: HttpMethod, r: nat)
    requires IsRoute([ForAnyHost(m, path, listener)], host, p, current, r)
    ensures r == 0 <==> IsAncestor(path, p) && (m == Any || current == Any || m == current)
    ensures r == 0 || r == 1
  {
    assert [ForAnyHost(m, path, listener)][0] == ForAnyHost(m, path, listener);
  }

  /** One for a host of its own is found for that host and for requests for all hosts, and for no other. */
  lemma OwnHostAnswersOneHost(site: Registration, host: string, p: string, current: HttpMethod, r: nat)
    requires site.host != "*" && IsRoute([site], host, p, current, r)
    ensures r == 0 ==> host == site.host || host == "*"
    ensures (host == site.host || host == "*") && p == site.path && current == site.httpMethod ==> r == 0
  {
    assert [site][0] == site;
    assert IsAncestor(p, p);
  }

  class HttpSite {
    var registeredSites: seq<Registration>

    constructor ()
      ensures registeredSites == []
    {
      registeredSites := [];
    }

    // on_requests_for( method, path, listener )
    method OnRequestsFor(m: HttpMethod, path: string, listener: nat)
      modifies this
      ensures registeredSites == old(registeredSites) + [ForAnyHost(m, path, listener)]
    {
      registeredSites := registeredSites + [Registration("*", path, m, listener)];
    }

    // on_requests_for( hostname, method, path, listener ), which does not use its path
    method OnHostRequestsFor(hostname: string, m: HttpMethod, path: string, listener: nat)
      modifies this
      ensures registeredSites == old(registeredSites) + [Registration(hostname, hostname, m, listener)]
    {
      registeredSites := registeredSites + [Registration(hostname, hostname, m, listener)];
    }

    method RemoveSite(item: nat)
      requires item < |registeredSites|
      modifies this
      ensures registeredSites == old(registeredSites)[..item] + old(registeredSites)[item + 1..]
    {
      registeredSites := registeredSites[..item] + registeredSites[item + 1..];
    }

    method MatchSite(host: string, path: string, m: HttpMethod) returns (result: nat)
      ensures IsRoute(registeredSites, host, path, m, result)
    {
      var end := |registeredSites|;
      result := end;
      for it := 0 to end
        invariant result == end || result < it
        invariant result < end ==> Matches(registeredSites[result], host, path, m)
        invariant forall j | 0 <= j < it && Matches(registeredSites[j], host, path, m)
          :: Outranks(registeredSites, result, j)
      {
        var site := registeredSites[it];
        var hm := HostMatches(site.host, host);
        var ipo := IsParentOf(site.path, path);
        var mm := MethodMatches(site.httpMethod, m);
        if hm && ipo && mm {
          if result == end || |registeredSites[result].path| < |site.path| {
            if result < end {
              LengthOrderIsDepthOrder(registeredSites[result].path, site.path, path);
            }
            result := it;
          } else {
            LengthOrderIsDepthOrder(registeredSites[result].path, site.path, path);
          }
        }
      }
    }
  }
}
