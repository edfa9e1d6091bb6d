/** What the ordered HTTP routes of a service mean: a proxy serves a request with the first entry
    that matches it. */
module PathRouting {
  import opened Models
  import opened Sequences
  import opened LeftoverWeights
  import opened VirtualServices
  import Collector

  predicate Matches(entry: HTTP, request: string)
  {
    entry.prefix == None || entry.prefix.value <= request
  }

  /** The first matching entry; the length of the list when there is none. */
  function FirstMatch(http: seq<HTTP>, request: string): (t: nat)
    ensures t <= |http|
    ensures t < |http| ==> Matches(http[t], request)
    ensures forall u | 0 <= u < t :: !Matches(http[u], request)
  {
    if http == [] || Matches(http[0], request) then 0 else 1 + FirstMatch(http[1..], request)
  }

  predicate At(r: RouteWithBackends, internal: bool, hostname: string)
  {
    r.internal == internal && r.hostname == hostname
  }

  function ForPath(internal: bool, hostname: string, path: string): RouteWithBackends -> bool
  {
    (r: RouteWithBackends) => At(r, internal, hostname) && r.path == path
  }

  /** path is the longest path of the host that is a prefix of the request; "" is the path of a
      pathless route. */
  predicate LongestPath(routes: Routes, internal: bool, hostname: string, request: string, path: string)
  {
    && path <= request
    && (exists r | r in routes :: At(r, internal, hostname) && r.path == path)
    && forall r | r in routes && At(r, internal, hostname) && r.path <= request :: |r.path| <= |path|
  }

  /** No two routes share a key of httpRoutes without sharing their service. */
  predicate KeysDetermineService(routes: Routes)
  {
    forall r, s | r in routes && s in routes :: FullRoute(r) == FullRoute(s) ==> NameOf(r) == NameOf(s)
  }

  /** The request is served by exactly the routes of the longest matching path, in their order, and
      by none when no path matches. */
  ghost predicate ServedByLongestPath(routes: Routes, internal: bool, hostname: string, request: string)
    requires HasBackends(routes)
    requires Filter(routes, HasName(ServiceName(internal, hostname))) != []
  {
    var name := ServiceName(internal, hostname);
    var http, firsts := ServiceOf(routes, name).http, Firsts(routes, name);
    var t := FirstMatch(http, request);
    if t == |http| then forall r | r in routes && At(r, internal, hostname) :: !(r.path <= request)
    else
      && LongestPath(routes, internal, hostname, request, firsts[t].path)
      && Serves(routes, http[t], ForPath(internal, hostname, firsts[t].path))
  }

  /** The destinations of the entry are those of the chosen routes. */
  ghost predicate Serves(routes: Routes, entry: HTTP, chosen: RouteWithBackends -> bool)
    requires HasBackends(routes)
  {
    FilterMembers(routes, chosen);
    entry.route == Destinations(Filter(routes, chosen))
  }

  // ----- the list of a service

  lemma {:induction false} FirstsDescend(routes: Routes, name: string)
    requires Collector.PathsAscend(routes)
    ensures forall i, j | 0 <= i < j < |Firsts(routes, name)| ::
      |Firsts(routes, name)[i].path| >= |Firsts(routes, name)[j].path|
  {
    if routes != [] {
      var front, r := routes[..|routes| - 1], routes[|routes| - 1];
      FirstsDescend(front, name);
      var before := Firsts(front, name);
      forall i | 0 <= i < |before| && r.path != "" ensures |before[i].path| <= |r.path| {
        FirstsAreRoutes(front, name);
        assert before[i] in front;
        var k :| 0 <= k < |front| && front[k] == before[i];
        assert routes[k] == before[i];
      }
    }
  }

  lemma {:induction false} FirstsAreRoutes(routes: Routes, name: string)
    ensures forall f | f in Firsts(routes, name) :: f in routes && NameOf(f) == name
  {
    if routes != [] {
      FirstsAreRoutes(routes[..|routes| - 1], name);
      assert routes == routes[..|routes| - 1] + [routes[|routes| - 1]];
    }
  }

  /** The first route of a key is in the list of its own service. */
  lemma {:induction false} LeaderIsFirst(routes: Routes, full: string)
    requires Sharing(routes, full) != []
    ensures Sharing(routes, full)[0] in Firsts(routes, NameOf(Sharing(routes, full)[0]))
  {
    var front, r := routes[..|routes| - 1], routes[|routes| - 1];
    assert routes == front + [r];
    SharingNext(front, r, full);
    var name := NameOf(Sharing(routes, full)[0]);
    FirstsNext(front, r, name);
    if Sharing(front, full) != [] { LeaderIsFirst(front, full); }
  }

  lemma SharingMembers(routes: Routes, full: string)
    ensures forall r :: r in Sharing(routes, full) <==> r in routes && FullRoute(r) == full
  {
    FilterMembers(routes, HasFullRoute(full));
  }

  predicate Listed(routes: Routes, r: RouteWithBackends)
  {
    exists f | f in Firsts(routes, NameOf(r)) :: FullRoute(f) == FullRoute(r)
  }

  lemma ListedIfKeysDetermine(routes: Routes, r: RouteWithBackends)
    requires r in routes
    requires forall s | s in routes :: FullRoute(r) == FullRoute(s) ==> NameOf(r) == NameOf(s)
    ensures Listed(routes, r)
  {
    SharingMembers(routes, FullRoute(r));
    assert r in Sharing(routes, FullRoute(r));
    var f := Sharing(routes, FullRoute(r))[0];
    assert f in Sharing(routes, FullRoute(r));
    LeaderIsFirst(routes, FullRoute(r));
  }

  /** Every route reaches the list of its own service if and only if no key is shared across
      services. */
  lemma AllListedIff(routes: Routes)
    ensures (forall r | r in routes :: Listed(routes, r)) <==> KeysDetermineService(routes)
  {
    if KeysDetermineService(routes) {
      forall r | r in routes ensures Listed(routes, r) { ListedIfKeysDetermine(routes, r); }
    }
    if forall r | r in routes :: Listed(routes, r) {
      forall r, s | r in routes && s in routes && FullRoute(r) == FullRoute(s) ensures NameOf(r) == NameOf(s) {
        assert Listed(routes, r) && Listed(routes, s);
        FirstsLead(routes, NameOf(r));
        FirstsLead(routes, NameOf(s));
      }
    }
  }

  /** An internal and an external route of one host and path hide one another. */
  lemma MixedHostHides(r: RouteWithBackends, s: RouteWithBackends)
    requires r.hostname == s.hostname && r.path == s.path && r.internal != s.internal
    ensures !(Listed([r, s], r) && Listed([r, s], s))
  {
    AllListedIff([r, s]);
    ServiceNameInjective(r.internal, r.hostname, s.internal, s.hostname);
    assert r in [r, s] && s in [r, s];
  }

  // ----- longest prefix

  lemma SameService(r: RouteWithBackends, internal: bool, hostname: string)
    ensures NameOf(r) == ServiceName(internal, hostname) <==> At(r, internal, hostname)
  {
    ServiceNameInjective(r.internal, r.hostname, internal, hostname);
  }

  /** The key of the host's routes with the path is its own: no route of another service has it. */
  predicate OwnKey(routes: Routes, internal: bool, hostname: string, path: string)
  {
    forall s | s in routes && FullRoute(s) == hostname + path :: At(s, internal, hostname)
  }

  predicate OwnKeys(routes: Routes, internal: bool, hostname: string)
  {
    forall r | r in routes && At(r, internal, hostname) :: OwnKey(routes, internal, hostname, r.path)
  }

  /** No key is shared across services if and only if the keys of every host are its own. */
  lemma KeysDetermineIff(routes: Routes)
    ensures KeysDetermineService(routes) <==> forall internal, hostname :: OwnKeys(routes, internal, hostname)
  {
    forall r, s | r in routes && s in routes
      ensures NameOf(r) == NameOf(s) <==> At(s, r.internal, r.hostname)
    {
      SameService(s, r.internal, r.hostname);
    }
    if forall internal, hostname :: OwnKeys(routes, internal, hostname) {
      forall r, s | r in routes && s in routes && FullRoute(r) == FullRoute(s) ensures NameOf(r) == NameOf(s) {
        assert OwnKeys(routes, r.internal, r.hostname);
      }
    }
  }

  lemma FirstAt(routes: Routes, internal: bool, hostname: string, t: nat)
    requires HasBackends(routes)
    requires Filter(routes, HasName(ServiceName(internal, hostname))) != []
    requires t < |Firsts(routes, ServiceName(internal, hostname))|
    ensures var name := ServiceName(internal, hostname);
      var f, entry := Firsts(routes, name)[t], ServiceOf(routes, name).http[t];
      && f in routes && At(f, internal, hostname)
      && entry.prefix == PrefixOf(f)
      && entry.route == Destinations(Sharing(routes, FullRoute(f)))
  {
    var name := ServiceName(internal, hostname);
    var f := Firsts(routes, name)[t];
    assert f in Firsts(routes, name);
    FirstsLead(routes, name);
    FirstsAreRoutes(routes, name);
    SameService(f, internal, hostname);
  }

  /** Where a key is its own, the routes that share it are those of the host and path. */
  lemma OwnKeyShares(routes: Routes, internal: bool, hostname: string, path: string)
    requires OwnKey(routes, internal, hostname, path)
    ensures Sharing(routes, hostname + path) == Filter(routes, ForPath(internal, hostname, path))
  {
    forall r | r in routes ensures HasFullRoute(hostname + path)(r) == ForPath(internal, hostname, path)(r) {
      if FullRoute(r) == hostname + path {
        assert FullRoute(r)[|hostname|..] == r.path && (hostname + path)[|hostname|..] == path;
      }
    }
    FilterAgrees(routes, HasFullRoute(hostname + path), ForPath(internal, hostname, path));
  }

  /** Where it is not, they are more. */
  lemma ForeignKeyShares(routes: Routes, internal: bool, hostname: string, path: string)
    requires !OwnKey(routes, internal, hostname, path)
    ensures |Filter(routes, ForPath(internal, hostname, path))| < |Sharing(routes, hostname + path)|
  {
    var s :| s in routes && FullRoute(s) == hostname + path && !At(s, internal, hostname);
    var chosen, sharing := ForPath(internal, hostname, path), HasFullRoute(hostname + path);
    assert forall x | x in routes :: chosen(x) ==> sharing(x);
    FilterShorter(routes, chosen, sharing, s);
  }

  /** The entry of a first route serves exactly the routes of its host and path if and only if its key
      is the host's own. */
  lemma ServesIff(routes: Routes, internal: bool, hostname: string, t: nat)
    requires HasBackends(routes) && t < |Firsts(routes, ServiceName(internal, hostname))|
    requires Filter(routes, HasName(ServiceName(internal, hostname))) != []
    ensures var name := ServiceName(internal, hostname);
      var path := Firsts(routes, name)[t].path;
      Serves(routes, ServiceOf(routes, name).http[t], ForPath(internal, hostname, path)) <==>
        OwnKey(routes, internal, hostname, path)
  {
    FirstAt(routes, internal, hostname, t);
    var path := Firsts(routes, ServiceName(internal, hostname))[t].path;
    FilterMembers(routes, ForPath(internal, hostname, path));
    if OwnKey(routes, internal, hostname, path) {
      OwnKeyShares(routes, internal, hostname, path);
    } else {
      ForeignKeyShares(routes, internal, hostname, path);
    }
  }

  /** A route whose key is the host's own has an entry with its path. */
  lemma Covering(routes: Routes, internal: bool, hostname: string, r: RouteWithBackends) returns (u: nat)
    requires OwnKey(routes, internal, hostname, r.path) && r in routes && At(r, internal, hostname)
    ensures u < |Firsts(routes, ServiceName(internal, hostname))|
    ensures Firsts(routes, ServiceName(internal, hostname))[u].path == r.path
  {
    var name := ServiceName(internal, hostname);
    SameService(r, internal, hostname);
    forall s | s in routes && FullRoute(r) == FullRoute(s) ensures NameOf(r) == NameOf(s) {
      SameService(s, internal, hostname);
    }
    ListedIfKeysDetermine(routes, r);
    var f :| f in Firsts(routes, NameOf(r)) && FullRoute(f) == FullRoute(r);
    FirstsAreRoutes(routes, name);
    SameService(f, internal, hostname);
    assert FullRoute(f)[|hostname|..] == f.path && FullRoute(r)[|hostname|..] == r.path;
    u :| 0 <= u < |Firsts(routes, name)| && Firsts(routes, name)[u] == f;
  }

  // ----- longest prefix, request by request

  /** A path that matches has a longest one beside it. */
  lemma LongestOf(routes: Routes, internal: bool, hostname: string, request: string, r: RouteWithBackends)
    returns (m: RouteWithBackends)
    requires r in routes && At(r, internal, hostname) && r.path <= request
    ensures m in routes && At(m, internal, hostname) && |r.path| <= |m.path|
    ensures LongestPath(routes, internal, hostname, request, m.path)
    decreases |request| - |r.path|
  {
    if LongestPath(routes, internal, hostname, request, r.path) {
      m := r;
    } else {
      var s :| s in routes && At(s, internal, hostname) && s.path <= request && |s.path| > |r.path|;
      m := LongestOf(routes, internal, hostname, request, s);
    }
  }

  lemma SamePrefix(a: string, b: string, request: string)
    requires a <= request && b <= request && |a| == |b|
    ensures a == b
  {
  }

  /** The longest path that matches, if there is one, has a key that is the host's own. */
  predicate OwnLongest(routes: Routes, internal: bool, hostname: string, request: string)
  {
    forall r | r in routes && At(r, internal, hostname) && LongestPath(routes, internal, hostname, request, r.path) ::
      OwnKey(routes, internal, hostname, r.path)
  }

  /** If the key of the longest path that matches is the host's own, the first match has that path. */
  lemma FirstMatchIsLongest(routes: Routes, hostname: string, request: string, m: RouteWithBackends)
    requires HasBackends(routes) && Collector.PathsAscend(routes)
    requires Filter(routes, HasName(ServiceName(false, hostname))) != []
    requires m in routes && At(m, false, hostname) && LongestPath(routes, false, hostname, request, m.path)
    requires OwnKey(routes, false, hostname, m.path)
    ensures var name := ServiceName(false, hostname);
      var t := FirstMatch(ServiceOf(routes, name).http, request);
      t < |ServiceOf(routes, name).http| && Firsts(routes, name)[t].path == m.path
  {
    var name := ServiceName(false, hostname);
    var u := Covering(routes, false, hostname, m);
    FirstAt(routes, false, hostname, u);
    var t := FirstMatch(ServiceOf(routes, name).http, request);
    assert t <= u;
    FirstAt(routes, false, hostname, t);
    FirstsDescend(routes, name);
    SamePrefix(Firsts(routes, name)[t].path, m.path, request);
  }

  /** An external host serves a request by the longest path that matches, if any, if and only if the key
      of that path is the host's own. */
  lemma ExternalRequestIff(routes: Routes, hostname: string, request: string)
    requires HasBackends(routes) && Collector.PathsAscend(routes)
    requires Filter(routes, HasName(ServiceName(false, hostname))) != []
    ensures ServedByLongestPath(routes, false, hostname, request) <==> OwnLongest(routes, false, hostname, request)
  {
    var name := ServiceName(false, hostname);
    var http, firsts := ServiceOf(routes, name).http, Firsts(routes, name);
    var t := FirstMatch(http, request);
    if t < |http| {
      FirstAt(routes, false, hostname, t);
      ServesIff(routes, false, hostname, t);
    }
    if OwnLongest(routes, false, hostname, request) {
      forall r | r in routes && At(r, false, hostname) && r.path <= request
        ensures t < |http| && LongestPath(routes, false, hostname, request, firsts[t].path)
                && OwnKey(routes, false, hostname, firsts[t].path)
      {
        var m := LongestOf(routes, false, hostname, request, r);
        FirstMatchIsLongest(routes, hostname, request, m);
      }
    } else {
      var r :| r in routes && At(r, false, hostname) && LongestPath(routes, false, hostname, request, r.path)
               && !OwnKey(routes, false, hostname, r.path);
      if t < |http| && LongestPath(routes, false, hostname, request, firsts[t].path) {
        SamePrefix(firsts[t].path, r.path, request);
      }
    }
  }

  /** In particular every request is, at an external host whose keys are its own. */
  lemma LongestPrefixWins(routes: Routes, hostname: string, request: string)
    requires HasBackends(routes) && Collector.PathsAscend(routes) && OwnKeys(routes, false, hostname)
    requires Filter(routes, HasName(ServiceName(false, hostname))) != []
    ensures ServedByLongestPath(routes, false, hostname, request)
  {
    OwnKeysIff(routes, false, hostname);
    ExternalRequestIff(routes, hostname, request);
  }

  /** The entries of an internal host match every request, so it is the first one, if any, that must
      have the longest path. */
  lemma InternalRequestIff(routes: Routes, hostname: string, request: string)
    requires HasBackends(routes) && Filter(routes, HasName(ServiceName(true, hostname))) != []
    ensures var firsts := Firsts(routes, ServiceName(true, hostname));
      ServedByLongestPath(routes, true, hostname, request) <==>
        if firsts == [] then forall r | r in routes && At(r, true, hostname) :: !(r.path <= request)
        else
          && LongestPath(routes, true, hostname, request, firsts[0].path)
          && OwnKey(routes, true, hostname, firsts[0].path)
  {
    if Firsts(routes, ServiceName(true, hostname)) != [] {
      FirstAt(routes, true, hostname, 0);
      ServesIff(routes, true, hostname, 0);
    }
  }

  // ----- longest prefix, for all requests

  /** What a request asks for starts with a slash. */
  predicate Slashed(path: string)
  {
    path != "" && path[0] == '/'
  }

  predicate HasRoute(routes: Routes, internal: bool, hostname: string, path: string)
  {
    exists r | r in routes :: At(r, internal, hostname) && r.path == path
  }

  /** Some request asks for this path of the host and no longer one: the path starts with a slash, or it
      is empty and there is no path "/". */
  predicate Asked(routes: Routes, internal: bool, hostname: string, path: string)
  {
    Slashed(path) || (path == "" && !HasRoute(routes, internal, hostname, "/"))
  }

  /** The keys of the host's routes that some request asks for are its own. */
  predicate OwnAskedKeys(routes: Routes, internal: bool, hostname: string)
  {
    forall r | r in routes && At(r, internal, hostname) && Asked(routes, internal, hostname, r.path) ::
      OwnKey(routes, internal, hostname, r.path)
  }

  lemma AskedIsLongest(routes: Routes, internal: bool, hostname: string, r: RouteWithBackends)
    requires r in routes && At(r, internal, hostname) && Asked(routes, internal, hostname, r.path)
    ensures LongestPath(routes, internal, hostname, if r.path == "" then "/" else r.path, r.path)
  {
    forall s | s in routes && At(s, internal, hostname) && r.path == "" && s.path <= "/" ensures s.path == "" {
      assert s.path == "" || s.path == "/";
    }
  }

  lemma LongestIsAsked(routes: Routes, internal: bool, hostname: string, request: string, path: string)
    requires Slashed(request) && LongestPath(routes, internal, hostname, request, path)
    ensures Asked(routes, internal, hostname, path)
  {
    assert "/" <= request;
  }

  /** At an external host all requests are served by the longest matching path if and only if no other
      service has a key that some request asks for; all strings whatsoever would be if and only if the
      keys of the host are its own. */
  lemma ExternalHostIff(routes: Routes, hostname: string)
    requires HasBackends(routes) && Collector.PathsAscend(routes)
    requires Filter(routes, HasName(ServiceName(false, hostname))) != []
    ensures (forall request | Slashed(request) :: ServedByLongestPath(routes, false, hostname, request))
       <==> OwnAskedKeys(routes, false, hostname)
    ensures (forall request :: ServedByLongestPath(routes, false, hostname, request))
       <==> OwnKeys(routes, false, hostname)
  {
    forall request ensures ServedByLongestPath(routes, false, hostname, request)
                      <==> OwnLongest(routes, false, hostname, request)
    {
      ExternalRequestIff(routes, hostname, request);
    }
    OwnAskedIff(routes, false, hostname);
    OwnKeysIff(routes, false, hostname);
  }

  lemma OwnAskedIff(routes: Routes, internal: bool, hostname: string)
    ensures OwnAskedKeys(routes, internal, hostname)
       <==> forall request | Slashed(request) :: OwnLongest(routes, internal, hostname, request)
  {
    if OwnAskedKeys(routes, internal, hostname) {
      forall request, r | Slashed(request) && r in routes && At(r, internal, hostname)
                          && LongestPath(routes, internal, hostname, request, r.path)
        ensures OwnKey(routes, internal, hostname, r.path)
      {
        LongestIsAsked(routes, internal, hostname, request, r.path);
      }
    } else {
      var r :| r in routes && At(r, internal, hostname) && Asked(routes, internal, hostname, r.path)
               && !OwnKey(routes, internal, hostname, r.path);
      AskedIsLongest(routes, internal, hostname, r);
      assert !OwnLongest(routes, internal, hostname, if r.path == "" then "/" else r.path);
    }
  }

  lemma OwnKeysIff(routes: Routes, internal: bool, hostname: string)
    ensures OwnKeys(routes, internal, hostname) <==> forall request :: OwnLongest(routes, internal, hostname, request)
  {
    if !OwnKeys(routes, internal, hostname) {
      var r :| r in routes && At(r, internal, hostname) && !OwnKey(routes, internal, hostname, r.path);
      assert LongestPath(routes, internal, hostname, r.path, r.path);
      assert !OwnLongest(routes, internal, hostname, r.path);
    }
  }

  /** Slashed paths of the host are "/", and its first entry has no other path either. */
  predicate OnlyRoot(routes: Routes, internal: bool, hostname: string)
  {
    && (forall r | r in routes && At(r, internal, hostname) && Slashed(r.path) :: r.path == "/")
    && var firsts := Firsts(routes, ServiceName(internal, hostname)); firsts != [] ==> firsts[0].path <= "/"
  }

  /** At an internal host all requests are served by the longest matching path if and only if it has no
      paths but "/" or none, and no other service has a key that some request asks for; all strings
      whatsoever would be if and only if it has no path and its keys are its own. */
  lemma InternalHostIff(routes: Routes, hostname: string)
    requires HasBackends(routes) && Collector.PathsAscend(routes)
    requires Filter(routes, HasName(ServiceName(true, hostname))) != []
    ensures (forall request | Slashed(request) :: ServedByLongestPath(routes, true, hostname, request))
       <==> OnlyRoot(routes, true, hostname) && OwnAskedKeys(routes, true, hostname)
    ensures (forall request :: ServedByLongestPath(routes, true, hostname, request))
       <==> OwnKeys(routes, true, hostname) && forall r | r in routes && At(r, true, hostname) :: r.path == ""
  {
    if forall request | Slashed(request) :: ServedByLongestPath(routes, true, hostname, request) {
      InternalOnlyIf(routes, hostname);
    }
    if OnlyRoot(routes, true, hostname) && OwnAskedKeys(routes, true, hostname) {
      forall request | Slashed(request) ensures ServedByLongestPath(routes, true, hostname, request) {
        InternalIf(routes, hostname, request);
      }
    }
    InternalAnyString(routes, hostname);
  }

  lemma InternalOnlyIf(routes: Routes, hostname: string)
    requires HasBackends(routes) && Filter(routes, HasName(ServiceName(true, hostname))) != []
    requires forall request | Slashed(request) :: ServedByLongestPath(routes, true, hostname, request)
    ensures OnlyRoot(routes, true, hostname) && OwnAskedKeys(routes, true, hostname)
  {
    var firsts := Firsts(routes, ServiceName(true, hostname));
    InternalRequestIff(routes, hostname, "/");
    forall r | r in routes && At(r, true, hostname) && Asked(routes, true, hostname, r.path)
      ensures (Slashed(r.path) ==> r.path == "/") && OwnKey(routes, true, hostname, r.path)
    {
      var request := if r.path == "" then "/" else r.path;
      assert Slashed(request) && r.path <= request;
      InternalRequestIff(routes, hostname, request);
      AskedIsLongest(routes, true, hostname, r);
      SamePrefix(firsts[0].path, r.path, request);
    }
  }

  lemma InternalIf(routes: Routes, hostname: string, request: string)
    requires HasBackends(routes) && Collector.PathsAscend(routes) && Slashed(request)
    requires Filter(routes, HasName(ServiceName(true, hostname))) != []
    requires OnlyRoot(routes, true, hostname) && OwnAskedKeys(routes, true, hostname)
    ensures ServedByLongestPath(routes, true, hostname, request)
  {
    var name := ServiceName(true, hostname);
    var firsts := Firsts(routes, name);
    InternalRequestIff(routes, hostname, request);
    FirstsDescend(routes, name);
    forall r | r in routes && At(r, true, hostname) && r.path <= request
      ensures firsts != [] && |r.path| <= |firsts[0].path|
    {
      var m := LongestOf(routes, true, hostname, request, r);
      LongestIsAsked(routes, true, hostname, request, m.path);
      var u := Covering(routes, true, hostname, m);
      assert |firsts[0].path| >= |firsts[u].path|;
    }
    if firsts != [] {
      FirstAt(routes, true, hostname, 0);
      assert firsts[0].path <= request;
      LongestIsAsked(routes, true, hostname, request, firsts[0].path);
    }
  }

  lemma InternalAnyString(routes: Routes, hostname: string)
    requires HasBackends(routes) && Filter(routes, HasName(ServiceName(true, hostname))) != []
    ensures (forall request :: ServedByLongestPath(routes, true, hostname, request))
       <==> OwnKeys(routes, true, hostname) && forall r | r in routes && At(r, true, hostname) :: r.path == ""
  {
    if forall request :: ServedByLongestPath(routes, true, hostname, request) {
      InternalRequestIff(routes, hostname, "");
      forall r | r in routes && At(r, true, hostname)
        ensures r.path == "" && OwnKey(routes, true, hostname, r.path)
      {
        InternalRequestIff(routes, hostname, r.path);
      }
    }
    if OwnKeys(routes, true, hostname) && forall r | r in routes && At(r, true, hostname) :: r.path == "" {
      forall request ensures ServedByLongestPath(routes, true, hostname, request) {
        WithoutPaths(routes, hostname, request);
      }
    }
  }

  lemma WithoutPaths(routes: Routes, hostname: string, request: string)
    requires HasBackends(routes) && Filter(routes, HasName(ServiceName(true, hostname))) != []
    requires OwnKeys(routes, true, hostname) && forall r | r in routes && At(r, true, hostname) :: r.path == ""
    ensures ServedByLongestPath(routes, true, hostname, request)
  {
    InternalRequestIff(routes, hostname, request);
    var r := SomeAt(routes, true, hostname);
    var u := Covering(routes, true, hostname, r);
    FirstAt(routes, true, hostname, 0);
  }

  lemma SomeAt(routes: Routes, internal: bool, hostname: string) returns (r: RouteWithBackends)
    requires Filter(routes, HasName(ServiceName(internal, hostname))) != []
    ensures r in routes && At(r, internal, hostname)
  {
    FilterMembers(routes, HasName(ServiceName(internal, hostname)));
    r := Filter(routes, HasName(ServiceName(internal, hostname)))[0];
    assert r in Filter(routes, HasName(ServiceName(internal, hostname)));
    SameService(r, internal, hostname);
  }

  /** An external route that shares its host and path with an internal one: requests for the path are
      not served by it alone. */
  lemma MixedHostMisroutes(r: RouteWithBackends, s: RouteWithBackends)
    requires r.hostname == s.hostname && r.path == s.path && !r.internal && s.internal
    requires r.backends != [] && s.backends != []
    ensures Filter([r, s], HasName(ServiceName(false, r.hostname))) != []
    ensures !ServedByLongestPath([r, s], false, r.hostname, r.path)
  {
    FilterMembers([r, s], HasName(ServiceName(false, r.hostname)));
    SameService(r, false, r.hostname);
    assert r in [r, s] && s in [r, s];
    assert r in Filter([r, s], HasName(ServiceName(false, r.hostname)));
    assert LongestPath([r, s], false, r.hostname, r.path, r.path);
    assert !OwnKey([r, s], false, r.hostname, r.path);
    ExternalRequestIff([r, s], r.hostname, r.path);
  }

  /** An internal route with a path also gets the requests for other paths. */
  lemma InternalPathMisroutes(r: RouteWithBackends, request: string)
    requires r.internal && r.backends != [] && !(r.path <= request)
    ensures Filter([r], HasName(ServiceName(true, r.hostname))) != []
    ensures !ServedByLongestPath([r], true, r.hostname, request)
  {
    FilterMembers([r], HasName(ServiceName(true, r.hostname)));
    SameService(r, true, r.hostname);
    assert r in [r];
    assert r in Filter([r], HasName(ServiceName(true, r.hostname)));
    InternalRequestIff([r], r.hostname, request);
    var u := Covering([r], true, r.hostname, r);
    FirstAt([r], true, r.hostname, 0);
  }
}
