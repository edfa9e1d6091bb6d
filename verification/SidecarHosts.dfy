/** Which internal hosts the sidecars of snapshot/config.go should list, computed as the two maps of
    CreateSidecarResources compute it, and in terms of the routes and policies themselves. */
module SidecarHosts {
  import opened Models
  import opened Sequences
  import opened Sorting

  /** A network policy; source and destination are the IDs, all the sidecars read of it. */
  datatype Policy = Policy(
    source: string,
    sourceTag: string,
    destination: string,
    destinationTag: string,
    protocol: string,
    startPort: int,
    endPort: int)

  type Lists = map<string, seq<string>>

  // ----- what the sidecars should be

  /** The internal hostnames of each process, in order. */
  function HostsMap(routes: seq<RouteWithBackends>): Lists
  {
    if routes == [] then map[]
    else
      var m, r := HostsMap(routes[..|routes| - 1]), routes[|routes| - 1];
      if r.internal then m[r.capiProcessGUID := Get(m, r.capiProcessGUID) + [r.hostname]] else m
  }

  function Get(m: Lists, k: string): seq<string>
  {
    if k in m then m[k] else []
  }

  /** The destinations that each source is allowed and that have internal hosts, in policy order. */
  function AcceptedMap(hosts: Lists, policies: seq<Policy>): Lists
  {
    if policies == [] then map[]
    else Accept(hosts, AcceptedMap(hosts, policies[..|policies| - 1]), policies[|policies| - 1])
  }

  function Accept(hosts: Lists, accepted: Lists, p: Policy): Lists
  {
    if p.destination in hosts then accepted[p.source := Get(accepted, p.source) + [p.destination]] else accepted
  }

  /** The hosts of the destinations, one after the other. */
  function HostsOf(hosts: Lists, destinations: seq<string>): seq<string>
  {
    if destinations == [] then []
    else HostsOf(hosts, destinations[..|destinations| - 1]) + Get(hosts, destinations[|destinations| - 1])
  }

  function Prefixed(s: seq<string>): (r: seq<string>)
    ensures |r| == |s|
    ensures forall i | 0 <= i < |s| :: r[i] == "internal/" + s[i]
  {
    seq(|s|, i requires 0 <= i < |s| => "internal/" + s[i])
  }

  lemma {:induction false} AcceptedMapFacts(hosts: Lists, policies: seq<Policy>)
    ensures forall s | s in AcceptedMap(hosts, policies) ::
      var a := AcceptedMap(hosts, policies)[s];
      a != [] && |a| <= |policies| && forall d | d in a :: d in hosts
  {
    if policies != [] { AcceptedMapFacts(hosts, policies[..|policies| - 1]); }
  }

  lemma HostsOfNext(hosts: Lists, a: seq<string>, d: string)
    ensures HostsOf(hosts, a + [d]) == HostsOf(hosts, a) + Get(hosts, d)
  {
    assert (a + [d])[..|a + [d]| - 1] == a;
  }

  // ----- the two maps

  function InternalOf(process: string): RouteWithBackends -> bool
  {
    (r: RouteWithBackends) => r.internal && r.capiProcessGUID == process
  }

  /** The first map lists, for each process with internal routes, their hostnames in order. */
  lemma {:induction false} HostsMapIs(routes: seq<RouteWithBackends>, process: string)
    ensures var rs, m := Filter(routes, InternalOf(process)), HostsMap(routes);
      && (process in m <==> rs != [])
      && |Get(m, process)| == |rs|
      && forall i | 0 <= i < |rs| :: Get(m, process)[i] == rs[i].hostname
  {
    if routes != [] { HostsMapIs(routes[..|routes| - 1], process); }
  }

  predicate HasInternalRoute(routes: seq<RouteWithBackends>, process: string)
  {
    exists r | r in routes :: r.internal && r.capiProcessGUID == process
  }

  function AllowsFor(routes: seq<RouteWithBackends>, source: string): Policy -> bool
  {
    (p: Policy) => p.source == source && HasInternalRoute(routes, p.destination)
  }

  lemma InHostsMap(routes: seq<RouteWithBackends>, process: string)
    ensures process in HostsMap(routes) <==> HasInternalRoute(routes, process)
  {
    HostsMapIs(routes, process);
    FilterMembers(routes, InternalOf(process));
    var rs := Filter(routes, InternalOf(process));
    if rs != [] { assert rs[0] in rs; }
    if r :| r in routes && r.internal && r.capiProcessGUID == process { assert r in rs; }
  }

  /** The second map lists, for each source, the destinations of its policies that have internal
      routes, in order. */
  lemma {:induction false} AcceptedMapIs(routes: seq<RouteWithBackends>, policies: seq<Policy>, source: string)
    ensures var ps, m := Filter(policies, AllowsFor(routes, source)), AcceptedMap(HostsMap(routes), policies);
      && (source in m <==> ps != [])
      && |Get(m, source)| == |ps|
      && forall i | 0 <= i < |ps| :: Get(m, source)[i] == ps[i].destination
  {
    if policies != [] {
      AcceptedMapIs(routes, policies[..|policies| - 1], source);
      InHostsMap(routes, policies[|policies| - 1].destination);
    }
  }

  // ----- the hosts of a sidecar, policy by policy and route by route

  /** A policy and a route, by position. */
  datatype Reach = Reach(policy: nat, route: nat)

  /** The policy lets the source reach the route, which is internal. */
  predicate Reaches(routes: seq<RouteWithBackends>, policies: seq<Policy>, source: string, x: Reach)
  {
    && x.policy < |policies| && x.route < |routes|
    && policies[x.policy].source == source
    && routes[x.route].internal && routes[x.route].capiProcessGUID == policies[x.policy].destination
  }

  /** By policy, then by route. */
  predicate Earlier(x: Reach, y: Reach)
  {
    x.policy < y.policy || (x.policy == y.policy && x.route < y.route)
  }

  /** all has every reach of the source once, by policy and then by route. */
  ghost predicate AreReaches(routes: seq<RouteWithBackends>, policies: seq<Policy>, source: string, all: seq<Reach>)
  {
    && (forall x :: x in all <==> Reaches(routes, policies, source, x))
    && forall m, n | 0 <= m < n < |all| :: Earlier(all[m], all[n])
  }

  /** The hosts are those of all that the source reaches, each prefixed once, in order. */
  ghost predicate ListsHosts(routes: seq<RouteWithBackends>, policies: seq<Policy>, source: string, hosts: seq<string>)
  {
    exists all: seq<Reach> ::
      && AreReaches(routes, policies, source, all) && |hosts| == |all|
      && forall n | 0 <= n < |all| :: n < |hosts| && all[n].route < |routes|
           && hosts[n] == "internal/" + routes[all[n].route].hostname
  }

  /** There is a sidecar for each source that reaches anything, and it lists what that is. */
  ghost predicate AsIntended(routes: seq<RouteWithBackends>, policies: seq<Policy>, sidecars: Lists)
  {
    && AreSources(routes, policies, sidecars.Keys)
    && forall s | s in sidecars :: ListsHosts(routes, policies, s, sidecars[s])
  }

  ghost predicate AreSources(routes: seq<RouteWithBackends>, policies: seq<Policy>, sources: set<string>)
  {
    forall s :: s in sources <==> exists x :: Reaches(routes, policies, s, x)
  }

  /** The reaches of one policy. */
  function RouteReaches(routes: seq<RouteWithBackends>, i: nat, process: string): seq<Reach>
  {
    if routes == [] then []
    else
      var n := |routes| - 1;
      var front := RouteReaches(routes[..n], i, process);
      if routes[n].internal && routes[n].capiProcessGUID == process then front + [Reach(i, n)] else front
  }

  function AllReaches(routes: seq<RouteWithBackends>, policies: seq<Policy>, source: string): seq<Reach>
  {
    if policies == [] then []
    else
      var n := |policies| - 1;
      var front := AllReaches(routes, policies[..n], source);
      if policies[n].source == source then front + RouteReaches(routes, n, policies[n].destination) else front
  }

  predicate RouteReached(routes: seq<RouteWithBackends>, i: nat, process: string, x: Reach)
  {
    x.policy == i && x.route < |routes| && routes[x.route].internal && routes[x.route].capiProcessGUID == process
  }

  predicate Ascending(all: seq<Reach>)
  {
    forall m, n | 0 <= m < n < |all| :: Earlier(all[m], all[n])
  }

  lemma {:induction false} RouteReachesAre(routes: seq<RouteWithBackends>, i: nat, process: string)
    ensures forall x :: x in RouteReaches(routes, i, process) <==> RouteReached(routes, i, process, x)
    ensures Ascending(RouteReaches(routes, i, process))
  {
    if routes != [] {
      var n := |routes| - 1;
      RouteReachesAre(routes[..n], i, process);
      var front := RouteReaches(routes[..n], i, process);
      forall m | 0 <= m < |front| ensures front[m].policy == i && front[m].route < n {
        assert front[m] in front;
        assert RouteReached(routes[..n], i, process, front[m]);
      }
      forall x ensures x in RouteReaches(routes, i, process) <==> RouteReached(routes, i, process, x) {
        assert RouteReached(routes, i, process, x) <==>
               RouteReached(routes[..n], i, process, x)
               || (x == Reach(i, n) && routes[n].internal && routes[n].capiProcessGUID == process);
      }
    }
  }

  lemma {:induction false} AllReachesAre(routes: seq<RouteWithBackends>, policies: seq<Policy>, source: string)
    ensures AreReaches(routes, policies, source, AllReaches(routes, policies, source))
  {
    if policies != [] {
      var n := |policies| - 1;
      AllReachesAre(routes, policies[..n], source);
      var front, last := AllReaches(routes, policies[..n], source), RouteReaches(routes, n, policies[n].destination);
      RouteReachesAre(routes, n, policies[n].destination);
      forall m | 0 <= m < |front| ensures front[m].policy < n {
        assert front[m] in front;
        assert Reaches(routes, policies[..n], source, front[m]);
      }
      forall m | 0 <= m < |last| ensures last[m].policy == n {
        assert last[m] in last;
        assert RouteReached(routes, n, policies[n].destination, last[m]);
      }
      forall x ensures x in AllReaches(routes, policies, source) <==> Reaches(routes, policies, source, x) {
        assert Reaches(routes, policies, source, x) <==>
               Reaches(routes, policies[..n], source, x)
               || (policies[n].source == source && RouteReached(routes, n, policies[n].destination, x));
      }
    }
  }

  function HostsAt(routes: seq<RouteWithBackends>, all: seq<Reach>): seq<string>
    requires InRange(routes, all)
  {
    seq(|all|, n requires 0 <= n < |all| => routes[all[n].route].hostname)
  }

  lemma {:induction false} RouteReachesHosts(routes: seq<RouteWithBackends>, i: nat, process: string)
    ensures var all := RouteReaches(routes, i, process);
      && InRange(routes, all)
      && HostsAt(routes, all) == Get(HostsMap(routes), process)
  {
    if routes != [] {
      var n := |routes| - 1;
      RouteReachesHosts(routes[..n], i, process);
      var front := RouteReaches(routes[..n], i, process);
      assert HostsAt(routes, front) == HostsAt(routes[..n], front);
    }
  }

  lemma AcceptHosts(hosts: Lists, accepted: Lists, p: Policy, source: string)
    ensures HostsOf(hosts, Get(Accept(hosts, accepted, p), source)) ==
            HostsOf(hosts, Get(accepted, source)) + if p.source == source then Get(hosts, p.destination) else []
  {
    HostsOfNext(hosts, Get(accepted, source), p.destination);
  }

  predicate InRange(routes: seq<RouteWithBackends>, all: seq<Reach>)
  {
    forall n | 0 <= n < |all| :: all[n].route < |routes|
  }

  lemma HostsAtConcat(routes: seq<RouteWithBackends>, a: seq<Reach>, b: seq<Reach>)
    requires InRange(routes, a) && InRange(routes, b)
    ensures InRange(routes, a + b) && HostsAt(routes, a + b) == HostsAt(routes, a) + HostsAt(routes, b)
  {
  }

  lemma {:induction false} AllReachesHosts(routes: seq<RouteWithBackends>, policies: seq<Policy>, source: string)
    ensures var all, hosts := AllReaches(routes, policies, source), HostsMap(routes);
      InRange(routes, all) && HostsAt(routes, all) == HostsOf(hosts, Get(AcceptedMap(hosts, policies), source))
  {
    if policies != [] {
      var n, hosts := |policies| - 1, HostsMap(routes);
      AllReachesHosts(routes, policies[..n], source);
      RouteReachesHosts(routes, n, policies[n].destination);
      HostsAtConcat(routes, AllReaches(routes, policies[..n], source),
                    RouteReaches(routes, n, policies[n].destination));
      AcceptHosts(hosts, AcceptedMap(hosts, policies[..n]), policies[n], source);
    }
  }

  lemma EarlierOrder()
    ensures WeakOrder(Earlier)
    ensures forall x: Reach, y: Reach | Same(Earlier, x, y) :: x == y
  {
  }

  /** There is one such sequence. */
  lemma ReachesUnique(routes: seq<RouteWithBackends>, policies: seq<Policy>, source: string,
                      a: seq<Reach>, b: seq<Reach>)
    requires AreReaches(routes, policies, source, a) && AreReaches(routes, policies, source, b)
    ensures a == b
  {
    var all := set x | x in a;
    EarlierOrder();
    forall x ensures x in a <==> x in b {
      assert x in a <==> Reaches(routes, policies, source, x);
    }
    EnumerationsPermute(a, b, all);
    SortedUnique(a, b, Earlier);
  }

  lemma ListsHostsIff(routes: seq<RouteWithBackends>, policies: seq<Policy>, source: string, hosts: seq<string>)
    ensures ListsHosts(routes, policies, source, hosts) <==>
            hosts == Prefixed(HostsOf(HostsMap(routes), Get(AcceptedMap(HostsMap(routes), policies), source)))
  {
    var all := AllReaches(routes, policies, source);
    AllReachesAre(routes, policies, source);
    AllReachesHosts(routes, policies, source);
    if ListsHosts(routes, policies, source, hosts) {
      var other: seq<Reach> :| AreReaches(routes, policies, source, other) && |hosts| == |other|
        && forall n | 0 <= n < |other| :: n < |hosts| && other[n].route < |routes|
             && hosts[n] == "internal/" + routes[other[n].route].hostname;
      ReachesUnique(routes, policies, source, all, other);
    }
  }

  lemma HasSidecarIff(routes: seq<RouteWithBackends>, policies: seq<Policy>, source: string)
    ensures source in AcceptedMap(HostsMap(routes), policies) <==> exists x :: Reaches(routes, policies, source, x)
  {
    var ps := Filter(policies, AllowsFor(routes, source));
    AcceptedMapIs(routes, policies, source);
    FilterMembers(policies, AllowsFor(routes, source));
    if ps != [] {
      assert ps[0] in ps;
      var i :| 0 <= i < |policies| && policies[i] == ps[0];
      var r :| r in routes && r.internal && r.capiProcessGUID == ps[0].destination;
      var j :| 0 <= j < |routes| && routes[j] == r;
      assert Reaches(routes, policies, source, Reach(i, j));
    }
    if x :| Reaches(routes, policies, source, x) {
      assert routes[x.route] in routes && policies[x.policy] in policies;
      assert policies[x.policy] in ps;
    }
  }

  /** What the maps give, without sharing. */
  predicate AsComputed(hosts: Lists, accepted: Lists, sidecars: Lists)
  {
    && sidecars.Keys == accepted.Keys
    && forall s | s in accepted :: sidecars[s] == Prefixed(HostsOf(hosts, accepted[s]))
  }

  lemma SidecarKeys(routes: seq<RouteWithBackends>, policies: seq<Policy>, keys: set<string>)
    ensures AreSources(routes, policies, keys) <==> keys == AcceptedMap(HostsMap(routes), policies).Keys
  {
    forall s
      ensures s in AcceptedMap(HostsMap(routes), policies).Keys <==> exists x :: Reaches(routes, policies, s, x)
    {
      HasSidecarIff(routes, policies, s);
    }
  }

  lemma SidecarLists(routes: seq<RouteWithBackends>, policies: seq<Policy>, sidecars: Lists, accepted: Lists)
    requires accepted == AcceptedMap(HostsMap(routes), policies) && sidecars.Keys == accepted.Keys
    ensures (forall s | s in sidecars :: ListsHosts(routes, policies, s, sidecars[s])) <==>
            (forall s | s in accepted :: sidecars[s] == Prefixed(HostsOf(HostsMap(routes), accepted[s])))
  {
    forall s | s in sidecars
      ensures ListsHosts(routes, policies, s, sidecars[s]) <==>
              sidecars[s] == Prefixed(HostsOf(HostsMap(routes), accepted[s]))
    {
      ListsHostsIff(routes, policies, s, sidecars[s]);
    }
  }

  /** That is as intended, and nothing else is. */
  lemma AsIntendedIff(routes: seq<RouteWithBackends>, policies: seq<Policy>, sidecars: Lists)
    ensures AsIntended(routes, policies, sidecars) <==>
            AsComputed(HostsMap(routes), AcceptedMap(HostsMap(routes), policies), sidecars)
  {
    var accepted := AcceptedMap(HostsMap(routes), policies);
    SidecarKeys(routes, policies, sidecars.Keys);
    if sidecars.Keys == accepted.Keys { SidecarLists(routes, policies, sidecars, accepted); }
  }
}
