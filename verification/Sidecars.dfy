/** snapshot/config.go: CreateSidecarResources lists for each source the internal hosts it may reach.
    It shares Go slices between two maps and edits them in place; slices are modelled as windows
    on arrays. */
module Sidecars {
  import opened Models
  import opened SidecarHosts
  import opened GoSlices

  /** Two sources that are first allowed the same destination share its slice. */
  predicate ShareFirst(accepted: Lists, s: string, t: string)
  {
    && s in accepted && t in accepted && s != t
    && accepted[s] != [] && accepted[t] != [] && accepted[s][0] == accepted[t][0]
  }

  /** Sources share the slice of a destination only if it has a single host, and at most one of them
      is allowed nothing else: a slice literal of one element has no spare capacity, so every other
      one moves to a slice of its own. */
  predicate Safe(hosts: Lists, accepted: Lists)
  {
    forall s, t | s in accepted && t in accepted && ShareFirst(accepted, s, t) ::
      |Get(hosts, accepted[s][0])| == 1 && (|accepted[s]| >= 2 || |accepted[t]| >= 2)
  }

  predicate SharedAreSingle(hosts: Lists, accepted: Lists)
  {
    forall s, t | s in accepted && t in accepted && ShareFirst(accepted, s, t) :: |Get(hosts, accepted[s][0])| == 1
  }

  // ----- slices

  type Slices = map<string, Slice<string>>

  ghost function Arrays(m: Slices): set<array<string>>
  {
    set k | k in m :: m[k].backing
  }

  // ----- the slices of the processes

  ghost predicate Apart(m: Slices)
  {
    forall g, h | g in m && h in m && g != h :: m[g].backing != m[h].backing
  }

  /** The slice of a process holds its hosts. One host fills its array; so do more when arrays grow
      exactly, and when they grow generously the array has the room. */
  ghost predicate Backs(s: Slice<string>, hosts: seq<string>, known: Growth)
    reads s.backing
  {
    && Valid(s) && Contents(s) == hosts
    && Fits(s, |hosts|, known)
  }

  predicate Fits(s: Slice<string>, size: nat, known: Growth)
  {
    && (size == 1 ==> s.backing.Length == 1)
    && (known.Generous? && size >= 2 ==> s.backing.Length >= known.room)
    && (known.Exact? ==> s.backing.Length == size)
  }

  /** What is known of the growth: all or nothing. */
  predicate Known(growth: Growth, known: Growth)
  {
    known == growth || known == Any
  }

  ghost predicate RouteMapOk(hosts: Lists, routeMap: Slices, known: Growth)
    reads Arrays(routeMap)
  {
    && routeMap.Keys == hosts.Keys && Apart(routeMap)
    && forall g | g in routeMap :: hosts[g] != [] && Backs(routeMap[g], hosts[g], known)
  }

  method AddHost(s: Slice<string>, ghost hosts: seq<string>, host: string, growth: Growth, ghost known: Growth)
    returns (r: Slice<string>)
    requires hosts != [] && Backs(s, hosts, known) && Known(growth, known)
    modifies s.backing
    ensures Backs(r, hosts + [host], known) && (r.backing == s.backing || fresh(r.backing))
  {
    r := Append(s, [host], growth);
  }

  lemma InArrays(m: Slices)
    ensures forall k | k in m :: m[k].backing in Arrays(m)
  {
  }

  /** The slice of a process with one more host. */
  method ExtendSlice(ghost hosts: Lists, routeMap: Slices, process: string, host: string,
                     growth: Growth, ghost known: Growth)
    returns (slice: Slice<string>)
    requires RouteMapOk(hosts, routeMap, known) && Known(growth, known)
    modifies Arrays(routeMap)
    ensures Backs(slice, Get(hosts, process) + [host], known)
    ensures fresh(slice.backing) || (process in routeMap && slice.backing == routeMap[process].backing)
    ensures forall g | g in routeMap && g != process :: Backs(routeMap[g], hosts[g], known)
  {
    InArrays(routeMap);
    if process in routeMap {
      slice := AddHost(routeMap[process], hosts[process], host, growth, known);
    } else {
      var literal := new string[1](_ => host);
      slice := Slice(literal, 1);
    }
  }

  method AddInternalRoute(ghost hosts: Lists, routeMap: Slices, process: string, host: string,
                          growth: Growth, ghost known: Growth)
    returns (all: Slices)
    requires RouteMapOk(hosts, routeMap, known) && Known(growth, known)
    modifies Arrays(routeMap)
    ensures RouteMapOk(hosts[process := Get(hosts, process) + [host]], all, known)
    ensures fresh(Arrays(all) - Arrays(routeMap))
  {
    InArrays(routeMap);
    var slice := ExtendSlice(hosts, routeMap, process, host, growth, known);
    all := routeMap[process := slice];
  }

  method BuildRouteMap(routes: seq<RouteWithBackends>, growth: Growth, ghost known: Growth) returns (routeMap: Slices)
    requires Known(growth, known)
    ensures RouteMapOk(HostsMap(routes), routeMap, known) && fresh(Arrays(routeMap))
  {
    routeMap := map[];
    for i := 0 to |routes|
      invariant RouteMapOk(HostsMap(routes[..i]), routeMap, known) && fresh(Arrays(routeMap))
    {
      var route := routes[i];
      assert routes[..i + 1][..i] == routes[..i];
      if route.internal {
        routeMap := AddInternalRoute(HostsMap(routes[..i]), routeMap, route.capiProcessGUID, route.hostname,
                                     growth, known);
      }
    }
    assert routes[..|routes|] == routes;
  }

  // ----- the slices of the sources

  predicate Attached(accepted: Lists, routeMap: Slices, policyMap: Slices, s: string)
  {
    s in accepted && s in policyMap && accepted[s] != [] && accepted[s][0] in routeMap
    && policyMap[s].backing == routeMap[accepted[s][0]].backing
  }

  ghost predicate Private(routeMap: Slices, policyMap: Slices, s: string)
  {
    && s in policyMap
    && policyMap[s].backing !in Arrays(routeMap)
    && forall t | t in policyMap && t != s :: policyMap[t].backing != policyMap[s].backing
  }

  /** The slice of a source is long enough, and it is still attached to that of its first
      destination, or private. */
  ghost predicate Holds(hosts: Lists, accepted: Lists,
                        routeMap: Slices, policyMap: Slices, s: string, known: Growth)
    requires s in accepted && s in policyMap
  {
    && accepted[s] != [] && accepted[s][0] in hosts && accepted[s][0] in routeMap
    && policyMap[s].len == |HostsOf(hosts, accepted[s])| >= |hosts[accepted[s][0]]|
    && policyMap[s].len <= policyMap[s].backing.Length
    && (Attached(accepted, routeMap, policyMap, s) || Private(routeMap, policyMap, s))
    && (|accepted[s]| == 1 ==> Attached(accepted, routeMap, policyMap, s))
    && (|hosts[accepted[s][0]]| == 1 ==> (Attached(accepted, routeMap, policyMap, s) <==> |accepted[s]| == 1))
    && (known.Generous? && |hosts[accepted[s][0]]| >= 2 ==> Attached(accepted, routeMap, policyMap, s))
    && (known.Exact? ==> policyMap[s].backing.Length == policyMap[s].len)
    && (known.Exact? && Attached(accepted, routeMap, policyMap, s) ==> |accepted[s]| == 1)
  }

  ghost predicate PolicyMapOk(hosts: Lists, accepted: Lists,
                              routeMap: Slices, policyMap: Slices, known: Growth)
  {
    && policyMap.Keys == accepted.Keys
    && forall s | s in policyMap :: Holds(hosts, accepted, routeMap, policyMap, s, known)
  }

  /** No slice of several hosts is shared and may be appended to in place. */
  predicate Undisturbed(hosts: Lists, accepted: Lists, known: Growth)
  {
    SharedAreSingle(hosts, accepted) || known.Exact?
  }

  /** Unless a slice of several hosts is shared and may be appended to in place, each source sees the
      hosts of its destinations. */
  ghost predicate ContentsOk(hosts: Lists, accepted: Lists, policyMap: Slices, known: Growth)
    requires policyMap.Keys == accepted.Keys
    reads Arrays(policyMap)
  {
    Undisturbed(hosts, accepted, known) ==>
      forall s | s in policyMap :: HoldsList(policyMap[s], HostsOf(hosts, accepted[s]))
  }

  /** A source without a slice takes over that of its first destination. */
  lemma FirstPolicy(hosts: Lists, accepted: Lists, routeMap: Slices,
                    policyMap: Slices, known: Growth, source: string, d: string)
    requires PolicyMapOk(hosts, accepted, routeMap, policyMap, known)
    requires routeMap.Keys == hosts.Keys && d in hosts && source !in accepted
    requires routeMap[d].len == |hosts[d]| <= routeMap[d].backing.Length && Fits(routeMap[d], |hosts[d]|, known)
    ensures PolicyMapOk(hosts, accepted[source := [d]], routeMap, policyMap[source := routeMap[d]], known)
  {
    var accepted', policyMap' := accepted[source := [d]], policyMap[source := routeMap[d]];
    InArrays(routeMap);
    HostsOfNext(hosts, [], d);
    assert [] + [d] == [d];
    forall s | s in policyMap' ensures Holds(hosts, accepted', routeMap, policyMap', s, known) {
      if s != source { assert Holds(hosts, accepted, routeMap, policyMap, s, known); }
    }
  }

  /** Replacing the slice of another source by a longer one, in its array or a new one, disturbs
      nothing. */
  lemma OtherHolds(hosts: Lists, accepted: Lists, routeMap: Slices,
                   policyMap: Slices, known: Growth, source: string, more: seq<string>, slice: Slice<string>, s: string)
    requires s in accepted && s in policyMap && source in policyMap && s != source
    requires Holds(hosts, accepted, routeMap, policyMap, s, known)
    requires slice.backing == policyMap[source].backing || slice.backing !in Arrays(policyMap)
    ensures Holds(hosts, accepted[source := more], routeMap, policyMap[source := slice], s, known)
  {
    InArrays(policyMap);
    var policyMap' := policyMap[source := slice];
    if Private(routeMap, policyMap, s) {
      forall t | t in policyMap' && t != s ensures policyMap'[t].backing != policyMap[s].backing {}
      assert Private(routeMap, policyMap', s);
    }
  }

  /** A source with a slice gets a longer one, in the same array while the capacity lasts. */
  lemma NextHolds(hosts: Lists, accepted: Lists, routeMap: Slices,
                  policyMap: Slices, known: Growth, source: string, d: string, slice: Slice<string>)
    requires source in accepted && source in policyMap && Holds(hosts, accepted, routeMap, policyMap, source, known)
    requires d in hosts && hosts[d] != []
    requires forall g | g in routeMap && g in hosts :: Fits(routeMap[g], |hosts[g]|, known)
    requires slice.len == policyMap[source].len + |hosts[d]| <= slice.backing.Length
    requires slice.len <= policyMap[source].backing.Length ==> slice.backing == policyMap[source].backing
    requires slice.len > policyMap[source].backing.Length ==>
      slice.backing !in Arrays(routeMap) && slice.backing !in Arrays(policyMap)
    requires known.Generous? ==> slice.len <= known.room
    requires slice.len > policyMap[source].backing.Length && known.Exact? ==> slice.backing.Length == slice.len
    ensures Holds(hosts, accepted[source := accepted[source] + [d]],
                  routeMap, policyMap[source := slice], source, known)
  {
    var first := accepted[source][0];
    var accepted', policyMap' := accepted[source := accepted[source] + [d]], policyMap[source := slice];
    InArrays(policyMap);
    InArrays(routeMap);
    HostsOfNext(hosts, accepted[source], d);
    assert accepted'[source][0] == first;
    if slice.len > policyMap[source].backing.Length {
      assert Private(routeMap, policyMap', source);
    } else if Attached(accepted, routeMap, policyMap, source) {
      assert Attached(accepted', routeMap, policyMap', source);
    } else {
      assert Private(routeMap, policyMap', source);
    }
  }

  /** Sources whose slices share an array were first allowed the same destination. */
  lemma SharedArray(hosts: Lists, accepted: Lists, routeMap: Slices,
                    policyMap: Slices, known: Growth, s: string, t: string)
    requires PolicyMapOk(hosts, accepted, routeMap, policyMap, known) && Apart(routeMap)
    requires s in policyMap && t in policyMap && s != t && policyMap[s].backing == policyMap[t].backing
    ensures ShareFirst(accepted, s, t)
    ensures Attached(accepted, routeMap, policyMap, s) && Attached(accepted, routeMap, policyMap, t)
  {
    assert Holds(hosts, accepted, routeMap, policyMap, s, known);
    assert Holds(hosts, accepted, routeMap, policyMap, t, known);
  }

  lemma ShorterPrefix(a: seq<string>, b: seq<string>, n: nat, m: nat)
    requires m <= n <= |a| && n <= |b| && a[..n] == b[..n]
    ensures a[..m] == b[..m]
  {
    assert a[..m] == a[..n][..m] && b[..m] == b[..n][..m];
  }

  /** Appends the hosts of one more destination to the slice of a source. */
  method ExtendSource(ghost hosts: Lists, ghost accepted: Lists,
                      routeMap: Slices, policyMap: Slices, p: Policy,
                      growth: Growth, ghost known: Growth)
    returns (slice: Slice<string>)
    requires Known(growth, known)
    requires RouteMapOk(hosts, routeMap, known) && PolicyMapOk(hosts, accepted, routeMap, policyMap, known)
    requires p.destination in hosts && p.source in policyMap
    modifies policyMap[p.source].backing
    ensures RouteMapOk(hosts, routeMap, known)
    ensures Valid(slice) && slice.len == policyMap[p.source].len + |hosts[p.destination]|
    ensures slice.len <= policyMap[p.source].backing.Length ==> slice.backing == policyMap[p.source].backing
    ensures slice.len > policyMap[p.source].backing.Length ==>
      fresh(slice.backing) && (known.Exact? ==> slice.backing.Length == slice.len)
    ensures Valid(policyMap[p.source]) && Contents(slice) == old(Contents(policyMap[p.source])) + hosts[p.destination]
    ensures slice.len > policyMap[p.source].backing.Length ==>
      policyMap[p.source].backing[..] == old(policyMap[p.source].backing[..])
  {
    var was := policyMap[p.source];
    assert Holds(hosts, accepted, routeMap, policyMap, p.source, known);
    InArrays(routeMap);
    var xs := routeMap[p.destination].backing[..routeMap[p.destination].len];
    slice := Append(was, xs, growth);
    forall g | g in routeMap ensures Backs(routeMap[g], hosts[g], known) {
      if routeMap[g].backing == was.backing {
        ShorterPrefix(was.backing[..], old(was.backing[..]), was.len, routeMap[g].len);
      }
    }
  }

  /** Unless a slice of several hosts is shared, that leaves the other sources alone: the shared
      slices of single hosts have no room to append in place. */
  method ExtendApart(ghost hosts: Lists, ghost accepted: Lists,
                     routeMap: Slices, policyMap: Slices, p: Policy,
                 growth: Growth, ghost known: Growth)
    returns (slice: Slice<string>)
    requires Known(growth, known)
    requires RouteMapOk(hosts, routeMap, known) && PolicyMapOk(hosts, accepted, routeMap, policyMap, known)
    requires p.destination in hosts && p.source in policyMap
    modifies policyMap[p.source].backing
    ensures RouteMapOk(hosts, routeMap, known)
    ensures Valid(slice) && slice.len == policyMap[p.source].len + |hosts[p.destination]|
    ensures slice.len <= policyMap[p.source].backing.Length ==> slice.backing == policyMap[p.source].backing
    ensures slice.len > policyMap[p.source].backing.Length ==>
      fresh(slice.backing) && (known.Exact? ==> slice.backing.Length == slice.len)
    ensures Valid(policyMap[p.source]) && Contents(slice) == old(Contents(policyMap[p.source])) + hosts[p.destination]
    ensures Undisturbed(hosts, accepted, known) ==>
      forall t | t in policyMap && t != p.source :: policyMap[t].backing[..] == old(policyMap[t].backing[..])
  {
    assert Holds(hosts, accepted, routeMap, policyMap, p.source, known);
    slice := ExtendSource(hosts, accepted, routeMap, policyMap, p, growth, known);
    if Undisturbed(hosts, accepted, known) {
      forall t | t in policyMap && t != p.source
        ensures policyMap[t].backing[..] == old(policyMap[t].backing[..])
      {
        if policyMap[t].backing == policyMap[p.source].backing {
          SharedArray(hosts, accepted, routeMap, policyMap, known, p.source, t);
        }
      }
    }
  }

  /** Accepting one more policy can only add shared slices. */
  lemma AcceptSharing(hosts: Lists, accepted: Lists, p: Policy)
    requires forall s | s in accepted :: accepted[s] != []
    requires SharedAreSingle(hosts, Accept(hosts, accepted, p))
    ensures SharedAreSingle(hosts, accepted)
  {
    var more := Accept(hosts, accepted, p);
    forall s, t | s in accepted && t in accepted && ShareFirst(accepted, s, t)
      ensures |Get(hosts, accepted[s][0])| == 1
    {
      assert ShareFirst(more, s, t);
    }
  }

  lemma NextPolicyMapOk(hosts: Lists, accepted: Lists, routeMap: Slices,
                        policyMap: Slices, known: Growth, source: string, d: string, slice: Slice<string>)
    requires PolicyMapOk(hosts, accepted, routeMap, policyMap, known)
    requires source in accepted && d in hosts && hosts[d] != []
    requires forall g | g in routeMap && g in hosts :: Fits(routeMap[g], |hosts[g]|, known)
    requires slice.len == policyMap[source].len + |hosts[d]| <= slice.backing.Length
    requires slice.len <= policyMap[source].backing.Length ==> slice.backing == policyMap[source].backing
    requires slice.len > policyMap[source].backing.Length ==>
      slice.backing !in Arrays(routeMap) && slice.backing !in Arrays(policyMap)
    requires known.Generous? ==> slice.len <= known.room
    requires slice.len > policyMap[source].backing.Length && known.Exact? ==> slice.backing.Length == slice.len
    ensures PolicyMapOk(hosts, accepted[source := accepted[source] + [d]], routeMap, policyMap[source := slice], known)
  {
    var accepted', all := accepted[source := accepted[source] + [d]], policyMap[source := slice];
    assert Holds(hosts, accepted, routeMap, policyMap, source, known);
    forall s | s in all ensures Holds(hosts, accepted', routeMap, all, s, known) {
      if s == source {
        NextHolds(hosts, accepted, routeMap, policyMap, known, source, d, slice);
      } else {
        assert Holds(hosts, accepted, routeMap, policyMap, s, known);
        OtherHolds(hosts, accepted, routeMap, policyMap, known, source, accepted'[source], slice, s);
      }
    }
  }

  /** The other sources see the hosts they saw, and the source one destination more. */
  method ExtendContents(ghost hosts: Lists, ghost accepted: Lists,
                        routeMap: Slices, policyMap: Slices, p: Policy,
                        growth: Growth, ghost known: Growth)
    returns (slice: Slice<string>)
    requires Known(growth, known)
    requires RouteMapOk(hosts, routeMap, known) && PolicyMapOk(hosts, accepted, routeMap, policyMap, known)
    requires ContentsOk(hosts, accepted, policyMap, known)
    requires p.destination in hosts && p.source in policyMap
    modifies policyMap[p.source].backing
    ensures RouteMapOk(hosts, routeMap, known)
    ensures Valid(slice) && slice.len == policyMap[p.source].len + |hosts[p.destination]|
    ensures slice.len <= policyMap[p.source].backing.Length ==> slice.backing == policyMap[p.source].backing
    ensures slice.len > policyMap[p.source].backing.Length ==>
      fresh(slice.backing) && (known.Exact? ==> slice.backing.Length == slice.len)
    ensures ContentsOk(hosts, Accept(hosts, accepted, p), policyMap[p.source := slice], known)
  {
    HostsOfNext(hosts, accepted[p.source], p.destination);
    UndisturbedNext(hosts, accepted, routeMap, policyMap, p, known);
    slice := ExtendApart(hosts, accepted, routeMap, policyMap, p, growth, known);
    if Undisturbed(hosts, accepted, known) {
      forall t | t in policyMap && t != p.source ensures HoldsList(policyMap[t], HostsOf(hosts, accepted[t])) {
        assert old(HoldsList(policyMap[t], HostsOf(hosts, accepted[t])));
        assert policyMap[t].backing[..] == old(policyMap[t].backing[..]);
        assert policyMap[t].backing[..policyMap[t].len] == policyMap[t].backing[..][..policyMap[t].len];
      }
      assert old(HoldsList(policyMap[p.source], HostsOf(hosts, accepted[p.source])));
    }
  }

  lemma UndisturbedNext(hosts: Lists, accepted: Lists, routeMap: Slices, policyMap: Slices, p: Policy, known: Growth)
    requires PolicyMapOk(hosts, accepted, routeMap, policyMap, known)
    ensures Undisturbed(hosts, Accept(hosts, accepted, p), known) ==> Undisturbed(hosts, accepted, known)
  {
    forall s | s in accepted ensures accepted[s] != [] { assert Holds(hosts, accepted, routeMap, policyMap, s, known); }
    if SharedAreSingle(hosts, Accept(hosts, accepted, p)) { AcceptSharing(hosts, accepted, p); }
  }

  lemma NextLength(hosts: Lists, accepted: Lists, routeMap: Slices, policyMap: Slices, known: Growth,
                   source: string, d: string)
    requires PolicyMapOk(hosts, accepted, routeMap, policyMap, known) && source in policyMap && d in hosts
    ensures policyMap[source].len + |hosts[d]| == |HostsOf(hosts, accepted[source] + [d])|
  {
    assert Holds(hosts, accepted, routeMap, policyMap, source, known);
    HostsOfNext(hosts, accepted[source], d);
  }

  method AddNext(ghost hosts: Lists, ghost accepted: Lists,
                 routeMap: Slices, policyMap: Slices, p: Policy,
                 growth: Growth, ghost known: Growth)
    returns (slice: Slice<string>)
    requires Known(growth, known)
    requires RouteMapOk(hosts, routeMap, known) && PolicyMapOk(hosts, accepted, routeMap, policyMap, known)
    requires ContentsOk(hosts, accepted, policyMap, known)
    requires p.destination in hosts && p.source in policyMap
    requires known.Generous? ==> |HostsOf(hosts, accepted[p.source] + [p.destination])| <= known.room
    modifies policyMap[p.source].backing
    ensures RouteMapOk(hosts, routeMap, known)
    ensures PolicyMapOk(hosts, Accept(hosts, accepted, p), routeMap, policyMap[p.source := slice], known)
    ensures ContentsOk(hosts, Accept(hosts, accepted, p), policyMap[p.source := slice], known)
    ensures fresh(slice.backing) || slice.backing == policyMap[p.source].backing
  {
    NextLength(hosts, accepted, routeMap, policyMap, known, p.source, p.destination);
    InArrays(policyMap);
    slice := ExtendContents(hosts, accepted, routeMap, policyMap, p, growth, known);
    NextPolicyMapOk(hosts, accepted, routeMap, policyMap, known, p.source, p.destination, slice);
  }

  lemma NextArrays(policyMap: Slices, source: string, slice: Slice<string>, all: Slices)
    requires all == policyMap[source := slice]
    ensures forall s | s in all :: all[s].backing == slice.backing || all[s].backing in Arrays(policyMap)
  {
    InArrays(policyMap);
  }

  lemma FirstHosts(hosts: Lists, accepted: Lists, p: Policy)
    requires p.destination in hosts && p.source !in accepted
    ensures Accept(hosts, accepted, p) == accepted[p.source := [p.destination]]
    ensures HostsOf(hosts, [p.destination]) == hosts[p.destination]
  {
    assert [] + [p.destination] == [p.destination];
    HostsOfNext(hosts, [], p.destination);
  }

  /** The first policy of a source makes it share the slice of the destination. */
  lemma AddFirst(hosts: Lists, accepted: Lists,
                 routeMap: Slices, policyMap: Slices, p: Policy, known: Growth)
    requires RouteMapOk(hosts, routeMap, known) && PolicyMapOk(hosts, accepted, routeMap, policyMap, known)
    requires ContentsOk(hosts, accepted, policyMap, known)
    requires p.destination in hosts && p.source !in policyMap
    ensures PolicyMapOk(hosts, Accept(hosts, accepted, p),
                        routeMap, policyMap[p.source := routeMap[p.destination]], known)
    ensures ContentsOk(hosts, Accept(hosts, accepted, p), policyMap[p.source := routeMap[p.destination]], known)
  {
    FirstPolicy(hosts, accepted, routeMap, policyMap, known, p.source, p.destination);
    FirstHosts(hosts, accepted, p);
    UndisturbedNext(hosts, accepted, routeMap, policyMap, p, known);
  }

  lemma FirstArrays(routeMap: Slices, policyMap: Slices, source: string, d: string, all: Slices)
    requires d in routeMap && all == policyMap[source := routeMap[d]]
    ensures forall s | s in all :: all[s].backing in Arrays(policyMap) || all[s].backing in Arrays(routeMap)
  {
    InArrays(policyMap);
    InArrays(routeMap);
  }

  /** The body of the loop over the policies. */
  method AddPolicy(ghost hosts: Lists, ghost accepted: Lists,
                   routeMap: Slices, policyMap: Slices, p: Policy,
                   growth: Growth, ghost known: Growth)
    returns (all: Slices)
    requires Known(growth, known)
    requires RouteMapOk(hosts, routeMap, known) && PolicyMapOk(hosts, accepted, routeMap, policyMap, known)
    requires ContentsOk(hosts, accepted, policyMap, known)
    requires known.Generous? ==> |HostsOf(hosts, Get(accepted, p.source) + [p.destination])| <= known.room
    modifies Arrays(policyMap)
    ensures RouteMapOk(hosts, routeMap, known)
    ensures PolicyMapOk(hosts, Accept(hosts, accepted, p), routeMap, all, known)
    ensures ContentsOk(hosts, Accept(hosts, accepted, p), all, known)
    ensures forall s | s in all ::
      fresh(all[s].backing) || all[s].backing in Arrays(policyMap) || all[s].backing in Arrays(routeMap)
  {
    InArrays(policyMap);
    if p.destination !in routeMap {
      all := policyMap;
    } else if p.source in policyMap {
      var slice := AddNext(hosts, accepted, routeMap, policyMap, p, growth, known);
      all := policyMap[p.source := slice];
      NextArrays(policyMap, p.source, slice, all);
    } else {
      AddFirst(hosts, accepted, routeMap, policyMap, p, known);
      all := policyMap[p.source := routeMap[p.destination]];
      FirstArrays(routeMap, policyMap, p.source, p.destination, all);
    }
  }

  /** Room for the hosts of any source. */
  function Bound(routes: seq<RouteWithBackends>, policies: seq<Policy>): nat
  {
    |policies| * |routes|
  }

  lemma {:induction false} HostsMapSizes(routes: seq<RouteWithBackends>)
    ensures forall g | g in HostsMap(routes) :: |HostsMap(routes)[g]| <= |routes|
  {
    if routes != [] { HostsMapSizes(routes[..|routes| - 1]); }
  }

  lemma {:induction false} HostsOfSize(hosts: Lists, a: seq<string>, n: nat)
    requires forall g | g in hosts :: |hosts[g]| <= n
    ensures |HostsOf(hosts, a)| <= |a| * n
  {
    if a != [] {
      HostsOfSize(hosts, a[..|a| - 1], n);
      assert (|a| - 1) * n + n == |a| * n;
    }
  }

  lemma EnoughRoom(routes: seq<RouteWithBackends>, policies: seq<Policy>, i: nat)
    requires i < |policies|
    ensures var hosts := HostsMap(routes);
      |HostsOf(hosts, Get(AcceptedMap(hosts, policies[..i]), policies[i].source) + [policies[i].destination])|
        <= Bound(routes, policies)
  {
    var hosts := HostsMap(routes);
    var a := Get(AcceptedMap(hosts, policies[..i]), policies[i].source) + [policies[i].destination];
    HostsMapSizes(routes);
    AcceptedMapFacts(hosts, policies[..i]);
    HostsOfSize(hosts, a, |routes|);
    Monotone(|a|, |policies|, |routes|);
  }

  lemma Monotone(a: nat, b: nat, n: nat)
    requires a <= b
    ensures a * n <= b * n
  {
  }

  /** Everything the loop over the policies maintains. */
  ghost predicate Linked(routes: seq<RouteWithBackends>, accepted: Lists,
                         routeMap: Slices, policyMap: Slices, known: Growth)
    reads Arrays(routeMap), Arrays(policyMap)
  {
    && RouteMapOk(HostsMap(routes), routeMap, known)
    && PolicyMapOk(HostsMap(routes), accepted, routeMap, policyMap, known)
    && ContentsOk(HostsMap(routes), accepted, policyMap, known)
  }

  method AddPolicyAt(ghost routes: seq<RouteWithBackends>, policies: seq<Policy>, i: nat,
                     routeMap: Slices, policyMap: Slices,
                 growth: Growth, ghost known: Growth)
    returns (all: Slices)
    requires Known(growth, known)
    requires i < |policies|
    requires Linked(routes, AcceptedMap(HostsMap(routes), policies[..i]), routeMap, policyMap, known)
    requires known.Generous? ==> known.room >= Bound(routes, policies)
    modifies Arrays(policyMap)
    ensures Linked(routes, AcceptedMap(HostsMap(routes), policies[..i + 1]), routeMap, all, known)
    ensures forall s | s in all ::
      fresh(all[s].backing) || all[s].backing in Arrays(policyMap) || all[s].backing in Arrays(routeMap)
  {
    EnoughRoom(routes, policies, i);
    assert policies[..i + 1][..i] == policies[..i];
    all := AddPolicy(HostsMap(routes), AcceptedMap(HostsMap(routes), policies[..i]), routeMap, policyMap, policies[i],
                     growth, known);
  }

  method BuildPolicyMap(ghost routes: seq<RouteWithBackends>, policies: seq<Policy>, routeMap: Slices,
                 growth: Growth, ghost known: Growth)
    returns (policyMap: Slices)
    requires Known(growth, known)
    requires RouteMapOk(HostsMap(routes), routeMap, known)
    requires known.Generous? ==> known.room >= Bound(routes, policies)
    modifies Arrays(routeMap)
    ensures Linked(routes, AcceptedMap(HostsMap(routes), policies), routeMap, policyMap, known)
    ensures forall s | s in policyMap :: fresh(policyMap[s].backing) || policyMap[s].backing in Arrays(routeMap)
  {
    policyMap := map[];
    for i := 0 to |policies|
      invariant Linked(routes, AcceptedMap(HostsMap(routes), policies[..i]), routeMap, policyMap, known)
      invariant forall s | s in policyMap :: fresh(policyMap[s].backing) || policyMap[s].backing in Arrays(routeMap)
    {
      policyMap := AddPolicyAt(routes, policies, i, routeMap, policyMap, growth, known);
    }
    assert policies[..|policies|] == policies;
  }

  // ----- the edit in place

  /** The loop over the elements of one slice. */
  method PrefixHosts(s: Slice<string>)
    requires Valid(s)
    modifies s.backing
    ensures s.backing[..s.len] == Prefixed(old(Contents(s)))
  {
    for i := 0 to s.len
      invariant forall j | 0 <= j < i :: s.backing[j] == "internal/" + old(s.backing[j])
      invariant forall j | i <= j < s.len :: s.backing[j] == old(s.backing[j])
    {
      s.backing[i] := "internal/" + s.backing[i];
    }
  }

  ghost function AllContents(m: Slices): Lists
    requires forall s | s in m :: Valid(m[s])
    reads Arrays(m)
  {
    map s | s in m :: Contents(m[s])
  }

  /** The length of the first host of a slice. */
  ghost function FirstLength(s: Slice<string>): nat
    reads s.backing
  {
    if s.backing.Length > 0 then |s.backing[0]| else 0
  }

  /** s and t are two sources with one array. */
  ghost predicate Sharing(policyMap: Slices, s: string, t: string)
  {
    s in policyMap && t in policyMap && s != t && policyMap[s].backing == policyMap[t].backing
  }

  /** Of two sources with one array, one was marshalled after the first host was prefixed twice. */
  predicate PrefixedTwice(base: nat, a: seq<string>, b: seq<string>)
  {
    a != [] && b != [] && (|a[0]| >= base + 18 || |b[0]| >= base + 18)
  }

  /** With an array to each source: edited sources were marshalled right, the others are untouched. */
  ghost predicate EditedApart(policyMap: Slices, was: Lists, sidecars: Lists)
    reads Arrays(policyMap)
  {
    && (forall s | s in policyMap :: s in was && Valid(policyMap[s]) && policyMap[s].len > 0)
    && (Apart(policyMap) ==>
          forall s | s in policyMap ::
            if s in sidecars then sidecars[s] == Prefixed(was[s]) else Contents(policyMap[s]) == was[s])
  }

  /** With a shared array: its first host gets longer with the edit of either source. */
  ghost predicate Grown(policyMap: Slices, s: string, t: string, base: nat, sidecars: Lists)
    requires Sharing(policyMap, s, t)
    reads policyMap[s].backing
  {
    && FirstLength(policyMap[s]) >= base
    && (s in sidecars || t in sidecars ==> FirstLength(policyMap[s]) >= base + 9)
    && (s in sidecars ==> sidecars[s] != [])
    && (t in sidecars ==> sidecars[t] != [])
    && (s in sidecars && t in sidecars ==> PrefixedTwice(base, sidecars[s], sidecars[t]))
  }

  /** The body of the loop over the sources: the edit, then the marshalling. */
  method EditSource(policyMap: Slices, source: string, ghost was: Lists,
                    ghost sidecars: Lists, ghost s: string, ghost t: string, ghost base: nat)
    returns (hosts: seq<string>)
    requires source in policyMap && source !in sidecars
    requires EditedApart(policyMap, was, sidecars)
    requires Sharing(policyMap, s, t) ==> Grown(policyMap, s, t, base, sidecars)
    modifies policyMap[source].backing
    ensures EditedApart(policyMap, was, sidecars[source := hosts])
    ensures Sharing(policyMap, s, t) ==> Grown(policyMap, s, t, base, sidecars[source := hosts])
  {
    var slice := policyMap[source];
    PrefixHosts(slice);
    hosts := slice.backing[..slice.len];
    assert hosts[0] == slice.backing[0] == "internal/" + old(Contents(slice))[0];
  }

  lemma OneLess(all: set<string>, left: set<string>, x: string)
    requires left <= all && x in left
    ensures left - {x} <= all && (all - left) + {x} == all - (left - {x}) && x !in all - left
  {
  }

  lemma NothingEdited(policyMap: Slices, s: string, t: string)
    requires forall u | u in policyMap :: Valid(policyMap[u]) && policyMap[u].len > 0
    ensures EditedApart(policyMap, AllContents(policyMap), map[])
    ensures Sharing(policyMap, s, t) ==> Grown(policyMap, s, t, FirstLength(policyMap[s]), map[])
  {
  }

  /** The loop over the sources, in whatever order the map is enumerated; a sidecar is marshalled
      right after its slice is edited. */
  method MarshalSidecars(policyMap: Slices, ghost s: string, ghost t: string) returns (sidecars: Lists)
    requires forall u | u in policyMap :: Valid(policyMap[u]) && policyMap[u].len > 0
    modifies Arrays(policyMap)
    ensures sidecars.Keys == policyMap.Keys
    ensures EditedApart(policyMap, old(AllContents(policyMap)), sidecars)
    ensures Sharing(policyMap, s, t) ==>
      PrefixedTwice(old(FirstLength(policyMap[s])), sidecars[s], sidecars[t])
  {
    InArrays(policyMap);
    ghost var was := AllContents(policyMap);
    ghost var base := if s in policyMap then FirstLength(policyMap[s]) else 0;
    sidecars := map[];
    NothingEdited(policyMap, s, t);
    var left := policyMap.Keys;
    while left != {}
      invariant left <= policyMap.Keys && sidecars.Keys == policyMap.Keys - left
      invariant EditedApart(policyMap, was, sidecars)
      invariant Sharing(policyMap, s, t) ==> Grown(policyMap, s, t, base, sidecars)
      decreases left
    {
      var source :| source in left;
      OneLess(policyMap.Keys, left, source);
      var hosts := EditSource(policyMap, source, was, sidecars, s, t, base);
      sidecars := sidecars[source := hosts];
      left := left - {source};
    }
  }

  // ----- the sidecars

  lemma {:induction false} HostsOfFirst(hosts: Lists, a: seq<string>)
    requires a != [] && Get(hosts, a[0]) != []
    ensures HostsOf(hosts, a) != [] && HostsOf(hosts, a)[0] == hosts[a[0]][0]
  {
    if |a| == 1 {
      assert a[..0] == [];
    } else {
      HostsOfFirst(hosts, a[..|a| - 1]);
    }
  }

  /** Two sources are allowed one and the same destination and nothing else. */
  predicate OneDestinationTwice(accepted: Lists)
  {
    exists s, t :: s in accepted && t in accepted && s != t && |accepted[s]| == 1 && accepted[s] == accepted[t]
  }

  lemma SameOne(accepted: Lists, s: string, t: string)
    requires s in accepted && t in accepted && s != t && |accepted[s]| == 1 == |accepted[t]|
    requires accepted[s][0] == accepted[t][0]
    ensures OneDestinationTwice(accepted)
  {
    assert accepted[s] == accepted[t];
  }

  /** Sources have arrays of their own if they are safe, or if arrays grow exactly and no two have the
      one same destination. */
  lemma SourcesApart(hosts: Lists, accepted: Lists, routeMap: Slices, policyMap: Slices, known: Growth)
    requires PolicyMapOk(hosts, accepted, routeMap, policyMap, known) && Apart(routeMap)
    requires Safe(hosts, accepted) || (known.Exact? && !OneDestinationTwice(accepted))
    ensures Apart(policyMap)
  {
    forall s, t | s in policyMap && t in policyMap && s != t ensures policyMap[s].backing != policyMap[t].backing {
      assert Holds(hosts, accepted, routeMap, policyMap, s, known);
      assert Holds(hosts, accepted, routeMap, policyMap, t, known);
      if policyMap[s].backing == policyMap[t].backing {
        SharedArray(hosts, accepted, routeMap, policyMap, known, s, t);
        if known.Exact? { SameOne(accepted, s, t); }
      }
    }
  }

  /** These are bound to share an array. */
  predicate Doomed(hosts: Lists, accepted: Lists, known: Growth)
  {
    OneDestinationTwice(accepted) || (known.Generous? && !Safe(hosts, accepted))
  }

  lemma AttachedShare(hosts: Lists, accepted: Lists, routeMap: Slices, policyMap: Slices, known: Growth,
                      s: string, t: string, d: string)
    requires RouteMapOk(hosts, routeMap, known) && policyMap.Keys == accepted.Keys && d in routeMap
    requires ShareFirst(accepted, s, t) && accepted[s][0] == d
    requires Attached(accepted, routeMap, policyMap, s) && Attached(accepted, routeMap, policyMap, t)
    ensures Sharing(policyMap, s, t) && hosts[d] != [] && FirstLength(policyMap[s]) == |hosts[d][0]|
  {
    assert Backs(routeMap[d], hosts[d], known);
    assert Contents(routeMap[d])[0] == hosts[d][0];
  }

  lemma DoomedPair(hosts: Lists, accepted: Lists, known: Growth) returns (s: string, t: string)
    requires Doomed(hosts, accepted, known) && forall u | u in accepted :: accepted[u] != []
    ensures s in accepted && t in accepted && ShareFirst(accepted, s, t)
    ensures (|accepted[s]| == 1 && |accepted[t]| == 1) || (known.Generous? && |Get(hosts, accepted[s][0])| != 1)
  {
    if OneDestinationTwice(accepted) {
      s, t :| s in accepted && t in accepted && s != t && |accepted[s]| == 1 && accepted[s] == accepted[t];
    } else {
      s, t :| s in accepted && t in accepted && ShareFirst(accepted, s, t) &&
        !(|Get(hosts, accepted[s][0])| == 1 && (|accepted[s]| >= 2 || |accepted[t]| >= 2));
    }
  }

  /** The shared array starts with the first host of the first destination. */
  lemma DoomedShare(hosts: Lists, accepted: Lists, routeMap: Slices, policyMap: Slices, known: Growth)
    returns (s: string, t: string, d: string)
    requires RouteMapOk(hosts, routeMap, known) && PolicyMapOk(hosts, accepted, routeMap, policyMap, known)
    requires Doomed(hosts, accepted, known)
    ensures Sharing(policyMap, s, t) && ShareFirst(accepted, s, t) && accepted[s][0] == d && d in hosts
    ensures hosts[d] != [] && FirstLength(policyMap[s]) == |hosts[d][0]|
  {
    forall u | u in accepted ensures accepted[u] != [] {
      assert Holds(hosts, accepted, routeMap, policyMap, u, known);
    }
    s, t := DoomedPair(hosts, accepted, known);
    d := accepted[s][0];
    assert Holds(hosts, accepted, routeMap, policyMap, s, known);
    assert Holds(hosts, accepted, routeMap, policyMap, t, known);
    assert hosts[d] != [];
    AttachedShare(hosts, accepted, routeMap, policyMap, known, s, t, d);
  }

  /** What is promised of the sidecars. If the sources are safe they are as intended, however arrays
      grow; if they are not, they are wrong when arrays grow generously. If two sources are allowed the
      one same destination they are wrong however arrays grow; if not, they are as intended when arrays
      grow exactly. */
  ghost predicate Promised(routes: seq<RouteWithBackends>, policies: seq<Policy>, growth: Growth, sidecars: Lists)
  {
    var hosts := HostsMap(routes);
    var accepted := AcceptedMap(hosts, policies);
    && (Safe(hosts, accepted) ==> AsIntended(routes, policies, sidecars))
    && (!Safe(hosts, accepted) && growth.Generous? && growth.room >= Bound(routes, policies) ==>
          !AsIntended(routes, policies, sidecars))
    && (OneDestinationTwice(accepted) ==> !AsIntended(routes, policies, sidecars))
    && (!OneDestinationTwice(accepted) && growth.Exact? ==> AsIntended(routes, policies, sidecars))
  }

  method CreateSidecarResources(routes: seq<RouteWithBackends>, policies: seq<Policy>, growth: Growth)
    returns (sidecars: Lists)
    ensures AreSources(routes, policies, sidecars.Keys)
    ensures Promised(routes, policies, growth, sidecars)
  {
    ghost var known := if growth.Generous? && growth.room < Bound(routes, policies) then Any else growth;
    var routeMap := BuildRouteMap(routes, growth, known);
    var policyMap := BuildPolicyMap(routes, policies, routeMap, growth, known);
    sidecars := Marshal(routes, policies, routeMap, policyMap, known);
    AsIntendedIff(routes, policies, sidecars);
    SidecarKeys(routes, policies, sidecars.Keys);
  }

  method Marshal(ghost routes: seq<RouteWithBackends>, ghost policies: seq<Policy>,
                 ghost routeMap: Slices, policyMap: Slices, ghost known: Growth)
    returns (sidecars: Lists)
    requires Linked(routes, AcceptedMap(HostsMap(routes), policies), routeMap, policyMap, known)
    modifies Arrays(policyMap)
    ensures var hosts := HostsMap(routes);
      var accepted := AcceptedMap(hosts, policies);
      && sidecars.Keys == accepted.Keys
      && (Safe(hosts, accepted) || (known.Exact? && !OneDestinationTwice(accepted)) ==>
            AsComputed(hosts, accepted, sidecars))
      && (Doomed(hosts, accepted, known) ==> !AsComputed(hosts, accepted, sidecars))
  {
    ghost var hosts := HostsMap(routes);
    ghost var accepted := AcceptedMap(hosts, policies);
    ghost var s, t, d: string := "", "", "";
    Lengths(routes, accepted, routeMap, policyMap, known);
    if Safe(hosts, accepted) || (known.Exact? && !OneDestinationTwice(accepted)) {
      SourcesApart(hosts, accepted, routeMap, policyMap, known);
    }
    if Doomed(hosts, accepted, known) {
      s, t, d := DoomedShare(hosts, accepted, routeMap, policyMap, known);
    }
    ghost var base := if s in policyMap then FirstLength(policyMap[s]) else 0;
    sidecars := MarshalSidecars(policyMap, s, t);
    if Doomed(hosts, accepted, known) {
      Wrong(hosts, accepted, s, t, d, base, sidecars);
    }
  }

  lemma Lengths(routes: seq<RouteWithBackends>, accepted: Lists,
                routeMap: Slices, policyMap: Slices, known: Growth)
    requires Linked(routes, accepted, routeMap, policyMap, known)
    ensures forall s | s in policyMap :: Valid(policyMap[s]) && policyMap[s].len > 0
    ensures Apart(routeMap)
  {
    forall s | s in policyMap ensures Valid(policyMap[s]) && policyMap[s].len > 0 {
      assert Holds(HostsMap(routes), accepted, routeMap, policyMap, s, known);
    }
  }

  /** A first host that was prefixed twice is too long. */
  lemma Wrong(hosts: Lists, accepted: Lists, s: string, t: string, d: string, base: nat, sidecars: Lists)
    requires s in sidecars && t in sidecars && s in accepted && t in accepted
    requires PrefixedTwice(base, sidecars[s], sidecars[t])
    requires ShareFirst(accepted, s, t) && accepted[s][0] == d
    requires d in hosts && hosts[d] != [] && base == |hosts[d][0]|
    ensures sidecars[s] != Prefixed(HostsOf(hosts, accepted[s])) || sidecars[t] != Prefixed(HostsOf(hosts, accepted[t]))
  {
    HostsOfFirst(hosts, accepted[s]);
    HostsOfFirst(hosts, accepted[t]);
  }

  /** In particular all is well when no two sources are first allowed the same destination. */
  lemma DistinctFirstsAreSafe(hosts: Lists, accepted: Lists)
    requires forall s, t | s in accepted && t in accepted :: !ShareFirst(accepted, s, t)
    ensures Safe(hosts, accepted)
  {
  }

  /** Two policies for one destination with an internal host make it so. */
  lemma TwoPoliciesOneDestination(route: RouteWithBackends, p: Policy, q: Policy)
    requires route.internal && p.source != q.source
    requires p.destination == route.capiProcessGUID == q.destination
    ensures OneDestinationTwice(AcceptedMap(HostsMap([route]), [p] + [q]))
  {
    var hosts := HostsMap([route]);
    assert [route][..0] == [];
    assert p.destination in hosts;
    var accepted := AcceptedMap(hosts, [p] + [q]);
    assert ([p] + [q])[..1] == [p] && [p][..0] == [];
    var first := AcceptedMap(hosts, [p]);
    assert AcceptedMap(hosts, []) == map[];
    assert first == Accept(hosts, map[], p);
    assert accepted == Accept(hosts, first, q);
    assert accepted[p.source] == [] + [p.destination] && accepted[q.source] == [] + [p.destination];
    SameOne(accepted, p.source, q.source);
  }
}
