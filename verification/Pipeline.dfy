/** The pipeline from end to end: what the virtual services made of a collected list promise. */
module Pipeline {
  import opened Models
  import opened Sequences
  import opened LeftoverWeights
  import opened Collector
  import opened WeightShares
  import opened VirtualServices
  import PathRouting
  import RouteMappings
  import CalculatedWeight
  import BulkSync

  /** r carries the address of route g. */
  predicate Carries(w: World, g: RouteGUID, r: RouteWithBackends)
  {
    && g in w.routes
    && r.hostname == HostOf(w, g) && r.path == w.routes[g].path && r.internal == w.routes[g].internal
  }

  lemma CollectedAddress(w: World, order: seq<string>, r: RouteWithBackends) returns (g: RouteGUID)
    requires Enumeration(w, order) && r in Collected(w, order)
    ensures Mapped(w, g) && Carries(w, g, r)
  {
    var k := CollectedFrom(w, order, r);
    g := w.mappings.repo[k].routeGUID;
    assert Mapped(w, g);
  }

  lemma CollectedHasBackends(w: World, order: seq<string>)
    requires Enumeration(w, order)
    ensures HasBackends(Collected(w, order))
  {
    forall r | r in Collected(w, order) ensures r.backends != [] { var k := CollectedFrom(w, order, r); }
  }

  /** The two keys of a mapped route are shared by the same mapped routes. */
  ghost predicate KeysAlike(w: World, g: RouteGUID)
    requires g in w.routes
  {
    forall h | Mapped(w, h) :: FullOf(w, h) == FullOf(w, g) <==> KeyOf(w, h) == KeyOf(w, g)
  }

  /** Then they group the collected routes alike. */
  lemma KeysAgree(w: World, order: seq<string>, g: RouteGUID)
    requires Enumeration(w, order) && g in w.routes && KeysAlike(w, g)
    ensures Sharing(Collected(w, order), FullOf(w, g)) == Group(Collected(w, order), KeyOf(w, g))
  {
    forall s | s in Collected(w, order) ensures HasFullRoute(FullOf(w, g))(s) == HasKey(KeyOf(w, g))(s) {
      var h := CollectedAddress(w, order, s);
    }
    FilterAgrees(Collected(w, order), HasFullRoute(FullOf(w, g)), HasKey(KeyOf(w, g)));
  }

  /** No mapped route of another host or flag has the host and path, without a separator, of one of
      this host and flag. */
  ghost predicate OwnAddresses(w: World, internal: bool, hostname: string)
  {
    forall g, h | Mapped(w, g) && Mapped(w, h) && IsAt(w, g, internal, hostname) && FullOf(w, h) == FullOf(w, g) ::
      IsAt(w, h, internal, hostname)
  }

  predicate IsAt(w: World, g: RouteGUID, internal: bool, hostname: string)
  {
    g in w.routes && HostOf(w, g) == hostname && w.routes[g].internal == internal
  }

  lemma CollectedOwnKeys(w: World, order: seq<string>, internal: bool, hostname: string)
    requires Enumeration(w, order) && OwnAddresses(w, internal, hostname)
    ensures PathRouting.OwnKeys(Collected(w, order), internal, hostname)
  {
    forall r, s | r in Collected(w, order) && s in Collected(w, order)
                  && PathRouting.At(r, internal, hostname) && FullRoute(s) == hostname + r.path
      ensures PathRouting.At(s, internal, hostname)
    {
      var g := CollectedAddress(w, order, r);
      var h := CollectedAddress(w, order, s);
      assert IsAt(w, g, internal, hostname) && FullOf(w, h) == FullOf(w, g);
    }
  }

  /** Whatever the enumeration, the virtual service of an external host serves every request by the
      longest collected path that is a prefix of it, the pathless routes being the last resort. */
  lemma CollectedLongestPrefix(w: World, order: seq<string>, hostname: string, request: string)
    requires Enumeration(w, order) && OwnAddresses(w, false, hostname)
    requires Filter(Collected(w, order), HasName(ServiceName(false, hostname))) != []
    ensures HasBackends(Collected(w, order))
    ensures PathRouting.ServedByLongestPath(Collected(w, order), false, hostname, request)
  {
    CollectedHasBackends(w, order);
    CollectedAscends(w, order);
    CollectedOwnKeys(w, order, false, hostname);
    PathRouting.LongestPrefixWins(Collected(w, order), hostname, request);
  }

  // ----- addresses that are told apart

  predicate ProperAddress(hostname: string, path: string)
  {
    '/' !in hostname && (path == "" || path[0] == '/')
  }

  predicate ProperRoute(w: World, g: RouteGUID)
  {
    g in w.routes && ProperAddress(HostOf(w, g), w.routes[g].path)
  }

  /** Proper addresses are told apart by host followed by path, without a separator. */
  lemma {:induction false} AddressSplit(a: string, b: string, c: string, d: string)
    requires ProperAddress(a, b) && ProperAddress(c, d)
    ensures a + b == c + d <==> a == c && b == d
  {
    if a == "" || c == "" {
      assert a != "" ==> a[0] in a && (a + b)[0] == a[0];
      assert c != "" ==> c[0] in c && (c + d)[0] == c[0];
      if a == "" { assert a + b == b; }
      if c == "" { assert c + d == d; }
    } else {
      AddressSplit(a[1..], b, c[1..], d);
      assert a + b == [a[0]] + (a[1..] + b) && c + d == [c[0]] + (c[1..] + d);
      assert (a + b)[1..] == a[1..] + b && (c + d)[1..] == c[1..] + d;
      assert a == [a[0]] + a[1..] && c == [c[0]] + c[1..];
    }
  }

  /** Two mapped routes with hosts without a slash, and paths that are empty or start with one, share
      a key, either key, if and only if they share their host and path. */
  lemma ProperKeys(w: World, g: RouteGUID, h: RouteGUID)
    requires ProperRoute(w, g) && ProperRoute(w, h)
    ensures FullOf(w, h) == FullOf(w, g) <==> HostOf(w, h) == HostOf(w, g) && w.routes[h].path == w.routes[g].path
    ensures KeyOf(w, h) == KeyOf(w, g) <==> HostOf(w, h) == HostOf(w, g) && w.routes[h].path == w.routes[g].path
  {
    AddressSplit(HostOf(w, h), w.routes[h].path, HostOf(w, g), w.routes[g].path);
    KeySplit(HostOf(w, h), w.routes[h].path, HostOf(w, g), w.routes[g].path);
  }

  // ----- weights

  function DestinationTotal(d: seq<Destination>): int
  {
    if d == [] then 0 else DestinationTotal(d[..|d| - 1]) + d[|d| - 1].weight
  }

  lemma {:induction false} DestinationTotalIsTotal(routes: Routes)
    requires HasBackends(routes)
    ensures DestinationTotal(Destinations(routes)) == Total(routes)
  {
    if routes != [] {
      DestinationTotalIsTotal(routes[..|routes| - 1]);
      assert Destinations(routes)[..|routes| - 1] == Destinations(routes[..|routes| - 1]);
    }
  }

  /** weight is within one of 100 times the mapping's weight over the denominator of its route. */
  predicate WithinOne(w: World, k: string, weight: int)
    requires k in w.mappings.repo
  {
    var rm := w.mappings.repo[k];
    var d: int := Denominator(w, rm.routeGUID);
    -d <= weight * d - 100 * rm.routeWeight <= d
  }

  lemma OnePointMore(c: int, d: int, weight: nat)
    requires 0 <= c <= 100 && d >= 0 && c * d <= 100 * weight <= (c + 1) * d
    ensures -d <= c * d - 100 * weight <= d
    ensures -d <= (c + 1) * d - 100 * weight <= d
    ensures WrapSigned(c + 1) == c + 1
  {
    assert (c + 1) * d == c * d + d;
  }

  // ----- the mappings behind an HTTP route

  /** k is the key of a mapping of g that has backends. */
  predicate IsBacked(w: World, g: RouteGUID, k: string)
  {
    k in w.mappings.repo && w.mappings.repo[k].routeGUID == g && Build(w, w.mappings.repo[k]).Some?
  }

  function BackedFor(w: World, g: RouteGUID): string -> bool
  {
    k => IsBacked(w, g, k)
  }

  function BackedKeys(w: World, g: RouteGUID): set<string>
  {
    set k | k in w.mappings.repo && IsBacked(w, g, k)
  }

  lemma {:induction false} GroupIsBuilt(w: World, order: seq<string>, g: RouteGUID)
    requires AreKeys(w, order) && Mapped(w, g) && OwnLeftovers(w, g)
    ensures var group, keys := Group(Built(w, order), KeyOf(w, g)), Filter(order, BackedFor(w, g));
      |keys| == |group| && forall i | 0 <= i < |group| :: BuildAt(w)(keys[i]) == Some(group[i])
  {
    if order != [] {
      var front, k := order[..|order| - 1], order[|order| - 1];
      assert forall j | j in front :: j in order;
      GroupIsBuilt(w, front, g);
      if Build(w, w.mappings.repo[k]).Some? {
        KeyIdentifies(w, k, g);
        FilterSnoc(Built(w, front), Build(w, w.mappings.repo[k]).value, HasKey(KeyOf(w, g)));
        assert Built(w, order) == Built(w, front) + [Build(w, w.mappings.repo[k]).value];
      } else {
        assert Built(w, order) == Built(w, front);
      }
    }
  }

  lemma BackedEnumerated(w: World, order: seq<string>, g: RouteGUID)
    requires Enumeration(w, order)
    ensures Enumerates(Filter(order, BackedFor(w, g)), BackedKeys(w, g))
  {
    FilterDistinct(order, BackedFor(w, g));
    FilterMembers(order, BackedFor(w, g));
  }

  /** The routes of the key of g, as collected, are built for the backed mappings of g, one for each. */
  lemma GroupKeys(w: World, order: seq<string>, g: RouteGUID) returns (keys: seq<string>)
    requires Enumeration(w, order) && Mapped(w, g) && OwnLeftovers(w, g)
    ensures Enumerates(keys, BackedKeys(w, g))
    ensures var group := Group(Collected(w, order), KeyOf(w, g));
      && |group| == |keys|
      && forall i | 0 <= i < |group| :: BuiltFor(w, keys[i], group[i])
  {
    var before, key := Ordered(Built(w, order)), KeyOf(w, g);
    GroupIsBuilt(w, order, g);
    BackedEnumerated(w, order, g);
    OrderedAscends(Built(w, order));
    FilterPermutation(before, Built(w, order), HasKey(key));
    keys := Relabel(Group(before, key), Group(Built(w, order), key), Filter(order, BackedFor(w, g)), BuildAt(w));
    PermutedEnumerates(Filter(order, BackedFor(w, g)), keys, BackedKeys(w, g));
    GroupAfterFix(before, key);
  }

  /** r is what is built for the mapping, or that with one more point. */
  predicate BuiltFor(w: World, k: string, r: RouteWithBackends)
  {
    && k in w.mappings.repo && Build(w, w.mappings.repo[k]).Some?
    && var b := Build(w, w.mappings.repo[k]).value; r == b || r == Heavier(b)
  }

  lemma FinalWeight(w: World, g: RouteGUID, k: string, r: RouteWithBackends)
    requires GoodDenominator(w, g) && IsBacked(w, g, k) && BuiltFor(w, k, r)
    ensures WithinOne(w, k, r.routeWeight)
  {
    ShareInterval(w, k, g);
    OnePointMore(Percentage(w, w.mappings.repo[k]), Denominator(w, g), w.mappings.repo[k].routeWeight);
  }

  /** The HTTP route has the key of one mapped route. */
  lemma HTTPRouteOf(w: World, order: seq<string>, name: string, t: nat) returns (g: RouteGUID)
    requires Enumeration(w, order)
    requires Filter(Collected(w, order), HasName(name)) != []
    requires t < |Firsts(Collected(w, order), name)|
    ensures HasBackends(Collected(w, order)) && Mapped(w, g) && Carries(w, g, Firsts(Collected(w, order), name)[t])
    ensures HasBackends(Sharing(Collected(w, order), FullOf(w, g)))
    ensures ServiceOf(Collected(w, order), name).http[t].route ==
            Destinations(Sharing(Collected(w, order), FullOf(w, g)))
    ensures Sharing(Collected(w, order), FullOf(w, g)) != []
  {
    var routes := Collected(w, order);
    CollectedHasBackends(w, order);
    var f := Firsts(routes, name)[t];
    assert f in Firsts(routes, name);
    PathRouting.FirstsAreRoutes(routes, name);
    FirstsLead(routes, name);
    g := CollectedAddress(w, order, f);
    PathRouting.SharingMembers(routes, FullRoute(f));
    assert f in Sharing(routes, FullRoute(f));
  }

  /** The port is the container port of the first backend that the processes of the mapping store. */
  ghost predicate GoesToLowest(w: World, k: string, internal: bool, port: uint32)
    requires k in w.mappings.repo
  {
    var process := w.mappings.repo[k].capiProcessGUID;
    && process in w.associations
    && exists b :: IsLowest(w.content, w.associations[process], internal, b) && b.containerPort == port
  }

  /** The destinations stand for the mappings, one for one, and go to the host of their route g and to
      the container port of a lowest address. */
  ghost predicate StandFor(w: World, g: RouteGUID, keys: seq<string>, d: seq<Destination>)
  {
    && |d| == |keys|
    && forall i | 0 <= i < |d| ::
         && IsBacked(w, g, keys[i])
         && d[i].subset == w.mappings.repo[keys[i]].capiProcessGUID
         && g in w.routes && d[i].host == HostOf(w, g)
         && GoesToLowest(w, keys[i], w.routes[g].internal, d[i].port)
  }

  /** The weights sum to at most 100, to exactly 100 when every mapping of g has backends, and each is
      within one of the exact share of its mapping. */
  ghost predicate FairlyWeighted(w: World, g: RouteGUID, keys: seq<string>, d: seq<Destination>)
    requires StandFor(w, g, keys, d)
  {
    && 0 <= DestinationTotal(d) <= 100
    && (AllBacked(w, g) ==> DestinationTotal(d) == 100)
    && forall i | 0 <= i < |d| :: WithinOne(w, keys[i], d[i].weight)
  }

  lemma LowestBackend(w: World, g: RouteGUID, k: string, r: RouteWithBackends)
    requires IsBacked(w, g, k) && BuiltFor(w, k, r)
    ensures g in w.routes && r.backends != []
    ensures GoesToLowest(w, k, w.routes[g].internal, r.backends[0].containerPort)
  {
    BuildJoins(w, w.mappings.repo[k]);
    var process := w.mappings.repo[k].capiProcessGUID;
    FirstIsLowest(w.content, w.associations[process], w.routes[g].internal, r.backends);
  }

  lemma MembersStandFor(w: World, g: RouteGUID, keys: seq<string>, group: Routes)
    requires HasBackends(group) && |group| == |keys| && g in w.routes
    requires forall i | 0 <= i < |group| :: IsBacked(w, g, keys[i]) && BuiltFor(w, keys[i], group[i])
    ensures StandFor(w, g, keys, Destinations(group))
  {
    forall i | 0 <= i < |group|
      ensures GoesToLowest(w, keys[i], w.routes[g].internal, group[i].backends[0].containerPort)
    {
      LowestBackend(w, g, keys[i], group[i]);
    }
  }

  lemma GroupStandsFor(w: World, order: seq<string>, g: RouteGUID) returns (keys: seq<string>)
    requires Enumeration(w, order) && Mapped(w, g) && OwnLeftovers(w, g)
    requires HasBackends(Group(Collected(w, order), KeyOf(w, g)))
    ensures Enumerates(keys, BackedKeys(w, g))
    ensures var d := Destinations(Group(Collected(w, order), KeyOf(w, g)));
      StandFor(w, g, keys, d) && (GoodDenominator(w, g) ==> FairlyWeighted(w, g, keys, d))
  {
    keys := GroupKeys(w, order, g);
    var group := Group(Collected(w, order), KeyOf(w, g));
    forall i | 0 <= i < |group| ensures IsBacked(w, g, keys[i]) && BuiltFor(w, keys[i], group[i]) {
      assert keys[i] in keys;
    }
    MembersStandFor(w, g, keys, group);
    if GoodDenominator(w, g) {
      DestinationTotalIsTotal(group);
      GroupShares(w, order, g);
      forall i | 0 <= i < |group| ensures WithinOne(w, keys[i], group[i].routeWeight) {
        FinalWeight(w, g, keys[i], group[i]);
      }
    }
  }

  /** Each HTTP route of each virtual service carries the address of a mapped route g. If g has its two
      keys to itself, the destinations stand one for one for the mappings of g that have backends, and
      are fairly weighted if the denominator of g is good. */
  lemma HTTPRouteWeights(w: World, order: seq<string>, name: string, t: nat)
    returns (g: RouteGUID, keys: seq<string>)
    requires Enumeration(w, order)
    requires Filter(Collected(w, order), HasName(name)) != []
    requires t < |Firsts(Collected(w, order), name)|
    ensures HasBackends(Collected(w, order)) && Mapped(w, g) && Carries(w, g, Firsts(Collected(w, order), name)[t])
    ensures OwnLeftovers(w, g) && OwnHTTPRoute(w, g) ==>
      var d := ServiceOf(Collected(w, order), name).http[t].route;
      && Enumerates(keys, BackedKeys(w, g)) && keys != []
      && StandFor(w, g, keys, d) && (GoodDenominator(w, g) ==> FairlyWeighted(w, g, keys, d))
  {
    g := HTTPRouteOf(w, order, name, t);
    keys := [];
    if OwnLeftovers(w, g) && OwnHTTPRoute(w, g) {
      KeysAgree(w, order, g);
      keys := GroupStandsFor(w, order, g);
    }
  }

  // ----- where good denominators come from

  /** What a route's weights must satisfy besides: they do not overflow uint32, and no percentage is
      rounded over an integer. */
  ghost predicate SoundWeights(repo: Mappings, g: RouteGUID)
  {
    && 0 < RouteMappings.StoredWeight(repo, g) < MOD32
    && forall k | k in repo && repo[k].routeGUID == g ::
         repo[k].routeWeight <= 128 || RouteMappings.StoredWeight(repo, g) <= CalculatedWeight.MAX_DENOMINATOR
  }

  lemma ExactIsGood(w: World, g: RouteGUID)
    requires RouteMappings.DenominatorsExact(w.mappings) && SoundWeights(w.mappings.repo, g)
    ensures GoodDenominator(w, g)
  {
    assert Denominator(w, g) == Wrap(RouteMappings.StoredWeight(w.mappings.repo, g));
  }

  /** Mappings that come from a disciplined run of the repository have good denominators. */
  lemma DisciplinedRunIsGood(w: World, ops: seq<RouteMappings.Op>, g: RouteGUID)
    requires w.mappings == RouteMappings.Run(ops) && RouteMappings.Disciplined(ops)
    requires SoundWeights(w.mappings.repo, g)
    ensures GoodDenominator(w, g)
  {
    RouteMappings.DenominatorInvariant(ops);
    ExactIsGood(w, g);
  }

  /** So do those that a bulk sync leaves, if what its mappings overwrite is worth nothing. */
  lemma SyncedIsGood(w: World, request: BulkSync.Request, g: RouteGUID)
    requires w.mappings == BulkSync.Replayed(request).mappings
    requires RouteMappings.SyncKeeps(BulkSync.Mappings(request))
    requires SoundWeights(w.mappings.repo, g)
    ensures GoodDenominator(w, g)
  {
    BulkSync.SyncedDenominators(request);
    ExactIsGood(w, g);
  }
}
