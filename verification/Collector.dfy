/** routes/routes.go: Collect joins the four repositories into the list of routes with backends. */
module Collector {
  import opened Models
  import opened Sequences
  import opened Sorting
  import opened LeftoverWeights
  import RouteMappings
  import RouteIndex
  import Associations
  import BackendStore
  import opened GoSlices

  /** What the collector reads; the repositories do not change during one Collect. */
  datatype World = World(
    routes: map<RouteGUID, Route>,
    mappings: RouteMappings.State,
    associations: Associations.Repo,
    content: BackendStore.Content,
    lower: string -> string,
    undefinedConversion: (uint32, uint32) -> int32)

  predicate AddressLess(a: Backend, b: Backend) { StringLess(a.address, b.address) }

  predicate ShorterPath(a: RouteWithBackends, b: RouteWithBackends) { |a.path| < |b.path| }

  predicate EarlierProcess(a: RouteWithBackends, b: RouteWithBackends)
  {
    StringLess(a.capiProcessGUID, b.capiProcessGUID)
  }

  predicate HasPath(r: RouteWithBackends) { r.path != "" }

  predicate HasNoPath(r: RouteWithBackends) { r.path == "" }

  predicate AreKeys(w: World, order: seq<string>)
  {
    forall k | k in order :: k in w.mappings.repo
  }

  /** order is one in which Go may enumerate the mappings. */
  ghost predicate Enumeration(w: World, order: seq<string>)
  {
    Enumerates(order, w.mappings.repo.Keys)
  }

  // ----- the result, as a function of the order in which Go enumerates the mappings

  /** The backends of the processes in order, as the store lists them. */
  function BackendsOf(content: BackendStore.Content, guids: seq<DiegoProcessGUID>, internal: bool): seq<Backend>
  {
    if guids == [] then []
    else BackendsOf(content, guids[..|guids| - 1], internal)
         + BackendStore.Lookup(content, guids[|guids| - 1], internal)
  }

  function Percentage(w: World, rm: RouteMapping): int32
  {
    RouteMappings.CalculatedPercentage(
      rm.routeWeight, RouteMappings.Lookup(w.mappings.denominators, rm.routeGUID), w.undefinedConversion)
  }

  /** The route built for a mapping; None without route, association or backends. */
  function Build(w: World, rm: RouteMapping): Option<RouteWithBackends>
  {
    if rm.routeGUID !in w.routes || rm.capiProcessGUID !in w.associations then None
    else
      var route := w.routes[rm.routeGUID];
      var backends := BackendsOf(w.content, w.associations[rm.capiProcessGUID], route.internal);
      if backends == [] then None
      else Some(RouteWithBackends(
                  w.lower(route.host), route.path, StableSort(backends, AddressLess),
                  rm.capiProcessGUID, Percentage(w, rm), route.internal, route.vip))
  }

  function Built(w: World, order: seq<string>): Routes
    requires AreKeys(w, order)
  {
    if order == [] then []
    else
      var front, last := Built(w, order[..|order| - 1]), Build(w, w.mappings.repo[order[|order| - 1]]);
      if last.Some? then front + [last.value] else front
  }

  function IfAny(r: Option<RouteWithBackends>): Routes
  {
    if r.Some? then [r.value] else []
  }

  lemma BuiltNext(w: World, order: seq<string>, k: string)
    requires AreKeys(w, order) && k in w.mappings.repo
    ensures AreKeys(w, order + [k])
    ensures Built(w, order + [k]) == Built(w, order) + IfAny(Build(w, w.mappings.repo[k]))
  {
    assert (order + [k])[..|order + [k]| - 1] == order;
  }

  /** Path routes by path length, then pathless routes by process GUID. */
  function Ordered(built: Routes): Routes
  {
    StableSort(Filter(built, HasPath), ShorterPath) + StableSort(Filter(built, HasNoPath), EarlierProcess)
  }

  function Collected(w: World, order: seq<string>): Routes
    requires AreKeys(w, order)
  {
    FixedWeights(Ordered(Built(w, order)))
  }

  /** order lists what of all is no longer left. */
  ghost predicate Visited(order: seq<string>, all: set<string>, left: set<string>)
  {
    Distinct(order) && forall k :: k in order <==> k in all && k !in left
  }

  lemma VisitedNext(order: seq<string>, all: set<string>, left: set<string>, k: string)
    requires Visited(order, all, left) && k in left && k in all
    ensures Visited(order + [k], all, left - {k})
  {
  }

  /** Appends the route, if there is one, to the slice of its kind. */
  method Divide(r: Option<RouteWithBackends>,
                withPath: Slice<RouteWithBackends>, withoutPath: Slice<RouteWithBackends>,
                ghost before: Routes)
    returns (withPath': Slice<RouteWithBackends>, withoutPath': Slice<RouteWithBackends>)
    requires HoldsList(withPath, Filter(before, HasPath)) && HoldsList(withoutPath, Filter(before, HasNoPath))
    requires withPath.backing != withoutPath.backing
    modifies withPath.backing, withoutPath.backing
    ensures HoldsList(withPath', Filter(before + IfAny(r), HasPath))
    ensures HoldsList(withoutPath', Filter(before + IfAny(r), HasNoPath))
    ensures withPath'.backing != withoutPath'.backing
    ensures withPath'.backing == withPath.backing || fresh(withPath'.backing)
    ensures withoutPath'.backing == withoutPath.backing || fresh(withoutPath'.backing)
  {
    withPath', withoutPath' := withPath, withoutPath;
    assert before + [] == before;
    if r == None { return; }
    FilterSnoc(before, r.value, HasPath);
    FilterSnoc(before, r.value, HasNoPath);
    if r.value.path != "" {
      withPath' := Append(withPath, [r.value], Any);
    } else {
      withoutPath' := Append(withoutPath, [r.value], Any);
    }
  }

  /** Sorts both slices in place and joins them. */
  method Join(withPath: Slice<RouteWithBackends>, withoutPath: Slice<RouteWithBackends>, ghost built: Routes)
    returns (all: Slice<RouteWithBackends>)
    requires HoldsList(withPath, Filter(built, HasPath)) && HoldsList(withoutPath, Filter(built, HasNoPath))
    requires withPath.backing != withoutPath.backing
    modifies withPath.backing, withoutPath.backing
    ensures HoldsList(all, Ordered(built))
  {
    SliceStable(withPath.backing, withPath.len, ShorterPath);
    SliceStable(withoutPath.backing, withoutPath.len, EarlierProcess);
    all := Append(withPath, withoutPath.backing[..withoutPath.len], Any);
  }

  method Fix(all: Slice<RouteWithBackends>) returns (routes: Routes)
    requires Valid(all)
    ensures routes == FixedWeights(Contents(all))
  {
    var slice := new RouteWithBackends[all.len](i requires 0 <= i < all.len reads all.backing => all.backing[i]);
    assert slice[..] == Contents(all);
    FixRouteWeights(slice);
    routes := slice[..];
  }

  class RouteCollector {
    const routesRepo: RouteIndex.RoutesRepo
    const routeMappings: RouteMappings.RouteMappingsRepo
    const capiDiego: Associations.AssociationsRepo
    const backendSet: BackendStore.DiegoBackendSetRepo
    const lower: string -> string

    constructor (rr: RouteIndex.RoutesRepo, rm: RouteMappings.RouteMappingsRepo,
                 cd: Associations.AssociationsRepo, bs: BackendStore.DiegoBackendSetRepo,
                 lower: string -> string)
      ensures routesRepo == rr && routeMappings == rm && capiDiego == cd && backendSet == bs
      ensures this.lower == lower
    {
      routesRepo, routeMappings, capiDiego, backendSet := rr, rm, cd, bs;
      this.lower := lower;
    }

    ghost function Sees(): World
      reads routesRepo, routeMappings, capiDiego, backendSet, backendSet.store
    {
      World(routesRepo.repo, routeMappings.Contents(), capiDiego.repo, backendSet.store.value,
            lower, routeMappings.undefinedConversion)
    }

    /** The loop over the mappings, in the order in which Go enumerates them. */
    method BuildRoutes() returns (withPath: Slice<RouteWithBackends>, withoutPath: Slice<RouteWithBackends>,
                                  ghost order: seq<string>)
      requires backendSet.Valid()
      ensures Enumerates(order, routeMappings.repo.Keys)
      ensures HoldsList(withPath, Filter(Built(Sees(), order), HasPath))
      ensures HoldsList(withoutPath, Filter(Built(Sees(), order), HasNoPath))
      ensures fresh(withPath.backing) && fresh(withoutPath.backing) && withPath.backing != withoutPath.backing
    {
      ghost var w := Sees();
      var none, nothing := new RouteWithBackends[0], new RouteWithBackends[0];
      withPath, withoutPath := Slice(none, 0), Slice(nothing, 0);
      var list := routeMappings.List();
      var left := list.Keys;
      order := [];
      ghost var built: Routes := [];
      while left != {}
        invariant left <= list.Keys && list == w.mappings.repo && backendSet.Valid() && w == Sees()
        invariant Visited(order, list.Keys, left) && built == Built(w, order)
        invariant HoldsList(withPath, Filter(built, HasPath)) && HoldsList(withoutPath, Filter(built, HasNoPath))
        invariant fresh(withPath.backing) && fresh(withoutPath.backing) && withPath.backing != withoutPath.backing
        decreases left
      {
        var key :| key in left;
        BuiltNext(w, order, key);
        VisitedNext(order, list.Keys, left, key);
        left := left - {key};
        order := order + [key];
        withPath, withoutPath := BuildInto(list[key], withPath, withoutPath, w, built);
        built := Built(w, order);
      }
    }

    /** Appends what is built for the mapping to the slice of its kind. */
    method BuildInto(routeMapping: RouteMapping,
                     withPath: Slice<RouteWithBackends>, withoutPath: Slice<RouteWithBackends>,
                     ghost w: World, ghost before: Routes)
      returns (withPath': Slice<RouteWithBackends>, withoutPath': Slice<RouteWithBackends>)
      requires backendSet.Valid() && w == Sees() && withPath.backing != withoutPath.backing
      requires HoldsList(withPath, Filter(before, HasPath)) && HoldsList(withoutPath, Filter(before, HasNoPath))
      modifies withPath.backing, withoutPath.backing
      ensures backendSet.Valid() && w == Sees() && withPath'.backing != withoutPath'.backing
      ensures HoldsList(withPath', Filter(before + IfAny(Build(w, routeMapping)), HasPath))
      ensures HoldsList(withoutPath', Filter(before + IfAny(Build(w, routeMapping)), HasNoPath))
      ensures withPath'.backing == withPath.backing || fresh(withPath'.backing)
      ensures withoutPath'.backing == withoutPath.backing || fresh(withoutPath'.backing)
    {
      var builtRoute := BuildRoute(routeMapping);
      withPath', withoutPath' := Divide(builtRoute, withPath, withoutPath, before);
    }

    /** Changes no repository: the backends it sorts, in place, are in arrays of its own, and those of
        the store still hold the lists they held. */
    method Collect() returns (routes: Routes)
      requires backendSet.Valid()
      ensures exists order :: Enumerates(order, routeMappings.repo.Keys) && routes == Collected(Sees(), order)
      ensures backendSet.Valid() && unchanged(backendSet.store, backendSet.store.owners.Keys)
    {
      var withPath, withoutPath;
      ghost var order;
      withPath, withoutPath, order := BuildRoutes();
      var all := Join(withPath, withoutPath, Built(Sees(), order));
      routes := Fix(all);
      assert routes == Collected(Sees(), order);
    }

    /** The backends of the processes, appended to one slice; the arrays of the store are only read. */
    method GatherBackends(guids: seq<DiegoProcessGUID>, internal: bool) returns (backends: Slice<Backend>)
      requires backendSet.Valid()
      ensures fresh(backends.backing)
      ensures HoldsList(backends, BackendsOf(backendSet.store.value, guids, internal))
      ensures backendSet.Valid() && unchanged(backendSet.store, backendSet.store.owners.Keys)
    {
      var none := new Backend[0];
      backends := Slice(none, 0);
      for i := 0 to |guids|
        invariant fresh(backends.backing)
        invariant HoldsList(backends, BackendsOf(backendSet.store.value, guids[..i], internal))
      {
        var backendSlice: Slice<Backend>;
        if internal {
          backendSlice := backendSet.GetInternalBackends(guids[i]);
        } else {
          backendSlice := backendSet.Get(guids[i]);
        }
        backends := Append(backends, backendSlice.backing[..backendSlice.len], Any);
        assert guids[..i + 1][..i] == guids[..i];
      }
      assert guids[..|guids|] == guids;
    }

    /** The body of the loop over the mappings. */
    method BuildRoute(routeMapping: RouteMapping) returns (built: Option<RouteWithBackends>)
      requires backendSet.Valid()
      ensures built == Build(Sees(), routeMapping)
      ensures backendSet.Valid() && unchanged(backendSet.store, backendSet.store.owners.Keys)
    {
      var found := routesRepo.Get(routeMapping.routeGUID);
      if found == None { return None; }
      var route := found.value;
      var association := capiDiego.Get(routeMapping.capiProcessGUID);
      if association == None { return None; }
      var backends := GatherBackends(association.value, route.internal);
      if backends.len == 0 { return None; }
      SliceStable(backends.backing, backends.len, AddressLess);
      return Some(RouteWithBackends(
                    lower(route.host), route.path, backends.backing[..backends.len],
                    routeMapping.capiProcessGUID, routeMappings.GetCalculatedWeight(routeMapping),
                    route.internal, route.vip));
    }
  }

  // ----- the three orders

  lemma AddressOrder()
    ensures WeakOrder(AddressLess)
  {
    forall x: Backend ensures !AddressLess(x, x) { StringLessIrreflexive(x.address); }
    forall x: Backend, y: Backend, z: Backend | AddressLess(x, y) && AddressLess(y, z) ensures AddressLess(x, z) {
      StringLessTransitive(x.address, y.address, z.address);
    }
    forall x: Backend, y: Backend, z: Backend | !AddressLess(x, y) && !AddressLess(y, z) ensures !AddressLess(x, z) {
      NotLessTransitive(x.address, y.address, z.address);
    }
  }

  lemma ProcessOrder()
    ensures WeakOrder(EarlierProcess)
  {
    forall x: RouteWithBackends ensures !EarlierProcess(x, x) { StringLessIrreflexive(x.capiProcessGUID); }
    forall x: RouteWithBackends, y: RouteWithBackends, z: RouteWithBackends
      | EarlierProcess(x, y) && EarlierProcess(y, z) ensures EarlierProcess(x, z)
    {
      StringLessTransitive(x.capiProcessGUID, y.capiProcessGUID, z.capiProcessGUID);
    }
    forall x: RouteWithBackends, y: RouteWithBackends, z: RouteWithBackends
      | !EarlierProcess(x, y) && !EarlierProcess(y, z) ensures !EarlierProcess(x, z)
    {
      NotLessTransitive(x.capiProcessGUID, y.capiProcessGUID, z.capiProcessGUID);
    }
  }

  lemma PathOrder()
    ensures WeakOrder(ShorterPath)
  {
  }

  // ----- what holds of every collected list

  function AtAddress(address: string): Backend -> bool
  {
    (b: Backend) => b.address == address
  }

  /** What the processes store at one address, process after process, each in the order of its list. */
  function StoredAt(content: BackendStore.Content, guids: seq<DiegoProcessGUID>, internal: bool, address: string)
    : seq<Backend>
  {
    if guids == [] then []
    else StoredAt(content, guids[..|guids| - 1], internal, address)
         + Filter(BackendStore.Lookup(content, guids[|guids| - 1], internal), AtAddress(address))
  }

  /** How often a process stores b. */
  ghost function Copies(content: BackendStore.Content, internal: bool, b: Backend): DiegoProcessGUID -> int
  {
    d => multiset(BackendStore.Lookup(content, d, internal))[b]
  }

  /** The list has every backend that any of the processes stores, as often as all of them together
      store it, in the order of the addresses; those of one address follow the order of the processes
      and then that of the store. */
  ghost predicate Gathers(content: BackendStore.Content, guids: seq<DiegoProcessGUID>, internal: bool,
                          list: seq<Backend>)
  {
    && (forall d, b | d in guids && b in BackendStore.Lookup(content, d, internal) :: b in list)
    && (forall b :: multiset(list)[b] == Sum(guids, Copies(content, internal, b)))
    && (forall i, j | 0 <= i < j < |list| :: !StringLess(list[j].address, list[i].address))
    && (forall address :: Filter(list, AtAddress(address)) == StoredAt(content, guids, internal, address))
  }

  /** b comes first among the backends that the processes store: no address is lower, and it is the first
      at its own. */
  ghost predicate IsLowest(content: BackendStore.Content, guids: seq<DiegoProcessGUID>, internal: bool, b: Backend)
  {
    && StoredAt(content, guids, internal, b.address) != []
    && StoredAt(content, guids, internal, b.address)[0] == b
    && forall d, c | d in guids && c in BackendStore.Lookup(content, d, internal) :: !StringLess(c.address, b.address)
  }

  lemma FirstIsLowest(content: BackendStore.Content, guids: seq<DiegoProcessGUID>, internal: bool, list: seq<Backend>)
    requires Gathers(content, guids, internal, list) && list != []
    ensures IsLowest(content, guids, internal, list[0])
  {
    FilterFirst(list, AtAddress(list[0].address));
    forall d, c | d in guids && c in BackendStore.Lookup(content, d, internal)
      ensures !StringLess(c.address, list[0].address)
    {
      assert c in list;
      var i :| 0 <= i < |list| && list[i] == c;
      StringLessIrreflexive(c.address);
    }
  }

  lemma {:induction false} GatheredCopies(content: BackendStore.Content, guids: seq<DiegoProcessGUID>, internal: bool,
                                          b: Backend)
    ensures multiset(BackendsOf(content, guids, internal))[b] == Sum(guids, Copies(content, internal, b))
  {
    if guids != [] { GatheredCopies(content, guids[..|guids| - 1], internal, b); }
  }

  lemma {:induction false} GatheredAt(content: BackendStore.Content, guids: seq<DiegoProcessGUID>, internal: bool,
                                      address: string)
    ensures Filter(BackendsOf(content, guids, internal), AtAddress(address))
         == StoredAt(content, guids, internal, address)
  {
    if guids != [] {
      var front, last := guids[..|guids| - 1], guids[|guids| - 1];
      GatheredAt(content, front, internal, address);
      FilterConcat(BackendsOf(content, front, internal), BackendStore.Lookup(content, last, internal),
                   AtAddress(address));
    }
  }

  lemma {:induction false} GatheredAll(content: BackendStore.Content, guids: seq<DiegoProcessGUID>, internal: bool)
    ensures forall d, b | d in guids && b in BackendStore.Lookup(content, d, internal) ::
      b in BackendsOf(content, guids, internal)
    ensures forall b | b in BackendsOf(content, guids, internal) ::
      exists d | d in guids :: b in BackendStore.Lookup(content, d, internal)
  {
    if guids != [] {
      GatheredAll(content, guids[..|guids| - 1], internal);
      assert guids == guids[..|guids| - 1] + [guids[|guids| - 1]];
    }
  }

  /** Before they are sorted, the lists of the processes follow one another in the order of the GUIDs. */
  lemma {:induction false} GatheredInOrder(content: BackendStore.Content, guids: seq<DiegoProcessGUID>, internal: bool,
                                           i: nat)
    requires i < |guids|
    ensures BackendsOf(content, guids, internal)
         == BackendsOf(content, guids[..i], internal) + BackendStore.Lookup(content, guids[i], internal)
            + BackendsOf(content, guids[i + 1..], internal)
  {
    var n := |guids| - 1;
    if i == n {
      assert guids[i + 1..] == [];
    } else {
      var front, rest := guids[..n], guids[i + 1..];
      GatheredInOrder(content, front, internal, i);
      assert front[..i] == guids[..i] && front[i] == guids[i];
      assert rest[..|rest| - 1] == front[i + 1..] && rest[|rest| - 1] == guids[n];
      assert BackendsOf(content, rest, internal)
          == BackendsOf(content, front[i + 1..], internal) + BackendStore.Lookup(content, guids[n], internal);
    }
  }

  lemma SortedSame(all: seq<Backend>)
    ensures multiset(StableSort(all, AddressLess)) == multiset(all)
    ensures forall b :: b in StableSort(all, AddressLess) <==> b in all
    ensures var list := StableSort(all, AddressLess);
      forall i, j | 0 <= i < j < |list| :: !StringLess(list[j].address, list[i].address)
  {
    AddressOrder();
    StableSortSorts(all, AddressLess);
    var list := StableSort(all, AddressLess);
    forall b ensures b in list <==> b in all { assert b in multiset(list) <==> b in multiset(all); }
    forall i, j | 0 <= i < j < |list| ensures !StringLess(list[j].address, list[i].address) {
      assert !AddressLess(list[j], list[i]);
    }
  }

  lemma SortedGathers(content: BackendStore.Content, guids: seq<DiegoProcessGUID>, internal: bool)
    ensures Gathers(content, guids, internal, StableSort(BackendsOf(content, guids, internal), AddressLess))
  {
    var all := BackendsOf(content, guids, internal);
    SortedSame(all);
    GatheredAll(content, guids, internal);
    forall b ensures multiset(all)[b] == Sum(guids, Copies(content, internal, b)) {
      GatheredCopies(content, guids, internal, b);
    }
    forall address
      ensures Filter(StableSort(all, AddressLess), AtAddress(address)) == StoredAt(content, guids, internal, address)
    {
      SortedAtAddress(all, address);
      GatheredAt(content, guids, internal, address);
    }
  }

  lemma SortedAtAddress(all: seq<Backend>, address: string)
    ensures Filter(StableSort(all, AddressLess), AtAddress(address)) == Filter(all, AtAddress(address))
  {
    AddressOrder();
    StableSortSorts(all, AddressLess);
    var x := Backend(address, 0, 0);
    assert Ties(StableSort(all, AddressLess), x, AddressLess) == Ties(all, x, AddressLess);
    forall b: Backend ensures TiedWith(x, AddressLess)(b) == AtAddress(address)(b) {
      StringLessTotal(address, b.address);
    }
    FilterAgrees(all, TiedWith(x, AddressLess), AtAddress(address));
    FilterAgrees(StableSort(all, AddressLess), TiedWith(x, AddressLess), AtAddress(address));
  }

  // ----- the collected list as a join of the four repositories

  /** The mapping has a route, an association and, on the network of the route, a stored backend. */
  ghost predicate Joinable(w: World, rm: RouteMapping)
  {
    && rm.routeGUID in w.routes && rm.capiProcessGUID in w.associations
    && exists d | d in w.associations[rm.capiProcessGUID] ::
         BackendStore.Lookup(w.content, d, w.routes[rm.routeGUID].internal) != []
  }

  /** r is what the mapping stands for, its weight aside. */
  ghost predicate Joins(w: World, rm: RouteMapping, r: RouteWithBackends)
  {
    && rm.routeGUID in w.routes && rm.capiProcessGUID in w.associations
    && r.hostname == w.lower(w.routes[rm.routeGUID].host)
    && r.path == w.routes[rm.routeGUID].path
    && r.internal == w.routes[rm.routeGUID].internal
    && r.vip == w.routes[rm.routeGUID].vip
    && r.capiProcessGUID == rm.capiProcessGUID
    && r.backends != []
    && Gathers(w.content, w.associations[rm.capiProcessGUID], w.routes[rm.routeGUID].internal, r.backends)
  }

  lemma SomeGathered(content: BackendStore.Content, guids: seq<DiegoProcessGUID>, internal: bool)
    ensures BackendsOf(content, guids, internal) != [] <==>
            exists d | d in guids :: BackendStore.Lookup(content, d, internal) != []
  {
    GatheredAll(content, guids, internal);
    if BackendsOf(content, guids, internal) != [] {
      var b := BackendsOf(content, guids, internal)[0];
      assert b in BackendsOf(content, guids, internal);
      var d :| d in guids && b in BackendStore.Lookup(content, d, internal);
      assert BackendStore.Lookup(content, d, internal) != [];
    }
    if d :| d in guids && BackendStore.Lookup(content, d, internal) != [] {
      var b := BackendStore.Lookup(content, d, internal)[0];
      assert b in BackendStore.Lookup(content, d, internal);
    }
  }

  /** A route is built exactly for the mappings that can be joined, and it is what they stand for. */
  lemma BuildJoins(w: World, rm: RouteMapping)
    ensures Build(w, rm).Some? <==> Joinable(w, rm)
    ensures Build(w, rm).Some? ==>
      Joins(w, rm, Build(w, rm).value) && Build(w, rm).value.routeWeight == Percentage(w, rm)
  {
    if rm.routeGUID in w.routes && rm.capiProcessGUID in w.associations {
      var guids, internal := w.associations[rm.capiProcessGUID], w.routes[rm.routeGUID].internal;
      SomeGathered(w.content, guids, internal);
      SortedGathers(w.content, guids, internal);
    }
  }

  /** Path routes come shortest first. */
  predicate PathsAscend(routes: Routes)
  {
    forall i, j | 0 <= i < j < |routes| && routes[j].path != "" ::
      routes[i].path != "" && |routes[i].path| <= |routes[j].path|
  }

  /** Pathless routes come in the order of their process GUIDs. */
  predicate ProcessesAscend(routes: Routes)
  {
    forall i, j | 0 <= i < j < |routes| && routes[i].path == "" ::
      routes[j].path == "" && !StringLess(routes[j].capiProcessGUID, routes[i].capiProcessGUID)
  }

  lemma OrderedAscends(built: Routes)
    ensures PathsAscend(Ordered(built)) && ProcessesAscend(Ordered(built))
    ensures multiset(Ordered(built)) == multiset(built)
  {
    var a, b := Filter(built, HasPath), Filter(built, HasNoPath);
    PathOrder();
    ProcessOrder();
    StableSortSorts(a, ShorterPath);
    StableSortSorts(b, EarlierProcess);
    FilterMembers(built, HasPath);
    FilterMembers(built, HasNoPath);
    var x, y := StableSort(a, ShorterPath), StableSort(b, EarlierProcess);
    forall i | 0 <= i < |x| ensures x[i].path != "" {
      assert x[i] in multiset(x) && x[i] in a && HasPath(x[i]);
    }
    forall i | 0 <= i < |y| ensures y[i].path == "" {
      assert y[i] in multiset(y) && y[i] in b && HasNoPath(y[i]);
    }
    Partition(built);
  }

  lemma {:induction false} Partition(s: Routes)
    ensures multiset(Filter(s, HasPath)) + multiset(Filter(s, HasNoPath)) == multiset(s)
  {
    if s != [] {
      Partition(s[..|s| - 1]);
      assert s == s[..|s| - 1] + [s[|s| - 1]];
    }
  }

  lemma {:induction false} BuiltFrom(w: World, order: seq<string>, r: RouteWithBackends) returns (k: string)
    requires AreKeys(w, order)
    requires r in Built(w, order)
    ensures k in order && Build(w, w.mappings.repo[k]) == Some(r)
  {
    k := order[|order| - 1];
    if Build(w, w.mappings.repo[k]) != Some(r) { k := BuiltFrom(w, order[..|order| - 1], r); }
  }

  /** Every collected route, its weight aside, is what some mapping stands for. */
  lemma CollectedFrom(w: World, order: seq<string>, r: RouteWithBackends) returns (k: string)
    requires AreKeys(w, order)
    requires r in Collected(w, order)
    ensures k in order && Build(w, w.mappings.repo[k]).Some?
    ensures r == Build(w, w.mappings.repo[k]).value.(routeWeight := r.routeWeight)
    ensures Joins(w, w.mappings.repo[k], r)
  {
    var b: RouteWithBackends;
    k, b := CollectedBuilt(w, order, r);
    BuildJoins(w, w.mappings.repo[k]);
    JoinsAnyWeight(w, w.mappings.repo[k], b, r.routeWeight);
  }

  lemma CollectedBuilt(w: World, order: seq<string>, r: RouteWithBackends) returns (k: string, b: RouteWithBackends)
    requires AreKeys(w, order)
    requires r in Collected(w, order)
    ensures k in order && Build(w, w.mappings.repo[k]) == Some(b) && r == b.(routeWeight := r.routeWeight)
  {
    var before := Ordered(Built(w, order));
    var i :| 0 <= i < |before| && Collected(w, order)[i] == r;
    OrderedAscends(Built(w, order));
    assert before[i] in multiset(before);
    b := before[i];
    k := BuiltFrom(w, order, b);
  }

  lemma CollectedAscends(w: World, order: seq<string>)
    requires AreKeys(w, order)
    ensures PathsAscend(Collected(w, order)) && ProcessesAscend(Collected(w, order))
  {
    OrderedAscends(Built(w, order));
  }

  function BuildAt(w: World): string -> Option<RouteWithBackends>
  {
    k => if k in w.mappings.repo then Build(w, w.mappings.repo[k]) else None
  }

  function Buildable(w: World): string -> bool
  {
    k => BuildAt(w)(k).Some?
  }

  lemma {:induction false} BuiltIs(w: World, order: seq<string>)
    requires AreKeys(w, order)
    ensures var keys := Filter(order, Buildable(w));
      |keys| == |Built(w, order)| && forall i | 0 <= i < |keys| :: BuildAt(w)(keys[i]) == Some(Built(w, order)[i])
  {
    if order != [] {
      var front, k := order[..|order| - 1], order[|order| - 1];
      assert forall j | j in front :: j in order;
      BuiltIs(w, front);
      BuiltNext(w, front, k);
      assert order == front + [k];
      FilterSnoc(front, k, Buildable(w));
      assert BuildAt(w)(k) == Build(w, w.mappings.repo[k]);
    }
  }

  ghost function JoinableKeys(w: World): set<string>
  {
    set k | k in w.mappings.repo && Joinable(w, w.mappings.repo[k])
  }

  lemma BuildableEnumerates(w: World, order: seq<string>)
    requires Enumeration(w, order)
    ensures Enumerates(Filter(order, Buildable(w)), JoinableKeys(w))
  {
    FilterDistinct(order, Buildable(w));
    FilterMembers(order, Buildable(w));
    forall k | k in w.mappings.repo ensures Buildable(w)(k) <==> Joinable(w, w.mappings.repo[k]) {
      BuildJoins(w, w.mappings.repo[k]);
      assert BuildAt(w)(k) == Build(w, w.mappings.repo[k]);
    }
  }

  lemma JoinsAnyWeight(w: World, rm: RouteMapping, r: RouteWithBackends, weight: int32)
    ensures Joins(w, rm, r.(routeWeight := weight)) <==> Joins(w, rm, r)
  {
  }

  /** The route is what the mapping stands for, with its percentage or one point more. */
  ghost predicate StandsFor(w: World, k: string, r: RouteWithBackends)
  {
    && k in w.mappings.repo && Joins(w, w.mappings.repo[k], r)
    && var c := Percentage(w, w.mappings.repo[k]); r.routeWeight == c || r.routeWeight == WrapSigned(c + 1)
  }

  /** Whatever the enumeration, the collected routes stand one for one for the mappings that can be
      joined. */
  lemma CollectedIsJoin(w: World, order: seq<string>) returns (keys: seq<string>)
    requires Enumeration(w, order)
    ensures Enumerates(keys, JoinableKeys(w)) && |keys| == |Collected(w, order)|
    ensures forall i | 0 <= i < |keys| :: StandsFor(w, keys[i], Collected(w, order)[i])
  {
    var before := Ordered(Built(w, order));
    BuiltIs(w, order);
    OrderedAscends(Built(w, order));
    keys := Relabel(before, Built(w, order), Filter(order, Buildable(w)), BuildAt(w));
    BuildableEnumerates(w, order);
    PermutedEnumerates(Filter(order, Buildable(w)), keys, JoinableKeys(w));
    forall i | 0 <= i < |keys| ensures StandsFor(w, keys[i], Collected(w, order)[i]) {
      FixedStandsFor(w, before, i, keys[i]);
    }
  }

  lemma FixedStandsFor(w: World, before: Routes, i: nat, k: string)
    requires i < |before| && BuildAt(w)(k) == Some(before[i])
    ensures StandsFor(w, k, FixedWeights(before)[i])
  {
    BuildJoins(w, w.mappings.repo[k]);
    JoinsAnyWeight(w, w.mappings.repo[k], before[i], FixedWeights(before)[i].routeWeight);
    assert FixedWeights(before)[i] == Fixed(before, i);
  }
}
