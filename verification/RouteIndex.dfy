/** models/route.go: the routes by GUID, with a secondary index by hostname that is never
    cleaned. */
module RouteIndex {
  import opened Models
  import opened Sequences

  datatype State = State(repo: map<RouteGUID, Route>, byHostname: map<string, RouteGUID>)

  const EMPTY := State(map[], map[])

  function Upserted(s: State, route: Route): State
  {
    State(s.repo[route.guid := route], s.byHostname[route.host := route.guid])
  }

  function Deleted(s: State, guid: RouteGUID): State
  {
    State(s.repo - {guid}, s.byHostname)
  }

  /** One Upsert call per list element, in order. */
  function UpsertedAll(s: State, list: seq<Route>): State
  {
    if list == [] then s else Upserted(UpsertedAll(s, list[..|list| - 1]), list[|list| - 1])
  }

  function Find(s: State, guid: RouteGUID): Option<Route>
  {
    if guid in s.repo then Some(s.repo[guid]) else None
  }

  /** A missing index entry reads as the empty GUID, which is then looked up like any other. */
  function VIPByName(s: State, hostname: string): Option<string>
  {
    var guid := if hostname in s.byHostname then s.byHostname[hostname] else "";
    match Find(s, guid)
    case Some(route) => Some(route.vip)
    case None => None
  }

  class RoutesRepo {
    var repo: map<RouteGUID, Route>
    var repoByHostname: map<string, RouteGUID>

    ghost function Contents(): State
      reads this
    {
      State(repo, repoByHostname)
    }

    constructor ()
      ensures Contents() == EMPTY
    {
      repo, repoByHostname := map[], map[];
    }

    method Upsert(route: Route)
      modifies this
      ensures Contents() == Upserted(old(Contents()), route)
    {
      repo := repo[route.guid := route];
      repoByHostname := repoByHostname[route.host := route.guid];
    }

    method Delete(guid: RouteGUID)
      modifies this
      ensures Contents() == Deleted(old(Contents()), guid)
    {
      repo := repo - {guid};
    }

    /** Replaces everything; the result is that of upserting the list into an empty repository. */
    method Sync(routes: seq<Route>)
      modifies this
      ensures Contents() == UpsertedAll(EMPTY, routes)
    {
      var newRepo: map<RouteGUID, Route> := map[];
      var newIndex: map<string, RouteGUID> := map[];
      for i := 0 to |routes|
        invariant State(newRepo, newIndex) == UpsertedAll(EMPTY, routes[..i])
      {
        newRepo := newRepo[routes[i].guid := routes[i]];
        newIndex := newIndex[routes[i].host := routes[i].guid];
        assert routes[..i + 1][..i] == routes[..i];
      }
      assert routes[..|routes|] == routes;
      repo := newRepo;
      repoByHostname := newIndex;
    }

    function Get(guid: RouteGUID): Option<Route>
      reads this
    {
      if guid in repo then Some(repo[guid]) else None
    }

    method GetVIPByName(hostname: string) returns (vip: Option<string>)
      ensures vip == VIPByName(Contents(), hostname)
    {
      var guid := if hostname in repoByHostname then repoByHostname[hostname] else "";
      match Get(guid) {
        case Some(route) => vip := Some(route.vip);
        case None => vip := None;
      }
    }
  }

  // ----- histories

  datatype Op = UpsertOp(route: Route) | DeleteOp(guid: RouteGUID) | SyncOp(list: seq<Route>)

  function Apply(s: State, op: Op): State
  {
    match op
    case UpsertOp(route) => Upserted(s, route)
    case DeleteOp(guid) => Deleted(s, guid)
    case SyncOp(list) => UpsertedAll(EMPTY, list)
  }

  function Run(ops: seq<Op>): State
  {
    if ops == [] then EMPTY else Apply(Run(ops[..|ops| - 1]), ops[|ops| - 1])
  }

  /** What happened since the last Sync, which itself counts as storing its list. */
  datatype Fact = Stored(route: Route) | Removed(guid: RouteGUID)

  function Storing(list: seq<Route>): seq<Fact>
  {
    if list == [] then [] else Storing(list[..|list| - 1]) + [Stored(list[|list| - 1])]
  }

  function Since(ops: seq<Op>): seq<Fact>
  {
    if ops == [] then []
    else
      match ops[|ops| - 1]
      case UpsertOp(route) => Since(ops[..|ops| - 1]) + [Stored(route)]
      case DeleteOp(guid) => Since(ops[..|ops| - 1]) + [Removed(guid)]
      case SyncOp(list) => Storing(list)
  }

  function StoredUnder(host: string): Fact -> bool
  {
    (f: Fact) => f.Stored? && f.route.host == host
  }

  function Concerns(guid: RouteGUID): Fact -> bool
  {
    (f: Fact) => (f.Stored? && f.route.guid == guid) || (f.Removed? && f.guid == guid)
  }

  /** The GUID last stored under a host; the empty GUID when there is none. */
  function LastGUID(facts: seq<Fact>, host: string): RouteGUID
  {
    var i := LastIndex(facts, StoredUnder(host));
    if i >= 0 then facts[i].route.guid else ""
  }

  /** The route last stored with a GUID, unless it was deleted afterwards. */
  function Live(facts: seq<Fact>, guid: RouteGUID): Option<Route>
  {
    var i := LastIndex(facts, Concerns(guid));
    if i >= 0 && facts[i].Stored? then Some(facts[i].route) else None
  }

  /** The state holds what the facts say. */
  ghost predicate Holds(s: State, facts: seq<Fact>)
  {
    && (forall g :: Find(s, g) == Live(facts, g))
    && (forall h :: h in s.byHostname <==> LastIndex(facts, StoredUnder(h)) >= 0)
    && (forall h | h in s.byHostname :: s.byHostname[h] == LastGUID(facts, h))
  }

  lemma LiveNext(facts: seq<Fact>, f: Fact, g: RouteGUID)
    ensures Live(facts + [f], g) ==
            if !Concerns(g)(f) then Live(facts, g) else if f.Stored? then Some(f.route) else None
  {
    LastIndexSnoc(facts, f, Concerns(g));
  }

  lemma LastGUIDNext(facts: seq<Fact>, f: Fact, h: string)
    ensures LastGUID(facts + [f], h) == if StoredUnder(h)(f) then f.route.guid else LastGUID(facts, h)
    ensures LastIndex(facts + [f], StoredUnder(h)) >= 0 <==>
            StoredUnder(h)(f) || LastIndex(facts, StoredUnder(h)) >= 0
  {
    LastIndexSnoc(facts, f, StoredUnder(h));
  }

  lemma HoldsStored(s: State, facts: seq<Fact>, route: Route)
    requires Holds(s, facts)
    ensures Holds(Upserted(s, route), facts + [Stored(route)])
  {
    var f := Stored(route);
    var t := Upserted(s, route);
    forall g ensures Find(t, g) == Live(facts + [f], g) { LiveNext(facts, f, g); }
    forall h
      ensures h in t.byHostname <==> LastIndex(facts + [f], StoredUnder(h)) >= 0
      ensures h in t.byHostname ==> t.byHostname[h] == LastGUID(facts + [f], h)
    {
      LastGUIDNext(facts, f, h);
    }
  }

  lemma HoldsRemoved(s: State, facts: seq<Fact>, guid: RouteGUID)
    requires Holds(s, facts)
    ensures Holds(Deleted(s, guid), facts + [Removed(guid)])
  {
    var f := Removed(guid);
    var t := Deleted(s, guid);
    forall g ensures Find(t, g) == Live(facts + [f], g) { LiveNext(facts, f, g); }
    forall h
      ensures h in t.byHostname <==> LastIndex(facts + [f], StoredUnder(h)) >= 0
      ensures h in t.byHostname ==> t.byHostname[h] == LastGUID(facts + [f], h)
    {
      LastGUIDNext(facts, f, h);
    }
  }

  lemma {:induction false} HoldsSynced(list: seq<Route>)
    ensures Holds(UpsertedAll(EMPTY, list), Storing(list))
  {
    if list != [] {
      HoldsSynced(list[..|list| - 1]);
      HoldsStored(UpsertedAll(EMPTY, list[..|list| - 1]), Storing(list[..|list| - 1]), list[|list| - 1]);
    }
  }

  lemma {:induction false} HistoryHolds(ops: seq<Op>)
    ensures Holds(Run(ops), Since(ops))
  {
    if ops != [] {
      var front := ops[..|ops| - 1];
      HistoryHolds(front);
      match ops[|ops| - 1] {
        case UpsertOp(route) => HoldsStored(Run(front), Since(front), route);
        case DeleteOp(guid) => HoldsRemoved(Run(front), Since(front), guid);
        case SyncOp(list) => HoldsSynced(list);
      }
    }
  }

  /** Over every run a name resolves to the VIP of the live route of the GUID last stored under
      that name, and fails when that GUID has no live route. */
  lemma VIPByNameInHistory(ops: seq<Op>, host: string)
    ensures VIPByName(Run(ops), host) ==
            match Live(Since(ops), LastGUID(Since(ops), host))
            case Some(route) => Some(route.vip)
            case None => None
  {
    HistoryHolds(ops);
    assert Find(Run(ops), LastGUID(Since(ops), host)) == Live(Since(ops), LastGUID(Since(ops), host));
  }

  /** The name gives the address of a route of that very host, and exactly while one last stored
      under it lives. */
  ghost predicate ResolvesOwnHost(ops: seq<Op>, host: string)
  {
    var facts := Since(ops);
    var i := LastIndex(facts, StoredUnder(host));
    var live := Live(facts, LastGUID(facts, host));
    VIPByName(Run(ops), host) ==
      if i >= 0 && live.Some? && live.value.host == host then Some(live.value.vip) else None
  }

  /** A name is stale when its GUID lives on under another host, or when it was never stored and a
      route with an empty GUID lives. */
  predicate Stale(facts: seq<Fact>, host: string)
  {
    var live := Live(facts, LastGUID(facts, host));
    live.Some? && (LastIndex(facts, StoredUnder(host)) < 0 || live.value.host != host)
  }

  lemma ResolvesOwnHostIff(ops: seq<Op>, host: string)
    ensures ResolvesOwnHost(ops, host) <==> !Stale(Since(ops), host)
  {
    VIPByNameInHistory(ops, host);
  }

  /** Since the last Sync no GUID was empty, and none was stored under two hosts. */
  predicate OneHostPerGUID(facts: seq<Fact>)
  {
    && (forall i | 0 <= i < |facts| && facts[i].Stored? :: facts[i].route.guid != "")
    && (forall i, j | 0 <= i < j < |facts| && facts[i].Stored? && facts[j].Stored? ::
          facts[i].route.guid == facts[j].route.guid ==> facts[i].route.host == facts[j].route.host)
  }

  /** Then no name is stale: it resolves exactly while the GUID last stored under it is live, to the
      VIP of that live route, whose host it is. */
  lemma OneHostPerGUIDResolves(ops: seq<Op>, host: string)
    requires OneHostPerGUID(Since(ops))
    ensures ResolvesOwnHost(ops, host)
    ensures var live := Live(Since(ops), LastGUID(Since(ops), host));
      && (VIPByName(Run(ops), host).Some? <==> live.Some?)
      && (live.Some? ==> live.value.host == host && VIPByName(Run(ops), host) == Some(live.value.vip))
  {
    var facts := Since(ops);
    VIPByNameInHistory(ops, host);
    var i := LastIndex(facts, StoredUnder(host));
    var g := LastGUID(facts, host);
    var j := LastIndex(facts, Concerns(g));
    if j >= 0 && facts[j].Stored? {
      assert i >= 0;
      assert i == j || i < j || j < i;
    }
  }

  lemma RunTwo(a: Op, b: Op)
    ensures Run([a, b]) == Apply(Apply(EMPTY, a), b)
  {
    assert [a, b][..1] == [a] && [a][..0] == [];
    assert Run([a]) == Apply(EMPTY, a);
  }

  lemma SinceTwo(r: Route, s: Route)
    ensures Since([UpsertOp(r), UpsertOp(s)]) == [Stored(r)] + [Stored(s)]
  {
    var one := [UpsertOp(r)];
    assert [UpsertOp(r), UpsertOp(s)][..1] == one && one[..0] == [];
    assert Since(one) == [] + [Stored(r)] == [Stored(r)];
  }

  /** A route renamed by a second Upsert still answers to its old name. */
  lemma RenamedRouteAnswersToOldName(r: Route, s: Route)
    requires r.guid == s.guid && r.host != s.host
    ensures var ops := [UpsertOp(r), UpsertOp(s)];
      VIPByName(Run(ops), r.host) == Some(s.vip) && !ResolvesOwnHost(ops, r.host)
  {
    RunTwo(UpsertOp(r), UpsertOp(s));
    SinceTwo(r, s);
    var one := [Stored(r)];
    LastGUIDNext(one, Stored(s), r.host);
    LastGUIDNext([], Stored(r), r.host);
    assert [] + one == one;
    LiveNext(one, Stored(s), r.guid);
  }
}
