/** snapshot/config.go: CreateDestinationRuleResources and CreateServiceEntryResources, which are
    built apart from the virtual services and must agree with them. */
module MeshResources {
  import opened Models
  import opened Sequences
  import opened LeftoverWeights

  datatype Subset = Subset(name: string, cfapp: string)

  datatype DestinationRule = DestinationRule(host: string, subsets: seq<Subset>)

  datatype Endpoint = Endpoint(address: string, port: uint32, cfapp: string)

  datatype ServiceEntry = ServiceEntry(
    hosts: seq<string>,
    addresses: seq<string>,
    ports: seq<uint32>,
    endpoints: seq<Endpoint>)

  function ResourceName(kind: string, internal: bool, hostname: string): string
  {
    if internal then "internal/" + kind + hostname else kind + hostname
  }

  const RULE := "copilot-rule-for-"
  const ENTRY := "copilot-service-entry-for-"

  /** Within a kind, names tell internal from external and host from host. */
  lemma ResourceNameInjective(kind: string, i: bool, h: string, j: bool, k: string)
    requires kind == RULE || kind == ENTRY
    ensures ResourceName(kind, i, h) == ResourceName(kind, j, k) <==> i == j && h == k
  {
    var p := "internal/";
    assert (p + kind + h)[0] == 'i' && (kind + h)[0] == 'c' && (p + kind + k)[0] == 'i' && (kind + k)[0] == 'c';
    assert (p + kind + h)[|p + kind|..] == h && (p + kind + k)[|p + kind|..] == k;
    assert (kind + h)[|kind|..] == h && (kind + k)[|kind|..] == k;
  }

  function NamedAs(kind: string, name: string): RouteWithBackends -> bool
  {
    (r: RouteWithBackends) => ResourceName(kind, r.internal, r.hostname) == name
  }

  /** The routes of one resource. */
  function Members(routes: Routes, kind: string, name: string): Routes
  {
    Filter(routes, NamedAs(kind, name))
  }

  lemma MembersNext(routes: Routes, r: RouteWithBackends, kind: string, name: string)
    ensures Members(routes + [r], kind, name) ==
            if ResourceName(kind, r.internal, r.hostname) == name then Members(routes, kind, name) + [r]
            else Members(routes, kind, name)
  {
    FilterSnoc(routes, r, NamedAs(kind, name));
  }

  lemma MembersAt(routes: Routes, kind: string, internal: bool, hostname: string)
    requires kind == RULE || kind == ENTRY
    ensures forall r :: r in Members(routes, kind, ResourceName(kind, internal, hostname)) <==>
              r in routes && r.internal == internal && r.hostname == hostname
  {
    FilterMembers(routes, NamedAs(kind, ResourceName(kind, internal, hostname)));
    forall r: RouteWithBackends
      ensures NamedAs(kind, ResourceName(kind, internal, hostname))(r) <==>
              r.internal == internal && r.hostname == hostname
    {
      ResourceNameInjective(kind, r.internal, r.hostname, internal, hostname);
    }
  }

  // ----- destination rules

  function Subsets(routes: Routes): seq<Subset>
  {
    seq(|routes|, i requires 0 <= i < |routes| => Subset(routes[i].capiProcessGUID, routes[i].capiProcessGUID))
  }

  function RuleOf(members: Routes): DestinationRule
    requires members != []
  {
    DestinationRule(members[0].hostname, Subsets(members))
  }

  lemma RuleNext(members: Routes, r: RouteWithBackends)
    ensures RuleOf(members + [r]) ==
            DestinationRule(if members == [] then r.hostname else members[0].hostname,
                            Subsets(members) + [Subset(r.capiProcessGUID, r.capiProcessGUID)])
  {
  }

  /** The rules hold the one of that name, if the routes so far have one. */
  predicate IsRuleAt(rules: map<string, DestinationRule>, members: Routes, name: string)
  {
    && (name in rules <==> members != [])
    && (name in rules ==> rules[name] == RuleOf(members))
  }

  ghost predicate AreRules(rules: map<string, DestinationRule>, routes: Routes)
  {
    forall name :: IsRuleAt(rules, Members(routes, RULE, name), name)
  }

  lemma RulesNext(rules: map<string, DestinationRule>, done: Routes, r: RouteWithBackends, rule: DestinationRule)
    requires AreRules(rules, done)
    requires rule == RuleOf(Members(done, RULE, ResourceName(RULE, r.internal, r.hostname)) + [r])
    ensures AreRules(rules[ResourceName(RULE, r.internal, r.hostname) := rule], done + [r])
  {
    var all := rules[ResourceName(RULE, r.internal, r.hostname) := rule];
    forall n ensures IsRuleAt(all, Members(done + [r], RULE, n), n) {
      MembersNext(done, r, RULE, n);
      assert IsRuleAt(rules, Members(done, RULE, n), n);
    }
  }

  method CreateDestinationRuleResources(routes: Routes) returns (rules: map<string, DestinationRule>)
    ensures AreRules(rules, routes)
  {
    rules := map[];
    ghost var done: Routes := [];
    for i := 0 to |routes|
      invariant done == routes[..i]
      invariant AreRules(rules, done)
    {
      var route := routes[i];
      var name := ResourceName(RULE, route.internal, route.hostname);
      assert IsRuleAt(rules, Members(done, RULE, name), name);
      var rule := if name in rules then rules[name] else DestinationRule(route.hostname, []);
      RuleNext(Members(done, RULE, name), route);
      rule := rule.(subsets := rule.subsets + [Subset(route.capiProcessGUID, route.capiProcessGUID)]);
      RulesNext(rules, done, route, rule);
      rules := rules[name := rule];
      done := done + [route];
    }
    assert done == routes;
  }

  // ----- service entries

  predicate HasSome(r: RouteWithBackends) { r.backends != [] }

  function EndpointsOf(r: RouteWithBackends): (e: seq<Endpoint>)
    ensures |e| == |r.backends|
    ensures forall i | 0 <= i < |e| :: e[i] == Endpoint(r.backends[i].address, r.backends[i].port, r.capiProcessGUID)
  {
    seq(|r.backends|, i requires 0 <= i < |r.backends| =>
      Endpoint(r.backends[i].address, r.backends[i].port, r.capiProcessGUID))
  }

  /** The endpoints of the routes, route by route and backend by backend. */
  function Endpoints(routes: Routes): seq<Endpoint>
  {
    if routes == [] then [] else Endpoints(routes[..|routes| - 1]) + EndpointsOf(routes[|routes| - 1])
  }

  function ContainerPorts(r: RouteWithBackends): set<uint32>
  {
    set b | b in r.backends :: b.containerPort
  }

  /** Host, address and ports come from the first route of the entry; the ports in any order. */
  ghost predicate IsEntryOf(se: ServiceEntry, members: Routes)
  {
    && members != []
    && se.hosts == [members[0].hostname]
    && se.addresses == (if members[0].internal then [members[0].vip] else [])
    && Enumerates(se.ports, ContainerPorts(members[0]))
    && se.endpoints == Endpoints(members)
  }

  /** The endpoints of one route. */
  method CreateEndpoint(r: RouteWithBackends) returns (endpoints: seq<Endpoint>)
    ensures endpoints == EndpointsOf(r)
  {
    endpoints := [];
    for i := 0 to |r.backends|
      invariant |endpoints| == i
      invariant forall j | 0 <= j < i :: endpoints[j] == EndpointsOf(r)[j]
    {
      endpoints := endpoints + [Endpoint(r.backends[i].address, r.backends[i].port, r.capiProcessGUID)];
    }
  }

  /** The entry of a host, without endpoints, with the ports of its first route. */
  method CreateServiceEntry(r: RouteWithBackends) returns (se: ServiceEntry)
    ensures se.hosts == [r.hostname] && se.addresses == (if r.internal then [r.vip] else []) && se.endpoints == []
    ensures Enumerates(se.ports, ContainerPorts(r))
    ensures forall p :: p in se.ports <==> exists b | b in r.backends :: b.containerPort == p
  {
    var unique: set<uint32> := {};
    for i := 0 to |r.backends|
      invariant forall p :: p in unique <==> exists j :: 0 <= j < i && r.backends[j].containerPort == p
    {
      unique := unique + {r.backends[i].containerPort};
    }
    assert unique == ContainerPorts(r);
    var ports: seq<uint32> := [];
    var left := unique;
    while left != {}
      invariant left <= unique && Distinct(ports)
      invariant forall p :: p in ports <==> p in unique && p !in left
      decreases left
    {
      var port :| port in left;
      ports := ports + [port];
      left := left - {port};
    }
    se := ServiceEntry([r.hostname], if r.internal then [r.vip] else [], ports, []);
  }

  /** The routes with backends of one entry. */
  function Backed(routes: Routes, name: string): Routes
  {
    Members(Filter(routes, HasSome), ENTRY, name)
  }

  lemma BackedNext(routes: Routes, r: RouteWithBackends, name: string)
    ensures Backed(routes + [r], name) ==
            if ResourceName(ENTRY, r.internal, r.hostname) == name && r.backends != [] then Backed(routes, name) + [r]
            else Backed(routes, name)
  {
    FilterSnoc(routes, r, HasSome);
    MembersNext(Filter(routes, HasSome), r, ENTRY, name);
  }

  lemma EntryNext(se: ServiceEntry, members: Routes, r: RouteWithBackends)
    requires if members == [] then
               && se.hosts == [r.hostname] && se.addresses == (if r.internal then [r.vip] else [])
               && Enumerates(se.ports, ContainerPorts(r)) && se.endpoints == []
             else IsEntryOf(se, members)
    ensures IsEntryOf(se.(endpoints := se.endpoints + EndpointsOf(r)), members + [r])
  {
    assert (members + [r])[..|members + [r]| - 1] == members;
  }

  method CreateServiceEntryResources(routes: Routes) returns (entries: map<string, ServiceEntry>)
    ensures AreEntries(entries, routes)
  {
    entries := map[];
    ghost var done: Routes := [];
    for i := 0 to |routes|
      invariant done == routes[..i]
      invariant AreEntries(entries, done)
    {
      var route := routes[i];
      entries := AddEntry(done, route, entries);
      done := done + [route];
    }
    assert done == routes;
  }

  /** The entries hold the one of that name, if the routes so far have one. */
  ghost predicate IsEntryAt(entries: map<string, ServiceEntry>, members: Routes, name: string)
  {
    && (name in entries <==> members != [])
    && (name in entries ==> IsEntryOf(entries[name], members))
  }

  ghost predicate AreEntries(entries: map<string, ServiceEntry>, routes: Routes)
  {
    forall name :: IsEntryAt(entries, Backed(routes, name), name)
  }

  lemma EntriesNext(entries: map<string, ServiceEntry>, done: Routes, r: RouteWithBackends, se: ServiceEntry)
    requires AreEntries(entries, done)
    requires r.backends != [] ==>
      IsEntryOf(se, Backed(done, ResourceName(ENTRY, r.internal, r.hostname)) + [r])
    ensures AreEntries(
      if r.backends != [] then entries[ResourceName(ENTRY, r.internal, r.hostname) := se] else entries, done + [r])
  {
    var all := if r.backends != [] then entries[ResourceName(ENTRY, r.internal, r.hostname) := se] else entries;
    forall n ensures IsEntryAt(all, Backed(done + [r], n), n) {
      BackedNext(done, r, n);
      assert IsEntryAt(entries, Backed(done, n), n);
    }
  }

  /** The body of the loop over the routes. */
  method AddEntry(ghost done: Routes, route: RouteWithBackends, entries: map<string, ServiceEntry>)
    returns (all: map<string, ServiceEntry>)
    requires AreEntries(entries, done)
    ensures AreEntries(all, done + [route])
  {
    var name := ResourceName(ENTRY, route.internal, route.hostname);
    all := entries;
    var se: ServiceEntry := ServiceEntry([], [], [], []);
    assert IsEntryAt(entries, Backed(done, name), name);
    if route.backends != [] {
      if name in entries {
        se := entries[name];
      } else {
        se := CreateServiceEntry(route);
      }
      var endpoints := CreateEndpoint(route);
      EntryNext(se, Backed(done, name), route);
      se := se.(endpoints := se.endpoints + endpoints);
      all := entries[name := se];
    }
    EntriesNext(entries, done, route, se);
  }

  // ----- labels

  lemma {:induction false} EndpointLabels(routes: Routes, r: RouteWithBackends)
    requires r in routes && r.backends != []
    ensures exists e | e in Endpoints(routes) :: e.cfapp == r.capiProcessGUID
  {
    var last := routes[|routes| - 1];
    if r == last {
      var e := EndpointsOf(r)[0];
      assert e in EndpointsOf(last) && e in Endpoints(routes);
    } else {
      assert r in routes[..|routes| - 1];
      EndpointLabels(routes[..|routes| - 1], r);
      var e :| e in Endpoints(routes[..|routes| - 1]) && e.cfapp == r.capiProcessGUID;
      assert e in Endpoints(routes);
    }
  }

  lemma {:induction false} EndpointsHaveRoutes(routes: Routes, e: Endpoint) returns (r: RouteWithBackends)
    requires e in Endpoints(routes)
    ensures r in routes && e in EndpointsOf(r)
  {
    r := routes[|routes| - 1];
    if e !in EndpointsOf(r) { r := EndpointsHaveRoutes(routes[..|routes| - 1], e); }
  }
}
