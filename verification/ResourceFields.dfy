/** What the virtual services, destination rules and service entries of snapshot/config.go hold, field
    by field, in terms of the routes they are made of. */
module ResourceFields {
  import opened Models
  import opened Sequences
  import opened LeftoverWeights
  import opened VirtualServices
  import MeshResources

  function OnHost(internal: bool, hostname: string): RouteWithBackends -> bool
  {
    (r: RouteWithBackends) => r.internal == internal && r.hostname == hostname
  }

  function WithKey(key: string): RouteWithBackends -> bool
  {
    (r: RouteWithBackends) => r.hostname + r.path == key
  }

  // ----- virtual services

  /** Gateways and retries of a service depend on its flag alone: external hosts are reached through the
      ingress gateway, and requests to internal ones are retried three times for 5xx, within 15s. */
  lemma ServiceFields(routes: Routes, internal: bool, hostname: string)
    requires HasBackends(routes) && Filter(routes, OnHost(internal, hostname)) != []
    ensures var name := (if internal then "internal/copilot-service-for-" else "copilot-service-for-") + hostname;
      && Filter(routes, HasName(name)) != []
      && var s := ServiceOf(routes, name);
         && s.hosts == [hostname]
         && s.gateways == (if internal then [] else ["cloudfoundry-ingress"])
         && forall t | 0 <= t < |s.http| ::
              && s.http[t].retries == (if internal then Some(Retry(3, "5xx")) else None)
              && s.http[t].timeoutSeconds == (if internal then Some(15) else None)
  {
    var name := (if internal then "internal/copilot-service-for-" else "copilot-service-for-") + hostname;
    assert name == ServiceName(internal, hostname);
    NamedOnHost(routes, internal, hostname);
    FirstsLead(routes, name);
    forall t | 0 <= t < |Firsts(routes, name)| ensures Firsts(routes, name)[t].internal == internal {
      var f := Firsts(routes, name)[t];
      assert f in Firsts(routes, name);
      ServiceNameInjective(f.internal, f.hostname, internal, hostname);
    }
  }

  lemma NamedOnHost(routes: Routes, internal: bool, hostname: string)
    ensures Filter(routes, HasName(ServiceName(internal, hostname))) == Filter(routes, OnHost(internal, hostname))
    ensures forall r | r in Filter(routes, OnHost(internal, hostname)) ::
      r.internal == internal && r.hostname == hostname
  {
    forall r: RouteWithBackends ensures HasName(ServiceName(internal, hostname))(r) == OnHost(internal, hostname)(r) {
      ServiceNameInjective(r.internal, r.hostname, internal, hostname);
    }
    FilterAgrees(routes, HasName(ServiceName(internal, hostname)), OnHost(internal, hostname));
    FilterMembers(routes, OnHost(internal, hostname));
  }

  lemma WithKeyIsSharing(routes: Routes, key: string)
    ensures Sharing(routes, key) == Filter(routes, WithKey(key))
  {
    FilterAgrees(routes, HasFullRoute(key), WithKey(key));
  }

  /** d goes to the route: its host, its process as subset, the container port of its first backend. */
  predicate GoesTo(d: Destination, r: RouteWithBackends)
  {
    && d.host == r.hostname && d.subset == r.capiProcessGUID && d.weight == r.routeWeight
    && r.backends != [] && d.port == r.backends[0].containerPort
  }

  /** Each HTTP route has a key, hostname followed by path; the first route with that key is one of the
      service and decides what matches, and there is a destination for each route with it, in order. */
  lemma HTTPRouteFields(routes: Routes, name: string, t: nat) returns (key: string)
    requires HasBackends(routes) && Filter(routes, HasName(name)) != []
    requires t < |ServiceOf(routes, name).http|
    ensures var http, rs := ServiceOf(routes, name).http[t], Filter(routes, WithKey(key));
      && rs != [] && ServiceNamed(rs[0], name)
      && http.prefix == (if rs[0].internal || rs[0].path == "" then None else Some(rs[0].path))
      && |http.route| == |rs|
      && forall i | 0 <= i < |rs| :: GoesTo(http.route[i], rs[i])
  {
    var f := Firsts(routes, name)[t];
    assert f in Firsts(routes, name);
    FirstsLead(routes, name);
    key := f.hostname + f.path;
    WithKeyIsSharing(routes, key);
    assert f == Sharing(routes, key)[0];
  }

  /** A service has one HTTP route for each key whose first route is its own, and no other. */
  lemma {:induction false} OneEntryPerKey(routes: Routes, name: string)
    ensures forall t, u | 0 <= t < u < |Firsts(routes, name)| ::
      FullRoute(Firsts(routes, name)[t]) != FullRoute(Firsts(routes, name)[u])
    ensures forall f :: f in Firsts(routes, name) <==>
      ServiceNamed(f, name) && Filter(routes, WithKey(f.hostname + f.path)) != []
      && Filter(routes, WithKey(f.hostname + f.path))[0] == f
  {
    if routes != [] {
      var front, r := routes[..|routes| - 1], routes[|routes| - 1];
      assert routes == front + [r];
      OneEntryPerKey(front, name);
      FirstsNext(front, r, name);
      WithKeyIsSharing(front, FullRoute(r));
      forall f: RouteWithBackends
        ensures f in Firsts(routes, name) <==>
          ServiceNamed(f, name) && Filter(routes, WithKey(f.hostname + f.path)) != []
          && Filter(routes, WithKey(f.hostname + f.path))[0] == f
      {
        FilterSnoc(front, r, WithKey(f.hostname + f.path));
      }
      if NameOf(r) == name && Sharing(front, FullRoute(r)) == [] {
        forall f | f in Firsts(front, name) ensures FullRoute(f) != FullRoute(r) {
          assert Filter(front, WithKey(f.hostname + f.path)) != [];
        }
      }
    }
  }

  // ----- destination rules

  /** A subset for each of the routes, in order, named and labelled after its process. */
  predicate IsRule(rule: MeshResources.DestinationRule, rs: Routes, hostname: string)
  {
    && rule.host == hostname
    && |rule.subsets| == |rs|
    && forall i | 0 <= i < |rs| :: rule.subsets[i].name == rs[i].capiProcessGUID == rule.subsets[i].cfapp
  }

  lemma RuleOfRoutes(rs: Routes, hostname: string)
    requires rs != [] && rs[0].hostname == hostname
    ensures IsRule(MeshResources.RuleOf(rs), rs, hostname)
  {
  }

  lemma ResourceNames(internal: bool, hostname: string)
    ensures MeshResources.ResourceName(MeshResources.RULE, internal, hostname)
         == (if internal then "internal/copilot-rule-for-" else "copilot-rule-for-") + hostname
    ensures MeshResources.ResourceName(MeshResources.ENTRY, internal, hostname)
         == (if internal then "internal/copilot-service-entry-for-" else "copilot-service-entry-for-") + hostname
  {
  }

  /** A host with routes has a rule, made of all of them. */
  lemma RuleFields(rules: map<string, MeshResources.DestinationRule>, routes: Routes, internal: bool, hostname: string)
    requires MeshResources.AreRules(rules, routes)
    ensures var name := (if internal then "internal/copilot-rule-for-" else "copilot-rule-for-") + hostname;
      var rs := Filter(routes, OnHost(internal, hostname));
      && (name in rules <==> rs != [])
      && (name in rules ==> IsRule(rules[name], rs, hostname))
  {
    var rs := Filter(routes, OnHost(internal, hostname));
    ResourceNames(internal, hostname);
    ResourceOnHost(routes, MeshResources.RULE, internal, hostname);
    assert MeshResources.IsRuleAt(rules, rs, MeshResources.ResourceName(MeshResources.RULE, internal, hostname));
    if rs != [] {
      assert rs[0] in rs;
      RuleOfRoutes(rs, hostname);
    }
  }

  lemma ResourceOnHost(routes: Routes, kind: string, internal: bool, hostname: string)
    requires kind == MeshResources.RULE || kind == MeshResources.ENTRY
    ensures MeshResources.Members(routes, kind, MeshResources.ResourceName(kind, internal, hostname))
         == Filter(routes, OnHost(internal, hostname))
    ensures forall r | r in Filter(routes, OnHost(internal, hostname)) ::
      r.internal == internal && r.hostname == hostname
  {
    var name := MeshResources.ResourceName(kind, internal, hostname);
    forall r: RouteWithBackends ensures MeshResources.NamedAs(kind, name)(r) == OnHost(internal, hostname)(r) {
      MeshResources.ResourceNameInjective(kind, r.internal, r.hostname, internal, hostname);
    }
    FilterAgrees(routes, MeshResources.NamedAs(kind, name), OnHost(internal, hostname));
    FilterMembers(routes, OnHost(internal, hostname));
  }

  // ----- service entries

  function BackedOnHost(internal: bool, hostname: string): RouteWithBackends -> bool
  {
    (r: RouteWithBackends) => r.internal == internal && r.hostname == hostname && r.backends != []
  }

  /** How many backends the first n routes have. */
  function Offset(rs: Routes, n: nat): nat
    requires n <= |rs|
  {
    if n == 0 then 0 else Offset(rs, n - 1) + |rs[n - 1].backends|
  }

  lemma {:induction false} OffsetOfPrefix(rs: Routes, m: nat, n: nat)
    requires n <= m <= |rs|
    ensures Offset(rs[..m], n) == Offset(rs, n)
  {
    if n > 0 { OffsetOfPrefix(rs, m, n - 1); }
  }

  predicate IsEndpointOf(e: MeshResources.Endpoint, r: RouteWithBackends, j: nat)
  {
    && j < |r.backends| && e.address == r.backends[j].address && e.port == r.backends[j].port
    && e.cfapp == r.capiProcessGUID
  }

  /** The endpoint of backend j of route i is where the backends before it put it. */
  predicate EndpointAt(endpoints: seq<MeshResources.Endpoint>, rs: Routes, i: nat, j: nat)
    requires i < |rs|
  {
    Offset(rs, i) + j < |endpoints| && IsEndpointOf(endpoints[Offset(rs, i) + j], rs[i], j)
  }

  lemma {:induction false} EndpointsAt(rs: Routes, i: nat, j: nat)
    requires i < |rs| && j < |rs[i].backends|
    ensures EndpointAt(MeshResources.Endpoints(rs), rs, i, j)
  {
    var n := |rs| - 1;
    EndpointsCount(rs);
    EndpointsCount(rs[..n]);
    OffsetOfPrefix(rs, n, n);
    if i < n {
      EndpointsAt(rs[..n], i, j);
      OffsetOfPrefix(rs, n, i);
    }
  }

  lemma {:induction false} EndpointsCount(rs: Routes)
    ensures |MeshResources.Endpoints(rs)| == Offset(rs, |rs|)
  {
    if rs != [] {
      EndpointsCount(rs[..|rs| - 1]);
      OffsetOfPrefix(rs, |rs| - 1, |rs| - 1);
    }
  }

  lemma BackedIs(routes: Routes, internal: bool, hostname: string)
    ensures MeshResources.Backed(routes, MeshResources.ResourceName(MeshResources.ENTRY, internal, hostname))
         == Filter(routes, BackedOnHost(internal, hostname))
    ensures forall r | r in Filter(routes, BackedOnHost(internal, hostname)) ::
      r.internal == internal && r.hostname == hostname && r.backends != []
  {
    ResourceOnHost(Filter(routes, MeshResources.HasSome), MeshResources.ENTRY, internal, hostname);
    FilterTwice(routes, MeshResources.HasSome, OnHost(internal, hostname), BackedOnHost(internal, hostname));
    FilterMembers(routes, BackedOnHost(internal, hostname));
  }

  /** The address of an internal host, the container ports of the first route, each once, and one
      endpoint for each backend of the routes, route by route. */
  ghost predicate IsEntry(se: MeshResources.ServiceEntry, rs: Routes, internal: bool, hostname: string)
    requires rs != []
  {
    && se.hosts == [hostname]
    && se.addresses == (if internal then [rs[0].vip] else [])
    && Distinct(se.ports) && (forall p :: p in se.ports <==> exists b | b in rs[0].backends :: b.containerPort == p)
    && |se.endpoints| == Offset(rs, |rs|)
    && forall i, j | 0 <= i < |rs| && 0 <= j < |rs[i].backends| :: EndpointAt(se.endpoints, rs, i, j)
  }

  lemma EntryOfRoutes(se: MeshResources.ServiceEntry, rs: Routes, internal: bool, hostname: string)
    requires MeshResources.IsEntryOf(se, rs) && rs[0].internal == internal && rs[0].hostname == hostname
    ensures IsEntry(se, rs, internal, hostname)
  {
    EndpointsCount(rs);
    forall i, j | 0 <= i < |rs| && 0 <= j < |rs[i].backends| ensures EndpointAt(se.endpoints, rs, i, j) {
      EndpointsAt(rs, i, j);
    }
  }

  /** A host has an entry if it has a route with backends, and that is made of all of them. */
  lemma EntryFields(entries: map<string, MeshResources.ServiceEntry>, routes: Routes, internal: bool, hostname: string)
    requires MeshResources.AreEntries(entries, routes)
    ensures var kind := if internal then "internal/copilot-service-entry-for-" else "copilot-service-entry-for-";
      var name := kind + hostname;
      var rs := Filter(routes, BackedOnHost(internal, hostname));
      && (name in entries <==> rs != [])
      && (name in entries ==> IsEntry(entries[name], rs, internal, hostname))
  {
    var rs := Filter(routes, BackedOnHost(internal, hostname));
    ResourceNames(internal, hostname);
    BackedIs(routes, internal, hostname);
    var name := MeshResources.ResourceName(MeshResources.ENTRY, internal, hostname);
    assert MeshResources.IsEntryAt(entries, rs, name);
    if rs != [] {
      assert rs[0] in rs;
      EntryOfRoutes(entries[name], rs, internal, hostname);
    }
  }
}
