/** Virtual services, destination rules and service entries, built independently, refer to each
    other. */
module ReferentialIntegrity {
  import opened Models
  import opened Sequences
  import opened Sorting
  import opened LeftoverWeights
  import opened Collector
  import opened VirtualServices
  import opened MeshResources
  import PathRouting
  import Pipeline

  predicate UsesProcess(routes: Routes, internal: bool, hostname: string, process: string)
  {
    exists r | r in routes :: PathRouting.At(r, internal, hostname) && r.capiProcessGUID == process
  }

  /** Some destination of the host's virtual service names the subset. */
  ghost predicate Routed(routes: Routes, internal: bool, hostname: string, subset: string)
    requires HasBackends(routes)
  {
    var name := ServiceName(internal, hostname);
    && Filter(routes, HasName(name)) != []
    && exists t, d :: 0 <= t < |ServiceOf(routes, name).http| && d in ServiceOf(routes, name).http[t].route
                      && d.host == hostname && d.subset == subset
  }

  /** The host's destination rule has the subset. */
  ghost predicate Ruled(routes: Routes, internal: bool, hostname: string, subset: string)
  {
    var members := Members(routes, RULE, ResourceName(RULE, internal, hostname));
    members != [] && RuleOf(members).host == hostname && Subset(subset, subset) in RuleOf(members).subsets
  }

  /** Whatever the order of its ports, the host's service entry has an endpoint labelled with the process. */
  ghost predicate Labelled(routes: Routes, internal: bool, hostname: string, process: string)
  {
    var members := Backed(routes, ResourceName(ENTRY, internal, hostname));
    && members != []
    && (forall se | IsEntryOf(se, members) :: se.hosts == [hostname])
    && exists e | e in Endpoints(members) :: e.cfapp == process
  }

  lemma RuledIff(routes: Routes, internal: bool, hostname: string, process: string)
    ensures Ruled(routes, internal, hostname, process) <==> UsesProcess(routes, internal, hostname, process)
  {
    var members := Members(routes, RULE, ResourceName(RULE, internal, hostname));
    MembersAt(routes, RULE, internal, hostname);
    if UsesProcess(routes, internal, hostname, process) {
      var r :| r in routes && PathRouting.At(r, internal, hostname) && r.capiProcessGUID == process;
      assert r in members;
      var i :| 0 <= i < |members| && members[i] == r;
      assert Subsets(members)[i] == Subset(process, process);
      assert members[0] in members;
    }
    if Ruled(routes, internal, hostname, process) {
      var i :| 0 <= i < |members| && Subsets(members)[i] == Subset(process, process);
      assert members[i] in members;
    }
  }

  lemma LabelledIff(routes: Routes, internal: bool, hostname: string, process: string)
    requires HasBackends(routes)
    ensures Labelled(routes, internal, hostname, process) <==> UsesProcess(routes, internal, hostname, process)
  {
    var members := Backed(routes, ResourceName(ENTRY, internal, hostname));
    FilterAll(routes, HasSome);
    MembersAt(routes, ENTRY, internal, hostname);
    if UsesProcess(routes, internal, hostname, process) {
      var r :| r in routes && PathRouting.At(r, internal, hostname) && r.capiProcessGUID == process;
      assert r in members;
      EndpointLabels(members, r);
      assert members[0] in members;
    }
    if Labelled(routes, internal, hostname, process) {
      var e :| e in Endpoints(members) && e.cfapp == process;
      var r := EndpointsHaveRoutes(members, e);
      assert r in routes && PathRouting.At(r, internal, hostname) && r.capiProcessGUID == process;
    }
  }

  /** Whatever the hosts, paths and keys: no destination of any HTTP route is left dangling. It goes to
      a subset in a destination rule of its host and to an endpoint with its label, under the flag of a
      route of that host; this is the only flag, and so the rule the only one, of a host without both
      internal and external routes. */
  lemma DestinationsResolve(routes: Routes, name: string, t: nat, d: Destination) returns (internal: bool)
    requires HasBackends(routes) && Filter(routes, HasName(name)) != [] && t < |Firsts(routes, name)|
    requires d in ServiceOf(routes, name).http[t].route
    ensures Ruled(routes, internal, d.host, d.subset) && Labelled(routes, internal, d.host, d.subset)
    ensures (forall r, s | r in routes && s in routes && r.hostname == d.host == s.hostname :: r.internal == s.internal)
        ==> forall r | r in routes && r.hostname == d.host :: r.internal == internal
  {
    FirstsLead(routes, name);
    var sharing := Sharing(routes, FullRoute(Firsts(routes, name)[t]));
    var i :| 0 <= i < |sharing| && Destinations(sharing)[i] == d;
    PathRouting.SharingMembers(routes, FullRoute(Firsts(routes, name)[t]));
    var r := sharing[i];
    assert r in sharing;
    internal := r.internal;
    assert PathRouting.At(r, internal, d.host) && r.capiProcessGUID == d.subset;
    RuledIff(routes, internal, d.host, d.subset);
    LabelledIff(routes, internal, d.host, d.subset);
  }

  lemma RoutedIff(routes: Routes, internal: bool, hostname: string, process: string)
    requires HasBackends(routes) && PathRouting.OwnKeys(routes, internal, hostname)
    ensures Routed(routes, internal, hostname, process) <==> UsesProcess(routes, internal, hostname, process)
  {
    var name := ServiceName(internal, hostname);
    FilterMembers(routes, HasName(name));
    if UsesProcess(routes, internal, hostname, process) {
      var r :| r in routes && PathRouting.At(r, internal, hostname) && r.capiProcessGUID == process;
      assert r in Filter(routes, HasName(name));
      var t := PathRouting.Covering(routes, internal, hostname, r);
      RouteIsDestination(routes, internal, hostname, t, r);
    }
    if Routed(routes, internal, hostname, process) {
      var t, d :| 0 <= t < |ServiceOf(routes, name).http| && d in ServiceOf(routes, name).http[t].route
                  && d.host == hostname && d.subset == process;
      var r := DestinationIsRoute(routes, internal, hostname, t, d);
    }
  }

  lemma RouteIsDestination(routes: Routes, internal: bool, hostname: string, t: nat, r: RouteWithBackends)
    requires HasBackends(routes) && PathRouting.OwnKeys(routes, internal, hostname)
    requires Filter(routes, HasName(ServiceName(internal, hostname))) != []
    requires t < |Firsts(routes, ServiceName(internal, hostname))|
    requires r in routes && PathRouting.At(r, internal, hostname)
    requires Firsts(routes, ServiceName(internal, hostname))[t].path == r.path
    ensures CreateDestinationWeight(r) in ServiceOf(routes, ServiceName(internal, hostname)).http[t].route
  {
    var chosen := PathRouting.ForPath(internal, hostname, r.path);
    PathRouting.FirstAt(routes, internal, hostname, t);
    PathRouting.ServesIff(routes, internal, hostname, t);
    FilterMembers(routes, chosen);
    var i :| 0 <= i < |Filter(routes, chosen)| && Filter(routes, chosen)[i] == r;
    assert Destinations(Filter(routes, chosen))[i] == CreateDestinationWeight(r);
  }

  lemma DestinationIsRoute(routes: Routes, internal: bool, hostname: string, t: nat, d: Destination)
    returns (r: RouteWithBackends)
    requires HasBackends(routes) && PathRouting.OwnKeys(routes, internal, hostname)
    requires Filter(routes, HasName(ServiceName(internal, hostname))) != []
    requires t < |Firsts(routes, ServiceName(internal, hostname))|
    requires d in ServiceOf(routes, ServiceName(internal, hostname)).http[t].route
    ensures r in routes && PathRouting.At(r, internal, hostname) && CreateDestinationWeight(r) == d
  {
    var chosen := PathRouting.ForPath(internal, hostname, Firsts(routes, ServiceName(internal, hostname))[t].path);
    PathRouting.FirstAt(routes, internal, hostname, t);
    PathRouting.ServesIff(routes, internal, hostname, t);
    FilterMembers(routes, chosen);
    var i :| 0 <= i < |Filter(routes, chosen)| && Destinations(Filter(routes, chosen))[i] == d;
    r := Filter(routes, chosen)[i];
    assert r in Filter(routes, chosen);
  }

  /** If the keys of a host are its own, the processes that its virtual service routes to, the subsets
      of its destination rule and the labels of its service entry are the same. */
  lemma ResourcesAgree(routes: Routes, internal: bool, hostname: string, process: string)
    requires HasBackends(routes) && PathRouting.OwnKeys(routes, internal, hostname)
    ensures Routed(routes, internal, hostname, process) <==> Ruled(routes, internal, hostname, process)
    ensures Routed(routes, internal, hostname, process) <==> Labelled(routes, internal, hostname, process)
  {
    RoutedIff(routes, internal, hostname, process);
    RuledIff(routes, internal, hostname, process);
    LabelledIff(routes, internal, hostname, process);
  }

  /** So it is for whatever the collector emits. */
  lemma CollectedResourcesAgree(w: World, order: seq<string>, internal: bool, hostname: string, process: string)
    requires Enumeration(w, order) && Pipeline.OwnAddresses(w, internal, hostname)
    ensures HasBackends(Collected(w, order))
    ensures var routes := Collected(w, order);
      && (Routed(routes, internal, hostname, process) <==> Ruled(routes, internal, hostname, process))
      && (Routed(routes, internal, hostname, process) <==> Labelled(routes, internal, hostname, process))
  {
    Pipeline.CollectedHasBackends(w, order);
    Pipeline.CollectedOwnKeys(w, order, internal, hostname);
    ResourcesAgree(Collected(w, order), internal, hostname, process);
  }

  /** The destination has its subset and an endpoint. */
  ghost predicate Resolves(routes: Routes, d: Destination)
    requires HasBackends(routes)
  {
    exists internal :: Ruled(routes, internal, d.host, d.subset) && Labelled(routes, internal, d.host, d.subset)
  }

  /** Nothing at all is asked of the mapped routes for the destinations of what the collector emits to
      resolve. */
  lemma CollectedDestinationsResolve(w: World, order: seq<string>)
    requires Enumeration(w, order)
    ensures HasBackends(Collected(w, order))
    ensures forall name, t, d |
      && Filter(Collected(w, order), HasName(name)) != [] && 0 <= t < |Firsts(Collected(w, order), name)|
      && d in ServiceOf(Collected(w, order), name).http[t].route :: Resolves(Collected(w, order), d)
  {
    Pipeline.CollectedHasBackends(w, order);
    AllResolve(Collected(w, order));
  }

  lemma AllResolve(routes: Routes)
    requires HasBackends(routes)
    ensures forall name, t, d |
      && Filter(routes, HasName(name)) != [] && 0 <= t < |Firsts(routes, name)|
      && d in ServiceOf(routes, name).http[t].route :: Resolves(routes, d)
  {
    forall name, t, d |
      && Filter(routes, HasName(name)) != [] && 0 <= t < |Firsts(routes, name)|
      && d in ServiceOf(routes, name).http[t].route
      ensures Resolves(routes, d)
    {
      var _ := DestinationsResolve(routes, name, t, d);
    }
  }

  /** The endpoints of a collected route carry the address and port of its backends and its process as
      label, and its backends are all that the Diego processes of that process store, on the network of
      the route, by address, ties in the order of the processes and of the store. */
  lemma CollectedEndpoints(w: World, order: seq<string>, r: RouteWithBackends)
    requires Enumeration(w, order) && r in Collected(w, order)
    ensures r.capiProcessGUID in w.associations
    ensures Gathers(w.content, w.associations[r.capiProcessGUID], r.internal, r.backends)
    ensures |EndpointsOf(r)| == |r.backends|
    ensures forall i | 0 <= i < |EndpointsOf(r)| :: EndpointsOf(r)[i].cfapp == r.capiProcessGUID
              && EndpointsOf(r)[i].address == r.backends[i].address && EndpointsOf(r)[i].port == r.backends[i].port
  {
    var k := CollectedFrom(w, order, r);
  }
}
