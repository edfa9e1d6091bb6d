/** snapshot/config.go: CreateVirtualServiceResources turns the collected routes into one ordered
    list of HTTP routes per host. */
module VirtualServices {
  import opened Models
  import opened Sequences
  import opened LeftoverWeights

  const DEFAULT_GATEWAY_NAME := "cloudfoundry-ingress"

  datatype Destination = Destination(host: string, subset: string, port: uint32, weight: int32)

  datatype Retry = Retry(attempts: nat, retryOn: string)

  /** The value of an HTTP route: prefix None matches every request. */
  datatype HTTP = HTTP(
    prefix: Option<string>,
    route: seq<Destination>,
    retries: Option<Retry>,
    timeoutSeconds: Option<nat>)

  datatype Service = Service(hosts: seq<string>, gateways: seq<string>, http: seq<HTTP>)

  type Services = map<string, VirtualService>
  type HTTPRoutes = map<string, HTTPRoute>

  predicate HasBackends(routes: Routes)
  {
    forall r | r in routes :: r.backends != []
  }

  function ServiceName(internal: bool, hostname: string): string
  {
    if internal then "internal/copilot-service-for-" + hostname else "copilot-service-for-" + hostname
  }

  function NameOf(r: RouteWithBackends): string
  {
    ServiceName(r.internal, r.hostname)
  }

  /** The key under which httpRoutes finds the HTTP route of a host and path. */
  function FullRoute(r: RouteWithBackends): string
  {
    r.hostname + r.path
  }

  function HasFullRoute(full: string): RouteWithBackends -> bool
  {
    r => FullRoute(r) == full
  }

  function HasName(name: string): RouteWithBackends -> bool
  {
    r => NameOf(r) == name
  }

  lemma ServiceNameInjective(i: bool, h: string, j: bool, k: string)
    ensures ServiceName(i, h) == ServiceName(j, k) <==> i == j && h == k
  {
    var a, b := "internal/copilot-service-for-", "copilot-service-for-";
    assert (a + h)[0] == 'i' && (b + h)[0] == 'c' && (a + k)[0] == 'i' && (b + k)[0] == 'c';
    assert (a + h)[|a|..] == h && (a + k)[|a|..] == k;
    assert (b + h)[|b|..] == h && (b + k)[|b|..] == k;
  }

  function CreateDestinationWeight(r: RouteWithBackends): Destination
    requires r.backends != []
  {
    Destination(r.hostname, r.capiProcessGUID, r.backends[0].containerPort, r.routeWeight)
  }

  // ----- the result, as a function of the routes

  function Destinations(routes: Routes): (d: seq<Destination>)
    requires HasBackends(routes)
    ensures |d| == |routes|
    ensures forall i | 0 <= i < |routes| :: d[i] == CreateDestinationWeight(routes[i])
  {
    seq(|routes|, i requires 0 <= i < |routes| => CreateDestinationWeight(routes[i]))
  }

  function Sharing(routes: Routes, full: string): (s: Routes)
    ensures HasBackends(routes) ==> HasBackends(s)
  {
    FilterMembers(routes, HasFullRoute(full));
    Filter(routes, HasFullRoute(full))
  }

  function PrefixOf(r: RouteWithBackends): Option<string>
  {
    if r.path != "" && !r.internal then Some(r.path) else None
  }

  /** One HTTP route for all routes of a key: the first decides how it matches. */
  function Merged(sharing: Routes): HTTP
    requires sharing != [] && HasBackends(sharing)
  {
    var first := sharing[0];
    HTTP(PrefixOf(first), Destinations(sharing),
         if first.internal then Some(Retry(3, "5xx")) else None,
         if first.internal then Some(15) else None)
  }

  /** The routes that bring in the HTTP routes of a service, in the order of its list: a route with
      a path goes in front, a route without one to the end. */
  function Firsts(routes: Routes, name: string): Routes
  {
    if routes == [] then []
    else
      var front, r := routes[..|routes| - 1], routes[|routes| - 1];
      var before := Firsts(front, name);
      if NameOf(r) != name then before else NextFirsts(before, r, Sharing(front, FullRoute(r)) != [])
  }

  function NextFirsts(firsts: Routes, r: RouteWithBackends, known: bool): Routes
  {
    if known then firsts else if r.path != "" then [r] + firsts else firsts + [r]
  }

  function GatewaysFor(r: RouteWithBackends): seq<string>
  {
    if r.internal then [] else [DEFAULT_GATEWAY_NAME]
  }

  function ServiceOf(routes: Routes, name: string): Service
    requires HasBackends(routes)
    requires Filter(routes, HasName(name)) != []
  {
    var r := Filter(routes, HasName(name))[0];
    var firsts := Firsts(routes, name);
    FirstsLead(routes, name);
    Service([r.hostname],
            GatewaysFor(r),
            seq(|firsts|, t requires 0 <= t < |firsts| => Merged(Sharing(routes, FullRoute(firsts[t])))))
  }

  /** Each of them leads the routes of its key and belongs to the service. */
  lemma {:induction false} FirstsLead(routes: Routes, name: string)
    ensures forall f | f in Firsts(routes, name) ::
      && NameOf(f) == name
      && Sharing(routes, FullRoute(f)) != [] && Sharing(routes, FullRoute(f))[0] == f
  {
    if routes != [] {
      var front, r := routes[..|routes| - 1], routes[|routes| - 1];
      FirstsLead(front, name);
      assert routes == front + [r];
      forall f | f in Firsts(routes, name)
        ensures NameOf(f) == name && Sharing(routes, FullRoute(f)) != [] && Sharing(routes, FullRoute(f))[0] == f
      {
        SharingNext(front, r, FullRoute(f));
      }
    }
  }

  lemma SharingNext(routes: Routes, r: RouteWithBackends, full: string)
    ensures Sharing(routes + [r], full) ==
            if full == FullRoute(r) then Sharing(routes, full) + [r] else Sharing(routes, full)
  {
    FilterSnoc(routes, r, HasFullRoute(full));
  }

  // ----- the loop, over shared objects

  class HTTPRoute {
    var prefix: Option<string>
    var route: seq<Destination>
    const retries: Option<Retry>
    const timeoutSeconds: Option<nat>

    /** The HTTP route of one route, which matches everything; internal ones are retried. */
    constructor (r: RouteWithBackends)
      requires r.backends != []
      ensures prefix == None && route == [CreateDestinationWeight(r)]
      ensures retries == if r.internal then Some(Retry(3, "5xx")) else None
      ensures timeoutSeconds == if r.internal then Some(15) else None
    {
      prefix := None;
      route := [CreateDestinationWeight(r)];
      retries := if r.internal then Some(Retry(3, "5xx")) else None;
      timeoutSeconds := if r.internal then Some(15) else None;
    }

    function Value(): HTTP
      reads this
    {
      HTTP(prefix, route, retries, timeoutSeconds)
    }
  }

  class VirtualService {
    var hosts: seq<string>
    var gateways: seq<string>
    var http: seq<HTTPRoute>

    constructor (hosts: seq<string>, gateways: seq<string>)
      ensures this.hosts == hosts && this.gateways == gateways && http == []
    {
      this.hosts, this.gateways, this.http := hosts, gateways, [];
    }
  }

  ghost predicate InjectiveHTTP(httpRoutes: HTTPRoutes)
  {
    forall f, g | f in httpRoutes && g in httpRoutes && f != g :: httpRoutes[f] != httpRoutes[g]
  }

  lemma InjectiveUpdate(httpRoutes: HTTPRoutes, full: string, h: HTTPRoute)
    requires InjectiveHTTP(httpRoutes) && h !in httpRoutes.Values && full !in httpRoutes
    ensures InjectiveHTTP(httpRoutes[full := h])
  {
    var all := httpRoutes[full := h];
    forall f, g | f in all && g in all && f != g ensures all[f] != all[g] {
      assert f in httpRoutes ==> httpRoutes[f] in httpRoutes.Values;
      assert g in httpRoutes ==> httpRoutes[g] in httpRoutes.Values;
    }
  }

  ghost predicate RepresentsHTTP(routes: Routes, httpRoutes: HTTPRoutes)
    requires HasBackends(routes)
    reads httpRoutes.Values
  {
    && (forall full :: full in httpRoutes <==> Sharing(routes, full) != [])
    && InjectiveHTTP(httpRoutes)
    && (forall full | full in httpRoutes :: httpRoutes[full].Value() == Merged(Sharing(routes, full)))
  }

  /** The list of a service holds the shared HTTP routes that its first routes brought in. */
  ghost predicate RepresentsList(firsts: Routes, http: seq<HTTPRoute>, httpRoutes: HTTPRoutes)
  {
    && |http| == |firsts|
    && forall t | 0 <= t < |firsts| ::
         FullRoute(firsts[t]) in httpRoutes && http[t] == httpRoutes[FullRoute(firsts[t])]
  }

  ghost predicate RepresentsService(routes: Routes, name: string, vs: VirtualService, httpRoutes: HTTPRoutes)
    reads vs
  {
    && Filter(routes, HasName(name)) != []
    && (var r := Filter(routes, HasName(name))[0]; vs.hosts == [r.hostname] && vs.gateways == GatewaysFor(r))
    && RepresentsList(Firsts(routes, name), vs.http, httpRoutes)
  }

  ghost predicate InjectiveServices(services: Services)
  {
    forall m, n | m in services && n in services && m != n :: services[m] != services[n]
  }

  ghost predicate RepresentsServices(routes: Routes, services: Services, httpRoutes: HTTPRoutes)
    reads services.Values
  {
    && (forall name :: name in services <==> Filter(routes, HasName(name)) != [])
    && InjectiveServices(services)
    && (forall name | name in services :: RepresentsService(routes, name, services[name], httpRoutes))
  }

  // ----- one more route, in the specification

  lemma MergedNext(sharing: Routes, r: RouteWithBackends)
    requires sharing != [] && HasBackends(sharing) && r.backends != []
    ensures HasBackends(sharing + [r])
    ensures Merged(sharing + [r]) ==
            Merged(sharing).(route := Merged(sharing).route + [CreateDestinationWeight(r)])
  {
    assert Destinations(sharing + [r]) == Destinations(sharing) + [CreateDestinationWeight(r)];
  }

  lemma NamedNext(routes: Routes, r: RouteWithBackends, name: string)
    ensures Filter(routes + [r], HasName(name)) ==
            if name == NameOf(r) then Filter(routes, HasName(name)) + [r] else Filter(routes, HasName(name))
  {
    FilterSnoc(routes, r, HasName(name));
  }

  lemma FirstsNext(routes: Routes, r: RouteWithBackends, name: string)
    ensures Firsts(routes + [r], name) ==
            if NameOf(r) != name then Firsts(routes, name)
            else NextFirsts(Firsts(routes, name), r, Sharing(routes, FullRoute(r)) != [])
  {
    assert (routes + [r])[..|routes + [r]| - 1] == routes;
  }

  // ----- one more route, in the loop

  /** Adds the destination of the route to the HTTP route that shares its key. */
  method AppendDestination(ghost routes: Routes, r: RouteWithBackends, ghost httpRoutes: HTTPRoutes, h: HTTPRoute)
    requires HasBackends(routes) && HasBackends(routes + [r]) && r.backends != []
    requires RepresentsHTTP(routes, httpRoutes)
    requires FullRoute(r) in httpRoutes && h == httpRoutes[FullRoute(r)]
    modifies h
    ensures RepresentsHTTP(routes + [r], httpRoutes)
  {
    MergedNext(Sharing(routes, FullRoute(r)), r);
    h.route := h.route + [CreateDestinationWeight(r)];
    forall full ensures Sharing(routes + [r], full) ==
                        if full == FullRoute(r) then Sharing(routes, full) + [r] else Sharing(routes, full)
    {
      SharingNext(routes, r, full);
    }
  }

  /** A new HTTP route, which matches external requests by its path. */
  method NewHTTPRoute(r: RouteWithBackends) returns (h: HTTPRoute)
    requires r.backends != []
    ensures fresh(h) && h.Value() == Merged([r])
  {
    h := new HTTPRoute(r);
    if r.path != "" {
      if !r.internal {
        h.prefix := Some(r.path);
      }
    }
    assert Destinations([r]) == [CreateDestinationWeight(r)];
  }

  lemma NewSharing(routes: Routes, r: RouteWithBackends)
    requires Sharing(routes, FullRoute(r)) == []
    ensures forall full ::
      Sharing(routes + [r], full) == if full == FullRoute(r) then [r] else Sharing(routes, full)
  {
    forall full ensures Sharing(routes + [r], full) ==
                        if full == FullRoute(r) then [r] else Sharing(routes, full)
    {
      SharingNext(routes, r, full);
    }
  }

  lemma HTTPAdded(routes: Routes, r: RouteWithBackends, httpRoutes: HTTPRoutes, h: HTTPRoute)
    requires HasBackends(routes) && HasBackends(routes + [r]) && r.backends != []
    requires RepresentsHTTP(routes, httpRoutes)
    requires FullRoute(r) !in httpRoutes && h !in httpRoutes.Values && h.Value() == Merged([r])
    ensures RepresentsHTTP(routes + [r], httpRoutes[FullRoute(r) := h])
  {
    InjectiveUpdate(httpRoutes, FullRoute(r), h);
    NewSharing(routes, r);
  }

  predicate Extends(all: HTTPRoutes, httpRoutes: HTTPRoutes)
  {
    forall f | f in httpRoutes :: f in all && all[f] == httpRoutes[f]
  }

  /** A service that the route does not belong to stays as it is. */
  lemma OtherService(routes: Routes, r: RouteWithBackends, name: string, vs: VirtualService,
                     httpRoutes: HTTPRoutes, all: HTTPRoutes)
    requires RepresentsService(routes, name, vs, httpRoutes) && Extends(all, httpRoutes)
    requires name != NameOf(r)
    ensures RepresentsService(routes + [r], name, vs, all)
  {
    NamedNext(routes, r, name);
    FirstsNext(routes, r, name);
  }

  /** The service of the route keeps its host and gateways. */
  lemma {:induction false} LeadRoute(routes: Routes, r: RouteWithBackends)
    ensures var named := Filter(routes + [r], HasName(NameOf(r)));
      && named != []
      && named[0].hostname == r.hostname && named[0].internal == r.internal
      && (Filter(routes, HasName(NameOf(r))) != [] ==> named[0] == Filter(routes, HasName(NameOf(r)))[0])
  {
    NamedNext(routes, r, NameOf(r));
    var named := Filter(routes + [r], HasName(NameOf(r)));
    FilterMembers(routes + [r], HasName(NameOf(r)));
    assert named[0] in named && NameOf(named[0]) == NameOf(r);
    ServiceNameInjective(named[0].internal, named[0].hostname, r.internal, r.hostname);
  }

  lemma {:induction false} NoFirsts(routes: Routes, name: string)
    requires Filter(routes, HasName(name)) == []
    ensures Firsts(routes, name) == []
  {
    if routes != [] { NoFirsts(routes[..|routes| - 1], name); }
  }

  lemma ListGrows(firsts: Routes, r: RouteWithBackends, http: seq<HTTPRoute>, httpRoutes: HTTPRoutes, h: HTTPRoute)
    requires RepresentsList(firsts, http, httpRoutes) && FullRoute(r) !in httpRoutes
    ensures RepresentsList([r] + firsts, [h] + http, httpRoutes[FullRoute(r) := h])
    ensures RepresentsList(firsts + [r], http + [h], httpRoutes[FullRoute(r) := h])
  {
  }

  /** Puts a new HTTP route for the route into the map and the list. */
  method PlaceHTTPRoute(ghost routes: Routes, ghost firsts: Routes, r: RouteWithBackends, vs: VirtualService,
                        httpRoutes: HTTPRoutes)
    returns (all: HTTPRoutes, h: HTTPRoute)
    requires HasBackends(routes) && HasBackends(routes + [r]) && r.backends != []
    requires RepresentsHTTP(routes, httpRoutes) && RepresentsList(firsts, vs.http, httpRoutes)
    requires FullRoute(r) !in httpRoutes
    modifies vs`http
    ensures RepresentsHTTP(routes + [r], all)
    ensures RepresentsList(NextFirsts(firsts, r, false), vs.http, all)
    ensures fresh(h) && all == httpRoutes[FullRoute(r) := h]
  {
    h := NewHTTPRoute(r);
    ListGrows(firsts, r, vs.http, httpRoutes, h);
    HTTPAdded(routes, r, httpRoutes, h);
    all := httpRoutes[FullRoute(r) := h];
    if r.path != "" {
      vs.http := [h] + vs.http;
    } else {
      vs.http := vs.http + [h];
    }
  }

  /** Puts the destination of the route into the shared HTTP route, or a new one into the list. */
  method PlaceDestination(ghost routes: Routes, ghost firsts: Routes, r: RouteWithBackends, vs: VirtualService,
                          httpRoutes: HTTPRoutes)
    returns (all: HTTPRoutes)
    requires HasBackends(routes) && HasBackends(routes + [r]) && r.backends != []
    requires RepresentsHTTP(routes, httpRoutes) && RepresentsList(firsts, vs.http, httpRoutes)
    modifies vs`http, httpRoutes.Values
    ensures RepresentsHTTP(routes + [r], all)
    ensures RepresentsList(NextFirsts(firsts, r, FullRoute(r) in httpRoutes), vs.http, all)
    ensures Extends(all, httpRoutes)
    ensures forall f | f in all && f !in httpRoutes :: fresh(all[f])
  {
    var fullRoute := FullRoute(r);
    if fullRoute in httpRoutes {
      all := httpRoutes;
      AppendDestination(routes, r, httpRoutes, httpRoutes[fullRoute]);
    } else {
      var h: HTTPRoute;
      all, h := PlaceHTTPRoute(routes, firsts, r, vs, httpRoutes);
    }
  }

  lemma NamesUpdated(routes: Routes, r: RouteWithBackends, names: set<string>)
    requires forall name :: name in names <==> Filter(routes, HasName(name)) != []
    ensures forall name :: name in names + {NameOf(r)} <==> Filter(routes + [r], HasName(name)) != []
  {
    forall name ensures name in names + {NameOf(r)} <==> Filter(routes + [r], HasName(name)) != [] {
      NamedNext(routes, r, name);
    }
  }

  lemma InjectiveUpdated(services: Services, name: string, vs: VirtualService)
    requires InjectiveServices(services)
    requires if name in services then vs == services[name] else vs !in services.Values
    ensures InjectiveServices(services[name := vs])
  {
    var updated := services[name := vs];
    forall m, n | m in updated && n in updated && m != n ensures updated[m] != updated[n] {
      assert m in services ==> services[m] in services.Values;
      assert n in services ==> services[n] in services.Values;
    }
  }

  lemma OthersUpdated(routes: Routes, r: RouteWithBackends, services: Services,
                      httpRoutes: HTTPRoutes, all: HTTPRoutes)
    requires Extends(all, httpRoutes)
    requires forall n | n in services && n != NameOf(r) :: RepresentsService(routes, n, services[n], httpRoutes)
    ensures forall n | n in services && n != NameOf(r) :: RepresentsService(routes + [r], n, services[n], all)
  {
    forall n | n in services && n != NameOf(r) ensures RepresentsService(routes + [r], n, services[n], all) {
      OtherService(routes, r, n, services[n], httpRoutes, all);
    }
  }

  lemma ServicesUpdated(routes: Routes, r: RouteWithBackends, services: Services, vs: VirtualService,
                        httpRoutes: HTTPRoutes, all: HTTPRoutes)
    requires forall name :: name in services <==> Filter(routes, HasName(name)) != []
    requires InjectiveServices(services) && Extends(all, httpRoutes)
    requires if NameOf(r) in services then vs == services[NameOf(r)] else vs !in services.Values
    requires forall n | n in services && n != NameOf(r) :: RepresentsService(routes, n, services[n], httpRoutes)
    requires vs.hosts == [r.hostname] && vs.gateways == GatewaysFor(r)
    requires RepresentsList(Firsts(routes + [r], NameOf(r)), vs.http, all)
    ensures RepresentsServices(routes + [r], services[NameOf(r) := vs], all)
  {
    LeadRoute(routes, r);
    assert RepresentsService(routes + [r], NameOf(r), vs, all);
    NamesUpdated(routes, r, services.Keys);
    InjectiveUpdated(services, NameOf(r), vs);
    OthersUpdated(routes, r, services, httpRoutes, all);
    assert services[NameOf(r) := vs].Keys == services.Keys + {NameOf(r)};
  }

  /** The service of a route, or a new one without HTTP routes. */
  method FindService(ghost routes: Routes, r: RouteWithBackends, services: Services,
                     ghost httpRoutes: HTTPRoutes)
    returns (vs: VirtualService)
    requires RepresentsServices(routes, services, httpRoutes)
    ensures if NameOf(r) in services then vs == services[NameOf(r)] else fresh(vs)
    ensures vs.hosts == [r.hostname] && vs.gateways == GatewaysFor(r)
    ensures RepresentsList(Firsts(routes, NameOf(r)), vs.http, httpRoutes)
  {
    LeadRoute(routes, r);
    if NameOf(r) in services {
      vs := services[NameOf(r)];
    } else {
      vs := new VirtualService([r.hostname], GatewaysFor(r));
      NoFirsts(routes, NameOf(r));
    }
  }

  /** Finds the service of the route and puts the destination of the route in its place. */
  method UpdateService(ghost routes: Routes, r: RouteWithBackends,
                       services: Services, httpRoutes: HTTPRoutes)
    returns (vs: VirtualService, httpRoutes': HTTPRoutes)
    requires HasBackends(routes) && HasBackends(routes + [r]) && r.backends != []
    requires RepresentsHTTP(routes, httpRoutes) && RepresentsServices(routes, services, httpRoutes)
    modifies services.Values, httpRoutes.Values
    ensures if NameOf(r) in services then vs == services[NameOf(r)] else fresh(vs)
    ensures forall n | n in services && n != NameOf(r) :: unchanged(services[n])
    ensures vs.hosts == [r.hostname] && vs.gateways == GatewaysFor(r)
    ensures RepresentsHTTP(routes + [r], httpRoutes')
    ensures RepresentsList(Firsts(routes + [r], NameOf(r)), vs.http, httpRoutes')
    ensures Extends(httpRoutes', httpRoutes)
    ensures forall f | f in httpRoutes' && f !in httpRoutes :: fresh(httpRoutes'[f])
  {
    vs := FindService(routes, r, services, httpRoutes);
    assert NameOf(r) in services ==> vs in services.Values;
    assert forall n | n in services && n != NameOf(r) :: services[n] in services.Values && services[n] != vs;
    FirstsNext(routes, r, NameOf(r));
    httpRoutes' := PlaceDestination(routes, Firsts(routes, NameOf(r)), r, vs, httpRoutes);
  }

  /** Does that, and leaves every other service what it was. */
  method UpdateOneService(ghost routes: Routes, r: RouteWithBackends,
                          services: Services, httpRoutes: HTTPRoutes)
    returns (vs: VirtualService, httpRoutes': HTTPRoutes)
    requires HasBackends(routes) && HasBackends(routes + [r]) && r.backends != []
    requires RepresentsHTTP(routes, httpRoutes) && RepresentsServices(routes, services, httpRoutes)
    modifies services.Values, httpRoutes.Values
    ensures if NameOf(r) in services then vs == services[NameOf(r)] else fresh(vs)
    ensures forall n | n in services && n != NameOf(r) :: RepresentsService(routes, n, services[n], httpRoutes)
    ensures vs.hosts == [r.hostname] && vs.gateways == GatewaysFor(r)
    ensures RepresentsHTTP(routes + [r], httpRoutes')
    ensures RepresentsList(Firsts(routes + [r], NameOf(r)), vs.http, httpRoutes')
    ensures Extends(httpRoutes', httpRoutes)
    ensures forall f | f in httpRoutes' && f !in httpRoutes :: fresh(httpRoutes'[f])
  {
    vs, httpRoutes' := UpdateService(routes, r, services, httpRoutes);
    forall n | n in services && n != NameOf(r) ensures RepresentsService(routes, n, services[n], httpRoutes) {
      assert old(RepresentsService(routes, n, services[n], httpRoutes));
    }
  }

  /** The body of the loop over the routes. */
  method AddRoute(ghost routes: Routes, r: RouteWithBackends,
                  services: Services, httpRoutes: HTTPRoutes)
    returns (services': Services, httpRoutes': HTTPRoutes)
    requires HasBackends(routes) && HasBackends(routes + [r]) && r.backends != []
    requires RepresentsHTTP(routes, httpRoutes) && RepresentsServices(routes, services, httpRoutes)
    modifies services.Values, httpRoutes.Values
    ensures RepresentsHTTP(routes + [r], httpRoutes')
    ensures RepresentsServices(routes + [r], services', httpRoutes')
    ensures Extends(httpRoutes', httpRoutes)
    ensures forall f | f in httpRoutes' && f !in httpRoutes :: fresh(httpRoutes'[f])
    ensures forall n | n in services' :: if n in services then services'[n] == services[n] else fresh(services'[n])
  {
    var vs: VirtualService;
    vs, httpRoutes' := UpdateOneService(routes, r, services, httpRoutes);
    services' := services[NameOf(r) := vs];
    ServicesUpdated(routes, r, services, vs, httpRoutes, httpRoutes');
  }

  lemma NextHasBackends(routes: Routes, done: Routes, i: nat)
    requires HasBackends(routes) && i < |routes| && done == routes[..i]
    ensures HasBackends(done + [routes[i]]) && routes[i].backends != []
    ensures done + [routes[i]] == routes[..i + 1]
  {
  }

  /** The loop over the routes. */
  method BuildServices(routes: Routes)
    returns (virtualServices: Services, httpRoutes: HTTPRoutes)
    requires HasBackends(routes)
    ensures RepresentsHTTP(routes, httpRoutes) && RepresentsServices(routes, virtualServices, httpRoutes)
  {
    virtualServices, httpRoutes := map[], map[];
    ghost var done: Routes := [];
    for i := 0 to |routes|
      invariant done == routes[..i]
      invariant HasBackends(done)
      invariant RepresentsHTTP(done, httpRoutes) && RepresentsServices(done, virtualServices, httpRoutes)
      invariant forall n | n in virtualServices :: fresh(virtualServices[n])
      invariant forall f | f in httpRoutes :: fresh(httpRoutes[f])
    {
      NextHasBackends(routes, done, i);
      virtualServices, httpRoutes := AddRoute(done, routes[i], virtualServices, httpRoutes);
      done := done + [routes[i]];
    }
    assert done == routes;
  }

  /** The name of the service of r. */
  predicate ServiceNamed(r: RouteWithBackends, name: string)
  {
    name == (if r.internal then "internal/copilot-service-for-" else "copilot-service-for-") + r.hostname
  }

  lemma SomeNamed(routes: Routes, name: string)
    ensures Filter(routes, HasName(name)) != [] <==> exists r | r in routes :: ServiceNamed(r, name)
  {
    FilterMembers(routes, HasName(name));
    if Filter(routes, HasName(name)) != [] {
      assert Filter(routes, HasName(name))[0] in Filter(routes, HasName(name));
    }
    if r :| r in routes && ServiceNamed(r, name) { assert r in Filter(routes, HasName(name)); }
  }

  /** The resources by name; names are those of the routes' services. */
  method CreateVirtualServiceResources(routes: Routes) returns (resources: map<string, Service>)
    requires HasBackends(routes)
    ensures forall name :: name in resources <==> exists r | r in routes :: ServiceNamed(r, name)
    ensures forall name :: name in resources <==> Filter(routes, HasName(name)) != []
    ensures forall name | name in resources :: resources[name] == ServiceOf(routes, name)
  {
    var virtualServices, httpRoutes := BuildServices(routes);
    resources := MarshalAll(virtualServices);
    RepresentedValues(routes, virtualServices, httpRoutes);
    forall name ensures name in resources <==> exists r | r in routes :: ServiceNamed(r, name) {
      SomeNamed(routes, name);
    }
  }

  lemma RepresentedValues(routes: Routes, services: Services, httpRoutes: HTTPRoutes)
    requires HasBackends(routes)
    requires RepresentsHTTP(routes, httpRoutes) && RepresentsServices(routes, services, httpRoutes)
    ensures forall name | name in services ::
      Filter(routes, HasName(name)) != [] && ValueOf(services[name]) == ServiceOf(routes, name)
  {
    forall name | name in services
      ensures Filter(routes, HasName(name)) != [] && ValueOf(services[name]) == ServiceOf(routes, name)
    {
      RepresentedValue(routes, name, services[name], httpRoutes);
    }
  }

  /** The value of a service and of the HTTP routes it points to. */
  function ValueOf(vs: VirtualService): Service
    reads vs, vs.http
  {
    Service(vs.hosts, vs.gateways,
            seq(|vs.http|, t requires 0 <= t < |vs.http| reads vs, vs.http => vs.http[t].Value()))
  }

  lemma RepresentedValue(routes: Routes, name: string, vs: VirtualService, httpRoutes: HTTPRoutes)
    requires HasBackends(routes)
    requires RepresentsHTTP(routes, httpRoutes) && RepresentsService(routes, name, vs, httpRoutes)
    ensures ValueOf(vs) == ServiceOf(routes, name)
  {
    FirstsLead(routes, name);
    var firsts := Firsts(routes, name);
    forall t | 0 <= t < |firsts| ensures vs.http[t].Value() == Merged(Sharing(routes, FullRoute(firsts[t]))) {
      assert firsts[t] in firsts;
    }
  }

  /** One resource per service, in whatever order the map is enumerated. */
  method MarshalAll(virtualServices: Services) returns (resources: map<string, Service>)
    ensures resources.Keys == virtualServices.Keys
    ensures forall name | name in resources :: resources[name] == ValueOf(virtualServices[name])
  {
    resources := map[];
    var left := virtualServices.Keys;
    while left != {}
      invariant left <= virtualServices.Keys
      invariant resources.Keys == virtualServices.Keys - left
      invariant forall name | name in resources :: resources[name] == ValueOf(virtualServices[name])
      decreases left
    {
      var name :| name in left;
      resources := resources[name := ValueOf(virtualServices[name])];
      left := left - {name};
    }
  }
}
