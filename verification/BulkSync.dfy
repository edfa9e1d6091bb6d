/** The bulk sync: the Ruby client cuts an encoded request into chunks, and handlers/capi.go puts it
    together again and replaces the contents of all three repositories. */
module BulkSync {
  import opened Models
  import opened Sequences
  import RouteMappings
  import RouteIndex
  import Associations

  type Byte = x: int | 0 <= x < 256

  const CHUNK_SIZE := 64 * 1024

  // ----- the client

  /** Ruby's s[first..last] for first >= 0: nil behind the end, a negative last counts from the end. */
  function RubySlice(s: seq<Byte>, first: nat, last: int): Option<seq<Byte>>
  {
    if first > |s| then None
    else
      var l := if last < 0 then last + |s| else last;
      var stop := if l + 1 < first then first else if l + 1 > |s| then |s| else l + 1;
      Some(s[first..stop])
  }

  /** to_s makes nil the empty string. */
  function ToS(s: Option<seq<Byte>>): seq<Byte>
  {
    match s
    case None => []
    case Some(bytes) => bytes
  }

  function Concat(chunks: seq<seq<Byte>>): seq<Byte>
  {
    if chunks == [] then [] else Concat(chunks[..|chunks| - 1]) + chunks[|chunks| - 1]
  }

  lemma ConcatNext(chunks: seq<seq<Byte>>, c: seq<Byte>)
    ensures Concat(chunks + [c]) == Concat(chunks) + c
  {
    assert (chunks + [c])[..|chunks + [c]| - 1] == chunks;
  }

  lemma ChunkCount(n: nat, k: nat)
    requires n <= k * 65536 < n + 65536
    ensures k == (n + 65535) / 65536
  {
  }

  /** BulkSyncEnum#each: chunks of at most 64KB, whose concatenation is the input, closed by an empty
      one. */
  method Each(allBytes: seq<Byte>) returns (chunks: seq<seq<Byte>>)
    ensures Concat(chunks) == allBytes
    ensures |chunks| == (|allBytes| + 65535) / 65536 + 1
    ensures forall i | 0 <= i < |chunks| :: |chunks[i]| <= 65536
    ensures chunks[|chunks| - 1] == []
    ensures forall i | 0 <= i < |chunks| - 2 :: |chunks[i]| == 65536
    ensures |chunks| >= 2 ==> chunks[|chunks| - 2] != []
  {
    chunks := [];
    var currentByte := 0;
    while currentByte < |allBytes|
      invariant currentByte == |chunks| * CHUNK_SIZE
      invariant Concat(chunks) == allBytes[..if currentByte < |allBytes| then currentByte else |allBytes|]
      invariant currentByte < |allBytes| + CHUNK_SIZE
      invariant forall i | 0 <= i < |chunks| :: 0 < |chunks[i]| <= CHUNK_SIZE
      invariant forall i | 0 <= i < |chunks| - 1 :: |chunks[i]| == CHUNK_SIZE
      invariant currentByte <= |allBytes| ==> forall i | 0 <= i < |chunks| :: |chunks[i]| == CHUNK_SIZE
      decreases |allBytes| - currentByte
    {
      var chunk := ToS(RubySlice(allBytes, currentByte, currentByte + CHUNK_SIZE - 1));
      ConcatNext(chunks, chunk);
      chunks := chunks + [chunk];
      currentByte := currentByte + CHUNK_SIZE;
    }
    ChunkCount(|allBytes|, |chunks|);
    var chunk := ToS(RubySlice(allBytes, currentByte, |allBytes| - 1));
    ConcatNext(chunks, chunk);
    chunks := chunks + [chunk];
    assert allBytes[..|allBytes|] == allBytes;
  }

  // ----- the server

  datatype ApiMapping = ApiMapping(capiProcessGuid: string, routeGuid: string, routeWeight: uint32)

  datatype ApiRoute = ApiRoute(guid: string, host: string, path: string, internal: bool, vip: string)

  datatype ApiAssociation = ApiAssociation(capiProcessGuid: string, diegoProcessGuids: seq<string>)

  datatype Request = Request(routeMappings: seq<ApiMapping>, routes: seq<ApiRoute>, associations: seq<ApiAssociation>)

  const EMPTY_REQUEST := Request([], [], [])

  function ToMapping(m: ApiMapping): RouteMapping
  {
    RouteMapping(m.routeGuid, m.capiProcessGuid, m.routeWeight)
  }

  function ToRoute(r: ApiRoute): Route
  {
    Route(r.guid, r.host, r.path, r.internal, r.vip)
  }

  function ToAssociation(a: ApiAssociation): Associations.Association
  {
    Associations.Association(a.capiProcessGuid, a.diegoProcessGuids)
  }

  /** The items of a request, as the repositories take them. */
  function Mappings(r: Request): (s: seq<RouteMapping>)
    ensures |s| == |r.routeMappings| && forall i | 0 <= i < |s| :: s[i] == ToMapping(r.routeMappings[i])
  {
    seq(|r.routeMappings|, i requires 0 <= i < |r.routeMappings| => ToMapping(r.routeMappings[i]))
  }

  function Routes(r: Request): (s: seq<Route>)
    ensures |s| == |r.routes| && forall i | 0 <= i < |s| :: s[i] == ToRoute(r.routes[i])
  {
    seq(|r.routes|, i requires 0 <= i < |r.routes| => ToRoute(r.routes[i]))
  }

  function Associated(r: Request): (s: seq<Associations.Association>)
    ensures |s| == |r.associations| && forall i | 0 <= i < |s| :: s[i] == ToAssociation(r.associations[i])
  {
    seq(|r.associations|, i requires 0 <= i < |r.associations| => ToAssociation(r.associations[i]))
  }

  /** How the stream of chunks ends: in order, or with a receive error. */
  datatype End = Closed | Broken(error: string)

  datatype Stream = Stream(chunks: seq<seq<Byte>>, end: End)

  datatype Response = Done(totalBytesReceived: int32) | Error(error: string)

  datatype State = State(mappings: RouteMappings.State, routes: RouteIndex.State, associations: Associations.Repo)

  const EMPTY := State(RouteMappings.EMPTY, RouteIndex.EMPTY, map[])

  /** Fresh repositories fed the items of the request one at a time. */
  function Replayed(r: Request): State
  {
    State(RouteMappings.MappedAll(RouteMappings.EMPTY, Mappings(r)),
          RouteIndex.UpsertedAll(RouteIndex.EMPTY, Routes(r)),
          Associations.UpsertedAll(map[], Associated(r)))
  }

  // ----- what they hold then, field by field

  function HasGuid(g: string): ApiRoute -> bool { (r: ApiRoute) => r.guid == g }

  function HasHost(h: string): ApiRoute -> bool { (r: ApiRoute) => r.host == h }

  function HasKey(k: string): ApiMapping -> bool { (m: ApiMapping) => m.routeGuid + "-" + m.capiProcessGuid == k }

  function HasProcess(g: string): ApiAssociation -> bool { (a: ApiAssociation) => a.capiProcessGuid == g }

  /** The route stored for g, if there is an item with that GUID, has the five fields of the last one. */
  predicate HoldsRoute(s: RouteIndex.State, items: seq<ApiRoute>, g: string)
  {
    var i := LastIndex(items, HasGuid(g));
    && (g in s.repo <==> i >= 0)
    && (i >= 0 ==>
          && s.repo[g].guid == items[i].guid && s.repo[g].host == items[i].host && s.repo[g].path == items[i].path
          && s.repo[g].internal == items[i].internal && s.repo[g].vip == items[i].vip)
  }

  /** A host leads to the GUID of the last item with it. */
  predicate HoldsHost(s: RouteIndex.State, items: seq<ApiRoute>, h: string)
  {
    var i := LastIndex(items, HasHost(h));
    (h in s.byHostname <==> i >= 0) && (i >= 0 ==> s.byHostname[h] == items[i].guid)
  }

  /** The mapping stored under k, if there is an item with that key, has the three fields of the last. */
  predicate HoldsMapping(s: RouteMappings.State, items: seq<ApiMapping>, k: string)
  {
    var i := LastIndex(items, HasKey(k));
    && (k in s.repo <==> i >= 0)
    && (i >= 0 ==>
          && s.repo[k].routeGUID == items[i].routeGuid && s.repo[k].capiProcessGUID == items[i].capiProcessGuid
          && s.repo[k].routeWeight == items[i].routeWeight)
  }

  /** What an item adds to the denominator of route g. */
  function WeightFor(g: string): ApiMapping -> int
  {
    (m: ApiMapping) => if m.routeGuid == g then m.routeWeight else 0
  }

  /** The denominator of a route is the sum over its items, modulo 2^32. */
  predicate HoldsDenominator(s: RouteMappings.State, items: seq<ApiMapping>, g: string)
  {
    RouteMappings.Lookup(s.denominators, g) == Sum(items, WeightFor(g)) % 0x1_0000_0000
  }

  /** The Diego processes stored for a CAPI process are those of the last item for it. */
  predicate HoldsAssociation(s: Associations.Repo, items: seq<ApiAssociation>, g: string)
  {
    var i := LastIndex(items, HasProcess(g));
    (g in s <==> i >= 0) && (i >= 0 ==> s[g] == items[i].diegoProcessGuids)
  }

  ghost predicate HoldsRequest(s: State, r: Request)
  {
    HoldsRoutes(s.routes, r.routes) && HoldsMappings(s.mappings, r.routeMappings)
    && forall g :: HoldsAssociation(s.associations, r.associations, g)
  }

  ghost predicate HoldsRoutes(s: RouteIndex.State, items: seq<ApiRoute>)
  {
    (forall g :: HoldsRoute(s, items, g)) && forall h :: HoldsHost(s, items, h)
  }

  ghost predicate HoldsMappings(s: RouteMappings.State, items: seq<ApiMapping>)
  {
    (forall k :: HoldsMapping(s, items, k)) && forall g :: HoldsDenominator(s, items, g)
  }

  lemma {:induction false} SyncedRoute(list: seq<Route>, items: seq<ApiRoute>, g: string)
    requires |list| == |items| && forall i | 0 <= i < |list| :: list[i] == ToRoute(items[i])
    ensures HoldsRoute(RouteIndex.UpsertedAll(RouteIndex.EMPTY, list), items, g)
    ensures HoldsHost(RouteIndex.UpsertedAll(RouteIndex.EMPTY, list), items, g)
  {
    if items != [] {
      var front, item := items[..|items| - 1], items[|items| - 1];
      SyncedRoute(list[..|list| - 1], front, g);
      assert items == front + [item];
      LastIndexSnoc(front, item, HasGuid(g));
      LastIndexSnoc(front, item, HasHost(g));
    }
  }

  lemma {:induction false} SyncedMapping(list: seq<RouteMapping>, items: seq<ApiMapping>, k: string)
    requires |list| == |items| && forall i | 0 <= i < |list| :: list[i] == ToMapping(items[i])
    ensures HoldsMapping(RouteMappings.MappedAll(RouteMappings.EMPTY, list), items, k)
    ensures HoldsDenominator(RouteMappings.MappedAll(RouteMappings.EMPTY, list), items, k)
  {
    if items != [] {
      var front, item := items[..|items| - 1], items[|items| - 1];
      SyncedMapping(list[..|list| - 1], front, k);
      assert items == front + [item];
      LastIndexSnoc(front, item, HasKey(k));
      WrapAdd(Sum(front, WeightFor(k)), item.routeWeight);
    }
  }

  lemma {:induction false} SyncedAssociation(list: seq<Associations.Association>, items: seq<ApiAssociation>, g: string)
    requires |list| == |items| && forall i | 0 <= i < |list| :: list[i] == ToAssociation(items[i])
    ensures HoldsAssociation(Associations.UpsertedAll(map[], list), items, g)
  {
    if items != [] {
      var front, item := items[..|items| - 1], items[|items| - 1];
      SyncedAssociation(list[..|list| - 1], front, g);
      assert items == front + [item];
      LastIndexSnoc(front, item, HasProcess(g));
    }
  }

  /** Fed the items one at a time, fresh repositories hold the request. */
  lemma ReplayedHolds(r: Request)
    ensures HoldsRequest(Replayed(r), r)
  {
    forall g ensures HoldsRoute(Replayed(r).routes, r.routes, g) && HoldsHost(Replayed(r).routes, r.routes, g) {
      SyncedRoute(Routes(r), r.routes, g);
    }
    forall k
      ensures HoldsMapping(Replayed(r).mappings, r.routeMappings, k)
      ensures HoldsDenominator(Replayed(r).mappings, r.routeMappings, k)
    {
      SyncedMapping(Mappings(r), r.routeMappings, k);
    }
    forall g ensures HoldsAssociation(Replayed(r).associations, r.associations, g) {
      SyncedAssociation(Associated(r), r.associations, g);
    }
  }

  /** The request that the bytes stand for; no bytes stand for the empty request. */
  function Decoded(decode: seq<Byte> -> Option<Request>, bytes: seq<Byte>): Option<Request>
  {
    if bytes == [] then Some(EMPTY_REQUEST) else decode(bytes)
  }

  // The three loops of syncRequest, each filling a slice by index.

  method ConvertMappings(request: Request) returns (s: seq<RouteMapping>)
    ensures s == Mappings(request)
  {
    var routeMappings := new RouteMapping[|request.routeMappings|](_ => RouteMapping("", "", 0));
    for i := 0 to |request.routeMappings|
      invariant forall j | 0 <= j < i :: routeMappings[j] == ToMapping(request.routeMappings[j])
    {
      var m := request.routeMappings[i];
      routeMappings[i] := RouteMapping(m.routeGuid, m.capiProcessGuid, m.routeWeight);
    }
    s := routeMappings[..];
  }

  method ConvertRoutes(request: Request) returns (s: seq<Route>)
    ensures s == Routes(request)
  {
    var routes := new Route[|request.routes|](_ => Route("", "", "", false, ""));
    for i := 0 to |request.routes|
      invariant forall j | 0 <= j < i :: routes[j] == ToRoute(request.routes[j])
    {
      var r := request.routes[i];
      routes[i] := Route(r.guid, r.host, r.path, r.internal, r.vip);
    }
    s := routes[..];
  }

  method ConvertAssociations(request: Request) returns (s: seq<Associations.Association>)
    ensures s == Associated(request)
  {
    var associations := new Associations.Association[|request.associations|](_ => Associations.Association("", []));
    for i := 0 to |request.associations|
      invariant forall j | 0 <= j < i :: associations[j] == ToAssociation(request.associations[j])
    {
      var a := request.associations[i];
      associations[i] := Associations.Association(a.capiProcessGuid, a.diegoProcessGuids);
    }
    s := associations[..];
  }

  class CAPI {
    const routesRepo: RouteIndex.RoutesRepo
    const routeMappingsRepo: RouteMappings.RouteMappingsRepo
    const associationsRepo: Associations.AssociationsRepo
    // protobuf decoding, a partial function on bytes
    const decode: seq<Byte> -> Option<Request>

    ghost function Contents(): State
      reads routesRepo, routeMappingsRepo, associationsRepo
    {
      State(routeMappingsRepo.Contents(), routesRepo.Contents(), associationsRepo.repo)
    }

    constructor (rr: RouteIndex.RoutesRepo, rm: RouteMappings.RouteMappingsRepo, cd: Associations.AssociationsRepo,
                 decode: seq<Byte> -> Option<Request>)
      ensures routesRepo == rr && routeMappingsRepo == rm && associationsRepo == cd && this.decode == decode
    {
      routesRepo, routeMappingsRepo, associationsRepo := rr, rm, cd;
      this.decode := decode;
    }

    /** All or nothing: an error, in the stream or in its bytes, leaves the repositories alone;
        otherwise they hold what the request says, whatever they held before. */
    method BulkSync(stream: Stream) returns (response: Response)
      modifies routesRepo, routeMappingsRepo, associationsRepo
      ensures var bytes := Concat(stream.chunks);
        var request := if bytes == [] then Some(Request([], [], [])) else decode(bytes);
        if stream.end.Broken? || request == None then response.Error? && Contents() == old(Contents())
        else
          && response == Done(WrapSigned(|Concat(stream.chunks)|))
          && Contents() == Replayed(request.value) && HoldsRequest(Contents(), request.value)
    {
      var allChunks: seq<Byte> := [];
      var request := EMPTY_REQUEST;
      for i := 0 to |stream.chunks|
        invariant allChunks == Concat(stream.chunks[..i]) && Contents() == old(Contents())
      {
        assert stream.chunks[..i + 1] == stream.chunks[..i] + [stream.chunks[i]];
        ConcatNext(stream.chunks[..i], stream.chunks[i]);
        allChunks := allChunks + stream.chunks[i];
      }
      assert stream.chunks[..|stream.chunks|] == stream.chunks;
      if stream.end.Broken? { return Error(stream.end.error); }
      if |allChunks| > 0 {
        match decode(allChunks) {
          case None => return Error("unmarshal");
          case Some(decoded) => request := decoded;
        }
      }
      SyncRequest(request);
      return Done(WrapSigned(|allChunks|));
    }

    /** Converts the items of the request and hands them to the repositories. */
    method SyncRequest(request: Request)
      modifies routesRepo, routeMappingsRepo, associationsRepo
      ensures Contents() == Replayed(request) && HoldsRequest(Contents(), request)
    {
      ReplayedHolds(request);
      var routeMappings := ConvertMappings(request);
      var routes := ConvertRoutes(request);
      var associations := ConvertAssociations(request);
      routeMappingsRepo.Sync(routeMappings);
      routesRepo.Sync(routes);
      associationsRepo.Sync(associations);
    }

    /** From the client's encoder to the repositories: what was encoded is what they end up holding,
        and below 2^31 the client learns the exact number of bytes. */
    method RoundTrip(encoded: seq<Byte>, request: Request) returns (response: Response)
      requires Decoded(decode, encoded) == Some(request)
      modifies routesRepo, routeMappingsRepo, associationsRepo
      ensures Contents() == Replayed(request) && HoldsRequest(Contents(), request)
      ensures response == Done(WrapSigned(|encoded|))
      ensures |encoded| < 0x8000_0000 ==> response.totalBytesReceived == |encoded|
    {
      var chunks := Each(encoded);
      ghost var stream := Stream(chunks, Closed);
      assert Concat(stream.chunks) == encoded;
      response := BulkSync(Stream(chunks, Closed));
    }

    // ----- the handlers for one mapping

    method MapRoute(mapping: Option<ApiMapping>) returns (ok: bool)
      modifies routeMappingsRepo
      ensures ok <==> mapping.Some? && mapping.value.routeGuid != "" && mapping.value.capiProcessGuid != ""
                      && 1 <= mapping.value.routeWeight <= 128
      ensures ok ==> var m := mapping.value;
        Handled(RouteMappings.MapOp(RouteMapping(m.routeGuid, m.capiProcessGuid, m.routeWeight)))
      ensures routeMappingsRepo.Contents() ==
              if ok then
                var m := mapping.value;
                RouteMappings.Mapped(old(routeMappingsRepo.Contents()),
                                     RouteMapping(m.routeGuid, m.capiProcessGuid, m.routeWeight))
              else old(routeMappingsRepo.Contents())
    {
      ok := ValidateMapping(mapping);
      if !ok { return; }
      var rm := mapping.value;
      routeMappingsRepo.Map(RouteMapping(rm.routeGuid, rm.capiProcessGuid, rm.routeWeight));
    }

    method UnmapRoute(mapping: Option<ApiMapping>) returns (ok: bool)
      modifies routeMappingsRepo
      ensures ok <==> mapping.Some? && mapping.value.routeGuid != "" && mapping.value.capiProcessGuid != ""
                      && 1 <= mapping.value.routeWeight <= 128
      ensures ok ==> var m := mapping.value;
        Handled(RouteMappings.UnmapOp(RouteMapping(m.routeGuid, m.capiProcessGuid, m.routeWeight)))
      ensures routeMappingsRepo.Contents() ==
              if ok then
                var m := mapping.value;
                RouteMappings.Unmapped(old(routeMappingsRepo.Contents()),
                                       RouteMapping(m.routeGuid, m.capiProcessGuid, m.routeWeight))
              else old(routeMappingsRepo.Contents())
    {
      ok := ValidateMapping(mapping);
      if !ok { return; }
      var rm := mapping.value;
      routeMappingsRepo.Unmap(RouteMapping(rm.routeGuid, rm.capiProcessGuid, rm.routeWeight));
    }
  }

  /** validateMapRouteRequest and validateUnmapRouteRequest */
  method ValidateMapping(mapping: Option<ApiMapping>) returns (ok: bool)
    ensures ok <==> mapping.Some? && mapping.value.routeGuid != "" && mapping.value.capiProcessGuid != ""
                    && 1 <= mapping.value.routeWeight <= 128
  {
    if mapping == None { return false; }
    var rm := mapping.value;
    if rm.routeGuid == "" || rm.capiProcessGuid == "" { return false; }
    if rm.routeWeight == 0 || rm.routeWeight > 128 { return false; }
    return true;
  }

  /** The operation comes from a handler: its mapping was validated. */
  predicate Handled(op: RouteMappings.Op)
  {
    match op
    case MapOp(rm) => 1 <= rm.routeWeight <= 128
    case UnmapOp(rm) => 1 <= rm.routeWeight <= 128
    case SyncOp(_) => false
  }

  /** Without bulk syncs every stored weight is between 1 and 128, so every route with a mapping has
      a positive stored weight. */
  lemma {:induction false} HandledWeights(ops: seq<RouteMappings.Op>)
    requires forall i | 0 <= i < |ops| :: Handled(ops[i])
    ensures forall k | k in RouteMappings.Run(ops).repo ::
      var rm := RouteMappings.Run(ops).repo[k];
      1 <= rm.routeWeight <= 128 && RouteMappings.StoredWeight(RouteMappings.Run(ops).repo, rm.routeGUID) > 0
  {
    HandledBounds(ops);
    var repo := RouteMappings.Run(ops).repo;
    forall k | k in repo ensures RouteMappings.StoredWeight(repo, repo[k].routeGUID) > 0 {
      RouteMappings.StoredWeightRemove(repo, repo[k].routeGUID, k);
    }
  }

  lemma {:induction false} HandledBounds(ops: seq<RouteMappings.Op>)
    requires forall i | 0 <= i < |ops| :: Handled(ops[i])
    ensures forall k | k in RouteMappings.Run(ops).repo :: 1 <= RouteMappings.Run(ops).repo[k].routeWeight <= 128
  {
    if ops != [] {
      HandledBounds(ops[..|ops| - 1]);
      assert Handled(ops[|ops| - 1]);
    }
  }

  /** A bulk sync whose mappings overwrite nothing of worth leaves exact denominators. */
  lemma SyncedDenominators(request: Request)
    requires RouteMappings.SyncKeeps(Mappings(request))
    ensures RouteMappings.DenominatorsExact(Replayed(request).mappings)
  {
    RouteMappings.SyncKeepsIff(Mappings(request));
  }

  /** One Sync is a run of Map calls. */
  lemma {:induction false} SyncIsReplay(list: seq<RouteMapping>)
    ensures RouteMappings.Run([RouteMappings.SyncOp(list)]) ==
            RouteMappings.Run(seq(|list|, i requires 0 <= i < |list| => RouteMappings.MapOp(list[i])))
  {
    var replay := seq(|list|, i requires 0 <= i < |list| => RouteMappings.MapOp(list[i]));
    assert [RouteMappings.SyncOp(list)][..0] == [];
    assert RouteMappings.Run([RouteMappings.SyncOp(list)]) == RouteMappings.MappedAll(RouteMappings.EMPTY, list);
    if list != [] {
      var front := list[..|list| - 1];
      SyncIsReplay(front);
      assert [RouteMappings.SyncOp(front)][..0] == [];
      assert RouteMappings.Run([RouteMappings.SyncOp(front)]) == RouteMappings.MappedAll(RouteMappings.EMPTY, front);
      assert replay[..|replay| - 1] == seq(|front|, i requires 0 <= i < |front| => RouteMappings.MapOp(front[i]));
    }
  }
}
