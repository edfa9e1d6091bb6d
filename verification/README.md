# Copilot, modelled and proved in Dafny

Copilot keeps four small repositories (routes, route mappings, the Diego processes of each CAPI
process, and the backends of each Diego process) and turns them into Istio configuration: virtual
services, destination rules, service entries and sidecars, published as versioned snapshots. This
project models that pipeline and proves what it promises, step by step and from end to end.

`dafny verify dfyconfig.toml` checks everything.

## How the model is laid out

| file | models |
|---|---|
| `Models.dfy`, `Sequences.dfy`, `GoSlices.dfy`, `Sorting.dfy` | values, sums and permutations, Go's slices, its string order and `sort.SliceStable` |
| `Float32.dfy`, `CalculatedWeight.dfy` | binary32 rounding and the truncated percentage |
| `RouteMappings.dfy`, `RouteIndex.dfy`, `Associations.dfy` | the three repositories fed by the Cloud Controller |
| `BackendStore.dfy`, `BackendInterleaving.dfy` | the backend store, run sequentially and with its two goroutines interleaved |
| `Collector.dfy`, `LeftoverWeights.dfy`, `EnumerationIndependence.dfy` | `Collect` and `fixRouteWeights` |
| `VirtualServices.dfy`, `PathRouting.dfy`, `MeshResources.dfy`, `ResourceFields.dfy`, `SidecarHosts.dfy`, `Sidecars.dfy`, `ReferentialIntegrity.dfy` | the configuration builders |
| `WeightShares.dfy`, `Pipeline.dfy` | the pipeline from end to end |
| `Snapshots.dfy`, `BulkSync.dfy` | the publishing loop, and the bulk sync of client and server |

The classes have the fields of the Go structs, and their methods the loops and branches of the Go
methods. Each method is proved equal to a function of the old state or the inputs; the theorems are
lemmas about these functions. What a function holds is also stated field by field, in terms of its
inputs alone, with the literals of the source. Conventions:

- A Go `range` over a map is a loop that picks an arbitrary remaining key. `Collect` returns the list
  for some order of the mappings; theorems about collected lists hold for every order.
- Go strings are byte strings, one `char` for each byte. `strings.ToLower` is an arbitrary function
  `lower`; nothing about it is needed.
- `uint32` and `int32` wrap around. Where Go leaves the conversion of a float to `int32` undefined (a
  zero denominator, an enormous percentage) the platform's answer is an arbitrary function
  `undefinedConversion`.
- Where slices are appended to or edited in place (the backend store, the collector and the
  sidecars) a slice is a window on an array, and `append` moves to a new array when the old one is
  full. How much larger than needed the new array is, the Go runtime decides; here it is arbitrary at
  every call, unless a theorem asks for a `Growth` that is `Exact` or `Generous`. Elsewhere a slice is
  a sequence.
- HTTP routes and virtual services are objects, shared by reference between two maps and a list.
- The two goroutines of the backend store are a machine whose actions are the locked sections.

## Where the code falls short of what one might expect

Each is proved, with the exact condition under which the expectation holds.

- `RouteMappings.AlwaysExactIff`: the denominators are the sums of the stored weights at every point of
  a run if and only if each operation keeps them. Mapping a key again counts its weight twice, and so
  does syncing a list that has it twice (`RouteMappings.RemapCountsTwice`); unmapping what is not stored
  subtracts it anyway (`RouteMappings.UnmapSubtractsAnyway`).
- `RouteMappings.KeysIdentifyIff`: the keys of two routes' mappings tell them apart if and only if
  neither GUID starts with the other and a dash. Otherwise mapping one process drops the mapping of
  another (`RouteMappings.KeyCollision`).
- `CalculatedWeight.IntervalHoldsUpTo`, `CalculatedWeight.FirstOvershoot`: with the denominator 147219
  the weight 116303 is rounded over an integer percentage. Up to 147218 that happens to no weight, and
  to weights up to 128 it never happens.
- `LeftoverWeights.GroupReachesHundredIff`, `LeftoverWeights.SharedAddressExceeds`: routes that share a
  lower-cased host and path and add up to more than 100 all gain one more point.
- `EnumerationIndependence.OneListIff`, `EnumerationIndependence.EqualLengthsUnordered`: the collected
  list depends on the order in which Go enumerates the mappings if and only if two different built
  routes tie, such as routes of two hosts with paths of one length. Unchanged repositories can then
  give a changed list.
- `EnumerationIndependence.PathlessRoutesIff`, `EnumerationIndependence.OneProcessTwiceUnordered`: so do
  the pathless routes of a host, if and only if two different ones belong to one process.
- `PathRouting.ExternalRequestIff`, `PathRouting.ExternalHostIff`: an external host serves a request by
  the longest path that matches if and only if no other service has a route with the key of that path,
  the hostname followed by the path; an internal route of the same host and path has it
  (`PathRouting.MixedHostMisroutes`).
- `PathRouting.InternalHostIff`: at an internal host the entries match every request, so the host may
  have no path but "/" or none; a route with any other path gets the requests for others
  (`PathRouting.InternalPathMisroutes`).
- `PathRouting.AllListedIff`, `PathRouting.MixedHostHides`: that key ignores the internal flag, so a
  route can be missing from the list of its own service.
- `Sidecars.CreateSidecarResources`: two sources that are allowed one and the same destination, and
  nothing else, share a slice, and its hosts get the `internal/` prefix twice; two policies bring that
  about (`Sidecars.TwoPoliciesOneDestination`). If there are no such sources, all is well when arrays
  grow exactly; for all to be well however arrays grow, the sources must be `Safe`.
- `RouteIndex.ResolvesOwnHostIff`, `RouteIndex.RenamedRouteAnswersToOldName`: a renamed route still
  answers to its old name.
- `BackendInterleaving.AlwaysCleanIff`: a schedule dereferences nil or stores a backend twice if and
  only if some append of `Insert` comes right after a reconciliation whose list offers nothing for its
  process, or offers its very backend (`BackendInterleaving.SwapInsideInsertFaults`,
  `BackendInterleaving.SwapInsideInsertDuplicates`).

## Model

| member | source | states |
|---|---|---|
| Float32.RoundIsFloat | models/route_mapping.go:35 | rounding always lands on a binary32 value |
| Float32.RoundIsNearest | models/route_mapping.go:35 | no binary32 value is nearer to x than the rounded x |
| Float32.RoundMonotone | models/route_mapping.go:35 | rounding keeps the order |
| Float32.TiesGoToEven | models/route_mapping.go:35 | halfway between two binary32 values the even one is taken |
| CalculatedWeight.PercentageRange | models/route_mapping.go:32-36 | for every denominator, a weight not above it gives a percentage within 0 and 100 |
| CalculatedWeight.WeightInInterval | models/route_mapping.go:32-36 | with an accepted weight, or a denominator up to 147218, the exact percentage is between the truncated one and one more |
| CalculatedWeight.IntervalHoldsUpTo | models/route_mapping.go:32-36 | all weights up to a bound on the denominator stay in that interval if and only if the bound is at most 147218 |
| CalculatedWeight.FirstOvershoot | models/route_mapping.go:35 | weight 116303 over 147219 is truncated to 79, although its exact share is below 79 |
| CalculatedWeight.PercentageMonotone | models/route_mapping.go:32-36 | for every denominator a larger weight never gets a smaller percentage |
| Models.WrapKeepsResidue | models/route_mapping.go:38-50 | conversions to uint32 and int32 keep the value modulo 2^32 |
| RouteMappings.RouteMappingsRepo.Map | models/route_mapping.go:38-43 | the new state: mapping stored under its key, weight added to the denominator modulo 2^32, whether or not the key was taken |
| RouteMappings.RouteMappingsRepo.Unmap | models/route_mapping.go:45-50 | the new state: key removed, weight subtracted modulo 2^32, whether or not the key was stored |
| RouteMappings.RouteMappingsRepo.Sync | models/route_mapping.go:52-65 | whatever was held before, the state is that of mapping the list one by one on an empty repository |
| RouteMappings.RouteMappingsRepo.List | models/route_mapping.go:67-77 | a copy of the stored mappings, whatever the enumeration |
| RouteMappings.MapKeepsIff | models/route_mapping.go:38-43 | Map keeps all denominators equal to the stored weights if and only if its key is free or holds weight zero |
| RouteMappings.UnmapKeepsIff | models/route_mapping.go:45-50 | Unmap keeps them if and only if what it removes is what it subtracts |
| RouteMappings.SyncKeepsIff | models/route_mapping.go:52-65 | Sync leaves exact denominators if and only if, for each route in its list, the weights that later mappings of the list replace sum to zero modulo 2^32 |
| RouteMappings.DistinctKeysKeep | models/route_mapping.go:52-65 | so it does for a list with distinct keys |
| RouteMappings.AlwaysExactIff | models/route_mapping.go:38-65 | over every run each denominator is at every point the sum of the stored weights, modulo 2^32, if and only if every operation meets these conditions |
| RouteMappings.DenominatorInvariant | models/route_mapping.go:38-65 | so it is after every run of such operations |
| RouteMappings.DenominatorIsNetWeight | models/route_mapping.go:38-65 | over every run whatsoever it is the mapped minus the unmapped weight since the last Sync, modulo 2^32 |
| RouteMappings.RunKeyed | models/route_mapping.go:15-17 | over every run each mapping is stored under its own key |
| RouteMappings.KeysIdentifyIff | models/route_mapping.go:15-17 | mappings of two route GUIDs with one key are the same pair of GUIDs if and only if neither GUID starts with the other and a dash |
| RouteMappings.KeyInjective | models/route_mapping.go:15-17 | so keys identify the pair of GUIDs when the route GUIDs have one length |
| RouteMappings.KeyCollision | models/route_mapping.go:15-43 | for any route g, any route whose GUID is g, a dash and more, and any process of it, some process of g has the same key; mapping both leaves the second only |
| RouteMappings.RemapCountsTwice | models/route_mapping.go:38-65 | mapping a key twice, or syncing a list that has it twice, doubles the denominator but not the stored weight |
| RouteMappings.UnmapSubtractsAnyway | models/route_mapping.go:45-50 | unmapping what was never mapped leaves a denominator of 2^32 less its weight |
| RouteMappings.PercentageInInterval | models/route_mapping.go:32-36 | the int32 percentage that the collector gets is the interval-bounded one, within 0 and 100 |
| RouteMappings.EqualSharesPercentage | models/route_mapping.go:32-36 | the only mapping of a route gets exactly 100, each of two equal ones 50, each of four equal ones 25, whatever their weight |
| RouteIndex.RoutesRepo.Upsert | models/route.go:39-44 | the new state of both maps |
| RouteIndex.RoutesRepo.Delete | models/route.go:46-50 | the route goes, its index entries stay |
| RouteIndex.RoutesRepo.Sync | models/route.go:52-63 | whatever was held before, the state is that of upserting the list into an empty repository |
| RouteIndex.RoutesRepo.GetVIPByName | models/route.go:72-79 | the lookup through the index, a missing entry reading as the empty GUID |
| RouteIndex.VIPByNameInHistory | models/route.go:39-79 | over every run a name resolves to the VIP of the live route of the GUID last stored under it, and to nothing without one |
| RouteIndex.ResolvesOwnHostIff | models/route.go:39-79 | the answer is that of a route of this host if and only if the name is not stale |
| RouteIndex.OneHostPerGUIDResolves | models/route.go:39-79 | when no GUID is empty or stored under two hosts since the last Sync, a name resolves exactly while its GUID lives, to a route of that host |
| RouteIndex.RenamedRouteAnswersToOldName | models/route.go:39-44 | any route stored again under another host answers to the old one with its new VIP |
| Associations.FindInHistory | models/capi_diego_process_association.go:15-54 | over every run the Diego processes of a CAPI process are those of the last operation for it: none after a deletion, those of its last item after a Sync |
| BackendStore.ProcessActualLRP | models/diego_process_backend_set.go:223-263 | a backend is offered on a network exactly if the process is RUNNING and not evacuating, and the backend has its address there and the ports of its last port mapping other than 2222, the port not being zero |
| BackendStore.Store.Insert | models/diego_process_backend_set.go:44-77 | appends to the right list unless the backend is in it or nil; creates the entry even for a duplicate; every list stays in an array made for it alone |
| BackendStore.Store.Remove | models/diego_process_backend_set.go:79-84 | drops every backend of the process |
| BackendStore.DiegoBackendSetRepo.CollectEvent | models/diego_process_backend_set.go:162-192 | the effect of one event, none after an unhandled one |
| BackendStore.DiegoBackendSetRepo.ReconcileLRPs | models/diego_process_backend_set.go:194-221 | a successful query replaces the content, a failed one changes nothing |
| BackendStore.StoreRefinesHistory | models/diego_process_backend_set.go:44-221 | over every run of events each list is the first-occurrence de-duplication of what was offered for its process since the last reconciliation or removal |
| BackendStore.ReconcileIsReplay | models/diego_process_backend_set.go:194-221 | reconciling with a list leaves what replaying it as Created events on an empty store leaves |
| BackendStore.StoredBackendsServe | models/diego_process_backend_set.go:162-263 | lists have no duplicates, and hold a backend if and only if a process reported since the last reset, RUNNING and not evacuating, offers it in the fields of its last port mapping other than 2222 |
| BackendInterleaving.OnlyServingBackends | models/diego_process_backend_set.go:44-263 | over every schedule of the two goroutines all that is stored or about to be stored was offered, in those fields, by some reported process that is RUNNING and not evacuating |
| BackendInterleaving.DistinctWithoutInnerSwap | models/diego_process_backend_set.go:44-77 | no duplicates and no fault in any schedule where no swap falls inside an Insert |
| BackendInterleaving.AlwaysCleanIff | models/diego_process_backend_set.go:54-76 | over any schedule nothing faults and nothing is ever stored twice if and only if, wherever an append directly follows a swap, the list swapped in offers something for the process and not that backend |
| BackendInterleaving.ScheduleRefinesSequential | models/diego_process_backend_set.go:162-221 | a schedule where no swap falls inside the handling of an event ends as the sequential store does after the same events |
| BackendInterleaving.SwapInsideInsertFaults | models/diego_process_backend_set.go:54-76 | a schedule that faults |
| BackendInterleaving.SwapInsideInsertDuplicates | models/diego_process_backend_set.go:54-76 | a schedule that stores a backend twice |
| Sorting.StableSortSorts | routes/routes.go:89-116 | the sort is a sorted permutation that keeps the order of ties |
| Sorting.StableSortUnique | routes/routes.go:89-116 | that contract has one solution, so any implementation of SliceStable returns it |
| Sorting.StringLessTotal | routes/routes.go:89-116 | only equal strings are incomparable in Go's order |
| Sorting.StringLessIff | routes/routes.go:89-116 | a string is less exactly if it is a proper prefix or has the smaller byte at the first difference |
| Sorting.SliceStable | routes/routes.go:89-91 | sorting an array in place leaves that solution in it |
| Collector.RouteCollector.GatherBackends | routes/routes.go:71-84 | the backends of all the processes in one slice, in an array of its own; the store's arrays keep their contents |
| Collector.RouteCollector.BuildRoute | routes/routes.go:61-101 | the route built for a mapping, none without route, association or backends; sorting its backends in place leaves the store's arrays alone |
| Collector.RouteCollector.BuildRoutes | routes/routes.go:58-108 | the built routes with and without path, in the order of enumeration |
| Collector.RouteCollector.Collect | routes/routes.go:50-123 | the collected list for some order of enumeration; the store's arrays still hold the lists they held |
| Collector.GatheredInOrder | routes/routes.go:71-84 | before sorting, the list of each process of the association follows those of the processes before it |
| Collector.BuildJoins | routes/routes.go:61-101 | a mapping gives a route if and only if its route and association exist and some process of that stores a backend on the network of the route; the route has the fields of the stored one, and every backend of those processes as often as they store it, by address, ties in the order of the processes and of the store |
| Collector.CollectedIsJoin | routes/routes.go:50-122 | whatever the enumeration, the collected routes stand one for one for exactly these mappings, with their percentage or one point more |
| Collector.OrderedAscends | routes/routes.go:103-118 | path routes come shortest first, pathless routes last and by process GUID, and none is lost or added |
| Collector.CollectedFrom | routes/routes.go:60-122 | every collected route, its weight aside, is what some mapping stands for |
| LeftoverWeights.SumRoutes | routes/routes.go:135-143 | for each key the wrapped sum and the increasing positions of its routes |
| LeftoverWeights.IndicesFacts | routes/routes.go:137-143 | the positions of the keys partition all positions, listed by rank |
| LeftoverWeights.FixRouteWeights | routes/routes.go:129-158 | whatever the enumeration of the sums, route i gains one point exactly if its rank within its key is below the wrapped leftover |
| LeftoverWeights.PointsByPosition | routes/routes.go:129-158 | route by route, what a host and path is short of 100 goes to its earliest routes, one point each, and no other field of any route changes |
| LeftoverWeights.GroupAfterFix | routes/routes.go:145-154 | within each group exactly the first members gain a point, nothing else changes |
| LeftoverWeights.GroupTotalAfterFix | routes/routes.go:145-154 | the total becomes the smaller of 100 and the old total plus the size of the group; above 100 it grows by the size |
| LeftoverWeights.GroupReachesHundredIff | routes/routes.go:145-154 | a group ends at 100 if and only if its old total was at most 100 and at most its size short of it |
| LeftoverWeights.SharedAddressExceeds | routes/routes.go:146-153 | two routes of one address with 100 points each end up with 101 |
| EnumerationIndependence.SameRoutes | routes/routes.go:60-118 | two enumerations collect the same multiset of routes, weights aside |
| EnumerationIndependence.OrderedStablySorts | routes/routes.go:103-118 | the two sorts and the concatenation are one stable sort of the built routes |
| EnumerationIndependence.SameTotals | routes/routes.go:60-154 | and the same number of routes and total weight for each host and path, as long as no percentage is the largest int32 |
| EnumerationIndependence.FixInjective | routes/routes.go:129-158 | handing out the leftovers hides no difference between two orders of the same routes |
| EnumerationIndependence.OneListIff | routes/routes.go:58-122 | the collected list is the same for all enumerations if and only if no two different built routes tie: path routes of one length, or pathless routes of one process |
| EnumerationIndependence.PathlessRoutesIff | routes/routes.go:114-154 | the pathless routes of a host, with their final weights, are the same list for all enumerations if and only if no two different ones that were built belong to one process |
| EnumerationIndependence.EqualLengthsUnordered | routes/routes.go:110-112 | any two routes of one process with paths of one length and different hosts give two different lists |
| EnumerationIndependence.OneProcessTwiceUnordered | routes/routes.go:114-116 | so do any two pathless routes of one host with different addresses that are mapped to one process |
| VirtualServices.AppendDestination | snapshot/config.go:267-268 | a destination appended through one reference is seen by every holder of the HTTP route |
| VirtualServices.AddRoute | snapshot/config.go:248-297 | one turn of the loop keeps the shared objects equal to their specification |
| VirtualServices.CreateVirtualServiceResources | snapshot/config.go:244-315 | one resource for each host and internal flag under its name, with its HTTP routes in the order the insertions give and all destinations that share their key |
| ResourceFields.ServiceFields | snapshot/config.go:259-263 | a service has its host, the ingress gateway exactly if it is external, and three attempts for 5xx within 15 seconds on every entry exactly if it is internal |
| ResourceFields.HTTPRouteFields | snapshot/config.go:266-289 | each HTTP route has one destination for each route of its key in order, with the host, process and weight of that route and the container port of its first backend |
| ResourceFields.OneEntryPerKey | snapshot/config.go:266-289 | a service has exactly one HTTP route for each key whose first route is its own |
| VirtualServices.ServiceNameInjective | snapshot/config.go:250-254 | names tell hosts apart, and internal from external |
| PathRouting.FirstsDescend | snapshot/config.go:284-287 | from an ascending list the HTTP routes of a service come longest path first |
| PathRouting.AllListedIff | snapshot/config.go:266-289 | every route reaches the list of its own service if and only if no key is shared across services |
| PathRouting.KeysDetermineIff | snapshot/config.go:266-289 | that is the case if and only if the keys of every host are its own |
| PathRouting.MixedHostHides | snapshot/config.go:266-289 | an internal and an external route of one host and path cannot both be listed |
| PathRouting.ExternalRequestIff | snapshot/config.go:266-289 | an external host serves a request by exactly the routes of the longest path that is a prefix of it, or by none if there is none, if and only if the key of that path is the host's own |
| PathRouting.LongestPrefixWins | snapshot/config.go:266-289 | at an external host whose keys are its own each request is served so |
| PathRouting.ExternalHostIff | snapshot/config.go:266-289 | all requests, which start with a slash, are if and only if the keys are its own of every path that starts with a slash, and of the empty path unless there is a path "/"; all strings would be if and only if all its keys are its own |
| PathRouting.InternalRequestIff | snapshot/config.go:271-282 | an internal host serves a request so if and only if its first entry has the longest path that matches and a key of the host's own, or nothing matches and there is no entry |
| PathRouting.InternalHostIff | snapshot/config.go:271-282 | all requests are if and only if its only path with a slash in front is "/", its first entry has that path or none, and the keys that requests ask for are its own; all strings would be if and only if it has no paths and its keys are its own |
| PathRouting.MixedHostMisroutes | snapshot/config.go:266-289 | an external route that shares host and path with an internal one does not serve requests for the path alone |
| PathRouting.InternalPathMisroutes | snapshot/config.go:271-282 | an internal route with a path gets the requests for all others |
| MeshResources.CreateDestinationRuleResources | snapshot/config.go:194-242 | one rule for each host and internal flag, with a subset for each of its routes in order |
| MeshResources.CreateServiceEntry | snapshot/config.go:379-407 | host, VIP of internal routes, and each container port of the backends of the route once |
| MeshResources.CreateEndpoint | snapshot/config.go:363-377 | one endpoint for each backend in order, labelled with the process |
| MeshResources.CreateServiceEntryResources | snapshot/config.go:317-361 | one entry for each host and internal flag with backends; its endpoints are those of its routes in order |
| ResourceFields.RuleFields | snapshot/config.go:194-242 | under its name, a rule exactly for a host with routes, whose subsets are named and labelled after the processes of these routes in order |
| ResourceFields.EntryFields | snapshot/config.go:317-407 | under its name, an entry exactly for a host with backends: the VIP of the first route if internal, its container ports, and the address, port and process of each backend of each route in order |
| MeshResources.ResourceNameInjective | snapshot/config.go:199-203 | names tell hosts apart, and internal from external |
| ReferentialIntegrity.DestinationsResolve | snapshot/config.go:194-422 | for every list, every destination of every HTTP route has its subset in a destination rule of its host and a labelled endpoint in a service entry of it, under the only flag of the host if it has one |
| ReferentialIntegrity.CollectedDestinationsResolve | snapshot/config.go:194-422 | so it is for whatever the collector emits, whatever the hosts and paths of the mapped routes |
| ReferentialIntegrity.ResourcesAgree | snapshot/config.go:194-422 | for each host whose keys are its own the subsets routed to, the subsets of the rule and the labels of the endpoints are the same |
| ReferentialIntegrity.CollectedResourcesAgree | snapshot/config.go:194-422 | and so they are for what the collector emits at a host of whose mapped routes none shares its host and path with one of another host or flag |
| ReferentialIntegrity.CollectedEndpoints | routes/routes.go:71-91 | the endpoints of a collected route are all the stored backends of its processes, as often as they store them, by address, under its label |
| GoSlices.Append | snapshot/config.go:51 | Go's append: in place within the capacity, else a copy with arbitrary spare capacity |
| SidecarHosts.HostsMapIs | snapshot/config.go:44-55 | the first map has exactly the processes with internal routes, and the hostnames of these in order |
| SidecarHosts.AcceptedMapIs | snapshot/config.go:57-71 | the second has exactly the sources with a policy for such a process, and the destinations of these policies in order |
| SidecarHosts.AsIntendedIff | snapshot/config.go:44-71 | what the maps give without sharing is, and nothing else is: a sidecar exactly for each source that a policy lets reach an internal route, with the host of each such pair of policy and route once, by policy and then by route |
| Sidecars.BuildRouteMap | snapshot/config.go:44-55 | a slice of its own for each process, holding its internal hosts in order |
| Sidecars.ExtendSource | snapshot/config.go:66 | appending for one source keeps every slice of the first map intact |
| Sidecars.BuildPolicyMap | snapshot/config.go:57-71 | each source's slice is attached to that of its first destination or private, attached if it is allowed nothing else, and holds its hosts unless a slice of several hosts is shared |
| Sidecars.CreateSidecarResources | snapshot/config.go:43-137 | in whatever order sources are visited: the sources are those that a policy lets reach an internal route; if they are safe, each sidecar lists the hosts of these routes by policy and then by route, prefixed once, however arrays grow; with generous growth only then; if two sources have the one same destination, never; if none have, always when arrays grow exactly |
| Sidecars.DistinctFirstsAreSafe | snapshot/config.go:65-69 | sources are safe when no two are first allowed the same destination |
| Sidecars.TwoPoliciesOneDestination | snapshot/config.go:57-71 | two policies of different sources for one destination with an internal host give two sources the one same destination |
| WeightShares.WeightOfEnumeration | routes/routes.go:60 | the stored weight is the sum over any enumeration |
| WeightShares.PointsInterval | models/route_mapping.go:32-36 | the percentages of a route's mappings are worth at most its weight, and with a point more for each at least that |
| WeightShares.GroupShares | routes/routes.go:93-155 | the weights of a key that no other mapped route has sum to at most 100, to 100 if and only if at most a point a member is missing, in particular when every mapping has backends |
| Pipeline.KeysAgree | routes/routes.go:125-127 | the key with a slash and the key of the virtual services group collected routes alike at a route whose two keys are shared by the same mapped routes |
| Pipeline.ProperKeys | routes/routes.go:125-127 | two routes with hosts without a slash, and paths that are empty or start with one, share either key if and only if they share host and path |
| Pipeline.HTTPRouteWeights | snapshot/config.go:266-289 | each HTTP route carries the address of a mapped route; if that has its two keys to itself, the destinations stand one for one for its backed mappings and go to the container port of the lowest stored address; with a good denominator they sum to at most 100, to 100 when all its mappings have backends, and each is within one of its exact share |
| Pipeline.CollectedLongestPrefix | routes/routes.go:110-118 | whatever the enumeration, the virtual service of an external host routes by longest prefix, if none of its mapped routes shares its host and path with one of another host or flag |
| Pipeline.DisciplinedRunIsGood | models/route_mapping.go:38-65 | mappings from a disciplined run have the denominators these theorems need |
| Pipeline.SyncedIsGood | handlers/capi.go:211-249 | so do the mappings a bulk sync leaves, if what they overwrite is worth nothing |
| Snapshots.Snapshot.OnTick | snapshot/snapshot.go:134-147 | the whole new state after one tick: failed, unchanged or published |
| Snapshots.PublishesChanges | snapshot/snapshot.go:88-148 | over every run the publications are, with versions 1, 2 and so on, what is built from each change of the successful inputs |
| Snapshots.InputsAre | snapshot/snapshot.go:91-106 | every tick but those with a failed answer makes an input of its routes and policies, nil ones without a client |
| Snapshots.PublicationsAreCurrent | snapshot/snapshot.go:108-117 | consecutive publications differ in input, and after a tick whose answer did not fail the last one has the bodies a loop without a cache would publish |
| Snapshots.FailedTicksVanish | snapshot/snapshot.go:99-106 | a tick with a failed answer anywhere in a run changes nothing in it or after it |
| BulkSync.Each | sdk/ruby/lib/cf-copilot.rb:93-110 | ceil(len / 65536) + 1 chunks of at most 65536 bytes that concatenate to the input, all full but the last two, the last one empty |
| BulkSync.ReplayedHolds | handlers/capi.go:211-249 | for each GUID, host, key and process the repositories hold the fields of the last item with it, and nothing else; each denominator is the sum over all items of its route |
| BulkSync.CAPI.BulkSync | handlers/capi.go:178-209 | an error leaves all three repositories alone, else they hold the request field by field, whatever they held before; the byte count is the int32 one |
| BulkSync.CAPI.SyncRequest | handlers/capi.go:211-249 | the three repositories end as fresh ones fed the items of the request one at a time, and hold their fields |
| BulkSync.CAPI.RoundTrip | sdk/ruby/lib/cf-copilot.rb:93-110 | what the client encodes is what the repositories end up holding, and below 2^31 the count is exact |
| BulkSync.CAPI.MapRoute | handlers/capi.go:121-134 | maps the three fields of exactly the requests with both GUIDs and a weight between 1 and 128 |
| BulkSync.CAPI.UnmapRoute | handlers/capi.go:136-149 | unmaps the three fields of exactly the same requests |
| BulkSync.ValidateMapping | handlers/capi.go:269-295 | accepts a mapping with both GUIDs and a weight between 1 and 128 |
| BulkSync.HandledWeights | handlers/capi.go:269-281 | without bulk syncs stored weights are between 1 and 128, so no mapped route has stored weight zero |
| BulkSync.SyncIsReplay | models/route_mapping.go:52-65 | one Sync is a run of Map calls |

## Left out

- Collector.RouteCollector.Collect: the repositories are assumed not to change during one call, so the interval between `List` and `GetCalculatedWeight` is not modelled.
- Sorting.SliceStable: insertion sort, as the library does it on short blocks; its merging of blocks is not modelled, but every implementation of the contract is proved to return the same.
- BackendStore.DiegoBackendSetRepo.Get: returns the slice rather than the object that holds it, so a reader that keeps the object and sees later appends is not modelled, nor are data races on it.
- MeshResources.CreateServiceEntryResources: a nil and an empty backend list are one value, treated as nil; the collector emits neither.
- Sidecars.CreateSidecarResources: the constant default sidecar is not part of the result, and resources are a map by source rather than a list.
- RouteIndex.RoutesRepo.GetVIPByName: its two lookups take the lock one after the other; they are one step here.
- Snapshots.Snapshot.OnTick: versions are numbers rather than their decimal strings, and the resource bodies are functions of the input, so the order of resources and of service ports, which the Go builders leave open, plays no part.
- BulkSync.CAPI.BulkSync: protobuf decoding is an arbitrary partial function on bytes; the text of errors is not modelled.
- Float32.Round: the exponent is unbounded; underflow and overflow cannot occur for quotients of counters.
- Constants of the resources that no branch reads, such as protocol names and the mesh location, are left off the values.
- The four handlers that upsert and delete single routes and associations: they check that the names they need are not empty and pass the item on.
- gRPC and TLS plumbing, logging, the gateways and their certificates, the no-op backend repository and the listing handlers carry no state of their own.
- Agreement of service entry ports with destination ports: the ports of an entry come from its first route only, so the code does not establish it.
