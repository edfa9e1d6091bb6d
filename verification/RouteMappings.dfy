/** models/route_mapping.go: the mappings of routes to CAPI processes, with a running weight
    denominator per route. */
module RouteMappings {
  import opened Models
  import CalculatedWeight

  type Mappings = map<string, RouteMapping>
  type Denominators = map<RouteGUID, uint32>

  datatype State = State(repo: Mappings, denominators: Denominators)

  const EMPTY := State(map[], map[])

  /** A missing entry of a Go map reads as zero. */
  function Lookup(d: Denominators, g: RouteGUID): uint32
  {
    if g in d then d[g] else 0
  }

  function Mapped(s: State, rm: RouteMapping): State
  {
    State(s.repo[rm.Key() := rm],
          s.denominators[rm.routeGUID := Wrap(Lookup(s.denominators, rm.routeGUID) + rm.routeWeight)])
  }

  function Unmapped(s: State, rm: RouteMapping): State
  {
    State(s.repo - {rm.Key()},
          s.denominators[rm.routeGUID := Wrap(Lookup(s.denominators, rm.routeGUID) - rm.routeWeight)])
  }

  /** One Map call per list element, in order. */
  function MappedAll(s: State, list: seq<RouteMapping>): State
  {
    if list == [] then s else Mapped(MappedAll(s, list[..|list| - 1]), list[|list| - 1])
  }

  class RouteMappingsRepo {
    var repo: Mappings
    var weightDenominator: Denominators

    // The platform's int32 conversion where Go leaves it undefined: a zero denominator, or a
    // percentage beyond the range of int32.
    const undefinedConversion: (uint32, uint32) -> int32

    ghost function Contents(): State
      reads this
    {
      State(repo, weightDenominator)
    }

    constructor (undefinedConversion: (uint32, uint32) -> int32)
      ensures Contents() == EMPTY && this.undefinedConversion == undefinedConversion
    {
      repo, weightDenominator := map[], map[];
      this.undefinedConversion := undefinedConversion;
    }

    function GetCalculatedWeight(rm: RouteMapping): int32
      reads this
    {
      CalculatedPercentage(rm.routeWeight, Lookup(weightDenominator, rm.routeGUID), undefinedConversion)
    }

    method Map(rm: RouteMapping)
      modifies this
      ensures Contents() == Mapped(old(Contents()), rm)
    {
      weightDenominator := weightDenominator[
        rm.routeGUID := Wrap(Lookup(weightDenominator, rm.routeGUID) + rm.routeWeight)];
      repo := repo[rm.Key() := rm];
    }

    method Unmap(rm: RouteMapping)
      modifies this
      ensures Contents() == Unmapped(old(Contents()), rm)
    {
      repo := repo - {rm.Key()};
      weightDenominator := weightDenominator[
        rm.routeGUID := Wrap(Lookup(weightDenominator, rm.routeGUID) - rm.routeWeight)];
    }

    /** Replaces everything; the result is that of mapping the list on an empty repository. */
    method Sync(routeMappings: seq<RouteMapping>)
      modifies this
      ensures Contents() == MappedAll(EMPTY, routeMappings)
    {
      var newRepo: Mappings := map[];
      var newDenominator: Denominators := map[];
      for i := 0 to |routeMappings|
        invariant State(newRepo, newDenominator) == MappedAll(EMPTY, routeMappings[..i])
      {
        var rm := routeMappings[i];
        newRepo := newRepo[rm.Key() := rm];
        newDenominator := newDenominator[
          rm.routeGUID := Wrap(Lookup(newDenominator, rm.routeGUID) + rm.routeWeight)];
        assert routeMappings[..i + 1][..i] == routeMappings[..i];
      }
      assert routeMappings[..|routeMappings|] == routeMappings;
      repo := newRepo;
      weightDenominator := newDenominator;
    }

    /** A copy of the stored mappings, made in the order the Go runtime enumerates them. */
    method List() returns (list: Mappings)
      ensures list == repo
    {
      list := map[];
      var left := repo.Keys;
      while left != {}
        invariant left <= repo.Keys
        invariant list == map k | k in repo && k !in left :: repo[k]
        decreases left
      {
        var k :| k in left;
        list := list[k := repo[k]];
        left := left - {k};
      }
    }
  }

  /** int32(float32(weight) / float32(denominator) * 100). */
  function CalculatedPercentage(weight: uint32, denominator: uint32,
                                undefinedConversion: (uint32, uint32) -> int32): int32
  {
    if denominator == 0 then undefinedConversion(weight, denominator)
    else
      var c := CalculatedWeight.Truncated(weight, denominator);
      if -0x8000_0000 <= c < 0x8000_0000 then c else undefinedConversion(weight, denominator)
  }

  /** What the percentage is worth to the collector: within [0, 100], at most the exact share, and
      less than it by at most one. */
  lemma PercentageInInterval(weight: uint32, denominator: uint32, u: (uint32, uint32) -> int32)
    requires 0 < denominator && weight <= denominator
    requires weight <= 128 || denominator <= CalculatedWeight.MAX_DENOMINATOR
    ensures var c := CalculatedPercentage(weight, denominator, u);
      && 0 <= c <= 100
      && c * denominator <= 100 * weight <= (c + 1) * denominator
  {
    CalculatedWeight.PercentageRange(weight, denominator);
    CalculatedWeight.WeightInInterval(weight, denominator);
  }

  /** The only mapping of a route gets 100, each of two equal ones 50, each of four equal ones 25. */
  lemma EqualSharesPercentage(weight: uint32, u: (uint32, uint32) -> int32)
    requires 0 < weight
    ensures CalculatedPercentage(weight, weight, u) == 100
    ensures 2 * weight < 0x1_0000_0000 ==> CalculatedPercentage(weight, 2 * weight, u) == 50
    ensures 4 * weight < 0x1_0000_0000 ==> CalculatedPercentage(weight, 4 * weight, u) == 25
  {
    CalculatedWeight.EqualShares(weight);
  }

  // ----- the sum of stored weights

  function Contribution(rm: RouteMapping, g: RouteGUID): nat
  {
    if rm.routeGUID == g then rm.routeWeight else 0
  }

  ghost function Pick(repo: Mappings): (k: string)
    requires repo != map[]
    ensures k in repo
  {
    assert repo.Keys != {};
    var k :| k in repo;
    k
  }

  /** The sum of the weights stored for route g. */
  ghost function StoredWeight(repo: Mappings, g: RouteGUID): nat
    decreases |repo|
  {
    if repo == map[] then 0
    else
      var k := Pick(repo);
      Contribution(repo[k], g) + StoredWeight(repo - {k}, g)
  }

  lemma {:induction false} StoredWeightRemove(repo: Mappings, g: RouteGUID, k: string)
    requires k in repo
    ensures StoredWeight(repo, g) == Contribution(repo[k], g) + StoredWeight(repo - {k}, g)
    decreases |repo|
  {
    var p := Pick(repo);
    if p != k {
      StoredWeightRemove(repo - {p}, g, k);
      StoredWeightRemove(repo - {k}, g, p);
      assert repo - {p} - {k} == repo - {k} - {p};
    }
  }

  lemma StoredWeightUpdate(repo: Mappings, g: RouteGUID, k: string, rm: RouteMapping)
    ensures StoredWeight(repo[k := rm], g) == Contribution(rm, g) + StoredWeight(repo - {k}, g)
  {
    StoredWeightRemove(repo[k := rm], g, k);
    assert repo[k := rm] - {k} == repo - {k};
  }

  /** No more than the stored weight of route g is missing from the denominator, or in excess of
      it: they agree as uint32. */
  ghost predicate DenominatorsExact(s: State)
  {
    forall g :: Lookup(s.denominators, g) == Wrap(StoredWeight(s.repo, g))
  }

  predicate Keyed(repo: Mappings)
  {
    forall k | k in repo :: repo[k].Key() == k
  }

  // ----- runs of operations

  datatype Op = MapOp(rm: RouteMapping) | UnmapOp(rm: RouteMapping) | SyncOp(list: seq<RouteMapping>)

  function Apply(s: State, op: Op): State
  {
    match op
    case MapOp(rm) => Mapped(s, rm)
    case UnmapOp(rm) => Unmapped(s, rm)
    case SyncOp(list) => MappedAll(EMPTY, list)
  }

  function Run(ops: seq<Op>): State
  {
    if ops == [] then EMPTY else Apply(Run(ops[..|ops| - 1]), ops[|ops| - 1])
  }

  /** Mapping rm keeps the denominators exact: its key is free, or holds a zero weight. */
  predicate MapKeeps(s: State, rm: RouteMapping)
  {
    rm.Key() in s.repo ==> s.repo[rm.Key()].routeWeight == 0
  }

  /** Unmapping rm keeps the denominators exact: it removes the very weight it subtracts. */
  predicate UnmapKeeps(s: State, rm: RouteMapping)
  {
    if rm.Key() !in s.repo then rm.routeWeight == 0
    else
      var stored := s.repo[rm.Key()];
      if stored.routeGUID == rm.routeGUID then stored.routeWeight == rm.routeWeight
      else stored.routeWeight == 0 && rm.routeWeight == 0
  }

  /** The last mapping of the list with the key. */
  function Latest(list: seq<RouteMapping>, key: string): Option<RouteMapping>
  {
    if list == [] then None
    else if list[|list| - 1].Key() == key then Some(list[|list| - 1])
    else Latest(list[..|list| - 1], key)
  }

  /** The weight of route g in the mappings of the list that a later one with their key replaces. */
  function Overwritten(list: seq<RouteMapping>, g: RouteGUID): nat
  {
    if list == [] then 0
    else
      var front := list[..|list| - 1];
      Overwritten(front, g) + match Latest(front, list[|list| - 1].Key())
                              case None => 0
                              case Some(rm) => Contribution(rm, g)
  }

  /** Syncing the list leaves exact denominators: what it overwrites is worth nothing, as uint32. */
  predicate SyncKeeps(list: seq<RouteMapping>)
  {
    forall i | 0 <= i < |list| :: Wrap(Overwritten(list, list[i].routeGUID)) == 0
  }

  predicate DistinctKeys(list: seq<RouteMapping>)
  {
    forall i, j | 0 <= i < j < |list| :: list[i].Key() != list[j].Key()
  }

  predicate Keeps(s: State, op: Op)
  {
    match op
    case MapOp(rm) => MapKeeps(s, rm)
    case UnmapOp(rm) => UnmapKeeps(s, rm)
    case SyncOp(list) => SyncKeeps(list)
  }

  ghost predicate Disciplined(ops: seq<Op>)
  {
    forall i | 0 <= i < |ops| :: Keeps(Run(ops[..i]), ops[i])
  }

  function ContributionAt(repo: Mappings, k: string, g: RouteGUID): nat
  {
    if k in repo then Contribution(repo[k], g) else 0
  }

  lemma StoredWeightWithout(repo: Mappings, k: string, g: RouteGUID)
    ensures StoredWeight(repo - {k}, g) == StoredWeight(repo, g) - ContributionAt(repo, k, g)
  {
    if k in repo { StoredWeightRemove(repo, g, k); } else { assert repo - {k} == repo; }
  }

  /** After Map the denominator of g is exact if and only if the replaced mapping contributed
      nothing to it. */
  lemma MapExactAt(s: State, rm: RouteMapping, g: RouteGUID)
    requires Lookup(s.denominators, g) == Wrap(StoredWeight(s.repo, g))
    ensures Lookup(Mapped(s, rm).denominators, g) == Wrap(StoredWeight(Mapped(s, rm).repo, g))
       <==> ContributionAt(s.repo, rm.Key(), g) == 0
  {
    var k := rm.Key();
    StoredWeightUpdate(s.repo, g, k, rm);
    StoredWeightWithout(s.repo, k, g);
    var stored := StoredWeight(s.repo, g);
    WrapAdd(stored, Contribution(rm, g));
    WrapEqual(stored + Contribution(rm, g), stored + Contribution(rm, g) - ContributionAt(s.repo, k, g));
  }

  /** The denominators stay exact under Map if and only if the key was free or held zero. */
  lemma MapKeepsIff(s: State, rm: RouteMapping)
    requires DenominatorsExact(s)
    ensures DenominatorsExact(Mapped(s, rm)) <==> MapKeeps(s, rm)
  {
    forall g
      ensures Lookup(Mapped(s, rm).denominators, g) == Wrap(StoredWeight(Mapped(s, rm).repo, g))
         <==> ContributionAt(s.repo, rm.Key(), g) == 0
    {
      MapExactAt(s, rm, g);
    }
    if rm.Key() in s.repo {
      assert ContributionAt(s.repo, rm.Key(), s.repo[rm.Key()].routeGUID) == s.repo[rm.Key()].routeWeight;
    }
  }

  /** After Unmap the denominator of g is exact if and only if what was removed from it is what was
      subtracted. */
  lemma UnmapExactAt(s: State, rm: RouteMapping, g: RouteGUID)
    requires Lookup(s.denominators, g) == Wrap(StoredWeight(s.repo, g))
    ensures Lookup(Unmapped(s, rm).denominators, g) == Wrap(StoredWeight(Unmapped(s, rm).repo, g))
       <==> ContributionAt(s.repo, rm.Key(), g) == Contribution(rm, g)
  {
    StoredWeightWithout(s.repo, rm.Key(), g);
    var stored := StoredWeight(s.repo, g);
    WrapAdd(stored, 0 - Contribution(rm, g) as int);
    WrapEqual(stored - Contribution(rm, g), stored - ContributionAt(s.repo, rm.Key(), g));
  }

  /** The denominators stay exact under Unmap if and only if what is removed is what is
      subtracted. */
  lemma UnmapKeepsIff(s: State, rm: RouteMapping)
    requires DenominatorsExact(s)
    ensures DenominatorsExact(Unmapped(s, rm)) <==> UnmapKeeps(s, rm)
  {
    forall g
      ensures Lookup(Unmapped(s, rm).denominators, g) == Wrap(StoredWeight(Unmapped(s, rm).repo, g))
         <==> ContributionAt(s.repo, rm.Key(), g) == Contribution(rm, g)
    {
      UnmapExactAt(s, rm, g);
    }
    assert ContributionAt(s.repo, rm.Key(), rm.routeGUID) == rm.routeWeight || !DenominatorsExact(Unmapped(s, rm));
    if rm.Key() in s.repo {
      var g := s.repo[rm.Key()].routeGUID;
      assert ContributionAt(s.repo, rm.Key(), g) == Contribution(rm, g) || !DenominatorsExact(Unmapped(s, rm));
    }
  }

  lemma {:induction false} MappedAllHolds(list: seq<RouteMapping>, k: string)
    ensures var repo := MappedAll(EMPTY, list).repo;
      Latest(list, k) == if k in repo then Some(repo[k]) else None
  {
    if list != [] { MappedAllHolds(list[..|list| - 1], k); }
  }

  /** What a list is worth to g is stored or overwritten. */
  lemma {:induction false} StoredOrOverwritten(list: seq<RouteMapping>, g: RouteGUID)
    ensures StoredWeight(MappedAll(EMPTY, list).repo, g) + Overwritten(list, g) == ListWeight(list, g)
  {
    if list != [] {
      var front, rm := list[..|list| - 1], list[|list| - 1];
      StoredOrOverwritten(front, g);
      MappedAllHolds(front, rm.Key());
      var repo := MappedAll(EMPTY, front).repo;
      StoredWeightUpdate(repo, g, rm.Key(), rm);
      StoredWeightWithout(repo, rm.Key(), g);
    }
  }

  lemma {:induction false} OverwrittenElsewhere(list: seq<RouteMapping>, g: RouteGUID)
    requires forall i | 0 <= i < |list| :: list[i].routeGUID != g
    ensures Overwritten(list, g) == 0
  {
    if list != [] {
      var front, k := list[..|list| - 1], list[|list| - 1].Key();
      OverwrittenElsewhere(front, g);
      if Latest(front, k).Some? { var i := LatestAt(front, k); }
    }
  }

  lemma {:induction false} LatestAt(list: seq<RouteMapping>, k: string) returns (i: nat)
    requires Latest(list, k).Some?
    ensures i < |list| && Latest(list, k) == Some(list[i]) && list[i].Key() == k
  {
    i := |list| - 1;
    if list[i].Key() != k { i := LatestAt(list[..i], k); }
  }

  lemma SyncExactAt(list: seq<RouteMapping>, g: RouteGUID)
    ensures var s := MappedAll(EMPTY, list);
      Lookup(s.denominators, g) == Wrap(StoredWeight(s.repo, g)) <==> Wrap(Overwritten(list, g)) == 0
  {
    ListDenominator(list, g);
    StoredOrOverwritten(list, g);
    var stored := StoredWeight(MappedAll(EMPTY, list).repo, g);
    WrapOffset(stored, Overwritten(list, g));
  }

  /** Sync leaves exact denominators if and only if what its list overwrites is worth nothing. */
  lemma SyncKeepsIff(list: seq<RouteMapping>)
    ensures DenominatorsExact(MappedAll(EMPTY, list)) <==> SyncKeeps(list)
  {
    var s := MappedAll(EMPTY, list);
    forall g
      ensures Lookup(s.denominators, g) == Wrap(StoredWeight(s.repo, g)) <==> Wrap(Overwritten(list, g)) == 0
    {
      SyncExactAt(list, g);
    }
    if SyncKeeps(list) {
      forall g ensures Wrap(Overwritten(list, g)) == 0 {
        if forall i | 0 <= i < |list| :: list[i].routeGUID != g { OverwrittenElsewhere(list, g); }
      }
    }
  }

  /** In particular a list with distinct keys overwrites nothing. */
  lemma {:induction false} DistinctKeysKeep(list: seq<RouteMapping>)
    requires DistinctKeys(list)
    ensures forall g :: Overwritten(list, g) == 0
    ensures SyncKeeps(list)
  {
    if list != [] {
      var front, k := list[..|list| - 1], list[|list| - 1].Key();
      DistinctKeysKeep(front);
      if Latest(front, k).Some? {
        var i := LatestAt(front, k);
      }
    }
  }

  lemma KeepsIff(s: State, op: Op)
    requires DenominatorsExact(s)
    ensures DenominatorsExact(Apply(s, op)) <==> Keeps(s, op)
  {
    match op {
      case MapOp(rm) => MapKeepsIff(s, rm);
      case UnmapOp(rm) => UnmapKeepsIff(s, rm);
      case SyncOp(list) => SyncKeepsIff(list);
    }
  }

  /** At every point of the run each denominator is the sum of the stored weights of its route, modulo
      2^32. */
  ghost predicate AlwaysExact(ops: seq<Op>)
  {
    forall i | 0 <= i <= |ops| :: DenominatorsExact(Run(ops[..i]))
  }

  /** The denominators are exact at every point of a run if and only if each of its operations keeps
      them. */
  lemma {:induction false} AlwaysExactIff(ops: seq<Op>)
    ensures AlwaysExact(ops) <==> Disciplined(ops)
  {
    if ops == [] {
      assert DenominatorsExact(EMPTY);
    } else {
      var front, op := ops[..|ops| - 1], ops[|ops| - 1];
      AlwaysExactIff(front);
      forall i | 0 <= i <= |front| ensures ops[..i] == front[..i] {}
      assert ops[..|ops|] == ops && front[..|front|] == front;
      assert Disciplined(ops) <==> Disciplined(front) && Keeps(Run(front), op);
      assert AlwaysExact(ops) <==> AlwaysExact(front) && DenominatorsExact(Apply(Run(front), op));
      if AlwaysExact(front) {
        assert DenominatorsExact(Run(front[..|front|]));
        KeepsIff(Run(front), op);
      }
    }
  }

  /** So over every disciplined run. */
  lemma DenominatorInvariant(ops: seq<Op>)
    requires Disciplined(ops)
    ensures DenominatorsExact(Run(ops))
  {
    AlwaysExactIff(ops);
    assert ops[..|ops|] == ops;
  }

  /** The weight mapped minus the weight unmapped for g since the last Sync. */
  function NetWeight(ops: seq<Op>, g: RouteGUID): int
  {
    if ops == [] then 0
    else
      var before := NetWeight(ops[..|ops| - 1], g);
      match ops[|ops| - 1]
      case MapOp(rm) => before + Contribution(rm, g)
      case UnmapOp(rm) => before - Contribution(rm, g)
      case SyncOp(list) => ListWeight(list, g)
  }

  function ListWeight(list: seq<RouteMapping>, g: RouteGUID): nat
  {
    if list == [] then 0 else ListWeight(list[..|list| - 1], g) + Contribution(list[|list| - 1], g)
  }

  lemma {:induction false} ListDenominator(list: seq<RouteMapping>, g: RouteGUID)
    ensures Lookup(MappedAll(EMPTY, list).denominators, g) == Wrap(ListWeight(list, g))
  {
    if list != [] {
      ListDenominator(list[..|list| - 1], g);
      WrapAdd(ListWeight(list[..|list| - 1], g), Contribution(list[|list| - 1], g));
    }
  }

  /** Over every run, disciplined or not, the denominator is the net weight modulo 2^32. */
  lemma {:induction false} DenominatorIsNetWeight(ops: seq<Op>, g: RouteGUID)
    ensures Lookup(Run(ops).denominators, g) == Wrap(NetWeight(ops, g))
  {
    if ops != [] {
      DenominatorIsNetWeight(ops[..|ops| - 1], g);
      var before := NetWeight(ops[..|ops| - 1], g);
      match ops[|ops| - 1] {
        case MapOp(rm) => WrapAdd(before, Contribution(rm, g));
        case UnmapOp(rm) => WrapAdd(before, 0 - Contribution(rm, g) as int);
        case SyncOp(list) => ListDenominator(list, g);
      }
    }
  }

  lemma {:induction false} MappedAllKeyed(list: seq<RouteMapping>)
    ensures Keyed(MappedAll(EMPTY, list).repo)
  {
    if list != [] { MappedAllKeyed(list[..|list| - 1]); }
  }

  /** Over every run each mapping is stored under its own key. */
  lemma {:induction false} RunKeyed(ops: seq<Op>)
    ensures Keyed(Run(ops).repo)
  {
    if ops != [] {
      RunKeyed(ops[..|ops| - 1]);
      if ops[|ops| - 1].SyncOp? { MappedAllKeyed(ops[|ops| - 1].list); }
    }
  }

  /** Mappings of g and h with one key are mappings of one route to one process. */
  ghost predicate KeysIdentify(g: RouteGUID, h: RouteGUID)
  {
    forall a: RouteMapping, b: RouteMapping | a.routeGUID == g && b.routeGUID == h && a.Key() == b.Key() ::
      g == h && a.capiProcessGUID == b.capiProcessGUID
  }

  /** A process whose mapping to g collides with that of process q to g + "-" + rest. */
  lemma KeyCollision(g: RouteGUID, rest: string, q: CAPIProcessGUID, v: uint32, u: uint32)
    ensures var a, b := RouteMapping(g, rest + "-" + q, v), RouteMapping(g + "-" + rest, q, u);
      && a.Key() == b.Key() && a.routeGUID != b.routeGUID
      && Run([MapOp(a), MapOp(b)]).repo == map[b.Key() := b]
  {
    var a, b := RouteMapping(g, rest + "-" + q, v), RouteMapping(g + "-" + rest, q, u);
    assert a.Key() == g + "-" + rest + "-" + q == b.Key();
    assert |b.routeGUID| > |a.routeGUID|;
    RunTwo(MapOp(a), MapOp(b));
  }

  lemma RunTwo(a: Op, b: Op)
    ensures Run([a]) == Apply(EMPTY, a) && Run([a, b]) == Apply(Apply(EMPTY, a), b)
  {
    assert [a][..0] == [] && [a, b][..1] == [a];
  }

  /** A longer GUID whose mappings share a key starts with the shorter one and a dash. */
  lemma SharedKey(a: RouteMapping, b: RouteMapping)
    requires a.Key() == b.Key() && |a.routeGUID| < |b.routeGUID|
    ensures a.routeGUID + "-" <= b.routeGUID
  {
    var n := |a.routeGUID| + 1;
    assert a.Key()[..n] == a.routeGUID + "-";
    assert b.Key()[..n] == b.routeGUID[..n];
  }

  /** The keys of two routes' mappings identify them if and only if neither GUID starts with the other
      and a dash. */
  lemma KeysIdentifyIff(g: RouteGUID, h: RouteGUID)
    ensures KeysIdentify(g, h) <==> !(g + "-" <= h) && !(h + "-" <= g)
  {
    if g + "-" <= h {
      var rest := h[|g| + 1..];
      assert h == g + "-" + rest;
      KeyCollision(g, rest, "", 0, 0);
      assert RouteMapping(g, rest + "-" + "", 0).Key() == RouteMapping(h, "", 0).Key();
    } else if h + "-" <= g {
      var rest := g[|h| + 1..];
      assert g == h + "-" + rest;
      KeyCollision(h, rest, "", 0, 0);
      assert RouteMapping(g, "", 0).Key() == RouteMapping(h, rest + "-" + "", 0).Key();
    } else {
      forall a: RouteMapping, b: RouteMapping | a.routeGUID == g && b.routeGUID == h && a.Key() == b.Key()
        ensures g == h && a.capiProcessGUID == b.capiProcessGUID
      {
        if |g| < |h| { SharedKey(a, b); } else if |h| < |g| { SharedKey(b, a); } else { SameLength(a, b); }
      }
    }
  }

  lemma SameLength(a: RouteMapping, b: RouteMapping)
    requires |a.routeGUID| == |b.routeGUID| && a.Key() == b.Key()
    ensures a.routeGUID == b.routeGUID && a.capiProcessGUID == b.capiProcessGUID
  {
    var n := |a.routeGUID|;
    assert a.Key()[..n] == a.routeGUID && b.Key()[..n] == b.routeGUID;
    assert a.Key()[n + 1..] == a.capiProcessGUID && b.Key()[n + 1..] == b.capiProcessGUID;
  }

  /** So they do when the route GUIDs have one length. */
  lemma KeyInjective(a: RouteMapping, b: RouteMapping)
    requires |a.routeGUID| == |b.routeGUID|
    ensures a.Key() == b.Key() <==> a.routeGUID == b.routeGUID && a.capiProcessGUID == b.capiProcessGUID
  {
    KeysIdentifyIff(a.routeGUID, b.routeGUID);
    assert KeysIdentify(a.routeGUID, b.routeGUID);
  }

  /** Mapping the same key twice, or syncing a list that has it twice, counts its weight twice. */
  lemma RemapCountsTwice()
    ensures var rm := RouteMapping("r", "p", 1);
      forall ops | ops in {[MapOp(rm), MapOp(rm)], [SyncOp([rm, rm])]} ::
        Lookup(Run(ops).denominators, "r") == 2 && StoredWeight(Run(ops).repo, "r") == 1
  {
    var rm := RouteMapping("r", "p", 1);
    RunTwo(MapOp(rm), MapOp(rm));
    assert [SyncOp([rm, rm])][..0] == [] && [rm, rm][..1] == [rm] && [rm][..0] == [];
    assert MappedAll(EMPTY, [rm]) == Mapped(EMPTY, rm);
    assert MappedAll(EMPTY, [rm, rm]) == Mapped(Mapped(EMPTY, rm), rm);
    StoredWeightUpdate(map[rm.Key() := rm], "r", rm.Key(), rm);
    assert map[rm.Key() := rm] - {rm.Key()} == map[];
  }

  /** Unmapping what was never mapped leaves a denominator just below 2^32. */
  lemma UnmapSubtractsAnyway(rm: RouteMapping)
    requires rm.routeWeight > 0
    ensures var s := Run([UnmapOp(rm)]);
      Lookup(s.denominators, rm.routeGUID) == MOD32 - rm.routeWeight && StoredWeight(s.repo, rm.routeGUID) == 0
  {
    assert [UnmapOp(rm)][..0] == [];
    assert EMPTY.repo - {rm.Key()} == map[];
  }
}
