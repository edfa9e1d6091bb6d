/** The weights along the whole pipeline: from the mappings and their denominators, through
    truncation and leftovers, to the destinations of one HTTP route. */
module WeightShares {
  import opened Models
  import opened Sequences
  import opened LeftoverWeights
  import opened Collector
  import RouteMappings
  import CalculatedWeight

  type Mappings = RouteMappings.Mappings

  predicate Mapped(w: World, g: RouteGUID)
  {
    g in w.routes && exists k | k in w.mappings.repo :: w.mappings.repo[k].routeGUID == g
  }

  function HostOf(w: World, g: RouteGUID): string
    requires g in w.routes
  {
    w.lower(w.routes[g].host)
  }

  /** The key of the leftovers. */
  function KeyOf(w: World, g: RouteGUID): string
    requires g in w.routes
  {
    HostOf(w, g) + "/" + w.routes[g].path
  }

  /** The key of the HTTP routes. */
  function FullOf(w: World, g: RouteGUID): string
    requires g in w.routes
  {
    HostOf(w, g) + w.routes[g].path
  }

  /** No other mapped route has the key that g has for the leftovers. */
  ghost predicate OwnLeftovers(w: World, g: RouteGUID)
    requires g in w.routes
  {
    forall h | Mapped(w, h) && KeyOf(w, h) == KeyOf(w, g) :: h == g
  }

  /** Nor the one it has for the HTTP routes. */
  ghost predicate OwnHTTPRoute(w: World, g: RouteGUID)
    requires g in w.routes
  {
    forall h | Mapped(w, h) && FullOf(w, h) == FullOf(w, g) :: h == g
  }

  function Denominator(w: World, g: RouteGUID): uint32
  {
    RouteMappings.Lookup(w.mappings.denominators, g)
  }

  /** The denominator of g is the sum of its weights, not zero, and either small enough for every
      weight or used only with weights that the handlers accept. */
  ghost predicate GoodDenominator(w: World, g: RouteGUID)
  {
    && Denominator(w, g) == RouteMappings.StoredWeight(w.mappings.repo, g) > 0
    && forall k | k in w.mappings.repo && w.mappings.repo[k].routeGUID == g ::
         w.mappings.repo[k].routeWeight <= 128 || Denominator(w, g) <= CalculatedWeight.MAX_DENOMINATOR
  }

  /** Every mapping of g has backends. */
  ghost predicate AllBacked(w: World, g: RouteGUID)
  {
    forall k | k in w.mappings.repo && w.mappings.repo[k].routeGUID == g :: Build(w, w.mappings.repo[k]).Some?
  }

  // ----- sums over the mappings of one route

  function Share(w: World, k: string, g: RouteGUID): int
    requires k in w.mappings.repo
  {
    if w.mappings.repo[k].routeGUID == g then Percentage(w, w.mappings.repo[k]) else 0
  }

  function Points(w: World, order: seq<string>, g: RouteGUID): int
    requires AreKeys(w, order)
  {
    if order == [] then 0 else Points(w, order[..|order| - 1], g) + Share(w, order[|order| - 1], g)
  }

  function Members(w: World, order: seq<string>, g: RouteGUID): nat
    requires AreKeys(w, order)
  {
    if order == [] then 0
    else Members(w, order[..|order| - 1], g) + if w.mappings.repo[order[|order| - 1]].routeGUID == g then 1 else 0
  }

  function WeightIn(repo: Mappings, order: seq<string>, g: RouteGUID): nat
    requires forall k | k in order :: k in repo
  {
    if order == [] then 0
    else WeightIn(repo, order[..|order| - 1], g) + RouteMappings.Contribution(repo[order[|order| - 1]], g)
  }

  /** Summed in any order of enumeration, the weights of g are its stored weight. */
  lemma {:induction false} WeightOfEnumeration(repo: Mappings, order: seq<string>, g: RouteGUID)
    requires Enumerates(order, repo.Keys)
    ensures WeightIn(repo, order, g) == RouteMappings.StoredWeight(repo, g)
    decreases |order|
  {
    if order == [] {
      assert repo.Keys == {};
      assert repo == map[];
    } else {
      var front, k := order[..|order| - 1], order[|order| - 1];
      var rest := repo - {k};
      assert order == front + [k];
      assert Enumerates(front, rest.Keys);
      WeightOfEnumeration(rest, front, g);
      SameWeights(repo, rest, front, g);
      RouteMappings.StoredWeightRemove(repo, g, k);
    }
  }

  lemma {:induction false} SameWeights(a: Mappings, b: Mappings, order: seq<string>, g: RouteGUID)
    requires forall k | k in order :: k in a && k in b && a[k] == b[k]
    ensures WeightIn(a, order, g) == WeightIn(b, order, g)
  {
    if order != [] {
      assert forall k | k in order[..|order| - 1] :: k in order;
      SameWeights(a, b, order[..|order| - 1], g);
    }
  }

  lemma ShareInterval(w: World, k: string, g: RouteGUID)
    requires k in w.mappings.repo && w.mappings.repo[k].routeGUID == g && GoodDenominator(w, g)
    ensures var c, d := Percentage(w, w.mappings.repo[k]), Denominator(w, g);
      && 0 <= c <= 100
      && c * d <= 100 * w.mappings.repo[k].routeWeight <= (c + 1) * d
  {
    RouteMappings.StoredWeightRemove(w.mappings.repo, g, k);
    RouteMappings.PercentageInInterval(w.mappings.repo[k].routeWeight, Denominator(w, g), w.undefinedConversion);
  }

  /** The truncated percentages of a route are worth at most its weight, and with one point more for
      each they are worth at least that. */
  lemma {:induction false} PointsInterval(w: World, order: seq<string>, g: RouteGUID)
    requires AreKeys(w, order) && GoodDenominator(w, g)
    ensures var p, n, d := Points(w, order, g), Members(w, order, g), Denominator(w, g);
      && 0 <= p && n <= |order|
      && p * d <= 100 * WeightIn(w.mappings.repo, order, g) <= (p + n) * d
  {
    if order != [] {
      var front, k := order[..|order| - 1], order[|order| - 1];
      assert forall j | j in front :: j in order;
      PointsInterval(w, front, g);
      var p, n, d := Points(w, front, g), Members(w, front, g), Denominator(w, g);
      if w.mappings.repo[k].routeGUID == g {
        ShareInterval(w, k, g);
        AddInterval(p, n, Percentage(w, w.mappings.repo[k]), d,
                    WeightIn(w.mappings.repo, front, g), w.mappings.repo[k].routeWeight);
      }
    }
  }

  lemma AddInterval(p: int, n: nat, c: int, d: nat, sum: nat, weight: nat)
    requires p * d <= 100 * sum <= (p + n) * d
    requires c * d <= 100 * weight <= (c + 1) * d
    ensures (p + c) * d <= 100 * (sum + weight) <= (p + c + (n + 1)) * d
  {
    assert (p + c) * d == p * d + c * d;
    assert (p + c + (n + 1)) * d == (p + n) * d + (c + 1) * d;
  }

  lemma Divide(a: int, b: int, d: int)
    requires d > 0 && a * d <= b * d
    ensures a <= b
  {
  }

  // ----- the group of a route, before the leftovers

  /** Built routes with the key of g are built for mappings of g, and the other way round. */
  lemma KeyIdentifies(w: World, k: string, g: RouteGUID)
    requires Mapped(w, g) && OwnLeftovers(w, g)
    requires k in w.mappings.repo && Build(w, w.mappings.repo[k]).Some?
    ensures HasKey(KeyOf(w, g))(Build(w, w.mappings.repo[k]).value) <==> w.mappings.repo[k].routeGUID == g
  {
    assert Mapped(w, w.mappings.repo[k].routeGUID);
  }

  /** What GroupBuilt says of a group. */
  ghost predicate GroupFits(w: World, order: seq<string>, g: RouteGUID, group: Routes)
    requires AreKeys(w, order)
  {
    && (forall r | r in group :: 0 <= r.routeWeight <= 100)
    && 0 <= Total(group) <= Points(w, order, g) && |group| <= Members(w, order, g)
    && (AllBacked(w, g) ==> Total(group) == Points(w, order, g) && |group| == Members(w, order, g))
  }

  lemma GroupNext(w: World, front: seq<string>, k: string, g: RouteGUID, group: Routes)
    requires AreKeys(w, front) && k in w.mappings.repo && GoodDenominator(w, g) && GroupFits(w, front, g, group)
    ensures AreKeys(w, front + [k])
    ensures var rm := w.mappings.repo[k];
      GroupFits(w, front + [k], g,
                if rm.routeGUID == g && Build(w, rm).Some? then group + [Build(w, rm).value] else group)
  {
    var order, rm := front + [k], w.mappings.repo[k];
    assert order[..|order| - 1] == front;
    if rm.routeGUID == g {
      ShareInterval(w, k, g);
      if Build(w, rm).Some? { assert (group + [Build(w, rm).value])[..|group|] == group; }
    }
  }

  lemma {:induction false} GroupBuilt(w: World, order: seq<string>, g: RouteGUID)
    requires AreKeys(w, order) && Mapped(w, g) && OwnLeftovers(w, g) && GoodDenominator(w, g)
    ensures GroupFits(w, order, g, Group(Built(w, order), KeyOf(w, g)))
  {
    if order != [] {
      var front, k := order[..|order| - 1], order[|order| - 1];
      assert forall j | j in front :: j in order;
      assert order == front + [k];
      GroupBuilt(w, front, g);
      GroupNext(w, front, k, g, Group(Built(w, front), KeyOf(w, g)));
      if Build(w, w.mappings.repo[k]).Some? {
        KeyIdentifies(w, k, g);
        FilterSnoc(Built(w, front), Build(w, w.mappings.repo[k]).value, HasKey(KeyOf(w, g)));
        assert Built(w, order) == Built(w, front) + [Build(w, w.mappings.repo[k]).value];
      } else {
        assert Built(w, order) == Built(w, front);
      }
    }
  }

  /** Before the leftovers, the group of a route holds at most 100 points; with one point more for
      each member it holds at least 100 when every mapping has backends. */
  lemma GroupBefore(w: World, order: seq<string>, g: RouteGUID)
    requires Enumeration(w, order)
    requires Mapped(w, g) && OwnLeftovers(w, g) && GoodDenominator(w, g)
    ensures var s, key := Ordered(Built(w, order)), KeyOf(w, g);
      && (forall r | r in Group(s, key) :: 0 <= r.routeWeight <= 100)
      && 0 <= GroupTotal(s, key) <= 100
      && (AllBacked(w, g) ==> 100 <= GroupTotal(s, key) + |Group(s, key)|)
  {
    var built, s, key := Built(w, order), Ordered(Built(w, order)), KeyOf(w, g);
    GroupBuilt(w, order, g);
    PointsInterval(w, order, g);
    WeightOfEnumeration(w.mappings.repo, order, g);
    var d := Denominator(w, g);
    Divide(Points(w, order, g), 100, d);
    Divide(100, Points(w, order, g) + Members(w, order, g), d);
    OrderedAscends(built);
    FilterPermutation(s, built, HasKey(key));
    SumPermutation(Group(s, key), Group(built, key), Weight);
    assert |multiset(Group(s, key))| == |multiset(Group(built, key))|;
    forall r | r in Group(s, key) ensures r in Group(built, key) { assert r in multiset(Group(s, key)); }
  }

  // ----- the group of a route, as collected

  /** The weights of the routes with a key that no other mapped route has sum to at most 100. They sum
      to exactly 100 if and only if truncation and missing backends cost at most one point for each
      route that is there; in particular when every mapping has backends. */
  lemma GroupShares(w: World, order: seq<string>, g: RouteGUID)
    requires Enumeration(w, order)
    requires Mapped(w, g) && OwnLeftovers(w, g) && GoodDenominator(w, g)
    ensures var before, key := Ordered(Built(w, order)), KeyOf(w, g);
      var total := GroupTotal(Collected(w, order), key);
      && 0 <= total <= 100
      && (total == 100 <==> 100 <= GroupTotal(before, key) + |Group(before, key)|)
      && (AllBacked(w, g) ==> total == 100)
  {
    var before, key := Ordered(Built(w, order)), KeyOf(w, g);
    GroupBefore(w, order, g);
    GroupTotalAfterFix(before, key);
  }
}
