/** What of a collected list does not depend on the order in which Go enumerates the mappings. */
module EnumerationIndependence {
  import opened Models
  import opened Sequences
  import opened Sorting
  import opened LeftoverWeights
  import opened Collector
  import RouteMappings
  import BackendStore

  // ----- the same routes

  lemma BuiltSplit(w: World, a: seq<string>, k: string, b: seq<string>)
    requires AreKeys(w, a + [k] + b)
    ensures AreKeys(w, a + b)
    ensures multiset(Built(w, a + [k] + b)) == multiset(Built(w, a + b)) +
            if Build(w, w.mappings.repo[k]).Some? then multiset{Build(w, w.mappings.repo[k]).value} else multiset{}
  {
    BuiltConcat(w, a, b);
    BuiltConcat(w, a + [k], b);
    assert (a + [k])[..|a|] == a;
  }

  lemma {:induction false} BuiltConcat(w: World, a: seq<string>, b: seq<string>)
    requires AreKeys(w, a) && AreKeys(w, b)
    ensures AreKeys(w, a + b) && Built(w, a + b) == Built(w, a) + Built(w, b)
  {
    if b == [] {
      assert a + b == a;
    } else {
      var front := b[..|b| - 1];
      BuiltConcat(w, a, front);
      assert (a + b)[..|a + b| - 1] == a + front;
    }
  }

  lemma {:induction false} BuiltPermutes(w: World, o: seq<string>, p: seq<string>)
    requires AreKeys(w, o) && AreKeys(w, p) && multiset(o) == multiset(p)
    ensures multiset(Built(w, o)) == multiset(Built(w, p))
    decreases |o|
  {
    if o == [] {
      assert |multiset(p)| == 0;
    } else {
      var i := LastPosition(o, p);
      var front, k := o[..|o| - 1], o[|o| - 1];
      SplitAt(p, i);
      BuiltSplit(w, p[..i], k, p[i + 1..]);
      BuiltPermutes(w, front, Without(p, i));
    }
  }

  /** A route without its weight. */
  function Bare(r: RouteWithBackends): RouteWithBackends { r.(routeWeight := 0) }

  function BareAll(routes: Routes): (s: Routes)
    ensures |s| == |routes|
    ensures forall i | 0 <= i < |routes| :: s[i] == Bare(routes[i])
  {
    seq(|routes|, i requires 0 <= i < |routes| => Bare(routes[i]))
  }

  lemma {:induction false} BarePermutes(s: Routes, t: Routes)
    requires multiset(s) == multiset(t)
    ensures multiset(BareAll(s)) == multiset(BareAll(t))
    decreases |s|
  {
    if s == [] {
      assert |multiset(t)| == 0;
    } else {
      var i := LastPosition(s, t);
      BarePermutes(s[..|s| - 1], Without(t, i));
      assert BareAll(s) == BareAll(s[..|s| - 1]) + [Bare(t[i])];
      assert BareAll(t) == BareAll(t[..i]) + [Bare(t[i])] + BareAll(t[i + 1..]);
      assert BareAll(Without(t, i)) == BareAll(t[..i]) + BareAll(t[i + 1..]);
    }
  }

  lemma SameOrdered(w: World, o: seq<string>, p: seq<string>)
    requires Enumeration(w, o) && Enumeration(w, p)
    ensures multiset(Built(w, o)) == multiset(Built(w, p))
    ensures multiset(Ordered(Built(w, o))) == multiset(Ordered(Built(w, p)))
  {
    EnumerationsPermute(o, p, w.mappings.repo.Keys);
    BuiltPermutes(w, o, p);
    OrderedAscends(Built(w, o));
    OrderedAscends(Built(w, p));
  }

  lemma FixedIsBare(s: Routes)
    ensures BareAll(FixedWeights(s)) == BareAll(s)
  {
  }

  /** For any two enumerations the collected routes are the same, weights aside. */
  lemma SameRoutes(w: World, o: seq<string>, p: seq<string>)
    requires Enumeration(w, o) && Enumeration(w, p)
    ensures multiset(BareAll(Collected(w, o))) == multiset(BareAll(Collected(w, p)))
  {
    SameOrdered(w, o, p);
    BarePermutes(Ordered(Built(w, o)), Ordered(Built(w, p)));
    FixedIsBare(Ordered(Built(w, o)));
    FixedIsBare(Ordered(Built(w, p)));
  }

  // ----- the same totals

  lemma GroupsPermute(s: Routes, t: Routes, key: string)
    requires multiset(s) == multiset(t)
    ensures |Group(s, key)| == |Group(t, key)|
    ensures GroupTotal(s, key) == GroupTotal(t, key)
  {
    FilterPermutation(s, t, HasKey(key));
    SumPermutation(Group(s, key), Group(t, key), Weight);
    assert |multiset(Group(s, key))| == |multiset(Group(t, key))|;
  }

  lemma FixedTotal(s: Routes, key: string)
    requires forall r | r in Group(s, key) :: r.routeWeight < 0x7fff_ffff
    ensures |Group(FixedWeights(s), key)| == |Group(s, key)|
    ensures GroupTotal(FixedWeights(s), key) == GroupTotal(s, key) +
            if Wrap(100 - GroupTotal(s, key)) < |Group(s, key)| then Wrap(100 - GroupTotal(s, key)) else |Group(s, key)|
  {
    GroupAfterFix(s, key);
    BumpedTotal(Group(s, key), Leftover(s, key));
  }

  lemma SameFixedTotals(s: Routes, t: Routes, key: string)
    requires multiset(s) == multiset(t)
    requires forall r | r in Group(s, key) :: r.routeWeight < 0x7fff_ffff
    requires forall r | r in Group(t, key) :: r.routeWeight < 0x7fff_ffff
    ensures |Group(FixedWeights(s), key)| == |Group(FixedWeights(t), key)|
    ensures GroupTotal(FixedWeights(s), key) == GroupTotal(FixedWeights(t), key)
  {
    GroupsPermute(s, t, key);
    FixedTotal(s, key);
    FixedTotal(t, key);
  }

  /** A point can be added to every percentage: always so unless the platform converts an undefined
      percentage to the largest int32. */
  ghost predicate RoomForAPoint(w: World)
  {
    forall k | k in w.mappings.repo :: Percentage(w, w.mappings.repo[k]) < 0x7fff_ffff
  }

  /** For any two enumerations every host and path has the same number of routes and the same total
      weight. */
  lemma SameTotals(w: World, o: seq<string>, p: seq<string>, key: string)
    requires Enumeration(w, o) && Enumeration(w, p)
    requires RoomForAPoint(w)
    ensures |Group(Collected(w, o), key)| == |Group(Collected(w, p), key)|
    ensures GroupTotal(Collected(w, o), key) == GroupTotal(Collected(w, p), key)
  {
    SameOrdered(w, o, p);
    SmallWeights(w, o, key);
    SmallWeights(w, p, key);
    SameFixedTotals(Ordered(Built(w, o)), Ordered(Built(w, p)), key);
  }

  lemma SmallWeights(w: World, o: seq<string>, key: string)
    requires AreKeys(w, o) && RoomForAPoint(w)
    ensures forall r | r in Group(Ordered(Built(w, o)), key) :: r.routeWeight < 0x7fff_ffff
  {
    OrderedAscends(Built(w, o));
    FilterMembers(Ordered(Built(w, o)), HasKey(key));
    forall r | r in Group(Ordered(Built(w, o)), key) ensures r.routeWeight < 0x7fff_ffff {
      assert r in multiset(Ordered(Built(w, o)));
      var k := BuiltFrom(w, o, r);
    }
  }

  // ----- ties

  /** What the collector sorts by: path routes first and by path length, pathless routes by process. */
  predicate Before(a: RouteWithBackends, b: RouteWithBackends)
  {
    if a.path == "" then b.path == "" && EarlierProcess(a, b) else b.path == "" || ShorterPath(a, b)
  }

  /** The order does not tell the routes apart. */
  predicate Tie(r: RouteWithBackends, s: RouteWithBackends)
  {
    if r.path == "" then s.path == "" && r.capiProcessGUID == s.capiProcessGUID
    else s.path != "" && |r.path| == |s.path|
  }

  lemma TieIsSame(r: RouteWithBackends, s: RouteWithBackends)
    ensures Tie(r, s) <==> Same(Before, r, s)
  {
    StringLessTotal(r.capiProcessGUID, s.capiProcessGUID);
  }

  lemma BeforeOrder()
    ensures WeakOrder(Before)
  {
    ProcessOrder();
    PathOrder();
  }

  lemma HalvesHave(built: Routes)
    ensures forall r | r in StableSort(Filter(built, HasPath), ShorterPath) :: r.path != ""
    ensures forall r | r in StableSort(Filter(built, HasNoPath), EarlierProcess) :: r.path == ""
  {
    var x, y := StableSort(Filter(built, HasPath), ShorterPath), StableSort(Filter(built, HasNoPath), EarlierProcess);
    PathOrder();
    ProcessOrder();
    StableSortSorts(Filter(built, HasPath), ShorterPath);
    StableSortSorts(Filter(built, HasNoPath), EarlierProcess);
    FilterMembers(built, HasPath);
    FilterMembers(built, HasNoPath);
    forall r | r in x ensures r.path != "" { assert r in multiset(x) && r in Filter(built, HasPath); }
    forall r | r in y ensures r.path == "" { assert r in multiset(y) && r in Filter(built, HasNoPath); }
  }

  lemma TiesWithPath(built: Routes, x: RouteWithBackends)
    requires x.path != ""
    ensures Ties(Ordered(built), x, Before) == Ties(built, x, Before)
  {
    var a, b := StableSort(Filter(built, HasPath), ShorterPath), StableSort(Filter(built, HasNoPath), EarlierProcess);
    HalvesHave(built);
    FilterConcat(a, b, TiedWith(x, Before));
    FilterNone(b, TiedWith(x, Before));
    FilterAgrees(a, TiedWith(x, Before), TiedWith(x, ShorterPath));
    PathOrder();
    StableSortSorts(Filter(built, HasPath), ShorterPath);
    assert Ties(a, x, ShorterPath) == Ties(Filter(built, HasPath), x, ShorterPath);
    FilterTwice(built, HasPath, TiedWith(x, ShorterPath), TiedWith(x, Before));
  }

  lemma TiesWithoutPath(built: Routes, x: RouteWithBackends)
    requires x.path == ""
    ensures Ties(Ordered(built), x, Before) == Ties(built, x, Before)
  {
    var a, b := StableSort(Filter(built, HasPath), ShorterPath), StableSort(Filter(built, HasNoPath), EarlierProcess);
    HalvesHave(built);
    FilterConcat(a, b, TiedWith(x, Before));
    FilterNone(a, TiedWith(x, Before));
    FilterAgrees(b, TiedWith(x, Before), TiedWith(x, EarlierProcess));
    ProcessOrder();
    StableSortSorts(Filter(built, HasNoPath), EarlierProcess);
    assert Ties(b, x, EarlierProcess) == Ties(Filter(built, HasNoPath), x, EarlierProcess);
    FilterTwice(built, HasNoPath, TiedWith(x, EarlierProcess), TiedWith(x, Before));
  }

  /** The two sorts and the concatenation are one stable sort. */
  lemma OrderedStablySorts(built: Routes)
    ensures StablySorts(built, Ordered(built), Before)
  {
    OrderedAscends(built);
    forall x ensures Ties(Ordered(built), x, Before) == Ties(built, x, Before) {
      if x.path == "" { TiesWithoutPath(built, x); } else { TiesWithPath(built, x); }
    }
  }

  /** The routes built for the two mappings tie. */
  predicate BuildTied(w: World, j: string, k: string)
    requires j in w.mappings.repo && k in w.mappings.repo
  {
    && Build(w, w.mappings.repo[j]).Some? && Build(w, w.mappings.repo[k]).Some?
    && Tie(Build(w, w.mappings.repo[j]).value, Build(w, w.mappings.repo[k]).value)
  }

  function All(): RouteWithBackends -> bool { r => true }

  /** The routes that keep selects are equal when they tie. */
  ghost predicate NoTiesAmong(w: World, keep: RouteWithBackends -> bool)
  {
    forall j, k | j in w.mappings.repo && k in w.mappings.repo && BuildTied(w, j, k)
                  && keep(Build(w, w.mappings.repo[j]).value) && keep(Build(w, w.mappings.repo[k]).value) ::
      Build(w, w.mappings.repo[j]) == Build(w, w.mappings.repo[k])
  }

  lemma SameAmong(w: World, o: seq<string>, p: seq<string>, keep: RouteWithBackends -> bool)
    requires Enumeration(w, o) && Enumeration(w, p) && NoTiesAmong(w, keep)
    ensures Filter(Ordered(Built(w, o)), keep) == Filter(Ordered(Built(w, p)), keep)
  {
    var s, t := Ordered(Built(w, o)), Ordered(Built(w, p));
    SameOrdered(w, o, p);
    FilterPermutation(s, t, keep);
    OrderedStablySorts(Built(w, o));
    OrderedStablySorts(Built(w, p));
    FilterSorted(s, keep, Before);
    FilterSorted(t, keep, Before);
    FilterMembers(s, keep);
    BeforeOrder();
    forall y, z | y in Filter(s, keep) && z in Filter(s, keep) && Same(Before, y, z) ensures y == z {
      assert y in multiset(s) && z in multiset(s);
      TieIsSame(y, z);
      var j := BuiltFrom(w, o, y);
      var k := BuiltFrom(w, o, z);
      assert BuildTied(w, j, k);
    }
    SortedUnique(Filter(s, keep), Filter(t, keep), Before);
  }

  lemma TwoFirst(w: World, j: string, k: string, others: seq<string>)
    requires j in w.mappings.repo && k in w.mappings.repo && j != k
    requires Build(w, w.mappings.repo[j]).Some? && Build(w, w.mappings.repo[k]).Some?
    requires Enumerates(others, w.mappings.repo.Keys - {j, k})
    ensures Enumeration(w, [j] + [k] + others)
    ensures Built(w, [j] + [k] + others) ==
            [Build(w, w.mappings.repo[j]).value] + ([Build(w, w.mappings.repo[k]).value] + Built(w, others))
  {
    BuiltOne(w, j);
    BuiltOne(w, k);
    BuiltConcat(w, [j], [k]);
    BuiltConcat(w, [j] + [k], others);
  }

  /** Two enumerations that differ in the order of two mappings, and what they build. */
  lemma Swapped(w: World, j: string, k: string) returns (o: seq<string>, p: seq<string>, rest: Routes)
    requires j in w.mappings.repo && k in w.mappings.repo && j != k
    requires Build(w, w.mappings.repo[j]).Some? && Build(w, w.mappings.repo[k]).Some?
    ensures Enumeration(w, o) && Enumeration(w, p)
    ensures var r, s := Build(w, w.mappings.repo[j]).value, Build(w, w.mappings.repo[k]).value;
      Built(w, o) == [r] + ([s] + rest) && Built(w, p) == [s] + ([r] + rest)
  {
    var others := SomeEnumeration(w.mappings.repo.Keys - {j, k});
    rest := Built(w, others);
    o, p := [j] + [k] + others, [k] + [j] + others;
    TwoFirst(w, j, k, others);
    assert {j, k} == {k, j};
    TwoFirst(w, k, j, others);
  }

  lemma BuiltOne(w: World, k: string)
    requires k in w.mappings.repo && Build(w, w.mappings.repo[k]).Some?
    ensures Built(w, [k]) == [Build(w, w.mappings.repo[k]).value]
  {
    assert [k][..0] == [];
  }

  lemma KeptTies(built: Routes, x: RouteWithBackends, keep: RouteWithBackends -> bool,
                 both: RouteWithBackends -> bool)
    requires forall y :: both(y) <==> keep(y) && Same(Before, x, y)
    ensures Ties(Filter(Ordered(built), keep), x, Before) == Filter(built, both)
  {
    var all, tied := Ordered(built), TiedWith(x, Before);
    OrderedStablySorts(built);
    FilterTwice(all, keep, tied, both);
    FilterTwice(all, tied, keep, both);
    FilterTwice(built, tied, keep, both);
    assert Ties(all, x, Before) == Ties(built, x, Before);
  }

  /** Sorting and filtering keep the route that was built first ahead of its ties. */
  lemma FirstOfTies(built: Routes, r: RouteWithBackends, rest: Routes, x: RouteWithBackends,
                    keep: RouteWithBackends -> bool)
    requires built == [r] + rest && Tie(x, r) && keep(r)
    ensures var ties := Ties(Filter(Ordered(built), keep), x, Before);
      ties != [] && ties[0] == r
  {
    var both := (y: RouteWithBackends) => keep(y) && Same(Before, x, y);
    KeptTies(built, x, keep, both);
    TieIsSame(x, r);
    FilterConcat([r], rest, both);
    FilterAll([r], both);
  }

  lemma DifferBySwap(w: World, j: string, k: string, keep: RouteWithBackends -> bool)
    returns (o: seq<string>, p: seq<string>)
    requires j in w.mappings.repo && k in w.mappings.repo && BuildTied(w, j, k)
    requires Build(w, w.mappings.repo[j]) != Build(w, w.mappings.repo[k])
    requires keep(Build(w, w.mappings.repo[j]).value) && keep(Build(w, w.mappings.repo[k]).value)
    ensures Enumeration(w, o) && Enumeration(w, p)
    ensures Filter(Ordered(Built(w, o)), keep) != Filter(Ordered(Built(w, p)), keep)
  {
    var r, s := Build(w, w.mappings.repo[j]).value, Build(w, w.mappings.repo[k]).value;
    var rest;
    o, p, rest := Swapped(w, j, k);
    FirstOfTies(Built(w, o), r, [s] + rest, r, keep);
    FirstOfTies(Built(w, p), s, [r] + rest, r, keep);
  }

  lemma DifferAmong(w: World, keep: RouteWithBackends -> bool) returns (o: seq<string>, p: seq<string>)
    requires !NoTiesAmong(w, keep)
    ensures Enumeration(w, o) && Enumeration(w, p)
    ensures Filter(Ordered(Built(w, o)), keep) != Filter(Ordered(Built(w, p)), keep)
  {
    var j, k :| j in w.mappings.repo && k in w.mappings.repo && BuildTied(w, j, k)
                && keep(Build(w, w.mappings.repo[j]).value) && keep(Build(w, w.mappings.repo[k]).value)
                && Build(w, w.mappings.repo[j]) != Build(w, w.mappings.repo[k]);
    o, p := DifferBySwap(w, j, k, keep);
  }

  // ----- the same list

  lemma {:induction false} FilterCounts(s: Routes, t: Routes, p: RouteWithBackends -> bool)
    requires |s| == |t| && forall i | 0 <= i < |s| :: p(s[i]) == p(t[i])
    ensures |Filter(s, p)| == |Filter(t, p)|
  {
    if s != [] { FilterCounts(s[..|s| - 1], t[..|t| - 1], p); }
  }

  lemma HeavierInjective(r: RouteWithBackends, s: RouteWithBackends)
    requires Heavier(r) == Heavier(s)
    ensures r == s
  {
    assert r == Heavier(r).(routeWeight := r.routeWeight);
    assert s == Heavier(s).(routeWeight := s.routeWeight);
    assert (r.routeWeight - s.routeWeight) % MOD32 == 0;
  }

  /** Handing out the leftovers hides no difference between two permutations. */
  lemma FixInjective(s: Routes, t: Routes)
    requires multiset(s) == multiset(t) && FixedWeights(s) == FixedWeights(t)
    ensures s == t
  {
    var fixed, other := FixedWeights(s), FixedWeights(t);
    forall i | 0 <= i < |s| ensures RouteKey(s[i]) == RouteKey(t[i]) {
      assert RouteKey(fixed[i]) == RouteKey(s[i]) && RouteKey(other[i]) == RouteKey(t[i]);
    }
    forall i | 0 <= i < |s| ensures s[i] == t[i] {
      var key := RouteKey(s[i]);
      FilterCounts(s[..i], t[..i], HasKey(key));
      GroupsPermute(s, t, key);
      assert fixed[i] == Fixed(s, i) && other[i] == Fixed(t, i);
      if Rank(s, i) < Leftover(s, key) { HeavierInjective(s[i], t[i]); }
    }
  }

  /** The collected list does not depend on the enumeration if and only if no two different built
      routes tie: path routes of one length, or pathless routes of one process. */
  lemma OneListIff(w: World)
    ensures (forall o, p | Enumeration(w, o) && Enumeration(w, p) :: Collected(w, o) == Collected(w, p))
       <==> NoTiesAmong(w, All())
  {
    if NoTiesAmong(w, All()) {
      forall o, p | Enumeration(w, o) && Enumeration(w, p) ensures Collected(w, o) == Collected(w, p) {
        SameAmong(w, o, p, All());
        FilterAll(Ordered(Built(w, o)), All());
        FilterAll(Ordered(Built(w, p)), All());
      }
    } else {
      var o, p := DifferAmong(w, All());
      SameOrdered(w, o, p);
      if Collected(w, o) == Collected(w, p) { FixInjective(Ordered(Built(w, o)), Ordered(Built(w, p))); }
    }
  }

  // ----- the same pathless routes

  function AtHost(hostname: string): RouteWithBackends -> bool
  {
    (r: RouteWithBackends) => r.path == "" && r.hostname == hostname
  }

  lemma PathlessKey(hostname: string, r: RouteWithBackends)
    requires r.path == ""
    ensures RouteKey(r) == hostname + "/" <==> r.hostname == hostname
  {
    if RouteKey(r) == hostname + "/" {
      assert RouteKey(r) == r.hostname + "/";
      assert |r.hostname| == |hostname|;
      assert RouteKey(r)[..|hostname|] == r.hostname && (hostname + "/")[..|hostname|] == hostname;
    }
  }

  /** The points that go to the pathless routes of the host: path routes with its key come first. */
  function Gains(s: Routes, hostname: string): nat
  {
    var ahead := |Group(s, hostname + "/")| - |Filter(s, AtHost(hostname))|;
    if Leftover(s, hostname + "/") < ahead then 0
    else if ahead < 0 then Leftover(s, hostname + "/")
    else Leftover(s, hostname + "/") - ahead
  }

  lemma PathlessOfGroup(s: Routes, hostname: string)
    ensures Filter(Group(s, hostname + "/"), AtHost(hostname)) == Filter(s, AtHost(hostname))
  {
    forall r | r in s ensures AtHost(hostname)(r) == (HasKey(hostname + "/")(r) && AtHost(hostname)(r)) {
      if r.path == "" { PathlessKey(hostname, r); }
    }
    FilterTwice(s, HasKey(hostname + "/"), AtHost(hostname), AtHost(hostname));
  }

  /** The pathless routes of the host are the tail of the group of their key. */
  lemma PathlessTail(built: Routes, hostname: string) returns (ahead: Routes)
    ensures forall r | r in ahead :: r.path != ""
    ensures Group(Ordered(built), hostname + "/") == ahead + Filter(Ordered(built), AtHost(hostname))
  {
    var key, keep := hostname + "/", AtHost(hostname);
    var x, y := StableSort(Filter(built, HasPath), ShorterPath), StableSort(Filter(built, HasNoPath), EarlierProcess);
    HalvesHave(built);
    ahead := Group(x, key);
    FilterMembers(x, HasKey(key));
    FilterConcat(x, y, HasKey(key));
    FilterConcat(x, y, keep);
    FilterNone(x, keep);
    forall r | r in y ensures HasKey(key)(r) == keep(r) { PathlessKey(hostname, r); }
    FilterAgrees(y, HasKey(key), keep);
  }

  lemma BumpedConcat(a: Routes, b: Routes, n: nat)
    ensures Bumped(a + b, n) == Bumped(a, n) + Bumped(b, if n < |a| then 0 else n - |a|)
  {
  }

  lemma BumpedAtHost(group: Routes, n: nat, hostname: string)
    requires forall r | r in group :: AtHost(hostname)(r)
    ensures Filter(Bumped(group, n), AtHost(hostname)) == Bumped(group, n)
  {
    forall r | r in Bumped(group, n) ensures AtHost(hostname)(r) {
      var i :| 0 <= i < |group| && Bumped(group, n)[i] == r;
      assert group[i] in group;
    }
    FilterAll(Bumped(group, n), AtHost(hostname));
  }

  lemma BumpedWithPath(group: Routes, n: nat, hostname: string)
    requires forall r | r in group :: r.path != ""
    ensures Filter(Bumped(group, n), AtHost(hostname)) == []
  {
    forall r | r in Bumped(group, n) ensures !AtHost(hostname)(r) {
      var i :| 0 <= i < |group| && Bumped(group, n)[i] == r;
      assert group[i] in group;
    }
    FilterNone(Bumped(group, n), AtHost(hostname));
  }

  lemma BumpedTail(ahead: Routes, here: Routes, n: nat, m: nat, hostname: string)
    requires forall r | r in ahead :: r.path != ""
    requires forall r | r in here :: AtHost(hostname)(r)
    requires m == if n < |ahead| then 0 else n - |ahead|
    ensures Filter(Bumped(ahead + here, n), AtHost(hostname)) == Bumped(here, m)
  {
    BumpedConcat(ahead, here, n);
    FilterConcat(Bumped(ahead, n), Bumped(here, m), AtHost(hostname));
    BumpedWithPath(ahead, n, hostname);
    BumpedAtHost(here, m, hostname);
  }

  lemma AtHostAfterFix(built: Routes, hostname: string)
    ensures var s := Ordered(built);
      Filter(FixedWeights(s), AtHost(hostname)) == Bumped(Filter(s, AtHost(hostname)), Gains(s, hostname))
  {
    var s, key := Ordered(built), hostname + "/";
    var ahead := PathlessTail(built, hostname);
    var here := Filter(s, AtHost(hostname));
    GroupAfterFix(s, key);
    PathlessOfGroup(FixedWeights(s), hostname);
    FilterMembers(s, AtHost(hostname));
    BumpedTail(ahead, here, Leftover(s, key), Gains(s, hostname), hostname);
  }

  lemma SameGains(s: Routes, t: Routes, hostname: string)
    requires multiset(s) == multiset(t)
    ensures Gains(s, hostname) == Gains(t, hostname)
  {
    GroupsPermute(s, t, hostname + "/");
    FilterPermutation(s, t, AtHost(hostname));
    assert |multiset(Filter(s, AtHost(hostname)))| == |multiset(Filter(t, AtHost(hostname)))|;
  }

  lemma BumpedInjective(a: Routes, b: Routes, n: nat)
    requires Bumped(a, n) == Bumped(b, n)
    ensures a == b
  {
    assert |a| == |Bumped(a, n)| == |b|;
    forall i | 0 <= i < |a| ensures a[i] == b[i] {
      assert Bumped(a, n)[i] == Bumped(b, n)[i];
      if i < n { HeavierInjective(a[i], b[i]); }
    }
  }

  /** The pathless routes of a host, with their final weights, are the same list for all enumerations
      if and only if no two different ones that were built belong to one process. */
  lemma PathlessRoutesIff(w: World, hostname: string)
    ensures (forall o, p | Enumeration(w, o) && Enumeration(w, p) ::
               Filter(Collected(w, o), AtHost(hostname)) == Filter(Collected(w, p), AtHost(hostname)))
       <==> NoTiesAmong(w, AtHost(hostname))
  {
    if NoTiesAmong(w, AtHost(hostname)) {
      forall o, p | Enumeration(w, o) && Enumeration(w, p)
        ensures Filter(Collected(w, o), AtHost(hostname)) == Filter(Collected(w, p), AtHost(hostname))
      {
        SameAmong(w, o, p, AtHost(hostname));
        CollectedAtHost(w, o, p, hostname);
      }
    } else {
      var o, p := DifferAmong(w, AtHost(hostname));
      CollectedAtHost(w, o, p, hostname);
    }
  }

  lemma CollectedAtHost(w: World, o: seq<string>, p: seq<string>, hostname: string)
    requires Enumeration(w, o) && Enumeration(w, p)
    ensures Filter(Collected(w, o), AtHost(hostname)) == Filter(Collected(w, p), AtHost(hostname))
       <==> Filter(Ordered(Built(w, o)), AtHost(hostname)) == Filter(Ordered(Built(w, p)), AtHost(hostname))
  {
    var s, t := Ordered(Built(w, o)), Ordered(Built(w, p));
    SameOrdered(w, o, p);
    AtHostAfterFix(Built(w, o), hostname);
    AtHostAfterFix(Built(w, p), hostname);
    SameGains(s, t, hostname);
    if Filter(Collected(w, o), AtHost(hostname)) == Filter(Collected(w, p), AtHost(hostname)) {
      BumpedInjective(Filter(s, AtHost(hostname)), Filter(t, AtHost(hostname)), Gains(s, hostname));
    }
  }

  // ----- two routes of one process

  const ONE := Backend("10.0.0.1", 61000, 8080)

  function Unchanged(): string -> string { s => s }

  function Zero(): (uint32, uint32) -> int32 { (x, y) => 0 }

  /** Routes a and b, both mapped to process "p", which has one backend on either network. */
  function TwoRoutes(a: Route, b: Route): World
  {
    World(map["a" := a, "b" := b],
          RouteMappings.State(
            map["a-p" := RouteMapping("a", "p", 1), "b-p" := RouteMapping("b", "p", 1)], map["a" := 1, "b" := 1]),
          map["p" := ["d"]],
          map["d" := BackendStore.Sets([ONE], [ONE])],
          Unchanged(), Zero())
  }

  lemma TwoRoutesBuilt(a: Route, b: Route, k: string)
    requires k in {"a-p", "b-p"}
    ensures var w, route := TwoRoutes(a, b), if k == "a-p" then a else b;
      && k in w.mappings.repo && Build(w, w.mappings.repo[k]).Some?
      && var r := Build(w, w.mappings.repo[k]).value;
         r.hostname == route.host && r.path == route.path && r.capiProcessGUID == "p" && r.vip == route.vip
  {
    var w := TwoRoutes(a, b);
    var rm := w.mappings.repo[k];
    assert w.associations[rm.capiProcessGUID] == ["d"];
    assert ["d"][..0] == [];
    assert BackendsOf(w.content, ["d"], w.routes[rm.routeGUID].internal) == [ONE];
  }

  lemma TwoRoutesTie(a: Route, b: Route, keep: RouteWithBackends -> bool)
    requires if a.path == "" then b.path == "" else b.path != "" && |a.path| == |b.path|
    requires a.host != b.host || a.vip != b.vip
    requires forall r: RouteWithBackends | r.path in {a.path, b.path} && r.hostname in {a.host, b.host} :: keep(r)
    ensures !NoTiesAmong(TwoRoutes(a, b), keep)
  {
    TwoRoutesBuilt(a, b, "a-p");
    TwoRoutesBuilt(a, b, "b-p");
    assert BuildTied(TwoRoutes(a, b), "a-p", "b-p");
  }

  /** Two routes with paths of one length, on different hosts: the list depends on the enumeration. */
  lemma EqualLengthsUnordered(a: Route, b: Route) returns (o: seq<string>, p: seq<string>)
    requires a.path != "" && |a.path| == |b.path| && a.host != b.host
    ensures Enumeration(TwoRoutes(a, b), o) && Enumeration(TwoRoutes(a, b), p)
    ensures Collected(TwoRoutes(a, b), o) != Collected(TwoRoutes(a, b), p)
  {
    var w := TwoRoutes(a, b);
    TwoRoutesTie(a, b, All());
    OneListIff(w);
    o, p :| Enumeration(w, o) && Enumeration(w, p) && Collected(w, o) != Collected(w, p);
  }

  /** Two pathless routes of one host, with different addresses, that are mapped to one process: their
      order depends on the enumeration. */
  lemma OneProcessTwiceUnordered(a: Route, b: Route) returns (o: seq<string>, p: seq<string>)
    requires a.path == "" == b.path && a.host == b.host && a.vip != b.vip
    ensures Enumeration(TwoRoutes(a, b), o) && Enumeration(TwoRoutes(a, b), p)
    ensures var w := TwoRoutes(a, b);
      Filter(Collected(w, o), AtHost(a.host)) != Filter(Collected(w, p), AtHost(a.host))
  {
    var w := TwoRoutes(a, b);
    TwoRoutesTie(a, b, AtHost(a.host));
    PathlessRoutesIff(w, a.host);
    o, p :| Enumeration(w, o) && Enumeration(w, p)
      && Filter(Collected(w, o), AtHost(a.host)) != Filter(Collected(w, p), AtHost(a.host));
  }
}
