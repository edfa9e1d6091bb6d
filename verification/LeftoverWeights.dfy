/** routes/routes.go: fixRouteWeights hands the percentage points lost to truncation back to the
    routes that share a host and path. */
module LeftoverWeights {
  import opened Models
  import opened Sequences

  type Routes = seq<RouteWithBackends>

  function RouteKey(r: RouteWithBackends): string
  {
    r.hostname + "/" + r.path
  }

  /** Keys of hosts without a slash identify the host and the path. */
  lemma {:induction false} KeySplit(a: string, b: string, c: string, d: string)
    requires '/' !in a && '/' !in c
    ensures a + "/" + b == c + "/" + d <==> a == c && b == d
  {
    var l, r := a + "/" + b, c + "/" + d;
    if a == "" && c == "" {
      assert l[1..] == b && r[1..] == d;
    } else if a == "" {
      assert l[0] == '/' && r[0] == c[0] && c[0] in c;
    } else if c == "" {
      assert r[0] == '/' && l[0] == a[0] && a[0] in a;
    } else {
      KeySplit(a[1..], b, c[1..], d);
      assert l == [a[0]] + (a[1..] + "/" + b) && r == [c[0]] + (c[1..] + "/" + d);
      assert l[1..] == a[1..] + "/" + b && r[1..] == c[1..] + "/" + d;
      assert a == [a[0]] + a[1..] && c == [c[0]] + c[1..];
    }
  }

  function HasKey(key: string): RouteWithBackends -> bool
  {
    r => RouteKey(r) == key
  }

  /** The routes of one host and path, in order. */
  function Group(routes: Routes, key: string): Routes
  {
    Filter(routes, HasKey(key))
  }

  function Weight(r: RouteWithBackends): int { r.routeWeight }

  function Total(routes: Routes): int
  {
    Sum(routes, Weight)
  }

  function GroupTotal(routes: Routes, key: string): int
  {
    Total(Group(routes, key))
  }

  /** How many earlier routes share the key of route i. */
  function Rank(routes: Routes, i: nat): nat
    requires i < |routes|
  {
    |Group(routes[..i], RouteKey(routes[i]))|
  }

  /** The points the group of a key is short of 100, as the int32 counter counts them down: a group
      that exceeds 100 leaves a counter that does not reach zero. */
  function Leftover(routes: Routes, key: string): nat
  {
    Wrap(100 - GroupTotal(routes, key))
  }

  function Heavier(r: RouteWithBackends): RouteWithBackends
  {
    r.(routeWeight := WrapSigned(r.routeWeight + 1))
  }

  function Fixed(routes: Routes, i: nat): RouteWithBackends
    requires i < |routes|
  {
    if Rank(routes, i) < Leftover(routes, RouteKey(routes[i])) then Heavier(routes[i]) else routes[i]
  }

  function FixedWeights(routes: Routes): (r: Routes)
    ensures |r| == |routes|
    ensures forall i | 0 <= i < |routes| :: r[i] == Fixed(routes, i)
  {
    seq(|routes|, i requires 0 <= i < |routes| => Fixed(routes, i))
  }

  // ----- the loops

  datatype RouteInfo = RouteInfo(sum: int32, indices: seq<nat>)

  /** The positions of the routes of one key, in increasing order. */
  function Indices(routes: Routes, key: string): (s: seq<nat>)
    ensures forall t | 0 <= t < |s| :: s[t] < |routes|
    ensures forall t, u | 0 <= t < u < |s| :: s[t] < s[u]
  {
    if routes == [] then []
    else
      var n := |routes| - 1;
      var front := Indices(routes[..n], key);
      if RouteKey(routes[n]) == key then front + [n] else front
  }

  lemma {:induction false} IndicesLength(routes: Routes, key: string)
    ensures |Indices(routes, key)| == |Group(routes, key)|
  {
    if routes != [] { IndicesLength(routes[..|routes| - 1], key); }
  }

  lemma RankInFront(routes: Routes, i: nat)
    requires i < |routes| - 1
    ensures Rank(routes, i) == Rank(routes[..|routes| - 1], i)
  {
    assert routes[..i] == routes[..|routes| - 1][..i];
  }

  lemma {:induction false} RankOfIndex(routes: Routes, key: string, t: nat)
    requires t < |Indices(routes, key)|
    ensures var i := Indices(routes, key)[t]; RouteKey(routes[i]) == key && Rank(routes, i) == t
  {
    var n := |routes| - 1;
    IndicesLength(routes[..n], key);
    if t < |Indices(routes[..n], key)| {
      RankOfIndex(routes[..n], key, t);
      RankInFront(routes, Indices(routes[..n], key)[t]);
    }
  }

  lemma {:induction false} IndexOfRank(routes: Routes, i: nat)
    requires i < |routes|
    ensures var s := Indices(routes, RouteKey(routes[i])); Rank(routes, i) < |s| && s[Rank(routes, i)] == i
  {
    var n, key := |routes| - 1, RouteKey(routes[i]);
    IndicesLength(routes[..n], key);
    if i < n {
      RankInFront(routes, i);
      IndexOfRank(routes[..n], i);
    }
  }

  /** The positions of a key are listed by rank, and every position with the key is listed. */
  lemma IndicesFacts(routes: Routes, key: string)
    ensures |Indices(routes, key)| == |Group(routes, key)|
    ensures forall t | 0 <= t < |Indices(routes, key)| ::
      var i := Indices(routes, key)[t]; RouteKey(routes[i]) == key && Rank(routes, i) == t
    ensures forall i | 0 <= i < |routes| && RouteKey(routes[i]) == key ::
      Rank(routes, i) < |Indices(routes, key)| && Indices(routes, key)[Rank(routes, i)] == i
  {
    IndicesLength(routes, key);
    forall t | 0 <= t < |Indices(routes, key)|
      ensures RouteKey(routes[Indices(routes, key)[t]]) == key && Rank(routes, Indices(routes, key)[t]) == t
    {
      RankOfIndex(routes, key, t);
    }
    forall i | 0 <= i < |routes| && RouteKey(routes[i]) == key
      ensures Rank(routes, i) < |Indices(routes, key)| && Indices(routes, key)[Rank(routes, i)] == i
    {
      IndexOfRank(routes, i);
    }
  }

  function Seen(routes: Routes, key: string): RouteInfo
  {
    RouteInfo(WrapSigned(GroupTotal(routes, key)), Indices(routes, key))
  }

  predicate IsKey(routes: Routes, key: string)
  {
    exists i :: 0 <= i < |routes| && RouteKey(routes[i]) == key
  }

  lemma {:induction false} AbsentKey(routes: Routes, key: string)
    requires !IsKey(routes, key)
    ensures Group(routes, key) == [] && Indices(routes, key) == []
  {
    if routes != [] {
      assert RouteKey(routes[|routes| - 1]) != key;
      var front := routes[..|routes| - 1];
      forall i | 0 <= i < |front| ensures RouteKey(front[i]) != key {
        assert RouteKey(routes[i]) != key;
      }
      AbsentKey(front, key);
    }
  }

  method SumRoutes(routes: array<RouteWithBackends>) returns (sumPerRoute: map<string, RouteInfo>)
    ensures forall key :: key in sumPerRoute <==> IsKey(routes[..], key)
    ensures forall key | key in sumPerRoute :: sumPerRoute[key] == Seen(routes[..], key)
  {
    sumPerRoute := map[];
    for i := 0 to routes.Length
      invariant forall key :: key in sumPerRoute <==> IsKey(routes[..i], key)
      invariant forall key | key in sumPerRoute :: sumPerRoute[key] == Seen(routes[..i], key)
    {
      var key := RouteKey(routes[i]);
      var info := if key in sumPerRoute then sumPerRoute[key] else RouteInfo(0, []);
      ghost var before := routes[..i];
      if key !in sumPerRoute { AbsentKey(before, key); }
      assert info == Seen(before, key);
      info := RouteInfo(WrapSigned(info.sum + routes[i].routeWeight), info.indices + [i]);
      sumPerRoute := sumPerRoute[key := info];

      assert routes[..i + 1] == before + [routes[i]];
      forall k ensures Seen(before + [routes[i]], k) ==
                       if k == key then info else Seen(before, k)
      {
        SeenNext(before, routes[i], k);
      }
      forall k ensures IsKey(before + [routes[i]], k) <==> k == key || IsKey(before, k) {
        IsKeyNext(before, routes[i], k);
      }
    }
    assert routes[..routes.Length] == routes[..];
  }

  lemma IsKeyNext(routes: Routes, r: RouteWithBackends, k: string)
    ensures IsKey(routes + [r], k) <==> k == RouteKey(r) || IsKey(routes, k)
  {
    if k == RouteKey(r) { assert RouteKey((routes + [r])[|routes|]) == k; }
    if IsKey(routes, k) {
      var i :| 0 <= i < |routes| && RouteKey(routes[i]) == k;
      assert RouteKey((routes + [r])[i]) == k;
    }
  }

  lemma SeenNext(routes: Routes, r: RouteWithBackends, k: string)
    ensures Seen(routes + [r], k) ==
            if k == RouteKey(r)
            then RouteInfo(WrapSigned(Seen(routes, k).sum + r.routeWeight), Seen(routes, k).indices + [|routes|])
            else Seen(routes, k)
  {
    var all := routes + [r];
    assert all[..|all| - 1] == routes;
    FilterSnoc(routes, r, HasKey(k));
    if k == RouteKey(r) {
      var g := Group(routes, k);
      assert (g + [r])[..|g + [r]| - 1] == g;
      WrapSignedAdd(Total(g), r.routeWeight);
    }
  }

  lemma WrapSignedAdd(x: int, y: int)
    ensures WrapSigned(WrapSigned(x) + y) == WrapSigned(x + y)
  {
  }

  /** Counting a signed leftover down reaches zero after exactly Leftover steps. */
  lemma CountDown(total: int, j: nat)
    requires j <= Wrap(100 - total)
    ensures WrapSigned(100 - total - j) == 0 <==> j == Wrap(100 - total)
  {
    var l := Wrap(100 - total);
    assert (l - (100 - total)) % MOD32 == 0;
  }

  method FixRouteWeights(routes: array<RouteWithBackends>)
    modifies routes
    ensures routes[..] == FixedWeights(old(routes[..]))
  {
    ghost var was := routes[..];
    var sumPerRoute := SumRoutes(routes);
    var left := sumPerRoute.Keys;
    forall p | 0 <= p < |was| ensures RouteKey(was[p]) in left { assert IsKey(was, RouteKey(was[p])); }
    while left != {}
      invariant left <= sumPerRoute.Keys
      invariant routes[..] == Remaining(was, left)
      decreases left
    {
      var key :| key in left;
      HandOut(routes, sumPerRoute[key], was, key, left);
      left := left - {key};
    }
  }

  /** The routes while some keys are still to be handed out. */
  ghost function Remaining(was: Routes, left: set<string>): (r: Routes)
    ensures |r| == |was|
    ensures forall p | 0 <= p < |was| :: r[p] == if RouteKey(was[p]) in left then was[p] else Fixed(was, p)
  {
    seq(|was|, p requires 0 <= p < |was| => if RouteKey(was[p]) in left then was[p] else Fixed(was, p))
  }

  method AddPoint(routes: array<RouteWithBackends>, index: nat)
    requires index < routes.Length
    modifies routes
    ensures routes[..] == old(routes[..])[index := Heavier(old(routes[index]))]
  {
    routes[index] := routes[index].(routeWeight := WrapSigned(routes[index].routeWeight + 1));
  }

  function Decrement(leftover: int32): int32
  {
    WrapSigned(leftover as int - 1)
  }

  datatype Turn = Turn(leftover: int32, now: Routes)

  /** The counter and the routes after j turns of the loop over the positions of one key; once the
      counter is zero nothing changes any more. */
  function Turns(info: RouteInfo, start: Routes, j: nat): (r: Turn)
    requires j <= |info.indices| && forall t | 0 <= t < |info.indices| :: info.indices[t] < |start|
    ensures |r.now| == |start|
  {
    if j == 0 then Turn(WrapSigned(100 - info.sum), start)
    else
      var before, i := Turns(info, start, j - 1), info.indices[j - 1];
      if before.leftover == 0 then before
      else Turn(Decrement(before.leftover), before.now[i := Heavier(before.now[i])])
  }

  lemma {:induction false} TurnsStop(info: RouteInfo, start: Routes, j: nat, n: nat)
    requires j <= n <= |info.indices| && forall t | 0 <= t < |info.indices| :: info.indices[t] < |start|
    requires Turns(info, start, j).leftover == 0
    ensures Turns(info, start, n) == Turns(info, start, j)
  {
    if j < n { TurnsStop(info, start, j, n - 1); }
  }

  /** How many of j turns have a point to give. */
  function Given(info: RouteInfo, j: nat): (n: nat)
    ensures n <= j
  {
    if j < Wrap(100 - info.sum) then j else Wrap(100 - info.sum)
  }

  lemma {:induction false} TurnsCount(info: RouteInfo, start: Routes, j: nat)
    requires j <= |info.indices| && forall t | 0 <= t < |info.indices| :: info.indices[t] < |start|
    ensures Turns(info, start, j).leftover == WrapSigned(100 - info.sum - Given(info, j))
  {
    if j > 0 {
      TurnsCount(info, start, j - 1);
      CountDown(info.sum, Given(info, j - 1));
      WrapSignedAdd(100 - info.sum - Given(info, j - 1), -1);
    }
  }

  /** One point more for the routes at the taken positions, one after the other. */
  function WithPoints(start: Routes, taken: seq<nat>): (r: Routes)
    requires forall t | 0 <= t < |taken| :: taken[t] < |start|
    ensures |r| == |start|
  {
    if taken == [] then start
    else
      var before, i := WithPoints(start, taken[..|taken| - 1]), taken[|taken| - 1];
      before[i := Heavier(before[i])]
  }

  lemma {:induction false} WithPointsAt(start: Routes, taken: seq<nat>, p: nat)
    requires p < |start| && forall t | 0 <= t < |taken| :: taken[t] < |start|
    requires Distinct(taken)
    ensures WithPoints(start, taken)[p] == if p in taken then Heavier(start[p]) else start[p]
  {
    if taken != [] {
      var front, i := taken[..|taken| - 1], taken[|taken| - 1];
      WithPointsAt(start, front, p);
      assert taken == front + [i];
      assert i !in front;
    }
  }

  lemma {:induction false} TurnsGive(info: RouteInfo, start: Routes, j: nat)
    requires j <= |info.indices| && forall t | 0 <= t < |info.indices| :: info.indices[t] < |start|
    ensures Turns(info, start, j).now == WithPoints(start, info.indices[..Given(info, j)])
  {
    if j > 0 {
      TurnsGive(info, start, j - 1);
      TurnsCount(info, start, j - 1);
      CountDown(info.sum, Given(info, j - 1));
      assert info.indices[..j][..j - 1] == info.indices[..j - 1];
    }
  }

  lemma TakenByRank(was: Routes, p: nat, n: nat)
    requires p < |was| && n <= |Indices(was, RouteKey(was[p]))|
    ensures p in Indices(was, RouteKey(was[p]))[..n] <==> Rank(was, p) < n
  {
    var s := Indices(was, RouteKey(was[p]));
    IndexOfRank(was, p);
    if Rank(was, p) < n { assert s[..n][Rank(was, p)] == p; }
    if p in s[..n] {
      var t :| 0 <= t < n && s[..n][t] == p;
      RankOfIndex(was, RouteKey(was[p]), t);
    }
  }

  lemma OtherKeysNotTaken(was: Routes, key: string, n: nat, p: nat)
    requires p < |was| && RouteKey(was[p]) != key && n <= |Indices(was, key)|
    ensures p !in Indices(was, key)[..n]
  {
    forall t | 0 <= t < n ensures Indices(was, key)[..n][t] != p { RankOfIndex(was, key, t); }
  }

  lemma PointsFixAt(was: Routes, key: string, left: set<string>, start: Routes, n: nat, p: nat)
    requires key in left && start == Remaining(was, left) && p < |was|
    requires n == if Leftover(was, key) < |Indices(was, key)| then Leftover(was, key) else |Indices(was, key)|
    ensures WithPoints(start, Indices(was, key)[..n])[p] == Remaining(was, left - {key})[p]
  {
    WithPointsAt(start, Indices(was, key)[..n], p);
    if RouteKey(was[p]) == key {
      IndexOfRank(was, p);
      TakenByRank(was, p, n);
    } else {
      OtherKeysNotTaken(was, key, n, p);
    }
  }

  lemma PointsFix(was: Routes, key: string, left: set<string>, start: Routes, n: nat)
    requires key in left && start == Remaining(was, left)
    requires n == if Leftover(was, key) < |Indices(was, key)| then Leftover(was, key) else |Indices(was, key)|
    ensures WithPoints(start, Indices(was, key)[..n]) == Remaining(was, left - {key})
  {
    var given, fixed := WithPoints(start, Indices(was, key)[..n]), Remaining(was, left - {key});
    forall p | 0 <= p < |was| ensures given[p] == fixed[p] { PointsFixAt(was, key, left, start, n, p); }
  }

  lemma GivenAll(was: Routes, key: string)
    ensures var n := |Indices(was, key)|;
      Given(Seen(was, key), n) == if Leftover(was, key) < n then Leftover(was, key) else n
  {
    LeftoverStart(GroupTotal(was, key));
  }

  /** All turns together give their points to the routes of the key. */
  lemma TurnsFix(was: Routes, key: string, left: set<string>, info: RouteInfo, start: Routes)
    requires key in left && info == Seen(was, key) && start == Remaining(was, left)
    ensures Turns(info, start, |info.indices|).now == Remaining(was, left - {key})
  {
    GivenAll(was, key);
    TurnsGive(info, start, |info.indices|);
    PointsFix(was, key, left, start, Given(info, |info.indices|));
  }

  /** The loop over the positions of one key. */
  method TakeTurns(routes: array<RouteWithBackends>, info: RouteInfo)
    requires forall t | 0 <= t < |info.indices| :: info.indices[t] < routes.Length
    modifies routes
    ensures routes[..] == Turns(info, old(routes[..]), |info.indices|).now
  {
    ghost var start := routes[..];
    var leftover := WrapSigned(100 - info.sum);
    for j := 0 to |info.indices|
      invariant Turn(leftover, routes[..]) == Turns(info, start, j)
    {
      if leftover == 0 {
        TurnsStop(info, start, j, |info.indices|);
        break;
      }
      AddPoint(routes, info.indices[j]);
      leftover := Decrement(leftover);
    }
  }

  /** Hands out the points of one key. */
  method HandOut(routes: array<RouteWithBackends>, info: RouteInfo,
                 ghost was: Routes, ghost key: string, ghost left: set<string>)
    requires key in left && info == Seen(was, key) && routes[..] == Remaining(was, left)
    modifies routes
    ensures routes[..] == Remaining(was, left - {key})
  {
    TurnsFix(was, key, left, info, routes[..]);
    TakeTurns(routes, info);
  }

  lemma LeftoverStart(total: int)
    ensures Wrap(100 - WrapSigned(total)) == Wrap(100 - total)
  {
  }

  // ----- what a group is worth afterwards

  /** The first n routes of a group gain one point. */
  function Bumped(group: Routes, n: nat): (r: Routes)
    ensures |r| == |group|
  {
    seq(|group|, i requires 0 <= i < |group| => if i < n then Heavier(group[i]) else group[i])
  }

  /** Within each group exactly the first members gain one point, as many as the group is short of
      100, and nothing else about any route changes. */
  lemma GroupAfterFix(routes: Routes, key: string)
    ensures Group(FixedWeights(routes), key) == Bumped(Group(routes, key), Leftover(routes, key))
  {
    PrefixAfterFix(routes, key, |routes|);
    assert FixedWeights(routes)[..|routes|] == FixedWeights(routes) && routes[..|routes|] == routes;
  }

  lemma BumpedSnoc(group: Routes, r: RouteWithBackends, n: nat)
    ensures Bumped(group + [r], n) == Bumped(group, n) + [if |group| < n then Heavier(r) else r]
  {
  }

  lemma {:induction false} PrefixAfterFix(routes: Routes, key: string, m: nat)
    requires m <= |routes|
    ensures Group(FixedWeights(routes)[..m], key) == Bumped(Group(routes[..m], key), Leftover(routes, key))
    decreases m
  {
    if m > 0 {
      var i := m - 1;
      PrefixAfterFix(routes, key, i);
      var fixed := FixedWeights(routes);
      assert fixed[..m] == fixed[..i] + [fixed[i]] && routes[..m] == routes[..i] + [routes[i]];
      FilterSnoc(fixed[..i], fixed[i], HasKey(key));
      FilterSnoc(routes[..i], routes[i], HasKey(key));
      assert fixed[i] == Fixed(routes, i) && RouteKey(fixed[i]) == RouteKey(routes[i]);
      BumpedSnoc(Group(routes[..i], key), routes[i], Leftover(routes, key));
    }
  }

  lemma {:induction false} BumpedTotal(group: Routes, n: nat)
    requires forall r | r in group :: r.routeWeight < 0x7fff_ffff
    ensures Total(Bumped(group, n)) == Total(group) + if n < |group| then n else |group|
  {
    if group != [] {
      var m := |group| - 1;
      BumpedTotal(group[..m], n);
      assert Bumped(group, n)[..m] == Bumped(group[..m], n);
      assert group[m] in group;
    }
  }

  /** The total of a group becomes the smaller of 100 and its old total plus its size; a total above
      100 only grows, by the size of the group. */
  lemma GroupTotalAfterFix(routes: Routes, key: string)
    requires forall r | r in Group(routes, key) :: r.routeWeight < 0x7fff_ffff
    requires 100 - MOD32 < GroupTotal(routes, key)
    requires 100 < GroupTotal(routes, key) ==> GroupTotal(routes, key) + |Group(routes, key)| <= 100 + MOD32
    ensures var s, n := GroupTotal(routes, key), |Group(routes, key)|;
      GroupTotal(FixedWeights(routes), key) == if s <= 100 && 100 <= s + n then 100 else s + n
  {
    GroupAfterFix(routes, key);
    BumpedTotal(Group(routes, key), Leftover(routes, key));
  }

  /** A group ends up at exactly 100 if and only if truncation cost it at most a point a member. */
  lemma GroupReachesHundredIff(routes: Routes, key: string)
    requires forall r | r in Group(routes, key) :: r.routeWeight < 0x7fff_ffff
    requires 100 - MOD32 < GroupTotal(routes, key)
    requires 100 < GroupTotal(routes, key) ==> GroupTotal(routes, key) + |Group(routes, key)| <= 100 + MOD32
    ensures GroupTotal(FixedWeights(routes), key) == 100
       <==> GroupTotal(routes, key) <= 100 <= GroupTotal(routes, key) + |Group(routes, key)|
  {
    GroupTotalAfterFix(routes, key);
  }

  /** Two routes of one host and path that have 100 points each end up with 101. */
  lemma SharedAddressExceeds(r: RouteWithBackends, s: RouteWithBackends)
    requires RouteKey(r) == RouteKey(s) && r.routeWeight == 100 == s.routeWeight
    ensures FixedWeights([r] + [s]) == [r.(routeWeight := 101), s.(routeWeight := 101)]
  {
    var key, both := RouteKey(r), [r] + [s];
    SumConcat([r], [s], Weight);
    assert Sum([r], Weight) == Sum([], Weight) + 100 == 100 && Sum([s], Weight) == Sum([], Weight) + 100;
    FilterAll(both, HasKey(key));
    assert Leftover(both, key) == Wrap(-100);
    FilterAll(both[..1], HasKey(key));
    assert Rank(both, 0) == 0 && Rank(both, 1) == 1;
  }

  function AtKey(key: string): RouteWithBackends -> bool
  {
    (r: RouteWithBackends) => r.hostname + "/" + r.path == key
  }

  function WeightOf(): RouteWithBackends -> int { (r: RouteWithBackends) => r.routeWeight }

  lemma {:induction false} SumAgrees(s: Routes, f: RouteWithBackends -> int, g: RouteWithBackends -> int)
    requires forall r :: f(r) == g(r)
    ensures Sum(s, f) == Sum(s, g)
  {
    if s != [] { SumAgrees(s[..|s| - 1], f, g); }
  }

  /** Route by route: what a group of one host and path is short of 100 goes to its earliest routes, one
      point each, and nothing else of any route changes. */
  lemma PointsByPosition(routes: Routes, i: nat)
    requires i < |routes| && routes[i].routeWeight < 0x7fff_ffff
    requires 0 <= Sum(Filter(routes, AtKey(routes[i].hostname + "/" + routes[i].path)), WeightOf()) <= 100
    ensures var key := routes[i].hostname + "/" + routes[i].path;
      var short := 100 - Sum(Filter(routes, AtKey(key)), WeightOf());
      var earlier := |Filter(routes[..i], AtKey(key))|;
      FixedWeights(routes)[i] ==
        routes[i].(routeWeight := if earlier < short then routes[i].routeWeight + 1 else routes[i].routeWeight)
  {
    var key := RouteKey(routes[i]);
    AtKeyIsGroup(routes, key);
    AtKeyIsGroup(routes[..i], key);
    LeftoverIs(routes, key);
    HeavierIs(routes[i]);
    assert FixedWeights(routes)[i] == Fixed(routes, i);
  }

  lemma AtKeyIsGroup(routes: Routes, key: string)
    ensures Filter(routes, AtKey(key)) == Group(routes, key)
    ensures Sum(Filter(routes, AtKey(key)), WeightOf()) == GroupTotal(routes, key)
  {
    FilterAgrees(routes, HasKey(key), AtKey(key));
    SumAgrees(Group(routes, key), Weight, WeightOf());
  }

  lemma LeftoverIs(routes: Routes, key: string)
    requires 0 <= GroupTotal(routes, key) <= 100
    ensures Leftover(routes, key) == 100 - GroupTotal(routes, key)
  {
  }

  lemma HeavierIs(r: RouteWithBackends)
    requires r.routeWeight < 0x7fff_ffff
    ensures Heavier(r) == r.(routeWeight := r.routeWeight + 1)
  {
  }
}
