/** Sums, filters and permutations of sequences. */
module Sequences {
  import opened Models

  function Sum<T>(s: seq<T>, f: T -> int): int
  {
    if s == [] then 0 else Sum(s[..|s| - 1], f) + f(s[|s| - 1])
  }

  lemma {:induction false} SumConcat<T>(a: seq<T>, b: seq<T>, f: T -> int)
    ensures Sum(a + b, f) == Sum(a, f) + Sum(b, f)
  {
    if b == [] {
      assert a + b == a;
    } else {
      SumConcat(a, b[..|b| - 1], f);
      assert (a + b)[..|a + b| - 1] == a + b[..|b| - 1];
    }
  }

  function Without<T>(s: seq<T>, i: nat): seq<T>
    requires i < |s|
  {
    s[..i] + s[i + 1..]
  }

  lemma SumWithout<T>(s: seq<T>, i: nat, f: T -> int)
    requires i < |s|
    ensures Sum(s, f) == Sum(Without(s, i), f) + f(s[i])
  {
    var a, x, b := s[..i], s[i], s[i + 1..];
    assert s == (a + [x]) + b by { SplitAt(s, i); }
    SumConcat(a + [x], b, f);
    assert (a + [x])[..|a|] == a;
    SumConcat(a, b, f);
  }

  lemma MultisetFront<T>(s: seq<T>)
    requires s != []
    ensures multiset(s) == multiset(s[..|s| - 1]) + multiset{s[|s| - 1]}
  {
    assert s == s[..|s| - 1] + [s[|s| - 1]];
  }

  lemma MultisetWithout<T>(t: seq<T>, i: nat)
    requires i < |t|
    ensures multiset(t) == multiset(Without(t, i)) + multiset{t[i]}
  {
    assert t == t[..i] + [t[i]] + t[i + 1..];
  }

  lemma MultisetCancel<T>(a: multiset<T>, b: multiset<T>, x: T)
    requires a + multiset{x} == b + multiset{x}
    ensures a == b
  {
    assert a == a + multiset{x} - multiset{x};
    assert b == b + multiset{x} - multiset{x};
  }

  /** A permutation has a position for the last element, and the rest permutes the rest. */
  lemma LastPosition<T>(s: seq<T>, t: seq<T>) returns (i: nat)
    requires s != [] && multiset(s) == multiset(t)
    ensures i < |t| && t[i] == s[|s| - 1]
    ensures multiset(s[..|s| - 1]) == multiset(Without(t, i))
  {
    var x := s[|s| - 1];
    assert x in multiset(s);
    assert x in t;
    i :| 0 <= i < |t| && t[i] == x;
    MultisetFront(s);
    MultisetWithout(t, i);
    MultisetCancel(multiset(s[..|s| - 1]), multiset(Without(t, i)), x);
  }

  /** A sum does not depend on the order of the summands. */
  lemma {:induction false} SumPermutation<T>(s: seq<T>, t: seq<T>, f: T -> int)
    requires multiset(s) == multiset(t)
    ensures Sum(s, f) == Sum(t, f)
    decreases |s|
  {
    if s == [] {
      assert |multiset(t)| == 0;
    } else {
      var i := LastPosition(s, t);
      SumWithout(t, i, f);
      SumPermutation(s[..|s| - 1], Without(t, i), f);
    }
  }

  function Filter<T(!new)>(s: seq<T>, p: T -> bool): (r: seq<T>)
  {
    if s == [] then []
    else
      var front := Filter(s[..|s| - 1], p);
      if p(s[|s| - 1]) then front + [s[|s| - 1]] else front
  }

  lemma FilterSnoc<T(!new)>(s: seq<T>, x: T, p: T -> bool)
    ensures Filter(s + [x], p) == if p(x) then Filter(s, p) + [x] else Filter(s, p)
  {
    assert (s + [x])[..|s + [x]| - 1] == s;
  }

  lemma {:induction false} FilterMembers<T(!new)>(s: seq<T>, p: T -> bool)
    ensures forall x :: x in Filter(s, p) <==> x in s && p(x)
  {
    if s != [] {
      FilterMembers(s[..|s| - 1], p);
      assert s == s[..|s| - 1] + [s[|s| - 1]];
    }
  }

  lemma {:induction false} FilterConcat<T(!new)>(a: seq<T>, b: seq<T>, p: T -> bool)
    ensures Filter(a + b, p) == Filter(a, p) + Filter(b, p)
  {
    if b == [] {
      assert a + b == a;
    } else {
      FilterConcat(a, b[..|b| - 1], p);
      assert (a + b)[..|a + b| - 1] == a + b[..|b| - 1];
    }
  }

  /** Filtering commutes with permuting. */
  lemma {:induction false} FilterPermutation<T(!new)>(s: seq<T>, t: seq<T>, p: T -> bool)
    requires multiset(s) == multiset(t)
    ensures multiset(Filter(s, p)) == multiset(Filter(t, p))
    decreases |s|
  {
    if s == [] {
      assert |multiset(t)| == 0;
    } else {
      var i := LastPosition(s, t);
      FilterWithout(t, i, p);
      FilterPermutation(s[..|s| - 1], Without(t, i), p);
    }
  }

  lemma FilterWithout<T(!new)>(t: seq<T>, i: nat, p: T -> bool)
    requires i < |t|
    ensures multiset(Filter(t, p)) ==
            multiset(Filter(Without(t, i), p)) + if p(t[i]) then multiset{t[i]} else multiset{}
  {
    var a, x, b := t[..i], t[i], t[i + 1..];
    assert t == (a + [x]) + b by { SplitAt(t, i); }
    FilterSnoc(a, x, p);
    FilterConcat(a + [x], b, p);
    FilterConcat(a, b, p);
  }

  lemma SplitAt<T>(t: seq<T>, i: nat)
    requires i < |t|
    ensures t == (t[..i] + [t[i]]) + t[i + 1..]
  {
  }

  lemma {:induction false} FilterAll<T(!new)>(s: seq<T>, p: T -> bool)
    requires forall x | x in s :: p(x)
    ensures Filter(s, p) == s
  {
    if s != [] { FilterAll(s[..|s| - 1], p); assert s == s[..|s| - 1] + [s[|s| - 1]]; }
  }

  lemma {:induction false} FilterAgrees<T(!new)>(s: seq<T>, p: T -> bool, q: T -> bool)
    requires forall x | x in s :: p(x) == q(x)
    ensures Filter(s, p) == Filter(s, q)
  {
    if s != [] {
      assert forall x | x in s[..|s| - 1] :: x in s;
      FilterAgrees(s[..|s| - 1], p, q);
    }
  }

  lemma {:induction false} FilterTwice<T(!new)>(s: seq<T>, p: T -> bool, q: T -> bool, both: T -> bool)
    requires forall x | x in s :: both(x) == (p(x) && q(x))
    ensures Filter(Filter(s, p), q) == Filter(s, both)
  {
    if s != [] {
      var front, x := s[..|s| - 1], s[|s| - 1];
      assert forall y | y in front :: y in s;
      FilterTwice(front, p, q, both);
      FilterSnoc(Filter(front, p), x, q);
    }
  }

  lemma FilterFirst<T(!new)>(s: seq<T>, p: T -> bool)
    requires s != [] && p(s[0])
    ensures Filter(s, p) != [] && Filter(s, p)[0] == s[0]
  {
    assert s == [s[0]] + s[1..];
    FilterConcat([s[0]], s[1..], p);
    FilterAll([s[0]], p);
  }

  /** A stricter filter that misses an element of the laxer one keeps fewer. */
  lemma {:induction false} FilterShorter<T(!new)>(s: seq<T>, p: T -> bool, q: T -> bool, x: T)
    requires forall y | y in s :: p(y) ==> q(y)
    requires x in s && q(x) && !p(x)
    ensures |Filter(s, p)| < |Filter(s, q)|
  {
    var front := s[..|s| - 1];
    assert forall y | y in front :: y in s;
    if x in front { FilterShorter(front, p, q, x); } else { FilterNoLonger(front, p, q); }
  }

  lemma {:induction false} FilterNoLonger<T(!new)>(s: seq<T>, p: T -> bool, q: T -> bool)
    requires forall y | y in s :: p(y) ==> q(y)
    ensures |Filter(s, p)| <= |Filter(s, q)|
  {
    if s != [] {
      assert forall y | y in s[..|s| - 1] :: y in s;
      FilterNoLonger(s[..|s| - 1], p, q);
    }
  }

  lemma {:induction false} FilterNone<T(!new)>(s: seq<T>, p: T -> bool)
    requires forall x | x in s :: !p(x)
    ensures Filter(s, p) == []
  {
    if s != [] {
      assert forall x | x in s[..|s| - 1] :: x in s;
      FilterNone(s[..|s| - 1], p);
    }
  }

  predicate Distinct<T(==)>(s: seq<T>)
  {
    forall i, j | 0 <= i < j < |s| :: s[i] != s[j]
  }

  /** order lists every element of s once: what a Go range over the keys of a map visits. */
  ghost predicate Enumerates<T(!new)>(order: seq<T>, s: set<T>)
  {
    Distinct(order) && forall x :: x in order <==> x in s
  }

  lemma {:induction false} DistinctMultiset<T(!new)>(s: seq<T>)
    requires Distinct(s)
    ensures forall x :: multiset(s)[x] == if x in s then 1 else 0
  {
    if s != [] {
      var front := s[..|s| - 1];
      DistinctMultiset(front);
      assert s == front + [s[|s| - 1]];
    }
  }

  /** Two enumerations of one set are permutations of each other. */
  lemma EnumerationsPermute<T(!new)>(a: seq<T>, b: seq<T>, s: set<T>)
    requires Enumerates(a, s) && Enumerates(b, s)
    ensures multiset(a) == multiset(b)
  {
    DistinctMultiset(a);
    DistinctMultiset(b);
    forall x ensures multiset(a)[x] == multiset(b)[x] {}
  }

  lemma {:induction false} FilterDistinct<T(!new)>(s: seq<T>, p: T -> bool)
    requires Distinct(s)
    ensures Distinct(Filter(s, p))
  {
    if s != [] {
      var front, x := s[..|s| - 1], s[|s| - 1];
      FilterDistinct(front, p);
      FilterMembers(front, p);
      assert x !in front;
    }
  }

  lemma CountedOnce<T(!new)>(s: seq<T>)
    requires forall x :: multiset(s)[x] <= 1
    ensures Distinct(s)
  {
    forall i, j | 0 <= i < j < |s| ensures s[i] != s[j] {
      assert s == s[..i] + [s[i]] + s[i + 1..];
      assert multiset(s) == multiset(s[..i]) + multiset{s[i]} + multiset(s[i + 1..]);
      assert s[j] == s[i + 1..][j - i - 1] && s[j] in s[i + 1..];
      assert multiset(s)[s[j]] <= 1;
    }
  }

  /** A permutation of an enumeration is one. */
  lemma PermutedEnumerates<T(!new)>(a: seq<T>, b: seq<T>, s: set<T>)
    requires Enumerates(a, s) && multiset(a) == multiset(b)
    ensures Enumerates(b, s)
  {
    DistinctMultiset(a);
    CountedOnce(b);
    forall x ensures x in b <==> x in s { assert x in b <==> x in multiset(b); }
  }

  /** Every finite set can be enumerated. */
  lemma {:induction false} SomeEnumeration<T(!new)>(s: set<T>) returns (order: seq<T>)
    ensures Enumerates(order, s)
  {
    if s == {} {
      order := [];
    } else {
      var x :| x in s;
      var front := SomeEnumeration(s - {x});
      order := front + [x];
    }
  }

  /** What labels one permutation, rearranged, labels the other. */
  lemma {:induction false} Relabel<K, T>(s: seq<T>, t: seq<T>, keys: seq<K>, f: K -> Option<T>) returns (r: seq<K>)
    requires multiset(s) == multiset(t) && |keys| == |t|
    requires forall i | 0 <= i < |t| :: f(keys[i]) == Some(t[i])
    ensures multiset(r) == multiset(keys) && |r| == |s|
    ensures forall i | 0 <= i < |s| :: f(r[i]) == Some(s[i])
    decreases |s|
  {
    if s == [] {
      assert |multiset(t)| == 0;
      r := [];
    } else {
      var i := LastPosition(s, t);
      var front := Relabel(s[..|s| - 1], Without(t, i), Without(keys, i), f);
      r := front + [keys[i]];
      assert keys == keys[..i] + [keys[i]] + keys[i + 1..];
      assert s == s[..|s| - 1] + [s[|s| - 1]];
    }
  }

  /** The last position whose element satisfies p, or -1. */
  function LastIndex<T>(s: seq<T>, p: T -> bool): (i: int)
    ensures -1 <= i < |s|
    ensures i >= 0 ==> p(s[i])
    ensures forall j | i < j < |s| :: !p(s[j])
  {
    if s == [] then -1
    else if p(s[|s| - 1]) then |s| - 1
    else LastIndex(s[..|s| - 1], p)
  }

  lemma LastIndexSnoc<T>(s: seq<T>, x: T, p: T -> bool)
    ensures LastIndex(s + [x], p) == if p(x) then |s| else LastIndex(s, p)
  {
    assert (s + [x])[..|s + [x]| - 1] == s;
  }

  /** s without the later copies of an element. */
  function Dedup<T(==)>(s: seq<T>): seq<T>
  {
    if s == [] then []
    else
      var front, x := Dedup(s[..|s| - 1]), s[|s| - 1];
      if x in front then front else front + [x]
  }

  /** Dedup keeps every element once, and elements stay in the order of their first copies. */
  lemma {:induction false} DedupFacts<T(!new)>(s: seq<T>)
    ensures Distinct(Dedup(s))
    ensures forall x :: x in Dedup(s) <==> x in s
    ensures forall i, j | 0 <= i < j < |Dedup(s)| :: FirstIndex(s, Dedup(s)[i]) < FirstIndex(s, Dedup(s)[j])
  {
    if s != [] {
      var front, x := s[..|s| - 1], s[|s| - 1];
      DedupFacts(front);
      assert s == front + [x];
      forall y | y in front ensures FirstIndex(s, y) == FirstIndex(front, y) {
        FirstIndexIn(front, y, [x]);
      }
      if x !in front { FirstIndexLast(front, x); }
      forall y | y in front ensures FirstIndex(front, y) < |front| { FirstIndexIn(front, y, []); }
      assert forall i | 0 <= i < |Dedup(front)| :: Dedup(front)[i] in front;
    }
  }

  ghost function FirstIndex<T>(s: seq<T>, x: T): nat
  {
    if s == [] || s[0] == x then 0 else 1 + FirstIndex(s[1..], x)
  }

  lemma {:induction false} FirstIndexIn<T>(s: seq<T>, x: T, t: seq<T>)
    requires x in s
    ensures FirstIndex(s + t, x) == FirstIndex(s, x) < |s|
  {
    if s[0] != x {
      FirstIndexIn(s[1..], x, t);
      assert (s + t)[1..] == s[1..] + t;
    }
  }

  lemma {:induction false} FirstIndexLast<T>(s: seq<T>, x: T)
    requires x !in s
    ensures FirstIndex(s + [x], x) == |s|
  {
    if s != [] {
      FirstIndexLast(s[1..], x);
      assert (s + [x])[1..] == s[1..] + [x];
    }
  }
}
