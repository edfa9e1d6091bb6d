/** What Go's sort.SliceStable leaves in a slice, and Go's order on strings. */
module Sorting {
  import opened Sequences

  /** Go's < on strings: bytewise lexicographic. */
  predicate StringLess(a: string, b: string)
  {
    b != [] && (a == [] || a[0] < b[0] || (a[0] == b[0] && StringLess(a[1..], b[1..])))
  }

  /** b goes on where a ends, or the first bytes that differ, at i, are in order. */
  predicate LessAt(a: string, b: string, i: nat)
  {
    && i <= |a| && i < |b| && a[..i] == b[..i]
    && (i == |a| || a[i] < b[i])
  }

  /** A proper prefix is less; otherwise the byte at the first difference decides. */
  lemma {:induction false} StringLessIff(a: string, b: string)
    ensures StringLess(a, b) <==> exists i: nat :: LessAt(a, b, i)
  {
    if b == [] || a == [] || a[0] != b[0] {
      if StringLess(a, b) { assert LessAt(a, b, 0); }
      if i: nat :| LessAt(a, b, i) { assert i > 0 ==> a[..i][0] == b[..i][0]; }
    } else {
      StringLessIff(a[1..], b[1..]);
      if i: nat :| LessAt(a[1..], b[1..], i) {
        assert a[..i + 1] == [a[0]] + a[1..][..i] && b[..i + 1] == [b[0]] + b[1..][..i];
        assert LessAt(a, b, i + 1);
      }
      if i: nat :| LessAt(a, b, i) {
        assert a[1..][..i - 1] == a[..i][1..] && b[1..][..i - 1] == b[..i][1..];
        assert LessAt(a[1..], b[1..], i - 1);
      }
    }
  }

  lemma {:induction false} StringLessTransitive(a: string, b: string, c: string)
    requires StringLess(a, b) && StringLess(b, c)
    ensures StringLess(a, c)
  {
    if a != [] && a[0] == b[0] == c[0] { StringLessTransitive(a[1..], b[1..], c[1..]); }
  }

  /** The order is total: only equal strings are incomparable. */
  lemma {:induction false} StringLessTotal(a: string, b: string)
    ensures a == b <==> !StringLess(a, b) && !StringLess(b, a)
  {
    if a != [] && b != [] && a[0] == b[0] {
      StringLessTotal(a[1..], b[1..]);
      assert a == [a[0]] + a[1..] && b == [b[0]] + b[1..];
    }
  }

  lemma {:induction false} StringLessIrreflexive(a: string)
    ensures !StringLess(a, a)
  {
    StringLessTotal(a, a);
  }

  lemma NotLessTransitive(a: string, b: string, c: string)
    requires !StringLess(a, b) && !StringLess(b, c)
    ensures !StringLess(a, c)
  {
    StringLessTotal(a, b);
    StringLessTotal(b, c);
    if StringLess(a, c) {
      if a != b {
        StringLessTransitive(b, a, c);
      }
    }
  }

  /** less comes from an order on some key: not being less is transitive. */
  ghost predicate WeakOrder<T(!new)>(less: (T, T) -> bool)
  {
    && (forall x :: !less(x, x))
    && (forall x, y, z :: less(x, y) && less(y, z) ==> less(x, z))
    && (forall x, y, z :: !less(x, y) && !less(y, z) ==> !less(x, z))
  }

  predicate Sorted<T>(s: seq<T>, less: (T, T) -> bool)
  {
    forall i, j | 0 <= i < j < |s| :: !less(s[j], s[i])
  }

  predicate Same<T>(less: (T, T) -> bool, x: T, y: T)
  {
    !less(x, y) && !less(y, x)
  }

  function TiedWith<T>(x: T, less: (T, T) -> bool): T -> bool
  {
    y => Same(less, x, y)
  }

  /** The elements of s that the order does not tell from x, in their order in s. */
  ghost function Ties<T(!new)>(s: seq<T>, x: T, less: (T, T) -> bool): seq<T>
  {
    Filter(s, TiedWith(x, less))
  }

  /** The documented contract of SliceStable: a sorted permutation that keeps the order of ties. */
  ghost predicate StablySorts<T(!new)>(s: seq<T>, r: seq<T>, less: (T, T) -> bool)
  {
    && multiset(r) == multiset(s)
    && Sorted(r, less)
    && forall x :: Ties(r, x, less) == Ties(s, x, less)
  }

  function Insert<T>(s: seq<T>, x: T, less: (T, T) -> bool): (r: seq<T>)
    ensures |r| == |s| + 1
  {
    if s == [] || !less(x, s[|s| - 1]) then s + [x]
    else Insert(s[..|s| - 1], x, less) + [s[|s| - 1]]
  }

  function StableSort<T>(s: seq<T>, less: (T, T) -> bool): (r: seq<T>)
    ensures |r| == |s|
  {
    if s == [] then [] else Insert(StableSort(s[..|s| - 1], less), s[|s| - 1], less)
  }

  lemma {:induction false} InsertBefore<T>(s: seq<T>, x: T, j: nat, less: (T, T) -> bool)
    requires j < |s| && less(x, s[j]) && Insert(s, x, less) == Insert(s[..j + 1], x, less) + s[j + 1..]
    ensures Insert(s, x, less) == Insert(s[..j], x, less) + s[j..]
  {
    var upto, rest := s[..j + 1], s[j + 1..];
    assert upto[..j] == s[..j] && upto[|upto| - 1] == s[j];
    assert Insert(upto, x, less) == Insert(s[..j], x, less) + [s[j]];
    assert s[j..] == [s[j]] + rest;
  }

  /** s with x moved in at j. */
  function Opened<T>(s: seq<T>, x: T, j: nat): seq<T>
    requires j <= |s|
  {
    s[..j] + [x] + s[j..]
  }

  function Swapped<T>(t: seq<T>, j: nat): seq<T>
    requires 0 < j < |t|
  {
    t[j := t[j - 1]][j - 1 := t[j]]
  }

  lemma SwapMovesDown<T>(s: seq<T>, x: T, j: nat, tail: seq<T>)
    requires 0 < j <= |s|
    ensures Swapped(Opened(s, x, j) + tail, j) == Opened(s, x, j - 1) + tail
  {
  }

  method Swap<T>(a: array<T>, j: nat)
    requires 0 < j < a.Length
    modifies a
    ensures a[..] == Swapped(old(a[..]), j)
  {
    a[j], a[j - 1] := a[j - 1], a[j];
  }

  lemma {:induction false} InsertLast<T>(s: seq<T>, x: T, less: (T, T) -> bool)
    ensures Insert(s, x, less) == Insert(s[..|s|], x, less) + s[|s|..]
  {
    assert s[..|s|] == s;
  }

  lemma {:induction false} InsertHere<T>(s: seq<T>, x: T, j: nat, less: (T, T) -> bool)
    requires j <= |s| && (j == 0 || !less(x, s[j - 1]))
    requires Insert(s, x, less) == Insert(s[..j], x, less) + s[j..]
    ensures Insert(s, x, less) == Opened(s, x, j)
  {
    assert Insert(s[..j], x, less) == s[..j] + [x];
  }

  /** Moves element i of the array back among the elements before it, which are sorted. */
  method InsertInPlace<T>(a: array<T>, i: nat, less: (T, T) -> bool)
    requires i < a.Length
    modifies a
    ensures a[..] == Insert(old(a[..i]), old(a[i]), less) + old(a[i + 1..])
  {
    ghost var s, x, tail := a[..i], a[i], a[i + 1..];
    var j := i;
    InsertLast(s, x, less);
    assert a[..] == Opened(s, x, i) + tail;
    while j > 0 && less(a[j], a[j - 1])
      invariant 0 <= j <= i && a[..] == Opened(s, x, j) + tail
      invariant Insert(s, x, less) == Insert(s[..j], x, less) + s[j..]
    {
      assert a[j] == a[..][j] == x && a[j - 1] == a[..][j - 1] == s[j - 1];
      InsertBefore(s, x, j - 1, less);
      SwapMovesDown(s, x, j, tail);
      Swap(a, j);
      j := j - 1;
    }
    assert a[j] == a[..][j] == x && (j > 0 ==> a[j - 1] == a[..][j - 1] == s[j - 1]);
    InsertHere(s, x, j, less);
  }

  lemma {:induction false} StableSortNext<T>(t: seq<T>, v: seq<T>, i: nat, less: (T, T) -> bool)
    requires i < |t| && v == StableSort(t[..i], less) + t[i..]
    ensures StableSort(t[..i + 1], less) + t[i + 1..] == Insert(v[..i], v[i], less) + v[i + 1..]
  {
    assert t[..i + 1][..i] == t[..i] == t[..i + 1][..|t[..i + 1]| - 1];
    assert v[..i] == StableSort(t[..i], less);
    assert v[i + 1..] == t[i + 1..];
  }

  /** sort.SliceStable on the first n elements of an array. */
  method SliceStable<T>(a: array<T>, n: nat, less: (T, T) -> bool)
    requires n <= a.Length
    modifies a
    ensures a[..n] == StableSort(old(a[..n]), less)
  {
    ghost var t := a[..];
    assert t[..0] == [] && t[0..] == t;
    for i := 0 to n
      invariant a[..] == StableSort(t[..i], less) + t[i..]
    {
      ghost var v := a[..];
      StableSortNext(t, v, i, less);
      assert a[..i] == v[..i] && a[i + 1..] == v[i + 1..];
      InsertInPlace(a, i, less);
    }
    assert a[..n] == a[..][..n] && old(a[..n]) == t[..n];
  }

  lemma {:induction false} InsertPermutes<T>(s: seq<T>, x: T, less: (T, T) -> bool)
    ensures multiset(Insert(s, x, less)) == multiset(s) + multiset{x}
  {
    if s != [] && less(x, s[|s| - 1]) {
      InsertPermutes(s[..|s| - 1], x, less);
      assert s == s[..|s| - 1] + [s[|s| - 1]];
    }
  }

  lemma {:induction false} InsertSorted<T(!new)>(s: seq<T>, x: T, less: (T, T) -> bool)
    requires WeakOrder(less) && Sorted(s, less)
    ensures Sorted(Insert(s, x, less), less)
  {
    if s != [] && less(x, s[|s| - 1]) {
      var front, last := s[..|s| - 1], s[|s| - 1];
      InsertSorted(front, x, less);
      InsertPermutes(front, x, less);
      var r := Insert(front, x, less);
      forall i | 0 <= i < |r| ensures !less(last, r[i]) {
        assert r[i] in multiset(r);
        if r[i] != x { assert r[i] in multiset(front); }
      }
    }
  }

  lemma {:induction false} InsertTies<T(!new)>(s: seq<T>, x: T, y: T, less: (T, T) -> bool)
    requires WeakOrder(less)
    ensures Ties(Insert(s, x, less), y, less) == Ties(s + [x], y, less)
  {
    if s != [] && less(x, s[|s| - 1]) {
      var front, last, p := s[..|s| - 1], s[|s| - 1], TiedWith(y, less);
      InsertTies(front, x, y, less);
      FilterSnoc(Insert(front, x, less), last, p);
      FilterSnoc(front, x, p);
      FilterSnoc(s, x, p);
      assert !(p(x) && p(last));
    }
  }

  /** StableSort meets the contract. */
  lemma {:induction false} StableSortSorts<T(!new)>(s: seq<T>, less: (T, T) -> bool)
    requires WeakOrder(less)
    ensures StablySorts(s, StableSort(s, less), less)
  {
    if s != [] {
      var front, last := s[..|s| - 1], s[|s| - 1];
      StableSortSorts(front, less);
      var r := StableSort(front, less);
      InsertPermutes(r, last, less);
      InsertSorted(r, last, less);
      assert s == front + [last];
      forall y ensures Ties(StableSort(s, less), y, less) == Ties(s, y, less) {
        InsertTies(r, last, y, less);
        FilterSnoc(r, last, TiedWith(y, less));
        FilterSnoc(front, last, TiedWith(y, less));
        assert Ties(r, y, less) == Ties(front, y, less);
      }
    }
  }

  /** Both last elements are maximal, hence ties. */
  lemma LastsTie<T>(a: seq<T>, b: seq<T>, less: (T, T) -> bool)
    requires Sorted(a, less) && Sorted(b, less)
    requires multiset(a) == multiset(b) && a != [] && b != []
    ensures a[|a| - 1] == b[|b| - 1] || Same(less, a[|a| - 1], b[|b| - 1])
  {
    var x, y := a[|a| - 1], b[|b| - 1];
    assert x in multiset(b) && y in multiset(a);
    var i :| 0 <= i < |b| && b[i] == x;
    var j :| 0 <= j < |a| && a[j] == y;
  }

  lemma TiesEnd<T(!new)>(a: seq<T>, x: T, less: (T, T) -> bool)
    requires a != [] && Same(less, x, a[|a| - 1])
    ensures Ties(a, x, less) != [] && Ties(a, x, less)[|Ties(a, x, less)| - 1] == a[|a| - 1]
  {
    assert a == a[..|a| - 1] + [a[|a| - 1]];
    FilterSnoc(a[..|a| - 1], a[|a| - 1], TiedWith(x, less));
  }

  lemma TiesFront<T(!new)>(a: seq<T>, b: seq<T>, z: T, less: (T, T) -> bool)
    requires a != [] && b != [] && a[|a| - 1] == b[|b| - 1]
    requires Ties(a, z, less) == Ties(b, z, less)
    ensures Ties(a[..|a| - 1], z, less) == Ties(b[..|b| - 1], z, less)
  {
    var x := a[|a| - 1];
    assert a == a[..|a| - 1] + [x] && b == b[..|b| - 1] + [x];
    FilterSnoc(a[..|a| - 1], x, TiedWith(z, less));
    FilterSnoc(b[..|b| - 1], x, TiedWith(z, less));
    if Same(less, z, x) {
      var s, t := Ties(a[..|a| - 1], z, less), Ties(b[..|b| - 1], z, less);
      assert (s + [x])[..|s|] == s && (t + [x])[..|t|] == t;
    }
  }

  lemma DropLast<T>(a: seq<T>, b: seq<T>)
    requires multiset(a) == multiset(b) && a != [] && b != [] && a[|a| - 1] == b[|b| - 1]
    ensures multiset(a[..|a| - 1]) == multiset(b[..|b| - 1])
  {
    MultisetFront(a);
    MultisetFront(b);
    MultisetCancel(multiset(a[..|a| - 1]), multiset(b[..|b| - 1]), a[|a| - 1]);
  }

  lemma SameLast<T(!new)>(a: seq<T>, b: seq<T>, less: (T, T) -> bool)
    requires a != [] && b != [] && multiset(a) == multiset(b)
    requires Sorted(a, less) && Sorted(b, less)
    requires Ties(a, a[|a| - 1], less) == Ties(b, a[|a| - 1], less)
    requires !less(a[|a| - 1], a[|a| - 1])
    ensures a[|a| - 1] == b[|b| - 1]
  {
    LastsTie(a, b, less);
    TiesEnd(a, a[|a| - 1], less);
    TiesEnd(b, a[|a| - 1], less);
  }

  /** The contract has one solution, so StableSort is what any implementation of it returns. */
  lemma {:induction false} StableSortUnique<T(!new)>(a: seq<T>, b: seq<T>, less: (T, T) -> bool)
    requires forall x :: !less(x, x)
    requires Sorted(a, less) && Sorted(b, less)
    requires multiset(a) == multiset(b)
    requires forall x :: Ties(a, x, less) == Ties(b, x, less)
    ensures a == b
  {
    assert |multiset(a)| == |multiset(b)|;
    if a == [] || b == [] {
      assert a == [] && b == [];
    } else {
      assert Ties(a, a[|a| - 1], less) == Ties(b, a[|a| - 1], less);
      SameLast(a, b, less);
      DropLast(a, b);
      var c, d := a[..|a| - 1], b[..|b| - 1];
      forall z ensures Ties(c, z, less) == Ties(d, z, less) {
        TiesFront(a, b, z, less);
      }
      StableSortUnique(c, d, less);
      assert a == c + [a[|a| - 1]] && b == d + [b[|b| - 1]];
    }
  }

  lemma AllEqual<T>(s: seq<T>, t: seq<T>)
    requires |s| == |t|
    requires forall x, y | x in s && y in t :: x == y
    ensures s == t
  {
    forall i | 0 <= i < |s| ensures s[i] == t[i] { assert s[i] in s && t[i] in t; }
  }

  lemma EqualTies<T(!new)>(a: seq<T>, b: seq<T>, x: T, less: (T, T) -> bool)
    requires WeakOrder(less) && multiset(a) == multiset(b)
    requires forall y, z | y in a && z in a && Same(less, y, z) :: y == z
    ensures Ties(a, x, less) == Ties(b, x, less)
  {
    var tied := TiedWith(x, less);
    FilterPermutation(a, b, tied);
    assert |Ties(a, x, less)| == |multiset(Ties(a, x, less))| == |multiset(Ties(b, x, less))|;
    FilterMembers(a, tied);
    FilterMembers(b, tied);
    forall y, z | y in Ties(a, x, less) && z in Ties(b, x, less) ensures y == z {
      assert z in multiset(b) && z in a;
      assert !less(y, x) && !less(x, z) && !less(z, x) && !less(x, y);
    }
    AllEqual(Ties(a, x, less), Ties(b, x, less));
  }

  /** Without ties between different elements sorting is unique, even when it is not stable. */
  lemma SortedUnique<T(!new)>(a: seq<T>, b: seq<T>, less: (T, T) -> bool)
    requires WeakOrder(less) && Sorted(a, less) && Sorted(b, less)
    requires multiset(a) == multiset(b)
    requires forall y, z | y in a && z in a && Same(less, y, z) :: y == z
    ensures a == b
  {
    forall x ensures Ties(a, x, less) == Ties(b, x, less) { EqualTies(a, b, x, less); }
    StableSortUnique(a, b, less);
  }

  lemma {:induction false} FilterSorted<T(!new)>(s: seq<T>, keep: T -> bool, less: (T, T) -> bool)
    requires Sorted(s, less)
    ensures Sorted(Filter(s, keep), less)
  {
    if s != [] {
      var front := s[..|s| - 1];
      FilterSorted(front, keep, less);
      FilterMembers(front, keep);
      var kept := Filter(front, keep);
      forall j | 0 <= j < |kept| ensures !less(s[|s| - 1], kept[j]) {
        assert kept[j] in front;
        var i :| 0 <= i < |front| && front[i] == kept[j];
        assert s[i] == kept[j];
      }
    }
  }
}
