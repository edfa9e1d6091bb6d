/** Go slices: windows on arrays, which several slices can share. */
module GoSlices {

  datatype Slice<T> = Slice(backing: array<T>, len: nat)

  ghost predicate Valid<T>(s: Slice<T>) { s.len <= s.backing.Length }

  ghost function Contents<T>(s: Slice<T>): seq<T>
    requires Valid(s)
    reads s.backing
  {
    s.backing[..s.len]
  }

  /** The slice holds the list. */
  ghost predicate HoldsList<T>(s: Slice<T>, list: seq<T>)
    reads s.backing
  {
    Valid(s) && Contents(s) == list
  }

  /** By how much a new array exceeds the length needed: that is up to the runtime, at every call anew. */
  datatype Growth = Any | Exact | Generous(room: nat)

  predicate Allowed(growth: Growth, extra: nat)
  {
    match growth
    case Any => true
    case Exact => extra == 0
    case Generous(room) => extra >= room
  }

  /** Go's append: in place while the capacity lasts, else a copy in a new array. */
  method Append<T(0)>(s: Slice<T>, xs: seq<T>, growth: Growth) returns (r: Slice<T>)
    requires Valid(s)
    modifies s.backing
    ensures Valid(r) && r.len == s.len + |xs|
    ensures Contents(r) == old(Contents(s)) + xs
    ensures s.backing[..s.len] == old(s.backing[..s.len])
    ensures r.len <= s.backing.Length ==> r.backing == s.backing
    ensures r.len > s.backing.Length ==>
      fresh(r.backing) && Allowed(growth, r.backing.Length - r.len) && s.backing[..] == old(s.backing[..])
  {
    var need := s.len + |xs|;
    if need <= s.backing.Length {
      forall i | 0 <= i < |xs| { s.backing[s.len + i] := xs[i]; }
      r := Slice(s.backing, need);
    } else {
      var all := s.backing[..s.len] + xs;
      assert Allowed(growth, if growth.Generous? then growth.room else 0);
      var extra: nat :| Allowed(growth, extra);
      var grown := new T[need + extra];
      forall i | 0 <= i < |all| { grown[i] := all[i]; }
      r := Slice(grown, need);
      assert grown[..need] == all;
    }
  }
}
