/**
 * The retention rule of a bounded time series, on values: what one Add
 * keeps, what a run of Adds keeps, and how many oldest values it evicts.
 * A capacity of 0 means unbounded.
 */
module SeriesLaws {

  predicate IsSuffix(s: seq<int>, t: seq<int>) {
    |s| <= |t| && s == t[|t| - |s|..]
  }

  lemma SuffixTransitive(s: seq<int>, t: seq<int>, u: seq<int>)
    requires IsSuffix(s, t) && IsSuffix(t, u)
    ensures IsSuffix(s, u)
  {
    assert u[|u| - |t|..][|t| - |s|..] == u[|u| - |s|..];
  }

  function Min(a: int, b: int): int {
    if a <= b then a else b
  }

  /** An Add on `len` values under capacity `maxLength` evicts the oldest one. */
  predicate Evicts(len: nat, maxLength: nat)
    ensures Evicts(len, maxLength) ==> len > 0
    ensures maxLength == 0 ==> !Evicts(len, maxLength)
  {
    maxLength > 0 && len >= maxLength
  }

  /** The newest `n` values of `s` (all of `s` when it is shorter). */
  function Newest(s: seq<int>, n: nat): (r: seq<int>)
    ensures |r| == Min(|s|, n)
    ensures IsSuffix(r, s)
  {
    if |s| > n then s[|s| - n..] else s
  }

  /** The data after one Add of `v`: drop the oldest value when full, then append. */
  function Appended(data: seq<int>, maxLength: nat, v: int): (r: seq<int>)
    ensures |r| > 0 && r[|r| - 1] == v
    ensures |r| == |data| + 1 - (if Evicts(|data|, maxLength) then 1 else 0)
    ensures maxLength > 0 && |data| <= maxLength ==> |r| <= maxLength
  {
    (if Evicts(|data|, maxLength) then data[1..] else data) + [v]
  }

  /** What one Add keeps is still a suffix of everything added. */
  lemma AppendedIsSuffix(data: seq<int>, maxLength: nat, v: int, added: seq<int>)
    requires IsSuffix(data, added)
    ensures IsSuffix(Appended(data, maxLength, v), added + [v])
  {
    assert IsSuffix(data + [v], added + [v]) by {
      assert (added + [v])[|added| - |data|..] == added[|added| - |data|..] + [v];
    }
    var r := Appended(data, maxLength, v);
    assert IsSuffix(r, data + [v]) by {
      if Evicts(|data|, maxLength) {
        assert r == (data + [v])[1..];
      }
    }
    SuffixTransitive(r, data + [v], added + [v]);
  }

  /** The data after adding every value of `vs`, in order. */
  function AddAll(data: seq<int>, maxLength: nat, vs: seq<int>): (r: seq<int>)
    ensures |r| <= |data| + |vs|
    ensures maxLength > 0 && |data| <= maxLength ==> |r| <= maxLength
    ensures vs != [] ==> |r| > 0 && r[|r| - 1] == vs[|vs| - 1]
    decreases |vs|
  {
    if vs == [] then data
    else Appended(AddAll(data, maxLength, vs[..|vs| - 1]), maxLength, vs[|vs| - 1])
  }

  /** How many of the Adds of `vs` evict a value (each shifts Start by one Interval). */
  function Evictions(data: seq<int>, maxLength: nat, vs: seq<int>): (e: nat)
    ensures e <= |vs|
    ensures |AddAll(data, maxLength, vs)| == |data| + |vs| - e
    ensures maxLength == 0 ==> e == 0
    decreases |vs|
  {
    if vs == [] then 0
    else
      var prefix := vs[..|vs| - 1];
      Evictions(data, maxLength, prefix)
      + (if Evicts(|AddAll(data, maxLength, prefix)|, maxLength) then 1 else 0)
  }

  /** One more Add extends a run of Adds. */
  lemma AddAllSnoc(data: seq<int>, maxLength: nat, vs: seq<int>, v: int)
    ensures AddAll(data, maxLength, vs + [v]) == Appended(AddAll(data, maxLength, vs), maxLength, v)
    ensures Evictions(data, maxLength, vs + [v]) ==
              Evictions(data, maxLength, vs) + (if Evicts(|AddAll(data, maxLength, vs)|, maxLength) then 1 else 0)
  {
    assert (vs + [v])[..|vs|] == vs;
  }

  /** Adding to the newest `maxLength` values keeps the newest `maxLength` values. */
  lemma AppendedNewest(s: seq<int>, maxLength: nat, v: int)
    requires maxLength > 0
    ensures Appended(Newest(s, maxLength), maxLength, v) == Newest(s + [v], maxLength)
    ensures Evicts(|Newest(s, maxLength)|, maxLength) <==> |s| >= maxLength
  {
    var kept := Newest(s, maxLength);
    if |s| >= maxLength {
      assert kept[1..] + [v] == (s + [v])[|s| + 1 - maxLength..];
    }
  }

  /**
   * Under a positive capacity that the data respects, a run of Adds keeps
   * exactly the newest `maxLength` of all values.
   */
  lemma {:induction false} AddAllKeepsNewest(data: seq<int>, maxLength: nat, vs: seq<int>)
    requires maxLength > 0 && |data| <= maxLength
    ensures AddAll(data, maxLength, vs) == Newest(data + vs, maxLength)
    decreases |vs|
  {
    if vs != [] {
      var prefix, v := vs[..|vs| - 1], vs[|vs| - 1];
      var s := data + prefix;
      assert data + vs == s + [v] by {
        assert vs == prefix + [v];
      }
      calc {
        AddAll(data, maxLength, vs);
        Appended(AddAll(data, maxLength, prefix), maxLength, v);
        { AddAllKeepsNewest(data, maxLength, prefix); }
        Appended(Newest(s, maxLength), maxLength, v);
        { AppendedNewest(s, maxLength, v); }
        Newest(s + [v], maxLength);
      }
    }
  }

  /**
   * Under a positive capacity that the data respects, a run of Adds evicts
   * one value for every value beyond the capacity.
   */
  lemma {:induction false} EvictionsBeyondCapacity(data: seq<int>, maxLength: nat, vs: seq<int>)
    requires maxLength > 0 && |data| <= maxLength
    ensures Evictions(data, maxLength, vs) == |data| + |vs| - Min(|data| + |vs|, maxLength)
    decreases |vs|
  {
    if vs != [] {
      var prefix := vs[..|vs| - 1];
      EvictionsBeyondCapacity(data, maxLength, prefix);
      AddAllKeepsNewest(data, maxLength, prefix);
      AppendedNewest(data + prefix, maxLength, vs[|vs| - 1]);
    }
  }

  /** Without a capacity, or within it, a run of Adds keeps every value and evicts none. */
  lemma {:induction false} AddAllWithinCapacity(data: seq<int>, maxLength: nat, vs: seq<int>)
    requires maxLength == 0 || |data| + |vs| <= maxLength
    ensures AddAll(data, maxLength, vs) == data + vs
    ensures Evictions(data, maxLength, vs) == 0
    decreases |vs|
  {
    if vs != [] {
      var prefix, v := vs[..|vs| - 1], vs[|vs| - 1];
      AddAllWithinCapacity(data, maxLength, prefix);
      assert vs == prefix + [v];
      assert data + vs == data + prefix + [v];
    }
  }
}
