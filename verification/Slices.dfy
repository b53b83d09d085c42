/**
 The idiom that the detector and the bypass monitor share: a table of Go slices
 that are pruned in place over their own backing array and then appended to.
 */
module Slices {
  import opened Seqs

  /** A Go slice: a length over a backing array. */
  datatype Slice<T> = Slice(data: array<T>, len: nat)

  /**
   s[:0] followed by appending what is kept: the write index never overtakes the
   read index, so the elements still to be read are intact.
   */
  method Compact<T>(a: array<T>, n: nat, keep: T -> bool) returns (m: nat)
    requires n <= a.Length
    modifies a
    ensures m <= n && a[..m] == Filter(keep, old(a[..n]))
  {
    m := 0;
    ghost var was := a[..n];
    for i := 0 to n
      invariant m <= i
      invariant a[i..n] == was[i..]
      invariant a[..m] == Filter(keep, was[..i])
    {
      var x := a[i];
      assert x == was[i] by { assert a[i..n][0] == was[i..][0]; }
      assert was[..i + 1] == was[..i] + [x];
      FilterSnoc(keep, was[..i], x);
      assert a[i + 1..n] == a[i..n][1..] && was[i + 1..] == was[i..][1..];
      if keep(x) {
        ghost var kept := a[..m];
        a[m] := x;
        assert a[..m + 1] == kept + [x];
        m := m + 1;
      }
    }
    assert was[..n] == was;
  }

  /** append: in place when the backing array has room, otherwise into a larger copy. */
  method Append<T>(a: array<T>, n: nat, x: T) returns (b: array<T>)
    requires n <= a.Length
    modifies a
    ensures n + 1 <= b.Length && b[..n + 1] == old(a[..n]) + [x]
    ensures b == a || fresh(b)
  {
    if n < a.Length {
      b := a;
    } else {
      b := new T[2 * n + 1](i requires 0 <= i < 2 * n + 1 reads a => if i < n then a[i] else x);
      assert b[..n] == a[..n];
    }
    ghost var before := b[..n];
    b[n] := x;
    assert b[..n + 1] == before + [x];
  }

  /** Compact, then append. */
  method CompactAppend<T>(a: array<T>, n: nat, keep: T -> bool, x: T) returns (b: array<T>, m: nat)
    requires n <= a.Length
    modifies a
    ensures m <= b.Length && b[..m] == Filter(keep, old(a[..n])) + [x]
    ensures b == a || fresh(b)
  {
    m := Compact(a, n, keep);
    b := Append(a, m, x);
    m := m + 1;
  }

  class WindowTable<K(==), T> {
    var entries: map<K, Slice<T>>
    /** What each slice holds. */
    ghost var contents: map<K, seq<T>>
    /** The key each backing array belongs to. */
    ghost var owner: map<array<T>, K>
    ghost var Repr: set<array<T>>

    ghost predicate Valid()
      reads this, Repr
    {
      && (forall k <- entries :: k in contents)
      && (forall k <- contents :: k in entries && Holds(entries[k], contents[k]))
      && (forall k <- entries :: entries[k].data in owner && owner[entries[k].data] == k)
    }

    ghost predicate Holds(s: Slice<T>, items: seq<T>)
      reads this, Repr
    {
      && s.data in Repr
      && s.len <= s.data.Length
      && s.data[..s.len] == items
    }

    constructor ()
      ensures Valid() && contents == map[] && Repr == {}
    {
      entries, contents, owner := map[], map[], map[];
      Repr := {};
    }

    /** A missing key reads as the nil slice. */
    ghost function Items(key: K): seq<T>
      reads this
    {
      if key in contents then contents[key] else []
    }

    /** Keeps what `keep` accepts, appends x, and returns the new length. */
    method PruneAppend(key: K, keep: T -> bool, x: T) returns (n: nat)
      requires Valid()
      modifies this, Repr
      ensures Valid() && fresh(Repr - old(Repr))
      ensures contents == old(contents)[key := Filter(keep, old(Items(key))) + [x]]
      ensures n == |contents[key]|
    {
      var data: array<T>;
      var m := 0;
      if key in entries {
        data, m := CompactAppend(entries[key].data, entries[key].len, keep, x);
      } else {
        data := new T[0];
        data, m := CompactAppend(data, 0, keep, x);
      }
      Store(key, data, m, Filter(keep, old(Items(key))) + [x]);
      n := m;
    }

    /** The map assignment. */
    method Store(key: K, data: array<T>, m: nat, ghost items: seq<T>)
      requires forall k <- entries :: k in contents
      requires forall k <- contents :: k in entries && (k != key ==> Holds(entries[k], contents[k]))
      requires forall k <- entries :: entries[k].data in owner && owner[entries[k].data] == k
      requires m <= data.Length && data[..m] == items
      requires forall k <- entries :: entries[k].data == data ==> k == key
      modifies this
      ensures Valid() && Repr == old(Repr) + {data}
      ensures contents == old(contents)[key := items]
    {
      entries := entries[key := Slice(data, m)];
      contents := contents[key := items];
      owner := owner[data := key];
      Repr := Repr + {data};
    }
  }
}
