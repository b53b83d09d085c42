/** Filtering, reversing and summing sequences. */
module Seqs {

  /** The elements of `s` that satisfy `p`, in order. */
  function Filter<T>(p: T -> bool, s: seq<T>): (r: seq<T>)
    ensures |r| <= |s|
  {
    if s == [] then []
    else (if p(s[0]) then [s[0]] else []) + Filter(p, s[1..])
  }

  lemma {:induction false} FilterConcat<T>(p: T -> bool, a: seq<T>, b: seq<T>)
    ensures Filter(p, a + b) == Filter(p, a) + Filter(p, b)
  {
    if a == [] {
      assert a + b == b;
    } else {
      var head := if p(a[0]) then [a[0]] else [];
      calc {
        Filter(p, a + b);
        { assert (a + b)[1..] == a[1..] + b; }
        head + Filter(p, a[1..] + b);
        { FilterConcat(p, a[1..], b); }
        head + (Filter(p, a[1..]) + Filter(p, b));
        (head + Filter(p, a[1..])) + Filter(p, b);
      }
    }
  }

  lemma {:induction false} FilterMembers<T>(p: T -> bool, s: seq<T>)
    ensures forall x <- Filter(p, s) :: x in s && p(x)
  {
    if s != [] {
      FilterMembers(p, s[1..]);
    }
  }

  lemma FilterSnoc<T>(p: T -> bool, a: seq<T>, x: T)
    ensures Filter(p, a + [x]) == Filter(p, a) + (if p(x) then [x] else [])
  {
    FilterConcat(p, a, [x]);
    assert Filter(p, [x]) == if p(x) then [x] else [];
  }

  /** One more element of a prefix. */
  lemma FilterNext<T>(p: T -> bool, s: seq<T>, i: nat)
    requires i < |s|
    ensures Filter(p, s[..i + 1]) == Filter(p, s[..i]) + (if p(s[i]) then [s[i]] else [])
  {
    assert s[..i + 1] == s[..i] + [s[i]];
    FilterSnoc(p, s[..i], s[i]);
  }

  lemma FilterNothing<T>(p: T -> bool, s: seq<T>)
    ensures Filter(p, s[..0]) == []
  {
  }

  lemma FilterPrefix<T>(p: T -> bool, s: seq<T>, i: nat)
    requires i <= |s|
    ensures Filter(p, s[..i]) <= Filter(p, s)
    ensures i == |s| ==> Filter(p, s[..i]) == Filter(p, s)
  {
    assert s == s[..i] + s[i..];
    FilterConcat(p, s[..i], s[i..]);
    assert i == |s| ==> s[i..] == [];
  }

  /** Nothing that satisfies `p` is lost. */
  lemma {:induction false} FilterKeeps<T>(p: T -> bool, s: seq<T>, x: T)
    requires x in s && p(x)
    ensures x in Filter(p, s)
  {
    if s[0] != x {
      FilterKeeps(p, s[1..], x);
    }
  }

  /** Filtering keeps keys distinct. */
  lemma {:induction false} FilterDistinct<T, K>(p: T -> bool, key: T -> K, s: seq<T>)
    requires forall i, j :: 0 <= i < j < |s| ==> key(s[i]) != key(s[j])
    ensures forall i, j :: 0 <= i < j < |Filter(p, s)| ==> key(Filter(p, s)[i]) != key(Filter(p, s)[j])
  {
    if s != [] {
      FilterDistinct(p, key, s[1..]);
      FilterMembers(p, s[1..]);
      forall x <- Filter(p, s[1..])
        ensures key(x) != key(s[0])
      {
        var j :| 0 <= j < |s| - 1 && s[1..][j] == x;
        assert x == s[j + 1];
      }
    }
  }

  lemma {:induction false} FilterAll<T>(p: T -> bool, s: seq<T>)
    requires forall x <- s :: p(x)
    ensures Filter(p, s) == s
  {
    if s != [] {
      FilterAll(p, s[1..]);
      assert s == [s[0]] + s[1..];
    }
  }

  lemma {:induction false} FilterNone<T>(p: T -> bool, s: seq<T>)
    requires forall x <- s :: !p(x)
    ensures Filter(p, s) == []
  {
    if s != [] {
      FilterNone(p, s[1..]);
    }
  }

  lemma {:induction false} FilterSame<T>(p: T -> bool, q: T -> bool, s: seq<T>)
    requires forall x <- s :: p(x) == q(x)
    ensures Filter(p, s) == Filter(q, s)
  {
    if s != [] {
      FilterSame(p, q, s[1..]);
    }
  }

  /** Two filters in sequence are their conjunction. */
  lemma {:induction false} FilterFurther<T>(p: T -> bool, q: T -> bool, both: T -> bool, s: seq<T>)
    requires forall x <- s :: both(x) <==> p(x) && q(x)
    ensures Filter(both, s) == Filter(q, Filter(p, s))
  {
    if s != [] {
      var rest := Filter(p, s[1..]);
      FilterFurther(p, q, both, s[1..]);
      FilterConcat(q, if p(s[0]) then [s[0]] else [], rest);
      assert Filter(q, [s[0]]) == if q(s[0]) then [s[0]] else [];
    }
  }

  /** The number of occurrences of `x` in a filtered sequence. */
  lemma {:induction false} FilterMultiset<T>(p: T -> bool, s: seq<T>, x: T)
    ensures multiset(Filter(p, s))[x] == if p(x) then multiset(s)[x] else 0
  {
    if s != [] {
      FilterMultiset(p, s[1..], x);
      assert s == [s[0]] + s[1..];
    }
  }

  lemma FilterPermutes<T(!new)>(p: T -> bool, a: seq<T>, b: seq<T>)
    requires multiset(a) == multiset(b)
    ensures multiset(Filter(p, a)) == multiset(Filter(p, b))
  {
    hide Filter;
    var fa, fb := multiset(Filter(p, a)), multiset(Filter(p, b));
    forall x
      ensures fa[x] == fb[x]
    {
      FilterMultiset(p, a, x);
      FilterMultiset(p, b, x);
    }
    assert fa == fb;
  }

  function Reverse<T>(s: seq<T>): (r: seq<T>)
    ensures |r| == |s|
    ensures forall i :: 0 <= i < |s| ==> r[i] == s[|s| - 1 - i]
  {
    seq(|s|, i requires 0 <= i < |s| => s[|s| - 1 - i])
  }

  lemma ReverseConcat<T>(a: seq<T>, b: seq<T>)
    ensures Reverse(a + b) == Reverse(b) + Reverse(a)
  {
  }

  lemma ReverseMembers<T>(s: seq<T>, x: T)
    requires x in Reverse(s)
    ensures x in s
  {
    var i :| 0 <= i < |s| && Reverse(s)[i] == x;
    assert s[|s| - 1 - i] == x;
  }

  lemma SliceMembers<T>(s: seq<T>, lo: nat, mid: nat, hi: nat, x: T)
    requires lo <= mid <= hi <= |s| && x in s[mid..hi]
    ensures x in s[lo..hi]
  {
    var i :| 0 <= i < hi - mid && s[mid..hi][i] == x;
    assert s[lo..hi][mid - lo + i] == x;
  }

  /** The first `n` elements, or all of them when there are fewer. */
  function Take<T>(s: seq<T>, n: nat): (r: seq<T>)
    ensures |r| <= n && r <= s
    ensures |r| == if |s| <= n then |s| else n
  {
    if |s| <= n then s else s[..n]
  }

  /** The last n elements, or all of them when there are fewer. */
  function LastOf<T>(s: seq<T>, n: nat): seq<T> {
    if |s| <= n then s else s[|s| - n..]
  }

  function MapSeq<T, U>(f: T -> U, s: seq<T>): (r: seq<U>)
    ensures |r| == |s|
    ensures forall i :: 0 <= i < |s| ==> r[i] == f(s[i])
  {
    seq(|s|, i requires 0 <= i < |s| => f(s[i]))
  }

  /** Mapping permuted sequences gives permuted sequences. */
  lemma {:induction false} MapMultiset<T, U>(f: T -> U, a: seq<T>, b: seq<T>)
    requires multiset(a) == multiset(b)
    ensures multiset(MapSeq(f, a)) == multiset(MapSeq(f, b))
    decreases |a|
  {
    hide MapSeq;
    assert |multiset(a)| == |multiset(b)|;
    if a == [] {
      assert b == [];
    } else {
      var i, restA := TakeOut(a, a[0]);
      var j, restB := TakeOut(b, a[0]);
      MapMultiset(f, restA, restB);
      MapSplit(f, a, i);
      MapSplit(f, b, j);
    }
  }

  lemma TakeOut<T>(b: seq<T>, x: T) returns (i: nat, rest: seq<T>)
    requires x in multiset(b)
    ensures i < |b| && b[i] == x && rest == b[..i] + b[i + 1..]
    ensures multiset(rest) == multiset(b) - multiset{x}
    ensures |rest| < |b|
  {
    i :| 0 <= i < |b| && b[i] == x;
    rest := b[..i] + b[i + 1..];
    assert b == b[..i] + [b[i]] + b[i + 1..];
  }

  lemma MapSplit<T, U>(f: T -> U, b: seq<T>, i: nat)
    requires i < |b|
    ensures multiset(MapSeq(f, b)) == multiset(MapSeq(f, b[..i] + b[i + 1..])) + multiset{f(b[i])}
  {
    var l, r := MapSeq(f, b[..i]), MapSeq(f, b[i + 1..]);
    assert MapSeq(f, b) == l + [f(b[i])] + r;
    assert MapSeq(f, b[..i] + b[i + 1..]) == l + r;
  }

  function Sum(s: seq<int>): (r: int) {
    if s == [] then 0 else s[0] + Sum(s[1..])
  }

  ghost predicate Distinct<T>(s: seq<T>) {
    forall i, j :: 0 <= i < j < |s| ==> s[i] != s[j]
  }

  // Ranging over a map or a set, in an arbitrary order

  /** An order in which the elements of a set, or the keys of a map, may be visited. */
  ghost predicate Enumerates<T>(order: seq<T>, s: set<T>) {
    Distinct(order) && (forall x <- order :: x in s) && (forall x <- s :: x in order)
  }

  ghost function SomeOrder<T>(s: set<T>): seq<T> {
    if s == {} then []
    else
      var x :| x in s;
      [x] + SomeOrder(s - {x})
  }

  lemma {:induction false} SomeOrderEnumerates<T>(s: set<T>)
    ensures Enumerates(SomeOrder(s), s) && |SomeOrder(s)| == |s|
  {
    if s != {} {
      var x := SomeOrder(s)[0];
      SomeOrderEnumerates(s - {x});
      assert SomeOrder(s) == [x] + SomeOrder(s - {x});
    }
  }

  lemma EnumeratesSnoc<T>(order: seq<T>, s: set<T>, x: T)
    requires x in s && Enumerates(order, s - {x})
    ensures Enumerates(order + [x], s)
  {
  }

  lemma EnumeratesAt<T>(order: seq<T>, s: set<T>, i: nat)
    requires Enumerates(order, s) && i < |order|
    ensures order[i] in s
  {
  }

  lemma {:induction false} DistinctMultiset<T>(a: seq<T>)
    requires Distinct(a)
    ensures forall x :: multiset(a)[x] == if x in a then 1 else 0
  {
    if a != [] {
      DistinctMultiset(a[1..]);
      assert a == [a[0]] + a[1..];
      forall x
        ensures multiset(a)[x] == if x in a then 1 else 0
      {
        assert x in a <==> x == a[0] || x in a[1..];
      }
    }
  }

  /** Any two orders of the same set are permutations of each other. */
  lemma EnumerationsPermute<T>(a: seq<T>, b: seq<T>, s: set<T>)
    requires Enumerates(a, s) && Enumerates(b, s)
    ensures multiset(a) == multiset(b) && |a| == |b|
  {
    DistinctMultiset(a);
    DistinctMultiset(b);
    forall x
      ensures multiset(a)[x] == multiset(b)[x]
    {
      assert x in a <==> x in b;
    }
    assert multiset(a) == multiset(b);
    assert |multiset(a)| == |multiset(b)|;
  }
}
