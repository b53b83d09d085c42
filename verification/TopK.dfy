/**
 The exchange sort that the store and the REST handlers repeat by hand, and what
 truncating its result means: the k largest items, whatever the order of ties.
 */
module TopK {
  import opened Seqs

  ghost predicate Descending<T>(key: T -> int, s: seq<T>) {
    forall i, j :: 0 <= i < j < |s| ==> key(s[i]) >= key(s[j])
  }

  /** `top` consists of k items of `all` (or all of them) and nothing left out has a larger key. */
  ghost predicate IsTop<T>(key: T -> int, k: nat, all: multiset<T>, top: multiset<T>) {
    && top <= all
    && |top| == (if |all| <= k then |all| else k)
    && (forall x <- all - top, y <- top :: key(x) <= key(y))
  }

  method Exchange<T>(a: array<T>, i: nat, j: nat)
    requires i < j < a.Length
    modifies a
    ensures a[i] == old(a[j]) && a[j] == old(a[i])
    ensures forall q :: 0 <= q < a.Length && q != i && q != j ==> a[q] == old(a[q])
    ensures multiset(a[..]) == old(multiset(a[..]))
  {
    a[i], a[j] := a[j], a[i];
  }

  /** One pass: a[i] is compared with every later item and exchanged when that one's key is larger. */
  method ExchangePass<T>(a: array<T>, key: T -> int, i: nat)
    requires i < a.Length
    requires i > 0 ==> forall q :: i <= q < a.Length ==> key(a[i - 1]) >= key(a[q])
    modifies a
    ensures multiset(a[..]) == multiset(old(a[..]))
    ensures a[..i] == old(a[..i])
    ensures i > 0 ==> key(a[i - 1]) >= key(a[i])
    ensures forall q :: i < q < a.Length ==> key(a[i]) >= key(a[q])
  {
    var j := i + 1;
    while j < a.Length
      invariant i < j <= a.Length
      invariant multiset(a[..]) == multiset(old(a[..]))
      invariant forall q :: 0 <= q < i ==> a[q] == old(a[q])
      invariant i > 0 ==> forall q :: i <= q < a.Length ==> key(a[i - 1]) >= key(a[q])
      invariant forall q :: i < q < j ==> key(a[i]) >= key(a[q])
    {
      if key(a[j]) > key(a[i]) {
        Exchange(a, i, j);
      }
      j := j + 1;
    }
  }

  lemma DescendingSnoc<T>(key: T -> int, s: seq<T>, x: T)
    requires Descending(key, s)
    requires s != [] ==> key(s[|s| - 1]) >= key(x)
    ensures Descending(key, s + [x])
  {
    forall i, j | 0 <= i < j < |s| + 1
      ensures key((s + [x])[i]) >= key((s + [x])[j])
    {
      if j == |s| && i < |s| - 1 {
        assert key(s[i]) >= key(s[|s| - 1]);
      }
    }
  }

  /** The whole sort; ties may come out in any order, as exchanging is not stable. */
  method SortDescending<T>(a: array<T>, key: T -> int)
    modifies a
    ensures multiset(a[..]) == multiset(old(a[..]))
    ensures Descending(key, a[..])
  {
    var i := 0;
    while i < a.Length - 1
      invariant 0 <= i <= a.Length
      invariant a.Length == 0 ==> i == 0
      invariant a.Length > 0 ==> i < a.Length
      invariant multiset(a[..]) == multiset(old(a[..]))
      invariant Descending(key, a[..i])
      invariant i > 0 ==> forall q :: i <= q < a.Length ==> key(a[i - 1]) >= key(a[q])
    {
      ghost var prefix := a[..i];
      ExchangePass(a, key, i);
      DescendingSnoc(key, prefix, a[i]);
      assert a[..i + 1] == prefix + [a[i]];
      i := i + 1;
    }
    if a.Length > 0 {
      DescendingSnoc(key, a[..i], a[i]);
      assert a[..] == a[..i] + [a[i]];
    } else {
      assert a[..] == [];
    }
  }

  /** Truncating a descending sequence keeps a top selection. */
  lemma TakeIsTop<T>(key: T -> int, k: nat, s: seq<T>)
    requires Descending(key, s)
    ensures IsTop(key, k, multiset(s), multiset(Take(s, k)))
  {
    var top := Take(s, k);
    var rest := s[|top|..];
    assert s == top + rest;
    assert multiset(s) - multiset(top) == multiset(rest);
    forall x <- multiset(rest), y <- multiset(top)
      ensures key(x) <= key(y)
    {
      var i :| 0 <= i < |rest| && rest[i] == x;
      var j :| 0 <= j < |top| && top[j] == y;
      assert s[j] == y && s[|top| + i] == x;
    }
  }

  /** Exchange-sorting a copy of `s` and cutting it to k. */
  method TopOf<T>(s: seq<T>, key: T -> int, k: nat) returns (out: seq<T>)
    ensures Descending(key, out)
    ensures IsTop(key, k, multiset(s), multiset(out))
  {
    hide IsTop;
    var a := new T[|s|](i requires 0 <= i < |s| => s[i]);
    assert a[..] == s;
    SortDescending(a, key);
    TakeIsTop(key, k, a[..]);
    out := Take(a[..], k);
  }

  /**
   A list may be cut to its own top k before it is merged: the top k of the merge
   is a top k of everything.
   */
  lemma MergeTop<T>(key: T -> int, k: nat, list: multiset<T>, cut: multiset<T>, others: multiset<T>, top: multiset<T>)
    requires IsTop(key, k, list, cut)
    requires IsTop(key, k, cut + others, top)
    ensures IsTop(key, k, list + others, top)
  {
    if |list| <= k {
      assert |list - cut| == 0;
      assert list == cut + (list - cut);
      assert cut == list;
    } else {
      forall x <- list + others - top, y <- top
        ensures key(x) <= key(y)
      {
        if x !in cut + others - top {
          assert x in list - cut;
          CutBelow(key, k, list, cut, others, top, x, y);
        }
      }
    }
  }

  lemma MergeThree<T>(key: T -> int, k: nat, a: multiset<T>, b: multiset<T>, c: multiset<T>,
                      cutA: multiset<T>, cutB: multiset<T>, cutC: multiset<T>, top: multiset<T>)
    requires IsTop(key, k, a, cutA) && IsTop(key, k, b, cutB) && IsTop(key, k, c, cutC)
    requires IsTop(key, k, cutA + cutB + cutC, top)
    ensures IsTop(key, k, a + b + c, top)
  {
    assert cutA + cutB + cutC == cutA + (cutB + cutC);
    MergeTop(key, k, a, cutA, cutB + cutC, top);
    assert a + (cutB + cutC) == cutB + (a + cutC);
    MergeTop(key, k, b, cutB, a + cutC, top);
    assert b + (a + cutC) == cutC + (a + b);
    MergeTop(key, k, c, cutC, a + b, top);
    assert c + (a + b) == a + b + c;
  }

  lemma CutBelow<T>(
    key: T -> int, k: nat, list: multiset<T>, cut: multiset<T>, others: multiset<T>, top: multiset<T>, x: T, y: T)
    requires IsTop(key, k, list, cut) && |list| > k
    requires IsTop(key, k, cut + others, top)
    requires x in list - cut && y in top
    ensures key(x) <= key(y)
  {
    if cut <= top {
      assert top == cut + (top - cut);
      assert |top - cut| == 0;
      assert y in cut;
    } else {
      var z :| cut[z] > top[z];
      assert z in cut + others - top;
    }
  }

  /**
   A top selection of a part that is large enough is one of the whole exactly if
   nothing outside the part exceeds it.
   */
  lemma TopOfPart<T>(key: T -> int, k: nat, part: multiset<T>, rest: multiset<T>, top: multiset<T>)
    requires (|part| >= k || rest == multiset{}) && IsTop(key, k, part, top)
    ensures IsTop(key, k, part + rest, top) <==> forall x <- rest, y <- top :: key(x) <= key(y)
  {
    if IsTop(key, k, part + rest, top) {
      forall x <- rest, y <- top
        ensures key(x) <= key(y)
      {
        assert x in part + rest - top;
      }
    }
    forall x <- part + rest - top
      ensures x in rest || x in part - top
    {
    }
  }

  /** What is left out is no larger than anything that is in, and nothing is left out while there is room. */
  lemma OmittedIsBelow<T>(key: T -> int, k: nat, all: multiset<T>, top: multiset<T>, omitted: T, listed: T)
    requires IsTop(key, k, all, top) && omitted in all && omitted !in top && listed in top
    ensures key(omitted) <= key(listed) && |top| == k
  {
    assert omitted in all - top;
    assert all == top + (all - top);
    assert |all| == |top| + |all - top|;
  }
}
