/** The sliding windows of internal/anomaly/detector.go (patternWindow). */
module Windows {
  import opened Models
  import opened Seqs
  import opened Slices

  /** What survives in a window that ends at `at`. */
  function Within(at: Time, window: int): Time -> bool {
    (t: Time) => t > at - window
  }

  /** One add: expired entries go, the new one is appended. */
  function AddTo(entries: seq<Time>, at: Time, window: int): seq<Time> {
    Filter(Within(at, window), entries) + [at]
  }

  class PatternWindow {
    const table: WindowTable<string, Time>

    ghost predicate Valid()
      reads table, table.Repr
    {
      table.Valid()
    }

    constructor ()
      ensures Valid() && fresh(table) && table.Repr == {} && table.contents == map[]
    {
      table := new WindowTable();
    }

    method Add(key: string, at: Time, window: int) returns (count: nat)
      requires Valid()
      modifies table, table.Repr
      ensures Valid() && fresh(table.Repr - old(table.Repr))
      ensures table.contents == old(table.contents)[key := AddTo(old(table.Items(key)), at, window)]
      ensures count == |table.contents[key]|
    {
      count := table.PruneAppend(key, Within(at, window), at);
    }
  }

  // Any run of adds to one key

  /** What one key holds after a run of adds with the same window length, in any order of timestamps. */
  function AfterAdds(adds: seq<Time>, window: int): seq<Time> {
    if adds == [] then []
    else AddTo(AfterAdds(adds[..|adds| - 1], window), adds[|adds| - 1], window)
  }

  /** The adds that no later add has expired. */
  function Survivors(adds: seq<Time>, window: int): seq<Time> {
    if adds == [] then []
    else Head(adds[0], adds[1..], window) + Survivors(adds[1..], window)
  }

  /** The first add, if none of the later ones expires it. */
  function Head(t: Time, later: seq<Time>, window: int): seq<Time> {
    if forall u <- later :: t > u - window then [t] else []
  }

  lemma HeadSnoc(t: Time, later: seq<Time>, at: Time, window: int)
    ensures Head(t, later + [at], window) == Filter(Within(at, window), Head(t, later, window))
  {
    if forall u <- later :: t > u - window {
      FilterSnoc(Within(at, window), [], t);
      assert [] + [t] == [t];
      assert at in later + [at];
      assert forall u <- later + [at] :: u in later || u == at;
    } else {
      var u :| u in later && t <= u - window;
      assert u in later + [at];
    }
  }

  lemma {:induction false} SurvivorsSnoc(adds: seq<Time>, at: Time, window: int)
    ensures Survivors(adds + [at], window) == Filter(Within(at, window), Survivors(adds, window)) + [at]
  {
    var keep := Within(at, window);
    if adds == [] {
      assert [] + [at] == [at] && [at][1..] == [];
      assert Survivors([at], window) == [at];
    } else {
      var later := adds[1..];
      var head, rest := Head(adds[0], later, window), Survivors(later, window);
      calc {
        Survivors(adds + [at], window);
        { assert (adds + [at])[1..] == later + [at]; }
        Head(adds[0], later + [at], window) + Survivors(later + [at], window);
        { HeadSnoc(adds[0], later, at, window); SurvivorsSnoc(later, at, window); }
        Filter(keep, head) + (Filter(keep, rest) + [at]);
        (Filter(keep, head) + Filter(keep, rest)) + [at];
        { FilterConcat(keep, head, rest); }
        Filter(keep, head + rest) + [at];
      }
    }
  }

  /**
   Closed form: after any run of adds, whatever the order of their timestamps, a
   key holds exactly the adds t_i with t_i > t_j - window for every later t_j.
   */
  lemma {:induction false} WindowClosedForm(adds: seq<Time>, window: int)
    ensures AfterAdds(adds, window) == Survivors(adds, window)
  {
    if adds != [] {
      var before, at := adds[..|adds| - 1], adds[|adds| - 1];
      WindowClosedForm(before, window);
      SurvivorsSnoc(before, at, window);
      assert adds == before + [at];
    }
  }

  /** Adds to several keys, in the order they happen. */
  datatype Add = Add(key: string, at: Time)

  function TableAfter(adds: seq<Add>, window: int): map<string, seq<Time>> {
    if adds == [] then map[]
    else
      var before, add := TableAfter(adds[..|adds| - 1], window), adds[|adds| - 1];
      before[add.key := AddTo(if add.key in before then before[add.key] else [], add.at, window)]
  }

  function TimesOf(adds: seq<Add>, key: string): seq<Time> {
    if adds == [] then []
    else
      var before, add := TimesOf(adds[..|adds| - 1], key), adds[|adds| - 1];
      if add.key == key then before + [add.at] else before
  }

  /** Keys do not interfere: each holds the survivors among its own adds. */
  lemma {:induction false} KeysIndependent(adds: seq<Add>, window: int, key: string)
    ensures key in TableAfter(adds, window) <==> TimesOf(adds, key) != []
    ensures key in TableAfter(adds, window) ==> TableAfter(adds, window)[key] == Survivors(TimesOf(adds, key), window)
  {
    if adds != [] {
      var before, add := adds[..|adds| - 1], adds[|adds| - 1];
      KeysIndependent(before, window, key);
      if add.key == key {
        SurvivorsSnoc(TimesOf(before, key), add.at, window);
      }
    }
  }

  // The high-frequency rule

  /** The count that the n-th add returns. */
  function CountAfter(adds: seq<Time>, n: nat, window: int): nat
    requires n <= |adds|
  {
    |AfterAdds(adds[..n], window)|
  }

  /** A count rises by at most one per add. */
  lemma CountStep(adds: seq<Time>, n: nat, window: int)
    requires n < |adds|
    ensures CountAfter(adds, n + 1, window) <= CountAfter(adds, n, window) + 1
  {
    assert adds[..n + 1][..n] == adds[..n];
  }

  /**
   The rule fires only when a count equals the limit, yet no burst is missed:
   whenever a count is at or above the limit, the rule has fired since the count
   was last below it.
   */
  lemma {:induction false} NoBurstMissed(adds: seq<Time>, n: nat, window: int, limit: nat) returns (fired: nat)
    requires n <= |adds| && limit > 0 && CountAfter(adds, n, window) >= limit
    ensures 0 < fired <= n && CountAfter(adds, fired, window) == limit
    ensures forall j :: fired <= j <= n ==> CountAfter(adds, j, window) >= limit
  {
    assert adds[..0] == [];
    if n == 0 || CountAfter(adds, n - 1, window) < limit {
      CountStep(adds, n - 1, window);
      fired := n;
    } else {
      fired := NoBurstMissed(adds, n - 1, window, limit);
    }
  }
}
