/** Chunk lineage of internal/store/memory.go: entries kept per trace, handed out by rank. */
module Lineage {
  import opened Models
  import opened Seqs
  import opened TopK

  /** A retrieved chunk. */
  datatype Entry = Entry(
    chunkId: string, documentId: string, score: real, rank: int, collection: string, tenantId: string)

  /** One call of AddChunkLineage. */
  datatype Add = Add(traceId: string, entry: Entry)

  function ByRank(): Entry -> int {
    (e: Entry) => -e.rank
  }

  /** The entries added for one trace, in the order they came; nothing is kept for a trace without an ID. */
  function EntriesOf(adds: seq<Add>, traceId: string): seq<Entry> {
    if traceId == "" then []
    else MapSeq((a: Add) => a.entry, Filter((a: Add) => a.traceId == traceId, adds))
  }

  /** The table holds, for each trace, what was added for it, and no key without entries. */
  ghost predicate Holds(lineage: map<string, seq<Entry>>, adds: seq<Add>) {
    forall id :: (id in lineage <==> EntriesOf(adds, id) != [])
      && (id in lineage ==> lineage[id] == EntriesOf(adds, id))
  }

  lemma EntriesSnoc(adds: seq<Add>, a: Add, traceId: string)
    ensures EntriesOf(adds + [a], traceId)
         == EntriesOf(adds, traceId) + (if traceId != "" && a.traceId == traceId then [a.entry] else [])
  {
    FilterSnoc((x: Add) => x.traceId == traceId, adds, a);
    hide Filter;
  }

  ghost predicate Ascending(s: seq<Entry>) {
    forall i, j :: 0 <= i < j < |s| ==> s[i].rank <= s[j].rank
  }

  class LineageTable {
    var lineage: map<string, seq<Entry>>
    /** All calls so far. */
    ghost var adds: seq<Add>

    ghost predicate Valid()
      reads this
    {
      Holds(lineage, adds)
    }

    constructor ()
      ensures Valid() && adds == []
    {
      lineage, adds := map[], [];
    }

    method AddChunkLineage(traceId: string, entry: Entry)
      requires Valid()
      modifies this
      ensures Valid() && adds == old(adds) + [Add(traceId, entry)]
    {
      hide EntriesOf;
      forall id: string
        ensures EntriesOf(adds + [Add(traceId, entry)], id)
             == EntriesOf(adds, id) + (if id != "" && traceId == id then [entry] else [])
      {
        EntriesSnoc(adds, Add(traceId, entry), id);
      }
      if traceId != "" {
        lineage := lineage[traceId := (if traceId in lineage then lineage[traceId] else []) + [entry]];
      }
      adds := adds + [Add(traceId, entry)];
    }

    /**
     A copy, sorted by rank: exactly the entries that were added for this trace. The
     stored entries stay in the order they came.
     */
    method GetLineageSources(traceId: string) returns (r: Option<seq<Entry>>)
      requires Valid()
      ensures r.None? <==> EntriesOf(adds, traceId) == []
      ensures r.Some? ==> multiset(r.value) == multiset(EntriesOf(adds, traceId)) && Ascending(r.value)
    {
      hide EntriesOf;
      if traceId !in lineage || lineage[traceId] == [] {
        return None;
      }
      var entries := lineage[traceId];
      var cp := new Entry[|entries|](i requires 0 <= i < |entries| => entries[i]);
      assert cp[..] == entries;
      SortDescending(cp, ByRank());
      RanksAscend(cp[..]);
      r := Some(cp[..]);
    }
  }

  lemma RanksAscend(s: seq<Entry>)
    requires Descending(ByRank(), s)
    ensures Ascending(s)
  {
    forall i, j | 0 <= i < j < |s|
      ensures s[i].rank <= s[j].rank
    {
      assert ByRank()(s[i]) >= ByRank()(s[j]);
    }
  }

  /** No two different entries have the same rank. */
  ghost predicate DistinctRanks(s: seq<Entry>) {
    forall x, y :: x in s && y in s && x.rank == y.rank ==> x == y
  }

  /**
   With distinct ranks that is one answer only, so it does not depend on the order in
   which chunks were reported, nor on what was reported for other traces.
   */
  lemma AnswerIsDetermined(adds: seq<Add>, others: seq<Add>, traceId: string, a: seq<Entry>, b: seq<Entry>)
    requires multiset(EntriesOf(adds, traceId)) == multiset(EntriesOf(others, traceId))
    requires DistinctRanks(EntriesOf(adds, traceId))
    requires multiset(a) == multiset(EntriesOf(adds, traceId)) && Ascending(a)
    requires multiset(b) == multiset(EntriesOf(others, traceId)) && Ascending(b)
    ensures a == b
  {
    hide EntriesOf;
    var own := EntriesOf(adds, traceId);
    forall x
      ensures x in a <==> x in own
    {
      assert x in multiset(a) <==> x in multiset(own);
    }
    SortedOnce(a, b);
  }

  lemma {:induction false} SortedOnce(a: seq<Entry>, b: seq<Entry>)
    requires multiset(a) == multiset(b) && Ascending(a) && Ascending(b) && DistinctRanks(a)
    ensures a == b
  {
    hide Ascending, DistinctRanks;
    assert |multiset(a)| == |multiset(b)|;
    if a == [] {
      assert b == [];
    } else {
      SameFirst(a, b);
      WithoutFirst(a);
      WithoutFirst(b);
      SortedOnce(a[1..], b[1..]);
      assert a == [a[0]] + a[1..] && b == [b[0]] + b[1..];
    }
  }

  lemma WithoutFirst(s: seq<Entry>)
    requires s != []
    ensures multiset(s[1..]) == multiset(s) - multiset{s[0]}
    ensures Ascending(s) ==> Ascending(s[1..])
    ensures DistinctRanks(s) ==> DistinctRanks(s[1..])
  {
    assert s == [s[0]] + s[1..];
  }

  lemma SameFirst(a: seq<Entry>, b: seq<Entry>)
    requires multiset(a) == multiset(b) && Ascending(a) && Ascending(b) && DistinctRanks(a)
    requires a != [] && b != []
    ensures a[0] == b[0]
  {
    assert b[0] in multiset(a) && a[0] in multiset(b);
    var i :| 0 <= i < |a| && a[i] == b[0];
    var j :| 0 <= j < |b| && b[j] == a[0];
    assert a[0].rank <= a[i].rank && b[0].rank <= b[j].rank;
  }
}
