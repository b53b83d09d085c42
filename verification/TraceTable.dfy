/** The trace table of internal/store/memory.go: pointers to trace records that are updated in place. */
module TraceTable {
  import opened Models
  import opened Seqs
  import opened TopK
  import opened Traces

  /** What a *Trace points to. */
  class Record {
    var value: Trace

    constructor (t: Trace)
      ensures value == t
    {
      value := t;
    }

    /** The body of UpsertTrace on the record it has found or made. */
    method Extend(ev: BastionEvent)
      modifies this
      ensures value == Extended(old(value), ev)
    {
      if value.pipelineType == "" {
        value := value.(pipelineType := ev.pipelineType, modulesUsed := ev.modulesUsed,
          modulesSkipped := ev.modulesSkipped);
      }
      value := value.(spans := value.spans + [SpanOf(ev)]);
      if ev.status == "blocked" || ev.status == "error" {
        value := value.(status := ev.status);
      } else if ev.moduleName == "llm" || ev.moduleName == "anchor" {
        value := value.(status := "completed");
      }
      if value.status == "completed" || value.status == "blocked" || value.status == "error" {
        value := value.(endTime := Some(ev.timestamp), totalMs := ElapsedMs(value.startTime, ev.timestamp));
      }
    }
  }

  /** matchTrace. */
  predicate MatchesTrace(t: Trace, q: Query) {
    && (q.traceId != "" ==> t.traceId == q.traceId)
    && (q.userId != "" ==> t.userId == q.userId)
    && (q.tenantId != "" ==> t.tenantId == q.tenantId)
    && (q.status != "" ==> t.status == q.status)
    && (q.since != ZERO_TIME ==> t.startTime >= q.since)
  }

  function MatchingTrace(q: Query): Trace -> bool {
    (t: Trace) => MatchesTrace(t, q)
  }

  /** A query with no field set selects every trace. */
  lemma UnsetSelectsAll(ts: seq<Trace>)
    ensures Filter(MatchingTrace(Query("", "", "", "", "", "", ZERO_TIME, ZERO_TIME)), ts) == ts
  {
    FilterAll(MatchingTrace(ANY_QUERY), ts);
  }

  /** Setting a field narrows it to the traces that hold this value in it. */
  lemma IdentityNarrows(q: Query, v: string, ts: seq<Trace>)
    requires v != ""
    ensures Filter(MatchingTrace(q.(traceId := v)), ts)
      == Filter((t: Trace) => t.traceId == v, Filter(MatchingTrace(q.(traceId := "")), ts))
    ensures Filter(MatchingTrace(q.(userId := v)), ts)
      == Filter((t: Trace) => t.userId == v, Filter(MatchingTrace(q.(userId := "")), ts))
    ensures Filter(MatchingTrace(q.(tenantId := v)), ts)
      == Filter((t: Trace) => t.tenantId == v, Filter(MatchingTrace(q.(tenantId := "")), ts))
  {
    FilterFurther(
      MatchingTrace(q.(traceId := "")), (t: Trace) => t.traceId == v, MatchingTrace(q.(traceId := v)), ts);
    FilterFurther(MatchingTrace(q.(userId := "")), (t: Trace) => t.userId == v, MatchingTrace(q.(userId := v)), ts);
    FilterFurther(
      MatchingTrace(q.(tenantId := "")), (t: Trace) => t.tenantId == v, MatchingTrace(q.(tenantId := v)), ts);
  }

  lemma StatusAndStartNarrow(q: Query, v: string, since: Time, ts: seq<Trace>)
    requires v != "" && since != ZERO_TIME
    ensures Filter(MatchingTrace(q.(status := v)), ts)
      == Filter((t: Trace) => t.status == v, Filter(MatchingTrace(q.(status := "")), ts))
    ensures Filter(MatchingTrace(q.(since := since)), ts)
      == Filter((t: Trace) => t.startTime >= since, Filter(MatchingTrace(q.(since := ZERO_TIME)), ts))
  {
    FilterFurther(MatchingTrace(q.(status := "")), (t: Trace) => t.status == v, MatchingTrace(q.(status := v)), ts);
    FilterFurther(
      MatchingTrace(q.(since := ZERO_TIME)), (t: Trace) => t.startTime >= since, MatchingTrace(q.(since := since)), ts);
  }

  /** No other field of a query matters to traces. */
  lemma OtherFieldsIgnored(q: Query, moduleName: string, severity: string, until: Time, ts: seq<Trace>)
    ensures Filter(MatchingTrace(q.(moduleName := moduleName, severity := severity, until := until)), ts)
      == Filter(MatchingTrace(q), ts)
  {
    FilterSame(
      MatchingTrace(q.(moduleName := moduleName, severity := severity, until := until)), MatchingTrace(q), ts);
  }

  function StartOf(t: Trace): int {
    t.startTime
  }

  /** The traces of a table, listed in the order the map is ranged over. */
  function Listed(m: map<string, Trace>, order: seq<string>): seq<Trace> {
    MapSeq((id: string) => if id in m then m[id] else NewTrace(ZERO_EVENT), order)
  }

  /** All traces that match. */
  ghost function AllMatching(m: map<string, Trace>, q: Query): multiset<Trace> {
    multiset(Filter(MatchingTrace(q), Listed(m, SomeOrder(m.Keys))))
  }

  /** It does not matter in which order they are found. */
  lemma MatchingInAnyOrder(m: map<string, Trace>, q: Query, order: seq<string>)
    requires Enumerates(order, m.Keys)
    ensures multiset(Filter(MatchingTrace(q), Listed(m, order))) == AllMatching(m, q)
  {
    SomeOrderEnumerates(m.Keys);
    EnumerationsPermute(order, SomeOrder(m.Keys), m.Keys);
    MapMultiset((id: string) => if id in m then m[id] else NewTrace(ZERO_EVENT), order, SomeOrder(m.Keys));
    FilterPermutes(MatchingTrace(q), Listed(m, order), Listed(m, SomeOrder(m.Keys)));
  }

  function TraceLimit(limit: int): (r: nat)
    ensures (limit <= 0 ==> r == 50) && (limit > 0 ==> r == limit)
  {
    if limit <= 0 then 50 else limit
  }

  lemma NewestFirst(ts: seq<Trace>)
    requires Descending(StartOf, ts)
    ensures forall i, j :: 0 <= i < j < |ts| ==> ts[i].startTime >= ts[j].startTime
  {
    forall i, j | 0 <= i < j < |ts|
      ensures ts[i].startTime >= ts[j].startTime
    {
      assert StartOf(ts[i]) >= StartOf(ts[j]);
    }
  }

  /** A matching trace that is left out started no later than any trace that is listed. */
  lemma OmittedTracesAreOlder(m: map<string, Trace>, q: Query, limit: int, top: seq<Trace>, id: string, listed: Trace)
    requires IsTop(StartOf, TraceLimit(limit), AllMatching(m, q), multiset(top))
    requires id in m && m[id] in Filter(MatchingTrace(q), [m[id]]) && m[id] !in top && listed in top
    ensures m[id].startTime <= listed.startTime
    ensures |top| == if limit <= 0 then 50 else limit
  {
    MatchingIsListed(m, q, id);
    hide AllMatching, IsTop, Filter;
    assert m[id] !in multiset(top) && listed in multiset(top);
    OmittedIsBelow(StartOf, TraceLimit(limit), AllMatching(m, q), multiset(top), m[id], listed);
  }

  lemma MatchingIsListed(m: map<string, Trace>, q: Query, id: string)
    requires id in m && m[id] in Filter(MatchingTrace(q), [m[id]])
    ensures m[id] in AllMatching(m, q)
  {
    FilterMembers(MatchingTrace(q), [m[id]]);
    hide Filter;
    var order := SomeOrder(m.Keys);
    SomeOrderEnumerates(m.Keys);
    var i :| 0 <= i < |order| && order[i] == id;
    assert Listed(m, order)[i] == m[id];
    FilterKeeps(MatchingTrace(q), Listed(m, order), m[id]);
  }

  class Table {
    var traces: map<string, Record>
    ghost var owner: map<Record, string>

    ghost predicate Valid()
      reads this
    {
      forall id <- traces :: traces[id] in owner && owner[traces[id]] == id
    }

    ghost function Contents(): map<string, Trace>
      requires Valid()
      reads this, owner.Keys
    {
      map id | id in traces :: traces[id].value
    }

    constructor ()
      ensures Valid() && Contents() == map[] && owner == map[]
    {
      traces, owner := map[], map[];
    }

    method UpsertTrace(ev: BastionEvent)
      requires Valid()
      modifies this, owner.Keys
      ensures Valid() && fresh(owner.Keys - old(owner.Keys))
      ensures Contents() == Upsert(old(Contents()), ev)
    {
      hide Extended, NewTrace;
      if ev.traceId == "" {
        return;
      }
      if ev.traceId !in traces {
        var r := new Record(NewTrace(ev));
        traces := traces[ev.traceId := r];
        owner := owner[r := ev.traceId];
      }
      traces[ev.traceId].Extend(ev);
    }

    /** The newest traces that match, newest start first, whatever the order of the map. */
    method RecentTraces(q: Query, limit: int) returns (out: seq<Trace>)
      requires Valid()
      ensures Descending(StartOf, out)
      ensures forall i, j :: 0 <= i < j < |out| ==> out[i].startTime >= out[j].startTime
      ensures IsTop(StartOf, TraceLimit(limit), AllMatching(Contents(), q), multiset(out))
    {
      hide IsTop, Descending, AllMatching, Filter, Listed, Enumerates;
      var found, order := Collect(q);
      out := TopOf(found, StartOf, TraceLimit(limit));
      MatchingInAnyOrder(Contents(), q, order);
      NewestFirst(out);
    }

    method Collect(q: Query) returns (found: seq<Trace>, ghost order: seq<string>)
      requires Valid()
      ensures Enumerates(order, Contents().Keys)
      ensures found == Filter(MatchingTrace(q), Listed(Contents(), order))
    {
      hide Valid, Filter;
      found, order := [], [];
      ghost var m := Contents();
      NothingListed(m, q);
      var left := traces.Keys;
      while left != {}
        invariant left <= traces.Keys == m.Keys
        invariant Enumerates(order, traces.Keys - left)
        invariant found == Filter(MatchingTrace(q), Listed(m, order))
      {
        var id :| id in left;
        assert Listed(m, order + [id]) == Listed(m, order) + [m[id]];
        FilterSnoc(MatchingTrace(q), Listed(m, order), m[id]);
        if MatchesTrace(traces[id].value, q) {
          found := found + [traces[id].value];
        }
        order := order + [id];
        left := left - {id};
      }
    }
  }

  lemma NothingListed(m: map<string, Trace>, q: Query)
    ensures Filter(MatchingTrace(q), Listed(m, [])) == []
  {
  }
}
