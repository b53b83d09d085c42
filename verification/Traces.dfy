/** Trace assembly, internal/store/memory.go (UpsertTrace, RecentTraces): what a run of upserts makes of each trace. */
module Traces {
  import opened Models
  import opened Seqs

  datatype Span = Span(
    spanId: string,
    moduleName: string,
    eventType: string,
    startTime: Time,
    durationMs: int,
    status: string,
    data: map<string, string>)

  datatype Trace = Trace(
    traceId: string,
    requestId: string,
    tenantId: string,
    userId: string,
    pipelineType: string,
    modulesUsed: seq<string>,
    modulesSkipped: seq<string>,
    startTime: Time,
    endTime: Option<Time>,
    totalMs: int,
    status: string,
    spans: seq<Span>)

  const MAX_DURATION: int := 0x7FFF_FFFF_FFFF_FFFF
  const MIN_DURATION: int := -0x8000_0000_0000_0000
  const MILLISECOND: int := 1_000_000

  /** Time.Sub: a 64-bit duration, clamped. */
  function Sub(t: Time, u: Time): int {
    if t - u > MAX_DURATION then MAX_DURATION else if t - u < MIN_DURATION then MIN_DURATION else t - u
  }

  function ElapsedMs(start: Time, end: Time): int {
    TruncDiv(Sub(end, start), MILLISECOND)
  }

  function SpanOf(ev: BastionEvent): Span {
    Span(ev.spanId, ev.moduleName, ev.eventType, ev.timestamp, ev.durationMs, ev.status, ev.data)
  }

  function NewTrace(ev: BastionEvent): Trace {
    Trace(ev.traceId, ev.requestId, ev.tenantId, ev.userId, ev.pipelineType, ev.modulesUsed, ev.modulesSkipped,
          ev.timestamp, None, 0, "in_progress", [])
  }

  /** The status an event settles a trace on, if any. */
  function Verdict(ev: BastionEvent): Option<string> {
    if ev.status == "blocked" || ev.status == "error" then Some(ev.status)
    else if ev.moduleName == "llm" || ev.moduleName == "anchor" then Some("completed")
    else None
  }

  predicate IsFinal(status: string) {
    status == "completed" || status == "blocked" || status == "error"
  }

  function WithPipeline(t: Trace, ev: BastionEvent): Trace {
    if t.pipelineType != "" then t
    else t.(pipelineType := ev.pipelineType, modulesUsed := ev.modulesUsed, modulesSkipped := ev.modulesSkipped)
  }

  function WithStatus(t: Trace, ev: BastionEvent): Trace {
    if Verdict(ev).Some? then t.(status := Verdict(ev).value) else t
  }

  function WithEnd(t: Trace, ev: BastionEvent): Trace {
    if IsFinal(t.status) then t.(endTime := Some(ev.timestamp), totalMs := ElapsedMs(t.startTime, ev.timestamp)) else t
  }

  /** One event added to its trace. */
  function Extended(t: Trace, ev: BastionEvent): Trace {
    var u := WithPipeline(t, ev);
    WithEnd(WithStatus(u.(spans := u.spans + [SpanOf(ev)]), ev), ev)
  }

  function Upsert(m: map<string, Trace>, ev: BastionEvent): map<string, Trace> {
    if ev.traceId == "" then m
    else m[ev.traceId := Extended(if ev.traceId in m then m[ev.traceId] else NewTrace(ev), ev)]
  }

  /** What a run of upserts leaves. */
  function TracesAfter(events: seq<BastionEvent>): map<string, Trace> {
    if events == [] then map[] else Upsert(TracesAfter(events[..|events| - 1]), events[|events| - 1])
  }

  function Own(events: seq<BastionEvent>, id: string): seq<BastionEvent> {
    Filter((ev: BastionEvent) => ev.traceId == id, events)
  }

  // The closed form of one trace

  /** The event that fixes the pipeline: the first that names one, or else the last. */
  function PipelineEvent(own: seq<BastionEvent>): BastionEvent
    requires own != []
  {
    if |own| == 1 || own[0].pipelineType != "" then own[0] else PipelineEvent(own[1..])
  }

  /** The verdict of the last decisive event. */
  function LastVerdict(own: seq<BastionEvent>): Option<string> {
    if own == [] then None
    else
      var last := own[|own| - 1];
      if Verdict(last).Some? then Verdict(last) else LastVerdict(own[..|own| - 1])
  }

  /** A trace, written down from its own events. */
  function Assembled(own: seq<BastionEvent>): Trace
    requires own != []
  {
    var first, last, pipe := own[0], own[|own| - 1], PipelineEvent(own);
    var settled := LastVerdict(own);
    Trace(
      first.traceId, first.requestId, first.tenantId, first.userId,
      pipe.pipelineType, pipe.modulesUsed, pipe.modulesSkipped,
      first.timestamp,
      if settled.Some? then Some(last.timestamp) else None,
      if settled.Some? then ElapsedMs(first.timestamp, last.timestamp) else 0,
      if settled.Some? then settled.value else "in_progress",
      MapSeq(SpanOf, own))
  }

  lemma {:induction false} PipelineSnoc(own: seq<BastionEvent>, ev: BastionEvent)
    requires own != []
    ensures PipelineEvent(own + [ev]) == if PipelineEvent(own).pipelineType != "" then PipelineEvent(own) else ev
  {
    if own[0].pipelineType == "" {
      assert (own + [ev])[1..] == own[1..] + [ev];
      if |own| == 1 {
        assert own[1..] + [ev] == [ev];
      } else {
        PipelineSnoc(own[1..], ev);
      }
    }
  }

  lemma {:induction false} VerdictIsFinal(own: seq<BastionEvent>)
    ensures LastVerdict(own).Some? ==> IsFinal(LastVerdict(own).value)
  {
    if own != [] {
      VerdictIsFinal(own[..|own| - 1]);
    }
  }

  lemma VerdictSnoc(own: seq<BastionEvent>, ev: BastionEvent)
    ensures LastVerdict(own + [ev]) == if Verdict(ev).Some? then Verdict(ev) else LastVerdict(own)
  {
    assert (own + [ev])[..|own|] == own;
  }

  lemma SpansSnoc(own: seq<BastionEvent>, ev: BastionEvent)
    ensures MapSeq(SpanOf, own + [ev]) == MapSeq(SpanOf, own) + [SpanOf(ev)]
    ensures own == [] ==> MapSeq(SpanOf, own + [ev]) == [SpanOf(ev)]
  {
  }

  /** One more event of its own, seen from the closed form. */
  lemma AssembledSnoc(own: seq<BastionEvent>, ev: BastionEvent)
    ensures Assembled(own + [ev]) == Extended(if own != [] then Assembled(own) else NewTrace(ev), ev)
  {
    hide LastVerdict, MapSeq, ElapsedMs, SpanOf;
    VerdictIsFinal(own);
    VerdictSnoc(own, ev);
    SpansSnoc(own, ev);
    if own == [] {
      assert own + [ev] == [ev];
      NoVerdict();
    } else {
      PipelineSnoc(own, ev);
    }
  }

  lemma NoVerdict()
    ensures LastVerdict([]) == None
  {
  }

  /**
   Each trace is the fold of its own events alone: spans in order, start at the first,
   pipeline of the first that names one, status of the last decisive one, and once
   there is one, end and total of the last.
   */
  lemma {:induction false} TraceClosedForm(events: seq<BastionEvent>, id: string)
    requires id != ""
    ensures id in TracesAfter(events) <==> Own(events, id) != []
    ensures id in TracesAfter(events) ==> TracesAfter(events)[id] == Assembled(Own(events, id))
  {
    if events != [] {
      var before, ev := events[..|events| - 1], events[|events| - 1];
      assert events == before + [ev];
      FilterSnoc((e: BastionEvent) => e.traceId == id, before, ev);
      hide Extended, Assembled;
      TraceClosedForm(before, id);
      if ev.traceId == id {
        AssembledSnoc(Own(before, id), ev);
      } else {
        assert Own(before, id) + [] == Own(before, id);
      }
    }
  }

  // The same, in the terms of the events alone

  /** An event decides its trace when it is blocked or failed, or comes from the model or the anchor. */
  lemma {:induction false} LastDecision(own: seq<BastionEvent>, k: nat)
    requires k < |own|
    requires own[k].status in ["blocked", "error"] || own[k].moduleName in ["llm", "anchor"]
    requires forall j :: k < j < |own| ==>
      own[j].status !in ["blocked", "error"] && own[j].moduleName !in ["llm", "anchor"]
    ensures LastVerdict(own) == Some(if own[k].status in ["blocked", "error"] then own[k].status else "completed")
  {
    if k < |own| - 1 {
      LastDecision(own[..|own| - 1], k);
    }
  }

  lemma {:induction false} NoDecision(own: seq<BastionEvent>)
    requires forall ev <- own :: ev.status !in ["blocked", "error"] && ev.moduleName !in ["llm", "anchor"]
    ensures LastVerdict(own) == None
  {
    if own != [] {
      assert own[|own| - 1] in own;
      NoDecision(own[..|own| - 1]);
    }
  }

  /**
   The status of a trace is that of its last event that is blocked or failed, or
   "completed" if a later one comes from the model or the anchor; from then on its end
   and its length, cut to whole milliseconds, follow its last event.
   */
  lemma SettledTrace(events: seq<BastionEvent>, id: string, k: nat)
    requires id != ""
    requires var own := Filter((ev: BastionEvent) => ev.traceId == id, events);
      && k < |own|
      && (own[k].status in ["blocked", "error"] || own[k].moduleName in ["llm", "anchor"])
      && (forall j :: k < j < |own| ==>
            own[j].status !in ["blocked", "error"] && own[j].moduleName !in ["llm", "anchor"])
    ensures var own := Filter((ev: BastionEvent) => ev.traceId == id, events);
      && id in TracesAfter(events)
      && var t, ms := TracesAfter(events)[id], own[|own| - 1].timestamp - own[0].timestamp;
         && t.status == (if own[k].status in ["blocked", "error"] then own[k].status else "completed")
         && t.endTime == Some(own[|own| - 1].timestamp)
         && (0 <= ms < 0x8000_0000_0000_0000 ==> 1_000_000 * t.totalMs <= ms < 1_000_000 * (t.totalMs + 1))
         && (-0x8000_0000_0000_0000 <= ms <= 0 ==> 1_000_000 * (t.totalMs - 1) < ms <= 1_000_000 * t.totalMs)
         && (ms >= 0x8000_0000_0000_0000 ==> t.totalMs == 9_223_372_036_854)
         && (ms < -0x8000_0000_0000_0000 ==> t.totalMs == -9_223_372_036_854)
  {
    hide Filter, TracesAfter, PipelineEvent, LastVerdict, MapSeq;
    TraceClosedForm(events, id);
    LastDecision(Own(events, id), k);
  }

  /** Without such an event it is in progress and has no end. */
  lemma UnsettledTrace(events: seq<BastionEvent>, id: string)
    requires id in TracesAfter(events) && id != ""
    requires forall ev <- events :: ev.traceId == id ==>
      ev.status !in ["blocked", "error"] && ev.moduleName !in ["llm", "anchor"]
    ensures var t := TracesAfter(events)[id];
      t.status == "in_progress" && t.endTime == None && t.totalMs == 0
  {
    FilterMembers((ev: BastionEvent) => ev.traceId == id, events);
    hide Filter, TracesAfter, PipelineEvent, LastVerdict, MapSeq;
    TraceClosedForm(events, id);
    NoDecision(Own(events, id));
  }

  /** Its identity and start are those of its first event, and each event has become one span. */
  lemma TraceOfEvents(events: seq<BastionEvent>, id: string)
    requires id in TracesAfter(events) && id != ""
    ensures var own := Filter((ev: BastionEvent) => ev.traceId == id, events);
      var t := TracesAfter(events)[id];
      && own != [] && |t.spans| == |own|
      && t.traceId == id && t.requestId == own[0].requestId && t.tenantId == own[0].tenantId
      && t.userId == own[0].userId && t.startTime == own[0].timestamp
      && forall k :: 0 <= k < |own| ==>
           && t.spans[k].spanId == own[k].spanId && t.spans[k].moduleName == own[k].moduleName
           && t.spans[k].eventType == own[k].eventType && t.spans[k].startTime == own[k].timestamp
           && t.spans[k].durationMs == own[k].durationMs && t.spans[k].status == own[k].status
           && t.spans[k].data == own[k].data
  {
    FilterMembers((ev: BastionEvent) => ev.traceId == id, events);
    hide Filter, TracesAfter, PipelineEvent, LastVerdict;
    TraceClosedForm(events, id);
    assert Own(events, id)[0] in Own(events, id);
  }

  /** Its pipeline is that of its first event that names one. */
  lemma PipelineOfTrace(events: seq<BastionEvent>, id: string, k: nat)
    requires id != ""
    requires var own := Filter((ev: BastionEvent) => ev.traceId == id, events);
      k < |own| && own[k].pipelineType != "" && forall j :: 0 <= j < k ==> own[j].pipelineType == ""
    ensures var own := Filter((ev: BastionEvent) => ev.traceId == id, events);
      && id in TracesAfter(events)
      && TracesAfter(events)[id].pipelineType == own[k].pipelineType
      && TracesAfter(events)[id].modulesUsed == own[k].modulesUsed
      && TracesAfter(events)[id].modulesSkipped == own[k].modulesSkipped
  {
    hide Filter, TracesAfter, PipelineEvent, LastVerdict, MapSeq;
    TraceClosedForm(events, id);
    FirstNamed(Own(events, id), k);
  }

  /** Or none, and the modules of its last event, if none of its events names one. */
  lemma NoPipelineNamed(events: seq<BastionEvent>, id: string)
    requires id in TracesAfter(events) && id != ""
    requires forall ev <- events :: ev.traceId == id ==> ev.pipelineType == ""
    ensures var own := Filter((ev: BastionEvent) => ev.traceId == id, events);
      && own != []
      && TracesAfter(events)[id].pipelineType == ""
      && TracesAfter(events)[id].modulesUsed == own[|own| - 1].modulesUsed
      && TracesAfter(events)[id].modulesSkipped == own[|own| - 1].modulesSkipped
  {
    FilterMembers((ev: BastionEvent) => ev.traceId == id, events);
    hide Filter, TracesAfter, PipelineEvent, LastVerdict, MapSeq;
    TraceClosedForm(events, id);
    NoneNamed(Own(events, id));
    assert Own(events, id)[|Own(events, id)| - 1] in Own(events, id);
  }

  lemma {:induction false} NoneNamed(own: seq<BastionEvent>)
    requires own != [] && forall ev <- own :: ev.pipelineType == ""
    ensures PipelineEvent(own) == own[|own| - 1]
  {
    assert own[0] in own;
    if |own| > 1 {
      NoneNamed(own[1..]);
    }
  }

  lemma {:induction false} FirstNamed(own: seq<BastionEvent>, k: nat)
    requires k < |own| && own[k].pipelineType != "" && forall j :: 0 <= j < k ==> own[j].pipelineType == ""
    ensures PipelineEvent(own) == own[k]
  {
    if k > 0 {
      FirstNamed(own[1..], k - 1);
    }
  }

  /** No decisive event is ever undone: a settled trace never returns to in_progress. */
  lemma StaysSettled(m: map<string, Trace>, ev: BastionEvent, id: string)
    requires id in m && IsFinal(m[id].status)
    ensures id in Upsert(m, ev) && IsFinal(Upsert(m, ev)[id].status)
  {
  }

  /** Upserts to different traces commute. */
  lemma UpsertsCommute(m: map<string, Trace>, a: BastionEvent, b: BastionEvent)
    requires a.traceId != b.traceId
    ensures Upsert(Upsert(m, a), b) == Upsert(Upsert(m, b), a)
  {
    hide Extended;
  }

  /** So a run may be reordered freely as long as each trace sees its own events in order. */
  lemma OnlyOwnOrderMatters(events: seq<BastionEvent>, others: seq<BastionEvent>)
    requires forall id :: id != "" ==> Own(events, id) == Own(others, id)
    ensures TracesAfter(events) == TracesAfter(others)
  {
    hide Own, Assembled, TracesAfter;
    forall id: string
      ensures (id in TracesAfter(events) <==> id in TracesAfter(others))
        && (id in TracesAfter(events) ==> TracesAfter(events)[id] == TracesAfter(others)[id])
    {
      if id != "" {
        TraceClosedForm(events, id);
        TraceClosedForm(others, id);
      } else {
        NoEmptyId(events);
        NoEmptyId(others);
      }
    }
  }

  lemma {:induction false} NoEmptyId(events: seq<BastionEvent>)
    ensures "" !in TracesAfter(events)
  {
    hide Extended;
    if events != [] {
      NoEmptyId(events[..|events| - 1]);
    }
  }

  /** And in any order at all, the same events give every trace the same spans. */
  lemma SpansOfPermutation(events: seq<BastionEvent>, others: seq<BastionEvent>, id: string)
    requires multiset(events) == multiset(others) && id != ""
    ensures id in TracesAfter(events) <==> id in TracesAfter(others)
    ensures id in TracesAfter(events) ==>
      multiset(TracesAfter(events)[id].spans) == multiset(TracesAfter(others)[id].spans)
  {
    hide TracesAfter;
    TraceClosedForm(events, id);
    TraceClosedForm(others, id);
    var own, theirs := Own(events, id), Own(others, id);
    FilterPermutes((e: BastionEvent) => e.traceId == id, events, others);
    assert multiset(own) == multiset(theirs);
    MapMultiset(SpanOf, own, theirs);
    assert own == [] <==> theirs == [] by {
      assert |multiset(own)| == |multiset(theirs)|;
    }
  }
}
