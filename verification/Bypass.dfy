/** The bypass monitor of internal/bypass/monitor.go: pipeline downgrades and skipped vaults, per tenant. */
module Bypass {
  import opened Models
  import opened Seqs
  import opened Slices

  const MIN_PRIOR := 10

  datatype Entry = Entry(pipelineType: string, at: Time)

  datatype Kind = VaultSkipped | PipelineDowngrade

  /** What survives the pruning: entries younger than an hour of the clock. */
  function Live(now: Time): Entry -> bool {
    (e: Entry) => e.at > now - HOUR
  }

  function IsFull(): Entry -> bool {
    (e: Entry) => e.pipelineType == "full"
  }

  function FullCount(entries: seq<Entry>): nat {
    |Filter(IsFull(), entries)|
  }

  /** A sensitive label, on an event that skipped the vault. */
  predicate SkipsVault(sensitive: set<string>, ev: BastionEvent) {
    "vault" in ev.modulesSkipped && exists k <- ev.labels.Keys :: k in sensitive
  }

  /** At least ten entries, 90% of them full, and now something less. */
  predicate Downgrades(prior: seq<Entry>, ev: BastionEvent) {
    && (ev.pipelineType == "lite" || ev.pipelineType == "minimal")
    && |prior| >= MIN_PRIOR
    && 10 * FullCount(prior) >= 9 * |prior|
  }

  function Judge(sensitive: set<string>, prior: seq<Entry>, ev: BastionEvent): Option<Kind> {
    if SkipsVault(sensitive, ev) then Some(VaultSkipped)
    else if Downgrades(prior, ev) then Some(PipelineDowngrade)
    else None
  }

  predicate Concerns(ev: BastionEvent) {
    ev.tenantId != "" && ev.pipelineType != ""
  }

  function Prior(history: map<string, seq<Entry>>, ev: BastionEvent, now: Time): seq<Entry> {
    Filter(Live(now), if ev.tenantId in history then history[ev.tenantId] else [])
  }

  /** The histories after a check. */
  function Checked(history: map<string, seq<Entry>>, ev: BastionEvent, now: Time): map<string, seq<Entry>> {
    if !Concerns(ev) then history
    else history[ev.tenantId := Prior(history, ev, now) + [Entry(ev.pipelineType, ev.timestamp)]]
  }

  /** What a check reports. */
  function Reported(
    sensitive: set<string>, history: map<string, seq<Entry>>, ev: BastionEvent, now: Time): Option<Kind>
  {
    if !Concerns(ev) then None else Judge(sensitive, Prior(history, ev, now), ev)
  }

  /** The event made of a finding. */
  function Alarm(kind: Kind, trigger: BastionEvent, now: Time): BastionEvent {
    ZERO_EVENT.(
      moduleName := "security",
      eventType := "bypass_anomaly_detected",
      severity := "warning",
      status := "error",
      timestamp := now,
      tenantId := trigger.tenantId,
      userId := trigger.userId,
      traceId := trigger.traceId,
      data := map[
        "anomaly_type" :=
          if kind == VaultSkipped then "sensitive_label_vault_skipped" else "pipeline_downgrade_anomaly",
        "trigger_event_id" := trigger.eventId,
        "pipeline_type" := trigger.pipelineType])
  }

  class Monitor {
    const sensitive: set<string>
    const history: WindowTable<string, Entry>

    ghost predicate Valid()
      reads history, history.Repr
    {
      history.Valid()
    }

    constructor (sensitive: set<string>)
      ensures Valid() && fresh(history) && history.Repr == {} && history.contents == map[]
        && this.sensitive == sensitive
    {
      this.sensitive := sensitive;
      history := new WindowTable();
    }

    method Check(ev: BastionEvent, now: Time) returns (alarm: Option<BastionEvent>)
      requires Valid()
      modifies history, history.Repr
      ensures Valid() && fresh(history.Repr - old(history.Repr))
      ensures history.contents == Checked(old(history.contents), ev, now)
      ensures var kind := Reported(sensitive, old(history.contents), ev, now);
        alarm == if kind.Some? then Some(Alarm(kind.value, ev, now)) else None
    {
      hide Filter, Judge, Alarm;
      alarm := None;
      if ev.tenantId == "" || ev.pipelineType == "" {
        return;
      }
      ghost var prior := Prior(history.contents, ev, now);
      var n := history.PruneAppend(ev.tenantId, Live(now), Entry(ev.pipelineType, ev.timestamp));
      var kind := Look(ev, history.entries[ev.tenantId], n - 1, prior);
      if kind.Some? {
        alarm := Some(Alarm(kind.value, ev, now));
      }
    }

    /** The skipped vault first, and only then the downgrade against the entries before this one. */
    method Look(ev: BastionEvent, s: Slice<Entry>, n: nat, ghost prior: seq<Entry>) returns (kind: Option<Kind>)
      requires n < s.len <= s.data.Length && s.data[..n] == prior
      ensures kind == Judge(sensitive, prior, ev)
    {
      hide FullCount, SkipsVault;
      kind := None;
      var skips := FindSkip(ev);
      if skips {
        kind := Some(VaultSkipped);
      } else if ev.pipelineType == "lite" || ev.pipelineType == "minimal" {
        var full := CountFull(s, n, prior);
        if n >= MIN_PRIOR && 10 * full >= 9 * n {
          kind := Some(PipelineDowngrade);
        }
      }
    }

    /** Ranges over the labels and the skipped modules until both are found. */
    method FindSkip(ev: BastionEvent) returns (skips: bool)
      ensures skips <==> SkipsVault(sensitive, ev)
    {
      skips := false;
      if sensitive == {} || ev.modulesSkipped == [] {
        return;
      }
      var left := ev.labels.Keys;
      while left != {}
        invariant left <= ev.labels.Keys
        invariant forall k <- ev.labels.Keys - left :: !(k in sensitive && "vault" in ev.modulesSkipped)
      {
        var k :| k in left;
        if k in sensitive && "vault" in ev.modulesSkipped {
          return true;
        }
        left := left - {k};
      }
    }

    /** The full entries among the first n. */
    static method CountFull(s: Slice<Entry>, n: nat, ghost prior: seq<Entry>) returns (full: nat)
      requires n < s.len <= s.data.Length && s.data[..n] == prior
      ensures full == FullCount(prior)
    {
      full := 0;
      for i := 0 to n
        invariant full == FullCount(prior[..i])
      {
        var e := s.data[i];
        assert e == prior[i] by { assert s.data[..n][i] == e; }
        assert prior[..i + 1] == prior[..i] + [e];
        FilterSnoc(IsFull(), prior[..i], e);
        if e.pipelineType == "full" {
          full := full + 1;
        }
      }
      assert prior[..n] == prior;
    }
  }

  /** An alarm is inert: fed back, it is not checked, whatever the histories. */
  lemma AlarmsAreInert(
    sensitive: set<string>, history: map<string, seq<Entry>>, kind: Kind, trigger: BastionEvent, at: Time, now: Time)
    ensures Checked(history, Alarm(kind, trigger, at), now) == history
    ensures Reported(sensitive, history, Alarm(kind, trigger, at), now) == None
  {
    assert Alarm(kind, trigger, at).pipelineType == "";
  }

  // Runs

  /** An event and the time of its check. */
  datatype Arrival = Arrival(ev: BastionEvent, now: Time)

  function After(history: map<string, seq<Entry>>, arrivals: seq<Arrival>): map<string, seq<Entry>> {
    if arrivals == [] then history
    else
      var last := arrivals[|arrivals| - 1];
      Checked(After(history, arrivals[..|arrivals| - 1]), last.ev, last.now)
  }

  /** What the m-th of them reports. */
  function ReportAt(
    sensitive: set<string>, history: map<string, seq<Entry>>, arrivals: seq<Arrival>, m: nat): Option<Kind>
    requires m < |arrivals|
  {
    Reported(sensitive, After(history, arrivals[..m]), arrivals[m].ev, arrivals[m].now)
  }

  function EntryOf(): Arrival -> Entry {
    (a: Arrival) => Entry(a.ev.pipelineType, a.ev.timestamp)
  }

  // Any run

  /** The checks that concern this tenant. */
  function OfTenant(tenant: string): Arrival -> bool {
    (a: Arrival) => a.ev.tenantId == tenant && a.ev.pipelineType != ""
  }

  /** The entries of these checks that no later one of them has pruned. */
  function Unpruned(own: seq<Arrival>): seq<Entry> {
    if own == [] then [] else Kept(own[0], own[1..]) + Unpruned(own[1..])
  }

  /** The entry of a check, if it is younger than an hour by the clock of every later one. */
  function Kept(first: Arrival, later: seq<Arrival>): seq<Entry> {
    if forall b <- later :: first.ev.timestamp > b.now - 3600 * 1_000_000_000 then [EntryOf()(first)] else []
  }

  lemma KeptSnoc(first: Arrival, later: seq<Arrival>, a: Arrival)
    ensures Kept(first, later + [a]) == Filter(Live(a.now), Kept(first, later))
  {
    FilterSnoc(Live(a.now), [], EntryOf()(first));
    assert [] + [EntryOf()(first)] == [EntryOf()(first)];
    assert forall b :: b in later + [a] <==> b in later || b == a;
  }

  lemma {:induction false} UnprunedSnoc(own: seq<Arrival>, a: Arrival)
    ensures Unpruned(own + [a]) == Filter(Live(a.now), Unpruned(own)) + [EntryOf()(a)]
  {
    hide Kept, EntryOf;
    if own == [] {
      KeptAlone(a);
      assert [] + [a] == [a] && [a][1..] == [];
      assert Unpruned([a]) == Kept(a, []) + Unpruned([]);
    } else {
      var later, keep := own[1..], Live(a.now);
      assert (own + [a])[1..] == later + [a];
      UnprunedSnoc(later, a);
      KeptSnoc(own[0], later, a);
      hide Filter;
      FilterConcat(keep, Kept(own[0], later), Unpruned(later));
    }
  }

  lemma KeptAlone(a: Arrival)
    ensures Kept(a, []) == [EntryOf()(a)]
  {
  }

  /**
   Closed form: after any run of checks, whatever the order of their times, a tenant's
   history holds exactly those of its own entries whose time is less than an hour before
   the clock of each later check of its own.
   */
  lemma {:induction false} HistoryClosedForm(arrivals: seq<Arrival>, tenant: string)
    requires tenant != ""
    ensures HeldFor(After(map[], arrivals), tenant) == Unpruned(Filter(OfTenant(tenant), arrivals))
  {
    hide Unpruned;
    if arrivals == [] {
      NoneUnpruned();
    } else {
      var before, a := arrivals[..|arrivals| - 1], arrivals[|arrivals| - 1];
      var own := Filter(OfTenant(tenant), before);
      assert arrivals == before + [a];
      HistoryClosedForm(before, tenant);
      FilterSnoc(OfTenant(tenant), before, a);
      hide Filter;
      UnprunedSnoc(own, a);
      assert own + [] == own;
    }
  }

  function HeldFor(history: map<string, seq<Entry>>, tenant: string): seq<Entry> {
    if tenant in history then history[tenant] else []
  }

  lemma NoneUnpruned()
    ensures Unpruned([]) == []
  {
  }

  /**
   Exactly when a check reports what. A skipped vault: the event skipped the vault and
   carries a sensitive label. A downgrade: it did not, asks for less than the full
   pipeline, and of the ten or more unpruned entries before it nine tenths are full.
   */
  lemma ReportedIff(sensitive: set<string>, arrivals: seq<Arrival>, a: Arrival)
    ensures var reported := Reported(sensitive, After(map[], arrivals), a.ev, a.now);
      var entries := Unpruned(Filter(OfTenant(a.ev.tenantId), arrivals + [a]));
      var concerned := a.ev.tenantId != "" && a.ev.pipelineType != "";
      var skipped := "vault" in a.ev.modulesSkipped && exists k <- a.ev.labels.Keys :: k in sensitive;
      && (reported == Some(VaultSkipped) <==> concerned && skipped)
      && (reported == Some(PipelineDowngrade) <==>
            && concerned && !skipped && (a.ev.pipelineType == "lite" || a.ev.pipelineType == "minimal")
            && |entries| > 10
            && 10 * |Filter((e: Entry) => e.pipelineType == "full", entries[..|entries| - 1])| >= 9 * (|entries| - 1))
  {
    hide After, Unpruned;
    if a.ev.tenantId != "" && a.ev.pipelineType != "" {
      var own := Filter(OfTenant(a.ev.tenantId), arrivals);
      HistoryClosedForm(arrivals, a.ev.tenantId);
      FilterSnoc(OfTenant(a.ev.tenantId), arrivals, a);
      UnprunedSnoc(own, a);
      var prior := Filter(Live(a.now), Unpruned(own));
      assert (prior + [EntryOf()(a)])[..|prior|] == prior;
      FilterSame(IsFull(), (e: Entry) => e.pipelineType == "full", prior);
    }
  }

  /** What an alarm says: about the tenant, user and trace of the event that triggered it. */
  lemma AlarmSays(kind: Kind, trigger: BastionEvent, now: Time)
    ensures var alarm := Alarm(kind, trigger, now);
      && alarm.moduleName == "security" && alarm.eventType == "bypass_anomaly_detected"
      && alarm.severity == "warning" && alarm.status == "error" && alarm.timestamp == now
      && alarm.tenantId == trigger.tenantId && alarm.userId == trigger.userId && alarm.traceId == trigger.traceId
      && alarm.data.Keys == {"anomaly_type", "trigger_event_id", "pipeline_type"}
      && alarm.data["trigger_event_id"] == trigger.eventId && alarm.data["pipeline_type"] == trigger.pipelineType
      && alarm.data["anomaly_type"] ==
           match kind
           case VaultSkipped => "sensitive_label_vault_skipped"
           case PipelineDowngrade => "pipeline_downgrade_anomaly"
  {
  }

  // A run of downgraded events

  /** A tenant's run of lite and minimal events, none of them sensitive, and nothing old enough to be pruned. */
  ghost predicate DowngradedRun(sensitive: set<string>, tenant: string, start: seq<Entry>, arrivals: seq<Arrival>) {
    && tenant != ""
    && (forall a <- arrivals ::
          a.ev.tenantId == tenant && (a.ev.pipelineType == "lite" || a.ev.pipelineType == "minimal"))
    && (forall a <- arrivals :: !SkipsVault(sensitive, a.ev))
    && (forall a <- arrivals, e <- start + MapSeq(EntryOf(), arrivals) :: Live(a.now)(e))
  }

  lemma {:induction false} RunHistory(
    sensitive: set<string>, tenant: string, history: map<string, seq<Entry>>, start: seq<Entry>,
    arrivals: seq<Arrival>, m: nat)
    requires m <= |arrivals| && tenant in history && history[tenant] == start
    requires DowngradedRun(sensitive, tenant, start, arrivals)
    ensures tenant in After(history, arrivals[..m])
    ensures After(history, arrivals[..m])[tenant] == start + MapSeq(EntryOf(), arrivals[..m])
  {
    hide SkipsVault, Checked, DowngradedRun, MapSeq;
    if m == 0 {
      assert arrivals[..0] == [];
      NoEntries(start);
    } else {
      RunHistory(sensitive, tenant, history, start, arrivals, m - 1);
      var before, last := arrivals[..m - 1], arrivals[m - 1];
      assert arrivals[..m][..m - 1] == before;
      assert arrivals[..m] == before + [last];
      CheckedLive(sensitive, tenant, After(history, before), start, arrivals, m - 1);
      EntriesSnoc(start, before, last);
    }
  }

  lemma NoEntries(start: seq<Entry>)
    ensures start + MapSeq(EntryOf(), []) == start
  {
  }

  lemma EntriesSnoc(start: seq<Entry>, before: seq<Arrival>, last: Arrival)
    ensures start + MapSeq(EntryOf(), before + [last]) == (start + MapSeq(EntryOf(), before)) + [EntryOf()(last)]
  {
  }

  /** One check of such a run prunes nothing. */
  lemma CheckedLive(
    sensitive: set<string>, tenant: string, history: map<string, seq<Entry>>, start: seq<Entry>, arrivals: seq<Arrival>,
    m: nat)
    requires m < |arrivals| && DowngradedRun(sensitive, tenant, start, arrivals)
    requires tenant in history && history[tenant] == start + MapSeq(EntryOf(), arrivals[..m])
    ensures var after := Checked(history, arrivals[m].ev, arrivals[m].now);
      tenant in after && after[tenant] == history[tenant] + [EntryOf()(arrivals[m])]
  {
    KeepsAll(sensitive, tenant, start, arrivals, m);
    hide SkipsVault, MapSeq, Live;
    assert arrivals[m] in arrivals;
  }

  lemma KeepsAll(sensitive: set<string>, tenant: string, start: seq<Entry>, arrivals: seq<Arrival>, m: nat)
    requires m < |arrivals| && DowngradedRun(sensitive, tenant, start, arrivals)
    ensures var held := start + MapSeq(EntryOf(), arrivals[..m]);
      Filter(Live(arrivals[m].now), held) == held
  {
    var held, all := start + MapSeq(EntryOf(), arrivals[..m]), start + MapSeq(EntryOf(), arrivals);
    forall e <- held
      ensures Live(arrivals[m].now)(e)
    {
      var i :| 0 <= i < |held| && held[i] == e;
      assert all[i] == e && all[i] in all && arrivals[m] in arrivals;
    }
    FilterAll(Live(arrivals[m].now), held);
  }

  /** The full entries are those the tenant started with. */
  lemma FullAtStart(sensitive: set<string>, tenant: string, start: seq<Entry>, arrivals: seq<Arrival>, m: nat)
    requires m <= |arrivals| && DowngradedRun(sensitive, tenant, start, arrivals)
    ensures FullCount(start + MapSeq(EntryOf(), arrivals[..m])) == FullCount(start)
  {
    var added := MapSeq(EntryOf(), arrivals[..m]);
    FilterConcat(IsFull(), start, added);
    forall e <- added
      ensures !IsFull()(e)
    {
      var i :| 0 <= i < m && added[i] == e;
      assert arrivals[i] in arrivals;
    }
    FilterNone(IsFull(), added);
  }

  /**
   Whatever the tenant's history, the m-th of a run of lite and minimal events is
   reported exactly if by then there are ten entries and nine tenths of them are full.
   */
  lemma DowngradeReports(
    sensitive: set<string>, tenant: string, history: map<string, seq<Entry>>, start: seq<Entry>,
    arrivals: seq<Arrival>, m: nat)
    requires m < |arrivals| && tenant in history && history[tenant] == start
    requires DowngradedRun(sensitive, tenant, start, arrivals)
    ensures ReportAt(sensitive, history, arrivals, m)
      == if |start| + m >= MIN_PRIOR && 10 * FullCount(start) >= 9 * (|start| + m) then Some(PipelineDowngrade)
         else None
  {
    RunHistory(sensitive, tenant, history, start, arrivals, m);
    KeepsAll(sensitive, tenant, start, arrivals, m);
    FullAtStart(sensitive, tenant, start, arrivals, m);
    hide Filter, FullCount, After, SkipsVault;
    assert arrivals[m] in arrivals;
  }

  /** How many of the first m checks report a downgrade. */
  function AlarmCount(sensitive: set<string>, history: map<string, seq<Entry>>, arrivals: seq<Arrival>, m: nat): nat
    requires m <= |arrivals|
  {
    if m == 0 then 0
    else
      var last := ReportAt(sensitive, history, arrivals, m - 1);
      AlarmCount(sensitive, history, arrivals, m - 1) + if last == Some(PipelineDowngrade) then 1 else 0
  }

  /** The length of the stretch from `from` to `to`, cut off at m. */
  function Stretch(from: nat, to: int, m: nat): nat {
    var end := if m <= to then m else to;
    if end <= from then 0 else end - from
  }

  lemma Ninth(full: nat, n: nat, m: nat)
    ensures 10 * full >= 9 * (n + m) <==> m < 10 * full / 9 + 1 - n
  {
  }

  /**
   So the alarms are one unbroken stretch of the run: they begin once there are ten
   entries and end for good once there are more than ten ninths of the full ones.
   */
  lemma {:induction false} DowngradeAlarmCount(
    sensitive: set<string>, tenant: string, history: map<string, seq<Entry>>, start: seq<Entry>,
    arrivals: seq<Arrival>, m: nat)
    requires m <= |arrivals| && tenant in history && history[tenant] == start
    requires DowngradedRun(sensitive, tenant, start, arrivals)
    ensures AlarmCount(sensitive, history, arrivals, m)
      == Stretch(
           if |start| >= MIN_PRIOR then 0 else MIN_PRIOR - |start|, 10 * FullCount(start) / 9 + 1 - |start|, m)
  {
    hide DowngradedRun, ReportAt, FullCount;
    if m > 0 {
      DowngradeAlarmCount(sensitive, tenant, history, start, arrivals, m - 1);
      DowngradeReports(sensitive, tenant, history, start, arrivals, m - 1);
      Ninth(FullCount(start), |start|, m - 1);
    }
  }

  /**
   After n >= 10 full events and nothing else, of a run of lite and minimal ones
   exactly the first n / 9 + 1 raise an alarm.
   */
  lemma DowngradeAlarmsDieOut(
    sensitive: set<string>, tenant: string, history: map<string, seq<Entry>>, start: seq<Entry>,
    arrivals: seq<Arrival>, m: nat)
    requires m < |arrivals| && tenant in history && history[tenant] == start
    requires DowngradedRun(sensitive, tenant, start, arrivals)
    requires |start| >= MIN_PRIOR && forall e <- start :: e.pipelineType == "full"
    ensures ReportAt(sensitive, history, arrivals, m) == if m <= |start| / 9 then Some(PipelineDowngrade) else None
    ensures AlarmCount(sensitive, history, arrivals, |arrivals|)
      == if |arrivals| <= |start| / 9 + 1 then |arrivals| else |start| / 9 + 1
  {
    hide DowngradedRun, ReportAt;
    FilterAll(IsFull(), start);
    assert FullCount(start) == |start|;
    DowngradeReports(sensitive, tenant, history, start, arrivals, m);
    DowngradeAlarmCount(sensitive, tenant, history, start, arrivals, |arrivals|);
    Ninth(|start|, |start|, m);
  }
}
