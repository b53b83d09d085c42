/**
 The loop that cmd/tracker-cli/main.go closes: every anomaly is turned into an
 event that is processed, and hence inspected, again, on a goroutine of its own.
 The clock is frozen and no bypass monitor is attached.
 */
module Feedback {
  import opened Models
  import opened Seqs
  import opened Stats
  import opened Spike
  import opened Windows
  import opened Rules
  import Intake

  /** One Inspect call under way: the rules before `pc` have run. */
  datatype Task = Task(ev: BastionEvent, pc: nat)

  datatype System = System(trackers: Trackers, tasks: seq<Task>, fired: seq<Anomaly>)

  datatype Setting = Setting(cfg: Config, env: Env, now: Time)

  const TRACKER_KEY := Key("tracker", "anomaly_detected")

  /** The event made of an anomaly. */
  function Synthetic(a: Anomaly): BastionEvent {
    ZERO_EVENT.(
      moduleName := "tracker",
      eventType := "anomaly_detected",
      severity := a.severity,
      status := "error",
      tenantId := a.tenantId,
      userId := a.userId,
      traceId := a.traceId)
  }

  function Start(tr: Trackers, ev: BastionEvent): System {
    System(tr, [Task(ev, 0)], [])
  }

  ghost predicate CanStep(s: System, i: nat) {
    i < |s.tasks| && s.tasks[i].pc < RULES
  }

  ghost function Fires(w: Setting, s: System, i: nat): Outcome
    requires CanStep(s, i)
  {
    if w.cfg.enabled then
      Rule(w.cfg, w.env, s.trackers, s.tasks[i].ev, InspectedAt(s.tasks[i].ev, w.now), s.tasks[i].pc)
    else Outcome(s.trackers, [])
  }

  /** A new goroutine for each anomaly. */
  function Spawn(anomalies: seq<Anomaly>): seq<Task> {
    MapSeq((a: Anomaly) => Task(Synthetic(a), 0), anomalies)
  }

  /** Some task runs its next rule. */
  ghost function Step(w: Setting, s: System, i: nat): System
    requires CanStep(s, i)
  {
    var o := Fires(w, s, i);
    System(
      o.trackers,
      s.tasks[i := Task(s.tasks[i].ev, s.tasks[i].pc + 1)] + Spawn(o.anomalies),
      s.fired + o.anomalies)
  }

  /** Whether `schedule` is a run from s, as the choice of a task at each step. */
  ghost predicate Runs(w: Setting, s: System, schedule: seq<nat>)
    decreases |schedule|
  {
    schedule == [] || (CanStep(s, schedule[0]) && Runs(w, Step(w, s, schedule[0]), schedule[1..]))
  }

  ghost function After(w: Setting, s: System, schedule: seq<nat>): System
    requires Runs(w, s, schedule)
    decreases |schedule|
  {
    if schedule == [] then s else After(w, Step(w, s, schedule[0]), schedule[1..])
  }

  /**
   What is handed back to Process: an error of the tracker's own, with the severity,
   tenant, user and trace of the anomaly, and no ID and no time.
   */
  lemma SyntheticSays(a: Anomaly)
    ensures var e := Synthetic(a);
      && e.moduleName == "tracker" && e.eventType == "anomaly_detected" && e.status == "error"
      && e.severity == a.severity && e.tenantId == a.tenantId && e.userId == a.userId && e.traceId == a.traceId
      && e.eventId == "" && e.timestamp == -62_135_596_800 * 1_000_000_000 && e.pipelineType == ""
  {
  }

  /** Process turns none of them away: every anomaly's event is valid, and is inspected at the frozen time. */
  lemma ReinjectedEventsAreAccepted(w: Setting, s: System, i: nat, newId: string)
    requires CanStep(s, i)
    ensures forall a <- Fires(w, s, i).anomalies ::
      var e := Intake.Enriched(Synthetic(a), newId, w.now);
      Intake.Validate(e) == None && InspectedAt(e, w.now) == InspectedAt(Synthetic(a), w.now) == w.now
  {
    FiredSeverities(w, s, i);
    hide Fires, Rule;
    forall a <- Fires(w, s, i).anomalies
      ensures Intake.Validate(Intake.Enriched(Synthetic(a), newId, w.now)) == None
    {
      ValidSynthetic(a, newId, w.now);
    }
  }

  lemma FiredSeverities(w: Setting, s: System, i: nat)
    requires CanStep(s, i)
    ensures forall a <- Fires(w, s, i).anomalies :: a.severity == "warning" || a.severity == "critical"
  {
    hide Spikes, AfterRecord, AddTo;
  }

  lemma ValidSynthetic(a: Anomaly, newId: string, now: Time)
    requires a.severity == "warning" || a.severity == "critical"
    ensures Intake.Validate(Intake.Enriched(Synthetic(a), newId, now)) == None
  {
    assert "tracker"[0] == 't' && "anomaly_detected"[0] == 'a';
    assert 't' in "tracker" && 'a' in "anomaly_detected";
  }

  // The frozen clock

  ghost predicate FrozenClock(w: Setting, ev: BastionEvent) {
    && IsSqrt(w.env.sqrt) && w.cfg.sigmaThreshold >= 0.0
    && w.cfg.activeHoursStart == 0 && w.cfg.activeHoursEnd == 0
    && InspectedAt(ev, w.now) == w.now
  }

  /** And the detector is switched on. */
  ghost predicate Frozen(w: Setting, ev: BastionEvent) {
    w.cfg.enabled && FrozenClock(w, ev)
  }

  /** An event of the detector's own type. */
  predicate IsOwn(ev: BastionEvent) {
    Key(ev.moduleName, ev.eventType) == TRACKER_KEY
  }

  /** The window of the detector's own events after m more of them have been recorded now. */
  function OwnAfter(w: Setting, tr: Trackers, m: nat): seq<Bucket> {
    if m == 0 then Held(tr.windows, TRACKER_KEY)
    else AfterRecord(OwnAfter(w, tr, m - 1), w.now, w.cfg.windowHours)
  }

  /** Whether the m-th of these records reports a spike. */
  ghost predicate OwnSpikes(w: Setting, tr: Trackers, m: nat) {
    m >= 1 && Spikes(OwnAfter(w, tr, m), w.now, w.cfg.sigmaThreshold, w.env.sqrt)
  }

  lemma {:induction false} FilterIdempotent<T>(p: T -> bool, s: seq<T>)
    ensures Filter(p, Filter(p, s)) == Filter(p, s)
  {
    FilterMembers(p, s);
    FilterAll(p, Filter(p, s));
  }

  /** Recording again at the same instant only adds the one bucket, if that. */
  lemma RecordAgain(window: seq<Bucket>, at: Time, windowH: int)
    ensures var once := AfterRecord(window, at, windowH);
      AfterRecord(once, at, windowH) == if Live(at, windowH)(Bucket(1, at)) then once + [Bucket(1, at)] else once
  {
    var keep, b := Live(at, windowH), Bucket(1, at);
    FilterIdempotent(keep, window);
    FilterSnoc(keep, Filter(keep, window), b);
    assert Filter(keep, window) + [] == Filter(keep, window);
  }

  /** Recording at the frozen instant does not change the minutes. */
  lemma MinutesStay(window: seq<Bucket>, at: Time, windowH: int)
    ensures Minute(at) in Minutes(AfterRecord(window, at, windowH))
    ensures Minutes(AfterRecord(AfterRecord(window, at, windowH), at, windowH))
      == Minutes(AfterRecord(window, at, windowH))
  {
    hide Minute, Minutes, Filter;
    RecordAgain(window, at, windowH);
    MinutesSnoc(Filter(Live(at, windowH), window), Bucket(1, at));
    MinutesSnoc(AfterRecord(window, at, windowH), Bucket(1, at));
  }

  /** Once an own record is a spike, all later ones are. */
  lemma {:induction false} OwnSpikesStay(w: Setting, tr: Trackers, m: nat, n: nat)
    requires IsSqrt(w.env.sqrt) && w.cfg.sigmaThreshold >= 0.0
    requires OwnSpikes(w, tr, m) && m <= n
    ensures OwnSpikes(w, tr, n)
    decreases n
  {
    hide OwnSpikes, IsSqrt;
    if m < n {
      OwnSpikesStay(w, tr, m, n - 1);
      NextOwnSpikes(w, tr, n - 1);
    }
  }

  lemma NextOwnSpikes(w: Setting, tr: Trackers, m: nat)
    requires IsSqrt(w.env.sqrt) && w.cfg.sigmaThreshold >= 0.0 && OwnSpikes(w, tr, m)
    ensures OwnSpikes(w, tr, m + 1)
  {
    hide IsSqrt, Spikes, AfterRecord, Minutes, Minute, Live;
    var window := OwnAfter(w, tr, m - 1);
    assert OwnAfter(w, tr, m) == AfterRecord(window, w.now, w.cfg.windowHours);
    assert OwnAfter(w, tr, m + 1) == AfterRecord(OwnAfter(w, tr, m), w.now, w.cfg.windowHours);
    RecordAgain(window, w.now, w.cfg.windowHours);
    MinutesStay(window, w.now, w.cfg.windowHours);
    StillSpikes(OwnAfter(w, tr, m), w.now, w.cfg.sigmaThreshold, w.env.sqrt);
  }

  lemma AddAgain(times: seq<Time>, at: Time)
    ensures |AddTo(AddTo(times, at, MINUTE), at, MINUTE)| == |AddTo(times, at, MINUTE)| + 1
  {
    var keep := Within(at, MINUTE);
    FilterIdempotent(keep, times);
    FilterSnoc(keep, Filter(keep, times), at);
  }

  // What one external event raises, while the detector's own events are no spike

  /** What a rule raises for the event itself, the high-frequency rule and own spikes aside. */
  ghost function Raises(w: Setting, tr: Trackers, ev: BastionEvent, rule: nat): nat
    requires rule < RULES
  {
    if rule == 1 || (rule == 0 && IsOwn(ev)) then 0 else |Rule(w.cfg, w.env, tr, ev, w.now, rule).anomalies|
  }

  ghost function RaisesBefore(w: Setting, tr: Trackers, ev: BastionEvent, pc: nat): nat
    requires pc <= RULES
  {
    if pc == 0 then 0 else RaisesBefore(w, tr, ev, pc - 1) + Raises(w, tr, ev, pc - 1)
  }

  /** The count the high-frequency rule would see next. */
  function NextCount(w: Setting, tr: Trackers, ev: BastionEvent): nat {
    |AddTo(Held(tr.users, UserKey(ev)), w.now, MINUTE)|
  }

  predicate CountsUsers(w: Setting, ev: BastionEvent) {
    ev.userId != "" && w.cfg.highFreqUserLimit > 0
  }

  /** Whether one of the next n + 1 counts is the limit. */
  predicate LimitWithin(w: Setting, tr: Trackers, ev: BastionEvent, n: nat) {
    CountsUsers(w, ev) && NextCount(w, tr, ev) <= w.cfg.highFreqUserLimit <= NextCount(w, tr, ev) + n
  }

  /** The number of anomalies in all: those of the event itself, and the one of its user. */
  ghost function Expected(w: Setting, tr: Trackers, ev: BastionEvent): nat {
    var others := RaisesBefore(w, tr, ev, RULES);
    others + if LimitWithin(w, tr, ev, others) then 1 else 0
  }

  /** How many own events are recorded then: one for each anomaly, and the event itself if it is one. */
  ghost function OwnRecords(w: Setting, tr: Trackers, ev: BastionEvent): nat {
    Expected(w, tr, ev) + if IsOwn(ev) then 1 else 0
  }

  lemma {:induction false} RaisesGrow(w: Setting, tr: Trackers, ev: BastionEvent, pc: nat, later: nat)
    requires pc <= later <= RULES
    ensures RaisesBefore(w, tr, ev, pc) <= RaisesBefore(w, tr, ev, later)
    decreases later
  {
    if pc < later {
      RaisesGrow(w, tr, ev, pc, later - 1);
    }
  }

  /** At most four, as cross-tenant and honey-token events exclude each other. */
  lemma ExpectedAtMostFour(w: Setting, tr: Trackers, ev: BastionEvent)
    requires Frozen(w, ev)
    ensures Expected(w, tr, ev) <= 4
  {
    hide RaisesBefore;
    AtMostOneEach(w, tr, ev);
    SixRules(w, tr, ev);
  }

  lemma SixRules(w: Setting, tr: Trackers, ev: BastionEvent)
    ensures RaisesBefore(w, tr, ev, RULES)
      == Raises(w, tr, ev, 0) + Raises(w, tr, ev, 1) + Raises(w, tr, ev, 2)
       + Raises(w, tr, ev, 3) + Raises(w, tr, ev, 4)
       + Raises(w, tr, ev, 5)
  {
    hide Raises;
    assert RaisesBefore(w, tr, ev, 0) == 0;
    assert RaisesBefore(w, tr, ev, 2) == Raises(w, tr, ev, 0) + Raises(w, tr, ev, 1);
    assert RaisesBefore(w, tr, ev, 4) == RaisesBefore(w, tr, ev, 2) + Raises(w, tr, ev, 2) + Raises(w, tr, ev, 3);
  }

  lemma AtMostOneEach(w: Setting, tr: Trackers, ev: BastionEvent)
    requires Frozen(w, ev)
    ensures Raises(w, tr, ev, 0) <= 1 && Raises(w, tr, ev, 1) == 0 && Raises(w, tr, ev, 2) <= 1
      && Raises(w, tr, ev, 5) == 0
    ensures Raises(w, tr, ev, 3) + Raises(w, tr, ev, 4) <= 1
  {
    hide Spikes, AfterRecord, AddTo, IsSqrt;
    assert "cross_tenant_attempt"[0] == 'c' && "honey_token_"[0] == 'h';
    assert IsHoney(ev) ==> ev.eventType[0] == 'h';
  }

  // Counting tasks

  function Total(tasks: seq<Task>, f: Task -> nat): nat {
    if tasks == [] then 0 else f(tasks[0]) + Total(tasks[1..], f)
  }

  /** The rules run so far. */
  function Ran(): Task -> nat {
    (t: Task) => t.pc
  }

  /** 1 for an own event that has been recorded. */
  function Recorded(): Task -> nat {
    (t: Task) => if t.pc >= 1 && IsOwn(t.ev) then 1 else 0
  }

  /** 1 for an event that has been counted for its user. */
  function Counted(): Task -> nat {
    (t: Task) => if t.pc >= 2 then 1 else 0
  }

  lemma {:induction false} TotalConcat(a: seq<Task>, b: seq<Task>, f: Task -> nat)
    ensures Total(a + b, f) == Total(a, f) + Total(b, f)
  {
    if a == [] {
      assert a + b == b;
    } else {
      TotalConcat(a[1..], b, f);
      assert (a + b)[1..] == a[1..] + b;
    }
  }

  lemma {:induction false} TotalZero(tasks: seq<Task>, f: Task -> nat)
    requires forall t <- tasks :: f(t) == 0
    ensures Total(tasks, f) == 0
  {
    if tasks != [] {
      TotalZero(tasks[1..], f);
    }
  }

  lemma {:induction false} TotalUpdate(tasks: seq<Task>, f: Task -> nat, i: nat, t: Task)
    requires i < |tasks|
    ensures Total(tasks[i := t], f) + f(tasks[i]) == Total(tasks, f) + f(t)
  {
    if i == 0 {
      assert tasks[i := t][1..] == tasks[1..];
    } else {
      TotalUpdate(tasks[1..], f, i - 1, t);
      assert tasks[i := t][1..] == tasks[1..][i - 1 := t];
    }
  }

  /** A step changes one task; what it spawns has not run. */
  lemma TotalStep(w: Setting, s: System, i: nat, f: Task -> nat)
    requires CanStep(s, i) && forall ev :: f(Task(ev, 0)) == 0
    ensures var t := s.tasks[i];
      Total(Step(w, s, i).tasks, f) + f(t) == Total(s.tasks, f) + f(Task(t.ev, t.pc + 1))
  {
    hide Total, Fires;
    var t := s.tasks[i];
    var o := Fires(w, s, i);
    TotalUpdate(s.tasks, f, i, Task(t.ev, t.pc + 1));
    TotalConcat(s.tasks[i := Task(t.ev, t.pc + 1)], Spawn(o.anomalies), f);
    TotalZero(Spawn(o.anomalies), f);
  }

  lemma OneFactor(c: nat, n: nat)
    ensures c * (n + 1) == c + c * n
  {
  }

  lemma {:induction false} TotalAtMost(tasks: seq<Task>, f: Task -> nat, c: nat)
    requires forall t <- tasks :: f(t) <= c
    ensures Total(tasks, f) <= c * |tasks|
    ensures (forall t <- tasks :: f(t) == c) ==> Total(tasks, f) == c * |tasks|
  {
    if tasks != [] {
      TotalAtMost(tasks[1..], f, c);
      OneFactor(c, |tasks| - 1);
    }
  }

  // The invariant

  /** A task of the loop itself: the same tenant and user, the detector's own type. */
  predicate IsSynthetic(t: BastionEvent, ev: BastionEvent) {
    && t.moduleName == "tracker" && t.eventType == "anomaly_detected" && t.status == "error"
    && t.timestamp == ZERO_TIME
    && t.tenantId == ev.tenantId && t.userId == ev.userId && t.traceId == ev.traceId
  }

  /** One task for the external event, and one for each anomaly. */
  ghost predicate Shape(s: System, ev: BastionEvent) {
    && |s.tasks| == 1 + |s.fired|
    && s.tasks[0].ev == ev
    && (forall i :: 0 < i < |s.tasks| ==> IsSynthetic(s.tasks[i].ev, ev))
    && (forall i :: 0 <= i < |s.tasks| ==> s.tasks[i].pc <= RULES)
  }

  /** Own events: every one that has been recorded so far was no spike. */
  ghost predicate OwnsQuiet(w: Setting, tr: Trackers, s: System) {
    && Held(s.trackers.windows, TRACKER_KEY) == OwnAfter(w, tr, Total(s.tasks, Recorded()))
    && !OwnSpikes(w, tr, Total(s.tasks, Recorded()))
  }

  ghost predicate UsersCounted(w: Setting, tr: Trackers, ev: BastionEvent, s: System) {
    CountsUsers(w, ev) ==> NextCount(w, s.trackers, ev) == NextCount(w, tr, ev) + Total(s.tasks, Counted())
  }

  /** What the rules still to come for the external event look at has not changed. */
  ghost predicate Untouched(tr: Trackers, ev: BastionEvent, now: Trackers, pc: nat) {
    var k := Key(ev.moduleName, ev.eventType);
    && (pc == 0 && !IsOwn(ev) ==> Held(now.windows, k) == Held(tr.windows, k))
    && (pc <= 2 ==> now.blocks == tr.blocks)
    && (pc <= 4 ==> now.layers == tr.layers)
  }

  /** `high` is 1 once the high-frequency rule has fired. */
  ghost predicate Tally(w: Setting, tr: Trackers, ev: BastionEvent, s: System, high: nat)
    requires s.tasks != [] && s.tasks[0].pc <= RULES
  {
    && |s.fired| == RaisesBefore(w, tr, ev, s.tasks[0].pc) + high
    && (high == 0 ==> Total(s.tasks, Counted()) == 0 || !LimitWithin(w, tr, ev, Total(s.tasks, Counted()) - 1))
    && (high > 0 ==> high == 1 && LimitWithin(w, tr, ev, RaisesBefore(w, tr, ev, RULES)))
    && (high > 0 ==> NextCount(w, tr, ev) + Total(s.tasks, Counted()) > w.cfg.highFreqUserLimit)
  }

  ghost predicate Inv(w: Setting, tr: Trackers, ev: BastionEvent, s: System, high: nat) {
    && Shape(s, ev)
    && OwnsQuiet(w, tr, s)
    && UsersCounted(w, tr, ev, s)
    && Untouched(tr, ev, s.trackers, s.tasks[0].pc)
    && Tally(w, tr, ev, s, high)
  }

  lemma StartInv(w: Setting, tr: Trackers, ev: BastionEvent)
    ensures Inv(w, tr, ev, Start(tr, ev), 0)
  {
    hide Spikes;
    TotalZero(Start(tr, ev).tasks, Recorded());
    TotalZero(Start(tr, ev).tasks, Counted());
  }

  /** Never more anomalies than expected, nor more own records. */
  lemma InvBounds(w: Setting, tr: Trackers, ev: BastionEvent, s: System, high: nat)
    requires Inv(w, tr, ev, s, high)
    ensures |s.fired| <= Expected(w, tr, ev)
    ensures Total(s.tasks, Recorded()) <= |s.fired| + (if IsOwn(ev) then 1 else 0) <= OwnRecords(w, tr, ev)
    ensures Total(s.tasks, Ran()) <= RULES * (1 + |s.fired|) <= RULES * (1 + Expected(w, tr, ev))
  {
    hide RaisesBefore, OwnAfter, Spikes, LimitWithin;
    RaisesGrow(w, tr, ev, s.tasks[0].pc, RULES);
    TotalAtMost(s.tasks[1..], Recorded(), 1);
    TotalAtMost(s.tasks, Ran(), RULES);
  }

  /** When nothing is left to run, exactly as many. */
  lemma InvAtEnd(w: Setting, tr: Trackers, ev: BastionEvent, s: System, high: nat)
    requires Inv(w, tr, ev, s, high) && forall i :: !CanStep(s, i)
    ensures |s.fired| == Expected(w, tr, ev)
    ensures Total(s.tasks, Recorded()) == OwnRecords(w, tr, ev)
    ensures Total(s.tasks, Ran()) == RULES * (1 + |s.fired|)
  {
    hide RaisesBefore, OwnAfter, Spikes, NextCount;
    forall i | 0 <= i < |s.tasks|
      ensures s.tasks[i].pc == RULES
    {
      assert !CanStep(s, i);
    }
    forall t <- s.tasks
      ensures t.pc == RULES
    {
      var i :| 0 <= i < |s.tasks| && s.tasks[i] == t;
    }
    TotalAtMost(s.tasks[1..], Recorded(), 1);
    TotalAtMost(s.tasks, Counted(), 1);
    TotalAtMost(s.tasks, Ran(), RULES);
  }

  // One step

  lemma SpawnedAre(anomalies: seq<Anomaly>, ev: BastionEvent)
    requires forall a <- anomalies :: a.tenantId == ev.tenantId && a.userId == ev.userId && a.traceId == ev.traceId
    ensures |Spawn(anomalies)| == |anomalies|
    ensures forall t <- Spawn(anomalies) :: IsSynthetic(t.ev, ev) && t.pc == 0
  {
  }

  lemma FiredAbout(w: Setting, s: System, i: nat)
    requires CanStep(s, i)
    ensures var t := s.tasks[i].ev;
      forall a <- Fires(w, s, i).anomalies :: a.tenantId == t.tenantId && a.userId == t.userId && a.traceId == t.traceId
  {
    hide Spikes, AfterRecord, AddTo;
  }

  lemma ShapeKept(w: Setting, s: System, ev: BastionEvent, i: nat)
    requires Shape(s, ev) && CanStep(s, i)
    ensures Shape(Step(w, s, i), ev)
  {
    hide Fires, Spawn;
    FiredAbout(w, s, i);
    assert SameSubject(s.tasks[i].ev, ev);
    SpawnedAre(Fires(w, s, i).anomalies, ev);
  }

  predicate SameSubject(t: BastionEvent, ev: BastionEvent) {
    t.tenantId == ev.tenantId && t.userId == ev.userId && t.traceId == ev.traceId
  }

  /** An own event is recorded, and is no spike. */
  lemma OwnRecordStep(w: Setting, tr: Trackers, now: Trackers, t: BastionEvent, r: nat)
    requires IsOwn(t) && Held(now.windows, TRACKER_KEY) == OwnAfter(w, tr, r)
    requires !OwnSpikes(w, tr, r + 1)
    ensures SpikeRule(w.cfg, w.env, now, t, w.now)
      == Outcome(now.(windows := now.windows[TRACKER_KEY := OwnAfter(w, tr, r + 1)]), [])
  {
    hide Spikes, AfterRecord;
  }

  /** The external event is recorded under another key. */
  lemma OtherRecordStep(w: Setting, tr: Trackers, now: Trackers, ev: BastionEvent)
    requires !IsOwn(ev) && Untouched(tr, ev, now, 0)
    ensures var o := SpikeRule(w.cfg, w.env, now, ev, w.now);
      && |o.anomalies| == Raises(w, tr, ev, 0)
      && Held(o.trackers.windows, TRACKER_KEY) == Held(now.windows, TRACKER_KEY)
      && o.trackers.users == now.users && Untouched(tr, ev, o.trackers, 1)
  {
    hide Spikes, AfterRecord;
  }

  lemma HighFreqStep(w: Setting, now: Trackers, t: BastionEvent, ev: BastionEvent)
    requires SameSubject(t, ev)
    ensures var o := HighFreqRule(w.cfg, now, t, w.now);
      && o.trackers.windows == now.windows && o.trackers.blocks == now.blocks && o.trackers.layers == now.layers
      && (CountsUsers(w, ev) ==> NextCount(w, o.trackers, ev) == NextCount(w, now, ev) + 1)
      && |o.anomalies| == (if CountsUsers(w, ev) && NextCount(w, now, ev) == w.cfg.highFreqUserLimit then 1 else 0)
  {
    AddAgain(Held(now.users, UserKey(ev)), w.now);
  }

  /** The later rules do nothing on the detector's own events. */
  lemma SyntheticIdle(w: Setting, now: Trackers, t: BastionEvent, ev: BastionEvent, pc: nat)
    requires Frozen(w, ev) && IsSynthetic(t, ev) && 2 <= pc < RULES
    ensures Rule(w.cfg, w.env, now, t, w.now, pc) == Outcome(now, [])
  {
    hide IsSqrt;
    assert "anomaly_detected"[0] == 'a' && "honey_token_"[0] == 'h' && "cross_tenant_attempt"[0] == 'c';
  }

  lemma ExternalRuleStep(w: Setting, tr: Trackers, now: Trackers, ev: BastionEvent, pc: nat)
    requires Frozen(w, ev) && 2 <= pc < RULES && Untouched(tr, ev, now, pc)
    ensures var o := Rule(w.cfg, w.env, now, ev, w.now, pc);
      && |o.anomalies| == Raises(w, tr, ev, pc)
      && o.trackers.windows == now.windows && o.trackers.users == now.users
      && Untouched(tr, ev, o.trackers, pc + 1)
  {
    hide AddTo, IsSqrt;
  }

  /** Which of the counters a step moves. */
  lemma CountersStep(w: Setting, s: System, i: nat)
    requires CanStep(s, i)
    ensures Total(Step(w, s, i).tasks, Recorded())
      == Total(s.tasks, Recorded()) + (if s.tasks[i].pc == 0 && IsOwn(s.tasks[i].ev) then 1 else 0)
    ensures Total(Step(w, s, i).tasks, Counted()) == Total(s.tasks, Counted()) + (if s.tasks[i].pc == 1 then 1 else 0)
    ensures Total(Step(w, s, i).tasks, Ran()) == Total(s.tasks, Ran()) + 1
  {
    hide Step, Total;
    TotalStep(w, s, i, Recorded());
    TotalStep(w, s, i, Counted());
    TotalStep(w, s, i, Ran());
  }

  /** A step leads to the same state whatever the other tasks are, but for the head of the list. */
  lemma HeadOfStep(w: Setting, s: System, ev: BastionEvent, i: nat)
    requires Shape(s, ev) && CanStep(s, i)
    ensures var s' := Step(w, s, i);
      s'.tasks != [] && s'.tasks[0] == if i == 0 then Task(ev, s.tasks[0].pc + 1) else s.tasks[0]
  {
    hide Fires, Spawn;
  }

  /** Those counted so far do not include the one that is about to be. */
  lemma CountedAmongOthers(s: System, i: nat)
    requires i < |s.tasks| && s.tasks[i].pc < 2
    ensures Total(s.tasks, Counted()) <= |s.tasks| - 1
  {
    var done := Task(s.tasks[i].ev, RULES);
    TotalUpdate(s.tasks, Counted(), i, done);
    TotalAtMost(s.tasks[i := done], Counted(), 1);
  }

  ghost predicate SpikesNow(w: Setting, tr: Trackers, s: System, i: nat)
    requires CanStep(s, i)
  {
    s.tasks[i].pc == 0 && IsOwn(s.tasks[i].ev) && OwnSpikes(w, tr, Total(s.tasks, Recorded()) + 1)
  }

  /** A step of the first two rules. */
  lemma EarlyStep(w: Setting, tr: Trackers, ev: BastionEvent, s: System, high: nat, i: nat) returns (high': nat)
    requires Frozen(w, ev) && Inv(w, tr, ev, s, high) && CanStep(s, i) && !SpikesNow(w, tr, s, i)
    requires s.tasks[i].pc < 2
    ensures Inv(w, tr, ev, Step(w, s, i), high')
  {
    hide Total, Spawn, SpikeRule, HighFreqRule, RepeatedBlockRule, CrossTenantRule, HoneyRule, OffHoursRule, OwnAfter,
      OwnSpikes, NextCount, Raises;
    var t, o := s.tasks[i], Fires(w, s, i);
    ShapeKept(w, s, ev, i);
    HeadOfStep(w, s, ev, i);
    CountersStep(w, s, i);
    high' := high;
    if t.pc == 0 {
      if IsOwn(t.ev) {
        OwnRecordStep(w, tr, s.trackers, t.ev, Total(s.tasks, Recorded()));
        OwnRaisesNothing(w, tr, ev);
      } else {
        OtherRecordStep(w, tr, s.trackers, ev);
      }
      SameUsers(w, s.trackers, o.trackers, ev);
    } else {
      HighFreqStep(w, s.trackers, t.ev, ev);
      CountedAmongOthers(s, i);
      RaisesGrow(w, tr, ev, s.tasks[0].pc, RULES);
      HighRaisesNothing(w, tr, ev);
      high' := high + |o.anomalies|;
    }
  }

  lemma OwnRaisesNothing(w: Setting, tr: Trackers, ev: BastionEvent)
    ensures IsOwn(ev) ==> Raises(w, tr, ev, 0) == 0
  {
  }

  lemma HighRaisesNothing(w: Setting, tr: Trackers, ev: BastionEvent)
    ensures Raises(w, tr, ev, 1) == 0
  {
  }

  lemma SameUsers(w: Setting, a: Trackers, b: Trackers, ev: BastionEvent)
    requires a.users == b.users
    ensures NextCount(w, a, ev) == NextCount(w, b, ev)
  {
  }

  /** A step of the others. */
  lemma LateStep(w: Setting, tr: Trackers, ev: BastionEvent, s: System, high: nat, i: nat)
    requires Frozen(w, ev) && Inv(w, tr, ev, s, high) && CanStep(s, i) && s.tasks[i].pc >= 2
    ensures Inv(w, tr, ev, Step(w, s, i), high)
  {
    hide Total, Spawn, Rule, OwnAfter, OwnSpikes, NextCount, Raises;
    var t, o := s.tasks[i], Fires(w, s, i);
    ShapeKept(w, s, ev, i);
    HeadOfStep(w, s, ev, i);
    CountersStep(w, s, i);
    if i == 0 {
      ExternalRuleStep(w, tr, s.trackers, ev, t.pc);
    } else {
      SyntheticIdle(w, s.trackers, t.ev, ev, t.pc);
    }
    SameUsers(w, s.trackers, o.trackers, ev);
  }

  /** The invariant is kept by every step but a spike on an own event. */
  lemma StepKeepsInv(w: Setting, tr: Trackers, ev: BastionEvent, s: System, high: nat, i: nat) returns (high': nat)
    requires Frozen(w, ev) && Inv(w, tr, ev, s, high) && CanStep(s, i) && !SpikesNow(w, tr, s, i)
    ensures Inv(w, tr, ev, Step(w, s, i), high')
    ensures Total(Step(w, s, i).tasks, Ran()) == Total(s.tasks, Ran()) + 1
  {
    hide Inv, Frozen, Step, SpikesNow;
    CountersStep(w, s, i);
    if s.tasks[i].pc < 2 {
      high' := EarlyStep(w, tr, ev, s, high, i);
    } else {
      LateStep(w, tr, ev, s, high, i);
      high' := high;
    }
  }

  // Termination, exactly

  /** Own records stay within what is expected, so none is a spike if the last expected one is not. */
  lemma NoSpikeNow(w: Setting, tr: Trackers, ev: BastionEvent, s: System, high: nat, i: nat)
    requires Frozen(w, ev) && Inv(w, tr, ev, s, high) && CanStep(s, i)
    requires !OwnSpikes(w, tr, OwnRecords(w, tr, ev))
    ensures !SpikesNow(w, tr, s, i)
  {
    hide Total, OwnSpikes, OwnRecords, OwnAfter;
    if SpikesNow(w, tr, s, i) {
      RecordedAmongOthers(s, ev, i);
      InvBounds(w, tr, ev, s, high);
      OwnSpikesStay(w, tr, Total(s.tasks, Recorded()) + 1, OwnRecords(w, tr, ev));
    }
  }

  lemma RecordedAmongOthers(s: System, ev: BastionEvent, i: nat)
    requires Shape(s, ev) && CanStep(s, i) && s.tasks[i].pc == 0 && IsOwn(s.tasks[i].ev)
    ensures Total(s.tasks, Recorded()) + 1 <= |s.fired| + if IsOwn(ev) then 1 else 0
  {
    var t := s.tasks[i];
    TotalUpdate(s.tasks, Recorded(), i, Task(t.ev, 1));
    var after := s.tasks[i := Task(t.ev, 1)];
    TotalAtMost(after[1..], Recorded(), 1);
  }

  lemma {:induction false} RunKeepsInv(
    w: Setting, tr: Trackers, ev: BastionEvent, s: System, high: nat, schedule: seq<nat>) returns (high': nat)
    requires Frozen(w, ev) && !OwnSpikes(w, tr, OwnRecords(w, tr, ev))
    requires Inv(w, tr, ev, s, high) && Runs(w, s, schedule)
    ensures Inv(w, tr, ev, After(w, s, schedule), high')
    ensures Total(After(w, s, schedule).tasks, Ran()) == Total(s.tasks, Ran()) + |schedule|
    decreases |schedule|
  {
    hide Inv, Frozen, Step, CanStep, SpikesNow, OwnSpikes, OwnRecords, Total;
    if schedule == [] {
      high' := high;
    } else {
      NoSpikeNow(w, tr, ev, s, high, schedule[0]);
      var h := StepKeepsInv(w, tr, ev, s, high, schedule[0]);
      high' := RunKeepsInv(w, tr, ev, Step(w, s, schedule[0]), h, schedule[1..]);
    }
  }

  /**
   If the last own record to be expected is no spike, the feedback ends: in every
   interleaving at most the expected number of anomalies is raised, in six rule steps
   for each event, and a run that cannot go on has raised exactly that many.
   */
  lemma FeedbackIsExact(w: Setting, tr: Trackers, ev: BastionEvent, schedule: seq<nat>)
    requires Frozen(w, ev) && !OwnSpikes(w, tr, OwnRecords(w, tr, ev))
    requires Runs(w, Start(tr, ev), schedule)
    ensures var s, n := After(w, Start(tr, ev), schedule), Expected(w, tr, ev);
      && |s.fired| <= n
      && |schedule| <= RULES * (1 + |s.fired|) <= RULES * (1 + n)
      && ((forall i :: !CanStep(s, i)) ==> |s.fired| == n && |schedule| == RULES * (1 + n))
  {
    hide Inv, Frozen, After, Runs, OwnSpikes, OwnRecords, Expected, CanStep;
    var s := After(w, Start(tr, ev), schedule);
    StartInv(w, tr, ev);
    var high := RunKeepsInv(w, tr, ev, Start(tr, ev), 0, schedule);
    TotalZero(Start(tr, ev).tasks, Ran());
    InvBounds(w, tr, ev, s, high);
    if forall i :: !CanStep(s, i) {
      InvAtEnd(w, tr, ev, s, high);
    }
  }

  /** n sigma^2 >= (n - 1)^2 for the n minutes of the detector's own events. */
  ghost predicate Quiet(w: Setting, tr: Trackers) {
    var n := |Minutes(OwnAfter(w, tr, 1))|;
    (n as real) * Sq(w.cfg.sigmaThreshold) >= Sq((n - 1) as real)
  }

  /** Then no own record is ever a spike. */
  lemma {:induction false} QuietMinutes(w: Setting, tr: Trackers, m: nat)
    requires m >= 1
    ensures Minutes(OwnAfter(w, tr, m)) == Minutes(OwnAfter(w, tr, 1))
    ensures Minute(w.now) in Minutes(OwnAfter(w, tr, m))
    decreases m
  {
    hide Minutes, AfterRecord, Minute;
    if m > 1 {
      QuietMinutes(w, tr, m - 1);
      MinutesStay(OwnAfter(w, tr, m - 2), w.now, w.cfg.windowHours);
    } else {
      MinutesStay(OwnAfter(w, tr, 0), w.now, w.cfg.windowHours);
    }
  }

  lemma QuietNeverSpikes(w: Setting, tr: Trackers, m: nat)
    requires IsSqrt(w.env.sqrt) && w.cfg.sigmaThreshold >= 0.0 && Quiet(w, tr)
    ensures !OwnSpikes(w, tr, m)
  {
    hide Sq, Minute, Minutes, OwnAfter, Spikes, IsSqrt;
    if OwnSpikes(w, tr, m) {
      QuietMinutes(w, tr, m);
      SpikeNeedsMinutes(OwnAfter(w, tr, m), w.now, w.cfg.sigmaThreshold, w.env.sqrt);
    }
  }

  /**
   So with n sigma^2 >= (n - 1)^2 one external event and everything it re-injects
   raise at most four anomalies, in at most thirty rule steps, however the goroutines
   interleave.
   */
  lemma FeedbackEnds(w: Setting, tr: Trackers, ev: BastionEvent, schedule: seq<nat>)
    requires Frozen(w, ev) && Quiet(w, tr) && Runs(w, Start(tr, ev), schedule)
    ensures var s := After(w, Start(tr, ev), schedule);
      && |s.fired| <= 4
      && |schedule| <= RULES * (1 + |s.fired|) <= 30
      && ((forall i :: !CanStep(s, i)) ==> |schedule| == RULES * (1 + |s.fired|))
  {
    hide Quiet, After, Runs, OwnSpikes, OwnRecords, Expected, CanStep;
    QuietNeverSpikes(w, tr, OwnRecords(w, tr, ev));
    FeedbackIsExact(w, tr, ev, schedule);
    ExpectedAtMostFour(w, tr, ev);
  }

  /** With the default threshold, ten or fewer minutes of own events are quiet. */
  lemma DefaultIsQuiet(w: Setting, tr: Trackers)
    requires w.cfg.sigmaThreshold == 3.0 && |Minutes(OwnAfter(w, tr, 1))| <= 10
    ensures Quiet(w, tr)
  {
    hide Sq, Minute, AfterRecord;
    MinutesStay(Held(tr.windows, TRACKER_KEY), w.now, w.cfg.windowHours);
    LowMinutes(|Minutes(OwnAfter(w, tr, 1))| as real);
  }

  /** Four is attained: one blocked cross-tenant attempt can raise four anomalies by itself. */
  lemma FourAreRaised(sqrt: real -> real) returns (w: Setting, tr: Trackers, ev: BastionEvent, schedule: seq<nat>)
    requires IsSqrt(sqrt)
    ensures Frozen(w, ev) && Quiet(w, tr)
    ensures Runs(w, Start(tr, ev), schedule) && |After(w, Start(tr, ev), schedule).fired| == 4
  {
    w := Setting(Config(true, 0.0, 1, 1, None, 1, 0, 0), Env(sqrt, (t: Time) => 0), MINUTE);
    ev := ZERO_EVENT.(moduleName := "m", eventType := "cross_tenant_attempt", userId := "u", status := "blocked");
    var k := Key("m", "cross_tenant_attempt");
    tr := Trackers(map[k := WindowAfter(Block(1, 0) + Block(9, 1), 1)], map[], map[], Honey.Layers(map[], map[]));
    assert Quiet(w, tr) by {
      QuietAtFirst(w, tr);
    }
    BusyMinuteFlagged(sqrt);
    var o0 := SpikeRule(w.cfg, w.env, tr, ev, MINUTE);
    var o1 := HighFreqRule(w.cfg, o0.trackers, ev, MINUTE);
    var o2 := RepeatedBlockRule(w.cfg, o1.trackers, ev, MINUTE);
    var o3 := CrossTenantRule(o2.trackers, ev, MINUTE);
    assert |o0.anomalies| == 1;
    assert |o1.anomalies| == 1 && |o2.anomalies| == 1 && |o3.anomalies| == 1;
    hide SpikeRule, HighFreqRule, RepeatedBlockRule, CrossTenantRule, Quiet, Frozen, Runs, After, Spawn;
    schedule := [0, 0, 0, 0];
    FourSteps(w, tr, ev, o0, o1, o2, o3);
  }

  lemma QuietAtFirst(w: Setting, tr: Trackers)
    requires w.cfg.sigmaThreshold == 0.0 && TRACKER_KEY !in tr.windows
    ensures Quiet(w, tr)
  {
    hide Minute;
    assert OwnAfter(w, tr, 1) == [Bucket(1, w.now)];
    assert Minutes([Bucket(1, w.now)]) == {Minute(w.now)};
  }

  lemma BusyMinuteFlagged(sqrt: real -> real)
    requires IsSqrt(sqrt)
    ensures Spikes(AfterRecord(WindowAfter(Block(1, 0) + Block(9, 1), 1), MINUTE, 1), MINUTE, 0.0, sqrt)
  {
    hide Spikes, IsSqrt, AfterRecord;
    var times := Block(1, 0) + Block(9, 1) + [MINUTE];
    assert times[..10] == Block(1, 0) + Block(9, 1);
    assert NoneExpires(times, 1);
    AllHeld(times, 1);
    assert Up(2)[..1] == [0] && [0][..0] == [];
    assert Row([0], 1) == Row([], 1) + Block(1, 0) == Block(1, 0);
    assert Row(Up(2), 1) == Block(1, 0) + Block(1, 1);
    assert PeakTimes(Up(2), 1, 9) == times;
    PeakFlaggedIff(Up(2), 1, 9, 0.0, sqrt);
    assert WindowAfter(times, 1) == AfterRecord(WindowAfter(times[..10], 1), MINUTE, 1);
  }

  lemma FourSteps(w: Setting, tr: Trackers, ev: BastionEvent, o0: Outcome, o1: Outcome, o2: Outcome, o3: Outcome)
    requires w.cfg.enabled && InspectedAt(ev, w.now) == w.now
    requires o0 == SpikeRule(w.cfg, w.env, tr, ev, w.now)
    requires o1 == HighFreqRule(w.cfg, o0.trackers, ev, w.now)
    requires o2 == RepeatedBlockRule(w.cfg, o1.trackers, ev, w.now)
    requires o3 == CrossTenantRule(o2.trackers, ev, w.now)
    ensures Runs(w, Start(tr, ev), [0, 0, 0, 0])
    ensures |After(w, Start(tr, ev), [0, 0, 0, 0]).fired|
      == |o0.anomalies| + |o1.anomalies| + |o2.anomalies| + |o3.anomalies|
  {
    hide SpikeRule, HighFreqRule, RepeatedBlockRule, CrossTenantRule, Spawn;
    var s0 := Start(tr, ev);
    var s1 := Step(w, s0, 0);
    var s2 := Step(w, s1, 0);
    var s3 := Step(w, s2, 0);
    var s4 := Step(w, s3, 0);
    assert [0, 0, 0, 0][1..] == [0, 0, 0] && [0, 0, 0][1..] == [0, 0] && [0, 0][1..] == [0] && [0][1..] == [];
    assert Runs(w, s4, []) && After(w, s4, []) == s4;
    assert Runs(w, s3, [0]) && After(w, s3, [0]) == s4;
    assert Runs(w, s2, [0, 0]) && After(w, s2, [0, 0]) == s4;
    assert Runs(w, s1, [0, 0, 0]) && After(w, s1, [0, 0, 0]) == s4;
  }

  // Divergence

  /** An event of the detector's own type that has not been inspected yet. */
  ghost predicate Fresh(s: System, i: nat) {
    i < |s.tasks| && s.tasks[i].pc == 0 && IsOwn(s.tasks[i].ev) && s.tasks[i].ev.timestamp == ZERO_TIME
  }

  /** The windows after a record are the windows it was to lead to. */
  lemma {:induction false} OneRecordOn(w: Setting, tr: Trackers, next: Trackers, r: nat, m: nat)
    requires Held(next.windows, TRACKER_KEY) == OwnAfter(w, tr, r)
    ensures OwnAfter(w, next, m) == OwnAfter(w, tr, r + m)
  {
    hide AfterRecord;
    if m > 0 {
      OneRecordOn(w, tr, next, r, m - 1);
    }
  }

  /** An own event that is a spike raises an anomaly, and leaves behind a fresh event that is one, too. */
  lemma RaisesAnother(w: Setting, s: System, i: nat)
    requires w.cfg.enabled && IsSqrt(w.env.sqrt) && w.cfg.sigmaThreshold >= 0.0
    requires CanStep(s, i) && s.tasks[i].pc == 0 && IsOwn(s.tasks[i].ev) && InspectedAt(s.tasks[i].ev, w.now) == w.now
    requires OwnSpikes(w, s.trackers, 1)
    ensures |Step(w, s, i).fired| == |s.fired| + 1
    ensures OwnSpikes(w, Step(w, s, i).trackers, 1) && Fresh(Step(w, s, i), |s.tasks|)
  {
    hide IsSqrt, Spikes, AfterRecord;
    var o := Fires(w, s, i);
    assert OwnAfter(w, s.trackers, 0) == Held(s.trackers.windows, TRACKER_KEY);
    assert |o.anomalies| == 1;
    assert Held(o.trackers.windows, TRACKER_KEY) == OwnAfter(w, s.trackers, 1);
    OneRecordOn(w, s.trackers, o.trackers, 1, 1);
    OwnSpikesStay(w, s.trackers, 1, 2);
    assert Step(w, s, i).tasks[|s.tasks|] == Spawn(o.anomalies)[0];
  }

  /** From there, whatever the number, some run raises that many more. */
  lemma {:induction false} NeverEnds(w: Setting, s: System, i: nat, more: nat) returns (schedule: seq<nat>)
    requires w.cfg.enabled && IsSqrt(w.env.sqrt) && w.cfg.sigmaThreshold >= 0.0
    requires OwnSpikes(w, s.trackers, 1) && Fresh(s, i)
    ensures Runs(w, s, schedule)
    ensures |After(w, s, schedule).fired| == |s.fired| + more
    decreases more
  {
    hide IsSqrt, OwnSpikes, Step;
    if more == 0 {
      schedule := [];
    } else {
      RaisesAnother(w, s, i);
      var rest := NeverEnds(w, Step(w, s, i), |s.tasks|, more - 1);
      schedule := [i] + rest;
      assert schedule[1..] == rest;
    }
  }

  lemma {:induction false} RunsConcat(w: Setting, s: System, a: seq<nat>, b: seq<nat>)
    requires Runs(w, s, a) && Runs(w, After(w, s, a), b)
    ensures Runs(w, s, a + b) && After(w, s, a + b) == After(w, After(w, s, a), b)
    decreases |a|
  {
    hide Step, CanStep;
    if a == [] {
      assert a + b == b;
    } else {
      RunsConcat(w, Step(w, s, a[0]), a[1..], b);
      assert (a + b)[1..] == a[1..] + b;
    }
  }

  /** While the last expected own record is a spike, no state in which none was is final. */
  lemma Unfinished(w: Setting, tr: Trackers, ev: BastionEvent, s: System, high: nat) returns (i: nat)
    requires Inv(w, tr, ev, s, high) && OwnSpikes(w, tr, OwnRecords(w, tr, ev))
    ensures CanStep(s, i)
  {
    hide OwnSpikes, OwnRecords, Total, CanStep;
    if j: nat :| CanStep(s, j) {
      i := j;
    } else {
      i := 0;
      InvAtEnd(w, tr, ev, s, high);
    }
  }

  /** Such a state is led to an own record that is a spike. */
  lemma {:induction false} ReachOwnSpike(
    w: Setting, tr: Trackers, ev: BastionEvent, s: System, high: nat) returns (schedule: seq<nat>, i: nat)
    requires Frozen(w, ev) && Inv(w, tr, ev, s, high)
    requires OwnSpikes(w, tr, OwnRecords(w, tr, ev))
    ensures Runs(w, s, schedule)
    ensures OwnSpikes(w, After(w, s, schedule).trackers, 1) && Fresh(After(w, s, schedule), i)
    decreases RULES * (1 + Expected(w, tr, ev)) - Total(s.tasks, Ran())
  {
    hide Inv, Frozen, OwnSpikes, Step, CanStep, Fresh, SpikesNow, Total, Expected, OwnRecords;
    var k := Unfinished(w, tr, ev, s, high);
    InvBounds(w, tr, ev, s, high);
    var next := Step(w, s, k);
    if SpikesNow(w, tr, s, k) {
      SpikeReached(w, tr, ev, s, high, k);
      schedule, i := [k], |s.tasks|;
      assert [k][1..] == [];
      assert Runs(w, next, []) && After(w, next, []) == next;
    } else {
      var high' := StepKeepsInv(w, tr, ev, s, high, k);
      InvBounds(w, tr, ev, next, high');
      var rest;
      rest, i := ReachOwnSpike(w, tr, ev, next, high');
      schedule := [k] + rest;
      assert schedule[1..] == rest;
    }
  }

  lemma SpikeReached(w: Setting, tr: Trackers, ev: BastionEvent, s: System, high: nat, i: nat)
    requires Frozen(w, ev) && Inv(w, tr, ev, s, high) && CanStep(s, i) && SpikesNow(w, tr, s, i)
    ensures OwnSpikes(w, Step(w, s, i).trackers, 1) && Fresh(Step(w, s, i), |s.tasks|)
  {
    hide Total, Spikes, OwnAfter, IsSqrt, Step, Fresh;
    OneRecordOn(w, tr, s.trackers, Total(s.tasks, Recorded()), 1);
    RaisesAnother(w, s, i);
  }

  /** If the last own record to be expected is a spike, the event sets off as many anomalies as one likes. */
  lemma FeedbackNeverEnds(w: Setting, tr: Trackers, ev: BastionEvent, count: nat) returns (schedule: seq<nat>)
    requires Frozen(w, ev) && OwnSpikes(w, tr, OwnRecords(w, tr, ev))
    ensures Runs(w, Start(tr, ev), schedule) && |After(w, Start(tr, ev), schedule).fired| >= count
  {
    hide Inv, OwnSpikes, OwnRecords, Fresh, Step, CanStep, Runs, After;
    var s := Start(tr, ev);
    StartInv(w, tr, ev);
    var first, i := ReachOwnSpike(w, tr, ev, s, 0);
    var rest := NeverEnds(w, After(w, s, first), i, count);
    RunsConcat(w, s, first, rest);
    schedule := first + rest;
  }

  /** No run raises more than `bound` anomalies. */
  ghost predicate Bounded(w: Setting, s: System, bound: nat) {
    forall schedule | Runs(w, s, schedule) :: |After(w, s, schedule).fired| <= bound
  }

  /** A detector that is switched off raises nothing. */
  lemma {:induction false} DisabledIsSilent(w: Setting, s: System, schedule: seq<nat>)
    requires !w.cfg.enabled && Runs(w, s, schedule)
    ensures After(w, s, schedule).fired == s.fired
    decreases |schedule|
  {
    if schedule != [] {
      DisabledIsSilent(w, Step(w, s, schedule[0]), schedule[1..]);
    }
  }

  /**
   The exact condition, for every event and every window: under a frozen clock the
   feedback is bounded if and only if the detector is switched off or the last own
   record to be expected is no spike.
   */
  lemma FeedbackEndsIff(w: Setting, tr: Trackers, ev: BastionEvent)
    requires FrozenClock(w, ev)
    ensures (exists bound: nat :: Bounded(w, Start(tr, ev), bound))
       <==> !w.cfg.enabled || !OwnSpikes(w, tr, OwnRecords(w, tr, ev))
  {
    hide FrozenClock, After, Runs, OwnSpikes, OwnRecords, Expected, CanStep;
    if w.cfg.enabled && OwnSpikes(w, tr, OwnRecords(w, tr, ev)) {
      forall bound: nat
        ensures !Bounded(w, Start(tr, ev), bound)
      {
        var schedule := FeedbackNeverEnds(w, tr, ev, bound + 1);
      }
    } else {
      var n := if w.cfg.enabled then Expected(w, tr, ev) else 0;
      forall schedule | Runs(w, Start(tr, ev), schedule)
        ensures |After(w, Start(tr, ev), schedule).fired| <= n
      {
        if w.cfg.enabled {
          FeedbackIsExact(w, tr, ev, schedule);
        } else {
          DisabledIsSilent(w, Start(tr, ev), schedule);
        }
      }
      assert Bounded(w, Start(tr, ev), n);
    }
  }

  /**
   When the own events spread evenly over the other minutes, the first record
   decides, and n sigma^2 < (n - 1)^2 does.
   */
  lemma EvenlySpread(w: Setting, tr: Trackers, base: nat, extra: nat)
    requires IsSqrt(w.env.sqrt) && w.cfg.sigmaThreshold >= 0.0 && extra >= 1
    requires var window := OwnAfter(w, tr, 1);
      && |window| >= MIN_SAMPLES && |Minutes(window)| >= 2
      && (forall m <- Minutes(window) :: CountAt(window, m) == base + if m == Minute(w.now) then extra else 0)
    ensures OwnSpikes(w, tr, 1) <==> !Quiet(w, tr)
  {
    hide Sq, Spikes, IsSqrt, OwnAfter, Minute, Minutes, CountAt;
    QuietMinutes(w, tr, 1);
    EqualMinutesFlagged(OwnAfter(w, tr, 1), w.now, base, extra, w.cfg.sigmaThreshold, w.env.sqrt);
  }

  /**
   An endless loop with the default settings: one own event in each of eleven minutes,
   and then a single cross-tenant attempt.
   */
  lemma EndlessExample(sqrt: real -> real) returns (w: Setting, tr: Trackers, ev: BastionEvent)
    requires IsSqrt(sqrt)
    ensures w.cfg == Config(true, 3.0, 1, 30, None, 3, 0, 0)
    ensures tr == Trackers(map[TRACKER_KEY := WindowAfter(Row(Up(11), 1), 1)], map[], map[], Honey.Layers(map[], map[]))
    ensures ev == ZERO_EVENT.(moduleName := "vault", eventType := "cross_tenant_attempt")
    ensures Frozen(w, ev) && Expected(w, tr, ev) == 1 && OwnSpikes(w, tr, 1)
    ensures forall bound: nat :: !Bounded(w, Start(tr, ev), bound)
  {
    w := Setting(Config(true, 3.0, 1, 30, None, 3, 0, 0), Env(sqrt, (t: Time) => 0), 10 * MINUTE);
    ev := ZERO_EVENT.(moduleName := "vault", eventType := "cross_tenant_attempt");
    tr := Trackers(map[TRACKER_KEY := WindowAfter(Row(Up(11), 1), 1)], map[], map[], Honey.Layers(map[], map[]));
    OneAttempt(w, tr, ev);
    ElevenOwn(w, tr);
    hide Bounded, Expected, WindowAfter, Row, OwnSpikes, IsSqrt;
    assert OwnRecords(w, tr, ev) == 1;
    FeedbackEndsIff(w, tr, ev);
  }

  lemma ElevenOwn(w: Setting, tr: Trackers)
    requires IsSqrt(w.env.sqrt) && w.cfg.sigmaThreshold == 3.0 && w.cfg.windowHours == 1 && w.now == 10 * MINUTE
    requires TRACKER_KEY in tr.windows && tr.windows[TRACKER_KEY] == WindowAfter(Row(Up(11), 1), 1)
    ensures OwnSpikes(w, tr, 1)
  {
    hide Spikes, IsSqrt, WindowAfter, Row, AfterRecord, Minutes;
    ElevenMinutesSuffice(1, w.env.sqrt);
    OneMoreRecord(Row(Up(11), 1), 10 * MINUTE);
    assert OwnAfter(w, tr, 0) == tr.windows[TRACKER_KEY];
  }

  lemma OneMoreRecord(times: seq<Time>, t: Time)
    ensures times + Block(1, 10) == times + [10 * MINUTE]
    ensures WindowAfter(times + [t], 1) == AfterRecord(WindowAfter(times, 1), t, 1)
  {
    assert (times + [t])[..|times|] == times;
  }

  /** A cross-tenant attempt of no user in particular raises one anomaly. */
  lemma OneAttempt(w: Setting, tr: Trackers, ev: BastionEvent)
    requires Frozen(w, ev) && ev.eventType == "cross_tenant_attempt" && ev.userId == ""
    requires Key(ev.moduleName, ev.eventType) !in tr.windows
    ensures !IsOwn(ev) && Expected(w, tr, ev) == 1
  {
    hide RaisesBefore, IsSqrt;
    SixRules(w, tr, ev);
    assert "cross_tenant_attempt"[0] == 'c' && "honey_token_"[0] == 'h' && "anomaly_detected"[0] == 'a';
    assert !IsOwn(ev);
    var first := AfterRecord([], w.now, w.cfg.windowHours);
    assert |first| == 1;
    assert !Spikes(first, w.now, w.cfg.sigmaThreshold, w.env.sqrt);
  }
}
