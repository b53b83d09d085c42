/**
 What a run of Inspect calls reports: for each of the six patterns of
 internal/anomaly/detector.go, when it is among the anomalies of the last event, in terms
 of the events alone.
 */
module Patterns {
  import opened Models
  import opened Seqs
  import Spike
  import Windows
  import Honey
  import opened Rules
  import opened Stats

  /** When an event counts as having happened. */
  function AtOf(): Inspection -> Time {
    (i: Inspection) => if i.ev.timestamp == ZERO_TIME then i.now else i.ev.timestamp
  }

  /** What Inspect hands to the sink for the last event of a run. */
  ghost function Fired(cfg: Config, env: Env, before: seq<Inspection>, ev: BastionEvent, now: Time): seq<Anomaly> {
    Inspected(cfg, env, StateAfter(cfg, env, before), ev, now).anomalies
  }

  ghost predicate Reported(fired: seq<Anomaly>, pattern: string) {
    exists a <- fired :: a.pattern == pattern
  }

  // The parts of the state

  /** The rules do not disturb one another: each sees what was there before the event. */
  lemma RulesApart(cfg: Config, env: Env, tr: Trackers, ev: BastionEvent, at: Time)
    ensures var o := RulesFrom(cfg, env, tr, ev, at, 0);
      && o.anomalies == SpikeRule(cfg, env, tr, ev, at).anomalies + HighFreqRule(cfg, tr, ev, at).anomalies
           + RepeatedBlockRule(cfg, tr, ev, at).anomalies + CrossTenantRule(tr, ev, at).anomalies
           + HoneyRule(tr, ev, at).anomalies + OffHoursRule(cfg, env, tr, ev, at).anomalies
      && o.trackers == Trackers(
           SpikeRule(cfg, env, tr, ev, at).trackers.windows,
           HighFreqRule(cfg, tr, ev, at).trackers.users,
           RepeatedBlockRule(cfg, tr, ev, at).trackers.blocks,
           HoneyRule(tr, ev, at).trackers.layers)
  {
    var o0 := SpikeRule(cfg, env, tr, ev, at);
    OnlyWindows(cfg, env, tr, ev, at);
    var o1 := HighFreqRule(cfg, o0.trackers, ev, at);
    OnlyUsers(cfg, tr, o0.trackers, ev, at);
    var o2 := RepeatedBlockRule(cfg, o1.trackers, ev, at);
    OnlyBlocks(cfg, tr, o1.trackers, ev, at);
    var o3 := CrossTenantRule(o2.trackers, ev, at);
    var o4 := HoneyRule(o3.trackers, ev, at);
    OnlyLayers(tr, o3.trackers, ev, at);
    var o5 := OffHoursRule(cfg, env, o4.trackers, ev, at);
    assert o3.anomalies == CrossTenantRule(tr, ev, at).anomalies && o3.trackers == o2.trackers;
    assert o5.anomalies == OffHoursRule(cfg, env, tr, ev, at).anomalies && o5.trackers == o4.trackers;
    hide SpikeRule, HighFreqRule, RepeatedBlockRule, CrossTenantRule, HoneyRule, OffHoursRule;
    LastTwo(cfg, env, o3.trackers, ev, at);
    var r4 := RulesFrom(cfg, env, o3.trackers, ev, at, 4);
    var r3 := RulesFrom(cfg, env, o2.trackers, ev, at, 3);
    assert r3 == Outcome(r4.trackers, o3.anomalies + r4.anomalies);
    var r2 := RulesFrom(cfg, env, o1.trackers, ev, at, 2);
    assert r2 == Outcome(r3.trackers, o2.anomalies + r3.anomalies);
    var r1 := RulesFrom(cfg, env, o0.trackers, ev, at, 1);
    assert r1 == Outcome(r2.trackers, o1.anomalies + r2.anomalies);
    hide RulesFrom;
    Associate(o0.anomalies, o1.anomalies, o2.anomalies, o3.anomalies, o4.anomalies, o5.anomalies);
  }

  lemma LastTwo(cfg: Config, env: Env, tr: Trackers, ev: BastionEvent, at: Time)
    ensures var o4 := HoneyRule(tr, ev, at);
            var o5 := OffHoursRule(cfg, env, o4.trackers, ev, at);
      RulesFrom(cfg, env, tr, ev, at, 4) == Outcome(o5.trackers, o4.anomalies + o5.anomalies)
  {
    hide HoneyRule, OffHoursRule;
    var o5 := OffHoursRule(cfg, env, HoneyRule(tr, ev, at).trackers, ev, at);
    assert o5.anomalies + [] == o5.anomalies;
  }

  lemma Associate<T>(a: seq<T>, b: seq<T>, c: seq<T>, d: seq<T>, e: seq<T>, f: seq<T>)
    ensures a + (b + (c + (d + (e + f)))) == a + b + c + d + e + f
  {
  }

  lemma OnlyWindows(cfg: Config, env: Env, tr: Trackers, ev: BastionEvent, at: Time)
    ensures var t := SpikeRule(cfg, env, tr, ev, at).trackers;
      t.users == tr.users && t.blocks == tr.blocks && t.layers == tr.layers
  {
  }

  lemma OnlyUsers(cfg: Config, tr: Trackers, tr': Trackers, ev: BastionEvent, at: Time)
    requires tr'.users == tr.users
    ensures var o, o' := HighFreqRule(cfg, tr, ev, at), HighFreqRule(cfg, tr', ev, at);
      && o'.anomalies == o.anomalies
      && o'.trackers == tr'.(users := o.trackers.users)
  {
  }

  lemma OnlyBlocks(cfg: Config, tr: Trackers, tr': Trackers, ev: BastionEvent, at: Time)
    requires tr'.blocks == tr.blocks
    ensures var o, o' := RepeatedBlockRule(cfg, tr, ev, at), RepeatedBlockRule(cfg, tr', ev, at);
      && o'.anomalies == o.anomalies
      && o'.trackers == tr'.(blocks := o.trackers.blocks)
  {
  }

  lemma OnlyLayers(tr: Trackers, tr': Trackers, ev: BastionEvent, at: Time)
    requires tr'.layers == tr.layers
    ensures var o, o' := HoneyRule(tr, ev, at), HoneyRule(tr', ev, at);
      && o'.anomalies == o.anomalies
      && o'.trackers == tr'.(layers := o.trackers.layers)
  {
  }

  // Closed forms of the state

  /** The times of the inspections that satisfy p, in order. */
  function TimesOf(p: Inspection -> bool, run: seq<Inspection>): seq<Time> {
    MapSeq(AtOf(), Filter(p, run))
  }

  lemma TimesSnoc(p: Inspection -> bool, before: seq<Inspection>, i: Inspection)
    ensures TimesOf(p, before + [i]) == TimesOf(p, before) + (if p(i) then [AtOf()(i)] else [])
  {
    FilterSnoc(p, before, i);
    hide Filter, AtOf;
    assert Filter(p, before) + [] == Filter(p, before);
  }

  lemma StateSnoc(cfg: Config, env: Env, before: seq<Inspection>, i: Inspection)
    ensures StateAfter(cfg, env, before + [i])
      == Inspected(cfg, env, StateAfter(cfg, env, before), i.ev, i.now).trackers
  {
    hide Inspected;
    assert (before + [i])[..|before|] == before;
  }

  /** Same module, same type. */
  function OfKey(moduleName: string, eventType: string): Inspection -> bool {
    (i: Inspection) => i.ev.moduleName == moduleName && i.ev.eventType == eventType
  }

  /** A named user whose tenant and name, joined by a colon, are this string. */
  function OfUser(key: string): Inspection -> bool {
    (i: Inspection) => i.ev.userId != "" && i.ev.tenantId + ":" + i.ev.userId == key
  }

  function BlockedUser(key: string): Inspection -> bool {
    (i: Inspection) => i.ev.status == "blocked" && i.ev.userId != "" && i.ev.tenantId + ":" + i.ev.userId == key
  }

  function IsHoneyHit(): Inspection -> bool {
    (i: Inspection) =>
      && i.ev.traceId != "" && |i.ev.eventType| >= 12 && i.ev.eventType[..12] == "honey_token_"
  }

  function HitOf(): Inspection -> Honey.Hit {
    (i: Inspection) => Honey.Hit(i.ev.traceId, i.ev.moduleName, AtOf()(i))
  }

  /** The honey-token hits of a run. */
  function HitsOf(run: seq<Inspection>): seq<Honey.Hit> {
    MapSeq(HitOf(), Filter(IsHoneyHit(), run))
  }

  /** The window of a module and type is that of its own records. */
  lemma {:induction false} WindowsAre(
    cfg: Config, env: Env, run: seq<Inspection>, moduleName: string, eventType: string)
    requires cfg.enabled
    ensures Held(StateAfter(cfg, env, run).windows, Spike.Key(moduleName, eventType))
      == Spike.WindowAfter(TimesOf(OfKey(moduleName, eventType), run), cfg.windowHours)
  {
    hide Spike.Spikes, Spike.AfterRecord, HighFreqRule, RepeatedBlockRule, CrossTenantRule, HoneyRule, OffHoursRule,
      RulesFrom, Filter;
    if run == [] {
      NoTimes(OfKey(moduleName, eventType));
    } else {
      var before, i := run[..|run| - 1], run[|run| - 1];
      assert run == before + [i];
      WindowsAre(cfg, env, before, moduleName, eventType);
      StateSnoc(cfg, env, before, i);
      RulesApart(cfg, env, StateAfter(cfg, env, before), i.ev, AtOf()(i));
      hide StateAfter, TimesOf;
      TimesSnoc(OfKey(moduleName, eventType), before, i);
      WindowSnoc(TimesOf(OfKey(moduleName, eventType), before), AtOf()(i), cfg.windowHours);
    }
  }

  lemma NoTimes(p: Inspection -> bool)
    ensures TimesOf(p, []) == []
  {
  }

  lemma WindowSnoc(times: seq<Time>, at: Time, windowH: int)
    ensures Spike.WindowAfter(times + [at], windowH)
      == Spike.AfterRecord(Spike.WindowAfter(times, windowH), at, windowH)
    ensures times + [] == times
  {
    assert (times + [at])[..|times|] == times;
  }

  /** The window of a user is that of its own events in the last minute. */
  lemma {:induction false} UsersAre(cfg: Config, env: Env, run: seq<Inspection>, key: string)
    requires cfg.enabled && cfg.highFreqUserLimit > 0
    ensures Held(StateAfter(cfg, env, run).users, key)
      == Windows.Survivors(TimesOf(OfUser(key), run), 60 * 1_000_000_000)
  {
    hide SpikeRule, RepeatedBlockRule, CrossTenantRule, HoneyRule, OffHoursRule, RulesFrom, Filter, Windows.AddTo;
    if run == [] {
      NoTimes(OfUser(key));
    } else {
      var before, i := run[..|run| - 1], run[|run| - 1];
      assert run == before + [i];
      UsersAre(cfg, env, before, key);
      StateSnoc(cfg, env, before, i);
      RulesApart(cfg, env, StateAfter(cfg, env, before), i.ev, AtOf()(i));
      hide StateAfter, TimesOf;
      TimesSnoc(OfUser(key), before, i);
      SurvivorsAdd(TimesOf(OfUser(key), before), AtOf()(i), 60 * 1_000_000_000);
    }
  }

  lemma SurvivorsAdd(times: seq<Time>, at: Time, window: int)
    ensures Windows.Survivors(times + [at], window) == Windows.AddTo(Windows.Survivors(times, window), at, window)
    ensures times + [] == times
  {
    Windows.SurvivorsSnoc(times, at, window);
  }

  /** The window in which blocks are counted: five minutes unless another one is configured. */
  function BlockSpan(cfg: Config): int {
    match cfg.repeatedBlockWindow
    case Some(window) => window
    case None => 5 * 60 * 1_000_000_000
  }

  lemma {:induction false} BlocksAre(cfg: Config, env: Env, run: seq<Inspection>, key: string)
    requires cfg.enabled && cfg.repeatedBlockCount > 0
    ensures Held(StateAfter(cfg, env, run).blocks, "block:" + key)
      == Windows.Survivors(TimesOf(BlockedUser(key), run), BlockSpan(cfg))
  {
    hide SpikeRule, HighFreqRule, CrossTenantRule, HoneyRule, OffHoursRule, RulesFrom, Filter, Windows.AddTo;
    if run == [] {
      NoTimes(BlockedUser(key));
    } else {
      var before, i := run[..|run| - 1], run[|run| - 1];
      assert run == before + [i];
      BlocksAre(cfg, env, before, key);
      StateSnoc(cfg, env, before, i);
      RulesApart(cfg, env, StateAfter(cfg, env, before), i.ev, AtOf()(i));
      hide StateAfter, TimesOf;
      TimesSnoc(BlockedUser(key), before, i);
      SurvivorsAdd(TimesOf(BlockedUser(key), before), AtOf()(i), BlockSpan(cfg));
      SamePrefix(i.ev.tenantId, i.ev.userId, key);
    }
  }

  lemma SamePrefix(tenantId: string, userId: string, key: string)
    ensures "block:" + tenantId + ":" + userId == "block:" + key <==> tenantId + ":" + userId == key
  {
    var name := tenantId + ":" + userId;
    assert "block:" + tenantId + ":" + userId == "block:" + name;
    assert ("block:" + name)[6..] == name && ("block:" + key)[6..] == key;
  }

  lemma {:induction false} LayersAre(cfg: Config, env: Env, run: seq<Inspection>)
    requires cfg.enabled
    ensures StateAfter(cfg, env, run).layers == Honey.After(HitsOf(run))
  {
    hide SpikeRule, HighFreqRule, RepeatedBlockRule, CrossTenantRule, OffHoursRule, RulesFrom, Filter, Honey.AddHit,
      Honey.Expire, Honey.After;
    if run == [] {
      NoHits();
    } else {
      var before, i := run[..|run| - 1], run[|run| - 1];
      assert run == before + [i];
      LayersAre(cfg, env, before);
      StateSnoc(cfg, env, before, i);
      RulesApart(cfg, env, StateAfter(cfg, env, before), i.ev, AtOf()(i));
      hide StateAfter, HitsOf;
      HitsSnoc(before, i);
      Honey.AfterSnoc(HitsOf(before), HitOf()(i));
      IsHoneyIff(i);
    }
  }

  lemma NoHits()
    ensures HitsOf([]) == [] && Honey.After([]) == Honey.Layers(map[], map[])
  {
  }

  lemma HitsSnoc(before: seq<Inspection>, i: Inspection)
    ensures HitsOf(before + [i]) == if IsHoneyHit()(i) then HitsOf(before) + [HitOf()(i)] else HitsOf(before)
  {
    FilterSnoc(IsHoneyHit(), before, i);
    hide Filter, HitOf;
    assert Filter(IsHoneyHit(), before) + [] == Filter(IsHoneyHit(), before);
  }

  lemma IsHoneyIff(i: Inspection)
    ensures IsHoneyHit()(i) <==> IsHoney(i.ev) && i.ev.traceId != ""
  {
    assert |"honey_token_"| == 12;
  }

  // The six patterns

  const SPIKE := "statistical_spike"
  const HIGH_FREQ := "high_freq_user"
  const REPEATED_BLOCK := "repeated_block"
  const CROSS_TENANT := "cross_tenant_signal"
  const MULTI_LAYER := "honey_multi_layer"
  const OFF_HOURS := "off_hours_access"

  lemma NamesDiffer()
    ensures SPIKE != HIGH_FREQ && SPIKE != REPEATED_BLOCK && SPIKE != CROSS_TENANT && SPIKE != MULTI_LAYER
      && SPIKE != OFF_HOURS
    ensures HIGH_FREQ != REPEATED_BLOCK && HIGH_FREQ != CROSS_TENANT && HIGH_FREQ != MULTI_LAYER
      && HIGH_FREQ != OFF_HOURS
    ensures REPEATED_BLOCK != CROSS_TENANT && REPEATED_BLOCK != MULTI_LAYER && REPEATED_BLOCK != OFF_HOURS
    ensures CROSS_TENANT != MULTI_LAYER && CROSS_TENANT != OFF_HOURS
    ensures MULTI_LAYER != OFF_HOURS
  {
    assert SPIKE[0] == 's' && HIGH_FREQ[0] == 'h' && HIGH_FREQ[1] == 'i' && REPEATED_BLOCK[0] == 'r';
    assert CROSS_TENANT[0] == 'c' && MULTI_LAYER[0] == 'h' && MULTI_LAYER[1] == 'o' && OFF_HOURS[0] == 'o';
  }

  /** One anomaly of this pattern, or none. */
  function One(there: bool, pattern: string, severity: string, ev: BastionEvent, at: Time): seq<Anomaly> {
    if there then [Anomaly(pattern, severity, ev.tenantId, ev.userId, ev.traceId, at)] else []
  }

  /** Which of the six there are. */
  datatype Findings = Findings(
    spike: bool, highFreq: bool, repeatedBlock: bool, crossTenant: bool, multiLayer: bool, offHours: bool)

  function Listed(f: Findings, ev: BastionEvent, at: Time): seq<Anomaly> {
    One(f.spike, SPIKE, "warning", ev, at)
    + One(f.highFreq, HIGH_FREQ, "warning", ev, at)
    + One(f.repeatedBlock, REPEATED_BLOCK, "critical", ev, at)
    + One(f.crossTenant, CROSS_TENANT, "critical", ev, at)
    + One(f.multiLayer, MULTI_LAYER, "critical", ev, at)
    + One(f.offHours, OFF_HOURS, "warning", ev, at)
  }

  ghost function FindingsOf(fired: seq<Anomaly>): Findings {
    Findings(
      Reported(fired, SPIKE), Reported(fired, HIGH_FREQ), Reported(fired, REPEATED_BLOCK),
      Reported(fired, CROSS_TENANT), Reported(fired, MULTI_LAYER), Reported(fired, OFF_HOURS))
  }

  lemma ReportedConcat(a: seq<Anomaly>, b: seq<Anomaly>, p: string)
    ensures Reported(a + b, p) <==> Reported(a, p) || Reported(b, p)
  {
    assert forall x :: x in a + b <==> x in a || x in b;
  }

  lemma ReportedOne(there: bool, pattern: string, severity: string, ev: BastionEvent, at: Time, p: string)
    ensures Reported(One(there, pattern, severity, ev, at), p) <==> there && p == pattern
  {
    if there {
      assert One(there, pattern, severity, ev, at)[0].pattern == pattern;
    }
  }

  lemma ReportedListed(f: Findings, ev: BastionEvent, at: Time, p: string)
    ensures Reported(Listed(f, ev, at), p) <==>
      || (f.spike && p == SPIKE) || (f.highFreq && p == HIGH_FREQ) || (f.repeatedBlock && p == REPEATED_BLOCK)
      || (f.crossTenant && p == CROSS_TENANT) || (f.multiLayer && p == MULTI_LAYER) || (f.offHours && p == OFF_HOURS)
  {
    hide One, Reported, SPIKE, HIGH_FREQ, REPEATED_BLOCK, CROSS_TENANT, MULTI_LAYER, OFF_HOURS;
    var s0 := One(f.spike, SPIKE, "warning", ev, at);
    var s1 := One(f.highFreq, HIGH_FREQ, "warning", ev, at);
    var s2 := One(f.repeatedBlock, REPEATED_BLOCK, "critical", ev, at);
    var s3 := One(f.crossTenant, CROSS_TENANT, "critical", ev, at);
    var s4 := One(f.multiLayer, MULTI_LAYER, "critical", ev, at);
    var s5 := One(f.offHours, OFF_HOURS, "warning", ev, at);
    ReportedConcat(s0, s1, p);
    ReportedConcat(s0 + s1, s2, p);
    ReportedConcat(s0 + s1 + s2, s3, p);
    ReportedConcat(s0 + s1 + s2 + s3, s4, p);
    ReportedConcat(s0 + s1 + s2 + s3 + s4, s5, p);
    ReportedOne(f.spike, SPIKE, "warning", ev, at, p);
    ReportedOne(f.highFreq, HIGH_FREQ, "warning", ev, at, p);
    ReportedOne(f.repeatedBlock, REPEATED_BLOCK, "critical", ev, at, p);
    ReportedOne(f.crossTenant, CROSS_TENANT, "critical", ev, at, p);
    ReportedOne(f.multiLayer, MULTI_LAYER, "critical", ev, at, p);
    ReportedOne(f.offHours, OFF_HOURS, "warning", ev, at, p);
  }

  /** What is listed can be read back. */
  lemma FindingsListed(f: Findings, ev: BastionEvent, at: Time)
    ensures FindingsOf(Listed(f, ev, at)) == f
  {
    hide Listed, Reported, SPIKE, HIGH_FREQ, REPEATED_BLOCK, CROSS_TENANT, MULTI_LAYER, OFF_HOURS;
    NamesDiffer();
    ReportedListed(f, ev, at, SPIKE);
    ReportedListed(f, ev, at, HIGH_FREQ);
    ReportedListed(f, ev, at, REPEATED_BLOCK);
    ReportedListed(f, ev, at, CROSS_TENANT);
    ReportedListed(f, ev, at, MULTI_LAYER);
    ReportedListed(f, ev, at, OFF_HOURS);
  }

  /** What each rule finds. */
  ghost function Found(cfg: Config, env: Env, tr: Trackers, ev: BastionEvent, at: Time): Findings {
    Findings(
      SpikeRule(cfg, env, tr, ev, at).anomalies != [], HighFreqRule(cfg, tr, ev, at).anomalies != [],
      RepeatedBlockRule(cfg, tr, ev, at).anomalies != [], CrossTenantRule(tr, ev, at).anomalies != [],
      HoneyRule(tr, ev, at).anomalies != [], OffHoursRule(cfg, env, tr, ev, at).anomalies != [])
  }

  lemma RulesReport(cfg: Config, env: Env, tr: Trackers, ev: BastionEvent, at: Time)
    ensures RulesFrom(cfg, env, tr, ev, at, 0).anomalies == Listed(Found(cfg, env, tr, ev, at), ev, at)
  {
    WindowReports(cfg, env, tr, ev, at);
    SignalReports(cfg, env, tr, ev, at);
    RulesApart(cfg, env, tr, ev, at);
    hide One, SpikeRule, HighFreqRule, RepeatedBlockRule, CrossTenantRule, HoneyRule, OffHoursRule, RulesFrom;
  }

  lemma WindowReports(cfg: Config, env: Env, tr: Trackers, ev: BastionEvent, at: Time)
    ensures var a := SpikeRule(cfg, env, tr, ev, at).anomalies; a == One(a != [], SPIKE, "warning", ev, at)
    ensures var a := HighFreqRule(cfg, tr, ev, at).anomalies; a == One(a != [], HIGH_FREQ, "warning", ev, at)
    ensures var a := RepeatedBlockRule(cfg, tr, ev, at).anomalies; a == One(a != [], REPEATED_BLOCK, "critical", ev, at)
  {
    hide Spike.Spikes, Spike.AfterRecord, Windows.AddTo;
  }

  lemma SignalReports(cfg: Config, env: Env, tr: Trackers, ev: BastionEvent, at: Time)
    ensures var a := CrossTenantRule(tr, ev, at).anomalies; a == One(a != [], CROSS_TENANT, "critical", ev, at)
    ensures var a := HoneyRule(tr, ev, at).anomalies; a == One(a != [], MULTI_LAYER, "critical", ev, at)
    ensures var a := OffHoursRule(cfg, env, tr, ev, at).anomalies; a == One(a != [], OFF_HOURS, "warning", ev, at)
  {
    hide Honey.AddHit, Honey.Expire;
  }

  /**
   Each event raises at most one anomaly of each pattern, in a fixed order and with a
   fixed severity, about its own tenant, user and trace and at its own time.
   */
  lemma FiredInOrder(cfg: Config, env: Env, before: seq<Inspection>, ev: BastionEvent, now: Time)
    ensures var fired, at := Fired(cfg, env, before, ev, now), AtOf()(Inspection(ev, now));
      fired ==
        One(Reported(fired, "statistical_spike"), "statistical_spike", "warning", ev, at)
        + One(Reported(fired, "high_freq_user"), "high_freq_user", "warning", ev, at)
        + One(Reported(fired, "repeated_block"), "repeated_block", "critical", ev, at)
        + One(Reported(fired, "cross_tenant_signal"), "cross_tenant_signal", "critical", ev, at)
        + One(Reported(fired, "honey_multi_layer"), "honey_multi_layer", "critical", ev, at)
        + One(Reported(fired, "off_hours_access"), "off_hours_access", "warning", ev, at)
  {
    hide Reported, One, StateAfter, RulesFrom;
    var at, tr := AtOf()(Inspection(ev, now)), StateAfter(cfg, env, before);
    var f := if cfg.enabled then Found(cfg, env, tr, ev, at) else Findings(false, false, false, false, false, false);
    RulesReport(cfg, env, tr, ev, at);
    NothingListed(ev, at);
    FindingsListed(f, ev, at);
  }

  lemma NothingListed(ev: BastionEvent, at: Time)
    ensures Listed(Findings(false, false, false, false, false, false), ev, at) == []
  {
  }

  /** Which rule reports what. */
  lemma ReportedByRule(cfg: Config, env: Env, before: seq<Inspection>, ev: BastionEvent, now: Time)
    ensures var at, tr := AtOf()(Inspection(ev, now)), StateAfter(cfg, env, before);
      FindingsOf(Fired(cfg, env, before, ev, now))
      == if cfg.enabled then Found(cfg, env, tr, ev, at) else Findings(false, false, false, false, false, false)
  {
    hide Reported, One, StateAfter, RulesFrom, FindingsOf, Found;
    var at, tr := AtOf()(Inspection(ev, now)), StateAfter(cfg, env, before);
    var f := if cfg.enabled then Found(cfg, env, tr, ev, at) else Findings(false, false, false, false, false, false);
    RulesReport(cfg, env, tr, ev, at);
    NothingListed(ev, at);
    FindingsListed(f, ev, at);
  }

  // When each is reported

  /**
   A spike: ten or more of the records of this module and type are within the configured
   hours, and the number in the current minute is over the threshold, with the minutes
   taken in any order.
   */
  lemma SpikeReportedIff(
    cfg: Config, env: Env, before: seq<Inspection>, ev: BastionEvent, now: Time, order: seq<int>)
    requires IsSqrt(env.sqrt) && cfg.sigmaThreshold >= 0.0
    requires var all := before + [Inspection(ev, now)];
      var live := Windows.Survivors(
        TimesOf(OfKey(ev.moduleName, ev.eventType), all), cfg.windowHours * 3600 * 1_000_000_000);
      Enumerates(order, set t <- live :: Spike.Minute(t))
    ensures var all, at := before + [Inspection(ev, now)], AtOf()(Inspection(ev, now));
      var live := Windows.Survivors(
        TimesOf(OfKey(ev.moduleName, ev.eventType), all), cfg.windowHours * 3600 * 1_000_000_000);
      var perMinute := (m: int) => |Filter((t: Time) => Spike.Minute(t) == m, live)| as real;
      Reported(Fired(cfg, env, before, ev, now), "statistical_spike")
      <==> cfg.enabled && |live| >= 10
           && Spike.OverThreshold(MapSeq(perMinute, order), perMinute(Spike.Minute(at)), cfg.sigmaThreshold)
  {
    hide Reported, StateAfter, Filter, Fired, Spike.OverThreshold, Spike.AfterRecord, Spike.Spikes, Windows.Survivors,
      AtOf, TimesOf, Spike.WindowAfter, IsSqrt, HighFreqRule, RepeatedBlockRule, CrossTenantRule, HoneyRule,
      OffHoursRule;
    var i := Inspection(ev, now);
    var p := OfKey(ev.moduleName, ev.eventType);
    ReportedByRule(cfg, env, before, ev, now);
    TimesSnoc(p, before, i);
    WindowSnoc(TimesOf(p, before), AtOf()(i), cfg.windowHours);
    if cfg.enabled {
      WindowsAre(cfg, env, before, ev.moduleName, ev.eventType);
    }
    Spike.ReportIff(TimesOf(p, before + [i]), cfg.windowHours, cfg.sigmaThreshold, env.sqrt, order);
  }

  /**
   A busy user: the number of events within the last minute, this one included, whose
   tenant and user join to the same string, equals the limit.
   */
  lemma HighFreqReportedIff(cfg: Config, env: Env, before: seq<Inspection>, ev: BastionEvent, now: Time)
    ensures var all := before + [Inspection(ev, now)];
      Reported(Fired(cfg, env, before, ev, now), "high_freq_user")
      <==> cfg.enabled && ev.userId != "" && cfg.highFreqUserLimit > 0
           && |Windows.Survivors(TimesOf(OfUser(ev.tenantId + ":" + ev.userId), all), 60 * 1_000_000_000)|
                == cfg.highFreqUserLimit
  {
    hide Reported, StateAfter, Fired, Windows.Survivors, AtOf, TimesOf, Windows.AddTo, SpikeRule, RepeatedBlockRule,
      CrossTenantRule, HoneyRule, OffHoursRule;
    var i, p := Inspection(ev, now), OfUser(ev.tenantId + ":" + ev.userId);
    ReportedByRule(cfg, env, before, ev, now);
    TimesSnoc(p, before, i);
    SurvivorsAdd(TimesOf(p, before), AtOf()(i), 60 * 1_000_000_000);
    if cfg.enabled && cfg.highFreqUserLimit > 0 {
      UsersAre(cfg, env, before, ev.tenantId + ":" + ev.userId);
    }
  }

  /**
   A user who is blocked again and again: the number of blocked events within the
   configured time, this one included, whose tenant and user join to the same string,
   has reached the count.
   */
  lemma RepeatedBlockReportedIff(cfg: Config, env: Env, before: seq<Inspection>, ev: BastionEvent, now: Time)
    ensures var all := before + [Inspection(ev, now)];
      Reported(Fired(cfg, env, before, ev, now), "repeated_block")
      <==> cfg.enabled && ev.status == "blocked" && ev.userId != "" && cfg.repeatedBlockCount > 0
           && |Windows.Survivors(TimesOf(BlockedUser(ev.tenantId + ":" + ev.userId), all), BlockSpan(cfg))|
                >= cfg.repeatedBlockCount
  {
    hide Reported, StateAfter, Fired, Windows.Survivors, AtOf, TimesOf, Windows.AddTo, SpikeRule, HighFreqRule,
      CrossTenantRule, HoneyRule, OffHoursRule;
    var i, p := Inspection(ev, now), BlockedUser(ev.tenantId + ":" + ev.userId);
    ReportedByRule(cfg, env, before, ev, now);
    TimesSnoc(p, before, i);
    SurvivorsAdd(TimesOf(p, before), AtOf()(i), BlockSpan(cfg));
    SamePrefix(ev.tenantId, ev.userId, ev.tenantId + ":" + ev.userId);
    if cfg.enabled && cfg.repeatedBlockCount > 0 {
      BlocksAre(cfg, env, before, ev.tenantId + ":" + ev.userId);
    }
  }

  /** A cross-tenant attempt is reported whenever it happens. */
  lemma CrossTenantReportedIff(cfg: Config, env: Env, before: seq<Inspection>, ev: BastionEvent, now: Time)
    ensures Reported(Fired(cfg, env, before, ev, now), "cross_tenant_signal")
       <==> cfg.enabled && ev.eventType == "cross_tenant_attempt"
  {
    hide Reported, StateAfter, Fired, SpikeRule, HighFreqRule, RepeatedBlockRule, HoneyRule, OffHoursRule;
    ReportedByRule(cfg, env, before, ev, now);
  }

  /** A confirmed intrusion: the surviving honey-token hits of the event's trace come from two modules or more. */
  lemma MultiLayerReportedIff(cfg: Config, env: Env, before: seq<Inspection>, ev: BastionEvent, now: Time)
    ensures var hits := HitsOf(before + [Inspection(ev, now)]);
      Reported(Fired(cfg, env, before, ev, now), "honey_multi_layer")
      <==> cfg.enabled && IsHoneyHit()(Inspection(ev, now))
           && |Honey.SurvivingModules(hits, ev.traceId, false)| >= 2
  {
    hide Reported, StateAfter, Fired, SpikeRule, HighFreqRule, RepeatedBlockRule, CrossTenantRule, OffHoursRule,
      Honey.AddHit, Honey.Expire, Honey.After, HitsOf, AtOf, Honey.SurvivingModules;
    var i := Inspection(ev, now);
    ReportedByRule(cfg, env, before, ev, now);
    IsHoneyIff(i);
    HitsSnoc(before, i);
    if cfg.enabled && IsHoneyHit()(i) {
      LayersAre(cfg, env, before);
      Honey.AfterSnoc(HitsOf(before), HitOf()(i));
      HeldModules(HitsOf(before), HitOf()(i));
    }
  }

  /** A trace is held right after its own hit, with the modules of its surviving hits. */
  lemma HeldModules(before: seq<Honey.Hit>, h: Honey.Hit)
    ensures var l := Honey.After(before + [h]);
      h.traceId in l.modules && l.modules[h.traceId] == Honey.SurvivingModules(before + [h], h.traceId, false)
  {
    Honey.AfterSnoc(before, h);
    Honey.HoneyClosedForm(before + [h], h.traceId, false);
    hide Honey.Expire, Honey.After, Honey.SurvivingModules;
  }

  /** Off hours: some bound is set, and the hour of the event is outside of them. */
  lemma OffHoursReportedIff(cfg: Config, env: Env, before: seq<Inspection>, ev: BastionEvent, now: Time)
    ensures var hour := env.hour(if ev.timestamp == ZERO_TIME then now else ev.timestamp);
      Reported(Fired(cfg, env, before, ev, now), "off_hours_access")
      <==> cfg.enabled && (cfg.activeHoursStart != 0 || cfg.activeHoursEnd != 0)
           && !(cfg.activeHoursStart <= hour < cfg.activeHoursEnd)
  {
    hide Reported, StateAfter, Fired, SpikeRule, HighFreqRule, RepeatedBlockRule, HoneyRule, CrossTenantRule;
    ReportedByRule(cfg, env, before, ev, now);
  }

  /** The hours from `from` up to but not including `to`. */
  function Hours(from: nat, to: nat): (hours: set<nat>)
    requires from <= to
    ensures |hours| == to - from
    ensures forall h :: h in hours <==> from <= h < to
  {
    if from == to then {} else Hours(from, to - 1) + {to - 1}
  }

  /** Of the 24 hours of a day exactly those outside the active ones are reported. */
  lemma OffHoursOfADay(
    cfg: Config, env: Env, before: seq<Inspection>, ev: BastionEvent, now: Time, instants: seq<Time>)
    requires cfg.enabled && 0 <= cfg.activeHoursStart <= cfg.activeHoursEnd <= 24 && cfg.activeHoursEnd > 0
    requires |instants| == 24 && forall h :: 0 <= h < 24 ==> instants[h] != ZERO_TIME && env.hour(instants[h]) == h
    ensures |set h <- Hours(0, 24) |
        Reported(Fired(cfg, env, before, ev.(timestamp := instants[h]), now), "off_hours_access")|
      == 24 - (cfg.activeHoursEnd - cfg.activeHoursStart)
  {
    hide Reported, Fired, Hours;
    var active := Hours(cfg.activeHoursStart, cfg.activeHoursEnd);
    var off := set h <- Hours(0, 24) |
      Reported(Fired(cfg, env, before, ev.(timestamp := instants[h]), now), "off_hours_access");
    forall h | h in Hours(0, 24)
      ensures h in off <==> h !in active
    {
      OffHoursReportedIff(cfg, env, before, ev.(timestamp := instants[h]), now);
    }
    assert off == Hours(0, 24) - active;
    assert active <= Hours(0, 24);
  }

  /** Active hours that span midnight are never met: every event is reported. */
  lemma OvernightAlwaysReported(cfg: Config, env: Env, before: seq<Inspection>, ev: BastionEvent, now: Time)
    requires cfg.enabled && cfg.activeHoursStart > cfg.activeHoursEnd
    ensures Reported(Fired(cfg, env, before, ev, now), "off_hours_access")
  {
    OffHoursReportedIff(cfg, env, before, ev, now);
  }

  // Tenants

  /**
   Two tenants never share a counter, whatever their users are called, if and only if
   neither is the other's ID continued after a colon.
   */
  lemma TenantsApartIff(a: string, b: string)
    requires a != b
    ensures (forall u, v :: u != "" && v != "" ==> a + ":" + u != b + ":" + v)
       <==> !(a + ":" <= b) && !(b + ":" <= a)
  {
    if a + ":" <= b {
      SharedCounter(a, b);
    } else if b + ":" <= a {
      SharedCounter(b, a);
    }
    forall u, v | a + ":" + u == b + ":" + v
      ensures a + ":" <= b || b + ":" <= a
    {
      OneContinues(a, u, b, v);
    }
  }

  /** If b is a continued, some user of a is counted with some user of b. */
  lemma SharedCounter(a: string, b: string)
    requires a + ":" <= b
    ensures exists u, v :: u != "" && v != "" && a + ":" + u == b + ":" + v
  {
    var rest := b[|a| + 1..];
    assert b == a + ":" + rest;
    var u := rest + ":" + "v";
    assert a + ":" + u == b + ":" + "v";
  }

  lemma OneContinues(a: string, u: string, b: string, v: string)
    requires a + ":" + u == b + ":" + v && a != b
    ensures a + ":" <= b || b + ":" <= a
  {
    var s, t := a + ":" + u, b + ":" + v;
    assert s[..|a|] == a && t[..|b|] == b && s[|a|] == ':' && t[|b|] == ':';
    if |a| < |b| {
      assert b == t[..|b|] && (a + ":") == s[..|a| + 1];
    } else if |b| < |a| {
      assert a == s[..|a|] && (b + ":") == t[..|b| + 1];
    }
  }

  /** Apart tenants do not count for one another: the other's events may as well not have happened. */
  lemma OtherTenantsDoNotCount(run: seq<Inspection>, a: string, b: string, user: string)
    requires a != b && !(a + ":" <= b) && !(b + ":" <= a) && user != ""
    ensures var others := Filter((i: Inspection) => i.ev.tenantId != b, run);
      && TimesOf(OfUser(a + ":" + user), run) == TimesOf(OfUser(a + ":" + user), others)
      && TimesOf(BlockedUser(a + ":" + user), run) == TimesOf(BlockedUser(a + ":" + user), others)
  {
    var key, q := a + ":" + user, (i: Inspection) => i.ev.tenantId != b;
    forall i: Inspection | OfUser(key)(i)
      ensures q(i)
    {
      if i.ev.tenantId == b {
        OneContinues(a, user, b, i.ev.userId);
      }
    }
    FilterFurther(q, OfUser(key), OfUser(key), run);
    FilterFurther(q, BlockedUser(key), BlockedUser(key), run);
  }
}
