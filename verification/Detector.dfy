/** The Detector object of internal/anomaly/detector.go. */
module Detector {
  import opened Models
  import opened Seqs
  import opened Stats
  import opened Spike
  import opened Windows
  import opened Honey
  import opened Rules
  import opened Patterns

  const MAX_DETECTED := 1000

  /** What fire leaves of the in-memory list. */
  function Remember(detected: seq<Anomaly>, a: Anomaly): seq<Anomaly> {
    (if |detected| >= MAX_DETECTED then detected[1..] else detected) + [a]
  }

  function RememberAll(detected: seq<Anomaly>, fired: seq<Anomaly>): seq<Anomaly>
    decreases |fired|
  {
    if fired == [] then detected else RememberAll(Remember(detected, fired[0]), fired[1..])
  }

  /** The list is the last thousand of everything ever fired. */
  lemma {:induction false} RemembersLastThousand(all: seq<Anomaly>, fired: seq<Anomaly>)
    ensures RememberAll(LastOf(all, 1000), fired) == LastOf(all + fired, 1000)
    decreases |fired|
  {
    if fired == [] {
      assert all + fired == all;
    } else {
      RemembersLastThousand(all + [fired[0]], fired[1..]);
      assert all + [fired[0]] + fired[1..] == all + fired;
      assert Remember(LastOf(all, MAX_DETECTED), fired[0]) == LastOf(all + [fired[0]], MAX_DETECTED);
    }
  }

  lemma {:induction false} RememberSnoc(detected: seq<Anomaly>, fired: seq<Anomaly>, a: Anomaly)
    ensures RememberAll(detected, fired + [a]) == Remember(RememberAll(detected, fired), a)
    decreases |fired|
  {
    hide Remember;
    if fired == [] {
      assert [] + [a] == [a] && [a][1..] == [];
    } else {
      RememberSnoc(Remember(detected, fired[0]), fired[1..], a);
      assert (fired + [a])[1..] == fired[1..] + [a];
    }
  }

  lemma NothingRemembered(detected: seq<Anomaly>)
    ensures RememberAll(detected, []) == detected
  {
  }

  /** One rule after another. */
  ghost function Then(first: Outcome, second: Outcome): Outcome {
    Outcome(second.trackers, first.anomalies + second.anomalies)
  }

  ghost function WindowRules(cfg: Config, env: Env, tr: Trackers, ev: BastionEvent, at: Time): Outcome {
    var spike := SpikeRule(cfg, env, tr, ev, at);
    var high := Then(spike, HighFreqRule(cfg, spike.trackers, ev, at));
    Then(high, RepeatedBlockRule(cfg, high.trackers, ev, at))
  }

  ghost function SignalRules(cfg: Config, env: Env, tr: Trackers, ev: BastionEvent, at: Time): Outcome {
    var cross := CrossTenantRule(tr, ev, at);
    var honey := Then(cross, HoneyRule(cross.trackers, ev, at));
    Then(honey, OffHoursRule(cfg, env, honey.trackers, ev, at))
  }

  lemma InSequence(cfg: Config, env: Env, tr: Trackers, ev: BastionEvent, at: Time)
    ensures var first := WindowRules(cfg, env, tr, ev, at);
      RulesFrom(cfg, env, tr, ev, at, 0) == Then(first, SignalRules(cfg, env, first.trackers, ev, at))
  {
    hide SpikeRule, HighFreqRule, RepeatedBlockRule, CrossTenantRule, HoneyRule, OffHoursRule;
    var o0 := SpikeRule(cfg, env, tr, ev, at);
    var o1 := HighFreqRule(cfg, o0.trackers, ev, at);
    var o2 := RepeatedBlockRule(cfg, o1.trackers, ev, at);
    var o3 := CrossTenantRule(o2.trackers, ev, at);
    var o4 := HoneyRule(o3.trackers, ev, at);
    var o5 := OffHoursRule(cfg, env, o4.trackers, ev, at);
    var r5 := RulesFrom(cfg, env, o4.trackers, ev, at, 5);
    assert r5 == Outcome(o5.trackers, o5.anomalies);
    var r4 := RulesFrom(cfg, env, o3.trackers, ev, at, 4);
    var r3 := RulesFrom(cfg, env, o2.trackers, ev, at, 3);
    assert r3 == Outcome(o5.trackers, o3.anomalies + (o4.anomalies + o5.anomalies));
    var r2 := RulesFrom(cfg, env, o1.trackers, ev, at, 2);
    var r1 := RulesFrom(cfg, env, o0.trackers, ev, at, 1);
  }

  class Detector {
    const cfg: Config
    const env: Env
    const baseline: BaselineTracker
    const userWindow: PatternWindow
    const blockWindow: PatternWindow
    const honeyLayers: HoneyLayerTracker
    var detected: seq<Anomaly>
    /** The anomalies handed to the sink, in order. */
    ghost var sent: seq<Anomaly>

    ghost predicate Valid()
      reads baseline.windows, baseline.windows.Repr, userWindow.table, userWindow.table.Repr,
        blockWindow.table, blockWindow.table.Repr
    {
      && IsSqrt(env.sqrt)
      && baseline.windowH == cfg.windowHours && baseline.sigma == cfg.sigmaThreshold
      && baseline.Valid() && userWindow.Valid() && blockWindow.Valid()
      && userWindow.table != blockWindow.table
      && userWindow.table.Repr !! blockWindow.table.Repr
    }

    constructor (cfg: Config, env: Env)
      requires IsSqrt(env.sqrt)
      ensures Valid() && this.cfg == cfg && this.env == env
      ensures State() == StateAfter(cfg, env, []) && detected == [] && sent == []
    {
      this.cfg, this.env := cfg, env;
      baseline := new BaselineTracker(cfg.windowHours, cfg.sigmaThreshold);
      userWindow := new PatternWindow();
      blockWindow := new PatternWindow();
      honeyLayers := new HoneyLayerTracker();
      detected, sent := [], [];
    }

    ghost function State(): Trackers
      reads baseline.windows, userWindow.table, blockWindow.table, honeyLayers
    {
      Trackers(baseline.windows.contents, userWindow.table.contents, blockWindow.table.contents, honeyLayers.State())
    }

    ghost function Footprint(): (r: set<object>)
      reads baseline.windows, userWindow.table, blockWindow.table
      ensures this !in r
    {
      {baseline, baseline.windows, userWindow.table, blockWindow.table, honeyLayers}
      + baseline.windows.Repr + userWindow.table.Repr + blockWindow.table.Repr
    }

    method RunSpike(ev: BastionEvent, at: Time) returns (fired: seq<Anomaly>)
      requires Valid()
      modifies Footprint()
      ensures Valid() && (forall o <- Footprint() :: o in old(Footprint()) || fresh(o))
      ensures Outcome(State(), fired) == SpikeRule(cfg, env, old(State()), ev, at)
    {
      hide Spikes, AfterRecord, BaselineOf, IsSqrt;
      var spike := baseline.Record(ev.moduleName, ev.eventType, at, env.sqrt);
      assert userWindow.Valid() && blockWindow.Valid();
      fired := if spike then Report("statistical_spike", "warning", ev, at) else [];
    }

    method RunHighFreq(ev: BastionEvent, at: Time) returns (fired: seq<Anomaly>)
      requires Valid()
      modifies Footprint()
      ensures Valid() && (forall o <- Footprint() :: o in old(Footprint()) || fresh(o))
      ensures Outcome(State(), fired) == HighFreqRule(cfg, old(State()), ev, at)
    {
      hide AddTo;
      fired := [];
      if ev.userId != "" && cfg.highFreqUserLimit > 0 {
        var count := userWindow.Add(UserKey(ev), at, MINUTE);
        assert blockWindow.Valid() && baseline.Valid();
        if count == cfg.highFreqUserLimit {
          fired := Report("high_freq_user", "warning", ev, at);
        }
      }
    }

    method RunRepeatedBlock(ev: BastionEvent, at: Time) returns (fired: seq<Anomaly>)
      requires Valid()
      modifies Footprint()
      ensures Valid() && (forall o <- Footprint() :: o in old(Footprint()) || fresh(o))
      ensures Outcome(State(), fired) == RepeatedBlockRule(cfg, old(State()), ev, at)
    {
      hide AddTo;
      fired := [];
      if ev.status == "blocked" && ev.userId != "" && cfg.repeatedBlockCount > 0 {
        var count := blockWindow.Add(BlockKey(ev), at, BlockWindow(cfg));
        assert userWindow.Valid() && baseline.Valid();
        if count >= cfg.repeatedBlockCount {
          fired := Report("repeated_block", "critical", ev, at);
        }
      }
    }

    method RunHoney(ev: BastionEvent, at: Time) returns (fired: seq<Anomaly>)
      requires Valid()
      modifies Footprint()
      ensures Valid() && Footprint() == old(Footprint())
      ensures Outcome(State(), fired) == HoneyRule(old(State()), ev, at)
    {
      fired := [];
      if IsHoney(ev) && ev.traceId != "" {
        var count, names := honeyLayers.Record(ev.traceId, ev.moduleName, at);
        if count >= 2 {
          fired := Report("honey_multi_layer", "critical", ev, at);
        }
      }
    }

    /** Fires more anomalies after `fired`. */
    method FireAll(fired: seq<Anomaly>, more: seq<Anomaly>, ghost list: seq<Anomaly>, ghost sink: seq<Anomaly>)
      returns (all: seq<Anomaly>)
      requires detected == RememberAll(list, fired) && sent == sink + fired
      modifies this
      ensures all == fired + more
      ensures detected == RememberAll(list, all) && sent == sink + all
      decreases |more|
    {
      all := fired;
      if more == [] {
        assert fired + more == fired;
      } else {
        Fire(more[0]);
        RememberSnoc(list, fired, more[0]);
        assert sink + fired + [more[0]] == sink + (fired + [more[0]]);
        all := FireAll(fired + [more[0]], more[1..], list, sink);
        assert fired + [more[0]] + more[1..] == fired + more;
      }
    }

    /** The rules that count in windows. */
    method RunWindowRules(ev: BastionEvent, at: Time) returns (fired: seq<Anomaly>)
      requires Valid()
      modifies this, Footprint()
      ensures Valid() && (forall o <- Footprint() :: o in old(Footprint()) || fresh(o))
      ensures Outcome(State(), fired) == WindowRules(cfg, env, old(State()), ev, at)
      ensures sent == old(sent) + fired && detected == RememberAll(old(detected), fired)
    {
      hide Valid, State, Footprint, RememberAll, SpikeRule, HighFreqRule, RepeatedBlockRule;
      ghost var tr, list, sink := State(), detected, sent;
      fired := [];
      NothingRemembered(list);
      assert sink + [] == sink;
      var more := RunSpike(ev, at);
      fired := FireAll(fired, more, list, sink);
      assert [] + more == more;
      more := RunHighFreq(ev, at);
      fired := FireAll(fired, more, list, sink);
      more := RunRepeatedBlock(ev, at);
      fired := FireAll(fired, more, list, sink);
      assert State() == WindowRules(cfg, env, tr, ev, at).trackers;
    }

    /** The rules that look at the event itself. */
    method RunSignalRules(
      ev: BastionEvent, at: Time, before: seq<Anomaly>, ghost list: seq<Anomaly>, ghost sink: seq<Anomaly>)
      returns (fired: seq<Anomaly>, ghost added: seq<Anomaly>)
      requires Valid()
      requires detected == RememberAll(list, before) && sent == sink + before
      modifies this, Footprint()
      ensures Valid() && Footprint() == old(Footprint())
      ensures Outcome(State(), added) == SignalRules(cfg, env, old(State()), ev, at)
      ensures fired == before + added
      ensures detected == RememberAll(list, fired) && sent == sink + fired
    {
      hide Valid, State, Footprint, RememberAll, CrossTenantRule, HoneyRule, OffHoursRule;
      var cross := RunCrossTenant(ev, at);
      fired := FireAll(before, cross, list, sink);
      var honey := RunHoney(ev, at);
      fired := FireAll(fired, honey, list, sink);
      var off := RunOffHours(ev, at);
      fired := FireAll(fired, off, list, sink);
      added := cross + honey + off;
      assert before + cross + honey + off == before + added;
    }

    /** All six rules, each reporting as soon as it has decided. */
    method Inspect(ev: BastionEvent, now: Time) returns (fired: seq<Anomaly>)
      requires Valid()
      modifies this, Footprint()
      ensures Valid() && (forall o <- Footprint() :: o in old(Footprint()) || fresh(o))
      ensures Outcome(State(), fired) == Inspected(cfg, env, old(State()), ev, now)
      ensures forall run :: old(State()) == StateAfter(cfg, env, run) ==>
        && State() == StateAfter(cfg, env, run + [Inspection(ev, now)])
        && fired == Fired(cfg, env, run, ev, now)
      ensures sent == old(sent) + fired && detected == RememberAll(old(detected), fired)
    {
      hide Valid, State, Footprint, RulesFrom, RememberAll, WindowRules, SignalRules;
      ghost var tr, list, sink := State(), detected, sent;
      fired := [];
      if cfg.enabled {
        var at := if ev.timestamp == ZERO_TIME then now else ev.timestamp;
        fired := RunWindowRules(ev, at);
        ghost var added;
        fired, added := RunSignalRules(ev, at, fired, list, sink);
        InSequence(cfg, env, tr, ev, at);
      } else {
        NothingRemembered(list);
        assert sink + [] == sink;
      }
      forall run | tr == StateAfter(cfg, env, run)
        ensures State() == StateAfter(cfg, env, run + [Inspection(ev, now)])
        ensures fired == Fired(cfg, env, run, ev, now)
      {
        hide Inspected, StateAfter;
        StateSnoc(cfg, env, run, Inspection(ev, now));
      }
    }

    method RunCrossTenant(ev: BastionEvent, at: Time) returns (fired: seq<Anomaly>)
      ensures forall tr :: Outcome(tr, fired) == CrossTenantRule(tr, ev, at)
    {
      fired := if ev.eventType == "cross_tenant_attempt" then Report("cross_tenant_signal", "critical", ev, at) else [];
    }

    method RunOffHours(ev: BastionEvent, at: Time) returns (fired: seq<Anomaly>)
      ensures forall tr :: Outcome(tr, fired) == OffHoursRule(cfg, env, tr, ev, at)
    {
      fired := [];
      if cfg.activeHoursStart != 0 || cfg.activeHoursEnd != 0 {
        var hour := env.hour(at);
        if hour < cfg.activeHoursStart || hour >= cfg.activeHoursEnd {
          fired := Report("off_hours_access", "warning", ev, at);
        }
      }
    }

    method Fire(a: Anomaly)
      modifies this
      ensures detected == Remember(old(detected), a) && sent == old(sent) + [a]
    {
      if |detected| >= MAX_DETECTED {
        detected := detected[1..];
      }
      detected := detected + [a];
      sent := sent + [a];
    }
  }
}
