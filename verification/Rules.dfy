/** The six rules of Detector.Inspect in internal/anomaly/detector.go, as functions of what the trackers hold. */
module Rules {
  import opened Models
  import opened Spike
  import opened Windows
  import opened Honey

  datatype Config = Config(
    enabled: bool,
    sigmaThreshold: real,
    windowHours: int,
    highFreqUserLimit: int,
    /** None when the setting is empty or does not parse. */
    repeatedBlockWindow: Option<int>,
    repeatedBlockCount: int,
    activeHoursStart: int,
    activeHoursEnd: int)

  /** math.Sqrt, and the hour of the day of an instant. */
  datatype Env = Env(sqrt: real -> real, hour: Time -> int)

  datatype Anomaly = Anomaly(
    pattern: string,
    severity: string,
    tenantId: string,
    userId: string,
    traceId: string,
    detectedAt: Time)

  datatype Trackers = Trackers(
    windows: map<Key, seq<Bucket>>,
    users: map<string, seq<Time>>,
    blocks: map<string, seq<Time>>,
    layers: Layers)

  datatype Outcome = Outcome(trackers: Trackers, anomalies: seq<Anomaly>)

  const RULES := 6

  function Held<K, T>(table: map<K, seq<T>>, key: K): seq<T> {
    if key in table then table[key] else []
  }

  function UserKey(ev: BastionEvent): string {
    ev.tenantId + ":" + ev.userId
  }

  function BlockKey(ev: BastionEvent): string {
    "block:" + ev.tenantId + ":" + ev.userId
  }

  function BlockWindow(cfg: Config): int {
    if cfg.repeatedBlockWindow.Some? then cfg.repeatedBlockWindow.value else 5 * MINUTE
  }

  predicate IsHoney(ev: BastionEvent) {
    HasPrefix(ev.eventType, "honey_token_")
  }

  /** A zero timestamp reads as the present. */
  function InspectedAt(ev: BastionEvent, now: Time): Time {
    if ev.timestamp == ZERO_TIME then now else ev.timestamp
  }

  function Report(pattern: string, severity: string, ev: BastionEvent, at: Time): seq<Anomaly> {
    [Anomaly(pattern, severity, ev.tenantId, ev.userId, ev.traceId, at)]
  }

  ghost function SpikeRule(cfg: Config, env: Env, tr: Trackers, ev: BastionEvent, at: Time): Outcome {
    var k := Key(ev.moduleName, ev.eventType);
    var window := AfterRecord(Held(tr.windows, k), at, cfg.windowHours);
    Outcome(
      tr.(windows := tr.windows[k := window]),
      if Spikes(window, at, cfg.sigmaThreshold, env.sqrt) then Report("statistical_spike", "warning", ev, at) else [])
  }

  function HighFreqRule(cfg: Config, tr: Trackers, ev: BastionEvent, at: Time): Outcome {
    if ev.userId != "" && cfg.highFreqUserLimit > 0 then
      var times := AddTo(Held(tr.users, UserKey(ev)), at, MINUTE);
      Outcome(
        tr.(users := tr.users[UserKey(ev) := times]),
        if |times| == cfg.highFreqUserLimit then Report("high_freq_user", "warning", ev, at) else [])
    else
      Outcome(tr, [])
  }

  function RepeatedBlockRule(cfg: Config, tr: Trackers, ev: BastionEvent, at: Time): Outcome {
    if ev.status == "blocked" && ev.userId != "" && cfg.repeatedBlockCount > 0 then
      var times := AddTo(Held(tr.blocks, BlockKey(ev)), at, BlockWindow(cfg));
      Outcome(
        tr.(blocks := tr.blocks[BlockKey(ev) := times]),
        if |times| >= cfg.repeatedBlockCount then Report("repeated_block", "critical", ev, at) else [])
    else
      Outcome(tr, [])
  }

  function CrossTenantRule(tr: Trackers, ev: BastionEvent, at: Time): Outcome {
    Outcome(
      tr, if ev.eventType == "cross_tenant_attempt" then Report("cross_tenant_signal", "critical", ev, at) else [])
  }

  function HoneyRule(tr: Trackers, ev: BastionEvent, at: Time): Outcome {
    if IsHoney(ev) && ev.traceId != "" then
      var layers := AddHit(Expire(tr.layers, at - TEN_MINUTES), Hit(ev.traceId, ev.moduleName, at));
      Outcome(
        tr.(layers := layers),
        if |layers.modules[ev.traceId]| >= 2 then Report("honey_multi_layer", "critical", ev, at) else [])
    else
      Outcome(tr, [])
  }

  function OffHoursRule(cfg: Config, env: Env, tr: Trackers, ev: BastionEvent, at: Time): Outcome {
    Outcome(
      tr,
      if
        && (cfg.activeHoursStart != 0 || cfg.activeHoursEnd != 0)
        && (env.hour(at) < cfg.activeHoursStart || env.hour(at) >= cfg.activeHoursEnd)
      then Report("off_hours_access", "warning", ev, at)
      else [])
  }

  ghost function Rule(cfg: Config, env: Env, tr: Trackers, ev: BastionEvent, at: Time, rule: nat): Outcome
    requires rule < RULES
  {
    match rule
    case 0 => SpikeRule(cfg, env, tr, ev, at)
    case 1 => HighFreqRule(cfg, tr, ev, at)
    case 2 => RepeatedBlockRule(cfg, tr, ev, at)
    case 3 => CrossTenantRule(tr, ev, at)
    case 4 => HoneyRule(tr, ev, at)
    case _ => OffHoursRule(cfg, env, tr, ev, at)
  }

  /** The rules from `rule` on, in order. */
  ghost function RulesFrom(cfg: Config, env: Env, tr: Trackers, ev: BastionEvent, at: Time, rule: nat): Outcome
    requires rule <= RULES
    decreases RULES - rule
  {
    if rule == RULES then Outcome(tr, [])
    else
      var first := Rule(cfg, env, tr, ev, at, rule);
      var rest := RulesFrom(cfg, env, first.trackers, ev, at, rule + 1);
      Outcome(rest.trackers, first.anomalies + rest.anomalies)
  }

  /** What one Inspect does to the trackers, and what it reports, in order. */
  ghost function Inspected(cfg: Config, env: Env, tr: Trackers, ev: BastionEvent, now: Time): Outcome {
    if cfg.enabled then RulesFrom(cfg, env, tr, ev, InspectedAt(ev, now), 0) else Outcome(tr, [])
  }

  // A run of Inspect calls

  /** One call, and the clock when it was made. */
  datatype Inspection = Inspection(ev: BastionEvent, now: Time)

  /** What a run leaves in the trackers of a new detector. */
  ghost function StateAfter(cfg: Config, env: Env, run: seq<Inspection>): Trackers {
    if run == [] then Trackers(map[], map[], map[], Layers(map[], map[]))
    else
      var last := run[|run| - 1];
      Inspected(cfg, env, StateAfter(cfg, env, run[..|run| - 1]), last.ev, last.now).trackers
  }
}
