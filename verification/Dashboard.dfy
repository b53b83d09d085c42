/** DashboardSummary of internal/store/memory.go: one newest-first scan with an early exit, and the busiest modules. */
module Dashboard {
  import opened Models
  import opened Seqs
  import opened EventRing
  import opened TopK
  import Activity

  const TOP_MODULES: nat := 5

  datatype Volume = Volume(moduleName: string, count: nat)

  datatype Tally = Tally(count1h: nat, count24h: nat, blocked1h: nat, honeyTriggers: nat, modules: map<string, nat>)

  datatype Summary = Summary(
    count1h: nat,
    count24h: nat,
    blocked1h: nat,
    honeyTriggers: nat,
    activeIncidents: nat,
    firingAlerts: nat,
    topModules: seq<Volume>,
    updatedAt: Time)

  predicate Stale(ev: BastionEvent, cutoff: Time) {
    ev.eventId != "" && ev.timestamp < cutoff
  }

  /** What a scan of everything would count. */
  function Current(cutoff: Time): BastionEvent -> bool {
    (ev: BastionEvent) => ev.eventId != "" && ev.timestamp >= cutoff
  }

  /** What the scan does count: it stops at the first stale event. */
  function Reached(view: seq<BastionEvent>, cutoff: Time): seq<BastionEvent> {
    if view == [] || Stale(view[0], cutoff) then []
    else (if view[0].eventId != "" then [view[0]] else []) + Reached(view[1..], cutoff)
  }

  predicate IsHoneyTrigger(ev: BastionEvent) {
    HasPrefix(ev.eventType, "honey_token_")
  }

  function CountIn(modules: map<string, nat>, m: string): nat {
    if m in modules then modules[m] else 0
  }

  function Bump(t: Tally, ev: BastionEvent, cutoff1h: Time): Tally {
    var recent := ev.timestamp > cutoff1h;
    Tally(
      t.count1h + (if recent then 1 else 0),
      t.count24h + 1,
      t.blocked1h + (if recent && ev.status == "blocked" then 1 else 0),
      t.honeyTriggers + (if IsHoneyTrigger(ev) then 1 else 0),
      t.modules[ev.moduleName := CountIn(t.modules, ev.moduleName) + 1])
  }

  function TallyOf(events: seq<BastionEvent>, cutoff1h: Time): Tally {
    if events == [] then Tally(0, 0, 0, 0, map[])
    else Bump(TallyOf(events[..|events| - 1], cutoff1h), events[|events| - 1], cutoff1h)
  }

  // The counters, as filters

  function Recent(cutoff1h: Time): BastionEvent -> bool {
    (ev: BastionEvent) => ev.timestamp > cutoff1h
  }

  function BlockedRecent(cutoff1h: Time): BastionEvent -> bool {
    (ev: BastionEvent) => ev.timestamp > cutoff1h && ev.status == "blocked"
  }

  function OfModule(m: string): BastionEvent -> bool {
    (ev: BastionEvent) => ev.moduleName == m
  }

  function CountOf(events: seq<BastionEvent>, m: string): nat {
    |Filter(OfModule(m), events)|
  }

  /** Each counter counts what its name says. */
  lemma {:induction false} TallyCounts(events: seq<BastionEvent>, cutoff1h: Time)
    ensures var t := TallyOf(events, cutoff1h);
      && t.count24h == |events|
      && t.count1h == |Filter(Recent(cutoff1h), events)|
      && t.blocked1h == |Filter(BlockedRecent(cutoff1h), events)|
      && t.honeyTriggers
           == |Filter((ev: BastionEvent) => |ev.eventType| >= 12 && ev.eventType[..12] == "honey_token_", events)|
      && t.blocked1h <= t.count1h <= t.count24h
  {
    if events != [] {
      var front, ev := events[..|events| - 1], events[|events| - 1];
      TallyCounts(front, cutoff1h);
      assert events == front + [ev];
      FilterSnoc(Recent(cutoff1h), front, ev);
      FilterSnoc(BlockedRecent(cutoff1h), front, ev);
      var isTrigger := (ev: BastionEvent) => |ev.eventType| >= 12 && ev.eventType[..12] == "honey_token_";
      FilterSnoc(isTrigger, front, ev);
      assert IsHoneyTrigger(ev) == isTrigger(ev);
    }
  }

  lemma {:induction false} ModuleCounts(events: seq<BastionEvent>, cutoff1h: Time, m: string)
    ensures m in TallyOf(events, cutoff1h).modules <==> CountOf(events, m) > 0
    ensures CountIn(TallyOf(events, cutoff1h).modules, m) == CountOf(events, m)
  {
    if events != [] {
      var front, ev := events[..|events| - 1], events[|events| - 1];
      ModuleCounts(front, cutoff1h, m);
      assert events == front + [ev];
      FilterSnoc(OfModule(m), front, ev);
    }
  }

  function NotOf(m: string): BastionEvent -> bool {
    (ev: BastionEvent) => ev.moduleName != m
  }

  lemma {:induction false} WithoutModule(events: seq<BastionEvent>, m: string, other: string)
    ensures |events| == CountOf(events, m) + |Filter(NotOf(m), events)|
    ensures CountOf(Filter(NotOf(m), events), other) == if other == m then 0 else CountOf(events, other)
  {
    if events != [] {
      var ev, rest := events[0], Filter(NotOf(m), events[1..]);
      WithoutModule(events[1..], m, other);
      FilterConcat(OfModule(other), [ev], rest);
      assert Filter(NotOf(m), events) == if ev.moduleName != m then [ev] + rest else [] + rest;
      assert [ev][1..] == [] && [] + rest == rest;
    }
  }

  lemma FirstIsCounted(events: seq<BastionEvent>)
    requires events != []
    ensures CountOf(events, events[0].moduleName) > 0
  {
  }

  function CountsOf(events: seq<BastionEvent>, order: seq<string>): seq<int> {
    MapSeq((m: string) => CountOf(events, m) as int, order)
  }

  lemma CountsOfOthers(events: seq<BastionEvent>, m: string, others: seq<string>)
    requires m !in others
    ensures CountsOf(Filter(NotOf(m), events), others) == CountsOf(events, others)
  {
    hide CountOf, Filter;
    forall i | 0 <= i < |others|
      ensures CountOf(Filter(NotOf(m), events), others[i]) == CountOf(events, others[i])
    {
      WithoutModule(events, m, others[i]);
    }
  }

  /** The order names every module that occurs. */
  ghost predicate Covers(events: seq<BastionEvent>, order: seq<string>) {
    forall m :: CountOf(events, m) > 0 ==> m in order
  }

  lemma CoversOthers(events: seq<BastionEvent>, m: string, others: seq<string>)
    requires Covers(events, [m] + others)
    ensures Covers(Filter(NotOf(m), events), others)
  {
    hide CountOf, Filter;
    forall x | CountOf(Filter(NotOf(m), events), x) > 0
      ensures x in others
    {
      WithoutModule(events, m, x);
    }
  }

  lemma SumOfCounts(events: seq<BastionEvent>, m: string, others: seq<string>)
    ensures Sum(CountsOf(events, [m] + others)) == CountOf(events, m) + Sum(CountsOf(events, others))
  {
    hide CountOf;
    assert CountsOf(events, [m] + others) == [CountOf(events, m) as int] + CountsOf(events, others);
  }

  lemma CoveredByNone(events: seq<BastionEvent>)
    requires Covers(events, [])
    ensures events == [] && CountsOf(events, []) == []
  {
    hide CountOf;
    if events != [] {
      FirstIsCounted(events);
    }
  }

  /** The module counts add up to the day's count, in whatever order they are added. */
  lemma {:induction false} ModulesAddUp(events: seq<BastionEvent>, order: seq<string>)
    requires Distinct(order) && Covers(events, order)
    ensures Sum(CountsOf(events, order)) == |events|
    decreases |order|
  {
    hide CountOf, Filter, CountsOf, Covers;
    if order == [] {
      CoveredByNone(events);
    } else {
      var m, tail := order[0], order[1..];
      var rest := Filter(NotOf(m), events);
      assert order == [m] + tail;
      CoversOthers(events, m, tail);
      ModulesAddUp(rest, tail);
      WithoutModule(events, m, m);
      CountsOfOthers(events, m, tail);
      SumOfCounts(events, m, tail);
    }
  }

  /** So the listed volumes of all modules add up to the day's count. */
  lemma TallyAddsUp(events: seq<BastionEvent>, cutoff1h: Time, order: seq<string>)
    requires Enumerates(order, TallyOf(events, cutoff1h).modules.Keys)
    ensures var t := TallyOf(events, cutoff1h);
      Sum(MapSeq((m: string) => CountIn(t.modules, m) as int, order)) == t.count24h
  {
    hide CountOf, TallyOf, CountIn;
    var t := TallyOf(events, cutoff1h);
    forall m: string
      ensures CountOf(events, m) == CountIn(t.modules, m) && (CountOf(events, m) > 0 ==> m in order)
    {
      ModuleCounts(events, cutoff1h, m);
    }
    assert Covers(events, order);
    ModulesAddUp(events, order);
    TallyCounts(events, cutoff1h);
    assert MapSeq((m: string) => CountIn(t.modules, m) as int, order) == CountsOf(events, order);
  }

  // The early exit

  /** The early exit loses nothing if and only if no current event lies behind a stale one. */
  lemma {:induction false} EarlyExitExactIff(view: seq<BastionEvent>, cutoff: Time)
    ensures Reached(view, cutoff) == Filter(Current(cutoff), view)
       <==> forall i, j :: 0 <= i < j < |view| && Stale(view[i], cutoff) ==> !Current(cutoff)(view[j])
  {
    if view != [] {
      var rest := view[1..];
      EarlyExitExactIff(rest, cutoff);
      if Stale(view[0], cutoff) {
        if forall j :: 0 <= j < |rest| ==> !Current(cutoff)(rest[j]) {
          FilterNone(Current(cutoff), rest);
        } else {
          var j :| 0 <= j < |rest| && Current(cutoff)(rest[j]);
          FilterKeeps(Current(cutoff), rest, rest[j]);
          assert Stale(view[0], cutoff) && Current(cutoff)(view[j + 1]);
        }
      } else {
        PairsOfTail(view, cutoff);
        var head := if view[0].eventId != "" then [view[0]] else [];
        assert (head + Reached(rest, cutoff))[|head|..] == Reached(rest, cutoff);
        assert (head + Filter(Current(cutoff), rest))[|head|..] == Filter(Current(cutoff), rest);
      }
    }
  }

  lemma PairsOfTail(view: seq<BastionEvent>, cutoff: Time)
    requires view != [] && !Stale(view[0], cutoff)
    ensures (forall i, j :: 0 <= i < j < |view| && Stale(view[i], cutoff) ==> !Current(cutoff)(view[j]))
       <==> (forall i, j :: 0 <= i < j < |view[1..]| && Stale(view[1..][i], cutoff) ==> !Current(cutoff)(view[1..][j]))
  {
    var rest := view[1..];
    if forall i, j :: 0 <= i < j < |rest| && Stale(rest[i], cutoff) ==> !Current(cutoff)(rest[j]) {
      forall i, j | 0 <= i < j < |view| && Stale(view[i], cutoff)
        ensures !Current(cutoff)(view[j])
      {
        assert rest[i - 1] == view[i] && rest[j - 1] == view[j];
      }
    }
  }

  /** While events are written in the order of their timestamps the scan sees all of the last day. */
  lemma EarlyExitRefines(history: seq<BastionEvent>, capacity: nat, cutoff: Time)
    requires Activity.TimeOrdered(history)
    ensures Reached(View(history, capacity), cutoff) == Filter(Current(cutoff), View(history, capacity))
  {
    var view := View(history, capacity);
    forall i, j | 0 <= i < j < |view| && Stale(view[i], cutoff)
      ensures !Current(cutoff)(view[j])
    {
      assert history[|history| - 1 - j].timestamp <= history[|history| - 1 - i].timestamp;
    }
    EarlyExitExactIff(view, cutoff);
  }

  /** Not so otherwise: a late event hides a current one that was written before it. */
  lemma EarlyExitMisses(ev: BastionEvent, cutoff: Time)
    ensures var current := ev.(eventId := "current", timestamp := cutoff);
            var late := ev.(eventId := "late", timestamp := cutoff - 1);
      && Reached(View([current, late], 2), cutoff) == []
      && Filter(Current(cutoff), View([current, late], 2)) == [current]
  {
    var current := ev.(eventId := "current", timestamp := cutoff);
    var late := ev.(eventId := "late", timestamp := cutoff - 1);
    assert View([current, late], 2) == [late, current];
    FilterSnoc(Current(cutoff), [late], current);
    FilterNone(Current(cutoff), [late]);
    assert [late] + [current] == [late, current];
  }

  // The method

  function Volumes(modules: map<string, nat>, order: seq<string>): seq<Volume> {
    MapSeq((m: string) => Volume(m, CountIn(modules, m)), order)
  }

  function VolumeCount(): Volume -> int {
    (v: Volume) => v.count
  }

  /** One more slot of the scan. */
  lemma ReachedStep(view: seq<BastionEvent>, i: nat, cutoff: Time, seen: seq<BastionEvent>)
    requires i < |view|
    ensures var ev, rest := view[i], Reached(view[i + 1..], cutoff);
      seen + Reached(view[i..], cutoff) ==
        if Stale(ev, cutoff) then seen else if ev.eventId != "" then (seen + [ev]) + rest else seen + rest
  {
    assert view[i..][1..] == view[i + 1..];
    assert seen + ([view[i]] + Reached(view[i + 1..], cutoff)) == (seen + [view[i]]) + Reached(view[i + 1..], cutoff);
  }

  lemma TallySnoc(events: seq<BastionEvent>, ev: BastionEvent, cutoff1h: Time)
    ensures TallyOf(events + [ev], cutoff1h) == Bump(TallyOf(events, cutoff1h), ev, cutoff1h)
  {
    assert (events + [ev])[..|events|] == events;
  }

  method ScanDay(store: Store, cutoff24h: Time, cutoff1h: Time) returns (t: Tally)
    requires store.Valid()
    ensures t == TallyOf(Reached(store.Contents(), cutoff24h), cutoff1h)
  {
    hide Reached, TallyOf, Bump;
    NothingScanned(cutoff24h, cutoff1h);
    t := Tally(0, 0, 0, 0, map[]);
    ghost var view := store.Contents();
    ghost var seen := [];
    var i := 0;
    while i < store.Size()
      invariant 0 <= i <= store.Size() == |view|
      invariant t == TallyOf(seen, cutoff1h)
      invariant Reached(view, cutoff24h) == seen + Reached(view[i..], cutoff24h)
    {
      var ev := store.At(i);
      ReachedStep(view, i, cutoff24h, seen);
      if ev.eventId != "" {
        if ev.timestamp < cutoff24h {
          return;
        }
        TallySnoc(seen, ev, cutoff1h);
        seen := seen + [ev];
        t := Bump(t, ev, cutoff1h);
      }
      i := i + 1;
    }
    assert view[i..] == [] && seen + [] == seen;
  }

  lemma NothingScanned(cutoff24h: Time, cutoff1h: Time)
    ensures Reached([], cutoff24h) == [] && TallyOf([], cutoff1h) == Tally(0, 0, 0, 0, map[])
  {
  }

  /** Ranging over the counts, in whatever order. */
  method ListModules(modules: map<string, nat>) returns (volumes: seq<Volume>, ghost order: seq<string>)
    ensures Enumerates(order, modules.Keys) && volumes == Volumes(modules, order)
  {
    volumes, order := [], [];
    var left := modules.Keys;
    while left != {}
      invariant left <= modules.Keys
      invariant Enumerates(order, modules.Keys - left) && volumes == Volumes(modules, order)
    {
      var m :| m in left;
      volumes := volumes + [Volume(m, modules[m])];
      order := order + [m];
      left := left - {m};
    }
  }

  /** All modules with their counts. */
  ghost function AllVolumes(modules: map<string, nat>): multiset<Volume> {
    multiset(Volumes(modules, SomeOrder(modules.Keys)))
  }

  /** It does not matter in which order they are listed. */
  lemma VolumesInAnyOrder(modules: map<string, nat>, order: seq<string>)
    requires Enumerates(order, modules.Keys)
    ensures multiset(Volumes(modules, order)) == AllVolumes(modules)
  {
    SomeOrderEnumerates(modules.Keys);
    EnumerationsPermute(order, SomeOrder(modules.Keys), modules.Keys);
    MapMultiset((m: string) => Volume(m, CountIn(modules, m)), order, SomeOrder(modules.Keys));
  }

  /** Those of the records whose status, as the map gives it, satisfies p. */
  ghost function WithStatus(statuses: map<string, string>, p: string -> bool): set<string> {
    set id <- statuses | p(statuses[id])
  }

  /** Ranging over a map, counting the statuses that satisfy p. */
  method CountStatus(statuses: map<string, string>, p: string -> bool) returns (n: nat)
    ensures n == |WithStatus(statuses, p)|
  {
    n := 0;
    ghost var counted: set<string> := {};
    var left := statuses.Keys;
    while left != {}
      invariant left <= statuses.Keys
      invariant counted == set id <- statuses | id !in left && p(statuses[id])
      invariant n == |counted|
    {
      var id :| id in left;
      if p(statuses[id]) {
        n := n + 1;
        counted := counted + {id};
      }
      left := left - {id};
    }
    assert counted == WithStatus(statuses, p);
  }

  /**
   The summary, given the status of each incident and of each alert: an
   incident is active until it is resolved.
   */
  method DashboardSummary(store: Store, incidents: map<string, string>, alerts: map<string, string>, now: Time)
    returns (s: Summary)
    requires store.Valid()
    ensures var day := Reached(store.Contents(), now - 24 * HOUR);
      && s.count24h == |day|
      && s.count1h == |Filter(Recent(now - HOUR), day)|
      && s.blocked1h == |Filter(BlockedRecent(now - HOUR), day)|
      && s.honeyTriggers
           == |Filter((ev: BastionEvent) => |ev.eventType| >= 12 && ev.eventType[..12] == "honey_token_", day)|
      && Descending(VolumeCount(), s.topModules)
      && IsTop(VolumeCount(), 5, AllVolumes(TallyOf(day, now - HOUR).modules), multiset(s.topModules))
    ensures s.activeIncidents == |WithStatus(incidents, (status: string) => status != "resolved")|
    ensures s.firingAlerts == |WithStatus(alerts, (status: string) => status == "firing")|
    ensures s.updatedAt == now
  {
    hide IsTop, Descending, Reached, TallyOf, Enumerates, AllVolumes, Volumes, WithStatus, Filter;
    var t := ScanDay(store, now - 24 * HOUR, now - HOUR);
    TallyCounts(Reached(store.Contents(), now - 24 * HOUR), now - HOUR);
    var volumes, order := ListModules(t.modules);
    var top := TopOf(volumes, VolumeCount(), TOP_MODULES);
    VolumesInAnyOrder(t.modules, order);
    var active := CountStatus(incidents, (status: string) => status != "resolved");
    var firing := CountStatus(alerts, (status: string) => status == "firing");
    s := Summary(t.count1h, t.count24h, t.blocked1h, t.honeyTriggers, active, firing, top, now);
  }

  /** Each listed volume is that of a module that occurs, and no more than five are listed. */
  lemma ListedAreCounted(modules: map<string, nat>, top: seq<Volume>, listed: Volume)
    requires IsTop(VolumeCount(), 5, AllVolumes(modules), multiset(top)) && listed in top
    ensures listed.moduleName in modules && listed.count == modules[listed.moduleName] && |top| <= 5
  {
    SomeOrderEnumerates(modules.Keys);
    var order := SomeOrder(modules.Keys);
    var all := Volumes(modules, order);
    assert listed in multiset(top) && listed in multiset(all);
    var i :| 0 <= i < |all| && all[i] == listed;
    assert order[i] in modules;
  }

  /** A module that is left out is no busier than any module that is listed. */
  lemma OmittedModulesAreSmaller(modules: map<string, nat>, top: seq<Volume>, omitted: string, listed: Volume)
    requires IsTop(VolumeCount(), 5, AllVolumes(modules), multiset(top))
    requires omitted in modules && (forall v <- top :: v.moduleName != omitted) && listed in top
    ensures modules[omitted] <= listed.count && |top| == 5
  {
    var order := SomeOrder(modules.Keys);
    SomeOrderEnumerates(modules.Keys);
    var all := Volumes(modules, order);
    var i :| 0 <= i < |order| && order[i] == omitted;
    assert all[i] == Volume(omitted, modules[omitted]);
    hide IsTop, SomeOrder;
    assert all[i] in multiset(all) && all[i] !in multiset(top) && listed in multiset(top);
    OmittedIsBelow(VolumeCount(), 5, multiset(all), multiset(top), all[i], listed);
  }
}
