/** Honey-token hits per trace, of internal/anomaly/detector.go (honeyLayerTracker). */
module Honey {
  import opened Models
  import opened Seqs

  const TEN_MINUTES := 10 * MINUTE

  datatype Hit = Hit(traceId: string, moduleName: string, at: Time)

  /** The two maps of the tracker. */
  datatype Layers = Layers(modules: map<string, set<string>>, times: map<string, Time>)

  predicate Expired(l: Layers, id: string, cutoff: Time) {
    id in l.times && l.times[id] < cutoff
  }

  function Expire(l: Layers, cutoff: Time): Layers {
    Layers(
      map id | id in l.modules && !Expired(l, id, cutoff) :: l.modules[id],
      map id | id in l.times && !Expired(l, id, cutoff) :: l.times[id])
  }

  function AddHit(l: Layers, h: Hit): Layers {
    var before := if h.traceId in l.modules then l.modules[h.traceId] else {};
    Layers(l.modules[h.traceId := before + {h.moduleName}], l.times[h.traceId := h.at])
  }

  /** What the tracker holds after a run of hits. */
  function After(hits: seq<Hit>): Layers {
    if hits == [] then Layers(map[], map[])
    else
      var h := hits[|hits| - 1];
      AddHit(Expire(After(hits[..|hits| - 1]), h.at - TEN_MINUTES), h)
  }

  class HoneyLayerTracker {
    var modules: map<string, set<string>>
    var times: map<string, Time>

    constructor ()
      ensures State() == After([])
    {
      modules, times := map[], map[];
    }

    function State(): Layers
      reads this
    {
      Layers(modules, times)
    }

    /** Ranges over the times in an arbitrary order, deleting on the way. */
    method ExpireBefore(cutoff: Time)
      modifies this
      ensures State() == Expire(old(State()), cutoff)
    {
      var left := times.Keys;
      ghost var was := State();
      while left != {}
        invariant left <= was.times.Keys
        invariant modules == map id | id in was.modules && (id in left || !Expired(was, id, cutoff)) :: was.modules[id]
        invariant times == map id | id in was.times && (id in left || !Expired(was, id, cutoff)) :: was.times[id]
      {
        var id :| id in left;
        if times[id] < cutoff {
          modules := modules - {id};
          times := times - {id};
        }
        left := left - {id};
      }
    }

    method Record(traceId: string, moduleName: string, at: Time) returns (count: nat, names: seq<string>)
      modifies this
      ensures State() == AddHit(Expire(old(State()), at - TEN_MINUTES), Hit(traceId, moduleName, at))
      ensures Enumerates(names, modules[traceId])
      ensures count == |modules[traceId]|
    {
      ExpireBefore(at - TEN_MINUTES);
      if traceId !in modules {
        modules := modules[traceId := {}];
      }
      modules := modules[traceId := modules[traceId] + {moduleName}];
      times := times[traceId := at];
      names := Names(modules[traceId]);
      count := |names|;
    }

    static method Names(s: set<string>) returns (names: seq<string>)
      ensures Enumerates(names, s) && |names| == |s|
    {
      names := [];
      var left := s;
      while left != {}
        invariant left <= s && Enumerates(names, s - left)
        invariant |names| + |left| == |s|
      {
        var m :| m in left;
        names := names + [m];
        left := left - {m};
      }
    }
  }

  // Whole runs

  /** The two maps never disagree about which traces are held. */
  lemma {:induction false} KeysAgree(hits: seq<Hit>)
    ensures After(hits).modules.Keys == After(hits).times.Keys
  {
    if hits != [] {
      KeysAgree(hits[..|hits| - 1]);
    }
  }

  /** Whatever the order of timestamps, nothing older than ten minutes before the latest hit is held. */
  lemma RetainedAreRecent(hits: seq<Hit>, id: string)
    requires hits != [] && id in After(hits).times
    ensures After(hits).times[id] >= hits[|hits| - 1].at - 10 * 60 * 1_000_000_000
  {
    assert TEN_MINUTES > 0;
  }

  function Own(hits: seq<Hit>, id: string): seq<Hit> {
    Filter((h: Hit) => h.traceId == id, hits)
  }

  lemma OwnSnoc(before: seq<Hit>, h: Hit, id: string)
    ensures Own(before + [h], id) == if h.traceId == id then Own(before, id) + [h] else Own(before, id)
  {
    hide Filter;
    FilterSnoc((x: Hit) => x.traceId == id, before, h);
    assert Own(before, id) + [] == Own(before, id);
  }

  lemma AfterSnoc(before: seq<Hit>, h: Hit)
    ensures After(before + [h]) == AddHit(Expire(After(before), h.at - TEN_MINUTES), h)
  {
    hide AddHit, Expire;
    assert (before + [h])[..|before|] == before;
  }

  /** One hit, seen at one key. */
  lemma HitAt(l: Layers, h: Hit, id: string)
    requires l.modules.Keys == l.times.Keys
    ensures var kept := id in l.times && l.times[id] >= h.at - TEN_MINUTES;
            var after := AddHit(Expire(l, h.at - TEN_MINUTES), h);
      && (id in after.times <==> (kept || id == h.traceId))
      && (id in after.modules <==> (kept || id == h.traceId))
      && (kept && id != h.traceId ==> after.times[id] == l.times[id] && after.modules[id] == l.modules[id])
      && (id == h.traceId ==>
            after.times[id] == h.at && after.modules[id] == {h.moduleName} + (if kept then l.modules[id] else {}))
  {
  }

  // The closed form, for any order of times

  /** The time of the trace's own last hit. */
  function LastTime(hits: seq<Hit>, id: string): Option<Time> {
    if hits == [] then None
    else if hits[|hits| - 1].traceId == id then Some(hits[|hits| - 1].at)
    else LastTime(hits[..|hits| - 1], id)
  }

  /** Whether hit r, of whatever trace, comes more than ten minutes after this trace's own last hit before it. */
  ghost predicate Expires(hits: seq<Hit>, id: string, r: nat)
    requires r < |hits|
  {
    var last := LastTime(hits[..r], id);
    last.Some? && last.value < hits[r].at - 10 * 60 * 1_000_000_000
  }

  /** What a trace has to do with: all hits, or only its own. */
  function Seen(hits: seq<Hit>, id: string, alone: bool): seq<Hit> {
    if alone then Own(hits, id) else hits
  }

  /** An own hit survives if no later hit, or with `alone` no later own hit, expires the trace. */
  ghost predicate Survives(hits: seq<Hit>, id: string, alone: bool, p: nat) {
    && p < |hits| && hits[p].traceId == id
    && forall r :: p < r < |hits| && (alone ==> hits[r].traceId == id) ==> !Expires(hits, id, r)
  }

  ghost function SurvivingModules(hits: seq<Hit>, id: string, alone: bool): set<string> {
    set p | 0 <= p < |hits| && Survives(hits, id, alone, p) :: hits[p].moduleName
  }

  ghost predicate Held(hits: seq<Hit>, id: string, alone: bool) {
    exists p :: Survives(hits, id, alone, p)
  }

  lemma ExpiresBefore(before: seq<Hit>, h: Hit, id: string, r: nat)
    requires r <= |before|
    ensures Expires(before + [h], id, r) <==>
      if r < |before| then Expires(before, id, r)
      else LastTime(before, id).Some? && LastTime(before, id).value < h.at - TEN_MINUTES
  {
    assert (before + [h])[..r] == before[..r];
    assert before[..|before|] == before;
  }

  lemma LastTimeSnoc(before: seq<Hit>, h: Hit, id: string)
    ensures LastTime(before + [h], id) == if h.traceId == id then Some(h.at) else LastTime(before, id)
  {
    assert (before + [h])[..|before|] == before;
  }

  /** Whether the last hit ends the earlier ones. */
  ghost predicate Ends(before: seq<Hit>, h: Hit, id: string, alone: bool) {
    (alone ==> h.traceId == id) && Expires(before + [h], id, |before|)
  }

  /** Which hits survive one more. */
  lemma SurvivesSnoc(before: seq<Hit>, h: Hit, id: string, alone: bool, p: nat)
    requires p <= |before|
    ensures Survives(before + [h], id, alone, p) <==>
      if p < |before| then Survives(before, id, alone, p) && !Ends(before, h, id, alone) else h.traceId == id
  {
    hide Expires;
    var hits := before + [h];
    if p < |before| {
      forall r | p < r < |before|
        ensures Expires(hits, id, r) <==> Expires(before, id, r)
      {
        ExpiresBefore(before, h, id, r);
      }
    }
  }

  lemma SurvivingSnoc(before: seq<Hit>, h: Hit, id: string, alone: bool)
    ensures SurvivingModules(before + [h], id, alone)
      == (if Ends(before, h, id, alone) then {} else SurvivingModules(before, id, alone))
       + (if h.traceId == id then {h.moduleName} else {})
  {
    hide Survives, Ends;
    var hits := before + [h];
    var kept := if Ends(before, h, id, alone) then {} else SurvivingModules(before, id, alone);
    var own := if h.traceId == id then {h.moduleName} else {};
    forall m
      ensures m in SurvivingModules(hits, id, alone) <==> m in kept + own
    {
      if m in SurvivingModules(hits, id, alone) {
        var p :| 0 <= p < |hits| && Survives(hits, id, alone, p) && hits[p].moduleName == m;
        SurvivesSnoc(before, h, id, alone, p);
      }
      if m in kept {
        var p :| 0 <= p < |before| && Survives(before, id, alone, p) && before[p].moduleName == m;
        SurvivesSnoc(before, h, id, alone, p);
        assert hits[p] == before[p];
      }
      if m in own {
        SurvivesSnoc(before, h, id, alone, |before|);
        assert hits[|before|] == h;
      }
    }
  }

  lemma HeldSnoc(before: seq<Hit>, h: Hit, id: string, alone: bool)
    ensures Held(before + [h], id, alone)
      <==> (h.traceId == id || (Held(before, id, alone) && !Ends(before, h, id, alone)))
  {
    hide Survives, Ends;
    if p :| Survives(before, id, alone, p) {
      SurvivesInside(before, id, alone, p);
      SurvivesSnoc(before, h, id, alone, p);
    }
    SurvivesSnoc(before, h, id, alone, |before|);
    if p :| Survives(before + [h], id, alone, p) {
      SurvivesInside(before + [h], id, alone, p);
      SurvivesSnoc(before, h, id, alone, p);
    }
  }

  lemma SurvivesInside(hits: seq<Hit>, id: string, alone: bool, p: nat)
    requires Survives(hits, id, alone, p)
    ensures p < |hits| && hits[p].traceId == id
  {
  }

  /** What is held for a trace after some hits. */
  ghost predicate HeldAs(l: Layers, id: string, held: bool, last: Option<Time>, modules: set<string>) {
    && (id in l.times <==> held)
    && (id in l.modules <==> held)
    && (held ==> last.Some? && l.times[id] == last.value && l.modules[id] == modules)
  }

  /**
   Closed form, whatever the order of times: a trace is held exactly if some own hit
   survives, with the time of its own last hit and the modules of its surviving ones.
   The same is true of the run of its own hits alone, with those in place of all hits.
   */
  lemma {:induction false} HoneyClosedForm(hits: seq<Hit>, id: string, alone: bool)
    ensures HeldAs(After(Seen(hits, id, alone)), id, Held(hits, id, alone), LastTime(hits, id),
      SurvivingModules(hits, id, alone))
  {
    if hits == [] {
      assert !Held(hits, id, alone);
    } else {
      hide *;
      var before, h := hits[..|hits| - 1], hits[|hits| - 1];
      assert hits == before + [h];
      HoneyClosedForm(before, id, alone);
      SeenSnoc(before, h, id, alone);
      LastTimeSnoc(before, h, id);
      HeldSnoc(before, h, id, alone);
      SurvivingSnoc(before, h, id, alone);
      EndsMeans(before, h, id, alone);
      NotHeld(before, id, alone);
      var seen := Seen(before, id, alone);
      if alone && h.traceId != id {
        Nothing(SurvivingModules(before, id, alone));
      } else {
        KeysAgree(seen);
        AfterSnoc(seen, h);
        HeldAfterHit(After(seen), h, id, Held(before, id, alone), LastTime(before, id),
          SurvivingModules(before, id, alone), Ends(before, h, id, alone));
      }
    }
  }

  lemma Nothing(s: set<string>)
    ensures s + {} == s
  {
  }

  lemma SeenSnoc(before: seq<Hit>, h: Hit, id: string, alone: bool)
    ensures Seen(before + [h], id, alone)
      == if alone && h.traceId != id then Seen(before, id, alone) else Seen(before, id, alone) + [h]
  {
    hide Own;
    OwnSnoc(before, h, id);
  }

  lemma EndsMeans(before: seq<Hit>, h: Hit, id: string, alone: bool)
    ensures Ends(before, h, id, alone) <==>
      ((alone ==> h.traceId == id) && LastTime(before, id).Some? && LastTime(before, id).value < h.at - TEN_MINUTES)
  {
    ExpiresBefore(before, h, id, |before|);
  }

  lemma NotHeld(hits: seq<Hit>, id: string, alone: bool)
    ensures Held(hits, id, alone) || SurvivingModules(hits, id, alone) == {}
  {
    hide Survives;
  }

  lemma HeldAfterHit(l: Layers, h: Hit, id: string, held: bool, last: Option<Time>, modules: set<string>, expires: bool)
    requires l.modules.Keys == l.times.Keys && HeldAs(l, id, held, last, modules)
    requires expires <==> last.Some? && last.value < h.at - TEN_MINUTES
    requires held || modules == {}
    ensures HeldAs(AddHit(Expire(l, h.at - TEN_MINUTES), h), id, h.traceId == id || (held && !expires),
                   if h.traceId == id then Some(h.at) else last,
                   (if expires then {} else modules) + (if h.traceId == id then {h.moduleName} else {}))
  {
    hide AddHit, Expire;
    HitAt(l, h, id);
  }

  // When other traces interfere

  /** q is the trace's own last hit before r. */
  ghost predicate LastOwnBefore(hits: seq<Hit>, id: string, q: nat, r: nat) {
    q < r < |hits| && hits[q].traceId == id && forall i :: q < i < r ==> hits[i].traceId != id
  }

  /**
   Another trace's hit r interferes if it lies behind a hit q of the chain that the own
   hits form by themselves, before the next own hit if there is one, and comes more
   than ten minutes later than q.
   */
  ghost predicate Interferes(hits: seq<Hit>, id: string, q: nat, r: nat) {
    && LastOwnBefore(hits, id, q, r) && hits[r].traceId != id
    && Survives(hits, id, true, q)
    && hits[r].at > hits[q].at + TEN_MINUTES
  }

  lemma {:induction false} LastTimeIs(hits: seq<Hit>, id: string, q: nat, r: nat)
    requires LastOwnBefore(hits, id, q, r)
    ensures LastTime(hits[..r], id) == Some(hits[q].at)
    decreases r
  {
    assert hits[..r][..r - 1] == hits[..r - 1];
    if q < r - 1 {
      LastTimeIs(hits, id, q, r - 1);
    }
  }

  lemma {:induction false} FindLastOwn(hits: seq<Hit>, id: string, p: nat, r: nat) returns (q: nat)
    requires p < r < |hits| && hits[p].traceId == id
    ensures p <= q && LastOwnBefore(hits, id, q, r)
    decreases r - p
  {
    if i :| p < i < r && hits[i].traceId == id {
      q := FindLastOwn(hits, id, i, r);
    } else {
      q := p;
    }
  }

  lemma InterferesExpires(hits: seq<Hit>, id: string, q: nat, r: nat)
    requires LastOwnBefore(hits, id, q, r)
    ensures Expires(hits, id, r) <==> hits[r].at > hits[q].at + TEN_MINUTES
  {
    LastTimeIs(hits, id, q, r);
  }

  /** What survives all hits survives the own ones. */
  lemma SurvivesAlone(hits: seq<Hit>, id: string, p: nat)
    requires Survives(hits, id, false, p)
    ensures Survives(hits, id, true, p)
  {
    hide Expires;
  }

  /**
   Exactly when other traces change which of a trace's own hits count: when one of
   their hits interferes.
   */
  lemma InterferenceIff(hits: seq<Hit>, id: string)
    ensures (forall p :: Survives(hits, id, false, p) <==> Survives(hits, id, true, p))
      <==> !(exists q, r :: Interferes(hits, id, q, r))
  {
    if q, r :| Interferes(hits, id, q, r) {
      InterferesExpires(hits, id, q, r);
      assert Survives(hits, id, true, q) && !Survives(hits, id, false, q);
    } else {
      forall p
        ensures Survives(hits, id, false, p) <==> Survives(hits, id, true, p)
      {
        NoneInterferes(hits, id, p);
      }
    }
  }

  lemma NoneInterferes(hits: seq<Hit>, id: string, p: nat)
    requires !(exists q, r :: Interferes(hits, id, q, r))
    ensures Survives(hits, id, false, p) <==> Survives(hits, id, true, p)
  {
    hide Expires;
    if Survives(hits, id, true, p) {
      forall r | p < r < |hits|
        ensures !Expires(hits, id, r)
      {
        if hits[r].traceId != id {
          var q := FindLastOwn(hits, id, p, r);
          InterferesExpires(hits, id, q, r);
          assert Survives(hits, id, true, q);
          assert !Interferes(hits, id, q, r);
        }
      }
    }
    if Survives(hits, id, false, p) {
      SurvivesAlone(hits, id, p);
    }
  }

  /** Without interference the trackers hold for the trace what its own hits alone would leave. */
  lemma SameAsAlone(hits: seq<Hit>, id: string)
    requires !(exists q, r :: Interferes(hits, id, q, r))
    ensures var mixed, alone := After(hits), After(Own(hits, id));
      && (id in mixed.times <==> id in alone.times)
      && (id in mixed.modules <==> id in alone.modules)
      && (id in mixed.times ==> mixed.times[id] == alone.times[id])
      && (id in mixed.modules ==> mixed.modules[id] == alone.modules[id])
  {
    hide After, Own, Survives, Interferes;
    InterferenceIff(hits, id);
    HoneyClosedForm(hits, id, false);
    HoneyClosedForm(hits, id, true);
    assert SurvivingModules(hits, id, false) == SurvivingModules(hits, id, true);
    assert Held(hits, id, false) <==> Held(hits, id, true);
  }

  // The own chain

  ghost predicate TimesNonDecreasing(hits: seq<Hit>) {
    forall i, j :: 0 <= i < j < |hits| ==> hits[i].at <= hits[j].at
  }

  /** own[start..] is the longest suffix with consecutive gaps of at most ten minutes. */
  ghost predicate LongestChain(own: seq<Hit>, start: nat) {
    && start <= |own|
    && (own != [] ==> start < |own|)
    && (forall i :: start < i < |own| ==> own[i].at - own[i - 1].at <= TEN_MINUTES)
    && (0 < start < |own| ==> own[start].at - own[start - 1].at > TEN_MINUTES)
  }

  function ModulesOf(hits: seq<Hit>): set<string> {
    set h <- hits :: h.moduleName
  }

  /**
   What is held for a trace depends on its own hits alone, and on how recent the
   last of them is: it is held exactly when that one is within ten minutes of the
   latest hit, with the modules of own[start..].
   */
  ghost predicate HeldIs(l: Layers, id: string, own: seq<Hit>, start: nat, latest: Time) {
    && LongestChain(own, start)
    && (id in l.times <==> (own != [] && own[|own| - 1].at >= latest - TEN_MINUTES))
    && (id in l.times ==> l.times[id] == own[|own| - 1].at <= latest)
    && (id in l.times ==> id in l.modules && l.modules[id] == ModulesOf(own[start..]))
  }

  lemma NothingHeld(id: string, latest: Time)
    ensures HeldIs(After([]), id, Own([], id), 0, latest)
    ensures Own([], id) == [] && After([]) == Layers(map[], map[])
  {
  }

  /** The own hits by themselves: held, with the modules of the longest chain. */
  lemma {:induction false} OwnChain(hits: seq<Hit>, id: string) returns (start: nat)
    ensures var own := Own(hits, id);
      HeldIs(After(own), id, own, start, if own == [] then 0 else own[|own| - 1].at)
  {
    if hits == [] {
      NothingHeld(id, 0);
      start := 0;
    } else {
      hide *;
      var before, h := hits[..|hits| - 1], hits[|hits| - 1];
      assert hits == before + [h];
      OwnSnoc(before, h, id);
      start := OwnChain(before, id);
      if h.traceId == id {
        var own := Own(before, id);
        KeysAgree(own);
        AfterSnoc(own, h);
        start := OwnHit(After(own), h, id, own, start, if own == [] then 0 else own[|own| - 1].at);
      }
    }
  }

  lemma OwnHit(l: Layers, h: Hit, id: string, own: seq<Hit>, s: nat, latest: Time) returns (start: nat)
    requires l.modules.Keys == l.times.Keys
    requires HeldIs(l, id, own, s, latest) && h.traceId == id
    requires own != [] ==> latest == own[|own| - 1].at
    ensures HeldIs(AddHit(Expire(l, h.at - TEN_MINUTES), h), id, own + [h], start, h.at)
  {
    hide ModulesOf, LongestChain, AddHit, Expire;
    start := ExtendChain(own, h, s);
    HitAt(l, h, id);
  }

  lemma ExtendChain(own: seq<Hit>, h: Hit, s: nat) returns (start: nat)
    requires LongestChain(own, s)
    ensures LongestChain(own + [h], start)
    ensures ModulesOf((own + [h])[start..]) == {h.moduleName}
      + (if own != [] && own[|own| - 1].at >= h.at - TEN_MINUTES then ModulesOf(own[s..]) else {})
  {
    hide ModulesOf, LongestChain;
    var later := own + [h];
    if own != [] && own[|own| - 1].at >= h.at - TEN_MINUTES {
      start := s;
      ChainGoesOn(own, h, s);
      assert later[s..] == own[s..] + [h];
      ModulesSnoc(own[s..], h);
    } else {
      start := |own|;
      ChainStartsAgain(own, h);
      assert later[start..] == [] + [h];
      ModulesSnoc([], h);
      NoModules();
    }
  }

  lemma ChainGoesOn(own: seq<Hit>, h: Hit, s: nat)
    requires LongestChain(own, s) && own != [] && own[|own| - 1].at >= h.at - TEN_MINUTES
    ensures s <= |own| && LongestChain(own + [h], s)
  {
    var later := own + [h];
    assert forall i :: 0 <= i < |own| ==> later[i] == own[i];
  }

  lemma ChainStartsAgain(own: seq<Hit>, h: Hit)
    requires own == [] || own[|own| - 1].at < h.at - TEN_MINUTES
    ensures LongestChain(own + [h], |own|)
  {
  }

  lemma NoModules()
    ensures ModulesOf([]) == {}
  {
  }

  lemma ModulesSnoc(hits: seq<Hit>, h: Hit)
    ensures ModulesOf(hits + [h]) == ModulesOf(hits) + {h.moduleName}
  {
    forall m
      ensures m in ModulesOf(hits + [h]) <==> m in ModulesOf(hits) + {h.moduleName}
    {
      if m in ModulesOf(hits) {
        var x :| x in hits && x.moduleName == m;
        assert x in hits + [h];
      }
      assert h in hits + [h];
    }
  }

  /** The own last hit, as a position and as the end of the own hits. */
  lemma {:induction false} LastOwn(hits: seq<Hit>, id: string) returns (q: nat)
    ensures Own(hits, id) == [] <==> LastTime(hits, id).None?
    ensures Own(hits, id) != [] ==>
      && q < |hits| && hits[q].traceId == id && (forall i :: q < i < |hits| ==> hits[i].traceId != id)
      && LastTime(hits, id) == Some(hits[q].at) && Own(hits, id)[|Own(hits, id)| - 1] == hits[q]
  {
    hide Own;
    q := 0;
    if hits == [] {
      NothingHeld(id, 0);
    } else {
      var before, h := hits[..|hits| - 1], hits[|hits| - 1];
      assert hits == before + [h];
      OwnSnoc(before, h, id);
      if h.traceId == id {
        q := |before|;
      } else {
        q := LastOwn(before, id);
      }
    }
  }

  /** While times do not decrease only a hit after the own last one can interfere, and then nothing is held. */
  lemma OrderedInterference(hits: seq<Hit>, id: string, q: nat, r: nat)
    requires TimesNonDecreasing(hits) && Interferes(hits, id, q, r)
    ensures forall i :: q < i < |hits| ==> hits[i].traceId != id
  {
    if s :| q < s < |hits| && hits[s].traceId == id {
      var n := NextOwn(hits, id, q, s);
      assert r < n;
      InterferesExpires(hits, id, q, n);
    }
  }

  lemma {:induction false} NextOwn(hits: seq<Hit>, id: string, q: nat, s: nat) returns (n: nat)
    requires q < s < |hits| && hits[q].traceId == id && hits[s].traceId == id
    ensures LastOwnBefore(hits, id, q, n) && hits[n].traceId == id
    decreases s
  {
    if i :| q < i < s && hits[i].traceId == id {
      n := NextOwn(hits, id, q, i);
    } else {
      n := s;
    }
  }

  /** While the own last hit is recent enough, none interferes. */
  lemma NotInTime(hits: seq<Hit>, id: string, p: nat, r: nat, q: nat)
    requires TimesNonDecreasing(hits) && q < |hits| && hits[q].traceId == id
      && (forall i :: q < i < |hits| ==> hits[i].traceId != id)
    requires hits[q].at >= hits[|hits| - 1].at - TEN_MINUTES
    ensures !Interferes(hits, id, p, r)
  {
    hide Survives;
    if Interferes(hits, id, p, r) {
      OrderedInterference(hits, id, p, r);
    }
  }

  /** Once it is not, nothing is held. */
  lemma Overdue(hits: seq<Hit>, id: string, q: nat)
    requires q < |hits| && hits[q].traceId == id && (forall i :: q < i < |hits| ==> hits[i].traceId != id)
    requires hits[q].at < hits[|hits| - 1].at - TEN_MINUTES
    ensures !Held(hits, id, false)
  {
    InterferesExpires(hits, id, q, |hits| - 1);
  }

  lemma NotHeldAtAll(l: Layers, alone: Layers, id: string, start: nat, latest: Time)
    requires HeldIs(alone, id, [], start, 0) && id !in l.times
    ensures HeldIs(l, id, [], start, latest)
  {
  }

  lemma HeldAlike(l: Layers, alone: Layers, id: string, own: seq<Hit>, start: nat, latest: Time)
    requires own != [] && HeldIs(alone, id, own, start, own[|own| - 1].at)
    requires id in l.times <==> id in alone.times
    requires id in l.modules <==> id in alone.modules
    requires id in l.times ==> l.times[id] == alone.times[id]
    requires id in l.modules ==> l.modules[id] == alone.modules[id]
    requires latest - TEN_MINUTES <= own[|own| - 1].at <= latest
    ensures HeldIs(l, id, own, start, latest)
  {
    hide ModulesOf, LongestChain;
  }

  lemma GoneLate(l: Layers, alone: Layers, id: string, own: seq<Hit>, start: nat, latest: Time)
    requires own != [] && HeldIs(alone, id, own, start, own[|own| - 1].at)
    requires id !in l.times && own[|own| - 1].at < latest - TEN_MINUTES
    ensures HeldIs(l, id, own, start, latest)
  {
    hide ModulesOf, LongestChain;
  }

  /**
   Non-interference. While times do not decrease, a trace is held exactly when its
   own last hit is within ten minutes of the latest hit of any trace, and its
   modules are those of its own longest recent chain: hits of other traces make no
   difference to them.
   */
  lemma NonInterference(hits: seq<Hit>, id: string) returns (start: nat)
    requires TimesNonDecreasing(hits) && hits != []
    ensures HeldIs(After(hits), id, Own(hits, id), start, hits[|hits| - 1].at)
  {
    hide After, Own, Survives, HeldIs, LongestChain, ModulesOf;
    var own, latest := Own(hits, id), hits[|hits| - 1].at;
    start := OwnChain(hits, id);
    var q := LastOwn(hits, id);
    if own == [] {
      HoneyClosedForm(hits, id, false);
      NotHeldAtAll(After(hits), After(own), id, start, latest);
    } else if hits[q].at >= latest - TEN_MINUTES {
      forall p, r
        ensures !Interferes(hits, id, p, r)
      {
        NotInTime(hits, id, p, r, q);
      }
      SameAsAlone(hits, id);
      HeldAlike(After(hits), After(own), id, own, start, latest);
    } else {
      HoneyClosedForm(hits, id, false);
      Overdue(hits, id, q);
      GoneLate(After(hits), After(own), id, own, start, latest);
    }
  }

  /** When times go backwards a trace does interfere: another trace's later hit drops this one's modules. */
  lemma BackwardsTimesInterfere()
    ensures var alone := [Hit("a", "m1", 0), Hit("a", "m2", 1)];
      var mixed := [Hit("a", "m1", 0), Hit("b", "m1", 11 * MINUTE), Hit("a", "m2", 1)];
      && Own(mixed, "a") == alone
      && "a" in After(alone).modules && After(alone).modules["a"] == {"m1", "m2"}
      && "a" in After(mixed).modules && After(mixed).modules["a"] == {"m2"}
  {
    hide After, Own, Filter, AddHit, Expire, HeldIs;
    var h1, h2, h3 := Hit("a", "m1", 0), Hit("b", "m1", 11 * MINUTE), Hit("a", "m2", 1);
    assert [] + [h1] == [h1] && [h1] + [h2] == [h1, h2] && [h1, h2] + [h3] == [h1, h2, h3] && [h1] + [h3] == [h1, h3];
    OwnSnoc([], h1, "a");
    OwnSnoc([h1], h2, "a");
    OwnSnoc([h1, h2], h3, "a");
    NothingHeld("a", 0);
    HeldAfter([], h1);
    HeldAfter([h1], h2);
    HeldAfter([h1, h2], h3);
    HeldAfter([h1], h3);
    assert {"m1"} + {"m2"} == {"m1", "m2"};
    assert After([h1]).modules["a"] == {"m1"};
    assert After([h1, h3]).modules["a"] == {"m1"} + {"m2"};
    assert "a" !in After([h1, h2]).times;
    assert Own([h1, h2, h3], "a") == [h1, h3];
  }

  /** What trace "a" has after one more hit. */
  lemma HeldAfter(before: seq<Hit>, h: Hit)
    ensures var l, after := After(before), After(before + [h]);
      var kept := "a" in l.times && l.times["a"] >= h.at - TEN_MINUTES;
      && ("a" in after.times <==> (kept || "a" == h.traceId))
      && ("a" in after.modules <==> (kept || "a" == h.traceId))
      && ("a" == h.traceId ==> after.times["a"] == h.at)
      && (kept && "a" in l.modules ==>
        after.modules["a"] == l.modules["a"] + if "a" == h.traceId then {h.moduleName} else {})
      && (!kept && "a" == h.traceId ==> after.modules["a"] == {h.moduleName})
      && (kept ==> "a" in l.modules)
  {
    hide After, AddHit, Expire;
    KeysAgree(before);
    AfterSnoc(before, h);
    HitAt(After(before), h, "a");
  }
}
