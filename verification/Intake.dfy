/**
 The front of Process in internal/processor/processor.go: enrich, validate
 (internal/validator/validator.go), sign, store, trace; as many calls as there are
 events, each a goroutine, interleaved at its two writes to the store.
 */
module Intake {
  import opened Models
  import opened Seqs
  import opened Audit
  import opened Traces

  datatype Rejection = MissingEventType | MissingModule | InvalidSeverity | InvalidStatus

  /** unicode.IsSpace. */
  predicate IsSpace(c: char) {
    || '\t' <= c <= '\r' || c == ' ' || c == '\U{0085}' || c == '\U{00A0}' || c == '\U{1680}'
    || '\U{2000}' <= c <= '\U{200A}' || c == '\U{2028}' || c == '\U{2029}' || c == '\U{202F}' || c == '\U{205F}'
    || c == '\U{3000}'
  }

  /** Nothing is left after trimming. */
  predicate Blank(s: string) {
    forall c <- s :: IsSpace(c)
  }

  const SEVERITIES := {"", "info", "warning", "error", "critical"}
  const STATUSES := {"", "passed", "blocked", "error", "pending", "in_progress"}

  function Validate(ev: BastionEvent): Option<Rejection> {
    if Blank(ev.eventType) then Some(MissingEventType)
    else if Blank(ev.moduleName) then Some(MissingModule)
    else if ev.severity !in SEVERITIES then Some(InvalidSeverity)
    else if ev.status !in STATUSES then Some(InvalidStatus)
    else None
  }

  /** The defaults filled in before validation. */
  function Enriched(ev: BastionEvent, newId: string, now: Time): BastionEvent {
    ev.(
      eventId := if ev.eventId == "" then newId else ev.eventId,
      timestamp := if ev.timestamp == ZERO_TIME then now else ev.timestamp,
      severity := if ev.severity == "" then "info" else ev.severity)
  }

  /** What is known of every stored event. */
  predicate Sound(signer: Signer, e: BastionEvent) {
    && e.eventId != ""
    && e.severity in {"info", "warning", "error", "critical"} && e.status in STATUSES
    && !Blank(e.eventType) && !Blank(e.moduleName)
    && signer.Verify(e)
  }

  lemma SealedIsSound(signer: Signer, ev: BastionEvent, newId: string, now: Time)
    requires NonEmptyMacs(signer.mac) && newId != "" && Validate(Enriched(ev, newId, now)) == None
    ensures Sound(signer, signer.Sign(Enriched(ev, newId, now)))
  {
    SignedVerifies(signer, Enriched(ev, newId, now));
  }

  /** White space, by code point. */
  lemma SpaceIs(c: char)
    ensures IsSpace(c) <==>
      || c as int in {9, 10, 11, 12, 13, 32, 0x85, 0xA0, 0x1680, 0x2028, 0x2029, 0x202F, 0x205F, 0x3000}
      || 0x2000 <= c as int <= 0x200A
  {
  }

  /**
   An event is accepted if and only if its type and its module hold something besides
   white space and its severity and status are among the known ones, or not given.
   */
  lemma AcceptedIff(ev: BastionEvent, newId: string, now: Time)
    ensures Validate(Enriched(ev, newId, now)) == None <==>
      && (exists c <- ev.eventType :: !IsSpace(c)) && (exists c <- ev.moduleName :: !IsSpace(c))
      && (ev.severity == "" || ev.severity == "info" || ev.severity == "warning" || ev.severity == "error"
          || ev.severity == "critical")
      && (ev.status == "" || ev.status == "passed" || ev.status == "blocked" || ev.status == "error"
          || ev.status == "pending" || ev.status == "in_progress")
  {
    hide IsSpace;
  }

  /** Otherwise the first thing that is wrong is the reason, in the order type, module, severity, status. */
  lemma RejectedFor(ev: BastionEvent)
    ensures Validate(ev) == Some(MissingEventType) <==> forall c <- ev.eventType :: IsSpace(c)
    ensures Validate(ev) == Some(MissingModule) <==>
      (exists c <- ev.eventType :: !IsSpace(c)) && forall c <- ev.moduleName :: IsSpace(c)
    ensures Validate(ev) == Some(InvalidSeverity) ==> ev.severity !in {"", "info", "warning", "error", "critical"}
    ensures Validate(ev) == Some(InvalidStatus) ==>
      ev.status !in {"", "passed", "blocked", "error", "pending", "in_progress"}
      && ev.severity in {"", "info", "warning", "error", "critical"}
  {
    hide IsSpace;
  }

  /**
   What an accepted event is stored as: the defaults where something is missing, the
   seal, and all else as it came.
   */
  lemma StoredAs(signer: Signer, ev: BastionEvent, newId: string, now: Time)
    ensures var e := signer.Sign(Enriched(ev, newId, now));
      && e == ev.(eventId := e.eventId, timestamp := e.timestamp, severity := e.severity, signature := e.signature)
      && (ev.eventId != "" ==> e.eventId == ev.eventId) && (ev.eventId == "" ==> e.eventId == newId)
      && (ev.timestamp != ZERO_TIME ==> e.timestamp == ev.timestamp)
      && (ev.timestamp == ZERO_TIME ==> e.timestamp == now)
      && (ev.severity != "" ==> e.severity == ev.severity) && (ev.severity == "" ==> e.severity == "info")
      && e.signature == signer.Compute(e)
  {
  }

  // Interleaved calls

  datatype Phase = Arrived | Stored | Traced | Rejected

  /** A call of Process on an enriched event. */
  datatype Call = Call(ev: BastionEvent, phase: Phase)

  datatype State = State(history: seq<BastionEvent>, upserts: seq<BastionEvent>, calls: seq<Call>)

  /** An event handed to Process, with the ID and the time that enrichment would give it. */
  datatype Submission = Submission(ev: BastionEvent, newId: string, now: Time)

  function Submit(events: seq<Submission>): State {
    State([], [], MapSeq((x: Submission) => Call(Enriched(x.ev, x.newId, x.now), Arrived), events))
  }

  /** Generated IDs are not empty. */
  predicate FreshIds(events: seq<Submission>) {
    forall x <- events :: x.newId != ""
  }

  predicate CanStep(s: State, i: nat) {
    i < |s.calls| && (s.calls[i].phase == Arrived || s.calls[i].phase == Stored)
  }

  function Step(signer: Signer, s: State, i: nat): State
    requires CanStep(s, i)
  {
    var c := s.calls[i];
    if c.phase == Stored then
      s.(upserts := s.upserts + [signer.Sign(c.ev)], calls := s.calls[i := c.(phase := Traced)])
    else if Validate(c.ev).Some? then
      s.(calls := s.calls[i := c.(phase := Rejected)])
    else
      s.(history := s.history + [signer.Sign(c.ev)], calls := s.calls[i := c.(phase := Stored)])
  }

  ghost predicate Runs(signer: Signer, s: State, schedule: seq<nat>)
    decreases |schedule|
  {
    schedule == [] || (CanStep(s, schedule[0]) && Runs(signer, Step(signer, s, schedule[0]), schedule[1..]))
  }

  function After(signer: Signer, s: State, schedule: seq<nat>): State
    requires Runs(signer, s, schedule)
    decreases |schedule|
  {
    if schedule == [] then s else After(signer, Step(signer, s, schedule[0]), schedule[1..])
  }

  /** The sealed events of the calls in one of these phases. */
  function Sealed(signer: Signer, calls: seq<Call>, phases: set<Phase>): multiset<BastionEvent> {
    if calls == [] then multiset{}
    else Sealed(signer, calls[..|calls| - 1], phases) + SealedOne(signer, calls[|calls| - 1], phases)
  }

  function SealedOne(signer: Signer, c: Call, phases: set<Phase>): multiset<BastionEvent> {
    if c.phase in phases then multiset{signer.Sign(c.ev)} else multiset{}
  }

  lemma {:induction false} SealedUpdate(signer: Signer, calls: seq<Call>, phases: set<Phase>, i: nat, c: Call)
    requires i < |calls|
    ensures Sealed(signer, calls[i := c], phases) + SealedOne(signer, calls[i], phases)
      == Sealed(signer, calls, phases) + SealedOne(signer, c, phases)
  {
    hide SealedOne;
    var n := |calls| - 1;
    if i == n {
      assert calls[i := c][..n] == calls[..n] && calls[i := c][n] == c;
      Commute(Sealed(signer, calls[..n], phases), SealedOne(signer, calls[i], phases), SealedOne(signer, c, phases));
    } else {
      SealedUpdate(signer, calls[..n], phases, i, c);
      assert calls[i := c][..n] == calls[..n][i := c] && calls[i := c][n] == calls[n];
      var x, y := Sealed(signer, calls[..n][i := c], phases), Sealed(signer, calls[..n], phases);
      var last := SealedOne(signer, calls[n], phases);
      Commute(x, last, SealedOne(signer, calls[i], phases));
      Commute(y, last, SealedOne(signer, c, phases));
    }
  }

  lemma Commute<T>(x: multiset<T>, a: multiset<T>, b: multiset<T>)
    ensures (x + a) + b == (x + b) + a
  {
  }

  lemma Cancel<T>(x: multiset<T>, y: multiset<T>, a: multiset<T>, b: multiset<T>)
    requires x + a == y + b
    ensures a == multiset{} ==> x == y + b
    ensures a == b ==> x == y
  {
    assert a == multiset{} ==> x + a == x;
    assert forall e :: (x + a)[e] == x[e] + a[e] && (y + b)[e] == y[e] + b[e];
  }

  const STORED := {Stored, Traced}
  const TRACED := {Traced}

  ghost predicate Inv(signer: Signer, s: State) {
    && multiset(s.history) == Sealed(signer, s.calls, STORED)
    && multiset(s.upserts) == Sealed(signer, s.calls, TRACED)
    && (forall e <- s.history :: Sound(signer, e))
    && (forall c <- s.calls :: c.ev.eventId != "" && c.ev.severity != "")
  }

  /** What one step adds to the sealed events of a set of phases. */
  lemma StepSealed(signer: Signer, s: State, i: nat, phases: set<Phase>)
    requires CanStep(s, i)
    requires s.calls[i].phase in phases ==> Step(signer, s, i).calls[i].phase in phases
    ensures var c, c' := s.calls[i], Step(signer, s, i).calls[i];
      Sealed(signer, Step(signer, s, i).calls, phases) == Sealed(signer, s.calls, phases)
        + if c.phase !in phases && c'.phase in phases then multiset{signer.Sign(c.ev)} else multiset{}
  {
    hide Validate, Sealed;
    var c, s' := s.calls[i], Step(signer, s, i);
    SealedUpdate(signer, s.calls, phases, i, s'.calls[i]);
    Cancel(Sealed(signer, s'.calls, phases), Sealed(signer, s.calls, phases),
           SealedOne(signer, c, phases), SealedOne(signer, s'.calls[i], phases));
    assert Sealed(signer, s.calls, phases) + multiset{} == Sealed(signer, s.calls, phases);
  }

  lemma StepKeepsInv(signer: Signer, s: State, i: nat)
    requires NonEmptyMacs(signer.mac) && Inv(signer, s) && CanStep(s, i)
    ensures Inv(signer, Step(signer, s, i))
  {
    hide Validate, Sound, Sealed, NonEmptyMacs;
    var c, s' := s.calls[i], Step(signer, s, i);
    StepSealed(signer, s, i, STORED);
    StepSealed(signer, s, i, TRACED);
    assert forall d <- s'.calls :: d in s.calls || d == s'.calls[i];
    if c.phase == Arrived && Validate(c.ev).None? {
      AcceptedIsSound(signer, c.ev);
    }
  }

  lemma AcceptedIsSound(signer: Signer, ev: BastionEvent)
    requires NonEmptyMacs(signer.mac) && Validate(ev) == None && ev.eventId != "" && ev.severity != ""
    ensures Sound(signer, signer.Sign(ev))
  {
    SignedVerifies(signer, ev);
  }

  lemma {:induction false} RunKeepsInv(signer: Signer, s: State, schedule: seq<nat>)
    requires NonEmptyMacs(signer.mac) && Inv(signer, s) && Runs(signer, s, schedule)
    ensures Inv(signer, After(signer, s, schedule))
    decreases |schedule|
  {
    hide Inv, Step, CanStep;
    if schedule != [] {
      StepKeepsInv(signer, s, schedule[0]);
      RunKeepsInv(signer, Step(signer, s, schedule[0]), schedule[1..]);
    }
  }

  lemma {:induction false} NothingSealed(signer: Signer, calls: seq<Call>, phases: set<Phase>)
    requires Arrived !in phases && forall c <- calls :: c.phase == Arrived
    ensures Sealed(signer, calls, phases) == multiset{}
  {
    if calls != [] {
      NothingSealed(signer, calls[..|calls| - 1], phases);
    }
  }

  lemma {:induction false} SealedAgree(signer: Signer, calls: seq<Call>)
    requires forall c <- calls :: c.phase == Traced || c.phase == Rejected
    ensures Sealed(signer, calls, STORED) == Sealed(signer, calls, TRACED)
  {
    if calls != [] {
      SealedAgree(signer, calls[..|calls| - 1]);
    }
  }

  function IsRejected(): Call -> bool {
    (c: Call) => c.phase == Rejected
  }

  lemma {:induction false} SealedSize(signer: Signer, calls: seq<Call>)
    requires forall c <- calls :: c.phase == Traced || c.phase == Rejected
    ensures |Sealed(signer, calls, STORED)| + |Filter(IsRejected(), calls)| == |calls|
  {
    hide Filter, Sealed, SealedOne, IsRejected, STORED;
    if calls == [] {
      NothingRejected(signer);
    } else {
      var front, c := calls[..|calls| - 1], calls[|calls| - 1];
      assert calls == front + [c];
      SealedSize(signer, front);
      SealedOrRejected(signer, c);
      SealedSnoc(signer, front, c);
      FilterSnoc(IsRejected(), front, c);
    }
  }

  lemma NothingRejected(signer: Signer)
    ensures Sealed(signer, [], STORED) == multiset{} && Filter(IsRejected(), []) == []
  {
  }

  lemma SealedSnoc(signer: Signer, calls: seq<Call>, c: Call)
    ensures Sealed(signer, calls + [c], STORED) == Sealed(signer, calls, STORED) + SealedOne(signer, c, STORED)
  {
    hide SealedOne;
    assert (calls + [c])[..|calls|] == calls;
  }

  lemma SealedOrRejected(signer: Signer, c: Call)
    requires c.phase == Traced || c.phase == Rejected
    ensures |SealedOne(signer, c, STORED)| == if IsRejected()(c) then 0 else 1
  {
  }

  /** Every event a run of interleaved calls stores is sound: ID, severity, status and a verifying seal. */
  lemma EveryStoredEventIsSealed(signer: Signer, events: seq<Submission>, schedule: seq<nat>)
    requires NonEmptyMacs(signer.mac) && FreshIds(events)
    requires Runs(signer, Submit(events), schedule)
    ensures Inv(signer, After(signer, Submit(events), schedule))
    ensures forall e <- After(signer, Submit(events), schedule).history ::
      && e.eventId != "" && e.severity in {"info", "warning", "error", "critical"}
      && e.status in {"", "passed", "blocked", "error", "pending", "in_progress"}
      && (exists c <- e.eventType :: !IsSpace(c)) && (exists c <- e.moduleName :: !IsSpace(c))
      && e.signature != "" && e.signature == signer.Compute(e)
  {
    hide Sound, IsSpace;
    NothingSealed(signer, Submit(events).calls, STORED);
    NothingSealed(signer, Submit(events).calls, TRACED);
    RunKeepsInv(signer, Submit(events), schedule);
    hide Runs, After, Sealed, Submit, FreshIds, NonEmptyMacs;
    forall e <- After(signer, Submit(events), schedule).history
      ensures
        && e.eventId != "" && e.severity in {"info", "warning", "error", "critical"}
        && e.status in {"", "passed", "blocked", "error", "pending", "in_progress"}
        && (exists c <- e.eventType :: !IsSpace(c)) && (exists c <- e.moduleName :: !IsSpace(c))
        && e.signature != "" && e.signature == signer.Compute(e)
    {
      SoundIs(signer, e);
    }
  }

  lemma SoundIs(signer: Signer, e: BastionEvent)
    requires Sound(signer, e)
    ensures e.eventId != "" && e.severity in {"info", "warning", "error", "critical"}
    ensures e.status in {"", "passed", "blocked", "error", "pending", "in_progress"}
    ensures (exists c <- e.eventType :: !IsSpace(c)) && (exists c <- e.moduleName :: !IsSpace(c))
    ensures e.signature != "" && e.signature == signer.Compute(e)
  {
    hide IsSpace;
  }

  ghost predicate Quiescent(s: State) {
    forall c <- s.calls :: c.phase == Traced || c.phase == Rejected
  }

  /**
   Once all calls are done the spans of every trace are exactly the stored events of
   that trace, whatever the interleaving: nothing is lost and nothing is counted twice.
   */
  lemma SpansMatchHistory(signer: Signer, events: seq<Submission>, schedule: seq<nat>, id: string)
    requires NonEmptyMacs(signer.mac) && FreshIds(events)
    requires Runs(signer, Submit(events), schedule) && Quiescent(After(signer, Submit(events), schedule))
    requires id != ""
    ensures var s := After(signer, Submit(events), schedule);
      && (id in TracesAfter(s.upserts) <==> Own(s.history, id) != [])
      && (id in TracesAfter(s.upserts) ==>
            multiset(TracesAfter(s.upserts)[id].spans) == multiset(MapSeq(SpanOf, Own(s.history, id))))
  {
    hide Sealed, Sound, TracesAfter, Runs, After, Own;
    var s := After(signer, Submit(events), schedule);
    EveryStoredEventIsSealed(signer, events, schedule);
    SealedAgree(signer, s.calls);
    SpansOfPermutation(s.upserts, s.history, id);
    TraceClosedForm(s.history, id);
  }

  /** And every submission was either stored or rejected. */
  lemma AcceptedPlusRejected(signer: Signer, events: seq<Submission>, schedule: seq<nat>)
    requires NonEmptyMacs(signer.mac) && FreshIds(events)
    requires Runs(signer, Submit(events), schedule) && Quiescent(After(signer, Submit(events), schedule))
    ensures var s := After(signer, Submit(events), schedule);
      |s.history| + |Filter(IsRejected(), s.calls)| == |events|
  {
    hide Sealed, Sound;
    var s := After(signer, Submit(events), schedule);
    EveryStoredEventIsSealed(signer, events, schedule);
    SealedSize(signer, s.calls);
    assert |multiset(s.history)| == |s.history|;
    SameCalls(signer, Submit(events), schedule);
  }

  lemma {:induction false} SameCalls(signer: Signer, s: State, schedule: seq<nat>)
    requires Runs(signer, s, schedule)
    ensures |After(signer, s, schedule).calls| == |s.calls|
    decreases |schedule|
  {
    if schedule != [] {
      SameCalls(signer, Step(signer, s, schedule[0]), schedule[1..]);
    }
  }
}
