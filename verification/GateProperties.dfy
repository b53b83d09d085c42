/** What the checkpoint protocol keeps over every run, and where it does not. */
module GateProperties {
  import opened Models
  import opened Gate

  // Channels

  /**
   Channel discipline: an entry of pendingCh has an empty channel and a pending
   checkpoint; no channel is ever sent to twice, so capacity 1 is never exceeded;
   outside gate mode pendingCh is empty.
   */
  lemma ChannelDiscipline(r: Run)
    requires Legal(r)
    ensures forall id <- StateOf(r).slots :: var slot := StateOf(r).slots[id];
      && |slot.buffer| <= |slot.sent| <= 1
      && (slot.pending ==> slot.buffer == [] && slot.sent == [] && slot.cp.status == Pending)
      && (StateOf(r).mode != MODE_GATE ==> !slot.pending)
  {
    RunKeepsInv(r);
  }

  /** Whatever step sends, it finds the channel empty: no send blocks while the lock is held. */
  lemma SendsNeverBlock(r: Run, a: Action, id: Id)
    requires Legal(Then(r, a)) && id in StateOf(r).slots
    requires StateOf(Then(r, a)).slots[id].sent != StateOf(r).slots[id].sent
    ensures StateOf(r).slots[id].buffer == []
    ensures |StateOf(Then(r, a)).slots[id].buffer| == 1
  {
    SlotOf(r, id);
    assert StateOf(Then(r, a)) == Step(StateOf(r), a);
    hide StateOf, Legal;
    SendStep(StateOf(r), a, id);
  }

  lemma SendStep(s: State, a: Action, id: Id)
    requires Enabled(s, a) && id in s.slots && SlotInv(s.slots[id])
    requires Step(s, a).slots[id].sent != s.slots[id].sent
    ensures s.slots[id].buffer == [] && |Step(s, a).slots[id].buffer| == 1
  {
  }

  /** Leaving gate mode releases every waiting checkpoint. */
  lemma LeavingGateReleases(r: Run, mode: string, id: Id)
    requires Legal(r) && StateOf(r).mode == MODE_GATE && mode != MODE_GATE
    requires id in StateOf(r).slots && StateOf(r).slots[id].pending
    ensures StateOf(Then(r, SetMode(mode))).slots[id].buffer == [Rejected]
    ensures Undecided(StateOf(Then(r, SetMode(mode))), id)
  {
    RunKeepsInv(r);
    assert SlotInv(StateOf(r).slots[id]);
  }

  predicate Undecided(s: State, id: Id) {
    id in s.slots && s.slots[id].cp.status == Pending
  }

  // Decisions

  lemma StepKeepsDecision(s: State, a: Action, id: Id)
    requires Enabled(s, a) && id in s.slots
    ensures id in Step(s, a).slots
    ensures s.slots[id].cp.status != Pending ==> Step(s, a).slots[id].cp == s.slots[id].cp
  {
  }

  /** A settled checkpoint never changes again. */
  lemma {:induction false} DecisionIsFinal(r: Run, later: Run, id: Id)
    requires Legal(later) && Continues(later, r)
    requires id in StateOf(r).slots && StateOf(r).slots[id].cp.status != Pending
    ensures id in StateOf(later).slots && StateOf(later).slots[id].cp == StateOf(r).slots[id].cp
  {
    if later != r {
      DecisionIsFinal(r, later.before, id);
      StepKeepsDecision(StateOf(later.before), later.action, id);
    }
  }

  /** The decision time is recorded exactly for the settled checkpoints. */
  lemma DecidedAtIffSettled(r: Run, id: Id)
    requires Legal(r) && id in StateOf(r).slots
    ensures StateOf(r).slots[id].cp.decidedAt.Some? <==> StateOf(r).slots[id].cp.status != Pending
  {
    RunKeepsInv(r);
    assert SlotInv(StateOf(r).slots[id]);
  }

  /**
   Safety of the gate: a caller is let through only if its checkpoint is recorded
   as approved, or as timed out under auto-approval, now and ever after.
   */
  lemma LetThroughOnlyIfApproved(r: Run, later: Run, w: WaiterId)
    requires Legal(later) && Continues(later, r)
    requires Outcome(StateOf(r), w).Some? && Outcome(StateOf(r), w).value.0
    ensures var id := StateOf(r).waiters[w].id;
      && id in StateOf(later).slots
      && (|| StateOf(later).slots[id].cp.status == Approved
          || (StateOf(later).slots[id].cp.status == TimedOut && StateOf(later).cfg.autoApprove))
  {
    PrefixLegal(r, later);
    RunKeepsInv(r);
    var s := StateOf(r);
    assert WaiterInv(s, w);
    var id := s.waiters[w].id;
    assert SlotInv(s.slots[id]);
    DecisionIsFinal(r, later, id);
    ConfigFixed(r, later);
  }

  lemma {:induction false} PrefixLegal(r: Run, later: Run)
    requires Legal(later) && Continues(later, r)
    ensures Legal(r)
  {
    if later != r {
      PrefixLegal(r, later.before);
    }
  }

  lemma {:induction false} ConfigFixed(r: Run, later: Run)
    requires Continues(later, r)
    ensures StateOf(later).cfg == StateOf(r).cfg
  {
    if later != r {
      ConfigFixed(r, later.before);
    }
  }

  /**
   A settled checkpoint has sent exactly one value. That value is the recorded
   status if and only if no mode switch released the checkpoint first, or the
   record says rejected as well.
   */
  lemma DeliveredMatchesRecord(r: Run, id: Id)
    requires Legal(r) && id in StateOf(r).slots && StateOf(r).slots[id].cp.status != Pending
    ensures |StateOf(r).slots[id].sent| == 1
    ensures StateOf(r).slots[id].sent[0] == StateOf(r).slots[id].cp.status
       <==> !StateOf(r).slots[id].released || StateOf(r).slots[id].cp.status == Rejected
  {
    RunKeepsInv(r);
    assert SlotInv(StateOf(r).slots[id]);
  }

  /**
   The same at the moment of decision: it is put into the caller's channel unless
   a mode switch has released the checkpoint, in which case it reaches nobody.
   */
  lemma DecisionDelivered(r: Run, id: Id, decidedBy: string, decision: string, notes: string, now: Time)
    requires Legal(r) && Undecided(StateOf(r), id)
    ensures var before := StateOf(r).slots[id];
            var after := StateOf(Then(r, Decide(id, decidedBy, decision, notes, now))).slots[id];
      && after.cp.status == (if decision == "approve" then Approved else Rejected)
      && (before.pending <==> !before.released)
      && (if before.released then after.sent == before.sent == [Rejected] && after.buffer == before.buffer
          else before.sent == [] && after.sent == after.buffer == [after.cp.status])
  {
    RunKeepsInv(r);
    assert SlotInv(StateOf(r).slots[id]);
  }

  // What a caller is told

  /**
   A caller that has received a value is let through if and only if no mode switch
   released its checkpoint and the record says approved, or timed out with automatic
   approval.
   */
  lemma LetThroughIff(r: Run, w: WaiterId)
    requires Legal(r) && w in StateOf(r).waiters && StateOf(r).waiters[w].Woken?
    ensures Outcome(StateOf(r), w).Some? && StateOf(r).waiters[w].id in StateOf(r).slots
    ensures var s := StateOf(r);
            var slot := s.slots[s.waiters[w].id];
      && (Outcome(s, w).value.0 <==>
            !slot.released && (slot.cp.status == Approved || (slot.cp.status == TimedOut && s.cfg.autoApprove)))
      && (slot.released || slot.cp.status == Rejected ==> Outcome(s, w).value == (false, "rejected by operator"))
      && (!slot.released && slot.cp.status == Approved ==> Outcome(s, w).value == (true, ""))
      && (!slot.released && slot.cp.status == TimedOut ==>
            Outcome(s, w).value == if s.cfg.autoApprove then (true, "auto-approved on timeout")
                                   else (false, "timed out waiting for operator decision"))
      && (slot.released || slot.cp.status != Pending)
  {
    hide StateOf, Legal;
    RunKeepsInv(r);
    var s := StateOf(r);
    assert WaiterInv(s, w);
    assert SlotInv(s.slots[s.waiters[w].id]);
  }

  /** A caller that found no channel is told so, and one that still waits has not been told anything. */
  lemma OthersAreTold(r: Run, w: WaiterId)
    requires w in StateOf(r).waiters && !StateOf(r).waiters[w].Woken?
    ensures Outcome(StateOf(r), w)
      == if StateOf(r).waiters[w].NotFound? then Some((false, "checkpoint not found")) else None
  {
  }

  /** A checkpoint that has left pendingCh is not released any more, nor does it return there. */
  lemma {:induction false} ReleasedIsFinal(r: Run, later: Run, id: Id)
    requires Legal(later) && Continues(later, r)
    requires id in StateOf(r).slots && !StateOf(r).slots[id].pending
    ensures id in StateOf(later).slots && !StateOf(later).slots[id].pending
    ensures StateOf(later).slots[id].released == StateOf(r).slots[id].released
  {
    hide Step, Enabled;
    if later != r {
      ReleasedIsFinal(r, later.before, id);
      StepKeepsReleased(StateOf(later.before), later.action, id);
    }
  }

  lemma StepKeepsReleased(s: State, a: Action, id: Id)
    requires Enabled(s, a) && id in s.slots && !s.slots[id].pending
    ensures id in Step(s, a).slots && !Step(s, a).slots[id].pending
    ensures Step(s, a).slots[id].released == s.slots[id].released
  {
  }

  /**
   An approval reaches its caller: once a checkpoint that waits is approved, the caller
   that alone holds its channel can return at once, and is let through; so it is if it
   returns at any later time, whatever others do in between.
   */
  lemma ApprovedIsLetThrough(r: Run, w: WaiterId, decidedBy: string, notes: string, now: Time)
    requires Legal(r) && SoleHolder(StateOf(r), w) && StateOf(r).waiters[w].Holding?
    requires var id := StateOf(r).waiters[w].id; id in StateOf(r).slots && StateOf(r).slots[id].pending
    ensures var approved := Then(r, Decide(StateOf(r).waiters[w].id, decidedBy, "approve", notes, now));
      && Legal(Then(approved, Receive(w)))
      && Outcome(StateOf(Then(approved, Receive(w))), w) == Some((true, ""))
      && forall later | Legal(later) && Continues(later, approved) ::
           && w in StateOf(later).waiters
           && (StateOf(later).waiters[w].Woken? ==> Outcome(StateOf(later), w) == Some((true, "")))
  {
    hide Inv;
    var s := StateOf(r);
    var id := s.waiters[w].id;
    SlotOf(r, id);
    var approved := Then(r, Decide(id, decidedBy, "approve", notes, now));
    var t := StateOf(approved);
    assert t == Step(s, approved.action);
    assert t.slots[id].cp.status == Approved && !t.slots[id].pending && !t.slots[id].released;
    assert t.slots[id].buffer == [Approved];
    hide Step;
    ReceiveTells(approved, w);
    forall later | Legal(later) && Continues(later, approved)
      ensures w in StateOf(later).waiters
      ensures StateOf(later).waiters[w].Woken? ==> Outcome(StateOf(later), w) == Some((true, ""))
    {
      WaiterStays(approved, later, w);
      DecisionIsFinal(approved, later, id);
      ReleasedIsFinal(approved, later, id);
      if StateOf(later).waiters[w].Woken? {
        LetThroughIff(later, w);
      }
    }
  }

  /** A caller's checkpoint stays the same. */
  lemma {:induction false} WaiterStays(r: Run, later: Run, w: WaiterId)
    requires Legal(later) && Continues(later, r) && w in StateOf(r).waiters
    ensures w in StateOf(later).waiters && StateOf(later).waiters[w].id == StateOf(r).waiters[w].id
  {
    hide Step, Enabled;
    if later != r {
      WaiterStays(r, later.before, w);
      StepKeepsWaiter(StateOf(later.before), later.action, w);
    }
  }

  lemma StepKeepsWaiter(s: State, a: Action, w: WaiterId)
    requires Enabled(s, a) && w in s.waiters
    ensures w in Step(s, a).waiters && Step(s, a).waiters[w].id == s.waiters[w].id
  {
  }

  lemma SlotOf(r: Run, id: Id)
    requires Legal(r) && id in StateOf(r).slots
    ensures SlotInv(StateOf(r).slots[id])
  {
    RunKeepsInv(r);
  }

  /** What is in the channel is what the caller is told. */
  lemma ReceiveTells(r: Run, w: WaiterId)
    requires Legal(r) && w in StateOf(r).waiters && StateOf(r).waiters[w].Holding?
    requires var id := StateOf(r).waiters[w].id; id in StateOf(r).slots && StateOf(r).slots[id].buffer == [Approved]
    ensures Legal(Then(r, Receive(w))) && Outcome(StateOf(Then(r, Receive(w))), w) == Some((true, ""))
  {
    assert StateOf(Then(r, Receive(w))) == Step(StateOf(r), Receive(w));
  }

  // What is recorded

  /** In gate mode a new checkpoint waits, with a deadline the configured seconds ahead, five minutes by default. */
  lemma CreatedWaits(cfg: Config, r: Run, id: Id, traceId: string, tenantId: string, stage: string, now: Time)
    requires Continues(r, Begin(cfg)) && Legal(Then(r, Create(id, traceId, tenantId, stage, now)))
    ensures var s, t := StateOf(r), StateOf(Then(r, Create(id, traceId, tenantId, stage, now)));
      if s.mode != "gate" then t == s
      else
        && id in t.slots && t.slots[id].pending && t.slots[id].timer && t.slots[id].buffer == []
        && t.slots[id].cp == Checkpoint(
             traceId, tenantId, stage, Pending, now,
             now + 1_000_000_000 * (if cfg.timeoutSec == 0 then 300 else cfg.timeoutSec), None, "", "")
  {
    hide Legal;
    ConfigFixed(Begin(cfg), r);
    var s := StateOf(r);
    assert StateOf(Begin(cfg)) == Start(cfg);
    assert StateOf(Then(r, Create(id, traceId, tenantId, stage, now)))
      == Step(s, Create(id, traceId, tenantId, stage, now));
  }

  /** A manager starts in the configured mode, and switched off if none is configured. */
  lemma StartsInMode(cfg: Config)
    ensures StateOf(Begin(cfg)).mode == if cfg.mode == "" then "off" else cfg.mode
    ensures StateOf(Begin(cfg)).slots == map[] && StateOf(Begin(cfg)).waiters == map[]
  {
  }

  /** The mode is the one that was set last; nothing else changes it. */
  lemma ModeIsSet(r: Run, a: Action)
    ensures a.SetMode? ==> StateOf(Then(r, a)).mode == a.mode
    ensures !a.SetMode? ==> StateOf(Then(r, a)).mode == StateOf(r).mode
  {
  }

  /** A timeout settles an undecided checkpoint, and tells its caller unless a mode switch released it. */
  lemma TimeoutRecorded(r: Run, id: Id, now: Time)
    requires Legal(Then(r, Fire(id, now))) && Undecided(StateOf(r), id)
    ensures var before, after := StateOf(r).slots[id], StateOf(Then(r, Fire(id, now))).slots[id];
      && now >= before.cp.timeoutAt
      && after.cp == before.cp.(status := TimedOut, decidedAt := Some(now))
      && (if before.released then after.sent == before.sent == [Rejected] && after.buffer == before.buffer
          else before.sent == [] && after.sent == after.buffer == [TimedOut])
  {
    RunKeepsInv(r);
    assert SlotInv(StateOf(r).slots[id]);
  }

  /** A decision records who took it, when and why. */
  lemma DecisionRecorded(r: Run, id: Id, decidedBy: string, decision: string, notes: string, now: Time)
    requires Undecided(StateOf(r), id)
    ensures StateOf(Then(r, Decide(id, decidedBy, decision, notes, now))).slots[id].cp
      == StateOf(r).slots[id].cp.(
           status := if decision == "approve" then Approved else Rejected,
           decidedAt := Some(now), decidedBy := decidedBy, notes := notes)
  {
  }

  /** A run in which caller 0 blocks on a fresh checkpoint. */
  lemma OneCaller(id: Id) returns (r: Run)
    ensures Legal(r)
    ensures StateOf(r).mode == MODE_GATE && !StateOf(r).cfg.autoApprove
    ensures id in StateOf(r).slots && StateOf(r).slots[id].pending
    ensures StateOf(r).slots[id].buffer == [] && StateOf(r).slots[id].cp.status == Pending
    ensures StateOf(r).waiters == map[0 := Holding(id)]
  {
    var r0 := Begin(Config(MODE_GATE, 300, false));
    var r1 := Then(r0, Create(id, "", "", "", 0));
    assert StateOf(r0) == Start(r0.cfg) && Legal(r0);
    assert Legal(r1);
    assert StateOf(r1) == Step(StateOf(r0), Create(id, "", "", "", 0));
    r := Then(r1, LookUp(0, id));
    assert StateOf(r) == Step(StateOf(r1), LookUp(0, id));
  }

  /** A caller can be turned away while the operator's approval is recorded. */
  lemma ApprovedButTurnedAway(id: Id)
    ensures exists r: Run ::
      && Legal(r)
      && Outcome(StateOf(r), 0) == Some((false, "rejected by operator"))
      && id in StateOf(r).slots && StateOf(r).slots[id].cp.status == Approved
  {
    var r := TurnedAway(id);
    var r' := Then(r, Decide(id, "op", "approve", "", 1));
    Advance(r, r'.action);
    assert StateOf(r').slots[id].cp.status == Approved;
    assert StateOf(r').waiters == StateOf(r).waiters;
  }

  /** A caller that comes after the decision is turned away, whatever the decision was. */
  lemma LateCallerTurnedAway(r: Run, w: WaiterId, id: Id)
    requires Legal(Then(r, LookUp(w, id)))
    requires id in StateOf(r).slots && StateOf(r).slots[id].cp.status != Pending
    ensures Outcome(StateOf(Then(r, LookUp(w, id))), w) == Some((false, "checkpoint not found"))
  {
    RunKeepsInv(r);
    assert SlotInv(StateOf(r).slots[id]);
    assert StateOf(Then(r, LookUp(w, id))) == Step(StateOf(r), LookUp(w, id));
  }

  /** A run in which a mode switch turns the caller away. */
  lemma TurnedAway(id: Id) returns (r: Run)
    ensures Legal(r) && Undecided(StateOf(r), id)
    ensures 0 in StateOf(r).waiters && StateOf(r).waiters[0] == Woken(id, Rejected)
  {
    var r2 := OneCaller(id);
    var r3 := Then(r2, SetMode(MODE_OFF));
    Advance(r2, SetMode(MODE_OFF));
    assert StateOf(r3).slots[id].buffer == [Rejected];
    r := Then(r3, Receive(0));
    Advance(r3, Receive(0));
  }

  // Progress

  /** No other caller ever obtained the channel this waiter holds. */
  ghost predicate SoleHolder(s: State, w: WaiterId) {
    && w in s.waiters && !s.waiters[w].NotFound?
    && forall v <- s.waiters :: v != w && !s.waiters[v].NotFound? ==> s.waiters[v].id != s.waiters[w].id
  }

  /** The waiter still blocks, and the value it waits for is gone. */
  ghost predicate Stuck(s: State, w: WaiterId) {
    w in s.waiters && s.waiters[w].Holding? && exists v :: Took(s, v, s.waiters[w].id)
  }

  /**
   No deadlock: a blocked caller whose value was not taken by another one either
   can receive at once, or its timer has not run and will make it ready.
   */
  lemma NoDeadlock(r: Run, w: WaiterId)
    requires Legal(r) && w in StateOf(r).waiters && StateOf(r).waiters[w].Holding?
    ensures SoleHolder(StateOf(r), w) ==> !Stuck(StateOf(r), w)
    ensures !Stuck(StateOf(r), w) ==>
      var s, id := StateOf(r), StateOf(r).waiters[w].id;
      || Enabled(s, Receive(w))
      || (id in s.slots && s.slots[id].pending && Enabled(s, Fire(id, s.slots[id].cp.timeoutAt)))
  {
    RunKeepsInv(r);
    var s := StateOf(r);
    assert WaiterInv(s, w);
    assert SlotInv(s.slots[s.waiters[w].id]);
  }

  /** How far a blocked caller is from returning: 2 until a value is sent, 1 until it is received. */
  function Rank(s: State, w: WaiterId): nat {
    if w !in s.waiters || !s.waiters[w].Holding? then 0
    else if Ready(s, s.waiters[w].id) then 1
    else 2
  }

  /** No step of anyone moves a sole holder back. */
  lemma RankNeverRises(r: Run, a: Action, w: WaiterId)
    requires Legal(Then(r, a)) && SoleHolder(StateOf(r), w)
    ensures Rank(StateOf(Then(r, a)), w) <= Rank(StateOf(r), w)
  {
    RunKeepsInv(r);
    var s := StateOf(r);
    assert WaiterInv(s, w);
    if a.Receive? && a.w != w {
      assert s.waiters[a.w].id != s.waiters[w].id;
    }
  }

  /** Once its deadline has passed, the timer of a checkpoint makes its sole holder ready. */
  lemma TimerReadies(r: Run, w: WaiterId, now: Time)
    requires Legal(r) && SoleHolder(StateOf(r), w) && Rank(StateOf(r), w) == 2
    ensures var id := StateOf(r).waiters[w].id;
      && id in StateOf(r).slots
      && (now >= StateOf(r).slots[id].cp.timeoutAt ==>
            Legal(Then(r, Fire(id, now))) && Rank(StateOf(Then(r, Fire(id, now))), w) == 1)
  {
    NoDeadlock(r, w);
    RunKeepsInv(r);
    var s := StateOf(r);
    assert WaiterInv(s, w);
    var id := s.waiters[w].id;
    if now >= s.slots[id].cp.timeoutAt {
      assert SlotInv(s.slots[id]);
      var r' := Then(r, Fire(id, now));
      assert StateOf(r') == Step(s, Fire(id, now));
      assert Ready(StateOf(r'), id);
    }
  }

  /** A ready caller returns by its own next step. */
  lemma ReadyReturns(r: Run, w: WaiterId)
    requires Legal(r) && Rank(StateOf(r), w) == 1
    ensures Legal(Then(r, Receive(w))) && Outcome(StateOf(Then(r, Receive(w))), w).Some?
  {
    assert StateOf(Then(r, Receive(w))) == Step(StateOf(r), Receive(w));
  }

  /** No step wakes a caller whose channel is empty, or undoes what another one took. */
  lemma StuckStays(s: State, a: Action, w: WaiterId, v: WaiterId, id: Id)
    requires Enabled(s, a) && w in s.waiters && s.waiters[w] == Holding(id) && Took(s, v, id)
    requires id in s.slots && s.slots[id].buffer == []
    ensures var t := Step(s, a);
      w in t.waiters && t.waiters[w] == Holding(id) && Took(t, v, id)
  {
    hide DecideSlot, FireSlot, ReleaseAll;
  }

  /** Two callers on one checkpoint: the one that loses the value blocks forever. */
  lemma {:induction false} StuckForever(r: Run, later: Run, w: WaiterId)
    requires Legal(later) && Continues(later, r) && Stuck(StateOf(r), w)
    ensures Stuck(StateOf(later), w)
  {
    hide Step, Enabled, Inv, SlotInv;
    if later != r {
      StuckForever(r, later.before, w);
      var s := StateOf(later.before);
      var id := s.waiters[w].id;
      var v :| Took(s, v, id);
      TookEmpties(later.before, v, id);
      StuckStays(s, later.action, w, v, id);
    }
  }

  lemma TookEmpties(r: Run, v: WaiterId, id: Id)
    requires Legal(r) && Took(StateOf(r), v, id)
    ensures id in StateOf(r).slots && StateOf(r).slots[id].buffer == []
  {
    hide SlotInv, TakenInv;
    RunKeepsInv(r);
    assert WaiterInv(StateOf(r), v);
  }

  /** Such a pair of callers exists. */
  lemma SecondCallerStuck(id: Id)
    ensures exists r: Run :: Legal(r) && Stuck(StateOf(r), 1)
  {
    var r2 := OneCaller(id);
    var r3 := Then(r2, LookUp(1, id));
    assert Legal(r3);
    assert StateOf(r3) == Step(StateOf(r2), LookUp(1, id));
    var r4 := Then(r3, Decide(id, "op", "approve", "", 1));
    assert StateOf(r4) == Step(StateOf(r3), Decide(id, "op", "approve", "", 1));
    assert StateOf(r4).slots[id].buffer == [Approved];
    var r5 := Then(r4, Receive(0));
    assert Legal(r5);
    assert StateOf(r5) == Step(StateOf(r4), Receive(0));
    assert StateOf(r5).waiters[1] == Holding(id);
    assert Took(StateOf(r5), 0, id);
  }

  // A bound on all helpful steps of a run

  function Unfired(s: State): set<Id> {
    set id | id in s.slots && s.slots[id].timer
  }

  function Blocked(s: State): set<WaiterId> {
    set w | w in s.waiters && s.waiters[w].Holding?
  }

  /** Timers that have not run plus callers that block. */
  function Work(s: State): nat {
    |Unfired(s)| + |Blocked(s)|
  }

  function CountActions(r: Run, p: Action -> bool): nat {
    match r
    case Begin(_) => 0
    case Then(before, a) => CountActions(before, p) + if p(a) then 1 else 0
  }

  function Helpful(): Action -> bool {
    (a: Action) => a.Fire? || a.Receive?
  }

  function Adding(): Action -> bool {
    (a: Action) => a.Create? || a.LookUp?
  }

  /** A firing or a receive uses up one unit of work; only a creation or a lookup adds one. */
  lemma WorkOfStep(s: State, a: Action)
    requires Enabled(s, a)
    ensures Helpful()(a) ==> Work(Step(s, a)) == Work(s) - 1
    ensures !Helpful()(a) ==> Work(Step(s, a)) <= Work(s) + if Adding()(a) then 1 else 0
  {
    UnfiredOfStep(s, a);
    BlockedOfStep(s, a);
  }

  lemma UnfiredOfStep(s: State, a: Action)
    requires Enabled(s, a)
    ensures |Unfired(Step(s, a))| == |Unfired(s)| - 1 || !a.Fire?
    ensures |Unfired(Step(s, a))| <= |Unfired(s)| + 1
    ensures !a.Create? && !a.Fire? ==> Unfired(Step(s, a)) == Unfired(s)
  {
    match a
    case Fire(id, _) =>
      FireTimers(s, a);
      assert id in Unfired(s);
    case Create(id, _, _, _, _) =>
      assert Unfired(Step(s, a)) == Unfired(s) || Unfired(Step(s, a)) == Unfired(s) + {id};
    case _ =>
      SameTimers(s, a);
  }

  lemma FireTimers(s: State, a: Action)
    requires Enabled(s, a) && a.Fire?
    ensures Unfired(Step(s, a)) == Unfired(s) - {a.id}
  {
    assert Step(s, a).slots == s.slots[a.id := FireSlot(s.slots[a.id], a.now)];
  }

  lemma SameTimers(s: State, a: Action)
    requires Enabled(s, a) && !a.Create? && !a.Fire?
    ensures Unfired(Step(s, a)) == Unfired(s)
  {
    var t := Step(s, a);
    assert t.slots.Keys == s.slots.Keys;
    assert forall id <- s.slots :: t.slots[id].timer == s.slots[id].timer;
  }

  lemma BlockedOfStep(s: State, a: Action)
    requires Enabled(s, a)
    ensures |Blocked(Step(s, a))| == |Blocked(s)| - 1 || !a.Receive?
    ensures |Blocked(Step(s, a))| <= |Blocked(s)| + 1
    ensures !a.LookUp? && !a.Receive? ==> Blocked(Step(s, a)) == Blocked(s)
  {
    if a.Receive? {
      ReceiveUnblocks(s, a);
      assert a.w in Blocked(s);
    } else if a.LookUp? {
      LookUpBlocks(s, a);
    } else {
      assert Step(s, a).waiters == s.waiters;
    }
  }

  lemma ReceiveUnblocks(s: State, a: Action)
    requires Enabled(s, a) && a.Receive?
    ensures Blocked(Step(s, a)) == Blocked(s) - {a.w}
  {
    var value := Step(s, a).waiters[a.w];
    assert Step(s, a).waiters == s.waiters[a.w := value] && value.Woken?;
  }

  lemma LookUpBlocks(s: State, a: Action)
    requires Enabled(s, a) && a.LookUp?
    ensures Blocked(Step(s, a)) == Blocked(s) || Blocked(Step(s, a)) == Blocked(s) + {a.w}
  {
  }

  /** In every run, the firings and receives are bounded by what was created and looked up. */
  lemma {:induction false} WorkBounded(r: Run)
    requires Legal(r)
    ensures CountActions(r, Helpful()) + Work(StateOf(r)) <= CountActions(r, Adding())
  {
    match r
    case Begin(cfg) =>
      assert Unfired(Start(cfg)) == {} && Blocked(Start(cfg)) == {};
    case Then(before, a) =>
      WorkBounded(before);
      WorkOfStep(StateOf(before), a);
  }
}
