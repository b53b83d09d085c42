/**
 The gate-mode checkpoint protocol of internal/monitor/monitor.go as atomic
 steps: each region under the manager's lock is one step, and a waiter's channel
 lookup and channel receive are two. A run is any interleaving of them.
 */
module Gate {
  import opened Models

  /** A checkpoint ID drawn by newID: eight random bytes, compared and never inspected. */
  type Id = nat
  type WaiterId = nat

  const MODE_OFF := "off"
  const MODE_GATE := "gate"

  datatype Status = Pending | Approved | Rejected | TimedOut

  datatype Checkpoint = Checkpoint(
    traceId: string, tenantId: string, stage: string, status: Status,
    createdAt: Time, timeoutAt: Time, decidedAt: Option<Time>, decidedBy: string, notes: string)

  /** A caller of WaitForDecision: it holds a channel, found none, or has received a value. */
  datatype Waiter = Holding(id: Id) | NotFound(id: Id) | Woken(id: Id, value: Status)

  datatype Config = Config(mode: string, timeoutSec: int, autoApprove: bool)

  /**
   A checkpoint with its channel and its timer. `pending` says that pendingCh has
   an entry for it; the channel outlives that entry, since a waiter may still hold
   it, and `buffer` is its content. `timer` says that its timeout goroutine has not
   run yet. `sent` and `released` are history: every value ever sent on the
   channel, and whether a mode switch released the checkpoint.
   */
  datatype Slot = Slot(
    cp: Checkpoint, pending: bool, buffer: seq<Status>, timer: bool, sent: seq<Status>, released: bool)

  datatype State = State(cfg: Config, mode: string, slots: map<Id, Slot>, waiters: map<WaiterId, Waiter>)

  datatype Action =
    | Create(id: Id, traceId: string, tenantId: string, stage: string, now: Time)
    | LookUp(w: WaiterId, id: Id)
    | Receive(w: WaiterId)
    | Decide(id: Id, decidedBy: string, decision: string, notes: string, now: Time)
    | Fire(id: Id, now: Time)
    | SetMode(mode: string)

  /** New: the defaults for a zero timeout and an empty mode. */
  function Start(cfg: Config): State {
    var c := cfg.(timeoutSec := if cfg.timeoutSec == 0 then 300 else cfg.timeoutSec);
    State(c, if cfg.mode == "" then MODE_OFF else cfg.mode, map[], map[])
  }

  /** newID is fresh, a goroutine waits once, a receive needs a value, a timer fires after its deadline. */
  predicate Enabled(s: State, a: Action) {
    match a
    case Create(id, _, _, _, _) => id !in s.slots
    case LookUp(w, _) => w !in s.waiters
    case Receive(w) => w in s.waiters && s.waiters[w].Holding? && Ready(s, s.waiters[w].id)
    case Decide(_, _, _, _, _) => true
    case Fire(id, now) => id in s.slots && s.slots[id].timer && now >= s.slots[id].cp.timeoutAt
    case SetMode(_) => true
  }

  predicate Ready(s: State, id: Id) {
    id in s.slots && s.slots[id].buffer != []
  }

  /** Sending a value on the checkpoint's channel and dropping it from pendingCh, if it is there. */
  function Release(slot: Slot, value: Status): Slot {
    if slot.pending then slot.(pending := false, buffer := slot.buffer + [value], sent := slot.sent + [value]) else slot
  }

  /** An operator's decision; a checkpoint that is already settled is left alone. */
  function DecideSlot(slot: Slot, decidedBy: string, decision: string, notes: string, now: Time): Slot {
    if slot.cp.status != Pending then slot
    else
      var status := if decision == "approve" then Approved else Rejected;
      var cp := slot.cp.(status := status, decidedAt := Some(now), decidedBy := decidedBy, notes := notes);
      Release(slot.(cp := cp), status)
  }

  /** The timeout goroutine runs once. */
  function FireSlot(slot: Slot, now: Time): Slot {
    if slot.cp.status != Pending then slot.(timer := false)
    else Release(slot.(timer := false, cp := slot.cp.(status := TimedOut, decidedAt := Some(now))), TimedOut)
  }

  /** A mode switch sends a rejection but leaves the recorded status. */
  function SwitchSlot(slot: Slot): Slot {
    Release(slot, Rejected).(released := slot.released || slot.pending)
  }

  function ReleaseAll(slots: map<Id, Slot>): map<Id, Slot> {
    map id | id in slots :: SwitchSlot(slots[id])
  }

  function Step(s: State, a: Action): State {
    match a
    case Create(id, traceId, tenantId, stage, now) =>
      if s.mode != MODE_GATE then s
      else
        var cp := Checkpoint(traceId, tenantId, stage, Pending, now, now + s.cfg.timeoutSec * SECOND, None, "", "");
        s.(slots := s.slots[id := Slot(cp, true, [], true, [], false)])
    case LookUp(w, id) =>
      s.(waiters := s.waiters[w := if id in s.slots && s.slots[id].pending then Holding(id) else NotFound(id)])
    case Receive(w) =>
      if Enabled(s, a) then
        var id := s.waiters[w].id;
        s.(waiters := s.waiters[w := Woken(id, s.slots[id].buffer[0])],
           slots := s.slots[id := s.slots[id].(buffer := s.slots[id].buffer[1..])])
      else s
    case Decide(id, decidedBy, decision, notes, now) =>
      if id !in s.slots then s else s.(slots := s.slots[id := DecideSlot(s.slots[id], decidedBy, decision, notes, now)])
    case Fire(id, now) =>
      if id !in s.slots then s else s.(slots := s.slots[id := FireSlot(s.slots[id], now)])
    case SetMode(mode) =>
      if s.mode == MODE_GATE && mode != MODE_GATE then s.(mode := mode, slots := ReleaseAll(s.slots))
      else s.(mode := mode)
  }

  /** What WaitForDecision returns once a value has been received. */
  function Verdict(autoApprove: bool, value: Status): (bool, string) {
    match value
    case Approved => (true, "")
    case TimedOut =>
      if autoApprove then (true, "auto-approved on timeout") else (false, "timed out waiting for operator decision")
    case _ => (false, "rejected by operator")
  }

  /** What this waiter's call has returned, if it has. */
  function Outcome(s: State, w: WaiterId): Option<(bool, string)> {
    if w !in s.waiters then None
    else match s.waiters[w]
      case Holding(_) => None
      case NotFound(_) => Some((false, "checkpoint not found"))
      case Woken(_, value) => Some(Verdict(s.cfg.autoApprove, value))
  }

  // Runs

  datatype Run = Begin(cfg: Config) | Then(before: Run, action: Action)

  function StateOf(r: Run): State {
    match r
    case Begin(cfg) => Start(cfg)
    case Then(before, a) => Step(StateOf(before), a)
  }

  /** Only enabled steps are taken. */
  predicate Legal(r: Run) {
    match r
    case Begin(_) => true
    case Then(before, a) => Legal(before) && Enabled(StateOf(before), a)
  }

  /** `later` continues `r`. */
  predicate Continues(later: Run, r: Run) {
    later == r || (later.Then? && Continues(later.before, r))
  }

  // The inductive invariant

  /** One checkpoint, its channel and its timer. */
  ghost predicate SlotInv(slot: Slot) {
    && (slot.pending ==> slot.cp.status == Pending && slot.sent == [])
    && (!slot.pending ==> slot.sent == [if slot.released then Rejected else slot.cp.status])
    && (slot.released ==> !slot.pending)
    && (slot.cp.status == Pending ==> (slot.pending || slot.released) && slot.timer)
    && (slot.buffer == [] || slot.buffer == slot.sent)
    && (slot.cp.decidedAt.None? <==> slot.cp.status == Pending)
  }

  ghost predicate WaiterInv(s: State, w: WaiterId)
    requires w in s.waiters
  {
    match s.waiters[w]
    case Holding(id) => id in s.slots
    case NotFound(_) => true
    case Woken(id, value) => id in s.slots && s.slots[id].sent == [value] && s.slots[id].buffer == []
  }

  /** A waiter that took the value of this checkpoint's channel. */
  ghost predicate Took(s: State, w: WaiterId, id: Id) {
    w in s.waiters && s.waiters[w].Woken? && s.waiters[w].id == id
  }

  ghost predicate Inv(s: State) {
    && (s.mode != MODE_GATE ==> forall id <- s.slots :: !s.slots[id].pending)
    && (forall id <- s.slots :: SlotInv(s.slots[id]))
    && (forall w <- s.waiters :: WaiterInv(s, w))
    && TakenInv(s)
  }

  /** A value that has left its channel was taken by exactly one waiter. */
  ghost predicate TakenInv(s: State) {
    && (forall id <- s.slots :: s.slots[id].sent != [] && s.slots[id].buffer == [] ==> exists w :: Took(s, w, id))
    && (forall v, w, id :: Took(s, v, id) && Took(s, w, id) ==> v == w)
  }

  lemma StepKeepsInv(s: State, a: Action)
    requires Inv(s) && Enabled(s, a)
    ensures Inv(Step(s, a))
  {
    match a
    case LookUp(_, _) => LookUpKeepsInv(s, a);
    case Receive(_) => ReceiveKeepsInv(s, a);
    case Create(_, _, _, _, _) => CreateKeepsInv(s, a);
    case SetMode(_) => SetModeKeepsInv(s, a);
    case Decide(id, decidedBy, decision, notes, now) =>
      if id in s.slots {
        SettleKeepsSlot(s.slots[id], decidedBy, decision, notes, now);
        UpdateKeepsInv(s, id, DecideSlot(s.slots[id], decidedBy, decision, notes, now));
      }
    case Fire(id, now) =>
      SettleKeepsSlot(s.slots[id], "", "", "", now);
      UpdateKeepsInv(s, id, FireSlot(s.slots[id], now));
  }

  /** Settling a slot keeps its invariant and sends at most once, on a channel never used before. */
  lemma SettleKeepsSlot(slot: Slot, decidedBy: string, decision: string, notes: string, now: Time)
    requires SlotInv(slot)
    ensures SlotInv(DecideSlot(slot, decidedBy, decision, notes, now))
      && FirstSend(slot, DecideSlot(slot, decidedBy, decision, notes, now))
    ensures SlotInv(FireSlot(slot, now)) && FirstSend(slot, FireSlot(slot, now))
    ensures SlotInv(SwitchSlot(slot)) && FirstSend(slot, SwitchSlot(slot)) && !SwitchSlot(slot).pending
    ensures !slot.pending ==> !DecideSlot(slot, decidedBy, decision, notes, now).pending && !FireSlot(slot, now).pending
  {
  }

  /** The channel was left alone, or this was its first send. */
  ghost predicate FirstSend(before: Slot, after: Slot) {
    || (after.sent == before.sent && after.buffer == before.buffer)
    || (before.sent == [] && |after.sent| == |after.buffer| == 1)
  }

  lemma UpdateKeepsInv(s: State, id: Id, slot: Slot)
    requires Inv(s) && id in s.slots
    requires SlotInv(slot) && FirstSend(s.slots[id], slot) && (!s.slots[id].pending ==> !slot.pending)
    ensures Inv(s.(slots := s.slots[id := slot]))
  {
    SendKeepsWaiters(s, s.(slots := s.slots[id := slot]));
  }

  lemma CreateKeepsInv(s: State, a: Action)
    requires Inv(s) && Enabled(s, a) && a.Create?
    ensures Inv(Step(s, a))
  {
    SendKeepsWaiters(s, Step(s, a));
  }

  lemma SetModeKeepsInv(s: State, a: Action)
    requires Inv(s) && a.SetMode?
    ensures Inv(Step(s, a))
  {
    var t := Step(s, a);
    forall id <- s.slots
      ensures SlotInv(t.slots[id]) && FirstSend(s.slots[id], t.slots[id])
      ensures t.mode != MODE_GATE ==> !t.slots[id].pending
    {
      SettleKeepsSlot(s.slots[id], "", "", "", 0);
    }
    SendKeepsWaiters(s, t);
  }

  lemma LookUpKeepsInv(s: State, a: Action)
    requires Inv(s) && Enabled(s, a) && a.LookUp?
    ensures Inv(Step(s, a))
  {
    var t := Step(s, a);
    forall w <- t.waiters
      ensures WaiterInv(t, w)
    {
      assert w != a.w ==> WaiterInv(s, w);
    }
    forall id <- t.slots | t.slots[id].sent != [] && t.slots[id].buffer == []
      ensures exists w :: Took(t, w, id)
    {
      var w :| Took(s, w, id);
      assert Took(t, w, id);
    }
    forall v, w, id | Took(t, v, id) && Took(t, w, id)
      ensures v == w
    {
      assert Took(s, v, id) && Took(s, w, id);
    }
  }

  lemma ReceiveKeepsInv(s: State, a: Action)
    requires Inv(s) && Enabled(s, a) && a.Receive?
    ensures Inv(Step(s, a))
  {
    var t := Step(s, a);
    var id := s.waiters[a.w].id;
    assert SlotInv(s.slots[id]);
    forall w <- t.waiters
      ensures WaiterInv(t, w)
    {
      assert WaiterInv(s, w);
    }
    assert Took(t, a.w, id);
    forall i <- t.slots | i != id && t.slots[i].sent != [] && t.slots[i].buffer == []
      ensures exists w :: Took(t, w, i)
    {
      var w :| Took(s, w, i);
      assert Took(t, w, i);
    }
    forall v, w, i | Took(t, v, i) && Took(t, w, i)
      ensures v == w
    {
      assert v != a.w ==> Took(s, v, i) && WaiterInv(s, v);
      assert w != a.w ==> Took(s, w, i) && WaiterInv(s, w);
    }
  }

  /** Steps that only touch checkpoints: each channel is left alone or sent to for the first time. */
  lemma SendKeepsWaiters(s: State, t: State)
    requires Inv(s) && t.waiters == s.waiters
    requires forall id <- s.slots :: id in t.slots && FirstSend(s.slots[id], t.slots[id])
    requires forall id <- t.slots :: id !in s.slots ==> t.slots[id].sent == []
    ensures forall w <- t.waiters :: WaiterInv(t, w)
    ensures TakenInv(t)
  {
    forall w <- t.waiters
      ensures WaiterInv(t, w)
    {
      assert WaiterInv(s, w);
    }
    forall id <- t.slots | t.slots[id].sent != [] && t.slots[id].buffer == []
      ensures exists w :: Took(t, w, id)
    {
      var w :| Took(s, w, id);
      assert Took(t, w, id);
    }
    forall v, w, id | Took(t, v, id) && Took(t, w, id)
      ensures v == w
    {
      assert Took(s, v, id) && Took(s, w, id);
    }
  }

  lemma {:induction false} RunKeepsInv(r: Run)
    requires Legal(r)
    ensures Inv(StateOf(r))
  {
    match r
    case Begin(_) =>
    case Then(before, a) =>
      RunKeepsInv(before);
      StepKeepsInv(StateOf(before), a);
  }

  lemma SlotFacts(r: Run, id: Id)
    requires Legal(r) && id in StateOf(r).slots
    ensures SlotInv(StateOf(r).slots[id])
  {
    RunKeepsInv(r);
  }

  lemma PendingEmpty(r: Run)
    requires Legal(r)
    ensures forall id <- StateOf(r).slots :: StateOf(r).slots[id].pending ==> StateOf(r).slots[id].buffer == []
  {
    RunKeepsInv(r);
  }

  /** One more step of a run. */
  lemma Advance(r: Run, a: Action)
    requires Legal(r) && Enabled(StateOf(r), a)
    ensures Legal(Then(r, a)) && StateOf(Then(r, a)) == Step(StateOf(r), a)
  {
  }
}
