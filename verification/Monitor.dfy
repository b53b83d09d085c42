/** How the maps of the monitor's Manager represent a state of the protocol in Gate. */
module MonitorMaps {
  import opened Models
  import opened Channels
  import opened Gate

  /** The fields of a manager; `channels` and `owner` are history, see Manager. */
  datatype ManagerFields = ManagerFields(
    cfg: Config,
    mode: string,
    checkpoints: map<Id, Checkpoint>,
    pendingCh: map<Id, Chan<Status>>,
    channels: map<Id, Chan<Status>>,
    owner: map<Chan<Status>, Id>)

  /** The manager's fields represent this protocol state. */
  ghost predicate Represents(s: State, m: ManagerFields) {
    && s.cfg == m.cfg && s.mode == m.mode
    && Records(s.slots, m.checkpoints, m.pendingCh)
    && Channelled(m.checkpoints.Keys, m.pendingCh, m.channels, m.owner)
  }

  ghost predicate Records(slots: map<Id, Slot>, checkpoints: map<Id, Checkpoint>, pendingCh: map<Id, Chan<Status>>) {
    && slots.Keys == checkpoints.Keys && pendingCh.Keys <= slots.Keys
    && (forall id <- slots :: slots[id].cp == checkpoints[id] && (slots[id].pending <==> id in pendingCh))
  }

  ghost predicate Channelled(
    ids: set<Id>, pendingCh: map<Id, Chan<Status>>, channels: map<Id, Chan<Status>>, owner: map<Chan<Status>, Id>)
  {
    && channels.Keys == ids && pendingCh.Keys <= ids
    && (forall id <- pendingCh :: pendingCh[id] == channels[id])
    && Unshared(channels, owner)
  }

  /** Every channel is open, has capacity 1, and holds what the protocol says. */
  ghost predicate Buffered(Repr: set<Chan<Status>>, channels: map<Id, Chan<Status>>, slots: map<Id, Slot>)
    reads Repr
  {
    forall id <- channels :: id in slots && channels[id] in Repr
      && channels[id].buffer == slots[id].buffer && channels[id].capacity == 1 && !channels[id].closed
  }

  /** No two checkpoints share a channel. */
  ghost predicate Unshared(channels: map<Id, Chan<Status>>, owner: map<Chan<Status>, Id>) {
    forall id <- channels :: channels[id] in owner && owner[channels[id]] == id
  }

  /** One record rewritten, and its entry of pendingCh gone. */
  function Settled(m: ManagerFields, id: Id, cp: Checkpoint): ManagerFields {
    m.(checkpoints := m.checkpoints[id := cp], pendingCh := m.pendingCh - {id})
  }

  lemma SettledRepresents(s: State, m: ManagerFields, id: Id, slot: Slot)
    requires Represents(s, m) && id in s.slots && !slot.pending
    ensures Represents(s.(slots := s.slots[id := slot]), Settled(m, id, slot.cp))
  {
    hide Records, Channelled;
    RecordsSettled(s.slots, m.checkpoints, m.pendingCh, id, slot);
    assert m.checkpoints[id := slot.cp].Keys == m.checkpoints.Keys by {
      SameIds(s.slots, m.checkpoints, m.pendingCh);
    }
    ChannelsFewer(m.checkpoints.Keys, m.pendingCh, m.channels, m.owner, id);
  }

  lemma SameIds(slots: map<Id, Slot>, checkpoints: map<Id, Checkpoint>, pendingCh: map<Id, Chan<Status>>)
    requires Records(slots, checkpoints, pendingCh)
    ensures slots.Keys == checkpoints.Keys
  {
  }

  lemma RecordsSettled(
    slots: map<Id, Slot>, checkpoints: map<Id, Checkpoint>, pendingCh: map<Id, Chan<Status>>, id: Id, slot: Slot)
    requires Records(slots, checkpoints, pendingCh) && id in slots && !slot.pending
    ensures Records(slots[id := slot], checkpoints[id := slot.cp], pendingCh - {id})
  {
  }

  lemma RecordsAdded(
    slots: map<Id, Slot>, checkpoints: map<Id, Checkpoint>, pendingCh: map<Id, Chan<Status>>,
    id: Id, slot: Slot, ch: Chan<Status>)
    requires Records(slots, checkpoints, pendingCh) && id !in checkpoints && slot.pending
    ensures Records(slots[id := slot], checkpoints[id := slot.cp], pendingCh[id := ch])
  {
  }

  lemma ChannelsFewer(
    ids: set<Id>, pendingCh: map<Id, Chan<Status>>, channels: map<Id, Chan<Status>>, owner: map<Chan<Status>, Id>,
    id: Id)
    requires Channelled(ids, pendingCh, channels, owner)
    ensures Channelled(ids, pendingCh - {id}, channels, owner)
  {
    hide Unshared;
  }

  lemma ChannelAdded(
    ids: set<Id>, pendingCh: map<Id, Chan<Status>>, channels: map<Id, Chan<Status>>, owner: map<Chan<Status>, Id>,
    id: Id, ch: Chan<Status>)
    requires Channelled(ids, pendingCh, channels, owner) && id !in ids && forall i <- channels :: channels[i] != ch
    ensures Channelled(ids + {id}, pendingCh[id := ch], channels[id := ch], owner[ch := id])
  {
  }

  /** A change of what the maps do not hold. */
  lemma SameRepresents(s: State, m: ManagerFields, id: Id, slot: Slot)
    requires Represents(s, m) && id in s.slots
    requires slot.cp == s.slots[id].cp && slot.pending == s.slots[id].pending
    ensures Represents(s.(slots := s.slots[id := slot]), m)
  {
    hide Channelled;
  }

  /** What a decision does to the maps: nothing, or it rewrites one record and drops one entry of pendingCh. */
  lemma DecideStep(s: State, m: ManagerFields, a: Action)
    requires Represents(s, m) && a.Decide?
    ensures var t := Step(s, a);
      if !Undecided(m.checkpoints, a.id) then t.slots == s.slots && Represents(t, m)
      else
        && a.id in s.slots && a.id in t.slots
        && t.slots == s.slots[a.id := t.slots[a.id]]
        && t.slots[a.id].buffer == Release(s.slots[a.id], t.slots[a.id].cp.status).buffer
        && t.slots[a.id].cp == m.checkpoints[a.id].(status := if a.decision == "approve" then Approved else Rejected,
             decidedAt := Some(a.now), decidedBy := a.decidedBy, notes := a.notes)
        && Represents(t, Settled(m, a.id, t.slots[a.id].cp))
  {
    hide Channelled, Settled;
    assert a.id in s.slots <==> a.id in m.checkpoints;
    if a.id in s.slots {
      var slot := DecideSlot(s.slots[a.id], a.decidedBy, a.decision, a.notes, a.now);
      if Undecided(m.checkpoints, a.id) {
        SettledRepresents(s, m, a.id, slot);
      } else {
        assert slot == s.slots[a.id] && s.slots[a.id := slot] == s.slots;
      }
    }
  }

  lemma FireStep(s: State, m: ManagerFields, a: Action)
    requires Represents(s, m) && a.Fire? && a.id in s.slots
    ensures var t := Step(s, a);
      && a.id in t.slots
      && t.slots == s.slots[a.id := t.slots[a.id]]
      && if !Undecided(m.checkpoints, a.id) then
           t.slots[a.id] == s.slots[a.id].(timer := false) && Represents(t, m)
         else
           && t.slots[a.id].buffer == Release(s.slots[a.id], TimedOut).buffer
           && t.slots[a.id].cp == m.checkpoints[a.id].(status := TimedOut, decidedAt := Some(a.now))
           && Represents(t, Settled(m, a.id, t.slots[a.id].cp))
  {
    hide Channelled, Settled;
    var slot := FireSlot(s.slots[a.id], a.now);
    if Undecided(m.checkpoints, a.id) {
      SettledRepresents(s, m, a.id, slot);
    } else {
      SameRepresents(s, m, a.id, slot);
    }
  }

  predicate Undecided(checkpoints: map<Id, Checkpoint>, id: Id) {
    id in checkpoints && checkpoints[id].status == Pending
  }

  lemma ReceiveStep(s: State, m: ManagerFields, w: WaiterId, id: Id)
    requires Represents(s, m)
    requires Enabled(s, Receive(w)) && s.waiters[w] == Holding(id)
    ensures Represents(Step(s, Receive(w)), m) && Step(s, Receive(w)).cfg == m.cfg
    ensures Step(s, Receive(w)).slots == s.slots[id := s.slots[id].(buffer := s.slots[id].buffer[1..])]
    ensures w in Step(s, Receive(w)).waiters && Step(s, Receive(w)).waiters[w] == Woken(id, s.slots[id].buffer[0])
  {
    hide Channelled;
  }

  /** What a method may use of the representation. */
  lemma Facts(s: State, m: ManagerFields)
    requires Represents(s, m)
    ensures Unshared(m.channels, m.owner)
    ensures m.pendingCh.Keys <= m.channels.Keys && s.slots.Keys == m.checkpoints.Keys
    ensures forall id <- m.pendingCh :: m.pendingCh[id] == m.channels[id]
    ensures forall id <- s.slots :: s.slots[id].pending <==> id in m.pendingCh
  {
  }

  lemma LookUpStep(s: State, m: ManagerFields, w: WaiterId, id: Id)
    requires Represents(s, m)
    ensures var t := Step(s, LookUp(w, id));
      && Represents(t, m)
      && t.slots == s.slots
      && w in t.waiters && t.waiters[w] == if id in m.pendingCh then Holding(id) else NotFound(id)
  {
  }

  lemma SetModeStep(s: State, m: ManagerFields, newMode: string)
    requires Represents(s, m)
    ensures var t := Step(s, SetMode(newMode));
      if m.mode == MODE_GATE && newMode != MODE_GATE then
        t.slots == ReleaseAll(s.slots) && Represents(t, m.(mode := newMode, pendingCh := map[]))
      else
        t.slots == s.slots && Represents(t, m.(mode := newMode))
  {
    hide Unshared, ReleaseAll;
    SwitchedRecords(s.slots, m.checkpoints, m.pendingCh);
  }

  lemma SwitchedRecords(slots: map<Id, Slot>, checkpoints: map<Id, Checkpoint>, pendingCh: map<Id, Chan<Status>>)
    requires Records(slots, checkpoints, pendingCh)
    ensures Records(ReleaseAll(slots), checkpoints, map[])
  {
  }

  lemma CreateRefused(s: State, m: ManagerFields, a: Action)
    requires Represents(s, m)
    requires a.Create? && a.id !in m.checkpoints && m.mode != MODE_GATE
    ensures Enabled(s, a) && Step(s, a) == s
  {
  }

  lemma CreateStep(s: State, m: ManagerFields, a: Action, ch: Chan<Status>)
    requires Represents(s, m)
    requires a.Create? && a.id !in m.checkpoints && forall i <- m.channels :: m.channels[i] != ch
    requires m.mode == MODE_GATE
    ensures Enabled(s, a)
    ensures var t := Step(s, a);
      var cp := Checkpoint(
        a.traceId, a.tenantId, a.stage, Pending, a.now, a.now + m.cfg.timeoutSec * SECOND, None, "", "");
      && t.slots == s.slots[a.id := Slot(cp, true, [], true, [], false)]
      && Represents(t, m.(checkpoints := m.checkpoints[a.id := cp], pendingCh := m.pendingCh[a.id := ch],
           channels := m.channels[a.id := ch], owner := m.owner[ch := a.id]))
  {
    hide Records, Channelled;
    var cp := Checkpoint(
      a.traceId, a.tenantId, a.stage, Pending, a.now, a.now + m.cfg.timeoutSec * SECOND, None, "", "");
    var slot := Slot(cp, true, [], true, [], false);
    SameIds(s.slots, m.checkpoints, m.pendingCh);
    RecordsAdded(s.slots, m.checkpoints, m.pendingCh, a.id, slot, ch);
    ChannelAdded(m.checkpoints.Keys, m.pendingCh, m.channels, m.owner, a.id, ch);
    assert m.checkpoints[a.id := slot.cp].Keys == m.checkpoints.Keys + {a.id};
  }

  /** During the loop: `left` still waits; the others have been switched, which does nothing to what never waited. */
  ghost predicate Midway(slots: map<Id, Slot>, now: map<Id, Slot>, left: set<Id>) {
    && now.Keys == slots.Keys
    && (forall id <- slots :: now[id] == if id in left then slots[id] else SwitchSlot(slots[id]))
  }

  lemma MidwayStart(slots: map<Id, Slot>, pendingCh: map<Id, Chan<Status>>)
    requires forall id <- slots :: slots[id].pending <==> id in pendingCh
    requires pendingCh.Keys <= slots.Keys
    ensures Midway(slots, slots, pendingCh.Keys)
  {
  }

  lemma MidwayNext(slots: map<Id, Slot>, now: map<Id, Slot>, left: set<Id>, id: Id)
    requires Midway(slots, now, left) && id in left && id in slots
    ensures Midway(slots, now[id := SwitchSlot(slots[id])], left - {id})
  {
    hide SwitchSlot;
  }

  lemma MidwayAt(slots: map<Id, Slot>, now: map<Id, Slot>, left: set<Id>, id: Id)
    requires Midway(slots, now, left) && id in left && id in slots
    ensures id in now && now[id] == slots[id]
  {
  }

  lemma MidwayDone(slots: map<Id, Slot>, now: map<Id, Slot>)
    requires Midway(slots, now, {})
    ensures now == ReleaseAll(slots)
  {
    hide SwitchSlot;
  }

  lemma Without(m: map<Id, Chan<Status>>, id: Id)
    requires id in m
    ensures (m - {id}).Keys == m.Keys - {id}
  {
  }
}

/**
 The Manager of internal/monitor/monitor.go, gate m.mode. Each method is one region
 under the lock and takes exactly one step of the protocol in Gate, so whatever
 GateProperties proves of runs holds of any sequence of calls.
 */
module Monitor {
  import opened Models
  import opened Channels
  import opened Gate
  import opened MonitorMaps

  class Manager {
    const cfg: Config
    var mode: string
    var checkpoints: map<Id, Checkpoint>
    var pendingCh: map<Id, Chan<Status>>
    /** Every channel ever made, by checkpoint; a waiter may hold one that has left pendingCh. */
    ghost var channels: map<Id, Chan<Status>>
    ghost var Repr: set<Chan<Status>>
    /** The checkpoint each channel was made for. */
    ghost var owner: map<Chan<Status>, Id>
    /** The steps taken so far. */
    ghost var run: Run

    ghost predicate Valid()
      reads this, Repr
    {
      && Legal(run)
      && Represents(StateOf(run), All())
      && Buffered(Repr, channels, StateOf(run).slots)
    }

    ghost function All(): ManagerFields
      reads this
    {
      ManagerFields(cfg, mode, checkpoints, pendingCh, channels, owner)
    }

    constructor (cfg: Config)
      ensures Valid() && run == Begin(cfg)
    {
      this.cfg := Start(cfg).cfg;
      mode := if cfg.mode == "" then MODE_OFF else cfg.mode;
      checkpoints, pendingCh, channels, owner := map[], map[], map[], map[];
      Repr := {};
      run := Begin(cfg);
    }

    /** Leaving gate mode sends a rejection to everyone who waits, in any map order. */
    method SetMode(newMode: string)
      requires Valid()
      modifies this`mode, this`pendingCh, this`run, Repr
      ensures Valid() && run == Then(old(run), Gate.SetMode(newMode))
      ensures checkpoints == old(checkpoints)
    {
      hide StateOf, Legal, Step, Represents, ReleaseAll;
      ghost var s, before := StateOf(run), All();
      SetModeStep(s, before, newMode);
      Advance(run, Gate.SetMode(newMode));
      var prev := mode;
      mode := newMode;
      if prev == MODE_GATE && newMode != MODE_GATE {
        PendingEmpty(run);
        Facts(s, before);
        ReleaseWaiting(s.slots);
      }
      run := Then(run, Gate.SetMode(newMode));
    }

    /** One send; every other channel keeps its content. */
    method SendTo(id: Id, ch: Chan<Status>, value: Status, ghost slots: map<Id, Slot>, ghost slot: Slot)
      requires id in channels && ch == channels[id] && Unshared(channels, owner) && Buffered(Repr, channels, slots)
      requires slots[id].buffer == [] && slot.buffer == [value]
      modifies ch
      ensures Buffered(Repr, channels, slots[id := slot])
    {
      ch.Send(value);
    }

    /** One receive. */
    method TakeFrom(ghost id: Id, ch: Chan<Status>, ghost slots: map<Id, Slot>) returns (value: Status)
      requires id in channels && ch == channels[id] && Unshared(channels, owner) && Buffered(Repr, channels, slots)
      requires ch.buffer != []
      modifies ch
      ensures value == slots[id].buffer[0]
      ensures Buffered(Repr, channels, slots[id := slots[id].(buffer := slots[id].buffer[1..])])
    {
      value := ch.Receive();
    }

    /** A change that does not touch a channel. */
    lemma SameBuffer(slots: map<Id, Slot>, id: Id, slot: Slot)
      requires Buffered(Repr, channels, slots) && id in slots && slot.buffer == slots[id].buffer
      ensures Buffered(Repr, channels, slots[id := slot])
    {
    }

    /** The release loop of SetMode. */
    method ReleaseWaiting(ghost slots: map<Id, Slot>)
      requires pendingCh.Keys <= channels.Keys && forall id <- pendingCh :: pendingCh[id] == channels[id]
      requires forall id <- slots :: slots[id].pending <==> id in pendingCh
      requires forall id <- slots :: slots[id].pending ==> slots[id].buffer == []
      requires Unshared(channels, owner) && Buffered(Repr, channels, slots)
      modifies this`pendingCh, Repr
      ensures pendingCh == map[]
      ensures Buffered(Repr, channels, ReleaseAll(slots))
    {
      assert pendingCh.Keys <= slots.Keys;
      hide Buffered, Unshared, Midway, SwitchSlot, ReleaseAll;
      ghost var now := slots;
      MidwayStart(slots, pendingCh);
      while pendingCh.Keys != {}
        invariant pendingCh.Keys <= old(pendingCh).Keys && forall id <- pendingCh :: pendingCh[id] == channels[id]
        invariant Midway(slots, now, pendingCh.Keys)
        invariant Buffered(Repr, channels, now)
        decreases pendingCh.Keys
      {
        var id :| id in pendingCh.Keys;
        MidwayAt(slots, now, pendingCh.Keys, id);
        MidwayNext(slots, now, pendingCh.Keys, id);
        ReleaseOne(id, slots, now);
        now := now[id := SwitchSlot(slots[id])];
      }
      MidwayDone(slots, now);
      assert pendingCh == map[];
    }

    method ReleaseOne(id: Id, ghost slots: map<Id, Slot>, ghost now: map<Id, Slot>)
      requires id in pendingCh && id in channels && pendingCh[id] == channels[id]
      requires id in slots && id in now && now[id] == slots[id] && slots[id].buffer == [] && slots[id].pending
      requires Unshared(channels, owner) && Buffered(Repr, channels, now)
      modifies this`pendingCh, Repr
      ensures pendingCh == old(pendingCh) - {id} && pendingCh.Keys == old(pendingCh).Keys - {id}
      ensures Buffered(Repr, channels, now[id := SwitchSlot(slots[id])])
    {
      SendTo(id, pendingCh[id], Rejected, now, SwitchSlot(slots[id]));
      Without(pendingCh, id);
      pendingCh := pendingCh - {id};
    }

    /** `id` is newID's fresh identifier, `now` the clock. */
    method CreateCheckpoint(id: Id, traceId: string, tenantId: string, stage: string, now: Time)
      returns (cp: Option<Checkpoint>)
      requires Valid() && id !in checkpoints
      modifies this`checkpoints, this`pendingCh, this`channels, this`owner, this`Repr, this`run
      ensures Valid() && run == Then(old(run), Create(id, traceId, tenantId, stage, now))
      ensures fresh(Repr - old(Repr))
      ensures if mode == MODE_GATE then cp == Some(checkpoints[id]) else cp == None
    {
      hide StateOf, Legal, Step, Represents, SlotInv;
      ghost var a := Create(id, traceId, tenantId, stage, now);
      if mode != MODE_GATE {
        CreateRefused(StateOf(run), All(), a);
        Advance(run, a);
        run := Then(run, a);
        return None;
      }
      var c := Checkpoint(traceId, tenantId, stage, Pending, now, now + cfg.timeoutSec * SECOND, None, "", "");
      var ch := new Chan<Status>(1);
      CreateStep(StateOf(run), All(), a, ch);
      Advance(run, a);
      run := Then(run, a);
      checkpoints := checkpoints[id := c];
      pendingCh := pendingCh[id := ch];
      channels, owner, Repr := channels[id := ch], owner[ch := id], Repr + {ch};
      cp := Some(c);
    }

    /** The first half of WaitForDecision; the second half is Await. */
    method LookUpChannel(ghost w: WaiterId, id: Id) returns (ch: Chan?<Status>)
      requires Valid() && w !in StateOf(run).waiters
      modifies this`run
      ensures Valid() && run == Then(old(run), LookUp(w, id))
      ensures ch == null <==> id !in pendingCh
      ensures ch != null ==> id in channels && ch == channels[id]
      ensures StateOf(run).waiters[w] == if ch != null then Holding(id) else NotFound(id)
    {
      hide StateOf, Legal, Step;
      LookUpStep(StateOf(run), All(), w, id);
      ch := if id in pendingCh then pendingCh[id] else null;
      Advance(run, LookUp(w, id));
      run := Then(run, LookUp(w, id));
    }

    /** The second half: it runs when the channel it holds has a value. */
    method Await(ghost w: WaiterId, ghost id: Id, ch: Chan<Status>) returns (approved: bool, reason: string)
      requires Valid() && w in StateOf(run).waiters && StateOf(run).waiters[w] == Holding(id)
      requires id in channels && ch == channels[id]
      requires ch.buffer != []
      modifies this`run, ch
      ensures Valid() && run == Then(old(run), Receive(w))
      ensures Outcome(StateOf(run), w) == Some((approved, reason))
    {
      hide StateOf, Legal, Step, Represents;
      Facts(StateOf(run), All());
      ghost var s := StateOf(run);
      assert id in s.slots && s.slots[id].buffer == ch.buffer;
      var value := TakeFrom(id, ch, s.slots);
      ReceiveStep(s, All(), w, id);
      Advance(run, Receive(w));
      run := Then(run, Receive(w));
      match value {
        case Approved =>
          return true, "";
        case TimedOut =>
          if cfg.autoApprove {
            return true, "auto-approved on timeout";
          }
          return false, "timed out waiting for operator decision";
        case _ =>
          return false, "rejected by operator";
      }
    }

    method Decide(id: Id, decidedBy: string, decision: string, notes: string, now: Time)
      returns (cp: Option<Checkpoint>)
      requires Valid()
      modifies this`checkpoints, this`pendingCh, this`run, Repr
      ensures Valid() && run == Then(old(run), Gate.Decide(id, decidedBy, decision, notes, now))
      ensures cp.Some? <==> id in old(checkpoints) && old(checkpoints)[id].status == Pending
      ensures cp.Some? ==> id in checkpoints && cp.value == checkpoints[id]
    {
      hide StateOf, Legal, Step, Represents;
      Facts(StateOf(run), All());
      ghost var s := StateOf(run);
      DecideStep(s, All(), Gate.Decide(id, decidedBy, decision, notes, now));
      Advance(run, Gate.Decide(id, decidedBy, decision, notes, now));
      run := Then(run, Gate.Decide(id, decidedBy, decision, notes, now));
      if id !in checkpoints || checkpoints[id].status != Pending {
        return None;
      }
      var status := if decision == "approve" then Approved else Rejected;
      var c := checkpoints[id].(status := status, decidedAt := Some(now), decidedBy := decidedBy, notes := notes);
      SlotFacts(old(run), id);
      Settle(id, c, s.slots, StateOf(run).slots[id]);
      cp := Some(c);
    }

    /** enforceTimeout after its sleep. */
    method FireTimeout(id: Id, now: Time)
      requires Valid() && Enabled(StateOf(run), Fire(id, now))
      modifies this`checkpoints, this`pendingCh, this`run, Repr
      ensures Valid() && run == Then(old(run), Fire(id, now))
    {
      hide StateOf, Legal, Step, Represents;
      Facts(StateOf(run), All());
      ghost var s := StateOf(run);
      FireStep(s, All(), Fire(id, now));
      Advance(run, Fire(id, now));
      run := Then(run, Fire(id, now));
      if id !in checkpoints || checkpoints[id].status != Pending {
        SameBuffer(s.slots, id, s.slots[id].(timer := false));
        return;
      }
      SlotFacts(old(run), id);
      Settle(id, checkpoints[id].(status := TimedOut, decidedAt := Some(now)), s.slots, StateOf(run).slots[id]);
    }

    /** What Decide and enforceTimeout have in common: record, send if the entry is there, drop the entry. */
    method Settle(id: Id, c: Checkpoint, ghost slots: map<Id, Slot>, ghost slot: Slot)
      requires Unshared(channels, owner) && Buffered(Repr, channels, slots)
      requires id in slots && (id in pendingCh ==> id in channels && pendingCh[id] == channels[id])
      requires slots[id].pending <==> id in pendingCh
      requires slots[id].pending ==> slots[id].buffer == []
      requires slot.buffer == Release(slots[id], c.status).buffer
      modifies this`checkpoints, this`pendingCh, Repr
      ensures checkpoints == old(checkpoints)[id := c]
      ensures pendingCh == old(pendingCh) - {id}
      ensures Buffered(Repr, channels, slots[id := slot])
    {
      checkpoints := checkpoints[id := c];
      if id in pendingCh {
        SendTo(id, pendingCh[id], c.status, slots, slot);
        pendingCh := pendingCh - {id};
      } else {
        assert pendingCh - {id} == pendingCh;
        SameBuffer(slots, id, slot);
      }
    }
  }
}
