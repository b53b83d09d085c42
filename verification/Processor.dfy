/** Process of internal/processor/processor.go with its store, and VerifyAuditLog of internal/api/rest/handlers.go. */
module Processor {
  import opened Models
  import opened Seqs
  import opened EventRing
  import opened Audit
  import opened Intake
  import opened TraceTable

  const MAX_DEAD_LETTERS := 200

  datatype DeadLetter = DeadLetter(receivedAt: Time, reason: Rejection, ev: BastionEvent)

  /** Validator.Reject: the newest two hundred are kept. */
  function Bury(letters: seq<DeadLetter>, d: DeadLetter): (r: seq<DeadLetter>)
    ensures r != [] && r[|r| - 1] == d
    ensures |letters| <= MAX_DEAD_LETTERS ==> |r| <= MAX_DEAD_LETTERS
  {
    var all := letters + [d];
    if |all| > MAX_DEAD_LETTERS then all[|all| - MAX_DEAD_LETTERS..] else all
  }

  /** So the buffer is the last two hundred of everything ever rejected. */
  lemma DeadLettersAreNewest(all: seq<DeadLetter>, d: DeadLetter)
    ensures Bury(LastOf(all, 200), d) == LastOf(all + [d], 200)
  {
    if |all| > MAX_DEAD_LETTERS {
      assert Bury(LastOf(all, MAX_DEAD_LETTERS), d) == all[|all| - MAX_DEAD_LETTERS..][1..] + [d];
    }
  }

  class Processor {
    const signer: Signer
    const store: Store
    const table: Table
    var deadLetters: seq<DeadLetter>
    /** How many events were handed in, and which were turned away. */
    ghost var submitted: nat
    ghost var rejected: seq<BastionEvent>

    ghost predicate Valid()
      reads this, store, store.events, table
    {
      && store.Valid() && table.Valid()
      && |store.history| + |rejected| == submitted
      && (forall e <- store.history :: Sound(signer, e))
      && (forall e <- rejected :: Validate(e).Some?)
    }

    constructor (signer: Signer, capacity: int)
      ensures Valid() && fresh(store) && fresh(store.events) && fresh(table) && table.owner == map[]
      ensures this.signer == signer && store.history == [] && deadLetters == [] && submitted == 0
    {
      this.signer := signer;
      store := new Store(capacity);
      table := new Table();
      deadLetters, submitted, rejected := [], 0, [];
    }

    method Process(ev: BastionEvent, newId: string, now: Time)
      requires Valid() && newId != "" && NonEmptyMacs(signer.mac)
      modifies this, store, store.events, table, table.owner.Keys
      ensures Valid() && fresh(table.owner.Keys - old(table.owner.Keys))
      ensures submitted == old(submitted) + 1
      ensures var e := Enriched(ev, newId, now);
        if Validate(e).Some? then
          && rejected == old(rejected) + [e]
          && deadLetters == Bury(old(deadLetters), DeadLetter(now, Validate(e).value, e))
          && store.history == old(store.history)
          && table.Contents() == old(table.Contents())
        else
          && rejected == old(rejected) && deadLetters == old(deadLetters)
          && store.history == old(store.history) + [signer.Sign(e)]
          && table.Contents() == Traces.Upsert(old(table.Contents()), signer.Sign(e))
    {
      hide Sound, Validate, NonEmptyMacs, Enriched, Traces.Upsert, Bury, Table.Valid;
      var e := Enrich(ev, newId, now);
      submitted := submitted + 1;
      var reason := Validate(e);
      if reason.Some? {
        Reject(e, reason.value, now);
      } else {
        e := signer.Sign(e);
        SealedIsSound(signer, ev, newId, now);
        Keep(e);
      }
    }

    static method Enrich(ev: BastionEvent, newId: string, now: Time) returns (e: BastionEvent)
      ensures e == Enriched(ev, newId, now)
    {
      e := ev;
      if e.eventId == "" {
        e := e.(eventId := newId);
      }
      if e.timestamp == ZERO_TIME {
        e := e.(timestamp := now);
      }
      if e.severity == "" {
        e := e.(severity := "info");
      }
    }

    method Reject(e: BastionEvent, reason: Rejection, now: Time)
      modifies this
      ensures deadLetters == Bury(old(deadLetters), DeadLetter(now, reason, e))
      ensures rejected == old(rejected) + [e] && submitted == old(submitted)
    {
      deadLetters := Bury(deadLetters, DeadLetter(now, reason, e));
      rejected := rejected + [e];
    }

    /** The two writes to the store. */
    method Keep(e: BastionEvent)
      requires store.Valid() && table.Valid()
      modifies store, store.events, table, table.owner.Keys
      ensures store.Valid() && table.Valid() && fresh(table.owner.Keys - old(table.owner.Keys))
      ensures store.history == old(store.history) + [e]
      ensures table.Contents() == Traces.Upsert(old(table.Contents()), e)
    {
      hide Traces.Upsert;
      store.AddEvent(e);
      table.UpsertTrace(e);
    }
  }

  // The audit log

  datatype AuditResult = AuditResult(total: nat, valid: nat, invalid: nat, unsigned: nat, tampered: seq<string>)

  function Unsigned(): BastionEvent -> bool {
    (e: BastionEvent) => e.signature == ""
  }

  function Verified(signer: Signer): BastionEvent -> bool {
    (e: BastionEvent) => e.signature != "" && signer.Verify(e)
  }

  function Forged(signer: Signer): BastionEvent -> bool {
    (e: BastionEvent) => e.signature != "" && !signer.Verify(e)
  }

  function IdOf(): BastionEvent -> string {
    (e: BastionEvent) => e.eventId
  }

  /** The classification of a list of events. */
  function Classified(signer: Signer, events: seq<BastionEvent>): AuditResult {
    AuditResult(
      |events|,
      |Filter(Verified(signer), events)|,
      |Filter(Forged(signer), events)|,
      |Filter(Unsigned(), events)|,
      MapSeq(IdOf(), Filter(Forged(signer), events)))
  }

  method VerifyAuditLog(signer: Signer, store: Store, q: Query, limit: int) returns (result: AuditResult)
    requires store.Valid()
    ensures result == Classified(signer, Take(Filter(Visible(q), store.Contents()), RecentLimit(limit)))
  {
    var events := store.RecentEvents(q, limit);
    result := Classify(signer, events);
  }

  method Classify(signer: Signer, events: seq<BastionEvent>) returns (result: AuditResult)
    ensures result == Classified(signer, events)
  {
    hide Filter;
    var valid, invalid, unsigned, tampered := 0, 0, 0, [];
    NothingClassified(signer);
    for i := 0 to |events|
      invariant Classified(signer, events[..i]) == AuditResult(i, valid, invalid, unsigned, tampered)
    {
      var ev := events[i];
      assert events[..i + 1] == events[..i] + [ev];
      OneMoreClassified(signer, events[..i], ev);
      if ev.signature == "" {
        unsigned := unsigned + 1;
      } else if signer.Verify(ev) {
        valid := valid + 1;
      } else {
        invalid := invalid + 1;
        tampered := tampered + [ev.eventId];
      }
    }
    assert events[..|events|] == events;
    result := AuditResult(|events|, valid, invalid, unsigned, tampered);
  }

  lemma NothingClassified(signer: Signer)
    ensures Classified(signer, []) == AuditResult(0, 0, 0, 0, [])
  {
  }

  lemma OneMoreClassified(signer: Signer, events: seq<BastionEvent>, ev: BastionEvent)
    ensures var r, r' := Classified(signer, events), Classified(signer, events + [ev]);
      r' == if ev.signature == "" then r.(total := r.total + 1, unsigned := r.unsigned + 1)
            else if signer.Verify(ev) then r.(total := r.total + 1, valid := r.valid + 1)
            else r.(total := r.total + 1, invalid := r.invalid + 1, tampered := r.tampered + [ev.eventId])
  {
    hide Filter;
    FilterSnoc(Verified(signer), events, ev);
    FilterSnoc(Forged(signer), events, ev);
    FilterSnoc(Unsigned(), events, ev);
  }

  /**
   An event counts as valid if its seal is there and is the one computed from it, as
   invalid if it is there and is not, as unsigned if it is missing; the tampered ones are
   the IDs of the invalid ones, in order.
   */
  lemma AuditCounts(signer: Signer, events: seq<BastionEvent>)
    ensures var r := Classified(signer, events);
      && r.total == |events|
      && r.valid == |Filter((e: BastionEvent) => e.signature != "" && e.signature == signer.Compute(e), events)|
      && r.invalid == |Filter((e: BastionEvent) => e.signature != "" && e.signature != signer.Compute(e), events)|
      && r.unsigned == |Filter((e: BastionEvent) => e.signature == "", events)|
      && r.tampered == MapSeq((e: BastionEvent) => e.eventId,
           Filter((e: BastionEvent) => e.signature != "" && e.signature != signer.Compute(e), events))
  {
    hide Filter;
    var intact := (e: BastionEvent) => e.signature != "" && e.signature == signer.Compute(e);
    var altered := (e: BastionEvent) => e.signature != "" && e.signature != signer.Compute(e);
    FilterSame(Verified(signer), intact, events);
    FilterSame(Forged(signer), altered, events);
    FilterSame(Unsigned(), (e: BastionEvent) => e.signature == "", events);
    assert MapSeq(IdOf(), Filter(altered, events)) == MapSeq((e: BastionEvent) => e.eventId, Filter(altered, events));
  }

  /** Every event is counted exactly once, and the tampered ones are listed. */
  lemma {:induction false} CountsAddUp(signer: Signer, events: seq<BastionEvent>)
    ensures var r := Classified(signer, events);
      r.total == r.valid + r.invalid + r.unsigned && |r.tampered| == r.invalid
  {
    hide Classified;
    if events == [] {
      NothingClassified(signer);
    } else {
      var front := events[..|events| - 1];
      CountsAddUp(signer, front);
      OneMoreClassified(signer, front, events[|events| - 1]);
      assert events == front + [events[|events| - 1]];
    }
  }

  /** On events that are all sound the audit finds every one valid and none tampered. */
  lemma SoundEventsAllValid(signer: Signer, events: seq<BastionEvent>)
    requires forall e <- events :: Sound(signer, e)
    ensures Classified(signer, events) == AuditResult(|events|, |events|, 0, 0, [])
  {
    FilterAll(Verified(signer), events);
    FilterNone(Forged(signer), events);
    FilterNone(Unsigned(), events);
  }

  /** So whatever has been processed, the audit of the ring reports total = valid, whatever the query. */
  lemma AuditOfRingIsClean(signer: Signer, history: seq<BastionEvent>, capacity: nat, q: Query, limit: int)
    requires forall e <- history :: Sound(signer, e)
    ensures var r := Classified(signer, Take(Filter(Visible(q), View(history, capacity)), RecentLimit(limit)));
      r.valid == r.total && r.invalid == r.unsigned == 0 && r.tampered == []
  {
    hide Sound, Filter, Classified;
    var view := View(history, capacity);
    FilterMembers(Visible(q), view);
    var events := Take(Filter(Visible(q), view), RecentLimit(limit));
    forall e <- events
      ensures e in history
    {
      assert e in Filter(Visible(q), view);
      ReverseMembers(history[Oldest(|history|, capacity)..], e);
    }
    SoundEventsAllValid(signer, events);
  }
}
