/** The replay loop of internal/demo/engine.go: events and annotations merged by their scaled offsets. */
module Replay {
  import opened Models
  import opened Seqs

  datatype DemoEvent = DemoEvent(offsetMs: int, event: BastionEvent)

  datatype Annotation = Annotation(offsetMs: int, text: string)

  datatype Scenario = Scenario(events: seq<DemoEvent>, annotations: seq<Annotation>)

  /** One thing sent out: an annotation to the dashboard, or an event to the processor. */
  datatype Emission = Note(index: nat) | Fire(index: nat)

  /** A conversion from float64 to an integer drops the fraction. */
  function Truncate(x: real): int {
    if x >= 0.0 then x.Floor else -((-x).Floor)
  }

  /**
   How offsets are scaled: the requested speed, and what float64 arithmetic makes
   of an exact result. `round` is a parameter; of the rounding of IEEE 754 (section
   4.3.1) only its being monotone is used.
   */
  datatype Clock = Clock(speed: real, round: real -> real)

  ghost predicate Monotone(clock: Clock) {
    forall x, y :: x <= y ==> clock.round(x) <= clock.round(y)
  }

  /** A speed that is not positive counts as 1. */
  function Speed(speed: real): (r: real)
    ensures r > 0.0
  {
    if speed <= 0.0 then 1.0 else speed
  }

  /** An offset from the start of the replay, in milliseconds. */
  function Scaled(offsetMs: int, clock: Clock): int {
    Truncate(clock.round(clock.round(offsetMs as real) / Speed(clock.speed)))
  }

  lemma TruncateMonotone(x: real, y: real)
    requires x <= y
    ensures Truncate(x) <= Truncate(y)
  {
  }

  lemma QuotientMonotone(a: real, b: real, s: real)
    requires a <= b && s > 0.0
    ensures a / s <= b / s
  {
    var d := b / s - a / s;
    assert d * s == b - a;
    SignOfFactor(d, s);
  }

  lemma SignOfFactor(d: real, s: real)
    requires s > 0.0 && d * s >= 0.0
    ensures d >= 0.0
  {
  }

  /** Scaling keeps order, whatever the speed and however its quotient is rounded. */
  lemma ScaledMonotone(a: int, b: int, clock: Clock)
    requires a <= b && Monotone(clock)
    ensures Scaled(a, clock) <= Scaled(b, clock)
  {
    var x, y := clock.round(a as real), clock.round(b as real);
    QuotientMonotone(x, y, Speed(clock.speed));
    TruncateMonotone(clock.round(x / Speed(clock.speed)), clock.round(y / Speed(clock.speed)));
  }

  /**
   With nothing to round, an offset is divided by the speed and cut to whole
   milliseconds towards zero; a speed that is not positive leaves it as it is.
   */
  lemma ScaledIs(offsetMs: int, clock: Clock)
    requires forall x :: clock.round(x) == x
    ensures clock.speed <= 0.0 ==> Scaled(offsetMs, clock) == offsetMs
    ensures clock.speed > 0.0 && offsetMs >= 0 ==>
      Scaled(offsetMs, clock) as real <= offsetMs as real / clock.speed < (Scaled(offsetMs, clock) + 1) as real
    ensures clock.speed > 0.0 && offsetMs <= 0 ==>
      (Scaled(offsetMs, clock) - 1) as real < offsetMs as real / clock.speed <= Scaled(offsetMs, clock) as real
  {
    if clock.speed > 0.0 {
      if offsetMs >= 0 {
        QuotientMonotone(0.0, offsetMs as real, clock.speed);
      } else {
        QuotientMonotone(offsetMs as real, 0.0, clock.speed);
      }
    }
  }

  /** And with rounding: the offset and the quotient are rounded, in this order, before the cut. */
  lemma RoundedScale(offsetMs: int, clock: Clock)
    requires clock.speed > 0.0
    ensures var q := clock.round(clock.round(offsetMs as real) / clock.speed);
      && (q >= 0.0 ==> Scaled(offsetMs, clock) as real <= q < (Scaled(offsetMs, clock) + 1) as real)
      && (q <= 0.0 ==> (Scaled(offsetMs, clock) - 1) as real < q <= Scaled(offsetMs, clock) as real)
  {
  }

  function NoteAt(sc: Scenario, clock: Clock, i: nat): int
    requires i < |sc.annotations|
  {
    Scaled(sc.annotations[i].offsetMs, clock)
  }

  function FireAt(sc: Scenario, clock: Clock, j: nat): int
    requires j < |sc.events|
  {
    Scaled(sc.events[j].offsetMs, clock)
  }

  /** Whether annotation i comes before event j. */
  predicate NoteDue(sc: Scenario, clock: Clock, j: nat, i: nat): (due: bool)
    requires j < |sc.events|
    ensures due ==> i < |sc.annotations|
  {
    i < |sc.annotations| && NoteAt(sc, clock, i) < FireAt(sc, clock, j)
  }

  /** The whole schedule from event j and annotation i on. */
  function Plan(sc: Scenario, clock: Clock, j: nat, i: nat): seq<Emission>
    requires j <= |sc.events| && i <= |sc.annotations|
    decreases |sc.events| - j + |sc.annotations| - i
  {
    if j == |sc.events| then []
    else if NoteDue(sc, clock, j, i) then [Note(i)] + Plan(sc, clock, j, i + 1)
    else [Fire(j)] + Plan(sc, clock, j + 1, i)
  }

  lemma PlanNext(sc: Scenario, clock: Clock, j: nat, i: nat)
    requires j <= |sc.events| && i <= |sc.annotations|
    ensures Plan(sc, clock, j, i) ==
      if j == |sc.events| then []
      else if NoteDue(sc, clock, j, i) then [Note(i)] + Plan(sc, clock, j, i + 1)
      else [Fire(j)] + Plan(sc, clock, j + 1, i)
  {
  }

  /** The number of emissions before the replay is cancelled: the oracle says at which it is. */
  function Cut(n: nat, cancelled: nat -> bool): (k: nat)
    ensures k <= n && (k < n ==> cancelled(k)) && forall m :: 0 <= m < k ==> !cancelled(m)
  {
    CutFrom(0, n, cancelled)
  }

  function CutFrom(k: nat, n: nat, cancelled: nat -> bool): (r: nat)
    requires k <= n
    ensures k <= r <= n && (r < n ==> cancelled(r)) && forall m :: k <= m < r ==> !cancelled(m)
    decreases n - k
  {
    if k == n || cancelled(k) then k else CutFrom(k + 1, n, cancelled)
  }

  /**
   The goroutine: for each event, first the annotations before it, then the event.
   `cancelled(k)` is whether the replay is found cancelled when its k-th emission is due.
   */
  method Run(sc: Scenario, clock: Clock, cancelled: nat -> bool) returns (out: seq<Emission>)
    ensures var plan := Plan(sc, clock, 0, 0);
      out == plan[..Cut(|plan|, cancelled)]
  {
    hide Cut, Plan, NoteDue;
    out := [];
    var annIdx := 0;
    ghost var plan := Plan(sc, clock, 0, 0);
    for j := 0 to |sc.events|
      invariant annIdx <= |sc.annotations|
      invariant plan == out + Plan(sc, clock, j, annIdx)
      invariant forall m :: 0 <= m < |out| ==> !cancelled(m)
    {
      while NoteDue(sc, clock, j, annIdx)
        invariant annIdx <= |sc.annotations|
        invariant plan == out + Plan(sc, clock, j, annIdx)
        invariant forall m :: 0 <= m < |out| ==> !cancelled(m)
        decreases |sc.annotations| - annIdx
      {
        if cancelled(|out|) {
          CutHere(plan, out, Plan(sc, clock, j, annIdx), cancelled);
          return;
        }
        PlanNext(sc, clock, j, annIdx);
        Sent(out, Note(annIdx), Plan(sc, clock, j, annIdx + 1));
        out := out + [Note(annIdx)];
        annIdx := annIdx + 1;
      }
      if cancelled(|out|) {
        CutHere(plan, out, Plan(sc, clock, j, annIdx), cancelled);
        return;
      }
      PlanNext(sc, clock, j, annIdx);
      Sent(out, Fire(j), Plan(sc, clock, j + 1, annIdx));
      out := out + [Fire(j)];
    }
    PlanNext(sc, clock, |sc.events|, annIdx);
    CutHere(plan, out, [], cancelled);
  }

  lemma Sent(out: seq<Emission>, e: Emission, rest: seq<Emission>)
    ensures out + ([e] + rest) == (out + [e]) + rest
  {
  }

  lemma CutHere(plan: seq<Emission>, out: seq<Emission>, rest: seq<Emission>, cancelled: nat -> bool)
    requires plan == out + rest && (rest != [] ==> cancelled(|out|))
    requires forall m :: 0 <= m < |out| ==> !cancelled(m)
    ensures out == plan[..Cut(|plan|, cancelled)]
  {
    var k := Cut(|plan|, cancelled);
    assert k == |out|;
  }

  // What the schedule is

  /** Annotations are kept in the order of their offsets. */
  ghost predicate NotesSorted(sc: Scenario) {
    forall i, k :: 0 <= i < k < |sc.annotations| ==> sc.annotations[i].offsetMs <= sc.annotations[k].offsetMs
  }

  ghost predicate EventsSorted(sc: Scenario) {
    forall i, k :: 0 <= i < k < |sc.events| ==> sc.events[i].offsetMs <= sc.events[k].offsetMs
  }

  lemma NotesScaledSorted(sc: Scenario, clock: Clock, i: nat, k: nat)
    requires Monotone(clock) && NotesSorted(sc) && i <= k < |sc.annotations|
    ensures NoteAt(sc, clock, i) <= NoteAt(sc, clock, k)
  {
    ScaledMonotone(sc.annotations[i].offsetMs, sc.annotations[k].offsetMs, clock);
  }

  /** Whether annotation i falls strictly before some event from j on. */
  ghost predicate BeforeSome(sc: Scenario, clock: Clock, i: nat, j: nat)
    requires i < |sc.annotations|
  {
    exists k :: j <= k < |sc.events| && NoteAt(sc, clock, i) < FireAt(sc, clock, k)
  }

  lemma {:induction false} NoteInPlan(sc: Scenario, clock: Clock, j: nat, i: nat, n: nat)
    requires Monotone(clock) && NotesSorted(sc) && j <= |sc.events| && i <= |sc.annotations| && n < |sc.annotations|
    ensures Note(n) in Plan(sc, clock, j, i) <==> (i <= n && BeforeSome(sc, clock, n, j))
    decreases |sc.events| - j + |sc.annotations| - i
  {
    hide NoteAt, FireAt;
    if j < |sc.events| {
      if NoteDue(sc, clock, j, i) {
        NoteInPlan(sc, clock, j, i + 1, n);
      } else {
        NoteInPlan(sc, clock, j + 1, i, n);
        if i <= n {
          NotesScaledSorted(sc, clock, i, n);
        }
      }
    }
  }

  /** An annotation is emitted if and only if it is strictly before some event. */
  lemma EmittedIffBeforeSomeEvent(sc: Scenario, clock: Clock, n: nat)
    requires Monotone(clock) && NotesSorted(sc) && n < |sc.annotations|
    ensures Note(n) in Plan(sc, clock, 0, 0) <==> BeforeSome(sc, clock, n, 0)
  {
    NoteInPlan(sc, clock, 0, 0, n);
  }

  /** All events are emitted, once each and in order. */
  lemma {:induction false} EventsInOrder(sc: Scenario, clock: Clock, j: nat, i: nat)
    requires j <= |sc.events| && i <= |sc.annotations|
    ensures Filter((e: Emission) => e.Fire?, Plan(sc, clock, j, i))
      == seq(|sc.events| - j, k requires k >= 0 => Fire(j + k))
    decreases |sc.events| - j + |sc.annotations| - i
  {
    hide NoteAt, FireAt;
    if j < |sc.events| {
      var plan := Plan(sc, clock, j, i);
      if NoteDue(sc, clock, j, i) {
        EventsInOrder(sc, clock, j, i + 1);
        assert plan[1..] == Plan(sc, clock, j, i + 1);
      } else {
        EventsInOrder(sc, clock, j + 1, i);
        assert plan[1..] == Plan(sc, clock, j + 1, i);
      }
    }
  }

  // The reference: one batch of annotations per event

  function Before(clock: Clock, t: int): Annotation -> bool {
    (a: Annotation) => Scaled(a.offsetMs, clock) < t
  }

  /** How many annotations are strictly before t. */
  function CountBefore(sc: Scenario, clock: Clock, t: int): nat {
    |Filter(Before(clock, t), sc.annotations)|
  }

  function Notes(from: nat, to: nat): seq<Emission> {
    if from >= to then [] else seq(to - from, k requires k >= 0 => Note(from + k))
  }

  function Max(a: nat, b: nat): nat {
    if a >= b then a else b
  }

  /** For each event: all annotations before it that are still to come, and then the event. */
  function Batches(sc: Scenario, clock: Clock, j: nat, i: nat): seq<Emission>
    requires j <= |sc.events|
    decreases |sc.events| - j
  {
    if j == |sc.events| then []
    else
      var upTo := Max(i, CountBefore(sc, clock, FireAt(sc, clock, j)));
      Notes(i, upTo) + [Fire(j)] + Batches(sc, clock, j + 1, upTo)
  }

  /** In sorted annotations those before t are an initial stretch. */
  lemma {:induction false} CountIsPrefix(s: seq<Annotation>, clock: Clock, t: int, i: nat)
    requires i < |s|
    requires Monotone(clock) && forall i, k :: 0 <= i < k < |s| ==> s[i].offsetMs <= s[k].offsetMs
    ensures Scaled(s[i].offsetMs, clock) < t <==> i < |Filter(Before(clock, t), s)|
  {
    hide Scaled;
    var p := Before(clock, t);
    if p(s[0]) {
      if i > 0 {
        CountIsPrefix(s[1..], clock, t, i - 1);
      }
    } else {
      forall x <- s
        ensures !p(x)
      {
        var k :| 0 <= k < |s| && s[k] == x;
        ScaledMonotone(s[0].offsetMs, s[k].offsetMs, clock);
      }
      FilterNone(p, s);
      assert s[i] in s && !p(s[i]);
    }
  }

  lemma NoteBeforeIff(sc: Scenario, clock: Clock, i: nat, t: int)
    requires Monotone(clock) && NotesSorted(sc) && i < |sc.annotations|
    ensures NoteAt(sc, clock, i) < t <==> i < CountBefore(sc, clock, t)
  {
    CountIsPrefix(sc.annotations, clock, t, i);
  }

  /** A batch is taken one annotation at a time. */
  lemma BatchNote(sc: Scenario, clock: Clock, j: nat, i: nat)
    requires j < |sc.events| && i < CountBefore(sc, clock, FireAt(sc, clock, j))
    ensures Batches(sc, clock, j, i) == [Note(i)] + Batches(sc, clock, j, i + 1)
  {
    hide FireAt, CountBefore;
    var upTo := CountBefore(sc, clock, FireAt(sc, clock, j));
    assert Notes(i, upTo) == [Note(i)] + Notes(i + 1, upTo);
    Associate([Note(i)], Notes(i + 1, upTo), [Fire(j)], Batches(sc, clock, j + 1, upTo));
  }

  lemma Associate(a: seq<Emission>, b: seq<Emission>, c: seq<Emission>, d: seq<Emission>)
    ensures (a + b) + c + d == a + (b + c + d)
  {
  }

  /** And then comes its event. */
  lemma BatchFire(sc: Scenario, clock: Clock, j: nat, i: nat)
    requires j < |sc.events| && i >= CountBefore(sc, clock, FireAt(sc, clock, j))
    ensures Batches(sc, clock, j, i) == [Fire(j)] + Batches(sc, clock, j + 1, i)
  {
    hide FireAt, CountBefore;
    assert Notes(i, i) + [Fire(j)] == [Fire(j)];
  }

  /** The two-index loop is the batch by batch schedule. */
  lemma {:induction false} PlanIsBatches(sc: Scenario, clock: Clock, j: nat, i: nat)
    requires Monotone(clock) && NotesSorted(sc) && j <= |sc.events| && i <= |sc.annotations|
    ensures Plan(sc, clock, j, i) == Batches(sc, clock, j, i)
    decreases |sc.events| - j + |sc.annotations| - i
  {
    hide NoteAt, FireAt, CountBefore, NotesSorted, Batches, Monotone;
    if j < |sc.events| {
      var t := FireAt(sc, clock, j);
      CountBound(sc, clock, t);
      if i < |sc.annotations| {
        NoteBeforeIff(sc, clock, i, t);
      }
      if NoteDue(sc, clock, j, i) {
        PlanIsBatches(sc, clock, j, i + 1);
        BatchNote(sc, clock, j, i);
      } else {
        PlanIsBatches(sc, clock, j + 1, i);
        BatchFire(sc, clock, j, i);
      }
    } else {
      NoBatches(sc, clock, i);
    }
  }

  lemma NoBatches(sc: Scenario, clock: Clock, i: nat)
    ensures Batches(sc, clock, |sc.events|, i) == []
  {
  }

  lemma CountBound(sc: Scenario, clock: Clock, t: int)
    ensures CountBefore(sc, clock, t) <= |sc.annotations|
  {
  }

  // Order in time

  function At(sc: Scenario, clock: Clock, e: Emission): int {
    match e
    case Note(i) => if i < |sc.annotations| then NoteAt(sc, clock, i) else 0
    case Fire(j) => if j < |sc.events| then FireAt(sc, clock, j) else 0
  }

  ghost predicate InTimeOrder(sc: Scenario, clock: Clock, out: seq<Emission>) {
    forall k, m :: 0 <= k < m < |out| ==> At(sc, clock, out[k]) <= At(sc, clock, out[m])
  }

  /** Everything still to come is due at t or later. */
  ghost predicate NotBefore(sc: Scenario, clock: Clock, out: seq<Emission>, t: int) {
    forall e <- out :: t <= At(sc, clock, e)
  }

  lemma {:induction false} PlanNotBefore(sc: Scenario, clock: Clock, j: nat, i: nat, t: int)
    requires j <= |sc.events| && i <= |sc.annotations|
    requires forall k :: j <= k < |sc.events| ==> t <= FireAt(sc, clock, k)
    requires forall k :: i <= k < |sc.annotations| ==> t <= NoteAt(sc, clock, k)
    ensures NotBefore(sc, clock, Plan(sc, clock, j, i), t)
    decreases |sc.events| - j + |sc.annotations| - i
  {
    hide NoteAt, FireAt, Plan, NoteDue;
    PlanNext(sc, clock, j, i);
    if j < |sc.events| {
      if NoteDue(sc, clock, j, i) {
        PlanNotBefore(sc, clock, j, i + 1, t);
      } else {
        PlanNotBefore(sc, clock, j + 1, i, t);
      }
    }
  }

  /** An event that is next is no later than anything else, and so is an annotation that is next. */
  lemma NextIsFirst(sc: Scenario, clock: Clock, j: nat, i: nat)
    requires Monotone(clock) && NotesSorted(sc) && EventsSorted(sc) && j < |sc.events| && i <= |sc.annotations|
    ensures if NoteDue(sc, clock, j, i)
      then NotBefore(sc, clock, Plan(sc, clock, j, i + 1), NoteAt(sc, clock, i))
      else NotBefore(sc, clock, Plan(sc, clock, j + 1, i), FireAt(sc, clock, j))
  {
    hide NoteAt, FireAt, Plan, NotBefore, NotesSorted, EventsSorted, Monotone;
    forall k | j <= k < |sc.events|
      ensures FireAt(sc, clock, j) <= FireAt(sc, clock, k)
    {
      EventsScaledSorted(sc, clock, j, k);
    }
    forall k | i <= k < |sc.annotations|
      ensures NoteAt(sc, clock, i) <= NoteAt(sc, clock, k)
    {
      NotesScaledSorted(sc, clock, i, k);
    }
    if NoteDue(sc, clock, j, i) {
      PlanNotBefore(sc, clock, j, i + 1, NoteAt(sc, clock, i));
    } else {
      PlanNotBefore(sc, clock, j + 1, i, FireAt(sc, clock, j));
    }
  }

  /** If the events are sorted too, so is everything that comes out. */
  lemma {:induction false} SortedOutput(sc: Scenario, clock: Clock, j: nat, i: nat)
    requires Monotone(clock) && NotesSorted(sc) && EventsSorted(sc) && j <= |sc.events| && i <= |sc.annotations|
    ensures InTimeOrder(sc, clock, Plan(sc, clock, j, i))
    decreases |sc.events| - j + |sc.annotations| - i
  {
    hide *;
    PlanNext(sc, clock, j, i);
    if j == |sc.events| {
      NothingInOrder(sc, clock);
    } else {
      NextIsFirst(sc, clock, j, i);
      if NoteDue(sc, clock, j, i) {
        SortedOutput(sc, clock, j, i + 1);
        NoteInFront(sc, clock, i, Plan(sc, clock, j, i + 1));
      } else {
        SortedOutput(sc, clock, j + 1, i);
        FireInFront(sc, clock, j, Plan(sc, clock, j + 1, i));
      }
    }
  }

  lemma NothingInOrder(sc: Scenario, clock: Clock)
    ensures InTimeOrder(sc, clock, [])
  {
  }

  lemma EventsScaledSorted(sc: Scenario, clock: Clock, j: nat, k: nat)
    requires Monotone(clock) && EventsSorted(sc) && j <= k < |sc.events|
    ensures FireAt(sc, clock, j) <= FireAt(sc, clock, k)
  {
    ScaledMonotone(sc.events[j].offsetMs, sc.events[k].offsetMs, clock);
  }

  lemma NoteInFront(sc: Scenario, clock: Clock, i: nat, rest: seq<Emission>)
    requires i < |sc.annotations|
    requires InTimeOrder(sc, clock, rest) && NotBefore(sc, clock, rest, NoteAt(sc, clock, i))
    ensures InTimeOrder(sc, clock, [Note(i)] + rest)
  {
    hide NoteAt, FireAt;
    assert At(sc, clock, Note(i)) == NoteAt(sc, clock, i);
  }

  lemma FireInFront(sc: Scenario, clock: Clock, j: nat, rest: seq<Emission>)
    requires j < |sc.events|
    requires InTimeOrder(sc, clock, rest) && NotBefore(sc, clock, rest, FireAt(sc, clock, j))
    ensures InTimeOrder(sc, clock, [Fire(j)] + rest)
  {
    hide NoteAt, FireAt;
    assert At(sc, clock, Fire(j)) == FireAt(sc, clock, j);
  }

  /** A cancelled replay has sent a prefix of what the full one sends. */
  lemma CancelledIsPrefix(sc: Scenario, clock: Clock, cancelled: nat -> bool, other: nat -> bool)
    requires forall k :: cancelled(k) || !other(k)
    ensures var plan := Plan(sc, clock, 0, 0);
      plan[..Cut(|plan|, cancelled)] <= plan[..Cut(|plan|, other)] <= plan
  {
    var n := |Plan(sc, clock, 0, 0)|;
    var k, m := Cut(n, cancelled), Cut(n, other);
    assert m < n ==> other(m) && cancelled(m);
  }
}
