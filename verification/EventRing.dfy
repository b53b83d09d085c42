/**
 The event ring of internal/store/memory.go. The abstract state is the whole
 write history; the ring holds its last `maxEvents` items.
 */
module EventRing {
  import opened Models
  import opened Seqs

  const DEFAULT_CAPACITY: nat := 10000

  /** The history position of the oldest write that is still in the ring. */
  function Oldest(written: nat, capacity: nat): (r: nat)
    ensures r <= written
    ensures written - r == if written < capacity then written else capacity
  {
    if written < capacity then 0 else written - capacity
  }

  /** What a newest-first scan of the ring sees. */
  function View(history: seq<BastionEvent>, capacity: nat): (r: seq<BastionEvent>)
    ensures |r| == |history| - Oldest(|history|, capacity)
    ensures forall i :: 0 <= i < |r| ==> r[i] == history[|history| - 1 - i]
  {
    Reverse(history[Oldest(|history|, capacity)..])
  }

  /** matchEvent: an unset query field constrains nothing. */
  predicate Matches(ev: BastionEvent, q: Query) {
    && (q.moduleName != "" ==> ev.moduleName == q.moduleName)
    && (q.tenantId != "" ==> ev.tenantId == q.tenantId)
    && (q.userId != "" ==> ev.userId == q.userId)
    && (q.severity != "" ==> ev.severity == q.severity)
    && (q.status != "" ==> ev.status == q.status)
    && (q.traceId != "" ==> ev.traceId == q.traceId)
    && (q.since != ZERO_TIME ==> ev.timestamp >= q.since)
    && (q.until != ZERO_TIME ==> ev.timestamp <= q.until)
  }

  /** What a scan for `q` selects: blank slots are skipped. */
  function Visible(q: Query): BastionEvent -> bool {
    (ev: BastionEvent) => ev.eventId != "" && Matches(ev, q)
  }

  // What a query selects, field by field

  function Selected(q: Query, view: seq<BastionEvent>): seq<BastionEvent> {
    Filter(Visible(q), view)
  }

  /** A query with no field set selects every event that has an ID. */
  lemma {:induction false} UnsetSelectsAll(view: seq<BastionEvent>)
    ensures Selected(Query("", "", "", "", "", "", ZERO_TIME, ZERO_TIME), view)
      == Filter((ev: BastionEvent) => ev.eventId != "", view)
  {
    FilterSame(Visible(ANY_QUERY), (ev: BastionEvent) => ev.eventId != "", view);
  }

  // Setting a field narrows a query to the events that hold this value in it.

  lemma TraceAndUserNarrow(q: Query, v: string, view: seq<BastionEvent>)
    requires v != ""
    ensures Selected(q.(traceId := v), view)
      == Filter((ev: BastionEvent) => ev.traceId == v, Selected(q.(traceId := ""), view))
    ensures Selected(q.(userId := v), view)
      == Filter((ev: BastionEvent) => ev.userId == v, Selected(q.(userId := ""), view))
  {
    FilterFurther(
      Visible(q.(traceId := "")), (ev: BastionEvent) => ev.traceId == v, Visible(q.(traceId := v)), view);
    FilterFurther(
      Visible(q.(userId := "")), (ev: BastionEvent) => ev.userId == v, Visible(q.(userId := v)), view);
  }

  lemma TenantAndModuleNarrow(q: Query, v: string, view: seq<BastionEvent>)
    requires v != ""
    ensures Selected(q.(tenantId := v), view)
      == Filter((ev: BastionEvent) => ev.tenantId == v, Selected(q.(tenantId := ""), view))
    ensures Selected(q.(moduleName := v), view)
      == Filter((ev: BastionEvent) => ev.moduleName == v, Selected(q.(moduleName := ""), view))
  {
    FilterFurther(
      Visible(q.(tenantId := "")), (ev: BastionEvent) => ev.tenantId == v, Visible(q.(tenantId := v)), view);
    FilterFurther(
      Visible(q.(moduleName := "")), (ev: BastionEvent) => ev.moduleName == v, Visible(q.(moduleName := v)), view);
  }

  lemma SeverityAndStatusNarrow(q: Query, v: string, view: seq<BastionEvent>)
    requires v != ""
    ensures Selected(q.(severity := v), view)
      == Filter((ev: BastionEvent) => ev.severity == v, Selected(q.(severity := ""), view))
    ensures Selected(q.(status := v), view)
      == Filter((ev: BastionEvent) => ev.status == v, Selected(q.(status := ""), view))
  {
    FilterFurther(
      Visible(q.(severity := "")), (ev: BastionEvent) => ev.severity == v, Visible(q.(severity := v)), view);
    FilterFurther(
      Visible(q.(status := "")), (ev: BastionEvent) => ev.status == v, Visible(q.(status := v)), view);
  }

  /** Setting a bound narrows it to the events on this side of it, the bound included. */
  lemma BoundsNarrow(q: Query, t: Time, view: seq<BastionEvent>)
    requires t != ZERO_TIME
    ensures Selected(q.(since := t), view)
      == Filter((ev: BastionEvent) => ev.timestamp >= t, Selected(q.(since := ZERO_TIME), view))
    ensures Selected(q.(until := t), view)
      == Filter((ev: BastionEvent) => ev.timestamp <= t, Selected(q.(until := ZERO_TIME), view))
  {
    FilterFurther(
      Visible(q.(since := ZERO_TIME)), (ev: BastionEvent) => ev.timestamp >= t, Visible(q.(since := t)), view);
    FilterFurther(
      Visible(q.(until := ZERO_TIME)), (ev: BastionEvent) => ev.timestamp <= t, Visible(q.(until := t)), view);
  }

  /** So nothing of another tenant, and nothing without an ID, is ever selected. */
  lemma OwnTenantOnly(q: Query, view: seq<BastionEvent>, n: nat)
    ensures forall ev <- Take(Selected(q, view), n) ::
      ev.eventId != "" && (q.tenantId != "" ==> ev.tenantId == q.tenantId)
  {
    FilterMembers(Visible(q), view);
    forall ev <- Take(Selected(q, view), n)
      ensures ev in Selected(q, view)
    {
    }
  }

  datatype Page = Page(events: seq<BastionEvent>, total: nat, nextCursor: string)

  function PageLimit(limit: int): (r: nat)
    ensures 0 < r <= 200
    ensures r == limit <==> 1 <= limit <= 200
    ensures !(1 <= limit <= 200) ==> r == 50
  {
    if limit <= 0 || limit > 200 then 50 else limit
  }

  function RecentLimit(limit: int): (r: nat)
    ensures 0 < r && (r == limit <==> limit >= 1) && (limit <= 0 ==> r == 100)
  {
    if limit <= 0 then 100 else limit
  }

  /** How many events of a newest-first view precede and include the cursor; 0 when it is absent. */
  function CursorStart(view: seq<BastionEvent>, cursor: string): (r: nat)
    ensures r <= |view|
    ensures r > 0 ==> view[r - 1].eventId == cursor && forall j :: 0 <= j < r - 1 ==> view[j].eventId != cursor
    ensures r == 0 ==> cursor == "" || forall j :: 0 <= j < |view| ==> view[j].eventId != cursor
  {
    if cursor == "" || view == [] then 0
    else if view[0].eventId == cursor then 1
    else
      var rest := CursorStart(view[1..], cursor);
      if rest == 0 then 0 else rest + 1
  }

  /** The page that EventsPage returns on a given newest-first view. */
  function PageOf(view: seq<BastionEvent>, q: Query, cursor: string, limit: int): Page {
    var n := PageLimit(limit);
    var events := Take(Filter(Visible(q), view[CursorStart(view, cursor)..]), n);
    Page(events, |events|, if |events| == n then events[n - 1].eventId else "")
  }

  /**
   A page holds the first matches behind the cursor, as many as the limit allows, and
   says how many; a full one names its last event as the next cursor, any other none.
   */
  lemma PageHolds(view: seq<BastionEvent>, q: Query, cursor: string, limit: int)
    ensures var page := PageOf(view, q, cursor, limit);
            var n, matches := if 1 <= limit <= 200 then limit else 50, Selected(q, view[CursorStart(view, cursor)..]);
      && page.events <= matches && |page.events| == (if |matches| <= n then |matches| else n)
      && page.total == |page.events|
      && (|page.events| == n ==> page.nextCursor == page.events[n - 1].eventId)
      && (|page.events| < n ==> page.nextCursor == "")
  {
    hide Filter, CursorStart;
  }

  /** Quotient and remainder are unique. */
  lemma ModUnique(n: int, q: int, r: int, m: int)
    requires n == q * m + r && 0 <= r < m
    ensures n % m == r
  {
    var d := n / m - q;
    DivMod(n, m);
    assert d * m == r - n % m by {
      Distribute(n / m, q, m);
    }
    MultipleInRange(d, m);
  }

  lemma DivMod(n: int, m: int)
    requires m > 0
    ensures n == (n / m) * m + n % m && 0 <= n % m < m
  {
  }

  lemma Distribute(a: int, b: int, m: int)
    ensures (a - b) * m == a * m - b * m
  {
  }

  /** A multiple of `m` strictly between -m and m is zero. */
  lemma MultipleInRange(d: int, m: int)
    requires -m < d * m < m
    ensures d == 0
  {
    MultipleBound(d, m);
  }

  lemma MultipleBound(d: int, m: int)
    requires m > 0
    ensures d >= 1 ==> d * m >= m
    ensures d <= -1 ==> d * m <= -m
  {
    if d >= 1 {
      assert (d - 1) * m >= 0;
    } else if d <= -1 {
      assert (-d - 1) * m >= 0;
    }
  }

  /** Slot arithmetic of a circular buffer, counted back from the write head. */
  lemma SlotOf(count: nat, size: nat, i: nat)
    requires 0 < size && i < size && i < count
    ensures ((count % size - 1 - i) + size) % size == (count - 1 - i) % size
  {
    var q, h := count / size, count % size;
    DivMod(count, size);
    if h - 1 - i >= 0 {
      ModUnique(count - 1 - i, q, h - 1 - i, size);
      ModUnique(h - 1 - i + size, 1, h - 1 - i, size);
    } else {
      Distribute(q, 1, size);
      ModUnique(count - 1 - i, q - 1, h - 1 - i + size, size);
      ModUnique(h - 1 - i + size, 0, h - 1 - i + size, size);
    }
  }

  lemma NextHead(count: nat, size: nat)
    requires 0 < size
    ensures (count % size + 1) % size == (count + 1) % size
  {
    var q, h := count / size, count % size;
    DivMod(count, size);
    if h + 1 < size {
      ModUnique(count + 1, q, h + 1, size);
      ModUnique(h + 1, 0, h + 1, size);
    } else {
      Distribute(q, -1, size);
      ModUnique(count + 1, q + 1, 0, size);
      ModUnique(h + 1, 1, 0, size);
    }
  }

  /** Two writes that are less than one lap apart use different slots. */
  lemma SlotsDiffer(a: nat, b: nat, size: nat)
    requires a < b < a + size
    ensures a % size != b % size
  {
    if a % size == b % size {
      DivMod(a, size);
      DivMod(b, size);
      Distribute(b / size, a / size, size);
      MultipleInRange(b / size - a / size, size);
    }
  }

  class Store {
    const maxEvents: nat
    const events: array<BastionEvent>
    var head: nat
    var count: nat
    ghost var history: seq<BastionEvent>

    ghost predicate Valid()
      reads this, events
    {
      && 0 < maxEvents == events.Length
      && count == |history|
      && head == count % maxEvents
      && (forall k :: Oldest(count, maxEvents) <= k < count ==> events[k % maxEvents] == history[k])
    }

    ghost function Contents(): seq<BastionEvent>
      reads this
    {
      View(history, maxEvents)
    }

    constructor (capacity: int)
      ensures Valid() && fresh(events)
      ensures history == []
      ensures maxEvents == if capacity <= 0 then 10000 else capacity
    {
      var n: nat := if capacity <= 0 then DEFAULT_CAPACITY else capacity;
      maxEvents := n;
      events := new BastionEvent[n](_ => ZERO_EVENT);
      head, count := 0, 0;
      history := [];
    }

    /** Overwrites the oldest slot once the ring is full. */
    method AddEvent(ev: BastionEvent)
      requires Valid()
      modifies this`head, this`count, this`history, events
      ensures Valid()
      ensures history == old(history) + [ev]
    {
      NextHead(count, maxEvents);
      forall k | Oldest(count + 1, maxEvents) <= k < count
        ensures k % maxEvents != head
      {
        SlotsDiffer(k, count, maxEvents);
      }
      events[head] := ev;
      head := (head + 1) % maxEvents;
      count := count + 1;
      history := history + [ev];
    }

    /** The number of slots a scan visits. */
    function Size(): (r: nat)
      requires Valid()
      reads this, events
      ensures r == |Contents()|
    {
      if count < maxEvents then count else maxEvents
    }

    /** The i-th newest event. */
    function At(i: nat): (r: BastionEvent)
      requires Valid() && i < Size()
      reads this, events
      ensures r == Contents()[i]
    {
      SlotOf(count, maxEvents, i);
      events[((head - 1 - i) + maxEvents) % maxEvents]
    }

    /** The newest retained event with this ID. */
    method GetEvent(id: string) returns (r: Option<BastionEvent>)
      requires Valid()
      ensures r.None? <==> forall ev <- Contents() :: ev.eventId != id
      ensures r.Some? ==>
        exists i :: 0 <= i < |Contents()| && Contents()[i] == r.value && r.value.eventId == id
          && forall j :: 0 <= j < i ==> Contents()[j].eventId != id
    {
      var i := 0;
      while i < Size()
        invariant 0 <= i <= Size()
        invariant forall j :: 0 <= j < i ==> Contents()[j].eventId != id
      {
        var ev := At(i);
        if ev.eventId == id {
          return Some(ev);
        }
        i := i + 1;
      }
      return None;
    }

    /** Collects matches from position `start` of the newest-first view on, until `limit` are found. */
    method Scan(q: Query, start: nat, limit: nat) returns (results: seq<BastionEvent>)
      requires Valid() && start <= Size()
      ensures results == Take(Filter(Visible(q), Contents()[start..]), limit)
    {
      hide Filter, Matches;
      results := [];
      var i := start;
      ghost var rest := Contents()[start..];
      FilterNothing(Visible(q), rest);
      while i < Size() && |results| < limit
        invariant start <= i <= Size()
        invariant |results| <= limit
        invariant results == Filter(Visible(q), rest[..i - start])
      {
        var ev := At(i);
        FilterNext(Visible(q), rest, i - start);
        if ev.eventId != "" && Matches(ev, q) {
          results := results + [ev];
        }
        i := i + 1;
      }
      FilterPrefix(Visible(q), rest, i - start);
    }

    /** The newest matching events, newest first. */
    method RecentEvents(q: Query, limit: int) returns (results: seq<BastionEvent>)
      requires Valid()
      ensures results == Take(Filter(Visible(q), Contents()), RecentLimit(limit))
      ensures q.tenantId != "" ==> forall ev <- results :: ev.tenantId == q.tenantId
    {
      hide Filter, Visible;
      results := Scan(q, 0, RecentLimit(limit));
      assert Contents()[0..] == Contents();
      OwnTenantOnly(q, Contents(), RecentLimit(limit));
    }

    /** One page of matches after the cursor. */
    method EventsPage(q: Query, cursor: string, limit: int) returns (page: Page)
      requires Valid()
      ensures page == PageOf(Contents(), q, cursor, limit)
      ensures q.tenantId != "" ==> forall ev <- page.events :: ev.tenantId == q.tenantId
    {
      hide Filter, Visible;
      var n := PageLimit(limit);
      var start := 0;
      if cursor != "" {
        var i := 0;
        while i < Size()
          invariant 0 <= i <= Size()
          invariant start == 0
          invariant forall j :: 0 <= j < i ==> Contents()[j].eventId != cursor
        {
          if At(i).eventId == cursor {
            start := i + 1;
            break;
          }
          i := i + 1;
        }
      }
      assert start == CursorStart(Contents(), cursor);
      var results := Scan(q, start, n);
      OwnTenantOnly(q, Contents()[start..], n);
      page := Page(results, |results|, if |results| == n then results[|results| - 1].eventId else "");
    }
  }
}
