/** RecentActivity of internal/api/rest/handlers.go: the merged alarm feed. */
module Activity {
  import opened Models
  import opened Seqs
  import opened EventRing
  import opened TopK

  const FEED_LENGTH: nat := 20

  function Stamp(): BastionEvent -> int {
    (ev: BastionEvent) => ev.timestamp
  }

  function SeverityQuery(severity: string): Query {
    ANY_QUERY.(severity := severity)
  }

  /** What the feed is about: a visible event of severity warning, critical or error. */
  function Alarm(): BastionEvent -> bool {
    (ev: BastionEvent) => ev.eventId != "" && ev.severity in ["warning", "critical", "error"]
  }

  /** Events were written in the order of their timestamps. */
  ghost predicate TimeOrdered(h: seq<BastionEvent>) {
    forall i, j :: 0 <= i < j < |h| ==> h[i].timestamp <= h[j].timestamp
  }

  lemma {:induction false} FilterDescending<T>(p: T -> bool, key: T -> int, s: seq<T>)
    requires Descending(key, s)
    ensures Descending(key, Filter(p, s))
  {
    if s != [] {
      FilterDescending(p, key, s[1..]);
      FilterMembers(p, s[1..]);
      forall x <- Filter(p, s[1..])
        ensures key(s[0]) >= key(x)
      {
        var j :| 0 <= j < |s| - 1 && s[1..][j] == x;
        assert x == s[j + 1];
      }
    }
  }

  lemma ViewDescending(h: seq<BastionEvent>, capacity: nat)
    requires TimeOrdered(h)
    ensures Descending(Stamp(), View(h, capacity))
  {
    var view := View(h, capacity);
    forall i, j | 0 <= i < j < |view|
      ensures Stamp()(view[i]) >= Stamp()(view[j])
    {
      assert h[|h| - 1 - j].timestamp <= h[|h| - 1 - i].timestamp;
    }
  }

  function BySeverity(view: seq<BastionEvent>, severity: string): seq<BastionEvent> {
    Filter(Visible(SeverityQuery(severity)), view)
  }

  /** The three severities partition the alarms. */
  lemma AlarmsPartition(view: seq<BastionEvent>)
    ensures multiset(Filter(Alarm(), view))
         == multiset(BySeverity(view, "warning")) + multiset(BySeverity(view, "critical"))
          + multiset(BySeverity(view, "error"))
  {
    hide Filter, BySeverity;
    forall ev
      ensures multiset(Filter(Alarm(), view))[ev]
           == multiset(BySeverity(view, "warning"))[ev] + multiset(BySeverity(view, "critical"))[ev]
            + multiset(BySeverity(view, "error"))[ev]
    {
      AlarmCount(view, ev);
    }
  }

  lemma AlarmCount(view: seq<BastionEvent>, ev: BastionEvent)
    ensures multiset(Filter(Alarm(), view))[ev]
         == multiset(BySeverity(view, "warning"))[ev] + multiset(BySeverity(view, "critical"))[ev]
          + multiset(BySeverity(view, "error"))[ev]
  {
    hide Filter, BySeverity;
    FilterMultiset(Alarm(), view, ev);
    SeverityCount(view, "warning", ev);
    SeverityCount(view, "critical", ev);
    SeverityCount(view, "error", ev);
    assert "warning"[0] != "critical"[0] && "warning"[0] != "error"[0] && "critical"[0] != "error"[0];
  }

  lemma SeverityCount(view: seq<BastionEvent>, severity: string, ev: BastionEvent)
    requires severity != ""
    ensures multiset(BySeverity(view, severity))[ev]
         == if ev.eventId != "" && ev.severity == severity then multiset(view)[ev] else 0
  {
    FilterMultiset(Visible(SeverityQuery(severity)), view, ev);
    SeverityVisible(severity, ev);
  }

  lemma SeverityVisible(severity: string, ev: BastionEvent)
    requires severity != ""
    ensures Visible(SeverityQuery(severity))(ev) <==> ev.eventId != "" && ev.severity == severity
  {
  }

  /** The 20 newest of one severity are a top selection of that severity. */
  lemma NewestOfSeverity(h: seq<BastionEvent>, capacity: nat, severity: string)
    requires TimeOrdered(h)
    ensures var all := BySeverity(View(h, capacity), severity);
      IsTop(Stamp(), FEED_LENGTH, multiset(all), multiset(Take(all, FEED_LENGTH)))
  {
    ViewDescending(h, capacity);
    FilterDescending(Visible(SeverityQuery(severity)), Stamp(), View(h, capacity));
    TakeIsTop(Stamp(), FEED_LENGTH, BySeverity(View(h, capacity), severity));
  }

  /** The alarms in the three snapshots that the three queries see, one severity each. */
  ghost function SeenAlarms(h1: seq<BastionEvent>, h2: seq<BastionEvent>, h3: seq<BastionEvent>, capacity: nat)
    : multiset<BastionEvent>
  {
    multiset(BySeverity(View(h1, capacity), "warning"))
    + multiset(BySeverity(View(h2, capacity), "critical"))
    + multiset(BySeverity(View(h3, capacity), "error"))
  }

  /**
   Merging the three truncated lists and truncating again loses nothing, even
   with writes between the queries: any top selection of the merge is a top
   selection of all the alarms that the queries could see.
   */
  lemma FeedIsTop(
    h1: seq<BastionEvent>, h2: seq<BastionEvent>, h3: seq<BastionEvent>, capacity: nat, feed: multiset<BastionEvent>)
    requires h1 <= h2 <= h3 && TimeOrdered(h3)
    requires IsTop(Stamp(), FEED_LENGTH, Merged(h1, h2, h3, capacity), feed)
    ensures IsTop(Stamp(), FEED_LENGTH, SeenAlarms(h1, h2, h3, capacity), feed)
  {
    hide IsTop, BySeverity;
    assert TimeOrdered(h2) && TimeOrdered(h1);
    NewestOfSeverity(h1, capacity, "warning");
    NewestOfSeverity(h2, capacity, "critical");
    NewestOfSeverity(h3, capacity, "error");
    var w, c, e := BySeverity(View(h1, capacity), "warning"), BySeverity(View(h2, capacity), "critical"),
      BySeverity(View(h3, capacity), "error");
    MergeThree(Stamp(), FEED_LENGTH, multiset(w), multiset(c), multiset(e), multiset(Take(w, FEED_LENGTH)),
      multiset(Take(c, FEED_LENGTH)), multiset(Take(e, FEED_LENGTH)), feed);
  }

  /** What the limit of a query cuts off: all but its first matches, in the order of writing. */
  function CutOff(h: seq<BastionEvent>, capacity: nat, severity: string): seq<BastionEvent> {
    var all := BySeverity(View(h, capacity), severity);
    all[|Take(all, FEED_LENGTH)|..]
  }

  ghost function CutAlarms(h1: seq<BastionEvent>, h2: seq<BastionEvent>, h3: seq<BastionEvent>, capacity: nat)
    : multiset<BastionEvent>
  {
    multiset(CutOff(h1, capacity, "warning"))
    + multiset(CutOff(h2, capacity, "critical"))
    + multiset(CutOff(h3, capacity, "error"))
  }

  /** What the queries return. */
  ghost function Merged(h1: seq<BastionEvent>, h2: seq<BastionEvent>, h3: seq<BastionEvent>, capacity: nat)
    : multiset<BastionEvent>
  {
    multiset(Take(BySeverity(View(h1, capacity), "warning"), FEED_LENGTH))
    + multiset(Take(BySeverity(View(h2, capacity), "critical"), FEED_LENGTH))
    + multiset(Take(BySeverity(View(h3, capacity), "error"), FEED_LENGTH))
  }

  lemma CutSplits(h: seq<BastionEvent>, capacity: nat, severity: string)
    ensures var all := BySeverity(View(h, capacity), severity);
            var taken, cut := Take(all, FEED_LENGTH), CutOff(h, capacity, severity);
      && multiset(all) == multiset(taken) + multiset(cut)
      && (cut != [] ==> |taken| == FEED_LENGTH)
  {
    hide BySeverity;
    var all := BySeverity(View(h, capacity), severity);
    var taken := Take(all, FEED_LENGTH);
    assert all == taken + all[|taken|..];
  }

  /**
   For timestamps in any order: the feed is a top selection of the alarms the queries
   could see if and only if no alarm that its own query cut off is newer than a listed one.
   */
  lemma FeedIsTopIff(
    h1: seq<BastionEvent>, h2: seq<BastionEvent>, h3: seq<BastionEvent>, capacity: nat, feed: multiset<BastionEvent>)
    requires IsTop(Stamp(), FEED_LENGTH, Merged(h1, h2, h3, capacity), feed)
    ensures IsTop(Stamp(), FEED_LENGTH, SeenAlarms(h1, h2, h3, capacity), feed)
       <==> forall x <- CutAlarms(h1, h2, h3, capacity), y <- feed :: x.timestamp <= y.timestamp
  {
    hide IsTop, BySeverity, CutOff, Take;
    CutSplits(h1, capacity, "warning");
    CutSplits(h2, capacity, "critical");
    CutSplits(h3, capacity, "error");
    var part, cut := Merged(h1, h2, h3, capacity), CutAlarms(h1, h2, h3, capacity);
    assert SeenAlarms(h1, h2, h3, capacity) == part + cut;
    TopOfPart(Stamp(), FEED_LENGTH, part, cut, feed);
    StampIs();
  }

  lemma StampIs()
    ensures forall e: BastionEvent :: Stamp()(e) == e.timestamp
  {
  }

  // An alarm that is missed

  /** Twenty writes of the same event. */
  function Twenty(e: BastionEvent): (s: seq<BastionEvent>)
    ensures |s| == 20 && forall i :: 0 <= i < 20 ==> s[i] == e
  {
    seq(20, _ => e)
  }

  lemma Behind(newest: BastionEvent, other: BastionEvent)
    ensures View([newest] + Twenty(other), 21) == Twenty(other) + [newest]
  {
    hide Twenty;
  }

  /** All of them are warnings. */
  lemma OnlyWarnings(view: seq<BastionEvent>)
    requires forall e <- view :: e.eventId != "" && e.severity == "warning"
    ensures BySeverity(view, "warning") == view
    ensures BySeverity(view, "critical") == [] && BySeverity(view, "error") == []
  {
    forall e <- view
      ensures Visible(SeverityQuery("warning"))(e)
      ensures !Visible(SeverityQuery("critical"))(e) && !Visible(SeverityQuery("error"))(e)
    {
      SeverityVisible("warning", e);
      SeverityVisible("critical", e);
      SeverityVisible("error", e);
      assert "warning"[0] == 'w' && "critical"[0] == 'c' && "error"[0] == 'e';
    }
    hide Visible;
    FilterAll(Visible(SeverityQuery("warning")), view);
    FilterNone(Visible(SeverityQuery("critical")), view);
    FilterNone(Visible(SeverityQuery("error")), view);
  }

  lemma BehindTwenty(newest: BastionEvent, other: BastionEvent)
    requires newest.severity == other.severity == "warning" && newest.eventId != "" && other.eventId != ""
    ensures var h := [newest] + Twenty(other);
      newest in CutAlarms(h, h, h, 21) && Merged(h, h, h, 21) == multiset(Twenty(other))
  {
    var h := [newest] + Twenty(other);
    var view := Twenty(other) + [newest];
    Behind(newest, other);
    OnlyWarnings(view);
    hide View, BySeverity, Twenty;
    assert Take(view, FEED_LENGTH) == Twenty(other);
    assert CutOff(h, 21, "warning") == [newest];
  }

  /** Behind twenty later writes an alarm with a newer timestamp is cut off, and then no feed is right. */
  lemma FeedMisses(newest: BastionEvent, other: BastionEvent, feed: multiset<BastionEvent>)
    requires newest.severity == other.severity == "warning" && newest.eventId != "" && other.eventId != ""
    requires newest.timestamp > other.timestamp
    requires var h := [newest] + Twenty(other); IsTop(Stamp(), FEED_LENGTH, Merged(h, h, h, 21), feed)
    ensures var h := [newest] + Twenty(other); !IsTop(Stamp(), FEED_LENGTH, SeenAlarms(h, h, h, 21), feed)
  {
    var h := [newest] + Twenty(other);
    BehindTwenty(newest, other);
    FeedIsTopIff(h, h, h, 21, feed);
    hide Merged, CutAlarms, SeenAlarms, Twenty;
    assert |multiset(Twenty(other))| == 20 && |feed| == 20;
    var y :| y in feed;
    assert y in multiset(Twenty(other));
  }

  /** With no write in between, those are all the alarms in the ring. */
  lemma QuietAlarms(h: seq<BastionEvent>, capacity: nat)
    ensures SeenAlarms(h, h, h, capacity) == multiset(Filter(Alarm(), View(h, capacity)))
  {
    AlarmsPartition(View(h, capacity));
  }

  /** An alarm that was there before the first query and is retained after the last is seen, whatever is written. */
  lemma RetainedAlarmSeen(
    h1: seq<BastionEvent>, h2: seq<BastionEvent>, h3: seq<BastionEvent>, capacity: nat, k: nat)
    requires h1 <= h2 <= h3
    requires Oldest(|h3|, capacity) <= k < |h1| && Alarm()(h1[k])
    ensures h1[k] in SeenAlarms(h1, h2, h3, capacity)
  {
    hide BySeverity, View;
    assert h1[k] == h2[k] == h3[k];
    InSeverity(h1, capacity, k);
    InSeverity(h2, capacity, k);
    InSeverity(h3, capacity, k);
  }

  /** A retained alarm is selected by the query for its severity. */
  lemma InSeverity(h: seq<BastionEvent>, capacity: nat, k: nat)
    requires Oldest(|h|, capacity) <= k < |h| && Alarm()(h[k])
    ensures h[k] in BySeverity(View(h, capacity), h[k].severity)
  {
    assert View(h, capacity)[|h| - 1 - k] == h[k];
    SeverityVisible(h[k].severity, h[k]);
    FilterKeeps(Visible(SeverityQuery(h[k].severity)), View(h, capacity), h[k]);
  }

  /** Writes by others. */
  method AddAll(store: Store, events: seq<BastionEvent>)
    requires store.Valid()
    modifies store`head, store`count, store`history, store.events
    ensures store.Valid() && store.history == old(store.history) + events
  {
    var i := 0;
    while i < |events|
      invariant 0 <= i <= |events|
      invariant store.Valid() && store.history == old(store.history) + events[..i]
    {
      store.AddEvent(events[i]);
      i := i + 1;
    }
  }

  /** The three queries take the store's lock one by one: others may write in between. */
  method RecentActivity(
    store: Store, late: seq<BastionEvent>, later: seq<BastionEvent>) returns (feed: seq<BastionEvent>)
    requires store.Valid()
    modifies store`head, store`count, store`history, store.events
    ensures store.Valid() && store.history == old(store.history) + late + later
    ensures Descending(Stamp(), feed)
    ensures TimeOrdered(store.history) ==>
      IsTop(Stamp(), FEED_LENGTH,
            SeenAlarms(old(store.history), old(store.history) + late, store.history, store.maxEvents), multiset(feed))
    ensures var h1, h2, h3 := old(store.history), old(store.history) + late, store.history;
      IsTop(Stamp(), FEED_LENGTH, SeenAlarms(h1, h2, h3, store.maxEvents), multiset(feed))
      <==> forall x <- CutAlarms(h1, h2, h3, store.maxEvents), y <- multiset(feed) :: x.timestamp <= y.timestamp
  {
    hide IsTop, Descending, TimeOrdered, SeenAlarms, CutAlarms, Filter;
    var warnings := store.RecentEvents(SeverityQuery("warning"), 20);
    AddAll(store, late);
    var criticals := store.RecentEvents(SeverityQuery("critical"), 20);
    AddAll(store, later);
    var errors := store.RecentEvents(SeverityQuery("error"), 20);
    var events := warnings + criticals + errors;
    feed := TopOf(events, Stamp(), FEED_LENGTH);
    assert multiset(events) == multiset(warnings) + multiset(criticals) + multiset(errors);
    ghost var h1, h2, h3 := old(store.history), old(store.history) + late, store.history;
    FeedIsTopIff(h1, h2, h3, store.maxEvents, multiset(feed));
    if TimeOrdered(h3) {
      FeedIsTop(h1, h2, h3, store.maxEvents, multiset(feed));
    }
  }
}
