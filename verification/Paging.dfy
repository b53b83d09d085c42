/**
 Cursor pagination while events keep arriving: what a client that follows
 NextCursor collects, over any run of appends between its requests.
 */
module Paging {
  import opened Models
  import opened Seqs
  import opened EventRing

  type History = seq<BastionEvent>

  /** Event IDs identify writes. */
  ghost predicate UniqueIds(h: History) {
    && (forall i :: 0 <= i < |h| ==> h[i].eventId != "")
    && (forall i, j :: 0 <= i < j < |h| ==> h[i].eventId != h[j].eventId)
  }

  /** The events of h[lo..hi] that match, newest first. */
  function Matching(h: History, lo: nat, hi: nat, q: Query): seq<BastionEvent>
    requires lo <= hi <= |h|
  {
    Filter(Visible(q), Reverse(h[lo..hi]))
  }

  /** The history position of the event that carries this ID, if any. */
  ghost predicate CursorAt(h: History, cursor: string, c: nat) {
    c < |h| && h[c].eventId == cursor
  }

  /** One request: the history when it was served, and the page returned. */
  datatype Request = Request(history: History, page: Page)

  function Last(rs: seq<Request>): Request
    requires rs != []
  {
    rs[|rs| - 1]
  }

  function Earlier(rs: seq<Request>): seq<Request>
    requires rs != []
  {
    rs[..|rs| - 1]
  }

  /** The cursor a client sends next: none at first, then the previous NextCursor. */
  function CursorAfter(rs: seq<Request>): string {
    if rs == [] then "" else Last(rs).page.nextCursor
  }

  /**
   One client session: events may be appended between requests, and each
   request after the first follows a non-empty NextCursor.
   */
  ghost predicate Session(rs: seq<Request>, capacity: nat, q: Query, limit: int) {
    && rs != []
    && Last(rs).page == PageOf(View(Last(rs).history, capacity), q, CursorAfter(Earlier(rs)), limit)
    && (Earlier(rs) != [] ==>
          && CursorAfter(Earlier(rs)) != ""
          && Last(Earlier(rs)).history <= Last(rs).history
          && Session(Earlier(rs), capacity, q, limit))
  }

  /** No cursor was overwritten before it was used. */
  ghost predicate CursorsRetained(rs: seq<Request>, capacity: nat)
    requires rs != []
  {
    Earlier(rs) != [] ==>
      && Retained(Last(rs).history, capacity, CursorAfter(Earlier(rs)))
      && CursorsRetained(Earlier(rs), capacity)
  }

  /** GetEvent finds this ID. */
  ghost predicate Retained(h: History, capacity: nat, id: string) {
    exists ev <- View(h, capacity) :: ev.eventId == id
  }

  /** Everything the client received. */
  function Collected(rs: seq<Request>): seq<BastionEvent> {
    if rs == [] then [] else Collected(Earlier(rs)) + Last(rs).page.events
  }

  lemma PrefixUnique(g: History, h: History)
    requires g <= h && UniqueIds(h)
    ensures UniqueIds(g)
  {
    forall i, j {:trigger g[i], g[j]} | 0 <= i < j < |g|
      ensures g[i].eventId != g[j].eventId
    {
      assert h[i] == g[i] && h[j] == g[j];
    }
    forall i {:trigger g[i]} | 0 <= i < |g|
      ensures g[i].eventId != ""
    {
      assert h[i] == g[i];
    }
  }

  /** Histories only grow along a session. */
  lemma {:induction false} HistoriesGrow(rs: seq<Request>, capacity: nat, q: Query, limit: int)
    requires Session(rs, capacity, q, limit)
    ensures rs[0].history <= Last(rs).history
  {
    if Earlier(rs) != [] {
      HistoriesGrow(Earlier(rs), capacity, q, limit);
      assert rs[0] == Earlier(rs)[0];
    }
  }

  /** Splitting a matching range at a history position. */
  lemma MatchingSplit(h: History, lo: nat, mid: nat, hi: nat, q: Query)
    requires lo <= mid <= hi <= |h|
    ensures Matching(h, lo, hi, q) == Matching(h, mid, hi, q) + Matching(h, lo, mid, q)
  {
    assert h[lo..hi] == h[lo..mid] + h[mid..hi];
    ReverseConcat(h[lo..mid], h[mid..hi]);
    FilterConcat(Visible(q), Reverse(h[mid..hi]), Reverse(h[lo..mid]));
  }

  lemma MatchingPrefix(h: History, g: History, lo: nat, hi: nat, q: Query)
    requires g <= h && lo <= hi <= |g|
    ensures Matching(h, lo, hi, q) == Matching(g, lo, hi, q)
  {
    assert h[lo..hi] == g[lo..hi];
  }

  /** One event further back. */
  lemma MatchingOlder(h: History, lo: nat, hi: nat, q: Query)
    requires lo < hi <= |h|
    ensures Matching(h, lo, hi, q) == Matching(h, lo + 1, hi, q) + (if Visible(q)(h[lo]) then [h[lo]] else [])
  {
    hide Visible;
    var newer := Reverse(h[lo + 1..hi]);
    assert Reverse(h[lo..hi]) == newer + [h[lo]];
    FilterSnoc(Visible(q), newer, h[lo]);
  }

  lemma MatchingNone(h: History, at: nat, q: Query)
    requires at <= |h|
    ensures Matching(h, at, at, q) == []
  {
  }

  /** A full page ends at a definite history position. */
  lemma {:induction false} FullPageEnd(h: History, lo: nat, hi: nat, q: Query, n: nat) returns (c: nat)
    requires lo <= hi <= |h|
    requires 0 < n <= |Matching(h, lo, hi, q)|
    ensures lo <= c < hi
    ensures Matching(h, c, hi, q) == Matching(h, lo, hi, q)[..n]
    ensures h[c] == Matching(h, lo, hi, q)[n - 1]
    decreases hi - lo
  {
    hide Matching, Visible;
    MatchingNone(h, lo, q);
    MatchingOlder(h, lo, hi, q);
    var newer := Matching(h, lo + 1, hi, q);
    if n <= |newer| {
      c := FullPageEnd(h, lo + 1, hi, q, n);
      assert Matching(h, lo, hi, q)[..n] == newer[..n];
    } else {
      c := lo;
    }
  }

  /** The search for a cursor that the ring still holds at position c ends right there. */
  lemma CursorStartAt(h: History, capacity: nat, cursor: string, c: nat)
    requires UniqueIds(h) && CursorAt(h, cursor, c) && Oldest(|h|, capacity) <= c
    ensures CursorStart(View(h, capacity), cursor) == |h| - c
  {
    hide View, CursorStart;
    var view := View(h, capacity);
    var start := CursorStart(view, cursor);
    assert view[|h| - 1 - c].eventId == cursor;
    assert h[|h| - start].eventId == cursor;
  }

  lemma ViewBelow(h: History, capacity: nat, c: nat)
    requires Oldest(|h|, capacity) <= c <= |h|
    ensures View(h, capacity)[|h| - c..] == Reverse(h[Oldest(|h|, capacity)..c])
  {
  }

  /** On a ring that still holds the cursor at position c, the page starts right below it. */
  lemma PageBelowCursor(h: History, capacity: nat, q: Query, cursor: string, c: nat, limit: int)
    requires UniqueIds(h) && CursorAt(h, cursor, c) && Oldest(|h|, capacity) <= c
    ensures PageOf(View(h, capacity), q, cursor, limit).events
         == Take(Matching(h, Oldest(|h|, capacity), c, q), PageLimit(limit))
  {
    hide UniqueIds, View, CursorStart, Filter, Reverse, Visible, PageLimit;
    CursorStartAt(h, capacity, cursor, c);
    ViewBelow(h, capacity, c);
  }

  lemma RetainedAt(h: History, capacity: nat, cursor: string, c: nat)
    requires UniqueIds(h) && CursorAt(h, cursor, c)
    ensures Retained(h, capacity, cursor) <==> Oldest(|h|, capacity) <= c
  {
    var view := View(h, capacity);
    if Oldest(|h|, capacity) <= c {
      assert view[|h| - 1 - c].eventId == cursor;
    }
  }

  /**
   The position a session has reached: everything that matches from the first
   snapshot's head down to c has been collected, and h0[c] is the next cursor.
   */
  ghost predicate ReachedAt(rs: seq<Request>, capacity: nat, q: Query, c: nat)
    requires rs != []
  {
    var h0 := rs[0].history;
    && c < |h0|
    && Oldest(|h0|, capacity) <= c
    && h0[c].eventId == Last(rs).page.nextCursor
    && Collected(rs) == Matching(h0, c, |h0|, q)
  }

  /** One more page: both the case that the page is full and the case that it is the last. */
  lemma NextPage(h0: History, h: History, capacity: nat, q: Query, limit: int,
                 before: seq<BastionEvent>, page: Page, c: nat)
    requires h0 <= h && UniqueIds(h) && c <= |h0| && Oldest(|h|, capacity) <= c
    requires before == Matching(h0, c, |h0|, q)
    requires page.events == Take(Matching(h, Oldest(|h|, capacity), c, q), PageLimit(limit))
    requires page.nextCursor
      == if |page.events| == PageLimit(limit) then page.events[PageLimit(limit) - 1].eventId else ""
    ensures page.nextCursor == "" ==>
      before + page.events == Matching(h0, Oldest(|h|, capacity), |h0|, q)
    ensures page.nextCursor != "" ==>
      exists d :: 0 <= d < c && Oldest(|h|, capacity) <= d && h0[d].eventId == page.nextCursor
        && before + page.events == Matching(h0, d, |h0|, q)
  {
    var lo := Oldest(|h|, capacity);
    var n := PageLimit(limit);
    var found := Matching(h, lo, c, q);
    MatchingPrefix(h, h0, lo, c, q);
    MatchingSplit(h0, lo, c, |h0|, q);
    if |found| >= n {
      var d := FullPageEnd(h0, lo, c, q, n);
      MatchingSplit(h0, d, c, |h0|, q);
      assert page.events == found[..n];
      assert h[d] == h0[d];
    }
  }

  /** The whole filtered view, as a range of history positions. */
  lemma ViewMatching(h: History, capacity: nat, q: Query)
    ensures Matching(h, Oldest(|h|, capacity), |h|, q) == Filter(Visible(q), View(h, capacity))
  {
    assert h[Oldest(|h|, capacity)..|h|] == h[Oldest(|h|, capacity)..];
  }

  lemma FullPage(view: seq<BastionEvent>, q: Query, cursor: string, limit: int)
    ensures var page := PageOf(view, q, cursor, limit);
      page.nextCursor != "" ==> |page.events| == PageLimit(limit)
  {
  }

  lemma OneMore(k: nat, n: nat)
    ensures (k + 1) * n == k * n + n
  {
  }

  /** Every page but the last is full. */
  lemma {:induction false} FullPages(rs: seq<Request>, capacity: nat, q: Query, limit: int)
    requires Session(rs, capacity, q, limit) && CursorAfter(rs) != ""
    ensures |Collected(rs)| == |rs| * PageLimit(limit)
  {
    var was := Earlier(rs);
    FullPage(View(Last(rs).history, capacity), q, CursorAfter(was), limit);
    OneMore(|was|, PageLimit(limit));
    if was != [] {
      FullPages(was, capacity, q, limit);
    }
  }

  /** The first page of a session. */
  lemma FirstPage(h: History, capacity: nat, q: Query, limit: int)
    ensures PageOf(View(h, capacity), q, "", limit).events
         == Take(Matching(h, Oldest(|h|, capacity), |h|, q), PageLimit(limit))
  {
    assert View(h, capacity)[0..] == View(h, capacity);
    ViewMatching(h, capacity, q);
  }

  /** The induction behind the two main results. */
  lemma {:induction false} SessionReach(rs: seq<Request>, capacity: nat, q: Query, limit: int)
    requires Session(rs, capacity, q, limit) && CursorsRetained(rs, capacity)
    requires UniqueIds(Last(rs).history)
    ensures CursorAfter(rs) == "" ==>
      Oldest(|Last(rs).history|, capacity) <= |rs[0].history| &&
      Collected(rs) == Matching(rs[0].history, Oldest(|Last(rs).history|, capacity), |rs[0].history|, q)
    ensures CursorAfter(rs) != "" ==>
      exists c :: ReachedAt(rs, capacity, q, c)
    decreases |rs|
  {
    var was := Earlier(rs);
    HistoriesGrow(rs, capacity, q, limit);
    if was == [] {
      FirstPage(Last(rs).history, capacity, q, limit);
      assert Matching(rs[0].history, |rs[0].history|, |rs[0].history|, q) == [];
      ExtendReach(rs, capacity, q, limit, |rs[0].history|);
    } else {
      assert was[0] == rs[0];
      PrefixUnique(Last(was).history, Last(rs).history);
      SessionReach(was, capacity, q, limit);
      var c :| ReachedAt(was, capacity, q, c);
      PageAfter(rs, capacity, q, limit, c);
      ExtendReach(rs, capacity, q, limit, c);
    }
  }

  /** A request whose cursor is still retained at position c gets the page right below it. */
  lemma PageAfter(rs: seq<Request>, capacity: nat, q: Query, limit: int, c: nat)
    requires Session(rs, capacity, q, limit) && CursorsRetained(rs, capacity) && Earlier(rs) != []
    requires UniqueIds(Last(rs).history) && rs[0].history <= Last(rs).history
    requires Earlier(rs)[0] == rs[0] && ReachedAt(Earlier(rs), capacity, q, c)
    ensures Oldest(|Last(rs).history|, capacity) <= c
    ensures Last(rs).page.events
         == Take(Matching(Last(rs).history, Oldest(|Last(rs).history|, capacity), c, q), PageLimit(limit))
  {
    hide Matching;
    var h := Last(rs).history;
    assert h[c] == rs[0].history[c];
    RetainedAt(h, capacity, CursorAfter(Earlier(rs)), c);
    PageBelowCursor(h, capacity, q, CursorAfter(Earlier(rs)), c, limit);
  }

  /** Adding a page to what was collected down to position c. */
  lemma ExtendReach(rs: seq<Request>, capacity: nat, q: Query, limit: int, c: nat)
    requires Session(rs, capacity, q, limit)
    requires UniqueIds(Last(rs).history) && rs[0].history <= Last(rs).history
    requires Oldest(|Last(rs).history|, capacity) <= c <= |rs[0].history|
    requires Collected(Earlier(rs)) == Matching(rs[0].history, c, |rs[0].history|, q)
    requires Last(rs).page.events
          == Take(Matching(Last(rs).history, Oldest(|Last(rs).history|, capacity), c, q), PageLimit(limit))
    ensures CursorAfter(rs) == "" ==>
      Oldest(|Last(rs).history|, capacity) <= |rs[0].history| &&
      Collected(rs) == Matching(rs[0].history, Oldest(|Last(rs).history|, capacity), |rs[0].history|, q)
    ensures CursorAfter(rs) != "" ==> exists d :: ReachedAt(rs, capacity, q, d)
  {
    hide Matching, UniqueIds;
    var h0, h, page := rs[0].history, Last(rs).history, Last(rs).page;
    NextPage(h0, h, capacity, q, limit, Collected(Earlier(rs)), page, c);
    if page.nextCursor != "" {
      var d :| 0 <= d < c && Oldest(|h|, capacity) <= d && h0[d].eventId == page.nextCursor
        && Collected(rs) == Matching(h0, d, |h0|, q);
      assert ReachedAt(rs, capacity, q, d);
    }
  }

  /**
   A session that runs to its end, with any appends between its requests,
   collects exactly the matching events of the first snapshot that the ring
   still holds at the last request. In particular it is a prefix of the first
   snapshot's filtered view: no duplicate, nothing out of order, and only
   overwritten events are missing.
   */
  lemma CompleteSession(rs: seq<Request>, capacity: nat, q: Query, limit: int)
    requires Session(rs, capacity, q, limit) && CursorsRetained(rs, capacity)
    requires UniqueIds(Last(rs).history)
    requires CursorAfter(rs) == ""
    ensures Oldest(|Last(rs).history|, capacity) <= |rs[0].history|
    ensures Collected(rs) == Matching(rs[0].history, Oldest(|Last(rs).history|, capacity), |rs[0].history|, q)
    ensures Collected(rs) <= Filter(Visible(q), View(rs[0].history, capacity))
    ensures forall i, j :: 0 <= i < j < |Collected(rs)| ==> Collected(rs)[i].eventId != Collected(rs)[j].eventId
  {
    SessionReach(rs, capacity, q, limit);
    HistoriesGrow(rs, capacity, q, limit);
    var h0, h := rs[0].history, Last(rs).history;
    var first, last := Oldest(|h0|, capacity), Oldest(|h|, capacity);
    MatchingSplit(h0, first, last, |h0|, q);
    ViewMatching(h0, capacity, q);
    PrefixUnique(h0, h);
    MatchingDistinct(h0, last, |h0|, q);
  }

  lemma MatchingDistinct(h: History, lo: nat, hi: nat, q: Query)
    requires UniqueIds(h) && lo <= hi <= |h|
    ensures forall i, j :: 0 <= i < j < |Matching(h, lo, hi, q)| ==>
      Matching(h, lo, hi, q)[i].eventId != Matching(h, lo, hi, q)[j].eventId
  {
    var id := (ev: BastionEvent) => ev.eventId;
    var newest := Reverse(h[lo..hi]);
    forall i, j | 0 <= i < j < |newest|
      ensures id(newest[i]) != id(newest[j])
    {
      assert h[hi - 1 - j].eventId != h[hi - 1 - i].eventId;
    }
    FilterDistinct(Visible(q), id, newest);
    assert forall i :: 0 <= i < |Matching(h, lo, hi, q)| ==>
      id(Matching(h, lo, hi, q)[i]) == Matching(h, lo, hi, q)[i].eventId;
  }

  /** Following cursors ends: a session never takes more pages than the first snapshot can fill. */
  lemma SessionLength(rs: seq<Request>, capacity: nat, q: Query, limit: int)
    requires Session(rs, capacity, q, limit) && CursorsRetained(rs, capacity)
    requires UniqueIds(Last(rs).history)
    ensures (|rs| - 1) * PageLimit(limit) <= |Filter(Visible(q), View(rs[0].history, capacity))|
  {
    var was := Earlier(rs);
    if was != [] {
      var h0 := rs[0].history;
      assert was[0] == rs[0];
      PrefixUnique(Last(was).history, Last(rs).history);
      SessionReach(was, capacity, q, limit);
      var c :| ReachedAt(was, capacity, q, c);
      FullPages(was, capacity, q, limit);
      MatchingSplit(h0, Oldest(|h0|, capacity), c, |h0|, q);
      ViewMatching(h0, capacity, q);
    }
  }

  /** With no writes in between, the pages add up to the whole filtered view. */
  lemma QuietSession(rs: seq<Request>, h: History, capacity: nat, q: Query, limit: int)
    requires Session(rs, capacity, q, limit) && UniqueIds(h)
    requires forall r <- rs :: r.history == h
    requires CursorAfter(rs) == ""
    ensures Collected(rs) == Filter(Visible(q), View(h, capacity))
  {
    QuietRetained(rs, h, capacity, q, limit);
    assert rs[0] in rs && Last(rs) in rs;
    SessionReach(rs, capacity, q, limit);
    ViewMatching(h, capacity, q);
  }

  lemma {:induction false} QuietRetained(rs: seq<Request>, h: History, capacity: nat, q: Query, limit: int)
    requires Session(rs, capacity, q, limit)
    requires forall r <- rs :: r.history == h
    ensures CursorsRetained(rs, capacity)
  {
    assert Last(rs) in rs;
    var was := Earlier(rs);
    if was != [] {
      assert forall r <- was :: r in rs;
      assert Last(was) in rs;
      QuietRetained(was, h, capacity, q, limit);
      NextCursorRetained(h, capacity, q, CursorAfter(Earlier(was)), limit);
    }
  }

  /** A client that keeps following cursors gets there: every quiet session can be carried on to its end. */
  lemma {:induction false} FollowToTheEnd(
    rs: seq<Request>, h: History, capacity: nat, q: Query, limit: int) returns (all: seq<Request>)
    requires Session(rs, capacity, q, limit) && UniqueIds(h)
    requires forall r <- rs :: r.history == h
    ensures Session(all, capacity, q, limit) && (forall r <- all :: r.history == h)
    ensures CursorAfter(all) == ""
    ensures Collected(all) == Filter(Visible(q), View(h, capacity))
    decreases |Filter(Visible(q), View(h, capacity))| + 2 - |rs|
  {
    hide Filter, PageOf, UniqueIds;
    if CursorAfter(rs) == "" {
      all := rs;
      QuietSession(rs, h, capacity, q, limit);
    } else {
      PagesLeft(rs, h, capacity, q, limit);
      var next := Request(h, PageOf(View(h, capacity), q, CursorAfter(rs), limit));
      assert Earlier(rs + [next]) == rs;
      assert Last(rs) in rs;
      all := FollowToTheEnd(rs + [next], h, capacity, q, limit);
    }
  }

  lemma PagesLeft(rs: seq<Request>, h: History, capacity: nat, q: Query, limit: int)
    requires Session(rs, capacity, q, limit) && UniqueIds(h)
    requires forall r <- rs :: r.history == h
    ensures |rs| <= |Filter(Visible(q), View(h, capacity))| + 1
  {
    hide Filter, UniqueIds, Session, CursorsRetained, View;
    assert rs != [] by {
      StartedSession(rs, capacity, q, limit);
    }
    assert rs[0] in rs && Last(rs) in rs;
    QuietRetained(rs, h, capacity, q, limit);
    SessionLength(rs, capacity, q, limit);
    AtLeast(|rs| - 1, PageLimit(limit));
  }

  lemma StartedSession(rs: seq<Request>, capacity: nat, q: Query, limit: int)
    requires Session(rs, capacity, q, limit)
    ensures rs != []
  {
  }

  lemma AtLeast(k: nat, n: nat)
    requires n >= 1
    ensures k <= k * n
  {
  }

  /** From the first request on, following NextCursor from "" to "" terminates with the whole filtered view. */
  lemma FollowingCursorsEnds(h: History, capacity: nat, q: Query, limit: int) returns (all: seq<Request>)
    requires UniqueIds(h)
    ensures Session(all, capacity, q, limit) && (forall r <- all :: r.history == h)
    ensures CursorAfter(all) == "" && Collected(all) == Filter(Visible(q), View(h, capacity))
  {
    hide Filter, PageOf, UniqueIds;
    var first := Request(h, PageOf(View(h, capacity), q, "", limit));
    assert Earlier([first]) == [];
    all := FollowToTheEnd([first], h, capacity, q, limit);
  }

  /** A cursor just handed out is still in the ring. */
  lemma NextCursorRetained(h: History, capacity: nat, q: Query, cursor: string, limit: int)
    ensures var page := PageOf(View(h, capacity), q, cursor, limit);
      page.nextCursor != "" ==> Retained(h, capacity, page.nextCursor)
  {
    hide View, CursorStart, Filter, Visible, PageLimit;
    var view := View(h, capacity);
    var page := PageOf(view, q, cursor, limit);
    if page.nextCursor != "" {
      var older := view[CursorStart(view, cursor)..];
      FilterMembers(Visible(q), older);
      var ev := page.events[|page.events| - 1];
      assert ev in older;
      assert ev in view;
    }
  }

  /**
   The promise fails once the cursor is overwritten: the page restarts at the
   newest event. Exactly when: the next page goes back only below the cursor if
   and only if GetEvent still finds the cursor, or nothing retained matches.
   */
  lemma StaleCursor(h: History, capacity: nat, q: Query, cursor: string, c: nat, limit: int)
    requires UniqueIds(h) && CursorAt(h, cursor, c)
    ensures (forall ev <- PageOf(View(h, capacity), q, cursor, limit).events :: ev in h[..c])
       <==> Retained(h, capacity, cursor) || Filter(Visible(q), View(h, capacity)) == []
    ensures !Retained(h, capacity, cursor) ==>
      PageOf(View(h, capacity), q, cursor, limit) == PageOf(View(h, capacity), q, "", limit)
  {
    RetainedAt(h, capacity, cursor, c);
    if Oldest(|h|, capacity) <= c {
      FreshCursorPage(h, capacity, q, cursor, c, limit);
    } else {
      StaleCursorPage(h, capacity, q, cursor, c, limit);
    }
  }

  lemma FreshCursorPage(h: History, capacity: nat, q: Query, cursor: string, c: nat, limit: int)
    requires UniqueIds(h) && CursorAt(h, cursor, c) && Oldest(|h|, capacity) <= c
    ensures forall ev <- PageOf(View(h, capacity), q, cursor, limit).events :: ev in h[..c]
  {
    var lo := Oldest(|h|, capacity);
    PageBelowCursor(h, capacity, q, cursor, c, limit);
    var older := Reverse(h[lo..c]);
    FilterMembers(Visible(q), older);
    forall ev <- Take(Matching(h, lo, c, q), PageLimit(limit))
      ensures ev in h[..c]
    {
      ReverseMembers(h[lo..c], ev);
      SliceMembers(h, 0, lo, c, ev);
      assert h[0..c] == h[..c];
    }
  }

  lemma StaleCursorPage(h: History, capacity: nat, q: Query, cursor: string, c: nat, limit: int)
    requires UniqueIds(h) && CursorAt(h, cursor, c) && c < Oldest(|h|, capacity)
    ensures PageOf(View(h, capacity), q, cursor, limit) == PageOf(View(h, capacity), q, "", limit)
    ensures Filter(Visible(q), View(h, capacity)) != [] ==>
      exists ev <- PageOf(View(h, capacity), q, cursor, limit).events :: ev !in h[..c]
    ensures Filter(Visible(q), View(h, capacity)) == [] ==> PageOf(View(h, capacity), q, cursor, limit).events == []
  {
    var view := View(h, capacity);
    var page := PageOf(view, q, cursor, limit);
    forall i | 0 <= i < |view|
      ensures view[i].eventId != cursor && view[i] !in h[..c]
    {
      assert view[i] == h[|h| - 1 - i];
    }
    assert CursorStart(view, cursor) == 0;
    assert view[0..] == view;
    FilterMembers(Visible(q), view);
    if Filter(Visible(q), view) != [] {
      assert page.events[0] in page.events && page.events[0] in view;
    }
  }

  lemma OnlyVisible(ev: BastionEvent)
    requires ev.eventId != ""
    ensures Filter(Visible(ANY_QUERY), [ev]) == [ev]
  {
    FilterSnoc(Visible(ANY_QUERY), [], ev);
    assert [] + [ev] == [ev];
  }

  /** The page of a view of one event, for a cursor that is not there. */
  lemma OneEventPage(ev: BastionEvent, cursor: string)
    requires ev.eventId != "" && ev.eventId != cursor
    ensures PageOf([ev], ANY_QUERY, cursor, 1) == Page([ev], 1, ev.eventId)
  {
    hide Filter;
    assert [ev][0].eventId != cursor;
    assert CursorStart([ev], cursor) == 0;
    assert [ev][0..] == [ev];
    OnlyVisible(ev);
  }

  /** A concrete stale cursor: a ring of one slot, one write after the first page. */
  lemma StaleCursorExample(a: BastionEvent, b: BastionEvent)
    requires a.eventId == "a" && b.eventId == "b"
    ensures PageOf(View([a], 1), ANY_QUERY, "", 1) == Page([a], 1, "a")
    ensures PageOf(View([a, b], 1), ANY_QUERY, "a", 1) == Page([b], 1, "b")
  {
    hide PageOf;
    assert View([a], 1) == [a] && View([a, b], 1) == [b];
    assert a.eventId[0] != b.eventId[0];
    OneEventPage(a, "");
    OneEventPage(b, "a");
  }
}
