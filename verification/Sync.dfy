/** Cursor paging over the event log (apps/api/src/v2/sync/sync.service.ts) and the client loop that feeds
    each answer's cursor back. */
module Sync {
  import opened Sequences
  import opened Wrappers
  import opened ReportModel
  import opened Interleaving
  import opened EventSourcing

  const DEFAULT_LIMIT := 200
  const MAX_LIMIT := 500

  // ---- Ascending logs -----------------------------------------------------------

  ghost predicate Ascending(es: seq<Event>) {
    forall i, j :: 0 <= i < j < |es| ==> es[i].seqNo < es[j].seqNo
  }

  function Filter(es: seq<Event>, p: Event -> bool): (r: seq<Event>)
    ensures forall e :: e in r <==> e in es && p(e)
  {
    if es == [] then []
    else
      assert es == es[..|es| - 1] + [es[|es| - 1]];
      Filter(es[..|es| - 1], p) + if p(es[|es| - 1]) then [es[|es| - 1]] else []
  }

  lemma {:induction false} FilterAscends(es: seq<Event>, p: Event -> bool)
    requires Ascending(es)
    ensures Ascending(Filter(es, p))
  {
    if es == [] {
    } else {
      FilterAscends(es[..|es| - 1], p);
      forall e | e in Filter(es[..|es| - 1], p)
        ensures e.seqNo < es[|es| - 1].seqNo
      {
        assert e in es[..|es| - 1];
      }
    }
  }

  /** An ascending sequence is determined by its members. */
  lemma {:induction false} AscendingIsUnique(a: seq<Event>, b: seq<Event>)
    requires Ascending(a) && Ascending(b)
    requires forall e :: e in a <==> e in b
    ensures a == b
  {
    if a != [] { assert a[0] in b; }
    if b != [] { assert b[0] in a; }
    if a == [] {
    } else {
      forall e
        ensures e in a[1..] <==> e in b[1..]
      {
        if e in a[1..] { assert e in a && e != a[0]; }
        if e in b[1..] { assert e in b && e != b[0]; }
      }
      AscendingIsUnique(a[1..], b[1..]);
    }
  }

  /** Everything from position n on is everything past the number at n - 1. */
  lemma TailIsPast(es: seq<Event>, n: nat, e: Event)
    requires Ascending(es) && 0 < n <= |es|
    ensures e in es[n..] <==> e in es && e.seqNo > es[n - 1].seqNo
  {
    if e in es && e.seqNo > es[n - 1].seqNo {
      var i :| 0 <= i < |es| && es[i] == e;
      assert i >= n;
      assert es[n..][i - n] == e;
    }
  }

  /** Filtering again past the n-th match gives the matches after it. */
  lemma FilterPast(es: seq<Event>, p: Event -> bool, p': Event -> bool, n: nat)
    requires Ascending(es) && 0 < n <= |Filter(es, p)|
    requires forall e :: e in es ==> (p'(e) <==> p(e) && e.seqNo > Filter(es, p)[n - 1].seqNo)
    ensures Filter(es, p') == Filter(es, p)[n..]
  {
    FilterAscends(es, p);
    FilterAscends(es, p');
    TailIsTheRest(Filter(es, p), Filter(es, p'), n);
  }

  lemma TailIsTheRest(all: seq<Event>, rest: seq<Event>, n: nat)
    requires Ascending(all) && Ascending(rest) && 0 < n <= |all|
    requires forall e :: e in rest <==> e in all && e.seqNo > all[n - 1].seqNo
    ensures rest == all[n..]
  {
    forall e
      ensures e in all[n..] <==> e in rest
    {
      TailIsPast(all, n, e);
    }
    AscendingIsUnique(rest, all[n..]);
  }

  // ---- Who sees what --------------------------------------------------------------

  /** The test a single report is shown by. */
  predicate CanSee(row: Report, actor: Actor) {
    || row.reporter == actor.userId
    || row.supervisor == Some(actor.userId)
    || row.cleaner == Some(actor.userId)
    || actor.roles.supervisor
    || actor.roles.admin
  }

  /** What a caller asks for, against the rows as they stand. */
  datatype Query = Query(reports: map<ReportId, Report>, actor: Actor, since: Option<int>, reportId: Option<ReportId>)

  predicate Past(since: Option<int>, e: Event) {
    since.Some? ==> e.seqNo > since.value
  }

  predicate About(reportId: Option<ReportId>, e: Event) {
    reportId.Some? && reportId.value != "" ==> e.reportId == reportId.value
  }

  predicate Wanted(q: Query, e: Event) {
    && Past(q.since, e)
    && About(q.reportId, e)
    && e.reportId in q.reports
    && CanSee(q.reports[e.reportId], q.actor)
  }

  function WantedBy(q: Query): Event -> bool {
    e => Wanted(q, e)
  }

  function Clamp(limit: Option<int>): (n: nat)
    ensures 1 <= n <= MAX_LIMIT
  {
    var asked := if limit.Some? then limit.value else DEFAULT_LIMIT;
    var atLeastOne := if asked < 1 then 1 else asked;
    if atLeastOne < MAX_LIMIT then atLeastOne else MAX_LIMIT
  }

  function Take(es: seq<Event>, n: nat): seq<Event> {
    if n <= |es| then es[..n] else es
  }

  datatype SyncResult = SyncResult(events: seq<Event>, nextCursor: Option<int>)

  function CursorAfter(page: seq<Event>, since: Option<int>): Option<int> {
    if page == [] then since else Some(page[|page| - 1].seqNo)
  }

  function Page(es: seq<Event>, q: Query, limit: Option<int>): SyncResult {
    var page := Take(Filter(es, WantedBy(q)), Clamp(limit));
    SyncResult(page, CursorAfter(page, q.since))
  }

  // ---- The service ------------------------------------------------------------------

  /** The filter object the service fills in. */
  datatype Where = Where(after: Option<int>, reportId: Option<ReportId>, party: Option<UserId>)

  predicate Satisfies(reports: map<ReportId, Report>, w: Where, e: Event) {
    && (w.after.Some? ==> e.seqNo > w.after.value)
    && (w.reportId.Some? ==> e.reportId == w.reportId.value)
    && (w.party.Some? ==>
          && e.reportId in reports
          && var row := reports[e.reportId];
             row.reporter == w.party.value || row.cleaner == w.party || row.supervisor == w.party)
  }

  function Satisfying(reports: map<ReportId, Report>, w: Where): Event -> bool {
    e => Satisfies(reports, w, e)
  }

  lemma {:induction false} SameFilter(es: seq<Event>, p: Event -> bool, p': Event -> bool)
    requires forall e :: e in es ==> p(e) == p'(e)
    ensures Filter(es, p) == Filter(es, p')
  {
    if es == [] {
    } else {
      assert es == es[..|es| - 1] + [es[|es| - 1]];
      SameFilter(es[..|es| - 1], p, p');
    }
  }

  ghost predicate Encodes(w: Where, q: Query) {
    && w.after == q.since
    && w.reportId == (if q.reportId.Some? && q.reportId.value != "" then q.reportId else None)
    && w.party == (if q.actor.roles.supervisor || q.actor.roles.admin then None else Some(q.actor.userId))
  }

  /** The filled-in filter selects exactly the events past the cursor whose report the caller would be shown. */
  lemma WhereMeansWanted(db: Db, w: Where, q: Query)
    requires SoundLog(db) && q.reports == db.reports && Encodes(w, q)
    ensures Filter(db.events, Satisfying(db.reports, w)) == Filter(db.events, WantedBy(q))
  {
    forall e | e in db.events
      ensures Satisfies(db.reports, w, e) <==> Wanted(q, e)
    {}
    SameFilter(db.events, Satisfying(db.reports, w), WantedBy(q));
  }

  /** How many events a request may get: 200 when it does not say, at least 1, at most 500. */
  predicate IsLimit(n: nat, asked: Option<int>) {
    || (asked.None? && n == 200)
    || (asked.Some? && asked.value < 1 && n == 1)
    || (asked.Some? && 1 <= asked.value <= 500 && n == asked.value)
    || (asked.Some? && asked.value > 500 && n == 500)
  }

  function Smaller(a: nat, b: nat): nat {
    if a < b then a else b
  }

  /** The events a caller has still to fetch from a cursor. */
  function Remaining(db: Db, actor: Actor, reportId: Option<ReportId>, cursor: Option<int>): seq<Event> {
    Filter(db.events, WantedBy(Query(db.reports, actor, cursor, reportId)))
  }

  /** Which events these are, in full. */
  lemma RemainingMeans(db: Db, actor: Actor, reportId: Option<ReportId>, cursor: Option<int>, e: Event)
    ensures e in Remaining(db, actor, reportId, cursor) <==>
              && e in db.events
              && (cursor.None? || e.seqNo > cursor.value)
              && (reportId.None? || reportId.value == "" || e.reportId == reportId.value)
              && e.reportId in db.reports
              && var row := db.reports[e.reportId];
                 || actor.roles.supervisor || actor.roles.admin || row.reporter == actor.userId
                 || row.cleaner == Some(actor.userId) || row.supervisor == Some(actor.userId)
  {}

  /** The answer is the first part of what remains, as much of it as the limit allows, and its cursor is the number of
      its last event. */
  ghost predicate AnswersFirst(remaining: seq<Event>, since: Option<int>, limit: Option<int>, r: SyncResult) {
    && r.events <= remaining
    && (forall n :: IsLimit(n, limit) ==> |r.events| == Smaller(|remaining|, n))
    && r.nextCursor == if r.events == [] then since else Some(r.events[|r.events| - 1].seqNo)
  }

  lemma PageAnswersFirst(db: Db, actor: Actor, since: Option<int>, limit: Option<int>, reportId: Option<ReportId>)
    ensures AnswersFirst(Remaining(db, actor, reportId, since), since, limit,
                         Page(db.events, Query(db.reports, actor, since, reportId), limit))
  {}

  method GetEventsSince(db: Db, since: Option<int>, limit: Option<int>, reportId: Option<ReportId>, actor: Actor)
    returns (r: SyncResult)
    requires SoundLog(db)
    ensures r == Page(db.events, Query(db.reports, actor, since, reportId), limit)
    ensures AnswersFirst(Remaining(db, actor, reportId, since), since, limit, r)
  {
    var w := Where(None, None, None);
    if since.Some? { w := w.(after := since); }
    if reportId.Some? && reportId.value != "" { w := w.(reportId := reportId); }
    if !actor.roles.supervisor && !actor.roles.admin {
      w := w.(party := Some(actor.userId));
    }
    WhereMeansWanted(db, w, Query(db.reports, actor, since, reportId));
    var events := Take(Filter(db.events, Satisfying(db.reports, w)), Clamp(limit));
    r := SyncResult(events, if |events| > 0 then Some(events[|events| - 1].seqNo) else since);
    PageAnswersFirst(db, actor, since, limit, reportId);
  }

  // ---- One page ---------------------------------------------------------------------

  /** A page is the first part of what is wanted, and asking again past its last number yields the rest.
      A page is empty only when nothing is wanted, because the clamp never lets it be smaller than one. */
  lemma PageThenRest(es: seq<Event>, q: Query, limit: Option<int>)
    requires Ascending(es)
    ensures var r := Page(es, q, limit);
            && |r.events| <= Clamp(limit)
            && (r.events == [] <==> Filter(es, WantedBy(q)) == [])
            && Filter(es, WantedBy(q)) == r.events + Filter(es, WantedBy(q.(since := r.nextCursor)))
  {
    var all := Filter(es, WantedBy(q));
    var r := Page(es, q, limit);
    var n := |r.events|;
    if n > 0 {
      TakeIsPrefix(all, Clamp(limit));
      assert WantedBy(q)(all[n - 1]) by { assert all[n - 1] in all; }
      forall e
        ensures WantedBy(q.(since := r.nextCursor))(e) <==> WantedBy(q)(e) && e.seqNo > all[n - 1].seqNo
      {
        WantedFromLater(q, all[n - 1], e);
      }
      FilterPast(es, WantedBy(q), WantedBy(q.(since := r.nextCursor)), n);
      SplitAt(all, n);
    }
  }

  lemma TakeIsPrefix(es: seq<Event>, n: nat)
    requires n > 0
    ensures Take(es, n) == es[..|Take(es, n)|]
    ensures |Take(es, n)| <= n && (Take(es, n) == [] <==> es == [])
  {}

  /** Moving the cursor to a wanted event drops the events up to it and nothing else. */
  lemma WantedFromLater(q: Query, last: Event, e: Event)
    requires Wanted(q, last)
    ensures Wanted(q.(since := Some(last.seqNo)), e) <==> Wanted(q, e) && e.seqNo > last.seqNo
  {}

  function Flatten(pages: seq<seq<Event>>): seq<Event> {
    if pages == [] then [] else Flatten(pages[..|pages| - 1]) + pages[|pages| - 1]
  }

  /** One round of the client: as much off the front of what remains as the limit allows. */
  method FetchPage(db: Db, actor: Actor, reportId: Option<ReportId>, cursor: Option<int>, limit: Option<int>,
                   ghost n: nat)
    returns (r: SyncResult)
    requires SoundLog(db) && IsLimit(n, limit)
    ensures |r.events| == Smaller(|Remaining(db, actor, reportId, cursor)|, n)
    ensures Remaining(db, actor, reportId, cursor) == r.events + Remaining(db, actor, reportId, r.nextCursor)
  {
    r := GetEventsSince(db, cursor, limit, reportId, actor);
    PageThenRest(db.events, Query(db.reports, actor, cursor, reportId), limit);
  }

  lemma RemainingAscends(db: Db, actor: Actor, reportId: Option<ReportId>, cursor: Option<int>)
    requires SoundLog(db)
    ensures Ascending(Remaining(db, actor, reportId, cursor))
  {
    FilterAscends(db.events, WantedBy(Query(db.reports, actor, cursor, reportId)));
  }

  /** Every page is full except perhaps the last, and none is empty. */
  ghost predicate PagedBy(pages: seq<seq<Event>>, n: nat) {
    forall i :: 0 <= i < |pages| ==> 1 <= |pages[i]| <= n && (i < |pages| - 1 ==> |pages[i]| == n)
  }

  ghost predicate AllFull(pages: seq<seq<Event>>, n: nat) {
    forall i :: 0 <= i < |pages| ==> |pages[i]| == n
  }

  lemma FlattenSnoc(pages: seq<seq<Event>>, page: seq<Event>, n: nat)
    requires AllFull(pages, n) && 1 <= |page| <= n
    ensures Flatten(pages + [page]) == Flatten(pages) + page
    ensures PagedBy(pages + [page], n) && (|page| == n ==> AllFull(pages + [page], n))
  {
    assert (pages + [page])[..|pages|] == pages;
  }

  lemma {:induction false} FullLength(pages: seq<seq<Event>>, n: nat)
    requires AllFull(pages, n)
    ensures |Flatten(pages)| == |pages| * n
  {
    if pages == [] {
    } else {
      var k := |pages| - 1;
      FullLength(pages[..k], n);
      assert k * n + n == (k + 1) * n;
    }
  }

  /** `pages` is `total` divided by n, rounded up. */
  predicate RoundedUp(pages: nat, total: nat, n: nat) {
    if pages == 0 then total == 0 else (pages - 1) * n < total <= pages * n
  }

  lemma PagesNeeded(pages: seq<seq<Event>>, n: nat)
    requires PagedBy(pages, n)
    ensures RoundedUp(|pages|, |Flatten(pages)|, n)
  {
    if pages != [] {
      var k := |pages| - 1;
      FullLength(pages[..k], n);
      assert |Flatten(pages)| == k * n + |pages[k]|;
      assert |pages| * n == k * n + n;
    }
  }

  /** The client loop on a log that stands still: it ends, and its pages joined are exactly the wanted events past the
      first cursor, each once and ascending; all pages but the last are as large as the limit allows. */
  method PollUntilEmpty(db: Db, actor: Actor, since: Option<int>, limit: Option<int>, reportId: Option<ReportId>,
                        ghost n: nat)
    returns (pages: seq<seq<Event>>, cursor: Option<int>)
    requires SoundLog(db) && IsLimit(n, limit)
    ensures Flatten(pages) == Remaining(db, actor, reportId, since)
    ensures Ascending(Flatten(pages))
    ensures PagedBy(pages, n) && RoundedUp(|pages|, |Remaining(db, actor, reportId, since)|, n)
    ensures Remaining(db, actor, reportId, cursor) == []
  {
    pages, cursor := [], since;
    var r := FetchPage(db, actor, reportId, cursor, limit, n);
    while |r.events| > 0
      invariant |r.events| == Smaller(|Remaining(db, actor, reportId, cursor)|, n)
      invariant Remaining(db, actor, reportId, cursor) == r.events + Remaining(db, actor, reportId, r.nextCursor)
      invariant Flatten(pages) + Remaining(db, actor, reportId, cursor) == Remaining(db, actor, reportId, since)
      invariant PagedBy(pages, n) && (Remaining(db, actor, reportId, cursor) != [] ==> AllFull(pages, n))
      decreases |Remaining(db, actor, reportId, cursor)|
    {
      FlattenSnoc(pages, r.events, n);
      ConcatAssociates(Flatten(pages), r.events, Remaining(db, actor, reportId, r.nextCursor));
      pages := pages + [r.events];
      cursor := r.nextCursor;
      r := FetchPage(db, actor, reportId, cursor, limit, n);
    }
    RemainingAscends(db, actor, reportId, since);
    PagesNeeded(pages, n);
  }

  // ---- Polling a log that grows -------------------------------------------------------

  datatype Reader = Reader(actor: Actor, reportId: Option<ReportId>, cursor: Option<int>, feed: seq<Event>)

  datatype Move = Work(action: Action) | Poll(limit: Option<int>)

  datatype World = World(sys: System, reader: Reader)

  function Polled(db: Db, rd: Reader, limit: Option<int>): Reader {
    var r := Page(db.events, Query(db.reports, rd.actor, rd.cursor, rd.reportId), limit);
    rd.(cursor := r.nextCursor, feed := rd.feed + r.events)
  }

  function MoveStep(w: World, dir: Directory, m: Move): World {
    match m
    case Work(a) => w.(sys := Step(w.sys, dir, a))
    case Poll(limit) => w.(reader := Polled(w.sys.db, w.reader, limit))
  }

  function Play(w: World, dir: Directory, moves: seq<Move>): World
    decreases |moves|
  {
    if moves == [] then w else Play(MoveStep(w, dir, moves[0]), dir, moves[1..])
  }

  /** Events between where the reader started and where its cursor is now. */
  predicate Covered(start: Option<int>, cursor: Option<int>, e: Event) {
    Past(start, e) && cursor.Some? && e.seqNo <= cursor.value
  }

  /** What no later assignment can make visible or hide: everything for staff, one's own reports for a reporter. */
  predicate Owed(reports: map<ReportId, Report>, rd: Reader, e: Event) {
    && About(rd.reportId, e)
    && e.reportId in reports
    && (rd.actor.roles.supervisor || rd.actor.roles.admin || reports[e.reportId].reporter == rd.actor.userId)
  }

  function OwedTo(reports: map<ReportId, Report>, rd: Reader): Event -> bool {
    e => Owed(reports, rd, e)
  }

  ghost predicate Complete(es: seq<Event>, owed: Event -> bool, feed: seq<Event>, start: Option<int>,
                           cursor: Option<int>)
  {
    && Ascending(feed)
    && (forall e :: e in feed ==> e in es && Covered(start, cursor, e))
    && (forall e :: e in es && owed(e) && Covered(start, cursor, e) ==> e in feed)
    && cursor == CursorAfter(feed, start)
  }

  lemma AscendingConcat(a: seq<Event>, b: seq<Event>)
    requires Ascending(a) && Ascending(b)
    requires a != [] ==> forall e :: e in b ==> e.seqNo > a[|a| - 1].seqNo
    ensures Ascending(a + b)
  {
    forall i, j | 0 <= i < j < |a + b|
      ensures (a + b)[i].seqNo < (a + b)[j].seqNo
    {
      if i < |a| <= j {
        assert b[j - |a|] in b;
        assert a[i].seqNo <= a[|a| - 1].seqNo;
      }
    }
  }

  /** The first n matches are the matches up to the n-th number. */
  lemma PrefixIsUpTo(es: seq<Event>, p: Event -> bool, n: nat, e: Event)
    requires Ascending(es) && 0 < n <= |Filter(es, p)|
    ensures Ascending(Filter(es, p)[..n])
    ensures e in Filter(es, p)[..n] <==> e in es && p(e) && e.seqNo <= Filter(es, p)[n - 1].seqNo
  {
    FilterAscends(es, p);
    var all := Filter(es, p);
    assert e in all <==> e in all[..n] || e in all[n..] by { assert all == all[..n] + all[n..]; }
    TailIsPast(all, n, e);
    if e in all[..n] {
      var i :| 0 <= i < n && all[i] == e;
      assert i == n - 1 || all[i].seqNo < all[n - 1].seqNo;
    }
  }

  ghost predicate IsUpTo(page: seq<Event>, es: seq<Event>, p: Event -> bool) {
    && page != [] && Ascending(page)
    && forall e :: e in page <==> e in es && p(e) && e.seqNo <= page[|page| - 1].seqNo
  }

  /** A page of any superset of what is owed past the cursor extends a complete feed to a complete feed. */
  lemma PageExtendsFeed(es: seq<Event>, p: Event -> bool, owed: Event -> bool, feed: seq<Event>, page: seq<Event>,
                        start: Option<int>, cursor: Option<int>)
    requires IsUpTo(page, es, p)
    requires forall e :: e in es && p(e) ==> Past(cursor, e)
    requires forall e :: e in es && owed(e) && Past(cursor, e) ==> p(e)
    requires Complete(es, owed, feed, start, cursor)
    ensures Complete(es, owed, feed + page, start, CursorAfter(page, cursor))
  {
    AscendingConcat(feed, page);
    var next := CursorAfter(page, cursor);
    forall e | e in page
      ensures Covered(start, next, e)
    {
      CursorIsLater(es, owed, feed, start, cursor, e);
    }
    forall e | e in feed
      ensures Covered(start, next, e)
    {
      assert page[|page| - 1] in page;
    }
  }

  lemma CursorIsLater(es: seq<Event>, owed: Event -> bool, feed: seq<Event>, start: Option<int>, cursor: Option<int>,
                      e: Event)
    requires Complete(es, owed, feed, start, cursor) && Past(cursor, e)
    ensures Past(start, e)
  {
    if feed != [] {
      assert feed[|feed| - 1] in feed;
    }
  }

  lemma PollStaysComplete(db: Db, rd: Reader, start: Option<int>, limit: Option<int>)
    requires Ascending(db.events) && Complete(db.events, OwedTo(db.reports, rd), rd.feed, start, rd.cursor)
    ensures var next := Polled(db, rd, limit);
            Complete(db.events, OwedTo(db.reports, next), next.feed, start, next.cursor)
  {
    var q := Query(db.reports, rd.actor, rd.cursor, rd.reportId);
    var r := Page(db.events, q, limit);
    var next := Polled(db, rd, limit);
    if r.events == [] {
      assert rd.feed + r.events == rd.feed;
    } else {
      assert r.events == Filter(db.events, WantedBy(q))[..|r.events|];
      forall e {
        PrefixIsUpTo(db.events, WantedBy(q), |r.events|, e);
      }
      PageExtendsFeed(db.events, WantedBy(q), OwedTo(db.reports, rd), rd.feed, r.events, start, rd.cursor);
    }
  }

  /** A step of the workflow only appends, above every number so far, and never changes a reporter. */
  ghost predicate Grows(db: Db, after: Db) {
    && |db.events| <= |after.events|
    && after.events[..|db.events|] == db.events
    && (forall i :: |db.events| <= i < |after.events| ==>
          after.events[i].seqNo >= db.nextSeq && after.events[i].reportId in after.reports)
    && (forall id :: id in db.reports ==>
          id in after.reports && after.reports[id].reporter == db.reports[id].reporter)
  }

  lemma AtomicGrows(db: Db, dir: Directory, t: Txn)
    requires Atomic(db, dir, t).Success? && KeyedById(db)
    ensures Grows(db, Atomic(db, dir, t).value)
  {
    match t
    case Created(_, _, _, _) =>
    case Mutated(_, _, _) =>
    case NumberTaken =>
  }

  lemma StepGrows(s: System, dir: Directory, a: Action)
    requires Inv(s, dir) && History(s.db)
    ensures Grows(s.db, Step(s, dir, a).db) && History(Step(s, dir, a).db)
  {
    StepIsAtomic(s, dir, a);
    var log := Entry(s, dir, a);
    if log != [] {
      AtomicKeepsHistory(s.db, dir, log[0]);
      AtomicGrows(s.db, dir, log[0]);
    }
  }

  lemma WorkStaysComplete(db: Db, after: Db, rd: Reader, start: Option<int>)
    requires SoundLog(db) && Grows(db, after)
    requires Complete(db.events, OwedTo(db.reports, rd), rd.feed, start, rd.cursor)
    ensures Complete(after.events, OwedTo(after.reports, rd), rd.feed, start, rd.cursor)
  {
    assert after.events == db.events + after.events[|db.events|..];
    forall e | e in after.events && OwedTo(after.reports, rd)(e) && Covered(start, rd.cursor, e)
      ensures e in rd.feed
    {
      assert rd.feed != [];
      assert rd.feed[|rd.feed| - 1] in db.events;
      assert e.seqNo < db.nextSeq;
      assert e in db.events;
      assert OwedTo(db.reports, rd)(e);
    }
  }

  lemma {:induction false} PlayStaysComplete(w: World, dir: Directory, moves: seq<Move>, start: Option<int>)
    requires Inv(w.sys, dir) && History(w.sys.db)
    requires Complete(w.sys.db.events, OwedTo(w.sys.db.reports, w.reader), w.reader.feed, start, w.reader.cursor)
    requires forall e :: e in w.reader.feed ==> About(w.reader.reportId, e)
    ensures var end := Play(w, dir, moves);
            && History(end.sys.db)
            && Complete(end.sys.db.events, OwedTo(end.sys.db.reports, end.reader), end.reader.feed, start,
                        end.reader.cursor)
            && (forall e :: e in end.reader.feed ==> About(end.reader.reportId, e))
            && end.reader.actor == w.reader.actor && end.reader.reportId == w.reader.reportId
    decreases |moves|
  {
    if moves == [] {
    } else {
      match moves[0]
      case Work(a) =>
        var next := w.(sys := Step(w.sys, dir, a));
        StepKeepsInv(w.sys, dir, a);
        StepGrows(w.sys, dir, a);
        WorkStaysComplete(w.sys.db, next.sys.db, w.reader, start);
        PlayStaysComplete(next, dir, moves[1..], start);
      case Poll(limit) =>
        var next := w.(reader := Polled(w.sys.db, w.reader, limit));
        PollStaysComplete(w.sys.db, w.reader, start, limit);
        PollIsAbout(w.sys.db, w.reader, limit);
        PlayStaysComplete(next, dir, moves[1..], start);
    }
  }

  lemma PollIsAbout(db: Db, rd: Reader, limit: Option<int>)
    requires forall e :: e in rd.feed ==> About(rd.reportId, e)
    ensures forall e :: e in Polled(db, rd, limit).feed ==> About(rd.reportId, e)
  {
    var q := Query(db.reports, rd.actor, rd.cursor, rd.reportId);
    var all := Filter(db.events, WantedBy(q));
    forall e | e in Page(db.events, q, limit).events
      ensures About(rd.reportId, e)
    {
      assert e in all;
    }
  }

  function OwedAndCovered(reports: map<ReportId, Report>, rd: Reader, start: Option<int>): Event -> bool {
    e => Owed(reports, rd, e) && Covered(start, rd.cursor, e)
  }

  /** Any reader's feed, cut down to what it is owed, is exactly the owed events up to the cursor, in order, however
      polls of any size mix with workflow steps. */
  lemma FeedLosesNothingOwed(dir: Directory, moves: seq<Move>, actor: Actor, reportId: Option<ReportId>,
                             start: Option<int>)
    ensures var w := Play(World(INITIAL, Reader(actor, reportId, start, [])), dir, moves);
            Filter(w.reader.feed, OwedTo(w.sys.db.reports, w.reader))
            == Filter(w.sys.db.events, OwedAndCovered(w.sys.db.reports, w.reader, start))
  {
    var w := Play(World(INITIAL, Reader(actor, reportId, start, [])), dir, moves);
    PlayStaysComplete(World(INITIAL, Reader(actor, reportId, start, [])), dir, moves, start);
    var p, p' := OwedTo(w.sys.db.reports, w.reader), OwedAndCovered(w.sys.db.reports, w.reader, start);
    FilterAscends(w.reader.feed, p);
    FilterAscends(w.sys.db.events, p');
    AscendingIsUnique(Filter(w.reader.feed, p), Filter(w.sys.db.events, p'));
  }

  function CoveredBy(rd: Reader, start: Option<int>): Event -> bool {
    e => About(rd.reportId, e) && Covered(start, rd.cursor, e)
  }

  /** A supervisor's or admin's feed is at every moment all the events up to its cursor. */
  lemma StaffFeedIsTheLog(dir: Directory, moves: seq<Move>, actor: Actor, reportId: Option<ReportId>,
                          start: Option<int>)
    requires actor.roles.supervisor || actor.roles.admin
    ensures var w := Play(World(INITIAL, Reader(actor, reportId, start, [])), dir, moves);
            w.reader.feed == Filter(w.sys.db.events, CoveredBy(w.reader, start))
  {
    var w := Play(World(INITIAL, Reader(actor, reportId, start, [])), dir, moves);
    PlayStaysComplete(World(INITIAL, Reader(actor, reportId, start, [])), dir, moves, start);
    var p := CoveredBy(w.reader, start);
    FilterAscends(w.sys.db.events, p);
    forall e
      ensures e in w.reader.feed <==> e in Filter(w.sys.db.events, p)
    {
      if e in w.sys.db.events && p(e) {
        assert OwedTo(w.sys.db.reports, w.reader)(e);
      }
    }
    AscendingIsUnique(w.reader.feed, Filter(w.sys.db.events, p));
  }
}
