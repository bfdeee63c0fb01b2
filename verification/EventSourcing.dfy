/** The event log is a faithful history: it rebuilds every row, and it shows who did the work. */
module EventSourcing {
  import opened Wrappers
  import opened ReportModel
  import opened Interleaving

  /** The log of one report, in sequence order. */
  function EventsOf(es: seq<Event>, id: ReportId): seq<Event> {
    if es == [] then []
    else
      var last := es[|es| - 1];
      EventsOf(es[..|es| - 1], id) + if last.reportId == id then [last] else []
  }

  /** What a reader of the log alone knows about a report. */
  datatype View = View(status: Status, reporter: UserId, cleaner: Option<UserId>, supervisor: Option<UserId>)

  function ApplyEvent(v: Option<View>, e: Event): Option<View> {
    if e.eventType.ReportCreated? then Some(View(e.payload.status, e.actor, None, None))
    else if v.None? then None
    else match e.eventType
      case ReportAssigned =>
        Some(v.value.(status := e.payload.status, cleaner := e.payload.cleanerUserId, supervisor := Some(e.actor)))
      case SupervisorEndorsed => Some(v.value.(status := e.payload.status, supervisor := Some(e.actor)))
      case SupervisorRejected => Some(v.value.(status := e.payload.status, supervisor := Some(e.actor)))
      case _ => Some(v.value.(status := e.payload.status))
  }

  function Replay(es: seq<Event>): Option<View> {
    if es == [] then None else ApplyEvent(Replay(es[..|es| - 1]), es[|es| - 1])
  }

  function ViewOf(row: Report): View {
    View(row.status, row.reporter, row.cleaner, row.supervisor)
  }

  predicate IsCleanerEvent(e: Event) {
    e.eventType in {CleanerAcceptedTask, CleanerRejectedTask, CleanerStartedWork, CleanerSubmittedResolution}
  }

  /** The position of the latest assignment, or -1. */
  function LastAssignment(es: seq<Event>): (k: int)
    ensures -1 <= k < |es|
    ensures k >= 0 ==> es[k].eventType == ReportAssigned
    ensures forall j :: k < j < |es| ==> es[j].eventType != ReportAssigned
  {
    if es == [] then -1
    else if es[|es| - 1].eventType == ReportAssigned then |es| - 1
    else LastAssignment(es[..|es| - 1])
  }

  const WORKED := {AcceptedByCleaner, InProgress, ResolvedByCleaner, EndorsedBySupervisor, RejectedBySupervisor}

  /** Everything the log shows after the latest assignment was done by the cleaner the row names. */
  ghost predicate OneTenure(row: Report, es: seq<Event>) {
    var k := LastAssignment(es);
    && (row.cleaner.Some? <==> k >= 0)
    && (row.status == Submitted <==> k < 0)
    && (k >= 0 ==> es[k].payload.cleanerUserId == row.cleaner)
    && (forall j :: k < j < |es| && IsCleanerEvent(es[j]) ==> Some(es[j].actor) == row.cleaner)
  }

  ghost predicate AcceptedSinceAssignment(es: seq<Event>) {
    exists j :: LastAssignment(es) < j < |es| && es[j].eventType == CleanerAcceptedTask
  }

  ghost predicate Faithful(row: Report, es: seq<Event>) {
    && Replay(es) == Some(ViewOf(row))
    && row.version == |es|
    && OneTenure(row, es)
    && (row.status in WORKED ==> AcceptedSinceAssignment(es))
    && row.status != Closed && row.status != Cancelled
  }

  ghost predicate Ordered(db: Db) {
    && (forall i, j :: 0 <= i < j < |db.events| ==> db.events[i].seqNo < db.events[j].seqNo)
    && (forall i :: 0 <= i < |db.events| ==> db.events[i].seqNo < db.nextSeq)
  }

  ghost predicate SoundLog(db: Db) {
    && KeyedById(db)
    && Ordered(db)
    && forall i :: 0 <= i < |db.events| ==> db.events[i].reportId in db.reports
  }

  ghost predicate History(db: Db) {
    SoundLog(db) && EveryRowFaithful(db)
  }

  ghost predicate EveryRowFaithful(db: Db) {
    forall id :: id in db.reports ==> Faithful(db.reports[id], EventsOf(db.events, id))
  }

  // ---- One transaction keeps the history ------------------------------------

  lemma EventsOfAppend(es: seq<Event>, e: Event, id: ReportId)
    ensures EventsOf(es + [e], id) == if e.reportId == id then EventsOf(es, id) + [e] else EventsOf(es, id)
  {
    assert (es + [e])[..|es|] == es;
  }

  lemma {:induction false} NoEventsOfStranger(es: seq<Event>, id: ReportId)
    requires forall i :: 0 <= i < |es| ==> es[i].reportId != id
    ensures EventsOf(es, id) == []
  {
    if es == [] {
    } else {
      NoEventsOfStranger(es[..|es| - 1], id);
    }
  }

  lemma MutationStaysFaithful(dir: Directory, actor: Actor, row: Report, m: Mutation, es: seq<Event>, s: nat)
    requires Faithful(row, es) && Allowed(m, actor, dir, row)
    ensures Faithful(RowAfter(m, actor, row), es + [EventOf(m, actor, RowAfter(m, actor, row), s)])
  {
    var after := RowAfter(m, actor, row);
    var e := EventOf(m, actor, after, s);
    var es' := es + [e];
    assert es'[..|es|] == es;
    if after.status in WORKED {
      if m.CleanerAccept? {
        assert es'[|es|].eventType == CleanerAcceptedTask;
      } else {
        var j :| LastAssignment(es) < j < |es| && es[j].eventType == CleanerAcceptedTask;
        assert es'[j].eventType == CleanerAcceptedTask;
      }
    }
  }

  lemma CreationIsFaithful(row: Report, e: Event)
    requires row.status == Submitted && row.version == 1 && row.cleaner.None? && row.supervisor.None?
    requires e.eventType == ReportCreated && e.actor == row.reporter && e.payload.status == Submitted
    ensures Faithful(row, [e])
  {
    assert Replay([e][..0]) == None;
    assert LastAssignment([e][..0]) == -1;
  }

  lemma RowStaysFaithful(db: Db, after: Db, e: Event, row: Report, id: ReportId)
    requires EveryRowFaithful(db) && e.reportId == row.id
    requires after.events == db.events + [e] && after.reports == db.reports[row.id := row]
    requires Faithful(row, EventsOf(db.events, row.id) + [e])
    requires id in after.reports
    ensures Faithful(after.reports[id], EventsOf(after.events, id))
  {
    EventsOfAppend(db.events, e, id);
  }

  lemma RowsStayFaithful(db: Db, after: Db, e: Event, row: Report)
    requires EveryRowFaithful(db) && e.reportId == row.id
    requires after.events == db.events + [e] && after.reports == db.reports[row.id := row]
    requires Faithful(row, EventsOf(db.events, row.id) + [e])
    ensures EveryRowFaithful(after)
  {
    forall id | id in after.reports {
      RowStaysFaithful(db, after, e, row, id);
    }
  }

  lemma LogStaysSound(db: Db, after: Db, e: Event, row: Report)
    requires SoundLog(db) && e.seqNo == db.nextSeq && e.reportId == row.id
    requires after.events == db.events + [e] && after.nextSeq == db.nextSeq + 1
    requires after.reports == db.reports[row.id := row]
    ensures SoundLog(after)
  {}

  lemma AtomicKeepsHistory(db: Db, dir: Directory, t: Txn)
    requires History(db) && Atomic(db, dir, t).Success?
    ensures History(Atomic(db, dir, t).value)
  {
    match t
    case Created(actor, id, input, hint) =>
      var c := Create(db, dir, actor, id, input, hint).value;
      NoEventsOfStranger(db.events, id);
      CreationIsFaithful(c.report, c.event);
      assert EventsOf(db.events, id) + [c.event] == [c.event];
      LogStaysSound(db, c.db, c.event, c.report);
      RowsStayFaithful(db, c.db, c.event, c.report);
    case Mutated(actor, id, m) =>
      var c := Applied(db, actor, db.reports[id], m);
      MutationStaysFaithful(dir, actor, db.reports[id], m, EventsOf(db.events, id), db.nextSeq);
      LogStaysSound(db, c.db, c.event, c.report);
      RowsStayFaithful(db, c.db, c.event, c.report);
    case NumberTaken =>
  }

  lemma {:induction false} SerialKeepsHistory(db: Db, dir: Directory, ts: seq<Txn>)
    requires History(db) && Serial(db, dir, ts).Success?
    ensures History(Serial(db, dir, ts).value)
    decreases |ts|
  {
    if ts == [] {
    } else {
      AtomicKeepsHistory(db, dir, ts[0]);
      SerialKeepsHistory(Atomic(db, dir, ts[0]).value, dir, ts[1..]);
    }
  }

  // ---- Over every run -------------------------------------------------------

  /** In every reachable state the log has strictly increasing numbers and rebuilds each row, and a row's
      version is the number of its events. */
  lemma ReplayRebuildsEveryRow(dir: Directory, actions: seq<Action>, id: ReportId)
    ensures var db := Run(INITIAL, dir, actions).db;
            && Ordered(db)
            && (id in db.reports ==>
                  && Replay(EventsOf(db.events, id)) == Some(ViewOf(db.reports[id]))
                  && db.reports[id].version == |EventsOf(db.events, id)|)
            && (id !in db.reports ==> EventsOf(db.events, id) == [])
  {
    ReachableHistory(dir, actions);
    var db := Run(INITIAL, dir, actions).db;
    if id !in db.reports {
      NoEventsOfStranger(db.events, id);
    }
  }

  lemma ReachableHistory(dir: Directory, actions: seq<Action>)
    ensures History(Run(INITIAL, dir, actions).db)
  {
    InitialInv(dir);
    Serialisable(INITIAL, dir, actions);
    SerialKeepsHistory(EMPTY_DB, dir, Log(INITIAL, dir, actions));
  }

  /** Work past acceptance, in any reachable state, was accepted after the latest assignment by the cleaner the
      row names, and every cleaner event since is that cleaner's. */
  lemma WorkIsByTheAssignedCleaner(dir: Directory, actions: seq<Action>, id: ReportId) returns (k: nat, j: nat)
    requires id in Run(INITIAL, dir, actions).db.reports
    requires Run(INITIAL, dir, actions).db.reports[id].status in WORKED
    ensures var db := Run(INITIAL, dir, actions).db;
            var es, cleaner := EventsOf(db.events, id), db.reports[id].cleaner;
            && cleaner.Some?
            && k < j < |es|
            && es[k].eventType == ReportAssigned && es[k].payload.cleanerUserId == cleaner
            && es[j].eventType == CleanerAcceptedTask && es[j].actor == cleaner.value
            && (forall i :: k < i < |es| ==> es[i].eventType != ReportAssigned)
            && (forall i :: k < i < |es| && IsCleanerEvent(es[i]) ==> es[i].actor == cleaner.value)
  {
    ReachableHistory(dir, actions);
    var db := Run(INITIAL, dir, actions).db;
    var es := EventsOf(db.events, id);
    assert Faithful(db.reports[id], es);
    k := LastAssignment(es);
    j :| k < j < |es| && es[j].eventType == CleanerAcceptedTask;
    assert IsCleanerEvent(es[j]);
  }

  // ---- Notifications ----------------------------------------------------------

  ghost predicate NoticeOf(n: Notification, e: Event) {
    n.eventSeq == e.seqNo && n.reportId == e.reportId
  }

  /** The reporter hears of every event, and every notification row is about an event of its report. */
  ghost predicate Informed(db: Db) {
    && (forall i :: 0 <= i < |db.events| && db.events[i].reportId in db.reports
                    && db.reports[db.events[i].reportId].reporter != "" ==>
          exists n :: n in db.notifications && NoticeOf(n, db.events[i])
                      && n.userId == db.reports[db.events[i].reportId].reporter)
    && (forall n :: n in db.notifications ==> exists e :: e in db.events && NoticeOf(n, e))
  }

  lemma NoticesNameTheEvent(userIds: seq<UserId>, row: Report, s: nat, title: Headline, body: Body)
    ensures forall n :: n in Notices(userIds, row, s, title, body) ==> n.eventSeq == s && n.reportId == row.id
    ensures forall u :: u in userIds && u != "" ==>
              exists n :: n in Notices(userIds, row, s, title, body) && n.userId == u
  {
    NoticesReachEachOnce(userIds, row, s, title, body);
    forall u | u in userIds && u != ""
      ensures exists n :: n in Notices(userIds, row, s, title, body) && n.userId == u
    {
      var ns := Notices(userIds, row, s, title, body);
      var i :| 0 <= i < |ns| && ns[i].userId == u;
      assert ns[i] in ns;
    }
  }

  ghost predicate TellsReporter(ns: seq<Notification>, row: Report, s: nat) {
    && (forall n :: n in ns ==> n.eventSeq == s && n.reportId == row.id)
    && (row.reporter != "" ==> exists n :: n in ns && n.userId == row.reporter)
  }

  lemma MutationTellsReporter(m: Mutation, row: Report, s: nat)
    ensures TellsReporter(NoticesOf(m, row, s), row, s)
  {
    forall ids: seq<UserId>, t, b
      ensures forall n :: n in Notices(ids, row, s, t, b) ==> n.eventSeq == s && n.reportId == row.id
      ensures row.reporter in ids && row.reporter != "" ==>
                exists n :: n in Notices(ids, row, s, t, b) && n.userId == row.reporter
    {
      NoticesNameTheEvent(ids, row, s, t, b);
    }
    assert row.reporter in [row.reporter];
  }

  predicate Notified(ns: seq<Notification>, u: UserId) {
    exists i :: 0 <= i < |ns| && ns[i].userId == u
  }

  lemma NotifiedEither(a: seq<Notification>, b: seq<Notification>, u: UserId)
    ensures Notified(a + b, u) <==> Notified(a, u) || Notified(b, u)
  {
    if Notified(a, u) {
      var i :| 0 <= i < |a| && a[i].userId == u;
      assert (a + b)[i].userId == u;
    }
    if Notified(b, u) {
      var i :| 0 <= i < |b| && b[i].userId == u;
      assert (a + b)[|a| + i].userId == u;
    }
    if Notified(a + b, u) {
      var i :| 0 <= i < |a + b| && (a + b)[i].userId == u;
      assert if i < |a| then a[i].userId == u else b[i - |a|].userId == u;
    }
  }

  /** A mutation's audience is exactly the reporter and the other party: the supervisor hears what the cleaner did,
      the cleaner what the supervisor did. */
  lemma MutationAudience(m: Mutation, actor: Actor, before: Report, s: nat, u: UserId)
    ensures var row := RowAfter(m, actor, before);
            Notified(NoticesOf(m, row, s), u) <==>
              u != "" && (u == row.reporter || (if IsCleanerAction(m) then row.supervisor else row.cleaner) == Some(u))
  {
    var row := RowAfter(m, actor, before);
    forall ids: seq<UserId>, t, b
      ensures Notified(Notices(ids, row, s, t, b), u) <==> u in ids && u != ""
    {
      NoticesReachEachOnce(ids, row, s, t, b);
    }
    forall a, b
      ensures Notified(a + b, u) <==> Notified(a, u) || Notified(b, u)
    {
      NotifiedEither(a, b, u);
    }
  }

  lemma CreationTellsReporter(dir: Directory, row: Report, s: nat)
    ensures TellsReporter(CreatedNotices(dir, row, s), row, s)
  {
    var others := Without(UsersWithRole(dir, Supervisor), row.reporter);
    NoticesNameTheEvent(others, row, s, NewReportSubmitted, Text(row.content.title));
    NoticesNameTheEvent([row.reporter], row, s, YourReportSubmitted, Text(row.content.title));
    assert row.reporter in [row.reporter];
  }

  lemma AppendKeepsInformed(db: Db, after: Db, e: Event, ns: seq<Notification>, row: Report)
    requires Informed(db) && History(db)
    requires after.events == db.events + [e] && after.notifications == db.notifications + ns
    requires after.reports == db.reports[row.id := row] && e.reportId == row.id
    requires row.id in db.reports ==> row.reporter == db.reports[row.id].reporter
    requires TellsReporter(ns, row, e.seqNo)
    ensures Informed(after)
  {
    forall i | 0 <= i < |after.events| && after.reports[after.events[i].reportId].reporter != ""
      ensures exists n :: n in after.notifications && NoticeOf(n, after.events[i])
                          && n.userId == after.reports[after.events[i].reportId].reporter
    {
      var n: Notification;
      if i < |db.events| {
        n :| n in db.notifications && NoticeOf(n, db.events[i])
             && n.userId == db.reports[db.events[i].reportId].reporter;
      } else {
        n :| n in ns && n.userId == row.reporter;
      }
      assert n in after.notifications;
    }
    forall n | n in after.notifications
      ensures exists e' :: e' in after.events && NoticeOf(n, e')
    {
      if n in db.notifications {
        var e' :| e' in db.events && NoticeOf(n, e');
        assert e' in after.events;
      } else {
        assert e in after.events;
      }
    }
  }

  lemma AtomicKeepsInformed(db: Db, dir: Directory, t: Txn)
    requires History(db) && Informed(db) && Atomic(db, dir, t).Success?
    ensures Informed(Atomic(db, dir, t).value)
  {
    match t
    case Created(actor, id, input, hint) =>
      var c := Create(db, dir, actor, id, input, hint).value;
      CreationTellsReporter(dir, c.report, db.nextSeq);
      AppendKeepsInformed(db, c.db, c.event, CreatedNotices(dir, c.report, db.nextSeq), c.report);
    case Mutated(actor, id, m) =>
      var c := Applied(db, actor, db.reports[id], m);
      MutationTellsReporter(m, c.report, db.nextSeq);
      AppendKeepsInformed(db, c.db, c.event, NoticesOf(m, c.report, db.nextSeq), c.report);
    case NumberTaken =>
  }

  lemma {:induction false} SerialKeepsInformed(db: Db, dir: Directory, ts: seq<Txn>)
    requires History(db) && Informed(db) && Serial(db, dir, ts).Success?
    ensures Informed(Serial(db, dir, ts).value)
    decreases |ts|
  {
    if ts == [] {
    } else {
      AtomicKeepsHistory(db, dir, ts[0]);
      AtomicKeepsInformed(db, dir, ts[0]);
      SerialKeepsInformed(Atomic(db, dir, ts[0]).value, dir, ts[1..]);
    }
  }

  /** However transactions interleave, the reporter has a notification for each event of the report, and no
      aborted write has left a notification behind. */
  lemma ReporterHearsOfEveryEvent(dir: Directory, actions: seq<Action>)
    ensures Informed(Run(INITIAL, dir, actions).db)
  {
    InitialInv(dir);
    Serialisable(INITIAL, dir, actions);
    SerialKeepsInformed(EMPTY_DB, dir, Log(INITIAL, dir, actions));
  }
}
