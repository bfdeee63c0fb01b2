/** What each v2 transaction answers and writes, stated outright: every refusal, and on success the row, the event, the
    notifications and the attachments (apps/api/src/v2/reports/reports.service.ts). */
module Outcomes {
  import opened Sequences
  import opened Wrappers
  import opened ReportModel
  import opened Interleaving

  /** What one transaction writes besides attachments: the report's row, one event and these notifications. */
  ghost predicate Wrote(db: Db, after: Db, row: Report, e: Event, told: seq<Notification>) {
    && after.reports == db.reports[row.id := row]
    && after.events == db.events + [e]
    && after.notifications == db.notifications + told
    && after.nextSeq == db.nextSeq + 1
  }

  /** One row per input, in order, under the report and the sender, after what was there. */
  ghost predicate Stored(before: seq<Attachment>, after: seq<Attachment>, id: ReportId, user: UserId,
                         inputs: seq<AttachmentInput>)
  {
    && |after| == |before| + |inputs|
    && (forall i :: 0 <= i < |before| ==> after[i] == before[i])
    && (forall i :: 0 <= i < |inputs| ==> after[|before| + i] == Attachment(id, user, inputs[i]))
  }

  /** One notification, unless the user id is empty. */
  function SentTo(user: UserId, id: ReportId, s: nat, title: Headline, body: Body): seq<Notification> {
    if user == "" then [] else [Notification(user, id, s, title, body)]
  }

  function SentToParty(user: Option<UserId>, id: ReportId, s: nat, title: Headline, body: Body): seq<Notification> {
    match user
    case Some(u) => SentTo(u, id, s, title, body)
    case None => []
  }

  lemma NonEmptyOne(user: UserId)
    ensures NonEmpty([user]) == if user == "" then [] else [user]
  {
    assert NonEmpty([user][1..]) == [];
    assert [user] + [] == [user];
  }

  lemma DistinctOne(user: UserId)
    ensures Distinct([user]) == [user]
  {
    assert Distinct([user][..0]) == [];
  }

  lemma NoticesToOne(user: UserId, row: Report, s: nat, title: Headline, body: Body)
    ensures Notices([user], row, s, title, body) == SentTo(user, row.id, s, title, body)
  {
    NonEmptyOne(user);
    DistinctOne(user);
  }

  lemma NoticesToTwo(first: Option<UserId>, second: UserId, row: Report, s: nat, t: Headline, b: Body, t': Headline,
                     b': Body)
    ensures NoticeTo(first, row, s, t, b) == SentToParty(first, row.id, s, t, b)
    ensures Notices([second], row, s, t', b') == SentTo(second, row.id, s, t', b')
  {
    if first.Some? { NoticesToOne(first.value, row, s, t, b); }
    NoticesToOne(second, row, s, t', b');
  }

  // ---- The seven mutations ---------------------------------------------------------------

  /** Why an assignment is refused. */
  ghost function NotAssignable(db: Db, dir: Directory, id: ReportId, cleaner: UserId): Option<Error> {
    if id !in db.reports then Some(ReportNotFound)
    else if db.reports[id].status !in {Submitted, RejectedBySupervisor, RejectedByCleaner, Assigned}
    then Some(Conflict)
    else if forall i :: 0 <= i < |dir.accounts| ==> dir.accounts[i].id != cleaner then Some(NotFound)
    else None
  }

  lemma AssignmentOutcome(db: Db, dir: Directory, actor: Actor, id: ReportId, cleaner: UserId, due: Option<string>,
                          note: Option<string>)
    requires KeyedById(db)
    ensures var r := Atomic(db, dir, Mutated(actor, id, AssignCleaner(cleaner, due, note)));
            match NotAssignable(db, dir, id, cleaner)
            case Some(e) => r == Failure(e)
            case None =>
              var row, s := db.reports[id], db.nextSeq;
              && r.Success? && r.value.attachments == db.attachments
              && Wrote(db, r.value,
                       row.(status := Assigned, cleaner := Some(cleaner), supervisor := Some(actor.userId),
                            version := row.version + 1),
                       Event(s, id, ReportAssigned, actor.userId, Supervisor,
                             Payload(Assigned, Some(cleaner), note, due, None, None, None)),
                       SentTo(cleaner, id, s, NewTaskAssigned, Text(row.content.title))
                       + SentTo(row.reporter, id, s, YourReportAssigned, Text(row.content.title)))
  {
    if id in db.reports {
      var m := AssignCleaner(cleaner, due, note);
      var row := RowAfter(m, actor, db.reports[id]);
      NoticesToTwo(Some(cleaner), row.reporter, row, db.nextSeq, NewTaskAssigned, Text(row.content.title),
                   YourReportAssigned, Text(row.content.title));
    }
  }

  /** The answer when a cleaner's action is refused: no report, somebody else's task, or the wrong status. */
  function Refused(db: Db, id: ReportId, user: UserId, from: set<Status>): Option<Error> {
    if id !in db.reports then Some(ReportNotFound)
    else if db.reports[id].cleaner != Some(user) then Some(NotFound)
    else if db.reports[id].status !in from then Some(Conflict)
    else None
  }

  lemma AcceptanceOutcome(db: Db, dir: Directory, actor: Actor, id: ReportId)
    requires KeyedById(db)
    ensures var r := Atomic(db, dir, Mutated(actor, id, CleanerAccept));
            match Refused(db, id, actor.userId, {Assigned})
            case Some(e) => r == Failure(e)
            case None =>
              var row, s := db.reports[id], db.nextSeq;
              && r.Success? && r.value.attachments == db.attachments
              && Wrote(db, r.value, row.(status := AcceptedByCleaner, version := row.version + 1),
                       Event(s, id, CleanerAcceptedTask, actor.userId, Cleaner,
                             Payload(AcceptedByCleaner, None, None, None, None, None, None)),
                       SentToParty(row.supervisor, id, s, AcceptedTask, Text(row.content.title))
                       + SentTo(row.reporter, id, s, YourReportAccepted, Text(row.content.title)))
  {
    if id in db.reports {
      var row := RowAfter(CleanerAccept, actor, db.reports[id]);
      NoticesToTwo(row.supervisor, row.reporter, row, db.nextSeq, AcceptedTask, Text(row.content.title),
                   YourReportAccepted, Text(row.content.title));
    }
  }

  lemma RefusalOutcome(db: Db, dir: Directory, actor: Actor, id: ReportId, reason: string)
    requires KeyedById(db)
    ensures var r := Atomic(db, dir, Mutated(actor, id, CleanerReject(reason)));
            match Refused(db, id, actor.userId, {Assigned, AcceptedByCleaner})
            case Some(e) => r == Failure(e)
            case None =>
              var row, s := db.reports[id], db.nextSeq;
              && r.Success? && r.value.attachments == db.attachments
              && Wrote(db, r.value, row.(status := RejectedByCleaner, version := row.version + 1),
                       Event(s, id, CleanerRejectedTask, actor.userId, Cleaner,
                             Payload(RejectedByCleaner, None, Some(reason), None, None, None, None)),
                       SentToParty(row.supervisor, id, s, RejectedTask, Text(reason))
                       + SentTo(row.reporter, id, s, YourReportNeedsReassignment, Text(reason)))
  {
    if id in db.reports {
      var row := RowAfter(CleanerReject(reason), actor, db.reports[id]);
      NoticesToTwo(row.supervisor, row.reporter, row, db.nextSeq, RejectedTask, Text(reason),
                   YourReportNeedsReassignment, Text(reason));
    }
  }

  lemma StartOutcome(db: Db, dir: Directory, actor: Actor, id: ReportId)
    requires KeyedById(db)
    ensures var r := Atomic(db, dir, Mutated(actor, id, CleanerStart));
            match Refused(db, id, actor.userId, {AcceptedByCleaner, RejectedBySupervisor})
            case Some(e) => r == Failure(e)
            case None =>
              var row, s := db.reports[id], db.nextSeq;
              && r.Success? && r.value.attachments == db.attachments
              && Wrote(db, r.value, row.(status := InProgress, version := row.version + 1),
                       Event(s, id, CleanerStartedWork, actor.userId, Cleaner,
                             Payload(InProgress, None, None, None, None, None, None)),
                       SentToParty(row.supervisor, id, s, StartedWork, Text(row.content.title))
                       + SentTo(row.reporter, id, s, YourReportStarted, Text(row.content.title)))
  {
    if id in db.reports {
      var row := RowAfter(CleanerStart, actor, db.reports[id]);
      NoticesToTwo(row.supervisor, row.reporter, row, db.nextSeq, StartedWork, Text(row.content.title),
                   YourReportStarted, Text(row.content.title));
    }
  }

  lemma ResolutionOutcome(db: Db, dir: Directory, actor: Actor, id: ReportId, note: Option<string>,
                          inputs: seq<AttachmentInput>)
    requires KeyedById(db)
    ensures var r := Atomic(db, dir, Mutated(actor, id, CleanerResolve(note, inputs)));
            match Refused(db, id, actor.userId, {InProgress})
            case Some(e) => r == Failure(e)
            case None =>
              var row, s := db.reports[id], db.nextSeq;
              && r.Success? && Stored(db.attachments, r.value.attachments, id, actor.userId, inputs)
              && Wrote(db, r.value, row.(status := ResolvedByCleaner, version := row.version + 1),
                       Event(s, id, CleanerSubmittedResolution, actor.userId, Cleaner,
                             Payload(ResolvedByCleaner, None, note, None, None, None, None)),
                       SentToParty(row.supervisor, id, s, TaskResolved, EvidenceSubmitted)
                       + SentTo(row.reporter, id, s, YourReportResolutionSubmitted, Text(row.content.title)))
  {
    if id in db.reports {
      var row := RowAfter(CleanerResolve(note, inputs), actor, db.reports[id]);
      NoticesToTwo(row.supervisor, row.reporter, row, db.nextSeq, TaskResolved, EvidenceSubmitted,
                   YourReportResolutionSubmitted, Text(row.content.title));
    }
  }

  /** The answer when a supervisor's review is refused. */
  function NotReviewable(db: Db, id: ReportId): Option<Error> {
    if id !in db.reports then Some(ReportNotFound)
    else if db.reports[id].status != ResolvedByCleaner then Some(Conflict)
    else None
  }

  lemma EndorsementOutcome(db: Db, dir: Directory, actor: Actor, id: ReportId, note: Option<string>)
    requires KeyedById(db)
    ensures var r := Atomic(db, dir, Mutated(actor, id, SupervisorEndorse(note)));
            match NotReviewable(db, id)
            case Some(e) => r == Failure(e)
            case None =>
              var row, s := db.reports[id], db.nextSeq;
              && r.Success? && r.value.attachments == db.attachments
              && Wrote(db, r.value,
                       row.(status := EndorsedBySupervisor, supervisor := Some(actor.userId),
                            version := row.version + 1),
                       Event(s, id, SupervisorEndorsed, actor.userId, Supervisor,
                             Payload(EndorsedBySupervisor, None, note, None, None, None, None)),
                       SentTo(row.reporter, id, s, YourReportResolved, Text(row.content.title))
                       + SentToParty(row.cleaner, id, s, CompletionEndorsed, Text(row.content.title)))
  {
    if id in db.reports {
      var row := RowAfter(SupervisorEndorse(note), actor, db.reports[id]);
      NoticesToTwo(row.cleaner, row.reporter, row, db.nextSeq, CompletionEndorsed, Text(row.content.title),
                   YourReportResolved, Text(row.content.title));
    }
  }

  lemma RejectionOutcome(db: Db, dir: Directory, actor: Actor, id: ReportId, reason: string)
    requires KeyedById(db)
    ensures var r := Atomic(db, dir, Mutated(actor, id, SupervisorReject(reason)));
            match NotReviewable(db, id)
            case Some(e) => r == Failure(e)
            case None =>
              var row, s := db.reports[id], db.nextSeq;
              && r.Success? && r.value.attachments == db.attachments
              && Wrote(db, r.value,
                       row.(status := RejectedBySupervisor, supervisor := Some(actor.userId),
                            version := row.version + 1),
                       Event(s, id, SupervisorRejected, actor.userId, Supervisor,
                             Payload(RejectedBySupervisor, None, Some(reason), None, None, None, None)),
                       SentToParty(row.cleaner, id, s, ResolutionRejected, Text(reason))
                       + SentTo(row.reporter, id, s, YourReportNeedsMoreWork, Text(reason)))
  {
    if id in db.reports {
      var row := RowAfter(SupervisorReject(reason), actor, db.reports[id]);
      NoticesToTwo(row.cleaner, row.reporter, row, db.nextSeq, ResolutionRejected, Text(reason),
                   YourReportNeedsMoreWork, Text(reason));
    }
  }

  /** Which callers and statuses each mutation passes for, and the error of each refusal. */
  ghost function WhyRefused(db: Db, dir: Directory, actor: Actor, id: ReportId, m: Mutation): Option<Error> {
    match m
    case AssignCleaner(cleaner, _, _) => NotAssignable(db, dir, id, cleaner)
    case CleanerAccept => Refused(db, id, actor.userId, {Assigned})
    case CleanerReject(_) => Refused(db, id, actor.userId, {Assigned, AcceptedByCleaner})
    case CleanerStart => Refused(db, id, actor.userId, {AcceptedByCleaner, RejectedBySupervisor})
    case CleanerResolve(_, _) => Refused(db, id, actor.userId, {InProgress})
    case SupervisorEndorse(_) => NotReviewable(db, id)
    case SupervisorReject(_) => NotReviewable(db, id)
  }

  lemma BeginAnswers(db: Db, dir: Directory, actor: Actor, id: ReportId, m: Mutation)
    ensures match WhyRefused(db, dir, actor, id, m)
            case Some(e) => Begin(db, dir, actor, id, m) == Failure(e)
            case None => id in db.reports && Begin(db, dir, actor, id, m) == Success(Pending(actor, db.reports[id], m))
  {}

  // ---- Creation -----------------------------------------------------------------------------

  /** By the account's own role or by a granted one. */
  ghost predicate Supervises(dir: Directory, user: UserId) {
    || (exists i :: 0 <= i < |dir.accounts| && dir.accounts[i] == Account(user, Supervisor))
    || (exists i :: 0 <= i < |dir.grants| && dir.grants[i] == RoleGrant(user, Supervisor))
  }

  lemma {:induction false} GrantedMembers(gs: seq<RoleGrant>, user: UserId)
    ensures user in GrantedIds(gs, Supervisor) <==> exists i :: 0 <= i < |gs| && gs[i] == RoleGrant(user, Supervisor)
  {
    if gs == [] {
    } else {
      GrantedMembers(gs[1..], user);
      if i :| 0 <= i < |gs[1..]| && gs[1..][i] == RoleGrant(user, Supervisor) {
        assert gs[i + 1] == RoleGrant(user, Supervisor);
      }
      if i :| 0 < i < |gs| && gs[i] == RoleGrant(user, Supervisor) {
        assert gs[1..][i - 1] == RoleGrant(user, Supervisor);
      }
    }
  }

  lemma {:induction false} AccountMembers(xs: seq<Account>, user: UserId)
    ensures user in AccountIds(xs, Supervisor) <==> exists i :: 0 <= i < |xs| && xs[i] == Account(user, Supervisor)
  {
    if xs == [] {
    } else {
      AccountMembers(xs[1..], user);
      if i :| 0 <= i < |xs[1..]| && xs[1..][i] == Account(user, Supervisor) {
        assert xs[i + 1] == Account(user, Supervisor);
      }
      if i :| 0 < i < |xs| && xs[i] == Account(user, Supervisor) {
        assert xs[1..][i - 1] == Account(user, Supervisor);
      }
    }
  }

  lemma {:induction false} WithoutMembers(xs: seq<UserId>, x: UserId)
    ensures forall u :: u in Without(xs, x) <==> u in xs && u != x
  {
    if xs == [] {
    } else {
      WithoutMembers(xs[1..], x);
      assert xs == [xs[0]] + xs[1..];
    }
  }

  lemma SupervisorIds(dir: Directory, user: UserId)
    ensures user in UsersWithRole(dir, Supervisor) <==> Supervises(dir, user)
  {
    GrantedMembers(dir.grants, user);
    AccountMembers(dir.accounts, user);
    DistinctKeepsMembers(GrantedIds(dir.grants, Supervisor) + AccountIds(dir.accounts, Supervisor));
  }

  predicate Reaches(told: seq<Notification>, user: UserId) {
    exists i :: 0 <= i < |told| && told[i].userId == user
  }

  /** One notification of the new report for each supervisor other than the reporter, and for nobody else. */
  ghost predicate TellsSupervisors(dir: Directory, told: seq<Notification>, reporter: UserId, id: ReportId, s: nat,
                                   body: Body)
  {
    && (forall i :: 0 <= i < |told| ==> told[i] == Notification(told[i].userId, id, s, NewReportSubmitted, body))
    && (forall i, j :: 0 <= i < j < |told| ==> told[i].userId != told[j].userId)
    && (forall u :: Reaches(told, u) <==> u != "" && u != reporter && Supervises(dir, u))
  }

  lemma NoticesReach(userIds: seq<UserId>, row: Report, s: nat, title: Headline, body: Body, u: UserId)
    ensures Reaches(Notices(userIds, row, s, title, body), u) <==> u in userIds && u != ""
  {
    NoticesReachEachOnce(userIds, row, s, title, body);
  }

  lemma SupervisorsAreTold(dir: Directory, row: Report, s: nat)
    ensures TellsSupervisors(dir, Notices(Without(UsersWithRole(dir, Supervisor), row.reporter), row, s,
                                          NewReportSubmitted, Text(row.content.title)),
                             row.reporter, row.id, s, Text(row.content.title))
  {
    var ids := Without(UsersWithRole(dir, Supervisor), row.reporter);
    var told := Notices(ids, row, s, NewReportSubmitted, Text(row.content.title));
    NoticesReachEachOnce(ids, row, s, NewReportSubmitted, Text(row.content.title));
    WithoutMembers(UsersWithRole(dir, Supervisor), row.reporter);
    forall u
      ensures Reaches(told, u) <==> u != "" && u != row.reporter && Supervises(dir, u)
    {
      NoticesReach(ids, row, s, NewReportSubmitted, Text(row.content.title), u);
      SupervisorIds(dir, u);
    }
    forall i | 0 <= i < |told|
      ensures told[i] == Notification(told[i].userId, row.id, s, NewReportSubmitted, Text(row.content.title))
    {}
  }

  predicate Present(text: Option<string>) {
    text.Some? && text.value != ""
  }

  /** A taken id is refused. Otherwise the new row is the caller's, with a blank address replaced by the one suggested
      for the two coordinates; the event says whether that is off campus and near which landmark. */
  lemma CreationOutcome(db: Db, dir: Directory, actor: Actor, id: ReportId, input: CreateInput, hint: Option<GeoHint>)
    returns (supervisors: seq<Notification>)
    ensures var r, s := Atomic(db, dir, Created(actor, id, input, hint)), db.nextSeq;
            if id in db.reports then r == Failure(DuplicateId)
            else
              var located := input.lat.Some? && input.lng.Some? && hint.Some?;
              var address := if located && !Present(input.address) && Present(hint.value.suggestedAddress)
                             then hint.value.suggestedAddress else input.address;
              var outside := if located && hint.value.insideCampus.Some? then Some(!hint.value.insideCampus.value)
                             else None;
              var landmark := if located && Present(hint.value.landmark) then hint.value.landmark else None;
              && r.Success? && Stored(db.attachments, r.value.attachments, id, actor.userId, input.attachments)
              && TellsSupervisors(dir, supervisors, actor.userId, id, s, Text(input.title))
              && Wrote(db, r.value,
                       Report(id, actor.userId, None, None,
                              Content(input.title, input.description, input.lat, input.lng, address,
                                      if input.priority.Some? then input.priority.value else Medium),
                              Submitted, 1),
                       Event(s, id, ReportCreated, actor.userId, Reporter,
                             Payload(Submitted, None, None, None, Some(input.title), outside, landmark)),
                       supervisors + SentTo(actor.userId, id, s, YourReportSubmitted, Text(input.title)))
  {
    var row := NewReport(actor, id, input, hint);
    supervisors := Notices(Without(UsersWithRole(dir, Supervisor), row.reporter), row, db.nextSeq,
                           NewReportSubmitted, Text(row.content.title));
    SupervisorsAreTold(dir, row, db.nextSeq);
    NoticesToOne(row.reporter, row, db.nextSeq, YourReportSubmitted, Text(row.content.title));
  }

  /** The answer of a committed transaction is the row and the event it wrote. */
  lemma CommittedIsAnswered(db: Db, dir: Directory, p: Pending, actor: Actor, id: ReportId, input: CreateInput,
                            hint: Option<GeoHint>)
    requires KeyedById(db)
    ensures Commit(db, p).Success? ==> Answered(Commit(db, p).value, p.existing.id)
    ensures Create(db, dir, actor, id, input, hint).Success? ==>
              Answered(Create(db, dir, actor, id, input, hint).value, id)
  {}

  ghost predicate Answered(c: Committed, id: ReportId) {
    && id in c.db.reports && c.report == c.db.reports[id]
    && c.db.events != [] && c.event == c.db.events[|c.db.events| - 1]
  }

  // ---- The transition relation ---------------------------------------------------------------

  /** The twelve moves a report can make. */
  predicate Moves(a: Status, b: Status) {
    match b
    case Assigned => a == Submitted || a == RejectedBySupervisor || a == RejectedByCleaner || a == Assigned
    case AcceptedByCleaner => a == Assigned
    case RejectedByCleaner => a == Assigned || a == AcceptedByCleaner
    case InProgress => a == AcceptedByCleaner || a == RejectedBySupervisor
    case ResolvedByCleaner => a == InProgress
    case EndorsedBySupervisor => a == ResolvedByCleaner
    case RejectedBySupervisor => a == ResolvedByCleaner
    case _ => false
  }

  /** The mutation, made by this caller, takes the report from one status to the other. */
  ghost predicate Takes(db: Db, dir: Directory, actor: Actor, id: ReportId, m: Mutation, a: Status, b: Status) {
    && KeyedById(db) && id in db.reports && db.reports[id].status == a
    && Atomic(db, dir, Mutated(actor, id, m)).Success?
    && id in Atomic(db, dir, Mutated(actor, id, m)).value.reports
    && Atomic(db, dir, Mutated(actor, id, m)).value.reports[id].status == b
  }

  lemma TakesOnlyMoves(db: Db, dir: Directory, actor: Actor, id: ReportId, m: Mutation, a: Status, b: Status)
    requires Takes(db, dir, actor, id, m, a, b)
    ensures Moves(a, b)
  {
    match m
    case AssignCleaner(c, due, note) => AssignmentOutcome(db, dir, actor, id, c, due, note);
    case CleanerAccept => AcceptanceOutcome(db, dir, actor, id);
    case CleanerReject(reason) => RefusalOutcome(db, dir, actor, id, reason);
    case CleanerStart => StartOutcome(db, dir, actor, id);
    case CleanerResolve(note, inputs) => ResolutionOutcome(db, dir, actor, id, note, inputs);
    case SupervisorEndorse(note) => EndorsementOutcome(db, dir, actor, id, note);
    case SupervisorReject(reason) => RejectionOutcome(db, dir, actor, id, reason);
  }

  /** A report of the given status and its cleaner: every move from it is open to somebody. */
  lemma SomebodyCan(a: Status, b: Status)
    requires Moves(a, b)
    ensures exists db, dir, actor, id, m :: Takes(db, dir, actor, id, m, a, b)
  {
    var user: UserId := "";
    var row := Report(user, user, None, Some(user), Content("", None, None, None, None, Medium), a, 1);
    var db := Db(map[user := row], [], [], [], 1);
    var dir := Directory([Account(user, Cleaner)], []);
    var actor := Actor(user, Roles(true, true, false));
    var m := match b
      case Assigned => AssignCleaner(user, None, None)
      case AcceptedByCleaner => CleanerAccept
      case RejectedByCleaner => CleanerReject("")
      case InProgress => CleanerStart
      case ResolvedByCleaner => CleanerResolve(None, [])
      case EndorsedBySupervisor => SupervisorEndorse(None)
      case _ => SupervisorReject("");
    assert dir.accounts[0].id == user;
    assert Begin(db, dir, actor, user, m) == Success(Pending(actor, row, m));
    assert RowAfter(m, actor, row).status == b;
    assert Takes(db, dir, actor, user, m, a, b);
  }

  /** One committed mutation takes a report from one status to another exactly for the twelve moves. */
  lemma TransitionsAreTheMoves(a: Status, b: Status)
    ensures (exists db, dir, actor, id, m :: Takes(db, dir, actor, id, m, a, b)) <==> Moves(a, b)
  {
    if db, dir, actor, id, m :| Takes(db, dir, actor, id, m, a, b) {
      TakesOnlyMoves(db, dir, actor, id, m, a, b);
    }
    if Moves(a, b) { SomebodyCan(a, b); }
  }

  /** However clients interleave, one step leaves a report's row alone or moves it along one of the twelve. */
  lemma StepMoves(s: System, dir: Directory, act: Action, id: ReportId)
    requires Inv(s, dir) && id in s.db.reports
    ensures var after := Step(s, dir, act).db;
            && id in after.reports
            && (after.reports[id] == s.db.reports[id] || Moves(s.db.reports[id].status, after.reports[id].status))
  {
    StepIsAtomic(s, dir, act);
    var log := Entry(s, dir, act);
    if log != [] && log[0].Mutated? && log[0].id == id {
      var t := log[0];
      assert Takes(s.db, dir, t.actor, id, t.mutation, s.db.reports[id].status,
                   Step(s, dir, act).db.reports[id].status);
      TakesOnlyMoves(s.db, dir, t.actor, id, t.mutation, s.db.reports[id].status,
                     Step(s, dir, act).db.reports[id].status);
    }
  }

  // ---- Evidence over whole runs ----------------------------------------------------------------

  /** How often a transaction sent this very row: its report, its sender and its input. */
  function TimesSent(t: Txn, a: Attachment): nat {
    match t
    case Created(actor, id, input, _) =>
      if id == a.reportId && actor.userId == a.uploadedBy then multiset(input.attachments)[a.input] else 0
    case Mutated(actor, id, CleanerResolve(_, inputs)) =>
      if id == a.reportId && actor.userId == a.uploadedBy then multiset(inputs)[a.input] else 0
    case _ => 0
  }

  function TotalSent(ts: seq<Txn>, a: Attachment): nat {
    if ts == [] then 0 else TimesSent(ts[0], a) + TotalSent(ts[1..], a)
  }

  lemma {:induction false} StoredCount(before: seq<Attachment>, after: seq<Attachment>, id: ReportId, user: UserId,
                                       inputs: seq<AttachmentInput>, a: Attachment)
    requires Stored(before, after, id, user, inputs)
    ensures multiset(after)[a] == multiset(before)[a]
                                  + if id == a.reportId && user == a.uploadedBy then multiset(inputs)[a.input] else 0
    decreases |inputs|
  {
    if inputs == [] {
      assert after == before;
    } else {
      var n, k := |after| - 1, |inputs| - 1;
      StoredCount(before, after[..n], id, user, inputs[..k], a);
      LastApart([], after);
      LastApart([], inputs);
      assert after[n] == Attachment(id, user, inputs[k]);
    }
  }

  lemma AtomicCount(db: Db, dir: Directory, t: Txn, a: Attachment)
    requires KeyedById(db) && Atomic(db, dir, t).Success?
    ensures var after := Atomic(db, dir, t).value;
            multiset(after.attachments)[a] == multiset(db.attachments)[a] + TimesSent(t, a)
  {
    var after := Atomic(db, dir, t).value;
    match t
    case Created(actor, id, input, hint) =>
      var told := CreationOutcome(db, dir, actor, id, input, hint);
      StoredCount(db.attachments, after.attachments, id, actor.userId, input.attachments, a);
    case Mutated(actor, id, CleanerResolve(note, inputs)) =>
      ResolutionOutcome(db, dir, actor, id, note, inputs);
      StoredCount(db.attachments, after.attachments, id, actor.userId, inputs, a);
    case Mutated(actor, id, AssignCleaner(c, due, note)) => AssignmentOutcome(db, dir, actor, id, c, due, note);
    case Mutated(actor, id, CleanerAccept) => AcceptanceOutcome(db, dir, actor, id);
    case Mutated(actor, id, CleanerReject(reason)) => RefusalOutcome(db, dir, actor, id, reason);
    case Mutated(actor, id, CleanerStart) => StartOutcome(db, dir, actor, id);
    case Mutated(actor, id, SupervisorEndorse(note)) => EndorsementOutcome(db, dir, actor, id, note);
    case Mutated(actor, id, SupervisorReject(reason)) => RejectionOutcome(db, dir, actor, id, reason);
    case NumberTaken =>
  }

  lemma {:induction false} SerialCount(db: Db, dir: Directory, ts: seq<Txn>, a: Attachment)
    requires KeyedById(db) && Serial(db, dir, ts).Success?
    ensures multiset(Serial(db, dir, ts).value.attachments)[a] == multiset(db.attachments)[a] + TotalSent(ts, a)
    decreases |ts|
  {
    if ts == [] {
    } else {
      AtomicCount(db, dir, ts[0], a);
      AtomicAttachments(db, dir, ts[0]);
      SerialCount(Atomic(db, dir, ts[0]).value, dir, ts[1..], a);
    }
  }

  lemma {:induction false} SentBySome(ts: seq<Txn>, a: Attachment)
    ensures TotalSent(ts, a) > 0 <==> exists t :: t in ts && TimesSent(t, a) > 0
  {
    if ts == [] {
    } else {
      SentBySome(ts[1..], a);
      assert ts == [ts[0]] + ts[1..];
    }
  }

  /** Over every interleaving the evidence of a report is what its committed creation and resolutions sent, as often as
      they sent it: a row is stored if and only if one of them sent it. */
  lemma EvidenceIsWhatWasSent(dir: Directory, actions: seq<Action>, a: Attachment)
    ensures var db, log := Run(INITIAL, dir, actions).db, Log(INITIAL, dir, actions);
            && multiset(db.attachments)[a] == TotalSent(log, a)
            && (a in db.attachments <==> exists t :: t in log && TimesSent(t, a) > 0)
  {
    InitialInv(dir);
    Serialisable(INITIAL, dir, actions);
    SerialCount(EMPTY_DB, dir, Log(INITIAL, dir, actions), a);
    SentBySome(Log(INITIAL, dir, actions), a);
    assert a in Run(INITIAL, dir, actions).db.attachments
      <==> multiset(Run(INITIAL, dir, actions).db.attachments)[a] > 0;
  }
}
