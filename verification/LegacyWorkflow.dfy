/** The v1 report and cleaner-roster workflow (apps/api/src/domain/reports/reports.service.ts,
    apps/api/src/domain/cleaners/cleaners.service.ts), operations run one at a time. */
module LegacyWorkflow {
  import opened Strings
  import opened Wrappers

  type UserId = string
  type PublicId = string
  type CleanerId = string

  const RESOLVED := "Resolved"
  const REJECTED := "Rejected"
  const AWAITING_ENDORSEMENT := "Awaiting Endorsement"
  const ASSIGNED := "Assigned"
  const REPORTED := "Reported"
  const PENDING := "Pending"
  const SUBMITTED := "Submitted"

  /** The status column is free text; the named values are the ones the code tests for. */
  datatype Status =
    | Resolved | Rejected | AwaitingEndorsement | Assigned | Reported | Pending | Submitted
    | Free(text: string)

  function Named(text: string): Status {
    if text == RESOLVED then Resolved
    else if text == REJECTED then Rejected
    else if text == AWAITING_ENDORSEMENT then AwaitingEndorsement
    else if text == ASSIGNED then Assigned
    else if text == REPORTED then Reported
    else if text == PENDING then Pending
    else if text == SUBMITTED then Submitted
    else Free(text)
  }

  lemma NamedOutcomes(text: string)
    ensures Named(text) == Resolved <==> text == RESOLVED
    ensures Named(text) == Rejected <==> text == REJECTED
  {
    assert REJECTED[2] != RESOLVED[2];
  }

  datatype Role = PublicUser | SupervisorUser | CleanerUser | MasterUser

  datatype Actor = Actor(role: Role, userId: UserId, name: string)

  datatype User = User(role: Role, name: string)

  datatype Report = Report(
    status: Status,
    reporter: UserId,
    cleaner: Option<CleanerId>,
    cleanerName: Option<string>,
    supervisor: Option<UserId>,
    reviewed: bool,
    reviewer: Option<UserId>,
    notes: Option<string>)

  datatype Cleaner = Cleaner(name: string, workId: string, supervisor: Option<UserId>, task: Option<PublicId>,
                             busyUntil: Option<int>)

  datatype Coordinates = Absent | Malformed | Given

  /** The declared fields of an update request. */
  datatype Patch = Patch(status: Option<string>, cleaner: Option<CleanerId>, cleanerName: Option<string>,
                         notes: Option<string>, coordinates: Coordinates)

  datatype Error = NotFound | Forbidden | Invalid | DuplicateId

  datatype Db = Db(reports: map<PublicId, Report>, cleaners: map<CleanerId, Cleaner>)

  predicate IsOutcome(s: Status) {
    s == Resolved || s == Rejected
  }

  // ---- What each operation does -------------------------------------------------------

  /** An empty string is no request. */
  function Requested(sent: Option<string>): Option<Status> {
    if sent.None? || sent.value == "" then None else Some(Named(sent.value))
  }

  function ResolveNextStatus(existing: Report, requested: Option<Status>, actor: Option<Actor>)
    : Result<Option<Status>, Error>
  {
    if requested.None? || actor.None? then Success(requested)
    else if actor.value.role == CleanerUser && requested.value == Resolved then Success(Some(AwaitingEndorsement))
    else if actor.value.role == CleanerUser && requested.value == Rejected then Failure(Forbidden)
    else if requested.value == Rejected && existing.status != AwaitingEndorsement && existing.status != Rejected
    then Failure(Invalid)
    else Success(requested)
  }

  /** The row after an accepted patch whose status, if any, is settled. */
  function Patched(r: Report, status: Option<Status>, patch: Patch, actor: Option<Actor>): Report {
    var outcome := status.Some? && IsOutcome(status.value);
    var submitted := status == Some(AwaitingEndorsement);
    r.(status := if status.Some? then status.value else r.status,
       cleaner := if patch.cleaner.Some? then patch.cleaner else r.cleaner,
       cleanerName := if patch.cleanerName.Some? then patch.cleanerName else r.cleanerName,
       notes := if submitted then None else if patch.notes.Some? then patch.notes else r.notes,
       reviewed := outcome || (!submitted && r.reviewed),
       reviewer := if outcome then (if actor.Some? then Some(actor.value.userId) else None)
                   else if submitted then None else r.reviewer)
  }

  function Released(cleaners: map<CleanerId, Cleaner>, task: PublicId): map<CleanerId, Cleaner> {
    map c | c in cleaners ::
      if cleaners[c].task == Some(task) then cleaners[c].(task := None, busyUntil := None) else cleaners[c]
  }

  /** The status the patch object ends up with: the settled one when it is non-empty, else what was sent. */
  function StatusWritten(patch: Patch, settled: Option<Status>): Option<Status> {
    if settled.None? && patch.status.Some? then Some(Named(patch.status.value)) else settled
  }

  function Updated(db: Db, id: PublicId, patch: Patch, actor: Option<Actor>): Result<Db, Error> {
    if id !in db.reports then Failure(NotFound)
    else match ResolveNextStatus(db.reports[id], Requested(patch.status), actor)
      case Failure(e) => Failure(e)
      case Success(settled) =>
        if patch.coordinates == Malformed then Failure(Invalid)
        else
          var status := StatusWritten(patch, settled);
          Success(Db(db.reports[id := Patched(db.reports[id], status, patch, actor)],
                     if status == Some(Resolved) then Released(db.cleaners, id) else db.cleaners))
  }

  predicate IsAlias(s: Status) {
    s == Reported || s == Pending || s == Submitted
  }

  /** Blank text, like no text, is the first status, and so are its older names; other text is trimmed. */
  function CreatedStatus(sent: Option<string>): Status {
    if sent.None? || Trim(sent.value) == "" || IsAlias(Named(Trim(sent.value))) then Reported
    else Named(Trim(sent.value))
  }

  function Created(db: Db, id: PublicId, actor: Actor, sent: Option<string>): Result<Db, Error> {
    if actor.role == MasterUser then Failure(Forbidden)
    else if id in db.reports then Failure(DuplicateId)
    else Success(db.(reports := db.reports[id :=
           Report(CreatedStatus(sent), actor.userId, None, None, None, false, None, None)]))
  }

  function ResolveSupervisor(users: map<UserId, User>, actor: Actor, sent: Option<UserId>)
    : Result<(UserId, string), Error>
  {
    if actor.role == SupervisorUser then Success((actor.userId, actor.name))
    else if sent.None? || sent.value == "" || sent.value !in users || users[sent.value].role != SupervisorUser
    then Failure(Invalid)
    else Success((sent.value, users[sent.value].name))
  }

  /** A stored supervisor id that is empty counts as none. */
  predicate WorksFor(c: Cleaner, supervisor: UserId) {
    c.supervisor.None? || c.supervisor.value == "" || c.supervisor.value == supervisor
  }

  function AssignedTo(db: Db, users: map<UserId, User>, actor: Actor, cid: CleanerId, id: PublicId,
                      sent: Option<UserId>, busyUntil: int): Result<Db, Error>
  {
    match ResolveSupervisor(users, actor, sent)
    case Failure(e) => Failure(e)
    case Success(sup) =>
      if cid !in db.cleaners then Failure(NotFound)
      else if !WorksFor(db.cleaners[cid], sup.0) then Failure(Forbidden)
      else
        var c := db.cleaners[cid];
        Success(Db(
          if id !in db.reports then db.reports
          else db.reports[id := db.reports[id].(status := Assigned, cleaner := Some(cid), cleanerName := Some(c.name),
                                                supervisor := Some(sup.0))],
          db.cleaners[cid := c.(supervisor := Some(sup.0), task := Some(id), busyUntil := Some(busyUntil))]))
  }

  function CleanerAdded(db: Db, users: map<UserId, User>, actor: Actor, cid: CleanerId, name: string, workId: string,
                        sent: Option<UserId>): Result<Db, Error>
  {
    match ResolveSupervisor(users, actor, sent)
    case Failure(e) => Failure(e)
    case Success(sup) =>
      if cid in db.cleaners then Failure(DuplicateId)
      else Success(db.(cleaners := db.cleaners[cid := Cleaner(name, workId, Some(sup.0), None, None)]))
  }

  function Reassigned(db: Db, users: map<UserId, User>, actor: Actor, cid: CleanerId, sent: Option<UserId>)
    : Result<Db, Error>
  {
    match ResolveSupervisor(users, actor, sent)
    case Failure(e) => Failure(e)
    case Success(sup) =>
      if cid !in db.cleaners then Failure(NotFound)
      else Success(db.(cleaners := db.cleaners[cid := db.cleaners[cid].(supervisor := Some(sup.0))]))
  }

  ghost predicate Freed(before: Cleaner, after: Cleaner) {
    && after.task.None? && after.busyUntil.None?
    && after.name == before.name && after.workId == before.workId && after.supervisor == before.supervisor
  }

  /** Nobody holds the task afterwards; whoever held it is free and otherwise as before, and nobody else changes. */
  ghost predicate FreedFrom(before: map<CleanerId, Cleaner>, after: map<CleanerId, Cleaner>, task: PublicId) {
    && after.Keys == before.Keys
    && (forall c :: c in after ==> after[c].task != Some(task))
    && (forall c :: c in after && before[c].task == Some(task) ==> Freed(before[c], after[c]))
    && (forall c :: c in after && before[c].task != Some(task) ==> after[c] == before[c])
  }

  /** That pins down the whole roster. */
  lemma AllFreed(before: map<CleanerId, Cleaner>, after: map<CleanerId, Cleaner>, task: PublicId)
    requires FreedFrom(before, after, task)
    ensures after == Released(before, task)
  {}

  // ---- The services, in place ------------------------------------------------------------

  ghost predicate Settles(before: Db, after: Db, spec: Result<Db, Error>, r: Option<Error>) {
    match spec
    case Success(db) => after == db && r == None
    case Failure(e) => after == before && r == Some(e)
  }

  class Workflow {
    const users: map<UserId, User>
    var reports: map<PublicId, Report>
    var cleaners: map<CleanerId, Cleaner>

    ghost function State(): Db
      reads this
    {
      Db(reports, cleaners)
    }

    constructor (users: map<UserId, User>)
      ensures State() == Db(map[], map[]) && this.users == users
    {
      this.users, reports, cleaners := users, map[], map[];
    }

    method ClearAssignmentByTaskId(task: PublicId)
      modifies this`cleaners
      ensures FreedFrom(old(cleaners), cleaners, task)
    {
      cleaners := map c | c in cleaners ::
        if cleaners[c].task == Some(task) then cleaners[c].(task := None, busyUntil := None) else cleaners[c];
    }

    method Create(id: PublicId, actor: Actor, sent: Option<string>) returns (r: Option<Error>)
      modifies this
      ensures Settles(old(State()), State(), Created(old(State()), id, actor, sent), r)
    {
      if actor.role == MasterUser { return Some(Forbidden); }
      var status := Reported;
      if sent.Some? {
        var trimmed := Trim(sent.value);
        if trimmed != "" && trimmed != REPORTED && trimmed != PENDING && trimmed != SUBMITTED {
          status := Named(trimmed);
        }
      }
      if id in reports { return Some(DuplicateId); }
      reports := reports[id := Report(status, actor.userId, None, None, None, false, None, None)];
      r := None;
    }

    /** The row an accepted patch makes, field by field. */
    method CompletePatch(existing: Report, status: Option<Status>, patch: Patch, actor: Option<Actor>)
      returns (row: Report)
      ensures row == Patched(existing, status, patch, actor)
    {
      row := existing;
      if patch.cleaner.Some? { row := row.(cleaner := patch.cleaner); }
      if patch.cleanerName.Some? { row := row.(cleanerName := patch.cleanerName); }
      if patch.notes.Some? { row := row.(notes := patch.notes); }
      if status == Some(AwaitingEndorsement) {
        row := row.(reviewed := false, reviewer := None, notes := None);
      }
      if status == Some(Resolved) || status == Some(Rejected) {
        row := row.(reviewed := true, reviewer := if actor.Some? then Some(actor.value.userId) else None);
      }
      if status.Some? { row := row.(status := status.value); }
    }

    /** The patch is completed, the cleaners are released, and then the row is written. */
    method Update(id: PublicId, patch: Patch, actor: Option<Actor>) returns (r: Option<Error>)
      modifies this
      ensures Settles(old(State()), State(), Updated(old(State()), id, patch, actor), r)
    {
      if id !in reports { return Some(NotFound); }
      var settled := ResolveNextStatus(reports[id], Requested(patch.status), actor);
      if settled.Failure? { return Some(settled.error); }
      var status := settled.value;
      if status.None? && patch.status.Some? { status := Some(Named(patch.status.value)); }
      assert status == StatusWritten(patch, settled.value);
      if patch.coordinates == Malformed { return Some(Invalid); }
      var row := CompletePatch(reports[id], status, patch, actor);
      if status == Some(Resolved) {
        ghost var held := cleaners;
        ClearAssignmentByTaskId(id);
        AllFreed(held, cleaners, id);
      }
      reports := reports[id := row];
      r := None;
    }

    method AssignToReport(actor: Actor, cid: CleanerId, id: PublicId, sent: Option<UserId>, busyUntil: int)
      returns (r: Option<Error>)
      modifies this
      ensures Settles(old(State()), State(), AssignedTo(old(State()), users, actor, cid, id, sent, busyUntil), r)
    {
      var supervisor := ResolveSupervisor(users, actor, sent);
      if supervisor.Failure? { return Some(supervisor.error); }
      var sid := supervisor.value.0;
      if cid !in cleaners { return Some(NotFound); }
      var existing := cleaners[cid];
      if existing.supervisor.Some? && existing.supervisor.value != "" && existing.supervisor.value != sid {
        return Some(Forbidden);
      }
      cleaners := cleaners[cid := existing.(supervisor := Some(sid), task := Some(id), busyUntil := Some(busyUntil))];
      if id in reports {
        reports := reports[id := reports[id].(cleaner := Some(cid), cleanerName := Some(existing.name),
                                              supervisor := Some(sid), status := Assigned)];
      }
      r := None;
    }

    method CreateCleaner(actor: Actor, cid: CleanerId, name: string, workId: string, sent: Option<UserId>)
      returns (r: Option<Error>)
      modifies this`cleaners
      ensures Settles(old(State()), State(), CleanerAdded(old(State()), users, actor, cid, name, workId, sent), r)
    {
      var supervisor := ResolveSupervisor(users, actor, sent);
      if supervisor.Failure? { return Some(supervisor.error); }
      if cid in cleaners { return Some(DuplicateId); }
      cleaners := cleaners[cid := Cleaner(name, workId, Some(supervisor.value.0), None, None)];
      r := None;
    }

    method ReassignSupervisor(actor: Actor, cid: CleanerId, sent: Option<UserId>) returns (r: Option<Error>)
      modifies this`cleaners
      ensures Settles(old(State()), State(), Reassigned(old(State()), users, actor, cid, sent), r)
    {
      var supervisor := ResolveSupervisor(users, actor, sent);
      if supervisor.Failure? { return Some(supervisor.error); }
      if cid !in cleaners { return Some(NotFound); }
      cleaners := cleaners[cid := cleaners[cid].(supervisor := Some(supervisor.value.0))];
      r := None;
    }
  }

  // ---- Runs and their invariant -----------------------------------------------------------

  datatype Op =
    | Create(id: PublicId, actor: Actor, sent: Option<string>)
    | Update(id: PublicId, patch: Patch, updater: Option<Actor>)
    | Assign(actor: Actor, cid: CleanerId, id: PublicId, supervisor: Option<UserId>, busyUntil: int)
    | AddCleaner(actor: Actor, cid: CleanerId, name: string, workId: string, supervisor: Option<UserId>)
    | Reassign(actor: Actor, cid: CleanerId, supervisor: Option<UserId>)

  function Attempt(db: Db, users: map<UserId, User>, op: Op): Result<Db, Error> {
    match op
    case Create(id, actor, sent) => Created(db, id, actor, sent)
    case Update(id, patch, actor) => Updated(db, id, patch, actor)
    case Assign(actor, cid, id, sup, until) => AssignedTo(db, users, actor, cid, id, sup, until)
    case AddCleaner(actor, cid, name, workId, sup) => CleanerAdded(db, users, actor, cid, name, workId, sup)
    case Reassign(actor, cid, sup) => Reassigned(db, users, actor, cid, sup)
  }

  function Step(db: Db, users: map<UserId, User>, op: Op): Db {
    var r := Attempt(db, users, op);
    if r.Success? then r.value else db
  }

  function Run(db: Db, users: map<UserId, User>, ops: seq<Op>): Db
    decreases |ops|
  {
    if ops == [] then db else Run(Step(db, users, ops[0]), users, ops[1..])
  }

  /** Nobody is busy with a report that is already resolved. */
  ghost predicate NoneBusyWithResolved(db: Db) {
    forall c :: c in db.cleaners && db.cleaners[c].task.Some? && db.cleaners[c].task.value in db.reports ==>
      db.reports[db.cleaners[c].task.value].status != Resolved
  }

  /** Outcomes carry a reviewer who is not a cleaner; a report waiting for one carries none. */
  ghost predicate ReviewRecorded(users: map<UserId, User>, r: Report) {
    && (IsOutcome(r.status) ==>
          r.reviewed && r.reviewer.Some? && r.reviewer.value in users && users[r.reviewer.value].role != CleanerUser)
    && (r.status == AwaitingEndorsement ==> !r.reviewed && r.reviewer.None?)
  }

  ghost predicate Consistent(db: Db, users: map<UserId, User>) {
    && NoneBusyWithResolved(db)
    && forall id :: id in db.reports ==> ReviewRecorded(users, db.reports[id])
  }

  /** The caller is who the account table says. */
  predicate Authentic(users: map<UserId, User>, a: Actor) {
    a.userId in users && users[a.userId].role == a.role
  }

  predicate IsOutcomeText(text: string) {
    text == RESOLVED || text == REJECTED
  }

  /** The text sent with a creation is an outcome between white space. */
  ghost predicate SendsOutcome(sent: Option<string>) {
    sent.Some? && (Padded(sent.value, RESOLVED) || Padded(sent.value, REJECTED))
  }

  lemma OutcomeIffSent(sent: Option<string>)
    ensures IsOutcome(CreatedStatus(sent)) <==> SendsOutcome(sent)
  {
    if sent.Some? {
      NamedOutcomes(Trim(sent.value));
      TrimIffPadded(sent.value, RESOLVED);
      TrimIffPadded(sent.value, REJECTED);
    }
  }

  /** Requests as the routes make them: an authenticated updater, and no outcome sent as a creation status. */
  ghost predicate Routed(users: map<UserId, User>, op: Op) {
    && (op.Update? ==> op.updater.Some? && Authentic(users, op.updater.value))
    && (op.Create? ==> !SendsOutcome(op.sent))
  }

  lemma ReleasedHoldsNone(cleaners: map<CleanerId, Cleaner>, task: PublicId)
    ensures forall c :: c in Released(cleaners, task) ==>
              Released(cleaners, task)[c].task != Some(task)
              && (Released(cleaners, task)[c].task.Some? ==> Released(cleaners, task)[c].task == cleaners[c].task)
  {}

  lemma StepStaysConsistent(db: Db, users: map<UserId, User>, op: Op)
    requires Consistent(db, users) && Routed(users, op)
    ensures Consistent(Step(db, users, op), users)
  {
    var after := Step(db, users, op);
    match op
    case Update(id, patch, actor) =>
      ReleasedHoldsNone(db.cleaners, id);
      UpdateStaysConsistent(db, users, id, patch, actor.value);
    case Create(_, _, sent) =>
      OutcomeIffSent(sent);
    case _ =>
  }

  lemma UpdateStaysConsistent(db: Db, users: map<UserId, User>, id: PublicId, patch: Patch, actor: Actor)
    requires Consistent(db, users) && Authentic(users, actor)
    ensures Updated(db, id, patch, Some(actor)).Success? ==>
              Consistent(Updated(db, id, patch, Some(actor)).value, users)
  {
    if Updated(db, id, patch, Some(actor)).Success? {
      var after := Updated(db, id, patch, Some(actor)).value;
      ReleasedHoldsNone(db.cleaners, id);
      assert ReviewRecorded(users, db.reports[id]);
      assert ReviewRecorded(users, after.reports[id]);
    }
  }

  /** Over every run: no cleaner holds a resolved report, outcomes name a non-cleaner reviewer, and a report awaiting
      endorsement names none. */
  lemma {:induction false} WorkflowStaysConsistent(db: Db, users: map<UserId, User>, ops: seq<Op>)
    requires Consistent(db, users)
    requires forall i :: 0 <= i < |ops| ==> Routed(users, ops[i])
    ensures Consistent(Run(db, users, ops), users)
    decreases |ops|
  {
    if ops == [] {
    } else {
      StepStaysConsistent(db, users, ops[0]);
      WorkflowStaysConsistent(Step(db, users, ops[0]), users, ops[1..]);
    }
  }

  /** The creation route passes any other status through, and an outcome sent there is the one creation that breaks
      the record. */
  lemma CreationConsistentIff(db: Db, users: map<UserId, User>, id: PublicId, actor: Actor, sent: Option<string>)
    requires Consistent(db, users) && Created(db, id, actor, sent).Success?
    ensures Consistent(Created(db, id, actor, sent).value, users) <==> !SendsOutcome(sent)
  {
    var after := Created(db, id, actor, sent).value;
    OutcomeIffSent(sent);
    if SendsOutcome(sent) {
      assert !ReviewRecorded(users, after.reports[id]);
    }
  }

  /** Without an actor the record survives an accepted update exactly when the update sets no outcome; here the text is
      not trimmed. */
  lemma AnonymousUpdateConsistentIff(db: Db, users: map<UserId, User>, id: PublicId, patch: Patch)
    requires Consistent(db, users) && Updated(db, id, patch, None).Success?
    ensures Consistent(Updated(db, id, patch, None).value, users)
            <==> patch.status.None? || !IsOutcomeText(patch.status.value)
  {
    var after := Updated(db, id, patch, None).value;
    ReleasedHoldsNone(db.cleaners, id);
    assert ReviewRecorded(users, db.reports[id]);
    if patch.status.Some? { NamedOutcomes(patch.status.value); }
    if patch.status.Some? && IsOutcomeText(patch.status.value) {
      assert !ReviewRecorded(users, after.reports[id]);
    } else {
      assert ReviewRecorded(users, after.reports[id]);
    }
  }

  // ---- What cleaners cannot do ------------------------------------------------------------

  predicate ByCleaner(op: Op) {
    op.Update? && op.updater.Some? && op.updater.value.role == CleanerUser
  }

  /** Cleaner updates alone never bring a report to an outcome, whatever they send. */
  lemma {:induction false} CleanersNeverDecide(db: Db, users: map<UserId, User>, ops: seq<Op>, id: PublicId)
    requires forall i :: 0 <= i < |ops| ==> ByCleaner(ops[i])
    requires id in db.reports && !IsOutcome(db.reports[id].status)
    ensures id in Run(db, users, ops).reports && !IsOutcome(Run(db, users, ops).reports[id].status)
    decreases |ops|
  {
    if ops == [] {
    } else {
      assert ByCleaner(ops[0]);
      CleanersNeverDecide(Step(db, users, ops[0]), users, ops[1..], id);
    }
  }

  /** A report becomes rejected only from awaiting endorsement, and only by a supervisor, master or public account. */
  lemma RejectionFollowsSubmission(db: Db, users: map<UserId, User>, op: Op, id: PublicId)
    requires Routed(users, op) && id in db.reports && db.reports[id].status != Rejected
    requires Step(db, users, op).reports[id].status == Rejected
    ensures db.reports[id].status == AwaitingEndorsement
    ensures op.Update? && op.updater.value.role != CleanerUser
    ensures Step(db, users, op).reports[id].reviewer == Some(op.updater.value.userId)
  {}
}
