/** Rows, events and the meaning of one committed v2 mutation
    (apps/api/src/v2/reports/reports.service.ts). */
module ReportModel {
  import opened Wrappers

  type UserId = string
  type ReportId = string

  datatype Status =
    | Submitted
    | Assigned
    | AcceptedByCleaner
    | InProgress
    | ResolvedByCleaner
    | EndorsedBySupervisor
    | RejectedByCleaner
    | RejectedBySupervisor
    | Closed
    | Cancelled

  datatype EventType =
    | ReportCreated
    | ReportAssigned
    | CleanerAcceptedTask
    | CleanerRejectedTask
    | CleanerStartedWork
    | CleanerSubmittedResolution
    | SupervisorEndorsed
    | SupervisorRejected

  datatype Role = Reporter | Supervisor | Cleaner | Admin

  datatype Roles = Roles(supervisor: bool, cleaner: bool, admin: bool)

  /** The authenticated caller. */
  datatype Actor = Actor(userId: UserId, roles: Roles)

  datatype Priority = Low | Medium | High

  /** Columns no mutation touches after creation. */
  datatype Content = Content(
    title: string,
    description: Option<string>,
    lat: Option<real>,
    lng: Option<real>,
    address: Option<string>,
    priority: Priority)

  datatype Report = Report(
    id: ReportId,
    reporter: UserId,
    supervisor: Option<UserId>,
    cleaner: Option<UserId>,
    content: Content,
    status: Status,
    version: nat)

  datatype Payload = Payload(
    status: Status,
    cleanerUserId: Option<UserId>,
    remark: Option<string>,
    due: Option<string>,
    title: Option<string>,
    outsideCampus: Option<bool>,
    landmark: Option<string>)

  datatype Event = Event(
    seqNo: nat,
    reportId: ReportId,
    eventType: EventType,
    actor: UserId,
    role: Role,
    payload: Payload)

  /** The fixed titles of the notification rows, one per wording. */
  datatype Headline =
    | NewTaskAssigned
    | YourReportAssigned
    | AcceptedTask
    | YourReportAccepted
    | RejectedTask
    | YourReportNeedsReassignment
    | StartedWork
    | YourReportStarted
    | TaskResolved
    | YourReportResolutionSubmitted
    | YourReportResolved
    | CompletionEndorsed
    | ResolutionRejected
    | YourReportNeedsMoreWork
    | NewReportSubmitted
    | YourReportSubmitted

  /** Either text taken from the report or the request, or the one fixed sentence. */
  datatype Body = Text(text: string) | EvidenceSubmitted

  datatype Notification = Notification(userId: UserId, reportId: ReportId, eventSeq: nat, title: Headline, body: Body)

  datatype AttachmentInput = AttachmentInput(url: string, kind: string, mimeType: Option<string>, size: Option<int>)

  datatype Attachment = Attachment(reportId: ReportId, uploadedBy: UserId, input: AttachmentInput)

  datatype Error = ReportNotFound | NotFound | Conflict | StaleVersion | DuplicateId

  /** The tables one tenant's workflow reads and writes. */
  datatype Db = Db(
    reports: map<ReportId, Report>,
    events: seq<Event>,
    notifications: seq<Notification>,
    attachments: seq<Attachment>,
    nextSeq: nat)

  const EMPTY_DB := Db(map[], [], [], [], 1)

  datatype Account = Account(id: UserId, role: Role)

  datatype RoleGrant = RoleGrant(userId: UserId, role: Role)

  /** User accounts (v1 role column) and v2 role rows; no workflow transaction changes them. */
  datatype Directory = Directory(accounts: seq<Account>, grants: seq<RoleGrant>)

  predicate HasAccount(dir: Directory, id: UserId) {
    exists i :: 0 <= i < |dir.accounts| && dir.accounts[i].id == id
  }

  datatype CreateInput = CreateInput(
    title: string,
    description: Option<string>,
    lat: Option<real>,
    lng: Option<real>,
    address: Option<string>,
    priority: Option<Priority>,
    attachments: seq<AttachmentInput>)

  /** What the location service answers for the coordinates; absent when the lookup throws. */
  datatype GeoHint = GeoHint(insideCampus: Option<bool>, landmark: Option<string>, suggestedAddress: Option<string>)

  datatype Mutation =
    | AssignCleaner(cleaner: UserId, due: Option<string>, note: Option<string>)
    | CleanerAccept
    | CleanerReject(reason: string)
    | CleanerStart
    | CleanerResolve(resolution: Option<string>, attachments: seq<AttachmentInput>)
    | SupervisorEndorse(remark: Option<string>)
    | SupervisorReject(why: string)

  /** A transaction that has read its row and passed its guard, but has not written yet. */
  datatype Pending = Pending(actor: Actor, existing: Report, mutation: Mutation)

  datatype Committed = Committed(db: Db, report: Report, event: Event)

  // ---- Guards -------------------------------------------------------------

  predicate IsCleanerAction(m: Mutation) {
    m.CleanerAccept? || m.CleanerReject? || m.CleanerStart? || m.CleanerResolve?
  }

  /** The statuses a mutation may start from. */
  function AllowedFrom(m: Mutation): set<Status> {
    match m
    case AssignCleaner(_, _, _) => {Submitted, RejectedBySupervisor, RejectedByCleaner, Assigned}
    case CleanerAccept => {Assigned}
    case CleanerReject(_) => {Assigned, AcceptedByCleaner}
    case CleanerStart => {AcceptedByCleaner, RejectedBySupervisor}
    case CleanerResolve(_, _) => {InProgress}
    case SupervisorEndorse(_) => {ResolvedByCleaner}
    case SupervisorReject(_) => {ResolvedByCleaner}
  }

  predicate Allowed(m: Mutation, actor: Actor, dir: Directory, row: Report) {
    && row.status in AllowedFrom(m)
    && (IsCleanerAction(m) ==> row.cleaner == Some(actor.userId))
    && (m.AssignCleaner? ==> HasAccount(dir, m.cleaner))
  }

  /** Which error a refused mutation answers with; ownership is checked before status. */
  function Refusal(m: Mutation, actor: Actor, row: Report): Error {
    if IsCleanerAction(m) && row.cleaner != Some(actor.userId) then NotFound
    else if row.status !in AllowedFrom(m) then Conflict
    else NotFound
  }

  /** The outcome of reading a row at the start of a transaction. */
  function Begin(db: Db, dir: Directory, actor: Actor, id: ReportId, m: Mutation): Result<Pending, Error> {
    if id !in db.reports then Failure(ReportNotFound)
    else if Allowed(m, actor, dir, db.reports[id]) then Success(Pending(actor, db.reports[id], m))
    else Failure(Refusal(m, actor, db.reports[id]))
  }

  // ---- Effects ------------------------------------------------------------

  function StatusAfter(m: Mutation): Status {
    match m
    case AssignCleaner(_, _, _) => Assigned
    case CleanerAccept => AcceptedByCleaner
    case CleanerReject(_) => RejectedByCleaner
    case CleanerStart => InProgress
    case CleanerResolve(_, _) => ResolvedByCleaner
    case SupervisorEndorse(_) => EndorsedBySupervisor
    case SupervisorReject(_) => RejectedBySupervisor
  }

  function RowAfter(m: Mutation, actor: Actor, row: Report): Report {
    row.(status := StatusAfter(m),
         version := row.version + 1,
         cleaner := if m.AssignCleaner? then Some(m.cleaner) else row.cleaner,
         supervisor := if IsCleanerAction(m) then row.supervisor else Some(actor.userId))
  }

  function EventTypeOf(m: Mutation): EventType {
    match m
    case AssignCleaner(_, _, _) => ReportAssigned
    case CleanerAccept => CleanerAcceptedTask
    case CleanerReject(_) => CleanerRejectedTask
    case CleanerStart => CleanerStartedWork
    case CleanerResolve(_, _) => CleanerSubmittedResolution
    case SupervisorEndorse(_) => SupervisorEndorsed
    case SupervisorReject(_) => SupervisorRejected
  }

  function StatusPayload(s: Status): Payload {
    Payload(s, None, None, None, None, None, None)
  }

  function PayloadOf(m: Mutation, status: Status): Payload {
    match m
    case AssignCleaner(c, due, note) => StatusPayload(status).(cleanerUserId := Some(c), due := due, remark := note)
    case CleanerReject(reason) => StatusPayload(status).(remark := Some(reason))
    case CleanerResolve(note, _) => StatusPayload(status).(remark := note)
    case SupervisorEndorse(note) => StatusPayload(status).(remark := note)
    case SupervisorReject(reason) => StatusPayload(status).(remark := Some(reason))
    case _ => StatusPayload(status)
  }

  function EventOf(m: Mutation, actor: Actor, row: Report, seqNo: nat): Event {
    Event(seqNo, row.id, EventTypeOf(m), actor.userId, if IsCleanerAction(m) then Cleaner else Supervisor,
          PayloadOf(m, row.status))
  }

  // ---- Notifications ------------------------------------------------------

  /** Order-preserving removal of repeats, as Array.from(new Set(xs)). */
  function Distinct(xs: seq<UserId>): seq<UserId> {
    if xs == [] then []
    else
      var rest := Distinct(xs[..|xs| - 1]);
      if xs[|xs| - 1] in rest then rest else rest + [xs[|xs| - 1]]
  }

  function NonEmpty(xs: seq<UserId>): seq<UserId> {
    if xs == [] then []
    else if xs[0] == "" then NonEmpty(xs[1..]) else [xs[0]] + NonEmpty(xs[1..])
  }

  function Without(xs: seq<UserId>, x: UserId): seq<UserId> {
    if xs == [] then []
    else if xs[0] == x then Without(xs[1..], x) else [xs[0]] + Without(xs[1..], x)
  }

  function UsersWithRole(dir: Directory, role: Role): seq<UserId> {
    Distinct(GrantedIds(dir.grants, role) + AccountIds(dir.accounts, role))
  }

  function GrantedIds(gs: seq<RoleGrant>, role: Role): seq<UserId> {
    if gs == [] then []
    else (if gs[0].role == role then [gs[0].userId] else []) + GrantedIds(gs[1..], role)
  }

  function AccountIds(xs: seq<Account>, role: Role): seq<UserId> {
    if xs == [] then []
    else (if xs[0].role == role then [xs[0].id] else []) + AccountIds(xs[1..], role)
  }

  function Notices(userIds: seq<UserId>, row: Report, eventSeq: nat, title: Headline, body: Body): seq<Notification> {
    var ids := Distinct(NonEmpty(userIds));
    seq(|ids|, i requires 0 <= i < |ids| => Notification(ids[i], row.id, eventSeq, title, body))
  }

  /** Nothing is sent for an absent party. */
  function NoticeTo(user: Option<UserId>, row: Report, eventSeq: nat, title: Headline, body: Body): seq<Notification> {
    if user.Some? then Notices([user.value], row, eventSeq, title, body) else []
  }

  /** The rows fanned out by one mutation: first the other party, then the reporter
      (an endorsement tells the reporter first). */
  function NoticesOf(m: Mutation, row: Report, s: nat): seq<Notification> {
    var t := Text(row.content.title);
    match m
    case AssignCleaner(c, _, _) =>
      Notices([c], row, s, NewTaskAssigned, t) + Notices([row.reporter], row, s, YourReportAssigned, t)
    case CleanerAccept =>
      NoticeTo(row.supervisor, row, s, AcceptedTask, t)
      + Notices([row.reporter], row, s, YourReportAccepted, t)
    case CleanerReject(reason) =>
      NoticeTo(row.supervisor, row, s, RejectedTask, Text(reason))
      + Notices([row.reporter], row, s, YourReportNeedsReassignment, Text(reason))
    case CleanerStart =>
      NoticeTo(row.supervisor, row, s, StartedWork, t)
      + Notices([row.reporter], row, s, YourReportStarted, t)
    case CleanerResolve(_, _) =>
      NoticeTo(row.supervisor, row, s, TaskResolved, EvidenceSubmitted)
      + Notices([row.reporter], row, s, YourReportResolutionSubmitted, t)
    case SupervisorEndorse(_) =>
      Notices([row.reporter], row, s, YourReportResolved, t)
      + NoticeTo(row.cleaner, row, s, CompletionEndorsed, t)
    case SupervisorReject(reason) =>
      NoticeTo(row.cleaner, row, s, ResolutionRejected, Text(reason))
      + Notices([row.reporter], row, s, YourReportNeedsMoreWork, Text(reason))
  }

  function Attached(inputs: seq<AttachmentInput>, id: ReportId, uploader: UserId): seq<Attachment> {
    seq(|inputs|, i requires 0 <= i < |inputs| => Attachment(id, uploader, inputs[i]))
  }

  /** An empty list inserts nothing. */
  function Uploads(inputs: seq<AttachmentInput>, id: ReportId, uploader: UserId): seq<Attachment> {
    if |inputs| > 0 then Attached(inputs, id, uploader) else []
  }

  function AttachmentsOf(m: Mutation, actor: Actor, id: ReportId): seq<Attachment> {
    if m.CleanerResolve? then Uploads(m.attachments, id, actor.userId) else []
  }

  // ---- Transactions -------------------------------------------------------

  /** The database after a mutation's effects on `row` are all written. */
  function Applied(db: Db, actor: Actor, row: Report, m: Mutation): Committed {
    var updated := RowAfter(m, actor, row);
    var event := EventOf(m, actor, updated, db.nextSeq);
    Committed(
      Db(db.reports[row.id := updated],
         db.events + [event],
         db.notifications + NoticesOf(m, updated, db.nextSeq),
         db.attachments + AttachmentsOf(m, actor, row.id),
         db.nextSeq + 1),
      updated,
      event)
  }

  /** The write half of a transaction: everything, or nothing when the version moved. */
  function Commit(db: Db, p: Pending): Result<Committed, Error> {
    var id := p.existing.id;
    if id !in db.reports then Failure(ReportNotFound)
    else if db.reports[id].version != p.existing.version then Failure(StaleVersion)
    else Success(Applied(db, p.actor, db.reports[id], p.mutation))
  }

  /** The location service is asked only when both coordinates are sent. */
  function Lookup(input: CreateInput, hint: Option<GeoHint>): Option<GeoHint> {
    if input.lat.Some? && input.lng.Some? then hint else None
  }

  /** `!address` is also true of an empty string. */
  function AddressOf(input: CreateInput, hint: Option<GeoHint>): Option<string> {
    if (input.address.None? || input.address.value == "")
       && hint.Some? && hint.value.suggestedAddress.Some? && hint.value.suggestedAddress.value != ""
    then hint.value.suggestedAddress else input.address
  }

  function NewReport(actor: Actor, id: ReportId, input: CreateInput, hint: Option<GeoHint>): Report {
    Report(id, actor.userId, None, None,
           Content(input.title, input.description, input.lat, input.lng, AddressOf(input, Lookup(input, hint)),
                   if input.priority.Some? then input.priority.value else Medium),
           Submitted, 1)
  }

  function CreatedPayload(row: Report, hint: Option<GeoHint>): Payload {
    StatusPayload(row.status).(
      title := Some(row.content.title),
      outsideCampus :=
        if hint.Some? && hint.value.insideCampus.Some? then Some(!hint.value.insideCampus.value) else None,
      landmark :=
        if hint.Some? && hint.value.landmark.Some? && hint.value.landmark.value != "" then hint.value.landmark
        else None)
  }

  function CreatedNotices(dir: Directory, row: Report, s: nat): seq<Notification> {
    Notices(Without(UsersWithRole(dir, Supervisor), row.reporter), row, s, NewReportSubmitted, Text(row.content.title))
    + Notices([row.reporter], row, s, YourReportSubmitted, Text(row.content.title))
  }

  /** `id` is the key the database generated; a collision violates the primary key. */
  function Create(db: Db, dir: Directory, actor: Actor, id: ReportId, input: CreateInput, hint: Option<GeoHint>)
    : Result<Committed, Error>
  {
    if id in db.reports then Failure(DuplicateId)
    else
      var row := NewReport(actor, id, input, hint);
      var event := Event(db.nextSeq, id, ReportCreated, actor.userId, Reporter,
                         CreatedPayload(row, Lookup(input, hint)));
      Success(Committed(
        Db(db.reports[id := row],
           db.events + [event],
           db.notifications + CreatedNotices(dir, row, db.nextSeq),
           db.attachments + Uploads(input.attachments, id, actor.userId),
           db.nextSeq + 1),
        row,
        event))
  }

  // ---- Facts about recipients ----------------------------------------------

  ghost predicate NoRepeats(xs: seq<UserId>) {
    forall i, j :: 0 <= i < j < |xs| ==> xs[i] != xs[j]
  }

  /** Removing repeats keeps every member, once. */
  lemma {:induction false} DistinctKeepsMembers(xs: seq<UserId>)
    ensures NoRepeats(Distinct(xs))
    ensures forall x :: x in Distinct(xs) <==> x in xs
  {
    if xs == [] {
    } else {
      DistinctKeepsMembers(xs[..|xs| - 1]);
      assert xs == xs[..|xs| - 1] + [xs[|xs| - 1]];
    }
  }

  lemma {:induction false} NonEmptyMembers(xs: seq<UserId>)
    ensures forall x :: x in NonEmpty(xs) <==> x in xs && x != ""
  {
    if xs == [] {
    } else {
      NonEmptyMembers(xs[1..]);
      assert xs == [xs[0]] + xs[1..];
    }
  }

  /** One call notifies each distinct non-empty user exactly once, about the event it was given. */
  lemma NoticesReachEachOnce(userIds: seq<UserId>, row: Report, s: nat, title: Headline, body: Body)
    ensures var ns := Notices(userIds, row, s, title, body);
            && (forall u :: (exists i :: 0 <= i < |ns| && ns[i].userId == u) <==> u in userIds && u != "")
            && (forall i, j :: 0 <= i < j < |ns| ==> ns[i].userId != ns[j].userId)
            && (forall i :: 0 <= i < |ns| ==> ns[i].eventSeq == s && ns[i].reportId == row.id)
  {
    var ids := Distinct(NonEmpty(userIds));
    NonEmptyMembers(userIds);
    DistinctKeepsMembers(NonEmpty(userIds));
    var ns := Notices(userIds, row, s, title, body);
    forall u | u in userIds && u != ""
      ensures exists i :: 0 <= i < |ns| && ns[i].userId == u
    {
      assert u in ids;
      var i :| 0 <= i < |ids| && ids[i] == u;
      assert ns[i].userId == u;
    }
  }
}
