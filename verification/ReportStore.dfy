/** The v2 report transactions as the service performs them, write by write
    (apps/api/src/v2/reports/reports.service.ts). Each is split where the database
    may interleave others: `Begin` reads the row and checks it, a `Commit...` method
    does the version-guarded write and everything after it. */
module ReportStore {
  import opened Sequences
  import opened Wrappers
  import opened ReportModel
  import Outcomes

  /** Columns a mutation writes; an absent column is left alone. */
  datatype Patch = Patch(status: Status, cleaner: Option<UserId>, supervisor: Option<UserId>)

  datatype MutationResult = MutationResult(report: Report, event: Event, cursor: nat)

  function Patched(row: Report, p: Patch): Report {
    row.(status := p.status,
         cleaner := if p.cleaner.Some? then p.cleaner else row.cleaner,
         supervisor := if p.supervisor.Some? then p.supervisor else row.supervisor,
         version := row.version + 1)
  }

  /** What a transaction must leave behind: the committed tables, or the old ones untouched. */
  ghost predicate Settles(before: Db, after: Db, spec: Result<Committed, Error>, r: Result<MutationResult, Error>) {
    match spec
    case Success(c) => after == c.db && r == Success(MutationResult(c.report, c.event, c.event.seqNo))
    case Failure(e) => after == before && r == Failure(e)
  }

  class ReportStore {
    const dir: Directory
    var reports: map<ReportId, Report>
    var events: seq<Event>
    var notifications: seq<Notification>
    var attachments: seq<Attachment>
    var nextSeq: nat

    ghost function Db(): Db
      reads this
    {
      ReportModel.Db.Db(reports, events, notifications, attachments, nextSeq)
    }

    /** Rows are kept under their own id. */
    ghost predicate Valid()
      reads this
    {
      forall id :: id in reports ==> reports[id].id == id
    }

    constructor (dir: Directory)
      ensures Valid()
      ensures Db() == EMPTY_DB && this.dir == dir
    {
      this.dir := dir;
      reports, events, notifications, attachments, nextSeq := map[], [], [], [], 1;
    }

    method CreateEvent(id: ReportId, eventType: EventType, actor: UserId, role: Role, payload: Payload)
      returns (e: Event)
      modifies this`events, this`nextSeq
      ensures e == Event(old(nextSeq), id, eventType, actor, role, payload)
      ensures events == old(events) + [e] && nextSeq == old(nextSeq) + 1
    {
      e := Event(nextSeq, id, eventType, actor, role, payload);
      events := events + [e];
      nextSeq := nextSeq + 1;
    }

    method NotifyUsers(userIds: seq<UserId>, row: Report, eventSeq: nat, title: Headline, body: Body)
      modifies this`notifications
      ensures notifications == old(notifications) + Notices(userIds, row, eventSeq, title, body)
    {
      var ids := Distinct(NonEmpty(userIds));
      if |ids| == 0 { return; }
      var rows := [];
      for i := 0 to |ids|
        invariant |rows| == i
        invariant forall k :: 0 <= k < i ==> rows[k] == Notification(ids[k], row.id, eventSeq, title, body)
      {
        rows := rows + [Notification(ids[i], row.id, eventSeq, title, body)];
      }
      assert rows == Notices(userIds, row, eventSeq, title, body);
      notifications := notifications + rows;
    }

    method AttachAll(inputs: seq<AttachmentInput>, id: ReportId, uploader: UserId)
      modifies this`attachments
      ensures attachments == old(attachments) + Uploads(inputs, id, uploader)
      ensures Outcomes.Stored(old(attachments), attachments, id, uploader, inputs)
    {
      if |inputs| > 0 {
        attachments := attachments + Attached(inputs, id, uploader);
      }
    }

    /** Writes only the row whose version is the expected one; says why when there is none. */
    method BumpVersionOrThrow(id: ReportId, expectedVersion: nat, patch: Patch) returns (r: Result<Report, Error>)
      modifies this`reports
      ensures id !in old(reports) ==> r == Failure(ReportNotFound)
      ensures id in old(reports) && old(reports)[id].version != expectedVersion ==> r == Failure(StaleVersion)
      ensures r.Failure? ==> reports == old(reports)
      ensures id in old(reports) && old(reports)[id].version == expectedVersion ==>
                r == Success(Patched(old(reports)[id], patch)) && reports == old(reports)[id := r.value]
    {
      var count := 0;
      if id in reports && reports[id].version == expectedVersion {
        reports := reports[id := Patched(reports[id], patch)];
        count := 1;
      }
      if count == 0 {
        if id !in reports { return Failure(ReportNotFound); }
        return Failure(StaleVersion);
      }
      r := Success(reports[id]);
    }

    /** The read and the guards at the top of each mutation. */
    method Begin(actor: Actor, id: ReportId, m: Mutation) returns (r: Result<Pending, Error>)
      ensures r == ReportModel.Begin(Db(), dir, actor, id, m)
      ensures match Outcomes.WhyRefused(Db(), dir, actor, id, m)
              case Some(e) => r == Failure(e)
              case None => id in reports && r == Success(Pending(actor, reports[id], m))
    {
      Outcomes.BeginAnswers(Db(), dir, actor, id, m);
      if id !in reports { return Failure(ReportNotFound); }
      var existing := reports[id];
      match m
      case AssignCleaner(cleaner, _, _) =>
        if existing.status !in {Submitted, RejectedBySupervisor, RejectedByCleaner, Assigned} {
          return Failure(Conflict);
        }
        if !HasAccount(dir, cleaner) { return Failure(NotFound); }
        return Success(Pending(actor, existing, m));
      case CleanerAccept =>
        if existing.cleaner != Some(actor.userId) { return Failure(NotFound); }
        if existing.status != Assigned { return Failure(Conflict); }
        return Success(Pending(actor, existing, m));
      case CleanerReject(_) =>
        if existing.cleaner != Some(actor.userId) { return Failure(NotFound); }
        if existing.status !in {Assigned, AcceptedByCleaner} { return Failure(Conflict); }
        return Success(Pending(actor, existing, m));
      case CleanerStart =>
        if existing.cleaner != Some(actor.userId) { return Failure(NotFound); }
        if existing.status !in {AcceptedByCleaner, RejectedBySupervisor} { return Failure(Conflict); }
        return Success(Pending(actor, existing, m));
      case CleanerResolve(_, _) =>
        if existing.cleaner != Some(actor.userId) { return Failure(NotFound); }
        if existing.status != InProgress { return Failure(Conflict); }
        return Success(Pending(actor, existing, m));
      case SupervisorEndorse(_) =>
        if existing.status != ResolvedByCleaner { return Failure(Conflict); }
        return Success(Pending(actor, existing, m));
      case SupervisorReject(_) =>
        if existing.status != ResolvedByCleaner { return Failure(Conflict); }
        return Success(Pending(actor, existing, m));
    }

    method CommitAssign(actor: Actor, existing: Report, cleaner: UserId, due: Option<string>, note: Option<string>)
      returns (r: Result<MutationResult, Error>)
      requires Valid()
      modifies this
      ensures Valid()
      ensures Settles(old(Db()), Db(),
                      Commit(old(Db()), Pending(actor, existing, AssignCleaner(cleaner, due, note))), r)
    {
      var patch := Patch(Assigned, Some(cleaner), Some(actor.userId));
      var bumped := BumpVersionOrThrow(existing.id, existing.version, patch);
      if bumped.Failure? { return Failure(bumped.error); }
      var report := bumped.value;
      ghost var m := AssignCleaner(cleaner, due, note);
      assert report == RowAfter(m, actor, old(reports)[existing.id]);
      var event := CreateEvent(report.id, ReportAssigned, actor.userId, Supervisor,
                               Payload(report.status, Some(cleaner), note, due, None, None, None));
      assert event == EventOf(m, actor, report, old(nextSeq));
      NotifyUsers([cleaner], report, event.seqNo, NewTaskAssigned, Text(report.content.title));
      NotifyUsers([report.reporter], report, event.seqNo, YourReportAssigned, Text(report.content.title));
      ghost var first :=
        Notices([cleaner], report, event.seqNo, NewTaskAssigned, Text(report.content.title));
      ghost var second :=
        Notices([report.reporter], report, event.seqNo, YourReportAssigned, Text(report.content.title));
      ConcatAssociates(old(notifications), first, second);
      assert notifications == old(notifications) + NoticesOf(m, report, event.seqNo);
      r := Success(MutationResult(report, event, event.seqNo));
    }

    method CommitAccept(actor: Actor, existing: Report) returns (r: Result<MutationResult, Error>)
      requires Valid()
      modifies this
      ensures Valid()
      ensures Settles(old(Db()), Db(), Commit(old(Db()), Pending(actor, existing, CleanerAccept)), r)
    {
      var bumped := BumpVersionOrThrow(existing.id, existing.version, Patch(AcceptedByCleaner, None, None));
      if bumped.Failure? { return Failure(bumped.error); }
      var report := bumped.value;
      ghost var m := CleanerAccept;
      assert report == RowAfter(m, actor, old(reports)[existing.id]);
      var event := CreateEvent(report.id, CleanerAcceptedTask, actor.userId, Cleaner, StatusPayload(report.status));
      assert event == EventOf(m, actor, report, old(nextSeq));
      if report.supervisor.Some? {
        NotifyUsers([report.supervisor.value], report, event.seqNo, AcceptedTask, Text(report.content.title));
      }
      NotifyUsers([report.reporter], report, event.seqNo, YourReportAccepted, Text(report.content.title));
      ghost var first :=
        NoticeTo(report.supervisor, report, event.seqNo, AcceptedTask, Text(report.content.title));
      ghost var second :=
        Notices([report.reporter], report, event.seqNo, YourReportAccepted, Text(report.content.title));
      ConcatAssociates(old(notifications), first, second);
      assert notifications == old(notifications) + NoticesOf(m, report, event.seqNo);
      r := Success(MutationResult(report, event, event.seqNo));
    }

    method CommitCleanerReject(actor: Actor, existing: Report, reason: string)
      returns (r: Result<MutationResult, Error>)
      requires Valid()
      modifies this
      ensures Valid()
      ensures Settles(old(Db()), Db(), Commit(old(Db()), Pending(actor, existing, CleanerReject(reason))), r)
    {
      var bumped := BumpVersionOrThrow(existing.id, existing.version, Patch(RejectedByCleaner, None, None));
      if bumped.Failure? { return Failure(bumped.error); }
      var report := bumped.value;
      ghost var m := CleanerReject(reason);
      assert report == RowAfter(m, actor, old(reports)[existing.id]);
      var event := CreateEvent(report.id, CleanerRejectedTask, actor.userId, Cleaner,
                               StatusPayload(report.status).(remark := Some(reason)));
      assert event == EventOf(m, actor, report, old(nextSeq));
      if report.supervisor.Some? {
        NotifyUsers([report.supervisor.value], report, event.seqNo, RejectedTask, Text(reason));
      }
      NotifyUsers([report.reporter], report, event.seqNo, YourReportNeedsReassignment, Text(reason));
      ghost var first :=
        NoticeTo(report.supervisor, report, event.seqNo, RejectedTask, Text(reason));
      ghost var second :=
        Notices([report.reporter], report, event.seqNo, YourReportNeedsReassignment, Text(reason));
      ConcatAssociates(old(notifications), first, second);
      assert notifications == old(notifications) + NoticesOf(m, report, event.seqNo);
      r := Success(MutationResult(report, event, event.seqNo));
    }

    method CommitStart(actor: Actor, existing: Report) returns (r: Result<MutationResult, Error>)
      requires Valid()
      modifies this
      ensures Valid()
      ensures Settles(old(Db()), Db(), Commit(old(Db()), Pending(actor, existing, CleanerStart)), r)
    {
      var bumped := BumpVersionOrThrow(existing.id, existing.version, Patch(InProgress, None, None));
      if bumped.Failure? { return Failure(bumped.error); }
      var report := bumped.value;
      ghost var m := CleanerStart;
      assert report == RowAfter(m, actor, old(reports)[existing.id]);
      var event := CreateEvent(report.id, CleanerStartedWork, actor.userId, Cleaner, StatusPayload(report.status));
      assert event == EventOf(m, actor, report, old(nextSeq));
      if report.supervisor.Some? {
        NotifyUsers([report.supervisor.value], report, event.seqNo, StartedWork, Text(report.content.title));
      }
      NotifyUsers([report.reporter], report, event.seqNo, YourReportStarted, Text(report.content.title));
      ghost var first :=
        NoticeTo(report.supervisor, report, event.seqNo, StartedWork, Text(report.content.title));
      ghost var second :=
        Notices([report.reporter], report, event.seqNo, YourReportStarted, Text(report.content.title));
      ConcatAssociates(old(notifications), first, second);
      assert notifications == old(notifications) + NoticesOf(m, report, event.seqNo);
      r := Success(MutationResult(report, event, event.seqNo));
    }

    /** The evidence rows are inserted before the version check, so a stale version has to undo them. */
    method CommitResolve(actor: Actor, existing: Report, note: Option<string>, inputs: seq<AttachmentInput>)
      returns (r: Result<MutationResult, Error>)
      requires Valid()
      modifies this
      ensures Valid()
      ensures Settles(old(Db()), Db(), Commit(old(Db()), Pending(actor, existing, CleanerResolve(note, inputs))), r)
      ensures r.Success? ==> Outcomes.Stored(old(attachments), attachments, existing.id, actor.userId, inputs)
      ensures r.Failure? ==> attachments == old(attachments)
    {
      var saved := attachments;
      AttachAll(inputs, existing.id, actor.userId);
      ghost var m := CleanerResolve(note, inputs);
      assert attachments == saved + AttachmentsOf(m, actor, existing.id);
      var bumped := BumpVersionOrThrow(existing.id, existing.version, Patch(ResolvedByCleaner, None, None));
      if bumped.Failure? {
        attachments := saved;
        return Failure(bumped.error);
      }
      var report := bumped.value;
      assert report == RowAfter(m, actor, old(reports)[existing.id]);
      var event := CreateEvent(report.id, CleanerSubmittedResolution, actor.userId, Cleaner,
                               StatusPayload(report.status).(remark := note));
      assert event == EventOf(m, actor, report, old(nextSeq));
      if report.supervisor.Some? {
        NotifyUsers([report.supervisor.value], report, event.seqNo, TaskResolved, EvidenceSubmitted);
      }
      NotifyUsers([report.reporter], report, event.seqNo, YourReportResolutionSubmitted, Text(report.content.title));
      ghost var first :=
        NoticeTo(report.supervisor, report, event.seqNo, TaskResolved, EvidenceSubmitted);
      ghost var second :=
        Notices([report.reporter], report, event.seqNo, YourReportResolutionSubmitted, Text(report.content.title));
      ConcatAssociates(old(notifications), first, second);
      assert notifications == old(notifications) + NoticesOf(m, report, event.seqNo);
      r := Success(MutationResult(report, event, event.seqNo));
    }

    method CommitEndorse(actor: Actor, existing: Report, note: Option<string>)
      returns (r: Result<MutationResult, Error>)
      requires Valid()
      modifies this
      ensures Valid()
      ensures Settles(old(Db()), Db(), Commit(old(Db()), Pending(actor, existing, SupervisorEndorse(note))), r)
    {
      var patch := Patch(EndorsedBySupervisor, None, Some(actor.userId));
      var bumped := BumpVersionOrThrow(existing.id, existing.version, patch);
      if bumped.Failure? { return Failure(bumped.error); }
      var report := bumped.value;
      ghost var m := SupervisorEndorse(note);
      assert report == RowAfter(m, actor, old(reports)[existing.id]);
      var event := CreateEvent(report.id, SupervisorEndorsed, actor.userId, Supervisor,
                               StatusPayload(report.status).(remark := note));
      assert event == EventOf(m, actor, report, old(nextSeq));
      NotifyUsers([report.reporter], report, event.seqNo, YourReportResolved, Text(report.content.title));
      if report.cleaner.Some? {
        NotifyUsers([report.cleaner.value], report, event.seqNo, CompletionEndorsed, Text(report.content.title));
      }
      ghost var first :=
        Notices([report.reporter], report, event.seqNo, YourReportResolved, Text(report.content.title));
      ghost var second :=
        NoticeTo(report.cleaner, report, event.seqNo, CompletionEndorsed, Text(report.content.title));
      ConcatAssociates(old(notifications), first, second);
      assert notifications == old(notifications) + NoticesOf(m, report, event.seqNo);
      r := Success(MutationResult(report, event, event.seqNo));
    }

    method CommitSupervisorReject(actor: Actor, existing: Report, reason: string)
      returns (r: Result<MutationResult, Error>)
      requires Valid()
      modifies this
      ensures Valid()
      ensures Settles(old(Db()), Db(), Commit(old(Db()), Pending(actor, existing, SupervisorReject(reason))), r)
    {
      var patch := Patch(RejectedBySupervisor, None, Some(actor.userId));
      var bumped := BumpVersionOrThrow(existing.id, existing.version, patch);
      if bumped.Failure? { return Failure(bumped.error); }
      var report := bumped.value;
      ghost var m := SupervisorReject(reason);
      assert report == RowAfter(m, actor, old(reports)[existing.id]);
      var event := CreateEvent(report.id, SupervisorRejected, actor.userId, Supervisor,
                               StatusPayload(report.status).(remark := Some(reason)));
      assert event == EventOf(m, actor, report, old(nextSeq));
      if report.cleaner.Some? {
        NotifyUsers([report.cleaner.value], report, event.seqNo, ResolutionRejected, Text(reason));
      }
      NotifyUsers([report.reporter], report, event.seqNo, YourReportNeedsMoreWork, Text(reason));
      ghost var first :=
        NoticeTo(report.cleaner, report, event.seqNo, ResolutionRejected, Text(reason));
      ghost var second :=
        Notices([report.reporter], report, event.seqNo, YourReportNeedsMoreWork, Text(reason));
      ConcatAssociates(old(notifications), first, second);
      assert notifications == old(notifications) + NoticesOf(m, report, event.seqNo);
      r := Success(MutationResult(report, event, event.seqNo));
    }

    /** The suggested address fills a blank one. */
    static method FillAddress(input: CreateInput, hint: Option<GeoHint>) returns (address: Option<string>)
      ensures address == AddressOf(input, hint)
    {
      address := input.address;
      if hint.Some? && (address.None? || address.value == "") {
        if hint.value.suggestedAddress.Some? && hint.value.suggestedAddress.value != "" {
          address := hint.value.suggestedAddress;
        }
      }
    }

    static method DescribeCreation(report: Report, hint: Option<GeoHint>) returns (payload: Payload)
      ensures payload == CreatedPayload(report, hint)
    {
      payload := StatusPayload(report.status).(title := Some(report.content.title));
      if hint.Some? {
        if hint.value.insideCampus.Some? {
          payload := payload.(outsideCampus := Some(!hint.value.insideCampus.value));
        }
        if hint.value.landmark.Some? && hint.value.landmark.value != "" {
          payload := payload.(landmark := hint.value.landmark);
        }
      }
    }

    /** Every supervisor but the reporter hears of a new report, then the reporter. */
    method AnnounceCreation(report: Report, eventSeq: nat)
      modifies this`notifications
      ensures notifications == old(notifications) + CreatedNotices(dir, report, eventSeq)
    {
      var supervisorIds := UsersWithRole(dir, Supervisor);
      NotifyUsers(Without(supervisorIds, report.reporter), report, eventSeq, NewReportSubmitted,
                  Text(report.content.title));
      NotifyUsers([report.reporter], report, eventSeq, YourReportSubmitted, Text(report.content.title));
    }

    /** Asks for the location when both coordinates are there, and fills in the columns of the new row. */
    static method BuildReport(actor: Actor, id: ReportId, input: CreateInput, hint: Option<GeoHint>)
      returns (report: Report, geo: Option<GeoHint>)
      ensures report == NewReport(actor, id, input, hint) && geo == Lookup(input, hint)
    {
      geo := if input.lat.Some? && input.lng.Some? then hint else None;
      var address := FillAddress(input, geo);
      var priority := if input.priority.Some? then input.priority.value else Medium;
      var content := Content(input.title, input.description, input.lat, input.lng, address, priority);
      report := Report(id, actor.userId, None, None, content, Submitted, 1);
    }

    /** Creation is one insert with nothing to compare against, so it is one step. */
    method CreateReport(actor: Actor, id: ReportId, input: CreateInput, hint: Option<GeoHint>)
      returns (r: Result<MutationResult, Error>)
      requires Valid()
      modifies this
      ensures Valid()
      ensures Settles(old(Db()), Db(), Create(old(Db()), dir, actor, id, input, hint), r)
      ensures r.Success? ==> Outcomes.Stored(old(attachments), attachments, id, actor.userId, input.attachments)
    {
      if id in reports { return Failure(DuplicateId); }
      var report, geo := BuildReport(actor, id, input, hint);
      reports := reports[id := report];
      AttachAll(input.attachments, id, actor.userId);
      var payload := DescribeCreation(report, geo);
      var event := CreateEvent(id, ReportCreated, actor.userId, Reporter, payload);
      AnnounceCreation(report, event.seqNo);
      r := Success(MutationResult(report, event, event.seqNo));
    }
  }
}
