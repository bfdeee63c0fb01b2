/** What each v1 operation answers and writes, stated outright: every refusal, and on success each column
    (apps/api/src/domain/reports/reports.service.ts, apps/api/src/domain/cleaners/cleaners.service.ts). */
module LegacyOutcomes {
  import opened Strings
  import opened Wrappers
  import opened LegacyWorkflow

  /** The text of the status column. */
  function TextOf(s: Status): string {
    match s
    case Resolved => "Resolved"
    case Rejected => "Rejected"
    case AwaitingEndorsement => "Awaiting Endorsement"
    case Assigned => "Assigned"
    case Reported => "Reported"
    case Pending => "Pending"
    case Submitted => "Submitted"
    case Free(text) => text
  }

  lemma NamedSpells(text: string)
    ensures TextOf(Named(text)) == text
  {}

  ghost predicate OnlyReport(db: Db, after: Db, id: PublicId) {
    && after.reports.Keys == db.reports.Keys + {id}
    && forall other :: other in db.reports && other != id ==> after.reports[other] == db.reports[other]
  }

  ghost predicate OnlyCleaner(db: Db, after: Db, cid: CleanerId) {
    && after.cleaners.Keys == db.cleaners.Keys + {cid}
    && forall other :: other in db.cleaners && other != cid ==> after.cleaners[other] == db.cleaners[other]
  }

  // ---- Reports ---------------------------------------------------------------------------

  /** The status text stored by a creation. */
  function CreatedText(sent: Option<string>): string {
    if sent.None? || Trim(sent.value) in {"", "Pending", "Submitted"} then "Reported" else Trim(sent.value)
  }

  lemma CreationOutcome(db: Db, users: map<UserId, User>, id: PublicId, actor: Actor, sent: Option<string>)
    ensures var r := Attempt(db, users, Create(id, actor, sent));
            if actor.role == MasterUser then r == Failure(Forbidden)
            else if id in db.reports then r == Failure(DuplicateId)
            else
              && r.Success? && r.value.cleaners == db.cleaners && OnlyReport(db, r.value, id)
              && TextOf(r.value.reports[id].status) == CreatedText(sent)
              && r.value.reports[id]
                 == Report(r.value.reports[id].status, actor.userId, None, None, None, false, None, None)
  {
    if sent.Some? { NamedSpells(Trim(sent.value)); }
  }

  predicate Sends(patch: Patch, text: string) {
    patch.status == Some(text)
  }

  predicate ByCleanerRole(actor: Option<Actor>) {
    actor.Some? && actor.value.role == CleanerUser
  }

  /** The status text an accepted update leaves: a cleaner's resolution only awaits endorsement. */
  function UpdatedText(row: Report, patch: Patch, actor: Option<Actor>): string {
    if patch.status.None? then TextOf(row.status)
    else if Sends(patch, "Resolved") && ByCleanerRole(actor) then "Awaiting Endorsement"
    else patch.status.value
  }

  /** Why an update is refused. */
  function UpdateRefused(db: Db, id: PublicId, patch: Patch, actor: Option<Actor>): Option<Error> {
    if id !in db.reports then Some(NotFound)
    else if Sends(patch, "Rejected") && ByCleanerRole(actor) then Some(Forbidden)
    else if Sends(patch, "Rejected") && actor.Some?
            && db.reports[id].status != AwaitingEndorsement && db.reports[id].status != Rejected then Some(Invalid)
    else if patch.coordinates == Malformed then Some(Invalid)
    else None
  }

  /** The columns of an updated row: those sent, a cleared review when it awaits endorsement, the reviewer with an
      outcome, and the rest as before. */
  ghost predicate UpdatedRow(row: Report, now: Report, patch: Patch, actor: Option<Actor>) {
    var awaits := patch.status.Some? && UpdatedText(row, patch, actor) == "Awaiting Endorsement";
    var outcome := patch.status.Some? && UpdatedText(row, patch, actor) in {"Resolved", "Rejected"};
    && TextOf(now.status) == UpdatedText(row, patch, actor)
    && now.reporter == row.reporter && now.supervisor == row.supervisor
    && now.cleaner == (if patch.cleaner.Some? then patch.cleaner else row.cleaner)
    && now.cleanerName == (if patch.cleanerName.Some? then patch.cleanerName else row.cleanerName)
    && now.notes == (if awaits then None else if patch.notes.Some? then patch.notes else row.notes)
    && now.reviewed == (if awaits then false else if outcome then true else row.reviewed)
    && now.reviewer == (if awaits then None
                        else if outcome then (if actor.Some? then Some(actor.value.userId) else None)
                        else row.reviewer)
  }

  lemma NamedByText(text: string)
    ensures Named(text) == Resolved <==> text == "Resolved"
    ensures Named(text) == Rejected <==> text == "Rejected"
    ensures Named(text) == AwaitingEndorsement <==> text == "Awaiting Endorsement"
  {
    NamedSpells(text);
    NamedOutcomes(text);
  }

  lemma UpdateOutcome(db: Db, users: map<UserId, User>, id: PublicId, patch: Patch, actor: Option<Actor>)
    ensures var r := Attempt(db, users, Update(id, patch, actor));
            match UpdateRefused(db, id, patch, actor)
            case Some(e) => r == Failure(e)
            case None =>
              && r.Success? && OnlyReport(db, r.value, id)
              && UpdatedRow(db.reports[id], r.value.reports[id], patch, actor)
              && if patch.status.Some? && UpdatedText(db.reports[id], patch, actor) == "Resolved"
                 then FreedFrom(db.cleaners, r.value.cleaners, id) else r.value.cleaners == db.cleaners
  {
    if patch.status.Some? {
      NamedSpells(patch.status.value);
      NamedByText(patch.status.value);
    }
  }

  // ---- Cleaners ----------------------------------------------------------------------------

  /** The supervisor an operation is done for: a supervisor acts for themselves, anybody else names one. */
  function SupervisorFor(users: map<UserId, User>, actor: Actor, sent: Option<UserId>): Option<UserId> {
    if actor.role == SupervisorUser then Some(actor.userId)
    else if sent.Some? && sent.value != "" && sent.value in users && users[sent.value].role == SupervisorUser then sent
    else None
  }

  lemma AssignmentOutcome(db: Db, users: map<UserId, User>, actor: Actor, cid: CleanerId, id: PublicId,
                          sent: Option<UserId>, busyUntil: int)
    ensures var r := Attempt(db, users, Assign(actor, cid, id, sent, busyUntil));
            match SupervisorFor(users, actor, sent)
            case None => r == Failure(Invalid)
            case Some(sup) =>
              if cid !in db.cleaners then r == Failure(NotFound)
              else
                var c := db.cleaners[cid];
                if c.supervisor.Some? && c.supervisor.value != "" && c.supervisor.value != sup
                then r == Failure(Forbidden)
                else
                  && r.Success? && OnlyCleaner(db, r.value, cid)
                  && r.value.cleaners[cid] == Cleaner(c.name, c.workId, Some(sup), Some(id), Some(busyUntil))
                  && if id !in db.reports then r.value.reports == db.reports
                     else
                       && OnlyReport(db, r.value, id)
                       && r.value.reports[id]
                          == db.reports[id].(status := Assigned, cleaner := Some(cid), cleanerName := Some(c.name),
                                             supervisor := Some(sup))
  {}

  lemma AddCleanerOutcome(db: Db, users: map<UserId, User>, actor: Actor, cid: CleanerId, name: string, workId: string,
                          sent: Option<UserId>)
    ensures var r := Attempt(db, users, AddCleaner(actor, cid, name, workId, sent));
            match SupervisorFor(users, actor, sent)
            case None => r == Failure(Invalid)
            case Some(sup) =>
              if cid in db.cleaners then r == Failure(DuplicateId)
              else
                && r.Success? && r.value.reports == db.reports && OnlyCleaner(db, r.value, cid)
                && r.value.cleaners[cid] == Cleaner(name, workId, Some(sup), None, None)
  {}

  lemma ReassignOutcome(db: Db, users: map<UserId, User>, actor: Actor, cid: CleanerId, sent: Option<UserId>)
    ensures var r := Attempt(db, users, Reassign(actor, cid, sent));
            match SupervisorFor(users, actor, sent)
            case None => r == Failure(Invalid)
            case Some(sup) =>
              if cid !in db.cleaners then r == Failure(NotFound)
              else
                && r.Success? && r.value.reports == db.reports && OnlyCleaner(db, r.value, cid)
                && r.value.cleaners[cid] == db.cleaners[cid].(supervisor := Some(sup))
  {}
}
