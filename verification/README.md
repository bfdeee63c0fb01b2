# Verified model of the report workflow

A Dafny model of the server side of a community reporting service: the v2 report
workflow with its event log and sync cursor, campus geometry, device-bound sessions,
tenant scoping, the staff import, and the v1 workflow with its id allocator.

Each component states what the code does twice. Classes and methods follow the code
write by write; functions say what the writes amount to; lemmas prove what that means
over every input and every run. The outcome lemmas state each operation's answer and writes in full,
without the functions the methods are specified by.

| file | component |
|---|---|
| ReportModel.dfy | rows, events, guards and the effect of each v2 mutation |
| ReportStore.dfy | the v2 transactions, split into a read half and a write half |
| Outcomes.dfy | every answer and write of each v2 transaction outright; the twelve moves; the evidence |
| Interleaving.dfy | any number of clients: read, later write; equality with a serial run |
| Scheduler.dfy | the transactions driven by an arbitrary schedule |
| EventSourcing.dfy | what the event log proves about each row |
| Completion.dfy | distance to endorsement, finality, the cleaner's task list |
| Sync.dfy | cursor paging, the client loop, feeds on a growing log |
| FeedDelivery.dfy | which events of a growing log reach a reader, and a run that loses one |
| RingGeometry.dfy | even-odd ray casting |
| Landmarks.dfy | boundary parsing and nearest landmark |
| DeviceSessions.dfy | login, refresh rotation, replay, logout |
| TenantScope.dfy | the query rewriter and two-run isolation |
| TenantQueries.dfy | what the scoped client answers and writes, on the caller's own conditions |
| UpsertTable.dfy, StaffSeed.dfy | the staff import as lists of upserts |
| StaffRows.dfy | which rows of the staff files are taken, and why the others are not |
| LegacyWorkflow.dfy, PublicIds.dfy | v1 reports, cleaners and public ids |
| LegacyOutcomes.dfy | every answer and write of each v1 operation outright |
| Wrappers.dfy, Sequences.dfy, Strings.dfy | Option and Result, sequence facts, trimming of text |

## Assumptions

- A v2 transaction is a row read followed later by one indivisible write step, in which the
  version guard is tested against the row as it then stands. Sequence numbers increase strictly
  and events become visible in their order; other tenants may take numbers in between.
- Accounts, roles and the rows of the users table do not change while reports are worked on.
- Reals are exact. The great-circle distance of a landmark is given.
- The token hash is injective and never the placeholder. Signing is deterministic, and a token
  carries its issue time in whole seconds. User names and tenants do not change during a session.
- A token verifies while the clock is before its issue second plus its lifetime. An access token's
  expiry is part of the model; a refresh token that has expired counts as one that does not verify,
  like one with a wrong signature.
- Text is trimmed of ECMA-262 white space.
- Of the operations Prisma 7.9.1 has on a model in PostgreSQL, those the rewriter does not list are
  `createManyAndReturn` and `updateManyAndReturn`. Every read is listed; the model's further
  operation `Other` is hypothetical and stands for a read added later.
- Keys generated by the database are new; where one is passed in, a collision is an error.
- An unordered "find first" returns the first matching row in storage order.
- A `where` object is a set of conditions on the row itself, one per key.

## Where the code differs from what it is meant to do

- Refresh rotation does not always change the token: within the clock second of issue the new
  token is the same string, and a replay of the old one is honoured
  (`DeviceSessions.ReplayIsCaughtIffSecondMoved`).
- One active session per device needs each login to be one step. Two interleaved logins leave two
  (`DeviceSessions.InterleavedLoginsLeaveTwo`); a list of repository calls keeps to one exactly when
  it leaves at most one live session per device, a fold over the calls
  (`DeviceSessions.OneActiveIff`, `DeviceSessions.OneActiveIffNoPile`).
- The v1 creation route stores an outcome status as sent, without a reviewer, exactly when the
  text is an outcome between white space (`LegacyWorkflow.CreationConsistentIff`).
- A cleaner's feed can miss the early events of a report assigned later
  (`FeedDelivery.EarlyHistoryIsMissed`): an event is delivered exactly when it was wanted at the one
  poll whose cursor passed it (`FeedDelivery.FeedIsWhatWasWantedWhenPassed`).
- The chosen landmark need not be the nearest (`Landmarks.NearestCanBeDisplaced`); it is exactly when
  the order of the landmarks favours it (`Landmarks.KeptIsNearestIff`).
- Tenant isolation needs update data that leaves the tenant column alone
  (`TenantScope.UpdateDataMustKeepTenant`).
- The decision record (docs/adr/0006-tenant-scoping-via-prisma-extension.md) says every operation
  is intercepted. The rewriter scopes the operations it lists and passes any other on as it is:
  `updateManyAndReturn` rewrites and answers with another tenant's rows, `createManyAndReturn`
  inserts one (`TenantScope.UnlistedUpdateReaches`, `TenantScope.UnlistedCreateReaches`). The
  private operations are exactly the listed ones (`TenantScope.PrivateIffListed`).
- A login in both staff files loses its supervisor account: the second pass makes it a cleaner's,
  and the roster rows of its location then point at an account whose role is cleaner
  (`StaffSeed.SupervisorIsWiredIff`, `StaffSeed.SeededStaffIsWired`).
- A v1 public id can repeat one that was imported: all issued ids are new exactly when no imported
  number is above the counter of its moment by no more than the issues after it
  (`PublicIds.IssuedIdsAreNewAndIncreasing`, `PublicIds.ForeignIdCollides`).

## Model

| member | source | states |
|---|---|---|
| `Interleaving.Serialisable` | apps/api/src/v2/reports/reports.service.ts:426-445 | for every interleaving of row reads and later version-guarded writes, the tables equal those of the serial run of the committed transactions in commit order, and each of them is legal on the row as it then stands |
| `Interleaving.SerialIsARun` | apps/api/src/v2/reports/reports.service.ts:426-498 | the converse: every legal serial run is what some client actions commit, whatever other transactions are open, and those stay open |
| `Interleaving.StepIsAtomic` | apps/api/src/v2/reports/reports.service.ts:452-498 | a commit has the effect of read, check and write with nothing in between; every other step, an aborted write included, changes no table |
| `Interleaving.StepKeepsInv` | apps/api/src/v2/reports/reports.service.ts:432-444 | one version number names one row state: an open transaction's copy is still the row, or the row's version has moved past it |
| `Interleaving.AttachmentsAreThoseCommitted` | apps/api/src/v2/reports/reports.service.ts:748-764 | over every run the stored evidence is exactly what committed transactions uploaded, in commit order; an aborted write leaves none behind |
| `Outcomes.EvidenceIsWhatWasSent` | apps/api/src/v2/reports/reports.service.ts:748-764 | over every interleaving a report's evidence is what its committed creation and resolutions sent, as often as they sent it: an attachment row with that report, sender and input is stored if and only if one of them sent it |
| `Outcomes.TransitionsAreTheMoves` | apps/api/src/v2/reports/reports.service.ts:455-894 | some caller's committed mutation takes a report from one status to another if and only if the pair is one of the twelve moves |
| `Outcomes.StepMoves` | apps/api/src/v2/reports/reports.service.ts:426-445 | however clients interleave, each step leaves a report's row alone or makes one of the twelve moves |
| `Interleaving.WriteSucceedsIffNoRival` | apps/api/src/v2/reports/reports.service.ts:432-441 | whatever happens between a read and its write, the write commits if and only if no rival mutation of that report committed in between; otherwise it answers a stale version and leaves everything as it was |
| `Interleaving.VersionCountsMutations` | apps/api/src/v2/reports/reports.service.ts:434 | reports never vanish, each committed mutation raises the version by one, and a report nobody mutated is unchanged |
| `Scheduler.Scheduler.Perform` | apps/api/src/v2/reports/reports.service.ts:447-952 | each step of the transition system is what the service's own transaction methods do to the tables |
| `Scheduler.Scheduler.PerformAll` | apps/api/src/v2/reports/reports.service.ts:316-952 | the service methods driven by any schedule from empty tables end in the serial run's tables, with a faithful log and every reporter informed |
| `ReportStore.ReportStore.Begin` | apps/api/src/v2/reports/reports.service.ts:529-536 | the read and the seven mutations' guards: exactly which callers and statuses pass, and otherwise which of the errors is answered, ownership before status |
| `ReportStore.ReportStore.BumpVersionOrThrow` | apps/api/src/v2/reports/reports.service.ts:426-445 | writes exactly the row with the expected version, tells a missing report from a stale version, and changes nothing when it fails |
| `ReportStore.ReportStore.CreateEvent` | apps/api/src/v2/reports/reports.service.ts:105-125 | appends one event under the next sequence number |
| `ReportStore.ReportStore.NotifyUsers` | apps/api/src/v2/reports/reports.service.ts:127-149 | appends one notification per distinct non-empty user, in order |
| `ReportModel.NoticesReachEachOnce` | apps/api/src/v2/reports/reports.service.ts:137-147 | one call notifies exactly the non-empty users it was given, each once, about the event it was given |
| `ReportStore.ReportStore.CommitAssign` | apps/api/src/v2/reports/reports.service.ts:465-498 | the write half of an assignment settles: all of its rows, or none |
| `ReportStore.ReportStore.CommitAccept` | apps/api/src/v2/reports/reports.service.ts:538-565 | the same for an acceptance |
| `ReportStore.ReportStore.CommitCleanerReject` | apps/api/src/v2/reports/reports.service.ts:609-636 | the same for a cleaner's refusal |
| `ReportStore.ReportStore.CommitStart` | apps/api/src/v2/reports/reports.service.ts:676-703 | the same for a start |
| `ReportStore.ReportStore.CommitResolve` | apps/api/src/v2/reports/reports.service.ts:748-789 | the same for a resolution, whose evidence rows are inserted before the version check and undone when it fails |
| `ReportStore.ReportStore.CommitEndorse` | apps/api/src/v2/reports/reports.service.ts:830-857 | the same for an endorsement |
| `ReportStore.ReportStore.CommitSupervisorReject` | apps/api/src/v2/reports/reports.service.ts:898-925 | the same for a supervisor's rejection |
| `ReportStore.ReportStore.CreateReport` | apps/api/src/v2/reports/reports.service.ts:316-420 | a creation inserts the row, its attachments, one event and the notifications, with a blank address filled from the suggestion |
| `Outcomes.AssignmentOutcome` | apps/api/src/v2/reports/reports.service.ts:447-525 | each refusal of an assignment, and on success the row, the event and the notifications column by column |
| `Outcomes.AcceptanceOutcome` | apps/api/src/v2/reports/reports.service.ts:527-592 | the same for an acceptance |
| `Outcomes.RefusalOutcome` | apps/api/src/v2/reports/reports.service.ts:594-663 | the same for a cleaner's refusal, open from assigned and accepted |
| `Outcomes.StartOutcome` | apps/api/src/v2/reports/reports.service.ts:665-730 | the same for a start |
| `Outcomes.ResolutionOutcome` | apps/api/src/v2/reports/reports.service.ts:732-816 | the same for a resolution, with one attachment row per input in order, under the report and the cleaner |
| `Outcomes.EndorsementOutcome` | apps/api/src/v2/reports/reports.service.ts:818-884 | the same for an endorsement |
| `Outcomes.RejectionOutcome` | apps/api/src/v2/reports/reports.service.ts:886-952 | the same for a supervisor's rejection |
| `Outcomes.CreationOutcome` | apps/api/src/v2/reports/reports.service.ts:316-420 | the row, with a blank address filled only from a located suggestion, the event with its off-campus flag and landmark, the attachments, and one notification for each supervisor by account or grant other than the reporter, then the reporter |
| `Outcomes.CommittedIsAnswered` | apps/api/src/v2/reports/reports.service.ts:500-501 | the answer of a committed transaction is the row and the event it wrote |
| `EventSourcing.ReplayRebuildsEveryRow` | apps/api/src/v2/reports/reports.service.ts:338-379 | in every reachable state sequence numbers strictly increase, replaying a report's events rebuilds its status, reporter, cleaner and supervisor, its version is the number of its events, and an unknown report has none |
| `EventSourcing.WorkIsByTheAssignedCleaner` | apps/api/src/v2/reports/reports.service.ts:455-469 | work past acceptance was accepted, after the latest assignment, by the cleaner the row names, and every cleaner event since is that cleaner's |
| `EventSourcing.MutationStaysFaithful` | apps/api/src/v2/reports/reports.service.ts:465-482 | any allowed mutation of a row, with the one event it appends, keeps the log faithful to the row |
| `EventSourcing.AtomicKeepsHistory` | apps/api/src/v2/reports/reports.service.ts:339-379 | every transaction keeps the order, ownership and faithfulness of the whole log |
| `EventSourcing.ReporterHearsOfEveryEvent` | apps/api/src/v2/reports/reports.service.ts:492-498 | over every run each event has a notification to the report's reporter, and each notification is about an event of its report |
| `EventSourcing.MutationAudience` | apps/api/src/v2/reports/reports.service.ts:549-565 | a mutation notifies exactly the reporter and the other party: the supervisor of what the cleaner did, the cleaner of what the supervisor did |
| `Completion.RankIsExactDistance` | apps/api/src/v2/reports/reports.service.ts:455-894 | from any reachable state, with other transactions open, some client actions endorse the report with exactly `Rank` committed mutations, and no interleaving does with fewer |
| `Completion.RankIsDistance` | apps/api/src/v2/reports/reports.service.ts:455-894 | the same from any consistent system |
| `Completion.RankIsLowerBound` | apps/api/src/v2/reports/reports.service.ts:534-894 | no schedule lowers a report's rank by more than the mutations it makes of it |
| `Completion.RankIsReached` | apps/api/src/v2/reports/reports.service.ts:447-884 | the shortest way: each step of it passes its guard, and it ends in endorsement |
| `Completion.NobodyToAssign` | apps/api/src/v2/reports/reports.service.ts:459-463 | with no account at all, a report that needs an assignment never changes |
| `Completion.EndorsedReportsNeverChange` | apps/api/src/v2/reports/reports.service.ts:826-833 | an endorsed report is fixed, even against writes already in flight |
| `Completion.EndorsedVersionAtLeastSix` | apps/api/src/v2/reports/reports.service.ts:350 | an endorsed report is at version six or later |
| `Completion.TasksAreTheActionableReports` | apps/api/src/v2/reports/reports.service.ts:298-301 | a report is on a user's task list if and only if one of the four cleaner actions would pass its guard for that user |
| `Sync.GetEventsSince` | apps/api/src/v2/sync/sync.service.ts:26-62 | the answer is the first part of what remains for the caller, as many events as the limit allows (200 by default, at least 1, at most 500), and the number of its last event as cursor |
| `Sync.RemainingMeans` | apps/api/src/v2/sync/sync.service.ts:35-51 | what remains: the events past the cursor, of the requested report, of reports the caller reported, cleans or supervises, or of all for staff |
| `Sync.WhereMeansWanted` | apps/api/src/v2/sync/sync.service.ts:35-51 | the filter built field by field selects exactly the events past the cursor whose report getReportByIdForActor would show |
| `Sync.PageThenRest` | apps/api/src/v2/sync/sync.service.ts:34-60 | a page is empty only when nothing is wanted, and asking again from its cursor yields exactly the rest |
| `Sync.PollUntilEmpty` | apps/api/src/v2/sync/sync.service.ts:53-60 | the client loop on a fixed log ends for every limit; its pages joined are exactly the wanted events, ascending, each once; every page but the last is as large as the limit allows, so their number is the quotient rounded up |
| `Sync.FeedLosesNothingOwed` | apps/api/src/v2/sync/sync.service.ts:34-60 | polls of any size mixed with workflow steps: any reader's feed restricted to what it is owed (everything for staff, the own reports for a reporter) is exactly those events up to its cursor |
| `Sync.StaffFeedIsTheLog` | apps/api/src/v2/sync/sync.service.ts:40-51 | a supervisor's or admin's feed is at every moment all events up to its cursor |
| `Sync.StepGrows` | apps/api/src/v2/reports/reports.service.ts:339-352 | a workflow step only appends events above all numbers so far and never changes a reporter |
| `FeedDelivery.FeedIsWhatWasWantedWhenPassed` | apps/api/src/v2/sync/sync.service.ts:34-60 | over every run and for any reader, an event past the start and at or below the cursor is in the feed if and only if the reader wanted it at the one poll whose cursor passed it |
| `FeedDelivery.PollDelivers` | apps/api/src/v2/sync/sync.service.ts:41-60 | of the events a poll passes it delivers exactly those wanted at that moment, and it delivers nothing it does not pass |
| `FeedDelivery.PassedUnseenIsLost` | apps/api/src/v2/sync/sync.service.ts:41-49 | an event a cursor has passed undelivered is never delivered later |
| `FeedDelivery.EarlyHistoryIsMissed` | apps/api/src/v2/sync/sync.service.ts:46-51 | a run from empty tables in which a cleaner polls between two assignments: the first report's creation is theirs to see at the end and in no later feed |
| `RingGeometry.PointInRing` | apps/api/src/v2/geo/geo.service.ts:41-56 | the loop computes the even-odd answer over the ring's edges |
| `RingGeometry.Intersects` | apps/api/src/v2/geo/geo.service.ts:50-52 | the written test, with its division, is the orientation test of the edge taken upwards |
| `RingGeometry.FanParity` | apps/api/src/v2/geo/geo.service.ts:41-56 | for every ring the answer is the parity of the vertex-fan triangles that contain the point |
| `RingGeometry.InRingIsFanDegreeParity` | apps/api/src/v2/geo/geo.service.ts:41-56 | for points on no fan line, it is the parity of the fan triangles that contain the point in the plain geometric sense |
| `RingGeometry.TriangleMeansInside` | apps/api/src/v2/geo/geo.service.ts:41-56 | a triangle's answer is true on its interior and false on its exterior |
| `RingGeometry.ChordSplits` | apps/api/src/v2/geo/geo.service.ts:41-56 | cutting a ring along any chord makes the answer the exclusive-or of the two halves' answers |
| `RingGeometry.RectangleIsHalfOpen` | apps/api/src/v2/geo/geo.service.ts:41-56 | on an upright rectangle the answer is true exactly from the lower and left sides, included, to the upper and right sides, excluded |
| `RingGeometry.InsideMeansInBox` | apps/api/src/v2/geo/geo.service.ts:50-53 | a point answered inside lies in the ring's half-open bounding box |
| `RingGeometry.RotationInvariant` | apps/api/src/v2/geo/geo.service.ts:44 | the answer does not depend on the starting vertex |
| `RingGeometry.ReversalInvariant` | apps/api/src/v2/geo/geo.service.ts:44-53 | nor on the direction |
| `RingGeometry.ClosingInvariant` | apps/api/src/v2/geo/geo.service.ts:40 | nor on whether the first vertex is repeated at the end |
| `RingGeometry.ShortRingsAreEmpty` | apps/api/src/v2/geo/geo.service.ts:42 | the length guard changes no answer |
| `Landmarks.ParseBoundary` | apps/api/src/v2/geo/geo.service.ts:70-84 | keeps the entries that are coordinate pairs, in order |
| `Landmarks.BoundaryRoundTrip` | apps/api/src/v2/geo/geo.service.ts:70-84 | a ring written as pairs is read back unchanged |
| `Landmarks.PairsJoin` | apps/api/src/v2/geo/geo.service.ts:73-82 | entries are read one by one: a boundary of two parts reads as the points of both |
| `Landmarks.PairsOfOne` | apps/api/src/v2/geo/geo.service.ts:74-80 | an entry is a point when it starts with two numbers and nothing otherwise |
| `Landmarks.NearestLandmark` | apps/api/src/v2/geo/geo.service.ts:112-124 | the loop's choice among landmarks tied after rounding, with that landmark's own id, name and category, in reach of its radius and 400 m |
| `Landmarks.EligibleMeans` | apps/api/src/v2/geo/geo.service.ts:113-115 | a landmark is in reach exactly when it is within its own radius and within 400 m |
| `Landmarks.NearestWithinOneMetre` | apps/api/src/v2/geo/geo.service.ts:112-124 | no answer exactly when nothing is within min(radius, 400 m); otherwise the distance is the least rounded distance in reach and the landmark is less than a metre farther than the nearest |
| `Landmarks.AnswerIsUnique` | apps/api/src/v2/geo/geo.service.ts:116 | the contract of the loop determines its answer |
| `Landmarks.KeptIsNearestIff` | apps/api/src/v2/geo/geo.service.ts:112-124 | the landmark the loop keeps is a nearest one if and only if, with the least distance below its rounded metre, every farther one also below it is followed by a nearest one, and otherwise every farther one rounding alike is preceded by one |
| `Landmarks.NearestCanBeDisplaced` | apps/api/src/v2/geo/geo.service.ts:116 | of two landmarks at 9.6 m and 9.8 m in that order the farther is kept |
| `Landmarks.ResolveLocation` | apps/api/src/v2/geo/geo.service.ts:103-136 | inside flag only for three or more pairs; which address is suggested, and when none is |
| `DeviceSessions.SessionStore.Login` | apps/api/src/v2/auth/v2-auth.service.ts:59-101 | revokes the device's sessions, creates one whose hash is that of the issued refresh token, and binds the device; otherwise changes nothing |
| `DeviceSessions.SessionStore.RefreshSession` | apps/api/src/v2/auth/v2-auth.service.ts:191-236 | rotates for the stored token, revokes the session for any other, and changes nothing when the token does not reach a session |
| `DeviceSessions.SessionStore.LogoutDevice` | apps/api/src/v2/auth/v2-auth.service.ts:238-240 | revokes exactly the device's sessions |
| `DeviceSessions.SessionStore.FromAccessToken` | apps/api/src/v2/auth/v2-auth.service.ts:248-273 | accepts exactly the unexpired access tokens of an active session with the same device and user |
| `DeviceSessions.SessionStore.RevokeAllForDevice` | apps/api/src/v2/sessions/sessions.repository.ts:27-32 | deactivates the device's sessions and no other |
| `DeviceSessions.LoginTokens` | apps/api/src/v2/auth/v2-auth.service.ts:76-84 | both tokens carry the account's own tenant and name, the device and the new session |
| `DeviceSessions.LoginEffect` | apps/api/src/v2/auth/v2-auth.service.ts:59-101 | every column a login leaves: one new active session, the device's others ended, the device bound, nothing else changed |
| `DeviceSessions.RefreshEffect` | apps/api/src/v2/auth/v2-auth.service.ts:191-236 | a refresh changes at most the session its token names, and what it makes of it |
| `DeviceSessions.LogoutEffect` | apps/api/src/v2/auth/v2-auth.service.ts:238-240 | a logout ends the device's sessions and changes nothing else |
| `DeviceSessions.AtMostOneActiveSession` | apps/api/src/v2/auth/v2-auth.service.ts:65-74 | with each login one step, no device ever has two active sessions |
| `DeviceSessions.SessionFollows` | apps/api/src/v2/auth/v2-auth.service.ts:191-240 | after every run the stored session is what the requests alone dictate: active with the last rotated token's hash, or dead |
| `DeviceSessions.AccessTokenLifetime` | apps/api/src/v2/auth/v2-auth.service.ts:248-255 | a login's access token is accepted after a run if and only if it has not expired and no request of that run ended its session |
| `DeviceSessions.AccessEndsAtNextLoginOrLogout` | apps/api/src/v2/auth/v2-auth.service.ts:65-66 | after any login or logout on the device no earlier access token of it is accepted |
| `DeviceSessions.OnlyTheLastTokenIsHonoured` | apps/api/src/v2/auth/v2-auth.service.ts:203-225 | the only refresh token a live session honours is the last issued; any other of that session, from its device, deactivates it for good |
| `DeviceSessions.ReplayIsCaughtIffSecondMoved` | apps/api/src/v2/auth/v2-auth.service.ts:223-225 | a used refresh token presented again kills the session if and only if the rotation fell in a later clock second than its issue |
| `DeviceSessions.RevokedNeverReturns` | apps/api/src/v2/sessions/sessions.repository.ts:27-69 | under any interleaving of repository calls a revoked session never becomes active again |
| `DeviceSessions.CallsLeaveLive` | apps/api/src/v2/sessions/sessions.repository.ts:27-69 | from any store and for any interleaving of repository calls, the active sessions of a device are those a fold over the calls alone names |
| `DeviceSessions.OneActiveIff` | apps/api/src/v2/auth/v2-auth.service.ts:65-74 | such a list keeps one active session per device if and only if the fold leaves at most one on each |
| `DeviceSessions.OneActiveIffNoPile` | apps/api/src/v2/auth/v2-auth.service.ts:65-74 | without single revocations, if and only if no two inserts on a device follow its last revocation |
| `DeviceSessions.InterleavedLoginsLeaveTwo` | apps/api/src/v2/auth/v2-auth.service.ts:66-74 | two logins that both revoke before either creates leave two active sessions |
| `DeviceSessions.CallsLeaveLastHash` | apps/api/src/v2/sessions/sessions.repository.ts:27-69 | under any interleaving of repository calls a session keeps its device and user and carries the last hash set for it |
| `DeviceSessions.HonouredIffLiveAndSetLast` | apps/api/src/v2/auth/v2-auth.service.ts:203-225 | after any such calls a token is the one its session honours if and only if the calls leave the session live and set that token's hash last |
| `DeviceSessions.InterleavedRefreshesKeepTheLastWritten` | apps/api/src/v2/auth/v2-auth.service.ts:203-225 | of two refreshes that both read before either writes, only the token written last is honoured and the other kills the session |
| `TenantScope.TenantsAreIsolated` | apps/api/src/infra/prisma.ts:87-124 | two databases that agree on the tenant's rows answer any sequence of listed operations alike and still agree, and no other tenant's row changes |
| `TenantScope.UpdateDataMustKeepTenant` | apps/api/src/infra/prisma.ts:98-101 | updates leave other tenants' rows alone if and only if the update data does not set another tenant |
| `TenantScope.PrivateIffListed` | apps/api/src/infra/prisma.ts:31-44 | an operation acts on the tenant's view alone, for all rows and all arguments that keep the tenant, if and only if it is in the three lists |
| `TenantScope.UnlistedUpdateReaches` | apps/api/src/infra/prisma.ts:126 | `updateManyAndReturn` is passed on unscoped: it rewrites another tenant's row and answers with it |
| `TenantScope.UnlistedCreateReaches` | apps/api/src/infra/prisma.ts:126 | `createManyAndReturn` is passed on unstamped: it inserts a row for another tenant |
| `TenantScope.OperationIsPrivate` | apps/api/src/infra/prisma.ts:98-124 | a scoped operation acts on the tenant's view alone |
| `TenantScope.RewriteIsPrivate` | apps/api/src/infra/prisma.ts:98-101 | rewriting or deleting only own rows is the same rewrite of the own view and nothing to the others |
| `TenantScope.QueryArgs.Intercept` | apps/api/src/infra/prisma.ts:81-127 | which arguments are rewritten in place for which operation, and when the call is forbidden |
| `TenantQueries.ReadAnswers` | apps/api/src/infra/prisma.ts:98-102 | a read through the client answers from exactly the tenant's own rows that meet the caller's conditions on every other key, and changes nothing |
| `TenantQueries.WriteHits` | apps/api/src/infra/prisma.ts:98-102 | an update or delete hits the first of those rows, or all of them, and leaves every other row and table as it was |
| `TenantQueries.UpsertHits` | apps/api/src/infra/prisma.ts:119-122 | an upsert updates the first of those rows, or adds one row with every column sent and the tenant column set |
| `TenantQueries.CreateAdds` | apps/api/src/infra/prisma.ts:111-118 | a creation adds one row per row sent, in order, with every column sent and the tenant column set, and changes nothing else |
| `TenantQueries.KeepOfOne` | apps/api/src/infra/prisma.ts:98-102 | a selection of one row keeps it exactly when it passes; with the law for joined tables this is all a selection does |
| `StaffSeed.SeedingTwiceIsSeedingOnce` | apps/api/scripts/bootstrap.ts:224-439 | seeding twice from the same files leaves the accounts and roster of seeding once |
| `StaffSeed.ImportIsIdempotent` | apps/api/scripts/bootstrap.ts:323-428 | the same for any selection of rows, with supervisor ids stable between the runs |
| `StaffSeed.Importer.SeedStaff` | apps/api/scripts/bootstrap.ts:224-439 | without both files it is skipped and writes nothing; otherwise the summary is a function of the files alone, so a dry run, which writes nothing, gives a real run's summary |
| `StaffSeed.Importer.SeedSupervisors` | apps/api/scripts/bootstrap.ts:291-344 | the first loop takes, counts and writes what the pass over the rows says |
| `StaffSeed.Importer.SeedCleaners` | apps/api/scripts/bootstrap.ts:350-433 | the second loop likewise, with each cleaner's roster row pointing at the supervisor of its location |
| `StaffSeed.Importer.UpsertRoster` | apps/api/scripts/bootstrap.ts:400-428 | find, then update or create, is one upsert |
| `StaffSeed.Importer.UpsertUserAccount` | apps/api/scripts/bootstrap.ts:167-222 | the account with the login takes the new columns and keeps its id and the rest, or one row is added under a fresh id; no other row changes, and the id answered is that row's; a dry run changes nothing |
| `UpsertTable.WroteOneRowIffUpsert` | apps/api/scripts/bootstrap.ts:188-214 | this row-by-row effect is what one upsert is, and nothing else has it |
| `StaffSeed.SupervisorRowsAccountedFor` | apps/api/scripts/bootstrap.ts:294-322 | supervisor rows read equal rows accepted plus rows skipped by reason |
| `StaffSeed.CleanerRowsAccountedFor` | apps/api/scripts/bootstrap.ts:351-380 | the same for cleaner rows |
| `StaffRows.SupervisorsTaken` | apps/api/scripts/bootstrap.ts:294-343 | a supervisor row is taken if and only if it is complete and no earlier taken row has its login or its location; taken rows keep file order |
| `StaffRows.SupervisorsIncomplete` | apps/api/scripts/bootstrap.ts:299-305 | the lines reported invalid are exactly those of the incomplete rows, in file order |
| `StaffRows.SupervisorsRepeated` | apps/api/scripts/bootstrap.ts:308-319 | the counts of repeated logins and locations are the numbers of complete rows whose login, or else whose location, an earlier taken row has |
| `StaffRows.CleanersTaken` | apps/api/scripts/bootstrap.ts:364-378 | a cleaner row is taken if and only if it is complete, its location has a supervisor, and no earlier row with both has its login; taken rows keep file order, each with that supervisor |
| `StaffRows.CleanersUnmatched` | apps/api/scripts/bootstrap.ts:371-378 | a row is reported unmatched if and only if it is complete, no earlier taken row has its login and its location has no supervisor |
| `StaffRows.CleanersIncomplete` | apps/api/scripts/bootstrap.ts:356-362 | the invalid lines are those of the incomplete rows |
| `StaffRows.CleanersRepeated` | apps/api/scripts/bootstrap.ts:364-369 | the count of repeated logins is the number of complete rows whose login an earlier taken row has |
| `StaffRows.SummaryCounts` | apps/api/scripts/bootstrap.ts:224-439 | every figure of the summary, from the rows themselves |
| `StaffRows.FieldIsFirstPresent` | apps/api/scripts/bootstrap.ts:126-132 | a field is the first of its columns that is not blank, trimmed |
| `StaffRows.ColumnsRead` | apps/api/scripts/bootstrap.ts:295-297 | name, login and location come from the columns headed Name, Staff ID and Location, trimmed, where these are present |
| `StaffRows.SamePlace` | apps/api/scripts/bootstrap.ts:134-136 | locations are compared up to white space at the ends and letter case |
| `StaffRows.OthersStay` | apps/api/scripts/bootstrap.ts:321-428 | accounts and roster rows of nobody selected stay as they are, and no other rows are added |
| `StaffRows.RepeatedMeansTwice` | apps/api/scripts/bootstrap.ts:142-155 | the keys reported as duplicates are the non-empty ones that two lines share |
| `StaffSeed.TakenSupervisorsAreDistinct` | apps/api/scripts/bootstrap.ts:308-343 | taken supervisors have distinct logins and distinct normalised locations, and the location map holds exactly them |
| `StaffSeed.TakenCleanersArePaired` | apps/api/scripts/bootstrap.ts:364-378 | taken cleaners have distinct logins and go to the supervisor of their own location |
| `StaffSeed.SeededStaffIsWired` | apps/api/scripts/bootstrap.ts:321-428 | after seeding, each taken cleaner has a cleaner account and a roster row that points at the account of the supervisor of its location; each taken supervisor has a supervisor account if and only if its login was not also taken as a cleaner |
| `StaffSeed.SupervisorIsWiredIff` | apps/api/scripts/bootstrap.ts:321-397 | the second half for any selection of rows with distinct logins |
| `StaffSeed.SeedingKeepsKeysUnique` | apps/api/scripts/bootstrap.ts:400-428 | one row per login and per work id stays one row |
| `StaffSeed.ReportDuplicates` | apps/api/scripts/bootstrap.ts:142-165 | exactly one entry for each key that occurs on more than one line, with all its lines |
| `UpsertTable.UpsertAllIsIdempotent` | apps/api/scripts/bootstrap.ts:188-214 | writing any list of upserts twice changes nothing the second time, even with repeated keys |
| `UpsertTable.UpsertAllRewrites` | apps/api/scripts/bootstrap.ts:407-416 | on a table that has all the keys, upserts insert nothing and rewrite only the rows they find |
| `LegacyWorkflow.WorkflowStaysConsistent` | apps/api/src/domain/reports/reports.service.ts:494-529 | over every run no cleaner holds a resolved report, outcomes name a non-cleaner reviewer and a report awaiting endorsement names none |
| `LegacyWorkflow.UpdateStaysConsistent` | apps/api/src/domain/reports/reports.service.ts:513-529 | the update that is the heart of it, for every patch and actor |
| `LegacyWorkflow.CreationConsistentIff` | apps/api/src/domain/reports/reports.service.ts:109-116 | a creation keeps this if and only if the text sent is not an outcome between white space |
| `Strings.TrimIffPadded` | apps/api/src/domain/reports/reports.service.ts:109-116 | trimming gives an outcome exactly for that outcome between white space, so these are the texts a creation must not send |
| `LegacyWorkflow.AnonymousUpdateConsistentIff` | apps/api/src/domain/reports/reports.service.ts:484-524 | an update without an actor keeps it if and only if the text it sends is not an outcome |
| `LegacyWorkflow.CleanersNeverDecide` | apps/api/src/domain/reports/reports.service.ts:165-176 | runs of cleaner updates alone never reach an outcome |
| `LegacyWorkflow.RejectionFollowsSubmission` | apps/api/src/domain/reports/reports.service.ts:178-184 | a report becomes rejected only from awaiting endorsement, not by a cleaner, and names the rejecter |
| `LegacyWorkflow.Workflow.Update` | apps/api/src/domain/reports/reports.service.ts:484-552 | status resolution, coordinate check, review bookkeeping, release of cleaners and row write, or an error and no change |
| `LegacyWorkflow.Workflow.Create` | apps/api/src/domain/reports/reports.service.ts:413-446 | role check, trimmed and normalised status, one new row |
| `LegacyWorkflow.Workflow.AssignToReport` | apps/api/src/domain/cleaners/cleaners.service.ts:116-150 | supervisor resolution and ownership check, then both the cleaner row and the report row |
| `LegacyWorkflow.Workflow.CreateCleaner` | apps/api/src/domain/cleaners/cleaners.service.ts:87-101 | a new roster row holds no task |
| `LegacyWorkflow.Workflow.ReassignSupervisor` | apps/api/src/domain/cleaners/cleaners.service.ts:103-114 | changes the supervisor of that row alone |
| `LegacyWorkflow.Workflow.ClearAssignmentByTaskId` | apps/api/src/domain/cleaners/cleaners.repository.ts:96-101 | nobody holds the task afterwards, whoever held it is free and otherwise as before, and nobody else changes |
| `LegacyOutcomes.UpdateOutcome` | apps/api/src/domain/reports/reports.service.ts:484-552 | each refusal of an update, and on success every column of the row, the status as text, and which cleaners are freed |
| `LegacyOutcomes.CreationOutcome` | apps/api/src/domain/reports/reports.service.ts:413-446 | the same for a creation |
| `LegacyOutcomes.AssignmentOutcome` | apps/api/src/domain/cleaners/cleaners.service.ts:116-150 | the same for an assignment: the supervisor it is done for, the ownership check, both rows |
| `LegacyOutcomes.AddCleanerOutcome` | apps/api/src/domain/cleaners/cleaners.service.ts:87-101 | the same for a new cleaner |
| `LegacyOutcomes.ReassignOutcome` | apps/api/src/domain/cleaners/cleaners.service.ts:103-114 | the same for a change of supervisor |
| `PublicIds.IssuedIdsAreNewAndIncreasing` | apps/api/src/domain/reports/reports.repository.ts:54-90 | from any stored ids a run issues strictly increasing numbers from 100000 up, and every id is new when issued if and only if no imported number is above the counter of its moment by no more than the issues after it |
| `PublicIds.FinalIsReach` | apps/api/src/domain/reports/reports.repository.ts:81-86 | the counter moves one per issue, up to the largest 32-bit number |
| `PublicIds.NextIdIsNew` | apps/api/src/domain/reports/reports.repository.ts:71-89 | with none stored between the counter and the last one, an issued id differs from every stored id, whatever its shape or leading zeros |
| `PublicIds.StoredBetweenIsReissued` | apps/api/src/domain/reports/reports.repository.ts:81-89 | the counter skips nothing: a stored id it goes on to reach is issued again |
| `PublicIds.Allocator.NextPublicId` | apps/api/src/domain/reports/reports.repository.ts:54-90 | seeds the counter from the largest stored number or the floor, increments it, and leaves it alone on a 32-bit overflow |
| `PublicIds.Allocator.MaxNumber` | apps/api/src/domain/reports/reports.repository.ts:59-71 | the largest number among the ids that match the pattern, or a failed cast |
| `PublicIds.FirstNumber` | apps/api/src/domain/reports/reports.repository.ts:58-84 | the first number ever issued is 100000 or the least above every stored one; it is refused only when a stored number fills the column |
| `PublicIds.NumberedIds` | apps/api/src/domain/reports/reports.repository.ts:63-65 | exactly the ids made of RPT- and digits have a number |
| `PublicIds.LeadingZero` | apps/api/src/domain/reports/reports.repository.ts:64 | leading zeros do not change a number |
| `PublicIds.ParseOfPrint` | apps/api/src/domain/reports/reports.repository.ts:63-89 | reading back a printed number gives the number |
| `PublicIds.ForeignIdCollides` | apps/api/src/domain/reports/reports.repository.ts:81-89 | an id one above the counter stored from elsewhere is the next id handed out |

## Left out

- Push notifications after commit, timestamps, page and limit of the list endpoints, dashboards: they read
  committed rows or follow a commit, and change no row that a property here speaks of.
- HTTP routing, request schemas, serializers, error mapping, storage of photos, token signatures and password hashes.
- Database isolation levels, and commit order of events across reports: see the assumptions.
- Interleaved halves of logins and refreshes in the session results over runs of requests: there each request is one step.
- Trigonometry of the great-circle distance and rounding errors of floating point.
- Relation filters and nested writes in queries, unique constraints other than keys, ordering and paging of query results.
- Parsing of CSV text: the import starts from rows of named fields; salted password hashes are not compared.
- v1 update fields beyond the declared ones, distance of a resolution, photos, names copied beside ids.
- Role administration, the promote-admin script, geo seeding and the Mongo migration write the accounts, grants,
  landmarks and old rows that the model takes as given; the properties hold for whatever these contain.
