/** How far a report is from endorsement, and which reports a cleaner can act on. */
module Completion {
  import opened Wrappers
  import opened ReportModel
  import opened Interleaving
  import opened EventSourcing

  /** The mutations still needed before endorsement, at best. */
  function Rank(s: Status): nat {
    match s
    case Submitted => 5
    case RejectedByCleaner => 5
    case Assigned => 4
    case AcceptedByCleaner => 3
    case RejectedBySupervisor => 3
    case InProgress => 2
    case ResolvedByCleaner => 1
    case EndorsedBySupervisor => 0
    case Closed => 6
    case Cancelled => 6
  }

  // ---- The rank is a lower bound ----------------------------------------------

  /** No schedule endorses a report in fewer mutations than its rank. */
  lemma {:induction false} RankIsLowerBound(db: Db, dir: Directory, ts: seq<Txn>, id: ReportId)
    requires KeyedById(db) && id in db.reports && Serial(db, dir, ts).Success?
    ensures id in Serial(db, dir, ts).value.reports
    ensures Rank(db.reports[id].status) <= MutationsOf(ts, id) + Rank(Serial(db, dir, ts).value.reports[id].status)
    decreases |ts|
  {
    if ts == [] {
    } else {
      RankIsLowerBound(Atomic(db, dir, ts[0]).value, dir, ts[1..], id);
    }
  }

  // ---- The rank is reached ------------------------------------------------------

  predicate NeedsAssignment(s: Status) {
    s == Submitted || s == RejectedByCleaner
  }

  /** The next mutation on the shortest way, and who makes it. */
  function NextStep(row: Report, boss: Actor, hand: UserId): (Actor, Mutation)
    requires !NeedsAssignment(row.status) ==> row.cleaner.Some?
  {
    if NeedsAssignment(row.status) then (boss, AssignCleaner(hand, None, None))
    else
      var cleaner := Actor(row.cleaner.value, Roles(false, true, false));
      match row.status
      case Assigned => (cleaner, CleanerAccept)
      case InProgress => (cleaner, CleanerResolve(None, []))
      case ResolvedByCleaner => (boss, SupervisorEndorse(None))
      case _ => (cleaner, CleanerStart)
  }

  ghost predicate OnlyMutates(ts: seq<Txn>, id: ReportId) {
    forall i :: 0 <= i < |ts| ==> ts[i].Mutated? && ts[i].id == id
  }

  ghost predicate Endorses(db: Db, dir: Directory, ts: seq<Txn>, id: ReportId) {
    && Serial(db, dir, ts).Success?
    && id in Serial(db, dir, ts).value.reports
    && Serial(db, dir, ts).value.reports[id].status == EndorsedBySupervisor
  }

  /** The row is on its way, as every reachable row is, with an account to assign if it needs one. */
  predicate CanProceed(row: Report, dir: Directory, hand: UserId) {
    && row.status != Closed && row.status != Cancelled
    && (row.status != Submitted ==> row.cleaner.Some?)
    && (NeedsAssignment(row.status) ==> HasAccount(dir, hand))
  }

  /** From every such row there is a schedule of exactly `Rank` mutations that ends in endorsement. */
  lemma {:induction false} RankIsReached(db: Db, dir: Directory, id: ReportId, boss: Actor, hand: UserId)
    returns (ts: seq<Txn>)
    requires KeyedById(db) && id in db.reports
    requires CanProceed(db.reports[id], dir, hand)
    ensures |ts| == Rank(db.reports[id].status) && OnlyMutates(ts, id)
    ensures Endorses(db, dir, ts, id)
    decreases Rank(db.reports[id].status)
  {
    var row := db.reports[id];
    if row.status == EndorsedBySupervisor {
      ts := [];
    } else {
      var (actor, m) := NextStep(row, boss, hand);
      var first := Mutated(actor, id, m);
      assert Allowed(m, actor, dir, row);
      var next := Atomic(db, dir, first).value;
      assert next.reports[id] == RowAfter(m, actor, row);
      var rest := RankIsReached(next, dir, id, boss, hand);
      ts := [first] + rest;
      assert ts[1..] == rest;
    }
  }

  ghost predicate EndorsedBy(s: System, dir: Directory, actions: seq<Action>, id: ReportId) {
    var after := Run(s, dir, actions).db;
    id in after.reports && after.reports[id].status == EndorsedBySupervisor
  }

  /** Whatever the clients do and however it interleaves, endorsing the report commits at least n mutations on it. */
  ghost predicate NoShorterWay(s: System, dir: Directory, id: ReportId, n: nat) {
    forall actions :: EndorsedBy(s, dir, actions, id) ==> MutationsOf(Log(s, dir, actions), id) >= n
  }

  lemma NoWayBelowRank(s: System, dir: Directory, id: ReportId)
    requires Inv(s, dir) && id in s.db.reports
    ensures NoShorterWay(s, dir, id, Rank(s.db.reports[id].status))
  {
    forall actions | EndorsedBy(s, dir, actions, id)
      ensures MutationsOf(Log(s, dir, actions), id) >= Rank(s.db.reports[id].status)
    {
      Serialisable(s, dir, actions);
      RankIsLowerBound(s.db, dir, Log(s, dir, actions), id);
    }
  }

  /** Some actions that commit n mutations, all on the report, endorse it and leave open what was open; none endorse it
      with fewer. */
  ghost predicate ExactDistance(s: System, dir: Directory, id: ReportId, actions: seq<Action>, n: nat) {
    && EndorsedBy(s, dir, actions, id) && Run(s, dir, actions).open == s.open
    && OnlyMutates(Log(s, dir, actions), id) && |Log(s, dir, actions)| == n
    && NoShorterWay(s, dir, id, n)
  }

  /** Rank is the exact distance from any consistent system, whatever other transactions are open. */
  lemma RankIsDistance(s: System, dir: Directory, id: ReportId, boss: Actor, hand: UserId, tx: TxId)
    returns (actions: seq<Action>)
    requires Inv(s, dir) && id in s.db.reports && tx !in s.open
    requires CanProceed(s.db.reports[id], dir, hand)
    ensures ExactDistance(s, dir, id, actions, Rank(s.db.reports[id].status))
  {
    var ts := RankIsReached(s.db, dir, id, boss, hand);
    SerialIsARun(s, dir, ts, tx);
    actions := AsActions(ts, tx);
    NoWayBelowRank(s, dir, id);
  }

  /** So it is in every reachable state, given an account to assign if the report needs one. */
  lemma RankIsExactDistance(dir: Directory, before: seq<Action>, id: ReportId, boss: Actor, hand: UserId, tx: TxId)
    returns (actions: seq<Action>)
    requires var s := Run(INITIAL, dir, before);
             && id in s.db.reports && tx !in s.open
             && (NeedsAssignment(s.db.reports[id].status) ==> HasAccount(dir, hand))
    ensures var s := Run(INITIAL, dir, before);
            ExactDistance(s, dir, id, actions, Rank(s.db.reports[id].status))
  {
    InitialInv(dir);
    ReachableHistory(dir, before);
    RunKeepsInv(INITIAL, dir, before);
    var s := Run(INITIAL, dir, before);
    assert Faithful(s.db.reports[id], EventsOf(s.db.events, id));
    actions := RankIsDistance(s, dir, id, boss, hand, tx);
  }

  /** With nobody to assign, an unassigned report stays as it is whatever is attempted. */
  lemma {:induction false} NobodyToAssign(db: Db, dir: Directory, ts: seq<Txn>, id: ReportId)
    requires KeyedById(db) && id in db.reports && Serial(db, dir, ts).Success?
    requires dir.accounts == [] && NeedsAssignment(db.reports[id].status)
    ensures id in Serial(db, dir, ts).value.reports && Serial(db, dir, ts).value.reports[id] == db.reports[id]
    decreases |ts|
  {
    if ts == [] {
    } else {
      NobodyToAssign(Atomic(db, dir, ts[0]).value, dir, ts[1..], id);
    }
  }

  // ---- Endorsement ----------------------------------------------------------------

  lemma {:induction false} EndorsedRowsAreFixed(db: Db, dir: Directory, ts: seq<Txn>, id: ReportId)
    requires KeyedById(db) && id in db.reports && Serial(db, dir, ts).Success?
    requires db.reports[id].status == EndorsedBySupervisor
    ensures id in Serial(db, dir, ts).value.reports && Serial(db, dir, ts).value.reports[id] == db.reports[id]
    decreases |ts|
  {
    if ts == [] {
    } else {
      EndorsedRowsAreFixed(Atomic(db, dir, ts[0]).value, dir, ts[1..], id);
    }
  }

  /** Once endorsed, a report never changes again, even by writes that were already in flight. */
  lemma EndorsedReportsNeverChange(s: System, dir: Directory, actions: seq<Action>, id: ReportId)
    requires Inv(s, dir) && id in s.db.reports && s.db.reports[id].status == EndorsedBySupervisor
    ensures var after := Run(s, dir, actions).db; id in after.reports && after.reports[id] == s.db.reports[id]
  {
    Serialisable(s, dir, actions);
    EndorsedRowsAreFixed(s.db, dir, Log(s, dir, actions), id);
  }

  ghost predicate Budget(db: Db) {
    KeyedById(db) && forall id :: id in db.reports ==> db.reports[id].version + Rank(db.reports[id].status) >= 6
  }

  lemma {:induction false} SerialKeepsBudget(db: Db, dir: Directory, ts: seq<Txn>)
    requires Budget(db) && Serial(db, dir, ts).Success?
    ensures Budget(Serial(db, dir, ts).value)
    decreases |ts|
  {
    if ts == [] {
    } else {
      SerialKeepsBudget(Atomic(db, dir, ts[0]).value, dir, ts[1..]);
    }
  }

  /** Creation plus the five mutations of the shortest way: an endorsed report is at version 6 or later. */
  lemma EndorsedVersionAtLeastSix(dir: Directory, actions: seq<Action>, id: ReportId)
    requires id in Run(INITIAL, dir, actions).db.reports
    requires Run(INITIAL, dir, actions).db.reports[id].status == EndorsedBySupervisor
    ensures Run(INITIAL, dir, actions).db.reports[id].version >= 6
  {
    InitialInv(dir);
    Serialisable(INITIAL, dir, actions);
    SerialKeepsBudget(EMPTY_DB, dir, Log(INITIAL, dir, actions));
  }

  // ---- The cleaner's task list ------------------------------------------------------

  /** The row filter of the task list. */
  predicate IsTaskOf(row: Report, user: UserId) {
    && row.cleaner == Some(user)
    && row.status in {Assigned, AcceptedByCleaner, InProgress, RejectedBySupervisor}
  }

  /** A report is listed exactly when one of the four cleaner actions would pass its guard. */
  lemma TasksAreTheActionableReports(db: Db, dir: Directory, actor: Actor, id: ReportId)
    requires id in db.reports
    ensures IsTaskOf(db.reports[id], actor.userId)
            <==> exists m :: IsCleanerAction(m) && Begin(db, dir, actor, id, m).Success?
  {
    var row := db.reports[id];
    if IsTaskOf(row, actor.userId) {
      var m := match row.status
        case Assigned => CleanerAccept
        case InProgress => CleanerResolve(None, [])
        case _ => CleanerStart;
      assert IsCleanerAction(m) && Begin(db, dir, actor, id, m).Success?;
    }
  }
}
