/** Many clients' transactions, each a row read and a later version-guarded write, in any order.
    Any run leaves the tables of the serial run of its committed transactions, in commit order. */
module Interleaving {
  import opened Sequences
  import opened Wrappers
  import opened ReportModel

  type TxId = nat

  datatype Action =
    | Read(tx: TxId, actor: Actor, id: ReportId, mutation: Mutation)
    | Write(tx: TxId)
    | New(actor: Actor, id: ReportId, input: CreateInput, hint: Option<GeoHint>)
    | ForeignEvent // another tenant's event takes the next number of the shared sequence

  datatype System = System(db: Db, open: map<TxId, Pending>)

  const INITIAL := System(EMPTY_DB, map[])

  /** One whole transaction with nothing between its read and its write. */
  datatype Txn =
    | Created(actor: Actor, id: ReportId, input: CreateInput, hint: Option<GeoHint>)
    | Mutated(actor: Actor, id: ReportId, mutation: Mutation)
    | NumberTaken

  function CommittedDb(db: Db, r: Result<Committed, Error>): Db {
    if r.Success? then r.value.db else db
  }

  function Step(s: System, dir: Directory, a: Action): System {
    match a
    case Read(tx, actor, id, m) =>
      var r := Begin(s.db, dir, actor, id, m);
      if tx in s.open || r.Failure? then s else s.(open := s.open[tx := r.value])
    case Write(tx) =>
      if tx !in s.open then s
      else System(CommittedDb(s.db, Commit(s.db, s.open[tx])), s.open - {tx})
    case New(actor, id, input, hint) => s.(db := CommittedDb(s.db, Create(s.db, dir, actor, id, input, hint)))
    case ForeignEvent => s.(db := s.db.(nextSeq := s.db.nextSeq + 1))
  }

  function Run(s: System, dir: Directory, actions: seq<Action>): System
    decreases |actions|
  {
    if actions == [] then s else Run(Step(s, dir, actions[0]), dir, actions[1..])
  }

  /** The transaction an action commits, if it commits one. */
  function Entry(s: System, dir: Directory, a: Action): seq<Txn> {
    match a
    case Read(_, _, _, _) => []
    case Write(tx) =>
      if tx in s.open && Commit(s.db, s.open[tx]).Success?
      then [Mutated(s.open[tx].actor, s.open[tx].existing.id, s.open[tx].mutation)] else []
    case New(actor, id, input, hint) =>
      if Create(s.db, dir, actor, id, input, hint).Success? then [Created(actor, id, input, hint)] else []
    case ForeignEvent => [NumberTaken]
  }

  function Log(s: System, dir: Directory, actions: seq<Action>): seq<Txn>
    decreases |actions|
  {
    if actions == [] then [] else Entry(s, dir, actions[0]) + Log(Step(s, dir, actions[0]), dir, actions[1..])
  }

  /** A transaction run alone: read, check against that very row, write. */
  function Atomic(db: Db, dir: Directory, t: Txn): Result<Db, Error> {
    match t
    case Created(actor, id, input, hint) =>
      (match Create(db, dir, actor, id, input, hint)
       case Success(c) => Success(c.db)
       case Failure(e) => Failure(e))
    case Mutated(actor, id, m) =>
      (match Begin(db, dir, actor, id, m)
       case Success(p) => Success(Applied(db, actor, p.existing, m).db)
       case Failure(e) => Failure(e))
    case NumberTaken => Success(db.(nextSeq := db.nextSeq + 1))
  }

  function Serial(db: Db, dir: Directory, ts: seq<Txn>): Result<Db, Error>
    decreases |ts|
  {
    if ts == [] then Success(db)
    else
      var r := Atomic(db, dir, ts[0]);
      if r.Failure? then r else Serial(r.value, dir, ts[1..])
  }

  // ---- The invariant --------------------------------------------------------

  ghost predicate KeyedById(db: Db) {
    forall id :: id in db.reports ==> db.reports[id].id == id
  }

  /** What an open transaction read is still true of the row, or the row's version has moved on:
      one version number names one row state. */
  ghost predicate Current(db: Db, dir: Directory, p: Pending) {
    var id := p.existing.id;
    && id in db.reports
    && db.reports[id].version >= p.existing.version
    && (db.reports[id].version == p.existing.version ==> db.reports[id] == p.existing)
    && Allowed(p.mutation, p.actor, dir, p.existing)
  }

  ghost predicate Inv(s: System, dir: Directory) {
    KeyedById(s.db) && forall tx :: tx in s.open ==> Current(s.db, dir, s.open[tx])
  }

  lemma StepKeepsInv(s: System, dir: Directory, a: Action)
    requires Inv(s, dir)
    ensures Inv(Step(s, dir, a), dir)
  {
    var after := Step(s, dir, a);
    forall tx | tx in after.open
      ensures Current(after.db, dir, after.open[tx])
    {
      if tx in s.open {
        assert Current(s.db, dir, s.open[tx]);
      }
    }
  }

  // ---- Serialisability --------------------------------------------------------

  /** A commit is a legal transition from the row as it stands at commit; anything else changes no table. */
  lemma StepIsAtomic(s: System, dir: Directory, a: Action)
    requires Inv(s, dir)
    ensures var log := Entry(s, dir, a);
            if log == [] then Step(s, dir, a).db == s.db
            else |log| == 1 && Atomic(s.db, dir, log[0]) == Success(Step(s, dir, a).db)
  {
    if a.Write? && a.tx in s.open {
      assert Current(s.db, dir, s.open[a.tx]);
    }
  }

  /** Every interleaving equals the serial run of what it committed, and every step of that serial run is legal. */
  lemma {:induction false} Serialisable(s: System, dir: Directory, actions: seq<Action>)
    requires Inv(s, dir)
    ensures Serial(s.db, dir, Log(s, dir, actions)) == Success(Run(s, dir, actions).db)
    decreases |actions|
  {
    if actions == [] {
    } else {
      var next, log := Step(s, dir, actions[0]), Entry(s, dir, actions[0]);
      StepKeepsInv(s, dir, actions[0]);
      StepIsAtomic(s, dir, actions[0]);
      Serialisable(next, dir, actions[1..]);
      var rest := Log(next, dir, actions[1..]);
      if log == [] {
        assert log + rest == rest;
      } else {
        assert (log + rest)[0] == log[0] && (log + rest)[1..] == rest;
      }
    }
  }

  function ActionsFor(t: Txn, tx: TxId): seq<Action> {
    match t
    case Created(actor, id, input, hint) => [New(actor, id, input, hint)]
    case Mutated(actor, id, m) => [Read(tx, actor, id, m), Write(tx)]
    case NumberTaken => [ForeignEvent]
  }

  /** A serial run as client actions: each mutation is read and written at once under one transaction id. */
  function AsActions(ts: seq<Txn>, tx: TxId): seq<Action> {
    if ts == [] then [] else ActionsFor(ts[0], tx) + AsActions(ts[1..], tx)
  }

  lemma {:induction false} RunJoin(s: System, dir: Directory, a: seq<Action>, b: seq<Action>)
    ensures Run(s, dir, a + b) == Run(Run(s, dir, a), dir, b)
    ensures Log(s, dir, a + b) == Log(s, dir, a) + Log(Run(s, dir, a), dir, b)
    decreases |a|
  {
    if a == [] {
      assert a + b == b;
    } else {
      RunJoin(Step(s, dir, a[0]), dir, a[1..], b);
      assert (a + b)[0] == a[0] && (a + b)[1..] == a[1..] + b;
      var next := Step(s, dir, a[0]);
      ConcatAssociates(Entry(s, dir, a[0]), Log(next, dir, a[1..]), Log(Run(next, dir, a[1..]), dir, b));
    }
  }

  lemma OneStep(s: System, dir: Directory, a: Action)
    ensures Run(s, dir, [a]) == Step(s, dir, a) && Log(s, dir, [a]) == Entry(s, dir, a)
  {
    var acts := [a];
    assert acts[1..] == [];
    assert Log(Step(s, dir, a), dir, acts[1..]) == [];
  }

  lemma AtomicIsARun(s: System, dir: Directory, t: Txn, tx: TxId)
    requires KeyedById(s.db) && tx !in s.open && Atomic(s.db, dir, t).Success?
    ensures Run(s, dir, ActionsFor(t, tx)) == System(Atomic(s.db, dir, t).value, s.open)
    ensures Log(s, dir, ActionsFor(t, tx)) == [t]
  {
    match t
    case Created(actor, id, input, hint) => OneStep(s, dir, New(actor, id, input, hint));
    case Mutated(actor, id, m) =>
      var begun := Step(s, dir, Read(tx, actor, id, m));
      assert begun == s.(open := s.open[tx := Pending(actor, s.db.reports[id], m)]);
      assert begun.open - {tx} == s.open;
      OneStep(s, dir, Read(tx, actor, id, m));
      OneStep(begun, dir, Write(tx));
      RunJoin(s, dir, [Read(tx, actor, id, m)], [Write(tx)]);
      assert ActionsFor(t, tx) == [Read(tx, actor, id, m)] + [Write(tx)];
    case NumberTaken => OneStep(s, dir, ForeignEvent);
  }

  lemma {:induction false} RunKeepsInv(s: System, dir: Directory, actions: seq<Action>)
    requires Inv(s, dir)
    ensures Inv(Run(s, dir, actions), dir)
    decreases |actions|
  {
    if actions == [] {
    } else {
      StepKeepsInv(s, dir, actions[0]);
      RunKeepsInv(Step(s, dir, actions[0]), dir, actions[1..]);
    }
  }

  /** The converse of serialisability: every legal serial run is what some client actions commit, whatever other
      transactions are open, and leaves those open. */
  lemma {:induction false} SerialIsARun(s: System, dir: Directory, ts: seq<Txn>, tx: TxId)
    requires KeyedById(s.db) && tx !in s.open && Serial(s.db, dir, ts).Success?
    ensures Run(s, dir, AsActions(ts, tx)) == System(Serial(s.db, dir, ts).value, s.open)
    ensures Log(s, dir, AsActions(ts, tx)) == ts
    decreases |ts|
  {
    if ts == [] {
    } else {
      var first := ActionsFor(ts[0], tx);
      AtomicIsARun(s, dir, ts[0], tx);
      AtomicAttachments(s.db, dir, ts[0]);
      var next := Run(s, dir, first);
      SerialIsARun(next, dir, ts[1..], tx);
      RunJoin(s, dir, first, AsActions(ts[1..], tx));
      assert ts == [ts[0]] + ts[1..];
    }
  }

  lemma InitialInv(dir: Directory)
    ensures Inv(INITIAL, dir)
  {}

  // ---- Evidence -------------------------------------------------------------------

  function UploadsOf(t: Txn): seq<Attachment> {
    match t
    case Created(actor, id, input, _) => Uploads(input.attachments, id, actor.userId)
    case Mutated(actor, id, m) => AttachmentsOf(m, actor, id)
    case NumberTaken => []
  }

  function AllUploads(ts: seq<Txn>): seq<Attachment> {
    if ts == [] then [] else UploadsOf(ts[0]) + AllUploads(ts[1..])
  }

  lemma AtomicAttachments(db: Db, dir: Directory, t: Txn)
    requires KeyedById(db) && Atomic(db, dir, t).Success?
    ensures KeyedById(Atomic(db, dir, t).value)
    ensures Atomic(db, dir, t).value.attachments == db.attachments + UploadsOf(t)
  {
    match t
    case Created(_, _, _, _) =>
    case Mutated(_, _, _) =>
    case NumberTaken =>
  }

  lemma {:induction false} SerialAttachments(db: Db, dir: Directory, ts: seq<Txn>)
    requires KeyedById(db) && Serial(db, dir, ts).Success?
    ensures Serial(db, dir, ts).value.attachments == db.attachments + AllUploads(ts)
    decreases |ts|
  {
    if ts == [] {
    } else {
      AtomicAttachments(db, dir, ts[0]);
      ConcatAssociates(db.attachments, UploadsOf(ts[0]), AllUploads(ts[1..]));
      SerialAttachments(Atomic(db, dir, ts[0]).value, dir, ts[1..]);
    }
  }

  /** The stored evidence is what the committed transactions uploaded, in commit order, and nothing an aborted
      write had already inserted. */
  lemma AttachmentsAreThoseCommitted(s: System, dir: Directory, actions: seq<Action>)
    requires Inv(s, dir)
    ensures Run(s, dir, actions).db.attachments == s.db.attachments + AllUploads(Log(s, dir, actions))
  {
    Serialisable(s, dir, actions);
    SerialAttachments(s.db, dir, Log(s, dir, actions));
  }

  // ---- When a write is refused --------------------------------------------------

  function MutationsOf(ts: seq<Txn>, id: ReportId): nat {
    if ts == [] then 0
    else (if ts[0].Mutated? && ts[0].id == id then 1 else 0) + MutationsOf(ts[1..], id)
  }

  /** A report that exists stays, and its version counts the mutations committed on it. */
  lemma {:induction false} VersionCountsMutations(db: Db, dir: Directory, ts: seq<Txn>, id: ReportId)
    requires KeyedById(db) && id in db.reports && Serial(db, dir, ts).Success?
    ensures var after := Serial(db, dir, ts).value;
            && KeyedById(after)
            && id in after.reports
            && after.reports[id].version == db.reports[id].version + MutationsOf(ts, id)
            && (MutationsOf(ts, id) == 0 ==> after.reports[id] == db.reports[id])
    decreases |ts|
  {
    if ts == [] {
    } else {
      VersionCountsMutations(Atomic(db, dir, ts[0]).value, dir, ts[1..], id);
    }
  }

  /** Whatever runs between a read and its write, the write commits exactly when no rival mutation of that
      report committed meanwhile; otherwise it answers with a stale version and changes no table. */
  lemma WriteSucceedsIffNoRival(s: System, dir: Directory, tx: TxId, actor: Actor, id: ReportId, m: Mutation,
                                between: seq<Action>)
    requires Inv(s, dir) && tx !in s.open && Begin(s.db, dir, actor, id, m).Success?
    requires Write(tx) !in between
    ensures var begun := Step(s, dir, Read(tx, actor, id, m));
            var later := Run(begun, dir, between);
            var rivals := MutationsOf(Log(begun, dir, between), id);
            && tx in later.open
            && (if rivals == 0 then Commit(later.db, later.open[tx]).Success?
                else Commit(later.db, later.open[tx]) == Failure(StaleVersion)
                     && Step(later, dir, Write(tx)).db == later.db)
            && Step(later, dir, Write(tx)).open == later.open - {tx}
  {
    var begun := Step(s, dir, Read(tx, actor, id, m));
    StepKeepsInv(s, dir, Read(tx, actor, id, m));
    Serialisable(begun, dir, between);
    VersionCountsMutations(begun.db, dir, Log(begun, dir, between), id);
    OpenUntilWritten(begun, dir, between, tx);
  }

  lemma {:induction false} OpenUntilWritten(s: System, dir: Directory, actions: seq<Action>, tx: TxId)
    requires tx in s.open && Write(tx) !in actions
    ensures tx in Run(s, dir, actions).open && Run(s, dir, actions).open[tx] == s.open[tx]
    decreases |actions|
  {
    if actions == [] {
    } else {
      assert actions[0] in actions;
      assert forall a :: a in actions[1..] ==> a in actions;
      OpenUntilWritten(Step(s, dir, actions[0]), dir, actions[1..], tx);
    }
  }
}
