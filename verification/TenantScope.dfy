/** The query rewriter that confines every operation to the current tenant (apps/api/src/infra/prisma.ts), and what
    that means for two databases that differ only in other tenants' rows. */
module TenantScope {
  import opened Sequences
  import opened Wrappers

  type TenantId = string
  datatype Field = TenantIdField | Column(name: string)

  datatype Value = Null | Text(s: string) | Number(n: int) | Flag(b: bool)

  type Row = map<Field, Value>

  /** A where object: every key contributes one condition on the row (a column test, or an OR/AND/NOT group). */
  type Where = map<Field, Row -> bool>

  datatype Model =
    | UserAccount | MasterUser | Cleaner | Report | ReportSequence | DeviceRegistration | NotificationEvent
    | DeviceV2 | DeviceSession | UserRoleV2 | ReportV2 | ReportAttachmentV2 | ReportEventV2 | NotificationV2
    | TenantGeoV2 | CampusLandmarkV2
    | Unscoped(name: string)

  datatype Operation =
    | FindFirst | FindFirstOrThrow | FindMany | FindUnique | FindUniqueOrThrow | Count | Aggregate | GroupBy
    | Update | UpdateMany | Delete | DeleteMany
    | Create | CreateMany | Upsert
    | CreateManyAndReturn | UpdateManyAndReturn
    | Other(name: string) // a read outside the lists, should one be added

  predicate IsRead(op: Operation) {
    op.FindFirst? || op.FindFirstOrThrow? || op.FindMany? || op.FindUnique? || op.FindUniqueOrThrow? || op.Count?
    || op.Aggregate? || op.GroupBy?
  }

  predicate IsWrite(op: Operation) {
    op.Update? || op.UpdateMany? || op.Delete? || op.DeleteMany?
  }

  predicate IsCreate(op: Operation) {
    op.Create? || op.CreateMany? || op.Upsert?
  }

  /** Named in one of the rewriter's three lists. */
  predicate IsListed(op: Operation) {
    IsRead(op) || IsWrite(op) || IsCreate(op)
  }

  datatype Data = NoData | One(row: Row) | Many(rows: seq<Row>)

  datatype Args = Args(filter: Where, data: Data, create: Row, update: Row)

  predicate Owns(t: TenantId, row: Row) {
    TenantIdField in row && row[TenantIdField] == Text(t)
  }

  function OwnedBy(t: TenantId): Row -> bool {
    row => Owns(t, row)
  }

  // ---- The rewriter -----------------------------------------------------------------

  function Stamp(row: Row, t: TenantId): Row {
    row[TenantIdField := Text(t)]
  }

  function StampAll(rows: seq<Row>, t: TenantId): seq<Row> {
    seq(|rows|, i requires 0 <= i < |rows| => Stamp(rows[i], t))
  }

  /** The arguments a scoped model's query is passed on with. */
  function Scoped(op: Operation, a: Args, t: TenantId): Args {
    if IsRead(op) || IsWrite(op) then a.(filter := a.filter[TenantIdField := OwnedBy(t)])
    else match op
      case Create => a.(data := One(Stamp(if a.data.One? then a.data.row else map[], t)))
      case CreateMany =>
        a.(data := match a.data
             case Many(rows) => Many(StampAll(rows, t))
             case One(row) => One(Stamp(row, t))
             case NoData => NoData)
      case Upsert => a.(create := Stamp(a.create, t), filter := a.filter[TenantIdField := OwnedBy(t)])
      case _ => a
  }

  datatype Outcome = Passed | Forbidden

  /** The argument object of one call. */
  class QueryArgs {
    var filter: Where
    var data: Data
    var create: Row
    var update: Row

    ghost function Contents(): Args
      reads this
    {
      Args(filter, data, create, update)
    }

    constructor (a: Args)
      ensures Contents() == a
    {
      filter, data, create, update := a.filter, a.data, a.create, a.update;
    }

    /** Rewrites the object in place before it is passed on. */
    method Intercept(model: Model, op: Operation, tenant: Option<TenantId>) returns (r: Outcome)
      modifies this
      ensures update == old(update)
      ensures model.Unscoped? ==> r == Passed && Contents() == old(Contents())
      ensures !model.Unscoped? && (tenant.None? || tenant.value == "") ==>
                r == Forbidden && Contents() == old(Contents())
      ensures !model.Unscoped? && tenant.Some? && tenant.value != "" ==>
                r == Passed && Contents() == Scoped(op, old(Contents()), tenant.value)
    {
      if model.Unscoped? { return Passed; }
      if tenant.None? || tenant.value == "" { return Forbidden; }
      var tenantId := tenant.value;
      if IsRead(op) || IsWrite(op) {
        filter := filter[TenantIdField := OwnedBy(tenantId)];
        return Passed;
      }
      if IsCreate(op) {
        if op == Create {
          data := One((if data.One? then data.row else map[])[TenantIdField := Text(tenantId)]);
        } else if op == CreateMany {
          if data.Many? {
            data := Many(StampAll(data.rows, tenantId));
          } else if data.One? {
            data := One(data.row[TenantIdField := Text(tenantId)]);
          }
        } else if op == Upsert {
          create := create[TenantIdField := Text(tenantId)];
          filter := filter[TenantIdField := OwnedBy(tenantId)];
        }
        return Passed;
      }
      r := Passed;
    }
  }

  // ---- What the database does with a query ----------------------------------------------

  type Db = map<Model, seq<Row>>

  function Table(db: Db, m: Model): seq<Row> {
    if m in db then db[m] else []
  }

  predicate Meets(w: Where, row: Row) {
    forall k :: k in w ==> w[k](row)
  }

  function Hits(w: Where): Row -> bool {
    row => Meets(w, row)
  }

  function Keep(rows: seq<Row>, p: Row -> bool): (r: seq<Row>)
    ensures forall row :: row in r ==> row in rows && p(row)
  {
    if rows == [] then [] else if p(rows[0]) then [rows[0]] + Keep(rows[1..], p) else Keep(rows[1..], p)
  }

  /** Rewrites the rows that hit: all of them, or the first only. A rewrite to None deletes. */
  function Rewrite(rows: seq<Row>, hit: Row -> bool, f: Row -> Option<Row>, all: bool): seq<Row> {
    if rows == [] then []
    else if hit(rows[0]) then
      var rest := if all then Rewrite(rows[1..], hit, f, all) else rows[1..];
      if f(rows[0]).Some? then [f(rows[0]).value] + rest else rest
    else [rows[0]] + Rewrite(rows[1..], hit, f, all)
  }

  function Patch(patch: Row): Row -> Option<Row> {
    row => Some(row + patch)
  }

  function Remove(): Row -> Option<Row> {
    row => None
  }

  datatype Answer = Rows(rows: seq<Row>) | Counted(n: nat) | RecordNotFound

  function First(rows: seq<Row>): seq<Row> {
    if rows == [] then [] else [rows[0]]
  }

  /** The answer to an operation, from the rows it hits (ordering, paging and aggregates are functions of these). */
  function AnswerOf(op: Operation, hits: seq<Row>, a: Args): Answer {
    match op
    case FindFirst => Rows(First(hits))
    case FindUnique => Rows(First(hits))
    case FindFirstOrThrow => if hits == [] then RecordNotFound else Rows(First(hits))
    case FindUniqueOrThrow => if hits == [] then RecordNotFound else Rows(First(hits))
    case Count => Counted(|hits|)
    case Update => if hits == [] then RecordNotFound else Rows([hits[0] + PatchOf(a)])
    case Delete => if hits == [] then RecordNotFound else Rows(First(hits))
    case UpdateMany => Counted(|hits|)
    case DeleteMany => Counted(|hits|)
    case Create => Rows(NewRows(a.data))
    case CreateMany => Counted(|NewRows(a.data)|)
    case Upsert => Rows(if hits == [] then [a.create] else [hits[0] + a.update])
    case CreateManyAndReturn => Rows(NewRows(a.data))
    case UpdateManyAndReturn => Rows(PatchAll(hits, PatchOf(a)))
    case _ => Rows(hits)
  }

  function PatchAll(rows: seq<Row>, patch: Row): seq<Row> {
    seq(|rows|, i requires 0 <= i < |rows| => rows[i] + patch)
  }

  function PatchOf(a: Args): Row {
    if a.data.One? then a.data.row else map[]
  }

  function NewRows(d: Data): seq<Row> {
    match d
    case NoData => []
    case One(row) => [row]
    case Many(rows) => rows
  }

  function TableAfter(op: Operation, rows: seq<Row>, a: Args): seq<Row> {
    match op
    case Update => Rewrite(rows, Hits(a.filter), Patch(PatchOf(a)), false)
    case UpdateMany => Rewrite(rows, Hits(a.filter), Patch(PatchOf(a)), true)
    case UpdateManyAndReturn => Rewrite(rows, Hits(a.filter), Patch(PatchOf(a)), true)
    case Delete => Rewrite(rows, Hits(a.filter), Remove(), false)
    case DeleteMany => Rewrite(rows, Hits(a.filter), Remove(), true)
    case Create => rows + NewRows(a.data)
    case CreateMany => rows + NewRows(a.data)
    case CreateManyAndReturn => rows + NewRows(a.data)
    case Upsert =>
      if Keep(rows, Hits(a.filter)) == [] then rows + [a.create]
      else Rewrite(rows, Hits(a.filter), Patch(a.update), false)
    case _ => rows
  }

  datatype Query = Query(model: Model, op: Operation, args: Args)

  function Sent(q: Query, t: TenantId): Args {
    if q.model.Unscoped? then q.args else Scoped(q.op, q.args, t)
  }

  function DbAfter(db: Db, q: Query, t: TenantId): Db {
    db[q.model := TableAfter(q.op, Table(db, q.model), Sent(q, t))]
  }

  function AnswerTo(db: Db, q: Query, t: TenantId): Answer {
    AnswerOf(q.op, Keep(Table(db, q.model), Hits(Sent(q, t).filter)), Sent(q, t))
  }

  function RunAll(db: Db, qs: seq<Query>, t: TenantId): Db
    decreases |qs|
  {
    if qs == [] then db else RunAll(DbAfter(db, qs[0], t), qs[1..], t)
  }

  function Answers(db: Db, qs: seq<Query>, t: TenantId): seq<Answer>
    decreases |qs|
  {
    if qs == [] then [] else [AnswerTo(db, qs[0], t)] + Answers(DbAfter(db, qs[0], t), qs[1..], t)
  }

  // ---- Isolation --------------------------------------------------------------------------

  function Mine(rows: seq<Row>, t: TenantId): seq<Row> {
    Keep(rows, OwnedBy(t))
  }

  function NotOwnedBy(t: TenantId): Row -> bool {
    row => !Owns(t, row)
  }

  function Theirs(rows: seq<Row>, t: TenantId): seq<Row> {
    Keep(rows, NotOwnedBy(t))
  }

  /** The two databases show the tenant the same rows (and share the tables that belong to no tenant). */
  ghost predicate Agree(db: Db, db': Db, t: TenantId) {
    forall m: Model :: if m.Unscoped? then Table(db, m) == Table(db', m)
                       else Mine(Table(db, m), t) == Mine(Table(db', m), t)
  }

  predicate KeepsTenant(patch: Row, t: TenantId) {
    TenantIdField !in patch || patch[TenantIdField] == Text(t)
  }

  /** The update data, where the operation has any, does not move rows to another tenant. */
  predicate UpdateKeepsTenant(op: Operation, a: Args, t: TenantId) {
    && (op.Update? || op.UpdateMany? || op.UpdateManyAndReturn? ==> KeepsTenant(PatchOf(a), t))
    && (op.Upsert? ==> KeepsTenant(a.update, t))
  }

  /** One of the operations the rewriter lists, with such data. */
  predicate Listed(q: Query, t: TenantId) {
    IsListed(q.op) && UpdateKeepsTenant(q.op, q.args, t)
  }

  ghost predicate OnlyHitsOwn(hit: Row -> bool, t: TenantId) {
    forall row :: hit(row) ==> Owns(t, row)
  }

  ghost predicate StaysOwn(f: Row -> Option<Row>, t: TenantId) {
    forall row :: Owns(t, row) && f(row).Some? ==> Owns(t, f(row).value)
  }

  lemma KeepCons(row: Row, rest: seq<Row>, p: Row -> bool)
    ensures Keep([row] + rest, p) == if p(row) then [row] + Keep(rest, p) else Keep(rest, p)
  {
    assert ([row] + rest)[1..] == rest;
  }

  lemma RewriteCons(row: Row, rest: seq<Row>, hit: Row -> bool, f: Row -> Option<Row>, all: bool)
    ensures Rewrite([row] + rest, hit, f, all) ==
              if !hit(row) then [row] + Rewrite(rest, hit, f, all)
              else
                var tail := if all then Rewrite(rest, hit, f, all) else rest;
                if f(row).Some? then [f(row).value] + tail else tail
  {
    assert ([row] + rest)[1..] == rest;
  }

  lemma {:induction false} HitsAmongOwn(rows: seq<Row>, hit: Row -> bool, t: TenantId)
    requires OnlyHitsOwn(hit, t)
    ensures Keep(rows, hit) == Keep(Mine(rows, t), hit)
  {
    if rows == [] {
    } else {
      HitsAmongOwn(rows[1..], hit, t);
      KeepCons(rows[0], Mine(rows[1..], t), hit);
    }
  }

  /** A rewrite that hits only own rows is, to the owner, the same rewrite of the owner's view, and to everyone else
      nothing. */
  lemma {:induction false} RewriteIsPrivate(rows: seq<Row>, hit: Row -> bool, f: Row -> Option<Row>, all: bool,
                                            t: TenantId)
    requires OnlyHitsOwn(hit, t) && StaysOwn(f, t)
    ensures Mine(Rewrite(rows, hit, f, all), t) == Rewrite(Mine(rows, t), hit, f, all)
    ensures Theirs(Rewrite(rows, hit, f, all), t) == Theirs(rows, t)
  {
    if rows == [] {
    } else {
      var row, rest := rows[0], rows[1..];
      RewriteIsPrivate(rest, hit, f, all, t);
      var tail := if hit(row) && !all then rest else Rewrite(rest, hit, f, all);
      var now := if hit(row) && f(row).Some? then f(row).value else row;
      RewriteCons(row, Mine(rest, t), hit, f, all);
      KeepCons(now, tail, OwnedBy(t));
      KeepCons(now, tail, NotOwnedBy(t));
    }
  }

  lemma {:induction false} KeepJoin(a: seq<Row>, b: seq<Row>, p: Row -> bool)
    ensures Keep(a + b, p) == Keep(a, p) + Keep(b, p)
  {
    if a == [] {
      assert a + b == b;
    } else {
      KeepJoin(a[1..], b, p);
      assert (a + b)[1..] == a[1..] + b;
      ConcatAssociates([a[0]], Keep(a[1..], p), Keep(b, p));
    }
  }

  lemma {:induction false} KeepAll(rows: seq<Row>, p: Row -> bool)
    requires forall row :: row in rows ==> p(row)
    ensures Keep(rows, p) == rows
  {
    if rows == [] {
    } else {
      KeepAll(rows[1..], p);
    }
  }

  lemma {:induction false} KeepNone(rows: seq<Row>, p: Row -> bool)
    requires forall row :: row in rows ==> !p(row)
    ensures Keep(rows, p) == []
  {
    if rows == [] {
    } else {
      KeepNone(rows[1..], p);
    }
  }

  lemma InsertIsPrivate(rows: seq<Row>, added: seq<Row>, t: TenantId)
    requires forall row :: row in added ==> Owns(t, row)
    ensures Mine(rows + added, t) == Mine(rows, t) + added
    ensures Theirs(rows + added, t) == Theirs(rows, t)
  {
    KeepJoin(rows, added, OwnedBy(t));
    KeepJoin(rows, added, NotOwnedBy(t));
    KeepAll(added, OwnedBy(t));
    KeepNone(added, NotOwnedBy(t));
  }

  lemma ScopedFilterHitsOwn(w: Where, t: TenantId)
    ensures OnlyHitsOwn(Hits(w[TenantIdField := OwnedBy(t)]), t)
  {
    var scoped := w[TenantIdField := OwnedBy(t)];
    forall row | Hits(scoped)(row)
      ensures Owns(t, row)
    {
      assert TenantIdField in scoped && scoped[TenantIdField](row);
    }
  }

  /** To the tenant the operation acts on its own view alone; to the others it does nothing. */
  ghost predicate Private(op: Operation, rows: seq<Row>, a: Args, t: TenantId) {
    && Mine(TableAfter(op, rows, a), t) == TableAfter(op, Mine(rows, t), a)
    && Theirs(TableAfter(op, rows, a), t) == Theirs(rows, t)
    && AnswerOf(op, Keep(rows, Hits(a.filter)), a) == AnswerOf(op, Keep(Mine(rows, t), Hits(a.filter)), a)
  }

  lemma ReadIsPrivate(op: Operation, rows: seq<Row>, a: Args, t: TenantId)
    requires IsRead(op) && OnlyHitsOwn(Hits(a.filter), t)
    ensures Private(op, rows, a, t)
  {
    HitsAmongOwn(rows, Hits(a.filter), t);
  }

  lemma WriteIsPrivate(op: Operation, rows: seq<Row>, a: Args, t: TenantId)
    requires IsWrite(op) && OnlyHitsOwn(Hits(a.filter), t)
    requires op.Update? || op.UpdateMany? ==> KeepsTenant(PatchOf(a), t)
    ensures Private(op, rows, a, t)
  {
    HitsAmongOwn(rows, Hits(a.filter), t);
    var f := if op.Update? || op.UpdateMany? then Patch(PatchOf(a)) else Remove();
    RewriteIsPrivate(rows, Hits(a.filter), f, op in {UpdateMany, DeleteMany}, t);
  }

  lemma UpsertIsPrivate(rows: seq<Row>, a: Args, t: TenantId)
    requires OnlyHitsOwn(Hits(a.filter), t) && KeepsTenant(a.update, t) && Owns(t, a.create)
    ensures Private(Upsert, rows, a, t)
  {
    HitsAmongOwn(rows, Hits(a.filter), t);
    RewriteIsPrivate(rows, Hits(a.filter), Patch(a.update), false, t);
    InsertIsPrivate(rows, [a.create], t);
  }

  lemma CreateIsPrivate(op: Operation, rows: seq<Row>, a: Args, t: TenantId)
    requires op in {Create, CreateMany} && forall row :: row in NewRows(a.data) ==> Owns(t, row)
    ensures Private(op, rows, a, t)
  {
    InsertIsPrivate(rows, NewRows(a.data), t);
  }

  lemma OperationIsPrivate(q: Query, rows: seq<Row>, t: TenantId)
    requires !q.model.Unscoped? && Listed(q, t)
    ensures Private(q.op, rows, Sent(q, t), t)
  {
    var a := Sent(q, t);
    ScopedFilterHitsOwn(q.args.filter, t);
    if IsRead(q.op) {
      ReadIsPrivate(q.op, rows, a, t);
    } else if IsWrite(q.op) {
      WriteIsPrivate(q.op, rows, a, t);
    } else if q.op == Upsert {
      UpsertIsPrivate(rows, a, t);
    } else {
      CreateIsPrivate(q.op, rows, a, t);
    }
  }

  // ---- Which operations are private ---------------------------------------------------------

  /** Whatever rows the table holds and whatever the arguments, as long as update data keeps the tenant. */
  ghost predicate AlwaysPrivate(op: Operation, t: TenantId) {
    forall rows: seq<Row>, a: Args :: UpdateKeepsTenant(op, a, t) ==> Private(op, rows, Scoped(op, a, t), t)
  }

  function NotTheOwner(t: TenantId): (other: TenantId)
    ensures other != t
  {
    t + "x"
  }

  /** A row of another tenant, and arguments that name no rows in particular: every row hits. */
  function Foreign(t: TenantId): (row: Row)
    ensures !Owns(t, row)
  {
    map[TenantIdField := Text(NotTheOwner(t))]
  }

  function Unfiltered(data: Data): Args {
    Args(map[], data, map[], map[])
  }

  lemma ForeignRowHits(t: TenantId, data: Data)
    ensures Mine([Foreign(t)], t) == [] && Theirs([Foreign(t)], t) == [Foreign(t)]
    ensures Keep([Foreign(t)], Hits(Unfiltered(data).filter)) == [Foreign(t)]
  {
    KeepNone([Foreign(t)], OwnedBy(t));
    KeepAll([Foreign(t)], NotOwnedBy(t));
    KeepAll([Foreign(t)], Hits(Unfiltered(data).filter));
  }

  /** A further read, if it is added without being listed, answers with another tenant's row. */
  lemma UnlistedReadLeaks(name: string, t: TenantId)
    ensures AnswerOf(Other(name), Keep([Foreign(t)], Hits(Scoped(Other(name), Unfiltered(NoData), t).filter)),
                     Scoped(Other(name), Unfiltered(NoData), t)) == Rows([Foreign(t)])
    ensures !Private(Other(name), [Foreign(t)], Scoped(Other(name), Unfiltered(NoData), t), t)
  {
    ForeignRowHits(t, NoData);
  }

  /** An update outside the lists rewrites another tenant's row and answers with it. */
  lemma UnlistedUpdateReaches(t: TenantId)
    ensures var patch: Row := map[Column("name") := Null];
            var a := Scoped(UpdateManyAndReturn, Unfiltered(One(patch)), t);
            && UpdateKeepsTenant(UpdateManyAndReturn, Unfiltered(One(patch)), t)
            && TableAfter(UpdateManyAndReturn, [Foreign(t)], a) == [Foreign(t) + patch]
            && AnswerOf(UpdateManyAndReturn, Keep([Foreign(t)], Hits(a.filter)), a) == Rows([Foreign(t) + patch])
            && !Private(UpdateManyAndReturn, [Foreign(t)], a, t)
  {
    var patch: Row := map[Column("name") := Null];
    var a := Unfiltered(One(patch));
    ForeignRowHits(t, One(patch));
    assert Hits(a.filter)(Foreign(t));
    assert [Foreign(t)] + [] == [Foreign(t)];
    RewriteCons(Foreign(t), [], Hits(a.filter), Patch(patch), true);
    assert TableAfter(UpdateManyAndReturn, [Foreign(t)], a) == [Foreign(t) + patch];
    KeepAll([Foreign(t) + patch], NotOwnedBy(t));
    assert Column("name") in Foreign(t) + patch && Column("name") !in Foreign(t);
    assert [Foreign(t) + patch][0] != [Foreign(t)][0];
  }

  /** A creation outside the lists inserts a row for another tenant. */
  lemma UnlistedCreateReaches(t: TenantId)
    ensures var a := Scoped(CreateManyAndReturn, Unfiltered(Many([Foreign(t)])), t);
            && TableAfter(CreateManyAndReturn, [], a) == [Foreign(t)]
            && !Private(CreateManyAndReturn, [], a, t)
  {
    ForeignRowHits(t, NoData);
    assert [] + [Foreign(t)] == [Foreign(t)];
  }

  /** The operations that are private whatever the rows and arguments are exactly those of the three lists. */
  lemma PrivateIffListed(op: Operation, t: TenantId)
    ensures AlwaysPrivate(op, t) <==> IsListed(op)
  {
    if IsListed(op) {
      forall rows: seq<Row>, a: Args | UpdateKeepsTenant(op, a, t)
        ensures Private(op, rows, Scoped(op, a, t), t)
      {
        OperationIsPrivate(Query(UserAccount, op, a), rows, t);
      }
    } else {
      match op
      case UpdateManyAndReturn => UnlistedUpdateReaches(t);
      case CreateManyAndReturn => UnlistedCreateReaches(t);
      case Other(name) => UnlistedReadLeaks(name, t);
    }
  }

  // ---- Whole runs -------------------------------------------------------------------------

  lemma StepIsIsolated(db: Db, db': Db, q: Query, t: TenantId)
    requires Agree(db, db', t) && Listed(q, t)
    ensures AnswerTo(db, q, t) == AnswerTo(db', q, t)
    ensures Agree(DbAfter(db, q, t), DbAfter(db', q, t), t)
    ensures forall m: Model :: !m.Unscoped? ==> Theirs(Table(DbAfter(db, q, t), m), t) == Theirs(Table(db, m), t)
  {
    if !q.model.Unscoped? {
      OperationIsPrivate(q, Table(db, q.model), t);
      OperationIsPrivate(q, Table(db', q.model), t);
    }
    forall m: Model
      ensures if m.Unscoped? then Table(DbAfter(db, q, t), m) == Table(DbAfter(db', q, t), m)
              else Mine(Table(DbAfter(db, q, t), m), t) == Mine(Table(DbAfter(db', q, t), m), t)
    {
      assert if m.Unscoped? then Table(db, m) == Table(db', m) else Mine(Table(db, m), t) == Mine(Table(db', m), t);
    }
  }

  /** Two databases that agree on the tenant's rows cannot be told apart by it: every listed operation answers the
      same on both and leaves them agreeing, and no other tenant's row changes. */
  lemma {:induction false} TenantsAreIsolated(db: Db, db': Db, qs: seq<Query>, t: TenantId)
    requires Agree(db, db', t)
    requires forall i :: 0 <= i < |qs| ==> Listed(qs[i], t)
    ensures Answers(db, qs, t) == Answers(db', qs, t)
    ensures Agree(RunAll(db, qs, t), RunAll(db', qs, t), t)
    ensures forall m: Model :: !m.Unscoped? ==> Theirs(Table(RunAll(db, qs, t), m), t) == Theirs(Table(db, m), t)
    decreases |qs|
  {
    if qs == [] {
    } else {
      StepIsIsolated(db, db', qs[0], t);
      TenantsAreIsolated(DbAfter(db, qs[0], t), DbAfter(db', qs[0], t), qs[1..], t);
    }
  }

  /** The restriction on update data is exactly what is needed: an update whose data sets another tenant moves the
      caller's rows into that tenant's view, and no other update touches it. */
  lemma UpdateDataMustKeepTenant(t: TenantId, patch: Row)
    ensures KeepsTenant(patch, t) <==>
              forall rows: seq<Row>, w: Where, all: bool :: UpdateIsPrivate(rows, w, patch, all, t)
  {
    if KeepsTenant(patch, t) {
      forall rows: seq<Row>, w: Where, all: bool
        ensures UpdateIsPrivate(rows, w, patch, all, t)
      {
        ScopedFilterHitsOwn(w, t);
        RewriteIsPrivate(rows, Hits(w[TenantIdField := OwnedBy(t)]), Patch(patch), all, t);
      }
    } else {
      var row: Row := map[TenantIdField := Text(t)];
      var empty: Where := map[];
      var hit := Hits(empty[TenantIdField := OwnedBy(t)]);
      assert hit(row);
      assert Rewrite([row], hit, Patch(patch), true) == [row + patch];
      assert !Owns(t, row + patch);
      assert row + patch in [row + patch];
      KeepAll([row + patch], NotOwnedBy(t));
      assert !UpdateIsPrivate([row], empty, patch, true, t);
    }
  }

  ghost predicate UpdateIsPrivate(rows: seq<Row>, w: Where, patch: Row, all: bool, t: TenantId) {
    Theirs(Rewrite(rows, Hits(w[TenantIdField := OwnedBy(t)]), Patch(patch), all), t) == Theirs(rows, t)
  }
}
