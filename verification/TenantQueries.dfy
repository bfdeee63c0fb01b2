/** What the scoped client answers and writes for each listed operation, stated on the rows and the caller's own
    conditions (apps/api/src/infra/prisma.ts). */
module TenantQueries {
  import opened Sequences
  import opened Wrappers
  import opened TenantScope

  /** The tenant's own rows that meet every condition sent, save one on the tenant column itself. */
  predicate Asks(w: Where, t: TenantId, row: Row) {
    && TenantIdField in row && row[TenantIdField] == Text(t)
    && forall k :: k in w && k != TenantIdField ==> w[k](row)
  }

  function AskedFor(w: Where, t: TenantId): Row -> bool {
    row => Asks(w, t, row)
  }

  /** The position of the first such row, or -1. */
  function FirstAsked(rows: seq<Row>, w: Where, t: TenantId): (i: int)
    ensures -1 <= i < |rows|
    ensures i >= 0 ==> Asks(w, t, rows[i])
    ensures forall j :: 0 <= j < (if i < 0 then |rows| else i) ==> !Asks(w, t, rows[j])
  {
    if rows == [] then -1
    else if Asks(w, t, rows[0]) then 0
    else
      var i := FirstAsked(rows[1..], w, t);
      assert rows == [rows[0]] + rows[1..];
      if i < 0 then -1 else i + 1
  }

  // ---- Selections and rewrites -----------------------------------------------------------------

  /** A selection keeps a row that passes and drops one that does not; with `KeepJoin` that is all it does. */
  lemma KeepOfOne(row: Row, p: Row -> bool)
    ensures Keep([row], p) == if p(row) then [row] else []
  {
    assert Keep([row][1..], p) == [];
  }

  lemma {:induction false} KeepOfSame(rows: seq<Row>, p: Row -> bool, p': Row -> bool)
    requires forall row :: p(row) == p'(row)
    ensures Keep(rows, p) == Keep(rows, p')
  {
    if rows == [] {
    } else {
      KeepOfSame(rows[1..], p, p');
    }
  }

  lemma {:induction false} RewriteOfSame(rows: seq<Row>, p: Row -> bool, p': Row -> bool, f: Row -> Option<Row>,
                                         all: bool)
    requires forall row :: p(row) == p'(row)
    ensures Rewrite(rows, p, f, all) == Rewrite(rows, p', f, all)
  {
    if rows == [] {
    } else {
      RewriteOfSame(rows[1..], p, p', f, all);
    }
  }

  lemma {:induction false} KeepHead(rows: seq<Row>, w: Where, t: TenantId)
    ensures var i, hits := FirstAsked(rows, w, t), Keep(rows, AskedFor(w, t));
            if i < 0 then hits == [] else hits != [] && hits[0] == rows[i]
  {
    if rows == [] {
    } else {
      KeepHead(rows[1..], w, t);
    }
  }

  lemma {:induction false} PatchesAll(rows: seq<Row>, p: Row -> bool, patch: Row)
    ensures var after := Rewrite(rows, p, Patch(patch), true);
            && |after| == |rows|
            && forall i :: 0 <= i < |rows| ==> after[i] == if p(rows[i]) then rows[i] + patch else rows[i]
  {
    if rows == [] {
    } else {
      PatchesAll(rows[1..], p, patch);
    }
  }

  lemma FirstAskedCons(rows: seq<Row>, w: Where, t: TenantId)
    requires rows != []
    ensures FirstAsked(rows, w, t)
            == if Asks(w, t, rows[0]) then 0
               else if FirstAsked(rows[1..], w, t) < 0 then -1 else FirstAsked(rows[1..], w, t) + 1
  {}

  lemma {:induction false} PatchesFirst(rows: seq<Row>, w: Where, t: TenantId, patch: Row)
    ensures var i, after := FirstAsked(rows, w, t), Rewrite(rows, AskedFor(w, t), Patch(patch), false);
            after == if i < 0 then rows else rows[i := rows[i] + patch]
  {
    if rows == [] {
    } else {
      var rest, i := rows[1..], FirstAsked(rows[1..], w, t);
      FirstAskedCons(rows, w, t);
      HeadApart(rows);
      RewriteCons(rows[0], rest, AskedFor(w, t), Patch(patch), false);
      if Asks(w, t, rows[0]) {
        assert rows[0 := rows[0] + patch] == [rows[0] + patch] + rest;
      } else {
        PatchesFirst(rest, w, t, patch);
        if i >= 0 { UpdateLater(rows[0], rest, i, rest[i] + patch); }
      }
    }
  }

  function Not(p: Row -> bool): Row -> bool {
    row => !p(row)
  }

  lemma {:induction false} RemovesAll(rows: seq<Row>, p: Row -> bool)
    ensures Rewrite(rows, p, Remove(), true) == Keep(rows, Not(p))
  {
    if rows == [] {
    } else {
      RemovesAll(rows[1..], p);
    }
  }

  lemma {:induction false} RemovesFirst(rows: seq<Row>, w: Where, t: TenantId)
    ensures var i, after := FirstAsked(rows, w, t), Rewrite(rows, AskedFor(w, t), Remove(), false);
            after == if i < 0 then rows else DropAt(rows, i)
  {
    if rows == [] {
    } else {
      var rest, i := rows[1..], FirstAsked(rows[1..], w, t);
      FirstAskedCons(rows, w, t);
      HeadApart(rows);
      RewriteCons(rows[0], rest, AskedFor(w, t), Remove(), false);
      if Asks(w, t, rows[0]) {
        assert DropAt(rows, 0) == rest;
      } else {
        RemovesFirst(rest, w, t);
        if i >= 0 { DropLater(rows[0], rest, i); }
      }
    }
  }

  // ---- Through the client --------------------------------------------------------------------

  /** The query sent hits exactly what was asked for among the tenant's rows. */
  lemma SentHits(q: Query, t: TenantId)
    requires !q.model.Unscoped? && (IsRead(q.op) || IsWrite(q.op) || q.op.Upsert?)
    ensures forall row :: Hits(Sent(q, t).filter)(row) == AskedFor(q.args.filter, t)(row)
  {
    var sent := Sent(q, t).filter;
    forall row
      ensures Hits(sent)(row) == AskedFor(q.args.filter, t)(row)
    {
      if Hits(sent)(row) {
        assert TenantIdField in sent && sent[TenantIdField](row);
        forall k | k in q.args.filter && k != TenantIdField
          ensures q.args.filter[k](row)
        {
          assert k in sent && sent[k](row);
        }
      }
    }
  }

  ghost predicate OtherTablesStay(db: Db, after: Db, m: Model) {
    forall m' :: m' != m ==> Table(after, m') == Table(db, m')
  }

  /** A read changes no table and answers from exactly the tenant's own rows that meet the caller's conditions. */
  lemma ReadAnswers(db: Db, q: Query, t: TenantId)
    requires !q.model.Unscoped? && IsRead(q.op)
    ensures var rows, answer := Table(db, q.model), AnswerTo(db, q, t);
            var i, hits := FirstAsked(rows, q.args.filter, t), Keep(rows, AskedFor(q.args.filter, t));
            && Table(DbAfter(db, q, t), q.model) == rows && OtherTablesStay(db, DbAfter(db, q, t), q.model)
            && answer == match q.op
                 case FindFirst => Rows(if i < 0 then [] else [rows[i]])
                 case FindUnique => Rows(if i < 0 then [] else [rows[i]])
                 case FindFirstOrThrow => (if i < 0 then RecordNotFound else Rows([rows[i]]))
                 case FindUniqueOrThrow => (if i < 0 then RecordNotFound else Rows([rows[i]]))
                 case Count => Counted(|hits|)
                 case _ => Rows(hits)
  {
    var rows := Table(db, q.model);
    SentHits(q, t);
    KeepOfSame(rows, Hits(Sent(q, t).filter), AskedFor(q.args.filter, t));
    KeepHead(rows, q.args.filter, t);
  }

  /** An update or delete hits the first of those rows, or all of them, and leaves every other row as it was. */
  lemma WriteHits(db: Db, q: Query, t: TenantId)
    requires !q.model.Unscoped? && IsWrite(q.op)
    ensures var rows, after := Table(db, q.model), Table(DbAfter(db, q, t), q.model);
            var i, hits := FirstAsked(rows, q.args.filter, t), Keep(rows, AskedFor(q.args.filter, t));
            var patch := if q.args.data.One? then q.args.data.row else map[];
            && OtherTablesStay(db, DbAfter(db, q, t), q.model)
            && match q.op
               case Update =>
                 if i < 0 then after == rows && AnswerTo(db, q, t) == RecordNotFound
                 else after == rows[i := rows[i] + patch] && AnswerTo(db, q, t) == Rows([rows[i] + patch])
               case UpdateMany =>
                 && AnswerTo(db, q, t) == Counted(|hits|) && |after| == |rows|
                 && forall j :: 0 <= j < |rows| ==>
                      after[j] == if Asks(q.args.filter, t, rows[j]) then rows[j] + patch else rows[j]
               case Delete =>
                 if i < 0 then after == rows && AnswerTo(db, q, t) == RecordNotFound
                 else after == DropAt(rows, i) && AnswerTo(db, q, t) == Rows([rows[i]])
               case _ => AnswerTo(db, q, t) == Counted(|hits|) && after == Keep(rows, Not(AskedFor(q.args.filter, t)))
  {
    var rows, w, sent := Table(db, q.model), q.args.filter, Sent(q, t);
    SentHits(q, t);
    KeepOfSame(rows, Hits(sent.filter), AskedFor(w, t));
    KeepHead(rows, w, t);
    match q.op
    case Update =>
      RewriteOfSame(rows, Hits(sent.filter), AskedFor(w, t), Patch(PatchOf(sent)), false);
      PatchesFirst(rows, w, t, PatchOf(sent));
    case UpdateMany =>
      RewriteOfSame(rows, Hits(sent.filter), AskedFor(w, t), Patch(PatchOf(sent)), true);
      PatchesAll(rows, AskedFor(w, t), PatchOf(sent));
    case Delete =>
      RewriteOfSame(rows, Hits(sent.filter), AskedFor(w, t), Remove(), false);
      RemovesFirst(rows, w, t);
    case DeleteMany =>
      RewriteOfSame(rows, Hits(sent.filter), AskedFor(w, t), Remove(), true);
      RemovesAll(rows, AskedFor(w, t));
  }

  /** The row carries every column sent, with the tenant column set to the tenant. */
  ghost predicate Carries(row: Row, sent: Row, t: TenantId) {
    && row.Keys == sent.Keys + {TenantIdField}
    && row[TenantIdField] == Text(t)
    && forall k :: k in sent && k != TenantIdField ==> row[k] == sent[k]
  }

  /** An upsert updates the first of those rows and no other, or adds one row with every column sent. */
  lemma UpsertHits(db: Db, q: Query, t: TenantId)
    requires !q.model.Unscoped? && q.op.Upsert?
    ensures var rows, after := Table(db, q.model), Table(DbAfter(db, q, t), q.model);
            var i := FirstAsked(rows, q.args.filter, t);
            && OtherTablesStay(db, DbAfter(db, q, t), q.model)
            && (i >= 0 ==> after == rows[i := rows[i] + q.args.update]
                           && AnswerTo(db, q, t) == Rows([rows[i] + q.args.update]))
            && (i < 0 ==> |after| == |rows| + 1 && after[..|rows|] == rows
                          && Carries(after[|rows|], q.args.create, t)
                          && AnswerTo(db, q, t) == Rows([after[|rows|]]))
  {
    var rows, w, sent := Table(db, q.model), q.args.filter, Sent(q, t);
    SentHits(q, t);
    KeepOfSame(rows, Hits(sent.filter), AskedFor(w, t));
    KeepHead(rows, w, t);
    RewriteOfSame(rows, Hits(sent.filter), AskedFor(w, t), Patch(sent.update), false);
    PatchesFirst(rows, w, t, sent.update);
  }

  function RowsSent(q: Query): seq<Row> {
    match q.args.data
    case NoData => if q.op.Create? then [map[]] else []
    case One(row) => [row]
    case Many(rows) => if q.op.Create? then [map[]] else rows
  }

  lemma RowsAreCarried(q: Query, t: TenantId)
    requires !q.model.Unscoped? && (q.op.Create? || q.op.CreateMany?)
    ensures var added := NewRows(Sent(q, t).data);
            |added| == |RowsSent(q)| && forall i :: 0 <= i < |added| ==> Carries(added[i], RowsSent(q)[i], t)
  {}

  /** A creation adds a row for each row sent, in order, with every column of it, and changes nothing else. */
  lemma CreateAdds(db: Db, q: Query, t: TenantId)
    requires !q.model.Unscoped? && (q.op.Create? || q.op.CreateMany?)
    ensures var rows, after := Table(db, q.model), Table(DbAfter(db, q, t), q.model);
            && OtherTablesStay(db, DbAfter(db, q, t), q.model)
            && |after| == |rows| + |RowsSent(q)| && after[..|rows|] == rows
            && (forall i :: 0 <= i < |RowsSent(q)| ==> Carries(after[|rows| + i], RowsSent(q)[i], t))
            && AnswerTo(db, q, t) == if q.op.Create? then Rows(after[|rows|..]) else Counted(|RowsSent(q)|)
  {
    var rows, added := Table(db, q.model), NewRows(Sent(q, t).data);
    RowsAreCarried(q, t);
    assert Table(DbAfter(db, q, t), q.model) == rows + added;
    assert (rows + added)[|rows|..] == added;
  }
}
