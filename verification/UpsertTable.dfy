/** Tables written only by "find the first row with this key; overwrite some columns, or insert"
    (apps/api/scripts/bootstrap.ts does this to accounts and to the cleaner roster). */
module UpsertTable {
  import opened Sequences

  /** `content` is what an upsert writes, `kept` what it never touches on an existing row. */
  datatype Rec<C, X> = Rec(key: string, id: nat, kept: X, content: C)

  datatype Table<C, X> = Table(rows: seq<Rec<C, X>>, nextId: nat)

  datatype Up<C> = Up(key: string, content: C)

  /** The first row with the key, or -1. */
  function IndexOf<C, X>(rows: seq<Rec<C, X>>, key: string): (i: int)
    ensures -1 <= i < |rows|
    ensures i >= 0 ==> rows[i].key == key && forall j :: 0 <= j < i ==> rows[j].key != key
    ensures i < 0 ==> forall j :: 0 <= j < |rows| ==> rows[j].key != key
  {
    if rows == [] then -1
    else
      var i := IndexOf(rows[..|rows| - 1], key);
      if i >= 0 then i else if rows[|rows| - 1].key == key then |rows| - 1 else -1
  }

  function Upsert<C, X>(t: Table<C, X>, u: Up<C>, blank: X): Table<C, X> {
    var i := IndexOf(t.rows, u.key);
    if i >= 0 then t.(rows := t.rows[i := t.rows[i].(content := u.content)])
    else Table(t.rows + [Rec(u.key, t.nextId, blank, u.content)], t.nextId + 1)
  }

  /** What one write means row by row: the first row with the key takes the new content and keeps its id and the rest of
      its columns, or a fresh row is added at the end; every other row stays as it is. */
  ghost predicate WroteOneRow<C, X>(t: Table<C, X>, t': Table<C, X>, u: Up<C>, blank: X) {
    var i := IndexOf(t.rows, u.key);
    if i >= 0 then
      && t'.nextId == t.nextId && |t'.rows| == |t.rows|
      && (forall j :: 0 <= j < |t.rows| && j != i ==> t'.rows[j] == t.rows[j])
      && t'.rows[i].key == u.key && t'.rows[i].content == u.content
      && t'.rows[i].id == t.rows[i].id && t'.rows[i].kept == t.rows[i].kept
    else
      && t'.nextId == t.nextId + 1 && |t'.rows| == |t.rows| + 1
      && (forall j :: 0 <= j < |t.rows| ==> t'.rows[j] == t.rows[j])
      && t'.rows[|t.rows|].key == u.key && t'.rows[|t.rows|].content == u.content
      && t'.rows[|t.rows|].id == t.nextId && t'.rows[|t.rows|].kept == blank
  }

  lemma WroteOneRowIffUpsert<C, X>(t: Table<C, X>, t': Table<C, X>, u: Up<C>, blank: X)
    ensures WroteOneRow(t, t', u, blank) <==> t' == Upsert(t, u, blank)
  {
    if WroteOneRow(t, t', u, blank) {
      assert t'.rows == Upsert(t, u, blank).rows;
    }
  }

  function UpsertAll<C, X>(t: Table<C, X>, us: seq<Up<C>>, blank: X): Table<C, X> {
    if us == [] then t else Upsert(UpsertAll(t, us[..|us| - 1], blank), us[|us| - 1], blank)
  }

  lemma UpsertAllSnoc<C, X>(t: Table<C, X>, us: seq<Up<C>>, u: Up<C>, blank: X)
    ensures UpsertAll(t, us + [u], blank) == Upsert(UpsertAll(t, us, blank), u, blank)
  {
    assert (us + [u])[..|us|] == us;
  }

  lemma {:induction false} UpsertAllJoin<C, X>(t: Table<C, X>, us: seq<Up<C>>, vs: seq<Up<C>>, blank: X)
    ensures UpsertAll(t, us + vs, blank) == UpsertAll(UpsertAll(t, us, blank), vs, blank)
  {
    if vs == [] {
      assert us + vs == us;
    } else {
      var front, last := vs[..|vs| - 1], vs[|vs| - 1];
      UpsertAllJoin(t, us, front, blank);
      UpsertAllSnoc(t, us + front, last, blank);
      UpsertAllSnoc(UpsertAll(t, us, blank), front, last, blank);
      LastApart(us, vs);
    }
  }

  predicate Has<C, X>(t: Table<C, X>, key: string) {
    IndexOf(t.rows, key) >= 0
  }

  function IdOf<C, X>(t: Table<C, X>, key: string): nat {
    if Has(t, key) then t.rows[IndexOf(t.rows, key)].id else 0
  }

  /** The content the last write to a key left, if there was one. */
  function LastFor<C>(us: seq<Up<C>>, key: string): (k: int)
    ensures -1 <= k < |us|
    ensures k >= 0 ==> us[k].key == key
    ensures forall j :: k < j < |us| ==> us[j].key != key
  {
    if us == [] then -1 else if us[|us| - 1].key == key then |us| - 1 else LastFor(us[..|us| - 1], key)
  }

  /** An upsert moves no key and no id, and keeps every key it finds where it was. */
  lemma UpsertKeepsPlaces<C, X>(t: Table<C, X>, u: Up<C>, blank: X, key: string)
    ensures Has(t, key) ==> IndexOf(Upsert(t, u, blank).rows, key) == IndexOf(t.rows, key)
    ensures Has(Upsert(t, u, blank), key) <==> Has(t, key) || key == u.key
    ensures Has(t, key) ==> IdOf(Upsert(t, u, blank), key) == IdOf(t, key)
  {
    var i, j := IndexOf(t.rows, key), IndexOf(Upsert(t, u, blank).rows, key);
    if i >= 0 {
      assert Upsert(t, u, blank).rows[i].key == key;
      assert j >= 0 && Upsert(t, u, blank).rows[j].key == t.rows[j].key;
    } else if key == u.key {
      assert Upsert(t, u, blank).rows[|t.rows|].key == key;
    }
  }

  lemma {:induction false} IdsAreStable<C, X>(t: Table<C, X>, us: seq<Up<C>>, blank: X, key: string)
    requires Has(t, key)
    ensures Has(UpsertAll(t, us, blank), key) && IdOf(UpsertAll(t, us, blank), key) == IdOf(t, key)
  {
    if us == [] {
    } else {
      IdsAreStable(t, us[..|us| - 1], blank, key);
      UpsertKeepsPlaces(UpsertAll(t, us[..|us| - 1], blank), us[|us| - 1], blank, key);
    }
  }

  predicate Holds<C(==), X>(t: Table<C, X>, key: string, content: C) {
    Has(t, key) && t.rows[IndexOf(t.rows, key)].content == content
  }

  /** A list that never writes a key leaves what is held under it. */
  lemma {:induction false} UpsertAllLeavesOthers<C, X>(t: Table<C, X>, us: seq<Up<C>>, blank: X, key: string,
                                                       content: C)
    requires Holds(t, key, content)
    requires forall k :: 0 <= k < |us| ==> us[k].key != key
    ensures Holds(UpsertAll(t, us, blank), key, content)
  {
    if us == [] {
    } else {
      UpsertAllLeavesOthers(t, us[..|us| - 1], blank, key, content);
      UpsertKeepsPlaces(UpsertAll(t, us[..|us| - 1], blank), us[|us| - 1], blank, key);
    }
  }

  // ---- Writing the same list twice -------------------------------------------------------

  /** If the list writes the key, the row found for it carries the last content written. */
  ghost predicate SettledAt<C, X>(t: Table<C, X>, us: seq<Up<C>>, key: string) {
    LastFor(us, key) >= 0 ==>
      Has(t, key) && t.rows[IndexOf(t.rows, key)].content == us[LastFor(us, key)].content
  }

  lemma {:induction false} UpsertAllSettles<C, X>(t: Table<C, X>, us: seq<Up<C>>, blank: X, key: string)
    ensures SettledAt(UpsertAll(t, us, blank), us, key)
  {
    if us == [] {
    } else {
      var front, last := us[..|us| - 1], us[|us| - 1];
      var before := UpsertAll(t, front, blank);
      UpsertAllSettles(t, front, blank, key);
      UpsertKeepsPlaces(before, last, blank, key);
      if LastFor(us, key) >= 0 && last.key != key {
        assert LastFor(us, key) == LastFor(front, key);
      }
    }
  }

  /** On a table that has all the keys, a list of upserts inserts nothing and rewrites only the rows it finds. */
  ghost predicate Rewritten<C, X>(t: Table<C, X>, t': Table<C, X>, us: seq<Up<C>>) {
    && t'.nextId == t.nextId
    && |t'.rows| == |t.rows|
    && forall i :: 0 <= i < |t.rows| ==> RewrittenAt(t.rows, t'.rows[i], us, i)
  }

  ghost predicate RewrittenAt<C, X>(rows: seq<Rec<C, X>>, row': Rec<C, X>, us: seq<Up<C>>, i: nat)
    requires i < |rows|
  {
    var k := LastFor(us, rows[i].key);
    row' == if IndexOf(rows, rows[i].key) == i && k >= 0 then rows[i].(content := us[k].content) else rows[i]
  }

  lemma SameKeysSameIndex<C, X>(rows: seq<Rec<C, X>>, rows': seq<Rec<C, X>>, key: string)
    requires |rows| == |rows'|
    requires forall i :: 0 <= i < |rows| ==> rows'[i].key == rows[i].key
    ensures IndexOf(rows', key) == IndexOf(rows, key)
  {
    var i, j := IndexOf(rows, key), IndexOf(rows', key);
    if i >= 0 { assert rows'[i].key == key; }
    if j >= 0 { assert rows[j].key == key; }
  }

  lemma {:induction false} UpsertAllRewrites<C, X>(t: Table<C, X>, us: seq<Up<C>>, blank: X)
    requires forall k :: 0 <= k < |us| ==> Has(t, us[k].key)
    ensures Rewritten(t, UpsertAll(t, us, blank), us)
  {
    if us == [] {
    } else {
      var front, last := us[..|us| - 1], us[|us| - 1];
      UpsertAllRewrites(t, front, blank);
      var before := UpsertAll(t, front, blank);
      forall i | 0 <= i < |t.rows|
        ensures before.rows[i].key == t.rows[i].key
      {
        assert RewrittenAt(t.rows, before.rows[i], front, i);
      }
      SameKeysSameIndex(t.rows, before.rows, last.key);
      var at := IndexOf(t.rows, last.key);
      assert Has(t, us[|us| - 1].key);
      var after := UpsertAll(t, us, blank);
      assert after == before.(rows := before.rows[at := before.rows[at].(content := last.content)]);
      forall i | 0 <= i < |t.rows|
        ensures RewrittenAt(t.rows, after.rows[i], us, i)
      {
        assert RewrittenAt(t.rows, before.rows[i], front, i);
        if t.rows[i].key == last.key {
          assert LastFor(us, t.rows[i].key) == |us| - 1;
        } else {
          assert LastFor(us, t.rows[i].key) == LastFor(front, t.rows[i].key);
        }
      }
    }
  }

  /** Writing a list of upserts a second time changes nothing, even when the list repeats keys. */
  lemma UpsertAllIsIdempotent<C, X>(t: Table<C, X>, us: seq<Up<C>>, blank: X)
    ensures UpsertAll(UpsertAll(t, us, blank), us, blank) == UpsertAll(t, us, blank)
  {
    var once := UpsertAll(t, us, blank);
    forall k | 0 <= k < |us|
      ensures Has(once, us[k].key)
    {
      UpsertAllSettles(t, us, blank, us[k].key);
    }
    UpsertAllRewrites(once, us, blank);
    var twice := UpsertAll(once, us, blank);
    forall i | 0 <= i < |once.rows|
      ensures twice.rows[i] == once.rows[i]
    {
      assert RewrittenAt(once.rows, twice.rows[i], us, i);
      UpsertAllSettles(t, us, blank, once.rows[i].key);
    }
    assert twice.rows == once.rows;
  }

  /** The key is one of those written. */
  predicate Writes<C>(us: seq<Up<C>>, key: string) {
    LastFor(us, key) >= 0
  }

  /** Old rows keep their place, key, id and untouched columns, and their content too unless their key is written; every
      new row is for a key written, with fresh id and blank columns. */
  ghost predicate KeepsRows<C, X>(t: Table<C, X>, t': Table<C, X>, us: seq<Up<C>>, blank: X) {
    && t.nextId <= t'.nextId && |t.rows| <= |t'.rows|
    && (forall i :: 0 <= i < |t.rows| ==>
          && t'.rows[i].(content := t.rows[i].content) == t.rows[i]
          && (!Writes(us, t.rows[i].key) ==> t'.rows[i] == t.rows[i]))
    && (forall i :: |t.rows| <= i < |t'.rows| ==>
          Writes(us, t'.rows[i].key) && t'.rows[i].kept == blank && t.nextId <= t'.rows[i].id < t'.nextId)
  }

  lemma {:induction false} UpsertAllKeepsRows<C, X>(t: Table<C, X>, us: seq<Up<C>>, blank: X)
    ensures KeepsRows(t, UpsertAll(t, us, blank), us, blank)
  {
    if us == [] {
    } else {
      var front, last := us[..|us| - 1], us[|us| - 1];
      UpsertAllKeepsRows(t, front, blank);
      var before, after := UpsertAll(t, front, blank), UpsertAll(t, us, blank);
      forall key
        ensures Writes(us, key) <==> Writes(front, key) || key == last.key
      {}
      forall i | 0 <= i < |before.rows|
        ensures after.rows[i].(content := before.rows[i].content) == before.rows[i]
        ensures before.rows[i].key != last.key ==> after.rows[i] == before.rows[i]
      {}
    }
  }

  ghost predicate UniqueKeys<C, X>(t: Table<C, X>) {
    forall i, j :: 0 <= i < j < |t.rows| ==> t.rows[i].key != t.rows[j].key
  }

  lemma UpsertKeepsKeysUnique<C, X>(t: Table<C, X>, u: Up<C>, blank: X)
    requires UniqueKeys(t)
    ensures UniqueKeys(Upsert(t, u, blank))
  {
    var after := Upsert(t, u, blank);
    forall i, j | 0 <= i < j < |after.rows|
      ensures after.rows[i].key != after.rows[j].key
    {
      assert after.rows[i].key == t.rows[i].key;
      assert j < |t.rows| ==> after.rows[j].key == t.rows[j].key;
    }
  }

  /** Upserts never give a key a second row. */
  lemma {:induction false} UpsertAllKeepsKeysUnique<C, X>(t: Table<C, X>, us: seq<Up<C>>, blank: X)
    requires UniqueKeys(t)
    ensures UniqueKeys(UpsertAll(t, us, blank))
  {
    if us == [] {
    } else {
      UpsertAllKeepsKeysUnique(t, us[..|us| - 1], blank);
      UpsertKeepsKeysUnique(UpsertAll(t, us[..|us| - 1], blank), us[|us| - 1], blank);
    }
  }
}
