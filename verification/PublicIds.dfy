/** The per-tenant allocator of v1 report ids (apps/api/src/domain/reports/reports.repository.ts). */
module PublicIds {
  import opened Wrappers

  const INT_MAX: nat := 2147483647
  const FLOOR: nat := 99999

  // ---- Decimal text ---------------------------------------------------------------

  predicate IsDigit(c: char) {
    '0' <= c <= '9'
  }

  predicate AllDigits(s: string) {
    forall i :: 0 <= i < |s| ==> IsDigit(s[i])
  }

  function Parse(s: string): nat
    requires AllDigits(s)
  {
    if s == "" then 0 else 10 * Parse(s[..|s| - 1]) + (s[|s| - 1] as int - '0' as int)
  }

  function Print(n: nat): (s: string)
    ensures s != "" && AllDigits(s)
  {
    if n < 10 then [('0' as int + n) as char] else Print(n / 10) + [('0' as int + n % 10) as char]
  }

  lemma {:induction false} ParseOfPrint(n: nat)
    ensures Parse(Print(n)) == n
  {
    if n < 10 {
      assert Print(n)[..0] == "";
    } else {
      ParseOfPrint(n / 10);
      assert Print(n)[..|Print(n)| - 1] == Print(n / 10);
    }
  }

  const PREFIX := "RPT-"

  function Render(n: nat): string {
    PREFIX + Print(n)
  }

  /** The number of an id of the form RPT- followed by digits only, leading zeros allowed. */
  function NumberOf(id: string): Option<nat> {
    if |id| > 4 && id[..4] == PREFIX && AllDigits(id[4..]) then Some(Parse(id[4..])) else None
  }

  lemma NumberOfRender(n: nat)
    ensures NumberOf(Render(n)) == Some(n)
  {
    ParseOfPrint(n);
    assert Render(n)[4..] == Print(n);
    assert Render(n)[..4] == PREFIX;
  }

  /** Exactly the ids made of RPT- and digits have a number. */
  lemma NumberedIds(id: string)
    ensures NumberOf(id).Some? <==> |id| > 4 && id[..4] == "RPT-" && forall i :: 4 <= i < |id| ==> '0' <= id[i] <= '9'
  {
    if |id| > 4 {
      assert forall i :: 4 <= i < |id| ==> id[i] == id[4..][i - 4];
    }
  }

  /** Leading zeros do not change it. */
  lemma {:induction false} LeadingZero(s: string)
    requires AllDigits(s)
    ensures AllDigits("0" + s) && Parse("0" + s) == Parse(s)
  {
    if s == "" {
      assert "0"[..0] == "";
    } else {
      LeadingZero(s[..|s| - 1]);
      assert ("0" + s)[..|"0" + s| - 1] == "0" + s[..|s| - 1];
    }
  }

  // ---- The allocator ----------------------------------------------------------------

  /** The largest number among the stored ids, or the floor. */
  function Largest(ids: seq<string>): (m: nat)
    ensures m >= FLOOR
    ensures forall id :: id in ids && NumberOf(id).Some? ==> NumberOf(id).value <= m
    ensures m == FLOOR || exists id :: id in ids && NumberOf(id) == Some(m)
  {
    if ids == [] then FLOOR
    else
      var rest := Largest(ids[1..]);
      assert ids == [ids[0]] + ids[1..];
      assert forall id :: id in ids <==> id == ids[0] || id in ids[1..];
      match NumberOf(ids[0])
      case Some(n) => if n > rest then n else rest
      case None => rest
  }

  datatype Error = OutOfRange

  /** The number handed out: one above the counter, or above every stored number when there is no counter yet.
      Both the cast in the query and the column are 32-bit. */
  function NextNumber(counter: Option<nat>, ids: seq<string>): Result<nat, Error> {
    var base := if counter.Some? then counter.value else Largest(ids);
    if base >= INT_MAX then Failure(OutOfRange) else Success(base + 1)
  }

  /** The first number ever handed out is 100000 or the least above every stored one, and it is refused only when a
      stored number is as large as the column can hold. */
  lemma FirstNumber(ids: seq<string>)
    ensures match NextNumber(None, ids)
            case Success(n) =>
              && 100000 <= n <= 2147483647
              && (forall id :: id in ids && NumberOf(id).Some? ==> NumberOf(id).value < n)
              && (n == 100000 || exists id :: id in ids && NumberOf(id) == Some(n - 1))
            case Failure(_) => exists id :: id in ids && NumberOf(id).Some? && NumberOf(id).value >= 2147483647
  {}

  class Allocator {
    var counter: Option<nat>
    var ids: seq<string>

    constructor (ids: seq<string>)
      ensures counter == None && this.ids == ids
    {
      counter, this.ids := None, ids;
    }

    /** MAX over the ids that match the pattern; the cast fails on a number that does not fit. */
    method MaxNumber() returns (r: Result<nat, Error>)
      ensures r.Failure? <==> Largest(ids) > INT_MAX
      ensures r.Success? ==> r.value == Largest(ids)
    {
      var largest := FLOOR;
      for i := |ids| downto 0
        invariant largest == Largest(ids[i..]) && largest <= INT_MAX
      {
        assert ids[i..][0] == ids[i] && ids[i..][1..] == ids[i + 1..];
        var number := NumberOf(ids[i]);
        if number.Some? {
          if number.value > INT_MAX {
            assert ids[i] in ids;
            return Failure(OutOfRange);
          }
          if number.value > largest { largest := number.value; }
        }
      }
      assert ids[0..] == ids;
      r := Success(largest);
    }

    /** One transaction: a failure leaves the counter as it was. */
    method NextPublicId() returns (r: Result<string, Error>)
      modifies this`counter
      ensures match NextNumber(old(counter), ids)
              case Success(n) => r == Success(Render(n)) && counter == Some(n)
              case Failure(e) => r == Failure(e) && counter == old(counter)
    {
      var saved := counter;
      if counter.None? {
        var row := MaxNumber();
        if row.Failure? { return Failure(OutOfRange); }
        counter := Some(row.value);
      }
      if counter.value >= INT_MAX {
        counter := saved;
        return Failure(OutOfRange);
      }
      assert NextNumber(saved, ids) == Success(counter.value + 1);
      counter := Some(counter.value + 1);
      r := Success(Render(counter.value));
    }
  }

  // ---- Over every run ------------------------------------------------------------------

  /** `Issue` asks for an id and stores a report under it unless that is abandoned; `Import` stores an id that did
      not come from the allocator. */
  datatype Op = Issue(stored: bool) | Import(id: string)

  datatype State = State(counter: Option<nat>, ids: seq<string>, issued: seq<nat>)

  function Step(s: State, op: Op): State {
    match op
    case Import(id) => s.(ids := s.ids + [id])
    case Issue(stored) =>
      match NextNumber(s.counter, s.ids)
      case Failure(_) => s
      case Success(n) => State(Some(n), if stored then s.ids + [Render(n)] else s.ids, s.issued + [n])
  }

  function Run(s: State, ops: seq<Op>): State
    decreases |ops|
  {
    if ops == [] then s else Run(Step(s, ops[0]), ops[1..])
  }

  function Final(s: State, ops: seq<Op>): nat {
    var end := Run(s, ops);
    if end.counter.Some? then end.counter.value else 0
  }

  // ---- Issued numbers grow ---------------------------------------------------------------

  /** The counter is above every number issued, and they grow. */
  ghost predicate Ordered(s: State) {
    && (s.counter.Some? ==> s.counter.value >= FLOOR)
    && (forall i, j :: 0 <= i < j < |s.issued| ==> s.issued[i] < s.issued[j])
    && (forall i :: 0 <= i < |s.issued| ==> s.counter.Some? && FLOOR < s.issued[i] <= s.counter.value)
  }

  lemma StepKeepsOrdered(s: State, op: Op)
    requires Ordered(s)
    ensures Ordered(Step(s, op))
    ensures s.counter.Some? ==> Step(s, op).counter.Some? && s.counter.value <= Step(s, op).counter.value
  {
    var after := Step(s, op);
    forall i | 0 <= i < |after.issued|
      ensures after.counter.Some? && FLOOR < after.issued[i] <= after.counter.value
    {
      if i < |s.issued| { assert after.issued[i] == s.issued[i]; }
    }
    forall i, j | 0 <= i < j < |after.issued|
      ensures after.issued[i] < after.issued[j]
    {
      assert after.issued[i] == s.issued[i];
      if j < |s.issued| { assert after.issued[j] == s.issued[j]; }
    }
  }

  lemma {:induction false} RunKeepsOrdered(s: State, ops: seq<Op>)
    requires Ordered(s)
    ensures Ordered(Run(s, ops))
    ensures s.counter.Some? ==> s.counter.value <= Final(s, ops)
    decreases |ops|
  {
    if ops == [] {
    } else {
      StepKeepsOrdered(s, ops[0]);
      RunKeepsOrdered(Step(s, ops[0]), ops[1..]);
    }
  }

  // ---- Issued ids are new, exactly when ------------------------------------------------------

  /** No id is handed out that is already stored at that moment. */
  ghost predicate AllIssuedNew(s: State, ops: seq<Op>)
    decreases |ops|
  {
    ops == [] ||
    (&& (ops[0].Issue? && NextNumber(s.counter, s.ids).Success? ==>
           Render(NextNumber(s.counter, s.ids).value) !in s.ids)
     && AllIssuedNew(Step(s, ops[0]), ops[1..]))
  }

  predicate Between(id: string, low: nat, high: nat) {
    NumberOf(id).Some? && low < NumberOf(id).value <= high && id == Render(NumberOf(id).value)
  }

  function Issues(ops: seq<Op>): nat {
    if ops == [] then 0 else (if ops[0].Issue? then 1 else 0) + Issues(ops[1..])
  }

  /** Where a counter stands after these requests: one further for each issue, up to the largest 32-bit number. */
  function Reach(counter: nat, ops: seq<Op>): nat {
    if counter >= INT_MAX then counter
    else if counter + Issues(ops) < INT_MAX then counter + Issues(ops)
    else INT_MAX
  }

  lemma {:induction false} FinalIsReach(s: State, ops: seq<Op>)
    requires s.counter.Some?
    ensures Final(s, ops) == Reach(s.counter.value, ops)
    decreases |ops|
  {
    if ops == [] {
    } else {
      FinalIsReach(Step(s, ops[0]), ops[1..]);
    }
  }

  /** No id is imported whose number is above the counter of that moment by no more than the issues still to come. */
  predicate NoneImportedAhead(s: State, ops: seq<Op>)
    decreases |ops|
  {
    ops == [] ||
    (&& (ops[0].Import? && s.counter.Some? ==>
           !Between(ops[0].id, s.counter.value, Reach(s.counter.value, ops[1..])))
     && NoneImportedAhead(Step(s, ops[0]), ops[1..]))
  }

  ghost predicate NoneStoredBetween(s: State, final: nat) {
    s.counter.Some? ==> forall id :: id in s.ids ==> !Between(id, s.counter.value, final)
  }

  /** An id handed out now differs from every stored id, whatever its shape or leading zeros. */
  lemma NextIdIsNew(s: State, final: nat)
    requires NoneStoredBetween(s, final)
    requires NextNumber(s.counter, s.ids).Success? && NextNumber(s.counter, s.ids).value <= final
    ensures Render(NextNumber(s.counter, s.ids).value) !in s.ids
  {
    NumberOfRender(NextNumber(s.counter, s.ids).value);
  }

  lemma StepKeepsNoneStoredBetween(s: State, op: Op, final: nat)
    requires NoneStoredBetween(s, final)
    requires op.Import? && s.counter.Some? ==> !Between(op.id, s.counter.value, final)
    ensures NoneStoredBetween(Step(s, op), final)
  {
    var after := Step(s, op);
    if after.counter.Some? {
      forall id | id in after.ids
        ensures !Between(id, after.counter.value, final)
      {
        if id in s.ids {
        } else if op.Issue? {
          NumberOfRender(after.counter.value);
        } else {
          assert id == op.id;
        }
      }
    }
  }

  /** The counter skips nothing: a stored id it runs through is handed out again. */
  lemma {:induction false} StoredBetweenIsReissued(s: State, ops: seq<Op>, m: nat)
    requires s.counter.Some? && s.counter.value < m <= Final(s, ops) && Render(m) in s.ids
    ensures !AllIssuedNew(s, ops)
    decreases |ops|
  {
    if ops == [] {
    } else {
      var next := Step(s, ops[0]);
      assert Render(m) in next.ids;
      if next.counter.value != m {
        StoredBetweenIsReissued(next, ops[1..], m);
      }
    }
  }

  lemma {:induction false} NewIff(s: State, ops: seq<Op>)
    requires Ordered(s) && NoneStoredBetween(s, Final(s, ops))
    ensures AllIssuedNew(s, ops) <==> NoneImportedAhead(s, ops)
    decreases |ops|
  {
    if ops == [] {
    } else {
      var next, final := Step(s, ops[0]), Final(s, ops);
      assert final == Final(next, ops[1..]);
      StepKeepsOrdered(s, ops[0]);
      RunKeepsOrdered(next, ops[1..]);
      if s.counter.Some? { FinalIsReach(next, ops[1..]); }
      if ops[0].Import? && s.counter.Some? && Between(ops[0].id, s.counter.value, final) {
        assert next.ids[|s.ids|] == ops[0].id;
        StoredBetweenIsReissued(next, ops[1..], NumberOf(ops[0].id).value);
      } else {
        StepKeepsNoneStoredBetween(s, ops[0], final);
        NewIff(next, ops[1..]);
        if ops[0].Issue? && NextNumber(s.counter, s.ids).Success? {
          NextIdIsNew(s, final);
        }
      }
    }
  }

  /** From any stored ids, legacy shapes and leading zeros included, a run issues strictly increasing numbers from
      100000 up; every id is new when handed out if and only if no imported id was above the counter of its moment by no
      more than the issues after it. */
  lemma IssuedIdsAreNewAndIncreasing(ids: seq<string>, ops: seq<Op>)
    ensures var start := State(None, ids, []);
            var end := Run(start, ops);
            && (forall i, j :: 0 <= i < j < |end.issued| ==> end.issued[i] < end.issued[j])
            && (forall i :: 0 <= i < |end.issued| ==> end.issued[i] >= 100000)
            && (AllIssuedNew(start, ops) <==> NoneImportedAhead(start, ops))
  {
    RunKeepsOrdered(State(None, ids, []), ops);
    NewIff(State(None, ids, []), ops);
  }

  /** A failing input: an imported id one above the counter is the next id handed out. */
  lemma ForeignIdCollides(s: State, c: nat)
    requires s.counter == Some(c) && c < INT_MAX
    ensures var imported := Step(s, Import(Render(c + 1)));
            NextNumber(imported.counter, imported.ids).Success?
            && Render(NextNumber(imported.counter, imported.ids).value) in imported.ids
  {
    assert (s.ids + [Render(c + 1)])[|s.ids|] == Render(c + 1);
  }
}
