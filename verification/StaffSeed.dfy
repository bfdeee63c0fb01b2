/** The two-pass staff import (apps/api/scripts/bootstrap.ts): which rows are taken depends on the files alone, and
    taking them is a list of upserts. */
module StaffSeed {
  import opened Strings
  import opened Wrappers
  import opened UpsertTable

  // ---- Rows ---------------------------------------------------------------------------

  datatype CsvRow = CsvRow(lineNo: nat, fields: map<string, string>)

  /** Column headings in the order they are tried, and the language's own notion of lower case. */
  datatype Format = Format(nameKeys: seq<string>, loginKeys: seq<string>, locationKeys: seq<string>,
                           lower: string -> string)

  /** The first of the columns that is not blank. */
  function RowGet(f: Format, row: CsvRow, keys: seq<string>): string {
    if keys == [] then ""
    else if keys[0] in row.fields && Trim(row.fields[keys[0]]) != "" then Trim(row.fields[keys[0]])
    else RowGet(f, row, keys[1..])
  }

  function NormalizeLocation(f: Format, s: string): string {
    f.lower(Trim(s))
  }

  datatype Entry = Entry(lineNo: nat, name: string, login: string, location: string)

  function Read(f: Format, row: CsvRow): Entry {
    Entry(row.lineNo, RowGet(f, row, f.nameKeys), RowGet(f, row, f.loginKeys), RowGet(f, row, f.locationKeys))
  }

  function ReadAll(f: Format, rows: seq<CsvRow>): seq<Entry> {
    seq(|rows|, i requires 0 <= i < |rows| => Read(f, rows[i]))
  }

  predicate Blank(e: Entry) {
    e.name == "" || e.login == "" || e.location == ""
  }

  function Place(f: Format, e: Entry): string {
    NormalizeLocation(f, e.location)
  }

  // ---- Which rows are taken ---------------------------------------------------------------

  datatype SupervisorPass = SupervisorPass(taken: seq<Entry>, byLocation: map<string, Entry>, invalid: seq<nat>,
                                           repeatedLogin: nat, repeatedLocation: nat)

  function LoginsOf(es: seq<Entry>): set<string> {
    set e | e in es :: e.login
  }

  function SupervisorStep(f: Format, p: SupervisorPass, e: Entry): SupervisorPass {
    if Blank(e) then p.(invalid := p.invalid + [e.lineNo])
    else if e.login in LoginsOf(p.taken) then p.(repeatedLogin := p.repeatedLogin + 1)
    else if Place(f, e) in p.byLocation then p.(repeatedLocation := p.repeatedLocation + 1)
    else p.(taken := p.taken + [e], byLocation := p.byLocation[Place(f, e) := e])
  }

  function Supervisors(f: Format, es: seq<Entry>): SupervisorPass {
    if es == [] then SupervisorPass([], map[], [], 0, 0)
    else SupervisorStep(f, Supervisors(f, es[..|es| - 1]), es[|es| - 1])
  }

  /** A cleaner row that was taken, with the supervisor of its location. */
  datatype Pairing = Pairing(cleaner: Entry, supervisor: Entry)

  datatype CleanerPass = CleanerPass(taken: seq<Pairing>, invalid: seq<nat>, repeatedLogin: nat, unmatched: seq<Entry>)

  function CleanerLogins(ps: seq<Pairing>): set<string> {
    set p | p in ps :: p.cleaner.login
  }

  function CleanerStep(f: Format, byLocation: map<string, Entry>, p: CleanerPass, e: Entry): CleanerPass {
    if Blank(e) then p.(invalid := p.invalid + [e.lineNo])
    else if e.login in CleanerLogins(p.taken) then p.(repeatedLogin := p.repeatedLogin + 1)
    else if Place(f, e) !in byLocation then p.(unmatched := p.unmatched + [e])
    else p.(taken := p.taken + [Pairing(e, byLocation[Place(f, e)])])
  }

  function Cleaners(f: Format, byLocation: map<string, Entry>, es: seq<Entry>): CleanerPass {
    if es == [] then CleanerPass([], [], 0, [])
    else CleanerStep(f, byLocation, Cleaners(f, byLocation, es[..|es| - 1]), es[|es| - 1])
  }

  /** Every row read is either taken or skipped for exactly one counted reason. */
  lemma {:induction false} SupervisorRowsAccountedFor(f: Format, es: seq<Entry>)
    ensures var p := Supervisors(f, es);
            |es| == |p.taken| + |p.invalid| + p.repeatedLogin + p.repeatedLocation
  {
    if es == [] {
    } else {
      SupervisorRowsAccountedFor(f, es[..|es| - 1]);
    }
  }

  lemma {:induction false} CleanerRowsAccountedFor(f: Format, byLocation: map<string, Entry>, es: seq<Entry>)
    ensures var p := Cleaners(f, byLocation, es);
            |es| == |p.taken| + |p.invalid| + p.repeatedLogin + |p.unmatched|
  {
    if es == [] {
    } else {
      CleanerRowsAccountedFor(f, byLocation, es[..|es| - 1]);
    }
  }

  ghost predicate DistinctSupervisors(f: Format, p: SupervisorPass) {
    && (forall i, j :: 0 <= i < j < |p.taken| ==>
          p.taken[i].login != p.taken[j].login && Place(f, p.taken[i]) != Place(f, p.taken[j]))
    && (forall e :: e in p.taken ==> !Blank(e) && Place(f, e) in p.byLocation && p.byLocation[Place(f, e)] == e)
    && (forall k :: k in p.byLocation ==> p.byLocation[k] in p.taken && Place(f, p.byLocation[k]) == k)
  }

  lemma StepKeepsDistinct(f: Format, p: SupervisorPass, e: Entry)
    requires DistinctSupervisors(f, p)
    ensures DistinctSupervisors(f, SupervisorStep(f, p, e))
  {
    var next := SupervisorStep(f, p, e);
    if next.taken != p.taken {
      forall x | x in p.taken
        ensures x.login != e.login && Place(f, x) != Place(f, e)
      {
        assert x.login in LoginsOf(p.taken);
      }
      MembersOfSnoc(p.taken, e);
      forall i, j | 0 <= i < j < |next.taken|
        ensures next.taken[i].login != next.taken[j].login && Place(f, next.taken[i]) != Place(f, next.taken[j])
      {
        if j == |p.taken| { assert p.taken[i] in p.taken; }
      }
    }
  }

  lemma MembersOfSnoc(es: seq<Entry>, e: Entry)
    ensures forall x :: x in es + [e] <==> x in es || x == e
  {}

  /** Taken supervisors have distinct logins and distinct locations, and are exactly the supervisors cleaners are
      matched with. */
  lemma {:induction false} TakenSupervisorsAreDistinct(f: Format, es: seq<Entry>)
    ensures DistinctSupervisors(f, Supervisors(f, es))
  {
    if es == [] {
    } else {
      TakenSupervisorsAreDistinct(f, es[..|es| - 1]);
      StepKeepsDistinct(f, Supervisors(f, es[..|es| - 1]), es[|es| - 1]);
    }
  }

  ghost predicate PairedCleaners(f: Format, byLocation: map<string, Entry>, ps: seq<Pairing>) {
    && (forall i, j :: 0 <= i < j < |ps| ==> ps[i].cleaner.login != ps[j].cleaner.login)
    && (forall p :: p in ps ==> Place(f, p.cleaner) in byLocation && p.supervisor == byLocation[Place(f, p.cleaner)])
  }

  /** Taken cleaners have distinct logins, and each goes to the supervisor of its own location. */
  lemma {:induction false} TakenCleanersArePaired(f: Format, byLocation: map<string, Entry>, es: seq<Entry>)
    ensures PairedCleaners(f, byLocation, Cleaners(f, byLocation, es).taken)
  {
    if es == [] {
    } else {
      var before, e := Cleaners(f, byLocation, es[..|es| - 1]), es[|es| - 1];
      TakenCleanersArePaired(f, byLocation, es[..|es| - 1]);
      var next := CleanerStep(f, byLocation, before, e);
      if next.taken != before.taken {
        assert forall p :: p in before.taken ==> p.cleaner.login in CleanerLogins(before.taken);
        assert forall i :: 0 <= i < |before.taken| ==> before.taken[i] in before.taken;
        assert PairedCleaners(f, byLocation, next.taken);
      }
    }
  }

  // ---- What taking them writes ---------------------------------------------------------------

  datatype Role = Supervisor | Cleaner

  /** The account columns the import writes; the salted password hash is left out. */
  datatype AccountData = AccountData(name: string, role: Role, phone: Option<string>, email: Option<string>,
                                     workLocation: string)

  datatype AccountRest = AccountRest(verified: bool, active: bool, logins: nat)

  datatype RosterData = RosterData(name: string, workLocation: string, supervisorId: nat, supervisorName: string)

  datatype RosterRest = RosterRest(phone: Option<string>, task: Option<string>)

  const NEW_ACCOUNT := AccountRest(true, true, 0)
  const NEW_ROSTER_ROW := RosterRest(None, None)

  datatype Db = Db(accounts: Table<AccountData, AccountRest>, roster: Table<RosterData, RosterRest>)

  function AccountUp(e: Entry, role: Role): Up<AccountData> {
    Up(e.login, AccountData(e.name, role, None, None, e.location))
  }

  function SupervisorUps(es: seq<Entry>): seq<Up<AccountData>> {
    seq(|es|, i requires 0 <= i < |es| => AccountUp(es[i], Supervisor))
  }

  function CleanerUps(ps: seq<Pairing>): seq<Up<AccountData>> {
    seq(|ps|, i requires 0 <= i < |ps| => AccountUp(ps[i].cleaner, Cleaner))
  }

  function RosterUp(accounts: Table<AccountData, AccountRest>, p: Pairing): Up<RosterData> {
    Up(p.cleaner.login,
       RosterData(p.cleaner.name, p.cleaner.location, IdOf(accounts, p.supervisor.login), p.supervisor.name))
  }

  function RosterUps(accounts: Table<AccountData, AccountRest>, ps: seq<Pairing>): seq<Up<RosterData>> {
    seq(|ps|, i requires 0 <= i < |ps| => RosterUp(accounts, ps[i]))
  }

  /** The tables after an import that takes these supervisors and cleaners. */
  function Imported(db: Db, sups: seq<Entry>, ps: seq<Pairing>): Db {
    var afterSups := UpsertAll(db.accounts, SupervisorUps(sups), NEW_ACCOUNT);
    Db(UpsertAll(afterSups, CleanerUps(ps), NEW_ACCOUNT),
       UpsertAll(db.roster, RosterUps(afterSups, ps), NEW_ROSTER_ROW))
  }

  function Seeded(f: Format, db: Db, supervisors: seq<CsvRow>, cleaners: seq<CsvRow>): Db {
    var sp := Supervisors(f, ReadAll(f, supervisors));
    Imported(db, sp.taken, Cleaners(f, sp.byLocation, ReadAll(f, cleaners)).taken)
  }

  lemma {:induction false} SettledHas(t: Table<AccountData, AccountRest>, sups: seq<Entry>, i: nat)
    requires i < |sups|
    ensures Has(UpsertAll(t, SupervisorUps(sups), NEW_ACCOUNT), sups[i].login)
  {
    UpsertAllSettles(t, SupervisorUps(sups), NEW_ACCOUNT, sups[i].login);
    assert SupervisorUps(sups)[i].key == sups[i].login;
  }

  /** Importing the same selection twice leaves the same accounts and roster as importing it once. */
  lemma ImportIsIdempotent(db: Db, sups: seq<Entry>, ps: seq<Pairing>)
    requires forall i :: 0 <= i < |ps| ==> ps[i].supervisor in sups
    ensures Imported(Imported(db, sups, ps), sups, ps) == Imported(db, sups, ps)
  {
    var su, cu := SupervisorUps(sups), CleanerUps(ps);
    var first := UpsertAll(db.accounts, su, NEW_ACCOUNT);
    var once := Imported(db, sups, ps);
    var second := UpsertAll(once.accounts, su, NEW_ACCOUNT);
    UpsertAllJoin(db.accounts, su, cu, NEW_ACCOUNT);
    UpsertAllJoin(once.accounts, su, cu, NEW_ACCOUNT);
    UpsertAllIsIdempotent(db.accounts, su + cu, NEW_ACCOUNT);
    forall i | 0 <= i < |ps|
      ensures RosterUp(second, ps[i]) == RosterUp(first, ps[i])
    {
      var login := ps[i].supervisor.login;
      var j :| 0 <= j < |sups| && sups[j] == ps[i].supervisor;
      SettledHas(db.accounts, sups, j);
      IdsAreStable(first, cu, NEW_ACCOUNT, login);
      IdsAreStable(once.accounts, su, NEW_ACCOUNT, login);
    }
    assert RosterUps(second, ps) == RosterUps(first, ps);
    UpsertAllIsIdempotent(db.roster, RosterUps(first, ps), NEW_ROSTER_ROW);
  }

  /** Seeding twice from the same files is seeding once. */
  lemma SeedingTwiceIsSeedingOnce(f: Format, db: Db, supervisors: seq<CsvRow>, cleaners: seq<CsvRow>)
    ensures Seeded(f, Seeded(f, db, supervisors, cleaners), supervisors, cleaners)
            == Seeded(f, db, supervisors, cleaners)
  {
    var sp := Supervisors(f, ReadAll(f, supervisors));
    var ps := Cleaners(f, sp.byLocation, ReadAll(f, cleaners)).taken;
    TakenSupervisorsAreDistinct(f, ReadAll(f, supervisors));
    TakenCleanersArePaired(f, sp.byLocation, ReadAll(f, cleaners));
    ImportIsIdempotent(db, sp.taken, ps);
  }

  /** A roster with at most one row per work id, and accounts with one row per login, stay so. */
  lemma SeedingKeepsKeysUnique(f: Format, db: Db, supervisors: seq<CsvRow>, cleaners: seq<CsvRow>)
    requires UniqueKeys(db.accounts) && UniqueKeys(db.roster)
    ensures var after := Seeded(f, db, supervisors, cleaners); UniqueKeys(after.accounts) && UniqueKeys(after.roster)
  {
    var sp := Supervisors(f, ReadAll(f, supervisors));
    var ps := Cleaners(f, sp.byLocation, ReadAll(f, cleaners)).taken;
    var afterSups := UpsertAll(db.accounts, SupervisorUps(sp.taken), NEW_ACCOUNT);
    UpsertAllKeepsKeysUnique(db.accounts, SupervisorUps(sp.taken), NEW_ACCOUNT);
    UpsertAllKeepsKeysUnique(afterSups, CleanerUps(ps), NEW_ACCOUNT);
    UpsertAllKeepsKeysUnique(db.roster, RosterUps(afterSups, ps), NEW_ROSTER_ROW);
  }

  // ---- What the import leaves behind -------------------------------------------------------------

  predicate CleanerWired(db: Db, p: Pairing) {
    var c, s := p.cleaner, p.supervisor;
    && Holds(db.accounts, c.login, AccountData(c.name, Cleaner, None, None, c.location))
    && Has(db.accounts, s.login)
    && Holds(db.roster, c.login, RosterData(c.name, c.location, IdOf(db.accounts, s.login), s.name))
  }

  predicate SupervisorWired(db: Db, e: Entry) {
    Holds(db.accounts, e.login, AccountData(e.name, Supervisor, None, None, e.location))
  }

  /** Whoever a login belonged to before, after the import a taken cleaner's account is that cleaner's, and its roster
      row points at the account of the supervisor of its location. */
  lemma CleanerIsWired(db: Db, sups: seq<Entry>, ps: seq<Pairing>, i: nat)
    requires i < |ps| && ps[i].supervisor in sups
    requires forall j, k :: 0 <= j < k < |ps| ==> ps[j].cleaner.login != ps[k].cleaner.login
    ensures CleanerWired(Imported(db, sups, ps), ps[i])
  {
    var c, s := ps[i].cleaner, ps[i].supervisor;
    var su, cu := SupervisorUps(sups), CleanerUps(ps);
    var first := UpsertAll(db.accounts, su, NEW_ACCOUNT);
    UpsertAllSettles(first, cu, NEW_ACCOUNT, c.login);
    assert cu[i].key == c.login;
    assert LastFor(cu, c.login) == i;
    var ru := RosterUps(first, ps);
    UpsertAllSettles(db.roster, ru, NEW_ROSTER_ROW, c.login);
    assert ru[i].key == c.login;
    assert LastFor(ru, c.login) == i;
    var j :| 0 <= j < |sups| && sups[j] == s;
    SettledHas(db.accounts, sups, j);
    IdsAreStable(first, cu, NEW_ACCOUNT, s.login);
  }

  /** A supervisor whose login was not also taken as a cleaner keeps a supervisor's account. */
  lemma SupervisorStays(db: Db, sups: seq<Entry>, ps: seq<Pairing>, i: nat)
    requires i < |sups| && sups[i].login !in CleanerLogins(ps)
    requires forall j, k :: 0 <= j < k < |sups| ==> sups[j].login != sups[k].login
    ensures SupervisorWired(Imported(db, sups, ps), sups[i])
  {
    var e := sups[i];
    var su, cu := SupervisorUps(sups), CleanerUps(ps);
    UpsertAllSettles(db.accounts, su, NEW_ACCOUNT, e.login);
    assert su[i].key == e.login;
    assert LastFor(su, e.login) == i;
    forall k | 0 <= k < |cu|
      ensures cu[k].key != e.login
    {
      assert ps[k] in ps && ps[k].cleaner.login in CleanerLogins(ps);
    }
    UpsertAllLeavesOthers(UpsertAll(db.accounts, su, NEW_ACCOUNT), cu, NEW_ACCOUNT, e.login, su[i].content);
  }

  /** A taken supervisor ends with a supervisor's account exactly when the same login was not also taken as a cleaner:
      the second pass turns the account of such a login into a cleaner's. */
  lemma SupervisorIsWiredIff(db: Db, sups: seq<Entry>, ps: seq<Pairing>, i: nat)
    requires i < |sups| && forall j :: 0 <= j < |ps| ==> ps[j].supervisor in sups
    requires forall j, k :: 0 <= j < k < |sups| ==> sups[j].login != sups[k].login
    requires forall j, k :: 0 <= j < k < |ps| ==> ps[j].cleaner.login != ps[k].cleaner.login
    ensures SupervisorWired(Imported(db, sups, ps), sups[i]) <==> sups[i].login !in CleanerLogins(ps)
  {
    if sups[i].login !in CleanerLogins(ps) {
      SupervisorStays(db, sups, ps, i);
    } else {
      var j :| 0 <= j < |ps| && ps[j].cleaner.login == sups[i].login;
      CleanerIsWired(db, sups, ps, j);
    }
  }

  /** Both, for the rows the files select. */
  lemma SeededStaffIsWired(f: Format, db: Db, supervisors: seq<CsvRow>, cleaners: seq<CsvRow>)
    ensures var sp := Supervisors(f, ReadAll(f, supervisors));
            var ps := Cleaners(f, sp.byLocation, ReadAll(f, cleaners)).taken;
            var after := Seeded(f, db, supervisors, cleaners);
            && (forall i :: 0 <= i < |ps| ==> CleanerWired(after, ps[i]))
            && (forall i :: 0 <= i < |sp.taken| ==>
                  (SupervisorWired(after, sp.taken[i]) <==> sp.taken[i].login !in CleanerLogins(ps)))
  {
    var sp := Supervisors(f, ReadAll(f, supervisors));
    var ps := Cleaners(f, sp.byLocation, ReadAll(f, cleaners)).taken;
    TakenSupervisorsAreDistinct(f, ReadAll(f, supervisors));
    TakenCleanersArePaired(f, sp.byLocation, ReadAll(f, cleaners));
    forall i | 0 <= i < |ps|
      ensures ps[i].supervisor in sp.taken && CleanerWired(Seeded(f, db, supervisors, cleaners), ps[i])
    {
      assert ps[i] in ps;
      CleanerIsWired(db, sp.taken, ps, i);
    }
    forall i | 0 <= i < |sp.taken|
      ensures SupervisorWired(Seeded(f, db, supervisors, cleaners), sp.taken[i])
              <==> sp.taken[i].login !in CleanerLogins(ps)
    {
      SupervisorIsWiredIff(db, sp.taken, ps, i);
    }
  }

  // ---- Repeated keys in a file ------------------------------------------------------------------

  function LinesOf(keys: seq<string>, lines: seq<nat>, key: string): seq<nat>
    requires |keys| == |lines|
  {
    if keys == [] then []
    else
      var n := |keys|;
      LinesOf(keys[..n - 1], lines[..n - 1], key) + if keys[n - 1] == key then [lines[n - 1]] else []
  }

  function RepeatedKeys(keys: seq<string>, lines: seq<nat>): set<string>
    requires |keys| == |lines|
  {
    set k | k in keys && k != "" && |LinesOf(keys, lines, k)| > 1
  }

  datatype Duplicate = Duplicate(key: string, lines: seq<nat>)

  lemma {:induction false} LinesOfStranger(keys: seq<string>, lines: seq<nat>, key: string)
    requires |keys| == |lines| && key !in keys
    ensures LinesOf(keys, lines, key) == []
  {
    if keys == [] {
    } else {
      var n := |keys|;
      LinesOfStranger(keys[..n - 1], lines[..n - 1], key);
    }
  }

  ghost predicate Grouped(keys: seq<string>, lines: seq<nat>, seen: map<string, seq<nat>>)
    requires |keys| == |lines|
  {
    && (forall k :: k in seen <==> k in keys && k != "")
    && (forall k :: k in seen ==> seen[k] == LinesOf(keys, lines, k))
  }

  function AddLine(seen: map<string, seq<nat>>, key: string, line: nat): map<string, seq<nat>> {
    if key == "" then seen else seen[key := (if key in seen then seen[key] else []) + [line]]
  }

  method GroupLines(keys: seq<string>, lines: seq<nat>) returns (seen: map<string, seq<nat>>)
    requires |keys| == |lines|
    ensures Grouped(keys, lines, seen)
  {
    seen := map[];
    for i := 0 to |keys|
      invariant Grouped(keys[..i], lines[..i], seen)
    {
      GroupOneMore(keys[..i], lines[..i], keys[i], lines[i], seen);
      assert keys[..i + 1] == keys[..i] + [keys[i]] && lines[..i + 1] == lines[..i] + [lines[i]];
      if keys[i] != "" {
        var list := if keys[i] in seen then seen[keys[i]] else [];
        seen := seen[keys[i] := list + [lines[i]]];
      }
    }
    assert keys[..|keys|] == keys && lines[..|keys|] == lines;
  }

  lemma LinesOfSnoc(keys: seq<string>, lines: seq<nat>, key: string, line: nat, k: string)
    requires |keys| == |lines|
    ensures LinesOf(keys + [key], lines + [line], k) == LinesOf(keys, lines, k) + if key == k then [line] else []
  {
    assert (keys + [key])[..|keys|] == keys && (lines + [line])[..|lines|] == lines;
  }

  lemma GroupOneMore(keys: seq<string>, lines: seq<nat>, key: string, line: nat, seen: map<string, seq<nat>>)
    requires |keys| == |lines| && Grouped(keys, lines, seen)
    ensures Grouped(keys + [key], lines + [line], AddLine(seen, key, line))
  {
    var next := AddLine(seen, key, line);
    forall k
      ensures k in next <==> k in keys + [key] && k != ""
    {}
    forall k | k in next
      ensures next[k] == LinesOf(keys + [key], lines + [line], k)
    {
      LinesOfSnoc(keys, lines, key, line, k);
      if k !in seen { LinesOfStranger(keys, lines, k); }
    }
  }

  function Repeats(seen: map<string, seq<nat>>): set<string> {
    set k | k in seen && |seen[k]| > 1
  }

  function KeysOf(entries: seq<Duplicate>): set<string> {
    set d | d in entries :: d.key
  }

  lemma KeysOfSnoc(entries: seq<Duplicate>, d: Duplicate)
    ensures KeysOf(entries + [d]) == KeysOf(entries) + {d.key}
  {
    assert forall x :: x in entries + [d] <==> x in entries || x == d;
  }

  function RepeatsOutside(seen: map<string, seq<nat>>, left: set<string>): set<string> {
    Repeats(seen) - left
  }

  lemma OneKeyFewer(seen: map<string, seq<nat>>, left: set<string>, key: string)
    requires key in left && left <= seen.Keys
    ensures RepeatsOutside(seen, left - {key})
            == RepeatsOutside(seen, left) + if |seen[key]| > 1 then {key} else {}
    ensures |RepeatsOutside(seen, left - {key})| == |RepeatsOutside(seen, left)| + if |seen[key]| > 1 then 1 else 0
  {
    assert RepeatsOutside(seen, left - {key}) == RepeatsOutside(seen, left) + if |seen[key]| > 1 then {key} else {};
    assert key !in RepeatsOutside(seen, left);
  }

  method ListRepeats(seen: map<string, seq<nat>>) returns (entries: seq<Duplicate>)
    ensures forall d :: d in entries ==> d.key in seen && d.lines == seen[d.key]
    ensures KeysOf(entries) == Repeats(seen) && |entries| == |Repeats(seen)|
  {
    entries := [];
    var left := seen.Keys;
    assert RepeatsOutside(seen, left) == {};
    while left != {}
      invariant left <= seen.Keys
      invariant forall d :: d in entries ==> d.key in seen && d.lines == seen[d.key]
      invariant KeysOf(entries) == RepeatsOutside(seen, left) && |entries| == |RepeatsOutside(seen, left)|
      decreases left
    {
      var key :| key in left;
      OneKeyFewer(seen, left, key);
      if |seen[key]| > 1 {
        KeysOfSnoc(entries, Duplicate(key, seen[key]));
        entries := entries + [Duplicate(key, seen[key])];
      }
      left := left - {key};
    }
    assert RepeatsOutside(seen, left) == Repeats(seen);
  }

  /** Groups the non-empty keys, then keeps the groups of more than one line: one entry per repeated key. */
  method ReportDuplicates(keys: seq<string>, lines: seq<nat>) returns (entries: seq<Duplicate>)
    requires |keys| == |lines|
    ensures forall d :: d in entries ==> d.lines == LinesOf(keys, lines, d.key)
    ensures KeysOf(entries) == RepeatedKeys(keys, lines) && |entries| == |RepeatedKeys(keys, lines)|
  {
    var seen := GroupLines(keys, lines);
    assert forall k :: k in Repeats(seen) <==> k in RepeatedKeys(keys, lines);
    assert Repeats(seen) == RepeatedKeys(keys, lines);
    entries := ListRepeats(seen);
  }

  // ---- The import itself --------------------------------------------------------------------------

  datatype Summary = Summary(
    skipped: bool, supervisorRows: nat, cleanerRows: nat,
    supervisorLoginGroups: nat, supervisorLocationGroups: nat, cleanerLoginGroups: nat,
    supervisorsAccepted: nat, supervisorsUpserted: nat, supervisorsInvalid: nat,
    supervisorsRepeatedLogin: nat, supervisorsRepeatedLocation: nat,
    cleanersAccepted: nat, cleanersUpserted: nat, cleanersInvalid: nat, cleanersRepeatedLogin: nat,
    cleanersUnmatched: nat,
    invalidSupervisorLines: seq<nat>, invalidCleanerLines: seq<nat>, unmatchedCleaners: seq<Entry>)

  function Logins(f: Format, rows: seq<CsvRow>): seq<string> {
    seq(|rows|, i requires 0 <= i < |rows| => Read(f, rows[i]).login)
  }

  function Places(f: Format, rows: seq<CsvRow>): seq<string> {
    seq(|rows|, i requires 0 <= i < |rows| => Place(f, Read(f, rows[i])))
  }

  function LineNumbers(rows: seq<CsvRow>): seq<nat> {
    seq(|rows|, i requires 0 <= i < |rows| => rows[i].lineNo)
  }

  /** The summary, from the files alone. */
  function SummaryOf(f: Format, supervisors: seq<CsvRow>, cleaners: seq<CsvRow>): Summary {
    var sp := Supervisors(f, ReadAll(f, supervisors));
    var cp := Cleaners(f, sp.byLocation, ReadAll(f, cleaners));
    Summary(false, |supervisors|, |cleaners|,
            |RepeatedKeys(Logins(f, supervisors), LineNumbers(supervisors))|,
            |RepeatedKeys(Places(f, supervisors), LineNumbers(supervisors))|,
            |RepeatedKeys(Logins(f, cleaners), LineNumbers(cleaners))|,
            |sp.taken|, |sp.taken|, |sp.invalid|, sp.repeatedLogin, sp.repeatedLocation,
            |cp.taken|, |cp.taken|, |cp.invalid|, cp.repeatedLogin, |cp.unmatched|,
            sp.invalid, cp.invalid, cp.unmatched)
  }

  /** In a dry run an account has only a made-up id. */
  datatype AccountId = Stored(id: nat) | Dry(role: Role, login: string)

  datatype SupervisorRef = SupervisorRef(id: AccountId, name: string, login: string)

  /** The location map holds the supervisors taken so far, with the ids of their stored accounts. */
  ghost predicate Refers(accounts: Table<AccountData, AccountRest>, places: map<string, Entry>,
                         byLocation: map<string, SupervisorRef>, dryRun: bool)
  {
    && byLocation.Keys == places.Keys
    && (forall k :: k in byLocation ==> RefersTo(accounts, byLocation[k], places[k], dryRun))
  }

  ghost predicate RefersTo(accounts: Table<AccountData, AccountRest>, r: SupervisorRef, e: Entry, dryRun: bool) {
    && r.name == e.name && r.login == e.login
    && (!dryRun ==> Has(accounts, e.login) && r.id == Stored(IdOf(accounts, e.login)))
  }

  lemma RefersStill(accounts: Table<AccountData, AccountRest>, places: map<string, Entry>,
                    byLocation: map<string, SupervisorRef>, dryRun: bool, u: Up<AccountData>)
    requires Refers(accounts, places, byLocation, dryRun)
    ensures !dryRun ==> Refers(Upsert(accounts, u, NEW_ACCOUNT), places, byLocation, dryRun)
    ensures Has(Upsert(accounts, u, NEW_ACCOUNT), u.key)
  {
    forall k | k in byLocation && !dryRun
      ensures RefersTo(Upsert(accounts, u, NEW_ACCOUNT), byLocation[k], places[k], dryRun)
    {
      UpsertKeepsPlaces(accounts, u, NEW_ACCOUNT, places[k].login);
    }
    UpsertKeepsPlaces(accounts, u, NEW_ACCOUNT, u.key);
  }

  lemma RefersNext(f: Format, accounts: Table<AccountData, AccountRest>, p: SupervisorPass,
                   byLocation: map<string, SupervisorRef>, dryRun: bool, e: Entry, r: SupervisorRef)
    requires !Blank(e) && e.login !in LoginsOf(p.taken) && Place(f, e) !in p.byLocation
    requires Refers(accounts, p.byLocation, byLocation, dryRun) && RefersTo(accounts, r, e, dryRun)
    ensures Refers(accounts, SupervisorStep(f, p, e).byLocation, byLocation[Place(f, e) := r], dryRun)
    ensures SupervisorStep(f, p, e).taken == p.taken + [e]
  {}

  lemma TakeSupervisor(taken: seq<Entry>, e: Entry, base: Table<AccountData, AccountRest>)
    ensures UpsertAll(base, SupervisorUps(taken + [e]), NEW_ACCOUNT)
            == Upsert(UpsertAll(base, SupervisorUps(taken), NEW_ACCOUNT), AccountUp(e, Supervisor), NEW_ACCOUNT)
  {
    assert SupervisorUps(taken + [e]) == SupervisorUps(taken) + [AccountUp(e, Supervisor)];
    UpsertAllSnoc(base, SupervisorUps(taken), AccountUp(e, Supervisor), NEW_ACCOUNT);
  }

  lemma LoginsSnoc(es: seq<Entry>, e: Entry)
    ensures LoginsOf(es + [e]) == LoginsOf(es) + {e.login}
  {
    assert forall x :: x in es + [e] <==> x in es || x == e;
  }

  lemma TakeCleaner(ps: seq<Pairing>, p: Pairing, base: Table<AccountData, AccountRest>,
                    rows: Table<RosterData, RosterRest>)
    ensures UpsertAll(base, CleanerUps(ps + [p]), NEW_ACCOUNT)
            == Upsert(UpsertAll(base, CleanerUps(ps), NEW_ACCOUNT), AccountUp(p.cleaner, Cleaner), NEW_ACCOUNT)
    ensures UpsertAll(rows, RosterUps(base, ps + [p]), NEW_ROSTER_ROW)
            == Upsert(UpsertAll(rows, RosterUps(base, ps), NEW_ROSTER_ROW), RosterUp(base, p), NEW_ROSTER_ROW)
  {
    assert CleanerUps(ps + [p]) == CleanerUps(ps) + [AccountUp(p.cleaner, Cleaner)];
    UpsertAllSnoc(base, CleanerUps(ps), AccountUp(p.cleaner, Cleaner), NEW_ACCOUNT);
    assert RosterUps(base, ps + [p]) == RosterUps(base, ps) + [RosterUp(base, p)];
    UpsertAllSnoc(rows, RosterUps(base, ps), RosterUp(base, p), NEW_ROSTER_ROW);
  }

  lemma CleanerLoginsSnoc(ps: seq<Pairing>, p: Pairing)
    ensures CleanerLogins(ps + [p]) == CleanerLogins(ps) + {p.cleaner.login}
  {
    assert forall x :: x in ps + [p] <==> x in ps || x == p;
  }

  lemma NextSupervisor(f: Format, rows: seq<CsvRow>, i: nat)
    requires i < |rows|
    ensures var all := ReadAll(f, rows);
            Supervisors(f, all[..i + 1]) == SupervisorStep(f, Supervisors(f, all[..i]), Read(f, rows[i]))
  {
    var all := ReadAll(f, rows);
    assert all[..i + 1][..i] == all[..i] && all[..i + 1][i] == Read(f, rows[i]);
  }

  lemma NextCleaner(f: Format, byLocation: map<string, Entry>, rows: seq<CsvRow>, i: nat)
    requires i < |rows|
    ensures var all := ReadAll(f, rows);
            Cleaners(f, byLocation, all[..i + 1])
            == CleanerStep(f, byLocation, Cleaners(f, byLocation, all[..i]), Read(f, rows[i]))
  {
    var all := ReadAll(f, rows);
    assert all[..i + 1][..i] == all[..i] && all[..i + 1][i] == Read(f, rows[i]);
  }

  class Importer {
    var accounts: Table<AccountData, AccountRest>
    var roster: Table<RosterData, RosterRest>

    ghost function State(): Db
      reads this
    {
      Db(accounts, roster)
    }

    constructor (accounts: Table<AccountData, AccountRest>, roster: Table<RosterData, RosterRest>)
      ensures State() == Db(accounts, roster)
    {
      this.accounts, this.roster := accounts, roster;
    }

    /** Prisma's upsert on the login: the row found is updated, or one is created; a dry run only makes up an id. */
    method UpsertUserAccount(e: Entry, role: Role, dryRun: bool) returns (id: AccountId)
      modifies this`accounts
      ensures dryRun ==> accounts == old(accounts) && id == Dry(role, e.login)
      ensures !dryRun ==> WroteOneRow(old(accounts), accounts, AccountUp(e, role), NEW_ACCOUNT)
      ensures !dryRun ==> Has(accounts, e.login) && id == Stored(IdOf(accounts, e.login))
    {
      if dryRun { return Dry(role, e.login); }
      var data := AccountData(e.name, role, None, None, e.location);
      var existing := IndexOf(accounts.rows, e.login);
      ghost var before := accounts;
      if existing >= 0 {
        id := Stored(accounts.rows[existing].id);
        accounts := accounts.(rows := accounts.rows[existing := accounts.rows[existing].(content := data)]);
      } else {
        id := Stored(accounts.nextId);
        accounts := Table(accounts.rows + [Rec(e.login, accounts.nextId, NEW_ACCOUNT, data)], accounts.nextId + 1);
      }
      WroteOneRowIffUpsert(before, accounts, AccountUp(e, role), NEW_ACCOUNT);
      UpsertKeepsPlaces(before, AccountUp(e, role), NEW_ACCOUNT, e.login);
    }

    method AcceptSupervisor(f: Format, e: Entry, ghost p: SupervisorPass, byLocation: map<string, SupervisorRef>,
                            ghost base: Table<AccountData, AccountRest>, dryRun: bool)
      returns (byLocation': map<string, SupervisorRef>)
      requires !Blank(e) && e.login !in LoginsOf(p.taken) && Place(f, e) !in p.byLocation
      requires Refers(accounts, p.byLocation, byLocation, dryRun)
      requires accounts == if dryRun then base else UpsertAll(base, SupervisorUps(p.taken), NEW_ACCOUNT)
      modifies this`accounts
      ensures Refers(accounts, SupervisorStep(f, p, e).byLocation, byLocation', dryRun)
      ensures accounts == if dryRun then base
                          else UpsertAll(base, SupervisorUps(SupervisorStep(f, p, e).taken), NEW_ACCOUNT)
    {
      TakeSupervisor(p.taken, e, base);
      RefersStill(accounts, p.byLocation, byLocation, dryRun, AccountUp(e, Supervisor));
      var id := UpsertUserAccount(e, Supervisor, dryRun);
      WroteOneRowIffUpsert(old(accounts), accounts, AccountUp(e, Supervisor), NEW_ACCOUNT);
      var ref := SupervisorRef(id, e.name, e.login);
      RefersNext(f, accounts, p, byLocation, dryRun, e, ref);
      byLocation' := byLocation[NormalizeLocation(f, e.location) := ref];
    }

    method SeedSupervisors(f: Format, rows: seq<CsvRow>, dryRun: bool)
      returns (accepted: nat, upserted: nat, invalid: seq<nat>, repeatedLogin: nat, repeatedLocation: nat,
               byLocation: map<string, SupervisorRef>)
      modifies this`accounts
      ensures var p := Supervisors(f, ReadAll(f, rows));
              && accepted == |p.taken| && upserted == |p.taken| && invalid == p.invalid
              && repeatedLogin == p.repeatedLogin && repeatedLocation == p.repeatedLocation
              && Refers(accounts, p.byLocation, byLocation, dryRun)
              && accounts == if dryRun then old(accounts)
                             else UpsertAll(old(accounts), SupervisorUps(p.taken), NEW_ACCOUNT)
    {
      accepted, upserted, invalid, repeatedLogin, repeatedLocation, byLocation := 0, 0, [], 0, 0, map[];
      var seenLogin: set<string> := {};
      ghost var all := ReadAll(f, rows);
      ghost var p := Supervisors(f, []);
      for i := 0 to |rows|
        invariant p == Supervisors(f, all[..i])
        invariant accepted == |p.taken| && upserted == |p.taken| && invalid == p.invalid
        invariant repeatedLogin == p.repeatedLogin && repeatedLocation == p.repeatedLocation
        invariant seenLogin == LoginsOf(p.taken)
        invariant Refers(accounts, p.byLocation, byLocation, dryRun)
        invariant accounts == if dryRun then old(accounts)
                              else UpsertAll(old(accounts), SupervisorUps(p.taken), NEW_ACCOUNT)
      {
        var e := Read(f, rows[i]);
        ghost var before := p;
        p := SupervisorStep(f, p, e);
        NextSupervisor(f, rows, i);
        if e.name == "" || e.login == "" || e.location == "" {
          invalid := invalid + [e.lineNo];
        } else if e.login in seenLogin {
          repeatedLogin := repeatedLogin + 1;
        } else if NormalizeLocation(f, e.location) in byLocation {
          repeatedLocation := repeatedLocation + 1;
        } else {
          accepted := accepted + 1;
          byLocation := AcceptSupervisor(f, e, before, byLocation, old(accounts), dryRun);
          LoginsSnoc(before.taken, e);
          seenLogin := seenLogin + {e.login};
          upserted := upserted + 1;
        }
      }
      assert all[..|rows|] == all;
    }

    /** The roster row of a cleaner: updated where it is found, created where it is not. */
    method UpsertRoster(e: Entry, supervisorId: nat, supervisorName: string)
      modifies this`roster
      ensures roster == Upsert(old(roster), Up(e.login, RosterData(e.name, e.location, supervisorId, supervisorName)),
                               NEW_ROSTER_ROW)
    {
      var data := RosterData(e.name, e.location, supervisorId, supervisorName);
      var existing := IndexOf(roster.rows, e.login);
      if existing >= 0 {
        roster := roster.(rows := roster.rows[existing := roster.rows[existing].(content := data)]);
      } else {
        roster := Table(roster.rows + [Rec(e.login, roster.nextId, NEW_ROSTER_ROW, data)], roster.nextId + 1);
      }
    }

    method AcceptCleaner(e: Entry, supervisor: SupervisorRef, ghost ps: seq<Pairing>, ghost pair: Pairing,
                         ghost base: Table<AccountData, AccountRest>, ghost rows: Table<RosterData, RosterRest>,
                         dryRun: bool)
      requires pair.cleaner == e && RefersTo(base, supervisor, pair.supervisor, dryRun)
      requires accounts == if dryRun then base else UpsertAll(base, CleanerUps(ps), NEW_ACCOUNT)
      requires roster == if dryRun then rows else UpsertAll(rows, RosterUps(base, ps), NEW_ROSTER_ROW)
      modifies this
      ensures accounts == if dryRun then base else UpsertAll(base, CleanerUps(ps + [pair]), NEW_ACCOUNT)
      ensures roster == if dryRun then rows else UpsertAll(rows, RosterUps(base, ps + [pair]), NEW_ROSTER_ROW)
    {
      TakeCleaner(ps, pair, base, rows);
      var id := UpsertUserAccount(e, Cleaner, dryRun);
      WroteOneRowIffUpsert(old(accounts), accounts, AccountUp(e, Cleaner), NEW_ACCOUNT);
      if !dryRun {
        UpsertRoster(e, supervisor.id.id, supervisor.name);
      }
    }

    method SeedCleaners(f: Format, rows: seq<CsvRow>, byLocation: map<string, SupervisorRef>, ghost sp: SupervisorPass,
                        dryRun: bool)
      returns (accepted: nat, upserted: nat, invalid: seq<nat>, repeatedLogin: nat, unmatched: seq<Entry>)
      requires Refers(accounts, sp.byLocation, byLocation, dryRun)
      modifies this
      ensures var p := Cleaners(f, sp.byLocation, ReadAll(f, rows));
              && accepted == |p.taken| && upserted == |p.taken| && invalid == p.invalid
              && repeatedLogin == p.repeatedLogin && unmatched == p.unmatched
              && accounts == (if dryRun then old(accounts)
                              else UpsertAll(old(accounts), CleanerUps(p.taken), NEW_ACCOUNT))
              && roster == (if dryRun then old(roster)
                            else UpsertAll(old(roster), RosterUps(old(accounts), p.taken), NEW_ROSTER_ROW))
    {
      accepted, upserted, invalid, repeatedLogin, unmatched := 0, 0, [], 0, [];
      var seenLogin: set<string> := {};
      ghost var all := ReadAll(f, rows);
      ghost var p := Cleaners(f, sp.byLocation, []);
      for i := 0 to |rows|
        invariant p == Cleaners(f, sp.byLocation, all[..i])
        invariant accepted == |p.taken| && upserted == |p.taken| && invalid == p.invalid
        invariant repeatedLogin == p.repeatedLogin && unmatched == p.unmatched
        invariant seenLogin == CleanerLogins(p.taken)
        invariant accounts == if dryRun then old(accounts)
                              else UpsertAll(old(accounts), CleanerUps(p.taken), NEW_ACCOUNT)
        invariant roster == if dryRun then old(roster)
                            else UpsertAll(old(roster), RosterUps(old(accounts), p.taken), NEW_ROSTER_ROW)
      {
        var e := Read(f, rows[i]);
        ghost var before := p;
        p := CleanerStep(f, sp.byLocation, p, e);
        NextCleaner(f, sp.byLocation, rows, i);
        if e.name == "" || e.login == "" || e.location == "" {
          invalid := invalid + [e.lineNo];
        } else if e.login in seenLogin {
          repeatedLogin := repeatedLogin + 1;
        } else if NormalizeLocation(f, e.location) !in byLocation {
          unmatched := unmatched + [e];
        } else {
          var supervisor := byLocation[NormalizeLocation(f, e.location)];
          ghost var pair := Pairing(e, sp.byLocation[Place(f, e)]);
          accepted := accepted + 1;
          AcceptCleaner(e, supervisor, before.taken, pair, old(accounts), old(roster), dryRun);
          CleanerLoginsSnoc(before.taken, pair);
          seenLogin := seenLogin + {e.login};
          upserted := upserted + 1;
        }
      }
      assert all[..|rows|] == all;
    }

    /** The whole import, for the files whose paths were configured. Without both it writes nothing; a dry run answers
        with the summary of a real run and writes nothing either. */
    method SeedStaff(f: Format, supervisorFile: Option<seq<CsvRow>>, cleanerFile: Option<seq<CsvRow>>, dryRun: bool)
      returns (summary: Summary)
      modifies this
      ensures summary.skipped <==> supervisorFile.None? || cleanerFile.None?
      ensures summary.skipped ==>
                && summary == Summary(true, 0, 0, 0, 0, 0, 0, 0, 0, 0, 0, 0, 0, 0, 0, 0, [], [], [])
                && State() == old(State())
      ensures !summary.skipped ==> summary == SummaryOf(f, supervisorFile.value, cleanerFile.value)
      ensures !summary.skipped ==>
                State() == if dryRun then old(State())
                           else Seeded(f, old(State()), supervisorFile.value, cleanerFile.value)
    {
      if supervisorFile.None? || cleanerFile.None? {
        return Summary(true, 0, 0, 0, 0, 0, 0, 0, 0, 0, 0, 0, 0, 0, 0, 0, [], [], []);
      }
      var supervisors, cleaners := supervisorFile.value, cleanerFile.value;
      var loginGroups := ReportDuplicates(Logins(f, supervisors), LineNumbers(supervisors));
      var locationGroups := ReportDuplicates(Places(f, supervisors), LineNumbers(supervisors));
      var cleanerGroups := ReportDuplicates(Logins(f, cleaners), LineNumbers(cleaners));
      var sa, su, si, sl, sc, byLocation := SeedSupervisors(f, supervisors, dryRun);
      ghost var sp := Supervisors(f, ReadAll(f, supervisors));
      var ca, cu, ci, cl, cn := SeedCleaners(f, cleaners, byLocation, sp, dryRun);
      summary := Summary(false, |supervisors|, |cleaners|, |loginGroups|, |locationGroups|, |cleanerGroups|,
                         sa, su, |si|, sl, sc, ca, cu, |ci|, cl, |cn|, si, ci, cn);
    }
  }
}
