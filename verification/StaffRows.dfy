/** Which rows of the two staff files the import takes, and why it skips each other one, by row position
    (apps/api/scripts/bootstrap.ts). */
module StaffRows {
  import opened Wrappers
  import opened StaffSeed
  import opened Strings
  import opened UpsertTable

  /** The positions, ascending, that make up the set. */
  ghost predicate Enumerates(at: seq<nat>, rows: set<nat>) {
    && (forall i, j :: 0 <= i < j < |at| ==> at[i] < at[j])
    && (forall k :: k in at <==> k in rows)
  }

  lemma EnumeratesNext(at: seq<nat>, rows: set<nat>, n: nat)
    requires Enumerates(at, rows) && forall k :: k in rows ==> k < n
    ensures Enumerates(at + [n], rows + {n})
  {
    forall i, j | 0 <= i < j < |at + [n]|
      ensures (at + [n])[i] < (at + [n])[j]
    {
      assert i < |at| && at[i] in at;
    }
    forall k
      ensures k in at + [n] <==> k in rows + {n}
    {}
  }

  lemma {:induction false} EnumeratesAll(at: seq<nat>, rows: set<nat>)
    requires Enumerates(at, rows)
    ensures |at| == |rows|
  {
    if at == [] {
      assert rows == {};
    } else {
      var front, last := at[..|at| - 1], at[|at| - 1];
      assert last in at;
      forall k
        ensures k in front <==> k in rows - {last}
      {
        if k in rows - {last} {
          var i :| 0 <= i < |at| && at[i] == k;
          assert front[i] == k;
        }
      }
      EnumeratesAll(front, rows - {last});
    }
  }

  lemma OneMore(rows: set<nat>, next: set<nat>, k: nat, adds: bool)
    requires k !in rows && forall x :: x in next <==> x in rows || (adds && x == k)
    ensures |next| == |rows| + if adds then 1 else 0
  {
    assert next == rows + if adds then {k} else {};
  }

  // ---- Supervisors: the first of each login and of each location ------------------------------

  /** The row is complete, and no earlier taken row has its login or its location. */
  predicate TakenSupervisor(f: Format, es: seq<Entry>, k: nat)
    requires k < |es|
    decreases k
  {
    && es[k].name != "" && es[k].login != "" && es[k].location != ""
    && forall j :: 0 <= j < k && TakenSupervisor(f, es, j) ==>
         es[j].login != es[k].login && NormalizeLocation(f, es[j].location) != NormalizeLocation(f, es[k].location)
  }

  predicate Incomplete(e: Entry) {
    e.name == "" || e.login == "" || e.location == ""
  }

  predicate SomeTakenLogin(f: Format, es: seq<Entry>, n: nat, l: string)
    requires n <= |es|
  {
    exists j :: 0 <= j < n && TakenSupervisor(f, es, j) && es[j].login == l
  }

  predicate SomeTakenPlace(f: Format, es: seq<Entry>, n: nat, l: string)
    requires n <= |es|
  {
    exists j :: 0 <= j < n && TakenSupervisor(f, es, j) && NormalizeLocation(f, es[j].location) == l
  }

  predicate LoginWasTaken(f: Format, es: seq<Entry>, k: nat)
    requires k < |es|
  {
    SomeTakenLogin(f, es, k, es[k].login)
  }

  predicate PlaceWasTaken(f: Format, es: seq<Entry>, k: nat)
    requires k < |es|
  {
    SomeTakenPlace(f, es, k, NormalizeLocation(f, es[k].location))
  }

  predicate RepeatsLogin(f: Format, es: seq<Entry>, k: nat)
    requires k < |es|
  {
    !Incomplete(es[k]) && LoginWasTaken(f, es, k)
  }

  predicate RepeatsPlace(f: Format, es: seq<Entry>, k: nat)
    requires k < |es|
  {
    !Incomplete(es[k]) && !LoginWasTaken(f, es, k) && PlaceWasTaken(f, es, k)
  }

  function TakenSupervisors(f: Format, es: seq<Entry>, n: nat): set<nat>
    requires n <= |es|
  {
    set k | 0 <= k < n && TakenSupervisor(f, es, k)
  }

  function IncompleteRows(es: seq<Entry>, n: nat): set<nat>
    requires n <= |es|
  {
    set k | 0 <= k < n && Incomplete(es[k])
  }

  function RepeatedLogins(f: Format, es: seq<Entry>, n: nat): set<nat>
    requires n <= |es|
  {
    set k | 0 <= k < n && RepeatsLogin(f, es, k)
  }

  function RepeatedPlaces(f: Format, es: seq<Entry>, n: nat): set<nat>
    requires n <= |es|
  {
    set k | 0 <= k < n && RepeatsPlace(f, es, k)
  }

  lemma SupervisorTurn(f: Format, es: seq<Entry>, n: nat)
    requires n < |es|
    ensures Supervisors(f, es[..n + 1]) == SupervisorStep(f, Supervisors(f, es[..n]), es[n])
  {
    assert es[..n + 1][..n] == es[..n];
  }

  lemma SomeTakenNext(f: Format, es: seq<Entry>, k: nat, l: string)
    requires k < |es|
    ensures SomeTakenLogin(f, es, k + 1, l)
            <==> SomeTakenLogin(f, es, k, l) || (TakenSupervisor(f, es, k) && es[k].login == l)
    ensures SomeTakenPlace(f, es, k + 1, l)
            <==> SomeTakenPlace(f, es, k, l)
                 || (TakenSupervisor(f, es, k) && NormalizeLocation(f, es[k].location) == l)
  {}

  /** After n rows the pass knows exactly the logins of the rows taken so far. */
  lemma {:induction false} LoginsAreTaken(f: Format, es: seq<Entry>, n: nat, l: string)
    requires n <= |es|
    ensures l in LoginsOf(Supervisors(f, es[..n]).taken)
            <==> SomeTakenLogin(f, es, n, l)
    decreases n, 0
  {
    if n == 0 {
    } else {
      LoginsAreTaken(f, es, n - 1, l);
      TurnTakes(f, es, n - 1);
      SomeTakenNext(f, es, n - 1, l);
      LoginsSnoc(Supervisors(f, es[..n - 1]).taken, es[n - 1]);
    }
  }

  /** And exactly their locations, each with its row. */
  lemma {:induction false} PlacesAreTaken(f: Format, es: seq<Entry>, n: nat, l: string)
    requires n <= |es|
    ensures l in Supervisors(f, es[..n]).byLocation
            <==> SomeTakenPlace(f, es, n, l)
    decreases n, 0
  {
    if n == 0 {
    } else {
      PlacesAreTaken(f, es, n - 1, l);
      TurnTakes(f, es, n - 1);
      SomeTakenNext(f, es, n - 1, l);
    }
  }

  /** So it takes the next row, or skips it for the reason given. */
  lemma TurnTakes(f: Format, es: seq<Entry>, k: nat)
    requires k < |es|
    ensures var p, next := Supervisors(f, es[..k]), Supervisors(f, es[..k + 1]);
            next == if Incomplete(es[k]) then p.(invalid := p.invalid + [es[k].lineNo])
                    else if LoginWasTaken(f, es, k) then p.(repeatedLogin := p.repeatedLogin + 1)
                    else if PlaceWasTaken(f, es, k) then p.(repeatedLocation := p.repeatedLocation + 1)
                    else p.(taken := p.taken + [es[k]],
                            byLocation := p.byLocation[NormalizeLocation(f, es[k].location) := es[k]])
    ensures TakenSupervisor(f, es, k)
            <==> !Incomplete(es[k]) && !LoginWasTaken(f, es, k) && !PlaceWasTaken(f, es, k)
    decreases k, 1
  {
    SupervisorTurn(f, es, k);
    LoginsAreTaken(f, es, k, es[k].login);
    PlacesAreTaken(f, es, k, NormalizeLocation(f, es[k].location));
  }

  lemma {:induction false} SupervisorsTaken(f: Format, es: seq<Entry>, n: nat) returns (at: seq<nat>)
    requires n <= |es|
    ensures var taken := Supervisors(f, es[..n]).taken;
            && Enumerates(at, TakenSupervisors(f, es, n)) && |taken| == |at|
            && (forall i :: 0 <= i < |at| ==> at[i] < n && taken[i] == es[at[i]])
  {
    if n == 0 {
      at := [];
    } else {
      var k := n - 1;
      at := SupervisorsTaken(f, es, k);
      TurnTakes(f, es, k);
      assert TakenSupervisors(f, es, n)
          == TakenSupervisors(f, es, k) + if TakenSupervisor(f, es, k) then {k} else {};
      if TakenSupervisor(f, es, k) {
        EnumeratesNext(at, TakenSupervisors(f, es, k), k);
        at := at + [k];
      }
    }
  }

  lemma {:induction false} SupervisorsIncomplete(f: Format, es: seq<Entry>, n: nat) returns (at: seq<nat>)
    requires n <= |es|
    ensures var invalid := Supervisors(f, es[..n]).invalid;
            && Enumerates(at, IncompleteRows(es, n)) && |invalid| == |at|
            && (forall i :: 0 <= i < |at| ==> at[i] < n && invalid[i] == es[at[i]].lineNo)
  {
    if n == 0 {
      at := [];
    } else {
      var k := n - 1;
      at := SupervisorsIncomplete(f, es, k);
      SupervisorTurn(f, es, k);
      IncompleteNext(es, k);
      if Incomplete(es[k]) {
        EnumeratesNext(at, IncompleteRows(es, k), k);
        at := at + [k];
      }
    }
  }

  lemma IncompleteNext(es: seq<Entry>, k: nat)
    requires k < |es|
    ensures IncompleteRows(es, k + 1) == IncompleteRows(es, k) + if Incomplete(es[k]) then {k} else {}
  {}

  lemma TurnCounts(f: Format, es: seq<Entry>, k: nat)
    requires k < |es|
    ensures var p, next := Supervisors(f, es[..k]), Supervisors(f, es[..k + 1]);
            && next.repeatedLogin == p.repeatedLogin + (if RepeatsLogin(f, es, k) then 1 else 0)
            && next.repeatedLocation == p.repeatedLocation + if RepeatsPlace(f, es, k) then 1 else 0
  {
    TurnTakes(f, es, k);
  }

  lemma RepeatedLoginsNext(f: Format, es: seq<Entry>, k: nat)
    requires k < |es|
    ensures |RepeatedLogins(f, es, k + 1)| == |RepeatedLogins(f, es, k)| + if RepeatsLogin(f, es, k) then 1 else 0
  {
    OneMore(RepeatedLogins(f, es, k), RepeatedLogins(f, es, k + 1), k, RepeatsLogin(f, es, k));
  }

  lemma RepeatedPlacesNext(f: Format, es: seq<Entry>, k: nat)
    requires k < |es|
    ensures |RepeatedPlaces(f, es, k + 1)| == |RepeatedPlaces(f, es, k)| + if RepeatsPlace(f, es, k) then 1 else 0
  {
    OneMore(RepeatedPlaces(f, es, k), RepeatedPlaces(f, es, k + 1), k, RepeatsPlace(f, es, k));
  }

  lemma {:induction false} SupervisorsRepeated(f: Format, es: seq<Entry>, n: nat)
    requires n <= |es|
    ensures Supervisors(f, es[..n]).repeatedLogin == |RepeatedLogins(f, es, n)|
    ensures Supervisors(f, es[..n]).repeatedLocation == |RepeatedPlaces(f, es, n)|
  {
    if n == 0 {
    } else {
      SupervisorsRepeated(f, es, n - 1);
      TurnCounts(f, es, n - 1);
      RepeatedLoginsNext(f, es, n - 1);
      RepeatedPlacesNext(f, es, n - 1);
    }
  }

  // ---- Cleaners: the first of each login among the rows with a supervisor ------------------------

  /** The row is complete and its location has a supervisor. */
  predicate Matched(f: Format, byLocation: map<string, Entry>, e: Entry) {
    !Incomplete(e) && NormalizeLocation(f, e.location) in byLocation
  }

  predicate SomeMatched(f: Format, byLocation: map<string, Entry>, es: seq<Entry>, n: nat, l: string)
    requires n <= |es|
  {
    exists j :: 0 <= j < n && Matched(f, byLocation, es[j]) && es[j].login == l
  }

  predicate MatchedBefore(f: Format, byLocation: map<string, Entry>, es: seq<Entry>, k: nat)
    requires k < |es|
  {
    SomeMatched(f, byLocation, es, k, es[k].login)
  }

  function TakenCleaners(f: Format, byLocation: map<string, Entry>, es: seq<Entry>, n: nat): set<nat>
    requires n <= |es|
  {
    set k | 0 <= k < n && Matched(f, byLocation, es[k]) && !MatchedBefore(f, byLocation, es, k)
  }

  function RepeatedCleaners(f: Format, byLocation: map<string, Entry>, es: seq<Entry>, n: nat): set<nat>
    requires n <= |es|
  {
    set k | 0 <= k < n && !Incomplete(es[k]) && MatchedBefore(f, byLocation, es, k)
  }

  function UnmatchedCleaners(f: Format, byLocation: map<string, Entry>, es: seq<Entry>, n: nat): set<nat>
    requires n <= |es|
  {
    set k | 0 <= k < n && !Incomplete(es[k]) && !MatchedBefore(f, byLocation, es, k)
            && NormalizeLocation(f, es[k].location) !in byLocation
  }

  lemma CleanerTurn(f: Format, byLocation: map<string, Entry>, es: seq<Entry>, n: nat)
    requires n < |es|
    ensures Cleaners(f, byLocation, es[..n + 1]) == CleanerStep(f, byLocation, Cleaners(f, byLocation, es[..n]), es[n])
  {
    assert es[..n + 1][..n] == es[..n];
  }

  lemma SomeMatchedNext(f: Format, byLocation: map<string, Entry>, es: seq<Entry>, k: nat, l: string)
    requires k < |es|
    ensures SomeMatched(f, byLocation, es, k + 1, l)
            <==> SomeMatched(f, byLocation, es, k, l) || (Matched(f, byLocation, es[k]) && es[k].login == l)
  {}

  /** The logins taken so far are those of the matched rows so far. */
  lemma {:induction false} LoginsAreMatched(f: Format, byLocation: map<string, Entry>, es: seq<Entry>, n: nat,
                                            l: string)
    requires n <= |es|
    ensures l in CleanerLogins(Cleaners(f, byLocation, es[..n]).taken)
            <==> SomeMatched(f, byLocation, es, n, l)
  {
    if n == 0 {
    } else {
      var k := n - 1;
      var p := Cleaners(f, byLocation, es[..k]);
      LoginsAreMatched(f, byLocation, es, k, l);
      LoginsAreMatched(f, byLocation, es, k, es[k].login);
      CleanerTurn(f, byLocation, es, k);
      SomeMatchedNext(f, byLocation, es, k, l);
      if Matched(f, byLocation, es[k]) {
        CleanerLoginsSnoc(p.taken, Pairing(es[k], byLocation[Place(f, es[k])]));
      }
    }
  }

  /** So the pass takes the next row, or skips it for the reason given. */
  lemma CleanerTurnTakes(f: Format, byLocation: map<string, Entry>, es: seq<Entry>, k: nat)
    requires k < |es|
    ensures var p := Cleaners(f, byLocation, es[..k]);
            var place := NormalizeLocation(f, es[k].location);
            Cleaners(f, byLocation, es[..k + 1])
            == if Incomplete(es[k]) then p.(invalid := p.invalid + [es[k].lineNo])
               else if MatchedBefore(f, byLocation, es, k) then p.(repeatedLogin := p.repeatedLogin + 1)
               else if place !in byLocation then p.(unmatched := p.unmatched + [es[k]])
               else p.(taken := p.taken + [Pairing(es[k], byLocation[place])])
  {
    CleanerTurn(f, byLocation, es, k);
    LoginsAreMatched(f, byLocation, es, k, es[k].login);
  }

  lemma UnmatchedNext(f: Format, byLocation: map<string, Entry>, es: seq<Entry>, k: nat)
    requires k < |es|
    ensures UnmatchedCleaners(f, byLocation, es, k + 1)
            == UnmatchedCleaners(f, byLocation, es, k)
               + if !Incomplete(es[k]) && !MatchedBefore(f, byLocation, es, k)
                    && NormalizeLocation(f, es[k].location) !in byLocation then {k} else {}
  {}

  lemma {:induction false} CleanersTaken(f: Format, byLocation: map<string, Entry>, es: seq<Entry>, n: nat)
    returns (at: seq<nat>)
    requires n <= |es|
    ensures var taken := Cleaners(f, byLocation, es[..n]).taken;
            && Enumerates(at, TakenCleaners(f, byLocation, es, n)) && |taken| == |at|
            && (forall i :: 0 <= i < |at| ==>
                  && at[i] < n && NormalizeLocation(f, es[at[i]].location) in byLocation
                  && taken[i] == Pairing(es[at[i]], byLocation[NormalizeLocation(f, es[at[i]].location)]))
  {
    if n == 0 {
      at := [];
    } else {
      var k := n - 1;
      at := CleanersTaken(f, byLocation, es, k);
      CleanerTurnTakes(f, byLocation, es, k);
      var takes := Matched(f, byLocation, es[k]) && !MatchedBefore(f, byLocation, es, k);
      assert TakenCleaners(f, byLocation, es, n) == TakenCleaners(f, byLocation, es, k) + if takes then {k} else {};
      if takes {
        EnumeratesNext(at, TakenCleaners(f, byLocation, es, k), k);
        at := at + [k];
      }
    }
  }

  lemma {:induction false} CleanersUnmatched(f: Format, byLocation: map<string, Entry>, es: seq<Entry>, n: nat)
    returns (at: seq<nat>)
    requires n <= |es|
    ensures var unmatched := Cleaners(f, byLocation, es[..n]).unmatched;
            && Enumerates(at, UnmatchedCleaners(f, byLocation, es, n)) && |unmatched| == |at|
            && (forall i :: 0 <= i < |at| ==> at[i] < n && unmatched[i] == es[at[i]])
  {
    if n == 0 {
      at := [];
    } else {
      var k := n - 1;
      at := CleanersUnmatched(f, byLocation, es, k);
      CleanerTurnTakes(f, byLocation, es, k);
      UnmatchedNext(f, byLocation, es, k);
      if !Incomplete(es[k]) && !MatchedBefore(f, byLocation, es, k)
         && NormalizeLocation(f, es[k].location) !in byLocation {
        EnumeratesNext(at, UnmatchedCleaners(f, byLocation, es, k), k);
        at := at + [k];
      }
    }
  }

  lemma {:induction false} CleanersIncomplete(f: Format, byLocation: map<string, Entry>, es: seq<Entry>, n: nat)
    returns (at: seq<nat>)
    requires n <= |es|
    ensures var invalid := Cleaners(f, byLocation, es[..n]).invalid;
            && Enumerates(at, IncompleteRows(es, n)) && |invalid| == |at|
            && (forall i :: 0 <= i < |at| ==> at[i] < n && invalid[i] == es[at[i]].lineNo)
  {
    if n == 0 {
      at := [];
    } else {
      var k := n - 1;
      at := CleanersIncomplete(f, byLocation, es, k);
      CleanerTurn(f, byLocation, es, k);
      IncompleteNext(es, k);
      if Incomplete(es[k]) {
        EnumeratesNext(at, IncompleteRows(es, k), k);
        at := at + [k];
      }
    }
  }

  lemma RepeatedCleanersNext(f: Format, byLocation: map<string, Entry>, es: seq<Entry>, k: nat)
    requires k < |es|
    ensures |RepeatedCleaners(f, byLocation, es, k + 1)|
            == |RepeatedCleaners(f, byLocation, es, k)|
               + if !Incomplete(es[k]) && MatchedBefore(f, byLocation, es, k) then 1 else 0
  {
    OneMore(RepeatedCleaners(f, byLocation, es, k), RepeatedCleaners(f, byLocation, es, k + 1), k,
            !Incomplete(es[k]) && MatchedBefore(f, byLocation, es, k));
  }

  lemma {:induction false} CleanersRepeated(f: Format, byLocation: map<string, Entry>, es: seq<Entry>, n: nat)
    requires n <= |es|
    ensures Cleaners(f, byLocation, es[..n]).repeatedLogin == |RepeatedCleaners(f, byLocation, es, n)|
  {
    if n == 0 {
    } else {
      CleanersRepeated(f, byLocation, es, n - 1);
      CleanerTurnTakes(f, byLocation, es, n - 1);
      RepeatedCleanersNext(f, byLocation, es, n - 1);
    }
  }

  // ---- What is read and what stays -----------------------------------------------------------------

  /** A field is the first of its columns that is not blank, trimmed; empty when all of them are. */
  lemma {:induction false} FieldIsFirstPresent(f: Format, row: CsvRow, keys: seq<string>) returns (k: int)
    ensures -1 <= k < |keys|
    ensures forall j :: 0 <= j < (if k < 0 then |keys| else k) ==>
              keys[j] !in row.fields || Trim(row.fields[keys[j]]) == ""
    ensures k >= 0 ==> keys[k] in row.fields && Trim(row.fields[keys[k]]) != ""
    ensures RowGet(f, row, keys) == if k < 0 then "" else Trim(row.fields[keys[k]])
  {
    if keys == [] {
      k := -1;
    } else if keys[0] in row.fields && Trim(row.fields[keys[0]]) != "" {
      k := 0;
    } else {
      var rest := FieldIsFirstPresent(f, row, keys[1..]);
      k := if rest < 0 then -1 else rest + 1;
      assert forall j :: 0 <= j < |keys[1..]| ==> keys[1..][j] == keys[j + 1];
    }
  }

  /** Two rows have the same location when the texts agree up to white space at the ends and letter case. */
  lemma SamePlace(f: Format, a: Entry, b: Entry)
    ensures NormalizeLocation(f, a.location) == NormalizeLocation(f, b.location)
            <==> f.lower(Trim(a.location)) == f.lower(Trim(b.location))
  {}

  /** The column headings of the staff files. */
  function FileFormat(lower: string -> string): Format {
    Format(["Name", "name"], ["Staff ID", "staff_id", "staffId", "Login ID", "login_id", "loginId"],
           ["Location", "location"], lower)
  }

  lemma ColumnsRead(lower: string -> string, row: CsvRow)
    requires "Name" in row.fields && "Staff ID" in row.fields && "Location" in row.fields
    requires Trim(row.fields["Name"]) != "" && Trim(row.fields["Staff ID"]) != "" && Trim(row.fields["Location"]) != ""
    ensures Read(FileFormat(lower), row)
            == Entry(row.lineNo, Trim(row.fields["Name"]), Trim(row.fields["Staff ID"]), Trim(row.fields["Location"]))
  {}

  /** Accounts and roster rows of anybody the files do not select stay as they are, and rows are added for nobody
      else. */
  lemma OthersStay(f: Format, db: Db, supervisors: seq<CsvRow>, cleaners: seq<CsvRow>)
    ensures var sp := Supervisors(f, ReadAll(f, supervisors));
            var ps := Cleaners(f, sp.byLocation, ReadAll(f, cleaners)).taken;
            var after := Seeded(f, db, supervisors, cleaners);
            var middle := UpsertAll(db.accounts, SupervisorUps(sp.taken), NEW_ACCOUNT);
            && KeepsRows(db.accounts, after.accounts, SupervisorUps(sp.taken) + CleanerUps(ps), NEW_ACCOUNT)
            && KeepsRows(db.roster, after.roster, RosterUps(middle, ps), NEW_ROSTER_ROW)
  {
    var sp := Supervisors(f, ReadAll(f, supervisors));
    var ps := Cleaners(f, sp.byLocation, ReadAll(f, cleaners)).taken;
    var middle := UpsertAll(db.accounts, SupervisorUps(sp.taken), NEW_ACCOUNT);
    UpsertAllJoin(db.accounts, SupervisorUps(sp.taken), CleanerUps(ps), NEW_ACCOUNT);
    UpsertAllKeepsRows(db.accounts, SupervisorUps(sp.taken) + CleanerUps(ps), NEW_ACCOUNT);
    UpsertAllKeepsRows(db.roster, RosterUps(middle, ps), NEW_ROSTER_ROW);
  }

  lemma {:induction false} LinesCount(keys: seq<string>, lines: seq<nat>, key: string)
    requires |keys| == |lines|
    ensures |LinesOf(keys, lines, key)| > 0 <==> key in keys
    ensures |LinesOf(keys, lines, key)| > 1 <==> exists i, j :: 0 <= i < j < |keys| && keys[i] == key == keys[j]
  {
    if keys == [] {
    } else {
      var n := |keys|;
      var front := keys[..n - 1];
      LinesCount(front, lines[..n - 1], key);
      assert keys == front + [keys[n - 1]];
      if i, j :| 0 <= i < j < |front| && front[i] == key == front[j] {
        assert keys[i] == key == keys[j];
      }
      if key in front && keys[n - 1] == key {
        var i :| 0 <= i < |front| && front[i] == key;
        assert keys[i] == key == keys[n - 1];
      }
    }
  }

  /** The keys reported are the non-empty ones that two lines share. */
  lemma RepeatedMeansTwice(keys: seq<string>, lines: seq<nat>, key: string)
    requires |keys| == |lines|
    ensures key in RepeatedKeys(keys, lines)
            <==> key != "" && exists i, j :: 0 <= i < j < |keys| && keys[i] == key == keys[j]
  {
    LinesCount(keys, lines, key);
  }

  // ---- The summary -----------------------------------------------------------------------------

  /** Every figure of the summary, from the rows themselves. */
  lemma SummaryCounts(f: Format, supervisors: seq<CsvRow>, cleaners: seq<CsvRow>)
    ensures var r, ss, cs := SummaryOf(f, supervisors, cleaners), ReadAll(f, supervisors), ReadAll(f, cleaners);
            var places := Supervisors(f, ss).byLocation;
            && !r.skipped && r.supervisorRows == |ss| == |supervisors| && r.cleanerRows == |cs| == |cleaners|
            && r.supervisorsAccepted == r.supervisorsUpserted == |TakenSupervisors(f, ss, |ss|)|
            && r.supervisorsInvalid == |IncompleteRows(ss, |ss|)|
            && r.supervisorsRepeatedLogin == |RepeatedLogins(f, ss, |ss|)|
            && r.supervisorsRepeatedLocation == |RepeatedPlaces(f, ss, |ss|)|
            && r.cleanersAccepted == r.cleanersUpserted == |TakenCleaners(f, places, cs, |cs|)|
            && r.cleanersInvalid == |IncompleteRows(cs, |cs|)|
            && r.cleanersRepeatedLogin == |RepeatedCleaners(f, places, cs, |cs|)|
            && r.cleanersUnmatched == |UnmatchedCleaners(f, places, cs, |cs|)|
            && r.supervisorLoginGroups == |RepeatedKeys(Logins(f, supervisors), LineNumbers(supervisors))|
            && r.supervisorLocationGroups == |RepeatedKeys(Places(f, supervisors), LineNumbers(supervisors))|
            && r.cleanerLoginGroups == |RepeatedKeys(Logins(f, cleaners), LineNumbers(cleaners))|
            && r.invalidSupervisorLines == Supervisors(f, ss).invalid
            && r.invalidCleanerLines == Cleaners(f, places, cs).invalid
            && r.unmatchedCleaners == Cleaners(f, places, cs).unmatched
  {
    var ss, cs := ReadAll(f, supervisors), ReadAll(f, cleaners);
    var places := Supervisors(f, ss).byLocation;
    assert ss[..|ss|] == ss && cs[..|cs|] == cs;
    var a := SupervisorsTaken(f, ss, |ss|);
    EnumeratesAll(a, TakenSupervisors(f, ss, |ss|));
    var b := SupervisorsIncomplete(f, ss, |ss|);
    EnumeratesAll(b, IncompleteRows(ss, |ss|));
    SupervisorsRepeated(f, ss, |ss|);
    var c := CleanersTaken(f, places, cs, |cs|);
    EnumeratesAll(c, TakenCleaners(f, places, cs, |cs|));
    var d := CleanersIncomplete(f, places, cs, |cs|);
    EnumeratesAll(d, IncompleteRows(cs, |cs|));
    CleanersRepeated(f, places, cs, |cs|);
    var e := CleanersUnmatched(f, places, cs, |cs|);
    EnumeratesAll(e, UnmatchedCleaners(f, places, cs, |cs|));
  }
}
