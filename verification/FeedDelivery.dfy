/** Exactly which events reach a reader who polls a growing log: each is decided once, by the poll whose cursor
    passes it. */
module FeedDelivery {
  import opened Wrappers
  import opened ReportModel
  import opened Interleaving
  import opened EventSourcing
  import opened Sync

  predicate Passed(cursor: Option<int>, e: Event) {
    cursor.Some? && e.seqNo <= cursor.value
  }

  function QueryOf(w: World): Query {
    Query(w.sys.db.reports, w.reader.actor, w.reader.cursor, w.reader.reportId)
  }

  /** The query of the one poll that moves the cursor past the event, if a poll does. */
  function PassingQuery(w: World, dir: Directory, moves: seq<Move>, e: Event): Option<Query>
    decreases |moves|
  {
    if moves == [] then None
    else
      var next := MoveStep(w, dir, moves[0]);
      if Passed(next.reader.cursor, e) && !Passed(w.reader.cursor, e) then Some(QueryOf(w))
      else PassingQuery(next, dir, moves[1..], e)
  }

  // ---- One poll ---------------------------------------------------------------------

  lemma PageMembers(db: Db, rd: Reader, limit: Option<int>, e: Event)
    requires SoundLog(db)
    ensures var q := Query(db.reports, rd.actor, rd.cursor, rd.reportId);
            var page := Page(db.events, q, limit).events;
            && (page != [] ==> page[|page| - 1] in db.events && Wanted(q, page[|page| - 1]))
            && (e in page <==> e in db.events && Wanted(q, e) && page != [] && e.seqNo <= page[|page| - 1].seqNo)
  {
    var q := Query(db.reports, rd.actor, rd.cursor, rd.reportId);
    var page := Page(db.events, q, limit).events;
    if page == [] {
    } else {
      assert page == Filter(db.events, WantedBy(q))[..|page|];
      PrefixIsUpTo(db.events, WantedBy(q), |page|, e);
      PrefixIsUpTo(db.events, WantedBy(q), |page|, page[|page| - 1]);
    }
  }

  /** A poll delivers an event it passes exactly when the event was wanted then, and delivers nothing else. */
  lemma PollDelivers(db: Db, rd: Reader, limit: Option<int>, e: Event)
    requires SoundLog(db) && e !in rd.feed
    ensures var next := Polled(db, rd, limit);
            && (Passed(rd.cursor, e) ==> Passed(next.cursor, e) && e !in next.feed)
            && (!Passed(next.cursor, e) ==> e !in next.feed)
            && (!Passed(rd.cursor, e) && Passed(next.cursor, e) ==>
                  && e.seqNo < db.nextSeq
                  && (e in next.feed <==>
                        e in db.events && Wanted(Query(db.reports, rd.actor, rd.cursor, rd.reportId), e)))
  {
    PageMembers(db, rd, limit, e);
  }

  // ---- Whole runs ---------------------------------------------------------------------

  lemma MoveKeepsSound(w: World, dir: Directory, m: Move)
    requires Inv(w.sys, dir) && History(w.sys.db)
    ensures var next := MoveStep(w, dir, m);
            && Inv(next.sys, dir) && History(next.sys.db) && Grows(w.sys.db, next.sys.db)
            && w.sys.db.nextSeq <= next.sys.db.nextSeq
  {
    match m
    case Work(a) =>
      StepKeepsInv(w.sys, dir, a);
      StepGrows(w.sys, dir, a);
      StepNumbersGrow(w.sys, dir, a);
    case Poll(_) =>
  }

  lemma {:induction false} PlayKeepsSound(w: World, dir: Directory, moves: seq<Move>)
    requires Inv(w.sys, dir) && History(w.sys.db)
    ensures var end := Play(w, dir, moves); Inv(end.sys, dir) && History(end.sys.db)
    decreases |moves|
  {
    if moves == [] {
    } else {
      MoveKeepsSound(w, dir, moves[0]);
      PlayKeepsSound(MoveStep(w, dir, moves[0]), dir, moves[1..]);
    }
  }

  lemma StepNumbersGrow(s: System, dir: Directory, a: Action)
    ensures s.db.nextSeq <= Step(s, dir, a).db.nextSeq
  {}

  /** What a run adds to the log comes after every number the log had reached. */
  lemma {:induction false} OldNumbersAreOldEvents(w: World, dir: Directory, moves: seq<Move>, e: Event)
    requires Inv(w.sys, dir) && History(w.sys.db)
    requires e in Play(w, dir, moves).sys.db.events && e.seqNo < w.sys.db.nextSeq
    ensures e in w.sys.db.events
    decreases |moves|
  {
    if moves == [] {
    } else {
      var next := MoveStep(w, dir, moves[0]);
      MoveKeepsSound(w, dir, moves[0]);
      OldNumbersAreOldEvents(next, dir, moves[1..], e);
      var before, after := w.sys.db.events, next.sys.db.events;
      var i :| 0 <= i < |after| && after[i] == e;
      assert i < |before| ==> after[i] == after[..|before|][i];
    }
  }

  lemma {:induction false} FeedOnlyGrows(w: World, dir: Directory, moves: seq<Move>, e: Event)
    requires e in w.reader.feed
    ensures e in Play(w, dir, moves).reader.feed
    decreases |moves|
  {
    if moves == [] {
    } else {
      FeedOnlyGrows(MoveStep(w, dir, moves[0]), dir, moves[1..], e);
    }
  }

  /** What a cursor has passed without delivering, no later poll delivers. */
  lemma {:induction false} PassedUnseenIsLost(w: World, dir: Directory, moves: seq<Move>, e: Event)
    requires Inv(w.sys, dir) && History(w.sys.db)
    requires Passed(w.reader.cursor, e) && e !in w.reader.feed
    ensures var end := Play(w, dir, moves); Passed(end.reader.cursor, e) && e !in end.reader.feed
    decreases |moves|
  {
    if moves == [] {
    } else {
      var next := MoveStep(w, dir, moves[0]);
      MoveKeepsSound(w, dir, moves[0]);
      if moves[0].Poll? {
        PollDelivers(w.sys.db, w.reader, moves[0].limit, e);
      }
      PassedUnseenIsLost(next, dir, moves[1..], e);
    }
  }

  lemma {:induction false} DeliveredIffWantedWhenPassed(w: World, dir: Directory, moves: seq<Move>, e: Event)
    requires Inv(w.sys, dir) && History(w.sys.db)
    requires !Passed(w.reader.cursor, e) && e !in w.reader.feed
    ensures var end, q := Play(w, dir, moves), PassingQuery(w, dir, moves, e);
            e in end.sys.db.events && Passed(end.reader.cursor, e) ==>
              q.Some? && (e in end.reader.feed <==> Wanted(q.value, e))
    decreases |moves|
  {
    if moves == [] {
    } else {
      var next, rest := MoveStep(w, dir, moves[0]), moves[1..];
      MoveKeepsSound(w, dir, moves[0]);
      if moves[0].Poll? {
        PollDelivers(w.sys.db, w.reader, moves[0].limit, e);
      }
      if !Passed(next.reader.cursor, e) {
        DeliveredIffWantedWhenPassed(next, dir, rest, e);
      } else if e in Play(w, dir, moves).sys.db.events {
        OldNumbersAreOldEvents(w, dir, moves, e);
        if e in next.reader.feed {
          FeedOnlyGrows(next, dir, rest, e);
        } else {
          PassedUnseenIsLost(next, dir, rest, e);
        }
      }
    }
  }

  /** Over every run, for any reader: an event past the reader's start and at or below its cursor is in the feed if and
      only if it was wanted at the one poll whose cursor passed it. */
  lemma FeedIsWhatWasWantedWhenPassed(dir: Directory, moves: seq<Move>, actor: Actor, reportId: Option<ReportId>,
                                      start: Option<int>, e: Event)
    requires var end := Play(World(INITIAL, Reader(actor, reportId, start, [])), dir, moves);
             e in end.sys.db.events && Covered(start, end.reader.cursor, e)
    ensures var w := World(INITIAL, Reader(actor, reportId, start, []));
            var q := PassingQuery(w, dir, moves, e);
            q.Some? && (e in Play(w, dir, moves).reader.feed <==> Wanted(q.value, e))
  {
    DeliveredIffWantedWhenPassed(World(INITIAL, Reader(actor, reportId, start, [])), dir, moves, e);
  }

  // ---- A run that loses an event ---------------------------------------------------------

  lemma {:induction false} PlaySnoc(w: World, dir: Directory, moves: seq<Move>, m: Move)
    ensures Play(w, dir, moves + [m]) == MoveStep(Play(w, dir, moves), dir, m)
    decreases |moves|
  {
    if moves == [] {
      assert moves + [m] == [m];
    } else {
      PlaySnoc(MoveStep(w, dir, moves[0]), dir, moves[1..], m);
      assert (moves + [m])[1..] == moves[1..] + [m];
    }
  }

  /** Two reports are created, the second is assigned to a cleaner, who polls. */
  function FirstHalf(reporter: Actor, boss: Actor, cleaner: UserId, a: ReportId, b: ReportId, input: CreateInput)
    : seq<Move>
  {
    [Work(New(reporter, a, input, None))] + [Work(New(reporter, b, input, None))]
    + [Work(Read(0, boss, b, AssignCleaner(cleaner, None, None)))] + [Work(Write(0))]
    + [Poll(None)]
  }

  /** Then the first is assigned to the same cleaner, who polls again. */
  function LosingRun(reporter: Actor, boss: Actor, cleaner: UserId, a: ReportId, b: ReportId, input: CreateInput)
    : seq<Move>
  {
    FirstHalf(reporter, boss, cleaner, a, b, input)
    + [Work(Read(1, boss, a, AssignCleaner(cleaner, None, None)))] + [Work(Write(1))]
    + [Poll(None)]
  }

  lemma PlayThree(w: World, dir: Directory, moves: seq<Move>, m: Move, m': Move, m'': Move)
    ensures Play(w, dir, moves + [m] + [m'] + [m''])
            == MoveStep(MoveStep(MoveStep(Play(w, dir, moves), dir, m), dir, m'), dir, m'')
  {
    PlaySnoc(w, dir, moves, m);
    PlaySnoc(w, dir, moves + [m], m');
    PlaySnoc(w, dir, moves + [m] + [m'], m'');
  }

  lemma PlayFive(w: World, dir: Directory, m0: Move, m1: Move, m2: Move, m3: Move, m4: Move)
    ensures Play(w, dir, [m0] + [m1] + [m2] + [m3] + [m4])
            == MoveStep(MoveStep(MoveStep(MoveStep(MoveStep(w, dir, m0), dir, m1), dir, m2), dir, m3), dir, m4)
  {
    assert [m0] + [m1] == [] + [m0] + [m1];
    PlaySnoc(w, dir, [], m0);
    PlaySnoc(w, dir, [] + [m0], m1);
    PlayThree(w, dir, [m0] + [m1], m2, m3, m4);
  }

  /** What a creation adds to the rows and the log. */
  lemma NewAdds(s: System, dir: Directory, actor: Actor, id: ReportId, input: CreateInput)
    requires id !in s.db.reports
    ensures var t := Step(s, dir, New(actor, id, input, None));
            && t.open == s.open
            && t.db.reports == s.db.reports[id := NewReport(actor, id, input, None)]
            && |t.db.events| == |s.db.events| + 1
            && t.db.events[..|s.db.events|] == s.db.events
            && var e := t.db.events[|s.db.events|]; e.eventType == ReportCreated && e.reportId == id
  {}

  function AssignedRow(row: Report, boss: Actor, cleaner: UserId): Report {
    RowAfter(AssignCleaner(cleaner, None, None), boss, row)
  }

  /** What an assignment, read and then written at once, adds to the rows and the log. */
  lemma AssignAdds(s: System, dir: Directory, tx: TxId, boss: Actor, id: ReportId, cleaner: UserId)
    requires tx !in s.open && HasAccount(dir, cleaner)
    requires id in s.db.reports && s.db.reports[id].id == id && s.db.reports[id].status == Submitted
    ensures var t := Step(Step(s, dir, Read(tx, boss, id, AssignCleaner(cleaner, None, None))), dir, Write(tx));
            && t.open == s.open
            && t.db.reports == s.db.reports[id := AssignedRow(s.db.reports[id], boss, cleaner)]
            && |t.db.events| == |s.db.events| + 1
            && t.db.events[..|s.db.events|] == s.db.events
            && t.db.events[|s.db.events|].reportId == id
  {
    var m := AssignCleaner(cleaner, None, None);
    var begun := Step(s, dir, Read(tx, boss, id, m));
    assert begun == s.(open := s.open[tx := Pending(boss, s.db.reports[id], m)]);
    var t := Step(begun, dir, Write(tx));
    assert t == System(Applied(s.db, boss, s.db.reports[id], m).db, begun.open - {tx});
    assert begun.open - {tx} == s.open;
  }

  /** The tables after two creations and the assignment of the second report. */
  function SecondAssigned(dir: Directory, reporter: Actor, boss: Actor, cleaner: UserId, a: ReportId, b: ReportId,
                          input: CreateInput): System {
    var s1 := Step(INITIAL, dir, New(reporter, a, input, None));
    var s2 := Step(s1, dir, New(reporter, b, input, None));
    Step(Step(s2, dir, Read(0, boss, b, AssignCleaner(cleaner, None, None))), dir, Write(0))
  }

  lemma SecondAssignedIs(dir: Directory, reporter: Actor, boss: Actor, cleaner: UserId, a: ReportId, b: ReportId,
                         input: CreateInput)
    requires a != b && HasAccount(dir, cleaner)
    ensures var t := SecondAssigned(dir, reporter, boss, cleaner, a, b, input);
            && t.open == map[]
            && t.db.reports == map[a := NewReport(reporter, a, input, None),
                                   b := AssignedRow(NewReport(reporter, b, input, None), boss, cleaner)]
            && |t.db.events| == 3
            && t.db.events[0].eventType == ReportCreated && t.db.events[0].reportId == a
            && t.db.events[2].reportId == b
  {
    var s1 := Step(INITIAL, dir, New(reporter, a, input, None));
    NewAdds(INITIAL, dir, reporter, a, input);
    NewAdds(s1, dir, reporter, b, input);
    var s2 := Step(s1, dir, New(reporter, b, input, None));
    AssignAdds(s2, dir, 0, boss, b, cleaner);
    assert s2.db.events[0] == s2.db.events[..1][0];
    var t := SecondAssigned(dir, reporter, boss, cleaner, a, b, input);
    assert t.db.events[0] == t.db.events[..2][0];
  }

  /** Both stay reachable states with a log in order. */
  lemma SecondAssignedIsSound(dir: Directory, reporter: Actor, boss: Actor, cleaner: UserId, a: ReportId, b: ReportId,
                              input: CreateInput)
    ensures var t := SecondAssigned(dir, reporter, boss, cleaner, a, b, input); Inv(t, dir) && History(t.db)
  {
    var rd := Reader(boss, None, None, []);
    var m := AssignCleaner(cleaner, None, None);
    var w1 := MoveStep(World(INITIAL, rd), dir, Work(New(reporter, a, input, None)));
    var w2 := MoveStep(w1, dir, Work(New(reporter, b, input, None)));
    var w3 := MoveStep(w2, dir, Work(Read(0, boss, b, m)));
    InitialInv(dir);
    MoveKeepsSound(World(INITIAL, rd), dir, Work(New(reporter, a, input, None)));
    MoveKeepsSound(w1, dir, Work(New(reporter, b, input, None)));
    MoveKeepsSound(w2, dir, Work(Read(0, boss, b, m)));
    MoveKeepsSound(w3, dir, Work(Write(0)));
  }

  lemma FirstPollPasses(w: World, e: Event)
    requires SoundLog(w.sys.db) && |w.sys.db.events| == 3 && e == w.sys.db.events[0]
    requires w.reader.cursor.None? && w.reader.reportId.None? && w.reader.feed == []
    requires !Wanted(QueryOf(w), e) && Wanted(QueryOf(w), w.sys.db.events[2])
    ensures var next := Polled(w.sys.db, w.reader, None); Passed(next.cursor, e) && e !in next.feed
  {
    var page := Page(w.sys.db.events, QueryOf(w), None).events;
    PageThenRest(w.sys.db.events, QueryOf(w), None);
    assert w.sys.db.events[2] in Filter(w.sys.db.events, WantedBy(QueryOf(w)));
    PageMembers(w.sys.db, w.reader, None, e);
    var last := page[|page| - 1];
    var i :| 0 <= i < 3 && w.sys.db.events[i] == last;
    assert i > 0;
  }

  /** At the first poll the cleaner is shown the second report's assignment and not the first report's creation. */
  lemma FirstPollWants(dir: Directory, reporter: Actor, boss: Actor, cleaner: Actor, a: ReportId, b: ReportId,
                       input: CreateInput)
    requires a != b && reporter.userId != cleaner.userId && boss.userId != cleaner.userId
    requires !cleaner.roles.supervisor && !cleaner.roles.admin && HasAccount(dir, cleaner.userId)
    ensures var s := SecondAssigned(dir, reporter, boss, cleaner.userId, a, b, input);
            var q := Query(s.db.reports, cleaner, None, None);
            |s.db.events| == 3 && !Wanted(q, s.db.events[0]) && Wanted(q, s.db.events[2])
  {
    SecondAssignedIs(dir, reporter, boss, cleaner.userId, a, b, input);
  }

  lemma FirstHalfIs(w: World, dir: Directory, reporter: Actor, boss: Actor, cleaner: UserId, a: ReportId, b: ReportId,
                    input: CreateInput)
    requires w.sys == INITIAL
    ensures var s := SecondAssigned(dir, reporter, boss, cleaner, a, b, input);
            Play(w, dir, FirstHalf(reporter, boss, cleaner, a, b, input)) == World(s, Polled(s.db, w.reader, None))
  {
    PlayFive(w, dir, Work(New(reporter, a, input, None)), Work(New(reporter, b, input, None)),
             Work(Read(0, boss, b, AssignCleaner(cleaner, None, None))), Work(Write(0)), Poll(None));
  }

  /** The world after the first half: the log's first event is behind the cursor and not in the feed. */
  lemma FirstHalfPasses(dir: Directory, reporter: Actor, boss: Actor, cleaner: Actor, a: ReportId, b: ReportId,
                        input: CreateInput)
    requires a != b && reporter.userId != cleaner.userId && boss.userId != cleaner.userId
    requires !cleaner.roles.supervisor && !cleaner.roles.admin && HasAccount(dir, cleaner.userId)
    ensures var s := SecondAssigned(dir, reporter, boss, cleaner.userId, a, b, input);
            var w := Play(World(INITIAL, Reader(cleaner, None, None, [])), dir,
                          FirstHalf(reporter, boss, cleaner.userId, a, b, input));
            && |s.db.events| > 0
            && w == World(s, Polled(s.db, Reader(cleaner, None, None, []), None))
            && Passed(w.reader.cursor, s.db.events[0]) && s.db.events[0] !in w.reader.feed
  {
    var w0 := World(INITIAL, Reader(cleaner, None, None, []));
    var s := SecondAssigned(dir, reporter, boss, cleaner.userId, a, b, input);
    FirstHalfIs(w0, dir, reporter, boss, cleaner.userId, a, b, input);
    FirstPollWants(dir, reporter, boss, cleaner, a, b, input);
    SecondAssignedIsSound(dir, reporter, boss, cleaner.userId, a, b, input);
    FirstPollPasses(World(s, w0.reader), s.db.events[0]);
  }

  /** The cleaner sees the first report at the end, and its creation event, which the cursor passed while the report was
      not theirs, is in the feed neither then nor after any further moves. */
  lemma EarlyHistoryIsMissed(dir: Directory, reporter: Actor, boss: Actor, cleaner: Actor, a: ReportId, b: ReportId,
                             input: CreateInput, later: seq<Move>) returns (e: Event)
    requires a != b && reporter.userId != cleaner.userId && boss.userId != cleaner.userId
    requires !cleaner.roles.supervisor && !cleaner.roles.admin && HasAccount(dir, cleaner.userId)
    ensures var end := Play(World(INITIAL, Reader(cleaner, None, None, [])), dir,
                            LosingRun(reporter, boss, cleaner.userId, a, b, input));
            && e in end.sys.db.events && e.eventType == ReportCreated && e.reportId == a
            && a in end.sys.db.reports && CanSee(end.sys.db.reports[a], cleaner)
            && Passed(end.reader.cursor, e)
            && e !in end.reader.feed && e !in Play(end, dir, later).reader.feed
  {
    var half := FirstHalf(reporter, boss, cleaner.userId, a, b, input);
    var w := Play(World(INITIAL, Reader(cleaner, None, None, [])), dir, half);
    FirstHalfPasses(dir, reporter, boss, cleaner, a, b, input);
    SecondAssignedIs(dir, reporter, boss, cleaner.userId, a, b, input);
    SecondAssignedIsSound(dir, reporter, boss, cleaner.userId, a, b, input);
    e := w.sys.db.events[0];
    var read, write := Work(Read(1, boss, a, AssignCleaner(cleaner.userId, None, None))), Work(Write(1));
    PlayThree(World(INITIAL, Reader(cleaner, None, None, [])), dir, half, read, write, Poll(None));
    PlayThree(w, dir, [], read, write, Poll(None));
    AssignAdds(w.sys, dir, 1, boss, a, cleaner.userId);
    assert e == Step(Step(w.sys, dir, read.action), dir, write.action).db.events[..3][0];
    var end := Play(w, dir, [] + [read] + [write] + [Poll(None)]);
    PlayKeepsSound(w, dir, [] + [read] + [write] + [Poll(None)]);
    PassedUnseenIsLost(w, dir, [] + [read] + [write] + [Poll(None)], e);
    PassedUnseenIsLost(end, dir, later, e);
  }
}
