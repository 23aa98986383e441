/** Two publishers can swap two messages of one case: a concrete run in which
    SKIP LOCKED lets the second publisher pass the first. */
module Overtaking {
  import opened Wrappers
  import opened Workflow
  import opened Tables
  import opened Protocol
  import opened Delivery

  const ID: CaseId := 7
  const A1 := Create(1, "t", "", "")
  const A2 := Transition(ID, StartAnalysis, OPEN, 0, "", "")
  const M1 := Payload(ID, OtherState(""), NEW, OtherEvent("case_created"), None, None)
  const M2 := Payload(ID, NEW, ANALYZING, StartAnalysis, Some(""), Some(0))
  const ROW1 := CaseRow(1, "t", NEW, 1)
  const ROW2 := CaseRow(1, "t", ANALYZING, 2)
  const TL1 := TimelineRow(ID, None, OtherEvent("case_created"), Title("t"))
  const ENTRY2 := TimelineEntry(0, "", StartAnalysis, "", "")
  const TL2 := TimelineRow(ID, None, StartAnalysis, Entry(ENTRY2))
  const E1 := Effect(ID, ROW1, TL1, M1, IdemRow("", Response(ID, ROW1)))
  const E2 := Effect(ID, ROW2, TL2, M2, IdemRow("", Response(ID, ROW2)))
  const OUT1 := OutboxRow(1, ID, M1)
  const OUT2 := OutboxRow(2, ID, M2)
  const INTENT := Intent(NEW, ANALYZING, StartAnalysis, ENTRY2, [M2])
  const DB1 := Db(map[ID := ROW1], [TL1], [OUT1], map[])
  const DB2 := Db(map[ID := ROW2], [TL1, TL2], [OUT1, OUT2], map[])
  const C1 := Commit(1, A1, E1, 1)
  const C2 := Commit(2, A2, E2, 2)
  const DONE1 := Call(A1, Finished(Committed(Response(ID, ROW1))))
  const DONE2 := Call(A2, Finished(Committed(Response(ID, ROW2))))
  const HELD := Flush(FPublish, [OUT1], 0, true, false)
  const IDLE := Flush(FBegin, [], 0, true, false)

  /** The case is created. */
  function Creating(pc: Pc, next: nat): World {
    START.(calls := map[1 := Call(A1, pc)],
        rowLock := if pc.AtOpen? || pc.AtBegin? then map[] else map[ID := 1], nextId := next)
  }

  const CREATED := START.(calls := map[1 := DONE1], nextId := 2, db := DB1, commits := [C1])

  /** Publisher 1 has listed the first message and not yet published it. */
  const LISTED := CREATED.(flushes := map[1 := HELD], outLock := map[1 := 1])

  function Moving(pc: Pc, next: nat): World {
    LISTED.(calls := map[1 := DONE1, 2 := Call(A2, pc)],
            rowLock := if pc.AtOpen? || pc.AtBegin? then map[] else map[ID := 2], nextId := next)
  }

  const MOVED := LISTED.(calls := map[1 := DONE1, 2 := DONE2], nextId := 3, db := DB2, commits := [C1, C2])

  /** Publisher 2 has published the second message. */
  const SWAPPED := MOVED.(flushes := map[1 := HELD, 2 := Flush(FMark, [OUT2], 1, true, false)],
                          outLock := map[1 := 1, 2 := 2], sent := [Sent(2, OUT2)])

  const P1 := Pending([TL1], [], map[], false)
  const P2 := Pending([TL2], [], map[], false)

  lemma OnlyCall(pc: Pc, n: nat, pc': Pc, n': nat)
    ensures Creating(pc, n).calls[1 := Call(A1, pc')] == Creating(pc', n').calls
    ensures Moving(pc, n).calls[2 := Call(A2, pc')] == Moving(pc', n').calls
  {
  }

  lemma CreateBegins()
    ensures Step(START, Arrive(1, A1)) == Some(Creating(AtBegin, 1))
    ensures Step(Creating(AtBegin, 1), Run(1, Good, ID)) == Some(Creating(AtOpen, 1))
    ensures Step(Creating(AtOpen, 1), Run(1, Good, ID)) == Some(Creating(AtTimeline(E1, [M1], NOTHING), 1))
  {
    OnlyCall(AtBegin, 1, AtOpen, 1);
    OnlyCall(AtOpen, 1, AtTimeline(E1, [M1], NOTHING), 1);
    assert CreateEffect(A1, ID) == E1;
  }

  lemma CreateWrites()
    ensures Step(Creating(AtTimeline(E1, [M1], NOTHING), 1), Run(1, Good, ID))
             == Some(Creating(AtOutbox(E1, [M1], P1), 1))
    ensures Step(Creating(AtOutbox(E1, [M1], P1), 1), Run(1, Good, ID))
             == Some(Creating(AtCommit(E1, P1.(outbox := [OUT1])), 2))
  {
    OnlyCall(AtTimeline(E1, [M1], NOTHING), 1, AtOutbox(E1, [M1], P1), 1);
    OnlyCall(AtOutbox(E1, [M1], P1), 1, AtCommit(E1, P1.(outbox := [OUT1])), 2);
    assert NOTHING.timeline + [TL1] == [TL1] && [M1][1..] == [] && P1.outbox + [OUT1] == [OUT1];
  }

  lemma CreateCommits()
    ensures Step(Creating(AtCommit(E1, P1.(outbox := [OUT1])), 2), Run(1, Good, ID)) == Some(CREATED)
  {
    var p := P1.(outbox := [OUT1]);
    var w := Creating(AtCommit(E1, p), 2);
    assert Write(EMPTY_DB, E1, p) == DB1 by {
      assert [OUT1][1..] == [] && Insert([], OUT1) == [OUT1] && InsertAll([OUT1], []) == [OUT1];
      assert EMPTY_DB.cases[ID := ROW1] == DB1.cases;
      assert EMPTY_DB.timeline + [TL1] == [TL1];
      assert EMPTY_DB.idem + map[] == map[];
    }
    assert ReleaseRows(w.rowLock, 1) == map[] && ReleaseKeys(w.keyLock, 1) == map[];
    assert w.calls[1 := DONE1] == CREATED.calls;
    assert w.commits + [C1] == [C1];
  }

  lemma FirstLists()
    ensures Exec(CREATED, [Tick(1), RunFlush(1, Good), RunFlush(1, Good)]) == Some(LISTED)
  {
    var w1 := CREATED.(flushes := map[1 := IDLE]);
    var w2 := CREATED.(flushes := map[1 := IDLE.(pc := FList)]);
    assert CREATED.flushes[1 := IDLE] == w1.flushes && w1.flushes[1 := IDLE.(pc := FList)] == w2.flushes;
    assert w2.flushes[1 := HELD] == LISTED.flushes;
    assert [OUT1][1..] == [] && Unpublished([OUT1], {}, map[], 10) == [OUT1] + Unpublished([], {}, map[], 9) == [OUT1];
    assert Ids([OUT1]) == {1} by { assert OUT1 in [OUT1]; }
    assert LockAll(map[], [OUT1], 1) == map[1 := 1];
    assert Step(CREATED, Tick(1)) == Some(w1);
    assert Step(w1, RunFlush(1, Good)) == Some(w2);
    assert Step(w2, RunFlush(1, Good)) == Some(LISTED);
    Three(CREATED, w1, w2, LISTED, Tick(1), RunFlush(1, Good), RunFlush(1, Good));
  }

  lemma Three(w: World, w1: World, w2: World, w3: World, a: Action, b: Action, c: Action)
    requires Step(w, a) == Some(w1) && Step(w1, b) == Some(w2) && Step(w2, c) == Some(w3)
    ensures Exec(w, [a, b, c]) == Some(w3)
  {
    assert [a, b, c] == [a] + ([b] + [c]);
    ExecOne(w2, c);
    ExecCons(w1, b, w2, [c]);
    ExecCons(w, a, w1, [b] + [c]);
  }

  lemma MoveBegins()
    ensures Step(LISTED, Arrive(2, A2)) == Some(Moving(AtBegin, 2))
    ensures Step(Moving(AtBegin, 2), Run(2, Good, 0)) == Some(Moving(AtOpen, 2))
    ensures Step(Moving(AtOpen, 2), Run(2, Good, 0)) == Some(Moving(AtDecide(ROW1), 2))
  {
    assert LISTED.calls[2 := Call(A2, AtBegin)] == Moving(AtBegin, 2).calls;
    OnlyCall(AtBegin, 2, AtOpen, 2);
    OnlyCall(AtOpen, 2, AtDecide(ROW1), 2);
  }

  lemma MoveDecides()
    ensures Step(Moving(AtDecide(ROW1), 2), Run(2, Good, 0)) == Some(Moving(AtUpdate(ROW1, INTENT), 2))
    ensures Step(Moving(AtUpdate(ROW1, INTENT), 2), Run(2, Good, 0)) == Some(Moving(AtTimeline(E2, [M2], NOTHING), 2))
  {
    OnlyCall(AtDecide(ROW1), 2, AtUpdate(ROW1, INTENT), 2);
    OnlyCall(AtUpdate(ROW1, INTENT), 2, AtTimeline(E2, [M2], NOTHING), 2);
    assert DecidePc(A2, ROW1) == AtUpdate(ROW1, INTENT);
    assert TransitionEffect(A2, ROW1, INTENT) == E2;
  }

  lemma MoveWrites()
    ensures Step(Moving(AtTimeline(E2, [M2], NOTHING), 2), Run(2, Good, 0)) == Some(Moving(AtOutbox(E2, [M2], P2), 2))
    ensures Step(Moving(AtOutbox(E2, [M2], P2), 2), Run(2, Good, 0))
             == Some(Moving(AtCommit(E2, P2.(outbox := [OUT2])), 3))
  {
    OnlyCall(AtTimeline(E2, [M2], NOTHING), 2, AtOutbox(E2, [M2], P2), 2);
    OnlyCall(AtOutbox(E2, [M2], P2), 2, AtCommit(E2, P2.(outbox := [OUT2])), 3);
    assert NOTHING.timeline + [TL2] == [TL2] && [M2][1..] == [] && P2.outbox + [OUT2] == [OUT2];
  }

  lemma MoveCommits()
    ensures Step(Moving(AtCommit(E2, P2.(outbox := [OUT2])), 3), Run(2, Good, 0)) == Some(MOVED)
  {
    var p := P2.(outbox := [OUT2]);
    var w := Moving(AtCommit(E2, p), 3);
    assert Write(DB1, E2, p) == DB2 by {
      assert [OUT2][1..] == [] && Insert([OUT1], OUT2) == [OUT1, OUT2] && InsertAll([OUT1, OUT2], []) == [OUT1, OUT2];
      assert DB1.cases[ID := ROW2] == DB2.cases;
      assert DB1.timeline + [TL2] == [TL1, TL2];
      assert DB1.idem + map[] == map[];
    }
    assert ReleaseRows(w.rowLock, 2) == map[] && ReleaseKeys(w.keyLock, 2) == map[];
    assert w.calls[2 := DONE2] == MOVED.calls;
    assert w.commits + [C2] == [C1, C2];
  }

  /** Publisher 2 has listed the second message: the first is locked, so it is skipped. */
  const PASSING := MOVED.(flushes := map[1 := HELD, 2 := Flush(FPublish, [OUT2], 0, true, false)],
                          outLock := map[1 := 1, 2 := 2])

  lemma SecondSees()
    ensures Unpublished([OUT1, OUT2], {}, map[1 := 1], BATCH) == [OUT2]
    ensures LockAll(map[1 := 1], [OUT2], 2) == map[1 := 1, 2 := 2]
  {
    assert [OUT1, OUT2][1..] == [OUT2] && [OUT2][1..] == [];
    assert Unpublished([OUT2], {}, map[1 := 1], 10) == [OUT2] + Unpublished([], {}, map[1 := 1], 9);
    assert Ids([OUT2]) == {2} by { assert OUT2 in [OUT2]; }
  }

  lemma SecondLists()
    ensures Exec(MOVED, [Tick(2), RunFlush(2, Good), RunFlush(2, Good)]) == Some(PASSING)
  {
    var w1 := MOVED.(flushes := map[1 := HELD, 2 := IDLE]);
    var w2 := MOVED.(flushes := map[1 := HELD, 2 := IDLE.(pc := FList)]);
    assert MOVED.flushes[2 := IDLE] == w1.flushes && w1.flushes[2 := IDLE.(pc := FList)] == w2.flushes;
    assert w2.flushes[2 := Flush(FPublish, [OUT2], 0, true, false)] == PASSING.flushes;
    SecondSees();
    assert Step(MOVED, Tick(2)) == Some(w1);
    assert Step(w1, RunFlush(2, Good)) == Some(w2);
    assert Step(w2, RunFlush(2, Good)) == Some(PASSING);
    Three(MOVED, w1, w2, PASSING, Tick(2), RunFlush(2, Good), RunFlush(2, Good));
  }

  lemma SecondPublishes()
    ensures Step(PASSING, RunFlush(2, Good)) == Some(SWAPPED)
  {
    assert PASSING.flushes[2 := Flush(FMark, [OUT2], 1, true, false)] == SWAPPED.flushes;
    assert PASSING.sent + [Sent(2, OUT2)] == SWAPPED.sent;
  }

  lemma Then(acts: seq<Action>, w: World, a: Action, w': World)
    requires Exec(START, acts) == Some(w) && Step(w, a) == Some(w')
    ensures Exec(START, acts + [a]) == Some(w')
  {
    ExecOne(w, a);
    ExecConcat(START, acts, [a]);
  }

  lemma CreateRun() returns (acts: seq<Action>)
    ensures Exec(START, acts) == Some(CREATED)
  {
    var run := Run(1, Good, ID);
    CreateBegins();
    CreateWrites();
    CreateCommits();
    Three(START, Creating(AtBegin, 1), Creating(AtOpen, 1), Creating(AtTimeline(E1, [M1], NOTHING), 1),
        Arrive(1, A1), run, run);
    acts := [Arrive(1, A1), run, run];
    Then(acts, Creating(AtTimeline(E1, [M1], NOTHING), 1), run, Creating(AtOutbox(E1, [M1], P1), 1));
    acts := acts + [run];
    Then(acts, Creating(AtOutbox(E1, [M1], P1), 1), run, Creating(AtCommit(E1, P1.(outbox := [OUT1])), 2));
    acts := acts + [run];
    Then(acts, Creating(AtCommit(E1, P1.(outbox := [OUT1])), 2), run, CREATED);
    acts := acts + [run];
  }

  lemma MoveRun(before: seq<Action>) returns (acts: seq<Action>)
    requires Exec(START, before) == Some(LISTED)
    ensures Exec(START, acts) == Some(MOVED)
  {
    var run := Run(2, Good, 0);
    MoveBegins();
    MoveDecides();
    MoveWrites();
    MoveCommits();
    Three(LISTED, Moving(AtBegin, 2), Moving(AtOpen, 2), Moving(AtDecide(ROW1), 2), Arrive(2, A2), run, run);
    ExecConcat(START, before, [Arrive(2, A2), run, run]);
    acts := before + [Arrive(2, A2), run, run];
    Then(acts, Moving(AtDecide(ROW1), 2), run, Moving(AtUpdate(ROW1, INTENT), 2));
    acts := acts + [run];
    Then(acts, Moving(AtUpdate(ROW1, INTENT), 2), run, Moving(AtTimeline(E2, [M2], NOTHING), 2));
    acts := acts + [run];
    Then(acts, Moving(AtTimeline(E2, [M2], NOTHING), 2), run, Moving(AtOutbox(E2, [M2], P2), 2));
    acts := acts + [run];
    Then(acts, Moving(AtOutbox(E2, [M2], P2), 2), run, Moving(AtCommit(E2, P2.(outbox := [OUT2])), 3));
    acts := acts + [run];
    Then(acts, Moving(AtCommit(E2, P2.(outbox := [OUT2])), 3), run, MOVED);
    acts := acts + [run];
  }

  lemma OutOfOrder()
    ensures Delivered(SWAPPED.sent, ID) == [Item(2, M2)]
    ensures Items(SWAPPED.db.outbox, ID) == [Item(1, M1), Item(2, M2)]
  {
    assert SWAPPED.sent[..0] == [] && Delivered([], ID) == [];
    assert [OUT1, OUT2][..1] == [OUT1] && [OUT1][..0] == [];
    assert Items([OUT1], ID) == Items([], ID) + [Item(1, M1)] == [Item(1, M1)];
    assert Items([OUT1, OUT2], ID) == Items([OUT1], ID) + [Item(2, M2)];
  }

  /** Order across publishers is not kept: in this run the second message of a case
      has gone to nc.Publish and the first has not. */
  lemma TwoPublishersSwap() returns (ws: seq<World>, acts: seq<Action>)
    ensures IsRun(ws, acts)
    ensures var w := ws[|acts|];
            Delivered(w.sent, ID) == [Item(2, M2)] && Items(w.db.outbox, ID) == [Item(1, M1), Item(2, M2)]
  {
    var first, second := [Tick(1), RunFlush(1, Good), RunFlush(1, Good)],
        [Tick(2), RunFlush(2, Good), RunFlush(2, Good)];
    acts := CreateRun();
    FirstLists();
    ExecConcat(START, acts, first);
    acts := MoveRun(acts + first);
    SecondLists();
    ExecConcat(START, acts, second);
    SecondPublishes();
    Then(acts + second, PASSING, RunFlush(2, Good), SWAPPED);
    acts := acts + second + [RunFlush(2, Good)];
    OutOfOrder();
    ws := ExecIsRun(acts);
  }
}
