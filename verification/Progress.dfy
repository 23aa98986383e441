/** Deadlock freedom: nobody waits in a circle, flushes never wait, and from every
    reachable world every open call can be brought to its end. */
module Progress {
  import opened Wrappers
  import opened Tables
  import opened Protocol
  import opened Safety
  import opened Outbox

  /** The call whose lock the next statement of call i has to wait for. */
  function Blocker(w: World, i: CallId): Option<CallId>
    requires i in w.calls
  {
    var a := w.calls[i].args;
    match w.calls[i].pc
    case AtOpen =>
        if a.Transition? && a.caseId in w.db.cases && a.caseId in w.rowLock then Some(w.rowLock[a.caseId]) else None
    case AtIdem(_, p) => if !p.doomed && a.key !in w.db.idem && a.key in w.keyLock then Some(w.keyLock[a.key]) else None
    case _ => None
  }

  ghost predicate CanStep(w: World, i: CallId) {
    i in w.calls && Shaped(w.calls[i]) && exists newId :: StepCall(w, i, Good, newId).Some?
  }

  function UpTo(n: nat): (s: set<nat>)
    ensures |s| == n && forall k :: k in s ==> k < n
  {
    if n == 0 then {} else UpTo(n - 1) + {n - 1}
  }

  lemma Subset<T>(a: set<T>, b: set<T>)
    requires a <= b
    ensures |a| <= |b|
  {
    assert b == a + (b - a);
  }

  /** There is always an unused case id. */
  lemma UnusedId(used: set<nat>) returns (n: nat)
    ensures n !in used
  {
    if forall k :: k in UpTo(|used| + 1) ==> k in used {
      Subset(UpTo(|used| + 1), used);
      assert false;
    }
    n :| n in UpTo(|used| + 1) && n !in used;
  }

  /** An open call can take its next statement with success of the database, or it waits for a lock. */
  lemma UnblockedSteps(w: World, i: CallId)
    requires Local(w, i) && !w.calls[i].pc.Finished? && Blocker(w, i).None?
    ensures CanStep(w, i)
  {
    if w.calls[i].pc.AtOpen? && w.calls[i].args.Create? {
      var n := UnusedId(w.db.cases.Keys + w.rowLock.Keys);
      assert StepCall(w, i, Good, n).Some?;
    } else {
      assert StepCall(w, i, Good, 0).Some?;
    }
  }

  /** Whoever is waited for has a transaction past its own row lock; whoever is
      waited for because of a key has nothing left but to commit or roll back. */
  lemma BlockerHolds(w: World, i: CallId)
    requires Inv(w) && i in w.calls && Blocker(w, i).Some?
    ensures var j := Blocker(w, i).value;
            && Local(w, j) && j != i && InTransaction(w.calls[j].pc) && !w.calls[j].pc.AtOpen?
            && (w.calls[i].pc.AtIdem? ==> w.calls[j].pc.AtCommit? || w.calls[j].pc.AtRollback?)
  {
    var j := Blocker(w, i).value;
    assert j in w.calls;
    assert Local(w, i) && Local(w, j);
  }

  /** Waiting goes from case rows to idempotency keys and no further: a chain of waits
      has at most two links, and the call at its end can step. */
  lemma WaitsAreShort(w: World, i: CallId)
    requires Inv(w) && i in w.calls && Blocker(w, i).Some?
    ensures var j := Blocker(w, i).value;
            && j in w.calls && InTransaction(w.calls[j].pc)
            && (|| CanStep(w, j)
                || (&& w.calls[i].pc.AtOpen? && Blocker(w, j).Some?
                    && Blocker(w, j).value in w.calls && InTransaction(w.calls[Blocker(w, j).value].pc)
                    && CanStep(w, Blocker(w, j).value)))
  {
    var j := Blocker(w, i).value;
    BlockerHolds(w, i);
    if Blocker(w, j).Some? {
      BlockerHolds(w, j);
      UnblockedSteps(w, Blocker(w, j).value);
    } else {
      UnblockedSteps(w, j);
    }
  }

  /** As long as a call has no answer yet, some call can take its next statement; if the
      call has a transaction open, a call with an open transaction can. */
  lemma NoDeadlock(ws: seq<World>, acts: seq<Action>, k: nat, i: CallId)
    requires IsRun(ws, acts) && k < |ws| && i in ws[k].calls && !ws[k].calls[i].pc.Finished?
    ensures exists j :: && j in ws[k].calls && CanStep(ws[k], j)
                        && (InTransaction(ws[k].calls[i].pc) ==> InTransaction(ws[k].calls[j].pc))
  {
    ReachableInv(ws, acts, k);
    assert Local(ws[k], i);
    if Blocker(ws[k], i).Some? {
      WaitsAreShort(ws[k], i);
    } else {
      UnblockedSteps(ws[k], i);
    }
  }

  /** Listing skips locked rows, so a flush never waits for anyone. */
  lemma FlushesNeverWait(w: World, f: FlushId, o: Outcome)
    requires FlushOk(w, f) && w.flushes[f].pc != FDone
    ensures ShapedFlush(w.flushes[f]) && StepFlush(w, f, o).Some?
  {
  }

  // ------------------------------------------------- everybody can finish

  /** An upper bound on the statements a call still has before it. */
  function Remaining(c: Call): nat {
    match c.pc
    case AtLookup => 10
    case AtBegin => 9
    case AtOpen => 8
    case AtDecide(_) => 7
    case AtUpdate(_, _) => 6
    case AtTimeline(_, _, _) => 5
    case AtOutbox(_, _, _) => 4
    case AtIdem(_, _) => 3
    case AtCommit(_, _) => 2
    case AtRollback(_) => 1
    case Finished(_) => 0
  }

  ghost function Total(calls: map<CallId, Call>): nat {
    if calls == map[] then 0
    else
      var i :| i in calls;
      Remaining(calls[i]) + Total(calls - {i})
  }

  lemma {:induction false} TotalWithout(calls: map<CallId, Call>, i: CallId)
    requires i in calls
    ensures Total(calls) == Remaining(calls[i]) + Total(calls - {i})
    decreases |calls|
  {
    var j :| j in calls && Total(calls) == Remaining(calls[j]) + Total(calls - {j});
    if i != j {
      TotalWithout(calls - {j}, i);
      TotalWithout(calls - {i}, j);
      assert calls - {j} - {i} == calls - {i} - {j};
    }
  }

  lemma TotalDrops(calls: map<CallId, Call>, calls': map<CallId, Call>, i: CallId)
    requires i in calls && calls'.Keys == calls.Keys && forall j :: j in calls && j != i ==> calls'[j] == calls[j]
    requires Remaining(calls'[i]) < Remaining(calls[i])
    ensures Total(calls') < Total(calls)
  {
    TotalWithout(calls, i);
    TotalWithout(calls', i);
    assert calls' - {i} == calls - {i};
  }

  ghost predicate Drops(w: World, w': World, i: CallId) {
    i in w.calls && i in w'.calls && Remaining(w'.calls[i]) < Remaining(w.calls[i])
  }

  lemma PlainNext(w: World, i: CallId, o: Outcome)
    requires Local(w, i) && Plain(w.calls[i].pc)
    ensures Remaining(Call(w.calls[i].args, PlainPc(w.db, w.nextId, w.calls[i], o))) < Remaining(w.calls[i])
  {
    if w.calls[i].pc.AtOutbox? || w.calls[i].pc.AtTimeline? { assert CallOk(w, i); }
  }

  lemma PlainDrops(w: World, i: CallId, o: Outcome)
    requires Local(w, i) && Plain(w.calls[i].pc)
    ensures Drops(w, StepPlain(w, i, o), i)
  {
    PlainNext(w, i, o);
  }

  lemma InsertCaseDrops(w: World, i: CallId, o: Outcome, newId: CaseId)
    requires i in w.calls && w.calls[i].pc.AtOpen? && w.calls[i].args.Create?
    ensures var r := StepInsertCase(w, i, o, newId); r.Some? ==> Drops(w, r.value, i)
  {
  }

  lemma SelectCaseDrops(w: World, i: CallId, o: Outcome)
    requires i in w.calls && w.calls[i].pc.AtOpen? && w.calls[i].args.Transition?
    ensures var r := StepSelectCase(w, i, o); r.Some? ==> Drops(w, r.value, i)
  {
  }

  lemma IdemDrops(w: World, i: CallId, o: Outcome)
    requires i in w.calls && w.calls[i].pc.AtIdem?
    ensures var r := StepIdem(w, i, o); r.Some? ==> Drops(w, r.value, i)
  {
  }

  lemma CommitDrops(w: World, i: CallId, o: Outcome)
    requires i in w.calls && w.calls[i].pc.AtCommit?
    ensures Drops(w, StepCommit(w, i, o), i)
  {
  }

  /** Every statement brings its call nearer to its end. */
  lemma StepDrops(w: World, i: CallId, o: Outcome, newId: CaseId)
    requires Local(w, i)
    ensures var r := StepCall(w, i, o, newId); r.Some? ==> Drops(w, r.value, i)
  {
    match w.calls[i].pc
    case AtOpen =>
      if w.calls[i].args.Create? { InsertCaseDrops(w, i, o, newId); } else { SelectCaseDrops(w, i, o); }
    case AtIdem(_, _) => IdemDrops(w, i, o);
    case AtCommit(_, _) => CommitDrops(w, i, o);
    case AtRollback(_) =>
    case Finished(_) =>
    case _ => PlainDrops(w, i, o);
  }

  /** Some open call, not necessarily i, can take a step. */
  lemma SomeoneCan(w: World, i: CallId) returns (j: CallId)
    requires Inv(w) && i in w.calls && !w.calls[i].pc.Finished?
    ensures CanStep(w, j)
  {
    assert Local(w, i);
    if Blocker(w, i).Some? {
      WaitsAreShort(w, i);
      j := Blocker(w, i).value;
      if !CanStep(w, j) { j := Blocker(w, j).value; }
    } else {
      j := i;
      UnblockedSteps(w, i);
    }
  }

  lemma StepTotals(w: World, i: CallId, o: Outcome, newId: CaseId, w': World)
    requires Inv(w) && i in w.calls && Shaped(w.calls[i]) && StepCall(w, i, o, newId) == Some(w')
    ensures w'.calls.Keys == w.calls.Keys && Total(w'.calls) < Total(w.calls)
  {
    assert Local(w, i);
    StepIsAtomicOrSilent(w, i, o, newId);
    StepDrops(w, i, o, newId);
    TotalDrops(w.calls, w'.calls, i);
  }

  lemma CanStepSteps(w: World, j: CallId) returns (newId: CaseId)
    requires CanStep(w, j)
    ensures j in w.calls && Shaped(w.calls[j]) && StepCall(w, j, Good, newId).Some?
  {
    newId :| StepCall(w, j, Good, newId).Some?;
  }

  lemma RunIsStepCall(w: World, j: CallId, newId: CaseId)
    requires j in w.calls && Shaped(w.calls[j])
    ensures Step(w, Run(j, Good, newId)) == StepCall(w, j, Good, newId)
  {
  }

  lemma SomeoneSteps(w: World, i: CallId) returns (a: Action, w': World)
    requires Inv(w) && i in w.calls && !w.calls[i].pc.Finished?
    ensures a.Run? && a.o == Good && Step(w, a) == Some(w')
    ensures Inv(w') && w'.calls.Keys == w.calls.Keys && Total(w'.calls) < Total(w.calls)
  {
    var j := SomeoneCan(w, i);
    var newId := CanStepSteps(w, j);
    a := Run(j, Good, newId);
    w' := StepCall(w, j, Good, newId).value;
    RunIsStepCall(w, j, newId);
    StepTotals(w, j, Good, newId, w');
    CallStepKeepsInv(w, j, Good, newId);
  }

  /** A failure-free continuation after which every call has its answer. */
  ghost predicate Finishes(w: World, acts: seq<Action>, w': World) {
    && Exec(w, acts) == Some(w')
    && (forall a :: a in acts ==> a.Run? && a.o == Good)
    && w'.calls.Keys == w.calls.Keys && forall i :: i in w'.calls ==> w'.calls[i].pc.Finished?
  }

  lemma FinishesCons(w: World, a: Action, v: World, rest: seq<Action>, w': World)
    requires Step(w, a) == Some(v) && a.Run? && a.o == Good && v.calls.Keys == w.calls.Keys
    requires Finishes(v, rest, w')
    ensures Finishes(w, [a] + rest, w')
  {
    ExecCons(w, a, v, rest);
  }

  lemma {:induction false} EveryoneFinishes(w: World) returns (acts: seq<Action>, w': World)
    requires Inv(w)
    ensures Finishes(w, acts, w') && |acts| <= Total(w.calls)
    decreases Total(w.calls)
  {
    if i :| i in w.calls && !w.calls[i].pc.Finished? {
      var a, v := SomeoneSteps(w, i);
      var rest;
      rest, w' := EveryoneFinishes(v);
      acts := [a] + rest;
      FinishesCons(w, a, v, rest, w');
    } else {
      acts, w' := [], w;
    }
  }

  /** From every reachable world there is a continuation, with no failure in it and
      at most ten statements per call, after which every call has its answer. */
  lemma EveryoneCanFinish(ws: seq<World>, acts: seq<Action>, k: nat) returns (more: seq<Action>, w': World)
    requires IsRun(ws, acts) && k < |ws|
    ensures Finishes(ws[k], more, w') && |more| <= 10 * |ws[k].calls|
  {
    ReachableInv(ws, acts, k);
    TotalBound(ws[k].calls);
    more, w' := EveryoneFinishes(ws[k]);
  }

  lemma {:induction false} TotalBound(calls: map<CallId, Call>)
    ensures Total(calls) <= 10 * |calls|
    decreases |calls|
  {
    if calls != map[] {
      var i :| i in calls && Total(calls) == Remaining(calls[i]) + Total(calls - {i});
      TotalBound(calls - {i});
      var rest := calls - {i};
      assert rest.Keys == calls.Keys - {i};
      assert |rest| == |rest.Keys| && |calls| == |calls.Keys|;
      assert |rest.Keys| == |calls.Keys| - 1;
      assert Total(rest) <= 10 * |rest|;
      assert Remaining(calls[i]) <= 10;
    }
  }
}
