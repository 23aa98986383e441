/** What a call answers when its statements succeed, and when one of them fails. */
module Outcomes {
  import opened Wrappers
  import opened Tables
  import opened Protocol
  import opened Safety
  import opened StoreTheorems

  /** A statement of the call's transaction fails, or its client loses the answer to COMMIT. */
  predicate Fails(w: World, a: Action, i: CallId) {
    && a.Run? && a.i == i && i in w.calls
    && var pc := w.calls[i].pc;
       || (a.o.Bad? && (pc.AtBegin? || pc.AtOpen? || pc.AtUpdate? || pc.AtTimeline? || pc.AtOutbox? || pc.AtIdem?))
       || (!a.o.Good? && pc.AtCommit?)
  }

  /** It has happened within the first k actions. */
  ghost predicate HasFailed(ws: seq<World>, acts: seq<Action>, k: nat, i: CallId)
    requires k <= |acts| < |ws|
  {
    exists j {:trigger acts[j]} :: 0 <= j < k && Fails(ws[j], acts[j], i)
  }

  // --------------------------------------------- without a failure, no error

  predicate HasPending(pc: Pc) {
    pc.AtTimeline? || pc.AtOutbox? || pc.AtIdem? || pc.AtCommit?
  }

  /** The only error it reports is that its key is stored by then, and no write of it is lost. */
  ghost predicate Unharmed(db: Db, c: Call) {
    && (Settled(c) == Some(Failed(DbError)) ==> c.args.key != "" && c.args.key in db.idem)
    && (HasPending(c.pc) ==> !c.pc.p.doomed)
  }

  lemma PlainUnharmed(w: World, i: CallId, o: Outcome)
    requires Local(w, i) && Plain(w.calls[i].pc) && Unharmed(w.db, w.calls[i])
    requires o.Bad? ==> w.calls[i].pc.AtLookup? || w.calls[i].pc.AtDecide?
    ensures Unharmed(w.db, Call(w.calls[i].args, PlainPc(w.db, w.nextId, w.calls[i], o)))
  {
    if w.calls[i].pc.AtUpdate? { AfterUpdate(w, i, o); }
  }

  lemma IdemUnharmed(w: World, i: CallId, o: Outcome)
    requires i in w.calls && w.calls[i].pc.AtIdem? && !w.calls[i].pc.p.doomed && w.calls[i].args.key != "" && !o.Bad?
    ensures var r := StepIdem(w, i, o); r.Some? ==> i in r.value.calls && Unharmed(w.db, r.value.calls[i])
  {
  }

  lemma InsertUnharmed(w: World, i: CallId, o: Outcome, newId: CaseId)
    requires i in w.calls && w.calls[i].args.Create? && !o.Bad?
    ensures var r := StepInsertCase(w, i, o, newId); r.Some? ==> i in r.value.calls && Unharmed(w.db, r.value.calls[i])
  {
  }

  lemma SelectUnharmed(w: World, i: CallId, o: Outcome)
    requires i in w.calls && w.calls[i].args.Transition? && !o.Bad?
    ensures var r := StepSelectCase(w, i, o); r.Some? ==> i in r.value.calls && Unharmed(w.db, r.value.calls[i])
  {
  }

  lemma CommitUnharmed(w: World, i: CallId)
    requires i in w.calls && w.calls[i].pc.AtCommit? && !w.calls[i].pc.p.doomed
    ensures Unharmed(w.db, StepCommit(w, i, Good).calls[i])
  {
  }

  lemma KeyedAtIdem(w: World, i: CallId)
    requires Local(w, i) && w.calls[i].pc.AtIdem?
    ensures w.calls[i].args.key != ""
  {
  }

  lemma PlainCall(w: World, i: CallId, o: Outcome, newId: CaseId)
    requires i in w.calls && Shaped(w.calls[i]) && Plain(w.calls[i].pc)
    ensures var r := StepCall(w, i, o, newId);
            r.Some? && i in r.value.calls && r.value.commits == w.commits
            && r.value.calls[i] == Call(w.calls[i].args, PlainPc(w.db, w.nextId, w.calls[i], o))
  {
  }

  lemma StepUnharmed(w: World, i: CallId, o: Outcome, newId: CaseId)
    requires i in w.calls && Shaped(w.calls[i]) && Unharmed(w.db, w.calls[i]) && !Fails(w, Run(i, o, newId), i)
    requires w.calls[i].pc.AtIdem? ==> w.calls[i].args.key != ""
    requires Plain(w.calls[i].pc) ==> Unharmed(w.db, Call(w.calls[i].args, PlainPc(w.db, w.nextId, w.calls[i], o)))
    ensures var r := StepCall(w, i, o, newId); r.Some? ==> i in r.value.calls && Unharmed(w.db, r.value.calls[i])
  {
    if Plain(w.calls[i].pc) {
      PlainCall(w, i, o, newId);
    } else if w.calls[i].pc.AtOpen? {
      if w.calls[i].args.Create? { InsertUnharmed(w, i, o, newId); } else { SelectUnharmed(w, i, o); }
    } else if w.calls[i].pc.AtIdem? {
      IdemUnharmed(w, i, o);
    } else if w.calls[i].pc.AtCommit? {
      CommitUnharmed(w, i);
    }
  }

  lemma OwnUnharmed(w: World, i: CallId, o: Outcome, newId: CaseId)
    requires Local(w, i) && Unharmed(w.db, w.calls[i]) && !Fails(w, Run(i, o, newId), i)
    ensures var r := StepCall(w, i, o, newId); r.Some? ==> i in r.value.calls && Unharmed(w.db, r.value.calls[i])
  {
    if w.calls[i].pc.AtIdem? { KeyedAtIdem(w, i); }
    if Plain(w.calls[i].pc) { PlainUnharmed(w, i, o); }
    StepUnharmed(w, i, o, newId);
  }

  /** Others leave a call where it is, and no key is ever forgotten. */
  lemma OthersKeep(w: World, a: Action, w': World, i: CallId)
    requires Inv(w) && i in w.calls && Step(w, a) == Some(w') && !(a.Run? && a.i == i)
    ensures i in w'.calls && w'.calls[i] == w.calls[i]
  {
    match a
    case Arrive(_, _) =>
    case Run(j, o, newId) =>
      assert Local(w, j);
      StepIsAtomicOrSilent(w, j, o, newId);
    case _ => FlushSteps(w, a);
  }

  lemma KeysStay(w: World, a: Action, key: string)
    requires Inv(w) && Step(w, a).Some? && key in w.db.idem
    ensures key in Step(w, a).value.db.idem
  {
    StepRefines(w, a);
  }

  lemma UnharmedStays(w: World, a: Action, w': World, c: Call)
    requires Inv(w) && Step(w, a) == Some(w') && Unharmed(w.db, c)
    ensures Unharmed(w'.db, c)
  {
    if c.args.key in w.db.idem { KeysStay(w, a, c.args.key); }
  }

  lemma UnharmedNext(w: World, a: Action, w': World, i: CallId)
    requires Inv(w) && Step(w, a) == Some(w') && i in w'.calls
    requires i in w.calls ==> Unharmed(w.db, w.calls[i]) && !Fails(w, a, i)
    ensures Unharmed(w'.db, w'.calls[i])
  {
    if i !in w.calls {
      NewCall(w, a, w', i);
    } else {
      if a.Run? && a.i == i {
        assert Local(w, i);
        OwnUnharmed(w, i, a.o, a.newId);
      } else {
        OthersKeep(w, a, w', i);
      }
      UnharmedStays(w, a, w', w'.calls[i]);
    }
  }

  lemma {:induction false} WithoutFailure(ws: seq<World>, acts: seq<Action>, k: nat, i: CallId)
    requires IsRun(ws, acts) && k < |ws| && i in ws[k].calls && !HasFailed(ws, acts, k, i)
    ensures Unharmed(ws[k].db, ws[k].calls[i])
  {
    if k == 0 {
    } else {
      ReachableInv(ws, acts, k - 1);
      assert !Fails(ws[k - 1], acts[k - 1], i);
      if i in ws[k - 1].calls {
        assert !HasFailed(ws, acts, k - 1, i);
        WithoutFailure(ws, acts, k - 1, i);
      }
      UnharmedNext(ws[k - 1], acts[k - 1], ws[k], i);
    }
  }

  lemma NewCall(w: World, a: Action, w': World, i: CallId)
    requires Inv(w) && Step(w, a) == Some(w') && i !in w.calls && i in w'.calls
    ensures Settled(w'.calls[i]).None? && !HasPending(w'.calls[i].pc)
  {
    match a
    case Arrive(_, _) =>
    case Run(j, o, newId) =>
      assert Local(w, j);
      StepIsAtomicOrSilent(w, j, o, newId);
    case _ => FlushSteps(w, a);
  }

  // ------------------------------------------------- a failure is an error

  /** The call has lost a statement: it is bound to report an error. */
  ghost predicate Doomed(c: Call) {
    Settled(c) == Some(Failed(DbError)) || (c.pc.AtOutbox? && c.pc.p.doomed) || (c.pc.AtIdem? && c.pc.p.doomed)
  }

  lemma FailedPlain(db: Db, nextId: nat, c: Call)
    requires Shaped(c) && (c.pc.AtBegin? || c.pc.AtUpdate? || c.pc.AtTimeline? || c.pc.AtOutbox?)
    requires c.pc.AtTimeline? ==> c.pc.todo != []
    ensures Doomed(Call(c.args, PlainPc(db, nextId, c, Bad)))
  {
  }

  lemma FailedOpen(w: World, i: CallId, newId: CaseId)
    requires i in w.calls && w.calls[i].pc.AtOpen?
    ensures StepCall(w, i, Bad, newId) == Some(Goto(w, i, AtRollback(DbError)))
  {
  }

  lemma FailedIdem(w: World, i: CallId)
    requires i in w.calls && w.calls[i].pc.AtIdem?
    ensures StepIdem(w, i, Bad) == Some(Goto(w, i, AtRollback(DbError)))
  {
  }

  lemma FailedCommit(w: World, i: CallId, o: Outcome)
    requires i in w.calls && w.calls[i].pc.AtCommit? && !o.Good?
    ensures var w' := StepCommit(w, i, o);
            i in w'.calls && Doomed(w'.calls[i]) && (o.Bad? ==> w'.commits == w.commits)
  {
  }

  lemma FailureDooms(w: World, i: CallId, o: Outcome, newId: CaseId)
    requires i in w.calls && Shaped(w.calls[i]) && Fails(w, Run(i, o, newId), i)
    requires w.calls[i].pc.AtTimeline? ==> w.calls[i].pc.todo != []
    ensures var r := StepCall(w, i, o, newId);
            r.Some? ==> i in r.value.calls && Doomed(r.value.calls[i]) && (o.Bad? ==> r.value.commits == w.commits)
  {
    if w.calls[i].pc.AtOpen? {
      FailedOpen(w, i, newId);
    } else if w.calls[i].pc.AtIdem? {
      FailedIdem(w, i);
    } else if w.calls[i].pc.AtCommit? {
      FailedCommit(w, i, o);
    } else {
      FailedPlain(w.db, w.nextId, w.calls[i]);
    }
  }

  lemma TodoAtTimeline(w: World, i: CallId)
    requires Local(w, i) && w.calls[i].pc.AtTimeline?
    ensures w.calls[i].pc.todo != []
  {
  }

  lemma FailedStep(w: World, a: Action, w': World, i: CallId)
    requires Inv(w) && Fails(w, a, i) && Step(w, a) == Some(w')
    ensures i in w'.calls && Doomed(w'.calls[i]) && (a.o.Bad? ==> w'.commits == w.commits)
  {
    if w.calls[i].pc.AtTimeline? { TodoAtTimeline(w, i); }
    FailureDooms(w, i, a.o, a.newId);
  }

  lemma DoomedOutbox(db: Db, nextId: nat, c: Call, o: Outcome)
    requires Shaped(c) && c.pc.AtOutbox? && c.pc.p.doomed
    ensures Doomed(Call(c.args, PlainPc(db, nextId, c, o)))
  {
  }

  lemma DoomedStep(w: World, i: CallId, o: Outcome, newId: CaseId)
    requires i in w.calls && Shaped(w.calls[i]) && Doomed(w.calls[i]) && StepCall(w, i, o, newId).Some?
    ensures var w' := StepCall(w, i, o, newId).value;
            i in w'.calls && Doomed(w'.calls[i]) && w'.commits == w.commits
  {
    if w.calls[i].pc.AtOutbox? {
      PlainCall(w, i, o, newId);
      DoomedOutbox(w.db, w.nextId, w.calls[i], o);
    }
  }

  lemma DoomedStays(w: World, a: Action, w': World, i: CallId)
    requires Inv(w) && i in w.calls && Doomed(w.calls[i]) && Step(w, a) == Some(w')
    ensures i in w'.calls && Doomed(w'.calls[i]) && (a.Run? && a.i == i ==> w'.commits == w.commits)
  {
    if a.Run? && a.i == i {
      DoomedStep(w, i, a.o, a.newId);
    } else {
      OthersKeep(w, a, w', i);
    }
  }

  lemma {:induction false} DoomedOn(ws: seq<World>, acts: seq<Action>, j: nat, k: nat, i: CallId)
    requires IsRun(ws, acts) && j <= k < |ws| && i in ws[j].calls && Doomed(ws[j].calls[i])
    ensures i in ws[k].calls && Doomed(ws[k].calls[i])
  {
    if j < k {
      DoomedOn(ws, acts, j, k - 1, i);
      ReachableInv(ws, acts, k - 1);
      DoomedStays(ws[k - 1], acts[k - 1], ws[k], i);
    }
  }

  lemma DoomedAt(ws: seq<World>, acts: seq<Action>, j: nat, i: CallId, w: World, a: Action)
    requires IsRun(ws, acts) && j < |acts| && w == ws[j] && a == acts[j] && Fails(w, a, i)
    ensures i in ws[j + 1].calls && Doomed(ws[j + 1].calls[i])
  {
    ReachableInv(ws, acts, j);
    FailedStep(w, a, ws[j + 1], i);
  }

  lemma AfterFailure(ws: seq<World>, acts: seq<Action>, j: nat, k: nat, i: CallId)
    requires IsRun(ws, acts) && j < k < |ws| && Fails(ws[j], acts[j], i)
    ensures i in ws[k].calls && Doomed(ws[k].calls[i])
  {
    DoomedAt(ws, acts, j, i, ws[j], acts[j]);
    DoomedOn(ws, acts, j + 1, k, i);
  }

  /** The call has committed nothing. */
  ghost predicate NoCommit(w: World, i: CallId) {
    forall n :: n in w.commits ==> n.call != i
  }

  lemma OthersCommit(w: World, a: Action, w': World, i: CallId)
    requires Inv(w) && Step(w, a) == Some(w') && NoCommit(w, i)
    requires a.Run? && a.i == i ==> w'.commits == w.commits
    ensures NoCommit(w', i)
  {
    match a
    case Arrive(_, _) =>
    case Run(j, o, newId) =>
      assert Local(w, j);
      StepIsAtomicOrSilent(w, j, o, newId);
    case _ => FlushSteps(w, a);
  }

  /** Bound to report an error, with nothing committed. */
  ghost predicate BoundToFail(w: World, i: CallId) {
    i in w.calls && Doomed(w.calls[i]) && NoCommit(w, i)
  }

  lemma BoundNext(w: World, a: Action, w': World, i: CallId)
    requires Inv(w) && BoundToFail(w, i) && Step(w, a) == Some(w')
    ensures BoundToFail(w', i)
  {
    DoomedStays(w, a, w', i);
    OthersCommit(w, a, w', i);
  }

  lemma OpenHasNoCommit(w: World, i: CallId)
    requires Inv(w) && i in w.calls && !w.calls[i].pc.Finished?
    ensures NoCommit(w, i)
  {
    forall n | n in w.commits ensures n.call != i {
      var m :| 0 <= m < |w.commits| && w.commits[m] == n;
      assert Authored(w, n);
    }
  }

  lemma {:induction false} BoundOn(ws: seq<World>, acts: seq<Action>, j: nat, k: nat, i: CallId)
    requires IsRun(ws, acts) && j <= k < |ws| && BoundToFail(ws[j], i)
    ensures BoundToFail(ws[k], i)
  {
    if j < k {
      BoundOn(ws, acts, j, k - 1, i);
      ReachableInv(ws, acts, k - 1);
      BoundNext(ws[k - 1], acts[k - 1], ws[k], i);
    }
  }

  lemma FailedNow(w: World, a: Action, w': World, i: CallId)
    requires Inv(w) && Fails(w, a, i) && a.o.Bad? && Step(w, a) == Some(w')
    ensures BoundToFail(w', i)
  {
    OpenHasNoCommit(w, i);
    FailedStep(w, a, w', i);
  }

  lemma FailedAt(ws: seq<World>, acts: seq<Action>, j: nat, i: CallId, w: World, a: Action)
    requires IsRun(ws, acts) && j < |acts| && w == ws[j] && a == acts[j] && Fails(w, a, i) && a.o.Bad?
    ensures BoundToFail(ws[j + 1], i)
  {
    ReachableInv(ws, acts, j);
    FailedNow(w, a, ws[j + 1], i);
  }

  lemma NothingCommitted(ws: seq<World>, acts: seq<Action>, j: nat, k: nat, i: CallId)
    requires IsRun(ws, acts) && j < k < |ws| && Fails(ws[j], acts[j], i) && acts[j].o.Bad?
    ensures NoCommit(ws[k], i)
  {
    FailedAt(ws, acts, j, i, ws[j], acts[j]);
    BoundOn(ws, acts, j + 1, k, i);
  }

  /** Over every run of any number of calls: a finished call answers with a database error
      if one of its statements has failed, a dropped timeline insert included, or its
      client has lost the answer to COMMIT; and it does so only then, or when its key has
      been stored meanwhile.  A call of which a statement has failed has committed nothing. */
  lemma ErrorsExactly(ws: seq<World>, acts: seq<Action>, k: nat, i: CallId)
    requires IsRun(ws, acts) && k < |ws| && i in ws[k].calls && ws[k].calls[i].pc.Finished?
    ensures var c := ws[k].calls[i];
            && (HasFailed(ws, acts, k, i) ==> c.pc.reply == Failed(DbError))
            && (c.pc.reply == Failed(DbError) ==>
                  HasFailed(ws, acts, k, i) || (c.args.key != "" && c.args.key in ws[k].db.idem))
    ensures (exists j {:trigger acts[j]} :: 0 <= j < k && Fails(ws[j], acts[j], i) && acts[j].o.Bad?) ==>
              NoCommit(ws[k], i)
  {
    if HasFailed(ws, acts, k, i) {
      var j {:trigger acts[j]} :| 0 <= j < k && Fails(ws[j], acts[j], i);
      AfterFailure(ws, acts, j, k, i);
    } else {
      WithoutFailure(ws, acts, k, i);
    }
    if j {:trigger acts[j]} :| 0 <= j < k && Fails(ws[j], acts[j], i) && acts[j].o.Bad? {
      NothingCommitted(ws, acts, j, k, i);
    }
  }
}
