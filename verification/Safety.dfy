/** What every interleaving of calls, flushes and failures keeps: the committed
    tables are always those of the committed calls run one at a time. */
module Safety {
  import opened Wrappers
  import opened Workflow
  import opened Tables
  import opened Protocol

  // -------------------------------------------------------------- invariant

  ghost predicate Holds(w: World, i: CallId, c: CaseId) {
    c in w.rowLock && w.rowLock[c] == i
  }

  ghost predicate Agreed(a: Args, cur: CaseRow, intent: Intent)
    requires a.Transition?
  {
    IfMatchOk(a, cur.version) && Decide(cur.status, a.event, a.ctx, a.caseId) == Success(intent)
  }

  /** The call holds the row it writes, and its effect is what the whole call
      would do if it ran now. */
  ghost predicate Planned(w: World, i: CallId, a: Args, e: Effect) {
    Holds(w, i, e.caseId) && Allowed(w.db, a, e)
  }

  /** Both rows are written, and the outbox id is newer than every committed id of the case. */
  ghost predicate Staged(w: World, e: Effect, p: Pending) {
    && !p.doomed
    && p.timeline == [e.entry]
    && |p.outbox| == 1
    && p.outbox[0] == OutboxRow(p.outbox[0].id, e.caseId, e.msg)
    && p.outbox[0].id < w.nextId
    && !UsesId(w.db.outbox, p.outbox[0].id)
    && Newest(w.db.outbox, e.caseId, p.outbox[0].id)
  }

  ghost predicate CallOk(w: World, i: CallId)
    requires i in w.calls
  {
    var a := w.calls[i].args;
    match w.calls[i].pc
    case AtLookup => a.key != ""
    case AtDecide(cur) =>
      a.Transition? && Holds(w, i, a.caseId) && a.caseId in w.db.cases && w.db.cases[a.caseId] == cur
    case AtUpdate(cur, intent) =>
      && a.Transition? && Holds(w, i, a.caseId) && a.caseId in w.db.cases && w.db.cases[a.caseId] == cur
      && Agreed(a, cur, intent)
    case AtTimeline(e, todo, p) => Planned(w, i, a, e) && todo == [e.msg] && p == NOTHING
    case AtOutbox(e, todo, p) =>
      && Planned(w, i, a, e) && todo == [e.msg] && p.outbox == [] && p.idem == map[]
      && (p.doomed || p.timeline == [e.entry])
    case AtIdem(e, p) => Planned(w, i, a, e) && Staged(w, e, p) && p.idem == map[] && a.key != ""
    case AtCommit(e, p) =>
      && Planned(w, i, a, e) && Staged(w, e, p) && p.idem == KeyRow(a.key, e.idem)
      && KeyFree(w.db, a.key)
      && (a.key != "" ==> a.key in w.keyLock && w.keyLock[a.key] == i)
    case _ => true
  }

  /** The outbox id a call has drawn but not committed. */
  function PendingId(c: Call): Option<nat> {
    match c.pc
    case AtIdem(_, p) => if p.outbox == [] then None else Some(p.outbox[0].id)
    case AtCommit(_, p) => if p.outbox == [] then None else Some(p.outbox[0].id)
    case _ => None
  }

  ghost predicate PendingDistinct(w: World) {
    forall i, j :: i in w.calls && j in w.calls && i != j && PendingId(w.calls[i]).Some? ==>
      PendingId(w.calls[i]) != PendingId(w.calls[j])
  }

  ghost predicate IdsBelow(w: World) {
    forall k :: 0 <= k < |w.db.outbox| ==> w.db.outbox[k].id < w.nextId
  }

  predicate InTransaction(pc: Pc) {
    !pc.AtLookup? && !pc.AtBegin? && !pc.Finished?
  }

  /** A call holds locks only while its transaction is open, and the key lock only
      for its own key, after inserting it. */
  ghost predicate LocksOk(w: World, i: CallId)
    requires i in w.calls
  {
    && (forall c :: c in w.rowLock && w.rowLock[c] == i ==>
          InTransaction(w.calls[i].pc) && !w.calls[i].pc.AtOpen?)
    && (forall k :: k in w.keyLock && w.keyLock[k] == i ==>
          w.calls[i].args.key == k && (w.calls[i].pc.AtCommit? || w.calls[i].pc.AtRollback?))
  }

  ghost predicate OwnersOk(w: World) {
    && (forall c :: c in w.rowLock ==> w.rowLock[c] in w.calls)
    && (forall k :: k in w.keyLock ==> w.keyLock[k] in w.calls)
  }

  /** One call in order. */
  ghost predicate Local(w: World, i: CallId) {
    i in w.calls && Shaped(w.calls[i]) && CallOk(w, i) && LocksOk(w, i)
  }

  ghost predicate Authored(w: World, n: Commit) {
    && n.call in w.calls && w.calls[n.call].args == n.args
    && (w.calls[n.call].pc == Finished(Committed(Response(n.effect.caseId, n.effect.row)))
        || w.calls[n.call].pc == Finished(Failed(DbError)))
  }

  /** The tables are those of the committed calls, run one at a time; a call commits
      at most once, and an acknowledged commit is in the log. */
  ghost predicate LogOk(w: World) {
    && Legal(w.commits)
    && w.db == Rebuild(w.commits)
    && (forall k :: 0 <= k < |w.commits| ==> Authored(w, w.commits[k]))
    && (forall k, m :: 0 <= k < m < |w.commits| ==> w.commits[k].call != w.commits[m].call)
    && (forall i :: i in w.calls && w.calls[i].pc.Finished? && w.calls[i].pc.reply.Committed? ==>
          exists k :: 0 <= k < |w.commits| && w.commits[k].call == i)
  }

  ghost predicate CallsOk(w: World) {
    forall i :: i in w.calls ==> Local(w, i)
  }

  ghost predicate Inv(w: World) {
    CallsOk(w) && PendingDistinct(w) && IdsBelow(w) && OwnersOk(w) && LogOk(w)
  }

  // ------------------------------------------------- one call against others

  /** What a step of call i may change of what other calls rely on. */
  ghost predicate Guarantee(w: World, w': World, i: CallId) {
    && w'.calls.Keys == w.calls.Keys
    && (forall j :: j in w.calls && j != i ==> w'.calls[j] == w.calls[j])
    && (forall c :: c in w.rowLock && w.rowLock[c] != i ==> Holds(w', w.rowLock[c], c))
    && (forall c :: c in w'.rowLock && w'.rowLock[c] != i ==> Holds(w, w'.rowLock[c], c))
    && (forall c :: c in w.rowLock && w.rowLock[c] != i ==>
          (c in w'.db.cases <==> c in w.db.cases) && (c in w.db.cases ==> w'.db.cases[c] == w.db.cases[c]))
    && (forall k :: k in w'.db.idem ==> k in w.db.idem || (k in w.keyLock && w.keyLock[k] == i))
    && (forall k :: k in w.keyLock && w.keyLock[k] != i ==> k in w'.keyLock && w'.keyLock[k] == w.keyLock[k])
    && (forall k :: k in w'.keyLock && w'.keyLock[k] != i ==> k in w.keyLock && w'.keyLock[k] == w.keyLock[k])
    && w.nextId <= w'.nextId
    && (forall r :: r in w'.db.outbox ==>
          r in w.db.outbox || (i in w.calls && Holds(w, i, r.caseId) && PendingId(w.calls[i]) == Some(r.id)))
  }

  lemma StagedFrame(w: World, w': World, i: CallId, j: CallId, e: Effect, p: Pending)
    requires Guarantee(w, w', i) && i != j && i in w.calls && j in w.calls
    requires PendingDistinct(w) && Holds(w, j, e.caseId) && Staged(w, e, p)
    requires PendingId(w.calls[j]) == Some(p.outbox[0].id)
    ensures Staged(w', e, p)
  {
    var id := p.outbox[0].id;
    forall k | 0 <= k < |w'.db.outbox|
      ensures w'.db.outbox[k].id != id
      ensures w'.db.outbox[k].caseId == e.caseId ==> w'.db.outbox[k].id < id
    {
      var r := w'.db.outbox[k];
      assert r in w'.db.outbox;
      if r in w.db.outbox {
        var m :| 0 <= m < |w.db.outbox| && w.db.outbox[m] == r;
      }
    }
  }

  /** A step of one call leaves every other call as ready as it was. */
  lemma OtherCallsOk(w: World, w': World, i: CallId, j: CallId)
    requires CallsOk(w) && PendingDistinct(w) && Guarantee(w, w', i)
    requires i in w.calls && j in w.calls && i != j
    ensures Local(w', j)
  {
    assert w'.calls[j] == w.calls[j];
    assert Local(w, j);
    match w.calls[j].pc
    case AtIdem(e, p) => StagedFrame(w, w', i, j, e, p);
    case AtCommit(e, p) => StagedFrame(w, w', i, j, e, p);
    case _ =>
  }

  // --------------------------------------------------- one statement at a time

  lemma GotoFrame(w: World, i: CallId, pc: Pc, n: nat)
    requires i in w.calls && w.nextId <= n
    ensures Guarantee(w, Goto(w, i, pc).(nextId := n), i)
  {
  }

  lemma LockRowFrame(w: World, i: CallId, pc: Pc, c: CaseId)
    requires i in w.calls && c !in w.rowLock
    ensures Guarantee(w, Goto(w, i, pc).(rowLock := w.rowLock[c := i]), i)
  {
  }

  lemma LockKeyFrame(w: World, i: CallId, pc: Pc, k: string)
    requires i in w.calls && k !in w.keyLock
    ensures Guarantee(w, Goto(w, i, pc).(keyLock := w.keyLock[k := i]), i)
  {
  }

  lemma EndFrame(w: World, i: CallId, r: Reply)
    requires i in w.calls
    ensures Guarantee(w, End(w, i, r), i)
  {
  }

  lemma InsertCaseFrame(w: World, i: CallId, o: Outcome, newId: CaseId)
    requires i in w.calls && w.calls[i].args.Create?
    ensures var r := StepInsertCase(w, i, o, newId); r.Some? ==> Guarantee(w, r.value, i)
  {
    if o.Bad? {
      GotoFrame(w, i, AtRollback(DbError), w.nextId);
    } else if newId !in w.rowLock {
      var e := CreateEffect(w.calls[i].args, newId);
      LockRowFrame(w, i, AtTimeline(e, [e.msg], NOTHING), newId);
    }
  }

  lemma SelectCaseFrame(w: World, i: CallId, o: Outcome)
    requires i in w.calls && w.calls[i].args.Transition?
    ensures var r := StepSelectCase(w, i, o); r.Some? ==> Guarantee(w, r.value, i)
  {
    var c := w.calls[i].args.caseId;
    GotoFrame(w, i, AtRollback(DbError), w.nextId);
    GotoFrame(w, i, AtRollback(NoRows), w.nextId);
    if c in w.db.cases && c !in w.rowLock {
      LockRowFrame(w, i, AtDecide(w.db.cases[c]), c);
    }
  }

  lemma IdemFrame(w: World, i: CallId, o: Outcome)
    requires i in w.calls && w.calls[i].pc.AtIdem?
    ensures var r := StepIdem(w, i, o); r.Some? ==> Guarantee(w, r.value, i)
  {
    var r := StepIdem(w, i, o);
    if r.Some? {
      var pc := r.value.calls[i].pc;
      if pc.AtRollback? {
        GotoFrame(w, i, pc, w.nextId);
        assert r.value == Goto(w, i, pc).(nextId := w.nextId);
      } else {
        LockKeyFrame(w, i, pc, w.calls[i].args.key);
      }
    }
  }

  lemma AfterLookup(w: World, i: CallId, o: Outcome)
    requires Local(w, i) && w.calls[i].pc.AtLookup?
    ensures Local(StepPlain(w, i, o), i)
  {
  }

  lemma AfterBegin(w: World, i: CallId, o: Outcome)
    requires Local(w, i) && w.calls[i].pc.AtBegin?
    ensures Local(StepPlain(w, i, o), i)
  {
  }

  lemma AfterInsertCase(w: World, i: CallId, o: Outcome, newId: CaseId)
    requires Local(w, i) && w.calls[i].pc.AtOpen? && w.calls[i].args.Create?
    ensures var r := StepInsertCase(w, i, o, newId); r.Some? ==> Local(r.value, i)
  {
  }

  lemma AfterSelectCase(w: World, i: CallId, o: Outcome)
    requires Local(w, i) && w.calls[i].pc.AtOpen? && w.calls[i].args.Transition?
    ensures var r := StepSelectCase(w, i, o); r.Some? ==> Local(r.value, i)
  {
    SelectLocks(w, i, o);
  }

  lemma SelectLocks(w: World, i: CallId, o: Outcome)
    requires Local(w, i) && w.calls[i].pc.AtOpen? && w.calls[i].args.Transition?
    ensures var r := StepSelectCase(w, i, o); r.Some? ==> i in r.value.calls && LocksOk(r.value, i)
  {
  }

  lemma AfterDecide(w: World, i: CallId, o: Outcome)
    requires Local(w, i) && w.calls[i].pc.AtDecide?
    ensures Local(StepPlain(w, i, o), i)
  {
  }

  /** Under the row lock the version test of the UPDATE never misses. */
  lemma AfterUpdate(w: World, i: CallId, o: Outcome)
    requires Local(w, i) && w.calls[i].pc.AtUpdate?
    ensures Local(StepPlain(w, i, o), i)
    ensures !o.Bad? ==> StepPlain(w, i, o).calls[i].pc.AtTimeline?
  {
  }

  lemma AfterTimeline(w: World, i: CallId, o: Outcome)
    requires Local(w, i) && w.calls[i].pc.AtTimeline?
    ensures Local(StepPlain(w, i, o), i)
  {
  }

  lemma AfterOutbox(w: World, i: CallId, o: Outcome)
    requires Local(w, i) && IdsBelow(w) && w.calls[i].pc.AtOutbox?
    ensures Local(StepPlain(w, i, o), i)
    ensures PendingId(StepPlain(w, i, o).calls[i]) in {None, Some(w.nextId)}
  {
  }

  lemma AfterIdem(w: World, i: CallId, o: Outcome)
    requires i in w.calls && CallOk(w, i) && w.calls[i].pc.AtIdem?
    ensures var r := StepIdem(w, i, o);
            r.Some? ==> CallOk(r.value, i) && Shaped(r.value.calls[i])
                        && (PendingId(r.value.calls[i]).Some? ==> PendingId(r.value.calls[i]) == PendingId(w.calls[i]))
  {
  }

  lemma AfterIdemLocks(w: World, i: CallId, o: Outcome)
    requires i in w.calls && LocksOk(w, i) && w.calls[i].pc.AtIdem?
    ensures var r := StepIdem(w, i, o); r.Some? ==> LocksOk(r.value, i)
  {
  }

  lemma AfterRollback(w: World, i: CallId)
    requires Local(w, i) && w.calls[i].pc.AtRollback?
    ensures Local(End(w, i, Failed(w.calls[i].pc.why)), i)
  {
  }

  // ------------------------------------------------------------ COMMIT

  /** A commit is one whole atomic call, and permitted at this moment. */
  ghost predicate CommitsWhole(w: World, w': World, i: CallId) {
    && i in w.calls && w.calls[i].pc.AtCommit?
    && var n := Commit(i, w.calls[i].args, w.calls[i].pc.e, FirstId(w.calls[i].pc.p.outbox));
       && Permitted(w.db, n)
       && w'.commits == w.commits + [n]
       && w'.db == ApplyEffect(w.db, n.args.key, n.effect, n.oid)
       && n.oid < w.nextId
       && Authored(w', n)
  }

  /** Nothing is committed, and nobody is told so. */
  ghost predicate Silent(w: World, w': World, i: CallId) {
    && w'.db == w.db && w'.commits == w.commits
    && i in w'.calls && !(w'.calls[i].pc.Finished? && w'.calls[i].pc.reply.Committed?)
  }

  lemma WriteIsAtomic(db: Db, key: string, e: Effect, p: Pending)
    requires |p.outbox| == 1 && p.outbox[0] == OutboxRow(p.outbox[0].id, e.caseId, e.msg)
    requires p.timeline == [e.entry] && p.idem == KeyRow(key, e.idem)
    ensures Write(db, e, p) == ApplyEffect(db, key, e, FirstId(p.outbox))
  {
    var r := p.outbox[0];
    assert p.outbox[1..] == [] && InsertAll(Insert(db.outbox, r), []) == Insert(db.outbox, r);
  }

  lemma CommitWhole(w: World, i: CallId, o: Outcome)
    requires Local(w, i) && w.calls[i].pc.AtCommit? && !o.Bad?
    ensures CommitsWhole(w, StepCommit(w, i, o), i)
  {
    var a, e, p := w.calls[i].args, w.calls[i].pc.e, w.calls[i].pc.p;
    assert CallOk(w, i);
    WriteIsAtomic(w.db, a.key, e, p);
  }

  lemma DbFrame(w: World, w': World, i: CallId, db: Db, log: seq<Commit>)
    requires Guarantee(w, w', i)
    requires forall c :: c in w.rowLock && w.rowLock[c] != i ==>
               (c in db.cases <==> c in w.db.cases) && (c in w.db.cases ==> db.cases[c] == w.db.cases[c])
    requires forall k :: k in db.idem ==> k in w.db.idem || (k in w.keyLock && w.keyLock[k] == i)
    requires forall r :: r in db.outbox ==>
               r in w.db.outbox || (i in w.calls && Holds(w, i, r.caseId) && PendingId(w.calls[i]) == Some(r.id))
    ensures Guarantee(w, w'.(db := db, commits := log), i)
  {
  }

  /** A commit touches only the case and the key that the call has locked. */
  lemma CommitFrame(w: World, i: CallId, o: Outcome)
    requires Local(w, i) && w.calls[i].pc.AtCommit? && !o.Bad?
    ensures Guarantee(w, StepCommit(w, i, o), i)
  {
    var w', key, e, p := StepCommit(w, i, o), w.calls[i].args.key, w.calls[i].pc.e, w.calls[i].pc.p;
    var r := if o.Good? then Committed(Response(e.caseId, e.row)) else Failed(DbError);
    assert CallOk(w, i);
    WriteIsAtomic(w.db, key, e, p);
    forall r | r in w'.db.outbox ensures r in w.db.outbox || r == p.outbox[0] {
      InsertMembers(w.db.outbox, p.outbox[0], r);
    }
    EndFrame(w, i, r);
    DbFrame(w, End(w, i, r), i, w'.db, w'.commits);
  }

  lemma NothingHeld(w: World, i: CallId, r: Reply, w': World)
    requires i in w.calls && w'.calls == w.calls[i := w.calls[i].(pc := Finished(r))]
    requires w'.rowLock == ReleaseRows(w.rowLock, i) && w'.keyLock == ReleaseKeys(w.keyLock, i)
    ensures Local(w', i)
  {
  }

  lemma AfterCommit(w: World, i: CallId, o: Outcome)
    requires i in w.calls && w.calls[i].pc.AtCommit?
    ensures Local(StepCommit(w, i, o), i)
  {
    var w' := StepCommit(w, i, o);
    NothingHeld(w, i, w'.calls[i].pc.reply, w');
  }

  // ------------------------------------------------------- any step of a call

  /** The call stays in order, others are left alone, and a new id is new. */
  ghost predicate Forward(w: World, w': World, i: CallId) {
    && i in w.calls && !w.calls[i].pc.Finished?
    && Guarantee(w, w', i) && Local(w', i)
    && w'.calls[i].args == w.calls[i].args
    && (PendingId(w'.calls[i]) in {None, PendingId(w.calls[i])}
        || (PendingId(w'.calls[i]) == Some(w.nextId) && w.nextId < w'.nextId))
  }

  lemma PlainGuarantee(w: World, i: CallId, o: Outcome)
    requires i in w.calls && Shaped(w.calls[i]) && Plain(w.calls[i].pc)
    ensures Guarantee(w, StepPlain(w, i, o), i)
  {
    GotoFrame(w, i, PlainPc(w.db, w.nextId, w.calls[i], o), w.nextId + if w.calls[i].pc.AtOutbox? then 1 else 0);
  }

  lemma PlainLocal(w: World, i: CallId, o: Outcome)
    requires Local(w, i) && IdsBelow(w) && Plain(w.calls[i].pc)
    ensures Local(StepPlain(w, i, o), i)
  {
    match w.calls[i].pc
    case AtLookup => AfterLookup(w, i, o);
    case AtBegin => AfterBegin(w, i, o);
    case AtDecide(_) => AfterDecide(w, i, o);
    case AtUpdate(_, _) => AfterUpdate(w, i, o);
    case AtTimeline(_, _, _) => AfterTimeline(w, i, o);
    case AtOutbox(_, _, _) => AfterOutbox(w, i, o);
  }

  /** Only the outbox insert draws an id, and only a commit reports one. */
  lemma PlainReports(w: World, i: CallId, o: Outcome)
    requires Local(w, i) && IdsBelow(w) && Plain(w.calls[i].pc)
    ensures var pc := PlainPc(w.db, w.nextId, w.calls[i], o);
            && !(pc.Finished? && pc.reply.Committed?)
            && PendingId(Call(w.calls[i].args, pc)) in {None, Some(w.nextId)}
            && (PendingId(Call(w.calls[i].args, pc)).Some? ==> w.calls[i].pc.AtOutbox?)
  {
    if w.calls[i].pc.AtOutbox? { AfterOutbox(w, i, o); }
    if w.calls[i].pc.AtTimeline? { assert CallOk(w, i); }
  }

  lemma PlainStep(w: World, i: CallId, o: Outcome)
    requires Local(w, i) && IdsBelow(w) && Plain(w.calls[i].pc)
    ensures Forward(w, StepPlain(w, i, o), i)
    ensures Silent(w, StepPlain(w, i, o), i)
  {
    PlainGuarantee(w, i, o);
    PlainLocal(w, i, o);
    PlainReports(w, i, o);
  }

  lemma InsertCaseStep(w: World, i: CallId, o: Outcome, newId: CaseId)
    requires Local(w, i) && w.calls[i].pc.AtOpen? && w.calls[i].args.Create?
    ensures var r := StepInsertCase(w, i, o, newId);
            r.Some? ==> Forward(w, r.value, i) && Silent(w, r.value, i)
  {
    InsertCaseFrame(w, i, o, newId);
    AfterInsertCase(w, i, o, newId);
  }

  lemma SelectCaseStep(w: World, i: CallId, o: Outcome)
    requires Local(w, i) && w.calls[i].pc.AtOpen? && w.calls[i].args.Transition?
    ensures var r := StepSelectCase(w, i, o);
            r.Some? ==> Forward(w, r.value, i) && Silent(w, r.value, i)
  {
    SelectCaseFrame(w, i, o);
    AfterSelectCase(w, i, o);
  }

  lemma RollbackStep(w: World, i: CallId)
    requires Local(w, i) && w.calls[i].pc.AtRollback?
    ensures var w' := End(w, i, Failed(w.calls[i].pc.why)); Forward(w, w', i) && Silent(w, w', i)
  {
    EndFrame(w, i, Failed(w.calls[i].pc.why));
    AfterRollback(w, i);
  }

  lemma IdemStep(w: World, i: CallId, o: Outcome)
    requires Local(w, i) && w.calls[i].pc.AtIdem?
    ensures var r := StepIdem(w, i, o);
            r.Some? ==> Forward(w, r.value, i) && Silent(w, r.value, i)
  {
    IdemFrame(w, i, o);
    AfterIdem(w, i, o);
    AfterIdemLocks(w, i, o);
  }

  lemma CommitStep(w: World, i: CallId, o: Outcome)
    requires Local(w, i) && w.calls[i].pc.AtCommit?
    ensures var w' := StepCommit(w, i, o);
            Forward(w, w', i) && if o.Bad? then Silent(w, w', i) else CommitsWhole(w, w', i)
  {
    AfterCommit(w, i, o);
    if o.Bad? {
      EndFrame(w, i, Failed(DbError));
    } else {
      assert CallOk(w, i);
      CommitFrame(w, i, o);
      CommitWhole(w, i, o);
    }
  }

  /** Every statement of every call either commits the whole call or changes no
      table and reports no success. */
  lemma StepIsAtomicOrSilent(w: World, i: CallId, o: Outcome, newId: CaseId)
    requires Local(w, i) && IdsBelow(w)
    ensures var r := StepCall(w, i, o, newId);
            r.Some? ==> Forward(w, r.value, i) && (Silent(w, r.value, i) || CommitsWhole(w, r.value, i))
  {
    match w.calls[i].pc
    case AtOpen =>
      if w.calls[i].args.Create? { InsertCaseStep(w, i, o, newId); } else { SelectCaseStep(w, i, o); }
    case AtIdem(_, _) => IdemStep(w, i, o);
    case AtCommit(_, _) => CommitStep(w, i, o);
    case AtRollback(_) => RollbackStep(w, i);
    case Finished(_) =>
    case _ => PlainStep(w, i, o);
  }

  // ----------------------------------------------------- the whole invariant

  lemma KeepsCalls(w: World, w': World, i: CallId)
    requires CallsOk(w) && PendingDistinct(w) && Forward(w, w', i)
    ensures CallsOk(w')
  {
    forall j | j in w'.calls ensures Local(w', j) {
      if j != i { OtherCallsOk(w, w', i, j); }
    }
  }

  lemma PendingBelow(w: World, j: CallId)
    requires Local(w, j) && PendingId(w.calls[j]).Some?
    ensures PendingId(w.calls[j]).value < w.nextId
  {
  }

  lemma KeepsPending(w: World, w': World, i: CallId)
    requires CallsOk(w) && PendingDistinct(w) && Forward(w, w', i)
    ensures PendingDistinct(w')
  {
    forall j, k | j in w'.calls && k in w'.calls && j != k && PendingId(w'.calls[j]).Some?
      ensures PendingId(w'.calls[j]) != PendingId(w'.calls[k])
    {
      if PendingId(w.calls[j]).Some? { PendingBelow(w, j); }
      if PendingId(w.calls[k]).Some? { PendingBelow(w, k); }
    }
  }

  lemma KeepsIds(w: World, w': World, i: CallId)
    requires IdsBelow(w) && Forward(w, w', i) && (Silent(w, w', i) || CommitsWhole(w, w', i))
    ensures IdsBelow(w')
  {
    if !Silent(w, w', i) {
      var e := w.calls[i].pc.e;
      var row := OutboxRow(FirstId(w.calls[i].pc.p.outbox), e.caseId, e.msg);
      forall k | 0 <= k < |w'.db.outbox| ensures w'.db.outbox[k].id < w'.nextId {
        InsertMembers(w.db.outbox, row, w'.db.outbox[k]);
      }
    }
  }

  lemma KeepsOwners(w: World, w': World, i: CallId)
    requires OwnersOk(w) && Forward(w, w', i)
    ensures OwnersOk(w')
  {
  }

  lemma KeepsLogSilent(w: World, w': World, i: CallId)
    requires LogOk(w) && Forward(w, w', i) && Silent(w, w', i)
    ensures LogOk(w')
  {
    forall k | 0 <= k < |w'.commits| ensures Authored(w', w'.commits[k]) {
      assert Authored(w, w.commits[k]);
    }
  }

  lemma CommitAuthored(w: World, w': World, i: CallId, k: nat)
    requires LogOk(w) && Forward(w, w', i) && CommitsWhole(w, w', i) && k < |w'.commits|
    ensures Authored(w', w'.commits[k])
    ensures k < |w.commits| <==> w'.commits[k].call != i
  {
    if k < |w.commits| { assert Authored(w, w.commits[k]); }
  }

  lemma KeepsLogCommit(w: World, w': World, i: CallId)
    requires LogOk(w) && Forward(w, w', i) && CommitsWhole(w, w', i)
    ensures LogOk(w')
  {
    var n := w'.commits[|w.commits|];
    assert Legal(w'.commits) && w'.db == Rebuild(w'.commits) by {
      LegalExtend(w.commits, n);
    }
    forall k | 0 <= k < |w'.commits| ensures Authored(w', w'.commits[k]) {
      CommitAuthored(w, w', i, k);
    }
    forall k, m | 0 <= k < m < |w'.commits| ensures w'.commits[k].call != w'.commits[m].call {
      CommitAuthored(w, w', i, k);
      CommitAuthored(w, w', i, m);
    }
    forall j | j in w'.calls && w'.calls[j].pc.Finished? && w'.calls[j].pc.reply.Committed?
      ensures exists k :: 0 <= k < |w'.commits| && w'.commits[k].call == j
    {
      AcknowledgedInLog(w, w', i, j);
    }
  }

  lemma AcknowledgedInLog(w: World, w': World, i: CallId, j: CallId)
    requires LogOk(w) && Forward(w, w', i) && CommitsWhole(w, w', i)
    requires j in w'.calls && w'.calls[j].pc.Finished? && w'.calls[j].pc.reply.Committed?
    ensures exists k :: 0 <= k < |w'.commits| && w'.commits[k].call == j
  {
    if j == i {
      assert w'.commits[|w.commits|].call == i;
    } else {
      assert w'.calls[j] == w.calls[j];
      var k :| 0 <= k < |w.commits| && w.commits[k].call == j;
      assert w'.commits[k].call == j;
    }
  }

  lemma CallStepKeepsInv(w: World, i: CallId, o: Outcome, newId: CaseId)
    requires Inv(w) && i in w.calls
    ensures Shaped(w.calls[i])
    ensures var r := StepCall(w, i, o, newId); r.Some? ==> Inv(r.value)
  {
    assert Local(w, i);
    StepIsAtomicOrSilent(w, i, o, newId);
    var r := StepCall(w, i, o, newId);
    if r.Some? {
      var w' := r.value;
      KeepsCalls(w, w', i);
      KeepsPending(w, w', i);
      KeepsIds(w, w', i);
      KeepsOwners(w, w', i);
      if Silent(w, w', i) { KeepsLogSilent(w, w', i); } else { KeepsLogCommit(w, w', i); }
    }
  }

  /** The part of the world that calls work on. */
  ghost predicate SameCalls(w: World, w': World) {
    && w'.db == w.db && w'.nextId == w.nextId && w'.rowLock == w.rowLock
    && w'.keyLock == w.keyLock && w'.calls == w.calls && w'.commits == w.commits
  }

  lemma LocalSame(w: World, w': World, i: CallId)
    requires SameCalls(w, w') && Local(w, i)
    ensures Local(w', i)
  {
  }

  lemma FlushKeepsInv(w: World, w': World)
    requires Inv(w) && SameCalls(w, w')
    ensures Inv(w')
  {
    forall i | i in w'.calls ensures Local(w', i) {
      LocalSame(w, w', i);
    }
    forall k | 0 <= k < |w'.commits| ensures Authored(w', w'.commits[k]) {
      assert Authored(w, w.commits[k]);
    }
  }

  lemma ArriveLocal(w: World, i: CallId, args: Args, j: CallId)
    requires Inv(w) && i !in w.calls && (j in w.calls || j == i)
    ensures Local(Step(w, Arrive(i, args)).value, j)
  {
    if j in w.calls { assert Local(w, j); }
  }

  lemma ArriveLog(w: World, i: CallId, args: Args)
    requires LogOk(w) && i !in w.calls
    ensures LogOk(Step(w, Arrive(i, args)).value)
  {
    var w' := Step(w, Arrive(i, args)).value;
    forall k | 0 <= k < |w'.commits| ensures Authored(w', w'.commits[k]) {
      assert Authored(w, w.commits[k]);
    }
    forall j | j in w'.calls && w'.calls[j].pc.Finished? && w'.calls[j].pc.reply.Committed?
      ensures exists k :: 0 <= k < |w'.commits| && w'.commits[k].call == j
    {
      assert w'.calls[j] == w.calls[j];
    }
  }

  lemma ArriveRest(w: World, i: CallId, args: Args)
    requires PendingDistinct(w) && IdsBelow(w) && OwnersOk(w) && i !in w.calls
    ensures var w' := Step(w, Arrive(i, args)).value; PendingDistinct(w') && IdsBelow(w') && OwnersOk(w')
  {
    var w' := Step(w, Arrive(i, args)).value;
    assert PendingId(w'.calls[i]) == None;
    assert forall j :: j in w.calls ==> w'.calls[j] == w.calls[j];
  }

  lemma ArriveKeepsInv(w: World, i: CallId, args: Args)
    requires Inv(w) && i !in w.calls
    ensures Inv(Step(w, Arrive(i, args)).value)
  {
    var w' := Step(w, Arrive(i, args)).value;
    forall j | j in w'.calls ensures Local(w', j) {
      ArriveLocal(w, i, args, j);
    }
    ArriveLog(w, i, args);
    ArriveRest(w, i, args);
  }

  lemma EndFlushSame(w: World, f: FlushId, o: Outcome)
    requires f in w.flushes
    ensures SameCalls(w, StepFlushCommit(w, f, o)) && SameCalls(w, EndFlush(w, f, false))
  {
  }

  lemma ListSame(w: World, f: FlushId, o: Outcome)
    requires f in w.flushes
    ensures SameCalls(w, StepList(w, f, o))
  {
  }

  lemma FlushStepsSame(w: World, f: FlushId, o: Outcome)
    requires f in w.flushes && ShapedFlush(w.flushes[f])
    ensures var r := StepFlush(w, f, o); r.Some? ==> SameCalls(w, r.value)
  {
    EndFlushSame(w, f, o);
    ListSame(w, f, o);
  }

  lemma FlushSteps(w: World, a: Action)
    requires a.Tick? || a.RunFlush? || a.SessionLost?
    ensures Step(w, a).Some? ==> SameCalls(w, Step(w, a).value)
  {
    if a.RunFlush? && a.f in w.flushes && ShapedFlush(w.flushes[a.f]) {
      FlushStepsSame(w, a.f, a.o);
    }
  }

  /** Any action at all keeps the invariant. */
  lemma StepKeepsInv(w: World, a: Action)
    requires Inv(w)
    ensures Step(w, a).Some? ==> Inv(Step(w, a).value)
  {
    match a
    case Arrive(i, args) => if i !in w.calls { ArriveKeepsInv(w, i, args); }
    case Run(i, o, newId) => if i in w.calls { CallStepKeepsInv(w, i, o, newId); }
    case _ =>
      FlushSteps(w, a);
      if Step(w, a).Some? { FlushKeepsInv(w, Step(w, a).value); }
  }

  lemma StartInv()
    ensures Inv(START)
  {
  }

  /** In every reachable world the invariant holds: after any interleaving of any
      calls and flushes, with any statement or commit failing, the tables are those
      of the committed calls run one at a time. */
  lemma {:induction false} ReachableInv(ws: seq<World>, acts: seq<Action>, k: nat)
    requires IsRun(ws, acts) && k < |ws|
    ensures Inv(ws[k])
  {
    if k == 0 {
      StartInv();
    } else {
      ReachableInv(ws, acts, k - 1);
      StepKeepsInv(ws[k - 1], acts[k - 1]);
      assert Step(ws[k - 1], acts[k - 1]) == Some(ws[k]);
    }
  }
}
