/** What every interleaving keeps of the outbox: who holds which rows, what has been
    handed to nc.Publish, and which flush published what, with any number of
    publishers, failing statements and lost sessions. */
module Outbox {
  import opened Tables
  import opened Protocol
  import opened Safety

  // ------------------------------------------------------------ the listing

  /** The listed rows are in id order, unpublished and unlocked, and no earlier row
      that is free was passed over. */
  ghost predicate Listing(ob: seq<OutboxRow>, published: set<nat>, locks: map<nat, FlushId>,
        n: nat, rows: seq<OutboxRow>)
  {
    && |rows| <= n && Sorted(rows)
    && (forall r :: r in rows ==> r in ob && r.id !in published && r.id !in locks)
    && (forall j, r :: 0 <= j < |rows| && r in ob && r.id < rows[j].id && r.id !in published && r.id !in locks ==>
          r in rows[..j])
    && (|rows| < n ==> forall r :: r in ob && r.id !in published && r.id !in locks ==> r in rows)
  }

  lemma {:induction false} UnpublishedLists(ob: seq<OutboxRow>, published: set<nat>, locks: map<nat, FlushId>, n: nat)
    requires Sorted(ob)
    ensures Listing(ob, published, locks, n, Unpublished(ob, published, locks, n))
  {
    if ob != [] && n != 0 {
      var head, rest := ob[0], ob[1..];
      assert Sorted(rest);
      assert forall r :: r in ob ==> r == head || r in rest;
      if head.id in published || head.id in locks {
        UnpublishedLists(rest, published, locks, n);
      } else {
        UnpublishedLists(rest, published, locks, n - 1);
        ListingCons(ob, published, locks, n, Unpublished(rest, published, locks, n - 1));
      }
    }
  }

  lemma ConsMembers(head: OutboxRow, tail: seq<OutboxRow>, ob: seq<OutboxRow>)
    requires ob == [head] + tail
    ensures forall r :: r in ob <==> r == head || r in tail
  {
  }

  lemma ConsSorted(ob: seq<OutboxRow>, tail: seq<OutboxRow>)
    requires Sorted(ob) && ob != [] && Sorted(tail) && forall r :: r in tail ==> r in ob[1..]
    ensures Sorted([ob[0]] + tail) && forall r :: r in tail ==> ob[0].id < r.id
  {
    forall r | r in tail ensures ob[0].id < r.id {
      var k :| 0 <= k < |ob[1..]| && ob[1..][k] == r;
    }
  }

  /** Among the free rows those in front of a listed one are listed in front of it. */
  lemma ConsInFront(head: OutboxRow, tail: seq<OutboxRow>, rows: seq<OutboxRow>, j: nat, r: OutboxRow)
    requires rows == [head] + tail && 0 < j < |rows| && (r == head || r in tail[..j - 1])
    ensures r in rows[..j]
  {
    assert rows[..j] == [head] + tail[..j - 1];
  }

  lemma ListingCons(ob: seq<OutboxRow>, published: set<nat>, locks: map<nat, FlushId>, n: nat, tail: seq<OutboxRow>)
    requires Sorted(ob) && ob != [] && n != 0
    requires ob[0].id !in published && ob[0].id !in locks
    requires Listing(ob[1..], published, locks, n - 1, tail)
    ensures Listing(ob, published, locks, n, [ob[0]] + tail)
  {
    var head, rows := ob[0], [ob[0]] + tail;
    ConsMembers(head, ob[1..], ob);
    ConsMembers(head, tail, rows);
    ConsSorted(ob, tail);
    forall j, r | 0 <= j < |rows| && r in ob && r.id < rows[j].id && r.id !in published && r.id !in locks
      ensures r in rows[..j]
    {
      if j == 0 { FirstIsLeast(ob, r); }
      ConsInFront(head, tail, rows, j, r);
    }
  }

  lemma FirstIsLeast(ob: seq<OutboxRow>, r: OutboxRow)
    requires Sorted(ob) && r in ob
    ensures ob[0].id <= r.id
  {
    var k :| 0 <= k < |ob| && ob[k] == r;
  }

  // ------------------------------------------------------------- invariant

  ghost predicate LockedBy(locks: map<nat, FlushId>, f: FlushId, id: nat) {
    id in locks && locks[id] == f
  }

  /** One flush in order. */
  ghost predicate FlushOk(w: World, f: FlushId) {
    && f in w.flushes
    && var x := w.flushes[f];
       && x.k <= |x.rows|
       && (x.pc == FBegin || x.pc == FList ==> x.rows == [])
       && (x.pc == FPublish ==> x.k < |x.rows|)
       && (x.pc == FMark || x.pc == FCommit ==> x.k == |x.rows|)
       && Sorted(x.rows)
       && (forall r :: r in x.rows ==> r in w.db.outbox)
       && (x.pc != FDone && x.live ==> forall r :: r in x.rows ==> LockedBy(w.outLock, f, r.id) && r.id !in w.published)
       && (x.committed ==> x.pc == FDone && x.k == |x.rows| && Ids(x.rows) <= w.published)
       && (forall id :: LockedBy(w.outLock, f, id) ==> x.pc != FDone && x.live && id in Ids(x.rows))
  }

  /** The publishes of the log are those the flushes have made, each once. */
  ghost predicate SentOk(w: World) {
    && (forall s :: s in w.sent ==> s.flush in w.flushes && w.flushes[s.flush].k <= |w.flushes[s.flush].rows|
                                    && s.row in w.flushes[s.flush].rows[..w.flushes[s.flush].k])
    && (forall f, m :: f in w.flushes && 0 <= m < w.flushes[f].k <= |w.flushes[f].rows| ==>
          Sent(f, w.flushes[f].rows[m]) in w.sent)
    && (forall a, b :: 0 <= a < b < |w.sent| ==> w.sent[a] != w.sent[b])
  }

  /** A row is published by exactly one committed flush. */
  ghost predicate PublishedOk(w: World) {
    && (forall id :: id in w.published ==>
          exists f :: f in w.flushes && w.flushes[f].committed && id in Ids(w.flushes[f].rows))
    && (forall f, g ::
          f in w.flushes && g in w.flushes && f != g && w.flushes[f].committed && w.flushes[g].committed ==>
          Ids(w.flushes[f].rows) !! Ids(w.flushes[g].rows))
  }

  ghost predicate FlushesOk(w: World) {
    && (forall f :: f in w.flushes ==> FlushOk(w, f))
    && (forall id :: id in w.outLock ==> w.outLock[id] in w.flushes)
  }

  ghost predicate OutboxInv(w: World) {
    FlushesOk(w) && SentOk(w) && PublishedOk(w)
  }

  // --------------------------------------------------- steps of other kinds

  /** Calls add outbox rows, and change nothing that flushes work on. */
  ghost predicate SameFlushes(w: World, w': World) {
    && w'.published == w.published && w'.outLock == w.outLock && w'.flushes == w.flushes && w'.sent == w.sent
    && (forall r :: r in w.db.outbox ==> r in w'.db.outbox)
  }

  lemma KeepsOutboxInv(w: World, w': World)
    requires OutboxInv(w) && SameFlushes(w, w')
    ensures OutboxInv(w')
  {
    forall f | f in w'.flushes ensures FlushOk(w', f) {
      assert FlushOk(w, f);
    }
  }

  /** Calls do not touch what flushes work on. */
  ghost predicate FlushPartSame(w: World, w': World) {
    w'.published == w.published && w'.outLock == w.outLock && w'.flushes == w.flushes && w'.sent == w.sent
  }

  lemma InsertCaseFlushes(w: World, i: CallId, o: Outcome, newId: CaseId)
    requires i in w.calls && w.calls[i].args.Create?
    ensures var r := StepInsertCase(w, i, o, newId); r.Some? ==> FlushPartSame(w, r.value)
  {
  }

  lemma SelectCaseFlushes(w: World, i: CallId, o: Outcome)
    requires i in w.calls && w.calls[i].args.Transition?
    ensures var r := StepSelectCase(w, i, o); r.Some? ==> FlushPartSame(w, r.value)
  {
  }

  lemma IdemFlushes(w: World, i: CallId, o: Outcome)
    requires i in w.calls && w.calls[i].pc.AtIdem?
    ensures var r := StepIdem(w, i, o); r.Some? ==> FlushPartSame(w, r.value)
  {
  }

  lemma CommitFlushes(w: World, i: CallId, o: Outcome)
    requires i in w.calls && w.calls[i].pc.AtCommit?
    ensures FlushPartSame(w, StepCommit(w, i, o))
  {
  }

  lemma PlainFlushes(w: World, i: CallId, o: Outcome)
    requires i in w.calls && Shaped(w.calls[i]) && Plain(w.calls[i].pc)
    ensures FlushPartSame(w, StepPlain(w, i, o))
  {
  }

  lemma CallStepFlushes(w: World, i: CallId, o: Outcome, newId: CaseId)
    requires i in w.calls && Shaped(w.calls[i])
    ensures var r := StepCall(w, i, o, newId); r.Some? ==> FlushPartSame(w, r.value)
  {
    match w.calls[i].pc
    case AtOpen =>
      if w.calls[i].args.Create? { InsertCaseFlushes(w, i, o, newId); } else { SelectCaseFlushes(w, i, o); }
    case AtIdem(_, _) => IdemFlushes(w, i, o);
    case AtCommit(_, _) => CommitFlushes(w, i, o);
    case AtRollback(_) =>
    case Finished(_) =>
    case _ => PlainFlushes(w, i, o);
  }

  lemma CallStepSameFlushes(w: World, i: CallId, o: Outcome, newId: CaseId)
    requires Inv(w) && i in w.calls
    ensures Shaped(w.calls[i])
    ensures var r := StepCall(w, i, o, newId); r.Some? ==> SameFlushes(w, r.value)
  {
    assert Local(w, i);
    CallStepFlushes(w, i, o, newId);
    StepIsAtomicOrSilent(w, i, o, newId);
    var r := StepCall(w, i, o, newId);
    if r.Some? && !Silent(w, r.value, i) {
      var n := r.value.commits[|w.commits|];
      forall x | x in w.db.outbox ensures x in r.value.db.outbox {
        InsertMembers(w.db.outbox, OutboxRow(n.oid, n.effect.caseId, n.effect.msg), x);
      }
    }
  }

  // ------------------------------------------------------- steps of a flush

  /** What a step of flush f may change of what other flushes rely on. */
  ghost predicate FlushGuarantee(w: World, w': World, f: FlushId) {
    && w'.db == w.db && f in w'.flushes
    && w'.flushes.Keys == w.flushes.Keys + {f}
    && (forall g :: g in w.flushes && g != f ==> w'.flushes[g] == w.flushes[g])
    && (forall id :: id in w.outLock && w.outLock[id] != f ==> LockedBy(w'.outLock, w.outLock[id], id))
    && (forall id :: id in w'.outLock && w'.outLock[id] != f ==> LockedBy(w.outLock, w'.outLock[id], id))
    && w.published <= w'.published
    && (forall id :: id in w'.published ==> id in w.published || LockedBy(w.outLock, f, id))
  }

  lemma OtherFlushOk(w: World, w': World, f: FlushId, g: FlushId)
    requires FlushGuarantee(w, w', f) && FlushOk(w, g) && g != f
    ensures FlushOk(w', g)
  {
  }

  /** A step of f that neither publishes nor commits. */
  ghost predicate Quiet(w: World, w': World, f: FlushId) {
    && FlushGuarantee(w, w', f) && FlushOk(w', f)
    && w'.sent == w.sent && w'.published == w.published
    && !w'.flushes[f].committed
    && (f in w.flushes ==> w'.flushes[f].k == w.flushes[f].k
                           && (w'.flushes[f].rows == w.flushes[f].rows || w.flushes[f].k == 0))
    && (f !in w.flushes ==> w'.flushes[f].k == 0)
  }

  lemma KeepsFlushes(w: World, w': World, f: FlushId)
    requires FlushesOk(w) && FlushGuarantee(w, w', f) && FlushOk(w', f)
    ensures FlushesOk(w')
  {
    forall g | g in w'.flushes ensures FlushOk(w', g) {
      if g != f { OtherFlushOk(w, w', f, g); }
    }
  }

  lemma QuietSent(w: World, w': World, f: FlushId)
    requires OutboxInv(w) && Quiet(w, w', f)
    ensures SentOk(w')
  {
  }

  /** Nothing is newly published, and the committed flushes are the same. */
  lemma SameCommitted(w: World, w': World)
    requires PublishedOk(w) && w'.published == w.published
    requires forall g :: g in w.flushes && w.flushes[g].committed ==> g in w'.flushes && w'.flushes[g] == w.flushes[g]
    requires forall g :: g in w'.flushes && w'.flushes[g].committed ==> g in w.flushes && w'.flushes[g] == w.flushes[g]
    ensures PublishedOk(w')
  {
    forall id | id in w'.published
      ensures exists g :: g in w'.flushes && w'.flushes[g].committed && id in Ids(w'.flushes[g].rows)
    {
      var g :| g in w.flushes && w.flushes[g].committed && id in Ids(w.flushes[g].rows);
      assert w'.flushes[g] == w.flushes[g];
    }
  }

  lemma QuietPublished(w: World, w': World, f: FlushId)
    requires OutboxInv(w) && Quiet(w, w', f) && (f in w.flushes ==> !w.flushes[f].committed)
    ensures PublishedOk(w')
  {
    SameCommitted(w, w');
  }

  lemma QuietKeeps(w: World, w': World, f: FlushId)
    requires OutboxInv(w) && Quiet(w, w', f) && (f in w.flushes ==> !w.flushes[f].committed)
    ensures OutboxInv(w')
  {
    KeepsFlushes(w, w', f);
    QuietSent(w, w', f);
    QuietPublished(w, w', f);
  }

  lemma TickStep(w: World, f: FlushId)
    requires OutboxInv(w) && f !in w.flushes
    ensures Quiet(w, SetFlush(w, f, Flush(FBegin, [], 0, true, false)), f)
  {
    assert forall id :: !LockedBy(w.outLock, f, id);
  }

  lemma OpenFlush(w: World, f: FlushId)
    requires FlushOk(w, f) && w.flushes[f].pc != FDone
    ensures !w.flushes[f].committed
  {
  }

  lemma BeginStep(w: World, f: FlushId, o: Outcome)
    requires FlushOk(w, f) && w.flushes[f].pc == FBegin
    ensures Quiet(w, SetFlush(w, f, w.flushes[f].(pc := if o.Bad? then FDone else FList)), f)
  {
    NoRowsNoLocks(w, f);
  }

  lemma NoRowsNoLocks(w: World, f: FlushId)
    requires FlushOk(w, f) && w.flushes[f].rows == []
    ensures forall id :: id in w.outLock ==> w.outLock[id] != f
  {
    assert Ids(w.flushes[f].rows) == {};
    forall id | id in w.outLock ensures w.outLock[id] != f {
      assert !LockedBy(w.outLock, f, id);
    }
  }

  lemma LockAllLocks(locks: map<nat, FlushId>, rows: seq<OutboxRow>, f: FlushId)
    ensures var all := LockAll(locks, rows, f);
            && (forall r :: r in rows ==> r.id in all && all[r.id] == f)
            && (forall id :: id in all ==> id in Ids(rows) || (id in locks && all[id] == locks[id]))
            && (forall id :: id in locks && id !in Ids(rows) ==> id in all && all[id] == locks[id])
  {
    forall r | r in rows ensures r.id in Ids(rows) {
    }
  }

  lemma ListStep(w: World, f: FlushId, o: Outcome)
    requires FlushOk(w, f) && w.flushes[f].pc == FList && Sorted(w.db.outbox)
    ensures Quiet(w, StepList(w, f, o), f)
  {
    var rows := Unpublished(w.db.outbox, w.published, w.outLock, BATCH);
    NoRowsNoLocks(w, f);
    if !(o.Bad? || !w.flushes[f].live || rows == []) {
      UnpublishedLists(w.db.outbox, w.published, w.outLock, BATCH);
      ListHolds(w, f, rows);
    }
  }

  lemma ListHolds(w: World, f: FlushId, rows: seq<OutboxRow>)
    requires FlushOk(w, f) && w.flushes[f].pc == FList && w.flushes[f].live && rows != []
    requires Listing(w.db.outbox, w.published, w.outLock, BATCH, rows)
    requires forall id :: id in w.outLock ==> w.outLock[id] != f
    ensures Quiet(w, SetFlush(w, f, w.flushes[f].(pc := FPublish, rows := rows))
             .(outLock := LockAll(w.outLock, rows, f)), f)
  {
    LockAllLocks(w.outLock, rows, f);
  }

  lemma MarkStep(w: World, f: FlushId, o: Outcome)
    requires FlushOk(w, f) && w.flushes[f].pc == FMark
    ensures Quiet(w, StepMark(w, f, o), f)
  {
  }

  lemma EndStep(w: World, f: FlushId)
    requires FlushOk(w, f) && w.flushes[f].pc != FDone
    ensures Quiet(w, EndFlush(w, f, false), f)
  {
  }

  lemma LostStep(w: World, f: FlushId)
    requires FlushOk(w, f)
    ensures StepLost(w, f).Some? ==> w.flushes[f].pc != FDone && Quiet(w, StepLost(w, f).value, f)
  {
  }

  /** nc.Publish of the next listed row, once for this flush. */
  lemma PublishStep(w: World, f: FlushId)
    requires FlushOk(w, f) && w.flushes[f].pc == FPublish
    ensures var w' := StepPublish(w, f, Good);
            && FlushGuarantee(w, w', f) && FlushOk(w', f)
            && w'.published == w.published && !w'.flushes[f].committed
            && w'.sent == w.sent + [Sent(f, w.flushes[f].rows[w.flushes[f].k])]
            && w'.flushes[f].rows == w.flushes[f].rows && w'.flushes[f].k == w.flushes[f].k + 1
  {
  }

  lemma PublishFails(w: World, f: FlushId)
    requires FlushOk(w, f) && w.flushes[f].pc == FPublish
    ensures Quiet(w, StepPublish(w, f, Bad), f)
  {
  }

  lemma PublishSent(w: World, w': World, f: FlushId)
    requires OutboxInv(w) && FlushOk(w, f) && w.flushes[f].k < |w.flushes[f].rows|
    requires FlushGuarantee(w, w', f)
    requires w'.sent == w.sent + [Sent(f, w.flushes[f].rows[w.flushes[f].k])]
    requires w'.flushes[f].rows == w.flushes[f].rows && w'.flushes[f].k == w.flushes[f].k + 1
    ensures SentOk(w')
  {
    var x := w.flushes[f];
    var s := Sent(f, x.rows[x.k]);
    assert s.row !in x.rows[..x.k];
    assert x.rows[..x.k + 1] == x.rows[..x.k] + [x.rows[x.k]];
    forall g, m | g in w'.flushes && 0 <= m < w'.flushes[g].k <= |w'.flushes[g].rows|
      ensures Sent(g, w'.flushes[g].rows[m]) in w'.sent
    {
      if g == f && m == x.k { assert w'.sent[|w.sent|] == s; }
    }
  }

  lemma PublishPublished(w: World, w': World, f: FlushId)
    requires PublishedOk(w) && FlushGuarantee(w, w', f) && w'.published == w.published
    requires f in w.flushes && !w.flushes[f].committed && !w'.flushes[f].committed
    ensures PublishedOk(w')
  {
    SameCommitted(w, w');
  }

  lemma CommitFlushStep(w: World, f: FlushId)
    requires FlushOk(w, f) && w.flushes[f].pc == FCommit && w.flushes[f].live
    ensures var w' := StepFlushCommit(w, f, Good);
            && FlushGuarantee(w, w', f) && FlushOk(w', f)
            && w'.sent == w.sent && w'.published == w.published + Ids(w.flushes[f].rows)
            && w'.flushes[f] == w.flushes[f].(pc := FDone, committed := true)
            && Ids(w.flushes[f].rows) !! w.published
  {
  }

  lemma CommitPublished(w: World, w': World, f: FlushId)
    requires FlushesOk(w) && PublishedOk(w) && FlushGuarantee(w, w', f) && f in w.flushes
    requires w'.published == w.published + Ids(w.flushes[f].rows) && Ids(w.flushes[f].rows) !! w.published
    requires w'.flushes[f].rows == w.flushes[f].rows && w'.flushes[f].committed && !w.flushes[f].committed
    ensures PublishedOk(w')
  {
    forall id | id in w'.published
      ensures exists g :: g in w'.flushes && w'.flushes[g].committed && id in Ids(w'.flushes[g].rows)
    {
      if id in w.published {
        var g :| g in w.flushes && w.flushes[g].committed && id in Ids(w.flushes[g].rows);
        assert w'.flushes[g] == w.flushes[g];
      }
    }
    forall g | g in w.flushes && w.flushes[g].committed ensures Ids(w.flushes[g].rows) <= w.published {
      assert FlushOk(w, g);
    }
  }

  lemma CommitSent(w: World, w': World, f: FlushId)
    requires SentOk(w) && FlushGuarantee(w, w', f) && w'.sent == w.sent && f in w.flushes
    requires w'.flushes[f].rows == w.flushes[f].rows && w'.flushes[f].k == w.flushes[f].k
    ensures SentOk(w')
  {
  }

  lemma PublishKeeps(w: World, f: FlushId, o: Outcome)
    requires OutboxInv(w) && f in w.flushes && FlushOk(w, f) && w.flushes[f].pc == FPublish
    ensures OutboxInv(StepPublish(w, f, o))
  {
    OpenFlush(w, f);
    if o.Bad? {
      PublishFails(w, f);
      QuietKeeps(w, StepPublish(w, f, o), f);
    } else {
      PublishStep(w, f);
      PublishSent(w, StepPublish(w, f, Good), f);
      PublishPublished(w, StepPublish(w, f, Good), f);
      KeepsFlushes(w, StepPublish(w, f, Good), f);
    }
  }

  lemma CommitKeeps(w: World, f: FlushId, o: Outcome)
    requires OutboxInv(w) && f in w.flushes && FlushOk(w, f) && w.flushes[f].pc == FCommit
    ensures OutboxInv(StepFlushCommit(w, f, o))
  {
    OpenFlush(w, f);
    if o.Bad? || !w.flushes[f].live {
      EndStep(w, f);
      QuietKeeps(w, EndFlush(w, f, false), f);
    } else {
      CommitFlushStep(w, f);
      CommitPublished(w, StepFlushCommit(w, f, Good), f);
      CommitSent(w, StepFlushCommit(w, f, Good), f);
      KeepsFlushes(w, StepFlushCommit(w, f, Good), f);
    }
  }

  lemma FlushStepKeeps(w: World, f: FlushId, o: Outcome)
    requires OutboxInv(w) && f in w.flushes && Sorted(w.db.outbox)
    ensures ShapedFlush(w.flushes[f])
    ensures var r := StepFlush(w, f, o); r.Some? ==> OutboxInv(r.value)
  {
    assert FlushOk(w, f);
    if w.flushes[f].pc != FDone { OpenFlush(w, f); }
    match w.flushes[f].pc
    case FBegin =>
      BeginStep(w, f, o);
      QuietKeeps(w, StepFlush(w, f, o).value, f);
    case FList =>
      ListStep(w, f, o);
      QuietKeeps(w, StepList(w, f, o), f);
    case FPublish => PublishKeeps(w, f, o);
    case FMark =>
      MarkStep(w, f, o);
      QuietKeeps(w, StepMark(w, f, o), f);
    case FCommit => CommitKeeps(w, f, o);
    case FRollback =>
      EndStep(w, f);
      QuietKeeps(w, EndFlush(w, f, false), f);
    case FDone =>
  }
}
