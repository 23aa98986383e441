/** Exactly when a listing puts the messages of a case out of order. */
module ListingOrder {
  import opened Wrappers
  import opened Tables
  import opened History
  import opened Protocol
  import opened Safety
  import opened Outbox
  import opened Delivery
  import opened Draining

  /** However far flush f goes on by itself, delivery is in order. */
  ghost predicate StaysInOrder(w: World, f: FlushId) {
    forall n: nat :: Exec(w, Steps(f, n)).Some? ==> InOrder(Exec(w, Steps(f, n)).value)
  }

  // ------------------------------------------------------ nothing overtaken

  lemma StepsLast(w: World, f: FlushId, n: nat)
    ensures Exec(w, Steps(f, n + 1))
         == match Exec(w, Steps(f, n)) case None => None case Some(v) => Step(v, RunFlush(f, Good))
  {
    var all := Steps(f, n + 1);
    assert all == Steps(f, n) + [RunFlush(f, Good)];
    assert all[..|all| - 1] == Steps(f, n);
  }

  /** What holds after the listing, as long as f goes on. */
  ghost predicate Going(w: World, f: FlushId) {
    Inv(w) && OutboxInv(w) && OrderInv(w) && f in w.flushes && w.flushes[f].pc != FBegin && w.flushes[f].pc != FList
  }

  lemma NeverListsAgain(w: World, f: FlushId)
    requires f in w.flushes && ShapedFlush(w.flushes[f]) && w.flushes[f].pc != FBegin
    ensures var r := StepFlush(w, f, Good);
            r.Some? ==> f in r.value.flushes && r.value.flushes[f].pc != FBegin && r.value.flushes[f].pc != FList
  {
  }

  lemma RunIsStepFlush(w: World, f: FlushId)
    requires FlushOk(w, f)
    ensures ShapedFlush(w.flushes[f]) && Step(w, RunFlush(f, Good)) == StepFlush(w, f, Good)
  {
  }

  lemma GoesOn(w: World, f: FlushId)
    requires Inv(w) && OutboxInv(w) && OrderInv(w) && f in w.flushes && w.flushes[f].pc != FBegin
    requires w.flushes[f].pc == FList ==> NoOvertake(w)
    ensures Step(w, RunFlush(f, Good)).Some? ==> Going(Step(w, RunFlush(f, Good)).value, f)
  {
    var a := RunFlush(f, Good);
    RunIsStepFlush(w, f);
    NeverListsAgain(w, f);
    StepKeepsInv(w, a);
    StepKeepsOutbox(w, a);
    StepKeepsOrder(w, a);
  }

  lemma {:induction false} StepsGo(w: World, f: FlushId, n: nat)
    requires Inv(w) && OutboxInv(w) && OrderInv(w) && f in w.flushes && w.flushes[f].pc == FList && NoOvertake(w)
    requires n > 0
    ensures Exec(w, Steps(f, n)).Some? ==> Going(Exec(w, Steps(f, n)).value, f)
  {
    StepsLast(w, f, n - 1);
    if n == 1 {
      GoesOn(w, f);
    } else {
      StepsGo(w, f, n - 1);
      if Exec(w, Steps(f, n - 1)).Some? { GoesOn(Exec(w, Steps(f, n - 1)).value, f); }
    }
  }

  // ---------------------------------------------------- something overtaken

  /** The world in which a live flush that is about to list stands. */
  lemma AboutToList(w: World, f: FlushId)
    requires OutboxInv(w) && f in w.flushes && w.flushes[f].pc == FList && w.flushes[f].live
    ensures w == SetFlush(w, f, Flush(FList, [], 0, true, false))
  {
    assert FlushOk(w, f);
    assert w.flushes[f] == Flush(FList, [], 0, true, false);
  }

  lemma OneListing(w: World, f: FlushId, rows: seq<OutboxRow>)
    requires w == SetFlush(w, f, Flush(FList, [], 0, true, false))
    requires rows == Unpublished(w.db.outbox, w.published, w.outLock, BATCH) && rows != []
    ensures Step(w, RunFlush(f, Good)) == Some(Handed(w, f, rows, 0))
  {
    ListsAlone(w, f, rows);
  }

  lemma StepsNext(w: World, f: FlushId, n: nat, v: World, u: World)
    requires Exec(w, Steps(f, n)) == Some(v) && Step(v, RunFlush(f, Good)) == Some(u)
    ensures Exec(w, Steps(f, n + 1)) == Some(u)
  {
    StepsLast(w, f, n);
  }

  lemma {:induction false} ListedThenHanded(w: World, f: FlushId, rows: seq<OutboxRow>, j: nat)
    requires Step(w, RunFlush(f, Good)) == Some(Handed(w, f, rows, 0)) && j <= |rows|
    ensures Exec(w, Steps(f, j + 1)) == Some(Handed(w, f, rows, j))
  {
    if j == 0 {
      StepsNext(w, f, 0, w, Handed(w, f, rows, 0));
    } else {
      ListedThenHanded(w, f, rows, j - 1);
      HandNext(w, f, rows, j - 1);
      StepsNext(w, f, j, Handed(w, f, rows, j - 1), Handed(w, f, rows, j));
    }
  }

  /** A later row is out and an earlier one of its case is not: no prefix. */
  lemma OutOfOrderWith(w: World, early: OutboxRow, late: OutboxRow)
    requires Sorted(w.db.outbox) && early in w.db.outbox && late in w.db.outbox
    requires early.caseId == late.caseId && early.id < late.id
    requires forall k :: 0 <= k < |w.sent| ==> w.sent[k].row in w.db.outbox
    requires GoneOut(w.sent, late) && !GoneOut(w.sent, early)
    ensures !InOrder(w)
  {
    var c, ob := late.caseId, w.db.outbox;
    var d, all := Delivered(w.sent, c), Items(ob, c);
    GoneOutDelivered(w.sent, late);
    NotDelivered(w, early);
    ItemsSorted(ob, c);
    ItemsAreRows(ob, c, Item(early.id, early.payload));
    var q :| 0 <= q < |all| && all[q] == Item(early.id, early.payload);
    var p :| 0 <= p < |d| && d[p].id == late.id;
    if InOrder(w) {
      assert d <= all;
      PrefixHolds(d, all, p, q);
    }
  }

  lemma PrefixHolds(d: seq<Item>, all: seq<Item>, p: nat, q: nat)
    requires d <= all && p < |d| && q < |all| && all[q].id < d[p].id
    requires forall i, j :: 0 <= i < j < |all| ==> all[i].id < all[j].id
    ensures HasId(d, all[q].id)
  {
    assert d[p] == all[p];
    assert q < p;
    assert d[q] == all[q];
  }

  lemma NotDelivered(w: World, r: OutboxRow)
    requires Sorted(w.db.outbox) && r in w.db.outbox && !GoneOut(w.sent, r)
    requires forall k :: 0 <= k < |w.sent| ==> w.sent[k].row in w.db.outbox
    ensures !HasId(Delivered(w.sent, r.caseId), r.id)
  {
    DeliveredIds(w.sent, r.caseId, r.id);
    if s :| s in w.sent && s.row.caseId == r.caseId && s.row.id == r.id {
      SameIdSameRow(w.db.outbox, s.row, r);
      SentGoneOut(w.sent, s);
    }
  }

  lemma SentAreRows(w: World)
    requires OutboxInv(w)
    ensures forall k :: 0 <= k < |w.sent| ==> w.sent[k].row in w.db.outbox
  {
    forall k | 0 <= k < |w.sent| ensures w.sent[k].row in w.db.outbox {
      assert w.sent[k] in w.sent;
      assert FlushOk(w, w.sent[k].flush);
    }
  }

  lemma HandedRows(w: World, f: FlushId, rows: seq<OutboxRow>, j: nat, k: nat)
    requires j < |rows| && k < |Handed(w, f, rows, j + 1).sent|
    ensures var v := Handed(w, f, rows, j + 1);
            if k < |w.sent| then v.sent[k] == w.sent[k] else v.sent[k].row in rows
    ensures var v := Handed(w, f, rows, j + 1); v.db == w.db && GoneOut(v.sent, rows[j])
  {
    var v := Handed(w, f, rows, j + 1);
    if k >= |w.sent| { assert v.sent[k].row == rows[k - |w.sent|]; }
    assert v.sent[|w.sent| + j].row == rows[j];
  }

  /** A listing that overtakes: once its row is out, the case is out of order. */
  lemma OvertakenRow(w: World, f: FlushId, rows: seq<OutboxRow>, j: nat, early: OutboxRow)
    requires OutboxInv(w) && Sorted(w.db.outbox)
    requires j < |rows| && forall r :: r in rows ==> r in w.db.outbox && r.id !in w.outLock
    requires early in w.db.outbox && early.caseId == rows[j].caseId && early.id < rows[j].id
    requires !GoneOut(w.sent, early) && early.id in w.outLock
    ensures !InOrder(Handed(w, f, rows, j + 1))
  {
    var v := Handed(w, f, rows, j + 1);
    SentAreRows(w);
    forall k | 0 <= k < |v.sent| ensures v.sent[k].row in w.db.outbox && v.sent[k].row != early {
      HandedRows(w, f, rows, j, k);
    }
    HandedRows(w, f, rows, j, |v.sent| - 1);
    OutOfOrderWith(v, early, rows[j]);
  }

  /** A listed row and one of its case that it overtakes. */
  lemma Overtaken(w: World) returns (rows: seq<OutboxRow>, j: nat, early: OutboxRow)
    requires Sorted(w.db.outbox) && !NoOvertake(w)
    ensures rows == Unpublished(w.db.outbox, w.published, w.outLock, BATCH) && j < |rows|
    ensures forall r :: r in rows ==> r in w.db.outbox && r.id !in w.outLock
    ensures early in w.db.outbox && early.caseId == rows[j].caseId && early.id < rows[j].id
    ensures !GoneOut(w.sent, early) && early.id in w.outLock
  {
    rows := Unpublished(w.db.outbox, w.published, w.outLock, BATCH);
    UnpublishedLists(w.db.outbox, w.published, w.outLock, BATCH);
    var r, e :| r in rows && e in w.db.outbox && e.caseId == r.caseId && e.id < r.id
                && !GoneOut(w.sent, e) && e.id in w.outLock;
    j :| 0 <= j < |rows| && rows[j] == r;
    early := e;
  }

  lemma OvertakingBreaksOrder(w: World, f: FlushId)
    requires OutboxInv(w) && Sorted(w.db.outbox) && f in w.flushes && w.flushes[f].pc == FList && w.flushes[f].live
    requires !NoOvertake(w)
    ensures !StaysInOrder(w, f)
  {
    var rows, j, early := Overtaken(w);
    AboutToList(w, f);
    OneListing(w, f, rows);
    ListedThenHanded(w, f, rows, j + 1);
    OvertakenRow(w, f, rows, j, early);
  }

  /** As long as no listing has overtaken yet: a live flush that lists now, however far it
      goes on by itself, leaves every case in order if and only if this listing passes over
      no earlier row of a case it lists that is held and has not gone out. */
  lemma OrderExactly(ws: seq<World>, acts: seq<Action>, k: nat, f: FlushId)
    requires IsRun(ws, acts) && k < |ws|
    requires forall j :: 0 <= j < k && Lists(ws[j], acts[j]) ==> NoOvertake(ws[j])
    requires f in ws[k].flushes && ws[k].flushes[f].pc == FList && ws[k].flushes[f].live
    ensures StaysInOrder(ws[k], f) <==> NoOvertake(ws[k])
  {
    var w := ws[k];
    ReachableInv(ws, acts, k);
    ReachableOutbox(ws, acts, k);
    OutboxSorted(w.commits);
    if NoOvertake(w) {
      InOrderWithoutOvertaking(ws, acts, k);
      forall n: nat | Exec(w, Steps(f, n)).Some? ensures InOrder(Exec(w, Steps(f, n)).value) {
        if n > 0 { StepsGo(w, f, n); }
      }
    } else {
      OvertakingBreaksOrder(w, f);
    }
  }
}
