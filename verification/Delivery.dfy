/** Delivery: which flush publishes which row, how often, and in what order. */
module Delivery {
  import opened Tables
  import opened History
  import opened Protocol
  import opened Safety
  import opened StoreTheorems
  import opened Outbox

  lemma StepKeepsOutbox(w: World, a: Action)
    requires Inv(w) && OutboxInv(w)
    ensures Step(w, a).Some? ==> OutboxInv(Step(w, a).value)
  {
    match a
    case Arrive(_, _) => if Step(w, a).Some? { KeepsOutboxInv(w, Step(w, a).value); }
    case Run(i, o, newId) =>
      if i in w.calls {
        CallStepSameFlushes(w, i, o, newId);
        if Step(w, a).Some? { KeepsOutboxInv(w, Step(w, a).value); }
      }
    case Tick(f) =>
      if f !in w.flushes {
        TickStep(w, f);
        QuietKeeps(w, Step(w, a).value, f);
      }
    case RunFlush(f, o) =>
      if f in w.flushes {
        OutboxSorted(w.commits);
        FlushStepKeeps(w, f, o);
      }
    case SessionLost(f) =>
      if Step(w, a).Some? {
        LostStep(w, f);
        OpenFlush(w, f);
        QuietKeeps(w, Step(w, a).value, f);
      }
  }

  lemma StartOutbox()
    ensures OutboxInv(START)
  {
  }

  lemma {:induction false} ReachableOutbox(ws: seq<World>, acts: seq<Action>, k: nat)
    requires IsRun(ws, acts) && k < |ws|
    ensures OutboxInv(ws[k])
  {
    if k == 0 {
      StartOutbox();
    } else {
      ReachableOutbox(ws, acts, k - 1);
      ReachableInv(ws, acts, k - 1);
      StepKeepsOutbox(ws[k - 1], acts[k - 1]);
    }
  }

  // ------------------------------------------------------ who publishes what

  /** The flush has an open session, with the locks of its rows. */
  predicate Holding(x: Flush) {
    x.pc != FDone && x.live
  }

  /** With any number of publishers no row is held by two open sessions, and none is
      published by two committed flushes. */
  lemma RowsHeldOnce(ws: seq<World>, acts: seq<Action>, k: nat, f: FlushId, g: FlushId)
    requires IsRun(ws, acts) && k < |ws| && f in ws[k].flushes && g in ws[k].flushes && f != g
    requires var x, y := ws[k].flushes[f], ws[k].flushes[g];
             (Holding(x) && Holding(y)) || (x.committed && y.committed)
    ensures Ids(ws[k].flushes[f].rows) !! Ids(ws[k].flushes[g].rows)
  {
    ReachableOutbox(ws, acts, k);
    assert FlushOk(ws[k], f) && FlushOk(ws[k], g);
    if Holding(ws[k].flushes[f]) {
      forall id | id in Ids(ws[k].flushes[f].rows) ensures id !in Ids(ws[k].flushes[g].rows) {
        assert LockedBy(ws[k].outLock, f, id);
      }
    }
  }

  /** The flushes that have handed a row to nc.Publish. */
  ghost function Senders(w: World, id: nat): set<FlushId> {
    set f | f in w.flushes && w.flushes[f].k <= |w.flushes[f].rows| && id in Ids(w.flushes[f].rows[..w.flushes[f].k])
  }

  function PublishCount(sent: seq<Sent>, id: nat): nat {
    if sent == [] then 0
    else PublishCount(sent[..|sent| - 1], id) + if sent[|sent| - 1].row.id == id then 1 else 0
  }

  function SendersIn(sent: seq<Sent>, id: nat): set<FlushId> {
    set s | s in sent && s.row.id == id :: s.flush
  }

  lemma {:induction false} CountIsSenders(sent: seq<Sent>, id: nat)
    requires forall a, b :: 0 <= a < b < |sent| && sent[a].row.id == id && sent[b].row.id == id ==>
             sent[a].flush != sent[b].flush
    ensures PublishCount(sent, id) == |SendersIn(sent, id)|
  {
    if sent == [] {
      assert SendersIn(sent, id) == {};
    } else {
      var front, last := sent[..|sent| - 1], sent[|sent| - 1];
      CountIsSenders(front, id);
      assert sent == front + [last];
      if last.row.id == id {
        assert SendersIn(sent, id) == SendersIn(front, id) + {last.flush};
        assert last.flush !in SendersIn(front, id);
      } else {
        assert SendersIn(sent, id) == SendersIn(front, id);
      }
    }
  }

  lemma SendersAgree(w: World, id: nat)
    requires OutboxInv(w)
    ensures SendersIn(w.sent, id) == Senders(w, id)
  {
    forall f | f in Senders(w, id) ensures f in SendersIn(w.sent, id) {
      var x := w.flushes[f];
      var r :| r in x.rows[..x.k] && r.id == id;
      var m :| 0 <= m < |x.rows[..x.k]| && x.rows[..x.k][m] == r;
      assert Sent(f, x.rows[m]) in w.sent;
    }
    forall f | f in SendersIn(w.sent, id) ensures f in Senders(w, id) {
      var s :| s in w.sent && s.row.id == id && s.flush == f;
    }
  }

  lemma OncePerFlush(w: World, a: nat, b: nat)
    requires OutboxInv(w) && a < b < |w.sent| && w.sent[a].flush == w.sent[b].flush
    ensures w.sent[a].row.id != w.sent[b].row.id
  {
    var f := w.sent[a].flush;
    assert w.sent[a] in w.sent && w.sent[b] in w.sent;
    assert FlushOk(w, f);
    var rows := w.flushes[f].rows;
    var m :| 0 <= m < |rows| && rows[m] == w.sent[a].row;
    var n :| 0 <= n < |rows| && rows[n] == w.sent[b].row;
  }

  lemma CountSenders(w: World, id: nat)
    requires OutboxInv(w)
    ensures PublishCount(w.sent, id) == |Senders(w, id)|
  {
    forall a, b | 0 <= a < b < |w.sent| && w.sent[a].row.id == id && w.sent[b].row.id == id
      ensures w.sent[a].flush != w.sent[b].flush
    {
      if w.sent[a].flush == w.sent[b].flush { OncePerFlush(w, a, b); }
    }
    CountIsSenders(w.sent, id);
    SendersAgree(w, id);
  }

  /** A flush that sent the row and committed, the only one. */
  ghost predicate ThePublisher(w: World, id: nat, f: FlushId) {
    && f in Senders(w, id) && w.flushes[f].committed
    && Senders(w, id) == Undone(w, id) + {f}
  }

  ghost predicate Accounted(w: World, id: nat) {
    && PublishCount(w.sent, id) == |Undone(w, id)| + (if id in w.published then 1 else 0)
    && (if id in w.published then exists f :: ThePublisher(w, id, f) else Senders(w, id) == Undone(w, id))
  }

  lemma PublishedAccounted(w: World, id: nat)
    requires OutboxInv(w) && id in w.published
    ensures Accounted(w, id)
  {
    CountSenders(w, id);
    var f := CommittedSender(w, id);
    assert ThePublisher(w, id, f);
  }

  lemma UnpublishedAccounted(w: World, id: nat)
    requires OutboxInv(w) && id !in w.published
    ensures Accounted(w, id)
  {
    CountSenders(w, id);
    UnpublishedSenders(w, id);
  }

  /** In every reachable world, for every row: the number of times it went to
      nc.Publish is the number of flushes that sent it.  If it is published, exactly one
      of those flushes is committed, so the count is one plus the flushes that sent it
      without committing; if it is not, none of them is. */
  lemma PublishAccounting(ws: seq<World>, acts: seq<Action>, k: nat, id: nat)
    requires IsRun(ws, acts) && k < |ws|
    ensures Accounted(ws[k], id)
  {
    ReachableOutbox(ws, acts, k);
    if id in ws[k].published { PublishedAccounted(ws[k], id); } else { UnpublishedAccounted(ws[k], id); }
  }

  lemma CommittedSenderSent(w: World, f: FlushId, id: nat)
    requires OutboxInv(w) && f in w.flushes && w.flushes[f].committed
    ensures f in Senders(w, id) <==> id in Ids(w.flushes[f].rows)
    ensures f in Senders(w, id) ==> id in w.published
  {
    assert FlushOk(w, f);
    assert w.flushes[f].rows[..|w.flushes[f].rows|] == w.flushes[f].rows;
  }

  ghost function Undone(w: World, id: nat): set<FlushId> {
    set f | f in Senders(w, id) && !w.flushes[f].committed
  }

  lemma CommittedSender(w: World, id: nat) returns (f: FlushId)
    requires OutboxInv(w) && id in w.published
    ensures f in Senders(w, id) && w.flushes[f].committed && f !in Undone(w, id)
    ensures Senders(w, id) == Undone(w, id) + {f}
  {
    f :| f in w.flushes && w.flushes[f].committed && id in Ids(w.flushes[f].rows);
    forall g | g in Senders(w, id) && w.flushes[g].committed ensures g == f {
      CommittedSenderSent(w, g, id);
    }
    CommittedSenderSent(w, f, id);
  }

  lemma UnpublishedSenders(w: World, id: nat)
    requires OutboxInv(w) && id !in w.published
    ensures Senders(w, id) == Undone(w, id)
  {
    forall g | g in Senders(w, id) ensures !w.flushes[g].committed {
      if w.flushes[g].committed { CommittedSenderSent(w, g, id); }
    }
  }

  // ---------------------------------------------------------------- ordering

  ghost predicate HasId(items: seq<Item>, id: nat) {
    exists m :: 0 <= m < |items| && items[m].id == id
  }

  /** The messages of a case handed to nc.Publish, repeats of a row id dropped. */
  ghost function Delivered(sent: seq<Sent>, c: CaseId): seq<Item> {
    if sent == [] then []
    else
      var before, r := Delivered(sent[..|sent| - 1], c), sent[|sent| - 1].row;
      if r.caseId != c || HasId(before, r.id) then before else before + [Item(r.id, r.payload)]
  }

  lemma {:induction false} DeliveredIds(sent: seq<Sent>, c: CaseId, id: nat)
    ensures HasId(Delivered(sent, c), id) <==> exists s :: s in sent && s.row.caseId == c && s.row.id == id
  {
    if sent != [] {
      var front, last := sent[..|sent| - 1], sent[|sent| - 1];
      DeliveredIds(front, c, id);
      assert sent == front + [last];
      var before, all := Delivered(front, c), Delivered(sent, c);
      if HasId(before, id) {
        var m :| 0 <= m < |before| && before[m].id == id;
        assert all[m].id == id;
      }
      if last.row.caseId == c && last.row.id == id && !HasId(before, id) {
        assert all[|before|].id == id;
      }
      if HasId(all, id) && !HasId(before, id) {
        var m :| 0 <= m < |all| && all[m].id == id;
        assert m == |before|;
      }
    }
  }

  /** The row has been handed to nc.Publish. */
  ghost predicate GoneOut(sent: seq<Sent>, r: OutboxRow) {
    exists k :: 0 <= k < |sent| && sent[k].row == r
  }

  /** Listing now passes over no earlier row of a case it lists a row of that another flush
      holds and that has not gone out. */
  ghost predicate NoOvertake(w: World) {
    var rows := Unpublished(w.db.outbox, w.published, w.outLock, BATCH);
    forall r, early :: r in rows && early in w.db.outbox && early.caseId == r.caseId && early.id < r.id ==>
      GoneOut(w.sent, early) || early.id !in w.outLock
  }

  /** The action is a listing that comes through. */
  ghost predicate Lists(w: World, a: Action) {
    a.RunFlush? && a.f in w.flushes && w.flushes[a.f].pc == FList && w.flushes[a.f].live && !a.o.Bad?
  }

  /** Whatever precedes a listed row in its case has gone out or is listed before it. */
  ghost predicate NoGaps(w: World, rows: seq<OutboxRow>) {
    forall j, early ::
      0 <= j < |rows| && early in w.db.outbox && early.caseId == rows[j].caseId && early.id < rows[j].id ==>
        GoneOut(w.sent, early) || early in rows[..j]
  }

  ghost predicate InOrder(w: World) {
    forall c :: Delivered(w.sent, c) <= Items(w.db.outbox, c)
  }

  ghost predicate OrderInv(w: World) {
    && (forall f :: f in w.flushes ==> NoGaps(w, w.flushes[f].rows))
    && InOrder(w)
  }

  lemma ItemsSorted(ob: seq<OutboxRow>, c: CaseId)
    requires Sorted(ob)
    ensures forall i, j :: 0 <= i < j < |Items(ob, c)| ==> Items(ob, c)[i].id < Items(ob, c)[j].id
  {
    if ob != [] {
      var front, last := ob[..|ob| - 1], ob[|ob| - 1];
      ItemsSorted(front, c);
      forall it | it in Items(front, c) ensures it.id < last.id {
        ItemsAreRows(front, c, it);
      }
    }
  }

  lemma SameIdSameRow(ob: seq<OutboxRow>, r: OutboxRow, s: OutboxRow)
    requires Sorted(ob) && r in ob && s in ob && r.id == s.id
    ensures r == s
  {
    var i :| 0 <= i < |ob| && ob[i] == r;
    var j :| 0 <= j < |ob| && ob[j] == s;
  }

  /** A published row has gone out. */
  lemma PublishedGoneOut(w: World, r: OutboxRow)
    requires OutboxInv(w) && Sorted(w.db.outbox) && r in w.db.outbox && r.id in w.published
    ensures GoneOut(w.sent, r)
  {
    var f := CommittedSender(w, r.id);
    SendersAgree(w, r.id);
    assert f in SendersIn(w.sent, r.id);
    var k :| 0 <= k < |w.sent| && w.sent[k].row.id == r.id;
    assert w.sent[k] in w.sent;
    assert FlushOk(w, w.sent[k].flush);
    SameIdSameRow(w.db.outbox, w.sent[k].row, r);
  }

  lemma SentGoneOut(sent: seq<Sent>, s: Sent)
    requires s in sent
    ensures GoneOut(sent, s.row)
  {
    var k :| 0 <= k < |sent| && sent[k] == s;
  }

  lemma GoneOutDelivered(sent: seq<Sent>, r: OutboxRow)
    requires GoneOut(sent, r)
    ensures HasId(Delivered(sent, r.caseId), r.id)
  {
    var k :| 0 <= k < |sent| && sent[k].row == r;
    assert sent[k] in sent;
    DeliveredIds(sent, r.caseId, r.id);
  }

  /** All earlier messages of the case of the row that is published next have gone out. */
  lemma EarlierWereSent(w: World, f: FlushId, early: OutboxRow)
    requires OutboxInv(w) && OrderInv(w)
    requires f in w.flushes && w.flushes[f].pc == FPublish && w.flushes[f].k < |w.flushes[f].rows|
    requires early in w.db.outbox && early.caseId == w.flushes[f].rows[w.flushes[f].k].caseId
    requires early.id < w.flushes[f].rows[w.flushes[f].k].id
    ensures HasId(Delivered(w.sent, early.caseId), early.id)
  {
    var x := w.flushes[f];
    assert NoGaps(w, x.rows);
    if early in x.rows[..x.k] {
      var m :| 0 <= m < x.k && x.rows[m] == early;
      SentGoneOut(w.sent, Sent(f, x.rows[m]));
    }
    GoneOutDelivered(w.sent, early);
  }

  /** A prefix that has every message before `pos`, taken one further. */
  lemma ExtendPrefix(d: seq<Item>, all: seq<Item>, pos: nat)
    requires d <= all && pos < |all|
    requires forall i, j :: 0 <= i < j < |all| ==> all[i].id < all[j].id
    requires forall j :: 0 <= j < pos ==> HasId(d, all[j].id)
    ensures HasId(d, all[pos].id) || d + [all[pos]] <= all
  {
    if |d| < pos {
      assert forall m :: 0 <= m < |d| ==> d[m].id < all[|d|].id;
    }
    if pos < |d| {
      assert d[pos].id == all[pos].id;
    }
  }

  lemma PublishKeepsOrder(w: World, f: FlushId, c: CaseId)
    requires Sorted(w.db.outbox) && OutboxInv(w) && OrderInv(w) && f in w.flushes && w.flushes[f].pc == FPublish
    ensures FlushOk(w, f)
    ensures Delivered(w.sent + [Sent(f, w.flushes[f].rows[w.flushes[f].k])], c) <= Items(w.db.outbox, c)
  {
    assert FlushOk(w, f);
    var r := w.flushes[f].rows[w.flushes[f].k];
    var ob := w.db.outbox;
    assert (w.sent + [Sent(f, r)])[..|w.sent|] == w.sent;
    if r.caseId == c {
      var all := Items(ob, c);
      ItemsSorted(ob, c);
      ItemsAreRows(ob, c, Item(r.id, r.payload));
      var pos :| 0 <= pos < |all| && all[pos] == Item(r.id, r.payload);
      forall j | 0 <= j < pos ensures HasId(Delivered(w.sent, c), all[j].id) {
        ItemsAreRows(ob, c, all[j]);
        EarlierWereSent(w, f, OutboxRow(all[j].id, c, all[j].payload));
      }
      ExtendPrefix(Delivered(w.sent, c), all, pos);
    }
  }

  lemma CommitKeepsOrder(w: World, w': World)
    requires Inv(w) && OutboxInv(w) && OrderInv(w) && SameFlushes(w, w')
    requires AtomicNext(w.db, w.commits, w'.db, w'.commits)
    ensures OrderInv(w')
  {
    if w'.db != w.db {
      var n := w'.commits[|w.commits|];
      var row := OutboxRow(n.oid, n.effect.caseId, n.effect.msg);
      forall c ensures Delivered(w'.sent, c) <= Items(w'.db.outbox, c) {
        InsertItems(w.db.outbox, row, c);
      }
      forall f | f in w'.flushes ensures NoGaps(w', w'.flushes[f].rows) {
        assert FlushOk(w, f) && NoGaps(w, w.flushes[f].rows);
        NoGapsGrow(w, w', w.flushes[f].rows, row);
      }
    } else {
      forall f | f in w'.flushes ensures NoGaps(w', w'.flushes[f].rows) {
        assert NoGaps(w, w.flushes[f].rows);
      }
    }
  }

  lemma NoGapsGrow(w: World, w': World, rows: seq<OutboxRow>, row: OutboxRow)
    requires NoGaps(w, rows) && w'.sent == w.sent && forall r :: r in rows ==> r in w.db.outbox
    requires Newest(w.db.outbox, row.caseId, row.id) && w'.db.outbox == Insert(w.db.outbox, row)
    ensures NoGaps(w', rows)
  {
    forall j, early |
      0 <= j < |rows| && early in w'.db.outbox && early.caseId == rows[j].caseId && early.id < rows[j].id
      ensures GoneOut(w'.sent, early) || early in rows[..j]
    {
      InsertMembers(w.db.outbox, row, early);
      assert rows[j] in rows;
      var m :| 0 <= m < |w.db.outbox| && w.db.outbox[m] == rows[j];
    }
  }

  /** More that has gone out leaves no gap. */
  lemma NoGapsSent(w: World, w': World, rows: seq<OutboxRow>)
    requires NoGaps(w, rows) && w'.db == w.db && w.sent <= w'.sent
    ensures NoGaps(w', rows)
  {
    forall early | GoneOut(w.sent, early) ensures GoneOut(w'.sent, early) {
      var k :| 0 <= k < |w.sent| && w.sent[k].row == early;
      assert w'.sent[k].row == early;
    }
  }

  lemma ListedNoGaps(w: World)
    requires Sorted(w.db.outbox) && OutboxInv(w) && NoOvertake(w)
    ensures NoGaps(w, Unpublished(w.db.outbox, w.published, w.outLock, BATCH))
  {
    UnpublishedLists(w.db.outbox, w.published, w.outLock, BATCH);
    forall r | r in w.db.outbox && r.id in w.published ensures GoneOut(w.sent, r) {
      PublishedGoneOut(w, r);
    }
  }

  /** A step of flush f, as far as ordering is concerned. */
  ghost predicate FlushMove(w: World, w': World, f: FlushId) {
    && w'.db == w.db && w.published <= w'.published
    && f in w'.flushes
    && (forall g :: g in w'.flushes && g != f ==> g in w.flushes && w'.flushes[g] == w.flushes[g])
    && (|| (f in w.flushes && w'.flushes[f].rows == w.flushes[f].rows)
        || w'.flushes[f].rows == []
        || (NoOvertake(w) && w'.flushes[f].rows == Unpublished(w.db.outbox, w.published, w.outLock, BATCH)))
    && (|| w'.sent == w.sent
        || (&& f in w.flushes && w.flushes[f].pc == FPublish && w.flushes[f].k < |w.flushes[f].rows|
            && w'.sent == w.sent + [Sent(f, w.flushes[f].rows[w.flushes[f].k])]))
  }

  lemma FlushMoveKeepsOrder(w: World, w': World, f: FlushId)
    requires Inv(w) && OutboxInv(w) && OrderInv(w) && FlushMove(w, w', f)
    ensures OrderInv(w')
  {
    OutboxSorted(w.commits);
    forall g | g in w'.flushes ensures NoGaps(w', w'.flushes[g].rows) {
      if g == f && NoOvertake(w) { ListedNoGaps(w); }
      assert g in w.flushes ==> NoGaps(w, w.flushes[g].rows);
      if w'.flushes[g].rows != [] { NoGapsSent(w, w', w'.flushes[g].rows); }
    }
    forall c ensures Delivered(w'.sent, c) <= Items(w'.db.outbox, c) {
      if w'.sent != w.sent { PublishKeepsOrder(w, f, c); }
    }
  }

  lemma ListMoves(w: World, f: FlushId, o: Outcome)
    requires f in w.flushes && (w.flushes[f].live && !o.Bad? ==> NoOvertake(w))
    ensures FlushMove(w, StepList(w, f, o), f)
  {
  }

  lemma EndMoves(w: World, f: FlushId, o: Outcome)
    requires f in w.flushes
    ensures FlushMove(w, EndFlush(w, f, false), f) && FlushMove(w, StepFlushCommit(w, f, o), f)
  {
  }

  lemma FlushMoves(w: World, f: FlushId, o: Outcome)
    requires f in w.flushes && ShapedFlush(w.flushes[f])
    requires w.flushes[f].pc == FList && w.flushes[f].live && !o.Bad? ==> NoOvertake(w)
    ensures var r := StepFlush(w, f, o); r.Some? ==> FlushMove(w, r.value, f)
  {
    match w.flushes[f].pc
    case FList => ListMoves(w, f, o);
    case FCommit => EndMoves(w, f, o);
    case FRollback => EndMoves(w, f, o);
    case _ =>
  }

  lemma CallKeepsOrder(w: World, a: Action)
    requires Inv(w) && OutboxInv(w) && OrderInv(w) && (a.Arrive? || a.Run?)
    ensures Step(w, a).Some? ==> OrderInv(Step(w, a).value)
  {
    if Step(w, a).Some? {
      StepRefines(w, a);
      if a.Run? { CallStepSameFlushes(w, a.i, a.o, a.newId); }
      CommitKeepsOrder(w, Step(w, a).value);
    }
  }

  lemma TickMoves(w: World, f: FlushId)
    ensures var r := Step(w, Tick(f)); r.Some? ==> FlushMove(w, r.value, f)
    ensures var r := StepLost(w, f); r.Some? ==> FlushMove(w, r.value, f)
  {
  }

  lemma StepKeepsOrder(w: World, a: Action)
    requires Inv(w) && OutboxInv(w) && OrderInv(w)
    requires Lists(w, a) ==> NoOvertake(w)
    ensures Step(w, a).Some? ==> OrderInv(Step(w, a).value)
  {
    if a.Arrive? || a.Run? {
      CallKeepsOrder(w, a);
    } else if Step(w, a).Some? {
      TickMoves(w, a.f);
      if a.RunFlush? { FlushMoves(w, a.f, a.o); }
      FlushMoveKeepsOrder(w, Step(w, a).value, a.f);
    }
  }

  lemma StartOrder()
    ensures OrderInv(START)
  {
    assert START.flushes == map[];
    forall c ensures Delivered(START.sent, c) <= Items(START.db.outbox, c) {
    }
  }

  /** With any number of publishers, as long as no listing passes over an earlier row of a
      case it lists that another flush holds and has not yet handed over: at every moment
      what has gone to nc.Publish of a case, without repeats, is a prefix of its committed
      messages in order, across failed and retried flushes. */
  lemma {:induction false} InOrderWithoutOvertaking(ws: seq<World>, acts: seq<Action>, k: nat)
    requires IsRun(ws, acts) && k < |ws|
    requires forall j :: 0 <= j < k && Lists(ws[j], acts[j]) ==> NoOvertake(ws[j])
    ensures OrderInv(ws[k])
    ensures forall c :: Delivered(ws[k].sent, c) <= Items(ws[k].db.outbox, c)
  {
    if k == 0 {
      StartOrder();
    } else {
      InOrderWithoutOvertaking(ws, acts, k - 1);
      ReachableInv(ws, acts, k - 1);
      ReachableOutbox(ws, acts, k - 1);
      StepKeepsOrder(ws[k - 1], acts[k - 1]);
    }
  }

  ghost predicate IsOpen(w: World, f: FlushId) {
    f in w.flushes && w.flushes[f].pc != FDone
  }

  /** One publisher loop: no two flushes are ever open together. */
  ghost predicate OneLoop(ws: seq<World>) {
    forall k, f, g :: 0 <= k < |ws| && IsOpen(ws[k], f) && IsOpen(ws[k], g) ==> f == g
  }

  lemma AloneNothingLocked(w: World, f: FlushId)
    requires OutboxInv(w) && f in w.flushes && w.flushes[f].pc == FList
    requires forall g :: IsOpen(w, g) ==> g == f
    ensures w.outLock == map[]
  {
    forall id | id in w.outLock ensures false {
      var g := w.outLock[id];
      assert FlushOk(w, g) && LockedBy(w.outLock, g, id) && IsOpen(w, g);
    }
  }

  /** With one publisher loop and any concurrent writers delivery is in order. */
  lemma InOrderWithOneLoop(ws: seq<World>, acts: seq<Action>, k: nat, c: CaseId)
    requires IsRun(ws, acts) && k < |ws| && OneLoop(ws)
    ensures Delivered(ws[k].sent, c) <= Items(ws[k].db.outbox, c)
  {
    forall j | 0 <= j < k && Lists(ws[j], acts[j]) ensures NoOvertake(ws[j]) {
      ReachableOutbox(ws, acts, j);
      assert IsOpen(ws[j], acts[j].f);
      AloneNothingLocked(ws[j], acts[j].f);
    }
    InOrderWithoutOvertaking(ws, acts, k);
  }
}
