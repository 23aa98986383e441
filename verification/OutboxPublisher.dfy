/** The outbox publisher as the program has it: a loop of flushes, each of which lists
    a batch, hands the rows to nc.Publish one by one, marks them and commits, while
    everybody else runs too. */
module OutboxPublisher {
  import opened Wrappers
  import opened Tables
  import opened Protocol
  import opened Safety
  import opened Outbox
  import opened Delivery
  import opened Progress
  import opened Draining
  import opened CaseStore

  // ------------------------------------------ what one flush hands over

  /** The rows that flush f has handed to nc.Publish, in the order of the calls. */
  function SentOf(sent: seq<Sent>, f: FlushId): seq<OutboxRow> {
    if sent == [] then []
    else
      var last := sent[|sent| - 1];
      SentOf(sent[..|sent| - 1], f) + if last.flush == f then [last.row] else []
  }

  /** The part of its batch that flush f has behind it. */
  function Done(w: World, f: FlushId): seq<OutboxRow> {
    if f in w.flushes && w.flushes[f].k <= |w.flushes[f].rows| then w.flushes[f].rows[..w.flushes[f].k] else []
  }

  ghost predicate BatchesInOrder(w: World) {
    forall f :: SentOf(w.sent, f) == Done(w, f)
  }

  /** Nothing is sent and no flush moves on in its batch. */
  ghost predicate Quiet(w: World, w': World) {
    w'.sent == w.sent && forall f :: Done(w', f) == Done(w, f)
  }

  lemma PublishInOrder(w: World, f: FlushId, o: Outcome)
    requires BatchesInOrder(w) && f in w.flushes && w.flushes[f].k < |w.flushes[f].rows|
    ensures BatchesInOrder(StepPublish(w, f, o))
  {
    var w', x := StepPublish(w, f, o), w.flushes[f];
    forall g ensures SentOf(w'.sent, g) == Done(w', g) {
      assert SentOf(w.sent, g) == Done(w, g);
      if !o.Bad? {
        assert w'.sent[..|w'.sent| - 1] == w.sent;
        assert x.rows[..x.k] + [x.rows[x.k]] == x.rows[..x.k + 1];
      }
    }
  }

  lemma FlushQuiet(w: World, f: FlushId, o: Outcome)
    requires f in w.flushes && ShapedFlush(w.flushes[f]) && w.flushes[f].pc != FPublish
    requires w.flushes[f].pc == FList ==> w.flushes[f].k == 0
    ensures var r := StepFlush(w, f, o); r.Some? ==> Quiet(w, r.value)
  {
  }

  lemma OutsideQuiet(w: World, a: Action)
    requires !a.RunFlush? && (a.Run? ==> Inv(w)) && Step(w, a).Some?
    ensures Quiet(w, Step(w, a).value)
  {
    if a.Run? { CallStepSameFlushes(w, a.i, a.o, a.newId); }
  }

  lemma QuietKeepsBatches(w: World, w': World)
    requires BatchesInOrder(w) && Quiet(w, w')
    ensures BatchesInOrder(w')
  {
    forall f ensures SentOf(w'.sent, f) == Done(w', f) {
      assert SentOf(w.sent, f) == Done(w, f);
    }
  }

  lemma FlushKeepsBatches(w: World, f: FlushId, o: Outcome)
    requires FlushOk(w, f) && ShapedFlush(w.flushes[f]) && BatchesInOrder(w) && StepFlush(w, f, o).Some?
    ensures BatchesInOrder(StepFlush(w, f, o).value)
  {
    if w.flushes[f].pc == FPublish {
      PublishInOrder(w, f, o);
    } else {
      FlushQuiet(w, f, o);
      QuietKeepsBatches(w, StepFlush(w, f, o).value);
    }
  }

  lemma StepKeepsBatches(w: World, a: Action)
    requires OutboxInv(w) && Inv(w) && BatchesInOrder(w) && Step(w, a).Some?
    ensures BatchesInOrder(Step(w, a).value)
  {
    if a.RunFlush? {
      assert FlushOk(w, a.f);
      FlushKeepsBatches(w, a.f, a.o);
    } else {
      OutsideQuiet(w, a);
      QuietKeepsBatches(w, Step(w, a).value);
    }
  }

  /** Every flush of a run hands the rows of its listing to nc.Publish one by one in
      their order, so what it has sent is at every moment a prefix of its batch. */
  lemma {:induction false} BatchesAreSentInOrder(ws: seq<World>, acts: seq<Action>, k: nat)
    requires IsRun(ws, acts) && k < |ws|
    ensures BatchesInOrder(ws[k])
  {
    if k == 0 {
      assert START.flushes == map[] && START.sent == [];
    } else {
      BatchesAreSentInOrder(ws, acts, k - 1);
      ReachableInv(ws, acts, k - 1);
      ReachableOutbox(ws, acts, k - 1);
      StepKeepsBatches(ws[k - 1], acts[k - 1]);
    }
  }

  /** A flush that is over has handed a prefix of its batch over, in order; if it
      committed, the prefix is the whole batch and the batch is published. */
  ghost predicate Over(w: World, f: FlushId) {
    && f in w.flushes && w.flushes[f].pc == FDone
    && SentOf(w.sent, f) <= w.flushes[f].rows
    && (w.flushes[f].committed ==> SentOf(w.sent, f) == w.flushes[f].rows && Ids(w.flushes[f].rows) <= w.published)
  }

  lemma DoneIsOver(ws: seq<World>, acts: seq<Action>, k: nat, f: FlushId)
    requires IsRun(ws, acts) && k < |ws| && f in ws[k].flushes && ws[k].flushes[f].pc == FDone
    ensures Over(ws[k], f)
  {
    ReachableOutbox(ws, acts, k);
    assert FlushOk(ws[k], f);
    BatchesAreSentInOrder(ws, acts, k);
    assert SentOf(ws[k].sent, f) == Done(ws[k], f);
  }

  /** Nothing happens to a flush that is over. */
  lemma {:induction false} OverStays(ws: seq<World>, acts: seq<Action>, k: nat, m: nat, f: FlushId)
    requires IsRun(ws, acts) && k <= m < |ws| && f in ws[k].flushes && ws[k].flushes[f].pc == FDone
    ensures f in ws[m].flushes && ws[m].flushes[f] == ws[k].flushes[f]
  {
    if k < m {
      OverStays(ws, acts, k, m - 1, f);
      StepKeepsOver(ws[m - 1], acts[m - 1], f);
    }
  }

  lemma StepKeepsOver(w: World, a: Action, f: FlushId)
    requires f in w.flushes && w.flushes[f].pc == FDone && Step(w, a).Some?
    ensures f in Step(w, a).value.flushes && Step(w, a).value.flushes[f] == w.flushes[f]
  {
    match a
    case Run(i, o, newId) => CallStepFlushes(w, i, o, newId);
    case RunFlush(g, o) => FlushStepSent(w, g, o);
    case _ =>
  }

  /** A run is fixed by its actions. */
  lemma {:induction false} SameWorlds(ws: seq<World>, acts: seq<Action>, ws': seq<World>, acts': seq<Action>, k: nat)
    requires IsRun(ws, acts) && IsRun(ws', acts') && acts <= acts' && k < |ws|
    ensures ws'[k] == ws[k]
  {
    if k > 0 {
      SameWorlds(ws, acts, ws', acts', k - 1);
      assert acts'[k - 1] == acts[k - 1];
    }
  }

  // ------------------------------------------------------- a flush on its own

  /** The first k listed rows have been handed over. */
  function Handing(w: World, f: FlushId, rows: seq<OutboxRow>, k: nat): World
    requires f in w.flushes && k <= |rows|
  {
    w.(flushes := w.flushes[f := w.flushes[f].(k := k, pc := if k == |rows| then FMark else FPublish)],
       sent := w.sent + SentBy(f, rows[..k]))
  }

  lemma NoneHanded(w: World, f: FlushId, rows: seq<OutboxRow>)
    requires rows != [] && f in w.flushes && w.flushes[f].pc == FPublish && w.flushes[f].k == 0
    ensures w == Handing(w, f, rows, 0)
  {
    assert w.sent + SentBy(f, rows[..0]) == w.sent;
  }

  lemma OneHanded(w: World, f: FlushId, rows: seq<OutboxRow>, k: nat, v: World, v': World)
    requires f in w.flushes && k < |rows| && w.flushes[f].rows == rows && v == Handing(w, f, rows, k)
    requires v'.flushes == v.flushes[f := v.flushes[f].(k := k + 1, pc := if k + 1 == |rows| then FMark else FPublish)]
    requires v' == v.(flushes := v'.flushes, sent := v.sent + [Sent(f, rows[k])])
    ensures v' == Handing(w, f, rows, k + 1)
  {
    assert SentBy(f, rows[..k + 1]) == SentBy(f, rows[..k]) + [Sent(f, rows[k])];
    assert v'.flushes == Handing(w, f, rows, k + 1).flushes;
  }

  /** All these rows have been handed over and are published. */
  ghost predicate Publishes(w: World, f: FlushId, rows: seq<OutboxRow>, w': World)
    requires f in w.flushes
  {
    w' == w.(flushes := w.flushes[f := w.flushes[f].(pc := FDone, rows := rows, k := |rows|, committed := true)],
             sent := w.sent + SentBy(f, rows), published := w.published + Ids(rows),
             outLock := ReleaseOut(w.outLock, f))
  }

  /** The first ten free rows are published, or there are none. */
  ghost predicate EndsFlush(w: World, f: FlushId, w': World)
    requires f in w.flushes
  {
    var rows := Unpublished(w.db.outbox, w.published, w.outLock, 10);
    if rows == [] then w' == EndFlush(w, f, false)
    else Publishes(w.(outLock := LockAll(w.outLock, rows, f)), f, rows, w')
  }

  /** What a flush publishes does not depend on where it was when it was listed. */
  lemma PublishesListed(w: World, f: FlushId, rows: seq<OutboxRow>, v: World, w': World)
    requires f in w.flushes && v.flushes == w.flushes[f := w.flushes[f].(pc := FPublish, rows := rows)]
    requires v == w.(flushes := v.flushes, outLock := LockAll(w.outLock, rows, f))
    requires Publishes(v, f, rows, w')
    ensures Publishes(w.(outLock := LockAll(w.outLock, rows, f)), f, rows, w')
  {
    assert w'.flushes == w.flushes[f := w.flushes[f].(pc := FDone, rows := rows, k := |rows|, committed := true)];
  }

  lemma EmptyListing(w: World, f: FlushId, v: World, w': World)
    requires f in w.flushes && v.flushes == w.flushes[f := w.flushes[f].(pc := FRollback)]
    requires v == w.(flushes := v.flushes) && w' == EndFlush(v, f, false)
    ensures w' == EndFlush(w, f, false)
  {
    assert w'.flushes == EndFlush(w, f, false).flushes;
  }

  const LISTING := Flush(FList, [], 0, true, false)

  lemma NoneAlone(w: World, f: FlushId, w': World)
    requires w.outLock == map[] && w' == EndFlush(SetFlush(w, f, LISTING), f, false)
    ensures w' == SetFlush(w, f, Flush(FDone, [], 0, true, false))
  {
    assert w'.flushes == w.flushes[f := Flush(FDone, [], 0, true, false)];
    assert ReleaseOut(w.outLock, f) == map[];
  }

  lemma AllAlone(w: World, f: FlushId, rows: seq<OutboxRow>, w': World)
    requires w.outLock == map[]
    requires Publishes(SetFlush(w, f, LISTING).(outLock := LockAll(w.outLock, rows, f)), f, rows, w')
    ensures w' == Flushed(w, f, rows)
  {
    assert w'.flushes == w.flushes[f := Flush(FDone, rows, |rows|, true, true)];
    assert ReleaseOut(LockAll(w.outLock, rows, f), f) == map[];
  }

  /** What a flush leaves that starts from w and is alone. */
  ghost predicate FlushedAlone(w: World, f: FlushId, w': World) {
    var left := Left(w.db.outbox, w.published);
    var rows := left[..Least(10, |left|)];
    w' == if rows == [] then SetFlush(w, f, Flush(FDone, [], 0, true, false)) else Flushed(w, f, rows)
  }

  lemma EndsAlone(w: World, f: FlushId, w': World)
    requires w.outLock == map[] && EndsFlush(SetFlush(w, f, LISTING), f, w')
    ensures FlushedAlone(w, f, w')
  {
    var rows := Unpublished(w.db.outbox, w.published, w.outLock, 10);
    ListIsFirstLeft(w.db.outbox, w.published, 10);
    if rows == [] { NoneAlone(w, f, w'); } else { AllAlone(w, f, rows, w'); }
  }

  // ------------------------------------------------------------ the publisher

  class Publisher {
    const store: Store

    constructor (store: Store)
      ensures this.store == store
    {
      this.store := store;
    }

    /** tx.Rollback after an empty listing or a failure. */
    method GiveUp(f: FlushId, alone: bool)
      requires store.Valid() && f in store.flushes && store.flushes[f].pc == FRollback
      modifies store
      ensures store.Valid() && old(store.acts) <= store.acts && Over(store.View(), f)
      ensures !store.flushes[f].committed
      ensures alone ==> store.View() == EndFlush(old(store.View()), f, false)
    {
      store.OtherFlushes(f, alone);
      store.RollbackFlush(f);
      DoneIsOver(store.past, store.acts, |store.acts|, f);
    }

    /** The loop over the listed rows; stops at the first publish that fails. */
    method PublishAll(f: FlushId, rows: seq<OutboxRow>, alone: bool) returns (ids: Option<seq<nat>>)
      requires store.Valid() && rows != []
      requires f in store.flushes && store.flushes[f].pc == FPublish
               && store.flushes[f].rows == rows && store.flushes[f].k == 0
      modifies store
      ensures store.Valid() && old(store.acts) <= store.acts && f in store.flushes
      ensures ids.Some? ==> store.flushes[f].pc == FMark && store.flushes[f].rows == rows
      ensures ids.Some? ==> |ids.value| == |rows| && forall k :: 0 <= k < |rows| ==> ids.value[k] == rows[k].id
      ensures ids.None? ==> store.flushes[f].pc == FRollback
      ensures alone ==> ids.Some? && store.View() == Handing(old(store.View()), f, rows, |rows|)
    {
      var got: seq<nat> := [];
      var k := 0;
      NoneHanded(store.View(), f, rows);
      while k < |rows|
        invariant store.Valid() && old(store.acts) <= store.acts && f in store.flushes
        invariant k <= |rows| && store.flushes[f].rows == rows && store.flushes[f].k == k
        invariant store.flushes[f].pc == if k == |rows| then FMark else FPublish
        invariant |got| == k && forall j :: 0 <= j < k ==> got[j] == rows[j].id
        invariant alone ==> store.View() == Handing(old(store.View()), f, rows, k)
      {
        ghost var before := store.View();
        store.OtherFlushes(f, alone);
        var o := store.Draw(alone);
        var ok := store.Publish(f, o);
        if !ok {
          return None;
        }
        if alone { OneHanded(old(store.View()), f, rows, k, before, store.View()); }
        got := got + [rows[k].id];
        k := k + 1;
      }
      return Some(got);
    }

    /** One flush.  What it has sent is a prefix of the listing in order, and if the
        commit came through it is all of the listing, which is then published.  Alone it
        publishes the first ten rows that are left, or all there are. */
    method FlushOnce(f: FlushId, alone: bool)
      requires store.Valid() && f !in store.flushes
      modifies store
      ensures store.Valid() && old(store.acts) <= store.acts && Over(store.View(), f)
      ensures alone && old(store.outLock) == map[] ==> FlushedAlone(old(store.View()), f, store.View())
    {
      store.EnterFlush(f);
      store.OtherFlushes(f, alone);
      var o := store.Draw(alone);
      var begun := store.BeginFlush(f, o);
      if !begun {
        DoneIsOver(store.past, store.acts, |store.acts|, f);
        return;
      }
      assert alone ==> store.flushes == old(store.flushes)[f := LISTING];
      ListAndPublish(f, alone);
      if alone && old(store.outLock) == map[] {
        EndsAlone(old(store.View()), f, store.View());
      }
    }

    /** The flush from its listing on. */
    method ListAndPublish(f: FlushId, alone: bool)
      requires store.Valid() && f in store.flushes && store.flushes[f].pc == FList && store.flushes[f].k == 0
      modifies store
      ensures store.Valid() && old(store.acts) <= store.acts && Over(store.View(), f)
      ensures alone && old(store.flushes)[f].live ==> EndsFlush(old(store.View()), f, store.View())
    {
      store.OtherFlushes(f, alone);
      var o := store.Draw(alone);
      ghost var w := store.View();
      var rows := store.ListUnpublishedOutbox(f, o);
      ghost var v := store.View();
      if rows.None? || rows.value == [] {
        GiveUp(f, alone);
        if alone { EmptyListing(w, f, v, store.View()); }
        return;
      }
      PublishAndMark(f, rows.value, alone);
      if alone && v.flushes[f].live { PublishesListed(w, f, rows.value, v, store.View()); }
    }

    method PublishAndMark(f: FlushId, rows: seq<OutboxRow>, alone: bool)
      requires store.Valid() && rows != []
      requires f in store.flushes && store.flushes[f].pc == FPublish
               && store.flushes[f].rows == rows && store.flushes[f].k == 0
      modifies store
      ensures store.Valid() && old(store.acts) <= store.acts && Over(store.View(), f)
      ensures alone && old(store.flushes)[f].live ==> Publishes(old(store.View()), f, rows, store.View())
    {
      var ids := PublishAll(f, rows, alone);
      if ids.None? {
        GiveUp(f, alone);
        return;
      }
      assert rows[..|rows|] == rows;
      MarkAndCommit(f, rows, ids.value, alone);
    }

    method MarkAndCommit(f: FlushId, rows: seq<OutboxRow>, ids: seq<nat>, alone: bool)
      requires store.Valid() && f in store.flushes && store.flushes[f].pc == FMark && store.flushes[f].rows == rows
      requires |ids| == |rows| && forall k :: 0 <= k < |rows| ==> ids[k] == rows[k].id
      modifies store
      ensures store.Valid() && old(store.acts) <= store.acts && Over(store.View(), f)
      ensures alone && old(store.flushes)[f].live ==>
                store.View() == EndFlush(old(store.View()), f, true).(published := old(store.published) + Ids(rows))
    {
      store.OtherFlushes(f, alone);
      IdsListed(rows, ids);
      var o := store.Draw(alone);
      var marked := store.MarkOutboxPublished(f, ids, o);
      if !marked {
        GiveUp(f, alone);
        return;
      }
      store.OtherFlushes(f, alone);
      o := store.Draw(alone);
      var committed := store.CommitFlush(f, o);
      DoneIsOver(store.past, store.acts, |store.acts|, f);
    }

    /** n ticks of the interval: one flush after the other, each over before the next. */
    method Run(n: nat) returns (mine: seq<FlushId>)
      requires store.Valid()
      modifies store
      ensures store.Valid() && old(store.acts) <= store.acts && |mine| == n
      ensures forall j :: 0 <= j < n ==> Over(store.View(), mine[j])
      ensures forall j, k :: 0 <= j < k < n ==> mine[j] != mine[k]
    {
      mine := [];
      while |mine| < n
        invariant store.Valid() && old(store.acts) <= store.acts && |mine| <= n
        invariant forall j :: 0 <= j < |mine| ==> Over(store.View(), mine[j])
        invariant forall j, k :: 0 <= j < k < |mine| ==> mine[j] != mine[k]
        decreases n - |mine|
      {
        ghost var past, acts := store.past, store.acts;
        ghost var unused := UnusedId(store.flushes.Keys);
        var f: FlushId :| f !in store.flushes.Keys;
        FlushOnce(f, false);
        forall j | 0 <= j < |mine| ensures Over(store.View(), mine[j]) {
          SameWorlds(past, acts, store.past, store.acts, |acts|);
          OverStays(store.past, store.acts, |acts|, |store.acts|, mine[j]);
          DoneIsOver(store.past, store.acts, |store.acts|, mine[j]);
        }
        mine := mine + [f];
      }
    }
  }

  lemma IdsListed(rows: seq<OutboxRow>, ids: seq<nat>)
    requires |ids| == |rows| && forall k :: 0 <= k < |rows| ==> ids[k] == rows[k].id
    ensures (set id | id in ids) == Ids(rows)
  {
    forall id | id in ids ensures id in Ids(rows) {
      var k :| 0 <= k < |ids| && ids[k] == id;
      assert rows[k] in rows;
    }
    forall id | id in Ids(rows) ensures id in ids {
      var r :| r in rows && r.id == id;
      var k :| 0 <= k < |rows| && rows[k] == r;
      assert ids[k] == id;
    }
  }
}
