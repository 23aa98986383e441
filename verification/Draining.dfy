/** One publisher loop, no failures and no new rows: n unpublished rows are gone
    after exactly ceil(n / 10) committed flushes; the next flush finds nothing. */
module Draining {
  import opened Wrappers
  import opened Tables
  import opened Protocol

  /** The unpublished rows in id order. */
  function Left(ob: seq<OutboxRow>, published: set<nat>): seq<OutboxRow> {
    if ob == [] then []
    else (if ob[0].id in published then [] else [ob[0]]) + Left(ob[1..], published)
  }

  function Least(a: nat, b: nat): nat {
    if a < b then a else b
  }

  lemma {:induction false} ListIsFirstLeft(ob: seq<OutboxRow>, published: set<nat>, n: nat)
    ensures Unpublished(ob, published, map[], n) == Left(ob, published)[..Least(n, |Left(ob, published)|)]
  {
    if ob != [] && n != 0 {
      if ob[0].id in published {
        ListIsFirstLeft(ob[1..], published, n);
      } else {
        ListIsFirstLeft(ob[1..], published, n - 1);
      }
    }
  }

  lemma {:induction false} LeftRows(ob: seq<OutboxRow>, published: set<nat>, r: OutboxRow)
    ensures r in Left(ob, published) <==> r in ob && r.id !in published
  {
    if ob != [] {
      LeftRows(ob[1..], published, r);
      assert ob == [ob[0]] + ob[1..];
    }
  }

  lemma {:induction false} LeftDependsOnOwnIds(ob: seq<OutboxRow>, a: set<nat>, b: set<nat>)
    requires forall r :: r in ob ==> (r.id in a <==> r.id in b)
    ensures Left(ob, a) == Left(ob, b)
  {
    if ob != [] {
      assert ob[0] in ob && forall r :: r in ob[1..] ==> r in ob;
      LeftDependsOnOwnIds(ob[1..], a, b);
    }
  }

  lemma FirstIds(head: OutboxRow, tail: seq<OutboxRow>)
    ensures Ids([head] + tail) == {head.id} + Ids(tail)
  {
    assert forall r :: r in [head] + tail <==> r == head || r in tail;
  }

  /** One more published id, of a row before all of these, changes nothing for them. */
  lemma LeftWithout(rest: seq<OutboxRow>, published: set<nat>, ids: set<nat>, id: nat)
    requires forall r :: r in rest ==> r.id != id
    ensures Left(rest, published + ({id} + ids)) == Left(rest, published + ids)
  {
    LeftDependsOnOwnIds(rest, published + ({id} + ids), published + ids);
  }

  lemma PublishHead(ob: seq<OutboxRow>, published: set<nat>, m: nat)
    requires ob != [] && (forall r :: r in ob[1..] ==> r.id != ob[0].id)
    requires ob[0].id !in published && m <= |Left(ob[1..], published)|
    requires Left(ob[1..], published + Ids(Left(ob[1..], published)[..m])) == Left(ob[1..], published)[m..]
    ensures Left(ob, published + Ids(Left(ob, published)[..m + 1])) == Left(ob, published)[m + 1..]
  {
    var head, rest, tail := ob[0], ob[1..], Left(ob[1..], published);
    var left := Left(ob, published);
    assert left == [head] + tail;
    assert left[..m + 1] == [head] + tail[..m];
    FirstIds(head, tail[..m]);
    LeftWithout(rest, published, Ids(tail[..m]), head.id);
  }

  /** Publishing the first m unpublished rows leaves exactly the others. */
  lemma {:induction false} PublishFirst(ob: seq<OutboxRow>, published: set<nat>, m: nat)
    requires Sorted(ob) && m <= |Left(ob, published)|
    ensures Left(ob, published + Ids(Left(ob, published)[..m])) == Left(ob, published)[m..]
  {
    if ob != [] && m > 0 {
      if ob[0].id in published {
        PublishFirst(ob[1..], published, m);
      } else {
        PublishFirst(ob[1..], published, m - 1);
        PublishHead(ob, published, m - 1);
      }
    } else {
      assert published + Ids(Left(ob, published)[..0]) == published;
    }
  }

  // -------------------------------------------------------------- one flush

  function Steps(f: FlushId, n: nat): seq<Action> {
    if n == 0 then [] else Steps(f, n - 1) + [RunFlush(f, Good)]
  }

  /** A whole flush that publishes m rows: its tick, BEGIN, the listing, m times
      nc.Publish, the update and COMMIT. */
  function WholeFlush(f: FlushId, m: nat): seq<Action> {
    [Tick(f)] + Steps(f, m + 4)
  }

  function SentBy(f: FlushId, rows: seq<OutboxRow>): seq<Sent> {
    seq(|rows|, k requires 0 <= k < |rows| => Sent(f, rows[k]))
  }

  /** The world after j of the listed rows have been handed over. */
  function Handed(w: World, f: FlushId, rows: seq<OutboxRow>, j: nat): World
    requires j <= |rows|
  {
    SetFlush(w, f, Flush(if j == |rows| then FMark else FPublish, rows, j, true, false))
    .(outLock := LockAll(w.outLock, rows, f), sent := w.sent + SentBy(f, rows[..j]))
  }

  lemma HandNext(w: World, f: FlushId, rows: seq<OutboxRow>, j: nat)
    requires j < |rows|
    ensures Step(Handed(w, f, rows, j), RunFlush(f, Good)) == Some(Handed(w, f, rows, j + 1))
  {
    var v, v' := Handed(w, f, rows, j), Handed(w, f, rows, j + 1);
    assert SentBy(f, rows[..j + 1]) == SentBy(f, rows[..j]) + [Sent(f, rows[j])];
    assert StepPublish(v, f, Good).flushes == v'.flushes;
    assert StepPublish(v, f, Good).sent == v'.sent;
  }

  lemma BeginsAlone(w: World, f: FlushId)
    ensures Step(SetFlush(w, f, Flush(FBegin, [], 0, true, false)), RunFlush(f, Good))
         == Some(SetFlush(w, f, Flush(FList, [], 0, true, false)))
  {
    var w1, x := SetFlush(w, f, Flush(FBegin, [], 0, true, false)), Flush(FList, [], 0, true, false);
    assert w1.flushes[f := x] == w.flushes[f := x];
  }

  lemma ListsAlone(w: World, f: FlushId, rows: seq<OutboxRow>)
    requires rows == Unpublished(w.db.outbox, w.published, w.outLock, BATCH) && rows != []
    ensures Step(SetFlush(w, f, Flush(FList, [], 0, true, false)), RunFlush(f, Good)) == Some(Handed(w, f, rows, 0))
  {
    var w2, x := SetFlush(w, f, Flush(FList, [], 0, true, false)), Flush(FPublish, rows, 0, true, false);
    assert w2.flushes[f := x] == w.flushes[f := x];
    assert w.sent + SentBy(f, rows[..0]) == w.sent;
  }

  lemma Listed(w: World, f: FlushId, rows: seq<OutboxRow>)
    requires f !in w.flushes && rows == Unpublished(w.db.outbox, w.published, w.outLock, BATCH) && rows != []
    ensures Exec(w, [Tick(f)] + Steps(f, 2)) == Some(Handed(w, f, rows, 0))
  {
    var w1 := SetFlush(w, f, Flush(FBegin, [], 0, true, false));
    var w2 := SetFlush(w, f, Flush(FList, [], 0, true, false));
    BeginsAlone(w, f);
    ListsAlone(w, f, rows);
    ExecTwo(w1, w2, Handed(w, f, rows, 0), f);
    ExecCons(w, Tick(f), w1, Steps(f, 2));
  }

  lemma ExecTwo(w: World, v: World, u: World, f: FlushId)
    requires Step(w, RunFlush(f, Good)) == Some(v) && Step(v, RunFlush(f, Good)) == Some(u)
    ensures Exec(w, Steps(f, 2)) == Some(u)
  {
    var a := RunFlush(f, Good);
    assert Steps(f, 0) == [];
    assert Steps(f, 1) == [a];
    assert Steps(f, 2) == [a] + [a];
    ExecOne(v, a);
    ExecCons(w, a, v, [a]);
  }

  lemma {:induction false} HandedAfter(w: World, f: FlushId, rows: seq<OutboxRow>, j: nat)
    requires f !in w.flushes && rows == Unpublished(w.db.outbox, w.published, w.outLock, BATCH) && rows != []
    requires j <= |rows|
    ensures Exec(w, [Tick(f)] + Steps(f, j + 2)) == Some(Handed(w, f, rows, j))
  {
    if j == 0 {
      Listed(w, f, rows);
    } else {
      HandedAfter(w, f, rows, j - 1);
      HandNext(w, f, rows, j - 1);
      StepsSnoc(w, f, j + 1);
    }
  }

  lemma StepsSnoc(w: World, f: FlushId, n: nat)
    ensures Exec(w, [Tick(f)] + Steps(f, n + 1))
         == match Exec(w, [Tick(f)] + Steps(f, n)) case None => None case Some(v) => Step(v, RunFlush(f, Good))
  {
    var longer, shorter := [Tick(f)] + Steps(f, n + 1), [Tick(f)] + Steps(f, n);
    assert longer[..|longer| - 1] == shorter;
  }

  /** The world after a whole flush of these rows. */
  function Flushed(w: World, f: FlushId, rows: seq<OutboxRow>): World {
    SetFlush(w, f, Flush(FDone, rows, |rows|, true, true))
    .(sent := w.sent + SentBy(f, rows), published := w.published + Ids(rows))
  }

  lemma LastTwo(w: World, f: FlushId, rows: seq<OutboxRow>)
    requires w.outLock == map[] && rows != []
    ensures var v := Handed(w, f, rows, |rows|);
            var u := SetFlush(v, f, v.flushes[f].(pc := FCommit));
            Step(v, RunFlush(f, Good)) == Some(u) && Step(u, RunFlush(f, Good)) == Some(Flushed(w, f, rows))
  {
    var v := Handed(w, f, rows, |rows|);
    var u := SetFlush(v, f, v.flushes[f].(pc := FCommit));
    assert Step(v, RunFlush(f, Good)) == Some(u);
    assert rows[..|rows|] == rows;
    assert ReleaseOut(u.outLock, f) == map[];
    assert Flushed(w, f, rows).flushes == u.flushes[f := u.flushes[f].(pc := FDone, committed := true)];
  }

  /** A flush on its own publishes the first ten unpublished rows, or all there are. */
  lemma FlushAlone(w: World, f: FlushId)
    requires f !in w.flushes && w.outLock == map[] && Left(w.db.outbox, w.published) != []
    ensures var left := Left(w.db.outbox, w.published);
            var rows := left[..Least(BATCH, |left|)];
            Exec(w, WholeFlush(f, |rows|)) == Some(Flushed(w, f, rows))
  {
    var left := Left(w.db.outbox, w.published);
    var rows := left[..Least(BATCH, |left|)];
    ListIsFirstLeft(w.db.outbox, w.published, BATCH);
    HandedAfter(w, f, rows, |rows|);
    LastTwo(w, f, rows);
    StepsSnoc(w, f, |rows| + 2);
    StepsSnoc(w, f, |rows| + 3);
  }

  lemma NothingListed(w: World, f: FlushId)
    requires w.outLock == map[] && Unpublished(w.db.outbox, w.published, w.outLock, BATCH) == []
    ensures var w2 := SetFlush(w, f, Flush(FList, [], 0, true, false));
            var w3 := SetFlush(w, f, Flush(FRollback, [], 0, true, false));
            && Step(w2, RunFlush(f, Good)) == Some(w3)
            && Step(w3, RunFlush(f, Good)) == Some(SetFlush(w, f, Flush(FDone, [], 0, true, false)))
  {
    var w2 := SetFlush(w, f, Flush(FList, [], 0, true, false));
    var w3 := SetFlush(w, f, Flush(FRollback, [], 0, true, false));
    assert w2.flushes[f := Flush(FRollback, [], 0, true, false)] == w3.flushes;
    assert w3.flushes[f := Flush(FDone, [], 0, true, false)] == w.flushes[f := Flush(FDone, [], 0, true, false)];
    assert ReleaseOut(w3.outLock, f) == map[];
  }

  /** With nothing left a flush ends without committing anything. */
  lemma FlushOfNothing(w: World, f: FlushId)
    requires f !in w.flushes && w.outLock == map[] && Left(w.db.outbox, w.published) == []
    ensures Exec(w, [Tick(f)] + Steps(f, 3)) == Some(SetFlush(w, f, Flush(FDone, [], 0, true, false)))
  {
    var w1 := SetFlush(w, f, Flush(FBegin, [], 0, true, false));
    var w2 := SetFlush(w, f, Flush(FList, [], 0, true, false));
    var w3 := SetFlush(w, f, Flush(FRollback, [], 0, true, false));
    ListIsFirstLeft(w.db.outbox, w.published, BATCH);
    BeginsAlone(w, f);
    NothingListed(w, f);
    ExecTwo(w1, w2, w3, f);
    ExecCons(w, Tick(f), w1, Steps(f, 2));
    StepsSnoc(w, f, 2);
  }

  // ---------------------------------------------------------- the whole loop

  /** No flush is open or has a number from f on; the outbox is in id order, as it always is. */
  ghost predicate Alone(w: World, f: FlushId) {
    Sorted(w.db.outbox) && w.outLock == map[] && forall g :: g in w.flushes ==> g < f
  }

  /** One whole flush on its own takes w to v, and is committed there. */
  ghost predicate Round(w: World, f: FlushId, v: World) {
    (exists m :: Exec(w, WholeFlush(f, m)) == Some(v)) && f in v.flushes && v.flushes[f].committed
  }

  /** r such flushes in a row, numbered from f. */
  ghost predicate Rounds(w: World, f: FlushId, r: nat, w': World)
    decreases r
  {
    if r == 0 then w' == w else exists v :: Round(w, f, v) && Rounds(v, f + 1, r - 1, w')
  }

  function Ceil10(n: nat): nat {
    (n + 9) / 10
  }

  /** How many of n rows are left after r batches. */
  function RowsAfter(n: nat, r: nat): nat {
    if 10 * r < n then n - 10 * r else 0
  }

  lemma RoundsCons(w: World, f: FlushId, r: nat, v: World, w': World)
    requires r > 0 && Round(w, f, v) && Rounds(v, f + 1, r - 1, w')
    ensures Rounds(w, f, r, w')
  {
  }

  function LeftCount(w: World): nat {
    |Left(w.db.outbox, w.published)|
  }

  lemma RoundAlone(w: World, f: FlushId, v: World, m: nat)
    requires Sorted(w.db.outbox) && w.outLock == map[] && f !in w.flushes
    requires Left(w.db.outbox, w.published) != [] && m == Least(BATCH, |Left(w.db.outbox, w.published)|)
    requires v == Flushed(w, f, Left(w.db.outbox, w.published)[..m])
    ensures Round(w, f, v)
    ensures v.db == w.db && v.outLock == map[] && v.flushes.Keys == w.flushes.Keys + {f}
    ensures Left(v.db.outbox, v.published) == Left(w.db.outbox, w.published)[m..]
  {
    FlushAlone(w, f);
    PublishFirst(w.db.outbox, w.published, m);
  }

  lemma NextRound(w: World, f: FlushId) returns (v: World)
    requires Alone(w, f) && LeftCount(w) > 0
    ensures Round(w, f, v) && v.db == w.db && Alone(v, f + 1)
    ensures LeftCount(v) == LeftCount(w) - Least(BATCH, LeftCount(w))
  {
    var left := Left(w.db.outbox, w.published);
    var m := Least(BATCH, |left|);
    v := Flushed(w, f, left[..m]);
    RoundAlone(w, f, v, m);
  }

  // -------------------------------------------- every run of the loop

  /** n further steps of f after its tick. */
  function AfterTick(w: World, f: FlushId, n: nat): Option<World> {
    Exec(w, [Tick(f)] + Steps(f, n))
  }

  lemma AfterTickNext(w: World, f: FlushId, n: nat, v: World)
    requires AfterTick(w, f, n) == Some(v)
    ensures AfterTick(w, f, n + 1) == Step(v, RunFlush(f, Good))
  {
    StepsSnoc(w, f, n);
  }

  lemma AfterTickStuck(w: World, f: FlushId, n: nat)
    requires AfterTick(w, f, n) == None
    ensures AfterTick(w, f, n + 1) == None
  {
    StepsSnoc(w, f, n);
  }

  lemma DoneHasNoStep(v: World, f: FlushId)
    requires f in v.flushes && v.flushes[f].pc == FDone
    ensures Step(v, RunFlush(f, Good)) == None
  {
  }

  /** Before its last two steps a lone flush is not committed. */
  lemma HandedOpen(w: World, f: FlushId, rows: seq<OutboxRow>, j: nat, n: nat, v: World)
    requires f !in w.flushes && rows == Unpublished(w.db.outbox, w.published, w.outLock, BATCH) && rows != []
    requires j <= |rows| && n == j + 2 && AfterTick(w, f, n) == Some(v)
    ensures f in v.flushes && !v.flushes[f].committed
  {
    HandedAfter(w, f, rows, j);
  }

  lemma Marked(w: World, f: FlushId, rows: seq<OutboxRow>, n: nat, v: World)
    requires f !in w.flushes && w.outLock == map[] && rows == Unpublished(w.db.outbox, w.published, w.outLock, BATCH)
    requires rows != [] && n == |rows| + 3 && AfterTick(w, f, n) == Some(v)
    ensures f in v.flushes && !v.flushes[f].committed
  {
    HandedAfter(w, f, rows, |rows|);
    AfterTickNext(w, f, |rows| + 2, Handed(w, f, rows, |rows|));
    LastTwo(w, f, rows);
  }

  lemma {:induction false} NothingAfterDone(w: World, f: FlushId, n: nat, m: nat, v: World)
    requires AfterTick(w, f, n) == Some(v) && f in v.flushes && v.flushes[f].pc == FDone && m > n
    ensures AfterTick(w, f, m) == None
  {
    if m == n + 1 {
      AfterTickNext(w, f, n, v);
      DoneHasNoStep(v, f);
    } else {
      NothingAfterDone(w, f, n, m - 1, v);
      AfterTickStuck(w, f, m - 1);
    }
  }

  lemma OneLength(w: World, f: FlushId, rows: seq<OutboxRow>, m: nat, v: World, u: World)
    requires f !in w.flushes && w.outLock == map[] && rows == Unpublished(w.db.outbox, w.published, w.outLock, BATCH)
    requires rows != [] && AfterTick(w, f, |rows| + 4) == Some(u) && f in u.flushes && u.flushes[f].pc == FDone
    requires AfterTick(w, f, m + 4) == Some(v) && f in v.flushes && v.flushes[f].committed
    ensures v == u
  {
    if m + 2 <= |rows| {
      HandedOpen(w, f, rows, m + 2, m + 4, v);
    } else if m + 1 == |rows| {
      Marked(w, f, rows, m + 4, v);
    } else if m > |rows| {
      NothingAfterDone(w, f, |rows| + 4, m + 4, u);
    }
  }

  lemma EndsWithNothing(w: World, f: FlushId) returns (n: nat, u: World)
    requires f !in w.flushes && w.outLock == map[] && Left(w.db.outbox, w.published) == []
    ensures n < 4 && AfterTick(w, f, n) == Some(u) && f in u.flushes && u.flushes[f].pc == FDone
  {
    FlushOfNothing(w, f);
    n, u := 3, SetFlush(w, f, Flush(FDone, [], 0, true, false));
  }

  lemma NoRoundOfNothing(w: World, f: FlushId, m: nat)
    requires f !in w.flushes && w.outLock == map[] && Left(w.db.outbox, w.published) == []
    ensures AfterTick(w, f, m + 4) == None
  {
    var n, u := EndsWithNothing(w, f);
    NothingAfterDone(w, f, n, m + 4, u);
  }

  /** Whatever number of steps a lone flush is given, only the whole flush of the first
      ten rows left commits. */
  lemma RoundForces(w: World, f: FlushId, v: World)
    requires f !in w.flushes && w.outLock == map[] && Round(w, f, v)
    ensures var left := Left(w.db.outbox, w.published);
            left != [] && v == Flushed(w, f, left[..Least(BATCH, |left|)])
  {
    var m := RoundLength(w, f, v);
    var left := Left(w.db.outbox, w.published);
    if left == [] {
      NoRoundOfNothing(w, f, m);
    } else {
      var rows := left[..Least(BATCH, |left|)];
      FlushAlone(w, f);
      ListIsFirstLeft(w.db.outbox, w.published, BATCH);
      OneLength(w, f, rows, m, v, Flushed(w, f, rows));
    }
  }

  lemma RoundLength(w: World, f: FlushId, v: World) returns (m: nat)
    requires Round(w, f, v)
    ensures AfterTick(w, f, m + 4) == Some(v) && f in v.flushes && v.flushes[f].committed
  {
    m :| Exec(w, WholeFlush(f, m)) == Some(v);
  }

  lemma RoundLeaves(w: World, f: FlushId, v: World)
    requires Alone(w, f) && Round(w, f, v)
    ensures LeftCount(w) > 0 && LeftCount(v) == LeftCount(w) - Least(BATCH, LeftCount(w))
    ensures v.db == w.db && Alone(v, f + 1)
  {
    RoundForces(w, f, v);
    var m := Least(BATCH, LeftCount(w));
    RoundAlone(w, f, v, m);
  }

  lemma RowsAfterRound(n: nat, r: nat)
    requires 0 < r && 0 < n
    ensures RowsAfter(n - Least(BATCH, n), r - 1) == RowsAfter(n, r)
    ensures r - 1 <= Ceil10(n - Least(BATCH, n)) <==> r <= Ceil10(n)
  {
  }

  lemma FirstRound(w: World, f: FlushId, r: nat, w': World) returns (v: World)
    requires Alone(w, f) && r > 0 && Rounds(w, f, r, w')
    ensures Rounds(v, f + 1, r - 1, w') && Alone(v, f + 1) && v.db == w.db
    ensures LeftCount(w) > 0 && LeftCount(v) == LeftCount(w) - Least(BATCH, LeftCount(w))
  {
    v :| Round(w, f, v) && Rounds(v, f + 1, r - 1, w');
    RoundLeaves(w, f, v);
  }

  /** Every r committed flushes of the loop leave max(n - 10 * r, 0) of n unpublished rows,
      and there are r of them only up to r == ceil(n / 10). */
  lemma {:induction false} EveryRunDrains(w: World, f: FlushId, r: nat, w': World)
    requires Alone(w, f) && Rounds(w, f, r, w')
    ensures LeftCount(w') == RowsAfter(LeftCount(w), r) && r <= Ceil10(LeftCount(w)) && w'.db == w.db
    decreases r
  {
    if r == 0 {
    } else {
      var v := FirstRound(w, f, r, w');
      EveryRunDrains(v, f + 1, r - 1, w');
      RowsAfterRound(LeftCount(w), r);
    }
  }

  lemma {:induction false} SomeRunDrains(w: World, f: FlushId, r: nat) returns (w': World)
    requires Alone(w, f) && r <= Ceil10(LeftCount(w))
    ensures Rounds(w, f, r, w')
    decreases r
  {
    if r == 0 {
      w' := w;
    } else {
      RowsAfterRound(LeftCount(w), r);
      var v := NextRound(w, f);
      w' := SomeRunDrains(v, f + 1, r - 1);
      RoundsCons(w, f, r, v, w');
    }
  }

  lemma DrainedWhen(n: nat, r: nat)
    requires r <= Ceil10(n)
    ensures RowsAfter(n, r) == 0 <==> r == Ceil10(n)
  {
  }

  /** r flushes took w to w': so many rows are left, and none exactly when r == ceil(n / 10). */
  predicate Drained(w: World, w': World, r: nat) {
    && r <= Ceil10(LeftCount(w))
    && LeftCount(w') == RowsAfter(LeftCount(w), r)
    && (LeftCount(w') == 0 <==> r == Ceil10(LeftCount(w)))
  }

  /** One loop alone, with n unpublished rows: it can commit r flushes in a row if and only
      if r <= ceil(n / 10); whichever way it does, max(n - 10 * r, 0) rows are left, so the
      outbox is empty after exactly ceil(n / 10) flushes and never before. */
  lemma DrainsInCeil(w: World, f: FlushId, r: nat)
    requires Alone(w, f)
    ensures (exists w' :: Rounds(w, f, r, w')) <==> r <= Ceil10(LeftCount(w))
    ensures forall w' :: Rounds(w, f, r, w') ==> Drained(w, w', r)
  {
    if r <= Ceil10(LeftCount(w)) {
      var w' := SomeRunDrains(w, f, r);
      assert Rounds(w, f, r, w');
    }
    forall w' | Rounds(w, f, r, w') ensures Drained(w, w', r) {
      EveryRunDrains(w, f, r, w');
      DrainedWhen(LeftCount(w), r);
    }
    if w' :| Rounds(w, f, r, w') { assert Drained(w, w', r); }
  }
}
