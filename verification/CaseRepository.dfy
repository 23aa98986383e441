/** The case repository: CreateCase and Transition as the program has them, one
    statement after the other while everybody else runs too.  Each statement is one
    action of the protocol, so what is proved of runs holds for what they return.  With
    `alone` nobody else acts meanwhile and no statement fails. */
module CaseRepository {
  import opened Wrappers
  import opened Workflow
  import opened Tables
  import opened Protocol
  import opened Safety
  import opened Success
  import opened CaseStore

  class Repository {
    const store: Store

    constructor (store: Store)
      ensures this.store == store
    {
      this.store := store;
    }

    /** Call i is at this place, with these locks and row ids; nothing else has changed. */
    twostate predicate At(i: CallId, a: Args, pc: Pc, rows: map<CaseId, CallId>, keys: map<string, CallId>, next: nat)
      reads this, store
    {
      store.View() == With(old(store.View()), i, a, pc, rows, keys, next)
    }

    /** The lookup of the key, if there is one, outside any transaction.  A stored key
        ends the call with the stored response. */
    method Lookup(i: CallId, a: Args, alone: bool) returns (ended: Option<Reply>)
      requires store.Valid() && i !in store.calls
      modifies store
      ensures store.Valid() && old(store.acts) <= store.acts
      ensures ended.Some? ==> store.Answered(i, a, ended.value)
      ensures ended.None? ==> i in store.calls && store.calls[i] == Call(a, AtBegin)
      ensures alone ==>
                && ended == (if a.key != "" && a.key in old(store.db).idem
                             then Some(Replayed(old(store.db).idem[a.key].response)) else None)
                && At(i, a, if ended.Some? then Finished(ended.value) else AtBegin,
                      old(store.rowLock), old(store.keyLock), old(store.nextId))
    {
      store.Enter(i, a);
      if a.key != "" {
        store.Others(i, alone);
        var o := store.Draw(alone);
        var hit := store.GetIdempotency(i, o);
        if hit.Some? {
          ended := Some(Replayed(hit.value));
          store.Answer(i, ended.value);
          return;
        }
      }
      ended := None;
    }

    /** The first half of both methods: the lookup, then BEGIN. */
    method Open(i: CallId, a: Args, alone: bool) returns (ended: Option<Reply>)
      requires store.Valid() && i !in store.calls
      modifies store
      ensures store.Valid() && old(store.acts) <= store.acts
      ensures ended.Some? ==> store.Answered(i, a, ended.value)
      ensures ended.None? ==> i in store.calls && store.calls[i] == Call(a, AtOpen)
      ensures alone ==>
                && ended == (if a.key != "" && a.key in old(store.db).idem
                             then Some(Replayed(old(store.db).idem[a.key].response)) else None)
                && At(i, a, if ended.Some? then Finished(ended.value) else AtOpen,
                      old(store.rowLock), old(store.keyLock), old(store.nextId))
    {
      ended := Lookup(i, a, alone);
      if ended.Some? {
        return;
      }
      store.Others(i, alone);
      var o := store.Draw(alone);
      var begun := store.BeginTx(i, o);
      if !begun {
        ended := Some(Failed(DbError));
        store.Answer(i, ended.value);
        return;
      }
      ended := None;
    }

    /** The rollback that follows a failed statement or a refusal. */
    method GiveUp(i: CallId, a: Args, alone: bool) returns (r: Reply)
      requires store.Valid() && i in store.calls && store.calls[i].args == a && store.calls[i].pc.AtRollback?
      modifies store
      ensures store.Valid() && old(store.acts) <= store.acts
      ensures r == Failed(old(store.calls)[i].pc.why) && store.Answered(i, a, r)
      ensures alone ==> store.View() == old(store.View()).(
                calls := old(store.calls)[i := Call(a, Finished(r))],
                rowLock := ReleaseRows(old(store.rowLock), i), keyLock := ReleaseKeys(old(store.keyLock), i))
    {
      r := Failed(store.calls[i].pc.why);
      store.Others(i, alone);
      store.Rollback(i);
      store.Answer(i, r);
    }

    /** The idempotency row, when there is a key. */
    method InsertKey(i: CallId, a: Args, ghost e: Effect, ghost p: Pending, alone: bool) returns (failed: Option<Reply>)
      requires store.Valid() && i in store.calls && store.calls[i] == Call(a, Onward(a.key, e, [], p))
      modifies store
      ensures store.Valid() && old(store.acts) <= store.acts
      ensures failed.Some? ==> store.Answered(i, a, failed.value)
      ensures failed.None? ==> i in store.calls && store.calls[i] == Call(a, AtCommit(e, Keyed(a, e, p)))
      ensures alone && !p.doomed && KeyOpen(old(store.View()), a.key) ==>
                && failed.None?
                && At(i, a, AtCommit(e, Keyed(a, e, p)), old(store.rowLock), KeyHeld(old(store.keyLock), i, a.key),
                      old(store.nextId))
    {
      failed := None;
      if a.key != "" {
        store.Others(i, alone);
        var o := store.Draw(alone);
        var keyed := store.InsertIdempotency(i, o);
        if !keyed {
          var r := GiveUp(i, a, alone);
          failed := Some(r);
        }
      } else {
        Itself(store.View(), i, a, AtCommit(e, p));
      }
    }

    /** COMMIT, and the answer. */
    method Commit(i: CallId, a: Args, ghost e: Effect, ghost p: Pending, alone: bool) returns (r: Reply)
      requires store.Valid() && i in store.calls && store.calls[i] == Call(a, AtCommit(e, p))
      modifies store
      ensures old(store.acts) <= store.acts && store.Answered(i, a, r)
      ensures alone && !p.doomed ==> Ended(old(store.View()), store.View(), i, a, e, p, r)
    {
      store.Others(i, alone);
      var o := store.Draw(alone);
      r := store.CommitTx(i, o);
      store.Answer(i, r);
    }

    /** The end of both methods: the idempotency row when there is a key, and COMMIT. */
    method Close(i: CallId, a: Args, ghost e: Effect, ghost p: Pending, alone: bool) returns (r: Reply)
      requires store.Valid() && i in store.calls && store.calls[i] == Call(a, Onward(a.key, e, [], p))
      modifies store
      ensures old(store.acts) <= store.acts && store.Answered(i, a, r)
      ensures alone && !p.doomed && KeyOpen(old(store.View()), a.key) ==>
                Ended(old(store.View()).(keyLock := KeyHeld(old(store.keyLock), i, a.key)), store.View(),
                      i, a, e, Keyed(a, e, p), r)
    {
      var failed := InsertKey(i, a, e, p, alone);
      if failed.Some? {
        r := failed.value;
        return;
      }
      r := Commit(i, a, e, Keyed(a, e, p), alone);
    }

    /** One outbox row. */
    method SendMessage(i: CallId, a: Args, ghost e: Effect, ghost todo: seq<Payload>, ghost p: Pending, alone: bool)
      returns (failed: Option<Reply>, ghost p': Pending)
      requires store.Valid() && i in store.calls && todo != [] && store.calls[i] == Call(a, AtOutbox(e, todo, p))
      modifies store
      ensures store.Valid() && old(store.acts) <= store.acts
      ensures failed.Some? ==> store.Answered(i, a, failed.value)
      ensures failed.None? ==> i in store.calls && store.calls[i] == Call(a, Onward(a.key, e, todo[1..], p'))
      ensures alone && !p.doomed ==>
                && failed.None?
                && p' == p.(outbox := p.outbox + [OutboxRow(old(store.nextId), e.caseId, todo[0])])
                && At(i, a, Onward(a.key, e, todo[1..], p'), old(store.rowLock), old(store.keyLock),
                      old(store.nextId) + 1)
    {
      store.Others(i, alone);
      var o := store.Draw(alone);
      p' := p.(outbox := p.outbox + [OutboxRow(store.nextId, e.caseId, todo[0])]);
      var written := store.InsertOutbox(i, o);
      failed := None;
      if !written {
        var r := GiveUp(i, a, alone);
        failed := Some(r);
      }
    }

    /** The one outbox row of a new case, and the end. */
    method WriteMessage(i: CallId, a: Args, ghost e: Effect, ghost p: Pending, alone: bool) returns (r: Reply)
      requires store.Valid() && i in store.calls && store.calls[i] == Call(a, AtOutbox(e, [e.msg], p)) && p.outbox == []
      modifies store
      ensures old(store.acts) <= store.acts && store.Answered(i, a, r)
      ensures alone && !p.doomed && KeyOpen(old(store.View()), a.key) ==>
                Ended(old(store.View()).(keyLock := KeyHeld(old(store.keyLock), i, a.key)), store.View(), i, a, e,
                      Keyed(a, e, p.(outbox := [OutboxRow(old(store.nextId), e.caseId, e.msg)])), r)
    {
      var failed, p' := SendMessage(i, a, e, [e.msg], p, alone);
      if failed.Some? {
        r := failed.value;
        return;
      }
      assert [e.msg][1..] == [];
      ghost var row := OutboxRow(old(store.nextId), e.caseId, e.msg);
      assert alone && !p.doomed ==> p'.outbox == [row] by { assert [] + [row] == [row]; }
      r := Close(i, a, e, p', alone);
    }

    /** After the insert of a new case: the timeline row, whose error is dropped, the
        outbox row, and the end. */
    method WriteCreated(i: CallId, a: Args, ghost e: Effect, alone: bool) returns (r: Reply)
      requires store.Valid() && a.Create? && i in store.calls
               && store.calls[i] == Call(a, AtTimeline(e, [e.msg], NOTHING))
      modifies store
      ensures old(store.acts) <= store.acts && store.Answered(i, a, r)
      ensures alone && KeyOpen(old(store.View()), a.key) ==>
                Ended(old(store.View()).(keyLock := KeyHeld(old(store.keyLock), i, a.key)), store.View(),
                      i, a, e, Pendings(a, e, old(store.nextId)), r)
    {
      store.Others(i, alone);
      var o := store.Draw(alone);
      var ignored := store.InsertTimeline(i, o);
      ghost var p := store.calls[i].pc.p;
      assert NOTHING.timeline + [e.entry] == [e.entry];
      r := WriteMessage(i, a, e, p, alone);
    }

    method CreateCase(i: CallId, a: Args, alone: bool) returns (r: Reply)
      requires store.Valid() && i !in store.calls && a.Create?
      modifies store
      ensures old(store.acts) <= store.acts && store.Answered(i, a, r)
      ensures alone && a.key != "" && a.key in old(store.db).idem ==>
                r == Replayed(old(store.db).idem[a.key].response) && store.db == old(store.db)
      ensures alone && KeyOpen(old(store.View()), a.key) ==>
                && r.Committed? && r.response.caseId !in old(store.db).cases
                && Created(old(store.View()), store.View(), i, a, r.response.caseId)
    {
      FreshHoldsNothing(store.past, store.acts, i);
      var ended := Open(i, a, alone);
      if ended.Some? {
        r := ended.value;
        return;
      }
      r := CreateOpen(i, a, alone);
      if alone && KeyOpen(old(store.View()), a.key) {
        EndedCreates(old(store.View()), store.View(), i, a, r);
      }
    }

    /** The transaction of CreateCase. */
    method CreateOpen(i: CallId, a: Args, alone: bool) returns (r: Reply)
      requires store.Valid() && i in store.calls && store.calls[i] == Call(a, AtOpen) && a.Create?
      modifies store
      ensures old(store.acts) <= store.acts && store.Answered(i, a, r)
      ensures alone && KeyOpen(old(store.View()), a.key) ==>
                r.Committed? && EndsCreate(old(store.View()), store.View(), i, a, r)
    {
      store.Others(i, alone);
      var o := store.Draw(alone);
      var id := store.InsertCase(i, o);
      if id.None? {
        r := GiveUp(i, a, alone);
        return;
      }
      r := WriteCreated(i, a, CreateEffect(a, id.value), alone);
    }

    /** The loop over the messages of the intent. */
    method SendMessages(i: CallId, a: Args, e: Effect, messages: seq<Payload>, alone: bool)
      returns (failed: Option<Reply>, ghost p: Pending)
      requires store.Valid() && i in store.calls
               && store.calls[i] == Call(a, Onward(a.key, e, messages, NOTHING.(timeline := [e.entry])))
      modifies store
      ensures store.Valid() && old(store.acts) <= store.acts
      ensures failed.Some? ==> store.Answered(i, a, failed.value)
      ensures failed.None? ==> i in store.calls && store.calls[i] == Call(a, Onward(a.key, e, [], p))
      ensures alone ==>
                && failed.None? && p == NOTHING.(timeline := [e.entry], outbox := p.outbox)
                && p.outbox == Rows(e.caseId, messages, old(store.nextId))
                && At(i, a, Onward(a.key, e, [], p), old(store.rowLock), old(store.keyLock),
                      old(store.nextId) + |messages|)
    {
      p := NOTHING.(timeline := [e.entry]);
      var k := 0;
      assert messages[0..] == messages && messages[..0] == [];
      Itself(store.View(), i, a, Onward(a.key, e, messages, p));
      while k < |messages|
        invariant k <= |messages| && store.Valid() && old(store.acts) <= store.acts
        invariant i in store.calls && store.calls[i] == Call(a, Onward(a.key, e, messages[k..], p))
        invariant alone ==> p == NOTHING.(timeline := [e.entry], outbox := p.outbox)
        invariant alone ==> p.outbox == Rows(e.caseId, messages[..k], old(store.nextId))
        invariant alone ==> At(i, a, Onward(a.key, e, messages[k..], p), old(store.rowLock), old(store.keyLock),
                               old(store.nextId) + k)
      {
        var unsent, p' := SendMessage(i, a, e, messages[k..], p, alone);
        if unsent.Some? {
          failed := unsent;
          return;
        }
        RowsSnoc(e.caseId, messages, k, old(store.nextId));
        assert messages[k..][1..] == messages[k + 1..];
        p := p';
        k := k + 1;
      }
      assert messages[..|messages|] == messages;
      failed := None;
    }

    /** The messages of the intent, and the end. */
    method WriteMessages(i: CallId, a: Args, e: Effect, messages: seq<Payload>, alone: bool) returns (r: Reply)
      requires store.Valid() && i in store.calls
               && store.calls[i] == Call(a, Onward(a.key, e, messages, NOTHING.(timeline := [e.entry])))
      modifies store
      ensures old(store.acts) <= store.acts && store.Answered(i, a, r)
      ensures alone && messages == [e.msg] && KeyOpen(old(store.View()), a.key) ==>
                Ended(old(store.View()).(keyLock := KeyHeld(old(store.keyLock), i, a.key)), store.View(),
                      i, a, e, Pendings(a, e, old(store.nextId)), r)
    {
      var failed, p := SendMessages(i, a, e, messages, alone);
      if failed.Some? {
        r := failed.value;
        return;
      }
      r := Close(i, a, e, p, alone);
      if alone && messages == [e.msg] && KeyOpen(old(store.View()), a.key) {
        OneRow(a, e, p, old(store.nextId));
        EndedEarlier(old(store.View()), Onward(a.key, e, [], p), old(store.nextId) + 1, store.View(), i, a, e,
                     Pendings(a, e, old(store.nextId)), KeyHeld(old(store.keyLock), i, a.key), r);
      }
    }

    /** The timeline row, then the messages. */
    method WriteMoved(i: CallId, a: Args, e: Effect, messages: seq<Payload>, alone: bool) returns (r: Reply)
      requires store.Valid() && a.Transition? && i in store.calls
               && store.calls[i] == Call(a, AtTimeline(e, messages, NOTHING))
      modifies store
      ensures old(store.acts) <= store.acts && store.Answered(i, a, r)
      ensures alone && messages == [e.msg] && KeyOpen(old(store.View()), a.key) ==>
                Ended(old(store.View()).(keyLock := KeyHeld(old(store.keyLock), i, a.key)), store.View(),
                      i, a, e, Pendings(a, e, old(store.nextId)), r)
    {
      store.Others(i, alone);
      var o := store.Draw(alone);
      var noted := store.InsertTimeline(i, o);
      if !noted {
        r := GiveUp(i, a, alone);
        return;
      }
      assert NOTHING.timeline + [e.entry] == [e.entry];
      r := WriteMessages(i, a, e, messages, alone);
    }

    /** The update, and the log rows. */
    method UpdateCase(i: CallId, a: Args, cur: CaseRow, intent: Intent, alone: bool) returns (r: Reply)
      requires store.Valid() && a.Transition? && i in store.calls && store.calls[i] == Call(a, AtUpdate(cur, intent))
      requires |intent.messages| > 0
      modifies store
      ensures old(store.acts) <= store.acts && store.Answered(i, a, r)
      ensures alone && |intent.messages| == 1 && KeyOpen(old(store.View()), a.key) ==>
                var e := TransitionEffect(a, cur, intent);
                Ended(old(store.View()).(keyLock := KeyHeld(old(store.keyLock), i, a.key)), store.View(),
                      i, a, e, Pendings(a, e, old(store.nextId)), r)
    {
      store.Others(i, alone);
      var o := store.Draw(alone);
      var updated := store.UpdateCaseStatus(i, o);
      if updated.Failure? {
        r := GiveUp(i, a, alone);
        return;
      }
      r := WriteMoved(i, a, updated.value, intent.messages, alone);
    }

    /** With the row locked: If-Match and the state machine. */
    method CheckMove(i: CallId, a: Args, cur: CaseRow, alone: bool) returns (intent: Result<Intent, CallError>)
      requires store.Valid() && a.Transition? && i in store.calls && store.calls[i] == Call(a, AtDecide(cur))
      modifies store
      ensures store.Valid() && old(store.acts) <= store.acts && i in store.calls
      ensures store.calls[i]
           == Call(a, if intent.Success? then AtUpdate(cur, intent.value) else AtRollback(intent.error))
      ensures alone ==> store.View() == old(store.View()).(calls := old(store.calls)[i := store.calls[i]])
      ensures RefusedBy(a, cur) == if intent.Success? then None else Some(intent.error)
      ensures intent.Success? ==>
                Decide(cur.status, a.event, a.ctx, a.caseId) == Success(intent.value) && |intent.value.messages| == 1
    {
      RefusalDecides(a, cur);
      store.Others(i, alone);
      intent := store.CheckAndDecide(i);
    }

    /** Then the update and the log rows. */
    method MoveCase(i: CallId, a: Args, cur: CaseRow, alone: bool) returns (r: Reply)
      requires store.Valid() && a.Transition? && i in store.calls && store.calls[i] == Call(a, AtDecide(cur))
      modifies store
      ensures old(store.acts) <= store.acts && store.Answered(i, a, r)
      ensures alone && RefusedBy(a, cur).Some? ==>
                && r == Failed(RefusedBy(a, cur).value)
                && store.View() == old(store.View()).(
                     calls := old(store.calls)[i := Call(a, Finished(r))],
                     rowLock := ReleaseRows(old(store.rowLock), i), keyLock := ReleaseKeys(old(store.keyLock), i))
      ensures alone && RefusedBy(a, cur).None? && KeyOpen(old(store.View()), a.key) ==>
                EndsMove(old(store.View()), store.View(), i, a, cur, r)
    {
      var intent := CheckMove(i, a, cur, alone);
      if intent.Failure? {
        r := GiveUp(i, a, alone);
        return;
      }
      r := UpdateCase(i, a, cur, intent.value, alone);
    }

    method Transition(i: CallId, a: Args, alone: bool) returns (r: Reply)
      requires store.Valid() && i !in store.calls && a.Transition?
      modifies store
      ensures old(store.acts) <= store.acts && store.Answered(i, a, r)
      ensures alone && a.key != "" && a.key in old(store.db).idem ==>
                r == Replayed(old(store.db).idem[a.key].response) && store.db == old(store.db)
      ensures alone && (a.key == "" || a.key !in old(store.db).idem) && a.caseId !in old(store.rowLock)
                && RefusalOf(old(store.db), a).Some? ==>
                r == Failed(RefusalOf(old(store.db), a).value) && store.db == old(store.db)
      ensures alone && KeyOpen(old(store.View()), a.key) && a.caseId !in old(store.rowLock)
                && RefusalOf(old(store.db), a).None? ==>
                r.Committed? && Moved(old(store.View()), store.View(), i, a)
    {
      FreshHoldsNothing(store.past, store.acts, i);
      var ended := Open(i, a, alone);
      if ended.Some? {
        r := ended.value;
        return;
      }
      r := TransitionOpen(i, a, alone);
      if alone && KeyOpen(old(store.View()), a.key) && a.caseId !in old(store.rowLock)
         && RefusalOf(old(store.db), a).None? {
        EndedMoves(old(store.View()), store.View(), i, a, r);
      }
    }

    /** The transaction of Transition. */
    method TransitionOpen(i: CallId, a: Args, alone: bool) returns (r: Reply)
      requires store.Valid() && i in store.calls && store.calls[i] == Call(a, AtOpen) && a.Transition?
      modifies store
      ensures old(store.acts) <= store.acts && store.Answered(i, a, r)
      ensures alone && a.caseId !in old(store.db).cases ==> r == Failed(NoRows) && store.db == old(store.db)
      ensures alone && a.caseId in old(store.db).cases && a.caseId !in old(store.rowLock)
                && RefusedBy(a, old(store.db).cases[a.caseId]).Some? ==>
                r == Failed(RefusedBy(a, old(store.db).cases[a.caseId]).value) && store.db == old(store.db)
      ensures alone && a.caseId in old(store.db).cases && a.caseId !in old(store.rowLock)
                && RefusedBy(a, old(store.db).cases[a.caseId]).None? && KeyOpen(old(store.View()), a.key) ==>
                EndsMove(old(store.View()).(rowLock := old(store.rowLock)[a.caseId := i]), store.View(),
                         i, a, old(store.db).cases[a.caseId], r)
    {
      store.Others(i, alone);
      var o := store.Draw(alone);
      var current := store.GetCaseForUpdate(i, o);
      if current.Failure? {
        r := GiveUp(i, a, alone);
        return;
      }
      r := MoveCase(i, a, current.value, alone);
    }
  }

  /** The pending writes with the key row, when there is a key. */
  function Keyed(a: Args, e: Effect, p: Pending): Pending {
    if a.key == "" then p else p.(idem := map[a.key := e.idem])
  }

  function KeyHeld(keys: map<string, CallId>, i: CallId, key: string): map<string, CallId> {
    if key == "" then keys else keys[key := i]
  }

  /** COMMIT has come through: everything pending is written, and the locks are gone. */
  ghost predicate Ended(w: World, w': World, i: CallId, a: Args, e: Effect, p: Pending, r: Reply) {
    && r == Committed(Response(e.caseId, e.row))
    && w'.db == Write(w.db, e, p) && w'.calls == w.calls[i := Call(a, Finished(r))]
    && w'.rowLock == ReleaseRows(w.rowLock, i) && w'.keyLock == ReleaseKeys(w.keyLock, i)
  }

  ghost predicate EndsCreate(w: World, w': World, i: CallId, a: Args, r: Reply)
    requires a.Create? && r.Committed?
  {
    var id := r.response.caseId;
    && id !in w.db.cases && id !in w.rowLock
    && var e := CreateEffect(a, id);
       Ended(w.(rowLock := w.rowLock[id := i], keyLock := KeyHeld(w.keyLock, i, a.key)), w',
             i, a, e, Pendings(a, e, w.nextId), r)
  }

  lemma EndedCreates(w: World, w': World, i: CallId, a: Args, r: Reply)
    requires a.Create? && r.Committed? && HoldsNothing(w, i) && KeyOpen(w, a.key)
    requires EndsCreate(With(w, i, a, AtOpen, w.rowLock, w.keyLock, w.nextId), w', i, a, r)
    ensures r.response.caseId !in w.db.cases && Created(w, w', i, a, r.response.caseId)
  {
    var id := r.response.caseId;
    var e := CreateEffect(a, id);
    EndedSucceeds(w, w', i, a, e, r);
    InsertKeepsRows(w.db.outbox, OutboxRow(w.nextId, id, e.msg));
  }

  /** The stored case is in the state that its event leads to, with the next version. */
  ghost predicate Moved(w: World, w': World, i: CallId, a: Args)
    requires a.Transition?
  {
    && a.caseId in w.db.cases
    && var cur := w.db.cases[a.caseId];
       var to := After(Some(cur.status), Move(a.event, a.ctx));
       to.Some? && Transitioned(w, w', i, a, cur, to.value)
  }

  ghost predicate EndsMove(w: World, w': World, i: CallId, a: Args, cur: CaseRow, r: Reply)
    requires a.Transition?
  {
    exists d :: && Decide(cur.status, a.event, a.ctx, a.caseId) == Success(d) && |d.messages| > 0
                && var e := TransitionEffect(a, cur, d);
                   Ended(w.(keyLock := KeyHeld(w.keyLock, i, a.key)), w', i, a, e, Pendings(a, e, w.nextId), r)
  }

  /** What the lone COMMIT leaves is what the whole call was to leave. */
  lemma EndedSucceeds(w: World, w': World, i: CallId, a: Args, e: Effect, r: Reply)
    requires HoldsNothing(w, i) && KeyOpen(w, a.key) && e.caseId !in w.rowLock
    requires Ended(With(w, i, a, AtOpen, w.rowLock[e.caseId := i], KeyHeld(w.keyLock, i, a.key), w.nextId), w',
                   i, a, e, Pendings(a, e, w.nextId), r)
    ensures SameTables(Succeeded(w, i, a, e), w')
  {
    LocksFreed(w, i, e.caseId, a.key);
    WrittenAtOnce(w.db, a, e, w.nextId);
    assert w.calls[i := Call(a, AtOpen)][i := Call(a, Finished(r))] == w.calls[i := Call(a, Finished(r))];
  }

  predicate SameTables(w: World, w': World) {
    w'.calls == w.calls && w'.db == w.db && w'.rowLock == w.rowLock && w'.keyLock == w.keyLock
  }

  lemma SameMoved(w: World, v: World, w': World, i: CallId, a: Args, cur: CaseRow, to: State)
    requires a.Transition? && Transitioned(w, v, i, a, cur, to) && SameTables(v, w')
    ensures Transitioned(w, w', i, a, cur, to)
  {
  }

  lemma EndedMoves(w: World, w': World, i: CallId, a: Args, r: Reply)
    requires a.Transition? && HoldsNothing(w, i) && KeyOpen(w, a.key)
    requires a.caseId in w.db.cases && a.caseId !in w.rowLock
    requires EndsMove(With(w, i, a, AtOpen, w.rowLock[a.caseId := i], w.keyLock, w.nextId), w',
                      i, a, w.db.cases[a.caseId], r)
    ensures r.Committed? && Moved(w, w', i, a)
  {
    var cur := w.db.cases[a.caseId];
    var d :| Decide(cur.status, a.event, a.ctx, a.caseId) == Success(d);
    var e := TransitionEffect(a, cur, d);
    EndedSucceeds(w, w', i, a, e, r);
    TransitionedRows(w, i, a, d, d.to);
    SameMoved(w, Succeeded(w, i, a, e), w', i, a, cur, d.to);
  }

  lemma RefusalDecides(a: Args, cur: CaseRow)
    requires a.Transition?
    ensures (if a.ifMatch != 0 && a.ifMatch != cur.version then Some(NoRows)
             else match Decide(cur.status, a.event, a.ctx, a.caseId)
                  case Success(_) => None
                  case Failure(e) => Some(Refused(e))) == RefusedBy(a, cur)
    ensures Decide(cur.status, a.event, a.ctx, a.caseId).Success? ==>
              |Decide(cur.status, a.event, a.ctx, a.caseId).value.messages| == 1
  {
    DecidesExactly(cur.status, a.event, a.ctx, a.caseId);
  }

  /** The rows of these messages, with ids from next on. */
  function Rows(c: CaseId, messages: seq<Payload>, next: nat): seq<OutboxRow> {
    seq(|messages|, j requires 0 <= j < |messages| => OutboxRow(next + j, c, messages[j]))
  }

  lemma OneRow(a: Args, e: Effect, p: Pending, next: nat)
    requires p == NOTHING.(timeline := [e.entry], outbox := Rows(e.caseId, [e.msg], next))
    ensures Keyed(a, e, p) == Pendings(a, e, next)
  {
    assert p.outbox == [OutboxRow(next, e.caseId, e.msg)];
  }

  /** Drawing ids and moving on in its own call does not matter for how a call ends. */
  lemma EndedEarlier(w: World, pc: Pc, next: nat, w': World, i: CallId, a: Args, e: Effect, p: Pending,
                     keys: map<string, CallId>, r: Reply)
    requires Ended(With(w, i, a, pc, w.rowLock, w.keyLock, next).(keyLock := keys), w', i, a, e, p, r)
    ensures Ended(w.(keyLock := keys), w', i, a, e, p, r)
  {
    assert w.calls[i := Call(a, pc)][i := Call(a, Finished(r))] == w.calls[i := Call(a, Finished(r))];
  }

  lemma RowsSnoc(c: CaseId, messages: seq<Payload>, k: nat, next: nat)
    requires k < |messages|
    ensures Rows(c, messages[..k + 1], next) == Rows(c, messages[..k], next) + [OutboxRow(next + k, c, messages[k])]
  {
  }

  /** A call that has not arrived holds no lock. */
  lemma FreshHoldsNothing(ws: seq<World>, acts: seq<Action>, i: CallId)
    requires IsRun(ws, acts) && i !in ws[|acts|].calls
    ensures HoldsNothing(ws[|acts|], i)
  {
    ReachableInv(ws, acts, |acts|);
  }

  lemma LocksFreed(w: World, i: CallId, c: CaseId, key: string)
    requires HoldsNothing(w, i) && c !in w.rowLock && (key != "" ==> key !in w.keyLock)
    ensures ReleaseRows(w.rowLock[c := i], i) == w.rowLock
    ensures ReleaseKeys(if key == "" then w.keyLock else w.keyLock[key := i], i) == w.keyLock
  {
    RowGoes(w, i, c);
    if key != "" { LocksGo(w, i, c, key); }
  }
}
