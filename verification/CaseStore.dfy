/** The database as the program uses it: each statement of a call or of a flush is a
    method that changes the tables in place.  Each is one action of the protocol, and
    between two of them everybody else may act any number of times, so the theorems
    about runs hold for whatever is built from these methods. */
module CaseStore {
  import opened Wrappers
  import opened Workflow
  import opened Tables
  import opened History
  import opened Protocol
  import opened Safety
  import opened StoreTheorems
  import opened Outbox
  import opened Progress

  lemma RunExtend(ws: seq<World>, acts: seq<Action>, a: Action, w: World)
    requires IsRun(ws, acts) && Step(ws[|acts|], a) == Some(w)
    ensures IsRun(ws + [w], acts + [a])
  {
    var ws', acts' := ws + [w], acts + [a];
    forall k {:trigger acts'[k]} | 0 <= k < |acts'| ensures Step(ws'[k], acts'[k]) == Some(ws'[k + 1]) {
      if k < |acts| { assert acts'[k] == acts[k]; }
    }
  }

  /** What a finished call may tell its client: success means that exactly this call
      is committed with the row it returns; a replay, a refusal or a missing row means
      that it has committed nothing; and there is one moment of the run at which the
      whole call took effect or the tables explained its answer. */
  ghost predicate Truthful(ws: seq<World>, acts: seq<Action>, i: CallId, a: Args, r: Reply)
    requires IsRun(ws, acts)
  {
    var w := ws[|acts|];
    && i in w.calls && w.calls[i] == Call(a, Finished(r))
    && (r.Committed? ==>
          exists n :: n in w.commits && n.call == i && n.args == a
              && r.response == Response(n.effect.caseId, n.effect.row))
    && (r.Replayed? || (r.Failed? && r.reason != DbError) ==> forall n :: n in w.commits ==> n.call != i)
    && exists m: nat :: Moment(ws, |acts|, m, i)
  }

  class Store {
    var db: Db
    var published: set<nat>
    var nextId: nat
    var rowLock: map<CaseId, CallId>
    var keyLock: map<string, CallId>
    var outLock: map<nat, FlushId>
    var calls: map<CallId, Call>
    var flushes: map<FlushId, Flush>
    var sent: seq<Sent>
    var commits: seq<Commit>
    ghost var past: seq<World>
    ghost var acts: seq<Action>

    function View(): World
      reads this
    {
      World(db, published, nextId, rowLock, keyLock, outLock, calls, flushes, sent, commits)
    }

    /** The store is where a run of the protocol has led. */
    ghost predicate Valid()
      reads this
    {
      IsRun(past, acts) && past[|acts|] == View()
    }

    constructor ()
      ensures Valid() && acts == [] && View() == START
    {
      db, published := EMPTY_DB, {};
      nextId, rowLock, keyLock, outLock := 1, map[], map[], map[];
      calls, flushes, sent, commits := map[], map[], [], [];
      past, acts := [START], [];
    }

    /** Notes that the fields have just been moved by the action. */
    ghost method Record(a: Action)
      requires IsRun(past, acts) && Step(past[|acts|], a) == Some(View())
      modifies this`past, this`acts
      ensures Valid() && acts == old(acts) + [a]
    {
      RunExtend(past, acts, a, View());
      past, acts := past + [View()], acts + [a];
    }

    // ----------------------------------------------------- everybody else

    /** The fields become those of the next world of a call's action. */
    method ActCall(a: Action, w: World)
      requires IsRun(past + [w], acts + [a]) && FlushPartSame(View(), w)
      modifies this
      ensures Valid() && acts == old(acts) + [a] && View() == w
    {
      past, acts := past + [w], acts + [a];
      db, nextId, rowLock, keyLock, calls, commits := w.db, w.nextId, w.rowLock, w.keyLock, w.calls, w.commits;
    }

    /** The fields become those of the next world of a flush's action. */
    method ActFlush(a: Action, w: World)
      requires IsRun(past + [w], acts + [a]) && SameCalls(View(), w)
      modifies this
      ensures Valid() && acts == old(acts) + [a] && View() == w
    {
      past, acts := past + [w], acts + [a];
      published, outLock, flushes, sent := w.published, w.outLock, w.flushes, w.sent;
    }

    /** Any possible action. */
    method Act(a: Action, w: World)
      requires Valid() && Step(View(), a) == Some(w)
      modifies this
      ensures Valid() && acts == old(acts) + [a] && View() == w
    {
      RunExtend(past, acts, a, w);
      if a.Arrive? || a.Run? {
        CallActionFlushes(View(), a, w);
        ActCall(a, w);
      } else {
        FlushSteps(View(), a);
        ActFlush(a, w);
      }
    }

    /** How the database ends the next statement: anyhow, unless all is well. */
    method Draw(alone: bool) returns (o: Outcome)
      ensures alone ==> o == Good
    {
      if alone { o := Good; } else { o := *; }
    }

    /** Any number of actions of other calls and of flushes, between two statements of
        call i; none if it is alone. */
    method Others(i: CallId, alone: bool)
      requires Valid() && i in calls
      modifies this
      ensures Valid() && old(acts) <= acts && i in calls && calls[i] == old(calls[i])
      ensures alone ==> View() == old(View())
    {
      var n: nat := *;
      while n > 0 && !alone
        invariant Valid() && old(acts) <= acts && i in calls && calls[i] == old(calls[i])
        invariant alone ==> View() == old(View())
        decreases n
      {
        var a: Action := *;
        var w := Step(View(), a);
        if w.Some? && !(a.Run? && a.i == i) {
          OtherCallKept(past, acts, i, a);
          Act(a, w.value);
        }
        n := n - 1;
      }
    }

    /** Any number of actions of calls and other flushes, between two statements of
        flush f; its database session may be lost meanwhile.  None if it is alone. */
    method OtherFlushes(f: FlushId, alone: bool)
      requires Valid() && f in flushes
      modifies this
      ensures Valid() && old(acts) <= acts && f in flushes
      ensures flushes[f] == old(flushes[f]).(live := flushes[f].live)
      ensures old(sent) <= sent
      ensures alone ==> View() == old(View())
    {
      var n: nat := *;
      while n > 0 && !alone
        invariant Valid() && old(acts) <= acts && f in flushes
        invariant alone ==> View() == old(View())
        decreases n
        invariant flushes[f] == old(flushes[f]).(live := flushes[f].live)
        invariant old(sent) <= sent
      {
        var a: Action := *;
        var w := Step(View(), a);
        if w.Some? && !(a.RunFlush? && a.f == f) {
          OtherFlushKept(past, acts, f, a);
          Act(a, w.value);
        }
        n := n - 1;
      }
    }

    // ------------------------------------------- statements of a call

    /** Call i is at this place, and nothing but its own transaction has changed. */
    twostate predicate Moved(i: CallId, pc: Pc)
      reads this
    {
      && old(i in calls) && calls == old(calls)[i := old(calls)[i].(pc := pc)]
      && View() == old(View()).(calls := calls, rowLock := rowLock, keyLock := keyLock, nextId := nextId)
    }

    /** No lock of a row or a key is taken or freed, and no row id is drawn. */
    twostate predicate LocksKept()
      reads this
    {
      rowLock == old(rowLock) && keyLock == old(keyLock) && nextId == old(nextId)
    }

    method Enter(i: CallId, a: Args)
      requires Valid() && i !in calls
      modifies this
      ensures Valid() && old(acts) <= acts
      ensures View() == old(View()).(calls := old(calls)[i := Call(a, if a.key != "" then AtLookup else AtBegin)])
    {
      calls := calls[i := Call(a, if a.key != "" then AtLookup else AtBegin)];
      Record(Arrive(i, a));
    }

    method GetIdempotency(i: CallId, o: Outcome) returns (hit: Option<Response>)
      requires Valid() && i in calls && calls[i].pc == AtLookup
      modifies this
      ensures Valid() && old(acts) <= acts
      ensures Moved(i, if hit.Some? then Finished(Replayed(hit.value)) else AtBegin) && LocksKept()
      ensures var key := calls[i].args.key;
              hit == if o != Bad && key in db.idem then Some(db.idem[key].response) else None
    {
      var key := calls[i].args.key;
      hit := if o.Bad? || key !in db.idem then None else Some(db.idem[key].response);
      calls := calls[i := calls[i].(pc := if hit.Some? then Finished(Replayed(hit.value)) else AtBegin)];
      Record(Run(i, o, 0));
    }

    method BeginTx(i: CallId, o: Outcome) returns (ok: bool)
      requires Valid() && i in calls && calls[i].pc == AtBegin
      modifies this
      ensures Valid() && old(acts) <= acts
      ensures ok <==> o != Bad
      ensures Moved(i, if ok then AtOpen else Finished(Failed(DbError))) && LocksKept()
    {
      ok := !o.Bad?;
      calls := calls[i := calls[i].(pc := if ok then AtOpen else Finished(Failed(DbError)))];
      Record(Run(i, o, 0));
    }

    /** tx.Rollback: the writes of the transaction are dropped and its locks freed. */
    method Rollback(i: CallId)
      requires Valid() && i in calls && calls[i].pc.AtRollback?
      modifies this
      ensures Valid() && old(acts) <= acts
      ensures Moved(i, Finished(Failed(old(calls[i].pc.why))))
      ensures rowLock == ReleaseRows(old(rowLock), i) && keyLock == ReleaseKeys(old(keyLock), i)
      ensures nextId == old(nextId)
    {
      calls := calls[i := calls[i].(pc := Finished(Failed(calls[i].pc.why)))];
      rowLock, keyLock := ReleaseRows(rowLock, i), ReleaseKeys(keyLock, i);
      Record(Run(i, Good, 0));
    }

    /** INSERT INTO ops_case ... RETURNING: the row has a generated id and version 1. */
    method InsertCase(i: CallId, o: Outcome) returns (id: Option<CaseId>)
      requires Valid() && i in calls && calls[i].pc == AtOpen && calls[i].args.Create?
      modifies this
      ensures Valid() && old(acts) <= acts
      ensures id.Some? <==> o != Bad
      ensures id.Some? ==> var e := CreateEffect(old(calls)[i].args, id.value);
                           && id.value !in db.cases && Moved(i, AtTimeline(e, [e.msg], NOTHING))
                           && id.value !in old(rowLock) && rowLock == old(rowLock)[id.value := i]
      ensures id.None? ==> Moved(i, AtRollback(DbError)) && rowLock == old(rowLock)
      ensures keyLock == old(keyLock) && nextId == old(nextId)
    {
      if o.Bad? {
        id := None;
        calls := calls[i := calls[i].(pc := AtRollback(DbError))];
        Record(Run(i, o, 0));
      } else {
        ghost var unused := UnusedId(db.cases.Keys + rowLock.Keys);
        var n: nat :| n !in db.cases.Keys + rowLock.Keys;
        id := Some(n);
        var e := CreateEffect(calls[i].args, n);
        rowLock := rowLock[n := i];
        calls := calls[i := calls[i].(pc := AtTimeline(e, [e.msg], NOTHING))];
        Record(Run(i, o, n));
      }
    }

    /** SELECT ... FOR UPDATE.  A wait that does not end in the lock ends in an error. */
    method GetCaseForUpdate(i: CallId, o: Outcome) returns (row: Result<CaseRow, CallError>)
      requires Valid() && i in calls && calls[i].pc == AtOpen && calls[i].args.Transition?
      modifies this
      ensures Valid() && old(acts) <= acts
      ensures row.Success? ==> var c := old(calls)[i].args.caseId;
                               && c in db.cases && row.value == db.cases[c] && Moved(i, AtDecide(row.value))
                               && c !in old(rowLock) && rowLock == old(rowLock)[c := i]
      ensures row.Failure? ==> Moved(i, AtRollback(row.error)) && rowLock == old(rowLock)
      ensures keyLock == old(keyLock) && nextId == old(nextId)
      ensures var c := old(calls)[i].args.caseId;
              && (row.Success? <==> o != Bad && c in db.cases && c !in old(rowLock))
              && (row == Failure(NoRows) <==> o != Bad && c !in db.cases)
              && (row.Failure? ==> row.error == NoRows || row.error == DbError)
    {
      var c := calls[i].args.caseId;
      if !o.Bad? && c in db.cases && c !in rowLock {
        row := Success(db.cases[c]);
        rowLock := rowLock[c := i];
        calls := calls[i := calls[i].(pc := AtDecide(row.value))];
        Record(Run(i, o, 0));
      } else {
        row := Failure(if !o.Bad? && c !in db.cases then NoRows else DbError);
        calls := calls[i := calls[i].(pc := AtRollback(row.error))];
        Record(Run(i, if row.error == NoRows then o else Bad, 0));
      }
    }

    /** If-Match and workflow.Decide, on local values only. */
    method CheckAndDecide(i: CallId) returns (intent: Result<Intent, CallError>)
      requires Valid() && i in calls && calls[i].pc.AtDecide? && calls[i].args.Transition?
      modifies this
      ensures Valid() && old(acts) <= acts
      ensures intent.Success? ==> |intent.value.messages| > 0 && Moved(i, AtUpdate(old(calls)[i].pc.cur, intent.value))
      ensures intent.Failure? ==> Moved(i, AtRollback(intent.error))
      ensures LocksKept()
      ensures var a, cur := old(calls)[i].args, old(calls)[i].pc.cur;
              intent == if a.ifMatch != 0 && a.ifMatch != cur.version then Failure(NoRows)
                        else match Decide(cur.status, a.event, a.ctx, a.caseId)
                             case Success(d) => Success(d)
                             case Failure(e) => Failure(Refused(e))
    {
      var a, cur := calls[i].args, calls[i].pc.cur;
      if !IfMatchOk(a, cur.version) {
        intent := Failure(NoRows);
      } else {
        match Decide(cur.status, a.event, a.ctx, a.caseId)
        case Success(d) => intent := Success(d);
        case Failure(e) => intent := Failure(Refused(e));
      }
      var pc := if intent.Success? then AtUpdate(cur, intent.value) else AtRollback(intent.error);
      calls := calls[i := calls[i].(pc := pc)];
      Record(Run(i, Good, 0));
    }

    /** UPDATE ... SET status, version = version + 1 WHERE case_id AND version: it always
        finds the row, because the row is locked. */
    method UpdateCaseStatus(i: CallId, o: Outcome) returns (updated: Result<Effect, CallError>)
      requires Valid() && i in calls && calls[i].pc.AtUpdate? && calls[i].args.Transition?
      requires |calls[i].pc.intent.messages| > 0
      modifies this
      ensures Valid() && old(acts) <= acts
      ensures updated.Success? ==>
                var a, cur, intent := old(calls)[i].args, old(calls)[i].pc.cur, old(calls)[i].pc.intent;
                && updated.value == TransitionEffect(a, cur, intent)
                && Moved(i, AtTimeline(updated.value, intent.messages, NOTHING))
      ensures updated.Success? <==> o != Bad
      ensures updated.Failure? ==> updated.error == DbError && Moved(i, AtRollback(DbError))
      ensures LocksKept()
    {
      var a, cur, intent := calls[i].args, calls[i].pc.cur, calls[i].pc.intent;
      if o.Bad? {
        updated := Failure(DbError);
        calls := calls[i := calls[i].(pc := AtRollback(DbError))];
      } else if a.caseId in db.cases && db.cases[a.caseId].version == cur.version {
        updated := Success(TransitionEffect(a, db.cases[a.caseId], intent));
        calls := calls[i := calls[i].(pc := AtTimeline(updated.value, intent.messages, NOTHING))];
      } else {
        updated := Failure(NoRows);
        calls := calls[i := calls[i].(pc := AtRollback(NoRows))];
      }
      Record(Run(i, o, 0));
      LockedRow(old(past), old(acts), i);
    }

    method InsertTimeline(i: CallId, o: Outcome) returns (ok: bool)
      requires Valid() && i in calls && calls[i].pc.AtTimeline?
      modifies this
      ensures Valid() && old(acts) <= acts
      ensures var a, e, todo, p := old(calls)[i].args, old(calls)[i].pc.e, old(calls)[i].pc.todo, old(calls)[i].pc.p;
              Moved(i, if ok then Onward(a.key, e, todo, p.(timeline := p.timeline + [e.entry]))
                       else if a.Create? then Onward(a.key, e, todo, p.(doomed := true))
                       else AtRollback(DbError))
      ensures LocksKept() && (ok <==> o != Bad)
    {
      ok := !o.Bad?;
      var a, e, todo, p := calls[i].args, calls[i].pc.e, calls[i].pc.todo, calls[i].pc.p;
      if ok {
        p := p.(timeline := p.timeline + [e.entry]);
      } else {
        p := p.(doomed := true);
      }
      calls := calls[i := calls[i].(pc := if ok || a.Create? then Onward(a.key, e, todo, p) else AtRollback(DbError))];
      Record(Run(i, o, 0));
    }

    method InsertOutbox(i: CallId, o: Outcome) returns (ok: bool)
      requires Valid() && i in calls && calls[i].pc.AtOutbox? && calls[i].pc.todo != []
      modifies this
      ensures Valid() && old(acts) <= acts
      ensures nextId == old(nextId) + 1 && rowLock == old(rowLock) && keyLock == old(keyLock)
      ensures var a, e, todo, p := old(calls)[i].args, old(calls)[i].pc.e, old(calls)[i].pc.todo, old(calls)[i].pc.p;
              && (ok <==> o != Bad && !p.doomed)
              && Moved(i, if ok then Onward(a.key, e, todo[1..],
                  p.(outbox := p.outbox + [OutboxRow(old(nextId), e.caseId, todo[0])]))
                          else AtRollback(DbError))
    {
      var a, e, todo, p := calls[i].args, calls[i].pc.e, calls[i].pc.todo, calls[i].pc.p;
      ok := !o.Bad? && !p.doomed;
      if ok {
        p := p.(outbox := p.outbox + [OutboxRow(nextId, e.caseId, todo[0])]);
      }
      nextId := nextId + 1;
      calls := calls[i := calls[i].(pc := if ok then Onward(a.key, e, todo[1..], p) else AtRollback(DbError))];
      Record(Run(i, o, 0));
    }

    /** INSERT INTO idempotency: fails on a stored key; a wait that ends without the
        key ends in an error. */
    method InsertIdempotency(i: CallId, o: Outcome) returns (ok: bool)
      requires Valid() && i in calls && calls[i].pc.AtIdem?
      modifies this
      ensures Valid() && old(acts) <= acts
      ensures var a, e, p := old(calls)[i].args, old(calls)[i].pc.e, old(calls)[i].pc.p;
              && (ok <==> o != Bad && !p.doomed && a.key !in db.idem && a.key !in old(keyLock))
              && (ok ==> keyLock == old(keyLock)[a.key := i])
              && (!ok ==> keyLock == old(keyLock)) && rowLock == old(rowLock) && nextId == old(nextId)
              && Moved(i, if ok then AtCommit(e, p.(idem := map[a.key := e.idem])) else AtRollback(DbError))
    {
      var a, e, p := calls[i].args, calls[i].pc.e, calls[i].pc.p;
      ok := !o.Bad? && !p.doomed && a.key !in db.idem && a.key !in keyLock;
      if ok {
        keyLock := keyLock[a.key := i];
        calls := calls[i := calls[i].(pc := AtCommit(e, p.(idem := map[a.key := e.idem])))];
        Record(Run(i, o, 0));
      } else {
        calls := calls[i := calls[i].(pc := AtRollback(DbError))];
        Record(Run(i, Bad, 0));
      }
    }

    /** COMMIT: all pending writes become visible together, or none does. */
    method CommitTx(i: CallId, o: Outcome) returns (r: Reply)
      requires Valid() && i in calls && calls[i].pc.AtCommit?
      modifies this
      ensures Valid() && old(acts) <= acts
      ensures View() == old(View()).(
                calls := old(calls)[i := old(calls)[i].(pc := Finished(r))], db := db, commits := commits,
                rowLock := ReleaseRows(old(rowLock), i), keyLock := ReleaseKeys(old(keyLock), i))
      ensures var a, e, p := old(calls)[i].args, old(calls)[i].pc.e, old(calls)[i].pc.p;
              && (if o == Bad || p.doomed then db == old(db) && commits == old(commits)
                  else db == Write(old(db), e, p)
                       && commits == old(commits) + [Commit(i, a, e, FirstId(p.outbox))])
              && r == if o == Good && !p.doomed then Committed(Response(e.caseId, e.row)) else Failed(DbError)
    {
      var a, e, p := calls[i].args, calls[i].pc.e, calls[i].pc.p;
      CommitIsStep(View(), i, o);
      if o.Bad? || p.doomed {
        r := Failed(DbError);
      } else {
        r := if o.Good? then Committed(Response(e.caseId, e.row)) else Failed(DbError);
        db := Write(db, e, p);
        commits := commits + [Commit(i, a, e, FirstId(p.outbox))];
      }
      calls := calls[i := calls[i].(pc := Finished(r))];
      rowLock, keyLock := ReleaseRows(rowLock, i), ReleaseKeys(keyLock, i);
      Record(Run(i, o, 0));
    }

    // ------------------------------------------------------------- answers

    ghost predicate Answered(i: CallId, a: Args, r: Reply)
      reads this
    {
      Valid() && Truthful(past, acts, i, a, r)
    }

    ghost method Answer(i: CallId, r: Reply)
      requires Valid() && i in calls && calls[i].pc == Finished(r)
      ensures Answered(i, calls[i].args, r)
    {
      AnswersAndCommits(past, acts, |acts|, i);
      var m := EveryAnswerHasAMoment(past, acts, |acts|, i);
    }

    // ------------------------------------------ statements of a flush

    /** Flush f is in this state, and only flushes, their locks, the log of publishes
        and the published column may have changed. */
    twostate predicate FlushMoved(f: FlushId, x: Flush)
      reads this
    {
      && flushes == old(flushes)[f := x]
      && View() == old(View()).(flushes := flushes, outLock := outLock, sent := sent, published := published)
    }

    /** Nothing has been published, in NATS or in the table. */
    twostate predicate NothingPublished()
      reads this
    {
      sent == old(sent) && published == old(published)
    }

    /** A tick of the interval starts a flush. */
    method EnterFlush(f: FlushId)
      requires Valid() && f !in flushes
      modifies this
      ensures Valid() && old(acts) <= acts
      ensures FlushMoved(f, Flush(FBegin, [], 0, true, false)) && NothingPublished() && outLock == old(outLock)
    {
      flushes := flushes[f := Flush(FBegin, [], 0, true, false)];
      Record(Tick(f));
    }

    method BeginFlush(f: FlushId, o: Outcome) returns (ok: bool)
      requires Valid() && f in flushes && flushes[f].pc == FBegin
      modifies this
      ensures Valid() && old(acts) <= acts
      ensures FlushMoved(f, old(flushes)[f].(pc := if ok then FList else FDone)) && (ok <==> o != Bad)
      ensures NothingPublished() && outLock == old(outLock)
    {
      ok := !o.Bad?;
      flushes := flushes[f := flushes[f].(pc := if ok then FList else FDone)];
      Record(RunFlush(f, o));
    }

    /** SELECT ... WHERE published = FALSE ORDER BY id LIMIT n FOR UPDATE SKIP LOCKED. */
    method Scan(n: nat) returns (items: seq<OutboxRow>)
      ensures items == Unpublished(db.outbox, published, outLock, n)
    {
      items := [];
      var k := 0;
      assert db.outbox[0..] == db.outbox;
      while k < |db.outbox| && |items| < n
        invariant k <= |db.outbox| && |items| <= n
        invariant items + Unpublished(db.outbox[k..], published, outLock, n - |items|)
               == Unpublished(db.outbox, published, outLock, n)
      {
        var row := db.outbox[k];
        assert db.outbox[k..][1..] == db.outbox[k + 1..];
        if row.id !in published && row.id !in outLock {
          assert items + ([row] + Unpublished(db.outbox[k + 1..], published, outLock, n - |items| - 1))
              == (items + [row]) + Unpublished(db.outbox[k + 1..], published, outLock, n - |items| - 1);
          items := items + [row];
        }
        k := k + 1;
      }
    }

    /** The rows it returns are locked by f, in id order, and are the first free ones. */
    method ListUnpublishedOutbox(f: FlushId, o: Outcome) returns (rows: Option<seq<OutboxRow>>)
      requires Valid() && f in flushes && flushes[f].pc == FList
      modifies this
      ensures Valid() && old(acts) <= acts && NothingPublished()
      ensures rows.Some? <==> o != Bad && old(flushes)[f].live
      ensures rows.Some? ==> rows.value == Unpublished(db.outbox, published, old(outLock), BATCH)
      ensures rows.Some? && rows.value != [] ==>
                && Listing(db.outbox, published, old(outLock), BATCH, rows.value)
                && outLock == LockAll(old(outLock), rows.value, f)
                && (forall r :: r in rows.value ==> LockedBy(outLock, f, r.id))
                && FlushMoved(f, old(flushes)[f].(pc := FPublish, rows := rows.value))
      ensures rows == Some([]) ==> Listing(db.outbox, published, outLock, BATCH, [])
      ensures rows == Some([]) || rows.None? ==>
                FlushMoved(f, old(flushes)[f].(pc := FRollback)) && outLock == old(outLock)
    {
      if o.Bad? || !flushes[f].live {
        rows := None;
        flushes := flushes[f := flushes[f].(pc := FRollback)];
      } else {
        var items := Scan(BATCH);
        rows := Some(items);
        TableLists(past, acts);
        if items == [] {
          flushes := flushes[f := flushes[f].(pc := FRollback)];
        } else {
          outLock := LockAll(outLock, items, f);
          flushes := flushes[f := flushes[f].(pc := FPublish, rows := items)];
        }
      }
      Record(RunFlush(f, o));
    }

    /** nc.Publish of the next listed row; needs no database session. */
    method Publish(f: FlushId, o: Outcome) returns (ok: bool)
      requires Valid() && f in flushes && flushes[f].pc == FPublish && flushes[f].k < |flushes[f].rows|
      modifies this
      ensures Valid() && old(acts) <= acts
      ensures var x := old(flushes)[f];
              && (ok ==> && FlushMoved(f, x.(k := x.k + 1, pc := if x.k + 1 == |x.rows| then FMark else FPublish))
                         && sent == old(sent) + [Sent(f, x.rows[x.k])])
              && (!ok ==> FlushMoved(f, x.(pc := FRollback)) && sent == old(sent))
              && published == old(published) && outLock == old(outLock) && (ok <==> o != Bad)
    {
      ok := !o.Bad?;
      var x := flushes[f];
      if ok {
        sent := sent + [Sent(f, x.rows[x.k])];
        flushes := flushes[f := x.(k := x.k + 1, pc := if x.k + 1 == |x.rows| then FMark else FPublish)];
      } else {
        flushes := flushes[f := x.(pc := FRollback)];
      }
      Record(RunFlush(f, o));
    }

    /** UPDATE outbox SET published = TRUE WHERE id = ANY(ids): pending until COMMIT. */
    method MarkOutboxPublished(f: FlushId, ids: seq<nat>, o: Outcome) returns (ok: bool)
      requires Valid() && f in flushes && flushes[f].pc == FMark
      requires (set id | id in ids) == Ids(flushes[f].rows)
      modifies this
      ensures Valid() && old(acts) <= acts && NothingPublished() && outLock == old(outLock)
      ensures FlushMoved(f, old(flushes)[f].(pc := if ok then FCommit else FRollback))
      ensures ok <==> o != Bad && old(flushes)[f].live
    {
      ok := !o.Bad? && flushes[f].live;
      flushes := flushes[f := flushes[f].(pc := if ok then FCommit else FRollback)];
      Record(RunFlush(f, o));
    }

    method CommitFlush(f: FlushId, o: Outcome) returns (ok: bool)
      requires Valid() && f in flushes && flushes[f].pc == FCommit
      modifies this
      ensures Valid() && old(acts) <= acts && sent == old(sent)
      ensures FlushMoved(f, old(flushes)[f].(pc := FDone, committed := ok))
      ensures published == if ok then old(published) + Ids(old(flushes)[f].rows) else old(published)
      ensures outLock == ReleaseOut(old(outLock), f) && (ok <==> o != Bad && old(flushes)[f].live)
    {
      ok := !o.Bad? && flushes[f].live;
      if ok {
        published := published + Ids(flushes[f].rows);
      }
      outLock := ReleaseOut(outLock, f);
      flushes := flushes[f := flushes[f].(pc := FDone, committed := ok)];
      Record(RunFlush(f, o));
    }

    method RollbackFlush(f: FlushId)
      requires Valid() && f in flushes && flushes[f].pc == FRollback
      modifies this
      ensures Valid() && old(acts) <= acts && NothingPublished() && outLock == ReleaseOut(old(outLock), f)
      ensures FlushMoved(f, old(flushes)[f].(pc := FDone, committed := false))
    {
      outLock := ReleaseOut(outLock, f);
      flushes := flushes[f := flushes[f].(pc := FDone, committed := false)];
      Record(RunFlush(f, Good));
    }
  }

  /** The outbox table is in id order, so the scan finds the listing. */
  lemma TableLists(ws: seq<World>, acts: seq<Action>)
    requires IsRun(ws, acts)
    ensures var w := ws[|acts|];
            Listing(w.db.outbox, w.published, w.outLock, BATCH, Unpublished(w.db.outbox, w.published, w.outLock, BATCH))
  {
    ReachableInv(ws, acts, |acts|);
    var w := ws[|acts|];
    OutboxSorted(w.commits);
    UnpublishedLists(w.db.outbox, w.published, w.outLock, BATCH);
  }

  lemma CommitIsStep(w: World, i: CallId, o: Outcome)
    requires i in w.calls && w.calls[i].pc.AtCommit?
    ensures var a, e, p := w.calls[i].args, w.calls[i].pc.e, w.calls[i].pc.p;
            var done := !o.Bad? && !p.doomed;
            var r := if done && o.Good? then Committed(Response(e.caseId, e.row)) else Failed(DbError);
            Step(w, Run(i, o, 0)) == Some(World(
              if done then Write(w.db, e, p) else w.db, w.published, w.nextId,
              ReleaseRows(w.rowLock, i), ReleaseKeys(w.keyLock, i), w.outLock,
              w.calls[i := w.calls[i].(pc := Finished(r))], w.flushes, w.sent,
              if done then w.commits + [Commit(i, a, e, FirstId(p.outbox))] else w.commits))
  {
  }

  /** A transition that is about to update holds the row, and the row is the one it read. */
  lemma LockedRow(ws: seq<World>, acts: seq<Action>, i: CallId)
    requires IsRun(ws, acts) && i in ws[|acts|].calls && ws[|acts|].calls[i].pc.AtUpdate?
    ensures var w := ws[|acts|];
            && w.calls[i].args.Transition? && w.calls[i].args.caseId in w.db.cases
            && w.db.cases[w.calls[i].args.caseId] == w.calls[i].pc.cur
  {
    ReachableInv(ws, acts, |acts|);
    assert Local(ws[|acts|], i);
  }

  lemma CallActionFlushes(w: World, a: Action, w': World)
    requires Step(w, a) == Some(w') && (a.Arrive? || a.Run?)
    ensures FlushPartSame(w, w')
  {
    if a.Run? { CallStepFlushes(w, a.i, a.o, a.newId); }
  }

  /** Nobody else moves a call. */
  lemma OtherCallKept(ws: seq<World>, acts: seq<Action>, i: CallId, a: Action)
    requires IsRun(ws, acts) && Step(ws[|acts|], a).Some? && !(a.Run? && a.i == i)
    requires i in ws[|acts|].calls
    ensures var w' := Step(ws[|acts|], a).value; i in w'.calls && w'.calls[i] == ws[|acts|].calls[i]
  {
    var w := ws[|acts|];
    match a
    case Arrive(_, _) =>
    case Run(j, o, newId) =>
      ReachableInv(ws, acts, |acts|);
      assert Local(w, j);
      StepIsAtomicOrSilent(w, j, o, newId);
    case _ => FlushSteps(w, a);
  }

  lemma FlushStepSent(w: World, f: FlushId, o: Outcome)
    requires f in w.flushes && ShapedFlush(w.flushes[f])
    ensures var r := StepFlush(w, f, o);
            r.Some? ==>
              && w.sent <= r.value.sent
              && forall g :: g in w.flushes && g != f ==> g in r.value.flushes && r.value.flushes[g] == w.flushes[g]
  {
  }

  lemma OtherFlushKept(ws: seq<World>, acts: seq<Action>, f: FlushId, a: Action)
    requires IsRun(ws, acts) && Step(ws[|acts|], a).Some? && !(a.RunFlush? && a.f == f)
    requires f in ws[|acts|].flushes
    ensures var w' := Step(ws[|acts|], a).value;
            && f in w'.flushes && w'.flushes[f] == ws[|acts|].flushes[f].(live := w'.flushes[f].live)
            && ws[|acts|].sent <= w'.sent
  {
    var w := ws[|acts|];
    match a
    case Run(i, o, newId) =>
      ReachableInv(ws, acts, |acts|);
      CallStepSameFlushes(w, i, o, newId);
    case RunFlush(g, o) => FlushStepSent(w, g, o);
    case _ =>
  }
}
