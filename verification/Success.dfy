/** A call that nobody blocks and whose statements succeed: how many statements it
    takes, what it answers, and what it writes. */
module Success {
  import opened Wrappers
  import opened Workflow
  import opened Tables
  import opened Protocol
  import opened Safety

  // -------------------------------------------------- the statements of one call

  /** n steps in a row. */
  function Iterate(step: World -> Option<World>, w: World, n: nat): Option<World> {
    if n == 0 then Some(w)
    else
      match Iterate(step, w, n - 1)
      case None => None
      case Some(v) => step(v)
  }

  lemma {:induction false} IterateBoth(step: World -> Option<World>, w: World, n: nat, v: World, m: nat)
    requires Iterate(step, w, n) == Some(v)
    ensures Iterate(step, w, n + m) == Iterate(step, v, m)
  {
    if m > 0 { IterateBoth(step, w, n, v, m - 1); }
  }

  lemma IterateThrough(step: World -> Option<World>, w: World, m: nat, v: World, v': World, l: nat, u: World)
    requires Iterate(step, w, m) == Some(v) && step(v) == Some(v') && Iterate(step, v', l) == Some(u)
    ensures Iterate(step, w, m + 1 + l) == Some(u)
  {
    IterateBoth(step, w, m + 1, v', l);
  }

  lemma IterateTwice(step: World -> Option<World>, w: World, m: nat, v: World, v': World, u: World)
    requires Iterate(step, w, m) == Some(v) && step(v) == Some(v') && step(v') == Some(u)
    ensures Iterate(step, w, m + 2) == Some(u)
  {
    assert Iterate(step, w, m + 1) == Some(v');
  }

  /** One statement of call i that succeeds. */
  function Alone(i: CallId, id: CaseId): World -> Option<World> {
    (w: World) => Step(w, Run(i, Good, id))
  }

  /** n statements of call i in a row, all of which succeed, lead from w to v. */
  ghost predicate Goes(w: World, i: CallId, id: CaseId, n: nat, v: World) {
    Iterate(Alone(i, id), w, n) == Some(v)
  }

  function Solo(i: CallId, id: CaseId, n: nat): seq<Action> {
    if n == 0 then [] else Solo(i, id, n - 1) + [Run(i, Good, id)]
  }

  /** The steps of a call alone are those of its actions. */
  lemma {:induction false} GoesIsExec(w: World, i: CallId, id: CaseId, n: nat)
    ensures Iterate(Alone(i, id), w, n) == Exec(w, Solo(i, id, n))
  {
    if n > 0 {
      GoesIsExec(w, i, id, n - 1);
      var all := Solo(i, id, n);
      assert all[..|all| - 1] == Solo(i, id, n - 1);
    }
  }

  lemma Stays(w: World, i: CallId, id: CaseId)
    ensures Goes(w, i, id, 0, w)
  {
  }

  lemma GoesOn(w: World, i: CallId, id: CaseId, n: nat, v: World, u: World)
    requires Goes(w, i, id, n, v) && Step(v, Run(i, Good, id)) == Some(u)
    ensures Goes(w, i, id, n + 1, u)
  {
    IterateThrough(Alone(i, id), w, n, v, u, 0, u);
  }

  lemma GoesThen(w: World, i: CallId, id: CaseId, m: nat, v: World, l: nat, u: World)
    requires Goes(w, i, id, m, v) && Goes(v, i, id, l, u)
    ensures Goes(w, i, id, m + l, u)
  {
    IterateBoth(Alone(i, id), w, m, v, l);
  }

  lemma GoesTwice(w: World, i: CallId, id: CaseId, m: nat, v: World, v': World, u: World)
    requires Goes(w, i, id, m, v) && Step(v, Run(i, Good, id)) == Some(v') && Step(v', Run(i, Good, id)) == Some(u)
    ensures Goes(w, i, id, m + 2, u)
  {
    IterateTwice(Alone(i, id), w, m, v, v', u);
  }

  lemma Two(w: World, i: CallId, id: CaseId, v: World, u: World)
    requires Step(w, Run(i, Good, id)) == Some(v) && Step(v, Run(i, Good, id)) == Some(u)
    ensures Goes(w, i, id, 2, u)
  {
    IterateTwice(Alone(i, id), w, 0, w, v, u);
  }

  /** The world as it is, but for what an open transaction of call i has: its place,
      its row and key locks, and the id it has drawn. */
  function With(w: World, i: CallId, a: Args, pc: Pc, rows: map<CaseId, CallId>,
                keys: map<string, CallId>, next: nat): World
  {
    w.(calls := w.calls[i := Call(a, pc)], rowLock := rows, keyLock := keys, nextId := next)
  }

  lemma WithAgain(w: World, i: CallId, a: Args, pc: Pc, pc': Pc, rows: map<CaseId, CallId>,
                  keys: map<string, CallId>, next: nat)
    ensures Goto(With(w, i, a, pc, rows, keys, next), i, pc') == With(w, i, a, pc', rows, keys, next)
  {
    assert w.calls[i := Call(a, pc)][i := Call(a, pc')] == w.calls[i := Call(a, pc')];
  }

  lemma PlainGoes(w: World, i: CallId, a: Args, pc: Pc, rows: map<CaseId, CallId>, keys: map<string, CallId>,
                  next: nat, id: CaseId, pc': Pc)
    requires Shaped(Call(a, pc)) && Plain(pc) && PlainPc(w.db, next, Call(a, pc), Good) == pc'
    ensures Step(With(w, i, a, pc, rows, keys, next), Run(i, Good, id))
         == Some(With(w, i, a, pc', rows, keys, next + if pc.AtOutbox? then 1 else 0))
  {
    WithAgain(w, i, a, pc, pc', rows, keys, next);
  }

  // ------------------------------------------------ from the timeline row on

  /** The key is none, or neither stored nor about to be. */
  predicate KeyOpen(w: World, key: string) {
    key == "" || (key !in w.db.idem && key !in w.keyLock)
  }

  /** What the whole call has pending at COMMIT. */
  function Pendings(a: Args, e: Effect, oid: nat): Pending {
    Pending([e.entry], [OutboxRow(oid, e.caseId, e.msg)], if a.key == "" then map[] else map[a.key := e.idem], false)
  }

  lemma WritesRows(w: World, i: CallId, a: Args, e: Effect, rows: map<CaseId, CallId>, next: nat, id: CaseId)
    ensures Goes(With(w, i, a, AtTimeline(e, [e.msg], NOTHING), rows, w.keyLock, next), i, id, 2,
                 With(w, i, a,
                      Onward(a.key, e, [], Pending([e.entry], [OutboxRow(next, e.caseId, e.msg)], map[], false)),
                      rows, w.keyLock, next + 1))
  {
    var p := NOTHING.(timeline := NOTHING.timeline + [e.entry]);
    assert NOTHING.timeline + [e.entry] == [e.entry] && [e.msg][1..] == [];
    var q := p.(outbox := p.outbox + [OutboxRow(next, e.caseId, e.msg)]);
    assert p.outbox + [OutboxRow(next, e.caseId, e.msg)] == [OutboxRow(next, e.caseId, e.msg)];
    var v := With(w, i, a, AtOutbox(e, [e.msg], p), rows, w.keyLock, next);
    PlainGoes(w, i, a, AtTimeline(e, [e.msg], NOTHING), rows, w.keyLock, next, id, AtOutbox(e, [e.msg], p));
    PlainGoes(w, i, a, AtOutbox(e, [e.msg], p), rows, w.keyLock, next, id, Onward(a.key, e, [], q));
    Two(With(w, i, a, AtTimeline(e, [e.msg], NOTHING), rows, w.keyLock, next), i, id, v,
        With(w, i, a, Onward(a.key, e, [], q), rows, w.keyLock, next + 1));
  }

  lemma InsertsKey(w: World, i: CallId, a: Args, e: Effect, p: Pending, rows: map<CaseId, CallId>, next: nat,
                   id: CaseId)
    requires a.key != "" && KeyOpen(w, a.key) && !p.doomed
    ensures Step(With(w, i, a, AtIdem(e, p), rows, w.keyLock, next), Run(i, Good, id))
         == Some(With(w, i, a, AtCommit(e, p.(idem := map[a.key := e.idem])), rows, w.keyLock[a.key := i], next))
  {
    WithAgain(w, i, a, AtIdem(e, p), AtCommit(e, p.(idem := map[a.key := e.idem])), rows, w.keyLock, next);
  }

  /** All that the call has written, and its answer. */
  function Succeeded(w: World, i: CallId, a: Args, e: Effect): World {
    w.(calls := w.calls[i := Call(a, Finished(Committed(Response(e.caseId, e.row))))],
       db := Db(w.db.cases[e.caseId := e.row], w.db.timeline + [e.entry],
                Insert(w.db.outbox, OutboxRow(w.nextId, e.caseId, e.msg)),
                if a.key == "" then w.db.idem else w.db.idem[a.key := e.idem]),
       nextId := w.nextId + 1,
       commits := w.commits + [Commit(i, a, e, w.nextId)])
  }

  /** The call holds no lock. */
  ghost predicate HoldsNothing(w: World, i: CallId) {
    (forall c :: c in w.rowLock ==> w.rowLock[c] != i) && (forall k :: k in w.keyLock ==> w.keyLock[k] != i)
  }

  lemma LocksGo(w: World, i: CallId, c: CaseId, key: string)
    requires HoldsNothing(w, i) && c !in w.rowLock && key !in w.keyLock
    ensures ReleaseRows(w.rowLock[c := i], i) == w.rowLock && ReleaseKeys(w.keyLock[key := i], i) == w.keyLock
  {
  }

  lemma RowGoes(w: World, i: CallId, c: CaseId)
    requires HoldsNothing(w, i) && c !in w.rowLock
    ensures ReleaseRows(w.rowLock[c := i], i) == w.rowLock && ReleaseKeys(w.keyLock, i) == w.keyLock
  {
  }

  lemma WrittenAtOnce(db: Db, a: Args, e: Effect, oid: nat)
    ensures Write(db, e, Pendings(a, e, oid))
         == Db(db.cases[e.caseId := e.row], db.timeline + [e.entry], Insert(db.outbox, OutboxRow(oid, e.caseId, e.msg)),
               if a.key == "" then db.idem else db.idem[a.key := e.idem])
  {
    WriteIsAtomic(db, a.key, e, Pendings(a, e, oid));
    assert db.idem + map[] == db.idem;
    assert db.idem + map[a.key := e.idem] == db.idem[a.key := e.idem];
  }

  lemma Commits(w: World, i: CallId, a: Args, e: Effect, rows: map<CaseId, CallId>, keys: map<string, CallId>,
                id: CaseId)
    requires ReleaseRows(rows, i) == w.rowLock && ReleaseKeys(keys, i) == w.keyLock
    ensures Step(With(w, i, a, AtCommit(e, Pendings(a, e, w.nextId)), rows, keys, w.nextId + 1), Run(i, Good, id))
         == Some(Succeeded(w, i, a, e))
  {
    var p := Pendings(a, e, w.nextId);
    WithAgain(w, i, a, AtCommit(e, p), Finished(Committed(Response(e.caseId, e.row))), rows, keys, w.nextId + 1);
    WrittenAtOnce(w.db, a, e, w.nextId);
  }

  lemma Ends(w: World, i: CallId, a: Args, e: Effect, id: CaseId) returns (n: nat)
    requires HoldsNothing(w, i) && e.caseId !in w.rowLock && KeyOpen(w, a.key)
    ensures n <= 4
    ensures Goes(With(w, i, a, AtTimeline(e, [e.msg], NOTHING), w.rowLock[e.caseId := i], w.keyLock, w.nextId),
                 i, id, n, Succeeded(w, i, a, e))
  {
    var rows := w.rowLock[e.caseId := i];
    var start := With(w, i, a, AtTimeline(e, [e.msg], NOTHING), rows, w.keyLock, w.nextId);
    var p := Pending([e.entry], [OutboxRow(w.nextId, e.caseId, e.msg)], map[], false);
    var v := With(w, i, a, Onward(a.key, e, [], p), rows, w.keyLock, w.nextId + 1);
    WritesRows(w, i, a, e, rows, w.nextId, id);
    if a.key == "" {
      RowGoes(w, i, e.caseId);
      Commits(w, i, a, e, rows, w.keyLock, id);
      GoesOn(start, i, id, 2, v, Succeeded(w, i, a, e));
      n := 3;
    } else {
      var keys := w.keyLock[a.key := i];
      var u := With(w, i, a, AtCommit(e, Pendings(a, e, w.nextId)), rows, keys, w.nextId + 1);
      LocksGo(w, i, e.caseId, a.key);
      InsertsKey(w, i, a, e, p, rows, w.nextId + 1, id);
      GoesOn(start, i, id, 2, v, u);
      Commits(w, i, a, e, rows, keys, id);
      GoesOn(start, i, id, 3, u, Succeeded(w, i, a, e));
      n := 4;
    }
  }

  // ------------------------------------------------------------- the lookup

  lemma Itself(w: World, i: CallId, a: Args, pc: Pc)
    requires i in w.calls && w.calls[i] == Call(a, pc)
    ensures With(w, i, a, pc, w.rowLock, w.keyLock, w.nextId) == w
  {
    assert w.calls[i := Call(a, pc)] == w.calls;
  }

  /** A call at its lookup of a key that is not stored, or at BEGIN, comes to its first statement. */
  lemma Begins(w: World, i: CallId, a: Args, id: CaseId) returns (n: nat)
    requires i in w.calls && w.calls[i] in {Call(a, AtLookup), Call(a, AtBegin)}
    requires w.calls[i].pc == AtLookup ==> a.key !in w.db.idem
    ensures Goes(w, i, id, n, With(w, i, a, AtOpen, w.rowLock, w.keyLock, w.nextId)) && n <= 2
  {
    var begin := With(w, i, a, AtBegin, w.rowLock, w.keyLock, w.nextId);
    var open := With(w, i, a, AtOpen, w.rowLock, w.keyLock, w.nextId);
    Itself(w, i, a, w.calls[i].pc);
    Stays(w, i, id);
    PlainGoes(w, i, a, AtBegin, w.rowLock, w.keyLock, w.nextId, id, AtOpen);
    if w.calls[i].pc == AtBegin {
      GoesOn(w, i, id, 0, w, open);
      n := 1;
    } else {
      PlainGoes(w, i, a, AtLookup, w.rowLock, w.keyLock, w.nextId, id, AtBegin);
      Two(w, i, id, begin, open);
      n := 2;
    }
  }

  /** A call that has just arrived. */
  predicate Arrived(w: World, i: CallId, a: Args) {
    i in w.calls && w.calls[i] == Call(a, if a.key != "" then AtLookup else AtBegin)
  }

  lemma ArrivedHoldsNothing(w: World, i: CallId, a: Args)
    requires Inv(w) && Arrived(w, i, a)
    ensures HoldsNothing(w, i)
  {
    assert Local(w, i);
  }

  /** A stored key gives the stored response, whatever else the call asks for. */
  lemma StoredKeyReplays(ws: seq<World>, acts: seq<Action>, k: nat, i: CallId, a: Args, id: CaseId)
    requires IsRun(ws, acts) && k < |ws| && Arrived(ws[k], i, a) && a.key != "" && a.key in ws[k].db.idem
    ensures Goes(ws[k], i, id, 1,
                 ws[k].(calls := ws[k].calls[i := Call(a, Finished(Replayed(ws[k].db.idem[a.key].response)))]))
  {
    var w := ws[k];
    Itself(w, i, a, AtLookup);
    Stays(w, i, id);
    PlainGoes(w, i, a, AtLookup, w.rowLock, w.keyLock, w.nextId, id, Finished(Replayed(w.db.idem[a.key].response)));
    GoesOn(w, i, id, 0, w,
           With(w, i, a, Finished(Replayed(w.db.idem[a.key].response)), w.rowLock, w.keyLock, w.nextId));
  }

  // ------------------------------------------------------------- CreateCase

  lemma Inserts(w: World, i: CallId, a: Args, id: CaseId)
    requires a.Create? && id !in w.db.cases && id !in w.rowLock
    ensures var e := CreateEffect(a, id);
            Step(With(w, i, a, AtOpen, w.rowLock, w.keyLock, w.nextId), Run(i, Good, id))
            == Some(With(w, i, a, AtTimeline(e, [e.msg], NOTHING), w.rowLock[id := i], w.keyLock, w.nextId))
  {
    var e := CreateEffect(a, id);
    WithAgain(w, i, a, AtOpen, AtTimeline(e, [e.msg], NOTHING), w.rowLock, w.keyLock, w.nextId);
  }

  lemma InsertsCase(w: World, i: CallId, a: Args, id: CaseId, e: Effect) returns (n: nat)
    requires Arrived(w, i, a) && a.Create? && (a.key != "" ==> a.key !in w.db.idem)
    requires id !in w.db.cases && id !in w.rowLock && e == CreateEffect(a, id)
    ensures Goes(w, i, id, n, With(w, i, a, AtTimeline(e, [e.msg], NOTHING), w.rowLock[id := i], w.keyLock, w.nextId))
    ensures n <= 3
  {
    var m := Begins(w, i, a, id);
    Inserts(w, i, a, id);
    GoesOn(w, i, id, m, With(w, i, a, AtOpen, w.rowLock, w.keyLock, w.nextId),
           With(w, i, a, AtTimeline(e, [e.msg], NOTHING), w.rowLock[id := i], w.keyLock, w.nextId));
    n := m + 1;
  }

  lemma FromTimeline(w: World, i: CallId, a: Args, e: Effect, id: CaseId, m: nat, v: World) returns (n: nat)
    requires HoldsNothing(w, i) && e.caseId !in w.rowLock && KeyOpen(w, a.key)
    requires v == With(w, i, a, AtTimeline(e, [e.msg], NOTHING), w.rowLock[e.caseId := i], w.keyLock, w.nextId)
    requires Goes(w, i, id, m, v)
    ensures Goes(w, i, id, n, Succeeded(w, i, a, e)) && n <= m + 4
  {
    var l := Ends(w, i, a, e, id);
    GoesThen(w, i, id, m, v, l, Succeeded(w, i, a, e));
    n := m + l;
  }

  lemma CreateGoes(w: World, i: CallId, a: Args, id: CaseId, e: Effect) returns (n: nat)
    requires Arrived(w, i, a) && HoldsNothing(w, i) && a.Create? && KeyOpen(w, a.key)
    requires id !in w.db.cases && id !in w.rowLock && e == CreateEffect(a, id)
    ensures Goes(w, i, id, n, Succeeded(w, i, a, e)) && n <= 7
  {
    var m := InsertsCase(w, i, a, id, e);
    n := FromTimeline(w, i, a, e, id, m,
                      With(w, i, a, AtTimeline(e, [e.msg], NOTHING), w.rowLock[id := i], w.keyLock, w.nextId));
  }

  /** The answer and the rows of a new case. */
  ghost predicate Created(w: World, w': World, i: CallId, a: Args, id: CaseId)
    requires a.Create?
  {
    var row := CaseRow(a.tenant, a.title, NEW, 1);
    var created := Payload(id, OtherState(""), NEW, OtherEvent("case_created"), None, None);
    var actor := if a.actor == "" then None else Some(a.actor);
    && w'.calls == w.calls[i := Call(a, Finished(Committed(Response(id, row))))]
    && w'.db.cases == w.db.cases[id := row]
    && w'.db.timeline == w.db.timeline + [TimelineRow(id, actor, OtherEvent("case_created"), Title(a.title))]
    && multiset(w'.db.outbox) == multiset(w.db.outbox) + multiset{OutboxRow(w.nextId, id, created)}
    && w'.db.idem == (if a.key == "" then w.db.idem else w.db.idem[a.key := IdemRow("", Response(id, row))])
    && w'.rowLock == w.rowLock && w'.keyLock == w.keyLock
  }

  /** From every reachable world: a CreateCase that has just arrived and whose statements
      all succeed ends, if its key is none or is neither stored nor held, within seven of
      them in success with a new case, and has written its row, one timeline row, one
      message and, with a key, the response under it. */
  lemma CreateSucceeds(ws: seq<World>, acts: seq<Action>, k: nat, i: CallId, a: Args, id: CaseId)
    returns (n: nat, w': World)
    requires IsRun(ws, acts) && k < |ws| && Arrived(ws[k], i, a) && a.Create?
    requires a.key != "" ==> a.key !in ws[k].db.idem && a.key !in ws[k].keyLock
    requires id !in ws[k].db.cases && id !in ws[k].rowLock
    ensures Goes(ws[k], i, id, n, w') && n <= 7
    ensures Created(ws[k], w', i, a, id)
  {
    ReachableInv(ws, acts, k);
    ArrivedHoldsNothing(ws[k], i, a);
    n := CreateGoes(ws[k], i, a, id, CreateEffect(a, id));
    w' := Succeeded(ws[k], i, a, CreateEffect(a, id));
    InsertKeepsRows(ws[k].db.outbox, OutboxRow(ws[k].nextId, id, CreateEffect(a, id).msg));
  }

  // ------------------------------------------------------------- Transition

  lemma Selects(w: World, i: CallId, a: Args, id: CaseId)
    requires a.Transition? && a.caseId in w.db.cases && a.caseId !in w.rowLock
    ensures Step(With(w, i, a, AtOpen, w.rowLock, w.keyLock, w.nextId), Run(i, Good, id))
         == Some(With(w, i, a, AtDecide(w.db.cases[a.caseId]), w.rowLock[a.caseId := i], w.keyLock, w.nextId))
  {
    WithAgain(w, i, a, AtOpen, AtDecide(w.db.cases[a.caseId]), w.rowLock, w.keyLock, w.nextId);
  }

  lemma ReadsCase(w: World, i: CallId, a: Args, id: CaseId) returns (n: nat)
    requires Arrived(w, i, a) && a.Transition? && (a.key != "" ==> a.key !in w.db.idem)
    requires a.caseId in w.db.cases && a.caseId !in w.rowLock
    ensures Goes(w, i, id, n,
                 With(w, i, a, AtDecide(w.db.cases[a.caseId]), w.rowLock[a.caseId := i], w.keyLock, w.nextId)) && n <= 3
  {
    var m := Begins(w, i, a, id);
    Selects(w, i, a, id);
    GoesOn(w, i, id, m, With(w, i, a, AtOpen, w.rowLock, w.keyLock, w.nextId),
           With(w, i, a, AtDecide(w.db.cases[a.caseId]), w.rowLock[a.caseId := i], w.keyLock, w.nextId));
    n := m + 1;
  }

  lemma Updates(w: World, i: CallId, a: Args, d: Intent, rows: map<CaseId, CallId>, id: CaseId)
    requires a.Transition? && a.caseId in w.db.cases && (a.ifMatch == 0 || a.ifMatch == w.db.cases[a.caseId].version)
    requires Decide(w.db.cases[a.caseId].status, a.event, a.ctx, a.caseId) == Success(d)
    ensures |d.messages| == 1
    ensures var cur := w.db.cases[a.caseId];
            var e := TransitionEffect(a, cur, d);
            Goes(With(w, i, a, AtDecide(cur), rows, w.keyLock, w.nextId), i, id, 2,
                 With(w, i, a, AtTimeline(e, [e.msg], NOTHING), rows, w.keyLock, w.nextId))
  {
    var cur := w.db.cases[a.caseId];
    var e := TransitionEffect(a, cur, d);
    assert d.messages == [e.msg];
    PlainGoes(w, i, a, AtDecide(cur), rows, w.keyLock, w.nextId, id, AtUpdate(cur, d));
    PlainGoes(w, i, a, AtUpdate(cur, d), rows, w.keyLock, w.nextId, id, AtTimeline(e, d.messages, NOTHING));
    Two(With(w, i, a, AtDecide(cur), rows, w.keyLock, w.nextId), i, id,
        With(w, i, a, AtUpdate(cur, d), rows, w.keyLock, w.nextId),
        With(w, i, a, AtTimeline(e, [e.msg], NOTHING), rows, w.keyLock, w.nextId));
  }

  lemma UpdatesCase(w: World, i: CallId, a: Args, d: Intent, e: Effect, id: CaseId) returns (n: nat)
    requires Arrived(w, i, a) && a.Transition? && (a.key != "" ==> a.key !in w.db.idem)
    requires a.caseId in w.db.cases && a.caseId !in w.rowLock
    requires a.ifMatch == 0 || a.ifMatch == w.db.cases[a.caseId].version
    requires Decide(w.db.cases[a.caseId].status, a.event, a.ctx, a.caseId) == Success(d)
    requires |d.messages| > 0 && e == TransitionEffect(a, w.db.cases[a.caseId], d)
    ensures Goes(w, i, id, n,
                 With(w, i, a, AtTimeline(e, [e.msg], NOTHING), w.rowLock[a.caseId := i], w.keyLock, w.nextId))
    ensures n <= 5
  {
    var cur, rows := w.db.cases[a.caseId], w.rowLock[a.caseId := i];
    var m := ReadsCase(w, i, a, id);
    Updates(w, i, a, d, rows, id);
    GoesThen(w, i, id, m, With(w, i, a, AtDecide(cur), rows, w.keyLock, w.nextId), 2,
             With(w, i, a, AtTimeline(e, [e.msg], NOTHING), rows, w.keyLock, w.nextId));
    n := m + 2;
  }

  lemma TransitionGoes(w: World, i: CallId, a: Args, d: Intent, e: Effect, id: CaseId) returns (n: nat)
    requires Arrived(w, i, a) && HoldsNothing(w, i) && a.Transition? && KeyOpen(w, a.key)
    requires a.caseId in w.db.cases && a.caseId !in w.rowLock
    requires a.ifMatch == 0 || a.ifMatch == w.db.cases[a.caseId].version
    requires Decide(w.db.cases[a.caseId].status, a.event, a.ctx, a.caseId) == Success(d)
    requires |d.messages| > 0 && e == TransitionEffect(a, w.db.cases[a.caseId], d)
    ensures Goes(w, i, id, n, Succeeded(w, i, a, e)) && n <= 9
  {
    var m := UpdatesCase(w, i, a, d, e, id);
    n := FromTimeline(w, i, a, e, id, m,
                      With(w, i, a, AtTimeline(e, [e.msg], NOTHING), w.rowLock[a.caseId := i], w.keyLock, w.nextId));
  }

  /** The answer and the rows of a case that goes from the row it had to this state. */
  ghost predicate Transitioned(w: World, w': World, i: CallId, a: Args, cur: CaseRow, to: State)
    requires a.Transition?
  {
    var row := CaseRow(cur.tenant, cur.title, to, cur.version + 1);
    var entry := TimelineEntry(a.ctx.now, a.ctx.actor, a.event, a.ctx.reason, a.ctx.extras);
    var moved := Payload(a.caseId, cur.status, to, a.event, Some(a.ctx.actor), Some(a.ctx.now));
    var actor := if a.ctx.actor == "" then None else Some(a.ctx.actor);
    && w'.calls == w.calls[i := Call(a, Finished(Committed(Response(a.caseId, row))))]
    && w'.db.cases == w.db.cases[a.caseId := row]
    && w'.db.timeline == w.db.timeline + [TimelineRow(a.caseId, actor, a.event, Entry(entry))]
    && multiset(w'.db.outbox) == multiset(w.db.outbox) + multiset{OutboxRow(w.nextId, a.caseId, moved)}
    && w'.db.idem == (if a.key == "" then w.db.idem
                      else w.db.idem[a.key := IdemRow(a.request, Response(a.caseId, row))])
    && w'.rowLock == w.rowLock && w'.keyLock == w.keyLock
  }

  lemma TransitionedRows(w: World, i: CallId, a: Args, d: Intent, to: State)
    requires a.Transition? && a.caseId in w.db.cases
    requires After(Some(w.db.cases[a.caseId].status), Move(a.event, a.ctx)) == Some(to)
    requires Decide(w.db.cases[a.caseId].status, a.event, a.ctx, a.caseId) == Success(d)
    ensures |d.messages| > 0
    ensures Transitioned(w, Succeeded(w, i, a, TransitionEffect(a, w.db.cases[a.caseId], d)), i, a,
                         w.db.cases[a.caseId], to)
  {
    var e := TransitionEffect(a, w.db.cases[a.caseId], d);
    DecidesExactly(w.db.cases[a.caseId].status, a.event, a.ctx, a.caseId);
    InsertKeepsRows(w.db.outbox, OutboxRow(w.nextId, a.caseId, e.msg));
  }

  lemma DecidedIntent(from: State, ev: Event, ctx: Context, c: CaseId, to: State) returns (d: Intent)
    requires After(Some(from), Move(ev, ctx)) == Some(to)
    ensures Decide(from, ev, ctx, c) == Success(d)
  {
    d := Decide(from, ev, ctx, c).value;
  }

  /** From every reachable world: a Transition that has just arrived, whose case is stored
      and not locked, whose If-Match is none or the stored version, and whose event leads
      to a state ends, when its statements succeed and its key is open, within nine of them
      in success with that state and the next version, and has written one row of each kind. */
  lemma TransitionSucceeds(ws: seq<World>, acts: seq<Action>, k: nat, i: CallId, a: Args, to: State, id: CaseId)
    returns (n: nat, w': World)
    requires IsRun(ws, acts) && k < |ws| && Arrived(ws[k], i, a) && a.Transition?
    requires a.key != "" ==> a.key !in ws[k].db.idem && a.key !in ws[k].keyLock
    requires a.caseId in ws[k].db.cases && a.caseId !in ws[k].rowLock
    requires a.ifMatch == 0 || a.ifMatch == ws[k].db.cases[a.caseId].version
    requires After(Some(ws[k].db.cases[a.caseId].status), Move(a.event, a.ctx)) == Some(to)
    ensures Goes(ws[k], i, id, n, w') && n <= 9
    ensures Transitioned(ws[k], w', i, a, ws[k].db.cases[a.caseId], to)
  {
    ReachableInv(ws, acts, k);
    ArrivedHoldsNothing(ws[k], i, a);
    n, w' := TransitionEnds(ws[k], i, a, to, id);
  }

  lemma TransitionEnds(w: World, i: CallId, a: Args, to: State, id: CaseId) returns (n: nat, w': World)
    requires Arrived(w, i, a) && HoldsNothing(w, i) && a.Transition? && KeyOpen(w, a.key)
    requires a.caseId in w.db.cases && a.caseId !in w.rowLock
    requires a.ifMatch == 0 || a.ifMatch == w.db.cases[a.caseId].version
    requires After(Some(w.db.cases[a.caseId].status), Move(a.event, a.ctx)) == Some(to)
    ensures Goes(w, i, id, n, w') && n <= 9 && Transitioned(w, w', i, a, w.db.cases[a.caseId], to)
  {
    var d := DecidedIntent(w.db.cases[a.caseId].status, a.event, a.ctx, a.caseId, to);
    TransitionedRows(w, i, a, d, to);
    var e := TransitionEffect(a, w.db.cases[a.caseId], d);
    n := TransitionGoes(w, i, a, d, e, id);
    w' := Succeeded(w, i, a, e);
  }

  // --------------------------------------------------------------- refusals

  /** Nothing but the answer of the call has changed. */
  function Refusing(w: World, i: CallId, a: Args, why: CallError): World {
    w.(calls := w.calls[i := Call(a, Finished(Failed(why)))])
  }

  lemma RollsBack(w: World, i: CallId, a: Args, why: CallError, rows: map<CaseId, CallId>, id: CaseId)
    requires ReleaseRows(rows, i) == w.rowLock && ReleaseKeys(w.keyLock, i) == w.keyLock
    ensures Step(With(w, i, a, AtRollback(why), rows, w.keyLock, w.nextId), Run(i, Good, id))
         == Some(Refusing(w, i, a, why))
  {
    WithAgain(w, i, a, AtRollback(why), Finished(Failed(why)), rows, w.keyLock, w.nextId);
  }

  lemma MissingGoes(w: World, i: CallId, a: Args, id: CaseId) returns (n: nat)
    requires Arrived(w, i, a) && HoldsNothing(w, i) && a.Transition? && (a.key != "" ==> a.key !in w.db.idem)
    requires a.caseId !in w.db.cases
    ensures Goes(w, i, id, n, Refusing(w, i, a, NoRows)) && n <= 4
  {
    var open := With(w, i, a, AtOpen, w.rowLock, w.keyLock, w.nextId);
    var v := With(w, i, a, AtRollback(NoRows), w.rowLock, w.keyLock, w.nextId);
    var m := Begins(w, i, a, id);
    WithAgain(w, i, a, AtOpen, AtRollback(NoRows), w.rowLock, w.keyLock, w.nextId);
    assert ReleaseRows(w.rowLock, i) == w.rowLock && ReleaseKeys(w.keyLock, i) == w.keyLock;
    RollsBack(w, i, a, NoRows, w.rowLock, id);
    GoesTwice(w, i, id, m, open, v, Refusing(w, i, a, NoRows));
    n := m + 2;
  }

  lemma DecidedGoes(w: World, i: CallId, a: Args, why: CallError, id: CaseId) returns (n: nat)
    requires Arrived(w, i, a) && HoldsNothing(w, i) && a.Transition? && (a.key != "" ==> a.key !in w.db.idem)
    requires a.caseId in w.db.cases && a.caseId !in w.rowLock
    requires DecidePc(a, w.db.cases[a.caseId]) == AtRollback(why)
    ensures Goes(w, i, id, n, Refusing(w, i, a, why)) && n <= 5
  {
    var cur, rows := w.db.cases[a.caseId], w.rowLock[a.caseId := i];
    var v := With(w, i, a, AtRollback(why), rows, w.keyLock, w.nextId);
    var m := ReadsCase(w, i, a, id);
    PlainGoes(w, i, a, AtDecide(cur), rows, w.keyLock, w.nextId, id, AtRollback(why));
    RowGoes(w, i, a.caseId);
    RollsBack(w, i, a, why, rows, id);
    GoesTwice(w, i, id, m, With(w, i, a, AtDecide(cur), rows, w.keyLock, w.nextId), v, Refusing(w, i, a, why));
    n := m + 2;
  }

  /** Why a transition of this row is refused. */
  function RefusedBy(a: Args, cur: CaseRow): Option<CallError>
    requires a.Transition?
  {
    if a.ifMatch != 0 && a.ifMatch != cur.version then Some(NoRows)
    else if !Known(cur.status, a.event) then Some(Refused(ErrIllegal))
    else if Unmet(cur.status, a.event, a.ctx) then Some(Refused(ErrGuard))
    else None
  }

  /** Why a transition is refused, from the tables alone. */
  function RefusalOf(db: Db, a: Args): Option<CallError>
    requires a.Transition?
  {
    if a.caseId !in db.cases then Some(NoRows) else RefusedBy(a, db.cases[a.caseId])
  }

  /** A Transition of a missing case, of another version, or of a move that the state machine
      or its guard refuses ends, when its statements succeed, with exactly that refusal; no
      table has changed, and no lock is left. */
  lemma TransitionRefused(ws: seq<World>, acts: seq<Action>, k: nat, i: CallId, a: Args, id: CaseId) returns (n: nat)
    requires IsRun(ws, acts) && k < |ws| && Arrived(ws[k], i, a) && a.Transition?
    requires a.key != "" ==> a.key !in ws[k].db.idem
    requires a.caseId !in ws[k].rowLock && RefusalOf(ws[k].db, a).Some?
    ensures Goes(ws[k], i, id, n,
                 ws[k].(calls := ws[k].calls[i := Call(a, Finished(Failed(RefusalOf(ws[k].db, a).value)))]))
    ensures n <= 5
  {
    var w := ws[k];
    ReachableInv(ws, acts, k);
    ArrivedHoldsNothing(w, i, a);
    if a.caseId !in w.db.cases {
      n := MissingGoes(w, i, a, id);
    } else {
      DecidesExactly(w.db.cases[a.caseId].status, a.event, a.ctx, a.caseId);
      n := DecidedGoes(w, i, a, RefusalOf(w.db, a).value, id);
    }
  }
}
