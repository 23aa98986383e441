/** The case store and the outbox publishers as one state machine.  Every call of
    CreateCase or Transition and every flush is a program counter; one action runs
    one statement of one of them, and the statement may fail.

    Assumed of the database: READ COMMITTED; a row lock is held to the end of its
    transaction and a waiter then sees the newest committed row; idem_key is unique,
    and a second writer of an uncommitted key waits; outbox ids come from one
    growing sequence; nothing is deleted; a failed statement dooms its transaction. */
module Protocol {
  import opened Wrappers
  import opened Workflow
  import opened Tables

  type FlushId = nat

  /** How a statement ends.  `Lost` differs from `Good` only for COMMIT: the
      transaction is applied but its client sees an error. */
  datatype Outcome = Good | Bad | Lost

  datatype CallError = DbError | NoRows | Refused(error: Error)

  datatype Reply = Committed(response: Response) | Replayed(response: Response) | Failed(reason: CallError)

  /** The uncommitted writes of one transaction, next to the case row itself. */
  datatype Pending = Pending(timeline: seq<TimelineRow>, outbox: seq<OutboxRow>,
                             idem: map<string, IdemRow>, doomed: bool)

  const NOTHING := Pending([], [], map[], false)

  /** Where a call is, with the local variables it has by then. */
  datatype Pc =
    | AtLookup
    | AtBegin
    | AtOpen
    | AtDecide(cur: CaseRow)
    | AtUpdate(cur: CaseRow, intent: Intent)
    | AtTimeline(e: Effect, todo: seq<Payload>, p: Pending)
    | AtOutbox(e: Effect, todo: seq<Payload>, p: Pending)
    | AtIdem(e: Effect, p: Pending)
    | AtCommit(e: Effect, p: Pending)
    | AtRollback(why: CallError)
    | Finished(reply: Reply)

  datatype Call = Call(args: Args, pc: Pc)

  datatype FlushPc = FBegin | FList | FPublish | FMark | FCommit | FRollback | FDone

  /** `rows[..k]` have been handed to nc.Publish.  `live` is false once the
      database session is gone. */
  datatype Flush = Flush(pc: FlushPc, rows: seq<OutboxRow>, k: nat, live: bool, committed: bool)

  /** One successful call of nc.Publish. */
  datatype Sent = Sent(flush: FlushId, row: OutboxRow)

  /** `published` holds the ids whose column is TRUE.  `commits` is a history
      variable: the committed calls in commit order; no step reads it. */
  datatype World = World(
    db: Db, published: set<nat>, nextId: nat,
    rowLock: map<CaseId, CallId>, keyLock: map<string, CallId>, outLock: map<nat, FlushId>,
    calls: map<CallId, Call>, flushes: map<FlushId, Flush>,
    sent: seq<Sent>, commits: seq<Commit>)

  const START := World(EMPTY_DB, {}, 1, map[], map[], map[], map[], map[], [], [])

  datatype Action =
    | Arrive(i: CallId, args: Args)
    | Run(i: CallId, o: Outcome, newId: CaseId)
    | Tick(f: FlushId)
    | RunFlush(f: FlushId, o: Outcome)
    | SessionLost(f: FlushId)

  // ------------------------------------------------------------------ calls

  function Goto(w: World, i: CallId, pc: Pc): World
    requires i in w.calls
  {
    w.(calls := w.calls[i := w.calls[i].(pc := pc)])
  }

  function ReleaseRows(locks: map<CaseId, CallId>, i: CallId): map<CaseId, CallId> {
    map c | c in locks && locks[c] != i :: locks[c]
  }

  function ReleaseKeys(locks: map<string, CallId>, i: CallId): map<string, CallId> {
    map k | k in locks && locks[k] != i :: locks[k]
  }

  /** The end of a transaction frees its locks. */
  function End(w: World, i: CallId, r: Reply): World
    requires i in w.calls
  {
    Goto(w, i, Finished(r)).(rowLock := ReleaseRows(w.rowLock, i), keyLock := ReleaseKeys(w.keyLock, i))
  }

  /** The next statement once `todo` messages are left. */
  function Onward(key: string, e: Effect, todo: seq<Payload>, p: Pending): Pc {
    if todo != [] then AtOutbox(e, todo, p)
    else if key != "" then AtIdem(e, p)
    else AtCommit(e, p)
  }

  /** GetIdempotency runs outside any transaction; its error counts as a miss. */
  function LookupPc(db: Db, key: string, o: Outcome): Pc {
    if !o.Bad? && key in db.idem then Finished(Replayed(db.idem[key].response)) else AtBegin
  }

  function BeginPc(o: Outcome): Pc {
    if o.Bad? then Finished(Failed(DbError)) else AtOpen
  }

  /** INSERT INTO ops_case; the key is generated, so it is in no other row. */
  function StepInsertCase(w: World, i: CallId, o: Outcome, newId: CaseId): Option<World>
    requires i in w.calls && w.calls[i].args.Create?
  {
    if o.Bad? then Some(Goto(w, i, AtRollback(DbError)))
    else if newId in w.db.cases || newId in w.rowLock then None
    else
      var e := CreateEffect(w.calls[i].args, newId);
      Some(Goto(w, i, AtTimeline(e, [e.msg], NOTHING)).(rowLock := w.rowLock[newId := i]))
  }

  /** SELECT ... FOR UPDATE; None while another transaction holds the row. */
  function StepSelectCase(w: World, i: CallId, o: Outcome): Option<World>
    requires i in w.calls && w.calls[i].args.Transition?
  {
    var c := w.calls[i].args.caseId;
    if o.Bad? then Some(Goto(w, i, AtRollback(DbError)))
    else if c !in w.db.cases then Some(Goto(w, i, AtRollback(NoRows)))
    else if c in w.rowLock then None
    else Some(Goto(w, i, AtDecide(w.db.cases[c])).(rowLock := w.rowLock[c := i]))
  }

  /** If-Match and workflow.Decide: no statement, so nothing to fail. */
  function DecidePc(a: Args, cur: CaseRow): Pc
    requires a.Transition?
  {
    if !IfMatchOk(a, cur.version) then AtRollback(NoRows)
    else
      match Decide(cur.status, a.event, a.ctx, a.caseId)
      case Failure(err) => AtRollback(Refused(err))
      case Success(intent) => AtUpdate(cur, intent)
  }

  /** UPDATE ... WHERE case_id = $1 AND version = $3: a miss returns no row. */
  function UpdatePc(db: Db, a: Args, cur: CaseRow, intent: Intent, o: Outcome): Pc
    requires a.Transition? && |intent.messages| > 0
  {
    if o.Bad? then AtRollback(DbError)
    else if a.caseId in db.cases && db.cases[a.caseId].version == cur.version then
      AtTimeline(TransitionEffect(a, db.cases[a.caseId], intent), intent.messages, NOTHING)
    else AtRollback(NoRows)
  }

  /** CreateCase drops the error of this insert; Transition does not. */
  function TimelinePc(a: Args, e: Effect, todo: seq<Payload>, p: Pending, o: Outcome): Pc {
    if !o.Bad? then Onward(a.key, e, todo, p.(timeline := p.timeline + [e.entry]))
    else if a.Create? then Onward(a.key, e, todo, p.(doomed := true))
    else AtRollback(DbError)
  }

  /** One turn of the loop over intent.Messages. */
  function OutboxPc(a: Args, e: Effect, todo: seq<Payload>, p: Pending, o: Outcome, id: nat): Pc
    requires todo != []
  {
    if o.Bad? || p.doomed then AtRollback(DbError)
    else Onward(a.key, e, todo[1..], p.(outbox := p.outbox + [OutboxRow(id, e.caseId, todo[0])]))
  }

  /** INSERT INTO idempotency; None while another transaction holds the key. */
  function StepIdem(w: World, i: CallId, o: Outcome): Option<World>
    requires i in w.calls && w.calls[i].pc.AtIdem?
  {
    var a, e, p := w.calls[i].args, w.calls[i].pc.e, w.calls[i].pc.p;
    if o.Bad? || p.doomed || a.key in w.db.idem then Some(Goto(w, i, AtRollback(DbError)))
    else if a.key in w.keyLock then None
    else Some(Goto(w, i, AtCommit(e, p.(idem := map[a.key := e.idem]))).(keyLock := w.keyLock[a.key := i]))
  }

  /** What COMMIT makes visible. */
  function Write(db: Db, e: Effect, p: Pending): Db {
    Db(db.cases[e.caseId := e.row], db.timeline + p.timeline, InsertAll(db.outbox, p.outbox), db.idem + p.idem)
  }

  function FirstId(rows: seq<OutboxRow>): nat {
    if rows == [] then 0 else rows[0].id
  }

  function StepCommit(w: World, i: CallId, o: Outcome): World
    requires i in w.calls && w.calls[i].pc.AtCommit?
  {
    var a, e, p := w.calls[i].args, w.calls[i].pc.e, w.calls[i].pc.p;
    if o.Bad? || p.doomed then End(w, i, Failed(DbError))
    else
      End(w, i, if o.Good? then Committed(Response(e.caseId, e.row)) else Failed(DbError))
      .(db := Write(w.db, e, p), commits := w.commits + [Commit(i, a, e, FirstId(p.outbox))])
  }

  /** The local variables fit the statement; holds in every reachable world. */
  predicate Shaped(c: Call) {
    match c.pc
    case AtDecide(_) => c.args.Transition?
    case AtUpdate(_, intent) => c.args.Transition? && |intent.messages| > 0
    case AtOutbox(_, todo, _) => todo != []
    case _ => true
  }

  /** Statements that change nothing but the call's own transaction. */
  predicate Plain(pc: Pc) {
    pc.AtLookup? || pc.AtBegin? || pc.AtDecide? || pc.AtUpdate? || pc.AtTimeline? || pc.AtOutbox?
  }

  function PlainPc(db: Db, nextId: nat, c: Call, o: Outcome): Pc
    requires Shaped(c) && Plain(c.pc)
  {
    match c.pc
    case AtLookup => LookupPc(db, c.args.key, o)
    case AtBegin => BeginPc(o)
    case AtDecide(cur) => DecidePc(c.args, cur)
    case AtUpdate(cur, intent) => UpdatePc(db, c.args, cur, intent, o)
    case AtTimeline(e, todo, p) => TimelinePc(c.args, e, todo, p, o)
    case AtOutbox(e, todo, p) => OutboxPc(c.args, e, todo, p, o, nextId)
  }

  /** A failed outbox insert uses up its id as well. */
  function StepPlain(w: World, i: CallId, o: Outcome): World
    requires i in w.calls && Shaped(w.calls[i]) && Plain(w.calls[i].pc)
  {
    Goto(w, i, PlainPc(w.db, w.nextId, w.calls[i], o))
    .(nextId := w.nextId + if w.calls[i].pc.AtOutbox? then 1 else 0)
  }

  function StepCall(w: World, i: CallId, o: Outcome, newId: CaseId): Option<World>
    requires i in w.calls && Shaped(w.calls[i])
  {
    match w.calls[i].pc
    case AtOpen =>
      if w.calls[i].args.Create? then StepInsertCase(w, i, o, newId) else StepSelectCase(w, i, o)
    case AtIdem(_, _) => StepIdem(w, i, o)
    case AtCommit(_, _) => Some(StepCommit(w, i, o))
    case AtRollback(why) => Some(End(w, i, Failed(why)))
    case Finished(_) => None
    case _ => Some(StepPlain(w, i, o))
  }

  // ---------------------------------------------------------------- flushes

  const BATCH: nat := 10

  /** The first n rows that are unpublished and not locked, in id order. */
  function Unpublished(ob: seq<OutboxRow>, published: set<nat>, locks: map<nat, FlushId>, n: nat): seq<OutboxRow> {
    if ob == [] || n == 0 then []
    else if ob[0].id in published || ob[0].id in locks then Unpublished(ob[1..], published, locks, n)
    else [ob[0]] + Unpublished(ob[1..], published, locks, n - 1)
  }

  function Ids(rows: seq<OutboxRow>): set<nat> {
    set r | r in rows :: r.id
  }

  function LockAll(locks: map<nat, FlushId>, rows: seq<OutboxRow>, f: FlushId): map<nat, FlushId> {
    map id | id in locks.Keys + Ids(rows) :: if id in Ids(rows) then f else locks[id]
  }

  function ReleaseOut(locks: map<nat, FlushId>, f: FlushId): map<nat, FlushId> {
    map id | id in locks && locks[id] != f :: locks[id]
  }

  function SetFlush(w: World, f: FlushId, x: Flush): World {
    w.(flushes := w.flushes[f := x])
  }

  function EndFlush(w: World, f: FlushId, committed: bool): World
    requires f in w.flushes
  {
    SetFlush(w, f, w.flushes[f].(pc := FDone, committed := committed)).(outLock := ReleaseOut(w.outLock, f))
  }

  function StepList(w: World, f: FlushId, o: Outcome): World
    requires f in w.flushes
  {
    var x := w.flushes[f];
    var rows := Unpublished(w.db.outbox, w.published, w.outLock, BATCH);
    if o.Bad? || !x.live || rows == [] then SetFlush(w, f, x.(pc := FRollback))
    else SetFlush(w, f, x.(pc := FPublish, rows := rows)).(outLock := LockAll(w.outLock, rows, f))
  }

  /** One turn of the loop over the listed rows. */
  function StepPublish(w: World, f: FlushId, o: Outcome): World
    requires f in w.flushes && w.flushes[f].k < |w.flushes[f].rows|
  {
    var x := w.flushes[f];
    if o.Bad? then SetFlush(w, f, x.(pc := FRollback))
    else
      SetFlush(w, f, x.(k := x.k + 1, pc := if x.k + 1 == |x.rows| then FMark else FPublish))
      .(sent := w.sent + [Sent(f, x.rows[x.k])])
  }

  function StepMark(w: World, f: FlushId, o: Outcome): World
    requires f in w.flushes
  {
    var x := w.flushes[f];
    SetFlush(w, f, x.(pc := if o.Bad? || !x.live then FRollback else FCommit))
  }

  function StepFlushCommit(w: World, f: FlushId, o: Outcome): World
    requires f in w.flushes
  {
    var x := w.flushes[f];
    if o.Bad? || !x.live then EndFlush(w, f, false)
    else EndFlush(w, f, true).(published := w.published + Ids(x.rows))
  }

  predicate ShapedFlush(x: Flush) {
    x.pc == FPublish ==> x.k < |x.rows|
  }

  function StepFlush(w: World, f: FlushId, o: Outcome): Option<World>
    requires f in w.flushes && ShapedFlush(w.flushes[f])
  {
    var x := w.flushes[f];
    match x.pc
    case FBegin => Some(SetFlush(w, f, x.(pc := if o.Bad? then FDone else FList)))
    case FList => Some(StepList(w, f, o))
    case FPublish => Some(StepPublish(w, f, o))
    case FMark => Some(StepMark(w, f, o))
    case FCommit => Some(StepFlushCommit(w, f, o))
    case FRollback => Some(EndFlush(w, f, false))
    case FDone => None
  }

  /** The database drops the session of an open flush; the program runs on. */
  function StepLost(w: World, f: FlushId): Option<World> {
    if f !in w.flushes || w.flushes[f].pc in {FBegin, FDone} then None
    else Some(SetFlush(w, f, w.flushes[f].(live := false)).(outLock := ReleaseOut(w.outLock, f)))
  }

  // ------------------------------------------------------------------- runs

  /** None when the action is not possible now. */
  function Step(w: World, a: Action): Option<World> {
    match a
    case Arrive(i, args) =>
      if i in w.calls then None
      else Some(w.(calls := w.calls[i := Call(args, if args.key != "" then AtLookup else AtBegin)]))
    case Run(i, o, newId) =>
      if i !in w.calls || !Shaped(w.calls[i]) then None else StepCall(w, i, o, newId)
    case Tick(f) =>
      if f in w.flushes then None
      else Some(SetFlush(w, f, Flush(FBegin, [], 0, true, false)))
    case RunFlush(f, o) =>
      if f !in w.flushes || !ShapedFlush(w.flushes[f]) then None else StepFlush(w, f, o)
    case SessionLost(f) => StepLost(w, f)
  }

  /** `ws` are the worlds of a run of the actions `acts` from the empty store. */
  ghost predicate IsRun(ws: seq<World>, acts: seq<Action>) {
    && |ws| == |acts| + 1
    && ws[0] == START
    && forall k {:trigger acts[k]} :: 0 <= k < |acts| ==> Step(ws[k], acts[k]) == Some(ws[k + 1])
  }

  /** The world after the actions, from a given world. */
  function Exec(w: World, acts: seq<Action>): Option<World> {
    if acts == [] then Some(w)
    else
      match Exec(w, acts[..|acts| - 1])
      case None => None
      case Some(v) => Step(v, acts[|acts| - 1])
  }

  lemma {:induction false} ExecConcat(w: World, first: seq<Action>, rest: seq<Action>)
    ensures Exec(w, first + rest)
         == match Exec(w, first) case None => None case Some(v) => Exec(v, rest)
  {
    if rest == [] {
      assert first + rest == first;
    } else {
      var all := first + rest;
      assert all[..|all| - 1] == first + rest[..|rest| - 1];
      ExecConcat(w, first, rest[..|rest| - 1]);
    }
  }

  lemma ExecOne(w: World, a: Action)
    ensures Exec(w, [a]) == Step(w, a)
  {
    assert [a][..0] == [];
  }

  lemma ExecCons(w: World, a: Action, v: World, rest: seq<Action>)
    requires Step(w, a) == Some(v)
    ensures Exec(w, [a] + rest) == Exec(v, rest)
  {
    ExecOne(w, a);
    ExecConcat(w, [a], rest);
  }

  /** Actions that can be taken from the empty store are the actions of a run. */
  lemma {:induction false} ExecIsRun(acts: seq<Action>) returns (ws: seq<World>)
    requires Exec(START, acts).Some?
    ensures IsRun(ws, acts) && ws[|acts|] == Exec(START, acts).value
  {
    if acts == [] {
      ws := [START];
    } else {
      var front := acts[..|acts| - 1];
      var before := ExecIsRun(front);
      ws := before + [Exec(START, acts).value];
      forall k {:trigger acts[k]} | 0 <= k < |acts| ensures Step(ws[k], acts[k]) == Some(ws[k + 1]) {
        if k < |front| { assert acts[k] == front[k]; }
      }
    }
  }
}
