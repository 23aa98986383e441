/** What a client of the case store may rely on, over every run of any number of
    interleaved calls and flushes with any statement or commit failing. */
module StoreTheorems {
  import opened Wrappers
  import opened Workflow
  import opened Tables
  import opened History
  import opened Protocol
  import opened Safety

  // ------------------------------------------------------- the atomic machine

  /** The atomic specification: nothing happens, or one whole call happens. */
  ghost predicate AtomicNext(db: Db, log: seq<Commit>, db': Db, log': seq<Commit>) {
    || (db' == db && log' == log)
    || (&& |log'| == |log| + 1 && log'[..|log|] == log
        && var n := log'[|log|];
           Permitted(db, n) && db' == ApplyEffect(db, n.args.key, n.effect, n.oid))
  }

  lemma StepRefines(w: World, a: Action)
    requires Inv(w) && Step(w, a).Some?
    ensures var w' := Step(w, a).value; AtomicNext(w.db, w.commits, w'.db, w'.commits)
  {
    match a
    case Arrive(_, _) =>
    case Run(i, o, newId) =>
      assert Local(w, i);
      StepIsAtomicOrSilent(w, i, o, newId);
    case _ => FlushSteps(w, a);
  }

  lemma RunStep(ws: seq<World>, acts: seq<Action>, k: nat)
    requires IsRun(ws, acts) && k < |acts|
    ensures AtomicNext(ws[k].db, ws[k].commits, ws[k + 1].db, ws[k + 1].commits)
    ensures Legal(ws[k].commits) && ws[k].db == Rebuild(ws[k].commits)
  {
    ReachableInv(ws, acts, k);
    StepRefines(ws[k], acts[k]);
  }

  /** Refinement: seen through its tables and its log of commits, every run of the
      protocol is a run of the atomic machine from the empty store. */
  lemma RunRefinesAtomicMachine(ws: seq<World>, acts: seq<Action>)
    requires IsRun(ws, acts)
    ensures ws[0].db == EMPTY_DB && ws[0].commits == []
    ensures forall k :: 0 <= k < |acts| ==>
              AtomicNext(ws[k].db, ws[k].commits, ws[k + 1].db, ws[k + 1].commits)
    ensures forall k :: 0 <= k < |ws| ==> Legal(ws[k].commits) && ws[k].db == Rebuild(ws[k].commits)
  {
    forall k | 0 <= k < |ws| ensures Legal(ws[k].commits) && ws[k].db == Rebuild(ws[k].commits) {
      ReachableInv(ws, acts, k);
    }
    forall k | 0 <= k < |acts| ensures AtomicNext(ws[k].db, ws[k].commits, ws[k + 1].db, ws[k + 1].commits) {
      RunStep(ws, acts, k);
    }
  }

  lemma {:induction false} LogGrows(ws: seq<World>, acts: seq<Action>, k: nat, m: nat)
    requires IsRun(ws, acts) && k <= m < |ws|
    ensures ws[k].commits <= ws[m].commits
  {
    if k < m {
      LogGrows(ws, acts, k, m - 1);
      RunStep(ws, acts, m - 1);
    }
  }

  // ------------------------------------------------------------------ replies

  /** Why a call may answer so without having changed anything. */
  ghost predicate Explains(db: Db, a: Args, r: Reply) {
    match r
    case Replayed(resp) => a.key != "" && a.key in db.idem && resp == db.idem[a.key].response
    case Failed(NoRows) =>
      && a.Transition?
      && (a.caseId in db.cases ==> a.ifMatch != 0 && a.ifMatch != db.cases[a.caseId].version)
    case Failed(Refused(e)) =>
      && a.Transition? && a.caseId in db.cases
      && (a.ifMatch == 0 || a.ifMatch == db.cases[a.caseId].version)
      && Decide(db.cases[a.caseId].status, a.event, a.ctx, a.caseId) == Failure(e)
    case Failed(DbError) => true
    case Committed(_) => false
  }

  /** The answer a call has settled on, from the statement that settles it. */
  function Settled(c: Call): Option<Reply> {
    match c.pc
    case AtRollback(why) => Some(Failed(why))
    case Finished(r) => Some(r)
    case _ => None
  }

  lemma SettlingLookup(w: World, i: CallId, o: Outcome)
    requires Local(w, i) && w.calls[i].pc.AtLookup?
    ensures var pc := LookupPc(w.db, w.calls[i].args.key, o);
            pc.Finished? ==> Explains(w.db, w.calls[i].args, pc.reply)
  {
  }

  lemma SettlingDecide(w: World, i: CallId)
    requires Local(w, i) && w.calls[i].pc.AtDecide?
    ensures var pc := DecidePc(w.calls[i].args, w.calls[i].pc.cur);
            !pc.Finished? && (pc.AtRollback? ==> Explains(w.db, w.calls[i].args, Failed(pc.why)))
  {
  }

  lemma SettlingPlain(w: World, i: CallId, o: Outcome)
    requires Local(w, i) && Plain(w.calls[i].pc)
    ensures var c := w.calls[i];
            var settled := Settled(Call(c.args, PlainPc(w.db, w.nextId, c, o)));
            settled.Some? ==> Explains(w.db, c.args, settled.value)
  {
    match w.calls[i].pc
    case AtLookup => SettlingLookup(w, i, o);
    case AtDecide(_) => SettlingDecide(w, i);
    case AtUpdate(_, _) => AfterUpdate(w, i, o);
    case _ =>
  }

  /** The answer that a statement settles is right for the tables of that very
      moment: either the call commits now, or the tables explain the answer. */
  ghost predicate SettlesWell(w: World, w': World, i: CallId) {
    && i in w.calls && i in w'.calls
    && (Settled(w'.calls[i]).Some? ==>
          CommitsWhole(w, w', i) || Explains(w.db, w.calls[i].args, Settled(w'.calls[i]).value))
  }

  lemma SettlingPlainStep(w: World, i: CallId, o: Outcome)
    requires Local(w, i) && Plain(w.calls[i].pc)
    ensures SettlesWell(w, StepPlain(w, i, o), i)
  {
    SettlingPlain(w, i, o);
  }

  lemma SettlingInsertCase(w: World, i: CallId, o: Outcome, newId: CaseId)
    requires i in w.calls && w.calls[i].args.Create?
    ensures var r := StepInsertCase(w, i, o, newId); r.Some? ==> SettlesWell(w, r.value, i)
  {
  }

  lemma SettlingSelectCase(w: World, i: CallId, o: Outcome)
    requires i in w.calls && w.calls[i].args.Transition?
    ensures var r := StepSelectCase(w, i, o); r.Some? ==> SettlesWell(w, r.value, i)
  {
  }

  lemma SettlingIdem(w: World, i: CallId, o: Outcome)
    requires i in w.calls && w.calls[i].pc.AtIdem?
    ensures var r := StepIdem(w, i, o); r.Some? ==> SettlesWell(w, r.value, i)
  {
  }

  lemma SettlingCommit(w: World, i: CallId, o: Outcome)
    requires Local(w, i) && w.calls[i].pc.AtCommit?
    ensures SettlesWell(w, StepCommit(w, i, o), i)
  {
    if !o.Bad? { CommitWhole(w, i, o); }
  }

  lemma Settling(w: World, i: CallId, o: Outcome, newId: CaseId)
    requires Local(w, i) && Settled(w.calls[i]).None?
    ensures var r := StepCall(w, i, o, newId); r.Some? ==> SettlesWell(w, r.value, i)
  {
    match w.calls[i].pc
    case AtOpen =>
      if w.calls[i].args.Create? { SettlingInsertCase(w, i, o, newId); } else { SettlingSelectCase(w, i, o); }
    case AtIdem(_, _) => SettlingIdem(w, i, o);
    case AtCommit(_, _) => SettlingCommit(w, i, o);
    case AtRollback(_) =>
    case Finished(_) =>
    case _ => SettlingPlainStep(w, i, o);
  }

  lemma SettledOwnStep(w: World, i: CallId, o: Outcome, newId: CaseId)
    requires i in w.calls && Shaped(w.calls[i]) && Settled(w.calls[i]).Some? && StepCall(w, i, o, newId).Some?
    ensures var w' := StepCall(w, i, o, newId).value;
            i in w'.calls && Settled(w'.calls[i]) == Settled(w.calls[i]) && w'.calls[i].args == w.calls[i].args
  {
  }

  /** A settled answer is final. */
  lemma SettledStays(w: World, a: Action, i: CallId)
    requires Inv(w) && i in w.calls && Settled(w.calls[i]).Some? && Step(w, a).Some?
    ensures i in Step(w, a).value.calls
    ensures Settled(Step(w, a).value.calls[i]) == Settled(w.calls[i])
    ensures Step(w, a).value.calls[i].args == w.calls[i].args
  {
    match a
    case Arrive(_, _) =>
    case Run(j, o, newId) =>
      if j == i {
        SettledOwnStep(w, i, o, newId);
      } else {
        assert Local(w, j);
        StepIsAtomicOrSilent(w, j, o, newId);
      }
    case _ => FlushSteps(w, a);
  }

  /** The moment at which call i settled on the answer it has in world k. */
  ghost predicate Moment(ws: seq<World>, k: nat, m: nat, i: CallId)
    requires k < |ws| && i in ws[k].calls
  {
    && m < k && i in ws[m].calls && Settled(ws[m].calls[i]).None?
    && ws[m].calls[i].args == ws[k].calls[i].args
    && i in ws[m + 1].calls && Settled(ws[m + 1].calls[i]) == Settled(ws[k].calls[i])
    && Settled(ws[k].calls[i]).Some?
    && (CommitsWhole(ws[m], ws[m + 1], i)
        || Explains(ws[m].db, ws[k].calls[i].args, Settled(ws[k].calls[i]).value))
  }

  /** Linearizability: every answered call of a run has a moment, between its
      arrival and its answer, at which the whole call took effect on the tables of
      that moment, or at which those tables explain its answer. */
  lemma {:induction false} EveryAnswerHasAMoment(ws: seq<World>, acts: seq<Action>, k: nat, i: CallId) returns (m: nat)
    requires IsRun(ws, acts) && k < |ws| && i in ws[k].calls && Settled(ws[k].calls[i]).Some?
    ensures Moment(ws, k, m, i)
  {
    if k == 0 {
      assert false;
    } else {
      var w, a := ws[k - 1], acts[k - 1];
      ReachableInv(ws, acts, k - 1);
      if i in w.calls && Settled(w.calls[i]).Some? {
        SettledStays(w, a, i);
        m := EveryAnswerHasAMoment(ws, acts, k - 1, i);
      } else {
        SettledNow(w, a, ws[k], i);
        m := k - 1;
      }
    }
  }

  lemma SettledNow(w: World, a: Action, w': World, i: CallId)
    requires Inv(w) && Step(w, a) == Some(w') && i in w'.calls && Settled(w'.calls[i]).Some?
    requires i in w.calls ==> Settled(w.calls[i]).None?
    ensures i in w.calls && w'.calls[i].args == w.calls[i].args
    ensures CommitsWhole(w, w', i) || Explains(w.db, w'.calls[i].args, Settled(w'.calls[i]).value)
  {
    match a
    case Arrive(_, _) =>
    case Run(j, o, newId) =>
      assert Local(w, j);
      StepIsAtomicOrSilent(w, j, o, newId);
      if j == i { Settling(w, i, o, newId); }
    case _ => FlushSteps(w, a);
  }

  /** A call that answered with a replay, a refusal or a missing row changed
      nothing; one that answered with success committed exactly that row. */
  lemma AnswersAndCommits(ws: seq<World>, acts: seq<Action>, k: nat, i: CallId)
    requires IsRun(ws, acts) && k < |ws| && i in ws[k].calls && ws[k].calls[i].pc.Finished?
    ensures var r := ws[k].calls[i].pc.reply;
            && (r.Replayed? || (r.Failed? && r.reason != DbError) ==>
                  forall n :: n in ws[k].commits ==> n.call != i)
            && (r.Committed? ==>
                  exists n :: n in ws[k].commits && n.call == i && n.args == ws[k].calls[i].args
                              && r.response == Response(n.effect.caseId, n.effect.row))
  {
    ReachableInv(ws, acts, k);
    var w := ws[k];
    forall n | n in w.commits ensures Authored(w, n) {
      var m :| 0 <= m < |w.commits| && w.commits[m] == n;
    }
    if w.calls[i].pc.reply.Committed? {
      var m :| 0 <= m < |w.commits| && w.commits[m].call == i;
      assert w.commits[m] in w.commits;
    }
  }

  // ----------------------------------------------------------------- one case

  /** In every reachable world the messages of a case in id order are a path of the
      state machine that ends in its stored status, folding them rebuilds that status,
      and version, messages and timeline rows are equally many. */
  lemma CaseTablesAgree(ws: seq<World>, acts: seq<Action>, k: nat, c: CaseId)
    requires IsRun(ws, acts) && k < |ws|
    ensures var db := ws[k].db;
            var msgs := Messages(db, c);
            var tl := TimelineOf(db.timeline, c);
            && Sorted(db.outbox) && Path(msgs, c)
            && |msgs| == |tl| && (forall j :: 0 <= j < |msgs| ==> tl[j].event == msgs[j].event)
            && (c in db.cases <==> msgs != [])
            && (c in db.cases ==>
                 && db.cases[c].version == |msgs|
                 && msgs[|msgs| - 1].to == db.cases[c].status
                 && Fold(msgs) == Some(db.cases[c].status))
  {
    ReachableInv(ws, acts, k);
    OutboxSorted(ws[k].commits);
    LogAgreesWithState(ws[k].commits, c);
  }

  /** In every reachable world a CLOSED case got there by exactly the closing moves,
      has version 6 or more, and keeps its row for the rest of the run. */
  lemma ClosedForGood(ws: seq<World>, acts: seq<Action>, k: nat, m: nat, c: CaseId)
    requires IsRun(ws, acts) && k <= m < |ws|
    requires c in ws[k].db.cases && ws[k].db.cases[c].status == CLOSED
    ensures c in ws[m].db.cases && ws[m].db.cases[c] == ws[k].db.cases[c]
    ensures ws[k].db.cases[c].version >= 6
    ensures forall j :: 0 < j < |Of(ws[k].commits, c)| ==> Of(ws[k].commits, c)[j].args.Transition?
    ensures ClosingMoves(Moves(Of(ws[k].commits, c)))
  {
    ReachableInv(ws, acts, k);
    ClosedCases(ws[k].commits, c);
    ClosedStays(ws, acts, k, m, c);
  }

  lemma {:induction false} ClosedStays(ws: seq<World>, acts: seq<Action>, k: nat, m: nat, c: CaseId)
    requires IsRun(ws, acts) && k <= m < |ws|
    requires c in ws[k].db.cases && ws[k].db.cases[c].status == CLOSED
    ensures c in ws[m].db.cases && ws[m].db.cases[c] == ws[k].db.cases[c]
  {
    if k < m {
      ClosedStays(ws, acts, k, m - 1, c);
      ClosedOneStep(ws, acts, m - 1, c);
    }
  }

  lemma ClosedOneStep(ws: seq<World>, acts: seq<Action>, k: nat, c: CaseId)
    requires IsRun(ws, acts) && k < |acts|
    requires c in ws[k].db.cases && ws[k].db.cases[c].status == CLOSED
    ensures c in ws[k + 1].db.cases && ws[k + 1].db.cases[c] == ws[k].db.cases[c]
  {
    RunStep(ws, acts, k);
    NothingAfterClosed(ws[k], ws[k + 1], c);
  }

  lemma NothingAfterClosed(w: World, w': World, c: CaseId)
    requires AtomicNext(w.db, w.commits, w'.db, w'.commits)
    requires Legal(w.commits) && w.db == Rebuild(w.commits)
    requires c in w.db.cases && w.db.cases[c].status == CLOSED
    ensures c in w'.db.cases && w'.db.cases[c] == w.db.cases[c]
  {
    if w'.commits != w.commits {
      var n := w'.commits[|w.commits|];
      assert n.effect.caseId == c ==> n.args.Transition? && n.args.caseId == c;
      ClosedCases(w.commits, c);
    }
  }

  // --------------------------------------------------- keys and version checks

  /** At most one call of a run commits under a non-empty key, however many of them
      had missed it in their lookups; the stored response is that call's. */
  lemma OneEffectPerKey(ws: seq<World>, acts: seq<Action>, k: nat, key: string)
    requires IsRun(ws, acts) && k < |ws| && key != ""
    ensures forall n1, n2 ::
              n1 in ws[k].commits && n2 in ws[k].commits && n1.args.key == key && n2.args.key == key ==> n1 == n2
    ensures key in ws[k].db.idem <==> exists n :: n in ws[k].commits && n.args.key == key
    ensures forall n :: n in ws[k].commits && n.args.key == key ==>
              ws[k].db.idem[key].response == Response(n.effect.caseId, n.effect.row)
  {
    ReachableInv(ws, acts, k);
    KeyInLog(ws[k].commits, key);
    forall n1, n2 | n1 in ws[k].commits && n2 in ws[k].commits && n1.args.key == key && n2.args.key == key
      ensures n1 == n2
    {
      SameKeySameCommit(ws[k].commits, n1, n2);
    }
  }

  lemma SameKeySameCommit(log: seq<Commit>, n1: Commit, n2: Commit)
    requires Legal(log) && n1 in log && n2 in log && n1.args.key == n2.args.key != ""
    ensures n1 == n2
  {
    var a :| 0 <= a < |log| && log[a] == n1;
    var b :| 0 <= b < |log| && log[b] == n2;
    OneCommitPerKey(log, a, b);
  }

  lemma KeyInLog(log: seq<Commit>, key: string)
    requires Legal(log) && key != ""
    ensures key in Rebuild(log).idem <==> exists n :: n in log && n.args.key == key
    ensures forall n :: n in log && n.args.key == key ==>
              Rebuild(log).idem[key].response == Response(n.effect.caseId, n.effect.row)
  {
    KeysOfLog(log, key);
    forall n | n in log && n.args.key == key
      ensures key in Rebuild(log).idem && Rebuild(log).idem[key].response == Response(n.effect.caseId, n.effect.row)
    {
      var a :| 0 <= a < |log| && log[a] == n;
      PermittedResponse(log, a);
    }
    if key in Rebuild(log).idem {
      var a :| 0 <= a < |log| && log[a].args.key == key;
      assert log[a] in log;
    }
  }

  lemma {:induction false} PermittedResponse(log: seq<Commit>, a: nat)
    requires Legal(log) && a < |log|
    ensures log[a].effect.idem.response == Response(log[a].effect.caseId, log[a].effect.row)
  {
    if a < |log| - 1 { PermittedResponse(log[..|log| - 1], a); }
  }

  /** Once a key is stored: its row never changes again; a call whose lookup of it
      succeeds answers with the first response; and no call of that key that has not
      committed by then will ever commit. */
  lemma StoredKeyIsFinal(ws: seq<World>, acts: seq<Action>, k: nat, m: nat, key: string)
    requires IsRun(ws, acts) && k <= m < |ws| && key in ws[k].db.idem
    ensures key in ws[m].db.idem && ws[m].db.idem[key] == ws[k].db.idem[key]
    ensures forall n :: n in ws[m].commits && n.args.key == key ==> n in ws[k].commits
    ensures forall o :: o != Bad ==> LookupPc(ws[m].db, key, o) == Finished(Replayed(ws[k].db.idem[key].response))
  {
    ReachableInv(ws, acts, k);
    ReachableInv(ws, acts, m);
    LogGrows(ws, acts, k, m);
    StoredKeyStays(ws[k].commits, ws[m].commits, key);
  }

  lemma StoredKeyStays(log: seq<Commit>, log': seq<Commit>, key: string)
    requires Legal(log) && Legal(log') && log <= log' && key in Rebuild(log).idem
    ensures key in Rebuild(log').idem && Rebuild(log').idem[key] == Rebuild(log).idem[key]
    ensures forall n :: n in log' && n.args.key == key ==> n in log
  {
    KeysOfLog(log, key);
    KeysOfLog(log', key);
    var a :| 0 <= a < |log| && log[a].args.key == key;
    assert log'[a] == log[a];
    forall n | n in log' && n.args.key == key ensures n in log {
      var b :| 0 <= b < |log'| && log'[b] == n;
      OneCommitPerKey(log', a, b);
    }
  }

  /** Of all calls of a run with the same non-zero If-Match for one case at most one
      commits a transition. */
  lemma OneEffectPerIfMatch(ws: seq<World>, acts: seq<Action>, k: nat, n1: Commit, n2: Commit)
    requires IsRun(ws, acts) && k < |ws| && n1 in ws[k].commits && n2 in ws[k].commits
    requires n1.args.Transition? && n2.args.Transition?
    requires n1.args.caseId == n2.args.caseId && n1.args.ifMatch == n2.args.ifMatch != 0
    ensures n1 == n2
  {
    ReachableInv(ws, acts, k);
    var log := ws[k].commits;
    var a :| 0 <= a < |log| && log[a] == n1;
    var b :| 0 <= b < |log| && log[b] == n2;
    OneCommitPerIfMatch(log, a, b);
  }

  /** Under the row lock no update is lost: when a transition reaches its UPDATE, the
      row still has the version it read, so the version test never misses; and a
      call that reaches COMMIT has lost none of its inserts. */
  lemma NoLostUpdate(ws: seq<World>, acts: seq<Action>, k: nat, i: CallId, o: Outcome)
    requires IsRun(ws, acts) && k < |ws| && i in ws[k].calls
    ensures Shaped(ws[k].calls[i])
    ensures ws[k].calls[i].pc.AtUpdate? && o != Bad ==> StepPlain(ws[k], i, o).calls[i].pc.AtTimeline?
    ensures ws[k].calls[i].pc.AtCommit? ==>
              var e, p := ws[k].calls[i].pc.e, ws[k].calls[i].pc.p;
              !p.doomed && p.timeline == [e.entry] && |p.outbox| == 1 && p.outbox[0].payload == e.msg
  {
    ReachableInv(ws, acts, k);
    assert Local(ws[k], i);
    if ws[k].calls[i].pc.AtUpdate? { AfterUpdate(ws[k], i, o); }
  }

  // --------------------------------------------------- rows and their versions

  /** The later row of a case, as far as the earlier one is known. */
  predicate Later(before: CaseRow, row: CaseRow) {
    && row.tenant == before.tenant && row.title == before.title && before.version <= row.version
    && (row.version == before.version ==> row == before)
  }

  lemma StepKeepsCase(w: World, w': World, c: CaseId)
    requires AtomicNext(w.db, w.commits, w'.db, w'.commits) && c in w.db.cases
    ensures c in w'.db.cases && Later(w.db.cases[c], w'.db.cases[c])
  {
  }

  /** A version number tells whether a case has changed: between any two moments of a
      run a case keeps its tenant and title, its version never falls, and if it is the
      same then the whole row is. */
  lemma {:induction false} VersionTellsChange(ws: seq<World>, acts: seq<Action>, k: nat, m: nat, c: CaseId)
    requires IsRun(ws, acts) && k <= m < |ws| && c in ws[k].db.cases
    ensures c in ws[m].db.cases && Later(ws[k].db.cases[c], ws[m].db.cases[c])
  {
    if k < m {
      VersionTellsChange(ws, acts, k, m - 1, c);
      RunStep(ws, acts, m - 1);
      StepKeepsCase(ws[m - 1], ws[m], c);
    }
  }

  lemma {:induction false} PermittedAt(log: seq<Commit>, a: nat)
    requires Legal(log) && a < |log|
    ensures Legal(log[..a]) && Permitted(Rebuild(log[..a]), log[a])
  {
    if a < |log| - 1 {
      PermittedAt(log[..|log| - 1], a);
      assert log[..|log| - 1][..a] == log[..a];
    }
  }

  /** In every reachable world the tables hold, of each case, exactly the rows of its
      committed calls, in commit order, and its last row. */
  lemma TablesHoldTheCommits(ws: seq<World>, acts: seq<Action>, k: nat, c: CaseId)
    requires IsRun(ws, acts) && k < |ws|
    ensures CaseView(ws[k].db, Of(ws[k].commits, c), c)
  {
    ReachableInv(ws, acts, k);
    StoryOfCase(ws[k].commits, c);
  }

  /** The rows of a commit say what its call asked for. */
  ghost predicate Carries(n: Commit) {
    && n.effect.entry.caseId == n.effect.msg.caseId == n.effect.caseId
    && n.effect.entry.event == n.effect.msg.event && n.effect.row.status == n.effect.msg.to
    && n.effect.idem.response == Response(n.effect.caseId, n.effect.row)
    && match n.args
       case Create(tenant, title, actor, _) =>
         && n.effect.row == CaseRow(tenant, title, NEW, 1)
         && n.effect.entry.actor == NullIfEmpty(actor) && n.effect.entry.detail == Title(title)
       case Transition(c, event, ctx, _, _, request) =>
         && n.effect.caseId == c && n.effect.msg.event == event && n.effect.idem.request == request
         && n.effect.entry.actor == NullIfEmpty(ctx.actor)
         && n.effect.entry.detail == Entry(TimelineEntry(ctx.now, ctx.actor, event, ctx.reason, ctx.extras))
         && n.effect.msg.actor == Some(ctx.actor) && n.effect.msg.at == Some(ctx.now)
  }

  lemma PermittedCarries(db: Db, n: Commit)
    requires Permitted(db, n)
    ensures Carries(n)
  {
  }

  /** Every committed call has written its own arguments: a new case has the tenant and
      title that were asked for; a transition's timeline row and message name its event,
      actor and time, and the timeline row its reason and extras; and the key row holds
      its request and the row it returned. */
  lemma CommitsCarryTheirCalls(ws: seq<World>, acts: seq<Action>, k: nat, n: Commit)
    requires IsRun(ws, acts) && k < |ws| && n in ws[k].commits
    ensures Carries(n)
  {
    ReachableInv(ws, acts, k);
    var log := ws[k].commits;
    var a :| 0 <= a < |log| && log[a] == n;
    PermittedAt(log, a);
    PermittedCarries(Rebuild(log[..a]), n);
  }

  /** In every reachable world a case whose history has entered PARKED p times has
      version at most 6 * (p + 1) + 1. */
  lemma MovesAreBounded(ws: seq<World>, acts: seq<Action>, k: nat, c: CaseId)
    requires IsRun(ws, acts) && k < |ws| && c in ws[k].db.cases
    ensures forall j :: 0 < j < |Of(ws[k].commits, c)| ==> Of(ws[k].commits, c)[j].args.Transition?
    ensures ws[k].db.cases[c].version <= 6 * (Parks(NEW, Moves(Of(ws[k].commits, c))) + 1) + 1
  {
    ReachableInv(ws, acts, k);
    CaseProgress(ws[k].commits, c);
  }
}
