/** When a flush commits: exactly when it lists rows and nothing goes wrong with it. */
module FlushOutcomes {
  import opened Wrappers
  import opened Protocol
  import opened Safety
  import opened Outbox

  /** A statement or a publish of the flush fails, or its database session is lost. */
  predicate Harms(a: Action, f: FlushId) {
    a == SessionLost(f) || (a.RunFlush? && a.f == f && a.o.Bad?)
  }

  ghost predicate Harmed(acts: seq<Action>, k: nat, f: FlushId)
    requires k <= |acts|
  {
    exists j {:trigger acts[j]} :: 0 <= j < k && Harms(acts[j], f)
  }

  /** Where a flush can be, whether or not it has been harmed. */
  predicate Fits(x: Flush, harmed: bool) {
    && (x.committed ==> x.pc == FDone && x.rows != [] && !harmed)
    && (x.pc == FDone && !x.committed ==> harmed || x.rows == [])
    && (x.pc == FRollback ==> harmed || x.rows == [])
    && (!x.live ==> harmed)
    && (harmed && x.pc != FRollback && x.pc != FDone ==> !x.live)
    && (x.pc in {FPublish, FMark, FCommit} ==> x.rows != [])
    && (x.pc in {FBegin, FList} ==> x.rows == [])
  }

  lemma EarlyFits(w: World, f: FlushId, o: Outcome, harmed: bool)
    requires f in w.flushes && w.flushes[f].pc in {FBegin, FList, FRollback} && Fits(w.flushes[f], harmed)
    ensures ShapedFlush(w.flushes[f])
    ensures var r := StepFlush(w, f, o);
            r.Some? ==> f in r.value.flushes && Fits(r.value.flushes[f], harmed || o.Bad?)
  {
  }

  lemma PublishFits(w: World, f: FlushId, o: Outcome, harmed: bool)
    requires f in w.flushes && ShapedFlush(w.flushes[f]) && Fits(w.flushes[f], harmed)
    requires w.flushes[f].pc == FPublish
    ensures var r := StepFlush(w, f, o);
            r.Some? ==> f in r.value.flushes && Fits(r.value.flushes[f], harmed || o.Bad?)
  {
  }

  lemma LateFits(w: World, f: FlushId, o: Outcome, harmed: bool)
    requires f in w.flushes && ShapedFlush(w.flushes[f]) && Fits(w.flushes[f], harmed)
    requires w.flushes[f].pc in {FMark, FCommit, FDone}
    ensures var r := StepFlush(w, f, o);
            r.Some? ==> f in r.value.flushes && Fits(r.value.flushes[f], harmed || o.Bad?)
  {
  }

  lemma OwnFits(w: World, f: FlushId, o: Outcome, harmed: bool)
    requires f in w.flushes && ShapedFlush(w.flushes[f]) && Fits(w.flushes[f], harmed)
    ensures var r := StepFlush(w, f, o);
            r.Some? ==> f in r.value.flushes && Fits(r.value.flushes[f], harmed || o.Bad?)
  {
    if w.flushes[f].pc in {FBegin, FList, FRollback} {
      EarlyFits(w, f, o, harmed);
    } else if w.flushes[f].pc == FPublish {
      PublishFits(w, f, o, harmed);
    } else {
      LateFits(w, f, o, harmed);
    }
  }

  lemma LostFits(w: World, f: FlushId, harmed: bool)
    requires f in w.flushes && Fits(w.flushes[f], harmed)
    ensures var r := StepLost(w, f); r.Some? ==> f in r.value.flushes && Fits(r.value.flushes[f], true)
  {
  }

  lemma OtherFlush(w: World, g: FlushId, o: Outcome, f: FlushId)
    requires g in w.flushes && ShapedFlush(w.flushes[g]) && f != g
    ensures var r := StepFlush(w, g, o);
            r.Some? ==> && (f in r.value.flushes <==> f in w.flushes)
                        && (f in w.flushes ==> r.value.flushes[f] == w.flushes[f])
  {
  }

  /** An action that is not of flush f leaves it as it is, unless it starts it. */
  lemma Untouched(w: World, a: Action, w': World, f: FlushId)
    requires Inv(w) && Step(w, a) == Some(w') && a != Tick(f) && a != SessionLost(f) && !(a.RunFlush? && a.f == f)
    ensures (f in w'.flushes <==> f in w.flushes) && (f in w.flushes ==> w'.flushes[f] == w.flushes[f])
  {
    match a
    case Arrive(_, _) =>
    case Run(i, o, newId) => CallStepSameFlushes(w, i, o, newId);
    case Tick(_) =>
    case RunFlush(g, o) => OtherFlush(w, g, o, f);
    case SessionLost(_) =>
  }

  lemma FitsNext(w: World, a: Action, w': World, f: FlushId, harmed: bool)
    requires Inv(w) && Step(w, a) == Some(w')
    requires f in w.flushes ==> Fits(w.flushes[f], harmed)
    requires f !in w.flushes ==> !harmed
    ensures f in w'.flushes ==> Fits(w'.flushes[f], harmed || Harms(a, f))
    ensures f !in w'.flushes ==> !harmed && !Harms(a, f)
  {
    if a == SessionLost(f) {
      if f in w.flushes { LostFits(w, f, harmed); }
    } else if a.RunFlush? && a.f == f {
      OwnFits(w, f, a.o, harmed);
    } else if a != Tick(f) {
      Untouched(w, a, w', f);
    }
  }

  lemma HarmedNext(acts: seq<Action>, k: nat, f: FlushId)
    requires k < |acts|
    ensures Harmed(acts, k + 1, f) <==> Harmed(acts, k, f) || Harms(acts[k], f)
  {
  }

  lemma {:induction false} AllFit(ws: seq<World>, acts: seq<Action>, k: nat, f: FlushId)
    requires IsRun(ws, acts) && k < |ws|
    ensures f in ws[k].flushes ==> Fits(ws[k].flushes[f], Harmed(acts, k, f))
    ensures f !in ws[k].flushes ==> !Harmed(acts, k, f)
  {
    if k > 0 {
      AllFit(ws, acts, k - 1, f);
      ReachableInv(ws, acts, k - 1);
      HarmedNext(acts, k - 1, f);
      FitsNext(ws[k - 1], acts[k - 1], ws[k], f, Harmed(acts, k - 1, f));
    }
  }

  /** Over every run, with any number of publishers: a flush that is over has committed
      if and only if it listed rows and none of its statements or publishes has failed and
      its session was not lost. */
  lemma CommitsExactly(ws: seq<World>, acts: seq<Action>, k: nat, f: FlushId)
    requires IsRun(ws, acts) && k < |ws| && f in ws[k].flushes && ws[k].flushes[f].pc == FDone
    ensures ws[k].flushes[f].committed <==> ws[k].flushes[f].rows != [] && !Harmed(acts, k, f)
  {
    AllFit(ws, acts, k, f);
  }
}
