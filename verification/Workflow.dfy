/** The case state machine: states, events, guards and the intent that an
    accepted event turns into.  States and events are strings in the program,
    so both types have a constructor for a text that is none of the names the program
    knows. */
module Workflow {
  import opened Wrappers

  datatype State =
    | NEW | ANALYZING | PLANNING | WAIT_GATE | EXECUTING | VERIFYING | CLOSED | PARKED
    | OtherState(name: string)

  datatype Event =
    | StartAnalysis | AnalysisDone | AnalysisFailed | PlanReady | PlanFailed
    | GateApproved | GateRejected | ExecDone | ExecFailed | VerifyPass | VerifyFailed | ForcePark
    | OtherEvent(text: string)

  datatype Error = ErrIllegal | ErrGuard

  datatype Context = Context(now: int, planComplete: bool, gateApproved: bool, changeWindow: bool,
                             verifyPassed: bool, reason: string, actor: string, extras: string)

  datatype TimelineEntry = TimelineEntry(at: int, actor: string, event: Event, reason: string, extras: string)

  /** The JSON body of an outbox message; the creation message has no actor and no time. */
  datatype Payload = Payload(caseId: nat, from: State, to: State, event: Event,
                             actor: Option<string>, at: Option<int>)

  datatype Intent = Intent(from: State, to: State, event: Event,
                           timeline: TimelineEntry, messages: seq<Payload>)

  function Table(from: State, ev: Event): Option<State> {
    match (from, ev)
    case (NEW, StartAnalysis) => Some(ANALYZING)
    case (NEW, ForcePark) => Some(PARKED)
    case (ANALYZING, AnalysisDone) => Some(PLANNING)
    case (ANALYZING, AnalysisFailed) => Some(PARKED)
    case (ANALYZING, ForcePark) => Some(PARKED)
    case (PLANNING, PlanReady) => Some(WAIT_GATE)
    case (PLANNING, PlanFailed) => Some(PARKED)
    case (PLANNING, ForcePark) => Some(PARKED)
    case (WAIT_GATE, GateApproved) => Some(EXECUTING)
    case (WAIT_GATE, GateRejected) => Some(PARKED)
    case (WAIT_GATE, ForcePark) => Some(PARKED)
    case (EXECUTING, ExecDone) => Some(VERIFYING)
    case (EXECUTING, ExecFailed) => Some(PARKED)
    case (EXECUTING, ForcePark) => Some(PARKED)
    case (VERIFYING, VerifyPass) => Some(CLOSED)
    case (VERIFYING, VerifyFailed) => Some(PARKED)
    case (VERIFYING, ForcePark) => Some(PARKED)
    case (PARKED, StartAnalysis) => Some(ANALYZING)
    case (PARKED, PlanReady) => Some(WAIT_GATE)
    case _ => None
  }

  /** Holds when the pair has no guard, or when its guard is satisfied. */
  predicate Guard(from: State, ev: Event, ctx: Context) {
    match (from, ev)
    case (PLANNING, PlanReady) => ctx.planComplete
    case (WAIT_GATE, GateApproved) => ctx.gateApproved && ctx.changeWindow
    case (VERIFYING, VerifyPass) => ctx.verifyPassed
    case _ => true
  }

  function Decide(from: State, ev: Event, ctx: Context, caseId: nat): Result<Intent, Error> {
    match Table(from, ev)
    case None => Failure(ErrIllegal)
    case Some(next) =>
      if !Guard(from, ev, ctx) then Failure(ErrGuard)
      else Success(Intent(
        from, next, ev,
        TimelineEntry(ctx.now, ctx.actor, ev, ctx.reason, ctx.extras),
        [Payload(caseId, from, next, ev, Some(ctx.actor), Some(ctx.now))]))
  }

  // ---------------------------------------------------------------- histories

  /** One requested move of a case. */
  datatype Move = Move(event: Event, ctx: Context)

  function After(s: Option<State>, m: Move): Option<State> {
    match s
    case None => None
    case Some(from) =>
      match Decide(from, m.event, m.ctx, 0)
      case Failure(_) => None
      case Success(intent) => Some(intent.to)
  }

  /** Where a sequence of moves leads; None as soon as one of them is refused. */
  function Walk(from: State, moves: seq<Move>): Option<State> {
    if moves == [] then Some(from)
    else After(Walk(from, moves[..|moves| - 1]), moves[|moves| - 1])
  }

  /** How often a walk enters PARKED. */
  function Parks(from: State, moves: seq<Move>): nat {
    if moves == [] then 0
    else Parks(from, moves[..|moves| - 1]) + if Walk(from, moves) == Some(PARKED) then 1 else 0
  }

  function Rank(s: State): nat {
    match s
    case ANALYZING => 1
    case PLANNING => 2
    case WAIT_GATE => 3
    case EXECUTING => 4
    case VERIFYING => 5
    case CLOSED => 6
    case _ => 0
  }

  /** A prefix of an accepted walk is accepted. */
  lemma {:induction false} WalkPrefix(from: State, moves: seq<Move>, k: nat)
    requires k <= |moves| && Walk(from, moves).Some?
    ensures Walk(from, moves[..k]).Some?
  {
    if k < |moves| {
      WalkPrefix(from, moves[..|moves| - 1], k);
      assert moves[..|moves| - 1][..k] == moves[..k];
    } else {
      assert moves[..k] == moves;
    }
  }

  /** Before a walk of n moves, the state k moves from its end. */
  function Back(moves: seq<Move>, k: nat): Option<State>
    requires k <= |moves|
  {
    Walk(NEW, moves[..|moves| - k])
  }

  lemma BackStep(moves: seq<Move>, k: nat)
    requires k < |moves|
    ensures Back(moves, k) == After(Back(moves, k + 1), moves[|moves| - k - 1])
  {
    var short := moves[..|moves| - k];
    assert short[..|short| - 1] == moves[..|moves| - (k + 1)];
    assert short[|short| - 1] == moves[|moves| - k - 1];
  }

  /** The only way into CLOSED: the last four moves, with the guards they passed,
      from a state where the plan was complete or the case was parked. */
  ghost predicate ClosingMoves(moves: seq<Move>) {
    var n := |moves|;
    && n >= 5
    && moves[n - 4].event == PlanReady
    && (Back(moves, 4) == Some(PARKED) || (Back(moves, 4) == Some(PLANNING) && moves[n - 4].ctx.planComplete))
    && moves[n - 3].event == GateApproved && moves[n - 3].ctx.gateApproved && moves[n - 3].ctx.changeWindow
    && moves[n - 2].event == ExecDone
    && moves[n - 1].event == VerifyPass && moves[n - 1].ctx.verifyPassed
  }

  lemma IntoClosed(s: Option<State>, m: Move)
    ensures After(s, m) == Some(CLOSED) <==> s == Some(VERIFYING) && m.event == VerifyPass && m.ctx.verifyPassed
  {
  }

  lemma IntoVerifying(s: Option<State>, m: Move)
    ensures After(s, m) == Some(VERIFYING) <==> s == Some(EXECUTING) && m.event == ExecDone
  {
  }

  lemma IntoExecuting(s: Option<State>, m: Move)
    ensures After(s, m) == Some(EXECUTING)
       <==> s == Some(WAIT_GATE) && m.event == GateApproved && m.ctx.gateApproved && m.ctx.changeWindow
  {
  }

  lemma IntoWaitGate(s: Option<State>, m: Move)
    ensures After(s, m) == Some(WAIT_GATE)
       <==> m.event == PlanReady && (s == Some(PARKED) || (s == Some(PLANNING) && m.ctx.planComplete))
  {
  }

  lemma IntoAnalyzing(s: Option<State>, m: Move)
    ensures After(s, m) == Some(ANALYZING) <==> m.event == StartAnalysis && (s == Some(NEW) || s == Some(PARKED))
  {
  }

  lemma IntoPlanning(s: Option<State>, m: Move)
    ensures After(s, m) == Some(PLANNING) <==> s == Some(ANALYZING) && m.event == AnalysisDone
  {
  }

  /** Parking is possible from every open state; each of them but NEW has its own failure. */
  lemma IntoParked(s: Option<State>, m: Move)
    ensures After(s, m) == Some(PARKED)
       <==> || (m.event == ForcePark && s.Some?
                && s.value in {NEW, ANALYZING, PLANNING, WAIT_GATE, EXECUTING, VERIFYING})
            || (m.event == AnalysisFailed && s == Some(ANALYZING))
            || (m.event == PlanFailed && s == Some(PLANNING))
            || (m.event == GateRejected && s == Some(WAIT_GATE))
            || (m.event == ExecFailed && s == Some(EXECUTING))
            || (m.event == VerifyFailed && s == Some(VERIFYING))
  {
  }

  /** No move leads to NEW or to a state the program does not know. */
  lemma NothingElse(s: Option<State>, m: Move)
    ensures After(s, m) != Some(NEW) && (After(s, m).Some? ==> !After(s, m).value.OtherState?)
  {
  }

  /** The pairs of the table, guards apart. */
  predicate Known(from: State, ev: Event) {
    || (ev == StartAnalysis && from in {NEW, PARKED})
    || (ev == AnalysisDone && from == ANALYZING)
    || (ev == AnalysisFailed && from == ANALYZING)
    || (ev == PlanReady && from in {PLANNING, PARKED})
    || (ev == PlanFailed && from == PLANNING)
    || (ev == GateApproved && from == WAIT_GATE)
    || (ev == GateRejected && from == WAIT_GATE)
    || (ev == ExecDone && from == EXECUTING)
    || (ev == ExecFailed && from == EXECUTING)
    || (ev == VerifyPass && from == VERIFYING)
    || (ev == VerifyFailed && from == VERIFYING)
    || (ev == ForcePark && from in {NEW, ANALYZING, PLANNING, WAIT_GATE, EXECUTING, VERIFYING})
  }

  /** A guard that is not satisfied. */
  predicate Unmet(from: State, ev: Event, ctx: Context) {
    || (from == PLANNING && ev == PlanReady && !ctx.planComplete)
    || (from == WAIT_GATE && ev == GateApproved && !(ctx.gateApproved && ctx.changeWindow))
    || (from == VERIFYING && ev == VerifyPass && !ctx.verifyPassed)
  }

  /** Which answer a requested move gets: an illegal pair, an unmet guard, or the intent
      with the rows that it asks for. */
  lemma DecidesExactly(from: State, ev: Event, ctx: Context, caseId: nat)
    ensures Decide(from, ev, ctx, caseId) == Failure(ErrIllegal) <==> !Known(from, ev)
    ensures Decide(from, ev, ctx, caseId) == Failure(ErrGuard) <==> Unmet(from, ev, ctx)
    ensures Decide(from, ev, ctx, caseId).Success? ==>
              var d := Decide(from, ev, ctx, caseId).value;
              && d.from == from && d.event == ev && After(Some(from), Move(ev, ctx)) == Some(d.to)
              && d.timeline == TimelineEntry(ctx.now, ctx.actor, ev, ctx.reason, ctx.extras)
              && d.messages == [Payload(caseId, from, d.to, ev, Some(ctx.actor), Some(ctx.now))]
  {
  }

  /** The last k moves undone one by one: what must hold for the walk to be closed. */
  lemma LastMove(moves: seq<Move>)
    requires |moves| >= 1
    ensures Back(moves, 0) == Some(CLOSED)
       <==> (&& Back(moves, 1) == Some(VERIFYING)
             && moves[|moves| - 1].event == VerifyPass && moves[|moves| - 1].ctx.verifyPassed)
  {
    BackStep(moves, 0);
    IntoClosed(Back(moves, 1), moves[|moves| - 1]);
  }

  lemma SecondLastMove(moves: seq<Move>)
    requires |moves| >= 2
    ensures Back(moves, 1) == Some(VERIFYING)
       <==> Back(moves, 2) == Some(EXECUTING) && moves[|moves| - 2].event == ExecDone
  {
    BackStep(moves, 1);
    IntoVerifying(Back(moves, 2), moves[|moves| - 2]);
  }

  lemma ThirdLastMove(moves: seq<Move>)
    requires |moves| >= 3
    ensures Back(moves, 2) == Some(EXECUTING)
       <==> Back(moves, 3) == Some(WAIT_GATE) && moves[|moves| - 3].event == GateApproved
            && moves[|moves| - 3].ctx.gateApproved && moves[|moves| - 3].ctx.changeWindow
  {
    BackStep(moves, 2);
    IntoExecuting(Back(moves, 3), moves[|moves| - 3]);
  }

  lemma FourthLastMove(moves: seq<Move>)
    requires |moves| >= 4
    ensures Back(moves, 3) == Some(WAIT_GATE)
       <==> moves[|moves| - 4].event == PlanReady
            && (Back(moves, 4) == Some(PARKED)
                || (Back(moves, 4) == Some(PLANNING) && moves[|moves| - 4].ctx.planComplete))
  {
    BackStep(moves, 3);
    IntoWaitGate(Back(moves, 4), moves[|moves| - 4]);
  }

  lemma StartOfWalk(moves: seq<Move>)
    ensures Back(moves, |moves|) == Some(NEW)
    ensures Back(moves, 0) == Walk(NEW, moves)
  {
    assert moves[..|moves|] == moves;
  }

  /** A case is closed exactly by the closing moves; nothing shorter closes it. */
  lemma ClosedIff(moves: seq<Move>)
    ensures Walk(NEW, moves) == Some(CLOSED) <==> ClosingMoves(moves)
  {
    StartOfWalk(moves);
    if |moves| >= 1 { LastMove(moves); }
    if |moves| >= 2 { SecondLastMove(moves); }
    if |moves| >= 3 { ThirdLastMove(moves); }
    if |moves| >= 4 { FourthLastMove(moves); }
  }

  /** No move is accepted once a case is closed. */
  lemma ClosedIsFinal(moves: seq<Move>, m: Move)
    requires Walk(NEW, moves) == Some(CLOSED)
    ensures Walk(NEW, moves + [m]) == None
  {
    assert (moves + [m])[..|moves|] == moves;
  }

  /** Only moves into PARKED lower the rank, so a walk that parks p times makes
      at most 6 * p moves plus the rank of where it ends. */
  lemma {:induction false} ProgressBound(moves: seq<Move>)
    requires Walk(NEW, moves).Some?
    ensures |moves| <= 6 * Parks(NEW, moves) + Rank(Walk(NEW, moves).value)
    ensures |moves| <= 6 * (Parks(NEW, moves) + 1)
  {
    if moves != [] {
      ProgressBound(moves[..|moves| - 1]);
    }
  }

  const OPEN := Context(0, true, true, true, true, "", "", "")

  /** Six moves that lead from NEW or PARKED to the end of VERIFYING. */
  function Round(last: Event): seq<Move> {
    [Move(StartAnalysis, OPEN), Move(AnalysisDone, OPEN), Move(PlanReady, OPEN),
     Move(GateApproved, OPEN), Move(ExecDone, OPEN), Move(last, OPEN)]
  }

  function Rounds(p: nat): seq<Move> {
    if p == 0 then [] else Rounds(p - 1) + Round(VerifyFailed)
  }

  lemma MovesOfARound(last: Event)
    requires last == VerifyFailed || last == VerifyPass
    ensures var r := Round(last);
            && After(Some(NEW), r[0]) == After(Some(PARKED), r[0]) == Some(ANALYZING)
            && After(Some(ANALYZING), r[1]) == Some(PLANNING)
            && After(Some(PLANNING), r[2]) == Some(WAIT_GATE)
            && After(Some(WAIT_GATE), r[3]) == Some(EXECUTING)
            && After(Some(EXECUTING), r[4]) == Some(VERIFYING)
            && After(Some(VERIFYING), r[5]) == Some(if last == VerifyPass then CLOSED else PARKED)
  {
    FirstMoves();
    LaterMoves(last);
  }

  lemma FirstMoves()
    ensures After(Some(NEW), Move(StartAnalysis, OPEN))
             == After(Some(PARKED), Move(StartAnalysis, OPEN)) == Some(ANALYZING)
    ensures After(Some(ANALYZING), Move(AnalysisDone, OPEN)) == Some(PLANNING)
    ensures After(Some(PLANNING), Move(PlanReady, OPEN)) == Some(WAIT_GATE)
  {
  }

  lemma LaterMoves(last: Event)
    requires last == VerifyFailed || last == VerifyPass
    ensures After(Some(WAIT_GATE), Move(GateApproved, OPEN)) == Some(EXECUTING)
    ensures After(Some(EXECUTING), Move(ExecDone, OPEN)) == Some(VERIFYING)
    ensures After(Some(VERIFYING), Move(last, OPEN)) == Some(if last == VerifyPass then CLOSED else PARKED)
  {
  }

  lemma OneMove(m: Move)
    ensures Walk(NEW, [m]) == After(Some(NEW), m)
  {
    assert [m][..0] == [];
  }

  lemma ParkFirst(moves: seq<Move>)
    requires |moves| == 5 && moves[0].event == ForcePark
    ensures Back(moves, 4) == Some(PARKED)
  {
    assert moves[..1] == [moves[0]];
    OneMove(moves[0]);
  }

  /** A walk that is closed although no move of it had a complete plan: PARKED accepts
      plan_ready without the guard that PLANNING has. */
  lemma ClosedWithoutPlan(moves: seq<Move>, ctx: Context)
    requires ctx == OPEN.(planComplete := false)
    requires moves == [Move(ForcePark, ctx), Move(PlanReady, ctx),
             Move(GateApproved, ctx), Move(ExecDone, ctx), Move(VerifyPass, ctx)]
    ensures Walk(NEW, moves) == Some(CLOSED) && forall k :: 0 <= k < |moves| ==> !moves[k].ctx.planComplete
  {
    ParkFirst(moves);
    ClosedIff(moves);
  }

  lemma RoundFrom(moves: seq<Move>, last: Event)
    requires Walk(NEW, moves) == Some(NEW) || Walk(NEW, moves) == Some(PARKED)
    requires last == VerifyFailed || last == VerifyPass
    ensures Walk(NEW, moves + Round(last)) == Some(if last == VerifyPass then CLOSED else PARKED)
    ensures Parks(NEW, moves + Round(last)) == Parks(NEW, moves) + if last == VerifyPass then 0 else 1
  {
    MovesOfARound(last);
    FollowRound(moves, Round(last), Walk(NEW, moves).value, if last == VerifyPass then CLOSED else PARKED);
  }

  /** A round whose moves are accepted one by one, parking at most at its end. */
  lemma FollowRound(moves: seq<Move>, r: seq<Move>, from: State, end: State)
    requires |r| == 6
    requires Walk(NEW, moves) == Some(from)
    requires After(Some(from), r[0]) == Some(ANALYZING)
    requires After(Some(ANALYZING), r[1]) == Some(PLANNING)
    requires After(Some(PLANNING), r[2]) == Some(WAIT_GATE)
    requires After(Some(WAIT_GATE), r[3]) == Some(EXECUTING)
    requires After(Some(EXECUTING), r[4]) == Some(VERIFYING)
    requires After(Some(VERIFYING), r[5]) == Some(end)
    ensures Walk(NEW, moves + r) == Some(end)
    ensures Parks(NEW, moves + r) == Parks(NEW, moves) + if end == PARKED then 1 else 0
  {
    assert moves + r[..0] == moves && r[..6] == r;
    Extend(moves, r, 0);
    Extend(moves, r, 1);
    Extend(moves, r, 2);
    Extend(moves, r, 3);
    Extend(moves, r, 4);
    Extend(moves, r, 5);
  }

  lemma Extend(moves: seq<Move>, r: seq<Move>, k: nat)
    requires k < |r|
    ensures Walk(NEW, moves + r[..k + 1]) == After(Walk(NEW, moves + r[..k]), r[k])
    ensures Parks(NEW, moves + r[..k + 1])
         == Parks(NEW, moves + r[..k]) + if Walk(NEW, moves + r[..k + 1]) == Some(PARKED) then 1 else 0
  {
    var longer := moves + r[..k + 1];
    assert longer[..|longer| - 1] == moves + r[..k];
  }

  /** The bound is met: for every p some walk parks p times, closes, and makes
      exactly 6 * (p + 1) moves. */
  lemma ProgressBoundIsTight(p: nat)
    ensures var moves := Rounds(p) + Round(VerifyPass);
            && Walk(NEW, moves) == Some(CLOSED)
            && Parks(NEW, moves) == p
            && |moves| == 6 * (p + 1)
  {
    RoundsPark(p);
    RoundFrom(Rounds(p), VerifyPass);
  }

  lemma {:induction false} RoundsPark(p: nat)
    ensures Walk(NEW, Rounds(p)) == Some(if p == 0 then NEW else PARKED)
    ensures Parks(NEW, Rounds(p)) == p
    ensures |Rounds(p)| == 6 * p
  {
    if p > 0 {
      RoundsPark(p - 1);
      RoundFrom(Rounds(p - 1), VerifyFailed);
    }
  }
}
