/** What the committed calls of one case, taken one at a time, leave behind:
    the outbox messages of a case are a path of the state machine that ends in
    the stored status, and timeline, outbox and version count the same moves. */
module History {
  import opened Wrappers
  import opened Workflow
  import opened Tables

  /** The committed calls of one case. */
  function Of(log: seq<Commit>, c: CaseId): seq<Commit> {
    if log == [] then []
    else
      var last := log[|log| - 1];
      Of(log[..|log| - 1], c) + if last.effect.caseId == c then [last] else []
  }

  function ItemsOf(story: seq<Commit>): seq<Item> {
    seq(|story|, k requires 0 <= k < |story| => Item(story[k].oid, story[k].effect.msg))
  }

  function EntriesOf(story: seq<Commit>): seq<TimelineRow> {
    seq(|story|, k requires 0 <= k < |story| => story[k].effect.entry)
  }

  /** The tables hold, for each case, exactly its committed calls in commit order. */
  ghost predicate CaseView(db: Db, story: seq<Commit>, c: CaseId) {
    && Items(db.outbox, c) == ItemsOf(story)
    && TimelineOf(db.timeline, c) == EntriesOf(story)
    && (c in db.cases <==> story != [])
    && (story != [] ==> db.cases[c] == story[|story| - 1].effect.row)
  }

  /** One committed transition directly after another committed call of its case. */
  ghost predicate Follows(p: Commit, n: Commit, c: CaseId) {
    && n.args.Transition? && n.args.caseId == c
    && (n.args.ifMatch == 0 || n.args.ifMatch == p.effect.row.version)
    && p.oid < n.oid
    && var d := Decide(p.effect.row.status, n.args.event, n.args.ctx, c);
       d.Success? && n.effect == TransitionEffect(n.args, p.effect.row, d.value)
  }

  ghost predicate StoryOk(story: seq<Commit>, c: CaseId) {
    && (story != [] ==> story[0].args.Create? && story[0].effect == CreateEffect(story[0].args, c))
    && (forall k :: 0 < k < |story| ==> Follows(story[k - 1], story[k], c))
    && (forall k :: 0 <= k < |story| ==> story[k].effect.row.version == k + 1)
  }

  lemma ViewOther(db: Db, story: seq<Commit>, n: Commit, c: CaseId)
    requires CaseView(db, story, c) && Permitted(db, n) && n.effect.caseId != c
    ensures CaseView(ApplyEffect(db, n.args.key, n.effect, n.oid), story, c)
  {
    EffectCase(db, n);
    InsertItems(db.outbox, OutboxRow(n.oid, n.effect.caseId, n.effect.msg), c);
    TimelineSnoc(db.timeline, n.effect.entry, c);
  }

  lemma ViewOwn(db: Db, story: seq<Commit>, n: Commit, c: CaseId)
    requires CaseView(db, story, c) && Permitted(db, n) && n.effect.caseId == c
    ensures CaseView(ApplyEffect(db, n.args.key, n.effect, n.oid), story + [n], c)
  {
    EffectCase(db, n);
    InsertItems(db.outbox, OutboxRow(n.oid, n.effect.caseId, n.effect.msg), c);
    TimelineSnoc(db.timeline, n.effect.entry, c);
    assert ItemsOf(story + [n]) == ItemsOf(story) + [Item(n.oid, n.effect.msg)];
    assert EntriesOf(story + [n]) == EntriesOf(story) + [n.effect.entry];
  }

  lemma ViewStep(db: Db, story: seq<Commit>, n: Commit, c: CaseId)
    requires CaseView(db, story, c) && Permitted(db, n)
    ensures CaseView(ApplyEffect(db, n.args.key, n.effect, n.oid),
                     story + if n.effect.caseId == c then [n] else [], c)
  {
    if n.effect.caseId == c {
      ViewOwn(db, story, n, c);
    } else {
      ViewOther(db, story, n, c);
      assert story + [] == story;
    }
  }

  lemma TimelineSnoc(tl: seq<TimelineRow>, entry: TimelineRow, c: CaseId)
    ensures TimelineOf(tl + [entry], c) == TimelineOf(tl, c) + if entry.caseId == c then [entry] else []
  {
    assert (tl + [entry])[..|tl|] == tl;
  }

  /** An effect writes a timeline row of its own case, and one whole outbox row. */
  lemma EffectCase(db: Db, n: Commit)
    requires Permitted(db, n)
    ensures n.effect.entry.caseId == n.effect.caseId == n.effect.msg.caseId
  {
  }

  lemma StoryStep(db: Db, story: seq<Commit>, n: Commit, c: CaseId)
    requires CaseView(db, story, c) && StoryOk(story, c)
    requires Permitted(db, n) && n.effect.caseId == c
    ensures StoryOk(story + [n], c)
  {
    var longer := story + [n];
    if story != [] {
      var p := story[|story| - 1];
      assert Items(db.outbox, c)[|story| - 1] == Item(p.oid, p.effect.msg);
      ItemsAreRows(db.outbox, c, Item(p.oid, p.effect.msg));
      assert p.oid < n.oid;
      assert Follows(p, n, c);
    }
    forall k | 0 < k < |longer| ensures Follows(longer[k - 1], longer[k], c) {
      if k < |story| { assert Follows(story[k - 1], story[k], c); }
    }
  }

  lemma CaseStep(db: Db, story: seq<Commit>, n: Commit, c: CaseId)
    requires CaseView(db, story, c) && StoryOk(story, c) && Permitted(db, n)
    ensures CaseView(ApplyEffect(db, n.args.key, n.effect, n.oid), story + if n.effect.caseId == c then [n] else [], c)
    ensures StoryOk(story + if n.effect.caseId == c then [n] else [], c)
  {
    ViewStep(db, story, n, c);
    if n.effect.caseId == c {
      StoryStep(db, story, n, c);
    } else {
      assert story + [] == story;
    }
  }

  /** For every legal log and every case: the tables show the story of the case,
      and the story is legal on its own. */
  lemma {:induction false} StoryOfCase(log: seq<Commit>, c: CaseId)
    requires Legal(log)
    ensures CaseView(Rebuild(log), Of(log, c), c)
    ensures StoryOk(Of(log, c), c)
  {
    if log == [] {
    } else {
      var front, n := log[..|log| - 1], log[|log| - 1];
      StoryOfCase(front, c);
      CaseStep(Rebuild(front), Of(front, c), n, c);
    }
  }

  lemma {:induction false} OutboxSorted(log: seq<Commit>)
    requires Legal(log)
    ensures Sorted(Rebuild(log).outbox)
  {
    if log != [] {
      var front, n := log[..|log| - 1], log[|log| - 1];
      OutboxSorted(front);
      InsertSorted(Rebuild(front).outbox, OutboxRow(n.oid, n.effect.caseId, n.effect.msg));
    }
  }

  // ------------------------------------------------------ the message path

  function Messages(db: Db, c: CaseId): seq<Payload> {
    var items := Items(db.outbox, c);
    seq(|items|, k requires 0 <= k < |items| => items[k].payload)
  }

  /** Replays a case from the events of its messages alone. */
  function Fold(msgs: seq<Payload>): Option<State> {
    if msgs == [] then None
    else if |msgs| == 1 then
      if msgs[0].event == OtherEvent("case_created") then Some(NEW) else None
    else
      match Fold(msgs[..|msgs| - 1])
      case None => None
      case Some(s) => Table(s, msgs[|msgs| - 1].event)
  }

  ghost predicate Path(msgs: seq<Payload>, c: CaseId) {
    && (msgs != [] ==> msgs[0] == Payload(c, OtherState(""), NEW, OtherEvent("case_created"), None, None))
    && (forall k :: 0 <= k < |msgs| ==> msgs[k].caseId == c)
    && (forall k :: 0 < k < |msgs| ==> msgs[k].from == msgs[k - 1].to)
    && (forall k :: 0 < k < |msgs| ==> Table(msgs[k].from, msgs[k].event) == Some(msgs[k].to))
  }

  lemma {:induction false} PathFolds(msgs: seq<Payload>, c: CaseId)
    requires Path(msgs, c) && msgs != []
    ensures Fold(msgs) == Some(msgs[|msgs| - 1].to)
  {
    if |msgs| > 1 {
      PathFolds(msgs[..|msgs| - 1], c);
    }
  }

  lemma FollowsMessage(p: Commit, n: Commit, c: CaseId)
    requires Follows(p, n, c)
    ensures n.effect.msg.caseId == c
    ensures n.effect.msg.from == p.effect.row.status
    ensures n.effect.msg.to == n.effect.row.status
    ensures Table(n.effect.msg.from, n.effect.msg.event) == Some(n.effect.msg.to)
    ensures n.effect.msg.event == n.effect.entry.event == n.args.event
  {
  }

  /** In id order the outbox messages of a case are a path of the state machine
      from its creation to its stored status; folding their events gives that
      status back; version, messages and timeline rows are equally many, and the
      timeline names the same events. */
  lemma LogAgreesWithState(log: seq<Commit>, c: CaseId)
    requires Legal(log)
    ensures var db := Rebuild(log);
            var msgs := Messages(db, c);
            var tl := TimelineOf(db.timeline, c);
            && Path(msgs, c)
            && |msgs| == |tl|
            && (forall k :: 0 <= k < |msgs| ==> tl[k].event == msgs[k].event)
            && (c in db.cases <==> msgs != [])
            && (c in db.cases ==>
                 && db.cases[c].version == |msgs|
                 && msgs[|msgs| - 1].to == db.cases[c].status
                 && Fold(msgs) == Some(db.cases[c].status))
  {
    StoryOfCase(log, c);
    var db, st := Rebuild(log), Of(log, c);
    var msgs := Messages(db, c);
    StoryMessages(st, msgs, c);
    if msgs != [] { PathFolds(msgs, c); }
  }

  lemma StoryMessages(st: seq<Commit>, msgs: seq<Payload>, c: CaseId)
    requires StoryOk(st, c)
    requires |msgs| == |st| && forall k :: 0 <= k < |st| ==> msgs[k] == st[k].effect.msg
    ensures Path(msgs, c)
    ensures forall k :: 0 <= k < |st| ==>
             msgs[k].to == st[k].effect.row.status && msgs[k].event == st[k].effect.entry.event
  {
    forall k | 0 < k < |st|
      ensures msgs[k].caseId == c && msgs[k].from == msgs[k - 1].to && msgs[k].to == st[k].effect.row.status
      ensures Table(msgs[k].from, msgs[k].event) == Some(msgs[k].to) && msgs[k].event == st[k].effect.entry.event
    {
      FollowsMessage(st[k - 1], st[k], c);
      if k > 1 { FollowsMessage(st[k - 2], st[k - 1], c); }
    }
  }

  // ----------------------------------------------- keys and version checks

  /** An idempotency row exists exactly for the keys of committed calls, and holds
      the response of that call. */
  lemma {:induction false} KeysOfLog(log: seq<Commit>, key: string)
    requires Legal(log)
    ensures key in Rebuild(log).idem <==> key != "" && exists a :: 0 <= a < |log| && log[a].args.key == key
    ensures forall a :: 0 <= a < |log| && log[a].args.key == key && key != "" ==>
              Rebuild(log).idem[key] == log[a].effect.idem
  {
    if log != [] {
      var front, n := log[..|log| - 1], log[|log| - 1];
      KeysOfLog(front, key);
      if key in Rebuild(front).idem {
        var a :| 0 <= a < |front| && front[a].args.key == key;
        assert log[a].args.key == key;
      }
    }
  }

  /** Two committed calls never carry the same idempotency key. */
  lemma {:induction false} OneCommitPerKey(log: seq<Commit>, a: nat, b: nat)
    requires Legal(log) && a < |log| && b < |log|
    requires log[a].args.key == log[b].args.key != ""
    ensures a == b
    decreases |log|
  {
    var front := log[..|log| - 1];
    if a < |front| && b < |front| {
      OneCommitPerKey(front, a, b);
    } else if a != b {
      var m := if a < |front| then a else b;
      assert front[m].args.key == log[a].args.key;
      KeysOfLog(front, log[a].args.key);
    }
  }

  lemma {:induction false} InStory(log: seq<Commit>, a: nat) returns (k: nat)
    requires a < |log|
    ensures k < |Of(log, log[a].effect.caseId)|
    ensures Of(log, log[a].effect.caseId)[k] == log[a]
    ensures k == |Of(log[..a], log[a].effect.caseId)|
  {
    if a == |log| - 1 {
      k := |Of(log[..a], log[a].effect.caseId)|;
    } else {
      k := InStory(log[..|log| - 1], a);
      assert log[..|log| - 1][..a] == log[..a];
    }
  }

  lemma {:induction false} StoriesGrow(log: seq<Commit>, a: nat, b: nat, c: CaseId)
    requires a < b <= |log| && log[a].effect.caseId == c
    ensures |Of(log[..a], c)| < |Of(log[..b], c)|
    decreases b
  {
    assert log[..b][..b - 1] == log[..b - 1];
    if a < b - 1 {
      StoriesGrow(log, a, b - 1, c);
    }
  }

  /** Of all committed transitions of one case that carried the same non-zero
      If-Match there is at most one. */
  lemma OneCommitPerIfMatch(log: seq<Commit>, a: nat, b: nat)
    requires Legal(log) && a < |log| && b < |log|
    requires log[a].args.Transition? && log[b].args.Transition?
    requires log[a].args.caseId == log[b].args.caseId
    requires log[a].args.ifMatch == log[b].args.ifMatch != 0
    ensures a == b
  {
    var c := log[a].args.caseId;
    CaseOfCommit(log, a);
    CaseOfCommit(log, b);
    StoryOfCase(log, c);
    var k := InStory(log, a);
    var m := InStory(log, b);
    MatchedVersion(Of(log, c), k, c);
    MatchedVersion(Of(log, c), m, c);
    if a < b {
      StoriesGrow(log, a, b, c);
    } else if b < a {
      StoriesGrow(log, b, a, c);
    }
  }

  lemma {:induction false} CaseOfCommit(log: seq<Commit>, a: nat)
    requires Legal(log) && a < |log| && log[a].args.Transition?
    ensures log[a].effect.caseId == log[a].args.caseId
  {
    if a < |log| - 1 {
      CaseOfCommit(log[..|log| - 1], a);
    }
  }

  /** A committed transition with a non-zero If-Match is the move number If-Match of its case. */
  lemma MatchedVersion(st: seq<Commit>, k: nat, c: CaseId)
    requires StoryOk(st, c) && k < |st| && st[k].args.Transition? && st[k].args.ifMatch != 0
    ensures k == st[k].args.ifMatch
  {
    if k > 0 {
      assert Follows(st[k - 1], st[k], c);
    }
  }

  // ---------------------------------------------------- moves of the workflow

  /** The moves a case has made since its creation. */
  function Moves(story: seq<Commit>): seq<Move>
    requires forall k :: 0 < k < |story| ==> story[k].args.Transition?
  {
    seq(if story == [] then 0 else |story| - 1,
        k requires 0 <= k < |story| - 1 => Move(story[k + 1].args.event, story[k + 1].args.ctx))
  }

  lemma {:induction false} StoryWalks(st: seq<Commit>, c: CaseId)
    requires StoryOk(st, c) && st != []
    ensures forall k :: 0 < k < |st| ==> st[k].args.Transition?
    ensures Walk(NEW, Moves(st)) == Some(st[|st| - 1].effect.row.status)
  {
    forall k | 0 < k < |st| ensures st[k].args.Transition? {
      assert Follows(st[k - 1], st[k], c);
    }
    if |st| > 1 {
      var front, n := st[..|st| - 1], st[|st| - 1];
      StoryWalks(front, c);
      assert Moves(st)[..|st| - 2] == Moves(front);
      assert Follows(st[|st| - 2], n, c);
      SameMove(front[|front| - 1].effect.row.status, n.args.event, n.args.ctx, c);
    }
  }

  /** The case id only goes into the message; it does not change the move. */
  lemma SameMove(s: State, ev: Event, ctx: Context, c: CaseId)
    ensures Decide(s, ev, ctx, c).Success? == Decide(s, ev, ctx, 0).Success?
    ensures Decide(s, ev, ctx, c).Success? ==> Decide(s, ev, ctx, c).value.to == Decide(s, ev, ctx, 0).value.to
  {
  }

  lemma NothingFromClosed(db: Db, n: Commit)
    requires n.args.Transition? && n.args.caseId in db.cases && db.cases[n.args.caseId].status == CLOSED
    ensures !Permitted(db, n)
  {
  }

  /** A stored case is CLOSED exactly when its committed moves are closing moves;
      then its version is at least 6, and no further transition is permitted. */
  lemma ClosedCases(log: seq<Commit>, c: CaseId)
    requires Legal(log) && c in Rebuild(log).cases
    ensures forall k :: 0 < k < |Of(log, c)| ==> Of(log, c)[k].args.Transition?
    ensures Rebuild(log).cases[c].status == CLOSED <==> ClosingMoves(Moves(Of(log, c)))
    ensures Rebuild(log).cases[c].status == CLOSED ==> Rebuild(log).cases[c].version >= 6
    ensures Rebuild(log).cases[c].status == CLOSED ==>
              forall n: Commit :: n.args.Transition? && n.args.caseId == c ==> !Permitted(Rebuild(log), n)
  {
    StoryOfCase(log, c);
    StoryWalks(Of(log, c), c);
    ClosedIff(Moves(Of(log, c)));
    if Rebuild(log).cases[c].status == CLOSED {
      forall n: Commit | n.args.Transition? && n.args.caseId == c ensures !Permitted(Rebuild(log), n) {
        NothingFromClosed(Rebuild(log), n);
      }
    }
  }

  /** A stored case that has entered PARKED p times has made at most 6 * (p + 1) moves. */
  lemma CaseProgress(log: seq<Commit>, c: CaseId)
    requires Legal(log) && c in Rebuild(log).cases
    ensures forall k :: 0 < k < |Of(log, c)| ==> Of(log, c)[k].args.Transition?
    ensures var moves := Moves(Of(log, c));
            && Rebuild(log).cases[c].version == |moves| + 1
            && |moves| <= 6 * Parks(NEW, moves) + Rank(Rebuild(log).cases[c].status)
            && |moves| <= 6 * (Parks(NEW, moves) + 1)
  {
    StoryOfCase(log, c);
    StoryWalks(Of(log, c), c);
    ProgressBound(Moves(Of(log, c)));
  }
}
