/** The four tables of the case store, the rows that one committed call adds to
    them, and the outbox kept in the order of its primary key. */
module Tables {
  import opened Wrappers
  import opened Workflow

  type CaseId = nat
  type CallId = nat

  datatype CaseRow = CaseRow(tenant: int, title: string, status: State, version: int)

  datatype Detail = Title(title: string) | Entry(entry: TimelineEntry)

  datatype TimelineRow = TimelineRow(caseId: CaseId, actor: Option<string>, event: Event, detail: Detail)

  datatype OutboxRow = OutboxRow(id: nat, caseId: CaseId, payload: Payload)

  datatype Response = Response(caseId: CaseId, row: CaseRow)

  datatype IdemRow = IdemRow(request: string, response: Response)

  /** `outbox` is held in id order.  Its `published` column is not here: it
      is the only column that a publisher changes (see Protocol.World). */
  datatype Db = Db(cases: map<CaseId, CaseRow>, timeline: seq<TimelineRow>,
                   outbox: seq<OutboxRow>, idem: map<string, IdemRow>)

  const EMPTY_DB := Db(map[], [], [], map[])

  // ------------------------------------------------------------------ calls

  datatype Args =
    | Create(tenant: int, title: string, actor: string, key: string)
    | Transition(caseId: CaseId, event: Event, ctx: Context, ifMatch: int, key: string, request: string)

  /** What one successful call writes. */
  datatype Effect = Effect(caseId: CaseId, row: CaseRow, entry: TimelineRow, msg: Payload, idem: IdemRow)

  /** An empty actor is stored as NULL. */
  function NullIfEmpty(s: string): Option<string> {
    if s == "" then None else Some(s)
  }

  function CreateEffect(a: Args, id: CaseId): Effect
    requires a.Create?
  {
    var row := CaseRow(a.tenant, a.title, NEW, 1);
    var created := OtherEvent("case_created");
    Effect(id, row,
           TimelineRow(id, NullIfEmpty(a.actor), created, Title(a.title)),
           Payload(id, OtherState(""), NEW, created, None, None),
           IdemRow("", Response(id, row)))
  }

  function TransitionEffect(a: Args, cur: CaseRow, intent: Intent): Effect
    requires a.Transition? && |intent.messages| > 0
  {
    var row := cur.(status := intent.to, version := cur.version + 1);
    Effect(a.caseId, row,
           TimelineRow(a.caseId, NullIfEmpty(intent.timeline.actor), intent.timeline.event, Entry(intent.timeline)),
           intent.messages[0],
           IdemRow(a.request, Response(a.caseId, row)))
  }

  // ------------------------------------------------------ the outbox by id

  ghost predicate Sorted(ob: seq<OutboxRow>) {
    forall i, j :: 0 <= i < j < |ob| ==> ob[i].id < ob[j].id
  }

  ghost predicate UsesId(ob: seq<OutboxRow>, id: nat) {
    exists k :: 0 <= k < |ob| && ob[k].id == id
  }

  /** Every row of the case has a smaller id. */
  ghost predicate Newest(ob: seq<OutboxRow>, c: CaseId, id: nat) {
    forall k :: 0 <= k < |ob| && ob[k].caseId == c ==> ob[k].id < id
  }

  function Insert(ob: seq<OutboxRow>, r: OutboxRow): seq<OutboxRow> {
    if ob == [] || ob[|ob| - 1].id < r.id then ob + [r]
    else Insert(ob[..|ob| - 1], r) + [ob[|ob| - 1]]
  }

  function InsertAll(ob: seq<OutboxRow>, rows: seq<OutboxRow>): seq<OutboxRow>
    decreases rows
  {
    if rows == [] then ob else InsertAll(Insert(ob, rows[0]), rows[1..])
  }

  lemma {:induction false} InsertKeepsRows(ob: seq<OutboxRow>, r: OutboxRow)
    ensures multiset(Insert(ob, r)) == multiset(ob) + multiset{r}
    ensures |Insert(ob, r)| == |ob| + 1
  {
    if ob != [] && r.id <= ob[|ob| - 1].id {
      InsertKeepsRows(ob[..|ob| - 1], r);
      assert ob == ob[..|ob| - 1] + [ob[|ob| - 1]];
    }
  }

  lemma InsertMembers(ob: seq<OutboxRow>, r: OutboxRow, x: OutboxRow)
    ensures x in Insert(ob, r) <==> x in ob || x == r
  {
    InsertKeepsRows(ob, r);
    assert x in multiset(Insert(ob, r)) <==> x in multiset(ob) || x == r;
  }

  lemma {:induction false} InsertSorted(ob: seq<OutboxRow>, r: OutboxRow)
    requires Sorted(ob) && !UsesId(ob, r.id)
    ensures Sorted(Insert(ob, r))
  {
    if ob != [] && r.id <= ob[|ob| - 1].id {
      var front, last := ob[..|ob| - 1], ob[|ob| - 1];
      InsertSorted(front, r);
      var ins := Insert(front, r);
      forall i | 0 <= i < |ins| ensures ins[i].id < last.id {
        InsertMembers(front, r, ins[i]);
      }
    }
  }

  /** What a reader of one case sees of an outbox row. */
  datatype Item = Item(id: nat, payload: Payload)

  /** The messages of one case, in id order. */
  function Items(ob: seq<OutboxRow>, c: CaseId): seq<Item> {
    if ob == [] then []
    else
      var last := ob[|ob| - 1];
      Items(ob[..|ob| - 1], c) + if last.caseId == c then [Item(last.id, last.payload)] else []
  }

  lemma {:induction false} ItemsAreRows(ob: seq<OutboxRow>, c: CaseId, it: Item)
    ensures it in Items(ob, c) <==> OutboxRow(it.id, c, it.payload) in ob
  {
    if ob != [] {
      ItemsAreRows(ob[..|ob| - 1], c, it);
      assert ob == ob[..|ob| - 1] + [ob[|ob| - 1]];
    }
  }

  /** A row that is the newest of its case goes to the end of that case's
      messages, wherever its id puts it in the table. */
  lemma {:induction false} InsertItems(ob: seq<OutboxRow>, r: OutboxRow, c: CaseId)
    requires Newest(ob, r.caseId, r.id)
    ensures Items(Insert(ob, r), c)
         == Items(ob, c) + if r.caseId == c then [Item(r.id, r.payload)] else []
  {
    if ob == [] || ob[|ob| - 1].id < r.id {
      assert (ob + [r])[..|ob|] == ob;
    } else {
      var front, last := ob[..|ob| - 1], ob[|ob| - 1];
      InsertItems(front, r, c);
      assert Insert(ob, r)[..|Insert(ob, r)| - 1] == Insert(front, r);
      assert last.caseId != r.caseId;
    }
  }

  function TimelineOf(tl: seq<TimelineRow>, c: CaseId): seq<TimelineRow> {
    if tl == [] then []
    else TimelineOf(tl[..|tl| - 1], c) + if tl[|tl| - 1].caseId == c then [tl[|tl| - 1]] else []
  }

  // -------------------------------------------------------- one atomic call

  function KeyRow(key: string, row: IdemRow): map<string, IdemRow> {
    if key == "" then map[] else map[key := row]
  }

  /** All the writes of one call, at once. */
  function ApplyEffect(db: Db, key: string, e: Effect, oid: nat): Db {
    Db(db.cases[e.caseId := e.row],
       db.timeline + [e.entry],
       Insert(db.outbox, OutboxRow(oid, e.caseId, e.msg)),
       db.idem + KeyRow(key, e.idem))
  }

  predicate IfMatchOk(a: Args, version: int)
    requires a.Transition?
  {
    a.ifMatch == 0 || version == a.ifMatch
  }

  /** The call may have this effect on this database. */
  ghost predicate Allowed(db: Db, a: Args, e: Effect) {
    match a
    case Create(_, _, _, _) =>
      e.caseId !in db.cases && e == CreateEffect(a, e.caseId)
    case Transition(c, ev, ctx, _, _, _) =>
      && e.caseId == c && c in db.cases
      && (a.ifMatch == 0 || a.ifMatch == db.cases[c].version)
      && var d := Decide(db.cases[c].status, ev, ctx, c);
         d.Success? && e == TransitionEffect(a, db.cases[c], d.value)
  }

  ghost predicate KeyFree(db: Db, key: string) {
    key == "" || key !in db.idem
  }

  /** One committed call. */
  datatype Commit = Commit(call: CallId, args: Args, effect: Effect, oid: nat)

  ghost predicate Permitted(db: Db, c: Commit) {
    && Allowed(db, c.args, c.effect)
    && KeyFree(db, c.args.key)
    && !UsesId(db.outbox, c.oid)
    && Newest(db.outbox, c.effect.caseId, c.oid)
  }

  /** The tables after running the committed calls one at a time, in commit order. */
  function Rebuild(log: seq<Commit>): Db {
    if log == [] then EMPTY_DB
    else
      var c := log[|log| - 1];
      ApplyEffect(Rebuild(log[..|log| - 1]), c.args.key, c.effect, c.oid)
  }

  /** Every call of the log was permitted at its turn. */
  ghost predicate Legal(log: seq<Commit>) {
    log == [] ||
    (Legal(log[..|log| - 1]) && Permitted(Rebuild(log[..|log| - 1]), log[|log| - 1]))
  }

  lemma LegalExtend(log: seq<Commit>, c: Commit)
    requires Legal(log) && Permitted(Rebuild(log), c)
    ensures Legal(log + [c])
    ensures Rebuild(log + [c]) == ApplyEffect(Rebuild(log), c.args.key, c.effect, c.oid)
  {
    assert (log + [c])[..|log|] == log;
  }
}
