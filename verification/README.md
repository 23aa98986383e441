# Verification of the case store and the query gateway

Two parts of the repository are modelled and proved here.

**The case store** (`llm-ops-agent`). Any number of `CreateCase` and `Transition` calls run at
once. Each looks up its idempotency key outside any transaction, opens one, locks the case
row, checks If-Match, asks the state machine, bumps the version, and writes one timeline row,
one outbox row and perhaps one key row. Publishers drain the outbox in batches of ten with
`FOR UPDATE SKIP LOCKED`. `Protocol.dfy` is this protocol as a state machine, one statement per
step, in which any statement and any COMMIT may fail, a COMMIT may be applied although its
client sees an error, and a publisher may lose its database session at any time. `Safety.dfy`,
`StoreTheorems.dfy`, `Outcomes.dfy`, `Success.dfy`, `Outbox.dfy`, `Delivery.dfy`, `FlushOutcomes.dfy`,
`ListingOrder.dfy`, `Progress.dfy` and `Draining.dfy` prove what every run keeps: refinement of an
atomic machine, linearizable answers, one effect per key and per If-Match, a log that folds to the
stored state, when a call and a flush succeed, when delivery is in order, accounting of publishes,
no deadlock, and in how many flushes the outbox is empty.
`CaseStore.dfy` is the database as a class whose methods are single statements that change the
tables in place; `CaseRepository.dfy` and `OutboxPublisher.dfy` are the program's methods and loops
over it, with everybody else acting between any two statements; for a call or a flush that is alone and
whose statements succeed they also say exactly how it ends.

**The query gateway** (`observe-gateway`). The LogQL and TraceQL translators with their escaping,
splitting and hand-written operator order (`SqlText.dfy`, `SqlTokens.dfy`, `SqlConds.dfy`,
`LogPipeline.dfy`, `LogQl.dfy`, `TraceQl.dfy`, their theorems, and `QueryParts.dfy`), the Redis
sliding window (`SlidingWindow.dfy`, `RateLimiter.dfy`), and the query cache with its key
(`Timestamps.dfy`, `Durations.dfy`, `CacheKey.dfy`, `CacheKeyTheorems.dfy`, `MetricKeys.dfy`,
`QueryCache.dfy`).

## What is assumed

- PostgreSQL: READ COMMITTED; a row lock is held to the end of its transaction and a waiter then
  sees the newest committed row; `idem_key` is unique and a second writer of an uncommitted key
  waits; `version` defaults to 1; outbox ids come from one growing sequence; nothing is deleted;
  a failed statement dooms its transaction; an open transaction that loses its session is rolled
  back by the server.
- A generated case id is in no other row.
- A retry by a client is a new call.
- `nc.Publish` appends to a log or fails.
- Redis runs the script without interruption and drops an expired key no earlier than its deadline.
- The guard flags of the state machine are an arbitrary argument of each call.

## What turned out false, and what holds instead

- Guards do not protect WAIT_GATE: PARKED accepts plan_ready without a complete plan
  (`Workflow.ClosedWithoutPlan`, exactly described by `Workflow.IntoWaitGate`).
- Messages of one case can be handed over out of order by two publishers
  (`Overtaking.TwoPublishersSwap`). A listing keeps the order if and only if it passes over no
  earlier row of a case it lists that another flush holds and that has not gone out
  (`ListingOrder.OrderExactly`); with one loop that never happens (`Delivery.InOrderWithOneLoop`).
- The limiter counts distinct milliseconds, not requests: only for a limit of one does it bound
  requests on every run (`SlidingWindow.BoundsCallsOnlyForOne`).
- On a clock that goes back it does not even bound the milliseconds, unless the limit is one or no
  window has more of them than the limit (`SlidingWindow.BoundsStampsOnAllClocks`).
- A window shorter than a millisecond becomes a minute (`RateLimiter.WindowMillis`).
- Table names and label and attribute keys are put into the SQL unescaped, and `>` and `<`
  comparisons without any quotes: it is read back as intended exactly when the table is none or a
  dotted name, no key has an apostrophe inside and both sides of every comparison are names or
  numbers, perhaps with a sign (`LogQlTheorems.TranslationReadsBack`,
  `TraceQlTheorems.TranslationReadsBack`). The table `logs--` fails
  (`LogQlTheorems.CommentIsNoTable`), and so does every number with a unit, as in
  `duration > 100ms` (`TraceQlTheorems.UnitIsNotRead`, `TraceQlTheorems.DurationIsNotRead`).
- A value behind `=` that holds `!=` is taken for a `!=` matcher (`LogQlTheorems.MatcherRoundTrip`).
- Lower-casing may lengthen a trace query, and the slice behind ` where ` is then wrong or out of
  range (`TraceQlTheorems.LongerCopyLosesClause`, `TraceQlTheorems.LongerCopyMisses`; exactly when,
  says `TraceQlTheorems.SliceExactly`).
- Cache keys of different tenants collide exactly when one name ends with a bar and the other
  (`CacheKeyTheorems.CollideExactlyWhenConfusable`).
- A metric request with only a start and one with only an end at the same instant share a key; for
  plain tenant names that is the only way (`MetricKeys.KeysOfPlainTenants`), for any other bar-free
  name it is not (`MetricKeys.PlainTenantsExactly`).

## Model

| member | source | states |
|---|---|---|
| Workflow.ClosedIff | llm-ops-agent/workflow/workflow.go:40-122 | a sequence of moves from NEW ends in CLOSED if and only if it has at least five moves and ends in plan_ready, gate_approved with GateApproved and ChangeWindow, exec_done, verify_pass with VerifyPassed, where plan_ready came from PARKED or had a complete plan |
| Workflow.IntoWaitGate | llm-ops-agent/workflow/workflow.go:40-93 | WAIT_GATE is entered only by plan_ready: with a complete plan from PLANNING, with no guard at all from PARKED |
| Workflow.IntoAnalyzing | llm-ops-agent/workflow/workflow.go:40-49 | ANALYZING is entered only by start_analysis, from NEW or from PARKED |
| Workflow.IntoPlanning | llm-ops-agent/workflow/workflow.go:40-49 | PLANNING is entered only by analysis_done from ANALYZING, so a failed analysis never goes on to planning |
| Workflow.IntoParked | llm-ops-agent/workflow/workflow.go:40-49 | PARKED is entered by force_park from every open state but itself, and from each working state by its own failure, and in no other way |
| Workflow.NothingElse | llm-ops-agent/workflow/workflow.go:40-49 | no move leads back to NEW, or to a state that the table does not know |
| Workflow.DecidesExactly | llm-ops-agent/workflow/workflow.go:58-122 | a move is illegal exactly when its state and event are in no row of the table, refused by a guard exactly when the flags that it asks for are not set, and otherwise yields the target state with one message and one timeline entry that holds event, actor, time, reason and extras |
| Workflow.ClosedWithoutPlan | llm-ops-agent/workflow/workflow.go:48 | five moves that close a case although no move had PlanComplete |
| Workflow.ClosedIsFinal | llm-ops-agent/workflow/workflow.go:47 | a closed history accepts no further move |
| Workflow.ProgressBound | llm-ops-agent/workflow/workflow.go:40-49 | an accepted history that has entered PARKED p times has at most 6p moves plus the rank of its state, and at most 6(p+1) |
| Workflow.ProgressBoundIsTight | llm-ops-agent/workflow/workflow.go:40-49 | for every p some history parks p times, closes, and has exactly 6(p+1) moves |
| Tables.InsertItems | llm-ops-agent/db/migrations/001_init.up.sql:16-25 | a row whose id is the newest of its case comes last among the messages of that case, wherever its id puts it in the table |
| History.LogAgreesWithState | llm-ops-agent/internal/ports/postgres/case_repo.go:65-79 | after any log of whole calls the messages of a case are a path of the state machine from case_created to the stored status, fold to that status, and are as many as the version and the timeline rows |
| History.PathFolds | llm-ops-agent/internal/ports/postgres/case_repo.go:157-168 | a message list whose every `from` is the previous `to` folds to the `to` of its last message |
| History.CaseProgress | llm-ops-agent/workflow/workflow.go:40-49 | the version of a stored case is one more than its moves, which are at most six times (entries into PARKED + 1) |
| History.ClosedCases | llm-ops-agent/internal/ports/postgres/case_repo.go:119-143 | a stored case is CLOSED if and only if its committed moves are closing moves; then its version is at least 6 and no transition of it is permitted any more |
| History.OneCommitPerKey | llm-ops-agent/internal/ports/postgres/case_repo.go:171-182 | two commits of a log with the same non-empty key are the same commit |
| History.OneCommitPerIfMatch | llm-ops-agent/internal/ports/postgres/case_repo.go:124-127 | two transitions of one case with the same non-zero If-Match are the same commit |
| Safety.StepIsAtomicOrSilent | llm-ops-agent/internal/ports/postgres/case_repo.go:28-188 | every statement of a call either commits one whole permitted call or leaves all tables as they are, and moves no other call |
| Safety.ReachableInv | llm-ops-agent/internal/ports/postgres/case_repo.go:28-188 | in every world that any interleaving reaches, the tables are those of the committed calls run one at a time; locks, drawn ids and pending writes are in order |
| StoreTheorems.RunRefinesAtomicMachine | llm-ops-agent/internal/ports/postgres/case_repo.go:28-188 | every run of any number of calls, with any statement or commit failing, is a run of the machine that applies status, version + 1, one timeline row, one outbox row and the optional key row together or not at all |
| StoreTheorems.EveryAnswerHasAMoment | llm-ops-agent/internal/ports/postgres/case_repo.go:28-188 | linearizability: each answered call has a moment between arrival and answer at which it took effect as a whole, or at which the tables explain its answer |
| StoreTheorems.AnswersAndCommits | llm-ops-agent/internal/ports/postgres/case_repo.go:96-99 | success means that exactly this call is committed with the row it returns; a replay, a refusal or a missing row means that it committed nothing |
| StoreTheorems.CaseTablesAgree | llm-ops-agent/internal/ports/postgres/case_repo.go:119-168 | in every reachable world the outbox rows of a case in id order are a path of the state machine that folds to ops_case.status, and version, outbox rows and timeline rows are equally many, ignored timeline errors included |
| StoreTheorems.ClosedForGood | llm-ops-agent/internal/ports/postgres/case_repo.go:119-143 | in every run a CLOSED case got there by closing moves, has version 6 or more, and its row never changes again |
| StoreTheorems.OneEffectPerKey | llm-ops-agent/internal/ports/postgres/case_repo.go:105-111 | at most one call of a run commits under a key, however many had missed it in the unlocked lookup; a key is stored exactly when one has, with that call's response |
| StoreTheorems.StoredKeyIsFinal | llm-ops-agent/internal/ports/postgres/case_repo.go:29-35 | a stored key row never changes, every later lookup that succeeds returns the first response, and no other call of that key ever commits |
| StoreTheorems.OneEffectPerIfMatch | llm-ops-agent/internal/ports/postgres/case_repo.go:124-143 | of all calls of a run with the same non-zero If-Match for a case at most one commits a transition |
| StoreTheorems.NoLostUpdate | llm-ops-agent/db/sqlc/ops_case.sql.go:245-250 | when a transition reaches its UPDATE the version test finds the row it read; a call at COMMIT has one timeline row and one outbox row pending |
| StoreTheorems.VersionTellsChange | llm-ops-agent/db/sqlc/ops_case.sql.go:245-250 | between any two moments of a run a case keeps its tenant and title, its version never falls, and if it is the same then so is the whole row |
| StoreTheorems.TablesHoldTheCommits | llm-ops-agent/internal/ports/postgres/case_repo.go:54-79 | in every reachable world the timeline and outbox rows of a case are exactly those of its committed calls, in commit order |
| StoreTheorems.CommitsCarryTheirCalls | llm-ops-agent/internal/ports/postgres/case_repo.go:135-178 | every committed call has written its own arguments: tenant and title of a new case; event, actor, time, reason and extras of a transition; request and returned row under its key |
| StoreTheorems.MovesAreBounded | llm-ops-agent/workflow/workflow.go:40-49 | in every reachable world a case that has entered PARKED p times has version at most 6(p+1) + 1 |
| Outcomes.ErrorsExactly | llm-ops-agent/internal/ports/postgres/case_repo.go:28-188 | in every run a finished call answers with a database error if one of its statements has failed, the dropped timeline error of CreateCase included, or the answer to its COMMIT was lost, and only then or when its key has been stored meanwhile; a call of which a statement failed has committed nothing |
| Success.CreateSucceeds | llm-ops-agent/internal/ports/postgres/case_repo.go:28-100 | from every reachable world: a CreateCase without a key, or with one neither stored nor held, whose statements succeed ends within seven of them in success; the case is new with its tenant and title, NEW and version 1, with one timeline row and one message, and the response is stored under its key |
| Success.TransitionSucceeds | llm-ops-agent/internal/ports/postgres/case_repo.go:104-188 | from every reachable world: a Transition of a stored, unlocked case with If-Match 0 or the stored version, an event that leads to a state, and an open key ends within nine statements in success with that state and version + 1, one timeline row, one message and the response under its key |
| Success.TransitionRefused | llm-ops-agent/internal/ports/postgres/case_repo.go:119-133 | with the row unlocked and no stored key, a missing case, another version, an illegal move or an unmet guard ends the call with exactly that refusal; no table changes and no lock is left |
| Success.StoredKeyReplays | llm-ops-agent/internal/ports/postgres/case_repo.go:29-35 | a stored key ends the call in one statement with the stored response, whatever else it asks for |
| FlushOutcomes.CommitsExactly | llm-ops-agent/internal/outbox/publisher.go:39-74 | in every run, with any number of publishers, a flush that is over has committed if and only if it listed rows, none of its statements and publishes failed and its session was not lost |
| Outbox.UnpublishedLists | llm-ops-agent/db/sqlc/ops_case.sql.go:190-197 | the listing is in id order, holds only unpublished unlocked rows, and passes over none that is free |
| Delivery.ReachableOutbox | llm-ops-agent/internal/outbox/publisher.go:39-74 | the invariant of the outbox over every interleaving of any number of flushes, failures and lost sessions |
| Delivery.RowsHeldOnce | llm-ops-agent/internal/outbox/publisher.go:46-72 | in every reachable world two different flushes that both have an open session, or are both committed, have no row in common: no row is held by two open flushes, and none is published by two committed ones |
| Delivery.PublishAccounting | llm-ops-agent/internal/outbox/publisher.go:56-72 | a published row has one committed flush that had handed it to nc.Publish before; its publish count is one plus the flushes that handed it over and did not commit; an unpublished row counts only those |
| Delivery.InOrderWithoutOvertaking | llm-ops-agent/internal/outbox/publisher.go:39-74 | with any number of publishers, as long as no listing passes over an earlier row of a case it lists that is held and has not gone out, what went to nc.Publish of each case, without repeats, is at every moment a prefix of its committed messages |
| Delivery.InOrderWithOneLoop | llm-ops-agent/internal/outbox/publisher.go:26-37 | with one publisher loop and any concurrent writers delivery is in that order, across failed and retried flushes |
| ListingOrder.OrderExactly | llm-ops-agent/db/sqlc/ops_case.sql.go:190-197 | in every run in which no listing has overtaken yet: a live flush that is about to list leaves every case in order, however far it goes on, if and only if this listing passes over no earlier row of a case it lists that is held and has not gone out |
| ListingOrder.OvertakingBreaksOrder | llm-ops-agent/internal/outbox/publisher.go:46-64 | from a world where the listing would pass over such a row the flush by itself reaches a world in which the case is out of order |
| Overtaking.TwoPublishersSwap | llm-ops-agent/db/sqlc/ops_case.sql.go:190-197 | a run in which two publishers hand the two messages of one case to nc.Publish in the wrong order |
| Progress.WaitsAreShort | llm-ops-agent/internal/ports/postgres/case_repo.go:119-184 | a call waits only for a call that holds what it wants, and that one waits at most for the holder of a key, who waits for nobody |
| Progress.NoDeadlock | llm-ops-agent/internal/ports/postgres/case_repo.go:119-184 | in every reachable world, if a call has no answer yet then some call can take its next statement, one in an open transaction if the call is in one |
| Progress.FlushesNeverWait | llm-ops-agent/db/sqlc/ops_case.sql.go:190-197 | an unfinished flush can always take its next step |
| Progress.EveryoneCanFinish | llm-ops-agent/internal/ports/postgres/case_repo.go:28-188 | from every reachable world a continuation without failures, of at most ten statements per call, answers every call |
| Draining.FlushAlone | llm-ops-agent/internal/outbox/publisher.go:39-74 | a flush without failures or company publishes the first ten unpublished rows, or all there are, each once and in order |
| Draining.FlushOfNothing | llm-ops-agent/internal/outbox/publisher.go:52-55 | a flush that lists nothing changes no table and publishes nothing; it is over after three steps |
| Draining.RoundForces | llm-ops-agent/internal/outbox/publisher.go:46-72 | however many steps a flush on its own is given, it commits only as the whole flush of the first ten rows left, and never when none is left |
| Draining.DrainsInCeil | llm-ops-agent/internal/outbox/publisher.go:46-72 | a publisher on its own can commit r flushes in a row if and only if r <= ceil(n/10); whichever way it does, max(n - 10r, 0) of n rows are left, so the outbox is empty after exactly ceil(n/10) of them and not before |
| CaseStore.Store.Others | llm-ops-agent/internal/ports/postgres/case_repo.go:28-188 | between two statements of a call anybody else may act any number of times, or nobody if the call is alone; the call itself stays where it is |
| CaseStore.Store.GetIdempotency | llm-ops-agent/db/sqlc/ops_case.sql.go:103-120 | outside any transaction: a stored key ends the call with the stored response, exactly when the statement succeeds; an error counts as a miss |
| CaseStore.Store.BeginTx | llm-ops-agent/internal/ports/postgres/case_repo.go:37-40 | opens the transaction or ends the call with an error |
| CaseStore.Store.Rollback | llm-ops-agent/internal/ports/postgres/case_repo.go:50-51 | drops the pending writes, answers with the reason and frees exactly the row and key locks of the transaction |
| CaseStore.Store.InsertCase | llm-ops-agent/internal/ports/postgres/case_repo.go:42-52 | a fresh case row with status NEW and version 1 is pending and its lock, which nobody held, is taken, or the call is about to roll back |
| CaseStore.Store.GetCaseForUpdate | llm-ops-agent/db/sqlc/ops_case.sql.go:65-101 | locks the row and returns its newest committed version, or finds none, or fails |
| CaseStore.Store.CheckAndDecide | llm-ops-agent/internal/ports/postgres/case_repo.go:124-133 | If-Match first, then the state machine, on the row that was read |
| CaseStore.Store.UpdateCaseStatus | llm-ops-agent/db/sqlc/ops_case.sql.go:245-250 | status and version + 1 are pending; the version test never misses under the lock |
| CaseStore.Store.InsertTimeline | llm-ops-agent/internal/ports/postgres/case_repo.go:54-62 | one timeline row is pending exactly when the statement succeeds; otherwise CreateCase goes on in a doomed transaction and Transition gives up |
| CaseStore.Store.InsertOutbox | llm-ops-agent/internal/ports/postgres/case_repo.go:157-168 | one outbox row with the next id is pending; an id is used up even when the insert fails, and a doomed transaction always fails here |
| CaseStore.Store.InsertIdempotency | llm-ops-agent/internal/ports/postgres/case_repo.go:171-182 | the key row is pending and the key locked exactly when the statement succeeds, the transaction is not doomed and the key is neither stored nor held by another; otherwise the call is about to roll back |
| CaseStore.Store.CommitTx | llm-ops-agent/internal/ports/postgres/case_repo.go:184-187 | all pending writes become visible together and the commit is logged, or neither happens; success means the first, an error may hide it; the locks of the call go in either case and nothing else changes |
| CaseStore.Store.Scan | llm-ops-agent/db/sqlc/ops_case.sql.go:208-233 | the row loop of the listing collects exactly the first n free rows in id order |
| CaseStore.Store.ListUnpublishedOutbox | llm-ops-agent/db/sqlc/ops_case.sql.go:190-233 | the listed rows are the first free ones in id order and exactly they are locked by this flush; it fails exactly when the statement does, and an empty listing means there is none |
| CaseStore.Store.Publish | llm-ops-agent/internal/outbox/publisher.go:57-62 | one more row of the batch is in the log of publishes, or the flush is about to roll back |
| CaseStore.Store.MarkOutboxPublished | llm-ops-agent/db/sqlc/ops_case.sql.go:235-243 | the ids must be those of the batch; the update waits for COMMIT, so the published column stays as it is, and fails on a lost session |
| CaseStore.Store.CommitFlush | llm-ops-agent/internal/outbox/publisher.go:70-72 | the ids of the batch are published, on a live session only, or nothing is; the row locks go |
| CaseStore.Store.RollbackFlush | llm-ops-agent/internal/outbox/publisher.go:48-54 | frees exactly the row locks of the flush and publishes nothing |
| CaseRepository.Repository.Lookup | llm-ops-agent/internal/ports/postgres/case_repo.go:29-35 | a stored key answers the call, truthfully for some moment of the run; a call that is alone is answered here exactly when its key is stored, and with that response |
| CaseRepository.Repository.GiveUp | llm-ops-agent/internal/ports/postgres/case_repo.go:120-122 | the rollback after a failed statement or a refusal answers with that reason |
| CaseRepository.Repository.InsertKey | llm-ops-agent/internal/ports/postgres/case_repo.go:170-183 | the optional key row; alone and with an open key it is pending and the call is at COMMIT |
| CaseRepository.Repository.Commit | llm-ops-agent/internal/ports/postgres/case_repo.go:184-187 | COMMIT and the answer; alone it applies all that is pending and answers with the stored row |
| CaseRepository.Repository.CreateCase | llm-ops-agent/internal/ports/postgres/case_repo.go:28-100 | statement by statement among everybody else: the answer is truthful (success means this very commit, any other answer but a database error means no commit) and linearizable; a call that is alone and without failures replays a stored key, and with an open key succeeds and leaves the new case, its rows and its key row |
| CaseRepository.Repository.WriteCreated | llm-ops-agent/internal/ports/postgres/case_repo.go:54-79 | the half of CreateCase after its insert, with the timeline error dropped |
| CaseRepository.Repository.Transition | llm-ops-agent/internal/ports/postgres/case_repo.go:104-188 | the same for Transition, which when alone also ends with exactly the refusal that the stored row, the If-Match and the state machine call for |
| CaseRepository.Repository.MoveCase | llm-ops-agent/internal/ports/postgres/case_repo.go:124-143 | the half of Transition under the row lock |
| CaseRepository.Repository.CheckMove | llm-ops-agent/internal/ports/postgres/case_repo.go:124-133 | on the locked row the call goes on with the intent of the state machine, or with exactly the refusal that the row calls for |
| CaseRepository.Repository.UpdateCase | llm-ops-agent/internal/ports/postgres/case_repo.go:135-155 | the update and all that follows it; alone it ends in the whole effect of the transition |
| CaseRepository.Repository.SendMessages | llm-ops-agent/internal/ports/postgres/case_repo.go:157-168 | the loop over intent.Messages: alone, one row with the next id for each message, in order |
| CaseRepository.Repository.WriteMoved | llm-ops-agent/internal/ports/postgres/case_repo.go:145-168 | the timeline row and the loop over intent.Messages, then the end |
| CaseRepository.Repository.Close | llm-ops-agent/internal/ports/postgres/case_repo.go:170-187 | the optional key row and COMMIT, at the end of both methods |
| OutboxPublisher.BatchesAreSentInOrder | llm-ops-agent/internal/outbox/publisher.go:56-64 | at every moment of a run what each flush has handed to nc.Publish is a prefix of its batch, in order and each row once |
| OutboxPublisher.OverStays | llm-ops-agent/internal/outbox/publisher.go:39-74 | nothing happens to a flush that is over |
| OutboxPublisher.Publisher.FlushOnce | llm-ops-agent/internal/outbox/publisher.go:39-74 | one flush among everybody else: it has handed over a prefix of its batch, and all of it, then published, if it committed; one that is alone and without failures publishes the first ten unpublished rows in order and commits, or ends without a change when there is none |
| OutboxPublisher.Publisher.PublishAll | llm-ops-agent/internal/outbox/publisher.go:56-64 | the loop over the rows collects their ids in order and stops at the first publish that fails |
| OutboxPublisher.Publisher.PublishAndMark | llm-ops-agent/internal/outbox/publisher.go:56-72 | publish, mark and commit, with a rollback at each failure |
| OutboxPublisher.Publisher.MarkAndCommit | llm-ops-agent/internal/outbox/publisher.go:66-72 | after the loop: exactly the ids of the batch are marked and committed, or the flush rolls back; alone it always commits |
| OutboxPublisher.Publisher.Run | llm-ops-agent/internal/outbox/publisher.go:26-37 | n ticks are n different flushes, one after the other, all of them over |
| SqlText.LiteralRoundTrip | observe-gateway/internal/backend/client.go:630-634 | for every value v and every following text: reading the quoted escaped v as a character string literal (ISO/IEC 9075-2, section 5.3) gives the stripped v and leaves exactly the following text, if and only if that does not start with a quote |
| SqlText.ReadSpoilt | observe-gateway/internal/backend/client.go:623-628 | a text with a quote inside, put between quotes unescaped, is never read back, whatever follows that is not a quote |
| SqlText.StrippedIs | observe-gateway/internal/backend/client.go:630-632 | a value is stripped to a text if and only if it is blanks around quotation marks around this text, which has no quotation mark at its ends |
| SqlText.SanitizedIs | observe-gateway/internal/backend/client.go:623-628 | an identifier is exactly the stripped text with an underscore for every space inside |
| SqlTokens.OperandsExactly | observe-gateway/internal/backend/client.go:608-614 | the reader that takes the longest name (parts of letters and digits joined by single dots) or number (digits, fraction, exponent), with one sign or none, takes the whole of a text if and only if the text is one of these |
| SqlConds.FieldCondition | observe-gateway/internal/backend/client.go:528-541 | the two branches for != and = write exactly the condition they extract |
| SqlConds.FieldMeans | observe-gateway/internal/backend/client.go:528-541 | for every text with an operator: the condition has as key what stands before the first operator and as value what stands behind it, both without the blanks and quotation marks around them, where = counts only in a text without != |
| SqlConds.TableNames | observe-gateway/internal/backend/client.go:508-511 | the table of the SELECT is the given one stripped, or the default when nothing is left of it |
| SqlConds.ReadRendered | observe-gateway/internal/backend/client.go:502-621 | each written condition is read back as itself, whatever clause follows, if no field key has an apostrophe inside and both sides of a comparison are operands, that is names or numbers, perhaps with a sign |
| SqlConds.SelectRoundTrip | observe-gateway/internal/backend/client.go:566 | any table text and any list of conditions are read back from their SELECT, 1=1 for none, if and only if the table is a dotted name, no field key has an apostrophe inside, and both sides of every comparison, which is written without quotes, are operands |
| LogPipeline.MatcherIsTheExpression | observe-gateway/internal/backend/client.go:636 | the matcher finds a match at a place exactly when the expression has one there, with the same groups and length |
| LogPipeline.FindNext | observe-gateway/internal/backend/client.go:546-547 | a match in front of any text is the first one found, and the search goes on right behind it |
| LogQl.SelectorConditions | observe-gateway/internal/backend/client.go:522-543 | the loop over the selector's parts writes exactly the conditions of the parts |
| LogQl.PipelineConditions | observe-gateway/internal/backend/client.go:546-560 | the loop over the matches writes exactly the conditions of the matches |
| LogQl.TranslateLogQl | observe-gateway/internal/backend/client.go:502-567 | the translator with its loops returns the SELECT of the table and of the query's conditions, or the error |
| LogQlTheorems.FailsOnlyOn | observe-gateway/internal/backend/client.go:503-518 | it fails on blank queries and on selectors that are never closed, and on nothing else |
| LogQlTheorems.TranslationReadsBack | observe-gateway/internal/backend/client.go:502-567 | for every query at all the SQL is read back as the table and exactly the query's conditions, if and only if the given table is none or a dotted name once trimmed, and no trimmed label key has an apostrophe inside |
| LogQlTheorems.CommentIsNoTable | observe-gateway/internal/backend/client.go:508-511 | the table `logs--` is written as it stands and no query comes back from it |
| LogQlTheorems.MatcherRoundTrip | observe-gateway/internal/backend/client.go:528-541 | a printed matcher is extracted as itself if and only if its value does not begin or end in a quote and, behind =, holds no != |
| QueryParts.PaddedMatcher | observe-gateway/internal/backend/client.go:528-541 | a matcher printed with any blanks around its key, its operator and its value is extracted as exactly this key, operator and value, by both translators |
| QueryParts.PaddedExtraction | observe-gateway/internal/backend/client.go:513-560 | a log query whose matchers are printed with any blanks has exactly these matchers and then its filters, in order |
| QueryParts.FilterMeans | observe-gateway/internal/backend/client.go:546-560 | a match of the pipeline is one of four tests on the message, with the text stripped of blanks and quotation marks, and nothing for any other operator |
| QueryParts.NoSelector | observe-gateway/internal/backend/client.go:513-547 | a log query without a selector has exactly the conditions of its filters, whatever text without a bar stands before them |
| LogQlTheorems.ExtractionUndoesPrinting | observe-gateway/internal/backend/client.go:513-560 | a query printed from any clean matchers and filters has exactly these conditions, in order |
| LogQlTheorems.TranslateThenRead | observe-gateway/internal/backend/client.go:502-567 | translate, then read: the SQL of a printed query is the SELECT of its source conditions, and it is read back as these, in order and nothing else, if and only if the given table is none or a dotted name and no label key has an apostrophe inside |
| TraceQl.PartCondition | observe-gateway/internal/backend/client.go:597-615 | one part of a trace condition: !=, =, > and < in this order |
| QueryParts.PartKinds | observe-gateway/internal/backend/client.go:597-615 | for every part: a field test if and only if it holds =, a > comparison if and only if it holds > and no =, a < comparison if and only if it holds < and neither, nothing otherwise |
| QueryParts.CompareMeans | observe-gateway/internal/backend/client.go:608-614 | for every part: it is a comparison exactly when it holds no =, cut at its first >, or at its first < when it holds no >, with the stripped text before the operator as key and the trimmed text behind it as value |
| QueryParts.StreamMeans | observe-gateway/internal/backend/client.go:584-589 | the first condition of every translated trace query tests the second word of the query, without the quotation marks around it, and nothing else |
| QueryParts.PaddedComparison | observe-gateway/internal/backend/client.go:608-614 | a comparison printed with any blanks around its sides is extracted as exactly these sides, cut at the first operator |
| QueryParts.TraceFailsOnlyOn | observe-gateway/internal/backend/client.go:570-594 | the four errors of a trace query exactly: blank, not begun by from, one word only, or a keyword that the lower-cased copy has beyond the end |
| TraceQl.TranslateTraceQl | observe-gateway/internal/backend/client.go:569-621 | the translator returns the SELECT of the table and of the stream test and the conditions, or the error; a slice out of range is an error of its own |
| TraceQlTheorems.SliceExactly | observe-gateway/internal/backend/client.go:591-594 | for every query with a where clause and every lower-cased copy with its keyword at any place: the slice is in bounds if and only if the keyword has not moved back beyond the end of the text, and it is the clause if and only if it has moved back by no more than the blanks behind the keyword and forward by no more than the one at its own end |
| TraceQlTheorems.LongerCopyLosesClause | observe-gateway/internal/backend/client.go:580-594 | U+023A in the stream name grows by a byte when lower-cased: with one, the translated SQL has the test of the stream and no other condition |
| TraceQlTheorems.LongerCopyMisses | observe-gateway/internal/backend/client.go:580-594 | with two such letters the translator slices out of range |
| TraceQlTheorems.TranslationReadsBack | observe-gateway/internal/backend/client.go:569-621 | for every query at all the SQL is read back as the table and exactly the query's conditions, if and only if the given table is none or a dotted name once trimmed, no trimmed attribute key has an apostrophe inside, and both sides of every comparison are operands |
| TraceQlTheorems.ExtractionUndoesPrinting | observe-gateway/internal/backend/client.go:580-616 | a printed ASCII query, keywords in any case, has the stream test and then each comparison with its own operator, in order |
| TraceQlTheorems.TranslateThenRead | observe-gateway/internal/backend/client.go:569-621 | translate, then read: the SQL of a printed ASCII query is the SELECT of the stream test and its source conditions, and it is read back as these if and only if the given table is none or a dotted name and both sides of every comparison are operands |
| TraceQlTheorems.UnitIsNotRead | observe-gateway/internal/backend/client.go:609-611 | a query that compares a key with a number and its unit is translated with no error, and its SQL is not read back, whatever the table |
| TraceQlTheorems.DurationIsNotRead | observe-gateway/internal/backend/client.go:609-611 | `from s where duration > 100ms` is such a query |
| SlidingWindow.StateIsWindow | observe-gateway/internal/limiter/limiter.go:108-121 | on a clock that does not go back the set in Redis is exactly the admitted stamps younger than the window, never more than the limit |
| SlidingWindow.RefusesExactlyWhenFull | observe-gateway/internal/limiter/limiter.go:113-121 | a call is refused exactly when the current window already holds as many admitted stamps as the limit |
| SlidingWindow.WindowBound | observe-gateway/internal/limiter/limiter.go:108-121 | in every window (t - window, t] of every run the distinct admitted millisecond stamps are no more than the limit |
| SlidingWindow.DistinctStampsBoundCalls | observe-gateway/internal/limiter/limiter.go:118 | when no two calls share a millisecond the bound is one on admitted calls |
| SlidingWindow.SameMillisecondAllAdmitted | observe-gateway/internal/limiter/limiter.go:118 | with a limit of two or more any number of calls in one millisecond is admitted |
| SlidingWindow.BoundsCallsOnlyForOne | observe-gateway/internal/limiter/limiter.go:108-121 | the script bounds admitted calls on all runs with such a clock if and only if the limit is one |
| SlidingWindow.BoundsStampsOnAllClocks | observe-gateway/internal/limiter/limiter.go:108-121 | over all clocks, also those that go back, the distinct admitted stamps of every window are at most the limit if and only if the limit is one or no window has more milliseconds than it |
| SlidingWindow.ExpiryIsUnobservable | observe-gateway/internal/limiter/limiter.go:119 | on a clock that does not go back the script with PEXPIRE, however late the key is dropped, answers every call like the script that only trims |
| RateLimiter.Redis.RunScript | observe-gateway/internal/limiter/limiter.go:108-121 | the script on one key: it answers 1 exactly when fewer stamps than the limit are younger than the window and not dropped with an expired key, and then adds its own and moves the expiry a window ahead; otherwise it only trims |
| RateLimiter.BurstOf | observe-gateway/internal/limiter/limiter.go:45-50 | the configured burst, or twice the rate rounded down, and at least one |
| RateLimiter.WindowNanosOf | observe-gateway/internal/limiter/limiter.go:52-54 | a positive window is kept, any other becomes a minute |
| RateLimiter.WindowMillis | observe-gateway/internal/limiter/limiter.go:134-137 | whole milliseconds; a window below one millisecond becomes a minute |
| RateLimiter.Limiter.constructor | observe-gateway/internal/limiter/limiter.go:40-64 | off, or on with the defaults filled in |
| RateLimiter.Limiter.AllowLocal | observe-gateway/internal/limiter/limiter.go:89-106 | the first call of a tenant makes its bucket |
| RateLimiter.Limiter.AllowRedis | observe-gateway/internal/limiter/limiter.go:123-145 | the reply of the script for this tenant's key, or the error |
| RateLimiter.Limiter.Allow | observe-gateway/internal/limiter/limiter.go:67-87 | off or without a tenant everything passes; otherwise a request passes if and only if the bucket has a token and fewer stamps than the limit are kept for the tenant, on any clock, which on one that does not go back means that its window has room; no other tenant's window is touched |
| Timestamps.FormatInjective | observe-gateway/internal/server/server.go:260-264 | two UTC instants written alike in RFC 3339 (section 5.6, trailing zeros dropped) are the same |
| Timestamps.FormatChars | observe-gateway/internal/server/server.go:260-264 | a formatted instant has no bar and ends in Z |
| Timestamps.FormatPlaces | observe-gateway/internal/server/server.go:260-264 | year, month, day, hour, minute and second stand at their places as decimal numbers of fixed width with their separators, then the fraction, if any, without zeros at its end, and Z |
| Timestamps.AfterIsLater | observe-gateway/internal/server/server.go:240-242 | After is the order of the first field that differs, year first |
| Timestamps.OrderIsTotal | observe-gateway/internal/server/server.go:240-242 | of two different instants exactly one is after the other, and the order is transitive |
| Durations.DurationsExactly | observe-gateway/internal/query/types.go:40-45 | accepted steps are exactly: a sign or none, then a bare zero, or one or more decimal numbers with one of the eight units each |
| Durations.DurationChars | observe-gateway/internal/query/types.go:40-45 | a step that ParseDuration accepts has no bar and ends like no other part of a key |
| CacheKey.RefusedExactly | observe-gateway/internal/server/server.go:115-250 | each refusal of a request exactly: no query, a step that is no duration, no tenant, another language, a range query without both times, or with its end before its start, each only when those before it do not hold |
| CacheKey.AnsweredExactly | observe-gateway/internal/server/server.go:115-250 | a request is let through if and only if it has a query, a tenant, no step or a duration, and is a metric query, or a log or trace query with both times and the end not before the start |
| CacheKey.BuildCacheKey | observe-gateway/internal/server/server.go:256-272 | the key is the lower-cased language, the query, the tenant, the times that are set, the step if any and the flag text if set, joined by bars |
| CacheKeyTheorems.KeyIsInjective | observe-gateway/internal/server/server.go:256-272 | a request with both times, with any bars in its query, shares its key with no other accepted one that has both, and a log or trace request with no other accepted request of any language, unless one tenant's name ends with a bar and the other's |
| CacheKeyTheorems.CollideExactlyWhenConfusable | observe-gateway/internal/server/server.go:256-272 | for two different tenants some keys collide if and only if one name ends with a bar and the other; never for names without bars |
| MetricKeys.KeysOfPlainTenants | observe-gateway/internal/server/server.go:256-272 | for bar-free tenants whose names are no formatted time, accepted step or flag, two accepted requests of any language and times share a key if and only if they and their tenants are the same, or one has only a start, the other only an end, at the same instant, and they agree in all else |
| MetricKeys.PlainTenantsExactly | observe-gateway/internal/server/server.go:256-272 | among bar-free tenant names these are exactly the ones for which that holds |
| QueryCache.EntriesWereServed | observe-gateway/internal/server/server.go:164-210 | whatever was stored, forgotten or overtaken, an entry is the answer to an earlier request with its key |
| QueryCache.HitsAreOwnAnswers | observe-gateway/internal/server/server.go:164-210 | what the cache holds for a log or trace request is the answer of an earlier request that was the same in language, query, tenant, times, step and flag |
| MetricKeys.HitsOfPlainTenants | observe-gateway/internal/server/server.go:164-210 | when all tenants have plain names, what the cache holds for an accepted request of any language is the answer of an earlier request of this tenant that was the same, or that had its one time as the other bound |
| QueryCache.Server.Get | observe-gateway/internal/cache/cache.go:50-60 | an enabled cache returns the entry it has; a disabled one never any |
| QueryCache.Server.Set | observe-gateway/internal/cache/cache.go:63-71 | an enabled cache stores the entry; a disabled one nothing |
| QueryCache.Server.Dispatch | observe-gateway/internal/server/server.go:191-201 | the body names the request's language and tenant and the backend's result |
| QueryCache.Server.Answer | observe-gateway/internal/server/server.go:164-217 | the cached path among other requests: a hit is the caller's own earlier answer, a fresh body is the backend's and is stored under the request's key; a request that is alone is a hit exactly when its key was in the cache |
| QueryCache.Server.HandleQuery | observe-gateway/internal/server/server.go:99-217 | refused if and only if the request is not one that can be answered, and for exactly the first check that fails; limited if and only if it passes these and the limiter says no; otherwise the cached path, of which the same is promised |

## Left out

- HTTP routing, status codes, JSON encoding of rows, requests and responses, audit logging and authentication: plumbing.
- Severity, labels, resource id and the time columns of the rows, and the TTL of a key row, which is written and never read.
- 64-bit wrap-around of versions and ids: both are unbounded integers here.
- A statement that fails on the client's side without dooming its transaction (a cancelled context, say): every failed statement is taken to doom it.
- What NATS does with a published message, and `nc.Flush` after the commit: the claims are about the call of `nc.Publish`.
- The `published_at` column, and the topic and aggregate columns of the outbox, which are constants.
- The endless loop of `Publisher.Run`: any finite number of ticks is modelled, and the clock of the ticker is not.
- The local token bucket of `golang.org/x/time/rate`: whether it has a token is a parameter.
- Which entries the cache store forgets, and when: any entry, at any time.
- The calls that build the backend requests, the tenant metadata lookup and the metric backend with its fallback.
- What the SQL means to the log backend: ILIKE ignores case, `%` and `_` in a filter are not escaped, and a missing label is NULL; the claims are about the list of conditions.
- Reserved words: a compared key such as `not`, or a table `order`, counts as a name.
- Which characters beyond ASCII are letters: in a name all of them are, but white space.
- Forms of names and numbers that only some databases know, such as `$`, names in double quotes, and hexadecimal numbers: they are not read.
- Text that is not valid UTF-8; and in trace queries blanks beyond ASCII, where one byte is not one character.
- Lower-casing in Go beyond ASCII: it is a parameter of the trace translator.
- Numbers that overflow in `time.ParseDuration`: the code refuses some steps that are accepted here.
- Years outside 0 to 9999 after the shift to UTC, and the offset a time was sent with, which the key does not hold.
- Several gateways with different windows or limits on one tenant: all calls on a key use the same two.
- CaseStore.Store.Others: a caller that waits for a lock is not a state of its own; it is between two statements, and a wait that never ends in the lock ends in an error.
- RateLimiter.Limiter.Allow: the mutex around the local map is not modelled, so calls of one process are taken one at a time.
- The observe-bridge packages, the analyzer, the input, graph and vector access layers, configuration, Helm charts and scripts: stubs or plain I/O.
