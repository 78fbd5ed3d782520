# Verified model of the windagent runtime core

The model covers the parts of windagent whose behaviour spans several calls,
processes or transactions. Each is a specification with its laws proved over
every input or every run, and, where the source changes objects in place,
classes whose methods are proved against that specification.

| area | modules |
|---|---|
| transactional outbox | `OutboxTable` (rows and guarded statements), `OutboxProtocol` and `OutboxRuns` (any number of publishers, any interleaving, crashes), `OutboxInference`, `OutboxLeases` (lease and backoff over time), `OutboxScan`, `OutboxService` and `OutboxPublishing` (the store and the publisher as classes), `StreamOrder` |
| units of work | `UnitOfWork` (concurrent scopes over durable and own rows), `UnitOfWorkScope` (the classes) |
| job queue and worker | `JobQueue` and `JobRuns` (leases, fencing, retry, cancellation), `JobStore` (the PostgreSQL queue as a class), `Worker` (the engine) |
| rate limiter | `RateLimiter` (the pruned windows against the full history), `RatePromise` (the promise over evictions) |
| realtime hub | `Realtime` |
| context assembly | `StableSorting`, `ContextBudget`, `ContextCompaction`, `ContextPipelines` |
| policy engine | `Policy` |
| trace context | `TraceContext` |
| shared | `Prelude`, `Events`, `Text` |

## How to read it

A protocol is a set of guarded steps on a state. A run is any sequence of
enabled steps, so a crash is a party that takes no further step. A class method
that waits lets any run of the other parties happen at that point (`Others`,
`Elapse`, `Pass`), and its contract says that everything it did and let happen is
one run of the protocol: the laws about runs therefore hold of any number of
these objects working at once.

Times are reals and the clock never goes back. What one party draws at random
(claim tokens, event ids) is a parameter that must be unused. `max_attempts` is
at least 1 and the same for all publishers. The worker's environment is a
`Script`: how long each wait and each queue call takes, when and how the handler
ends, how long it takes to stop, which rows are locked, when the worker is told to
stop. A `Prompt` script has queue calls that take no time and waits that end when
they should; it says nothing of how long a cancelled handler takes to stop. Timing
laws assume it, all others do not.

## What the proofs found

- The publisher infers a dead letter from the counter it captured at claim time.
  Without row locks a second publisher can have failed the row in between, and
  the inference is then wrong for every `max_attempts` above 1
  (`OutboxInference.InferenceExact`).
- The flip of a claim asks for the status alone. Without row locks a publisher that
  scanned a row earlier can therefore take it again within its backoff: the backoff is
  kept in every run exactly where the scan takes row locks or nothing is ever retried
  (`OutboxLeases.BackoffExact`).
- A caller that swallows an exception of `record` and commits stores an event
  without its outbox row exactly when a call died between the two inserts, or had its
  outbox row refused for a key committed meanwhile, and the commit still stores
  something (`UnitOfWork.CommitAfterSwallowingExact`).
- `claim_batch` promises the oldest stream position first; the code orders by
  aggregate id and then by sequence, and the model follows the code.
- A publisher that works alone delivers a stream out of order exactly when the
  transport takes a record while an earlier one of the stream is not published:
  refused earlier in the batch, waiting out its backoff in a later batch, or dead
  (`StreamOrder.HistoryOrderExact`). Nothing but a refused record is ever overtaken
  (`StreamOrder.OvertakenWasRefused`); two batches of one record each suffice
  (`StreamOrder.TwoDrainsReorder`).
- The limiter promises `limit` attempts per window and key. Evicting a key forgets
  its attempts, so the promise holds exactly as long as the keys in use all fit
  (`RatePromise.PromiseExact`, with the failing log in
  `RatePromise.EvictionBreaksPromise`).
- A worker sends no heartbeat while it waits for a cancelled handler, so the lease
  can run out under it: the job is safe exactly as long as the handler stops before
  that (`JobRuns.LeaseSafetyExact`, `Worker.WorkerRuntime.ExecuteClaimedJob`), which
  a stop within the lease less one heartbeat interval always does, and beyond it two
  handlers can run for one job (`Worker.TwoHandlers`). A handler that never stops
  keeps its worker for ever.
- A publish waits for ever at a subscriber that was closed with a full queue, and the
  subscribers behind it never get the message (`Realtime.CanFinishExact`,
  `Realtime.NeverSentBehind`, `Realtime.StuckRun`).
- Overlapping publishes can reorder a subscriber's stream (`Realtime.PutOrderExact`,
  `Realtime.OverlapReorders`).
- The pipeline can exceed its budget when an item declares fewer tokens than its
  compacted form costs (`ContextPipelines.CoverageIsExact`).
- The truncation marker is wrong for limits that are not positive
  (`ContextCompaction.OmittedCountExact`), and compaction can lengthen a text when
  the artifact base is longer than 312 characters (`ContextCompaction.ShrinksExact`).
- Two matching rules with the same id and priority make a decision depend on the
  order of the rules unless they agree (`Policy.OrderExact`).
- `TraceParent.parse` accepts upper case and white space around each part, which
  section 3.2.2 of W3C Trace Context does not (`TraceContext.ParseExact`).

Rows of the table below that start with (helper) are steps towards the others.

## Model

| member | source | states |
|---|---|---|
| OutboxProtocol.InvStep | backend/src/windagent/platform/events/outbox.py:306-456 | every step of every publisher, in any interleaving and with any crash, keeps: row columns agree, a publishing row has a granted claim, counters equal accepted finalizations, finalized claims are dead |
| OutboxRuns.ClaimFinalizedOnce | backend/src/windagent/platform/events/outbox.py:368-431 | in every reachable state no claim (row and token) has been accepted for two finalizations |
| OutboxRuns.SupersededClaimIsDead | backend/src/windagent/platform/events/outbox.py:368-456 | a granted claim that at some moment no longer owns its row changes no row at any later moment |
| OutboxRuns.TerminalRowsAreFrozen | backend/src/windagent/platform/events/outbox.py:339-456 | rows are never lost, their event never changes, and published or dead-lettered rows never change at all |
| OutboxRuns.ClaimColumnsTogether | backend/src/windagent/platform/events/outbox.py:346-351 | the three claim columns are set exactly while the row is publishing |
| OutboxRuns.RetryBudget | backend/src/windagent/platform/events/outbox.py:406-427 | a row's counter is its accepted failures; at most max_attempts finalizations are ever accepted for it; dead exactly at the bound; published exactly when one success was accepted |
| OutboxRuns.PublishedWasDelivered | backend/src/windagent/platform/events/publisher.py:94-117 | a published row was taken by the transport, with the row's own event, under a claim on that row |
| OutboxRuns.RunUntouched | backend/src/windagent/platform/events/outbox.py:320-351 | (helper) a run of parties that do not hold a token leaves the claims and the accepted finalizations of that token alone |
| OutboxTable.StatusCountsSum | backend/src/windagent/platform/events/outbox.py:458-465 | the four status counts always sum to the number of recorded rows |
| OutboxTable.PublishMovesOne | backend/src/windagent/platform/events/outbox.py:368-388 | (helper) an accepted publication moves one row from the publishing to the published and changes no other count |
| OutboxInference.InferredDeadIsDead | backend/src/windagent/platform/events/publisher.py:108-112 | a row the publisher infers dead is dead in the table, with or without row locks |
| OutboxInference.InferenceExact | backend/src/windagent/platform/events/publisher.py:164-167 | the inference agrees with the table in every reachable state if and only if the scan takes row locks or max_attempts is 1 |
| OutboxInference.MistakenRun | backend/src/windagent/platform/events/outbox.py:333-354 | the run without row locks in which a row is dead-lettered and counted as retried, for every max_attempts above 1 |
| OutboxInference.EveryRowCanBePublished | backend/src/windagent/platform/events/outbox.py:433-456 | from every reachable state a row that is not dead-lettered still has a run that publishes it, whoever crashed holding it |
| OutboxLeases.LiveLeaseIsExclusive | backend/src/windagent/platform/events/outbox.py:433-456 | until the lease of a claim runs out its row stays exactly as it is, whatever runs the other publishers, sweeps and writers make |
| OutboxLeases.LeaseSafetyExact | backend/src/windagent/platform/events/outbox.py:433-456 | a claim keeps its row for a time, whatever the others do, if and only if its lease does not run out before: otherwise some run sweeps it |
| OutboxLeases.RetryRests | backend/src/windagent/platform/events/outbox.py:406-427 | where the scan takes row locks, after an accepted failure that leaves the row to be retried no run changes the row before its backoff is over |
| OutboxLeases.BackoffExact | backend/src/windagent/platform/events/outbox.py:339-354 | a failed row is left alone for its backoff in every run if and only if the scan takes row locks or nothing is ever retried |
| OutboxLeases.EarlyRetry | backend/src/windagent/platform/events/outbox.py:339-354 | the run without row locks in which a publisher that scanned a row earlier takes it within its backoff |
| OutboxScan.Scan | backend/src/windagent/platform/events/outbox.py:325-338 | the limited scan in the rows' columns: distinct pending rows whose time has come, by aggregate and then by sequence, and one is missing only when the batch is full of rows not after it |
| Prelude.TextLeExact | backend/src/windagent/platform/events/outbox.py:333-336 | (helper) text is ordered by its first difference, a beginning before the whole |
| OutboxService.OutboxStore.ClaimBatch | backend/src/windagent/platform/events/outbox.py:306-366 | at most limit records, each a row that was pending and due at the scan, with the batch's token, worker and lease, in stream order; with row locks the batch is exactly the scan of the rows nobody holds locked, others may then do anything but touch the scanned rows, the table changes by exactly the flips and the records are the rows as they now stand; without, others may act before each flip |
| OutboxService.OutboxStore.FlipOne | backend/src/windagent/platform/events/outbox.py:340-354 | one guarded flip, refining the protocol's take step: exactly a row that is still pending is claimed, and nothing else changes |
| OutboxService.OutboxStore.MarkPublished | backend/src/windagent/platform/events/outbox.py:368-388 | accepted exactly when the row is publishing under the token; then it is published now and unclaimed, and nothing else changes; refines the protocol's publish step |
| OutboxService.OutboxStore.MarkFailed | backend/src/windagent/platform/events/outbox.py:390-431 | accepted exactly when the row is publishing under the token; then counter, error, backoff and status (dead at the bound) change together and nothing else does; refines the protocol's fail step |
| OutboxService.OutboxStore.ReclaimExpiredClaims | backend/src/windagent/platform/events/outbox.py:433-456 | a row changes exactly when it is publishing under a claim that ran out before now, and then becomes pending and unclaimed with all else kept; counts the rows it changed; refines the protocol's reclaim step |
| OutboxPublishing.OutboxPublisher.PublishOne | backend/src/windagent/platform/events/publisher.py:94-117 | one record is offered with its own event and finalized by the answer, interleaved with anything others do; afterwards the token no longer owns it and the report equals the batch's accepted finalizations; the hook is told of this record exactly if it was counted dead |
| OutboxPublishing.OutboxPublisher.Finalize | backend/src/windagent/platform/events/publisher.py:94-117 | an answer is finalized with its own error text: accepted exactly if the claim still owns the row, which is then published, waits out its backoff, or is dead at the bound; the verdict is what the publisher can know of it |
| OutboxPublishing.OutboxPublisher.PublishPending | backend/src/windagent/platform/events/publisher.py:83-124 | at most batch_size records; every one is offered once, in batch order and with its own event, and none is left owned; published + retried + dead-lettered + stale = claimed, each equal to the accepted finalizations under the batch's token; the dead-letter hook is told of different records of the batch, as many as were counted dead, and all of them are dead; the whole call is a run of the protocol |
| OutboxPublishing.OutboxPublisher.Run | backend/src/windagent/platform/events/publisher.py:126-153 | with anybody acting between any two statements, every cycle passes through a table in which no claim has run out before it claims its batch; over any number of cycles the total is the number of rows whose publication was accepted under this publisher's own batches |
| StreamOrder.InvStep | backend/src/windagent/platform/events/outbox.py:189-456 | for one publisher at work, every commit, claim, offer, finalization and tick keeps: publishing rows are the batch, stream positions are dense and recorded in order, and what comes before a batch row was passed or is offered before it |
| StreamOrder.ScanSkipsNone | backend/src/windagent/platform/events/outbox.py:325-338 | (helper) a batch meets the deliverable rows of a stream in sequence order and skips none, whatever else is in it |
| StreamOrder.TakeOrderExact | backend/src/windagent/platform/events/publisher.py:94-117 | one event keeps a stream's delivery order if and only if it does not take a record while an earlier one of the stream is not published, be it refused in this batch, waiting out its backoff or dead |
| StreamOrder.HistoryOrderExact | backend/src/windagent/platform/events/publisher.py:83-153 | over every history, with refusals, backoff, dead letters, commits and time passing between any two steps, a stream is delivered in order if and only if no record of it was ever taken while an earlier one was not published |
| StreamOrder.OvertakenWasRefused | backend/src/windagent/platform/events/publisher.py:94-112 | whenever a record is about to be offered, each earlier one of its stream is published, or was refused at least once and is waiting or dead: nothing else is ever overtaken |
| StreamOrder.DeliveredInOrder | backend/src/windagent/platform/events/publisher.py:83-153 | in every history whose transport takes the stream's records, the stream is delivered as 0, 1, 2, ... and the rows taken are exactly those; other streams may be refused, die and keep growing |
| StreamOrder.TwoDrainsReorder | backend/src/windagent/platform/events/outbox.py:406-427 | the history of two one-record batches that delivers event 1 before event 0, for every positive backoff |
| StreamOrder.HistoryIsARun | backend/src/windagent/platform/events/outbox.py:189-456 | every such history is a run of the outbox protocol that ends in the same table and clock |
| UnitOfWork.CommittedIsAtomic | backend/src/windagent/platform/events/outbox.py:189-249 | in every committed state of any interleaving of scopes, with crashes anywhere, event rows and outbox rows correspond one to one with equal contents, and no event id, stream position or deduplication key is stored twice |
| UnitOfWork.RecordExact | backend/src/windagent/platform/events/outbox.py:189-249 | record answers False exactly when a visible row has its key, is refused exactly when the event then clashes or the process dies at the gate, and otherwise stores the event and a pending, unclaimed outbox row with the key, due at once |
| UnitOfWork.CommitExact | backend/src/windagent/platform/events/outbox.py:75-80 | (helper) a commit is refused exactly for a crash, an event whose id or stream position is committed, or a key that is committed, and otherwise appends all own rows |
| UnitOfWork.CommittedRowsStay | backend/src/windagent/platform/events/outbox.py:189-249 | (helper) committed rows stay, in their order, in every later state |
| UnitOfWork.KeyIsSpent | backend/src/windagent/platform/events/outbox.py:204-211 | once a row with a deduplication key is committed, in every later state of any interleaving of scopes exactly that row has the key and every record under it is a duplicate without effect |
| UnitOfWork.UndisturbedCommits | backend/src/windagent/platform/events/outbox.py:189-249 | a scope during which nobody else commits is never refused its commit, whatever it recorded |
| UnitOfWork.CommitAfterSwallowingExact | backend/src/windagent/platform/events/outbox.py:217-249 | with others committing between any two statements, committing after swallowed exceptions keeps the correspondence if and only if no call was torn (died at the gate, or had its outbox row refused) or the commit stores nothing (a refused insert aborted the transaction, or a constraint refuses the commit) |
| UnitOfWork.AloneIsRecord | backend/src/windagent/platform/events/outbox.py:189-249 | (helper) where nobody else commits meanwhile the three statements are the one-step record |
| UnitOfWork.OutcomeExact | backend/src/windagent/platform/events/outbox.py:204-249 | (helper) with others committing between the statements, the outbox row is refused exactly when its key appeared after the check, which leaves the event row alone |
| UnitOfWork.StreamsAreGapless | backend/src/windagent/platform/events/outbox.py:251-281 | a stream written only through record_next is 0..n-1 in every committed state, each event preceded by all sequences below its own, for any number of concurrent scopes that each read max + 1 and insert it any time later |
| UnitOfWork.StaleSequenceClashes | backend/src/windagent/platform/events/outbox.py:75-80 | (helper) a sequence that another scope committed between the read and the insert is refused by the unique constraint |
| UnitOfWork.NextSequenceIsNext | backend/src/windagent/platform/events/outbox.py:271-281 | (helper) the next sequence is above every one of the stream, and right above one unless it is 0 |
| UnitOfWork.DoomedConflicts | backend/src/windagent/platform/events/outbox.py:75-80 | (helper) a scope that allocated before another one committed to the stream is stopped by the unique constraint |
| UnitOfWorkScope.SqlUnitOfWork.Enter | backend/src/windagent/platform/persistence/unit_of_work.py:92-104 | entering starts an empty session, and an active scope is refused without effect |
| UnitOfWorkScope.SqlUnitOfWork.Exit | backend/src/windagent/platform/persistence/unit_of_work.py:106-124 | leaving the scope discards whatever was not committed |
| UnitOfWorkScope.SqlUnitOfWork.Commit | backend/src/windagent/platform/persistence/unit_of_work.py:126-130 | all own rows become durable or none, the hook and the constraints included |
| UnitOfWorkScope.SqlUnitOfWork.Rollback | backend/src/windagent/platform/persistence/unit_of_work.py:132-136 | own rows are discarded unless the hook raises first; the database is untouched |
| UnitOfWorkScope.TransactionalOutbox.Record | backend/src/windagent/platform/events/outbox.py:189-249 | statement by statement what the specification of record says, including the event row left behind by a crash at the gate; after True the scope holds the event and its pending outbox row with the key; False exactly when the key was visible |
| UnitOfWorkScope.TransactionalOutbox.NextSequence | backend/src/windagent/platform/events/outbox.py:271-281 | the maximum over the visible rows is the stream's next sequence |
| UnitOfWorkScope.TransactionalOutbox.RecordNext | backend/src/windagent/platform/events/outbox.py:251-269 | record with the next sequence its read saw, whatever other scopes commit before its insert |
| JobQueue.InvStep | backend/src/windagent/platform/jobs/postgres/queue.py:125-620 | every queue statement keeps: job columns agree, a running job has one ticket and one running attempt row, tickets and attempts are numbered, events tell ended attempts |
| JobQueue.OneEventPerOutcome | backend/src/windagent/platform/jobs/postgres/queue.py:402-432 | every outcome records exactly one event, with the next number of the job's stream: the deduplication key is never taken already |
| JobRuns.OneTerminalOutcome | backend/src/windagent/platform/jobs/postgres/queue.py:327-438 | in every reachable state a job has exactly one terminal event if it ended and none otherwise; all its events are numbered without gap and tell its status |
| JobRuns.EndedJobsAreFrozen | backend/src/windagent/platform/jobs/postgres/queue.py:327-620 | a job that ended stays exactly as it ended in every later state |
| JobRuns.SupersededTicketIsDead | backend/src/windagent/platform/jobs/postgres/queue.py:632-640 | a ticket that is not current at some moment neither renews nor finalizes at any later one |
| JobRuns.AcceptedOnce | backend/src/windagent/platform/jobs/postgres/queue.py:349-388 | an accepted finalization uses its ticket up for every worker and every request |
| JobRuns.SuccessIsNewest | backend/src/windagent/platform/jobs/postgres/queue.py:327-438 | an accepted success was sent under the newest claim of its job, and its result is the job's result from then on |
| JobRuns.GrantedCancelHolds | backend/src/windagent/platform/jobs/postgres/queue.py:440-508 | once a cancellation is granted the job is cancelled or still running under the flag in every later state, and never gets a result |
| JobRuns.AttemptsAreNumbered | backend/src/windagent/platform/jobs/postgres/queue.py:203-228 | attempt rows are 1..attempt_count, never above max_attempts, and one runs exactly while the job does |
| JobRuns.TicketsAreDistinct | backend/src/windagent/platform/jobs/postgres/queue.py:159-163 | tokens of different claims differ in job or generation, whatever the random part is |
| JobRuns.LiveLeaseIsExclusive | backend/src/windagent/platform/jobs/postgres/queue.py:632-640 | until a lease runs out no run of the others can take, end or recover the job |
| JobRuns.LeaseSafetyExact | backend/src/windagent/platform/jobs/postgres/queue.py:134-161 | a job stays with its holder for a time, whatever the others do, if and only if its lease does not run out before: otherwise some run claims it anew or ends it |
| JobRuns.OthersNeverRenew | backend/src/windagent/platform/jobs/postgres/queue.py:239-272 | (helper) nobody but its holder renews a lease |
| JobRuns.RetryWaitsItsDelay | backend/src/windagent/platform/jobs/postgres/queue.py:369-370 | after an accepted retry no run of the others can claim the job before its delay is over |
| JobRuns.WaitsUntilAvailable | backend/src/windagent/platform/jobs/postgres/queue.py:134-151 | no run claims a new or retried job before it is available; until then it is unchanged or cancelled |
| JobRuns.FinalFailureEnds | backend/src/windagent/platform/jobs/postgres/queue.py:290-315 | after an accepted failure that is not retryable, has no attempt left or is past the deadline, the job is failed (cancelled if that was requested) in every later state and never claimed again |
| JobRuns.EveryJobCanEnd | backend/src/windagent/platform/jobs/postgres/queue.py:125-620 | from every reachable state a job that has not ended has a run, without whoever holds it, that ends it: with success while an attempt is left, as failed by the recovery otherwise, as cancelled if that was requested |
| JobStore.PostgresJobQueue.SelectNext | backend/src/windagent/platform/jobs/postgres/queue.py:134-161 | of the rows nobody holds locked the claimable one with the highest priority and then the lowest position, none exactly when there is none |
| JobStore.PostgresJobQueue.ClaimNext | backend/src/windagent/platform/jobs/postgres/queue.py:125-237 | takes the claimable row nobody holds locked with the highest priority and then the lowest position, refining the claim step: its columns, a new numbered attempt row, the attempt of an expired claim abandoned, and a ticket nobody had before, held until now plus the lease |
| JobStore.PostgresJobQueue.Heartbeat | backend/src/windagent/platform/jobs/postgres/queue.py:239-272 | authoritative exactly for a running job claimed by this worker under this token with a lease not yet over, whose lease alone is then renewed |
| JobStore.PostgresJobQueue.FinalizeClaim | backend/src/windagent/platform/jobs/postgres/queue.py:274-438 | accepted exactly for the current claim of this worker whose lease was live when the clock was read, however long the row lock took; a recorded cancellation wins; a failure is retried exactly if it is retryable, an attempt is left and the deadline was ahead; all job columns, the one attempt row, and one event of the kind that the outcome has |
| JobStore.PostgresJobQueue.RequestCancel | backend/src/windagent/platform/jobs/postgres/queue.py:440-508 | granted exactly for a job that has not ended otherwise: a running one is flagged, a waiting one cancelled with its event, a cancelled one left alone |
| JobStore.PostgresJobQueue.RecoverExpired | backend/src/windagent/platform/jobs/postgres/queue.py:521-619 | transaction by transaction, with anybody acting between them, it ends different jobs, one event each; below its limit no cancelled or exhausted claim is left that had run out when its clock was read, but for locked rows |
| JobStore.PostgresJobQueue.RecoverOne | backend/src/windagent/platform/jobs/postgres/queue.py:531-618 | one transaction: the expired claim, cancelled or exhausted, ends cancelled or failed with its error text, its attempt row and one event |
| Worker.DelayDoubles | apps/worker/src/windagent_worker/runtime.py:60-70 | the retry delay is the base for the first attempt and doubles with each further one until it reaches the cap; attempt 0 is refused |
| Worker.WorkerRuntime.CheckAuthority | apps/worker/src/windagent_worker/lease.py:20-30 | an authoritative probe leaves the lease held for its full length; a lease that is live when it is made is never reported lost |
| Worker.WaitInTime | apps/worker/src/windagent_worker/runtime.py:244-260 | (helper) a prompt wait never ends past the timeout nor one heartbeat past a deadline, and uncut it leaves both ahead |
| Worker.WorkerRuntime.WaitOnce | apps/worker/src/windagent_worker/runtime.py:248-260 | one wait and its checks in their order: done, stop, timeout, deadline, each with its own error text |
| Worker.WorkerRuntime.OneRound | apps/worker/src/windagent_worker/runtime.py:244-271 | one wait, its three checks and the heartbeat: the handler is cancelled only for a reason that holds then, and at once after a heartbeat that gives one; the lease is held at the head of each round, and a prompt worker never finds it lost |
| Worker.WorkerRuntime.StopHandler | apps/worker/src/windagent_worker/runtime.py:388-400 | the worker waits without heartbeats until a cancelled handler has stopped, exactly as long as that takes; the lease is held then if it has not run out; a handler that never stops keeps the worker from finalizing |
| Worker.WorkerRuntime.RunHandler | apps/worker/src/windagent_worker/runtime.py:241-271 | whatever others do meanwhile, the handler has ended or stopped when the loop is left; the first round in which the handler is done or a stop is set ends the loop before another heartbeat; a prompt worker never finds its lease lost, cancels within the timeout and less than one heartbeat past the deadline, leaves at most one interval after the last heartbeat plus what the handler takes to stop, and waits enough to reach a limit do end or cancel the handler, for every stopping time |
| Worker.TwoHandlers | apps/worker/src/windagent_worker/runtime.py:388-400 | the run in which a cancelled handler outlives the lease, another worker claims the job and starts a handler of its own, for every stopping time beyond the lease |
| Worker.WorkerRuntime.FinishHandler | apps/worker/src/windagent_worker/runtime.py:273-303 | the finalization after the handler ended is exactly the one its outcome, the authority probe and the validation demand, and losing authority there means none |
| Worker.SuccessIsCleared | apps/worker/src/windagent_worker/runtime.py:284-303 | complete is called only with the JSON value the handler returned, directly after an authoritative probe without cancellation made once the handler had ended |
| Text.ReprExact | apps/worker/src/windagent_worker/runtime.py:237-237 | (helper) the quoted job type in the error text prints and reads back as the job type |
| Worker.WorkerRuntime.Settle | apps/worker/src/windagent_worker/runtime.py:326-363 | the report is STALE for a rejected finalization and otherwise succeeded, retry-scheduled, failed or cancelled exactly as the queue now holds the job; its error text is that of the request, or of the rejection |
| Worker.WorkerRuntime.ExecuteClaimedJob | apps/worker/src/windagent_worker/runtime.py:219-303 | on every path at most one finalization, as the last call, with no handler running, and exactly the one the calls before it demand (error text, retryable, delay, result); none only when authority was lost, and then STALE; the report names the job, the attempt and the error, and its status is succeeded, retry-scheduled, failed or cancelled exactly as the accepted finalization left the job, with the handler's result for a success; the whole attempt is a run of the queue; a prompt worker holding its lease reports STALE if and only if a cancelled handler stopped after the lease had run out, never if it stops within the lease less one interval |
| Worker.WorkerRuntime.RunOnce | apps/worker/src/windagent_worker/runtime.py:122-217 | abandoned claims are recovered first; IDLE exactly when nothing is claimable; otherwise one attempt under a new ticket, reported as the queue then holds the job; the current job is cleared by the report; for its own claim a prompt worker reports STALE if and only if a cancelled handler outlived the lease |
| RateLimiter.SlidingWindowRateLimiter.Check | backend/src/windagent/platform/security/ratelimit.py:76-93 | the pruned deques answer exactly as a limiter that keeps its whole log: decision, remaining budget and delay; an empty key is refused without effect |
| RateLimiter.SlidingWindowRateLimiter.WindowFor | backend/src/windagent/platform/security/ratelimit.py:95-106 | FIFO admission of a key: what is tracked, what is evicted, and the other windows unchanged |
| RateLimiter.SlidingWindowRateLimiter.Prune | backend/src/windagent/platform/security/ratelimit.py:108-110 | dropping from the left of a sorted window leaves exactly the recent attempts |
| RateLimiter.RecentOfRecent | backend/src/windagent/platform/security/ratelimit.py:108-110 | (helper) pruning earlier never changes what a later prune leaves |
| RateLimiter.JudgesFully | backend/src/windagent/platform/security/ratelimit.py:82-93 | (helper) the delay's lower bound of zero is never needed |
| RateLimiter.WindowNeverOverfull | backend/src/windagent/platform/security/ratelimit.py:50-52 | at no moment do more than limit attempts allowed since the key was last inserted lie within one window |
| RateLimiter.AttemptsAreSpaced | backend/src/windagent/platform/security/ratelimit.py:50-52 | two attempts allowed since the key was last inserted, limit apart, are at least one window apart in time |
| RatePromise.PromiseExact | backend/src/windagent/platform/security/ratelimit.py:50-52 | the promise of at most limit allowed attempts per window, evictions included, holds for every log over a set of keys if and only if at most max_tracked_keys of them are not empty |
| RatePromise.PromiseWhileTracked | backend/src/windagent/platform/security/ratelimit.py:50-52 | it holds for a key as long as at most max_tracked_keys insertions, its own included, were made since its attempts in the window began |
| RatePromise.WindowBound | backend/src/windagent/platform/security/ratelimit.py:50-52 | in any log a key has at most limit allowed attempts within one window for each of its insertions in that window, and limit more |
| RatePromise.BoundIsAttained | backend/src/windagent/platform/security/ratelimit.py:97-105 | for all settings and every number of insertions in the window, a log that attains this bound |
| RatePromise.EvictionBreaksPromise | backend/src/windagent/platform/security/ratelimit.py:97-105 | the log in which max_tracked_keys other keys evict a key and give it limit + 1 allowed attempts at one moment |
| RateLimiter.RetryAfterIsExact | backend/src/windagent/platform/security/ratelimit.py:87-93 | the delay is positive, and while the key stays tracked and gets no success, a later check is allowed if and only if the delay is over, whatever other keys do |
| RateLimiter.RemainingExact | backend/src/windagent/platform/security/ratelimit.py:82-93 | the remaining budget is exact: of any number of further checks of the key at the same moment exactly so many are allowed after an allowed check, and none after a denied one |
| RateLimiter.TrackedAreTheLastInsertions | backend/src/windagent/platform/security/ratelimit.py:97-105 | the tracked keys are the last insertions, as many as fit |
| RateLimiter.SurvivesExactly | backend/src/windagent/platform/security/ratelimit.py:97-105 | a key is still tracked if and only if at most max_tracked_keys - 1 keys were inserted after it |
| Realtime.InvStep | backend/src/windagent/platform/realtime/hub.py:65-93 | every step between two awaits keeps: the buffer is the newest positions, every queue fits, every owed position is sent or on its way and not both |
| Realtime.ReplayIsExact | backend/src/windagent/platform/realtime/hub.py:82-87 | a replay is the contiguous retained positions above after, the newest ones if they do not all fit, and never overflows the queue |
| Realtime.ExactlyOnce | backend/src/windagent/platform/realtime/hub.py:65-93 | in every run a subscriber is sent exactly the positions from its start to the last before it left, each at most once with its own event; the rest is still on its way |
| Realtime.PutOrderExact | backend/src/windagent/platform/realtime/hub.py:73-74 | a put keeps a subscriber's stream consecutive if and only if no earlier position is still on its way to it |
| Realtime.SerialRunsKeepOrder | backend/src/windagent/platform/realtime/hub.py:65-74 | when publishes do not overlap every subscriber's stream is one consecutive increasing run |
| Realtime.OverlapReorders | backend/src/windagent/platform/realtime/hub.py:65-74 | a run with overlapping publishes and a full queue in which a subscriber gets 3 before 2 |
| Realtime.CanFinishExact | backend/src/windagent/platform/realtime/hub.py:73-74 | a publish can still finish if and only if every subscriber it has to serve has room, is not closed, or had a next waiting when it was closed |
| Realtime.NeverSentBehind | backend/src/windagent/platform/realtime/hub.py:73-74 | in no run is anybody behind a closed full subscriber of a fan-out ever sent its position |
| Realtime.StuckRun | backend/src/windagent/platform/realtime/hub.py:32-45 | the run in which a publish waits for ever at a closed subscriber, with another one behind it |
| Realtime.ClosedGivesAtMost | backend/src/windagent/platform/realtime/hub.py:32-45 | in every run a closed subscription gives out at most one message for each next that was waiting when it was closed |
| Realtime.ClosedCanGive | backend/src/windagent/platform/realtime/hub.py:32-45 | (helper) and each of them can be answered with the oldest message still queued |
| Realtime.RealtimeHub.AssignPosition | backend/src/windagent/platform/realtime/hub.py:68-72 | the part under the lock: the next position, the bounded buffer, and every live subscriber once |
| Realtime.RealtimeHub.Publish | backend/src/windagent/platform/realtime/hub.py:65-74 | a publish that is done has served every subscriber there was when it began, whatever others did while it waited; one that is not done waits at a full queue |
| Realtime.RealtimeHub.Subscribe | backend/src/windagent/platform/realtime/hub.py:76-89 | refines the join step: the queue holds every position from the replay start to the newest; a negative after is refused without effect |
| Realtime.RealtimeHub.Next | backend/src/windagent/platform/realtime/hub.py:32-39 | the oldest queued message, nothing sent or lost by it; refused exactly on a closed subscription |
| Realtime.RealtimeHub.Unsubscribe | backend/src/windagent/platform/realtime/hub.py:41-45 | closed and no longer live afterwards; a second call has no effect |
| StableSorting.SortIsStable | backend/src/windagent/modules/agent_runtime/context/budget.py:107-112 | (helper) the sorted list is ordered, a permutation, and keeps elements of equal rank as they stood |
| StableSorting.StableSortIsUnique | backend/src/windagent/modules/agent_runtime/context/budget.py:107-112 | (helper) any ordered list with the same ties is that list, so the algorithm does not matter |
| ContextBudget.FitBound | backend/src/windagent/modules/agent_runtime/context/budget.py:84-132 | for every budget, negative ones included, the selection is within it and in rank order; every small item is selected or overflows the final selection, which then uses more than the budget less the per-item cap; truncated if and only if the small items do not all fit |
| ContextBudget.TruncatedUsesThreeQuarters | backend/src/windagent/modules/agent_runtime/context/budget.py:77-132 | with the default share a truncated selection uses more than three quarters of the budget |
| ContextBudget.TokenBudgetManager.FitItems | backend/src/windagent/modules/agent_runtime/context/budget.py:84-132 | the selection goes by falling product of confidence and freshness, is within the budget and takes each item at most as often as given and within the cap; an item within the cap is left out only if those of its rank and above that were selected leave no room for it, and truncation says whether there is one; no or zero max_tokens means the retrieval budget |
| ContextBudget.MadeItemDeclaresCost | backend/src/windagent/modules/agent_runtime/context/provenance.py:121-125 | (helper) a made item declares what it costs: the count it was given or the estimate of its content |
| ContextCompaction.SlicesExact | backend/src/windagent/modules/agent_runtime/context/compaction.py:48-49 | (helper) the two slices at a bound of any sign split a sequence there |
| ContextCompaction.ArtifactNames | backend/src/windagent/modules/agent_runtime/context/compaction.py:78-79 | (helper) the artifact reference is the base and eight hexadecimal digits that read back as the low 32 bits of the hash |
| ContextCompaction.CutExact | backend/src/windagent/modules/agent_runtime/context/compaction.py:71-74 | (helper) a text is returned as it is and without a reference exactly when it does not exceed the limit |
| ContextCompaction.CriticalExact | backend/src/windagent/modules/agent_runtime/context/compaction.py:35-37 | a text is critical exactly when its lower-case form has one of the thirteen keywords somewhere in it |
| ContextCompaction.KeepsBothEnds | backend/src/windagent/modules/agent_runtime/context/compaction.py:76-77 | (helper) the head and the tail are the first and last halves of the limit and together exactly the limit |
| ContextCompaction.EndsAndMarker | backend/src/windagent/modules/agent_runtime/context/compaction.py:76-86 | (helper) a compacted text starts and ends as the original does, with exactly the marker in between |
| ContextCompaction.OmittedCountExact | backend/src/windagent/modules/agent_runtime/context/compaction.py:71-86 | the count in the marker reads back as the number of characters left out if and only if the limit is positive |
| ContextCompaction.DefaultLength | backend/src/windagent/modules/agent_runtime/context/compaction.py:81-85 | (helper) over 1200 characters the compacted text is 906 characters plus the digits of the omitted count |
| ContextCompaction.ShrinksExact | backend/src/windagent/modules/agent_runtime/context/compaction.py:71-86 | every text the pipeline compacts gets shorter if and only if the artifact base has at most 312 characters |
| ContextCompaction.CompactConversation | backend/src/windagent/modules/agent_runtime/context/compaction.py:39-69 | no critical message is lost, moved or doubled, all recent ones are kept, and the summary counts what was dropped, for limits of any sign |
| ContextPipelines.OnePerHash | backend/src/windagent/modules/agent_runtime/context/pipeline.py:66-76 | (helper) deduplication leaves no hash twice and loses none |
| ContextPipelines.NothingAdded | backend/src/windagent/modules/agent_runtime/context/pipeline.py:66-76 | (helper) deduplication adds nothing, never drops an item without a hash and never costs more |
| ContextPipelines.HonestIsCovered | backend/src/windagent/modules/agent_runtime/context/pipeline.py:78-98 | a token count of at least the content's estimate covers what compaction makes of the item |
| ContextPipelines.PipelineWithinBudget | backend/src/windagent/modules/agent_runtime/context/pipeline.py:143-170 | the output of the whole pipeline is within the retrieval budget, whatever is switched on, when every input declares at least its cost after compaction |
| ContextPipelines.HonestPipelineWithinBudget | backend/src/windagent/modules/agent_runtime/context/pipeline.py:143-170 | in particular when every token count is at least the estimate of its content |
| ContextPipelines.CoverageIsExact | backend/src/windagent/modules/agent_runtime/context/pipeline.py:78-98 | an item keeps every selection of its copies within every budget if and only if it declares at least its cost after compaction |
| ContextPipelines.ContextPipeline.DeduplicateItems | backend/src/windagent/modules/agent_runtime/context/pipeline.py:66-76 | the loop with its set of hashes keeps an item exactly when it has no hash or is the first with it |
| ContextPipelines.ContextPipeline.CompactItems | backend/src/windagent/modules/agent_runtime/context/pipeline.py:78-98 | every item over 1200 characters is rebuilt from its compacted text, the others are untouched |
| ContextPipelines.ContextPipeline.Run | backend/src/windagent/modules/agent_runtime/context/pipeline.py:100-188 | stages in order, counters equal to what was combined and put out; what is put out are items that came in, compacted if that is on, no hash twice before that if deduplication is on; with covered items the output tokens are within the budget |
| ContextPipelines.CombinedExact | backend/src/windagent/modules/agent_runtime/context/pipeline.py:113-140 | (helper) each source gives its first items up to its own limit, in the order of the stages |
| Policy.RuleIsNormalized | backend/src/windagent/platform/security/policy.py:42-51 | (helper) a rule is refused exactly for a blank id, action, resource type or reason, and otherwise has its texts stripped; constructing it again changes nothing |
| Text.StripExact | backend/src/windagent/platform/security/policy.py:19-24 | (helper) stripping removes white space at both ends, all of it, and nothing else |
| Policy.WinnerExact | backend/src/windagent/platform/security/policy.py:68-95 | the deciding rule is the best-ranked match, among equals the one supplied first; there is none exactly when no rule matches |
| Policy.DecideExact | backend/src/windagent/platform/security/policy.py:68-95 | the decision is the effect, reason and id of a rule that names the action and resource type or any, of the highest priority and then the first id among those that do; without one it is the default denial |
| Policy.DeniedUnlessAllowed | backend/src/windagent/platform/security/policy.py:91-95 | anything but DENY comes from a top-ranked matching rule with that effect; without a match the default denies |
| Policy.OrderExact | backend/src/windagent/platform/security/policy.py:73-95 | a decision is the same for every order of the rules if and only if all top-ranked matching rules say the same |
| Policy.DistinctIdsDecide | backend/src/windagent/platform/security/policy.py:73-95 | with distinct policy ids the order of the rules never matters |
| Policy.AddRuleExact | backend/src/windagent/platform/security/policy.py:73-90 | an added rule takes over if and only if it matches and the present winner does not rank ahead of it or equal |
| TraceContext.RoundTrip | backend/src/windagent/platform/observability/context.py:59-78 | every valid traceparent is parsed back unchanged from its printed form |
| TraceContext.ParsedPrintsCanonically | backend/src/windagent/platform/observability/context.py:59-78 | whatever parses prints to a 55-character canonical header that parses to the same value |
| TraceContext.ParseExact | backend/src/windagent/platform/observability/context.py:59-75 | a text parses to a value if and only if it is that value's canonical header up to letter case and white space around the whole and around each part |
| TraceContext.ConstructedIsCanonical | backend/src/windagent/kernel/types/trace.py:11-27 | (helper) constructed ids are lower-case hexadecimal of the right length and not zero, and the version is not ff |
| TraceContext.ConstructionIsIdempotent | backend/src/windagent/platform/observability/context.py:47-57 | (helper) constructing a value again from its own fields changes nothing |
| TraceContext.CanonicalExact | backend/src/windagent/kernel/types/trace.py:11-27 | (helper) the valid values are lower-case hexadecimal digits of the right number, an id of zeros alone and version ff excluded |
| TraceContext.HeaderExact | backend/src/windagent/platform/observability/context.py:154-162 | (helper) the header of a valid context is version 00, its trace, its span and its flags between dashes, 55 characters in all |
| TraceContext.RemoteIsChild | backend/src/windagent/platform/observability/context.py:121-170 | a call over the wire continues the trace exactly as a local child span does |
| TraceContext.TraceSurvives | backend/src/windagent/platform/observability/context.py:121-170 | along every chain of local and remote calls the trace id and flags stay, and each span names the one before as its parent |

## Left out

- OutboxService.OutboxStore.ClaimBatch: which rows others hold locked is a parameter; the flips of one transaction take effect together.
- OutboxScan.Scan: text is ordered by code points; PostgreSQL orders `aggregate_id` by the collation of the database, which can order the streams of a batch differently but not the records of one stream.
- OutboxPublishing.OutboxPublisher.Run: the number of cycles before `stop` is set is the number of tokens given; the idle sleep between cycles is the time others let pass; that nothing has run out at the very moment of the claim is not promised, for the sweep is a transaction of its own.
- OutboxPublishing.OutboxPublisher.PublishPending: a transport that is cancelled, and a dead-letter hook that raises, end the call and are a crash at that point.
- StreamOrder.DeliveredInOrder: the publisher is alone and does not crash in the middle of a batch; a restarted one would deliver the records of that batch again.
- UnitOfWork.CommittedIsAtomic: after an exception only a rollback or the exit of the scope follows; row ids of the outbox are left out because they are fresh.
- UnitOfWorkScope.SqlUnitOfWork.Exit: the repositories bound to a session and their registration are not part of this model.
- UnitOfWorkScope.TransactionalOutbox.Record: no other scope commits between its three statements; the calls of `UnitOfWork.CommitAfterSwallowingExact` let them.
- JobStore.PostgresJobQueue.Heartbeat: its clock, and that of a claim, a cancellation and the outbox statements, is read at the moment the statement takes effect.
- JobStore.PostgresJobQueue.ClaimNext: the path for databases without row locks, which scans several candidates, is not modelled; PostgreSQL's scan takes one row under its lock.
- JobQueue.InvStep: submission is a step that adds a new pending job; idempotency keys and scheduling checks of `submit` and `schedule` are not modelled; an error text that is blank is an exception of the call.
- Worker.WorkerRuntime.ExecuteClaimedJob: an exception of a queue call is a crash at that point.
- Worker.WorkerRuntime.RunOnce: the outbox drain a worker starts after an outcome is the publisher's model; spans, counters and run ids do not affect outcomes; the loop `run` only repeats this and counts what is not IDLE.
- Worker.DelayDoubles: real arithmetic, so the overflow of a float power for very large attempts is not modelled.
- RateLimiter.SlidingWindowRateLimiter.Check: real arithmetic without float rounding; type checks of Python values are left out here and everywhere.
- Realtime.ExactlyOnce: a publish cancelled in the middle of its fan-out is not modelled; `asyncio.Queue` is a bounded sequence and any waiting put may go first when a place gets free.
- Realtime.RealtimeHub.Next: the timeout of a waiting call is left out, a call that would block answers so.
- ContextBudget.FitBound: token counts are not negative.
- ContextCompaction.CompactConversation: lower case is ASCII's, and a message is its role and its content as text.
- ContextCompaction.DefaultLength: `hash` is a parameter, used modulo two to the 32nd.
- ContextPipelines.ContextPipeline.Run: the provenance manifest, the keyword extraction and the prompt text copy or ignore data the other stages already fixed; `external` markers are kept as given; SHA-256 is a parameter.
- Policy.WinnerExact: the actor, the resource id and the context of a request play no part in matching and are left out.
- TraceContext.ParseExact: white space beyond Latin-1 and lower case beyond ASCII; no other character lowers to a hexadecimal digit or a dash.
- SQLAlchemy, asyncio and PostgreSQL: statements are atomic guarded updates, constraints are checked at the insert and at commit.
- JSON text, UUIDs and column conversions (`to_envelope`, `_event_row`, `as_utc`): library behaviour.
- HTTP routes, buses, manifests, migrations, importers, the frontend and the desktop recorder: plumbing and foreign processes.
- The metrics registry, module loader, redaction and value types: easy members next to these.
