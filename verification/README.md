# Watch engine: a verified model

The watch engine observes things, keeps the evidence, promotes valid evidence to authoritative state, turns
transitions into events, and delivers these events through a durable outbox. This project models that pipeline
and proves what it is built for: authority never goes back in time, no committed event is lost, a crash strands
nothing for good, the audit log is true, and retention removes exactly what it says.

## How the model is built

- `entities.dfy`, `tables.dfy`: the six tables (`Database`) and every store transaction as a function from the
  tables before it to the tables after it, or to the exception that rolled it back.
- `store.dfy`: class `SQLiteStore`. Its methods carry the same transactions out statement by statement on mutable
  tables; the foreign keys and unique constraints of a statement are its precondition, so each method proves that no
  statement raises, and each method is proved to end in the tables that the function gives. Due times and cutoffs
  are compared as stored text, as the queries do.
- `protocol.dfy`: the state machine. A `World` holds the tables, any number of dispatchers, and history (sink calls,
  the call behind each acknowledgement, removed rows, committed promotions). One step is one committed transaction,
  one sink call or one interruption; a run is any sequence of steps. Identifiers, clock readings, policies and the
  answers of the sink are parameters of the steps.
- `dispatcher.dfy`, `runtime.dfy`: classes `OutboxDispatcher` and `WatchRuntime`, whose calls are proved to take
  exactly listed steps of the machine. `calls.dfy` and `runs.dfy` say what one call and one run come to, row by row.
- `consistency.dfy`, `promotion.dfy`, `claims.dfy`, `deliveries.dfy`, `removal.dfy`, `retention.dfy`: what single
  transactions keep and do. The laws of promotion, claiming, acknowledging and removing are stated column by column:
  they name the rows, the events and the times, and not the functions that compute them.
- `safety.dfy`, `accounting.dfy`, `guarantees.dfy`, `recovery.dfy`, `progress.dfy`, `drain.dfy`: invariants of all
  runs and what follows from them; `lineage.dfy` says that an outbox id stands for one event for good, `authority.dfy`
  which observation a run makes authoritative, `steady.dfy` which steps make a dispatcher give up claims.
  `theorems.dfy` states the main results from the empty database on.
- `diagnostics.dfy`: keyset paging of the diagnostic listings while transactions commit between the pages.
- `timestamps.dfy`, `retry.dfy`, `sql_tokens.dfy`, `sql_lexemes.dfy`, `json_shape.dfy`: the text order of timestamps,
  the capped backoff, the schema SQL normaliser and its lexemes by their characters, the JSON shape check.

## Assumptions

- A transaction is atomic and serialised, as `BEGIN IMMEDIATE` makes it; a failure inside it rolls it back.
- Identifier factories may return anything, or fail. Only the primary keys of live rows are checked. The delivery
  results speak of outbox ids, which AUTOINCREMENT never reuses, so none of them needs identifiers to be fresh.
- `completed_at + delay` may be unrepresentable (a date past year 9999). The dispatcher then raises before the
  attempt is counted; the model takes that branch. Only draining and the waiting bound without stranded claims assume
  it away, and only for failures.
- One `DeliveryConfig` holds for a whole run. "One dispatcher" means that `Solo` holds; a theorem without `Solo` is
  about any number of them.
- Times are UTC microseconds from year 1 to year 9999. Stored timestamps were written by `to_iso`.
- Backoff is computed over the reals, after the integer exponent has become the nearest double. `**` is taken to raise
  OverflowError exactly when the exponent, or the power of the rounded exponent, rounds to infinity as a double, which
  is from 2^1024 - 2^970 on.
- The normaliser reads ASCII text.

## Findings

- `RetryPolicy.delay_for_failure` answers with the maximum as soon as `**` alone overflows, although a tiny base may
  keep the product far below it; and it rounds an exponent beyond 2^53 to a double. `Retry.DelayIsCappedExponentialIff`
  says exactly when the delay is the capped exponential all the same, and `Retry.SmallFailureNumbers` that up to 2^53
  it is so unless `**` overflows on a product below the maximum. `**` overflows on a power that has no double (a policy
  is in `Retry.OverflowAnswersMaximumTooEarly`), and on an exponent that has none, even with multiplier 1
  (`Retry.HugeFailureNumberAnswersMaximum`). The bounds and the monotonicity of the delay hold in every case.
- Deleting a watch with `allow_undelivered` while one of its rows is being delivered makes the acknowledgement raise, and
  the dispatcher gives up the rest of its batch (`Steady.DeletionStrands`). Claims are stranded exactly by interruptions,
  broken sink calls and refused acknowledgements (`Steady.StrandedNothingIff`).
- Stored timestamp text misorders an earlier and a later instant exactly when the earlier is a whole second and the
  later a fraction of that same second (`Timestamps.RawTextOrdersIff`; such a pair is in `Timestamps.RawTextMisorders`).
  After the SQL rewrite no pair does (`Timestamps.StoredTextOrder`).
- Normalisation of `a b` is that of `a` followed by that of `b` for all `b` exactly when `a` ends outside quotes and
  comments (`SqlTokens.ComposesIffClosed`).

## Model

| member | source | states |
|---|---|---|
| Theorems.CommittedPromotionsFormAChain | src/watch_engine/storage.py:871-945 | In every reachable state the committed promotions of a watch form an unbroken chain: the policy saw no authority first, then exactly what the previous promotion installed; all are VALID, times strictly rise, and the last one is what the store reads as authority |
| Theorems.AuthorityNeverGoesBack | src/watch_engine/storage.py:893-934 | Whatever steps interleave, until delete_watch a watch's authority stays the same observation or becomes strictly newer |
| Theorems.AuthorityIsFirstNewest | src/watch_engine/storage.py:893-940 | After any run, authority is the first newest of the observations promoted without failure since the watch was last deleted, whatever steps interleave |
| Theorems.OrderOfPromotionsIsIrrelevant | src/watch_engine/storage.py:893-940 | Two runs that promote the same observations with distinct times end with the same authority, however promotions are ordered, repeated and interleaved |
| Theorems.StaleClaimsStayStale | src/watch_engine/storage.py:1330-1348 | A claim whose row was removed, or whose attempt number was acknowledged, is refused by both acknowledgements in every later state: a purged row's claim never matches a later row |
| Theorems.DeliveringRowsAreInHand | src/watch_engine/delivery.py:42-103 | With one dispatcher: idle and recovered, no row is DELIVERING; inside the loop the DELIVERING rows are exactly the live rows of the unacknowledged rest of the batch |
| Theorems.RowsWaitBoundedly | src/watch_engine/storage.py:1293-1313 | With one dispatcher a due row is passed over at most floor((S + stranded claims) / batch_size) times, S the attempts left over the non-terminal rows before it at the start; later promotions and purges never raise the bound |
| Theorems.RowsWaitSteadily | src/watch_engine/storage.py:1293-1313 | The bound is floor(S / batch_size) when no step interrupts the dispatcher, deletes waiting events, or acknowledges a failure with an unrepresentable retry time; all promotions, purges and other deletions may interleave |
| Theorems.ClaimsAreBounded | src/watch_engine/delivery.py:57-94 | All claims ever made number at most max_attempts per committed event plus the claims stranded |
| Theorems.SteadyClaimsAreBounded | src/watch_engine/delivery.py:57-94 | Without such steps, at most max_attempts per committed event |
| Theorems.OutboxDrains | src/watch_engine/delivery.py:42-103 | Uninterrupted calls whose clocks pass the retry times they meet bring every row to DELIVERED or DEAD after no more calls than attempts were left, while other actors record evidence, purge, and delete watches with nothing undelivered |
| Theorems.WorkingSinkDrains | src/watch_engine/delivery.py:42-103 | From every reachable state with the dispatcher idle, whatever failed before, repeating one uninterrupted call past every retry time with a sink that returns None drains the outbox, under every accepted policy |
| Theorems.EveryOutboxCanDrain | src/watch_engine/delivery.py:42-103 | From every reachable state with the dispatcher idle there are quiet calls that drain the outbox: the conditions of `Theorems.OutboxDrains` can always be met |
| Theorems.CommittedEventIsNeverLost | src/watch_engine/storage.py:947-1003 | An event committed in any reachable state keeps its outbox id in every later one: the row of that id stands for this event, holds it word for word while live, and has one of the fates that `Guarantees.NoEventIsLost` lists |
| Lineage.RunTraced | src/watch_engine/storage.py:992-1003 | Along every run each outbox id keeps its event id, live or removed, and the event of a live row is never altered |
| Guarantees.NoEventIsLost | src/watch_engine/delivery.py:57-103 | Every event ever committed is still queued, or DELIVERED after a sink call for it returned None, or DEAD after max_attempts failed calls for attempts 1..max_attempts, or was removed from one of these ends, or was removed before its end by delete_watch with allow_undelivered; any number of dispatchers and interruptions |
| Guarantees.CallsBalance | src/watch_engine/delivery.py:57-94 | Exactly as many of a row's sink calls were acknowledged as the row has attempts; all its other calls, those that a BaseException broke included, are calls whose acknowledgement never committed |
| Guarantees.AuditLogTellsTheTruth | src/watch_engine/storage.py:1546-1569 | A live row's attempts are logged exactly once each, numbered 1..attempts, and each entry is SUCCEEDED iff the sink call it stands for returned None |
| Guarantees.RunSettles | src/watch_engine/storage.py:1323-1396 | DELIVERED and DEAD rows never change again except by removal, removed rows stay removed as they were, and an attempt number is acknowledged at most once |
| Safety.RunConsistent | src/watch_engine/storage.py:62-147 | Every run keeps the foreign keys, the bijection of events and outbox rows, the exact log of each row, the columns each status implies, and authority backed by a live VALID observation of its watch with equal state and time |
| Safety.RunCounted | src/watch_engine/storage.py:850-856 | execution_count equals the watch's live observations plus those purged since its row was created |
| Accounting.RunAccounted | src/watch_engine/storage.py:1323-1396 | Every run keeps the ledger: ids 1..sequence each live or removed, rows within the attempt budget, acknowledgements exactly for attempts 1..attempts and each for one matching call, claims in hand never ahead of their rows |
| Consistency.InsertEventConsistent | src/watch_engine/storage.py:947-1003 | An event and its PENDING outbox row, inserted together, keep the cross-table invariant |
| Consistency.AcknowledgeConsistent | src/watch_engine/storage.py:1323-1396 | An acknowledgement that replaces its row and appends its attempt keeps the invariant, the audit log of every row included |
| Consistency.PurgeConsistent | src/watch_engine/storage.py:1398-1464 | purge_before keeps the invariant, foreign keys included, for every cutoff and scope |
| Consistency.DeleteConsistent | src/watch_engine/storage.py:1475-1522 | delete_watch keeps the invariant although it deletes attempts by event id |
| Deliveries.AcknowledgementCommitsIff | src/watch_engine/delivery.py:57-94 | The acknowledgement of a sink call has a transaction unless a retry is left and its time is unrepresentable; it commits iff the row still has the claim's event and attempts and is DELIVERING, and raises the stale claim otherwise |
| Deliveries.SuccessColumns | src/watch_engine/storage.py:1323-1352 | After success the row is DELIVERED now with one attempt more, no retry time, lock or error, one SUCCEEDED attempt is logged, and nothing else changes |
| Deliveries.FailureColumns | src/watch_engine/storage.py:1354-1396 | After the failure of attempt n the row is DEAD without a retry time if n >= max_attempts and otherwise RETRY with retry time now + backoff of failure n, with the sink's error; one FAILED attempt is logged, and nothing else changes |
| Deliveries.FailedEventWaits | src/watch_engine/delivery.py:66-74 | With attempts left, the retry time of a failed event is now plus the policy's delay for that failure, to the nearest microsecond, so between base and maximum later |
| Deliveries.ConfiguredBackoff | src/watch_engine/delivery.py:70-71 | The backoff that a dispatcher uses is its policy's delay in microseconds |
| Promotion.PromotionOutcome | src/watch_engine/storage.py:871-945 | A promotion fails as missing iff the observation is gone; commits without change if it is not strictly newer than authority; otherwise commits iff the policy answers and every identifier is good, and then authority, the events of the drafts and their PENDING rows appear together, field by field |
| Promotion.InsertEventsCommits | src/watch_engine/storage.py:947-990 | The insertion of n drafts succeeds iff the first n factory results exist, are new, and differ from one another: one bad draft index fails the whole |
| Promotion.InsertEventsFails | src/watch_engine/storage.py:955-980 | The first bad identifier decides the error: a failing factory call raises as such, a duplicate as an integrity error |
| Promotion.InsertEventsAddsAll | src/watch_engine/storage.py:947-1003 | When it commits, exactly the returned events are added, created now, and for each in order the next outbox row: PENDING, no attempts, due now, no lock, delivery or error |
| Promotion.InsertEventsDrafted | src/watch_engine/storage.py:955-967 | The i-th event has the type, severity, dedupe key, subject and payload of the i-th draft, the i-th identifier, the watch, and the observation's time; authority is not touched |
| Promotion.FirstNewestBecomesAuthority | src/watch_engine/storage.py:893-940 | After any sequence of promotions authority is the first among the newest observations, and is untouched iff none was fresher |
| Promotion.PromotionOrderIsIrrelevant | src/watch_engine/storage.py:893-940 | For distinct times and no failing step, every order of the same promotions ends with the same authority |
| Claims.ClaimTakesFirstDueRows | src/watch_engine/storage.py:1280-1321 | claim_due fails iff the limit is outside 1..500; otherwise it takes the `limit` smallest ids of the rows that are PENDING or RETRY with a retry time of now or earlier, each claim says what its row and event say, and only these rows change, to DELIVERING and locked now |
| Claims.ClaimedRowsWaited | src/watch_engine/storage.py:1293-1301 | No row is claimed before its time: each claimed row was PENDING or RETRY with a retry time of now or earlier |
| Claims.WaitingRowIsClaimed | src/watch_engine/storage.py:1293-1301 | A row with these columns is claimed, or the batch is full of smaller ids |
| Claims.DueIffClaimable | src/watch_engine/storage.py:1293-1301 | The join with the events leaves out no row: a row is due exactly when its own columns say so |
| Claims.FirstOfIsUnique | src/watch_engine/storage.py:1293-1301 | The description of the batch determines it: two sequences that meet it are equal |
| Retention.PurgeConservation | src/watch_engine/storage.py:1398-1473 | The reported counts: as many events as outbox rows, the sum of the purged rows' attempts, the expired observations, no watch |
| Retention.DeleteConservation | src/watch_engine/storage.py:1475-1532 | The reported counts of delete_watch, likewise, with one watch iff it existed |
| Retention.LaterPurgeAbsorbs | src/watch_engine/storage.py:1398-1464 | Purging up to c1 and then up to c2 >= c1 equals purging up to c2, and the counts add up |
| Retention.PurgesCommute | src/watch_engine/storage.py:1398-1464 | Any two purges commute, whatever their cutoffs and scopes |
| Retention.PurgeWatchByWatch | src/watch_engine/storage.py:1398-1464 | Purging each watch in turn, in any order and with repeats, equals the global purge |
| Retention.PurgeCommutesWithClaim | src/watch_engine/storage.py:1293-1321 | A purge commutes with claim_due and leaves the returned claims the same |
| Removal.PurgeIsExact | src/watch_engine/storage.py:1398-1464 | purge_before removes an outbox row, its event and its attempts iff it is DELIVERED or DEAD and its event was created before the cutoff for the watch in scope, and an observation iff it was created before the cutoff, in scope, and is no watch's authority; every other row and log stays as it was |
| Removal.DeleteIsExact | src/watch_engine/storage.py:1475-1522 | delete_watch is refused iff undelivered events are not allowed and one of the watch is PENDING, RETRY or DELIVERING; otherwise exactly the watch's rows are removed from every table |
| Recovery.StrandedRowsComeBack | src/watch_engine/storage.py:1267-1278 | After an interruption anywhere, the next call's recovery turns exactly the DELIVERING rows into unlocked RETRY rows due at that call's own claim time, attempts unspent and any earlier error kept, and changes no other row |
| Recovery.RunOrderly | src/watch_engine/delivery.py:42-103 | The recovery invariant is kept by every step of the dispatcher and of all other actors |
| Recovery.AcknowledgementCommits | src/watch_engine/delivery.py:64-93 | With one dispatcher an acknowledgement fails only on a deleted row or, after a failure, on an unrepresentable retry time |
| Steady.StrandedNothingIff | src/watch_engine/delivery.py:96-103 | No claim is stranded in a run exactly when no step interrupts a dispatcher with claims in hand, no sink call breaks, and no acknowledgement is refused |
| Steady.DeletionStrands | src/watch_engine/storage.py:1482-1522 | Deleting the watch of the row in hand strands the whole rest of the batch |
| Steady.WaitingRowsStay | src/watch_engine/storage.py:1398-1522 | Of all steps of other actors, only delete_watch with allow_undelivered removes or changes a row that is not terminal |
| Progress.BoundedWaiting | src/watch_engine/storage.py:1293-1313 | Bounded waiting from any state that meets the invariants |
| Progress.ClaimBudget | src/watch_engine/delivery.py:57-94 | Claims made plus attempts left at the end are at most attempts left at the start, max_attempts per new event, and claims stranded |
| Progress.FullBatchBefore | src/watch_engine/storage.py:1293-1301 | A batch that passes over a due row is full and lies wholly before it |
| Drain.WorkingSinkIsQuiet | src/watch_engine/storage.py:1330-1347 | Successful deliveries schedule no retries, so a clock that has passed every retry time stays past them |
| Drain.CallDrains | src/watch_engine/delivery.py:42-103 | An uninterrupted call with k sink calls lowers the attempts left by at least k and ends idle and recovered, whatever its clock reads; it makes a call if any row is not terminal and the clock has passed every retry time |
| Drain.NothingLeftIffTerminal | src/watch_engine/delivery.py:66-74 | No attempts are left exactly when every row is DELIVERED or DEAD: a waiting row always has fewer than max_attempts |
| Drain.CallKeepsGood | src/watch_engine/delivery.py:42-103 | Any call, interrupted anywhere or not and interleaved with any storage steps, keeps all invariants of a one-dispatcher engine |
| Dispatcher.OutboxDispatcher.DispatchReady | src/watch_engine/delivery.py:42-103 | A call takes exactly the steps of its plan in the machine, whatever runs, purges and deletions commit between its own transactions and wherever an exception arises; it returns one result per sink call, in order and true to its answer; afterwards the dispatcher counts as recovered iff it returned, or the first clock reading raised and it was before |
| Calls.UndisturbedCall | src/watch_engine/delivery.py:42-103 | A call that nothing disturbs hands the first batch_size rows whose time has come, recovered ones included, to the sink, once each and in order; each row and its logged attempt are settled by the sink's own answer at that answer's own time (DELIVERED, RETRY after the backoff, or DEAD), and every other row stays as it was |
| Dispatcher.OutboxDispatcher.DeliverAll | src/watch_engine/delivery.py:56-94 | The delivery loop: the steps it takes, one result per claim, and the pending rest after every pass |
| Dispatcher.OutboxDispatcher.DeliverOne | src/watch_engine/delivery.py:57-94 | One pass: a sink call, logged even when an exception breaks it, and its acknowledgement, refused when another actor has deleted the row; there is a result iff the claim left the pending rest and nothing interrupted, and it names the event, whether the sink returned None, and the exception's text otherwise |
| Dispatcher.OutboxDispatcher.RetryTime | src/watch_engine/delivery.py:66-71 | Gives up at max_attempts; otherwise the retry time is completed_at plus the delay of the failure, to the nearest microsecond, and none is found only if it lies beyond the calendar |
| Dispatcher.RoundStep | src/watch_engine/delivery.py:57-94 | One pass of the loop and the rest of the call compose in the machine |
| Dispatcher.AcknowledgedRound | src/watch_engine/delivery.py:57-94 | A pass with its acknowledgement ends with the rest of the batch iff the acknowledgement's transaction commits |
| Store.SQLiteStore.PersistObservation | src/watch_engine/storage.py:821-869 | Watch, observation and counter change together; a duplicate observation id rolls all of it back |
| Store.SQLiteStore.InsertEvents | src/watch_engine/storage.py:947-990 | The loop over the drafts yields the events and rows of its specification, or its error |
| Store.SQLiteStore.PromoteValidObservation | src/watch_engine/storage.py:871-945 | Statement by statement equal to the promotion transaction; every failure restores the tables at BEGIN |
| Store.SQLiteStore.RecordObservation | src/watch_engine/storage.py:793-819 | Evidence first, promotion second, each its own transaction |
| Store.SQLiteStore.RecoverInFlight | src/watch_engine/storage.py:1267-1278 | Every DELIVERING row becomes RETRY, and the returned count is their number |
| Store.SQLiteStore.SelectDue | src/watch_engine/storage.py:1290-1301 | The scan over mixed stored text selects exactly the first `limit` due ids |
| Store.SQLiteStore.ClaimDue | src/watch_engine/storage.py:1280-1321 | Equal to the claim transaction, and in columns: the first `limit` waiting rows whose time has come; a limit outside 1..500 changes nothing |
| Store.SQLiteStore.RecordDeliverySuccess | src/watch_engine/storage.py:1323-1352 | Commits iff row, event, attempts and DELIVERING match the claim; its attempt row has its foreign keys |
| Store.SQLiteStore.RecordDeliveryFailure | src/watch_engine/storage.py:1354-1396 | Likewise, to RETRY or, without a retry time, to DEAD |
| Store.SQLiteStore.PurgeBefore | src/watch_engine/storage.py:1398-1473 | No deletion violates a foreign key, exactly the old ends and the old evidence go, and the counts are the rows removed |
| Store.SQLiteStore.DeleteWatch | src/watch_engine/storage.py:1475-1532 | Refused iff undelivered events stand against it; otherwise exactly the watch's rows go, without a foreign key violation, and are counted |
| Store.PurgeForeignKeys | src/watch_engine/storage.py:1433-1464 | After each deletion of a purge nothing left refers to what the next one deletes |
| Store.DeleteForeignKeys | src/watch_engine/storage.py:1494-1522 | The same for delete_watch, down to the watch row |
| Runtime.WatchRuntime.RunOnce | src/watch_engine/runtime.py:58-96 | A run marks, observes and records as specified, whichever of its parts raises |
| Runs.ValidRun | src/watch_engine/runtime.py:58-96 | A run that observes a VALID observation keeps it as evidence; not newer than authority, it changes nothing else; newer, it becomes authority with the events and PENDING rows of the policy's drafts iff the policy answers and every identifier is good, and otherwise the run raises and only the evidence stays |
| Runtime.Observe | src/watch_engine/runtime.py:98-119 | At most max_attempts calls, all but the last failing; the delays of failures 1..calls-1 are slept; the last call's observation is returned, and at exhaustion FAILED evidence with its error, the clock's time and state null |
| Runtime.Exhaustion | src/watch_engine/runtime.py:98-119 | If every one of max_attempts calls fails, the outcome is FAILED evidence of the last failure, at the time of the clock, with state null |
| Runtime.FirstAnswer | src/watch_engine/runtime.py:98-103 | The first observation returned, after failures only, is the outcome |
| Runtime.DelaysBounded | src/watch_engine/runtime.py:98-119 | The sleeps of k calls total between (k-1) * base and (k-1) * maximum |
| Runtime.DelaysAscend | src/watch_engine/models.py:214-223 | They never shorten from one failure to the next |
| Runtime.EvidenceSurvives | src/watch_engine/storage.py:793-819 | However record_observation ends, either nothing was recorded (and it raised) or exactly this observation was, and counted; a failed promotion never takes the evidence back |
| Runtime.PersistOutcome | src/watch_engine/storage.py:821-869 | The evidence transaction commits iff the observation id is new, and then adds its row, recorded now, and one to the execution count |
| Runtime.RecordOutcome | src/watch_engine/storage.py:793-819 | record_observation raises exactly what its identifier factory or one of its transactions raises; it returns no events for an observation that is not VALID, and those of the promotion for one that is |
| Runtime.RunRecordsOneObservation | src/watch_engine/runtime.py:58-96 | A run that returns recorded exactly the observation it returns; a run that raises recorded at most one |
| Runtime.RunOnceIsRun | src/watch_engine/runtime.py:58-96 | A run is mark, persist and promote in the machine, so all whole-run results cover it |
| Runtime.SilentRunPromotesNothing | src/watch_engine/runtime.py:98-119 | A run whose observer never returns an observation leaves authority, events, outbox and attempts as they were |
| Runtime.RunLeaves | src/watch_engine/runtime.py:58-96 | A run that cannot start changes nothing; one that starts leaves the watch's row; one that returns, returns what was observed |
| Runtime.RemovedEvidenceNeverPromotes | src/watch_engine/storage.py:881-890 | An observation removed between its persist and its promotion is never promoted: whatever else commits, promotion raises and changes nothing |
| Diagnostics.OutboxListing | src/watch_engine/storage.py:1095-1139 | Paging while the engine works lists a row that keeps matching the watch and status filters exactly once |
| Diagnostics.OutboxListingIsSound | src/watch_engine/storage.py:1095-1139 | and never a row that does not match them |
| Diagnostics.AttemptListing | src/watch_engine/storage.py:1141-1190 | The same for delivery attempts, by watch, event and status |
| Diagnostics.AttemptListingIsSound | src/watch_engine/storage.py:1141-1190 | and never one that does not match |
| Diagnostics.ListingFails | src/watch_engine/storage.py:1192-1206 | A listing is refused exactly for a limit outside 1..500, and otherwise for a negative cursor |
| Timestamps.StoredTextOrder | src/watch_engine/storage.py:45-60 | Rewritten stored text compares with the parameter as the instants do, for < and <= |
| Timestamps.RewriteIsSortable | src/watch_engine/storage.py:45-60 | The SQL rewrite of to_iso is to_sortable_iso |
| Timestamps.SortableTextOrder | src/watch_engine/_time.py:22-29 | The order of the fixed-width text is chronological, for all instants of years 1 to 9999 |
| Timestamps.RawTextOrdersIff | src/watch_engine/_time.py:18-19 | Unrewritten text orders an earlier instant before a later one unless the earlier is a whole second and the later a fraction of that second; exactly these pairs come out reversed |
| Timestamps.RawTextMisorders | src/watch_engine/_time.py:18-19 | Such a pair exists: a later instant sorts first |
| Timestamps.FieldOrderIsChronological | src/watch_engine/_time.py:18-29 | Comparing year, month, day and time fields compares instants, leap years included |
| Timestamps.FromIsoInverts | src/watch_engine/_time.py:32-33 | from_iso inverts both encodings |
| Timestamps.EpochText | src/watch_engine/_time.py:18-29 | The epoch reads 1970-01-01T00:00:00Z, and with a zero fraction in the fixed-width form |
| Timestamps.LeapDayText | src/watch_engine/_time.py:18-19 | The last second of the leap day of 2000 reads 2000-02-29T23:59:59Z |
| Retry.DelayBoundedAndMonotone | src/watch_engine/models.py:214-223 | The delay lies between base and maximum and never shrinks with the failure number |
| Retry.FirstDelays | src/watch_engine/models.py:214-223 | The first delay is the base, and the second of the capped exponential the base times the multiplier |
| Retry.BackoffIsDelay | src/watch_engine/delivery.py:70-71 | The backoff in microseconds is the delay in seconds, rounded to the nearest, halves to even |
| Retry.DelayIsCappedExponentialIff | src/watch_engine/models.py:219-223 | It is the capped exponential exactly when the product reaches the maximum anyway, or when `**` does not overflow and the exponent is a double or makes no difference |
| Retry.SmallFailureNumbers | src/watch_engine/models.py:219-223 | For failure numbers up to 2^53 + 1: exactly when `**` does not overflow or the product reaches the maximum anyway |
| Retry.NearestDoubleIsNear | src/watch_engine/models.py:220 | The exponent used is the integer itself up to 2^53, and at most half a unit in the last place away beyond |
| Retry.NearestDoubleIsNearest | src/watch_engine/models.py:220 | It has a significand of 53 bits, no other such number is nearer to the integer, and of two equally near ones it is the one that 52 bits suffice for |
| Retry.BeyondIsNearerToInfinity | src/watch_engine/models.py:219-222 | A power has no double exactly when it is nearer to 2^1024 than to the largest double, or as near |
| Retry.OverflowAnswersMaximumTooEarly | src/watch_engine/models.py:219-223 | A policy for which the overflow branch answers 2 where the capped exponential is 1 |
| Retry.HugeFailureNumberAnswersMaximum | src/watch_engine/models.py:219-223 | With multiplier 1 the delay is the maximum instead of the base exactly from a failure number on whose predecessor has no double |
| SqlTokens.Normalize | src/watch_engine/storage.py:153-223 | The scanning loop computes the recursive token sequence, and its position strictly advances |
| SqlTokens.ScanLexeme | src/watch_engine/storage.py:156-222 | One turn of the loop takes exactly the lexeme at the position |
| SqlTokens.NormalizationComposes | src/watch_engine/storage.py:153-223 | Closed text, a separator and any text normalise to the two token sequences, one after the other |
| SqlTokens.ComposesIffClosed | src/watch_engine/storage.py:161-189 | That holds for all continuations exactly when the text ends outside quotes and comments |
| SqlTokens.FormatIsIrrelevant | src/watch_engine/storage.py:159-168 | Which separator stands between tokens never changes the fingerprint |
| SqlTokens.TokensRoundTrip | src/watch_engine/storage.py:153-223 | The tokens joined by spaces normalise to the same tokens, for every text |
| SqlTokens.QuotedTextSurvives | src/watch_engine/storage.py:169-189 | Quoted content, its quotes doubled, comes out as one verbatim token between its neighbours |
| SqlTokens.BracketedTextSurvives | src/watch_engine/storage.py:169-189 | Bracketed content without a closing bracket comes out as one verbatim token between its neighbours |
| SqlTokens.UnterminatedQuoteSurvives | src/watch_engine/storage.py:169-189 | A quote that never ends is the last token, verbatim to the end of the text |
| SqlTokens.QuotingIsInjective | src/watch_engine/storage.py:169-189 | Different contents give different quoted tokens |
| SqlTokens.LetterCaseIsIrrelevant | src/watch_engine/storage.py:191-200 | Texts that differ only in letter case outside quotes have the same tokens |
| SqlLexemes.WordIsOneToken | src/watch_engine/storage.py:191-200 | Letters, digits, `_` and `$` make one token, its lower-case letters raised and nothing else changed |
| SqlLexemes.WordEnds | src/watch_engine/storage.py:191-200 | and the word ends at the first other character |
| SqlLexemes.WhiteSpaceIsSkipped | src/watch_engine/storage.py:159-161 | White space between tokens is none |
| SqlLexemes.LineCommentIsSkipped | src/watch_engine/storage.py:162-165 | Two dashes hide the text up to and with the end of the line |
| SqlLexemes.BlockCommentIsSkipped | src/watch_engine/storage.py:166-169 | A block comment ends with the first star and slash |
| SqlLexemes.OneSymbol | src/watch_engine/storage.py:221-222 | Every other character is an operator of its own |
| SqlLexemes.TwoSymbols | src/watch_engine/storage.py:206-220 | unless two make one of the nine pairs |
| SqlLexemes.DoubleArrow | src/watch_engine/storage.py:201-205 | or three make the double arrow |
| SqlLexemes.DoubledQuote | src/watch_engine/storage.py:169-189 | A doubled quote is content |
| SqlLexemes.ClosingBracket | src/watch_engine/storage.py:169-189 | A bracket closes at its first closing bracket, doubled or not |
| JsonShape.ShapeValidator.Validate | src/watch_engine/_json.py:55-100 | The check terminates on every graph, restores the active set on every exit, and computes its specification |
| JsonShape.AcceptsExactlyShallowTrees | src/watch_engine/_json.py:55-100 | It accepts iff the unfolding has legal leaves and string keys throughout and nests at most 100 containers; sharing makes no difference |
| JsonShape.ReachableCycleIsRejected | src/watch_engine/_json.py:68-73 | Every value that reaches a cycle is rejected |
| JsonShape.ErrorsAreTrue | src/watch_engine/_json.py:64-90 | It reports a cycle only where a path of at most 100 containers from the checked value comes back, and excessive nesting only where a path from it passes over 100 containers |
| JsonShape.FaultsAreTrue | src/watch_engine/_json.py:55-100 | The errors for a float that is not finite, for a key that is no string and for another type are raised only if such a value lies within the checked one |

## Left out

- Files, permissions, PRAGMAs, WAL, VACUUM and the validation of an existing schema; of the schema code only the SQL normaliser is modelled.
- SQLite itself: SQL parsing, indexes, locking and busy timeouts. A constraint that a statement would check is its precondition or its result.
- json.dumps and json.loads: stored JSON is opaque text. The evidence of a FAILED observation is a parameter. Size limits of encoded JSON are left out.
- The columns run_status, last_* and the time columns of watches: last-writer diagnostics. mark_run_error writes nothing else, so a failed run leaves no further trace here.
- Field validation of the value classes, string limits and bounded_error_text: error texts are stored as given.
- Triggers, WatchRunner, logging, packaging, JSON schema files.
- Other forms that datetime.fromisoformat accepts: `Timestamps.FromIso` reads what the engine writes.
- Non-ASCII text in the normaliser, where Unicode upper() may leave the class of word characters.
- IEEE rounding of delays; a delay is rounded to microseconds, halves to even, as timedelta does.
- Dispatcher.OutboxDispatcher.DispatchReady: other dispatchers do not act inside the method; their interleavings are those of the state machine, whose delivery guarantees hold for any number of dispatchers.
- Runtime.WatchRuntime.RunOnce: other actors do not commit inside the method; overlapping runs are interleaved steps of the state machine, which a run is proved to take.
- Diagnostics: a page is its sequence of ids; the mapping of a row to its diagnostic value adds nothing to order or completeness.
