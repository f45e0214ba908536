/**
 What the acknowledgement of a sink call does, column by column: when it is refused, what becomes of the
 row, when a failed event is due again, and what the audit log gains.
 */
module Deliveries {
  import opened Entities
  import opened Tables
  import opened Consistency
  import opened Protocol
  import opened Retry
  import opened Dispatcher

  /** The row is still the one that was claimed. */
  ghost predicate StillClaimed(db: Database, claim: ClaimedEvent) {
    && claim.outboxId in db.outbox
    && db.outbox[claim.outboxId].eventId == claim.event.eventId
    && db.outbox[claim.outboxId].attempts == claim.attempts
    && db.outbox[claim.outboxId].status == Delivering
  }

  /** What every acknowledgement does to the row. */
  ghost predicate Attempted(row: OutboxRow, before: OutboxRow, now: Instant) {
    && row.eventId == before.eventId && row.attempts == before.attempts + 1
    && row.lockedAt == None && row.createdAt == before.createdAt && row.updatedAt == now
  }

  ghost predicate DeliveredNow(row: OutboxRow, now: Instant) {
    row.status == Delivered && row.deliveredAt == Some(now) && row.nextAttemptAt == None && row.lastError == None
  }

  ghost predicate GivenUp(row: OutboxRow, before: OutboxRow, error: string) {
    && row.status == Dead && row.nextAttemptAt == None
    && row.deliveredAt == before.deliveredAt && row.lastError == Some(error)
  }

  ghost predicate RetriesAt(row: OutboxRow, before: OutboxRow, error: string, at: int) {
    && row.status == Retry && row.nextAttemptAt.Some? && row.nextAttemptAt.value == at
    && row.deliveredAt == before.deliveredAt && row.lastError == Some(error)
  }

  /** The text recorded for a failure: that of the exception, or of the TypeError for a returned value. */
  ghost predicate Describes(error: string, outcome: SinkOutcome) {
    && (outcome.Raised? ==> error == outcome.text)
    && (outcome.ReturnedOther? ==> error == "TypeError: operation failed")
  }

  /** The logged attempt: which it was, when, and what the sink answered. */
  ghost predicate Tells(a: AttemptRow, claim: ClaimedEvent, error: string, outcome: SinkOutcome, now: Instant) {
    && a.outboxId == claim.outboxId && a.eventId == claim.event.eventId
    && a.attemptNumber == claim.attempts + 1 && a.attemptedAt == now
    && a.status == (if outcome == ReturnedNone then Succeeded else AttemptFailed)
    && a.error == (if outcome == ReturnedNone then None else Some(error))
  }

  /** One attempt more, numbered and timed, and true to the outcome. */
  ghost predicate Logged(
    db: Database, after: Database, claim: ClaimedEvent, error: string, outcome: SinkOutcome, now: Instant)
  {
    && |after.attempts| == |db.attempts| + 1 && after.attempts[..|db.attempts|] == db.attempts
    && after.attemptSequence == db.attemptSequence + 1
    && after.attempts[|db.attempts|].attemptId == after.attemptSequence
    && Tells(after.attempts[|db.attempts|], claim, error, outcome, now)
  }

  ghost predicate OnlyRowChanges(db: Database, after: Database, id: nat) {
    && after.outbox.Keys == db.outbox.Keys
    && (forall other :: other in db.outbox && other != id ==> after.outbox[other] == db.outbox[other])
    && after == db.(outbox := after.outbox, attempts := after.attempts, attemptSequence := after.attemptSequence)
  }

  /** Computing the retry time of the failure raises. */
  ghost predicate BeyondCalendar(config: DeliveryConfig, claim: ClaimedEvent, outcome: SinkOutcome, now: Instant) {
    && outcome != ReturnedNone && claim.attempts + 1 < config.maxAttempts
    && now + config.delay(claim.attempts + 1) >= INSTANT_LIMIT
  }

  /** When there is a transaction, and when it commits. */
  lemma AcknowledgementCommitsIff(
    config: DeliveryConfig, db: Database, claim: ClaimedEvent, outcome: SinkOutcome, now: Instant)
    ensures var tx := AcknowledgeTx(config, db, claim, outcome, now);
            && (tx.None? <==> BeyondCalendar(config, claim, outcome, now))
            && (tx.Some? ==> (tx.value.Ok? <==> StillClaimed(db, claim)))
            && (tx.Some? && tx.value.Err? ==> tx.value.error == StaleClaim)
  {
  }

  /** A claim acknowledged after success is DELIVERED, with the time. */
  lemma SuccessColumns(config: DeliveryConfig, db: Database, claim: ClaimedEvent, now: Instant)
    requires StillClaimed(db, claim)
    ensures var after := AcknowledgeTx(config, db, claim, ReturnedNone, now).value.value;
            && OnlyRowChanges(db, after, claim.outboxId)
            && Attempted(after.outbox[claim.outboxId], db.outbox[claim.outboxId], now)
            && DeliveredNow(after.outbox[claim.outboxId], now)
            && Logged(db, after, claim, "", ReturnedNone, now)
  {
  }

  /**
   A claim acknowledged after the failure of its n-th attempt is DEAD if n is max_attempts or more, and
   otherwise due again after the backoff of failure n.
   */
  lemma FailureColumns(config: DeliveryConfig, db: Database, claim: ClaimedEvent, outcome: SinkOutcome, now: Instant)
    returns (error: string)
    requires StillClaimed(db, claim) && outcome != ReturnedNone && !BeyondCalendar(config, claim, outcome, now)
    ensures Describes(error, outcome)
    ensures var after := AcknowledgeTx(config, db, claim, outcome, now).value.value;
            var row, before := after.outbox[claim.outboxId], db.outbox[claim.outboxId];
            var n := claim.attempts + 1;
            && OnlyRowChanges(db, after, claim.outboxId)
            && Attempted(row, before, now)
            && Logged(db, after, claim, error, outcome, now)
            && (if n >= config.maxAttempts then GivenUp(row, before, error)
                else RetriesAt(row, before, error, now + config.delay(n)))
  {
    error := ErrorText(outcome);
    assert AcknowledgeTx(config, db, claim, outcome, now).Some?;
  }

  /** The backoff of a dispatcher is the delay of its retry policy, to the nearest microsecond. */
  lemma ConfiguredBackoff(dispatcher: OutboxDispatcher, failureNumber: nat)
    requires dispatcher.retry.Valid() && failureNumber >= 1
    ensures dispatcher.Config().maxAttempts == dispatcher.retry.maxAttempts
    ensures RoundsTo(dispatcher.Config().delay(failureNumber), DelayForFailure(dispatcher.retry, failureNumber))
  {
    BackoffIsDelay(dispatcher.retry, failureNumber);
  }

  /** So after a failure the event waits between base and maximum, give or take half a microsecond. */
  lemma FailedEventWaits(
    dispatcher: OutboxDispatcher, db: Database, claim: ClaimedEvent, outcome: SinkOutcome, now: Instant)
    requires var retry := dispatcher.retry;
             retry.Valid() && claim.attempts + 1 < retry.maxAttempts
    requires StillClaimed(db, claim) && outcome != ReturnedNone
    requires !BeyondCalendar(dispatcher.Config(), claim, outcome, now)
    ensures var retry := dispatcher.retry;
            var after := AcknowledgeTx(dispatcher.Config(), db, claim, outcome, now).value.value;
            var next := after.outbox[claim.outboxId].nextAttemptAt;
            && next.Some?
            && RoundsTo(next.value - now, DelayForFailure(retry, claim.attempts + 1))
            && 1_000_000.0 * retry.baseDelaySeconds - 0.5 <= (next.value - now) as real
            && (next.value - now) as real <= 1_000_000.0 * retry.maximumDelaySeconds + 0.5
  {
    hide DelayForFailure, AcknowledgeTx, DelayMicros;
    var error := FailureColumns(dispatcher.Config(), db, claim, outcome, now);
    ConfiguredBackoff(dispatcher, claim.attempts + 1);
    DelayBoundedAndMonotone(dispatcher.retry, claim.attempts + 1, claim.attempts + 1);
  }
}
