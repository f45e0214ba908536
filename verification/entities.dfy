/** The values the watch engine passes around: observations, drafts, events, and table rows. */
module Entities {

  datatype Option<+T> = None | Some(value: T)

  /** The exceptions that end a store transaction. */
  datatype TxError =
    | IntegrityError      // a PRIMARY KEY, UNIQUE or FOREIGN KEY constraint refused a statement
    | ObservationIdError  // observation_id_factory raised, or returned an invalid identifier
    | MissingObservation  // "persisted observation is missing during promotion"
    | PolicyError         // the policy raised, or did not return a sequence of EventDraft
    | EventIdError        // event_id_factory raised, or returned an invalid identifier
    | StaleClaim          // "outbox claim ... is no longer active"
    | UndeliveredEvents   // "watch has undelivered outbox events"
    | InvalidLimit        // a claim or page limit outside 1..500
    | InvalidCursor       // a negative page cursor

  datatype Result<+T> = Ok(value: T) | Err(error: TxError)

  /** An instant counts UTC microseconds since 0001-01-01T00:00:00; the last one is in year 9999. */
  const INSTANT_LIMIT: int := 315_537_897_600_000_000

  type Instant = t: int | 0 <= t < INSTANT_LIMIT witness 0

  /** Stored JSON is an opaque canonical text. */
  type Json = string

  type WatchId = string
  type ObservationId = string
  type EventId = string

  datatype ObservationStatus = Valid | Degraded | Failed

  datatype Observation = Observation(
    status: ObservationStatus,
    observedAt: Instant,
    state: Json,
    evidence: Json,
    error: Option<string>)

  datatype EventDraft = EventDraft(
    eventType: string,
    severity: string,
    dedupeKey: string,
    subject: Json,
    payload: Json)

  datatype WatchEvent = WatchEvent(
    eventId: EventId,
    watchId: WatchId,
    eventType: string,
    severity: string,
    occurredAt: Instant,
    dedupeKey: string,
    subject: Json,
    payload: Json)

  /** `evaluate(previous, current)`; None stands for a policy that raises or returns no draft sequence. */
  type Policy = (Option<Observation>, Observation) -> Option<seq<EventDraft>>

  datatype OutboxStatus = Pending | Delivering | Retry | Delivered | Dead

  datatype AttemptStatus = Succeeded | AttemptFailed

  datatype WatchRow = WatchRow(executionCount: nat)

  datatype ObservationRow = ObservationRow(watchId: WatchId, observation: Observation, createdAt: Instant)

  datatype AuthorityRow = AuthorityRow(
    observationId: ObservationId,
    state: Json,
    observedAt: Instant,
    updatedAt: Instant)

  datatype EventRow = EventRow(event: WatchEvent, createdAt: Instant)

  datatype OutboxRow = OutboxRow(
    eventId: EventId,
    status: OutboxStatus,
    attempts: nat,
    nextAttemptAt: Option<Instant>,
    lockedAt: Option<Instant>,
    deliveredAt: Option<Instant>,
    lastError: Option<string>,
    createdAt: Instant,
    updatedAt: Instant)

  datatype AttemptRow = AttemptRow(
    attemptId: nat,
    outboxId: nat,
    eventId: EventId,
    attemptNumber: nat,
    attemptedAt: Instant,
    status: AttemptStatus,
    error: Option<string>)

  datatype ClaimedEvent = ClaimedEvent(outboxId: nat, attempts: nat, event: WatchEvent)

  datatype PurgeResult = PurgeResult(
    observationsDeleted: int,
    eventsDeleted: int,
    outboxRowsDeleted: int,
    deliveryAttemptsDeleted: int,
    watchesDeleted: int)

  predicate Terminal(status: OutboxStatus) {
    status == Delivered || status == Dead
  }
}
