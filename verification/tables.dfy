/**
 The six tables, and every store transaction as a function from the tables before it to the tables
 after it. A transaction that raises leaves the tables as they were (rollback), so its result is only
 the error. `SQLiteStore` in store.dfy performs these transactions statement by statement.
 */
module Tables {
  import opened Entities
  import opened Sequences

  /** `outboxSequence` and `attemptSequence` are the AUTOINCREMENT counters: the largest id ever committed. */
  datatype Database = Database(
    watches: map<WatchId, WatchRow>,
    observations: map<ObservationId, ObservationRow>,
    authority: map<WatchId, AuthorityRow>,
    events: map<EventId, EventRow>,
    outbox: map<nat, OutboxRow>,
    outboxSequence: nat,
    attempts: seq<AttemptRow>,
    attemptSequence: nat)

  const EMPTY_DATABASE := Database(map[], map[], map[], map[], map[], 0, [], 0)

  const MAX_DELIVERY_BATCH_SIZE := 500

  // ---------------------------------------------------------------- observations and promotion

  function EnsureWatch(db: Database, watchId: WatchId): Database {
    if watchId in db.watches then db else db.(watches := db.watches[watchId := WatchRow(0)])
  }

  function Persist(
    db: Database, watchId: WatchId, observationId: ObservationId, observation: Observation, now: Instant
  ): Result<Database> {
    if observationId in db.observations then
      Err(IntegrityError)
    else
      var known := EnsureWatch(db, watchId);
      Ok(known.(
         observations := known.observations[observationId := ObservationRow(watchId, observation, now)],
         watches := known.watches[watchId := WatchRow(known.watches[watchId].executionCount + 1)]))
  }

  /** The authority row joined with its observation. */
  function ReadAuthoritative(db: Database, watchId: WatchId): Option<Observation> {
    if watchId in db.authority && db.authority[watchId].observationId in db.observations then
      Some(db.observations[db.authority[watchId].observationId].observation)
    else
      None
  }

  function EventFromDraft(
    watchId: WatchId, eventId: EventId, observation: Observation, draft: EventDraft
  ): WatchEvent {
    WatchEvent(eventId, watchId, draft.eventType, draft.severity, observation.observedAt,
               draft.dedupeKey, draft.subject, draft.payload)
  }

  function PendingRow(eventId: EventId, now: Instant): OutboxRow {
    OutboxRow(eventId, Pending, 0, Some(now), None, None, None, now, now)
  }

  /** One event row and its outbox row. */
  function InsertEvent(db: Database, event: WatchEvent, now: Instant): Database {
    db.(events := db.events[event.eventId := EventRow(event, now)],
        outbox := db.outbox[db.outboxSequence + 1 := PendingRow(event.eventId, now)],
        outboxSequence := db.outboxSequence + 1)
  }

  datatype Inserted = Inserted(db: Database, events: seq<WatchEvent>)

  /** `factory` holds the successive results of event_id_factory; None, or running out, is a failing call. */
  function InsertEvents(
    db: Database, watchId: WatchId, observation: Observation, drafts: seq<EventDraft>,
    factory: seq<Option<EventId>>, now: Instant
  ): Result<Inserted>
    decreases drafts
  {
    if drafts == [] then
      Ok(Inserted(db, []))
    else if factory == [] || factory[0].None? then
      Err(EventIdError)
    else if factory[0].value in db.events then
      Err(IntegrityError)
    else
      var event := EventFromDraft(watchId, factory[0].value, observation, drafts[0]);
      match InsertEvents(InsertEvent(db, event, now), watchId, observation, drafts[1..], factory[1..], now)
      case Err(error) => Err(error)
      case Ok(rest) => Ok(Inserted(rest.db, [event] + rest.events))
  }

  function Install(
    db: Database, watchId: WatchId, observationId: ObservationId, observation: Observation, now: Instant
  ): Database {
    db.(authority := db.authority[watchId :=
          AuthorityRow(observationId, observation.state, observation.observedAt, now)])
  }

  /** Authority is already as new as the observation, or newer. */
  predicate Stale(db: Database, watchId: WatchId, observationId: ObservationId)
    requires observationId in db.observations
  {
    var previous := ReadAuthoritative(db, watchId);
    previous.Some? && db.observations[observationId].observation.observedAt <= previous.value.observedAt
  }

  function Promote(
    db: Database, watchId: WatchId, observationId: ObservationId, policy: Policy,
    factory: seq<Option<EventId>>, now: Instant
  ): Result<Inserted>
  {
    if observationId !in db.observations || db.observations[observationId].watchId != watchId then
      Err(MissingObservation)
    else if Stale(db, watchId, observationId) then
      Ok(Inserted(db, []))
    else
      var current := db.observations[observationId].observation;
      match policy(ReadAuthoritative(db, watchId), current)
      case None => Err(PolicyError)
      case Some(drafts) =>
        match InsertEvents(db, watchId, current, drafts, factory, now)
        case Err(error) => Err(error)
        case Ok(inserted) =>
          Ok(Inserted(Install(inserted.db, watchId, observationId, current, now), inserted.events))
  }

  datatype Recorded = Recorded(db: Database, outcome: Result<seq<WatchEvent>>)

  /** Two transactions: the evidence first, then, for a VALID observation, its promotion. */
  function RecordObservation(
    db: Database, watchId: WatchId, observationId: Option<ObservationId>, observation: Observation,
    policy: Policy, factory: seq<Option<EventId>>, now: Instant
  ): Recorded {
    if observationId.None? then Recorded(db, Err(ObservationIdError))
    else
      match Persist(db, watchId, observationId.value, observation, now)
      case Err(error) => Recorded(db, Err(error))
      case Ok(kept) =>
        if observation.status != Valid then Recorded(kept, Ok([]))
        else
          match Promote(kept, watchId, observationId.value, policy, factory, now)
          case Err(error) => Recorded(kept, Err(error))
          case Ok(done) => Recorded(done.db, Ok(done.events))
  }

  // ---------------------------------------------------------------- the outbox

  function Recovered(row: OutboxRow, now: Instant): OutboxRow {
    if row.status == Delivering then
      row.(status := Retry, nextAttemptAt := Some(now), lockedAt := None, updatedAt := now,
           lastError := if row.lastError.Some? then row.lastError else Some("delivery interrupted"))
    else
      row
  }

  function RecoverInFlight(db: Database, now: Instant): Database {
    db.(outbox := map id | id in db.outbox :: Recovered(db.outbox[id], now))
  }

  /** The WHERE clause of the claim query, join included. */
  predicate Due(db: Database, id: nat, now: Instant) {
    && id in db.outbox
    && db.outbox[id].eventId in db.events
    && (db.outbox[id].status == Pending || db.outbox[id].status == Retry)
    && db.outbox[id].nextAttemptAt.Some?
    && db.outbox[id].nextAttemptAt.value <= now
  }

  /** The first `limit` due ids from `id` on, in outbox_id order. */
  function DueFrom(db: Database, now: Instant, id: nat, limit: nat): (ids: seq<nat>)
    ensures forall k :: 0 <= k < |ids| ==> id <= ids[k] <= db.outboxSequence && Due(db, ids[k], now)
    decreases db.outboxSequence + 1 - id
  {
    if limit == 0 || id > db.outboxSequence then []
    else if Due(db, id, now) then [id] + DueFrom(db, now, id + 1, limit - 1)
    else DueFrom(db, now, id + 1, limit)
  }

  function Locked(row: OutboxRow, now: Instant): OutboxRow {
    row.(status := Delivering, lockedAt := Some(now), updatedAt := now)
  }

  function LockAll(outbox: map<nat, OutboxRow>, ids: seq<nat>, now: Instant): map<nat, OutboxRow> {
    map id | id in outbox :: if id in ids then Locked(outbox[id], now) else outbox[id]
  }

  function ClaimOf(db: Database, id: nat): ClaimedEvent
    requires id in db.outbox && db.outbox[id].eventId in db.events
  {
    ClaimedEvent(id, db.outbox[id].attempts, db.events[db.outbox[id].eventId].event)
  }

  datatype Claimed = Claimed(db: Database, claims: seq<ClaimedEvent>)

  function ClaimDue(db: Database, now: Instant, limit: int): Result<Claimed> {
    if limit < 1 || limit > MAX_DELIVERY_BATCH_SIZE then
      Err(InvalidLimit)
    else
      var ids := DueFrom(db, now, 1, limit);
      Ok(Claimed(db.(outbox := LockAll(db.outbox, ids, now)),
                 seq(|ids|, i requires 0 <= i < |ids| => ClaimOf(db, ids[i]))))
  }

  /** The WHERE clause shared by both acknowledgements. */
  predicate Matches(db: Database, claim: ClaimedEvent) {
    && claim.outboxId in db.outbox
    && db.outbox[claim.outboxId].eventId == claim.event.eventId
    && db.outbox[claim.outboxId].attempts == claim.attempts
    && db.outbox[claim.outboxId].status == Delivering
  }

  function AttemptOf(
    db: Database, claim: ClaimedEvent, now: Instant, status: AttemptStatus, error: Option<string>
  ): AttemptRow {
    AttemptRow(db.attemptSequence + 1, claim.outboxId, claim.event.eventId, claim.attempts + 1, now, status, error)
  }

  /** The acknowledged row is replaced and one attempt row appended. */
  function Acknowledge(
    db: Database, claim: ClaimedEvent, row: OutboxRow, now: Instant, status: AttemptStatus, error: Option<string>
  ): Database {
    db.(outbox := db.outbox[claim.outboxId := row],
        attempts := db.attempts + [AttemptOf(db, claim, now, status, error)],
        attemptSequence := db.attemptSequence + 1)
  }

  function DeliveredRow(row: OutboxRow, now: Instant): OutboxRow {
    row.(status := Delivered, attempts := row.attempts + 1, deliveredAt := Some(now),
         nextAttemptAt := None, lockedAt := None, lastError := None, updatedAt := now)
  }

  function FailedRow(row: OutboxRow, error: string, retryAt: Option<Instant>, now: Instant): OutboxRow {
    row.(status := if retryAt.None? then Dead else Retry, attempts := row.attempts + 1,
         nextAttemptAt := retryAt, lockedAt := None, lastError := Some(error), updatedAt := now)
  }

  function RecordSuccess(db: Database, claim: ClaimedEvent, now: Instant): Result<Database> {
    if Matches(db, claim) then
      Ok(Acknowledge(db, claim, DeliveredRow(db.outbox[claim.outboxId], now), now, Succeeded, None))
    else
      Err(StaleClaim)
  }

  function RecordFailure(
    db: Database, claim: ClaimedEvent, error: string, retryAt: Option<Instant>, now: Instant
  ): Result<Database> {
    if Matches(db, claim) then
      Ok(Acknowledge(db, claim, FailedRow(db.outbox[claim.outboxId], error, retryAt, now), now,
                     AttemptFailed, Some(error)))
    else
      Err(StaleClaim)
  }

  // ---------------------------------------------------------------- retention

  predicate InScope(owner: WatchId, watch: Option<WatchId>) {
    watch.None? || watch.value == owner
  }

  /** The rows of the temporary table purge_targets. */
  predicate IsPurgeTarget(db: Database, id: nat, cutoff: Instant, watch: Option<WatchId>) {
    && id in db.outbox
    && Terminal(db.outbox[id].status)
    && db.outbox[id].eventId in db.events
    && db.events[db.outbox[id].eventId].createdAt < cutoff
    && InScope(db.events[db.outbox[id].eventId].event.watchId, watch)
  }

  function PurgeTargets(db: Database, cutoff: Instant, watch: Option<WatchId>): set<nat> {
    set id | id in db.outbox && IsPurgeTarget(db, id, cutoff, watch)
  }

  function EventIdsOf(db: Database, ids: set<nat>): set<EventId> {
    set id | id in ids && id in db.outbox :: db.outbox[id].eventId
  }

  predicate IsAuthoritative(db: Database, observationId: ObservationId) {
    exists w :: w in db.authority && db.authority[w].observationId == observationId
  }

  function ExpiredObservations(db: Database, cutoff: Instant, watch: Option<WatchId>): set<ObservationId> {
    set o | o in db.observations && db.observations[o].createdAt < cutoff
            && InScope(db.observations[o].watchId, watch) && !IsAuthoritative(db, o)
  }

  function WithoutOutboxIds(attempts: seq<AttemptRow>, ids: set<nat>): seq<AttemptRow> {
    Filter(attempts, (a: AttemptRow) => a.outboxId !in ids)
  }

  /** Outbox rows deleted with their attempts and their events. */
  function WithoutRows(db: Database, ids: set<nat>): Database {
    db.(attempts := WithoutOutboxIds(db.attempts, ids),
        outbox := db.outbox - ids,
        events := db.events - EventIdsOf(db, ids))
  }

  function PurgeBefore(db: Database, cutoff: Instant, watch: Option<WatchId>): Database {
    WithoutRows(db, PurgeTargets(db, cutoff, watch))
    .(observations := db.observations - ExpiredObservations(db, cutoff, watch))
  }

  function EventsOfWatch(db: Database, watchId: WatchId): set<EventId> {
    set e | e in db.events && db.events[e].event.watchId == watchId
  }

  function OutboxOfEvents(db: Database, events: set<EventId>): set<nat> {
    set id | id in db.outbox && db.outbox[id].eventId in events
  }

  function ObservationsOfWatch(db: Database, watchId: WatchId): set<ObservationId> {
    set o | o in db.observations && db.observations[o].watchId == watchId
  }

  predicate HasUndelivered(db: Database, watchId: WatchId) {
    exists id :: id in db.outbox && !Terminal(db.outbox[id].status)
                 && db.outbox[id].eventId in EventsOfWatch(db, watchId)
  }

  function WithoutEventIds(attempts: seq<AttemptRow>, events: set<EventId>): seq<AttemptRow> {
    Filter(attempts, (a: AttemptRow) => a.eventId !in events)
  }

  function DeleteWatch(db: Database, watchId: WatchId, allowUndelivered: bool): Result<Database> {
    if HasUndelivered(db, watchId) && !allowUndelivered then
      Err(UndeliveredEvents)
    else
      var events := EventsOfWatch(db, watchId);
      Ok(db.(attempts := WithoutEventIds(db.attempts, events),
             outbox := db.outbox - OutboxOfEvents(db, events),
             events := db.events - events,
             authority := db.authority - {watchId},
             observations := db.observations - ObservationsOfWatch(db, watchId),
             watches := db.watches - {watchId}))
  }

  /** The row counts that purge_before and delete_watch report. */
  function RowsRemoved(before: Database, after: Database): PurgeResult {
    PurgeResult(|before.observations| - |after.observations|,
                |before.events| - |after.events|,
                |before.outbox| - |after.outbox|,
                |before.attempts| - |after.attempts|,
                |before.watches| - |after.watches|)
  }
}
