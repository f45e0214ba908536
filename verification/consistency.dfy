/**
 The cross-table invariant: which rows may stand together in the six tables. Every transaction keeps
 it, whatever its arguments are and in whatever order transactions commit.
 */
module Consistency {
  import opened Entities
  import opened Sequences
  import opened Tables

  type Outbox = map<nat, OutboxRow>
  type Events = map<EventId, EventRow>
  type Observations = map<ObservationId, ObservationRow>
  type Watches = map<WatchId, WatchRow>

  /** AUTOINCREMENT: a live outbox_id was handed out by the counter. */
  ghost predicate OutboxNumbered(outbox: Outbox, sequence: nat) {
    forall id :: id in outbox ==> 1 <= id <= sequence
  }

  /** Events and outbox rows are in bijection: foreign key, UNIQUE(event_id), and one outbox row per event. */
  ghost predicate EventsPaired(events: Events, outbox: Outbox) {
    && (forall id :: id in outbox ==> outbox[id].eventId in events)
    && (forall i, j :: i in outbox && j in outbox && outbox[i].eventId == outbox[j].eventId ==> i == j)
    && (forall e :: e in events ==> exists id :: id in outbox && outbox[id].eventId == e)
  }

  ghost predicate EventsOwned(events: Events, watches: Watches) {
    forall e :: e in events ==> events[e].event.eventId == e && events[e].event.watchId in watches
  }

  ghost predicate ObservationsOwned(observations: Observations, watches: Watches) {
    forall o :: o in observations ==> observations[o].watchId in watches
  }

  /** Authority is a live VALID observation of the same watch, and caches its state and its time. */
  ghost predicate AuthorityBacked(
    authority: map<WatchId, AuthorityRow>, observations: Observations, watches: Watches)
  {
    forall w :: w in authority ==> w in watches && RowBacked(authority[w], w, observations)
  }

  ghost predicate RowBacked(row: AuthorityRow, w: WatchId, observations: Observations) {
    && row.observationId in observations
    && observations[row.observationId].watchId == w
    && observations[row.observationId].observation.status == Valid
    && observations[row.observationId].observation.state == row.state
    && observations[row.observationId].observation.observedAt == row.observedAt
  }

  /** What each status says about the other columns. */
  ghost predicate RowShaped(row: OutboxRow) {
    && (row.nextAttemptAt.Some? <==> !Terminal(row.status))
    && (row.lockedAt.Some? <==> row.status == Delivering)
    && (row.deliveredAt.Some? <==> row.status == Delivered)
    && (row.status == Pending ==> row.attempts == 0)
    && (Terminal(row.status) ==> row.attempts >= 1)
    && (row.status == Delivered ==> row.lastError.None?)
  }

  ghost predicate RowsShaped(outbox: Outbox) {
    forall id :: id in outbox ==> RowShaped(outbox[id])
  }

  function LogOf(attempts: seq<AttemptRow>, id: nat): seq<AttemptRow> {
    Filter(attempts, (a: AttemptRow) => a.outboxId == id)
  }

  /**
   The attempts of an outbox row are numbered 1..attempts, and all failed except a last one that
   succeeded exactly when the row is DELIVERED; the row repeats the time or the error of the last one.
   */
  ghost predicate ExactLog(row: OutboxRow, log: seq<AttemptRow>) {
    && |log| == row.attempts
    && (forall k :: 0 <= k < |log| ==>
          && log[k].attemptNumber == k + 1
          && log[k].eventId == row.eventId
          && (log[k].status == Succeeded <==> row.status == Delivered && k == |log| - 1)
          && (log[k].status == Succeeded <==> log[k].error.None?))
    && (row.status == Delivered && |log| > 0 ==> row.deliveredAt == Some(log[|log| - 1].attemptedAt))
    && (row.status != Delivered && |log| > 0 ==> row.lastError == log[|log| - 1].error)
  }

  ghost predicate LogsExact(outbox: Outbox, attempts: seq<AttemptRow>) {
    forall id :: id in outbox ==> ExactLog(outbox[id], LogOf(attempts, id))
  }

  /** Both foreign keys of delivery_attempts, and the agreement between them. */
  ghost predicate AttemptsLinked(attempts: seq<AttemptRow>, outbox: Outbox) {
    forall a :: a in attempts ==> a.outboxId in outbox && outbox[a.outboxId].eventId == a.eventId
  }

  ghost predicate AttemptsOrdered(attempts: seq<AttemptRow>, sequence: nat) {
    && (forall k :: 0 <= k < |attempts| ==> 1 <= attempts[k].attemptId <= sequence)
    && (forall j, k :: 0 <= j < k < |attempts| ==> attempts[j].attemptId < attempts[k].attemptId)
  }

  ghost predicate Consistent(db: Database) {
    && OutboxNumbered(db.outbox, db.outboxSequence)
    && EventsPaired(db.events, db.outbox)
    && EventsOwned(db.events, db.watches)
    && ObservationsOwned(db.observations, db.watches)
    && AuthorityBacked(db.authority, db.observations, db.watches)
    && RowsShaped(db.outbox)
    && LogsExact(db.outbox, db.attempts)
    && AttemptsLinked(db.attempts, db.outbox)
    && AttemptsOrdered(db.attempts, db.attemptSequence)
  }

  lemma EmptyIsConsistent()
    ensures Consistent(EMPTY_DATABASE)
  {
  }

  // ---------------------------------------------------------------- observations and promotion

  lemma EnsureWatchConsistent(db: Database, w: WatchId)
    requires Consistent(db)
    ensures Consistent(EnsureWatch(db, w))
  {
  }

  lemma PersistConsistent(db: Database, w: WatchId, id: ObservationId, observation: Observation, now: Instant)
    requires Consistent(db)
    ensures var r := Persist(db, w, id, observation, now);
            r.Ok? ==> Consistent(r.value)
  {
    EnsureWatchConsistent(db, w);
  }

  lemma InsertEventPaired(db: Database, event: WatchEvent, now: Instant)
    requires OutboxNumbered(db.outbox, db.outboxSequence) && EventsPaired(db.events, db.outbox)
    requires event.eventId !in db.events
    ensures var after := InsertEvent(db, event, now); EventsPaired(after.events, after.outbox)
  {
    var after := InsertEvent(db, event, now);
    var newId := db.outboxSequence + 1;
    forall e | e in after.events
      ensures exists id :: id in after.outbox && after.outbox[id].eventId == e
    {
      if e == event.eventId {
        assert after.outbox[newId].eventId == e;
      } else {
        var id :| id in db.outbox && db.outbox[id].eventId == e;
        assert after.outbox[id].eventId == e;
      }
    }
  }

  lemma InsertEventLogs(db: Database, event: WatchEvent, now: Instant)
    requires OutboxNumbered(db.outbox, db.outboxSequence)
    requires LogsExact(db.outbox, db.attempts) && AttemptsLinked(db.attempts, db.outbox)
    ensures var after := InsertEvent(db, event, now);
            LogsExact(after.outbox, after.attempts) && AttemptsLinked(after.attempts, after.outbox)
  {
    var newId := db.outboxSequence + 1;
    FilterNone(db.attempts, (a: AttemptRow) => a.outboxId == newId);
  }

  lemma InsertEventOwned(db: Database, event: WatchEvent, now: Instant)
    requires OutboxNumbered(db.outbox, db.outboxSequence) && RowsShaped(db.outbox)
    requires EventsOwned(db.events, db.watches) && event.watchId in db.watches
    ensures var after := InsertEvent(db, event, now);
            && OutboxNumbered(after.outbox, after.outboxSequence)
            && RowsShaped(after.outbox)
            && EventsOwned(after.events, after.watches)
  {
  }

  lemma InsertEventConsistent(db: Database, event: WatchEvent, now: Instant)
    requires Consistent(db)
    requires event.eventId !in db.events && event.watchId in db.watches
    ensures Consistent(InsertEvent(db, event, now))
  {
    hide OutboxNumbered, EventsPaired, EventsOwned, ObservationsOwned, AuthorityBacked, RowsShaped, LogsExact;
    hide AttemptsLinked, AttemptsOrdered;
    InsertEventPaired(db, event, now);
    InsertEventOwned(db, event, now);
    InsertEventLogs(db, event, now);
  }

  lemma {:induction false} InsertEventsConsistent(
    db: Database, w: WatchId, observation: Observation, drafts: seq<EventDraft>,
    factory: seq<Option<EventId>>, now: Instant)
    requires Consistent(db) && w in db.watches
    ensures var r := InsertEvents(db, w, observation, drafts, factory, now);
            r.Ok? ==>
              && Consistent(r.value.db)
              && r.value.db.watches == db.watches
              && r.value.db.observations == db.observations
              && r.value.db.authority == db.authority
    decreases drafts
  {
    if drafts != [] && factory != [] && factory[0].Some? && factory[0].value !in db.events {
      var event := EventFromDraft(w, factory[0].value, observation, drafts[0]);
      InsertEventConsistent(db, event, now);
      InsertEventsConsistent(InsertEvent(db, event, now), w, observation, drafts[1..], factory[1..], now);
    }
  }

  /** The observation, when it is there, is VALID: only then does record_observation promote. */
  lemma PromoteConsistent(
    db: Database, w: WatchId, id: ObservationId, policy: Policy, factory: seq<Option<EventId>>, now: Instant)
    requires Consistent(db)
    requires id in db.observations ==> db.observations[id].observation.status == Valid
    ensures var r := Promote(db, w, id, policy, factory, now);
            r.Ok? ==> Consistent(r.value.db)
  {
    var r := Promote(db, w, id, policy, factory, now);
    if r.Ok? {
      var current := db.observations[id].observation;
      var drafts := policy(ReadAuthoritative(db, w), current);
      if drafts.Some? {
        InsertEventsConsistent(db, w, current, drafts.value, factory, now);
      }
    }
  }

  // ---------------------------------------------------------------- the outbox

  /** Replacing rows in place, their event ids kept, keeps the pairing with the events. */
  lemma ReplacedRowsPaired(events: Events, outbox: Outbox, after: Outbox)
    requires EventsPaired(events, outbox)
    requires after.Keys == outbox.Keys
    requires forall id :: id in outbox ==> after[id].eventId == outbox[id].eventId
    ensures EventsPaired(events, after)
  {
    forall e | e in events
      ensures exists id :: id in after && after[id].eventId == e
    {
      var id :| id in outbox && outbox[id].eventId == e;
      assert after[id].eventId == e;
    }
  }

  lemma ReplacedRowsLinked(db: Database, after: Outbox)
    requires OutboxNumbered(db.outbox, db.outboxSequence) && EventsPaired(db.events, db.outbox)
    requires AttemptsLinked(db.attempts, db.outbox)
    requires after.Keys == db.outbox.Keys
    requires forall id :: id in db.outbox ==> after[id].eventId == db.outbox[id].eventId
    ensures OutboxNumbered(after, db.outboxSequence) && EventsPaired(db.events, after)
    ensures AttemptsLinked(db.attempts, after)
  {
    ReplacedRowsPaired(db.events, db.outbox, after);
  }

  lemma RecoveredRow(row: OutboxRow, log: seq<AttemptRow>, now: Instant)
    requires RowShaped(row) && ExactLog(row, log)
    ensures RowShaped(Recovered(row, now)) && ExactLog(Recovered(row, now), log)
  {
  }

  lemma RecoverRows(db: Database, now: Instant)
    requires RowsShaped(db.outbox) && LogsExact(db.outbox, db.attempts)
    ensures var after := RecoverInFlight(db, now);
            RowsShaped(after.outbox) && LogsExact(after.outbox, after.attempts)
  {
    forall id | id in db.outbox
      ensures RowShaped(Recovered(db.outbox[id], now))
      ensures ExactLog(Recovered(db.outbox[id], now), LogOf(db.attempts, id))
    {
      RecoveredRow(db.outbox[id], LogOf(db.attempts, id), now);
    }
  }

  lemma RecoverConsistent(db: Database, now: Instant)
    requires Consistent(db)
    ensures Consistent(RecoverInFlight(db, now))
  {
    var after := RecoverInFlight(db, now).outbox;
    ReplacedRowsLinked(db, after);
    RecoverRows(db, now);
    hide OutboxNumbered, EventsPaired, EventsOwned, ObservationsOwned, AuthorityBacked, RowsShaped, LogsExact;
    hide AttemptsLinked, AttemptsOrdered;
  }

  lemma LockedRow(row: OutboxRow, log: seq<AttemptRow>, now: Instant)
    requires RowShaped(row) && ExactLog(row, log) && !Terminal(row.status)
    ensures RowShaped(Locked(row, now)) && ExactLog(Locked(row, now), log)
  {
  }

  lemma LockRows(outbox: Outbox, attempts: seq<AttemptRow>, ids: seq<nat>, now: Instant)
    requires RowsShaped(outbox) && LogsExact(outbox, attempts)
    requires forall id :: id in ids ==> id in outbox && !Terminal(outbox[id].status)
    ensures RowsShaped(LockAll(outbox, ids, now)) && LogsExact(LockAll(outbox, ids, now), attempts)
  {
    forall id | id in ids
      ensures RowShaped(Locked(outbox[id], now))
      ensures ExactLog(Locked(outbox[id], now), LogOf(attempts, id))
    {
      LockedRow(outbox[id], LogOf(attempts, id), now);
    }
  }

  lemma ClaimConsistent(db: Database, now: Instant, limit: int)
    requires Consistent(db)
    ensures var r := ClaimDue(db, now, limit);
            r.Ok? ==> Consistent(r.value.db)
  {
    var r := ClaimDue(db, now, limit);
    if r.Ok? {
      ReplacedRowsLinked(db, r.value.db.outbox);
      LockRows(db.outbox, db.attempts, DueFrom(db, now, 1, limit), now);
    }
    hide OutboxNumbered, EventsPaired, EventsOwned, ObservationsOwned, AuthorityBacked, RowsShaped, LogsExact;
    hide AttemptsLinked, AttemptsOrdered;
  }

  /** Appending an attempt extends the log of its own row only. */
  lemma LogAppend(attempts: seq<AttemptRow>, a: AttemptRow, id: nat)
    ensures LogOf(attempts + [a], id) == if a.outboxId == id then LogOf(attempts, id) + [a] else LogOf(attempts, id)
  {
    FilterAppend(attempts, [a], (x: AttemptRow) => x.outboxId == id);
  }

  /** The row that an acknowledgement writes and the attempt that it appends agree. */
  ghost predicate Agrees(row: OutboxRow, a: AttemptRow) {
    && RowShaped(row)
    && row.eventId == a.eventId && row.attempts == a.attemptNumber && row.attempts > 0
    && (a.status == Succeeded <==> row.status == Delivered)
    && (a.status == Succeeded <==> a.error.None?)
    && (row.status == Delivered ==> row.deliveredAt == Some(a.attemptedAt))
    && (row.status != Delivered ==> row.lastError == a.error)
  }

  lemma ExtendedLog(before: OutboxRow, log: seq<AttemptRow>, row: OutboxRow, a: AttemptRow)
    requires ExactLog(before, log) && before.status != Delivered
    requires Agrees(row, a) && row.attempts == before.attempts + 1 && row.eventId == before.eventId
    ensures ExactLog(row, log + [a])
  {
  }

  lemma AcknowledgeLogs(
    outbox: Outbox, attempts: seq<AttemptRow>, id: nat, row: OutboxRow, a: AttemptRow)
    requires LogsExact(outbox, attempts) && AttemptsLinked(attempts, outbox)
    requires id in outbox && outbox[id].status == Delivering && a.outboxId == id
    requires Agrees(row, a) && row.attempts == outbox[id].attempts + 1 && row.eventId == outbox[id].eventId
    ensures LogsExact(outbox[id := row], attempts + [a])
    ensures AttemptsLinked(attempts + [a], outbox[id := row])
  {
    var after := outbox[id := row];
    forall other | other in after
      ensures ExactLog(after[other], LogOf(attempts + [a], other))
    {
      LogAppend(attempts, a, other);
      if other == id {
        ExtendedLog(outbox[id], LogOf(attempts, id), row, a);
      }
    }
  }

  lemma AppendOrdered(attempts: seq<AttemptRow>, a: AttemptRow, sequence: nat)
    requires AttemptsOrdered(attempts, sequence) && a.attemptId == sequence + 1
    ensures AttemptsOrdered(attempts + [a], sequence + 1)
  {
  }

  lemma AcknowledgeConsistent(
    db: Database, claim: ClaimedEvent, row: OutboxRow, now: Instant, status: AttemptStatus, error: Option<string>)
    requires Consistent(db) && Matches(db, claim)
    requires Agrees(row, AttemptOf(db, claim, now, status, error))
    ensures Consistent(Acknowledge(db, claim, row, now, status, error))
  {
    hide ExactLog, LogOf;
    ReplacedRowsLinked(db, db.outbox[claim.outboxId := row]);
    assert RowsShaped(db.outbox[claim.outboxId := row]);
    AppendOrdered(db.attempts, AttemptOf(db, claim, now, status, error), db.attemptSequence);
    AcknowledgeLogs(db.outbox, db.attempts, claim.outboxId, row, AttemptOf(db, claim, now, status, error));
    hide OutboxNumbered, EventsPaired, EventsOwned, ObservationsOwned, AuthorityBacked, RowsShaped, LogsExact;
    hide AttemptsLinked, AttemptsOrdered;
  }

  lemma RecordSuccessConsistent(db: Database, claim: ClaimedEvent, now: Instant)
    requires Consistent(db)
    ensures var r := RecordSuccess(db, claim, now);
            r.Ok? ==> Consistent(r.value)
  {
    assert Matches(db, claim) ==> RowShaped(db.outbox[claim.outboxId]);
    hide Consistent, LogOf;
    if Matches(db, claim) {
      AcknowledgeConsistent(db, claim, DeliveredRow(db.outbox[claim.outboxId], now), now, Succeeded, None);
    }
  }

  lemma RecordFailureConsistent(
    db: Database, claim: ClaimedEvent, error: string, retryAt: Option<Instant>, now: Instant)
    requires Consistent(db)
    ensures var r := RecordFailure(db, claim, error, retryAt, now);
            r.Ok? ==> Consistent(r.value)
  {
    assert Matches(db, claim) ==> RowShaped(db.outbox[claim.outboxId]);
    hide Consistent, LogOf;
    if Matches(db, claim) {
      AcknowledgeConsistent(db, claim, FailedRow(db.outbox[claim.outboxId], error, retryAt, now), now,
                            AttemptFailed, Some(error));
    }
  }

  // ---------------------------------------------------------------- retention

  /** Removing other rows' attempts leaves a log alone. */
  lemma {:induction false} LogUnaffected(attempts: seq<AttemptRow>, keep: AttemptRow -> bool, id: nat)
    requires forall a :: a in attempts && a.outboxId == id ==> keep(a)
    ensures LogOf(Filter(attempts, keep), id) == LogOf(attempts, id)
  {
    FilterFilter(attempts, keep, (a: AttemptRow) => a.outboxId == id, (a: AttemptRow) => a.outboxId == id);
  }

  lemma {:induction false} FilterOrdered(attempts: seq<AttemptRow>, keep: AttemptRow -> bool, sequence: nat)
    requires AttemptsOrdered(attempts, sequence)
    ensures AttemptsOrdered(Filter(attempts, keep), sequence)
  {
    if attempts != [] {
      var rest := Filter(attempts[1..], keep);
      FilterOrdered(attempts[1..], keep, sequence);
      FilterMembers(attempts[1..], keep);
      forall k | 0 <= k < |rest|
        ensures attempts[0].attemptId < rest[k].attemptId
      {
        assert rest[k] in attempts[1..];
      }
    }
  }

  /**
   A deletion is safe when it removes a set of outbox rows together with exactly their events and
   exactly their attempts: this is what both cascades do.
   */
  lemma {:induction false} CascadeLogs(
    outbox: Outbox, attempts: seq<AttemptRow>, ids: set<nat>, keep: AttemptRow -> bool)
    requires LogsExact(outbox, attempts) && AttemptsLinked(attempts, outbox)
    requires forall a :: a in attempts ==> (keep(a) <==> a.outboxId !in ids)
    ensures LogsExact(outbox - ids, Filter(attempts, keep))
    ensures AttemptsLinked(Filter(attempts, keep), outbox - ids)
  {
    forall id | id in outbox - ids
      ensures ExactLog((outbox - ids)[id], LogOf(Filter(attempts, keep), id))
    {
      LogUnaffected(attempts, keep, id);
    }
    FilterMembers(attempts, keep);
  }

  lemma CascadePaired(db: Database, ids: set<nat>)
    requires EventsPaired(db.events, db.outbox)
    ensures EventsPaired(db.events - EventIdsOf(db, ids), db.outbox - ids)
  {
    var events, outbox := db.events - EventIdsOf(db, ids), db.outbox - ids;
    forall e | e in events
      ensures exists id :: id in outbox && outbox[id].eventId == e
    {
      var id :| id in db.outbox && db.outbox[id].eventId == e;
      assert id in outbox;
    }
  }

  lemma PurgeConsistent(db: Database, cutoff: Instant, watch: Option<WatchId>)
    requires Consistent(db)
    ensures Consistent(PurgeBefore(db, cutoff, watch))
  {
    var targets := PurgeTargets(db, cutoff, watch);
    CascadePaired(db, targets);
    CascadeLogs(db.outbox, db.attempts, targets, (a: AttemptRow) => a.outboxId !in targets);
    FilterOrdered(db.attempts, (a: AttemptRow) => a.outboxId !in targets, db.attemptSequence);
  }

  /** The outbox rows of a watch's events own exactly these events. */
  lemma WatchOutboxEvents(db: Database, w: WatchId)
    requires EventsPaired(db.events, db.outbox)
    ensures EventIdsOf(db, OutboxOfEvents(db, EventsOfWatch(db, w))) == EventsOfWatch(db, w)
  {
    var events := EventsOfWatch(db, w);
    forall e | e in events
      ensures e in EventIdsOf(db, OutboxOfEvents(db, events))
    {
      var id :| id in db.outbox && db.outbox[id].eventId == e;
      assert id in OutboxOfEvents(db, events);
    }
  }

  lemma DeleteOwned(db: Database, w: WatchId)
    requires EventsOwned(db.events, db.watches) && ObservationsOwned(db.observations, db.watches)
    requires AuthorityBacked(db.authority, db.observations, db.watches)
    ensures EventsOwned(db.events - EventsOfWatch(db, w), db.watches - {w})
    ensures ObservationsOwned(db.observations - ObservationsOfWatch(db, w), db.watches - {w})
    ensures AuthorityBacked(db.authority - {w}, db.observations - ObservationsOfWatch(db, w), db.watches - {w})
  {
  }

  lemma DeleteConsistent(db: Database, w: WatchId, allow: bool)
    requires Consistent(db)
    ensures var r := DeleteWatch(db, w, allow);
            r.Ok? ==> Consistent(r.value)
  {
    var events := EventsOfWatch(db, w);
    var ids := OutboxOfEvents(db, events);
    DeleteOwned(db, w);
    WatchOutboxEvents(db, w);
    CascadePaired(db, ids);
    CascadeLogs(db.outbox, db.attempts, ids, (a: AttemptRow) => a.eventId !in events);
    FilterOrdered(db.attempts, (a: AttemptRow) => a.eventId !in events, db.attemptSequence);
  }
}
