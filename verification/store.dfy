/**
 SQLiteStore: the transactions of tables.dfy carried out statement by statement. A statement's
 precondition is the foreign keys and unique constraints that SQLite would check for it, so each call
 proves that the statement does not raise; the constraints that can fail are answered by a result.
 */
module Store {
  import opened Entities
  import opened Sequences
  import opened Timestamps
  import T = Tables
  import opened Consistency
  import opened Claims
  import opened Removal

  class SQLiteStore {
    var watches: map<WatchId, WatchRow>
    var observations: map<ObservationId, ObservationRow>
    var authority: map<WatchId, AuthorityRow>
    var events: map<EventId, EventRow>
    var outbox: map<nat, OutboxRow>
    var outboxSequence: nat
    var attempts: seq<AttemptRow>
    var attemptSequence: nat

    function Snapshot(): T.Database
      reads this
    {
      T.Database(watches, observations, authority, events, outbox, outboxSequence, attempts, attemptSequence)
    }

    ghost predicate Valid()
      reads this
    {
      Consistent(Snapshot())
    }

    constructor ()
      ensures Valid() && Snapshot() == T.EMPTY_DATABASE
    {
      watches, observations, authority, events := map[], map[], map[], map[];
      outbox, outboxSequence, attempts, attemptSequence := map[], 0, [], 0;
    }

    /** ROLLBACK to the tables at BEGIN. */
    method Rollback(saved: T.Database)
      modifies this
      ensures Snapshot() == saved
    {
      watches, observations, authority, events := saved.watches, saved.observations, saved.authority, saved.events;
      outbox, outboxSequence := saved.outbox, saved.outboxSequence;
      attempts, attemptSequence := saved.attempts, saved.attemptSequence;
    }

    // -------------------------------------------------------------- statements

    method EnsureWatch(watchId: WatchId)
      modifies `watches
      ensures Snapshot() == T.EnsureWatch(old(Snapshot()), watchId)
    {
      if watchId !in watches {
        watches := watches[watchId := WatchRow(0)];
      }
    }

    method InsertObservationRow(id: ObservationId, row: ObservationRow) returns (inserted: bool)
      requires row.watchId in Snapshot().watches
      modifies `observations
      ensures var db := old(Snapshot());
              && (inserted <==> id !in db.observations)
              && Snapshot() == if inserted then db.(observations := db.observations[id := row]) else db
    {
      inserted := id !in observations;
      if inserted {
        observations := observations[id := row];
      }
    }

    method CountExecution(watchId: WatchId)
      requires watchId in Snapshot().watches
      modifies `watches
      ensures var db := old(Snapshot());
              Snapshot() == db.(watches := db.watches[watchId := WatchRow(db.watches[watchId].executionCount + 1)])
    {
      watches := watches[watchId := WatchRow(watches[watchId].executionCount + 1)];
    }

    method InsertEventRow(row: EventRow) returns (inserted: bool)
      requires row.event.watchId in Snapshot().watches
      modifies `events
      ensures var db := old(Snapshot());
              && (inserted <==> row.event.eventId !in db.events)
              && Snapshot() == if inserted then db.(events := db.events[row.event.eventId := row]) else db
    {
      inserted := row.event.eventId !in events;
      if inserted {
        events := events[row.event.eventId := row];
      }
    }

    method InsertOutbox(eventId: EventId, now: Instant)
      requires eventId in Snapshot().events && EventIdFree(Snapshot().outbox, eventId)
      modifies `outbox, `outboxSequence
      ensures var db := old(Snapshot());
              Snapshot() == db.(outbox := db.outbox[db.outboxSequence + 1 := T.PendingRow(eventId, now)],
                                outboxSequence := db.outboxSequence + 1)
    {
      outboxSequence := outboxSequence + 1;
      outbox := outbox[outboxSequence := T.PendingRow(eventId, now)];
    }

    method UpsertAuthority(watchId: WatchId, row: AuthorityRow)
      requires watchId in watches && row.observationId in observations
      modifies `authority
      ensures authority == old(authority)[watchId := row]
    {
      authority := authority[watchId := row];
    }

    method InsertAttempt(claim: ClaimedEvent, now: Instant, status: AttemptStatus, error: Option<string>)
      requires claim.outboxId in Snapshot().outbox && claim.event.eventId in Snapshot().events
      modifies `attempts, `attemptSequence
      ensures var db := old(Snapshot());
              Snapshot() == db.(attempts := db.attempts + [T.AttemptOf(db, claim, now, status, error)],
                                attemptSequence := db.attemptSequence + 1)
    {
      attemptSequence := attemptSequence + 1;
      attempts := attempts + [AttemptRow(attemptSequence, claim.outboxId, claim.event.eventId, claim.attempts + 1,
                                         now, status, error)];
    }

    method DeleteAttemptsOfRows(ids: set<nat>) returns (rowcount: int)
      modifies `attempts
      ensures var db := old(Snapshot());
              && Snapshot() == db.(attempts := T.WithoutOutboxIds(db.attempts, ids))
              && rowcount == |db.attempts| - |Snapshot().attempts|
    {
      rowcount := |attempts|;
      attempts := T.WithoutOutboxIds(attempts, ids);
      rowcount := rowcount - |attempts|;
    }

    method DeleteAttemptsOfEvents(ids: set<EventId>) returns (rowcount: int)
      modifies `attempts
      ensures var db := old(Snapshot());
              && Snapshot() == db.(attempts := T.WithoutEventIds(db.attempts, ids))
              && rowcount == |db.attempts| - |Snapshot().attempts|
    {
      rowcount := |attempts|;
      attempts := T.WithoutEventIds(attempts, ids);
      rowcount := rowcount - |attempts|;
    }

    method DeleteOutboxRows(ids: set<nat>) returns (rowcount: int)
      requires OutboxUnreferenced(Snapshot(), ids)
      modifies `outbox
      ensures var db := old(Snapshot());
              && Snapshot() == db.(outbox := db.outbox - ids)
              && rowcount == |db.outbox| - |Snapshot().outbox|
    {
      rowcount := |outbox|;
      outbox := outbox - ids;
      rowcount := rowcount - |outbox|;
    }

    method DeleteEventRows(ids: set<EventId>) returns (rowcount: int)
      requires EventsUnreferenced(Snapshot(), ids)
      modifies `events
      ensures var db := old(Snapshot());
              && Snapshot() == db.(events := db.events - ids)
              && rowcount == |db.events| - |Snapshot().events|
    {
      rowcount := |events|;
      events := events - ids;
      rowcount := rowcount - |events|;
    }

    method DeleteAuthorityRow(watchId: WatchId)
      modifies `authority
      ensures Snapshot() == old(Snapshot()).(authority := old(Snapshot()).authority - {watchId})
    {
      authority := authority - {watchId};
    }

    method DeleteObservationRows(ids: set<ObservationId>) returns (rowcount: int)
      requires ObservationsUnreferenced(Snapshot(), ids)
      modifies `observations
      ensures var db := old(Snapshot());
              && Snapshot() == db.(observations := db.observations - ids)
              && rowcount == |db.observations| - |Snapshot().observations|
    {
      rowcount := |observations|;
      observations := observations - ids;
      rowcount := rowcount - |observations|;
    }

    method DeleteWatchRow(watchId: WatchId) returns (rowcount: int)
      requires WatchUnreferenced(Snapshot(), watchId)
      modifies `watches
      ensures var db := old(Snapshot());
              && Snapshot() == db.(watches := db.watches - {watchId})
              && rowcount == |db.watches| - |Snapshot().watches|
    {
      rowcount := |watches|;
      watches := watches - {watchId};
      rowcount := rowcount - |watches|;
    }

    // -------------------------------------------------------------- observations and promotion

    method MarkRunStarted(watchId: WatchId)
      requires Valid()
      modifies this
      ensures Valid() && Snapshot() == T.EnsureWatch(old(Snapshot()), watchId)
    {
      EnsureWatchConsistent(Snapshot(), watchId);
      EnsureWatch(watchId);
    }

    method PersistObservation(watchId: WatchId, id: ObservationId, observation: Observation, now: Instant)
      returns (r: Result<()>)
      requires Valid()
      modifies this
      ensures Valid()
      ensures r.Ok? ==> T.Persist(old(Snapshot()), watchId, id, observation, now) == Ok(Snapshot())
      ensures r.Err? ==> T.Persist(old(Snapshot()), watchId, id, observation, now) == Err(r.error)
                         && Snapshot() == old(Snapshot())
    {
      hide Snapshot, Consistent, T.Persist, T.EnsureWatch;
      var saved := Snapshot();
      PersistConsistent(saved, watchId, id, observation, now);
      PersistedTables(saved, watchId, id, observation, now);
      EnsureWatch(watchId);
      var inserted := InsertObservationRow(id, ObservationRow(watchId, observation, now));
      if !inserted {
        Rollback(saved);
        return Err(IntegrityError);
      }
      CountExecution(watchId);
      r := Ok(());
    }

    /** One event row and its outbox row; a duplicate event id leaves the tables alone. */
    method InsertEvent(event: WatchEvent, now: Instant) returns (inserted: bool)
      requires event.watchId in Snapshot().watches
      requires event.eventId !in Snapshot().events ==> EventIdFree(Snapshot().outbox, event.eventId)
      modifies `events, `outbox, `outboxSequence
      ensures inserted <==> event.eventId !in old(Snapshot()).events
      ensures Snapshot() == if inserted then T.InsertEvent(old(Snapshot()), event, now) else old(Snapshot())
    {
      EventThenOutbox(Snapshot(), event, now);
      hide Snapshot, EventIdFree, T.PendingRow, T.InsertEvent;
      inserted := InsertEventRow(EventRow(event, now));
      if inserted {
        InsertOutbox(event.eventId, now);
      }
    }

    /** The loop of _insert_events; on an error the caller rolls back. */
    method InsertEvents(
      watchId: WatchId, observation: Observation, drafts: seq<EventDraft>, factory: seq<Option<EventId>>, now: Instant)
      returns (r: Result<seq<WatchEvent>>)
      requires Valid() && watchId in watches
      modifies `events, `outbox, `outboxSequence
      ensures match T.InsertEvents(old(Snapshot()), watchId, observation, drafts, factory, now)
              case Ok(done) => r == Ok(done.events) && Snapshot() == done.db
              case Err(error) => r == Err(error)
    {
      hide Consistent, T.InsertEvent, T.EventFromDraft, EventIdFree;
      var created: seq<WatchEvent> := [];
      var i := 0;
      assert drafts[0..] == drafts && factory[0..] == factory;
      NothingCreated(Snapshot(), watchId, observation, drafts, factory, now);
      while i < |drafts|
        invariant 0 <= i <= |drafts| && i <= |factory|
        invariant Valid()
        invariant T.InsertEvents(old(Snapshot()), watchId, observation, drafts, factory, now)
               == After(created, T.InsertEvents(Snapshot(), watchId, observation, drafts[i..], factory[i..], now))
      {
        if i >= |factory| || factory[i].None? {
          return Err(EventIdError);
        }
        var event := T.EventFromDraft(watchId, factory[i].value, observation, drafts[i]);
        OneEventMore(Snapshot(), watchId, observation, drafts, factory, now, i, created);
        InsertionAllowed(Snapshot(), event, now);
        var inserted := InsertEvent(event, now);
        if !inserted {
          return Err(IntegrityError);
        }
        created := created + [event];
        i := i + 1;
      }
      assert created + [] == created;
      r := Ok(created);
    }

    method PromoteValidObservation(
      watchId: WatchId, id: ObservationId, policy: Policy, factory: seq<Option<EventId>>, now: Instant)
      returns (r: Result<seq<WatchEvent>>)
      requires Valid()
      requires id in Snapshot().observations ==>
                 Snapshot().observations[id].observation.status == ObservationStatus.Valid
      modifies this
      ensures Valid()
      ensures match T.Promote(old(Snapshot()), watchId, id, policy, factory, now)
              case Ok(done) => r == Ok(done.events) && Snapshot() == done.db
              case Err(error) => r == Err(error) && Snapshot() == old(Snapshot())
    {
      var saved := Snapshot();
      PromoteConsistent(saved, watchId, id, policy, factory, now);
      if id !in observations || observations[id].watchId != watchId {
        return Err(MissingObservation);
      }
      var current := observations[id].observation;
      var previous := T.ReadAuthoritative(Snapshot(), watchId);
      if previous.Some? && current.observedAt <= previous.value.observedAt {
        return Ok([]);
      }
      var drafts := policy(previous, current);
      if drafts.None? {
        return Err(PolicyError);
      }
      r := InsertEvents(watchId, current, drafts.value, factory, now);
      if r.Err? {
        Rollback(saved);
        return;
      }
      InsertEventsConsistent(saved, watchId, current, drafts.value, factory, now);
      UpsertAuthority(watchId, AuthorityRow(id, current.state, current.observedAt, now));
    }

    method RecordObservation(
      watchId: WatchId, id: Option<ObservationId>, observation: Observation, policy: Policy,
      factory: seq<Option<EventId>>, now: Instant)
      returns (r: Result<seq<WatchEvent>>)
      requires Valid()
      modifies this
      ensures Valid()
      ensures T.RecordObservation(old(Snapshot()), watchId, id, observation, policy, factory, now)
              == T.Recorded(Snapshot(), r)
    {
      if id.None? {
        return Err(ObservationIdError);
      }
      var kept := PersistObservation(watchId, id.value, observation, now);
      if kept.Err? {
        return Err(kept.error);
      }
      if observation.status != ObservationStatus.Valid {
        return Ok([]);
      }
      r := PromoteValidObservation(watchId, id.value, policy, factory, now);
    }

    // -------------------------------------------------------------- the outbox

    method RecoverInFlight(now: Instant) returns (rowcount: nat)
      requires Valid()
      modifies this
      ensures Valid() && Snapshot() == T.RecoverInFlight(old(Snapshot()), now)
      ensures rowcount == |set id | id in old(outbox) && old(outbox)[id].status == Delivering|
    {
      hide Consistent;
      RecoverConsistent(Snapshot(), now);
      var inFlight := set id | id in outbox && outbox[id].status == Delivering;
      outbox := map id | id in outbox :: T.Recovered(outbox[id], now);
      rowcount := |inFlight|;
    }

    /** WHERE status IN ('PENDING', 'RETRY') and the rewritten retry time is at most the parameter. */
    method IsDue(id: nat, now: Instant, parameter: string) returns (due: bool)
      requires parameter == ToSortableIso(now)
      ensures due <==> T.Due(Snapshot(), id, now)
    {
      hide ToIso, ToSortableIso, SqlNormalized, TextLessOrEqual;
      due := false;
      if id in outbox && outbox[id].eventId in events && outbox[id].nextAttemptAt.Some? {
        StoredTextOrder(outbox[id].nextAttemptAt.value, now);
        due := (outbox[id].status == Pending || outbox[id].status == Retry)
               && TextLessOrEqual(SqlNormalized(ToIso(outbox[id].nextAttemptAt.value)), parameter);
      }
    }

    /** The claim query: rows in outbox_id order, the stored text rewritten and compared with the parameter. */
    method SelectDue(now: Instant, limit: nat) returns (ids: seq<nat>)
      ensures ids == T.DueFrom(Snapshot(), now, 1, limit)
    {
      hide ToSortableIso, T.Due, T.DueFrom, Snapshot;
      var parameter := ToSortableIso(now);
      ids := [];
      var id := 1;
      while id <= Snapshot().outboxSequence && |ids| < limit
        invariant 1 <= id <= Snapshot().outboxSequence + 1 && |ids| <= limit
        invariant ids + T.DueFrom(Snapshot(), now, id, limit - |ids|) == [] + T.DueFrom(Snapshot(), now, 1, limit)
      {
        OneIdMore(Snapshot(), now, id, limit, ids);
        var due := IsDue(id, now, parameter);
        if due {
          ids := ids + [id];
        }
        id := id + 1;
      }
      NoIdMore(Snapshot(), now, id, limit, ids);
    }

    /** The columns that the claim query returns for its rows. */
    method ReadClaims(ids: seq<nat>) returns (rows: seq<ClaimedEvent>)
      requires forall k :: 0 <= k < |ids| ==>
                 ids[k] in Snapshot().outbox && Snapshot().outbox[ids[k]].eventId in Snapshot().events
      ensures |rows| == |ids|
      ensures forall k :: 0 <= k < |ids| ==> rows[k] == T.ClaimOf(Snapshot(), ids[k])
    {
      var db := Snapshot();
      rows := seq(|ids|, k requires 0 <= k < |ids| => T.ClaimOf(db, ids[k]));
    }

    /** UPDATE outbox SET status = 'DELIVERING' WHERE outbox_id is among the claimed ones. */
    method LockRows(ids: seq<nat>, now: Instant)
      modifies `outbox
      ensures Snapshot() == old(Snapshot()).(outbox := T.LockAll(old(Snapshot()).outbox, ids, now))
    {
      outbox := map id | id in outbox :: if id in ids then T.Locked(outbox[id], now) else outbox[id];
    }

    method ClaimDue(now: Instant, limit: int) returns (r: Result<seq<ClaimedEvent>>)
      requires Valid()
      modifies this
      ensures Valid()
      ensures r.Ok? ==> T.ClaimDue(old(Snapshot()), now, limit) == Ok(T.Claimed(Snapshot(), r.value))
      ensures r.Ok? <==> 1 <= limit <= 500
      ensures r.Ok? ==> TakesFirst(old(Snapshot()), now, limit, Snapshot(), r.value)
      ensures r.Err? ==> T.ClaimDue(old(Snapshot()), now, limit) == Err(r.error) && Snapshot() == old(Snapshot())
    {
      if limit < 1 || limit > T.MAX_DELIVERY_BATCH_SIZE {
        r := Err(InvalidLimit);
        return;
      }
      ClaimTakesFirstDueRows(Snapshot(), now, limit);
      ClaimConsistent(Snapshot(), now, limit);
      hide Snapshot, Consistent, T.DueFrom, T.LockAll, T.ClaimDue, T.ClaimOf, TakesFirst;
      var ids := SelectDue(now, limit);
      DueRowsAreLive(Snapshot(), now, limit);
      var rows := ReadClaims(ids);
      ClaimedBy(Snapshot(), now, limit, rows);
      LockRows(ids, now);
      r := Ok(rows);
    }

    /** UPDATE outbox SET status = 'DELIVERED' ... WHERE the row still carries the claim. */
    method UpdateDelivered(claim: ClaimedEvent, now: Instant) returns (rowcount: nat)
      modifies `outbox
      ensures rowcount == if T.Matches(old(Snapshot()), claim) then 1 else 0
      ensures var db := old(Snapshot());
              Snapshot() == if rowcount == 0 then db
                            else db.(outbox := db.outbox[claim.outboxId :=
                                                 T.DeliveredRow(db.outbox[claim.outboxId], now)])
    {
      rowcount := 0;
      if claim.outboxId in outbox && outbox[claim.outboxId].eventId == claim.event.eventId
         && outbox[claim.outboxId].attempts == claim.attempts && outbox[claim.outboxId].status == Delivering
      {
        var row := outbox[claim.outboxId];
        outbox := outbox[claim.outboxId :=
          row.(status := Delivered, attempts := claim.attempts + 1, deliveredAt := Some(now),
               nextAttemptAt := None, lockedAt := None, lastError := None, updatedAt := now)];
        rowcount := 1;
      }
    }

    method RecordDeliverySuccess(claim: ClaimedEvent, now: Instant) returns (r: Result<()>)
      requires Valid()
      modifies this
      ensures Valid()
      ensures r.Ok? ==> T.RecordSuccess(old(Snapshot()), claim, now) == Ok(Snapshot())
      ensures r.Err? ==> T.RecordSuccess(old(Snapshot()), claim, now) == Err(r.error) && Snapshot() == old(Snapshot())
    {
      hide Snapshot, Consistent, T.Matches, T.DeliveredRow, T.AttemptOf, T.Acknowledge;
      ghost var db := Snapshot();
      ClaimIsLive(db, claim);
      RecordSuccessConsistent(db, claim, now);
      var rowcount := UpdateDelivered(claim, now);
      if rowcount != 1 {
        return Err(StaleClaim);
      }
      UpdateThenInsert(db, claim, T.DeliveredRow(db.outbox[claim.outboxId], now), now, Succeeded, None);
      InsertAttempt(claim, now, Succeeded, None);
      r := Ok(());
    }

    /** UPDATE outbox SET status = 'DEAD' or 'RETRY' ... WHERE the row still carries the claim. */
    method UpdateFailed(claim: ClaimedEvent, error: string, retryAt: Option<Instant>, now: Instant)
      returns (rowcount: nat)
      modifies `outbox
      ensures rowcount == if T.Matches(old(Snapshot()), claim) then 1 else 0
      ensures var db := old(Snapshot());
              Snapshot() == if rowcount == 0 then db
                            else db.(outbox := db.outbox[claim.outboxId :=
                                                 T.FailedRow(db.outbox[claim.outboxId], error, retryAt, now)])
    {
      rowcount := 0;
      if claim.outboxId in outbox && outbox[claim.outboxId].eventId == claim.event.eventId
         && outbox[claim.outboxId].attempts == claim.attempts && outbox[claim.outboxId].status == Delivering
      {
        var row := outbox[claim.outboxId];
        outbox := outbox[claim.outboxId :=
          row.(status := if retryAt.None? then Dead else Retry, attempts := claim.attempts + 1,
               nextAttemptAt := retryAt, lockedAt := None, lastError := Some(error), updatedAt := now)];
        rowcount := 1;
      }
    }

    method RecordDeliveryFailure(claim: ClaimedEvent, error: string, retryAt: Option<Instant>, now: Instant)
      returns (r: Result<()>)
      requires Valid()
      modifies this
      ensures Valid()
      ensures r.Ok? ==> T.RecordFailure(old(Snapshot()), claim, error, retryAt, now) == Ok(Snapshot())
      ensures r.Err? ==> T.RecordFailure(old(Snapshot()), claim, error, retryAt, now) == Err(r.error)
                         && Snapshot() == old(Snapshot())
    {
      hide Snapshot, Consistent, T.Matches, T.FailedRow, T.AttemptOf, T.Acknowledge;
      ghost var db := Snapshot();
      ClaimIsLive(db, claim);
      RecordFailureConsistent(db, claim, error, retryAt, now);
      var rowcount := UpdateFailed(claim, error, retryAt, now);
      if rowcount != 1 {
        return Err(StaleClaim);
      }
      UpdateThenInsert(db, claim, T.FailedRow(db.outbox[claim.outboxId], error, retryAt, now), now,
                       AttemptFailed, Some(error));
      InsertAttempt(claim, now, AttemptFailed, Some(error));
      r := Ok(());
    }

    // -------------------------------------------------------------- retention

    /** INSERT INTO purge_targets SELECT ..., with the event time compared as rewritten text. */
    method SelectPurgeTargets(cutoff: Instant, watch: Option<WatchId>) returns (targets: set<nat>)
      ensures targets == T.PurgeTargets(Snapshot(), cutoff, watch)
    {
      hide ToIso, ToSortableIso, SqlNormalized, TextLess;
      var parameter := ToSortableIso(cutoff);
      targets := set id | id in outbox && outbox[id].eventId in events
                          && TextLess(SqlNormalized(ToIso(events[outbox[id].eventId].createdAt)), parameter)
                          && T.InScope(events[outbox[id].eventId].event.watchId, watch)
                          && Terminal(outbox[id].status);
      forall id | id in outbox && outbox[id].eventId in events
        ensures id in targets <==> id in T.PurgeTargets(Snapshot(), cutoff, watch)
      {
        StoredTextOrder(events[outbox[id].eventId].createdAt, cutoff);
      }
    }

    /** The WHERE clause of the deletion of observations. */
    method SelectExpired(cutoff: Instant, watch: Option<WatchId>) returns (expired: set<ObservationId>)
      ensures expired == T.ExpiredObservations(Snapshot(), cutoff, watch)
    {
      hide ToIso, ToSortableIso, SqlNormalized, TextLess;
      var parameter := ToSortableIso(cutoff);
      expired := set o | o in observations
                         && TextLess(SqlNormalized(ToIso(observations[o].createdAt)), parameter)
                         && T.InScope(observations[o].watchId, watch)
                         && !exists w :: w in authority && authority[w].observationId == o;
      forall o | o in observations
        ensures o in expired <==> o in T.ExpiredObservations(Snapshot(), cutoff, watch)
      {
        StoredTextOrder(observations[o].createdAt, cutoff);
      }
    }

    /** DELETE FROM delivery_attempts, outbox and events, in that order, for the purge targets. */
    method DeleteTargets(targets: set<nat>, targetEvents: set<EventId>)
      returns (attemptsDeleted: int, outboxDeleted: int, eventsDeleted: int)
      requires targetEvents == T.EventIdsOf(Snapshot(), targets)
      requires Unreferenced(Snapshot(), targets)
      modifies this
      ensures var db := old(Snapshot());
              && Snapshot() == T.WithoutRows(db, targets)
              && attemptsDeleted == |db.attempts| - |Snapshot().attempts|
              && outboxDeleted == |db.outbox| - |Snapshot().outbox|
              && eventsDeleted == |db.events| - |Snapshot().events|
    {
      hide Snapshot, T.WithoutOutboxIds, T.EventIdsOf, OutboxUnreferenced, EventsUnreferenced;
      attemptsDeleted := DeleteAttemptsOfRows(targets);
      outboxDeleted := DeleteOutboxRows(targets);
      eventsDeleted := DeleteEventRows(targetEvents);
    }

    /** No statement raises: the cascade leaves no row that refers to a deleted one. */
    method PurgeRows(cutoff: Instant, watch: Option<WatchId>) returns (result: PurgeResult)
      requires Valid()
      modifies this
      ensures Snapshot() == T.PurgeBefore(old(Snapshot()), cutoff, watch)
      ensures result == T.RowsRemoved(old(Snapshot()), Snapshot())
    {
      hide Snapshot, Consistent, T.PurgeTargets, T.ExpiredObservations, T.EventIdsOf, T.WithoutOutboxIds;
      hide Unreferenced, ObservationsUnreferenced, T.WithoutRows, T.PurgeBefore;
      PurgeForeignKeys(Snapshot(), cutoff, watch);
      PurgedTables(Snapshot(), cutoff, watch);
      var targets := SelectPurgeTargets(cutoff, watch);
      var targetEvents := T.EventIdsOf(Snapshot(), targets);
      var attemptsDeleted, outboxDeleted, eventsDeleted := DeleteTargets(targets, targetEvents);
      var expired := SelectExpired(cutoff, watch);
      var observationsDeleted := DeleteObservationRows(expired);
      result := PurgeResult(observationsDeleted, eventsDeleted, outboxDeleted, attemptsDeleted, 0);
    }

    method PurgeBefore(cutoff: Instant, watch: Option<WatchId>) returns (result: PurgeResult)
      requires Valid()
      modifies this
      ensures Valid() && Snapshot() == T.PurgeBefore(old(Snapshot()), cutoff, watch)
      ensures PurgesExactly(old(Snapshot()), cutoff, watch, Snapshot())
      ensures result == T.RowsRemoved(old(Snapshot()), Snapshot())
    {
      PurgeIsExact(Snapshot(), cutoff, watch);
      PurgeConsistent(Snapshot(), cutoff, watch);
      hide Snapshot, Consistent, T.PurgeBefore, T.RowsRemoved, PurgesExactly;
      result := PurgeRows(cutoff, watch);
    }

    method HasUndelivered(watchId: WatchId) returns (undelivered: bool)
      ensures undelivered <==> T.HasUndelivered(Snapshot(), watchId)
    {
      var rows := set id | id in outbox && outbox[id].eventId in events
                           && events[outbox[id].eventId].event.watchId == watchId
                           && !Terminal(outbox[id].status);
      undelivered := rows != {};
      UndeliveredRows(Snapshot(), watchId, rows);
    }

    /** Deletes the watch's events with their outbox rows and attempts. */
    method DeleteEventsOf(watchId: WatchId) returns (attemptsDeleted: int, outboxDeleted: int, eventsDeleted: int)
      requires Valid()
      modifies this
      ensures var db := old(Snapshot());
              && Snapshot() == WithoutEventsOf(db, watchId)
              && attemptsDeleted == |db.attempts| - |Snapshot().attempts|
              && outboxDeleted == |db.outbox| - |Snapshot().outbox|
              && eventsDeleted == |db.events| - |Snapshot().events|
    {
      hide Snapshot, Consistent, T.EventsOfWatch, T.OutboxOfEvents, T.ObservationsOfWatch, T.WithoutEventIds;
      hide OutboxUnreferenced, EventsUnreferenced, ObservationsUnreferenced, WatchUnreferenced;
      DeleteForeignKeys(Snapshot(), watchId);
      var ours := T.EventsOfWatch(Snapshot(), watchId);
      var rows := T.OutboxOfEvents(Snapshot(), ours);
      attemptsDeleted := DeleteAttemptsOfEvents(ours);
      outboxDeleted := DeleteOutboxRows(rows);
      eventsDeleted := DeleteEventRows(ours);
    }

    /** Deletes the watch's rows in the order attempts, outbox, events, authority, observations, watch. */
    method DeleteRows(watchId: WatchId) returns (result: PurgeResult)
      requires Valid()
      modifies this
      ensures T.DeleteWatch(old(Snapshot()), watchId, true) == Ok(Snapshot())
      ensures result == T.RowsRemoved(old(Snapshot()), Snapshot())
    {
      hide Snapshot, Consistent, T.EventsOfWatch, T.OutboxOfEvents, T.ObservationsOfWatch, T.WithoutEventIds;
      hide OutboxUnreferenced, EventsUnreferenced, ObservationsUnreferenced, WatchUnreferenced;
      hide WithoutEventsOf, T.DeleteWatch;
      DeleteForeignKeys(Snapshot(), watchId);
      DeletedTables(Snapshot(), watchId);
      var attemptsDeleted, outboxDeleted, eventsDeleted := DeleteEventsOf(watchId);
      DeleteAuthorityRow(watchId);
      var gone := T.ObservationsOfWatch(Snapshot(), watchId);
      var observationsDeleted := DeleteObservationRows(gone);
      var watchesDeleted := DeleteWatchRow(watchId);
      result := PurgeResult(observationsDeleted, eventsDeleted, outboxDeleted, attemptsDeleted, watchesDeleted);
    }

    method DeleteWatch(watchId: WatchId, allowUndelivered: bool) returns (r: Result<PurgeResult>)
      requires Valid()
      modifies this
      ensures Valid()
      ensures match T.DeleteWatch(old(Snapshot()), watchId, allowUndelivered)
              case Ok(db) => Snapshot() == db && r == Ok(T.RowsRemoved(old(Snapshot()), db))
              case Err(error) => r == Err(error) && Snapshot() == old(Snapshot())
      ensures r.Err? <==> !allowUndelivered && WatchWaits(old(Snapshot()), watchId)
      ensures r.Ok? ==> DeletesExactly(old(Snapshot()), watchId, Snapshot())
    {
      DeleteConsistent(Snapshot(), watchId, allowUndelivered);
      DeleteIsExact(Snapshot(), watchId, allowUndelivered);
      hide Consistent, WatchWaits, DeletesExactly, T.DeleteWatch, Snapshot;
      DeleteOutcome(Snapshot(), watchId, allowUndelivered);
      var undelivered := HasUndelivered(watchId);
      if undelivered && !allowUndelivered {
        return Err(UndeliveredEvents);
      }
      var result := DeleteRows(watchId);
      r := Ok(result);
    }
  }

  /** UNIQUE(event_id) allows a row for the event. */
  ghost predicate EventIdFree(outbox: Outbox, eventId: EventId) {
    forall id :: id in outbox ==> outbox[id].eventId != eventId
  }

  lemma EventThenOutbox(db: T.Database, event: WatchEvent, now: Instant)
    ensures var one := db.(events := db.events[event.eventId := EventRow(event, now)]);
            && event.eventId in one.events
            && T.InsertEvent(db, event, now)
               == one.(outbox := one.outbox[one.outboxSequence + 1 := T.PendingRow(event.eventId, now)],
                       outboxSequence := one.outboxSequence + 1)
  {
  }

  /** The three statements of _persist_observation. */
  lemma PersistedTables(db: T.Database, x: WatchId, id: ObservationId, observation: Observation, now: Instant)
    ensures var known := T.EnsureWatch(db, x);
            && x in known.watches && known.observations == db.observations
            && var kept := known.(observations := known.observations[id := ObservationRow(x, observation, now)]);
               T.Persist(db, x, id, observation, now)
               == if id in db.observations then Err(IntegrityError)
                  else Ok(kept.(watches := kept.watches[x := WatchRow(kept.watches[x].executionCount + 1)]))
  {
  }

  lemma InsertionAllowed(db: T.Database, event: WatchEvent, now: Instant)
    requires Consistent(db) && event.watchId in db.watches
    ensures event.eventId !in db.events ==> Consistent(T.InsertEvent(db, event, now))
    ensures event.eventId !in db.events ==> EventIdFree(db.outbox, event.eventId)
  {
    if event.eventId !in db.events {
      InsertEventConsistent(db, event, now);
    }
  }

  lemma ClaimIsLive(db: T.Database, claim: ClaimedEvent)
    requires Consistent(db)
    ensures T.Matches(db, claim) ==> claim.outboxId in db.outbox && claim.event.eventId in db.events
  {
  }

  /** The two statements of an acknowledgement. */
  lemma UpdateThenInsert(
    db: T.Database, claim: ClaimedEvent, row: OutboxRow, now: Instant, status: AttemptStatus, error: Option<string>)
    ensures var after := db.(outbox := db.outbox[claim.outboxId := row]);
            T.Acknowledge(db, claim, row, now, status, error)
            == after.(attempts := after.attempts + [T.AttemptOf(after, claim, now, status, error)],
                      attemptSequence := after.attemptSequence + 1)
  {
  }

  /** One pass of the scan for due rows. */
  lemma OneIdMore(db: T.Database, now: Instant, id: nat, limit: nat, ids: seq<nat>)
    requires id <= db.outboxSequence && |ids| < limit
    ensures ids + T.DueFrom(db, now, id, limit - |ids|)
            == if T.Due(db, id, now) then ids + [id] + T.DueFrom(db, now, id + 1, limit - |ids + [id]|)
               else ids + T.DueFrom(db, now, id + 1, limit - |ids|)
  {
    hide T.Due;
    if T.Due(db, id, now) {
      var rest := T.DueFrom(db, now, id + 1, limit - |ids| - 1);
      assert ids + ([id] + rest) == ids + [id] + rest;
    }
  }

  lemma NoIdMore(db: T.Database, now: Instant, id: nat, limit: nat, ids: seq<nat>)
    requires id > db.outboxSequence || |ids| == limit
    requires |ids| <= limit && ids + T.DueFrom(db, now, id, limit - |ids|) == [] + T.DueFrom(db, now, 1, limit)
    ensures ids == T.DueFrom(db, now, 1, limit)
  {
    assert ids + [] == ids && [] + T.DueFrom(db, now, 1, limit) == T.DueFrom(db, now, 1, limit);
  }

  lemma {:induction false} DueRowsAreLive(db: T.Database, now: Instant, limit: nat)
    ensures var ids := T.DueFrom(db, now, 1, limit);
            forall k :: 0 <= k < |ids| ==> ids[k] in db.outbox && db.outbox[ids[k]].eventId in db.events
  {
  }

  lemma {:induction false} ClaimedBy(db: T.Database, now: Instant, limit: nat, rows: seq<ClaimedEvent>)
    requires 1 <= limit <= T.MAX_DELIVERY_BATCH_SIZE
    requires var ids := T.DueFrom(db, now, 1, limit);
             |rows| == |ids| && forall k :: 0 <= k < |ids| ==> rows[k] == T.ClaimOf(db, ids[k])
    ensures T.ClaimDue(db, now, limit)
            == Ok(T.Claimed(db.(outbox := T.LockAll(db.outbox, T.DueFrom(db, now, 1, limit), now)), rows))
  {
    assert T.ClaimDue(db, now, limit).value.claims == rows;
  }

  lemma DeleteOutcome(db: T.Database, x: WatchId, allow: bool)
    ensures T.DeleteWatch(db, x, allow) == if T.HasUndelivered(db, x) && !allow then Err(UndeliveredEvents)
                                           else T.DeleteWatch(db, x, true)
  {
  }

  lemma UndeliveredRows(db: T.Database, w: WatchId, rows: set<nat>)
    requires rows == set id | id in db.outbox && db.outbox[id].eventId in db.events
                              && db.events[db.outbox[id].eventId].event.watchId == w
                              && !Terminal(db.outbox[id].status)
    ensures rows != {} <==> T.HasUndelivered(db, w)
  {
    if rows != {} {
      var id :| id in rows;
      assert db.outbox[id].eventId in T.EventsOfWatch(db, w);
    }
    if T.HasUndelivered(db, w) {
      var id :| id in db.outbox && !Terminal(db.outbox[id].status)
                && db.outbox[id].eventId in T.EventsOfWatch(db, w);
      assert id in rows;
    }
  }

  // ---------------------------------------------------------------- foreign keys of the cascades

  ghost predicate OutboxUnreferenced(db: T.Database, ids: set<nat>) {
    forall a :: a in db.attempts ==> a.outboxId !in ids
  }

  ghost predicate EventsUnreferenced(db: T.Database, ids: set<EventId>) {
    && (forall id :: id in db.outbox ==> db.outbox[id].eventId !in ids)
    && (forall a :: a in db.attempts ==> a.eventId !in ids)
  }

  ghost predicate ObservationsUnreferenced(db: T.Database, ids: set<ObservationId>) {
    forall w :: w in db.authority ==> db.authority[w].observationId !in ids
  }

  ghost predicate WatchUnreferenced(db: T.Database, w: WatchId) {
    && w !in db.authority
    && (forall o :: o in db.observations ==> db.observations[o].watchId != w)
    && (forall e :: e in db.events ==> db.events[e].event.watchId != w)
  }

  /** Without their attempts the rows have no referrer, and then without the rows their events have none. */
  ghost predicate Unreferenced(db: T.Database, ids: set<nat>) {
    var one := db.(attempts := T.WithoutOutboxIds(db.attempts, ids));
    && OutboxUnreferenced(one, ids)
    && EventsUnreferenced(one.(outbox := db.outbox - ids), T.EventIdsOf(db, ids))
  }

  /** Each deletion of purge_before finds its rows unreferenced by what the earlier ones left. */
  lemma PurgeForeignKeys(db: T.Database, cutoff: Instant, watch: Option<WatchId>)
    requires Consistent(db)
    ensures var targets := T.PurgeTargets(db, cutoff, watch);
            var three := T.WithoutRows(db, targets);
            && Unreferenced(db, targets)
            && T.ExpiredObservations(three, cutoff, watch) == T.ExpiredObservations(db, cutoff, watch)
            && ObservationsUnreferenced(three, T.ExpiredObservations(db, cutoff, watch))
  {
    var targets := T.PurgeTargets(db, cutoff, watch);
    var three := T.WithoutRows(db, targets);
    hide T.ExpiredObservations, ObservationsUnreferenced, Unreferenced;
    TargetsUnreferenced(db, targets);
    ExpiredUnreferenced(db, three, cutoff, watch);
  }

  /** The evidence is deleted last. */
  lemma PurgedTables(db: T.Database, cutoff: Instant, watch: Option<WatchId>)
    ensures var three := T.WithoutRows(db, T.PurgeTargets(db, cutoff, watch));
            && three.observations == db.observations && three.watches == db.watches
            && T.PurgeBefore(db, cutoff, watch)
               == three.(observations := three.observations - T.ExpiredObservations(db, cutoff, watch))
  {
  }

  lemma TargetsUnreferenced(db: T.Database, targets: set<nat>)
    requires EventsPaired(db.events, db.outbox) && AttemptsLinked(db.attempts, db.outbox)
    requires forall id :: id in targets ==> id in db.outbox
    ensures Unreferenced(db, targets)
  {
    FilterMembers(db.attempts, (a: AttemptRow) => a.outboxId !in targets);
  }

  lemma ExpiredUnreferenced(db: T.Database, after: T.Database, cutoff: Instant, watch: Option<WatchId>)
    requires after.observations == db.observations && after.authority == db.authority
    ensures T.ExpiredObservations(after, cutoff, watch) == T.ExpiredObservations(db, cutoff, watch)
    ensures ObservationsUnreferenced(after, T.ExpiredObservations(db, cutoff, watch))
  {
    assert forall o :: T.IsAuthoritative(after, o) <==> T.IsAuthoritative(db, o);
    forall w | w in db.authority
      ensures T.IsAuthoritative(db, db.authority[w].observationId)
    {
    }
  }

  function WithoutEventsOf(db: T.Database, w: WatchId): T.Database {
    var gone := T.EventsOfWatch(db, w);
    db.(attempts := T.WithoutEventIds(db.attempts, gone),
        outbox := db.outbox - T.OutboxOfEvents(db, gone),
        events := db.events - gone)
  }

  /** The tables after delete_watch, counted from those without the watch's events. */
  lemma DeletedTables(db: T.Database, w: WatchId)
    ensures var three := WithoutEventsOf(db, w);
            && T.DeleteWatch(db, w, true)
               == Ok(three.(authority := three.authority - {w},
                            observations := three.observations - T.ObservationsOfWatch(db, w),
                            watches := three.watches - {w}))
            && three.authority == db.authority && three.observations == db.observations
            && three.watches == db.watches
  {
  }

  /** Likewise for the deletions of delete_watch, down to the watch row itself. */
  lemma DeleteForeignKeys(db: T.Database, w: WatchId)
    requires Consistent(db)
    ensures var gone := T.EventsOfWatch(db, w);
            var rows := T.OutboxOfEvents(db, gone);
            var one := db.(attempts := T.WithoutEventIds(db.attempts, gone));
            && OutboxUnreferenced(one, rows)
            && EventsUnreferenced(one.(outbox := db.outbox - rows), gone)
    ensures var four := WithoutEventsOf(db, w).(authority := db.authority - {w});
            var five := four.(observations := db.observations - T.ObservationsOfWatch(db, w));
            && T.ObservationsOfWatch(four, w) == T.ObservationsOfWatch(db, w)
            && ObservationsUnreferenced(four, T.ObservationsOfWatch(db, w))
            && WatchUnreferenced(five, w)
  {
    var gone := T.EventsOfWatch(db, w);
    FilterMembers(db.attempts, (a: AttemptRow) => a.eventId !in gone);
    forall x | x in db.authority
      ensures RowBacked(db.authority[x], x, db.observations)
    {
    }
  }

  // ---------------------------------------------------------------- the insertion loop

  /** The outcome of a loop of insertions that had created some events before the rest. */
  function After(created: seq<WatchEvent>, rest: Result<T.Inserted>): Result<T.Inserted> {
    match rest
    case Ok(done) => Ok(T.Inserted(done.db, created + done.events))
    case Err(error) => Err(error)
  }

  lemma {:induction false} NothingCreated(
    db: T.Database, w: WatchId, observation: Observation, drafts: seq<EventDraft>, factory: seq<Option<EventId>>,
    now: Instant)
    ensures T.InsertEvents(db, w, observation, drafts, factory, now)
            == After([], T.InsertEvents(db, w, observation, drafts, factory, now))
  {
    var r := T.InsertEvents(db, w, observation, drafts, factory, now);
    if r.Ok? {
      assert [] + r.value.events == r.value.events;
    }
  }

  /** One pass of the loop of _insert_events. */
  lemma {:induction false} OneEventMore(
    db: T.Database, w: WatchId, observation: Observation, drafts: seq<EventDraft>, factory: seq<Option<EventId>>,
    now: Instant, i: nat, created: seq<WatchEvent>)
    requires i < |drafts| && i < |factory| && factory[i].Some?
    ensures var event := T.EventFromDraft(w, factory[i].value, observation, drafts[i]);
            && event.eventId == factory[i].value && event.watchId == w
            && After(created, T.InsertEvents(db, w, observation, drafts[i..], factory[i..], now))
               == if event.eventId in db.events then Err(IntegrityError)
                  else After(created + [event],
                             T.InsertEvents(T.InsertEvent(db, event, now), w, observation,
                                            drafts[i + 1..], factory[i + 1..], now))
  {
    hide T.InsertEvent;
    var event := T.EventFromDraft(w, factory[i].value, observation, drafts[i]);
    assert drafts[i..][1..] == drafts[i + 1..] && factory[i..][1..] == factory[i + 1..];
    var r := T.InsertEvents(T.InsertEvent(db, event, now), w, observation, drafts[i + 1..], factory[i + 1..], now);
    if r.Ok? {
      assert created + ([event] + r.value.events) == created + [event] + r.value.events;
    }
  }
}
