/**
 What purge_before and delete_watch remove and what they keep, column by column: which rows are old
 enough, which watch they belong to, and what stays as it was.
 */
module Removal {
  import opened Entities
  import opened Sequences
  import opened Tables
  import opened Consistency

  predicate Covers(watch: Option<WatchId>, owner: WatchId) {
    watch == None || watch == Some(owner)
  }

  /** A delivery that has ended, for an event of the watch made before the cutoff. */
  predicate OldEnd(row: OutboxRow, event: EventRow, cutoff: Instant, watch: Option<WatchId>) {
    && (row.status == Delivered || row.status == Dead)
    && event.createdAt < cutoff
    && Covers(watch, event.event.watchId)
  }

  /** Evidence of the watch recorded before the cutoff, and no watch's authority. */
  ghost predicate OldEvidence(
    row: ObservationRow, id: ObservationId, authority: map<WatchId, AuthorityRow>, cutoff: Instant,
    watch: Option<WatchId>)
  {
    && row.createdAt < cutoff
    && Covers(watch, row.watchId)
    && forall w :: w in authority ==> authority[w].observationId != id
  }

  /** `after` holds nothing but rows of `before`, unchanged. */
  ghost predicate Within<K, V>(after: map<K, V>, before: map<K, V>) {
    forall k :: k in after ==> k in before && after[k] == before[k]
  }

  /** The attempts kept are those of the rows kept, each log as it was. */
  ghost predicate LogsFollow(db: Database, after: Database) {
    && (forall a :: a in after.attempts <==> a in db.attempts && a.outboxId in after.outbox)
    && (forall id :: id in after.outbox ==> LogOf(after.attempts, id) == LogOf(db.attempts, id))
  }

  /** Of the deliveries exactly the old ends are removed, each with its event. */
  ghost predicate EndsRemoved(db: Database, cutoff: Instant, watch: Option<WatchId>, after: Database) {
    && Within(after.outbox, db.outbox) && Within(after.events, db.events)
    && (forall id :: id in db.outbox && db.outbox[id].eventId in db.events ==>
          && (id in after.outbox <==> !OldEnd(db.outbox[id], db.events[db.outbox[id].eventId], cutoff, watch))
          && (db.outbox[id].eventId in after.events <==> id in after.outbox))
  }

  /** Of the evidence exactly the old is removed. */
  ghost predicate EvidenceRemoved(db: Database, cutoff: Instant, watch: Option<WatchId>, after: Database) {
    && Within(after.observations, db.observations)
    && (forall o :: o in db.observations ==>
          (o in after.observations <==> !OldEvidence(db.observations[o], o, db.authority, cutoff, watch)))
  }

  ghost predicate PurgesExactly(db: Database, cutoff: Instant, watch: Option<WatchId>, after: Database) {
    && EndsRemoved(db, cutoff, watch, after)
    && LogsFollow(db, after)
    && EvidenceRemoved(db, cutoff, watch, after)
    && after == db.(outbox := after.outbox, events := after.events, attempts := after.attempts,
                    observations := after.observations)
  }

  lemma KeptLogs(db: Database, ids: set<nat>)
    requires AttemptsLinked(db.attempts, db.outbox) && forall id :: id in ids ==> id in db.outbox
    ensures LogsFollow(db, WithoutRows(db, ids))
  {
    var keep := (a: AttemptRow) => a.outboxId !in ids;
    FilterMembers(db.attempts, keep);
    forall id | id in db.outbox && id !in ids
      ensures LogOf(Filter(db.attempts, keep), id) == LogOf(db.attempts, id)
    {
      LogUnaffected(db.attempts, keep, id);
    }
  }

  lemma PurgeTargetIff(db: Database, cutoff: Instant, watch: Option<WatchId>, id: nat)
    requires id in db.outbox && db.outbox[id].eventId in db.events
    ensures id in PurgeTargets(db, cutoff, watch)
            <==> OldEnd(db.outbox[id], db.events[db.outbox[id].eventId], cutoff, watch)
  {
  }

  lemma ExpiredIff(db: Database, cutoff: Instant, watch: Option<WatchId>, o: ObservationId)
    requires o in db.observations
    ensures o in ExpiredObservations(db, cutoff, watch)
            <==> OldEvidence(db.observations[o], o, db.authority, cutoff, watch)
  {
  }

  lemma EventFollowsRow(db: Database, ids: set<nat>, id: nat)
    requires EventsPaired(db.events, db.outbox) && id in db.outbox
    ensures db.outbox[id].eventId in EventIdsOf(db, ids) <==> id in ids
  {
  }

  lemma PurgedEnds(db: Database, cutoff: Instant, watch: Option<WatchId>)
    requires EventsPaired(db.events, db.outbox)
    ensures EndsRemoved(db, cutoff, watch, PurgeBefore(db, cutoff, watch))
  {
    var targets := PurgeTargets(db, cutoff, watch);
    hide EventsPaired, PurgeTargets, ExpiredObservations, EventIdsOf, OldEnd, WithoutOutboxIds;
    forall id | id in db.outbox && db.outbox[id].eventId in db.events
      ensures id in targets <==> OldEnd(db.outbox[id], db.events[db.outbox[id].eventId], cutoff, watch)
      ensures db.outbox[id].eventId in EventIdsOf(db, targets) <==> id in targets
    {
      PurgeTargetIff(db, cutoff, watch, id);
      EventFollowsRow(db, targets, id);
    }
  }

  lemma PurgedEvidence(db: Database, cutoff: Instant, watch: Option<WatchId>)
    ensures EvidenceRemoved(db, cutoff, watch, PurgeBefore(db, cutoff, watch))
  {
    hide WithoutRows, ExpiredObservations, OldEvidence;
    forall o | o in db.observations
      ensures o in ExpiredObservations(db, cutoff, watch)
              <==> OldEvidence(db.observations[o], o, db.authority, cutoff, watch)
    {
      ExpiredIff(db, cutoff, watch, o);
    }
  }

  /**
   purge_before keeps an event made at the cutoff or later, of another watch, or with a delivery that has
   not ended, together with its row and its attempts; it removes every other. Likewise for evidence, of
   which it also keeps every watch's authority.
   */
  lemma PurgeIsExact(db: Database, cutoff: Instant, watch: Option<WatchId>)
    requires Consistent(db)
    ensures PurgesExactly(db, cutoff, watch, PurgeBefore(db, cutoff, watch))
  {
    assert EventsPaired(db.events, db.outbox) && AttemptsLinked(db.attempts, db.outbox);
    var targets := PurgeTargets(db, cutoff, watch);
    assert forall id :: id in targets ==> id in db.outbox;
    hide Consistent, EventsPaired, AttemptsLinked, EndsRemoved, EvidenceRemoved, PurgeTargets, ExpiredObservations;
    KeptLogs(db, targets);
    PurgedEnds(db, cutoff, watch);
    PurgedEvidence(db, cutoff, watch);
    SameLogsFollow(db, WithoutRows(db, targets), PurgeBefore(db, cutoff, watch));
    hide LogsFollow, WithoutRows;
  }

  lemma SameLogsFollow(db: Database, after: Database, other: Database)
    requires LogsFollow(db, after) && other.outbox == after.outbox && other.attempts == after.attempts
    ensures LogsFollow(db, other)
  {
  }

  // ---------------------------------------------------------------- delete_watch

  /** An event of the watch waits for delivery, or is being delivered. */
  ghost predicate WatchWaits(db: Database, x: WatchId) {
    exists id :: id in db.outbox && db.outbox[id].eventId in db.events
                 && db.events[db.outbox[id].eventId].event.watchId == x
                 && (db.outbox[id].status == Pending || db.outbox[id].status == Retry
                     || db.outbox[id].status == Delivering)
  }

  ghost predicate WatchEventsRemoved(db: Database, x: WatchId, after: Database) {
    && Within(after.outbox, db.outbox) && Within(after.events, db.events)
    && (forall e :: e in db.events ==> (e in after.events <==> db.events[e].event.watchId != x))
    && (forall id :: id in db.outbox ==> (id in after.outbox <==> db.outbox[id].eventId in after.events))
  }

  ghost predicate WatchStateRemoved(db: Database, x: WatchId, after: Database) {
    && Within(after.observations, db.observations) && Within(after.authority, db.authority)
    && Within(after.watches, db.watches)
    && (forall o :: o in db.observations ==> (o in after.observations <==> db.observations[o].watchId != x))
    && (forall y :: y in db.authority ==> (y in after.authority <==> y != x))
    && (forall y :: y in db.watches ==> (y in after.watches <==> y != x))
  }

  ghost predicate DeletesExactly(db: Database, x: WatchId, after: Database) {
    && WatchEventsRemoved(db, x, after)
    && LogsFollow(db, after)
    && WatchStateRemoved(db, x, after)
    && after.outboxSequence == db.outboxSequence && after.attemptSequence == db.attemptSequence
  }

  lemma WaitsIff(db: Database, x: WatchId)
    ensures HasUndelivered(db, x) <==> WatchWaits(db, x)
  {
    if HasUndelivered(db, x) {
      var id :| id in db.outbox && !Terminal(db.outbox[id].status)
                && db.outbox[id].eventId in EventsOfWatch(db, x);
      assert db.outbox[id].status != Delivered && db.outbox[id].status != Dead;
    }
    if WatchWaits(db, x) {
      var id :| id in db.outbox && db.outbox[id].eventId in db.events
                && db.events[db.outbox[id].eventId].event.watchId == x
                && (db.outbox[id].status == Pending || db.outbox[id].status == Retry
                    || db.outbox[id].status == Delivering);
      assert db.outbox[id].eventId in EventsOfWatch(db, x);
    }
  }

  lemma DeletedLogs(db: Database, x: WatchId)
    requires EventsPaired(db.events, db.outbox) && AttemptsLinked(db.attempts, db.outbox)
    ensures var gone := EventsOfWatch(db, x);
            LogsFollow(db, db.(attempts := WithoutEventIds(db.attempts, gone),
                               outbox := db.outbox - OutboxOfEvents(db, gone)))
  {
    var gone := EventsOfWatch(db, x);
    var keep := (a: AttemptRow) => a.eventId !in gone;
    FilterMembers(db.attempts, keep);
    forall id | id in db.outbox && id !in OutboxOfEvents(db, gone)
      ensures LogOf(Filter(db.attempts, keep), id) == LogOf(db.attempts, id)
    {
      LogUnaffected(db.attempts, keep, id);
    }
  }

  lemma DeletedEvents(db: Database, x: WatchId)
    requires EventsPaired(db.events, db.outbox) && DeleteWatch(db, x, true).Ok?
    ensures WatchEventsRemoved(db, x, DeleteWatch(db, x, true).value)
  {
    assert forall id :: id in db.outbox ==> db.outbox[id].eventId in db.events;
    hide EventsPaired, WithoutEventIds, ObservationsOfWatch, HasUndelivered;
  }

  lemma DeletedState(db: Database, x: WatchId)
    requires DeleteWatch(db, x, true).Ok?
    ensures WatchStateRemoved(db, x, DeleteWatch(db, x, true).value)
  {
    hide WithoutEventIds, OutboxOfEvents, EventsOfWatch, HasUndelivered;
  }

  /** delete_watch is refused exactly for waiting events, and removes exactly what belongs to the watch. */
  lemma DeleteIsExact(db: Database, x: WatchId, allow: bool)
    requires Consistent(db)
    ensures var r := DeleteWatch(db, x, allow);
            && (r.Err? <==> !allow && WatchWaits(db, x))
            && (r.Err? ==> r.error == UndeliveredEvents)
            && (r.Ok? ==> DeletesExactly(db, x, r.value))
  {
    assert EventsPaired(db.events, db.outbox) && AttemptsLinked(db.attempts, db.outbox);
    hide Consistent, EventsPaired, AttemptsLinked, WatchWaits, HasUndelivered, WithoutEventIds, LogOf;
    hide WatchEventsRemoved, WatchStateRemoved, EventsOfWatch, OutboxOfEvents, ObservationsOfWatch, LogsFollow;
    WaitsIff(db, x);
    DeletedLogs(db, x);
    DeletedEvents(db, x);
    DeletedState(db, x);
    var gone := EventsOfWatch(db, x);
    SameLogsFollow(db, db.(attempts := WithoutEventIds(db.attempts, gone),
                           outbox := db.outbox - OutboxOfEvents(db, gone)),
                   DeleteWatch(db, x, true).value);
  }
}
