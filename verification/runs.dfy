/**
 One run of a watch, column by column: what a VALID observation adds to the evidence, and what it makes of
 authority, events and outbox.
 */
module Runs {
  import opened Entities
  import opened Consistency
  import opened Promotion
  import opened Retry
  import opened Runtime
  import T = Tables

  /** The clock answers, the start mark commits, and the identifier of the observation is new. */
  ghost predicate Recordable(db: T.Database, s: Surroundings) {
    && s.startClock.Some? && !s.markFails && s.recordClock.Some?
    && s.observationId.Some? && s.observationId.value !in db.observations
  }

  /** Evidence is kept, and nothing but evidence. */
  ghost predicate KeepsOnlyEvidence(db: T.Database, after: T.Database, x: WatchId, s: Surroundings, o: Observation)
    requires s.recordClock.Some? && s.observationId.Some?
  {
    && OnlyEvidence(db, after)
    && after.observations == db.observations[s.observationId.value := ObservationRow(x, o, s.recordClock.value)]
  }

  /** The events of the drafts, their outbox rows, and the new authority, beside the evidence. */
  ghost predicate Promotes(
    db: T.Database, after: T.Database, x: WatchId, s: Surroundings, o: Observation, drafts: seq<EventDraft>,
    events: seq<WatchEvent>)
    requires s.recordClock.Some? && s.observationId.Some?
  {
    var id, now := s.observationId.value, s.recordClock.value;
    && after.observations == db.observations[id := ObservationRow(x, o, now)]
    && after.authority == db.authority[x := AuthorityRow(id, o.state, o.observedAt, now)]
    && Drafted(events, x, o, drafts, s.factory)
    && EventsExtended(db.events, after.events, events, now)
    && OutboxExtended(db.outbox, after.outbox, db.outboxSequence, events, now)
    && after.outboxSequence == db.outboxSequence + |events|
    && after.attempts == db.attempts && after.attemptSequence == db.attemptSequence
  }

  lemma SameAuthority(db: T.Database, after: T.Database, x: WatchId, id: ObservationId, row: ObservationRow)
    requires Consistent(db) && id !in db.observations
    requires after.authority == db.authority && after.observations == db.observations[id := row]
    ensures T.ReadAuthoritative(after, x) == T.ReadAuthoritative(db, x)
  {
    AuthorityJoin(db, x);
    hide Consistent;
  }

  lemma Kept(db: T.Database, x: WatchId, id: ObservationId, o: Observation, now: Instant) returns (kept: T.Database)
    requires Consistent(db) && id !in db.observations
    ensures T.Persist(T.EnsureWatch(db, x), x, id, o, now) == Result.Ok(kept) && Consistent(kept)
    ensures OnlyEvidence(db, kept) && kept.observations == db.observations[id := ObservationRow(x, o, now)]
    ensures T.ReadAuthoritative(kept, x) == T.ReadAuthoritative(db, x)
  {
    var marked := T.EnsureWatch(db, x);
    hide Consistent, T.Persist, T.ReadAuthoritative;
    PersistOutcome(marked, x, id, o, now);
    kept := T.Persist(marked, x, id, o, now).value;
    EnsureWatchConsistent(db, x);
    PersistConsistent(marked, x, id, o, now);
    SameAuthority(db, kept, x, id, ObservationRow(x, o, now));
  }

  /**
   A VALID observation that is not newer than authority is evidence only. A newer one is promoted exactly
   when the policy answers and the identifiers of its drafts are good; otherwise the run raises, with the
   evidence kept.
   */
  lemma ValidRun(db: T.Database, x: WatchId, retry: RetryPolicy, s: Surroundings, o: Observation)
    requires retry.Valid() && Consistent(db) && Recordable(db, s)
    requires Conclusion(retry, s) == Observed(o) && o.status == Valid
    ensures var end, drafts := RunEndOf(db, x, retry, s), s.policy(T.ReadAuthoritative(db, x), o);
            if x in db.authority && o.observedAt <= db.authority[x].observedAt
            then end.outcome == Completed(o, []) && KeepsOnlyEvidence(db, end.db, x, s, o)
            else if drafts.Some? && Acceptable(db.events, s.factory, |drafts.value|)
            then end.outcome.Completed? && end.outcome.observation == o
                 && Promotes(db, end.db, x, s, o, drafts.value, end.outcome.events)
            else end.outcome == RunRaised && KeepsOnlyEvidence(db, end.db, x, s, o)
  {
    var id, now := s.observationId.value, s.recordClock.value;
    hide Consistent, Conclusion, Acceptable, Drafted, EventsExtended, OutboxExtended, T.Persist, T.ReadAuthoritative;
    var kept := Kept(db, x, id, o, now);
    PromotionOutcome(kept, x, id, s.policy, s.factory, now);
    hide T.Promote;
  }
}
