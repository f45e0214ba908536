/**
 Authority promotion: all-or-nothing insertion of any number of events, strict monotonicity, and
 independence from the order in which overlapping runs reach their promotion transaction.
 */
module Promotion {
  import opened Entities
  import opened Tables
  import opened Consistency

  // ---------------------------------------------------------------- all or nothing

  /** event_id_factory gives n identifiers that are valid, new, and pairwise distinct. */
  ghost predicate Acceptable(events: Events, factory: seq<Option<EventId>>, n: nat) {
    && n <= |factory|
    && (forall i :: 0 <= i < n ==> factory[i].Some? && factory[i].value !in events)
    && (forall i, j :: 0 <= i < j < n ==> factory[i] != factory[j])
  }

  /** `after` holds exactly the rows of `db` and one PENDING row per event, numbered in order. */
  ghost predicate EventsAdded(db: Database, after: Database, events: seq<WatchEvent>, now: Instant) {
    && after.watches == db.watches
    && after.observations == db.observations
    && after.attempts == db.attempts
    && after.attemptSequence == db.attemptSequence
    && after.outboxSequence == db.outboxSequence + |events|
    && OutboxExtended(db.outbox, after.outbox, db.outboxSequence, events, now)
    && EventsExtended(db.events, after.events, events, now)
  }

  /** The outbox row of a new event: PENDING, not attempted, and due at once. */
  ghost predicate FreshRow(row: OutboxRow, eventId: EventId, now: Instant) {
    && row.eventId == eventId && row.status == Pending && row.attempts == 0
    && row.nextAttemptAt == Some(now) && row.lockedAt == None && row.deliveredAt == None && row.lastError == None
    && row.createdAt == now && row.updatedAt == now
  }

  ghost predicate OutboxExtended(before: Outbox, after: Outbox, base: nat, events: seq<WatchEvent>, now: Instant) {
    && (forall id :: id in after <==> id in before || base < id <= base + |events|)
    && (forall id :: id in before ==> after[id] == before[id])
    && (forall i :: base < i <= base + |events| ==> FreshRow(after[i], events[i - base - 1].eventId, now))
  }

  ghost predicate EventsExtended(before: Events, after: Events, events: seq<WatchEvent>, now: Instant) {
    && (forall e :: e in after ==> e in before || exists i :: 0 <= i < |events| && events[i].eventId == e)
    && (forall e :: e in before ==> e in after && after[e] == before[e])
    && (forall i :: 0 <= i < |events| ==>
          events[i].eventId in after && after[events[i].eventId] == EventRow(events[i], now))
  }

  lemma AcceptableTail(events: Events, factory: seq<Option<EventId>>, n: nat, row: EventRow)
    requires n > 0 && factory != [] && factory[0].Some? && factory[0].value !in events
    ensures Acceptable(events, factory, n)
            <==> Acceptable(events[factory[0].value := row], factory[1..], n - 1)
  {
    var rest, more := factory[1..], events[factory[0].value := row];
    if Acceptable(more, rest, n - 1) {
      forall i | 0 <= i < n
        ensures factory[i].Some? && factory[i].value !in events
        ensures i > 0 ==> factory[0] != factory[i]
      {
        if i > 0 {
          assert factory[i] == rest[i - 1];
        }
      }
      forall i, j | 0 <= i < j < n
        ensures factory[i] != factory[j]
      {
        if i > 0 {
          assert factory[i] == rest[i - 1] && factory[j] == rest[j - 1];
        }
      }
    }
  }

  lemma OutboxStep(before: Outbox, after: Outbox, base: nat, event: WatchEvent, events: seq<WatchEvent>, now: Instant)
    requires OutboxNumbered(before, base)
    requires OutboxExtended(before[base + 1 := PendingRow(event.eventId, now)], after, base + 1, events, now)
    ensures OutboxExtended(before, after, base, [event] + events, now)
  {
    var all := [event] + events;
    assert FreshRow(after[base + 1], event.eventId, now);
    forall i | base < i <= base + |all|
      ensures FreshRow(after[i], all[i - base - 1].eventId, now)
    {
      if i > base + 1 {
        assert all[i - base - 1] == events[i - (base + 1) - 1];
      }
    }
  }

  lemma EventsStep(before: Events, after: Events, event: WatchEvent, events: seq<WatchEvent>, now: Instant)
    requires event.eventId !in before
    requires EventsExtended(before[event.eventId := EventRow(event, now)], after, events, now)
    ensures EventsExtended(before, after, [event] + events, now)
  {
    var all := [event] + events;
    assert all[0] == event;
    forall e | e in after && e !in before
      ensures exists i :: 0 <= i < |all| && all[i].eventId == e
    {
      if e == event.eventId {
        assert all[0].eventId == e;
      } else {
        var i :| 0 <= i < |events| && events[i].eventId == e;
        assert all[i + 1].eventId == e;
      }
    }
    forall i | 0 <= i < |all|
      ensures all[i].eventId in after && after[all[i].eventId] == EventRow(all[i], now)
    {
      if i > 0 {
        assert all[i] == events[i - 1];
      }
    }
  }

  /** The event says what the draft says, under its own identifier, at the time of the observation. */
  ghost predicate Tells(event: WatchEvent, w: WatchId, eventId: EventId, observedAt: Instant, draft: EventDraft) {
    && event.eventId == eventId && event.watchId == w && event.occurredAt == observedAt
    && event.eventType == draft.eventType && event.severity == draft.severity
    && event.dedupeKey == draft.dedupeKey && event.subject == draft.subject && event.payload == draft.payload
  }

  /** One event per draft, with the identifier of the same index. */
  ghost predicate Drafted(
    events: seq<WatchEvent>, w: WatchId, observation: Observation, drafts: seq<EventDraft>,
    factory: seq<Option<EventId>>)
  {
    && |events| == |drafts| <= |factory|
    && (forall i :: 0 <= i < |drafts| ==>
          factory[i].Some? && Tells(events[i], w, factory[i].value, observation.observedAt, drafts[i]))
  }

  lemma DraftedStep(
    event: WatchEvent, events: seq<WatchEvent>, w: WatchId, observation: Observation, drafts: seq<EventDraft>,
    factory: seq<Option<EventId>>)
    requires drafts != [] && factory != [] && factory[0].Some?
    requires Tells(event, w, factory[0].value, observation.observedAt, drafts[0])
    requires Drafted(events, w, observation, drafts[1..], factory[1..])
    ensures Drafted([event] + events, w, observation, drafts, factory)
  {
    forall i | 1 <= i < |drafts|
      ensures factory[i].Some?
      ensures Tells(events[i - 1], w, factory[i].value, observation.observedAt, drafts[i])
    {
      assert factory[i] == factory[1..][i - 1] && drafts[i] == drafts[1..][i - 1];
    }
  }

  /** For any number of drafts, the loop commits iff every identifier is acceptable. */
  lemma {:induction false} InsertEventsCommits(
    db: Database, w: WatchId, observation: Observation, drafts: seq<EventDraft>,
    factory: seq<Option<EventId>>, now: Instant)
    ensures var r := InsertEvents(db, w, observation, drafts, factory, now);
            && (r.Ok? <==> Acceptable(db.events, factory, |drafts|))
            && (r.Err? ==> r.error == EventIdError || r.error == IntegrityError)
    decreases drafts
  {
    if drafts != [] && factory != [] && factory[0].Some? && factory[0].value !in db.events {
      var event := EventFromDraft(w, factory[0].value, observation, drafts[0]);
      InsertEventsCommits(InsertEvent(db, event, now), w, observation, drafts[1..], factory[1..], now);
      AcceptableTail(db.events, factory, |drafts|, EventRow(event, now));
    }
  }

  /** A missing identifier and a duplicate one raise differently: the first of them decides. */
  lemma {:induction false} InsertEventsFails(
    db: Database, w: WatchId, observation: Observation, drafts: seq<EventDraft>,
    factory: seq<Option<EventId>>, now: Instant, i: nat)
    requires i < |drafts| && Acceptable(db.events, factory, i) && !Acceptable(db.events, factory, i + 1)
    ensures InsertEvents(db, w, observation, drafts, factory, now)
            == Err(if i >= |factory| || factory[i] == None then EventIdError else IntegrityError)
    decreases drafts
  {
    if i > 0 {
      var event := EventFromDraft(w, factory[0].value, observation, drafts[0]);
      AcceptableTail(db.events, factory, i, EventRow(event, now));
      AcceptableTail(db.events, factory, i + 1, EventRow(event, now));
      InsertEventsFails(InsertEvent(db, event, now), w, observation, drafts[1..], factory[1..], now, i - 1);
    }
  }

  /** When it commits, the events are those of the drafts, and authority is not touched. */
  lemma {:induction false} InsertEventsDrafted(
    db: Database, w: WatchId, observation: Observation, drafts: seq<EventDraft>,
    factory: seq<Option<EventId>>, now: Instant)
    requires InsertEvents(db, w, observation, drafts, factory, now).Ok?
    ensures var done := InsertEvents(db, w, observation, drafts, factory, now).value;
            && done.db.authority == db.authority
            && Drafted(done.events, w, observation, drafts, factory)
    decreases drafts
  {
    if drafts != [] {
      var event := EventFromDraft(w, factory[0].value, observation, drafts[0]);
      var mid := InsertEvent(db, event, now);
      InsertEventsDrafted(mid, w, observation, drafts[1..], factory[1..], now);
      var rest := InsertEvents(mid, w, observation, drafts[1..], factory[1..], now).value;
      DraftedStep(event, rest.events, w, observation, drafts, factory);
    }
  }

  lemma AddedStep(db: Database, event: WatchEvent, after: Database, events: seq<WatchEvent>, now: Instant)
    requires OutboxNumbered(db.outbox, db.outboxSequence) && event.eventId !in db.events
    requires EventsAdded(InsertEvent(db, event, now), after, events, now)
    ensures EventsAdded(db, after, [event] + events, now)
  {
    hide OutboxExtended, EventsExtended;
    assert OutboxExtended(db.outbox, after.outbox, db.outboxSequence, [event] + events, now) by {
      OutboxStep(db.outbox, after.outbox, db.outboxSequence, event, events, now);
    }
    assert EventsExtended(db.events, after.events, [event] + events, now) by {
      EventsStep(db.events, after.events, event, events, now);
    }
  }

  /** When it commits, it adds exactly one event and one PENDING outbox row per event, in order. */
  lemma {:induction false} InsertEventsAddsAll(
    db: Database, w: WatchId, observation: Observation, drafts: seq<EventDraft>,
    factory: seq<Option<EventId>>, now: Instant)
    requires OutboxNumbered(db.outbox, db.outboxSequence)
    requires InsertEvents(db, w, observation, drafts, factory, now).Ok?
    ensures var done := InsertEvents(db, w, observation, drafts, factory, now).value;
            EventsAdded(db, done.db, done.events, now)
    decreases drafts
  {
    if drafts != [] {
      var event := EventFromDraft(w, factory[0].value, observation, drafts[0]);
      var mid := InsertEvent(db, event, now);
      InsertEventsAddsAll(mid, w, observation, drafts[1..], factory[1..], now);
      var rest := InsertEvents(mid, w, observation, drafts[1..], factory[1..], now).value;
      AddedStep(db, event, rest.db, rest.events, now);
    }
  }

  // ---------------------------------------------------------------- one promotion

  /** No authority yet, or an older one: an equal timestamp does not replace authority. */
  ghost predicate Fresher(db: Database, w: WatchId, id: ObservationId)
    requires id in db.observations
  {
    w !in db.authority || db.authority[w].observedAt < db.observations[id].observation.observedAt
  }

  lemma AuthorityJoin(db: Database, w: WatchId)
    requires Consistent(db)
    ensures var previous := ReadAuthoritative(db, w);
            && (previous.Some? <==> w in db.authority)
            && (previous.Some? ==>
                  && db.authority[w].observationId in db.observations
                  && previous.value == db.observations[db.authority[w].observationId].observation
                  && previous.value.observedAt == db.authority[w].observedAt
                  && previous.value.state == db.authority[w].state
                  && previous.value.status == Valid)
  {
    if w in db.authority {
      assert RowBacked(db.authority[w], w, db.observations);
    }
  }

  /**
   The whole outcome of a promotion. It commits iff the observation is still there and either it is
   not fresher than authority (then nothing changes) or the policy and the identifiers are good (then
   the authority, all n events and all n PENDING outbox rows appear together).
   */
  lemma PromotionOutcome(
    db: Database, w: WatchId, id: ObservationId, policy: Policy, factory: seq<Option<EventId>>, now: Instant)
    requires Consistent(db)
    ensures var r := Promote(db, w, id, policy, factory, now);
            var live := id in db.observations && db.observations[id].watchId == w;
            && (!live <==> r == Err(MissingObservation))
            && (live && !Fresher(db, w, id) ==> r == Ok(Inserted(db, [])))
            && (live && Fresher(db, w, id) ==>
                  var current := db.observations[id].observation;
                  var drafts := policy(ReadAuthoritative(db, w), current);
                  && (drafts.None? <==> r == Err(PolicyError))
                  && (r.Ok? <==> drafts.Some? && Acceptable(db.events, factory, |drafts.value|))
                  && (r.Ok? ==>
                        && EventsAdded(db, r.value.db, r.value.events, now)
                        && Drafted(r.value.events, w, current, drafts.value, factory)
                        && r.value.db.authority ==
                             db.authority[w := AuthorityRow(id, current.state, current.observedAt, now)]))
  {
    AuthorityJoin(db, w);
    if id in db.observations && db.observations[id].watchId == w && Fresher(db, w, id) {
      var current := db.observations[id].observation;
      var drafts := policy(ReadAuthoritative(db, w), current);
      if drafts.Some? {
        InsertEventsCommits(db, w, current, drafts.value, factory, now);
        if InsertEvents(db, w, current, drafts.value, factory, now).Ok? {
          InsertEventsAddsAll(db, w, current, drafts.value, factory, now);
          InsertEventsDrafted(db, w, current, drafts.value, factory, now);
        }
      }
    }
  }

  // ---------------------------------------------------------------- order independence

  /** One promotion transaction of some run of the watch. */
  datatype Promotion = Promotion(
    observationId: ObservationId, policy: Policy, factory: seq<Option<EventId>>, now: Instant)

  /** The promotions commit one after the other; the first failing one ends the story. */
  function PromoteAll(db: Database, w: WatchId, steps: seq<Promotion>): Result<Database>
    decreases steps
  {
    if steps == [] then
      Ok(db)
    else
      var s := steps[0];
      match Promote(db, w, s.observationId, s.policy, s.factory, s.now)
      case Err(error) => Err(error)
      case Ok(inserted) => PromoteAll(inserted.db, w, steps[1..])
  }

  ghost predicate AllValid(db: Database, steps: seq<Promotion>) {
    forall i :: 0 <= i < |steps| ==>
      steps[i].observationId in db.observations
      && db.observations[steps[i].observationId].observation.status == Valid
  }

  function ObservedAt(db: Database, id: ObservationId): int
    requires id in db.observations
  {
    db.observations[id].observation.observedAt
  }

  /** Step k is the first among the newest of the steps, and newer than the authority at the start. */
  ghost predicate Wins(db: Database, w: WatchId, steps: seq<Promotion>, k: nat)
    requires AllValid(db, steps)
  {
    && k < |steps|
    && Fresher(db, w, steps[k].observationId)
    && (forall i :: 0 <= i < |steps| ==>
          ObservedAt(db, steps[i].observationId) <= ObservedAt(db, steps[k].observationId))
    && (forall i :: 0 <= i < k ==>
          ObservedAt(db, steps[i].observationId) < ObservedAt(db, steps[k].observationId))
  }

  ghost predicate NoneFresher(db: Database, w: WatchId, steps: seq<Promotion>)
    requires AllValid(db, steps)
  {
    forall i :: 0 <= i < |steps| ==> !Fresher(db, w, steps[i].observationId)
  }

  /** Authority ends as the observation of step k. */
  ghost predicate WonBy(db: Database, after: Database, w: WatchId, steps: seq<Promotion>, k: nat)
    requires AllValid(db, steps)
  {
    && Wins(db, w, steps, k)
    && w in after.authority
    && after.authority[w].observationId == steps[k].observationId
    && after.authority[w].observedAt == ObservedAt(db, steps[k].observationId)
  }

  ghost predicate Settled(db: Database, after: Database, w: WatchId, steps: seq<Promotion>)
    requires AllValid(db, steps)
  {
    && after.observations == db.observations
    && (NoneFresher(db, w, steps) ==> after.authority == db.authority)
    && (!NoneFresher(db, w, steps) ==> exists k: nat :: WonBy(db, after, w, steps, k))
  }

  /** What the first promotion leaves behind for the others. */
  ghost predicate OneStep(db: Database, mid: Database, w: WatchId, id: ObservationId) {
    && id in db.observations && mid.observations == db.observations
    && (if Fresher(db, w, id)
        then w in mid.authority && mid.authority[w].observationId == id
             && mid.authority[w].observedAt == ObservedAt(db, id)
        else mid == db)
  }

  /** Authority after the steps is the first newest observation; it is untouched iff none is fresher. */
  lemma {:induction false} FirstNewestBecomesAuthority(db: Database, w: WatchId, steps: seq<Promotion>)
    requires Consistent(db) && AllValid(db, steps)
    ensures var r := PromoteAll(db, w, steps);
            r.Ok? ==> Consistent(r.value) && Settled(db, r.value, w, steps)
    decreases steps
  {
    if steps != [] {
      var s := steps[0];
      var rest := steps[1..];
      PromotionOutcome(db, w, s.observationId, s.policy, s.factory, s.now);
      PromoteConsistent(db, w, s.observationId, s.policy, s.factory, s.now);
      var first := Promote(db, w, s.observationId, s.policy, s.factory, s.now);
      if first.Ok? {
        var mid := first.value.db;
        assert AllValid(mid, rest);
        FirstNewestBecomesAuthority(mid, w, rest);
        var r := PromoteAll(mid, w, rest);
        if r.Ok? {
          SettledStep(db, mid, r.value, w, steps);
        }
      }
    }
  }

  lemma SettledStep(db: Database, mid: Database, after: Database, w: WatchId, steps: seq<Promotion>)
    requires steps != [] && AllValid(db, steps) && OneStep(db, mid, w, steps[0].observationId)
    requires AllValid(mid, steps[1..]) && Settled(mid, after, w, steps[1..])
    ensures Settled(db, after, w, steps)
  {
    var rest := steps[1..];
    if NoneFresher(mid, w, rest) {
      forall i | 1 <= i < |steps|
        ensures !Fresher(mid, w, steps[i].observationId)
      {
        assert steps[i] == rest[i - 1];
      }
      if Fresher(db, w, steps[0].observationId) {
        assert WonBy(db, after, w, steps, 0);
      }
    } else {
      var k: nat :| WonBy(mid, after, w, rest, k);
      WinnerShifts(db, mid, w, steps, k);
      assert WonBy(db, after, w, steps, k + 1);
    }
  }

  lemma WinnerShifts(db: Database, mid: Database, w: WatchId, steps: seq<Promotion>, k: nat)
    requires steps != [] && AllValid(db, steps) && OneStep(db, mid, w, steps[0].observationId)
    requires AllValid(mid, steps[1..]) && Wins(mid, w, steps[1..], k)
    ensures Wins(db, w, steps, k + 1)
  {
    var rest := steps[1..];
    assert steps[k + 1] == rest[k];
    forall i | 1 <= i < |steps|
      ensures ObservedAt(db, steps[i].observationId) <= ObservedAt(db, steps[k + 1].observationId)
      ensures i < k + 1 ==> ObservedAt(db, steps[i].observationId) < ObservedAt(db, steps[k + 1].observationId)
    {
      assert steps[i] == rest[i - 1];
    }
  }

  function IdsOf(steps: seq<Promotion>): set<ObservationId> {
    set i | 0 <= i < |steps| :: steps[i].observationId
  }

  ghost predicate DistinctTimes(db: Database, steps: seq<Promotion>)
    requires AllValid(db, steps)
  {
    forall i, j :: 0 <= i < |steps| && 0 <= j < |steps|
                   && ObservedAt(db, steps[i].observationId) == ObservedAt(db, steps[j].observationId)
                   ==> steps[i].observationId == steps[j].observationId
  }

  /**
   Overlapping runs of a watch whose observations have distinct timestamps leave the same authority
   in every order of their promotions, whatever their policies and event identifiers are.
   */
  lemma {:induction false} PromotionOrderIsIrrelevant(db: Database, w: WatchId, a: seq<Promotion>, b: seq<Promotion>)
    requires Consistent(db) && AllValid(db, a) && AllValid(db, b)
    requires IdsOf(a) == IdsOf(b) && DistinctTimes(db, a)
    requires PromoteAll(db, w, a).Ok? && PromoteAll(db, w, b).Ok?
    ensures var x, y := PromoteAll(db, w, a).value, PromoteAll(db, w, b).value;
            && (w in x.authority <==> w in y.authority)
            && (w in x.authority ==>
                  && x.authority[w].observationId == y.authority[w].observationId
                  && x.authority[w].state == y.authority[w].state
                  && x.authority[w].observedAt == y.authority[w].observedAt)
  {
    FirstNewestBecomesAuthority(db, w, a);
    FirstNewestBecomesAuthority(db, w, b);
    var x, y := PromoteAll(db, w, a).value, PromoteAll(db, w, b).value;
    if NoneFresher(db, w, a) {
      forall j | 0 <= j < |b|
        ensures !Fresher(db, w, b[j].observationId)
      {
        assert b[j].observationId in IdsOf(a);
      }
    } else {
      var k: nat :| WonBy(db, x, w, a, k);
      SameWinner(db, y, w, a, b, k);
      assert RowBacked(x.authority[w], w, x.observations) && RowBacked(y.authority[w], w, y.observations);
    }
  }

  lemma SameWinner(db: Database, after: Database, w: WatchId, a: seq<Promotion>, b: seq<Promotion>, k: nat)
    requires AllValid(db, a) && AllValid(db, b) && IdsOf(a) == IdsOf(b) && DistinctTimes(db, a)
    requires Wins(db, w, a, k) && Settled(db, after, w, b)
    ensures w in after.authority && after.authority[w].observationId == a[k].observationId
  {
    assert a[k].observationId in IdsOf(b);
    var other :| 0 <= other < |b| && b[other].observationId == a[k].observationId;
    assert Fresher(db, w, b[other].observationId);
    var l: nat :| WonBy(db, after, w, b, l);
    assert b[l].observationId in IdsOf(a);
    var back :| 0 <= back < |a| && a[back].observationId == b[l].observationId;
    assert ObservedAt(db, a[k].observationId) == ObservedAt(db, a[back].observationId);
  }
}
