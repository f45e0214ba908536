/**
 Identity along runs: an outbox id stands for one event for good. Its row keeps the event id, live or
 removed, and the event itself stays word for word as long as the row is live.
 */
module Lineage {
  import opened Entities
  import opened Tables
  import opened Consistency
  import opened Promotion
  import opened Protocol
  import opened Safety
  import opened Accounting

  ghost predicate RowsTraced(outbox: Outbox, archive: Archive, after: Outbox, archive': Archive) {
    && (forall id :: id in outbox ==>
          if id in after then after[id].eventId == outbox[id].eventId
          else id in archive' && archive'[id].row.eventId == outbox[id].eventId)
    && (forall id :: id in archive ==> id in archive' && archive'[id] == archive[id])
  }

  ghost predicate EventsTraced(outbox: Outbox, events: Events, after: Outbox, events': Events) {
    forall id :: id in outbox && id in after ==>
      var e := outbox[id].eventId;
      e in events && e in events' && events'[e] == events[e]
  }

  ghost predicate Traced(w: World, after: World) {
    && RowsTraced(w.db.outbox, w.archive, after.db.outbox, after.archive)
    && EventsTraced(w.db.outbox, w.db.events, after.db.outbox, after.db.events)
  }

  // ---------------------------------------------------------------- one step

  /** Rows may change in place as long as they keep their event ids, and events may be added. */
  lemma InPlaceTraced(w: World, after: World)
    requires EventsPaired(w.db.events, w.db.outbox)
    requires forall id :: id in w.db.outbox ==>
               id in after.db.outbox && after.db.outbox[id].eventId == w.db.outbox[id].eventId
    requires forall e :: e in w.db.events ==> e in after.db.events && after.db.events[e] == w.db.events[e]
    requires after.archive == w.archive
    ensures Traced(w, after)
  {
  }

  lemma RemovalTraced(w: World, after: World, ids: set<nat>, forced: bool)
    requires Numbered(w.db.outbox, w.archive, w.db.outboxSequence) && EventsPaired(w.db.events, w.db.outbox)
    requires after.db.outbox == w.db.outbox - ids
    requires after.archive == w.archive + ArchiveOf(w.db, ids, forced)
    requires forall e :: e in w.db.events && e !in EventIdsOf(w.db, ids) ==>
               e in after.db.events && after.db.events[e] == w.db.events[e]
    ensures Traced(w, after)
  {
    forall id | id in w.db.outbox && id in after.db.outbox
      ensures w.db.outbox[id].eventId !in EventIdsOf(w.db, ids)
    {
    }
  }

  lemma MarkTraced(w: World, x: WatchId)
    requires EventsPaired(w.db.events, w.db.outbox)
    ensures Traced(w, w.(db := EnsureWatch(w.db, x)))
  {
    hide EventsPaired, Traced;
    InPlaceTraced(w, w.(db := EnsureWatch(w.db, x)));
  }

  lemma PersistTraced(w: World, x: WatchId, id: ObservationId, observation: Observation, now: Instant)
    requires EventsPaired(w.db.events, w.db.outbox)
    ensures Traced(w, PersistStep(w, x, id, observation, now))
  {
    var after := PersistStep(w, x, id, observation, now);
    assert after.db.outbox == w.db.outbox && after.db.events == w.db.events && after.archive == w.archive;
    hide EventsPaired, Traced, PersistStep;
    InPlaceTraced(w, after);
  }

  lemma PurgeTraced(w: World, cutoff: Instant, watch: Option<WatchId>)
    requires Numbered(w.db.outbox, w.archive, w.db.outboxSequence) && EventsPaired(w.db.events, w.db.outbox)
    ensures Traced(w, PurgeStep(w, cutoff, watch))
  {
    hide EventsPaired, Numbered, Traced, ArchiveOf, PurgeTargets, EventIdsOf;
    RemovalTraced(w, PurgeStep(w, cutoff, watch), PurgeTargets(w.db, cutoff, watch), false);
  }

  lemma DeleteTraced(w: World, x: WatchId, allow: bool)
    requires Numbered(w.db.outbox, w.archive, w.db.outboxSequence) && EventsPaired(w.db.events, w.db.outbox)
    ensures Traced(w, DeleteStep(w, x, allow))
  {
    var after := DeleteStep(w, x, allow);
    if DeleteWatch(w.db, x, allow).Ok? {
      WatchOutboxEvents(w.db, x);
      hide EventsPaired, Numbered, ArchiveOf, OutboxOfEvents, EventsOfWatch;
      RemovalTraced(w, after, OutboxOfEvents(w.db, EventsOfWatch(w.db, x)), allow);
    } else {
      InPlaceTraced(w, after);
    }
  }

  lemma PromoteTraced(
    w: World, x: WatchId, id: ObservationId, policy: Policy, factory: seq<Option<EventId>>, now: Instant)
    requires Consistent(w.db)
    ensures Traced(w, PromoteStep(w, x, id, policy, factory, now))
  {
    PromotionOutcome(w.db, x, id, policy, factory, now);
    AuthorityJoin(w.db, x);
    var after := PromoteStep(w, x, id, policy, factory, now);
    assert EventsPaired(w.db.events, w.db.outbox);
    hide Consistent, Promote, EventsPaired;
    InPlaceTraced(w, after);
  }

  lemma DeliveryInPlace(config: DeliveryConfig, w: World, a: Action)
    requires config.Valid() && IsDelivery(a)
    ensures var after := Next(config, w, a).db.outbox;
            forall id :: id in w.db.outbox ==> id in after && after[id].eventId == w.db.outbox[id].eventId
  {
    if a.Acknowledgement? {
      AcknowledgementInPlace(config, w, a.dispatcher, a.now);
    }
    hide AcknowledgeStep, DueFrom;
  }

  lemma AcknowledgementInPlace(config: DeliveryConfig, w: World, d: nat, now: Instant)
    requires config.Valid()
    ensures var after := AcknowledgeStep(config, w, d, now).db.outbox;
            forall id :: id in w.db.outbox ==> id in after && after[id].eventId == w.db.outbox[id].eventId
  {
    var phase := PhaseOf(w, d);
    if phase.Answered? && phase.pending != [] && phase.call < |w.calls| {
      hide AcknowledgeTx;
      var tx := AcknowledgeTx(config, w.db, phase.pending[0], w.calls[phase.call].outcome, now);
      if tx.Some? && tx.value.Ok? {
        AcknowledgedRow(config, w.db, phase.pending[0], w.calls[phase.call].outcome, now);
      }
    }
  }

  lemma DeliveryTraced(config: DeliveryConfig, w: World, a: Action)
    requires config.Valid() && EventsPaired(w.db.events, w.db.outbox) && IsDelivery(a)
    ensures Traced(w, Next(config, w, a))
  {
    hide EventsPaired, Next, Traced;
    DeliveryKeepsWatchSide(config, w, a);
    DeliveryInPlace(config, w, a);
    InPlaceTraced(w, Next(config, w, a));
  }

  lemma StorageTraced(config: DeliveryConfig, w: World, a: Action)
    requires Consistent(w.db) && Numbered(w.db.outbox, w.archive, w.db.outboxSequence) && !IsDelivery(a)
    ensures Traced(w, Next(config, w, a))
  {
    assert EventsPaired(w.db.events, w.db.outbox);
    hide Consistent, EventsPaired, Numbered, Traced, EnsureWatch, PersistStep, PromoteStep, PurgeStep, DeleteStep;
    if a.MarkRunStarted? {
      MarkTraced(w, a.watchId);
    } else if a.PersistObservation? {
      PersistTraced(w, a.watchId, a.observationId, a.observation, a.now);
    } else if a.PromoteObservation? {
      PromoteTraced(w, a.watchId, a.observationId, a.policy, a.factory, a.now);
    } else if a.Purge? {
      PurgeTraced(w, a.cutoff, a.watch);
    } else {
      DeleteTraced(w, a.watchId, a.allowUndelivered);
    }
  }

  lemma NextTraced(config: DeliveryConfig, w: World, a: Action)
    requires config.Valid() && Consistent(w.db) && Numbered(w.db.outbox, w.archive, w.db.outboxSequence)
    ensures Traced(w, Next(config, w, a))
  {
    assert EventsPaired(w.db.events, w.db.outbox);
    hide Consistent, EventsPaired, Numbered, Traced, Next;
    if IsDelivery(a) {
      DeliveryTraced(config, w, a);
    } else {
      StorageTraced(config, w, a);
    }
  }

  // ---------------------------------------------------------------- whole runs

  lemma TracedOn(w: World, mid: World, after: World)
    requires Traced(w, mid) && Traced(mid, after)
    requires Numbered(after.db.outbox, after.archive, after.db.outboxSequence)
    ensures Traced(w, after)
  {
    forall id | id in w.db.outbox && id in after.db.outbox
      ensures id in mid.db.outbox
    {
    }
  }

  lemma {:induction false} RunTraced(config: DeliveryConfig, w: World, actions: seq<Action>)
    requires config.Valid() && Consistent(w.db) && Accounted(config, w)
    ensures Traced(w, Run(config, w, actions))
    decreases actions
  {
    if actions == [] {
      assert EventsPaired(w.db.events, w.db.outbox);
      hide Consistent, Accounted;
      InPlaceTraced(w, w);
    } else {
      var mid := Next(config, w, actions[0]);
      NextConsistent(config, w, actions[0]);
      NextAccounted(config, w, actions[0]);
      RunAccounted(config, mid, actions[1..]);
      NextTraced(config, w, actions[0]);
      RunTraced(config, mid, actions[1..]);
      var after := Run(config, mid, actions[1..]);
      assert Numbered(after.db.outbox, after.archive, after.db.outboxSequence);
      hide Consistent, Accounted, Traced, Numbered, Next;
      TracedOn(w, mid, after);
    }
  }

  /** The same, in terms of every row ever committed. */
  lemma {:induction false} RowKeepsEvent(config: DeliveryConfig, w: World, actions: seq<Action>, id: nat)
    requires config.Valid() && Consistent(w.db) && Accounted(config, w) && id in Rows(w)
    ensures var after := Run(config, w, actions);
            && id in Rows(after) && Rows(after)[id].eventId == Rows(w)[id].eventId
            && (id in w.db.outbox && id in after.db.outbox ==>
                  var e := w.db.outbox[id].eventId;
                  e in w.db.events && e in after.db.events && after.db.events[e] == w.db.events[e])
  {
    RunTraced(config, w, actions);
    RunAccounted(config, w, actions);
    var after := Run(config, w, actions);
    assert Numbered(after.db.outbox, after.archive, after.db.outboxSequence);
    hide Consistent, Accounted, Run;
  }
}
