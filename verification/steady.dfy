/**
 What makes a dispatcher give up claims in hand, exactly, and which steps never do. Without such steps
 no claim is stranded, and the waiting bound is S / batch_size alone.
 */
module Steady {
  import opened Entities
  import opened Tables
  import opened Consistency
  import opened Protocol
  import opened Safety
  import opened Accounting
  import opened Recovery
  import opened Progress
  import opened Lineage
  import opened Dispatcher

  /** The claims in hand. */
  function Hand(phase: Phase): seq<ClaimedEvent> {
    if phase.Sending? || phase.Answered? then phase.pending else []
  }

  /** An acknowledgement that does not commit. */
  ghost predicate Refused(config: DeliveryConfig, w: World, d: nat, now: Instant) {
    var phase := PhaseOf(w, d);
    && phase.Answered? && phase.pending != [] && phase.call < |w.calls|
    && var tx := AcknowledgeTx(config, w.db, phase.pending[0], w.calls[phase.call].outcome, now);
       !(tx.Some? && tx.value.Ok?)
  }

  ghost predicate GivesUp(config: DeliveryConfig, w: World, a: Action) {
    || (a.Interrupt? && Hand(PhaseOf(w, a.dispatcher)) != [])
    || (a.CallSink? && a.outcome.Broke? && PhaseOf(w, a.dispatcher).Sending? && Hand(PhaseOf(w, a.dispatcher)) != [])
    || (a.Acknowledgement? && Refused(config, w, a.dispatcher, a.now))
  }

  lemma LostIffGivesUp(config: DeliveryConfig, w: World, a: Action)
    ensures LostBy(config, w, a) != [] <==> GivesUp(config, w, a)
  {
    hide RecoverInFlight, ClaimDue, AcknowledgeTx;
  }

  ghost predicate NeverGivesUp(config: DeliveryConfig, w: World, actions: seq<Action>)
    decreases actions
  {
    actions != [] ==> !GivesUp(config, w, actions[0]) && NeverGivesUp(config, Next(config, w, actions[0]), actions[1..])
  }

  /**
   Claims are stranded by interruptions, by broken sink calls and by refused acknowledgements, and by
   nothing else.
   */
  lemma {:induction false} StrandedNothingIff(config: DeliveryConfig, w: World, actions: seq<Action>)
    ensures Stranded(config, w, actions) == 0 <==> NeverGivesUp(config, w, actions)
    decreases actions
  {
    hide Next, GivesUp, LostBy;
    if actions != [] {
      LostIffGivesUp(config, w, actions[0]);
      StrandedNothingIff(config, Next(config, w, actions[0]), actions[1..]);
    }
  }

  // ---------------------------------------------------------------- steps that never strand a claim

  /** Steps that may make the dispatcher give up: deleting a waiting row is one of them. */
  ghost predicate Hinders(config: DeliveryConfig, w: World, a: Action) {
    || a.Interrupt?
    || (a.CallSink? && a.outcome.Broke?)
    || (a.Delete? && a.allowUndelivered)
    || (a.Acknowledgement?
        && var phase := PhaseOf(w, a.dispatcher);
           phase.Answered? && phase.pending != [] && phase.call < |w.calls|
           && RetryRaises(config, w.calls[phase.call].outcome, phase.pending[0].attempts, a.now))
  }

  ghost predicate NeverHindered(config: DeliveryConfig, w: World, actions: seq<Action>)
    decreases actions
  {
    actions != [] ==>
      !Hinders(config, w, actions[0]) && NeverHindered(config, Next(config, w, actions[0]), actions[1..])
  }

  /** The claims in hand have their rows. */
  ghost predicate Housed(pending: seq<ClaimedEvent>, outbox: Outbox) {
    forall c :: c in pending ==> c.outboxId in outbox
  }

  /** Only delete_watch with allow_undelivered removes a row that is not terminal. */
  lemma WaitingRowsStay(config: DeliveryConfig, w: World, a: Action, id: nat)
    requires Consistent(w.db) && !IsDelivery(a) && !(a.Delete? && a.allowUndelivered)
    requires id in w.db.outbox && !Terminal(w.db.outbox[id].status)
    ensures var after := Next(config, w, a).db.outbox;
            id in after && after[id] == w.db.outbox[id]
  {
    hide Consistent, PersistStep, PromoteStep, PurgeStep, DeleteStep, EnsureWatch;
    if a.PersistObservation? {
      PersistUndisturbed(w, a.watchId, a.observationId, a.observation, a.now);
      PersistedRows(w, a.watchId, a.observationId, a.observation, a.now);
    } else if a.PromoteObservation? {
      PromotedRows(w, a.watchId, a.observationId, a.policy, a.factory, a.now, id);
    } else if a.Purge? {
      UnpurgedRow(w, a.cutoff, a.watch, id);
    } else if a.Delete? {
      UndeletedRow(w, a.watchId, id);
    } else {
      assert EnsureWatch(w.db, a.watchId).outbox == w.db.outbox by {
        WatchOnly(w.db, a.watchId);
      }
    }
  }

  lemma WatchOnly(db: Database, x: WatchId)
    ensures EnsureWatch(db, x).outbox == db.outbox
  {
  }

  lemma PersistedRows(w: World, x: WatchId, id: ObservationId, observation: Observation, now: Instant)
    ensures PersistStep(w, x, id, observation, now).db.outbox == w.db.outbox
  {
    PersistKeepsOutbox(w.db, x, id, observation, now);
  }

  lemma PromotedRows(
    w: World, x: WatchId, o: ObservationId, policy: Policy, factory: seq<Option<EventId>>, now: Instant, id: nat)
    requires Consistent(w.db) && id in w.db.outbox
    ensures var after := PromoteStep(w, x, o, policy, factory, now).db.outbox;
            id in after && after[id] == w.db.outbox[id]
  {
    var events := PromoteAddsRows(w, x, o, policy, factory, now);
    hide Consistent, PromoteStep;
  }

  lemma UnpurgedRow(w: World, cutoff: Instant, watch: Option<WatchId>, id: nat)
    requires id in w.db.outbox && !Terminal(w.db.outbox[id].status)
    ensures var after := PurgeStep(w, cutoff, watch).db.outbox;
            id in after && after[id] == w.db.outbox[id]
  {
  }

  lemma UndeletedRow(w: World, x: WatchId, id: nat)
    requires id in w.db.outbox && !Terminal(w.db.outbox[id].status)
    ensures var after := DeleteStep(w, x, false).db.outbox;
            id in after && after[id] == w.db.outbox[id]
  {
    assert id in OutboxOfEvents(w.db, EventsOfWatch(w.db, x)) ==> HasUndelivered(w.db, x);
    hide EventsOfWatch, HasUndelivered, OutboxOfEvents;
  }

  /** The state of a dispatcher that loses no claim. */
  ghost predicate HandHoused(w: World, d: nat) {
    Housed(Hand(PhaseOf(w, d)), w.db.outbox)
  }

  lemma StorageKeepsHand(config: DeliveryConfig, w: World, a: Action, d: nat)
    requires Good(config, w, d) && HandHoused(w, d) && !IsDelivery(a) && !(a.Delete? && a.allowUndelivered)
    ensures HandHoused(Next(config, w, a), d)
  {
    GoodIsConsistent(config, w, d);
    HandRowsWait(config, w, d);
    StorageKeepsDeliveries(config, w, a, d);
    hide Good, Consistent, Next, Hand;
    forall c | c in Hand(PhaseOf(w, d))
      ensures c.outboxId in Next(config, w, a).db.outbox
    {
      WaitingRowsStay(config, w, a, c.outboxId);
    }
  }

  lemma HandRowsWait(config: DeliveryConfig, w: World, d: nat)
    requires Good(config, w, d)
    ensures forall c :: c in Hand(PhaseOf(w, d)) && c.outboxId in w.db.outbox ==>
              w.db.outbox[c.outboxId].status == Delivering
  {
    hide Consistent, Accounted;
    var hand := Hand(PhaseOf(w, d));
    forall i | 0 <= i < |hand|
      ensures Current(hand[i], w.db.outbox)
    {
    }
  }

  lemma GoodIsConsistent(config: DeliveryConfig, w: World, d: nat)
    requires Good(config, w, d)
    ensures Consistent(w.db)
  {
  }

  lemma ClaimedHoused(config: DeliveryConfig, w: World, d: nat)
    requires HandHoused(w, d)
    ensures HandHoused(ClaimStep(config, w, d), d)
  {
    var after := ClaimStep(config, w, d);
    if PhaseOf(w, d).Claiming? && ClaimDue(w.db, PhaseOf(w, d).claimTime, config.batchSize).Ok? {
      var now := PhaseOf(w, d).claimTime;
      var ids := DueFrom(w.db, now, 1, config.batchSize);
      forall c | c in PhaseOf(after, d).pending
        ensures c.outboxId in after.db.outbox
      {
        var k :| 0 <= k < |ids| && c == ClaimOf(w.db, ids[k]);
        assert Due(w.db, ids[k], now);
      }
    }
  }

  lemma DeliveryKeepsHand(config: DeliveryConfig, w: World, a: Action)
    requires config.Valid() && IsDelivery(a) && HandHoused(w, a.dispatcher)
    ensures HandHoused(Next(config, w, a), a.dispatcher)
  {
    if a.Claim? {
      ClaimedHoused(config, w, a.dispatcher);
    } else {
      DeliveryInPlace(config, w, a);
      ShorterHand(config, w, a);
      hide Next;
    }
  }

  lemma ShorterHand(config: DeliveryConfig, w: World, a: Action)
    requires IsDelivery(a) && !a.Claim?
    ensures forall c :: c in Hand(PhaseOf(Next(config, w, a), a.dispatcher)) ==> c in Hand(PhaseOf(w, a.dispatcher))
  {
    hide AcknowledgeTx, RecoverInFlight;
  }

  lemma UnhinderedStep(config: DeliveryConfig, w: World, a: Action, d: nat)
    requires Good(config, w, d) && HandHoused(w, d) && (IsDelivery(a) ==> a.dispatcher == d)
    requires !Hinders(config, w, a)
    ensures HandHoused(Next(config, w, a), d) && !GivesUp(config, w, a)
  {
    if IsDelivery(a) {
      DeliveryKeepsHand(config, w, a);
      if a.Acknowledgement? {
        UnhinderedCommits(config, w, d, a.now);
      }
    } else {
      StorageKeepsHand(config, w, a, d);
    }
    hide Good, HandHoused, Next, Refused;
  }

  lemma UnhinderedCommits(config: DeliveryConfig, w: World, d: nat, now: Instant)
    requires Good(config, w, d) && HandHoused(w, d) && !Hinders(config, w, Acknowledgement(d, now))
    ensures !Refused(config, w, d, now)
  {
    var phase := PhaseOf(w, d);
    assert config.Valid() && SoloOrderly(w, d);
    hide Good, SoloOrderly, AcknowledgeTx;
    if phase.Answered? && phase.pending != [] && phase.call < |w.calls| {
      assert phase.pending[0] in phase.pending;
      AcknowledgementCommits(config, w, d, now);
    }
  }

  lemma {:induction false} UnhinderedRun(config: DeliveryConfig, w: World, actions: seq<Action>, d: nat)
    requires Good(config, w, d) && HandHoused(w, d) && Solo(actions, d) && NeverHindered(config, w, actions)
    ensures NeverGivesUp(config, w, actions)
    decreases actions
  {
    hide Good, HandHoused, Next, Hinders, GivesUp;
    if actions != [] {
      UnhinderedStep(config, w, actions[0], d);
      NextGood(config, w, actions[0], d);
      UnhinderedRun(config, Next(config, w, actions[0]), actions[1..], d);
    }
  }

  /**
   A forced deletion does strand claims: deleting the watch of the row in hand makes its acknowledgement
   raise, and the rest of the batch is given up with it.
   */
  lemma {:induction false} DeletionStrands(config: DeliveryConfig, w: World, d: nat, x: WatchId, now: Instant)
    requires PhaseOf(w, d).Answered? && PhaseOf(w, d).pending != [] && PhaseOf(w, d).call < |w.calls|
    requires var id := PhaseOf(w, d).pending[0].outboxId;
             id in w.db.outbox && w.db.outbox[id].eventId in EventsOfWatch(w.db, x)
    ensures Stranded(config, w, [Delete(x, true), Acknowledgement(d, now)]) == |PhaseOf(w, d).pending|
  {
    var deletion, ack := Delete(x, true), Acknowledgement(d, now);
    var deleted := Next(config, w, deletion);
    var after := Next(config, deleted, ack);
    assert [deletion, ack][1..] == [ack] && [ack][1..] == [];
    assert PhaseOf(w, d).pending[0].outboxId !in deleted.db.outbox;
    assert deleted.phases == w.phases && deleted.calls == w.calls;
    assert PhaseOf(after, d) == Idle(false) by {
      RowGone(config, deleted, d, now);
    }
    hide Next;
    assert LostBy(config, w, deletion) == [];
    assert LostBy(config, deleted, ack) == PhaseOf(w, d).pending;
    assert Stranded(config, after, []) == 0;
    assert Stranded(config, deleted, [ack]) == |PhaseOf(w, d).pending| + Stranded(config, after, []);
  }

  lemma RowGone(config: DeliveryConfig, w: World, d: nat, now: Instant)
    requires PhaseOf(w, d).Answered? && PhaseOf(w, d).pending != [] && PhaseOf(w, d).call < |w.calls|
    requires PhaseOf(w, d).pending[0].outboxId !in w.db.outbox
    ensures PhaseOf(AcknowledgeStep(config, w, d, now), d) == Idle(false)
  {
  }

  /** S / batch_size, rounded down, where S counts the attempts left before the row. */
  function SteadyBound(config: DeliveryConfig, w: World, r: nat): int
    requires config.Valid() && r >= 1
  {
    Potential(w.db.outbox, {}, config.maxAttempts, r - 1) / config.batchSize
  }

  lemma {:induction false} SteadyWaiting(config: DeliveryConfig, w: World, actions: seq<Action>, d: nat, r: nat)
    requires Good(config, w, d) && PhaseOf(w, d).Idle? && Solo(actions, d) && 1 <= r <= w.db.outboxSequence
    requires NeverGivesUp(config, w, actions)
    ensures Skips(config, w, actions, r) <= SteadyBound(config, w, r)
  {
    hide Good, Next, Skips, Potential, NeverGivesUp, Stranded;
    BoundedWaiting(config, w, actions, d, r);
    StrandedNothingIff(config, w, actions);
  }

  // ---------------------------------------------------------------- other actors without new events

  /** Start marks, evidence, purges and deletions of watches that have nothing undelivered. */
  predicate Harmless(a: Action) {
    !IsDelivery(a) && !a.PromoteObservation? && !(a.Delete? && a.allowUndelivered)
  }

  /** Rows are removed, and only terminal ones. */
  ghost predicate Thinner(outbox: Outbox, after: Outbox) {
    && (forall id :: id in after ==> id in outbox && after[id] == outbox[id])
    && (forall id :: id in outbox && !Terminal(outbox[id].status) ==> id in after)
  }

  lemma HarmlessThins(config: DeliveryConfig, w: World, a: Action)
    requires Consistent(w.db) && Harmless(a)
    ensures Thinner(w.db.outbox, Next(config, w, a).db.outbox)
  {
    var after := Next(config, w, a).db.outbox;
    forall id | id in after
      ensures id in w.db.outbox && after[id] == w.db.outbox[id]
    {
      hide Consistent;
      HarmlessAddsNothing(config, w, a);
    }
    forall id | id in w.db.outbox && !Terminal(w.db.outbox[id].status)
      ensures id in after
    {
      hide Next;
      WaitingRowsStay(config, w, a, id);
    }
  }

  lemma HarmlessAddsNothing(config: DeliveryConfig, w: World, a: Action)
    requires Harmless(a)
    ensures var after := Next(config, w, a).db.outbox;
            forall id :: id in after ==> id in w.db.outbox && after[id] == w.db.outbox[id]
  {
    hide PersistStep;
    if a.PersistObservation? {
      PersistedRows(w, a.watchId, a.observationId, a.observation, a.now);
    }
  }

  /** What harmless steps leave of a dispatcher's state. */
  ghost predicate Unaffected(config: DeliveryConfig, w: World, after: World, d: nat) {
    && Good(config, after, d) && HandHoused(after, d)
    && PhaseOf(after, d) == PhaseOf(w, d) && after.calls == w.calls
    && after.db.outboxSequence == w.db.outboxSequence
    && TotalOf(config, after, d) <= TotalOf(config, w, d)
    && Thinner(w.db.outbox, after.db.outbox)
  }

  lemma HarmlessStep(config: DeliveryConfig, w: World, a: Action, d: nat)
    requires Good(config, w, d) && HandHoused(w, d) && Harmless(a)
    ensures Unaffected(config, w, Next(config, w, a), d)
  {
    GoodIsConsistent(config, w, d);
    hide Good, Next, HandHoused, TotalOf, Consistent, Thinner;
    HarmlessThins(config, w, a);
    NextGood(config, w, a, d);
    StorageKeepsHand(config, w, a, d);
    StorageKeepsDeliveries(config, w, a, d);
    HarmlessTotal(config, w, a, d);
  }

  lemma HarmlessTotal(config: DeliveryConfig, w: World, a: Action, d: nat)
    requires Good(config, w, d) && Harmless(a)
    ensures Next(config, w, a).db.outboxSequence == w.db.outboxSequence
    ensures TotalOf(config, Next(config, w, a), d) <= TotalOf(config, w, d)
  {
    hide Good, Next, TotalOf;
    OnlyPromotionsNumber(config, w, a);
    NextWithinBudget(config, w, a, d);
    assert ClaimedIdsOf(config, w, a) == [] && LostBy(config, w, a) == [];
    assert config.maxAttempts * 0 == 0;
  }

  ghost predicate AllHarmless(actions: seq<Action>) {
    forall a :: a in actions ==> Harmless(a)
  }

  lemma {:induction false} HarmlessRun(config: DeliveryConfig, w: World, actions: seq<Action>, d: nat)
    requires Good(config, w, d) && HandHoused(w, d) && AllHarmless(actions)
    ensures Unaffected(config, w, Run(config, w, actions), d)
    decreases actions
  {
    hide Good, Next, HandHoused, TotalOf, Harmless;
    if actions != [] {
      HarmlessStep(config, w, actions[0], d);
      HarmlessRun(config, Next(config, w, actions[0]), actions[1..], d);
    }
  }
}
