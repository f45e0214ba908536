/**
 One dispatcher at a time, as the deployment requires: which rows are DELIVERING at each point of
 dispatch_ready, and how rows stranded by an interruption come back. The runs, the purges and the
 deletions of other actors still interleave with its steps.
 */
module Recovery {
  import opened Entities
  import opened Tables
  import opened Consistency
  import opened Protocol
  import opened Safety
  import opened Accounting

  /** No other dispatcher acts. */
  ghost predicate Solo(actions: seq<Action>, d: nat) {
    forall i :: 0 <= i < |actions| && IsDelivery(actions[i]) ==> actions[i].dispatcher == d
  }

  function DeliveringIds(outbox: Outbox): set<nat> {
    set id | id in outbox && outbox[id].status == Delivering
  }

  function PendingIds(pending: seq<ClaimedEvent>): set<nat> {
    set i | 0 <= i < |pending| :: pending[i].outboxId
  }

  ghost predicate Ascending(pending: seq<ClaimedEvent>, sequence: nat) {
    && (forall i :: 0 <= i < |pending| ==> 1 <= pending[i].outboxId <= sequence)
    && (forall i, j :: 0 <= i < j < |pending| ==> pending[i].outboxId < pending[j].outboxId)
  }

  /** A claim in hand matches its row, unless delete_watch has taken the row. */
  ghost predicate Current(c: ClaimedEvent, outbox: Outbox) {
    c.outboxId in outbox ==>
      && outbox[c.outboxId].eventId == c.event.eventId
      && outbox[c.outboxId].attempts == c.attempts
      && outbox[c.outboxId].status == Delivering
  }

  /** The rows in DELIVERING are exactly the unacknowledged rest of the batch. */
  ghost predicate InHand(pending: seq<ClaimedEvent>, outbox: Outbox, sequence: nat) {
    && Ascending(pending, sequence)
    && (forall i :: 0 <= i < |pending| ==> Current(pending[i], outbox))
    && DeliveringIds(outbox) == PendingIds(pending) * outbox.Keys
  }

  ghost predicate Orderly(phase: Phase, outbox: Outbox, sequence: nat) {
    match phase
    case Idle(recovered) => recovered ==> DeliveringIds(outbox) == {}
    case Recovering(_) => true
    case Claiming(_) => DeliveringIds(outbox) == {}
    case Sending(pending) => InHand(pending, outbox, sequence)
    case Answered(pending, _) => pending != [] && InHand(pending, outbox, sequence)
  }

  ghost predicate SoloOrderly(w: World, d: nat) {
    Orderly(PhaseOf(w, d), w.db.outbox, w.db.outboxSequence)
  }

  // ---------------------------------------------------------------- steps of other actors

  /** Rows are added unclaimed, or removed; no row enters or leaves DELIVERING. */
  ghost predicate Undisturbed(outbox: Outbox, sequence: nat, after: Outbox, sequence': nat) {
    && sequence <= sequence'
    && (forall id :: id in after && id in outbox ==> after[id] == outbox[id])
    && (forall id :: id in after && id !in outbox ==> id > sequence && after[id].status != Delivering)
  }

  lemma UndisturbedOrderly(phase: Phase, outbox: Outbox, sequence: nat, after: Outbox, sequence': nat)
    requires Orderly(phase, outbox, sequence) && Undisturbed(outbox, sequence, after, sequence')
    ensures Orderly(phase, after, sequence')
  {
    assert DeliveringIds(after) == DeliveringIds(outbox) * after.Keys;
    if phase.Sending? || phase.Answered? {
      assert DeliveringIds(after) == PendingIds(phase.pending) * after.Keys;
    }
  }

  lemma StorageUndisturbed(config: DeliveryConfig, w: World, a: Action)
    requires Consistent(w.db) && !IsDelivery(a)
    ensures var after := Next(config, w, a);
            && Undisturbed(w.db.outbox, w.db.outboxSequence, after.db.outbox, after.db.outboxSequence)
            && after.phases == w.phases
  {
    hide Consistent, Undisturbed, PromoteStep, PersistStep, PurgeStep, DeleteStep;
    match a
    case MarkRunStarted(x) => UnchangedUndisturbed(w.db, EnsureWatch(w.db, x));
    case PromoteObservation(x, id, policy, factory, now) => PromoteUndisturbed(w, x, id, policy, factory, now);
    case PersistObservation(x, id, observation, now) => PersistUndisturbed(w, x, id, observation, now);
    case Purge(cutoff, watch) => PurgeUndisturbed(w, cutoff, watch);
    case Delete(x, allow) => DeleteUndisturbed(w, x, allow);
  }

  lemma UnchangedUndisturbed(db: Database, after: Database)
    requires after.outbox == db.outbox && after.outboxSequence == db.outboxSequence
    ensures Undisturbed(db.outbox, db.outboxSequence, after.outbox, after.outboxSequence)
  {
  }

  lemma PersistUndisturbed(w: World, x: WatchId, id: ObservationId, observation: Observation, now: Instant)
    ensures var after := PersistStep(w, x, id, observation, now);
            && Undisturbed(w.db.outbox, w.db.outboxSequence, after.db.outbox, after.db.outboxSequence)
            && after.phases == w.phases
  {
    PersistKeepsOutbox(w.db, x, id, observation, now);
  }

  lemma PurgeUndisturbed(w: World, cutoff: Instant, watch: Option<WatchId>)
    ensures var after := PurgeStep(w, cutoff, watch);
            && Undisturbed(w.db.outbox, w.db.outboxSequence, after.db.outbox, after.db.outboxSequence)
            && after.phases == w.phases
  {
  }

  lemma DeleteUndisturbed(w: World, x: WatchId, allow: bool)
    ensures var after := DeleteStep(w, x, allow);
            && Undisturbed(w.db.outbox, w.db.outboxSequence, after.db.outbox, after.db.outboxSequence)
            && after.phases == w.phases
  {
  }

  lemma PromoteUndisturbed(
    w: World, x: WatchId, id: ObservationId, policy: Policy, factory: seq<Option<EventId>>, now: Instant)
    requires Consistent(w.db)
    ensures var after := PromoteStep(w, x, id, policy, factory, now);
            && Undisturbed(w.db.outbox, w.db.outboxSequence, after.db.outbox, after.db.outboxSequence)
            && after.phases == w.phases
  {
    var events := PromoteAddsRows(w, x, id, policy, factory, now);
    hide Consistent, PromoteStep;
  }

  // ---------------------------------------------------------------- steps of the dispatcher

  lemma ClaimedInHand(db: Database, now: Instant, limit: int)
    requires EventsOwned(db.events, db.watches) && ClaimDue(db, now, limit).Ok?
    requires DeliveringIds(db.outbox) == {}
    ensures var claimed := ClaimDue(db, now, limit).value;
            InHand(claimed.claims, claimed.db.outbox, claimed.db.outboxSequence)
  {
    var claimed := ClaimDue(db, now, limit).value;
    var ids := DueFrom(db, now, 1, limit);
    DueAscending(db, now, 1, limit);
    forall i | 0 <= i < |ids|
      ensures Current(claimed.claims[i], claimed.db.outbox)
    {
      assert Due(db, ids[i], now) && ids[i] in ids;
    }
    forall id
      ensures id in DeliveringIds(claimed.db.outbox) <==> id in PendingIds(claimed.claims) * claimed.db.outbox.Keys
    {
      ClaimedIds(db, now, limit, id);
      assert id !in DeliveringIds(db.outbox);
      if id in ids {
        assert Due(db, id, now);
      }
    }
  }

  lemma {:induction false} ClaimedIds(db: Database, now: Instant, limit: int, id: nat)
    requires ClaimDue(db, now, limit).Ok?
    ensures id in PendingIds(ClaimDue(db, now, limit).value.claims) <==> id in DueFrom(db, now, 1, limit)
  {
    var claims, ids := ClaimDue(db, now, limit).value.claims, DueFrom(db, now, 1, limit);
    assert forall i :: 0 <= i < |ids| ==> claims[i].outboxId == ids[i];
    if id in ids {
      var i :| 0 <= i < |ids| && ids[i] == id;
      assert claims[i].outboxId in PendingIds(claims);
    }
  }

  lemma {:induction false} DueAscending(db: Database, now: Instant, id: nat, limit: nat)
    ensures var ids := DueFrom(db, now, id, limit);
            && |ids| <= limit
            && forall i, j :: 0 <= i < j < |ids| ==> ids[i] < ids[j]
    decreases db.outboxSequence + 1 - id
  {
    if limit > 0 && id <= db.outboxSequence {
      if Due(db, id, now) {
        DueAscending(db, now, id + 1, limit - 1);
      } else {
        DueAscending(db, now, id + 1, limit);
      }
    }
  }

  lemma AcknowledgedInHand(pending: seq<ClaimedEvent>, outbox: Outbox, sequence: nat, row: OutboxRow)
    requires pending != [] && InHand(pending, outbox, sequence)
    requires pending[0].outboxId in outbox && row.status != Delivering
    ensures InHand(pending[1..], outbox[pending[0].outboxId := row], sequence)
  {
    var id, rest, after := pending[0].outboxId, pending[1..], outbox[pending[0].outboxId := row];
    forall i | 0 <= i < |rest|
      ensures Current(rest[i], after) && rest[i].outboxId != id
    {
      assert rest[i] == pending[i + 1] && Current(pending[i + 1], outbox);
    }
    assert PendingIds(pending) == PendingIds(rest) + {id} by {
      assert pending == [pending[0]] + rest;
    }
    assert DeliveringIds(after) == DeliveringIds(outbox) - {id};
  }

  lemma AcknowledgeOrderly(config: DeliveryConfig, w: World, d: nat, now: Instant)
    requires config.Valid() && SoloOrderly(w, d)
    ensures SoloOrderly(AcknowledgeStep(config, w, d, now), d)
  {
    var phase := PhaseOf(w, d);
    if phase.Answered? && phase.call < |w.calls| {
      var claim := phase.pending[0];
      var tx := AcknowledgeTx(config, w.db, claim, w.calls[phase.call].outcome, now);
      if tx.Some? && tx.value.Ok? {
        AcknowledgedRow(config, w.db, claim, w.calls[phase.call].outcome, now);
        AcknowledgeTxKeeps(config, w.db, claim, w.calls[phase.call].outcome, now);
        AcknowledgedInHand(phase.pending, w.db.outbox, w.db.outboxSequence, tx.value.value.outbox[claim.outboxId]);
      }
    }
  }

  lemma DeliveryOrderly(config: DeliveryConfig, w: World, a: Action)
    requires config.Valid() && Consistent(w.db) && IsDelivery(a) && SoloOrderly(w, a.dispatcher)
    ensures SoloOrderly(Next(config, w, a), a.dispatcher)
  {
    if a.Claim? {
      ClaimOrderly(config, w, a.dispatcher);
    } else if a.Acknowledgement? {
      AcknowledgeOrderly(config, w, a.dispatcher, a.now);
    } else if a.Recover? {
      RecoverOrderly(w, a.dispatcher);
    } else {
      hide Consistent;
      QuietOrderly(config, w, a);
    }
  }

  lemma RecoverOrderly(w: World, d: nat)
    requires SoloOrderly(w, d)
    ensures SoloOrderly(RecoverStep(w, d), d)
  {
    hide InHand;
  }

  lemma QuietOrderly(config: DeliveryConfig, w: World, a: Action)
    requires a.Begin? || a.CallSink? || a.Finish? || a.Interrupt?
    requires SoloOrderly(w, a.dispatcher)
    ensures SoloOrderly(Next(config, w, a), a.dispatcher)
  {
    assert Next(config, w, a).db == w.db;
  }

  lemma ClaimOrderly(config: DeliveryConfig, w: World, d: nat)
    requires config.Valid() && Consistent(w.db) && SoloOrderly(w, d)
    ensures SoloOrderly(ClaimStep(config, w, d), d)
  {
    if PhaseOf(w, d).Claiming? {
      hide Consistent, InHand;
      ClaimedInHand(w.db, PhaseOf(w, d).claimTime, config.batchSize);
    }
  }

  lemma NextOrderly(config: DeliveryConfig, w: World, a: Action, d: nat)
    requires config.Valid() && Consistent(w.db) && SoloOrderly(w, d)
    requires IsDelivery(a) ==> a.dispatcher == d
    ensures SoloOrderly(Next(config, w, a), d)
  {
    if IsDelivery(a) {
      DeliveryOrderly(config, w, a);
    } else {
      StorageUndisturbed(config, w, a);
      var after := Next(config, w, a);
      UndisturbedOrderly(PhaseOf(w, d), w.db.outbox, w.db.outboxSequence, after.db.outbox, after.db.outboxSequence);
    }
  }

  /**
   With one dispatcher: whenever it is idle with _recovered set, no row is DELIVERING, and inside the
   loop the DELIVERING rows are exactly the unacknowledged rest of the batch.
   */
  lemma {:induction false} RunOrderly(config: DeliveryConfig, w: World, actions: seq<Action>, d: nat)
    requires config.Valid() && Consistent(w.db) && SoloOrderly(w, d) && Solo(actions, d)
    ensures SoloOrderly(Run(config, w, actions), d)
    decreases actions
  {
    if actions != [] {
      NextConsistent(config, w, actions[0]);
      NextOrderly(config, w, actions[0], d);
      RunOrderly(config, Next(config, w, actions[0]), actions[1..], d);
    }
  }

  /** The state of a reachable engine whose only dispatcher is d. */
  ghost predicate Good(config: DeliveryConfig, w: World, d: nat) {
    config.Valid() && Consistent(w.db) && Accounted(config, w) && SoloOrderly(w, d)
  }

  lemma NextGood(config: DeliveryConfig, w: World, a: Action, d: nat)
    requires Good(config, w, d) && (IsDelivery(a) ==> a.dispatcher == d)
    ensures Good(config, Next(config, w, a), d)
  {
    NextConsistent(config, w, a);
    NextAccounted(config, w, a);
    NextOrderly(config, w, a, d);
  }

  lemma {:induction false} RunGood(config: DeliveryConfig, w: World, actions: seq<Action>, d: nat)
    requires Good(config, w, d) && Solo(actions, d)
    ensures Good(config, Run(config, w, actions), d)
    decreases actions
  {
    if actions != [] {
      NextGood(config, w, actions[0], d);
      RunGood(config, Next(config, w, actions[0]), actions[1..], d);
    }
  }

  // ---------------------------------------------------------------- interruptions

  /** COALESCE. */
  function OrElse(value: Option<string>, other: string): Option<string> {
    if value.Some? then value else Some(other)
  }

  /** The next call after an interruption, up to its claim. */
  function Resumed(config: DeliveryConfig, w: World, d: nat, now: Instant): World {
    Run(config, w, [Begin(d, now), Recover(d)])
  }

  /**
   Wherever a dispatcher was interrupted, its next call first turns every stranded row into a RETRY row
   due at that call's own claim time, attempts unspent; all other rows stay as they are.
   */
  lemma StrandedRowsComeBack(config: DeliveryConfig, w: World, d: nat, now: Instant, id: nat)
    requires Consistent(w.db) && PhaseOf(w, d) == Idle(false)
    ensures var after := Resumed(config, w, d, now);
            && PhaseOf(after, d) == Claiming(now)
            && DeliveringIds(after.db.outbox) == {}
            && after.db.outbox.Keys == w.db.outbox.Keys
            && (id in DeliveringIds(w.db.outbox) ==>
                  && Due(after.db, id, now)
                  && after.db.outbox[id].status == Retry && after.db.outbox[id].lockedAt == None
                  && after.db.outbox[id].lastError == OrElse(w.db.outbox[id].lastError, "delivery interrupted")
                  && after.db.outbox[id].attempts == w.db.outbox[id].attempts
                  && after.db.outbox[id].eventId == w.db.outbox[id].eventId
                  && after.db.outbox[id].updatedAt == now && after.db.outbox[id].nextAttemptAt == Some(now)
                  && after.db.outbox[id].createdAt == w.db.outbox[id].createdAt
                  && after.db.outbox[id].deliveredAt == w.db.outbox[id].deliveredAt)
            && (id in w.db.outbox && id !in DeliveringIds(w.db.outbox) ==> after.db.outbox[id] == w.db.outbox[id])
  {
    ResumedState(config, w, d, now);
    RecoveredRows(w.db, now, id);
    hide Resumed, Consistent, PhaseOf, RecoverInFlight, DeliveringIds, Due;
  }

  lemma RecoveredRows(db: Database, now: Instant, id: nat)
    requires EventsPaired(db.events, db.outbox)
    ensures var after := RecoverInFlight(db, now);
            && DeliveringIds(after.outbox) == {}
            && after.outbox.Keys == db.outbox.Keys
            && (id in DeliveringIds(db.outbox) ==>
                  && id in after.outbox
                  && Due(after, id, now)
                  && after.outbox[id].status == Retry && after.outbox[id].lockedAt == None
                  && after.outbox[id].lastError == OrElse(db.outbox[id].lastError, "delivery interrupted")
                  && after.outbox[id].attempts == db.outbox[id].attempts
                  && after.outbox[id].eventId == db.outbox[id].eventId
                  && after.outbox[id].updatedAt == now && after.outbox[id].nextAttemptAt == Some(now)
                  && after.outbox[id].createdAt == db.outbox[id].createdAt
                  && after.outbox[id].deliveredAt == db.outbox[id].deliveredAt)
            && (id in db.outbox && id !in DeliveringIds(db.outbox) ==> after.outbox[id] == db.outbox[id])
  {
    hide EventsPaired;
    if id in db.outbox {
      EventOfRow(db, id);
    }
  }

  lemma EventOfRow(db: Database, id: nat)
    requires EventsPaired(db.events, db.outbox) && id in db.outbox
    ensures db.outbox[id].eventId in db.events
  {
  }

  lemma ResumedState(config: DeliveryConfig, w: World, d: nat, now: Instant)
    requires PhaseOf(w, d) == Idle(false)
    ensures var after := Resumed(config, w, d, now);
            after.db == RecoverInFlight(w.db, now) && PhaseOf(after, d) == Claiming(now)
  {
    var begun := Next(config, w, Begin(d, now));
    assert begun == Enter(w, d, Recovering(now));
    var recovered := Next(config, begun, Recover(d));
    assert recovered == RecoverStep(begun, d);
    assert [Begin(d, now), Recover(d)][1..] == [Recover(d)] && [Recover(d)][1..] == [];
    assert Run(config, begun, [Recover(d)]) == Run(config, recovered, []) == recovered;
  }

  /** The sink failed, and computing its retry time raises. */
  predicate RetryRaises(config: DeliveryConfig, outcome: SinkOutcome, attempts: nat, now: Instant) {
    outcome != ReturnedNone && Decide(config, attempts + 1, now).Unrepresentable?
  }

  /** With one dispatcher, an acknowledgement fails only on a deleted row or an unrepresentable retry time. */
  lemma AcknowledgementCommits(config: DeliveryConfig, w: World, d: nat, now: Instant)
    requires config.Valid() && SoloOrderly(w, d)
    requires PhaseOf(w, d).Answered? && PhaseOf(w, d).call < |w.calls|
    requires PhaseOf(w, d).pending[0].outboxId in w.db.outbox
    requires var phase := PhaseOf(w, d);
             !RetryRaises(config, w.calls[phase.call].outcome, phase.pending[0].attempts, now)
    ensures PhaseOf(AcknowledgeStep(config, w, d, now), d) == Sending(PhaseOf(w, d).pending[1..])
  {
    assert Current(PhaseOf(w, d).pending[0], w.db.outbox);
  }
}
