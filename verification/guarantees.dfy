/** The delivery guarantees that follow from the accounting invariant, for every run from the start. */
module Guarantees {
  import opened Entities
  import opened Tables
  import opened Consistency
  import opened Protocol
  import opened Safety
  import opened Accounting

  lemma StartIsAccounted(config: DeliveryConfig)
    requires config.Valid()
    ensures Accounted(config, START)
  {
  }

  lemma {:induction false} Reachable(config: DeliveryConfig, actions: seq<Action>)
    requires config.Valid()
    ensures var w := Run(config, START, actions);
            Consistent(w.db) && Chained(w) && Counted(w) && Accounted(config, w)
  {
    StartIsSafe();
    StartIsAccounted(config);
    RunConsistent(config, START, actions);
    RunChained(config, START, actions);
    RunCounted(config, START, actions);
    RunAccounted(config, START, actions);
  }

  // ---------------------------------------------------------------- at least once

  /** The sink was called for the row's n-th attempt, for its event, and answered like this. */
  ghost predicate SinkAnswered(w: World, id: nat, row: OutboxRow, n: nat, success: bool) {
    exists k :: 0 <= k < |w.calls| && w.calls[k].outboxId == id && w.calls[k].eventId == row.eventId
                && w.calls[k].attemptNumber == n && !w.calls[k].outcome.Broke?
                && (w.calls[k].outcome == ReturnedNone <==> success)
  }

  ghost predicate Delivery(w: World, id: nat, row: OutboxRow) {
    row.status == Delivered && SinkAnswered(w, id, row, row.attempts, true)
  }

  ghost predicate Exhausted(config: DeliveryConfig, w: World, id: nat, row: OutboxRow) {
    && row.status == Dead
    && row.attempts == config.maxAttempts
    && forall n :: 1 <= n <= config.maxAttempts ==> SinkAnswered(w, id, row, n, false)
  }

  /** What has become of a committed event. */
  ghost predicate Fate(config: DeliveryConfig, w: World, id: nat) {
    || (id in w.db.outbox && !Terminal(w.db.outbox[id].status))
    || (id in w.db.outbox && (Delivery(w, id, w.db.outbox[id]) || Exhausted(config, w, id, w.db.outbox[id])))
    || (id in w.archive
        && (Delivery(w, id, w.archive[id].row) || Exhausted(config, w, id, w.archive[id].row)))
    || (id in w.archive && w.archive[id].forced && !Terminal(w.archive[id].row.status))
  }

  lemma AnsweredAttempt(w: World, id: nat, n: nat)
    requires AcksExact(Rows(w), w.acks, w.calls)
    requires id in Rows(w) && 1 <= n <= Rows(w)[id].attempts
    ensures SinkAnswered(w, id, Rows(w)[id], n, Rows(w)[id].status == Delivered && n == Rows(w)[id].attempts)
  {
    assert (id, n) in w.acks;
    assert AckedCall(Rows(w)[id], id, n, w.calls, w.acks[(id, n)]);
  }

  lemma ConcludedRow(config: DeliveryConfig, w: World, id: nat)
    requires config.Valid() && Accounted(config, w)
    requires id in Rows(w) && Terminal(Rows(w)[id].status) && Rows(w)[id].attempts >= 1
    ensures Delivery(w, id, Rows(w)[id]) || Exhausted(config, w, id, Rows(w)[id])
  {
    var row := Rows(w)[id];
    assert WithinBudget(row, config.maxAttempts);
    if row.status == Delivered {
      AnsweredAttempt(w, id, row.attempts);
    } else {
      forall n | 1 <= n <= config.maxAttempts
        ensures SinkAnswered(w, id, row, n, false)
      {
        AnsweredAttempt(w, id, n);
      }
    }
  }

  /**
   No event is lost. Along every run, with any number of dispatchers and interruptions, each event a
   promotion committed is still queued; or DELIVERED after a sink call for it returned None; or DEAD
   after exactly max_attempts failed calls; or was removed from one of these two ends; or was removed
   before its end by delete_watch with allow_undelivered.
   */
  lemma {:induction false} NoEventIsLost(config: DeliveryConfig, actions: seq<Action>, id: nat)
    requires config.Valid()
    ensures var w := Run(config, START, actions);
            1 <= id <= w.db.outboxSequence ==> Fate(config, w, id)
  {
    var w := Run(config, START, actions);
    Reachable(config, actions);
    if 1 <= id <= w.db.outboxSequence {
      if id in w.db.outbox {
        assert RowShaped(w.db.outbox[id]);
        if Terminal(w.db.outbox[id].status) {
          ConcludedRow(config, w, id);
        }
      } else {
        assert ArchivedExact(w.archive[id]);
        if Terminal(w.archive[id].row.status) {
          ConcludedRow(config, w, id);
        }
      }
    }
  }

  // ---------------------------------------------------------------- every attempt is one call

  /** The calls made for a row. */
  function CallsFor(w: World, id: nat): set<nat> {
    set k | 0 <= k < |w.calls| && w.calls[k].outboxId == id
  }

  /** Those whose acknowledgement committed. */
  function Acknowledged(w: World, id: nat): set<nat> {
    set k | k in CallsFor(w, id) && (id, w.calls[k].attemptNumber) in w.acks
            && w.acks[(id, w.calls[k].attemptNumber)] == k
  }

  function AcknowledgedUpTo(w: World, id: nat, n: nat): set<nat> {
    set k | k in Acknowledged(w, id) && w.calls[k].attemptNumber <= n
  }

  lemma OneMoreAcknowledged(w: World, id: nat, n: nat)
    requires AcksExact(Rows(w), w.acks, w.calls) && (id, n) in w.acks && n > 0
    ensures w.acks[(id, n)] !in AcknowledgedUpTo(w, id, n - 1)
    ensures AcknowledgedUpTo(w, id, n) == AcknowledgedUpTo(w, id, n - 1) + {w.acks[(id, n)]}
  {
    var call := w.acks[(id, n)];
    assert AckedCall(Rows(w)[id], id, n, w.calls, call);
  }

  lemma {:induction false} AcknowledgedCount(w: World, id: nat, n: nat)
    requires AcksExact(Rows(w), w.acks, w.calls)
    requires id in Rows(w) && n <= Rows(w)[id].attempts
    ensures |AcknowledgedUpTo(w, id, n)| == n
    decreases n
  {
    if n == 0 {
      forall k | k in Acknowledged(w, id)
        ensures 1 <= w.calls[k].attemptNumber
      {
        assert (id, w.calls[k].attemptNumber) in w.acks;
      }
      assert AcknowledgedUpTo(w, id, 0) == {};
    } else {
      AcknowledgedCount(w, id, n - 1);
      assert (id, n) in w.acks;
      OneMoreAcknowledged(w, id, n);
    }
  }

  lemma AllAcknowledged(w: World, id: nat)
    requires AcksExact(Rows(w), w.acks, w.calls) && id in Rows(w)
    ensures AcknowledgedUpTo(w, id, Rows(w)[id].attempts) == Acknowledged(w, id) <= CallsFor(w, id)
  {
    forall k | k in Acknowledged(w, id)
      ensures w.calls[k].attemptNumber <= Rows(w)[id].attempts
    {
      assert (id, w.calls[k].attemptNumber) in w.acks;
    }
  }

  lemma BalanceOf(w: World, id: nat)
    requires AcksExact(Rows(w), w.acks, w.calls) && id in Rows(w)
    ensures |Acknowledged(w, id)| == Rows(w)[id].attempts
    ensures |CallsFor(w, id)| == Rows(w)[id].attempts + |CallsFor(w, id) - Acknowledged(w, id)|
  {
    hide AcksExact, Acknowledged, AcknowledgedUpTo, CallsFor, Rows;
    AcknowledgedCount(w, id, Rows(w)[id].attempts);
    AllAcknowledged(w, id);
    assert CallsFor(w, id) == Acknowledged(w, id) + (CallsFor(w, id) - Acknowledged(w, id));
  }

  /** Sink calls for a row are its recorded attempts plus the calls whose acknowledgement never committed. */
  lemma {:induction false} CallsBalance(config: DeliveryConfig, actions: seq<Action>, id: nat)
    requires config.Valid()
    ensures var w := Run(config, START, actions);
            id in Rows(w) ==>
              && |Acknowledged(w, id)| == Rows(w)[id].attempts
              && |CallsFor(w, id)| == Rows(w)[id].attempts + |CallsFor(w, id) - Acknowledged(w, id)|
  {
    Reachable(config, actions);
    if id in Rows(Run(config, START, actions)) {
      BalanceOf(Run(config, START, actions), id);
    }
  }

  /** Attempt n in the audit log of a live row is numbered n, and SUCCEEDED iff its own call returned None. */
  ghost predicate TruthfulAttempt(w: World, id: nat, n: nat) {
    var log := LogOf(w.db.attempts, id);
    && 1 <= n <= |log|
    && log[n - 1].attemptNumber == n
    && (id, n) in w.acks && w.acks[(id, n)] < |w.calls|
    && w.calls[w.acks[(id, n)]].outboxId == id && w.calls[w.acks[(id, n)]].attemptNumber == n
    && (log[n - 1].status == Succeeded <==> w.calls[w.acks[(id, n)]].outcome == ReturnedNone)
  }

  lemma LoggedAttempt(w: World, id: nat, n: nat)
    requires id in w.db.outbox && ExactLog(w.db.outbox[id], LogOf(w.db.attempts, id))
    requires AcksExact(Rows(w), w.acks, w.calls)
    requires 1 <= n <= w.db.outbox[id].attempts
    ensures TruthfulAttempt(w, id, n)
  {
    assert Rows(w)[id] == w.db.outbox[id];
    assert (id, n) in w.acks;
    assert AckedCall(Rows(w)[id], id, n, w.calls, w.acks[(id, n)]);
  }

  /** The audit log holds one true entry per attempt, and nothing else. */
  lemma {:induction false} AuditLogTellsTheTruth(config: DeliveryConfig, actions: seq<Action>, id: nat)
    requires config.Valid()
    ensures var w := Run(config, START, actions);
            id in w.db.outbox ==>
              && |LogOf(w.db.attempts, id)| == w.db.outbox[id].attempts
              && forall n :: 1 <= n <= w.db.outbox[id].attempts ==> TruthfulAttempt(w, id, n)
  {
    var w := Run(config, START, actions);
    Reachable(config, actions);
    if id in w.db.outbox {
      assert ExactLog(w.db.outbox[id], LogOf(w.db.attempts, id));
      forall n | 1 <= n <= w.db.outbox[id].attempts
        ensures TruthfulAttempt(w, id, n)
      {
        LoggedAttempt(w, id, n);
      }
    }
  }

  // ---------------------------------------------------------------- what never changes again

  /** Ends are final, removed rows stay removed, and an acknowledged attempt is never acknowledged again. */
  ghost predicate Settles(w: World, after: World) {
    && (forall id :: id in w.db.outbox && Terminal(w.db.outbox[id].status) ==>
          || (id in after.db.outbox && after.db.outbox[id] == w.db.outbox[id])
          || (id in after.archive && after.archive[id].row == w.db.outbox[id]))
    && (forall id :: id in w.archive ==> id in after.archive && after.archive[id] == w.archive[id])
    && (forall p :: p in w.acks ==> p in after.acks && after.acks[p] == w.acks[p])
  }

  lemma AcknowledgementSettles(config: DeliveryConfig, w: World, d: nat, now: Instant)
    requires config.Valid() && Accounted(config, w)
    ensures Settles(w, AcknowledgeStep(config, w, d, now))
  {
    var phase := PhaseOf(w, d);
    hide Accounted, AcknowledgeTx;
    if phase.Answered? && phase.pending != [] && phase.call < |w.calls| {
      var claim := phase.pending[0];
      var tx := AcknowledgeTx(config, w.db, claim, w.calls[phase.call].outcome, now);
      if tx.Some? && tx.value.Ok? {
        AcknowledgedRow(config, w.db, claim, w.calls[phase.call].outcome, now);
        CommitSettles(config, w, tx.value.value, claim, phase.call);
      }
    }
  }

  /** The row acknowledged was not terminal, and its attempt had not been acknowledged. */
  lemma CommitSettles(config: DeliveryConfig, w: World, db: Database, claim: ClaimedEvent, call: nat)
    requires Accounted(config, w) && Matches(w.db, claim) && claim.outboxId in db.outbox
    requires db.outbox == w.db.outbox[claim.outboxId := db.outbox[claim.outboxId]]
    ensures Settles(w, w.(db := db, acks := w.acks[(claim.outboxId, claim.attempts + 1) := call]))
  {
    assert AcksExact(Rows(w), w.acks, w.calls);
    assert Rows(w)[claim.outboxId] == w.db.outbox[claim.outboxId];
    hide Accounted, AcksExact;
    assert (claim.outboxId, claim.attempts + 1) !in w.acks by {
      AttemptNotAcknowledged(Rows(w), w.acks, w.calls, claim.outboxId);
    }
  }

  lemma AttemptNotAcknowledged(rows: Outbox, acks: Acks, calls: seq<SinkCall>, id: nat)
    requires AcksExact(rows, acks, calls) && id in rows
    ensures (id, rows[id].attempts + 1) !in acks
  {
  }

  lemma RemovalSettles(w: World, after: World, ids: set<nat>, forced: bool)
    requires Numbered(w.db.outbox, w.archive, w.db.outboxSequence)
    requires after.db.outbox == w.db.outbox - ids
    requires after.archive == w.archive + ArchiveOf(w.db, ids, forced)
    requires after.acks == w.acks
    ensures Settles(w, after)
  {
  }

  lemma PromotionSettles(
    w: World, x: WatchId, id: ObservationId, policy: Policy, factory: seq<Option<EventId>>, now: Instant)
    requires Consistent(w.db)
    ensures Settles(w, PromoteStep(w, x, id, policy, factory, now))
  {
    var events := PromoteAddsRows(w, x, id, policy, factory, now);
  }

  lemma SameTerminalRowsSettle(w: World, after: World)
    requires forall id :: id in w.db.outbox && Terminal(w.db.outbox[id].status) ==>
               id in after.db.outbox && after.db.outbox[id] == w.db.outbox[id]
    requires after.archive == w.archive && after.acks == w.acks
    ensures Settles(w, after)
  {
  }

  lemma ClaimSettles(config: DeliveryConfig, w: World, d: nat)
    ensures Settles(w, ClaimStep(config, w, d))
  {
    SameTerminalRowsSettle(w, ClaimStep(config, w, d));
  }

  lemma RecoverSettles(w: World, d: nat)
    ensures Settles(w, RecoverStep(w, d))
  {
    SameTerminalRowsSettle(w, RecoverStep(w, d));
  }

  lemma QuietSettles(config: DeliveryConfig, w: World, a: Action)
    requires a.MarkRunStarted? || a.Begin? || a.CallSink? || a.Finish? || a.Interrupt?
    ensures Settles(w, Next(config, w, a))
  {
    SameTerminalRowsSettle(w, Next(config, w, a));
  }

  lemma PersistSettles(w: World, x: WatchId, id: ObservationId, observation: Observation, now: Instant)
    ensures Settles(w, PersistStep(w, x, id, observation, now))
  {
    PersistKeepsOutbox(w.db, x, id, observation, now);
    SameTerminalRowsSettle(w, PersistStep(w, x, id, observation, now));
  }

  lemma DeleteSettles(w: World, x: WatchId, allow: bool)
    requires Numbered(w.db.outbox, w.archive, w.db.outboxSequence)
    ensures Settles(w, DeleteStep(w, x, allow))
  {
    if DeleteWatch(w.db, x, allow).Ok? {
      RemovalSettles(w, DeleteStep(w, x, allow), OutboxOfEvents(w.db, EventsOfWatch(w.db, x)), allow);
    }
  }

  lemma PurgeSettles(w: World, cutoff: Instant, watch: Option<WatchId>)
    requires Numbered(w.db.outbox, w.archive, w.db.outboxSequence)
    ensures Settles(w, PurgeStep(w, cutoff, watch))
  {
    hide Numbered, Settles, PurgeTargets, ArchiveOf;
    RemovalSettles(w, PurgeStep(w, cutoff, watch), PurgeTargets(w.db, cutoff, watch), false);
  }

  lemma NextSettles(config: DeliveryConfig, w: World, a: Action)
    requires config.Valid() && Consistent(w.db) && Accounted(config, w)
    ensures Settles(w, Next(config, w, a))
  {
    assert Numbered(w.db.outbox, w.archive, w.db.outboxSequence);
    hide Consistent, Accounted, Numbered, Settles, Next;
    if a.Acknowledgement? || a.Claim? || a.Recover? {
      DeliverySettles(config, w, a);
    } else if IsDelivery(a) || a.MarkRunStarted? {
      QuietSettles(config, w, a);
    } else {
      StorageSettles(config, w, a);
    }
  }

  lemma DeliverySettles(config: DeliveryConfig, w: World, a: Action)
    requires config.Valid() && Accounted(config, w) && (a.Acknowledgement? || a.Claim? || a.Recover?)
    ensures Settles(w, Next(config, w, a))
  {
    hide Accounted, Settles, RecoverStep, ClaimStep, AcknowledgeStep;
    if a.Acknowledgement? {
      AcknowledgementSettles(config, w, a.dispatcher, a.now);
    } else if a.Claim? {
      ClaimSettles(config, w, a.dispatcher);
    } else {
      RecoverSettles(w, a.dispatcher);
    }
  }

  lemma StorageSettles(config: DeliveryConfig, w: World, a: Action)
    requires Consistent(w.db) && Numbered(w.db.outbox, w.archive, w.db.outboxSequence)
    requires a.PromoteObservation? || a.Purge? || a.Delete? || a.PersistObservation?
    ensures Settles(w, Next(config, w, a))
  {
    hide Consistent, Numbered, Settles, PersistStep, PromoteStep, PurgeStep, DeleteStep;
    if a.PromoteObservation? {
      PromotionSettles(w, a.watchId, a.observationId, a.policy, a.factory, a.now);
    } else if a.Purge? {
      PurgeSettles(w, a.cutoff, a.watch);
    } else if a.Delete? {
      DeleteSettles(w, a.watchId, a.allowUndelivered);
    } else {
      PersistSettles(w, a.watchId, a.observationId, a.observation, a.now);
    }
  }

  lemma SettlesTransitive(config: DeliveryConfig, w: World, mid: World, after: World)
    requires Settles(w, mid) && Settles(mid, after)
    ensures Settles(w, after)
  {
  }

  /** DELIVERED and DEAD are absorbing; a removed id never comes back; acknowledgements are once and for all. */
  lemma {:induction false} RunSettles(config: DeliveryConfig, w: World, actions: seq<Action>)
    requires config.Valid() && Consistent(w.db) && Accounted(config, w)
    ensures Settles(w, Run(config, w, actions))
    decreases actions
  {
    if actions != [] {
      var mid := Next(config, w, actions[0]);
      NextConsistent(config, w, actions[0]);
      NextAccounted(config, w, actions[0]);
      NextSettles(config, w, actions[0]);
      RunSettles(config, mid, actions[1..]);
      SettlesTransitive(config, w, mid, Run(config, mid, actions[1..]));
    }
  }

  /** A claim whose row has been removed, or whose attempt has been acknowledged, is stale for good. */
  lemma {:induction false} SpentClaimStaysStale(
    config: DeliveryConfig, w: World, actions: seq<Action>, claim: ClaimedEvent, now: Instant,
    error: string, retryAt: Option<Instant>)
    requires config.Valid() && Consistent(w.db) && Accounted(config, w)
    requires claim.outboxId in w.archive || (claim.outboxId, claim.attempts + 1) in w.acks
    ensures var after := Run(config, w, actions);
            && RecordSuccess(after.db, claim, now) == Err(StaleClaim)
            && RecordFailure(after.db, claim, error, retryAt, now) == Err(StaleClaim)
  {
    var after := Run(config, w, actions);
    RunAccounted(config, w, actions);
    RunSettles(config, w, actions);
    if claim.outboxId in after.db.outbox {
      assert (claim.outboxId, claim.attempts + 1) in after.acks;
      assert Rows(after)[claim.outboxId] == after.db.outbox[claim.outboxId];
    }
  }
}
