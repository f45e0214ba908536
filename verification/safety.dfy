/** What holds of the tables and of authority in every reachable state, under every interleaving. */
module Safety {
  import opened Entities
  import opened Tables
  import opened Consistency
  import opened Promotion
  import opened Protocol

  // ---------------------------------------------------------------- the cross-table invariant

  lemma AcknowledgeTxConsistent(
    config: DeliveryConfig, db: Database, claim: ClaimedEvent, outcome: SinkOutcome, now: Instant)
    requires Consistent(db)
    ensures var tx := AcknowledgeTx(config, db, claim, outcome, now);
            tx.Some? && tx.value.Ok? ==> Consistent(tx.value.value)
  {
    hide Consistent, RecordSuccess, RecordFailure;
    RecordSuccessConsistent(db, claim, now);
    match Decide(config, claim.attempts + 1, now)
    case GiveUp => RecordFailureConsistent(db, claim, ErrorText(outcome), None, now);
    case RetryAt(at) => RecordFailureConsistent(db, claim, ErrorText(outcome), Some(at), now);
    case Unrepresentable =>
  }

  lemma NextConsistent(config: DeliveryConfig, w: World, a: Action)
    requires Consistent(w.db)
    ensures Consistent(Next(config, w, a).db)
  {
    hide Consistent, EnsureWatch, Persist, Promote, PurgeBefore, DeleteWatch, RecoverInFlight, ClaimDue;
    hide AcknowledgeTx, ArchiveOf;
    match a
    case MarkRunStarted(x) => EnsureWatchConsistent(w.db, x);
    case PersistObservation(x, id, observation, now) => PersistConsistent(w.db, x, id, observation, now);
    case PromoteObservation(x, id, policy, factory, now) =>
      if id in w.db.observations ==> w.db.observations[id].observation.status == Valid {
        PromoteConsistent(w.db, x, id, policy, factory, now);
      }
    case Purge(cutoff, watch) => PurgeConsistent(w.db, cutoff, watch);
    case Delete(x, allow) => DeleteConsistent(w.db, x, allow);
    case Recover(d) =>
      if PhaseOf(w, d).Recovering? {
        RecoverConsistent(w.db, PhaseOf(w, d).claimTime);
      }
    case Claim(d) =>
      if PhaseOf(w, d).Claiming? {
        ClaimConsistent(w.db, PhaseOf(w, d).claimTime, config.batchSize);
      }
    case Acknowledgement(d, now) =>
      var phase := PhaseOf(w, d);
      if phase.Answered? && phase.pending != [] && phase.call < |w.calls| {
        AcknowledgeTxConsistent(config, w.db, phase.pending[0], w.calls[phase.call].outcome, now);
      }
    case Begin(_, _) =>
    case CallSink(_, _) =>
    case Finish(_) =>
    case Interrupt(_) =>
  }

  /** Foreign keys, bijection, audit log and authority backing survive every run from a consistent state. */
  lemma {:induction false} RunConsistent(config: DeliveryConfig, w: World, actions: seq<Action>)
    requires Consistent(w.db)
    ensures Consistent(Run(config, w, actions).db)
    decreases actions
  {
    if actions != [] {
      NextConsistent(config, w, actions[0]);
      RunConsistent(config, Next(config, w, actions[0]), actions[1..]);
    }
  }

  // ---------------------------------------------------------------- the chain of transitions

  /** Each policy call saw the state the last one installed, time went up, and authority is the last one. */
  ghost predicate Chain(
    transitions: seq<Transition>, x: WatchId, authority: map<WatchId, AuthorityRow>, observations: Observations)
  {
    && (transitions == [] <==> x !in authority)
    && (transitions != [] ==>
          && transitions[0].previous == None
          && authority[x].observationId in observations
          && observations[authority[x].observationId].observation == transitions[|transitions| - 1].current)
    && (forall i :: 0 < i < |transitions| ==>
          && transitions[i].previous == Some(transitions[i - 1].current)
          && transitions[i - 1].current.observedAt < transitions[i].current.observedAt)
    && (forall i :: 0 <= i < |transitions| ==> transitions[i].current.status == Valid)
  }

  ghost predicate Chained(w: World) {
    forall x :: Chain(TransitionsOf(w, x), x, w.db.authority, w.db.observations)
  }

  lemma PersistChained(w: World, x: WatchId, id: ObservationId, observation: Observation, now: Instant)
    requires Chained(w)
    ensures Chained(PersistStep(w, x, id, observation, now))
  {
    var after := PersistStep(w, x, id, observation, now);
    forall y
      ensures Chain(TransitionsOf(after, y), y, after.db.authority, after.db.observations)
    {
      assert Chain(TransitionsOf(w, y), y, w.db.authority, w.db.observations);
    }
  }

  lemma ChainGrows(
    transitions: seq<Transition>, x: WatchId, authority: map<WatchId, AuthorityRow>, observations: Observations,
    previous: Option<Observation>, row: AuthorityRow)
    requires Chain(transitions, x, authority, observations)
    requires row.observationId in observations && observations[row.observationId].observation.status == Valid
    requires previous == if x in authority then Some(observations[authority[x].observationId].observation) else None
    requires previous.Some? ==> previous.value.observedAt < observations[row.observationId].observation.observedAt
    ensures Chain(transitions + [Transition(previous, observations[row.observationId].observation)],
                  x, authority[x := row], observations)
  {
  }

  /** A promotion step leaves the watch side alone, or installs a newer VALID observation and records it. */
  lemma PromoteInstalls(
    w: World, x: WatchId, id: ObservationId, policy: Policy, factory: seq<Option<EventId>>, now: Instant)
    requires Consistent(w.db)
    ensures var after := PromoteStep(w, x, id, policy, factory, now);
            && after.db.observations == w.db.observations
            && ((after.db.authority == w.db.authority && after.transitions == w.transitions)
                || (id in w.db.observations
                    && var current := w.db.observations[id].observation;
                       && current.status == Valid && Fresher(w.db, x, id)
                       && after.db.authority ==
                            w.db.authority[x := AuthorityRow(id, current.state, current.observedAt, now)]
                       && after.transitions == w.transitions[x :=
                            TransitionsOf(w, x) + [Transition(ReadAuthoritative(w.db, x), current)]]))
  {
    PromotionOutcome(w.db, x, id, policy, factory, now);
    AuthorityJoin(w.db, x);
  }

  lemma PromoteChained(
    w: World, x: WatchId, id: ObservationId, policy: Policy, factory: seq<Option<EventId>>, now: Instant)
    requires Consistent(w.db) && Chained(w)
    ensures Chained(PromoteStep(w, x, id, policy, factory, now))
  {
    var after := PromoteStep(w, x, id, policy, factory, now);
    PromoteInstalls(w, x, id, policy, factory, now);
    AuthorityJoin(w.db, x);
    assert x in w.db.authority ==> RowBacked(w.db.authority[x], x, w.db.observations);
    hide Consistent, PromoteStep, Chain;
    forall y
      ensures Chain(TransitionsOf(after, y), y, after.db.authority, after.db.observations)
    {
      assert Chain(TransitionsOf(w, y), y, w.db.authority, w.db.observations);
      if y == x && after.db.authority != w.db.authority {
        ChainGrows(TransitionsOf(w, x), x, w.db.authority, w.db.observations, ReadAuthoritative(w.db, x),
                   after.db.authority[x]);
      } else if y != x {
        SameAuthority(TransitionsOf(w, y), y, w.db.authority, after.db.authority, w.db.observations);
      }
    }
  }

  lemma SameAuthority(
    transitions: seq<Transition>, y: WatchId, authority: map<WatchId, AuthorityRow>,
    after: map<WatchId, AuthorityRow>, observations: Observations)
    requires Chain(transitions, y, authority, observations)
    requires y in authority <==> y in after
    requires y in authority ==> after[y] == authority[y]
    ensures Chain(transitions, y, after, observations)
  {
  }

  lemma PurgeChained(w: World, cutoff: Instant, watch: Option<WatchId>)
    requires Chained(w)
    ensures Chained(PurgeStep(w, cutoff, watch))
  {
    var after := PurgeStep(w, cutoff, watch);
    forall y
      ensures Chain(TransitionsOf(after, y), y, after.db.authority, after.db.observations)
    {
      assert Chain(TransitionsOf(w, y), y, w.db.authority, w.db.observations);
      if y in w.db.authority {
        assert IsAuthoritative(w.db, w.db.authority[y].observationId);
      }
    }
  }

  lemma DeleteChained(w: World, x: WatchId, allow: bool)
    requires AuthorityBacked(w.db.authority, w.db.observations, w.db.watches) && Chained(w)
    ensures Chained(DeleteStep(w, x, allow))
  {
    var after := DeleteStep(w, x, allow);
    forall y
      ensures Chain(TransitionsOf(after, y), y, after.db.authority, after.db.observations)
    {
      assert Chain(TransitionsOf(w, y), y, w.db.authority, w.db.observations);
    }
  }

  lemma SameAuthorityChained(w: World, after: World)
    requires Chained(w) && after.transitions == w.transitions
    requires after.db.authority == w.db.authority && after.db.observations == w.db.observations
    ensures Chained(after)
  {
    forall y
      ensures Chain(TransitionsOf(after, y), y, after.db.authority, after.db.observations)
    {
      assert Chain(TransitionsOf(w, y), y, w.db.authority, w.db.observations);
    }
  }

  predicate IsDelivery(a: Action) {
    a.Begin? || a.Recover? || a.Claim? || a.CallSink? || a.Acknowledgement? || a.Finish? || a.Interrupt?
  }

  ghost predicate SameWatchTables(db: Database, after: Database) {
    && after.watches == db.watches
    && after.observations == db.observations
    && after.authority == db.authority
    && after.events == db.events
    && after.outboxSequence == db.outboxSequence
  }

  /** Everything but the outbox, the attempts, the dispatchers and their calls is the same. */
  ghost predicate SameWatchSide(w: World, after: World) {
    && SameWatchTables(w.db, after.db)
    && after.transitions == w.transitions
    && after.purged == w.purged
    && after.archive == w.archive
  }

  lemma AcknowledgeTxKeeps(
    config: DeliveryConfig, db: Database, claim: ClaimedEvent, outcome: SinkOutcome, now: Instant)
    ensures var tx := AcknowledgeTx(config, db, claim, outcome, now);
            tx.Some? && tx.value.Ok? ==> SameWatchTables(db, tx.value.value)
  {
  }

  lemma AcknowledgeKeepsWatchSide(config: DeliveryConfig, w: World, d: nat, now: Instant)
    ensures SameWatchSide(w, AcknowledgeStep(config, w, d, now))
  {
    var phase := PhaseOf(w, d);
    if phase.Answered? && phase.pending != [] && phase.call < |w.calls| {
      AcknowledgeTxKeeps(config, w.db, phase.pending[0], w.calls[phase.call].outcome, now);
    }
  }

  /** Deliveries touch neither authority nor observations. */
  lemma DeliveryKeepsWatchSide(config: DeliveryConfig, w: World, a: Action)
    requires IsDelivery(a)
    ensures SameWatchSide(w, Next(config, w, a))
  {
    hide AcknowledgeStep, ClaimStep, SameWatchSide;
    if a.Acknowledgement? {
      AcknowledgeKeepsWatchSide(config, w, a.dispatcher, a.now);
    } else if a.Claim? {
      ClaimKeepsWatchSide(config, w, a.dispatcher);
    } else {
      OthersKeepWatchSide(config, w, a);
      hide Next;
    }
  }

  lemma ClaimKeepsWatchSide(config: DeliveryConfig, w: World, d: nat)
    ensures SameWatchSide(w, ClaimStep(config, w, d))
  {
    hide DueFrom, LockAll;
  }

  lemma OthersKeepWatchSide(config: DeliveryConfig, w: World, a: Action)
    requires a.Begin? || a.Recover? || a.CallSink? || a.Finish? || a.Interrupt?
    ensures SameWatchSide(w, Next(config, w, a))
  {
    hide Recovered;
  }

  lemma NextChained(config: DeliveryConfig, w: World, a: Action)
    requires Consistent(w.db) && Chained(w)
    ensures Chained(Next(config, w, a))
  {
    hide Consistent, Chained, Next;
    if IsDelivery(a) {
      DeliveryKeepsWatchSide(config, w, a);
      SameAuthorityChained(w, Next(config, w, a));
    } else {
      StorageChained(config, w, a);
    }
  }

  lemma ConsistentParts(db: Database)
    requires Consistent(db)
    ensures ObservationsOwned(db.observations, db.watches) && OutboxNumbered(db.outbox, db.outboxSequence)
    ensures AuthorityBacked(db.authority, db.observations, db.watches)
  {
    hide ObservationsOwned, OutboxNumbered, AuthorityBacked;
  }

  lemma StorageChained(config: DeliveryConfig, w: World, a: Action)
    requires Consistent(w.db) && Chained(w) && !IsDelivery(a)
    ensures Chained(Next(config, w, a))
  {
    hide Consistent, ObservationsOwned, OutboxNumbered, AuthorityBacked, Chained;
    hide PersistStep, PromoteStep, PurgeStep, DeleteStep;
    ConsistentParts(w.db);
    match a
    case MarkRunStarted(x) => SameAuthorityChained(w, Next(config, w, a));
    case PersistObservation(x, id, observation, now) => PersistChained(w, x, id, observation, now);
    case PromoteObservation(x, id, policy, factory, now) => PromoteChained(w, x, id, policy, factory, now);
    case Purge(cutoff, watch) => PurgeChained(w, cutoff, watch);
    case Delete(x, allow) => DeleteChained(w, x, allow);
  }

  /** In every reachable state, every watch's committed promotions form one unbroken rising chain. */
  lemma {:induction false} RunChained(config: DeliveryConfig, w: World, actions: seq<Action>)
    requires Consistent(w.db) && Chained(w)
    ensures Chained(Run(config, w, actions))
    decreases actions
  {
    if actions != [] {
      NextConsistent(config, w, actions[0]);
      NextChained(config, w, actions[0]);
      RunChained(config, Next(config, w, actions[0]), actions[1..]);
    }
  }

  ghost predicate NeverDeletes(actions: seq<Action>, x: WatchId) {
    forall i :: 0 <= i < |actions| ==> !(actions[i].Delete? && actions[i].watchId == x)
  }

  lemma PromoteTransitionsGrow(
    w: World, y: WatchId, id: ObservationId, policy: Policy, factory: seq<Option<EventId>>, now: Instant, x: WatchId)
    ensures TransitionsOf(w, x) <= TransitionsOf(PromoteStep(w, y, id, policy, factory, now), x)
  {
    hide Promote;
  }

  lemma NextTransitionsGrow(config: DeliveryConfig, w: World, a: Action, x: WatchId)
    requires !(a.Delete? && a.watchId == x)
    ensures TransitionsOf(w, x) <= TransitionsOf(Next(config, w, a), x)
  {
    hide PromoteStep, EnsureWatch, Persist, PurgeBefore, DeleteWatch;
    if IsDelivery(a) {
      DeliveryKeepsWatchSide(config, w, a);
      hide Next;
    } else if a.PromoteObservation? {
      PromoteTransitionsGrow(w, a.watchId, a.observationId, a.policy, a.factory, a.now, x);
    }
  }

  lemma {:induction false} TransitionsOnlyGrow(config: DeliveryConfig, w: World, actions: seq<Action>, x: WatchId)
    requires NeverDeletes(actions, x)
    ensures TransitionsOf(w, x) <= TransitionsOf(Run(config, w, actions), x)
    decreases actions
  {
    if actions != [] {
      NextTransitionsGrow(config, w, actions[0], x);
      hide Next, TransitionsOf;
      assert forall i :: 0 <= i < |actions[1..]| ==> actions[1..][i] == actions[i + 1];
      TransitionsOnlyGrow(config, Next(config, w, actions[0]), actions[1..], x);
    }
  }

  /**
   Until delete_watch, authority never goes back in time: it is the same observation as before, or a
   committed promotion has made it strictly newer.
   */
  lemma {:induction false} AuthorityOnlyRises(config: DeliveryConfig, w: World, actions: seq<Action>, x: WatchId)
    requires Consistent(w.db) && Chained(w)
    requires NeverDeletes(actions, x) && x in w.db.authority
    ensures var after := Run(config, w, actions);
            && x in after.db.authority
            && (if TransitionsOf(after, x) == TransitionsOf(w, x)
                then ReadAuthoritative(after.db, x) == ReadAuthoritative(w.db, x)
                else after.db.authority[x].observedAt > w.db.authority[x].observedAt)
  {
    var after := Run(config, w, actions);
    RunConsistent(config, w, actions);
    RunChained(config, w, actions);
    TransitionsOnlyGrow(config, w, actions, x);
    assert Chain(TransitionsOf(w, x), x, w.db.authority, w.db.observations);
    assert Chain(TransitionsOf(after, x), x, after.db.authority, after.db.observations);
    assert RowBacked(w.db.authority[x], x, w.db.observations);
    LongerChain(w, after, x);
  }

  lemma LongerChain(w: World, after: World, x: WatchId)
    requires Chain(TransitionsOf(w, x), x, w.db.authority, w.db.observations)
    requires Chain(TransitionsOf(after, x), x, after.db.authority, after.db.observations)
    requires TransitionsOf(w, x) <= TransitionsOf(after, x)
    requires x in w.db.authority && RowBacked(w.db.authority[x], x, w.db.observations)
    requires x in after.db.authority ==> RowBacked(after.db.authority[x], x, after.db.observations)
    ensures x in after.db.authority
    ensures if TransitionsOf(after, x) == TransitionsOf(w, x)
            then ReadAuthoritative(after.db, x) == ReadAuthoritative(w.db, x)
            else after.db.authority[x].observedAt > w.db.authority[x].observedAt
  {
    var early, all := TransitionsOf(w, x), TransitionsOf(after, x);
    if |early| < |all| {
      ChainRises(all, x, after.db.authority, after.db.observations, |early| - 1, |all| - 1);
    }
  }

  lemma {:induction false} ChainRises(
    transitions: seq<Transition>, x: WatchId, authority: map<WatchId, AuthorityRow>, observations: Observations,
    i: nat, j: nat)
    requires Chain(transitions, x, authority, observations) && i < j < |transitions|
    ensures transitions[i].current.observedAt < transitions[j].current.observedAt
    decreases j
  {
    if i < j - 1 {
      ChainRises(transitions, x, authority, observations, i, j - 1);
    }
  }

  // ---------------------------------------------------------------- execution counts

  /** execution_count is what is left of the watch's observations plus what was purged since its row began. */
  ghost predicate CountedRow(w: World, x: WatchId)
    requires x in w.db.watches
  {
    w.db.watches[x].executionCount == |ObservationsOfWatch(w.db, x)| + PurgedOf(w, x)
  }

  ghost predicate Counted(w: World) {
    && (forall x :: x in w.db.watches ==> CountedRow(w, x))
    && (forall x :: x in w.purged ==> x in w.db.watches)
  }

  lemma EnsureWatchCounted(w: World, x: WatchId)
    requires ObservationsOwned(w.db.observations, w.db.watches) && Counted(w)
    ensures Counted(w.(db := EnsureWatch(w.db, x)))
  {
    var after := w.(db := EnsureWatch(w.db, x));
    forall y | y in after.db.watches
      ensures CountedRow(after, y)
    {
      assert ObservationsOfWatch(after.db, y) == ObservationsOfWatch(w.db, y);
      if y !in w.db.watches {
        assert ObservationsOfWatch(w.db, y) == {};
      }
    }
  }

  lemma PersistCounted(w: World, x: WatchId, id: ObservationId, observation: Observation, now: Instant)
    requires ObservationsOwned(w.db.observations, w.db.watches) && Counted(w)
    ensures Counted(PersistStep(w, x, id, observation, now))
  {
    if id !in w.db.observations {
      EnsureWatchCounted(w, x);
      InsertCounted(w.(db := EnsureWatch(w.db, x)), x, id, ObservationRow(x, observation, now));
    }
  }

  lemma InsertCounted(w: World, x: WatchId, id: ObservationId, row: ObservationRow)
    requires Counted(w) && x in w.db.watches && id !in w.db.observations && row.watchId == x
    ensures Counted(w.(db := w.db.(
              observations := w.db.observations[id := row],
              watches := w.db.watches[x := WatchRow(w.db.watches[x].executionCount + 1)])))
  {
    var observations := w.db.observations[id := row];
    var after := w.(db := w.db.(
      observations := observations,
      watches := w.db.watches[x := WatchRow(w.db.watches[x].executionCount + 1)]));
    forall y | y in after.db.watches
      ensures CountedRow(after, y)
    {
      assert CountedRow(w, y);
      InsertedObservation(w.db, after.db, id, row, y);
    }
  }

  lemma InsertedObservation(db: Database, after: Database, id: ObservationId, row: ObservationRow, y: WatchId)
    requires id !in db.observations && after.observations == db.observations[id := row]
    ensures |ObservationsOfWatch(after, y)| == |ObservationsOfWatch(db, y)| + if row.watchId == y then 1 else 0
  {
    var mine := ObservationsOfWatch(db, y);
    assert ObservationsOfWatch(after, y) == if row.watchId == y then mine + {id} else mine;
    assert id !in mine;
  }

  lemma PurgeCounted(w: World, cutoff: Instant, watch: Option<WatchId>)
    requires Counted(w)
    ensures Counted(PurgeStep(w, cutoff, watch))
  {
    var gone := ExpiredObservations(w.db, cutoff, watch);
    var after := PurgeStep(w, cutoff, watch);
    forall y | y in after.db.watches
      ensures CountedRow(after, y)
    {
      assert CountedRow(w, y);
      var mine := ObservationsOfWatch(w.db, y);
      assert ObservationsOfWatch(after.db, y) == mine - gone;
      assert mine == (mine - gone) + (gone * mine);
    }
  }

  lemma DeleteCounted(w: World, x: WatchId, allow: bool)
    requires Counted(w)
    ensures Counted(DeleteStep(w, x, allow))
  {
    var after := DeleteStep(w, x, allow);
    if after != w {
      forall y | y in after.db.watches
        ensures CountedRow(after, y)
      {
        assert CountedRow(w, y);
        assert ObservationsOfWatch(after.db, y) == ObservationsOfWatch(w.db, y);
      }
    }
  }

  lemma SameObservationsCounted(w: World, after: World)
    requires Counted(w) && after.purged == w.purged
    requires after.db.watches == w.db.watches && after.db.observations == w.db.observations
    ensures Counted(after)
  {
    forall y | y in after.db.watches
      ensures CountedRow(after, y)
    {
      assert CountedRow(w, y);
      assert ObservationsOfWatch(after.db, y) == ObservationsOfWatch(w.db, y);
    }
  }

  lemma PromoteCounted(
    w: World, x: WatchId, id: ObservationId, policy: Policy, factory: seq<Option<EventId>>, now: Instant)
    requires Consistent(w.db) && Counted(w)
    ensures Counted(PromoteStep(w, x, id, policy, factory, now))
  {
    PromotionOutcome(w.db, x, id, policy, factory, now);
    hide Consistent, Counted, Promote;
    SameObservationsCounted(w, PromoteStep(w, x, id, policy, factory, now));
  }

  lemma NextCounted(config: DeliveryConfig, w: World, a: Action)
    requires Consistent(w.db) && Counted(w)
    ensures Counted(Next(config, w, a))
  {
    hide Consistent, Counted, Next;
    if IsDelivery(a) {
      DeliveryCounted(config, w, a);
    } else {
      StorageCounted(config, w, a);
    }
  }

  lemma StorageCounted(config: DeliveryConfig, w: World, a: Action)
    requires Consistent(w.db) && Counted(w) && !IsDelivery(a)
    ensures Counted(Next(config, w, a))
  {
    hide Consistent, ObservationsOwned, OutboxNumbered, AuthorityBacked, Counted, EnsureWatch;
    hide PersistStep, PromoteStep, PurgeStep, DeleteStep;
    ConsistentParts(w.db);
    match a
    case MarkRunStarted(x) => EnsureWatchCounted(w, x);
    case PersistObservation(x, id, observation, now) => PersistCounted(w, x, id, observation, now);
    case PromoteObservation(x, id, policy, factory, now) => PromoteCounted(w, x, id, policy, factory, now);
    case Purge(cutoff, watch) => PurgeCounted(w, cutoff, watch);
    case Delete(x, allow) => DeleteCounted(w, x, allow);
  }

  lemma DeliveryCounted(config: DeliveryConfig, w: World, a: Action)
    requires Counted(w) && IsDelivery(a)
    ensures Counted(Next(config, w, a))
  {
    hide Next, Counted;
    DeliveryKeepsWatchSide(config, w, a);
    SameObservationsCounted(w, Next(config, w, a));
  }

  lemma {:induction false} RunCounted(config: DeliveryConfig, w: World, actions: seq<Action>)
    requires Consistent(w.db) && Counted(w)
    ensures Counted(Run(config, w, actions))
    decreases actions
  {
    if actions != [] {
      NextConsistent(config, w, actions[0]);
      NextCounted(config, w, actions[0]);
      RunCounted(config, Next(config, w, actions[0]), actions[1..]);
    }
  }

  lemma StartIsSafe()
    ensures Consistent(START.db) && Chained(START) && Counted(START)
  {
    EmptyIsConsistent();
  }
}
