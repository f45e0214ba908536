/**
 The whole engine as one state machine. Each step is one committed transaction, one sink call, or one
 interruption; any number of runs and dispatchers take steps in any order. An action carries every
 choice its step depends on: identifiers, clock readings, what a policy or a sink does. An action that
 its actor cannot take in the current state changes nothing.
 */
module Protocol {
  import opened Entities
  import opened Tables
  import opened Consistency

  /** `delay(n)` is the backoff after the n-th failure in microseconds; nothing here depends on its values. */
  datatype DeliveryConfig = DeliveryConfig(maxAttempts: int, batchSize: int, delay: nat -> nat)
  {
    predicate Valid() {
      maxAttempts >= 1 && 1 <= batchSize <= MAX_DELIVERY_BATCH_SIZE
    }
  }

  /** When the dispatcher retries after the given failure, which completed at `completedAt`. */
  datatype RetryDecision =
    | GiveUp
    | RetryAt(at: Instant)
    | Unrepresentable  // completed_at + delay raises OverflowError

  function Decide(config: DeliveryConfig, failureNumber: nat, completedAt: Instant): RetryDecision {
    if failureNumber >= config.maxAttempts then GiveUp
    else if completedAt + config.delay(failureNumber) < INSTANT_LIMIT then
      RetryAt(completedAt + config.delay(failureNumber))
    else Unrepresentable
  }

  /** What sink.deliver does. An exception that is not an `Exception` breaks out of dispatch_ready. */
  datatype SinkOutcome = ReturnedNone | ReturnedOther | Raised(text: string) | Broke

  function ErrorText(outcome: SinkOutcome): string {
    if outcome.Raised? then outcome.text else "TypeError: operation failed"
  }

  datatype SinkCall = SinkCall(outboxId: nat, eventId: EventId, attemptNumber: nat, outcome: SinkOutcome)

  /** Where a dispatcher is in dispatch_ready. `Idle` remembers the attribute _recovered. */
  datatype Phase =
    | Idle(recovered: bool)
    | Recovering(claimTime: Instant)
    | Claiming(claimTime: Instant)
    | Sending(pending: seq<ClaimedEvent>)
    | Answered(pending: seq<ClaimedEvent>, call: nat)

  /** A removed row, with its attempts at that moment; `forced` if delete_watch had allow_undelivered set. */
  datatype Archived = Archived(row: OutboxRow, log: seq<AttemptRow>, forced: bool)

  /** One committed promotion, as its policy saw it. */
  datatype Transition = Transition(previous: Option<Observation>, current: Observation)

  /**
   The tables, the dispatchers, and history: every sink call, which call each acknowledgement
   committed, the removed rows, and, since the watch row was created, the committed promotions and
   the number of purged observations.
   */
  datatype World = World(
    db: Database,
    phases: map<nat, Phase>,
    calls: seq<SinkCall>,
    acks: map<(nat, nat), nat>,
    archive: map<nat, Archived>,
    transitions: map<WatchId, seq<Transition>>,
    purged: map<WatchId, nat>)

  const START := World(EMPTY_DATABASE, map[], [], map[], map[], map[], map[])

  datatype Action =
    | MarkRunStarted(watchId: WatchId)
    | PersistObservation(watchId: WatchId, observationId: ObservationId, observation: Observation, now: Instant)
    | PromoteObservation(watchId: WatchId, observationId: ObservationId, policy: Policy,
                         factory: seq<Option<EventId>>, now: Instant)
    | Purge(cutoff: Instant, watch: Option<WatchId>)
    | Delete(watchId: WatchId, allowUndelivered: bool)
    | Begin(dispatcher: nat, now: Instant)
    | Recover(dispatcher: nat)
    | Claim(dispatcher: nat)
    | CallSink(dispatcher: nat, outcome: SinkOutcome)
    | Acknowledgement(dispatcher: nat, now: Instant)
    | Finish(dispatcher: nat)
    | Interrupt(dispatcher: nat)  // an exception leaves dispatch_ready, or the process dies

  // ---------------------------------------------------------------- runs and retention

  function TransitionsOf(w: World, watchId: WatchId): seq<Transition> {
    if watchId in w.transitions then w.transitions[watchId] else []
  }

  function PurgedOf(w: World, watchId: WatchId): nat {
    if watchId in w.purged then w.purged[watchId] else 0
  }

  function PersistStep(
    w: World, watchId: WatchId, observationId: ObservationId, observation: Observation, now: Instant
  ): World {
    match Persist(w.db, watchId, observationId, observation, now)
    case Ok(db) => w.(db := db)
    case Err(_) => w
  }

  /** record_observation promotes only a VALID observation; a stale one commits without a transition. */
  function PromoteStep(
    w: World, watchId: WatchId, observationId: ObservationId, policy: Policy,
    factory: seq<Option<EventId>>, now: Instant
  ): World {
    if observationId in w.db.observations && w.db.observations[observationId].observation.status != Valid then w
    else
      match Promote(w.db, watchId, observationId, policy, factory, now)
      case Err(_) => w
      case Ok(done) =>
        if Stale(w.db, watchId, observationId) then w.(db := done.db)
        else
          w.(db := done.db,
             transitions := w.transitions[watchId :=
               TransitionsOf(w, watchId)
               + [Transition(ReadAuthoritative(w.db, watchId), w.db.observations[observationId].observation)]])
  }

  /** The tables after a promotion step: those of the transaction, if there is one and it commits. */
  lemma PromotedTables(w: World, a: Action)
    requires a.PromoteObservation?
    ensures PromoteStep(w, a.watchId, a.observationId, a.policy, a.factory, a.now).db
            == if a.observationId in w.db.observations
                  && w.db.observations[a.observationId].observation.status != Valid then w.db
               else match Promote(w.db, a.watchId, a.observationId, a.policy, a.factory, a.now)
                    case Ok(done) => done.db
                    case Err(_) => w.db
  {
    hide Promote;
  }

  function ArchiveOf(db: Database, ids: set<nat>, forced: bool): map<nat, Archived> {
    map id | id in ids && id in db.outbox :: Archived(db.outbox[id], LogOf(db.attempts, id), forced)
  }

  function PurgeStep(w: World, cutoff: Instant, watch: Option<WatchId>): World {
    var gone := ExpiredObservations(w.db, cutoff, watch);
    w.(db := PurgeBefore(w.db, cutoff, watch),
       archive := w.archive + ArchiveOf(w.db, PurgeTargets(w.db, cutoff, watch), false),
       purged := map x | x in w.db.watches :: PurgedOf(w, x) + |gone * ObservationsOfWatch(w.db, x)|)
  }

  function DeleteStep(w: World, watchId: WatchId, allowUndelivered: bool): World {
    match DeleteWatch(w.db, watchId, allowUndelivered)
    case Err(_) => w
    case Ok(db) =>
      w.(db := db,
         archive := w.archive
                    + ArchiveOf(w.db, OutboxOfEvents(w.db, EventsOfWatch(w.db, watchId)), allowUndelivered),
         transitions := w.transitions - {watchId},
         purged := w.purged - {watchId})
  }

  // ---------------------------------------------------------------- dispatchers

  /** A dispatcher object that has not been used yet is idle and has not recovered. */
  function PhaseOf(w: World, d: nat): Phase {
    if d in w.phases then w.phases[d] else Idle(false)
  }

  function Enter(w: World, d: nat, phase: Phase): World {
    w.(phases := w.phases[d := phase])
  }

  function BeginStep(w: World, d: nat, now: Instant): World {
    match PhaseOf(w, d)
    case Idle(recovered) => Enter(w, d, if recovered then Claiming(now) else Recovering(now))
    case _ => w
  }

  function RecoverStep(w: World, d: nat): World {
    match PhaseOf(w, d)
    case Recovering(now) => Enter(w.(db := RecoverInFlight(w.db, now)), d, Claiming(now))
    case _ => w
  }

  function ClaimStep(config: DeliveryConfig, w: World, d: nat): World {
    match PhaseOf(w, d)
    case Claiming(now) =>
      (match ClaimDue(w.db, now, config.batchSize)
       case Ok(claimed) => Enter(w.(db := claimed.db), d, Sending(claimed.claims))
       case Err(_) => Enter(w, d, Idle(false)))
    case _ => w
  }

  function CallOf(claim: ClaimedEvent, outcome: SinkOutcome): SinkCall {
    SinkCall(claim.outboxId, claim.event.eventId, claim.attempts + 1, outcome)
  }

  function CallStep(w: World, d: nat, outcome: SinkOutcome): World {
    match PhaseOf(w, d)
    case Sending(pending) =>
      if pending == [] then w
      else
        Enter(w.(calls := w.calls + [CallOf(pending[0], outcome)]), d,
              if outcome.Broke? then Idle(false) else Answered(pending, |w.calls|))
    case _ => w
  }

  /** None when computing the retry time raises; otherwise the acknowledgement transaction. */
  function AcknowledgeTx(
    config: DeliveryConfig, db: Database, claim: ClaimedEvent, outcome: SinkOutcome, now: Instant
  ): Option<Result<Database>> {
    if outcome == ReturnedNone then Some(RecordSuccess(db, claim, now))
    else
      match Decide(config, claim.attempts + 1, now)
      case GiveUp => Some(RecordFailure(db, claim, ErrorText(outcome), None, now))
      case RetryAt(at) => Some(RecordFailure(db, claim, ErrorText(outcome), Some(at), now))
      case Unrepresentable => None
  }

  function AcknowledgeStep(config: DeliveryConfig, w: World, d: nat, now: Instant): World {
    match PhaseOf(w, d)
    case Answered(pending, call) =>
      if pending == [] || call >= |w.calls| then w
      else
        var claim := pending[0];
        var tx := AcknowledgeTx(config, w.db, claim, w.calls[call].outcome, now);
        if tx.Some? && tx.value.Ok? then
          Enter(w.(db := tx.value.value, acks := w.acks[(claim.outboxId, claim.attempts + 1) := call]),
                d, Sending(pending[1..]))
        else
          Enter(w, d, Idle(false))
    case _ => w
  }

  function FinishStep(w: World, d: nat): World {
    match PhaseOf(w, d)
    case Sending(pending) => if pending == [] then Enter(w, d, Idle(true)) else w
    case _ => w
  }

  function InterruptStep(w: World, d: nat): World {
    Enter(w, d, Idle(false))
  }

  // ---------------------------------------------------------------- runs of the machine

  function Next(config: DeliveryConfig, w: World, a: Action): World {
    match a
    case MarkRunStarted(x) => w.(db := EnsureWatch(w.db, x))
    case PersistObservation(x, id, observation, now) => PersistStep(w, x, id, observation, now)
    case PromoteObservation(x, id, policy, factory, now) => PromoteStep(w, x, id, policy, factory, now)
    case Purge(cutoff, watch) => PurgeStep(w, cutoff, watch)
    case Delete(x, allow) => DeleteStep(w, x, allow)
    case Begin(d, now) => BeginStep(w, d, now)
    case Recover(d) => RecoverStep(w, d)
    case Claim(d) => ClaimStep(config, w, d)
    case CallSink(d, outcome) => CallStep(w, d, outcome)
    case Acknowledgement(d, now) => AcknowledgeStep(config, w, d, now)
    case Finish(d) => FinishStep(w, d)
    case Interrupt(d) => InterruptStep(w, d)
  }

  function Run(config: DeliveryConfig, w: World, actions: seq<Action>): World
    decreases actions
  {
    if actions == [] then w else Run(config, Next(config, w, actions[0]), actions[1..])
  }

  lemma {:induction false} RunAppend(config: DeliveryConfig, w: World, a: seq<Action>, b: seq<Action>)
    ensures Run(config, w, a + b) == Run(config, Run(config, w, a), b)
    decreases a
  {
    if a == [] {
      assert a + b == b;
    } else {
      assert (a + b)[1..] == a[1..] + b;
      RunAppend(config, Next(config, w, a[0]), a[1..], b);
    }
  }

  lemma {:induction false} RunCons(config: DeliveryConfig, w: World, a: Action, rest: seq<Action>)
    ensures Run(config, w, [a] + rest) == Run(config, Next(config, w, a), rest)
  {
    assert ([a] + rest)[1..] == rest;
  }

  lemma {:induction false} RunOne(config: DeliveryConfig, w: World, a: Action)
    ensures Run(config, w, [a]) == Next(config, w, a)
  {
    assert [a][1..] == [];
  }

  lemma {:induction false} RunOfNothing(config: DeliveryConfig, w: World)
    ensures Run(config, w, []) == w
  {
  }
}
