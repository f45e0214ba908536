/**
 WatchRuntime: the observer's bounded retry loop, and one run of a watch from its start mark to its
 recorded evidence. A run is proved to take three steps of the state machine at most, which other runs,
 purges and deletions may interleave.
 */
module Runtime {
  import opened Entities
  import opened Consistency
  import opened Protocol
  import opened Safety
  import opened Retry
  import opened Store
  import T = Tables

  datatype ObserverBehaviour =
    | Observes(observation: Observation)
    | ReturnsOther         // something that is not an Observation
    | Fails(error: string) // raises an Exception with this text
    | Breaks               // raises a BaseException that is not an Exception

  /** What one run meets. `observer` and `sleepFails` answer for the n-th attempt; None is a clock that raises. */
  datatype Surroundings = Surroundings(
    startClock: Option<Instant>,
    markFails: bool,
    observer: nat -> ObserverBehaviour,
    sleepFails: nat -> bool,
    failureClock: Option<Instant>,
    failureEvidence: nat -> Json,
    recordClock: Option<Instant>,
    observationId: Option<ObservationId>,
    policy: Policy,
    factory: seq<Option<EventId>>)

  datatype ObserveOutcome = Observed(observation: Observation) | NotAnObservation | ObserveRaised

  datatype RunOutcome = Completed(observation: Observation, events: seq<WatchEvent>) | RunRaised

  // ---------------------------------------------------------------- the retry loop

  /** Observation.failed: its state is JSON null. */
  function FailedObservation(at: Instant, error: string, evidence: Json): Observation {
    Observation(Failed, at, "null", evidence, Some(error))
  }

  /** The delays slept after the failures 1..n. */
  function Delays(retry: RetryPolicy, n: nat): seq<real>
    requires retry.Valid()
  {
    if n == 0 then [] else Delays(retry, n - 1) + [DelayForFailure(retry, n)]
  }

  function Sum(delays: seq<real>): real {
    if delays == [] then 0.0 else Sum(delays[..|delays| - 1]) + delays[|delays| - 1]
  }

  /** The observer fails on the attempt, and the sleep after it lets the loop go on. */
  predicate Repeats(s: Surroundings, attempt: nat) {
    s.observer(attempt).Fails? && !s.sleepFails(attempt)
  }

  /** How many calls have been made when the loop ends: the first attempt that does not repeat is the last. */
  function Calls(retry: RetryPolicy, s: Surroundings, attempt: nat): (calls: nat)
    requires 1 <= attempt <= retry.maxAttempts
    ensures attempt <= calls <= retry.maxAttempts
    ensures forall k :: attempt <= k < calls ==> Repeats(s, k)
    ensures calls == retry.maxAttempts || !Repeats(s, calls)
    decreases retry.maxAttempts - attempt
  {
    if attempt < retry.maxAttempts && Repeats(s, attempt) then Calls(retry, s, attempt + 1) else attempt
  }

  /** What the loop ends with. */
  function Conclusion(retry: RetryPolicy, s: Surroundings): ObserveOutcome
    requires retry.Valid()
  {
    var calls := Calls(retry, s, 1);
    match s.observer(calls)
    case Observes(observation) => Observed(observation)
    case ReturnsOther => NotAnObservation
    case Breaks => ObserveRaised
    case Fails(error) =>
      if calls < retry.maxAttempts || s.failureClock.None? then ObserveRaised
      else Observed(FailedObservation(s.failureClock.value, error, s.failureEvidence(calls)))
  }

  /** FAILED evidence of the last failure, at the time of the clock. */
  ghost predicate IsFailure(observation: Observation, at: Instant, error: string, evidence: Json) {
    && observation.status == Failed && observation.observedAt == at
    && observation.error == Some(error) && observation.evidence == evidence && observation.state == "null"
  }

  /** What the loop ends with when its last call is number `calls`. */
  ghost predicate EndsLike(retry: RetryPolicy, s: Surroundings, calls: nat, outcome: ObserveOutcome) {
    match s.observer(calls)
    case Observes(observation) => outcome == Observed(observation)
    case ReturnsOther => outcome == NotAnObservation
    case Breaks => outcome == ObserveRaised
    case Fails(error) =>
      if calls < retry.maxAttempts || s.failureClock == None then outcome == ObserveRaised
      else outcome.Observed?
           && IsFailure(outcome.observation, s.failureClock.value, error, s.failureEvidence(calls))
  }

  /** When every call fails and the clock answers, the run observes a failure. */
  lemma Exhaustion(retry: RetryPolicy, s: Surroundings)
    requires retry.Valid() && s.failureClock.Some?
    requires forall k :: 1 <= k <= retry.maxAttempts ==> s.observer(k).Fails?
    requires forall k :: 1 <= k < retry.maxAttempts ==> !s.sleepFails(k)
    ensures Conclusion(retry, s).Observed?
    ensures IsFailure(Conclusion(retry, s).observation, s.failureClock.value, s.observer(retry.maxAttempts).error,
                      s.failureEvidence(retry.maxAttempts))
  {
    var calls := Calls(retry, s, 1);
    if calls < retry.maxAttempts {
      assert Repeats(s, calls);
    }
  }

  /** The first observation that the observer returns, after failures only, is the outcome. */
  lemma FirstAnswer(retry: RetryPolicy, s: Surroundings, n: nat)
    requires retry.Valid() && 1 <= n <= retry.maxAttempts && s.observer(n).Observes?
    requires forall k :: 1 <= k < n ==> s.observer(k).Fails? && !s.sleepFails(k)
    ensures Conclusion(retry, s) == Observed(s.observer(n).observation)
  {
    var calls := Calls(retry, s, 1);
    assert !Repeats(s, n);
    if calls < n {
      assert Repeats(s, calls);
    }
  }

  /** k calls of the observer, at most max_attempts, and a sleep of the n-th delay after the n-th failure. */
  method Observe(retry: RetryPolicy, s: Surroundings)
    returns (outcome: ObserveOutcome, calls: nat, slept: seq<real>)
    requires retry.Valid()
    ensures 1 <= calls <= retry.maxAttempts
    ensures forall k :: 1 <= k < calls ==> Repeats(s, k)
    ensures calls == retry.maxAttempts || !Repeats(s, calls)
    ensures slept == Delays(retry, calls - 1)
    ensures outcome == Conclusion(retry, s)
    ensures EndsLike(retry, s, calls, outcome)
  {
    hide DelayForFailure;
    calls, slept := 1, [];
    while true
      invariant 1 <= calls <= retry.maxAttempts
      invariant forall k :: 1 <= k < calls ==> Repeats(s, k)
      invariant slept == Delays(retry, calls - 1)
      invariant Calls(retry, s, calls) == Calls(retry, s, 1)
      decreases retry.maxAttempts - calls
    {
      match s.observer(calls) {
        case Observes(observation) => return Observed(observation), calls, slept;
        case ReturnsOther => return NotAnObservation, calls, slept;
        case Breaks => return ObserveRaised, calls, slept;
        case Fails(error) =>
          if calls == retry.maxAttempts {
            if s.failureClock.None? {
              return ObserveRaised, calls, slept;
            }
            return Observed(FailedObservation(s.failureClock.value, error, s.failureEvidence(calls))), calls, slept;
          }
          if s.sleepFails(calls) {
            return ObserveRaised, calls, slept;
          }
          slept := slept + [DelayForFailure(retry, calls)];
          calls := calls + 1;
      }
    }
  }

  lemma {:induction false} DelaysAscend(retry: RetryPolicy, n: nat)
    requires retry.Valid()
    ensures var delays := Delays(retry, n);
            && |delays| == n
            && (forall i :: 0 <= i < n ==> delays[i] == DelayForFailure(retry, i + 1))
            && (forall i, j :: 0 <= i < j < n ==> delays[i] <= delays[j])
  {
    hide DelayForFailure;
    if n > 0 {
      DelaysAscend(retry, n - 1);
      var delays := Delays(retry, n);
      forall i | 0 <= i < n - 1
        ensures delays[i] <= delays[n - 1]
      {
        DelayBoundedAndMonotone(retry, i + 1, n);
      }
    }
  }

  /** The sleeps of k calls last between (k - 1) * base and (k - 1) * maximum in all. */
  lemma {:induction false} DelaysBounded(retry: RetryPolicy, n: nat)
    requires retry.Valid()
    ensures n as real * retry.baseDelaySeconds <= Sum(Delays(retry, n)) <= n as real * retry.maximumDelaySeconds
  {
    hide DelayForFailure, Sum;
    if n == 0 {
      NothingSlept(retry);
    } else {
      var k: nat := n - 1;
      var shorter, last := Delays(retry, k), DelayForFailure(retry, n);
      DelaysBounded(retry, k);
      DelayBoundedAndMonotone(retry, n, n);
      OneDelayMore(k, retry.baseDelaySeconds, last, retry.maximumDelaySeconds, Sum(shorter));
      SumAppended(shorter, last);
    }
  }

  lemma {:induction false} NothingSlept(retry: RetryPolicy)
    requires retry.Valid()
    ensures Sum(Delays(retry, 0)) == 0.0
  {
  }

  lemma {:induction false} SumAppended(delays: seq<real>, last: real)
    ensures Sum(delays + [last]) == Sum(delays) + last
  {
    assert (delays + [last])[..|delays|] == delays;
  }

  lemma OneDelayMore(k: nat, base: real, delay: real, maximum: real, sum: real)
    requires base <= delay <= maximum && k as real * base <= sum <= k as real * maximum
    ensures (k + 1) as real * base <= sum + delay <= (k + 1) as real * maximum
  {
    assert (k + 1) as real == k as real + 1.0;
  }

  // ---------------------------------------------------------------- one run

  /** What a run ends with, and the tables it leaves. */
  datatype RunEnd = RunEnd(db: T.Database, outcome: RunOutcome)

  /** run_once: the start mark, the observation, and its record. */
  function RunEndOf(db: T.Database, watchId: WatchId, retry: RetryPolicy, s: Surroundings): RunEnd
    requires retry.Valid()
  {
    if s.startClock.None? || s.markFails then RunEnd(db, RunRaised)
    else
      var marked := T.EnsureWatch(db, watchId);
      var observed := Conclusion(retry, s);
      if !observed.Observed? || s.recordClock.None? then RunEnd(marked, RunRaised)
      else
        var recorded := T.RecordObservation(marked, watchId, s.observationId, observed.observation, s.policy,
                                            s.factory, s.recordClock.value);
        RunEnd(recorded.db, if recorded.outcome.Ok? then Completed(observed.observation, recorded.outcome.value)
                            else RunRaised)
  }

  class WatchRuntime {
    const store: SQLiteStore

    constructor (store: SQLiteStore)
      ensures this.store == store
    {
      this.store := store;
    }

    method RunOnce(watchId: WatchId, retry: RetryPolicy, s: Surroundings) returns (r: RunOutcome)
      requires retry.Valid() && store.Valid()
      modifies store
      ensures store.Valid()
      ensures RunEnd(store.Snapshot(), r) == RunEndOf(old(store.Snapshot()), watchId, retry, s)
    {
      hide store.Snapshot, Consistent, T.RecordObservation;
      if s.startClock.None? || s.markFails {
        return RunRaised;
      }
      store.MarkRunStarted(watchId);
      var observed, calls, slept := Observe(retry, s);
      if !observed.Observed? || s.recordClock.None? {
        return RunRaised;
      }
      var recorded := store.RecordObservation(watchId, s.observationId, observed.observation, s.policy, s.factory,
                                              s.recordClock.value);
      r := if recorded.Ok? then Completed(observed.observation, recorded.value) else RunRaised;
    }
  }

  // ---------------------------------------------------------------- what a run leaves

  /** Exactly one observation was added, for the watch, and counted. */
  predicate OneObservationMore(db: T.Database, after: T.Database, x: WatchId, observation: Observation) {
    && (exists id :: id in after.observations && id !in db.observations
          && after.observations == db.observations[id := after.observations[id]]
          && after.observations[id].watchId == x && after.observations[id].observation == observation)
    && x in after.watches
    && after.watches[x].executionCount == (if x in db.watches then db.watches[x].executionCount else 0) + 1
  }

  /** Evidence outlives its promotion: however record_observation ends, all or nothing of it was kept. */
  lemma EvidenceSurvives(
    db: T.Database, x: WatchId, id: Option<ObservationId>, observation: Observation, policy: Policy,
    factory: seq<Option<EventId>>, now: Instant)
    ensures var r := T.RecordObservation(db, x, id, observation, policy, factory, now);
            && (r.db == db || OneObservationMore(db, r.db, x, observation))
            && (r.db == db <==> id.None? || id.value in db.observations)
            && (r.db == db ==> r.outcome.Err?)
  {
    if id.Some? && id.value !in db.observations {
      var kept := T.Persist(db, x, id.value, observation, now).value;
      var r := T.RecordObservation(db, x, id, observation, policy, factory, now);
      var promoted := T.Promote(kept, x, id.value, policy, factory, now);
      if observation.status == Valid && promoted.Ok? {
        PromotionKeepsEvidence(kept, x, id.value, policy, factory, now);
      }
      assert r.db.observations == kept.observations && r.db.watches == kept.watches;
      assert id.value in r.db.observations;
      assert r.db.observations == db.observations[id.value := r.db.observations[id.value]];
    }
  }

  /** Persisting succeeds exactly for a new identifier, and adds the row and counts it. */
  lemma PersistOutcome(db: T.Database, x: WatchId, id: ObservationId, observation: Observation, now: Instant)
    ensures var r := T.Persist(db, x, id, observation, now);
            && (r.Ok? <==> id !in db.observations)
            && (r.Err? ==> r.error == IntegrityError)
            && (r.Ok? ==>
                  && r.value == db.(observations := r.value.observations, watches := r.value.watches)
                  && r.value.observations == db.observations[id := ObservationRow(x, observation, now)]
                  && r.value.watches == db.watches[x :=
                       WatchRow(if x in db.watches then db.watches[x].executionCount + 1 else 1)])
  {
  }

  /** record_observation raises what either transaction raises, and returns the events of the promotion. */
  lemma RecordOutcome(
    db: T.Database, x: WatchId, id: Option<ObservationId>, observation: Observation, policy: Policy,
    factory: seq<Option<EventId>>, now: Instant)
    ensures var r := T.RecordObservation(db, x, id, observation, policy, factory, now);
            && (id == None ==> r.outcome == Err(ObservationIdError) && r.db == db)
            && (id.Some? && id.value in db.observations ==> r.outcome == Err(IntegrityError) && r.db == db)
            && (id.Some? && id.value !in db.observations ==>
                  && T.Persist(db, x, id.value, observation, now).Ok?
                  && var kept := T.Persist(db, x, id.value, observation, now).value;
                     var promoted := T.Promote(kept, x, id.value, policy, factory, now);
                     if observation.status == Failed || observation.status == Degraded
                     then r.outcome == Ok([]) && r.db == kept
                     else if promoted.Ok? then r.outcome == Ok(promoted.value.events) && r.db == promoted.value.db
                     else r.outcome == Err(promoted.error) && r.db == kept)
  {
    hide T.Promote;
  }

  /** Nothing but the watch's row and the evidence. */
  ghost predicate OnlyEvidence(db: T.Database, after: T.Database) {
    after == db.(watches := after.watches, observations := after.observations)
  }

  /** A run whose observer never returns an observation touches neither authority, nor events, nor the outbox. */
  lemma SilentRunPromotesNothing(db: T.Database, x: WatchId, retry: RetryPolicy, s: Surroundings)
    requires retry.Valid()
    requires forall k :: s.observer(k).Fails? || s.observer(k).ReturnsOther? || s.observer(k).Breaks?
    ensures OnlyEvidence(db, RunEndOf(db, x, retry, s).db)
  {
    if s.startClock.Some? && !s.markFails {
      var marked := T.EnsureWatch(db, x);
      var observed := Conclusion(retry, s);
      if observed.Observed? && s.recordClock.Some? {
        var calls := Calls(retry, s, 1);
        assert observed.observation.status == Failed;
        RecordOutcome(marked, x, s.observationId, observed.observation, s.policy, s.factory, s.recordClock.value);
        if s.observationId.Some? {
          PersistOutcome(marked, x, s.observationId.value, observed.observation, s.recordClock.value);
        }
        hide T.RecordObservation, T.Persist, Conclusion;
      }
    }
  }

  /** A run that starts leaves the watch's row; without an observation or a clock, nothing else, and it raises. */
  lemma RunLeaves(db: T.Database, x: WatchId, retry: RetryPolicy, s: Surroundings)
    requires retry.Valid()
    ensures var end := RunEndOf(db, x, retry, s);
            && (s.startClock == None || s.markFails ==> end == RunEnd(db, RunRaised))
            && (s.startClock.Some? && !s.markFails && !(Conclusion(retry, s).Observed? && s.recordClock.Some?) ==>
                  && end.outcome == RunRaised
                  && end.db == db.(watches := if x in db.watches then db.watches else db.watches[x := WatchRow(0)]))
            && (end.outcome.Completed? ==>
                  && s.startClock.Some? && !s.markFails && s.recordClock.Some?
                  && Conclusion(retry, s) == Observed(end.outcome.observation))
  {
    hide T.RecordObservation, Conclusion;
  }

  lemma PromotionKeepsEvidence(
    db: T.Database, x: WatchId, id: ObservationId, policy: Policy, factory: seq<Option<EventId>>, now: Instant)
    ensures var r := T.Promote(db, x, id, policy, factory, now);
            r.Ok? ==> r.value.db.observations == db.observations && r.value.db.watches == db.watches
  {
    var r := T.Promote(db, x, id, policy, factory, now);
    if r.Ok? && !T.Stale(db, x, id) {
      var current := db.observations[id].observation;
      InsertEventsKeepsEvidence(db, x, current, policy(T.ReadAuthoritative(db, x), current).value, factory, now);
    }
  }

  lemma {:induction false} InsertEventsKeepsEvidence(
    db: T.Database, x: WatchId, observation: Observation, drafts: seq<EventDraft>, factory: seq<Option<EventId>>,
    now: Instant)
    ensures var r := T.InsertEvents(db, x, observation, drafts, factory, now);
            r.Ok? ==> r.value.db.observations == db.observations && r.value.db.watches == db.watches
    decreases drafts
  {
    if drafts != [] && factory != [] && factory[0].Some? && factory[0].value !in db.events {
      var event := T.EventFromDraft(x, factory[0].value, observation, drafts[0]);
      InsertEventsKeepsEvidence(T.InsertEvent(db, event, now), x, observation, drafts[1..], factory[1..], now);
    }
  }

  /**
   A run that returns has recorded exactly one observation, the one it returns; a run that raises has
   recorded at most one.
   */
  lemma RunRecordsOneObservation(db: T.Database, x: WatchId, retry: RetryPolicy, s: Surroundings)
    requires retry.Valid()
    ensures var end := RunEndOf(db, x, retry, s);
            && (end.outcome.Completed? ==> OneObservationMore(db, end.db, x, end.outcome.observation))
            && (end.outcome.RunRaised? && end.db.observations != db.observations ==>
                  exists observation :: OneObservationMore(db, end.db, x, observation))
  {
    var end := RunEndOf(db, x, retry, s);
    if s.startClock.Some? && !s.markFails {
      var marked := T.EnsureWatch(db, x);
      var observed := Conclusion(retry, s);
      if observed.Observed? && s.recordClock.Some? {
        EvidenceSurvives(marked, x, s.observationId, observed.observation, s.policy, s.factory, s.recordClock.value);
        if end.db != marked {
          assert OneObservationMore(db, end.db, x, observed.observation);
        }
      }
    }
  }

  // ---------------------------------------------------------------- runs as steps of the machine

  /** The steps of a run that starts in `db`: it promotes only what it has persisted, and only if VALID. */
  function Steps(db: T.Database, x: WatchId, retry: RetryPolicy, s: Surroundings): seq<Action>
    requires retry.Valid()
  {
    if s.startClock.None? || s.markFails then []
    else
      var observed := Conclusion(retry, s);
      [MarkRunStarted(x)]
      + if !observed.Observed? || s.recordClock.None? || s.observationId.None? then []
        else RecordSteps(db, x, s.observationId.value, observed.observation, s.policy, s.factory, s.recordClock.value)
  }

  function RecordSteps(
    db: T.Database, x: WatchId, id: ObservationId, observation: Observation, policy: Policy,
    factory: seq<Option<EventId>>, now: Instant
  ): seq<Action> {
    [PersistObservation(x, id, observation, now)]
    + if id in db.observations || observation.status != Valid then []
      else [PromoteObservation(x, id, policy, factory, now)]
  }

  lemma {:induction false} RecordIsRun(
    config: DeliveryConfig, w: World, x: WatchId, id: ObservationId, observation: Observation, policy: Policy,
    factory: seq<Option<EventId>>, now: Instant)
    ensures T.RecordObservation(w.db, x, Some(id), observation, policy, factory, now).db
            == Run(config, w, RecordSteps(w.db, x, id, observation, policy, factory, now)).db
  {
    hide T.Promote, Run;
    var persist := PersistObservation(x, id, observation, now);
    var promote := PromoteObservation(x, id, policy, factory, now);
    var kept := PersistStep(w, x, id, observation, now);
    assert Next(config, w, persist) == kept;
    RunCons(config, w, persist, []);
    RunOfNothing(config, kept);
    if id !in w.db.observations && observation.status == Valid {
      RunCons(config, w, persist, [promote]);
      RunCons(config, kept, promote, []);
      assert [promote] + [] == [promote];
      RunOfNothing(config, PromoteStep(kept, x, id, policy, factory, now));
      assert Next(config, kept, promote) == PromoteStep(kept, x, id, policy, factory, now);
      hide Next;
    }
  }

  /** A run that nothing interleaves ends where the steps of the machine lead. */
  lemma {:induction false} RunOnceIsRun(
    config: DeliveryConfig, w: World, x: WatchId, retry: RetryPolicy, s: Surroundings)
    requires retry.Valid()
    ensures RunEndOf(w.db, x, retry, s).db == Run(config, w, Steps(w.db, x, retry, s)).db
  {
    hide T.RecordObservation, Conclusion, RecordSteps, Run;
    RunOfNothing(config, w);
    if s.startClock.Some? && !s.markFails {
      var marked := Next(config, w, MarkRunStarted(x));
      assert marked.db == T.EnsureWatch(w.db, x) && marked.db.observations == w.db.observations;
      RunCons(config, w, MarkRunStarted(x), []);
      RunOfNothing(config, marked);
      var observed := Conclusion(retry, s);
      if observed.Observed? && s.recordClock.Some? {
        if s.observationId.None? {
          NothingIsRecorded(marked.db, x, observed.observation, s.policy, s.factory, s.recordClock.value);
        } else {
          var id, now := s.observationId.value, s.recordClock.value;
          RecordIsRun(config, marked, x, id, observed.observation, s.policy, s.factory, now);
          SameRecordSteps(w.db, marked.db, x, id, observed.observation, s.policy, s.factory, now);
          RunCons(config, w, MarkRunStarted(x),
                    RecordSteps(w.db, x, id, observed.observation, s.policy, s.factory, now));
        }
      }
    }
  }

  lemma NothingIsRecorded(
    db: T.Database, x: WatchId, observation: Observation, policy: Policy, factory: seq<Option<EventId>>, now: Instant)
    ensures T.RecordObservation(db, x, None, observation, policy, factory, now).db == db
  {
  }

  lemma SameRecordSteps(
    db: T.Database, marked: T.Database, x: WatchId, id: ObservationId, observation: Observation, policy: Policy,
    factory: seq<Option<EventId>>, now: Instant)
    requires marked.observations == db.observations
    ensures RecordSteps(marked, x, id, observation, policy, factory, now)
            == RecordSteps(db, x, id, observation, policy, factory, now)
  {
  }

  // ---------------------------------------------------------------- removal between persist and promote

  predicate Persists(a: Action, id: ObservationId) {
    a.PersistObservation? && a.observationId == id
  }

  /** Only a persist of that very id puts an observation into the table. */
  lemma StepAddsOnlyPersisted(config: DeliveryConfig, w: World, a: Action, id: ObservationId)
    requires id !in w.db.observations && !Persists(a, id)
    ensures id !in Next(config, w, a).db.observations
  {
    if IsDelivery(a) {
      DeliveryKeepsWatchSide(config, w, a);
    } else if a.PromoteObservation? {
      PromotionKeepsEvidence(w.db, a.watchId, a.observationId, a.policy, a.factory, a.now);
    }
  }

  lemma {:induction false} RunAddsOnlyPersisted(
    config: DeliveryConfig, w: World, actions: seq<Action>, id: ObservationId)
    requires id !in w.db.observations && forall a :: a in actions ==> !Persists(a, id)
    ensures id !in Run(config, w, actions).db.observations
    decreases actions
  {
    if actions != [] {
      StepAddsOnlyPersisted(config, w, actions[0], id);
      RunAddsOnlyPersisted(config, Next(config, w, actions[0]), actions[1..], id);
    }
  }

  /**
   An observation that a purge or a deletion removed between its persist and its promotion is never
   promoted: whatever else happens in between, the promotion raises and changes nothing.
   */
  lemma {:induction false} RemovedEvidenceNeverPromotes(
    config: DeliveryConfig, w: World, removal: Action, actions: seq<Action>, x: WatchId, id: ObservationId,
    policy: Policy, factory: seq<Option<EventId>>, now: Instant)
    requires id in w.db.observations && id !in Next(config, w, removal).db.observations
    requires forall a :: a in actions ==> !Persists(a, id)
    ensures var later := Run(config, w, [removal] + actions);
            && T.Promote(later.db, x, id, policy, factory, now) == Err(MissingObservation)
            && Next(config, later, PromoteObservation(x, id, policy, factory, now)) == later
  {
    RunCons(config, w, removal, actions);
    RunAddsOnlyPersisted(config, Next(config, w, removal), actions, id);
  }
}
