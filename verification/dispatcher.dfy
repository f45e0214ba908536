/**
 OutboxDispatcher: the recover, claim, deliver and acknowledge loop over the store, with its _recovered
 attribute. A call is proved to take exactly the steps of the state machine that `Plan` lists, so every
 theorem about runs of the machine is a theorem about calls of dispatch_ready.
 */
module Dispatcher {
  import opened Entities
  import opened Consistency
  import opened Protocol
  import opened Safety
  import opened Retry
  import opened Store
  import T = Tables

  /**
   All that one call meets: the clock (None when it raises), the sink and the clock for the i-th claim,
   where an exception arises in the store (before a transaction commits, while claimed rows are decoded,
   or after the i-th acknowledgement has committed), and what other actors commit in the meantime.
   */
  datatype Surroundings = Surroundings(
    claimTime: Option<Instant>,
    recoverFails: bool,
    claimFails: bool,
    decodeFails: bool,
    sink: nat -> SinkOutcome,
    clock: nat -> Option<Instant>,
    acknowledgeFails: nat -> bool,
    interruptedAfter: nat -> bool,
    beforeClaim: seq<Action>,
    beforeCall: nat -> seq<Action>,
    duringCall: nat -> seq<Action>)

  datatype DeliveryResult = DeliveryResult(eventId: EventId, delivered: bool, error: Option<string>)

  datatype Outcome = Returned(results: seq<DeliveryResult>) | RaisedError

  // ---------------------------------------------------------------- the steps of a call

  /** Runs, purges and deletions: every step but those of dispatchers. */
  ghost predicate StorageOnly(actions: seq<Action>) {
    forall a :: a in actions ==> !IsDelivery(a)
  }

  /** There is no other dispatcher. */
  ghost predicate OnlyDispatcher(s: Surroundings) {
    && StorageOnly(s.beforeClaim)
    && (forall i :: StorageOnly(s.beforeCall(i)) && StorageOnly(s.duringCall(i)))
  }

  /** The i-th sink call, with what commits before it. */
  function Called(d: nat, s: Surroundings, i: nat): seq<Action> {
    s.beforeCall(i) + [CallSink(d, s.sink(i))]
  }

  predicate Unacknowledged(s: Surroundings, i: nat) {
    s.sink(i).Broke? || s.clock(i).None? || s.acknowledgeFails(i)
  }

  /** The steps taken for the i-th claim. */
  function Round(d: nat, s: Surroundings, i: nat): seq<Action> {
    if Unacknowledged(s, i) then Called(d, s, i)
    else Called(d, s, i) + (s.duringCall(i) + [Acknowledgement(d, s.clock(i).value)])
  }

  /** The acknowledgement has committed, and the loop goes on. */
  predicate GoesOn(next: World, d: nat, s: Surroundings, i: nat, rest: seq<ClaimedEvent>) {
    PhaseOf(next, d) == Sending(rest) && !s.interruptedAfter(i)
  }

  /** The rest of the call from the i-th claim on. */
  function Rounds(config: DeliveryConfig, w: World, d: nat, s: Surroundings, i: nat): seq<Action>
    decreases if PhaseOf(w, d).Sending? then |PhaseOf(w, d).pending| else 0
  {
    if !PhaseOf(w, d).Sending? then [Interrupt(d)]
    else
      var pending := PhaseOf(w, d).pending;
      if pending == [] then [Finish(d)]
      else
        var next := Run(config, w, Round(d, s, i));
        Round(d, s, i)
        + if GoesOn(next, d, s, i, pending[1..]) then Rounds(config, next, d, s, i + 1) else [Interrupt(d)]
  }

  function ClaimAndDeliver(config: DeliveryConfig, w: World, d: nat, s: Surroundings): seq<Action> {
    s.beforeClaim + ClaimNow(config, Run(config, w, s.beforeClaim), d, s)
  }

  function ClaimNow(config: DeliveryConfig, w: World, d: nat, s: Surroundings): seq<Action> {
    if s.claimFails then [Interrupt(d)]
    else
      [Claim(d)] + if s.decodeFails then [Interrupt(d)] else Rounds(config, Next(config, w, Claim(d)), d, s, 0)
  }

  function RecoverFirst(config: DeliveryConfig, w: World, d: nat, s: Surroundings): seq<Action> {
    if PhaseOf(w, d).Claiming? then ClaimAndDeliver(config, w, d, s)
    else if s.recoverFails then [Interrupt(d)]
    else [Recover(d)] + ClaimAndDeliver(config, Next(config, w, Recover(d)), d, s)
  }

  /** The steps of one call of dispatch_ready. A clock that raises first of all leaves no trace. */
  function Plan(config: DeliveryConfig, w: World, d: nat, s: Surroundings): seq<Action> {
    match s.claimTime
    case None => []
    case Some(now) => [Begin(d, now)] + RecoverFirst(config, Next(config, w, Begin(d, now)), d, s)
  }

  // ---------------------------------------------------------------- results

  /** A result reports the sink call. */
  predicate Reports(result: DeliveryResult, call: SinkCall) {
    && result.eventId == call.eventId
    && (result.delivered <==> call.outcome == ReturnedNone)
    && result.error == if result.delivered then None else Some(ErrorText(call.outcome))
  }

  predicate ReportsAll(results: seq<DeliveryResult>, calls: seq<SinkCall>, first: nat) {
    && first + |results| == |calls|
    && forall i :: 0 <= i < |results| ==> Reports(results[i], calls[first + i])
  }

  // ---------------------------------------------------------------- the class

  class OutboxDispatcher {
    const id: nat
    const store: SQLiteStore
    const retry: RetryPolicy
    const batchSize: int
    var recovered: bool

    constructor (id: nat, store: SQLiteStore, retry: RetryPolicy, batchSize: int)
      requires retry.Valid() && 1 <= batchSize <= T.MAX_DELIVERY_BATCH_SIZE
      ensures this.id == id && this.store == store && this.retry == retry && this.batchSize == batchSize
      ensures Config().Valid() && !recovered
    {
      this.id, this.store, this.retry, this.batchSize := id, store, retry, batchSize;
      recovered := false;
    }

    function Config(): DeliveryConfig
    {
      DeliveryConfig(retry.maxAttempts, batchSize,
                     n => if retry.Valid() && n >= 1 then DelayMicros(retry, n) else 0)
    }

    /** The world `w` describes the store and this dispatcher, which is in phase `phase`. */
    ghost predicate In(w: World, phase: Phase)
      reads this, store
    {
      && retry.Valid() && Config().Valid()
      && store.Valid() && store.Snapshot() == w.db
      && PhaseOf(w, id) == phase
    }

    /** The retry time of a failure; None when computing it raises OverflowError. */
    method RetryTime(failureNumber: nat, completedAt: Instant) returns (at: Option<Option<Instant>>)
      requires retry.Valid() && failureNumber >= 1
      ensures at == match Decide(Config(), failureNumber, completedAt)
                    case GiveUp => Some(None)
                    case RetryAt(t) => Some(Some(t))
                    case Unrepresentable => None
      ensures failureNumber >= retry.maxAttempts ==> at == Some(None)
      ensures failureNumber < retry.maxAttempts && at.Some? ==>
                at.value.Some? && RoundsTo(at.value.value - completedAt, DelayForFailure(retry, failureNumber))
      ensures at.None? ==> failureNumber < retry.maxAttempts
                           && completedAt as real + 1_000_000.0 * DelayForFailure(retry, failureNumber)
                              >= INSTANT_LIMIT as real - 0.5
    {
      hide DelayForFailure, DelayMicros;
      BackoffIsDelay(retry, failureNumber);
      at := Some(None);
      if failureNumber < retry.maxAttempts {
        var micros := DelayMicros(retry, failureNumber);
        at := if completedAt + micros < INSTANT_LIMIT then Some(Some(completedAt + micros)) else None;
      }
    }

    /** Records the answer of the sink; false when that raises. */
    method AcknowledgeClaim(claim: ClaimedEvent, outcome: SinkOutcome, now: Instant) returns (committed: bool)
      requires retry.Valid() && store.Valid()
      modifies store
      ensures store.Valid()
      ensures var tx := AcknowledgeTx(Config(), old(store.Snapshot()), claim, outcome, now);
              && (committed <==> tx.Some? && tx.value.Ok?)
              && store.Snapshot() == if committed then tx.value.value else old(store.Snapshot())
    {
      hide Consistent, T.RecordSuccess, T.RecordFailure, Decide;
      if outcome == ReturnedNone {
        var r := store.RecordDeliverySuccess(claim, now);
        return r.Ok?;
      }
      var retryAt := RetryTime(claim.attempts + 1, now);
      if retryAt.None? {
        return false;
      }
      var r := store.RecordDeliveryFailure(claim, ErrorText(outcome), retryAt.value, now);
      committed := r.Ok?;
    }

    /** Another actor promotes an observation, if it is VALID. */
    method Promotes(a: Action, ghost w: World)
      requires In(w, PhaseOf(w, id)) && a.PromoteObservation?
      modifies store
      ensures store.Valid() && store.Snapshot() == Next(Config(), w, a).db
    {
      hide store.Snapshot, Consistent, T.Promote, PromoteStep;
      PromotedTables(w, a);
      var observations := store.Snapshot().observations;
      if a.observationId in observations
         && observations[a.observationId].observation.status != ObservationStatus.Valid
      {
        return;
      }
      var r := store.PromoteValidObservation(a.watchId, a.observationId, a.policy, a.factory, a.now);
    }

    /** Another actor commits a transaction of its own. */
    method OtherActs(a: Action, ghost w: World) returns (ghost after: World)
      requires In(w, PhaseOf(w, id)) && !IsDelivery(a)
      modifies store
      ensures after == Next(Config(), w, a) && In(after, PhaseOf(w, id)) && after.calls == w.calls
    {
      hide store.Snapshot, Consistent;
      after := Next(Config(), w, a);
      StorageKeepsDeliveries(Config(), w, a, id);
      if a.MarkRunStarted? {
        store.MarkRunStarted(a.watchId);
      } else if a.PersistObservation? {
        var r := store.PersistObservation(a.watchId, a.observationId, a.observation, a.now);
      } else if a.PromoteObservation? {
        Promotes(a, w);
      } else if a.Purge? {
        var r := store.PurgeBefore(a.cutoff, a.watch);
      } else {
        var r := store.DeleteWatch(a.watchId, a.allowUndelivered);
      }
    }

    method OthersAct(actions: seq<Action>, ghost w: World) returns (ghost after: World)
      requires In(w, PhaseOf(w, id)) && StorageOnly(actions)
      modifies store
      ensures after == Run(Config(), w, actions) && In(after, PhaseOf(w, id)) && after.calls == w.calls
    {
      hide store.Snapshot, Consistent, Run, Next;
      after := w;
      var i := 0;
      assert actions[0..] == actions;
      while i < |actions|
        invariant 0 <= i <= |actions|
        invariant In(after, PhaseOf(w, id)) && after.calls == w.calls
        invariant Run(Config(), after, actions[i..]) == Run(Config(), w, actions)
      {
        assert actions[i..] == [actions[i]] + actions[i + 1..];
        RunCons(Config(), after, actions[i], actions[i + 1..]);
        after := OtherActs(actions[i], after);
        i := i + 1;
      }
      assert actions[i..] == [];
      RunOfNothing(Config(), after);
    }

    /** One pass of the loop. None when an exception leaves it. */
    method DeliverOne(claim: ClaimedEvent, i: nat, s: Surroundings, ghost w: World)
      returns (result: Option<DeliveryResult>, ghost after: World)
      requires PhaseOf(w, id).Sending? && PhaseOf(w, id).pending != [] && PhaseOf(w, id).pending[0] == claim
      requires In(w, PhaseOf(w, id)) && OnlyDispatcher(s)
      modifies store
      ensures after == Run(Config(), w, Round(id, s, i)) && In(after, PhaseOf(after, id))
      ensures result.Some? <==> GoesOn(after, id, s, i, PhaseOf(w, id).pending[1..])
      ensures result.Some? ==> |after.calls| == |w.calls| + 1 && after.calls[..|w.calls|] == w.calls
                               && Reports(result.value, after.calls[|w.calls|])
      ensures result.Some? ==> result.value.eventId == claim.event.eventId
                               && (result.value.delivered <==> s.sink(i) == ReturnedNone)
                               && (result.value.error == None <==> s.sink(i) == ReturnedNone)
                               && (s.sink(i).Raised? ==> result.value.error == Some(s.sink(i).text))
    {
      hide store.Snapshot, Consistent, AcknowledgeTx, Run;
      var outcome := s.sink(i);
      CalledRound(Config(), w, id, s, i);
      after := OthersAct(s.beforeCall(i), w);
      result, after := None, CallStep(after, id, outcome);
      if Unacknowledged(s, i) {
        return;
      }
      AcknowledgedRound(Config(), w, id, s, i);
      after := OthersAct(s.duringCall(i), after);
      after := AcknowledgeStep(Config(), after, id, s.clock(i).value);
      var committed := AcknowledgeClaim(claim, outcome, s.clock(i).value);
      if committed && !s.interruptedAfter(i) {
        var error := if outcome == ReturnedNone then None else Some(ErrorText(outcome));
        result := Some(DeliveryResult(claim.event.eventId, outcome == ReturnedNone, error));
      }
    }

    /** The loop. */
    method DeliverAll(claims: seq<ClaimedEvent>, s: Surroundings, ghost w: World)
      returns (r: Outcome, ghost after: World)
      requires In(w, Sending(claims)) && OnlyDispatcher(s)
      modifies store
      ensures r.Returned? ==> In(after, Idle(true))
                              && after == Run(Config(), w, Rounds(Config(), w, id, s, 0))
                              && |r.results| == |claims| && ReportsAll(r.results, after.calls, |w.calls|)
      ensures r.RaisedError? ==> In(after, PhaseOf(after, id))
                                 && Next(Config(), after, Interrupt(id))
                                    == Run(Config(), w, Rounds(Config(), w, id, s, 0))
    {
      hide store.Snapshot, Consistent, Reports, Round, Run;
      var results: seq<DeliveryResult> := [];
      var i := 0;
      after := w;
      assert claims[0..] == claims;
      while i < |claims|
        invariant 0 <= i <= |claims|
        invariant In(after, Sending(claims[i..]))
        invariant PhaseOf(after, id) == Sending(claims[i..])
        invariant Run(Config(), after, Rounds(Config(), after, id, s, i))
               == Run(Config(), w, Rounds(Config(), w, id, s, 0))
        invariant |results| == i && ReportsAll(results, after.calls, |w.calls|)
      {
        RoundStep(Config(), after, id, s, i);
        ghost var before := after;
        var result;
        result, after := DeliverOne(claims[i], i, s, before);
        if result.None? {
          return RaisedError, after;
        }
        ReportAdded(results, result.value, before.calls, after.calls, |w.calls|);
        results := results + [result.value];
        i := i + 1;
      }
      RunOne(Config(), after, Finish(id));
      after := Next(Config(), after, Finish(id));
      r := Returned(results);
    }

    /** recover_in_flight, unless this dispatcher has recovered since it last failed. */
    method RecoverOnce(now: Instant, s: Surroundings, ghost w: World) returns (ok: bool, ghost after: World)
      requires In(w, Idle(recovered)) && s.claimTime == Some(now)
      modifies this, store
      ensures ok ==> In(after, Claiming(now)) && recovered
                     && Run(Config(), w, Plan(Config(), w, id, s))
                        == Run(Config(), after, ClaimAndDeliver(Config(), after, id, s))
      ensures ok ==> after.calls == w.calls
      ensures !ok ==> In(after, PhaseOf(after, id))
                      && Run(Config(), w, Plan(Config(), w, id, s))
                         == Next(Config(), after, Interrupt(id))
    {
      hide store.Snapshot, Consistent, ClaimAndDeliver, Run;
      BeginSteps(Config(), w, id, s, now);
      after := Next(Config(), w, Begin(id, now));
      if !recovered {
        if s.recoverFails {
          return false, after;
        }
        after := Next(Config(), after, Recover(id));
        var count := store.RecoverInFlight(now);
        recovered := true;
      }
      ok := true;
    }

    /** The body of the try statement. */
    method Attempt(now: Instant, s: Surroundings, ghost w: World) returns (r: Outcome, ghost after: World)
      requires In(w, Idle(recovered)) && s.claimTime == Some(now) && OnlyDispatcher(s)
      modifies this, store
      ensures r.Returned? ==> In(after, Idle(true)) && recovered
                              && after == Run(Config(), w, Plan(Config(), w, id, s))
                              && ReportsAll(r.results, after.calls, |w.calls|)
      ensures r.RaisedError? ==> In(after, PhaseOf(after, id))
                                 && Next(Config(), after, Interrupt(id)) == Run(Config(), w, Plan(Config(), w, id, s))
    {
      hide store.Snapshot, Consistent, Plan, Rounds, Run, ReportsAll;
      var ok;
      ok, after := RecoverOnce(now, s, w);
      if !ok {
        return RaisedError, after;
      }
      ClaimSteps(Config(), after, id, s);
      after := OthersAct(s.beforeClaim, after);
      if s.claimFails {
        return RaisedError, after;
      }
      ghost var ready := after;
      after := Next(Config(), ready, Claim(id));
      var claims := store.ClaimDue(now, batchSize);
      if s.decodeFails || claims.Err? {
        return RaisedError, after;
      }
      r, after := DeliverAll(claims.value, s, after);
    }

    /**
     The call takes the steps of its plan. It returns one result for each sink call it made, in order;
     and the dispatcher counts as recovered afterwards exactly when it returned, or when the first clock
     reading raised and it was recovered before.
     */
    method DispatchReady(s: Surroundings, ghost w: World) returns (r: Outcome, ghost after: World)
      requires In(w, Idle(recovered)) && OnlyDispatcher(s)
      modifies this, store
      ensures after == Run(Config(), w, Plan(Config(), w, id, s)) && In(after, Idle(recovered))
      ensures recovered <==> r.Returned? || (s.claimTime.None? && old(recovered))
      ensures r.Returned? ==> ReportsAll(r.results, after.calls, |w.calls|)
    {
      hide store.Snapshot, Consistent, Run, ReportsAll, Plan, Next;
      if s.claimTime.None? {
        NoSteps(Config(), w, id, s);
        return RaisedError, w;
      }
      r, after := Attempt(s.claimTime.value, s, w);
      if r.RaisedError? {
        recovered := false;
        Interrupted(Config(), after, id);
        after := Next(Config(), after, Interrupt(id));
      }
    }
  }

  lemma StorageKeepsDeliveries(config: DeliveryConfig, w: World, a: Action, d: nat)
    requires !IsDelivery(a)
    ensures var after := Next(config, w, a);
            after.phases == w.phases && after.calls == w.calls && PhaseOf(after, d) == PhaseOf(w, d)
  {
    hide T.Promote, T.PurgeBefore, T.DeleteWatch, T.Persist, T.EnsureWatch;
  }

  lemma {:induction false} OthersKeepDeliveries(config: DeliveryConfig, w: World, actions: seq<Action>, d: nat)
    requires StorageOnly(actions)
    ensures var after := Run(config, w, actions);
            after.phases == w.phases && after.calls == w.calls && PhaseOf(after, d) == PhaseOf(w, d)
    decreases actions
  {
    hide Next;
    if actions != [] {
      StorageKeepsDeliveries(config, w, actions[0], d);
      OthersKeepDeliveries(config, Next(config, w, actions[0]), actions[1..], d);
    }
  }

  /** The sink call, after what other actors commit before it. */
  lemma {:induction false} CalledRound(config: DeliveryConfig, w: World, d: nat, s: Surroundings, i: nat)
    requires PhaseOf(w, d).Sending? && PhaseOf(w, d).pending != [] && OnlyDispatcher(s)
    ensures var before := Run(config, w, s.beforeCall(i));
            var after := CallStep(before, d, s.sink(i));
            && Run(config, w, Called(d, s, i)) == after
            && after.db == before.db
            && PhaseOf(after, d) == (if s.sink(i).Broke? then Idle(false)
                                     else Answered(PhaseOf(w, d).pending, |w.calls|))
            && after.calls == w.calls + [CallOf(PhaseOf(w, d).pending[0], s.sink(i))]
  {
    hide Run;
    var before := Run(config, w, s.beforeCall(i));
    OthersKeepDeliveries(config, w, s.beforeCall(i), d);
    RunAppend(config, w, s.beforeCall(i), [CallSink(d, s.sink(i))]);
    RunOne(config, before, CallSink(d, s.sink(i)));
  }

  lemma {:induction false} NoSteps(config: DeliveryConfig, w: World, d: nat, s: Surroundings)
    requires s.claimTime.None?
    ensures Run(config, w, Plan(config, w, d, s)) == w
  {
  }

  lemma Interrupted(config: DeliveryConfig, w: World, d: nat)
    ensures var after := Next(config, w, Interrupt(d));
            after.db == w.db && PhaseOf(after, d) == Idle(false)
  {
  }

  lemma {:induction false} BeginSteps(config: DeliveryConfig, w: World, d: nat, s: Surroundings, now: Instant)
    requires PhaseOf(w, d).Idle? && s.claimTime == Some(now)
    ensures var begun := Next(config, w, Begin(d, now));
            && begun == Enter(w, d, if PhaseOf(w, d).recovered then Claiming(now) else Recovering(now))
            && Run(config, w, Plan(config, w, d, s))
               == if PhaseOf(w, d).recovered then Run(config, begun, ClaimAndDeliver(config, begun, d, s))
                  else if s.recoverFails then Next(config, begun, Interrupt(d))
                  else var ready := Next(config, begun, Recover(d));
                       Run(config, ready, ClaimAndDeliver(config, ready, d, s))
  {
    hide ClaimAndDeliver;
    var begun := Next(config, w, Begin(d, now));
    RunCons(config, w, Begin(d, now), RecoverFirst(config, begun, d, s));
    RunOne(config, begun, Interrupt(d));
    var ready := Next(config, begun, Recover(d));
    RunCons(config, begun, Recover(d), ClaimAndDeliver(config, ready, d, s));
  }

  lemma {:induction false} ClaimSteps(config: DeliveryConfig, w: World, d: nat, s: Surroundings)
    ensures var ready := Run(config, w, s.beforeClaim);
            var claimed := Next(config, ready, Claim(d));
            Run(config, w, ClaimAndDeliver(config, w, d, s))
            == if s.claimFails then Next(config, ready, Interrupt(d))
               else if s.decodeFails then Next(config, claimed, Interrupt(d))
               else Run(config, claimed, Rounds(config, claimed, d, s, 0))
  {
    hide Next, Rounds, Run;
    var ready := Run(config, w, s.beforeClaim);
    RunAppend(config, w, s.beforeClaim, ClaimNow(config, ready, d, s));
    var claimed := Next(config, ready, Claim(d));
    RunOne(config, ready, Interrupt(d));
    if s.decodeFails {
      RunCons(config, ready, Claim(d), [Interrupt(d)]);
      RunOne(config, claimed, Interrupt(d));
    } else {
      RunCons(config, ready, Claim(d), Rounds(config, claimed, d, s, 0));
    }
  }

  lemma ReportAdded(
    results: seq<DeliveryResult>, result: DeliveryResult, calls: seq<SinkCall>, after: seq<SinkCall>, first: nat)
    requires ReportsAll(results, calls, first)
    requires |after| == |calls| + 1 && after[..|calls|] == calls && Reports(result, after[|calls|])
    ensures ReportsAll(results + [result], after, first)
  {
    forall i | 0 <= i < |results|
      ensures Reports(results[i], after[first + i])
    {
      assert after[first + i] == after[..|calls|][first + i];
    }
  }

  /** One pass of the loop as steps of the machine. */
  lemma RoundStep(config: DeliveryConfig, w: World, d: nat, s: Surroundings, i: nat)
    requires PhaseOf(w, d).Sending? && PhaseOf(w, d).pending != []
    ensures var next := Run(config, w, Round(d, s, i));
            Run(config, w, Rounds(config, w, d, s, i))
            == if GoesOn(next, d, s, i, PhaseOf(w, d).pending[1..])
               then Run(config, next, Rounds(config, next, d, s, i + 1))
               else Next(config, next, Interrupt(d))
  {
    hide Next, Round;
    var next := Run(config, w, Round(d, s, i));
    if GoesOn(next, d, s, i, PhaseOf(w, d).pending[1..]) {
      RunAppend(config, w, Round(d, s, i), Rounds(config, next, d, s, i + 1));
    } else {
      RunAppend(config, w, Round(d, s, i), [Interrupt(d)]);
      RunOne(config, next, Interrupt(d));
    }
  }

  /** The call and its acknowledgement, in terms of the acknowledgement's transaction. */
  lemma {:induction false} AcknowledgedRound(config: DeliveryConfig, w: World, d: nat, s: Surroundings, i: nat)
    requires PhaseOf(w, d).Sending? && PhaseOf(w, d).pending != [] && OnlyDispatcher(s)
    requires !Unacknowledged(s, i)
    ensures var pending, outcome := PhaseOf(w, d).pending, s.sink(i);
            var answered := Run(config, Run(config, w, Called(d, s, i)), s.duringCall(i));
            var after := AcknowledgeStep(config, answered, d, s.clock(i).value);
            var tx := AcknowledgeTx(config, answered.db, pending[0], outcome, s.clock(i).value);
            && Run(config, w, Round(d, s, i)) == after
            && after.calls == w.calls + [CallOf(pending[0], outcome)]
            && (if tx.Some? && tx.value.Ok?
                then after.db == tx.value.value && PhaseOf(after, d) == Sending(pending[1..])
                else after.db == answered.db && PhaseOf(after, d) == Idle(false))
  {
    hide AcknowledgeTx, Run, Called;
    var called := Run(config, w, Called(d, s, i));
    CalledRound(config, w, d, s, i);
    var last := Acknowledgement(d, s.clock(i).value);
    var answered := Run(config, called, s.duringCall(i));
    OthersKeepDeliveries(config, called, s.duringCall(i), d);
    RunAppend(config, w, Called(d, s, i), s.duringCall(i) + [last]);
    RunAppend(config, called, s.duringCall(i), [last]);
    RunOne(config, answered, last);
  }
}
