/**
 Draining the outbox: what calls of dispatch_ready do while nothing interrupts them and no new events
 arrive. Each call uses up one attempt per claimed row, so with a clock that passes every retry time
 the outbox is all DELIVERED or DEAD after a number of calls known beforehand.
 */
module Drain {
  import opened Entities
  import opened Tables
  import opened Consistency
  import opened Protocol
  import opened Safety
  import opened Accounting
  import opened Recovery
  import opened Progress
  import opened Dispatcher
  import opened Steady

  /** What other actors commit during the call makes no events and deletes none that wait. */
  ghost predicate NoNewEvents(s: Surroundings) {
    && AllHarmless(s.beforeClaim)
    && (forall i :: AllHarmless(s.beforeCall(i)) && AllHarmless(s.duringCall(i)))
  }

  /** Nothing raises but the sink, and the retry time of every failure is representable. */
  ghost predicate Uninterrupted(config: DeliveryConfig, s: Surroundings) {
    && s.claimTime.Some? && !s.recoverFails && !s.claimFails && !s.decodeFails
    && (forall i :: !s.sink(i).Broke? && !s.acknowledgeFails(i) && !s.interruptedAfter(i))
    && (forall i :: s.clock(i).Some?)
    && NoNewEvents(s)
    && (forall i, n: nat :: s.sink(i) != ReturnedNone && 1 <= n < config.maxAttempts ==>
          s.clock(i).value + config.delay(n) < INSTANT_LIMIT)
  }

  /** One call of dispatch_ready. */
  function Call(config: DeliveryConfig, w: World, d: nat, s: Surroundings): World {
    Run(config, w, Plan(config, w, d, s))
  }

  // ---------------------------------------------------------------- every call

  lemma {:induction false} RoundsAreSolo(config: DeliveryConfig, w: World, d: nat, s: Surroundings, i: nat)
    requires OnlyDispatcher(s)
    ensures Solo(Rounds(config, w, d, s, i), d)
    decreases if PhaseOf(w, d).Sending? then |PhaseOf(w, d).pending| else 0
  {
    hide Next;
    if PhaseOf(w, d).Sending? && PhaseOf(w, d).pending != [] {
      var next := Run(config, w, Round(d, s, i));
      if GoesOn(next, d, s, i, PhaseOf(w, d).pending[1..]) {
        RoundsAreSolo(config, next, d, s, i + 1);
      }
    }
  }

  lemma PlanIsSolo(config: DeliveryConfig, w: World, d: nat, s: Surroundings)
    requires OnlyDispatcher(s)
    ensures Solo(Plan(config, w, d, s), d)
  {
    hide Next, ClaimAndDeliver;
    if s.claimTime.Some? {
      var begun := Next(config, w, Begin(d, s.claimTime.value));
      ClaimIsSolo(config, begun, d, s);
      ClaimIsSolo(config, Next(config, begun, Recover(d)), d, s);
    }
  }

  lemma ClaimIsSolo(config: DeliveryConfig, w: World, d: nat, s: Surroundings)
    requires OnlyDispatcher(s)
    ensures Solo(ClaimAndDeliver(config, w, d, s), d)
  {
    hide Next, Rounds, Run;
    RoundsAreSolo(config, Next(config, Run(config, w, s.beforeClaim), Claim(d)), d, s, 0);
  }

  /** Any call, interrupted or not, keeps what holds of a reachable engine with one dispatcher. */
  lemma CallKeepsGood(config: DeliveryConfig, w: World, d: nat, s: Surroundings)
    requires Good(config, w, d) && OnlyDispatcher(s)
    ensures Good(config, Call(config, w, d, s), d)
  {
    PlanIsSolo(config, w, d, s);
    RunGood(config, w, Plan(config, w, d, s), d);
  }

  // ---------------------------------------------------------------- one uninterrupted call

  lemma StepDrains(config: DeliveryConfig, w: World, a: Action, d: nat)
    requires Good(config, w, d) && IsDelivery(a) && a.dispatcher == d
    ensures var after := Next(config, w, a);
            && Good(config, after, d)
            && after.db.outboxSequence == w.db.outboxSequence
            && |ClaimedIdsOf(config, w, a)| + TotalOf(config, after, d)
               <= TotalOf(config, w, d) + |LostBy(config, w, a)|
  {
    hide Next, Consistent, Accounted, SoloOrderly;
    NextGood(config, w, a, d);
    NextWithinBudget(config, w, a, d);
    OnlyPromotionsNumber(config, w, a);
    assert config.maxAttempts * 0 == 0;
  }

  lemma CalledSteps(config: DeliveryConfig, w: World, d: nat, outcome: SinkOutcome)
    requires PhaseOf(w, d).Sending? && PhaseOf(w, d).pending != [] && !outcome.Broke?
    ensures var called := Next(config, w, CallSink(d, outcome));
            && called.db == w.db && called.calls == w.calls + [CallOf(PhaseOf(w, d).pending[0], outcome)]
            && PhaseOf(called, d) == Answered(PhaseOf(w, d).pending, |w.calls|)
            && LostBy(config, w, CallSink(d, outcome)) == []
  {
  }

  lemma AnsweredSteps(config: DeliveryConfig, w: World, d: nat, now: Instant)
    requires Good(config, w, d) && HandHoused(w, d)
    requires PhaseOf(w, d).Answered? && PhaseOf(w, d).call < |w.calls| && PhaseOf(w, d).pending != []
    requires w.calls[PhaseOf(w, d).call].outcome != ReturnedNone ==>
               forall n: nat :: 1 <= n < config.maxAttempts ==> now + config.delay(n) < INSTANT_LIMIT
    ensures var after := Next(config, w, Acknowledgement(d, now));
            PhaseOf(after, d) == Sending(PhaseOf(w, d).pending[1..]) && after.calls == w.calls
  {
    hide Consistent, Accounted, SoloOrderly, AcknowledgeTx;
    var pending := PhaseOf(w, d).pending;
    assert pending[0] in pending;
    AcknowledgementCommits(config, w, d, now);
    AcknowledgeKeepsCalls(config, w, d, now);
    hide AcknowledgeStep;
  }

  lemma AcknowledgeKeepsCalls(config: DeliveryConfig, w: World, d: nat, now: Instant)
    ensures AcknowledgeStep(config, w, d, now).calls == w.calls
  {
    hide AcknowledgeTx;
  }

  lemma NothingGivenUp(config: DeliveryConfig, w: World, a: Action)
    requires IsDelivery(a) && PhaseOf(Next(config, w, a), a.dispatcher) != Idle(false)
    ensures LostBy(config, w, a) == []
  {
  }

  /** A sink call and its answer, with what other actors commit before each. */
  lemma {:induction false} CallSteps(config: DeliveryConfig, w: World, d: nat, s: Surroundings, i: nat)
    requires Good(config, w, d) && HandHoused(w, d) && Uninterrupted(config, s)
    requires PhaseOf(w, d).Sending? && PhaseOf(w, d).pending != []
    ensures var answered := Run(config, Run(config, w, Called(d, s, i)), s.duringCall(i));
            && Good(config, answered, d) && HandHoused(answered, d)
            && PhaseOf(answered, d) == Answered(PhaseOf(w, d).pending, |w.calls|)
            && |answered.calls| == |w.calls| + 1 && answered.calls[|w.calls|].outcome == s.sink(i)
            && answered.db.outboxSequence == w.db.outboxSequence
            && TotalOf(config, answered, d) <= TotalOf(config, w, d)
  {
    hide Good, HandHoused, TotalOf, Run, Thinner, AllHarmless, LostBy;
    QuietStore(config, s);
    var call := CallSink(d, s.sink(i));
    var before := Run(config, w, s.beforeCall(i));
    HarmlessRun(config, w, s.beforeCall(i), d);
    RunAppend(config, w, s.beforeCall(i), [call]);
    RunOne(config, before, call);
    hide Next;
    var called := Next(config, before, call);
    CalledSteps(config, before, d, s.sink(i));
    StepDrains(config, before, call, d);
    KeepsHand(config, before, call, d);
    HarmlessRun(config, called, s.duringCall(i), d);
  }

  lemma KeepsHand(config: DeliveryConfig, w: World, a: Action, d: nat)
    requires Good(config, w, d) && HandHoused(w, d) && IsDelivery(a) && a.dispatcher == d
    ensures HandHoused(Next(config, w, a), d)
  {
    assert config.Valid();
    hide Good, HandHoused, Next;
    DeliveryKeepsHand(config, w, a);
  }

  /** One pass of the loop. */
  lemma {:induction false} RoundDrains(config: DeliveryConfig, w: World, d: nat, s: Surroundings, i: nat)
    requires Good(config, w, d) && HandHoused(w, d) && Uninterrupted(config, s)
    requires PhaseOf(w, d).Sending? && PhaseOf(w, d).pending != []
    ensures var after := Run(config, w, Round(d, s, i));
            && Good(config, after, d) && HandHoused(after, d)
            && GoesOn(after, d, s, i, PhaseOf(w, d).pending[1..])
            && after.db.outboxSequence == w.db.outboxSequence
            && |after.calls| == |w.calls| + 1
            && TotalOf(config, after, d) <= TotalOf(config, w, d)
  {
    hide Good, HandHoused, TotalOf, Run, LostBy, ClaimedIdsOf, Next, Called;
    CallSteps(config, w, d, s, i);
    var ack := Acknowledgement(d, s.clock(i).value);
    var called := Run(config, w, Called(d, s, i));
    var answered := Run(config, called, s.duringCall(i));
    AnsweredSteps(config, answered, d, s.clock(i).value);
    NothingGivenUp(config, answered, ack);
    StepDrains(config, answered, ack, d);
    KeepsHand(config, answered, ack, d);
    RunAppend(config, w, Called(d, s, i), s.duringCall(i) + [ack]);
    RunAppend(config, called, s.duringCall(i), [ack]);
    RunOne(config, answered, ack);
  }

  lemma {:induction false} RoundsDrain(config: DeliveryConfig, w: World, d: nat, s: Surroundings, i: nat)
    requires Good(config, w, d) && HandHoused(w, d) && Uninterrupted(config, s) && PhaseOf(w, d).Sending?
    ensures var after := Run(config, w, Rounds(config, w, d, s, i));
            && PhaseOf(after, d) == Idle(true)
            && after.db.outboxSequence == w.db.outboxSequence
            && |after.calls| == |w.calls| + |PhaseOf(w, d).pending|
            && TotalOf(config, after, d) <= TotalOf(config, w, d)
    decreases |PhaseOf(w, d).pending|
  {
    hide Good, HandHoused, LostBy, ClaimedIdsOf, TotalOf, Uninterrupted, Round;
    if PhaseOf(w, d).pending == [] {
      FinishDrains(config, w, d);
      RunOne(config, w, Finish(d));
    } else {
      hide Next;
      RoundDrains(config, w, d, s, i);
      RoundStep(config, w, d, s, i);
      RoundsDrain(config, Run(config, w, Round(d, s, i)), d, s, i + 1);
    }
  }

  lemma FinishDrains(config: DeliveryConfig, w: World, d: nat)
    requires Good(config, w, d) && PhaseOf(w, d) == Sending([])
    ensures var after := Next(config, w, Finish(d));
            && PhaseOf(after, d) == Idle(true) && after.db == w.db && after.calls == w.calls
            && TotalOf(config, after, d) <= TotalOf(config, w, d)
  {
    StepDrains(config, w, Finish(d), d);
  }

  /** Claiming and delivering, from a dispatcher that has recovered. */
  lemma {:induction false} ClaimDrains(config: DeliveryConfig, w: World, d: nat, s: Surroundings)
    requires Good(config, w, d) && Uninterrupted(config, s) && PhaseOf(w, d).Claiming?
    ensures var ready := Run(config, w, s.beforeClaim);
            var after := Run(config, w, ClaimAndDeliver(config, w, d, s));
            && Unaffected(config, w, ready, d)
            && PhaseOf(after, d) == Idle(true)
            && after.db.outboxSequence == w.db.outboxSequence
            && |after.calls| == |w.calls| + |DueFrom(ready.db, PhaseOf(w, d).claimTime, 1, config.batchSize)|
            && TotalOf(config, after, d) + (|after.calls| - |w.calls|) <= TotalOf(config, w, d)
  {
    assert HandHoused(w, d);
    hide Next, Good, HandHoused, LostBy, ClaimedIdsOf, TotalOf, Uninterrupted, DueFrom, Run, Thinner;
    QuietStore(config, s);
    HarmlessRun(config, w, s.beforeClaim, d);
    var ready := Run(config, w, s.beforeClaim);
    Claimed(config, ready, d);
    StepDrains(config, ready, Claim(d), d);
    KeepsHand(config, ready, Claim(d), d);
    RoundsDrain(config, Next(config, ready, Claim(d)), d, s, 0);
    ClaimSteps(config, w, d, s);
  }

  lemma QuietStore(config: DeliveryConfig, s: Surroundings)
    requires Uninterrupted(config, s)
    ensures s.claimTime.Some? && !s.recoverFails && !s.claimFails && !s.decodeFails
    ensures NoNewEvents(s) && OnlyDispatcher(s)
  {
  }

  lemma Claimed(config: DeliveryConfig, w: World, d: nat)
    requires Good(config, w, d) && PhaseOf(w, d).Claiming?
    ensures var after := Next(config, w, Claim(d));
            var ids := DueFrom(w.db, PhaseOf(w, d).claimTime, 1, config.batchSize);
            && PhaseOf(after, d).Sending? && |PhaseOf(after, d).pending| == |ids|
            && after.calls == w.calls
            && ClaimedIdsOf(config, w, Claim(d)) == ids && LostBy(config, w, Claim(d)) == []
  {
    hide Accounted, Consistent, SoloOrderly, DueFrom;
    assert Next(config, w, Claim(d)) == ClaimStep(config, w, d);
  }

  // ---------------------------------------------------------------- a ready clock

  /** No waiting row has a retry time beyond `now`. */
  ghost predicate PastEveryRetry(outbox: Outbox, now: Instant) {
    forall id :: id in outbox && outbox[id].nextAttemptAt.Some? ==> outbox[id].nextAttemptAt.value <= now
  }

  ghost predicate AllTerminal(outbox: Outbox) {
    forall id :: id in outbox ==> Terminal(outbox[id].status)
  }

  /** The state in which a call turns to claiming, up to which it has spent nothing. */
  lemma ReadyToClaim(config: DeliveryConfig, w: World, d: nat, s: Surroundings) returns (ready: World)
    requires Good(config, w, d) && Uninterrupted(config, s) && PhaseOf(w, d).Idle?
    ensures Good(config, ready, d) && PhaseOf(ready, d) == Claiming(s.claimTime.value)
    ensures Call(config, w, d, s) == Run(config, ready, ClaimAndDeliver(config, ready, d, s))
    ensures ready.db.outboxSequence == w.db.outboxSequence && ready.calls == w.calls
    ensures TotalOf(config, ready, d) <= TotalOf(config, w, d)
    ensures ready.db.outbox == w.db.outbox || ready.db.outbox == RecoverInFlight(w.db, s.claimTime.value).outbox
  {
    hide Good, TotalOf, LostBy, ClaimedIdsOf, Plan, Run, ClaimAndDeliver;
    var now := s.claimTime.value;
    QuietStore(config, s);
    BeginSteps(config, w, d, s, now);
    var begun := Next(config, w, Begin(d, now));
    StepDrains(config, w, Begin(d, now), d);
    NothingLost(config, w, Begin(d, now));
    ready := begun;
    if !PhaseOf(w, d).recovered {
      ready := Next(config, begun, Recover(d));
      StepDrains(config, begun, Recover(d), d);
      NothingLost(config, begun, Recover(d));
      assert ready.db.outbox == RecoverInFlight(w.db, now).outbox;
    }
  }

  lemma RecoveredReady(db: Database, now: Instant)
    requires PastEveryRetry(db.outbox, now)
    ensures var after := RecoverInFlight(db, now).outbox;
            PastEveryRetry(after, now) && (AllTerminal(after) ==> AllTerminal(db.outbox))
  {
    var after := RecoverInFlight(db, now).outbox;
    forall id | id in db.outbox
      ensures id in after && (Terminal(after[id].status) <==> Terminal(db.outbox[id].status))
    {
    }
  }

  lemma NothingLost(config: DeliveryConfig, w: World, a: Action)
    requires IsDelivery(a) && !PhaseOf(w, a.dispatcher).Sending? && !PhaseOf(w, a.dispatcher).Answered?
    ensures LostBy(config, w, a) == []
  {
  }

  /** A waiting row is due once the clock has passed every retry time. */
  lemma SomethingIsDue(config: DeliveryConfig, w: World, d: nat, id: nat)
    requires Good(config, w, d) && PhaseOf(w, d).Claiming?
    requires PastEveryRetry(w.db.outbox, PhaseOf(w, d).claimTime)
    requires id in w.db.outbox && !Terminal(w.db.outbox[id].status)
    ensures DueFrom(w.db, PhaseOf(w, d).claimTime, 1, config.batchSize) != []
  {
    hide Accounted, LogsExact;
    var now := PhaseOf(w, d).claimTime;
    assert RowShaped(w.db.outbox[id]);
    assert id !in DeliveringIds(w.db.outbox);
    assert Due(w.db, id, now);
    if id !in DueFrom(w.db, now, 1, config.batchSize) {
      FullBatchBefore(w.db, now, 1, config.batchSize, id);
    }
  }

  lemma {:induction false} PositiveHasRow(outbox: Outbox, maxAttempts: int, n: nat) returns (id: nat)
    requires Potential(outbox, {}, maxAttempts, n) > 0
    ensures id in outbox && !Terminal(outbox[id].status)
  {
    if AttemptsLeft(outbox, {}, maxAttempts, n) != 0 {
      id := n;
    } else {
      id := PositiveHasRow(outbox, maxAttempts, n - 1);
    }
  }

  lemma {:induction false} PotentialCountsRows(outbox: Outbox, maxAttempts: int, n: nat, id: nat)
    requires Budgeted(outbox, maxAttempts) && 1 <= id <= n
    requires id in outbox && !Terminal(outbox[id].status)
    ensures Potential(outbox, {}, maxAttempts, n) > 0
  {
    assert WithinBudget(outbox[id], maxAttempts);
    PotentialNonNegative(outbox, {}, maxAttempts, n - 1);
    if id < n {
      PotentialCountsRows(outbox, maxAttempts, n - 1, id);
      if n in outbox {
        assert WithinBudget(outbox[n], maxAttempts);
      }
    }
  }

  /** With an idle dispatcher, no attempts are left exactly when every row is terminal. */
  lemma NothingLeftIffTerminal(config: DeliveryConfig, w: World, d: nat)
    requires Good(config, w, d) && PhaseOf(w, d).Idle?
    ensures TotalOf(config, w, d) >= 0
    ensures TotalOf(config, w, d) == 0 <==> AllTerminal(w.db.outbox)
  {
    assert OutboxNumbered(w.db.outbox, w.db.outboxSequence);
    LiveRowsBudgeted(config, w);
    hide Good, Consistent, Accounted, SoloOrderly;
    PotentialNonNegative(w.db.outbox, {}, config.maxAttempts, w.db.outboxSequence);
    if TotalOf(config, w, d) > 0 {
      var id := PositiveHasRow(w.db.outbox, config.maxAttempts, w.db.outboxSequence);
    }
    forall id | id in w.db.outbox && !Terminal(w.db.outbox[id].status)
      ensures TotalOf(config, w, d) > 0
    {
      PotentialCountsRows(w.db.outbox, config.maxAttempts, w.db.outboxSequence, id);
    }
  }

  lemma ThinnerReady(outbox: Outbox, after: Outbox, now: Instant)
    requires Thinner(outbox, after)
    ensures PastEveryRetry(outbox, now) ==> PastEveryRetry(after, now)
    ensures AllTerminal(after) ==> AllTerminal(outbox)
  {
  }

  /**
   An uninterrupted call that makes k sink calls lowers the attempts left by at least k; and it makes one
   if any row is not terminal and its clock has passed every retry time.
   */
  lemma CallDrains(config: DeliveryConfig, w: World, d: nat, s: Surroundings)
    requires Good(config, w, d) && PhaseOf(w, d).Idle? && Uninterrupted(config, s)
    ensures var after := Call(config, w, d, s);
            && Good(config, after, d) && PhaseOf(after, d) == Idle(true)
            && after.db.outboxSequence == w.db.outboxSequence
            && |w.calls| <= |after.calls|
            && TotalOf(config, after, d) + (|after.calls| - |w.calls|) <= TotalOf(config, w, d)
            && (PastEveryRetry(w.db.outbox, s.claimTime.value) && !AllTerminal(w.db.outbox) ==>
                  |w.calls| < |after.calls|)
  {
    hide Uninterrupted, DueFrom, Good, TotalOf, Consistent, PastEveryRetry, AllTerminal, ClaimAndDeliver;
    hide Thinner, HandHoused;
    QuietStore(config, s);
    CallKeepsGood(config, w, d, s);
    var now := s.claimTime.value;
    var recovered := ReadyToClaim(config, w, d, s);
    ClaimDrains(config, recovered, d, s);
    if PastEveryRetry(w.db.outbox, now) && !AllTerminal(w.db.outbox) {
      var ready := Run(config, recovered, s.beforeClaim);
      RecoveredReady(w.db, now);
      ThinnerReady(recovered.db.outbox, ready.db.outbox, now);
      var id := WaitingRow(ready.db.outbox);
      SomethingIsDue(config, ready, d, id);
    }
  }

  lemma WaitingRow(outbox: Outbox) returns (id: nat)
    requires !AllTerminal(outbox)
    ensures id in outbox && !Terminal(outbox[id].status)
  {
    id :| id in outbox && !Terminal(outbox[id].status);
  }

  // ---------------------------------------------------------------- repeated calls

  /** Successive calls, none interrupted and each with a clock past the retry times it meets. */
  ghost predicate Quiet(config: DeliveryConfig, w: World, d: nat, calls: seq<Surroundings>)
    decreases calls
  {
    calls != [] ==>
      && Uninterrupted(config, calls[0])
      && PastEveryRetry(w.db.outbox, calls[0].claimTime.value)
      && Quiet(config, Call(config, w, d, calls[0]), d, calls[1..])
  }

  function Repeat(config: DeliveryConfig, w: World, d: nat, calls: seq<Surroundings>): World
    decreases calls
  {
    if calls == [] then w else Repeat(config, Call(config, w, d, calls[0]), d, calls[1..])
  }

  /** As many calls as attempts are left bring every event to DELIVERED or DEAD. */
  lemma {:induction false} DrainTerminates(config: DeliveryConfig, w: World, d: nat, calls: seq<Surroundings>)
    requires Good(config, w, d) && PhaseOf(w, d).Idle? && Quiet(config, w, d, calls)
    requires |calls| >= TotalOf(config, w, d)
    ensures AllTerminal(Repeat(config, w, d, calls).db.outbox)
    decreases calls
  {
    hide Good, TotalOf, Call, Uninterrupted, PastEveryRetry;
    NothingLeftIffTerminal(config, w, d);
    if calls != [] {
      CallDrains(config, w, d, calls[0]);
      var after := Call(config, w, d, calls[0]);
      NothingLeftIffTerminal(config, after, d);
      DrainTerminates(config, after, d, calls[1..]);
    }
  }

  // ---------------------------------------------------------------- a sink that works

  /** Steps of a dispatcher whose clock has not passed `now` and whose sink returns None, or harmless ones. */
  predicate Smooth(a: Action, d: nat, now: Instant) {
    || Harmless(a)
    || (&& IsDelivery(a) && a.dispatcher == d
        && (a.Begin? ==> a.now <= now)
        && (a.CallSink? ==> a.outcome == ReturnedNone))
  }

  /** Every retry time is past, and the call in progress, if any, succeeded. */
  ghost predicate Working(w: World, d: nat, now: Instant) {
    && PastEveryRetry(w.db.outbox, now)
    && (PhaseOf(w, d).Recovering? ==> PhaseOf(w, d).claimTime <= now)
    && (PhaseOf(w, d).Answered? && PhaseOf(w, d).call < |w.calls| ==>
          w.calls[PhaseOf(w, d).call].outcome == ReturnedNone)
  }

  lemma AcknowledgedWorks(config: DeliveryConfig, w: World, d: nat, at: Instant, now: Instant)
    requires Working(w, d, now)
    ensures Working(AcknowledgeStep(config, w, d, at), d, now)
  {
  }

  lemma SmoothStepWorks(config: DeliveryConfig, w: World, a: Action, d: nat, now: Instant)
    requires Working(w, d, now) && Smooth(a, d, now)
    ensures Working(Next(config, w, a), d, now)
  {
    hide AcknowledgeStep, RecoverStep, ClaimStep;
    if a.Acknowledgement? {
      AcknowledgedWorks(config, w, d, a.now, now);
    } else if a.Recover? {
      RecoveredWorks(w, d, now);
    } else if a.Claim? {
      ClaimedWorks(config, w, d, now);
    } else if Harmless(a) {
      HarmlessWorks(config, w, a, d, now);
    }
  }

  lemma HarmlessWorks(config: DeliveryConfig, w: World, a: Action, d: nat, now: Instant)
    requires Working(w, d, now) && Harmless(a)
    ensures Working(Next(config, w, a), d, now)
  {
    hide Next;
    HarmlessAddsNothing(config, w, a);
    StorageKeepsDeliveries(config, w, a, d);
  }

  lemma RecoveredWorks(w: World, d: nat, now: Instant)
    requires Working(w, d, now)
    ensures Working(RecoverStep(w, d), d, now)
  {
  }

  lemma ClaimedWorks(config: DeliveryConfig, w: World, d: nat, now: Instant)
    requires Working(w, d, now)
    ensures Working(ClaimStep(config, w, d), d, now)
  {
    hide DueFrom;
  }

  lemma {:induction false} SmoothRunWorks(config: DeliveryConfig, w: World, actions: seq<Action>, d: nat, now: Instant)
    requires Working(w, d, now) && forall a :: a in actions ==> Smooth(a, d, now)
    ensures Working(Run(config, w, actions), d, now)
    decreases actions
  {
    hide Next, Working;
    if actions != [] {
      SmoothStepWorks(config, w, actions[0], d, now);
      SmoothRunWorks(config, Next(config, w, actions[0]), actions[1..], d, now);
    }
  }

  lemma {:induction false} RoundsAreSmooth(
    config: DeliveryConfig, w: World, d: nat, s: Surroundings, i: nat, now: Instant)
    requires NoNewEvents(s) && forall k :: s.sink(k) == ReturnedNone
    ensures forall a :: a in Rounds(config, w, d, s, i) ==> Smooth(a, d, now)
    decreases if PhaseOf(w, d).Sending? then |PhaseOf(w, d).pending| else 0
  {
    hide Next, Round, Smooth;
    RoundIsSmooth(d, s, i, now);
    assert forall a :: a in [Interrupt(d)] + [Finish(d)] ==> Smooth(a, d, now) by {
      LastIsSmooth(d, now);
    }
    if PhaseOf(w, d).Sending? && PhaseOf(w, d).pending != [] {
      var next := Run(config, w, Round(d, s, i));
      if GoesOn(next, d, s, i, PhaseOf(w, d).pending[1..]) {
        RoundsAreSmooth(config, next, d, s, i + 1, now);
      }
    }
  }

  lemma RoundIsSmooth(d: nat, s: Surroundings, i: nat, now: Instant)
    requires NoNewEvents(s) && forall k :: s.sink(k) == ReturnedNone
    ensures forall a :: a in Round(d, s, i) ==> Smooth(a, d, now)
  {
  }

  lemma LastIsSmooth(d: nat, now: Instant)
    ensures Smooth(Interrupt(d), d, now) && Smooth(Finish(d), d, now)
  {
  }

  lemma PlanIsSmooth(config: DeliveryConfig, w: World, d: nat, s: Surroundings)
    requires s.claimTime.Some? && NoNewEvents(s) && forall k :: s.sink(k) == ReturnedNone
    ensures forall a :: a in Plan(config, w, d, s) ==> Smooth(a, d, s.claimTime.value)
  {
    hide Next, Rounds;
    var now := s.claimTime.value;
    hide ClaimAndDeliver;
    var begun := Next(config, w, Begin(d, now));
    ClaimIsSmooth(config, begun, d, s, now);
    ClaimIsSmooth(config, Next(config, begun, Recover(d)), d, s, now);
  }

  lemma ClaimIsSmooth(config: DeliveryConfig, w: World, d: nat, s: Surroundings, now: Instant)
    requires NoNewEvents(s) && forall k :: s.sink(k) == ReturnedNone
    ensures forall a :: a in ClaimAndDeliver(config, w, d, s) ==> Smooth(a, d, now)
  {
    hide Next, Rounds, Run;
    RoundsAreSmooth(config, Next(config, Run(config, w, s.beforeClaim), Claim(d)), d, s, 0, now);
    LastIsSmooth(d, now);
  }

  lemma CallWorks(config: DeliveryConfig, w: World, d: nat, s: Surroundings)
    requires s.claimTime.Some? && PhaseOf(w, d).Idle? && PastEveryRetry(w.db.outbox, s.claimTime.value)
    requires NoNewEvents(s) && forall k :: s.sink(k) == ReturnedNone
    ensures PastEveryRetry(Call(config, w, d, s).db.outbox, s.claimTime.value)
  {
    hide Plan, Run, Smooth;
    PlanIsSmooth(config, w, d, s);
    SmoothRunWorks(config, w, Plan(config, w, d, s), d, s.claimTime.value);
  }

  /** An uninterrupted call with a sink that works, at an idle dispatcher and past every retry time. */
  ghost predicate WorksFrom(config: DeliveryConfig, w: World, d: nat, s: Surroundings) {
    && Good(config, w, d) && PhaseOf(w, d).Idle? && Uninterrupted(config, s)
    && PastEveryRetry(w.db.outbox, s.claimTime.value)
    && forall k :: s.sink(k) == ReturnedNone
  }

  lemma WorksOn(config: DeliveryConfig, w: World, d: nat, s: Surroundings)
    requires WorksFrom(config, w, d, s)
    ensures WorksFrom(config, Call(config, w, d, s), d, s)
    ensures s.claimTime.Some? && Uninterrupted(config, s) && PastEveryRetry(w.db.outbox, s.claimTime.value)
  {
    QuietStore(config, s);
    hide Good, Uninterrupted, Call, TotalOf, AllTerminal, PastEveryRetry, NoNewEvents;
    CallWorks(config, w, d, s);
    CallDrains(config, w, d, s);
  }

  /** The same surroundings again and again, with a sink that works, are quiet. */
  lemma {:induction false} WorkingSinkIsQuiet(config: DeliveryConfig, w: World, d: nat, s: Surroundings, n: nat)
    requires WorksFrom(config, w, d, s)
    ensures Quiet(config, w, d, seq(n, _ => s))
    decreases n
  {
    hide WorksFrom, Uninterrupted, Call, PastEveryRetry, Quiet;
    if n == 0 {
      NoCallsAreQuiet(config, w, d);
      assert seq(n, _ => s) == [];
    } else {
      WorksOn(config, w, d, s);
      WorkingSinkIsQuiet(config, Call(config, w, d, s), d, s, n - 1);
      OneMoreQuietCall(config, w, d, s, seq(n - 1, _ => s));
      assert seq(n, _ => s) == [s] + seq(n - 1, _ => s);
    }
  }

  lemma {:induction false} NoCallsAreQuiet(config: DeliveryConfig, w: World, d: nat)
    ensures Quiet(config, w, d, [])
  {
  }

  lemma {:induction false} OneMoreQuietCall(
    config: DeliveryConfig, w: World, d: nat, s: Surroundings, rest: seq<Surroundings>)
    requires Uninterrupted(config, s) && s.claimTime.Some? && PastEveryRetry(w.db.outbox, s.claimTime.value)
    requires Quiet(config, Call(config, w, d, s), d, rest)
    ensures Quiet(config, w, d, [s] + rest)
  {
    hide Call, Uninterrupted, PastEveryRetry;
    assert ([s] + rest)[1..] == rest;
  }
}
