/**
 One call of dispatch_ready that nothing disturbs, row by row: which events it hands to the sink, in
 which order, and what each answer makes of its row and of the audit log.
 */
module Calls {
  import opened Entities
  import opened Tables
  import opened Consistency
  import opened Protocol
  import opened Dispatcher
  import opened Claims
  import Deliveries

  /** Nothing raises but the sink, nobody else commits, and the retry time of a failure is representable. */
  ghost predicate Calm(config: DeliveryConfig, s: Surroundings, i: nat) {
    && !s.sink(i).Broke? && s.clock(i).Some? && !s.acknowledgeFails(i) && !s.interruptedAfter(i)
    && s.beforeCall(i) == [] && s.duringCall(i) == []
    && (forall claim :: !Deliveries.BeyondCalendar(config, claim, s.sink(i), s.clock(i).value))
  }

  ghost predicate Undisturbed(config: DeliveryConfig, s: Surroundings) {
    && s.claimTime.Some? && !s.recoverFails && !s.claimFails && !s.decodeFails && s.beforeClaim == []
    && forall i :: Calm(config, s, i)
  }

  /** The row and the attempt that an answer at the time `at` leaves, where the row was `before`. */
  ghost predicate Settled(
    config: DeliveryConfig, claim: ClaimedEvent, before: OutboxRow, row: OutboxRow, a: AttemptRow,
    outcome: SinkOutcome, at: Instant)
  {
    exists error ::
      && Deliveries.Describes(error, outcome)
      && Deliveries.Attempted(row, before, at)
      && Deliveries.Tells(a, claim, error, outcome, at)
      && (if outcome == ReturnedNone then Deliveries.DeliveredNow(row, at)
          else if claim.attempts + 1 >= config.maxAttempts then Deliveries.GivenUp(row, before, error)
          else Deliveries.RetriesAt(row, before, error, at + config.delay(claim.attempts + 1)))
  }

  ghost predicate Distinct(ids: seq<nat>) {
    forall i, j :: 0 <= i < j < |ids| ==> ids[i] != ids[j]
  }

  ghost predicate AllClaimed(db: Database, claims: seq<ClaimedEvent>) {
    && (forall k :: 0 <= k < |claims| ==> Deliveries.StillClaimed(db, claims[k]))
    && Distinct(OutboxIdsOf(claims))
  }

  /** The k-th claim is settled by the answer number `first + k`; no other row and nothing else changes. */
  ghost predicate AllSettled(
    config: DeliveryConfig, db: Database, after: Database, claims: seq<ClaimedEvent>, s: Surroundings, first: nat)
  {
    && after == db.(outbox := after.outbox, attempts := after.attempts, attemptSequence := after.attemptSequence)
    && after.outbox.Keys == db.outbox.Keys
    && (forall id :: id in db.outbox && id !in OutboxIdsOf(claims) ==> after.outbox[id] == db.outbox[id])
    && |after.attempts| == |db.attempts| + |claims| && after.attempts[..|db.attempts|] == db.attempts
    && after.attemptSequence == db.attemptSequence + |claims|
    && (forall k :: 0 <= k < |claims| ==> SettledAt(config, db, after, claims, s, first, k))
  }

  ghost predicate SettledAt(
    config: DeliveryConfig, db: Database, after: Database, claims: seq<ClaimedEvent>, s: Surroundings, first: nat,
    k: nat)
    requires k < |claims| && |after.attempts| == |db.attempts| + |claims|
  {
    && claims[k].outboxId in db.outbox && claims[k].outboxId in after.outbox && s.clock(first + k).Some?
    && Settled(config, claims[k], db.outbox[claims[k].outboxId], after.outbox[claims[k].outboxId],
               after.attempts[|db.attempts| + k], s.sink(first + k), s.clock(first + k).value)
  }

  /** The sink is called once per claim, in order. */
  ghost predicate AllCalled(
    calls: seq<SinkCall>, after: seq<SinkCall>, claims: seq<ClaimedEvent>, s: Surroundings, first: nat)
  {
    && |after| == |calls| + |claims| && after[..|calls|] == calls
    && (forall k :: 0 <= k < |claims| ==> after[|calls| + k] == CallFor(claims[k], s.sink(first + k)))
  }

  function CallFor(claim: ClaimedEvent, outcome: SinkOutcome): SinkCall {
    SinkCall(claim.outboxId, claim.event.eventId, claim.attempts + 1, outcome)
  }

  // ---------------------------------------------------------------- one pass

  lemma {:induction false} NobodyElse(config: DeliveryConfig, w: World, d: nat, s: Surroundings, i: nat)
    requires s.beforeCall(i) == [] && s.duringCall(i) == []
    ensures Run(config, Run(config, w, Called(d, s, i)), s.duringCall(i)) == CallStep(w, d, s.sink(i))
  {
    assert Called(d, s, i) == [CallSink(d, s.sink(i))];
    RunOne(config, w, CallSink(d, s.sink(i)));
  }

  /** The acknowledgement of the first claim settles it. */
  lemma AcknowledgementSettles(
    config: DeliveryConfig, db: Database, claim: ClaimedEvent, s: Surroundings, i: nat)
    requires Calm(config, s, i) && Deliveries.StillClaimed(db, claim)
    ensures var tx := AcknowledgeTx(config, db, claim, s.sink(i), s.clock(i).value);
            tx.Some? && tx.value.Ok? && AllSettled(config, db, tx.value.value, [claim], s, i)
  {
    var outcome, at := s.sink(i), s.clock(i).value;
    assert !Deliveries.BeyondCalendar(config, claim, outcome, at);
    Deliveries.AcknowledgementCommitsIff(config, db, claim, outcome, at);
    hide AcknowledgeTx, Calm, Deliveries.BeyondCalendar;
    var after := AcknowledgeTx(config, db, claim, outcome, at).value.value;
    var error := "";
    if outcome == ReturnedNone {
      Deliveries.SuccessColumns(config, db, claim, at);
    } else {
      error := Deliveries.FailureColumns(config, db, claim, outcome, at);
    }
    assert Deliveries.Describes(error, outcome);
    assert OutboxIdsOf([claim]) == [claim.outboxId];
    assert SettledAt(config, db, after, [claim], s, i, 0);
  }

  /** One pass: the call, and the acknowledgement that settles the claim. */
  lemma {:induction false} OnePass(config: DeliveryConfig, w: World, d: nat, s: Surroundings, i: nat)
    requires PhaseOf(w, d).Sending? && PhaseOf(w, d).pending != [] && OnlyDispatcher(s) && Calm(config, s, i)
    requires Deliveries.StillClaimed(w.db, PhaseOf(w, d).pending[0])
    ensures var pending, next := PhaseOf(w, d).pending, Run(config, w, Round(d, s, i));
            && PhaseOf(next, d) == Sending(pending[1..])
            && GoesOn(next, d, s, i, pending[1..])
            && AllCalled(w.calls, next.calls, [pending[0]], s, i)
            && AllSettled(config, w.db, next.db, [pending[0]], s, i)
  {
    var claim := PhaseOf(w, d).pending[0];
    AcknowledgedRound(config, w, d, s, i);
    NobodyElse(config, w, d, s, i);
    AcknowledgementSettles(config, w.db, claim, s, i);
    var next := Run(config, w, Round(d, s, i));
    assert next.calls == w.calls + [CallOf(claim, s.sink(i))];
    assert next.calls[..|w.calls|] == w.calls;
    hide AcknowledgeTx, AllSettled, Run, Round;
  }

  lemma CalledOn(
    calls: seq<SinkCall>, mid: seq<SinkCall>, after: seq<SinkCall>, claims: seq<ClaimedEvent>, s: Surroundings,
    first: nat)
    requires claims != []
    requires AllCalled(calls, mid, [claims[0]], s, first) && AllCalled(mid, after, claims[1..], s, first + 1)
    ensures AllCalled(calls, after, claims, s, first)
  {
    assert after[..|calls|] == after[..|mid|][..|calls|];
    assert after[|calls|] == after[..|mid|][|calls|];
    forall k | 0 <= k < |claims|
      ensures after[|calls| + k] == CallFor(claims[k], s.sink(first + k))
    {
      if k == 0 {
        assert mid[|calls| + 0] == CallFor([claims[0]][0], s.sink(first + 0));
      } else {
        assert after[|mid| + (k - 1)] == CallFor(claims[1..][k - 1], s.sink(first + 1 + (k - 1)));
        assert claims[k] == claims[1..][k - 1] && first + k == first + 1 + (k - 1);
      }
    }
  }

  lemma IdsOfTail(claims: seq<ClaimedEvent>)
    requires claims != []
    ensures OutboxIdsOf(claims) == [claims[0].outboxId] + OutboxIdsOf(claims[1..])
    ensures OutboxIdsOf([claims[0]]) == [claims[0].outboxId]
    ensures Distinct(OutboxIdsOf(claims)) ==>
              Distinct(OutboxIdsOf(claims[1..])) && claims[0].outboxId !in OutboxIdsOf(claims[1..])
  {
    var ids, tail := OutboxIdsOf(claims), OutboxIdsOf(claims[1..]);
    assert ids == [claims[0].outboxId] + tail;
    if Distinct(ids) {
      assert forall k :: 0 <= k < |tail| ==> tail[k] == ids[k + 1] != ids[0];
    }
  }

  lemma RestStillClaimed(
    config: DeliveryConfig, db: Database, after: Database, claims: seq<ClaimedEvent>, s: Surroundings, i: nat)
    requires claims != [] && AllClaimed(db, claims) && AllSettled(config, db, after, [claims[0]], s, i)
    ensures AllClaimed(after, claims[1..])
  {
    IdsOfTail(claims);
    hide Settled, SettledAt;
    forall k | 0 <= k < |claims[1..]|
      ensures Deliveries.StillClaimed(after, claims[1..][k])
    {
      assert claims[1..][k] == claims[k + 1];
      assert Deliveries.StillClaimed(db, claims[k + 1]);
      assert OutboxIdsOf(claims[1..])[k] == claims[k + 1].outboxId;
    }
  }

  lemma SettledOn(
    config: DeliveryConfig, db: Database, mid: Database, after: Database, claims: seq<ClaimedEvent>, s: Surroundings,
    first: nat)
    requires claims != [] && AllClaimed(db, claims)
    requires AllSettled(config, db, mid, [claims[0]], s, first)
    requires AllSettled(config, mid, after, claims[1..], s, first + 1)
    ensures AllSettled(config, db, after, claims, s, first)
  {
    IdsOfTail(claims);
    hide Settled;
    assert SettledAt(config, db, mid, [claims[0]], s, first, 0);
    assert after.attempts[..|db.attempts|] == after.attempts[..|mid.attempts|][..|db.attempts|];
    assert after.attempts[|db.attempts|] == after.attempts[..|mid.attempts|][|db.attempts|];
    forall k | 0 <= k < |claims|
      ensures SettledAt(config, db, after, claims, s, first, k)
    {
      if k > 0 {
        assert SettledAt(config, mid, after, claims[1..], s, first + 1, k - 1);
        assert claims[k] == claims[1..][k - 1] && first + k == first + 1 + (k - 1);
        assert OutboxIdsOf(claims)[k] == claims[k].outboxId;
        assert Deliveries.StillClaimed(db, claims[k]);
      }
    }
  }

  // ---------------------------------------------------------------- the loop

  lemma {:induction false} AllPasses(config: DeliveryConfig, w: World, d: nat, s: Surroundings, i: nat)
    requires PhaseOf(w, d).Sending? && OnlyDispatcher(s) && forall j :: Calm(config, s, j)
    requires AllClaimed(w.db, PhaseOf(w, d).pending)
    ensures var pending, after := PhaseOf(w, d).pending, Run(config, w, Rounds(config, w, d, s, i));
            && PhaseOf(after, d) == Idle(true)
            && AllCalled(w.calls, after.calls, pending, s, i)
            && AllSettled(config, w.db, after.db, pending, s, i)
    decreases |PhaseOf(w, d).pending|
  {
    var pending := PhaseOf(w, d).pending;
    hide Run, Round, Calm, AllSettled, AllCalled, AllClaimed;
    if pending == [] {
      RunOne(config, w, Finish(d));
      NothingSettled(config, w, d, s, i);
    } else {
      var next := Run(config, w, Round(d, s, i));
      FirstIsClaimed(w.db, pending);
      OnePass(config, w, d, s, i);
      RestStillClaimed(config, w.db, next.db, pending, s, i);
      AllPasses(config, next, d, s, i + 1);
      RoundStep(config, w, d, s, i);
      var after := Run(config, w, Rounds(config, w, d, s, i));
      CalledOn(w.calls, next.calls, after.calls, pending, s, i);
      SettledOn(config, w.db, next.db, after.db, pending, s, i);
    }
  }

  lemma FirstIsClaimed(db: Database, claims: seq<ClaimedEvent>)
    requires claims != [] && AllClaimed(db, claims)
    ensures Deliveries.StillClaimed(db, claims[0])
  {
  }

  lemma NothingSettled(config: DeliveryConfig, w: World, d: nat, s: Surroundings, i: nat)
    requires PhaseOf(w, d) == Sending([])
    ensures var after := Next(config, w, Finish(d));
            PhaseOf(after, d) == Idle(true) && AllCalled(w.calls, after.calls, [], s, i)
            && AllSettled(config, w.db, after.db, [], s, i)
  {
    var after := Next(config, w, Finish(d));
    assert after.db == w.db && after.calls == w.calls;
  }

  // ---------------------------------------------------------------- the call

  /** Locking the rows changes none of the columns that settling starts from. */
  lemma SettledFromLocked(
    config: DeliveryConfig, db: Database, locked: Database, after: Database, claims: seq<ClaimedEvent>, now: Instant,
    s: Surroundings)
    requires Takes(db, now, locked, claims) && AllSettled(config, locked, after, claims, s, 0)
    ensures AllSettled(config, db, after, claims, s, 0)
  {
    forall k | 0 <= k < |claims|
      ensures SettledAt(config, db, after, claims, s, 0, k)
    {
      assert SettledAt(config, locked, after, claims, s, 0, k);
      var id := claims[k].outboxId;
      assert OutboxIdsOf(claims)[k] == id;
      assert LockedFor(locked.outbox[id], db.outbox[id], now);
      SameColumns(config, claims[k], db.outbox[id], locked.outbox[id], now, after.outbox[id],
                  after.attempts[|db.attempts| + k], s.sink(k), s.clock(k).value);
    }
  }

  lemma SameColumns(
    config: DeliveryConfig, claim: ClaimedEvent, before: OutboxRow, locked: OutboxRow, now: Instant, row: OutboxRow,
    a: AttemptRow, outcome: SinkOutcome, at: Instant)
    requires LockedFor(locked, before, now) && Settled(config, claim, locked, row, a, outcome, at)
    ensures Settled(config, claim, before, row, a, outcome, at)
  {
    var error :|
      && Deliveries.Describes(error, outcome)
      && Deliveries.Attempted(row, locked, at)
      && Deliveries.Tells(a, claim, error, outcome, at)
      && (if outcome == ReturnedNone then Deliveries.DeliveredNow(row, at)
          else if claim.attempts + 1 >= config.maxAttempts then Deliveries.GivenUp(row, locked, error)
          else Deliveries.RetriesAt(row, locked, error, at + config.delay(claim.attempts + 1)));
    assert Deliveries.Describes(error, outcome) && Deliveries.Attempted(row, before, at);
  }

  lemma TakenAreClaimed(db: Database, now: Instant, limit: nat, locked: Database, claims: seq<ClaimedEvent>)
    requires Consistent(db) && TakesFirst(db, now, limit, locked, claims)
    ensures AllClaimed(locked, claims)
  {
    var ids := OutboxIdsOf(claims);
    assert EventsOwned(db.events, db.watches);
    hide Consistent, ClaimableIds;
    forall k | 0 <= k < |claims|
      ensures Deliveries.StillClaimed(locked, claims[k])
    {
      assert ids[k] == claims[k].outboxId;
      assert LockedFor(locked.outbox[ids[k]], db.outbox[ids[k]], now);
    }
  }

  /** The tables that the call claims from: after its recovery, if the dispatcher had not recovered. */
  function Ready(w: World, d: nat, now: Instant): Database {
    if PhaseOf(w, d) == Idle(true) then w.db else RecoverInFlight(w.db, now)
  }

  lemma {:induction false} TurnsToClaiming(config: DeliveryConfig, w: World, d: nat, s: Surroundings)
    returns (ready: World)
    requires PhaseOf(w, d).Idle? && Undisturbed(config, s)
    ensures ready.db == Ready(w, d, s.claimTime.value) && ready.calls == w.calls
    ensures PhaseOf(ready, d) == Claiming(s.claimTime.value)
    ensures Run(config, w, Plan(config, w, d, s)) == Run(config, ready, ClaimAndDeliver(config, ready, d, s))
  {
    BeginSteps(config, w, d, s, s.claimTime.value);
    hide Run, Plan, ClaimAndDeliver, Calm;
    ready := Next(config, w, Begin(d, s.claimTime.value));
    if !PhaseOf(w, d).recovered {
      ready := Next(config, ready, Recover(d));
    }
  }

  /**
   An undisturbed call hands the first batch_size rows whose time has come to the sink, in order and once
   each, and settles each by its own answer at its own time; every other row stays as it was.
   */
  lemma {:induction false} UndisturbedCall(config: DeliveryConfig, w: World, d: nat, s: Surroundings)
    returns (claims: seq<ClaimedEvent>)
    requires config.Valid() && Consistent(w.db) && PhaseOf(w, d).Idle? && Undisturbed(config, s)
    ensures var now, after := s.claimTime.value, Run(config, w, Plan(config, w, d, s));
            var ready := Ready(w, d, now);
            && PhaseOf(after, d) == Idle(true)
            && FirstOf(ClaimableIds(ready, now), config.batchSize, OutboxIdsOf(claims)) && Quote(claims, ready)
            && AllCalled(w.calls, after.calls, claims, s, 0)
            && AllSettled(config, ready, after.db, claims, s, 0)
  {
    var now := s.claimTime.value;
    hide Run, Consistent, Undisturbed, Plan, Calm, FirstOf, Quote, AllCalled, AllSettled, AllClaimed;
    hide RecoverInFlight;
    var ready := TurnsToClaiming(config, w, d, s);
    RecoverConsistent(w.db, now);
    claims := ClaimStepTakes(config, ready, d, s);
    var claimed := Next(config, ready, Claim(d));
    AllPasses(config, claimed, d, s, 0);
    var after := Run(config, claimed, Rounds(config, claimed, d, s, 0));
    SettledFromLocked(config, ready.db, claimed.db, after.db, claims, now, s);
  }

  lemma NobodyElseActs(config: DeliveryConfig, s: Surroundings)
    requires Undisturbed(config, s)
    ensures OnlyDispatcher(s)
  {
    forall i: nat
      ensures s.beforeCall(i) == [] && s.duringCall(i) == []
    {
      assert Calm(config, s, i);
    }
  }

  lemma {:induction false} ClaimStepTakes(config: DeliveryConfig, w: World, d: nat, s: Surroundings)
    returns (claims: seq<ClaimedEvent>)
    requires config.Valid() && Consistent(w.db) && PhaseOf(w, d).Claiming? && Undisturbed(config, s)
    ensures var claimed := Next(config, w, Claim(d));
            && PhaseOf(claimed, d) == Sending(claims) && claimed.calls == w.calls
            && TakesFirst(w.db, PhaseOf(w, d).claimTime, config.batchSize, claimed.db, claims)
            && AllClaimed(claimed.db, claims)
            && Run(config, w, ClaimAndDeliver(config, w, d, s))
               == Run(config, claimed, Rounds(config, claimed, d, s, 0))
    ensures OnlyDispatcher(s) && forall i :: Calm(config, s, i)
  {
    var now, claimed := PhaseOf(w, d).claimTime, Next(config, w, Claim(d));
    assert claimed == ClaimStep(config, w, d);
    hide ClaimDue, Consistent, TakesFirst, AllClaimed, Rounds, Calm, Next, Run, ClaimAndDeliver;
    ClaimTakesFirstDueRows(w.db, now, config.batchSize);
    claims := ClaimDue(w.db, now, config.batchSize).value.claims;
    TakenAreClaimed(w.db, now, config.batchSize, claimed.db, claims);
    RunOfNothing(config, w);
    ClaimSteps(config, w, d, s);
    NobodyElseActs(config, s);
  }
}
