/**
 Progress of one dispatcher among any number of runs, purges and deletions: how often a due row can be
 passed over, and how many claims can be made at all. Both follow from one amortised potential: the
 attempts a row may still use, less one for a claim already in hand.
 */
module Progress {
  import opened Entities
  import opened Tables
  import opened Consistency
  import opened Promotion
  import opened Protocol
  import opened Safety
  import opened Accounting
  import opened Recovery

  function AttemptsLeft(outbox: Outbox, inFlight: set<nat>, maxAttempts: int, id: nat): int {
    if id in outbox && !Terminal(outbox[id].status) then
      maxAttempts - outbox[id].attempts - if id in inFlight then 1 else 0
    else 0
  }

  /** Summed over the rows 1..n. */
  function Potential(outbox: Outbox, inFlight: set<nat>, maxAttempts: int, n: nat): int {
    if n == 0 then 0
    else Potential(outbox, inFlight, maxAttempts, n - 1) + AttemptsLeft(outbox, inFlight, maxAttempts, n)
  }

  function InFlight(phase: Phase): set<nat> {
    match phase
    case Sending(pending) => PendingIds(pending)
    case Answered(pending, _) => PendingIds(pending)
    case _ => {}
  }

  function PotentialOf(config: DeliveryConfig, w: World, d: nat, n: nat): int {
    Potential(w.db.outbox, InFlight(PhaseOf(w, d)), config.maxAttempts, n)
  }

  function Elements(ids: seq<nat>): set<nat> {
    set id | id in ids
  }

  function CountUpTo(ids: set<nat>, n: nat): nat {
    if n == 0 then 0 else CountUpTo(ids, n - 1) + if n in ids then 1 else 0
  }

  // ---------------------------------------------------------------- what a run does

  /** The ids that a step claims. */
  function ClaimedIdsOf(config: DeliveryConfig, w: World, a: Action): seq<nat> {
    if a.Claim? && PhaseOf(w, a.dispatcher).Claiming? && config.Valid() then
      DueFrom(w.db, PhaseOf(w, a.dispatcher).claimTime, 1, config.batchSize)
    else []
  }

  function Claims(config: DeliveryConfig, w: World, actions: seq<Action>): nat
    decreases actions
  {
    if actions == [] then 0
    else |ClaimedIdsOf(config, w, actions[0])| + Claims(config, Next(config, w, actions[0]), actions[1..])
  }

  /** The step claims a batch, the row is due, and yet the row is not in the batch. */
  predicate PassesOver(config: DeliveryConfig, w: World, a: Action, id: nat) {
    && a.Claim? && PhaseOf(w, a.dispatcher).Claiming? && config.Valid()
    && Due(w.db, id, PhaseOf(w, a.dispatcher).claimTime)
    && id !in ClaimedIdsOf(config, w, a)
  }

  function Skips(config: DeliveryConfig, w: World, actions: seq<Action>, id: nat): nat
    decreases actions
  {
    if actions == [] then 0
    else (if PassesOver(config, w, actions[0], id) then 1 else 0)
         + Skips(config, Next(config, w, actions[0]), actions[1..], id)
  }

  /** The claims in hand that a step gives up without acknowledgement. */
  function LostBy(config: DeliveryConfig, w: World, a: Action): seq<ClaimedEvent> {
    if IsDelivery(a) && PhaseOf(Next(config, w, a), a.dispatcher) == Idle(false)
       && (PhaseOf(w, a.dispatcher).Sending? || PhaseOf(w, a.dispatcher).Answered?)
    then PhaseOf(w, a.dispatcher).pending
    else []
  }

  function Stranded(config: DeliveryConfig, w: World, actions: seq<Action>): nat
    decreases actions
  {
    if actions == [] then 0
    else |LostBy(config, w, actions[0])| + Stranded(config, Next(config, w, actions[0]), actions[1..])
  }

  // ---------------------------------------------------------------- the potential

  lemma {:induction false} PotentialMoves(
    outbox: Outbox, inFlight: set<nat>, after: Outbox, inFlight': set<nat>, maxAttempts: int, n: nat,
    spent: set<nat>, lost: set<nat>)
    requires forall id :: 1 <= id <= n ==>
               AttemptsLeft(after, inFlight', maxAttempts, id) + (if id in spent then 1 else 0)
               <= AttemptsLeft(outbox, inFlight, maxAttempts, id) + (if id in lost then 1 else 0)
    ensures Potential(after, inFlight', maxAttempts, n) + CountUpTo(spent, n)
            <= Potential(outbox, inFlight, maxAttempts, n) + CountUpTo(lost, n)
  {
    if n > 0 {
      PotentialMoves(outbox, inFlight, after, inFlight', maxAttempts, n - 1, spent, lost);
    }
  }

  lemma {:induction false} PotentialNonNegative(
    outbox: Outbox, inFlight: set<nat>, maxAttempts: int, n: nat)
    requires Budgeted(outbox, maxAttempts)
    ensures Potential(outbox, inFlight, maxAttempts, n) >= 0
  {
    if n > 0 {
      PotentialNonNegative(outbox, inFlight, maxAttempts, n - 1);
      if n in outbox {
        assert WithinBudget(outbox[n], maxAttempts);
      }
    }
  }

  lemma LiveRowsBudgeted(config: DeliveryConfig, w: World)
    requires Accounted(config, w)
    ensures Budgeted(w.db.outbox, config.maxAttempts)
  {
    forall id | id in w.db.outbox
      ensures WithinBudget(w.db.outbox[id], config.maxAttempts)
    {
      assert Rows(w)[id] == w.db.outbox[id];
    }
  }

  lemma {:induction false} CountNone(n: nat)
    ensures CountUpTo({}, n) == 0
  {
    if n > 0 {
      CountNone(n - 1);
    }
  }

  lemma {:induction false} CountPlusOne(ids: set<nat>, id: nat, n: nat)
    requires id !in ids
    ensures CountUpTo(ids + {id}, n) == CountUpTo(ids, n) + if 1 <= id <= n then 1 else 0
  {
    if n > 0 {
      CountPlusOne(ids, id, n - 1);
    }
  }

  /** Distinct ids within 1..n are counted once each. */
  lemma {:induction false} CountAll(ids: seq<nat>, n: nat)
    requires forall i, j :: 0 <= i < j < |ids| ==> ids[i] < ids[j]
    ensures CountUpTo(Elements(ids), n) <= |ids|
    ensures (forall i :: 0 <= i < |ids| ==> 1 <= ids[i] <= n) ==> CountUpTo(Elements(ids), n) == |ids|
  {
    if ids == [] {
      assert Elements(ids) == {};
      CountNone(n);
    } else {
      var last, init := ids[|ids| - 1], ids[..|ids| - 1];
      CountAll(init, n);
      assert Elements(ids) == Elements(init) + {last} by {
        assert ids == init + [last];
      }
      assert last !in init;
      CountPlusOne(Elements(init), last, n);
    }
  }

  lemma {:induction false} CountPending(pending: seq<ClaimedEvent>, sequence: nat, n: nat)
    requires Ascending(pending, sequence)
    ensures CountUpTo(PendingIds(pending), n) <= |pending|
  {
    var ids := seq(|pending|, i requires 0 <= i < |pending| => pending[i].outboxId);
    CountAll(ids, n);
    forall id
      ensures id in PendingIds(pending) <==> id in ids
    {
      if id in PendingIds(pending) {
        var i :| 0 <= i < |pending| && pending[i].outboxId == id;
        assert ids[i] == id;
      }
    }
    assert PendingIds(pending) == Elements(ids);
  }

  // ---------------------------------------------------------------- one step

  /** Rows 1..n: claims made are paid for by the potential, up to the claims lost. */
  ghost predicate Pays(config: DeliveryConfig, w: World, a: Action, d: nat, n: nat) {
    PotentialOf(config, Next(config, w, a), d, n) + CountUpTo(Elements(ClaimedIdsOf(config, w, a)), n)
    <= PotentialOf(config, w, d, n) + |LostBy(config, w, a)|
  }

  lemma {:induction false} UndisturbedPotential(
    outbox: Outbox, sequence: nat, after: Outbox, sequence': nat, inFlight: set<nat>, maxAttempts: int, n: nat)
    requires Undisturbed(outbox, sequence, after, sequence') && Budgeted(outbox, maxAttempts) && n <= sequence
    ensures Potential(after, inFlight, maxAttempts, n) <= Potential(outbox, inFlight, maxAttempts, n)
  {
    forall id | 1 <= id <= n
      ensures AttemptsLeft(after, inFlight, maxAttempts, id) <= AttemptsLeft(outbox, inFlight, maxAttempts, id)
    {
      if id in outbox {
        assert WithinBudget(outbox[id], maxAttempts);
      }
    }
    PotentialMoves(outbox, inFlight, after, inFlight, maxAttempts, n, {}, {});
  }

  /** A step that claims nothing and loses nothing. */
  lemma NothingClaimed(config: DeliveryConfig, w: World, a: Action, d: nat, n: nat)
    requires ClaimedIdsOf(config, w, a) == []
    requires PotentialOf(config, Next(config, w, a), d, n) <= PotentialOf(config, w, d, n) + |LostBy(config, w, a)|
    ensures Pays(config, w, a, d, n)
  {
    assert Elements([]) == {};
    CountNone(n);
  }

  lemma StoragePays(config: DeliveryConfig, w: World, a: Action, d: nat, n: nat)
    requires Consistent(w.db) && Accounted(config, w) && !IsDelivery(a) && n <= w.db.outboxSequence
    ensures Pays(config, w, a, d, n)
  {
    var after := Next(config, w, a);
    StorageUndisturbed(config, w, a);
    LiveRowsBudgeted(config, w);
    UndisturbedPotential(w.db.outbox, w.db.outboxSequence, after.db.outbox, after.db.outboxSequence,
                         InFlight(PhaseOf(w, d)), config.maxAttempts, n);
    NothingClaimed(config, w, a, d, n);
  }

  lemma RecoverPays(config: DeliveryConfig, w: World, d: nat, n: nat)
    ensures Pays(config, w, Recover(d), d, n)
  {
    var after := RecoverStep(w, d);
    PotentialMoves(w.db.outbox, InFlight(PhaseOf(w, d)), after.db.outbox, InFlight(PhaseOf(after, d)),
                   config.maxAttempts, n, {}, {});
    NothingClaimed(config, w, Recover(d), d, n);
  }

  /** Each claimed row pays one attempt for the claim in hand. */
  lemma ClaimedRowPays(config: DeliveryConfig, w: World, d: nat, id: nat)
    requires config.Valid() && PhaseOf(w, d).Claiming?
    ensures var after := ClaimStep(config, w, d);
            AttemptsLeft(after.db.outbox, InFlight(PhaseOf(after, d)), config.maxAttempts, id)
            + (if id in Elements(ClaimedIdsOf(config, w, Claim(d))) then 1 else 0)
            == AttemptsLeft(w.db.outbox, {}, config.maxAttempts, id)
  {
    var now := PhaseOf(w, d).claimTime;
    var ids := DueFrom(w.db, now, 1, config.batchSize);
    var after := ClaimStep(config, w, d);
    LockedRowPays(w.db, now, config.batchSize, config.maxAttempts, id);
    ClaimedIds(w.db, now, config.batchSize, id);
    hide DueFrom, AttemptsLeft, LockAll;
    assert after.db.outbox == LockAll(w.db.outbox, ids, now);
    assert ClaimedIdsOf(config, w, Claim(d)) == ids;
    assert InFlight(PhaseOf(after, d)) == PendingIds(ClaimDue(w.db, now, config.batchSize).value.claims);
    SameAttemptsLeft(after.db.outbox, InFlight(PhaseOf(after, d)), Elements(ids), config.maxAttempts, id);
  }

  lemma SameAttemptsLeft(outbox: Outbox, a: set<nat>, b: set<nat>, maxAttempts: int, id: nat)
    requires id in a <==> id in b
    ensures AttemptsLeft(outbox, a, maxAttempts, id) == AttemptsLeft(outbox, b, maxAttempts, id)
  {
  }

  lemma {:induction false} LockedRowPays(db: Database, now: Instant, limit: nat, maxAttempts: int, id: nat)
    ensures var ids := DueFrom(db, now, 1, limit);
            AttemptsLeft(LockAll(db.outbox, ids, now), Elements(ids), maxAttempts, id) + (if id in ids then 1 else 0)
            == AttemptsLeft(db.outbox, {}, maxAttempts, id)
  {
    var ids := DueFrom(db, now, 1, limit);
    assert id in ids ==> Due(db, id, now);
    hide DueFrom;
  }

  lemma ClaimPays(config: DeliveryConfig, w: World, d: nat, n: nat)
    requires config.Valid()
    ensures Pays(config, w, Claim(d), d, n)
  {
    hide Potential, DueFrom, CountUpTo, AttemptsLeft;
    var after := ClaimStep(config, w, d);
    var phase := PhaseOf(w, d);
    var spent := Elements(ClaimedIdsOf(config, w, Claim(d)));
    if phase.Claiming? {
      forall id: nat
        ensures AttemptsLeft(after.db.outbox, InFlight(PhaseOf(after, d)), config.maxAttempts, id)
                + (if id in spent then 1 else 0)
                == AttemptsLeft(w.db.outbox, InFlight(phase), config.maxAttempts, id)
      {
        ClaimedRowPays(config, w, d, id);
      }
    } else {
      assert ClaimedIdsOf(config, w, Claim(d)) == [] && after == w;
    }
    hide ClaimStep, ClaimedIdsOf;
    PotentialMoves(w.db.outbox, InFlight(phase), after.db.outbox, InFlight(PhaseOf(after, d)),
                   config.maxAttempts, n, spent, {});
    CountNone(n);
  }

  lemma LosingPays(config: DeliveryConfig, w: World, after: World, d: nat, n: nat)
    requires SoloOrderly(w, d) && (PhaseOf(w, d).Sending? || PhaseOf(w, d).Answered?)
    requires after.db == w.db && PhaseOf(after, d) == Idle(false)
    ensures PotentialOf(config, after, d, n) <= PotentialOf(config, w, d, n) + |PhaseOf(w, d).pending|
  {
    var pending := PhaseOf(w, d).pending;
    PotentialMoves(w.db.outbox, PendingIds(pending), w.db.outbox, {}, config.maxAttempts, n, {}, PendingIds(pending));
    CountPending(pending, w.db.outboxSequence, n);
  }

  lemma {:induction false} CommitPays(
    config: DeliveryConfig, outbox: Outbox, after: Outbox, pending: seq<ClaimedEvent>, sequence: nat,
    outcome: SinkOutcome, n: nat)
    requires pending != [] && InHand(pending, outbox, sequence) && pending[0].outboxId in outbox
    requires Budgeted(outbox, config.maxAttempts)
    requires pending[0].outboxId in after && after == outbox[pending[0].outboxId := after[pending[0].outboxId]]
    requires NextRow(config, outbox[pending[0].outboxId], after[pending[0].outboxId], outcome)
    ensures Potential(after, PendingIds(pending[1..]), config.maxAttempts, n)
            <= Potential(outbox, PendingIds(pending), config.maxAttempts, n)
  {
    var head := pending[0].outboxId;
    assert PendingIds(pending) == PendingIds(pending[1..]) + {head} by {
      assert pending == [pending[0]] + pending[1..];
    }
    assert head !in PendingIds(pending[1..]);
    assert Current(pending[0], outbox) && WithinBudget(outbox[head], config.maxAttempts);
    PotentialMoves(outbox, PendingIds(pending), after, PendingIds(pending[1..]), config.maxAttempts, n, {}, {});
  }

  lemma AcknowledgementPays(config: DeliveryConfig, w: World, d: nat, now: Instant, n: nat)
    requires config.Valid() && Accounted(config, w) && SoloOrderly(w, d)
    ensures PotentialOf(config, AcknowledgeStep(config, w, d, now), d, n)
            <= PotentialOf(config, w, d, n) + |LostBy(config, w, Acknowledgement(d, now))|
  {
    var phase := PhaseOf(w, d);
    LiveRowsBudgeted(config, w);
    hide Accounted, AcknowledgeTx, Potential;
    if phase.Answered? && phase.call < |w.calls| {
      assert phase.pending != [];
      var tx := AcknowledgeTx(config, w.db, phase.pending[0], w.calls[phase.call].outcome, now);
      if tx.Some? && tx.value.Ok? {
        CommitStepPays(config, w, d, now, n);
      } else {
        LosingPays(config, w, Enter(w, d, Idle(false)), d, n);
        hide PotentialOf, SoloOrderly;
      }
    }
  }

  lemma CommitStepPays(config: DeliveryConfig, w: World, d: nat, now: Instant, n: nat)
    requires config.Valid() && Budgeted(w.db.outbox, config.maxAttempts) && SoloOrderly(w, d)
    requires PhaseOf(w, d).Answered? && PhaseOf(w, d).call < |w.calls| && PhaseOf(w, d).pending != []
    requires var phase := PhaseOf(w, d);
             var tx := AcknowledgeTx(config, w.db, phase.pending[0], w.calls[phase.call].outcome, now);
             tx.Some? && tx.value.Ok?
    ensures PotentialOf(config, AcknowledgeStep(config, w, d, now), d, n) <= PotentialOf(config, w, d, n)
  {
    var phase := PhaseOf(w, d);
    var claim, outcome := phase.pending[0], w.calls[phase.call].outcome;
    hide AcknowledgeTx, Potential, Budgeted;
    AcknowledgedRow(config, w.db, claim, outcome, now);
    var after := AcknowledgeTx(config, w.db, claim, outcome, now).value.value;
    assert AcknowledgeStep(config, w, d, now).db == after
           && PhaseOf(AcknowledgeStep(config, w, d, now), d) == Sending(phase.pending[1..]);
    hide AcknowledgeStep;
    CommitPays(config, w.db.outbox, after.outbox, phase.pending, w.db.outboxSequence, outcome, n);
  }

  lemma InterruptPays(config: DeliveryConfig, w: World, d: nat, n: nat)
    requires SoloOrderly(w, d)
    ensures PotentialOf(config, InterruptStep(w, d), d, n)
            <= PotentialOf(config, w, d, n) + |LostBy(config, w, Interrupt(d))|
  {
    if PhaseOf(w, d).Sending? || PhaseOf(w, d).Answered? {
      LosingPays(config, w, InterruptStep(w, d), d, n);
    }
  }

  lemma QuietPays(config: DeliveryConfig, w: World, a: Action, n: nat)
    requires a.Begin? || a.Finish?
    ensures PotentialOf(config, Next(config, w, a), a.dispatcher, n) == PotentialOf(config, w, a.dispatcher, n)
  {
    assert Next(config, w, a).db.outbox == w.db.outbox;
    assert InFlight(PhaseOf(Next(config, w, a), a.dispatcher)) == InFlight(PhaseOf(w, a.dispatcher));
  }

  lemma CallPays(config: DeliveryConfig, w: World, d: nat, outcome: SinkOutcome, n: nat)
    requires SoloOrderly(w, d)
    ensures PotentialOf(config, CallStep(w, d, outcome), d, n)
            <= PotentialOf(config, w, d, n) + |LostBy(config, w, CallSink(d, outcome))|
  {
    var phase := PhaseOf(w, d);
    if outcome.Broke? && phase.Sending? && phase.pending != [] {
      LosingPays(config, w, CallStep(w, d, outcome), d, n);
    } else {
      hide Potential;
      assert CallStep(w, d, outcome).db == w.db;
      assert InFlight(PhaseOf(CallStep(w, d, outcome), d)) == InFlight(phase);
    }
  }

  lemma DeliveryPays(config: DeliveryConfig, w: World, a: Action, n: nat)
    requires config.Valid() && Accounted(config, w) && IsDelivery(a) && SoloOrderly(w, a.dispatcher)
    requires !a.Claim? && !a.Recover?
    ensures Pays(config, w, a, a.dispatcher, n)
  {
    match a {
      case Acknowledgement(d, now) => AcknowledgementPays(config, w, d, now, n);
      case Interrupt(d) => InterruptPays(config, w, d, n);
      case CallSink(d, outcome) => CallPays(config, w, d, outcome, n);
      case _ => QuietPays(config, w, a, n);
    }
    NothingClaimed(config, w, a, a.dispatcher, n);
  }

  lemma NextPays(config: DeliveryConfig, w: World, a: Action, d: nat, n: nat)
    requires config.Valid() && Consistent(w.db) && Accounted(config, w) && SoloOrderly(w, d)
    requires IsDelivery(a) ==> a.dispatcher == d
    requires n <= w.db.outboxSequence
    ensures Pays(config, w, a, d, n)
  {
    if a.Recover? {
      RecoverPays(config, w, d, n);
    } else if a.Claim? {
      ClaimPays(config, w, d, n);
    } else if IsDelivery(a) {
      DeliveryPays(config, w, a, n);
    } else {
      StoragePays(config, w, a, d, n);
    }
  }

  // ---------------------------------------------------------------- bounded waiting

  /** A batch that passes over a due row is full, and all of it lies before that row. */
  lemma {:induction false} FullBatchBefore(db: Database, now: Instant, id: nat, limit: nat, r: nat)
    requires Due(db, r, now) && id <= r <= db.outboxSequence && r !in DueFrom(db, now, id, limit)
    ensures |DueFrom(db, now, id, limit)| == limit
    ensures forall k :: k in DueFrom(db, now, id, limit) ==> k < r
    decreases r - id
  {
    if limit > 0 {
      if Due(db, id, now) {
        assert DueFrom(db, now, id, limit)[0] == id;
        var rest := DueFrom(db, now, id + 1, limit - 1);
        assert DueFrom(db, now, id, limit) == [id] + rest;
        FullBatchBefore(db, now, id + 1, limit - 1, r);
      } else {
        FullBatchBefore(db, now, id + 1, limit, r);
      }
    }
  }

  lemma {:induction false} SkipClaimsBatch(config: DeliveryConfig, w: World, a: Action, r: nat)
    requires PassesOver(config, w, a, r) && 1 <= r <= w.db.outboxSequence
    ensures CountUpTo(Elements(ClaimedIdsOf(config, w, a)), r - 1) == config.batchSize
  {
    var now := PhaseOf(w, a.dispatcher).claimTime;
    var ids := ClaimedIdsOf(config, w, a);
    FullBatchBefore(w.db, now, 1, config.batchSize, r);
    DueAscending(w.db, now, 1, config.batchSize);
    forall i | 0 <= i < |ids|
      ensures 1 <= ids[i] <= r - 1
    {
      assert ids[i] in ids;
    }
    CountAll(ids, r - 1);
  }

  lemma SkipIsPaid(config: DeliveryConfig, w: World, a: Action, d: nat, r: nat)
    requires Good(config, w, d) && (IsDelivery(a) ==> a.dispatcher == d) && 1 <= r <= w.db.outboxSequence
    ensures (if PassesOver(config, w, a, r) then config.batchSize else 0)
            + PotentialOf(config, Next(config, w, a), d, r - 1)
            <= PotentialOf(config, w, d, r - 1) + |LostBy(config, w, a)|
    ensures r <= Next(config, w, a).db.outboxSequence
  {
    hide Next, Consistent, SoloOrderly, Accounted;
    NextPays(config, w, a, d, r - 1);
    SequenceGrows(config, w, a);
    if PassesOver(config, w, a, r) {
      SkipClaimsBatch(config, w, a, r);
    }
  }

  lemma {:induction false} SkipsArePaid(config: DeliveryConfig, w: World, actions: seq<Action>, d: nat, r: nat)
    requires Good(config, w, d) && Solo(actions, d) && 1 <= r <= w.db.outboxSequence
    ensures Skips(config, w, actions, r) * config.batchSize + PotentialOf(config, Run(config, w, actions), d, r - 1)
            <= PotentialOf(config, w, d, r - 1) + Stranded(config, w, actions)
    decreases actions
  {
    hide Next, Consistent, SoloOrderly, Accounted;
    if actions != [] {
      var mid := Next(config, w, actions[0]);
      SkipIsPaid(config, w, actions[0], d, r);
      NextGood(config, w, actions[0], d);
      SkipsArePaid(config, mid, actions[1..], d, r);
      OneMore(Skips(config, mid, actions[1..], r), config.batchSize);
    }
  }

  lemma OneMore(k: int, b: int)
    ensures (1 + k) * b == b + k * b
  {
  }

  lemma SequenceGrows(config: DeliveryConfig, w: World, a: Action)
    requires Consistent(w.db)
    ensures w.db.outboxSequence <= Next(config, w, a).db.outboxSequence
  {
    if IsDelivery(a) {
      DeliveryKeepsWatchSide(config, w, a);
    } else {
      StorageUndisturbed(config, w, a);
    }
  }

  /** S / batch_size, rounded down, where S counts the attempts left before the row and the claims stranded. */
  function WaitBound(config: DeliveryConfig, w: World, actions: seq<Action>, r: nat): int
    requires config.Valid() && r >= 1
  {
    (Potential(w.db.outbox, {}, config.maxAttempts, r - 1) + Stranded(config, w, actions)) / config.batchSize
  }

  /**
   Bounded waiting. Take any reachable state with the dispatcher idle, and any continuation in which no
   other dispatcher acts: promotions, purges and deletions included. A row is passed over while due at
   most S / batch_size times, where S sums the attempts left over the non-terminal rows before it, plus
   the claims stranded.
   */
  lemma {:induction false} BoundedWaiting(config: DeliveryConfig, w: World, actions: seq<Action>, d: nat, r: nat)
    requires Good(config, w, d) && PhaseOf(w, d).Idle? && Solo(actions, d) && 1 <= r <= w.db.outboxSequence
    ensures Skips(config, w, actions, r) <= WaitBound(config, w, actions, r)
  {
    hide Next, Consistent, SoloOrderly;
    SkipsArePaid(config, w, actions, d, r);
    RunGood(config, w, actions, d);
    PotentialOfNonNegative(config, Run(config, w, actions), d, r - 1);
    var s := Potential(w.db.outbox, {}, config.maxAttempts, r - 1);
    AtMostQuotient(Skips(config, w, actions, r), config.batchSize, s + Stranded(config, w, actions));
  }

  lemma PotentialOfNonNegative(config: DeliveryConfig, w: World, d: nat, n: nat)
    requires Accounted(config, w)
    ensures PotentialOf(config, w, d, n) >= 0
  {
    LiveRowsBudgeted(config, w);
    PotentialNonNegative(w.db.outbox, InFlight(PhaseOf(w, d)), config.maxAttempts, n);
  }

  lemma AtMostQuotient(k: int, b: int, total: int)
    requires b > 0 && k * b <= total
    ensures k <= total / b
  {
    var q := total / b;
    assert total < (q + 1) * b;
    if k > q {
      MulMonotone(q + 1, k, b);
      assert false;
    }
  }

  lemma MulMonotone(x: int, y: int, b: int)
    requires x <= y && b > 0
    ensures x * b <= y * b
  {
  }

  // ---------------------------------------------------------------- the claim budget

  /** The attempts left over all rows. */
  function TotalOf(config: DeliveryConfig, w: World, d: nat): int {
    PotentialOf(config, w, d, w.db.outboxSequence)
  }

  lemma {:induction false} NewRowsPotential(
    outbox: Outbox, after: Outbox, inFlight: set<nat>, maxAttempts: int, base: nat, events: seq<WatchEvent>,
    now: Instant, n: nat)
    requires OutboxExtended(outbox, after, base, events, now) && OutboxNumbered(outbox, base)
    requires base <= n <= base + |events|
    requires forall id :: id in inFlight ==> id <= base
    ensures Potential(after, inFlight, maxAttempts, n)
            == Potential(outbox, inFlight, maxAttempts, base) + maxAttempts * (n - base)
    decreases n
  {
    if n == base {
      forall id | 1 <= id <= n
        ensures AttemptsLeft(after, inFlight, maxAttempts, id) == AttemptsLeft(outbox, inFlight, maxAttempts, id)
      {
      }
      PotentialMoves(outbox, inFlight, after, inFlight, maxAttempts, n, {}, {});
      PotentialMoves(after, inFlight, outbox, inFlight, maxAttempts, n, {}, {});
    } else {
      NewRowsPotential(outbox, after, inFlight, maxAttempts, base, events, now, n - 1);
      assert FreshRow(after[n], events[n - base - 1].eventId, now);
      assert maxAttempts * (n - base) == maxAttempts * (n - 1 - base) + maxAttempts;
    }
  }

  lemma InFlightOld(w: World, d: nat)
    requires SoloOrderly(w, d)
    ensures forall id :: id in InFlight(PhaseOf(w, d)) ==> id <= w.db.outboxSequence
  {
  }

  lemma {:induction false} PromotePotential(
    w: World, x: WatchId, id: ObservationId, policy: Policy, factory: seq<Option<EventId>>, now: Instant,
    inFlight: set<nat>, maxAttempts: int)
    requires Consistent(w.db) && forall i :: i in inFlight ==> i <= w.db.outboxSequence
    ensures var after := PromoteStep(w, x, id, policy, factory, now);
            && Potential(after.db.outbox, inFlight, maxAttempts, after.db.outboxSequence)
               == Potential(w.db.outbox, inFlight, maxAttempts, w.db.outboxSequence)
                  + maxAttempts * (after.db.outboxSequence - w.db.outboxSequence)
            && after.phases == w.phases
  {
    var after := PromoteStep(w, x, id, policy, factory, now);
    var events := PromoteAddsRows(w, x, id, policy, factory, now);
    assert OutboxNumbered(w.db.outbox, w.db.outboxSequence);
    hide Consistent, PromoteStep, Potential, OutboxNumbered, OutboxExtended;
    if after == w {
      assert maxAttempts * 0 == 0;
    } else {
      NewRowsPotential(w.db.outbox, after.db.outbox, inFlight, maxAttempts, w.db.outboxSequence, events, now,
                       after.db.outboxSequence);
    }
  }

  lemma PromoteWithinBudget(config: DeliveryConfig, w: World, a: Action, d: nat)
    requires Good(config, w, d) && a.PromoteObservation?
    ensures var after := Next(config, w, a);
            TotalOf(config, after, d)
            == TotalOf(config, w, d) + config.maxAttempts * (after.db.outboxSequence - w.db.outboxSequence)
  {
    hide Consistent, Accounted, PromoteStep, Potential;
    InFlightOld(w, d);
    PromotePotential(w, a.watchId, a.observationId, a.policy, a.factory, a.now, InFlight(PhaseOf(w, d)),
                     config.maxAttempts);
    hide SoloOrderly, InFlight;
  }

  lemma NextWithinBudget(config: DeliveryConfig, w: World, a: Action, d: nat)
    requires Good(config, w, d) && (IsDelivery(a) ==> a.dispatcher == d)
    ensures var after := Next(config, w, a);
            |ClaimedIdsOf(config, w, a)| + TotalOf(config, after, d)
            <= TotalOf(config, w, d) + config.maxAttempts * (after.db.outboxSequence - w.db.outboxSequence)
               + |LostBy(config, w, a)|
  {
    hide Next, Consistent, SoloOrderly, Accounted;
    if a.PromoteObservation? {
      PromoteWithinBudget(config, w, a, d);
    } else {
      NextPays(config, w, a, d, w.db.outboxSequence);
      ClaimedCounted(config, w, a);
      OnlyPromotionsNumber(config, w, a);
      assert config.maxAttempts * 0 == 0;
    }
  }

  lemma OnlyPromotionsNumber(config: DeliveryConfig, w: World, a: Action)
    requires !a.PromoteObservation?
    ensures Next(config, w, a).db.outboxSequence == w.db.outboxSequence
  {
    if IsDelivery(a) {
      DeliveryKeepsWatchSide(config, w, a);
    } else {
      StorageKeepsSequence(config, w, a);
    }
  }

  lemma ClaimedCounted(config: DeliveryConfig, w: World, a: Action)
    ensures CountUpTo(Elements(ClaimedIdsOf(config, w, a)), w.db.outboxSequence) == |ClaimedIdsOf(config, w, a)|
  {
    var ids := ClaimedIdsOf(config, w, a);
    if a.Claim? && PhaseOf(w, a.dispatcher).Claiming? && config.Valid() {
      DueAscending(w.db, PhaseOf(w, a.dispatcher).claimTime, 1, config.batchSize);
    }
    CountAll(ids, w.db.outboxSequence);
  }

  lemma StorageKeepsSequence(config: DeliveryConfig, w: World, a: Action)
    requires !IsDelivery(a) && !a.PromoteObservation?
    ensures Next(config, w, a).db.outboxSequence == w.db.outboxSequence
  {
    match a
    case PersistObservation(x, id, observation, now) => PersistKeepsOutbox(w.db, x, id, observation, now);
    case _ =>
  }

  /**
   The claim budget: with one dispatcher, the claims of a run and the attempts left at its end are paid
   for by the attempts left at its start, max_attempts per new event, and the claims stranded.
   */
  lemma {:induction false} ClaimBudget(config: DeliveryConfig, w: World, actions: seq<Action>, d: nat)
    requires Good(config, w, d) && Solo(actions, d)
    ensures var after := Run(config, w, actions);
            Claims(config, w, actions) + TotalOf(config, after, d)
            <= TotalOf(config, w, d) + config.maxAttempts * (after.db.outboxSequence - w.db.outboxSequence)
               + Stranded(config, w, actions)
    decreases actions
  {
    hide Next, Consistent, SoloOrderly, Accounted;
    if actions != [] {
      var mid := Next(config, w, actions[0]);
      NextWithinBudget(config, w, actions[0], d);
      NextGood(config, w, actions[0], d);
      ClaimBudget(config, mid, actions[1..], d);
      var end := Run(config, mid, actions[1..]);
      BudgetsAdd(config.maxAttempts, (TotalOf(config, w, d), w.db.outboxSequence),
                 (TotalOf(config, mid, d), mid.db.outboxSequence), (TotalOf(config, end, d), end.db.outboxSequence),
                 (|ClaimedIdsOf(config, w, actions[0])|, Claims(config, mid, actions[1..])),
                 (|LostBy(config, w, actions[0])|, Stranded(config, mid, actions[1..])));
    }
  }

  /** A budget kept over one step and over the rest is kept over both. */
  lemma BudgetsAdd(m: int, start: (int, int), mid: (int, int), end: (int, int), claimed: (int, int), lost: (int, int))
    requires claimed.0 + mid.0 <= start.0 + m * (mid.1 - start.1) + lost.0
    requires claimed.1 + end.0 <= mid.0 + m * (end.1 - mid.1) + lost.1
    ensures claimed.0 + claimed.1 + end.0 <= start.0 + m * (end.1 - start.1) + lost.0 + lost.1
  {
    assert m * (end.1 - start.1) == m * (mid.1 - start.1) + m * (end.1 - mid.1);
  }
}
