/**
 The main results about whole runs, stated from the empty database on: nothing is assumed of a state
 but that some steps of the machine lead to it.
 */
module Theorems {
  import opened Entities
  import opened Tables
  import opened Consistency
  import opened Protocol
  import opened Safety
  import opened Accounting
  import opened Guarantees
  import opened Lineage
  import opened Authority
  import opened Recovery
  import opened Progress
  import Dispatcher
  import opened Steady
  import opened Drain

  /** The state that the steps lead to. */
  function Reached(config: DeliveryConfig, steps: seq<Action>): World {
    Run(config, START, steps)
  }

  lemma ReachedIsGood(config: DeliveryConfig, steps: seq<Action>, d: nat)
    requires config.Valid() && Solo(steps, d)
    ensures Good(config, Reached(config, steps), d)
  {
    StartIsSafe();
    StartIsAccounted(config);
    RunGood(config, START, steps, d);
  }

  // ---------------------------------------------------------------- authority, any interleaving

  /**
   The committed promotions of a watch since its row was created: the first saw no authority, each
   later one saw exactly what the one before had installed and is strictly newer, and the last of them
   is the authority.
   */
  lemma CommittedPromotionsFormAChain(config: DeliveryConfig, steps: seq<Action>, x: WatchId)
    ensures var w := Reached(config, steps);
            var chain := TransitionsOf(w, x);
            && (forall i :: 0 <= i < |chain| ==>
                  && chain[i].previous == (if i == 0 then None else Some(chain[i - 1].current))
                  && chain[i].current.status == Valid)
            && (forall i, j :: 0 <= i < j < |chain| ==> chain[i].current.observedAt < chain[j].current.observedAt)
            && ReadAuthoritative(w.db, x) == if chain == [] then None else Some(chain[|chain| - 1].current)
  {
    var w := Reached(config, steps);
    var chain := TransitionsOf(w, x);
    StartIsSafe();
    RunConsistent(config, START, steps);
    RunChained(config, START, steps);
    assert Chain(chain, x, w.db.authority, w.db.observations);
    assert x in w.db.authority ==> RowBacked(w.db.authority[x], x, w.db.observations);
    hide Consistent, Chained, Reached;
    forall i, j | 0 <= i < j < |chain|
      ensures chain[i].current.observedAt < chain[j].current.observedAt
    {
      ChainRises(chain, x, w.db.authority, w.db.observations, i, j);
    }
  }

  /** Between calls of delete_watch, authority stays, or becomes strictly newer. */
  lemma AuthorityNeverGoesBack(config: DeliveryConfig, before: seq<Action>, steps: seq<Action>, x: WatchId)
    requires NeverDeletes(steps, x)
    ensures var early, late := Reached(config, before), Reached(config, before + steps);
            x in early.db.authority ==>
              && x in late.db.authority
              && (ReadAuthoritative(late.db, x) == ReadAuthoritative(early.db, x)
                  || late.db.authority[x].observedAt > early.db.authority[x].observedAt)
  {
    var early := Reached(config, before);
    RunAppend(config, START, before, steps);
    StartIsSafe();
    RunConsistent(config, START, before);
    RunChained(config, START, before);
    hide Consistent, Chained;
    if x in early.db.authority {
      AuthorityOnlyRises(config, early, steps, x);
    }
  }

  /**
   After any run, authority is the first newest of the observations promoted without failure since the
   watch was last deleted.
   */
  lemma {:induction false} AuthorityIsFirstNewest(config: DeliveryConfig, steps: seq<Action>, x: WatchId)
    ensures ReadAuthoritative(Reached(config, steps).db, x) == FirstNewest(PromotedIn(config, START, steps, x, []))
  {
    StartIsSafe();
    RunAuthority(config, START, steps, x, []);
  }

  /**
   Two runs that promote the same observations of a watch, with distinct times, end with the same
   authority: however the promotions are ordered, repeated, and interleaved with other steps.
   */
  lemma {:induction false} OrderOfPromotionsIsIrrelevant(
    config: DeliveryConfig, one: seq<Action>, other: seq<Action>, x: WatchId)
    requires var a, b := PromotedIn(config, START, one, x, []), PromotedIn(config, START, other, x, []);
             && (forall o :: o in a <==> o in b)
             && (forall o, p :: o in a && p in a && o.observedAt == p.observedAt ==> o == p)
    ensures ReadAuthoritative(Reached(config, one).db, x) == ReadAuthoritative(Reached(config, other).db, x)
  {
    hide Reached, PromotedIn, ReadAuthoritative, FirstNewest;
    AuthorityIsFirstNewest(config, one, x);
    AuthorityIsFirstNewest(config, other, x);
    SameFirstNewest(PromotedIn(config, START, one, x, []), PromotedIn(config, START, other, x, []));
  }

  // ---------------------------------------------------------------- delivery, any interleaving

  /** Once a row is gone, or its attempt acknowledged, a claim on it is stale in every later state. */
  lemma StaleClaimsStayStale(
    config: DeliveryConfig, before: seq<Action>, steps: seq<Action>, claim: ClaimedEvent, now: Instant,
    error: string, retryAt: Option<Instant>)
    requires config.Valid()
    requires var w := Reached(config, before);
             claim.outboxId in w.archive || (claim.outboxId, claim.attempts + 1) in w.acks
    ensures var late := Reached(config, before + steps);
            && RecordSuccess(late.db, claim, now) == Err(StaleClaim)
            && RecordFailure(late.db, claim, error, retryAt, now) == Err(StaleClaim)
  {
    Reachable(config, before);
    RunAppend(config, START, before, steps);
    hide Consistent, Accounted, Chained, Counted;
    SpentClaimStaysStale(config, Reached(config, before), steps, claim, now, error, retryAt);
  }

  /**
   An event, once committed, keeps its outbox id in every later state: the row of that id stands for this
   event, holds it word for word while it is live, and has met one of the fates of `Fate`.
   */
  lemma CommittedEventIsNeverLost(config: DeliveryConfig, before: seq<Action>, steps: seq<Action>, e: EventId)
    requires config.Valid() && e in Reached(config, before).db.events
    ensures var early, late := Reached(config, before), Reached(config, before + steps);
            exists id :: id in early.db.outbox && early.db.outbox[id].eventId == e
              && id in Rows(late) && Rows(late)[id].eventId == e && Fate(config, late, id)
              && (id in late.db.outbox ==> e in late.db.events && late.db.events[e] == early.db.events[e])
  {
    var early, late := Reached(config, before), Reached(config, before + steps);
    Reachable(config, before);
    RunAppend(config, START, before, steps);
    var id := RowOfEvent(early.db, e);
    hide Consistent, Accounted, Chained, Counted, Fate;
    RowKeepsEvent(config, early, steps, id);
    Reachable(config, before + steps);
    CommittedIdIsNumbered(config, late, id);
    NoEventIsLost(config, before + steps, id);
  }

  lemma RowOfEvent(db: Database, e: EventId) returns (id: nat)
    requires Consistent(db) && e in db.events
    ensures id in db.outbox && db.outbox[id].eventId == e
  {
    id :| id in db.outbox && db.outbox[id].eventId == e;
  }

  lemma CommittedIdIsNumbered(config: DeliveryConfig, w: World, id: nat)
    requires Accounted(config, w) && id in Rows(w)
    ensures 1 <= id <= w.db.outboxSequence
  {
  }

  // ---------------------------------------------------------------- one dispatcher

  /** The recovery invariant, spelled out. */
  lemma DeliveringRowsAreInHand(config: DeliveryConfig, steps: seq<Action>, d: nat)
    requires config.Valid() && Solo(steps, d)
    ensures var w := Reached(config, steps);
            match PhaseOf(w, d)
            case Idle(recovered) => recovered ==> DeliveringIds(w.db.outbox) == {}
            case Recovering(_) => true
            case Claiming(_) => DeliveringIds(w.db.outbox) == {}
            case Sending(pending) => DeliveringIds(w.db.outbox) == PendingIds(pending) * w.db.outbox.Keys
            case Answered(pending, _) => DeliveringIds(w.db.outbox) == PendingIds(pending) * w.db.outbox.Keys
  {
    ReachedIsGood(config, steps, d);
    hide Consistent, Accounted, Run;
    assert SoloOrderly(Reached(config, steps), d);
  }

  /**
   From any state with the dispatcher idle, a row is passed over while due at most S / batch_size times,
   where S sums the attempts left over the non-terminal rows before it, plus the claims stranded: those
   in hand when an interruption, a broken sink call, a deleted row or an unrepresentable retry time made
   the dispatcher give up. Promotions and purges in between never raise the bound.
   */
  lemma {:induction false} RowsWaitBoundedly(
    config: DeliveryConfig, before: seq<Action>, steps: seq<Action>, d: nat, r: nat)
    requires config.Valid() && Solo(before, d) && Solo(steps, d)
    requires PhaseOf(Reached(config, before), d).Idle? && 1 <= r <= Reached(config, before).db.outboxSequence
    ensures Skips(config, Reached(config, before), steps, r) <= WaitBound(config, Reached(config, before), steps, r)
  {
    hide Good, Reached, Solo, Skips, WaitBound;
    ReachedIsGood(config, before, d);
    BoundedWaiting(config, Reached(config, before), steps, d, r);
  }

  /**
   Without such steps the bound is S / batch_size. No step may interrupt the dispatcher, delete waiting
   events, or acknowledge a failure whose retry time is unrepresentable.
   */
  lemma {:induction false} RowsWaitSteadily(
    config: DeliveryConfig, before: seq<Action>, steps: seq<Action>, d: nat, r: nat)
    requires config.Valid() && Solo(before, d) && Solo(steps, d)
    requires PhaseOf(Reached(config, before), d).Idle? && 1 <= r <= Reached(config, before).db.outboxSequence
    requires NeverHindered(config, Reached(config, before), steps)
    ensures Skips(config, Reached(config, before), steps, r) <= SteadyBound(config, Reached(config, before), r)
  {
    ReachedIsGood(config, before, d);
    assert HandHoused(Reached(config, before), d);
    hide Good, HandHoused, Reached, Solo, Skips, SteadyBound, NeverHindered;
    UnhinderedRun(config, Reached(config, before), steps, d);
    SteadyWaiting(config, Reached(config, before), steps, d, r);
  }

  /** All claims ever made: at most max_attempts per event committed, plus the claims stranded. */
  lemma {:induction false} ClaimsAreBounded(config: DeliveryConfig, steps: seq<Action>, d: nat)
    requires config.Valid() && Solo(steps, d)
    ensures Claims(config, START, steps)
            <= config.maxAttempts * Reached(config, steps).db.outboxSequence + Stranded(config, START, steps)
  {
    hide Good, TotalOf, Claims, Stranded, Solo;
    NothingToClaimAtFirst(config, d);
    ReachedIsGood(config, steps, d);
    AttemptsLeftOver(config, Reached(config, steps), d);
    ClaimBudget(config, START, steps, d);
    hide Run;
    assert START.db.outboxSequence == 0;
  }

  /** Without such steps, at most max_attempts per event committed. */
  lemma {:induction false} SteadyClaimsAreBounded(config: DeliveryConfig, steps: seq<Action>, d: nat)
    requires config.Valid() && Solo(steps, d) && NeverHindered(config, START, steps)
    ensures Claims(config, START, steps) <= config.maxAttempts * Reached(config, steps).db.outboxSequence
  {
    NothingToClaimAtFirst(config, d);
    assert HandHoused(START, d);
    hide Good, HandHoused, Reached, Solo, Claims, NeverHindered, Stranded, TotalOf;
    UnhinderedRun(config, START, steps, d);
    StrandedNothingIff(config, START, steps);
    ClaimsAreBounded(config, steps, d);
  }

  lemma NothingToClaimAtFirst(config: DeliveryConfig, d: nat)
    requires config.Valid()
    ensures Good(config, START, d) && TotalOf(config, START, d) == 0
  {
    StartIsSafe();
    StartIsAccounted(config);
  }

  lemma AttemptsLeftOver(config: DeliveryConfig, w: World, d: nat)
    requires Good(config, w, d)
    ensures TotalOf(config, w, d) >= 0
  {
    hide Consistent, SoloOrderly;
    PotentialOfNonNegative(config, w, d, w.db.outboxSequence);
  }

  /**
   From any state with the dispatcher idle, uninterrupted calls whose clocks pass the retry times they
   meet bring every event to DELIVERED or DEAD, after no more calls than attempts are left, while other
   actors may record evidence, purge, and delete watches that have nothing undelivered.
   */
  lemma {:induction false} OutboxDrains(
    config: DeliveryConfig, before: seq<Action>, d: nat, calls: seq<Dispatcher.Surroundings>)
    requires config.Valid() && Solo(before, d) && PhaseOf(Reached(config, before), d).Idle?
    requires Quiet(config, Reached(config, before), d, calls)
    requires |calls| >= TotalOf(config, Reached(config, before), d)
    ensures AllTerminal(Repeat(config, Reached(config, before), d, calls).db.outbox)
  {
    ReachedIsGood(config, before, d);
    hide Good, Reached, Quiet, AllTerminal, TotalOf;
    DrainTerminates(config, Reached(config, before), d, calls);
  }

  /** In particular a sink that works drains any reachable outbox, whatever failed before. */
  lemma {:induction false} WorkingSinkDrains(
    config: DeliveryConfig, before: seq<Action>, d: nat, s: Dispatcher.Surroundings, n: nat)
    requires config.Valid() && Solo(before, d) && PhaseOf(Reached(config, before), d).Idle?
    requires Uninterrupted(config, s) && forall k :: s.sink(k) == ReturnedNone
    requires PastEveryRetry(Reached(config, before).db.outbox, s.claimTime.value)
    requires n >= TotalOf(config, Reached(config, before), d)
    ensures AllTerminal(Repeat(config, Reached(config, before), d, seq(n, _ => s)).db.outbox)
  {
    ReachedIsGood(config, before, d);
    hide Good, Reached, Quiet, AllTerminal, TotalOf, Uninterrupted, PastEveryRetry, Repeat;
    assert WorksFrom(config, Reached(config, before), d, s);
    hide WorksFrom;
    WorkingSinkIsQuiet(config, Reached(config, before), d, s, n);
    DrainTerminates(config, Reached(config, before), d, seq(n, _ => s));
  }

  /** Nothing fails, the sink returns None, and nobody else acts. */
  function Calm(now: Instant): Dispatcher.Surroundings {
    Dispatcher.Surroundings(Some(now), false, false, false, _ => ReturnedNone, _ => Some(now), _ => false,
                            _ => false, [], _ => [], _ => [])
  }

  lemma CalmIsUninterrupted(config: DeliveryConfig, now: Instant)
    ensures Uninterrupted(config, Calm(now))
  {
  }

  /** Whatever the policy is and whatever has happened, an idle dispatcher can drain the outbox. */
  lemma {:induction false} EveryOutboxCanDrain(config: DeliveryConfig, before: seq<Action>, d: nat)
    requires config.Valid() && Solo(before, d) && PhaseOf(Reached(config, before), d).Idle?
    ensures exists calls :: Quiet(config, Reached(config, before), d, calls)
                            && AllTerminal(Repeat(config, Reached(config, before), d, calls).db.outbox)
  {
    var w, now: Instant := Reached(config, before), INSTANT_LIMIT - 1;
    var s := Calm(now);
    assert PastEveryRetry(w.db.outbox, now);
    CalmIsUninterrupted(config, now);
    ReachedIsGood(config, before, d);
    AttemptsLeftOver(config, w, d);
    hide Good, Reached, Quiet, AllTerminal, TotalOf, Uninterrupted, PastEveryRetry, Repeat;
    var n: nat := TotalOf(config, w, d);
    assert WorksFrom(config, w, d, s);
    hide WorksFrom;
    WorkingSinkIsQuiet(config, w, d, s, n);
    DrainTerminates(config, w, d, seq(n, _ => s));
  }
}
