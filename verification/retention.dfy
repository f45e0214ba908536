/**
 Retention: what purge_before and delete_watch remove, how the reported counts relate, and how purges
 compose with each other and with the dispatcher's claims.
 */
module Retention {
  import opened Entities
  import opened Sequences
  import opened Tables
  import opened Consistency

  // ---------------------------------------------------------------- purges compose

  /** Deleting a set of outbox rows with what belongs to them, and a set of observations. */
  function Erase(db: Database, ids: set<nat>, observations: set<ObservationId>): Database {
    WithoutRows(db, ids).(observations := db.observations - observations)
  }

  lemma EraseErase(db: Database, ids: set<nat>, gone: set<ObservationId>, more: set<nat>, others: set<ObservationId>)
    ensures Erase(Erase(db, ids, gone), more, others) == Erase(db, ids + more, gone + others)
  {
    var once := Erase(db, ids, gone);
    var left, right := Erase(once, more, others), Erase(db, ids + more, gone + others);
    FilterFilter(db.attempts, (a: AttemptRow) => a.outboxId !in ids, (a: AttemptRow) => a.outboxId !in more,
                 (a: AttemptRow) => a.outboxId !in ids + more);
    assert left.attempts == right.attempts;
    assert EventIdsOf(db, ids) + EventIdsOf(once, more) == EventIdsOf(db, ids + more);
    assert left.events == right.events;
    assert left.outbox == right.outbox;
    assert left.observations == right.observations;
  }

  /** A row outside `ids` keeps its event, so it is a purge target after the erasure iff it was before. */
  lemma TargetsAfterErase(
    db: Database, ids: set<nat>, gone: set<ObservationId>, cutoff: Instant, watch: Option<WatchId>)
    requires EventsPaired(db.events, db.outbox)
    ensures PurgeTargets(Erase(db, ids, gone), cutoff, watch) == PurgeTargets(db, cutoff, watch) - ids
    ensures ExpiredObservations(Erase(db, ids, gone), cutoff, watch) == ExpiredObservations(db, cutoff, watch) - gone
  {
    var after := Erase(db, ids, gone);
    forall id | id in db.outbox && id !in ids
      ensures db.outbox[id].eventId in after.events
    {
    }
    forall o
      ensures IsAuthoritative(after, o) <==> IsAuthoritative(db, o)
    {
    }
  }

  lemma PurgeIsErase(db: Database, cutoff: Instant, watch: Option<WatchId>)
    ensures PurgeBefore(db, cutoff, watch)
            == Erase(db, PurgeTargets(db, cutoff, watch), ExpiredObservations(db, cutoff, watch))
  {
  }

  /** Two purges, of any cutoffs and scopes, delete the union of what each would delete. */
  lemma PurgePurge(db: Database, c1: Instant, w1: Option<WatchId>, c2: Instant, w2: Option<WatchId>)
    requires Consistent(db)
    ensures PurgeBefore(PurgeBefore(db, c1, w1), c2, w2)
            == Erase(db, PurgeTargets(db, c1, w1) + PurgeTargets(db, c2, w2),
                     ExpiredObservations(db, c1, w1) + ExpiredObservations(db, c2, w2))
  {
    var t1, x1 := PurgeTargets(db, c1, w1), ExpiredObservations(db, c1, w1);
    var t2, x2 := PurgeTargets(db, c2, w2), ExpiredObservations(db, c2, w2);
    TargetsAfterErase(db, t1, x1, c2, w2);
    EraseErase(db, t1, x1, t2 - t1, x2 - x1);
    assert t1 + (t2 - t1) == t1 + t2 && x1 + (x2 - x1) == x1 + x2;
  }

  lemma LaterCutoffTargetsMore(db: Database, c1: Instant, c2: Instant, watch: Option<WatchId>)
    requires c1 <= c2
    ensures PurgeTargets(db, c1, watch) + PurgeTargets(db, c2, watch) == PurgeTargets(db, c2, watch)
    ensures ExpiredObservations(db, c1, watch) + ExpiredObservations(db, c2, watch)
            == ExpiredObservations(db, c2, watch)
  {
  }

  lemma RemovedAddsUp(first: Database, second: Database, third: Database)
    ensures RowsRemoved(first, third) == Plus(RowsRemoved(first, second), RowsRemoved(second, third))
  {
  }

  /** A later cutoff of the same scope absorbs an earlier one, and the counts add up. */
  lemma LaterPurgeAbsorbs(db: Database, c1: Instant, c2: Instant, watch: Option<WatchId>)
    requires Consistent(db) && c1 <= c2
    ensures var once := PurgeBefore(db, c1, watch);
            var both := PurgeBefore(once, c2, watch);
            && both == PurgeBefore(db, c2, watch)
            && RowsRemoved(db, both) == Plus(RowsRemoved(db, once), RowsRemoved(once, both))
  {
    PurgePurge(db, c1, watch, c2, watch);
    LaterCutoffTargetsMore(db, c1, c2, watch);
    PurgeIsErase(db, c2, watch);
    RemovedAddsUp(db, PurgeBefore(db, c1, watch), PurgeBefore(db, c2, watch));
  }

  lemma PurgesCommute(db: Database, c1: Instant, w1: Option<WatchId>, c2: Instant, w2: Option<WatchId>)
    requires Consistent(db)
    ensures PurgeBefore(PurgeBefore(db, c1, w1), c2, w2) == PurgeBefore(PurgeBefore(db, c2, w2), c1, w1)
  {
    PurgePurge(db, c1, w1, c2, w2);
    PurgePurge(db, c2, w2, c1, w1);
    assert PurgeTargets(db, c1, w1) + PurgeTargets(db, c2, w2) == PurgeTargets(db, c2, w2) + PurgeTargets(db, c1, w1);
    assert ExpiredObservations(db, c1, w1) + ExpiredObservations(db, c2, w2)
        == ExpiredObservations(db, c2, w2) + ExpiredObservations(db, c1, w1);
  }

  function Plus(a: PurgeResult, b: PurgeResult): PurgeResult {
    PurgeResult(a.observationsDeleted + b.observationsDeleted,
                a.eventsDeleted + b.eventsDeleted,
                a.outboxRowsDeleted + b.outboxRowsDeleted,
                a.deliveryAttemptsDeleted + b.deliveryAttemptsDeleted,
                a.watchesDeleted + b.watchesDeleted)
  }

  /** Purging each watch in turn. */
  function PurgeEach(db: Database, cutoff: Instant, watches: seq<WatchId>): Database
    decreases watches
  {
    if watches == [] then db else PurgeEach(PurgeBefore(db, cutoff, Some(watches[0])), cutoff, watches[1..])
  }

  function TargetsOfAll(db: Database, cutoff: Instant, watches: seq<WatchId>): set<nat> {
    set id | id in db.outbox && IsPurgeTarget(db, id, cutoff, None)
             && db.events[db.outbox[id].eventId].event.watchId in watches
  }

  function ExpiredOfAll(db: Database, cutoff: Instant, watches: seq<WatchId>): set<ObservationId> {
    set o | o in ExpiredObservations(db, cutoff, None) && db.observations[o].watchId in watches
  }

  lemma EachTargets(db: Database, cutoff: Instant, w: WatchId, rest: seq<WatchId>, x: set<ObservationId>)
    requires EventsPaired(db.events, db.outbox)
    ensures var t := PurgeTargets(db, cutoff, Some(w));
            t + TargetsOfAll(Erase(db, t, x), cutoff, rest) == TargetsOfAll(db, cutoff, [w] + rest)
  {
    var t := PurgeTargets(db, cutoff, Some(w));
    var once := Erase(db, t, x);
    TargetsAfterErase(db, t, x, cutoff, None);
    forall id | id in db.outbox
      ensures id in t + TargetsOfAll(once, cutoff, rest) <==> id in TargetsOfAll(db, cutoff, [w] + rest)
    {
      assert id in PurgeTargets(once, cutoff, None) <==> id in PurgeTargets(db, cutoff, None) && id !in t;
    }
  }

  lemma EachExpired(db: Database, cutoff: Instant, w: WatchId, rest: seq<WatchId>, t: set<nat>)
    requires EventsPaired(db.events, db.outbox)
    ensures var x := ExpiredObservations(db, cutoff, Some(w));
            x + ExpiredOfAll(Erase(db, t, x), cutoff, rest) == ExpiredOfAll(db, cutoff, [w] + rest)
  {
    var x := ExpiredObservations(db, cutoff, Some(w));
    var once := Erase(db, t, x);
    TargetsAfterErase(db, t, x, cutoff, None);
    forall o | o in db.observations
      ensures o in x + ExpiredOfAll(once, cutoff, rest) <==> o in ExpiredOfAll(db, cutoff, [w] + rest)
    {
    }
  }

  lemma EachStep(db: Database, cutoff: Instant, w: WatchId, rest: seq<WatchId>)
    requires EventsPaired(db.events, db.outbox)
    ensures var t, x := PurgeTargets(db, cutoff, Some(w)), ExpiredObservations(db, cutoff, Some(w));
            && t + TargetsOfAll(Erase(db, t, x), cutoff, rest) == TargetsOfAll(db, cutoff, [w] + rest)
            && x + ExpiredOfAll(Erase(db, t, x), cutoff, rest) == ExpiredOfAll(db, cutoff, [w] + rest)
  {
    hide EventsPaired, PurgeTargets, ExpiredObservations, TargetsOfAll, ExpiredOfAll, Erase;
    EachTargets(db, cutoff, w, rest, ExpiredObservations(db, cutoff, Some(w)));
    EachExpired(db, cutoff, w, rest, PurgeTargets(db, cutoff, Some(w)));
  }

  lemma EraseNothing(db: Database)
    ensures Erase(db, {}, {}) == db
  {
    var none: set<nat> := {};
    assert EventIdsOf(db, none) == {};
    FilterAll(db.attempts, (a: AttemptRow) => a.outboxId !in none);
    assert db.outbox - none == db.outbox && db.events - {} == db.events;
    assert db.observations - {} == db.observations;
    assert WithoutOutboxIds(db.attempts, none) == db.attempts;
  }

  lemma {:induction false} PurgeEachErases(db: Database, cutoff: Instant, watches: seq<WatchId>)
    requires Consistent(db)
    ensures PurgeEach(db, cutoff, watches)
            == Erase(db, TargetsOfAll(db, cutoff, watches), ExpiredOfAll(db, cutoff, watches))
    decreases watches
  {
    if watches == [] {
      assert TargetsOfAll(db, cutoff, watches) == {} && ExpiredOfAll(db, cutoff, watches) == {};
      EraseNothing(db);
    } else {
      var w, rest := watches[0], watches[1..];
      var t, x := PurgeTargets(db, cutoff, Some(w)), ExpiredObservations(db, cutoff, Some(w));
      var once := PurgeBefore(db, cutoff, Some(w));
      PurgeConsistent(db, cutoff, Some(w));
      PurgeEachErases(once, cutoff, rest);
      EraseErase(db, t, x, TargetsOfAll(once, cutoff, rest), ExpiredOfAll(once, cutoff, rest));
      EachStep(db, cutoff, w, rest);
      assert watches == [w] + rest;
    }
  }

  /** Purging every watch in turn, in any order, is the global purge. */
  lemma {:induction false} PurgeWatchByWatch(db: Database, cutoff: Instant, watches: seq<WatchId>)
    requires Consistent(db)
    requires forall w :: w in db.watches ==> w in watches
    ensures PurgeEach(db, cutoff, watches) == PurgeBefore(db, cutoff, None)
  {
    PurgeEachErases(db, cutoff, watches);
    assert TargetsOfAll(db, cutoff, watches) == PurgeTargets(db, cutoff, None);
    assert ExpiredOfAll(db, cutoff, watches) == ExpiredObservations(db, cutoff, None);
  }

  // ---------------------------------------------------------------- purges and claims

  lemma DueAfterPurge(db: Database, cutoff: Instant, watch: Option<WatchId>, id: nat, now: Instant)
    requires EventsPaired(db.events, db.outbox)
    ensures Due(PurgeBefore(db, cutoff, watch), id, now) <==> Due(db, id, now)
  {
  }

  lemma {:induction false} DueFromAfterPurge(
    db: Database, cutoff: Instant, watch: Option<WatchId>, now: Instant, id: nat, limit: nat)
    requires EventsPaired(db.events, db.outbox)
    ensures DueFrom(PurgeBefore(db, cutoff, watch), now, id, limit) == DueFrom(db, now, id, limit)
    decreases db.outboxSequence + 1 - id
  {
    if limit > 0 && id <= db.outboxSequence {
      DueAfterPurge(db, cutoff, watch, id, now);
      assert PurgeBefore(db, cutoff, watch).outboxSequence == db.outboxSequence;
      hide EventsPaired, Due, PurgeBefore;
      DueFromAfterPurge(db, cutoff, watch, now, id + 1, limit - 1);
      DueFromAfterPurge(db, cutoff, watch, now, id + 1, limit);
    }
  }

  lemma TargetsAfterClaim(db: Database, ids: seq<nat>, now: Instant, cutoff: Instant, watch: Option<WatchId>)
    requires forall id :: id in ids ==> id in db.outbox && !Terminal(db.outbox[id].status)
    ensures var after := db.(outbox := LockAll(db.outbox, ids, now));
            && PurgeTargets(after, cutoff, watch) == PurgeTargets(db, cutoff, watch)
            && ExpiredObservations(after, cutoff, watch) == ExpiredObservations(db, cutoff, watch)
            && EventIdsOf(after, PurgeTargets(db, cutoff, watch)) == EventIdsOf(db, PurgeTargets(db, cutoff, watch))
  {
    var after := db.(outbox := LockAll(db.outbox, ids, now));
    forall o
      ensures IsAuthoritative(after, o) <==> IsAuthoritative(db, o)
    {
    }
  }

  lemma LockAllMinus(outbox: Outbox, ids: seq<nat>, now: Instant, targets: set<nat>)
    ensures LockAll(outbox - targets, ids, now) == LockAll(outbox, ids, now) - targets
  {
  }

  lemma ClaimsAfterPurge(db: Database, purged: Database, ids: seq<nat>, now: Instant)
    requires forall id :: id in ids ==> Due(db, id, now) && id in purged.outbox && purged.outbox[id] == db.outbox[id]
    requires forall id :: id in ids ==> Due(purged, id, now)
    requires forall e :: e in purged.events ==> e in db.events && purged.events[e] == db.events[e]
    ensures forall i :: 0 <= i < |ids| ==>
              Due(purged, ids[i], now) && Due(db, ids[i], now) && ClaimOf(purged, ids[i]) == ClaimOf(db, ids[i])
  {
    assert forall i :: 0 <= i < |ids| ==> ids[i] in ids;
  }

  /** A purge before a claim, or after it: the same claims are returned and the same tables remain. */
  lemma PurgeCommutesWithClaim(
    db: Database, cutoff: Instant, watch: Option<WatchId>, now: Instant, limit: int)
    requires EventsPaired(db.events, db.outbox)
    ensures var direct, after := ClaimDue(db, now, limit), ClaimDue(PurgeBefore(db, cutoff, watch), now, limit);
            && (direct.Ok? <==> after.Ok?)
            && (direct.Ok? ==>
                  && after.value.claims == direct.value.claims
                  && after.value.db == PurgeBefore(direct.value.db, cutoff, watch))
  {
    if 1 <= limit <= MAX_DELIVERY_BATCH_SIZE {
      var ids := DueFrom(db, now, 1, limit);
      DueFromAfterPurge(db, cutoff, watch, now, 1, limit);
      SameClaims(db, cutoff, watch, now, limit);
      LockedAndPurged(db, ids, now, cutoff, watch);
      hide EventsPaired, DueFrom, LockAll, PurgeBefore, Due;
    }
  }

  lemma {:induction false} SameClaims(db: Database, cutoff: Instant, watch: Option<WatchId>, now: Instant, limit: nat)
    requires EventsPaired(db.events, db.outbox)
    ensures var ids, purged := DueFrom(db, now, 1, limit), PurgeBefore(db, cutoff, watch);
            forall k :: 0 <= k < |ids| ==>
              && ids[k] in db.outbox && db.outbox[ids[k]].eventId in db.events
              && ids[k] in purged.outbox && purged.outbox[ids[k]].eventId in purged.events
              && ClaimOf(purged, ids[k]) == ClaimOf(db, ids[k])
  {
    var ids, purged := DueFrom(db, now, 1, limit), PurgeBefore(db, cutoff, watch);
    DueFromAfterPurge(db, cutoff, watch, now, 1, limit);
    forall k | 0 <= k < |ids|
      ensures Due(db, ids[k], now) && Due(purged, ids[k], now)
    {
      assert DueFrom(purged, now, 1, limit)[k] == ids[k];
    }
    hide DueFrom, EventsPaired;
  }

  /** Locking unpurged rows and purging may change places. */
  lemma LockedAndPurged(db: Database, ids: seq<nat>, now: Instant, cutoff: Instant, watch: Option<WatchId>)
    requires forall id :: id in ids ==> Due(db, id, now)
    ensures PurgeBefore(db.(outbox := LockAll(db.outbox, ids, now)), cutoff, watch)
            == var purged := PurgeBefore(db, cutoff, watch); purged.(outbox := LockAll(purged.outbox, ids, now))
  {
    TargetsAfterClaim(db, ids, now, cutoff, watch);
    LockAllMinus(db.outbox, ids, now, PurgeTargets(db, cutoff, watch));
    hide Due, LockAll, PurgeTargets, ExpiredObservations, EventIdsOf;
  }

  // ---------------------------------------------------------------- counts

  function AttemptsOver(outbox: Outbox, ids: set<nat>, n: nat): nat {
    if n == 0 then 0
    else AttemptsOver(outbox, ids, n - 1) + if n in ids && n in outbox then outbox[n].attempts else 0
  }

  function LogsOver(attempts: seq<AttemptRow>, ids: set<nat>, n: nat): nat {
    if n == 0 then 0 else LogsOver(attempts, ids, n - 1) + if n in ids then |LogOf(attempts, n)| else 0
  }

  lemma {:induction false} LogsOverStep(attempts: seq<AttemptRow>, ids: set<nat>, n: nat)
    requires attempts != []
    ensures LogsOver(attempts, ids, n)
            == LogsOver(attempts[1..], ids, n)
               + if attempts[0].outboxId in ids && 1 <= attempts[0].outboxId <= n then 1 else 0
  {
    if n > 0 {
      LogsOverStep(attempts, ids, n - 1);
    }
  }

  lemma {:induction false} LogsOverNothing(ids: set<nat>, n: nat)
    ensures LogsOver([], ids, n) == 0
  {
    if n > 0 {
      LogsOverNothing(ids, n - 1);
    }
  }

  /** Deleting by outbox_id removes as many attempts as the deleted rows' logs hold. */
  lemma {:induction false} RemovedAttempts(attempts: seq<AttemptRow>, ids: set<nat>, n: nat)
    requires forall a :: a in attempts ==> 1 <= a.outboxId <= n
    ensures |attempts| - |WithoutOutboxIds(attempts, ids)| == LogsOver(attempts, ids, n)
  {
    if attempts == [] {
      LogsOverNothing(ids, n);
    } else {
      LogsOverStep(attempts, ids, n);
      RemovedAttempts(attempts[1..], ids, n);
    }
  }

  lemma {:induction false} LogsAreAttempts(outbox: Outbox, attempts: seq<AttemptRow>, ids: set<nat>, n: nat)
    requires LogsExact(outbox, attempts)
    requires forall id :: id in ids ==> id in outbox
    ensures LogsOver(attempts, ids, n) == AttemptsOver(outbox, ids, n)
  {
    if n > 0 {
      LogsAreAttempts(outbox, attempts, ids, n - 1);
    }
  }

  lemma {:induction false} EventIdsCount(db: Database, ids: set<nat>)
    requires EventsPaired(db.events, db.outbox)
    requires forall id :: id in ids ==> id in db.outbox
    ensures |EventIdsOf(db, ids)| == |ids|
    decreases |ids|
  {
    if ids != {} {
      var id :| id in ids;
      var rest := ids - {id};
      EventIdsCount(db, rest);
      assert EventIdsOf(db, ids) == EventIdsOf(db, rest) + {db.outbox[id].eventId};
      assert db.outbox[id].eventId !in EventIdsOf(db, rest);
    } else {
      assert EventIdsOf(db, ids) == {};
    }
  }

  lemma MapMinus<K, V>(m: map<K, V>, keys: set<K>)
    requires keys <= m.Keys
    ensures |m - keys| == |m| - |keys|
  {
    assert (m - keys).Keys == m.Keys - keys;
    assert |(m - keys).Keys| == |m - keys| && |m.Keys| == |m|;
  }

  lemma MapMinusOne<K, V>(m: map<K, V>, key: K)
    ensures |m| - |m - {key}| == if key in m then 1 else 0
  {
    if key in m {
      MapMinus(m, {key});
    } else {
      assert m - {key} == m;
    }
  }

  lemma {:induction false} CascadeAttempts(db: Database, ids: set<nat>)
    requires OutboxNumbered(db.outbox, db.outboxSequence) && AttemptsLinked(db.attempts, db.outbox)
    requires LogsExact(db.outbox, db.attempts)
    requires forall id :: id in ids ==> id in db.outbox
    ensures |db.attempts| - |WithoutOutboxIds(db.attempts, ids)| == AttemptsOver(db.outbox, ids, db.outboxSequence)
  {
    hide LogsExact, WithoutOutboxIds, AttemptsOver, LogsOver;
    RemovedAttempts(db.attempts, ids, db.outboxSequence);
    LogsAreAttempts(db.outbox, db.attempts, ids, db.outboxSequence);
  }

  lemma CascadeEvents(db: Database, ids: set<nat>)
    requires EventsPaired(db.events, db.outbox)
    requires forall id :: id in ids ==> id in db.outbox
    ensures |db.events| - |db.events - EventIdsOf(db, ids)| == |ids|
  {
    EventIdsCount(db, ids);
    assert EventIdsOf(db, ids) <= db.events.Keys;
    hide EventsPaired, EventIdsOf;
    MapMinus(db.events, EventIdsOf(db, ids));
  }

  /** A cascade over a set of live outbox rows deletes as many events as rows, and the sum of their attempts. */
  lemma {:induction false} CascadeCounts(db: Database, ids: set<nat>)
    requires Consistent(db)
    requires forall id :: id in ids ==> id in db.outbox
    ensures |db.outbox| - |db.outbox - ids| == |ids|
    ensures |db.events| - |db.events - EventIdsOf(db, ids)| == |ids|
    ensures |db.attempts| - |WithoutOutboxIds(db.attempts, ids)| == AttemptsOver(db.outbox, ids, db.outboxSequence)
  {
    hide OutboxNumbered, EventsPaired, LogsExact, AttemptsLinked, EventIdsOf, AttemptsOver, WithoutOutboxIds;
    CascadeAttempts(db, ids);
    CascadeEvents(db, ids);
    assert ids <= db.outbox.Keys;
    hide Consistent;
    MapMinus(db.outbox, ids);
  }

  lemma PurgedCounts(db: Database, after: Database, observations: int, rows: int, attempts: int)
    requires |db.observations| - |after.observations| == observations
    requires |db.outbox| - |after.outbox| == rows && |db.events| - |after.events| == rows
    requires |db.attempts| - |after.attempts| == attempts && after.watches == db.watches
    ensures RowsRemoved(db, after) == PurgeResult(observations, rows, rows, attempts, 0)
  {
  }

  /** purge_before: one event per outbox row, the sum of the rows' attempts, and never a watch. */
  lemma PurgeConservation(db: Database, cutoff: Instant, watch: Option<WatchId>)
    requires Consistent(db)
    ensures var targets := PurgeTargets(db, cutoff, watch);
            RowsRemoved(db, PurgeBefore(db, cutoff, watch))
            == PurgeResult(|ExpiredObservations(db, cutoff, watch)|, |targets|, |targets|,
                           AttemptsOver(db.outbox, targets, db.outboxSequence), 0)
  {
    assert ExpiredObservations(db, cutoff, watch) <= db.observations.Keys;
    assert forall id :: id in PurgeTargets(db, cutoff, watch) ==> id in db.outbox;
    hide Consistent, PurgeTargets, ExpiredObservations, AttemptsOver, EventIdsOf, WithoutOutboxIds;
    var targets, expired := PurgeTargets(db, cutoff, watch), ExpiredObservations(db, cutoff, watch);
    CascadeCounts(db, targets);
    MapMinus(db.observations, expired);
    hide RowsRemoved;
    PurgedCounts(db, PurgeBefore(db, cutoff, watch), |expired|, |targets|,
                 AttemptsOver(db.outbox, targets, db.outboxSequence));
  }

  /** delete_watch removes attempts by event id; the invariant makes that the same as by outbox id. */
  lemma WatchAttempts(db: Database, w: WatchId)
    requires Consistent(db)
    ensures WithoutEventIds(db.attempts, EventsOfWatch(db, w))
            == WithoutOutboxIds(db.attempts, OutboxOfEvents(db, EventsOfWatch(db, w)))
  {
    var events := EventsOfWatch(db, w);
    var ids := OutboxOfEvents(db, events);
    FilterCongruent(db.attempts, (a: AttemptRow) => a.eventId !in events, (a: AttemptRow) => a.outboxId !in ids);
  }

  lemma DeletedCounts(db: Database, w: WatchId, after: Database, n: int, m: int)
    requires |db.outbox| - |after.outbox| == n && |db.events| - |after.events| == n
    requires |db.attempts| - |after.attempts| == m
    requires after.observations == db.observations - ObservationsOfWatch(db, w)
    requires after.watches == db.watches - {w}
    ensures RowsRemoved(db, after)
            == PurgeResult(|ObservationsOfWatch(db, w)|, n, n, m, if w in db.watches then 1 else 0)
  {
    MapMinus(db.observations, ObservationsOfWatch(db, w));
    MapMinusOne(db.watches, w);
  }

  lemma DeleteConservation(db: Database, w: WatchId, allow: bool)
    requires Consistent(db) && DeleteWatch(db, w, allow).Ok?
    ensures var ids := OutboxOfEvents(db, EventsOfWatch(db, w));
            RowsRemoved(db, DeleteWatch(db, w, allow).value)
            == PurgeResult(|ObservationsOfWatch(db, w)|, |ids|, |ids|,
                           AttemptsOver(db.outbox, ids, db.outboxSequence), if w in db.watches then 1 else 0)
  {
    var ids := OutboxOfEvents(db, EventsOfWatch(db, w));
    WatchAttempts(db, w);
    WatchOutboxEvents(db, w);
    CascadeCounts(db, ids);
    DeletedCounts(db, w, DeleteWatch(db, w, allow).value, |ids|, AttemptsOver(db.outbox, ids, db.outboxSequence));
  }
}
