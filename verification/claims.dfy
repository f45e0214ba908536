/**
 What a committed claim is, column by column and without its scan: the first rows in outbox_id order that
 wait and whose retry time has come, locked as they stood.
 */
module Claims {
  import opened Entities
  import opened Tables
  import opened Consistency
  import opened Recovery
  import opened Progress

  /** A row that may be claimed: it waits for delivery, and not beyond `now`. */
  predicate Claimable(row: OutboxRow, now: Instant) {
    && (row.status == Pending || row.status == Retry)
    && row.nextAttemptAt.Some? && row.nextAttemptAt.value <= now
  }

  function ClaimableIds(db: Database, now: Instant): set<nat> {
    set id | id in db.outbox && Claimable(db.outbox[id], now)
  }

  /** The claim query joins the events, which leaves out no row. */
  lemma DueIffClaimable(db: Database, now: Instant, id: nat)
    requires EventsPaired(db.events, db.outbox)
    ensures Due(db, id, now) <==> id in ClaimableIds(db, now)
  {
  }

  /** `ids` are the smallest `limit` members of `due`, or all of them, in order. */
  ghost predicate FirstOf(due: set<nat>, limit: nat, ids: seq<nat>) {
    && |ids| <= limit
    && (forall i, j :: 0 <= i < j < |ids| ==> ids[i] < ids[j])
    && (forall i :: 0 <= i < |ids| ==> ids[i] in due)
    && (forall id :: id in due && id !in ids ==> |ids| == limit && forall i :: 0 <= i < |ids| ==> ids[i] < id)
  }

  lemma SameFirst(due: set<nat>, limit: nat, a: seq<nat>, b: seq<nat>)
    requires FirstOf(due, limit, a) && FirstOf(due, limit, b) && a != []
    ensures b != [] && a[0] == b[0] && limit > 0
  {
    assert a[0] in due;
    if b != [] {
      assert b[0] in due;
    }
  }

  lemma RestIsFirst(due: set<nat>, limit: nat, ids: seq<nat>)
    requires FirstOf(due, limit, ids) && ids != []
    ensures FirstOf(due - {ids[0]}, limit - 1, ids[1..])
  {
    var rest := ids[1..];
    forall id | id in due - {ids[0]} && id !in rest
      ensures |rest| == limit - 1 && forall i :: 0 <= i < |rest| ==> rest[i] < id
    {
      assert id !in ids;
    }
  }

  /** That describes one sequence only. */
  lemma {:induction false} FirstOfIsUnique(due: set<nat>, limit: nat, a: seq<nat>, b: seq<nat>)
    requires FirstOf(due, limit, a) && FirstOf(due, limit, b)
    ensures a == b
    decreases |a|
  {
    hide FirstOf;
    if a != [] {
      SameFirst(due, limit, a, b);
      RestIsFirst(due, limit, a);
      RestIsFirst(due, limit, b);
      FirstOfIsUnique(due - {a[0]}, limit - 1, a[1..], b[1..]);
      assert a == [a[0]] + a[1..] && b == [b[0]] + b[1..];
    } else if b != [] {
      SameFirst(due, limit, b, a);
    }
  }

  lemma {:induction false} ScanTakesFirst(db: Database, now: Instant, limit: nat)
    requires OutboxNumbered(db.outbox, db.outboxSequence) && EventsPaired(db.events, db.outbox)
    ensures FirstOf(ClaimableIds(db, now), limit, DueFrom(db, now, 1, limit))
  {
    var ids := DueFrom(db, now, 1, limit);
    DueAscending(db, now, 1, limit);
    forall i | 0 <= i < |ids|
      ensures ids[i] in ClaimableIds(db, now)
    {
      DueIffClaimable(db, now, ids[i]);
    }
    forall id | id in ClaimableIds(db, now) && id !in ids
      ensures |ids| == limit && forall i :: 0 <= i < |ids| ==> ids[i] < id
    {
      DueIffClaimable(db, now, id);
      FullBatchBefore(db, now, 1, limit, id);
      assert forall i :: 0 <= i < |ids| ==> ids[i] in ids;
    }
  }

  function OutboxIdsOf(claims: seq<ClaimedEvent>): seq<nat> {
    seq(|claims|, i requires 0 <= i < |claims| => claims[i].outboxId)
  }

  ghost predicate LockedFor(row: OutboxRow, before: OutboxRow, now: Instant) {
    && row.status == Delivering && row.lockedAt == Some(now) && row.updatedAt == now
    && row.eventId == before.eventId && row.attempts == before.attempts
    && row.nextAttemptAt == before.nextAttemptAt && row.deliveredAt == before.deliveredAt
    && row.lastError == before.lastError && row.createdAt == before.createdAt
  }

  /** A claim carries what its row and its event say. */
  ghost predicate Quote(claims: seq<ClaimedEvent>, db: Database) {
    forall i :: 0 <= i < |claims| ==>
      && claims[i].outboxId in db.outbox && db.outbox[claims[i].outboxId].eventId in db.events
      && claims[i].attempts == db.outbox[claims[i].outboxId].attempts
      && claims[i].event == db.events[db.outbox[claims[i].outboxId].eventId].event
  }

  /** Only the claimed rows change. */
  ghost predicate Takes(db: Database, now: Instant, after: Database, claims: seq<ClaimedEvent>) {
    && Quote(claims, db)
    && after.outbox.Keys == db.outbox.Keys
    && (forall id :: id in db.outbox ==>
          if id in OutboxIdsOf(claims) then LockedFor(after.outbox[id], db.outbox[id], now)
          else after.outbox[id] == db.outbox[id])
    && after == db.(outbox := after.outbox)
  }

  /** The claims are the first `limit` rows that may be claimed, and only these rows change. */
  ghost predicate TakesFirst(db: Database, now: Instant, limit: nat, after: Database, claims: seq<ClaimedEvent>) {
    FirstOf(ClaimableIds(db, now), limit, OutboxIdsOf(claims)) && Takes(db, now, after, claims)
  }

  lemma LockingTakes(db: Database, now: Instant, ids: seq<nat>, claims: seq<ClaimedEvent>)
    requires |claims| == |ids|
    requires forall i :: 0 <= i < |ids| ==> Due(db, ids[i], now) && claims[i] == ClaimOf(db, ids[i])
    ensures OutboxIdsOf(claims) == ids && Takes(db, now, db.(outbox := LockAll(db.outbox, ids, now)), claims)
  {
    assert OutboxIdsOf(claims) == ids;
  }

  /** claim_due takes the first `limit` rows that may be claimed; it fails exactly on a limit outside 1..500. */
  lemma ClaimTakesFirstDueRows(db: Database, now: Instant, limit: int)
    requires Consistent(db)
    ensures var r := ClaimDue(db, now, limit);
            && (r.Ok? <==> 1 <= limit <= 500)
            && (r.Ok? ==> TakesFirst(db, now, limit, r.value.db, r.value.claims))
            && (r.Err? ==> r.error == InvalidLimit)
  {
    if 1 <= limit <= 500 {
      var ids := DueFrom(db, now, 1, limit);
      ScanTakesFirst(db, now, limit);
      LockingTakes(db, now, ids, ClaimDue(db, now, limit).value.claims);
      hide DueFrom, Due, FirstOf, Takes, Consistent, LockAll, OutboxIdsOf;
    }
  }

  /** No row is claimed before its time. */
  lemma ClaimedRowsWaited(db: Database, now: Instant, limit: int, i: nat)
    requires Consistent(db) && ClaimDue(db, now, limit).Ok? && i < |ClaimDue(db, now, limit).value.claims|
    ensures var id := ClaimDue(db, now, limit).value.claims[i].outboxId;
            && id in db.outbox
            && (db.outbox[id].status == Pending || db.outbox[id].status == Retry)
            && db.outbox[id].nextAttemptAt.Some? && db.outbox[id].nextAttemptAt.value <= now
  {
    ClaimTakesFirstDueRows(db, now, limit);
    hide ClaimDue, Consistent, Takes;
    var claims := ClaimDue(db, now, limit).value.claims;
    assert OutboxIdsOf(claims)[i] in ClaimableIds(db, now);
  }

  /** A row whose time has come is left out only by a full batch of earlier rows. */
  lemma WaitingRowIsClaimed(db: Database, now: Instant, limit: int, id: nat)
    requires Consistent(db) && ClaimDue(db, now, limit).Ok? && id in db.outbox
    requires db.outbox[id].status == Pending || db.outbox[id].status == Retry
    requires db.outbox[id].nextAttemptAt.Some? && db.outbox[id].nextAttemptAt.value <= now
    ensures var claims := ClaimDue(db, now, limit).value.claims;
            || (exists i :: 0 <= i < |claims| && claims[i].outboxId == id)
            || (|claims| == limit && forall i :: 0 <= i < |claims| ==> claims[i].outboxId < id)
  {
    ClaimTakesFirstDueRows(db, now, limit);
    var claims := ClaimDue(db, now, limit).value.claims;
    var ids := OutboxIdsOf(claims);
    assert id in ClaimableIds(db, now);
    assert id !in ids ==> |ids| == limit && forall i :: 0 <= i < |ids| ==> ids[i] < id;
    assert forall i :: 0 <= i < |claims| ==> claims[i].outboxId == ids[i];
    hide *;
  }
}
