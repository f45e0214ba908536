/**
 The diagnostic listings of the outbox and of the delivery attempts: pages ordered by id, each query
 taking up after the last id of the page before. Other transactions commit between the pages.
 */
module Diagnostics {
  import opened Entities
  import opened Tables
  import opened Consistency

  const MAX_DIAGNOSTIC_PAGE_SIZE := 500

  /** What one query sees: the ids its WHERE clause selects, and the largest id handed out so far. */
  datatype View = View(ids: set<nat>, top: nat)

  function OutboxView(db: Database, watch: Option<WatchId>, status: Option<OutboxStatus>): View {
    View((set id | id in db.outbox && db.outbox[id].eventId in db.events
                   && InScope(db.events[db.outbox[id].eventId].event.watchId, watch)
                   && (status.None? || db.outbox[id].status == status.value)),
         db.outboxSequence)
  }

  function AttemptView(
    db: Database, watch: Option<WatchId>, eventId: Option<EventId>, status: Option<AttemptStatus>
  ): View {
    View((set a | a in db.attempts && a.eventId in db.events
                  && InScope(db.events[a.eventId].event.watchId, watch)
                  && (eventId.None? || a.eventId == eventId.value)
                  && (status.None? || a.status == status.value) :: a.attemptId),
         db.attemptSequence)
  }

  /** ORDER BY id LIMIT limit, from `id` on. */
  function PageFrom(view: View, id: nat, limit: nat): seq<nat>
    decreases view.top + 1 - id
  {
    if limit == 0 || id > view.top then []
    else if id in view.ids then [id] + PageFrom(view, id + 1, limit - 1)
    else PageFrom(view, id + 1, limit)
  }

  /** One listing; without a cursor it starts at the first id. */
  function List(view: View, limit: int, after: Option<int>): Result<seq<nat>> {
    if !(1 <= limit <= MAX_DIAGNOSTIC_PAGE_SIZE) then Err(InvalidLimit)
    else if after.Some? && after.value < 0 then Err(InvalidCursor)
    else Ok(PageFrom(view, if after.Some? then after.value + 1 else 0, limit))
  }

  /** A listing fails exactly on a limit outside 1..500, or else on a negative cursor. */
  lemma ListingFails(view: View, limit: int, after: Option<int>)
    ensures var cursor := if after == None then 0 else after.value;
            List(view, limit, after).Err? <==> limit < 1 || limit > 500 || cursor < 0
    ensures List(view, limit, after).Err? ==>
              List(view, limit, after).error == if limit < 1 || limit > 500 then InvalidLimit else InvalidCursor
  {
  }

  /** A reader pages until a page comes back short; `views` is what its successive queries see. */
  function Walk(views: seq<View>, after: Option<int>, limit: int): seq<nat>
    decreases views
  {
    if views == [] then []
    else
      match List(views[0], limit, after)
      case Err(_) => []
      case Ok(page) => page + if |page| < limit then [] else Walk(views[1..], Some(page[|page| - 1]), limit)
  }

  predicate Finishes(views: seq<View>, after: Option<int>, limit: int)
    decreases views
  {
    views != [] && List(views[0], limit, after).Ok?
    && var page := List(views[0], limit, after).value;
       |page| < limit || Finishes(views[1..], Some(page[|page| - 1]), limit)
  }

  // ---------------------------------------------------------------- one page

  /** The page holds, in order, the first `limit` selected ids from `id` on. */
  lemma {:induction false} PageHolds(view: View, id: nat, limit: nat)
    ensures var page := PageFrom(view, id, limit);
            && |page| <= limit
            && (forall i :: 0 <= i < |page| ==> id <= page[i] && page[i] in view.ids)
            && Ascends(page)
    decreases view.top + 1 - id
  {
    if limit > 0 && id <= view.top {
      if id in view.ids {
        PageHolds(view, id + 1, limit - 1);
      } else {
        PageHolds(view, id + 1, limit);
      }
    }
  }

  lemma {:induction false} PageMissesOnlyLater(view: View, id: nat, limit: nat, r: nat)
    requires id <= r <= view.top && r in view.ids && r !in PageFrom(view, id, limit)
    ensures |PageFrom(view, id, limit)| == limit
    ensures forall k :: k in PageFrom(view, id, limit) ==> k < r
    decreases view.top + 1 - id
  {
    if limit > 0 {
      if id in view.ids {
        assert PageFrom(view, id, limit)[0] == id;
        PageMissesOnlyLater(view, id + 1, limit - 1, r);
      } else {
        PageMissesOnlyLater(view, id + 1, limit, r);
      }
    }
  }

  // ---------------------------------------------------------------- all pages

  predicate Beyond(after: Option<int>, id: nat) {
    after.None? || after.value < id
  }

  predicate Ascends(ids: seq<nat>) {
    forall i, j :: 0 <= i < j < |ids| ==> ids[i] < ids[j]
  }

  lemma AscendsOn(a: seq<nat>, b: seq<nat>)
    requires a != [] && Ascends(a) && Ascends(b) && forall i :: 0 <= i < |b| ==> a[|a| - 1] < b[i]
    ensures Ascends(a + b)
  {
    var ids := a + b;
    forall i, j | 0 <= i < j < |ids|
      ensures ids[i] < ids[j]
    {
      if i < |a| - 1 && |a| <= j {
        assert a[i] < a[|a| - 1] < b[j - |a|];
      }
    }
  }

  /** No id is listed twice, whatever commits between the pages. */
  lemma {:induction false} WalkAscends(views: seq<View>, after: Option<int>, limit: int)
    ensures var listed := Walk(views, after, limit);
            Ascends(listed) && forall i :: 0 <= i < |listed| ==> Beyond(after, listed[i])
    decreases views
  {
    if views != [] && List(views[0], limit, after).Ok? {
      var page := List(views[0], limit, after).value;
      PageHolds(views[0], if after.Some? then after.value + 1 else 0, limit);
      assert Walk(views, after, limit) == page || |page| >= limit;
      if |page| >= limit {
        var rest := Walk(views[1..], Some(page[|page| - 1]), limit);
        WalkAscends(views[1..], Some(page[|page| - 1]), limit);
        AscendsOn(page, rest);
      }
    }
  }

  /** A row that every query selects is listed. */
  lemma {:induction false} WalkFinds(views: seq<View>, after: Option<int>, limit: int, id: nat)
    requires Finishes(views, after, limit) && Beyond(after, id)
    requires forall v :: v in views ==> id in v.ids && id <= v.top
    ensures id in Walk(views, after, limit)
    decreases views
  {
    var first: nat := if after.Some? then after.value + 1 else 0;
    var page := List(views[0], limit, after).value;
    assert views[0] in views;
    PageHolds(views[0], first, limit);
    if id !in page {
      PageMissesOnlyLater(views[0], first, limit, id);
      assert page[|page| - 1] in page;
      WalkFinds(views[1..], Some(page[|page| - 1]), limit, id);
    }
  }

  /** What is listed was there when one of the queries looked. */
  lemma {:induction false} ListedWasSeen(views: seq<View>, after: Option<int>, limit: int, id: nat)
    requires id in Walk(views, after, limit)
    ensures exists i :: 0 <= i < |views| && id in views[i].ids
    decreases views
  {
    var page := List(views[0], limit, after).value;
    PageHolds(views[0], if after.Some? then after.value + 1 else 0, limit);
    if id !in page {
      ListedWasSeen(views[1..], Some(page[|page| - 1]), limit, id);
      var i :| 0 <= i < |views[1..]| && id in views[1..][i].ids;
      assert views[1..][i] == views[i + 1];
    }
  }

  // ---------------------------------------------------------------- the outbox

  /** The row belongs to the watch and has the status, where these are asked for. */
  ghost predicate RowMatches(db: Database, watch: Option<WatchId>, status: Option<OutboxStatus>, id: nat) {
    && id in db.outbox && db.outbox[id].eventId in db.events
    && (watch == None || watch == Some(db.events[db.outbox[id].eventId].event.watchId))
    && (status == None || status == Some(db.outbox[id].status))
  }

  lemma SeenIffMatches(db: Database, watch: Option<WatchId>, status: Option<OutboxStatus>, id: nat)
    ensures id in OutboxView(db, watch, status).ids <==> RowMatches(db, watch, status, id)
  {
  }

  lemma MatchingIsNumbered(db: Database, watch: Option<WatchId>, status: Option<OutboxStatus>, id: nat)
    requires Consistent(db) && RowMatches(db, watch, status, id)
    ensures id <= OutboxView(db, watch, status).top
  {
  }

  function OutboxViews(dbs: seq<Database>, watch: Option<WatchId>, status: Option<OutboxStatus>): seq<View> {
    seq(|dbs|, i requires 0 <= i < |dbs| => OutboxView(dbs[i], watch, status))
  }

  /**
   Paging the outbox while the engine works: a row that is there, and keeps matching the filters, in
   every state the queries see is listed exactly once.
   */
  lemma {:induction false} OutboxListing(
    dbs: seq<Database>, watch: Option<WatchId>, status: Option<OutboxStatus>, limit: int, id: nat)
    requires Finishes(OutboxViews(dbs, watch, status), None, limit)
    requires forall i :: 0 <= i < |dbs| ==> Consistent(dbs[i]) && RowMatches(dbs[i], watch, status, id)
    ensures var listed := Walk(OutboxViews(dbs, watch, status), None, limit);
            id in listed && Ascends(listed)
  {
    hide Consistent, RowMatches, OutboxView;
    var views := OutboxViews(dbs, watch, status);
    forall v | v in views
      ensures id in v.ids && id <= v.top
    {
      var i :| 0 <= i < |views| && views[i] == v;
      SeenIffMatches(dbs[i], watch, status, id);
      MatchingIsNumbered(dbs[i], watch, status, id);
    }
    WalkAscends(views, None, limit);
    WalkFinds(views, None, limit, id);
  }

  /** A row that never matches the filters is not listed. */
  lemma {:induction false} OutboxListingIsSound(
    dbs: seq<Database>, watch: Option<WatchId>, status: Option<OutboxStatus>, limit: int, id: nat)
    requires forall i :: 0 <= i < |dbs| ==> !RowMatches(dbs[i], watch, status, id)
    ensures id !in Walk(OutboxViews(dbs, watch, status), None, limit)
  {
    hide RowMatches, OutboxView;
    var views := OutboxViews(dbs, watch, status);
    if id in Walk(views, None, limit) {
      ListedWasSeen(views, None, limit, id);
      var i :| 0 <= i < |views| && id in views[i].ids;
      SeenIffMatches(dbs[i], watch, status, id);
    }
  }

  // ---------------------------------------------------------------- the delivery attempts

  /** An attempt of that id is for the watch and the event and has the status, where these are asked for. */
  ghost predicate AttemptMatches(
    db: Database, watch: Option<WatchId>, eventId: Option<EventId>, status: Option<AttemptStatus>, id: nat)
  {
    exists a :: a in db.attempts && a.attemptId == id && a.eventId in db.events
                && (watch == None || watch == Some(db.events[a.eventId].event.watchId))
                && (eventId == None || eventId == Some(a.eventId))
                && (status == None || status == Some(a.status))
  }

  lemma SeenIffAttemptMatches(
    db: Database, watch: Option<WatchId>, eventId: Option<EventId>, status: Option<AttemptStatus>, id: nat)
    ensures id in AttemptView(db, watch, eventId, status).ids <==> AttemptMatches(db, watch, eventId, status, id)
  {
  }

  lemma MatchingAttemptIsNumbered(
    db: Database, watch: Option<WatchId>, eventId: Option<EventId>, status: Option<AttemptStatus>, id: nat)
    requires Consistent(db) && AttemptMatches(db, watch, eventId, status, id)
    ensures id <= AttemptView(db, watch, eventId, status).top
  {
    assert AttemptsOrdered(db.attempts, db.attemptSequence);
    hide Consistent;
    var a :| a in db.attempts && a.attemptId == id;
  }

  function AttemptViews(
    dbs: seq<Database>, watch: Option<WatchId>, eventId: Option<EventId>, status: Option<AttemptStatus>
  ): seq<View> {
    seq(|dbs|, i requires 0 <= i < |dbs| => AttemptView(dbs[i], watch, eventId, status))
  }

  lemma {:induction false} AttemptListing(
    dbs: seq<Database>, watch: Option<WatchId>, eventId: Option<EventId>, status: Option<AttemptStatus>, limit: int,
    id: nat)
    requires Finishes(AttemptViews(dbs, watch, eventId, status), None, limit)
    requires forall i :: 0 <= i < |dbs| ==> Consistent(dbs[i]) && AttemptMatches(dbs[i], watch, eventId, status, id)
    ensures var listed := Walk(AttemptViews(dbs, watch, eventId, status), None, limit);
            id in listed && Ascends(listed)
  {
    hide Consistent, AttemptMatches, AttemptView;
    var views := AttemptViews(dbs, watch, eventId, status);
    forall v | v in views
      ensures id in v.ids && id <= v.top
    {
      var i :| 0 <= i < |views| && views[i] == v;
      SeenIffAttemptMatches(dbs[i], watch, eventId, status, id);
      MatchingAttemptIsNumbered(dbs[i], watch, eventId, status, id);
    }
    WalkAscends(views, None, limit);
    WalkFinds(views, None, limit, id);
  }

  lemma {:induction false} AttemptListingIsSound(
    dbs: seq<Database>, watch: Option<WatchId>, eventId: Option<EventId>, status: Option<AttemptStatus>, limit: int,
    id: nat)
    requires forall i :: 0 <= i < |dbs| ==> !AttemptMatches(dbs[i], watch, eventId, status, id)
    ensures id !in Walk(AttemptViews(dbs, watch, eventId, status), None, limit)
  {
    hide AttemptMatches, AttemptView;
    var views := AttemptViews(dbs, watch, eventId, status);
    if id in Walk(views, None, limit) {
      ListedWasSeen(views, None, limit, id);
      var i :| 0 <= i < |views| && id in views[i].ids;
      SeenIffAttemptMatches(dbs[i], watch, eventId, status, id);
    }
  }
}
