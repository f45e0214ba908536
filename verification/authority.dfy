/**
 Which observation is authoritative, for whole runs: the first newest of all observations whose
 promotion did not fail since the watch was last deleted, in whatever order promotions and the steps of
 other actors interleave.
 */
module Authority {
  import opened Entities
  import opened Tables
  import opened Consistency
  import opened Promotion
  import opened Protocol
  import opened Safety

  // ---------------------------------------------------------------- the first newest

  /** Later ones replace it only when they are strictly newer. */
  function FirstNewest(observations: seq<Observation>): Option<Observation> {
    if observations == [] then None
    else
      var init, last := observations[..|observations| - 1], observations[|observations| - 1];
      var best := FirstNewest(init);
      if best.Some? && last.observedAt <= best.value.observedAt then best else Some(last)
  }

  /** No other is newer, and every earlier one is older. */
  ghost predicate IsFirstNewest(observations: seq<Observation>, k: nat) {
    && k < |observations|
    && (forall i :: 0 <= i < |observations| ==> observations[i].observedAt <= observations[k].observedAt)
    && (forall i :: 0 <= i < k ==> observations[i].observedAt < observations[k].observedAt)
  }

  lemma {:induction false} FirstNewestIsFirst(observations: seq<Observation>) returns (k: nat)
    requires observations != []
    ensures IsFirstNewest(observations, k) && FirstNewest(observations) == Some(observations[k])
    decreases |observations|
  {
    var init := observations[..|observations| - 1];
    k := |observations| - 1;
    if init != [] {
      var best := FirstNewestIsFirst(init);
      if observations[k].observedAt <= init[best].observedAt {
        k := best;
      }
    }
  }

  lemma FirstIsMember(observations: seq<Observation>)
    ensures observations != [] ==> observations[0] in observations
  {
  }

  /** With distinct times the order does not matter, nor how often each one comes. */
  lemma {:induction false} SameFirstNewest(a: seq<Observation>, b: seq<Observation>)
    requires forall o :: o in a <==> o in b
    requires forall o, p :: o in a && p in a && o.observedAt == p.observedAt ==> o == p
    ensures FirstNewest(a) == FirstNewest(b)
  {
    if a == [] {
      FirstIsMember(b);
    } else {
      assert a[0] in b;
      var i := FirstNewestIsFirst(a);
      var j := FirstNewestIsFirst(b);
      assert a[i] in b && b[j] in a;
    }
  }

  // ---------------------------------------------------------------- promotions of a run

  /** The promotion commits: the observation is there and VALID, and neither policy nor identifiers fail. */
  predicate Commits(db: Database, a: Action)
    requires a.PromoteObservation?
  {
    && a.observationId in db.observations
    && db.observations[a.observationId].observation.status == Valid
    && Promote(db, a.watchId, a.observationId, a.policy, a.factory, a.now).Ok?
  }

  /** The observations promoted for the watch without failure, one step on; a deletion forgets them. */
  function StepPromoted(db: Database, a: Action, x: WatchId, promoted: seq<Observation>): seq<Observation> {
    match a
    case PromoteObservation(y, id, _, _, _) =>
      if y == x && Commits(db, a) then promoted + [db.observations[id].observation] else promoted
    case Delete(y, allow) => if y == x && DeleteWatch(db, y, allow).Ok? then [] else promoted
    case _ => promoted
  }

  function PromotedIn(
    config: DeliveryConfig, w: World, actions: seq<Action>, x: WatchId, promoted: seq<Observation>
  ): seq<Observation>
    decreases actions
  {
    if actions == [] then promoted
    else
      PromotedIn(config, Next(config, w, actions[0]), actions[1..], x, StepPromoted(w.db, actions[0], x, promoted))
  }

  // ---------------------------------------------------------------- one step

  lemma {:induction false} FirstNewestAppend(promoted: seq<Observation>, o: Observation)
    ensures FirstNewest(promoted + [o])
            == if FirstNewest(promoted).Some? && o.observedAt <= FirstNewest(promoted).value.observedAt
               then FirstNewest(promoted) else Some(o)
  {
    assert (promoted + [o])[..|promoted|] == promoted;
  }

  lemma SameAuthorityRead(db: Database, after: Database, x: WatchId)
    requires x in db.authority <==> x in after.authority
    requires x in db.authority ==>
               && after.authority[x] == db.authority[x]
               && db.authority[x].observationId in db.observations
               && db.authority[x].observationId in after.observations
               && after.observations[db.authority[x].observationId] == db.observations[db.authority[x].observationId]
    ensures ReadAuthoritative(after, x) == ReadAuthoritative(db, x)
  {
  }

  /** What a committed promotion leaves to be read. */
  lemma PromotedAuthority(db: Database, a: Action, x: WatchId)
    requires Consistent(db) && a.PromoteObservation? && Commits(db, a)
    ensures var o := db.observations[a.observationId].observation;
            var previous := ReadAuthoritative(db, x);
            ReadAuthoritative(Promote(db, a.watchId, a.observationId, a.policy, a.factory, a.now).value.db, x)
            == if a.watchId != x || (previous.Some? && o.observedAt <= previous.value.observedAt) then previous
               else Some(o)
  {
    PromotionOutcome(db, a.watchId, a.observationId, a.policy, a.factory, a.now);
    AuthorityJoin(db, a.watchId);
    assert x in db.authority ==> RowBacked(db.authority[x], x, db.observations);
    var after := Promote(db, a.watchId, a.observationId, a.policy, a.factory, a.now).value.db;
    hide Consistent, Promote;
    if a.watchId != x || !Fresher(db, x, a.observationId) {
      SameAuthorityRead(db, after, x);
    }
  }

  lemma MissingFails(db: Database, a: Action)
    requires a.PromoteObservation?
    ensures a.observationId !in db.observations ==>
              Promote(db, a.watchId, a.observationId, a.policy, a.factory, a.now).Err?
  {
  }

  lemma {:induction false} PromoteAuthority(w: World, a: Action, x: WatchId, promoted: seq<Observation>)
    requires Consistent(w.db) && a.PromoteObservation? && ReadAuthoritative(w.db, x) == FirstNewest(promoted)
    ensures ReadAuthoritative(PromoteStep(w, a.watchId, a.observationId, a.policy, a.factory, a.now).db, x)
            == FirstNewest(StepPromoted(w.db, a, x, promoted))
  {
    PromotedTables(w, a);
    MissingFails(w.db, a);
    if Commits(w.db, a) {
      PromotedAuthority(w.db, a, x);
      FirstNewestAppend(promoted, w.db.observations[a.observationId].observation);
    }
    hide Consistent, FirstNewest, ReadAuthoritative, PromoteStep, Promote;
  }

  lemma PurgeAuthority(w: World, cutoff: Instant, watch: Option<WatchId>, x: WatchId)
    requires Consistent(w.db)
    ensures ReadAuthoritative(PurgeStep(w, cutoff, watch).db, x) == ReadAuthoritative(w.db, x)
  {
    assert x in w.db.authority ==> RowBacked(w.db.authority[x], x, w.db.observations);
    hide Consistent;
    assert x in w.db.authority ==> IsAuthoritative(w.db, w.db.authority[x].observationId);
    SameAuthorityRead(w.db, PurgeStep(w, cutoff, watch).db, x);
  }

  lemma {:induction false} DeleteAuthority(w: World, y: WatchId, allow: bool, x: WatchId, promoted: seq<Observation>)
    requires Consistent(w.db) && ReadAuthoritative(w.db, x) == FirstNewest(promoted)
    ensures ReadAuthoritative(DeleteStep(w, y, allow).db, x)
            == FirstNewest(StepPromoted(w.db, Delete(y, allow), x, promoted))
  {
    hide Consistent, FirstNewest;
    if DeleteWatch(w.db, y, allow).Ok? {
      DeletedAuthority(w.db, y, allow, x);
      assert DeleteStep(w, y, allow).db == DeleteWatch(w.db, y, allow).value;
      hide DeleteWatch, DeleteStep, ReadAuthoritative;
      assert FirstNewest([]) == None by {
        NothingPromoted();
      }
    }
  }

  lemma NothingPromoted()
    ensures FirstNewest([]) == None
  {
  }

  lemma DeletedAuthority(db: Database, y: WatchId, allow: bool, x: WatchId)
    requires Consistent(db) && DeleteWatch(db, y, allow).Ok?
    ensures var after := DeleteWatch(db, y, allow).value;
            ReadAuthoritative(after, x) == if y == x then None else ReadAuthoritative(db, x)
  {
    assert x in db.authority ==> RowBacked(db.authority[x], x, db.observations);
    hide Consistent, ReadAuthoritative, HasUndelivered;
    var after := DeleteWatch(db, y, allow).value;
    if y == x {
      NoAuthority(after, x);
    } else {
      SameAuthorityRead(db, after, x);
    }
  }

  lemma NoAuthority(db: Database, x: WatchId)
    requires x !in db.authority
    ensures ReadAuthoritative(db, x) == None
  {
  }

  lemma PersistAuthority(w: World, y: WatchId, id: ObservationId, observation: Observation, now: Instant, x: WatchId)
    requires Consistent(w.db)
    ensures ReadAuthoritative(PersistStep(w, y, id, observation, now).db, x) == ReadAuthoritative(w.db, x)
  {
    assert x in w.db.authority ==> RowBacked(w.db.authority[x], x, w.db.observations);
    hide Consistent, ReadAuthoritative;
    var after := PersistStep(w, y, id, observation, now).db;
    KeptObservations(w, y, id, observation, now);
    hide PersistStep;
    SameAuthorityRead(w.db, after, x);
  }

  lemma KeptObservations(w: World, y: WatchId, id: ObservationId, observation: Observation, now: Instant)
    ensures var after := PersistStep(w, y, id, observation, now).db;
            && after.authority == w.db.authority
            && forall o :: o in w.db.observations ==> o in after.observations
                                                      && after.observations[o] == w.db.observations[o]
  {
  }

  lemma {:induction false} StepAuthority(
    config: DeliveryConfig, w: World, a: Action, x: WatchId, promoted: seq<Observation>)
    requires Consistent(w.db) && ReadAuthoritative(w.db, x) == FirstNewest(promoted)
    ensures ReadAuthoritative(Next(config, w, a).db, x) == FirstNewest(StepPromoted(w.db, a, x, promoted))
  {
    hide Consistent, FirstNewest, Commits, PersistStep, PromoteStep, PurgeStep, DeleteStep;
    if a.PromoteObservation? {
      PromoteAuthority(w, a, x, promoted);
    } else if a.Delete? {
      DeleteAuthority(w, a.watchId, a.allowUndelivered, x, promoted);
    } else if a.Purge? {
      PurgeAuthority(w, a.cutoff, a.watch, x);
    } else if a.PersistObservation? {
      PersistAuthority(w, a.watchId, a.observationId, a.observation, a.now, x);
    } else if IsDelivery(a) {
      DeliveryKeepsWatchSide(config, w, a);
      hide Next;
    }
  }

  // ---------------------------------------------------------------- whole runs

  lemma {:induction false} RunAuthority(
    config: DeliveryConfig, w: World, actions: seq<Action>, x: WatchId, promoted: seq<Observation>)
    requires Consistent(w.db) && ReadAuthoritative(w.db, x) == FirstNewest(promoted)
    ensures ReadAuthoritative(Run(config, w, actions).db, x)
            == FirstNewest(PromotedIn(config, w, actions, x, promoted))
    decreases actions
  {
    hide Consistent, Next, StepPromoted, ReadAuthoritative, FirstNewest;
    if actions != [] {
      StepAuthority(config, w, actions[0], x, promoted);
      NextConsistent(config, w, actions[0]);
      RunAuthority(config, Next(config, w, actions[0]), actions[1..], x, StepPromoted(w.db, actions[0], x, promoted));
    }
  }
}
