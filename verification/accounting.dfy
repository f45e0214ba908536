/**
 At-least-once delivery without loss, with any number of dispatchers, stale claims, interruptions,
 purges and deletions: every committed event stays accounted for, and every recorded attempt stands
 for exactly one sink call.
 */
module Accounting {
  import opened Entities
  import opened Tables
  import opened Consistency
  import opened Promotion
  import opened Protocol
  import opened Safety

  type Archive = map<nat, Archived>
  type Acks = map<(nat, nat), nat>

  /** Every outbox row ever committed, as it is now or as it was when it was removed. */
  function AllRows(outbox: Outbox, archive: Archive): Outbox {
    map id | id in outbox.Keys + archive.Keys :: if id in outbox then outbox[id] else archive[id].row
  }

  function Rows(w: World): Outbox {
    AllRows(w.db.outbox, w.archive)
  }

  // ---------------------------------------------------------------- the invariant

  /** The ids handed out so far are 1..sequence; each is live or archived, never both, never reused. */
  ghost predicate Numbered(outbox: Outbox, archive: Archive, sequence: nat) {
    && (forall id :: id in outbox || id in archive <==> 1 <= id <= sequence)
    && (forall id :: id in outbox ==> id !in archive)
  }

  /** With a fixed attempt limit: a row is given up exactly at the limit. */
  ghost predicate WithinBudget(row: OutboxRow, maxAttempts: int) {
    && (!Terminal(row.status) ==> row.attempts < maxAttempts)
    && (row.status == Dead ==> row.attempts == maxAttempts)
    && (row.status == Delivered ==> row.attempts <= maxAttempts)
  }

  ghost predicate Budgeted(rows: Outbox, maxAttempts: int) {
    forall id :: id in rows ==> WithinBudget(rows[id], maxAttempts)
  }

  ghost predicate ArchivedExact(a: Archived) {
    RowShaped(a.row) && ExactLog(a.row, a.log) && (!a.forced ==> Terminal(a.row.status))
  }

  ghost predicate ArchiveExact(archive: Archive) {
    forall id :: id in archive ==> ArchivedExact(archive[id])
  }

  /** The call an acknowledgement stands for, and what the sink answered. */
  ghost predicate AckedCall(row: OutboxRow, id: nat, n: nat, calls: seq<SinkCall>, k: nat) {
    && k < |calls|
    && calls[k].outboxId == id
    && calls[k].eventId == row.eventId
    && calls[k].attemptNumber == n
    && !calls[k].outcome.Broke?
    && (calls[k].outcome == ReturnedNone <==> row.status == Delivered && n == row.attempts)
  }

  /** Exactly the attempts 1..attempts of each row were acknowledged, each for one call. */
  ghost predicate AcksExact(rows: Outbox, acks: Acks, calls: seq<SinkCall>) {
    && (forall p: (nat, nat) :: p in acks <==> p.0 in rows && 1 <= p.1 <= rows[p.0].attempts)
    && (forall p: (nat, nat) :: p in acks ==> AckedCall(rows[p.0], p.0, p.1, calls, acks[p]))
  }

  /** A claim names a committed row, and never more attempts than that row has by now. */
  ghost predicate Genuine(c: ClaimedEvent, rows: Outbox) {
    && c.outboxId in rows
    && rows[c.outboxId].eventId == c.event.eventId
    && c.attempts <= rows[c.outboxId].attempts
  }

  ghost predicate PhaseGenuine(phase: Phase, rows: Outbox, calls: seq<SinkCall>) {
    match phase
    case Sending(pending) => forall c :: c in pending ==> Genuine(c, rows)
    case Answered(pending, call) =>
      && pending != [] && call < |calls|
      && calls[call] == CallOf(pending[0], calls[call].outcome) && !calls[call].outcome.Broke?
      && forall c :: c in pending ==> Genuine(c, rows)
    case _ => true
  }

  ghost predicate PhasesGenuine(phases: map<nat, Phase>, rows: Outbox, calls: seq<SinkCall>) {
    forall d :: d in phases ==> PhaseGenuine(phases[d], rows, calls)
  }

  ghost predicate Accounted(config: DeliveryConfig, w: World) {
    && Numbered(w.db.outbox, w.archive, w.db.outboxSequence)
    && Budgeted(Rows(w), config.maxAttempts)
    && ArchiveExact(w.archive)
    && AcksExact(Rows(w), w.acks, w.calls)
    && PhasesGenuine(w.phases, Rows(w), w.calls)
  }

  // ---------------------------------------------------------------- steps that acknowledge nothing

  /** Rows are added unattempted, or change in columns that no acknowledgement depends on. */
  ghost predicate SameLedger(row: OutboxRow, after: OutboxRow) {
    && after.eventId == row.eventId
    && after.attempts == row.attempts
    && (after.status == Delivered <==> row.status == Delivered)
    && (after.status == Dead <==> row.status == Dead)
  }

  ghost predicate Evolves(rows: Outbox, after: Outbox) {
    && (forall id :: id in rows ==> id in after && SameLedger(rows[id], after[id]))
    && (forall id :: id in after && id !in rows ==> after[id].attempts == 0 && after[id].status == Pending)
  }

  lemma EvolvedAcks(rows: Outbox, after: Outbox, acks: Acks, calls: seq<SinkCall>)
    requires Evolves(rows, after) && AcksExact(rows, acks, calls)
    ensures AcksExact(after, acks, calls)
  {
    forall p: (nat, nat) | p.0 in after && 1 <= p.1 <= after[p.0].attempts
      ensures p in acks
    {
      assert p.0 in rows;
    }
  }

  lemma EvolvedPhases(phases: map<nat, Phase>, rows: Outbox, after: Outbox, calls: seq<SinkCall>)
    requires Evolves(rows, after) && PhasesGenuine(phases, rows, calls)
    ensures PhasesGenuine(phases, after, calls)
  {
    forall d | d in phases
      ensures PhaseGenuine(phases[d], after, calls)
    {
      assert PhaseGenuine(phases[d], rows, calls);
    }
  }

  lemma EvolvedAccount(config: DeliveryConfig, w: World, after: World)
    requires config.Valid() && Accounted(config, w)
    requires Evolves(Rows(w), Rows(after))
    requires Numbered(after.db.outbox, after.archive, after.db.outboxSequence) && ArchiveExact(after.archive)
    requires after.acks == w.acks && after.calls == w.calls && after.phases == w.phases
    ensures Accounted(config, after)
  {
    EvolvedAcks(Rows(w), Rows(after), w.acks, w.calls);
    EvolvedPhases(w.phases, Rows(w), Rows(after), w.calls);
    assert Budgeted(Rows(after), config.maxAttempts);
  }

  lemma SameRowsEvolve(rows: Outbox)
    ensures Evolves(rows, rows)
  {
  }

  /** A promotion step changes nothing, or adds events with their outbox rows. */
  lemma PromoteAddsRows(
    w: World, x: WatchId, id: ObservationId, policy: Policy, factory: seq<Option<EventId>>, now: Instant)
    returns (events: seq<WatchEvent>)
    requires Consistent(w.db)
    ensures var after := PromoteStep(w, x, id, policy, factory, now);
            || after == w
            || (&& OutboxExtended(w.db.outbox, after.db.outbox, w.db.outboxSequence, events, now)
                && after.db.outboxSequence == w.db.outboxSequence + |events|
                && after.archive == w.archive && after.acks == w.acks
                && after.calls == w.calls && after.phases == w.phases)
  {
    PromotionOutcome(w.db, x, id, policy, factory, now);
    AuthorityJoin(w.db, x);
    var r := Promote(w.db, x, id, policy, factory, now);
    events := if r.Ok? then r.value.events else [];
  }

  lemma PromoteAccounted(
    config: DeliveryConfig, w: World, x: WatchId, id: ObservationId, policy: Policy,
    factory: seq<Option<EventId>>, now: Instant)
    requires config.Valid() && Consistent(w.db) && Accounted(config, w)
    ensures Accounted(config, PromoteStep(w, x, id, policy, factory, now))
  {
    var after := PromoteStep(w, x, id, policy, factory, now);
    var events := PromoteAddsRows(w, x, id, policy, factory, now);
    if after != w {
      ExtendedRows(w.db.outbox, after.db.outbox, w.archive, w.db.outboxSequence, events, now);
      EvolvedAccount(config, w, after);
    }
  }

  lemma ExtendedRows(
    outbox: Outbox, after: Outbox, archive: Archive, sequence: nat, events: seq<WatchEvent>, now: Instant)
    requires Numbered(outbox, archive, sequence) && OutboxExtended(outbox, after, sequence, events, now)
    ensures Numbered(after, archive, sequence + |events|)
    ensures Evolves(AllRows(outbox, archive), AllRows(after, archive))
  {
  }

  /** Moving rows to the archive changes neither the set of rows ever committed nor what they say. */
  lemma ArchivedRows(db: Database, archive: Archive, ids: set<nat>, forced: bool)
    requires Numbered(db.outbox, archive, db.outboxSequence) && ArchiveExact(archive)
    requires RowsShaped(db.outbox) && LogsExact(db.outbox, db.attempts)
    requires forall id :: id in ids ==> id in db.outbox
    requires !forced ==> forall id :: id in ids ==> Terminal(db.outbox[id].status)
    ensures var after := archive + ArchiveOf(db, ids, forced);
            && Numbered(db.outbox - ids, after, db.outboxSequence)
            && ArchiveExact(after)
            && AllRows(db.outbox - ids, after) == AllRows(db.outbox, archive)
  {
    var after := archive + ArchiveOf(db, ids, forced);
    assert ArchiveExact(after) by {
      ArchivedLogs(db, archive, ids, forced);
    }
    assert AllRows(db.outbox - ids, after) == AllRows(db.outbox, archive) by {
      MovedRows(db, archive, ids, forced);
    }
    hide ArchiveExact, RowsShaped, LogsExact, AllRows;
  }

  lemma ArchivedLogs(db: Database, archive: Archive, ids: set<nat>, forced: bool)
    requires ArchiveExact(archive) && RowsShaped(db.outbox) && LogsExact(db.outbox, db.attempts)
    requires !forced ==> forall id :: id in ids && id in db.outbox ==> Terminal(db.outbox[id].status)
    ensures ArchiveExact(archive + ArchiveOf(db, ids, forced))
  {
    hide RowShaped, ExactLog, LogOf;
  }

  lemma MovedRows(db: Database, archive: Archive, ids: set<nat>, forced: bool)
    requires Numbered(db.outbox, archive, db.outboxSequence) && forall id :: id in ids ==> id in db.outbox
    ensures AllRows(db.outbox - ids, archive + ArchiveOf(db, ids, forced)) == AllRows(db.outbox, archive)
  {
    var outbox, after := db.outbox - ids, archive + ArchiveOf(db, ids, forced);
    forall id | id in db.outbox.Keys + archive.Keys
      ensures id in outbox.Keys + after.Keys && AllRows(outbox, after)[id] == AllRows(db.outbox, archive)[id]
    {
    }
  }

  lemma RemovalAccounted(config: DeliveryConfig, w: World, after: World, ids: set<nat>, forced: bool)
    requires config.Valid() && Accounted(config, w)
    requires RowsShaped(w.db.outbox) && LogsExact(w.db.outbox, w.db.attempts)
    requires forall id :: id in ids ==> id in w.db.outbox && (!forced ==> Terminal(w.db.outbox[id].status))
    requires after.db.outbox == w.db.outbox - ids && after.db.outboxSequence == w.db.outboxSequence
    requires after.archive == w.archive + ArchiveOf(w.db, ids, forced)
    requires after.acks == w.acks && after.calls == w.calls && after.phases == w.phases
    ensures Accounted(config, after)
  {
    ArchivedRows(w.db, w.archive, ids, forced);
    SameRowsEvolve(Rows(w));
    EvolvedAccount(config, w, after);
  }

  lemma PurgeAccounted(config: DeliveryConfig, w: World, cutoff: Instant, watch: Option<WatchId>)
    requires config.Valid() && Consistent(w.db) && Accounted(config, w)
    ensures Accounted(config, PurgeStep(w, cutoff, watch))
  {
    RemovalAccounted(config, w, PurgeStep(w, cutoff, watch), PurgeTargets(w.db, cutoff, watch), false);
  }

  lemma DeleteAccounted(config: DeliveryConfig, w: World, x: WatchId, allow: bool)
    requires config.Valid() && Consistent(w.db) && Accounted(config, w)
    ensures Accounted(config, DeleteStep(w, x, allow))
  {
    if DeleteWatch(w.db, x, allow).Ok? {
      var ids := OutboxOfEvents(w.db, EventsOfWatch(w.db, x));
      assert !allow ==> !HasUndelivered(w.db, x);
      assert forall id :: id in ids && !HasUndelivered(w.db, x) ==> Terminal(w.db.outbox[id].status);
      RemovalAccounted(config, w, DeleteStep(w, x, allow), ids, allow);
    }
  }

  lemma ReplacedRowsEvolve(outbox: Outbox, after: Outbox, archive: Archive)
    requires after.Keys == outbox.Keys
    requires forall id :: id in outbox ==> SameLedger(outbox[id], after[id])
    ensures Evolves(AllRows(outbox, archive), AllRows(after, archive))
  {
  }

  /** Changing the phase of one dispatcher. */
  lemma EnterAccounted(config: DeliveryConfig, w: World, d: nat, phase: Phase)
    requires Accounted(config, w) && PhaseGenuine(phase, Rows(w), w.calls)
    ensures Accounted(config, Enter(w, d, phase))
  {
  }

  lemma RecoverAccounted(config: DeliveryConfig, w: World, d: nat)
    requires config.Valid() && Accounted(config, w)
    ensures Accounted(config, RecoverStep(w, d))
  {
    var phase := PhaseOf(w, d);
    if phase.Recovering? {
      var mid := w.(db := RecoverInFlight(w.db, phase.claimTime));
      ReplacedRowsEvolve(w.db.outbox, mid.db.outbox, w.archive);
      EvolvedAccount(config, w, mid);
      EnterAccounted(config, mid, d, Claiming(phase.claimTime));
    }
  }

  lemma ClaimAccounted(config: DeliveryConfig, w: World, d: nat)
    requires config.Valid() && Consistent(w.db) && Accounted(config, w)
    ensures Accounted(config, ClaimStep(config, w, d))
  {
    var phase := PhaseOf(w, d);
    if phase.Claiming? {
      var claimed := ClaimDue(w.db, phase.claimTime, config.batchSize).value;
      var mid := w.(db := claimed.db);
      ReplacedRowsEvolve(w.db.outbox, mid.db.outbox, w.archive);
      EvolvedAccount(config, w, mid);
      ClaimsGenuine(w.db, w.archive, phase.claimTime, config.batchSize);
      EnterAccounted(config, mid, d, Sending(claimed.claims));
    }
  }

  lemma ClaimsGenuine(db: Database, archive: Archive, now: Instant, limit: int)
    requires ClaimDue(db, now, limit).Ok? && EventsOwned(db.events, db.watches)
    ensures var claimed := ClaimDue(db, now, limit).value;
            forall c :: c in claimed.claims ==> Genuine(c, AllRows(claimed.db.outbox, archive))
  {
    var claimed := ClaimDue(db, now, limit).value;
    var ids := DueFrom(db, now, 1, limit);
    forall i | 0 <= i < |claimed.claims|
      ensures Genuine(claimed.claims[i], AllRows(claimed.db.outbox, archive))
    {
      assert Due(db, ids[i], now);
    }
  }

  lemma CallAccounted(config: DeliveryConfig, w: World, d: nat, outcome: SinkOutcome)
    requires config.Valid() && Accounted(config, w)
    ensures Accounted(config, CallStep(w, d, outcome))
  {
    var phase := PhaseOf(w, d);
    if phase.Sending? && phase.pending != [] {
      var mid := w.(calls := w.calls + [CallOf(phase.pending[0], outcome)]);
      MoreCalls(Rows(w), w.acks, w.phases, w.calls, CallOf(phase.pending[0], outcome));
      EnterAccounted(config, mid, d, if outcome.Broke? then Idle(false) else Answered(phase.pending, |w.calls|));
    }
  }

  lemma MoreCalls(rows: Outbox, acks: Acks, phases: map<nat, Phase>, calls: seq<SinkCall>, call: SinkCall)
    requires AcksExact(rows, acks, calls) && PhasesGenuine(phases, rows, calls)
    ensures AcksExact(rows, acks, calls + [call]) && PhasesGenuine(phases, rows, calls + [call])
  {
    forall d | d in phases
      ensures PhaseGenuine(phases[d], rows, calls + [call])
    {
      assert PhaseGenuine(phases[d], rows, calls);
    }
  }

  // ---------------------------------------------------------------- acknowledgements

  /** What a committed acknowledgement does to its row. */
  lemma AcknowledgedRow(
    config: DeliveryConfig, db: Database, claim: ClaimedEvent, outcome: SinkOutcome, now: Instant)
    requires config.Valid()
    requires AcknowledgeTx(config, db, claim, outcome, now).Some?
    requires AcknowledgeTx(config, db, claim, outcome, now).value.Ok?
    ensures Matches(db, claim)
    ensures var after := AcknowledgeTx(config, db, claim, outcome, now).value.value;
            && claim.outboxId in after.outbox
            && after.outbox == db.outbox[claim.outboxId := after.outbox[claim.outboxId]]
            && NextRow(config, db.outbox[claim.outboxId], after.outbox[claim.outboxId], outcome)
  {
  }

  ghost predicate NextRow(config: DeliveryConfig, row: OutboxRow, after: OutboxRow, outcome: SinkOutcome) {
    && after.eventId == row.eventId
    && after.attempts == row.attempts + 1
    && (after.status == Delivered <==> outcome == ReturnedNone)
    && (after.status == Dead <==> outcome != ReturnedNone && row.attempts + 1 >= config.maxAttempts)
    && (after.status == Retry <==> outcome != ReturnedNone && row.attempts + 1 < config.maxAttempts)
  }

  lemma AcknowledgedAcks(
    config: DeliveryConfig, rows: Outbox, acks: Acks, calls: seq<SinkCall>, id: nat, row: OutboxRow, call: nat)
    requires AcksExact(rows, acks, calls)
    requires id in rows && rows[id].status != Delivered && call < |calls|
    requires calls[call].outboxId == id && calls[call].eventId == row.eventId
    requires calls[call].attemptNumber == row.attempts && !calls[call].outcome.Broke?
    requires NextRow(config, rows[id], row, calls[call].outcome)
    ensures AcksExact(rows[id := row], acks[(id, row.attempts) := call], calls)
  {
    var after, acked := rows[id := row], acks[(id, row.attempts) := call];
    forall p: (nat, nat)
      ensures p in acked <==> p.0 in after && 1 <= p.1 <= after[p.0].attempts
    {
      assert p in acks <==> p.0 in rows && 1 <= p.1 <= rows[p.0].attempts;
    }
    forall p: (nat, nat) | p in acked
      ensures AckedCall(after[p.0], p.0, p.1, calls, acked[p])
    {
      if p != (id, row.attempts) {
        assert p in acks && AckedCall(rows[p.0], p.0, p.1, calls, acks[p]);
      }
    }
  }

  lemma AcknowledgedPhases(
    config: DeliveryConfig, phases: map<nat, Phase>, rows: Outbox, calls: seq<SinkCall>, id: nat, row: OutboxRow,
    outcome: SinkOutcome)
    requires PhasesGenuine(phases, rows, calls)
    requires id in rows && NextRow(config, rows[id], row, outcome)
    ensures PhasesGenuine(phases, rows[id := row], calls)
  {
    forall d | d in phases
      ensures PhaseGenuine(phases[d], rows[id := row], calls)
    {
      assert PhaseGenuine(phases[d], rows, calls);
    }
  }

  lemma ReplacedRow(outbox: Outbox, archive: Archive, id: nat, row: OutboxRow)
    requires id in outbox
    ensures AllRows(outbox[id := row], archive) == AllRows(outbox, archive)[id := row]
  {
  }

  lemma AnsweredIsGenuine(config: DeliveryConfig, w: World, d: nat)
    requires Accounted(config, w) && PhaseOf(w, d).Answered?
    ensures PhaseGenuine(PhaseOf(w, d), Rows(w), w.calls)
    ensures PhaseOf(w, d).pending != [] && PhaseOf(w, d).call < |w.calls|
    ensures PhaseGenuine(Idle(false), Rows(w), w.calls)
  {
  }

  lemma AcknowledgeAccounted(config: DeliveryConfig, w: World, d: nat, now: Instant)
    requires config.Valid() && Accounted(config, w)
    ensures Accounted(config, AcknowledgeStep(config, w, d, now))
  {
    hide Accounted, AcknowledgeTx, PhaseGenuine, Rows;
    var phase := PhaseOf(w, d);
    if phase.Answered? {
      AnsweredIsGenuine(config, w, d);
      var claim := phase.pending[0];
      var tx := AcknowledgeTx(config, w.db, claim, w.calls[phase.call].outcome, now);
      if tx.Some? && tx.value.Ok? {
        CommitAccounted(config, w, phase, now);
        EnterAccounted(
          config, w.(db := tx.value.value, acks := w.acks[(claim.outboxId, claim.attempts + 1) := phase.call]),
          d, Sending(phase.pending[1..]));
      } else {
        EnterAccounted(config, w, d, Idle(false));
      }
    }
  }

  lemma CommitAccounted(config: DeliveryConfig, w: World, phase: Phase, now: Instant)
    requires config.Valid() && Accounted(config, w)
    requires phase.Answered? && PhaseGenuine(phase, Rows(w), w.calls)
    requires AcknowledgeTx(config, w.db, phase.pending[0], w.calls[phase.call].outcome, now).Some?
    requires AcknowledgeTx(config, w.db, phase.pending[0], w.calls[phase.call].outcome, now).value.Ok?
    ensures var claim := phase.pending[0];
            var db := AcknowledgeTx(config, w.db, claim, w.calls[phase.call].outcome, now).value.value;
            var mid := w.(db := db, acks := w.acks[(claim.outboxId, claim.attempts + 1) := phase.call]);
            Accounted(config, mid) && PhaseGenuine(Sending(phase.pending[1..]), Rows(mid), w.calls)
  {
    var claim := phase.pending[0];
    var outcome := w.calls[phase.call].outcome;
    var db := AcknowledgeTx(config, w.db, claim, outcome, now).value.value;
    AcknowledgedRow(config, w.db, claim, outcome, now);
    AcknowledgeTxKeeps(config, w.db, claim, outcome, now);
    var row := db.outbox[claim.outboxId];
    CommittedAccounted(config, w, db, claim, row, phase.call);
    ReplacedRow(w.db.outbox, w.archive, claim.outboxId, row);
    forall c | c in phase.pending[1..]
      ensures Genuine(c, Rows(w)[claim.outboxId := row])
    {
      assert Genuine(c, Rows(w));
    }
  }

  lemma CommittedAccounted(
    config: DeliveryConfig, w: World, db: Database, claim: ClaimedEvent, row: OutboxRow, call: nat)
    requires config.Valid() && Accounted(config, w) && Matches(w.db, claim)
    requires call < |w.calls| && w.calls[call] == CallOf(claim, w.calls[call].outcome)
    requires !w.calls[call].outcome.Broke?
    requires NextRow(config, w.db.outbox[claim.outboxId], row, w.calls[call].outcome)
    requires db.outbox == w.db.outbox[claim.outboxId := row] && db.outboxSequence == w.db.outboxSequence
    ensures Accounted(config, w.(db := db, acks := w.acks[(claim.outboxId, claim.attempts + 1) := call]))
  {
    var id := claim.outboxId;
    ReplacedRow(w.db.outbox, w.archive, id, row);
    AcknowledgedAcks(config, Rows(w), w.acks, w.calls, id, row, call);
    AcknowledgedPhases(config, w.phases, Rows(w), w.calls, id, row, w.calls[call].outcome);
    assert WithinBudget(Rows(w)[id], config.maxAttempts);
    assert Budgeted(Rows(w)[id := row], config.maxAttempts);
  }

  // ---------------------------------------------------------------- every run

  lemma SameDeliveryAccounted(config: DeliveryConfig, w: World, after: World)
    requires Accounted(config, w)
    requires after.db.outbox == w.db.outbox && after.db.outboxSequence == w.db.outboxSequence
    requires after.archive == w.archive && after.acks == w.acks
    requires after.calls == w.calls && after.phases == w.phases
    ensures Accounted(config, after)
  {
  }

  lemma BeginAccounted(config: DeliveryConfig, w: World, d: nat, now: Instant)
    requires Accounted(config, w)
    ensures Accounted(config, BeginStep(w, d, now))
  {
    if PhaseOf(w, d).Idle? {
      EnterAccounted(config, w, d, if PhaseOf(w, d).recovered then Claiming(now) else Recovering(now));
    }
  }

  lemma FinishAccounted(config: DeliveryConfig, w: World, d: nat)
    requires Accounted(config, w)
    ensures Accounted(config, FinishStep(w, d))
  {
    if PhaseOf(w, d).Sending? {
      EnterAccounted(config, w, d, Idle(true));
    }
  }

  lemma PersistKeepsOutbox(db: Database, x: WatchId, id: ObservationId, observation: Observation, now: Instant)
    ensures var r := Persist(db, x, id, observation, now);
            r.Ok? ==> r.value.outbox == db.outbox && r.value.outboxSequence == db.outboxSequence
  {
  }

  lemma PersistAccounted(
    config: DeliveryConfig, w: World, x: WatchId, id: ObservationId, observation: Observation, now: Instant)
    requires Accounted(config, w)
    ensures Accounted(config, PersistStep(w, x, id, observation, now))
  {
    PersistKeepsOutbox(w.db, x, id, observation, now);
    var r := Persist(w.db, x, id, observation, now);
    if r.Ok? {
      SameDeliveryAccounted(config, w, w.(db := r.value));
    }
  }

  lemma MarkAccounted(config: DeliveryConfig, w: World, x: WatchId)
    requires Accounted(config, w)
    ensures Accounted(config, w.(db := EnsureWatch(w.db, x)))
  {
    SameDeliveryAccounted(config, w, w.(db := EnsureWatch(w.db, x)));
  }

  lemma StorageAccounted(config: DeliveryConfig, w: World, a: Action)
    requires config.Valid() && Consistent(w.db) && Accounted(config, w) && !IsDelivery(a)
    ensures Accounted(config, Next(config, w, a))
  {
    hide Consistent, Accounted, EnsureWatch, PersistStep, PromoteStep, PurgeStep, DeleteStep;
    match a
    case PromoteObservation(x, id, policy, factory, now) => PromoteAccounted(config, w, x, id, policy, factory, now);
    case Purge(cutoff, watch) => PurgeAccounted(config, w, cutoff, watch);
    case Delete(x, allow) => DeleteAccounted(config, w, x, allow);
    case MarkRunStarted(x) => MarkAccounted(config, w, x);
    case PersistObservation(x, id, observation, now) => PersistAccounted(config, w, x, id, observation, now);
  }

  lemma DeliveryAccounted(config: DeliveryConfig, w: World, a: Action)
    requires config.Valid() && Consistent(w.db) && Accounted(config, w) && IsDelivery(a)
    ensures Accounted(config, Next(config, w, a))
  {
    hide Consistent, Accounted, BeginStep, RecoverStep, ClaimStep, CallStep, AcknowledgeStep, FinishStep, Enter;
    match a
    case Begin(d, now) => BeginAccounted(config, w, d, now);
    case Recover(d) => RecoverAccounted(config, w, d);
    case Claim(d) => ClaimAccounted(config, w, d);
    case CallSink(d, outcome) => CallAccounted(config, w, d, outcome);
    case Acknowledgement(d, now) => AcknowledgeAccounted(config, w, d, now);
    case Finish(d) => FinishAccounted(config, w, d);
    case Interrupt(d) => EnterAccounted(config, w, d, Idle(false));
  }

  lemma NextAccounted(config: DeliveryConfig, w: World, a: Action)
    requires config.Valid() && Consistent(w.db) && Accounted(config, w)
    ensures Accounted(config, Next(config, w, a))
  {
    if IsDelivery(a) {
      DeliveryAccounted(config, w, a);
    } else {
      StorageAccounted(config, w, a);
    }
  }

  lemma {:induction false} RunAccounted(config: DeliveryConfig, w: World, actions: seq<Action>)
    requires config.Valid() && Consistent(w.db) && Accounted(config, w)
    ensures Accounted(config, Run(config, w, actions))
    decreases actions
  {
    if actions != [] {
      NextConsistent(config, w, actions[0]);
      NextAccounted(config, w, actions[0]);
      RunAccounted(config, Next(config, w, actions[0]), actions[1..]);
    }
  }
}
