/**
  Apply, resume and roll back one import batch with any number of workers.

  A state holds the batch row, the tables and where each worker is. `Step` is one
  atomic action of one worker: a read, a conditional update of the batch row, the
  transaction of one conversation, the rollback transaction, or a crash. A run is
  any sequence of events, each with a clock reading of its own, so that the lemmas
  hold for every interleaving and every clock.
 */
module ImportProtocol {
  import opened Wrappers
  import opened ImportTables
  import opened ImportApply
  import opened ImportRollback
  import opened ImportInverse

  type WorkerId = nat
  type ClaimId = nat

  const LEASE_MS: int := 300_000

  datatype BatchStatus = BatchApplying | BatchApplied | BatchFailed | BatchRolledBack

  datatype Batch = Batch(
    status: BatchStatus,
    claimId: Option<ClaimId>,
    leaseUntil: Option<Instant>,
    appliedAt: Option<Instant>)

  /** One upsert row of the package with its messages and documents. */
  datatype Upsert = Upsert(row: ConversationRow, messages: seq<MessageRow>, documents: seq<DocumentRow>)

  datatype Config = Config(input: ApplyInput, cutoffAt: Instant, upserts: seq<Upsert>, concurrency: nat)

  /**
    Where a worker is in its call. `running` are the rows whose transaction it has
    decided to run, `done` those it has committed or found committed.
   */
  datatype Worker =
    | Idle
    | ApplyChecked(exists_: bool)
    | Importing(claim: ClaimId, running: set<nat>, done: set<nat>, failed: bool)
    | RollbackChecked
    | RollingBack(claim: ClaimId)
    | RollbackFailing(claim: ClaimId)

  datatype State = State(
    batch: Option<Batch>,
    tables: Tables,
    workers: map<WorkerId, Worker>,
    usedClaims: set<ClaimId>)

  datatype Event =
    | ApplyRead(worker: WorkerId, now: Instant)
    | ApplyClaim(worker: WorkerId, now: Instant, claim: ClaimId)
    | Renew(worker: WorkerId, now: Instant)
    | CheckRow(worker: WorkerId, index: nat)
    | CommitRow(worker: WorkerId, index: nat, ids: NewIds, now: Instant, acknowledged: bool)
    | RowError(worker: WorkerId, index: nat)
    | Finalize(worker: WorkerId, now: Instant)
    | Fail(worker: WorkerId)
    | RollbackRead(worker: WorkerId)
    | RollbackClaim(worker: WorkerId, now: Instant, claim: ClaimId)
    | RollbackCommit(worker: WorkerId, order: seq<Record>)
    | RollbackRelease(worker: WorkerId)
    | Crash(worker: WorkerId)

  // ---- The batch row ----------------------------------------------------------

  predicate LeaseHeld(b: Batch, now: Instant) {
    b.leaseUntil.Some? && b.leaseUntil.value > now
  }

  /** Whether a call to apply goes on after reading the batch row. */
  predicate ApplyAllowed(batch: Option<Batch>, now: Instant) {
    batch.Some? ==>
      || batch.value.status == BatchFailed
      || (batch.value.status == BatchApplying && !LeaseHeld(batch.value, now))
  }

  /** The conditional update that takes over an existing batch. */
  predicate Claimable(batch: Option<Batch>, now: Instant) {
    && batch.Some?
    && (|| batch.value.status == BatchFailed
        || (batch.value.status == BatchApplying && (batch.value.leaseUntil.None? || batch.value.leaseUntil.value <= now)))
  }

  predicate RollbackClaimable(batch: Option<Batch>, now: Instant) {
    && batch.Some? && batch.value.status == BatchApplied
    && (|| batch.value.claimId.None?
        || batch.value.leaseUntil.None?
        || batch.value.leaseUntil.value <= now)
  }

  /** The guard of every later update: the status and the worker's own claim. */
  predicate Holds(batch: Option<Batch>, status: BatchStatus, claim: ClaimId) {
    batch.Some? && batch.value.status == status && batch.value.claimId == Some(claim)
  }

  // ---- Records ----------------------------------------------------------------

  predicate RecordFor(c: Config, r: Record, i: nat)
    requires i < |c.upserts|
  {
    SameRecordKey(r, c.input.batchId, c.upserts[i].row.sourceSystem, c.upserts[i].row.externalConversationId)
  }

  predicate HasRecord(c: Config, records: seq<Record>, i: nat)
    requires i < |c.upserts|
  {
    exists r | r in records :: RecordFor(c, r, i)
  }

  predicate HasAppliedRecord(c: Config, records: seq<Record>, i: nat)
    requires i < |c.upserts|
  {
    exists r | r in records :: RecordFor(c, r, i) && r.status == Applied
  }

  /** The records a rollback reads: applied ones of the batch. */
  function AppliedRecords(records: seq<Record>, batchId: Id): seq<Record> {
    if records == [] then []
    else
      var front := AppliedRecords(records[..|records| - 1], batchId);
      var r := records[|records| - 1];
      if r.batchId == batchId && r.status == Applied then front + [r] else front
  }

  /** Latest first, by time and then by id. */
  predicate LatestFirst(order: seq<Record>) {
    forall a, b | 0 <= a < b < |order| :: !LaterRecord(order[b], order[a])
  }

  // ---- Steps --------------------------------------------------------------------

  function WorkerOf(s: State, w: WorkerId): Worker {
    if w in s.workers then s.workers[w] else Idle
  }

  function Goto(s: State, w: WorkerId, k: Worker): State {
    s.(workers := s.workers[w := k])
  }

  function StepApplyRead(s: State, w: WorkerId, now: Instant): State {
    if WorkerOf(s, w).Idle? && ApplyAllowed(s.batch, now) then Goto(s, w, ApplyChecked(s.batch.Some?)) else s
  }

  function StepApplyClaim(s: State, w: WorkerId, now: Instant, claim: ClaimId): State {
    var k := WorkerOf(s, w);
    if !k.ApplyChecked? || claim in s.usedClaims then s
    else
      var drawn := s.(usedClaims := s.usedClaims + {claim});
      if !k.exists_ && s.batch.None? then
        Goto(drawn.(batch := Some(Batch(BatchApplying, Some(claim), Some(now + LEASE_MS), None))), w, Importing(claim, {}, {}, false))
      else if k.exists_ && Claimable(s.batch, now) then
        Goto(drawn.(batch := Some(Batch(BatchApplying, Some(claim), Some(now + LEASE_MS), None))), w, Importing(claim, {}, {}, false))
      else Goto(drawn, w, Idle)
  }

  function StepRenew(s: State, w: WorkerId, now: Instant): State {
    var k := WorkerOf(s, w);
    if !k.Importing? then s
    else if Holds(s.batch, BatchApplying, k.claim) then s.(batch := Some(s.batch.value.(leaseUntil := Some(now + LEASE_MS))))
    else Goto(s, w, k.(failed := true))
  }

  predicate MayStart(c: Config, k: Worker, i: nat) {
    && k.Importing? && i < |c.upserts| && i !in k.running && i !in k.done
    && |k.running| < c.concurrency
    && forall j | j in k.running :: j < |c.upserts| && c.upserts[j].row.phone != c.upserts[i].row.phone
  }

  function StepCheckRow(c: Config, s: State, w: WorkerId, i: nat): State {
    var k := WorkerOf(s, w);
    if !MayStart(c, k, i) then s
    else if HasAppliedRecord(c, s.tables.records, i) then Goto(s, w, k.(done := k.done + {i}))
    else Goto(s, w, k.(running := k.running + {i}))
  }

  /** The transaction commits or aborts; an unacknowledged commit looks like an error to the worker. */
  ghost function StepCommitRow(c: Config, s: State, w: WorkerId, i: nat, ids: NewIds, now: Instant, acknowledged: bool): State {
    var k := WorkerOf(s, w);
    if !k.Importing? || i !in k.running || i >= |c.upserts| then s
    else
      var settled := k.(running := k.running - {i});
      var u := c.upserts[i];
      match ApplyConversation(s.tables, c.input, u.row, u.messages, u.documents, ids, now)
      case Ok(t) =>
        Goto(s.(tables := t), w, if acknowledged then settled.(done := k.done + {i}) else settled.(failed := true))
      case Err(_) => Goto(s, w, settled.(failed := true))
  }

  function StepRowError(s: State, w: WorkerId, i: nat): State {
    var k := WorkerOf(s, w);
    if !k.Importing? || i !in k.running then s
    else Goto(s, w, k.(running := k.running - {i}, failed := true))
  }

  predicate AllDone(c: Config, k: Worker) {
    k.Importing? && k.running == {} && !k.failed && forall i | 0 <= i < |c.upserts| :: i in k.done
  }

  function StepFinalize(c: Config, s: State, w: WorkerId, now: Instant): State {
    var k := WorkerOf(s, w);
    if !AllDone(c, k) then s
    else if Holds(s.batch, BatchApplying, k.claim) then
      Goto(s.(batch := Some(Batch(BatchApplied, None, None, Some(now)))), w, Idle)
    else Goto(s, w, k.(failed := true))
  }

  function StepFail(s: State, w: WorkerId): State {
    var k := WorkerOf(s, w);
    if !k.Importing? || !k.failed || k.running != {} then s
    else if Holds(s.batch, BatchApplying, k.claim) then
      Goto(s.(batch := Some(s.batch.value.(status := BatchFailed, claimId := None, leaseUntil := None))), w, Idle)
    else Goto(s, w, Idle)
  }

  function StepRollbackRead(s: State, w: WorkerId): State {
    if WorkerOf(s, w).Idle? && s.batch.Some? && s.batch.value.status == BatchApplied && s.batch.value.appliedAt.Some?
    then Goto(s, w, RollbackChecked) else s
  }

  function StepRollbackClaim(s: State, w: WorkerId, now: Instant, claim: ClaimId): State {
    if !WorkerOf(s, w).RollbackChecked? || claim in s.usedClaims then s
    else
      var drawn := s.(usedClaims := s.usedClaims + {claim});
      if RollbackClaimable(s.batch, now) then
        Goto(drawn.(batch := Some(s.batch.value.(claimId := Some(claim), leaseUntil := Some(now + LEASE_MS)))), w, RollingBack(claim))
      else Goto(drawn, w, Idle)
  }

  /** The serializable transaction that checks for blockers and undoes every record. */
  ghost function StepRollbackCommit(c: Config, s: State, w: WorkerId, order: seq<Record>): State {
    var k := WorkerOf(s, w);
    if !k.RollingBack? || multiset(order) != multiset(AppliedRecords(s.tables.records, c.input.batchId)) || !LatestFirst(order) then s
    else if !Holds(s.batch, BatchApplied, k.claim) || s.batch.value.appliedAt.None? then Goto(s, w, RollbackFailing(k.claim))
    else if CollectBlockers(s.tables, c.cutoffAt, order, |order|) != [] then Goto(s, w, RollbackFailing(k.claim))
    else
      match RollbackAll(s.tables, order, |order|)
      case Err(_) => Goto(s, w, RollbackFailing(k.claim))
      case Ok(t) =>
        Goto(s.(tables := t, batch := Some(s.batch.value.(status := BatchRolledBack, claimId := None, leaseUntil := None))), w, Idle)
  }

  function StepRollbackRelease(s: State, w: WorkerId): State {
    var k := WorkerOf(s, w);
    if !k.RollbackFailing? then s
    else if Holds(s.batch, BatchApplied, k.claim) then
      Goto(s.(batch := Some(s.batch.value.(claimId := None, leaseUntil := None))), w, Idle)
    else Goto(s, w, Idle)
  }

  ghost function Step(c: Config, s: State, e: Event): State {
    match e
    case ApplyRead(w, now) => StepApplyRead(s, w, now)
    case ApplyClaim(w, now, claim) => StepApplyClaim(s, w, now, claim)
    case Renew(w, now) => StepRenew(s, w, now)
    case CheckRow(w, i) => StepCheckRow(c, s, w, i)
    case CommitRow(w, i, ids, now, acknowledged) => StepCommitRow(c, s, w, i, ids, now, acknowledged)
    case RowError(w, i) => StepRowError(s, w, i)
    case Finalize(w, now) => StepFinalize(c, s, w, now)
    case Fail(w) => StepFail(s, w)
    case RollbackRead(w) => StepRollbackRead(s, w)
    case RollbackClaim(w, now, claim) => StepRollbackClaim(s, w, now, claim)
    case RollbackCommit(w, order) => StepRollbackCommit(c, s, w, order)
    case RollbackRelease(w) => StepRollbackRelease(s, w)
    case Crash(w) => Goto(s, w, Idle)
  }

  ghost function Run(c: Config, s: State, events: seq<Event>): State {
    if events == [] then s
    else Step(c, Run(c, s, events[..|events| - 1]), events[|events| - 1])
  }

  function Initial(base: Tables): State {
    State(None, base, map[], {})
  }

  /** Tables before the batch: constraints hold, quotes are restorable, and no record of the batch exists. */
  ghost predicate BeforeBatch(c: Config, base: Tables) {
    && WellFormed(base) && AllRestorable(base)
    && (forall r | r in base.records :: r.batchId != c.input.batchId)
  }

  /** External conversation ids are distinct in a validated package. */
  predicate DistinctUpserts(c: Config) {
    forall i, j | 0 <= i < j < |c.upserts| ::
      c.upserts[i].row.externalConversationId != c.upserts[j].row.externalConversationId
  }
}
