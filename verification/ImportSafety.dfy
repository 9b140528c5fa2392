/**
  What holds in every state that any interleaving of workers can reach, whatever
  their clocks read and wherever they crash.
 */
module ImportSafety {
  import opened Wrappers
  import opened ImportTables
  import opened ImportApply
  import opened ImportEffect
  import opened ImportRollback
  import opened ImportInverse
  import opened ImportContents
  import opened ImportProtocol

  // ---- The batch row and the claims ------------------------------------------------

  predicate OwnsClaim(k: Worker, claim: ClaimId) {
    (k.Importing? || k.RollingBack? || k.RollbackFailing?) && k.claim == claim
  }

  ghost predicate ClaimsDrawn(s: State) {
    && (forall w, claim | w in s.workers && OwnsClaim(s.workers[w], claim) :: claim in s.usedClaims)
    && (s.batch.Some? && s.batch.value.claimId.Some? ==> s.batch.value.claimId.value in s.usedClaims)
  }

  ghost predicate ClaimsDistinct(s: State) {
    forall v, w, claim | v in s.workers && w in s.workers && OwnsClaim(s.workers[v], claim) && OwnsClaim(s.workers[w], claim) :: v == w
  }

  predicate BatchConsistent(batch: Option<Batch>) {
    batch.Some? ==>
      match batch.value.status
      case BatchApplying => batch.value.claimId.Some? && batch.value.leaseUntil.Some? && batch.value.appliedAt.None?
      case BatchFailed => batch.value.claimId.None? && batch.value.leaseUntil.None? && batch.value.appliedAt.None?
      case BatchApplied => batch.value.appliedAt.Some? && (batch.value.claimId.Some? <==> batch.value.leaseUntil.Some?)
      case BatchRolledBack => batch.value.claimId.None? && batch.value.leaseUntil.None?
  }

  ghost predicate ClaimInv(s: State) {
    ClaimsDrawn(s) && ClaimsDistinct(s) && BatchConsistent(s.batch)
  }

  /** One worker moves; claims it did not have before are newly drawn, and so is a new claim on the batch. */
  ghost predicate ClaimMove(s: State, b: State, w: WorkerId) {
    && s.usedClaims <= b.usedClaims
    && (b.workers == s.workers || b.workers == s.workers[w := WorkerOf(b, w)])
    && (forall claim | OwnsClaim(WorkerOf(b, w), claim) ::
          OwnsClaim(WorkerOf(s, w), claim) || (claim !in s.usedClaims && claim in b.usedClaims))
    && (b.batch.Some? && b.batch.value.claimId.Some? ==>
          || (s.batch.Some? && b.batch.value.claimId == s.batch.value.claimId)
          || b.batch.value.claimId.value in b.usedClaims)
  }

  lemma MoveOfCommit(c: Config, s: State, w: WorkerId, i: nat, ids: NewIds, now: Instant, acknowledged: bool)
    ensures ClaimMove(s, StepCommitRow(c, s, w, i, ids, now, acknowledged), w)
  {
  }

  lemma MoveOfRollback(c: Config, s: State, w: WorkerId, order: seq<Record>)
    ensures ClaimMove(s, StepRollbackCommit(c, s, w, order), w)
  {
  }

  lemma MoveOfOther(c: Config, s: State, e: Event)
    requires !e.CommitRow? && !e.RollbackCommit?
    ensures ClaimMove(s, Step(c, s, e), e.worker)
  {
  }

  lemma MoveOf(c: Config, s: State, e: Event)
    ensures ClaimMove(s, Step(c, s, e), e.worker)
  {
    if e.CommitRow? {
      MoveOfCommit(c, s, e.worker, e.index, e.ids, e.now, e.acknowledged);
    } else if e.RollbackCommit? {
      MoveOfRollback(c, s, e.worker, e.order);
    } else {
      MoveOfOther(c, s, e);
    }
  }

  lemma MoveKeepsClaims(s: State, b: State, w: WorkerId)
    requires ClaimsDrawn(s) && ClaimsDistinct(s) && ClaimMove(s, b, w)
    ensures ClaimsDrawn(b) && ClaimsDistinct(b)
  {
    forall v, claim | v in b.workers && OwnsClaim(b.workers[v], claim)
      ensures claim in b.usedClaims
    {
      assert v != w ==> v in s.workers && b.workers[v] == s.workers[v];
    }
    forall u, v, claim | u in b.workers && v in b.workers && OwnsClaim(b.workers[u], claim) && OwnsClaim(b.workers[v], claim)
      ensures u == v
    {
      assert u != w ==> u in s.workers && b.workers[u] == s.workers[u];
      assert v != w ==> v in s.workers && b.workers[v] == s.workers[v];
    }
  }

  lemma ConsistentStep(c: Config, s: State, e: Event)
    requires ClaimInv(s)
    ensures BatchConsistent(Step(c, s, e).batch)
  {
  }

  lemma ClaimStep(c: Config, s: State, e: Event)
    requires ClaimInv(s)
    ensures ClaimInv(Step(c, s, e))
  {
    MoveOf(c, s, e);
    MoveKeepsClaims(s, Step(c, s, e), e.worker);
    ConsistentStep(c, s, e);
  }

  /** The status of the batch, or none before it exists. */
  function Status(s: State): Option<BatchStatus> {
    if s.batch.Some? then Some(s.batch.value.status) else None
  }

  /** The moves between statuses that the protocol makes. */
  predicate LegalMove(a: Option<BatchStatus>, b: Option<BatchStatus>) {
    || a == b
    || (a == None && b == Some(BatchApplying))
    || (a == Some(BatchApplying) && b == Some(BatchApplied))
    || (a == Some(BatchApplying) && b == Some(BatchFailed))
    || (a == Some(BatchFailed) && b == Some(BatchApplying))
    || (a == Some(BatchApplied) && b == Some(BatchRolledBack))
  }

  /** APPLIED never goes back to APPLYING, and ROLLED_BACK is left by nothing. */
  lemma StatusMoves(c: Config, s: State, e: Event)
    ensures LegalMove(Status(s), Status(Step(c, s, e)))
    ensures Status(s) == Some(BatchRolledBack) ==> Step(c, s, e).batch == s.batch
  {
  }

  /** Only the worker that holds the stored claim takes the batch out of APPLYING or APPLIED. */
  lemma OnlyTheHolderMoves(c: Config, s: State, e: Event)
    requires Status(s) == Some(BatchApplying) || Status(s) == Some(BatchApplied)
    requires Status(Step(c, s, e)) != Status(s)
    ensures s.batch.value.claimId.Some?
    ensures OwnsClaim(WorkerOf(s, e.worker), s.batch.value.claimId.value)
  {
  }

  /** A worker whose claim has been taken over cannot change the batch row any more. */
  lemma SupersededIsHarmless(c: Config, s: State, e: Event, claim: ClaimId)
    requires OwnsClaim(WorkerOf(s, e.worker), claim)
    requires s.batch.Some? && s.batch.value.claimId != Some(claim)
    ensures Step(c, s, e).batch == s.batch
  {
  }

  /** While a lease has not run out, no other worker can claim the batch. */
  lemma LeaseExcludes(c: Config, s: State, e: Event)
    requires ClaimInv(s) && (e.ApplyClaim? || e.RollbackClaim?)
    requires s.batch.Some? && s.batch.value.claimId.Some? && LeaseHeld(s.batch.value, e.now)
    ensures Step(c, s, e).batch == s.batch
  {
  }

  // ---- The tables ----------------------------------------------------------------------

  /** The tables are `base` plus the commits in `records`, each for one row of the package, stored in full. */
  ghost predicate Explains(c: Config, base: Tables, t: Tables, states: seq<Tables>, records: seq<Record>) {
    && History(states, records, c.input)
    && states[0] == base && states[|records|] == t
    && WellFormed(t)
    && t.records == base.records + records
    && (forall r | r in records :: RecordOfPackage(c, t, r))
    && NewRefsSay(base, t)
  }

  ghost predicate RecordOfPackage(c: Config, t: Tables, r: Record) {
    && r.status == Applied && r.batchId == c.input.batchId
    && exists i: nat :: StoresUpsert(c, t, r, i)
  }

  /** Messages and documents of row `i` are stored in the conversation. */
  predicate UpsertStored(c: Config, t: Tables, i: nat, v: Id)
    requires i < |c.upserts|
  {
    RowStored(t, c.upserts[i].row, c.upserts[i].messages, c.upserts[i].documents, v)
  }

  ghost predicate StoresUpsert(c: Config, t: Tables, r: Record, i: nat) {
    i < |c.upserts| && RecordFor(c, r, i) && UpsertStored(c, t, i, r.conversationId)
  }

  ghost predicate Explained(c: Config, base: Tables, t: Tables) {
    exists states, records :: Explains(c, base, t, states, records)
  }

  /** Rows that a worker regards as done have a record. */
  ghost predicate DoneRecorded(c: Config, s: State) {
    forall w | w in s.workers && s.workers[w].Importing? :: RecordedSet(c, s.tables.records, s.workers[w].done)
  }

  predicate RecordedSet(c: Config, records: seq<Record>, done: set<nat>) {
    forall i | i in done :: i < |c.upserts| && HasRecord(c, records, i)
  }

  ghost predicate AllRecorded(c: Config, t: Tables) {
    forall i: nat | i < |c.upserts| :: HasRecord(c, t.records, i)
  }

  ghost predicate TablesInv(c: Config, base: Tables, s: State) {
    && DoneRecorded(c, s)
    && (if Status(s) == Some(BatchRolledBack) then SameRows(s.tables, base) else Explained(c, base, s.tables))
    && (Status(s) == Some(BatchApplied) || Status(s) == Some(BatchRolledBack) ==> AllRecorded(c, s.tables))
  }

  ghost predicate Inv(c: Config, base: Tables, s: State) {
    ClaimInv(s) && TablesInv(c, base, s)
  }

  lemma InitialInv(c: Config, base: Tables)
    requires BeforeBatch(c, base)
    ensures Inv(c, base, Initial(base))
  {
    assert Explains(c, base, base, [base], []);
  }

  // ---- Commits -----------------------------------------------------------------------------

  lemma HistoryAppend(states: seq<Tables>, records: seq<Record>, input: ApplyInput, b: Tables, r: Record)
    requires History(states, records, input)
    requires Effect(states[|records|], b, r, input)
    ensures History(states + [b], records + [r], input)
  {
    forall i | 0 <= i < |records| + 1
      ensures CommitAt(states + [b], records + [r], input, i)
    {
      if i < |records| {
        assert CommitAt(states, records, input, i);
      }
    }
  }

  lemma EffectKeepsPackage(c: Config, a: Tables, b: Tables, r: Record, earlier: Record)
    requires Effect(a, b, r, c.input) && RecordOfPackage(c, a, earlier)
    ensures RecordOfPackage(c, b, earlier)
  {
    var i: nat :| StoresUpsert(c, a, earlier, i);
    EffectKeepsRow(a, b, r, c.input, c.upserts[i].row, c.upserts[i].messages, c.upserts[i].documents, earlier.conversationId);
    assert StoresUpsert(c, b, earlier, i);
  }

  lemma ExplainsAppend(c: Config, base: Tables, t: Tables, b: Tables, states: seq<Tables>, records: seq<Record>, r: Record, i: nat)
    requires Explains(c, base, t, states, records) && i < |c.upserts|
    requires Effect(t, b, r, c.input) && WellFormed(b) && NewRefsSay(t, b)
    requires RecordFor(c, r, i) && UpsertStored(c, b, i, r.conversationId)
    ensures Explains(c, base, b, states + [b], records + [r]) && HasRecord(c, b.records, i)
  {
    HistoryAppend(states, records, c.input, b, r);
    CommitPackage(c, base, t, b, records, r, i);
    SayingGoesOn(base, t, b, r, c.input);
    LastOfAppend(states, b);
  }

  lemma LastOfAppend(states: seq<Tables>, b: Tables)
    ensures (states + [b])[|states|] == b && (|states| > 0 ==> (states + [b])[0] == states[0])
  {
  }

  /** One more commit of a row of the package. */
  lemma ExplainedAppend(c: Config, base: Tables, t: Tables, b: Tables, r: Record, i: nat)
    requires Explained(c, base, t) && i < |c.upserts|
    requires Effect(t, b, r, c.input) && WellFormed(b) && NewRefsSay(t, b)
    requires RecordFor(c, r, i) && UpsertStored(c, b, i, r.conversationId)
    ensures Explained(c, base, b)
    ensures t.records <= b.records && HasRecord(c, b.records, i)
  {
    var states, records :| Explains(c, base, t, states, records);
    ExplainsAppend(c, base, t, b, states, records, r, i);
  }

  lemma ExplainedWellFormed(c: Config, base: Tables, t: Tables)
    requires Explained(c, base, t)
    ensures WellFormed(t)
  {
  }

  lemma CommitExplained(c: Config, base: Tables, t: Tables, i: nat, ids: NewIds, now: Instant, b: Tables)
    requires Explained(c, base, t) && i < |c.upserts|
    requires ApplyConversation(t, c.input, c.upserts[i].row, c.upserts[i].messages, c.upserts[i].documents, ids, now) == Ok(b)
    ensures Explained(c, base, b)
    ensures t.records <= b.records && HasRecord(c, b.records, i)
  {
    var u := c.upserts[i];
    ExplainedWellFormed(c, base, t);
    ApplyEffect(t, c.input, u.row, u.messages, u.documents, ids, now);
    ApplyStoresRow(t, c.input, u.row, u.messages, u.documents, ids, now, b);
    ApplySays(t, c.input, u.row, u.messages, u.documents, ids, now, b);
    ExplainedAppend(c, base, t, b, b.records[|t.records|], i);
  }

  lemma CommitPackage(c: Config, base: Tables, t: Tables, b: Tables, records: seq<Record>, r: Record, i: nat)
    requires Effect(t, b, r, c.input) && i < |c.upserts|
    requires t.records == base.records + records
    requires forall e | e in records :: RecordOfPackage(c, t, e)
    requires RecordFor(c, r, i) && UpsertStored(c, b, i, r.conversationId)
    ensures b.records == base.records + (records + [r])
    ensures forall e | e in records + [r] :: RecordOfPackage(c, b, e)
    ensures HasRecord(c, b.records, i)
  {
    assert StoresUpsert(c, b, r, i);
    assert r in b.records;
    forall e | e in records + [r]
      ensures RecordOfPackage(c, b, e)
    {
      if e in records {
        EffectKeepsPackage(c, t, b, r, e);
      }
    }
  }

  /** Once every row has its record, no transaction of the batch can commit again. */
  lemma RecordedRowsAbort(c: Config, t: Tables, i: nat, ids: NewIds, now: Instant)
    requires i < |c.upserts| && HasRecord(c, t.records, i)
    ensures ApplyConversation(t, c.input, c.upserts[i].row, c.upserts[i].messages, c.upserts[i].documents, ids, now).Err?
  {
    var r :| r in t.records && RecordFor(c, r, i);
    var k :| 0 <= k < |t.records| && t.records[k] == r;
    var u := c.upserts[i];
    var result := ApplyConversation(t, c.input, u.row, u.messages, u.documents, ids, now);
    if result.Ok? {
      RecordKeyTaken(t, c.input, u.row, u.messages, u.documents, ids, now, k);
    }
  }

  lemma RecordKeyTaken(
    t: Tables, input: ApplyInput, row: ConversationRow, messages: seq<MessageRow>, documents: seq<DocumentRow>, ids: NewIds, now: Instant, k: nat)
    requires k < |t.records| && SameRecordKey(t.records[k], input.batchId, row.sourceSystem, row.externalConversationId)
    ensures ApplyConversation(t, input, row, messages, documents, ids, now).Err?
  {
    assert forall r: Record | SameRecordKey(r, input.batchId, row.sourceSystem, row.externalConversationId) :: RecordConflict(t.records, r);
  }

  /** What a commit event leaves: the batch row, the tables, and which rows count as done. */
  ghost predicate CommitOutcome(c: Config, s: State, b: State, w: WorkerId, i: nat, committed: bool) {
    && b.batch == s.batch
    && (!committed ==> b.tables == s.tables)
    && (|| b.workers == s.workers
        || (&& w in s.workers && s.workers[w].Importing?
            && w in b.workers && b.workers == s.workers[w := b.workers[w]] && b.workers[w].Importing?
            && b.workers[w].done <= s.workers[w].done + (if committed then {i} else {})))
  }

  lemma CommitFacts(c: Config, s: State, w: WorkerId, i: nat, ids: NewIds, now: Instant, acknowledged: bool) returns (committed: bool)
    ensures CommitOutcome(c, s, StepCommitRow(c, s, w, i, ids, now, acknowledged), w, i, committed)
    ensures committed ==> i < |c.upserts|
    ensures committed ==>
              ApplyConversation(s.tables, c.input, c.upserts[i].row, c.upserts[i].messages, c.upserts[i].documents, ids, now)
              == Ok(StepCommitRow(c, s, w, i, ids, now, acknowledged).tables)
  {
    var k := WorkerOf(s, w);
    if k.Importing? && i in k.running && i < |c.upserts| {
      committed := ApplyConversation(s.tables, c.input, c.upserts[i].row, c.upserts[i].messages, c.upserts[i].documents, ids, now).Ok?;
    } else {
      committed := false;
    }
  }

  lemma MoreRecords(c: Config, a: seq<Record>, b: seq<Record>, i: nat)
    requires a <= b && i < |c.upserts| && HasRecord(c, a, i)
    ensures HasRecord(c, b, i)
  {
    var r :| r in a && RecordFor(c, r, i);
    assert r in b;
  }

  lemma CommitKeepsInv(c: Config, base: Tables, s: State, b: State, w: WorkerId, i: nat, committed: bool)
    requires TablesInv(c, base, s) && CommitOutcome(c, s, b, w, i, committed)
    requires committed ==>
               && i < |c.upserts| && Explained(c, base, b.tables)
               && Status(s) != Some(BatchApplied) && Status(s) != Some(BatchRolledBack)
               && s.tables.records <= b.tables.records && HasRecord(c, b.tables.records, i)
    ensures TablesInv(c, base, b)
  {
    if committed {
      forall j: nat | j < |c.upserts| && HasRecord(c, s.tables.records, j)
        ensures HasRecord(c, b.tables.records, j)
      {
        MoreRecords(c, s.tables.records, b.tables.records, j);
      }
    } else {
      assert b.tables == s.tables;
    }
    assert Status(b) == Status(s);
    forall v | v in b.workers && b.workers[v].Importing?
      ensures RecordedSet(c, b.tables.records, b.workers[v].done)
    {
      assert RecordedSet(c, s.tables.records, s.workers[v].done);
    }
  }

  lemma CommitStep(c: Config, base: Tables, s: State, w: WorkerId, i: nat, ids: NewIds, now: Instant, acknowledged: bool)
    requires TablesInv(c, base, s)
    ensures TablesInv(c, base, StepCommitRow(c, s, w, i, ids, now, acknowledged))
  {
    var b := StepCommitRow(c, s, w, i, ids, now, acknowledged);
    var committed := CommitFacts(c, s, w, i, ids, now, acknowledged);
    if committed {
      if Status(s) == Some(BatchApplied) || Status(s) == Some(BatchRolledBack) {
        RecordedRowsAbort(c, s.tables, i, ids, now);
        assert false;
      }
      CommitExplained(c, base, s.tables, i, ids, now, b.tables);
    }
    CommitKeepsInv(c, base, s, b, w, i, committed);
  }

  // ---- The rollback transaction --------------------------------------------------------------

  lemma {:induction false} AppliedOfPrefix(front: seq<Record>, back: seq<Record>, batchId: Id)
    requires forall r | r in front :: r.batchId != batchId
    requires forall r | r in back :: r.batchId == batchId && r.status == Applied
    ensures AppliedRecords(front + back, batchId) == back
  {
    var all := front + back;
    if back != [] {
      AppliedOfPrefix(front, back[..|back| - 1], batchId);
      assert all[..|all| - 1] == front + back[..|back| - 1];
    } else if front != [] {
      AppliedOfPrefix(front[..|front| - 1], [], batchId);
      assert all[..|all| - 1] == front[..|front| - 1] + [];
    }
  }

  lemma {:induction false} RollbackKeepsKeys(t: Tables, order: seq<Record>, n: nat)
    requires n <= |order| && RollbackAll(t, order, n).Ok?
    ensures var b := RollbackAll(t, order, n).value;
            |b.records| == |t.records|
            && forall k | 0 <= k < |t.records| :: b.records[k] == t.records[k].(status := b.records[k].status)
  {
    if n > 0 {
      RollbackKeepsKeys(t, order, n - 1);
      RecordRollbackKeepsKeys(RollbackAll(t, order, n - 1).value, order[n - 1]);
    }
  }

  lemma RecordRollbackKeepsKeys(t: Tables, r: Record)
    requires RollbackRecord(t, r).Ok?
    ensures RollbackRecord(t, r).value.records == MarkRolledBack(t.records, r.id)
  {
    var a := DeleteCreatedRows(t, r.created);
    UndoKeepsRecords(a, r);
    UndoKeepsRecords(UndoQuote(a, r).value, r);
    UndoKeepsRecords(UndoConversation(UndoQuote(a, r).value, r).value, r);
  }

  lemma UndoKeepsRecords(t: Tables, r: Record)
    ensures UndoQuote(t, r).Ok? ==> UndoQuote(t, r).value.records == t.records
    ensures UndoConversation(t, r).Ok? ==> UndoConversation(t, r).value.records == t.records
    ensures UndoContact(t, r).Ok? ==> UndoContact(t, r).value.records == t.records
  {
  }

  lemma RollbackKeepsRecorded(c: Config, t: Tables, order: seq<Record>, i: nat)
    requires RollbackAll(t, order, |order|).Ok? && i < |c.upserts| && HasRecord(c, t.records, i)
    ensures HasRecord(c, RollbackAll(t, order, |order|).value.records, i)
  {
    RollbackKeepsKeys(t, order, |order|);
    var r :| r in t.records && RecordFor(c, r, i);
    var k :| 0 <= k < |t.records| && t.records[k] == r;
    assert RollbackAll(t, order, |order|).value.records[k] in RollbackAll(t, order, |order|).value.records;
  }

  lemma RollbackRestores(c: Config, base: Tables, t: Tables, order: seq<Record>)
    requires BeforeBatch(c, base) && Explained(c, base, t)
    requires multiset(order) == multiset(AppliedRecords(t.records, c.input.batchId))
    requires CollectBlockers(t, c.cutoffAt, order, |order|) == []
    ensures RollbackAll(t, order, |order|).Ok?
    ensures SameRows(RollbackAll(t, order, |order|).value, base)
  {
    var states, records :| Explains(c, base, t, states, records);
    AppliedOfPrefix(base.records, records, c.input.batchId);
    RollbackInvertsApply(states, records, c.input, c.cutoffAt, order);
  }

  lemma RollbackCommitStep(c: Config, base: Tables, s: State, w: WorkerId, order: seq<Record>)
    requires Inv(c, base, s) && BeforeBatch(c, base)
    ensures TablesInv(c, base, StepRollbackCommit(c, s, w, order))
  {
    var b := StepRollbackCommit(c, s, w, order);
    if b.batch == s.batch {
      assert b.tables == s.tables;
    } else {
      RollbackRestores(c, base, s.tables, order);
      assert b.tables == RollbackAll(s.tables, order, |order|).value;
      forall i: nat | i < |c.upserts| && HasRecord(c, s.tables.records, i)
        ensures HasRecord(c, b.tables.records, i)
      {
        RollbackKeepsRecorded(c, s.tables, order, i);
      }
    }
  }

  // ---- Every step, every run ------------------------------------------------------------------

  /** An event that runs no transaction: rows get done only when recorded, and only a worker done with all finalises. */
  ghost predicate QuietOutcome(c: Config, s: State, b: State) {
    && b.tables == s.tables
    && (Status(b) == Some(BatchRolledBack) <==> Status(s) == Some(BatchRolledBack))
    && (Status(b) == Some(BatchApplied) ==> Status(s) == Some(BatchApplied) || exists w :: w in s.workers && AllDone(c, s.workers[w]))
    && (forall w | w in b.workers && b.workers[w].Importing? :: DoneFrom(c, s, w, b.workers[w].done))
  }

  predicate DoneFrom(c: Config, s: State, w: WorkerId, done: set<nat>) {
    forall i | i in done ::
      || (w in s.workers && s.workers[w].Importing? && i in s.workers[w].done)
      || (i < |c.upserts| && HasAppliedRecord(c, s.tables.records, i))
  }

  lemma QuietBatch(c: Config, s: State, e: Event)
    requires !e.CommitRow? && !e.RollbackCommit?
    ensures var b := Step(c, s, e);
            && b.tables == s.tables
            && (Status(b) == Some(BatchRolledBack) <==> Status(s) == Some(BatchRolledBack))
            && (Status(b) == Some(BatchApplied) ==> Status(s) == Some(BatchApplied) || AllDone(c, WorkerOf(s, e.worker)))
  {
  }

  lemma QuietWorker(c: Config, s: State, e: Event)
    requires !e.CommitRow? && !e.RollbackCommit?
    ensures var k := WorkerOf(Step(c, s, e), e.worker); k.Importing? ==> DoneFrom(c, s, e.worker, k.done)
  {
  }

  lemma QuietFacts(c: Config, s: State, e: Event)
    requires !e.CommitRow? && !e.RollbackCommit?
    ensures QuietOutcome(c, s, Step(c, s, e))
  {
    QuietBatch(c, s, e);
    QuietWorker(c, s, e);
    MoveOf(c, s, e);
    QuietOthers(c, s, Step(c, s, e), e.worker);
  }

  lemma QuietOthers(c: Config, s: State, b: State, w: WorkerId)
    requires ClaimMove(s, b, w) && (WorkerOf(b, w).Importing? ==> DoneFrom(c, s, w, WorkerOf(b, w).done))
    ensures forall v | v in b.workers && b.workers[v].Importing? :: DoneFrom(c, s, v, b.workers[v].done)
  {
    forall v | v in b.workers && b.workers[v].Importing?
      ensures DoneFrom(c, s, v, b.workers[v].done)
    {
      assert v != w ==> v in s.workers && b.workers[v] == s.workers[v];
    }
  }

  lemma QuietKeepsInv(c: Config, base: Tables, s: State, b: State)
    requires TablesInv(c, base, s) && QuietOutcome(c, s, b)
    ensures TablesInv(c, base, b)
  {
    forall w | w in b.workers && b.workers[w].Importing?
      ensures RecordedSet(c, s.tables.records, b.workers[w].done)
    {
      assert DoneFrom(c, s, w, b.workers[w].done);
    }
    assert b.tables == s.tables;
  }

  lemma StepInv(c: Config, base: Tables, s: State, e: Event)
    requires BeforeBatch(c, base) && Inv(c, base, s)
    ensures Inv(c, base, Step(c, s, e))
  {
    ClaimStep(c, s, e);
    if e.CommitRow? {
      CommitStep(c, base, s, e.worker, e.index, e.ids, e.now, e.acknowledged);
    } else if e.RollbackCommit? {
      RollbackCommitStep(c, base, s, e.worker, e.order);
    } else {
      QuietFacts(c, s, e);
      QuietKeepsInv(c, base, s, Step(c, s, e));
    }
  }

  lemma {:induction false} RunInv(c: Config, base: Tables, events: seq<Event>)
    requires BeforeBatch(c, base)
    ensures Inv(c, base, Run(c, Initial(base), events))
  {
    if events == [] {
      InitialInv(c, base);
    } else {
      RunInv(c, base, events[..|events| - 1]);
      StepInv(c, base, Run(c, Initial(base), events[..|events| - 1]), events[|events| - 1]);
    }
  }
}
