/** The guarantees of the import protocol, stated for every run. */
module ImportGuarantees {
  import opened Wrappers
  import opened ImportTables
  import opened ImportApply
  import opened ImportRollback
  import opened ImportInverse
  import opened ImportContents
  import opened ImportProtocol
  import opened ImportSafety

  /** However the workers interleaved, a batch that ends ROLLED_BACK leaves the tables as before it. */
  lemma RolledBackRestores(c: Config, base: Tables, events: seq<Event>)
    requires BeforeBatch(c, base)
    requires Status(Run(c, Initial(base), events)) == Some(BatchRolledBack)
    ensures SameRows(Run(c, Initial(base), events).tables, base)
  {
    RunInv(c, base, events);
  }

  // ---- Exactly once ------------------------------------------------------------------

  ghost predicate KeysUnique(records: seq<Record>, batchId: Id) {
    forall i, j | 0 <= i < j < |records| && records[i].batchId == batchId ::
      !SameRecordKey(records[j], batchId, records[i].sourceSystem, records[i].externalConversationId)
  }

  lemma {:induction false} RecordsOfHistory(states: seq<Tables>, records: seq<Record>, input: ApplyInput, n: nat)
    requires History(states, records, input) && n <= |records|
    ensures states[n].records == states[0].records + records[..n]
  {
    if n > 0 {
      RecordsOfHistory(states, records, input, n - 1);
      assert CommitAt(states, records, input, n - 1);
      TakeLast(records, n);
    }
  }

  lemma HistoryKeysUnique(states: seq<Tables>, records: seq<Record>, input: ApplyInput)
    requires History(states, records, input)
    requires forall r | r in states[0].records :: r.batchId != input.batchId
    ensures KeysUnique(states[0].records + records, input.batchId)
  {
    var all := states[0].records + records;
    var offset := |states[0].records|;
    forall i, j | 0 <= i < j < |all| && all[i].batchId == input.batchId
      ensures !SameRecordKey(all[j], input.batchId, all[i].sourceSystem, all[i].externalConversationId)
    {
      var k := j - offset;
      RecordsOfHistory(states, records, input, k);
      assert CommitAt(states, records, input, k);
      assert states[k].records[i] == all[i];
      assert !RecordConflict(states[k].records, records[k]);
    }
  }

  /**
    Row `i` has exactly one record, applied; its messages and documents are stored in that
    record's conversation, with the row's content unless they were referenced before the batch.
   */
  ghost predicate AppliedOnce(c: Config, base: Tables, t: Tables, i: nat)
    requires i < |c.upserts|
  {
    exists k ::
      && 0 <= k < |t.records| && RecordFor(c, t.records[k], i) && t.records[k].status == Applied
      && RowStoredSince(base, t, c.upserts[i].row, c.upserts[i].messages, c.upserts[i].documents, t.records[k].conversationId)
      && forall j | 0 <= j < |t.records| && RecordFor(c, t.records[j], i) :: j == k
  }

  /** At most one stored message carries a given external message id. */
  ghost predicate MessagesOnce(t: Tables) {
    forall m, n | m in t.messages && n in t.messages && t.messages[m].correlation.Imported?
                  && t.messages[m].correlation == t.messages[n].correlation :: m == n
  }

  lemma ExplainedOnce(c: Config, base: Tables, t: Tables, i: nat)
    requires BeforeBatch(c, base) && DistinctUpserts(c) && Explained(c, base, t)
    requires i < |c.upserts| && HasRecord(c, t.records, i)
    ensures AppliedOnce(c, base, t, i)
  {
    var states, records :| Explains(c, base, t, states, records);
    var r :| r in t.records && RecordFor(c, r, i);
    var k :| 0 <= k < |t.records| && t.records[k] == r;
    assert records[k - |base.records|] in records;
    assert RecordOfPackage(c, t, r);
    var j: nat :| StoresUpsert(c, t, r, j);
    assert j == i;
    StoredAsSaid(base, t, c.upserts[i].row, c.upserts[i].messages, c.upserts[i].documents, r.conversationId);
    HistoryKeysUnique(states, records, c.input);
    forall j | 0 <= j < |t.records| && RecordFor(c, t.records[j], i)
      ensures j == k
    {
      assert KeysUnique(t.records, c.input.batchId);
    }
  }

  /**
    Exactly-once resume: whatever attempts crashed, failed, overlapped or were
    superseded, an APPLIED batch has one applied record for each upsert row, whose
    messages and documents are stored as the row has them, and no message twice.
   */
  lemma AppliedExactlyOnce(c: Config, base: Tables, events: seq<Event>, i: nat)
    requires BeforeBatch(c, base) && DistinctUpserts(c) && i < |c.upserts|
    requires Status(Run(c, Initial(base), events)) == Some(BatchApplied)
    ensures AppliedOnce(c, base, Run(c, Initial(base), events).tables, i)
    ensures MessagesOnce(Run(c, Initial(base), events).tables)
  {
    RunInv(c, base, events);
    var t := Run(c, Initial(base), events).tables;
    ExplainedOnce(c, base, t, i);
    ExplainedWellFormed(c, base, t);
  }

  // ---- Runs that go on -----------------------------------------------------------------

  lemma {:induction false} RunSplit(c: Config, s: State, events: seq<Event>, more: seq<Event>)
    ensures Run(c, s, events + more) == Run(c, Run(c, s, events), more)
  {
    var all := events + more;
    if more == [] {
      assert all == events;
    } else {
      assert all[..|all| - 1] == events + more[..|more| - 1];
      RunSplit(c, s, events, more[..|more| - 1]);
    }
  }

  lemma {:induction false} StatusLater(c: Config, s: State, more: seq<Event>)
    ensures Status(s) == Some(BatchRolledBack) ==> Run(c, s, more).batch == s.batch
    ensures Status(s) == Some(BatchApplied) ==>
              Status(Run(c, s, more)) == Some(BatchApplied) || Status(Run(c, s, more)) == Some(BatchRolledBack)
  {
    if more != [] {
      StatusLater(c, s, more[..|more| - 1]);
      StatusMoves(c, Run(c, s, more[..|more| - 1]), more[|more| - 1]);
    }
  }

  /** Once rolled back, always rolled back: late workers and late commits change neither status nor tables. */
  lemma RolledBackForever(c: Config, base: Tables, events: seq<Event>, more: seq<Event>)
    requires BeforeBatch(c, base)
    requires Status(Run(c, Initial(base), events)) == Some(BatchRolledBack)
    ensures Run(c, Initial(base), events + more).batch == Run(c, Initial(base), events).batch
    ensures SameRows(Run(c, Initial(base), events + more).tables, base)
  {
    RunSplit(c, Initial(base), events, more);
    StatusLater(c, Run(c, Initial(base), events), more);
    RolledBackRestores(c, base, events + more);
  }

  /** An applied batch is never applied again: it stays APPLIED or is rolled back. */
  lemma NeverAppliedAgain(c: Config, base: Tables, events: seq<Event>, more: seq<Event>)
    requires Status(Run(c, Initial(base), events)) == Some(BatchApplied)
    ensures var later := Status(Run(c, Initial(base), events + more));
            later == Some(BatchApplied) || later == Some(BatchRolledBack)
  {
    RunSplit(c, Initial(base), events, more);
    StatusLater(c, Run(c, Initial(base), events), more);
  }

  /** In every reachable state a failed or rolled-back batch is unclaimed, and no two workers share a claim. */
  lemma ClaimsOfReachable(c: Config, base: Tables, events: seq<Event>)
    requires BeforeBatch(c, base)
    ensures var s := Run(c, Initial(base), events);
            && (Status(s) == Some(BatchFailed) || Status(s) == Some(BatchRolledBack) ==> s.batch.value.claimId.None?)
            && (Status(s) == Some(BatchApplying) ==> s.batch.value.claimId.Some?)
            && (forall v, w, claim | v in s.workers && w in s.workers && OwnsClaim(s.workers[v], claim) && OwnsClaim(s.workers[w], claim) :: v == w)
  {
    RunInv(c, base, events);
  }

  // ---- Progress -------------------------------------------------------------------------

  /** Whatever a dead worker left behind: once a batch is new, failed or its lease has run out, a worker takes it over. */
  lemma AllowedApplyTakesOver(c: Config, s: State, w: WorkerId, now: Instant, claim: ClaimId)
    requires ApplyAllowed(s.batch, now) && WorkerOf(s, w).Idle? && claim !in s.usedClaims
    ensures var t := Run(c, s, [ApplyRead(w, now), ApplyClaim(w, now, claim)]);
            && Holds(t.batch, BatchApplying, claim) && LeaseHeld(t.batch.value, now)
            && WorkerOf(t, w) == Importing(claim, {}, {}, false) && t.tables == s.tables
  {
    var events := [ApplyRead(w, now), ApplyClaim(w, now, claim)];
    assert events[..1] == [ApplyRead(w, now)] && events[..1][..0] == [];
    assert Run(c, s, events[..1]) == StepApplyRead(s, w, now);
  }

  function UpTo(n: nat): set<nat> {
    if n == 0 then {} else UpTo(n - 1) + {n - 1}
  }

  lemma {:induction false} UpToHas(n: nat, i: nat)
    ensures i in UpTo(n) <==> i < n
  {
    if n > 0 {
      UpToHas(n - 1, i);
    }
  }

  /** A worker that has the rows before `n` and is free to take the next. */
  ghost predicate At(s: State, w: WorkerId, claim: ClaimId, n: nat) {
    Holds(s.batch, BatchApplying, claim) && WorkerOf(s, w) == Importing(claim, {}, UpTo(n), false)
  }

  /** The transactions of the rows from `n` on that have no applied record yet, one after the other. */
  ghost function ApplyRest(c: Config, t: Tables, n: nat, ids: nat -> NewIds, now: Instant): Result<Tables, ImportError>
    requires n <= |c.upserts|
    decreases |c.upserts| - n
  {
    if n == |c.upserts| then Ok(t)
    else if HasAppliedRecord(c, t.records, n) then ApplyRest(c, t, n + 1, ids, now)
    else
      var u := c.upserts[n];
      var b :- ApplyConversation(t, c.input, u.row, u.messages, u.documents, ids(n), now);
      ApplyRest(c, b, n + 1, ids, now)
  }

  lemma RunOne(c: Config, s: State, e: Event)
    ensures Run(c, s, [e]) == Step(c, s, e)
  {
    assert [e][..0] == [];
  }

  /** A row that was committed before is found and skipped; another one is taken up. */
  lemma RowChecked(c: Config, s: State, w: WorkerId, claim: ClaimId, n: nat)
    requires At(s, w, claim, n) && n < |c.upserts| && c.concurrency > 0
    ensures var t := StepCheckRow(c, s, w, n);
            && t.batch == s.batch && t.tables == s.tables
            && (if HasAppliedRecord(c, s.tables.records, n) then At(t, w, claim, n + 1)
                else WorkerOf(t, w) == Importing(claim, {n}, UpTo(n), false))
  {
    UpToHas(n, n);
    assert {} + {n} == {n};
  }

  ghost predicate Commits(c: Config, t: Tables, n: nat, ids: NewIds, now: Instant, b: Tables)
    requires n < |c.upserts|
  {
    var u := c.upserts[n]; ApplyConversation(t, c.input, u.row, u.messages, u.documents, ids, now) == Ok(b)
  }

  lemma RowCommitted(c: Config, s: State, w: WorkerId, claim: ClaimId, n: nat, ids: NewIds, now: Instant, b: Tables, t: State)
    requires n < |c.upserts| && Holds(s.batch, BatchApplying, claim) && WorkerOf(s, w) == Importing(claim, {n}, UpTo(n), false)
    requires Commits(c, s.tables, n, ids, now, b) && t == StepCommitRow(c, s, w, n, ids, now, true)
    ensures At(t, w, claim, n + 1) && t.tables == b
  {
    assert {n} - {n} == {};
  }

  ghost predicate Leads(c: Config, s: State, events: seq<Event>, t: State) {
    Run(c, s, events) == t
  }

  lemma LeadsOn(c: Config, s: State, first: seq<Event>, t: State, others: seq<Event>, u: State)
    requires Leads(c, s, first, t) && Leads(c, t, others, u)
    ensures Leads(c, s, first + others, u)
  {
    RunSplit(c, s, first, others);
  }

  lemma CheckLeads(c: Config, s: State, w: WorkerId, n: nat, t: State)
    requires t == StepCheckRow(c, s, w, n)
    ensures Leads(c, s, [CheckRow(w, n)], t)
  {
    RunOne(c, s, CheckRow(w, n));
  }

  lemma CommitLeads(c: Config, s: State, w: WorkerId, n: nat, ids: NewIds, now: Instant, t: State)
    requires t == StepCommitRow(c, s, w, n, ids, now, true)
    ensures Leads(c, s, [CommitRow(w, n, ids, now, true)], t)
  {
    RunOne(c, s, CommitRow(w, n, ids, now, true));
  }

  ghost predicate RestIs(c: Config, t: Tables, n: nat, ids: nat -> NewIds, now: Instant, done: Tables)
    requires n <= |c.upserts|
  {
    ApplyRest(c, t, n, ids, now) == Ok(done)
  }

  lemma RestFollows(c: Config, t: Tables, n: nat, ids: nat -> NewIds, now: Instant, done: Tables) returns (b: Tables)
    requires n < |c.upserts| && RestIs(c, t, n, ids, now, done)
    ensures RestIs(c, b, n + 1, ids, now, done)
    ensures if HasAppliedRecord(c, t.records, n) then b == t else Commits(c, t, n, ids(n), now, b)
  {
    var u := c.upserts[n];
    b := if HasAppliedRecord(c, t.records, n) then t
         else ApplyConversation(t, c.input, u.row, u.messages, u.documents, ids(n), now).value;
  }

  /** A row that was not committed before. */
  lemma CommitOne(c: Config, s: State, checked: State, w: WorkerId, claim: ClaimId, n: nat, ids: NewIds, now: Instant, b: Tables)
    returns (t: State)
    requires n < |c.upserts| && checked == StepCheckRow(c, s, w, n)
    requires Holds(checked.batch, BatchApplying, claim) && WorkerOf(checked, w) == Importing(claim, {n}, UpTo(n), false)
    requires Commits(c, checked.tables, n, ids, now, b)
    ensures Leads(c, s, [CheckRow(w, n)] + [CommitRow(w, n, ids, now, true)], t) && At(t, w, claim, n + 1) && t.tables == b
  {
    t := StepCommitRow(c, checked, w, n, ids, now, true);
    RowCommitted(c, checked, w, claim, n, ids, now, b, t);
    CheckLeads(c, s, w, n, checked);
    CommitLeads(c, checked, w, n, ids, now, t);
    LeadsOn(c, s, [CheckRow(w, n)], checked, [CommitRow(w, n, ids, now, true)], t);
  }

  /** One row, skipped or committed. */
  lemma DoRow(c: Config, s: State, w: WorkerId, claim: ClaimId, n: nat, ids: NewIds, now: Instant, b: Tables) returns (events: seq<Event>, t: State)
    requires At(s, w, claim, n) && n < |c.upserts| && c.concurrency > 0
    requires if HasAppliedRecord(c, s.tables.records, n) then b == s.tables else Commits(c, s.tables, n, ids, now, b)
    ensures Leads(c, s, events, t) && At(t, w, claim, n + 1) && t.tables == b
  {
    var checked := StepCheckRow(c, s, w, n);
    RowChecked(c, s, w, claim, n);
    if HasAppliedRecord(c, s.tables.records, n) {
      events, t := [CheckRow(w, n)], checked;
      CheckLeads(c, s, w, n, checked);
    } else {
      t := CommitOne(c, s, checked, w, claim, n, ids, now, b);
      events := [CheckRow(w, n)] + [CommitRow(w, n, ids, now, true)];
    }
  }

  lemma NoRows(c: Config, s: State, ids: nat -> NewIds, now: Instant, done: Tables)
    requires RestIs(c, s.tables, |c.upserts|, ids, now, done)
    ensures Leads(c, s, [], s) && s.tables == done
  {
  }

  /** One row is done, and the others remain. */
  lemma RowThenRest(c: Config, s: State, w: WorkerId, claim: ClaimId, n: nat, ids: nat -> NewIds, now: Instant, done: Tables)
    returns (events: seq<Event>, t: State)
    requires n < |c.upserts| && At(s, w, claim, n) && c.concurrency > 0 && RestIs(c, s.tables, n, ids, now, done)
    ensures Leads(c, s, events, t) && At(t, w, claim, n + 1) && RestIs(c, t.tables, n + 1, ids, now, done)
  {
    var b := RestFollows(c, s.tables, n, ids, now, done);
    events, t := DoRow(c, s, w, claim, n, ids(n), now, b);
  }

  /** The rows from `n` on, each skipped or committed. */
  lemma {:induction false} DoRows(c: Config, s: State, w: WorkerId, claim: ClaimId, n: nat, ids: nat -> NewIds, now: Instant, done: Tables)
    returns (events: seq<Event>, t: State)
    requires n <= |c.upserts| && At(s, w, claim, n) && c.concurrency > 0 && RestIs(c, s.tables, n, ids, now, done)
    ensures Leads(c, s, events, t) && At(t, w, claim, |c.upserts|) && t.tables == done
    decreases |c.upserts| - n
  {
    if n == |c.upserts| {
      NoRows(c, s, ids, now, done);
      events, t := [], s;
    } else {
      var first, next := RowThenRest(c, s, w, claim, n, ids, now, done);
      var others, last := DoRows(c, next, w, claim, n + 1, ids, now, done);
      LeadsOn(c, s, first, next, others, last);
      events, t := first + others, last;
    }
  }

  /** A worker that still holds its claim and has all rows makes the batch APPLIED. */
  lemma AllDoneIsApplied(c: Config, s: State, w: WorkerId, claim: ClaimId, now: Instant)
    requires At(s, w, claim, |c.upserts|)
    ensures var t := StepFinalize(c, s, w, now); Status(t) == Some(BatchApplied) && t.tables == s.tables
  {
    forall i | 0 <= i < |c.upserts|
      ensures i in UpTo(|c.upserts|)
    {
      UpToHas(|c.upserts|, i);
    }
  }

  lemma FinalizeLeads(c: Config, s: State, w: WorkerId, now: Instant, t: State)
    requires t == StepFinalize(c, s, w, now)
    ensures Leads(c, s, [Finalize(w, now)], t)
  {
    RunOne(c, s, Finalize(w, now));
  }

  /** From any state in which the call is allowed, one worker alone can bring the batch to its end. */
  lemma OneWorkerSuffices(c: Config, s: State, w: WorkerId, now: Instant, claim: ClaimId, ids: nat -> NewIds, done: Tables)
    returns (events: seq<Event>, t: State)
    requires ApplyAllowed(s.batch, now) && WorkerOf(s, w).Idle? && claim !in s.usedClaims && c.concurrency > 0
    requires RestIs(c, s.tables, 0, ids, now, done)
    ensures Leads(c, s, events, t) && Status(t) == Some(BatchApplied) && t.tables == done
  {
    var start := [ApplyRead(w, now), ApplyClaim(w, now, claim)];
    AllowedApplyTakesOver(c, s, w, now, claim);
    var taken := Run(c, s, start);
    var rows, worked := DoRows(c, taken, w, claim, 0, ids, now, done);
    AllDoneIsApplied(c, worked, w, claim, now);
    t := StepFinalize(c, worked, w, now);
    FinalizeLeads(c, worked, w, now, t);
    LeadsOn(c, taken, rows, worked, [Finalize(w, now)], t);
    LeadsOn(c, s, start, taken, rows + [Finalize(w, now)], t);
    events := start + (rows + [Finalize(w, now)]);
  }

  /**
    Resume: from every reachable state whose batch is new, failed or left with a lease
    that has run out, a fresh worker for whom the remaining rows' transactions succeed
    brings the batch to APPLIED, with exactly one record for each row.
   */
  lemma ResumeSucceeds(
    c: Config, base: Tables, events: seq<Event>, w: WorkerId, now: Instant, claim: ClaimId, ids: nat -> NewIds, done: Tables)
    returns (more: seq<Event>)
    requires BeforeBatch(c, base) && DistinctUpserts(c) && c.concurrency > 0
    requires var s := Run(c, Initial(base), events);
             && ApplyAllowed(s.batch, now) && WorkerOf(s, w).Idle? && claim !in s.usedClaims
             && RestIs(c, s.tables, 0, ids, now, done)
    ensures var t := Run(c, Initial(base), events + more);
            && Status(t) == Some(BatchApplied) && t.tables == done
            && forall i: nat | i < |c.upserts| :: AppliedOnce(c, base, done, i)
  {
    var s := Run(c, Initial(base), events);
    var t: State;
    more, t := OneWorkerSuffices(c, s, w, now, claim, ids, done);
    RunSplit(c, Initial(base), events, more);
    forall i: nat | i < |c.upserts|
      ensures AppliedOnce(c, base, done, i)
    {
      AppliedExactlyOnce(c, base, events + more, i);
    }
  }

  /** A rollback that holds its claim, and finds no blockers for the applied records in its order. */
  ghost predicate RollbackReady(c: Config, s: State, w: WorkerId, order: seq<Record>) {
    && WorkerOf(s, w).RollingBack? && Holds(s.batch, BatchApplied, WorkerOf(s, w).claim)
    && multiset(order) == multiset(AppliedRecords(s.tables.records, c.input.batchId)) && LatestFirst(order)
    && CollectBlockers(s.tables, c.cutoffAt, order, |order|) == []
  }

  lemma ReadyRollbackCommits(c: Config, s: State, w: WorkerId, order: seq<Record>, done: Tables)
    requires RollbackReady(c, s, w, order) && s.batch.value.appliedAt.Some? && RollbackAll(s.tables, order, |order|) == Ok(done)
    ensures var t := StepRollbackCommit(c, s, w, order); Status(t) == Some(BatchRolledBack) && t.tables == done
  {
  }

  lemma ReadyRollbackRestores(c: Config, base: Tables, s: State, w: WorkerId, order: seq<Record>)
    requires BeforeBatch(c, base) && Inv(c, base, s) && RollbackReady(c, s, w, order)
    ensures var t := StepRollbackCommit(c, s, w, order); Status(t) == Some(BatchRolledBack) && SameRows(t.tables, base)
  {
    RollbackRestores(c, base, s.tables, order);
    ReadyRollbackCommits(c, s, w, order, RollbackAll(s.tables, order, |order|).value);
  }

  /** In every reachable state, such a rollback succeeds. */
  lemma UnblockedRollbackSucceeds(c: Config, base: Tables, events: seq<Event>, w: WorkerId, order: seq<Record>)
    requires BeforeBatch(c, base) && RollbackReady(c, Run(c, Initial(base), events), w, order)
    ensures var t := Step(c, Run(c, Initial(base), events), RollbackCommit(w, order));
            Status(t) == Some(BatchRolledBack) && SameRows(t.tables, base)
  {
    RunInv(c, base, events);
    ReadyRollbackRestores(c, base, Run(c, Initial(base), events), w, order);
  }
}
