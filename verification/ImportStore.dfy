/** The importer's loops over rows and records, as they run inside a transaction. */
module ImportStore {
  import opened Wrappers
  import opened ImportTables
  import opened ImportApply
  import opened ImportRollback

  /** The tables as one transaction sees them; `committed` is what an abort returns to. */
  class Transaction {
    var tables: Tables
    const committed: Tables

    constructor (tables: Tables)
      ensures this.tables == tables && committed == tables
    {
      this.tables := tables;
      this.committed := tables;
    }

    /** Undo the records one after the other; the first error aborts the transaction. */
    method Rollback(order: seq<Record>) returns (outcome: Result<nat, RollbackError>)
      requires tables == committed
      modifies this
      ensures outcome.Ok? ==> outcome.value == |order| && RollbackAll(committed, order, |order|) == Ok(tables)
      ensures outcome.Err? ==> tables == committed && FirstError(committed, order, outcome.error)
    {
      var undone := UndoAll(tables, order);
      if undone.Err? {
        return Err(undone.error);
      }
      tables := undone.value;
      outcome := Ok(|order|);
    }

    /** Decide for each message row whether to skip it, create it or stop. */
    method PlanCreation(
      input: ApplyInput, row: ConversationRow, conversationId: Id, contactId: Id, messages: seq<MessageRow>, ids: NewIds, now: Instant)
      returns (outcome: Result<seq<PlannedMessage>, ImportError>)
      ensures outcome == PlanMessages(tables, input, row, conversationId, contactId, messages, |messages|, ids, now)
    {
      var planned: seq<PlannedMessage> := [];
      var n := 0;
      while n < |messages|
        invariant n <= |messages|
        invariant PlanMessages(tables, input, row, conversationId, contactId, messages, n, ids, now) == Ok(planned)
      {
        var m := messages[n];
        var decision := MessageDecision(tables, input, row, conversationId, m);
        if decision.Err? {
          PlanStopsAt(tables, input, row, conversationId, contactId, messages, n + 1, |messages|, ids, now);
          return Err(decision.error);
        }
        if decision.value {
          planned := planned + [PlannedOf(input, row, conversationId, contactId, ActorOf(input, m), m, ids.message(n), ids.messageRef(n), now)];
        }
        n := n + 1;
      }
      outcome := Ok(planned);
    }
  }

  /** The tables after undoing the records in order, or the first error. */
  method UndoAll(t: Tables, order: seq<Record>) returns (undone: Result<Tables, RollbackError>)
    ensures undone.Ok? ==> RollsBackTo(t, order, |order|, undone.value)
    ensures undone.Err? ==> FirstError(t, order, undone.error)
  {
    var current := t;
    for n := 0 to |order|
      invariant RollsBackTo(t, order, n, current)
    {
      undone := RollbackRecord(current, order[n]);
      if undone.Err? {
        FailsHere(t, order, n, current, undone.error);
        return;
      }
      RollsBackOneMore(t, order, n, current, undone.value);
      current := undone.value;
    }
    undone := Ok(current);
  }

  /** The records before place `n` can be undone, and the one at `n` fails with `e`. */
  predicate FailsAt(t: Tables, order: seq<Record>, n: nat, e: RollbackError)
    requires n < |order|
  {
    var done := RollbackAll(t, order, n);
    done.Ok? && RollbackRecord(done.value, order[n]) == Err(e)
  }

  predicate FirstError(t: Tables, order: seq<Record>, e: RollbackError) {
    exists n | 0 <= n < |order| :: FailsAt(t, order, n, e)
  }

  lemma FailsHere(t: Tables, order: seq<Record>, n: nat, done: Tables, e: RollbackError)
    requires n < |order| && RollsBackTo(t, order, n, done) && RollbackRecord(done, order[n]) == Err(e)
    ensures FirstError(t, order, e)
  {
    assert FailsAt(t, order, n, e);
  }

  lemma {:induction false} PlanStopsAt(
    t: Tables, input: ApplyInput, row: ConversationRow, conversationId: Id, contactId: Id,
    messages: seq<MessageRow>, n: nat, m: nat, ids: NewIds, now: Instant)
    requires n <= m <= |messages| && PlanMessages(t, input, row, conversationId, contactId, messages, n, ids, now).Err?
    ensures PlanMessages(t, input, row, conversationId, contactId, messages, m, ids, now)
         == PlanMessages(t, input, row, conversationId, contactId, messages, n, ids, now)
  {
    if n < m {
      PlanStopsAt(t, input, row, conversationId, contactId, messages, n, m - 1, ids, now);
    }
  }
}
