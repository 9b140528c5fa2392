/**
  Undoing the records of an import batch, and the proof that undoing all of them,
  in any order, gives back the tables from before the batch.
 */
module ImportRollback {
  import opened Wrappers
  import opened ImportTables
  import opened ImportApply
  import opened ImportEffect

  datatype RollbackError = MissingQuote | MissingConversationRow | MissingContact | ContactStillReferenced

  datatype Blocker =
    | PostCutoffInteraction(conversationId: Id)
    | RecordChanged(conversationId: Id)
    | ContactReused(contactId: Id)

  // ---- Blockers ----------------------------------------------------------------

  ghost predicate InteractionAfter(t: Tables, cutoffAt: Instant, r: Record) {
    || (exists m :: m in t.messages && t.messages[m].conversationId == r.conversationId
         && t.messages[m].createdAt > cutoffAt && m !in r.created.messageIds)
    || (exists x :: x in t.transitions && t.transitions[x].conversationId == r.conversationId
         && t.transitions[x].createdAt > cutoffAt)
    || (exists d :: d in t.documents && t.documents[d].conversationId == r.conversationId
         && t.documents[d].createdAt > cutoffAt && d !in r.created.documentIds)
  }

  ghost predicate ReusedOutside(t: Tables, r: Record, conversationIds: set<Id>) {
    r.created.contactId.Some?
    && exists v :: v in t.conversations && t.conversations[v].contactId == r.created.contactId.value && v !in conversationIds
  }

  ghost function RecordBlockers(t: Tables, cutoffAt: Instant, r: Record, conversationIds: set<Id>): seq<Blocker> {
    (if InteractionAfter(t, cutoffAt, r) then [PostCutoffInteraction(r.conversationId)] else [])
    + (if LoadSnapshot(t, r.contactId, r.conversationId, QuoteSequenceOf(r.after)) != r.after
       then [RecordChanged(r.conversationId)] else [])
    + (if ReusedOutside(t, r, conversationIds) then [ContactReused(r.contactId)] else [])
  }

  function ConversationIds(records: seq<Record>): set<Id> {
    set r | r in records :: r.conversationId
  }

  ghost function CollectBlockers(t: Tables, cutoffAt: Instant, records: seq<Record>, n: nat): seq<Blocker>
    requires n <= |records|
  {
    if n == 0 then []
    else CollectBlockers(t, cutoffAt, records, n - 1) + RecordBlockers(t, cutoffAt, records[n - 1], ConversationIds(records))
  }

  lemma {:induction false} NoBlockersOf(t: Tables, cutoffAt: Instant, records: seq<Record>, n: nat, i: nat)
    requires i < n <= |records| && CollectBlockers(t, cutoffAt, records, n) == []
    ensures RecordBlockers(t, cutoffAt, records[i], ConversationIds(records)) == []
  {
    if i < n - 1 {
      NoBlockersOf(t, cutoffAt, records, n - 1, i);
    }
  }

  // ---- Rolling one record back ----------------------------------------------------

  function DeleteRefs(refs: map<RefKey, ExternalRef>, ids: seq<Id>): map<RefKey, ExternalRef> {
    map k | k in refs && refs[k].id !in ids :: refs[k]
  }

  /** A quote goes with its documents. */
  function DeleteQuote(t: Tables, q: Id): Tables {
    t.(quotes := t.quotes - {q},
       documents := map d | d in t.documents && t.documents[d].quoteRequestId != q :: t.documents[d])
  }

  /** A conversation goes with its messages, quotes, documents and transitions. */
  function DeleteConversation(t: Tables, v: Id): Tables {
    t.(conversations := t.conversations - {v},
       quotes := map q | q in t.quotes && t.quotes[q].conversationId != v :: t.quotes[q],
       messages := map m | m in t.messages && t.messages[m].conversationId != v :: t.messages[m],
       documents := map d | d in t.documents && t.documents[d].conversationId != v :: t.documents[d],
       transitions := map x | x in t.transitions && t.transitions[x].conversationId != v :: t.transitions[x])
  }

  /** Conversations and messages hold on to their contact. */
  predicate ContactReferenced(t: Tables, c: Id) {
    || (exists v | v in t.conversations :: t.conversations[v].contactId == c)
    || (exists m | m in t.messages :: t.messages[m].contactId == c)
  }

  function DeleteCreatedRows(t: Tables, created: CreatedIds): Tables {
    t.(refs := DeleteRefs(t.refs, created.externalRefIds),
       documents := t.documents - IdSet(created.documentIds),
       messages := t.messages - IdSet(created.messageIds))
  }

  function UndoQuote(t: Tables, r: Record): Result<Tables, RollbackError> {
    if r.created.quoteRequestId.Some? then
      var q := r.created.quoteRequestId.value;
      if q !in t.quotes then Err(MissingQuote) else Ok(DeleteQuote(t, q))
    else if r.before.quoteRequest.Some? then
      var s := r.before.quoteRequest.value;
      if s.id !in t.quotes then Err(MissingQuote)
      else Ok(t.(quotes := t.quotes[s.id := RestoreQuote(t.quotes[s.id], s)]))
    else Ok(t)
  }

  function UndoConversation(t: Tables, r: Record): Result<Tables, RollbackError> {
    if r.created.conversationId.Some? then
      var v := r.created.conversationId.value;
      if v !in t.conversations then Err(MissingConversationRow) else Ok(DeleteConversation(t, v))
    else if r.before.conversation.Some? then
      var s := r.before.conversation.value;
      if s.id !in t.conversations then Err(MissingConversationRow)
      else Ok(t.(conversations := t.conversations[s.id := RestoreConversation(t.conversations[s.id], s)]))
    else Ok(t)
  }

  function UndoContact(t: Tables, r: Record): Result<Tables, RollbackError> {
    if r.created.contactId.Some? then
      var c := r.created.contactId.value;
      if c !in t.contacts then Err(MissingContact)
      else if ContactReferenced(t, c) then Err(ContactStillReferenced)
      else Ok(t.(contacts := t.contacts - {c}))
    else if r.before.contact.Some? then
      var s := r.before.contact.value;
      if s.id !in t.contacts then Err(MissingContact)
      else Ok(t.(contacts := t.contacts[s.id := t.contacts[s.id].(displayName := s.displayName)]))
    else Ok(t)
  }

  function MarkRolledBack(records: seq<Record>, id: Id): (r: seq<Record>)
    ensures |r| == |records|
  {
    seq(|records|, i requires 0 <= i < |records| =>
      if records[i].id == id then records[i].(status := RolledBack) else records[i])
  }

  function RollbackRecord(t: Tables, r: Record): Result<Tables, RollbackError> {
    var withQuote :- UndoQuote(DeleteCreatedRows(t, r.created), r);
    var withConversation :- UndoConversation(withQuote, r);
    var withContact :- UndoContact(withConversation, r);
    Ok(withContact.(records := MarkRolledBack(withContact.records, r.id)))
  }

  /** The first `n` records of the given order rolled back, one after the other. */
  function RollbackAll(t: Tables, order: seq<Record>, n: nat): Result<Tables, RollbackError>
    requires n <= |order|
  {
    if n == 0 then Ok(t)
    else
      var done :- RollbackAll(t, order, n - 1);
      RollbackRecord(done, order[n - 1])
  }

  /** The first `n` records can be rolled back, and `done` is what is left. */
  predicate RollsBackTo(t: Tables, order: seq<Record>, n: nat, done: Tables)
    requires n <= |order|
  {
    RollbackAll(t, order, n) == Ok(done)
  }

  lemma RollsBackOneMore(t: Tables, order: seq<Record>, n: nat, done: Tables, next: Tables)
    requires n < |order| && RollsBackTo(t, order, n, done) && RollbackRecord(done, order[n]) == Ok(next)
    ensures RollsBackTo(t, order, n + 1, next)
  {
  }

  // ---- A history of commits ---------------------------------------------------------

  /** `states[i]` became `states[i + 1]` by the commit of `records[i]`. */
  ghost predicate CommitAt(states: seq<Tables>, records: seq<Record>, input: ApplyInput, i: nat)
    requires |states| == |records| + 1 && i < |records|
  {
    Effect(states[i], states[i + 1], records[i], input)
  }

  ghost predicate History(states: seq<Tables>, records: seq<Record>, input: ApplyInput) {
    && |states| == |records| + 1
    && (forall i | 0 <= i < |records| :: CommitAt(states, records, input, i))
  }

  /** A conversation stays, keeps its links, and its version only grows. */
  lemma {:induction false} ConversationsPersist(states: seq<Tables>, records: seq<Record>, input: ApplyInput, i: nat, j: nat, v: Id)
    requires History(states, records, input) && i <= j < |states| && v in states[i].conversations
    ensures v in states[j].conversations
    ensures SameLinks(states[i].conversations[v], states[j].conversations[v])
    ensures states[i].conversations[v].version <= states[j].conversations[v].version
    decreases j - i
  {
    if i < j {
      assert CommitAt(states, records, input, i);
      ConversationsPersist(states, records, input, i + 1, j, v);
    }
  }

  lemma {:induction false} QuotesPersist(states: seq<Tables>, records: seq<Record>, input: ApplyInput, i: nat, j: nat, q: Id)
    requires History(states, records, input) && i <= j < |states| && q in states[i].quotes
    ensures q in states[j].quotes && states[i].quotes[q].conversationId == states[j].quotes[q].conversationId
    decreases j - i
  {
    if i < j {
      assert CommitAt(states, records, input, i);
      QuotesPersist(states, records, input, i + 1, j, q);
    }
  }

  /** Two commits on one conversation leave the first one's snapshot outdated. */
  lemma LaterCommitChangesSnapshot(states: seq<Tables>, records: seq<Record>, input: ApplyInput, i: nat, j: nat)
    requires History(states, records, input) && i < j < |records|
    requires records[i].conversationId == records[j].conversationId
    ensures LoadSnapshot(states[|records|], records[i].contactId, records[i].conversationId, QuoteSequenceOf(records[i].after)) != records[i].after
  {
    var v := records[i].conversationId;
    assert CommitAt(states, records, input, i);
    assert CommitAt(states, records, input, j);
    ConversationsPersist(states, records, input, i + 1, j, v);
    ConversationsPersist(states, records, input, j + 1, |records|, v);
  }

  ghost predicate DistinctConversations(records: seq<Record>) {
    forall i, j | 0 <= i < j < |records| :: records[i].conversationId != records[j].conversationId
  }

  /** When nothing blocks the rollback, no two records of the batch touched the same conversation. */
  lemma NoBlockersMeansDistinct(states: seq<Tables>, records: seq<Record>, input: ApplyInput, cutoffAt: Instant, order: seq<Record>)
    requires History(states, records, input)
    requires forall r | r in records :: r in order
    requires CollectBlockers(states[|records|], cutoffAt, order, |order|) == []
    ensures DistinctConversations(records)
  {
    forall i, j | 0 <= i < j < |records|
      ensures records[i].conversationId != records[j].conversationId
    {
      assert records[i] in order;
      var k :| 0 <= k < |order| && order[k] == records[i];
      NoBlockersOf(states[|records|], cutoffAt, order, |order|, k);
      if records[i].conversationId == records[j].conversationId {
        LaterCommitChangesSnapshot(states, records, input, i, j);
      }
    }
  }
}
