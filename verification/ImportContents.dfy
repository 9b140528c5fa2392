/**
  Every reference that a commit adds leads to a message or a document with the content
  that the reference was made for; so whoever stored a row's messages and documents
  first, they are as the package has them.
 */
module ImportContents {
  import opened Wrappers
  import opened ImportTables
  import opened ImportApply
  import opened ImportEffect
  import opened ImportStored
  import opened ImportWritten

  /** The row behind the reference says what its payload says. */
  predicate RefSays(t: Tables, k: RefKey)
    requires k in t.refs
  {
    var ref := t.refs[k];
    match k.entityType
    case ConversationEntity => true
    case MessageEntity =>
      && ref.payloadHash.Some? && ref.payloadHash.value.MessagePayload? && ref.internalId in t.messages
      && Says(t.messages[ref.internalId], k.sourceSystem, ref.payloadHash.value.message)
    case DocumentEntity =>
      && ref.payloadHash.Some? && ref.payloadHash.value.DocumentPayload? && ref.internalId in t.documents
      && DocumentSays(t.documents[ref.internalId], ref.payloadHash.value.document)
  }

  ghost predicate NewRefsSay(a: Tables, b: Tables) {
    forall k | k in b.refs && k !in a.refs :: RefSays(b, k)
  }

  // ---- One commit ------------------------------------------------------------------------

  predicate PlanSays(p: PlannedMessage) {
    && p.key.entityType == MessageEntity && p.ref.internalId == p.id
    && p.ref.payloadHash.Some? && p.ref.payloadHash.value.MessagePayload?
    && Says(p.message, p.key.sourceSystem, p.ref.payloadHash.value.message)
  }

  lemma {:induction false} PlansSay(
    t: Tables, input: ApplyInput, row: ConversationRow, conversationId: Id, contactId: Id,
    messages: seq<MessageRow>, n: nat, ids: NewIds, now: Instant, p: PlannedMessage)
    requires n <= |messages| && PlanMessages(t, input, row, conversationId, contactId, messages, n, ids, now).Ok?
    requires p in PlanMessages(t, input, row, conversationId, contactId, messages, n, ids, now).value
    ensures PlanSays(p)
  {
    if n > 0 && p in PlanMessages(t, input, row, conversationId, contactId, messages, n - 1, ids, now).value {
      PlansSay(t, input, row, conversationId, contactId, messages, n - 1, ids, now, p);
    }
  }

  lemma MessageRefKept(done: Tables, p: PlannedMessage, next: Tables, k: RefKey)
    requires !MessageConflict(done.messages, p) && PlanSays(p)
    requires InsertRef(done.(messages := done.messages[p.id := p.message]), p.key, p.ref) == Ok(next)
    requires k in next.refs && (k in done.refs ==> RefSays(done, k))
    ensures RefSays(next, k)
  {
  }

  lemma {:induction false} MessageRefSays(t: Tables, planned: seq<PlannedMessage>, n: nat, k: RefKey)
    requires n <= |planned| && (forall p | p in planned :: PlanSays(p)) && CreateMessages(t, planned, n).Ok?
    requires k in CreateMessages(t, planned, n).value.refs && k !in t.refs
    ensures RefSays(CreateMessages(t, planned, n).value, k)
  {
    if n > 0 {
      var done := CreateMessages(t, planned, n - 1).value;
      if k in done.refs {
        MessageRefSays(t, planned, n - 1, k);
      }
      assert planned[n - 1] in planned;
      MessageRefKept(done, planned[n - 1], CreateMessages(t, planned, n).value, k);
    }
  }

  lemma DocumentRefKept(
    done: DocumentsCreated, input: ApplyInput, row: ConversationRow, conversationId: Id, quote: Option<Id>,
    d: DocumentRow, id: Id, refId: Id, now: Instant, k: RefKey)
    requires ApplyDocument(done, input, row, conversationId, quote, d, id, refId, now).Ok?
    requires var r := ApplyDocument(done, input, row, conversationId, quote, d, id, refId, now).value;
             k in r.tables.refs && (k in done.tables.refs ==> RefSays(done.tables, k))
    ensures RefSays(ApplyDocument(done, input, row, conversationId, quote, d, id, refId, now).value.tables, k)
  {
  }

  lemma {:induction false} DocumentRefSays(
    t: Tables, input: ApplyInput, row: ConversationRow, conversationId: Id, quote: Option<Id>,
    documents: seq<DocumentRow>, n: nat, ids: NewIds, now: Instant, k: RefKey)
    requires n <= |documents| && ApplyDocuments(t, input, row, conversationId, quote, documents, n, ids, now).Ok?
    requires k in ApplyDocuments(t, input, row, conversationId, quote, documents, n, ids, now).value.tables.refs
    requires k in t.refs ==> RefSays(t, k)
    ensures RefSays(ApplyDocuments(t, input, row, conversationId, quote, documents, n, ids, now).value.tables, k)
  {
    if n > 0 {
      var done := ApplyDocuments(t, input, row, conversationId, quote, documents, n - 1, ids, now).value;
      if k in done.tables.refs {
        DocumentRefSays(t, input, row, conversationId, quote, documents, n - 1, ids, now, k);
      }
      DocumentRefKept(done, input, row, conversationId, quote, documents[n - 1], ids.document(n - 1), ids.documentRef(n - 1), now, k);
    }
  }

  lemma ContentsSay(
    w: Tables, input: ApplyInput, row: ConversationRow, messages: seq<MessageRow>, documents: seq<DocumentRow>, v: Id, contactId: Id,
    referenced: bool, ids: NewIds, now: Instant, b: Tables)
    requires WellFormed(w) && v in w.conversations && contactId in w.contacts
    requires var c := ApplyContents(w, input, row, messages, documents, v, contactId, referenced, ids, now); c.Ok? && c.value.0 == b
    ensures NewRefsSay(w, b)
  {
    var existing, quote, planned, withRef, withQuote, withMessages, done :=
      ContentsSteps(w, input, row, messages, documents, v, contactId, referenced, ids, now, b);
    forall p | p in planned
      ensures PlanSays(p)
    {
      PlansSay(withQuote, input, row, v, contactId, messages, |messages|, ids, now, p);
    }
    forall k | k in b.refs && k !in w.refs
      ensures RefSays(b, k)
    {
      if k in withMessages.refs && k !in withQuote.refs {
        MessageRefSays(withQuote, planned, |planned|, k);
      }
      DocumentRefSays(withMessages, input, row, v, quote, documents, |documents|, ids, now, k);
    }
  }

  /** Every reference that a commit adds says what it was made for. */
  lemma ApplySays(
    t: Tables, input: ApplyInput, row: ConversationRow, messages: seq<MessageRow>, documents: seq<DocumentRow>, ids: NewIds, now: Instant, b: Tables)
    requires WellFormed(t) && ApplyConversation(t, input, row, messages, documents, ids, now) == Ok(b)
    ensures NewRefsSay(t, b)
  {
    var w, v, contactId, referenced, owner := ApplyIs(t, input, row, messages, documents, ids, now, b);
    var c := ApplyContents(w, input, row, messages, documents, v, contactId, referenced, ids, now).value.0;
    ContentsSay(w, input, row, messages, documents, v, contactId, referenced, ids, now, c);
    forall k | k in b.refs && k !in t.refs
      ensures RefSays(b, k)
    {
      assert RefSays(c, k);
    }
  }

  // ---- Any number of commits ---------------------------------------------------------------

  /** What was said before stays said, and the new commit says its own. */
  lemma SayingGoesOn(base: Tables, a: Tables, b: Tables, r: Record, input: ApplyInput)
    requires NewRefsSay(base, a) && NewRefsSay(a, b) && Effect(a, b, r, input)
    ensures NewRefsSay(base, b)
  {
    forall k | k in b.refs && k !in base.refs
      ensures RefSays(b, k)
    {
      if k in a.refs {
        assert RefSays(a, k);
      }
    }
  }

  /** All of the row is stored in the conversation: messages and documents. */
  predicate RowStored(t: Tables, row: ConversationRow, messages: seq<MessageRow>, documents: seq<DocumentRow>, v: Id) {
    AllStored(t, row, messages, v) && forall d | d in documents :: DocumentStored(t, row, d, v)
  }

  /** Stored, and what `base` had no reference for as the row has it. */
  predicate RowStoredSince(base: Tables, t: Tables, row: ConversationRow, messages: seq<MessageRow>, documents: seq<DocumentRow>, v: Id) {
    AllWritten(base, t, row, messages, v) && DocumentsWritten(base, t, row, documents, v)
  }

  lemma StoredAsSaid(base: Tables, t: Tables, row: ConversationRow, messages: seq<MessageRow>, documents: seq<DocumentRow>, v: Id)
    requires NewRefsSay(base, t) && RowStored(t, row, messages, documents, v)
    ensures RowStoredSince(base, t, row, messages, documents, v)
  {
    forall m | m in messages
      ensures MessageWritten(base, t, row, m, v)
    {
      assert MessageStored(t, row, m, v);
    }
    forall d | d in documents
      ensures DocumentWritten(base, t, row, d, v)
    {
      assert DocumentStored(t, row, d, v);
    }
  }

  lemma ApplyStoresRow(
    t: Tables, input: ApplyInput, row: ConversationRow, messages: seq<MessageRow>, documents: seq<DocumentRow>, ids: NewIds, now: Instant, b: Tables)
    requires WellFormed(t) && ApplyConversation(t, input, row, messages, documents, ids, now) == Ok(b)
    ensures |b.records| == |t.records| + 1 && RowStored(b, row, messages, documents, b.records[|t.records|].conversationId)
  {
    ApplyStores(t, input, row, messages, documents, ids, now);
    ApplyWrites(t, input, row, messages, documents, ids, now);
    var v := b.records[|t.records|].conversationId;
    forall m | m in messages
      ensures MessageStored(b, row, m, v)
    {
      assert MessageWritten(t, b, row, m, v);
    }
    forall d | d in documents
      ensures DocumentStored(b, row, d, v)
    {
      assert DocumentWritten(t, b, row, d, v);
    }
  }

  lemma EffectKeepsRow(a: Tables, b: Tables, r: Record, input: ApplyInput, row: ConversationRow, messages: seq<MessageRow>, documents: seq<DocumentRow>, v: Id)
    requires Effect(a, b, r, input) && RowStored(a, row, messages, documents, v)
    ensures RowStored(b, row, messages, documents, v)
  {
    forall m | m in messages
      ensures MessageStored(b, row, m, v)
    {
      assert MessageStored(a, row, m, v);
    }
    forall d | d in documents
      ensures DocumentStored(b, row, d, v)
    {
      assert DocumentStored(a, row, d, v);
      EffectKeepsDocument(a, b, r, input, row, d, v);
    }
  }

  lemma EffectKeepsDocument(a: Tables, b: Tables, r: Record, input: ApplyInput, row: ConversationRow, d: DocumentRow, v: Id)
    requires Effect(a, b, r, input) && DocumentStored(a, row, d, v)
    ensures DocumentStored(b, row, d, v)
  {
    var q := a.documents[a.refs[DocumentKey(row, d)].internalId].quoteRequestId;
    assert q in b.quotes && b.quotes[q].sequence == a.quotes[q].sequence;
  }
}
