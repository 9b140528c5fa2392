/** A conversation that is new in every respect is imported: no check of the transaction stands in its way. */
module ImportAccepts {
  import opened Wrappers
  import opened ImportTables
  import opened ImportApply
  import opened ImportEffect
  import opened ImportWritten

  // ---- Planned messages -------------------------------------------------------------

  /** Messages that can be inserted together: new in the tables, and different among themselves. */
  ghost predicate Insertable(t: Tables, planned: seq<PlannedMessage>) {
    && (forall p | p in planned :: !MessageConflict(t.messages, p) && p.key !in t.refs && !RefIdUsed(t.refs, p.ref.id))
    && forall i, j | 0 <= i < j < |planned| :: Different(planned[i], planned[j])
  }

  predicate Different(p: PlannedMessage, q: PlannedMessage) {
    && p.id != q.id && p.key != q.key && p.ref.id != q.ref.id && p.message.correlation != q.message.correlation
    && (p.message.providerMessageId.Some? && q.message.providerMessageId.Some? ==> p.message.providerMessageId != q.message.providerMessageId)
  }

  /** What is in the tables after the first `n` insertions comes from before or from one of them. */
  ghost predicate Grown(t: Tables, b: Tables, planned: seq<PlannedMessage>, n: nat)
    requires n <= |planned|
  {
    && b == t.(messages := b.messages, refs := b.refs)
    && (forall m | m in b.messages :: (m in t.messages && b.messages[m] == t.messages[m])
                                      || exists i :: 0 <= i < n && m == planned[i].id && b.messages[m] == planned[i].message)
    && (forall k | k in b.refs :: (k in t.refs && b.refs[k] == t.refs[k]) || exists i :: 0 <= i < n && k == planned[i].key && b.refs[k] == planned[i].ref)
  }

  lemma NextInsertable(t: Tables, b: Tables, planned: seq<PlannedMessage>, n: nat)
    requires n < |planned| && Insertable(t, planned) && Grown(t, b, planned, n)
    ensures !MessageConflict(b.messages, planned[n]) && planned[n].key !in b.refs && !RefIdUsed(b.refs, planned[n].ref.id)
  {
    var p := planned[n];
    assert p in planned && !MessageConflict(t.messages, p) && !RefIdUsed(t.refs, p.ref.id);
    assert forall i | 0 <= i < n :: Different(planned[i], p);
  }

  lemma NextGrown(t: Tables, b: Tables, c: Tables, planned: seq<PlannedMessage>, n: nat)
    requires n < |planned| && Grown(t, b, planned, n)
    requires c == b.(messages := b.messages[planned[n].id := planned[n].message], refs := b.refs[planned[n].key := planned[n].ref])
    ensures Grown(t, c, planned, n + 1)
  {
  }

  /** The tables with the first `n` messages, without asking whether they fit. */
  function Inserted(t: Tables, planned: seq<PlannedMessage>, n: nat): Tables
    requires n <= |planned|
  {
    if n == 0 then t
    else
      var b := Inserted(t, planned, n - 1);
      b.(messages := b.messages[planned[n - 1].id := planned[n - 1].message], refs := b.refs[planned[n - 1].key := planned[n - 1].ref])
  }

  lemma {:induction false} InsertedGrown(t: Tables, planned: seq<PlannedMessage>, n: nat)
    requires n <= |planned|
    ensures Grown(t, Inserted(t, planned, n), planned, n)
  {
    if n > 0 {
      InsertedGrown(t, planned, n - 1);
      NextGrown(t, Inserted(t, planned, n - 1), Inserted(t, planned, n), planned, n - 1);
    }
  }

  /** None of the messages before stands in the way of message `n`. */
  ghost predicate NextFits(t: Tables, planned: seq<PlannedMessage>, n: nat)
    requires n < |planned|
  {
    var b := Inserted(t, planned, n);
    !MessageConflict(b.messages, planned[n]) && planned[n].key !in b.refs && !RefIdUsed(b.refs, planned[n].ref.id)
  }

  lemma {:induction false} AllFit(t: Tables, planned: seq<PlannedMessage>, n: nat)
    requires n <= |planned| && forall i: nat | i < n :: NextFits(t, planned, i)
    ensures CreateMessages(t, planned, n) == Ok(Inserted(t, planned, n))
  {
    if n > 0 {
      AllFit(t, planned, n - 1);
      assert NextFits(t, planned, n - 1);
    }
  }

  lemma AllInserted(t: Tables, planned: seq<PlannedMessage>)
    requires Insertable(t, planned)
    ensures CreateMessages(t, planned, |planned|) == Ok(Inserted(t, planned, |planned|))
  {
    forall i: nat | i < |planned|
      ensures NextFits(t, planned, i)
    {
      InsertedGrown(t, planned, i);
      NextInsertable(t, Inserted(t, planned, i), planned, i);
    }
    AllFit(t, planned, |planned|);
  }

  // ---- The messages of a new row ----------------------------------------------------------

  predicate NewMessage(t: Tables, input: ApplyInput, row: ConversationRow, m: MessageRow) {
    RefKey(MessageEntity, row.sourceSystem, m.externalMessageId) !in t.refs && UserNamed(input, m.actorUsername).Ok?
  }

  lemma {:induction false} PlansAll(
    t: Tables, input: ApplyInput, row: ConversationRow, conversationId: Id, contactId: Id,
    messages: seq<MessageRow>, n: nat, ids: NewIds, now: Instant)
    requires n <= |messages| && forall i | 0 <= i < n :: NewMessage(t, input, row, messages[i])
    ensures var planned := PlanMessages(t, input, row, conversationId, contactId, messages, n, ids, now);
            && planned.Ok? && |planned.value| == n
            && forall i | 0 <= i < n :: planned.value[i] == PlannedOf(input, row, conversationId, contactId, ActorOf(input, messages[i]),
                                                                      messages[i], ids.message(i), ids.messageRef(i), now)
  {
    if n > 0 {
      PlansAll(t, input, row, conversationId, contactId, messages, n - 1, ids, now);
    }
  }

  /** No stored message is message `m` of the row, by identifier or by the provider's. */
  ghost predicate UnknownMessage(t: Tables, input: ApplyInput, row: ConversationRow, m: MessageRow) {
    forall x | x in t.messages ::
      && t.messages[x].correlation != Imported(row.sourceSystem, m.externalMessageId)
      && (m.providerMessageId.Some? ==> t.messages[x].channelId != input.channelId || t.messages[x].providerMessageId != m.providerMessageId)
  }

  predicate DifferentMessages(a: MessageRow, b: MessageRow) {
    && a.externalMessageId != b.externalMessageId
    && (a.providerMessageId.Some? && b.providerMessageId.Some? ==> a.providerMessageId != b.providerMessageId)
  }

  ghost predicate NewMessages(t: Tables, input: ApplyInput, row: ConversationRow, messages: seq<MessageRow>, ids: NewIds) {
    && (forall i | 0 <= i < |messages| ::
          && NewMessage(t, input, row, messages[i]) && UnknownMessage(t, input, row, messages[i])
          && ids.message(i) !in t.messages && !RefIdUsed(t.refs, ids.messageRef(i)))
    && (forall i, j | 0 <= i < j < |messages| ::
          DifferentMessages(messages[i], messages[j]) && ids.message(i) != ids.message(j) && ids.messageRef(i) != ids.messageRef(j))
  }

  lemma PlannedInsertable(
    t: Tables, input: ApplyInput, row: ConversationRow, conversationId: Id, contactId: Id,
    messages: seq<MessageRow>, ids: NewIds, now: Instant, planned: seq<PlannedMessage>)
    requires NewMessages(t, input, row, messages, ids) && |planned| == |messages|
    requires forall i | 0 <= i < |messages| :: planned[i] == PlannedOf(input, row, conversationId, contactId, ActorOf(input, messages[i]),
                                                                       messages[i], ids.message(i), ids.messageRef(i), now)
    ensures Insertable(t, planned)
  {
    forall i | 0 <= i < |planned|
      ensures !MessageConflict(t.messages, planned[i]) && planned[i].key !in t.refs && !RefIdUsed(t.refs, planned[i].ref.id)
    {
      assert UnknownMessage(t, input, row, messages[i]) && NewMessage(t, input, row, messages[i]);
    }
    forall i, j | 0 <= i < j < |planned|
      ensures Different(planned[i], planned[j])
    {
      assert DifferentMessages(messages[i], messages[j]);
    }
  }

  // ---- The documents of a new row ---------------------------------------------------------

  ghost predicate NewDocuments(t: Tables, row: ConversationRow, documents: seq<DocumentRow>, ids: NewIds) {
    && (forall i | 0 <= i < |documents| ::
          && DocumentKey(row, documents[i]) !in t.refs && documents[i].contentIntact
          && row.quoteSequence == Some(documents[i].quoteSequence) && documents[i].quoteSequence != 0
          && ids.document(i) !in t.documents && !RefIdUsed(t.refs, ids.documentRef(i)))
    && (forall i, j | 0 <= i < j < |documents| ::
          documents[i].externalDocumentId != documents[j].externalDocumentId
          && ids.document(i) != ids.document(j) && ids.documentRef(i) != ids.documentRef(j))
  }

  /** All of `used` are among the first `n` identifiers drawn. */
  predicate From(used: seq<Id>, drawn: nat -> Id, n: nat) {
    forall d | d in used :: exists i: nat :: i < n && d == drawn(i)
  }

  lemma FromMore(used: seq<Id>, drawn: nat -> Id, n: nat)
    requires 0 < n && From(used, drawn, n - 1)
    ensures From(used, drawn, n) && From(used + [drawn(n - 1)], drawn, n)
  {
  }

  lemma {:induction false} DocumentIdsFrom(
    t: Tables, input: ApplyInput, row: ConversationRow, conversationId: Id, quote: Option<Id>,
    documents: seq<DocumentRow>, n: nat, ids: NewIds, now: Instant)
    requires n <= |documents| && ApplyDocuments(t, input, row, conversationId, quote, documents, n, ids, now).Ok?
    ensures var r := ApplyDocuments(t, input, row, conversationId, quote, documents, n, ids, now).value;
            From(r.documentIds, ids.document, n) && From(r.refIds, ids.documentRef, n)
  {
    if n > 0 {
      DocumentIdsFrom(t, input, row, conversationId, quote, documents, n - 1, ids, now);
      var done := ApplyDocuments(t, input, row, conversationId, quote, documents, n - 1, ids, now).value;
      FromMore(done.documentIds, ids.document, n);
      FromMore(done.refIds, ids.documentRef, n);
    }
  }

  lemma NewId(a: map<Id, Document>, b: map<Id, Document>, used: seq<Id>, drawn: nat -> Id, n: nat)
    requires Added(a, b, IdSet(used)) && From(used, drawn, n)
    requires drawn(n) !in a && forall i | 0 <= i < n :: drawn(i) != drawn(n)
    ensures drawn(n) !in b
  {
    assert drawn(n) !in used;
  }

  lemma NewRefId(a: map<RefKey, ExternalRef>, b: map<RefKey, ExternalRef>, used: seq<Id>, drawn: nat -> Id, n: nat)
    requires RefsAdded(a, b, used) && From(used, drawn, n)
    requires !RefIdUsed(a, drawn(n)) && forall i | 0 <= i < n :: drawn(i) != drawn(n)
    ensures !RefIdUsed(b, drawn(n))
  {
    assert drawn(n) !in used;
  }

  lemma NewKey(t: Tables, b: Tables, row: ConversationRow, documents: seq<DocumentRow>, n: nat)
    requires n < |documents| && NewKeysOf(t, b, row, documents, n) && DocumentKey(row, documents[n]) !in t.refs
    requires forall i | 0 <= i < n :: documents[i].externalDocumentId != documents[n].externalDocumentId
    ensures DocumentKey(row, documents[n]) !in b.refs
  {
  }

  /** None of the documents before stands in the way of document `n`. */
  ghost predicate DocumentFits(
    t: Tables, input: ApplyInput, row: ConversationRow, conversationId: Id, q: Id,
    documents: seq<DocumentRow>, n: nat, ids: NewIds, now: Instant)
    requires n < |documents|
  {
    var done := ApplyDocuments(t, input, row, conversationId, Some(q), documents, n, ids, now);
    done.Ok? ==> ApplyDocument(done.value, input, row, conversationId, Some(q), documents[n], ids.document(n), ids.documentRef(n), now).Ok?
  }

  lemma NextDocumentFits(
    t: Tables, input: ApplyInput, row: ConversationRow, conversationId: Id, q: Id,
    documents: seq<DocumentRow>, n: nat, ids: NewIds, now: Instant)
    requires WellFormed(t) && conversationId in t.conversations && q in t.quotes && row.quoteSequence == Some(t.quotes[q].sequence)
    requires n < |documents| && NewDocuments(t, row, documents, ids)
    ensures DocumentFits(t, input, row, conversationId, q, documents, n, ids, now)
  {
    var r := ApplyDocuments(t, input, row, conversationId, Some(q), documents, n, ids, now);
    if r.Ok? {
      DocumentsEffect(t, input, row, conversationId, Some(q), documents, n, ids, now);
      DocumentsStep(t, input, row, conversationId, Some(q), documents, n, ids, now);
      DocumentIdsFrom(t, input, row, conversationId, Some(q), documents, n, ids, now);
      var done := r.value;
      NewId(t.documents, done.tables.documents, done.documentIds, ids.document, n);
      NewRefId(t.refs, done.tables.refs, done.refIds, ids.documentRef, n);
      NewKey(t, done.tables, row, documents, n);
      DocumentAccepted(done, input, row, conversationId, q, documents[n], ids.document(n), ids.documentRef(n), now);
    }
  }

  lemma DocumentAccepted(
    done: DocumentsCreated, input: ApplyInput, row: ConversationRow, conversationId: Id, q: Id, d: DocumentRow, id: Id, refId: Id, now: Instant)
    requires q in done.tables.quotes && done.tables.quotes[q].sequence == d.quoteSequence && d.contentIntact
    requires DocumentKey(row, d) !in done.tables.refs && id !in done.tables.documents && !RefIdUsed(done.tables.refs, refId)
    ensures ApplyDocument(done, input, row, conversationId, Some(q), d, id, refId, now).Ok?
  {
  }

  lemma {:induction false} AllDocumentsFit(
    t: Tables, input: ApplyInput, row: ConversationRow, conversationId: Id, q: Id,
    documents: seq<DocumentRow>, n: nat, ids: NewIds, now: Instant)
    requires n <= |documents| && forall i: nat | i < n :: DocumentFits(t, input, row, conversationId, q, documents, i, ids, now)
    ensures ApplyDocuments(t, input, row, conversationId, Some(q), documents, n, ids, now).Ok?
  {
    if n > 0 {
      AllDocumentsFit(t, input, row, conversationId, q, documents, n - 1, ids, now);
      assert DocumentFits(t, input, row, conversationId, q, documents, n - 1, ids, now);
    }
  }

  // ---- The contents of a new row -----------------------------------------------------------------

  predicate Unlike(drawn: nat -> Id, n: nat, id: Id) {
    forall i | 0 <= i < n :: drawn(i) != id
  }

  ghost predicate NewContents(
    t: Tables, input: ApplyInput, row: ConversationRow, messages: seq<MessageRow>, documents: seq<DocumentRow>, ids: NewIds)
  {
    && RefKey(ConversationEntity, row.sourceSystem, row.externalConversationId) !in t.refs && !RefIdUsed(t.refs, ids.conversationRef)
    && ids.quote !in t.quotes
    && NewMessages(t, input, row, messages, ids) && NewDocuments(t, row, documents, ids)
    && Unlike(ids.messageRef, |messages|, ids.conversationRef) && Unlike(ids.documentRef, |documents|, ids.conversationRef)
    && forall i | 0 <= i < |documents| :: Unlike(ids.messageRef, |messages|, ids.documentRef(i))
  }

  /** One more reference, of a conversation, does not make known what was new. */
  lemma StillNewMessages(t: Tables, b: Tables, input: ApplyInput, row: ConversationRow, messages: seq<MessageRow>, ids: NewIds, key: RefKey, ref: ExternalRef)
    requires NewMessages(t, input, row, messages, ids) && Unlike(ids.messageRef, |messages|, ref.id)
    requires key.entityType == ConversationEntity && b.messages == t.messages && b.refs == t.refs[key := ref]
    ensures NewMessages(b, input, row, messages, ids)
  {
    forall i | 0 <= i < |messages|
      ensures NewMessage(b, input, row, messages[i]) && UnknownMessage(b, input, row, messages[i])
      ensures ids.message(i) !in b.messages && !RefIdUsed(b.refs, ids.messageRef(i))
    {
      assert NewMessage(t, input, row, messages[i]) && UnknownMessage(t, input, row, messages[i]);
    }
  }

  /** References of other kinds with other identifiers do not make known what was new. */
  lemma StillNewDocuments(t: Tables, b: Tables, row: ConversationRow, documents: seq<DocumentRow>, ids: NewIds)
    requires NewDocuments(t, row, documents, ids) && b.documents == t.documents
    requires forall k | k in b.refs && k.entityType == DocumentEntity :: k in t.refs
    requires forall k | k in b.refs ::
               RefIdUsed(t.refs, b.refs[k].id) || Unlike(ids.documentRef, |documents|, b.refs[k].id)
    ensures NewDocuments(b, row, documents, ids)
  {
    forall i | 0 <= i < |documents|
      ensures DocumentKey(row, documents[i]) !in b.refs && !RefIdUsed(b.refs, ids.documentRef(i))
    {
      assert !RefIdUsed(t.refs, ids.documentRef(i));
    }
  }

  /** The messages of a new row are all planned and inserted. */
  lemma MessagesAccepted(
    t: Tables, input: ApplyInput, row: ConversationRow, conversationId: Id, contactId: Id,
    messages: seq<MessageRow>, ids: NewIds, now: Instant)
    returns (planned: seq<PlannedMessage>)
    requires NewMessages(t, input, row, messages, ids)
    ensures PlanMessages(t, input, row, conversationId, contactId, messages, |messages|, ids, now) == Ok(planned)
    ensures CreateMessages(t, planned, |planned|) == Ok(Inserted(t, planned, |planned|))
    ensures |planned| == |messages|
            && forall i | 0 <= i < |planned| :: planned[i].key.entityType == MessageEntity && planned[i].ref.id == ids.messageRef(i)
  {
    PlansAll(t, input, row, conversationId, contactId, messages, |messages|, ids, now);
    planned := PlanMessages(t, input, row, conversationId, contactId, messages, |messages|, ids, now).value;
    PlannedInsertable(t, input, row, conversationId, contactId, messages, ids, now, planned);
    AllInserted(t, planned);
  }

  /** The documents of a new row are all accepted. */
  lemma DocumentsAccepted(
    t: Tables, input: ApplyInput, row: ConversationRow, conversationId: Id, quote: Option<Id>,
    documents: seq<DocumentRow>, ids: NewIds, now: Instant)
    requires WellFormed(t) && conversationId in t.conversations && NewDocuments(t, row, documents, ids)
    requires documents != [] ==> quote.Some? && quote.value in t.quotes && row.quoteSequence == Some(t.quotes[quote.value].sequence)
    ensures ApplyDocuments(t, input, row, conversationId, quote, documents, |documents|, ids, now).Ok?
  {
    if documents != [] {
      forall i: nat | i < |documents|
        ensures DocumentFits(t, input, row, conversationId, quote.value, documents, i, ids, now)
      {
        NextDocumentFits(t, input, row, conversationId, quote.value, documents, i, ids, now);
      }
      AllDocumentsFit(t, input, row, conversationId, quote.value, documents, |documents|, ids, now);
    }
  }

  lemma QuoteAccepted(
    t: Tables, input: ApplyInput, row: ConversationRow, conversationId: Id, documents: seq<DocumentRow>, ids: NewIds)
    returns (b: Tables, quote: Option<Id>)
    requires WellFormed(t) && conversationId in t.conversations && ids.quote !in t.quotes && NewDocuments(t, row, documents, ids)
    requires FindQuote(t.quotes, conversationId, row.quoteSequence).None?
    ensures UpsertQuote(t, input, row, conversationId, None, ids.quote) == Ok((b, quote))
    ensures WellFormed(b) && b == t.(quotes := b.quotes)
    ensures documents != [] ==> quote.Some? && quote.value in b.quotes && row.quoteSequence == Some(b.quotes[quote.value].sequence)
  {
    QuoteStep(t, input, row, conversationId, None, ids.quote);
    var w := UpsertQuote(t, input, row, conversationId, None, ids.quote).value;
    b, quote := w.0, w.1;
    if documents != [] {
      assert row.quoteSequence == Some(documents[0].quoteSequence) && documents[0].quoteSequence != 0;
    }
  }

  /** When each part is accepted, so are the contents. */
  lemma PartsAccepted(
    t: Tables, input: ApplyInput, row: ConversationRow, messages: seq<MessageRow>, documents: seq<DocumentRow>,
    conversationId: Id, contactId: Id, ids: NewIds, now: Instant,
    withRef: Tables, withQuote: Tables, quote: Option<Id>, planned: seq<PlannedMessage>, withMessages: Tables)
    requires InsertRef(t, RefKey(ConversationEntity, row.sourceSystem, row.externalConversationId),
                       ExternalRef(ids.conversationRef, input.batchId, conversationId, None)) == Ok(withRef)
    requires FindQuote(withRef.quotes, conversationId, row.quoteSequence).None?
    requires UpsertQuote(withRef, input, row, conversationId, None, ids.quote) == Ok((withQuote, quote))
    requires PlanMessages(withQuote, input, row, conversationId, contactId, messages, |messages|, ids, now) == Ok(planned)
    requires CreateMessages(withQuote, planned, |planned|) == Ok(withMessages)
    requires ApplyDocuments(withMessages, input, row, conversationId, quote, documents, |documents|, ids, now).Ok?
    ensures ApplyContents(t, input, row, messages, documents, conversationId, contactId, false, ids, now).Ok?
  {
  }

  lemma ContentsAccepted(
    t: Tables, input: ApplyInput, row: ConversationRow, messages: seq<MessageRow>, documents: seq<DocumentRow>,
    conversationId: Id, contactId: Id, ids: NewIds, now: Instant)
    requires WellFormed(t) && conversationId in t.conversations && contactId in t.contacts
    requires NewContents(t, input, row, messages, documents, ids)
    requires forall q | q in t.quotes :: t.quotes[q].conversationId != conversationId
    ensures ApplyContents(t, input, row, messages, documents, conversationId, contactId, false, ids, now).Ok?
  {
    var key := RefKey(ConversationEntity, row.sourceSystem, row.externalConversationId);
    var ref := ExternalRef(ids.conversationRef, input.batchId, conversationId, None);
    var withRef := t.(refs := t.refs[key := ref]);
    InsertRefKeeps(t, key, ref);
    DocumentsStillNew(t, withRef, withRef, key, ref, [], row, documents, ids, 0);
    var withQuote, quote := QuoteAccepted(withRef, input, row, conversationId, documents, ids);
    StillNewMessages(t, withQuote, input, row, messages, ids, key, ref);
    var planned := MessagesAccepted(withQuote, input, row, conversationId, contactId, messages, ids, now);
    var withMessages := MessagesInserted(withQuote, input, row, conversationId, contactId, messages, ids, now, planned);
    DocumentsStillNew(t, withQuote, withMessages, key, ref, planned, row, documents, ids, |messages|);
    DocumentsAccepted(withMessages, input, row, conversationId, quote, documents, ids, now);
    PartsAccepted(t, input, row, messages, documents, conversationId, contactId, ids, now, withRef, withQuote, quote, planned, withMessages);
  }

  lemma MessagesInserted(
    t: Tables, input: ApplyInput, row: ConversationRow, conversationId: Id, contactId: Id,
    messages: seq<MessageRow>, ids: NewIds, now: Instant, planned: seq<PlannedMessage>)
    returns (b: Tables)
    requires WellFormed(t) && conversationId in t.conversations && contactId in t.contacts
    requires PlanMessages(t, input, row, conversationId, contactId, messages, |messages|, ids, now) == Ok(planned)
    requires CreateMessages(t, planned, |planned|) == Ok(Inserted(t, planned, |planned|))
    ensures CreateMessages(t, planned, |planned|) == Ok(b)
    ensures WellFormed(b) && b.conversations == t.conversations && b.quotes == t.quotes && Grown(t, b, planned, |planned|)
  {
    PlanEffect(t, input, row, conversationId, contactId, messages, |messages|, ids, now);
    CreateEffect(t, input, conversationId, contactId, planned, |planned|);
    InsertedGrown(t, planned, |planned|);
    b := Inserted(t, planned, |planned|);
  }

  lemma DocumentsStillNew(
    t: Tables, a: Tables, b: Tables, key: RefKey, ref: ExternalRef, planned: seq<PlannedMessage>,
    row: ConversationRow, documents: seq<DocumentRow>, ids: NewIds, n: nat)
    requires NewDocuments(t, row, documents, ids) && a.documents == t.documents && Grown(a, b, planned, |planned|)
    requires key.entityType == ConversationEntity && a.refs == t.refs[key := ref] && Unlike(ids.documentRef, |documents|, ref.id)
    requires |planned| == n && forall i | 0 <= i < n :: planned[i].key.entityType == MessageEntity && planned[i].ref.id == ids.messageRef(i)
    requires forall i | 0 <= i < |documents| :: Unlike(ids.messageRef, n, ids.documentRef(i))
    ensures NewDocuments(b, row, documents, ids)
  {
    forall k | k in b.refs
      ensures k.entityType == DocumentEntity ==> k in t.refs
      ensures RefIdUsed(t.refs, b.refs[k].id) || Unlike(ids.documentRef, |documents|, b.refs[k].id)
    {
      if k in t.refs && k != key && b.refs[k] == t.refs[k] {
        assert RefIdUsed(t.refs, b.refs[k].id);
      }
    }
    StillNewDocuments(t, b, row, documents, ids);
  }

  // ---- The new row ---------------------------------------------------------------------------

  /** Nothing of the row is in the tables, and the identifiers drawn for it are unused and different. */
  ghost predicate NewRow(
    t: Tables, input: ApplyInput, row: ConversationRow, messages: seq<MessageRow>, documents: seq<DocumentRow>, ids: NewIds)
  {
    && (forall c | c in t.contacts :: t.contacts[c].phone != row.phone)
    && (forall r | r in t.records :: r.id != ids.record && !SameRecordKey(r, input.batchId, row.sourceSystem, row.externalConversationId))
    && UserNamed(input, row.ownerUsername).Ok?
    && ids.contact !in t.contacts && ids.conversation !in t.conversations
    && NewContents(t, input, row, messages, documents, ids)
  }

  predicate CreatesBoth(a: Tables, r: Result<Tables, ImportError>, ids: NewIds) {
    && r.Ok? && |r.value.records| == |a.records| + 1
    && r.value.records[|a.records|].created.contactId == Some(ids.contact)
    && r.value.records[|a.records|].created.conversationId == Some(ids.conversation)
  }

  /** With new contents the transaction ends with its record. */
  lemma ApplyToAccepted(
    t: Tables, withContact: Tables, input: ApplyInput, row: ConversationRow, messages: seq<MessageRow>, documents: seq<DocumentRow>,
    newRow: Conversation, ids: NewIds, now: Instant)
    requires ids.conversation !in t.conversations
    requires ApplyContents(withContact.(conversations := t.conversations[ids.conversation := newRow]), input, row, messages, documents,
                           ids.conversation, ids.contact, false, ids, now).Ok?
    requires forall r | r in t.records :: r.id != ids.record && !SameRecordKey(r, input.batchId, row.sourceSystem, row.externalConversationId)
    ensures CreatesBoth(t, ApplyTo(t, withContact, input, row, messages, documents, None, ids.contact, None, newRow, false, ids, now), ids)
  {
  }

  lemma NewContactWritten(t: Tables, input: ApplyInput, row: ConversationRow, id: Id) returns (withContact: Tables)
    requires WellFormed(t) && id !in t.contacts && forall c | c in t.contacts :: t.contacts[c].phone != row.phone
    ensures UpsertContact(t, input, row, None, false, id) == Ok((withContact, id))
    ensures WellFormed(withContact) && withContact == t.(contacts := withContact.contacts) && id in withContact.contacts
    ensures forall v | v in t.conversations :: t.conversations[v].contactId != id
  {
    assert FindContact(t.contacts, row.phone).None?;
    ContactStep(t, input, row, None, false, id);
    withContact := UpsertContact(t, input, row, None, false, id).value.0;
    assert ConversationLinks(t.conversations, t.contacts.Keys);
  }

  lemma NewConversationWritten(t: Tables, input: ApplyInput, row: ConversationRow, v: Id, newRow: Conversation)
    requires WellFormed(t) && v !in t.conversations && newRow.contactId in t.contacts
    requires forall w | w in t.conversations :: t.conversations[w].contactId != newRow.contactId
    ensures TargetConversation(t, input, row, None, newRow.contactId) == Ok(None)
    ensures WellFormed(t.(conversations := t.conversations[v := newRow]))
    ensures forall q | q in t.quotes :: t.quotes[q].conversationId != v
  {
    SetConversationKeeps(t, v, newRow);
    assert QuoteLinks(t.quotes, t.conversations.Keys);
  }

  /** The new contact and the new conversation are in place, and the contents are still new. */
  lemma NewRowWritten(
    t: Tables, input: ApplyInput, row: ConversationRow, messages: seq<MessageRow>, documents: seq<DocumentRow>, ids: NewIds,
    newRow: Conversation)
    returns (withContact: Tables)
    requires WellFormed(t) && NewRow(t, input, row, messages, documents, ids)
    requires newRow.channelId == input.channelId && newRow.contactId == ids.contact
    ensures UpsertContact(t, input, row, None, false, ids.contact) == Ok((withContact, ids.contact))
    ensures TargetConversation(withContact, input, row, None, ids.contact) == Ok(None)
    ensures var b := withContact.(conversations := t.conversations[ids.conversation := newRow]);
            && WellFormed(b) && ids.contact in b.contacts && NewContents(b, input, row, messages, documents, ids)
            && forall q | q in b.quotes :: b.quotes[q].conversationId != ids.conversation
  {
    withContact := NewContactWritten(t, input, row, ids.contact);
    NewConversationWritten(withContact, input, row, ids.conversation, newRow);
    ContentsStay(t, withContact.(conversations := t.conversations[ids.conversation := newRow]), input, row, messages, documents, ids);
  }

  /** Being new depends on references, messages, documents and quotes alone. */
  lemma ContentsStay(
    a: Tables, b: Tables, input: ApplyInput, row: ConversationRow, messages: seq<MessageRow>, documents: seq<DocumentRow>, ids: NewIds)
    requires NewContents(a, input, row, messages, documents, ids)
    requires b == a.(contacts := b.contacts, conversations := b.conversations)
    ensures NewContents(b, input, row, messages, documents, ids)
  {
    forall i | 0 <= i < |messages|
      ensures NewMessage(b, input, row, messages[i]) && UnknownMessage(b, input, row, messages[i])
    {
      assert NewMessage(a, input, row, messages[i]) && UnknownMessage(a, input, row, messages[i]);
    }
  }

  /** For a new contact and a new conversation nothing stands against the row. */
  lemma NewRowDecided(
    t: Tables, input: ApplyInput, row: ConversationRow, newContact: Id, withContact: Tables, owner: Option<Id>)
    requires RefKey(ConversationEntity, row.sourceSystem, row.externalConversationId) !in t.refs
    requires forall c | c in t.contacts :: t.contacts[c].phone != row.phone
    requires UpsertContact(t, input, row, None, false, newContact) == Ok((withContact, newContact))
    requires TargetConversation(withContact, input, row, None, newContact) == Ok(None)
    requires UserNamed(input, row.ownerUsername) == Ok(owner)
    ensures Decide(t, input, row, newContact) == Ok(Decision(None, withContact, newContact, None, owner, false))
  {
    assert FindContact(t.contacts, row.phone).None?;
  }

  /** A row that is new in every respect is committed, and the record names its contact and conversation as created. */
  lemma NewRowIsApplied(
    t: Tables, input: ApplyInput, row: ConversationRow, messages: seq<MessageRow>, documents: seq<DocumentRow>, ids: NewIds, now: Instant)
    requires WellFormed(t) && NewRow(t, input, row, messages, documents, ids)
    ensures CreatesBoth(t, ApplyConversation(t, input, row, messages, documents, ids, now), ids)
  {
    var owner := UserNamed(input, row.ownerUsername).value;
    var newRow := ConversationData(input, row, messages, ids.contact, owner, None);
    var withContact := NewRowWritten(t, input, row, messages, documents, ids, newRow);
    ContentsAccepted(withContact.(conversations := t.conversations[ids.conversation := newRow]), input, row, messages, documents,
                     ids.conversation, ids.contact, ids, now);
    ApplyToAccepted(t, withContact, input, row, messages, documents, newRow, ids, now);
    NewRowDecided(t, input, row, ids.contact, withContact, owner);
  }
}
