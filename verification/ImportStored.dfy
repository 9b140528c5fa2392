/** After a commit every message of the row is stored once, under its own external reference. */
module ImportStored {
  import opened Wrappers
  import opened ImportTables
  import opened ImportApply
  import opened ImportEffect

  function MessageKey(row: ConversationRow, m: MessageRow): RefKey {
    RefKey(MessageEntity, row.sourceSystem, m.externalMessageId)
  }

  /** The reference of `m` carries its payload and points to a message of the conversation. */
  predicate MessageStored(t: Tables, row: ConversationRow, m: MessageRow, conversationId: Id) {
    var key := MessageKey(row, m);
    && key in t.refs
    && t.refs[key].payloadHash == Some(MessagePayload(row.externalConversationId, m))
    && t.refs[key].internalId in t.messages
    && t.messages[t.refs[key].internalId].conversationId == conversationId
  }

  predicate AllStored(t: Tables, row: ConversationRow, messages: seq<MessageRow>, conversationId: Id) {
    forall m | m in messages :: MessageStored(t, row, m, conversationId)
  }

  /** The stored message has the content of row `m`. */
  predicate Says(stored: Message, sourceSystem: string, m: MessageRow) {
    && stored.direction == m.direction && stored.kind == m.kind && stored.deliveryStatus == m.deliveryStatus
    && stored.text == m.text && stored.occurredAt == m.occurredAt && stored.providerMessageId == m.providerMessageId
    && stored.correlation == Imported(sourceSystem, m.externalMessageId)
  }

  /** Stored, and if `a` had no reference for it, with the content of the row. */
  predicate MessageWritten(a: Tables, b: Tables, row: ConversationRow, m: MessageRow, conversationId: Id) {
    && MessageStored(b, row, m, conversationId)
    && (MessageKey(row, m) !in a.refs ==> Says(b.messages[b.refs[MessageKey(row, m)].internalId], row.sourceSystem, m))
  }

  predicate AllWritten(a: Tables, b: Tables, row: ConversationRow, messages: seq<MessageRow>, conversationId: Id) {
    forall m | m in messages :: MessageWritten(a, b, row, m, conversationId)
  }

  /** The planned message that stores row `m`. */
  predicate PlansFor(row: ConversationRow, m: MessageRow, conversationId: Id, p: PlannedMessage) {
    && p.key == MessageKey(row, m)
    && Says(p.message, row.sourceSystem, m)
    && p.ref.payloadHash == Some(MessagePayload(row.externalConversationId, m))
    && p.ref.internalId == p.id
    && p.message.conversationId == conversationId
  }

  /** What the plan does about `m`: nothing when it is stored, else it stores it. */
  predicate Covered(t: Tables, row: ConversationRow, m: MessageRow, conversationId: Id, planned: seq<PlannedMessage>) {
    if MessageKey(row, m) in t.refs then MessageStored(t, row, m, conversationId)
    else exists p :: p in planned && PlansFor(row, m, conversationId, p)
  }

  lemma {:induction false} PlanCovers(
    t: Tables, input: ApplyInput, row: ConversationRow, conversationId: Id, contactId: Id,
    messages: seq<MessageRow>, n: nat, ids: NewIds, now: Instant)
    requires n <= |messages|
    requires PlanMessages(t, input, row, conversationId, contactId, messages, n, ids, now).Ok?
    ensures var planned := PlanMessages(t, input, row, conversationId, contactId, messages, n, ids, now).value;
            forall j | 0 <= j < n ::
              Covered(t, row, messages[j], conversationId, planned)
  {
    if n > 0 {
      PlanCovers(t, input, row, conversationId, contactId, messages, n - 1, ids, now);
      var earlier := PlanMessages(t, input, row, conversationId, contactId, messages, n - 1, ids, now).value;
      var planned := PlanMessages(t, input, row, conversationId, contactId, messages, n, ids, now).value;
      assert forall p | p in earlier :: p in planned;
      if MessageDecision(t, input, row, conversationId, messages[n - 1]) == Ok(true) {
        var p := planned[|planned| - 1];
        assert p in planned && PlansFor(row, messages[n - 1], conversationId, p);
      }
      forall j | 0 <= j < n
        ensures Covered(t, row, messages[j], conversationId, planned)
      {
      }
    }
  }

  /** What `b` keeps of `a`: every message and every reference. */
  ghost predicate Keeps(a: Tables, b: Tables) {
    && (forall m | m in a.messages :: m in b.messages && b.messages[m] == a.messages[m])
    && (forall k | k in a.refs :: k in b.refs && b.refs[k] == a.refs[k])
  }

  predicate PlanStored(t: Tables, p: PlannedMessage) {
    p.key in t.refs && t.refs[p.key] == p.ref && p.id in t.messages && t.messages[p.id] == p.message
  }

  /** One more message and its reference are stored, and everything else is kept. */
  lemma CreateStep(done: Tables, p: PlannedMessage, next: Tables)
    requires !MessageConflict(done.messages, p)
    requires InsertRef(done.(messages := done.messages[p.id := p.message]), p.key, p.ref) == Ok(next)
    ensures Keeps(done, next) && PlanStored(next, p)
  {
  }

  lemma KeepsPlan(a: Tables, b: Tables, p: PlannedMessage)
    requires Keeps(a, b) && PlanStored(a, p)
    ensures PlanStored(b, p)
  {
  }

  lemma {:induction false} CreateStores(t: Tables, planned: seq<PlannedMessage>, n: nat)
    requires n <= |planned| && CreateMessages(t, planned, n).Ok?
    ensures Keeps(t, CreateMessages(t, planned, n).value)
    ensures forall j | 0 <= j < n :: PlanStored(CreateMessages(t, planned, n).value, planned[j])
  {
    if n > 0 {
      CreateStores(t, planned, n - 1);
      var done, next := CreateMessages(t, planned, n - 1).value, CreateMessages(t, planned, n).value;
      CreateStep(done, planned[n - 1], next);
      forall j | 0 <= j < n - 1
        ensures PlanStored(next, planned[j])
      {
        KeepsPlan(done, next, planned[j]);
      }
    }
  }

  /** The states that the contents pass through: the reference and the quote, the messages, the documents. */
  ghost predicate ContentsPass(
    w: Tables, input: ApplyInput, row: ConversationRow, messages: seq<MessageRow>, documents: seq<DocumentRow>, v: Id, contactId: Id,
    ids: NewIds, now: Instant, existing: Option<Id>, quote: Option<Id>, planned: seq<PlannedMessage>,
    withRef: Tables, withQuote: Tables, withMessages: Tables, done: DocumentsCreated)
  {
    && withRef == w.(refs := withRef.refs)
    && (forall k | k in w.refs :: k in withRef.refs && withRef.refs[k] == w.refs[k])
    && (forall k | k in withRef.refs && k !in w.refs :: k.entityType == ConversationEntity)
    && existing == FindQuote(w.quotes, v, row.quoteSequence)
    && UpsertQuote(withRef, input, row, v, existing, ids.quote) == Ok((withQuote, quote))
    && withQuote == withRef.(quotes := withQuote.quotes)
    && PlanMessages(withQuote, input, row, v, contactId, messages, |messages|, ids, now) == Ok(planned)
    && (forall p | p in planned :: PlannedFor(input, v, contactId, p))
    && CreateMessages(withQuote, planned, |planned|) == Ok(withMessages)
    && SameButMessages(withQuote, withMessages)
    && ApplyDocuments(withMessages, input, row, v, quote, documents, |documents|, ids, now) == Ok(done)
    && SameButDocuments(withMessages, done.tables)
    && (forall k | k in withMessages.refs :: k in done.tables.refs && done.tables.refs[k] == withMessages.refs[k])
  }

  lemma ContentsSteps(
    w: Tables, input: ApplyInput, row: ConversationRow, messages: seq<MessageRow>, documents: seq<DocumentRow>, v: Id, contactId: Id,
    referenced: bool, ids: NewIds, now: Instant, b: Tables)
    returns (existing: Option<Id>, quote: Option<Id>, planned: seq<PlannedMessage>, withRef: Tables, withQuote: Tables, withMessages: Tables, done: DocumentsCreated)
    requires WellFormed(w) && v in w.conversations && contactId in w.contacts
    requires var c := ApplyContents(w, input, row, messages, documents, v, contactId, referenced, ids, now); c.Ok? && c.value.0 == b
    ensures ContentsPass(w, input, row, messages, documents, v, contactId, ids, now, existing, quote, planned, withRef, withQuote, withMessages, done)
    ensures b == done.tables
  {
    var key := RefKey(ConversationEntity, row.sourceSystem, row.externalConversationId);
    var ref := ExternalRef(ids.conversationRef, input.batchId, v, None);
    withRef := if referenced then w else InsertRef(w, key, ref).value;
    if !referenced {
      InsertRefKeeps(w, key, ref);
    }
    existing := FindQuote(withRef.quotes, v, row.quoteSequence);
    QuoteStep(withRef, input, row, v, existing, ids.quote);
    var upserted := UpsertQuote(withRef, input, row, v, existing, ids.quote).value;
    withQuote, quote := upserted.0, upserted.1;
    PlanEffect(withQuote, input, row, v, contactId, messages, |messages|, ids, now);
    planned := PlanMessages(withQuote, input, row, v, contactId, messages, |messages|, ids, now).value;
    CreateEffect(withQuote, input, v, contactId, planned, |planned|);
    withMessages := CreateMessages(withQuote, planned, |planned|).value;
    DocumentsEffect(withMessages, input, row, v, quote, documents, |documents|, ids, now);
    done := ApplyDocuments(withMessages, input, row, v, quote, documents, |documents|, ids, now).value;
  }

  lemma ContentsStore(
    w: Tables, input: ApplyInput, row: ConversationRow, messages: seq<MessageRow>, documents: seq<DocumentRow>, v: Id, contactId: Id,
    referenced: bool, ids: NewIds, now: Instant, b: Tables)
    requires WellFormed(w) && v in w.conversations && contactId in w.contacts
    requires var c := ApplyContents(w, input, row, messages, documents, v, contactId, referenced, ids, now); c.Ok? && c.value.0 == b
    ensures AllWritten(w, b, row, messages, v)
  {
    var existing, quote, planned, withRef, withQuote, withMessages, done :=
      ContentsSteps(w, input, row, messages, documents, v, contactId, referenced, ids, now, b);
    PlanCovers(withQuote, input, row, v, contactId, messages, |messages|, ids, now);
    CreateStores(withQuote, planned, |planned|);
    StoredAfterCreate(withQuote, withMessages, row, messages, v, planned);
    AllWrittenLater(w, withQuote, withMessages, b, row, messages, v);
  }

  /** Other references do not matter, and nothing that is written is taken away. */
  lemma AllWrittenLater(w: Tables, a: Tables, b: Tables, c: Tables, row: ConversationRow, messages: seq<MessageRow>, v: Id)
    requires AllWritten(a, b, row, messages, v) && Keeps(b, c)
    requires forall k | k in a.refs && k !in w.refs :: k.entityType == ConversationEntity
    ensures AllWritten(w, c, row, messages, v)
  {
    forall m | m in messages
      ensures MessageWritten(w, c, row, m, v)
    {
      assert MessageWritten(a, b, row, m, v);
    }
  }

  lemma StoredAfterCreate(
    a: Tables, b: Tables, row: ConversationRow, messages: seq<MessageRow>, conversationId: Id, planned: seq<PlannedMessage>)
    requires Keeps(a, b)
    requires forall j | 0 <= j < |planned| :: PlanStored(b, planned[j])
    requires forall j | 0 <= j < |messages| ::
               Covered(a, row, messages[j], conversationId, planned)
    ensures AllWritten(a, b, row, messages, conversationId)
  {
    forall j | 0 <= j < |messages|
      ensures MessageWritten(a, b, row, messages[j], conversationId)
    {
      if MessageKey(row, messages[j]) !in a.refs {
        var p :| p in planned && PlansFor(row, messages[j], conversationId, p);
        assert PlanStored(b, p);
      }
    }
  }

  lemma ApplyToIs(
    t: Tables, withContact: Tables, input: ApplyInput, row: ConversationRow, messages: seq<MessageRow>, documents: seq<DocumentRow>,
    existingContact: Option<Id>, contactId: Id, existing: Option<Id>, newRow: Conversation, referenced: bool, ids: NewIds, now: Instant, b: Tables)
    requires existingContact.Some? ==> contactId in t.contacts
    requires existing.Some? ==> existing.value in t.conversations
    requires ApplyTo(t, withContact, input, row, messages, documents, existingContact, contactId, existing, newRow, referenced, ids, now) == Ok(b)
    ensures var v := if existing.Some? then existing.value else ids.conversation;
            var c := ApplyContents(withContact.(conversations := t.conversations[v := newRow]), input, row, messages, documents, v, contactId,
                                   referenced, ids, now);
            && (existing.None? ==> v !in t.conversations)
            && c.Ok? && b == c.value.0.(records := b.records)
            && |b.records| == |t.records| + 1 && b.records[|t.records|].conversationId == v
  {
  }

  /** The conversation that is decided on can be written. */
  lemma DecisionWrites(t: Tables, input: ApplyInput, row: ConversationRow, messages: seq<MessageRow>, newContact: Id, d: Decision, v: Id, newRow: Conversation)
    requires WellFormed(t) && Decide(t, input, row, newContact) == Ok(d)
    requires if d.existing.Some? then v == d.existing.value else v !in t.conversations
    requires newRow == ConversationData(input, row, messages, d.contactId, d.owner, if d.existing.Some? then Some(t.conversations[v]) else None)
    ensures var w := d.withContact.(conversations := t.conversations[v := newRow]);
            WellFormed(w) && d.contactId in w.contacts && w == t.(contacts := w.contacts, conversations := w.conversations)
  {
    DecisionHolds(t, input, row, newContact, d);
    ConversationDataFacts(input, row, messages, d.contactId, d.owner, if d.existing.Some? then Some(t.conversations[v]) else None);
    SetConversationKeeps(d.withContact, v, newRow);
  }

  /**
    The transaction as one step: `w` is the tables with the contact and the conversation
    `v` written, then come the contents, then the record.
   */
  lemma ApplyIs(
    t: Tables, input: ApplyInput, row: ConversationRow, messages: seq<MessageRow>, documents: seq<DocumentRow>, ids: NewIds, now: Instant, b: Tables)
    returns (w: Tables, v: Id, contactId: Id, referenced: bool, owner: Option<Id>)
    requires WellFormed(t) && ApplyConversation(t, input, row, messages, documents, ids, now) == Ok(b)
    ensures WellFormed(w) && v in w.conversations && contactId in w.contacts
    ensures w == t.(contacts := w.contacts, conversations := w.conversations)
    ensures w.conversations[v]
         == ConversationData(input, row, messages, contactId, owner, if v in t.conversations then Some(t.conversations[v]) else None)
    ensures var c := ApplyContents(w, input, row, messages, documents, v, contactId, referenced, ids, now);
            c.Ok? && b == c.value.0.(records := b.records)
    ensures |b.records| == |t.records| + 1 && b.records[|t.records|].conversationId == v
  {
    var d := Decide(t, input, row, ids.contact).value;
    contactId, owner, referenced := d.contactId, d.owner, d.referenced;
    v := if d.existing.Some? then d.existing.value else ids.conversation;
    var newRow := ConversationData(input, row, messages, contactId, owner, if d.existing.Some? then Some(t.conversations[v]) else None);
    ApplyToIs(t, d.withContact, input, row, messages, documents, d.existingContact, contactId, d.existing, newRow, referenced, ids, now, b);
    DecisionWrites(t, input, row, messages, ids.contact, d, v, newRow);
    w := d.withContact.(conversations := t.conversations[v := newRow]);
  }

  /** A committed row leaves all its messages stored in the conversation of its record, the new ones as the row has them. */
  lemma ApplyStores(
    t: Tables, input: ApplyInput, row: ConversationRow, messages: seq<MessageRow>, documents: seq<DocumentRow>, ids: NewIds, now: Instant)
    requires WellFormed(t)
    requires ApplyConversation(t, input, row, messages, documents, ids, now).Ok?
    ensures var b := ApplyConversation(t, input, row, messages, documents, ids, now).value;
            |b.records| == |t.records| + 1 && AllWritten(t, b, row, messages, b.records[|t.records|].conversationId)
  {
    var b := ApplyConversation(t, input, row, messages, documents, ids, now).value;
    var w, v, contactId, referenced, owner := ApplyIs(t, input, row, messages, documents, ids, now, b);
    var c := ApplyContents(w, input, row, messages, documents, v, contactId, referenced, ids, now).value.0;
    ContentsStore(w, input, row, messages, documents, v, contactId, referenced, ids, now, c);
    AllWrittenSame(w, c, t, b, row, messages, v);
  }

  /** Being written depends on references and messages alone. */
  lemma AllWrittenSame(a: Tables, b: Tables, c: Tables, d: Tables, row: ConversationRow, messages: seq<MessageRow>, v: Id)
    requires AllWritten(a, b, row, messages, v) && c.refs == a.refs && d.refs == b.refs && d.messages == b.messages
    ensures AllWritten(c, d, row, messages, v)
  {
    forall m | m in messages
      ensures MessageWritten(c, d, row, m, v)
    {
      assert MessageWritten(a, b, row, m, v);
    }
  }
}
