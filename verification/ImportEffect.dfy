/**
  What a committed import transaction may have changed: one contact, one
  conversation and at most one quote, plus new messages, documents and external
  references, all of them named by the record that the commit appends.
 */
module ImportEffect {
  import opened Wrappers
  import opened ImportTables
  import opened ImportApply

  // ---- Shapes of change ------------------------------------------------------

  /** `b` is `a` with exactly the new keys `keys` added. */
  ghost predicate Added<K, V>(a: map<K, V>, b: map<K, V>, keys: set<K>) {
    a.Keys !! keys && b.Keys == a.Keys + keys && forall k | k in a :: b[k] == a[k]
  }

  /** `b` is `a` except for what it holds at `key`. */
  ghost predicate OnlyAt<K, V>(a: map<K, V>, b: map<K, V>, key: K) {
    b.Keys == a.Keys + {key} && forall k | k in a && k != key :: b[k] == a[k]
  }

  /** `b` is `a` with new references added whose ids are in `ids`, none of which `a` uses. */
  ghost predicate RefsAdded(a: map<RefKey, ExternalRef>, b: map<RefKey, ExternalRef>, ids: seq<Id>) {
    && (forall k | k in a :: k in b && b[k] == a[k] && a[k].id !in ids)
    && (forall k | k in b && k !in a :: b[k].id in ids)
  }

  function IdSet(ids: seq<Id>): set<Id> {
    set i | 0 <= i < |ids| :: ids[i]
  }

  /** The quote that a record touched, created or updated. */
  function QuoteTouched(r: Record): Option<Id> {
    if r.created.quoteRequestId.Some? then r.created.quoteRequestId
    else if r.before.quoteRequest.Some? then Some(r.before.quoteRequest.value.id)
    else None
  }

  /** What a commit did to its contact: the row in `a` became the row in `b`. */
  ghost predicate ContactAt(a: map<Id, Contact>, b: map<Id, Contact>, r: Record) {
    var c := r.contactId;
    && c in b
    && (if r.created.contactId.Some?
        then r.created.contactId == Some(c) && c !in a && r.created.conversationId.Some? && r.before.contact.None?
        else c in a && r.before.contact == Some(SelectContact(c, a[c])) && b[c] == a[c].(displayName := b[c].displayName))
  }

  ghost predicate ConversationAt(a: map<Id, Conversation>, b: map<Id, Conversation>, r: Record, channelId: Id) {
    var v := r.conversationId;
    && v in b
    && b[v].contactId == r.contactId
    && b[v].channelId == channelId
    && r.after.conversation == Some(SelectConversation(v, b[v]))
    && (if r.created.conversationId.Some?
        then r.created.conversationId == Some(v) && v !in a && r.before.conversation.None?
        else && v in a
             && SameLinks(a[v], b[v])
             && b[v].version == a[v].version + 1
             && r.before.conversation == Some(SelectConversation(v, a[v])))
  }

  /** The quote that a commit touched, in `q`. */
  ghost predicate QuoteAt(a: map<Id, Quote>, b: map<Id, Quote>, r: Record, q: Id) {
    && q in b
    && b[q].conversationId == r.conversationId
    && Restorable(b[q])
    && (if r.created.quoteRequestId.Some? then q !in a
        else q in a && SameQuoteKey(a[q], b[q]) && r.before.quoteRequest == Some(SelectQuote(q, a[q])))
  }

  ghost predicate QuoteEffect(a: map<Id, Quote>, b: map<Id, Quote>, r: Record) {
    match QuoteTouched(r)
    case None => a == b
    case Some(q) => OnlyAt(a, b, q) && QuoteAt(a, b, r, q)
  }

  ghost predicate MessageEffect(a: map<Id, Message>, b: map<Id, Message>, r: Record) {
    && Added(a, b, IdSet(r.created.messageIds))
    && forall m | m in b && m !in a :: b[m].conversationId == r.conversationId && b[m].contactId == r.contactId
  }

  ghost predicate DocumentEffect(a: map<Id, Document>, b: map<Id, Document>, r: Record) {
    && Added(a, b, IdSet(r.created.documentIds))
    && forall d | d in b && d !in a :: b[d].conversationId == r.conversationId && QuoteTouched(r) == Some(b[d].quoteRequestId)
  }

  /** Everything that the commit recorded by `r` may have done to the tables. */
  ghost predicate Effect(a: Tables, b: Tables, r: Record, input: ApplyInput) {
    && OnlyAt(a.contacts, b.contacts, r.contactId)
    && ContactAt(a.contacts, b.contacts, r)
    && OnlyAt(a.conversations, b.conversations, r.conversationId)
    && ConversationAt(a.conversations, b.conversations, r, input.channelId)
    && QuoteEffect(a.quotes, b.quotes, r)
    && MessageEffect(a.messages, b.messages, r)
    && DocumentEffect(a.documents, b.documents, r)
    && RefsAdded(a.refs, b.refs, r.created.externalRefIds)
    && a.transitions == b.transitions
    && b.records == a.records + [r]
    && r.status == Applied && r.batchId == input.batchId
    && !RecordConflict(a.records, r)
    && AfterLoaded(b, r)
  }

  /** The after-snapshot is what a later load by the record's own keys would read right after the commit. */
  ghost predicate AfterLoaded(b: Tables, r: Record) {
    && r.after == LoadSnapshot(b, r.contactId, r.conversationId, QuoteSequenceOf(r.after))
    && (r.after.quoteRequest.Some? ==> QuoteTouched(r) == Some(r.after.quoteRequest.value.id))
  }

  // ---- Messages --------------------------------------------------------------

  ghost predicate PlannedFor(input: ApplyInput, conversationId: Id, contactId: Id, p: PlannedMessage) {
    && p.message.conversationId == conversationId && p.message.contactId == contactId
    && p.ref.internalId == p.id && p.key.entityType == MessageEntity
  }

  lemma {:induction false} PlanEffect(
    t: Tables, input: ApplyInput, row: ConversationRow, conversationId: Id, contactId: Id,
    messages: seq<MessageRow>, n: nat, ids: NewIds, now: Instant)
    requires n <= |messages|
    requires PlanMessages(t, input, row, conversationId, contactId, messages, n, ids, now).Ok?
    ensures forall p | p in PlanMessages(t, input, row, conversationId, contactId, messages, n, ids, now).value ::
              PlannedFor(input, conversationId, contactId, p)
  {
    if n > 0 {
      PlanEffect(t, input, row, conversationId, contactId, messages, n - 1, ids, now);
    }
  }

  /** Unchanged tables other than those that message creation writes. */
  ghost predicate SameButMessages(a: Tables, b: Tables) {
    && a.contacts == b.contacts && a.conversations == b.conversations && a.quotes == b.quotes
    && a.documents == b.documents && a.transitions == b.transitions && a.records == b.records
  }

  lemma {:induction false} CreateEffect(t: Tables, input: ApplyInput, conversationId: Id, contactId: Id, planned: seq<PlannedMessage>, n: nat)
    requires n <= |planned|
    requires WellFormed(t) && conversationId in t.conversations && contactId in t.contacts
    requires forall p | p in planned :: PlannedFor(input, conversationId, contactId, p)
    requires CreateMessages(t, planned, n).Ok?
    ensures var b := CreateMessages(t, planned, n).value;
            && WellFormed(b)
            && SameButMessages(t, b)
            && Added(t.messages, b.messages, IdSet(MessageIds(planned[..n])))
            && (forall m | m in b.messages && m !in t.messages ::
                  b.messages[m].conversationId == conversationId && b.messages[m].contactId == contactId)
            && RefsAdded(t.refs, b.refs, RefIds(planned[..n]))
  {
    if n == 0 {
      assert IdSet(MessageIds(planned[..0])) == {};
    } else {
      CreateEffect(t, input, conversationId, contactId, planned, n - 1);
      var done := CreateMessages(t, planned, n - 1).value;
      var p := planned[n - 1];
      assert p in planned;
      assert planned[..n] == planned[..n - 1] + [p];
      SplitIds(planned[..n - 1], p);
      InsertMessageKeeps(done, p, conversationId, contactId);
      AddedChain(t.messages, done.messages, done.messages[p.id := p.message], IdSet(MessageIds(planned[..n - 1])), p.id);
      RefsAddedChain(t.refs, done.refs, done.refs[p.key := p.ref], RefIds(planned[..n - 1]), [p.ref.id]);
    }
  }

  lemma InsertMessageKeeps(t: Tables, p: PlannedMessage, conversationId: Id, contactId: Id)
    requires WellFormed(t) && conversationId in t.conversations && contactId in t.contacts
    requires p.message.conversationId == conversationId && p.message.contactId == contactId
    requires !MessageConflict(t.messages, p)
    requires InsertRef(t.(messages := t.messages[p.id := p.message]), p.key, p.ref).Ok?
    ensures WellFormed(t.(messages := t.messages[p.id := p.message], refs := t.refs[p.key := p.ref]))
    ensures p.id !in t.messages
    ensures RefsAdded(t.refs, t.refs[p.key := p.ref], [p.ref.id])
  {
    assert UniqueCorrelations(t.messages[p.id := p.message]);
    InsertRefKeeps(t.(messages := t.messages[p.id := p.message]), p.key, p.ref);
  }

  lemma InsertRefKeeps(t: Tables, key: RefKey, ref: ExternalRef)
    requires UniqueRefIds(t.refs)
    requires InsertRef(t, key, ref).Ok?
    ensures InsertRef(t, key, ref).value == t.(refs := t.refs[key := ref])
    ensures UniqueRefIds(t.refs[key := ref])
    ensures RefsAdded(t.refs, t.refs[key := ref], [ref.id])
  {
    assert forall k | k in t.refs :: t.refs[k].id != ref.id;
  }

  lemma AddedChain<V>(a: map<Id, V>, b: map<Id, V>, c: map<Id, V>, keys: set<Id>, k: Id)
    requires Added(a, b, keys)
    requires k !in b && k in c && c == b[k := c[k]]
    ensures Added(a, c, keys + {k})
  {
  }

  lemma SplitIds(front: seq<PlannedMessage>, p: PlannedMessage)
    ensures IdSet(MessageIds(front + [p])) == IdSet(MessageIds(front)) + {p.id}
    ensures RefIds(front + [p]) == RefIds(front) + [p.ref.id]
  {
    assert MessageIds(front + [p]) == MessageIds(front) + [p.id];
    IdSetSplit(MessageIds(front), p.id);
  }

  lemma IdSetSplit(front: seq<Id>, id: Id)
    ensures IdSet(front + [id]) == IdSet(front) + {id}
  {
    var whole := front + [id];
    forall x | x in IdSet(front) + {id}
      ensures x in IdSet(whole)
    {
      if x == id {
        assert whole[|front|] == x;
      } else {
        var i :| 0 <= i < |front| && front[i] == x;
        assert whole[i] == x;
      }
    }
  }

  // ---- Documents -------------------------------------------------------------

  ghost predicate SameButDocuments(a: Tables, b: Tables) {
    && a.contacts == b.contacts && a.conversations == b.conversations && a.quotes == b.quotes
    && a.messages == b.messages && a.transitions == b.transitions && a.records == b.records
  }

  lemma DocumentKeeps(
    done: DocumentsCreated, input: ApplyInput, row: ConversationRow, conversationId: Id, quote: Option<Id>,
    d: DocumentRow, id: Id, refId: Id, now: Instant)
    requires WellFormed(done.tables) && conversationId in done.tables.conversations
    requires ApplyDocument(done, input, row, conversationId, quote, d, id, refId, now).Ok?
    ensures var r := ApplyDocument(done, input, row, conversationId, quote, d, id, refId, now).value;
            r == done
            || (&& WellFormed(r.tables)
                && SameButDocuments(done.tables, r.tables)
                && r.documentIds == done.documentIds + [id] && r.refIds == done.refIds + [refId]
                && id !in done.tables.documents && id in r.tables.documents
                && r.tables.documents == done.tables.documents[id := r.tables.documents[id]]
                && r.tables.documents[id].conversationId == conversationId
                && quote == Some(r.tables.documents[id].quoteRequestId)
                && RefsAdded(done.tables.refs, r.tables.refs, [refId]))
  {
    var r := ApplyDocument(done, input, row, conversationId, quote, d, id, refId, now).value;
    if r != done {
      var document := r.tables.documents[id];
      var inserted := done.tables.(documents := done.tables.documents[id := document]);
      InsertRefKeeps(inserted, RefKey(DocumentEntity, row.sourceSystem, d.externalDocumentId),
                     ExternalRef(refId, input.batchId, id, Some(DocumentHash(row, d))));
    }
  }

  lemma {:induction false} DocumentsEffect(
    t: Tables, input: ApplyInput, row: ConversationRow, conversationId: Id, quote: Option<Id>,
    documents: seq<DocumentRow>, n: nat, ids: NewIds, now: Instant)
    requires n <= |documents|
    requires WellFormed(t) && conversationId in t.conversations
    requires ApplyDocuments(t, input, row, conversationId, quote, documents, n, ids, now).Ok?
    ensures var r := ApplyDocuments(t, input, row, conversationId, quote, documents, n, ids, now).value;
            && WellFormed(r.tables)
            && SameButDocuments(t, r.tables)
            && Added(t.documents, r.tables.documents, IdSet(r.documentIds))
            && (forall d | d in r.tables.documents && d !in t.documents ::
                  r.tables.documents[d].conversationId == conversationId && quote == Some(r.tables.documents[d].quoteRequestId))
            && RefsAdded(t.refs, r.tables.refs, r.refIds)
  {
    if n == 0 {
      assert IdSet([]) == {};
    } else {
      DocumentsEffect(t, input, row, conversationId, quote, documents, n - 1, ids, now);
      var done := ApplyDocuments(t, input, row, conversationId, quote, documents, n - 1, ids, now).value;
      var r := ApplyDocuments(t, input, row, conversationId, quote, documents, n, ids, now).value;
      DocumentKeeps(done, input, row, conversationId, quote, documents[n - 1], ids.document(n - 1), ids.documentRef(n - 1), now);
      if r != done {
        IdSetSplit(done.documentIds, ids.document(n - 1));
        AddedChain(t.documents, done.tables.documents, r.tables.documents, IdSet(done.documentIds), ids.document(n - 1));
        RefsAddedChain(t.refs, done.tables.refs, r.tables.refs, done.refIds, [ids.documentRef(n - 1)]);
      }
    }
  }

  // ---- Contents of one conversation --------------------------------------------

  ghost predicate ContentsEffect(a: Tables, b: Tables, conversationId: Id, contactId: Id, quote: Option<Id>, created: CreatedIds) {
    && a.contacts == b.contacts && a.conversations == b.conversations
    && a.transitions == b.transitions && a.records == b.records
    && Added(a.messages, b.messages, IdSet(created.messageIds))
    && (forall m | m in b.messages && m !in a.messages ::
          b.messages[m].conversationId == conversationId && b.messages[m].contactId == contactId)
    && Added(a.documents, b.documents, IdSet(created.documentIds))
    && (forall d | d in b.documents && d !in a.documents ::
          b.documents[d].conversationId == conversationId && (if quote.Some? then quote else created.quoteRequestId) == Some(b.documents[d].quoteRequestId))
    && RefsAdded(a.refs, b.refs, created.externalRefIds)
    && (if created.quoteRequestId.Some? then
          var q: Id := created.quoteRequestId.value;
          quote.None? && q !in a.quotes && OnlyAt(a.quotes, b.quotes, q) && b.quotes[q].conversationId == conversationId && Restorable(b.quotes[q])
        else if quote.Some? then
          && quote.value in a.quotes && OnlyAt(a.quotes, b.quotes, quote.value)
          && a.quotes[quote.value].conversationId == conversationId
          && SameQuoteKey(a.quotes[quote.value], b.quotes[quote.value]) && Restorable(b.quotes[quote.value])
        else a.quotes == b.quotes)
  }

  /** Writing one quote row, new or with its key kept, keeps the constraints. */
  lemma SetQuoteKeeps(t: Tables, q: Id, data: Quote)
    requires WellFormed(t) && data.conversationId in t.conversations
    requires if q in t.quotes then SameQuoteKey(t.quotes[q], data)
             else forall p | p in t.quotes :: !SameQuoteKey(t.quotes[p], data)
    ensures WellFormed(t.(quotes := t.quotes[q := data]))
    ensures OnlyAt(t.quotes, t.quotes[q := data], q)
  {
    assert UniqueSequences(t.quotes[q := data]);
    assert DocumentLinks(t.documents, t.conversations.Keys, t.quotes[q := data].Keys);
  }

  lemma QuoteDataFacts(input: ApplyInput, row: ConversationRow, conversationId: Id, sequence: int, existing: Option<Quote>)
    ensures var data := QuoteData(input, row, conversationId, sequence, existing);
            data.conversationId == conversationId && data.sequence == sequence && Restorable(data)
  {
    MultipleAtMidnight(input, row.departureAt);
    MultipleAtMidnight(input, row.returnAt);
  }

  /** `quote` is the quote that a sequence addresses; a missing or zero sequence addresses none. */
  predicate QuoteAddressed(quotes: map<Id, Quote>, conversationId: Id, sequence: Option<int>, quote: Option<Id>) {
    if sequence.Some? && sequence.value != 0
    then quote.Some? && quote.value in quotes && quotes[quote.value].conversationId == conversationId
         && quotes[quote.value].sequence == sequence.value
    else quote.None?
  }

  lemma AddressedIsFound(quotes: map<Id, Quote>, conversationId: Id, sequence: Option<int>, quote: Option<Id>)
    requires UniqueSequences(quotes) && QuoteAddressed(quotes, conversationId, sequence, quote)
    ensures FindQuote(quotes, conversationId, sequence) == quote
  {
    var found := FindQuote(quotes, conversationId, sequence);
    if found.Some? && quote.Some? {
      assert SameQuoteKey(quotes[found.value], quotes[quote.value]);
    }
  }

  /** What writing the quote of a row may do. */
  ghost predicate QuoteWritten(t: Tables, b: Tables, conversationId: Id, existing: Option<Id>, quote: Option<Id>) {
    && b == t.(quotes := b.quotes)
    && (existing.Some? ==> quote == existing)
    && (if quote.None? then b.quotes == t.quotes
        else
          && OnlyAt(t.quotes, b.quotes, quote.value)
          && b.quotes[quote.value].conversationId == conversationId
          && Restorable(b.quotes[quote.value])
          && (if existing.Some? then quote.value in t.quotes && SameQuoteKey(t.quotes[quote.value], b.quotes[quote.value])
              else quote.value !in t.quotes))
  }

  lemma QuoteStep(t: Tables, input: ApplyInput, row: ConversationRow, conversationId: Id, existing: Option<Id>, id: Id)
    requires WellFormed(t) && conversationId in t.conversations
    requires existing == FindQuote(t.quotes, conversationId, row.quoteSequence)
    requires UpsertQuote(t, input, row, conversationId, existing, id).Ok?
    ensures var w := UpsertQuote(t, input, row, conversationId, existing, id).value;
            && WellFormed(w.0) && QuoteWritten(t, w.0, conversationId, existing, w.1)
            && QuoteAddressed(w.0.quotes, conversationId, row.quoteSequence, w.1)
  {
    if row.quoteSequence.Some? && row.quoteSequence.value != 0 {
      var prior := if existing.Some? then Some(t.quotes[existing.value]) else None;
      var data := QuoteData(input, row, conversationId, row.quoteSequence.value, prior);
      var q := if existing.Some? then existing.value else id;
      assert UpsertQuote(t, input, row, conversationId, existing, id).value == (t.(quotes := t.quotes[q := data]), Some(q));
      QuoteDataFacts(input, row, conversationId, row.quoteSequence.value, prior);
      SetQuoteKeeps(t, q, data);
    }
  }

  lemma MultipleAtMidnight(input: ApplyInput, at: Option<Instant>)
    ensures AtMidnight(DateOnly(input, at))
  {
    if at.Some? {
      assert (input.businessDay(at.value) * DAY_MS) % DAY_MS == 0;
    }
  }

  lemma RefsAddedChain(a: map<RefKey, ExternalRef>, b: map<RefKey, ExternalRef>, c: map<RefKey, ExternalRef>, i: seq<Id>, j: seq<Id>)
    requires RefsAdded(a, b, i) && RefsAdded(b, c, j)
    ensures RefsAdded(a, c, i + j)
  {
  }

  /** The commit of a conversation's contents, in terms of the four states it passes through. */
  lemma ContentsChain(
    t: Tables, withRef: Tables, withQuote: Tables, withMessages: Tables, b: Tables, conversationId: Id, contactId: Id,
    existing: Option<Id>, quote: Option<Id>, refIds: seq<Id>, messageIds: seq<Id>, messageRefs: seq<Id>, documentIds: seq<Id>, documentRefs: seq<Id>)
    requires withRef == t.(refs := withRef.refs) && RefsAdded(t.refs, withRef.refs, refIds)
    requires QuoteWritten(withRef, withQuote, conversationId, existing, quote)
    requires SameButMessages(withQuote, withMessages) && Added(withQuote.messages, withMessages.messages, IdSet(messageIds))
    requires forall m | m in withMessages.messages && m !in withQuote.messages ::
               withMessages.messages[m].conversationId == conversationId && withMessages.messages[m].contactId == contactId
    requires RefsAdded(withQuote.refs, withMessages.refs, messageRefs)
    requires SameButDocuments(withMessages, b) && Added(withMessages.documents, b.documents, IdSet(documentIds))
    requires forall d | d in b.documents && d !in withMessages.documents ::
               b.documents[d].conversationId == conversationId && quote == Some(b.documents[d].quoteRequestId)
    requires RefsAdded(withMessages.refs, b.refs, documentRefs)
    requires existing.Some? ==> existing.value in t.quotes && t.quotes[existing.value].conversationId == conversationId
    ensures ContentsEffect(t, b, conversationId, contactId, existing,
                           CreatedIds(None, None, if existing.None? then quote else None, messageIds, documentIds,
                                      refIds + messageRefs + documentRefs))
  {
    RefsAddedChain(t.refs, withQuote.refs, withMessages.refs, refIds, messageRefs);
    RefsAddedChain(t.refs, withMessages.refs, b.refs, refIds + messageRefs, documentRefs);
  }

  lemma ContentsCommit(
    t: Tables, input: ApplyInput, row: ConversationRow, messages: seq<MessageRow>, documents: seq<DocumentRow>,
    conversationId: Id, contactId: Id, referenced: bool, ids: NewIds, now: Instant)
    requires WellFormed(t) && conversationId in t.conversations && contactId in t.contacts
    requires ApplyContents(t, input, row, messages, documents, conversationId, contactId, referenced, ids, now).Ok?
    ensures var c := ApplyContents(t, input, row, messages, documents, conversationId, contactId, referenced, ids, now).value;
            && WellFormed(c.0)
            && ContentsEffect(t, c.0, conversationId, contactId, c.1, c.2)
            && c.1 == FindQuote(t.quotes, conversationId, row.quoteSequence)
            && QuoteAddressed(c.0.quotes, conversationId, row.quoteSequence, if c.1.Some? then c.1 else c.2.quoteRequestId)
            && c.2.contactId.None? && c.2.conversationId.None?
  {
    var conversationKey := RefKey(ConversationEntity, row.sourceSystem, row.externalConversationId);
    var conversationRef := ExternalRef(ids.conversationRef, input.batchId, conversationId, None);
    var withRef := if referenced then t else InsertRef(t, conversationKey, conversationRef).value;
    var refIds := if referenced then [] else [ids.conversationRef];
    assert WellFormed(withRef) && RefsAdded(t.refs, withRef.refs, refIds) by {
      if !referenced {
        InsertRefKeeps(t, conversationKey, conversationRef);
      }
    }
    var existing := FindQuote(withRef.quotes, conversationId, row.quoteSequence);
    QuoteStep(withRef, input, row, conversationId, existing, ids.quote);
    var (withQuote, quote) := UpsertQuote(withRef, input, row, conversationId, existing, ids.quote).value;
    PlanEffect(withQuote, input, row, conversationId, contactId, messages, |messages|, ids, now);
    var planned := PlanMessages(withQuote, input, row, conversationId, contactId, messages, |messages|, ids, now).value;
    CreateEffect(withQuote, input, conversationId, contactId, planned, |planned|);
    assert planned[..|planned|] == planned;
    var withMessages := CreateMessages(withQuote, planned, |planned|).value;
    DocumentsEffect(withMessages, input, row, conversationId, quote, documents, |documents|, ids, now);
    var d := ApplyDocuments(withMessages, input, row, conversationId, quote, documents, |documents|, ids, now).value;
    ContentsChain(t, withRef, withQuote, withMessages, d.tables, conversationId, contactId, existing, quote,
                  refIds, MessageIds(planned), RefIds(planned), d.documentIds, d.refIds);
  }

  // ---- The transaction -----------------------------------------------------------

  ghost predicate ContactWritten(t: Tables, b: Tables, existing: Option<Id>, c: Id) {
    && b == t.(contacts := b.contacts)
    && OnlyAt(t.contacts, b.contacts, c)
    && (if existing.Some?
        then existing.value == c && c in t.contacts && b.contacts[c] == t.contacts[c].(displayName := b.contacts[c].displayName)
        else c !in t.contacts)
  }

  lemma ContactStep(t: Tables, input: ApplyInput, row: ConversationRow, existing: Option<Id>, referenced: bool, id: Id)
    requires WellFormed(t) && existing == FindContact(t.contacts, row.phone)
    requires UpsertContact(t, input, row, existing, referenced, id).Ok?
    ensures var w := UpsertContact(t, input, row, existing, referenced, id).value;
            WellFormed(w.0) && ContactWritten(t, w.0, existing, w.1)
  {
    var w := UpsertContact(t, input, row, existing, referenced, id).value;
    assert UniquePhones(w.0.contacts);
    assert ConversationLinks(t.conversations, w.0.contacts.Keys);
    assert MessageLinks(t.messages, t.conversations.Keys, w.0.contacts.Keys);
  }

  lemma ConversationDataFacts(
    input: ApplyInput, row: ConversationRow, messages: seq<MessageRow>, contact: Id, owner: Option<Id>, existing: Option<Conversation>)
    ensures var data := ConversationData(input, row, messages, contact, owner, existing);
            if existing.Some? then SameLinks(existing.value, data) && data.version == existing.value.version + 1
            else data.channelId == input.channelId && data.contactId == contact && data.version == 1
  {
  }

  /** Writing one conversation row, new or with its links kept, keeps the constraints. */
  lemma SetConversationKeeps(t: Tables, v: Id, data: Conversation)
    requires WellFormed(t) && data.contactId in t.contacts
    requires if v in t.conversations then SameLinks(t.conversations[v], data)
             else forall w | w in t.conversations :: !SameLinks(t.conversations[w], data)
    ensures WellFormed(t.(conversations := t.conversations[v := data]))
    ensures OnlyAt(t.conversations, t.conversations[v := data], v)
  {
    var b := t.conversations[v := data];
    assert UniqueLinks(b);
    assert t.conversations.Keys <= b.Keys;
    assert QuoteLinks(t.quotes, b.Keys);
    assert MessageLinks(t.messages, b.Keys, t.contacts.Keys);
    assert DocumentLinks(t.documents, b.Keys, t.quotes.Keys);
    assert TransitionLinks(t.transitions, b.Keys);
  }

  /** The rows that the record of a commit describes are the rows that the commit wrote. */
  lemma EffectRows(
    t: Tables, withContact: Tables, withConversation: Tables, done: Tables, input: ApplyInput, row: ConversationRow,
    existingContact: Option<Id>, contactId: Id, existing: Option<Id>, conversationId: Id, existingQuote: Option<Id>,
    contents: CreatedIds, id: Id, now: Instant, r: Record)
    requires ContactWritten(t, withContact, existingContact, contactId)
    requires withConversation == withContact.(conversations := withConversation.conversations)
    requires ConversationWritten(t.conversations, withConversation.conversations, existing, conversationId, input.channelId, contactId)
    requires existingContact.None? ==> existing.None?
    requires ContentsEffect(withConversation, done, conversationId, contactId, existingQuote, contents)
    requires r == RecordOf(t, done, input, row, existingContact, contactId, existing, conversationId, existingQuote, contents, id, now)
    ensures ContactAt(t.contacts, done.contacts, r) && ConversationAt(t.conversations, done.conversations, r, input.channelId)
    ensures QuoteEffect(t.quotes, done.quotes, r)
    ensures MessageEffect(t.messages, done.messages, r) && DocumentEffect(t.documents, done.documents, r)
  {
  }

  /** The after-snapshot of the record is found again by the record's own keys. */
  lemma EffectLoaded(done: Tables, row: ConversationRow, r: Record)
    requires UniqueSequences(done.quotes) && QuoteAddressed(done.quotes, r.conversationId, row.quoteSequence, QuoteTouched(r))
    requires r.after == LoadSnapshot(done, r.contactId, r.conversationId, row.quoteSequence)
    requires QuoteTouched(r).Some? ==> QuoteTouched(r).value in done.quotes && done.quotes[QuoteTouched(r).value].conversationId == r.conversationId
    ensures AfterLoaded(done, r)
  {
    AddressedIsFound(done.quotes, r.conversationId, row.quoteSequence, QuoteTouched(r));
    if QuoteTouched(r).Some? {
      AddressedIsFound(done.quotes, r.conversationId, Some(done.quotes[QuoteTouched(r).value].sequence), QuoteTouched(r));
    }
  }

  /** The commit in terms of its three states, and the record written at its end. */
  lemma EffectChain(
    t: Tables, withContact: Tables, withConversation: Tables, done: Tables, input: ApplyInput, row: ConversationRow,
    existingContact: Option<Id>, contactId: Id, existing: Option<Id>, conversationId: Id, existingQuote: Option<Id>,
    contents: CreatedIds, id: Id, now: Instant)
    requires ContactWritten(t, withContact, existingContact, contactId)
    requires withConversation == withContact.(conversations := withConversation.conversations)
    requires ConversationWritten(t.conversations, withConversation.conversations, existing, conversationId, input.channelId, contactId)
    requires existingContact.None? ==> existing.None?
    requires ContentsEffect(withConversation, done, conversationId, contactId, existingQuote, contents)
    requires UniqueSequences(done.quotes)
    requires QuoteAddressed(done.quotes, conversationId, row.quoteSequence,
                            if existingQuote.Some? then existingQuote else contents.quoteRequestId)
    ensures var r := RecordOf(t, done, input, row, existingContact, contactId, existing, conversationId, existingQuote, contents, id, now);
            !RecordConflict(t.records, r) ==> Effect(t, done.(records := t.records + [r]), r, input)
  {
    var r := RecordOf(t, done, input, row, existingContact, contactId, existing, conversationId, existingQuote, contents, id, now);
    EffectRows(t, withContact, withConversation, done, input, row, existingContact, contactId, existing, conversationId, existingQuote,
               contents, id, now, r);
    EffectLoaded(done, row, r);
    LoadedKept(done, t.records + [r], r);
  }

  /** Loading does not look at the records. */
  lemma LoadedKept(done: Tables, records: seq<Record>, r: Record)
    requires AfterLoaded(done, r)
    ensures AfterLoaded(done.(records := records), r)
  {
  }

  ghost predicate ConversationWritten(
    a: map<Id, Conversation>, b: map<Id, Conversation>, existing: Option<Id>, v: Id, channelId: Id, contactId: Id)
  {
    && OnlyAt(a, b, v)
    && b[v].channelId == channelId && b[v].contactId == contactId
    && (if existing.Some? then existing.value == v && v in a && SameLinks(a[v], b[v]) && b[v].version == a[v].version + 1
        else v !in a)
  }

  lemma ApplyToEffect(
    t: Tables, withContact: Tables, input: ApplyInput, row: ConversationRow, messages: seq<MessageRow>, documents: seq<DocumentRow>,
    existingContact: Option<Id>, contactId: Id, existing: Option<Id>, newRow: Conversation, referenced: bool, ids: NewIds, now: Instant)
    requires WellFormed(t) && WellFormed(withContact)
    requires ContactWritten(t, withContact, existingContact, contactId)
    requires newRow.channelId == input.channelId && newRow.contactId == contactId
    requires if existing.Some?
             then && existing.value in t.conversations && SameLinks(t.conversations[existing.value], newRow)
                  && newRow.version == t.conversations[existing.value].version + 1
             else forall w | w in t.conversations :: !SameLinks(t.conversations[w], newRow)
    requires ApplyTo(t, withContact, input, row, messages, documents, existingContact, contactId, existing, newRow, referenced, ids, now).Ok?
    ensures var b := ApplyTo(t, withContact, input, row, messages, documents, existingContact, contactId, existing, newRow, referenced, ids, now).value;
            && WellFormed(b)
            && |b.records| == |t.records| + 1
            && Effect(t, b, b.records[|t.records|], input)
            && SameRecordKey(b.records[|t.records|], input.batchId, row.sourceSystem, row.externalConversationId)
  {
    var conversationId := if existing.Some? then existing.value else ids.conversation;
    SetConversationKeeps(withContact, conversationId, newRow);
    var withConversation := withContact.(conversations := t.conversations[conversationId := newRow]);
    ContentsCommit(withConversation, input, row, messages, documents, conversationId, contactId, referenced, ids, now);
    var contents := ApplyContents(withConversation, input, row, messages, documents, conversationId, contactId, referenced, ids, now).value;
    EffectChain(t, withContact, withConversation, contents.0, input, row, existingContact, contactId, existing, conversationId,
                contents.1, contents.2, ids.record, now);
  }

  /** What a decision lets be written: a contact, and a conversation of that contact, the existing one or one that is new. */
  lemma DecisionHolds(t: Tables, input: ApplyInput, row: ConversationRow, newContact: Id, d: Decision)
    requires WellFormed(t) && Decide(t, input, row, newContact) == Ok(d)
    ensures WellFormed(d.withContact) && ContactWritten(t, d.withContact, d.existingContact, d.contactId)
    ensures d.existing.Some? ==>
              t.conversations[d.existing.value].channelId == input.channelId && t.conversations[d.existing.value].contactId == d.contactId
    ensures d.existing.None? ==>
              forall v | v in t.conversations :: !(t.conversations[v].channelId == input.channelId && t.conversations[v].contactId == d.contactId)
  {
    var conversationKey := RefKey(ConversationEntity, row.sourceSystem, row.externalConversationId);
    var reference := if conversationKey in t.refs then Some(t.refs[conversationKey]) else None;
    ContactStep(t, input, row, d.existingContact, reference.Some?, newContact);
    if d.existing.None? {
      NewConversationUnique(d.withContact, input, row, reference, d.contactId);
    }
  }

  /** Every commit has the effect its record describes, and keeps the schema's constraints. */
  lemma ApplyEffect(
    t: Tables, input: ApplyInput, row: ConversationRow, messages: seq<MessageRow>, documents: seq<DocumentRow>, ids: NewIds, now: Instant)
    requires WellFormed(t)
    requires ApplyConversation(t, input, row, messages, documents, ids, now).Ok?
    ensures var b := ApplyConversation(t, input, row, messages, documents, ids, now).value;
            && WellFormed(b)
            && |b.records| == |t.records| + 1
            && Effect(t, b, b.records[|t.records|], input)
            && SameRecordKey(b.records[|t.records|], input.batchId, row.sourceSystem, row.externalConversationId)
  {
    var d := Decide(t, input, row, ids.contact).value;
    DecisionHolds(t, input, row, ids.contact, d);
    var oldRow := if d.existing.Some? then Some(t.conversations[d.existing.value]) else None;
    var newRow := ConversationData(input, row, messages, d.contactId, d.owner, oldRow);
    ConversationDataFacts(input, row, messages, d.contactId, d.owner, oldRow);
    ApplyToEffect(t, d.withContact, input, row, messages, documents, d.existingContact, d.contactId, d.existing, newRow, d.referenced, ids, now);
  }

  /** When no conversation is updated, none exists yet for the contact and channel. */
  lemma NewConversationUnique(t: Tables, input: ApplyInput, row: ConversationRow, reference: Option<ExternalRef>, contact: Id)
    requires TargetConversation(t, input, row, reference, contact) == Ok(None)
    ensures forall v | v in t.conversations :: !(t.conversations[v].channelId == input.channelId && t.conversations[v].contactId == contact)
  {
  }
}
