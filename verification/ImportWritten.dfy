/** A committed row stands in the tables as the package has it: its conversation, its quote and its documents. */
module ImportWritten {
  import opened Wrappers
  import opened ImportTables
  import opened ImportApply
  import opened ImportStored

  // ---- The conversation ----------------------------------------------------------

  /** When a direction was last heard of: the last such message of the row, or else what was known before. */
  predicate LastHeard(at: Option<Instant>, messages: seq<MessageRow>, direction: string, earlier: Option<Instant>) {
    if exists j :: 0 <= j < |messages| && messages[j].direction == direction
    then exists j :: 0 <= j < |messages| && messages[j].direction == direction && at == Some(messages[j].occurredAt)
                     && forall k | j < k < |messages| :: messages[k].direction != direction
    else at == earlier
  }

  lemma {:induction false} LastOccurredIs(messages: seq<MessageRow>, direction: string, earlier: Option<Instant>)
    ensures LastHeard(LastOccurred(messages, direction).Or(earlier), messages, direction, earlier)
  {
    if messages != [] {
      var last, front := messages[|messages| - 1], messages[..|messages| - 1];
      LastOccurredIs(front, direction, earlier);
      if last.direction != direction && exists j :: 0 <= j < |front| && front[j].direction == direction {
        var j :| 0 <= j < |front| && front[j].direction == direction
                 && LastOccurred(front, direction).Or(earlier) == Some(front[j].occurredAt)
                 && forall k | j < k < |front| :: front[k].direction != direction;
        assert messages[j] == front[j];
        assert forall k | j < k < |messages| :: messages[k].direction != direction;
      }
    }
  }

  /** Nothing is left to resume, the version goes up, and a menu counts as not presented when the row stands at it. */
  predicate ConversationSays(stored: Conversation, earlier: Option<Conversation>, row: ConversationRow, messages: seq<MessageRow>) {
    var known := if earlier.Some? then earlier.value.(version := earlier.value.version + 1)
                 else stored.(version := 1, lastInboundAt := None, lastOutboundAt := None);
    && stored.department == row.department && stored.conversationState == row.conversationState
    && stored.flowStep == row.flowStep && stored.requestStatus == row.requestStatus
    && stored.resumeState.None? && stored.resumeFlowStep.None?
    && stored.unreadCount == row.unreadCount && stored.version == known.version
    && (row.flowStep == "main-menu" ==> stored.mainMenuPresentedAt.None?)
    && (row.flowStep == "commercial-follow-up-menu" ==> stored.followUpMenuPresentedAt.None?)
    && LastHeard(stored.lastInboundAt, messages, "inbound", known.lastInboundAt)
    && LastHeard(stored.lastOutboundAt, messages, "outbound", known.lastOutboundAt)
    && stored.lastMessagePreview.Some? == row.lastMessagePreview.Some?
    && (stored.lastMessagePreview.Some? ==> stored.lastMessagePreview.value <= row.lastMessagePreview.value && |stored.lastMessagePreview.value| <= 240)
    && stored.closedAt == (if row.conversationState == "closed" then Some(row.lastInteractionAt) else None)
  }

  lemma ConversationDataSays(
    input: ApplyInput, row: ConversationRow, messages: seq<MessageRow>, contact: Id, owner: Option<Id>, existing: Option<Conversation>)
    ensures ConversationSays(ConversationData(input, row, messages, contact, owner, existing), existing, row, messages)
  {
    var inbound := if existing.Some? then existing.value.lastInboundAt else None;
    var outbound := if existing.Some? then existing.value.lastOutboundAt else None;
    LastOccurredIs(messages, "inbound", inbound);
    LastOccurredIs(messages, "outbound", outbound);
  }

  // ---- The quote -----------------------------------------------------------------

  /** A date-only column has the business day of the instant, at midnight. */
  predicate DaySays(day: Option<Instant>, input: ApplyInput, at: Option<Instant>) {
    day.Some? == at.Some? && (day.Some? ==> day.value == input.businessDay(at.value) * DAY_MS)
  }

  /** The importer's own keys say what the row says; all other keys are those of before. */
  predicate StructuredSays(data: Json, earlier: Json, row: ConversationRow) {
    && Has(data, "source", JText("legacy-whatsapp-import"))
    && (TripTypeName(row.tripType).Some? ==> Has(data, "tripType", JText(TripTypeName(row.tripType).value)))
    && (Truthy(row.transferDetails) ==> Has(data, "transferDetails", JText(row.transferDetails.value)))
    && KeepsOtherKeys(if earlier.JObject? then earlier.fields else map[], data.fields, row)
  }

  predicate KeepsOtherKeys(earlier: map<string, Json>, fields: map<string, Json>, row: ConversationRow) {
    forall k | k in earlier.Keys + fields.Keys :: Written(k, row) || (k in earlier && k in fields && fields[k] == earlier[k])
  }

  predicate Written(k: string, row: ConversationRow) {
    k == "source" || (k == "tripType" && TripTypeName(row.tripType).Some?) || (k == "transferDetails" && Truthy(row.transferDetails))
  }

  /** Key `k` of the object has the value `v`. */
  predicate Has(data: Json, k: string, v: Json) {
    data.JObject? && k in data.fields && data.fields[k] == v
  }

  function DayNumber(day: Option<Instant>): Json {
    OptionalNumber(if day.Some? then Some(day.value / DAY_MS) else None)
  }

  predicate SummaryOfCustomer(s: Json, q: Quote) {
    && Has(s, "contactName", OptionalText(q.contactName)) && Has(s, "document", OptionalText(q.document)) && Has(s, "email", OptionalText(q.email))
    && Has(s, "serviceType", OptionalText(q.serviceType)) && Has(s, "notes", OptionalText(q.notes))
  }

  predicate SummaryOfTrip(s: Json, q: Quote) {
    && Has(s, "origin", OptionalText(q.origin)) && Has(s, "destination", OptionalText(q.destination))
    && Has(s, "departureAt", OptionalNumber(q.departureAt)) && Has(s, "returnAt", OptionalNumber(q.returnAt))
  }

  predicate SummaryOfDays(s: Json, q: Quote) {
    Has(s, "departureDate", DayNumber(q.departureDate)) && Has(s, "returnDate", DayNumber(q.returnDate))
  }

  predicate SummaryOfVehicle(s: Json, q: Quote) {
    && Has(s, "passengerCount", OptionalNumber(q.passengerCount)) && Has(s, "vehicleType", OptionalText(q.vehicleType))
    && Has(s, "vehicleAtDisposal", OptionalFlag(q.vehicleAtDisposal)) && Has(s, "localTransfers", OptionalFlag(q.localTransfers))
    && Has(s, "source", JText("legacy-whatsapp-import"))
  }

  predicate SummaryOfTransfer(s: Json, row: ConversationRow) {
    Has(s, "tripType", OptionalText(TripTypeName(row.tripType))) && Has(s, "transferDetails", OptionalText(row.transferDetails))
  }

  /** A confirmed summary repeats the columns of the quote it stands in, and the row where the quote has no column. */
  predicate SummarySays(q: Quote, row: ConversationRow) {
    SummaryOfCustomer(q.confirmedSummary, q) && SummaryOfTrip(q.confirmedSummary, q) && SummaryOfDays(q.confirmedSummary, q)
    && SummaryOfVehicle(q.confirmedSummary, q) && SummaryOfTransfer(q.confirmedSummary, row)
  }

  predicate QuoteColumns(stored: Quote, input: ApplyInput, row: ConversationRow) {
    && stored.status == row.requestStatus
    && stored.contactName == row.quoteContactName && stored.document == row.quoteDocument && stored.email == row.quoteEmail
    && stored.serviceType == row.serviceType && stored.origin == row.origin && stored.destination == row.destination
    && stored.departureAt == row.departureAt && DaySays(stored.departureDate, input, row.departureAt)
    && stored.returnAt == row.returnAt && DaySays(stored.returnDate, input, row.returnAt)
    && stored.passengerCount == row.passengerCount && stored.vehicleType == row.vehicleType
    && stored.vehicleAtDisposal == row.vehicleAtDisposal && stored.localTransfers == row.localTransfers
    && stored.notes == row.notes && stored.decisionReason == row.decisionReason && stored.decidedAt == row.decidedAt
    && stored.confirmedAt == row.confirmedAt
  }

  predicate QuoteSays(stored: Quote, earlier: Option<Quote>, input: ApplyInput, row: ConversationRow) {
    && QuoteColumns(stored, input, row)
    && (stored.confirmedVersion == if row.confirmedAt.Some? then Some(stored.version) else None)
    && (if row.confirmedAt.Some? then SummarySays(stored, row) else stored.confirmedSummary == JNull)
    && StructuredSays(stored.structuredData, if earlier.Some? then earlier.value.structuredData else JNull, row)
    && stored.version == (if earlier.Some? then earlier.value.version + 1 else 1)
    && (earlier.Some? ==> stored.requestedByUserId == earlier.value.requestedByUserId && stored.decidedByUserId == earlier.value.decidedByUserId)
  }

  lemma DayNumberOf(day: Option<Instant>, input: ApplyInput, at: Option<Instant>, n: Option<int>)
    requires DaySays(day, input, at) && n == DayNumberAt(input, at)
    ensures DayNumber(day) == OptionalNumber(n)
  {
    if at.Some? {
      assert n.value * DAY_MS / DAY_MS == n.value;
    }
  }

  lemma CustomerSummary(input: ApplyInput, row: ConversationRow, s: Json, q: Quote)
    requires row.confirmedAt.Some? && s == ConfirmedSummary(input, row) && QuoteColumns(q, input, row)
    ensures SummaryOfCustomer(s, q)
  {
  }

  lemma TripSummary(input: ApplyInput, row: ConversationRow, s: Json, q: Quote)
    requires row.confirmedAt.Some? && s == ConfirmedSummary(input, row) && QuoteColumns(q, input, row)
    ensures SummaryOfTrip(s, q)
  {
  }

  lemma DaysSummary(input: ApplyInput, row: ConversationRow, s: Json, q: Quote, departure: Option<int>, return_: Option<int>)
    requires DaySays(q.departureDate, input, row.departureAt) && DaySays(q.returnDate, input, row.returnAt)
    requires departure == DayNumberAt(input, row.departureAt) && return_ == DayNumberAt(input, row.returnAt)
    requires Has(s, "departureDate", OptionalNumber(departure)) && Has(s, "returnDate", OptionalNumber(return_))
    ensures SummaryOfDays(s, q)
  {
    DayNumberOf(q.departureDate, input, row.departureAt, departure);
    DayNumberOf(q.returnDate, input, row.returnAt, return_);
  }

  lemma VehicleSummary(input: ApplyInput, row: ConversationRow, s: Json, q: Quote)
    requires row.confirmedAt.Some? && s == ConfirmedSummary(input, row) && QuoteColumns(q, input, row)
    ensures SummaryOfVehicle(s, q)
  {
  }

  lemma TransferSummary(input: ApplyInput, row: ConversationRow, s: Json)
    requires row.confirmedAt.Some? && s == ConfirmedSummary(input, row)
    ensures SummaryOfTransfer(s, row)
  {
  }

  lemma StructuredOf(earlier: Json, row: ConversationRow)
    ensures StructuredSays(StructuredData(earlier, row), earlier, row)
  {
  }

  lemma ColumnsOf(input: ApplyInput, row: ConversationRow, conversationId: Id, sequence: int, existing: Option<Quote>, q: Quote)
    requires q == QuoteData(input, row, conversationId, sequence, existing)
    ensures QuoteColumns(q, input, row)
  {
  }

  function DayNumberAt(input: ApplyInput, at: Option<Instant>): Option<int> {
    if at.Some? then Some(input.businessDay(at.value)) else None
  }

  lemma DaysHad(input: ApplyInput, row: ConversationRow, s: Json)
    requires row.confirmedAt.Some? && s == ConfirmedSummary(input, row)
    ensures Has(s, "departureDate", OptionalNumber(DayNumberAt(input, row.departureAt)))
    ensures Has(s, "returnDate", OptionalNumber(DayNumberAt(input, row.returnAt)))
  {
  }

  lemma SummaryOf(input: ApplyInput, row: ConversationRow, q: Quote)
    requires row.confirmedAt.Some? && q.confirmedSummary == ConfirmedSummary(input, row) && QuoteColumns(q, input, row)
    ensures SummarySays(q, row)
  {
    CustomerSummary(input, row, q.confirmedSummary, q);
    TripSummary(input, row, q.confirmedSummary, q);
    DaysHad(input, row, q.confirmedSummary);
    DaysSummary(input, row, q.confirmedSummary, q, DayNumberAt(input, row.departureAt), DayNumberAt(input, row.returnAt));
    VehicleSummary(input, row, q.confirmedSummary, q);
    TransferSummary(input, row, q.confirmedSummary);
  }

  lemma QuoteDataSays(input: ApplyInput, row: ConversationRow, conversationId: Id, sequence: int, existing: Option<Quote>, q: Quote)
    requires q == QuoteData(input, row, conversationId, sequence, existing)
    ensures QuoteSays(q, existing, input, row)
  {
    ColumnsOf(input, row, conversationId, sequence, existing, q);
    StructuredOf(if existing.Some? then existing.value.structuredData else JNull, row);
    if row.confirmedAt.Some? {
      SummaryOf(input, row, q);
    }
  }

  /** The quote that the row addresses says what the row says; a row without a sequence leaves all quotes. */
  predicate QuoteStored(a: map<Id, Quote>, b: map<Id, Quote>, input: ApplyInput, row: ConversationRow, conversationId: Id) {
    if row.quoteSequence.None? || row.quoteSequence.value == 0 then b == a
    else exists q :: q in b && b[q].conversationId == conversationId && b[q].sequence == row.quoteSequence.value
                     && QuoteSays(b[q], if q in a then Some(a[q]) else None, input, row)
  }

  lemma QuoteIsStored(t: Tables, input: ApplyInput, row: ConversationRow, conversationId: Id, existing: Option<Id>, id: Id)
    requires existing == FindQuote(t.quotes, conversationId, row.quoteSequence)
    requires UpsertQuote(t, input, row, conversationId, existing, id).Ok?
    ensures QuoteStored(t.quotes, UpsertQuote(t, input, row, conversationId, existing, id).value.0.quotes, input, row, conversationId)
  {
    if row.quoteSequence.Some? && row.quoteSequence.value != 0 {
      var q := if existing.Some? then existing.value else id;
      var earlier := if existing.Some? then Some(t.quotes[q]) else None;
      var b := UpsertQuote(t, input, row, conversationId, existing, id).value.0.quotes;
      QuoteDataSays(input, row, conversationId, row.quoteSequence.value, earlier, b[q]);
      assert q in b && b[q] == QuoteData(input, row, conversationId, row.quoteSequence.value, earlier);
    }
  }

  // ---- The documents ---------------------------------------------------------------

  function DocumentKey(row: ConversationRow, d: DocumentRow): RefKey {
    RefKey(DocumentEntity, row.sourceSystem, d.externalDocumentId)
  }

  predicate DocumentSays(stored: Document, d: DocumentRow) {
    && stored.fileName == d.fileName && stored.sha256 == d.sha256 && stored.status == d.documentStatus
    && stored.providerMessageId == d.providerMessageId && stored.sentAt == d.sentAt
    && (stored.sentByUserId.Some? <==> d.documentStatus == "sent")
  }

  /** The document is stored in the conversation, with the quote it belongs to. */
  predicate DocumentStored(t: Tables, row: ConversationRow, d: DocumentRow, conversationId: Id) {
    var key := DocumentKey(row, d);
    && key in t.refs && t.refs[key].payloadHash == Some(DocumentHash(row, d))
    && var id := t.refs[key].internalId;
       && id in t.documents && t.documents[id].conversationId == conversationId
       && t.documents[id].quoteRequestId in t.quotes && t.quotes[t.documents[id].quoteRequestId].sequence == d.quoteSequence
  }

  /** Stored, and if `a` had no reference for it, as the row has it. */
  predicate DocumentWritten(a: Tables, b: Tables, row: ConversationRow, d: DocumentRow, conversationId: Id) {
    && DocumentStored(b, row, d, conversationId)
    && (DocumentKey(row, d) !in a.refs ==> DocumentSays(b.documents[b.refs[DocumentKey(row, d)].internalId], d))
  }

  predicate DocumentsWritten(a: Tables, b: Tables, row: ConversationRow, documents: seq<DocumentRow>, conversationId: Id) {
    forall d | d in documents :: DocumentWritten(a, b, row, d, conversationId)
  }

  /** What `b` keeps of `a`: every quote, document and reference. */
  ghost predicate KeepsDocuments(a: Tables, b: Tables) {
    && a.quotes == b.quotes
    && (forall d | d in a.documents :: d in b.documents && b.documents[d] == a.documents[d])
    && (forall k | k in a.refs :: k in b.refs && b.refs[k] == a.refs[k])
  }

  lemma WrittenStays(a: Tables, b: Tables, c: Tables, row: ConversationRow, d: DocumentRow, conversationId: Id)
    requires KeepsDocuments(b, c) && DocumentWritten(a, b, row, d, conversationId)
    ensures DocumentWritten(a, c, row, d, conversationId)
  {
  }

  /** A reference that `a` did not have comes from one of the first `n` rows. */
  ghost predicate NewKeysOf(a: Tables, b: Tables, row: ConversationRow, documents: seq<DocumentRow>, n: nat) {
    forall k: RefKey | k in b.refs && k !in a.refs :: exists j :: 0 <= j < n <= |documents| && k == DocumentKey(row, documents[j])
  }

  /** The first `n` rows are written, and nothing else is referenced that `a` had not. */
  ghost predicate FirstWritten(a: Tables, b: Tables, row: ConversationRow, documents: seq<DocumentRow>, n: nat, conversationId: Id) {
    && n <= |documents| && NewKeysOf(a, b, row, documents, n)
    && forall j | 0 <= j < n :: DocumentWritten(a, b, row, documents[j], conversationId)
  }

  lemma OneMoreWritten(a: Tables, b: Tables, c: Tables, row: ConversationRow, documents: seq<DocumentRow>, n: nat, conversationId: Id)
    requires FirstWritten(a, b, row, documents, n, conversationId) && KeepsDocuments(b, c) && n < |documents|
    requires forall k | k in c.refs && k !in b.refs :: k == DocumentKey(row, documents[n])
    requires DocumentWritten(a, c, row, documents[n], conversationId)
    ensures FirstWritten(a, c, row, documents, n + 1, conversationId)
  {
    forall j | 0 <= j < n
      ensures DocumentWritten(a, c, row, documents[j], conversationId)
    {
      WrittenStays(a, b, c, row, documents[j], conversationId);
    }
    forall k: RefKey | k in c.refs && k !in a.refs
      ensures exists j :: 0 <= j < n + 1 && k == DocumentKey(row, documents[j])
    {
      if k !in b.refs {
        assert k == DocumentKey(row, documents[n]);
      }
    }
  }

  /** A row that repeats one that was written before has the same payload, so it is written as well. */
  lemma RepeatWritten(a: Tables, b: Tables, row: ConversationRow, documents: seq<DocumentRow>, n: nat, d: DocumentRow, conversationId: Id)
    requires FirstWritten(a, b, row, documents, n, conversationId)
    requires DocumentKey(row, d) in b.refs && b.refs[DocumentKey(row, d)].payloadHash == Some(DocumentHash(row, d))
    requires DocumentWritten(b, b, row, d, conversationId)
    ensures DocumentWritten(a, b, row, d, conversationId)
  {
    if DocumentKey(row, d) !in a.refs {
      var j :| 0 <= j < n && DocumentKey(row, d) == DocumentKey(row, documents[j]);
      assert DocumentWritten(a, b, row, documents[j], conversationId);
    }
  }

  /** What one document row does: nothing when it is there, else it is written and referenced. */
  ghost predicate Wrote(a: Tables, b: Tables, row: ConversationRow, d: DocumentRow, conversationId: Id) {
    && KeepsDocuments(a, b) && DocumentWritten(a, b, row, d, conversationId)
    && (DocumentKey(row, d) in a.refs ==> b == a)
    && (forall k | k in b.refs && k !in a.refs :: k == DocumentKey(row, d))
  }

  lemma DocumentStep(
    done: DocumentsCreated, input: ApplyInput, row: ConversationRow, conversationId: Id, quote: Option<Id>,
    d: DocumentRow, id: Id, refId: Id, now: Instant)
    requires ApplyDocument(done, input, row, conversationId, quote, d, id, refId, now).Ok?
    ensures Wrote(done.tables, ApplyDocument(done, input, row, conversationId, quote, d, id, refId, now).value.tables, row, d, conversationId)
  {
  }

  lemma {:induction false} DocumentsStep(
    t: Tables, input: ApplyInput, row: ConversationRow, conversationId: Id, quote: Option<Id>,
    documents: seq<DocumentRow>, n: nat, ids: NewIds, now: Instant)
    requires n <= |documents| && ApplyDocuments(t, input, row, conversationId, quote, documents, n, ids, now).Ok?
    ensures var r := ApplyDocuments(t, input, row, conversationId, quote, documents, n, ids, now).value;
            FirstWritten(t, r.tables, row, documents, n, conversationId)
  {
    if n > 0 {
      DocumentsStep(t, input, row, conversationId, quote, documents, n - 1, ids, now);
      var done := ApplyDocuments(t, input, row, conversationId, quote, documents, n - 1, ids, now).value;
      var r := ApplyDocuments(t, input, row, conversationId, quote, documents, n, ids, now).value;
      DocumentStep(done, input, row, conversationId, quote, documents[n - 1], ids.document(n - 1), ids.documentRef(n - 1), now);
      WrittenSince(t, done.tables, r.tables, row, documents, n, conversationId);
    }
  }

  lemma WrittenSince(
    a: Tables, b: Tables, c: Tables, row: ConversationRow, documents: seq<DocumentRow>, n: nat, conversationId: Id)
    requires 0 < n <= |documents| && FirstWritten(a, b, row, documents, n - 1, conversationId)
    requires Wrote(b, c, row, documents[n - 1], conversationId)
    ensures FirstWritten(a, c, row, documents, n, conversationId)
  {
    if DocumentKey(row, documents[n - 1]) in b.refs {
      RepeatWritten(a, b, row, documents, n - 1, documents[n - 1], conversationId);
    }
    OneMoreWritten(a, b, c, row, documents, n - 1, conversationId);
  }

  // ---- The commit --------------------------------------------------------------------

  /** Messages are referenced as messages: no reference of a document is among the new ones. */
  lemma {:induction false} NoDocumentKeys(t: Tables, planned: seq<PlannedMessage>, n: nat, k: RefKey)
    requires n <= |planned| && (forall p | p in planned :: p.key.entityType == MessageEntity)
    requires CreateMessages(t, planned, n).Ok?
    requires k.entityType == DocumentEntity && k in CreateMessages(t, planned, n).value.refs
    ensures k in t.refs
  {
    if n > 0 {
      assert planned[n - 1] in planned;
      NoDocumentKeys(t, planned, n - 1, k);
    }
  }

  lemma ContentsWritten(
    w: Tables, input: ApplyInput, row: ConversationRow, messages: seq<MessageRow>, documents: seq<DocumentRow>, v: Id, contactId: Id,
    referenced: bool, ids: NewIds, now: Instant, b: Tables)
    requires WellFormed(w) && v in w.conversations && contactId in w.contacts
    requires var c := ApplyContents(w, input, row, messages, documents, v, contactId, referenced, ids, now); c.Ok? && c.value.0 == b
    ensures b.conversations == w.conversations && QuoteStored(w.quotes, b.quotes, input, row, v) && DocumentsWritten(w, b, row, documents, v)
  {
    var existing, quote, planned, withRef, withQuote, withMessages, done :=
      ContentsSteps(w, input, row, messages, documents, v, contactId, referenced, ids, now, b);
    QuoteIsStored(withRef, input, row, v, existing, ids.quote);
    DocumentsStep(withMessages, input, row, v, quote, documents, |documents|, ids, now);
    forall d | d in documents
      ensures DocumentWritten(w, b, row, d, v)
    {
      assert DocumentWritten(withMessages, b, row, d, v);
      if DocumentKey(row, d) in withMessages.refs {
        NoDocumentKeys(withQuote, planned, |planned|, DocumentKey(row, d));
      }
    }
  }

  /** What a commit leaves of the row it applies. */
  predicate RowWritten(
    a: Tables, b: Tables, input: ApplyInput, row: ConversationRow, messages: seq<MessageRow>, documents: seq<DocumentRow>, v: Id)
  {
    && v in b.conversations
    && ConversationSays(b.conversations[v], if v in a.conversations then Some(a.conversations[v]) else None, row, messages)
    && QuoteStored(a.quotes, b.quotes, input, row, v)
    && DocumentsWritten(a, b, row, documents, v)
  }

  /** A committed row leaves its conversation, its quote and its documents as the package has them. */
  lemma ApplyWrites(
    t: Tables, input: ApplyInput, row: ConversationRow, messages: seq<MessageRow>, documents: seq<DocumentRow>, ids: NewIds, now: Instant)
    requires WellFormed(t)
    requires ApplyConversation(t, input, row, messages, documents, ids, now).Ok?
    ensures var b := ApplyConversation(t, input, row, messages, documents, ids, now).value;
            |b.records| == |t.records| + 1 && RowWritten(t, b, input, row, messages, documents, b.records[|t.records|].conversationId)
  {
    var b := ApplyConversation(t, input, row, messages, documents, ids, now).value;
    var w, v, contactId, referenced, owner := ApplyIs(t, input, row, messages, documents, ids, now, b);
    var c := ApplyContents(w, input, row, messages, documents, v, contactId, referenced, ids, now).value.0;
    ContentsWritten(w, input, row, messages, documents, v, contactId, referenced, ids, now, c);
    ConversationDataSays(input, row, messages, contactId, owner, if v in t.conversations then Some(t.conversations[v]) else None);
    DocumentsWrittenSame(w, c, t, b, row, documents, v);
  }

  /** Being written depends on references, documents and quotes alone. */
  lemma DocumentsWrittenSame(a: Tables, b: Tables, c: Tables, d: Tables, row: ConversationRow, documents: seq<DocumentRow>, v: Id)
    requires DocumentsWritten(a, b, row, documents, v)
    requires c.refs == a.refs && d.refs == b.refs && d.documents == b.documents && d.quotes == b.quotes
    ensures DocumentsWritten(c, d, row, documents, v)
  {
    forall x | x in documents
      ensures DocumentWritten(c, d, row, x, v)
    {
      assert DocumentWritten(a, b, row, x, v);
    }
  }
}
