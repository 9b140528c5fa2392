/**
  One conversation of an import batch, applied in one database transaction.

  `ApplyConversation` follows the transaction statement by statement and yields
  either the new tables or the error that aborts it. `Effect` says what a commit
  may have changed; the rollback and protocol proofs use only that.
 */
module ImportApply {
  import opened Wrappers
  import opened ImportTables

  datatype ImportError =
    | ReferenceWithoutSnapshot
    | ChangedSinceLastImport
    | RealActivitySinceLastImport
    | MissingConversation
    | OtherChannel
    | OtherContact
    | SecondOpenConversation
    | UnknownUser
    | DivergentPayload
    | OrphanReference
    | DocumentWithoutQuote
    | DocumentAltered
    | UniqueViolation

  /** The parts of the call that are the same for every row; formatting and calendar are parameters. */
  datatype ApplyInput = ApplyInput(
    batchId: Id,
    channelId: Id,
    actorUserId: Id,
    activeUsers: map<string, Id>,
    formatPhone: string -> string,
    businessDay: Instant -> int)

  /** Identifiers drawn for one transaction; the nth message and document use the nth of theirs. */
  datatype NewIds = NewIds(
    contact: Id,
    conversation: Id,
    conversationRef: Id,
    quote: Id,
    record: Id,
    message: nat -> Id,
    messageRef: nat -> Id,
    document: nat -> Id,
    documentRef: nat -> Id)

  // ---- Lookups by unique key ------------------------------------------------

  ghost function FindContact(contacts: map<Id, Contact>, phone: string): (r: Option<Id>)
    ensures r.Some? ==> r.value in contacts && contacts[r.value].phone == phone
    ensures r.None? ==> forall c | c in contacts :: contacts[c].phone != phone
  {
    if exists c :: c in contacts && contacts[c].phone == phone then
      var c :| c in contacts && contacts[c].phone == phone;
      Some(c)
    else None
  }

  ghost function FindConversation(conversations: map<Id, Conversation>, channelId: Id, contactId: Id): (r: Option<Id>)
    ensures r.Some? ==> r.value in conversations
                        && conversations[r.value].channelId == channelId && conversations[r.value].contactId == contactId
    ensures r.None? ==> forall v | v in conversations ::
                          !(conversations[v].channelId == channelId && conversations[v].contactId == contactId)
  {
    if exists v :: v in conversations && conversations[v].channelId == channelId && conversations[v].contactId == contactId then
      var v :| v in conversations && conversations[v].channelId == channelId && conversations[v].contactId == contactId;
      Some(v)
    else None
  }

  /** A sequence of zero is falsy, so it never finds a quote. */
  ghost function FindQuote(quotes: map<Id, Quote>, conversationId: Id, sequence: Option<int>): (r: Option<Id>)
    ensures r.Some? ==> r.value in quotes && sequence.Some? && quotes[r.value].conversationId == conversationId
                        && quotes[r.value].sequence == sequence.value
    ensures r.None? && sequence.Some? && sequence.value != 0 ==>
              forall q | q in quotes :: !(quotes[q].conversationId == conversationId && quotes[q].sequence == sequence.value)
  {
    if sequence.Some? && sequence.value != 0
       && exists q :: q in quotes && quotes[q].conversationId == conversationId && quotes[q].sequence == sequence.value then
      var q :| q in quotes && quotes[q].conversationId == conversationId && quotes[q].sequence == sequence.value;
      Some(q)
    else None
  }

  ghost function LoadSnapshot(t: Tables, contactId: Id, conversationId: Id, sequence: Option<int>): Snapshot {
    var q := FindQuote(t.quotes, conversationId, sequence);
    Snapshot(
      if contactId in t.contacts then Some(SelectContact(contactId, t.contacts[contactId])) else None,
      if conversationId in t.conversations then Some(SelectConversation(conversationId, t.conversations[conversationId])) else None,
      if q.Some? then Some(SelectQuote(q.value, t.quotes[q.value])) else None)
  }

  function QuoteSequenceOf(s: Snapshot): Option<int> {
    if s.quoteRequest.Some? then Some(s.quoteRequest.value.sequence) else None
  }

  // ---- Drift since the last import ------------------------------------------

  /** Later in (appliedAt, id) order. */
  predicate LaterRecord(a: Record, b: Record) {
    a.appliedAt > b.appliedAt || (a.appliedAt == b.appliedAt && a.id > b.id)
  }

  function LatestRecord(records: seq<Record>, conversationId: Id): Option<Record> {
    if records == [] then None
    else
      var r := records[|records| - 1];
      var earlier := LatestRecord(records[..|records| - 1], conversationId);
      if r.status == Applied && r.conversationId == conversationId && (earlier.None? || LaterRecord(r, earlier.value))
      then Some(r) else earlier
  }

  ghost predicate IsImported(refs: map<RefKey, ExternalRef>, entityType: EntityType, internalId: Id) {
    exists k :: k in refs && k.entityType == entityType && refs[k].internalId == internalId
  }

  ghost predicate RealActivityAfter(t: Tables, conversationId: Id, since: Instant) {
    || (exists m :: m in t.messages && t.messages[m].conversationId == conversationId
         && t.messages[m].createdAt > since && !IsImported(t.refs, MessageEntity, m))
    || (exists x :: x in t.transitions && t.transitions[x].conversationId == conversationId
         && t.transitions[x].createdAt > since)
    || (exists d :: d in t.documents && t.documents[d].conversationId == conversationId
         && t.documents[d].createdAt > since && !IsImported(t.refs, DocumentEntity, d))
  }

  ghost function Drift(t: Tables, reference: Option<ExternalRef>, contact: Option<Id>): Option<ImportError> {
    if reference.None? then None
    else
      var v := reference.value.internalId;
      var latest := LatestRecord(t.records, v);
      if v !in t.conversations || latest.None? then Some(ReferenceWithoutSnapshot)
      else
        var after := latest.value.after;
        var q := FindQuote(t.quotes, v, QuoteSequenceOf(after));
        var current := Snapshot(
          if contact.Some? && contact.value in t.contacts
          then Some(SelectContact(contact.value, t.contacts[contact.value])) else None,
          Some(SelectConversation(v, t.conversations[v])),
          if q.Some? then Some(SelectQuote(q.value, t.quotes[q.value])) else None);
        if current != after then Some(ChangedSinceLastImport)
        else if RealActivityAfter(t, v, latest.value.appliedAt) then Some(RealActivitySinceLastImport)
        else None
  }

  // ---- Contact and conversation ----------------------------------------------

  predicate Truthy(s: Option<string>) {
    s.Some? && s.value != ""
  }

  /** The active user of that name; an empty name is none. */
  function UserNamed(input: ApplyInput, name: Option<string>): Result<Option<Id>, ImportError> {
    if !Truthy(name) then Ok(None)
    else if name.value in input.activeUsers then Ok(Some(input.activeUsers[name.value]))
    else Err(UnknownUser)
  }

  function UpsertContact(
    t: Tables, input: ApplyInput, row: ConversationRow, existing: Option<Id>, referenced: bool, id: Id)
    : Result<(Tables, Id), ImportError>
    requires existing.Some? ==> existing.value in t.contacts
  {
    match existing
    case Some(c) =>
      var prior := t.contacts[c];
      if referenced && !prior.isSaved && Truthy(row.contactName) && row.contactName != prior.displayName
      then Ok((t.(contacts := t.contacts[c := prior.(displayName := row.contactName)]), c))
      else Ok((t, c))
    case None =>
      if id in t.contacts then Err(UniqueViolation)
      else Ok((t.(contacts := t.contacts[id := Contact(row.phone, input.formatPhone(row.phone), row.contactName, false)]), id))
  }

  predicate IsOpenState(state: string) {
    state in {"bot-active", "waiting-for-customer", "sent-to-human", "human-active"}
  }

  /** The conversation that the row updates, if there is one. */
  ghost function TargetConversation(t: Tables, input: ApplyInput, row: ConversationRow, reference: Option<ExternalRef>, contact: Id)
    : (r: Result<Option<Id>, ImportError>)
    ensures r.Ok? && r.value.Some? ==>
              && r.value.value in t.conversations
              && t.conversations[r.value.value].channelId == input.channelId
              && t.conversations[r.value.value].contactId == contact
  {
    var canonical := FindConversation(t.conversations, input.channelId, contact);
    if reference.Some? && reference.value.internalId !in t.conversations then Err(MissingConversation)
    else if reference.Some? && t.conversations[reference.value.internalId].channelId != input.channelId then Err(OtherChannel)
    else if reference.Some? && t.conversations[reference.value.internalId].contactId != contact then Err(OtherContact)
    else if reference.Some? && canonical.Some? && reference.value.internalId != canonical.value then Err(SecondOpenConversation)
    else
      var existing := if reference.Some? then Some(reference.value.internalId) else canonical;
      if IsOpenState(row.conversationState)
         && (exists v :: v in t.conversations && t.conversations[v].channelId == input.channelId
               && t.conversations[v].contactId == contact && t.conversations[v].closedAt.None?
               && (existing.Some? ==> v != existing.value))
      then Err(SecondOpenConversation)
      else Ok(existing)
  }

  /** When the last message of a direction occurred. */
  function LastOccurred(messages: seq<MessageRow>, direction: string): Option<Instant> {
    if messages == [] then None
    else if messages[|messages| - 1].direction == direction then Some(messages[|messages| - 1].occurredAt)
    else LastOccurred(messages[..|messages| - 1], direction)
  }

  function Prefix(text: string, length: nat): string {
    if |text| <= length then text else text[..length]
  }

  /** The conversation row that an update leaves or a creation inserts. */
  function ConversationData(
    input: ApplyInput, row: ConversationRow, messages: seq<MessageRow>, contact: Id, owner: Option<Id>, existing: Option<Conversation>)
    : Conversation
  {
    var prior := if existing.Some? then existing.value
               else Conversation(input.channelId, contact, "", "", "", "", None, None, None, 0, 0, None, None, None, None, None, None, None, None);
    prior.(department := row.department,
         conversationState := row.conversationState,
         flowStep := row.flowStep,
         requestStatus := row.requestStatus,
         resumeState := None,
         resumeFlowStep := None,
         assignedToUserId := owner,
         unreadCount := row.unreadCount,
         version := prior.version + 1,
         mainMenuPresentedAt := if row.flowStep == "main-menu" then None else prior.mainMenuPresentedAt,
         followUpMenuPresentedAt := if row.flowStep == "commercial-follow-up-menu" then None else prior.followUpMenuPresentedAt,
         contextualFollowUpAt :=
           if row.conversationState == "bot-active" && row.flowStep == "commercial-follow-up-menu"
              && row.requestStatus in {"under-review", "approved"}
           then Some(row.lastInteractionAt) else None,
         lastInboundAt := LastOccurred(messages, "inbound").Or(prior.lastInboundAt),
         lastOutboundAt := LastOccurred(messages, "outbound").Or(prior.lastOutboundAt),
         lastMessagePreview :=
           if row.lastMessagePreview.Some? then Some(Prefix(row.lastMessagePreview.value, 240)) else None,
         closedAt := if row.conversationState == "closed" then Some(row.lastInteractionAt) else None)
  }

  ghost predicate RefIdUsed(refs: map<RefKey, ExternalRef>, id: Id) {
    exists k :: k in refs && refs[k].id == id
  }

  ghost function InsertRef(t: Tables, key: RefKey, ref: ExternalRef): Result<Tables, ImportError> {
    if key in t.refs || RefIdUsed(t.refs, ref.id) then Err(UniqueViolation)
    else Ok(t.(refs := t.refs[key := ref]))
  }

  // ---- Quote -----------------------------------------------------------------

  function OptionalText(s: Option<string>): Json {
    if s.Some? then JText(s.value) else JNull
  }

  function OptionalNumber(n: Option<int>): Json {
    if n.Some? then JNumber(n.value) else JNull
  }

  function OptionalFlag(b: Option<bool>): Json {
    if b.Some? then JBool(b.value) else JNull
  }

  function TripTypeName(tripType: Option<string>): Option<string> {
    if tripType == Some("one-way") then Some("one_way")
    else if tripType == Some("round-trip") then Some("round_trip")
    else if tripType == Some("unknown") then Some("unknown")
    else None
  }

  /** The earlier object with the importer's own keys written over it. */
  function StructuredData(existing: Json, row: ConversationRow): Json {
    var kept := if existing.JObject? then existing.fields else map[];
    var tripType := TripTypeName(row.tripType);
    var withSource := kept["source" := JText("legacy-whatsapp-import")];
    var withTrip := if tripType.Some? then withSource["tripType" := JText(tripType.value)] else withSource;
    JObject(if Truthy(row.transferDetails) then withTrip["transferDetails" := JText(row.transferDetails.value)] else withTrip)
  }

  function DateOnly(input: ApplyInput, at: Option<Instant>): Option<Instant> {
    if at.Some? then Some(input.businessDay(at.value) * DAY_MS) else None
  }

  function ConfirmedSummary(input: ApplyInput, row: ConversationRow): Json {
    if row.confirmedAt.None? then JNull
    else JObject(map[
                   "contactName" := OptionalText(row.quoteContactName),
                   "document" := OptionalText(row.quoteDocument),
                   "email" := OptionalText(row.quoteEmail),
                   "serviceType" := OptionalText(row.serviceType),
                   "tripType" := OptionalText(TripTypeName(row.tripType)),
                   "origin" := OptionalText(row.origin),
                   "destination" := OptionalText(row.destination),
                   "departureDate" := OptionalNumber(if row.departureAt.Some? then Some(input.businessDay(row.departureAt.value)) else None),
                   "departureAt" := OptionalNumber(row.departureAt),
                   "returnDate" := OptionalNumber(if row.returnAt.Some? then Some(input.businessDay(row.returnAt.value)) else None),
                   "returnAt" := OptionalNumber(row.returnAt),
                   "passengerCount" := OptionalNumber(row.passengerCount),
                   "vehicleType" := OptionalText(row.vehicleType),
                   "vehicleAtDisposal" := OptionalFlag(row.vehicleAtDisposal),
                   "localTransfers" := OptionalFlag(row.localTransfers),
                   "transferDetails" := OptionalText(row.transferDetails),
                   "notes" := OptionalText(row.notes),
                   "source" := JText("legacy-whatsapp-import")])
  }

  /** The quote row that an update leaves or a creation inserts. */
  function QuoteData(input: ApplyInput, row: ConversationRow, conversationId: Id, sequence: int, existing: Option<Quote>): Quote {
    var version := if existing.Some? then existing.value.version + 1 else 1;
    Quote(
      conversationId, sequence, row.requestStatus, row.quoteContactName, row.quoteDocument, row.quoteEmail, row.serviceType,
      row.origin, row.destination, DateOnly(input, row.departureAt), row.departureAt, DateOnly(input, row.returnAt), row.returnAt,
      row.passengerCount, row.vehicleType, row.vehicleAtDisposal, row.localTransfers, row.notes,
      StructuredData(if existing.Some? then existing.value.structuredData else JNull, row),
      row.confirmedAt, ConfirmedSummary(input, row),
      if row.confirmedAt.Some? then Some(version) else None,
      if existing.Some? then existing.value.requestedByUserId else None,
      row.decisionReason, row.decidedAt,
      if existing.Some? then existing.value.decidedByUserId else None,
      version)
  }

  /** The quote that the row addresses, written; `None` when the row has no quote sequence. */
  ghost function UpsertQuote(t: Tables, input: ApplyInput, row: ConversationRow, conversationId: Id, existing: Option<Id>, id: Id)
    : Result<(Tables, Option<Id>), ImportError>
    requires existing.Some? ==> existing.value in t.quotes
  {
    if row.quoteSequence.None? || row.quoteSequence.value == 0 then Ok((t, None))
    else if existing.Some? then
      var data := QuoteData(input, row, conversationId, row.quoteSequence.value, Some(t.quotes[existing.value]));
      Ok((t.(quotes := t.quotes[existing.value := data]), existing))
    else if id in t.quotes then Err(UniqueViolation)
    else
      var data := QuoteData(input, row, conversationId, row.quoteSequence.value, None);
      Ok((t.(quotes := t.quotes[id := data]), Some(id)))
  }

  // ---- Messages --------------------------------------------------------------

  datatype PlannedMessage = PlannedMessage(id: Id, message: Message, key: RefKey, ref: ExternalRef)

  function MediaMetadata(m: MessageRow): Json {
    if m.mediaReference.None? && m.correlationId.None? then JNull
    else JObject(map["legacyReference" := OptionalText(m.mediaReference), "legacyCorrelationId" := OptionalText(m.correlationId)])
  }

  function PlannedOf(
    input: ApplyInput, row: ConversationRow, conversationId: Id, contactId: Id, actor: Option<Id>, m: MessageRow,
    messageId: Id, refId: Id, now: Instant)
    : PlannedMessage
  {
    PlannedMessage(
      messageId,
      Message(conversationId, input.channelId, contactId, actor, m.providerMessageId, m.direction, m.deliveryStatus, m.kind,
              m.text, MediaMetadata(m), Imported(row.sourceSystem, m.externalMessageId), m.occurredAt, now),
      RefKey(MessageEntity, row.sourceSystem, m.externalMessageId),
      ExternalRef(refId, input.batchId, messageId, Some(MessagePayload(row.externalConversationId, m))))
  }

  function ActorOf(input: ApplyInput, m: MessageRow): Option<Id> {
    if UserNamed(input, m.actorUsername).Ok? then UserNamed(input, m.actorUsername).value else None
  }

  /** Whether message `m` is already stored, must be created, or stops the import. */
  function MessageDecision(t: Tables, input: ApplyInput, row: ConversationRow, conversationId: Id, m: MessageRow): Result<bool, ImportError> {
    var key := RefKey(MessageEntity, row.sourceSystem, m.externalMessageId);
    if key in t.refs then
      if t.refs[key].payloadHash != Some(MessagePayload(row.externalConversationId, m)) then Err(DivergentPayload)
      else if t.refs[key].internalId !in t.messages || t.messages[t.refs[key].internalId].conversationId != conversationId
      then Err(OrphanReference)
      else Ok(false)
    else if UserNamed(input, m.actorUsername).Err? then Err(UnknownUser)
    else Ok(true)
  }

  /** The messages to create, from the first `n` rows; the references are read once, before any is created. */
  function PlanMessages(
    t: Tables, input: ApplyInput, row: ConversationRow, conversationId: Id, contactId: Id,
    messages: seq<MessageRow>, n: nat, ids: NewIds, now: Instant)
    : Result<seq<PlannedMessage>, ImportError>
    requires n <= |messages|
  {
    if n == 0 then Ok([])
    else
      var planned :- PlanMessages(t, input, row, conversationId, contactId, messages, n - 1, ids, now);
      var m := messages[n - 1];
      var isNew :- MessageDecision(t, input, row, conversationId, m);
      if isNew
      then Ok(planned + [PlannedOf(input, row, conversationId, contactId, ActorOf(input, m), m, ids.message(n - 1), ids.messageRef(n - 1), now)])
      else Ok(planned)
  }

  ghost predicate MessageConflict(messages: map<Id, Message>, p: PlannedMessage) {
    || p.id in messages
    || exists m :: m in messages
         && (messages[m].correlation == p.message.correlation
             || (p.message.providerMessageId.Some? && messages[m].channelId == p.message.channelId
                 && messages[m].providerMessageId == p.message.providerMessageId))
  }

  /** Insert the first `n` planned messages with their references. */
  ghost function CreateMessages(t: Tables, planned: seq<PlannedMessage>, n: nat): Result<Tables, ImportError>
    requires n <= |planned|
  {
    if n == 0 then Ok(t)
    else
      var done :- CreateMessages(t, planned, n - 1);
      var p := planned[n - 1];
      if MessageConflict(done.messages, p) then Err(UniqueViolation)
      else InsertRef(done.(messages := done.messages[p.id := p.message]), p.key, p.ref)
  }

  function MessageIds(planned: seq<PlannedMessage>): (r: seq<Id>)
    ensures |r| == |planned|
    ensures forall i | 0 <= i < |planned| :: r[i] == planned[i].id
  {
    seq(|planned|, i requires 0 <= i < |planned| => planned[i].id)
  }

  function RefIds(planned: seq<PlannedMessage>): (r: seq<Id>)
    ensures |r| == |planned|
    ensures forall i | 0 <= i < |planned| :: r[i] == planned[i].ref.id
  {
    seq(|planned|, i requires 0 <= i < |planned| => planned[i].ref.id)
  }

  // ---- Documents -------------------------------------------------------------

  datatype DocumentsCreated = DocumentsCreated(tables: Tables, documentIds: seq<Id>, refIds: seq<Id>)

  ghost predicate IsLastSequence(documents: map<Id, Document>, quoteId: Id, last: int) {
    if exists d :: d in documents && documents[d].quoteRequestId == quoteId
    then
      && (exists d :: d in documents && documents[d].quoteRequestId == quoteId && documents[d].sequence == last)
      && (forall d | d in documents && documents[d].quoteRequestId == quoteId :: documents[d].sequence <= last)
    else last == 0
  }

  lemma LastSequenceExists(documents: map<Id, Document>, quoteId: Id)
    ensures exists last :: IsLastSequence(documents, quoteId, last)
    decreases |documents|
  {
    if d :| d in documents && documents[d].quoteRequestId == quoteId {
      var rest := documents - {d};
      assert forall e | e in documents :: e == d || (e in rest && rest[e] == documents[e]);
      LastSequenceExists(rest, quoteId);
      var last :| IsLastSequence(rest, quoteId, last);
      var s := documents[d].sequence;
      if exists e :: e in rest && rest[e].quoteRequestId == quoteId {
        assert IsLastSequence(documents, quoteId, if s > last then s else last);
      } else {
        assert IsLastSequence(documents, quoteId, s);
      }
    } else {
      assert IsLastSequence(documents, quoteId, 0);
    }
  }

  ghost function LastSequence(documents: map<Id, Document>, quoteId: Id): (last: int)
    ensures IsLastSequence(documents, quoteId, last)
  {
    LastSequenceExists(documents, quoteId);
    var last :| IsLastSequence(documents, quoteId, last);
    last
  }

  function DocumentHash(row: ConversationRow, d: DocumentRow): Payload {
    DocumentPayload(row.externalConversationId, d.(contentIntact := true))
  }

  /** One document row: skipped when already stored, created with its reference when new. */
  ghost function ApplyDocument(
    done: DocumentsCreated, input: ApplyInput, row: ConversationRow, conversationId: Id, quote: Option<Id>,
    d: DocumentRow, id: Id, refId: Id, now: Instant)
    : Result<DocumentsCreated, ImportError>
  {
    var t := done.tables;
    var key := RefKey(DocumentEntity, row.sourceSystem, d.externalDocumentId);
    if quote.None? || quote.value !in t.quotes || t.quotes[quote.value].sequence != d.quoteSequence then Err(DocumentWithoutQuote)
    else if key in t.refs then
      var internalId := t.refs[key].internalId;
      if t.refs[key].payloadHash != Some(DocumentHash(row, d)) then Err(DivergentPayload)
      else if internalId !in t.documents || t.documents[internalId].conversationId != conversationId
              || t.documents[internalId].quoteRequestId !in t.quotes
              || t.quotes[t.documents[internalId].quoteRequestId].sequence != d.quoteSequence
      then Err(OrphanReference)
      else Ok(done)
    else if !d.contentIntact then Err(DocumentAltered)
    else if id in t.documents then Err(UniqueViolation)
    else
      var document := Document(
        conversationId, quote.value, input.actorUserId,
        if d.documentStatus == "sent" then Some(input.actorUserId) else None,
        LastSequence(t.documents, quote.value) + 1,
        d.documentStatus, d.fileName, d.sha256, d.providerMessageId, d.sentAt, now);
      var next :- InsertRef(t.(documents := t.documents[id := document]), key,
                            ExternalRef(refId, input.batchId, id, Some(DocumentHash(row, d))));
      Ok(DocumentsCreated(next, done.documentIds + [id], done.refIds + [refId]))
  }

  ghost function ApplyDocuments(
    t: Tables, input: ApplyInput, row: ConversationRow, conversationId: Id, quote: Option<Id>,
    documents: seq<DocumentRow>, n: nat, ids: NewIds, now: Instant)
    : Result<DocumentsCreated, ImportError>
    requires n <= |documents|
  {
    if n == 0 then Ok(DocumentsCreated(t, [], []))
    else
      var done :- ApplyDocuments(t, input, row, conversationId, quote, documents, n - 1, ids, now);
      ApplyDocument(done, input, row, conversationId, quote, documents[n - 1], ids.document(n - 1), ids.documentRef(n - 1), now)
  }

  // ---- The transaction ---------------------------------------------------------

  predicate SameRecordKey(r: Record, batchId: Id, sourceSystem: string, externalConversationId: string) {
    r.batchId == batchId && r.sourceSystem == sourceSystem && r.externalConversationId == externalConversationId
  }

  predicate RecordConflict(records: seq<Record>, r: Record) {
    exists i :: 0 <= i < |records|
      && (records[i].id == r.id || SameRecordKey(records[i], r.batchId, r.sourceSystem, r.externalConversationId))
  }

  /** Everything after the conversation row is written, up to the new record. */
  ghost function ApplyContents(
    t: Tables, input: ApplyInput, row: ConversationRow, messages: seq<MessageRow>, documents: seq<DocumentRow>,
    conversationId: Id, contactId: Id, referenced: bool, ids: NewIds, now: Instant)
    : Result<(Tables, Option<Id>, CreatedIds), ImportError>
  {
    var conversationKey := RefKey(ConversationEntity, row.sourceSystem, row.externalConversationId);
    var withRef :- if referenced then Ok(t)
                   else InsertRef(t, conversationKey, ExternalRef(ids.conversationRef, input.batchId, conversationId, None));
    var existingQuote := FindQuote(withRef.quotes, conversationId, row.quoteSequence);
    var withQuote :- UpsertQuote(withRef, input, row, conversationId, existingQuote, ids.quote);
    var planned :- PlanMessages(withQuote.0, input, row, conversationId, contactId, messages, |messages|, ids, now);
    var withMessages :- CreateMessages(withQuote.0, planned, |planned|);
    var withDocuments :- ApplyDocuments(withMessages, input, row, conversationId, withQuote.1, documents, |documents|, ids, now);
    Ok((withDocuments.tables, existingQuote,
        CreatedIds(
          None, None,
          if existingQuote.None? then withQuote.1 else None,
          MessageIds(planned),
          withDocuments.documentIds,
          (if referenced then [] else [ids.conversationRef]) + RefIds(planned) + withDocuments.refIds)))
  }

  /** The record of the commit: the rows it found in `t`, the rows it left, and what it created. */
  ghost function RecordOf(
    t: Tables, done: Tables, input: ApplyInput, row: ConversationRow, existingContact: Option<Id>, contactId: Id,
    existing: Option<Id>, conversationId: Id, existingQuote: Option<Id>, contents: CreatedIds, id: Id, now: Instant)
    : Record
    requires existingContact.Some? ==> contactId in t.contacts
    requires existing.Some? ==> conversationId in t.conversations
  {
    Record(
      id, input.batchId, row.sourceSystem, row.externalConversationId, conversationId, contactId, existing.Some?,
      Snapshot(
        if existingContact.Some? then Some(SelectContact(contactId, t.contacts[contactId])) else None,
        if existing.Some? then Some(SelectConversation(conversationId, t.conversations[conversationId])) else None,
        if existingQuote.Some? && existingQuote.value in t.quotes
        then Some(SelectQuote(existingQuote.value, t.quotes[existingQuote.value])) else None),
      LoadSnapshot(done, contactId, conversationId, row.quoteSequence),
      contents.(contactId := if existingContact.Some? then None else Some(contactId),
                conversationId := if existing.Some? then None else Some(conversationId)),
      Applied, now)
  }

  /** The conversation row is written, its contents follow, and the record closes the transaction. */
  ghost function ApplyTo(
    t: Tables, withContact: Tables, input: ApplyInput, row: ConversationRow, messages: seq<MessageRow>, documents: seq<DocumentRow>,
    existingContact: Option<Id>, contactId: Id, existing: Option<Id>, newRow: Conversation, referenced: bool, ids: NewIds, now: Instant)
    : Result<Tables, ImportError>
    requires existingContact.Some? ==> contactId in t.contacts
    requires existing.Some? ==> existing.value in t.conversations
  {
    var conversationId := if existing.Some? then existing.value else ids.conversation;
    if existing.None? && ids.conversation in t.conversations then Err(UniqueViolation)
    else
      var withConversation := withContact.(conversations := t.conversations[conversationId := newRow]);
      var contents :- ApplyContents(withConversation, input, row, messages, documents, conversationId, contactId, referenced, ids, now);
      var record := RecordOf(t, contents.0, input, row, existingContact, contactId, existing, conversationId, contents.1, contents.2, ids.record, now);
      if RecordConflict(t.records, record) then Err(UniqueViolation)
      else Ok(contents.0.(records := t.records + [record]))
  }

  /** What the transaction decides before it writes the conversation. */
  datatype Decision = Decision(
    existingContact: Option<Id>,
    withContact: Tables,
    contactId: Id,
    existing: Option<Id>,
    owner: Option<Id>,
    referenced: bool)

  ghost function Decide(t: Tables, input: ApplyInput, row: ConversationRow, newContact: Id): (r: Result<Decision, ImportError>)
    ensures r.Ok? ==>
              && (r.value.existingContact.Some? ==> r.value.contactId in t.contacts)
              && (r.value.existing.Some? ==> r.value.existing.value in t.conversations)
  {
    var conversationKey := RefKey(ConversationEntity, row.sourceSystem, row.externalConversationId);
    var reference := if conversationKey in t.refs then Some(t.refs[conversationKey]) else None;
    var existingContact := FindContact(t.contacts, row.phone);
    var drift := Drift(t, reference, existingContact);
    if drift.Some? then Err(drift.value)
    else
      var withContact :- UpsertContact(t, input, row, existingContact, reference.Some?, newContact);
      var existing :- TargetConversation(withContact.0, input, row, reference, withContact.1);
      var owner :- UserNamed(input, row.ownerUsername);
      Ok(Decision(existingContact, withContact.0, withContact.1, existing, owner, reference.Some?))
  }

  ghost function ApplyConversation(
    t: Tables, input: ApplyInput, row: ConversationRow, messages: seq<MessageRow>, documents: seq<DocumentRow>,
    ids: NewIds, now: Instant)
    : Result<Tables, ImportError>
  {
    var d :- Decide(t, input, row, ids.contact);
    var oldRow := if d.existing.Some? then Some(t.conversations[d.existing.value]) else None;
    ApplyTo(t, d.withContact, input, row, messages, documents, d.existingContact, d.contactId, d.existing,
            ConversationData(input, row, messages, d.contactId, d.owner, oldRow), d.referenced, ids, now)
  }
}
