/**
  The rows of one tenant that the WhatsApp importer reads and writes, the JSON
  snapshots it keeps of them, and the columns that a rollback writes back.

  A table is a finite map from primary key to row. Unique keys other than the
  primary key are part of `WellFormed`.
 */
module ImportTables {
  import opened Wrappers

  type Id = nat
  type Instant = int // milliseconds since the epoch

  const DAY_MS: int := 86_400_000

  datatype Json =
    | JNull
    | JBool(flag: bool)
    | JNumber(number: int)
    | JText(text: string)
    | JList(items: seq<Json>)
    | JObject(fields: map<string, Json>)

  // ---- Rows of the import package ------------------------------------------

  datatype ConversationRow = ConversationRow(
    externalConversationId: string,
    sourceSystem: string,
    phone: string,
    contactName: Option<string>,
    department: string,
    ownerUsername: Option<string>,
    conversationState: string,
    flowStep: string,
    requestStatus: string,
    lastInteractionAt: Instant,
    lastMessagePreview: Option<string>,
    unreadCount: int,
    quoteSequence: Option<int>,
    quoteContactName: Option<string>,
    quoteDocument: Option<string>,
    quoteEmail: Option<string>,
    serviceType: Option<string>,
    tripType: Option<string>,
    origin: Option<string>,
    destination: Option<string>,
    departureAt: Option<Instant>,
    returnAt: Option<Instant>,
    passengerCount: Option<int>,
    vehicleType: Option<string>,
    vehicleAtDisposal: Option<bool>,
    localTransfers: Option<bool>,
    transferDetails: Option<string>,
    notes: Option<string>,
    confirmedAt: Option<Instant>,
    decisionReason: Option<string>,
    decidedAt: Option<Instant>)

  datatype MessageRow = MessageRow(
    externalMessageId: string,
    direction: string,
    kind: string,
    occurredAt: Instant,
    deliveryStatus: string,
    text: Option<string>,
    mediaReference: Option<string>,
    actorUsername: Option<string>,
    providerMessageId: Option<string>,
    correlationId: Option<string>)

  /** `contentIntact`: the file still has the hash of the dry run and starts with `%PDF-`. */
  datatype DocumentRow = DocumentRow(
    quoteSequence: int,
    externalDocumentId: string,
    fileName: string,
    mimeType: string,
    documentStatus: string,
    sentAt: Option<Instant>,
    providerMessageId: Option<string>,
    sha256: string,
    contentIntact: bool)

  /** What a payload hash is computed from; the hash is taken as injective. */
  datatype Payload =
    | MessagePayload(externalConversationId: string, message: MessageRow)
    | DocumentPayload(externalConversationId: string, document: DocumentRow)

  // ---- Rows of the database ------------------------------------------------

  datatype Contact = Contact(
    phone: string,
    phoneDisplay: string,
    displayName: Option<string>,
    isSaved: bool)

  datatype Conversation = Conversation(
    channelId: Id,
    contactId: Id,
    department: string,
    conversationState: string,
    flowStep: string,
    requestStatus: string,
    resumeState: Option<string>,
    resumeFlowStep: Option<string>,
    assignedToUserId: Option<Id>,
    unreadCount: int,
    version: int,
    mainMenuPresentedAt: Option<Instant>,
    followUpMenuPresentedAt: Option<Instant>,
    contextualFollowUpAt: Option<Instant>,
    departmentContactOption: Option<string>,
    lastInboundAt: Option<Instant>,
    lastOutboundAt: Option<Instant>,
    lastMessagePreview: Option<string>,
    closedAt: Option<Instant>)

  datatype Quote = Quote(
    conversationId: Id,
    sequence: int,
    status: string,
    contactName: Option<string>,
    document: Option<string>,
    email: Option<string>,
    serviceType: Option<string>,
    origin: Option<string>,
    destination: Option<string>,
    departureDate: Option<Instant>,
    departureAt: Option<Instant>,
    returnDate: Option<Instant>,
    returnAt: Option<Instant>,
    passengerCount: Option<int>,
    vehicleType: Option<string>,
    vehicleAtDisposal: Option<bool>,
    localTransfers: Option<bool>,
    notes: Option<string>,
    structuredData: Json,
    confirmedAt: Option<Instant>,
    confirmedSummary: Json,
    confirmedVersion: Option<int>,
    requestedByUserId: Option<Id>,
    decisionReason: Option<string>,
    decidedAt: Option<Instant>,
    decidedByUserId: Option<Id>,
    version: int)

  /** The correlation id is a hash of source system and external id, taken as injective. */
  datatype Correlation = Native(name: string) | Imported(sourceSystem: string, externalMessageId: string)

  datatype Message = Message(
    conversationId: Id,
    channelId: Id,
    contactId: Id,
    actorUserId: Option<Id>,
    providerMessageId: Option<string>,
    direction: string,
    deliveryStatus: string,
    kind: string,
    text: Option<string>,
    media: Json,
    correlation: Correlation,
    occurredAt: Instant,
    createdAt: Instant)

  datatype Document = Document(
    conversationId: Id,
    quoteRequestId: Id,
    uploadedByUserId: Id,
    sentByUserId: Option<Id>,
    sequence: int,
    status: string,
    fileName: string,
    sha256: string,
    providerMessageId: Option<string>,
    sentAt: Option<Instant>,
    createdAt: Instant)

  datatype Transition = Transition(conversationId: Id, createdAt: Instant)

  datatype EntityType = ConversationEntity | MessageEntity | DocumentEntity

  /** Unique key of an external reference within the tenant. */
  datatype RefKey = RefKey(entityType: EntityType, sourceSystem: string, externalId: string)

  datatype ExternalRef = ExternalRef(id: Id, batchId: Id, internalId: Id, payloadHash: Option<Payload>)

  // ---- Snapshots ----------------------------------------------------------

  datatype JsonDate = NoDate | IsoInstant(ms: Instant) | IsoDay(day: int)

  datatype ContactSnapshot = ContactSnapshot(id: Id, displayName: Option<string>)

  datatype ConversationSnapshot = ConversationSnapshot(
    id: Id,
    department: string,
    conversationState: string,
    flowStep: string,
    requestStatus: string,
    resumeState: Option<string>,
    resumeFlowStep: Option<string>,
    assignedToUserId: Option<Id>,
    unreadCount: int,
    version: int,
    mainMenuPresentedAt: JsonDate,
    followUpMenuPresentedAt: JsonDate,
    contextualFollowUpAt: JsonDate,
    departmentContactOption: Option<string>,
    lastInboundAt: JsonDate,
    lastOutboundAt: JsonDate,
    lastMessagePreview: Option<string>,
    closedAt: JsonDate)

  datatype QuoteSnapshot = QuoteSnapshot(
    id: Id,
    sequence: int,
    status: string,
    contactName: Option<string>,
    document: Option<string>,
    email: Option<string>,
    serviceType: Option<string>,
    origin: Option<string>,
    destination: Option<string>,
    departureDate: JsonDate,
    departureAt: JsonDate,
    returnDate: JsonDate,
    returnAt: JsonDate,
    passengerCount: Option<int>,
    vehicleType: Option<string>,
    vehicleAtDisposal: Option<bool>,
    localTransfers: Option<bool>,
    notes: Option<string>,
    structuredData: Json,
    confirmedAt: JsonDate,
    confirmedSummary: Json,
    confirmedVersion: Option<int>,
    requestedByUserId: Option<Id>,
    decisionReason: Option<string>,
    decidedAt: JsonDate,
    decidedByUserId: Option<Id>,
    version: int)

  datatype Snapshot = Snapshot(
    contact: Option<ContactSnapshot>,
    conversation: Option<ConversationSnapshot>,
    quoteRequest: Option<QuoteSnapshot>)

  datatype CreatedIds = CreatedIds(
    contactId: Option<Id>,
    conversationId: Option<Id>,
    quoteRequestId: Option<Id>,
    messageIds: seq<Id>,
    documentIds: seq<Id>,
    externalRefIds: seq<Id>)

  datatype RecordStatus = Applied | RolledBack

  datatype Record = Record(
    id: Id,
    batchId: Id,
    sourceSystem: string,
    externalConversationId: string,
    conversationId: Id,
    contactId: Id,
    updated: bool,
    before: Snapshot,
    after: Snapshot,
    created: CreatedIds,
    status: RecordStatus,
    appliedAt: Instant)

  datatype Tables = Tables(
    contacts: map<Id, Contact>,
    conversations: map<Id, Conversation>,
    quotes: map<Id, Quote>,
    messages: map<Id, Message>,
    documents: map<Id, Document>,
    refs: map<RefKey, ExternalRef>,
    transitions: map<Id, Transition>,
    records: seq<Record>)

  // ---- Constraints of the schema, one predicate for each --------------------

  ghost predicate UniquePhones(contacts: map<Id, Contact>) {
    forall c, d | c in contacts && d in contacts && contacts[c].phone == contacts[d].phone :: c == d
  }

  ghost predicate UniqueLinks(conversations: map<Id, Conversation>) {
    forall v, w | v in conversations && w in conversations && SameLinks(conversations[v], conversations[w]) :: v == w
  }

  ghost predicate UniqueSequences(quotes: map<Id, Quote>) {
    forall q, p | q in quotes && p in quotes && SameQuoteKey(quotes[q], quotes[p]) :: q == p
  }

  ghost predicate UniqueRefIds(refs: map<RefKey, ExternalRef>) {
    forall k, l | k in refs && l in refs && refs[k].id == refs[l].id :: k == l
  }

  ghost predicate UniqueCorrelations(messages: map<Id, Message>) {
    forall m, n | m in messages && n in messages && messages[m].correlation == messages[n].correlation :: m == n
  }

  ghost predicate ConversationLinks(conversations: map<Id, Conversation>, contacts: set<Id>) {
    forall v | v in conversations :: conversations[v].contactId in contacts
  }

  ghost predicate QuoteLinks(quotes: map<Id, Quote>, conversations: set<Id>) {
    forall q | q in quotes :: quotes[q].conversationId in conversations
  }

  ghost predicate MessageLinks(messages: map<Id, Message>, conversations: set<Id>, contacts: set<Id>) {
    forall m | m in messages :: messages[m].conversationId in conversations && messages[m].contactId in contacts
  }

  ghost predicate DocumentLinks(documents: map<Id, Document>, conversations: set<Id>, quotes: set<Id>) {
    forall d | d in documents :: documents[d].conversationId in conversations && documents[d].quoteRequestId in quotes
  }

  ghost predicate TransitionLinks(transitions: map<Id, Transition>, conversations: set<Id>) {
    forall x | x in transitions :: transitions[x].conversationId in conversations
  }

  ghost predicate UniqueKeys(t: Tables) {
    && UniquePhones(t.contacts) && UniqueLinks(t.conversations) && UniqueSequences(t.quotes)
    && UniqueRefIds(t.refs) && UniqueCorrelations(t.messages)
  }

  ghost predicate ForeignKeys(t: Tables) {
    && ConversationLinks(t.conversations, t.contacts.Keys)
    && QuoteLinks(t.quotes, t.conversations.Keys)
    && MessageLinks(t.messages, t.conversations.Keys, t.contacts.Keys)
    && DocumentLinks(t.documents, t.conversations.Keys, t.quotes.Keys)
    && TransitionLinks(t.transitions, t.conversations.Keys)
  }

  ghost predicate WellFormed(t: Tables) {
    UniqueKeys(t) && ForeignKeys(t)
  }

  /** Same conversation, contact and channel: the columns a snapshot does not hold. */
  predicate SameLinks(a: Conversation, b: Conversation) {
    a.channelId == b.channelId && a.contactId == b.contactId
  }

  predicate SameQuoteKey(a: Quote, b: Quote) {
    a.conversationId == b.conversationId && a.sequence == b.sequence
  }

  /** Two maps treat key `k` alike. */
  ghost predicate SameAt<K, V>(a: map<K, V>, b: map<K, V>, k: K) {
    (k in a <==> k in b) && (k in a ==> a[k] == b[k])
  }

  // ---- Taking and restoring snapshots --------------------------------------

  function ToIso(d: Option<Instant>): JsonDate {
    if d.Some? then IsoInstant(d.value) else NoDate
  }

  /** The first ten characters of the ISO form: the calendar day, time dropped. */
  function PresentDateOnly(d: Option<Instant>): JsonDate {
    if d.Some? then IsoDay(d.value / DAY_MS) else NoDate
  }

  /** A day without a time reads back as midnight UTC. */
  function RestoreDate(j: JsonDate): Option<Instant> {
    match j
    case NoDate => None
    case IsoInstant(ms) => Some(ms)
    case IsoDay(day) => Some(day * DAY_MS)
  }

  function SelectContact(id: Id, row: Contact): ContactSnapshot {
    ContactSnapshot(id, row.displayName)
  }

  function SelectConversation(id: Id, row: Conversation): ConversationSnapshot {
    ConversationSnapshot(
      id, row.department, row.conversationState, row.flowStep, row.requestStatus,
      row.resumeState, row.resumeFlowStep, row.assignedToUserId, row.unreadCount, row.version,
      ToIso(row.mainMenuPresentedAt), ToIso(row.followUpMenuPresentedAt), ToIso(row.contextualFollowUpAt),
      row.departmentContactOption, ToIso(row.lastInboundAt), ToIso(row.lastOutboundAt),
      row.lastMessagePreview, ToIso(row.closedAt))
  }

  function SelectQuote(id: Id, row: Quote): QuoteSnapshot {
    QuoteSnapshot(
      id, row.sequence, row.status, row.contactName, row.document, row.email, row.serviceType,
      row.origin, row.destination, PresentDateOnly(row.departureDate), ToIso(row.departureAt),
      PresentDateOnly(row.returnDate), ToIso(row.returnAt), row.passengerCount, row.vehicleType,
      row.vehicleAtDisposal, row.localTransfers, row.notes, row.structuredData, ToIso(row.confirmedAt),
      row.confirmedSummary, row.confirmedVersion, row.requestedByUserId, row.decisionReason,
      ToIso(row.decidedAt), row.decidedByUserId, row.version)
  }

  /** The columns that a rollback writes back to a conversation that existed before. */
  function RestoreConversation(row: Conversation, s: ConversationSnapshot): Conversation {
    row.(department := s.department,
         conversationState := s.conversationState,
         flowStep := s.flowStep,
         requestStatus := s.requestStatus,
         resumeState := s.resumeState,
         resumeFlowStep := s.resumeFlowStep,
         assignedToUserId := s.assignedToUserId,
         unreadCount := s.unreadCount,
         version := s.version,
         mainMenuPresentedAt := RestoreDate(s.mainMenuPresentedAt),
         followUpMenuPresentedAt := RestoreDate(s.followUpMenuPresentedAt),
         contextualFollowUpAt := RestoreDate(s.contextualFollowUpAt),
         departmentContactOption := s.departmentContactOption,
         lastInboundAt := RestoreDate(s.lastInboundAt),
         lastOutboundAt := RestoreDate(s.lastOutboundAt),
         lastMessagePreview := s.lastMessagePreview,
         closedAt := RestoreDate(s.closedAt))
  }

  /** The columns that a rollback writes back to a quote; a null `structuredData` becomes `{}`. */
  function RestoreQuote(row: Quote, s: QuoteSnapshot): Quote {
    row.(status := s.status,
         contactName := s.contactName,
         document := s.document,
         email := s.email,
         serviceType := s.serviceType,
         origin := s.origin,
         destination := s.destination,
         departureDate := RestoreDate(s.departureDate),
         departureAt := RestoreDate(s.departureAt),
         returnDate := RestoreDate(s.returnDate),
         returnAt := RestoreDate(s.returnAt),
         passengerCount := s.passengerCount,
         vehicleType := s.vehicleType,
         vehicleAtDisposal := s.vehicleAtDisposal,
         localTransfers := s.localTransfers,
         notes := s.notes,
         structuredData := if s.structuredData == JNull then JObject(map[]) else s.structuredData,
         confirmedAt := RestoreDate(s.confirmedAt),
         confirmedSummary := s.confirmedSummary,
         confirmedVersion := s.confirmedVersion,
         requestedByUserId := s.requestedByUserId,
         decisionReason := s.decisionReason,
         decidedAt := RestoreDate(s.decidedAt),
         decidedByUserId := s.decidedByUserId,
         version := s.version)
  }

  /** A date that has no time of day, or no date at all. */
  predicate AtMidnight(d: Option<Instant>) {
    d.Some? ==> d.value % DAY_MS == 0
  }

  /** What the schema's date-only columns and a non-null `structuredData` guarantee of a quote. */
  predicate Restorable(row: Quote) {
    row.structuredData != JNull && AtMidnight(row.departureDate) && AtMidnight(row.returnDate)
  }

  /** Whatever happened to the snapshot columns since, restoring gives the row of the snapshot back. */
  lemma RestoreConversationExact(id: Id, before: Conversation, now: Conversation)
    ensures RestoreConversation(now, SelectConversation(id, before)) == before <==> SameLinks(now, before)
  {
    var restored := RestoreConversation(now, SelectConversation(id, before));
    assert SameLinks(now, before) ==> restored == before;
  }

  /** Restoring a quote is exact for restorable rows, and for no others. */
  lemma RestoreQuoteExact(id: Id, before: Quote, now: Quote)
    requires SameQuoteKey(now, before)
    ensures RestoreQuote(now, SelectQuote(id, before)) == before <==> Restorable(before)
  {
    var restored := RestoreQuote(now, SelectQuote(id, before));
    assert restored.departureDate == before.departureDate <==> AtMidnight(before.departureDate);
    assert restored.returnDate == before.returnDate <==> AtMidnight(before.returnDate);
    assert Restorable(before) ==> restored == before;
  }

  /** A quote whose `structuredData` is null does not come back: the rollback leaves `{}`. */
  lemma NullStructuredDataIsLost(id: Id, before: Quote, now: Quote)
    requires before.structuredData == JNull
    ensures RestoreQuote(now, SelectQuote(id, before)).structuredData == JObject(map[])
    ensures RestoreQuote(now, SelectQuote(id, before)) != before
  {
  }
}
