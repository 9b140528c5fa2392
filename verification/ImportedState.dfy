/** What an import leaves is a state from which the conversation can go on: the importer and the matrix together. */
module ImportedState {
  import opened Wrappers
  import Db = ImportTables
  import Commit = ImportApply
  import Written = ImportWritten
  import opened ConversationMatrix
  import opened AutomationFlow

  // ---- The names of the states, as rows and packages have them ----------------------------

  function StateName(s: ConversationState): string {
    match s
    case BotActive => "bot-active"
    case WaitingForCustomer => "waiting-for-customer"
    case SentToHuman => "sent-to-human"
    case HumanActive => "human-active"
    case Closed => "closed"
  }

  function StepName(s: FlowStep): string {
    match s
    case MainMenu => "main-menu"
    case CommercialMenu => "commercial-menu"
    case QuoteDataCollection => "quote-data-collection"
    case QuoteSummaryConfirmation => "quote-summary-confirmation"
    case QuoteSendPending => "quote-send-pending"
    case FollowUpMenu => "commercial-follow-up-menu"
    case HumanService => "human-service"
    case ClosedStep => "closed"
  }

  function StatusName(s: RequestStatus): string {
    match s
    case NotStarted => "not-started"
    case Collecting => "collecting-information"
    case Waiting => "waiting-for-customer"
    case UnderReview => "under-review"
    case Approved => "approved"
    case Rejected => "rejected"
    case Cancelled => "cancelled"
  }

  /** The package row has the state of `c`. */
  predicate Shows(row: Db.ConversationRow, c: Conversation) {
    row.conversationState == StateName(c.state) && row.flowStep == StepName(c.step) && row.requestStatus == StatusName(c.status)
  }

  /** The database row has the state of `c`, and the same to resume. */
  predicate Holds(stored: Db.Conversation, c: Conversation) {
    && stored.conversationState == StateName(c.state) && stored.flowStep == StepName(c.step) && stored.requestStatus == StatusName(c.status)
    && stored.resumeState == (if c.resumeState.Some? then Some(StateName(c.resumeState.value)) else None)
    && stored.resumeFlowStep == (if c.resumeStep.Some? then Some(StepName(c.resumeStep.value)) else None)
  }

  lemma StateNamesDiffer(a: ConversationState, b: ConversationState)
    ensures StateName(a) == StateName(b) ==> a == b
  {
  }

  lemma StepNamesDiffer(a: FlowStep, b: FlowStep)
    ensures StepName(a) == StepName(b) ==> a == b
  {
  }

  lemma StatusNamesDiffer(a: RequestStatus, b: RequestStatus)
    ensures StatusName(a) == StatusName(b) ==> a == b
  {
  }

  /** Apart from the department, a database row holds one state only. */
  lemma HoldsOne(stored: Db.Conversation, c: Conversation, d: Conversation)
    requires Holds(stored, c) && Holds(stored, d)
    ensures c == d.(department := c.department)
  {
    StateNamesDiffer(c.state, d.state);
    StepNamesDiffer(c.step, d.step);
    StatusNamesDiffer(c.status, d.status);
    if c.resumeState.Some? {
      StateNamesDiffer(c.resumeState.value, d.resumeState.value);
    }
    if c.resumeStep.Some? {
      StepNamesDiffer(c.resumeStep.value, d.resumeStep.value);
    }
  }

  /** A state that a run may reach, and in which nothing the bot plans is refused. */
  predicate Sound(c: Conversation, m: Inbound) {
    && Consistent(c)
    && (WellAddressed(c, m) ==> SystemMay(c, Decide(c, m).before) && SystemMay(c, Decide(c, m).afterSend))
  }

  lemma RunsSound(c: Conversation, events: seq<Event>, m: Inbound)
    requires Initial(c)
    ensures Sound(After(c, events), m)
  {
    RunConsistent(c, events);
    if WellAddressed(After(c, events), m) {
      PlanPermitted(After(c, events), m);
    }
  }

  /** A committed row holds the importable state of the package row, and every run from there stays sound. */
  lemma ImportedConversationsGoOn(
    t: Db.Tables, input: Commit.ApplyInput, row: Db.ConversationRow, messages: seq<Db.MessageRow>, documents: seq<Db.DocumentRow>,
    ids: Commit.NewIds, now: Db.Instant, c: Conversation, events: seq<Event>, m: Inbound)
    requires Db.WellFormed(t) && Commit.ApplyConversation(t, input, row, messages, documents, ids, now).Ok?
    requires Importable(c) && Shows(row, c)
    ensures var b := Commit.ApplyConversation(t, input, row, messages, documents, ids, now).value;
            && |b.records| > 0
            && var v := b.records[|b.records| - 1].conversationId;
               && v in b.conversations && Holds(b.conversations[v], c)
               && forall d | Holds(b.conversations[v], d) :: Sound(After(d, events), m)
  {
    Written.ApplyWrites(t, input, row, messages, documents, ids, now);
    var b := Commit.ApplyConversation(t, input, row, messages, documents, ids, now).value;
    var v := b.records[|t.records|].conversationId;
    forall d | Holds(b.conversations[v], d)
      ensures Sound(After(d, events), m)
    {
      HoldsOne(b.conversations[v], c, d);
      RunsSound(d, events, m);
    }
  }
}
