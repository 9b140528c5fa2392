/** The transitions of a conversation, as the matrix allows them. */
module ConversationMatrix {
  import opened Wrappers

  datatype Department =
    | ClientCompany
    | Commercial
    | Purchasing
    | Controlling
    | Personnel
    | Financial
    | Management
    | Maintenance
    | Monitoring
    | Operations
    | InformationTechnology

  datatype ConversationState = BotActive | WaitingForCustomer | SentToHuman | HumanActive | Closed

  datatype FlowStep =
    | MainMenu
    | CommercialMenu
    | QuoteDataCollection
    | QuoteSummaryConfirmation
    | QuoteSendPending
    | FollowUpMenu
    | HumanService
    | ClosedStep

  datatype RequestStatus = NotStarted | Collecting | Waiting | UnderReview | Approved | Rejected | Cancelled

  datatype Conversation = Conversation(
    department: Department,
    state: ConversationState,
    step: FlowStep,
    status: RequestStatus,
    resumeState: Option<ConversationState>,
    resumeStep: Option<FlowStep>)

  datatype Actor = User | Webhook | System

  datatype Transition =
    | PresentMainMenu
    | SelectCommercial
    | StartDepartmentContact(target: Option<Department>, option: Option<string>)
    | StartQuote
    | NewQuoteRequest
    | PresentQuoteSummary
    | CorrectQuote
    | ConfirmQuote
    | ProposalDeliveryConfirmed
    | ProposalResponseReceived
    | ReturnToMainMenu
    | TakeOver
    | ReturnToBot
    | Forward(target: Option<Department>)
    | MarkRead
    | Close(preventCloseWithApprovedQuote: bool)
    | CloseAfterRejection
    | ResumeAwaitedReply
    | ResumeContextualContact
    | ReopenAfterCustomerMessage

  function ActorsOf(t: Transition): set<Actor> {
    match t
    case ProposalResponseReceived => {Webhook, System}
    case TakeOver => {User}
    case ReturnToBot => {User}
    case Forward(_) => {User, System}
    case MarkRead => {User}
    case Close(_) => {User}
    case CloseAfterRejection => {User}
    case ResumeAwaitedReply => {Webhook, System}
    case ResumeContextualContact => {Webhook, System}
    case ReopenAfterCustomerMessage => {Webhook}
    case _ => {System}
  }

  /** Statuses of a confirmed quote that is being followed up. */
  predicate FollowedUp(status: RequestStatus) {
    status in {Waiting, UnderReview, Approved, Rejected}
  }

  /** The step at which the bot goes on after a person has served the conversation. */
  function BotStep(c: Conversation): FlowStep {
    if FollowedUp(c.status) then FollowUpMenu
    else
      var candidate := c.resumeStep.GetOr(c.step);
      if candidate !in {QuoteSendPending, HumanService, ClosedStep} then candidate
      else
        match c.status
        case Collecting => QuoteDataCollection
        case Waiting => QuoteSummaryConfirmation
        case NotStarted => MainMenu
        case Cancelled => MainMenu
        case _ => FollowUpMenu
  }

  predicate ValidOption(option: string) {
    option == "commercial-continuous-director" || (|option| == 1 && '2' <= option[0] <= '9')
  }

  predicate CanResumeContact(c: Conversation) {
    && FollowedUp(c.status)
    && ((c.state == SentToHuman && c.step == QuoteSendPending) || (c.state == BotActive && c.step in {QuoteSendPending, FollowUpMenu}))
  }

  /** Whether the transition is permitted from this state. */
  predicate Permitted(c: Conversation, t: Transition) {
    match t
    case PresentMainMenu => c.state == BotActive && c.step == MainMenu
    case SelectCommercial => c.state == BotActive && c.step == MainMenu
    case StartDepartmentContact(target, option) =>
      && c.state == BotActive && c.step in {MainMenu, CommercialMenu}
      && target.Some? && option.Some? && ValidOption(option.value)
    case StartQuote => c.state == BotActive && c.step == CommercialMenu && c.status == NotStarted
    case NewQuoteRequest => c.state == BotActive && c.step == FollowUpMenu && FollowedUp(c.status)
    case PresentQuoteSummary => c.state == BotActive && c.step == QuoteDataCollection && c.status == Collecting
    case CorrectQuote => c.state in {WaitingForCustomer, BotActive} && c.step == QuoteSummaryConfirmation && c.status == Waiting
    case ConfirmQuote => c.state in {WaitingForCustomer, BotActive} && c.step == QuoteSummaryConfirmation && c.status == Waiting
    case ProposalDeliveryConfirmed =>
      && c.state in {BotActive, SentToHuman, HumanActive}
      && c.department == Commercial && c.step == QuoteSendPending && c.status == UnderReview
    case ProposalResponseReceived =>
      c.state == WaitingForCustomer && c.department == Commercial && c.step == QuoteSendPending && c.status == Waiting
    case ReturnToMainMenu => c.state == BotActive
    case TakeOver => true
    case ReturnToBot => c.state == HumanActive
    case Forward(target) => c.state != Closed && target.Some?
    case MarkRead => c.state != Closed
    case Close(prevent) => c.state != Closed && !(prevent && c.status == Approved)
    case CloseAfterRejection => c.state != Closed && c.status == Rejected
    case ResumeAwaitedReply =>
      c.state == WaitingForCustomer && c.step == QuoteSummaryConfirmation && c.status == Waiting && c.resumeState == Some(BotActive)
    case ResumeContextualContact => CanResumeContact(c)
    case ReopenAfterCustomerMessage => c.state == Closed && c.step == ClosedStep
  }

  /** The state after a transition, with nothing left to resume. */
  function Moved(c: Conversation, state: ConversationState, step: FlowStep): Conversation {
    c.(state := state, step := step, resumeState := None, resumeStep := None)
  }

  function Outcome(c: Conversation, t: Transition): Conversation
    requires Permitted(c, t)
  {
    match t
    case PresentMainMenu => c.(resumeState := None, resumeStep := None)
    case SelectCommercial =>
      Moved(c.(department := Commercial), BotActive, if c.status == NotStarted then CommercialMenu else FollowUpMenu)
    case StartDepartmentContact(target, option) => Moved(c.(department := target.value), BotActive, MainMenu)
    case StartQuote => Moved(c.(department := Commercial, status := Collecting), BotActive, QuoteDataCollection)
    case NewQuoteRequest => Moved(c.(department := Commercial, status := Collecting), BotActive, QuoteDataCollection)
    case PresentQuoteSummary =>
      Conversation(c.department, WaitingForCustomer, QuoteSummaryConfirmation, Waiting, Some(BotActive), Some(QuoteSummaryConfirmation))
    case CorrectQuote => Moved(c.(status := Collecting), BotActive, QuoteDataCollection)
    case ConfirmQuote => Moved(c.(status := UnderReview), BotActive, FollowUpMenu)
    case ProposalDeliveryConfirmed => Moved(c.(status := Waiting), WaitingForCustomer, QuoteSendPending)
    case ProposalResponseReceived => Moved(c, SentToHuman, HumanService).(resumeStep := Some(FollowUpMenu))
    case ReturnToMainMenu => Moved(c, BotActive, MainMenu)
    case TakeOver => Moved(c, HumanActive, HumanService).(resumeStep := Some(BotStep(c)))
    case ReturnToBot => Moved(c, BotActive, BotStep(c))
    case Forward(target) => Moved(c.(department := target.value), SentToHuman, HumanService).(resumeStep := Some(BotStep(c)))
    case MarkRead => c
    case Close(_) => Moved(c, Closed, ClosedStep)
    case CloseAfterRejection => Moved(c, Closed, ClosedStep)
    case ResumeAwaitedReply => c.(state := BotActive, resumeState := None, resumeStep := None)
    case ResumeContextualContact => Moved(c.(department := Commercial), BotActive, FollowUpMenu)
    case ReopenAfterCustomerMessage => Moved(c.(department := Commercial), BotActive, MainMenu)
  }

  datatype TransitionError = Forbidden | NotPermitted

  /** One transition by an actor: its new state, or why it is refused. */
  function Resolve(c: Conversation, t: Transition, actor: Actor): Result<Conversation, TransitionError> {
    if actor !in ActorsOf(t) then Err(Forbidden)
    else if !Permitted(c, t) then Err(NotPermitted)
    else Ok(Outcome(c, t))
  }

  // ---- Runs ----------------------------------------------------------------------------------

  datatype Event = Event(transition: Transition, actor: Actor)

  /** Refused transitions change nothing. */
  function Next(c: Conversation, e: Event): Conversation {
    match Resolve(c, e.transition, e.actor)
    case Ok(d) => d
    case Err(_) => c
  }

  function After(c: Conversation, events: seq<Event>): Conversation {
    if events == [] then c else Next(After(c, events[..|events| - 1]), events[|events| - 1])
  }

  // ---- Where conversations start -----------------------------------------------------------------

  function Fresh(department: Department): Conversation {
    Conversation(department, BotActive, MainMenu, NotStarted, None, None)
  }

  /** The combinations that an import accepts; it never imports anything to resume. */
  predicate Importable(c: Conversation) {
    && c.resumeState.None? && c.resumeStep.None?
    && match (c.state, c.step)
       case (HumanActive, HumanService) => true
       case (SentToHuman, HumanService) => c.status != Approved
       case (BotActive, QuoteDataCollection) => c.status == Collecting
       case (WaitingForCustomer, QuoteSummaryConfirmation) => c.status == Waiting
       case (BotActive, FollowUpMenu) => c.status in {UnderReview, Approved}
       case (WaitingForCustomer, QuoteSendPending) => c.status == Waiting
       case (Closed, ClosedStep) => c.status in {Rejected, Cancelled, NotStarted}
       case (BotActive, MainMenu) => c.status == NotStarted
       case (BotActive, CommercialMenu) => c.status == NotStarted
       case _ => false
  }

  predicate Initial(c: Conversation) {
    Importable(c) || exists d :: c == Fresh(d)
  }

  // ---- What holds in every run ----------------------------------------------------------------------

  /** What a step says about the status. */
  predicate StepFits(step: FlowStep, status: RequestStatus) {
    && (step == QuoteDataCollection ==> status == Collecting)
    && (step == QuoteSummaryConfirmation ==> status == Waiting)
    && (step == CommercialMenu ==> status == NotStarted)
  }

  predicate Consistent(c: Conversation) {
    && (c.state == Closed <==> c.step == ClosedStep)
    && (c.state in {HumanActive, SentToHuman} <==> c.step == HumanService)
    && (c.state == WaitingForCustomer ==> c.step in {QuoteSummaryConfirmation, QuoteSendPending} && c.status == Waiting)
    && (c.state == BotActive ==> c.step != QuoteSendPending)
    && StepFits(c.step, c.status)
    && (c.resumeStep.Some? ==> StepFits(c.resumeStep.value, c.status) && c.resumeStep.value !in {QuoteSendPending, HumanService, ClosedStep})
    && (c.resumeState.Some? ==> c.resumeState.value == BotActive && c.state == WaitingForCustomer && c.step == QuoteSummaryConfirmation)
  }

  lemma InitialConsistent(c: Conversation)
    requires Initial(c)
    ensures Consistent(c)
  {
  }

  lemma NextConsistent(c: Conversation, e: Event)
    requires Consistent(c)
    ensures Consistent(Next(c, e))
  {
  }

  lemma NextGoesOn(c: Conversation, e: Event)
    ensures Next(c, e).status == NotStarted ==> c.status == NotStarted
  {
  }

  lemma {:induction false} AlwaysConsistent(c: Conversation, events: seq<Event>)
    requires Consistent(c)
    ensures Consistent(After(c, events))
  {
    if events != [] {
      AlwaysConsistent(c, events[..|events| - 1]);
      NextConsistent(After(c, events[..|events| - 1]), events[|events| - 1]);
    }
  }

  /** Every run from a fresh or an imported conversation stays consistent. */
  lemma {:induction false} RunConsistent(c: Conversation, events: seq<Event>)
    requires Initial(c)
    ensures Consistent(After(c, events))
  {
    InitialConsistent(c);
    AlwaysConsistent(c, events);
  }

  /** Once left, `NotStarted` is not reached again at any later point of any run. */
  lemma {:induction false} NeverStartsOver(c: Conversation, events: seq<Event>, n: nat)
    requires n <= |events| && After(c, events).status == NotStarted
    ensures After(c, events[..n]).status == NotStarted
  {
    if n < |events| {
      var earlier := events[..|events| - 1];
      NextGoesOn(After(c, earlier), events[|events| - 1]);
      NeverStartsOver(c, earlier, n);
      assert earlier[..n] == events[..n];
    } else {
      assert events[..n] == events;
    }
  }

  /** An imported summary cannot take the resumption of an awaited reply: the import keeps nothing to resume. */
  lemma ImportedSummaryNotResumed(c: Conversation, actor: Actor)
    requires Importable(c)
    ensures Resolve(c, ResumeAwaitedReply, actor).Err?
  {
  }

  // ---- Handing over to a person and back -----------------------------------------------------------------

  predicate Handover(t: Transition) {
    t.TakeOver? || t.Forward? || t.MarkRead?
  }

  lemma HandoverKeepsBotStep(c: Conversation, e: Event)
    requires Handover(e.transition)
    ensures BotStep(Next(c, e)) == BotStep(c) && Next(c, e).status == c.status
  {
  }

  lemma {:induction false} HandoversKeepBotStep(c: Conversation, events: seq<Event>)
    requires forall e | e in events :: Handover(e.transition)
    ensures BotStep(After(c, events)) == BotStep(c) && After(c, events).status == c.status
  {
    if events != [] {
      HandoversKeepBotStep(c, events[..|events| - 1]);
      assert events[|events| - 1] in events;
      HandoverKeepsBotStep(After(c, events[..|events| - 1]), events[|events| - 1]);
    }
  }

  /** However often a conversation is passed on, returning it to the bot lands where the bot had left it. */
  lemma {:induction false} ReturnsWhereItWas(c: Conversation, events: seq<Event>)
    requires forall e | e in events :: Handover(e.transition)
    ensures var d := After(c, events);
            && Permitted(d, TakeOver) && Permitted(Outcome(d, TakeOver), ReturnToBot)
            && var back := Outcome(Outcome(d, TakeOver), ReturnToBot);
               && back.state == BotActive && back.step == BotStep(c) && back.status == c.status
               && back.resumeState.None? && back.resumeStep.None?
  {
    HandoversKeepBotStep(c, events);
    HandoverKeepsBotStep(After(c, events), Event(TakeOver, User));
  }

  /** In human hands, or closed from there. */
  predicate Handed(c: Conversation) {
    (c.state in {HumanActive, SentToHuman} && c.step == HumanService) || (c.state == Closed && c.step == ClosedStep)
  }

  lemma StaysHanded(c: Conversation, e: Event)
    requires Handed(c) && !e.transition.ReturnToBot? && !e.transition.ReopenAfterCustomerMessage?
    ensures Handed(Next(c, e))
  {
  }

  /** From a take-over until the return to the bot or a reopening, the conversation stays in human hands. */
  lemma {:induction false} HandedUntilReturned(c: Conversation, events: seq<Event>)
    requires forall e | e in events :: !e.transition.ReturnToBot? && !e.transition.ReopenAfterCustomerMessage?
    ensures Handed(After(Outcome(c, TakeOver), events))
  {
    if events != [] {
      HandedUntilReturned(c, events[..|events| - 1]);
      assert events[|events| - 1] in events;
      StaysHanded(After(Outcome(c, TakeOver), events[..|events| - 1]), events[|events| - 1]);
    }
  }
}
