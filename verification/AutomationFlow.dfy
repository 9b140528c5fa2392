/** What the bot does with an inbound message, and which transition it asks for. */
module AutomationFlow {
  import opened Wrappers
  import opened ConversationMatrix

  /** `undefined`, `null`, or a time: the three are told apart. */
  datatype Presented = Unset | Never | At(time: int)

  datatype AiMode = EventualQuote | ContinuousPretriage | CorrectionOrConfirmation

  /** What the driver looks at besides the conversation itself. */
  datatype Inbound = Inbound(
    humanNotification: bool,
    automationAllowed: bool,
    canGenerateReply: bool,
    canSendReply: bool,
    contextualTransition: bool,
    isFirstContact: bool,
    reopenedAfterClosure: bool,
    isText: bool,
    text: string,
    option: string,
    hasAssignee: bool,
    mainMenu: Presented,
    followUpMenu: Presented,
    contactOption: Option<string>,
    hasQuote: bool,
    continuousQuote: bool)

  datatype Kind = StaticReply | Ai(mode: AiMode) | HumanNotification | Suppressed

  datatype Reply =
    | NoReply
    | MainMenuText(notice: bool)
    | InvalidMainMenuText
    | CommercialMenuText
    | InvalidCommercialMenuText
    | FollowUpMenuText
    | ContactPrompt
    | ContactNotice(department: Department)
    | Handoff
    | InvalidHandoff
    | UnsupportedKind
    | TextRequired

  datatype Plan = Plan(kind: Kind, reply: Reply, before: Option<Transition>, afterSend: Option<Transition>)

  function Say(reply: Reply): Plan {
    Plan(StaticReply, reply, None, None)
  }

  function Notify(): Plan {
    Plan(HumanNotification, NoReply, None, None)
  }

  function Suppress(): Plan {
    Plan(Suppressed, NoReply, None, None)
  }

  /** The departments that can be contacted, by the option that is typed. */
  function ContactOf(option: string): Option<Department> {
    match option
    case "commercial-continuous-director" => Some(Management)
    case "2" => Some(Purchasing)
    case "3" => Some(Controlling)
    case "4" => Some(Personnel)
    case "5" => Some(Financial)
    case "6" => Some(Management)
    case "7" => Some(Maintenance)
    case "8" => Some(Monitoring)
    case "9" => Some(Operations)
    case _ => None
  }

  predicate Number(option: string) {
    option != "" && forall c | c in option :: '0' <= c <= '9'
  }

  function DecideMainMenu(c: Conversation, m: Inbound): Plan {
    if m.option == "1" then
      Plan(StaticReply, if m.hasQuote && FollowedUp(c.status) then FollowUpMenuText else CommercialMenuText, Some(SelectCommercial), None)
    else if ContactOf(m.option).Some? then
      Plan(StaticReply, ContactPrompt, Some(StartDepartmentContact(ContactOf(m.option), Some(m.option))), None)
    else Say(if Number(m.option) then InvalidMainMenuText else MainMenuText(false))
  }

  function DecideCommercialMenu(m: Inbound): Plan {
    if m.option == "1" then Plan(Ai(EventualQuote), NoReply, Some(StartQuote), None)
    else if m.option == "2" then
      Plan(StaticReply, ContactPrompt, Some(StartDepartmentContact(Some(Management), Some("commercial-continuous-director"))), None)
    else if m.option in {"3", "4", "5", "6"} then Plan(StaticReply, Handoff, None, Some(Forward(Some(Commercial))))
    else if m.option == "0" then Plan(StaticReply, MainMenuText(false), Some(ReturnToMainMenu), None)
    else Say(InvalidCommercialMenuText)
  }

  function DecideFollowUpMenu(m: Inbound): Plan {
    if m.option == "0" then Plan(StaticReply, MainMenuText(false), Some(ReturnToMainMenu), None)
    else Plan(StaticReply, if m.option in {"1", "2", "3", "4"} then Handoff else InvalidHandoff, None, Some(Forward(Some(Commercial))))
  }

  function DecideDepartmentContact(option: string, m: Inbound): Plan {
    match ContactOf(option)
    case None => Plan(StaticReply, MainMenuText(false), Some(ReturnToMainMenu), None)
    case Some(department) =>
      if m.text == "" then Say(ContactPrompt) else Plan(StaticReply, ContactNotice(department), None, Some(ReturnToMainMenu))
  }

  predicate HumanBlocked(c: Conversation, m: Inbound) {
    m.humanNotification || c.state in {HumanActive, SentToHuman} || c.step == HumanService || m.hasAssignee
  }

  predicate InitialMenuRequired(m: Inbound) {
    (m.isFirstContact || m.reopenedAfterClosure) && !m.mainMenu.At?
  }

  function DecideStep(c: Conversation, m: Inbound): Plan {
    match c.step
    case MainMenu => DecideMainMenu(c, m)
    case CommercialMenu => DecideCommercialMenu(m)
    case QuoteDataCollection => Plan(Ai(if m.continuousQuote then ContinuousPretriage else EventualQuote), NoReply, None, None)
    case QuoteSummaryConfirmation => Plan(Ai(CorrectionOrConfirmation), NoReply, None, None)
    case ClosedStep => Suppress()
    case _ => Notify()
  }

  function Decide(c: Conversation, m: Inbound): Plan {
    if HumanBlocked(c, m) then Notify()
    else if !m.automationAllowed || !m.canGenerateReply || !m.canSendReply || c.state != BotActive then Suppress()
    else if InitialMenuRequired(m) then Plan(StaticReply, MainMenuText(!m.isText), None, Some(PresentMainMenu))
    else if !m.isText then Say(UnsupportedKind)
    else if m.contactOption.Some? && m.contactOption.value != "" then DecideDepartmentContact(m.contactOption.value, m)
    else if c.step == FollowUpMenu then
      if m.contextualTransition || m.followUpMenu == Never then Say(FollowUpMenuText) else DecideFollowUpMenu(m)
    else if m.text == "" then Say(TextRequired)
    else DecideStep(c, m)
  }

  // ---- The driver and the matrix -----------------------------------------------------------

  /** A first contact or a reopened conversation that has not seen the menu sits at the main menu. */
  predicate WellAddressed(c: Conversation, m: Inbound) {
    InitialMenuRequired(m) ==> c.step == MainMenu
  }

  predicate SystemMay(c: Conversation, t: Option<Transition>) {
    t.Some? ==> Resolve(c, t.value, System).Ok?
  }

  lemma ContactOptionsValid(option: string)
    requires ContactOf(option).Some?
    ensures ValidOption(option)
  {
  }

  /** No plan names a transition that the matrix would refuse to the bot. */
  lemma PlanPermitted(c: Conversation, m: Inbound)
    requires Consistent(c) && WellAddressed(c, m)
    ensures SystemMay(c, Decide(c, m).before) && SystemMay(c, Decide(c, m).afterSend)
    ensures Decide(c, m).before.None? || Decide(c, m).afterSend.None?
  {
    if ContactOf(m.option).Some? {
      ContactOptionsValid(m.option);
    }
  }

  /** In every run, whatever the driver is asked, what it plans is permitted. */
  lemma RunsPermitted(c: Conversation, events: seq<Event>, m: Inbound)
    requires Initial(c) && WellAddressed(After(c, events), m)
    ensures var d := After(c, events); SystemMay(d, Decide(d, m).before) && SystemMay(d, Decide(d, m).afterSend)
  {
    RunConsistent(c, events);
    PlanPermitted(After(c, events), m);
  }

  /** A plan that answers the customer, itself or through the model. */
  predicate Answers(p: Plan) {
    p.kind.StaticReply? || p.kind.Ai? || p.before.Some? || p.afterSend.Some?
  }

  lemma HandedIsSilent(c: Conversation, m: Inbound)
    requires Handed(c)
    ensures !Answers(Decide(c, m)) && Decide(c, m).reply == NoReply
  {
  }

  /** From a take-over until the return to the bot or a reopening, the bot never answers. */
  lemma SilentUntilReturned(c: Conversation, events: seq<Event>, m: Inbound)
    requires forall e | e in events :: !e.transition.ReturnToBot? && !e.transition.ReopenAfterCustomerMessage?
    ensures !Answers(Decide(After(Outcome(c, TakeOver), events), m))
  {
    HandedUntilReturned(c, events);
    HandedIsSilent(After(Outcome(c, TakeOver), events), m);
  }

  /**
    The menu that is sent after option 1 and the menu that the conversation moves to are
    the same exactly when there is no quote yet, or one that is followed up and known.
   */
  lemma MenuTextAgreesIff(c: Conversation, m: Inbound)
    requires c.state == BotActive && c.step == MainMenu && m.option == "1"
    ensures var p := DecideMainMenu(c, m); var moved := Outcome(c, SelectCommercial);
            (p.reply == FollowUpMenuText <==> moved.step == FollowUpMenu)
            <==> c.status == NotStarted || (m.hasQuote && FollowedUp(c.status))
  {
  }
}
