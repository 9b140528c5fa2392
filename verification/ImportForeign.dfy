/**
  Rolling back in tables that anyone may have changed since: exactly which rows are
  lost, which are restored and which stay, and what the blockers do not see.
 */
module ImportForeign {
  import opened Wrappers
  import opened ImportTables
  import opened ImportApply
  import opened ImportEffect
  import opened ImportRollback

  // ---- What a record takes away, and what it restores ---------------------------------

  predicate LosesMessage(r: Record, m: Id, row: Message) {
    m in r.created.messageIds || r.created.conversationId == Some(row.conversationId)
  }

  predicate LosesDocument(r: Record, d: Id, row: Document) {
    d in r.created.documentIds || r.created.quoteRequestId == Some(row.quoteRequestId) || r.created.conversationId == Some(row.conversationId)
  }

  predicate LosesQuote(r: Record, q: Id, row: Quote) {
    r.created.quoteRequestId == Some(q) || r.created.conversationId == Some(row.conversationId)
  }

  predicate LosesTransition(r: Record, row: Transition) {
    r.created.conversationId == Some(row.conversationId)
  }

  predicate LosesRef(r: Record, row: ExternalRef) {
    row.id in r.created.externalRefIds
  }

  predicate RestoresQuote(r: Record, q: Id) {
    r.created.quoteRequestId.None? && r.before.quoteRequest.Some? && r.before.quoteRequest.value.id == q
  }

  predicate RestoresConversation(r: Record, v: Id) {
    r.created.conversationId.None? && r.before.conversation.Some? && r.before.conversation.value.id == v
  }

  predicate RestoresContact(r: Record, c: Id) {
    r.created.contactId.None? && r.before.contact.Some? && r.before.contact.value.id == c
  }

  /** Snapshots as a commit takes them: a column with a time has an instant, a date-only column a day. */
  predicate TakenConversation(s: ConversationSnapshot) {
    && !s.mainMenuPresentedAt.IsoDay? && !s.followUpMenuPresentedAt.IsoDay? && !s.contextualFollowUpAt.IsoDay?
    && !s.lastInboundAt.IsoDay? && !s.lastOutboundAt.IsoDay? && !s.closedAt.IsoDay?
  }

  predicate TakenQuote(s: QuoteSnapshot) {
    && !s.departureDate.IsoInstant? && !s.returnDate.IsoInstant?
    && !s.departureAt.IsoDay? && !s.returnAt.IsoDay? && !s.confirmedAt.IsoDay? && !s.decidedAt.IsoDay?
  }

  // ---- One record -----------------------------------------------------------------------

  /** The row at `k` stays as it is unless it is lost. */
  ghost predicate StaysUnless<K, V>(a: map<K, V>, b: map<K, V>, k: K, lost: bool) {
    (k in b <==> k in a && !lost) && (k in b ==> b[k] == a[k])
  }

  ghost predicate MessageAfter(a: Tables, b: Tables, r: Record, m: Id) {
    StaysUnless(a.messages, b.messages, m, m in a.messages && LosesMessage(r, m, a.messages[m]))
  }

  ghost predicate DocumentAfter(a: Tables, b: Tables, r: Record, d: Id) {
    StaysUnless(a.documents, b.documents, d, d in a.documents && LosesDocument(r, d, a.documents[d]))
  }

  ghost predicate TransitionAfter(a: Tables, b: Tables, r: Record, x: Id) {
    StaysUnless(a.transitions, b.transitions, x, x in a.transitions && LosesTransition(r, a.transitions[x]))
  }

  ghost predicate RefAfter(a: Tables, b: Tables, r: Record, k: RefKey) {
    StaysUnless(a.refs, b.refs, k, k in a.refs && LosesRef(r, a.refs[k]))
  }

  ghost predicate QuoteAfter(a: Tables, b: Tables, r: Record, q: Id) {
    && (q in b.quotes <==> q in a.quotes && !LosesQuote(r, q, a.quotes[q]))
    && (q in b.quotes ==> b.quotes[q] == if RestoresQuote(r, q) then RestoreQuote(a.quotes[q], r.before.quoteRequest.value) else a.quotes[q])
  }

  ghost predicate ConversationAfter(a: Tables, b: Tables, r: Record, v: Id) {
    && (v in b.conversations <==> v in a.conversations && r.created.conversationId != Some(v))
    && (v in b.conversations ==>
          b.conversations[v] == if RestoresConversation(r, v) then RestoreConversation(a.conversations[v], r.before.conversation.value) else a.conversations[v])
    && (RestoresConversation(r, v) ==> v in b.conversations)
  }

  ghost predicate ContactAfter(a: Tables, b: Tables, r: Record, c: Id) {
    && (c in b.contacts <==> c in a.contacts && r.created.contactId != Some(c))
    && (c in b.contacts ==>
          b.contacts[c] == if RestoresContact(r, c) then a.contacts[c].(displayName := r.before.contact.value.displayName) else a.contacts[c])
    && (RestoresContact(r, c) ==> c in b.contacts)
  }

  predicate RollsBack(a: Tables, r: Record, b: Tables) {
    RollbackRecord(a, r) == Ok(b)
  }

  // ---- The steps of a rollback, row by row ----------------------------------------------------

  lemma CreatedStep<V>(a: map<Id, V>, ids: seq<Id>, k: Id)
    ensures StaysUnless(a, a - IdSet(ids), k, k in ids)
  {
  }

  predicate QuoteStep(a: Tables, r: Record, b: Tables) {
    UndoQuote(a, r) == Ok(b)
  }

  /** The forms of the step. */
  lemma QuoteStepIs(a: Tables, r: Record, b: Tables)
    requires QuoteStep(a, r, b)
    ensures r.created.quoteRequestId.Some? ==> b == DeleteQuote(a, r.created.quoteRequestId.value)
    ensures r.created.quoteRequestId.None? ==> b == a.(quotes := b.quotes)
    ensures r.created.quoteRequestId.None? && r.before.quoteRequest.None? ==> b.quotes == a.quotes
    ensures r.created.quoteRequestId.None? && r.before.quoteRequest.Some? ==>
              var s := r.before.quoteRequest.value;
              s.id in a.quotes && b.quotes == a.quotes[s.id := RestoreQuote(a.quotes[s.id], s)]
  {
  }

  lemma DeletedQuote(a: Tables, q: Id, d: Id)
    ensures var b := DeleteQuote(a, q);
            && b == a.(quotes := a.quotes - {q}, documents := b.documents)
            && StaysUnless(a.documents, b.documents, d, d in a.documents && a.documents[d].quoteRequestId == q)
  {
  }

  lemma QuoteStepRows(a: Tables, r: Record, b: Tables, q: Id, d: Id)
    requires QuoteStep(a, r, b)
    ensures b == a.(quotes := b.quotes, documents := b.documents)
    ensures StaysUnless(a.documents, b.documents, d, d in a.documents && r.created.quoteRequestId == Some(a.documents[d].quoteRequestId))
    ensures q in b.quotes <==> q in a.quotes && r.created.quoteRequestId != Some(q)
    ensures q in b.quotes ==> b.quotes[q] == if RestoresQuote(r, q) then RestoreQuote(a.quotes[q], r.before.quoteRequest.value) else a.quotes[q]
  {
    QuoteStepIs(a, r, b);
    if r.created.quoteRequestId.Some? {
      DeletedQuote(a, r.created.quoteRequestId.value, d);
    }
  }

  predicate ConversationStep(a: Tables, r: Record, b: Tables) {
    UndoConversation(a, r) == Ok(b)
  }

  predicate OfCreated(r: Record, conversationId: Id) {
    r.created.conversationId == Some(conversationId)
  }

  lemma DeletedConversation(a: Tables, v: Id, q: Id, m: Id, d: Id, x: Id)
    ensures var b := DeleteConversation(a, v);
            && StaysUnless(a.quotes, b.quotes, q, q in a.quotes && a.quotes[q].conversationId == v)
            && StaysUnless(a.messages, b.messages, m, m in a.messages && a.messages[m].conversationId == v)
            && StaysUnless(a.documents, b.documents, d, d in a.documents && a.documents[d].conversationId == v)
            && StaysUnless(a.transitions, b.transitions, x, x in a.transitions && a.transitions[x].conversationId == v)
            && b.conversations == a.conversations - {v} && b.contacts == a.contacts && b.refs == a.refs && b.records == a.records
  {
  }

  /** The two forms of the step. */
  lemma ConversationStepIs(a: Tables, r: Record, b: Tables)
    requires ConversationStep(a, r, b)
    ensures r.created.conversationId.Some? ==> b == DeleteConversation(a, r.created.conversationId.value)
    ensures r.created.conversationId.None? ==> b == a.(conversations := b.conversations)
    ensures r.created.conversationId.None? && r.before.conversation.None? ==> b.conversations == a.conversations
    ensures r.created.conversationId.None? && r.before.conversation.Some? ==>
              var s := r.before.conversation.value;
              s.id in a.conversations && b.conversations == a.conversations[s.id := RestoreConversation(a.conversations[s.id], s)]
  {
  }

  lemma ConversationStepRows(a: Tables, r: Record, b: Tables, v: Id)
    requires ConversationStep(a, r, b)
    ensures b.contacts == a.contacts && b.refs == a.refs && b.records == a.records
    ensures v in b.conversations <==> v in a.conversations && !OfCreated(r, v)
    ensures v in b.conversations ==>
              b.conversations[v] == if RestoresConversation(r, v) then RestoreConversation(a.conversations[v], r.before.conversation.value) else a.conversations[v]
    ensures RestoresConversation(r, v) ==> v in b.conversations
  {
    ConversationStepIs(a, r, b);
    if r.created.conversationId.Some? {
      DeletedConversation(a, r.created.conversationId.value, 0, 0, 0, 0);
    }
  }

  lemma ConversationStepContents(a: Tables, r: Record, b: Tables, q: Id, m: Id, d: Id, x: Id)
    requires ConversationStep(a, r, b)
    ensures StaysUnless(a.quotes, b.quotes, q, q in a.quotes && OfCreated(r, a.quotes[q].conversationId))
    ensures StaysUnless(a.messages, b.messages, m, m in a.messages && OfCreated(r, a.messages[m].conversationId))
    ensures StaysUnless(a.documents, b.documents, d, d in a.documents && OfCreated(r, a.documents[d].conversationId))
    ensures StaysUnless(a.transitions, b.transitions, x, x in a.transitions && OfCreated(r, a.transitions[x].conversationId))
  {
    ConversationStepIs(a, r, b);
    if r.created.conversationId.Some? {
      DeletedConversation(a, r.created.conversationId.value, q, m, d, x);
    }
  }

  predicate ContactStep(a: Tables, r: Record, b: Tables) {
    UndoContact(a, r) == Ok(b)
  }

  lemma ContactStepRows(a: Tables, r: Record, b: Tables, c: Id)
    requires ContactStep(a, r, b)
    ensures b == a.(contacts := b.contacts) && ContactAfter(a, b, r, c)
  {
  }

  /** The states between the steps. */
  lemma Steps(a: Tables, r: Record, b: Tables) returns (x: Tables, y: Tables, z: Tables, w: Tables)
    requires RollsBack(a, r, b)
    ensures x == DeleteCreatedRows(a, r.created)
    ensures QuoteStep(x, r, y) && ConversationStep(y, r, z) && ContactStep(z, r, w)
    ensures b == w.(records := b.records)
  {
    x := DeleteCreatedRows(a, r.created);
    y := UndoQuote(x, r).value;
    z := UndoConversation(y, r).value;
    w := UndoContact(z, r).value;
  }

  lemma MessageExactly(a: Tables, r: Record, b: Tables, m: Id)
    requires RollsBack(a, r, b)
    ensures MessageAfter(a, b, r, m)
  {
    var x, y, z, w := Steps(a, r, b);
    CreatedStep(a.messages, r.created.messageIds, m);
    QuoteStepRows(x, r, y, 0, 0);
    ConversationStepContents(y, r, z, 0, m, 0, 0);
    ContactStepRows(z, r, w, 0);
  }

  lemma DocumentExactly(a: Tables, r: Record, b: Tables, d: Id)
    requires RollsBack(a, r, b)
    ensures DocumentAfter(a, b, r, d)
  {
    var x, y, z, w := Steps(a, r, b);
    CreatedStep(a.documents, r.created.documentIds, d);
    QuoteStepRows(x, r, y, 0, d);
    ConversationStepContents(y, r, z, 0, 0, d, 0);
    ContactStepRows(z, r, w, 0);
  }

  lemma TransitionExactly(a: Tables, r: Record, b: Tables, t: Id)
    requires RollsBack(a, r, b)
    ensures TransitionAfter(a, b, r, t)
  {
    var x, y, z, w := Steps(a, r, b);
    QuoteStepRows(x, r, y, 0, 0);
    ConversationStepContents(y, r, z, 0, 0, 0, t);
    ContactStepRows(z, r, w, 0);
  }

  lemma RefExactly(a: Tables, r: Record, b: Tables, k: RefKey)
    requires RollsBack(a, r, b)
    ensures RefAfter(a, b, r, k)
  {
    var x, y, z, w := Steps(a, r, b);
    QuoteStepRows(x, r, y, 0, 0);
    ConversationStepRows(y, r, z, 0);
    ContactStepRows(z, r, w, 0);
  }

  lemma QuoteExactly(a: Tables, r: Record, b: Tables, q: Id)
    requires RollsBack(a, r, b)
    ensures QuoteAfter(a, b, r, q)
  {
    var x, y, z, w := Steps(a, r, b);
    QuoteStepRows(x, r, y, q, 0);
    ConversationStepContents(y, r, z, q, 0, 0, 0);
    ContactStepRows(z, r, w, 0);
  }

  lemma ConversationExactly(a: Tables, r: Record, b: Tables, v: Id)
    requires RollsBack(a, r, b)
    ensures ConversationAfter(a, b, r, v)
  {
    var x, y, z, w := Steps(a, r, b);
    QuoteStepRows(x, r, y, 0, 0);
    ConversationStepRows(y, r, z, v);
    ContactStepRows(z, r, w, 0);
  }

  lemma ContactExactly(a: Tables, r: Record, b: Tables, c: Id)
    requires RollsBack(a, r, b)
    ensures ContactAfter(a, b, r, c)
  {
    var x, y, z, w := Steps(a, r, b);
    QuoteStepRows(x, r, y, 0, 0);
    ConversationStepRows(y, r, z, 0);
    ContactStepRows(z, r, w, c);
  }

  // ---- Restored rows have their snapshots again -------------------------------------------------

  /** The restored rows have the columns of the before-snapshot; a quote's null `structuredData` does not come back. */
  ghost predicate Restored(b: Tables, r: Record) {
    && (r.before.conversation.Some? && r.created.conversationId.None? && TakenConversation(r.before.conversation.value) ==>
          var s := r.before.conversation.value;
          s.id in b.conversations && SelectConversation(s.id, b.conversations[s.id]) == s)
    && (r.before.contact.Some? && r.created.contactId.None? ==>
          var s := r.before.contact.value;
          s.id in b.contacts && SelectContact(s.id, b.contacts[s.id]) == s)
    && (r.before.quoteRequest.Some? && r.created.quoteRequestId.None? && TakenQuote(r.before.quoteRequest.value) ==>
          var s := r.before.quoteRequest.value;
          s.id in b.quotes ==> (SelectQuote(s.id, b.quotes[s.id]) == s <==> s.structuredData != JNull && b.quotes[s.id].sequence == s.sequence))
  }

  lemma RestoredQuoteSelects(row: Quote, s: QuoteSnapshot)
    requires TakenQuote(s)
    ensures SelectQuote(s.id, RestoreQuote(row, s)) == s <==> s.structuredData != JNull && row.sequence == s.sequence
  {
    var restored := SelectQuote(s.id, RestoreQuote(row, s));
    assert restored.departureDate == s.departureDate && restored.returnDate == s.returnDate;
    assert s.structuredData != JNull && row.sequence == s.sequence ==> restored == s;
  }

  lemma RestoredConversationSelects(row: Conversation, s: ConversationSnapshot)
    requires TakenConversation(s)
    ensures SelectConversation(s.id, RestoreConversation(row, s)) == s
  {
  }

  lemma RestoredAgain(a: Tables, r: Record, b: Tables)
    requires RollsBack(a, r, b)
    ensures Restored(b, r)
  {
    if r.before.conversation.Some? && r.created.conversationId.None? && TakenConversation(r.before.conversation.value) {
      var s := r.before.conversation.value;
      ConversationExactly(a, r, b, s.id);
      RestoredConversationSelects(a.conversations[s.id], s);
    }
    if r.before.contact.Some? && r.created.contactId.None? {
      ContactExactly(a, r, b, r.before.contact.value.id);
    }
    if r.before.quoteRequest.Some? && r.created.quoteRequestId.None? && TakenQuote(r.before.quoteRequest.value) {
      var s := r.before.quoteRequest.value;
      QuoteExactly(a, r, b, s.id);
      if s.id in b.quotes {
        RestoredQuoteSelects(a.quotes[s.id], s);
      }
    }
  }

  ghost predicate ExactlyUndone(a: Tables, b: Tables, r: Record) {
    && (forall m :: MessageAfter(a, b, r, m)) && (forall d :: DocumentAfter(a, b, r, d))
    && (forall x :: TransitionAfter(a, b, r, x)) && (forall k :: RefAfter(a, b, r, k))
    && (forall q :: QuoteAfter(a, b, r, q)) && (forall v :: ConversationAfter(a, b, r, v)) && (forall c :: ContactAfter(a, b, r, c))
  }

  /** Whatever has been written since: rolling a record back either fails, or loses, restores and keeps exactly these rows. */
  lemma UndoesWhateverHappened(a: Tables, r: Record, b: Tables)
    requires RollsBack(a, r, b)
    ensures ExactlyUndone(a, b, r) && Restored(b, r)
  {
    forall m ensures MessageAfter(a, b, r, m) {
      MessageExactly(a, r, b, m);
    }
    forall d ensures DocumentAfter(a, b, r, d) {
      DocumentExactly(a, r, b, d);
    }
    forall x ensures TransitionAfter(a, b, r, x) {
      TransitionExactly(a, r, b, x);
    }
    forall k ensures RefAfter(a, b, r, k) {
      RefExactly(a, r, b, k);
    }
    forall q ensures QuoteAfter(a, b, r, q) {
      QuoteExactly(a, r, b, q);
    }
    forall v ensures ConversationAfter(a, b, r, v) {
      ConversationExactly(a, r, b, v);
    }
    forall c ensures ContactAfter(a, b, r, c) {
      ContactExactly(a, r, b, c);
    }
    RestoredAgain(a, r, b);
  }

  // ---- A whole batch ----------------------------------------------------------------------

  /** Some record takes the row away. */
  predicate MessageLost(order: seq<Record>, m: Id, row: Message) {
    exists r | r in order :: LosesMessage(r, m, row)
  }

  predicate DocumentLost(order: seq<Record>, d: Id, row: Document) {
    exists r | r in order :: LosesDocument(r, d, row)
  }

  predicate QuoteLost(order: seq<Record>, q: Id, row: Quote) {
    exists r | r in order :: LosesQuote(r, q, row)
  }

  predicate TransitionLost(order: seq<Record>, row: Transition) {
    exists r | r in order :: LosesTransition(r, row)
  }

  predicate RefLost(order: seq<Record>, row: ExternalRef) {
    exists r | r in order :: LosesRef(r, row)
  }

  predicate ConversationLost(order: seq<Record>, v: Id) {
    exists r | r in order :: r.created.conversationId == Some(v)
  }

  predicate ContactLost(order: seq<Record>, c: Id) {
    exists r | r in order :: r.created.contactId == Some(c)
  }

  /** No record names the row to restore it. */
  predicate Unnamed(order: seq<Record>, quote: Option<Id>, conversation: Option<Id>, contact: Option<Id>) {
    forall r | r in order ::
      && (quote.Some? ==> !RestoresQuote(r, quote.value))
      && (conversation.Some? ==> !RestoresConversation(r, conversation.value))
      && (contact.Some? ==> !RestoresContact(r, contact.value))
  }

  /** The states of a rollback, before and after each record. */
  predicate Chained(states: seq<Tables>, order: seq<Record>) {
    |states| == |order| + 1 && forall i | 0 <= i < |order| :: RollsBack(states[i], order[i], states[i + 1])
  }

  lemma LastStep(a: Tables, order: seq<Record>, n: nat, b: Tables) returns (earlier: Tables)
    requires 0 < n <= |order| && RollsBackTo(a, order, n, b)
    ensures RollsBackTo(a, order, n - 1, earlier) && RollsBack(earlier, order[n - 1], b)
  {
    earlier := RollbackAll(a, order, n - 1).value;
  }

  /** The states run from `a` to `b` over the first `n` records. */
  predicate ChainsTo(states: seq<Tables>, order: seq<Record>, n: nat, a: Tables, b: Tables)
    requires n <= |order|
  {
    Chained(states, order[..n]) && states[0] == a && states[n] == b
  }

  lemma ChainMore(front: seq<Tables>, order: seq<Record>, n: nat, a: Tables, earlier: Tables, b: Tables)
    requires 0 < n <= |order| && ChainsTo(front, order, n - 1, a, earlier) && RollsBack(earlier, order[n - 1], b)
    ensures ChainsTo(front + [b], order, n, a, b)
  {
    var states, upTo := front + [b], order[..n];
    forall i | 0 <= i < n
      ensures RollsBack(states[i], upTo[i], states[i + 1])
    {
      if i < n - 1 {
        assert RollsBack(front[i], order[..n - 1][i], front[i + 1]);
      }
    }
  }

  lemma {:induction false} ChainOf(a: Tables, order: seq<Record>, n: nat, b: Tables) returns (states: seq<Tables>)
    requires n <= |order| && RollsBackTo(a, order, n, b)
    ensures ChainsTo(states, order, n, a, b)
    decreases n
  {
    if n == 0 {
      states := [a];
    } else {
      var earlier := LastStep(a, order, n, b);
      var front := ChainOf(a, order, n - 1, earlier);
      ChainMore(front, order, n, a, earlier, b);
      states := front + [b];
    }
  }

  lemma OneMore(order: seq<Record>, n: nat)
    requires 0 < n <= |order|
    ensures forall r :: r in order[..n] <==> r in order[..n - 1] || r == order[n - 1]
  {
    assert order[..n] == order[..n - 1] + [order[n - 1]];
  }

  ghost predicate MessageKept(a: Tables, b: Tables, order: seq<Record>, m: Id) {
    StaysUnless(a.messages, b.messages, m, m in a.messages && MessageLost(order, m, a.messages[m]))
  }

  lemma {:induction false} MessageSurvives(states: seq<Tables>, order: seq<Record>, n: nat, m: Id)
    requires Chained(states, order) && n <= |order|
    ensures MessageKept(states[0], states[n], order[..n], m)
    decreases n
  {
    if n > 0 {
      MessageSurvives(states, order, n - 1, m);
      MessageExactly(states[n - 1], order[n - 1], states[n], m);
      OneMore(order, n);
    }
  }

  ghost predicate DocumentKept(a: Tables, b: Tables, order: seq<Record>, d: Id) {
    StaysUnless(a.documents, b.documents, d, d in a.documents && DocumentLost(order, d, a.documents[d]))
  }

  lemma {:induction false} DocumentSurvives(states: seq<Tables>, order: seq<Record>, n: nat, d: Id)
    requires Chained(states, order) && n <= |order|
    ensures DocumentKept(states[0], states[n], order[..n], d)
    decreases n
  {
    if n > 0 {
      DocumentSurvives(states, order, n - 1, d);
      DocumentExactly(states[n - 1], order[n - 1], states[n], d);
      OneMore(order, n);
    }
  }

  ghost predicate TransitionKept(a: Tables, b: Tables, order: seq<Record>, x: Id) {
    StaysUnless(a.transitions, b.transitions, x, x in a.transitions && TransitionLost(order, a.transitions[x]))
  }

  lemma {:induction false} TransitionSurvives(states: seq<Tables>, order: seq<Record>, n: nat, x: Id)
    requires Chained(states, order) && n <= |order|
    ensures TransitionKept(states[0], states[n], order[..n], x)
    decreases n
  {
    if n > 0 {
      TransitionSurvives(states, order, n - 1, x);
      TransitionExactly(states[n - 1], order[n - 1], states[n], x);
      OneMore(order, n);
    }
  }

  ghost predicate RefKept(a: Tables, b: Tables, order: seq<Record>, k: RefKey) {
    StaysUnless(a.refs, b.refs, k, k in a.refs && RefLost(order, a.refs[k]))
  }

  lemma {:induction false} RefSurvives(states: seq<Tables>, order: seq<Record>, n: nat, k: RefKey)
    requires Chained(states, order) && n <= |order|
    ensures RefKept(states[0], states[n], order[..n], k)
    decreases n
  {
    if n > 0 {
      RefSurvives(states, order, n - 1, k);
      RefExactly(states[n - 1], order[n - 1], states[n], k);
      OneMore(order, n);
    }
  }

  /** A quote stays unless it is lost, and stays unchanged unless a record names it. */
  ghost predicate QuoteKept(a: Tables, b: Tables, order: seq<Record>, q: Id) {
    && (q in b.quotes <==> q in a.quotes && !QuoteLost(order, q, a.quotes[q]))
    && (q in b.quotes ==> SameQuoteKey(b.quotes[q], a.quotes[q]))
    && (q in b.quotes && Unnamed(order, Some(q), None, None) ==> b.quotes[q] == a.quotes[q])
  }

  lemma QuoteKeptOn(a: Tables, earlier: Tables, b: Tables, front: seq<Record>, order: seq<Record>, r: Record, q: Id)
    requires QuoteKept(a, earlier, front, q) && QuoteAfter(earlier, b, r, q)
    requires forall e :: e in order <==> e in front || e == r
    ensures QuoteKept(a, b, order, q)
  {
    assert r in order;
    if q in a.quotes && q in earlier.quotes {
      assert LosesQuote(r, q, earlier.quotes[q]) <==> LosesQuote(r, q, a.quotes[q]);
    }
    if q in a.quotes && QuoteLost(front, q, a.quotes[q]) {
      var e :| e in front && LosesQuote(e, q, a.quotes[q]);
      assert e in order;
    }
  }

  lemma {:induction false} QuoteSurvives(states: seq<Tables>, order: seq<Record>, n: nat, q: Id)
    requires Chained(states, order) && n <= |order|
    ensures QuoteKept(states[0], states[n], order[..n], q)
    decreases n
  {
    if n > 0 {
      QuoteSurvives(states, order, n - 1, q);
      QuoteExactly(states[n - 1], order[n - 1], states[n], q);
      OneMore(order, n);
      QuoteKeptOn(states[0], states[n - 1], states[n], order[..n - 1], order[..n], order[n - 1], q);
    }
  }

  ghost predicate ConversationKept(a: Tables, b: Tables, order: seq<Record>, v: Id) {
    && (v in b.conversations <==> v in a.conversations && !ConversationLost(order, v))
    && (v in b.conversations ==> SameLinks(b.conversations[v], a.conversations[v]))
    && (v in b.conversations && Unnamed(order, None, Some(v), None) ==> b.conversations[v] == a.conversations[v])
  }

  lemma {:induction false} ConversationSurvives(states: seq<Tables>, order: seq<Record>, n: nat, v: Id)
    requires Chained(states, order) && n <= |order|
    ensures ConversationKept(states[0], states[n], order[..n], v)
    decreases n
  {
    if n > 0 {
      ConversationSurvives(states, order, n - 1, v);
      ConversationExactly(states[n - 1], order[n - 1], states[n], v);
      OneMore(order, n);
    }
  }

  ghost predicate ContactKept(a: Tables, b: Tables, order: seq<Record>, c: Id) {
    && (c in b.contacts <==> c in a.contacts && !ContactLost(order, c))
    && (c in b.contacts && Unnamed(order, None, None, Some(c)) ==> b.contacts[c] == a.contacts[c])
  }

  lemma {:induction false} ContactSurvives(states: seq<Tables>, order: seq<Record>, n: nat, c: Id)
    requires Chained(states, order) && n <= |order|
    ensures ContactKept(states[0], states[n], order[..n], c)
    decreases n
  {
    if n > 0 {
      ContactSurvives(states, order, n - 1, c);
      ContactExactly(states[n - 1], order[n - 1], states[n], c);
      OneMore(order, n);
    }
  }

  /** The conversation, the contact and the quote that record `i` restores are neither restored nor deleted by a later one. */
  ghost predicate NamedLast(order: seq<Record>, i: nat)
    requires i < |order|
  {
    forall r, k: Id | r in order[i + 1..] ::
      && (RestoresConversation(order[i], k) ==> !RestoresConversation(r, k) && r.created.conversationId != Some(k))
      && (RestoresContact(order[i], k) ==> !RestoresContact(r, k) && r.created.contactId != Some(k))
      && (RestoresQuote(order[i], k) ==> !RestoresQuote(r, k))
  }

  lemma RestoredStays(a: Tables, b: Tables, later: seq<Record>, r: Record)
    requires Restored(a, r)
    requires r.before.conversation.Some? && r.created.conversationId.None? ==>
               var v := r.before.conversation.value.id;
               ConversationKept(a, b, later, v) && Unnamed(later, None, Some(v), None) && !ConversationLost(later, v)
    requires r.before.contact.Some? && r.created.contactId.None? ==>
               var c := r.before.contact.value.id;
               ContactKept(a, b, later, c) && Unnamed(later, None, None, Some(c)) && !ContactLost(later, c)
    requires r.before.quoteRequest.Some? && r.created.quoteRequestId.None? ==>
               var q := r.before.quoteRequest.value.id;
               QuoteKept(a, b, later, q) && Unnamed(later, Some(q), None, None)
    ensures Restored(b, r)
  {
  }

  lemma RestoredInTheEnd(states: seq<Tables>, order: seq<Record>, i: nat)
    requires Chained(states, order) && i < |order| && NamedLast(order, i)
    ensures Restored(states[|order|], order[i])
  {
    var r, later, rest := order[i], order[i + 1..], states[i + 1..];
    RestoredAgain(states[i], r, states[i + 1]);
    assert Chained(rest, later) && rest[0] == states[i + 1] && rest[|later|] == states[|order|];
    assert later[..|later|] == later;
    if r.before.conversation.Some? && r.created.conversationId.None? {
      assert RestoresConversation(r, r.before.conversation.value.id);
      ConversationSurvives(rest, later, |later|, r.before.conversation.value.id);
    }
    if r.before.contact.Some? && r.created.contactId.None? {
      assert RestoresContact(r, r.before.contact.value.id);
      ContactSurvives(rest, later, |later|, r.before.contact.value.id);
    }
    if r.before.quoteRequest.Some? && r.created.quoteRequestId.None? {
      assert RestoresQuote(r, r.before.quoteRequest.value.id);
      QuoteSurvives(rest, later, |later|, r.before.quoteRequest.value.id);
    }
    RestoredStays(states[i + 1], states[|order|], later, r);
  }

  /** What a rolled-back batch loses and keeps, row by row. */
  ghost predicate ExactlyRolledBack(a: Tables, b: Tables, order: seq<Record>) {
    && (forall m :: MessageKept(a, b, order, m)) && (forall d :: DocumentKept(a, b, order, d))
    && (forall x :: TransitionKept(a, b, order, x)) && (forall k :: RefKept(a, b, order, k))
    && (forall q :: QuoteKept(a, b, order, q)) && (forall v :: ConversationKept(a, b, order, v)) && (forall c :: ContactKept(a, b, order, c))
  }

  /**
    Whatever anyone wrote before: a rollback that succeeds takes away exactly the rows
    its records created and what hangs on them, and keeps all other rows; what a record
    restores, and no later one names again, has its before-snapshot.
   */
  lemma RollsBackWhateverHappened(a: Tables, order: seq<Record>, b: Tables)
    requires RollsBackTo(a, order, |order|, b)
    ensures ExactlyRolledBack(a, b, order)
    ensures forall i: nat | i < |order| && NamedLast(order, i) :: Restored(b, order[i])
  {
    var states := ChainOf(a, order, |order|, b);
    assert order[..|order|] == order;
    forall m ensures MessageKept(a, b, order, m) {
      MessageSurvives(states, order, |order|, m);
    }
    forall d ensures DocumentKept(a, b, order, d) {
      DocumentSurvives(states, order, |order|, d);
    }
    forall x ensures TransitionKept(a, b, order, x) {
      TransitionSurvives(states, order, |order|, x);
    }
    forall k ensures RefKept(a, b, order, k) {
      RefSurvives(states, order, |order|, k);
    }
    forall q ensures QuoteKept(a, b, order, q) {
      QuoteSurvives(states, order, |order|, q);
    }
    forall v ensures ConversationKept(a, b, order, v) {
      ConversationSurvives(states, order, |order|, v);
    }
    forall c ensures ContactKept(a, b, order, c) {
      ContactSurvives(states, order, |order|, c);
    }
    forall i: nat | i < |order| && NamedLast(order, i)
      ensures Restored(b, order[i])
    {
      RestoredInTheEnd(states, order, i);
    }
  }

  // ---- What the blockers see, and what they do not ----------------------------------------------

  /** As commits write them: what a record creates is its own conversation. */
  predicate OwnConversation(r: Record) {
    r.created.conversationId.Some? ==> r.created.conversationId == Some(r.conversationId)
  }

  /** Every record of a commit has the snapshots and the conversation that the lemmas here ask for. */
  lemma CommitsAreTaken(a: Tables, b: Tables, r: Record, input: ApplyInput)
    requires Effect(a, b, r, input)
    ensures OwnConversation(r)
    ensures r.before.conversation.Some? ==> TakenConversation(r.before.conversation.value)
    ensures r.before.quoteRequest.Some? && r.created.quoteRequestId.None? ==> TakenQuote(r.before.quoteRequest.value)
  {
  }

  /** When nothing blocks, what a rollback takes from others in a created conversation is no newer than the cutoff. */
  lemma UnblockedLosesOldOnly(a: Tables, cutoffAt: Instant, order: seq<Record>, r: Record)
    requires CollectBlockers(a, cutoffAt, order, |order|) == [] && r in order && OwnConversation(r)
    ensures forall m | m in a.messages && LosesMessage(r, m, a.messages[m]) :: m in r.created.messageIds || a.messages[m].createdAt <= cutoffAt
    ensures forall x | x in a.transitions && LosesTransition(r, a.transitions[x]) :: a.transitions[x].createdAt <= cutoffAt
    ensures forall d | d in a.documents && LosesDocument(r, d, a.documents[d]) && a.documents[d].conversationId == r.conversationId ::
              d in r.created.documentIds || a.documents[d].createdAt <= cutoffAt
  {
    var i :| 0 <= i < |order| && order[i] == r;
    NoBlockersOf(a, cutoffAt, order, |order|, i);
    assert !InteractionAfter(a, cutoffAt, r);
  }

  /** A quote of another sequence changes nothing in what a load by the record's keys reads. */
  lemma LoadsTheSame(a: Tables, q: Id, row: Quote, contactId: Id, conversationId: Id, sequence: Option<int>)
    requires UniqueSequences(a.quotes) && q !in a.quotes
    requires row.conversationId != conversationId || sequence != Some(row.sequence)
    ensures LoadSnapshot(a.(quotes := a.quotes[q := row]), contactId, conversationId, sequence) == LoadSnapshot(a, contactId, conversationId, sequence)
  {
    var before, after := FindQuote(a.quotes, conversationId, sequence), FindQuote(a.quotes[q := row], conversationId, sequence);
    if before.Some? {
      assert before.value in a.quotes[q := row] && sequence.value != 0 && after.Some?;
    }
    if after.Some? {
      assert after.value != q && sequence.value != 0 && before.Some?;
      assert SameQuoteKey(a.quotes[before.value], a.quotes[after.value]);
    }
  }

  lemma BlockersOfTheSame(a: Tables, q: Id, row: Quote, cutoffAt: Instant, r: Record, ids: set<Id>)
    requires UniqueSequences(a.quotes) && q !in a.quotes
    requires row.conversationId != r.conversationId || QuoteSequenceOf(r.after) != Some(row.sequence)
    ensures RecordBlockers(a.(quotes := a.quotes[q := row]), cutoffAt, r, ids) == RecordBlockers(a, cutoffAt, r, ids)
  {
    LoadsTheSame(a, q, row, r.contactId, r.conversationId, QuoteSequenceOf(r.after));
  }

  lemma {:induction false} BlockersTheSame(a: Tables, q: Id, row: Quote, cutoffAt: Instant, order: seq<Record>, n: nat)
    requires n <= |order| && UniqueSequences(a.quotes) && q !in a.quotes
    requires forall r | r in order :: row.conversationId != r.conversationId || QuoteSequenceOf(r.after) != Some(row.sequence)
    ensures CollectBlockers(a.(quotes := a.quotes[q := row]), cutoffAt, order, n) == CollectBlockers(a, cutoffAt, order, n)
  {
    if n > 0 {
      BlockersTheSame(a, q, row, cutoffAt, order, n - 1);
      BlockersOfTheSame(a, q, row, cutoffAt, order[n - 1], ConversationIds(order));
    }
  }

  /**
    A quote that someone adds to a conversation of the batch, under a sequence that no
    record read, is seen by no blocker; if the batch created the conversation, a
    rollback that succeeds takes the quote away.
   */
  lemma ForeignQuoteUnseen(a: Tables, q: Id, row: Quote, cutoffAt: Instant, order: seq<Record>, b: Tables)
    requires UniqueSequences(a.quotes) && q !in a.quotes
    requires forall r | r in order :: row.conversationId != r.conversationId || QuoteSequenceOf(r.after) != Some(row.sequence)
    requires RollsBackTo(a.(quotes := a.quotes[q := row]), order, |order|, b)
    ensures CollectBlockers(a.(quotes := a.quotes[q := row]), cutoffAt, order, |order|) == CollectBlockers(a, cutoffAt, order, |order|)
    ensures q in b.quotes <==> forall r | r in order :: r.created.conversationId != Some(row.conversationId) && r.created.quoteRequestId != Some(q)
  {
    var with := a.(quotes := a.quotes[q := row]);
    BlockersTheSame(a, q, row, cutoffAt, order, |order|);
    RollsBackWhateverHappened(with, order, b);
    assert QuoteKept(with, b, order, q);
  }
}
