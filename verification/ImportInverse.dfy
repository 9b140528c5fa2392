/**
  Rolling back every record of a batch, in any order, is the inverse of the
  commits that wrote them.

  While a rollback is under way the tables are a mixture: what the records rolled
  back so far touched is as before the batch, everything else as after it.
 */
module ImportInverse {
  import opened Wrappers
  import opened Multisets
  import opened ImportTables
  import opened ImportApply
  import opened ImportEffect
  import opened ImportRollback

  // ---- What the commits between two states left alone ---------------------------

  lemma {:induction false} ContactsUntouched(states: seq<Tables>, records: seq<Record>, input: ApplyInput, i: nat, j: nat, c: Id)
    requires History(states, records, input) && i <= j <= |records|
    requires forall k | i <= k < j :: records[k].contactId != c
    ensures SameAt(states[i].contacts, states[j].contacts, c)
    decreases j - i
  {
    if i < j {
      assert CommitAt(states, records, input, i);
      ContactsUntouched(states, records, input, i + 1, j, c);
    }
  }

  lemma {:induction false} ConversationsUntouched(states: seq<Tables>, records: seq<Record>, input: ApplyInput, i: nat, j: nat, v: Id)
    requires History(states, records, input) && i <= j <= |records|
    requires forall k | i <= k < j :: records[k].conversationId != v
    ensures SameAt(states[i].conversations, states[j].conversations, v)
    decreases j - i
  {
    if i < j {
      assert CommitAt(states, records, input, i);
      ConversationsUntouched(states, records, input, i + 1, j, v);
    }
  }

  lemma {:induction false} QuotesUntouched(states: seq<Tables>, records: seq<Record>, input: ApplyInput, i: nat, j: nat, q: Id)
    requires History(states, records, input) && i <= j <= |records|
    requires forall k | i <= k < j :: QuoteTouched(records[k]) != Some(q)
    ensures SameAt(states[i].quotes, states[j].quotes, q)
    decreases j - i
  {
    if i < j {
      assert CommitAt(states, records, input, i);
      QuotesUntouched(states, records, input, i + 1, j, q);
    }
  }

  /** Messages only get added, each by the one commit that names it. */
  lemma {:induction false} MessagesGrow(states: seq<Tables>, records: seq<Record>, input: ApplyInput, i: nat, j: nat)
    requires History(states, records, input) && i <= j <= |records|
    ensures forall m | m in states[i].messages :: m in states[j].messages && states[j].messages[m] == states[i].messages[m]
    ensures forall m | m in states[j].messages && m !in states[i].messages ::
              exists k :: i <= k < j && MessageOf(records[k], m, states[j].messages[m])
    decreases j - i
  {
    if i < j {
      assert CommitAt(states, records, input, i);
      MessagesGrow(states, records, input, i + 1, j);
      forall m | m in states[j].messages && m !in states[i].messages
        ensures exists k :: i <= k < j && MessageOf(records[k], m, states[j].messages[m])
      {
        if m in states[i + 1].messages {
          assert MessageOf(records[i], m, states[j].messages[m]);
        }
      }
    }
  }

  ghost predicate MessageOf(r: Record, m: Id, row: Message) {
    m in IdSet(r.created.messageIds) && row.conversationId == r.conversationId && row.contactId == r.contactId
  }

  lemma {:induction false} DocumentsGrow(states: seq<Tables>, records: seq<Record>, input: ApplyInput, i: nat, j: nat)
    requires History(states, records, input) && i <= j <= |records|
    ensures forall d | d in states[i].documents :: d in states[j].documents && states[j].documents[d] == states[i].documents[d]
    ensures forall d | d in states[j].documents && d !in states[i].documents ::
              exists k :: i <= k < j && DocumentOf(records[k], d, states[j].documents[d])
    decreases j - i
  {
    if i < j {
      assert CommitAt(states, records, input, i);
      DocumentsGrow(states, records, input, i + 1, j);
      forall d | d in states[j].documents && d !in states[i].documents
        ensures exists k :: i <= k < j && DocumentOf(records[k], d, states[j].documents[d])
      {
        if d in states[i + 1].documents {
          assert DocumentOf(records[i], d, states[j].documents[d]);
        }
      }
    }
  }

  ghost predicate DocumentOf(r: Record, d: Id, row: Document) {
    && d in IdSet(r.created.documentIds)
    && row.conversationId == r.conversationId && QuoteTouched(r) == Some(row.quoteRequestId)
  }

  lemma {:induction false} RefsGrow(states: seq<Tables>, records: seq<Record>, input: ApplyInput, i: nat, j: nat)
    requires History(states, records, input) && i <= j <= |records|
    ensures forall k | k in states[i].refs :: k in states[j].refs && states[j].refs[k] == states[i].refs[k]
    ensures forall k | k in states[j].refs && k !in states[i].refs ::
              exists n :: i <= n < j && RefOf(records[n], states[j].refs[k].id)
    ensures forall n, k | i <= n < j && k in states[i].refs :: !RefOf(records[n], states[i].refs[k].id)
    decreases j - i
  {
    if i < j {
      assert CommitAt(states, records, input, i);
      RefsGrow(states, records, input, i + 1, j);
      forall k | k in states[j].refs && k !in states[i].refs
        ensures exists n :: i <= n < j && RefOf(records[n], states[j].refs[k].id)
      {
        if k in states[i + 1].refs {
          assert RefOf(records[i], states[j].refs[k].id);
        }
      }
    }
  }

  predicate RefOf(r: Record, id: Id) {
    id in r.created.externalRefIds
  }

  lemma {:induction false} TransitionsUntouched(states: seq<Tables>, records: seq<Record>, input: ApplyInput, i: nat, j: nat)
    requires History(states, records, input) && i <= j <= |records|
    ensures states[i].transitions == states[j].transitions
    decreases j - i
  {
    if i < j {
      assert CommitAt(states, records, input, i);
      TransitionsUntouched(states, records, input, i + 1, j);
    }
  }

  // ---- Mixtures of before and after ------------------------------------------------

  /** As in `base` at `keys`, as in `top` elsewhere. */
  function Mix<V>(base: map<Id, V>, top: map<Id, V>, keys: set<Id>): map<Id, V> {
    map k | k in base.Keys + top.Keys && (if k in keys then k in base else k in top) :: if k in keys then base[k] else top[k]
  }

  function ContactSet(records: seq<Record>): set<Id> {
    set r | r in records :: r.contactId
  }

  function QuoteSet(records: seq<Record>): set<Id> {
    set r | r in records && QuoteTouched(r).Some? :: QuoteTouched(r).value
  }

  function MessageSet(records: seq<Record>): set<Id> {
    set r, m | r in records && m in IdSet(r.created.messageIds) :: m
  }

  function DocumentSet(records: seq<Record>): set<Id> {
    set r, d | r in records && d in IdSet(r.created.documentIds) :: d
  }

  predicate NamesRef(records: seq<Record>, id: Id) {
    exists r | r in records :: RefOf(r, id)
  }

  ghost predicate Mixture(t: Tables, base: Tables, top: Tables, done: seq<Record>) {
    && t.contacts == Mix(base.contacts, top.contacts, ContactSet(done))
    && t.conversations == Mix(base.conversations, top.conversations, ConversationIds(done))
    && t.quotes == Mix(base.quotes, top.quotes, QuoteSet(done))
    && t.messages == top.messages - MessageSet(done)
    && t.documents == top.documents - DocumentSet(done)
    && t.refs == (map k | k in top.refs && !NamesRef(done, top.refs[k].id) :: top.refs[k])
    && t.transitions == top.transitions
  }

  /** What rolling `r` back relies on: its rows between `base` and `top`, and that its created rows are its own. */
  ghost predicate Undoable(base: Tables, top: Tables, r: Record, channelId: Id) {
    && ContactAt(base.contacts, top.contacts, r)
    && ConversationAt(base.conversations, top.conversations, r, channelId)
    && (QuoteTouched(r).Some? ==> QuoteAt(base.quotes, top.quotes, r, QuoteTouched(r).value) && QuoteRestorable(base.quotes, r))
    && (r.created.conversationId.Some? ==> OwnsConversation(top, r))
    && (r.created.quoteRequestId.Some? ==>
          forall d | d in top.documents && Some(top.documents[d].quoteRequestId) == QuoteTouched(r) :: d in IdSet(r.created.documentIds))
    && (r.created.contactId.Some? ==> OwnsContact(top, r))
  }

  ghost predicate QuoteRestorable(base: map<Id, Quote>, r: Record) {
    forall q | q in base && QuoteTouched(r) == Some(q) :: Restorable(base[q])
  }

  ghost predicate OwnsConversation(top: Tables, r: Record) {
    && (forall m | m in top.messages && top.messages[m].conversationId == r.conversationId :: m in IdSet(r.created.messageIds))
    && (forall d | d in top.documents && top.documents[d].conversationId == r.conversationId :: d in IdSet(r.created.documentIds))
    && (forall q | q in top.quotes && top.quotes[q].conversationId == r.conversationId :: QuoteTouched(r) == Some(q))
    && (forall x | x in top.transitions :: top.transitions[x].conversationId != r.conversationId)
  }

  ghost predicate OwnsContact(top: Tables, r: Record) {
    && (forall v | v in top.conversations && top.conversations[v].contactId == r.contactId :: v == r.conversationId)
    && (forall m | m in top.messages && top.messages[m].contactId == r.contactId :: m in IdSet(r.created.messageIds))
  }

  /** Nothing that `r` touched has been rolled back for another record yet. */
  ghost predicate Untouched(done: seq<Record>, r: Record) {
    && r.contactId !in ContactSet(done)
    && r.conversationId !in ConversationIds(done)
    && (QuoteTouched(r).Some? ==> QuoteTouched(r).value !in QuoteSet(done))
  }

  // ---- One step of the rollback ------------------------------------------------------

  /** The sets of a sequence with one more record. */
  lemma SetsOfAppend(done: seq<Record>, r: Record)
    ensures ContactSet(done + [r]) == ContactSet(done) + {r.contactId}
    ensures ConversationIds(done + [r]) == ConversationIds(done) + {r.conversationId}
    ensures QuoteSet(done + [r]) == QuoteSet(done) + (if QuoteTouched(r).Some? then {QuoteTouched(r).value} else {})
    ensures MessageSet(done + [r]) == MessageSet(done) + IdSet(r.created.messageIds)
    ensures DocumentSet(done + [r]) == DocumentSet(done) + IdSet(r.created.documentIds)
    ensures forall id :: NamesRef(done + [r], id) <==> NamesRef(done, id) || RefOf(r, id)
  {
    assert forall s | s in done + [r] :: s in done || s == r;
    assert forall s | s in done :: s in done + [r];
    assert r in done + [r];
    assert ContactSet(done + [r]) == ContactSet(done) + {r.contactId};
    assert ConversationIds(done + [r]) == ConversationIds(done) + {r.conversationId};
    if QuoteTouched(r).Some? {
      assert QuoteSet(done + [r]) == QuoteSet(done) + {QuoteTouched(r).value};
    } else {
      assert QuoteSet(done + [r]) == QuoteSet(done);
    }
    assert MessageSet(done + [r]) == MessageSet(done) + IdSet(r.created.messageIds);
    assert DocumentSet(done + [r]) == DocumentSet(done) + IdSet(r.created.documentIds);
  }

  lemma StepCreatedRows(t: Tables, base: Tables, top: Tables, done: seq<Record>, r: Record)
    requires Mixture(t, base, top, done)
    ensures var a := DeleteCreatedRows(t, r.created);
            && a == t.(messages := a.messages, documents := a.documents, refs := a.refs)
            && a.messages == top.messages - MessageSet(done + [r])
            && a.documents == top.documents - DocumentSet(done + [r])
            && a.refs == (map k | k in top.refs && !NamesRef(done + [r], top.refs[k].id) :: top.refs[k])
  {
    SetsOfAppend(done, r);
  }

  lemma MixRemove<V>(base: map<Id, V>, top: map<Id, V>, keys: set<Id>, k: Id)
    requires k !in keys && k in top && k !in base
    ensures k in Mix(base, top, keys)
    ensures Mix(base, top, keys) - {k} == Mix(base, top, keys + {k})
  {
  }

  lemma MixRestore<V>(base: map<Id, V>, top: map<Id, V>, keys: set<Id>, k: Id)
    requires k !in keys && k in top && k in base
    ensures k in Mix(base, top, keys) && Mix(base, top, keys)[k] == top[k]
    ensures Mix(base, top, keys)[k := base[k]] == Mix(base, top, keys + {k})
  {
  }

  function QuoteKeys(r: Record): set<Id> {
    if QuoteTouched(r).Some? then {QuoteTouched(r).value} else {}
  }

  /** The rows left are rows of `top`, and none of them was created by `r`. */
  ghost predicate CreatedRowsGone(t: Tables, top: Tables, r: Record) {
    && (forall m | m in t.messages :: m in top.messages && t.messages[m] == top.messages[m] && m !in IdSet(r.created.messageIds))
    && (forall d | d in t.documents :: d in top.documents && t.documents[d] == top.documents[d] && d !in IdSet(r.created.documentIds))
    && t.transitions == top.transitions
  }

  lemma StepQuote(a: Tables, base: Tables, top: Tables, keys: set<Id>, r: Record, channelId: Id)
    requires a.quotes == Mix(base.quotes, top.quotes, keys)
    requires CreatedRowsGone(a, top, r)
    requires Undoable(base, top, r, channelId) && keys !! QuoteKeys(r)
    ensures UndoQuote(a, r).Ok?
    ensures UndoQuote(a, r).value == a.(quotes := Mix(base.quotes, top.quotes, keys + QuoteKeys(r)))
  {
    if QuoteTouched(r).Some? {
      var q := QuoteTouched(r).value;
      assert q in QuoteKeys(r);
      assert QuoteAt(base.quotes, top.quotes, r, q);
      if r.created.quoteRequestId.Some? {
        MixRemove(base.quotes, top.quotes, keys, q);
        assert DeleteQuote(a, q).documents == a.documents;
      } else {
        MixRestore(base.quotes, top.quotes, keys, q);
        RestoreQuoteExact(q, base.quotes[q], top.quotes[q]);
      }
    } else {
      assert keys + QuoteKeys(r) == keys;
    }
  }

  /** Deleting a created conversation cascades to nothing that is not gone already. */
  lemma CascadeRemovesNothing(b: Tables, base: Tables, top: Tables, keys: set<Id>, r: Record, channelId: Id)
    requires Undoable(base, top, r, channelId) && r.created.conversationId.Some?
    requires ForeignKeys(base)
    requires b.quotes == Mix(base.quotes, top.quotes, keys) && QuoteKeys(r) <= keys
    requires CreatedRowsGone(b, top, r)
    ensures DeleteConversation(b, r.conversationId) == b.(conversations := b.conversations - {r.conversationId})
  {
    var v := r.conversationId;
    var c := DeleteConversation(b, v);
    assert c.messages == b.messages;
    assert c.documents == b.documents;
    assert c.transitions == b.transitions;
    NoQuoteLeft(b, base, top, keys, r, channelId);
    assert c.quotes == b.quotes;
  }

  lemma NoQuoteLeft(b: Tables, base: Tables, top: Tables, keys: set<Id>, r: Record, channelId: Id)
    requires Undoable(base, top, r, channelId) && r.created.conversationId.Some?
    requires ForeignKeys(base)
    requires b.quotes == Mix(base.quotes, top.quotes, keys) && QuoteKeys(r) <= keys
    requires CreatedRowsGone(b, top, r)
    ensures forall q | q in b.quotes :: b.quotes[q].conversationId != r.conversationId
  {
    assert forall q | q in b.quotes && q in keys :: b.quotes[q].conversationId != r.conversationId by {
      assert QuoteLinks(base.quotes, base.conversations.Keys);
    }
  }

  lemma StepConversation(b: Tables, base: Tables, top: Tables, keys: set<Id>, quotes: set<Id>, r: Record, channelId: Id)
    requires Undoable(base, top, r, channelId) && r.conversationId !in keys
    requires ForeignKeys(base)
    requires b.conversations == Mix(base.conversations, top.conversations, keys)
    requires b.quotes == Mix(base.quotes, top.quotes, quotes) && QuoteKeys(r) <= quotes
    requires CreatedRowsGone(b, top, r)
    ensures UndoConversation(b, r).Ok?
    ensures UndoConversation(b, r).value
         == b.(conversations := Mix(base.conversations, top.conversations, keys + {r.conversationId}))
  {
    var v := r.conversationId;
    if r.created.conversationId.Some? {
      CascadeRemovesNothing(b, base, top, quotes, r, channelId);
      MixRemove(base.conversations, top.conversations, keys, v);
    } else {
      RestoreConversationExact(v, base.conversations[v], top.conversations[v]);
      MixRestore(base.conversations, top.conversations, keys, v);
    }
  }

  lemma StepContact(b: Tables, base: Tables, top: Tables, keys: set<Id>, conversations: set<Id>, r: Record, channelId: Id)
    requires Undoable(base, top, r, channelId) && r.contactId !in keys
    requires ForeignKeys(base)
    requires b.contacts == Mix(base.contacts, top.contacts, keys)
    requires b.conversations == Mix(base.conversations, top.conversations, conversations) && r.conversationId in conversations
    requires CreatedRowsGone(b, top, r)
    ensures UndoContact(b, r).Ok?
    ensures UndoContact(b, r).value == b.(contacts := Mix(base.contacts, top.contacts, keys + {r.contactId}))
  {
    var c := r.contactId;
    if r.created.contactId.Some? {
      assert forall v | v in b.conversations :: b.conversations[v].contactId != c by {
        assert ConversationLinks(base.conversations, base.contacts.Keys);
      }
      assert !ContactReferenced(b, c);
      MixRemove(base.contacts, top.contacts, keys, c);
    } else {
      assert top.contacts[c].(displayName := base.contacts[c].displayName) == base.contacts[c];
      MixRestore(base.contacts, top.contacts, keys, c);
    }
  }

  lemma UndoRows(
    t: Tables, base: Tables, top: Tables, contacts: set<Id>, conversations: set<Id>, quotes: set<Id>, r: Record, channelId: Id)
    requires t.contacts == Mix(base.contacts, top.contacts, contacts) && r.contactId !in contacts
    requires t.conversations == Mix(base.conversations, top.conversations, conversations) && r.conversationId !in conversations
    requires t.quotes == Mix(base.quotes, top.quotes, quotes) && quotes !! QuoteKeys(r)
    requires CreatedRowsGone(DeleteCreatedRows(t, r.created), top, r)
    requires Undoable(base, top, r, channelId) && ForeignKeys(base)
    ensures RollbackRecord(t, r) == Ok(DeleteCreatedRows(t, r.created).(
              contacts := Mix(base.contacts, top.contacts, contacts + {r.contactId}),
              conversations := Mix(base.conversations, top.conversations, conversations + {r.conversationId}),
              quotes := Mix(base.quotes, top.quotes, quotes + QuoteKeys(r)),
              records := MarkRolledBack(t.records, r.id)))
  {
    var a := DeleteCreatedRows(t, r.created);
    StepQuote(a, base, top, quotes, r, channelId);
    var b := UndoQuote(a, r).value;
    StepConversation(b, base, top, conversations, quotes + QuoteKeys(r), r, channelId);
    var c := UndoConversation(b, r).value;
    StepContact(c, base, top, contacts, conversations + {r.conversationId}, r, channelId);
  }

  lemma StepMixture(t: Tables, base: Tables, top: Tables, done: seq<Record>, r: Record, channelId: Id)
    requires Mixture(t, base, top, done)
    requires Undoable(base, top, r, channelId) && Untouched(done, r) && ForeignKeys(base)
    ensures RollbackRecord(t, r).Ok?
    ensures Mixture(RollbackRecord(t, r).value, base, top, done + [r])
    ensures RollbackRecord(t, r).value.records == MarkRolledBack(t.records, r.id)
  {
    StepCreatedRows(t, base, top, done, r);
    SetsOfAppend(done, r);
    UndoRows(t, base, top, ContactSet(done), ConversationIds(done), QuoteSet(done), r, channelId);
  }

  // ---- From a history of commits to undoable records ------------------------------------

  ghost predicate AllRestorable(t: Tables) {
    forall q | q in t.quotes :: Restorable(t.quotes[q])
  }

  /** At the end of the history the rows of commit `i` still belong together. */
  lemma LinksAtEnd(states: seq<Tables>, records: seq<Record>, input: ApplyInput, i: nat)
    requires History(states, records, input) && i < |records|
    ensures var top := states[|records|]; var r := records[i];
            && r.conversationId in top.conversations
            && top.conversations[r.conversationId].channelId == input.channelId
            && top.conversations[r.conversationId].contactId == r.contactId
            && (QuoteTouched(r).Some? ==>
                  QuoteTouched(r).value in top.quotes && top.quotes[QuoteTouched(r).value].conversationId == r.conversationId)
  {
    assert CommitAt(states, records, input, i);
    ConversationsPersist(states, records, input, i + 1, |records|, records[i].conversationId);
    if QuoteTouched(records[i]).Some? {
      QuotesPersist(states, records, input, i + 1, |records|, QuoteTouched(records[i]).value);
    }
  }

  /** Distinct conversations have distinct contacts and distinct quotes. */
  lemma DistinctRows(states: seq<Tables>, records: seq<Record>, input: ApplyInput, i: nat, j: nat)
    requires History(states, records, input) && DistinctConversations(records) && i < j < |records|
    requires UniqueLinks(states[|records|].conversations)
    ensures records[i].contactId != records[j].contactId
    ensures QuoteTouched(records[i]).Some? ==> QuoteTouched(records[i]) != QuoteTouched(records[j])
  {
    LinksAtEnd(states, records, input, i);
    LinksAtEnd(states, records, input, j);
  }

  /** The rows that commit `i` touched are in `base` as it found them and in `top` as it left them. */
  lemma OnlyTouchedOnce(states: seq<Tables>, records: seq<Record>, input: ApplyInput, i: nat)
    requires History(states, records, input) && DistinctConversations(records) && i < |records|
    requires UniqueLinks(states[|records|].conversations)
    ensures var base := states[0]; var top := states[|records|]; var r := records[i];
            && ContactAt(base.contacts, top.contacts, r)
            && ConversationAt(base.conversations, top.conversations, r, input.channelId)
            && (QuoteTouched(r).Some? ==> QuoteAt(base.quotes, top.quotes, r, QuoteTouched(r).value))
  {
    var n := |records|;
    var r := records[i];
    forall k | 0 <= k < n && k != i
      ensures records[k].contactId != r.contactId && records[k].conversationId != r.conversationId
      ensures QuoteTouched(r).Some? ==> QuoteTouched(records[k]) != QuoteTouched(r)
    {
      if k < i { DistinctRows(states, records, input, k, i); } else { DistinctRows(states, records, input, i, k); }
    }
    assert CommitAt(states, records, input, i);
    ContactsUntouched(states, records, input, 0, i, r.contactId);
    ContactsUntouched(states, records, input, i + 1, n, r.contactId);
    ConversationsUntouched(states, records, input, 0, i, r.conversationId);
    ConversationsUntouched(states, records, input, i + 1, n, r.conversationId);
    if QuoteTouched(r).Some? {
      QuotesUntouched(states, records, input, 0, i, QuoteTouched(r).value);
      QuotesUntouched(states, records, input, i + 1, n, QuoteTouched(r).value);
    }
  }

  /** Messages and documents of a conversation that the batch created are those of its record. */
  lemma OwnRows(states: seq<Tables>, records: seq<Record>, input: ApplyInput, i: nat)
    requires History(states, records, input) && DistinctConversations(records) && i < |records|
    requires UniqueLinks(states[|records|].conversations) && ForeignKeys(states[0])
    requires records[i].conversationId !in states[0].conversations
    ensures var top := states[|records|]; var r := records[i];
            && (forall m | m in top.messages && top.messages[m].conversationId == r.conversationId :: m in IdSet(r.created.messageIds))
            && (forall d | d in top.documents && top.documents[d].conversationId == r.conversationId :: d in IdSet(r.created.documentIds))
            && (forall x | x in top.transitions :: top.transitions[x].conversationId != r.conversationId)
  {
    MessagesGrow(states, records, input, 0, |records|);
    DocumentsGrow(states, records, input, 0, |records|);
    TransitionsUntouched(states, records, input, 0, |records|);
  }

  lemma OwnQuotes(states: seq<Tables>, records: seq<Record>, input: ApplyInput, i: nat, q: Id)
    requires History(states, records, input) && DistinctConversations(records) && i < |records|
    requires ForeignKeys(states[0]) && records[i].conversationId !in states[0].conversations
    requires q in states[|records|].quotes && states[|records|].quotes[q].conversationId == records[i].conversationId
    ensures QuoteTouched(records[i]) == Some(q)
  {
    if forall k | 0 <= k < |records| :: QuoteTouched(records[k]) != Some(q) {
      QuotesUntouched(states, records, input, 0, |records|, q);
    } else {
      var k :| 0 <= k < |records| && QuoteTouched(records[k]) == Some(q);
      LinksAtEnd(states, records, input, k);
    }
  }

  lemma OwnContact(states: seq<Tables>, records: seq<Record>, input: ApplyInput, i: nat)
    requires History(states, records, input) && DistinctConversations(records) && i < |records|
    requires UniqueLinks(states[|records|].conversations) && ForeignKeys(states[0])
    requires records[i].contactId !in states[0].contacts
    ensures OwnsContact(states[|records|], records[i])
  {
    var top := states[|records|];
    var r := records[i];
    MessagesGrow(states, records, input, 0, |records|);
    forall m | m in top.messages && top.messages[m].contactId == r.contactId
      ensures m in IdSet(r.created.messageIds)
    {
      var k :| 0 <= k < |records| && MessageOf(records[k], m, top.messages[m]);
      if k < i { DistinctRows(states, records, input, k, i); }
      if i < k { DistinctRows(states, records, input, i, k); }
    }
    forall v | v in top.conversations && top.conversations[v].contactId == r.contactId
      ensures v == r.conversationId
    {
      if forall k | 0 <= k < |records| :: records[k].conversationId != v {
        ConversationsUntouched(states, records, input, 0, |records|, v);
      } else {
        var k :| 0 <= k < |records| && records[k].conversationId == v;
        LinksAtEnd(states, records, input, k);
        if k < i { DistinctRows(states, records, input, k, i); }
        if i < k { DistinctRows(states, records, input, i, k); }
      }
    }
  }

  lemma OwnQuoteDocuments(states: seq<Tables>, records: seq<Record>, input: ApplyInput, i: nat, d: Id)
    requires History(states, records, input) && DistinctConversations(records) && i < |records|
    requires UniqueLinks(states[|records|].conversations) && ForeignKeys(states[0])
    requires QuoteTouched(records[i]).Some? && QuoteTouched(records[i]).value !in states[0].quotes
    requires d in states[|records|].documents && Some(states[|records|].documents[d].quoteRequestId) == QuoteTouched(records[i])
    ensures d in IdSet(records[i].created.documentIds)
  {
    var top := states[|records|];
    DocumentsGrow(states, records, input, 0, |records|);
    var k :| 0 <= k < |records| && DocumentOf(records[k], d, top.documents[d]);
    if k < i { DistinctRows(states, records, input, k, i); }
    if i < k { DistinctRows(states, records, input, i, k); }
  }

  lemma UndoableAt(states: seq<Tables>, records: seq<Record>, input: ApplyInput, i: nat)
    requires History(states, records, input) && DistinctConversations(records) && i < |records|
    requires WellFormed(states[0]) && WellFormed(states[|records|]) && AllRestorable(states[0])
    ensures Undoable(states[0], states[|records|], records[i], input.channelId)
  {
    var base := states[0];
    var top := states[|records|];
    var r := records[i];
    OnlyTouchedOnce(states, records, input, i);
    if r.created.conversationId.Some? {
      OwnRows(states, records, input, i);
      forall q | q in top.quotes && top.quotes[q].conversationId == r.conversationId
        ensures QuoteTouched(r) == Some(q)
      {
        OwnQuotes(states, records, input, i, q);
      }
    }
    if r.created.quoteRequestId.Some? {
      forall d | d in top.documents && Some(top.documents[d].quoteRequestId) == QuoteTouched(r)
        ensures d in IdSet(r.created.documentIds)
      {
        OwnQuoteDocuments(states, records, input, i, d);
      }
    }
    if r.created.contactId.Some? {
      OwnContact(states, records, input, i);
    }
  }

  // ---- The whole rollback -----------------------------------------------------------------

  /** Any two places of a reordering hold records of different commits. */
  lemma DifferentCommits(records: seq<Record>, order: seq<Record>, a: nat, b: nat) returns (i: nat, j: nat)
    requires DistinctConversations(records) && multiset(order) == multiset(records) && a < b < |order|
    ensures i < |records| && j < |records| && i != j && order[a] == records[i] && order[b] == records[j]
  {
    assert order[a] in multiset(records) && order[b] in multiset(records);
    i :| 0 <= i < |records| && records[i] == order[a];
    j :| 0 <= j < |records| && records[j] == order[b];
    if i == j {
      CountTwice(order, a, b);
      CountOnce(records, i);
    }
  }

  lemma UntouchedAt(states: seq<Tables>, records: seq<Record>, input: ApplyInput, order: seq<Record>, b: nat)
    requires History(states, records, input) && DistinctConversations(records)
    requires UniqueLinks(states[|records|].conversations)
    requires multiset(order) == multiset(records) && b < |order|
    ensures Untouched(order[..b], order[b])
  {
    forall s | s in order[..b]
      ensures s.contactId != order[b].contactId && s.conversationId != order[b].conversationId
      ensures QuoteTouched(s).Some? ==> QuoteTouched(s) != QuoteTouched(order[b])
    {
      var a :| 0 <= a < b && order[a] == s;
      var i, j := DifferentCommits(records, order, a, b);
      if i < j { DistinctRows(states, records, input, i, j); } else { DistinctRows(states, records, input, j, i); }
    }
  }

  lemma TakeLast<T>(s: seq<T>, n: nat)
    requires 0 < n <= |s|
    ensures s[..n] == s[..n - 1] + [s[n - 1]]
  {
  }

  lemma MixtureOfNone(base: Tables, top: Tables)
    ensures Mixture(top, base, top, [])
  {
    assert top.messages - MessageSet([]) == top.messages;
    assert top.documents - DocumentSet([]) == top.documents;
  }

  /** Record `k` of the order can be undone once those before it are. */
  ghost predicate NextUndoable(base: Tables, top: Tables, order: seq<Record>, k: nat, channelId: Id)
    requires k < |order|
  {
    Undoable(base, top, order[k], channelId) && Untouched(order[..k], order[k])
  }

  /** After the first `n` records the tables are a mixture, whatever the order. */
  lemma {:induction false} RollbackMixture(base: Tables, top: Tables, order: seq<Record>, n: nat, channelId: Id) returns (t: Tables)
    requires ForeignKeys(base) && n <= |order|
    requires forall k: nat | k < |order| :: NextUndoable(base, top, order, k, channelId)
    ensures RollsBackTo(top, order, n, t) && Mixture(t, base, top, order[..n])
  {
    if n == 0 {
      MixtureOfNone(base, top);
      assert order[..0] == [];
      t := top;
    } else {
      var earlier := RollbackMixture(base, top, order, n - 1, channelId);
      t := MixtureOfMore(base, top, order, n, channelId, earlier);
    }
  }

  lemma MixtureOfMore(base: Tables, top: Tables, order: seq<Record>, n: nat, channelId: Id, earlier: Tables) returns (t: Tables)
    requires ForeignKeys(base) && 0 < n <= |order| && NextUndoable(base, top, order, n - 1, channelId)
    requires RollsBackTo(top, order, n - 1, earlier) && Mixture(earlier, base, top, order[..n - 1])
    ensures RollsBackTo(top, order, n, t) && Mixture(t, base, top, order[..n])
  {
    StepMixture(earlier, base, top, order[..n - 1], order[n - 1], channelId);
    t := RollbackRecord(earlier, order[n - 1]).value;
    TakeLast(order, n);
    SameMixture(t, base, top, order[..n - 1] + [order[n - 1]], order[..n]);
    RollsBackOneMore(top, order, n - 1, earlier, t);
  }

  lemma SameMixture(t: Tables, base: Tables, top: Tables, done: seq<Record>, other: seq<Record>)
    requires done == other && Mixture(t, base, top, done)
    ensures Mixture(t, base, top, other)
  {
  }

  /** The six tables that an import writes. */
  ghost predicate SameRows(a: Tables, b: Tables) {
    && a.contacts == b.contacts && a.conversations == b.conversations && a.quotes == b.quotes
    && a.messages == b.messages && a.documents == b.documents && a.refs == b.refs
    && a.transitions == b.transitions
  }

  lemma MixtureOfAll(states: seq<Tables>, records: seq<Record>, input: ApplyInput, order: seq<Record>, t: Tables)
    requires History(states, records, input) && multiset(order) == multiset(records)
    requires Mixture(t, states[0], states[|records|], order)
    ensures SameRows(t, states[0])
  {
    var n := |records|;
    var base := states[0];
    assert forall r :: r in order <==> r in multiset(order);
    assert forall r :: r in order <==> r in records;
    assert forall k | 0 <= k < n :: records[k] in order;
    forall c | c !in ContactSet(order)
      ensures SameAt(base.contacts, states[n].contacts, c)
    {
      ContactsUntouched(states, records, input, 0, n, c);
    }
    forall v | v !in ConversationIds(order)
      ensures SameAt(base.conversations, states[n].conversations, v)
    {
      ConversationsUntouched(states, records, input, 0, n, v);
    }
    forall q | q !in QuoteSet(order)
      ensures SameAt(base.quotes, states[n].quotes, q)
    {
      QuotesUntouched(states, records, input, 0, n, q);
    }
    assert t.contacts == base.contacts;
    assert t.conversations == base.conversations;
    assert t.quotes == base.quotes;
    TransitionsUntouched(states, records, input, 0, n);
    CreatedRowsOfAll(states, records, input, order, t);
  }

  lemma CreatedAreNew(states: seq<Tables>, records: seq<Record>, input: ApplyInput, i: nat)
    requires History(states, records, input) && i < |records|
    ensures states[0].messages.Keys !! IdSet(records[i].created.messageIds)
    ensures states[0].documents.Keys !! IdSet(records[i].created.documentIds)
  {
    assert CommitAt(states, records, input, i);
    MessagesGrow(states, records, input, 0, i);
    DocumentsGrow(states, records, input, 0, i);
  }

  lemma CreatedRowsOfAll(states: seq<Tables>, records: seq<Record>, input: ApplyInput, order: seq<Record>, t: Tables)
    requires History(states, records, input) && forall r :: r in order <==> r in records
    requires Mixture(t, states[0], states[|records|], order)
    ensures t.messages == states[0].messages && t.documents == states[0].documents && t.refs == states[0].refs
  {
    var n := |records|;
    var base := states[0];
    MessagesGrow(states, records, input, 0, n);
    DocumentsGrow(states, records, input, 0, n);
    RefsGrow(states, records, input, 0, n);
    forall r | r in order
      ensures base.messages.Keys !! IdSet(r.created.messageIds) && base.documents.Keys !! IdSet(r.created.documentIds)
      ensures forall k | k in base.refs :: !RefOf(r, base.refs[k].id)
    {
      var i :| 0 <= i < n && records[i] == r;
      CreatedAreNew(states, records, input, i);
    }
    assert forall k | 0 <= k < n :: records[k] in order;
    assert t.messages == base.messages;
    assert t.documents == base.documents;
    assert t.refs == base.refs;
  }

  /**
    Rollback inverts apply: when nothing blocks the rollback of a batch, undoing its
    records succeeds in every order and leaves every table that an import writes
    exactly as it was before the first commit.
   */
  lemma RollbackInvertsApply(states: seq<Tables>, records: seq<Record>, input: ApplyInput, cutoffAt: Instant, order: seq<Record>)
    requires History(states, records, input)
    requires WellFormed(states[0]) && WellFormed(states[|records|]) && AllRestorable(states[0])
    requires multiset(order) == multiset(records)
    requires CollectBlockers(states[|records|], cutoffAt, order, |order|) == []
    ensures RollbackAll(states[|records|], order, |order|).Ok?
    ensures SameRows(RollbackAll(states[|records|], order, |order|).value, states[0])
  {
    forall r | r in records
      ensures r in order
    {
      assert r in multiset(records);
    }
    NoBlockersMeansDistinct(states, records, input, cutoffAt, order);
    forall k: nat | k < |order|
      ensures NextUndoable(states[0], states[|records|], order, k, input.channelId)
    {
      assert order[k] in multiset(records);
      var i :| 0 <= i < |records| && records[i] == order[k];
      UndoableAt(states, records, input, i);
      UntouchedAt(states, records, input, order, k);
    }
    var t := RollbackMixture(states[0], states[|records|], order, |order|, input.channelId);
    assert order[..|order|] == order;
    MixtureOfAll(states, records, input, order, t);
  }
}
