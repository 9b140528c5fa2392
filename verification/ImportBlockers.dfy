/** Exactly when a rollback is not blocked. */
module ImportBlockers {
  import opened Wrappers
  import opened ImportTables
  import opened ImportApply
  import opened ImportEffect
  import opened ImportRollback
  import opened ImportInverse

  /** A message, transition or document of the conversation is newer than the cutoff. */
  ghost predicate ActiveAfter(t: Tables, cutoffAt: Instant, conversationId: Id) {
    || (exists m :: m in t.messages && t.messages[m].conversationId == conversationId && t.messages[m].createdAt > cutoffAt)
    || (exists x :: x in t.transitions && t.transitions[x].conversationId == conversationId && t.transitions[x].createdAt > cutoffAt)
    || (exists d :: d in t.documents && t.documents[d].conversationId == conversationId && t.documents[d].createdAt > cutoffAt)
  }

  ghost predicate QuietBefore(base: Tables, cutoffAt: Instant, records: seq<Record>) {
    forall r | r in records :: !ActiveAfter(base, cutoffAt, r.conversationId)
  }

  /** What was in the conversation before the batch is exactly what can count as real activity after it. */
  lemma InteractionIffActive(states: seq<Tables>, records: seq<Record>, input: ApplyInput, cutoffAt: Instant, i: nat)
    requires History(states, records, input) && DistinctConversations(records) && i < |records|
    ensures InteractionAfter(states[|records|], cutoffAt, records[i]) <==> ActiveAfter(states[0], cutoffAt, records[i].conversationId)
  {
    var base := states[0];
    var top := states[|records|];
    var r := records[i];
    MessagesGrow(states, records, input, 0, |records|);
    DocumentsGrow(states, records, input, 0, |records|);
    TransitionsUntouched(states, records, input, 0, |records|);
    CreatedAreNew(states, records, input, i);
    assert forall m | m in top.messages && m !in base.messages && top.messages[m].conversationId == r.conversationId :: m in IdSet(r.created.messageIds);
    assert forall d | d in top.documents && d !in base.documents && top.documents[d].conversationId == r.conversationId :: d in IdSet(r.created.documentIds);
    MemberOfIdSet(r.created.messageIds);
    MemberOfIdSet(r.created.documentIds);
    assert forall m | m in base.messages :: m in top.messages && m !in r.created.messageIds && top.messages[m] == base.messages[m];
    assert forall d | d in base.documents :: d in top.documents && d !in r.created.documentIds && top.documents[d] == base.documents[d];
  }

  lemma MemberOfIdSet(ids: seq<Id>)
    ensures forall id :: id in IdSet(ids) <==> id in ids
  {
  }

  /** With no other commit on its conversation, a record's rows are still as it left them. */
  lemma SnapshotStillHolds(states: seq<Tables>, records: seq<Record>, input: ApplyInput, i: nat)
    requires History(states, records, input) && DistinctConversations(records) && i < |records|
    requires UniqueLinks(states[|records|].conversations) && UniqueSequences(states[|records|].quotes) && UniqueSequences(states[i + 1].quotes)
    requires ForeignKeys(states[0])
    ensures LoadSnapshot(states[|records|], records[i].contactId, records[i].conversationId, QuoteSequenceOf(records[i].after)) == records[i].after
  {
    var n := |records|;
    var r := records[i];
    var after := states[i + 1];
    var top := states[n];
    forall k | i < k < n
      ensures records[k].contactId != r.contactId && records[k].conversationId != r.conversationId
      ensures QuoteTouched(r).Some? ==> QuoteTouched(records[k]) != QuoteTouched(r)
    {
      DistinctRows(states, records, input, i, k);
    }
    assert CommitAt(states, records, input, i);
    ContactsUntouched(states, records, input, i + 1, n, r.contactId);
    ConversationsUntouched(states, records, input, i + 1, n, r.conversationId);
    var sequence := QuoteSequenceOf(r.after);
    if r.after.quoteRequest.Some? {
      var q := QuoteTouched(r).value;
      QuotesUntouched(states, records, input, i + 1, n, q);
      assert FindQuote(after.quotes, r.conversationId, sequence) == Some(q);
      AddressedIsFound(top.quotes, r.conversationId, sequence, Some(q));
    }
  }

  /** A contact that the batch created is used by no conversation outside the batch. */
  lemma NeverReused(states: seq<Tables>, records: seq<Record>, input: ApplyInput, i: nat, ids: set<Id>)
    requires History(states, records, input) && DistinctConversations(records) && i < |records|
    requires UniqueLinks(states[|records|].conversations) && ForeignKeys(states[0])
    requires records[i].conversationId in ids
    ensures !ReusedOutside(states[|records|], records[i], ids)
  {
    assert CommitAt(states, records, input, i);
    if records[i].created.contactId.Some? {
      OnlyTouchedOnce(states, records, input, i);
      OwnContact(states, records, input, i);
    }
  }

  lemma NoBlockersFor(states: seq<Tables>, records: seq<Record>, input: ApplyInput, cutoffAt: Instant, i: nat, ids: set<Id>)
    requires History(states, records, input) && DistinctConversations(records) && i < |records|
    requires WellFormed(states[0]) && WellFormed(states[|records|]) && UniqueSequences(states[i + 1].quotes)
    requires !ActiveAfter(states[0], cutoffAt, records[i].conversationId) && records[i].conversationId in ids
    ensures RecordBlockers(states[|records|], cutoffAt, records[i], ids) == []
  {
    InteractionIffActive(states, records, input, cutoffAt, i);
    SnapshotStillHolds(states, records, input, i);
    NeverReused(states, records, input, i, ids);
  }

  lemma {:induction false} NoBlockersAtAll(t: Tables, cutoffAt: Instant, order: seq<Record>, n: nat)
    requires n <= |order|
    requires forall k | 0 <= k < n :: RecordBlockers(t, cutoffAt, order[k], ConversationIds(order)) == []
    ensures CollectBlockers(t, cutoffAt, order, n) == []
  {
    if n > 0 {
      NoBlockersAtAll(t, cutoffAt, order, n - 1);
    }
  }

  lemma UnblockedMeansQuiet(states: seq<Tables>, records: seq<Record>, input: ApplyInput, cutoffAt: Instant, order: seq<Record>, i: nat)
    requires History(states, records, input) && i < |records| && records[i] in order
    requires forall k | 0 <= k < |states| :: WellFormed(states[k])
    requires DistinctConversations(records) && CollectBlockers(states[|records|], cutoffAt, order, |order|) == []
    ensures !ActiveAfter(states[0], cutoffAt, records[i].conversationId)
  {
    var k: nat :| k < |order| && order[k] == records[i];
    NoBlockersOf(states[|records|], cutoffAt, order, |order|, k);
    InteractionIffActive(states, records, input, cutoffAt, i);
  }

  lemma QuietMeansUnblocked(states: seq<Tables>, records: seq<Record>, input: ApplyInput, cutoffAt: Instant, order: seq<Record>)
    requires History(states, records, input) && forall r | r in order :: r in records
    requires forall k | 0 <= k < |states| :: WellFormed(states[k])
    requires DistinctConversations(records) && QuietBefore(states[0], cutoffAt, records)
    requires forall k | 0 <= k < |order| :: order[k].conversationId in ConversationIds(order)
    ensures CollectBlockers(states[|records|], cutoffAt, order, |order|) == []
  {
    var ids := ConversationIds(order);
    forall k | 0 <= k < |order|
      ensures RecordBlockers(states[|records|], cutoffAt, order[k], ids) == []
    {
      assert order[k] in records;
      var i: nat :| i < |records| && records[i] == order[k];
      NoBlockersFor(states, records, input, cutoffAt, i, ids);
    }
    NoBlockersAtAll(states[|records|], cutoffAt, order, |order|);
  }

  /**
    A batch that only the importer has touched can be rolled back exactly when its
    rows resolved to distinct conversations and none of these had activity after
    the cutoff already.
   */
  lemma UnblockedIff(states: seq<Tables>, records: seq<Record>, input: ApplyInput, cutoffAt: Instant, order: seq<Record>)
    requires History(states, records, input) && multiset(order) == multiset(records)
    requires forall i | 0 <= i < |states| :: WellFormed(states[i])
    ensures CollectBlockers(states[|records|], cutoffAt, order, |order|) == []
       <==> DistinctConversations(records) && QuietBefore(states[0], cutoffAt, records)
  {
    assert forall r :: r in order <==> r in multiset(order);
    assert forall r :: r in order <==> r in records;
    if CollectBlockers(states[|records|], cutoffAt, order, |order|) == [] {
      NoBlockersMeansDistinct(states, records, input, cutoffAt, order);
      forall r | r in records
        ensures !ActiveAfter(states[0], cutoffAt, r.conversationId)
      {
        var i: nat :| i < |records| && records[i] == r;
        UnblockedMeansQuiet(states, records, input, cutoffAt, order, i);
      }
    } else if DistinctConversations(records) && QuietBefore(states[0], cutoffAt, records) {
      QuietMeansUnblocked(states, records, input, cutoffAt, order);
    }
  }
}
