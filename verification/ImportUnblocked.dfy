/**
  What empty blockers are worth when others write between the commits of a batch and its
  rollback: as long as nobody lowers a version or gives an identifier to another row, no
  two records are about one conversation, and everything is restored.
 */
module ImportUnblocked {
  import opened Wrappers
  import opened ImportTables
  import opened ImportApply
  import opened ImportEffect
  import opened ImportRollback
  import opened ImportInverse
  import opened ImportForeign

  // ---- Others between the commits ----------------------------------------------------------

  /** Every commit found its own state of the tables; whatever happened in between is not said here. */
  ghost predicate AmongOthers(starts: seq<Tables>, ends: seq<Tables>, records: seq<Record>, input: ApplyInput) {
    && |starts| == |ends| == |records|
    && forall i | 0 <= i < |records| :: Effect(starts[i], ends[i], records[i], input)
  }

  /** A conversation stays with its contact and channel, a quote with its conversation. */
  ghost predicate LinksKept(a: Tables, b: Tables) {
    && (forall v | v in a.conversations && v in b.conversations :: SameLinks(a.conversations[v], b.conversations[v]))
    && (forall q | q in a.quotes && q in b.quotes :: a.quotes[q].conversationId == b.quotes[q].conversationId)
  }

  ghost predicate VersionsKept(a: Tables, b: Tables) {
    forall v | v in a.conversations && v in b.conversations :: a.conversations[v].version <= b.conversations[v].version
  }

  /** A created conversation has an identifier of its own. */
  predicate NotReused(r: Record, a: Tables) {
    r.created.conversationId.Some? ==> r.created.conversationId.value !in a.conversations
  }

  ghost predicate FairBetween(starts: seq<Tables>, ends: seq<Tables>, records: seq<Record>, i: nat, j: nat)
    requires i < |ends| && j < |starts| && j < |records|
  {
    LinksKept(ends[i], starts[j]) && VersionsKept(ends[i], starts[j]) && NotReused(records[j], ends[i])
  }

  /** From each commit to every later one, and to the rollback, identifiers are not given away and versions not lowered. */
  ghost predicate Fair(starts: seq<Tables>, ends: seq<Tables>, records: seq<Record>, t: Tables)
    requires |starts| == |ends| == |records|
  {
    && (forall i, j | 0 <= i < j < |records| :: FairBetween(starts, ends, records, i, j))
    && forall i | 0 <= i < |records| :: LinksKept(ends[i], t)
  }

  ghost predicate SnapshotHolds(t: Tables, r: Record) {
    LoadSnapshot(t, r.contactId, r.conversationId, QuoteSequenceOf(r.after)) == r.after
  }

  lemma UnblockedHolds(t: Tables, cutoffAt: Instant, order: seq<Record>, r: Record)
    requires CollectBlockers(t, cutoffAt, order, |order|) == [] && r in order
    ensures SnapshotHolds(t, r)
  {
    var i :| 0 <= i < |order| && order[i] == r;
    NoBlockersOf(t, cutoffAt, order, |order|, i);
  }

  // ---- Two records of one conversation ---------------------------------------------------------

  /** If both snapshots hold, someone had lowered the version of the conversation by one in between. */
  lemma TwiceMeansLowered(a: Tables, b: Tables, r: Record, c: Tables, d: Tables, s: Record, t: Tables, input: ApplyInput)
    requires Effect(a, b, r, input) && Effect(c, d, s, input) && r.conversationId == s.conversationId && NotReused(s, b)
    requires SnapshotHolds(t, r) && SnapshotHolds(t, s)
    ensures var v := r.conversationId;
            v in b.conversations && v in c.conversations && c.conversations[v].version + 1 == b.conversations[v].version
  {
    var v := r.conversationId;
    assert r.after.conversation == s.after.conversation;
    assert SelectConversation(v, b.conversations[v]).version == SelectConversation(v, d.conversations[v]).version;
  }

  /** When nothing blocks, no two records of the batch are about one conversation. */
  lemma UnblockedMeansDistinct(
    starts: seq<Tables>, ends: seq<Tables>, records: seq<Record>, input: ApplyInput, t: Tables, cutoffAt: Instant, order: seq<Record>)
    requires AmongOthers(starts, ends, records, input) && Fair(starts, ends, records, t)
    requires CollectBlockers(t, cutoffAt, order, |order|) == [] && forall r | r in records :: r in order
    ensures DistinctConversations(records)
  {
    forall i, j | 0 <= i < j < |records|
      ensures records[i].conversationId != records[j].conversationId
    {
      UnblockedHolds(t, cutoffAt, order, records[i]);
      UnblockedHolds(t, cutoffAt, order, records[j]);
      assert FairBetween(starts, ends, records, i, j);
      if records[i].conversationId == records[j].conversationId {
        TwiceMeansLowered(starts[i], ends[i], records[i], starts[j], ends[j], records[j], t, input);
      }
    }
  }

  /**
    Were everything put back as it was between two commits, the second could leave what the
    first had left: then both records are about one conversation and blocked by nothing more
    than the first alone.
   */
  lemma WrittenBackUnseen(a: Tables, b: Tables, r: Record, s: Record, input: ApplyInput, t: Tables, cutoffAt: Instant, ids: set<Id>)
    requires Effect(a, b, r, input) && !RecordConflict(a.records, s)
    requires s == r.(id := s.id, externalConversationId := s.externalConversationId)
    ensures Effect(a, b.(records := a.records + [s]), s, input) && s.conversationId == r.conversationId
    ensures RecordBlockers(t, cutoffAt, s, ids) == RecordBlockers(t, cutoffAt, r, ids)
  {
  }

  // ---- No row is named twice --------------------------------------------------------------------

  /** What one record restores the other neither restores nor deletes. */
  ghost predicate NotNamedBy(r: Record, s: Record) {
    forall k: Id ::
      && (RestoresConversation(r, k) ==> !RestoresConversation(s, k) && s.created.conversationId != Some(k))
      && (RestoresContact(r, k) ==> !RestoresContact(s, k) && s.created.contactId != Some(k))
      && (RestoresQuote(r, k) ==> !RestoresQuote(s, k))
  }

  /** What a record names is its own conversation and contact, and a quote of that conversation. */
  lemma NamesItsOwn(a: Tables, b: Tables, r: Record, input: ApplyInput, k: Id)
    requires Effect(a, b, r, input)
    ensures RestoresConversation(r, k) || r.created.conversationId == Some(k) ==> k == r.conversationId
    ensures RestoresContact(r, k) || r.created.contactId == Some(k) ==> k == r.contactId
    ensures RestoresQuote(r, k) ==>
              k in a.quotes && k in b.quotes && a.quotes[k].conversationId == b.quotes[k].conversationId == r.conversationId
  {
  }

  lemma HeldConversation(a: Tables, b: Tables, r: Record, input: ApplyInput, t: Tables)
    requires Effect(a, b, r, input) && LinksKept(b, t) && SnapshotHolds(t, r)
    ensures r.conversationId in t.conversations
    ensures t.conversations[r.conversationId].channelId == input.channelId && t.conversations[r.conversationId].contactId == r.contactId
  {
    var v := r.conversationId;
    assert r.after.conversation == Some(SelectConversation(v, b.conversations[v]));
  }

  /** Different conversations of one channel have different contacts, so the two records name no row in common. */
  lemma NothingInCommon(
    a: Tables, b: Tables, r: Record, c: Tables, d: Tables, s: Record, input: ApplyInput, t: Tables)
    requires Effect(a, b, r, input) && Effect(c, d, s, input) && r.conversationId != s.conversationId
    requires UniqueLinks(t.conversations) && LinksKept(b, t) && LinksKept(d, t) && SnapshotHolds(t, r) && SnapshotHolds(t, s)
    requires LinksKept(b, c) || LinksKept(d, a)
    ensures NotNamedBy(r, s)
  {
    HeldConversation(a, b, r, input, t);
    HeldConversation(c, d, s, input, t);
    assert r.contactId != s.contactId;
    forall k: Id
      ensures RestoresConversation(r, k) ==> !RestoresConversation(s, k) && s.created.conversationId != Some(k)
      ensures RestoresContact(r, k) ==> !RestoresContact(s, k) && s.created.contactId != Some(k)
      ensures RestoresQuote(r, k) ==> !RestoresQuote(s, k)
    {
      NamesItsOwn(a, b, r, input, k);
      NamesItsOwn(c, d, s, input, k);
    }
  }

  lemma EachNamedOnce(
    starts: seq<Tables>, ends: seq<Tables>, records: seq<Record>, input: ApplyInput, t: Tables, i: nat, j: nat)
    requires AmongOthers(starts, ends, records, input) && Fair(starts, ends, records, t) && DistinctConversations(records)
    requires i < |records| && j < |records| && i != j
    requires UniqueLinks(t.conversations) && SnapshotHolds(t, records[i]) && SnapshotHolds(t, records[j])
    ensures NotNamedBy(records[i], records[j])
  {
    assert if i < j then FairBetween(starts, ends, records, i, j) else FairBetween(starts, ends, records, j, i);
    assert records[i].conversationId != records[j].conversationId;
    NothingInCommon(starts[i], ends[i], records[i], starts[j], ends[j], records[j], input, t);
  }

  lemma NamedLastIf(order: seq<Record>, k: nat)
    requires k < |order| && forall r | r in order[k + 1..] :: NotNamedBy(order[k], r)
    ensures NamedLast(order, k)
  {
    forall r, id: Id | r in order[k + 1..]
      ensures RestoresConversation(order[k], id) ==> !RestoresConversation(r, id) && r.created.conversationId != Some(id)
      ensures RestoresContact(order[k], id) ==> !RestoresContact(r, id) && r.created.contactId != Some(id)
      ensures RestoresQuote(order[k], id) ==> !RestoresQuote(r, id)
    {
      assert NotNamedBy(order[k], r);
    }
  }

  lemma PairNamedOnce(
    starts: seq<Tables>, ends: seq<Tables>, records: seq<Record>, input: ApplyInput, t: Tables, cutoffAt: Instant, order: seq<Record>,
    k: nat, l: nat)
    requires AmongOthers(starts, ends, records, input) && Fair(starts, ends, records, t) && DistinctConversations(records)
    requires UniqueLinks(t.conversations) && multiset(order) == multiset(records) && k < l < |order|
    requires CollectBlockers(t, cutoffAt, order, |order|) == []
    ensures NotNamedBy(order[k], order[l])
  {
    var i, j := DifferentCommits(records, order, k, l);
    UnblockedHolds(t, cutoffAt, order, order[k]);
    UnblockedHolds(t, cutoffAt, order, order[l]);
    EachNamedOnce(starts, ends, records, input, t, i, j);
  }

  lemma AllNamedLast(
    starts: seq<Tables>, ends: seq<Tables>, records: seq<Record>, input: ApplyInput, t: Tables, cutoffAt: Instant, order: seq<Record>, k: nat)
    requires AmongOthers(starts, ends, records, input) && Fair(starts, ends, records, t) && DistinctConversations(records)
    requires UniqueLinks(t.conversations) && multiset(order) == multiset(records) && k < |order|
    requires CollectBlockers(t, cutoffAt, order, |order|) == []
    ensures NamedLast(order, k)
  {
    forall r | r in order[k + 1..]
      ensures NotNamedBy(order[k], r)
    {
      var l :| 0 <= l < |order[k + 1..]| && order[k + 1..][l] == r;
      PairNamedOnce(starts, ends, records, input, t, cutoffAt, order, k, k + 1 + l);
    }
    NamedLastIf(order, k);
  }

  /**
    Whatever others wrote, as long as they were fair: a rollback that nothing blocks and
    that succeeds takes away exactly the rows of its records and what hangs on them, and
    gives every row it restores its before-snapshot.
   */
  lemma UnblockedRestoresAll(
    starts: seq<Tables>, ends: seq<Tables>, records: seq<Record>, input: ApplyInput, t: Tables, cutoffAt: Instant, order: seq<Record>, b: Tables)
    requires AmongOthers(starts, ends, records, input) && Fair(starts, ends, records, t) && WellFormed(t)
    requires multiset(order) == multiset(records) && CollectBlockers(t, cutoffAt, order, |order|) == []
    requires RollsBackTo(t, order, |order|, b)
    ensures ExactlyRolledBack(t, b, order) && forall r | r in records :: Restored(b, r)
  {
    RollsBackWhateverHappened(t, order, b);
    assert forall r :: r in records <==> r in multiset(records);
    assert forall r :: r in order <==> r in multiset(order);
    UnblockedMeansDistinct(starts, ends, records, input, t, cutoffAt, order);
    forall r | r in records
      ensures Restored(b, r)
    {
      var k :| 0 <= k < |order| && order[k] == r;
      AllNamedLast(starts, ends, records, input, t, cutoffAt, order, k);
    }
  }
}
