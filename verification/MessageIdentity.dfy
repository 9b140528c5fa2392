/** Ids of exported messages that stay the same when the export is repeated. */
module MessageIdentity {
  import opened Wrappers

  /** What the hash of a message is taken of; the hash is injective. */
  datatype Signature = Signature(
    conversation: string,
    wallClock: string,
    sender: string,
    kind: string,
    text: Option<string>,
    attachment: Option<string>)

  datatype MessageId = Own(id: string) | Derived(signature: Signature, ordinal: nat)

  datatype ExportMessage = ExportMessage(
    ownId: Option<string>,
    wallClock: string,
    sender: string,
    kind: string,
    text: Option<string>,
    attachment: Option<string>)

  function SignatureOf(conversation: string, m: ExportMessage): Signature {
    Signature(conversation, m.wallClock, m.sender, m.kind, m.text, m.attachment)
  }

  function Signatures(conversation: string, messages: seq<ExportMessage>): (r: seq<Signature>)
    ensures |r| == |messages|
  {
    seq(|messages|, i requires 0 <= i < |messages| => SignatureOf(conversation, messages[i]))
  }

  /** A message's own id, or its signature with the number of equal ones before it. */
  function IdAt(conversation: string, messages: seq<ExportMessage>, i: nat): MessageId
    requires i < |messages|
  {
    if messages[i].ownId.Some? then Own(messages[i].ownId.value)
    else
      var signature := SignatureOf(conversation, messages[i]);
      Derived(signature, multiset(Signatures(conversation, messages)[..i])[signature])
  }

  method Identify(conversation: string, messages: seq<ExportMessage>) returns (ids: seq<MessageId>)
    ensures |ids| == |messages| && forall i | 0 <= i < |ids| :: ids[i] == IdAt(conversation, messages, i)
  {
    ids := [];
    var duplicateOrdinals: map<Signature, nat> := map[];
    for n := 0 to |messages|
      invariant |ids| == n && forall i | 0 <= i < n :: ids[i] == IdAt(conversation, messages, i)
      invariant forall s :: (if s in duplicateOrdinals then duplicateOrdinals[s] else 0) == multiset(Signatures(conversation, messages)[..n])[s]
    {
      var signature := SignatureOf(conversation, messages[n]);
      var ordinal := if signature in duplicateOrdinals then duplicateOrdinals[signature] else 0;
      duplicateOrdinals := duplicateOrdinals[signature := ordinal + 1];
      var signatures := Signatures(conversation, messages);
      assert signatures[..n + 1] == signatures[..n] + [signature];
      ids := ids + [if messages[n].ownId.Some? then Own(messages[n].ownId.value) else Derived(signature, ordinal)];
    }
  }

  // ---- Ids and multisets of signatures ---------------------------------------------------

  predicate WithoutOwnIds(messages: seq<ExportMessage>) {
    forall m | m in messages :: m.ownId.None?
  }

  function Ids(conversation: string, messages: seq<ExportMessage>): set<MessageId> {
    set i | 0 <= i < |messages| :: IdAt(conversation, messages, i)
  }

  lemma {:induction false} CountGrows(s: seq<Signature>, i: nat, j: nat, x: Signature)
    requires i <= j <= |s|
    ensures multiset(s[..i])[x] <= multiset(s[..j])[x]
  {
    if i < j {
      CountGrows(s, i, j - 1, x);
      assert s[..j] == s[..j - 1] + [s[j - 1]];
    }
  }

  /** Equal messages get different ordinals. */
  lemma IdsDiffer(conversation: string, messages: seq<ExportMessage>, i: nat, j: nat)
    requires WithoutOwnIds(messages) && i < j < |messages|
    ensures IdAt(conversation, messages, i) != IdAt(conversation, messages, j)
  {
    var s := Signatures(conversation, messages);
    assert messages[i] in messages && messages[j] in messages;
    assert s[..i + 1] == s[..i] + [s[i]];
    CountGrows(s, i + 1, j, s[i]);
  }

  /** The place of copy `k` of a signature. */
  lemma {:induction false} CopyAt(s: seq<Signature>, n: nat, x: Signature, k: nat) returns (i: nat)
    requires n <= |s| && k < multiset(s[..n])[x]
    ensures i < n && s[i] == x && multiset(s[..i])[x] == k
  {
    assert n > 0;
    assert s[..n] == s[..n - 1] + [s[n - 1]];
    if k < multiset(s[..n - 1])[x] {
      i := CopyAt(s, n - 1, x, k);
    } else {
      i := n - 1;
    }
  }

  /** The ids are all copies of all signatures, so they depend on the multiset of signatures alone. */
  lemma IdsAreCopies(conversation: string, messages: seq<ExportMessage>, id: MessageId)
    requires WithoutOwnIds(messages)
    ensures id in Ids(conversation, messages)
       <==> id.Derived? && id.ordinal < multiset(Signatures(conversation, messages))[id.signature]
  {
    var s := Signatures(conversation, messages);
    assert s[..|s|] == s;
    if i: nat :| i < |messages| && id == IdAt(conversation, messages, i) {
      assert messages[i] in messages;
      assert s[..i + 1] == s[..i] + [s[i]];
      CountGrows(s, i + 1, |s|, s[i]);
    }
    if id.Derived? && id.ordinal < multiset(s)[id.signature] {
      var i := CopyAt(s, |s|, id.signature, id.ordinal);
      assert messages[i] in messages;
      assert id == IdAt(conversation, messages, i);
    }
  }

  /** One export has all the ids of another exactly when it has all its messages, as often as they occur. */
  lemma ContainsIff(conversation: string, older: seq<ExportMessage>, newer: seq<ExportMessage>)
    requires WithoutOwnIds(older) && WithoutOwnIds(newer)
    ensures Ids(conversation, older) <= Ids(conversation, newer)
       <==> multiset(Signatures(conversation, older)) <= multiset(Signatures(conversation, newer))
  {
    var a, b := multiset(Signatures(conversation, older)), multiset(Signatures(conversation, newer));
    if Ids(conversation, older) <= Ids(conversation, newer) {
      forall x | x in a
        ensures a[x] <= b[x]
      {
        IdsAreCopies(conversation, older, Derived(x, a[x] - 1));
        IdsAreCopies(conversation, newer, Derived(x, a[x] - 1));
      }
    }
    if a <= b {
      forall id | id in Ids(conversation, older)
        ensures id in Ids(conversation, newer)
      {
        IdsAreCopies(conversation, older, id);
        IdsAreCopies(conversation, newer, id);
      }
    }
  }

  // ---- Archives that were imported before ----------------------------------------------------

  datatype Archive = Archive(archiveId: string, conversation: string, messages: seq<ExportMessage>)

  predicate DistinctArchives(archives: seq<Archive>) {
    forall i, j | 0 <= i < j < |archives| :: archives[i].archiveId != archives[j].archiveId
  }

  /** Every message of the archive is known, and there is at least one. */
  predicate AllImported(a: Archive, references: set<MessageId>) {
    a.messages != [] && forall i | 0 <= i < |a.messages| :: IdAt(a.conversation, a.messages, i) in references
  }

  /** The archives that need not be imported again; only those with a mapping are looked at. */
  method PreviouslyImported(archives: seq<Archive>, mapped: set<string>, references: set<MessageId>) returns (skipped: set<string>)
    requires DistinctArchives(archives)
    ensures forall id :: id in skipped <==> exists a | a in archives :: a.archiveId == id && id in mapped && AllImported(a, references)
  {
    var identities: map<string, seq<MessageId>> := map[];
    ghost var looked: map<string, Archive> := map[];
    for n := 0 to |archives|
      invariant identities.Keys == looked.Keys
      invariant forall id :: id in looked <==> exists i | 0 <= i < n :: archives[i].archiveId == id && id in mapped
      invariant forall id | id in looked :: looked[id] in archives[..n] && looked[id].archiveId == id && id in mapped
      invariant forall id | id in looked :: Identities(looked[id], identities[id])
    {
      var a := archives[n];
      if a.archiveId in mapped {
        var ids := Identify(a.conversation, a.messages);
        identities := identities[a.archiveId := ids];
        looked := looked[a.archiveId := a];
      }
    }
    skipped := set id | id in identities && |identities[id]| > 0 && forall k | 0 <= k < |identities[id]| :: identities[id][k] in references;
    forall id
      ensures id in skipped <==> exists a | a in archives :: a.archiveId == id && id in mapped && AllImported(a, references)
    {
      if id in looked {
        assert looked[id] in archives && (AllImported(looked[id], references) <==> id in skipped);
      }
    }
  }

  predicate Identities(a: Archive, ids: seq<MessageId>) {
    |ids| == |a.messages| && forall i | 0 <= i < |ids| :: ids[i] == IdAt(a.conversation, a.messages, i)
  }

  /**
    When the messages of an earlier export are what is stored, a later export of the
    conversation is skipped exactly when it has messages and none beyond those.
   */
  lemma SkippedIff(earlier: Archive, later: Archive)
    requires earlier.conversation == later.conversation && WithoutOwnIds(earlier.messages) && WithoutOwnIds(later.messages)
    ensures AllImported(later, Ids(earlier.conversation, earlier.messages))
       <==> later.messages != []
            && multiset(Signatures(later.conversation, later.messages)) <= multiset(Signatures(earlier.conversation, earlier.messages))
  {
    ContainsIff(later.conversation, later.messages, earlier.messages);
    var references := Ids(earlier.conversation, earlier.messages);
    if Ids(later.conversation, later.messages) <= references {
      forall i | 0 <= i < |later.messages|
        ensures IdAt(later.conversation, later.messages, i) in references
      {
        assert IdAt(later.conversation, later.messages, i) in Ids(later.conversation, later.messages);
      }
    }
  }
}
