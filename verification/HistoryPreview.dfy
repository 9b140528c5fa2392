/** The comparison of a phone backup with what was imported before, and what the import then takes. */
module HistoryPreview {
  import opened Wrappers
  import opened HistoryStream
  import opened HistoryChunks

  /** What an earlier import stored under an external message id. */
  datatype Reference = Reference(internalId: string, payloadHash: Option<string>, accepted: set<string>)

  type References = map<string, Reference>

  datatype Verdict = Skipped | New | Existing | Divergent

  datatype Counts = Counts(existing: nat, unseen: nat, divergent: nat, unseenIds: seq<string>)

  datatype PreviewError = MessageGone

  function VerdictOf(refs: References, m: Message): Verdict {
    if m.externalId.None? then Skipped
    else if m.externalId.value !in refs then New
    else
      var r := refs[m.externalId.value];
      if r.payloadHash == Some(m.payloadHash) || m.payloadHash in r.accepted then Existing else Divergent
  }

  /** Count one message; a divergent one must still be in the history, whose internal ids are `stored`. */
  function CountOne(refs: References, stored: set<string>, c: Counts, m: Message): Result<Counts, PreviewError> {
    match VerdictOf(refs, m)
    case Skipped => Ok(c)
    case New => Ok(c.(unseen := c.unseen + 1, unseenIds := c.unseenIds + [m.externalId.value]))
    case Existing => Ok(c.(existing := c.existing + 1))
    case Divergent => if refs[m.externalId.value].internalId in stored then Ok(c.(divergent := c.divergent + 1)) else Err(MessageGone)
  }

  function CountAll(refs: References, stored: set<string>, c: Result<Counts, PreviewError>, messages: seq<Tagged>): Result<Counts, PreviewError> {
    if messages == [] then c
    else
      var earlier :- CountAll(refs, stored, c, messages[..|messages| - 1]);
      CountOne(refs, stored, earlier, messages[|messages| - 1].1)
  }

  const NOTHING: Counts := Counts(0, 0, 0, [])

  lemma {:induction false} CountConcat(refs: References, stored: set<string>, c: Result<Counts, PreviewError>, a: seq<Tagged>, b: seq<Tagged>)
    ensures CountAll(refs, stored, c, a + b) == CountAll(refs, stored, CountAll(refs, stored, c, a), b)
  {
    if b == [] {
      assert a + b == a;
    } else {
      assert (a + b)[..|a + b| - 1] == a + b[..|b| - 1];
      CountConcat(refs, stored, c, a, b[..|b| - 1]);
    }
  }

  lemma {:induction false} CountStops(refs: References, stored: set<string>, e: PreviewError, messages: seq<Tagged>)
    ensures CountAll(refs, stored, Err(e), messages) == Err(e)
  {
    if messages != [] {
      CountStops(refs, stored, e, messages[..|messages| - 1]);
    }
  }

  /** The loops over chunks, segments and messages. */
  method Compare(refs: References, stored: set<string>, chunks: seq<seq<Segment>>) returns (outcome: Result<Counts, PreviewError>)
    ensures outcome == CountAll(refs, stored, Ok(NOTHING), TagChunks(chunks))
  {
    outcome := Ok(NOTHING);
    for n := 0 to |chunks|
      invariant outcome == CountAll(refs, stored, Ok(NOTHING), TagChunks(chunks[..n]))
    {
      assert chunks[..n + 1][..n] == chunks[..n];
      CountConcat(refs, stored, Ok(NOTHING), TagChunks(chunks[..n]), TagAll(chunks[n]));
      outcome := CompareChunk(refs, stored, outcome, chunks[n]);
    }
    assert chunks[..|chunks|] == chunks;
  }

  method CompareChunk(refs: References, stored: set<string>, start: Result<Counts, PreviewError>, chunk: seq<Segment>)
    returns (outcome: Result<Counts, PreviewError>)
    ensures outcome == CountAll(refs, stored, start, TagAll(chunk))
  {
    outcome := start;
    for n := 0 to |chunk|
      invariant outcome == CountAll(refs, stored, start, TagAll(chunk[..n]))
    {
      assert chunk[..n + 1][..n] == chunk[..n];
      CountConcat(refs, stored, start, TagAll(chunk[..n]), Tag(chunk[n]));
      outcome := CompareSegment(refs, stored, outcome, chunk[n]);
    }
    assert chunk[..|chunk|] == chunk;
  }

  method CompareSegment(refs: References, stored: set<string>, start: Result<Counts, PreviewError>, segment: Segment)
    returns (outcome: Result<Counts, PreviewError>)
    ensures outcome == CountAll(refs, stored, start, Tag(segment))
  {
    outcome := start;
    for n := 0 to |segment.messages|
      invariant outcome == CountAll(refs, stored, start, Tag(segment)[..n])
    {
      assert Tag(segment)[..n + 1][..n] == Tag(segment)[..n];
      if outcome.Err? {
        assert Tag(segment) == Tag(segment)[..n] + Tag(segment)[n..];
        CountConcat(refs, stored, start, Tag(segment)[..n], Tag(segment)[n..]);
        CountStops(refs, stored, outcome.error, Tag(segment)[n..]);
        return;
      }
      outcome := CountOne(refs, stored, outcome.value, segment.messages[n]);
    }
    assert Tag(segment)[..|segment.messages|] == Tag(segment);
  }

  // ---- What the counts mean --------------------------------------------------------------

  function WithIds(messages: seq<Tagged>): nat {
    if messages == [] then 0
    else WithIds(messages[..|messages| - 1]) + if messages[|messages| - 1].1.externalId.Some? then 1 else 0
  }

  function NewIds(refs: References, messages: seq<Tagged>): seq<string> {
    if messages == [] then []
    else
      var last := messages[|messages| - 1].1;
      NewIds(refs, messages[..|messages| - 1]) + if VerdictOf(refs, last) == New then [last.externalId.value] else []
  }

  /** Every message with an id is counted once, and the new ones are listed in their order. */
  lemma {:induction false} CountsAddUp(refs: References, stored: set<string>, messages: seq<Tagged>)
    requires CountAll(refs, stored, Ok(NOTHING), messages).Ok?
    ensures var c := CountAll(refs, stored, Ok(NOTHING), messages).value;
            c.existing + c.unseen + c.divergent == WithIds(messages) && c.unseenIds == NewIds(refs, messages) && c.unseen == |c.unseenIds|
  {
    if messages != [] {
      CountsAddUp(refs, stored, messages[..|messages| - 1]);
    }
  }

  predicate Gone(refs: References, stored: set<string>, m: Message) {
    VerdictOf(refs, m) == Divergent && refs[m.externalId.value].internalId !in stored
  }

  /** The comparison fails exactly when some divergent message is no longer there. */
  lemma {:induction false} FailsIffGone(refs: References, stored: set<string>, messages: seq<Tagged>)
    ensures CountAll(refs, stored, Ok(NOTHING), messages).Err? <==> exists t | t in messages :: Gone(refs, stored, t.1)
  {
    if messages != [] {
      var earlier, last := messages[..|messages| - 1], messages[|messages| - 1];
      FailsIffGone(refs, stored, earlier);
      assert messages == earlier + [last];
    }
  }

  lemma {:induction false} NewIdsAre(refs: References, messages: seq<Tagged>, id: string)
    ensures id in NewIds(refs, messages) <==> exists t | t in messages :: t.1.externalId == Some(id) && VerdictOf(refs, t.1) == New
  {
    if messages != [] {
      var earlier, last := messages[..|messages| - 1], messages[|messages| - 1];
      NewIdsAre(refs, earlier, id);
      assert messages == earlier + [last];
    }
  }

  /** The import takes the messages whose ids the preview has listed. */
  function Listed(ids: seq<string>): Message -> bool {
    (m: Message) => m.externalId.Some? && m.externalId.value in ids
  }

  /** It takes a message of the stream exactly when the preview found it new. */
  lemma TakesTheNew(refs: References, messages: seq<Tagged>, t: Tagged)
    requires t in messages
    ensures Listed(NewIds(refs, messages))(t.1) <==> VerdictOf(refs, t.1) == New
  {
    if t.1.externalId.Some? {
      NewIdsAre(refs, messages, t.1.externalId.value);
    }
  }

  /** All chunks of one preview, counted: whatever the size of the chunks, the totals are those of the stream. */
  lemma ChunkingDoesNotCount(refs: References, stored: set<string>, conversations: seq<Segment>, size: nat)
    requires size > 0
    ensures CountAll(refs, stored, Ok(NOTHING), TagChunks(ChunksOf(conversations, Any(), size)))
         == CountAll(refs, stored, Ok(NOTHING), TagAll(conversations))
  {
    ChunksKeepAll(conversations, Any(), size);
    WantsAll(conversations);
  }

  lemma {:induction false} WantsAll(conversations: seq<Segment>)
    ensures Wanted(conversations, Any()) == TagAll(conversations)
  {
    if conversations != [] {
      WantsAll(conversations[..|conversations| - 1]);
      SelectAll(conversations[|conversations| - 1].messages);
    }
  }

  function NewOnly(refs: References, messages: seq<Tagged>): seq<Tagged> {
    if messages == [] then []
    else
      var last := messages[|messages| - 1];
      NewOnly(refs, messages[..|messages| - 1]) + if VerdictOf(refs, last.1) == New then [last] else []
  }

  function Keeping(messages: seq<Tagged>, keep: Message -> bool): seq<Tagged> {
    if messages == [] then []
    else
      var last := messages[|messages| - 1];
      Keeping(messages[..|messages| - 1], keep) + if keep(last.1) then [last] else []
  }

  lemma {:induction false} KeepingConcat(a: seq<Tagged>, b: seq<Tagged>, keep: Message -> bool)
    ensures Keeping(a + b, keep) == Keeping(a, keep) + Keeping(b, keep)
  {
    if b == [] {
      assert a + b == a;
    } else {
      assert (a + b)[..|a + b| - 1] == a + b[..|b| - 1];
      KeepingConcat(a, b[..|b| - 1], keep);
    }
  }

  lemma {:induction false} KeepingOne(key: string, messages: seq<Message>, keep: Message -> bool)
    ensures Keeping(Tag(Segment(key, messages)), keep) == Tag(Segment(key, Select(messages, keep)))
  {
    if messages != [] {
      var earlier, last := messages[..|messages| - 1], messages[|messages| - 1];
      KeepingOne(key, earlier, keep);
      assert messages == earlier + [last];
      TagConcat(key, earlier, [last]);
      assert Tag(Segment(key, messages))[..|messages| - 1] == Tag(Segment(key, earlier));
      TagConcat(key, Select(earlier, keep), if keep(last) then [last] else []);
    }
  }

  lemma {:induction false} WantedIsKept(conversations: seq<Segment>, keep: Message -> bool)
    ensures Wanted(conversations, keep) == Keeping(TagAll(conversations), keep)
  {
    if conversations != [] {
      var earlier, last := conversations[..|conversations| - 1], conversations[|conversations| - 1];
      WantedIsKept(earlier, keep);
      KeepingConcat(TagAll(earlier), Tag(last), keep);
      KeepingOne(last.key, last.messages, keep);
    }
  }

  lemma {:induction false} KeepingNew(refs: References, messages: seq<Tagged>, keep: Message -> bool)
    requires forall t | t in messages :: keep(t.1) <==> VerdictOf(refs, t.1) == New
    ensures Keeping(messages, keep) == NewOnly(refs, messages)
  {
    if messages != [] {
      var earlier, last := messages[..|messages| - 1], messages[|messages| - 1];
      assert messages == earlier + [last] && last in messages;
      KeepingNew(refs, earlier, keep);
    }
  }

  /**
    Import after preview, perhaps of a part of what was previewed: the chunks carry
    exactly the messages that the preview found new, in the order of the backup.
    Existing and divergent messages are not in them.
   */
  lemma ImportTakesNewOnly(refs: References, previewed: seq<Tagged>, conversations: seq<Segment>, size: nat)
    requires size > 0 && forall t | t in TagAll(conversations) :: t in previewed
    ensures TagChunks(ChunksOf(conversations, Listed(NewIds(refs, previewed)), size)) == NewOnly(refs, TagAll(conversations))
  {
    var keep := Listed(NewIds(refs, previewed));
    forall t | t in TagAll(conversations)
      ensures keep(t.1) <==> VerdictOf(refs, t.1) == New
    {
      TakesTheNew(refs, previewed, t);
    }
    ChunksKeepAll(conversations, keep, size);
    WantedIsKept(conversations, keep);
    KeepingNew(refs, TagAll(conversations), keep);
  }
}
