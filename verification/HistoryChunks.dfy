/** What the chunks of a history import are: all wanted messages in order, within bounds. */
module HistoryChunks {
  import opened HistoryStream

  // ---- Nothing is lost or reordered --------------------------------------------------

  /** Everything collected so far. */
  function Collected(p: Progress): seq<Tagged> {
    TagChunks(p.chunks) + TagAll(p.waiting)
  }

  function Kept(slice: Slice, keep: Message -> bool): seq<Tagged> {
    Tag(Segment(slice.key, Select(slice.messages, keep)))
  }

  function KeptAll(slices: seq<Slice>, keep: Message -> bool): seq<Tagged> {
    if slices == [] then [] else KeptAll(slices[..|slices| - 1], keep) + Kept(slices[|slices| - 1], keep)
  }

  lemma FlushKeeps(p: Progress)
    ensures Collected(Flush(p)) == Collected(p)
  {
    if p.waiting != [] {
      assert (p.chunks + [p.waiting])[..|p.chunks|] == p.chunks;
    }
  }

  lemma PushAdds(p: Progress, s: Segment)
    ensures Collected(Push(p, s)) == Collected(p) + Tag(s)
  {
    assert (p.waiting + [s])[..|p.waiting|] == p.waiting;
  }

  lemma CollectAdds(p: Progress, slice: Slice, keep: Message -> bool, size: nat)
    ensures Collected(Collect(p, slice, keep, size)) == Collected(p) + Kept(slice, keep)
  {
    var messages := Select(slice.messages, keep);
    if messages != [] {
      var room := if p.count > 0 && p.count + |messages| > size then Flush(p) else p;
      FlushKeeps(p);
      PushAdds(room, Segment(slice.key, messages));
      FlushKeeps(Push(room, Segment(slice.key, messages)));
    }
  }

  lemma {:induction false} CollectAllKeeps(slices: seq<Slice>, n: nat, keep: Message -> bool, size: nat)
    requires n <= |slices|
    ensures Collected(CollectAll(slices, n, keep, size)) == KeptAll(slices[..n], keep)
  {
    if n > 0 {
      CollectAllKeeps(slices, n - 1, keep, size);
      CollectAdds(CollectAll(slices, n - 1, keep, size), slices[n - 1], keep, size);
      assert slices[..n][..n - 1] == slices[..n - 1];
    }
  }

  lemma {:induction false} KeptConcat(a: seq<Slice>, b: seq<Slice>, keep: Message -> bool)
    ensures KeptAll(a + b, keep) == KeptAll(a, keep) + KeptAll(b, keep)
  {
    if b == [] {
      assert a + b == a;
    } else {
      assert (a + b)[..|a + b| - 1] == a + b[..|b| - 1];
      KeptConcat(a, b[..|b| - 1], keep);
    }
  }

  lemma {:induction false} SlicesKeep(c: Segment, offset: nat, size: nat, keep: Message -> bool)
    requires size > 0 && offset <= |c.messages|
    ensures KeptAll(SlicesFrom(c, offset, size), keep) == Tag(Segment(c.key, Select(c.messages[offset..], keep)))
    decreases |c.messages| - offset
  {
    if offset < |c.messages| {
      var end := if offset + size < |c.messages| then offset + size else |c.messages|;
      var slice := Slice(c.key, c.messages[offset..end], offset + size >= |c.messages|);
      KeptConcat([slice], SlicesFrom(c, offset + size, size), keep);
      assert [slice][..0] == [];
      assert KeptAll([slice], keep) == Kept(slice, keep);
      if offset + size < |c.messages| {
        SlicesKeep(c, offset + size, size, keep);
      } else {
        assert SlicesFrom(c, offset + size, size) == [];
      }
      assert c.messages[offset..] == c.messages[offset..end] + c.messages[end..];
      SelectConcat(c.messages[offset..end], c.messages[end..], keep);
      TagConcat(c.key, Select(c.messages[offset..end], keep), Select(c.messages[end..], keep));
    }
  }

  lemma {:induction false} AllSlicesKeep(conversations: seq<Segment>, size: nat, keep: Message -> bool)
    requires size > 0
    ensures KeptAll(Slices(conversations, size), keep) == Wanted(conversations, keep)
  {
    if conversations != [] {
      var n := |conversations| - 1;
      AllSlicesKeep(conversations[..n], size, keep);
      KeptConcat(Slices(conversations[..n], size), SlicesFrom(conversations[n], 0, size), keep);
      SlicesKeep(conversations[n], 0, size, keep);
      assert conversations[n].messages[0..] == conversations[n].messages;
    }
  }

  /** The chunks, one after the other, are exactly the wanted messages in their order. */
  lemma ChunksKeepAll(conversations: seq<Segment>, keep: Message -> bool, size: nat)
    requires size > 0
    ensures TagChunks(ChunksOf(conversations, keep, size)) == Wanted(conversations, keep)
  {
    var slices := Slices(conversations, size);
    CollectAllKeeps(slices, |slices|, keep, size);
    assert slices[..|slices|] == slices;
    AllSlicesKeep(conversations, size, keep);
    FlushKeeps(CollectAll(slices, |slices|, keep, size));
    assert Flush(CollectAll(slices, |slices|, keep, size)).waiting == [];
  }

  // ---- Bounds ------------------------------------------------------------------------------

  predicate Bounded(segments: seq<Segment>, size: nat) {
    0 < |TagAll(segments)| <= size && forall s | s in segments :: s.messages != []
  }

  ghost predicate BoundedProgress(p: Progress, size: nat) {
    && (forall chunk | chunk in p.chunks :: Bounded(chunk, size))
    && p.count == |TagAll(p.waiting)|
    && (p.waiting == [] ==> p.count == 0)
    && (p.waiting != [] ==> Bounded(p.waiting, size))
  }

  lemma PushBounded(p: Progress, s: Segment, size: nat)
    requires BoundedProgress(p, size) && s.messages != [] && p.count + |s.messages| <= size
    ensures BoundedProgress(Push(p, s), size)
  {
    assert (p.waiting + [s])[..|p.waiting|] == p.waiting;
    assert |TagAll(p.waiting + [s])| == |TagAll(p.waiting)| + |Tag(s)|;
  }

  lemma CollectBounded(p: Progress, slice: Slice, keep: Message -> bool, size: nat)
    requires BoundedProgress(p, size) && |slice.messages| <= size
    ensures BoundedProgress(Collect(p, slice, keep, size), size)
  {
    var messages := Select(slice.messages, keep);
    SelectShrinks(slice.messages, keep);
    if messages != [] {
      var room := if p.count > 0 && p.count + |messages| > size then Flush(p) else p;
      PushBounded(room, Segment(slice.key, messages), size);
    }
  }

  lemma {:induction false} SlicesBounded(c: Segment, offset: nat, size: nat)
    requires size > 0
    ensures forall slice | slice in SlicesFrom(c, offset, size) :: |slice.messages| <= size
    decreases |c.messages| - offset
  {
    if offset < |c.messages| {
      SlicesBounded(c, offset + size, size);
    }
  }

  lemma {:induction false} AllSlicesBounded(conversations: seq<Segment>, size: nat)
    requires size > 0
    ensures forall slice | slice in Slices(conversations, size) :: |slice.messages| <= size
  {
    if conversations != [] {
      AllSlicesBounded(conversations[..|conversations| - 1], size);
      SlicesBounded(conversations[|conversations| - 1], 0, size);
    }
  }

  lemma {:induction false} CollectAllBounded(slices: seq<Slice>, n: nat, keep: Message -> bool, size: nat)
    requires n <= |slices| && forall slice | slice in slices :: |slice.messages| <= size
    ensures BoundedProgress(CollectAll(slices, n, keep, size), size)
  {
    if n > 0 {
      CollectAllBounded(slices, n - 1, keep, size);
      assert slices[n - 1] in slices;
      CollectBounded(CollectAll(slices, n - 1, keep, size), slices[n - 1], keep, size);
    }
  }

  /** No chunk is empty or larger than configured, and none has an empty segment. */
  lemma ChunksBounded(conversations: seq<Segment>, keep: Message -> bool, size: nat)
    requires size > 0
    ensures forall chunk | chunk in ChunksOf(conversations, keep, size) :: Bounded(chunk, size)
  {
    AllSlicesBounded(conversations, size);
    CollectAllBounded(Slices(conversations, size), |Slices(conversations, size)|, keep, size);
  }

  // ---- One segment of a conversation in a chunk -----------------------------------------------

  predicate DistinctKeys(segments: seq<Segment>) {
    forall i, j | 0 <= i < j < |segments| :: segments[i].key != segments[j].key
  }

  predicate HasKey(segments: seq<Segment>, key: string) {
    exists s | s in segments :: s.key == key
  }

  predicate SliceKey(slices: seq<Slice>, n: nat, key: string)
    requires n <= |slices|
  {
    exists j | 0 <= j < n :: slices[j].key == key
  }

  /** Slices of one conversation follow each other, and a conversation that ended does not come again. */
  predicate Streamed(slices: seq<Slice>) {
    forall n | 0 < n < |slices| ::
      if slices[n - 1].last then !SliceKey(slices, n, slices[n].key) else slices[n].key == slices[n - 1].key
  }

  ghost predicate Separate(p: Progress, slices: seq<Slice>, n: nat)
    requires n <= |slices|
  {
    && (forall chunk | chunk in p.chunks :: DistinctKeys(chunk))
    && DistinctKeys(p.waiting)
    && (forall s | s in p.waiting :: SliceKey(slices, n, s.key))
    && (n > 0 && !slices[n - 1].last ==> !HasKey(p.waiting, slices[n - 1].key))
  }

  lemma MoreKeys(slices: seq<Slice>, n: nat, key: string)
    requires n < |slices| && (SliceKey(slices, n, key) || key == slices[n].key)
    ensures SliceKey(slices, n + 1, key)
  {
  }

  lemma CollectSeparate(p: Progress, slices: seq<Slice>, n: nat, keep: Message -> bool, size: nat)
    requires n < |slices| && Streamed(slices) && Separate(p, slices, n)
    ensures Separate(Collect(p, slices[n], keep, size), slices, n + 1)
  {
    var slice := slices[n];
    assert !HasKey(p.waiting, slice.key) by {
      if n > 0 && slices[n - 1].last {
        assert !SliceKey(slices, n, slice.key);
      }
    }
    forall s | s in p.waiting
      ensures SliceKey(slices, n + 1, s.key)
    {
      MoreKeys(slices, n, s.key);
    }
    MoreKeys(slices, n, slice.key);
  }

  lemma {:induction false} CollectAllSeparate(slices: seq<Slice>, n: nat, keep: Message -> bool, size: nat)
    requires n <= |slices| && Streamed(slices)
    ensures Separate(CollectAll(slices, n, keep, size), slices, n)
  {
    if n > 0 {
      CollectAllSeparate(slices, n - 1, keep, size);
      CollectSeparate(CollectAll(slices, n - 1, keep, size), slices, n - 1, keep, size);
    }
  }

  /** Slices with one key, and only the last of them marked as the end. */
  predicate OneConversation(slices: seq<Slice>, key: string) {
    forall n | 0 <= n < |slices| :: slices[n].key == key && (slices[n].last <==> n == |slices| - 1)
  }

  lemma {:induction false} SlicesOfOne(c: Segment, offset: nat, size: nat)
    requires size > 0
    ensures OneConversation(SlicesFrom(c, offset, size), c.key)
    decreases |c.messages| - offset
  {
    if offset < |c.messages| {
      var rest := SlicesFrom(c, offset + size, size);
      SlicesOfOne(c, offset + size, size);
      assert rest == [] <==> offset + size >= |c.messages|;
      assert SlicesFrom(c, offset, size)[1..] == rest;
    }
  }

  lemma {:induction false} SliceKeys(conversations: seq<Segment>, size: nat, n: nat)
    requires size > 0 && n < |Slices(conversations, size)|
    ensures HasKey(conversations, Slices(conversations, size)[n].key)
  {
    var m := |conversations| - 1;
    var earlier := Slices(conversations[..m], size);
    if n < |earlier| {
      SliceKeys(conversations[..m], size, n);
      var s :| s in conversations[..m] && s.key == earlier[n].key;
      assert s in conversations;
    } else {
      SlicesOfOne(conversations[m], 0, size);
      assert Slices(conversations, size)[n] == SlicesFrom(conversations[m], 0, size)[n - |earlier|];
      assert conversations[m] in conversations;
    }
  }

  lemma {:induction false} LastSliceEnds(conversations: seq<Segment>, size: nat)
    requires size > 0 && Slices(conversations, size) != []
    ensures Slices(conversations, size)[|Slices(conversations, size)| - 1].last
  {
    var m := |conversations| - 1;
    var last := SlicesFrom(conversations[m], 0, size);
    SlicesOfOne(conversations[m], 0, size);
    if last == [] {
      assert Slices(conversations, size) == Slices(conversations[..m], size);
      LastSliceEnds(conversations[..m], size);
    } else {
      assert Slices(conversations, size)[|Slices(conversations, size)| - 1] == last[|last| - 1];
    }
  }

  lemma NewKey(conversations: seq<Segment>, m: nat)
    requires m < |conversations| && DistinctKeys(conversations)
    ensures !HasKey(conversations[..m], conversations[m].key)
  {
  }

  lemma {:induction false} SlicesStreamed(conversations: seq<Segment>, size: nat)
    requires size > 0 && DistinctKeys(conversations)
    ensures Streamed(Slices(conversations, size))
  {
    if conversations != [] {
      var m := |conversations| - 1;
      SlicesStreamed(conversations[..m], size);
      NewKey(conversations, m);
      var a, b := Slices(conversations[..m], size), SlicesFrom(conversations[m], 0, size);
      SlicesOfOne(conversations[m], 0, size);
      forall n | 0 <= n < |a|
        ensures a[n].key != conversations[m].key
      {
        SliceKeys(conversations[..m], size, n);
      }
      if a != [] {
        LastSliceEnds(conversations[..m], size);
      }
      StreamedConcat(a, b, conversations[m].key);
    }
  }

  lemma StreamedConcat(a: seq<Slice>, b: seq<Slice>, key: string)
    requires Streamed(a) && (a != [] ==> a[|a| - 1].last) && forall n | 0 <= n < |a| :: a[n].key != key
    requires OneConversation(b, key)
    ensures Streamed(a + b)
  {
    var s := a + b;
    forall n | 0 < n < |s|
      ensures if s[n - 1].last then !SliceKey(s, n, s[n].key) else s[n].key == s[n - 1].key
    {
      if n < |a| {
        if s[n - 1].last {
          assert !SliceKey(a, n, a[n].key);
        }
      } else if n > |a| {
        assert s[n - 1] == b[n - 1 - |a|];
      }
    }
  }

  predicate ChunksSeparate(chunks: seq<seq<Segment>>) {
    forall chunk | chunk in chunks :: DistinctKeys(chunk)
  }

  /** When conversations have different keys, no chunk has two segments of one of them. */
  lemma ChunksAreSeparate(conversations: seq<Segment>, keep: Message -> bool, size: nat)
    requires size > 0 && DistinctKeys(conversations)
    ensures ChunksSeparate(ChunksOf(conversations, keep, size))
  {
    SlicesStreamed(conversations, size);
    CollectAllSeparate(Slices(conversations, size), |Slices(conversations, size)|, keep, size);
  }

  // ---- When keys are not different ---------------------------------------------------------------

  /** Wants every message. */
  function Any(): Message -> bool {
    m => true
  }

  lemma {:induction false} SelectAll(messages: seq<Message>)
    ensures Select(messages, Any()) == messages
  {
    if messages != [] {
      SelectAll(messages[..|messages| - 1]);
    }
  }

  lemma OneSlice(c: Segment, size: nat)
    requires 0 < |c.messages| <= size
    ensures SlicesFrom(c, 0, size) == [Slice(c.key, c.messages, true)]
  {
    assert c.messages[0..|c.messages|] == c.messages;
    assert SlicesFrom(c, size, size) == [];
  }

  lemma OneMoreWaits(p: Progress, c: Segment, size: nat)
    requires c.messages != [] && p.count + |c.messages| <= size
    ensures Collect(p, Slice(c.key, c.messages, true), Any(), size) == Progress(p.chunks, p.waiting + [c], p.count + |c.messages|)
  {
    SelectAll(c.messages);
  }

  lemma OneMoreCollected(slices: seq<Slice>, waiting: seq<Segment>, count: nat, c: Segment, size: nat)
    requires CollectAll(slices, |slices|, Any(), size) == Progress([], waiting, count)
    requires c.messages != [] && count + |c.messages| <= size
    ensures CollectAll(slices + [Slice(c.key, c.messages, true)], |slices| + 1, Any(), size)
         == Progress([], waiting + [c], count + |c.messages|)
  {
    CollectOne(slices, Slice(c.key, c.messages, true), Any(), size);
    OneMoreWaits(Progress([], waiting, count), c, size);
  }

  ghost predicate AllWaiting(conversations: seq<Segment>, size: nat)
    requires size > 0
  {
    var slices := Slices(conversations, size);
    CollectAll(slices, |slices|, Any(), size) == Progress([], conversations, |TagAll(conversations)|)
  }

  lemma OneMoreWaiting(conversations: seq<Segment>, c: Segment, size: nat)
    requires size > 0 && AllWaiting(conversations, size)
    requires c.messages != [] && |TagAll(conversations)| + |c.messages| <= size
    ensures AllWaiting(conversations + [c], size) && |TagAll(conversations + [c])| == |TagAll(conversations)| + |c.messages|
  {
    SlicesMore(conversations, c, size);
    TagMore(conversations, c);
    OneMoreCollected(Slices(conversations, size), conversations, |TagAll(conversations)|, c, size);
  }

  lemma SlicesMore(conversations: seq<Segment>, c: Segment, size: nat)
    requires 0 < |c.messages| <= size
    ensures Slices(conversations + [c], size) == Slices(conversations, size) + [Slice(c.key, c.messages, true)]
  {
    assert (conversations + [c])[..|conversations|] == conversations;
    OneSlice(c, size);
  }

  lemma TagMore(conversations: seq<Segment>, c: Segment)
    ensures |TagAll(conversations + [c])| == |TagAll(conversations)| + |c.messages|
  {
    assert (conversations + [c])[..|conversations|] == conversations;
  }

  /** With room for everything, all conversations wait for one chunk. */
  lemma {:induction false} AllWait(conversations: seq<Segment>, size: nat)
    requires 0 < size && |TagAll(conversations)| <= size && forall c | c in conversations :: c.messages != []
    ensures AllWaiting(conversations, size)
  {
    if conversations != [] {
      var earlier, c := conversations[..|conversations| - 1], conversations[|conversations| - 1];
      assert conversations == earlier + [c] && c in conversations;
      assert |TagAll(conversations)| == |TagAll(earlier)| + |c.messages|;
      AllWait(earlier, size);
      OneMoreWaiting(earlier, c, size);
    }
  }

  /**
    No chunk ever has two segments of one conversation, whatever is wanted and however
    large the chunks, exactly when the conversations have different keys.
   */
  lemma SeparateIff(conversations: seq<Segment>)
    requires forall c | c in conversations :: c.messages != []
    ensures (forall keep: Message -> bool, size: nat | size > 0 :: ChunksSeparate(ChunksOf(conversations, keep, size)))
       <==> DistinctKeys(conversations)
  {
    if DistinctKeys(conversations) {
      forall keep: Message -> bool, size: nat | size > 0
        ensures ChunksSeparate(ChunksOf(conversations, keep, size))
      {
        ChunksAreSeparate(conversations, keep, size);
      }
    } else {
      var size := |TagAll(conversations)| + 1;
      AllWait(conversations, size);
      assert ChunksOf(conversations, Any(), size) == [conversations];
      assert conversations in ChunksOf(conversations, Any(), size);
    }
  }
}
