/**
  The stream of a phone backup: rows grouped into conversations, conversations cut
  into segments, segments collected into chunks of bounded size.
 */
module HistoryStream {
  import opened Wrappers

  // ---- Grouping ----------------------------------------------------------------------

  datatype Row<T> = Row(phone: string, item: T)

  datatype Group<T> = Group(phone: string, items: seq<T>)

  function RowsOf<T>(g: Group<T>): (r: seq<Row<T>>)
    ensures |r| == |g.items|
  {
    seq(|g.items|, i requires 0 <= i < |g.items| => Row(g.phone, g.items[i]))
  }

  function Ungroup<T>(groups: seq<Group<T>>): seq<Row<T>> {
    if groups == [] then [] else Ungroup(groups[..|groups| - 1]) + RowsOf(groups[|groups| - 1])
  }

  predicate ProperGroups<T>(groups: seq<Group<T>>) {
    && (forall i | 0 <= i < |groups| :: groups[i].items != [])
    && forall i | 0 < i < |groups| :: groups[i - 1].phone != groups[i].phone
  }

  lemma GroupsMore<T>(groups: seq<Group<T>>, g: Group<T>)
    requires ProperGroups(groups) && g.items != [] && (groups != [] ==> groups[|groups| - 1].phone != g.phone)
    ensures ProperGroups(groups + [g])
  {
  }

  /** The rows of finished groups and of the one that is being collected. */
  function Grouped<T>(groups: seq<Group<T>>, phone: string, items: seq<T>): seq<Row<T>> {
    Ungroup(groups) + RowsOf(Group(phone, items))
  }

  lemma SameGroup<T>(groups: seq<Group<T>>, phone: string, items: seq<T>, item: T)
    ensures Grouped(groups, phone, items + [item]) == Grouped(groups, phone, items) + [Row(phone, item)]
  {
  }

  lemma NewGroup<T>(groups: seq<Group<T>>, phone: string, items: seq<T>, next: string, item: T)
    ensures Grouped(groups + [Group(phone, items)], next, [item]) == Grouped(groups, phone, items) + [Row(next, item)]
  {
    UngroupMore(groups, Group(phone, items));
  }

  /** Rows in their order, cut wherever the phone changes; none is lost. */
  method GroupRows<T>(rows: seq<Row<T>>) returns (groups: seq<Group<T>>)
    ensures Ungroup(groups) == rows && ProperGroups(groups)
  {
    groups := [];
    if |rows| == 0 {
      return;
    }
    var currentPhone := rows[0].phone;
    var items: seq<T> := [rows[0].item];
    for n := 1 to |rows|
      invariant ProperGroups(groups) && items != []
      invariant groups != [] ==> groups[|groups| - 1].phone != currentPhone
      invariant Grouped(groups, currentPhone, items) == rows[..n]
    {
      var row := rows[n];
      assert rows[..n + 1] == rows[..n] + [row];
      if row.phone != currentPhone {
        NewGroup(groups, currentPhone, items, row.phone, row.item);
        GroupsMore(groups, Group(currentPhone, items));
        groups := groups + [Group(currentPhone, items)];
        items := [row.item];
      } else {
        SameGroup(groups, currentPhone, items, row.item);
        items := items + [row.item];
      }
      currentPhone := row.phone;
    }
    assert rows[..|rows|] == rows;
    UngroupMore(groups, Group(currentPhone, items));
    GroupsMore(groups, Group(currentPhone, items));
    groups := groups + [Group(currentPhone, items)];
  }

  lemma UngroupMore<T>(groups: seq<Group<T>>, g: Group<T>)
    ensures Ungroup(groups + [g]) == Ungroup(groups) + RowsOf(g)
  {
    assert (groups + [g])[..|groups|] == groups;
  }

  /** Rows of one phone stand together, as ordering by phone makes them. */
  predicate Contiguous<T>(rows: seq<Row<T>>) {
    forall i, j, k | 0 <= i < j < k < |rows| && rows[i].phone == rows[k].phone :: rows[j].phone == rows[i].phone
  }

  /** Row `at` is the first of group `i`. */
  lemma {:induction false} FirstRow<T>(groups: seq<Group<T>>, i: nat) returns (at: nat)
    requires i < |groups| && ProperGroups(groups)
    ensures at < |Ungroup(groups)| && Ungroup(groups)[at].phone == groups[i].phone
    ensures at == |Ungroup(groups[..i])|
  {
    var n := |groups| - 1;
    if i == n {
      at := |Ungroup(groups[..n])|;
      assert RowsOf(groups[n])[0].phone == groups[n].phone;
    } else {
      at := FirstRow(groups[..n], i);
      assert groups[..n][..i] == groups[..i];
    }
  }

  lemma {:induction false} UngroupGrows<T>(groups: seq<Group<T>>, i: nat, j: nat)
    requires i < j <= |groups| && ProperGroups(groups)
    ensures |Ungroup(groups[..i])| < |Ungroup(groups[..j])|
  {
    assert groups[..j][..j - 1] == groups[..j - 1];
    if i < j - 1 {
      UngroupGrows(groups, i, j - 1);
    }
  }

  /** When the rows of a phone stand together, no two groups have the same phone. */
  lemma {:induction false} OneGroupEach<T>(groups: seq<Group<T>>, i: nat, j: nat)
    requires ProperGroups(groups) && Contiguous(Ungroup(groups)) && i < j < |groups|
    ensures groups[i].phone != groups[j].phone
  {
    var a := FirstRow(groups, i);
    var b := FirstRow(groups, i + 1);
    UngroupGrows(groups, i, i + 1);
    if i + 1 < j {
      var c := FirstRow(groups, j);
      UngroupGrows(groups, i + 1, j);
    }
  }

  // ---- Segments -------------------------------------------------------------------------

  datatype Message = Message(externalId: Option<string>, payloadHash: string, attachment: bool)

  /** Messages of one conversation. */
  datatype Segment = Segment(key: string, messages: seq<Message>)

  type Tagged = (string, Message)

  function Tag(s: Segment): (r: seq<Tagged>)
    ensures |r| == |s.messages|
  {
    seq(|s.messages|, i requires 0 <= i < |s.messages| => (s.key, s.messages[i]))
  }

  function TagAll(segments: seq<Segment>): seq<Tagged> {
    if segments == [] then [] else TagAll(segments[..|segments| - 1]) + Tag(segments[|segments| - 1])
  }

  function TagChunks(chunks: seq<seq<Segment>>): seq<Tagged> {
    if chunks == [] then [] else TagChunks(chunks[..|chunks| - 1]) + TagAll(chunks[|chunks| - 1])
  }

  function Select(messages: seq<Message>, keep: Message -> bool): seq<Message> {
    if messages == [] then []
    else Select(messages[..|messages| - 1], keep) + if keep(messages[|messages| - 1]) then [messages[|messages| - 1]] else []
  }

  /** All messages that are to be kept, conversation by conversation. */
  function Wanted(conversations: seq<Segment>, keep: Message -> bool): seq<Tagged> {
    if conversations == [] then []
    else
      var last := conversations[|conversations| - 1];
      Wanted(conversations[..|conversations| - 1], keep) + Tag(Segment(last.key, Select(last.messages, keep)))
  }

  lemma {:induction false} SelectConcat(a: seq<Message>, b: seq<Message>, keep: Message -> bool)
    ensures Select(a + b, keep) == Select(a, keep) + Select(b, keep)
  {
    if b == [] {
      assert a + b == a;
    } else {
      assert (a + b)[..|a + b| - 1] == a + b[..|b| - 1];
      SelectConcat(a, b[..|b| - 1], keep);
    }
  }

  lemma {:induction false} SelectShrinks(messages: seq<Message>, keep: Message -> bool)
    ensures |Select(messages, keep)| <= |messages|
  {
    if messages != [] {
      SelectShrinks(messages[..|messages| - 1], keep);
    }
  }

  lemma TagConcat(key: string, a: seq<Message>, b: seq<Message>)
    ensures Tag(Segment(key, a + b)) == Tag(Segment(key, a)) + Tag(Segment(key, b))
  {
  }

  // ---- Collecting segments into chunks ------------------------------------------------------

  /** Chunks already handed over, and the segments waiting for the next one. */
  datatype Progress = Progress(chunks: seq<seq<Segment>>, waiting: seq<Segment>, count: nat)

  function Flush(p: Progress): Progress {
    if p.waiting == [] then p else Progress(p.chunks + [p.waiting], [], 0)
  }

  /** A slice of a conversation; `last` tells whether it is the end of it. */
  datatype Slice = Slice(key: string, messages: seq<Message>, last: bool)

  function Push(p: Progress, s: Segment): Progress {
    Progress(p.chunks, p.waiting + [s], p.count + |s.messages|)
  }

  function Collect(p: Progress, slice: Slice, keep: Message -> bool, size: nat): Progress {
    var messages := Select(slice.messages, keep);
    if messages == [] then p
    else
      var room := if p.count > 0 && p.count + |messages| > size then Flush(p) else p;
      var pushed := Push(room, Segment(slice.key, messages));
      if slice.last then pushed else Flush(pushed)
  }

  /** The first `n` slices collected. */
  function CollectAll(slices: seq<Slice>, n: nat, keep: Message -> bool, size: nat): Progress
    requires n <= |slices|
  {
    if n == 0 then Progress([], [], 0) else Collect(CollectAll(slices, n - 1, keep, size), slices[n - 1], keep, size)
  }

  /** The slices of one conversation, from `offset` on. */
  function SlicesFrom(c: Segment, offset: nat, size: nat): seq<Slice>
    requires size > 0
    decreases |c.messages| - offset
  {
    if offset >= |c.messages| then []
    else
      var end := if offset + size < |c.messages| then offset + size else |c.messages|;
      [Slice(c.key, c.messages[offset..end], offset + size >= |c.messages|)] + SlicesFrom(c, offset + size, size)
  }

  function Slices(conversations: seq<Segment>, size: nat): seq<Slice>
    requires size > 0
  {
    if conversations == [] then []
    else Slices(conversations[..|conversations| - 1], size) + SlicesFrom(conversations[|conversations| - 1], 0, size)
  }

  /** The chunks that are handed over. */
  function ChunksOf(conversations: seq<Segment>, keep: Message -> bool, size: nat): seq<seq<Segment>>
    requires size > 0
  {
    var slices := Slices(conversations, size);
    Flush(CollectAll(slices, |slices|, keep, size)).chunks
  }

  lemma {:induction false} CollectPrefix(a: seq<Slice>, b: seq<Slice>, n: nat, keep: Message -> bool, size: nat)
    requires n <= |a|
    ensures CollectAll(a + b, n, keep, size) == CollectAll(a, n, keep, size)
  {
    if n > 0 {
      CollectPrefix(a, b, n - 1, keep, size);
    }
  }

  lemma CollectOne(a: seq<Slice>, slice: Slice, keep: Message -> bool, size: nat)
    ensures CollectAll(a + [slice], |a| + 1, keep, size) == Collect(CollectAll(a, |a|, keep, size), slice, keep, size)
  {
    CollectPrefix(a, [slice], |a|, keep, size);
  }

  /** The loop over conversations; the inner loop is over the offsets of one of them. */
  method CollectChunks(conversations: seq<Segment>, keep: Message -> bool, size: nat) returns (chunks: seq<seq<Segment>>)
    requires size > 0
    ensures chunks == ChunksOf(conversations, keep, size)
  {
    var p := Progress([], [], 0);
    ghost var done: seq<Slice> := [];
    for index := 0 to |conversations|
      invariant done == Slices(conversations[..index], size)
      invariant p == CollectAll(done, |done|, keep, size)
    {
      assert conversations[..index + 1][..index] == conversations[..index];
      p := CollectConversation(p, done, conversations[index], keep, size);
      done := done + SlicesFrom(conversations[index], 0, size);
    }
    assert conversations[..|conversations|] == conversations;
    chunks := Flush(p).chunks;
  }

  method CollectConversation(start: Progress, ghost before: seq<Slice>, c: Segment, keep: Message -> bool, size: nat) returns (p: Progress)
    requires size > 0 && start == CollectAll(before, |before|, keep, size)
    ensures var after := before + SlicesFrom(c, 0, size); p == CollectAll(after, |after|, keep, size)
  {
    p := start;
    ghost var done := before;
    var offset := 0;
    while offset < |c.messages|
      invariant done + SlicesFrom(c, offset, size) == before + SlicesFrom(c, 0, size)
      invariant p == CollectAll(done, |done|, keep, size)
    {
      var end := if offset + size < |c.messages| then offset + size else |c.messages|;
      ghost var slice := Slice(c.key, c.messages[offset..end], offset + size >= |c.messages|);
      assert done + SlicesFrom(c, offset, size) == (done + [slice]) + SlicesFrom(c, offset + size, size);
      CollectOne(done, slice, keep, size);
      var messages := Select(c.messages[offset..end], keep);
      if |messages| != 0 {
        if p.count > 0 && p.count + |messages| > size {
          p := Flush(p);
        }
        p := Push(p, Segment(c.key, messages));
        if offset + size < |c.messages| {
          p := Flush(p);
        }
      }
      done := done + [slice];
      offset := offset + size;
    }
    assert done + [] == done;
  }
}
