/**
  Raw phones of a backup and the conversations they become: rows are grouped by the
  phone as it is spelled, but conversations are named by its normal form.
 */
module HistoryPhones {
  import opened Wrappers
  import opened Text
  import opened HistoryStream
  import opened HistoryChunks

  // ---- The normal form of a phone ----------------------------------------------------

  /** Everything before the first `c`. */
  function UpTo(s: string, c: char): string {
    if s == "" || s[0] == c then "" else [s[0]] + UpTo(s[1..], c)
  }

  function OnlyDigits(s: string): (r: string)
    ensures Digits(r)
  {
    if s == "" then "" else (if IsDigit(s[0]) then [s[0]] else "") + OnlyDigits(s[1..])
  }

  function WithoutTrunkZero(digits: string): string {
    if digits != "" && digits[0] == '0' then digits[1..] else digits
  }

  predicate HasCountryCode(digits: string) {
    |digits| >= 12 && digits[0] == '5' && digits[1] == '5'
  }

  /** The number behind the country code, which is left out where none is recognised. */
  function Domestic(digits: string): string {
    if HasCountryCode(digits) then digits[2..] else digits
  }

  /** Mobile numbers of eight digits get a ninth. */
  predicate OldMobile(subscriber: string) {
    |subscriber| == 8 && '6' <= subscriber[0] <= '9'
  }

  function Canonical(digits: string): string {
    var domestic := Domestic(digits);
    if |domestic| == 10 || |domestic| == 11 then
      var area, subscriber := domestic[..2], domestic[2..];
      "55" + area + (if OldMobile(subscriber) then "9" + subscriber else subscriber)
    else digits
  }

  /** None where the source throws: a number outside twelve to fifteen digits. */
  function Normalise(phone: string): Option<string> {
    var canonical := Canonical(WithoutTrunkZero(OnlyDigits(UpTo(UpTo(phone, '@'), ':'))));
    if 12 <= |canonical| <= 15 then Some(canonical) else None
  }

  lemma {:induction false} DigitsStay(s: string)
    requires Digits(s)
    ensures UpTo(UpTo(s, '@'), ':') == s && OnlyDigits(s) == s
  {
    if s != "" {
      DigitsStay(s[1..]);
      DigitsHaveNoSign(s, '@');
      DigitsHaveNoSign(s, ':');
    }
  }

  lemma {:induction false} DigitsHaveNoSign(s: string, c: char)
    requires Digits(s) && !IsDigit(c)
    ensures UpTo(s, c) == s
  {
    if s != "" {
      DigitsHaveNoSign(s[1..], c);
    }
  }

  lemma CanonicalAgain(digits: string)
    ensures Canonical(Canonical(digits)) == Canonical(digits)
  {
    var domestic := Domestic(digits);
    if |domestic| == 10 || |domestic| == 11 {
      var area, subscriber := domestic[..2], domestic[2..];
      var longer := if OldMobile(subscriber) then "9" + subscriber else subscriber;
      CanonicalOf(area, longer);
    }
  }

  /** With its country code, a number whose subscriber is not an old mobile one is in canonical form. */
  lemma CanonicalOf(area: string, subscriber: string)
    requires |area| == 2 && (|subscriber| == 8 || |subscriber| == 9) && !OldMobile(subscriber)
    ensures Canonical("55" + area + subscriber) == "55" + area + subscriber
  {
    var digits := "55" + area + subscriber;
    assert digits[2..] == area + subscriber;
    assert (area + subscriber)[..2] == area && (area + subscriber)[2..] == subscriber;
  }

  lemma TrunkZeroLost(digits: string)
    requires |digits| >= 12 && digits[0] == '0'
    ensures Canonical(digits[1..]) != digits
  {
    var rest := digits[1..];
    var domestic := Domestic(rest);
    if |domestic| == 10 || |domestic| == 11 {
      assert Canonical(rest)[0] == '5';
    } else {
      assert |Canonical(rest)| != |digits|;
    }
  }

  lemma CanonicalDigits(digits: string)
    requires Digits(digits)
    ensures Digits(Canonical(digits))
  {
  }

  /** A normal form has twelve to fifteen digits, and is its own normal form unless it starts with a zero. */
  lemma NormalisedAgainIff(phone: string)
    requires Normalise(phone).Some?
    ensures var normal := Normalise(phone).value;
            && Digits(normal) && 12 <= |normal| <= 15
            && (Normalise(normal) == Some(normal) <==> normal[0] != '0')
  {
    var digits := WithoutTrunkZero(OnlyDigits(UpTo(UpTo(phone, '@'), ':')));
    var normal := Normalise(phone).value;
    assert normal == Canonical(digits) && Digits(digits);
    CanonicalDigits(digits);
    DigitsStay(normal);
    if normal[0] == '0' {
      TrunkZeroLost(normal);
    } else {
      CanonicalAgain(digits);
    }
  }

  lemma CanonicalOldMobile(area: string, subscriber: string)
    requires |area| == 2 && OldMobile(subscriber)
    ensures Canonical("55" + area + subscriber) == "55" + area + ("9" + subscriber)
  {
    var digits := "55" + area + subscriber;
    assert digits[2..] == area + subscriber;
    assert (area + subscriber)[..2] == area && (area + subscriber)[2..] == subscriber;
  }

  lemma NormaliseDigits(digits: string, canonical: string)
    requires Digits(digits) && digits != "" && digits[0] != '0'
    requires canonical == Canonical(digits) && 12 <= |canonical| <= 15
    ensures Normalise(digits) == Some(canonical)
  {
    DigitsStay(digits);
  }

  /** An old mobile number and the same one with its ninth digit have one normal form. */
  lemma SpellingsAgree(area: string, subscriber: string)
    requires Digits(area) && Digits(subscriber) && |area| == 2 && OldMobile(subscriber)
    ensures Normalise("55" + area + subscriber) == Normalise("55" + area + "9" + subscriber) == Some("55" + area + "9" + subscriber)
  {
    var short, long := "55" + area + subscriber, "55" + area + "9" + subscriber;
    assert long == "55" + area + ("9" + subscriber);
    CanonicalOldMobile(area, subscriber);
    CanonicalOf(area, "9" + subscriber);
    NormaliseDigits(short, long);
    NormaliseDigits(long, long);
  }

  // ---- From rows to conversations -------------------------------------------------------

  predicate AllNormal(rows: seq<Row<Message>>) {
    forall row | row in rows :: Normalise(row.phone).Some?
  }

  function NameOf(phone: string): string {
    Normalise(phone).GetOr(phone)
  }

  function Conversation(g: Group<Message>): Segment {
    Segment(NameOf(g.phone), g.items)
  }

  function Conversations(groups: seq<Group<Message>>): (r: seq<Segment>)
    ensures |r| == |groups|
  {
    seq(|groups|, i requires 0 <= i < |groups| => Conversation(groups[i]))
  }

  /** The wanted rows in their order, each with the name of its conversation. */
  function WantedRows(rows: seq<Row<Message>>, keep: Message -> bool): seq<Tagged> {
    if rows == [] then []
    else
      var last := rows[|rows| - 1];
      WantedRows(rows[..|rows| - 1], keep) + if keep(last.item) then [(NameOf(last.phone), last.item)] else []
  }

  predicate NormalGroups(groups: seq<Group<Message>>) {
    forall g | g in groups :: Normalise(g.phone).Some?
  }

  /** The groups of the rows as conversations; the first phone without a normal form ends the stream. */
  method ReadConversations(rows: seq<Row<Message>>) returns (outcome: Result<seq<Segment>, string>, ghost groups: seq<Group<Message>>)
    ensures Ungroup(groups) == rows && ProperGroups(groups)
    ensures outcome.Ok? <==> AllNormal(rows)
    ensures outcome.Ok? ==> outcome.value == Conversations(groups)
  {
    var grouped := GroupRows(rows);
    groups := grouped;
    NormalIff(rows, groups);
    outcome := ReadGroups(grouped);
  }

  method ReadGroups(groups: seq<Group<Message>>) returns (outcome: Result<seq<Segment>, string>)
    ensures outcome.Ok? <==> NormalGroups(groups)
    ensures outcome.Ok? ==> outcome.value == Conversations(groups)
  {
    var read: seq<Segment> := [];
    for n := 0 to |groups|
      invariant read == Conversations(groups[..n]) && NormalGroups(groups[..n])
    {
      var phone := Normalise(groups[n].phone);
      assert groups[n] in groups;
      if phone.None? {
        return Err(groups[n].phone);
      }
      assert groups[..n + 1] == groups[..n] + [groups[n]];
      read := read + [Segment(phone.value, groups[n].items)];
    }
    assert groups[..|groups|] == groups;
    outcome := Ok(read);
  }

  lemma NormalIff(rows: seq<Row<Message>>, groups: seq<Group<Message>>)
    requires Ungroup(groups) == rows && ProperGroups(groups)
    ensures NormalGroups(groups) <==> AllNormal(rows)
  {
    forall g | g in groups && AllNormal(rows)
      ensures Normalise(g.phone).Some?
    {
      var i :| 0 <= i < |groups| && groups[i] == g;
      var at := FirstRow(groups, i);
      assert rows[at] in rows;
    }
    forall row | row in rows && NormalGroups(groups)
      ensures Normalise(row.phone).Some?
    {
      var g := GroupOf(groups, row);
    }
  }

  lemma {:induction false} GroupOf(groups: seq<Group<Message>>, row: Row<Message>) returns (g: Group<Message>)
    requires row in Ungroup(groups)
    ensures g in groups && g.phone == row.phone
  {
    var last := groups[|groups| - 1];
    if row in RowsOf(last) {
      g := last;
    } else {
      g := GroupOf(groups[..|groups| - 1], row);
    }
  }

  lemma {:induction false} WantedConcat(a: seq<Row<Message>>, b: seq<Row<Message>>, keep: Message -> bool)
    ensures WantedRows(a + b, keep) == WantedRows(a, keep) + WantedRows(b, keep)
  {
    if b == [] {
      assert a + b == a;
    } else {
      assert (a + b)[..|a + b| - 1] == a + b[..|b| - 1];
      WantedConcat(a, b[..|b| - 1], keep);
    }
  }

  lemma {:induction false} WantedOfGroup(phone: string, items: seq<Message>, keep: Message -> bool)
    ensures WantedRows(RowsOf(Group(phone, items)), keep) == Tag(Segment(NameOf(phone), Select(items, keep)))
  {
    if items != [] {
      var front, last := items[..|items| - 1], items[|items| - 1];
      WantedOfGroup(phone, front, keep);
      assert RowsOf(Group(phone, items))[..|items| - 1] == RowsOf(Group(phone, front));
      TagConcat(NameOf(phone), Select(front, keep), if keep(last) then [last] else []);
    }
  }

  lemma {:induction false} WantedOfGroups(groups: seq<Group<Message>>, keep: Message -> bool)
    ensures Wanted(Conversations(groups), keep) == WantedRows(Ungroup(groups), keep)
  {
    if groups != [] {
      var front, last := groups[..|groups| - 1], groups[|groups| - 1];
      WantedOfGroups(front, keep);
      assert Conversations(groups)[..|groups| - 1] == Conversations(front);
      WantedOfGroup(last.phone, last.items, keep);
      WantedConcat(Ungroup(front), RowsOf(last), keep);
    }
  }

  /** From rows to chunks nothing wanted is lost, added or reordered. */
  lemma RowsReachChunks(rows: seq<Row<Message>>, groups: seq<Group<Message>>, keep: Message -> bool, size: nat)
    requires Ungroup(groups) == rows && size > 0
    ensures TagChunks(ChunksOf(Conversations(groups), keep, size)) == WantedRows(rows, keep)
  {
    ChunksKeepAll(Conversations(groups), keep, size);
    WantedOfGroups(groups, keep);
  }

  // ---- One conversation in one chunk ---------------------------------------------------------

  /** Rows of different phones belong to different conversations. */
  predicate OneSpelling(rows: seq<Row<Message>>) {
    forall a, b | a in rows && b in rows && a.phone != b.phone :: NameOf(a.phone) != NameOf(b.phone)
  }

  lemma DistinctIff(rows: seq<Row<Message>>, groups: seq<Group<Message>>)
    requires Ungroup(groups) == rows && ProperGroups(groups) && Contiguous(rows)
    ensures DistinctKeys(Conversations(groups)) <==> OneSpelling(rows)
  {
    if OneSpelling(rows) {
      forall i, j | 0 <= i < j < |groups|
        ensures Conversations(groups)[i].key != Conversations(groups)[j].key
      {
        OneGroupEach(groups, i, j);
        var a := FirstRow(groups, i);
        var b := FirstRow(groups, j);
        assert rows[a] in rows && rows[b] in rows;
      }
    }
    if DistinctKeys(Conversations(groups)) {
      forall a, b | a in rows && b in rows && a.phone != b.phone
        ensures NameOf(a.phone) != NameOf(b.phone)
      {
        var g := GroupOf(groups, a);
        var h := GroupOf(groups, b);
        var i :| 0 <= i < |groups| && groups[i] == g;
        var j :| 0 <= j < |groups| && groups[j] == h;
        assert Conversations(groups)[i].key == NameOf(a.phone) && Conversations(groups)[j].key == NameOf(b.phone);
      }
    }
  }

  /**
    Of rows in the order of their phones, no chunk ever has two segments of one
    conversation, whatever is wanted and however large the chunks, exactly when no
    conversation has its phone spelled in two ways.
   */
  lemma RowsSeparateIff(rows: seq<Row<Message>>, groups: seq<Group<Message>>)
    requires Ungroup(groups) == rows && ProperGroups(groups) && Contiguous(rows)
    ensures (forall keep: Message -> bool, size: nat | size > 0 :: ChunksSeparate(ChunksOf(Conversations(groups), keep, size)))
       <==> OneSpelling(rows)
  {
    forall c | c in Conversations(groups)
      ensures c.messages != []
    {
      var i :| 0 <= i < |groups| && Conversations(groups)[i] == c;
      assert groups[i].items != [];
    }
    SeparateIff(Conversations(groups));
    DistinctIff(rows, groups);
  }

  lemma {:induction false} AsManyAsRows(groups: seq<Group<Message>>)
    ensures |TagAll(Conversations(groups))| == |Ungroup(groups)|
  {
    if groups != [] {
      AsManyAsRows(groups[..|groups| - 1]);
      assert Conversations(groups)[..|groups| - 1] == Conversations(groups[..|groups| - 1]);
    }
  }

  /** With room for all rows, there is one chunk with all conversations. */
  lemma OneChunk(groups: seq<Group<Message>>, size: nat)
    requires ProperGroups(groups) && groups != [] && |Ungroup(groups)| <= size
    ensures size > 0 && ChunksOf(Conversations(groups), Any(), size) == [Conversations(groups)]
  {
    AsManyAsRows(groups);
    assert RowsOf(groups[|groups| - 1])[0] in Ungroup(groups);
    forall c | c in Conversations(groups)
      ensures c.messages != []
    {
      var i :| 0 <= i < |groups| && Conversations(groups)[i] == c;
      assert groups[i].items != [];
    }
    AllWait(Conversations(groups), size);
  }

  /** Two spellings of one number make two groups of one conversation, together in one chunk. */
  lemma TwoSpellings(p: string, q: string, a: Message, b: Message, rows: seq<Row<Message>>, groups: seq<Group<Message>>)
    requires p != q && NameOf(p) == NameOf(q) && rows == [Row(p, a), Row(q, b)]
    requires Ungroup(groups) == rows && ProperGroups(groups)
    ensures !ChunksSeparate(ChunksOf(Conversations(groups), Any(), 2))
  {
    assert rows[0] in rows && rows[1] in rows && !OneSpelling(rows);
    DistinctIff(rows, groups);
    OneChunk(groups, 2);
    assert Conversations(groups) in ChunksOf(Conversations(groups), Any(), 2);
  }

  /** So it happens to every mobile number that is stored with and without its ninth digit. */
  lemma SpellingsMeet(area: string, subscriber: string, a: Message, b: Message, rows: seq<Row<Message>>, groups: seq<Group<Message>>)
    requires Digits(area) && Digits(subscriber) && |area| == 2 && OldMobile(subscriber)
    requires rows == [Row("55" + area + subscriber, a), Row("55" + area + "9" + subscriber, b)]
    requires Ungroup(groups) == rows && ProperGroups(groups)
    ensures AllNormal(rows) && !ChunksSeparate(ChunksOf(Conversations(groups), Any(), 2))
  {
    SpellingsAgree(area, subscriber);
    TwoSpellings("55" + area + subscriber, "55" + area + "9" + subscriber, a, b, rows, groups);
  }
}
