/** Fields of the protobuf wire format, as far as backup headers use it. */
module Protobuf {
  import opened Wrappers
  import opened Bytes
  import opened Doubles

  datatype ParseError = Incomplete | InvalidField | InvalidLength | Truncated | Unsupported

  /** The fields that a parser keeps; those of fixed width are skipped. */
  datatype Field = Varint(number: nat, value: nat) | Chunk(number: nat, bytes: seq<Byte>)

  const MAX_VARINT_BYTES: nat := 10
  const MAX_SAFE_INTEGER: nat := 9_007_199_254_740_991

  // ---- Base-128 varints ----------------------------------------------------------------

  type Reading = Result<(nat, nat), ParseError>

  /** The number that starts at `offset`, in at most `left` bytes, and the offset behind it. */
  function VarintIn(input: seq<Byte>, offset: nat, left: nat): Reading
    decreases |input| - offset
  {
    if offset >= |input| || left == 0 then Err(Incomplete)
    else if input[offset] < 0x80 then Ok((input[offset], offset + 1))
    else
      var rest :- VarintIn(input, offset + 1, left - 1);
      Ok((input[offset] - 0x80 + 0x80 * rest.0, rest.1))
  }

  function VarintAt(input: seq<Byte>, offset: nat): Reading {
    VarintIn(input, offset, MAX_VARINT_BYTES)
  }

  /** The low bits read so far, in front of what is still to be read. */
  function Above(value: nat, unit: nat, rest: Reading): Reading {
    match rest
    case Err(e) => Err(e)
    case Ok(read) => Ok((value + unit * read.0, read.1))
  }

  lemma AboveStep(value: nat, unit: nat, low: nat, rest: Reading)
    ensures Above(value, unit, Above(low, 0x80, rest)) == Above(value + unit * low, unit * 0x80, rest)
  {
    if rest.Ok? {
      var high := rest.value.0;
      calc {
        unit * (low + 0x80 * high);
        unit * low + unit * (0x80 * high);
        unit * low + unit * 0x80 * high;
      }
    }
  }

  lemma NonNegative(a: nat, b: nat)
    ensures a * b >= 0
  {
  }

  /** What reading one more byte does to the number read so far. */
  lemma VarintStep(input: seq<Byte>, offset: nat, left: nat, value: nat, unit: nat)
    requires offset < |input| && left > 0
    ensures unit * (input[offset] % 0x80) >= 0
    ensures var low := input[offset] % 0x80;
            Above(value, unit, VarintIn(input, offset, left))
            == if input[offset] / 0x80 == 0 then Ok((value + unit * low, offset + 1))
               else Above(value + unit * low, unit * 0x80, VarintIn(input, offset + 1, left - 1))
  {
    NonNegative(unit, input[offset] % 0x80);
    if input[offset] >= 0x80 {
      AboveStep(value, unit, input[offset] - 0x80, VarintIn(input, offset + 1, left - 1));
    }
  }

  method ReadVarint(input: seq<Byte>, initialOffset: nat) returns (read: Reading)
    ensures read == VarintAt(input, initialOffset)
  {
    var value: nat := 0;
    var unit: nat := 1;
    var shift := 0;
    var offset := initialOffset;
    ghost var left := MAX_VARINT_BYTES;
    while offset < |input| && shift <= 63
      invariant shift == 7 * (MAX_VARINT_BYTES - left)
      invariant VarintAt(input, initialOffset) == Above(value, unit, VarintIn(input, offset, left))
      decreases |input| - offset
    {
      var byte := input[offset];
      VarintStep(input, offset, left, value, unit);
      value := value + unit * (byte % 0x80);
      offset := offset + 1;
      if byte / 0x80 == 0 {
        return Ok((value, offset));
      }
      shift := shift + 7;
      unit := unit * 0x80;
      left := left - 1;
    }
    read := Err(Incomplete);
  }

  /** The canonical encoding. */
  function Encode(n: nat): (r: seq<Byte>)
    ensures |r| > 0
  {
    if n < 0x80 then [n] else [n % 0x80 + 0x80] + Encode(n / 0x80)
  }

  function Power128(k: nat): nat {
    if k == 0 then 1 else 0x80 * Power128(k - 1)
  }

  /** A byte that announces more, in front of what is read behind it. */
  lemma MoreRead(input: seq<Byte>, at: nat, n: nat, left: nat, limit: nat, end: nat)
    requires at < |input| && left > 0 && limit > 0 && n >= 0x80 && input[at] == n % 0x80 + 0x80
    requires VarintIn(input, at + 1, left - 1) == if n / 0x80 < limit && left > 1 then Ok((n / 0x80, end)) else Err(Incomplete)
    requires left == 1 ==> limit == 1
    ensures VarintIn(input, at, left) == if n < 0x80 * limit then Ok((n, end)) else Err(Incomplete)
  {
    assert n == n % 0x80 + 0x80 * (n / 0x80);
  }

  lemma LowInFront(front: seq<Byte>, low: Byte, high: seq<Byte>, rest: seq<Byte>, input: seq<Byte>)
    requires input == front + ([low] + high) + rest
    ensures input == (front + [low]) + high + rest && |front| < |input| && input[|front|] == low
  {
  }

  /** Within `left` bytes, exactly the numbers below 128^left are read back. */
  lemma {:induction false} ReadsEncoded(front: seq<Byte>, n: nat, rest: seq<Byte>, left: nat)
    ensures VarintIn(front + Encode(n) + rest, |front|, left)
         == if n < Power128(left) && left > 0 then Ok((n, |front| + |Encode(n)|)) else Err(Incomplete)
    decreases left
  {
    var input := front + Encode(n) + rest;
    if left > 0 {
      Power128Positive(left - 1);
      if n >= 0x80 {
        var low, high := n % 0x80 + 0x80, Encode(n / 0x80);
        LowInFront(front, low, high, rest, input);
        ReadsEncoded(front + [low], n / 0x80, rest, left - 1);
        MoreRead(input, |front|, n, left, Power128(left - 1), |front| + 1 + |high|);
      } else {
        assert input[|front|] == n;
      }
    }
  }

  lemma {:induction false} Power128Positive(k: nat)
    ensures Power128(k) >= 1
  {
    if k > 0 {
      Power128Positive(k - 1);
    }
  }

  lemma Limit()
    ensures Power128(MAX_VARINT_BYTES) == 0x40_0000_0000_0000_0000 > 0x1_0000_0000_0000_0000
  {
    assert Power128(2) == 0x4000;
    assert Power128(4) == 0x1000_0000;
    assert Power128(6) == 0x400_0000_0000;
    assert Power128(8) == 0x100_0000_0000_0000;
  }

  /** A number is read back exactly when it is below 2^70; so every 64-bit number is. */
  lemma VarintRoundTrip(front: seq<Byte>, n: nat, rest: seq<Byte>)
    ensures VarintAt(front + Encode(n) + rest, |front|)
         == if n < 0x40_0000_0000_0000_0000 then Ok((n, |front| + |Encode(n)|)) else Err(Incomplete)
  {
    Limit();
    ReadsEncoded(front, n, rest, MAX_VARINT_BYTES);
  }

  /** Reading moves forward, by at most the allowed bytes, and stays in the input. */
  lemma {:induction false} VarintAdvances(input: seq<Byte>, offset: nat, left: nat)
    requires VarintIn(input, offset, left).Ok?
    ensures var read := VarintIn(input, offset, left).value;
            offset < read.1 <= |input| && read.1 <= offset + left && read.0 < Power128(read.1 - offset)
    decreases left
  {
    assert Power128(1) == 0x80 * Power128(0);
    if input[offset] >= 0x80 {
      VarintAdvances(input, offset + 1, left - 1);
      var read := VarintIn(input, offset + 1, left - 1).value;
      assert Power128(read.1 - offset) == 0x80 * Power128(read.1 - (offset + 1));
    }
  }

  // ---- Fields ---------------------------------------------------------------------------

  type Parsed = Result<seq<Field>, ParseError>

  /** What one field is: the field if it is kept, and the offset behind it. */
  function FieldAt(input: seq<Byte>, offset: nat): Result<(seq<Field>, nat), ParseError> {
    var tag :- VarintAt(input, offset);
    var number, wireType := Nearest(tag.0 / 8), tag.0 % 8;
    if number < 1 then Err(InvalidField)
    else if wireType == 0 then
      var value :- VarintAt(input, tag.1);
      Ok(([Varint(number, value.0)], value.1))
    else if wireType == 2 then
      var length :- VarintAt(input, tag.1);
      if length.0 > MAX_SAFE_INTEGER then Err(InvalidLength)
      else if length.1 + length.0 > |input| then Err(Truncated)
      else Ok(([Chunk(number, input[length.1..length.1 + length.0])], length.1 + length.0))
    else if wireType == 1 || wireType == 5 then
      var end := tag.1 + if wireType == 1 then 8 else 4;
      if end > |input| then Err(Truncated) else Ok(([], end))
    else Err(Unsupported)
  }

  lemma FieldAdvances(input: seq<Byte>, offset: nat)
    requires FieldAt(input, offset).Ok?
    ensures offset < FieldAt(input, offset).value.1 <= |input|
  {
    VarintAdvances(input, offset, MAX_VARINT_BYTES);
    var tag := VarintAt(input, offset).value;
    if tag.0 % 8 == 0 || tag.0 % 8 == 2 {
      VarintAdvances(input, tag.1, MAX_VARINT_BYTES);
    }
  }

  /** The fields from `offset` to the end of the input. */
  function FieldsFrom(input: seq<Byte>, offset: nat): Parsed
    decreases |input| - offset
  {
    if offset >= |input| then Ok([])
    else
      var field :- FieldAt(input, offset);
      FieldAdvances(input, offset);
      var others :- FieldsFrom(input, field.1);
      Ok(field.0 + others)
  }

  function Before(fields: seq<Field>, others: Parsed): Parsed {
    match others
    case Err(e) => Err(e)
    case Ok(more) => Ok(fields + more)
  }

  method ProtobufFields(input: seq<Byte>) returns (parsed: Parsed)
    ensures parsed == FieldsFrom(input, 0)
  {
    var fields: seq<Field> := [];
    var offset := 0;
    BeforeNothing(FieldsFrom(input, 0));
    while offset < |input|
      invariant offset <= |input|
      invariant FieldsFrom(input, 0) == Before(fields, FieldsFrom(input, offset))
      decreases |input| - offset
    {
      var field := ParseField(input, offset);
      if field.Err? {
        return Err(field.error);
      }
      FieldAdvances(input, offset);
      BeforeStep(fields, field.value.0, FieldsFrom(input, field.value.1));
      fields := fields + field.value.0;
      offset := field.value.1;
    }
    assert fields + [] == fields;
    parsed := Ok(fields);
  }

  lemma BeforeNothing(others: Parsed)
    ensures Before([], others) == others
  {
    if others.Ok? {
      assert [] + others.value == others.value;
    }
  }

  lemma BeforeStep(fields: seq<Field>, more: seq<Field>, others: Parsed)
    ensures Before(fields, Before(more, others)) == Before(fields + more, others)
  {
    if others.Ok? {
      assert fields + (more + others.value) == (fields + more) + others.value;
    }
  }

  /** One turn of the loop over the fields. */
  method ParseField(input: seq<Byte>, start: nat) returns (field: Result<(seq<Field>, nat), ParseError>)
    ensures field == FieldAt(input, start)
  {
    var offset := start;
    var tag :- ReadVarint(input, offset);
    offset := tag.1;
    var number, wireType := Nearest(tag.0 / 8), tag.0 % 8;
    if number < 1 {
      return Err(InvalidField);
    }
    if wireType == 0 {
      var value :- ReadVarint(input, offset);
      offset := value.1;
      return Ok(([Varint(number, value.0)], offset));
    }
    if wireType == 2 {
      var length :- ReadVarint(input, offset);
      offset := length.1;
      if length.0 > MAX_SAFE_INTEGER {
        return Err(InvalidLength);
      }
      var end := offset + length.0;
      if end > |input| {
        return Err(Truncated);
      }
      return Ok(([Chunk(number, input[offset..end])], end));
    }
    if wireType == 1 {
      offset := offset + 8;
    } else if wireType == 5 {
      offset := offset + 4;
    } else {
      return Err(Unsupported);
    }
    if offset > |input| {
      return Err(Truncated);
    }
    field := Ok(([], offset));
  }

  // ---- Writing fields -------------------------------------------------------------------

  /** A field of any of the four wire types that can be read. */
  datatype Item = Kept(field: Field) | Fixed64(number: nat, bytes: seq<Byte>) | Fixed32(number: nat, bytes: seq<Byte>)

  function Number(item: Item): nat {
    match item
    case Kept(field) => field.number
    case _ => item.number
  }

  predicate Writable(item: Item) {
    && 1 <= Number(item) < 0x8_0000_0000_0000_0000
    && match item
       case Kept(Varint(_, value)) => value < 0x1_0000_0000_0000_0000
       case Kept(Chunk(_, bytes)) => |bytes| <= MAX_SAFE_INTEGER
       case Fixed64(_, bytes) => |bytes| == 8
       case Fixed32(_, bytes) => |bytes| == 4
  }

  function Write(item: Item): (r: seq<Byte>)
    ensures |r| > 0
  {
    match item
    case Kept(Varint(number, value)) => Encode(8 * number) + Encode(value)
    case Kept(Chunk(number, bytes)) => Encode(8 * number + 2) + Encode(|bytes|) + bytes
    case Fixed64(number, bytes) => Encode(8 * number + 1) + bytes
    case Fixed32(number, bytes) => Encode(8 * number + 5) + bytes
  }

  function WriteAll(items: seq<Item>): seq<Byte> {
    if items == [] then [] else Write(items[0]) + WriteAll(items[1..])
  }

  /** What a parser keeps of a field; its number is a double. */
  function KeptField(item: Item): seq<Field> {
    if item.Kept? then [item.field.(number := Nearest(item.field.number))] else []
  }

  function KeptFields(items: seq<Item>): seq<Field> {
    if items == [] then [] else KeptField(items[0]) + KeptFields(items[1..])
  }

  /** A number written inside an input is read back, with the offset behind it. */
  lemma ReadsInside(input: seq<Byte>, front: seq<Byte>, n: nat, rest: seq<Byte>)
    requires n < 0x40_0000_0000_0000_0000 && input == front + Encode(n) + rest
    ensures VarintAt(input, |front|) == Ok((n, |front + Encode(n)|))
  {
    VarintRoundTrip(front, n, rest);
  }

  predicate FieldIs(input: seq<Byte>, offset: nat, kept: seq<Field>, end: nat) {
    offset < |input| && FieldAt(input, offset) == Ok((kept, end))
  }

  lemma VarintFieldReads(front: seq<Byte>, number: nat, value: nat, written: seq<Byte>, rest: seq<Byte>, input: seq<Byte>)
    requires 1 <= number < 0x8_0000_0000_0000_0000 && value < 0x1_0000_0000_0000_0000
    requires written == Encode(8 * number) + Encode(value) && input == front + written + rest
    ensures FieldIs(input, |front|, [Varint(Nearest(number), value)], |front| + |written|)
  {
    var tag := Encode(8 * number);
    NearestPositive(number);
    Inside(front, tag, Encode(value), rest);
    ReadsInside(input, front, 8 * number, Encode(value) + rest);
    ReadsInside(input, front + tag, value, rest);
  }

  /** A field of bytes, once its tag and its length are read. */
  lemma ChunkFieldIs(input: seq<Byte>, offset: nat, tag: nat, behindTag: nat, length: nat, at: nat)
    requires offset < |input| && tag >= 8 && tag % 8 == 2 && length <= MAX_SAFE_INTEGER && at + length <= |input|
    requires VarintAt(input, offset) == Ok((tag, behindTag)) && VarintAt(input, behindTag) == Ok((length, at))
    ensures FieldIs(input, offset, [Chunk(Nearest(tag / 8), input[at..at + length])], at + length)
  {
    NearestPositive(tag / 8);
  }

  lemma ThreeParts(front: seq<Byte>, a: seq<Byte>, b: seq<Byte>, c: seq<Byte>, rest: seq<Byte>, input: seq<Byte>, p: seq<Byte>, q: seq<Byte>)
    requires input == front + (a + b + c) + rest && p == front + a && q == p + b
    ensures input == front + a + (b + c + rest) && input == p + b + (c + rest) && input == q + c + rest
    ensures |q| + |c| == |front| + |a + b + c| <= |input| && input[|q|..|q| + |c|] == c
  {
    Inside(front, a, b + c, rest);
    Inside(p, b, c, rest);
    assert a + b + c == a + (b + c);
    ChunkInside(q, c, rest);
  }

  /** What stands behind a tag and behind a length is read. */
  lemma TagAndLengthRead(front: seq<Byte>, tag: nat, length: nat, a: seq<Byte>, b: seq<Byte>, p: seq<Byte>, q: seq<Byte>, x: seq<Byte>, y: seq<Byte>, input: seq<Byte>)
    requires tag < 0x40_0000_0000_0000_0000 && length <= MAX_SAFE_INTEGER && a == Encode(tag) && b == Encode(length)
    requires p == front + a && q == p + b && input == front + a + x && input == p + b + y
    ensures VarintAt(input, |front|) == Ok((tag, |p|)) && VarintAt(input, |p|) == Ok((length, |q|))
  {
    ReadsInside(input, front, tag, x);
    ReadsInside(input, p, length, y);
  }

  lemma TaggedChunkReads(
    front: seq<Byte>, tag: nat, number: nat, bytes: seq<Byte>, written: seq<Byte>, rest: seq<Byte>, input: seq<Byte>, a: seq<Byte>, b: seq<Byte>)
    requires 8 <= tag < 0x40_0000_0000_0000_0000 && tag % 8 == 2 && tag / 8 == number && |bytes| <= MAX_SAFE_INTEGER
    requires a == Encode(tag) && b == Encode(|bytes|) && written == a + b + bytes && input == front + written + rest
    ensures FieldIs(input, |front|, [Chunk(Nearest(number), bytes)], |front| + |written|)
  {
    var p, q := front + a, front + a + b;
    ThreeParts(front, a, b, bytes, rest, input, p, q);
    TagAndLengthRead(front, tag, |bytes|, a, b, p, q, b + bytes + rest, bytes + rest, input);
    ChunkFieldIs(input, |front|, tag, |p|, |bytes|, |q|);
  }

  lemma ChunkFieldReads(front: seq<Byte>, number: nat, bytes: seq<Byte>, written: seq<Byte>, rest: seq<Byte>, input: seq<Byte>)
    requires 1 <= number < 0x8_0000_0000_0000_0000 && |bytes| <= MAX_SAFE_INTEGER
    requires written == Encode(8 * number + 2) + Encode(|bytes|) + bytes && input == front + written + rest
    ensures FieldIs(input, |front|, [Chunk(Nearest(number), bytes)], |front| + |written|)
  {
    TagParts(number, 2);
    TaggedChunkReads(front, 8 * number + 2, number, bytes, written, rest, input, Encode(8 * number + 2), Encode(|bytes|));
  }

  lemma FixedFieldReads(front: seq<Byte>, number: nat, wireType: nat, bytes: seq<Byte>, written: seq<Byte>, rest: seq<Byte>, input: seq<Byte>)
    requires 1 <= number < 0x8_0000_0000_0000_0000
    requires (wireType == 1 && |bytes| == 8) || (wireType == 5 && |bytes| == 4)
    requires written == Encode(8 * number + wireType) + bytes && input == front + written + rest
    ensures FieldIs(input, |front|, [], |front| + |written|)
  {
    NearestPositive(number);
    Inside(front, Encode(8 * number + wireType), bytes, rest);
    TagParts(number, wireType);
    ReadsInside(input, front, 8 * number + wireType, bytes + rest);
  }

  lemma TagParts(number: nat, wireType: nat)
    requires wireType < 8
    ensures (8 * number + wireType) / 8 == number && (8 * number + wireType) % 8 == wireType
  {
  }

  lemma Inside(front: seq<Byte>, first: seq<Byte>, second: seq<Byte>, rest: seq<Byte>)
    ensures front + (first + second) + rest == front + first + (second + rest)
    ensures front + (first + second) + rest == (front + first) + second + rest
  {
  }

  lemma ChunkInside(front: seq<Byte>, bytes: seq<Byte>, rest: seq<Byte>)
    ensures (front + bytes + rest)[|front|..|front| + |bytes|] == bytes
  {
  }

  /** A field that was written is read back, with the offset behind it. */
  lemma FieldReads(front: seq<Byte>, item: Item, written: seq<Byte>, rest: seq<Byte>, input: seq<Byte>, kept: seq<Field>)
    requires Writable(item) && written == Write(item) && kept == KeptField(item) && input == front + written + rest
    ensures FieldIs(input, |front|, kept, |front| + |written|)
  {
    if item.Fixed64? {
      FixedFieldReads(front, item.number, 1, item.bytes, written, rest, input);
    } else if item.Fixed32? {
      FixedFieldReads(front, item.number, 5, item.bytes, written, rest, input);
    } else if item.field.Varint? {
      VarintFieldReads(front, item.field.number, item.field.value, written, rest, input);
    } else {
      ChunkFieldReads(front, item.field.number, item.field.bytes, written, rest, input);
    }
  }

  predicate FieldsAre(input: seq<Byte>, offset: nat, fields: seq<Field>) {
    FieldsFrom(input, offset) == Ok(fields)
  }

  lemma FieldThenFields(input: seq<Byte>, offset: nat, kept: seq<Field>, end: nat, others: seq<Field>)
    requires FieldIs(input, offset, kept, end) && FieldsAre(input, end, others)
    ensures FieldsAre(input, offset, kept + others)
  {
  }

  lemma {:induction false} FieldsRead(front: seq<Byte>, items: seq<Item>, input: seq<Byte>, offset: nat)
    requires (forall item | item in items :: Writable(item)) && input == front + WriteAll(items) && offset == |front|
    ensures FieldsAre(input, offset, KeptFields(items))
    decreases |items|
  {
    if items != [] {
      var next := front + Write(items[0]);
      Grouped(front, Write(items[0]), WriteAll(items[1..]));
      FieldReads(front, items[0], Write(items[0]), WriteAll(items[1..]), input, KeptField(items[0]));
      FieldsRead(next, items[1..], input, |next|);
      FieldThenFields(input, offset, KeptField(items[0]), |next|, KeptFields(items[1..]));
    }
  }

  lemma Grouped(a: seq<Byte>, b: seq<Byte>, c: seq<Byte>)
    ensures a + (b + c) == a + b + c
  {
  }

  /** The parser gives back every list of fields, without those of fixed width, and with the doubles nearest to their numbers. */
  lemma FieldsRoundTrip(items: seq<Item>)
    requires forall item | item in items :: Writable(item)
    ensures FieldsFrom(WriteAll(items), 0) == Ok(KeptFields(items))
  {
    assert [] + WriteAll(items) == WriteAll(items);
    FieldsRead([], items, WriteAll(items), 0);
  }

  function WrittenField(item: Item): seq<Field> {
    if item.Kept? then [item.field] else []
  }

  /** The fields as they were written. */
  function WrittenFields(items: seq<Item>): seq<Field> {
    if items == [] then [] else WrittenField(items[0]) + WrittenFields(items[1..])
  }

  ghost predicate ExactNumber(item: Item) {
    item.Kept? ==> IsDouble(item.field.number)
  }

  lemma KeptExactly(item: Item)
    ensures |KeptField(item)| == |WrittenField(item)| && (KeptField(item) == WrittenField(item) <==> ExactNumber(item))
  {
    if item.Kept? {
      NearestIff(item.field.number);
    }
  }

  lemma SameParts<T>(a: seq<T>, b: seq<T>, c: seq<T>, d: seq<T>)
    requires |a| == |b|
    ensures a + c == b + d <==> a == b && c == d
  {
    if a + c == b + d {
      assert a == (a + c)[..|a|] && b == (b + d)[..|b|] && c == (a + c)[|a|..] && d == (b + d)[|b|..];
    }
  }

  lemma {:induction false} KeptExactlyIff(items: seq<Item>)
    ensures KeptFields(items) == WrittenFields(items) <==> forall item | item in items :: ExactNumber(item)
  {
    if items != [] {
      KeptExactlyIff(items[1..]);
      KeptExactly(items[0]);
      SameParts(KeptField(items[0]), WrittenField(items[0]), KeptFields(items[1..]), WrittenFields(items[1..]));
      assert forall item :: item in items <==> item == items[0] || item in items[1..];
    }
  }

  /** So the fields come back as they were written exactly when their numbers are doubles; below 2^53 all are. */
  lemma FieldsReadExactlyIff(items: seq<Item>)
    requires forall item | item in items :: Writable(item)
    ensures FieldsFrom(WriteAll(items), 0) == Ok(WrittenFields(items)) <==> forall item | item in items :: ExactNumber(item)
  {
    FieldsRoundTrip(items);
    KeptExactlyIff(items);
  }

  /** No list of fields starts with byte 1: it would be a tag with field number 0. */
  lemma NeverStartsWithOne(input: seq<Byte>)
    requires |input| > 0
    ensures FieldsFrom(input, 0).Ok? ==> input[0] != 1
  {
    if input[0] == 1 {
      assert VarintAt(input, 0) == Ok((1, 1));
      assert FieldAt(input, 0) == Err(InvalidField);
    }
  }
}
