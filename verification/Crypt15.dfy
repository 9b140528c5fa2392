/** The header of an encrypted backup: a length, perhaps a flag, and a list of fields. */
module Crypt15 {
  import opened Wrappers
  import opened Bytes
  import opened Protobuf

  datatype Header = Header(iv: seq<Byte>, dataOffset: nat)

  datatype HeaderError = TooShort | IncompleteHeader | BadFields(error: ParseError) | Unrecognised | InvalidIv

  const IV_BYTES: nat := 16

  /** The first field with this number that holds bytes. */
  function FirstChunk(fields: seq<Field>, number: nat): Option<seq<Byte>> {
    if fields == [] then None
    else if fields[0].Chunk? && fields[0].number == number then Some(fields[0].bytes)
    else FirstChunk(fields[1..], number)
  }

  /** The initialisation vector inside the list of fields. */
  function IvOf(list: seq<Byte>): Result<seq<Byte>, HeaderError> {
    match FieldsFrom(list, 0)
    case Err(e) => Err(BadFields(e))
    case Ok(fields) =>
      match FirstChunk(fields, 3)
      case None => Err(Unrecognised)
      case Some(inner) =>
        match FieldsFrom(inner, 0)
        case Err(e) => Err(BadFields(e))
        case Ok(innerFields) =>
          match FirstChunk(innerFields, 1)
          case None => Err(InvalidIv)
          case Some(iv) => if |iv| == IV_BYTES then Ok(iv) else Err(InvalidIv)
  }

  function HeaderOf(input: seq<Byte>): Result<Header, HeaderError> {
    if |input| < 4 then Err(TooShort)
    else
      var length := input[0];
      var start := if input[1] == 1 then 2 else 1;
      if length < 1 || start + length > |input| then Err(IncompleteHeader)
      else
        var iv :- IvOf(input[start..start + length]);
        Ok(Header(iv, start + length))
  }

  method ParseCrypt15Header(input: seq<Byte>) returns (parsed: Result<Header, HeaderError>)
    ensures parsed == HeaderOf(input)
  {
    if |input| < 4 {
      return Err(TooShort);
    }
    var protobufLength := input[0];
    var featureFlagBytes := if input[1] == 1 then 1 else 0;
    var protobufStart := 1 + featureFlagBytes;
    var protobufEnd := protobufStart + protobufLength;
    if protobufLength < 1 || protobufEnd > |input| {
      return Err(IncompleteHeader);
    }
    var prefixFields := ProtobufFields(input[protobufStart..protobufEnd]);
    if prefixFields.Err? {
      return Err(BadFields(prefixFields.error));
    }
    var c15 := FirstChunk(prefixFields.value, 3);
    if c15.None? {
      return Err(Unrecognised);
    }
    var ivFields := ProtobufFields(c15.value);
    if ivFields.Err? {
      return Err(BadFields(ivFields.error));
    }
    var iv := FirstChunk(ivFields.value, 1);
    if iv.None? || |iv.value| != IV_BYTES {
      return Err(InvalidIv);
    }
    parsed := Ok(Header(iv.value, protobufEnd));
  }

  // ---- Headers with and without the flag --------------------------------------------------

  function WriteHeader(flag: bool, list: seq<Byte>): seq<Byte>
    requires |list| < 0x100
  {
    [|list|] + (if flag then [1] else []) + list
  }

  lemma {:induction false} ChunkIsInside(items: seq<Item>, number: nat)
    requires FirstChunk(KeptFields(items), number).Some?
    ensures |FirstChunk(KeptFields(items), number).value| <= |WriteAll(items)|
  {
    if items != [] {
      if items[0].Kept? {
        assert KeptFields(items)[1..] == KeptFields(items[1..]);
        if !(items[0].field.Chunk? && KeptField(items[0])[0].number == number) {
          ChunkIsInside(items[1..], number);
        }
      } else {
        assert KeptFields(items) == KeptFields(items[1..]);
        ChunkIsInside(items[1..], number);
      }
    }
  }

  /** A list of fields is found again behind its length, with the flag or without it. */
  lemma ListFound(flag: bool, list: seq<Byte>, data: seq<Byte>)
    requires 1 <= |list| < 0x100 && FieldsFrom(list, 0).Ok? && |WriteHeader(flag, list) + data| >= 4
    ensures HeaderOf(WriteHeader(flag, list) + data)
         == match IvOf(list)
            case Err(e) => Err(e)
            case Ok(iv) => Ok(Header(iv, |WriteHeader(flag, list)|))
  {
    NeverStartsWithOne(list);
    var input := WriteHeader(flag, list) + data;
    var start := if flag then 2 else 1;
    assert input[1] == if flag then 1 else list[0];
    assert input[start..start + |list|] == list;
  }

  /** The vector and the start of the data are recovered from every header that is written. */
  lemma HeaderRoundTrip(flag: bool, items: seq<Item>, inner: seq<Item>, iv: seq<Byte>, data: seq<Byte>)
    requires forall item | item in items + inner :: Writable(item)
    requires FirstChunk(KeptFields(items), 3) == Some(WriteAll(inner)) && |WriteAll(items)| < 0x100
    requires FirstChunk(KeptFields(inner), 1) == Some(iv) && |iv| == IV_BYTES
    ensures HeaderOf(WriteHeader(flag, WriteAll(items)) + data) == Ok(Header(iv, |WriteHeader(flag, WriteAll(items))|))
  {
    FieldsRoundTrip(items);
    FieldsRoundTrip(inner);
    ChunkIsInside(items, 3);
    ChunkIsInside(inner, 1);
    ListFound(flag, WriteAll(items), data);
  }
}
