/** Finding the size of a WebP image (RFC 9649, sections 2.3 to 2.7). */
module WebpImage {
  import opened Wrappers
  import opened Bytes
  import opened ByteScan

  /** The four characters of a name, by their codes. */
  predicate Named(name: seq<Byte>, a: Byte, b: Byte, c: Byte, d: Byte) {
    |name| == 4 && name[0] == a && name[1] == b && name[2] == c && name[3] == d
  }

  predicate Riff(name: seq<Byte>) {
    Named(name, 82, 73, 70, 70)
  }

  predicate Webp(name: seq<Byte>) {
    Named(name, 87, 69, 66, 80)
  }

  predicate Extended(kind: seq<Byte>) {
    Named(kind, 86, 80, 56, 88)
  }

  predicate Lossy(kind: seq<Byte>) {
    Named(kind, 86, 80, 56, 32)
  }

  predicate Lossless(kind: seq<Byte>) {
    Named(kind, 86, 80, 56, 76)
  }

  function U24(b: seq<Byte>, i: nat): nat
    requires i + 3 <= |b|
  {
    (b[i] as int) + 0x100 * (b[i + 1] as int) + 0x1_0000 * (b[i + 2] as int)
  }

  /** The size that the data of a chunk of this kind gives, if it is an image chunk. */
  function ImageOf(kind: seq<Byte>, data: seq<Byte>): Option<Size> {
    if Extended(kind) && |data| >= 10 then Some(Size(1 + U24(data, 4), 1 + U24(data, 7)))
    else if Lossy(kind) && |data| >= 10 && data[3] == 0x9d && data[4] == 0x01 && data[5] == 0x2a then
      Some(Size(U16(data, 6) % 0x4000, U16(data, 8) % 0x4000))
    else if Lossless(kind) && |data| >= 5 && data[0] == 0x2f then
      Some(Size(U32(data, 1) % 0x4000 + 1, U32(data, 1) / 0x4000 % 0x4000 + 1))
    else None
  }

  /** Where a chunk with this length ends, padded to an even offset from its start. */
  function Next(offset: nat, length: nat): nat {
    offset + 8 + length + length % 2
  }

  function ChunkImage(b: seq<Byte>, offset: nat, length: nat): Option<Size>
    requires offset + 8 + length <= |b|
  {
    ImageOf(b[offset..offset + 4], b[offset + 8..offset + 8 + length])
  }

  /** The size in the first image chunk at or after `offset`. */
  function WebpFrom(b: seq<Byte>, offset: nat): Option<Size>
    decreases |b| - offset
  {
    if offset + 8 > |b| then None
    else if offset + 8 + U32(b, offset + 4) > |b| then None
    else if ChunkImage(b, offset, U32(b, offset + 4)).Some? then ChunkImage(b, offset, U32(b, offset + 4))
    else WebpFrom(b, Next(offset, U32(b, offset + 4)))
  }

  function WebpSize(b: seq<Byte>): Option<Size> {
    if |b| < 30 || !Riff(b[0..4]) || !Webp(b[8..12]) then None else WebpFrom(b, 12)
  }

  method InspectWebp(b: seq<Byte>) returns (size: Option<Size>)
    ensures size == WebpSize(b)
  {
    if |b| < 30 || !Riff(b[0..4]) || !Webp(b[8..12]) {
      return None;
    }
    size := InspectChunks(b, 12);
  }

  method InspectChunks(b: seq<Byte>, start: nat) returns (size: Option<Size>)
    ensures size == WebpFrom(b, start)
  {
    var offset := start;
    while offset + 8 <= |b|
      invariant WebpFrom(b, start) == WebpFrom(b, offset)
      decreases |b| - offset
    {
      var chunkLength := U32(b, offset + 4);
      var dataOffset := offset + 8;
      if dataOffset + chunkLength > |b| {
        return None;
      }
      size := InspectChunk(b, b[offset..offset + 4], dataOffset, chunkLength);
      var next := dataOffset + chunkLength + chunkLength % 2;
      ChunkStep(b, offset, chunkLength, size, next);
      if size.Some? {
        return;
      }
      offset := next;
    }
    size := None;
  }

  lemma ChunkStep(b: seq<Byte>, offset: nat, length: nat, image: Option<Size>, next: nat)
    requires offset + 8 <= |b| && U32(b, offset + 4) == length && offset + 8 + length <= |b|
    requires image == ChunkImage(b, offset, length) && next == Next(offset, length)
    ensures WebpFrom(b, offset) == if image.Some? then image else WebpFrom(b, next)
  {
  }

  method InspectChunk(b: seq<Byte>, chunkType: seq<Byte>, dataOffset: nat, chunkLength: nat) returns (size: Option<Size>)
    requires dataOffset + chunkLength <= |b|
    ensures size == ImageOf(chunkType, b[dataOffset..dataOffset + chunkLength])
  {
    ghost var data := b[dataOffset..dataOffset + chunkLength];
    if Extended(chunkType) && chunkLength >= 10 {
      assert U24(b, dataOffset + 4) == U24(data, 4) && U24(b, dataOffset + 7) == U24(data, 7);
      return Some(Size(1 + U24(b, dataOffset + 4), 1 + U24(b, dataOffset + 7)));
    }
    if Lossy(chunkType) && chunkLength >= 10
       && b[dataOffset + 3] == 0x9d && b[dataOffset + 4] == 0x01 && b[dataOffset + 5] == 0x2a
    {
      assert U16(b, dataOffset + 6) == U16(data, 6) && U16(b, dataOffset + 8) == U16(data, 8);
      return Some(Size(U16(b, dataOffset + 6) % 0x4000, U16(b, dataOffset + 8) % 0x4000));
    }
    if Lossless(chunkType) && chunkLength >= 5 && b[dataOffset] == 0x2f {
      var bits := U32(b, dataOffset + 1);
      assert bits == U32(data, 1);
      return Some(Size(bits % 0x4000 + 1, bits / 0x4000 % 0x4000 + 1));
    }
    size := None;
  }

  // ---- Chunks in front of the image ---------------------------------------------------

  /** A chunk whose data is padded to an even length. */
  datatype Chunk = Chunk(kind: seq<Byte>, data: seq<Byte>, pad: Byte)

  predicate WellFormed(c: Chunk) {
    |c.kind| == 4 && |c.data| < 0x1_0000_0000
  }

  function PrintChunk(c: Chunk): seq<Byte> {
    c.kind + Le32(|c.data|) + c.data + (if |c.data| % 2 == 1 then [c.pad] else [])
  }

  function ChunkTexts(chunks: seq<Chunk>): seq<seq<Byte>> {
    seq(|chunks|, i requires 0 <= i < |chunks| => PrintChunk(chunks[i]))
  }

  function PrintChunks(chunks: seq<Chunk>): seq<Byte> {
    Joined(ChunkTexts(chunks))
  }

  lemma ChunkText(c: Chunk, pad: seq<Byte>, rest: seq<Byte>)
    ensures c.kind + Le32(|c.data|) + c.data + pad + rest == c.kind + (Le32(|c.data|) + (c.data + (pad + rest)))
  {
  }

  /** The kind, the length and the data of a chunk, where it stands. */
  lemma ChunkFound(b: seq<Byte>, offset: nat, kind: seq<Byte>, data: seq<Byte>, rest: seq<Byte>)
    requires |kind| == 4 && |data| < 0x1_0000_0000 && Stands(b, offset, kind + (Le32(|data|) + (data + rest)))
    ensures offset + 8 + |data| <= |b| && b[offset..offset + 4] == kind && U32(b, offset + 4) == |data|
    ensures b[offset + 8..offset + 8 + |data|] == data && Stands(b, offset + 8 + |data|, rest)
  {
    FrontOf(b, offset, kind, Le32(|data|) + (data + rest));
    Behind(b, offset, kind, Le32(|data|) + (data + rest));
    FrontOf(b, offset + 4, Le32(|data|), data + rest);
    Behind(b, offset + 4, Le32(|data|), data + rest);
    FrontOf(b, offset + 8, data, rest);
    Behind(b, offset + 8, data, rest);
    LengthRead(b, offset + 4, |data|);
  }

  lemma LengthRead(b: seq<Byte>, at: nat, n: nat)
    requires at + 4 <= |b| && b[at..at + 4] == Le32(n) && n < 0x1_0000_0000
    ensures U32(b, at) == n
  {
    ReadLe32(n);
    var r := b[at..at + 4];
    assert b[at] == r[0] && b[at + 1] == r[1] && b[at + 2] == r[2] && b[at + 3] == r[3];
  }

  lemma NoImageAt(b: seq<Byte>, offset: nat, kind: seq<Byte>, data: seq<Byte>, rest: seq<Byte>, next: nat)
    requires |kind| == 4 && |data| < 0x1_0000_0000 && Stands(b, offset, kind + (Le32(|data|) + (data + rest)))
    requires ImageOf(kind, data).None? && next == offset + 8 + |data| + |data| % 2
    ensures WebpFrom(b, offset) == WebpFrom(b, next)
  {
    ChunkFound(b, offset, kind, data, rest);
    ChunkStep(b, offset, |data|, None, next);
  }

  lemma ChunkSkipped(b: seq<Byte>, offset: nat, c: Chunk, pad: seq<Byte>, printed: seq<Byte>, rest: seq<Byte>, next: nat)
    requires WellFormed(c) && ImageOf(c.kind, c.data).None? && |pad| == |c.data| % 2
    requires printed == c.kind + Le32(|c.data|) + c.data + pad && Stands(b, offset, printed + rest) && next == offset + |printed|
    ensures SameFrom(WebpFrom, b, offset, next)
  {
    ChunkText(c, pad, rest);
    NoImageAt(b, offset, c.kind, c.data, pad + rest, next);
  }

  lemma ChunkSkips(c: Chunk, pad: seq<Byte>, printed: seq<Byte>)
    requires WellFormed(c) && ImageOf(c.kind, c.data).None? && |pad| == |c.data| % 2
    requires printed == c.kind + Le32(|c.data|) + c.data + pad
    ensures Skips(WebpFrom, 0, printed)
  {
    forall b: seq<Byte>, offset: nat, rest: seq<Byte> | |rest| >= 0 && Stands(b, offset, printed + rest)
      ensures SameFrom(WebpFrom, b, offset, offset + |printed|)
    {
      ChunkSkipped(b, offset, c, pad, printed, rest, offset + |printed|);
    }
  }

  lemma ChunksSkip(chunks: seq<Chunk>)
    requires forall c | c in chunks :: WellFormed(c) && ImageOf(c.kind, c.data).None?
    ensures forall text | text in ChunkTexts(chunks) :: Skips(WebpFrom, 0, text)
  {
    forall text | text in ChunkTexts(chunks)
      ensures Skips(WebpFrom, 0, text)
    {
      var i :| 0 <= i < |chunks| && text == PrintChunk(chunks[i]);
      ChunkSkips(chunks[i], if |chunks[i].data| % 2 == 1 then [chunks[i].pad] else [], text);
    }
  }

  lemma ImageRead(b: seq<Byte>, offset: nat, c: Chunk, rest: seq<Byte>)
    requires WellFormed(c) && ImageOf(c.kind, c.data).Some? && Stands(b, offset, PrintChunk(c) + rest)
    ensures WebpFrom(b, offset) == ImageOf(c.kind, c.data)
  {
    var pad := if |c.data| % 2 == 1 then [c.pad] else [];
    ChunkText(c, pad, rest);
    ChunkFound(b, offset, c.kind, c.data, pad + rest);
  }

  /** Whatever chunks stand in front, the size is that of the first image chunk; files under 30 bytes are refused. */
  lemma WebpSizeFound(b: seq<Byte>, riff: seq<Byte>, fileSize: seq<Byte>, webp: seq<Byte>, chunks: seq<Chunk>, image: Chunk, rest: seq<Byte>)
    requires Riff(riff) && |fileSize| == 4 && Webp(webp) && WellFormed(image) && ImageOf(image.kind, image.data).Some?
    requires forall c | c in chunks :: WellFormed(c) && ImageOf(c.kind, c.data).None?
    requires b == riff + fileSize + webp + (PrintChunks(chunks) + (PrintChunk(image) + rest))
    ensures WebpSize(b) == if |b| < 30 then None else ImageOf(image.kind, image.data)
  {
    var following := PrintChunk(image) + rest;
    assert b[0..4] == riff && b[8..12] == webp;
    assert Stands(b, 12, PrintChunks(chunks) + following);
    ChunksSkip(chunks);
    AllSkip(WebpFrom, 0, b, 12, ChunkTexts(chunks), following);
    ImageRead(b, 12 + |PrintChunks(chunks)|, image, rest);
  }

  // ---- What image chunks say -----------------------------------------------------------------

  function Le24(n: nat): (r: seq<Byte>)
    ensures |r| == 3
  {
    [n % 0x100, n / 0x100 % 0x100, n / 0x1_0000 % 0x100]
  }

  lemma ReadLe24(n: nat)
    requires n < 0x100_0000
    ensures U24(Le24(n), 0) == n
  {
  }

  lemma ExtendedSays(kind: seq<Byte>, flags: seq<Byte>, size: Size, more: seq<Byte>)
    requires Extended(kind) && |flags| == 4 && 1 <= size.width <= 0x100_0000 && 1 <= size.height <= 0x100_0000
    ensures ImageOf(kind, flags + Le24(size.width - 1) + Le24(size.height - 1) + more) == Some(size)
  {
    var w, h := Le24(size.width - 1), Le24(size.height - 1);
    var data := flags + w + h + more;
    ReadLe24(size.width - 1);
    ReadLe24(size.height - 1);
    assert data[4] == w[0] && data[5] == w[1] && data[6] == w[2];
    assert data[7] == h[0] && data[8] == h[1] && data[9] == h[2];
  }

  /** The upper two bits of each number are a scale that is ignored. */
  lemma LossySays(kind: seq<Byte>, tag: seq<Byte>, size: Size, widthScale: nat, heightScale: nat, more: seq<Byte>)
    requires Lossy(kind) && |tag| == 3 && size.width < 0x4000 && size.height < 0x4000 && widthScale < 4 && heightScale < 4
    ensures ImageOf(kind, tag + [0x9d, 0x01, 0x2a] + Le16(size.width + 0x4000 * widthScale) + Le16(size.height + 0x4000 * heightScale) + more) == Some(size)
  {
    var w, h := Le16(size.width + 0x4000 * widthScale), Le16(size.height + 0x4000 * heightScale);
    var data := tag + [0x9d, 0x01, 0x2a] + w + h + more;
    ReadLe16(size.width + 0x4000 * widthScale);
    ReadLe16(size.height + 0x4000 * heightScale);
    assert data[3] == 0x9d && data[4] == 0x01 && data[5] == 0x2a;
    assert data[6] == w[0] && data[7] == w[1] && data[8] == h[0] && data[9] == h[1];
  }

  lemma BitFields(low: nat, middle: nat, high: nat)
    requires low < 0x4000 && middle < 0x4000
    ensures var bits := low + 0x4000 * middle + 0x1000_0000 * high; bits % 0x4000 == low && bits / 0x4000 % 0x4000 == middle
  {
    var bits := low + 0x4000 * middle + 0x1000_0000 * high;
    assert bits / 0x4000 == middle + 0x4000 * high;
  }

  lemma LosslessSays(kind: seq<Byte>, size: Size, extra: nat, more: seq<Byte>)
    requires Lossless(kind) && 1 <= size.width <= 0x4000 && 1 <= size.height <= 0x4000 && extra < 0x10
    ensures ImageOf(kind, [0x2f] + Le32((size.width - 1) + 0x4000 * (size.height - 1) + 0x1000_0000 * extra) + more) == Some(size)
  {
    var bits := (size.width - 1) + 0x4000 * (size.height - 1) + 0x1000_0000 * extra;
    BitFields(size.width - 1, size.height - 1, extra);
    BitsRead(bits, Le32(bits), more);
  }

  lemma BitsRead(bits: nat, encoded: seq<Byte>, more: seq<Byte>)
    requires bits < 0x1_0000_0000 && encoded == Le32(bits)
    ensures U32([0x2f] + encoded + more, 1) == bits
  {
    var data := [0x2f] + encoded + more;
    assert data[1..5] == encoded;
    LengthRead(data, 1, bits);
  }
}
