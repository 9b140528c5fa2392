/** Finding the size of a JPEG image (ITU-T T.81, sections B.1.1.4 and B.2.2). */
module JpegImage {
  import opened Wrappers
  import opened Bytes
  import opened ByteScan

  predicate FrameMarker(marker: Byte) {
    0xc0 <= marker <= 0xcf && marker != 0xc4 && marker != 0xc8 && marker != 0xcc
  }

  /** The end of the fill bytes that start at `offset`. */
  function FillEnd(b: seq<Byte>, offset: nat): (e: nat)
    ensures e >= offset && (offset <= |b| ==> e <= |b|)
    ensures offset < |b| && b[offset] == 0xff ==> e > offset
    decreases |b| - offset
  {
    if offset < |b| && b[offset] == 0xff then FillEnd(b, offset + 1) else offset
  }

  /** The size in the first frame header at or after `offset`. */
  function JpegFrom(b: seq<Byte>, offset: nat): Option<Size>
    decreases |b| - offset
  {
    if offset + 3 >= |b| then None
    else if b[offset] != 0xff then JpegFrom(b, offset + 1)
    else
      var end := FillEnd(b, offset);
      if end >= |b| then None
      else if b[end] == 0xd8 || b[end] == 0xd9 then JpegFrom(b, end + 1)
      else if b[end] == 0xda || end + 3 > |b| then None
      else
        var length := B16(b, end + 1);
        if length < 2 || end + 1 + length > |b| then None
        else if FrameMarker(b[end]) && length >= 7 then Some(Size(B16(b, end + 6), B16(b, end + 4)))
        else JpegFrom(b, end + 1 + length)
  }

  function SizeOf(b: seq<Byte>): Option<Size> {
    if |b| < 10 || b[0] != 0xff || b[1] != 0xd8 then None else JpegFrom(b, 2)
  }

  // ---- Reading past the end ----------------------------------------------------------------

  /** An index behind the array gives no byte, and does not fail. */
  function Read(b: seq<Byte>, i: nat): Option<Byte> {
    if i < |b| then Some(b[i]) else None
  }

  /** Where the scan goes on after `offset`, when it does. */
  function Next(b: seq<Byte>, offset: nat): (n: Option<nat>)
    ensures n.Some? ==> n.value > offset
  {
    if offset + 3 >= |b| then None
    else if b[offset] != 0xff then Some(offset + 1)
    else
      var end := FillEnd(b, offset);
      if end >= |b| then None
      else if b[end] == 0xd8 || b[end] == 0xd9 then Some(end + 1)
      else if b[end] == 0xda || end + 3 > |b| then None
      else
        var length := B16(b, end + 1);
        if length < 2 || end + 1 + length > |b| || (FrameMarker(b[end]) && length >= 7) then None else Some(end + 1 + length)
  }

  /** The scan that starts a turn at `start` starts one at `offset`. */
  predicate Reaches(b: seq<Byte>, start: nat, offset: nat)
    decreases offset - start
  {
    start == offset || (start < offset && Next(b, start).Some? && Next(b, start).value <= offset && Reaches(b, Next(b, start).value, offset))
  }

  /** From `offset`, where the scan may take a turn, there is nothing but fill bytes. */
  predicate OnlyFill(b: seq<Byte>, offset: nat) {
    offset + 3 < |b| && forall k | offset <= k < |b| :: b[k] == 0xff
  }

  ghost predicate RunsOutFrom(b: seq<Byte>, start: nat) {
    exists offset :: Reaches(b, start, offset) && OnlyFill(b, offset)
  }

  ghost predicate RunsOut(b: seq<Byte>) {
    |b| >= 10 && b[0] == 0xff && b[1] == 0xd8 && RunsOutFrom(b, 2)
  }

  lemma RunsOutHere(b: seq<Byte>, start: nat)
    requires OnlyFill(b, start)
    ensures RunsOutFrom(b, start)
  {
    assert Reaches(b, start, start);
  }

  lemma RunsOutLater(b: seq<Byte>, start: nat, next: nat)
    requires !OnlyFill(b, start) && Next(b, start) == Some(next)
    ensures RunsOutFrom(b, start) <==> RunsOutFrom(b, next)
  {
    if RunsOutFrom(b, start) {
      var offset :| Reaches(b, start, offset) && OnlyFill(b, offset);
      assert Reaches(b, next, offset);
    }
    if RunsOutFrom(b, next) {
      var offset :| Reaches(b, next, offset) && OnlyFill(b, offset);
      ReachesOnward(b, next, offset);
      assert Reaches(b, start, offset);
    }
  }

  lemma {:induction false} ReachesOnward(b: seq<Byte>, start: nat, offset: nat)
    requires Reaches(b, start, offset)
    ensures start <= offset
  {
  }

  lemma RunsOutNoMore(b: seq<Byte>, start: nat)
    requires !OnlyFill(b, start) && Next(b, start).None?
    ensures !RunsOutFrom(b, start)
  {
  }

  /** Only fill bytes up to the end of the array, and no further, make the fill end there. */
  lemma {:induction false} FillToEnd(b: seq<Byte>, offset: nat)
    requires offset <= |b|
    ensures FillEnd(b, offset) == |b| <==> forall k | offset <= k < |b| :: b[k] == 0xff
    decreases |b| - offset
  {
    if offset < |b| && b[offset] == 0xff {
      FillToEnd(b, offset + 1);
    }
  }

  /** The result, and whether some byte was read behind the end of the array. */
  method InspectJpeg(b: seq<Byte>) returns (size: Option<Size>, outside: bool)
    ensures size == SizeOf(b)
    ensures outside <==> RunsOut(b)
  {
    outside := false;
    if |b| < 10 || b[0] != 0xff || b[1] != 0xd8 {
      return None, false;
    }
    var offset := 2;
    while offset + 3 < |b|
      invariant 2 <= offset && JpegFrom(b, 2) == JpegFrom(b, offset)
      invariant !outside && (RunsOutFrom(b, 2) <==> RunsOutFrom(b, offset))
      decreases |b| - offset
    {
      ghost var start := offset;
      if b[offset] != 0xff {
        RunsOutLater(b, start, offset + 1);
        offset := offset + 1;
        continue;
      }
      while Read(b, offset) == Some(0xff)
        invariant start <= offset <= |b| && FillEnd(b, offset) == FillEnd(b, start)
        invariant offset == start ==> b[offset] == 0xff
        decreases |b| - offset
      {
        offset := offset + 1;
      }
      FillToEnd(b, start);
      var marker := Read(b, offset);
      outside := marker.None?;
      offset := offset + 1;
      if outside {
        RunsOutHere(b, start);
      } else if Next(b, start).None? {
        RunsOutNoMore(b, start);
      } else {
        RunsOutLater(b, start, Next(b, start).value);
      }
      if marker == Some(0xd8) || marker == Some(0xd9) {
        continue;
      }
      if marker == Some(0xda) {
        return None, outside;
      }
      if offset + 2 > |b| {
        return None, outside;
      }
      var segmentLength := B16(b, offset);
      if segmentLength < 2 || offset + segmentLength > |b| {
        return None, outside;
      }
      if FrameMarker(marker.value) && segmentLength >= 7 {
        return Some(Size(B16(b, offset + 5), B16(b, offset + 3))), outside;
      }
      offset := offset + segmentLength;
    }
    RunsOutNoMore(b, offset);
    size := None;
  }

  /** What ends in fill bytes behind the marker of the image is read past its end. */
  lemma TrailingFillRunsOut(n: nat)
    requires n >= 8
    ensures RunsOut([0xff, 0xd8] + Fill(n))
  {
    var b := [0xff, 0xd8] + Fill(n);
    FillToEnd(b, 2);
    RunsOutHere(b, 2);
  }

  lemma {:induction false} NoSizeFrom(b: seq<Byte>, start: nat, offset: nat)
    requires Reaches(b, start, offset) && OnlyFill(b, offset)
    ensures JpegFrom(b, start).None?
    decreases offset - start
  {
    if start == offset {
      FillToEnd(b, offset);
    } else {
      ReachesOnward(b, Next(b, start).value, offset);
      NoSizeFrom(b, Next(b, start).value, offset);
    }
  }

  /** Reading past the end never yields a size. */
  lemma RunsOutHasNoSize(b: seq<Byte>)
    requires RunsOut(b)
    ensures SizeOf(b).None?
  {
    var offset :| Reaches(b, 2, offset) && OnlyFill(b, offset);
    NoSizeFrom(b, 2, offset);
  }

  // ---- What may stand before the frame header ----------------------------------------------

  /** Fill bytes are 0xff bytes before the one that belongs to the marker. */
  datatype Piece =
    | Segment(fill: nat, marker: Byte, payload: seq<Byte>)
    | Standalone(fill: nat, marker: Byte)
    | Stray(value: Byte)

  predicate Skippable(p: Piece) {
    match p
    case Segment(_, marker, payload) =>
      marker !in {0xd8, 0xd9, 0xda, 0xff} && |payload| + 2 < 0x1_0000 && !(FrameMarker(marker) && |payload| + 2 >= 7)
    case Standalone(_, marker) => marker == 0xd8 || marker == 0xd9
    case Stray(value) => value != 0xff
  }

  function Fill(n: nat): (r: seq<Byte>)
    ensures |r| == n && forall k | 0 <= k < n :: r[k] == 0xff
  {
    seq(n, i requires 0 <= i < n => 0xff as Byte)
  }

  function Print(p: Piece): (r: seq<Byte>)
    ensures |r| > 0
  {
    match p
    case Segment(fill, marker, payload) => Fill(fill + 1) + [marker] + Be16(|payload| + 2) + payload
    case Standalone(fill, marker) => Fill(fill + 1) + [marker]
    case Stray(value) => [value]
  }

  function Texts(pieces: seq<Piece>): seq<seq<Byte>> {
    seq(|pieces|, i requires 0 <= i < |pieces| => Print(pieces[i]))
  }

  function PrintAll(pieces: seq<Piece>): seq<Byte> {
    Joined(Texts(pieces))
  }

  /** A frame header with its precision, its size and what follows in the segment. */
  function PrintFrame(fill: nat, marker: Byte, precision: Byte, size: Size, payload: seq<Byte>): seq<Byte> {
    Fill(fill + 1) + [marker] + Be16(|payload| + 7) + ([precision] + Be16(size.height) + Be16(size.width) + payload)
  }

  // ---- Walking over pieces --------------------------------------------------------------------

  lemma {:induction false} FillEnds(b: seq<Byte>, offset: nat, n: nat)
    requires offset + n < |b| && b[offset + n] != 0xff && forall k | offset <= k < offset + n :: b[k] == 0xff
    ensures FillEnd(b, offset) == offset + n
    decreases n
  {
    if n > 0 {
      FillEnds(b, offset + 1, n - 1);
    }
  }

  /** A marker behind its fill bytes, with the length and the bytes of its segment. */
  predicate MarkerAt(b: seq<Byte>, offset: nat, fill: nat, marker: Byte) {
    && offset + fill + 1 < |b| && b[offset + fill + 1] == marker && marker != 0xff
    && forall k | offset <= k <= offset + fill :: b[k] == 0xff
  }

  lemma MarkerFound(b: seq<Byte>, offset: nat, fill: nat, marker: Byte, rest: seq<Byte>)
    requires Stands(b, offset, Fill(fill + 1) + [marker] + rest) && marker != 0xff
    ensures MarkerAt(b, offset, fill, marker) && Stands(b, offset + fill + 2, rest)
  {
    var text := Fill(fill + 1) + [marker] + rest;
    Behind(b, offset, Fill(fill + 1) + [marker], rest);
    forall k | offset <= k < offset + |text|
      ensures b[k] == text[k - offset]
    {
      assert b[k] == b[offset..][k - offset];
    }
  }

  lemma LengthFound(b: seq<Byte>, at: nat, n: nat, rest: seq<Byte>)
    requires Stands(b, at, Be16(n) + rest) && n < 0x1_0000
    ensures at + 2 <= |b| && B16(b, at) == n && Stands(b, at + 2, rest)
  {
    ReadBe16(n);
    assert b[at] == b[at..][0] && b[at + 1] == b[at..][1];
    Behind(b, at, Be16(n), rest);
  }

  lemma StandaloneSkipped(b: seq<Byte>, offset: nat, fill: nat, marker: Byte)
    requires MarkerAt(b, offset, fill, marker) && (marker == 0xd8 || marker == 0xd9) && offset + 3 < |b|
    ensures JpegFrom(b, offset) == JpegFrom(b, offset + fill + 2)
  {
    FillEnds(b, offset, fill + 1);
  }

  lemma SegmentSkipped(b: seq<Byte>, offset: nat, fill: nat, marker: Byte, length: nat)
    requires MarkerAt(b, offset, fill, marker) && marker !in {0xd8, 0xd9, 0xda} && offset + 3 < |b|
    requires offset + fill + 4 <= |b| && B16(b, offset + fill + 2) == length && 2 <= length && offset + fill + 2 + length <= |b|
    requires !(FrameMarker(marker) && length >= 7)
    ensures JpegFrom(b, offset) == JpegFrom(b, offset + fill + 2 + length)
  {
    FillEnds(b, offset, fill + 1);
  }

  lemma StraySkipped(b: seq<Byte>, offset: nat, value: Byte, rest: seq<Byte>)
    requires value != 0xff && |rest| >= 4 && Stands(b, offset, [value] + rest)
    ensures JpegFrom(b, offset) == JpegFrom(b, offset + 1)
  {
    assert b[offset] == b[offset..][0];
  }

  lemma StandalonePrinted(b: seq<Byte>, offset: nat, fill: nat, marker: Byte, rest: seq<Byte>)
    requires (marker == 0xd8 || marker == 0xd9) && |rest| >= 4 && Stands(b, offset, Fill(fill + 1) + [marker] + rest)
    ensures JpegFrom(b, offset) == JpegFrom(b, offset + fill + 2)
  {
    MarkerFound(b, offset, fill, marker, rest);
    StandaloneSkipped(b, offset, fill, marker);
  }

  lemma SegmentPrinted(b: seq<Byte>, offset: nat, fill: nat, marker: Byte, length: nat, following: seq<Byte>)
    requires marker !in {0xd8, 0xd9, 0xda, 0xff} && 2 <= length < 0x1_0000 && !(FrameMarker(marker) && length >= 7)
    requires Stands(b, offset, Fill(fill + 1) + [marker] + (Be16(length) + following)) && |following| >= length + 2
    ensures JpegFrom(b, offset) == JpegFrom(b, offset + fill + 2 + length)
  {
    MarkerFound(b, offset, fill, marker, Be16(length) + following);
    LengthFound(b, offset + fill + 2, length, following);
    SegmentSkipped(b, offset, fill, marker, length);
  }

  lemma SegmentText(fill: nat, marker: Byte, payload: seq<Byte>, rest: seq<Byte>)
    ensures Print(Segment(fill, marker, payload)) + rest == Fill(fill + 1) + [marker] + (Be16(|payload| + 2) + (payload + rest))
  {
  }

  lemma PieceSkips(p: Piece, printed: seq<Byte>)
    requires Skippable(p) && printed == Print(p)
    ensures Skips(JpegFrom, 4, printed)
  {
    forall b: seq<Byte>, offset: nat, rest: seq<Byte> | |rest| >= 4 && Stands(b, offset, printed + rest)
      ensures SameFrom(JpegFrom, b, offset, offset + |printed|)
    {
      PieceSkipped(b, offset, p, printed, rest);
    }
  }

  lemma PieceSkipped(b: seq<Byte>, offset: nat, p: Piece, printed: seq<Byte>, rest: seq<Byte>)
    requires Skippable(p) && |rest| >= 4 && printed == Print(p) && Stands(b, offset, printed + rest)
    ensures SameFrom(JpegFrom, b, offset, offset + |printed|)
  {
    if p.Stray? {
      StraySkipped(b, offset, p.value, rest);
    } else if p.Standalone? {
      StandalonePrinted(b, offset, p.fill, p.marker, rest);
    } else {
      SegmentText(p.fill, p.marker, p.payload, rest);
      SegmentPrinted(b, offset, p.fill, p.marker, |p.payload| + 2, p.payload + rest);
    }
  }

  lemma PiecesSkip(pieces: seq<Piece>)
    requires forall p | p in pieces :: Skippable(p)
    ensures forall text | text in Texts(pieces) :: Skips(JpegFrom, 4, text)
  {
    forall text | text in Texts(pieces)
      ensures Skips(JpegFrom, 4, text)
    {
      var i :| 0 <= i < |pieces| && text == Print(pieces[i]);
      PieceSkips(pieces[i], text);
    }
  }

  lemma FrameFound(b: seq<Byte>, offset: nat, fill: nat, marker: Byte, length: nat)
    requires MarkerAt(b, offset, fill, marker) && FrameMarker(marker) && offset + 3 < |b|
    requires offset + fill + 4 <= |b| && B16(b, offset + fill + 2) == length && 7 <= length && offset + fill + 2 + length <= |b|
    ensures JpegFrom(b, offset) == Some(Size(B16(b, offset + fill + 7), B16(b, offset + fill + 5)))
  {
    FillEnds(b, offset, fill + 1);
  }

  lemma FrameSizes(b: seq<Byte>, at: nat, precision: Byte, size: Size, rest: seq<Byte>)
    requires size.width < 0x1_0000 && size.height < 0x1_0000
    requires Stands(b, at, [precision] + (Be16(size.height) + (Be16(size.width) + rest)))
    ensures at + 5 <= |b| && B16(b, at + 1) == size.height && B16(b, at + 3) == size.width
  {
    Behind(b, at, [precision], Be16(size.height) + (Be16(size.width) + rest));
    LengthFound(b, at + 1, size.height, Be16(size.width) + rest);
    LengthFound(b, at + 3, size.width, rest);
  }

  lemma FrameText(fill: nat, marker: Byte, precision: Byte, size: Size, payload: seq<Byte>, rest: seq<Byte>)
    ensures PrintFrame(fill, marker, precision, size, payload) + rest
         == Fill(fill + 1) + [marker] + (Be16(|payload| + 7) + ([precision] + (Be16(size.height) + (Be16(size.width) + (payload + rest)))))
  {
  }

  lemma FrameRead(b: seq<Byte>, offset: nat, fill: nat, marker: Byte, precision: Byte, size: Size, length: nat, rest: seq<Byte>)
    requires FrameMarker(marker) && size.width < 0x1_0000 && size.height < 0x1_0000 && 7 <= length < 0x1_0000 && |rest| >= length - 7
    requires Stands(b, offset, Fill(fill + 1) + [marker] + (Be16(length) + ([precision] + (Be16(size.height) + (Be16(size.width) + rest)))))
    ensures JpegFrom(b, offset) == Some(size)
  {
    var sizes := [precision] + (Be16(size.height) + (Be16(size.width) + rest));
    MarkerFound(b, offset, fill, marker, Be16(length) + sizes);
    LengthFound(b, offset + fill + 2, length, sizes);
    FrameSizes(b, offset + fill + 4, precision, size, rest);
    FrameFound(b, offset, fill, marker, length);
  }

  lemma FrameBehind(b: seq<Byte>, offset: nat, fill: nat, marker: Byte, precision: Byte, size: Size, length: nat, rest: seq<Byte>, frame: seq<Byte>)
    requires FrameMarker(marker) && size.width < 0x1_0000 && size.height < 0x1_0000 && 7 <= length < 0x1_0000 && |rest| >= length - 7
    requires frame == Fill(fill + 1) + [marker] + (Be16(length) + ([precision] + (Be16(size.height) + (Be16(size.width) + rest))))
    requires Stands(b, offset, frame)
    ensures JpegFrom(b, offset) == Some(size)
  {
    FrameRead(b, offset, fill, marker, precision, size, length, rest);
  }

  /** Whatever skippable pieces stand in front, the size is that of the first frame header. */
  lemma SizeFound(pieces: seq<Piece>, fill: nat, marker: Byte, precision: Byte, size: Size, payload: seq<Byte>, rest: seq<Byte>)
    requires forall p | p in pieces :: Skippable(p)
    requires FrameMarker(marker) && size.width < 0x1_0000 && size.height < 0x1_0000 && |payload| + 7 < 0x1_0000
    ensures SizeOf([0xff, 0xd8] + (PrintAll(pieces) + (PrintFrame(fill, marker, precision, size, payload) + rest))) == Some(size)
  {
    var frame := PrintFrame(fill, marker, precision, size, payload) + rest;
    FrameText(fill, marker, precision, size, payload, rest);
    SizeFoundIn([0xff, 0xd8] + (PrintAll(pieces) + frame), pieces, frame, fill, marker, precision, size, |payload| + 7, payload + rest);
  }

  lemma SizeFoundIn(b: seq<Byte>, pieces: seq<Piece>, frame: seq<Byte>, fill: nat, marker: Byte, precision: Byte, size: Size, length: nat, rest: seq<Byte>)
    requires (forall p | p in pieces :: Skippable(p)) && b == [0xff, 0xd8] + (PrintAll(pieces) + frame)
    requires FrameMarker(marker) && size.width < 0x1_0000 && size.height < 0x1_0000 && 7 <= length < 0x1_0000 && |rest| >= length - 7
    requires frame == Fill(fill + 1) + [marker] + (Be16(length) + ([precision] + (Be16(size.height) + (Be16(size.width) + rest))))
    ensures SizeOf(b) == Some(size)
  {
    assert Stands(b, 2, PrintAll(pieces) + frame);
    PiecesSkip(pieces);
    AllSkip(JpegFrom, 4, b, 2, Texts(pieces), frame);
    FrameBehind(b, 2 + |PrintAll(pieces)|, fill, marker, precision, size, length, rest, frame);
  }
}
