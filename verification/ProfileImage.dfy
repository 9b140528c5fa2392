/** The kind and size of a profile picture. */
module ProfileImage {
  import opened Wrappers
  import opened Bytes
  import opened ByteScan
  import opened JpegImage
  import opened WebpImage

  datatype Kind = Jpeg | Png | Webp

  datatype Metadata = Metadata(kind: Kind, size: Size)

  const PNG_START: seq<Byte> := [137, 80, 78, 71, 13, 10, 26, 10, 0, 0, 0, 13, 73, 72, 68, 82]

  function PngSize(b: seq<Byte>): Option<Size> {
    if |b| < 24 || b[0..16] != PNG_START then None else Some(Size(B32(b, 16), B32(b, 20)))
  }

  function Tagged(kind: Kind, size: Option<Size>): Option<Metadata> {
    if size.Some? then Some(Metadata(kind, size.value)) else None
  }

  function MetadataOf(b: seq<Byte>): Option<Metadata> {
    Tagged(Png, PngSize(b)).Or(Tagged(Jpeg, SizeOf(b)).Or(Tagged(Webp, WebpSize(b))))
  }

  method InspectProfileImage(b: seq<Byte>) returns (found: Option<Metadata>)
    ensures found == MetadataOf(b)
  {
    if |b| >= 24 && b[0..16] == PNG_START {
      return Some(Metadata(Png, Size(B32(b, 16), B32(b, 20))));
    }
    var jpeg, _ := InspectJpeg(b);
    if jpeg.Some? {
      return Some(Metadata(Jpeg, jpeg.value));
    }
    var webp := InspectWebp(b);
    found := Tagged(Webp, webp);
  }

  /** The three formats start differently, so each file is recognised as what it is. */
  lemma KindsAreApart(b: seq<Byte>)
    ensures SizeOf(b).Some? ==> MetadataOf(b) == Some(Metadata(Jpeg, SizeOf(b).value))
    ensures WebpSize(b).Some? ==> MetadataOf(b) == Some(Metadata(Webp, WebpSize(b).value))
    ensures PngSize(b).Some? ==> MetadataOf(b) == Some(Metadata(Png, PngSize(b).value))
  {
    if |b| >= 24 {
      assert b[0] == b[0..16][0] && b[0] == b[0..4][0];
    }
  }

  lemma BigEndianAt(b: seq<Byte>, at: nat, n: nat, rest: seq<Byte>)
    requires Stands(b, at, Be32(n) + rest) && n < 0x1_0000_0000
    ensures at + 4 <= |b| && B32(b, at) == n && Stands(b, at + 4, rest)
  {
    ReadBe32(n);
    var text := Be32(n);
    assert b[at] == b[at..][0] == text[0] && b[at + 1] == b[at..][1] == text[1];
    assert b[at + 2] == b[at..][2] == text[2] && b[at + 3] == b[at..][3] == text[3];
    Behind(b, at, Be32(n), rest);
  }

  lemma PngSizeFound(b: seq<Byte>, size: Size, rest: seq<Byte>)
    requires size.width < 0x1_0000_0000 && size.height < 0x1_0000_0000
    requires b == PNG_START + (Be32(size.width) + (Be32(size.height) + rest))
    ensures MetadataOf(b) == Some(Metadata(Png, size))
  {
    assert Stands(b, 16, Be32(size.width) + (Be32(size.height) + rest));
    BigEndianAt(b, 16, size.width, Be32(size.height) + rest);
    BigEndianAt(b, 20, size.height, rest);
    assert b[0..16] == PNG_START;
  }
}
