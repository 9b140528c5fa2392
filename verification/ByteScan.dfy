/** Scanning bytes for something behind any number of parts that are passed over. */
module ByteScan {
  import opened Wrappers
  import opened Bytes

  /** Width and height of an image. */
  datatype Size = Size(width: nat, height: nat)

  /** What is found when looking from an offset on. */
  type Look = (seq<Byte>, nat) -> Option<Size>

  /** What stands at `offset`, up to the end. */
  predicate Stands(b: seq<Byte>, offset: nat, text: seq<Byte>) {
    offset <= |b| && b[offset..] == text
  }

  lemma Behind(b: seq<Byte>, offset: nat, first: seq<Byte>, rest: seq<Byte>)
    requires Stands(b, offset, first + rest)
    ensures Stands(b, offset + |first|, rest)
  {
    assert b[offset + |first|..] == b[offset..][|first|..];
  }

  lemma FrontOf(b: seq<Byte>, offset: nat, first: seq<Byte>, rest: seq<Byte>)
    requires Stands(b, offset, first + rest)
    ensures offset + |first| <= |b| && b[offset..offset + |first|] == first
  {
    assert b[offset..offset + |first|] == b[offset..][..|first|];
  }

  lemma Grouped(a: seq<Byte>, b: seq<Byte>, c: seq<Byte>)
    ensures a + b + c == a + (b + c)
  {
  }

  /** Looking from either offset finds the same. */
  predicate SameFrom(look: Look, b: seq<Byte>, offset: nat, other: nat) {
    look(b, offset) == look(b, other)
  }

  /** The text is passed over wherever it stands, when at least `least` bytes follow. */
  ghost predicate Skips(look: Look, least: nat, text: seq<Byte>) {
    forall b: seq<Byte>, offset: nat, rest: seq<Byte> | |rest| >= least && Stands(b, offset, text + rest) ::
      SameFrom(look, b, offset, offset + |text|)
  }

  function Joined(texts: seq<seq<Byte>>): seq<Byte> {
    if texts == [] then [] else texts[0] + Joined(texts[1..])
  }

  /** Any number of such texts is passed over. */
  lemma {:induction false} AllSkip(look: Look, least: nat, b: seq<Byte>, offset: nat, texts: seq<seq<Byte>>, rest: seq<Byte>)
    requires forall text | text in texts :: Skips(look, least, text)
    requires |rest| >= least && Stands(b, offset, Joined(texts) + rest)
    ensures SameFrom(look, b, offset, offset + |Joined(texts)|) && Stands(b, offset + |Joined(texts)|, rest)
    decreases |texts|
  {
    Behind(b, offset, Joined(texts), rest);
    if texts != [] {
      var following := Joined(texts[1..]) + rest;
      Grouped(texts[0], Joined(texts[1..]), rest);
      assert Skips(look, least, texts[0]);
      Behind(b, offset, texts[0], following);
      AllSkip(look, least, b, offset + |texts[0]|, texts[1..], rest);
    }
  }
}
