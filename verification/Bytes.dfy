/** Bytes and little-endian numbers in byte sequences. */
module Bytes {

  type Byte = b: int | 0 <= b < 256

  function U16(b: seq<Byte>, i: nat): (r: nat)
    requires i + 2 <= |b|
    ensures r < 0x1_0000
  {
    (b[i] as int) + 0x100 * (b[i + 1] as int)
  }

  function U32(b: seq<Byte>, i: nat): (r: nat)
    requires i + 4 <= |b|
    ensures r < 0x1_0000_0000
  {
    (b[i] as int) + 0x100 * (b[i + 1] as int) + 0x1_0000 * (b[i + 2] as int) + 0x100_0000 * (b[i + 3] as int)
  }

  function Le16(n: nat): (r: seq<Byte>)
    ensures |r| == 2
  {
    [n % 0x100, (n / 0x100) % 0x100]
  }

  function Le32(n: nat): (r: seq<Byte>)
    ensures |r| == 4
  {
    [n % 0x100, (n / 0x100) % 0x100, (n / 0x1_0000) % 0x100, (n / 0x100_0000) % 0x100]
  }

  lemma ReadLe16(n: nat)
    requires n < 0x1_0000
    ensures U16(Le16(n), 0) == n
  {
  }

  lemma ReadLe32(n: nat)
    requires n < 0x1_0000_0000
    ensures U32(Le32(n), 0) == n
  {
    var a, b, c := n / 0x100, n / 0x1_0000, n / 0x100_0000;
    assert b == a / 0x100 && c == b / 0x100;
  }

  // ---- Big-endian numbers -----------------------------------------------------------

  function B16(b: seq<Byte>, i: nat): (r: nat)
    requires i + 2 <= |b|
    ensures r < 0x1_0000
  {
    0x100 * (b[i] as int) + (b[i + 1] as int)
  }

  function B32(b: seq<Byte>, i: nat): (r: nat)
    requires i + 4 <= |b|
    ensures r < 0x1_0000_0000
  {
    0x1_0000 * B16(b, i) + B16(b, i + 2)
  }

  function Be16(n: nat): (r: seq<Byte>)
    ensures |r| == 2
  {
    [(n / 0x100) % 0x100, n % 0x100]
  }

  function Be32(n: nat): (r: seq<Byte>)
    ensures |r| == 4
  {
    Be16(n / 0x1_0000) + Be16(n)
  }

  lemma ReadBe16(n: nat)
    requires n < 0x1_0000
    ensures B16(Be16(n), 0) == n
  {
  }

  lemma ReadBe32(n: nat)
    requires n < 0x1_0000_0000
    ensures B32(Be32(n), 0) == n
  {
    var high, low := n / 0x1_0000, n % 0x1_0000;
    assert n == 0x1_0000 * high + low;
    assert (n / 0x100) % 0x100 == (low / 0x100) % 0x100 && n % 0x100 == low % 0x100;
  }
}
