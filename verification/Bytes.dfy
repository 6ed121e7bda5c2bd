/** Bytes and fixed-width little-endian integers. */
module Bytes {

  type Byte = x: int | 0 <= x < 0x100
  type U16 = x: int | 0 <= x < 0x1_0000
  type U32 = x: int | 0 <= x < 0x1_0000_0000

  const TWO_64: int := 0x1_0000_0000_0000_0000

  type U64 = x: int | 0 <= x < TWO_64

  type Bytes32 = b: seq<Byte> | |b| == 32 witness seq(32, _ => 0)
  type Bytes33 = b: seq<Byte> | |b| == 33 witness seq(33, _ => 0)
  type Bytes64 = b: seq<Byte> | |b| == 64 witness seq(64, _ => 0)

  function Le16(x: U16): (b: seq<Byte>)
    ensures |b| == 2
  {
    [x % 0x100, x / 0x100]
  }

  function Le32(x: U32): (b: seq<Byte>)
    ensures |b| == 4
  {
    [x % 0x100, x / 0x100 % 0x100, x / 0x1_0000 % 0x100, x / 0x100_0000]
  }

  function Le16At(d: seq<Byte>, i: nat): U16
    requires i + 2 <= |d|
  {
    (d[i] as int) + 0x100 * (d[i + 1] as int)
  }

  function Le32At(d: seq<Byte>, i: nat): U32
    requires i + 4 <= |d|
  {
    (d[i] as int) + 0x100 * (d[i + 1] as int) + 0x1_0000 * (d[i + 2] as int) + 0x100_0000 * (d[i + 3] as int)
  }

  lemma {:induction false} Le32Digits(x: U32)
    ensures x == x % 0x100 + 0x100 * (x / 0x100 % 0x100)
                 + 0x1_0000 * (x / 0x1_0000 % 0x100) + 0x100_0000 * (x / 0x100_0000)
  {
    var y := x / 0x100;
    var z := y / 0x100;
    assert x / 0x1_0000 == z && x / 0x100_0000 == z / 0x100;
  }

  /** Reading back what was written, at any offset. */
  lemma Le32RoundTrip(x: U32, d: seq<Byte>, i: nat)
    requires i + 4 <= |d| && d[i..i + 4] == Le32(x)
    ensures Le32At(d, i) == x
  {
    var b := d[i..i + 4];
    assert d[i] == b[0] && d[i + 1] == b[1] && d[i + 2] == b[2] && d[i + 3] == b[3];
    Le32Digits(x);
  }

  lemma Le16RoundTrip(x: U16, d: seq<Byte>, i: nat)
    requires i + 2 <= |d| && d[i..i + 2] == Le16(x)
    ensures Le16At(d, i) == x
  {
    var b := d[i..i + 2];
    assert d[i] == b[0] && d[i + 1] == b[1];
  }

  /** Writing back what was read: the encoding of a value is unique. */
  lemma Le32Unique(d: seq<Byte>, i: nat)
    requires i + 4 <= |d|
    ensures Le32(Le32At(d, i)) == d[i..i + 4]
  {
    var a: int, b: int, c: int, e: int := d[i], d[i + 1], d[i + 2], d[i + 3];
    var x: int, y, z := Le32At(d, i), b + 0x100 * c + 0x1_0000 * e, c + 0x100 * e;
    assert x == a + 0x100 * y && y == b + 0x100 * z;
    assert x / 0x100 == y && y / 0x100 == z && z / 0x100 == e;
    assert x / 0x1_0000 == z && x / 0x100_0000 == e;
    assert d[i..i + 4] == [d[i], d[i + 1], d[i + 2], d[i + 3]];
  }

  lemma Le16Unique(d: seq<Byte>, i: nat)
    requires i + 2 <= |d|
    ensures Le16(Le16At(d, i)) == d[i..i + 2]
  {
    assert d[i..i + 2] == [d[i], d[i + 1]];
  }
}
