/** Bytes, and 32-bit little-endian numbers inside them. */
module Bytes {
  import opened Common

  type Byte = b: nat | b < 256

  /** SHF_U32_AT, read. */
  function U32At(d: seq<Byte>, i: nat): (v: nat)
    requires i + 4 <= |d|
    ensures v < TWO_32
  {
    var b0: nat, b1: nat, b2: nat, b3: nat := d[i], d[i + 1], d[i + 2], d[i + 3];
    b0 + 0x100 * b1 + 0x1_0000 * b2 + 0x100_0000 * b3
  }

  /** SHF_U32_AT, assigned. */
  function SetU32(d: seq<Byte>, i: nat, v: nat): (r: seq<Byte>)
    requires i + 4 <= |d| && v < TWO_32
    ensures |r| == |d|
    ensures forall j :: 0 <= j < |d| && !(i <= j < i + 4) ==> r[j] == d[j]
  {
    d[i := v % 0x100][i + 1 := v / 0x100 % 0x100][i + 2 := v / 0x1_0000 % 0x100][i + 3 := v / 0x100_0000 % 0x100]
  }

  /** The four bytes of a number. */
  function U32(v: nat): (r: seq<Byte>)
    requires v < TWO_32
    ensures |r| == 4
  {
    [v % 0x100, v / 0x100 % 0x100, v / 0x1_0000 % 0x100, v / 0x100_0000 % 0x100]
  }

  lemma U32Digits(v: nat)
    requires v < TWO_32
    ensures v % 0x100 + 0x100 * (v / 0x100 % 0x100) + 0x1_0000 * (v / 0x1_0000 % 0x100) + 0x100_0000 * (v / 0x100_0000 % 0x100) == v
  {
    var a := v / 0x100;
    var b := a / 0x100;
    assert v / 0x1_0000 == b && v / 0x100_0000 == b / 0x100;
  }

  /** What is stored is what is read. */
  lemma U32RoundTrip(d: seq<Byte>, i: nat, v: nat)
    requires i + 4 <= |d| && v < TWO_32
    ensures U32At(SetU32(d, i, v), i) == v
    ensures U32At(U32(v), 0) == v
  {
    U32Digits(v);
  }

  /** A read depends on its four bytes only. */
  lemma U32Same(d: seq<Byte>, i: nat, e: seq<Byte>, j: nat)
    requires i + 4 <= |d| && j + 4 <= |e|
    requires d[i..i + 4] == e[j..j + 4]
    ensures U32At(d, i) == U32At(e, j)
  {
    var s, t := d[i..i + 4], e[j..j + 4];
    assert s[0] == t[0] && s[1] == t[1] && s[2] == t[2] && s[3] == t[3];
  }
}
