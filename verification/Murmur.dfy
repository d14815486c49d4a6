/** MurmurHash3_x64_128: the hash as a loop over 16-byte blocks, and why it cannot merge keys
    that differ in a single block. Every mixing step has an inverse, written out here. */
module Murmur {
  type Byte = bv8

  datatype Lanes = Lanes(h1: bv64, h2: bv64)

  // ---- Mixing steps and their inverses ------------------------------------

  function Rotl27(x: bv64): bv64 { (x << 27) | (x >> 37) }
  function Rotl31(x: bv64): bv64 { (x << 31) | (x >> 33) }
  function Rotl33(x: bv64): bv64 { (x << 33) | (x >> 31) }
  function Rotl37(x: bv64): bv64 { (x << 37) | (x >> 27) }

  function TimesC1(x: bv64): bv64 { x * 0x87c37b91114253d5 }
  function TimesC2(x: bv64): bv64 { x * 0x4cf5ad432745937f }
  function OverC1(x: bv64): bv64 { x * 0xa98409e882ce4d7d }
  function OverC2(x: bv64): bv64 { x * 0xa81e14edd9de2c7f }

  function MixK1(k: bv64): bv64 { TimesC2(Rotl31(TimesC1(k))) }
  function MixK2(k: bv64): bv64 { TimesC1(Rotl33(TimesC2(k))) }
  function UnmixK1(k: bv64): bv64 { OverC1(Rotl33(OverC2(k))) }
  function UnmixK2(k: bv64): bv64 { OverC2(Rotl31(OverC1(k))) }

  function Shear(k: bv64): bv64 { k ^ (k >> 33) }
  function TimesM1(k: bv64): bv64 { k * 0xff51afd7ed558ccd }
  function TimesM2(k: bv64): bv64 { k * 0xc4ceb9fe1a85ec53 }
  function OverM1(k: bv64): bv64 { k * 0x4f74430c22a54005 }
  function OverM2(k: bv64): bv64 { k * 0x9cb4b2f8129337db }

  function Fmix(k: bv64): bv64 { Shear(TimesM2(Shear(TimesM1(Shear(k))))) }
  function Unfmix(k: bv64): bv64 { Shear(OverM1(Shear(OverM2(Shear(k))))) }

  function Affine1(h: bv64): bv64 { h * 5 + 0x52dce729 }
  function Affine2(h: bv64): bv64 { h * 5 + 0x38495ab5 }
  function Unaffine1(h: bv64): bv64 { (h - 0x52dce729) * 0xcccccccccccccccd }
  function Unaffine2(h: bv64): bv64 { (h - 0x38495ab5) * 0xcccccccccccccccd }

  lemma RotlInverse(x: bv64)
    ensures Rotl37(Rotl27(x)) == x && Rotl33(Rotl31(x)) == x && Rotl31(Rotl33(x)) == x
  {
  }

  // Each of the next lemmas states an inverse on the bare expression, where it is arithmetic alone.

  lemma OverOfTimes(x: bv64)
    ensures OverC1(x * 0x87c37b91114253d5) == x
    ensures OverC2(x * 0x4cf5ad432745937f) == x
    ensures OverM1(x * 0xff51afd7ed558ccd) == x
    ensures OverM2(x * 0xc4ceb9fe1a85ec53) == x
  {
  }

  lemma ShearOfShear(k: bv64)
    ensures Shear(k ^ (k >> 33)) == k
  {
  }

  lemma UnaffineOfAffine(h: bv64)
    ensures Unaffine1(h * 5 + 0x52dce729) == h
    ensures Unaffine2(h * 5 + 0x38495ab5) == h
  {
  }

  lemma TimesInverse(x: bv64)
    ensures OverC1(TimesC1(x)) == x && OverC2(TimesC2(x)) == x && OverM1(TimesM1(x)) == x && OverM2(TimesM2(x)) == x
  {
    OverOfTimes(x);
  }

  lemma ShearInverse(k: bv64)
    ensures Shear(Shear(k)) == k
  {
    ShearOfShear(k);
  }

  lemma AffineInverse(h: bv64)
    ensures Unaffine1(Affine1(h)) == h && Unaffine2(Affine2(h)) == h
  {
    UnaffineOfAffine(h);
  }

  lemma MixInverse(k: bv64)
    ensures UnmixK1(MixK1(k)) == k && UnmixK2(MixK2(k)) == k
  {
    TimesInverse(k);
    RotlInverse(TimesC1(k));
    TimesInverse(Rotl31(TimesC1(k)));
    TimesInverse(k);
    RotlInverse(TimesC2(k));
    TimesInverse(Rotl33(TimesC2(k)));
  }

  /** The 64-bit finalizer is a bijection. */
  lemma FmixInverse(k: bv64)
    ensures Unfmix(Fmix(k)) == k
  {
    var a := Shear(k);
    var b := TimesM1(a);
    var c := Shear(b);
    var d := TimesM2(c);
    ShearInverse(d);
    TimesInverse(c);
    ShearInverse(b);
    TimesInverse(a);
    ShearInverse(k);
  }

  // ---- One block -----------------------------------------------------------

  function Xor(a: bv64, b: bv64): bv64 { a ^ b }
  function Minus(a: bv64, b: bv64): bv64 { a - b }

  function Plus(a: bv64, b: bv64): bv64 { a + b }

  /** What a block does to one half of the state: x is that half with the mixed block word in, g the other half. */
  function Half1(x: bv64, g: bv64): bv64 { Affine1(Plus(Rotl27(x), g)) }
  function Half2(x: bv64, g: bv64): bv64 { Affine2(Plus(Rotl31(x), g)) }
  function Unhalf1(a: bv64, g: bv64): bv64 { Rotl37(Minus(Unaffine1(a), g)) }
  function Unhalf2(a: bv64, g: bv64): bv64 { Rotl33(Minus(Unaffine2(a), g)) }

  function Block(h: Lanes, k1: bv64, k2: bv64): Lanes {
    var h1 := Half1(Xor(h.h1, MixK1(k1)), h.h2);
    Lanes(h1, Half2(Xor(h.h2, MixK2(k2)), h1))
  }

  /** The state before a block, from the state after it and the block. */
  function Unblock(h: Lanes, k1: bv64, k2: bv64): Lanes {
    var h2 := Xor(Unhalf2(h.h2, h.h1), MixK2(k2));
    Lanes(Xor(Unhalf1(h.h1, h2), MixK1(k1)), h2)
  }

  /** The block, from the states around it. */
  function WhichBlock(before: Lanes, after: Lanes): (bv64, bv64) {
    (UnmixK1(Xor(Unhalf1(after.h1, before.h2), before.h1)), UnmixK2(Xor(Unhalf2(after.h2, after.h1), before.h2)))
  }

  lemma XorOfXor(a: bv64, b: bv64)
    ensures Xor(a ^ b, b) == a && Xor(a ^ b, a) == b
  {
  }

  lemma XorCancels(a: bv64, b: bv64)
    ensures Xor(Xor(a, b), b) == a && Xor(Xor(a, b), a) == b
  {
    XorOfXor(a, b);
  }

  lemma MinusOfPlus(a: bv64, b: bv64)
    ensures Minus(a + b, b) == a
  {
  }

  lemma MinusCancels(a: bv64, b: bv64)
    ensures Minus(Plus(a, b), b) == a
  {
    MinusOfPlus(a, b);
  }

  lemma Half1Inverse(x: bv64, g: bv64)
    ensures Unhalf1(Half1(x, g), g) == x
  {
    AffineInverse(Plus(Rotl27(x), g));
    MinusCancels(Rotl27(x), g);
    RotlInverse(x);
  }

  lemma Half2Inverse(x: bv64, g: bv64)
    ensures Unhalf2(Half2(x, g), g) == x
  {
    AffineInverse(Plus(Rotl31(x), g));
    MinusCancels(Rotl31(x), g);
    RotlInverse(x);
  }

  /** A block step loses nothing: with the block the old state comes back, with the old state the block does. */
  lemma BlockInverse(h: Lanes, k1: bv64, k2: bv64)
    ensures Unblock(Block(h, k1, k2), k1, k2) == h
    ensures WhichBlock(h, Block(h, k1, k2)) == (k1, k2)
  {
    var h1 := Half1(Xor(h.h1, MixK1(k1)), h.h2);
    Half1Inverse(Xor(h.h1, MixK1(k1)), h.h2);
    Half2Inverse(Xor(h.h2, MixK2(k2)), h1);
    XorCancels(h.h1, MixK1(k1));
    XorCancels(h.h2, MixK2(k2));
    MixInverse(k1);
    MixInverse(k2);
  }

  // ---- Reading the key -------------------------------------------------------

  /** Byte i of the tail, or zero past its end: the bytes the fall-through switch leaves out. */
  function At(s: seq<Byte>, i: nat): bv64 {
    if i < |s| then s[i] as bv64 else 0
  }

  // A byte xored into a word at each of the eight places.
  function In0(k: bv64, b: bv64): bv64 { k ^ (b << 0) }
  function In8(k: bv64, b: bv64): bv64 { k ^ (b << 8) }
  function In16(k: bv64, b: bv64): bv64 { k ^ (b << 16) }
  function In24(k: bv64, b: bv64): bv64 { k ^ (b << 24) }
  function In32(k: bv64, b: bv64): bv64 { k ^ (b << 32) }
  function In40(k: bv64, b: bv64): bv64 { k ^ (b << 40) }
  function In48(k: bv64, b: bv64): bv64 { k ^ (b << 48) }
  function In56(k: bv64, b: bv64): bv64 { k ^ (b << 56) }

  /** Eight bytes as a little-endian word, the highest byte first in. */
  function Word(a0: bv64, a1: bv64, a2: bv64, a3: bv64, a4: bv64, a5: bv64, a6: bv64, a7: bv64): bv64 {
    In0(In8(In16(In24(In32(In40(In48(In56(0, a7), a6), a5), a4), a3), a2), a1), a0)
  }

  /** Little-endian 64-bit word of the eight bytes from i on. */
  function Load(s: seq<Byte>, i: nat): bv64 {
    Word(At(s, i), At(s, i + 1), At(s, i + 2), At(s, i + 3), At(s, i + 4), At(s, i + 5), At(s, i + 6), At(s, i + 7))
  }

  lemma WordInjective(a0: bv64, a1: bv64, a2: bv64, a3: bv64, a4: bv64, a5: bv64, a6: bv64, a7: bv64,
                      b0: bv64, b1: bv64, b2: bv64, b3: bv64, b4: bv64, b5: bv64, b6: bv64, b7: bv64)
    requires a0 < 256 && a1 < 256 && a2 < 256 && a3 < 256 && a4 < 256 && a5 < 256 && a6 < 256 && a7 < 256
    requires b0 < 256 && b1 < 256 && b2 < 256 && b3 < 256 && b4 < 256 && b5 < 256 && b6 < 256 && b7 < 256
    requires Word(a0, a1, a2, a3, a4, a5, a6, a7) == Word(b0, b1, b2, b3, b4, b5, b6, b7)
    ensures a0 == b0 && a1 == b1 && a2 == b2 && a3 == b3 && a4 == b4 && a5 == b5 && a6 == b6 && a7 == b7
  {
  }

  lemma AtIs(s: seq<Byte>, i: nat)
    ensures At(s, i) == if i < |s| then s[i] as bv64 else 0
  {
  }

  lemma AtSmall(s: seq<Byte>, i: nat)
    ensures At(s, i) < 256
  {
  }

  lemma AtSame(s: seq<Byte>, t: seq<Byte>, i: nat)
    requires |s| == |t| && At(s, i) == At(t, i)
    ensures i < |s| ==> s[i] == t[i]
  {
  }

  lemma LoadInjective(s: seq<Byte>, t: seq<Byte>, i: nat)
    requires |s| == |t| && Load(s, i) == Load(t, i)
    ensures forall j :: i <= j < i + 8 && j < |s| ==> s[j] == t[j]
  {
    forall j | i <= j < i + 8 ensures At(s, j) < 256 && At(t, j) < 256 { AtSmall(s, j); AtSmall(t, j); }
    WordInjective(
      At(s, i), At(s, i + 1), At(s, i + 2), At(s, i + 3), At(s, i + 4), At(s, i + 5), At(s, i + 6), At(s, i + 7),
      At(t, i), At(t, i + 1), At(t, i + 2), At(t, i + 3), At(t, i + 4), At(t, i + 5), At(t, i + 6), At(t, i + 7));
    forall j | i <= j < i + 8 && j < |s| ensures s[j] == t[j] {
      AtSame(s, t, j);
    }
  }

  // ---- The hash ---------------------------------------------------------------

  /** State after the first n whole blocks. */
  function Body(key: seq<Byte>, seed: bv32, n: nat): Lanes
    requires 16 * n <= |key|
  {
    if n == 0 then Lanes(seed as bv64, seed as bv64)
    else Block(Body(key, seed, n - 1), Load(key, 16 * n - 16), Load(key, 16 * n - 8))
  }

  /** The tail of fewer than 16 bytes is xored in without disturbing the other half. */
  function Tail(h: Lanes, tail: seq<Byte>): Lanes {
    Lanes(if |tail| > 0 then Xor(h.h1, MixK1(Load(tail, 0))) else h.h1,
          if |tail| > 8 then Xor(h.h2, MixK2(Load(tail, 8))) else h.h2)
  }

  function Finish(h: Lanes, len: bv64): Lanes {
    var h2 := Xor(h.h2, len);
    var h1 := Plus(Xor(h.h1, len), h2);
    var g1 := Fmix(h1);
    var g2 := Fmix(Plus(h2, h1));
    var f1 := Plus(g1, g2);
    Lanes(f1, Plus(g2, f1))
  }

  function Hash(key: seq<Byte>, seed: bv32): Lanes
    requires |key| < 0x8000_0000
  {
    var n := |key| / 16;
    Finish(Tail(Body(key, seed, n), key[16 * n..]), |key| as bv64)
  }

  method Fmix64(key: bv64) returns (k: bv64)
    ensures k == Fmix(key)
  {
    hide Shear, TimesM1, TimesM2;
    k := Shear(key);
    k := TimesM1(k);
    k := Shear(k);
    k := TimesM2(k);
    k := Shear(k);
  }

  /** The loop body of the hash. */
  method MixBlock(g1: bv64, g2: bv64, w1: bv64, w2: bv64) returns (h1: bv64, h2: bv64)
    ensures Lanes(h1, h2) == Block(Lanes(g1, g2), w1, w2)
  {
    hide TimesC1, TimesC2, Rotl27, Rotl31, Rotl33, Xor, Plus, Affine1, Affine2;
    h1, h2 := g1, g2;
    var k1, k2 := w1, w2;
    k1 := TimesC1(k1); k1 := Rotl31(k1); k1 := TimesC2(k1); h1 := Xor(h1, k1);
    h1 := Rotl27(h1); h1 := Plus(h1, h2); h1 := Affine1(h1);
    k2 := TimesC2(k2); k2 := Rotl33(k2); k2 := TimesC1(k2); h2 := Xor(h2, k2);
    h2 := Rotl31(h2); h2 := Plus(h2, h1); h2 := Affine2(h2);
  }

  /** A case the switch skips would xor in a zero byte. */
  lemma InZero(k: bv64)
    ensures In0(k, 0) == k && In8(k, 0) == k && In16(k, 0) == k && In24(k, 0) == k
    ensures In32(k, 0) == k && In40(k, 0) == k && In48(k, 0) == k && In56(k, 0) == k
  {
  }

  /** Cases 15 to 9 of the switch: the tail bytes from the ninth on. */
  method TailWord2(tail: seq<Byte>) returns (k: bv64)
    requires |tail| < 16
    ensures k == Load(tail, 8)
  {
    hide In0, In8, In16, In24, In32, In40, In48, In56, At;
    forall i: nat ensures i < |tail| ==> At(tail, i) == tail[i] as bv64 ensures i >= |tail| ==> At(tail, i) == 0 { AtIs(tail, i); }
    k := 0;
    InZero(k);
    if |tail| >= 15 { k := In48(k, tail[14] as bv64); }
    InZero(k);
    if |tail| >= 14 { k := In40(k, tail[13] as bv64); }
    InZero(k);
    if |tail| >= 13 { k := In32(k, tail[12] as bv64); }
    InZero(k);
    if |tail| >= 12 { k := In24(k, tail[11] as bv64); }
    InZero(k);
    if |tail| >= 11 { k := In16(k, tail[10] as bv64); }
    InZero(k);
    if |tail| >= 10 { k := In8(k, tail[9] as bv64); }
    InZero(k);
    if |tail| >= 9 { k := In0(k, tail[8] as bv64); }
  }

  /** Cases 8 to 1: the first eight tail bytes. */
  method TailWord1(tail: seq<Byte>) returns (k: bv64)
    requires |tail| < 16
    ensures k == Load(tail, 0)
  {
    hide In0, In8, In16, In24, In32, In40, In48, In56, At;
    forall i: nat ensures i < |tail| ==> At(tail, i) == tail[i] as bv64 ensures i >= |tail| ==> At(tail, i) == 0 { AtIs(tail, i); }
    k := 0;
    InZero(k);
    if |tail| >= 8 { k := In56(k, tail[7] as bv64); }
    InZero(k);
    if |tail| >= 7 { k := In48(k, tail[6] as bv64); }
    InZero(k);
    if |tail| >= 6 { k := In40(k, tail[5] as bv64); }
    InZero(k);
    if |tail| >= 5 { k := In32(k, tail[4] as bv64); }
    InZero(k);
    if |tail| >= 4 { k := In24(k, tail[3] as bv64); }
    InZero(k);
    if |tail| >= 3 { k := In16(k, tail[2] as bv64); }
    InZero(k);
    if |tail| >= 2 { k := In8(k, tail[1] as bv64); }
    InZero(k);
    if |tail| >= 1 { k := In0(k, tail[0] as bv64); }
  }

  /** The fall-through switch on the bytes after the last whole block. */
  method MixTail(g1: bv64, g2: bv64, tail: seq<Byte>) returns (h1: bv64, h2: bv64)
    requires |tail| < 16
    ensures Lanes(h1, h2) == Tail(Lanes(g1, g2), tail)
  {
    hide TimesC1, TimesC2, Rotl31, Rotl33, Xor, Load;
    h1, h2 := g1, g2;
    if |tail| >= 9 {
      var k2 := TailWord2(tail);
      k2 := TimesC2(k2); k2 := Rotl33(k2); k2 := TimesC1(k2); h2 := Xor(h2, k2);
    }
    if |tail| >= 1 {
      var k1 := TailWord1(tail);
      k1 := TimesC1(k1); k1 := Rotl31(k1); k1 := TimesC2(k1); h1 := Xor(h1, k1);
    }
  }

  method MurmurHash3_x64_128(key: seq<Byte>, seed: bv32, out: array<bv64>)
    requires |key| < 0x8000_0000 && out.Length == 2
    modifies out
    ensures Lanes(out[0], out[1]) == Hash(key, seed)
  {
    hide Xor, Plus, Fmix, Load, Block, Tail;
    var nblocks := |key| / 16;
    var h1: bv64, h2: bv64 := seed as bv64, seed as bv64;
    for i := 0 to nblocks
      invariant Lanes(h1, h2) == Body(key, seed, i)
    {
      h1, h2 := MixBlock(h1, h2, Load(key, 16 * i), Load(key, 16 * i + 8));
    }
    h1, h2 := MixTail(h1, h2, key[16 * nblocks..]);
    var len := |key| as bv64;
    h1 := Xor(h1, len); h2 := Xor(h2, len);
    h1 := Plus(h1, h2);
    h2 := Plus(h2, h1);
    h1 := Fmix64(h1);
    h2 := Fmix64(h2);
    h1 := Plus(h1, h2);
    h2 := Plus(h2, h1);
    out[0], out[1] := h1, h2;
  }

  // ---- What the hash cannot merge ---------------------------------------------

  function Unfinish(f: Lanes, len: bv64): Lanes {
    var g2 := Minus(f.h2, f.h1);
    var h1 := Unfmix(Minus(f.h1, g2));
    var h2 := Minus(Unfmix(g2), h1);
    Lanes(Xor(Minus(h1, h2), len), Xor(h2, len))
  }

  lemma FinishInverse(h: Lanes, len: bv64)
    ensures Unfinish(Finish(h, len), len) == h
  {
    var h2 := Xor(h.h2, len);
    var h0 := Xor(h.h1, len);
    var h1 := Plus(h0, h2);
    var g1 := Fmix(h1);
    var g2 := Fmix(Plus(h2, h1));
    MinusCancels(g2, Plus(g1, g2));
    MinusCancels(g1, g2);
    FmixInverse(h1);
    FmixInverse(Plus(h2, h1));
    MinusCancels(h2, h1);
    MinusCancels(h0, h2);
    XorCancels(h.h1, len);
    XorCancels(h.h2, len);
  }

  lemma TailInverse(h: Lanes, g: Lanes, tail: seq<Byte>)
    requires Tail(h, tail) == Tail(g, tail)
    ensures h == g
  {
    XorCancels(h.h1, MixK1(Load(tail, 0)));
    XorCancels(g.h1, MixK1(Load(tail, 0)));
    XorCancels(h.h2, MixK2(Load(tail, 8)));
    XorCancels(g.h2, MixK2(Load(tail, 8)));
  }

  lemma TailInjective(h: Lanes, s: seq<Byte>, t: seq<Byte>)
    requires |s| == |t| < 16 && Tail(h, s) == Tail(h, t)
    ensures s == t
  {
    if |s| > 0 {
      XorCancels(h.h1, MixK1(Load(s, 0)));
      XorCancels(h.h1, MixK1(Load(t, 0)));
      MixInverse(Load(s, 0));
      MixInverse(Load(t, 0));
      LoadInjective(s, t, 0);
    }
    if |s| > 8 {
      XorCancels(h.h2, MixK2(Load(s, 8)));
      XorCancels(h.h2, MixK2(Load(t, 8)));
      MixInverse(Load(s, 8));
      MixInverse(Load(t, 8));
      LoadInjective(s, t, 8);
    }
  }

  lemma LoadSame(a: seq<Byte>, b: seq<Byte>, i: nat)
    requires |a| == |b| && forall j :: i <= j < i + 8 && j < |a| ==> a[j] == b[j]
    ensures Load(a, i) == Load(b, i)
  {
    hide Word;
    assert forall j :: i <= j < i + 8 ==> At(a, j) == At(b, j);
  }

  lemma {:induction false} SameStart(a: seq<Byte>, b: seq<Byte>, seed: bv32, n: nat)
    requires |a| == |b| && 16 * n <= |a|
    requires forall j :: 0 <= j < 16 * n ==> a[j] == b[j]
    ensures Body(a, seed, n) == Body(b, seed, n)
  {
    hide Block, Load;
    if n > 0 {
      SameStart(a, b, seed, n - 1);
      LoadSame(a, b, 16 * n - 16);
      LoadSame(a, b, 16 * n - 8);
    }
  }

  /** Running the blocks backwards: equal states after equal blocks come from equal states. */
  lemma {:induction false} SameEnd(a: seq<Byte>, b: seq<Byte>, seed: bv32, m: nat, n: nat)
    requires |a| == |b| && m <= n && 16 * n <= |a|
    requires forall j :: 16 * m <= j < 16 * n ==> a[j] == b[j]
    requires Body(a, seed, n) == Body(b, seed, n)
    ensures Body(a, seed, m) == Body(b, seed, m)
  {
    hide Block, Unblock, WhichBlock, Load;
    if m < n {
      LoadSame(a, b, 16 * n - 16);
      LoadSame(a, b, 16 * n - 8);
      BlockInverse(Body(a, seed, n - 1), Load(a, 16 * n - 16), Load(a, 16 * n - 8));
      BlockInverse(Body(b, seed, n - 1), Load(b, 16 * n - 16), Load(b, 16 * n - 8));
      SameEnd(a, b, seed, m, n - 1);
    }
  }

  lemma SameTailState(h: Lanes, s: seq<Byte>, g: Lanes, t: seq<Byte>, len: bv64)
    requires Finish(Tail(h, s), len) == Finish(Tail(g, t), len)
    ensures Tail(h, s) == Tail(g, t)
  {
    hide Finish, Unfinish, Tail;
    FinishInverse(Tail(h, s), len);
    FinishInverse(Tail(g, t), len);
  }

  lemma SameBlock(h: Lanes, k1: bv64, k2: bv64, j1: bv64, j2: bv64)
    requires Block(h, k1, k2) == Block(h, j1, j2)
    ensures k1 == j1 && k2 == j2
  {
    hide Block, WhichBlock, Unblock;
    BlockInverse(h, k1, k2);
    BlockInverse(h, j1, j2);
  }

  lemma SameBlockBytes(a: seq<Byte>, b: seq<Byte>, seed: bv32, m: nat)
    requires |a| == |b| && 16 * m + 16 <= |a|
    requires forall j :: 0 <= j < 16 * m ==> a[j] == b[j]
    requires Body(a, seed, m + 1) == Body(b, seed, m + 1)
    ensures forall j :: 16 * m <= j < 16 * m + 16 ==> a[j] == b[j]
  {
    hide Block, Load;
    SameStart(a, b, seed, m);
    SameBlock(Body(a, seed, m), Load(a, 16 * m), Load(a, 16 * m + 8), Load(b, 16 * m), Load(b, 16 * m + 8));
    LoadInjective(a, b, 16 * m);
    LoadInjective(a, b, 16 * m + 8);
  }

  /** Keys of one length that differ at most inside the block starting at 16 * m share a hash only when equal. */
  lemma OneBlockApart(a: seq<Byte>, b: seq<Byte>, seed: bv32, m: nat)
    requires |a| == |b| < 0x8000_0000 && m < |a| / 16
    requires forall j :: 0 <= j < |a| && !(16 * m <= j < 16 * m + 16) ==> a[j] == b[j]
    ensures Hash(a, seed) == Hash(b, seed) <==> a == b
  {
    hide Body, Finish, Tail;
    if Hash(a, seed) == Hash(b, seed) {
      var n := |a| / 16;
      var ha, hb := Body(a, seed, n), Body(b, seed, n);
      assert a[16 * n..] == b[16 * n..];
      SameTailState(ha, a[16 * n..], hb, b[16 * n..], |a| as bv64);
      TailInverse(ha, hb, a[16 * n..]);
      SameEnd(a, b, seed, m + 1, n);
      SameBlockBytes(a, b, seed, m);
    }
  }

  /** Keys of one length that differ at most after the last whole block share a hash only when equal. */
  lemma TailApart(a: seq<Byte>, b: seq<Byte>, seed: bv32)
    requires |a| == |b| < 0x8000_0000
    requires forall j :: 0 <= j < 16 * (|a| / 16) ==> a[j] == b[j]
    ensures Hash(a, seed) == Hash(b, seed) <==> a == b
  {
    hide Body, Finish, Tail;
    if Hash(a, seed) == Hash(b, seed) {
      var n := |a| / 16;
      SameStart(a, b, seed, n);
      var h := Body(a, seed, n);
      SameTailState(h, a[16 * n..], h, b[16 * n..], |a| as bv64);
      TailInjective(h, a[16 * n..], b[16 * n..]);
      forall j | 16 * n <= j < |a| ensures a[j] == b[j] {
        assert a[j] == a[16 * n..][j - 16 * n] && b[j] == b[16 * n..][j - 16 * n];
      }
    }
  }

  /** Running the blocks backwards for two seeds. */
  lemma {:induction false} SameSeed(key: seq<Byte>, s: bv32, t: bv32, n: nat)
    requires 16 * n <= |key| && Body(key, s, n) == Body(key, t, n)
    ensures s == t
  {
    hide Block, Unblock, WhichBlock, Load;
    if n == 0 {
      assert s as bv64 == t as bv64;
    } else {
      BlockInverse(Body(key, s, n - 1), Load(key, 16 * n - 16), Load(key, 16 * n - 8));
      BlockInverse(Body(key, t, n - 1), Load(key, 16 * n - 16), Load(key, 16 * n - 8));
      SameSeed(key, s, t, n - 1);
    }
  }

  /** One key has different hashes for different seeds. */
  lemma SeedsApart(key: seq<Byte>, s: bv32, t: bv32)
    requires |key| < 0x8000_0000
    ensures Hash(key, s) == Hash(key, t) <==> s == t
  {
    hide Body, Finish, Tail;
    if Hash(key, s) == Hash(key, t) {
      var n := |key| / 16;
      SameTailState(Body(key, s, n), key[16 * n..], Body(key, t, n), key[16 * n..], |key| as bv64);
      TailInverse(Body(key, s, n), Body(key, t, n), key[16 * n..]);
      SameSeed(key, s, t, n);
    }
  }

  // ---- Known hashes ------------------------------------------------------------

  /** Eight bytes of a key. */
  predicate Spells(key: seq<Byte>, i: nat, b0: bv8, b1: bv8, b2: bv8, b3: bv8, b4: bv8, b5: bv8, b6: bv8, b7: bv8) {
    && i + 8 <= |key|
    && key[i] == b0 && key[i + 1] == b1 && key[i + 2] == b2 && key[i + 3] == b3
    && key[i + 4] == b4 && key[i + 5] == b5 && key[i + 6] == b6 && key[i + 7] == b7
  }

  /** "The quick brown fox jumps over the lazy dog": two blocks and eleven bytes of tail. */
  predicate IsFox(key: seq<Byte>) {
    && |key| == 43
    && Spells(key, 0, 84, 104, 101, 32, 113, 117, 105, 99) && Spells(key, 8, 107, 32, 98, 114, 111, 119, 110, 32)
    && Spells(key, 16, 102, 111, 120, 32, 106, 117, 109, 112) && Spells(key, 24, 115, 32, 111, 118, 101, 114, 32, 116)
    && Spells(key, 32, 104, 101, 32, 108, 97, 122, 121, 32) && key[40] == 100 && key[41] == 111 && key[42] == 103
  }

  lemma Spelled(key: seq<Byte>, i: nat, b0: bv8, b1: bv8, b2: bv8, b3: bv8, b4: bv8, b5: bv8, b6: bv8, b7: bv8)
    requires Spells(key, i, b0, b1, b2, b3, b4, b5, b6, b7)
    ensures Load(key, i) == Word(b0 as bv64, b1 as bv64, b2 as bv64, b3 as bv64, b4 as bv64, b5 as bv64, b6 as bv64, b7 as bv64)
  {
    hide Word;
  }

  lemma FoxBlocks(key: seq<Byte>)
    requires IsFox(key)
    ensures Load(key, 0) == 0x6369757120656854 && Load(key, 8) == 0x206e776f7262206b
    ensures Load(key, 16) == 0x706d756a20786f66 && Load(key, 24) == 0x74207265766f2073
  {
    hide Load, Spells;
    Spelled(key, 0, 84, 104, 101, 32, 113, 117, 105, 99);
    Spelled(key, 8, 107, 32, 98, 114, 111, 119, 110, 32);
    Spelled(key, 16, 102, 111, 120, 32, 106, 117, 109, 112);
    Spelled(key, 24, 115, 32, 111, 118, 101, 114, 32, 116);
  }

  lemma FoxTail(key: seq<Byte>)
    requires IsFox(key)
    ensures Load(key[32..], 0) == 0x20797a616c206568 && Load(key[32..], 8) == 0x676f64
  {
    hide Spells, Load;
    var tail := key[32..];
    assert Spells(tail, 0, 104, 101, 32, 108, 97, 122, 121, 32) by { Shifted(key, 32, 104, 101, 32, 108, 97, 122, 121, 32); }
    Spelled(tail, 0, 104, 101, 32, 108, 97, 122, 121, 32);
    EndSpelled(tail);
  }

  lemma Shifted(key: seq<Byte>, i: nat, b0: bv8, b1: bv8, b2: bv8, b3: bv8, b4: bv8, b5: bv8, b6: bv8, b7: bv8)
    requires Spells(key, i, b0, b1, b2, b3, b4, b5, b6, b7)
    ensures Spells(key[i..], 0, b0, b1, b2, b3, b4, b5, b6, b7)
  {
  }

  lemma EndSpelled(tail: seq<Byte>)
    requires |tail| == 11 && tail[8] == 100 && tail[9] == 111 && tail[10] == 103
    ensures Load(tail, 8) == 0x676f64
  {
    hide Word;
    assert Load(tail, 8) == Word(100, 111, 103, 0, 0, 0, 0, 0);
    assert Word(100, 111, 103, 0, 0, 0, 0, 0) == 0x676f64 by { EndWord(); }
  }

  lemma EndWord()
    ensures Word(100, 111, 103, 0, 0, 0, 0, 0) == 0x676f64
  {
  }

  lemma FoxNumbers()
    ensures Block(Block(Lanes(0, 0), 0x6369757120656854, 0x206e776f7262206b), 0x706d756a20786f66, 0x74207265766f2073) ==
            Lanes(0xef7ef36e84b36d66, 0x20112c4dac59411d)
    ensures Block(Block(Lanes(12345, 12345), 0x6369757120656854, 0x206e776f7262206b), 0x706d756a20786f66, 0x74207265766f2073) ==
            Lanes(0x3b4015cce4caf7e7, 0x86cb3bcb0ccfec14)
    ensures Finish(Lanes(Xor(0xef7ef36e84b36d66, MixK1(0x20797a616c206568)), Xor(0x20112c4dac59411d, MixK2(0x676f64))), 43) ==
            Lanes(0xe34bbc7bbc071b6c, 0x7a433ca9c49a9347)
    ensures Finish(Lanes(Xor(0x3b4015cce4caf7e7, MixK1(0x20797a616c206568)), Xor(0x86cb3bcb0ccfec14, MixK2(0x676f64))), 43) ==
            Lanes(0x52531ec4528f3236, 0xbe3e7484865bf98e)
  {
  }

  /** The known hash of that key for seed 0, and its hash for the seed the store uses. */
  lemma KnownHash(key: seq<Byte>)
    requires IsFox(key)
    ensures Hash(key, 0) == Lanes(0xe34bbc7bbc071b6c, 0x7a433ca9c49a9347)
    ensures Hash(key, 12345) == Lanes(0x52531ec4528f3236, 0xbe3e7484865bf98e)
  {
    hide Load, Block, Finish, Spells, Xor, MixK1, MixK2;
    FoxBlocks(key);
    FoxTail(key);
    FoxNumbers();
    forall seed: bv32
      ensures Body(key, seed, 2) == Block(Block(Lanes(seed as bv64, seed as bv64), Load(key, 0), Load(key, 8)), Load(key, 16), Load(key, 24)) {
      assert Body(key, seed, 1) == Block(Body(key, seed, 0), Load(key, 0), Load(key, 8));
    }
  }

  /** The empty key hashes to zero for seed 0. */
  lemma EmptyHash()
    ensures Hash([], 0) == Lanes(0, 0)
  {
  }
}
