/** The 32-bit UID: eight bits of window, eleven of index, nine of row, four of ref; and the hash bits they come from. */
module UidCode {
  import opened TabFile
  import opened Directory
  import opened WindowModel

  const WINDOWS := 256
  const UID_NONE := 0xFFFF_FFFF

  datatype Parts = Parts(win: nat, tab2: nat, row: nat, ref: nat)

  predicate InRange(p: Parts) {
    p.win < WINDOWS && p.tab2 < INDEXES && p.row < ROWS && p.ref < REFS_PER_ROW
  }

  /** as_part to as_u32. */
  function Pack(p: Parts): (code: nat)
    requires InRange(p)
    ensures code <= UID_NONE
  {
    p.win + 0x100 * p.tab2 + 0x8_0000 * p.row + 0x1000_0000 * p.ref
  }

  /** as_u32 to as_part. */
  function Unpack(code: nat): (p: Parts)
    requires code <= UID_NONE
    ensures InRange(p)
  {
    Parts(code % 0x100, code / 0x100 % 0x800, code / 0x8_0000 % 0x200, code / 0x1000_0000)
  }

  /** Parts and codes correspond one to one, so no two records of a store share a UID. */
  lemma PackUnpack(p: Parts)
    requires InRange(p)
    ensures Unpack(Pack(p)) == p
    ensures Pack(p) % 256 == p.win && Pack(p) / 256 % 2048 == p.tab2 && Pack(p) / 0x8_0000 % 512 == p.row && Pack(p) / 0x1000_0000 == p.ref
  {
    var code := Pack(p);
    var high := p.tab2 + 0x800 * p.row + 0x10_0000 * p.ref;
    assert code / 0x100 == high && code % 0x100 == p.win;
    assert code / 0x8_0000 == high / 0x800 && high % 0x800 == p.tab2;
    assert high / 0x800 == p.row + 0x200 * p.ref;
    assert code / 0x1000_0000 == high / 0x10_0000 == p.ref;
  }

  lemma UnpackPack(code: nat)
    requires code <= UID_NONE
    ensures Pack(Unpack(code)) == code
  {
    var high := code / 0x100;
    assert code / 0x8_0000 == high / 0x800;
    assert code / 0x1000_0000 == high / 0x800 / 0x200;
  }

  /** The one place whose UID reads as no UID: the last ref of the last row of the last index of the last window. */
  lemma NoneIsLast(p: Parts)
    requires InRange(p)
    ensures Pack(p) == UID_NONE <==> p == Parts(WINDOWS - 1, INDEXES - 1, ROWS - 1, REFS_PER_ROW - 1)
  {
    if Pack(p) == UID_NONE { PackUnpack(p); }
  }

  /** The UID of a slot of a window, as the window model names it. */
  function CodeOf(win: nat, u: Uid): (code: nat)
    requires win < WINDOWS && u in Uids()
    ensures code <= UID_NONE
  {
    UidBounds(u);
    Pack(Parts(win, u.tab2, u.slot / REFS_PER_ROW, u.slot % REFS_PER_ROW))
  }

  /** Different places of the store have different UIDs. */
  lemma CodesDiffer(win: nat, u: Uid, win': nat, u': Uid)
    requires win < WINDOWS && win' < WINDOWS && u in Uids() && u' in Uids()
    requires CodeOf(win, u) == CodeOf(win', u')
    ensures win == win' && u == u'
  {
    UidBounds(u);
    UidBounds(u');
    PackUnpack(Parts(win, u.tab2, u.slot / REFS_PER_ROW, u.slot % REFS_PER_ROW));
    PackUnpack(Parts(win', u'.tab2, u'.slot / REFS_PER_ROW, u'.slot % REFS_PER_ROW));
  }

  /** Window, index, row and ref bits from the first 48 and the third 32 bits of a 128-bit hash. */
  function PartsOfHash(h1: nat, h2: nat): (r: (nat, Hash))
    ensures r.0 < WINDOWS && ValidHash(r.1)
  {
    (h1 % 0x1_0000 % WINDOWS,
     Hash(h1 / 0x1_0000 % 0x1_0000 % INDEXES, h1 / 0x1_0000_0000 % 0x1_0000 % ROWS, h2 % 0x1_0000_0000 % RNDS))
  }

  /** Of the first half of the hash, bits 0 to 7 are the window, 16 to 26 the index and 32 to 40 the row; of the second,
      bits 0 to 20 are the bits kept in the ref. All other bits, x0 to x3 and y, make no difference, so every window and
      every valid hash comes from some key's hash. */
  lemma HashBits(win: nat, h: Hash, x0: nat, x1: nat, x2: nat, x3: nat, y: nat)
    requires win < 256 && h.tab2 < 2048 && h.row < 512 && h.rnd < 0x20_0000
    requires x0 < 256 && x1 < 32 && x2 < 128
    ensures PartsOfHash(win + 0x100 * x0 + 0x1_0000 * (h.tab2 + 0x800 * x1) + 0x1_0000_0000 * (h.row + 0x200 * x2 + 0x1_0000 * x3),
                        h.rnd + 0x20_0000 * y) == (win, h)
  {
    var third := h.row + 0x200 * x2 + 0x1_0000 * x3;
    var second := h.tab2 + 0x800 * x1 + 0x1_0000 * third;
    var h1 := win + 0x100 * x0 + 0x1_0000 * second;
    Quotient(0x1_0000, second, win + 0x100 * x0, h1);
    Quotient(0x1_0000, third, h.tab2 + 0x800 * x1, second);
    Quotient(0x1_0000, x3, h.row + 0x200 * x2, third);
    Quotient(0x1_0000_0000, third, win + 0x100 * x0 + 0x1_0000 * (h.tab2 + 0x800 * x1), h1);
    Quotient(0x100, x0, win, win + 0x100 * x0);
    Quotient(0x800, x1, h.tab2, h.tab2 + 0x800 * x1);
    Quotient(0x200, x2, h.row, h.row + 0x200 * x2);
    LowBits(h.rnd, y);
  }

  lemma LowBits(r: nat, y: nat)
    requires r < 0x20_0000
    ensures (r + 0x20_0000 * y) % 0x1_0000_0000 % 0x20_0000 == r
  {
    var n := r + 0x20_0000 * y;
    var low, high := y % 0x800, y / 0x800;
    assert n == r + 0x20_0000 * low + 0x1_0000_0000 * high;
    Quotient(0x1_0000_0000, high, r + 0x20_0000 * low, n);
    Quotient(0x20_0000, low, r, r + 0x20_0000 * low);
  }
}
