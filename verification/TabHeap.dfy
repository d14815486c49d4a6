/** The append-only byte heap of a tab: records laid end to end, each parsed back from its own bytes. */
module TabHeap {
  import opened Common
  import opened Bytes

  /** How records are stored: with their lengths, or all of one length without them. */
  datatype Mode = Variable | Fixed(keyLen: nat, valLen: nat)

  const LIVE: Byte := 0x3e      // key type STR32 in the low three bits, value type STR32 in the next four
  const DELETED: Byte := 0xff

  /** Bytes of each length field. */
  function LenLen(mode: Mode): nat { if mode.Variable? then 4 else 0 }

  /** Whether the mode accepts a key and value: fixed mode takes exactly its lengths. */
  predicate Accepts(mode: Mode, key: seq<Byte>, val: seq<Byte>) {
    mode.Fixed? ==> |key| == mode.keyLen && |val| == mode.valLen
  }

  function RecordLen(mode: Mode, keyLen: nat, valLen: nat): nat {
    1 + LenLen(mode) + keyLen + LenLen(mode) + valLen
  }

  /** Length of the cell at i by its own bytes; 0 when they cannot be a cell. */
  function Len(mode: Mode, h: seq<Byte>, i: nat): nat {
    match mode
    case Fixed(keyLen, valLen) => 1 + keyLen + valLen
    case Variable =>
      if i + 5 > |h| then 0
      else if h[i] == DELETED then 5 + U32At(h, i + 1)
      else if i + 5 + U32At(h, i + 1) + 4 > |h| then 0
      else 5 + U32At(h, i + 1) + 4 + U32At(h, i + 5 + U32At(h, i + 1))
  }

  predicate Fits(mode: Mode, h: seq<Byte>, i: nat) {
    0 < Len(mode, h, i) && i + Len(mode, h, i) <= |h|
  }

  /** A cell in use, with its key and value lengths. */
  predicate LiveCell(mode: Mode, h: seq<Byte>, i: nat) {
    Fits(mode, h, i) && h[i] != DELETED
  }

  function KeyLen(mode: Mode, h: seq<Byte>, i: nat): nat
    requires LiveCell(mode, h, i)
  {
    if mode.Fixed? then mode.keyLen else U32At(h, i + 1)
  }

  function ValLen(mode: Mode, h: seq<Byte>, i: nat): nat
    requires LiveCell(mode, h, i)
  {
    if mode.Fixed? then mode.valLen else U32At(h, i + 5 + U32At(h, i + 1))
  }

  function Key(mode: Mode, h: seq<Byte>, i: nat): seq<Byte>
    requires LiveCell(mode, h, i)
  {
    h[i + 1 + LenLen(mode)..i + 1 + LenLen(mode) + KeyLen(mode, h, i)]
  }

  /** Where the value of a cell starts. */
  function ValAt(mode: Mode, h: seq<Byte>, i: nat): nat
    requires LiveCell(mode, h, i)
  {
    i + 1 + LenLen(mode) + KeyLen(mode, h, i) + LenLen(mode)
  }

  function Val(mode: Mode, h: seq<Byte>, i: nat): seq<Byte>
    requires LiveCell(mode, h, i)
  {
    h[ValAt(mode, h, i)..ValAt(mode, h, i) + ValLen(mode, h, i)]
  }

  // ---- The tiling -----------------------------------------------------------

  /** From j on the heap is cells end to end. */
  predicate Tiled(mode: Mode, h: seq<Byte>, j: nat)
    decreases |h| - j
  {
    j == |h| || (Fits(mode, h, j) && Tiled(mode, h, j + Len(mode, h, j)))
  }

  /** A cell starts at i, walking from j. */
  predicate IsStart(mode: Mode, h: seq<Byte>, j: nat, i: nat)
    decreases |h| - j
  {
    j < |h| && Fits(mode, h, j) && (i == j || IsStart(mode, h, j + Len(mode, h, j), i))
  }

  /** Bytes in live, or in deleted, cells from j on. */
  function Total(mode: Mode, h: seq<Byte>, j: nat, live: bool): nat
    decreases |h| - j
  {
    if j < |h| && Fits(mode, h, j) then
      (if (h[j] != DELETED) == live then Len(mode, h, j) else 0) + Total(mode, h, j + Len(mode, h, j), live)
    else 0
  }

  /** Bytes from a up to b are the same in both heaps. */
  ghost predicate Agree(h: seq<Byte>, g: seq<Byte>, a: nat, b: nat) {
    b <= |h| && b <= |g| && forall k :: a <= k < b ==> h[k] == g[k]
  }

  /** A cell is its own bytes. */
  lemma SameCell(mode: Mode, h: seq<Byte>, g: seq<Byte>, i: nat)
    requires Fits(mode, h, i) && Agree(h, g, i, i + Len(mode, h, i))
    ensures Fits(mode, g, i) && Len(mode, g, i) == Len(mode, h, i) && h[i] == g[i]
    ensures LiveCell(mode, h, i) ==> LiveCell(mode, g, i) && Key(mode, g, i) == Key(mode, h, i) && Val(mode, g, i) == Val(mode, h, i)
    ensures LiveCell(mode, h, i) ==> ValAt(mode, g, i) == ValAt(mode, h, i)
  {
    hide U32At;
    if mode.Variable? {
      SameU32(h, g, i + 1, i, i + Len(mode, h, i));
      if h[i] != DELETED {
        SameU32(h, g, i + 5 + U32At(h, i + 1), i, i + Len(mode, h, i));
      }
    }
  }

  lemma SameU32(h: seq<Byte>, g: seq<Byte>, i: nat, a: nat, b: nat)
    requires Agree(h, g, a, b) && a <= i && i + 4 <= b
    ensures U32At(g, i) == U32At(h, i)
  {
    U32Same(h, i, g, i);
  }

  lemma {:induction false} StartFits(mode: Mode, h: seq<Byte>, j: nat, i: nat)
    requires IsStart(mode, h, j, i)
    ensures j <= i && Fits(mode, h, i)
    decreases |h| - j
  {
    hide Len, LiveCell, Key, Val;
    if i != j { StartFits(mode, h, j + Len(mode, h, j), i); }
  }

  /** Cells do not overlap. */
  lemma {:induction false} StartsApart(mode: Mode, h: seq<Byte>, j: nat, a: nat, b: nat)
    requires IsStart(mode, h, j, a) && IsStart(mode, h, j, b) && a < b
    ensures a + Len(mode, h, a) <= b
    decreases |h| - j
  {
    hide Len, LiveCell, Key, Val;
    StartFits(mode, h, j, a);
    if a == j {
      StartFits(mode, h, j + Len(mode, h, j), b);
    } else {
      StartFits(mode, h, j + Len(mode, h, j), a);
      StartsApart(mode, h, j + Len(mode, h, j), a, b);
    }
  }

  /** The walk from j sees only the bytes from j on. */
  lemma {:induction false} SameWalk(mode: Mode, h: seq<Byte>, g: seq<Byte>, j: nat)
    requires Tiled(mode, h, j) && |g| == |h| && Agree(h, g, j, |h|)
    ensures Tiled(mode, g, j)
    ensures forall k :: IsStart(mode, g, j, k) <==> IsStart(mode, h, j, k)
    ensures forall b :: Total(mode, g, j, b) == Total(mode, h, j, b)
    decreases |h| - j
  {
    hide Len, LiveCell, Key, Val;
    if j < |h| {
      SameCell(mode, h, g, j);
      SameWalk(mode, h, g, j + Len(mode, h, j));
    }
  }

  /** Bytes a cell contributes to the live or the deleted total. */
  function Share(mode: Mode, h: seq<Byte>, i: nat, live: bool): nat
    requires i < |h|
  {
    if (h[i] != DELETED) == live then Len(mode, h, i) else 0
  }

  /** Rewriting one cell without changing its length leaves every other cell where it is. */
  lemma {:induction false} Recell(mode: Mode, h: seq<Byte>, g: seq<Byte>, j: nat, i: nat)
    requires Tiled(mode, h, j) && IsStart(mode, h, j, i) && |g| == |h|
    requires Agree(h, g, j, i) && Agree(h, g, i + Len(mode, h, i), |h|)
    requires Len(mode, g, i) == Len(mode, h, i)
    ensures Tiled(mode, g, j)
    ensures forall k :: IsStart(mode, g, j, k) <==> IsStart(mode, h, j, k)
    ensures i < |h|
    ensures forall b :: Total(mode, g, j, b) == Total(mode, h, j, b) - Share(mode, h, i, b) + Share(mode, g, i, b)
    decreases |h| - j
  {
    hide Len, LiveCell, Key, Val;
    StartFits(mode, h, j, i);
    var n := j + Len(mode, h, j);
    if i == j {
      SameWalk(mode, h, g, n);
    } else {
      StartFits(mode, h, n, i);
      SameCell(mode, h, g, j);
      Recell(mode, h, g, n, i);
    }
  }

  /** Putting one more cell at the end. */
  lemma {:induction false} AppendCell(mode: Mode, h: seq<Byte>, c: seq<Byte>, j: nat)
    requires Tiled(mode, h, j) && j <= |h| && c != []
    requires Fits(mode, h + c, |h|) && Len(mode, h + c, |h|) == |c|
    ensures Tiled(mode, h + c, j)
    ensures forall k :: IsStart(mode, h + c, j, k) <==> IsStart(mode, h, j, k) || k == |h|
    ensures forall b :: Total(mode, h + c, j, b) == Total(mode, h, j, b) + Share(mode, h + c, |h|, b)
    decreases |h| - j
  {
    hide Len, LiveCell, Key, Val;
    if j == |h| {
      var n := j + |c|;
      assert n == |h + c|;
    } else {
      SameCell(mode, h, h + c, j);
      AppendCell(mode, h, c, j + Len(mode, h, j));
    }
  }

  lemma {:induction false} TotalsSum(mode: Mode, h: seq<Byte>, j: nat)
    requires Tiled(mode, h, j) && j <= |h|
    ensures Total(mode, h, j, true) + Total(mode, h, j, false) == |h| - j
    decreases |h| - j
  {
    hide Len, LiveCell, Key, Val;
    if j < |h| { TotalsSum(mode, h, j + Len(mode, h, j)); }
  }

  // ---- Writing a record -------------------------------------------------------

  /** The bytes of a record. */
  function Encode(mode: Mode, key: seq<Byte>, val: seq<Byte>): (c: seq<Byte>)
    requires |key| < TWO_32 && |val| < TWO_32
    ensures |c| == RecordLen(mode, |key|, |val|)
  {
    match mode
    case Variable => [LIVE] + U32(|key|) + key + U32(|val|) + val
    case Fixed(_, _) => [LIVE] + key + val
  }

  /** A record parses back, wherever it is stored. */
  lemma EncodeParses(mode: Mode, h: seq<Byte>, i: nat, key: seq<Byte>, val: seq<Byte>)
    requires Accepts(mode, key, val) && |key| < TWO_32 && |val| < TWO_32
    requires i + RecordLen(mode, |key|, |val|) <= |h|
    requires h[i..i + RecordLen(mode, |key|, |val|)] == Encode(mode, key, val)
    ensures LiveCell(mode, h, i) && Len(mode, h, i) == RecordLen(mode, |key|, |val|)
    ensures Key(mode, h, i) == key && Val(mode, h, i) == val
  {
    if mode.Variable? {
      VariableParses(h, i, key, val);
    } else {
      FixedParses(mode, h, i, key, val);
    }
  }

  lemma FixedParses(mode: Mode, h: seq<Byte>, i: nat, key: seq<Byte>, val: seq<Byte>)
    requires mode.Fixed? && Accepts(mode, key, val) && |key| < TWO_32 && |val| < TWO_32
    requires i + RecordLen(mode, |key|, |val|) <= |h|
    requires h[i..i + RecordLen(mode, |key|, |val|)] == Encode(mode, key, val)
    ensures LiveCell(mode, h, i) && Len(mode, h, i) == RecordLen(mode, |key|, |val|)
    ensures Key(mode, h, i) == key && Val(mode, h, i) == val
  {
    hide U32At, U32;
    var n, c := RecordLen(mode, |key|, |val|), Encode(mode, key, val);
    Slice(h, i, n, 0, 1);
    assert c[0] == LIVE && c[1..1 + |key|] == key && c[1 + |key|..n] == val;
    Slice(h, i, n, 1, 1 + |key|);
    Slice(h, i, n, 1 + |key|, n);
  }

  lemma VariableParses(h: seq<Byte>, i: nat, key: seq<Byte>, val: seq<Byte>)
    requires |key| < TWO_32 && |val| < TWO_32
    requires i + 9 + |key| + |val| <= |h|
    requires h[i..i + 9 + |key| + |val|] == Encode(Variable, key, val)
    ensures LiveCell(Variable, h, i) && Len(Variable, h, i) == 9 + |key| + |val|
    ensures Key(Variable, h, i) == key && Val(Variable, h, i) == val
  {
    hide U32At, U32, Encode;
    var n := 9 + |key| + |val|;
    VariableParts(key, val);
    VariableHeader(h, i, key, val);
    Slice(h, i, n, 5, 5 + |key|);
    Slice(h, i, n, 9 + |key|, n);
  }

  lemma VariableHeader(h: seq<Byte>, i: nat, key: seq<Byte>, val: seq<Byte>)
    requires |key| < TWO_32 && |val| < TWO_32 && i + 9 + |key| + |val| <= |h|
    requires h[i..i + 9 + |key| + |val|] == Encode(Variable, key, val)
    ensures h[i] == LIVE && U32At(h, i + 1) == |key| && U32At(h, i + 5 + |key|) == |val|
  {
    hide U32At, U32, Encode;
    var n := 9 + |key| + |val|;
    VariableParts(key, val);
    Slice(h, i, n, 0, 1);
    Slice(h, i, n, 1, 5);
    Slice(h, i, n, 5 + |key|, 9 + |key|);
    ReadU32(h, i + 1, |key|);
    ReadU32(h, i + 5 + |key|, |val|);
  }

  lemma Slice(h: seq<Byte>, i: nat, n: nat, a: nat, b: nat)
    requires i + n <= |h| && a <= b <= n
    ensures h[i + a..i + b] == h[i..i + n][a..b]
    ensures a < b ==> h[i + a] == h[i..i + n][a]
  {
    var s, t := h[i + a..i + b], h[i..i + n][a..b];
    assert forall k :: 0 <= k < |s| ==> s[k] == t[k];
  }

  lemma ReadU32(h: seq<Byte>, i: nat, v: nat)
    requires v < TWO_32 && i + 4 <= |h| && h[i..i + 4] == U32(v)
    ensures U32At(h, i) == v
  {
    assert U32(v)[0..4] == U32(v);
    U32Same(h, i, U32(v), 0);
    U32Digits(v);
  }

  lemma VariableParts(key: seq<Byte>, val: seq<Byte>)
    requires |key| < TWO_32 && |val| < TWO_32
    ensures var c := Encode(Variable, key, val);
            && c[0] == LIVE && c[1..5] == U32(|key|) && c[5..5 + |key|] == key
            && c[5 + |key|..9 + |key|] == U32(|val|) && c[9 + |key|..9 + |key| + |val|] == val
  {
    hide U32;
    var c := Encode(Variable, key, val);
    var c1 := [LIVE] + U32(|key|);
    var c2 := c1 + key;
    var c3 := c2 + U32(|val|);
    assert c == c3 + val;
    assert c[..|c3|] == c3 && c3[..|c2|] == c2 && c2[..|c1|] == c1;
    assert c1[1..5] == U32(|key|);
    assert c2[5..5 + |key|] == key;
    assert c3[5 + |key|..9 + |key|] == U32(|val|);
    assert c[1..5] == c[..|c3|][..|c2|][..|c1|][1..5];
    assert c[5..5 + |key|] == c[..|c3|][..|c2|][5..5 + |key|];
    assert c[5 + |key|..9 + |key|] == c[..|c3|][5 + |key|..9 + |key|];
  }
}
