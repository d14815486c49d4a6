/** One tab: rows of refs over a heap of records. A ref keeps where its record is; records are appended, marked
    deleted in place, and in fixed-length mode reused through a list threaded through the deleted ones. */
module TabFile {
  import opened Common
  import opened Bytes
  import opened TabHeap

  const HEADER := 65560     // bytes before the heap: 24 of counters and 512 rows of 16 refs of 8 bytes
  const REFS_PER_ROW := 16
  const SLOTS := 8192       // refs of a tab: slot = row * REFS_PER_ROW + ref

  /** pos is the record's offset in the tab file, 0 when the ref is unused. */
  datatype Ref = Ref(tab2: nat, rnd: nat, pos: nat)

  /** heap is the file from HEADER to tab_used. */
  datatype Tab = Tab(heap: seq<Byte>, freePos: nat, dataFree: nat, dataUsed: nat, refs: seq<Ref>)

  /** What a used ref stands for. */
  datatype Entry = Entry(tab2: nat, rnd: nat, key: seq<Byte>, val: seq<Byte>)

  function EmptyTab(): Tab {
    Tab([], 0, 0, 0, seq(SLOTS, i => Ref(0, 0, 0)))
  }

  // ---- Invariant --------------------------------------------------------------

  /** Deleted records are reused in fixed mode when a link fits behind the four bytes after the type. */
  predicate Reuses(mode: Mode) {
    mode.Fixed? && mode.keyLen + mode.valLen >= 4
  }

  /** The modes in which a link, at bytes 5 to 8 of a record, stays inside it. */
  predicate Sound(mode: Mode) {
    Reuses(mode) ==> mode.keyLen + mode.valLen >= 8
  }

  ghost predicate HeapOk(mode: Mode, t: Tab) {
    && Tiled(mode, t.heap, 0)
    && HEADER + |t.heap| < TWO_32
    && t.dataUsed == Total(mode, t.heap, 0, true)
    && t.dataFree == Total(mode, t.heap, 0, false)
  }

  /** A used ref is at a live record. */
  ghost predicate RefOk(mode: Mode, t: Tab, s: nat)
    requires s < |t.refs|
  {
    t.refs[s].pos != 0 ==>
      t.refs[s].pos >= HEADER && IsStart(mode, t.heap, 0, t.refs[s].pos - HEADER) && LiveCell(mode, t.heap, t.refs[s].pos - HEADER)
  }

  /** A live, or a deleted, record starts at i. */
  ghost predicate LiveAt(mode: Mode, h: seq<Byte>, i: int) {
    0 <= i < |h| && IsStart(mode, h, 0, i) && h[i] != DELETED
  }

  ghost predicate DeadAt(mode: Mode, h: seq<Byte>, i: int) {
    0 <= i < |h| && IsStart(mode, h, 0, i) && h[i] == DELETED
  }

  ghost predicate Referenced(t: Tab, i: nat) {
    exists s :: 0 <= s < |t.refs| && t.refs[s].pos == HEADER + i
  }

  /** Used refs and live records correspond one to one. */
  ghost predicate RefsOk(mode: Mode, t: Tab) {
    && |t.refs| == SLOTS
    && (forall s :: 0 <= s < SLOTS ==> RefOk(mode, t, s))
    && (forall r, s :: 0 <= r < s < SLOTS && t.refs[r].pos != 0 ==> t.refs[r].pos != t.refs[s].pos)
    && (forall i: nat :: LiveAt(mode, t.heap, i) ==> Referenced(t, i))
  }

  /** Following the links from pos visits chain and ends at 0. */
  ghost predicate Links(h: seq<Byte>, pos: nat, chain: seq<nat>)
    decreases |chain|
  {
    if chain == [] then pos == 0
    else pos == HEADER + chain[0] && chain[0] + 9 <= |h| && Links(h, U32At(h, chain[0] + 5), chain[1..])
  }

  /** chain holds exactly the deleted records, once each. */
  ghost predicate FreeChain(mode: Mode, t: Tab, chain: seq<nat>) {
    && NoDup(chain)
    && (forall i :: i in chain <==> DeadAt(mode, t.heap, i))
    && Links(t.heap, t.freePos, chain)
  }

  ghost predicate FreeOk(mode: Mode, t: Tab) {
    if Reuses(mode) then exists chain :: FreeChain(mode, t, chain) else t.freePos == 0
  }

  ghost predicate TabInv(mode: Mode, t: Tab) {
    HeapOk(mode, t) && RefsOk(mode, t) && FreeOk(mode, t)
  }

  /** The entry at a slot, read from the record's own bytes. */
  function Content(mode: Mode, t: Tab, s: nat): Option<Entry>
    requires s < |t.refs|
  {
    var r := t.refs[s];
    if r.pos < HEADER || !LiveCell(mode, t.heap, r.pos - HEADER) then None
    else Some(Entry(r.tab2, r.rnd, Key(mode, t.heap, r.pos - HEADER), Val(mode, t.heap, r.pos - HEADER)))
  }

  // ---- Operations ---------------------------------------------------------------

  /** SHF_TAB_APPEND: the tab with one more record, and where it is. */
  function Append(mode: Mode, t: Tab, key: seq<Byte>, val: seq<Byte>): (Tab, nat)
    requires |key| < TWO_32 && |val| < TWO_32
  {
    var c := Encode(mode, key, val);
    if mode.Fixed? && t.freePos >= HEADER && t.freePos - HEADER + 9 <= |t.heap| && t.freePos - HEADER + |c| <= |t.heap| then
      var i := t.freePos - HEADER;
      (t.(heap := t.heap[..i] + c + t.heap[i + |c|..],
          freePos := U32At(t.heap, i + 5),
          dataFree := if |c| <= t.dataFree then t.dataFree - |c| else 0,
          dataUsed := t.dataUsed + |c|),
       t.freePos)
    else
      (t.(heap := t.heap + c, dataUsed := t.dataUsed + |c|), HEADER + |t.heap|)
  }

  /** A record appended and a ref pointed at it. */
  function PutAt(mode: Mode, t: Tab, s: nat, tab2: nat, rnd: nat, key: seq<Byte>, val: seq<Byte>): Tab
    requires s < |t.refs| && |key| < TWO_32 && |val| < TWO_32
  {
    var (t', pos) := Append(mode, t, key, val);
    t'.(refs := t'.refs[s := Ref(tab2, rnd, pos)])
  }

  /** The heap with the record at i marked deleted; bytes past the heap are not kept. */
  function Marked(mode: Mode, h: seq<Byte>, i: nat, keyLen: nat, valLen: nat, freePos: nat): seq<Byte>
    requires i < |h| && freePos < TWO_32
    requires mode.Variable? ==> i + 5 <= |h| && keyLen + valLen + 4 < TWO_32
  {
    var h1 := h[i := DELETED];
    match mode
    case Variable => SetU32(h1, i + 1, keyLen + 4 + valLen)
    case Fixed(_, _) =>
      if Reuses(mode) then seq(|h1|, k requires 0 <= k < |h1| => if i + 5 <= k < i + 9 then U32(freePos)[k - i - 5] else h1[k])
      else h1
  }

  /** SHF_TAB_REF_MARK_AS_DELETED. */
  function DeleteAt(mode: Mode, t: Tab, s: nat): Tab
    requires s < |t.refs| && t.refs[s].pos >= HEADER && LiveCell(mode, t.heap, t.refs[s].pos - HEADER)
    requires t.freePos < TWO_32 && |t.heap| < TWO_32
  {
    var i := t.refs[s].pos - HEADER;
    var len := Len(mode, t.heap, i);
    t.(heap := Marked(mode, t.heap, i, KeyLen(mode, t.heap, i), ValLen(mode, t.heap, i), t.freePos),
       freePos := if Reuses(mode) then t.refs[s].pos else t.freePos,
       dataUsed := if len <= t.dataUsed then t.dataUsed - len else 0,
       dataFree := t.dataFree + len,
       refs := t.refs[s := t.refs[s].(pos := 0)])
  }

  /** A value overwritten in place by one of the same length. */
  function UpdateAt(mode: Mode, t: Tab, s: nat, val: seq<Byte>): Tab
    requires s < |t.refs| && t.refs[s].pos >= HEADER && LiveCell(mode, t.heap, t.refs[s].pos - HEADER)
    requires |val| == ValLen(mode, t.heap, t.refs[s].pos - HEADER)
  {
    var v := ValAt(mode, t.heap, t.refs[s].pos - HEADER);
    t.(heap := t.heap[..v] + val + t.heap[v + |val|..])
  }

  /** Whether the 32-bit tab_used can take the record at the end. */
  predicate Room(mode: Mode, t: Tab, key: seq<Byte>, val: seq<Byte>) {
    HEADER + |t.heap| + RecordLen(mode, |key|, |val|) < TWO_32
  }

  /** Whether the tab can take the record: at the end or in place of a deleted one. */
  predicate Takes(mode: Mode, t: Tab, key: seq<Byte>, val: seq<Byte>) {
    && |key| < TWO_32 && |val| < TWO_32
    && ((mode.Fixed? && t.freePos != 0) || Room(mode, t, key, val))
  }

  // ---- What a rewritten cell leaves alone ------------------------------------------

  /** g is h with only the cell at i rewritten, to a cell of the same length. */
  ghost predicate Rewritten(mode: Mode, h: seq<Byte>, g: seq<Byte>, i: nat) {
    && Tiled(mode, h, 0) && IsStart(mode, h, 0, i)
    && |g| == |h| && Agree(h, g, 0, i) && Agree(h, g, i + Len(mode, h, i), |h|)
    && Len(mode, g, i) == Len(mode, h, i)
  }

  lemma OtherCell(mode: Mode, h: seq<Byte>, g: seq<Byte>, i: nat, k: nat)
    requires Rewritten(mode, h, g, i) && IsStart(mode, h, 0, k) && k != i
    ensures Fits(mode, h, k) && Agree(h, g, k, k + Len(mode, h, k))
    ensures Fits(mode, g, k) && Len(mode, g, k) == Len(mode, h, k) && g[k] == h[k]
    ensures LiveCell(mode, h, k) ==> LiveCell(mode, g, k) && Key(mode, g, k) == Key(mode, h, k) && Val(mode, g, k) == Val(mode, h, k)
  {
    hide Len, Key, Val;
    StartFits(mode, h, 0, i);
    StartFits(mode, h, 0, k);
    if k < i { StartsApart(mode, h, 0, k, i); } else { StartsApart(mode, h, 0, i, k); }
    SameCell(mode, h, g, k);
  }

  /** A chain that avoids the rewritten cell keeps its links. */
  lemma {:induction false} SameLinks(mode: Mode, h: seq<Byte>, g: seq<Byte>, i: nat, pos: nat, chain: seq<nat>)
    requires Reuses(mode) && Sound(mode) && Rewritten(mode, h, g, i)
    requires forall k :: k in chain ==> IsStart(mode, h, 0, k) && k != i
    requires Links(h, pos, chain)
    ensures Links(g, pos, chain)
    decreases |chain|
  {
    if chain != [] {
      OtherCell(mode, h, g, i, chain[0]);
      SameU32(h, g, chain[0] + 5, chain[0], chain[0] + Len(mode, h, chain[0]));
      SameLinks(mode, h, g, i, U32At(h, chain[0] + 5), chain[1..]);
    }
  }

  // ---- Appending --------------------------------------------------------------------

  /** The other refs after a put or a delete: what they stand for does not change. */
  ghost predicate OthersSame(mode: Mode, t: Tab, t': Tab, s: nat) {
    && |t'.refs| == |t.refs|
    && forall r :: 0 <= r < |t.refs| && r != s ==> Content(mode, t', r) == Content(mode, t, r)
  }

  lemma AppendEnd(mode: Mode, h: seq<Byte>, key: seq<Byte>, val: seq<Byte>)
    requires Tiled(mode, h, 0) && Accepts(mode, key, val) && |key| < TWO_32 && |val| < TWO_32
    ensures var g := h + Encode(mode, key, val);
            && Tiled(mode, g, 0) && LiveCell(mode, g, |h|) && Key(mode, g, |h|) == key && Val(mode, g, |h|) == val
            && (forall k :: IsStart(mode, g, 0, k) <==> IsStart(mode, h, 0, k) || k == |h|)
            && Total(mode, g, 0, true) == Total(mode, h, 0, true) + RecordLen(mode, |key|, |val|)
            && Total(mode, g, 0, false) == Total(mode, h, 0, false)
  {
    hide Tiled, IsStart, Total, Key, Val, Encode;
    var c := Encode(mode, key, val);
    var g := h + c;
    assert g[|h|..|h| + |c|] == c;
    EncodeParses(mode, g, |h|, key, val);
    AppendCell(mode, h, c, 0);
  }

  lemma AppendEndOther(mode: Mode, h: seq<Byte>, c: seq<Byte>, k: nat)
    requires IsStart(mode, h, 0, k)
    ensures k < |h| && k != |h| && Fits(mode, h, k) && Agree(h, h + c, k, k + Len(mode, h, k)) && (h + c)[k] == h[k]
    ensures LiveCell(mode, h, k) ==> LiveCell(mode, h + c, k) && Key(mode, h + c, k) == Key(mode, h, k) && Val(mode, h + c, k) == Val(mode, h, k)
  {
    StartFits(mode, h, 0, k);
    SameCell(mode, h, h + c, k);
  }

  lemma {:induction false} AppendLinks(mode: Mode, h: seq<Byte>, c: seq<Byte>, pos: nat, chain: seq<nat>)
    requires Links(h, pos, chain)
    ensures Links(h + c, pos, chain)
    decreases |chain|
  {
    if chain != [] {
      SameU32(h, h + c, chain[0] + 5, chain[0] + 5, chain[0] + 9);
      AppendLinks(mode, h, c, U32At(h, chain[0] + 5), chain[1..]);
    }
  }

  lemma RefFacts(mode: Mode, t: Tab, r: nat)
    requires TabInv(mode, t) && r < SLOTS
    ensures |t.refs| == SLOTS && RefOk(mode, t, r)
    ensures t.refs[r].pos != 0 ==> LiveAt(mode, t.heap, t.refs[r].pos - HEADER)
  {
  }

  /** What a put must achieve. */
  ghost predicate PutDone(mode: Mode, t: Tab, t': Tab, s: nat, tab2: nat, rnd: nat, key: seq<Byte>, val: seq<Byte>) {
    && TabInv(mode, t') && s < |t'.refs| && t'.refs[s].pos != 0
    && Content(mode, t', s) == Some(Entry(tab2, rnd, key, val))
    && OthersSame(mode, t, t', s)
    && t'.dataUsed == t.dataUsed + RecordLen(mode, |key|, |val|)
  }

  /** A record appended and an unused ref pointed at it. */
  lemma AppendedRefs(mode: Mode, t: Tab, t': Tab, c: seq<Byte>, s: nat)
    requires TabInv(mode, t) && s < SLOTS && t.refs[s].pos == 0
    requires t'.heap == t.heap + c && LiveCell(mode, t'.heap, |t.heap|)
    requires forall k :: IsStart(mode, t'.heap, 0, k) <==> IsStart(mode, t.heap, 0, k) || k == |t.heap|
    requires |t'.refs| == SLOTS && t'.refs[s].pos == HEADER + |t.heap|
    requires forall r :: 0 <= r < SLOTS && r != s ==> t'.refs[r] == t.refs[r]
    ensures RefsOk(mode, t') && OthersSame(mode, t, t', s)
  {
    hide Len, Tiled, IsStart, Total, Key, Val;
    forall r | 0 <= r < SLOTS && r != s
      ensures RefOk(mode, t', r) && Content(mode, t', r) == Content(mode, t, r) && t.refs[r].pos != HEADER + |t.heap| {
      RefFacts(mode, t, r);
      if t.refs[r].pos != 0 { AppendEndOther(mode, t.heap, c, t.refs[r].pos - HEADER); }
    }
    assert RefOk(mode, t', s);
    forall i: nat | LiveAt(mode, t'.heap, i) ensures Referenced(t', i) {
      if i == |t.heap| {
        assert t'.refs[s].pos == HEADER + i;
      } else {
        AppendEndOther(mode, t.heap, c, i);
        assert Referenced(t, i);
        var r :| 0 <= r < |t.refs| && t.refs[r].pos == HEADER + i;
        assert t'.refs[r].pos == HEADER + i;
      }
    }
  }

  /** Appending does not touch the chain of deleted records. */
  lemma AppendedChain(mode: Mode, t: Tab, t': Tab, c: seq<Byte>, chain: seq<nat>)
    requires FreeChain(mode, t, chain) && t'.freePos == t.freePos
    requires t'.heap == t.heap + c && LiveCell(mode, t'.heap, |t.heap|)
    requires forall k :: IsStart(mode, t'.heap, 0, k) <==> IsStart(mode, t.heap, 0, k) || k == |t.heap|
    ensures FreeChain(mode, t', chain)
  {
    hide Len, Tiled, IsStart, Total, Key, Val;
    AppendLinks(mode, t.heap, c, t.freePos, chain);
    forall i ensures DeadAt(mode, t'.heap, i) <==> DeadAt(mode, t.heap, i) {
      if i >= 0 && IsStart(mode, t.heap, 0, i) { AppendEndOther(mode, t.heap, c, i); }
    }
  }

  lemma PutAtEnd(mode: Mode, t: Tab, s: nat, tab2: nat, rnd: nat, key: seq<Byte>, val: seq<Byte>)
    requires TabInv(mode, t) && s < SLOTS && t.refs[s].pos == 0
    requires Accepts(mode, key, val) && |key| < TWO_32 && |val| < TWO_32 && Room(mode, t, key, val)
    requires mode.Variable? || t.freePos == 0
    ensures PutDone(mode, t, PutAt(mode, t, s, tab2, rnd, key, val), s, tab2, rnd, key, val)
    ensures PutAt(mode, t, s, tab2, rnd, key, val).dataFree == t.dataFree
    ensures |PutAt(mode, t, s, tab2, rnd, key, val).heap| == |t.heap| + RecordLen(mode, |key|, |val|)
  {
    hide Len, Tiled, IsStart, Total, Key, Val, Encode, RefsOk, FreeChain, OthersSame, LiveCell;
    TabRefs(mode, t);
    var t', c, h := PutAt(mode, t, s, tab2, rnd, key, val), Encode(mode, key, val), t.heap;
    assert t' == t.(heap := h + c, dataUsed := t.dataUsed + |c|, refs := t.refs[s := Ref(tab2, rnd, HEADER + |h|)]);
    AppendEnd(mode, h, key, val);
    AppendedRefs(mode, t, t', c, s);
    if Reuses(mode) {
      var chain :| FreeChain(mode, t, chain);
      AppendedChain(mode, t, t', c, chain);
    }
  }

  lemma TabRefs(mode: Mode, t: Tab)
    requires TabInv(mode, t)
    ensures |t.refs| == SLOTS
  {
  }

  /** The reused cell rewritten with a new record. */
  lemma Refilled(mode: Mode, h: seq<Byte>, i: nat, key: seq<Byte>, val: seq<Byte>)
    requires mode.Fixed? && Tiled(mode, h, 0) && IsStart(mode, h, 0, i)
    requires Accepts(mode, key, val) && |key| < TWO_32 && |val| < TWO_32
    ensures i + RecordLen(mode, |key|, |val|) <= |h|
    ensures var g := h[..i] + Encode(mode, key, val) + h[i + RecordLen(mode, |key|, |val|)..];
            && Rewritten(mode, h, g, i) && LiveCell(mode, g, i) && Key(mode, g, i) == key && Val(mode, g, i) == val
  {
    StartFits(mode, h, 0, i);
    var c := Encode(mode, key, val);
    var g := h[..i] + c + h[i + |c|..];
    assert g[i..i + |c|] == c;
    EncodeParses(mode, g, i, key, val);
  }

  /** Refs to other cells after one cell is rewritten. */
  lemma RefsBesides(mode: Mode, t: Tab, t': Tab, i: nat, s: nat)
    requires TabInv(mode, t) && Rewritten(mode, t.heap, t'.heap, i) && s < SLOTS && |t'.refs| == SLOTS
    requires forall k :: IsStart(mode, t'.heap, 0, k) <==> IsStart(mode, t.heap, 0, k)
    requires forall r :: 0 <= r < SLOTS && r != s ==> t'.refs[r] == t.refs[r] && t.refs[r].pos != HEADER + i
    ensures forall r :: 0 <= r < SLOTS && r != s ==> RefOk(mode, t', r)
    ensures OthersSame(mode, t, t', s)
    ensures forall k: nat :: k != i && LiveAt(mode, t'.heap, k) && t.refs[s].pos != HEADER + k ==> Referenced(t', k)
  {
    hide Len, Tiled, IsStart, Total, Key, Val;
    forall r | 0 <= r < SLOTS && r != s ensures RefOk(mode, t', r) && Content(mode, t', r) == Content(mode, t, r) {
      RefFacts(mode, t, r);
      if t.refs[r].pos != 0 { OtherCell(mode, t.heap, t'.heap, i, t.refs[r].pos - HEADER); }
    }
    forall k: nat | k != i && LiveAt(mode, t'.heap, k) && t.refs[s].pos != HEADER + k ensures Referenced(t', k) {
      OtherCell(mode, t.heap, t'.heap, i, k);
      assert Referenced(t, k);
      var r :| 0 <= r < |t.refs| && t.refs[r].pos == HEADER + k;
      assert t'.refs[r].pos == HEADER + k;
    }
  }

  lemma DeadBesides(mode: Mode, h: seq<Byte>, g: seq<Byte>, i: nat)
    requires Rewritten(mode, h, g, i)
    requires forall k :: IsStart(mode, g, 0, k) <==> IsStart(mode, h, 0, k)
    ensures forall k :: k != i ==> (DeadAt(mode, g, k) <==> DeadAt(mode, h, k))
  {
    hide Len, Tiled, IsStart, Key, Val;
    forall k | k != i ensures DeadAt(mode, g, k) <==> DeadAt(mode, h, k) {
      if k >= 0 && IsStart(mode, h, 0, k) { OtherCell(mode, h, g, i, k); }
    }
  }

  lemma PutAtFree(mode: Mode, t: Tab, s: nat, tab2: nat, rnd: nat, key: seq<Byte>, val: seq<Byte>)
    requires TabInv(mode, t) && Sound(mode) && s < SLOTS && t.refs[s].pos == 0
    requires Accepts(mode, key, val) && |key| < TWO_32 && |val| < TWO_32
    requires mode.Fixed? && t.freePos != 0
    ensures PutDone(mode, t, PutAt(mode, t, s, tab2, rnd, key, val), s, tab2, rnd, key, val)
    ensures PutAt(mode, t, s, tab2, rnd, key, val).dataFree == t.dataFree - RecordLen(mode, |key|, |val|)
    ensures |PutAt(mode, t, s, tab2, rnd, key, val).heap| == |t.heap|
  {
    hide Tiled, IsStart, Total, Key, Val, Encode, RefsOk, FreeChain, OthersSame, LiveCell, Rewritten, U32At;
    TabRefs(mode, t);
    var t', len, h := PutAt(mode, t, s, tab2, rnd, key, val), RecordLen(mode, |key|, |val|), t.heap;
    var chain :| FreeChain(mode, t, chain);
    var i := FirstFree(mode, t, chain);
    Refilled(mode, h, i, key, val);
    var g := h[..i] + Encode(mode, key, val) + h[i + len..];
    assert t'.heap == g && t'.freePos == U32At(h, i + 5);
    RefillCounts(mode, h, g, i);
    FilledRefs(mode, t, t', i, s);
    ChainPop(mode, t, t', i, chain);
  }

  /** The position the list starts with is a deleted record. */
  lemma FirstFree(mode: Mode, t: Tab, chain: seq<nat>) returns (i: nat)
    requires Reuses(mode) && Sound(mode) && FreeChain(mode, t, chain) && t.freePos != 0
    ensures chain != [] && i == chain[0] && t.freePos == HEADER + i && DeadAt(mode, t.heap, i)
    ensures i + 9 <= |t.heap|
  {
    i := chain[0];
    assert i in chain;
  }

  /** A deleted cell rewritten as a live one moves its bytes from one total to the other. */
  lemma RefillCounts(mode: Mode, h: seq<Byte>, g: seq<Byte>, i: nat)
    requires mode.Fixed? && Rewritten(mode, h, g, i) && i < |h| && h[i] == DELETED && LiveCell(mode, g, i)
    ensures Tiled(mode, g, 0) && forall k :: IsStart(mode, g, 0, k) <==> IsStart(mode, h, 0, k)
    ensures Total(mode, g, 0, true) == Total(mode, h, 0, true) + RecordLen(mode, mode.keyLen, mode.valLen)
    ensures Total(mode, g, 0, false) == Total(mode, h, 0, false) - RecordLen(mode, mode.keyLen, mode.valLen)
  {
    hide Tiled, IsStart, Total;
    Recell(mode, h, g, 0, i);
    assert Share(mode, h, i, true) == 0 == Share(mode, g, i, false);
  }

  /** A deleted cell filled again and an unused ref pointed at it. */
  lemma FilledRefs(mode: Mode, t: Tab, t': Tab, i: nat, s: nat)
    requires TabInv(mode, t) && s < SLOTS && t.refs[s].pos == 0 && DeadAt(mode, t.heap, i)
    requires Rewritten(mode, t.heap, t'.heap, i) && LiveCell(mode, t'.heap, i)
    requires forall k :: IsStart(mode, t'.heap, 0, k) <==> IsStart(mode, t.heap, 0, k)
    requires |t'.refs| == SLOTS && t'.refs[s].pos == HEADER + i
    requires forall r :: 0 <= r < SLOTS && r != s ==> t'.refs[r] == t.refs[r]
    ensures RefsOk(mode, t') && OthersSame(mode, t, t', s)
  {
    hide Len, Tiled, IsStart, Total, Key, Val;
    forall r | 0 <= r < SLOTS && r != s ensures t.refs[r].pos != HEADER + i { RefFacts(mode, t, r); }
    RefsBesides(mode, t, t', i, s);
    assert RefOk(mode, t', s);
    forall k: nat | LiveAt(mode, t'.heap, k) ensures Referenced(t', k) {
      if k == i { assert t'.refs[s].pos == HEADER + k; }
    }
  }

  /** Reusing the first deleted record takes it off the chain. */
  lemma ChainPop(mode: Mode, t: Tab, t': Tab, i: nat, chain: seq<nat>)
    requires Reuses(mode) && Sound(mode) && FreeChain(mode, t, chain) && chain != [] && chain[0] == i
    requires Rewritten(mode, t.heap, t'.heap, i) && t'.heap[i] != DELETED
    requires forall k :: IsStart(mode, t'.heap, 0, k) <==> IsStart(mode, t.heap, 0, k)
    requires i + 9 <= |t.heap| && t'.freePos == U32At(t.heap, i + 5)
    ensures FreeChain(mode, t', chain[1..])
  {
    hide Len, Tiled, IsStart;
    DeadBesides(mode, t.heap, t'.heap, i);
    var rest := chain[1..];
    assert forall k :: k in rest <==> k in chain && k != i by { assert chain == [i] + rest; }
    SameLinks(mode, t.heap, t'.heap, i, U32At(t.heap, i + 5), rest);
  }

  /** Deleting a record puts it in front of the chain. */
  lemma ChainPush(mode: Mode, t: Tab, t': Tab, i: nat, chain: seq<nat>)
    requires Reuses(mode) && Sound(mode) && FreeChain(mode, t, chain) && LiveAt(mode, t.heap, i)
    requires Rewritten(mode, t.heap, t'.heap, i) && t'.heap[i] == DELETED
    requires forall k :: IsStart(mode, t'.heap, 0, k) <==> IsStart(mode, t.heap, 0, k)
    requires i + 9 <= |t.heap| && U32At(t'.heap, i + 5) == t.freePos && t'.freePos == HEADER + i
    ensures FreeChain(mode, t', [i] + chain)
  {
    hide Len, Tiled, IsStart;
    DeadBesides(mode, t.heap, t'.heap, i);
    assert i !in chain;
    SameLinks(mode, t.heap, t'.heap, i, t.freePos, chain);
    var longer := [i] + chain;
    assert longer[1..] == chain;
    assert forall k :: k in longer <==> k == i || k in chain;
  }

  /** PutAt keeps the tab and adds exactly the new entry. */
  lemma PutKeeps(mode: Mode, t: Tab, s: nat, tab2: nat, rnd: nat, key: seq<Byte>, val: seq<Byte>)
    requires TabInv(mode, t) && Sound(mode) && s < SLOTS && t.refs[s].pos == 0
    requires Accepts(mode, key, val) && Takes(mode, t, key, val)
    ensures PutDone(mode, t, PutAt(mode, t, s, tab2, rnd, key, val), s, tab2, rnd, key, val)
    ensures PutAt(mode, t, s, tab2, rnd, key, val).dataFree <= t.dataFree
  {
    if mode.Variable? || t.freePos == 0 {
      PutAtEnd(mode, t, s, tab2, rnd, key, val);
    } else {
      PutAtFree(mode, t, s, tab2, rnd, key, val);
    }
  }

  /** Where a put goes: in fixed mode into the first deleted record if there is one, moving its bytes from free to used;
      otherwise behind everything, leaving the free bytes as they are. */
  lemma PutPlace(mode: Mode, t: Tab, s: nat, tab2: nat, rnd: nat, key: seq<Byte>, val: seq<Byte>)
    requires TabInv(mode, t) && Sound(mode) && s < SLOTS && t.refs[s].pos == 0
    requires Accepts(mode, key, val) && Takes(mode, t, key, val)
    ensures var t', n := PutAt(mode, t, s, tab2, rnd, key, val), (if mode.Fixed? then 1 else 9) + |key| + |val|;
            && |t'.refs| == SLOTS && t'.refs[s].tab2 == tab2 && t'.refs[s].rnd == rnd
            && (forall r :: 0 <= r < SLOTS && r != s ==> t'.refs[r] == t.refs[r])
            && if mode.Fixed? && t.freePos != 0
               then t'.refs[s].pos == t.freePos && |t'.heap| == |t.heap| && t'.dataFree == t.dataFree - n
               else t'.refs[s].pos == 65560 + |t.heap| && |t'.heap| == |t.heap| + n && t'.dataFree == t.dataFree && t'.freePos == t.freePos
  {
    hide Len, Tiled, IsStart, Total, Key, Val, Encode, RefsOk, FreeChain, OthersSame, LiveCell;
    TabRefs(mode, t);
    if mode.Fixed? && t.freePos != 0 {
      PutAtFree(mode, t, s, tab2, rnd, key, val);
      var chain :| FreeChain(mode, t, chain);
      FreeRecordFits(mode, t, chain, key, val);
    } else {
      PutAtEnd(mode, t, s, tab2, rnd, key, val);
    }
  }

  lemma FreeRecordFits(mode: Mode, t: Tab, chain: seq<nat>, key: seq<Byte>, val: seq<Byte>)
    requires TabInv(mode, t) && Reuses(mode) && Sound(mode) && FreeChain(mode, t, chain) && t.freePos != 0
    requires Accepts(mode, key, val) && |key| < TWO_32 && |val| < TWO_32
    ensures t.freePos >= HEADER && t.freePos - HEADER + 9 <= |t.heap| && t.freePos - HEADER + RecordLen(mode, |key|, |val|) <= |t.heap|
  {
    hide Encode;
    var i := FirstFree(mode, t, chain);
    Refilled(mode, t.heap, i, key, val);
  }

  /** Deleting moves the record's bytes from used to free. In fixed mode, with room for the link, the next put in the tab
      goes exactly where the deleted record was; in the other modes it is not reused. */
  lemma DeletedIsNext(mode: Mode, t: Tab, s: nat, r: nat, tab2: nat, rnd: nat, key: seq<Byte>, val: seq<Byte>)
    requires TabInv(mode, t) && Sound(mode) && s < SLOTS && t.refs[s].pos != 0
    requires r < SLOTS && (t.refs[r].pos == 0 || r == s) && Accepts(mode, key, val)
    ensures RefOk(mode, t, s) && t.freePos < TWO_32 && |t.heap| < TWO_32
    ensures var t' := DeleteAt(mode, t, s);
            && t'.dataFree - t.dataFree == t.dataUsed - t'.dataUsed == Len(mode, t.heap, t.refs[s].pos - HEADER)
            && TabInv(mode, t') && |t'.refs| == SLOTS && t'.refs[r].pos == 0
            && (Takes(mode, t', key, val) ==>
                  var pos := PutAt(mode, t', r, tab2, rnd, key, val).refs[r].pos;
                  if mode.Fixed? && mode.keyLen + mode.valLen >= 8 then pos == t.refs[s].pos else pos == 65560 + |t.heap|)
  {
    hide TabInv, Tiled, IsStart, Total, Encode, LiveCell, OthersSame, PutAt;
    NotReused(mode, t);
    DeleteKeeps(mode, t, s);
    var t' := DeleteAt(mode, t, s);
    if Takes(mode, t', key, val) { PutPlace(mode, t', r, tab2, rnd, key, val); }
  }

  lemma NotReused(mode: Mode, t: Tab)
    requires TabInv(mode, t)
    ensures !Reuses(mode) ==> t.freePos == 0
    ensures |t.refs| == SLOTS
  {
  }

  // ---- Deleting -----------------------------------------------------------------------

  lemma MarkedCell(mode: Mode, h: seq<Byte>, i: nat, freePos: nat)
    requires Tiled(mode, h, 0) && IsStart(mode, h, 0, i) && LiveCell(mode, h, i) && Sound(mode)
    requires freePos < TWO_32 && |h| < TWO_32
    ensures mode.Variable? ==> i + 5 <= |h| && KeyLen(mode, h, i) + ValLen(mode, h, i) + 4 < TWO_32
    ensures var g := Marked(mode, h, i, KeyLen(mode, h, i), ValLen(mode, h, i), freePos);
            && Rewritten(mode, h, g, i) && g[i] == DELETED
            && (Reuses(mode) ==> i + 9 <= |h| && U32At(g, i + 5) == freePos)
  {
    hide U32At, U32, IsStart, Tiled;
    var k, v := KeyLen(mode, h, i), ValLen(mode, h, i);
    match mode {
      case Variable =>
        U32RoundTrip(h[i := DELETED], i + 1, k + 4 + v);
      case Fixed(_, _) =>
        if Reuses(mode) {
          var g := Marked(mode, h, i, k, v, freePos);
          assert g[i + 5..i + 9] == U32(freePos);
          ReadU32(g, i + 5, freePos);
        }
    }
  }

  /** DeleteAt keeps the tab and removes exactly that entry. */
  lemma DeleteKeeps(mode: Mode, t: Tab, s: nat)
    requires TabInv(mode, t) && Sound(mode) && s < SLOTS && t.refs[s].pos != 0
    ensures RefOk(mode, t, s) && t.freePos < TWO_32 && |t.heap| < TWO_32
    ensures var t' := DeleteAt(mode, t, s);
            && TabInv(mode, t') && OthersSame(mode, t, t', s) && Content(mode, t', s) == None
            && t'.refs[s].pos == 0
            && (forall r :: 0 <= r < SLOTS && r != s ==> t'.refs[r] == t.refs[r])
            && t'.dataUsed == t.dataUsed - Len(mode, t.heap, t.refs[s].pos - HEADER)
            && |t'.heap| == |t.heap|
  {
    hide Len, Tiled, IsStart, Total, Key, Val, KeyLen, ValLen, Marked;
    RefFacts(mode, t, s);
    FreePosSmall(mode, t);
    var i, h := t.refs[s].pos - HEADER, t.heap;
    MarkedCell(mode, h, i, t.freePos);
    var g := Marked(mode, h, i, KeyLen(mode, h, i), ValLen(mode, h, i), t.freePos);
    var t' := DeleteAt(mode, t, s);
    Recell(mode, h, g, 0, i);
    assert Share(mode, h, i, true) == Len(mode, h, i) && Share(mode, g, i, false) == Len(mode, h, i);
    RefsBesides(mode, t, t', i, s);
    assert forall k: nat :: LiveAt(mode, t'.heap, k) ==> Referenced(t', k);
    if Reuses(mode) {
      var chain :| FreeChain(mode, t, chain);
      ChainPush(mode, t, t', i, chain);
      assert FreeChain(mode, t', [i] + chain);
    }
  }

  lemma FreePosSmall(mode: Mode, t: Tab)
    requires TabInv(mode, t)
    ensures t.freePos < TWO_32
  {
    if Reuses(mode) {
      var chain :| FreeChain(mode, t, chain);
      if chain != [] { assert chain[0] in chain; }
    }
  }

  // ---- Updating in place ------------------------------------------------------------------

  lemma OverwrittenCell(mode: Mode, h: seq<Byte>, i: nat, val: seq<Byte>)
    requires Tiled(mode, h, 0) && IsStart(mode, h, 0, i) && LiveCell(mode, h, i) && |val| == ValLen(mode, h, i)
    ensures ValAt(mode, h, i) + |val| == i + Len(mode, h, i)
    ensures var g := h[..ValAt(mode, h, i)] + val + h[ValAt(mode, h, i) + |val|..];
            && Rewritten(mode, h, g, i) && LiveCell(mode, g, i) && Key(mode, g, i) == Key(mode, h, i) && Val(mode, g, i) == val
  {
    hide U32At, IsStart, Tiled;
    var v := ValAt(mode, h, i);
    var g := h[..v] + val + h[v + |val|..];
    if mode.Variable? {
      SameU32(h, g, i + 1, i, v);
      SameU32(h, g, i + 5 + U32At(h, i + 1), i, v);
    }
    assert g[v..v + |val|] == val;
  }

  /** The refs after a live cell is rewritten as a live cell. */
  lemma UpdatedRefs(mode: Mode, t: Tab, t': Tab, i: nat, s: nat)
    requires TabInv(mode, t) && s < SLOTS && t.refs[s].pos == HEADER + i && t'.refs == t.refs
    requires Rewritten(mode, t.heap, t'.heap, i) && LiveCell(mode, t'.heap, i)
    requires forall k :: IsStart(mode, t'.heap, 0, k) <==> IsStart(mode, t.heap, 0, k)
    ensures RefsOk(mode, t') && OthersSame(mode, t, t', s)
  {
    hide Len, Tiled, IsStart, Total, Key, Val;
    RefsBesides(mode, t, t', i, s);
    assert RefOk(mode, t', s);
    forall k: nat | LiveAt(mode, t'.heap, k) ensures Referenced(t', k) {
      if k == i { assert t'.refs[s].pos == HEADER + k; }
    }
  }

  lemma UpdatedChain(mode: Mode, t: Tab, t': Tab, i: nat, chain: seq<nat>)
    requires Reuses(mode) && Sound(mode) && FreeChain(mode, t, chain) && t'.freePos == t.freePos
    requires Rewritten(mode, t.heap, t'.heap, i) && LiveCell(mode, t.heap, i) && LiveCell(mode, t'.heap, i)
    requires forall k :: IsStart(mode, t'.heap, 0, k) <==> IsStart(mode, t.heap, 0, k)
    ensures FreeChain(mode, t', chain)
  {
    hide Len, Tiled, IsStart;
    DeadBesides(mode, t.heap, t'.heap, i);
    SameLinks(mode, t.heap, t'.heap, i, t.freePos, chain);
  }

  /** Rewriting a live cell as a live cell changes neither total. */
  lemma UpdateCounts(mode: Mode, h: seq<Byte>, g: seq<Byte>, i: nat)
    requires Rewritten(mode, h, g, i) && LiveCell(mode, h, i) && LiveCell(mode, g, i)
    ensures |g| == |h|
    ensures Tiled(mode, g, 0) && forall k :: IsStart(mode, g, 0, k) <==> IsStart(mode, h, 0, k)
    ensures forall b :: Total(mode, g, 0, b) == Total(mode, h, 0, b)
  {
    hide Tiled, IsStart, Total, Len;
    Recell(mode, h, g, 0, i);
    assert forall b :: Share(mode, h, i, b) == Share(mode, g, i, b);
  }

  /** UpdateAt keeps the tab and changes exactly that entry's value. */
  lemma UpdateKeeps(mode: Mode, t: Tab, s: nat, val: seq<Byte>)
    requires TabInv(mode, t) && Sound(mode) && s < SLOTS && t.refs[s].pos != 0
    ensures RefOk(mode, t, s) && Content(mode, t, s).Some?
    ensures |val| == ValLen(mode, t.heap, t.refs[s].pos - HEADER) ==>
              var t' := UpdateAt(mode, t, s, val);
              && TabInv(mode, t') && OthersSame(mode, t, t', s) && t'.refs == t.refs
              && Content(mode, t', s) == Some(Content(mode, t, s).value.(val := val))
              && t'.dataUsed == t.dataUsed && t'.dataFree == t.dataFree
  {
    hide Len, Tiled, IsStart, Total, Key, Val, ValLen, ValAt, RefsOk, FreeChain, OthersSame, LiveCell, Rewritten;
    RefFacts(mode, t, s);
    if |val| == ValLen(mode, t.heap, t.refs[s].pos - HEADER) {
      var i, h := t.refs[s].pos - HEADER, t.heap;
      OverwrittenCell(mode, h, i, val);
      var t' := UpdateAt(mode, t, s, val);
      UpdateCounts(mode, h, t'.heap, i);
      UpdatedRefs(mode, t, t', i, s);
      if Reuses(mode) {
        var chain :| FreeChain(mode, t, chain);
        UpdatedChain(mode, t, t', i, chain);
      }
    }
  }

  /** A ref is used exactly when it stands for an entry. */
  lemma ContentUsed(mode: Mode, t: Tab, s: nat)
    requires TabInv(mode, t) && s < SLOTS
    ensures |t.refs| == SLOTS
    ensures Content(mode, t, s).Some? <==> t.refs[s].pos != 0
    ensures t.refs[s].pos != 0 ==> Content(mode, t, s).value.tab2 == t.refs[s].tab2 && Content(mode, t, s).value.rnd == t.refs[s].rnd
  {
    hide Len, Tiled, IsStart, Total, Key, Val;
    RefFacts(mode, t, s);
  }

  lemma EmptyTabInv(mode: Mode)
    ensures TabInv(mode, EmptyTab())
    ensures forall s :: 0 <= s < SLOTS ==> Content(mode, EmptyTab(), s) == None
  {
    if Reuses(mode) { assert FreeChain(mode, EmptyTab(), []); }
  }

  // ---- The heap counters ------------------------------------------------------------------

  /** tab_used is the header plus the live plus the deleted bytes. */
  lemma UsedIsLivePlusFree(mode: Mode, t: Tab)
    requires TabInv(mode, t)
    ensures HEADER + |t.heap| == HEADER + t.dataUsed + t.dataFree
  {
    TotalsSum(mode, t.heap, 0);
  }

  lemma {:induction false} NoLiveBytes(mode: Mode, h: seq<Byte>, j: nat)
    requires Tiled(mode, h, j)
    requires forall i: nat :: IsStart(mode, h, j, i) ==> i >= |h| || h[i] == DELETED
    ensures Total(mode, h, j, true) == 0
    decreases |h| - j
  {
    hide Len;
    if j < |h| {
      assert IsStart(mode, h, j, j);
      assert forall i: nat :: IsStart(mode, h, j + Len(mode, h, j), i) ==> IsStart(mode, h, j, i);
      NoLiveBytes(mode, h, j + Len(mode, h, j));
    }
  }

  /** A tab whose refs are all unused has no live bytes. */
  lemma NoRefsNoBytes(mode: Mode, t: Tab)
    requires TabInv(mode, t) && forall s :: 0 <= s < SLOTS ==> t.refs[s].pos == 0
    ensures t.dataUsed == 0
  {
    hide Len, Tiled, IsStart, Total;
    forall i: nat ensures !Referenced(t, i) {}
    assert forall i: nat :: IsStart(mode, t.heap, 0, i) && i < |t.heap| && t.heap[i] != DELETED ==> LiveAt(mode, t.heap, i);
    NoLiveBytes(mode, t.heap, 0);
  }

  // ---- Where the link does not fit -----------------------------------------------------------

  /** Deleting a record writes only that record's bytes. */
  ghost predicate DeletesInside(mode: Mode) {
    forall t: Tab, s: nat :: TabInv(mode, t) && s < SLOTS && t.refs[s].pos != 0 ==> InsideOf(mode, t, s)
  }

  ghost predicate InsideOf(mode: Mode, t: Tab, s: nat) {
    && s < |t.refs| && t.refs[s].pos >= HEADER && LiveCell(mode, t.heap, t.refs[s].pos - HEADER)
    && t.freePos < TWO_32 && |t.heap| < TWO_32
    && var i := t.refs[s].pos - HEADER;
       Agree(t.heap, DeleteAt(mode, t, s).heap, 0, i) && Agree(t.heap, DeleteAt(mode, t, s).heap, i + Len(mode, t.heap, i), |t.heap|)
  }

  /** In fixed-length mode that holds exactly when key and value together are no link at all or have room for one. */
  lemma LinkFits(mode: Mode)
    requires mode.Fixed?
    ensures DeletesInside(mode) <==> mode.keyLen + mode.valLen < 4 || mode.keyLen + mode.valLen >= 8
  {
    if Sound(mode) {
      forall t: Tab, s: nat | TabInv(mode, t) && s < SLOTS && t.refs[s].pos != 0 ensures InsideOf(mode, t, s) {
        hide Len, Tiled, IsStart, Total, KeyLen, ValLen, Marked;
        RefFacts(mode, t, s);
        FreePosSmall(mode, t);
        MarkedCell(mode, t.heap, t.refs[s].pos - HEADER, t.freePos);
      }
    } else {
      var t := TwoRecords(mode);
      assert !InsideOf(mode, t, 0);
    }
  }

  /** Two records, the link of the first reaching into the second. */
  lemma TwoRecords(mode: Mode) returns (t: Tab)
    requires mode.Fixed? && !Sound(mode)
    ensures TabInv(mode, t) && t.refs[0].pos != 0 && !InsideOf(mode, t, 0)
  {
    hide Len, Tiled, IsStart, Total, Encode, TabInv, InsideOf;
    var key, val := seq(mode.keyLen, i => 0 as Byte), seq(mode.valLen, i => 0 as Byte);
    var e := EmptyTab();
    EmptyTabInv(mode);
    PutAtEnd(mode, e, 0, 0, 0, key, val);
    var a := PutAt(mode, e, 0, 0, 0, key, val);
    PutAtEnd(mode, a, 1, 0, 0, key, val);
    t := PutAt(mode, a, 1, 0, 0, key, val);
    var c := Encode(mode, key, val);
    assert t.heap == c + c by { assert [] + c == c; }
    assert c[0] == LIVE by { FirstByte(mode, key, val); }
    LinkOverruns(mode, t);
  }

  lemma FirstByte(mode: Mode, key: seq<Byte>, val: seq<Byte>)
    requires |key| < TWO_32 && |val| < TWO_32
    ensures Encode(mode, key, val)[0] == LIVE
  {
  }

  lemma LinkOverruns(mode: Mode, t: Tab)
    requires mode.Fixed? && !Sound(mode)
    requires t.freePos == 0 && |t.refs| > 0 && t.refs[0].pos == HEADER
    requires var n := RecordLen(mode, mode.keyLen, mode.valLen); |t.heap| == 2 * n && t.heap[0] == t.heap[n] == LIVE
    ensures !InsideOf(mode, t, 0)
  {
    var n := RecordLen(mode, mode.keyLen, mode.valLen);
    assert LiveCell(mode, t.heap, 0);
    var g := DeleteAt(mode, t, 0).heap;
    assert U32(0) == [0, 0, 0, 0];
    assert g[n] == U32(0)[n - 5] == 0;
    assert t.heap[n] != g[n];
  }
}
