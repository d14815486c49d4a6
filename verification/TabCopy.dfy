/** The copy loop shared by shrinking and parting: refs move from one tab to a new one with their records,
    keeping row and place in the row. */
module TabCopy {
  import opened Common
  import opened Bytes
  import opened TabHeap
  import opened TabFile

  /** Which refs to copy: all, or those whose index the directory now sends to a tab. */
  datatype Which = All | GoingTo(redirect: seq<nat>, tab: nat)

  predicate Selects(w: Which, tab2: nat) {
    match w
    case All => true
    case GoingTo(redirect, tab) => tab2 < |redirect| && redirect[tab2] == tab
  }

  /** The tab read from and marked, and the tab written to. */
  datatype Pair = Pair(from: Tab, to: Tab)

  /** During a copy, with slots from n on still to visit. The bytes moved fit because they came out of a heap that fits. */
  ghost predicate CopyOk(mode: Mode, p: Pair, n: nat) {
    && Sound(mode) && TabInv(mode, p.from) && TabInv(mode, p.to) && p.to.dataFree == 0
    && HEADER + |p.to.heap| + p.from.dataUsed < TWO_32
    && forall s :: n <= s < SLOTS ==> p.to.refs[s].pos == 0
  }

  predicate Moves(w: Which, t: Tab, s: nat)
    requires s < |t.refs|
  {
    t.refs[s].pos != 0 && Selects(w, t.refs[s].tab2)
  }

  /** A used ref whose record can be read and marked. */
  predicate Readable(mode: Mode, t: Tab, s: nat) {
    && s < |t.refs| && t.refs[s].pos >= HEADER && LiveCell(mode, t.heap, t.refs[s].pos - HEADER)
    && t.freePos < TWO_32 && |t.heap| < TWO_32
    && |Key(mode, t.heap, t.refs[s].pos - HEADER)| < TWO_32 && |Val(mode, t.heap, t.refs[s].pos - HEADER)| < TWO_32
  }

  /** SHF_TAB_REF_COPY for one used ref: append to the new tab, mark deleted in the old one. */
  function MoveRef(mode: Mode, p: Pair, s: nat): Pair
    requires Readable(mode, p.from, s) && s < |p.to.refs|
  {
    var e := Content(mode, p.from, s).value;
    Pair(DeleteAt(mode, p.from, s), PutAt(mode, p.to, s, e.tab2, e.rnd, e.key, e.val))
  }

  /** The entry left one tab for the same slot of the other; nothing else changed. */
  ghost predicate RefMoved(mode: Mode, p: Pair, p': Pair, s: nat) {
    && CopyOk(mode, p', s + 1)
    && |p.from.refs| == |p.to.refs| == |p'.from.refs| == |p'.to.refs| == SLOTS && s < SLOTS
    && OthersSame(mode, p.from, p'.from, s) && Content(mode, p'.from, s) == None
    && (forall r :: 0 <= r < SLOTS && r != s ==> p'.from.refs[r] == p.from.refs[r])
    && OthersSame(mode, p.to, p'.to, s) && Content(mode, p'.to, s) == Content(mode, p.from, s)
    && p'.from.dataUsed + p'.to.dataUsed == p.from.dataUsed + p.to.dataUsed
  }

  /** A record's own lengths: it fits where its bytes came from. */
  lemma EntryFits(mode: Mode, t: Tab, s: nat)
    requires TabInv(mode, t) && s < SLOTS && t.refs[s].pos != 0
    ensures Readable(mode, t, s) && Content(mode, t, s).Some?
    ensures var e := Content(mode, t, s).value;
            && Accepts(mode, e.key, e.val)
            && Len(mode, t.heap, t.refs[s].pos - HEADER) == RecordLen(mode, |e.key|, |e.val|) <= |t.heap| < TWO_32
            && e.tab2 == t.refs[s].tab2 && e.rnd == t.refs[s].rnd
  {
    hide U32At, IsStart, Total, Tiled;
    RefFacts(mode, t, s);
    FreePosSmall(mode, t);
  }

  lemma {:induction false} CellWithinTotal(mode: Mode, h: seq<Byte>, j: nat, i: nat)
    requires IsStart(mode, h, j, i) && i < |h| && h[i] != DELETED
    ensures Len(mode, h, i) <= Total(mode, h, j, true)
    decreases |h| - j
  {
    hide Len;
    if i != j { CellWithinTotal(mode, h, j + Len(mode, h, j), i); }
  }

  lemma MoveRefKeeps(mode: Mode, p: Pair, s: nat)
    requires s < SLOTS && CopyOk(mode, p, s) && |p.from.refs| == |p.to.refs| == SLOTS && p.from.refs[s].pos != 0
    ensures Readable(mode, p.from, s) && RefMoved(mode, p, MoveRef(mode, p, s), s)
  {
    hide Len, Tiled, IsStart, Total, Key, Val, Append, Marked, TabInv, Content, DeleteAt, PutAt;
    EntryFits(mode, p.from, s);
    var e := Content(mode, p.from, s).value;
    DeleteKeeps(mode, p.from, s);
    NoFreeNoChain(mode, p.to);
    LiveWithin(mode, p.from, s);
    PutAtEnd(mode, p.to, s, e.tab2, e.rnd, e.key, e.val);
    PutAtRefs(mode, p.to, s, e.tab2, e.rnd, e.key, e.val);
    TabShape(mode, DeleteAt(mode, p.from, s));
  }

  lemma PutAtRefs(mode: Mode, t: Tab, s: nat, tab2: nat, rnd: nat, key: seq<Byte>, val: seq<Byte>)
    requires s < |t.refs| && |key| < TWO_32 && |val| < TWO_32
    ensures |PutAt(mode, t, s, tab2, rnd, key, val).refs| == |t.refs|
    ensures forall r :: 0 <= r < |t.refs| && r != s ==> PutAt(mode, t, s, tab2, rnd, key, val).refs[r] == t.refs[r]
  {
    hide Encode, Len;
  }

  lemma TabShape(mode: Mode, t: Tab)
    requires TabInv(mode, t)
    ensures |t.refs| == SLOTS && HEADER + |t.heap| < TWO_32
  {
  }

  lemma LiveWithin(mode: Mode, t: Tab, s: nat)
    requires TabInv(mode, t) && s < SLOTS && t.refs[s].pos != 0
    ensures t.refs[s].pos >= HEADER && Len(mode, t.heap, t.refs[s].pos - HEADER) <= t.dataUsed
  {
    RefFacts(mode, t, s);
    CellWithinTotal(mode, t.heap, 0, t.refs[s].pos - HEADER);
  }

  /** Without garbage there is nothing to reuse. */
  lemma NoFreeNoChain(mode: Mode, t: Tab)
    requires TabInv(mode, t) && t.dataFree == 0
    ensures t.freePos == 0
  {
    hide Len;
    if Reuses(mode) {
      var chain :| FreeChain(mode, t, chain);
      if chain != [] {
        assert chain[0] in chain && DeadAt(mode, t.heap, chain[0]);
        DeadWithinTotal(mode, t.heap, 0, chain[0]);
        StartFits(mode, t.heap, 0, chain[0]);
      }
    }
  }

  lemma {:induction false} DeadWithinTotal(mode: Mode, h: seq<Byte>, j: nat, i: nat)
    requires IsStart(mode, h, j, i) && i < |h| && h[i] == DELETED
    ensures Len(mode, h, i) <= Total(mode, h, j, false)
    decreases |h| - j
  {
    hide Len;
    if i != j { DeadWithinTotal(mode, h, j + Len(mode, h, j), i); }
  }

  /** What the copy of the first n slots has done. */
  ghost predicate Copied(mode: Mode, w: Which, p: Pair, p': Pair, n: nat) {
    && |p.from.refs| == |p.to.refs| == |p'.from.refs| == |p'.to.refs| == SLOTS && n <= SLOTS
    && CopyOk(mode, p', n)
    && (forall s :: 0 <= s < SLOTS ==>
          Content(mode, p'.to, s) == if s < n && Moves(w, p.from, s) then Content(mode, p.from, s) else Content(mode, p.to, s))
    && (forall s :: 0 <= s < SLOTS ==>
          Content(mode, p'.from, s) == if s < n && Moves(w, p.from, s) then None else Content(mode, p.from, s))
    && (forall s :: n <= s < SLOTS ==> p'.from.refs[s] == p.from.refs[s])
    && p'.from.dataUsed + p'.to.dataUsed == p.from.dataUsed + p.to.dataUsed
  }

  /** The body of the copy loop at slot s. */
  ghost function CopySlot(mode: Mode, w: Which, p: Pair, s: nat): Pair
    requires s < |p.from.refs|
  {
    if Moves(w, p.from, s) && Readable(mode, p.from, s) && s < |p.to.refs| then MoveRef(mode, p, s) else p
  }

  /** The copy loop over the first n slots: rows in order, refs in order within a row. */
  ghost function Copy(mode: Mode, w: Which, p: Pair, n: nat): (p': Pair)
    requires n <= SLOTS && CopyOk(mode, p, 0) && |p.from.refs| == |p.to.refs| == SLOTS
    ensures Copied(mode, w, p, p', n)
  {
    if n == 0 then p
    else
      var q := Copy(mode, w, p, n - 1);
      CopyMore(mode, w, p, q, n - 1);
      CopySlot(mode, w, q, n - 1)
  }

  lemma CopyMore(mode: Mode, w: Which, p: Pair, q: Pair, n: nat)
    requires n < SLOTS && Copied(mode, w, p, q, n)
    ensures Copied(mode, w, p, CopySlot(mode, w, q, n), n + 1)
    ensures Moves(w, q.from, n) ==> Readable(mode, q.from, n)
  {
    hide TabInv, Content, MoveRef, Readable;
    if Moves(w, q.from, n) { MoveRefKeeps(mode, q, n); }
  }
}
