/** A mapped tab file, changed by single stores in the code's order, proved against the tab as a value. */
module TabMemory {
  import opened Common
  import opened Bytes
  import opened TabHeap
  import opened TabFile
  import opened TabCopy
  import opened WindowModel
  import opened WindowOps
  import TabMapping

  // ---- Stores -------------------------------------------------------------------------

  /** Bytes with s in place of those from i on. */
  function PutBytes(d: seq<Byte>, i: nat, s: seq<Byte>): (r: seq<Byte>)
    requires i + |s| <= |d|
    ensures |r| == |d|
  {
    d[..i] + s + d[i + |s|..]
  }

  /** SHF_U32_AT, assigned: the four bytes of a number, lowest first. */
  method StoreU32(a: array<Byte>, i: nat, v: nat)
    requires i + 4 <= a.Length && v < TWO_32
    modifies a
    ensures a[..] == SetU32(old(a[..]), i, v)
  {
    a[i] := v % 0x100;
    a[i + 1] := v / 0x100 % 0x100;
    a[i + 2] := v / 0x1_0000 % 0x100;
    a[i + 3] := v / 0x100_0000 % 0x100;
  }

  lemma PutMore(d: seq<Byte>, i: nat, s: seq<Byte>, k: nat)
    requires i + |s| <= |d| && k < |s|
    ensures PutBytes(d, i, s[..k])[i + k := s[k]] == PutBytes(d, i, s[..k + 1])
  {
  }

  lemma PutAll(d: seq<Byte>, i: nat, s: seq<Byte>)
    requires i + |s| <= |d|
    ensures PutBytes(d, i, s[..0]) == d && PutBytes(d, i, s[..|s|]) == PutBytes(d, i, s)
  {
    assert s[..|s|] == s;
  }

  /** SHF_MEM_AT, assigned. */
  method StoreBytes(a: array<Byte>, i: nat, s: seq<Byte>)
    requires i + |s| <= a.Length
    modifies a
    ensures a[..] == PutBytes(old(a[..]), i, s)
  {
    hide PutBytes;
    ghost var d := a[..];
    PutAll(d, i, s);
    for k := 0 to |s|
      invariant a[..] == PutBytes(d, i, s[..k])
    {
      PutMore(d, i, s, k);
      a[i + k] := s[k];
    }
  }

  // ---- A record written field by field ---------------------------------------------------

  /** The bytes after the stores of an append: type, lengths, key, value. */
  function Written(mode: Mode, d: seq<Byte>, i: nat, key: seq<Byte>, val: seq<Byte>): (r: seq<Byte>)
    requires |key| < TWO_32 && |val| < TWO_32 && i + RecordLen(mode, |key|, |val|) <= |d|
    ensures |r| == |d|
  {
    var d1 := d[i := LIVE];
    var d2 := if mode.Fixed? then d1 else SetU32(SetU32(d1, i + 1, |key|), i + 5 + |key|, |val|);
    PutBytes(PutBytes(d2, i + 1 + LenLen(mode), key), i + 1 + LenLen(mode) + |key| + LenLen(mode), val)
  }

  lemma SetSlice(d: seq<Byte>, i: nat, v: nat)
    requires i + 4 <= |d| && v < TWO_32
    ensures SetU32(d, i, v)[i..i + 4] == U32(v)
    ensures SetU32(d, i, v) == PutBytes(d, i, U32(v))
  {
    var r := SetU32(d, i, v);
    assert r[i..i + 4] == [r[i], r[i + 1], r[i + 2], r[i + 3]];
    var p := PutBytes(d, i, U32(v));
    assert forall k :: 0 <= k < |d| ==> r[k] == p[k];
  }

  /** Filling a stretch piece by piece. */
  lemma PutNext(d: seq<Byte>, i: nat, s: seq<Byte>, t: seq<Byte>)
    requires i + |s| + |t| <= |d|
    ensures PutBytes(PutBytes(d, i, s), i + |s|, t) == PutBytes(d, i, s + t)
  {
    var a, b := PutBytes(PutBytes(d, i, s), i + |s|, t), PutBytes(d, i, s + t);
    assert forall k :: 0 <= k < |d| ==> a[k] == b[k];
  }

  /** Two stores to different stretches can change places. */
  lemma PutSwap(d: seq<Byte>, i: nat, s: seq<Byte>, j: nat, t: seq<Byte>)
    requires i + |s| <= j && j + |t| <= |d|
    ensures PutBytes(PutBytes(d, j, t), i, s) == PutBytes(PutBytes(d, i, s), j, t)
  {
    var a, b := PutBytes(PutBytes(d, j, t), i, s), PutBytes(PutBytes(d, i, s), j, t);
    assert forall k :: 0 <= k < |d| ==> a[k] == b[k];
  }

  /** The stores of an append leave exactly the record. */
  lemma WrittenIs(mode: Mode, d: seq<Byte>, i: nat, key: seq<Byte>, val: seq<Byte>)
    requires |key| < TWO_32 && |val| < TWO_32 && i + RecordLen(mode, |key|, |val|) <= |d|
    ensures Written(mode, d, i, key, val) == PutBytes(d, i, Encode(mode, key, val))
  {
    hide PutBytes, SetU32, U32;
    var d1 := d[i := LIVE];
    assert d1 == PutBytes(d, i, [LIVE]) by { PutOne(d, i, LIVE); }
    if mode.Fixed? {
      PutNext(d, i, [LIVE], key);
      PutNext(d, i, [LIVE] + key, val);
    } else {
      var k, v := U32(|key|), U32(|val|);
      SetSlice(d1, i + 1, |key|);
      var d2 := PutBytes(d1, i + 1, k);
      SetSlice(d2, i + 5 + |key|, |val|);
      PutSwap(d2, i + 5, key, i + 5 + |key|, v);
      PutNext(d, i, [LIVE], k);
      PutNext(d, i, [LIVE] + k, key);
      PutNext(d, i, [LIVE] + k + key, v);
      PutNext(d, i, [LIVE] + k + key + v, val);
    }
  }

  lemma PutOne(d: seq<Byte>, i: nat, b: Byte)
    requires i < |d|
    ensures d[i := b] == PutBytes(d, i, [b])
  {
  }

  /** What lies before a bound does not see what is stored behind it. */
  lemma PutWithin(d: seq<Byte>, n: nat, i: nat, s: seq<Byte>)
    requires i + |s| <= n <= |d|
    ensures PutBytes(d, i, s)[..n] == PutBytes(d[..n], i, s)
  {
  }

  lemma PutBehind(d: seq<Byte>, n: nat, s: seq<Byte>)
    requires n + |s| <= |d|
    ensures PutBytes(d, n, s)[..n + |s|] == d[..n] + s
  {
  }

  /** The stores of a deletion amount to the marked heap. */
  lemma MarkedIs(mode: Mode, h: seq<Byte>, i: nat, keyLen: nat, valLen: nat, freePos: nat)
    requires i < |h| && freePos < TWO_32 && (mode.Variable? ==> i + 5 <= |h| && keyLen + valLen + 4 < TWO_32)
    requires Reuses(mode) ==> i + 9 <= |h|
    ensures Marked(mode, h, i, keyLen, valLen, freePos) ==
            if mode.Variable? then SetU32(h[i := DELETED], i + 1, keyLen + 4 + valLen)
            else if Reuses(mode) then SetU32(h[i := DELETED], i + 5, freePos)
            else h[i := DELETED]
  {
    if Reuses(mode) { SetSlice(h[i := DELETED], i + 5, freePos); }
  }

  /** A number read before a bound. */
  lemma ReadWithin(d: seq<Byte>, n: nat, i: nat)
    requires i + 4 <= n <= |d|
    ensures U32At(d[..n], i) == U32At(d, i)
  {
  }

  /** SHF_U32_AT, read. */
  method LoadU32(a: array<Byte>, i: nat) returns (v: nat)
    requires i + 4 <= a.Length
    ensures v == U32At(a[..], i)
  {
    var b0: nat, b1: nat, b2: nat, b3: nat := a[i], a[i + 1], a[i + 2], a[i + 3];
    v := b0 + 0x100 * b1 + 0x1_0000 * b2 + 0x100_0000 * b3;
  }

  // ---- What the stores need to know about the tab ------------------------------------------

  /** A free position that is not 0 is a deleted record with room for one of the mode's records. */
  lemma FreePosOk(mode: Mode, t: Tab)
    requires TabInv(mode, t) && Sound(mode)
    ensures mode.Fixed? && t.freePos != 0 ==>
              var n := RecordLen(mode, mode.keyLen, mode.valLen);
              && t.freePos >= HEADER && t.freePos - HEADER + 9 <= |t.heap| && t.freePos - HEADER + n <= |t.heap| && n <= t.dataFree
    ensures mode.Variable? ==> t.freePos == 0
  {
    if Reuses(mode) {
      var chain :| FreeChain(mode, t, chain);
      if chain != [] {
        assert chain[0] in chain && DeadAt(mode, t.heap, chain[0]);
        StartFits(mode, t.heap, 0, chain[0]);
        DeadWithinTotal(mode, t.heap, 0, chain[0]);
      }
    }
  }

  lemma KeySize(mode: Mode, h: seq<Byte>, i: nat)
    requires LiveCell(mode, h, i)
    ensures |Key(mode, h, i)| == KeyLen(mode, h, i)
  {
    hide U32At;
  }

  lemma ValEnds(mode: Mode, h: seq<Byte>, i: nat)
    requires LiveCell(mode, h, i)
    ensures ValAt(mode, h, i) + ValLen(mode, h, i) <= |h|
  {
    hide U32At;
  }

  lemma CellSize(mode: Mode, h: seq<Byte>, i: nat)
    requires LiveCell(mode, h, i)
    ensures i < |h| && Len(mode, h, i) == RecordLen(mode, KeyLen(mode, h, i), ValLen(mode, h, i))
    ensures mode.Variable? ==> i + 5 <= |h| && (|h| < TWO_32 ==> KeyLen(mode, h, i) + ValLen(mode, h, i) + 4 < TWO_32)
    ensures Reuses(mode) && Sound(mode) ==> i + 9 <= |h|
  {
    hide U32At;
  }

  /** The data bytes of the file after a growth. */
  function GrownLength(length: nat, used: nat, needed: nat, factor: nat): (size: nat)
    requires factor >= 1 && used <= length && needed > length - used && (HEADER + length) % TabMapping.PAGE == 0
    ensures length < size && used + needed <= size && (HEADER + size) % TabMapping.PAGE == 0
  {
    TabMapping.GrowthFits(HEADER + length, HEADER + used, needed, factor);
    TabMapping.Rounded(HEADER + length + needed * factor);
    TabMapping.GrownSize(HEADER + length, needed, factor) - HEADER
  }

  /** A larger mapping of the same file. */
  method Remap(data: array<Byte>, used: nat, size: nat) returns (larger: array<Byte>)
    requires used <= data.Length < size
    ensures fresh(larger) && larger.Length == size && larger[..used] == data[..used]
  {
    larger := new Byte[size](i => 0);
    for i := 0 to used
      invariant larger[..i] == data[..i]
    {
      larger[i] := data[i];
    }
  }

  // ---- The tab ---------------------------------------------------------------------------------

  /** A mapped tab file. */
  class TabMem {
    var data: array<Byte>      // the file from HEADER on
    var used: nat              // tab_used, from HEADER on
    var freePos: nat           // tab_data_free_pos
    var dataFree: nat          // tab_data_free
    var dataUsed: nat          // tab_data_used
    const refs: array<Ref>     // row[].ref[]
    const factor: nat          // shf_data_needed_factor

    ghost function Repr(): set<object>
      reads this
    {
      {this, data, refs}
    }

    ghost predicate Valid()
      reads this
    {
      used <= data.Length && refs.Length == SLOTS && factor >= 1 && (HEADER + data.Length) % TabMapping.PAGE == 0
    }

    ghost function View(): Tab
      requires Valid()
      reads this, data, refs
    {
      Tab(data[..used], freePos, dataFree, dataUsed, refs[..])
    }

    /** A new tab file, truncated to its header's pages and mapped. */
    constructor (factor: nat)
      requires factor >= 1
      ensures Valid() && View() == EmptyTab() && this.factor == factor
      ensures fresh(data) && fresh(refs)
    {
      this.factor := factor;
      data := new Byte[TabMapping.TAB_BYTES - HEADER](i => 0);
      refs := new Ref[SLOTS](i => Ref(0, 0, 0));
      used, freePos, dataFree, dataUsed := 0, 0, 0, 0;
      new;
      assert refs[..] == EmptyTab().refs;
    }

    /** The file extended and mapped again, when the record does not fit behind tab_used. */
    method Grow(needed: nat)
      requires Valid() && needed > data.Length - used
      modifies this`data
      ensures Valid() && View() == old(View()) && fresh(data) && used + needed <= data.Length
    {
      var size := GrownLength(data.Length, used, needed, factor);
      var larger := Remap(data, used, size);
      data := larger;
    }

    /** The stores of a record at i: type, lengths, key, value. */
    method StoreRecord(mode: Mode, i: nat, key: seq<Byte>, val: seq<Byte>)
      requires |key| < TWO_32 && |val| < TWO_32 && i + RecordLen(mode, |key|, |val|) <= data.Length
      modifies data
      ensures data[..] == PutBytes(old(data[..]), i, Encode(mode, key, val))
    {
      hide Encode, PutBytes, SetU32;
      data[i] := LIVE;
      assert data[..] == old(data[..])[i := LIVE];
      if mode.Variable? {
        StoreU32(data, i + 1, |key|);
        StoreU32(data, i + 5 + |key|, |val|);
      }
      StoreBytes(data, i + 1 + LenLen(mode), key);
      StoreBytes(data, i + 1 + LenLen(mode) + |key| + LenLen(mode), val);
      WrittenIs(mode, old(data[..]), i, key, val);
    }

    /** The first deleted record filled again. */
    method Reuse(mode: Mode, key: seq<Byte>, val: seq<Byte>)
      requires Valid() && mode.Fixed? && |key| < TWO_32 && |val| < TWO_32 && freePos >= HEADER && freePos - HEADER + 9 <= used
      requires freePos - HEADER + RecordLen(mode, |key|, |val|) <= used && RecordLen(mode, |key|, |val|) <= dataFree
      modifies this`freePos, this`dataFree, data
      ensures Valid()
      ensures var t, i := old(View()), old(freePos) - HEADER;
              View() == t.(heap := PutBytes(t.heap, i, Encode(mode, key, val)), freePos := U32At(t.heap, i + 5),
                           dataFree := t.dataFree - RecordLen(mode, |key|, |val|))
    {
      hide Encode, PutBytes, U32At;
      var i := freePos - HEADER;
      ReadWithin(data[..], used, i + 5);
      PutWithin(data[..], used, i, Encode(mode, key, val));
      assert data[..][..used] == data[..used];
      var next := LoadU32(data, i + 5);
      freePos := next;
      StoreRecord(mode, i, key, val);
      assert data[..used] == data[..][..used];
      dataFree := dataFree - RecordLen(mode, |key|, |val|);
    }

    /** A record behind tab_used, growing the file if need be. */
    method AppendBehind(mode: Mode, key: seq<Byte>, val: seq<Byte>)
      requires Valid() && |key| < TWO_32 && |val| < TWO_32
      modifies this`data, this`used, data
      ensures Valid() && (data == old(data) || fresh(data))
      ensures View() == old(View()).(heap := old(View()).heap + Encode(mode, key, val))
    {
      hide Encode, PutBytes;
      var needed := RecordLen(mode, |key|, |val|);
      if needed > data.Length - used {
        Grow(needed);
      }
      PutBehind(data[..], used, Encode(mode, key, val));
      assert data[..][..used] == old(View()).heap;
      StoreRecord(mode, used, key, val);
      used := used + needed;
      assert data[..used] == data[..][..used];
    }

    /** SHF_TAB_APPEND: into the first deleted record, or behind tab_used. */
    method AppendRecord(mode: Mode, key: seq<Byte>, val: seq<Byte>) returns (pos: nat)
      requires Valid() && TabInv(mode, View()) && Sound(mode)
      requires |key| < TWO_32 && |val| < TWO_32 && Accepts(mode, key, val)
      modifies this, data
      ensures Valid() && (View(), pos) == Append(mode, old(View()), key, val)
      ensures data == old(data) || fresh(data)
    {
      hide TabInv, Encode, Len, IsStart, PutBytes, U32At;
      FreePosOk(mode, View());
      var needed := RecordLen(mode, |key|, |val|);
      if mode.Fixed? && freePos != 0 {
        pos := freePos;
        PutBytesIs(View().heap, pos - HEADER, Encode(mode, key, val));
        Reuse(mode, key, val);
      } else {
        pos := HEADER + used;
        AppendBehind(mode, key, val);
      }
      dataUsed := dataUsed + needed;
    }

    /** A record appended and the ref at slot s pointed at it. */
    method PutRef(mode: Mode, s: nat, tab2: nat, rnd: nat, key: seq<Byte>, val: seq<Byte>)
      requires Valid() && TabInv(mode, View()) && Sound(mode)
      requires |key| < TWO_32 && |val| < TWO_32 && Accepts(mode, key, val) && s < SLOTS
      modifies this, data, refs
      ensures Valid() && View() == PutAt(mode, old(View()), s, tab2, rnd, key, val)
      ensures data == old(data) || fresh(data)
    {
      hide TabInv, Append;
      var pos := AppendRecord(mode, key, val);
      refs[s] := Ref(tab2, rnd, pos);
    }

    /** SHF_TAB_REF_MARK_AS_DELETED: the type byte, then the length or the link, the counters, the ref. */
    method MarkDeleted(mode: Mode, s: nat)
      requires Valid() && TabInv(mode, View()) && Sound(mode) && Readable(mode, View(), s)
      modifies this, data, refs
      ensures Valid() && View() == DeleteAt(mode, old(View()), s)
      ensures data == old(data)
    {
      hide TabInv, Len, Key, Val, KeyLen, ValLen, IsStart, Tiled, SetU32, Marked;
      ghost var t := View();
      TabShape(mode, t);
      LiveWithin(mode, t, s);
      CellSize(mode, t.heap, t.refs[s].pos - HEADER);
      var oldPos := freePos;
      var i := refs[s].pos - HEADER;
      var keyLen, valLen := KeyLen(mode, data[..used], i), ValLen(mode, data[..used], i);
      data[i] := DELETED;
      assert data[..used] == t.heap[i := DELETED];
      if mode.Variable? {
        SetWithin(data[..], used, i + 1, keyLen + 4 + valLen);
        StoreU32(data, i + 1, keyLen + 4 + valLen);
      }
      if Reuses(mode) {
        SetWithin(data[..], used, i + 5, oldPos);
        StoreU32(data, i + 5, oldPos);
        freePos := refs[s].pos;
      }
      MarkedIs(mode, t.heap, i, keyLen, valLen, oldPos);
      assert data[..used] == Marked(mode, t.heap, i, keyLen, valLen, oldPos);
      dataUsed := dataUsed - RecordLen(mode, keyLen, valLen);
      dataFree := dataFree + RecordLen(mode, keyLen, valLen);
      refs[s] := refs[s].(pos := 0);
    }

    /** The bytes of a value replaced. */
    method Overwrite(mode: Mode, s: nat, val: seq<Byte>)
      requires Valid() && Readable(mode, View(), s) && |val| == ValLen(mode, View().heap, View().refs[s].pos - HEADER)
      modifies data
      ensures Valid() && View() == UpdateAt(mode, old(View()), s, val)
    {
      hide ValAt, ValLen, Len, LiveCell, Key, Val, PutBytes;
      ghost var h := View().heap;
      ValEnds(mode, h, refs[s].pos - HEADER);
      var v := ValAt(mode, data[..used], refs[s].pos - HEADER);
      PutWithin(data[..], used, v, val);
      assert data[..][..used] == h;
      StoreBytes(data, v, val);
      assert data[..used] == PutBytes(h, v, val);
      PutBytesIs(h, v, val);
    }

    /** Compare a ref with a hash and key: index and bits first, then key length, then bytes. */
    method Answers(mode: Mode, s: nat, h: Hash, key: seq<Byte>) returns (r: bool)
      requires Valid() && TabInv(mode, View()) && s < SLOTS
      ensures r == Matches(mode, View(), s, h, key)
    {
      hide TabInv, Len, IsStart;
      ContentUsed(mode, View(), s);
      if refs[s].pos == 0 || refs[s].rnd != h.rnd || refs[s].tab2 != h.tab2 { return false; }
      EntryFits(mode, View(), s);
      var i := refs[s].pos - HEADER;
      KeySize(mode, View().heap, i);
      r := KeyLen(mode, data[..used], i) == |key| && Key(mode, data[..used], i) == key;
    }

    /** Scan a row for the first ref that answers the lookup. */
    method FindInRow(mode: Mode, h: Hash, key: seq<Byte>) returns (r: Option<nat>)
      requires Valid() && TabInv(mode, View()) && ValidHash(h)
      ensures r == FindFrom(mode, View(), h, key, 0)
    {
      hide TabInv, Matches, FindFrom;
      for ref := 0 to REFS_PER_ROW
        invariant FindFrom(mode, View(), h, key, 0) == FindFrom(mode, View(), h, key, ref)
      {
        FindStep(mode, View(), h, key, ref);
        var answers := Answers(mode, h.row * REFS_PER_ROW + ref, h, key);
        if answers { return Some(h.row * REFS_PER_ROW + ref); }
      }
      FindEnd(mode, View(), h, key);
      r := None;
    }

    /** Scan a row for its first unused ref. */
    method FindFree(row: nat) returns (r: Option<nat>)
      requires Valid() && row < ROWS
      ensures r == FreeFrom(View(), row, 0)
    {
      for ref := 0 to REFS_PER_ROW
        invariant FreeFrom(View(), row, 0) == FreeFrom(View(), row, ref)
      {
        if refs[row * REFS_PER_ROW + ref].pos == 0 {
          return Some(row * REFS_PER_ROW + ref);
        }
      }
      r := None;
    }
  }

  lemma PutBytesIs(d: seq<Byte>, i: nat, s: seq<Byte>)
    requires i + |s| <= |d|
    ensures PutBytes(d, i, s) == d[..i] + s + d[i + |s|..]
  {
  }

  lemma SetWithin(d: seq<Byte>, n: nat, i: nat, v: nat)
    requires i + 4 <= n <= |d| && v < TWO_32
    ensures SetU32(d, i, v)[..n] == SetU32(d[..n], i, v)
  {
    SetSlice(d, i, v);
    SetSlice(d[..n], i, v);
    PutWithin(d, n, i, U32(v));
  }

  lemma FindStep(mode: Mode, t: Tab, h: Hash, key: seq<Byte>, ref: nat)
    requires |t.refs| == SLOTS && h.row < ROWS && ref < REFS_PER_ROW
    ensures FindFrom(mode, t, h, key, ref) ==
            if Matches(mode, t, h.row * REFS_PER_ROW + ref, h, key) then Some(h.row * REFS_PER_ROW + ref)
            else FindFrom(mode, t, h, key, ref + 1)
  {
    hide Matches;
  }

  lemma FindEnd(mode: Mode, t: Tab, h: Hash, key: seq<Byte>)
    requires |t.refs| == SLOTS && h.row < ROWS
    ensures FindFrom(mode, t, h, key, REFS_PER_ROW) == None
  {
  }
}
