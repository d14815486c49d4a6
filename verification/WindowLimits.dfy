/** When a put runs out of tabs, for every window; and windows and stores where the limits are met. */
module WindowLimits {
  import opened Common
  import opened Bytes
  import opened TabHeap
  import opened TabFile
  import opened TabCopy
  import opened Directory
  import opened WindowModel
  import opened WindowOps

  // ---- Rows that parting cannot thin out ------------------------------------------------

  /** Every place of the row is used, and by an index that agrees with the hash's own modulo m. */
  ghost predicate RowPacked(t: Tab, h: Hash, m: nat)
    requires |t.refs| == SLOTS && h.row < ROWS && m > 0
  {
    forall s :: h.row * REFS_PER_ROW <= s < h.row * REFS_PER_ROW + REFS_PER_ROW ==>
      t.refs[s].pos != 0 && t.refs[s].tab2 % m == h.tab2 % m
  }

  /** How fine the classes get once every unused tab went to a parting of this class. */
  function Finest(d: nat, unused: nat): (b: nat)
    requires d <= BITS
    ensures d <= b <= BITS
  {
    if d + unused < BITS then d + unused else BITS
  }

  lemma ModModDouble(x: nat, m: nat)
    requires m > 0
    ensures x % (2 * m) % m == x % m
  {
    ModDouble(x, m);
    var r := x % m;
    if x / m % 2 == 1 {
      Quotient(m, 1, r, r + m);
    } else {
      Quotient(m, 0, r, r);
    }
  }

  /** Agreeing modulo a larger power of two is agreeing modulo a smaller one. */
  lemma {:induction false} CoarserAgrees(x: nat, y: nat, d: nat, b: nat)
    requires d <= b && x % Pow2(b) == y % Pow2(b)
    ensures x % Pow2(d) == y % Pow2(d)
    decreases b
  {
    if d < b {
      assert Pow2(b) == 2 * Pow2(b - 1);
      ModModDouble(x, Pow2(b - 1));
      ModModDouble(y, Pow2(b - 1));
      CoarserAgrees(x, y, d, b - 1);
    }
  }

  /** A used ref of the tab an index goes to has an index of the same class. */
  lemma SameClass(mode: Mode, w: Window, tab2: nat, s: nat, m: nat, r: nat)
    requires WindowInv(mode, w) && tab2 < INDEXES && s < SLOTS && |w.redirect| == INDEXES
    requires Owns(w.redirect, w.redirect[tab2], m, r)
    ensures w.redirect[tab2] < |w.tabs| && |w.tabs[w.redirect[tab2]].refs| == SLOTS && m > 0
    ensures tab2 % m == r
    ensures var ref := w.tabs[w.redirect[tab2]].refs[s]; ref.pos != 0 ==> ref.tab2 < INDEXES && ref.tab2 % m == r
  {
    hide TabInv, IsDirectory;
    TabOf(mode, w, tab2);
    assert Placed(w, w.redirect[tab2], s);
    assert w.redirect[tab2] == w.redirect[tab2] <==> tab2 % m == r;
  }

  /** Where a used ref is after its tab was parted, seen from the tab index tab2 goes to then. */
  lemma PartedRef(mode: Mode, w: Window, tab2: nat, s: nat)
    requires WindowInv(mode, w) && tab2 < INDEXES && s < SLOTS
    requires |w.redirect| == INDEXES && w.redirect[tab2] < |w.tabs| && |w.tabs[w.redirect[tab2]].refs| == SLOTS
    requires w.tabs[w.redirect[tab2]].refs[s].pos != 0
    ensures var w', ref := Part(mode, w, w.redirect[tab2]), w.tabs[w.redirect[tab2]].refs[s];
            && |w'.redirect| == INDEXES && w'.redirect[tab2] < |w'.tabs| && |w'.tabs[w'.redirect[tab2]].refs| == SLOTS && ref.tab2 < INDEXES
            && (w'.tabs[w'.redirect[tab2]].refs[s].pos != 0 <==> w'.redirect[ref.tab2] == w'.redirect[tab2])
            && (w'.tabs[w'.redirect[tab2]].refs[s].pos != 0 ==> w'.tabs[w'.redirect[tab2]].refs[s].tab2 == ref.tab2)
  {
    hide TabInv, Content, IsDirectory, Split, Shrunk, PartPair;
    var t, n := w.redirect[tab2], |w.tabs|;
    var w' := Part(mode, w, t);
    TabOf(mode, w, tab2);
    PartTabs(mode, w, t);
    SplitOnlyHere(mode, w, t);
    assert Placed(w, t, s);
    ContentUsed(mode, w.tabs[t], s);
    ContentUsed(mode, w'.tabs[t], s);
    ContentUsed(mode, w'.tabs[n], s);
  }

  /** Parting does not change whether a full row is packed, for classes at least as fine as those after it. */
  lemma PartKeepsPacked(mode: Mode, w: Window, h: Hash, d: nat, r: nat, b: nat)
    requires WindowInv(mode, w) && ValidHash(h) && |w.redirect| == INDEXES && w.redirect[h.tab2] < |w.tabs| < INDEXES
    requires |w.tabs[w.redirect[h.tab2]].refs| == SLOTS && FreeFrom(w.tabs[w.redirect[h.tab2]], h.row, 0).None?
    requires WindowInv(mode, Part(mode, w, w.redirect[h.tab2])) && d <= b
    requires var w' := Part(mode, w, w.redirect[h.tab2]); |w'.redirect| == INDEXES && Owns(w'.redirect, w'.redirect[h.tab2], Pow2(d), r)
    ensures var w' := Part(mode, w, w.redirect[h.tab2]);
            && w'.redirect[h.tab2] < |w'.tabs| && |w'.tabs[w'.redirect[h.tab2]].refs| == SLOTS
            && (RowPacked(w'.tabs[w'.redirect[h.tab2]], h, Pow2(b)) <==> RowPacked(w.tabs[w.redirect[h.tab2]], h, Pow2(b)))
  {
    hide WindowInv, Part, Pow2, Owns, TabInv;
    var w' := Part(mode, w, w.redirect[h.tab2]);
    var t := w.tabs[w.redirect[h.tab2]];
    TabOf(mode, w', h.tab2);
    var t' := w'.tabs[w'.redirect[h.tab2]];
    forall s | h.row * REFS_PER_ROW <= s < h.row * REFS_PER_ROW + REFS_PER_ROW
      ensures t'.refs[s].pos != 0 && t'.refs[s].tab2 % Pow2(b) == h.tab2 % Pow2(b) <==> t.refs[s].tab2 % Pow2(b) == h.tab2 % Pow2(b) {
      PartedRef(mode, w, h.tab2, s);
      if t.refs[s].tab2 % Pow2(b) == h.tab2 % Pow2(b) {
        CoarserAgrees(t.refs[s].tab2, h.tab2, d, b);
        InClass(w'.redirect, h.tab2, t.refs[s].tab2, Pow2(d), r);
      }
    }
  }

  lemma InClass(redirect: seq<nat>, i: nat, j: nat, m: nat, r: nat)
    requires |redirect| == INDEXES && i < INDEXES && j < INDEXES && Owns(redirect, redirect[i], m, r)
    ensures m > 0 && (redirect[j] == redirect[i] <==> j % m == i % m)
  {
    assert redirect[i] == redirect[i] <==> i % m == r;
    assert redirect[j] == redirect[i] <==> j % m == r;
  }

  /** The class of the tab an index goes to, after that tab was parted. */
  lemma PartClass(mode: Mode, w: Window, tab2: nat, d: nat, r: nat) returns (d': nat, r': nat)
    requires WindowInv(mode, w) && tab2 < INDEXES && d <= BITS && |w.redirect| == INDEXES
    requires Owns(w.redirect, w.redirect[tab2], Pow2(d), r)
    ensures w.redirect[tab2] < |w.tabs| && d' == (if d < BITS then d + 1 else BITS)
    ensures var w' := Part(mode, w, w.redirect[tab2]); |w'.redirect| == INDEXES && Owns(w'.redirect, w'.redirect[tab2], Pow2(d'), r')
  {
    hide Owns, Pow2, Shrunk, PartPair, TabInv, Split;
    TabOf(mode, w, tab2);
    SplitOnlyHere(mode, w, w.redirect[tab2]);
    if d < BITS {
      d' := d + 1;
      r' := SplitDeeper(w.redirect, |w.tabs|, tab2, d, r);
    } else {
      d', r' := d, r;
      BitsAreIndexes();
      SplitSingle(w.redirect, w.redirect[tab2], |w.tabs|, r);
    }
  }

  /** What a put does at one tab. */
  lemma PutCases(mode: Mode, w: Window, h: Hash, key: seq<Byte>, val: seq<Byte>)
    requires WindowInv(mode, w) && ValidHash(h) && Accepts(mode, key, val)
    ensures |w.redirect| == INDEXES && w.redirect[h.tab2] < |w.tabs| <= INDEXES && |w.tabs[w.redirect[h.tab2]].refs| == SLOTS
    ensures var t := w.redirect[h.tab2];
            var free := FreeFrom(w.tabs[t], h.row, 0);
            && (free.Some? ==> Put(mode, w, h, key, val) != TabOverflow)
            && (free.None? && |w.tabs| == INDEXES ==> Put(mode, w, h, key, val) == TabOverflow)
            && (free.None? && |w.tabs| < INDEXES ==>
                  && WindowInv(mode, Part(mode, w, t)) && |Part(mode, w, t).tabs| == |w.tabs| + 1
                  && Put(mode, w, h, key, val) == Put(mode, Part(mode, w, t), h, key, val))
  {
    hide TabInv, IsDirectory, PutAt, Abs, Shrunk, Part, Takes, OwnsNothing;
    TabOf(mode, w, h.tab2);
    UsedTabs(mode, w);
    var t := w.redirect[h.tab2];
    if FreeFrom(w.tabs[t], h.row, 0).None? && |w.tabs| < INDEXES { PartKeeps(mode, w, t); }
  }

  lemma NoTabsLeft(mode: Mode, w: Window, h: Hash, d: nat, r: nat)
    requires WindowInv(mode, w) && ValidHash(h) && |w.redirect| == INDEXES && Owns(w.redirect, w.redirect[h.tab2], Pow2(d), r)
    requires w.redirect[h.tab2] < |w.tabs| && |w.tabs[w.redirect[h.tab2]].refs| == SLOTS
    requires FreeFrom(w.tabs[w.redirect[h.tab2]], h.row, 0).None?
    ensures RowPacked(w.tabs[w.redirect[h.tab2]], h, Pow2(d))
  {
    hide WindowInv, Owns, Pow2;
    forall s | h.row * REFS_PER_ROW <= s < h.row * REFS_PER_ROW + REFS_PER_ROW
      ensures w.tabs[w.redirect[h.tab2]].refs[s].tab2 % Pow2(d) == h.tab2 % Pow2(d) {
      SameClass(mode, w, h.tab2, s, Pow2(d), r);
    }
  }

  lemma FreeIsNotPacked(t: Tab, h: Hash, m: nat)
    requires |t.refs| == SLOTS && h.row < ROWS && m > 0 && FreeFrom(t, h.row, 0).Some?
    ensures !RowPacked(t, h, m)
  {
  }

  /** A put parts the tab of its index until the row has a place or no tab is left. It overflows exactly when the row is
      packed for the finest classes the unused tabs allow. */
  lemma {:induction false} PutOverflows(mode: Mode, w: Window, h: Hash, key: seq<Byte>, val: seq<Byte>, d: nat, r: nat)
    requires WindowInv(mode, w) && ValidHash(h) && Accepts(mode, key, val) && d <= BITS
    requires |w.redirect| == INDEXES && Owns(w.redirect, w.redirect[h.tab2], Pow2(d), r)
    ensures w.redirect[h.tab2] < |w.tabs| <= INDEXES && |w.tabs[w.redirect[h.tab2]].refs| == SLOTS
    ensures Put(mode, w, h, key, val) == TabOverflow <==>
            RowPacked(w.tabs[w.redirect[h.tab2]], h, Pow2(Finest(d, INDEXES - |w.tabs|)))
    decreases INDEXES - |w.tabs|
  {
    hide WindowInv, Put, Part, Pow2, Owns, RowPacked, FreeFrom;
    PutCases(mode, w, h, key, val);
    var t := w.redirect[h.tab2];
    var b := Finest(d, INDEXES - |w.tabs|);
    if FreeFrom(w.tabs[t], h.row, 0).Some? {
      FreeIsNotPacked(w.tabs[t], h, Pow2(b));
    } else if |w.tabs| == INDEXES {
      NoTabsLeft(mode, w, h, d, r);
    } else {
      var d', r' := PartClass(mode, w, h.tab2, d, r);
      PartKeepsPacked(mode, w, h, d', r', b);
      PutOverflows(mode, Part(mode, w, t), h, key, val, d', r');
    }
  }

  lemma UsedTabs(mode: Mode, w: Window)
    requires WindowInv(mode, w)
    ensures |w.tabs| <= INDEXES
  {
  }

  /** The number of index bits the class of an index's tab fixes. */
  ghost function ClassBits(mode: Mode, w: Window, tab2: nat): (d: nat)
    requires WindowInv(mode, w) && tab2 < INDEXES
    ensures d <= BITS && |w.redirect| == INDEXES && exists r: nat :: Owns(w.redirect, w.redirect[tab2], Pow2(d), r)
  {
    TabOf(mode, w, tab2);
    assert OwnsClass(w.redirect, w.redirect[tab2]);
    var d: nat, r: nat :| d <= BITS && Owns(w.redirect, w.redirect[tab2], Pow2(d), r);
    d
  }

  /** For every window: a put overflows exactly when the sixteen places of its row are used by indexes that agree with its
      own in as many low bits as the unused tabs, one parting each, can still make the class of its tab fix. */
  lemma OverflowsExactly(mode: Mode, w: Window, h: Hash, key: seq<Byte>, val: seq<Byte>)
    requires WindowInv(mode, w) && ValidHash(h) && Accepts(mode, key, val)
    ensures |w.redirect| == INDEXES && w.redirect[h.tab2] < |w.tabs| <= INDEXES && |w.tabs[w.redirect[h.tab2]].refs| == SLOTS
    ensures Put(mode, w, h, key, val) == TabOverflow <==>
            RowPacked(w.tabs[w.redirect[h.tab2]], h, Pow2(Finest(ClassBits(mode, w, h.tab2), INDEXES - |w.tabs|)))
  {
    hide WindowInv, Put, RowPacked, Owns, Pow2;
    var d := ClassBits(mode, w, h.tab2);
    var r: nat :| Owns(w.redirect, w.redirect[h.tab2], Pow2(d), r);
    PutOverflows(mode, w, h, key, val, d, r);
  }

  // ---- The same by UIDs -----------------------------------------------------------------------

  /** Every place of a row is taken by one and the same index. */
  ghost predicate Crowded(mode: Mode, w: Window, h: Hash)
    requires WindowInv(mode, w) && ValidHash(h)
  {
    forall s :: h.row * REFS_PER_ROW <= s < h.row * REFS_PER_ROW + REFS_PER_ROW ==> Uid(h.tab2, s) in Abs(mode, w)
  }

  /** A slot resolves under an index exactly when that index's tab has it in use for that index. */
  lemma SlotInAbs(mode: Mode, w: Window, tab2: nat, s: nat)
    requires WindowInv(mode, w) && tab2 < INDEXES && s < SLOTS
    ensures |w.redirect| == INDEXES && w.redirect[tab2] < |w.tabs| && |w.tabs[w.redirect[tab2]].refs| == SLOTS
    ensures var ref := w.tabs[w.redirect[tab2]].refs[s]; Uid(tab2, s) in Abs(mode, w) <==> ref.pos != 0 && ref.tab2 == tab2
  {
    hide TabInv, Content, IsDirectory;
    InUids(tab2, s);
    AtDefined(mode, w, Uid(tab2, s));
    TabOf(mode, w, tab2);
    ContentUsed(mode, w.tabs[w.redirect[tab2]], s);
  }

  /** A crowded row is packed whatever the classes, and only a crowded one is for single indexes. */
  lemma CrowdedIsPacked(mode: Mode, w: Window, h: Hash, m: nat)
    requires WindowInv(mode, w) && ValidHash(h) && m > 0
    ensures |w.redirect| == INDEXES && w.redirect[h.tab2] < |w.tabs| && |w.tabs[w.redirect[h.tab2]].refs| == SLOTS
    ensures Crowded(mode, w, h) ==> RowPacked(w.tabs[w.redirect[h.tab2]], h, m)
    ensures m == INDEXES && RowPacked(w.tabs[w.redirect[h.tab2]], h, m) ==> Crowded(mode, w, h)
  {
    hide TabInv, IsDirectory, Abs;
    TabOf(mode, w, h.tab2);
    forall s | h.row * REFS_PER_ROW <= s < h.row * REFS_PER_ROW + REFS_PER_ROW
      ensures Uid(h.tab2, s) in Abs(mode, w) <==>
              w.tabs[w.redirect[h.tab2]].refs[s].pos != 0 && w.tabs[w.redirect[h.tab2]].refs[s].tab2 == h.tab2
      ensures w.tabs[w.redirect[h.tab2]].refs[s].pos != 0 ==> w.tabs[w.redirect[h.tab2]].refs[s].tab2 < INDEXES {
      SlotInAbs(mode, w, h.tab2, s);
      assert Placed(w, w.redirect[h.tab2], s);
    }
  }

  /** Sixteen records of one index and row cannot be parted: a further put there uses up every tab and aborts. With 11
      tabs unused nothing else makes a put overflow. */
  lemma OverflowsWhenCrowded(mode: Mode, w: Window, h: Hash, key: seq<Byte>, val: seq<Byte>)
    requires WindowInv(mode, w) && ValidHash(h) && Accepts(mode, key, val)
    ensures Crowded(mode, w, h) ==> Put(mode, w, h, key, val) == TabOverflow
    ensures |w.tabs| + BITS <= INDEXES && Put(mode, w, h, key, val) == TabOverflow ==> Crowded(mode, w, h)
  {
    hide WindowInv, Put, RowPacked, Crowded, Pow2;
    OverflowsExactly(mode, w, h, key, val);
    CrowdedIsPacked(mode, w, h, Pow2(Finest(ClassBits(mode, w, h.tab2), INDEXES - |w.tabs|)));
    BitsAreIndexes();
  }

  // ---- A row that fills up -----------------------------------------------------------------------

  /** The window after n puts of the same record, if all were stored. */
  ghost function PutTimes(mode: Mode, w: Window, h: Hash, key: seq<Byte>, val: seq<Byte>, n: nat): (r: Option<Window>)
    requires WindowInv(mode, w) && ValidHash(h) && Accepts(mode, key, val)
    ensures r.Some? ==> WindowInv(mode, r.value)
  {
    if n == 0 then Some(w)
    else
      match PutTimes(mode, w, h, key, val, n - 1)
      case None => None
      case Some(x) =>
        PutRefines(mode, x, h, key, val);
        match Put(mode, x, h, key, val) case Stored(y, _) => Some(y) case _ => None
  }

  /** A tab without garbage, with n records of this hash in the first n places of the row and nothing behind them. */
  predicate FilledTab(t: Tab, h: Hash, len: nat, n: nat)
    requires h.row < ROWS
  {
    && |t.refs| == SLOTS && t.dataFree == 0 && |t.heap| == n * len
    && forall s :: h.row * REFS_PER_ROW <= s < h.row * REFS_PER_ROW + REFS_PER_ROW ==>
         if s < h.row * REFS_PER_ROW + n then t.refs[s].pos != 0 && t.refs[s].tab2 == h.tab2 else t.refs[s].pos == 0
  }

  /** A window of one such tab. */
  ghost predicate Filled(mode: Mode, w: Window, h: Hash, len: nat, n: nat)
    requires WindowInv(mode, w) && ValidHash(h)
  {
    |w.tabs| == 1 && w.redirect == NewWindow().redirect && FilledTab(w.tabs[0], h, len, n)
  }

  lemma FilledRoom(mode: Mode, t: Tab, h: Hash, key: seq<Byte>, val: seq<Byte>, n: nat)
    requires h.row < ROWS && n < REFS_PER_ROW && FilledTab(t, h, RecordLen(mode, |key|, |val|), n)
    requires HEADER + REFS_PER_ROW * RecordLen(mode, |key|, |val|) < TWO_32
    ensures Room(mode, t, key, val) && Takes(mode, t, key, val) && |key| < TWO_32 && |val| < TWO_32
  {
    var len := RecordLen(mode, |key|, |val|);
    assert (n + 1) * len <= REFS_PER_ROW * len by { Grow(len, n + 1, REFS_PER_ROW); }
    assert (n + 1) * len == n * len + len;
  }

  lemma FilledAppend(mode: Mode, t: Tab, h: Hash, key: seq<Byte>, val: seq<Byte>, n: nat)
    requires TabInv(mode, t) && ValidHash(h) && Accepts(mode, key, val) && n < REFS_PER_ROW
    requires FilledTab(t, h, RecordLen(mode, |key|, |val|), n)
    requires HEADER + REFS_PER_ROW * RecordLen(mode, |key|, |val|) < TWO_32
    ensures |key| < TWO_32 && |val| < TWO_32
    ensures FilledTab(PutAt(mode, t, h.row * REFS_PER_ROW + n, h.tab2, h.rnd, key, val), h, RecordLen(mode, |key|, |val|), n + 1)
  {
    hide TabInv, Content, PutAt;
    var len, s := RecordLen(mode, |key|, |val|), h.row * REFS_PER_ROW + n;
    FilledRoom(mode, t, h, key, val, n);
    assert (n + 1) * len == n * len + len;
    NoFreeNoChain(mode, t);
    PutAtEnd(mode, t, s, h.tab2, h.rnd, key, val);
    PutAtRefs(mode, t, s, h.tab2, h.rnd, key, val);
    PutAtSlot(mode, t, s, h.tab2, h.rnd, key, val);
  }

  /** The next put of such a row is stored behind the others. */
  lemma FilledPut(mode: Mode, w: Window, h: Hash, key: seq<Byte>, val: seq<Byte>, n: nat)
    requires WindowInv(mode, w) && ValidHash(h) && Accepts(mode, key, val) && n < REFS_PER_ROW
    requires Filled(mode, w, h, RecordLen(mode, |key|, |val|), n)
    requires HEADER + REFS_PER_ROW * RecordLen(mode, |key|, |val|) < TWO_32
    ensures var o := Put(mode, w, h, key, val);
            && o.Stored? && o.u == Uid(h.tab2, h.row * REFS_PER_ROW + n)
            && WindowInv(mode, o.w) && Filled(mode, o.w, h, RecordLen(mode, |key|, |val|), n + 1)
  {
    hide TabInv, Content, IsDirectory, Abs, PutAt, Shrunk, Part, OwnsNothing, Takes, RecordLen;
    var t, s := w.tabs[0], h.row * REFS_PER_ROW + n;
    PutRefines(mode, w, h, key, val);
    assert w.redirect[h.tab2] == 0;
    TabOf(mode, w, h.tab2);
    FirstFree(t, h.row, n);
    FilledRoom(mode, t, h, key, val, n);
    FilledAppend(mode, t, h, key, val, n);
    NoGarbageNoShrink(PutAt(mode, t, s, h.tab2, h.rnd, key, val));
  }

  lemma NoGarbageNoShrink(t: Tab)
    requires t.dataFree == 0
    ensures !TooMuchGarbage(t)
  {
  }

  lemma PutAtSlot(mode: Mode, t: Tab, s: nat, tab2: nat, rnd: nat, key: seq<Byte>, val: seq<Byte>)
    requires s < |t.refs| && |key| < TWO_32 && |val| < TWO_32
    ensures s < |PutAt(mode, t, s, tab2, rnd, key, val).refs| && PutAt(mode, t, s, tab2, rnd, key, val).refs[s].tab2 == tab2
  {
    hide Encode;
  }

  lemma {:induction false} FreeFromSkips(t: Tab, row: nat, ref: nat, n: nat)
    requires |t.refs| == SLOTS && row < ROWS && ref <= n < REFS_PER_ROW
    requires forall s :: row * REFS_PER_ROW + ref <= s < row * REFS_PER_ROW + n ==> t.refs[s].pos != 0
    requires t.refs[row * REFS_PER_ROW + n].pos == 0
    ensures FreeFrom(t, row, ref) == Some(row * REFS_PER_ROW + n)
    decreases n - ref
  {
    if ref < n { FreeFromSkips(t, row, ref + 1, n); }
  }

  lemma FirstFree(t: Tab, row: nat, n: nat)
    requires |t.refs| == SLOTS && row < ROWS && n < REFS_PER_ROW
    requires forall s :: row * REFS_PER_ROW <= s < row * REFS_PER_ROW + REFS_PER_ROW ==>
               if s < row * REFS_PER_ROW + n then t.refs[s].pos != 0 else t.refs[s].pos == 0
    ensures FreeFrom(t, row, 0) == Some(row * REFS_PER_ROW + n)
  {
    FreeFromSkips(t, row, 0, n);
  }

  lemma NewIsFilled(mode: Mode, h: Hash, len: nat)
    requires Sound(mode) && ValidHash(h)
    ensures WindowInv(mode, NewWindow()) && Filled(mode, NewWindow(), h, len, 0)
  {
    NewWindowEmpty(mode);
  }

  /** In a new window sixteen puts of one hash are stored, one place after the other. */
  lemma {:induction false} RowFills(mode: Mode, h: Hash, key: seq<Byte>, val: seq<Byte>, n: nat)
    requires Sound(mode) && ValidHash(h) && Accepts(mode, key, val) && n <= REFS_PER_ROW
    requires HEADER + REFS_PER_ROW * RecordLen(mode, |key|, |val|) < TWO_32
    ensures WindowInv(mode, NewWindow())
    ensures var r := PutTimes(mode, NewWindow(), h, key, val, n); r.Some? && Filled(mode, r.value, h, RecordLen(mode, |key|, |val|), n)
  {
    hide WindowInv, Put, Filled, NewWindow;
    NewIsFilled(mode, h, RecordLen(mode, |key|, |val|));
    if n > 0 {
      RowFills(mode, h, key, val, n - 1);
      FilledPut(mode, PutTimes(mode, NewWindow(), h, key, val, n - 1).value, h, key, val, n - 1);
    }
  }

  lemma FullIsCrowded(mode: Mode, w: Window, h: Hash, len: nat)
    requires WindowInv(mode, w) && ValidHash(h) && Filled(mode, w, h, len, REFS_PER_ROW)
    ensures Crowded(mode, w, h)
  {
    hide WindowInv, Abs;
    forall s | h.row * REFS_PER_ROW <= s < h.row * REFS_PER_ROW + REFS_PER_ROW ensures Uid(h.tab2, s) in Abs(mode, w) {
      SlotInAbs(mode, w, h.tab2, s);
      assert w.redirect[h.tab2] == 0;
    }
  }

  /** The seventeenth put of one hash into a new window parts it 2047 times and aborts. */
  lemma SeventeenthPutAborts(mode: Mode, h: Hash, key: seq<Byte>, val: seq<Byte>)
    requires Sound(mode) && ValidHash(h) && Accepts(mode, key, val)
    requires HEADER + REFS_PER_ROW * RecordLen(mode, |key|, |val|) < TWO_32
    ensures WindowInv(mode, NewWindow())
    ensures var r := PutTimes(mode, NewWindow(), h, key, val, REFS_PER_ROW);
            r.Some? && Crowded(mode, r.value, h) && Put(mode, r.value, h, key, val) == TabOverflow
  {
    hide WindowInv, Put, Filled, PutTimes, NewWindow, Crowded;
    RowFills(mode, h, key, val, REFS_PER_ROW);
    var w := PutTimes(mode, NewWindow(), h, key, val, REFS_PER_ROW).value;
    FullIsCrowded(mode, w, h, RecordLen(mode, |key|, |val|));
    OverflowsWhenCrowded(mode, w, h, key, val);
  }
}
