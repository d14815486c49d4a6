/** The calls on a window, and their meaning on the map from UID to record. */
module WindowOps {
  import opened Common
  import opened Bytes
  import opened TabHeap
  import opened TabFile
  import opened TabCopy
  import opened Directory
  import opened WindowModel

  // ---- Changing one slot -----------------------------------------------------------

  function AsRecord(e: Option<Entry>): Option<Record> {
    match e
    case None => None
    case Some(x) => Some(Record(x.rnd, x.key, x.val))
  }

  /** Tab t's slot s is free or belongs to index tab2. */
  ghost predicate SlotOf(mode: Mode, t: Tab, s: nat, tab2: nat)
    requires s < |t.refs|
  {
    Content(mode, t, s).Some? ==> Content(mode, t, s).value.tab2 == tab2
  }

  ghost function WithTab(w: Window, t: nat, tab: Tab): Window
    requires t < |w.tabs|
  {
    w.(tabs := w.tabs[t := tab])
  }

  /** A tab changed at one slot changes what that one UID resolves to. */
  lemma ChangeSlot(mode: Mode, w: Window, t: nat, s: nat, tab2: nat, tab: Tab)
    requires WindowInv(mode, w) && t < |w.tabs| && s < SLOTS && tab2 < INDEXES
    requires |w.redirect| == INDEXES && w.redirect[tab2] == t
    requires TabInv(mode, tab) && |tab.refs| == |w.tabs[t].refs| == SLOTS && OthersSame(mode, w.tabs[t], tab, s)
    requires SlotOf(mode, w.tabs[t], s, tab2) && SlotOf(mode, tab, s, tab2)
    ensures WindowInv(mode, WithTab(w, t, tab))
    ensures Resolve(mode, WithTab(w, t, tab), Uid(tab2, s)) == AsRecord(Content(mode, tab, s))
    ensures Resolve(mode, w, Uid(tab2, s)) == AsRecord(Content(mode, w.tabs[t], s))
    ensures forall u :: u in Uids() && u != Uid(tab2, s) ==> Resolve(mode, WithTab(w, t, tab), u) == Resolve(mode, w, u)
  {
    hide TabInv, Content, IsDirectory, Uids;
    var w' := WithTab(w, t, tab);
    ChangePlaces(mode, w, t, s, tab2, tab);
    InUids(tab2, s);
    AtDefined(mode, w, Uid(tab2, s));
    AtDefined(mode, w', Uid(tab2, s));
    forall u | u in Uids() && u != Uid(tab2, s) ensures Resolve(mode, w', u) == Resolve(mode, w, u) {
      UidBounds(u);
      AtDefined(mode, w, u);
      AtDefined(mode, w', u);
    }
  }

  lemma InUids(tab2: nat, s: nat)
    requires tab2 < INDEXES && s < SLOTS
    ensures Uid(tab2, s) in Uids()
  {
  }

  lemma ChangePlaces(mode: Mode, w: Window, t: nat, s: nat, tab2: nat, tab: Tab)
    requires WindowInv(mode, w) && t < |w.tabs| && s < SLOTS && tab2 < INDEXES
    requires |w.redirect| == INDEXES && w.redirect[tab2] == t
    requires TabInv(mode, tab) && |tab.refs| == |w.tabs[t].refs| == SLOTS && OthersSame(mode, w.tabs[t], tab, s)
    requires SlotOf(mode, tab, s, tab2)
    ensures WindowInv(mode, WithTab(w, t, tab))
  {
    hide TabInv, Content, IsDirectory;
    var w' := WithTab(w, t, tab);
    forall r | 0 <= r < SLOTS ensures Placed(w', t, r) {
      ContentUsed(mode, tab, r);
      assert TabOk(mode, w, t) && Placed(w, t, r);
      ContentUsed(mode, w.tabs[t], r);
    }
    forall k | 0 <= k < |w'.tabs| ensures TabOk(mode, w', k) {
      assert TabOk(mode, w, k);
      if k != t { forall r | 0 <= r < SLOTS ensures Placed(w', k, r) { assert Placed(w, k, r); } }
    }
  }

  /** Abs after a change of what one UID resolves to. */
  lemma AbsSet(mode: Mode, w: Window, w': Window, u: Uid)
    requires WindowInv(mode, w) && WindowInv(mode, w') && u in Uids()
    requires forall x :: x in Uids() && x != u ==> Resolve(mode, w', x) == Resolve(mode, w, x)
    ensures Resolve(mode, w', u).Some? ==> Abs(mode, w') == Abs(mode, w)[u := Resolve(mode, w', u).value]
    ensures Resolve(mode, w', u).None? ==> Abs(mode, w') == Abs(mode, w) - {u}
  {
    hide Resolve, Uids;
  }

  lemma TabOf(mode: Mode, w: Window, tab2: nat)
    requires WindowInv(mode, w) && tab2 < INDEXES
    ensures |w.redirect| == INDEXES && w.redirect[tab2] < |w.tabs| && TabOk(mode, w, w.redirect[tab2])
    ensures !OwnsNothing(w.redirect, w.redirect[tab2])
  {
    assert TabOk(mode, w, w.redirect[tab2]);
  }

  // ---- Finding -----------------------------------------------------------------------

  /** A ref of the row that answers the lookup: in use, same index and bits, and the same key bytes. */
  predicate Matches(mode: Mode, t: Tab, s: nat, h: Hash, key: seq<Byte>)
    requires s < |t.refs|
  {
    var e := Content(mode, t, s);
    e.Some? && e.value.rnd == h.rnd && e.value.tab2 == h.tab2 && e.value.key == key
  }

  /** The lowest matching slot of the row from ref on. */
  function FindFrom(mode: Mode, t: Tab, h: Hash, key: seq<Byte>, ref: nat): (r: Option<nat>)
    requires |t.refs| == SLOTS && h.row < ROWS && ref <= REFS_PER_ROW
    ensures r.Some? ==> h.row * REFS_PER_ROW + ref <= r.value < h.row * REFS_PER_ROW + REFS_PER_ROW && Matches(mode, t, r.value, h, key)
    ensures forall s :: h.row * REFS_PER_ROW + ref <= s < (if r.Some? then r.value else h.row * REFS_PER_ROW + REFS_PER_ROW) ==>
              !Matches(mode, t, s, h, key)
    decreases REFS_PER_ROW - ref
  {
    if ref == REFS_PER_ROW then None
    else if Matches(mode, t, h.row * REFS_PER_ROW + ref, h, key) then Some(h.row * REFS_PER_ROW + ref)
    else FindFrom(mode, t, h, key, ref + 1)
  }

  /** Lookup by key: the UID found, if any. */
  ghost function Find(mode: Mode, w: Window, h: Hash, key: seq<Byte>): Option<Uid>
    requires WindowInv(mode, w) && ValidHash(h)
  {
    TabOf(mode, w, h.tab2);
    match FindFrom(mode, w.tabs[w.redirect[h.tab2]], h, key, 0)
    case None => None
    case Some(s) => Some(Uid(h.tab2, s))
  }

  /** In the map, u is stored under this hash and key. */
  ghost predicate Answers(m: map<Uid, Record>, h: Hash, key: seq<Byte>, u: Uid) {
    u in m && u.tab2 == h.tab2 && u.slot / REFS_PER_ROW == h.row && m[u].rnd == h.rnd && m[u].key == key
  }

  /** Lookup by key finds a record exactly when one matches, and then the one in the lowest place of its row. */
  lemma FindCorrect(mode: Mode, w: Window, h: Hash, key: seq<Byte>)
    requires WindowInv(mode, w) && ValidHash(h)
    ensures Find(mode, w, h, key).Some? <==> exists u :: Answers(Abs(mode, w), h, key, u)
    ensures Find(mode, w, h, key).Some? ==>
              var u := Find(mode, w, h, key).value;
              Answers(Abs(mode, w), h, key, u) && forall x :: Answers(Abs(mode, w), h, key, x) ==> u.slot <= x.slot
  {
    hide Content, TabInv, IsDirectory;
    TabOf(mode, w, h.tab2);
    var t := w.tabs[w.redirect[h.tab2]];
    forall u ensures Answers(Abs(mode, w), h, key, u) <==>
                     u.tab2 == h.tab2 && h.row * REFS_PER_ROW <= u.slot < h.row * REFS_PER_ROW + REFS_PER_ROW && Matches(mode, t, u.slot, h, key) {
      RowOf(u.slot, h.row);
      if u in Uids() { AtDefined(mode, w, u); }
      if u.tab2 == h.tab2 && u.slot < SLOTS { InUids(u.tab2, u.slot); }
    }
    var r := FindFrom(mode, t, h, key, 0);
    if r.Some? { assert Answers(Abs(mode, w), h, key, Uid(h.tab2, r.value)); }
  }

  lemma RowOf(s: nat, row: nat)
    ensures s / REFS_PER_ROW == row <==> row * REFS_PER_ROW <= s < row * REFS_PER_ROW + REFS_PER_ROW
  {
  }

  // ---- Putting -----------------------------------------------------------------------

  /** The lowest unused ref of the row from ref on. */
  function FreeFrom(t: Tab, row: nat, ref: nat): (r: Option<nat>)
    requires |t.refs| == SLOTS && row < ROWS && ref <= REFS_PER_ROW
    ensures r.Some? ==> row * REFS_PER_ROW + ref <= r.value < row * REFS_PER_ROW + REFS_PER_ROW && t.refs[r.value].pos == 0
    ensures forall s :: row * REFS_PER_ROW + ref <= s < (if r.Some? then r.value else row * REFS_PER_ROW + REFS_PER_ROW) ==> t.refs[s].pos != 0
    decreases REFS_PER_ROW - ref
  {
    if ref == REFS_PER_ROW then None
    else if t.refs[row * REFS_PER_ROW + ref].pos == 0 then Some(row * REFS_PER_ROW + ref)
    else FreeFrom(t, row, ref + 1)
  }

  /** The test after a put, in 32-bit arithmetic. */
  predicate TooMuchGarbage(t: Tab) {
    t.dataFree > t.dataUsed * 20 % TWO_32 / 100
  }

  /** How a put ends: stored, out of tabs, or at the point where the 32-bit tab_used would wrap. */
  datatype Outcome = Stored(w: Window, u: Uid) | TabOverflow | HeapFull

  /** shf_put_key_val. Each retry after a parting uses up one of the window's tabs. */
  ghost function Put(mode: Mode, w: Window, h: Hash, key: seq<Byte>, val: seq<Byte>): Outcome
    requires WindowInv(mode, w) && ValidHash(h) && Accepts(mode, key, val)
    decreases INDEXES - |w.tabs|
  {
    TabOf(mode, w, h.tab2);
    var t := w.redirect[h.tab2];
    match FreeFrom(w.tabs[t], h.row, 0)
    case Some(s) =>
      if !Takes(mode, w.tabs[t], key, val) then HeapFull
      else
        PutSlot(mode, w, h, s, key, val);
        var w' := WithTab(w, t, PutAt(mode, w.tabs[t], s, h.tab2, h.rnd, key, val));
        Stored(if TooMuchGarbage(w'.tabs[t]) then ShrinkTab(mode, w', t) else w', Uid(h.tab2, s))
    case None =>
      if |w.tabs| == INDEXES then TabOverflow
      else
        PartKeeps(mode, w, t);
        Put(mode, Part(mode, w, t), h, key, val)
  }

  /** A record put at a free slot of its row. */
  lemma PutSlot(mode: Mode, w: Window, h: Hash, s: nat, key: seq<Byte>, val: seq<Byte>)
    requires WindowInv(mode, w) && ValidHash(h) && s < SLOTS && |w.redirect| == INDEXES
    requires w.redirect[h.tab2] < |w.tabs| && |w.tabs[w.redirect[h.tab2]].refs| == SLOTS
    requires w.tabs[w.redirect[h.tab2]].refs[s].pos == 0
    requires Accepts(mode, key, val) && Takes(mode, w.tabs[w.redirect[h.tab2]], key, val)
    ensures var t := w.redirect[h.tab2];
            var tab := PutAt(mode, w.tabs[t], s, h.tab2, h.rnd, key, val);
            var w' := WithTab(w, t, tab);
            && WindowInv(mode, w') && TabInv(mode, tab)
            && Uid(h.tab2, s) !in Abs(mode, w)
            && Abs(mode, w') == Abs(mode, w)[Uid(h.tab2, s) := Record(h.rnd, key, val)]
            && tab.dataFree <= w.tabs[t].dataFree
  {
    hide TabInv, Content, IsDirectory, PutAt;
    TabOf(mode, w, h.tab2);
    var t := w.redirect[h.tab2];
    PutKeeps(mode, w.tabs[t], s, h.tab2, h.rnd, key, val);
    var tab := PutAt(mode, w.tabs[t], s, h.tab2, h.rnd, key, val);
    TabShape(mode, tab);
    ContentUsed(mode, w.tabs[t], s);
    ChangeSlot(mode, w, t, s, h.tab2, tab);
    InUids(h.tab2, s);
    AbsSet(mode, w, WithTab(w, t, tab), Uid(h.tab2, s));
  }

  /** What a put means. */
  ghost predicate PutMeans(mode: Mode, w: Window, h: Hash, key: seq<Byte>, val: seq<Byte>, o: Outcome)
    requires WindowInv(mode, w)
  {
    o.Stored? ==>
      && WindowInv(mode, o.w)
      && o.u.tab2 == h.tab2 && o.u.slot / REFS_PER_ROW == h.row
      && o.u !in Abs(mode, w)
      && Abs(mode, o.w) == Abs(mode, w)[o.u := Record(h.rnd, key, val)]
      && (NoGarbage(w) ==> NoGarbage(o.w))
  }

  /** A put, through any number of partings, adds one record under a new UID and changes nothing else; puts alone
      never leave garbage. */
  lemma {:induction false} PutRefines(mode: Mode, w: Window, h: Hash, key: seq<Byte>, val: seq<Byte>)
    requires WindowInv(mode, w) && ValidHash(h) && Accepts(mode, key, val)
    ensures PutMeans(mode, w, h, key, val, Put(mode, w, h, key, val))
    decreases INDEXES - |w.tabs|
  {
    hide TabInv, Content, IsDirectory, PutAt, Abs, Shrunk, Part;
    TabOf(mode, w, h.tab2);
    var t := w.redirect[h.tab2];
    match FreeFrom(w.tabs[t], h.row, 0) {
      case Some(s) =>
        if Takes(mode, w.tabs[t], key, val) {
          PutSlot(mode, w, h, s, key, val);
          var w' := WithTab(w, t, PutAt(mode, w.tabs[t], s, h.tab2, h.rnd, key, val));
          ShrinkTabKeeps(mode, w', t);
          RowOf(s, h.row);
        }
      case None =>
        if |w.tabs| < INDEXES {
          PartKeeps(mode, w, t);
          PutRefines(mode, Part(mode, w, t), h, key, val);
        }
    }
  }

  /** After a put the garbage of the tab the record is in is at most 20 percent of what is used, as long as twenty times
      that fits 32 bits; past that, at most what the wrapped product allows. */
  lemma {:induction false} PutBoundsGarbage(mode: Mode, w: Window, h: Hash, key: seq<Byte>, val: seq<Byte>)
    requires WindowInv(mode, w) && ValidHash(h) && Accepts(mode, key, val)
    ensures var o := Put(mode, w, h, key, val);
            o.Stored? ==>
              && h.tab2 < |o.w.redirect| && o.w.redirect[h.tab2] < |o.w.tabs|
              && var tab := o.w.tabs[o.w.redirect[h.tab2]];
                 && tab.dataFree <= tab.dataUsed * 20 % 0x1_0000_0000 / 100
                 && (tab.dataUsed * 20 < 0x1_0000_0000 ==> 5 * tab.dataFree <= tab.dataUsed)
    decreases INDEXES - |w.tabs|
  {
    hide TabInv, Content, IsDirectory, PutAt, Abs, Shrunk, Part;
    TabOf(mode, w, h.tab2);
    var t := w.redirect[h.tab2];
    match FreeFrom(w.tabs[t], h.row, 0) {
      case Some(s) =>
        if Takes(mode, w.tabs[t], key, val) {
          PutSlot(mode, w, h, s, key, val);
          ShrinkTabKeeps(mode, WithTab(w, t, PutAt(mode, w.tabs[t], s, h.tab2, h.rnd, key, val)), t);
        }
      case None =>
        if |w.tabs| < INDEXES {
          PartKeeps(mode, w, t);
          PutBoundsGarbage(mode, Part(mode, w, t), h, key, val);
        }
    }
  }

  /** A put whose row has a free place: it goes into the lowest one unless the 32-bit tab_used would wrap, and the tab is
      shrunk exactly when its garbage is more than 20 percent of what is used; otherwise nothing but the new record. */
  lemma PutInPlace(mode: Mode, w: Window, h: Hash, s: nat, key: seq<Byte>, val: seq<Byte>)
    requires WindowInv(mode, w) && ValidHash(h) && Accepts(mode, key, val) && |w.redirect| == INDEXES
    requires w.redirect[h.tab2] < |w.tabs| && |w.tabs[w.redirect[h.tab2]].refs| == SLOTS
    requires h.row * 16 <= s < h.row * 16 + 16 && w.tabs[w.redirect[h.tab2]].refs[s].pos == 0
    requires forall r :: h.row * 16 <= r < s ==> w.tabs[w.redirect[h.tab2]].refs[r].pos != 0
    ensures var t := w.redirect[h.tab2];
            var o := Put(mode, w, h, key, val);
            var small := |key| < 0x1_0000_0000 && |val| < 0x1_0000_0000;
            var fits := 65560 + |w.tabs[t].heap| + (if mode.Fixed? then 1 else 9) + |key| + |val| < 0x1_0000_0000;
            && (o.Stored? <==> small && (fits || (mode.Fixed? && w.tabs[t].freePos != 0)))
            && (o.Stored? ==>
                  var tab := PutAt(mode, w.tabs[t], s, h.tab2, h.rnd, key, val);
                  && o.u == Uid(h.tab2, s) && o.w.redirect == w.redirect && |o.w.tabs| == |w.tabs|
                  && (forall u :: 0 <= u < |w.tabs| && u != t ==> o.w.tabs[u] == w.tabs[u])
                  && (tab.dataFree <= tab.dataUsed * 20 % 0x1_0000_0000 / 100 ==> o.w.tabs[t] == tab)
                  && (tab.dataFree > tab.dataUsed * 20 % 0x1_0000_0000 / 100 ==> o.w.tabs[t].dataFree == 0))
  {
    hide TabInv, Content, IsDirectory, PutAt, Abs, Shrunk, Part;
    TabOf(mode, w, h.tab2);
    var t := w.redirect[h.tab2];
    LowestFree(w.tabs[t], h.row, 0, s);
    if Takes(mode, w.tabs[t], key, val) {
      PutSlot(mode, w, h, s, key, val);
      var tab := PutAt(mode, w.tabs[t], s, h.tab2, h.rnd, key, val);
      ShrinkKeeps(mode, tab);
    }
  }

  lemma LowestFree(t: Tab, row: nat, ref: nat, s: nat)
    requires |t.refs| == SLOTS && row < ROWS && row * REFS_PER_ROW + ref <= s < row * REFS_PER_ROW + REFS_PER_ROW
    requires t.refs[s].pos == 0 && forall r :: row * REFS_PER_ROW + ref <= r < s ==> t.refs[r].pos != 0
    ensures FreeFrom(t, row, ref) == Some(s)
  {
  }

  // ---- Deleting, updating, adding, copying ------------------------------------------------

  /** What a call tells its caller: SHF_RET_KEY_NONE, KEY_FOUND, and KEY_FOUND with a bad value or callback. */
  datatype Found = KeyNone | KeyFound | BadVal | BadCallback

  /** Delete by UID. */
  ghost function Delete(mode: Mode, w: Window, u: Uid): (r: (Window, Found))
    requires WindowInv(mode, w) && u in Uids()
  {
    if Resolve(mode, w, u).None? then (w, KeyNone)
    else
      ResolvedSlot(mode, w, u);
      (WithTab(w, w.redirect[u.tab2], DeleteAt(mode, w.tabs[w.redirect[u.tab2]], u.slot)), KeyFound)
  }

  /** The window with the value at a UID replaced by one of its length. */
  ghost function WithVal(mode: Mode, w: Window, u: Uid, val: seq<Byte>): Window
    requires WindowInv(mode, w) && u in Uids() && Resolve(mode, w, u).Some? && |val| == |Resolve(mode, w, u).value.val|
  {
    hide TabInv, Content, IsDirectory, Uids, ValLen, WindowInv, Resolve;
    ResolvedSlot(mode, w, u);
    WithTab(w, w.redirect[u.tab2], UpdateAt(mode, w.tabs[w.redirect[u.tab2]], u.slot, val))
  }

  /** Update by UID with the copying callback: the new value must have the old one's length. */
  ghost function Update(mode: Mode, w: Window, u: Uid, val: seq<Byte>): (r: (Window, Found))
    requires WindowInv(mode, w) && u in Uids()
  {
    match Resolve(mode, w, u)
    case None => (w, KeyNone)
    case Some(rec) =>
      if |val| != |rec.val| then (w, BadCallback)
      else (WithVal(mode, w, u, val), KeyFound)
  }

  /** The 64-bit little-endian number a value starts with. */
  function U64At(val: seq<Byte>): (n: nat)
    requires |val| >= 8
    ensures n < TWO_64
  {
    U32At(val, 0) + TWO_32 * U32At(val, 4)
  }

  /** A value with that number replaced. */
  function WithU64(val: seq<Byte>, n: nat): (r: seq<Byte>)
    requires |val| >= 8 && n < TWO_64
    ensures |r| == |val|
  {
    SetU32(SetU32(val, 0, n % TWO_32), 4, n / TWO_32)
  }

  lemma U64RoundTrip(val: seq<Byte>, n: nat)
    requires |val| >= 8 && n < TWO_64
    ensures U64At(WithU64(val, n)) == n
  {
    var low := SetU32(val, 0, n % TWO_32);
    U32RoundTrip(val, 0, n % TWO_32);
    U32RoundTrip(low, 4, n / TWO_32);
    U32Same(low, 0, WithU64(val, n), 0);
  }

  /** Byte by byte: the number is the first eight bytes, lowest first, and replacing it leaves the others. */
  lemma U64Bytes(val: seq<Byte>, n: nat)
    requires |val| >= 8 && n < TWO_64
    ensures var b := seq(8, i requires 0 <= i < 8 => val[i] as nat);
            U64At(val) == b[0] + 0x100 * b[1] + 0x1_0000 * b[2] + 0x100_0000 * b[3] + 0x1_0000_0000 * b[4] +
                          0x100_0000_0000 * b[5] + 0x1_0000_0000_0000 * b[6] + 0x100_0000_0000_0000 * b[7]
    ensures U64At(WithU64(val, n)) == n && WithU64(val, n)[8..] == val[8..]
    ensures forall other: seq<Byte> :: |other| == |val| && other[8..] == val[8..] && U64At(other) == n ==> other == WithU64(val, n)
  {
    U64RoundTrip(val, n);
    forall other: seq<Byte> | |other| == |val| && other[8..] == val[8..] && U64At(other) == n ensures other == WithU64(val, n) {
      SameNumber(other, WithU64(val, n));
    }
  }

  /** Equal numbers have equal bytes. */
  lemma SameNumber(a: seq<Byte>, b: seq<Byte>)
    requires |a| == |b| >= 8 && U64At(a) == U64At(b) && a[8..] == b[8..]
    ensures a == b
  {
    hide U32At;
    SameHalves(U32At(a, 0), U32At(a, 4), U32At(b, 0), U32At(b, 4));
    SameDigits(a, b, 0);
    SameDigits(a, b, 4);
    forall j | 0 <= j < |a| ensures a[j] == b[j] { if j >= 8 { assert a[j] == a[8..][j - 8]; } }
  }

  lemma SameHalves(a: nat, x: nat, b: nat, y: nat)
    requires a < TWO_32 && b < TWO_32 && a + TWO_32 * x == b + TWO_32 * y
    ensures a == b && x == y
  {
  }

  lemma SameDigits(a: seq<Byte>, b: seq<Byte>, i: nat)
    requires i + 4 <= |a| == |b| && U32At(a, i) == U32At(b, i)
    ensures forall j :: i <= j < i + 4 ==> a[j] == b[j]
  {
    Digits(a[i], a[i + 1], a[i + 2], a[i + 3]);
    Digits(b[i], b[i + 1], b[i + 2], b[i + 3]);
  }

  /** The digits of a number come back out of it. */
  lemma Digits(b0: nat, b1: nat, b2: nat, b3: nat)
    requires b0 < 256 && b1 < 256 && b2 < 256 && b3 < 256
    ensures var n := b0 + 0x100 * b1 + 0x1_0000 * b2 + 0x100_0000 * b3;
            n % 0x100 == b0 && n / 0x100 % 0x100 == b1 && n / 0x100 / 0x100 % 0x100 == b2 && n / 0x100 / 0x100 / 0x100 == b3
  {
    var n2 := b2 + 0x100 * b3;
    var n1 := b1 + 0x100 * n2;
    assert (b0 + 0x100 * n1) / 0x100 == n1 && (b0 + 0x100 * n1) % 0x100 == b0;
    assert n1 / 0x100 == n2 && n1 % 0x100 == b1;
    assert n2 / 0x100 == b3 && n2 % 0x100 == b2;
  }

  /** Atomic add by UID: two's complement, so modulo 2 to the 64. */
  ghost function AtomAdd(mode: Mode, w: Window, u: Uid, add: int): (r: (Window, Found))
    requires WindowInv(mode, w) && u in Uids()
  {
    match Resolve(mode, w, u)
    case None => (w, KeyNone)
    case Some(rec) =>
      if |rec.val| < 8 then (w, BadVal)
      else (WithVal(mode, w, u, WithU64(rec.val, (U64At(rec.val) + add) % TWO_64)), KeyFound)
  }

  /** Copying a key or value out may shrink the tab it is in. */
  ghost function Get(mode: Mode, w: Window, u: Uid): (r: (Window, Option<Record>))
    requires WindowInv(mode, w) && u in Uids()
  {
    match Resolve(mode, w, u)
    case None => (w, None)
    case Some(rec) =>
      ResolvedSlot(mode, w, u);
      var t := w.redirect[u.tab2];
      (if w.tabs[t].dataFree > w.tabs[t].dataUsed / 4 then ShrinkTab(mode, w, t) else w, Some(rec))
  }

  /** What a resolving UID is made of. */
  lemma ResolvedSlot(mode: Mode, w: Window, u: Uid)
    requires WindowInv(mode, w) && u in Uids() && Resolve(mode, w, u).Some?
    ensures u.tab2 < INDEXES == |w.redirect| && u.slot < SLOTS && w.redirect[u.tab2] < |w.tabs|
    ensures var t := w.tabs[w.redirect[u.tab2]];
            && TabInv(mode, t) && |t.refs| == SLOTS && Readable(mode, t, u.slot) && t.refs[u.slot].pos != 0
            && Content(mode, t, u.slot).Some? && Content(mode, t, u.slot).value.tab2 == u.tab2
            && AsRecord(Content(mode, t, u.slot)) == Resolve(mode, w, u)
            && |Resolve(mode, w, u).value.val| == ValLen(mode, t.heap, t.refs[u.slot].pos - HEADER)
  {
    hide TabInv, IsDirectory, Key, Len, U32At;
    UidBounds(u);
    AtDefined(mode, w, u);
    TabOf(mode, w, u.tab2);
    ContentUsed(mode, w.tabs[w.redirect[u.tab2]], u.slot);
    EntryFits(mode, w.tabs[w.redirect[u.tab2]], u.slot);
    ValSize(mode, w.tabs[w.redirect[u.tab2]].heap, w.tabs[w.redirect[u.tab2]].refs[u.slot].pos - HEADER);
  }

  lemma ValSize(mode: Mode, h: seq<Byte>, i: nat)
    requires LiveCell(mode, h, i)
    ensures |Val(mode, h, i)| == ValLen(mode, h, i)
  {
  }

  /** Deleting removes the record, if there is one, and nothing else. */
  lemma DeleteRefines(mode: Mode, w: Window, u: Uid)
    requires WindowInv(mode, w) && u in Uids()
    ensures WindowInv(mode, Delete(mode, w, u).0)
    ensures Delete(mode, w, u).1 == if u in Abs(mode, w) then KeyFound else KeyNone
    ensures Abs(mode, Delete(mode, w, u).0) == Abs(mode, w) - {u}
  {
    hide TabInv, Content, IsDirectory, DeleteAt, Uids;
    if Resolve(mode, w, u).Some? {
      ResolvedSlot(mode, w, u);
      var t := w.redirect[u.tab2];
      DeleteKeeps(mode, w.tabs[t], u.slot);
      var tab := DeleteAt(mode, w.tabs[t], u.slot);
      TabShape(mode, tab);
      ChangeSlot(mode, w, t, u.slot, u.tab2, tab);
      AbsSet(mode, w, WithTab(w, t, tab), u);
    } else {
      AbsWithout(mode, w, u);
    }
  }

  lemma AbsWithout(mode: Mode, w: Window, u: Uid)
    requires WindowInv(mode, w) && Resolve(mode, w, u).None?
    ensures u !in Abs(mode, w) && Abs(mode, w) - {u} == Abs(mode, w)
  {
    hide Resolve, Uids;
  }

  /** Overwriting a resolving UID's value in place. */
  lemma Overwrite(mode: Mode, w: Window, u: Uid, val: seq<Byte>)
    requires WindowInv(mode, w) && u in Uids() && Resolve(mode, w, u).Some? && |val| == |Resolve(mode, w, u).value.val|
    ensures var w' := WithVal(mode, w, u, val);
            && u in Abs(mode, w) && WindowInv(mode, w')
            && Abs(mode, w') == Abs(mode, w)[u := Abs(mode, w)[u].(val := val)]
  {
    hide TabInv, Content, IsDirectory, UpdateAt, Uids, Readable, ValLen;
    ResolvedSlot(mode, w, u);
    var t := w.redirect[u.tab2];
    UpdateKeeps(mode, w.tabs[t], u.slot, val);
    var tab := UpdateAt(mode, w.tabs[t], u.slot, val);
    TabShape(mode, tab);
    ChangeSlot(mode, w, t, u.slot, u.tab2, tab);
    AbsSet(mode, w, WithTab(w, t, tab), u);
  }

  /** Updating replaces the value, given one of the same length, and nothing else. */
  lemma UpdateRefines(mode: Mode, w: Window, u: Uid, val: seq<Byte>)
    requires WindowInv(mode, w) && u in Uids()
    ensures WindowInv(mode, Update(mode, w, u, val).0)
    ensures var m := Abs(mode, w);
            && Update(mode, w, u, val).1 == (if u !in m then KeyNone else if |val| != |m[u].val| then BadCallback else KeyFound)
            && Abs(mode, Update(mode, w, u, val).0) == if u in m && |val| == |m[u].val| then m[u := m[u].(val := val)] else m
  {
    hide TabInv, Content, IsDirectory, WithVal, Uids;
    if Resolve(mode, w, u).Some? && |val| == |Resolve(mode, w, u).value.val| {
      Overwrite(mode, w, u, val);
    }
  }

  /** Adding changes the first eight bytes of a value that has them to their wrapped sum, and nothing else. */
  lemma AtomAddRefines(mode: Mode, w: Window, u: Uid, add: int)
    requires WindowInv(mode, w) && u in Uids()
    ensures WindowInv(mode, AtomAdd(mode, w, u, add).0)
    ensures var m := Abs(mode, w);
            && AtomAdd(mode, w, u, add).1 == (if u !in m then KeyNone else if |m[u].val| < 8 then BadVal else KeyFound)
            && Abs(mode, AtomAdd(mode, w, u, add).0) ==
               if u in m && |m[u].val| >= 8 then m[u := m[u].(val := WithU64(m[u].val, (U64At(m[u].val) + add) % TWO_64))] else m
  {
    hide TabInv, Content, IsDirectory, WithVal, Uids, U64At, WithU64;
    if Resolve(mode, w, u).Some? && |Resolve(mode, w, u).value.val| >= 8 {
      var val := Resolve(mode, w, u).value.val;
      Overwrite(mode, w, u, WithU64(val, (U64At(val) + add) % TWO_64));
    }
  }

  /** Copying out returns the record and, shrinking or not, changes nothing; the garbage left in the tab is at most a
      quarter of what is used. */
  lemma GetRefines(mode: Mode, w: Window, u: Uid)
    requires WindowInv(mode, w) && u in Uids()
    ensures WindowInv(mode, Get(mode, w, u).0) && Abs(mode, Get(mode, w, u).0) == Abs(mode, w)
    ensures Get(mode, w, u).1 == if u in Abs(mode, w) then Some(Abs(mode, w)[u]) else None
    ensures NoGarbage(w) ==> NoGarbage(Get(mode, w, u).0)
    ensures u in Abs(mode, w) ==>
              var w' := Get(mode, w, u).0;
              && u.tab2 < |w'.redirect| && w'.redirect[u.tab2] < |w'.tabs|
              && w'.tabs[w'.redirect[u.tab2]].dataFree <= w'.tabs[w'.redirect[u.tab2]].dataUsed / 4
  {
    hide TabInv, Content, IsDirectory, Uids, Shrunk;
    if Resolve(mode, w, u).Some? {
      ResolvedSlot(mode, w, u);
      ShrinkTabKeeps(mode, w, w.redirect[u.tab2]);
    }
  }

  /** A copy shrinks the tab exactly when its garbage is more than a quarter of what is used; otherwise it leaves every
      byte as it is. */
  lemma GetShrinks(mode: Mode, w: Window, u: Uid)
    requires WindowInv(mode, w) && u in Uids()
    ensures u.tab2 < |w.redirect| && w.redirect[u.tab2] < |w.tabs|
    ensures var t, w' := w.redirect[u.tab2], Get(mode, w, u).0;
            if u in Abs(mode, w) && w.tabs[t].dataFree > w.tabs[t].dataUsed / 4 then
              && w'.redirect == w.redirect && |w'.tabs| == |w.tabs| && w'.tabs[t].dataFree == 0
              && forall x :: 0 <= x < |w.tabs| && x != t ==> w'.tabs[x] == w.tabs[x]
            else w' == w
  {
    hide TabInv, Content, IsDirectory, Uids, Shrunk, Resolve;
    UidBounds(u);
    TabOf(mode, w, u.tab2);
    GetRefines(mode, w, u);
    ShrinkKeeps(mode, w.tabs[w.redirect[u.tab2]]);
  }

  // ---- A new window ------------------------------------------------------------

  /** A new window: one empty tab, every index redirected to it. */
  function NewWindow(): Window {
    Window(seq(INDEXES, i => 0), [EmptyTab()])
  }

  lemma NewWindowEmpty(mode: Mode)
    requires Sound(mode)
    ensures WindowInv(mode, NewWindow()) && Abs(mode, NewWindow()) == map[] && NoGarbage(NewWindow())
  {
    FreshDirectory();
    EmptyTabInv(mode);
    var w := NewWindow();
    assert TabOk(mode, w, 0);
    forall u | u in Uids() ensures Resolve(mode, w, u).None? { AtDefined(mode, w, u); }
  }
}
