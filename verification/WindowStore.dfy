/** The window in shared memory: mapped tabs changed by stores, the redirect array, and the loops of put, find, part and
    shrink, proved against the window as a value. */
module WindowStore {
  import opened Common
  import opened Bytes
  import opened TabHeap
  import opened TabFile
  import opened TabCopy
  import opened Directory
  import opened WindowModel
  import opened WindowOps
  import opened Counters
  import opened TabMemory

  // ---- Copying between mapped tabs -----------------------------------------------------

  /** SHF_TAB_REF_COPY: one used ref from one mapped tab to another. */
  method CopyOver(mode: Mode, source: TabMem, target: TabMem, s: nat)
    requires source.Valid() && target.Valid() && source.Repr() !! target.Repr()
    requires s < SLOTS && CopyOk(mode, Pair(source.View(), target.View()), s) && source.refs[s].pos != 0
    modifies source.Repr(), target.Repr()
    ensures source.Valid() && target.Valid() && source.Repr() == old(source.Repr()) && fresh(target.Repr() - old(target.Repr()))
    ensures Readable(mode, old(source.View()), s)
    ensures Pair(source.View(), target.View()) == MoveRef(mode, old(Pair(source.View(), target.View())), s)
  {
    hide TabInv, Len, Tiled, IsStart, Total, Key, Val, KeyLen, ValLen, DeleteAt, PutAt, LiveCell;
    EntryFits(mode, source.View(), s);
    var i := source.refs[s].pos - HEADER;
    var key, val := Key(mode, source.data[..source.used], i), Val(mode, source.data[..source.used], i);
    target.PutRef(mode, s, source.refs[s].tab2, source.refs[s].rnd, key, val);
    source.MarkDeleted(mode, s);
  }

  /** Where the copy loops are: the refs before n are done. */
  ghost predicate CopiedTo(mode: Mode, which: Which, p: Pair, source: TabMem, target: TabMem, n: nat)
    reads source, source.Repr(), target, target.Repr()
  {
    && source.Valid() && target.Valid() && source.Repr() !! target.Repr()
    && n <= SLOTS && CopyOk(mode, p, 0) && |p.from.refs| == |p.to.refs| == SLOTS
    && Pair(source.View(), target.View()) == Copy(mode, which, p, n)
  }

  /** The body of the copy loops at one ref. */
  method CopyNext(mode: Mode, which: Which, source: TabMem, target: TabMem, s: nat, ghost p: Pair)
    requires s < SLOTS && CopiedTo(mode, which, p, source, target, s)
    modifies source.Repr(), target.Repr()
    ensures CopiedTo(mode, which, p, source, target, s + 1)
    ensures source.Repr() == old(source.Repr()) && fresh(target.Repr() - old(target.Repr()))
  {
    hide TabInv, Content, MoveRef, Readable;
    CopyMore(mode, which, p, Pair(source.View(), target.View()), s);
    if source.refs[s].pos != 0 && Selects(which, source.refs[s].tab2) {
      CopyOver(mode, source, target, s);
    }
  }

  /** The nested copy loops: every used ref that is selected moves from source to target. */
  method CopyAll(mode: Mode, which: Which, source: TabMem, target: TabMem, ghost p: Pair)
    requires CopiedTo(mode, which, p, source, target, 0)
    modifies source.Repr(), target.Repr()
    ensures CopiedTo(mode, which, p, source, target, SLOTS)
    ensures source.Repr() == old(source.Repr()) && fresh(target.Repr() - old(target.Repr()))
  {
    hide CopiedTo;
    for row := 0 to ROWS
      invariant CopiedTo(mode, which, p, source, target, row * REFS_PER_ROW)
      invariant source.Repr() == old(source.Repr()) && fresh(target.Repr() - old(target.Repr()))
    {
      for ref := 0 to REFS_PER_ROW
        invariant CopiedTo(mode, which, p, source, target, row * REFS_PER_ROW + ref)
        invariant source.Repr() == old(source.Repr()) && fresh(target.Repr() - old(target.Repr()))
      {
        CopyNext(mode, which, source, target, row * REFS_PER_ROW + ref, p);
      }
    }
  }

  /** shf_tab_shrink: a new tab file with the used refs of the old one. */
  method ShrinkFile(mode: Mode, source: TabMem) returns (target: TabMem)
    requires source.Valid() && Sound(mode) && TabInv(mode, source.View())
    modifies source.Repr()
    ensures source.Valid() && source.Repr() == old(source.Repr())
    ensures target.Valid() && fresh(target.Repr()) && target.View() == Shrunk(mode, old(source.View()))
  {
    hide TabInv, CopyOk, Copied;
    EmptyCopyOk(mode, source.View());
    target := new TabMem(source.factor);
    CopyAll(mode, All, source, target, Pair(source.View(), target.View()));
  }

  // ---- The tabs of a window ---------------------------------------------------------------

  /** Each tab is well formed, lies within repr, and shares nothing with the others. */
  ghost predicate Separate(ts: seq<TabMem>, repr: set<object>)
    reads repr
  {
    && (forall i :: 0 <= i < |ts| ==> Within(ts[i], repr))
    && (forall i, j :: 0 <= i < j < |ts| ==> ts[i] != ts[j] && ts[i].data != ts[j].data && ts[i].refs != ts[j].refs)
  }

  ghost predicate Within(t: TabMem, repr: set<object>)
    reads repr
  {
    t in repr && t.data in repr && t.refs in repr && t.Valid()
  }

  ghost function Views(ts: seq<TabMem>, repr: set<object>): (v: seq<Tab>)
    requires Separate(ts, repr)
    reads repr
    ensures |v| == |ts| && forall i :: 0 <= i < |ts| ==> v[i] == ts[i].View()
  {
    seq(|ts|, i requires 0 <= i < |ts| && Separate(ts, repr) reads repr => ts[i].View())
  }

  /** How a put ends for its caller. */
  datatype PutResult = PutUid(u: Uid) | OutOfTabs | OutOfRoom

  lemma SmallLengths(mode: Mode, t: Tab, key: seq<Byte>, val: seq<Byte>)
    requires Takes(mode, t, key, val)
    ensures |key| < TWO_32 && |val| < TWO_32
  {
  }

  /** Where a put stops without storing. */
  lemma PutEnds(mode: Mode, w: Window, h: Hash, key: seq<Byte>, val: seq<Byte>)
    requires WindowInv(mode, w) && ValidHash(h) && Accepts(mode, key, val)
    ensures |w.redirect| == INDEXES && w.redirect[h.tab2] < |w.tabs| && |w.tabs[w.redirect[h.tab2]].refs| == SLOTS
    ensures var free := FreeFrom(w.tabs[w.redirect[h.tab2]], h.row, 0);
            && (free.Some? && !Takes(mode, w.tabs[w.redirect[h.tab2]], key, val) ==> Put(mode, w, h, key, val) == HeapFull)
            && (free.None? && |w.tabs| == INDEXES ==> Put(mode, w, h, key, val) == TabOverflow)
  {
    hide TabInv, IsDirectory, PutAt, Abs, Shrunk, Part, OwnsNothing, Takes;
    TabOf(mode, w, h.tab2);
  }

  lemma TabsBound(mode: Mode, w: Window)
    requires WindowInv(mode, w)
    ensures |w.tabs| <= INDEXES
  {
  }

  lemma CopyNothing(mode: Mode, which: Which, p: Pair)
    requires CopyOk(mode, p, 0) && |p.from.refs| == |p.to.refs| == SLOTS
    ensures Copy(mode, which, p, 0) == p
  {
  }

  lemma PartStart(mode: Mode, w: Window, t: nat)
    requires WindowInv(mode, w) && t < |w.tabs|
    ensures |w.redirect| == INDEXES && CopyOk(mode, Pair(w.tabs[t], EmptyTab()), 0) && |w.tabs[t].refs| == |EmptyTab().refs| == SLOTS
    ensures PartPair(mode, w, t) == Copy(mode, GoingTo(Split(w.redirect, t, |w.tabs|, INDEXES).0, |w.tabs|), Pair(w.tabs[t], EmptyTab()), SLOTS)
    ensures forall j :: 0 <= j < INDEXES ==> w.redirect[j] < |w.tabs|
  {
    hide TabInv, CopyOk, Copied, Split;
    assert TabOk(mode, w, t);
    SplitOnlyHere(mode, w, t);
    EmptyCopyOk(mode, w.tabs[t]);
  }

  lemma PartFrom(mode: Mode, w: Window, t: nat)
    requires WindowInv(mode, w) && t < |w.tabs|
    ensures Sound(mode) && TabInv(mode, w.tabs[t]) && TabInv(mode, PartPair(mode, w, t).from)
  {
    hide TabInv;
    assert TabOk(mode, w, t);
    EmptyCopyOk(mode, w.tabs[t]);
  }

  class SharedWindow {
    const mode: Mode
    const factor: nat            // shf_data_needed_factor
    const redirect: array<nat>   // tabs[].tab
    var tabs: seq<TabMem>        // the tabs_used mapped tabs
    ghost var repr: set<object>  // what the tabs are made of

    /** The tabs are apart from each other and from the redirect array. */
    ghost predicate Shape()
      reads this, repr
    {
      Separate(tabs, repr) && this !in repr && redirect !in repr
    }

    ghost function View(): Window
      requires Shape()
      reads this, redirect, repr
    {
      Window(redirect[..], Views(tabs, repr))
    }

    ghost predicate Valid()
      reads this, redirect, repr
    {
      factor >= 1 && Shape() && WindowInv(mode, View())
    }

    constructor (mode: Mode, factor: nat)
      requires Sound(mode) && factor >= 1
      ensures Valid() && View() == NewWindow() && this.mode == mode
      ensures fresh(redirect) && fresh(repr)
    {
      this.mode, this.factor := mode, factor;
      var first := new TabMem(factor);
      redirect := new nat[INDEXES](i => 0);
      tabs := [first];
      repr := first.Repr();
      new;
      NewWindowEmpty(mode);
      assert redirect[..] == NewWindow().redirect;
      assert Views(tabs, repr) == NewWindow().tabs;
    }

    /** The other tabs are as they were. */
    twostate predicate OthersKept(t: nat)
      requires old(Shape()) && Shape()
      reads this, redirect, repr
    {
      |View().tabs| == |old(View()).tabs| && forall i :: 0 <= i < |View().tabs| && i != t ==> View().tabs[i] == old(View()).tabs[i]
    }

    lemma TabsAre()
      requires Shape()
      ensures |View().tabs| == |tabs| && View().redirect == redirect[..]
    {
    }

    /** A new tab file with the used refs of tab t. */
    method ShrunkFile(t: nat) returns (source: TabMem)
      requires Shape() && t < |tabs| == |View().tabs| && Sound(mode) && TabInv(mode, View().tabs[t])
      modifies tabs[t].Repr()
      ensures Shape() && OthersKept(t) && View().redirect == old(View()).redirect
      ensures source.Valid() && fresh(source.Repr()) && source.View() == Shrunk(mode, old(View()).tabs[t])
    {
      hide TabInv, Shrunk;
      source := ShrinkFile(mode, tabs[t]);
    }

    /** One tab put in place of another. */
    method Replace(t: nat, replacement: TabMem)
      requires Shape() && t < |tabs| && replacement.Valid()
      requires replacement.Repr() !! repr && this !in replacement.Repr() && redirect !in replacement.Repr()
      modifies this`tabs, this`repr
      ensures Shape() && repr == old(repr) + replacement.Repr() && |tabs| == |old(tabs)|
      ensures View() == Window(old(View()).redirect, old(View()).tabs[t := replacement.View()])
    {
      tabs := tabs[t := replacement];
      repr := repr + replacement.Repr();
      assert Views(tabs, repr) == old(Views(tabs, repr))[t := replacement.View()];
    }

    /** A tab added. */
    method Add(target: TabMem)
      requires Shape() && target.Valid() && target.Repr() !! repr && this !in target.Repr() && redirect !in target.Repr()
      modifies this`tabs, this`repr
      ensures Shape() && repr == old(repr) + target.Repr() && |tabs| == |old(tabs)| + 1
      ensures View() == Window(old(View()).redirect, old(View()).tabs + [target.View()])
    {
      tabs := tabs + [target];
      repr := repr + target.Repr();
      assert Views(tabs, repr) == old(Views(tabs, repr)) + [target.View()];
    }

    /** shf_tab_shrink: the rebuilt tab takes the old one's place. */
    method ShrinkAt(t: nat)
      requires t < |tabs| && Shape() && Sound(mode) && TabInv(mode, tabs[t].View())
      modifies this`tabs, this`repr, tabs[t].Repr()
      ensures Shape() && View() == ShrinkTab(mode, old(View()), t)
      ensures |tabs| == |old(tabs)| && fresh(repr - old(repr))
    {
      hide TabInv, Shrunk;
      var replacement := ShrunkFile(t);
      Replace(t, replacement);
      assert View().tabs == old(View()).tabs[t := replacement.View()];
    }

    /** The copy loops of a parting. */
    method CopyRefs(which: Which, t: nat, target: TabMem, ghost p: Pair)
      requires Shape() && t < |tabs| && target.Repr() !! repr && this !in target.Repr() && redirect !in target.Repr()
      requires CopiedTo(mode, which, p, tabs[t], target, 0)
      modifies tabs[t].Repr(), target.Repr()
      ensures Shape() && OthersKept(t) && tabs[t].Repr() == old(tabs[t].Repr())
      ensures target.Valid() && fresh(target.Repr() - old(target.Repr()))
      ensures Pair(tabs[t].View(), target.View()) == Copy(mode, which, p, SLOTS)
      ensures CopyOk(mode, p, 0) && |p.from.refs| == |p.to.refs| == SLOTS
    {
      hide CopyOk, Copy, Copied;
      CopyAll(mode, which, tabs[t], target, p);
    }

    /** The redirect loop of a parting. */
    method PartRedirect(t: nat)
      requires Shape() && |View().redirect| == INDEXES && forall j :: 0 <= j < INDEXES ==> View().redirect[j] < |tabs|
      requires t < |tabs|
      modifies redirect
      ensures Shape() && View() == Window(Split(old(View()).redirect, t, |tabs|, INDEXES).0, old(View()).tabs)
    {
      hide Split;
      SplitInPlace(redirect, t, |tabs|);
      assert Views(tabs, repr) == old(Views(tabs, repr));
    }

    /** The redirect and copy loops of a parting. */
    method PartCopy(t: nat) returns (target: TabMem)
      requires Valid() && t < |tabs|
      modifies redirect, tabs[t].Repr()
      ensures Shape() && OthersKept(t) && View().redirect == Split(old(View()).redirect, t, |tabs|, INDEXES).0
      ensures tabs[t].Repr() == old(tabs[t].Repr()) && t < |View().tabs| == |tabs|
      ensures target.Valid() && fresh(target.Repr())
      ensures Pair(View().tabs[t], target.View()) == PartPair(mode, old(View()), t)
    {
      hide TabInv, Copied, CopyOk, Copy, Split, IsDirectory, WindowInv, PartPair;
      PartStart(mode, View(), t);
      target := new TabMem(factor);
      ghost var p := Pair(tabs[t].View(), target.View());
      assert CopiedTo(mode, GoingTo(Split(View().redirect, t, |tabs|, INDEXES).0, |tabs|), p, tabs[t], target, 0) by {
        CopyNothing(mode, GoingTo(Split(View().redirect, t, |tabs|, INDEXES).0, |tabs|), p);
      }
      PartRedirect(t);
      CopyRefs(GoingTo(redirect[..], |tabs|), t, target, p);
    }

    /** shf_tab_part. */
    method PartAt(t: nat)
      requires Valid() && t < |tabs|
      modifies this`tabs, this`repr, redirect, tabs[t].Repr()
      ensures Shape() && View() == Part(mode, old(View()), t)
      ensures fresh(repr - old(repr))
    {
      hide TabInv, Shrunk, Copied, CopyOk, Split, IsDirectory, PartPair, WindowInv, View, Views, Separate;
      ghost var w := View();
      TabsAre();
      PartFrom(mode, w, t);
      var target := PartCopy(t);
      var source := ShrunkFile(t);
      Replace(t, source);
      Add(target);
      assert View().tabs == Part(mode, w, t).tabs;
    }

    /** A record put into one tab. */
    method PutInto(t: nat, h: Hash, s: nat, key: seq<Byte>, val: seq<Byte>)
      requires Shape() && t < |tabs| && Sound(mode) && s < SLOTS
      requires TabInv(mode, tabs[t].View()) && |key| < TWO_32 && |val| < TWO_32 && Accepts(mode, key, val)
      modifies this`repr, tabs[t].Repr()
      ensures Shape() && tabs == old(tabs) && redirect[..] == old(redirect[..])
      ensures View() == WithTab(old(View()), t, PutAt(mode, old(tabs[t].View()), s, h.tab2, h.rnd, key, val))
      ensures tabs[t].View() == PutAt(mode, old(tabs[t].View()), s, h.tab2, h.rnd, key, val)
      ensures fresh(repr - old(repr)) && fresh(tabs[t].Repr() - old(tabs[t].Repr()))
    {
      hide TabInv, PutAt;
      tabs[t].PutRef(mode, s, h.tab2, h.rnd, key, val);
      repr := repr + tabs[t].Repr();
      assert Views(tabs, repr) == old(Views(tabs, repr))[t := tabs[t].View()];
    }

    /** The found branch of a put: store, and shrink when that leaves too much garbage. */
    method StoreAt(t: nat, h: Hash, s: nat, key: seq<Byte>, val: seq<Byte>)
      requires Shape() && t < |tabs| && Sound(mode) && s < SLOTS
      requires TabInv(mode, tabs[t].View()) && |key| < TWO_32 && |val| < TWO_32 && Accepts(mode, key, val)
      requires TabInv(mode, PutAt(mode, tabs[t].View(), s, h.tab2, h.rnd, key, val))
      modifies this`tabs, this`repr, tabs[t].Repr()
      ensures Shape()
      ensures var tab := PutAt(mode, old(tabs[t].View()), s, h.tab2, h.rnd, key, val);
              var w' := WithTab(old(View()), t, tab);
              View() == if TooMuchGarbage(tab) then ShrinkTab(mode, w', t) else w'
      ensures |tabs| == |old(tabs)| && fresh(repr - old(repr))
    {
      hide TabInv, PutAt, ShrinkTab;
      PutInto(t, h, s, key, val);
      if tabs[t].dataFree > tabs[t].dataUsed * 20 % TWO_32 / 100 {
        ShrinkAt(t);
      }
    }

    method StoreFound(h: Hash, t: nat, s: nat, key: seq<Byte>, val: seq<Byte>)
      requires Valid() && ValidHash(h) && Accepts(mode, key, val)
      requires |View().redirect| == INDEXES && t == View().redirect[h.tab2] && t < |View().tabs| && |View().tabs[t].refs| == SLOTS
      requires FreeFrom(View().tabs[t], h.row, 0) == Some(s) && Takes(mode, View().tabs[t], key, val)
      modifies this`tabs, this`repr, repr
      ensures Valid() && WindowOps.Put(mode, old(View()), h, key, val) == Stored(View(), Uid(h.tab2, s))
      ensures |tabs| == |old(tabs)| && fresh(repr - old(repr))
    {
      hide TabInv, IsDirectory, Abs, PutAt, Shrunk, Takes;
      ghost var w := View();
      TabOf(mode, w, h.tab2);
      PutSlot(mode, w, h, s, key, val);
      PutRefines(mode, w, h, key, val);
      SmallLengths(mode, w.tabs[t], key, val);
      StoreAt(t, h, s, key, val);
    }

    /** The tab an index is redirected to, and its row's first unused ref. */
    method FindFree(h: Hash) returns (t: nat, free: Option<nat>)
      requires Valid() && ValidHash(h)
      ensures |tabs| == |View().tabs| && |View().redirect| == INDEXES && t == View().redirect[h.tab2] && t < |tabs| <= INDEXES
      ensures |View().tabs[t].refs| == SLOTS && free == FreeFrom(View().tabs[t], h.row, 0)
    {
      hide TabInv, IsDirectory, WindowInv;
      TabOf(mode, View(), h.tab2);
      TabsBound(mode, View());
      t := redirect[h.tab2];
      free := tabs[t].FindFree(h.row);
    }

    /** Whether the tab has room, by its own counters. */
    method HasRoom(t: nat, key: seq<Byte>, val: seq<Byte>) returns (r: bool)
      requires Valid() && t < |tabs|
      ensures t < |View().tabs| && r == Takes(mode, View().tabs[t], key, val)
    {
      hide WindowInv;
      var len := RecordLen(mode, |key|, |val|);
      r := |key| < TWO_32 && |val| < TWO_32 && ((mode.Fixed? && tabs[t].freePos != 0) || HEADER + tabs[t].used + len < TWO_32);
    }

    /** A parting that a put makes. */
    method PartForPut(h: Hash, t: nat, key: seq<Byte>, val: seq<Byte>)
      requires Valid() && ValidHash(h) && Accepts(mode, key, val)
      requires |View().redirect| == INDEXES && t == View().redirect[h.tab2] && t < |View().tabs| == |tabs| < INDEXES
      requires |View().tabs[t].refs| == SLOTS && FreeFrom(View().tabs[t], h.row, 0).None?
      modifies this`tabs, this`repr, redirect, repr
      ensures Valid() && |tabs| == old(|tabs|) + 1 && fresh(repr - old(repr))
      ensures Abs(mode, View()) == old(Abs(mode, View()))
      ensures WindowOps.Put(mode, View(), h, key, val) == WindowOps.Put(mode, old(View()), h, key, val)
    {
      hide TabInv, IsDirectory, Part, Abs, WindowInv, Shrunk, OwnsNothing;
      TabOf(mode, View(), h.tab2);
      PartKeeps(mode, View(), t);
      PartAt(t);
    }

    /** shf_put_key_val: part and retry until the row has an unused ref. */
    method Put(h: Hash, key: seq<Byte>, val: seq<Byte>) returns (r: PutResult)
      requires Valid() && ValidHash(h) && Accepts(mode, key, val)
      modifies this`tabs, this`repr, redirect, repr
      ensures r == match WindowOps.Put(mode, old(View()), h, key, val)
                   case Stored(_, u) => PutUid(u) case TabOverflow => OutOfTabs case HeapFull => OutOfRoom
      ensures Valid()
      ensures WindowOps.Put(mode, old(View()), h, key, val).Stored? ==> View() == WindowOps.Put(mode, old(View()), h, key, val).w
      ensures !WindowOps.Put(mode, old(View()), h, key, val).Stored? ==> Abs(mode, View()) == old(Abs(mode, View()))
      ensures fresh(repr - old(repr))
    {
      hide Shape, Separate, View, Abs, WindowInv, Takes, WindowOps.Put, FreeFrom;
      ghost var o := WindowOps.Put(mode, View(), h, key, val);
      while true
        invariant Valid() && WindowOps.Put(mode, View(), h, key, val) == o
        invariant Abs(mode, View()) == old(Abs(mode, View()))
        invariant fresh(repr - old(repr))
        decreases INDEXES - |tabs|
      {
        var t, free := FindFree(h);
        PutEnds(mode, View(), h, key, val);
        if free.Some? {
          var room := HasRoom(t, key, val);
          if !room { return OutOfRoom; }
          StoreFound(h, t, free.value, key, val);
          return PutUid(Uid(h.tab2, free.value));
        }
        if |tabs| == INDEXES { return OutOfTabs; }
        PartForPut(h, t, key, val);
      }
    }

    /** Lookup by key. */
    method FindKey(h: Hash, key: seq<Byte>) returns (r: Option<Uid>)
      requires Valid() && ValidHash(h)
      ensures r == Find(mode, View(), h, key)
    {
      hide TabInv, IsDirectory, WindowInv, FindFrom;
      TabOf(mode, View(), h.tab2);
      var s := tabs[redirect[h.tab2]].FindInRow(mode, h, key);
      r := if s.None? then None else Some(Uid(h.tab2, s.value));
    }

    /** Whether a UID points at a used ref of its own index, and the tab that ref is in. */
    method FindSlot(u: Uid) returns (found: bool, t: nat)
      requires Valid() && u in Uids()
      ensures found == Resolve(mode, View(), u).Some?
      ensures t < |tabs| && redirect.Length == INDEXES && u.tab2 < INDEXES && u.slot < SLOTS && t == redirect[u.tab2]
    {
      hide TabInv, IsDirectory, Content;
      UidBounds(u);
      TabOf(mode, View(), u.tab2);
      AtDefined(mode, View(), u);
      t := redirect[u.tab2];
      ContentUsed(mode, tabs[t].View(), u.slot);
      found := tabs[t].refs[u.slot].pos != 0 && tabs[t].refs[u.slot].tab2 == u.tab2;
    }

    /** shf_del_key_val and shf_del_uid_val. */
    method DeleteUid(u: Uid) returns (r: Found)
      requires Valid() && u in Uids()
      modifies repr
      ensures Valid() && (View(), r) == Delete(mode, old(View()), u)
      ensures tabs == old(tabs) && repr == old(repr)
    {
      hide TabInv, IsDirectory, Content, DeleteAt, WindowInv, Resolve;
      var found, t := FindSlot(u);
      DeleteRefines(mode, View(), u);
      if !found { return KeyNone; }
      ResolvedSlot(mode, View(), u);
      SoundWindow(mode, View());
      tabs[t].MarkDeleted(mode, u.slot);
      assert Views(tabs, repr) == old(Views(tabs, repr))[t := tabs[t].View()];
      r := KeyFound;
    }

    /** The value at a resolving UID overwritten. */
    method OverwriteAt(u: Uid, t: nat, val: seq<Byte>)
      requires Valid() && u in Uids() && Resolve(mode, View(), u).Some? && |val| == |Resolve(mode, View(), u).value.val|
      requires redirect.Length == INDEXES && u.tab2 < INDEXES && u.slot < SLOTS && t == redirect[u.tab2] && t < |tabs|
      modifies repr
      ensures tabs == old(tabs) && repr == old(repr) && Shape() && (View(), KeyFound) == Update(mode, old(View()), u, val)
    {
      hide TabInv, IsDirectory, Content, UpdateAt, WindowInv, Resolve, ValLen, Len;
      ResolvedSlot(mode, View(), u);
      tabs[t].Overwrite(mode, u.slot, val);
      assert Views(tabs, repr) == old(Views(tabs, repr))[t := tabs[t].View()];
    }

    /** shf_upd_uid_val with the copying callback. */
    method UpdateUid(u: Uid, val: seq<Byte>) returns (r: Found)
      requires Valid() && u in Uids()
      modifies repr
      ensures Valid() && (View(), r) == Update(mode, old(View()), u, val)
      ensures tabs == old(tabs) && repr == old(repr)
    {
      hide TabInv, IsDirectory, Content, UpdateAt, WindowInv, Resolve;
      var found, t := FindSlot(u);
      UpdateRefines(mode, View(), u, val);
      if !found { return KeyNone; }
      ResolvedSlot(mode, View(), u);
      if |val| != ValLen(mode, tabs[t].data[..tabs[t].used], tabs[t].refs[u.slot].pos - HEADER) { return BadCallback; }
      OverwriteAt(u, t, val);
      r := KeyFound;
    }

    /** shf_add_uid_val_atom: the sum is what the add stores and returns. */
    method AtomAddUid(u: Uid, add: int) returns (r: Found, sum: nat)
      requires Valid() && u in Uids()
      modifies repr
      ensures Valid() && (View(), r) == AtomAdd(mode, old(View()), u, add)
      ensures tabs == old(tabs) && repr == old(repr)
      ensures r == KeyFound ==> u in Abs(mode, View()) && |Abs(mode, View())[u].val| >= 8 && sum == U64At(Abs(mode, View())[u].val)
    {
      hide TabInv, IsDirectory, UpdateAt, WindowInv, Resolve, U64At, WithU64, Len, ValLen, IsStart, Abs;
      var found, t := FindSlot(u);
      AtomAddRefines(mode, View(), u, add);
      sum := 0;
      if !found { return KeyNone, sum; }
      ResolvedSlot(mode, View(), u);
      Resolves(mode, View(), u);
      var i := tabs[t].refs[u.slot].pos - HEADER;
      if ValLen(mode, tabs[t].data[..tabs[t].used], i) < 8 { return BadVal, sum; }
      var val := Val(mode, tabs[t].data[..tabs[t].used], i);
      sum := (U64At(val) + add) % TWO_64;
      U64RoundTrip(val, sum);
      OverwriteAt(u, t, WithU64(val, sum));
      r := KeyFound;
    }

    /** shf_get_uid_key_copy and shf_get_uid_val_copy: copy out, then shrink a tab with much garbage. */
    method GetUid(u: Uid) returns (r: Option<Record>)
      requires Valid() && u in Uids()
      modifies this`tabs, this`repr, repr
      ensures Valid() && (View(), r) == Get(mode, old(View()), u)
      ensures |tabs| == |old(tabs)| && fresh(repr - old(repr))
    {
      hide TabInv, IsDirectory, WindowInv, Resolve, Len, IsStart, Shrunk;
      var found, t := FindSlot(u);
      GetRefines(mode, View(), u);
      if !found { return None; }
      ResolvedSlot(mode, View(), u);
      var i := tabs[t].refs[u.slot].pos - HEADER;
      r := Some(Record(tabs[t].refs[u.slot].rnd, Key(mode, tabs[t].data[..tabs[t].used], i), Val(mode, tabs[t].data[..tabs[t].used], i)));
      if tabs[t].dataFree > tabs[t].dataUsed / 4 {
        SoundWindow(mode, View());
        ShrinkAt(t);
      }
    }

    /** The found branch of an add: add in place, and delete the key when it reaches zero. */
    method AddFoundVal(h: Hash, key: seq<Byte>, u: Uid, add: int) returns (added: bool)
      requires Valid() && ValidHash(h) && Accepts(mode, key, LongVal(add)) && Find(mode, View(), h, key) == Some(u)
      modifies repr
      ensures Valid() && added == AddKey(mode, old(View()), h, key, add).Added?
      ensures added ==> View() == AddKey(mode, old(View()), h, key, add).w
      ensures !added ==> View() == old(View())
      ensures tabs == old(tabs) && repr == old(repr)
    {
      hide WindowInv, WindowOps.Put, AtomAdd, Delete, Find, U64At, LongVal, Uids, Resolve, Abs;
      ghost var w := View();
      FindCorrect(mode, w, h, key);
      InAbs(mode, w, u);
      AtomAddRefines(mode, w, u, add);
      AddedWithUnchanged(mode, w, u, add);
      var result, sum := AtomAddUid(u, add);
      if result != KeyFound { return false; }
      if sum == 0 {
        FindCorrect(mode, View(), h, key);
        var again := FindKey(h, key);
        if again.Some? {
          InAbs(mode, View(), again.value);
          var _ := DeleteUid(again.value);
        }
      }
      added := true;
    }

    /** shf_add_key_val: the window afterwards, unless the value was too short or the put aborted. */
    method AddKeyVal(h: Hash, key: seq<Byte>, add: int) returns (added: bool)
      requires Valid() && ValidHash(h) && Accepts(mode, key, LongVal(add))
      modifies this`tabs, this`repr, redirect, repr
      ensures Valid() && added == AddKey(mode, old(View()), h, key, add).Added?
      ensures added ==> View() == AddKey(mode, old(View()), h, key, add).w
      ensures !added ==> Abs(mode, View()) == old(Abs(mode, View()))
    {
      hide WindowInv, WindowOps.Put, AtomAdd, Delete, Find, U64At, LongVal, Uids, Resolve, Abs;
      var found := FindKey(h, key);
      if found.None? {
        var r := Put(h, key, LongVal(add));
        added := r.PutUid?;
      } else {
        added := AddFoundVal(h, key, found.value, add);
      }
    }
  }

  /** A refused add leaves the window as it was. */
  lemma AddedWithUnchanged(mode: Mode, w: Window, u: Uid, add: int)
    requires WindowInv(mode, w) && u in Uids()
    ensures AtomAdd(mode, w, u, add).1 != KeyFound ==> AtomAdd(mode, w, u, add).0 == w
  {
    hide WindowInv, Resolve, U64At, WithU64;
  }

  lemma Resolves(mode: Mode, w: Window, u: Uid)
    requires WindowInv(mode, w) && u in Uids()
    ensures u in Abs(mode, w) <==> Resolve(mode, w, u).Some?
    ensures u in Abs(mode, w) ==> Abs(mode, w)[u] == Resolve(mode, w, u).value
  {
    hide WindowInv, Resolve, Uids;
  }

  lemma SoundWindow(mode: Mode, w: Window)
    requires WindowInv(mode, w)
    ensures Sound(mode)
  {
  }
}
