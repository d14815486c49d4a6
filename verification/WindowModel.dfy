/** A window: the redirect array and its tabs, as values; and the map from UID to record that it stands for. */
module WindowModel {
  import opened Common
  import opened Bytes
  import opened TabHeap
  import opened TabFile
  import opened TabCopy
  import opened Directory

  const ROWS := 512
  const RNDS := 0x20_0000   // 2 to the 21

  datatype Window = Window(redirect: seq<nat>, tabs: seq<Tab>)

  /** The parts of a key's hash: index into the redirect array, row, and the bits kept beside the ref. */
  datatype Hash = Hash(tab2: nat, row: nat, rnd: nat)

  predicate ValidHash(h: Hash) {
    h.tab2 < INDEXES && h.row < ROWS && h.rnd < RNDS
  }

  /** A UID within a window; the slot is row * 16 + ref. */
  datatype Uid = Uid(tab2: nat, slot: nat)

  datatype Record = Record(rnd: nat, key: seq<Byte>, val: seq<Byte>)

  function Uids(): set<Uid> {
    set tab2, slot | 0 <= tab2 < INDEXES && 0 <= slot < SLOTS :: Uid(tab2, slot)
  }

  // ---- Invariant and meaning -------------------------------------------------------

  /** A used ref is in the tab its own index is redirected to. */
  ghost predicate Placed(w: Window, t: nat, s: nat)
    requires t < |w.tabs| && s < |w.tabs[t].refs|
  {
    var r := w.tabs[t].refs[s];
    r.pos != 0 ==> r.tab2 < |w.redirect| && w.redirect[r.tab2] == t
  }

  ghost predicate TabOk(mode: Mode, w: Window, t: nat)
    requires t < |w.tabs|
  {
    && TabInv(mode, w.tabs[t]) && |w.tabs[t].refs| == SLOTS
    && forall s :: 0 <= s < SLOTS ==> Placed(w, t, s)
  }

  ghost predicate WindowInv(mode: Mode, w: Window) {
    && Sound(mode)
    && IsDirectory(w.redirect, |w.tabs|) && |w.tabs| <= INDEXES
    && forall t :: 0 <= t < |w.tabs| ==> TabOk(mode, w, t)
  }

  /** The record a UID resolves to: through the redirect array to a tab, then by slot, if the ref's index agrees. */
  function At(mode: Mode, w: Window, u: Uid): Option<Record>
    requires u.tab2 < |w.redirect| && w.redirect[u.tab2] < |w.tabs| && u.slot < |w.tabs[w.redirect[u.tab2]].refs|
  {
    var e := Content(mode, w.tabs[w.redirect[u.tab2]], u.slot);
    if e.Some? && e.value.tab2 == u.tab2 then Some(Record(e.value.rnd, e.value.key, e.value.val)) else None
  }

  lemma AtDefined(mode: Mode, w: Window, u: Uid)
    requires WindowInv(mode, w) && u in Uids()
    ensures u.tab2 < |w.redirect| && w.redirect[u.tab2] < |w.tabs| && u.slot < |w.tabs[w.redirect[u.tab2]].refs|
    ensures TabOk(mode, w, w.redirect[u.tab2])
  {
    assert TabOk(mode, w, w.redirect[u.tab2]);
  }

  /** At, for any UID. */
  ghost function Resolve(mode: Mode, w: Window, u: Uid): Option<Record>
    requires WindowInv(mode, w)
  {
    if u in Uids() then AtDefined(mode, w, u); At(mode, w, u) else None
  }

  /** The store as its callers see it. */
  ghost function Abs(mode: Mode, w: Window): map<Uid, Record>
    requires WindowInv(mode, w)
  {
    map u | u in Uids() && Resolve(mode, w, u).Some? :: Resolve(mode, w, u).value
  }

  lemma AbsEqual(mode: Mode, w: Window, w': Window)
    requires WindowInv(mode, w) && WindowInv(mode, w')
    requires forall u :: u in Uids() ==> Resolve(mode, w', u) == Resolve(mode, w, u)
    ensures Abs(mode, w') == Abs(mode, w)
  {
    hide Resolve, Uids;
  }

  /** No bytes marked deleted anywhere. */
  ghost predicate NoGarbage(w: Window) {
    forall t :: 0 <= t < |w.tabs| ==> w.tabs[t].dataFree == 0
  }

  // ---- Shrinking ----------------------------------------------------------------------

  lemma EmptyCopyOk(mode: Mode, t: Tab)
    requires Sound(mode) && TabInv(mode, t)
    ensures CopyOk(mode, Pair(t, EmptyTab()), 0) && |t.refs| == SLOTS
  {
    EmptyTabInv(mode);
    UsedIsLivePlusFree(mode, t);
  }

  /** shf_tab_shrink: the tab rebuilt from its used refs. */
  ghost function Shrunk(mode: Mode, t: Tab): Tab
    requires Sound(mode) && TabInv(mode, t)
  {
    EmptyCopyOk(mode, t);
    Copy(mode, All, Pair(t, EmptyTab()), SLOTS).to
  }

  /** Shrinking keeps every entry at its slot and all live bytes, and leaves no garbage. */
  lemma ShrinkKeeps(mode: Mode, t: Tab)
    requires Sound(mode) && TabInv(mode, t)
    ensures var t' := Shrunk(mode, t);
            && TabInv(mode, t') && t'.dataFree == 0 && t'.dataUsed == t.dataUsed && |t'.refs| == |t.refs| == SLOTS
            && forall s :: 0 <= s < SLOTS ==> Content(mode, t', s) == Content(mode, t, s)
  {
    hide TabInv, Content, Copy;
    EmptyCopyOk(mode, t);
    EmptyTabInv(mode);
    var p := Pair(t, EmptyTab());
    var p' := Copy(mode, All, p, SLOTS);
    assert Copied(mode, All, p, p', SLOTS);
    forall s | 0 <= s < SLOTS ensures Content(mode, p'.to, s) == Content(mode, t, s) && p'.from.refs[s].pos == 0 {
      ContentUsed(mode, t, s);
      ContentUsed(mode, p'.from, s);
    }
    NoRefsNoBytes(mode, p'.from);
  }

  ghost function ShrinkTab(mode: Mode, w: Window, t: nat): Window
    requires t < |w.tabs| && Sound(mode) && TabInv(mode, w.tabs[t])
  {
    w.(tabs := w.tabs[t := Shrunk(mode, w.tabs[t])])
  }

  /** Replacing a tab by one with the same entries changes nothing a caller can see. */
  lemma SameEntries(mode: Mode, w: Window, t: nat, tab: Tab)
    requires WindowInv(mode, w) && t < |w.tabs|
    requires TabInv(mode, tab) && |tab.refs| == |w.tabs[t].refs| == SLOTS
    requires forall s :: 0 <= s < SLOTS ==> Content(mode, tab, s) == Content(mode, w.tabs[t], s)
    ensures var w' := w.(tabs := w.tabs[t := tab]); WindowInv(mode, w') && Abs(mode, w') == Abs(mode, w)
  {
    hide TabInv, Content, IsDirectory, Uids, Abs;
    var w' := w.(tabs := w.tabs[t := tab]);
    assert TabOk(mode, w, t);
    forall s | 0 <= s < SLOTS ensures Placed(w', t, s) {
      ContentUsed(mode, tab, s);
      ContentUsed(mode, w.tabs[t], s);
      assert Placed(w, t, s);
    }
    forall k | 0 <= k < |w'.tabs| ensures TabOk(mode, w', k) {
      assert TabOk(mode, w, k);
      if k != t { forall s | 0 <= s < SLOTS ensures Placed(w', k, s) { assert Placed(w, k, s); } }
    }
    forall u | u in Uids() ensures Resolve(mode, w', u) == Resolve(mode, w, u) {
      AtDefined(mode, w, u);
      assert u.slot < SLOTS by { UidBounds(u); }
    }
    AbsEqual(mode, w, w');
  }

  lemma UidBounds(u: Uid)
    requires u in Uids()
    ensures u.tab2 < INDEXES && u.slot < SLOTS
  {
  }

  lemma ShrinkTabKeeps(mode: Mode, w: Window, t: nat)
    requires WindowInv(mode, w) && t < |w.tabs|
    ensures TabInv(mode, w.tabs[t])
    ensures WindowInv(mode, ShrinkTab(mode, w, t)) && Abs(mode, ShrinkTab(mode, w, t)) == Abs(mode, w)
    ensures ShrinkTab(mode, w, t).tabs[t].dataFree == 0
    ensures NoGarbage(w) ==> NoGarbage(ShrinkTab(mode, w, t))
  {
    hide TabInv, Content, IsDirectory, Abs, Shrunk;
    assert TabOk(mode, w, t);
    ShrinkKeeps(mode, w.tabs[t]);
    SameEntries(mode, w, t, Shrunk(mode, w.tabs[t]));
  }

  // ---- Parting --------------------------------------------------------------------------

  ghost function PartPair(mode: Mode, w: Window, t: nat): Pair
    requires WindowInv(mode, w) && t < |w.tabs|
  {
    assert TabOk(mode, w, t);
    EmptyCopyOk(mode, w.tabs[t]);
    Copy(mode, GoingTo(Split(w.redirect, t, |w.tabs|, INDEXES).0, |w.tabs|), Pair(w.tabs[t], EmptyTab()), SLOTS)
  }

  /** shf_tab_part: every second index of tab t to a new tab, its refs with them, and t shrunk. */
  ghost function Part(mode: Mode, w: Window, t: nat): Window
    requires WindowInv(mode, w) && t < |w.tabs|
  {
    var p := PartPair(mode, w, t);
    Window(Split(w.redirect, t, |w.tabs|, INDEXES).0, w.tabs[t := Shrunk(mode, p.from)] + [p.to])
  }

  /** The two assertions inside the parting loop: a used ref of the parted tab goes to the old or the new tab. */
  lemma PartAssertions(mode: Mode, w: Window, t: nat, s: nat)
    requires WindowInv(mode, w) && t < |w.tabs| && s < SLOTS
    ensures |w.tabs[t].refs| == SLOTS
    ensures w.tabs[t].refs[s].pos != 0 ==>
              var redirect' := Split(w.redirect, t, |w.tabs|, INDEXES).0;
              w.tabs[t].refs[s].tab2 < INDEXES && (redirect'[w.tabs[t].refs[s].tab2] == t || redirect'[w.tabs[t].refs[s].tab2] == |w.tabs|)
  {
    assert TabOk(mode, w, t) && Placed(w, t, s);
    SplitOnly(w.redirect, t, |w.tabs|, INDEXES);
  }

  /** What parting does to the entries of the two tabs. */
  lemma PartTabs(mode: Mode, w: Window, t: nat)
    requires WindowInv(mode, w) && t < |w.tabs|
    ensures var w', n := Part(mode, w, t), |w.tabs|;
            && |w'.tabs| == n + 1 && |w'.redirect| == INDEXES
            && TabInv(mode, w'.tabs[t]) && TabInv(mode, w'.tabs[n]) && |w'.tabs[t].refs| == |w'.tabs[n].refs| == |w.tabs[t].refs| == SLOTS
            && w'.tabs[t].dataFree == 0 && w'.tabs[n].dataFree == 0
            && (forall k :: 0 <= k < n && k != t ==> w'.tabs[k] == w.tabs[k])
            && (forall s :: 0 <= s < SLOTS ==>
                  var goes := w.tabs[t].refs[s].pos != 0 && Selects(GoingTo(w'.redirect, n), w.tabs[t].refs[s].tab2);
                  && Content(mode, w'.tabs[n], s) == (if goes then Content(mode, w.tabs[t], s) else None)
                  && Content(mode, w'.tabs[t], s) == (if goes then None else Content(mode, w.tabs[t], s)))
  {
    hide TabInv, Content, IsDirectory, Copy, Split, Shrunk;
    assert TabOk(mode, w, t);
    EmptyCopyOk(mode, w.tabs[t]);
    EmptyTabInv(mode);
    SplitOnlyHere(mode, w, t);
    var p := PartPair(mode, w, t);
    ShrinkKeeps(mode, p.from);
  }

  /** Parting changes nothing a caller can see: every UID still resolves to its record. */
  lemma PartKeeps(mode: Mode, w: Window, t: nat)
    requires WindowInv(mode, w) && t < |w.tabs| < INDEXES && !OwnsNothing(w.redirect, t)
    ensures WindowInv(mode, Part(mode, w, t)) && Abs(mode, Part(mode, w, t)) == Abs(mode, w)
    ensures |Part(mode, w, t).tabs| == |w.tabs| + 1
    ensures NoGarbage(w) ==> NoGarbage(Part(mode, w, t))
  {
    hide TabInv, Content, IsDirectory, OwnsNothing, Split, Shrunk, PartPair, Abs, Uids;
    var w', n := Part(mode, w, t), |w.tabs|;
    PartTabs(mode, w, t);
    SplitKeeps(w.redirect, n, t);
    PartPlaces(mode, w, t);
    forall u | u in Uids() ensures Resolve(mode, w', u) == Resolve(mode, w, u) {
      PartResolves(mode, w, t, u);
    }
    AbsEqual(mode, w, w');
  }

  lemma PartPlaces(mode: Mode, w: Window, t: nat)
    requires WindowInv(mode, w) && t < |w.tabs|
    ensures forall k :: 0 <= k < |w.tabs| + 1 ==> k < |Part(mode, w, t).tabs| && TabOk(mode, Part(mode, w, t), k)
  {
    hide TabInv, Content, IsDirectory, Split, Shrunk, PartPair;
    var w', n := Part(mode, w, t), |w.tabs|;
    PartTabs(mode, w, t);
    SplitOnlyHere(mode, w, t);
    forall k | 0 <= k < n + 1 ensures TabOk(mode, w', k) {
      if k == t || k == n {
        forall s | 0 <= s < SLOTS ensures Placed(w', k, s) {
          ContentUsed(mode, w'.tabs[k], s);
          assert TabOk(mode, w, t) && Placed(w, t, s);
          ContentUsed(mode, w.tabs[t], s);
        }
      } else {
        assert TabOk(mode, w, k);
        forall s | 0 <= s < SLOTS ensures Placed(w', k, s) { assert Placed(w, k, s); }
      }
    }
  }

  lemma SplitOnlyHere(mode: Mode, w: Window, t: nat)
    requires WindowInv(mode, w) && t < |w.tabs|
    ensures |w.redirect| == INDEXES
    ensures forall j :: 0 <= j < INDEXES ==> w.redirect[j] < |w.tabs|
    ensures var s := Split(w.redirect, t, |w.tabs|, INDEXES).0;
            |s| == INDEXES && forall j :: 0 <= j < INDEXES ==> s[j] == w.redirect[j] || (w.redirect[j] == t && s[j] == |w.tabs|)
  {
    SplitOnly(w.redirect, t, |w.tabs|, INDEXES);
  }

  lemma PartResolves(mode: Mode, w: Window, t: nat, u: Uid)
    requires WindowInv(mode, w) && t < |w.tabs| && WindowInv(mode, Part(mode, w, t)) && u in Uids()
    ensures Resolve(mode, Part(mode, w, t), u) == Resolve(mode, w, u)
  {
    hide TabInv, Content, IsDirectory, Split, Shrunk, PartPair;
    UidBounds(u);
    AtDefined(mode, w, u);
    AtDefined(mode, Part(mode, w, t), u);
    PartTabs(mode, w, t);
    SplitOnlyHere(mode, w, t);
    var k := w.redirect[u.tab2];
    ContentUsed(mode, w.tabs[k], u.slot);
  }
}
