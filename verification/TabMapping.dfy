/** How processes keep their mappings of a window's tab files current while other processes grow, replace and
    add files. Every operation runs under the window lock, so the operations are the steps of the protocol. */
module TabMapping {
  import opened Common

  const PAGE := 4096
  const TAB_BYTES := 69632    // pages of an empty tab: a 24-byte header and 512 rows of 128 bytes
  const RELOAD := 1           // tab_size left behind in a file that was replaced

  /** One generation of a tab file: its size on disk and the tab_size field inside it. */
  datatype File = File(bytes: nat, header: nat)

  datatype Mapping = Mapping(gen: nat, size: nat)

  /** A process: its mapping of each tab it has looked up, and count_mmap, which also counts the shared root. */
  datatype Process = Process(tabs: map<nat, Mapping>, countMmap: nat)

  /** files[t] lists every generation of tab t; the last one is the file on disk. */
  datatype World = World(files: seq<seq<File>>, procs: seq<Process>)

  /** Inside a shrink by process p: generation gen of tab t is replaced but not marked yet, and still mapped. */
  datatype Closing = Nothing | Closing(t: nat, gen: nat, p: nat)

  ghost predicate Has(w: World, p: nat, t: nat) {
    p < |w.procs| && t < |w.files| && w.files[t] != []
  }

  function Gen(w: World, t: nat): nat
    requires t < |w.files| && w.files[t] != []
  {
    |w.files[t]| - 1
  }

  function OnDisk(w: World, t: nat): File
    requires t < |w.files| && w.files[t] != []
  {
    w.files[t][Gen(w, t)]
  }

  // ---- Invariant --------------------------------------------------------------

  /** Every generation but the one on disk says RELOAD; the one on disk says its size, or nothing yet. */
  ghost predicate TabFiles(w: World, t: nat, x: Closing)
    requires t < |w.files|
  {
    && w.files[t] != []
    && (forall g :: 0 <= g < Gen(w, t) ==> w.files[t][g].header == RELOAD || (x.Closing? && x.t == t && x.gen == g))
    && OnDisk(w, t).bytes % PAGE == 0 && OnDisk(w, t).bytes >= PAGE
    && (OnDisk(w, t).header == OnDisk(w, t).bytes || (OnDisk(w, t).header == 0 && (Gen(w, t) == 0 || (x.Closing? && x.t == t))))
  }

  /** A mapping is of some generation; whoever mapped the one on disk has filled in its size. */
  ghost predicate MappingOk(w: World, p: nat, t: nat)
    requires p < |w.procs| && t in w.procs[p].tabs
  {
    var m := w.procs[p].tabs[t];
    && t < |w.files| && m.gen < |w.files[t]| && m.size >= PAGE
    && (m.gen == Gen(w, t) ==> OnDisk(w, t).header == OnDisk(w, t).bytes)
  }

  /** The shrinking process has lost sight of, or already replaced, its mapping of the closing generation. */
  ghost predicate ProcessOk(w: World, p: nat, x: Closing)
    requires p < |w.procs|
  {
    && (forall t :: t in w.procs[p].tabs ==> MappingOk(w, p, t))
    && w.procs[p].countMmap == 1 + |w.procs[p].tabs| + (if x.Closing? && x.p == p then 1 else 0)
    && (x.Closing? && x.p == p && x.t in w.procs[p].tabs ==> w.procs[p].tabs[x.t].gen != x.gen)
  }

  ghost predicate Inv(w: World, x: Closing) {
    && (forall t :: 0 <= t < |w.files| ==> TabFiles(w, t, x))
    && (forall p :: 0 <= p < |w.procs| ==> ProcessOk(w, p, x))
    && (x.Closing? ==> x.p < |w.procs| && x.t < |w.files| && x.gen + 1 < |w.files[x.t]|)
  }

  /** Process p maps the file of tab t that is on disk, all of it. */
  ghost predicate Fresh(w: World, p: nat, t: nat) {
    && Has(w, p, t) && t in w.procs[p].tabs
    && w.procs[p].tabs[t] == Mapping(Gen(w, t), OnDisk(w, t).bytes)
    && OnDisk(w, t).header == OnDisk(w, t).bytes
  }

  // ---- The operations -----------------------------------------------------------

  function SetFile(w: World, t: nat, g: nat, f: File): World
    requires t < |w.files| && g < |w.files[t]|
  {
    w.(files := w.files[t := w.files[t][g := f]])
  }

  function SetMapping(w: World, p: nat, t: nat, m: Mapping, count: nat): World
    requires p < |w.procs|
  {
    w.(procs := w.procs[p := Process(w.procs[p].tabs[t := m], count)])
  }

  /** First part of a lookup: map the file on disk unless some generation is mapped already. */
  function MapFirst(w: World, p: nat, t: nat): World
    requires p < |w.procs| && t < |w.files| && w.files[t] != []
  {
    if t in w.procs[p].tabs then w
    else SetMapping(w, p, t, Mapping(Gen(w, t), OnDisk(w, t).bytes), w.procs[p].countMmap + 1)
  }

  /** Second part: the first process to see a new file fills in its size. */
  function InitHeader(w: World, p: nat, t: nat): World
    requires p < |w.procs| && t < |w.files| && t in w.procs[p].tabs && w.procs[p].tabs[t].gen < |w.files[t]|
  {
    var m := w.procs[p].tabs[t];
    var f := w.files[t][m.gen];
    if f.header == 0 then SetFile(w, t, m.gen, f.(header := m.size)) else w
  }

  /** Third part: on a size mismatch load the replacement file, or remap to the size the file has now. */
  function Refresh(w: World, p: nat, t: nat): World
    requires p < |w.procs| && t < |w.files| && t in w.procs[p].tabs && w.procs[p].tabs[t].gen < |w.files[t]|
  {
    var m := w.procs[p].tabs[t];
    var header := w.files[t][m.gen].header;
    if m.size == header then w
    else if header == RELOAD then SetMapping(w, p, t, Mapping(Gen(w, t), OnDisk(w, t).bytes), w.procs[p].countMmap)
    else SetMapping(w, p, t, Mapping(m.gen, header), w.procs[p].countMmap)
  }

  /** SHF_GET_TAB_MMAP. */
  ghost function Lookup(w: World, p: nat, t: nat): World
    requires Has(w, p, t) && (t in w.procs[p].tabs ==> w.procs[p].tabs[t].gen < |w.files[t]|)
  {
    Refresh(InitHeader(MapFirst(w, p, t), p, t), p, t)
  }

  /** SHF_TAB_APPEND when the data does not fit: extend the file, map it again, record the size in it. */
  ghost function Grow(w: World, p: nat, t: nat, bytes: nat): World
    requires Fresh(w, p, t)
  {
    SetMapping(SetFile(w, t, Gen(w, t), File(bytes, bytes)), p, t, Mapping(Gen(w, t), bytes), w.procs[p].countMmap)
  }

  /** What a growth may be: whole pages, more than before, within 32 bits. */
  ghost predicate Larger(w: World, t: nat, bytes: nat)
    requires t < |w.files| && w.files[t] != []
  {
    bytes % PAGE == 0 && OnDisk(w, t).bytes < bytes < TWO_32
  }

  /** Start of shf_tab_shrink: unlink the file, forget its mapping, create the replacement. */
  ghost function Open(w: World, p: nat, t: nat): World
    requires Has(w, p, t)
  {
    World(w.files[t := w.files[t] + [File(TAB_BYTES, 0)]],
          w.procs[p := Process(w.procs[p].tabs - {t}, w.procs[p].countMmap)])
  }

  /** End of shf_tab_shrink: mark the old file for the other processes and unmap it. */
  ghost function Close(w: World, x: Closing): World
    requires x.Closing? && x.p < |w.procs| && x.t < |w.files| && x.gen < |w.files[x.t]| && w.procs[x.p].countMmap > 0
  {
    var w' := SetFile(w, x.t, x.gen, w.files[x.t][x.gen].(header := RELOAD));
    w'.(procs := w'.procs[x.p := Process(w'.procs[x.p].tabs, w'.procs[x.p].countMmap - 1)])
  }

  /** Start of shf_tab_part: a new tab's first file. */
  ghost function Create(w: World): World {
    w.(files := w.files + [[File(TAB_BYTES, 0)]])
  }

  // ---- Each keeps the invariant -------------------------------------------------

  lemma SetMappingKeeps(w: World, p: nat, t: nat, m: Mapping, x: Closing)
    requires Inv(w, x) && Has(w, p, t) && m.gen == Gen(w, t) && m.size >= PAGE
    requires OnDisk(w, t).header == OnDisk(w, t).bytes
    ensures Inv(SetMapping(w, p, t, m, w.procs[p].countMmap + if t in w.procs[p].tabs then 0 else 1), x)
  {
    var w' := SetMapping(w, p, t, m, w.procs[p].countMmap + if t in w.procs[p].tabs then 0 else 1);
    forall u | 0 <= u < |w'.files| ensures TabFiles(w', u, x) { assert TabFiles(w, u, x); }
    forall q | 0 <= q < |w'.procs| ensures ProcessOk(w', q, x) {
      assert ProcessOk(w, q, x);
      forall u | u in w'.procs[q].tabs ensures MappingOk(w', q, u) {
        assert u in w.procs[q].tabs ==> MappingOk(w, q, u);
      }
    }
  }

  lemma SetDiskKeeps(w: World, t: nat, f: File, x: Closing)
    requires Inv(w, x) && t < |w.files| && w.files[t] != []
    requires f.bytes == f.header && f.bytes % PAGE == 0 && f.bytes >= PAGE
    ensures Inv(SetFile(w, t, Gen(w, t), f), x)
  {
    var w' := SetFile(w, t, Gen(w, t), f);
    forall u | 0 <= u < |w'.files| ensures TabFiles(w', u, x) { assert TabFiles(w, u, x); }
    forall q | 0 <= q < |w'.procs| ensures ProcessOk(w', q, x) {
      assert ProcessOk(w, q, x);
      forall u | u in w'.procs[q].tabs ensures MappingOk(w', q, u) { assert MappingOk(w, q, u); }
    }
  }

  /** A lookup ends on the file on disk at its full size, whatever generation and size were mapped before. */
  lemma LookupFresh(w: World, p: nat, t: nat, x: Closing)
    requires Inv(w, x) && Has(w, p, t) && (x.Closing? ==> x.p == p && x.t == t && t !in w.procs[p].tabs)
    ensures t in w.procs[p].tabs ==> w.procs[p].tabs[t].gen < |w.files[t]|
    ensures Inv(Lookup(w, p, t), x) && Fresh(Lookup(w, p, t), p, t)
    ensures Lookup(w, p, t).procs[p].tabs.Keys == w.procs[p].tabs.Keys + {t}
    ensures |Lookup(w, p, t).files| == |w.files| && |Lookup(w, p, t).procs| == |w.procs|
    ensures Gen(Lookup(w, p, t), t) == Gen(w, t) && OnDisk(Lookup(w, p, t), t).bytes == OnDisk(w, t).bytes
  {
    if t in w.procs[p].tabs {
      LookupAgain(w, p, t);
    } else {
      LookupFirst(w, p, t, x);
    }
  }

  lemma LookupAgain(w: World, p: nat, t: nat)
    requires Inv(w, Nothing) && Has(w, p, t) && t in w.procs[p].tabs
    ensures w.procs[p].tabs[t].gen < |w.files[t]|
    ensures Inv(Lookup(w, p, t), Nothing) && Fresh(Lookup(w, p, t), p, t)
    ensures Lookup(w, p, t).procs[p].tabs.Keys == w.procs[p].tabs.Keys
    ensures Lookup(w, p, t).files == w.files
  {
    assert TabFiles(w, t, Nothing) && ProcessOk(w, p, Nothing) && MappingOk(w, p, t);
    var m := w.procs[p].tabs[t];
    assert w.files[t][m.gen].header == if m.gen < Gen(w, t) then RELOAD else OnDisk(w, t).bytes;
    SetMappingKeeps(w, p, t, Mapping(Gen(w, t), OnDisk(w, t).bytes), Nothing);
  }

  lemma LookupFirst(w: World, p: nat, t: nat, x: Closing)
    requires Inv(w, x) && Has(w, p, t) && t !in w.procs[p].tabs
    ensures Inv(Lookup(w, p, t), x) && Fresh(Lookup(w, p, t), p, t)
    ensures Lookup(w, p, t).procs[p].tabs.Keys == w.procs[p].tabs.Keys + {t}
    ensures |Lookup(w, p, t).files| == |w.files| && |Lookup(w, p, t).procs| == |w.procs|
    ensures Gen(Lookup(w, p, t), t) == Gen(w, t) && OnDisk(Lookup(w, p, t), t).bytes == OnDisk(w, t).bytes
  {
    hide Inv, ProcessOk, MappingOk;
    assert TabFiles(w, t, x) by { FilesOf(w, t, x); }
    var f := OnDisk(w, t).(header := OnDisk(w, t).bytes);
    SetDiskKeeps(w, t, f, x);
    var w1 := SetFile(w, t, Gen(w, t), f);
    SetMappingKeeps(w1, p, t, Mapping(Gen(w, t), f.bytes), x);
    if OnDisk(w, t).header != 0 {
      assert w.files[t][Gen(w, t) := f] == w.files[t];
      assert w1.files == w.files;
    }
    assert Lookup(w, p, t) == SetMapping(w1, p, t, Mapping(Gen(w, t), f.bytes), w.procs[p].countMmap + 1);
  }

  lemma FilesOf(w: World, t: nat, x: Closing)
    requires Inv(w, x) && t < |w.files|
    ensures TabFiles(w, t, x)
  {
  }

  /** SHF_TAB_APPEND's growth keeps the mapping on the whole file. */
  lemma GrowKeeps(w: World, p: nat, t: nat, bytes: nat, x: Closing)
    requires Inv(w, x) && Fresh(w, p, t) && Larger(w, t, bytes)
    ensures Inv(Grow(w, p, t, bytes), x) && Fresh(Grow(w, p, t, bytes), p, t)
  {
    var w1 := SetFile(w, t, Gen(w, t), File(bytes, bytes));
    SetDiskKeeps(w, t, File(bytes, bytes), x);
    SetMappingKeeps(w1, p, t, Mapping(Gen(w, t), bytes), x);
  }

  lemma OpenKeeps(w: World, p: nat, t: nat)
    requires Inv(w, Nothing) && Fresh(w, p, t)
    ensures Inv(Open(w, p, t), Closing(t, Gen(w, t), p)) && t !in Open(w, p, t).procs[p].tabs
  {
    var w', x := Open(w, p, t), Closing(t, Gen(w, t), p);
    forall u | 0 <= u < |w'.files| ensures TabFiles(w', u, x) { assert TabFiles(w, u, Nothing); }
    forall q | 0 <= q < |w'.procs| ensures ProcessOk(w', q, x) {
      assert ProcessOk(w, q, Nothing);
      if q == p { assert w.procs[p].tabs.Keys == w'.procs[p].tabs.Keys + {t}; }
      forall u | u in w'.procs[q].tabs ensures MappingOk(w', q, u) { assert MappingOk(w, q, u); }
    }
  }

  lemma CloseKeeps(w: World, x: Closing)
    requires x.Closing? && Inv(w, x) && Fresh(w, x.p, x.t)
    ensures w.procs[x.p].countMmap > 0 && x.gen < |w.files[x.t]|
    ensures Inv(Close(w, x), Nothing) && Fresh(Close(w, x), x.p, x.t)
  {
    assert ProcessOk(w, x.p, x);
    var w' := Close(w, x);
    forall u | 0 <= u < |w'.files| ensures TabFiles(w', u, Nothing) { assert TabFiles(w, u, x); }
    forall q | 0 <= q < |w'.procs| ensures ProcessOk(w', q, Nothing) {
      assert ProcessOk(w, q, x);
      forall u | u in w'.procs[q].tabs ensures MappingOk(w', q, u) { assert MappingOk(w, q, u); }
    }
  }

  lemma CreateKeeps(w: World)
    requires Inv(w, Nothing)
    ensures Inv(Create(w), Nothing)
    ensures forall p, t :: Fresh(w, p, t) ==> Fresh(Create(w), p, t)
  {
    var w' := Create(w);
    forall u | 0 <= u < |w'.files| ensures TabFiles(w', u, Nothing) { assert u < |w.files| ==> TabFiles(w, u, Nothing); }
    forall q | 0 <= q < |w'.procs| ensures ProcessOk(w', q, Nothing) {
      assert ProcessOk(w, q, Nothing);
      forall u | u in w'.procs[q].tabs ensures MappingOk(w', q, u) { assert MappingOk(w, q, u); }
    }
  }

  // ---- Whole operations, any number of processes, any order ----------------------

  /** The growths of a copy loop, one after another. */
  ghost function GrowAll(w: World, p: nat, t: nat, sizes: seq<nat>): (w': World)
    requires Fresh(w, p, t)
    ensures Fresh(w', p, t) && |w'.files| == |w.files| && |w'.procs| == |w.procs|
    decreases |sizes|
  {
    if sizes == [] then w
    else GrowAll(Grow(w, p, t, sizes[0]), p, t, sizes[1..])
  }

  ghost predicate AllLarger(w: World, t: nat, sizes: seq<nat>)
    requires t < |w.files| && w.files[t] != []
  {
    && (forall i :: 0 <= i < |sizes| ==> Larger(w, t, sizes[i]))
    && (forall i, j :: 0 <= i < j < |sizes| ==> sizes[i] < sizes[j])
  }

  lemma {:induction false} GrowAllKeeps(w: World, p: nat, t: nat, sizes: seq<nat>, x: Closing)
    requires Inv(w, x) && Fresh(w, p, t) && AllLarger(w, t, sizes)
    ensures Inv(GrowAll(w, p, t, sizes), x)
    ensures forall u :: u != t && Fresh(w, p, u) ==> Fresh(GrowAll(w, p, t, sizes), p, u)
    decreases |sizes|
  {
    if sizes != [] {
      GrowKeeps(w, p, t, sizes[0], x);
      assert sizes[0] < TWO_32;
      GrowAllKeeps(Grow(w, p, t, sizes[0]), p, t, sizes[1..], x);
    }
  }

  /** shf_tab_shrink, with the sizes the copying grows the replacement through. */
  ghost function Shrink(w: World, p: nat, t: nat, sizes: seq<nat>): World
    requires Inv(w, Nothing) && Has(w, p, t)
  {
    LookupFresh(w, p, t, Nothing);
    var w1 := Lookup(w, p, t);
    var x := Closing(t, Gen(w1, t), p);
    OpenKeeps(w1, p, t);
    var w2 := Open(w1, p, t);
    LookupFresh(w2, p, t, x);
    var w3 := GrowAll(Lookup(w2, p, t), p, t, sizes);
    if w3.procs[p].countMmap > 0 && x.gen < |w3.files[t]| then Close(w3, x) else w3
  }

  lemma ShrinkKeeps(w: World, p: nat, t: nat, sizes: seq<nat>)
    requires Inv(w, Nothing) && Has(w, p, t)
    requires Sizes(sizes)
    ensures Inv(Shrink(w, p, t, sizes), Nothing) && Fresh(Shrink(w, p, t, sizes), p, t)
    ensures |Shrink(w, p, t, sizes).files| == |w.files| && |Shrink(w, p, t, sizes).procs| == |w.procs|
  {
    hide Inv, Lookup;
    LookupFresh(w, p, t, Nothing);
    var w1 := Lookup(w, p, t);
    var x := Closing(t, Gen(w1, t), p);
    OpenKeeps(w1, p, t);
    var w2 := Open(w1, p, t);
    LookupFresh(w2, p, t, x);
    var w3 := Lookup(w2, p, t);
    GrowAllKeeps(w3, p, t, sizes, x);
    CloseKeeps(GrowAll(w3, p, t, sizes), x);
  }

  /** Sizes the copying may grow an empty tab through. */
  ghost predicate Sizes(sizes: seq<nat>) {
    && (forall i :: 0 <= i < |sizes| ==> sizes[i] % PAGE == 0 && TAB_BYTES < sizes[i] < TWO_32)
    && (forall i, j :: 0 <= i < j < |sizes| ==> sizes[i] < sizes[j])
  }

  /** shf_tab_part: a new tab, the refs that move to it, and the shrink of the old tab. */
  ghost function Part(w: World, p: nat, t: nat, newSizes: seq<nat>, oldSizes: seq<nat>): World
    requires Inv(w, Nothing) && Has(w, p, t)
    requires Sizes(newSizes)
  {
    CreateKeeps(w);
    var w1 := Create(w);
    var tNew := |w.files|;
    LookupFresh(w1, p, tNew, Nothing);
    var w2 := Lookup(w1, p, tNew);
    GrowAllKeeps(w2, p, tNew, newSizes, Nothing);
    var w3 := GrowAll(w2, p, tNew, newSizes);
    FilesOf(w3, t, Nothing);
    Shrink(w3, p, t, oldSizes)
  }

  datatype Op =
    | UseTab(p: nat, t: nat)                                              // find, and put that fits
    | GrowTab(p: nat, t: nat, bytes: nat)                                 // put that does not fit
    | ShrinkTab(p: nat, t: nat, sizes: seq<nat>)
    | PartTab(p: nat, t: nat, newSizes: seq<nat>, oldSizes: seq<nat>)

  ghost predicate Enabled(w: World, op: Op) {
    && Has(w, op.p, op.t)
    && match op
       case UseTab(_, _) => true
       case GrowTab(_, t, bytes) => Larger(w, t, bytes)
       case ShrinkTab(_, _, sizes) => Sizes(sizes)
       case PartTab(_, _, newSizes, oldSizes) => Sizes(newSizes) && Sizes(oldSizes)
  }

  ghost function Apply(w: World, op: Op): World
    requires Inv(w, Nothing) && Enabled(w, op)
  {
    match op
    case UseTab(p, t) => LookupFresh(w, p, t, Nothing); Lookup(w, p, t)
    case GrowTab(p, t, bytes) => LookupFresh(w, p, t, Nothing); Grow(Lookup(w, p, t), p, t, bytes)
    case ShrinkTab(p, t, sizes) => Shrink(w, p, t, sizes)
    case PartTab(p, t, newSizes, oldSizes) => Part(w, p, t, newSizes, oldSizes)
  }

  // ---- What each operation does, and what it leaves alone ---------------------------

  /** Other processes, other tabs' files, and p's mappings of other tabs are as they were. */
  ghost predicate Elsewhere(w: World, w': World, p: nat, t: nat) {
    && |w'.procs| == |w.procs| && p < |w.procs| && |w'.files| >= |w.files|
    && (forall q :: 0 <= q < |w.procs| && q != p ==> w'.procs[q] == w.procs[q])
    && (forall u :: 0 <= u < |w.files| && u != t ==> w'.files[u] == w.files[u])
    && (forall u :: 0 <= u < |w.files| && u != t ==>
          (u in w'.procs[p].tabs <==> u in w.procs[p].tabs) && (u in w.procs[p].tabs ==> w'.procs[p].tabs[u] == w.procs[p].tabs[u]))
  }

  /** Process p made fs of the files of tab t, and nothing else of anything. */
  ghost predicate Makes(w: World, w': World, p: nat, t: nat, fs: seq<File>) {
    t < |w.files| == |w'.files| && w'.files[t] == fs && Elsewhere(w, w', p, t)
  }

  lemma MakesNext(w: World, w1: World, w2: World, p: nat, t: nat, fs: seq<File>, gs: seq<File>)
    requires Makes(w, w1, p, t, fs) && Makes(w1, w2, p, t, gs)
    ensures Makes(w, w2, p, t, gs)
  {
  }

  /** A lookup at most fills in the size of the file on disk. */
  lemma LookupMakes(w: World, p: nat, t: nat, x: Closing)
    requires Inv(w, x) && Has(w, p, t) && (x.Closing? ==> x.p == p && x.t == t && t !in w.procs[p].tabs)
    ensures t in w.procs[p].tabs ==> w.procs[p].tabs[t].gen < |w.files[t]|
    ensures Makes(w, Lookup(w, p, t), p, t, w.files[t][Gen(w, t) := File(OnDisk(w, t).bytes, OnDisk(w, t).bytes)])
  {
    hide Inv, TabFiles, Fresh;
    LookupFresh(w, p, t, x);
    if t in w.procs[p].tabs {
      LookupAgain(w, p, t);
      DiskFilled(w, p, t);
      assert w.files[t][Gen(w, t) := OnDisk(w, t)] == w.files[t];
    } else {
      FirstMakes(w, p, t, x);
    }
  }

  /** Once a process has mapped any generation of a tab, the file on disk has its size in it. */
  lemma DiskFilled(w: World, p: nat, t: nat)
    requires Inv(w, Nothing) && Has(w, p, t) && t in w.procs[p].tabs
    ensures OnDisk(w, t).header == OnDisk(w, t).bytes
  {
    assert TabFiles(w, t, Nothing) && ProcessOk(w, p, Nothing) && MappingOk(w, p, t);
  }

  lemma FirstMakes(w: World, p: nat, t: nat, x: Closing)
    requires Inv(w, x) && Has(w, p, t) && t !in w.procs[p].tabs
    ensures Makes(w, Lookup(w, p, t), p, t, w.files[t][Gen(w, t) := File(OnDisk(w, t).bytes, OnDisk(w, t).bytes)])
  {
    hide Inv;
    assert TabFiles(w, t, x) by { FilesOf(w, t, x); }
    var f := OnDisk(w, t);
    assert w.files[t][Gen(w, t) := f] == w.files[t];
  }

  lemma GrowMakes(w: World, p: nat, t: nat, bytes: nat)
    requires Fresh(w, p, t)
    ensures Makes(w, Grow(w, p, t, bytes), p, t, w.files[t][Gen(w, t) := File(bytes, bytes)])
  {
  }

  /** The size of a tab that was copied into, growing through these sizes. */
  function LastSize(sizes: seq<nat>): nat {
    if sizes == [] then 69632 else sizes[|sizes| - 1]
  }

  lemma {:induction false} GrowAllMakes(w: World, p: nat, t: nat, sizes: seq<nat>)
    requires Fresh(w, p, t)
    ensures var f := if sizes == [] then OnDisk(w, t) else File(LastSize(sizes), LastSize(sizes));
            Makes(w, GrowAll(w, p, t, sizes), p, t, w.files[t][Gen(w, t) := f])
    decreases |sizes|
  {
    var g := Gen(w, t);
    if sizes == [] {
      assert w.files[t][g := OnDisk(w, t)] == w.files[t];
    } else {
      GrowMakes(w, p, t, sizes[0]);
      var w1 := Grow(w, p, t, sizes[0]);
      GrowAllMakes(w1, p, t, sizes[1..]);
      var f := if sizes[1..] == [] then OnDisk(w1, t) else File(LastSize(sizes[1..]), LastSize(sizes[1..]));
      MakesNext(w, w1, GrowAll(w1, p, t, sizes[1..]), p, t, w1.files[t], w1.files[t][g := f]);
      assert w1.files[t][g := f] == w.files[t][g := File(LastSize(sizes), LastSize(sizes))];
    }
  }

  lemma OpenMakes(w: World, p: nat, t: nat)
    requires Has(w, p, t)
    ensures Makes(w, Open(w, p, t), p, t, w.files[t] + [File(69632, 0)])
  {
  }

  lemma CloseMakes(w: World, x: Closing)
    requires x.Closing? && x.p < |w.procs| && x.t < |w.files| && x.gen < |w.files[x.t]| && w.procs[x.p].countMmap > 0
    ensures Makes(w, Close(w, x), x.p, x.t, w.files[x.t][x.gen := File(w.files[x.t][x.gen].bytes, 1)])
  {
  }

  /** What a shrink makes of a tab's generations: the one that was on disk says 1, and a new one holds the copy. */
  function Replaced(fs: seq<File>, size: nat): seq<File>
    requires fs != []
  {
    fs[..|fs| - 1] + [File(fs[|fs| - 1].bytes, 1), File(size, size)]
  }

  lemma ReplacedIs(fs: seq<File>, b: nat, n: nat)
    requires fs != [] && b == fs[|fs| - 1].bytes
    ensures var g := |fs| - 1;
            && (fs[g := File(b, b)] + [File(69632, 0)])[g + 1 := File(69632, 69632)][g + 1 := File(n, n)][g := File(b, 1)] == Replaced(fs, n)
            && (n == 69632 ==> (fs[g := File(b, b)] + [File(69632, 0)])[g + 1 := File(69632, 69632)][g := File(b, 1)] == Replaced(fs, n))
  {
  }

  lemma ShrinkMakes(w: World, p: nat, t: nat, sizes: seq<nat>)
    requires Inv(w, Nothing) && Has(w, p, t) && Sizes(sizes)
    ensures Makes(w, Shrink(w, p, t, sizes), p, t, Replaced(w.files[t], LastSize(sizes)))
  {
    hide Inv, Lookup, Makes, GrowAll, Close, Open;
    LookupFresh(w, p, t, Nothing);
    LookupMakes(w, p, t, Nothing);
    var w1 := Lookup(w, p, t);
    var x := Closing(t, Gen(w1, t), p);
    OpenKeeps(w1, p, t);
    OpenMakes(w1, p, t);
    var w2 := Open(w1, p, t);
    LookupFresh(w2, p, t, x);
    LookupMakes(w2, p, t, x);
    var w3 := Lookup(w2, p, t);
    GrowAllKeeps(w3, p, t, sizes, x);
    GrowAllMakes(w3, p, t, sizes);
    var w4 := GrowAll(w3, p, t, sizes);
    CloseKeeps(w4, x);
    CloseMakes(w4, x);
    ShrinkFiles(w, w1, w2, w3, w4, Close(w4, x), p, t, sizes);
  }

  /** The steps of a shrink, one after another. */
  lemma ShrinkFiles(w: World, w1: World, w2: World, w3: World, w4: World, w5: World, p: nat, t: nat, sizes: seq<nat>)
    requires t < |w.files| && w.files[t] != []
    requires var b := OnDisk(w, t).bytes; Makes(w, w1, p, t, w.files[t][Gen(w, t) := File(b, b)])
    requires Makes(w1, w2, p, t, w1.files[t] + [File(69632, 0)])
    requires Makes(w2, w3, p, t, w2.files[t][Gen(w2, t) := File(OnDisk(w2, t).bytes, OnDisk(w2, t).bytes)])
    requires w3.files[t] != []
    requires Makes(w3, w4, p, t, w3.files[t][Gen(w3, t) := if sizes == [] then OnDisk(w3, t) else File(LastSize(sizes), LastSize(sizes))])
    requires var g := Gen(w1, t); g < |w4.files[t]| && Makes(w4, w5, p, t, w4.files[t][g := File(w4.files[t][g].bytes, 1)])
    ensures Makes(w, w5, p, t, Replaced(w.files[t], LastSize(sizes)))
  {
    hide Elsewhere;
    ReplacedIs(w.files[t], OnDisk(w, t).bytes, LastSize(sizes));
    assert Elsewhere(w, w5, p, t) by { ElsewhereAll(w, w1, w2, w3, w4, w5, p, t); }
    assert w5.files[t] == Replaced(w.files[t], LastSize(sizes));
  }

  lemma ElsewhereAll(w: World, w1: World, w2: World, w3: World, w4: World, w5: World, p: nat, t: nat)
    requires Elsewhere(w, w1, p, t) && Elsewhere(w1, w2, p, t) && Elsewhere(w2, w3, p, t) && Elsewhere(w3, w4, p, t) && Elsewhere(w4, w5, p, t)
    ensures Elsewhere(w, w5, p, t)
  {
  }

  /** What each operation does to the world, in full but for the mappings of its own process to the tabs it is on. */
  ghost predicate Does(w: World, op: Op, w': World)
    requires Has(w, op.p, op.t)
  {
    var p, t, fs := op.p, op.t, w.files[op.t];
    var bytes := fs[|fs| - 1].bytes;
    match op
    case UseTab(_, _) => Makes(w, w', p, t, fs[..|fs| - 1] + [File(bytes, bytes)])
    case GrowTab(_, _, size) => Makes(w, w', p, t, fs[..|fs| - 1] + [File(size, size)])
    case ShrinkTab(_, _, sizes) => Makes(w, w', p, t, Replaced(fs, LastSize(sizes)))
    case PartTab(_, _, newSizes, oldSizes) =>
      && |w'.files| == |w.files| + 1 && Fresh(w', p, |w.files|)
      && w'.files[|w.files|] == [File(LastSize(newSizes), LastSize(newSizes))]
      && w'.files[t] == Replaced(fs, LastSize(oldSizes)) && Elsewhere(w, w', p, t)
  }

  /** Every operation does what it is for and leaves the rest of the world alone. */
  lemma OpDoes(w: World, op: Op)
    requires Inv(w, Nothing) && Enabled(w, op)
    ensures Does(w, op, Apply(w, op))
  {
    hide Inv, Lookup, Elsewhere;
    var p, t, fs := op.p, op.t, w.files[op.t];
    assert forall f: File :: fs[|fs| - 1 := f] == fs[..|fs| - 1] + [f];
    match op {
      case UseTab(_, _) => LookupMakes(w, p, t, Nothing);
      case GrowTab(_, _, size) =>
        LookupFresh(w, p, t, Nothing);
        LookupMakes(w, p, t, Nothing);
        var w1 := Lookup(w, p, t);
        GrowMakes(w1, p, t, size);
        MakesNext(w, w1, Grow(w1, p, t, size), p, t, w1.files[t], w1.files[t][Gen(w1, t) := File(size, size)]);
        assert w1.files[t][Gen(w1, t) := File(size, size)] == fs[..|fs| - 1] + [File(size, size)];
      case ShrinkTab(_, _, sizes) => ShrinkMakes(w, p, t, sizes);
      case PartTab(_, _, newSizes, oldSizes) => PartDoes(w, p, t, newSizes, oldSizes);
    }
  }

  lemma PartDoes(w: World, p: nat, t: nat, newSizes: seq<nat>, oldSizes: seq<nat>)
    requires Inv(w, Nothing) && Has(w, p, t) && Sizes(newSizes) && Sizes(oldSizes)
    ensures Does(w, PartTab(p, t, newSizes, oldSizes), Part(w, p, t, newSizes, oldSizes))
  {
    hide Inv, Lookup, GrowAll, Shrink, Replaced;
    CreateKeeps(w);
    var w1, tNew := Create(w), |w.files|;
    LookupFresh(w1, p, tNew, Nothing);
    LookupMakes(w1, p, tNew, Nothing);
    var w2 := Lookup(w1, p, tNew);
    GrowAllKeeps(w2, p, tNew, newSizes, Nothing);
    GrowAllMakes(w2, p, tNew, newSizes);
    var w3 := GrowAll(w2, p, tNew, newSizes);
    FilesOf(w3, t, Nothing);
    ShrinkMakes(w3, p, t, oldSizes);
    assert w3.files[tNew] == [File(LastSize(newSizes), LastSize(newSizes))];
  }

  /** Every operation leaves the process that ran it on the file on disk, whole, and keeps the invariant. */
  lemma OpKeeps(w: World, op: Op)
    requires Inv(w, Nothing) && Enabled(w, op)
    ensures Inv(Apply(w, op), Nothing) && Fresh(Apply(w, op), op.p, op.t)
  {
    hide Inv, Lookup, Fresh;
    match op {
      case UseTab(p, t) => LookupFresh(w, p, t, Nothing);
      case GrowTab(p, t, bytes) =>
        LookupFresh(w, p, t, Nothing);
        GrowKeeps(Lookup(w, p, t), p, t, bytes, Nothing);
      case ShrinkTab(p, t, sizes) => ShrinkKeeps(w, p, t, sizes);
      case PartTab(p, t, newSizes, oldSizes) =>
        CreateKeeps(w);
        var w1, tNew := Create(w), |w.files|;
        LookupFresh(w1, p, tNew, Nothing);
        var w2 := Lookup(w1, p, tNew);
        GrowAllKeeps(w2, p, tNew, newSizes, Nothing);
        var w3 := GrowAll(w2, p, tNew, newSizes);
        FilesOf(w3, t, Nothing);
        ShrinkKeeps(w3, p, t, oldSizes);
    }
  }

  /** Each state follows from the one before by an enabled operation. */
  ghost predicate IsRun(trace: seq<World>, ops: seq<Op>) {
    && |trace| == |ops| + 1
    && forall k {:trigger ops[k]} :: 0 <= k < |ops| && Inv(trace[k], Nothing) ==>
         Enabled(trace[k], ops[k]) && trace[k + 1] == Apply(trace[k], ops[k])
  }

  lemma {:induction false} RunKeeps(trace: seq<World>, ops: seq<Op>, k: nat)
    requires IsRun(trace, ops) && Inv(trace[0], Nothing) && k <= |ops|
    ensures Inv(trace[k], Nothing)
  {
    hide Inv, Apply, Enabled;
    if k > 0 {
      RunKeeps(trace, ops, k - 1);
      OpKeeps(trace[k - 1], ops[k - 1]);
    }
  }

  /** A new store: one window, one tab, every process attached but nothing looked up. */
  function Attached(procs: nat): World {
    World([[File(TAB_BYTES, 0)]], seq(procs, i => Process(map[], 1)))
  }

  /** How many munmap() calls shf_detach makes: the root, and each tab it finds mapped. */
  function Unmaps(w: World, p: nat): nat
    requires p < |w.procs|
  {
    1 + |set t | t in w.procs[p].tabs && t < |w.files| && w.procs[p].tabs[t].size >= PAGE|
  }

  lemma AttachedInv(procs: nat)
    ensures Inv(Attached(procs), Nothing)
  {
  }

  /** Over every run by any number of processes: the process that ran an operation is mapped to the file on disk
      at its size, every replaced file says RELOAD, and every process could detach with a matching count. */
  lemma RunsStayCurrent(procs: nat, trace: seq<World>, ops: seq<Op>)
    requires IsRun(trace, ops) && trace[0] == Attached(procs)
    ensures forall k :: 0 <= k < |ops| ==> Fresh(trace[k + 1], ops[k].p, ops[k].t)
    ensures forall k :: 0 <= k < |ops| ==> Has(trace[k], ops[k].p, ops[k].t) && Does(trace[k], ops[k], trace[k + 1])
    ensures forall t, g :: 0 <= t < |trace[|ops|].files| && 0 <= g < |trace[|ops|].files[t]| - 1 ==> trace[|ops|].files[t][g].header == RELOAD
    ensures forall p :: 0 <= p < |trace[|ops|].procs| ==> trace[|ops|].procs[p].countMmap == Unmaps(trace[|ops|], p)
  {
    AttachedInv(procs);
    forall k | 0 <= k < |ops|
      ensures Fresh(trace[k + 1], ops[k].p, ops[k].t)
      ensures Has(trace[k], ops[k].p, ops[k].t) && Does(trace[k], ops[k], trace[k + 1]) {
      RunKeeps(trace, ops, k);
      OpKeeps(trace[k], ops[k]);
      OpDoes(trace[k], ops[k]);
    }
    var w := trace[|ops|];
    RunKeeps(trace, ops, |ops|);
    forall t, g | 0 <= t < |w.files| && 0 <= g < |w.files[t]| - 1 ensures w.files[t][g].header == RELOAD {
      assert TabFiles(w, t, Nothing);
    }
    forall p | 0 <= p < |w.procs| ensures w.procs[p].countMmap == Unmaps(w, p) {
      assert ProcessOk(w, p, Nothing);
      forall t | t in w.procs[p].tabs ensures t < |w.files| && w.procs[p].tabs[t].size >= PAGE { assert MappingOk(w, p, t); }
      assert (set t | t in w.procs[p].tabs && t < |w.files| && w.procs[p].tabs[t].size >= PAGE) == w.procs[p].tabs.Keys;
    }
  }

  // ---- How far a growth goes --------------------------------------------------------

  function ModPage(bytes: nat): nat
    requires bytes > 0
  {
    ((bytes - 1) / PAGE + 1) * PAGE
  }

  /** The size SHF_TAB_APPEND asks for when needed bytes do not fit behind used. */
  function GrownSize(size: nat, needed: nat, factor: nat): nat
    requires size > 0
  {
    ModPage(size + needed * factor)
  }

  /** The assertions after a growth, that the record fits, hold exactly when the growth factor is not zero. */
  lemma GrowthFits(size: nat, used: nat, needed: nat, factor: nat)
    requires size > 0 && size % PAGE == 0 && used <= size && needed > size - used
    ensures used + needed <= GrownSize(size, needed, factor) <==> factor >= 1
    ensures factor >= 1 ==> GrownSize(size, needed, factor) > size
  {
    if factor >= 1 {
      assert needed * factor >= needed by { assert needed * factor == needed + needed * (factor - 1); }
      Rounded(size + needed * factor);
    } else {
      Rounded(size);
      assert (size - 1) / PAGE + 1 == size / PAGE;
    }
  }

  /** The growth asks for the fewest whole pages that hold the old size and factor times what is needed. */
  lemma GrownSizeIs(size: nat, needed: nat, factor: nat)
    requires size > 0
    ensures var n := GrownSize(size, needed, factor);
            n % 4096 == 0 && size + needed * factor <= n < size + needed * factor + 4096
  {
    Rounded(size + needed * factor);
  }

  lemma Rounded(bytes: nat)
    requires bytes > 0
    ensures bytes <= ModPage(bytes) < bytes + PAGE && ModPage(bytes) % PAGE == 0
  {
  }
}
