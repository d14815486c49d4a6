/** The whole store, 256 windows addressed by 32-bit UIDs: every sequence of calls is a sequence of calls of one map. */
module Store {
  import opened Common
  import opened Bytes
  import opened TabHeap
  import opened TabFile
  import opened Directory
  import opened WindowModel
  import opened WindowOps
  import opened WindowRuns
  import opened WindowLimits
  import opened UidCode

  ghost predicate StoreInv(mode: Mode, s: seq<Window>) {
    |s| == WINDOWS && forall win :: 0 <= win < WINDOWS ==> WindowInv(mode, s[win])
  }

  /** The place in its window that a code stands for. */
  function PlaceOf(code: nat): (u: Uid)
    requires code <= UID_NONE
    ensures u in Uids()
  {
    var p := Unpack(code);
    Uid(p.tab2, p.row * REFS_PER_ROW + p.ref)
  }

  function WinOf(code: nat): (win: nat)
    requires code <= UID_NONE
    ensures win < WINDOWS
  {
    Unpack(code).win
  }

  /** A code is the code of its window and place. */
  lemma CodeOfPlace(code: nat)
    requires code <= UID_NONE
    ensures CodeOf(WinOf(code), PlaceOf(code)) == code
  {
    var p := Unpack(code);
    var slot := p.row * REFS_PER_ROW + p.ref;
    assert slot / REFS_PER_ROW == p.row && slot % REFS_PER_ROW == p.ref;
    UnpackPack(code);
  }

  lemma PlaceOfCode(win: nat, u: Uid)
    requires win < WINDOWS && u in Uids()
    ensures WinOf(CodeOf(win, u)) == win && PlaceOf(CodeOf(win, u)) == u
  {
    UidBounds(u);
    PackUnpack(Parts(win, u.tab2, u.slot / REFS_PER_ROW, u.slot % REFS_PER_ROW));
  }

  /** The record behind a code. */
  ghost function Lookup(mode: Mode, s: seq<Window>, code: nat): Option<Record>
    requires StoreInv(mode, s) && code <= UID_NONE
  {
    Resolve(mode, s[WinOf(code)], PlaceOf(code))
  }

  /** The store as its callers see it. */
  ghost function Records(mode: Mode, s: seq<Window>): map<nat, Record>
    requires StoreInv(mode, s)
  {
    map code | 0 <= code <= UID_NONE && Lookup(mode, s, code).Some? :: Lookup(mode, s, code).value
  }

  // ---- A change in one window ---------------------------------------------------------------

  lemma InMap(mode: Mode, w: Window, u: Uid)
    requires WindowInv(mode, w) && u in Uids()
    ensures u in Abs(mode, w) <==> Resolve(mode, w, u).Some?
    ensures u in Abs(mode, w) ==> Abs(mode, w)[u] == Resolve(mode, w, u).value
  {
    hide WindowInv, Resolve, Uids;
  }

  lemma AbsUids(mode: Mode, w: Window, u: Uid)
    requires WindowInv(mode, w) && u in Abs(mode, w)
    ensures u in Uids()
  {
    hide WindowInv, Resolve, Uids;
  }

  /** The store's map is its windows' maps. */
  lemma InRecords(mode: Mode, s: seq<Window>, code: nat)
    requires StoreInv(mode, s) && code <= UID_NONE
    ensures code in Records(mode, s) <==> PlaceOf(code) in Abs(mode, s[WinOf(code)])
    ensures code in Records(mode, s) ==> Records(mode, s)[code] == Abs(mode, s[WinOf(code)])[PlaceOf(code)]
  {
    hide WindowInv, Resolve, WinOf, PlaceOf, Abs;
    InMap(mode, s[WinOf(code)], PlaceOf(code));
  }

  lemma CodeInRecords(mode: Mode, s: seq<Window>, win: nat, u: Uid)
    requires StoreInv(mode, s) && win < WINDOWS && u in Uids()
    ensures CodeOf(win, u) in Records(mode, s) <==> u in Abs(mode, s[win])
    ensures u in Abs(mode, s[win]) ==> Records(mode, s)[CodeOf(win, u)] == Abs(mode, s[win])[u]
  {
    hide WindowInv, Resolve, WinOf, PlaceOf, Abs, Records, CodeOf;
    PlaceOfCode(win, u);
    InRecords(mode, s, CodeOf(win, u));
  }

  lemma RecordsBound(mode: Mode, s: seq<Window>)
    requires StoreInv(mode, s)
    ensures forall code :: code in Records(mode, s) ==> code <= UID_NONE
  {
    hide WindowInv, Lookup;
  }

  /** A window changed at one place at most changes the store at that one code at most. */
  lemma OneCode(mode: Mode, s: seq<Window>, win: nat, w': Window, u: Uid, code: nat)
    requires StoreInv(mode, s) && win < WINDOWS && WindowInv(mode, w') && u in Uids() && code <= UID_NONE
    requires forall x :: x != u ==> (x in Abs(mode, w') <==> x in Abs(mode, s[win]))
    requires forall x :: x != u && x in Abs(mode, w') ==> Abs(mode, w')[x] == Abs(mode, s[win])[x]
    ensures StoreInv(mode, s[win := w'])
    ensures code != CodeOf(win, u) ==>
              && (code in Records(mode, s[win := w']) <==> code in Records(mode, s))
              && (code in Records(mode, s) ==> Records(mode, s[win := w'])[code] == Records(mode, s)[code])
  {
    hide WindowInv, WinOf, PlaceOf, CodeOf, Abs, Records;
    CodeOfPlace(code);
    InRecords(mode, s, code);
    InRecords(mode, s[win := w'], code);
  }

  lemma RecordsSame(mode: Mode, s: seq<Window>, win: nat, w': Window)
    requires StoreInv(mode, s) && win < WINDOWS && WindowInv(mode, w') && Abs(mode, w') == Abs(mode, s[win])
    ensures StoreInv(mode, s[win := w']) && Records(mode, s[win := w']) == Records(mode, s)
  {
    hide WindowInv, Abs, Records;
    var s' := s[win := w'];
    RecordsBound(mode, s);
    RecordsBound(mode, s');
    forall code | 0 <= code <= UID_NONE
      ensures code in Records(mode, s') <==> code in Records(mode, s)
      ensures code in Records(mode, s) ==> Records(mode, s')[code] == Records(mode, s)[code] {
      InRecords(mode, s, code);
      InRecords(mode, s', code);
    }
  }

  lemma RecordsSet(mode: Mode, s: seq<Window>, win: nat, w': Window, u: Uid, rec: Record)
    requires StoreInv(mode, s) && win < WINDOWS && WindowInv(mode, w') && u in Uids() && Abs(mode, w') == Abs(mode, s[win])[u := rec]
    ensures StoreInv(mode, s[win := w']) && Records(mode, s[win := w']) == Records(mode, s)[CodeOf(win, u) := rec]
  {
    hide WindowInv, Abs, Records, CodeOf;
    var s', c := s[win := w'], CodeOf(win, u);
    CodeInRecords(mode, s', win, u);
    RecordsBound(mode, s);
    RecordsBound(mode, s');
    forall code | 0 <= code <= UID_NONE
      ensures code != c ==> (code in Records(mode, s') <==> code in Records(mode, s))
      ensures code != c && code in Records(mode, s) ==> Records(mode, s')[code] == Records(mode, s)[code] {
      OneCode(mode, s, win, w', u, code);
    }
  }

  lemma RecordsDrop(mode: Mode, s: seq<Window>, win: nat, w': Window, u: Uid)
    requires StoreInv(mode, s) && win < WINDOWS && WindowInv(mode, w') && u in Uids() && Abs(mode, w') == Abs(mode, s[win]) - {u}
    ensures StoreInv(mode, s[win := w']) && Records(mode, s[win := w']) == Records(mode, s) - {CodeOf(win, u)}
  {
    hide WindowInv, Abs, Records, CodeOf;
    var s', c := s[win := w'], CodeOf(win, u);
    CodeInRecords(mode, s', win, u);
    RecordsBound(mode, s);
    RecordsBound(mode, s');
    forall code | 0 <= code <= UID_NONE
      ensures code != c ==> (code in Records(mode, s') <==> code in Records(mode, s))
      ensures code != c && code in Records(mode, s) ==> Records(mode, s')[code] == Records(mode, s)[code] {
      OneCode(mode, s, win, w', u, code);
    }
  }

  // ---- Calls -----------------------------------------------------------------------------------

  datatype What = DoPut(val: seq<Byte>) | DoGet | DoDelete | DoUpdate(val: seq<Byte>) | DoAdd(add: int)

  /** A call with a UID argument, and the window, hash and key of the key hashed last. Calls by key pass UID_NONE. */
  datatype Call = Call(code: nat, win: nat, h: Hash, key: seq<Byte>, what: What)

  ghost predicate ValidCall(mode: Mode, c: Call) {
    c.code <= UID_NONE && c.win < WINDOWS && ValidHash(c.h) && (c.what.DoPut? ==> Accepts(mode, c.key, c.what.val))
  }

  /** The window a call goes to: a put's and a call's without a UID by the current key, others by the UID. */
  function WindowFor(c: Call): (win: nat)
    requires c.code <= UID_NONE && c.win < WINDOWS
    ensures win < WINDOWS
  {
    if c.what.DoPut? || c.code == UID_NONE then c.win else WinOf(c.code)
  }

  function OpFor(c: Call): Op
    requires c.code <= UID_NONE
  {
    var on := if c.code == UID_NONE then ByKey(c.h, c.key) else ByUid(PlaceOf(c.code));
    match c.what
    case DoPut(val) => PutOp(c.h, c.key, val)
    case DoGet => GetOp(on)
    case DoDelete => DeleteOp(on)
    case DoUpdate(val) => UpdateOp(on, val)
    case DoAdd(add) => AddOp(on, add)
  }

  datatype StoreReply = NewCode(code: nat) | Answer(reply: Reply)

  /** The store after a call and the reply; None when a put aborted. */
  ghost function RunCall(mode: Mode, s: seq<Window>, c: Call): (r: Option<(seq<Window>, StoreReply)>)
    requires StoreInv(mode, s) && ValidCall(mode, c)
  {
    var win := WindowFor(c);
    match Run(mode, s[win], OpFor(c))
    case None => None
    case Some(wr) =>
      Some((s[win := wr.0], if wr.1.Stores? && wr.1.u in Uids() then NewCode(CodeOf(win, wr.1.u)) else Answer(wr.1)))
  }

  /** In the store's map, a record stored under this window, hash and key. */
  ghost predicate Holds(m: map<nat, Record>, c: Call, code: nat) {
    && code in m && code <= UID_NONE && WinOf(code) == c.win && PlaceOf(code).tab2 == c.h.tab2
    && PlaceOf(code).slot / REFS_PER_ROW == c.h.row && m[code].rnd == c.h.rnd && m[code].key == c.key
  }

  /** What a call other than a put works on: its UID, or without one the lowest record of the current key. */
  ghost predicate CallTargets(m: map<nat, Record>, c: Call, on: Option<nat>) {
    if c.code != UID_NONE then on == Some(c.code)
    else
      && (on.Some? <==> exists x :: Holds(m, c, x))
      && (on.Some? ==> Holds(m, c, on.value) && forall x :: Holds(m, c, x) ==> PlaceOf(on.value).slot <= PlaceOf(x).slot)
  }

  /** One call of the store's map, with its answer. */
  ghost predicate StoreStep(m: map<nat, Record>, c: Call, on: Option<nat>, m': map<nat, Record>, reply: StoreReply)
    requires c.code <= UID_NONE
  {
    match c.what
    case DoPut(val) =>
      && reply.NewCode? && reply.code <= UID_NONE && reply.code !in m
      && WinOf(reply.code) == c.win && PlaceOf(reply.code).tab2 == c.h.tab2 && PlaceOf(reply.code).slot / REFS_PER_ROW == c.h.row
      && m' == m[reply.code := Record(c.h.rnd, c.key, val)]
    case _ => reply.Answer? && CallTargets(m, c, on) && StoreStepOn(m, c.what, on, RecordAt(m, on), m', reply.reply)
  }

  /** The calls other than put, on the record they work on: a get copies it out, a delete removes it, an update or an add
      gives it a new value or says why not. */
  ghost predicate StoreStepOn(m: map<nat, Record>, what: What, on: Option<nat>, rec: Option<Record>, m': map<nat, Record>, reply: Reply)
    requires !what.DoPut? && (rec.Some? ==> on.Some?)
  {
    match what
    case DoGet => m' == m && reply == Copies(rec)
    case DoDelete =>
      (rec.Some? ==> m' == m - {on.value} && reply == Tells(KeyFound)) && (rec.None? ==> m' == m && reply == Tells(KeyNone))
    case DoUpdate(val) =>
      && (rec.None? ==> m' == m && reply == Tells(KeyNone))
      && (rec.Some? && |val| != |rec.value.val| ==> m' == m && reply == Tells(BadCallback))
      && (rec.Some? && |val| == |rec.value.val| ==>
            m' == m[on.value := Record(rec.value.rnd, rec.value.key, val)] && reply == Tells(KeyFound))
    case DoAdd(add) =>
      && (rec.None? ==> m' == m && reply == Sums(KeyNone, None))
      && (rec.Some? && |rec.value.val| < 8 ==> m' == m && reply == Sums(BadVal, None))
      && (rec.Some? && |rec.value.val| >= 8 ==>
            var sum := (U64At(rec.value.val) + add) % 0x1_0000_0000_0000_0000;
            && m' == m[on.value := Record(rec.value.rnd, rec.value.key, WithU64(rec.value.val, sum))]
            && reply == Sums(KeyFound, Some(sum)))
  }

  /** No call but a put aborts, and a put only when the window's put does. */
  lemma OnlyPutsAbort(mode: Mode, s: seq<Window>, c: Call)
    requires StoreInv(mode, s) && ValidCall(mode, c)
    ensures RunCall(mode, s, c).None? <==> c.what.DoPut? && !Put(mode, s[c.win], c.h, c.key, c.what.val).Stored?
  {
    hide WindowInv, Put, RunOn;
    CallOk(mode, c);
  }

  ghost function CodeFor(win: nat, u: Option<Uid>): (r: Option<nat>)
    requires win < WINDOWS && (u.Some? ==> u.value in Uids())
    ensures r.Some? ==> r.value <= UID_NONE
  {
    match u case None => None case Some(x) => Some(CodeOf(win, x))
  }

  /** The code a call other than a put works on. */
  ghost function TargetCode(mode: Mode, s: seq<Window>, c: Call): (r: Option<nat>)
    requires StoreInv(mode, s) && ValidCall(mode, c)
    ensures r.Some? ==> r.value <= UID_NONE
  {
    CallOk(mode, c);
    CodeFor(WindowFor(c), TargetOf(mode, s[WindowFor(c)], OpFor(c)))
  }

  lemma CallOk(mode: Mode, c: Call)
    requires ValidCall(mode, c)
    ensures ValidOp(mode, OpFor(c))
  {
    hide Uids;
  }

  // ---- The store refines its map ---------------------------------------------------------------------

  /** A step of one window's map is a step of the store's. */
  lemma LiftStep(mode: Mode, s: seq<Window>, win: nat, w': Window, op: Op, on: Option<Uid>, reply: Reply)
    requires StoreInv(mode, s) && win < WINDOWS && WindowInv(mode, w') && !op.PutOp? && (on.Some? ==> on.value in Uids())
    requires MapStepOn(Abs(mode, s[win]), op, on, RecordAt(Abs(mode, s[win]), on), Abs(mode, w'), reply)
    ensures StoreInv(mode, s[win := w'])
    ensures MapStepOn(Records(mode, s), op, CodeFor(win, on), RecordAt(Records(mode, s), CodeFor(win, on)), Records(mode, s[win := w']), reply)
  {
    hide WindowInv, Abs, Records, CodeOf, Uids, WithU64, U64At;
    var m, m' := Abs(mode, s[win]), Abs(mode, w');
    if m' == m { RecordsSame(mode, s, win, w'); }
    if on.Some? {
      var u := on.value;
      CodeInRecords(mode, s, win, u);
      if m' == m - {u} { RecordsDrop(mode, s, win, w', u); }
      if u in m && op.UpdateOp? && m' == m[u := m[u].(val := op.val)] { RecordsSet(mode, s, win, w', u, m[u].(val := op.val)); }
      if u in m && op.AddOp? && |m[u].val| >= 8 {
        var rec := m[u].(val := WithU64(m[u].val, (U64At(m[u].val) + op.add) % TWO_64));
        RecordsSet(mode, s, win, w', u, rec);
      }
    }
  }

  /** Targets of the window's map are targets of the store's. */
  lemma LiftTargets(mode: Mode, s: seq<Window>, c: Call, on: Option<Uid>)
    requires StoreInv(mode, s) && ValidCall(mode, c) && !c.what.DoPut? && (on.Some? ==> on.value in Uids())
    requires Targets(Abs(mode, s[WindowFor(c)]), OpFor(c).on, on)
    ensures CallTargets(Records(mode, s), c, CodeFor(WindowFor(c), on))
  {
    hide WindowInv, Abs, Records, CodeOf, Uids, WinOf, PlaceOf;
    var m := Records(mode, s);
    if c.code != UID_NONE {
      CodeOfPlace(c.code);
    } else {
      RecordsBound(mode, s);
      forall code | 0 <= code <= UID_NONE
        ensures Holds(m, c, code) <==> WinOf(code) == c.win && Answers(Abs(mode, s[c.win]), c.h, c.key, PlaceOf(code)) {
        InRecords(mode, s, code);
      }
      forall u | Answers(Abs(mode, s[c.win]), c.h, c.key, u)
        ensures u in Uids() && CodeOf(c.win, u) <= UID_NONE && Holds(m, c, CodeOf(c.win, u)) {
        AbsUids(mode, s[c.win], u);
        PlaceOfCode(c.win, u);
      }
      if on.Some? { PlaceOfCode(c.win, on.value); }
    }
  }

  /** Every call on the store is that call of its map, with the same answer. */
  lemma CallRefines(mode: Mode, s: seq<Window>, c: Call)
    requires StoreInv(mode, s) && ValidCall(mode, c) && RunCall(mode, s, c).Some?
    ensures StoreInv(mode, RunCall(mode, s, c).value.0)
    ensures StoreStep(Records(mode, s), c, TargetCode(mode, s, c), Records(mode, RunCall(mode, s, c).value.0), RunCall(mode, s, c).value.1)
  {
    hide WindowInv, Run, Abs, Records, CodeOf, Uids, Targets, MapStepOn, StoreStepOn, CallTargets, TargetOf, PlaceOf, WinOf;
    CallOk(mode, c);
    var win, op := WindowFor(c), OpFor(c);
    var w := s[win];
    RunRefines(mode, w, op);
    var w', reply := Run(mode, w, op).value.0, Run(mode, w, op).value.1;
    if c.what.DoPut? {
      PutMap(mode, w, w', reply.u, Record(c.h.rnd, c.key, c.what.val));
      RecordsSet(mode, s, win, w', reply.u, Record(c.h.rnd, c.key, c.what.val));
      CodeInRecords(mode, s, win, reply.u);
      PlaceOfCode(win, reply.u);
    } else {
      assert MapStepOn(Abs(mode, w), op, TargetOf(mode, w, op), RecordAt(Abs(mode, w), TargetOf(mode, w, op)), Abs(mode, w'), reply);
      LiftStep(mode, s, win, w', op, TargetOf(mode, w, op), reply);
      LiftTargets(mode, s, c, TargetOf(mode, w, op));
      NotStores(mode, w, op);
      var on := CodeFor(win, TargetOf(mode, w, op));
      StepByWhat(Records(mode, s), c, on, Records(mode, s[win := w']), reply);
    }
  }

  /** Calls work on one window, and collect garbage there as they do in a window of its own. */
  lemma CallBoundsGarbage(mode: Mode, s: seq<Window>, c: Call)
    requires StoreInv(mode, s) && ValidCall(mode, c) && RunCall(mode, s, c).Some?
    ensures var s', win := RunCall(mode, s, c).value.0, WindowFor(c);
            && |s'| == |s| && (forall x :: 0 <= x < |s| && x != win ==> s'[x] == s[x])
            && (c.what.DoPut? ==>
                  && c.h.tab2 < |s'[win].redirect| && s'[win].redirect[c.h.tab2] < |s'[win].tabs|
                  && var tab := s'[win].tabs[s'[win].redirect[c.h.tab2]]; tab.dataUsed * 20 < 0x1_0000_0000 ==> 5 * tab.dataFree <= tab.dataUsed)
            && (c.what.DoGet? && TargetCode(mode, s, c).Some? && TargetCode(mode, s, c).value in Records(mode, s) ==>
                  var tab2 := PlaceOf(TargetCode(mode, s, c).value).tab2;
                  && tab2 < |s'[win].redirect| && s'[win].redirect[tab2] < |s'[win].tabs|
                  && var tab := s'[win].tabs[s'[win].redirect[tab2]]; 4 * tab.dataFree <= tab.dataUsed)
  {
    hide WindowInv, Run, Abs, Records, CodeOf, Uids, TargetOf, PlaceOf, WinOf;
    CallOk(mode, c);
    var win, op := WindowFor(c), OpFor(c);
    RunBoundsGarbage(mode, s[win], op);
    if c.what.DoGet? && TargetOf(mode, s[win], op).Some? {
      PlaceOfCode(win, TargetOf(mode, s[win], op).value);
      CodeInRecords(mode, s, win, TargetOf(mode, s[win], op).value);
    }
  }

  lemma StepByWhat(m: map<nat, Record>, c: Call, on: Option<nat>, m': map<nat, Record>, reply: Reply)
    requires c.code <= UID_NONE && !c.what.DoPut? && MapStepOn(m, OpFor(c), on, RecordAt(m, on), m', reply)
    ensures StoreStepOn(m, c.what, on, RecordAt(m, on), m', reply)
  {
    hide WithU64, U64At, PlaceOf;
  }

  lemma PutMap(mode: Mode, w: Window, w': Window, u: Uid, rec: Record)
    requires WindowInv(mode, w') && WindowInv(mode, w) && Abs(mode, w') == Abs(mode, w)[u := rec]
    ensures u in Uids()
  {
    hide WindowInv, Abs;
    assert u in Abs(mode, w');
    AbsUids(mode, w', u);
  }

  lemma NotStores(mode: Mode, w: Window, op: Op)
    requires WindowInv(mode, w) && ValidOp(mode, op) && !op.PutOp? && Run(mode, w, op).Some?
    ensures !Run(mode, w, op).value.1.Stores?
  {
    hide WindowInv, TargetOf, Get, Delete, Update, AtomAdd, Uids;
  }

  // ---- Runs of the store -----------------------------------------------------------------------------

  /** A new store: 256 new windows. */
  function NewStore(): seq<Window> {
    seq(WINDOWS, i => NewWindow())
  }

  lemma NewStoreEmpty(mode: Mode)
    requires Sound(mode)
    ensures StoreInv(mode, NewStore()) && Records(mode, NewStore()) == map[]
  {
    hide WindowInv, Abs, Records, NewWindow;
    NewWindowEmpty(mode);
    RecordsBound(mode, NewStore());
    forall code | 0 <= code <= UID_NONE ensures code !in Records(mode, NewStore()) { InRecords(mode, NewStore(), code); }
  }

  /** trace is a run of calls of any kind on any windows, with their replies, none of which aborts. */
  ghost predicate IsStoreRun(mode: Mode, trace: seq<seq<Window>>, calls: seq<Call>, replies: seq<StoreReply>) {
    && |trace| == |calls| + 1 && |replies| == |calls|
    && (forall k :: 0 <= k < |calls| ==> ValidCall(mode, calls[k]))
    && (forall k {:trigger calls[k]} :: 0 <= k < |calls| && StoreInv(mode, trace[k]) ==>
          RunCall(mode, trace[k], calls[k]) == Some((trace[k + 1], replies[k])))
  }

  lemma {:induction false} StoreRunKeeps(mode: Mode, trace: seq<seq<Window>>, calls: seq<Call>, replies: seq<StoreReply>, k: nat)
    requires IsStoreRun(mode, trace, calls, replies) && StoreInv(mode, trace[0]) && k <= |calls|
    ensures StoreInv(mode, trace[k])
  {
    hide StoreInv, RunCall;
    if k > 0 {
      StoreRunKeeps(mode, trace, calls, replies, k - 1);
      assert ValidCall(mode, calls[k - 1]);
      CallRefines(mode, trace[k - 1], calls[k - 1]);
    }
  }

  /** Call k of the run is that call of the store's map. */
  ghost predicate StoreRefinesAt(mode: Mode, trace: seq<seq<Window>>, calls: seq<Call>, replies: seq<StoreReply>, k: nat)
    requires k < |calls| == |replies| < |trace|
  {
    && StoreInv(mode, trace[k]) && StoreInv(mode, trace[k + 1]) && ValidCall(mode, calls[k])
    && StoreStep(Records(mode, trace[k]), calls[k], TargetCode(mode, trace[k], calls[k]), Records(mode, trace[k + 1]), replies[k])
  }

  /** From a new store every sequence of calls, by key or by 32-bit UID and on any windows, is a sequence of calls of one
      map from UID to record, from the empty map on, and every caller is told what the map says. */
  lemma RunsRefineStore(mode: Mode, trace: seq<seq<Window>>, calls: seq<Call>, replies: seq<StoreReply>)
    requires Sound(mode) && IsStoreRun(mode, trace, calls, replies) && trace[0] == NewStore()
    ensures StoreInv(mode, trace[0]) && Records(mode, trace[0]) == map[]
    ensures forall k :: 0 <= k < |calls| ==> StoreRefinesAt(mode, trace, calls, replies, k)
  {
    hide StoreInv, RunCall, Records, TargetCode, StoreStep;
    NewStoreEmpty(mode);
    forall k | 0 <= k < |calls| ensures StoreRefinesAt(mode, trace, calls, replies, k) {
      StoreRunKeeps(mode, trace, calls, replies, k);
      StoreRunKeeps(mode, trace, calls, replies, k + 1);
      assert ValidCall(mode, calls[k]);
      CallRefines(mode, trace[k], calls[k]);
    }
  }

  // ---- The UID that means none ---------------------------------------------------------------------

  /** Any call with this code works on the code's own record, whatever key was hashed last. */
  ghost predicate AlwaysReached(mode: Mode, s: seq<Window>, code: nat)
    requires StoreInv(mode, s) && code <= UID_NONE
  {
    forall win: nat, h, key :: win < WINDOWS && ValidHash(h) ==> ReachedWith(mode, s, code, win, h, key)
  }

  ghost predicate ReachedWith(mode: Mode, s: seq<Window>, code: nat, win: nat, h: Hash, key: seq<Byte>)
    requires StoreInv(mode, s) && code <= UID_NONE && win < WINDOWS && ValidHash(h)
  {
    TargetCode(mode, s, Call(code, win, h, key, DoGet)) == Some(code)
  }

  lemma NonePlace(win: nat, u: Uid)
    requires win < WINDOWS && u in Uids()
    ensures CodeOf(win, u) == UID_NONE <==> win == WINDOWS - 1 && u == Uid(INDEXES - 1, SLOTS - 1)
  {
    UidBounds(u);
    NoneIsLast(Parts(win, u.tab2, u.slot / REFS_PER_ROW, u.slot % REFS_PER_ROW));
  }

  lemma GivenCode(mode: Mode, s: seq<Window>, code: nat, win: nat, h: Hash, key: seq<Byte>)
    requires StoreInv(mode, s) && code <= UID_NONE && win < WINDOWS && ValidHash(h)
    ensures code != UID_NONE ==> ReachedWith(mode, s, code, win, h, key)
    ensures code == UID_NONE && ReachedWith(mode, s, code, win, h, key) ==> win == WinOf(code)
  {
    hide WindowInv, CodeOf, Uids, WinOf, PlaceOf;
    CodeOfPlace(code);
    var c := Call(code, win, h, key, DoGet);
    CallOk(mode, c);
    if code == UID_NONE && ReachedWith(mode, s, code, win, h, key) {
      PlaceOfCode(win, TargetOf(mode, s[win], OpFor(c)).value);
    }
  }

  /** A code always reaches its own record exactly when it is not the one that means none. */
  lemma ReachedUnlessNone(mode: Mode, s: seq<Window>, code: nat)
    requires StoreInv(mode, s) && code <= UID_NONE
    ensures AlwaysReached(mode, s, code) <==> code != UID_NONE
  {
    hide WindowInv, ReachedWith;
    forall win: nat, h, key | win < WINDOWS && ValidHash(h)
      ensures code != UID_NONE ==> ReachedWith(mode, s, code, win, h, key)
      ensures code == UID_NONE && ReachedWith(mode, s, code, win, h, key) ==> win == WinOf(code) {
      GivenCode(mode, s, code, win, h, key);
    }
    if code == UID_NONE {
      assert WinOf(code) == WINDOWS - 1;
      assert ValidHash(Hash(0, 0, 0)) && !ReachedWith(mode, s, code, 0, Hash(0, 0, 0), []);
    }
  }

  /** The UID a put returned reaches that record whatever the current key is, unless the put took the last place of the
      last index of the last window. */
  lemma PutUidReaches(mode: Mode, s: seq<Window>, c: Call)
    requires StoreInv(mode, s) && ValidCall(mode, c) && c.what.DoPut? && RunCall(mode, s, c).Some?
    ensures RunCall(mode, s, c).value.1.NewCode? && StoreInv(mode, RunCall(mode, s, c).value.0)
    ensures var s', code := RunCall(mode, s, c).value.0, RunCall(mode, s, c).value.1.code;
            && code <= UID_NONE && code in Records(mode, s')
            && (AlwaysReached(mode, s', code) <==> !(WinOf(code) == WINDOWS - 1 && PlaceOf(code) == Uid(INDEXES - 1, SLOTS - 1)))
  {
    hide StoreInv, RunCall, Records, AlwaysReached, WinOf, PlaceOf, CodeOf;
    CallRefines(mode, s, c);
    var s', code := RunCall(mode, s, c).value.0, RunCall(mode, s, c).value.1.code;
    ReachedUnlessNone(mode, s', code);
    CodeOfPlace(code);
    NonePlace(WinOf(code), PlaceOf(code));
  }

  /** The last index and row of a window, and the places in that row. */
  function LastHash(rnd: nat): Hash {
    Hash(INDEXES - 1, ROWS - 1, rnd)
  }

  function LastRow(n: nat): (u: Uid)
    requires n < REFS_PER_ROW
    ensures u in Uids()
  {
    InUids(INDEXES - 1, (ROWS - 1) * REFS_PER_ROW + n);
    Uid(INDEXES - 1, (ROWS - 1) * REFS_PER_ROW + n)
  }

  /** A new store after n puts of one record in the last row of the last index of the last window. */
  ghost function FilledStore(mode: Mode, rnd: nat, key: seq<Byte>, val: seq<Byte>, n: nat): (s: seq<Window>)
    requires Sound(mode) && rnd < RNDS && Accepts(mode, key, val) && n <= REFS_PER_ROW
    requires HEADER + REFS_PER_ROW * RecordLen(mode, |key|, |val|) < TWO_32
    ensures StoreInv(mode, s)
  {
    NewStoreEmpty(mode);
    RowFills(mode, LastHash(rnd), key, val, n);
    NewStore()[WINDOWS - 1 := PutTimes(mode, NewWindow(), LastHash(rnd), key, val, n).value]
  }

  ghost function FillRun(mode: Mode, rnd: nat, key: seq<Byte>, val: seq<Byte>): (trace: seq<seq<Window>>)
    requires Sound(mode) && rnd < RNDS && Accepts(mode, key, val)
    requires HEADER + REFS_PER_ROW * RecordLen(mode, |key|, |val|) < TWO_32
  {
    seq(REFS_PER_ROW + 1, n requires 0 <= n <= REFS_PER_ROW => FilledStore(mode, rnd, key, val, n))
  }

  /** Put number n of that run stores in place n of the row. */
  lemma FillStep(mode: Mode, rnd: nat, key: seq<Byte>, val: seq<Byte>, n: nat)
    requires Sound(mode) && rnd < RNDS && Accepts(mode, key, val) && n < REFS_PER_ROW
    requires HEADER + REFS_PER_ROW * RecordLen(mode, |key|, |val|) < TWO_32
    ensures var c, u := Call(UID_NONE, WINDOWS - 1, LastHash(rnd), key, DoPut(val)), LastRow(n);
            && ValidCall(mode, c)
            && RunCall(mode, FilledStore(mode, rnd, key, val, n), c) ==
               Some((FilledStore(mode, rnd, key, val, n + 1), NewCode(CodeOf(WINDOWS - 1, u))))
  {
    hide WindowInv, Put, Filled, NewWindow, CodeOf, Uids, RecordLen;
    var h, u := LastHash(rnd), LastRow(n);
    RowFills(mode, h, key, val, n);
    var w := PutTimes(mode, NewWindow(), h, key, val, n).value;
    FilledPut(mode, w, h, key, val, n);
    assert PutTimes(mode, NewWindow(), h, key, val, n + 1).value == Put(mode, w, h, key, val).w;
    var s := FilledStore(mode, rnd, key, val, n);
    assert s[WINDOWS - 1] == w;
    assert s[WINDOWS - 1 := Put(mode, w, h, key, val).w] == FilledStore(mode, rnd, key, val, n + 1);
  }

  /** From a new store, sixteen puts into that row are a run, and the last one returns the UID that means none. */
  lemma ReservedUidReturned(mode: Mode, rnd: nat, key: seq<Byte>, val: seq<Byte>) returns (calls: seq<Call>, replies: seq<StoreReply>)
    requires Sound(mode) && rnd < RNDS && Accepts(mode, key, val)
    requires HEADER + REFS_PER_ROW * RecordLen(mode, |key|, |val|) < TWO_32
    ensures IsStoreRun(mode, FillRun(mode, rnd, key, val), calls, replies) && |calls| == REFS_PER_ROW
    ensures FillRun(mode, rnd, key, val)[0] == NewStore()
    ensures forall k :: 0 <= k < |calls| ==> calls[k].what.DoPut?
    ensures replies[REFS_PER_ROW - 1] == NewCode(UID_NONE)
  {
    hide WindowInv, FilledStore, RunCall, CodeOf, StoreInv, Uids, RecordLen;
    calls := seq(REFS_PER_ROW, i => Call(UID_NONE, WINDOWS - 1, LastHash(rnd), key, DoPut(val)));
    replies := seq(REFS_PER_ROW, n requires 0 <= n < REFS_PER_ROW => NewCode(CodeOf(WINDOWS - 1, LastRow(n))));
    var trace := FillRun(mode, rnd, key, val);
    forall k {:trigger calls[k]} | 0 <= k < REFS_PER_ROW
      ensures ValidCall(mode, calls[k])
      ensures StoreInv(mode, trace[k]) ==> RunCall(mode, trace[k], calls[k]) == Some((trace[k + 1], replies[k])) {
      FillStep(mode, rnd, key, val, k);
    }
    NothingFilled(mode, rnd, key, val);
    NonePlace(WINDOWS - 1, LastRow(REFS_PER_ROW - 1));
  }

  lemma NothingFilled(mode: Mode, rnd: nat, key: seq<Byte>, val: seq<Byte>)
    requires Sound(mode) && rnd < RNDS && Accepts(mode, key, val)
    requires HEADER + REFS_PER_ROW * RecordLen(mode, |key|, |val|) < TWO_32
    ensures FilledStore(mode, rnd, key, val, 0) == NewStore()
  {
    hide WindowInv, NewWindow, RecordLen;
    NewWindowEmpty(mode);
    assert PutTimes(mode, NewWindow(), LastHash(rnd), key, val, 0) == Some(NewWindow());
  }
}
