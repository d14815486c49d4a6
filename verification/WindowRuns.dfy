/** Sequences of calls on a window are sequences of calls on a plain map, with the same answers. */
module WindowRuns {
  import opened Common
  import opened Bytes
  import opened TabHeap
  import opened TabFile
  import opened WindowModel
  import opened WindowOps

  // ---- Calls --------------------------------------------------------------------------

  /** The target of a call: a UID, or whatever a key finds. */
  datatype Target = ByUid(u: Uid) | ByKey(h: Hash, key: seq<Byte>)

  datatype Op =
    | PutOp(h: Hash, key: seq<Byte>, val: seq<Byte>)
    | GetOp(on: Target)
    | DeleteOp(on: Target)
    | UpdateOp(on: Target, val: seq<Byte>)
    | AddOp(on: Target, add: int)

  /** What a call gives its caller: a new UID, the record copied out, what was found, and after an add the new number. */
  datatype Reply =
    | Stores(u: Uid)
    | Copies(rec: Option<Record>)
    | Tells(found: Found)
    | Sums(found: Found, sum: Option<nat>)

  ghost predicate ValidTarget(t: Target) {
    match t
    case ByUid(u) => u in Uids()
    case ByKey(h, _) => ValidHash(h)
  }

  ghost predicate ValidOp(mode: Mode, op: Op) {
    match op
    case PutOp(h, key, val) => ValidHash(h) && Accepts(mode, key, val)
    case GetOp(on) => ValidTarget(on)
    case DeleteOp(on) => ValidTarget(on)
    case UpdateOp(on, _) => ValidTarget(on)
    case AddOp(on, _) => ValidTarget(on)
  }

  /** The UID a call works on. */
  ghost function TargetUid(mode: Mode, w: Window, t: Target): (r: Option<Uid>)
    requires WindowInv(mode, w) && ValidTarget(t)
    ensures r.Some? ==> r.value in Uids()
  {
    match t
    case ByUid(u) => Some(u)
    case ByKey(h, key) =>
      FindCorrect(mode, w, h, key);
      Find(mode, w, h, key)
  }

  ghost function TargetOf(mode: Mode, w: Window, op: Op): (r: Option<Uid>)
    requires WindowInv(mode, w) && ValidOp(mode, op)
    ensures r.Some? ==> r.value in Uids()
  {
    if op.PutOp? then None else TargetUid(mode, w, op.on)
  }

  /** The number an atomic add stores and returns. */
  ghost function NewSum(mode: Mode, w: Window, u: Uid, add: int): Option<nat>
    requires WindowInv(mode, w)
  {
    match Resolve(mode, w, u)
    case None => None
    case Some(rec) => if |rec.val| < 8 then None else Some((U64At(rec.val) + add) % TWO_64)
  }

  /** The window after a call and the reply; None when a put aborted. */
  ghost function Run(mode: Mode, w: Window, op: Op): Option<(Window, Reply)>
    requires WindowInv(mode, w) && ValidOp(mode, op)
  {
    match op
    case PutOp(h, key, val) => (match Put(mode, w, h, key, val) case Stored(w', u) => Some((w', Stores(u))) case _ => None)
    case _ => Some(RunOn(mode, w, op, TargetOf(mode, w, op)))
  }

  ghost function RunOn(mode: Mode, w: Window, op: Op, on: Option<Uid>): (Window, Reply)
    requires WindowInv(mode, w) && !op.PutOp? && (on.Some? ==> on.value in Uids())
  {
    match on
    case None => (w, match op case GetOp(_) => Copies(None) case AddOp(_, _) => Sums(KeyNone, None) case _ => Tells(KeyNone))
    case Some(u) =>
      match op
      case GetOp(_) => (Get(mode, w, u).0, Copies(Get(mode, w, u).1))
      case DeleteOp(_) => (Delete(mode, w, u).0, Tells(Delete(mode, w, u).1))
      case UpdateOp(_, val) => (Update(mode, w, u, val).0, Tells(Update(mode, w, u, val).1))
      case AddOp(_, add) => (AtomAdd(mode, w, u, add).0, Sums(AtomAdd(mode, w, u, add).1, NewSum(mode, w, u, add)))
  }

  // ---- The plain map ---------------------------------------------------------------------

  /** In the map, what a call works on: its UID, or of the records under its hash and key the one in the lowest place. */
  ghost predicate Targets(m: map<Uid, Record>, on: Target, u: Option<Uid>) {
    match on
    case ByUid(x) => u == Some(x)
    case ByKey(h, key) =>
      && (u.Some? <==> exists x :: Answers(m, h, key, x))
      && (u.Some? ==> Answers(m, h, key, u.value) && forall x :: Answers(m, h, key, x) ==> u.value.slot <= x.slot)
  }

  /** The record at a target, if there is one. */
  function RecordAt<K(==)>(m: map<K, Record>, on: Option<K>): Option<Record> {
    if on.Some? && on.value in m then Some(m[on.value]) else None
  }

  /** One call of the plain map, with its answer: a put adds a record under a UID that was free and gives that UID, a get
      gives the record and changes nothing, a delete removes one, an update or an add changes one value or says why not. */
  ghost predicate MapStep(m: map<Uid, Record>, op: Op, on: Option<Uid>, m': map<Uid, Record>, reply: Reply) {
    match op
    case PutOp(h, key, val) =>
      && reply.Stores? && reply.u !in m && reply.u.tab2 == h.tab2 && reply.u.slot / REFS_PER_ROW == h.row
      && m' == m[reply.u := Record(h.rnd, key, val)]
    case _ => Targets(m, op.on, on) && MapStepOn(m, op, on, RecordAt(m, on), m', reply)
  }

  /** The calls other than put, once what they work on is known. */
  ghost predicate MapStepOn<K>(m: map<K, Record>, op: Op, on: Option<K>, rec: Option<Record>, m': map<K, Record>, reply: Reply)
    requires !op.PutOp? && (rec.Some? ==> on.Some?)
  {
    match op
    case GetOp(_) => m' == m && reply == Copies(rec)
    case DeleteOp(_) =>
      if rec.None? then m' == m && reply == Tells(KeyNone) else m' == m - {on.value} && reply == Tells(KeyFound)
    case UpdateOp(_, val) =>
      if rec.None? then m' == m && reply == Tells(KeyNone)
      else if |val| != |rec.value.val| then m' == m && reply == Tells(BadCallback)
      else m' == m[on.value := rec.value.(val := val)] && reply == Tells(KeyFound)
    case AddOp(_, add) =>
      if rec.None? then m' == m && reply == Sums(KeyNone, None)
      else if |rec.value.val| < 8 then m' == m && reply == Sums(BadVal, None)
      else
        var sum := (U64At(rec.value.val) + add) % TWO_64;
        m' == m[on.value := rec.value.(val := WithU64(rec.value.val, sum))] && reply == Sums(KeyFound, Some(sum))
  }

  // ---- One refines the other ---------------------------------------------------------------

  lemma TargetRefines(mode: Mode, w: Window, on: Target)
    requires WindowInv(mode, w) && ValidTarget(on)
    ensures Targets(Abs(mode, w), on, TargetUid(mode, w, on))
  {
    hide Abs, WindowInv;
    if on.ByKey? { FindCorrect(mode, w, on.h, on.key); }
  }

  lemma SumRefines(mode: Mode, w: Window, u: Uid, add: int)
    requires WindowInv(mode, w) && u in Uids()
    ensures var m := Abs(mode, w);
            NewSum(mode, w, u, add) == if u in m && |m[u].val| >= 8 then Some((U64At(m[u].val) + add) % TWO_64) else None
  {
    hide WindowInv, Resolve, Uids, U64At;
  }

  lemma GoneAlready(m: map<Uid, Record>, u: Uid)
    requires u !in m
    ensures m - {u} == m
  {
  }

  lemma RunOnRefines(mode: Mode, w: Window, op: Op, on: Option<Uid>)
    requires WindowInv(mode, w) && !op.PutOp? && (on.Some? ==> on.value in Uids())
    ensures WindowInv(mode, RunOn(mode, w, op, on).0)
    ensures MapStepOn(Abs(mode, w), op, on, RecordAt(Abs(mode, w), on), Abs(mode, RunOn(mode, w, op, on).0), RunOn(mode, w, op, on).1)
  {
    hide WindowInv, Get, Delete, Update, AtomAdd, NewSum, Abs, Uids, WithU64, U64At;
    if on.Some? {
      var u := on.value;
      match op {
        case GetOp(_) => GetRefines(mode, w, u);
        case DeleteOp(_) =>
          DeleteRefines(mode, w, u);
          if u !in Abs(mode, w) { GoneAlready(Abs(mode, w), u); }
        case UpdateOp(_, val) => UpdateRefines(mode, w, u, val);
        case AddOp(_, add) =>
          AtomAddRefines(mode, w, u, add);
          SumRefines(mode, w, u, add);
      }
    }
  }

  /** Every call on a window is a call on the map it stands for, with the same answer. */
  lemma RunRefines(mode: Mode, w: Window, op: Op)
    requires WindowInv(mode, w) && ValidOp(mode, op) && Run(mode, w, op).Some?
    ensures WindowInv(mode, Run(mode, w, op).value.0)
    ensures MapStep(Abs(mode, w), op, TargetOf(mode, w, op), Abs(mode, Run(mode, w, op).value.0), Run(mode, w, op).value.1)
  {
    hide WindowInv, Put, RunOn, Abs, Uids, TargetUid, Targets, MapStepOn;
    if op.PutOp? {
      PutRefines(mode, w, op.h, op.key, op.val);
    } else {
      TargetRefines(mode, w, op.on);
      RunOnRefines(mode, w, op, TargetOf(mode, w, op));
    }
  }

  /** Calls collect garbage: after a put the tab written has at most 20 percent of what is used, as long as that product
      fits 32 bits, and after a copy the tab read at most a quarter. */
  lemma RunBoundsGarbage(mode: Mode, w: Window, op: Op)
    requires WindowInv(mode, w) && ValidOp(mode, op) && Run(mode, w, op).Some?
    ensures var w' := Run(mode, w, op).value.0;
            && (op.PutOp? ==>
                  && op.h.tab2 < |w'.redirect| && w'.redirect[op.h.tab2] < |w'.tabs|
                  && var tab := w'.tabs[w'.redirect[op.h.tab2]]; tab.dataUsed * 20 < 0x1_0000_0000 ==> 5 * tab.dataFree <= tab.dataUsed)
            && (op.GetOp? && TargetOf(mode, w, op).Some? && TargetOf(mode, w, op).value in Abs(mode, w) ==>
                  var u := TargetOf(mode, w, op).value;
                  && u.tab2 < |w'.redirect| && w'.redirect[u.tab2] < |w'.tabs|
                  && var tab := w'.tabs[w'.redirect[u.tab2]]; 4 * tab.dataFree <= tab.dataUsed)
  {
    hide WindowInv, Put, Get, Abs, Uids, TargetUid;
    if op.PutOp? {
      PutBoundsGarbage(mode, w, op.h, op.key, op.val);
    } else if op.GetOp? && TargetOf(mode, w, op).Some? {
      GetRefines(mode, w, TargetOf(mode, w, op).value);
    }
  }

  // ---- Runs ------------------------------------------------------------------------------------

  /** trace is a run of calls, with their replies, none of which aborts. */
  ghost predicate IsRun(mode: Mode, trace: seq<Window>, ops: seq<Op>, replies: seq<Reply>) {
    && |trace| == |ops| + 1 && |replies| == |ops|
    && (forall k :: 0 <= k < |ops| ==> ValidOp(mode, ops[k]))
    && (forall k {:trigger ops[k]} :: 0 <= k < |ops| && WindowInv(mode, trace[k]) ==>
          Run(mode, trace[k], ops[k]) == Some((trace[k + 1], replies[k])))
  }

  lemma {:induction false} RunKeeps(mode: Mode, trace: seq<Window>, ops: seq<Op>, replies: seq<Reply>, k: nat)
    requires IsRun(mode, trace, ops, replies) && WindowInv(mode, trace[0]) && k <= |ops|
    ensures WindowInv(mode, trace[k])
  {
    hide WindowInv, Run;
    if k > 0 {
      RunKeeps(mode, trace, ops, replies, k - 1);
      assert ValidOp(mode, ops[k - 1]);
      RunRefines(mode, trace[k - 1], ops[k - 1]);
    }
  }

  /** Call k of the run is that call of the plain map. */
  ghost predicate RefinesAt(mode: Mode, trace: seq<Window>, ops: seq<Op>, replies: seq<Reply>, k: nat)
    requires k < |ops| == |replies| < |trace|
  {
    && WindowInv(mode, trace[k]) && WindowInv(mode, trace[k + 1]) && ValidOp(mode, ops[k])
    && MapStep(Abs(mode, trace[k]), ops[k], TargetOf(mode, trace[k], ops[k]), Abs(mode, trace[k + 1]), replies[k])
  }

  /** From a new window every sequence of calls is a sequence of calls of the plain map, from the empty map on, and every
      caller is told what the map says. */
  lemma RunsRefineMap(mode: Mode, trace: seq<Window>, ops: seq<Op>, replies: seq<Reply>)
    requires Sound(mode) && IsRun(mode, trace, ops, replies) && trace[0] == NewWindow()
    ensures WindowInv(mode, trace[0]) && Abs(mode, trace[0]) == map[]
    ensures forall k :: 0 <= k < |ops| ==> RefinesAt(mode, trace, ops, replies, k)
  {
    hide WindowInv, Run, Abs, TargetOf, MapStep;
    NewWindowEmpty(mode);
    forall k | 0 <= k < |ops| ensures RefinesAt(mode, trace, ops, replies, k) {
      RunKeeps(mode, trace, ops, replies, k);
      RunKeeps(mode, trace, ops, replies, k + 1);
      assert ValidOp(mode, ops[k]);
      RunRefines(mode, trace[k], ops[k]);
    }
  }

  /** Puts and gets alone, with all their partings, never leave a byte of garbage. */
  lemma {:induction false} PutsLeaveNoGarbage(mode: Mode, trace: seq<Window>, ops: seq<Op>, replies: seq<Reply>, k: nat)
    requires Sound(mode) && IsRun(mode, trace, ops, replies) && trace[0] == NewWindow() && k <= |ops|
    requires forall j :: 0 <= j < |ops| ==> ops[j].PutOp? || ops[j].GetOp?
    ensures WindowInv(mode, trace[k]) && NoGarbage(trace[k])
  {
    hide WindowInv, NoGarbage, Put, Get, Abs;
    NewWindowEmpty(mode);
    if k > 0 {
      PutsLeaveNoGarbage(mode, trace, ops, replies, k - 1);
      var w, op := trace[k - 1], ops[k - 1];
      assert ValidOp(mode, op) && Run(mode, w, op) == Some((trace[k], replies[k - 1]));
      if op.PutOp? {
        PutRefines(mode, w, op.h, op.key, op.val);
      } else if TargetOf(mode, w, op).Some? {
        GetRefines(mode, w, TargetOf(mode, w, op).value);
      }
    }
  }

  // ---- A UID over time ----------------------------------------------------------------------------

  /** The call deletes, updates or adds to this UID. */
  ghost predicate Touches(mode: Mode, w: Window, op: Op, u: Uid)
    requires WindowInv(mode, w) && ValidOp(mode, op)
  {
    !op.PutOp? && !op.GetOp? && TargetOf(mode, w, op) == Some(u)
  }

  /** Calls i to k leave the UID alone. */
  ghost predicate Untouched(mode: Mode, trace: seq<Window>, ops: seq<Op>, i: nat, k: nat, u: Uid)
    requires k <= |ops| < |trace|
  {
    forall j :: i <= j < k ==> WindowInv(mode, trace[j]) && ValidOp(mode, ops[j]) && !Touches(mode, trace[j], ops[j], u)
  }

  /** A call that does not touch a UID keeps its record. */
  lemma StepKeepsUid(m: map<Uid, Record>, op: Op, on: Option<Uid>, m': map<Uid, Record>, reply: Reply, u: Uid)
    requires MapStep(m, op, on, m', reply) && u in m && (op.PutOp? || op.GetOp? || on != Some(u))
    ensures u in m' && m'[u] == m[u]
  {
    hide WithU64, U64At, Targets;
  }

  /** A UID keeps resolving to its record, through every parting and shrink, as long as no call deletes or changes it. */
  lemma {:induction false} UidKeeps(mode: Mode, trace: seq<Window>, ops: seq<Op>, replies: seq<Reply>, i: nat, k: nat, u: Uid)
    requires IsRun(mode, trace, ops, replies) && WindowInv(mode, trace[0]) && i <= k <= |ops|
    ensures WindowInv(mode, trace[i]) && WindowInv(mode, trace[k])
    ensures Untouched(mode, trace, ops, i, k, u) && u in Abs(mode, trace[i]) ==>
              u in Abs(mode, trace[k]) && Abs(mode, trace[k])[u] == Abs(mode, trace[i])[u]
    decreases k
  {
    hide WindowInv, Run, Abs, TargetOf, MapStep;
    RunKeeps(mode, trace, ops, replies, i);
    RunKeeps(mode, trace, ops, replies, k);
    if i < k && Untouched(mode, trace, ops, i, k, u) && u in Abs(mode, trace[i]) {
      UidKeeps(mode, trace, ops, replies, i, k - 1, u);
      assert ValidOp(mode, ops[k - 1]);
      RunRefines(mode, trace[k - 1], ops[k - 1]);
      StepKeepsUid(Abs(mode, trace[k - 1]), ops[k - 1], TargetOf(mode, trace[k - 1], ops[k - 1]), Abs(mode, trace[k]), replies[k - 1], u);
    }
  }

  /** From a new window, over every sequence of calls: the UID a put returned resolves to what was put until a call
      deletes or changes that UID. */
  lemma PutUidResolves(mode: Mode, trace: seq<Window>, ops: seq<Op>, replies: seq<Reply>, i: nat, k: nat)
    requires Sound(mode) && IsRun(mode, trace, ops, replies) && trace[0] == NewWindow()
    requires i < k <= |ops| && ops[i].PutOp?
    ensures replies[i].Stores?
    ensures var op, u := ops[i], replies[i].u;
            Untouched(mode, trace, ops, i + 1, k, u) ==>
              WindowInv(mode, trace[k]) && u in Abs(mode, trace[k]) && Abs(mode, trace[k])[u] == Record(op.h.rnd, op.key, op.val)
  {
    hide WindowInv, Put, Abs, Untouched;
    NewWindowEmpty(mode);
    RunKeeps(mode, trace, ops, replies, i);
    var op := ops[i];
    assert ValidOp(mode, op) && Run(mode, trace[i], op) == Some((trace[i + 1], replies[i]));
    PutRefines(mode, trace[i], op.h, op.key, op.val);
    UidKeeps(mode, trace, ops, replies, i + 1, k, replies[i].u);
  }
}
