/** What every interleaving of the queue calls keeps, access by access. */
module QueueRuns {
  import opened Common
  import opened QueueModel
  import opened QueueChains
  import opened QueueSet
  import opened QueueMachine

  // ---- Cells and whose they are --------------------------------------------------------

  predicate InArrays(cfg: Config, c: Cell) {
    match c
    case Next(i) => i < cfg.items
    case Last(i) => i < cfg.items
    case Head(q) => q < cfg.qs
    case Tail(q) => q < cfg.qs
    case Size(q) => q < cfg.qs
  }

  /** A process owns the items it holds or has in its pre-queues, and under the lock those of the shared queues. */
  predicate Belongs(x: Where, holder: Option<nat>, p: nat) {
    match x
    case Held(y) => y == p
    case In(l) =>
      (match l
       case Shared(_) => holder == Some(p)
       case Push(y, _) => y == p
       case Pull(y, _) => y == p)
  }

  /** The cells process p alone may access now. */
  predicate Mine(owner: seq<Where>, holder: Option<nat>, p: nat, c: Cell) {
    match c
    case Next(i) => i < |owner| && Belongs(owner[i], holder, p)
    case Last(i) => i < |owner| && Belongs(owner[i], holder, p)
    case _ => holder == Some(p)
  }

  lemma MineApart(owner: seq<Where>, holder: Option<nat>, p: nat, q: nat, c: Cell)
    requires Mine(owner, holder, p, c) && Mine(owner, holder, q, c)
    ensures p == q
  {
  }

  function Cells(todo: seq<Instr>): set<Cell>
    decreases todo
  {
    if todo == [] then {}
    else
      (match todo[0]
       case Store(c, _) => {c}
       case Plus(c, _) => {c}
       case Minus(c, _) => {c}
       case IfZero(c, zero, other) => {c} + Cells(zero) + Cells(other))
      + Cells(todo[1..])
  }

  lemma {:induction false} CellsConcat(a: seq<Instr>, b: seq<Instr>)
    ensures Cells(a + b) == Cells(a) + Cells(b)
    decreases |a|
  {
    if a == [] {
      assert a + b == b;
    } else {
      assert (a + b)[1..] == a[1..] + b;
      CellsConcat(a[1..], b);
    }
  }

  lemma OperateCells(m: Memory, todo: seq<Instr>)
    requires todo != []
    ensures Cells(Operate(m, todo).1) <= Cells(todo) && todo[0].c in Cells(todo)
    ensures Operate(m, todo).0.Keys == m.Keys
    ensures forall c :: c in m && c != todo[0].c ==> Operate(m, todo).0[c] == m[c]
  {
    match todo[0] {
      case Store(_, _) =>
      case Plus(c, k) => CellsConcat([Store(c, (Load(m, c) + k) % TWO_32)], todo[1..]);
      case Minus(c, k) => CellsConcat([Store(c, (Load(m, c) - k) % TWO_32)], todo[1..]);
      case IfZero(_, zero, other) =>
        CellsConcat(zero, todo[1..]);
        CellsConcat(other, todo[1..]);
    }
  }

  ghost predicate Agree(m: Memory, n: Memory, s: set<Cell>) {
    m.Keys == n.Keys && forall c :: c in s && c in m ==> m[c] == n[c]
  }

  /** What is left to do reads and changes its own cells only. */
  lemma {:induction false} FinishLocal(m: Memory, n: Memory, todo: seq<Instr>, s: set<Cell>)
    requires Agree(m, n, s) && Cells(todo) <= s
    ensures Agree(Finish(m, todo), Finish(n, todo), s)
    ensures Finish(m, todo).Keys == m.Keys
    ensures forall c :: c in m && c !in Cells(todo) ==> Finish(m, todo)[c] == m[c]
    decreases Cost(todo)
  {
    if todo != [] {
      OperateCells(m, todo);
      OperateCells(n, todo);
      OperateCost(m, todo);
      assert todo[0].c in s;
      OperateAlike(m, n, todo, s);
      FinishLocal(Operate(m, todo).0, Operate(n, todo).0, Operate(m, todo).1, s);
    }
  }

  lemma OperateAlike(m: Memory, n: Memory, todo: seq<Instr>, s: set<Cell>)
    requires todo != [] && Agree(m, n, s) && todo[0].c in s
    ensures Operate(m, todo).1 == Operate(n, todo).1
    ensures Agree(Operate(m, todo).0, Operate(n, todo).0, s)
  {
  }

  // ---- Invariant ------------------------------------------------------------------------

  function NextOf(m: Memory, items: nat): (s: seq<nat>)
    ensures |s| == items
  {
    seq(items, i requires 0 <= i < items => Load(m, Next(i)))
  }

  function LastOf(m: Memory, items: nat): (s: seq<nat>)
    ensures |s| == items
  {
    seq(items, i requires 0 <= i < items => Load(m, Last(i)))
  }

  function SharedEnds(m: Memory, q: nat): Ends {
    Ends(Load(m, Head(q)), Load(m, Tail(q)), Load(m, Size(q)))
  }

  function EndsOf(cfg: Config, m: Memory, privs: map<Place, Ends>): map<Place, Ends> {
    map l | l in Places(cfg.procs, cfg.qs) :: if l.Shared? then SharedEnds(m, l.q) else if l in privs then privs[l] else EMPTY
  }

  ghost predicate Shape(cfg: Config, w: World) {
    && |w.pcs| == cfg.procs && cfg.max > 0 && (w.holder.Some? ==> w.holder.value < cfg.procs)
    && |w.model.owner| == cfg.items < NONE
    && w.model.lists.Keys == Places(cfg.procs, cfg.qs)
    && (forall c :: c in w.mem <==> InArrays(cfg, c))
    && w.settled.Keys == w.mem.Keys
  }

  /** The memory once everyone is done holds exactly the model's lists. */
  ghost predicate Settles(cfg: Config, settled: Memory, privs: map<Place, Ends>, m: Model) {
    && Conserved(m)
    && Chains(NextOf(settled, cfg.items), LastOf(settled, cfg.items), EndsOf(cfg, settled, privs), m)
  }

  predicate QueueOk(cfg: Config, q: Option<nat>) {
    q.Some? ==> q.value < cfg.qs
  }

  /** What the registers of a process mean. */
  ghost predicate PcOk(cfg: Config, m: Model, p: nat, pc: Pc)
    requires p < cfg.procs && m.lists.Keys == Places(cfg.procs, cfg.qs)
  {
    FreshPlaces(cfg.procs, cfg.qs);
    match pc
    case Free => true
    case Doing(todo, after) => todo != [] && Plain(cfg, after)
    case FillSize(r, take) => r < cfg.qs && QueueOk(cfg, take)
    case FillAgain(r, take) => r < cfg.qs && QueueOk(cfg, take) && FillCount(m, p, r, cfg.max) == |m.lists[Shared(r)]|
    case FillTail(r, k, take) => r < cfg.qs && QueueOk(cfg, take) && 0 < k == FillCount(m, p, r, cfg.max)
    case FillHead(r, k, tail, take) =>
      r < cfg.qs && QueueOk(cfg, take) && 0 < k == FillCount(m, p, r, cfg.max) && tail == m.lists[Shared(r)][0]
    case Walking(r, k, tail, head, i, take) =>
      && r < cfg.qs && QueueOk(cfg, take) && i < k == FillCount(m, p, r, cfg.max)
      && tail == m.lists[Shared(r)][0] && head == m.lists[Shared(r)][i]
    case _ => Plain(cfg, pc)
  }

  /** Places in the code without registers about the lists. */
  predicate Plain(cfg: Config, pc: Pc) {
    match pc
    case Free => true
    case PushCheck(q) => q < cfg.qs
    case HybridCheck(q, r) => q < cfg.qs && r < cfg.qs
    case Acquire(pull, take) => QueueOk(cfg, pull) && QueueOk(cfg, take)
    case Splicing(q, pull, take) => q <= cfg.qs && QueueOk(cfg, pull) && QueueOk(cfg, take)
    case Releasing(take) => QueueOk(cfg, take)
    case Taking(r) => r < cfg.qs
    case _ => false
  }

  ghost function Region(w: World, p: nat): set<Cell> {
    set c | c in w.mem && Mine(w.model.owner, w.holder, p, c)
  }

  /** What process p has left stays in its own cells, and turns them into the settled ones. */
  ghost predicate ProcOk(cfg: Config, w: World, p: nat)
    requires p < |w.pcs| == cfg.procs && w.model.lists.Keys == Places(cfg.procs, cfg.qs)
  {
    && PcOk(cfg, w.model, p, w.pcs[p])
    && (w.pcs[p].Locked() <==> w.holder == Some(p))
    && Cells(w.pcs[p].Todo()) <= Region(w, p)
    && Agree(w.settled, Finish(w.mem, w.pcs[p].Todo()), Region(w, p))
  }

  /** Cells nobody owns while the lock is free. */
  ghost predicate FreeCellsOk(w: World) {
    forall c :: c in w.mem && (forall p: nat :: !Mine(w.model.owner, w.holder, p, c)) ==> c in w.settled && w.settled[c] == w.mem[c]
  }

  ghost predicate Inv(cfg: Config, w: World) {
    && Shape(cfg, w)
    && Settles(cfg, w.settled, w.privs, w.model)
    && (forall p :: 0 <= p < cfg.procs ==> ProcOk(cfg, w, p))
    && FreeCellsOk(w)
  }

  lemma RegionsApart(w: World, p: nat, q: nat, c: Cell)
    requires c in Region(w, p) && c in Region(w, q)
    ensures p == q
  {
    MineApart(w.model.owner, w.holder, p, q, c);
  }

  // ---- A step inside a process ------------------------------------------------------------

  /** A new place in the code, nothing left to do before or after. */
  lemma PcChange(cfg: Config, w: World, p: nat, pc: Pc)
    requires Inv(cfg, w) && p < cfg.procs && w.pcs[p].Todo() == [] == pc.Todo()
    requires PcOk(cfg, w.model, p, pc) && pc.Locked() == w.pcs[p].Locked()
    ensures Inv(cfg, SetPc(w, p, pc))
  {
    hide Settles, PcOk, Mine;
    var w' := SetPc(w, p, pc);
    forall q | 0 <= q < cfg.procs ensures ProcOk(cfg, w', q) {
      assert ProcOk(cfg, w, q) && ProcOk(cfg, w, p);
      assert Region(w', q) == Region(w, q);
    }
  }

  /** One of the operations left. */
  lemma WorkKeeps(cfg: Config, w: World, p: nat)
    requires Inv(cfg, w) && p < cfg.procs && w.pcs[p].Doing?
    ensures w.pcs[p].todo != []
    ensures var (mem', rest) := Operate(w.mem, w.pcs[p].todo); Inv(cfg, SetPc(w.(mem := mem'), p, Do(rest, w.pcs[p].after)))
  {
    hide Settles, Mine;
    assert ProcOk(cfg, w, p);
    var todo, after := w.pcs[p].todo, w.pcs[p].after;
    var mem', rest := Operate(w.mem, todo).0, Operate(w.mem, todo).1;
    OperateCells(w.mem, todo);
    var w' := SetPc(w.(mem := mem'), p, Do(rest, after));
    assert todo[0].c in Region(w, p);
    forall q | 0 <= q < cfg.procs ensures ProcOk(cfg, w', q) {
      assert ProcOk(cfg, w, q);
      assert Region(w', q) == Region(w, q);
      if q == p {
        assert Finish(mem', rest) == Finish(w.mem, todo);
        PlainTodo(cfg, after);
      } else {
        forall c | c in Region(w, q) ensures mem'[c] == w.mem[c] {
          if c == todo[0].c { RegionsApart(w, p, q, c); }
        }
        FinishLocal(w.mem, mem', w.pcs[q].Todo(), Region(w, q));
      }
    }
    forall c | c in w'.mem && (forall q: nat :: !Mine(w.model.owner, w.holder, q, c)) ensures w'.settled[c] == w'.mem[c] {
      assert c != todo[0].c;
    }
  }

  lemma PlainTodo(cfg: Config, pc: Pc)
    requires Plain(cfg, pc)
    ensures pc.Todo() == []
  {
  }

  // ---- A body taking effect -----------------------------------------------------------------

  /** The model step moves items inside the cells of the process that does it. */
  lemma SameRegions(m: Model, s: Step, holder: Option<nat>, p: nat, c: Cell)
    requires Conserved(m) && Enabled(m, s) && (s.DoSplice? || s.DoFill? ==> holder == Some(s.p))
    ensures Mine(Apply(m, s).owner, holder, p, c) == Mine(m.owner, holder, p, c)
  {
    hide Conserved, ListHas;
    ListsHave(m, s);
  }

  /** Lists a step of another process cannot change. */
  lemma OtherLists(m: Model, s: Step, l: Place)
    requires Conserved(m) && Enabled(m, s) && l in m.lists
    requires match l case Shared(_) => !s.DoSplice? && !s.DoFill? case Push(x, _) => x != s.p case Pull(x, _) => x != s.p
    ensures Apply(m, s).lists[l] == m.lists[l]
  {
    hide Conserved, ListHas;
  }

  lemma OtherPcOk(cfg: Config, w: World, s: Step, q: nat)
    requires Inv(cfg, w) && q < cfg.procs && s.p != q
    requires Enabled(w.model, s) && (s.DoSplice? || s.DoFill? ==> w.holder == Some(s.p))
    ensures PcOk(cfg, Apply(w.model, s), q, w.pcs[q])
  {
    hide Conserved, Enabled, Apply, Settles, Places, Region, Agree;
    FreshPlaces(cfg.procs, cfg.qs);
    assert ProcOk(cfg, w, q);
    SettlesConserved(cfg, w);
    var pc := w.pcs[q];
    if pc.FillAgain? || pc.FillTail? || pc.FillHead? || pc.Walking? {
      NotLocked(w, s, q);
      OtherLists(w.model, s, Shared(pc.r));
      OtherLists(w.model, s, Pull(q, pc.r));
    }
  }

  lemma NotLocked(w: World, s: Step, q: nat)
    requires w.holder == Some(q) && s.p != q && (s.DoSplice? || s.DoFill? ==> w.holder == Some(s.p))
    ensures !s.DoSplice? && !s.DoFill?
  {
  }

  lemma SettlesConserved(cfg: Config, w: World)
    requires Inv(cfg, w)
    ensures Conserved(w.model)
  {
  }

  /** A body takes effect: its private records change, its stores are left to do, nobody else notices. */
  lemma CommitKeeps(cfg: Config, w: World, p: nat, s: Step, todo: seq<Instr>, privs: map<Place, Ends>, pc: Pc)
    requires Inv(cfg, w) && p < cfg.procs && s.p == p && w.pcs[p].Todo() == []
    requires Enabled(w.model, s) && (s.DoSplice? || s.DoFill? ==> w.holder == Some(p))
    requires Cells(todo) <= Region(w, p)
    requires Conserved(w.model) && Settles(cfg, Finish(w.settled, todo), privs, Apply(w.model, s))
    requires pc.Todo() == todo && pc.Locked() == w.pcs[p].Locked() && PcOk(cfg, Apply(w.model, s), p, pc)
    ensures Inv(cfg, SetPc(Commit(w, s, todo).(privs := privs), p, pc))
  {
    hide Settles, Conserved, Enabled, Apply, PcOk, Mine;
    var w' := SetPc(Commit(w, s, todo).(privs := privs), p, pc);
    assert w'.model == Apply(w.model, s);
    FinishLocal(w.settled, w.settled, todo, Cells(todo));
    forall q: nat, c ensures Mine(w'.model.owner, w.holder, q, c) == Mine(w.model.owner, w.holder, q, c) {
      SameRegions(w.model, s, w.holder, q, c);
    }
    forall q | 0 <= q < cfg.procs ensures ProcOk(cfg, w', q) {
      assert Region(w', q) == Region(w, q);
      assert ProcOk(cfg, w, q);
      if q == p {
        FinishLocal(w.settled, w.mem, todo, Region(w, p));
      } else {
        OtherPcOk(cfg, w, s, q);
        forall c | c in Region(w, q) ensures c !in Cells(todo) {
          if c in Cells(todo) { RegionsApart(w, p, q, c); }
        }
      }
    }
    forall c | c in w'.mem && (forall q: nat :: !Mine(w'.model.owner, w'.holder, q, c)) ensures w'.settled[c] == w'.mem[c] {
      assert !Mine(w.model.owner, w.holder, p, c) && c !in Region(w, p);
      assert !(c in Cells(todo));
    }
  }

  // ---- The lock ---------------------------------------------------------------------------------

  lemma AcquireKeeps(cfg: Config, w: World, p: nat, pc: Pc)
    requires Inv(cfg, w) && p < cfg.procs && w.holder.None? && w.pcs[p].Todo() == [] == pc.Todo()
    requires pc.Locked() && PcOk(cfg, w.model, p, pc)
    ensures Inv(cfg, SetPc(w.(holder := Some(p)), p, pc))
  {
    hide Settles, PcOk;
    var w' := SetPc(w.(holder := Some(p)), p, pc);
    forall q | 0 <= q < cfg.procs ensures ProcOk(cfg, w', q) {
      assert ProcOk(cfg, w, q);
      if q != p {
        assert Region(w', q) == Region(w, q);
      } else {
        forall c | c in Region(w', p) ensures w.settled[c] == w.mem[c] {
          if !Mine(w.model.owner, None, p, c) { FreedCell(w.model.owner, p, c); }
        }
      }
    }
    forall c | c in w'.mem && (forall q: nat :: !Mine(w'.model.owner, w'.holder, q, c)) ensures w'.settled[c] == w'.mem[c] {
      forall q: nat ensures !Mine(w.model.owner, w.holder, q, c) { assert !Mine(w'.model.owner, w'.holder, q, c); }
    }
  }

  /** A cell that becomes p's with the lock was nobody's. */
  lemma FreedCell(owner: seq<Where>, p: nat, c: Cell)
    requires Mine(owner, Some(p), p, c) && !Mine(owner, None, p, c)
    ensures forall q: nat :: !Mine(owner, None, q, c)
  {
  }

  lemma ReleaseKeeps(cfg: Config, w: World, p: nat, pc: Pc)
    requires Inv(cfg, w) && p < cfg.procs && w.holder == Some(p) && w.pcs[p].Todo() == [] == pc.Todo()
    requires !pc.Locked() && PcOk(cfg, w.model, p, pc)
    ensures Inv(cfg, SetPc(w.(holder := None), p, pc))
  {
    hide Settles, PcOk;
    var w' := SetPc(w.(holder := None), p, pc);
    assert ProcOk(cfg, w, p);
    forall q | 0 <= q < cfg.procs ensures ProcOk(cfg, w', q) {
      assert ProcOk(cfg, w, q);
      if q != p {
        assert Region(w', q) == Region(w, q);
      } else {
        assert Region(w', p) <= Region(w, p);
      }
    }
    forall c | c in w'.mem && (forall q: nat :: !Mine(w'.model.owner, w'.holder, q, c)) ensures w'.settled[c] == w'.mem[c] {
      if !Mine(w.model.owner, w.holder, p, c) {
        forall q: nat ensures !Mine(w.model.owner, w.holder, q, c) { assert !Mine(w.model.owner, None, q, c); }
      } else {
        assert c in Region(w, p);
      }
    }
  }

  // ---- What the bodies leave behind ---------------------------------------------------------------

  lemma FinishStore(m: Memory, todo: seq<Instr>)
    requires todo != [] && todo[0].Store? && todo[0].c in m
    ensures Finish(m, todo) == Finish(m[todo[0].c := todo[0].v], todo[1..])
  {
  }

  lemma FinishPlus(m: Memory, todo: seq<Instr>)
    requires todo != [] && todo[0].Plus? && todo[0].c in m
    ensures Finish(m, todo) == Finish(m[todo[0].c := (m[todo[0].c] + todo[0].k) % TWO_32], todo[1..])
  {
    var done := [Store(todo[0].c, (m[todo[0].c] + todo[0].k) % TWO_32)] + todo[1..];
    FinishStore(m, done);
    assert done[1..] == todo[1..];
  }

  lemma FinishMinus(m: Memory, todo: seq<Instr>)
    requires todo != [] && todo[0].Minus? && todo[0].c in m
    ensures Finish(m, todo) == Finish(m[todo[0].c := (m[todo[0].c] - todo[0].k) % TWO_32], todo[1..])
  {
    var done := [Store(todo[0].c, (m[todo[0].c] - todo[0].k) % TWO_32)] + todo[1..];
    FinishStore(m, done);
    assert done[1..] == todo[1..];
  }

  /** The links after the chain tail..head is put behind the list e. */
  function Joined(m: Memory, e: Ends, tail: nat, head: nat): Memory {
    var m1 := m[Last(tail) := e.head][Next(head) := NONE];
    if e.head == NONE then m1 else m1[Next(e.head) := tail]
  }

  lemma JoinedLinks(m: Memory, items: nat, e: Ends, tail: nat, head: nat)
    requires tail < items && head < items < NONE && (e.head != NONE ==> e.head < items)
    requires forall i :: 0 <= i < items ==> Next(i) in m && Last(i) in m
    ensures NextOf(Joined(m, e, tail, head), items) == JoinNext(NextOf(m, items), e, tail, head)
    ensures LastOf(Joined(m, e, tail, head), items) == JoinLast(LastOf(m, items), e, tail)
  {
    var n := Joined(m, e, tail, head);
    forall i | 0 <= i < items
      ensures NextOf(n, items)[i] == JoinNext(NextOf(m, items), e, tail, head)[i]
      ensures LastOf(n, items)[i] == JoinLast(LastOf(m, items), e, tail)[i] {
    }
  }

  /** Links do not depend on the queue records, nor the records of one queue on those of another. */
  lemma RecordsApart(m: Memory, items: nat, c: Cell, v: nat)
    requires c in m && !c.Next? && !c.Last?
    ensures NextOf(m[c := v], items) == NextOf(m, items) && LastOf(m[c := v], items) == LastOf(m, items)
  {
  }

  lemma LinkFinish(m: Memory, e: Ends, i: nat)
    requires Last(i) in m && Next(i) in m && (e.head != NONE ==> Next(e.head) in m)
    ensures Finish(m, LinkTodo(e, i)) == Joined(m, e, i, i)
  {
    var todo := LinkTodo(e, i);
    FinishStore(m, todo);
    FinishStore(m[Last(i) := e.head], todo[1..]);
    var m2 := m[Last(i) := e.head][Next(i) := NONE];
    assert todo[1..][1..] == if e.head == NONE then [] else [Store(Next(e.head), i)];
    if e.head != NONE {
      FinishStore(m2, [Store(Next(e.head), i)]);
      assert [Store(Next(e.head), i)][1..] == [];
    }
  }

  /** A splice leaves joined links and the new record of the shared queue. */
  lemma SpliceFinish(m: Memory, q: nat, push: Ends, h: nat)
    requires Last(push.tail) in m && Next(push.head) in m && (h != NONE ==> Next(h) in m)
    requires Head(q) in m && Tail(q) in m && Size(q) in m && m[Head(q)] == h
    requires m[Size(q)] + push.size < TWO_32
    ensures var e := SharedEnds(m, q);
            var f := JoinEnds(e, push.tail, push.head, push.size);
            Finish(m, SpliceTodo(q, push, h)) == Joined(m, e, push.tail, push.head)[Head(q) := f.head][Tail(q) := f.tail][Size(q) := f.size]
  {
    hide Finish;
    var todo := SpliceTodo(q, push, h);
    var e := SharedEnds(m, q);
    var m1 := m[Last(push.tail) := h];
    var m2 := m1[Next(push.head) := NONE];
    var m3 := m2[Head(q) := push.head];
    var m4 := if h == NONE then m3[Tail(q) := push.tail] else m3[Next(h) := push.tail];
    FinishStore(m, todo);
    FinishStore(m1, todo[1..]);
    FinishStore(m2, todo[2..]);
    FinishStore(m3, todo[3..]);
    assert todo[1..][1..] == todo[2..] && todo[2..][1..] == todo[3..] && todo[3..][1..] == todo[4..] && todo[4..][1..] == [];
    FinishPlus(m4, todo[4..]);
    FinishNothing(m4[Size(q) := m[Size(q)] + push.size]);
    assert m4 == Joined(m, e, push.tail, push.head)[Head(q) := push.head][Tail(q) := if h == NONE then push.tail else m[Tail(q)]];
  }

  lemma FinishNothing(m: Memory)
    ensures Finish(m, []) == m
  {
  }

  /** A refill leaves joined links and what remains of the shared queue's record. */
  lemma FillFinish(m: Memory, r: nat, pull: Ends, k: nat, tail: nat, head: nat, rest: nat)
    requires Last(tail) in m && Next(head) in m && (pull.head != NONE ==> Next(pull.head) in m)
    requires Head(r) in m && Tail(r) in m && Size(r) in m && 0 < k <= m[Size(r)] < TWO_32
    ensures var left := m[Size(r)] - k;
            var m1 := Joined(m, pull, tail, head)[Size(r) := left];
            Finish(m, FillTodo(r, pull, k, tail, head, rest)) ==
            if left == 0 then m1[Tail(r) := NONE][Head(r) := NONE] else m1[Tail(r) := rest]
  {
    hide Finish;
    var todo := FillTodo(r, pull, k, tail, head, rest);
    var m2 := m[Last(tail) := pull.head][Next(head) := NONE];
    FinishStore(m, todo);
    FinishStore(m[Last(tail) := pull.head], todo[1..]);
    assert todo[1..][1..] == todo[2..];
    var ends := [Minus(Size(r), k), IfZero(Size(r), [Store(Tail(r), NONE), Store(Head(r), NONE)], [Store(Tail(r), rest)])];
    if pull.head != NONE {
      FinishStore(m2, todo[2..]);
      assert todo[2..][1..] == ends;
    } else {
      assert todo[2..] == ends;
    }
    var m3 := Joined(m, pull, tail, head);
    assert m3[Size(r)] == m[Size(r)];
    FinishMinus(m3, ends);
    FinishEnds(m3[Size(r) := m[Size(r)] - k], r, rest);
    assert ends[1..] == [IfZero(Size(r), [Store(Tail(r), NONE), Store(Head(r), NONE)], [Store(Tail(r), rest)])];
  }

  lemma FinishEnds(m: Memory, r: nat, rest: nat)
    requires Size(r) in m && Tail(r) in m && Head(r) in m
    ensures Finish(m, [IfZero(Size(r), [Store(Tail(r), NONE), Store(Head(r), NONE)], [Store(Tail(r), rest)])]) ==
            if m[Size(r)] == 0 then m[Tail(r) := NONE][Head(r) := NONE] else m[Tail(r) := rest]
  {
    var two, one := [Store(Tail(r), NONE), Store(Head(r), NONE)], [Store(Tail(r), rest)];
    var todo := [IfZero(Size(r), two, one)];
    assert todo[1..] == [] && two + [] == two && one + [] == one;
    assert Finish(m, todo) == Finish(m, if m[Size(r)] == 0 then two else one);
    FinishStore(m, two);
    FinishStore(m, one);
    FinishStore(m[Tail(r) := NONE], two[1..]);
    assert one[1..] == [] && two[1..][1..] == [];
  }

  // ---- The bodies keep the lists exact --------------------------------------------------------------

  lemma {:induction false} NoDupBound(xs: seq<nat>, n: nat)
    requires NoDup(xs) && forall i :: 0 <= i < |xs| ==> xs[i] < n
    ensures |xs| <= n
  {
    if xs != [] {
      var first := xs[0];
      if k :| 0 <= k < |xs| && xs[k] == n - 1 {
        NoDupBound(xs[..k] + xs[k + 1..], n - 1);
      } else {
        NoDupBound(xs, n - 1);
      }
    }
  }

  lemma ListBound(m: Model, l: Place)
    requires Conserved(m) && l in m.lists
    ensures |m.lists[l]| <= |m.owner|
  {
    CleanList(m, l);
    ListOwned(m, l);
    NoDupBound(m.lists[l], |m.owner|);
  }

  /** What the settled memory says of one list. */
  lemma SettledList(cfg: Config, w: World, l: Place)
    requires Inv(cfg, w) && l in w.model.lists
    ensures Conserved(w.model) && l in EndsOf(cfg, w.settled, w.privs)
    ensures var e, xs := EndsOf(cfg, w.settled, w.privs)[l], w.model.lists[l];
            && Chain(NextOf(w.settled, cfg.items), LastOf(w.settled, cfg.items), e, xs)
            && e.size == |xs| <= cfg.items
            && (if xs == [] then e == EMPTY else e.tail == xs[0] && e.head == xs[|xs| - 1])
    ensures forall i :: 0 <= i < |w.model.lists[l]| ==> w.model.lists[l][i] < cfg.items && w.model.owner[w.model.lists[l][i]] == In(l)
  {
    hide ListHas, Places;
    ListBound(w.model, l);
    ListOwned(w.model, l);
  }

  /** The records as the steps read them. */
  lemma EndsAre(cfg: Config, m: Memory, privs: map<Place, Ends>, l: Place)
    requires l in Places(cfg.procs, cfg.qs)
    ensures EndsOf(cfg, m, privs)[l] == if l.Shared? then SharedEnds(m, l.q) else if l in privs then privs[l] else EMPTY
  {
  }

  lemma AllCells(cfg: Config, w: World)
    requires Inv(cfg, w)
    ensures forall i :: 0 <= i < cfg.items ==> Next(i) in w.settled && Last(i) in w.settled
    ensures forall q :: 0 <= q < cfg.qs ==> Head(q) in w.settled && Tail(q) in w.settled && Size(q) in w.settled
  {
    hide Settles, ProcOk;
    assert forall c :: InArrays(cfg, c) ==> c in w.settled;
  }

  lemma LinkSettles(cfg: Config, w: World, p: nat, q: nat, i: nat)
    requires Inv(cfg, w) && p < cfg.procs && q < cfg.qs && i < |w.model.owner| && w.model.owner[i] == Held(p)
    ensures Conserved(w.model) && Enabled(w.model, DoLink(p, q, i))
    ensures var e := Priv(w, Push(p, q));
            && Cells(LinkTodo(e, i)) <= Region(w, p)
            && Settles(cfg, Finish(w.settled, LinkTodo(e, i)), w.privs[Push(p, q) := JoinEnds(e, i, i, 1)], Apply(w.model, DoLink(p, q, i)))
  {
    hide Chain, ListHas, Conserved, Places, Finish, FreeCellsOk, ProcOk;
    FreshPlaces(cfg.procs, cfg.qs);
    var l, e := Push(p, q), Priv(w, Push(p, q));
    var ends := EndsOf(cfg, w.settled, w.privs);
    SettledList(cfg, w, l);
    AllCells(cfg, w);
    assert ends[l] == e;
    LinkChains(NextOf(w.settled, cfg.items), LastOf(w.settled, cfg.items), ends, w.model, p, q, i);
    LinkFinish(w.settled, e, i);
    JoinedLinks(w.settled, cfg.items, e, i, i);
    var privs := w.privs[l := JoinEnds(e, i, i, 1)];
    assert EndsOf(cfg, Joined(w.settled, e, i, i), privs) == ends[l := JoinEnds(e, i, i, 1)];
    LinkCells(cfg, w, p, e, i);
  }

  lemma LinkCells(cfg: Config, w: World, p: nat, e: Ends, i: nat)
    requires Shape(cfg, w) && i < cfg.items && w.model.owner[i] == Held(p)
    requires e.head != NONE ==> e.head < cfg.items && Belongs(w.model.owner[e.head], w.holder, p)
    ensures Cells(LinkTodo(e, i)) <= Region(w, p)
  {
    var todo := LinkTodo(e, i);
    var behind := if e.head == NONE then [] else [Store(Next(e.head), i)];
    assert todo[1..][1..] == behind;
    assert Cells(todo) == {Last(i)} + ({Next(i)} + Cells(behind));
    assert e.head != NONE ==> behind[1..] == [] && Cells(behind) == {Next(e.head)};
    assert forall c :: c in Cells(todo) ==> InArrays(cfg, c) && Mine(w.model.owner, w.holder, p, c);
  }

  lemma TakeSettles(cfg: Config, w: World, p: nat, r: nat)
    requires Inv(cfg, w) && p < cfg.procs && r < cfg.qs && Priv(w, Pull(p, r)).size > 0
    ensures Conserved(w.model) && Enabled(w.model, DoTake(p, r))
    ensures var e := Priv(w, Pull(p, r));
            var n := Load(w.settled, Next(e.tail));
            && Next(e.tail) in Region(w, p) && e.tail == w.model.lists[Pull(p, r)][0]
            && Cells(TakeTodo(n)) <= Region(w, p)
            && Settles(cfg, Finish(w.settled, TakeTodo(n)), w.privs[Pull(p, r) := Ends(if n == NONE then NONE else e.head, n, e.size - 1)],
                       Apply(w.model, DoTake(p, r)))
  {
    hide Chain, ListHas, Conserved, Places, FreeCellsOk, ProcOk;
    FreshPlaces(cfg.procs, cfg.qs);
    var l, e := Pull(p, r), Priv(w, Pull(p, r));
    var ends := EndsOf(cfg, w.settled, w.privs);
    SettledList(cfg, w, l);
    AllCells(cfg, w);
    assert ends[l] == e;
    TakeChains(NextOf(w.settled, cfg.items), LastOf(w.settled, cfg.items), ends, w.model, p, r);
    var n := Load(w.settled, Next(e.tail));
    assert n == NextOf(w.settled, cfg.items)[e.tail];
    var m := Finish(w.settled, TakeTodo(n));
    if n == NONE {
      assert m == w.settled;
    } else {
      assert n == w.model.lists[l][1];
      FinishStore(w.settled, TakeTodo(n));
      assert TakeTodo(n)[1..] == [];
      assert m == w.settled[Last(n) := NONE];
      assert LastOf(m, cfg.items) == LastOf(w.settled, cfg.items)[n := NONE];
      assert NextOf(m, cfg.items) == NextOf(w.settled, cfg.items);
    }
    var f := Ends(if n == NONE then NONE else e.head, n, e.size - 1);
    assert f == CutEnds(e, 1, n);
    assert EndsOf(cfg, m, w.privs[l := f]) == ends[l := f];
  }

  /** Other records and links stay as they are when queue q's record changes after a join. */
  lemma RecordsAfter(cfg: Config, m: Memory, e: Ends, tail: nat, head: nat, q: nat, f: Ends, privs: map<Place, Ends>, l: Place, g: Ends)
    requires forall i :: 0 <= i < cfg.items ==> Next(i) in m && Last(i) in m
    requires tail < cfg.items && head < cfg.items < NONE && (e.head != NONE ==> e.head < cfg.items)
    requires q < cfg.qs && Head(q) in m && Tail(q) in m && Size(q) in m && l in Places(cfg.procs, cfg.qs) && !l.Shared?
    ensures var n: Memory := Joined(m, e, tail, head)[Head(q) := f.head][Tail(q) := f.tail][Size(q) := f.size];
            && NextOf(n, cfg.items) == JoinNext(NextOf(m, cfg.items), e, tail, head)
            && LastOf(n, cfg.items) == JoinLast(LastOf(m, cfg.items), e, tail)
            && EndsOf(cfg, n, privs[l := g]) == EndsOf(cfg, m, privs)[l := g][Shared(q) := f]
  {
    hide Places;
    FreshPlaces(cfg.procs, cfg.qs);
    var m1 := Joined(m, e, tail, head);
    JoinedLinks(m, cfg.items, e, tail, head);
    RecordsApart(m1, cfg.items, Head(q), f.head);
    RecordsApart(m1[Head(q) := f.head], cfg.items, Tail(q), f.tail);
    RecordsApart(m1[Head(q) := f.head][Tail(q) := f.tail], cfg.items, Size(q), f.size);
    var n: Memory := m1[Head(q) := f.head][Tail(q) := f.tail][Size(q) := f.size];
    forall k | k in Places(cfg.procs, cfg.qs)
      ensures EndsOf(cfg, n, privs[l := g])[k] == EndsOf(cfg, m, privs)[l := g][Shared(q) := f][k] {
    }
  }

  /** The settled memory and records after a splice. */
  lemma SpliceMemory(cfg: Config, w: World, p: nat, q: nat)
    requires Inv(cfg, w) && p < cfg.procs && q < cfg.qs && Priv(w, Push(p, q)).size > 0
    ensures var push, e, h := Priv(w, Push(p, q)), SharedEnds(w.settled, q), Load(w.settled, Head(q));
            var n := Finish(w.settled, SpliceTodo(q, push, h));
            && push.tail < cfg.items && push.head < cfg.items && (h != NONE ==> h < cfg.items)
            && NextOf(n, cfg.items) == JoinNext(NextOf(w.settled, cfg.items), e, push.tail, push.head)
            && LastOf(n, cfg.items) == JoinLast(LastOf(w.settled, cfg.items), e, push.tail)
            && EndsOf(cfg, n, w.privs[Push(p, q) := EMPTY]) ==
               EndsOf(cfg, w.settled, w.privs)[Push(p, q) := EMPTY][Shared(q) := JoinEnds(e, push.tail, push.head, push.size)]
  {
    hide Settles, ProcOk, FreeCellsOk, Places, Finish, JoinNext, JoinLast, EndsOf, NextOf, LastOf, SpliceTodo, Joined;
    FreshPlaces(cfg.procs, cfg.qs);
    var push, e, h := Priv(w, Push(p, q)), SharedEnds(w.settled, q), Load(w.settled, Head(q));
    SettledList(cfg, w, Push(p, q));
    SettledList(cfg, w, Shared(q));
    AllCells(cfg, w);
    EndsAre(cfg, w.settled, w.privs, Push(p, q));
    EndsAre(cfg, w.settled, w.privs, Shared(q));
    SpliceSize(w.model, p, q);
    SpliceFinish(w.settled, q, push, h);
    RecordsAfter(cfg, w.settled, e, push.tail, push.head, q, JoinEnds(e, push.tail, push.head, push.size), w.privs, Push(p, q), EMPTY);
  }

  lemma SpliceSettles(cfg: Config, w: World, p: nat, q: nat)
    requires Inv(cfg, w) && p < cfg.procs && q < cfg.qs && Priv(w, Push(p, q)).size > 0 && w.holder == Some(p)
    ensures Conserved(w.model) && Enabled(w.model, DoSplice(p, q))
    ensures var push, h := Priv(w, Push(p, q)), Load(w.settled, Head(q));
            && Cells(SpliceTodo(q, push, h)) <= Region(w, p)
            && Settles(cfg, Finish(w.settled, SpliceTodo(q, push, h)), w.privs[Push(p, q) := EMPTY], Apply(w.model, DoSplice(p, q)))
  {
    hide Chain, ListHas, Conserved, Places, FreeCellsOk, ProcOk, Finish, Transfer;
    hide JoinNext, JoinLast, EndsOf, NextOf, LastOf, SpliceTodo, Cells, Region;
    FreshPlaces(cfg.procs, cfg.qs);
    var from, to := Push(p, q), Shared(q);
    var push, h := Priv(w, from), Load(w.settled, Head(q));
    SettledList(cfg, w, from);
    SettledList(cfg, w, to);
    EndsAre(cfg, w.settled, w.privs, from);
    EndsAre(cfg, w.settled, w.privs, to);
    TransferChains(NextOf(w.settled, cfg.items), LastOf(w.settled, cfg.items), EndsOf(cfg, w.settled, w.privs), w.model,
                   from, to, push.size);
    SpliceMemory(cfg, w, p, q);
    SpliceCells(cfg, w, p, q, push, h);
  }

  lemma SpliceSize(m: Model, p: nat, q: nat)
    requires Conserved(m) && Push(p, q) in m.lists && Shared(q) in m.lists
    ensures |m.lists[Push(p, q)]| + |m.lists[Shared(q)]| <= |m.owner|
  {
    ListBound(Apply(m, DoSplice(p, q)), Shared(q));
  }

  lemma RegionHas(cfg: Config, w: World, p: nat, c: Cell)
    requires Shape(cfg, w) && InArrays(cfg, c) && Mine(w.model.owner, w.holder, p, c)
    ensures c in Region(w, p)
  {
  }

  lemma SpliceCells(cfg: Config, w: World, p: nat, q: nat, push: Ends, h: nat)
    requires Shape(cfg, w) && q < cfg.qs && w.holder == Some(p)
    requires push.tail < cfg.items && Belongs(w.model.owner[push.tail], w.holder, p)
    requires push.head < cfg.items && Belongs(w.model.owner[push.head], w.holder, p)
    requires h != NONE ==> h < cfg.items && Belongs(w.model.owner[h], w.holder, p)
    ensures Cells(SpliceTodo(q, push, h)) <= Region(w, p)
  {
    hide Region, Belongs;
    RegionHas(cfg, w, p, Last(push.tail));
    RegionHas(cfg, w, p, Next(push.head));
    RegionHas(cfg, w, p, Head(q));
    RegionHas(cfg, w, p, Tail(q));
    RegionHas(cfg, w, p, Size(q));
    if h != NONE { RegionHas(cfg, w, p, Next(h)); }
    var todo := SpliceTodo(q, push, h);
    assert todo[1..][1..] == todo[2..] && todo[2..][1..] == todo[3..] && todo[3..][1..] == todo[4..] && todo[4..][1..] == [];
    assert Cells(todo) == {todo[0].c} + Cells(todo[1..]);
    assert Cells(todo[1..]) == {todo[1].c} + Cells(todo[2..]);
    assert Cells(todo[2..]) == {todo[2].c} + Cells(todo[3..]);
    assert Cells(todo[3..]) == {todo[3].c} + Cells(todo[4..]);
    assert Cells(todo[4..]) == {todo[4].c};
  }

  /** The settled memory and records after a refill. */
  lemma FillMemory(cfg: Config, w: World, p: nat, r: nat, k: nat)
    requires Inv(cfg, w) && p < cfg.procs && r < cfg.qs
    requires Pull(p, r) in w.model.lists && Shared(r) in w.model.lists && 0 < k <= |w.model.lists[Shared(r)]|
    ensures var pull, e, xs := Priv(w, Pull(p, r)), SharedEnds(w.settled, r), w.model.lists[Shared(r)];
            xs[k - 1] < cfg.items && xs[0] < cfg.items && (pull.head != NONE ==> pull.head < cfg.items) && e.size == |xs| &&
            var rest := Load(w.settled, Next(xs[k - 1]));
            var n := Finish(w.settled, FillTodo(r, pull, k, xs[0], xs[k - 1], rest));
            && NextOf(n, cfg.items) == JoinNext(NextOf(w.settled, cfg.items), pull, xs[0], xs[k - 1])
            && LastOf(n, cfg.items) == JoinLast(LastOf(w.settled, cfg.items), pull, xs[0])
            && EndsOf(cfg, n, w.privs[Pull(p, r) := JoinEnds(pull, xs[0], xs[k - 1], k)]) ==
               EndsOf(cfg, w.settled, w.privs)[Pull(p, r) := JoinEnds(pull, xs[0], xs[k - 1], k)][Shared(r) := CutEnds(e, k, rest)]
  {
    hide Settles, ProcOk, FreeCellsOk, Places, Finish, JoinNext, JoinLast, EndsOf, NextOf, LastOf, FillTodo;
    FreshPlaces(cfg.procs, cfg.qs);
    var pull, e, xs := Priv(w, Pull(p, r)), SharedEnds(w.settled, r), w.model.lists[Shared(r)];
    SettledList(cfg, w, Pull(p, r));
    SettledList(cfg, w, Shared(r));
    AllCells(cfg, w);
    EndsAre(cfg, w.settled, w.privs, Pull(p, r));
    EndsAre(cfg, w.settled, w.privs, Shared(r));
    var rest := Load(w.settled, Next(xs[k - 1]));
    FillFinish(w.settled, r, pull, k, xs[0], xs[k - 1], rest);
    var f := CutEnds(e, k, rest);
    RecordsAfter(cfg, w.settled, pull, xs[0], xs[k - 1], r, f, w.privs, Pull(p, r), JoinEnds(pull, xs[0], xs[k - 1], k));
    CutRecord(w.settled, pull, xs[0], xs[k - 1], r, e, k, rest);
  }

  /** The stores to queue r's record amount to the record cut short. */
  lemma CutRecord(m: Memory, pull: Ends, tail: nat, head: nat, r: nat, e: Ends, k: nat, rest: nat)
    requires Head(r) in m && Tail(r) in m && Size(r) in m && e == SharedEnds(m, r) && 0 < k <= e.size
    ensures var f, m1 := CutEnds(e, k, rest), Joined(m, pull, tail, head);
            m1[Head(r) := f.head][Tail(r) := f.tail][Size(r) := f.size] ==
            if e.size == k then m1[Size(r) := 0][Tail(r) := NONE][Head(r) := NONE] else m1[Size(r) := e.size - k][Tail(r) := rest]
  {
    var f, m1 := CutEnds(e, k, rest), Joined(m, pull, tail, head);
    assert m1[Head(r)] == e.head;
  }

  lemma FillSettles(cfg: Config, w: World, p: nat, r: nat)
    requires Inv(cfg, w) && p < cfg.procs && r < cfg.qs && w.holder == Some(p)
    requires Pull(p, r) in w.model.lists && Shared(r) in w.model.lists && FillCount(w.model, p, r, cfg.max) > 0
    ensures Conserved(w.model) && Enabled(w.model, DoFill(p, r, cfg.max))
    ensures var k, pull, xs := FillCount(w.model, p, r, cfg.max), Priv(w, Pull(p, r)), w.model.lists[Shared(r)];
            var rest := Load(w.settled, Next(xs[k - 1]));
            && Cells(FillTodo(r, pull, k, xs[0], xs[k - 1], rest)) <= Region(w, p)
            && Settles(cfg, Finish(w.settled, FillTodo(r, pull, k, xs[0], xs[k - 1], rest)),
                       w.privs[Pull(p, r) := JoinEnds(pull, xs[0], xs[k - 1], k)], Apply(w.model, DoFill(p, r, cfg.max)))
  {
    hide Chain, ListHas, Conserved, Places, FreeCellsOk, ProcOk, Finish, Transfer;
    hide JoinNext, JoinLast, EndsOf, FillTodo, Cells, Region, FillCount, JoinEnds, CutEnds;
    FreshPlaces(cfg.procs, cfg.qs);
    var k, from, to := FillCount(w.model, p, r, cfg.max), Shared(r), Pull(p, r);
    var pull, xs := Priv(w, to), w.model.lists[from];
    SettledList(cfg, w, from);
    SettledList(cfg, w, to);
    EndsAre(cfg, w.settled, w.privs, from);
    EndsAre(cfg, w.settled, w.privs, to);
    TransferChains(NextOf(w.settled, cfg.items), LastOf(w.settled, cfg.items), EndsOf(cfg, w.settled, w.privs), w.model, from, to, k);
    FillMemory(cfg, w, p, r, k);
    var rest := Load(w.settled, Next(xs[k - 1]));
    assert NextOf(w.settled, cfg.items)[xs[k - 1]] == rest;
    SwapRecords(EndsOf(cfg, w.settled, w.privs), to, JoinEnds(pull, xs[0], xs[k - 1], k), from, CutEnds(SharedEnds(w.settled, r), k, rest));
    FillCells(cfg, w, p, r, pull, k, xs[0], xs[k - 1], rest);
  }

  lemma SwapRecords(ends: map<Place, Ends>, l: Place, e: Ends, k: Place, f: Ends)
    requires l != k
    ensures ends[l := e][k := f] == ends[k := f][l := e]
  {
  }

  lemma FillCells(cfg: Config, w: World, p: nat, r: nat, pull: Ends, k: nat, tail: nat, head: nat, rest: nat)
    requires Shape(cfg, w) && r < cfg.qs && w.holder == Some(p)
    requires tail < cfg.items && Belongs(w.model.owner[tail], w.holder, p) && head < cfg.items && Belongs(w.model.owner[head], w.holder, p)
    requires pull.head != NONE ==> pull.head < cfg.items && Belongs(w.model.owner[pull.head], w.holder, p)
    ensures Cells(FillTodo(r, pull, k, tail, head, rest)) <= Region(w, p)
  {
    hide Region, Belongs;
    RegionHas(cfg, w, p, Last(tail));
    RegionHas(cfg, w, p, Next(head));
    RegionHas(cfg, w, p, Head(r));
    RegionHas(cfg, w, p, Tail(r));
    RegionHas(cfg, w, p, Size(r));
    if pull.head != NONE { RegionHas(cfg, w, p, Next(pull.head)); }
    FillTodoCells(r, pull, k, tail, head, rest);
  }

  lemma FillTodoCells(r: nat, pull: Ends, k: nat, tail: nat, head: nat, rest: nat)
    ensures Cells(FillTodo(r, pull, k, tail, head, rest)) ==
            {Last(tail), Next(head), Size(r), Tail(r), Head(r)} + if pull.head == NONE then {} else {Next(pull.head)}
  {
    var two := [Store(Last(tail), pull.head), Store(Next(head), NONE)];
    var behind := if pull.head == NONE then [] else [Store(Next(pull.head), tail)];
    var ends := [Minus(Size(r), k), IfZero(Size(r), [Store(Tail(r), NONE), Store(Head(r), NONE)], [Store(Tail(r), rest)])];
    hide Cells;
    CellsConcat(two + behind, ends);
    CellsConcat(two, behind);
    TwoCells(Last(tail), pull.head, Next(head), NONE);
    BehindCells(pull, tail);
    EndCells(r, k, rest);
  }

  lemma TwoCells(c: Cell, v: nat, d: Cell, u: nat)
    ensures Cells([Store(c, v), Store(d, u)]) == {c, d}
  {
    var two := [Store(c, v), Store(d, u)];
    assert two[1..] == [Store(d, u)] && two[1..][1..] == [];
    assert Cells(two[1..]) == {d};
  }

  lemma BehindCells(pull: Ends, tail: nat)
    ensures Cells(if pull.head == NONE then [] else [Store(Next(pull.head), tail)]) == if pull.head == NONE then {} else {Next(pull.head)}
  {
    assert [Store(Next(pull.head), tail)][1..] == [];
  }

  lemma EndCells(r: nat, k: nat, rest: nat)
    ensures Cells([Minus(Size(r), k), IfZero(Size(r), [Store(Tail(r), NONE), Store(Head(r), NONE)], [Store(Tail(r), rest)])]) ==
            {Size(r), Tail(r), Head(r)}
  {
    var two, one := [Store(Tail(r), NONE), Store(Head(r), NONE)], [Store(Tail(r), rest)];
    var ends := [Minus(Size(r), k), IfZero(Size(r), two, one)];
    assert two[1..] == [Store(Head(r), NONE)] && two[1..][1..] == [] && one[1..] == [];
    assert Cells(two[1..]) == {Head(r)} && Cells(two) == {Tail(r), Head(r)} && Cells(one) == {Tail(r)};
    assert ends[1..] == [IfZero(Size(r), two, one)] && ends[1..][1..] == [];
    assert Cells(ends[1..]) == {Size(r), Tail(r), Head(r)};
  }

  // ---- Every step keeps the invariant -------------------------------------------------------------

  /** With nothing left to do, a process finds the settled values in its own cells. */
  lemma LoadsSettled(cfg: Config, w: World, p: nat, c: Cell)
    requires Inv(cfg, w) && p < cfg.procs && w.pcs[p].Todo() == [] && c in Region(w, p)
    ensures Load(w.mem, c) == Load(w.settled, c)
  {
    hide Settles, PcOk;
    assert ProcOk(cfg, w, p);
  }

  /** What a step does to the model: the step it commits, or nothing. */
  ghost predicate ModelMoves(w: World, w': World, s: Option<Step>) {
    && Conserved(w.model)
    && (s.None? ==> w'.model == w.model)
    && (s.Some? ==> Enabled(w.model, s.value) && w'.model == Apply(w.model, s.value))
  }

  lemma StartLinkKeeps(cfg: Config, w: World, p: nat, q: nat, i: nat, after: Pc)
    requires Inv(cfg, w) && p < cfg.procs && q < cfg.qs && i < |w.model.owner| && w.model.owner[i] == Held(p)
    requires w.pcs[p].Free? && Plain(cfg, after) && !after.Locked()
    ensures Inv(cfg, StartLink(w, p, q, i, after)) && ModelMoves(w, StartLink(w, p, q, i, after), Some(DoLink(p, q, i)))
  {
    hide Settles, Conserved, Apply, Region, Cells;
    LinkSettles(cfg, w, p, q, i);
    var e := Priv(w, Push(p, q));
    var todo := LinkTodo(e, i);
    CommitKeeps(cfg, w, p, DoLink(p, q, i), todo, w.privs[Push(p, q) := JoinEnds(e, i, i, 1)], Do(todo, after));
  }

  lemma CallKeeps(cfg: Config, w: World, turn: Turn)
    requires Inv(cfg, w) && turn.p < cfg.procs && w.pcs[turn.p].Free?
    ensures Inv(cfg, Advance(cfg, w, turn)) && ModelMoves(w, Advance(cfg, w, turn), Committed(cfg, w, turn))
  {
    hide Settles, Conserved, Apply, StartLink, ProcOk, FreeCellsOk;
    var p, call := turn.p, turn.call;
    SettlesConserved(cfg, w);
    if Legal(cfg, w, p, call) {
      match call {
        case PushCall(q, i) => StartLinkKeeps(cfg, w, p, q, i, PushCheck(q));
        case PullCall(r) => PcChange(cfg, w, p, if Priv(w, Pull(p, r)).size == 0 then Acquire(Some(r), Some(r)) else Taking(r));
        case HybridCall(q, item, r) =>
          if item.Some? { StartLinkKeeps(cfg, w, p, q, item.value, HybridCheck(q, r)); }
          else { PcChange(cfg, w, p, HybridCheck(q, r)); }
        case NoCall =>
      }
    }
  }

  lemma SplicingKeeps(cfg: Config, w: World, p: nat)
    requires Inv(cfg, w) && p < cfg.procs && w.pcs[p].Splicing?
    ensures Inv(cfg, StepSplicing(cfg, w, p)) && ModelMoves(w, StepSplicing(cfg, w, p), Committed(cfg, w, Turn(p, NoCall)))
  {
    hide Settles, Conserved, Apply, Region, Cells, Finish, SpliceTodo, FreeCellsOk;
    assert ProcOk(cfg, w, p);
    var Splicing(q, pull, take) := w.pcs[p];
    SettlesConserved(cfg, w);
    if q == cfg.qs {
      PcChange(cfg, w, p, match pull case None => Releasing(take) case Some(r) => FillSize(r, take));
    } else if Priv(w, Push(p, q)).size == 0 {
      PcChange(cfg, w, p, Splicing(q + 1, pull, take));
    } else {
      SpliceSettles(cfg, w, p, q);
      LockedRecord(cfg, w, p, q);
      LoadsSettled(cfg, w, p, Head(q));
      var todo := SpliceTodo(q, Priv(w, Push(p, q)), Load(w.mem, Head(q)));
      assert todo != [] by { SpliceSome(q, Priv(w, Push(p, q)), Load(w.mem, Head(q))); }
      CommitKeeps(cfg, w, p, DoSplice(p, q), todo, w.privs[Push(p, q) := EMPTY], Do(todo, Splicing(q + 1, pull, take)));
    }
  }

  lemma SpliceSome(q: nat, push: Ends, h: nat)
    ensures SpliceTodo(q, push, h) != []
  {
  }

  lemma LockedRecord(cfg: Config, w: World, p: nat, q: nat)
    requires Inv(cfg, w) && q < cfg.qs && w.holder == Some(p)
    ensures Head(q) in Region(w, p) && Tail(q) in Region(w, p) && Size(q) in Region(w, p)
  {
    hide Settles, ProcOk, FreeCellsOk;
    assert forall c :: InArrays(cfg, c) ==> c in w.mem;
  }

  /** The sizes a refill works with. */
  lemma FillSizes(cfg: Config, w: World, p: nat, r: nat)
    requires Inv(cfg, w) && p < cfg.procs && r < cfg.qs && w.holder == Some(p) && w.pcs[p].Todo() == []
    ensures Shared(r) in w.model.lists && Pull(p, r) in w.model.lists
    ensures Load(w.mem, Size(r)) == |w.model.lists[Shared(r)]| && Priv(w, Pull(p, r)).size == |w.model.lists[Pull(p, r)]|
  {
    hide Settles, Region, FreeCellsOk, Places, EndsOf, ProcOk;
    FreshPlaces(cfg.procs, cfg.qs);
    LockedRecord(cfg, w, p, r);
    LoadsSettled(cfg, w, p, Size(r));
    SettledList(cfg, w, Shared(r));
    SettledList(cfg, w, Pull(p, r));
    EndsAre(cfg, w.settled, w.privs, Shared(r));
    EndsAre(cfg, w.settled, w.privs, Pull(p, r));
  }

  lemma FillSizeKeeps(cfg: Config, w: World, p: nat)
    requires Inv(cfg, w) && p < cfg.procs && (w.pcs[p].FillSize? || w.pcs[p].FillAgain?)
    ensures Inv(cfg, Advance(cfg, w, Turn(p, NoCall)))
  {
    hide Settles, Agree, Region, FreeCellsOk, Places;
    assert ProcOk(cfg, w, p);
    FillSizes(cfg, w, p, w.pcs[p].r);
    PcChange(cfg, w, p, Advance(cfg, w, Turn(p, NoCall)).pcs[p]);
  }

  lemma FillTailKeeps(cfg: Config, w: World, p: nat)
    requires Inv(cfg, w) && p < cfg.procs && (w.pcs[p].FillTail? || w.pcs[p].FillHead?)
    ensures Inv(cfg, Advance(cfg, w, Turn(p, NoCall)))
  {
    hide Settles, Region, FreeCellsOk, Places, EndsOf;
    FreshPlaces(cfg.procs, cfg.qs);
    assert ProcOk(cfg, w, p);
    var r := w.pcs[p].r;
    LockedRecord(cfg, w, p, r);
    LoadsSettled(cfg, w, p, Tail(r));
    SettledList(cfg, w, Shared(r));
    EndsAre(cfg, w.settled, w.privs, Shared(r));
    PcChange(cfg, w, p, Advance(cfg, w, Turn(p, NoCall)).pcs[p]);
  }

  /** The item a walk is at is in the shared queue, and its next is the item behind it. */
  lemma WalkLoads(cfg: Config, w: World, p: nat)
    requires Inv(cfg, w) && p < cfg.procs && w.pcs[p].Walking?
    ensures var pc := w.pcs[p];
            && w.holder == Some(p) && pc.r < cfg.qs && QueueOk(cfg, pc.take)
            && Shared(pc.r) in w.model.lists && Pull(p, pc.r) in w.model.lists
            && pc.i < pc.k == FillCount(w.model, p, pc.r, cfg.max) <= |w.model.lists[Shared(pc.r)]|
            && pc.tail == w.model.lists[Shared(pc.r)][0] && pc.head == w.model.lists[Shared(pc.r)][pc.i]
            && Next(pc.head) in Region(w, p) && Load(w.mem, Next(pc.head)) == Load(w.settled, Next(pc.head))
            && (pc.i + 1 < pc.k ==> Load(w.mem, Next(pc.head)) == w.model.lists[Shared(pc.r)][pc.i + 1])
  {
    hide Settles, FreeCellsOk, Places, EndsOf, LastOf;
    FreshPlaces(cfg.procs, cfg.qs);
    assert ProcOk(cfg, w, p);
    var pc := w.pcs[p];
    SettledList(cfg, w, Shared(pc.r));
    ListCell(cfg, w, p, pc.head);
    LoadsSettled(cfg, w, p, Next(pc.head));
    assert NextOf(w.settled, cfg.items)[pc.head] == Load(w.settled, Next(pc.head));
  }

  lemma ListCell(cfg: Config, w: World, p: nat, i: nat)
    requires Inv(cfg, w) && i < cfg.items && Belongs(w.model.owner[i], w.holder, p)
    ensures Next(i) in Region(w, p) && Last(i) in Region(w, p)
  {
    hide Settles, ProcOk, FreeCellsOk;
    assert forall c :: InArrays(cfg, c) ==> c in w.mem;
  }

  lemma WalkingKeeps(cfg: Config, w: World, p: nat)
    requires Inv(cfg, w) && p < cfg.procs && w.pcs[p].Walking?
    ensures Inv(cfg, StepWalking(cfg, w, p)) && ModelMoves(w, StepWalking(cfg, w, p), Committed(cfg, w, Turn(p, NoCall)))
  {
    hide Settles, Conserved, Apply, Region, Cells, Finish, FillTodo, FreeCellsOk, Places, FillCount, ProcOk;
    FreshPlaces(cfg.procs, cfg.qs);
    WalkLoads(cfg, w, p);
    SettlesConserved(cfg, w);
    var Walking(r, k, tail, head, i, take) := w.pcs[p];
    var n := Load(w.mem, Next(head));
    if i + 1 < k {
      PcChange(cfg, w, p, Walking(r, k, tail, n, i + 1, take));
    } else {
      FillSettles(cfg, w, p, r);
      var pull := Priv(w, Pull(p, r));
      var todo := FillTodo(r, pull, k, tail, head, n);
      assert todo != [] by { FillSome(r, pull, k, tail, head, n); }
      CommitKeeps(cfg, w, p, DoFill(p, r, cfg.max), todo, w.privs[Pull(p, r) := JoinEnds(pull, tail, head, k)], Do(todo, Releasing(take)));
    }
  }

  lemma FillSome(r: nat, pull: Ends, k: nat, tail: nat, head: nat, rest: nat)
    ensures FillTodo(r, pull, k, tail, head, rest) != []
  {
  }

  lemma TakingKeeps(cfg: Config, w: World, p: nat)
    requires Inv(cfg, w) && p < cfg.procs && w.pcs[p].Taking?
    ensures Inv(cfg, StepTaking(w, p)) && ModelMoves(w, StepTaking(w, p), Committed(cfg, w, Turn(p, NoCall)))
  {
    hide Settles, Conserved, Apply, Region, Cells, Finish, TakeTodo, FreeCellsOk;
    assert ProcOk(cfg, w, p);
    SettlesConserved(cfg, w);
    var r := w.pcs[p].r;
    var pull := Priv(w, Pull(p, r));
    if pull.size == 0 {
      PcChange(cfg, w, p, Free);
    } else {
      TakeSettles(cfg, w, p, r);
      LoadsSettled(cfg, w, p, Next(pull.tail));
      var n := Load(w.mem, Next(pull.tail));
      CommitKeeps(cfg, w, p, DoTake(p, r), TakeTodo(n), w.privs[Pull(p, r) := Ends(if n == NONE then NONE else pull.head, n, pull.size - 1)],
                  Do(TakeTodo(n), Free));
    }
  }

  lemma CheckKeeps(cfg: Config, w: World, turn: Turn)
    requires Inv(cfg, w) && turn.p < cfg.procs && (w.pcs[turn.p].PushCheck? || w.pcs[turn.p].HybridCheck?)
    ensures Inv(cfg, Advance(cfg, w, turn)) && ModelMoves(w, Advance(cfg, w, turn), Committed(cfg, w, turn))
  {
    hide Settles, Agree, Region, FreeCellsOk, Places, Apply, Conserved;
    assert ProcOk(cfg, w, turn.p);
    SettlesConserved(cfg, w);
    PcChange(cfg, w, turn.p, Advance(cfg, w, turn).pcs[turn.p]);
  }

  lemma LockKeeps(cfg: Config, w: World, turn: Turn)
    requires Inv(cfg, w) && turn.p < cfg.procs && (w.pcs[turn.p].Acquire? || w.pcs[turn.p].Releasing?)
    ensures Inv(cfg, Advance(cfg, w, turn)) && ModelMoves(w, Advance(cfg, w, turn), Committed(cfg, w, turn))
  {
    hide Settles, Agree, Region, FreeCellsOk, Places, Apply, Conserved;
    var p := turn.p;
    assert ProcOk(cfg, w, p);
    SettlesConserved(cfg, w);
    if w.pcs[p].Releasing? {
      ReleaseKeeps(cfg, w, p, Advance(cfg, w, turn).pcs[p]);
    } else if w.holder.None? {
      AcquireKeeps(cfg, w, p, Advance(cfg, w, turn).pcs[p]);
    }
  }

  /** Every access of every process keeps the invariant, and changes the model by the step it commits, if any. */
  lemma StepKeeps(cfg: Config, w: World, turn: Turn)
    requires Inv(cfg, w) && turn.p < cfg.procs
    ensures Inv(cfg, Advance(cfg, w, turn)) && ModelMoves(w, Advance(cfg, w, turn), Committed(cfg, w, turn))
  {
    hide Settles, Conserved, Apply, ProcOk, FreeCellsOk, Legal, StepSplicing, StepWalking, StepTaking, StartCall;
    var p := turn.p;
    SettlesConserved(cfg, w);
    match w.pcs[p] {
      case Free => CallKeeps(cfg, w, turn);
      case Doing(_, _) => WorkKeeps(cfg, w, p);
      case PushCheck(_) => CheckKeeps(cfg, w, turn);
      case HybridCheck(_, _) => CheckKeeps(cfg, w, turn);
      case Acquire(_, _) => LockKeeps(cfg, w, turn);
      case Splicing(_, _, _) => SplicingKeeps(cfg, w, p);
      case FillSize(_, _) => FillSizeKeeps(cfg, w, p);
      case FillAgain(_, _) => FillSizeKeeps(cfg, w, p);
      case FillTail(_, _, _) => FillTailKeeps(cfg, w, p);
      case FillHead(_, _, _, _) => FillTailKeeps(cfg, w, p);
      case Walking(_, _, _, _, _, _) => WalkingKeeps(cfg, w, p);
      case Releasing(_) => LockKeeps(cfg, w, turn);
      case Taking(_) => TakingKeeps(cfg, w, p);
    }
  }
}
