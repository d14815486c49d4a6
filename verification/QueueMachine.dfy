/** The queue calls of any number of processes as an interleaving of single accesses to shared memory. Every process has
    one place in the code; a step loads or stores at most one shared cell. Pre-queue records are private variables. */
module QueueMachine {
  import opened Common
  import opened QueueModel
  import opened QueueChains

  /** The shared cells: qiids[i].next, qiids[i].last, and qids[q].head, .tail and .size. */
  datatype Cell = Next(i: nat) | Last(i: nat) | Head(q: nat) | Tail(q: nat) | Size(q: nat)

  type Memory = map<Cell, nat>

  /** Operations a process has left, in the code's order. Plus and Minus load and then store, in two steps. */
  datatype Instr =
    | Store(c: Cell, v: nat)
    | Plus(c: Cell, k: nat)
    | Minus(c: Cell, k: nat)
    | IfZero(c: Cell, zero: seq<Instr>, other: seq<Instr>)

  /** A load; cells outside the arrays, which no process ever accesses, read as 0. */
  function Load(m: Memory, c: Cell): nat {
    if c in m then m[c] else 0
  }

  function Write(m: Memory, c: Cell, v: nat): Memory {
    if c in m then m[c := v] else m
  }

  /** One access: the memory afterwards and the operations left. */
  function Operate(m: Memory, todo: seq<Instr>): (Memory, seq<Instr>)
    requires todo != []
  {
    match todo[0]
    case Store(c, v) => (Write(m, c, v), todo[1..])
    case Plus(c, k) => (m, [Store(c, (Load(m, c) + k) % TWO_32)] + todo[1..])
    case Minus(c, k) => (m, [Store(c, (Load(m, c) - k) % TWO_32)] + todo[1..])
    case IfZero(c, zero, other) => (m, (if Load(m, c) == 0 then zero else other) + todo[1..])
  }

  // ---- Where a process is -----------------------------------------------------------

  /** pull is the queue whose pre-queue the flush refills; take is the queue the call pulls from after it. */
  datatype Pc =
    | Free                                                            // in no call
    | Doing(todo: seq<Instr>, after: Pc)                               // operations left, and what follows
    | PushCheck(q: nat)                                               // is the push pre-queue full?
    | HybridCheck(q: nat, r: nat)                                     // is it full, or the pull pre-queue empty?
    | Acquire(pull: Option<nat>, take: Option<nat>)                   // wait for the lock
    | Splicing(q: nat, pull: Option<nat>, take: Option<nat>)          // flush loop at queue q
    | FillSize(r: nat, take: Option<nat>)                             // load the shared queue's size, to compare it
    | FillAgain(r: nat, take: Option<nat>)                            // load it again, as the number to move
    | FillTail(r: nat, k: nat, take: Option<nat>)                     // load the shared queue's tail
    | FillHead(r: nat, k: nat, tail: nat, take: Option<nat>)          // load it again, as the start of the walk
    | Walking(r: nat, k: nat, tail: nat, head: nat, i: nat, take: Option<nat>)  // head is i items along; load its next
    | Releasing(take: Option<nat>)                                    // give the lock back
    | Taking(r: nat)                                                  // take from the pull pre-queue
  {
    /** The parts of a call between taking and releasing the lock. */
    predicate Locked() {
      match this
      case Doing(_, after) => after.Locked()
      case Splicing(_, _, _) => true
      case FillSize(_, _) => true
      case FillAgain(_, _) => true
      case FillTail(_, _, _) => true
      case FillHead(_, _, _, _) => true
      case Walking(_, _, _, _, _, _) => true
      case Releasing(_) => true
      case _ => false
    }

    function Todo(): seq<Instr> {
      if Doing? then todo else []
    }
  }

  /** A call a process may make when it is in none. */
  datatype Call = PushCall(q: nat, i: nat) | PullCall(r: nat) | HybridCall(q: nat, item: Option<nat>, r: nat) | NoCall

  datatype Turn = Turn(p: nat, call: Call)

  datatype Config = Config(procs: nat, qs: nat, items: nat, max: nat)

  /** The last two fields are history variables: steps write them but no step depends on them, except that a caller
      pushes only an item it holds. settled is the memory once every process has done what it has left. */
  datatype World = World(
    mem: Memory,
    privs: map<Place, Ends>,     // every process's qids_nolock_push and qids_nolock_pull
    pcs: seq<Pc>,
    holder: Option<nat>,         // who holds the queue lock
    model: Model,
    settled: Memory)

  function Priv(w: World, l: Place): Ends {
    if l in w.privs then w.privs[l] else EMPTY
  }

  /** pc once todo is left to do before it. */
  function Do(todo: seq<Instr>, after: Pc): Pc {
    if todo == [] then after else Doing(todo, after)
  }

  /** All operations done, with nobody else running. */
  function Finish(m: Memory, todo: seq<Instr>): Memory
    decreases Cost(todo)
  {
    if todo == [] then m
    else
      OperateCost(m, todo);
      Finish(Operate(m, todo).0, Operate(m, todo).1)
  }

  function Cost(todo: seq<Instr>): nat
    decreases todo
  {
    if todo == [] then 0
    else
      (match todo[0]
       case Store(_, _) => 1
       case Plus(_, _) => 2
       case Minus(_, _) => 2
       case IfZero(_, zero, other) => 1 + Cost(zero) + Cost(other))
      + Cost(todo[1..])
  }

  lemma {:induction false} CostConcat(a: seq<Instr>, b: seq<Instr>)
    ensures Cost(a + b) == Cost(a) + Cost(b)
    decreases |a|
  {
    if a == [] {
      assert a + b == b;
    } else {
      assert (a + b)[1..] == a[1..] + b;
      CostConcat(a[1..], b);
    }
  }

  lemma OperateCost(m: Memory, todo: seq<Instr>)
    requires todo != []
    ensures Cost(Operate(m, todo).1) < Cost(todo)
  {
    match todo[0] {
      case Store(_, _) =>
      case Plus(c, k) => assert ([Store(c, (Load(m, c) + k) % TWO_32)] + todo[1..])[1..] == todo[1..];
      case Minus(c, k) => assert ([Store(c, (Load(m, c) - k) % TWO_32)] + todo[1..])[1..] == todo[1..];
      case IfZero(_, zero, other) =>
        CostConcat(zero, todo[1..]);
        CostConcat(other, todo[1..]);
    }
  }

  // ---- The stores of each body, in the code's order ------------------------------------

  /** Linking item i to the head of a push pre-queue. */
  function LinkTodo(e: Ends, i: nat): seq<Instr> {
    [Store(Last(i), e.head), Store(Next(i), NONE)] + if e.head == NONE then [] else [Store(Next(e.head), i)]
  }

  /** Splicing a push pre-queue onto queue q, whose head was h. */
  function SpliceTodo(q: nat, push: Ends, h: nat): seq<Instr> {
    [Store(Last(push.tail), h), Store(Next(push.head), NONE), Store(Head(q), push.head),
     if h == NONE then Store(Tail(q), push.tail) else Store(Next(h), push.tail), Plus(Size(q), push.size)]
  }

  /** Moving the k items from tail to head of queue r to a pull pre-queue; rest is the item behind them. */
  function FillTodo(r: nat, pull: Ends, k: nat, tail: nat, head: nat, rest: nat): seq<Instr> {
    [Store(Last(tail), pull.head), Store(Next(head), NONE)] + (if pull.head == NONE then [] else [Store(Next(pull.head), tail)]) +
    [Minus(Size(r), k), IfZero(Size(r), [Store(Tail(r), NONE), Store(Head(r), NONE)], [Store(Tail(r), rest)])]
  }

  /** After an item was taken and n is the new tail. */
  function TakeTodo(n: nat): seq<Instr> {
    if n == NONE then [] else [Store(Last(n), NONE)]
  }

  // ---- Steps --------------------------------------------------------------------------

  /** Whether process p may make the call: queues that exist, an item it holds. */
  predicate Legal(cfg: Config, w: World, p: nat, call: Call) {
    match call
    case PushCall(q, i) => q < cfg.qs && i < |w.model.owner| && w.model.owner[i] == Held(p)
    case PullCall(r) => r < cfg.qs
    case HybridCall(q, item, r) =>
      q < cfg.qs && r < cfg.qs && (item.Some? ==> item.value < |w.model.owner| && w.model.owner[item.value] == Held(p))
    case NoCall => true
  }

  function SetPc(w: World, p: nat, pc: Pc): World
    requires p < |w.pcs|
  {
    w.(pcs := w.pcs[p := pc])
  }

  /** The model steps that take effect on a turn: a body takes effect with its last load. */
  function Committed(cfg: Config, w: World, turn: Turn): Option<Step>
    requires turn.p < |w.pcs|
  {
    var p := turn.p;
    match w.pcs[p]
    case Free =>
      if !Legal(cfg, w, p, turn.call) then None
      else
        (match turn.call
         case PushCall(q, i) => Some(DoLink(p, q, i))
         case HybridCall(q, item, _) => if item.Some? then Some(DoLink(p, q, item.value)) else None
         case _ => None)
    case Splicing(q, _, _) => if q < cfg.qs && Priv(w, Push(p, q)).size > 0 then Some(DoSplice(p, q)) else None
    case Walking(r, k, _, _, i, _) => if i + 1 < k then None else Some(DoFill(p, r, cfg.max))
    case Taking(r) => if Priv(w, Pull(p, r)).size == 0 then None else Some(DoTake(p, r))
    case _ => None
  }

  /** The history after a body took effect with these operations left. */
  ghost function Commit(w: World, step: Step, todo: seq<Instr>): (w': World)
    ensures w'.mem == w.mem && w'.privs == w.privs && w'.pcs == w.pcs && w'.holder == w.holder
  {
    var m := if Conserved(w.model) && Enabled(w.model, step) then Apply(w.model, step) else w.model;
    w.(model := m, settled := Finish(w.settled, todo))
  }

  /** Process p links an item: private record, and the stores to do. */
  ghost function StartLink(w: World, p: nat, q: nat, i: nat, after: Pc): (w': World)
    requires p < |w.pcs|
    ensures |w'.pcs| == |w.pcs| && forall k :: 0 <= k < |w.pcs| && k != p ==> w'.pcs[k] == w.pcs[k]
  {
    var e := Priv(w, Push(p, q));
    var w' := Commit(w, DoLink(p, q, i), LinkTodo(e, i));
    SetPc(w'.(privs := w.privs[Push(p, q) := JoinEnds(e, i, i, 1)]), p, Do(LinkTodo(e, i), after))
  }

  ghost function StartCall(cfg: Config, w: World, p: nat, call: Call): (w': World)
    requires p < |w.pcs|
    ensures |w'.pcs| == |w.pcs| && forall k :: 0 <= k < |w.pcs| && k != p ==> w'.pcs[k] == w.pcs[k]
  {
    if !Legal(cfg, w, p, call) then w
    else
      match call
      case PushCall(q, i) => StartLink(w, p, q, i, PushCheck(q))
      case PullCall(r) => SetPc(w, p, if Priv(w, Pull(p, r)).size == 0 then Acquire(Some(r), Some(r)) else Taking(r))
      case HybridCall(q, item, r) =>
        if item.Some? then StartLink(w, p, q, item.value, HybridCheck(q, r)) else SetPc(w, p, HybridCheck(q, r))
      case NoCall => w
  }

  ghost function StepSplicing(cfg: Config, w: World, p: nat): (w': World)
    requires p < |w.pcs| && w.pcs[p].Splicing?
    ensures |w'.pcs| == |w.pcs| && forall k :: 0 <= k < |w.pcs| && k != p ==> w'.pcs[k] == w.pcs[k]
  {
    var Splicing(q, pull, take) := w.pcs[p];
    if q < cfg.qs then
      var push := Priv(w, Push(p, q));
      if push.size == 0 then SetPc(w, p, Splicing(q + 1, pull, take))
      else
        var todo := SpliceTodo(q, push, Load(w.mem, Head(q)));
        SetPc(Commit(w, DoSplice(p, q), todo).(privs := w.privs[Push(p, q) := EMPTY]), p, Do(todo, Splicing(q + 1, pull, take)))
    else SetPc(w, p, match pull case None => Releasing(take) case Some(r) => FillSize(r, take))
  }

  /** How many items a pull pre-queue has room for. */
  function Room(cfg: Config, pull: Ends): nat {
    if pull.size < cfg.max then cfg.max - pull.size else 0
  }

  /** The refill once the number of items to move is known. */
  function Move(r: nat, k: nat, take: Option<nat>): Pc {
    if k == 0 then Releasing(take) else FillTail(r, k, take)
  }

  ghost function StepWalking(cfg: Config, w: World, p: nat): (w': World)
    requires p < |w.pcs| && w.pcs[p].Walking?
    ensures |w'.pcs| == |w.pcs| && forall k :: 0 <= k < |w.pcs| && k != p ==> w'.pcs[k] == w.pcs[k]
  {
    var Walking(r, k, tail, head, i, take) := w.pcs[p];
    var n := Load(w.mem, Next(head));
    if i + 1 < k then SetPc(w, p, Walking(r, k, tail, n, i + 1, take))
    else
      var pull := Priv(w, Pull(p, r));
      var todo := FillTodo(r, pull, k, tail, head, n);
      SetPc(Commit(w, DoFill(p, r, cfg.max), todo).(privs := w.privs[Pull(p, r) := JoinEnds(pull, tail, head, k)]), p,
            Do(todo, Releasing(take)))
  }

  ghost function StepTaking(w: World, p: nat): (w': World)
    requires p < |w.pcs| && w.pcs[p].Taking?
    ensures |w'.pcs| == |w.pcs| && forall k :: 0 <= k < |w.pcs| && k != p ==> w'.pcs[k] == w.pcs[k]
  {
    var r := w.pcs[p].r;
    var pull := Priv(w, Pull(p, r));
    if pull.size == 0 then SetPc(w, p, Free)
    else
      var n := Load(w.mem, Next(pull.tail));
      SetPc(Commit(w, DoTake(p, r), TakeTodo(n))
              .(privs := w.privs[Pull(p, r) := Ends(if n == NONE then NONE else pull.head, n, pull.size - 1)]), p,
            Do(TakeTodo(n), Free))
  }

  /** One step of one process. */
  ghost function Advance(cfg: Config, w: World, turn: Turn): (w': World)
    requires turn.p < |w.pcs|
    ensures |w'.pcs| == |w.pcs| && forall p :: 0 <= p < |w.pcs| && p != turn.p ==> w'.pcs[p] == w.pcs[p]
  {
    var p := turn.p;
    match w.pcs[p]
    case Free => StartCall(cfg, w, p, turn.call)
    case Doing(todo, after) =>
      if todo == [] then SetPc(w, p, after)
      else
        var (mem', rest) := Operate(w.mem, todo);
        SetPc(w.(mem := mem'), p, Do(rest, after))
    case PushCheck(q) => SetPc(w, p, if Priv(w, Push(p, q)).size >= cfg.max then Acquire(None, None) else Free)
    case HybridCheck(q, r) =>
      SetPc(w, p, if Priv(w, Push(p, q)).size >= cfg.max || Priv(w, Pull(p, r)).size == 0
                  then Acquire(Some(r), Some(r)) else Taking(r))
    case Acquire(pull, take) => if w.holder.None? then SetPc(w.(holder := Some(p)), p, Splicing(0, pull, take)) else w
    case Splicing(_, _, _) => StepSplicing(cfg, w, p)
    case FillSize(r, take) =>
      var room := Room(cfg, Priv(w, Pull(p, r)));
      SetPc(w, p, if Load(w.mem, Size(r)) < room then FillAgain(r, take) else Move(r, room, take))
    case FillAgain(r, take) => SetPc(w, p, Move(r, Load(w.mem, Size(r)), take))
    case FillTail(r, k, take) => SetPc(w, p, FillHead(r, k, Load(w.mem, Tail(r)), take))
    case FillHead(r, k, tail, take) => SetPc(w, p, Walking(r, k, tail, Load(w.mem, Tail(r)), 0, take))
    case Walking(_, _, _, _, _, _) => StepWalking(cfg, w, p)
    case Releasing(take) => SetPc(w.(holder := None), p, match take case None => Free case Some(r) => Taking(r))
    case Taking(_) => StepTaking(w, p)
  }

  /** The cell the next step of process p loads or stores, if any. */
  function Accessed(cfg: Config, w: World, p: nat): Option<Cell>
    requires p < |w.pcs|
  {
    match w.pcs[p]
    case Doing(todo, _) => if todo == [] then None else Some(todo[0].c)
    case Splicing(q, _, _) => if q < cfg.qs && Priv(w, Push(p, q)).size > 0 then Some(Head(q)) else None
    case FillSize(r, _) => Some(Size(r))
    case FillAgain(r, _) => Some(Size(r))
    case FillTail(r, _, _) => Some(Tail(r))
    case FillHead(r, _, _, _) => Some(Tail(r))
    case Walking(_, _, _, head, _, _) => Some(Next(head))
    case Taking(r) => if Priv(w, Pull(p, r)).size == 0 then None else Some(Next(Priv(w, Pull(p, r)).tail))
    case _ => None
  }
}
