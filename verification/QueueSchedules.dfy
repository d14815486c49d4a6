/** Whole runs of the queue calls: every schedule of any number of processes, from the moment the queues are created. */
module QueueSchedules {
  import opened Common
  import opened QueueModel
  import opened QueueChains
  import opened QueueSet
  import opened QueueMachine
  import opened QueueRuns

  // ---- Schedules ---------------------------------------------------------------------------

  predicate ValidConfig(cfg: Config) {
    cfg.qs > 2 && cfg.items > 1 && 0 < cfg.max < cfg.items < NONE
  }

  function Arrays(cfg: Config): (s: set<Cell>)
    ensures forall c :: c in s <==> InArrays(cfg, c)
  {
    (set i | 0 <= i < cfg.items :: Next(i)) + (set i | 0 <= i < cfg.items :: Last(i))
    + (set q | 0 <= q < cfg.qs :: Head(q)) + (set q | 0 <= q < cfg.qs :: Tail(q)) + (set q | 0 <= q < cfg.qs :: Size(q))
  }

  /** What shf_q_new stores: all items linked in order on queue 0. */
  function FirstValue(cfg: Config, c: Cell): nat
    requires cfg.items > 0
  {
    match c
    case Next(i) => if i == cfg.items - 1 then NONE else i + 1
    case Last(i) => if i == 0 then NONE else i - 1
    case Head(q) => if q == 0 then cfg.items - 1 else NONE
    case Tail(q) => if q == 0 then 0 else NONE
    case Size(q) => if q == 0 then cfg.items else 0
  }

  function FirstMemory(cfg: Config): Memory
    requires cfg.items > 0
  {
    map c | c in Arrays(cfg) :: FirstValue(cfg, c)
  }

  ghost function Start(cfg: Config): World
    requires ValidConfig(cfg)
  {
    World(FirstMemory(cfg), map l | l in Places(cfg.procs, cfg.qs) :: EMPTY, seq(cfg.procs, i => Free), None,
          Fresh(cfg.procs, cfg.qs, cfg.items), FirstMemory(cfg))
  }

  ghost predicate ValidTurns(cfg: Config, schedule: seq<Turn>) {
    ValidConfig(cfg) && forall k :: 0 <= k < |schedule| ==> schedule[k].p < cfg.procs
  }

  /** The world after a schedule: any sequence of turns, each one access of one process. */
  ghost function Exec(cfg: Config, schedule: seq<Turn>): (w: World)
    requires ValidTurns(cfg, schedule)
    ensures |w.pcs| == cfg.procs
  {
    if schedule == [] then Start(cfg) else Advance(cfg, Exec(cfg, schedule[..|schedule| - 1]), schedule[|schedule| - 1])
  }

  lemma StartLoads(cfg: Config, c: Cell)
    requires ValidConfig(cfg) && InArrays(cfg, c)
    ensures Load(FirstMemory(cfg), c) == FirstValue(cfg, c)
  {
    hide Arrays;
  }

  lemma StartEnds(cfg: Config)
    requires ValidConfig(cfg)
    ensures EndsOf(cfg, Start(cfg).mem, Start(cfg).privs) == FreshEnds(cfg.procs, cfg.qs, cfg.items)
  {
    hide Fresh, Places, FirstMemory, Load;
    FreshPlaces(cfg.procs, cfg.qs);
    forall l | l in Places(cfg.procs, cfg.qs)
      ensures EndsOf(cfg, Start(cfg).mem, Start(cfg).privs)[l] == FreshEnds(cfg.procs, cfg.qs, cfg.items)[l] {
      PlaceBounds(cfg, l);
      if l.Shared? {
        StartLoads(cfg, Head(l.q));
        StartLoads(cfg, Tail(l.q));
        StartLoads(cfg, Size(l.q));
      }
    }
  }

  lemma StartSettles(cfg: Config)
    requires ValidConfig(cfg)
    ensures Settles(cfg, Start(cfg).settled, Start(cfg).privs, Start(cfg).model)
  {
    hide Fresh, Conserved, Chains, FirstMemory, Load, EndsOf, FreshEnds;
    var w := Start(cfg);
    FreshConserved(cfg.procs, cfg.qs, cfg.items);
    forall i | 0 <= i < cfg.items
      ensures NextOf(w.mem, cfg.items)[i] == FirstValue(cfg, Next(i)) && LastOf(w.mem, cfg.items)[i] == FirstValue(cfg, Last(i)) {
      StartLoads(cfg, Next(i));
      StartLoads(cfg, Last(i));
    }
    FreshChains(NextOf(w.mem, cfg.items), LastOf(w.mem, cfg.items), cfg.procs, cfg.qs, cfg.items);
    StartEnds(cfg);
  }

  lemma StartInv(cfg: Config)
    requires ValidConfig(cfg)
    ensures Inv(cfg, Start(cfg))
  {
    hide Fresh, Settles, Mine, Arrays, Places;
    var w := Start(cfg);
    StartSettles(cfg);
    StartShape(cfg);
    forall p | 0 <= p < cfg.procs ensures ProcOk(cfg, w, p) {
      FinishNothing(w.mem);
    }
  }

  lemma StartShape(cfg: Config)
    requires ValidConfig(cfg)
    ensures Fresh(cfg.procs, cfg.qs, cfg.items).lists.Keys == Places(cfg.procs, cfg.qs)
    ensures |Fresh(cfg.procs, cfg.qs, cfg.items).owner| == cfg.items
  {
  }

  /** In every interleaving, the invariant holds after every access. */
  lemma {:induction false} RunKeeps(cfg: Config, schedule: seq<Turn>)
    requires ValidTurns(cfg, schedule)
    ensures Inv(cfg, Exec(cfg, schedule))
  {
    hide Inv, Advance, Start;
    if schedule == [] {
      StartInv(cfg);
    } else {
      RunKeeps(cfg, schedule[..|schedule| - 1]);
      StepKeeps(cfg, Exec(cfg, schedule[..|schedule| - 1]), schedule[|schedule| - 1]);
    }
  }

  // ---- The lists in shared memory ---------------------------------------------------------------

  /** No process is in the middle of changing the list. */
  predicate Quiet(w: World, l: Place) {
    match l
    case Shared(_) => w.holder.Some? && w.holder.value < |w.pcs| ==> w.pcs[w.holder.value].Todo() == []
    case Push(p, _) => p < |w.pcs| && w.pcs[p].Todo() == []
    case Pull(p, _) => p < |w.pcs| && w.pcs[p].Todo() == []
  }

  /** After every access of every schedule each item is in exactly one list or held by exactly one process, and each list
      that nobody is in the middle of changing is exactly its chain in shared memory: next, last, head, tail and size. */
  lemma ChainsInMemory(cfg: Config, schedule: seq<Turn>, l: Place)
    requires ValidTurns(cfg, schedule) && l in Places(cfg.procs, cfg.qs) && Quiet(Exec(cfg, schedule), l)
    ensures var w := Exec(cfg, schedule);
            && Conserved(w.model) && l in w.model.lists && |w.model.owner| == cfg.items
            && Chain(NextOf(w.mem, cfg.items), LastOf(w.mem, cfg.items), EndsOf(cfg, w.mem, w.privs)[l], w.model.lists[l])
  {
    hide Exec, Places;
    RunKeeps(cfg, schedule);
    QuietChain(cfg, Exec(cfg, schedule), l);
  }

  lemma QuietChain(cfg: Config, w: World, l: Place)
    requires Inv(cfg, w) && l in Places(cfg.procs, cfg.qs) && Quiet(w, l)
    ensures Conserved(w.model) && l in w.model.lists && |w.model.owner| == cfg.items
    ensures Chain(NextOf(w.mem, cfg.items), LastOf(w.mem, cfg.items), EndsOf(cfg, w.mem, w.privs)[l], w.model.lists[l])
  {
    hide Settles, ProcOk, FreeCellsOk, Places, Chain, EndsOf, NextOf, LastOf;
    SettledList(cfg, w, l);
    EndsAre(cfg, w.settled, w.privs, l);
    EndsAre(cfg, w.mem, w.privs, l);
    var xs := w.model.lists[l];
    forall i | i in xs
      ensures NextOf(w.mem, cfg.items)[i] == NextOf(w.settled, cfg.items)[i] && LastOf(w.mem, cfg.items)[i] == LastOf(w.settled, cfg.items)[i] {
      QuietLinks(cfg, w, l, i);
    }
    if l.Shared? { PlaceBounds(cfg, l); QuietRecord(cfg, w, l.q); }
    ChainFrame(NextOf(w.settled, cfg.items), LastOf(w.settled, cfg.items), NextOf(w.mem, cfg.items), LastOf(w.mem, cfg.items),
               EndsOf(cfg, w.settled, w.privs)[l], xs);
  }

  lemma PlaceBounds(cfg: Config, l: Place)
    requires l in Places(cfg.procs, cfg.qs)
    ensures l.q < cfg.qs && (!l.Shared? ==> l.p < cfg.procs)
  {
  }

  lemma QuietLinks(cfg: Config, w: World, l: Place, i: nat)
    requires Inv(cfg, w) && l in Places(cfg.procs, cfg.qs) && Quiet(w, l) && i < cfg.items && w.model.owner[i] == In(l)
    ensures NextOf(w.mem, cfg.items)[i] == NextOf(w.settled, cfg.items)[i] && LastOf(w.mem, cfg.items)[i] == LastOf(w.settled, cfg.items)[i]
  {
    hide Settles, PcOk, Places, Region;
    PlaceBounds(cfg, l);
    assert InArrays(cfg, Next(i)) && InArrays(cfg, Last(i));
    if l.Shared? && w.holder.None? {
      assert w.settled[Next(i)] == w.mem[Next(i)] && w.settled[Last(i)] == w.mem[Last(i)];
    } else {
      var p := if l.Shared? then w.holder.value else l.p;
      ListCell(cfg, w, p, i);
      LoadsSettled(cfg, w, p, Next(i));
      LoadsSettled(cfg, w, p, Last(i));
    }
  }

  lemma QuietRecord(cfg: Config, w: World, q: nat)
    requires Inv(cfg, w) && q < cfg.qs && Quiet(w, Shared(q))
    ensures SharedEnds(w.mem, q) == SharedEnds(w.settled, q)
  {
    hide Settles, PcOk, Places, Region;
    assert InArrays(cfg, Head(q)) && InArrays(cfg, Tail(q)) && InArrays(cfg, Size(q));
    if w.holder.None? {
      assert w.settled[Head(q)] == w.mem[Head(q)] && w.settled[Tail(q)] == w.mem[Tail(q)] && w.settled[Size(q)] == w.mem[Size(q)];
    } else {
      var p := w.holder.value;
      LockedRecord(cfg, w, p, q);
      LoadsSettled(cfg, w, p, Head(q));
      LoadsSettled(cfg, w, p, Tail(q));
      LoadsSettled(cfg, w, p, Size(q));
    }
  }

  // ---- Accesses ---------------------------------------------------------------------------------

  /** The cell a process is about to load or store is inside the arrays and its own: a link of an item it holds or has in
      a pre-queue, or, holding the lock, a link or record of a shared queue. */
  lemma AccessIsOwn(cfg: Config, w: World, p: nat)
    requires Inv(cfg, w) && p < cfg.procs
    ensures Accessed(cfg, w, p).Some? ==> Accessed(cfg, w, p).value in Region(w, p) && InArrays(cfg, Accessed(cfg, w, p).value)
  {
    hide Settles, FreeCellsOk, Places, Region, Agree;
    FreshPlaces(cfg.procs, cfg.qs);
    assert ProcOk(cfg, w, p);
    match w.pcs[p] {
      case Doing(todo, _) => OperateCells(w.mem, todo);
      case Splicing(q, _, _) => if q < cfg.qs { LockedRecord(cfg, w, p, q); }
      case FillSize(r, _) => LockedRecord(cfg, w, p, r);
      case FillAgain(r, _) => LockedRecord(cfg, w, p, r);
      case FillTail(r, _, _) => LockedRecord(cfg, w, p, r);
      case FillHead(r, _, _, _) => LockedRecord(cfg, w, p, r);
      case Walking(_, _, _, _, _, _) => WalkLoads(cfg, w, p);
      case Taking(r) => if Priv(w, Pull(p, r)).size > 0 { TakeSettles(cfg, w, p, r); }
      case _ =>
    }
    RegionIn(cfg, w, p);
  }

  lemma RegionIn(cfg: Config, w: World, p: nat)
    requires Inv(cfg, w)
    ensures forall c :: c in Region(w, p) ==> InArrays(cfg, c)
  {
    hide Settles, ProcOk, FreeCellsOk;
  }

  /** In no reachable state are two processes about to access the same shared cell: the unlocked bodies need no lock. */
  lemma AccessesApart(cfg: Config, schedule: seq<Turn>, p: nat, q: nat)
    requires ValidTurns(cfg, schedule) && p < cfg.procs && q < cfg.procs && p != q
    ensures var w := Exec(cfg, schedule);
            && (Accessed(cfg, w, p).Some? ==> InArrays(cfg, Accessed(cfg, w, p).value))
            && (Accessed(cfg, w, p).Some? ==> Accessed(cfg, w, p) != Accessed(cfg, w, q))
  {
    hide Exec, Inv, Accessed, Region;
    RunKeeps(cfg, schedule);
    var w := Exec(cfg, schedule);
    AccessIsOwn(cfg, w, p);
    AccessIsOwn(cfg, w, q);
    if Accessed(cfg, w, p).Some? && Accessed(cfg, w, p) == Accessed(cfg, w, q) {
      RegionsApart(w, p, q, Accessed(cfg, w, p).value);
    }
  }

  /** A pull returns the oldest item of the pull pre-queue, and none exactly when that list is empty. */
  lemma PullReturns(cfg: Config, schedule: seq<Turn>, p: nat)
    requires ValidTurns(cfg, schedule) && p < cfg.procs && Exec(cfg, schedule).pcs[p].Taking?
    ensures var w := Exec(cfg, schedule);
            var l := Pull(p, w.pcs[p].r);
            && l in w.model.lists
            && (Priv(w, l).size == 0 <==> w.model.lists[l] == [])
            && (Priv(w, l).size > 0 ==> Priv(w, l).tail == w.model.lists[l][0])
  {
    hide Exec, Settles, FreeCellsOk, Places, Region, Agree, EndsOf;
    FreshPlaces(cfg.procs, cfg.qs);
    RunKeeps(cfg, schedule);
    var w := Exec(cfg, schedule);
    assert ProcOk(cfg, w, p);
    var l := Pull(p, w.pcs[p].r);
    SettledList(cfg, w, l);
    EndsAre(cfg, w.settled, w.privs, l);
  }

  // ---- Interleavings refine the model's steps ----------------------------------------------------

  /** The model steps a schedule commits, in order, and the models between them. */
  ghost function Steps(cfg: Config, schedule: seq<Turn>): seq<Step>
    requires ValidTurns(cfg, schedule)
  {
    if schedule == [] then []
    else
      var before := schedule[..|schedule| - 1];
      Steps(cfg, before) + match Committed(cfg, Exec(cfg, before), schedule[|schedule| - 1]) case None => [] case Some(s) => [s]
  }

  ghost function Models(cfg: Config, schedule: seq<Turn>): seq<Model>
    requires ValidTurns(cfg, schedule)
  {
    if schedule == [] then [Start(cfg).model]
    else
      var before := schedule[..|schedule| - 1];
      Models(cfg, before) + match Committed(cfg, Exec(cfg, before), schedule[|schedule| - 1])
                            case None => [] case Some(_) => [Exec(cfg, schedule).model]
  }

  lemma RunExtends(trace: seq<Model>, steps: seq<Step>, s: Step, m: Model)
    requires IsRun(trace, steps) && Conserved(trace[|steps|]) && Enabled(trace[|steps|], s) && m == Apply(trace[|steps|], s)
    ensures IsRun(trace + [m], steps + [s])
  {
    hide Conserved, Enabled, Apply;
    var longer, more := trace + [m], steps + [s];
    forall k {:trigger more[k]} | 0 <= k < |more| && Conserved(longer[k])
      ensures Enabled(longer[k], more[k]) && longer[k + 1] == Apply(longer[k], more[k]) {
      if k < |steps| { assert more[k] == steps[k]; }
    }
  }

  /** Every interleaving of single accesses is a run of whole model steps. */
  lemma {:induction false} RunRefines(cfg: Config, schedule: seq<Turn>)
    requires ValidTurns(cfg, schedule)
    ensures IsRun(Models(cfg, schedule), Steps(cfg, schedule))
    ensures Models(cfg, schedule)[|Steps(cfg, schedule)|] == Exec(cfg, schedule).model && Models(cfg, schedule)[0] == Start(cfg).model
    ensures Conserved(Start(cfg).model)
  {
    hide Inv, Advance, Committed, Start, Conserved, Enabled, Apply;
    StartInv(cfg);
    SettlesConserved(cfg, Start(cfg));
    if schedule != [] {
      var before, turn := schedule[..|schedule| - 1], schedule[|schedule| - 1];
      RunRefines(cfg, before);
      RunKeeps(cfg, before);
      var w := Exec(cfg, before);
      StepKeeps(cfg, w, turn);
      match Committed(cfg, w, turn) {
        case None =>
          assert Models(cfg, schedule) == Models(cfg, before) && Steps(cfg, schedule) == Steps(cfg, before);
        case Some(s) =>
          RunExtends(Models(cfg, before), Steps(cfg, before), s, Exec(cfg, schedule).model);
      }
    }
  }

  // ---- One producer and one consumer --------------------------------------------------------------

  /** Of queue q, only a's calls push and only b's calls pull. Every call, on any queue, still flushes where the code does. */
  predicate Respects(turn: Turn, a: nat, b: nat, q: nat) {
    match turn.call
    case PushCall(x, _) => x == q ==> turn.p == a
    case PullCall(r) => r == q ==> turn.p == b
    case HybridCall(x, item, r) => (x == q && item.Some? ==> turn.p == a) && (r == q ==> turn.p == b)
    case NoCall => true
  }

  /** The process is on its way to refill from, or take from, queue q. */
  predicate Pulls(pc: Pc, q: nat) {
    match pc
    case Free => false
    case PushCheck(_) => false
    case Doing(_, after) => Pulls(after, q)
    case HybridCheck(_, r) => r == q
    case Acquire(pull, take) => pull == Some(q) || take == Some(q)
    case Splicing(_, pull, take) => pull == Some(q) || take == Some(q)
    case FillSize(r, take) => r == q || take == Some(q)
    case FillAgain(r, take) => r == q || take == Some(q)
    case FillTail(r, _, take) => r == q || take == Some(q)
    case FillHead(r, _, _, take) => r == q || take == Some(q)
    case Walking(r, _, _, _, _, take) => r == q || take == Some(q)
    case Releasing(take) => take == Some(q)
    case Taking(r) => r == q
  }

  ghost predicate OneSided(cfg: Config, w: World, a: nat, b: nat, q: nat)
    requires |w.pcs| == cfg.procs
  {
    forall p :: 0 <= p < cfg.procs ==>
      && (p != a ==> Push(p, q) in w.model.lists && w.model.lists[Push(p, q)] == [])
      && (p != b ==> !Pulls(w.pcs[p], q))
  }

  lemma CallStaysOff(cfg: Config, w: World, turn: Turn, b: nat, q: nat)
    requires turn.p < |w.pcs| && turn.p != b && w.pcs[turn.p].Free? && Respects(turn, turn.p, b, q)
    ensures !Pulls(Advance(cfg, w, turn).pcs[turn.p], q)
  {
    hide Commit, LinkTodo, Legal, Priv;
  }

  lemma BodyStaysOff(cfg: Config, w: World, p: nat, q: nat)
    requires p < |w.pcs| && !Pulls(w.pcs[p], q)
    ensures w.pcs[p].Splicing? ==> !Pulls(StepSplicing(cfg, w, p).pcs[p], q)
    ensures w.pcs[p].Walking? ==> !Pulls(StepWalking(cfg, w, p).pcs[p], q)
    ensures w.pcs[p].Taking? ==> !Pulls(StepTaking(w, p).pcs[p], q)
  {
    hide Commit, SpliceTodo, FillTodo, TakeTodo, Priv, Load;
  }

  lemma DoingStaysOff(cfg: Config, w: World, turn: Turn, q: nat)
    requires turn.p < |w.pcs| && w.pcs[turn.p].Doing? && !Pulls(w.pcs[turn.p], q)
    ensures !Pulls(Advance(cfg, w, turn).pcs[turn.p], q)
  {
    hide Operate, Priv, Load;
  }

  lemma PcStaysOff(cfg: Config, w: World, turn: Turn, b: nat, q: nat)
    requires turn.p < |w.pcs| && turn.p != b && !Pulls(w.pcs[turn.p], q) && Respects(turn, turn.p, b, q)
    ensures !Pulls(Advance(cfg, w, turn).pcs[turn.p], q)
  {
    hide Advance, Respects;
    match w.pcs[turn.p] {
      case Free => CallStaysOff(cfg, w, turn, b, q);
      case Doing(_, _) => DoingStaysOff(cfg, w, turn, q);
      case _ => OthersStayOff(cfg, w, turn, q);
    }
  }

  lemma OthersStayOff(cfg: Config, w: World, turn: Turn, q: nat)
    requires turn.p < |w.pcs| && !w.pcs[turn.p].Free? && !w.pcs[turn.p].Doing? && !Pulls(w.pcs[turn.p], q)
    ensures !Pulls(Advance(cfg, w, turn).pcs[turn.p], q)
  {
    hide Operate, StartCall, StepSplicing, StepWalking, StepTaking, Priv, Load;
    BodyStaysOff(cfg, w, turn.p, q);
  }

  lemma CommitStaysOff(cfg: Config, w: World, turn: Turn, q: nat)
    requires turn.p < |w.pcs| && !Pulls(w.pcs[turn.p], q)
    ensures Committed(cfg, w, turn).Some? && Committed(cfg, w, turn).value.q == q ==>
              Committed(cfg, w, turn).value.DoLink? || Committed(cfg, w, turn).value.DoSplice?
  {
    hide Legal, Priv;
  }

  lemma CommitsOwn(cfg: Config, w: World, turn: Turn)
    requires turn.p < |w.pcs|
    ensures Committed(cfg, w, turn).Some? ==> Committed(cfg, w, turn).value.p == turn.p
  {
  }

  /** A link is the push call that starts; a splice needs a pre-queue that is not empty. */
  lemma CommitsRespect(cfg: Config, w: World, turn: Turn, a: nat, b: nat, q: nat)
    requires Inv(cfg, w) && turn.p < cfg.procs && OneSided(cfg, w, a, b, q) && Respects(turn, a, b, q)
    ensures Committed(cfg, w, turn).Some? ==> OneToOne(w.model, Committed(cfg, w, turn).value, a, b, q)
  {
    hide Settles, FreeCellsOk, Region, Agree;
    CommitsOwn(cfg, w, turn);
    var p := turn.p;
    if p != b {
      assert !Pulls(w.pcs[p], q);
      CommitStaysOff(cfg, w, turn, q);
    }
    if p != a { assert w.model.lists[Push(p, q)] == []; }
  }

  lemma RespectsPull(turn: Turn, a: nat, b: nat, q: nat)
    requires Respects(turn, a, b, q)
    ensures Respects(turn, turn.p, b, q)
  {
  }

  /** A step of one process leaves other lists of queue q empty. */
  lemma StaysEmpty(m: Model, s: Step, a: nat, b: nat, q: nat, p: nat)
    requires Conserved(m) && Enabled(m, s) && OneToOne(m, s, a, b, q) && p != a && Push(p, q) in m.lists && m.lists[Push(p, q)] == []
    ensures Push(p, q) in Apply(m, s).lists && Apply(m, s).lists[Push(p, q)] == []
  {
    hide Conserved, ListHas;
  }

  lemma OneSidedStep(cfg: Config, w: World, turn: Turn, a: nat, b: nat, q: nat)
    requires Inv(cfg, w) && turn.p < cfg.procs && OneSided(cfg, w, a, b, q) && Respects(turn, a, b, q)
    ensures |Advance(cfg, w, turn).pcs| == cfg.procs && OneSided(cfg, Advance(cfg, w, turn), a, b, q)
  {
    hide Inv, Advance, Committed, Conserved, Enabled, Apply, OneToOne, Pulls, Respects;
    CommitsRespect(cfg, w, turn, a, b, q);
    StepKeeps(cfg, w, turn);
    InvPcs(cfg, w, turn.p);
    InvPcs(cfg, Advance(cfg, w, turn), turn.p);
    forall p | 0 <= p < cfg.procs
      ensures p != a ==> Push(p, q) in Advance(cfg, w, turn).model.lists && Advance(cfg, w, turn).model.lists[Push(p, q)] == []
      ensures p != b ==> !Pulls(Advance(cfg, w, turn).pcs[p], q) {
      if p != a && Committed(cfg, w, turn).Some? { StaysEmpty(w.model, Committed(cfg, w, turn).value, a, b, q, p); }
      if p == turn.p && p != b {
        RespectsPull(turn, a, b, q);
        PcStaysOff(cfg, w, turn, b, q);
      }
    }
  }

  lemma InvPcs(cfg: Config, w: World, p: nat)
    requires Inv(cfg, w) && p < cfg.procs
    ensures |w.pcs| == cfg.procs && (w.pcs[p].Doing? ==> w.pcs[p].todo != [])
  {
    hide Settles, FreeCellsOk, Region, Agree;
    assert ProcOk(cfg, w, p);
  }

  ghost predicate AllRespect(schedule: seq<Turn>, a: nat, b: nat, q: nat) {
    forall k :: 0 <= k < |schedule| ==> Respects(schedule[k], a, b, q)
  }

  ghost predicate StepsRespect(trace: seq<Model>, steps: seq<Step>, a: nat, b: nat, q: nat) {
    |steps| < |trace| && forall k :: 0 <= k < |steps| ==> OneToOne(trace[k], steps[k], a, b, q)
  }

  lemma RespectExtends(trace: seq<Model>, steps: seq<Step>, a: nat, b: nat, q: nat, s: Step, m: Model)
    requires StepsRespect(trace, steps, a, b, q) && |trace| == |steps| + 1 && OneToOne(trace[|steps|], s, a, b, q)
    ensures StepsRespect(trace + [m], steps + [s], a, b, q)
  {
    hide OneToOne;
  }

  lemma {:induction false} RunOneSided(cfg: Config, schedule: seq<Turn>, a: nat, b: nat, q: nat)
    requires ValidTurns(cfg, schedule) && AllRespect(schedule, a, b, q) && q < cfg.qs
    ensures OneSided(cfg, Exec(cfg, schedule), a, b, q)
    ensures StepsRespect(Models(cfg, schedule), Steps(cfg, schedule), a, b, q)
  {
    hide Inv, Advance, Committed, OneToOne, Respects, OneSided, Start, IsRun, StepsRespect;
    if schedule == [] {
      StartOneSided(cfg, a, b, q);
      assert StepsRespect(Models(cfg, []), Steps(cfg, []), a, b, q) by { NoSteps(cfg, a, b, q); }
    } else {
      var before, turn := schedule[..|schedule| - 1], schedule[|schedule| - 1];
      RunOneSided(cfg, before, a, b, q);
      RunKeeps(cfg, before);
      RunRefines(cfg, before);
      var w := Exec(cfg, before);
      RunLength(Models(cfg, before), Steps(cfg, before));
      CommitsRespect(cfg, w, turn, a, b, q);
      OneSidedStep(cfg, w, turn, a, b, q);
      match Committed(cfg, w, turn) {
        case None => assert Models(cfg, schedule) == Models(cfg, before) && Steps(cfg, schedule) == Steps(cfg, before);
        case Some(s) => RespectExtends(Models(cfg, before), Steps(cfg, before), a, b, q, s, Exec(cfg, schedule).model);
      }
    }
  }

  lemma NoSteps(cfg: Config, a: nat, b: nat, q: nat)
    requires ValidConfig(cfg)
    ensures StepsRespect(Models(cfg, []), Steps(cfg, []), a, b, q)
  {
    hide Start;
  }

  lemma RunLength(trace: seq<Model>, steps: seq<Step>)
    requires IsRun(trace, steps)
    ensures |trace| == |steps| + 1
  {
  }

  lemma StartOneSided(cfg: Config, a: nat, b: nat, q: nat)
    requires ValidConfig(cfg) && q < cfg.qs
    ensures OneSided(cfg, Start(cfg), a, b, q)
  {
    FreshPlaces(cfg.procs, cfg.qs);
  }

  /** With one producing and one consuming process, in every interleaving of their and everybody's calls, plain or hybrid:
      what the queue started with and a pushed is, in order, what b pulled and what is still on its way from a to b. */
  lemma CallsInOrder(cfg: Config, schedule: seq<Turn>, a: nat, b: nat, q: nat)
    requires ValidTurns(cfg, schedule) && AllRespect(schedule, a, b, q) && a < cfg.procs && b < cfg.procs && q < cfg.qs
    ensures IsRun(Models(cfg, schedule), Steps(cfg, schedule)) && Conserved(Models(cfg, schedule)[0])
    ensures var m, w := Start(cfg).model, Exec(cfg, schedule);
            && Pull(b, q) in m.lists && Shared(q) in m.lists && Push(a, q) in m.lists
            && Pull(b, q) in w.model.lists && Shared(q) in w.model.lists && Push(a, q) in w.model.lists
            && Between(m, a, b, q) + Pushed(Steps(cfg, schedule), q) ==
               Pulled(Models(cfg, schedule), Steps(cfg, schedule), q) + Between(w.model, a, b, q)
  {
    hide Exec, Inv, OneToOne, Respects, OneSided, IsRun, Between, Steps, Models, Conserved;
    StartPlaces(cfg, a, b, q);
    RunOneSided(cfg, schedule, a, b, q);
    RunRefines(cfg, schedule);
    RunLength(Models(cfg, schedule), Steps(cfg, schedule));
    InOrder(Models(cfg, schedule), Steps(cfg, schedule), a, b, q);
  }

  lemma StartPlaces(cfg: Config, a: nat, b: nat, q: nat)
    requires ValidConfig(cfg) && a < cfg.procs && b < cfg.procs && q < cfg.qs
    ensures var m := Start(cfg).model; Pull(b, q) in m.lists && Shared(q) in m.lists && Push(a, q) in m.lists
  {
    FreshPlaces(cfg.procs, cfg.qs);
  }

  /** So the items pulled are a prefix of the items pushed, for any batching, flush points and interleaving. */
  lemma CallsPulledIsPrefix(cfg: Config, schedule: seq<Turn>, a: nat, b: nat, q: nat)
    requires ValidTurns(cfg, schedule) && AllRespect(schedule, a, b, q) && a < cfg.procs && b < cfg.procs && 0 < q < cfg.qs
    ensures IsRun(Models(cfg, schedule), Steps(cfg, schedule)) && Conserved(Models(cfg, schedule)[0])
    ensures Pulled(Models(cfg, schedule), Steps(cfg, schedule), q) <= Pushed(Steps(cfg, schedule), q)
  {
    hide Exec, Steps, Models, IsRun, Conserved, AllRespect;
    CallsInOrder(cfg, schedule, a, b, q);
    StartEmpty(cfg, a, b, q);
    assert [] + Pushed(Steps(cfg, schedule), q) == Pushed(Steps(cfg, schedule), q);
  }

  lemma StartEmpty(cfg: Config, a: nat, b: nat, q: nat)
    requires ValidConfig(cfg) && a < cfg.procs && b < cfg.procs && 0 < q < cfg.qs
    ensures var m := Start(cfg).model;
            Pull(b, q) in m.lists && Shared(q) in m.lists && Push(a, q) in m.lists && Between(m, a, b, q) == []
  {
    FreshPlaces(cfg.procs, cfg.qs);
  }
}
