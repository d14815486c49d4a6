/** What a call in the middle of an interleaving guarantees: push pre-queues stay short, and a pull that returns nothing
    held the lock while there was nothing to return. */
module QueueAnswers {
  import opened Common
  import opened QueueModel
  import opened QueueChains
  import opened QueueSet
  import opened QueueMachine
  import opened QueueRuns
  import opened QueueSchedules

  /** Where a process is in its call, the operations of the body it is in aside. */
  function Stage(pc: Pc): Pc {
    if pc.Doing? then pc.after else pc
  }

  /** The size in a private record is the length of the list. */
  lemma PrivateSize(cfg: Config, w: World, l: Place)
    requires Inv(cfg, w) && l in Places(cfg.procs, cfg.qs) && !l.Shared?
    ensures Conserved(w.model) && l in w.model.lists && Priv(w, l).size == |w.model.lists[l]|
  {
    hide Settles, ProcOk, FreeCellsOk, Places, EndsOf;
    SettledList(cfg, w, l);
    EndsAre(cfg, w.settled, w.privs, l);
  }

  // ---- Stages, by the lengths of the lists ---------------------------------------------------------

  ghost predicate Lists(cfg: Config, m: Model) {
    m.lists.Keys == Places(cfg.procs, cfg.qs) && Conserved(m)
  }

  ghost function Length(m: Model, l: Place): nat {
    if l in m.lists then |m.lists[l]| else 0
  }

  /** Where a process is after its next step, and what that step commits. */
  ghost predicate StageMoves(cfg: Config, w: World, turn: Turn, c: Option<Step>, next: Pc)
    requires turn.p < |w.pcs|
  {
    var p, m := turn.p, w.model;
    match w.pcs[p]
    case Free =>
      if !Legal(cfg, w, p, turn.call) then c == None && next == Free
      else
        (match turn.call
         case PushCall(q, i) => c == Some(DoLink(p, q, i)) && next == PushCheck(q)
         case PullCall(r) => c == None && next == if Length(m, Pull(p, r)) == 0 then Acquire(Some(r), Some(r)) else Taking(r)
         case HybridCall(q, item, r) => c == (if item.Some? then Some(DoLink(p, q, item.value)) else None) && next == HybridCheck(q, r)
         case NoCall => c == None && next == Free)
    case Doing(_, after) => c == None && next == after
    case PushCheck(q) => c == None && next == if Length(m, Push(p, q)) >= cfg.max then Acquire(None, None) else Free
    case HybridCheck(q, r) =>
      c == None && next == if Length(m, Push(p, q)) >= cfg.max || Length(m, Pull(p, r)) == 0 then Acquire(Some(r), Some(r)) else Taking(r)
    case Acquire(pull, take) => c == None && next == if w.holder.None? then Splicing(0, pull, take) else Acquire(pull, take)
    case Splicing(q, pull, take) =>
      if q < cfg.qs then
        c == (if Length(m, Push(p, q)) == 0 then None else Some(DoSplice(p, q))) && next == Splicing(q + 1, pull, take)
      else
        c == None && next == (match pull case None => Releasing(take) case Some(r) => FillSize(r, take))
    case FillSize(r, take) =>
      var room := if Length(m, Pull(p, r)) < cfg.max then cfg.max - Length(m, Pull(p, r)) else 0;
      && c == None
      && (Length(m, Shared(r)) < room ==> next == FillAgain(r, take))
      && (room == 0 ==> next == Releasing(take))
      && (0 < room <= Length(m, Shared(r)) ==> next == FillTail(r, room, take))
    case FillAgain(r, take) =>
      c == None && next == if Length(m, Shared(r)) == 0 then Releasing(take) else FillTail(r, Length(m, Shared(r)), take)
    case FillTail(r, k, take) => c == None && next.FillHead? && next.r == r && next.k == k && next.take == take
    case FillHead(r, k, _, take) => c == None && next.Walking? && next.r == r && next.k == k && next.i == 0 && next.take == take
    case Walking(r, k, _, _, i, take) =>
      if i + 1 < k then c == None && next.Walking? && next.r == r && next.k == k && next.i == i + 1 && next.take == take
      else c == Some(DoFill(p, r, cfg.max)) && next == Releasing(take)
    case Releasing(take) => c == None && next == (match take case None => Free case Some(r) => Taking(r))
    case Taking(r) => c == (if Length(m, Pull(p, r)) == 0 then None else Some(DoTake(p, r))) && next == Free
  }

  /** The records the steps read are the lists' lengths. */
  lemma LengthsAre(cfg: Config, w: World, p: nat)
    requires Inv(cfg, w) && p < cfg.procs == |w.pcs|
    ensures forall q :: 0 <= q < cfg.qs ==> Priv(w, Push(p, q)).size == Length(w.model, Push(p, q))
    ensures forall q :: 0 <= q < cfg.qs ==> Priv(w, Pull(p, q)).size == Length(w.model, Pull(p, q))
    ensures w.holder == Some(p) && w.pcs[p].Todo() == [] ==> forall q :: 0 <= q < cfg.qs ==> Load(w.mem, Size(q)) == Length(w.model, Shared(q))
  {
    hide Inv, Places, Priv, Load;
    FreshPlaces(cfg.procs, cfg.qs);
    forall q | 0 <= q < cfg.qs
      ensures Priv(w, Push(p, q)).size == Length(w.model, Push(p, q)) && Priv(w, Pull(p, q)).size == Length(w.model, Pull(p, q)) {
      PrivateSize(cfg, w, Push(p, q));
      PrivateSize(cfg, w, Pull(p, q));
    }
    if w.holder == Some(p) && w.pcs[p].Todo() == [] {
      forall q | 0 <= q < cfg.qs ensures Load(w.mem, Size(q)) == Length(w.model, Shared(q)) { FillSizes(cfg, w, p, q); }
    }
  }

  lemma StartStage(cfg: Config, w: World, turn: Turn)
    requires Inv(cfg, w) && turn.p < cfg.procs == |w.pcs| && (w.pcs[turn.p].Free? || w.pcs[turn.p].Doing?)
    ensures StageMoves(cfg, w, turn, Committed(cfg, w, turn), Stage(Advance(cfg, w, turn).pcs[turn.p]))
  {
    hide Settles, FreeCellsOk, Places, Region, Agree, Commit, Operate, LinkTodo, Priv, Load, Length;
    LengthsAre(cfg, w, turn.p);
    assert ProcOk(cfg, w, turn.p);
  }

  lemma CheckStage(cfg: Config, w: World, turn: Turn)
    requires Inv(cfg, w) && turn.p < cfg.procs == |w.pcs|
    requires w.pcs[turn.p].PushCheck? || w.pcs[turn.p].HybridCheck? || w.pcs[turn.p].Acquire? || w.pcs[turn.p].Releasing? || w.pcs[turn.p].Taking?
    ensures StageMoves(cfg, w, turn, Committed(cfg, w, turn), Stage(Advance(cfg, w, turn).pcs[turn.p]))
  {
    hide Settles, FreeCellsOk, Places, Region, Agree, Commit, TakeTodo, Priv, Load, Length;
    LengthsAre(cfg, w, turn.p);
    assert ProcOk(cfg, w, turn.p);
  }

  lemma FlushStage(cfg: Config, w: World, turn: Turn)
    requires Inv(cfg, w) && turn.p < cfg.procs == |w.pcs|
    requires var pc := w.pcs[turn.p]; pc.Splicing? || pc.FillSize? || pc.FillAgain? || pc.FillTail? || pc.FillHead? || pc.Walking?
    ensures StageMoves(cfg, w, turn, Committed(cfg, w, turn), Stage(Advance(cfg, w, turn).pcs[turn.p]))
  {
    hide Settles, FreeCellsOk, Places, Region, Agree, Commit, SpliceTodo, FillTodo, Priv, Load, Length;
    LengthsAre(cfg, w, turn.p);
    assert ProcOk(cfg, w, turn.p);
  }

  /** Every step is one between the stages. */
  lemma StageIs(cfg: Config, w: World, turn: Turn)
    requires Inv(cfg, w) && turn.p < cfg.procs
    ensures |w.pcs| == cfg.procs && cfg.max > 0
    ensures StageMoves(cfg, w, turn, Committed(cfg, w, turn), Stage(Advance(cfg, w, turn).pcs[turn.p]))
  {
    hide Settles, FreeCellsOk, ProcOk, Committed, Advance, StageMoves;
    match w.pcs[turn.p] {
      case Free => StartStage(cfg, w, turn);
      case Doing(_, _) => StartStage(cfg, w, turn);
      case PushCheck(_) => CheckStage(cfg, w, turn);
      case HybridCheck(_, _) => CheckStage(cfg, w, turn);
      case Acquire(_, _) => CheckStage(cfg, w, turn);
      case Releasing(_) => CheckStage(cfg, w, turn);
      case Taking(_) => CheckStage(cfg, w, turn);
      case _ => FlushStage(cfg, w, turn);
    }
  }

  // ---- Push pre-queues ----------------------------------------------------------------------------

  /** How long a process's push pre-queue for q may be at a stage of its call. */
  predicate ShortEnough(cfg: Config, stage: Pc, q: nat, n: nat) {
    match stage
    case Free => n < cfg.max
    case PushCheck(x) => n < cfg.max || (x == q && n == cfg.max)
    case HybridCheck(x, _) => n < cfg.max || (x == q && n == cfg.max)
    case Acquire(_, _) => n <= cfg.max
    case Splicing(x, _, _) => if q < x then n == 0 else n <= cfg.max
    case Taking(_) => n < cfg.max
    case _ => n == 0
  }

  ghost predicate PushesShort(cfg: Config, w: World, p: nat)
    requires p < |w.pcs|
  {
    forall q :: 0 <= q < cfg.qs ==> Push(p, q) in w.model.lists && ShortEnough(cfg, Stage(w.pcs[p]), q, |w.model.lists[Push(p, q)]|)
  }

  /** What a step does to its process's push pre-queues. */
  lemma PushStep(m: Model, s: Option<Step>, m': Model, p: nat, q: nat)
    requires Conserved(m) && Push(p, q) in m.lists
    requires s.None? ==> m' == m
    requires s.Some? ==> Enabled(m, s.value) && m' == Apply(m, s.value)
    ensures Push(p, q) in m'.lists
    ensures s.Some? && s.value.DoLink? && s.value.p == p && s.value.q == q ==> |m'.lists[Push(p, q)]| == |m.lists[Push(p, q)]| + 1
    ensures s.Some? && s.value.DoSplice? && s.value.p == p && s.value.q == q ==> m'.lists[Push(p, q)] == []
    ensures !(s.Some? && (s.value.DoLink? || s.value.DoSplice?) && s.value.p == p && s.value.q == q) ==> m'.lists[Push(p, q)] == m.lists[Push(p, q)]
  {
    hide Conserved, ListHas;
  }

  /** The same for the process whose step it is. */
  lemma OwnPushes(cfg: Config, w: World, turn: Turn, c: Option<Step>, next: Pc, q: nat, m': Model)
    requires turn.p < |w.pcs| && StageMoves(cfg, w, turn, c, next) && q < cfg.qs && cfg.max > 0
    requires Conserved(w.model) && Push(turn.p, q) in w.model.lists
    requires ShortEnough(cfg, Stage(w.pcs[turn.p]), q, |w.model.lists[Push(turn.p, q)]|)
    requires c.None? ==> m' == w.model
    requires c.Some? ==> Enabled(w.model, c.value) && m' == Apply(w.model, c.value)
    ensures Push(turn.p, q) in m'.lists && ShortEnough(cfg, next, q, |m'.lists[Push(turn.p, q)]|)
  {
    hide Legal, Conserved, Enabled, Apply;
    PushStep(w.model, c, m', turn.p, q);
  }

  /** A step of any process keeps every process's push pre-queues short. */
  lemma PushesStay(cfg: Config, w: World, turn: Turn, p: nat)
    requires Inv(cfg, w) && turn.p < cfg.procs && p < cfg.procs && |w.pcs| == cfg.procs && PushesShort(cfg, w, p)
    ensures PushesShort(cfg, Advance(cfg, w, turn), p)
  {
    hide Inv, Advance, Committed, Legal, Conserved, Enabled, Apply, StageMoves, ShortEnough;
    StageIs(cfg, w, turn);
    StepKeeps(cfg, w, turn);
    var w', c := Advance(cfg, w, turn), Committed(cfg, w, turn);
    CommitsOwn(cfg, w, turn);
    forall q | 0 <= q < cfg.qs
      ensures Push(p, q) in w'.model.lists && ShortEnough(cfg, Stage(w'.pcs[p]), q, |w'.model.lists[Push(p, q)]|) {
      if p == turn.p {
        OwnPushes(cfg, w, turn, c, Stage(w'.pcs[p]), q, w'.model);
      } else {
        PushStep(w.model, c, w'.model, p, q);
      }
    }
  }

  lemma {:induction false} RunPushes(cfg: Config, schedule: seq<Turn>, p: nat)
    requires ValidTurns(cfg, schedule) && p < cfg.procs
    ensures PushesShort(cfg, Exec(cfg, schedule), p)
  {
    hide Inv, Advance, PushesShort;
    if schedule == [] {
      StartPushes(cfg, p);
    } else {
      RunPushes(cfg, schedule[..|schedule| - 1], p);
      RunKeeps(cfg, schedule[..|schedule| - 1]);
      PushesStay(cfg, Exec(cfg, schedule[..|schedule| - 1]), schedule[|schedule| - 1], p);
    }
  }

  lemma StartPushes(cfg: Config, p: nat)
    requires ValidConfig(cfg) && p < cfg.procs
    ensures PushesShort(cfg, Start(cfg), p)
  {
    FreshPlaces(cfg.procs, cfg.qs);
  }

  /** In every interleaving, a process that is in no call has fewer than max items in each of its push pre-queues: a push
      that fills one has flushed it before it returns. */
  lemma FullPushesFlushed(cfg: Config, schedule: seq<Turn>, p: nat, q: nat)
    requires ValidTurns(cfg, schedule) && p < cfg.procs && q < cfg.qs && Exec(cfg, schedule).pcs[p].Free?
    ensures Push(p, q) in Exec(cfg, schedule).model.lists && |Exec(cfg, schedule).model.lists[Push(p, q)]| < cfg.max
  {
    hide Exec;
    RunPushes(cfg, schedule, p);
  }

  // ---- A pull on its way ---------------------------------------------------------------------------

  /** The process is in a call that will take from queue r. */
  predicate Aims(stage: Pc, r: nat) {
    match stage
    case HybridCheck(_, x) => x == r
    case Acquire(pull, take) => pull == Some(r) == take
    case Splicing(_, pull, take) => pull == Some(r) == take
    case FillSize(x, take) => x == r && take == Some(r)
    case FillAgain(x, take) => x == r && take == Some(r)
    case FillTail(x, _, take) => x == r && take == Some(r)
    case FillHead(x, _, _, take) => x == r && take == Some(r)
    case Walking(x, _, _, _, _, take) => x == r && take == Some(r)
    case Releasing(take) => take == Some(r)
    case Taking(x) => x == r
    case _ => false
  }

  /** The process holds the lock, and there is nothing in the shared queue or in its own pre-queues for it. */
  ghost predicate EmptyUnderLock(w: World, p: nat, r: nat) {
    && w.holder == Some(p) && Shared(r) in w.model.lists && Push(p, r) in w.model.lists && Pull(p, r) in w.model.lists
    && w.model.lists[Shared(r)] == [] && w.model.lists[Push(p, r)] == [] && w.model.lists[Pull(p, r)] == []
  }

  /** The process aims at r, and if it is past the refill with nothing to take, it has seen that there is nothing. */
  ghost predicate OnItsWay(w: World, p: nat, r: nat, seen: bool)
    requires p < |w.pcs|
  {
    var stage := Stage(w.pcs[p]);
    Aims(stage, r) && ((stage.Releasing? || stage.Taking?) && Length(w.model, Pull(p, r)) == 0 ==> seen)
  }

  /** What a step does to its process's pull pre-queues. */
  lemma PullStep(m: Model, s: Option<Step>, m': Model, p: nat, r: nat)
    requires Conserved(m) && Pull(p, r) in m.lists
    requires s.None? ==> m' == m
    requires s.Some? ==> Enabled(m, s.value) && m' == Apply(m, s.value)
    ensures Pull(p, r) in m'.lists
    ensures s.Some? && s.value.DoFill? && s.value.p == p && s.value.q == r && FillCount(m, p, r, s.value.max) > 0 ==> m'.lists[Pull(p, r)] != []
    ensures !(s.Some? && (s.value.DoFill? || s.value.DoTake?) && s.value.p == p && s.value.q == r) ==> m'.lists[Pull(p, r)] == m.lists[Pull(p, r)]
  {
    hide Conserved, ListHas;
  }

  /** The process's own next step: it takes, or it returns nothing having seen nothing, or it is still on its way. */
  lemma OwnWay(cfg: Config, w: World, turn: Turn, c: Option<Step>, next: Pc, r: nat, seen: bool, m': Model)
    requires turn.p < |w.pcs| && StageMoves(cfg, w, turn, c, next) && r < cfg.qs && cfg.max > 0 && OnItsWay(w, turn.p, r, seen)
    requires Conserved(w.model) && Pull(turn.p, r) in w.model.lists && Shared(r) in w.model.lists && Push(turn.p, r) in w.model.lists
    requires ShortEnough(cfg, Stage(w.pcs[turn.p]), r, |w.model.lists[Push(turn.p, r)]|)
    requires w.pcs[turn.p].FillAgain? ==> w.holder == Some(turn.p)
    requires w.pcs[turn.p].Walking? ==> FillCount(w.model, turn.p, r, cfg.max) > 0
    requires c.None? ==> m' == w.model
    requires c.Some? ==> Enabled(w.model, c.value) && m' == Apply(w.model, c.value)
    ensures c == Some(DoTake(turn.p, r)) ||
            (next.Free? && seen) ||
            (Aims(next, r) && ((next.Releasing? || next.Taking?) && Length(m', Pull(turn.p, r)) == 0 ==> seen || EmptyUnderLock(w, turn.p, r)))
  {
    hide Legal, Conserved, Enabled, Apply, FillCount;
    PullStep(w.model, c, m', turn.p, r);
  }

  /** What the stages of a refill rely on. */
  lemma RefillFacts(cfg: Config, w: World, p: nat)
    requires Inv(cfg, w) && p < cfg.procs
    ensures |w.pcs| == cfg.procs && Conserved(w.model)
    ensures forall q :: 0 <= q < cfg.qs ==> Shared(q) in w.model.lists && Push(p, q) in w.model.lists && Pull(p, q) in w.model.lists
    ensures w.pcs[p].FillAgain? ==> w.holder == Some(p)
    ensures w.pcs[p].Walking? ==> w.pcs[p].r < cfg.qs && FillCount(w.model, p, w.pcs[p].r, cfg.max) > 0
  {
    hide Settles, FreeCellsOk, Places, Region, Agree;
    FreshPlaces(cfg.procs, cfg.qs);
    SettlesConserved(cfg, w);
    assert ProcOk(cfg, w, p);
  }

  /** A step of any process, while p aims at r. */
  lemma WayStep(cfg: Config, w: World, turn: Turn, p: nat, r: nat, seen: bool)
    requires Inv(cfg, w) && turn.p < cfg.procs && p < cfg.procs && |w.pcs| == cfg.procs && r < cfg.qs
    requires PushesShort(cfg, w, p) && OnItsWay(w, p, r, seen)
    ensures var w' := Advance(cfg, w, turn);
            || Committed(cfg, w, turn) == Some(DoTake(p, r))
            || (w'.pcs[p].Free? && seen)
            || OnItsWay(w', p, r, seen || EmptyUnderLock(w, p, r))
  {
    hide Inv, Advance, Committed, Legal, Conserved, Enabled, Apply, StageMoves, ShortEnough, FillCount;
    StageIs(cfg, w, turn);
    StepKeeps(cfg, w, turn);
    CommitsOwn(cfg, w, turn);
    RefillFacts(cfg, w, p);
    var w', c := Advance(cfg, w, turn), Committed(cfg, w, turn);
    if p == turn.p {
      assert w.pcs[p].Walking? ==> w.pcs[p].r == r;
      OwnWay(cfg, w, turn, c, Stage(w'.pcs[p]), r, seen, w'.model);
      if Stage(w'.pcs[p]).Free? && c != Some(DoTake(p, r)) { ReturnsNothing(cfg, w, turn, r, seen); }
    } else {
      PullStep(w.model, c, w'.model, p, r);
    }
  }

  /** A pull that takes nothing has nothing left to store. */
  lemma ReturnsNothing(cfg: Config, w: World, turn: Turn, r: nat, seen: bool)
    requires Inv(cfg, w) && turn.p < cfg.procs == |w.pcs| && r < cfg.qs && OnItsWay(w, turn.p, r, seen)
    requires Committed(cfg, w, turn) != Some(DoTake(turn.p, r)) && Stage(Advance(cfg, w, turn).pcs[turn.p]).Free?
    ensures Advance(cfg, w, turn).pcs[turn.p].Free?
  {
    hide Settles, FreeCellsOk, Places, Region, Agree, Commit, Operate, LinkTodo, SpliceTodo, FillTodo, TakeTodo, Priv, Load, Length;
    assert ProcOk(cfg, w, turn.p);
  }

  // ---- What a call answers ---------------------------------------------------------------------------

  /** A call that takes from queue r before it returns. */
  predicate PullsFrom(call: Call, r: nat) {
    match call
    case PullCall(x) => x == r
    case HybridCall(_, _, x) => x == r
    case _ => false
  }

  /** By the turns more after start, process p took an item from queue r. */
  ghost predicate TookIn(cfg: Config, start: seq<Turn>, more: seq<Turn>, p: nat, r: nat)
    requires ValidTurns(cfg, start + more)
  {
    exists j :: |start| <= j < |start + more| && TookAt(cfg, start + more, j, p, r)
  }

  ghost predicate TookAt(cfg: Config, schedule: seq<Turn>, j: nat, p: nat, r: nat)
    requires ValidTurns(cfg, schedule) && j < |schedule|
  {
    Committed(cfg, Exec(cfg, schedule[..j]), schedule[j]) == Some(DoTake(p, r))
  }

  /** By the turns more after start, process p held the lock at a moment when there was nothing to take. */
  ghost predicate SawEmptyIn(cfg: Config, start: seq<Turn>, more: seq<Turn>, p: nat, r: nat)
    requires ValidTurns(cfg, start + more)
  {
    exists j :: |start| <= j < |start + more| && SawEmptyAt(cfg, start + more, j, p, r)
  }

  ghost predicate SawEmptyAt(cfg: Config, schedule: seq<Turn>, j: nat, p: nat, r: nat)
    requires ValidTurns(cfg, schedule) && j <= |schedule|
  {
    EmptyUnderLock(Exec(cfg, schedule[..j]), p, r)
  }

  /** Process p is in a call all the time from after start to before the last of the turns more. */
  ghost predicate InCall(cfg: Config, start: seq<Turn>, more: seq<Turn>, p: nat)
    requires ValidTurns(cfg, start + more) && p < cfg.procs
  {
    forall j :: |start| <= j < |start + more| ==> !Exec(cfg, (start + more)[..j]).pcs[p].Free?
  }

  lemma CallStarts(cfg: Config, w: World, turn: Turn, r: nat)
    requires Inv(cfg, w) && turn.p < cfg.procs == |w.pcs| && r < cfg.qs && w.pcs[turn.p].Free?
    requires PullsFrom(turn.call, r) && Legal(cfg, w, turn.p, turn.call)
    ensures OnItsWay(Advance(cfg, w, turn), turn.p, r, false)
  {
    hide Inv, Advance, Committed, Legal, Conserved, Enabled, Apply;
    StageIs(cfg, w, turn);
    StepKeeps(cfg, w, turn);
  }

  /** What happened by a turn of a schedule happened by that turn of every longer one. */
  lemma AtLonger(cfg: Config, schedule: seq<Turn>, longer: seq<Turn>, j: nat, p: nat, r: nat)
    requires ValidTurns(cfg, longer) && schedule <= longer && j < |schedule|
    ensures ValidTurns(cfg, schedule)
    ensures TookAt(cfg, schedule, j, p, r) ==> TookAt(cfg, longer, j, p, r)
    ensures SawEmptyAt(cfg, schedule, j, p, r) ==> SawEmptyAt(cfg, longer, j, p, r)
    ensures Exec(cfg, schedule[..j]) == Exec(cfg, longer[..j])
  {
    hide Exec, Committed, EmptyUnderLock;
    assert schedule[..j] == longer[..j];
  }

  lemma AtLast(cfg: Config, schedule: seq<Turn>, turn: Turn, p: nat, r: nat)
    requires ValidTurns(cfg, schedule + [turn])
    ensures ValidTurns(cfg, schedule) && turn.p < cfg.procs
    ensures Exec(cfg, schedule + [turn]) == Advance(cfg, Exec(cfg, schedule), turn)
    ensures Committed(cfg, Exec(cfg, schedule), turn) == Some(DoTake(p, r)) ==> TookAt(cfg, schedule + [turn], |schedule|, p, r)
    ensures EmptyUnderLock(Exec(cfg, schedule), p, r) ==> SawEmptyAt(cfg, schedule + [turn], |schedule|, p, r)
  {
    hide Advance, Committed, EmptyUnderLock;
    var s := schedule + [turn];
    assert s[|schedule|] == turn && s[..|schedule|] == schedule;
  }

  /** One more turn of the call. */
  lemma SoFar(cfg: Config, start: seq<Turn>, more: seq<Turn>, turn: Turn, p: nat, r: nat)
    requires ValidTurns(cfg, start + (more + [turn])) && p < cfg.procs
    ensures ValidTurns(cfg, start + more) && turn.p < cfg.procs
    ensures Exec(cfg, start + (more + [turn])) == Advance(cfg, Exec(cfg, start + more), turn)
    ensures TookIn(cfg, start, more, p, r) || Committed(cfg, Exec(cfg, start + more), turn) == Some(DoTake(p, r)) ==>
              TookIn(cfg, start, more + [turn], p, r)
    ensures SawEmptyIn(cfg, start, more, p, r) || EmptyUnderLock(Exec(cfg, start + more), p, r) ==> SawEmptyIn(cfg, start, more + [turn], p, r)
    ensures InCall(cfg, start, more + [turn], p) ==> InCall(cfg, start, more, p) && !Exec(cfg, start + more).pcs[p].Free?
  {
    hide Exec, Advance, Committed, EmptyUnderLock, TookAt, SawEmptyAt;
    var s := start + (more + [turn]);
    assert s == (start + more) + [turn];
    assert s[..|start + more|] == start + more;
    AtLast(cfg, start + more, turn, p, r);
    forall j | 0 <= j < |start + more|
      ensures TookAt(cfg, start + more, j, p, r) ==> TookAt(cfg, s, j, p, r)
      ensures SawEmptyAt(cfg, start + more, j, p, r) ==> SawEmptyAt(cfg, s, j, p, r)
      ensures Exec(cfg, (start + more)[..j]) == Exec(cfg, s[..j]) {
      AtLonger(cfg, start + more, s, j, p, r);
    }
  }

  lemma {:induction false} CallProgress(cfg: Config, before: seq<Turn>, turn: Turn, more: seq<Turn>, r: nat)
    requires ValidTurns(cfg, before + [turn] + more) && ValidTurns(cfg, before) && turn.p < cfg.procs && r < cfg.qs
    requires Exec(cfg, before).pcs[turn.p].Free? && PullsFrom(turn.call, r) && Legal(cfg, Exec(cfg, before), turn.p, turn.call)
    requires InCall(cfg, before + [turn], more, turn.p)
    ensures var start, w := before + [turn], Exec(cfg, before + [turn] + more);
            || TookIn(cfg, start, more, turn.p, r)
            || (w.pcs[turn.p].Free? && SawEmptyIn(cfg, start, more, turn.p, r))
            || OnItsWay(w, turn.p, r, SawEmptyIn(cfg, start, more, turn.p, r))
    decreases |more|
  {
    hide Advance, Committed, Legal, Inv, OnItsWay, TookIn, SawEmptyIn, InCall, EmptyUnderLock, PushesShort;
    var start, p := before + [turn], turn.p;
    if more == [] {
      assert start + [] == start && start[..|before|] == before;
      RunKeeps(cfg, before);
      CallStarts(cfg, Exec(cfg, before), turn, r);
      SeenMore(Exec(cfg, start), p, r, false, SawEmptyIn(cfg, start, more, p, r));
    } else {
      var m := |more| - 1;
      var sofar, last := start + more[..m], more[m];
      assert more[..m] + [last] == more;
      SoFar(cfg, start, more[..m], last, p, r);
      CallProgress(cfg, before, turn, more[..m], r);
      if OnItsWay(Exec(cfg, sofar), p, r, SawEmptyIn(cfg, start, more[..m], p, r)) {
        RunKeeps(cfg, sofar);
        RunPushes(cfg, sofar, p);
        WayStep(cfg, Exec(cfg, sofar), last, p, r, SawEmptyIn(cfg, start, more[..m], p, r));
        SeenMore(Exec(cfg, start + more), p, r,
                 SawEmptyIn(cfg, start, more[..m], p, r) || EmptyUnderLock(Exec(cfg, sofar), p, r), SawEmptyIn(cfg, start, more, p, r));
      }
    }
  }

  lemma SeenMore(w: World, p: nat, r: nat, seen: bool, seen': bool)
    requires p < |w.pcs| && (seen ==> seen')
    ensures OnItsWay(w, p, r, seen) ==> OnItsWay(w, p, r, seen')
  {
  }

  /** In every interleaving: a pull or hybrid call that has returned took an item, unless at a moment of that same call its
      process held the lock while the shared queue and both its own pre-queues for it were empty. */
  lemma NothingMeansEmpty(cfg: Config, before: seq<Turn>, turn: Turn, more: seq<Turn>, r: nat)
    requires ValidTurns(cfg, before + [turn] + more) && ValidTurns(cfg, before) && turn.p < cfg.procs && r < cfg.qs
    requires Exec(cfg, before).pcs[turn.p].Free? && PullsFrom(turn.call, r) && Legal(cfg, Exec(cfg, before), turn.p, turn.call)
    requires InCall(cfg, before + [turn], more, turn.p) && Exec(cfg, before + [turn] + more).pcs[turn.p].Free?
    ensures TookIn(cfg, before + [turn], more, turn.p, r) || SawEmptyIn(cfg, before + [turn], more, turn.p, r)
  {
    hide Exec, Legal, InCall, TookIn, SawEmptyIn;
    CallProgress(cfg, before, turn, more, r);
  }
}
