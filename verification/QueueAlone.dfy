/** A process whose call meets nobody in its way: the interleaved steps of the call, one after another, do exactly what the
    call does as a whole, and they end. */
module QueueAlone {
  import opened Common
  import opened QueueModel
  import opened QueueChains
  import opened QueueSet
  import opened QueueMachine
  import opened QueueRuns
  import opened QueueSchedules
  import opened QueueAnswers

  /** n turns of one process. */
  ghost function Alone(cfg: Config, w: World, p: nat, n: nat): (w': World)
    requires p < |w.pcs|
    ensures |w'.pcs| == |w.pcs|
  {
    if n == 0 then w else Advance(cfg, Alone(cfg, w, p, n - 1), Turn(p, NoCall))
  }

  lemma {:induction false} AloneAdd(cfg: Config, w: World, p: nat, m: nat, n: nat)
    requires p < |w.pcs|
    ensures Alone(cfg, Alone(cfg, w, p, m), p, n) == Alone(cfg, w, p, m + n)
  {
    hide Advance;
    if n > 0 { AloneAdd(cfg, w, p, m, n - 1); }
  }

  /** Turns of process p alone lead from w to w'. */
  ghost predicate Leads(cfg: Config, w: World, p: nat, w': World)
    requires p < |w.pcs|
  {
    exists n: nat :: Alone(cfg, w, p, n) == w'
  }

  lemma LeadsNext(cfg: Config, w: World, p: nat, w1: World, w2: World)
    requires p < |w.pcs| == |w1.pcs| && Leads(cfg, w, p, w1) && Leads(cfg, w1, p, w2)
    ensures Leads(cfg, w, p, w2)
  {
    hide Alone;
    var m: nat :| Alone(cfg, w, p, m) == w1;
    var n: nat :| Alone(cfg, w1, p, n) == w2;
    AloneAdd(cfg, w, p, m, n);
  }

  lemma LeadsOne(cfg: Config, w: World, p: nat)
    requires p < |w.pcs|
    ensures Leads(cfg, w, p, w) && Leads(cfg, w, p, Advance(cfg, w, Turn(p, NoCall)))
  {
    assert Alone(cfg, w, p, 0) == w;
    assert Alone(cfg, w, p, 1) == Advance(cfg, Alone(cfg, w, p, 0), Turn(p, NoCall));
  }

  // ---- One step, and the stores behind it -----------------------------------------------------------

  /** The model after a step that commits c. */
  ghost function After(m: Model, c: Option<Step>): Model
    requires Conserved(m) && (c.Some? ==> Enabled(m, c.value))
  {
    match c case None => m case Some(s) => Apply(m, s)
  }

  /** The stores left are done one after another; nothing else changes. */
  lemma {:induction false} StoresEnd(cfg: Config, w: World, p: nat) returns (w': World)
    requires Inv(cfg, w) && p < cfg.procs == |w.pcs|
    ensures |w'.pcs| == |w.pcs| && Leads(cfg, w, p, w') && Inv(cfg, w')
    ensures w'.pcs[p] == Stage(w.pcs[p]) && w'.model == w.model && w'.holder == w.holder
    decreases Cost(w.pcs[p].Todo())
  {
    hide Inv, Leads, Operate, Cost;
    LeadsOne(cfg, w, p);
    w' := w;
    if w.pcs[p].Doing? {
      var turn := Turn(p, NoCall);
      InvPcs(cfg, w, p);
      StepKeeps(cfg, w, turn);
      var w1 := Advance(cfg, w, turn);
      assert w1.model == w.model && w1.holder == w.holder;
      OperateCost(w.mem, w.pcs[p].todo);
      DoneOrDoing(cfg, w, p);
      if w1.pcs[p].Doing? {
        w' := StoresEnd(cfg, w1, p);
        LeadsNext(cfg, w, p, w1, w');
      } else {
        w' := w1;
      }
    }
  }

  lemma DoneOrDoing(cfg: Config, w: World, p: nat)
    requires Inv(cfg, w) && p < cfg.procs == |w.pcs| && w.pcs[p].Doing? && w.pcs[p].todo != []
    ensures var pc := Advance(cfg, w, Turn(p, NoCall)).pcs[p];
            pc == Do(Operate(w.mem, w.pcs[p].todo).1, w.pcs[p].after) && Stage(pc) == w.pcs[p].after
  {
    hide Settles, FreeCellsOk, Region, Agree;
    assert ProcOk(cfg, w, p);
  }

  /** A step and its stores: the process is at the next stage, and the model has moved by the step committed. */
  lemma WholeStep(cfg: Config, w: World, p: nat) returns (w': World)
    requires Inv(cfg, w) && p < cfg.procs == |w.pcs| && !w.pcs[p].Free? && !w.pcs[p].Doing?
    ensures Conserved(w.model)
    ensures var c := Committed(cfg, w, Turn(p, NoCall)); (c.Some? ==> Enabled(w.model, c.value)) && w'.model == After(w.model, c)
    ensures |w'.pcs| == |w.pcs| && Leads(cfg, w, p, w') && Inv(cfg, w') && !w'.pcs[p].Doing?
    ensures StageMoves(cfg, w, Turn(p, NoCall), Committed(cfg, w, Turn(p, NoCall)), w'.pcs[p])
    ensures w'.holder == if w.pcs[p].Acquire? && w.holder.None? then Some(p) else if w.pcs[p].Releasing? then None else w.holder
  {
    hide Inv, Leads, Advance, Committed, StageMoves, Conserved, Enabled, Apply;
    var turn := Turn(p, NoCall);
    StageIs(cfg, w, turn);
    StepKeeps(cfg, w, turn);
    var w1 := Advance(cfg, w, turn);
    LeadsOne(cfg, w, p);
    w' := StoresEnd(cfg, w1, p);
    LeadsNext(cfg, w, p, w1, w');
    HolderAfter(cfg, w, p);
    StageDone(cfg, w1, p);
  }

  lemma StageDone(cfg: Config, w: World, p: nat)
    requires Inv(cfg, w) && p < cfg.procs == |w.pcs|
    ensures !Stage(w.pcs[p]).Doing?
  {
    hide Settles, FreeCellsOk, Region, Agree;
    assert ProcOk(cfg, w, p);
  }

  lemma HolderAfter(cfg: Config, w: World, p: nat)
    requires p < |w.pcs| && !w.pcs[p].Free?
    ensures Advance(cfg, w, Turn(p, NoCall)).holder ==
            if w.pcs[p].Acquire? && w.holder.None? then Some(p) else if w.pcs[p].Releasing? then None else w.holder
  {
    hide Operate, LinkTodo, SpliceTodo, FillTodo, TakeTodo, Priv, Load;
  }

  // ---- The flush --------------------------------------------------------------------------------------

  ghost predicate Usable(cfg: Config, m: Model, p: nat) {
    Conserved(m) && Uses(m, p, cfg.qs)
  }

  lemma UsableHere(cfg: Config, w: World, p: nat)
    requires Inv(cfg, w) && p < cfg.procs
    ensures Usable(cfg, w.model, p) && |w.pcs| == cfg.procs && cfg.max > 0
  {
    hide Settles, FreeCellsOk, ProcOk, Places, Conserved;
    FreshPlaces(cfg.procs, cfg.qs);
    SettlesConserved(cfg, w);
  }

  /** Splicing an empty push pre-queue, or not splicing it, is the same. */
  lemma SpliceEmpty(m: Model, p: nat, q: nat)
    requires Conserved(m) && Enabled(m, DoSplice(p, q)) && m.lists[Push(p, q)] == []
    ensures Apply(m, DoSplice(p, q)) == m
  {
    TransferNothing(m, Push(p, q), Shared(q));
  }

  /** The same for a refill that moves nothing. */
  lemma FillNothing(m: Model, p: nat, r: nat, max: nat)
    requires Conserved(m) && Enabled(m, DoFill(p, r, max)) && FillCount(m, p, r, max) == 0
    ensures Apply(m, DoFill(p, r, max)) == m
  {
    TransferNothing(m, Shared(r), Pull(p, r));
  }

  lemma SplicesAlone(cfg: Config, w: World, p: nat, m0: Model) returns (w': World)
    requires Inv(cfg, w) && p < cfg.procs == |w.pcs| && w.pcs[p].Splicing? && w.pcs[p].q <= cfg.qs
    requires Usable(cfg, m0, p) && w.model == SpliceAll(m0, p, w.pcs[p].q)
    ensures |w'.pcs| == |w.pcs| && Leads(cfg, w, p, w') && Inv(cfg, w') && w'.holder == w.holder
    ensures w'.pcs[p] == match w.pcs[p].pull case None => Releasing(w.pcs[p].take) case Some(r) => FillSize(r, w.pcs[p].take)
    ensures w'.model == SpliceAll(m0, p, cfg.qs)
    decreases cfg.qs - w.pcs[p].q
  {
    hide Inv, Leads, Committed, Conserved, Enabled, Apply, Length;
    var q := w.pcs[p].q;
    UsableHere(cfg, w, p);
    var w1 := WholeStep(cfg, w, p);
    w' := w1;
    if q < cfg.qs {
      LengthIs(w.model, Push(p, q));
      if Length(w.model, Push(p, q)) == 0 {
        MaySplice(cfg, w.model, p, q);
        SpliceEmpty(w.model, p, q);
      }
      w' := SplicesAlone(cfg, w1, p, m0);
      LeadsNext(cfg, w, p, w1, w');
    }
  }

  lemma LengthIs(m: Model, l: Place)
    requires l in m.lists
    ensures Length(m, l) == |m.lists[l]|
  {
  }

  lemma MaySplice(cfg: Config, m: Model, p: nat, q: nat)
    requires Usable(cfg, m, p) && q < cfg.qs
    ensures Enabled(m, DoSplice(p, q)) && Enabled(m, DoFill(p, q, cfg.max))
  {
    hide Conserved;
  }

  lemma WalkAlone(cfg: Config, w: World, p: nat) returns (w': World)
    requires Inv(cfg, w) && p < cfg.procs == |w.pcs| && w.pcs[p].Walking? && w.pcs[p].r < cfg.qs
    ensures |w'.pcs| == |w.pcs| && Leads(cfg, w, p, w') && Inv(cfg, w') && w'.holder == w.holder
    ensures w'.pcs[p] == Releasing(w.pcs[p].take)
    ensures Usable(cfg, w.model, p) && Enabled(w.model, DoFill(p, w.pcs[p].r, cfg.max)) && w'.model == Apply(w.model, DoFill(p, w.pcs[p].r, cfg.max))
    decreases if w.pcs[p].k > w.pcs[p].i then w.pcs[p].k - w.pcs[p].i else 0
  {
    hide Inv, Leads, Committed, Usable, Conserved, Enabled, Apply, Length;
    UsableHere(cfg, w, p);
    MaySplice(cfg, w.model, p, w.pcs[p].r);
    w' := WholeStep(cfg, w, p);
    if w'.pcs[p].Walking? {
      var w1 := w';
      w' := WalkAlone(cfg, w1, p);
      LeadsNext(cfg, w, p, w1, w');
    }
  }

  lemma FillAlone(cfg: Config, w: World, p: nat) returns (w': World)
    requires Inv(cfg, w) && p < cfg.procs == |w.pcs| && w.pcs[p].FillSize? && w.pcs[p].r < cfg.qs
    ensures |w'.pcs| == |w.pcs| && Leads(cfg, w, p, w') && Inv(cfg, w') && w'.holder == w.holder
    ensures w'.pcs[p] == Releasing(w.pcs[p].take)
    ensures Usable(cfg, w.model, p) && Enabled(w.model, DoFill(p, w.pcs[p].r, cfg.max)) && w'.model == Apply(w.model, DoFill(p, w.pcs[p].r, cfg.max))
  {
    hide Inv, Leads, Committed, Usable, Conserved, Enabled, Apply;
    UsableHere(cfg, w, p);
    var r := w.pcs[p].r;
    MaySplice(cfg, w.model, p, r);
    CommitsNothing(cfg, w, p);
    w' := WholeStep(cfg, w, p);
    if w'.pcs[p].FillAgain? {
      CommitsNothing(cfg, w', p);
      var w1 := w';
      w' := WholeStep(cfg, w1, p);
      LeadsNext(cfg, w, p, w1, w');
    }
    if w'.pcs[p].Releasing? {
      assert FillCount(w.model, p, r, cfg.max) == 0 by { UsableLists(cfg, w.model, p, r); }
      FillNothing(w.model, p, r, cfg.max);
    } else {
      var w2 := WholeStep(cfg, w', p);
      LeadsNext(cfg, w, p, w', w2);
      var w3 := WholeStep(cfg, w2, p);
      LeadsNext(cfg, w, p, w2, w3);
      w' := WalkAlone(cfg, w3, p);
      LeadsNext(cfg, w, p, w3, w');
    }
  }

  lemma CommitsNothing(cfg: Config, w: World, p: nat)
    requires p < |w.pcs| && (w.pcs[p].FillSize? || w.pcs[p].FillAgain?)
    ensures Committed(cfg, w, Turn(p, NoCall)) == None
  {
  }

  lemma UsableLists(cfg: Config, m: Model, p: nat, r: nat)
    requires Usable(cfg, m, p) && r < cfg.qs
    ensures Shared(r) in m.lists && Pull(p, r) in m.lists && Push(p, r) in m.lists
  {
    hide Conserved;
  }

  /** Taking the lock, flushing, giving it back. */
  lemma FlushAlone(cfg: Config, w: World, p: nat) returns (w': World)
    requires Inv(cfg, w) && p < cfg.procs == |w.pcs| && w.pcs[p].Acquire? && w.holder.None?
    requires w.pcs[p].pull.Some? ==> w.pcs[p].pull.value < cfg.qs
    ensures |w'.pcs| == |w.pcs| && Leads(cfg, w, p, w') && Inv(cfg, w') && w'.holder.None?
    ensures w'.pcs[p] == match w.pcs[p].take case None => Free case Some(r) => Taking(r)
    ensures Usable(cfg, w.model, p) && w'.model == Flush(w.model, p, cfg.qs, w.pcs[p].pull, cfg.max)
  {
    hide Inv, Leads, Conserved, Enabled, Apply;
    UsableHere(cfg, w, p);
    var w1 := WholeStep(cfg, w, p);
    var w2 := SplicesAlone(cfg, w1, p, w.model);
    LeadsNext(cfg, w, p, w1, w2);
    var w3 := w2;
    if w.pcs[p].pull.Some? {
      w3 := FillAlone(cfg, w2, p);
      LeadsNext(cfg, w, p, w2, w3);
    }
    w' := WholeStep(cfg, w3, p);
    LeadsNext(cfg, w, p, w3, w');
  }

  lemma TakeAlone(cfg: Config, w: World, p: nat) returns (w': World)
    requires Inv(cfg, w) && p < cfg.procs == |w.pcs| && w.pcs[p].Taking? && w.pcs[p].r < cfg.qs
    ensures |w'.pcs| == |w.pcs| && Leads(cfg, w, p, w') && Inv(cfg, w') && w'.holder == w.holder && w'.pcs[p].Free?
    ensures Usable(cfg, w.model, p) && Pull(p, w.pcs[p].r) in w.model.lists && w'.model == Take(w.model, p, w.pcs[p].r).0
  {
    hide Inv, Leads, Committed, Conserved, Apply, Usable;
    UsableHere(cfg, w, p);
    UsableLists(cfg, w.model, p, w.pcs[p].r);
    w' := WholeStep(cfg, w, p);
  }

  // ---- The calls ------------------------------------------------------------------------------------------

  /** The first step of a call, with its stores. */
  lemma CallStep(cfg: Config, w: World, turn: Turn) returns (w': World)
    requires Inv(cfg, w) && turn.p < cfg.procs == |w.pcs| && w.pcs[turn.p].Free?
    ensures |w'.pcs| == |w.pcs| == |Advance(cfg, w, turn).pcs| && Leads(cfg, Advance(cfg, w, turn), turn.p, w')
    ensures Inv(cfg, w') && !w'.pcs[turn.p].Doing?
    ensures Conserved(w.model) && var c := Committed(cfg, w, turn); (c.Some? ==> Enabled(w.model, c.value)) && w'.model == After(w.model, c)
    ensures StageMoves(cfg, w, turn, Committed(cfg, w, turn), w'.pcs[turn.p]) && w'.holder == w.holder
  {
    hide Inv, Leads, Advance, Committed, StageMoves, Conserved, Enabled, Apply;
    StageIs(cfg, w, turn);
    StepKeeps(cfg, w, turn);
    var w1 := Advance(cfg, w, turn);
    w' := StoresEnd(cfg, w1, turn.p);
    StageDone(cfg, w1, turn.p);
    CallHolds(cfg, w, turn);
  }

  lemma CallHolds(cfg: Config, w: World, turn: Turn)
    requires turn.p < |w.pcs| && w.pcs[turn.p].Free?
    ensures Advance(cfg, w, turn).holder == w.holder
  {
    hide LinkTodo, Priv;
  }

  /** A pull by a process that meets nobody in its way is the whole pull: if its pre-queue is not empty it needs no lock. */
  lemma PullAlone(cfg: Config, w: World, p: nat, r: nat) returns (w': World)
    requires Inv(cfg, w) && p < cfg.procs == |w.pcs| && r < cfg.qs && w.pcs[p].Free?
    requires w.holder.None? || Length(w.model, Pull(p, r)) > 0
    ensures |w'.pcs| == |w.pcs| == |Advance(cfg, w, Turn(p, PullCall(r))).pcs|
    ensures Leads(cfg, Advance(cfg, w, Turn(p, PullCall(r))), p, w') && Inv(cfg, w')
    ensures w'.pcs[p].Free? && w'.holder == w.holder
    ensures Usable(cfg, w.model, p) && w'.model == PullTail(w.model, p, cfg.qs, cfg.max, r).0
  {
    hide Inv, Leads, Advance, Conserved, Apply, Flush, Take;
    var turn := Turn(p, PullCall(r));
    UsableHere(cfg, w, p);
    LengthIs(w.model, Pull(p, r));
    var w1 := CallStep(cfg, w, turn);
    var w2 := w1;
    if w1.pcs[p].Acquire? {
      w2 := FlushAlone(cfg, w1, p);
      LeadsNext(cfg, Advance(cfg, w, turn), p, w1, w2);
    }
    w' := TakeAlone(cfg, w2, p);
    LeadsNext(cfg, Advance(cfg, w, turn), p, w2, w');
  }

  /** The same for a push, which needs the lock only when it fills its pre-queue. */
  lemma PushAlone(cfg: Config, w: World, p: nat, q: nat, i: nat) returns (w': World)
    requires Inv(cfg, w) && p < cfg.procs == |w.pcs| && q < cfg.qs && w.pcs[p].Free? && MayPush(w.model, p, Some(i))
    requires w.holder.None? || Length(w.model, Push(p, q)) + 1 < cfg.max
    ensures |w'.pcs| == |w.pcs| == |Advance(cfg, w, Turn(p, PushCall(q, i))).pcs|
    ensures Leads(cfg, Advance(cfg, w, Turn(p, PushCall(q, i))), p, w') && Inv(cfg, w')
    ensures w'.pcs[p].Free? && w'.holder == w.holder
    ensures Usable(cfg, w.model, p) && w'.model == PushHead(w.model, p, cfg.qs, cfg.max, q, Some(i))
  {
    hide Inv, Leads, Advance, Conserved, Apply, Flush;
    var turn := Turn(p, PushCall(q, i));
    UsableHere(cfg, w, p);
    var w1 := CallStep(cfg, w, turn);
    UsableHere(cfg, w1, p);
    LinkLength(w.model, p, q, i);
    LengthIs(w.model, Push(p, q));
    LengthIs(w1.model, Push(p, q));
    var w2 := WholeStep(cfg, w1, p);
    LeadsNext(cfg, Advance(cfg, w, turn), p, w1, w2);
    w' := w2;
    if w2.pcs[p].Acquire? {
      w' := FlushAlone(cfg, w2, p);
      LeadsNext(cfg, Advance(cfg, w, turn), p, w2, w');
    }
  }

  lemma LinkLength(m: Model, p: nat, q: nat, i: nat)
    requires Conserved(m) && Enabled(m, DoLink(p, q, i))
    ensures Push(p, q) in Apply(m, DoLink(p, q, i)).lists && |Apply(m, DoLink(p, q, i)).lists[Push(p, q)]| == |m.lists[Push(p, q)]| + 1
  {
    hide Conserved;
  }

  /** And for the hybrid call. */
  lemma HybridAlone(cfg: Config, w: World, p: nat, q: nat, item: Option<nat>, r: nat) returns (w': World)
    requires Inv(cfg, w) && p < cfg.procs == |w.pcs| && q < cfg.qs && r < cfg.qs && w.pcs[p].Free? && MayPush(w.model, p, item)
    requires w.holder.None?
    ensures |w'.pcs| == |w.pcs| == |Advance(cfg, w, Turn(p, HybridCall(q, item, r))).pcs|
    ensures Leads(cfg, Advance(cfg, w, Turn(p, HybridCall(q, item, r))), p, w') && Inv(cfg, w')
    ensures w'.pcs[p].Free? && w'.holder.None?
    ensures Usable(cfg, w.model, p) && w'.model == PushHeadPullTail(w.model, p, cfg.qs, cfg.max, q, item, r).0
  {
    hide Inv, Leads, Advance, Conserved, Apply, Flush, Take;
    var turn := Turn(p, HybridCall(q, item, r));
    UsableHere(cfg, w, p);
    var w1 := CallStep(cfg, w, turn);
    UsableHere(cfg, w1, p);
    LengthIs(w1.model, Push(p, q));
    LengthIs(w1.model, Pull(p, r));
    var w2 := WholeStep(cfg, w1, p);
    LeadsNext(cfg, Advance(cfg, w, turn), p, w1, w2);
    var w3 := w2;
    if w2.pcs[p].Acquire? {
      w3 := FlushAlone(cfg, w2, p);
      LeadsNext(cfg, Advance(cfg, w, turn), p, w2, w3);
    }
    w' := TakeAlone(cfg, w3, p);
    LeadsNext(cfg, Advance(cfg, w, turn), p, w3, w');
  }

  // ---- In a run ---------------------------------------------------------------------------------------------

  /** n turns of process p. */
  function Turns(p: nat, n: nat): (s: seq<Turn>)
    ensures |s| == n && forall k :: 0 <= k < n ==> s[k] == Turn(p, NoCall)
  {
    seq(n, i => Turn(p, NoCall))
  }

  lemma {:induction false} AloneInRun(cfg: Config, schedule: seq<Turn>, p: nat, n: nat)
    requires ValidTurns(cfg, schedule) && p < cfg.procs
    ensures ValidTurns(cfg, schedule + Turns(p, n)) && Exec(cfg, schedule + Turns(p, n)) == Alone(cfg, Exec(cfg, schedule), p, n)
  {
    hide Advance;
    var s := schedule + Turns(p, n);
    if n == 0 {
      assert s == schedule;
    } else {
      assert s[..|s| - 1] == schedule + Turns(p, n - 1);
      AloneInRun(cfg, schedule, p, n - 1);
    }
  }

  /** In every interleaving, whenever the lock is free: if there is anything in process p's pre-queue, in the shared queue or
      in its own push pre-queue, a pull by p ends after finitely many turns of p alone, and the oldest of it all is p's. */
  lemma PullEnds(cfg: Config, schedule: seq<Turn>, p: nat, r: nat) returns (n: nat)
    requires ValidTurns(cfg, schedule) && p < cfg.procs && r < cfg.qs
    requires Exec(cfg, schedule).pcs[p].Free? && Exec(cfg, schedule).holder.None?
    ensures ValidTurns(cfg, schedule + [Turn(p, PullCall(r))] + Turns(p, n))
    ensures var m, w' := Exec(cfg, schedule).model, Exec(cfg, schedule + [Turn(p, PullCall(r))] + Turns(p, n));
            && w'.pcs[p].Free? && w'.holder.None? && Usable(cfg, m, p)
            && w'.model == PullTail(m, p, cfg.qs, cfg.max, r).0
            && (Fifo(m, p, r) != [] ==>
                  && PullTail(m, p, cfg.qs, cfg.max, r).1 == Some(Fifo(m, p, r)[0])
                  && Fifo(m, p, r)[0] < |w'.model.owner| && w'.model.owner[Fifo(m, p, r)[0]] == Held(p))
  {
    hide Exec, Inv, Advance, PullTail, Between, Leads, Alone;
    RunKeeps(cfg, schedule);
    var w, turn := Exec(cfg, schedule), Turn(p, PullCall(r));
    InvPcs(cfg, w, p);
    UsableHere(cfg, w, p);
    var w' := PullAlone(cfg, w, p, r);
    n := TurnsTo(cfg, schedule, turn, w');
    PullTailFifo(w.model, p, cfg.qs, cfg.max, r);
    PulledIsHeld(w.model, p, cfg.qs, cfg.max, r);
  }

  /** So does a push, of an item the process holds: the item is then the newest of its queue. */
  lemma PushEnds(cfg: Config, schedule: seq<Turn>, p: nat, q: nat, i: nat) returns (n: nat)
    requires ValidTurns(cfg, schedule) && p < cfg.procs && q < cfg.qs && MayPush(Exec(cfg, schedule).model, p, Some(i))
    requires Exec(cfg, schedule).pcs[p].Free? && Exec(cfg, schedule).holder.None?
    ensures ValidTurns(cfg, schedule + [Turn(p, PushCall(q, i))] + Turns(p, n))
    ensures var m, w' := Exec(cfg, schedule).model, Exec(cfg, schedule + [Turn(p, PushCall(q, i))] + Turns(p, n));
            && w'.pcs[p].Free? && w'.holder.None? && Usable(cfg, m, p) && Usable(cfg, w'.model, p)
            && w'.model == PushHead(m, p, cfg.qs, cfg.max, q, Some(i)) && Fifo(w'.model, p, q) == Fifo(m, p, q) + [i]
  {
    hide Exec, Inv, Advance, PushHead, Between, Leads, Alone;
    RunKeeps(cfg, schedule);
    var w, turn := Exec(cfg, schedule), Turn(p, PushCall(q, i));
    InvPcs(cfg, w, p);
    UsableHere(cfg, w, p);
    var w' := PushAlone(cfg, w, p, q, i);
    n := TurnsTo(cfg, schedule, turn, w');
    PushHeadFifo(w.model, p, cfg.qs, cfg.max, q, Some(i));
  }

  /** And a hybrid call. */
  lemma HybridEnds(cfg: Config, schedule: seq<Turn>, p: nat, q: nat, item: Option<nat>, r: nat) returns (n: nat)
    requires ValidTurns(cfg, schedule) && p < cfg.procs && q < cfg.qs && r < cfg.qs && MayPush(Exec(cfg, schedule).model, p, item)
    requires Exec(cfg, schedule).pcs[p].Free? && Exec(cfg, schedule).holder.None?
    ensures ValidTurns(cfg, schedule + [Turn(p, HybridCall(q, item, r))] + Turns(p, n))
    ensures var m, w' := Exec(cfg, schedule).model, Exec(cfg, schedule + [Turn(p, HybridCall(q, item, r))] + Turns(p, n));
            && w'.pcs[p].Free? && w'.holder.None? && Usable(cfg, m, p)
            && w'.model == PushHeadPullTail(m, p, cfg.qs, cfg.max, q, item, r).0
  {
    hide Exec, Inv, Advance, PushHeadPullTail, Leads, Alone;
    RunKeeps(cfg, schedule);
    var w, turn := Exec(cfg, schedule), Turn(p, HybridCall(q, item, r));
    InvPcs(cfg, w, p);
    UsableHere(cfg, w, p);
    var w' := HybridAlone(cfg, w, p, q, item, r);
    n := TurnsTo(cfg, schedule, turn, w');
  }

  lemma TurnsTo(cfg: Config, schedule: seq<Turn>, turn: Turn, w': World) returns (n: nat)
    requires ValidTurns(cfg, schedule) && turn.p < cfg.procs
    requires Leads(cfg, Advance(cfg, Exec(cfg, schedule), turn), turn.p, w')
    ensures ValidTurns(cfg, schedule + [turn] + Turns(turn.p, n)) && Exec(cfg, schedule + [turn] + Turns(turn.p, n)) == w'
  {
    hide Advance, Alone;
    var s := schedule + [turn];
    assert s[..|s| - 1] == schedule;
    n :| Alone(cfg, Advance(cfg, Exec(cfg, schedule), turn), turn.p, n) == w';
    AloneInRun(cfg, s, turn.p, n);
  }

  lemma PulledIsHeld(m: Model, p: nat, qs: nat, max: nat, r: nat)
    requires Conserved(m) && Uses(m, p, qs) && r < qs
    ensures var (m', item) := PullTail(m, p, qs, max, r); item.Some? ==> item.value < |m'.owner| && m'.owner[item.value] == Held(p)
  {
    hide Flush, Conserved, ListHas;
    var m1 := if m.lists[Pull(p, r)] == [] then Flush(m, p, qs, Some(r), max) else m;
    if m1.lists[Pull(p, r)] != [] { TakeConserves(m1, p, r); }
  }
}
