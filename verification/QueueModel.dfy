/** The queues as sequences of items, and what every interleaving of the processes does to them. */
module QueueModel {
  import opened Common

  /** A list of items: a shared queue, or a process's private push or pull pre-queue for it. */
  datatype Place = Shared(q: nat) | Push(p: nat, q: nat) | Pull(p: nat, q: nat)

  /** Where an item is: linked into a list, or pulled by a process and not pushed again yet. */
  datatype Where = In(place: Place) | Held(p: nat)

  /** lists[l] is the list from tail (oldest) to head (newest); owner[i] is where item i is. */
  datatype Model = Model(lists: map<Place, seq<nat>>, owner: seq<Where>)

  ghost predicate ListHas(m: Model, l: Place)
    requires l in m.lists
  {
    && NoDup(m.lists[l])
    && (forall i :: i in m.lists[l] ==> i < |m.owner| && m.owner[i] == In(l))
    && (forall i :: 0 <= i < |m.owner| && m.owner[i] == In(l) ==> i in m.lists[l])
  }

  /** Every item is in exactly the one list, or with exactly the one process, that owner says. */
  ghost predicate Conserved(m: Model) {
    && (forall l :: l in m.lists ==> ListHas(m, l))
    && (forall i :: 0 <= i < |m.owner| && m.owner[i].In? ==> m.owner[i].place in m.lists)
  }

  ghost predicate HasPlaces(m: Model, procs: nat, qs: nat) {
    && (forall q :: 0 <= q < qs ==> Shared(q) in m.lists)
    && (forall p, q :: 0 <= p < procs && 0 <= q < qs ==> Push(p, q) in m.lists && Pull(p, q) in m.lists)
  }

  // ---- The steps ----------------------------------------------------------

  /** Unlocked: process p links an item it holds to the head of its push pre-queue. */
  function LinkItem(m: Model, p: nat, q: nat, i: nat): Model
    requires Push(p, q) in m.lists && i < |m.owner|
  {
    Model(m.lists[Push(p, q) := m.lists[Push(p, q)] + [i]], m.owner[i := In(Push(p, q))])
  }

  /** Unlocked: process p takes the item at the tail of its pull pre-queue. */
  function TakeItem(m: Model, p: nat, q: nat): Model
    requires Pull(p, q) in m.lists && m.lists[Pull(p, q)] != [] && m.lists[Pull(p, q)][0] < |m.owner|
  {
    Model(m.lists[Pull(p, q) := m.lists[Pull(p, q)][1..]], m.owner[m.lists[Pull(p, q)][0] := Held(p)])
  }

  /** The first k items of one list go to the end of another. */
  function Transfer(m: Model, from: Place, to: Place, k: nat): Model
    requires from in m.lists && to in m.lists && from != to && k <= |m.lists[from]|
  {
    var moved := m.lists[from][..k];
    Model(m.lists[from := m.lists[from][k..]][to := m.lists[to] + moved],
          seq(|m.owner|, i requires 0 <= i < |m.owner| => if i in moved then In(to) else m.owner[i]))
  }

  lemma TransferNothing(m: Model, from: Place, to: Place)
    requires from in m.lists && to in m.lists && from != to
    ensures Transfer(m, from, to, 0) == m
  {
    assert m.lists[from][..0] == [] && m.lists[from][0..] == m.lists[from] && m.lists[to] + [] == m.lists[to];
    assert Transfer(m, from, to, 0).lists == m.lists;
    assert Transfer(m, from, to, 0).owner == m.owner;
  }

  /** Locked: process p's push pre-queue goes onto the shared queue. */
  function Splice(m: Model, p: nat, q: nat): Model
    requires Push(p, q) in m.lists && Shared(q) in m.lists
  {
    Transfer(m, Push(p, q), Shared(q), |m.lists[Push(p, q)]|)
  }

  /** How many items a flush moves to a pull pre-queue: what is there, up to the room there is. */
  function FillCount(m: Model, p: nat, q: nat, max: nat): (k: nat)
    requires Shared(q) in m.lists && Pull(p, q) in m.lists
    ensures k <= |m.lists[Shared(q)]|
  {
    var room := if |m.lists[Pull(p, q)]| < max then max - |m.lists[Pull(p, q)]| else 0;
    if |m.lists[Shared(q)]| < room then |m.lists[Shared(q)]| else room
  }

  /** Locked: the oldest items of the shared queue go to process p's pull pre-queue. */
  function Fill(m: Model, p: nat, q: nat, max: nat): Model
    requires Shared(q) in m.lists && Pull(p, q) in m.lists
  {
    Transfer(m, Shared(q), Pull(p, q), FillCount(m, p, q, max))
  }

  // ---- The steps keep every item in exactly one place --------------------

  lemma LinkConserves(m: Model, p: nat, q: nat, i: nat)
    requires Conserved(m) && Push(p, q) in m.lists && i < |m.owner| && m.owner[i] == Held(p)
    ensures Conserved(LinkItem(m, p, q, i))
  {
    var m', l := LinkItem(m, p, q, i), Push(p, q);
    forall k | k in m'.lists ensures ListHas(m', k) {
      assert ListHas(m, k);
      if k == l {
        assert i !in m.lists[l];
        assert forall x :: x in m'.lists[l] <==> x in m.lists[l] || x == i;
      }
    }
  }

  lemma TakeConserves(m: Model, p: nat, q: nat)
    requires Conserved(m) && Pull(p, q) in m.lists && m.lists[Pull(p, q)] != []
    ensures m.lists[Pull(p, q)][0] < |m.owner|
    ensures Conserved(TakeItem(m, p, q))
  {
    assert ListHas(m, Pull(p, q));
    assert m.lists[Pull(p, q)][0] in m.lists[Pull(p, q)];
    var m', l := TakeItem(m, p, q), Pull(p, q);
    var xs := m.lists[l];
    assert m.owner[xs[0]] == In(l);
    forall k | k in m'.lists ensures ListHas(m', k) {
      assert ListHas(m, k);
      if k == l {
        assert forall x :: x in xs <==> x == xs[0] || x in xs[1..] by { assert xs == [xs[0]] + xs[1..]; }
        assert xs[0] !in xs[1..];
      }
    }
  }

  lemma NoDupConcat(xs: seq<nat>, ys: seq<nat>)
    requires NoDup(xs) && NoDup(ys) && forall i :: i in xs ==> i !in ys
    ensures NoDup(xs + ys)
  {
    forall i, j | 0 <= i < j < |xs + ys| ensures (xs + ys)[i] != (xs + ys)[j] {
      if i < |xs| <= j {
        assert xs[i] in xs && ys[j - |xs|] in ys;
      }
    }
  }

  lemma TransferConserves(m: Model, from: Place, to: Place, k: nat)
    requires Conserved(m) && from in m.lists && to in m.lists && from != to && k <= |m.lists[from]|
    ensures Conserved(Transfer(m, from, to, k))
  {
    var m', xs, ys := Transfer(m, from, to, k), m.lists[from], m.lists[to];
    assert forall i :: i in xs <==> i in xs[..k] || i in xs[k..] by { assert xs == xs[..k] + xs[k..]; }
    assert ListHas(m, from) && ListHas(m, to);
    forall l | l in m'.lists ensures ListHas(m', l) {
      assert ListHas(m, l);
      if l == to {
        assert m'.lists[to] == ys + xs[..k];
        assert forall i :: i in ys ==> i !in xs;
        assert forall i :: i in ys + xs[..k] <==> i in ys || i in xs[..k];
        NoDupConcat(ys, xs[..k]);
      } else if l == from {
        assert m'.lists[from] == xs[k..];
        assert forall i :: i in xs[k..] ==> i !in xs[..k];
      } else {
        assert m'.lists[l] == m.lists[l];
      }
    }
  }

  /** One step of some process: linking and taking are unlocked, splicing and filling happen under the lock. */
  datatype Step = DoLink(p: nat, q: nat, i: nat) | DoTake(p: nat, q: nat) | DoSplice(p: nat, q: nat) | DoFill(p: nat, q: nat, max: nat)

  ghost predicate Enabled(m: Model, s: Step) {
    match s
    case DoLink(p, q, i) => Push(p, q) in m.lists && i < |m.owner| && m.owner[i] == Held(p)
    case DoTake(p, q) => Pull(p, q) in m.lists && m.lists[Pull(p, q)] != []
    case DoSplice(p, q) => Push(p, q) in m.lists && Shared(q) in m.lists
    case DoFill(p, q, _) => Pull(p, q) in m.lists && Shared(q) in m.lists
  }

  ghost function Apply(m: Model, s: Step): (m': Model)
    requires Conserved(m) && Enabled(m, s)
    ensures Conserved(m') && m'.lists.Keys == m.lists.Keys && |m'.owner| == |m.owner|
  {
    match s
    case DoLink(p, q, i) => LinkConserves(m, p, q, i); LinkItem(m, p, q, i)
    case DoTake(p, q) => TakeConserves(m, p, q); TakeItem(m, p, q)
    case DoSplice(p, q) => TransferConserves(m, Push(p, q), Shared(q), |m.lists[Push(p, q)]|); Splice(m, p, q)
    case DoFill(p, q, max) => TransferConserves(m, Shared(q), Pull(p, q), FillCount(m, p, q, max)); Fill(m, p, q, max)
  }

  /** trace is a run: each state comes from the one before by an enabled step. */
  ghost predicate IsRun(trace: seq<Model>, steps: seq<Step>) {
    && |trace| == |steps| + 1
    && forall k {:trigger steps[k]} :: 0 <= k < |steps| && Conserved(trace[k]) ==>
         Enabled(trace[k], steps[k]) && trace[k + 1] == Apply(trace[k], steps[k])
  }

  /** Over every run of any number of processes, every item stays in exactly one place. */
  lemma {:induction false} RunConserves(trace: seq<Model>, steps: seq<Step>, k: nat)
    requires IsRun(trace, steps) && Conserved(trace[0]) && k <= |steps|
    ensures Conserved(trace[k]) && trace[k].lists.Keys == trace[0].lists.Keys && |trace[k].owner| == |trace[0].owner|
  {
    hide Conserved, Enabled, Apply;
    if k > 0 {
      RunConserves(trace, steps, k - 1);
      assert trace[k] == Apply(trace[k - 1], steps[k - 1]);
    }
  }

  // ---- Unlocked steps of different processes do not interfere ------------

  /** An unlocked step commutes with every whole step of another process. */
  lemma UnlockedCommutes(m: Model, s: Step, t: Step)
    requires Conserved(m) && Enabled(m, s) && Enabled(m, t)
    requires s.DoLink? || s.DoTake?
    requires s.p != t.p
    ensures Enabled(Apply(m, s), t) && Enabled(Apply(m, t), s)
    ensures Apply(Apply(m, s), t) == Apply(Apply(m, t), s)
  {
    // neither step touches a list or an item of the other
    hide Conserved, ListHas, Transfer, LinkItem, TakeItem;
    ListsHave(m, t);
    ListsHave(m, s);
    match t {
      case DoLink(_, _, _) => OneItem(m, s, t);
      case DoTake(_, _) => OneItem(m, s, t);
      case DoSplice(p, q) => ItemAndTransfer(m, s, Push(p, q), Shared(q), |m.lists[Push(p, q)]|);
      case DoFill(p, q, max) => ItemAndTransfer(m, s, Shared(q), Pull(p, q), FillCount(m, p, q, max));
    }
  }

  lemma ListsHave(m: Model, s: Step)
    requires Conserved(m) && Enabled(m, s)
    ensures s.DoTake? ==> var i := m.lists[Pull(s.p, s.q)][0]; i < |m.owner| && m.owner[i] == In(Pull(s.p, s.q))
    ensures s.DoSplice? ==> forall i :: i in m.lists[Push(s.p, s.q)] ==> i < |m.owner| && m.owner[i] == In(Push(s.p, s.q))
    ensures s.DoFill? ==> forall i :: i in m.lists[Shared(s.q)] ==> i < |m.owner| && m.owner[i] == In(Shared(s.q))
  {
    if s.DoTake? { assert ListHas(m, Pull(s.p, s.q)); assert m.lists[Pull(s.p, s.q)][0] in m.lists[Pull(s.p, s.q)]; }
    if s.DoSplice? { assert ListHas(m, Push(s.p, s.q)); }
    if s.DoFill? { assert ListHas(m, Shared(s.q)); }
  }

  lemma OneItem(m: Model, s: Step, t: Step)
    requires Conserved(m) && Enabled(m, s) && Enabled(m, t) && s.p != t.p
    requires (s.DoLink? || s.DoTake?) && (t.DoLink? || t.DoTake?)
    ensures Enabled(Apply(m, s), t) && Enabled(Apply(m, t), s)
    ensures Apply(Apply(m, s), t) == Apply(Apply(m, t), s)
  {
    hide Conserved, ListHas;
    ListsHave(m, s);
    ListsHave(m, t);
    var st, ts := Apply(Apply(m, s), t), Apply(Apply(m, t), s);
    assert st.lists == ts.lists;
    assert st.owner == ts.owner;
  }

  lemma ItemAndTransfer(m: Model, s: Step, from: Place, to: Place, k: nat)
    requires Conserved(m) && Enabled(m, s) && (s.DoLink? || s.DoTake?)
    requires from in m.lists && to in m.lists && from != to && k <= |m.lists[from]|
    requires forall i :: i in m.lists[from] ==> i < |m.owner| && m.owner[i] == In(from)
    requires from != Push(s.p, s.q) && from != Pull(s.p, s.q) && to != Push(s.p, s.q) && to != Pull(s.p, s.q)
    ensures from in Apply(m, s).lists && to in Apply(m, s).lists
    ensures Apply(m, s).lists[from] == m.lists[from] && Apply(m, s).lists[to] == m.lists[to]
    ensures Conserved(Transfer(m, from, to, k)) && Enabled(Transfer(m, from, to, k), s)
    ensures Transfer(Apply(m, s), from, to, k) == Apply(Transfer(m, from, to, k), s)
  {
    hide Conserved, ListHas;
    TransferConserves(m, from, to, k);
    ListsHave(m, s);
    var t := Transfer(m, from, to, k);
    assert forall i :: i in m.lists[from][..k] ==> i in m.lists[from];
    assert Enabled(t, s);
    var st, ts := Transfer(Apply(m, s), from, to, k), Apply(t, s);
    assert st.lists == ts.lists;
    assert st.owner == ts.owner;
  }

  // ---- One producer and one consumer ---------------------------------------

  /** Everything of queue q on its way from a, who pushes, to b, who pulls, oldest first. */
  function Between(m: Model, a: nat, b: nat, q: nat): seq<nat>
    requires Pull(b, q) in m.lists && Shared(q) in m.lists && Push(a, q) in m.lists
  {
    m.lists[Pull(b, q)] + m.lists[Shared(q)] + m.lists[Push(a, q)]
  }

  /** Of queue q, a alone pushes and b alone pulls. Everybody's flushes splice, but only a has anything to splice. */
  predicate OneToOne(m: Model, s: Step, a: nat, b: nat, q: nat) {
    s.q == q ==> match s
      case DoLink(p, _, _) => p == a
      case DoSplice(p, _) => p == a || (Push(p, q) in m.lists && m.lists[Push(p, q)] == [])
      case DoTake(p, _) => p == b
      case DoFill(p, _, _) => p == b
  }

  /** What a step adds to queue q, and what it takes from it. */
  function LinkedBy(s: Step, q: nat): seq<nat> {
    if s.DoLink? && s.q == q then [s.i] else []
  }

  function TakenBy(m: Model, s: Step, q: nat): seq<nat>
    requires s.DoTake? ==> Pull(s.p, s.q) in m.lists && m.lists[Pull(s.p, s.q)] != []
  {
    if s.DoTake? && s.q == q then [m.lists[Pull(s.p, q)][0]] else []
  }

  /** The items pushed to queue q by the first n steps, in order. */
  function Pushed(steps: seq<Step>, q: nat): seq<nat> {
    if steps == [] then []
    else
      var s := steps[|steps| - 1];
      Pushed(steps[..|steps| - 1], q) + LinkedBy(s, q)
  }

  /** The items pulled from queue q along a run, in order. */
  ghost function Pulled(trace: seq<Model>, steps: seq<Step>, q: nat): seq<nat>
    requires IsRun(trace, steps) && Conserved(trace[0])
  {
    if steps == [] then []
    else
      var n := |steps| - 1;
      var s := steps[n];
      RunConserves(trace, steps, n);
      Pulled(trace[..n + 1], steps[..n], q) + TakenBy(trace[n], s, q)
  }

  lemma StepBetween(m: Model, s: Step, a: nat, b: nat, q: nat)
    requires Conserved(m) && Enabled(m, s) && OneToOne(m, s, a, b, q)
    requires Pull(b, q) in m.lists && Shared(q) in m.lists && Push(a, q) in m.lists
    ensures s.DoLink? && s.q == q ==> Between(Apply(m, s), a, b, q) == Between(m, a, b, q) + [s.i]
    ensures s.DoTake? && s.q == q ==> Between(m, a, b, q) == [m.lists[Pull(s.p, q)][0]] + Between(Apply(m, s), a, b, q)
    ensures !(s.q == q && (s.DoLink? || s.DoTake?)) ==> Between(Apply(m, s), a, b, q) == Between(m, a, b, q)
  {
    hide Conserved, ListHas;
    if s.DoSplice? && s.p != a && s.q == q {
      TransferNothing(m, Push(s.p, q), Shared(q));
    }
  }

  lemma StepOrder(m: Model, s: Step, a: nat, b: nat, q: nat)
    requires Conserved(m) && Enabled(m, s) && OneToOne(m, s, a, b, q)
    requires Pull(b, q) in m.lists && Shared(q) in m.lists && Push(a, q) in m.lists
    ensures Between(m, a, b, q) + LinkedBy(s, q) == TakenBy(m, s, q) + Between(Apply(m, s), a, b, q)
  {
    hide Conserved, ListHas, Apply, Between, OneToOne;
    StepBetween(m, s, a, b, q);
    assert Between(m, a, b, q) + [] == Between(m, a, b, q) == [] + Between(m, a, b, q);
  }

  lemma OrderGrows(was: seq<nat>, pushed: seq<nat>, pulled: seq<nat>, mid: seq<nat>, linked: seq<nat>, taken: seq<nat>, now: seq<nat>)
    requires was + pushed == pulled + mid && mid + linked == taken + now
    ensures was + (pushed + linked) == (pulled + taken) + now
  {
    assert was + (pushed + linked) == (was + pushed) + linked
        == pulled + (mid + linked) == pulled + (taken + now) == (pulled + taken) + now;
  }

  /** With one producer and one consumer the queue is a FIFO: what was there and was pushed is, in
      order, what was pulled and is there. */
  lemma {:induction false} InOrder(trace: seq<Model>, steps: seq<Step>, a: nat, b: nat, q: nat)
    requires IsRun(trace, steps) && Conserved(trace[0])
    requires forall k :: 0 <= k < |steps| ==> OneToOne(trace[k], steps[k], a, b, q)
    requires Pull(b, q) in trace[0].lists && Shared(q) in trace[0].lists && Push(a, q) in trace[0].lists
    ensures trace[|steps|].lists.Keys == trace[0].lists.Keys
    ensures Between(trace[0], a, b, q) + Pushed(steps, q) == Pulled(trace, steps, q) + Between(trace[|steps|], a, b, q)
  {
    hide Apply, Between, OneToOne, Conserved, ListHas;
    if steps == [] {
      assert Between(trace[0], a, b, q) + [] == [] + Between(trace[0], a, b, q);
    } else {
      var n := |steps| - 1;
      InOrder(trace[..n + 1], steps[..n], a, b, q);
      RunConserves(trace, steps, n);
      StepOrder(trace[n], steps[n], a, b, q);
      OrderGrows(Between(trace[0], a, b, q), Pushed(steps[..n], q), Pulled(trace[..n + 1], steps[..n], q), Between(trace[n], a, b, q),
                 LinkedBy(steps[n], q), TakenBy(trace[n], steps[n], q), Between(trace[n + 1], a, b, q));
    }
  }

  /** The pulled items are a prefix of the initial and pushed items, whatever the batching and flushes. */
  lemma PulledIsPrefix(trace: seq<Model>, steps: seq<Step>, a: nat, b: nat, q: nat)
    requires IsRun(trace, steps) && Conserved(trace[0])
    requires forall k :: 0 <= k < |steps| ==> OneToOne(trace[k], steps[k], a, b, q)
    requires Pull(b, q) in trace[0].lists && Shared(q) in trace[0].lists && Push(a, q) in trace[0].lists
    ensures Pulled(trace, steps, q) <= Between(trace[0], a, b, q) + Pushed(steps, q)
  {
    InOrder(trace, steps, a, b, q);
  }

  // ---- The calls ------------------------------------------------------------

  /** Process p may use queues 0..qs-1. */
  predicate Uses(m: Model, p: nat, qs: nat) {
    forall q :: 0 <= q < qs ==> Push(p, q) in m.lists && Shared(q) in m.lists && Pull(p, q) in m.lists
  }

  /** The splices of the first n queues. */
  ghost function SpliceAll(m: Model, p: nat, n: nat): (r: Model)
    requires Conserved(m) && Uses(m, p, n)
    ensures Conserved(r) && r.lists.Keys == m.lists.Keys && |r.owner| == |m.owner|
  {
    if n == 0 then m else Apply(SpliceAll(m, p, n - 1), DoSplice(p, n - 1))
  }

  /** shf_q_flush. */
  ghost function Flush(m: Model, p: nat, qs: nat, pull: Option<nat>, max: nat): (r: Model)
    requires Conserved(m) && Uses(m, p, qs) && (pull.Some? ==> pull.value < qs)
    ensures Conserved(r) && r.lists.Keys == m.lists.Keys && |r.owner| == |m.owner|
  {
    var m' := SpliceAll(m, p, qs);
    match pull
    case None => m'
    case Some(q) => Apply(m', DoFill(p, q, max))
  }

  /** What the caller may push: nothing, or an item it holds. */
  ghost predicate MayPush(m: Model, p: nat, item: Option<nat>) {
    item.Some? ==> item.value < |m.owner| && m.owner[item.value] == Held(p)
  }

  ghost function Link(m: Model, p: nat, q: nat, item: Option<nat>): (r: Model)
    requires Conserved(m) && Push(p, q) in m.lists && MayPush(m, p, item)
    ensures Conserved(r) && r.lists.Keys == m.lists.Keys && |r.owner| == |m.owner|
  {
    match item
    case None => m
    case Some(i) => Apply(m, DoLink(p, q, i))
  }

  ghost function Take(m: Model, p: nat, q: nat): (r: (Model, Option<nat>))
    requires Conserved(m) && Pull(p, q) in m.lists
    ensures Conserved(r.0) && r.0.lists.Keys == m.lists.Keys && |r.0.owner| == |m.owner|
  {
    if m.lists[Pull(p, q)] == [] then (m, None)
    else (Apply(m, DoTake(p, q)), Some(m.lists[Pull(p, q)][0]))
  }

  /** shf_q_push_head. */
  ghost function PushHead(m: Model, p: nat, qs: nat, max: nat, q: nat, item: Option<nat>): (r: Model)
    requires Conserved(m) && Uses(m, p, qs) && q < qs && MayPush(m, p, item)
    ensures Conserved(r) && r.lists.Keys == m.lists.Keys && |r.owner| == |m.owner|
  {
    var m' := Link(m, p, q, item);
    if item.Some? && |m'.lists[Push(p, q)]| >= max then Flush(m', p, qs, None, max) else m'
  }

  /** shf_q_pull_tail. */
  ghost function PullTail(m: Model, p: nat, qs: nat, max: nat, q: nat): (r: (Model, Option<nat>))
    requires Conserved(m) && Uses(m, p, qs) && q < qs
    ensures Conserved(r.0) && r.0.lists.Keys == m.lists.Keys && |r.0.owner| == |m.owner|
  {
    Take(if m.lists[Pull(p, q)] == [] then Flush(m, p, qs, Some(q), max) else m, p, q)
  }

  /** shf_q_push_head_pull_tail. */
  ghost function PushHeadPullTail(m: Model, p: nat, qs: nat, max: nat, pushQ: nat, item: Option<nat>, pullQ: nat): (r: (Model, Option<nat>))
    requires Conserved(m) && Uses(m, p, qs) && pushQ < qs && pullQ < qs && MayPush(m, p, item)
    ensures Conserved(r.0) && r.0.lists.Keys == m.lists.Keys && |r.0.owner| == |m.owner|
  {
    var m' := Link(m, p, pushQ, item);
    Take(if |m'.lists[Push(p, pushQ)]| >= max || m'.lists[Pull(p, pullQ)] == [] then Flush(m', p, qs, Some(pullQ), max) else m', p, pullQ)
  }

  // ---- One process: a plain FIFO ---------------------------------------------

  /** The queue as its only user sees it. */
  function Fifo(m: Model, p: nat, q: nat): seq<nat>
    requires Pull(p, q) in m.lists && Shared(q) in m.lists && Push(p, q) in m.lists
  {
    Between(m, p, p, q)
  }

  /** m and m' hold the same queues for process p. */
  ghost predicate SameFifos(m: Model, m': Model, p: nat, qs: nat) {
    Uses(m, p, qs) && Uses(m', p, qs) && forall q :: 0 <= q < qs ==> Fifo(m', p, q) == Fifo(m, p, q)
  }

  /** A splice empties the push pre-queue and leaves the process's other pre-queues alone. */
  lemma SpliceEffect(m: Model, p: nat, q: nat)
    requires Conserved(m) && Enabled(m, DoSplice(p, q))
    ensures var m' := Apply(m, DoSplice(p, q));
            && m'.lists[Push(p, q)] == []
            && (forall r :: r != q && Push(p, r) in m.lists ==> m'.lists[Push(p, r)] == m.lists[Push(p, r)])
            && (forall r :: Pull(p, r) in m.lists ==> m'.lists[Pull(p, r)] == m.lists[Pull(p, r)])
  {
  }

  lemma FillEffect(m: Model, p: nat, q: nat, max: nat)
    requires Conserved(m) && Enabled(m, DoFill(p, q, max)) && max > 0
    ensures Apply(m, DoFill(p, q, max)).lists[Pull(p, q)] == [] ==> m.lists[Pull(p, q)] == [] && m.lists[Shared(q)] == []
  {
  }

  lemma EmptyFifo(m: Model, p: nat, q: nat)
    requires Pull(p, q) in m.lists && Shared(q) in m.lists && Push(p, q) in m.lists
    requires m.lists[Push(p, q)] == []
    ensures m.lists[Pull(p, q)] == [] && m.lists[Shared(q)] == [] ==> Fifo(m, p, q) == []
  {
  }

  lemma {:induction false} SpliceAllFifo(m: Model, p: nat, n: nat, qs: nat)
    requires Conserved(m) && Uses(m, p, qs) && n <= qs
    ensures SameFifos(m, SpliceAll(m, p, n), p, qs)
    ensures forall q :: 0 <= q < n ==> SpliceAll(m, p, n).lists[Push(p, q)] == []
    ensures forall q :: 0 <= q < qs ==> SpliceAll(m, p, n).lists[Pull(p, q)] == m.lists[Pull(p, q)]
  {
    hide Apply, Between, Conserved, ListHas;
    if n > 0 {
      SpliceAllFifo(m, p, n - 1, qs);
      var m' := SpliceAll(m, p, n - 1);
      SpliceEffect(m', p, n - 1);
      forall q | 0 <= q < qs ensures Fifo(Apply(m', DoSplice(p, n - 1)), p, q) == Fifo(m', p, q) {
        StepBetween(m', DoSplice(p, n - 1), p, p, q);
      }
    }
  }

  /** A flush moves items but not their order, and afterwards an empty pull pre-queue means an empty queue. */
  lemma FlushFifo(m: Model, p: nat, qs: nat, pull: Option<nat>, max: nat)
    requires Conserved(m) && Uses(m, p, qs) && (pull.Some? ==> pull.value < qs) && max > 0
    ensures SameFifos(m, Flush(m, p, qs, pull, max), p, qs)
    ensures pull.Some? && Flush(m, p, qs, pull, max).lists[Pull(p, pull.value)] == [] ==> Fifo(m, p, pull.value) == []
  {
    hide Apply, SpliceAll, Between, Conserved, ListHas;
    SpliceAllFifo(m, p, qs, qs);
    var m' := SpliceAll(m, p, qs);
    if pull.Some? {
      FillEffect(m', p, pull.value, max);
      EmptyFifo(m', p, pull.value);
      forall q | 0 <= q < qs ensures Fifo(Apply(m', DoFill(p, pull.value, max)), p, q) == Fifo(m', p, q) {
        StepBetween(m', DoFill(p, pull.value, max), p, p, q);
      }
    }
  }

  /** Pushing appends. */
  lemma PushHeadFifo(m: Model, p: nat, qs: nat, max: nat, q: nat, item: Option<nat>)
    requires Conserved(m) && Uses(m, p, qs) && q < qs && MayPush(m, p, item) && max > 0
    ensures forall r :: 0 <= r < qs ==>
              Fifo(PushHead(m, p, qs, max, q, item), p, r) == Fifo(m, p, r) + if item.Some? && r == q then [item.value] else []
  {
    hide Flush, Link, Between, Conserved, ListHas;
    LinkFifo(m, p, qs, q, item);
    FlushFifo(Link(m, p, q, item), p, qs, None, max);
  }

  lemma LinkFifo(m: Model, p: nat, qs: nat, q: nat, item: Option<nat>)
    requires Conserved(m) && Uses(m, p, qs) && q < qs && MayPush(m, p, item)
    ensures forall r :: 0 <= r < qs ==>
              Fifo(Link(m, p, q, item), p, r) == Fifo(m, p, r) + if item.Some? && r == q then [item.value] else []
  {
    hide Apply, Between, Conserved, ListHas;
    if item.Some? {
      forall r | 0 <= r < qs ensures Fifo(Link(m, p, q, item), p, r) == Fifo(m, p, r) + if r == q then [item.value] else [] {
        StepBetween(m, DoLink(p, q, item.value), p, p, r);
      }
    }
  }

  lemma TakeFifo(m: Model, p: nat, qs: nat, q: nat)
    requires Conserved(m) && Uses(m, p, qs) && q < qs
    requires m.lists[Pull(p, q)] == [] ==> Fifo(m, p, q) == []
    ensures Take(m, p, q).1 == if Fifo(m, p, q) == [] then None else Some(Fifo(m, p, q)[0])
    ensures forall r :: 0 <= r < qs ==>
              Fifo(Take(m, p, q).0, p, r) == if r == q && Fifo(m, p, r) != [] then Fifo(m, p, r)[1..] else Fifo(m, p, r)
  {
    if m.lists[Pull(p, q)] != [] {
      forall r | 0 <= r < qs ensures Fifo(Take(m, p, q).0, p, r) == if r == q then Fifo(m, p, r)[1..] else Fifo(m, p, r) {
        StepBetween(m, DoTake(p, q), p, p, r);
      }
    }
  }

  /** Pulling returns the oldest item, and nothing only when all three lists of the queue are empty. */
  lemma PullTailFifo(m: Model, p: nat, qs: nat, max: nat, q: nat)
    requires Conserved(m) && Uses(m, p, qs) && q < qs && max > 0
    ensures PullTail(m, p, qs, max, q).1 == if Fifo(m, p, q) == [] then None else Some(Fifo(m, p, q)[0])
    ensures forall r :: 0 <= r < qs ==>
              Fifo(PullTail(m, p, qs, max, q).0, p, r) == if r == q && Fifo(m, p, r) != [] then Fifo(m, p, r)[1..] else Fifo(m, p, r)
  {
    hide Flush, Take, Between, Conserved, ListHas;
    if m.lists[Pull(p, q)] == [] {
      FlushFifo(m, p, qs, Some(q), max);
      TakeFifo(Flush(m, p, qs, Some(q), max), p, qs, q);
    } else {
      TakeFifo(m, p, qs, q);
    }
  }

  /** The two single calls, one after the other. */
  ghost function PushThenPull(m: Model, p: nat, qs: nat, max: nat, pushQ: nat, item: Option<nat>, pullQ: nat): (r: (Model, Option<nat>))
    requires Conserved(m) && Uses(m, p, qs) && pushQ < qs && pullQ < qs && MayPush(m, p, item)
    ensures Conserved(r.0) && r.0.lists.Keys == m.lists.Keys && |r.0.owner| == |m.owner|
  {
    PullTail(PushHead(m, p, qs, max, pushQ, item), p, qs, max, pullQ)
  }

  /** The hybrid call returns what a push followed by a pull returns and leaves the same queues. */
  lemma HybridIsPushThenPull(m: Model, p: nat, qs: nat, max: nat, pushQ: nat, item: Option<nat>, pullQ: nat)
    requires Conserved(m) && Uses(m, p, qs) && pushQ < qs && pullQ < qs && MayPush(m, p, item) && max > 0
    ensures PushHeadPullTail(m, p, qs, max, pushQ, item, pullQ).1 == PushThenPull(m, p, qs, max, pushQ, item, pullQ).1
    ensures SameFifos(PushThenPull(m, p, qs, max, pushQ, item, pullQ).0, PushHeadPullTail(m, p, qs, max, pushQ, item, pullQ).0, p, qs)
  {
    hide Flush, Take, Link, Between, PushHead, PullTail, Conserved, ListHas, MayPush;
    PushHeadFifo(m, p, qs, max, pushQ, item);
    PullTailFifo(PushHead(m, p, qs, max, pushQ, item), p, qs, max, pullQ);
    LinkFifo(m, p, qs, pushQ, item);
    var linked := Link(m, p, pushQ, item);
    if |linked.lists[Push(p, pushQ)]| >= max || linked.lists[Pull(p, pullQ)] == [] {
      FlushFifo(linked, p, qs, Some(pullQ), max);
      TakeFifo(Flush(linked, p, qs, Some(pullQ), max), p, qs, pullQ);
    } else {
      TakeFifo(linked, p, qs, pullQ);
    }
  }

  // ---- Batches ------------------------------------------------------------------

  /** Lists that are not process p's and not shared. */
  predicate Foreign(l: Place, p: nat) {
    !l.Shared? && l.p != p
  }

  /** What p's flush leaves of queue q: an empty push pre-queue, and k items moved from what is now shared to the pull
      pre-queue. */
  ghost predicate Flushed(m: Model, m': Model, p: nat, q: nat, k: nat)
    requires Push(p, q) in m.lists && Shared(q) in m.lists && Pull(p, q) in m.lists && m'.lists.Keys == m.lists.Keys
  {
    var all := m.lists[Shared(q)] + m.lists[Push(p, q)];
    && m'.lists[Push(p, q)] == [] && k <= |all|
    && m'.lists[Shared(q)] == all[k..] && m'.lists[Pull(p, q)] == m.lists[Pull(p, q)] + all[..k]
  }

  lemma SpliceLists(m: Model, p: nat, q: nat)
    requires Conserved(m) && Enabled(m, DoSplice(p, q))
    ensures Apply(m, DoSplice(p, q)).lists == m.lists[Push(p, q) := []][Shared(q) := m.lists[Shared(q)] + m.lists[Push(p, q)]]
  {
    hide Conserved, ListHas;
    assert m.lists[Push(p, q)][..|m.lists[Push(p, q)]|] == m.lists[Push(p, q)];
  }

  lemma FillLists(m: Model, p: nat, q: nat, max: nat)
    requires Conserved(m) && Enabled(m, DoFill(p, q, max))
    ensures var k := Moved(|m.lists[Pull(p, q)]|, |m.lists[Shared(q)]|, max);
            && k <= |m.lists[Shared(q)]|
            && Apply(m, DoFill(p, q, max)).lists ==
               m.lists[Shared(q) := m.lists[Shared(q)][k..]][Pull(p, q) := m.lists[Pull(p, q)] + m.lists[Shared(q)][..k]]
  {
    hide Conserved, ListHas;
  }

  lemma SpliceFlushes(m: Model, m1: Model, m2: Model, p: nat, n: nat, q: nat)
    requires Push(p, q) in m.lists && Shared(q) in m.lists && Pull(p, q) in m.lists
    requires Push(p, n) in m.lists && Shared(n) in m.lists && m1.lists.Keys == m.lists.Keys
    requires m2.lists == m1.lists[Push(p, n) := []][Shared(n) := m1.lists[Shared(n)] + m1.lists[Push(p, n)]]
    requires if q == n then m1.lists[Push(p, q)] == m.lists[Push(p, q)] && m1.lists[Shared(q)] == m.lists[Shared(q)]
                            && m1.lists[Pull(p, q)] == m.lists[Pull(p, q)]
             else Flushed(m, m1, p, q, 0)
    ensures m2.lists.Keys == m.lists.Keys && Flushed(m, m2, p, q, 0)
  {
  }

  /** The first n of p's push pre-queues are flushed, and nothing else has changed. */
  ghost predicate SplicedUpTo(m: Model, m': Model, p: nat, n: nat, qs: nat)
    requires Uses(m, p, qs) && n <= qs && m'.lists.Keys == m.lists.Keys
  {
    && (forall q :: 0 <= q < n ==> Flushed(m, m', p, q, 0))
    && (forall q :: n <= q < qs ==>
          && m'.lists[Push(p, q)] == m.lists[Push(p, q)] && m'.lists[Shared(q)] == m.lists[Shared(q)]
          && m'.lists[Pull(p, q)] == m.lists[Pull(p, q)])
    && (forall l :: l in m.lists && Foreign(l, p) ==> m'.lists[l] == m.lists[l])
  }

  lemma SplicedNone(m: Model, p: nat, qs: nat)
    requires Uses(m, p, qs)
    ensures SplicedUpTo(m, m, p, 0, qs)
  {
  }

  lemma SplicedOne(m: Model, m1: Model, m2: Model, p: nat, n: nat, qs: nat)
    requires Uses(m, p, qs) && n < qs && m1.lists.Keys == m.lists.Keys && SplicedUpTo(m, m1, p, n, qs)
    requires m2.lists == m1.lists[Push(p, n) := []][Shared(n) := m1.lists[Shared(n)] + m1.lists[Push(p, n)]]
    ensures m2.lists.Keys == m.lists.Keys && SplicedUpTo(m, m2, p, n + 1, qs)
  {
    hide Flushed;
    forall q | 0 <= q < n + 1 ensures Flushed(m, m2, p, q, 0) { SpliceFlushes(m, m1, m2, p, n, q); }
  }

  lemma {:induction false} SplicesEffect(m: Model, p: nat, n: nat, qs: nat)
    requires Conserved(m) && Uses(m, p, qs) && n <= qs
    ensures SplicedUpTo(m, SpliceAll(m, p, n), p, n, qs)
  {
    hide Conserved, ListHas, Apply, SplicedUpTo;
    if n == 0 {
      SplicedNone(m, p, qs);
    } else {
      SplicesEffect(m, p, n - 1, qs);
      SpliceLists(SpliceAll(m, p, n - 1), p, n - 1);
      SplicedOne(m, SpliceAll(m, p, n - 1), SpliceAll(m, p, n), p, n - 1, qs);
    }
  }

  /** How many items a refill moves: all there are, but no more than fit into max. */
  function Moved(had: nat, there: nat, max: nat): (k: nat) {
    if had >= max then 0 else if there <= max - had then there else max - had
  }

  /** A flush, list by list. */
  lemma FlushBatches(m: Model, p: nat, qs: nat, pull: Option<nat>, max: nat)
    requires Conserved(m) && Uses(m, p, qs) && (pull.Some? ==> pull.value < qs)
    ensures var m' := Flush(m, p, qs, pull, max);
            && (forall q :: 0 <= q < qs && pull != Some(q) ==> Flushed(m, m', p, q, 0))
            && (pull.Some? ==> var r := pull.value;
                  Flushed(m, m', p, r, Moved(|m.lists[Pull(p, r)]|, |m.lists[Shared(r)]| + |m.lists[Push(p, r)]|, max)))
            && (forall l :: l in m.lists && Foreign(l, p) ==> m'.lists[l] == m.lists[l])
  {
    hide Conserved, ListHas, SpliceAll, Apply, Moved;
    SplicesEffect(m, p, qs, qs);
    var m1 := SpliceAll(m, p, qs);
    if pull.Some? {
      var r := pull.value;
      assert Flushed(m, m1, p, r, 0);
      FillLists(m1, p, r, max);
      forall q | 0 <= q < qs && q != r ensures Flushed(m, Flush(m, p, qs, pull, max), p, q, 0) {
        assert Flushed(m, m1, p, q, 0);
      }
    }
  }

  lemma TakeLists(m: Model, p: nat, q: nat)
    requires Conserved(m) && Pull(p, q) in m.lists
    ensures Take(m, p, q).0.lists ==
            if m.lists[Pull(p, q)] == [] then m.lists else m.lists[Pull(p, q) := m.lists[Pull(p, q)][1..]]
  {
    hide Conserved, ListHas;
  }

  /** A push touches the shared queues only when it makes its pre-queue max items long, and then empties every one. */
  lemma PushBatches(m: Model, p: nat, qs: nat, max: nat, q: nat, i: nat)
    requires Conserved(m) && Uses(m, p, qs) && q < qs && MayPush(m, p, Some(i)) && max > 0
    ensures var m', longer := PushHead(m, p, qs, max, q, Some(i)), m.lists[Push(p, q) := m.lists[Push(p, q)] + [i]];
            && (|m.lists[Push(p, q)]| + 1 < max ==> m'.lists == longer)
            && (|m.lists[Push(p, q)]| + 1 >= max ==> forall x :: 0 <= x < qs ==> Flushed(Model(longer, m.owner), m', p, x, 0))
            && ((forall x :: 0 <= x < qs ==> |m.lists[Push(p, x)]| < max) ==> forall x :: 0 <= x < qs ==> |m'.lists[Push(p, x)]| < max)
  {
    hide Conserved, ListHas, Flush;
    var m1 := Link(m, p, q, Some(i));
    assert m1.lists == m.lists[Push(p, q) := m.lists[Push(p, q)] + [i]];
    if |m1.lists[Push(p, q)]| >= max {
      FlushBatches(m1, p, qs, None, max);
      forall x | 0 <= x < qs
        ensures Flushed(Model(m1.lists, m.owner), PushHead(m, p, qs, max, q, Some(i)), p, x, 0)
        ensures PushHead(m, p, qs, max, q, Some(i)).lists[Push(p, x)] == [] {
        assert Flushed(m1, Flush(m1, p, qs, None, max), p, x, 0);
      }
    }
  }

  /** A pull takes from its pre-queue alone while that has items; otherwise it first moves up to max items there. */
  lemma PullBatches(m: Model, p: nat, qs: nat, max: nat, q: nat)
    requires Conserved(m) && Uses(m, p, qs) && q < qs && max > 0
    ensures var m', all := PullTail(m, p, qs, max, q).0, m.lists[Shared(q)] + m.lists[Push(p, q)];
            && (m.lists[Pull(p, q)] != [] ==> m'.lists == m.lists[Pull(p, q) := m.lists[Pull(p, q)][1..]])
            && (m.lists[Pull(p, q)] == [] ==>
                  && (forall x :: 0 <= x < qs ==> m'.lists[Push(p, x)] == [])
                  && (|all| <= max ==> m'.lists[Shared(q)] == [] && (all != [] ==> m'.lists[Pull(p, q)] == all[1..]))
                  && (|all| > max ==> m'.lists[Shared(q)] == all[max..] && m'.lists[Pull(p, q)] == all[1..max]))
  {
    hide Conserved, ListHas, Flush, Take;
    if m.lists[Pull(p, q)] != [] {
      TakeLists(m, p, q);
    } else {
      FlushBatches(m, p, qs, Some(q), max);
      TakeLists(Flush(m, p, qs, Some(q), max), p, q);
      var m1 := Flush(m, p, qs, Some(q), max);
      var all := m.lists[Shared(q)] + m.lists[Push(p, q)];
      var k := Moved(0, |all|, max);
      assert Flushed(m, m1, p, q, k);
      assert m1.lists[Pull(p, q)] == all[..k];
      forall x | 0 <= x < qs ensures m1.lists[Push(p, x)] == [] { if x != q { assert Flushed(m, m1, p, x, 0); } }
      if k > 0 { assert all[..k][1..] == all[1..k]; }
      if |all| <= max { assert all[..k] == all && all[k..] == []; }
    }
  }

  /** A hybrid call flushes exactly when its push made the pre-queue max items long or there is nothing to take. */
  lemma HybridBatches(m: Model, p: nat, qs: nat, max: nat, pushQ: nat, item: Option<nat>, pullQ: nat)
    requires Conserved(m) && Uses(m, p, qs) && pushQ < qs && pullQ < qs && MayPush(m, p, item) && max > 0
    ensures var m', n := PushHeadPullTail(m, p, qs, max, pushQ, item, pullQ).0, |m.lists[Push(p, pushQ)]| + if item.Some? then 1 else 0;
            && (n < max && m.lists[Pull(p, pullQ)] != [] ==>
                  && (forall x :: 0 <= x < qs ==> m'.lists[Shared(x)] == m.lists[Shared(x)])
                  && m'.lists[Push(p, pushQ)] == m.lists[Push(p, pushQ)] + (if item.Some? then [item.value] else [])
                  && (forall x :: 0 <= x < qs && x != pushQ ==> m'.lists[Push(p, x)] == m.lists[Push(p, x)]))
            && (n >= max || m.lists[Pull(p, pullQ)] == [] ==> forall x :: 0 <= x < qs ==> m'.lists[Push(p, x)] == [])
  {
    hide Conserved, ListHas, Flush;
    var m1 := Link(m, p, pushQ, item);
    if |m1.lists[Push(p, pushQ)]| >= max || m1.lists[Pull(p, pullQ)] == [] {
      FlushBatches(m1, p, qs, Some(pullQ), max);
      var m2 := Flush(m1, p, qs, Some(pullQ), max);
      forall x | 0 <= x < qs ensures m2.lists[Push(p, x)] == [] {
        if x != pullQ { assert Flushed(m1, m2, p, x, 0); }
      }
    }
  }
}
