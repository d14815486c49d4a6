/** The queue calls over the shared link arrays, proved against the sequence model. */
module QueueSet {
  import opened Common
  import opened QueueModel
  import opened QueueChains

  /** All pre-queues and shared queues start out as one of these. */
  function Places(procs: nat, qs: nat): set<Place> {
    (set q | 0 <= q < qs :: Shared(q)) + (set p, q | 0 <= p < procs && 0 <= q < qs :: Push(p, q))
    + (set p, q | 0 <= p < procs && 0 <= q < qs :: Pull(p, q))
  }

  /** All items free on queue 0, in order. */
  ghost function Fresh(procs: nat, qs: nat, items: nat): Model {
    Model(map l | l in Places(procs, qs) :: if l == Shared(0) then seq(items, i => i) else [],
          seq(items, i => In(Shared(0))))
  }

  lemma FreshConserved(procs: nat, qs: nat, items: nat)
    requires qs > 0
    ensures Conserved(Fresh(procs, qs, items))
  {
    var m := Fresh(procs, qs, items);
    assert Shared(0) in m.lists;
    forall l | l in m.lists ensures ListHas(m, l) {
      if l == Shared(0) {
        assert forall i :: 0 <= i < items ==> m.lists[l][i] == i;
      }
    }
  }

  function FreshEnds(procs: nat, qs: nat, items: nat): map<Place, Ends>
    requires items > 0
  {
    (map l | l in Places(procs, qs) :: EMPTY)[Shared(0) := Ends(items - 1, 0, items)]
  }

  lemma FreshChains(next: seq<nat>, last: seq<nat>, procs: nat, qs: nat, items: nat)
    requires qs > 0 && 0 < items < NONE && |next| == |last| == items
    requires forall i :: 0 <= i < items ==> next[i] == if i == items - 1 then NONE else i + 1
    requires forall i :: 0 <= i < items ==> last[i] == if i == 0 then NONE else i - 1
    ensures Chains(next, last, FreshEnds(procs, qs, items), Fresh(procs, qs, items))
    ensures HasPlaces(Fresh(procs, qs, items), procs, qs)
  {
    hide Chain, Linked, Places;
    FreshPlaces(procs, qs);
    FullChain(next, last);
    forall l | l in Places(procs, qs)
      ensures Chain(next, last, FreshEnds(procs, qs, items)[l], Fresh(procs, qs, items).lists[l]) {
      if l != Shared(0) { EmptyChain(next, last); }
    }
  }

  lemma FreshPlaces(procs: nat, qs: nat)
    ensures forall q :: 0 <= q < qs ==> Shared(q) in Places(procs, qs)
    ensures forall p, q :: 0 <= p < procs && 0 <= q < qs ==> Push(p, q) in Places(procs, qs) && Pull(p, q) in Places(procs, qs)
  {
  }

  lemma EmptyChain(next: seq<nat>, last: seq<nat>)
    requires |next| == |last|
    ensures Chain(next, last, EMPTY, [])
  {
  }

  lemma FullChain(next: seq<nat>, last: seq<nat>)
    requires 0 < |next| == |last| < NONE
    requires forall i :: 0 <= i < |next| ==> next[i] == if i == |next| - 1 then NONE else i + 1
    requires forall i :: 0 <= i < |next| ==> last[i] == if i == 0 then NONE else i - 1
    ensures Chain(next, last, Ends(|next| - 1, 0, |next|), seq(|next|, i => i))
  {
  }

  class Queues {
    const procs: nat            // processes attached
    const qs: nat               // queues
    const items: nat            // queue items
    const max: nat              // qids_nolock_max
    const next: array<nat>      // qiids[].next, towards the head
    const last: array<nat>      // qiids[].last, towards the tail
    var ends: map<Place, Ends>  // qids, and every process's qids_nolock_push and qids_nolock_pull
    ghost var model: Model

    ghost predicate Valid()
      reads this, next, last
    {
      && next != last && next.Length == last.Length == items
      && max > 0
      && HasPlaces(model, procs, qs)
      && Conserved(model)
      && Chains(next[..], last[..], ends, model)
    }

    /** shf_q_new, and shf_q_get by the other processes. */
    constructor (procs: nat, qs: nat, items: nat, max: nat)
      requires qs > 2 && items > 1 && 0 < max < items < NONE
      ensures Valid() && fresh(next) && fresh(last)
      ensures this.procs == procs && this.qs == qs && this.items == items && this.max == max
      ensures model == Fresh(procs, qs, items)
    {
      hide Fresh, FreshEnds, Chain, Conserved;
      this.procs, this.qs, this.items, this.max := procs, qs, items, max;
      next := new nat[items](i => if i == items - 1 then NONE else i + 1);
      last := new nat[items](i => if i == 0 then NONE else i - 1);
      ends := FreshEnds(procs, qs, items);
      model := Fresh(procs, qs, items);
      new;
      FreshConserved(procs, qs, items);
      FreshChains(next[..], last[..], procs, qs, items);
    }

    /** Put the chain tail..head behind the list e: the splice every push and flush writes out. */
    method Join(e: Ends, tail: nat, head: nat, k: nat) returns (joined: Ends)
      requires next != last && next.Length == last.Length && tail < next.Length && head < next.Length
      requires e.head != NONE ==> e.head < next.Length
      modifies next, last
      ensures next[..] == JoinNext(old(next[..]), e, tail, head)
      ensures last[..] == JoinLast(old(last[..]), e, tail)
      ensures joined == JoinEnds(e, tail, head, k)
    {
      var newTail := e.tail;
      last[tail] := e.head;
      next[head] := NONE;
      if e.head == NONE { newTail := tail; } else { next[e.head] := tail; }
      joined := Ends(head, newTail, e.size + k);
    }

    /** The unlocked half of a push: nobody else's links are written. */
    method LinkItem(p: nat, q: nat, i: nat)
      requires Valid() && p < procs && q < qs && i < items && model.owner[i] == Held(p)
      modifies this`ends, this`model, next, last
      ensures Valid() && model == Link(old(model), p, q, Some(i))
      ensures forall j :: 0 <= j < items && old(model.owner[j]) != Held(p) && old(model.owner[j]) != In(Push(p, q)) ==>
                next[j] == old(next[j]) && last[j] == old(last[j])
    {
      hide Conserved, ListHas, Chain;
      LinkChains(next[..], last[..], ends, model, p, q, i);
      LastOwned(next[..], last[..], ends, model, Push(p, q));
      var joined := Join(ends[Push(p, q)], i, i, 1);
      ends := ends[Push(p, q) := joined];
      model := Link(model, p, q, Some(i));
      JoinFrame(old(next[..]), old(last[..]), old(ends)[Push(p, q)], i, i);
    }

    /** The unlocked half of a pull: the oldest item of the pull pre-queue, if it has one. */
    method TakeItem(p: nat, q: nat) returns (item: nat)
      requires Valid() && p < procs && q < qs
      modifies this`ends, this`model, last
      ensures Valid() && model == Take(old(model), p, q).0
      ensures item == match Take(old(model), p, q).1 case None => NONE case Some(i) => i
      ensures item != NONE ==> item < items && model.owner[item] == Held(p)
      ensures forall j :: 0 <= j < items && old(model.owner[j]) != In(Pull(p, q)) ==> last[j] == old(last[j])
    {
      hide Conserved, ListHas, Chain;
      var e := ends[Pull(p, q)];
      ChainEnds(next[..], last[..], e, model.lists[Pull(p, q)]);
      item := NONE;
      if e.size != 0 {
        TakeChains(next[..], last[..], ends, model, p, q);
        ListOwned(model, Pull(p, q));
        item := e.tail;
        var n := next[item];
        if n == NONE {
          ends := ends[Pull(p, q) := Ends(NONE, n, e.size - 1)];
        } else {
          last[n] := NONE;
          ends := ends[Pull(p, q) := Ends(e.head, n, e.size - 1)];
        }
        assert last[..] == if n == NONE then old(last[..]) else old(last[..])[n := NONE];
        model := Take(model, p, q).0;
      }
    }

    /** Under the lock: the push pre-queue of p for q, if not empty, goes onto the shared queue. */
    method SpliceQueue(p: nat, q: nat)
      requires Valid() && p < procs && q < qs
      modifies this`ends, this`model, next, last
      ensures Valid() && model == Apply(old(model), DoSplice(p, q))
      ensures forall j :: 0 <= j < items && old(model.owner[j]) != In(Shared(q)) && old(model.owner[j]) != In(Push(p, q)) ==>
                next[j] == old(next[j]) && last[j] == old(last[j])
    {
      hide Conserved, ListHas, Chain;
      var push, e := ends[Push(p, q)], ends[Shared(q)];
      ChainEnds(next[..], last[..], push, model.lists[Push(p, q)]);
      if push.size > 0 {
        TransferChains(next[..], last[..], ends, model, Push(p, q), Shared(q), push.size);
        LastOwned(next[..], last[..], ends, model, Shared(q));
        ListOwned(model, Push(p, q));
        var joined := Join(e, push.tail, push.head, push.size);
        ends := ends[Push(p, q) := EMPTY][Shared(q) := joined];
        JoinFrame(old(next[..]), old(last[..]), e, push.tail, push.head);
      } else {
        TransferNothing(model, Push(p, q), Shared(q));
      }
      model := Apply(model, DoSplice(p, q));
    }

    /** From the tail item of a list, follow next to its k-th item. */
    method Walk(tail: nat, k: nat, ghost xs: seq<nat>) returns (head: nat)
      requires 0 < k <= |xs| && tail == xs[0] && Linked(next[..], last[..], xs)
      ensures head == xs[k - 1]
    {
      head := tail;
      for i := 0 to k - 1
        invariant head == xs[i]
      {
        head := next[head];
      }
    }

    /** Under the lock: walk to the last item that fits and cut the shared queue behind it. */
    method FillQueue(p: nat, q: nat)
      requires Valid() && p < procs && q < qs
      modifies this`ends, this`model, next, last
      ensures Valid() && model == Apply(old(model), DoFill(p, q, max))
      ensures forall j :: 0 <= j < items && old(model.owner[j]) != In(Shared(q)) && old(model.owner[j]) != In(Pull(p, q)) ==>
                next[j] == old(next[j]) && last[j] == old(last[j])
    {
      hide Conserved, ListHas, Chain, Linked, Transfer;
      var e, pull := ends[Shared(q)], ends[Pull(p, q)];
      ChainEnds(next[..], last[..], e, model.lists[Shared(q)]);
      ChainEnds(next[..], last[..], pull, model.lists[Pull(p, q)]);
      var room := if pull.size < max then max - pull.size else 0;
      var k := if e.size < room then e.size else room;
      if k > 0 {
        MoveToPull(p, q, k);
      } else {
        TransferNothing(model, Shared(q), Pull(p, q));
      }
    }

    method MoveToPull(p: nat, q: nat, k: nat)
      requires Valid() && p < procs && q < qs && 0 < k == FillCount(model, p, q, max)
      modifies this`ends, this`model, next, last
      ensures Valid() && model == Apply(old(model), DoFill(p, q, max))
      ensures forall j :: 0 <= j < items && old(model.owner[j]) != In(Shared(q)) && old(model.owner[j]) != In(Pull(p, q)) ==>
                next[j] == old(next[j]) && last[j] == old(last[j])
    {
      hide Conserved, ListHas, Chain, Linked, JoinNext, JoinLast, JoinEnds;
      var e, pull := ends[Shared(q)], ends[Pull(p, q)];
      ghost var xs := model.lists[Shared(q)];
      ChainEnds(next[..], last[..], e, xs);
      ChainLinked(next[..], last[..], e, xs);
      TransferChains(next[..], last[..], ends, model, Shared(q), Pull(p, q), k);
      LastOwned(next[..], last[..], ends, model, Pull(p, q));
      ListOwned(model, Shared(q));
      var head := Walk(e.tail, k, xs);
      var nextLocked := next[head];
      var joined := Join(pull, e.tail, head, k);
      ends := ends[Shared(q) := if e.size - k != 0 then Ends(e.head, nextLocked, e.size - k) else EMPTY][Pull(p, q) := joined];
      JoinFrame(old(next[..]), old(last[..]), pull, e.tail, head);
      model := Apply(model, DoFill(p, q, max));
    }

    /** shf_q_flush. */
    method Flush(p: nat, pull: Option<nat>)
      requires Valid() && p < procs && (pull.Some? ==> pull.value < qs)
      modifies this`ends, this`model, next, last
      ensures Valid() && model == QueueModel.Flush(old(model), p, qs, pull, max)
    {
      hide Conserved, ListHas, Chains, Apply;
      for q := 0 to qs
        invariant Valid() && model == SpliceAll(old(model), p, q)
      {
        SpliceQueue(p, q);
      }
      if pull.Some? {
        FillQueue(p, pull.value);
      }
    }

    /** shf_q_push_head; NONE pushes nothing. */
    method PushHead(p: nat, q: nat, item: nat)
      requires Valid() && p < procs && q < qs
      requires item != NONE ==> item < items && model.owner[item] == Held(p)
      modifies this`ends, this`model, next, last
      ensures Valid() && model == QueueModel.PushHead(old(model), p, qs, max, q, if item == NONE then None else Some(item))
    {
      hide Conserved, ListHas, Chain;
      if item != NONE {
        LinkItem(p, q, item);
        ChainEnds(next[..], last[..], ends[Push(p, q)], model.lists[Push(p, q)]);
        if ends[Push(p, q)].size >= max {
          Flush(p, None);
        }
      }
    }

    /** shf_q_pull_tail. */
    method PullTail(p: nat, q: nat) returns (item: nat)
      requires Valid() && p < procs && q < qs
      modifies this`ends, this`model, next, last
      ensures Valid() && model == QueueModel.PullTail(old(model), p, qs, max, q).0
      ensures item == match QueueModel.PullTail(old(model), p, qs, max, q).1 case None => NONE case Some(i) => i
      ensures item != NONE ==> item < items && model.owner[item] == Held(p)
    {
      hide Conserved, ListHas, Chain;
      ChainEnds(next[..], last[..], ends[Pull(p, q)], model.lists[Pull(p, q)]);
      if ends[Pull(p, q)].size == 0 {
        Flush(p, Some(q));
      }
      item := TakeItem(p, q);
    }

    /** shf_q_push_head_pull_tail. */
    method PushHeadPullTail(p: nat, pushQ: nat, push: nat, pullQ: nat) returns (item: nat)
      requires Valid() && p < procs && pushQ < qs && pullQ < qs
      requires push != NONE ==> push < items && model.owner[push] == Held(p)
      modifies this`ends, this`model, next, last
      ensures Valid()
      ensures var r := QueueModel.PushHeadPullTail(old(model), p, qs, max, pushQ, if push == NONE then None else Some(push), pullQ);
              model == r.0 && item == match r.1 case None => NONE case Some(i) => i
      ensures item != NONE ==> item < items && model.owner[item] == Held(p)
    {
      hide Conserved, ListHas, Chain;
      if push != NONE {
        LinkItem(p, pushQ, push);
      }
      ChainEnds(next[..], last[..], ends[Push(p, pushQ)], model.lists[Push(p, pushQ)]);
      ChainEnds(next[..], last[..], ends[Pull(p, pullQ)], model.lists[Pull(p, pullQ)]);
      if ends[Push(p, pushQ)].size >= max || ends[Pull(p, pullQ)].size == 0 {
        Flush(p, Some(pullQ));
      }
      item := TakeItem(p, pullQ);
    }
  }

  /** The links a join can change. */
  lemma JoinFrame(next: seq<nat>, last: seq<nat>, e: Ends, tail: nat, head: nat)
    requires |next| == |last| && head < |next| && tail < |last| && (e.head != NONE ==> e.head < |next|)
    ensures |JoinNext(next, e, tail, head)| == |JoinLast(last, e, tail)| == |next|
    ensures forall j :: 0 <= j < |next| && j != tail && j != head && (e.head != NONE ==> j != e.head) ==>
              JoinNext(next, e, tail, head)[j] == next[j] && JoinLast(last, e, tail)[j] == last[j]
  {
  }

  lemma ChainLinked(next: seq<nat>, last: seq<nat>, e: Ends, xs: seq<nat>)
    requires Chain(next, last, e, xs)
    ensures Linked(next, last, xs)
  {
  }

  lemma ListOwned(m: Model, l: Place)
    requires Conserved(m) && l in m.lists
    ensures forall i :: 0 <= i < |m.lists[l]| ==> m.lists[l][i] < |m.owner| && m.owner[m.lists[l][i]] == In(l)
  {
    assert ListHas(m, l);
    assert forall i :: 0 <= i < |m.lists[l]| ==> m.lists[l][i] in m.lists[l];
  }

  lemma LastOwned(next: seq<nat>, last: seq<nat>, ends: map<Place, Ends>, m: Model, l: Place)
    requires Conserved(m) && Chains(next, last, ends, m) && l in m.lists
    ensures ends[l].head != NONE ==> ends[l].head < |m.owner| && m.owner[ends[l].head] == In(l)
  {
    assert Chain(next, last, ends[l], m.lists[l]);
    ListOwned(m, l);
  }
}
