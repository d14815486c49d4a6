/** The linked lists inside the shared qiids array, and how appending one chain to another changes it. */
module QueueChains {
  import opened Common
  import opened QueueModel

  const NONE := 0xFFFF_FFFF

  /** A queue record: newest item, oldest item, length. */
  datatype Ends = Ends(head: nat, tail: nat, size: nat)

  const EMPTY := Ends(NONE, NONE, 0)

  /** Neighbours in xs point at each other. */
  ghost predicate Linked(next: seq<nat>, last: seq<nat>, xs: seq<nat>) {
    && |next| == |last|
    && (forall i :: 0 <= i < |xs| ==> xs[i] < |next|)
    && (forall i :: 0 <= i < |xs| - 1 ==> next[xs[i]] == xs[i + 1])
    && (forall i :: 0 < i < |xs| ==> last[xs[i]] == xs[i - 1])
  }

  /** The record e is exactly the list xs. */
  ghost predicate Chain(next: seq<nat>, last: seq<nat>, e: Ends, xs: seq<nat>) {
    && Linked(next, last, xs)
    && e.size == |xs|
    && if xs == [] then e == EMPTY else e.tail == xs[0] && e.head == xs[|xs| - 1] && next[e.head] == NONE
  }

  ghost predicate Chains(next: seq<nat>, last: seq<nat>, ends: map<Place, Ends>, m: Model) {
    && ends.Keys == m.lists.Keys
    && |next| == |last| == |m.owner| < NONE
    && forall l :: l in ends ==> Chain(next, last, ends[l], m.lists[l])
  }

  /** The next links after the chain tail..head is put behind the list e. */
  function JoinNext(next: seq<nat>, e: Ends, tail: nat, head: nat): seq<nat>
    requires head < |next| && (e.head != NONE ==> e.head < |next|)
  {
    var n := next[head := NONE];
    if e.head == NONE then n else n[e.head := tail]
  }

  function JoinLast(last: seq<nat>, e: Ends, tail: nat): seq<nat>
    requires tail < |last|
  {
    last[tail := e.head]
  }

  function JoinEnds(e: Ends, tail: nat, head: nat, k: nat): Ends {
    Ends(head, if e.head == NONE then tail else e.tail, e.size + k)
  }

  /** The record left after k items are cut off the tail of e, the rest starting at the item rest. */
  function CutEnds(e: Ends, k: nat, rest: nat): Ends
    requires k <= e.size
  {
    if e.size == k then EMPTY else Ends(e.head, rest, e.size - k)
  }

  lemma ChainFrame(next: seq<nat>, last: seq<nat>, next': seq<nat>, last': seq<nat>, e: Ends, xs: seq<nat>)
    requires Chain(next, last, e, xs) && |next'| == |last'| == |next|
    requires forall i :: i in xs ==> next'[i] == next[i] && last'[i] == last[i]
    ensures Chain(next', last', e, xs)
  {
  }

  lemma ChainJoin(next: seq<nat>, last: seq<nat>, e: Ends, xs: seq<nat>, ys: seq<nat>)
    requires Chain(next, last, e, xs) && Linked(next, last, ys) && ys != [] && |next| < NONE
    requires NoDup(xs) && NoDup(ys) && forall i :: i in xs ==> i !in ys
    ensures Chain(JoinNext(next, e, ys[0], ys[|ys| - 1]), JoinLast(last, e, ys[0]), JoinEnds(e, ys[0], ys[|ys| - 1], |ys|), xs + ys)
  {
    var next', last' := JoinNext(next, e, ys[0], ys[|ys| - 1]), JoinLast(last, e, ys[0]);
    var zs := xs + ys;
    forall i | 0 <= i < |zs| - 1 ensures next'[zs[i]] == zs[i + 1] {
      if i < |xs| { assert xs[i] in xs; }
    }
    forall i | 0 < i < |zs| ensures last'[zs[i]] == zs[i - 1] {
      if i < |xs| { assert xs[i] in xs; }
    }
    assert ys[|ys| - 1] in ys;
  }

  lemma ChainEnds(next: seq<nat>, last: seq<nat>, e: Ends, xs: seq<nat>)
    requires Chain(next, last, e, xs)
    ensures e.size == |xs|
    ensures xs == [] ==> e == EMPTY
    ensures xs != [] ==> e.tail == xs[0] && e.head == xs[|xs| - 1] && e.tail < |next| && e.head < |next|
    ensures forall i :: 0 <= i < |xs| - 1 ==> next[xs[i]] == xs[i + 1]
    ensures forall i :: 0 <= i < |xs| ==> xs[i] < |next|
    ensures xs != [] ==> next[xs[|xs| - 1]] == NONE
  {
  }

  lemma Bounded(next: seq<nat>, last: seq<nat>, e: Ends, xs: seq<nat>)
    requires Chain(next, last, e, xs)
    ensures |next| == |last| && forall i :: i in xs ==> i < |next|
  {
  }

  lemma Apart(m: Model, l: Place, k: Place)
    requires Conserved(m) && l in m.lists && k in m.lists && l != k
    ensures forall i :: i in m.lists[l] ==> i !in m.lists[k]
    ensures NoDup(m.lists[l])
  {
    assert ListHas(m, l) && ListHas(m, k);
  }

  lemma HeldApart(m: Model, l: Place, i: nat)
    requires Conserved(m) && l in m.lists && i < |m.owner| && m.owner[i].Held?
    ensures i !in m.lists[l] && NoDup(m.lists[l])
  {
    assert ListHas(m, l);
  }

  /** Joining to one list leaves another alone. */
  lemma OtherChain(next: seq<nat>, last: seq<nat>, e: Ends, xs: seq<nat>, f: Ends, zs: seq<nat>, tail: nat, head: nat)
    requires Chain(next, last, e, xs) && Chain(next, last, f, zs) && tail < |next| && head < |next|
    requires tail !in zs && head !in zs && forall i :: i in xs ==> i !in zs
    ensures e.head != NONE ==> e.head < |next|
    ensures Chain(JoinNext(next, e, tail, head), JoinLast(last, e, tail), f, zs)
  {
    assert e.head != NONE ==> e.head in xs;
    ChainFrame(next, last, JoinNext(next, e, tail, head), JoinLast(last, e, tail), f, zs);
  }

  lemma LinkChains(next: seq<nat>, last: seq<nat>, ends: map<Place, Ends>, m: Model, p: nat, q: nat, i: nat)
    requires Conserved(m) && Chains(next, last, ends, m)
    requires Push(p, q) in m.lists && i < |m.owner| && m.owner[i] == Held(p)
    ensures var e := ends[Push(p, q)];
            && (e.head != NONE ==> e.head < |next|)
            && Chains(JoinNext(next, e, i, i), JoinLast(last, e, i), ends[Push(p, q) := JoinEnds(e, i, i, 1)], LinkItem(m, p, q, i))
  {
    hide Chain, ListHas, Conserved;
    var to := Push(p, q);
    var e := ends[to];
    ChainEnds(next, last, e, m.lists[to]);
    HeldApart(m, to, i);
    assert Linked(next, last, [i]);
    ChainJoin(next, last, e, m.lists[to], [i]);
    forall l | l in ends && l != to
      ensures Chain(JoinNext(next, e, i, i), JoinLast(last, e, i), ends[l], m.lists[l]) {
      Apart(m, to, l);
      HeldApart(m, l, i);
      OtherChain(next, last, e, m.lists[to], ends[l], m.lists[l], i, i);
    }
  }

  /** Cutting the tail item off a chain. */
  lemma ChainCut(next: seq<nat>, last: seq<nat>, e: Ends, xs: seq<nat>)
    requires Chain(next, last, e, xs) && xs != [] && |next| < NONE && NoDup(xs)
    ensures next[e.tail] == if e.size == 1 then NONE else xs[1]
    ensures Chain(next, if next[e.tail] == NONE then last else last[next[e.tail] := NONE], CutEnds(e, 1, next[e.tail]), xs[1..])
  {
  }

  lemma TakeChains(next: seq<nat>, last: seq<nat>, ends: map<Place, Ends>, m: Model, p: nat, q: nat)
    requires Conserved(m) && Chains(next, last, ends, m)
    requires Pull(p, q) in m.lists && m.lists[Pull(p, q)] != []
    ensures var e := ends[Pull(p, q)];
            && e.size > 0 && e.tail < |next| && m.lists[Pull(p, q)][0] == e.tail
            && next[e.tail] == (if e.size == 1 then NONE else m.lists[Pull(p, q)][1])
            && (e.size > 1 ==> next[e.tail] < |next|)
            && Chains(next, if next[e.tail] == NONE then last else last[next[e.tail] := NONE],
                      ends[Pull(p, q) := CutEnds(e, 1, next[e.tail])], TakeItem(m, p, q))
  {
    hide Chain, ListHas, Conserved;
    var from := Pull(p, q);
    var e, xs := ends[from], m.lists[from];
    ChainEnds(next, last, e, xs);
    CleanList(m, from);
    ChainCut(next, last, e, xs);
    var last' := if next[e.tail] == NONE then last else last[next[e.tail] := NONE];
    forall l | l in ends && l != from ensures Chain(next, last', ends[l], m.lists[l]) {
      Apart(m, from, l);
      assert |xs| > 1 ==> next[e.tail] == xs[1] && xs[1] in xs;
      assert Chain(next, last, ends[l], m.lists[l]);
      assert forall i :: i in m.lists[l] ==> last'[i] == last[i] by { Bounded(next, last, ends[l], m.lists[l]); }
      ChainFrame(next, last, next, last', ends[l], m.lists[l]);
    }
  }

  lemma CleanList(m: Model, l: Place)
    requires Conserved(m) && l in m.lists
    ensures NoDup(m.lists[l])
  {
    assert ListHas(m, l);
  }

  /** The chain left when its first k items are joined to another list. */
  lemma RestChain(next: seq<nat>, last: seq<nat>, e: Ends, ws: seq<nat>, f: Ends, xs: seq<nat>, k: nat)
    requires Chain(next, last, e, ws) && Chain(next, last, f, xs) && NoDup(xs) && 0 < k <= |xs|
    requires forall i :: i in ws ==> i !in xs
    ensures xs[0] < |next| && xs[k - 1] < |next| && (e.head != NONE ==> e.head < |next|)
    ensures Chain(JoinNext(next, e, xs[0], xs[k - 1]), JoinLast(last, e, xs[0]), CutEnds(f, k, next[xs[k - 1]]), xs[k..])
  {
    assert e.head != NONE ==> e.head in ws;
    if k < |xs| {
      var g := Ends(f.head, xs[k], f.size - k);
      assert Chain(next, last, g, xs[k..]);
      forall i | i in xs[k..] ensures i in xs && i != xs[0] && i != xs[k - 1] {}
      ChainFrame(next, last, JoinNext(next, e, xs[0], xs[k - 1]), JoinLast(last, e, xs[0]), g, xs[k..]);
    }
  }

  lemma TransferChains(next: seq<nat>, last: seq<nat>, ends: map<Place, Ends>, m: Model, from: Place, to: Place, k: nat)
    requires Conserved(m) && Chains(next, last, ends, m)
    requires from in m.lists && to in m.lists && from != to && 0 < k <= |m.lists[from]|
    ensures var e, f, xs := ends[to], ends[from], m.lists[from];
            && (e.head != NONE ==> e.head < |next|) && f.size == |xs| && xs[0] < |next| && xs[k - 1] < |next|
            && Chains(JoinNext(next, e, xs[0], xs[k - 1]), JoinLast(last, e, xs[0]),
                      ends[from := CutEnds(f, k, next[xs[k - 1]])][to := JoinEnds(e, xs[0], xs[k - 1], k)],
                      Transfer(m, from, to, k))
  {
    hide Chain, ListHas, Conserved, JoinNext, JoinLast;
    var e, f, xs := ends[to], ends[from], m.lists[from];
    ChainEnds(next, last, e, m.lists[to]);
    ChainEnds(next, last, f, xs);
    Apart(m, to, from);
    Apart(m, from, to);
    JoinFront(next, last, e, m.lists[to], f, xs, k);
    RestChain(next, last, e, m.lists[to], f, xs, k);
    var next', last' := JoinNext(next, e, xs[0], xs[k - 1]), JoinLast(last, e, xs[0]);
    assert |next'| == |next| && |last'| == |last| by { JoinLengths(next, last, e, xs[0], xs[k - 1]); }
    forall l | l in ends && l != from && l != to ensures Chain(next', last', ends[l], m.lists[l]) {
      Apart(m, to, l);
      Apart(m, from, l);
      assert xs[0] in xs && xs[k - 1] in xs;
      OtherChain(next, last, e, m.lists[to], ends[l], m.lists[l], xs[0], xs[k - 1]);
    }
  }

  lemma JoinLengths(next: seq<nat>, last: seq<nat>, e: Ends, tail: nat, head: nat)
    requires head < |next| && tail < |last| && (e.head != NONE ==> e.head < |next|)
    ensures |JoinNext(next, e, tail, head)| == |next| && |JoinLast(last, e, tail)| == |last|
  {
  }

  lemma JoinFront(next: seq<nat>, last: seq<nat>, e: Ends, ws: seq<nat>, f: Ends, xs: seq<nat>, k: nat)
    requires Chain(next, last, e, ws) && Chain(next, last, f, xs) && 0 < k <= |xs| && |next| < NONE
    requires NoDup(ws) && NoDup(xs) && forall i :: i in ws ==> i !in xs
    ensures xs[0] < |next| && xs[k - 1] < |next| && (e.head != NONE ==> e.head < |next|)
    ensures Chain(JoinNext(next, e, xs[0], xs[k - 1]), JoinLast(last, e, xs[0]), JoinEnds(e, xs[0], xs[k - 1], k), ws + xs[..k])
  {
    hide JoinNext, JoinLast, JoinEnds;
    ChainEnds(next, last, e, ws);
    var ys := xs[..k];
    assert Linked(next, last, ys);
    assert forall i :: i in ys ==> i in xs;
    ChainJoin(next, last, e, ws, ys);
    assert ys[0] == xs[0] && ys[|ys| - 1] == xs[k - 1];
  }
}
