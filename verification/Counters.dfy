/** Reference counters: shf_add_key_val creates a key with its first amount, adds to it, and deletes it at zero. */
module Counters {
  import opened Common
  import opened Bytes
  import opened TabHeap
  import opened WindowModel
  import opened WindowOps
  import opened WindowRuns

  /** A C long. */
  predicate IsLong(n: int) {
    -0x8000_0000_0000_0000 <= n < 0x8000_0000_0000_0000
  }

  /** A long as the eight bytes of a value. */
  function LongVal(n: int): (val: seq<Byte>)
    ensures |val| == 8
  {
    WithU64([0, 0, 0, 0, 0, 0, 0, 0], n % TWO_64)
  }

  /** How an add ends. */
  datatype Added = Added(w: Window) | Rejected | Aborted

  /** shf_add_key_val. */
  ghost function AddKey(mode: Mode, w: Window, h: Hash, key: seq<Byte>, add: int): Added
    requires WindowInv(mode, w) && ValidHash(h) && Accepts(mode, key, LongVal(add))
  {
    match Find(mode, w, h, key)
    case None =>
      (match Put(mode, w, h, key, LongVal(add))
       case Stored(w', _) => Added(w')
       case _ => Aborted)
    case Some(u) =>
      FindCorrect(mode, w, h, key);
      AtomAddRefines(mode, w, u, add);
      var (w', found) := AtomAdd(mode, w, u, add);
      if found != KeyFound then Rejected
      else if U64At(Abs(mode, w')[u].val) == 0 then
        (match Find(mode, w', h, key)
         case None => Added(w')
         case Some(v) => FindCorrect(mode, w', h, key); Added(Delete(mode, w', v).0))
      else Added(w')
  }

  // ---- The counter a key is ------------------------------------------------------------

  /** In the map, the key is absent, or there once, as an eight-byte number. */
  ghost predicate IsCounter(m: map<Uid, Record>, h: Hash, key: seq<Byte>, c: Option<nat>) {
    match c
    case None => forall u :: !Answers(m, h, key, u)
    case Some(n) => exists u :: OnlyAnswer(m, h, key, u) && |m[u].val| == 8 && U64At(m[u].val) == n
  }

  ghost predicate OnlyAnswer(m: map<Uid, Record>, h: Hash, key: seq<Byte>, u: Uid) {
    Answers(m, h, key, u) && forall x :: Answers(m, h, key, x) ==> x == u
  }

  /** One add to a counter: wrapping, created when absent, gone at zero. */
  function CounterStep(c: Option<nat>, add: int): (r: Option<nat>)
    ensures r.Some? ==> r.value < TWO_64
  {
    match c
    case None => Some(add % TWO_64)
    case Some(n) => if (n + add) % TWO_64 == 0 then None else Some((n + add) % TWO_64)
  }

  lemma LongValReads(n: int)
    ensures U64At(LongVal(n)) == n % TWO_64
  {
    U64RoundTrip([0, 0, 0, 0, 0, 0, 0, 0], n % TWO_64);
  }

  /** shf_add_key_val does to the store what CounterStep does to the counter, and aborts only in a put. */
  lemma AddKeySteps(mode: Mode, w: Window, h: Hash, key: seq<Byte>, add: int, c: Option<nat>)
    requires WindowInv(mode, w) && ValidHash(h) && Accepts(mode, key, LongVal(add))
    requires IsCounter(Abs(mode, w), h, key, c)
    ensures !AddKey(mode, w, h, key, add).Rejected?
    ensures AddKey(mode, w, h, key, add).Added? ==>
              WindowInv(mode, AddKey(mode, w, h, key, add).w) &&
              IsCounter(Abs(mode, AddKey(mode, w, h, key, add).w), h, key, CounterStep(c, add))
  {
    hide WindowInv, Put, AtomAdd, Delete, Find, Abs, WithU64, U64At, LongVal, Uids;
    var m := Abs(mode, w);
    FindCorrect(mode, w, h, key);
    match Find(mode, w, h, key) {
      case None =>
        assert c.None?;
        PutRefines(mode, w, h, key, LongVal(add));
        var o := Put(mode, w, h, key, LongVal(add));
        if o.Stored? {
          LongValReads(add);
          var m' := Abs(mode, o.w);
          assert forall x :: x != o.u ==> (Answers(m', h, key, x) <==> Answers(m, h, key, x));
          assert OnlyAnswer(m', h, key, o.u);
        }
      case Some(u) =>
        AddFound(mode, w, h, key, add, u, c);
    }
  }

  lemma AddFound(mode: Mode, w: Window, h: Hash, key: seq<Byte>, add: int, u: Uid, c: Option<nat>)
    requires WindowInv(mode, w) && ValidHash(h) && Accepts(mode, key, LongVal(add))
    requires IsCounter(Abs(mode, w), h, key, c) && Find(mode, w, h, key) == Some(u)
    ensures AddKey(mode, w, h, key, add).Added?
    ensures WindowInv(mode, AddKey(mode, w, h, key, add).w)
    ensures IsCounter(Abs(mode, AddKey(mode, w, h, key, add).w), h, key, CounterStep(c, add))
  {
    hide WindowInv, Put, AtomAdd, Delete, Find, Abs, WithU64, U64At, LongVal, Uids;
    var m := Abs(mode, w);
    FindCorrect(mode, w, h, key);
    var x :| OnlyAnswer(m, h, key, x) && |m[x].val| == 8 && U64At(m[x].val) == c.value;
    assert x == u && u in Uids() by { InAbs(mode, w, u); }
    AtomAddRefines(mode, w, u, add);
    var w1 := AtomAdd(mode, w, u, add).0;
    var m1 := Abs(mode, w1);
    var sum := (U64At(m[u].val) + add) % TWO_64;
    U64RoundTrip(m[u].val, sum);
    assert m1 == m[u := m[u].(val := WithU64(m[u].val, sum))];
    assert forall y :: Answers(m1, h, key, y) <==> Answers(m, h, key, y);
    assert OnlyAnswer(m1, h, key, u);
    if sum == 0 {
      FindCorrect(mode, w1, h, key);
      assert Find(mode, w1, h, key) == Some(u);
      DeleteRefines(mode, w1, u);
      assert forall y :: !Answers(m1 - {u}, h, key, y);
    }
  }

  /** Of the records with this hash and key, the one a lookup finds. */
  ghost predicate Lowest(m: map<Uid, Record>, h: Hash, key: seq<Byte>, u: Uid) {
    Answers(m, h, key, u) && forall x :: Answers(m, h, key, x) ==> u.slot <= x.slot
  }

  /** The call on any key, counter or not: without a record it puts one with the amount; a value of fewer than eight bytes is
      refused; otherwise the first eight bytes get the wrapped sum, and a record whose sum is zero goes. */
  lemma AddKeyMeans(mode: Mode, w: Window, h: Hash, key: seq<Byte>, add: int)
    requires WindowInv(mode, w) && ValidHash(h) && Accepts(mode, key, LongVal(add))
    ensures var m, r := Abs(mode, w), AddKey(mode, w, h, key, add);
            && (r.Aborted? <==> (forall u :: !Answers(m, h, key, u)) && !Put(mode, w, h, key, LongVal(add)).Stored?)
            && (r.Rejected? <==> exists u :: Lowest(m, h, key, u) && |m[u].val| < 8)
            && (r.Added? ==> WindowInv(mode, r.w))
            && (r.Added? && (forall u :: !Answers(m, h, key, u)) ==>
                  exists u :: u !in m && Abs(mode, r.w) == m[u := Record(h.rnd, key, LongVal(add))])
            && (forall u :: r.Added? && Lowest(m, h, key, u) ==>
                  |m[u].val| >= 8 && var sum := (U64At(m[u].val) + add) % 0x1_0000_0000_0000_0000;
                  Abs(mode, r.w) == if sum == 0 then m - {u} else m[u := Record(m[u].rnd, key, WithU64(m[u].val, sum))])
  {
    hide WindowInv, Put, AtomAdd, Delete, Find, Abs, WithU64, U64At, LongVal, Uids, Answers;
    var m := Abs(mode, w);
    FindCorrect(mode, w, h, key);
    match Find(mode, w, h, key) {
      case None =>
        PutRefines(mode, w, h, key, LongVal(add));
        var o := Put(mode, w, h, key, LongVal(add));
        if o.Stored? { assert o.u !in m && Abs(mode, o.w) == m[o.u := Record(h.rnd, key, LongVal(add))]; }
      case Some(u) =>
        AddFoundMeans(mode, w, h, key, add, u);
        OneLowest(m, h, key, u);
    }
  }

  lemma OneLowest(m: map<Uid, Record>, h: Hash, key: seq<Byte>, u: Uid)
    requires Lowest(m, h, key, u)
    ensures forall x :: Lowest(m, h, key, x) ==> x == u
  {
  }

  lemma AddFoundMeans(mode: Mode, w: Window, h: Hash, key: seq<Byte>, add: int, u: Uid)
    requires WindowInv(mode, w) && ValidHash(h) && Accepts(mode, key, LongVal(add)) && Find(mode, w, h, key) == Some(u)
    ensures var m, r := Abs(mode, w), AddKey(mode, w, h, key, add);
            && Lowest(m, h, key, u) && u in m && m[u].key == key
            && (|m[u].val| < 8 ==> r.Rejected?)
            && (|m[u].val| >= 8 ==> r.Added? && WindowInv(mode, r.w) && var sum := (U64At(m[u].val) + add) % TWO_64;
                  Abs(mode, r.w) == if sum == 0 then m - {u} else m[u := m[u].(val := WithU64(m[u].val, sum))])
  {
    hide WindowInv, Put, AtomAdd, Delete, Find, Abs, WithU64, U64At, LongVal, Uids;
    var m := Abs(mode, w);
    FindCorrect(mode, w, h, key);
    InAbs(mode, w, u);
    AtomAddRefines(mode, w, u, add);
    if |m[u].val| >= 8 {
      var w1 := AtomAdd(mode, w, u, add).0;
      var m1 := Abs(mode, w1);
      var sum := (U64At(m[u].val) + add) % TWO_64;
      U64RoundTrip(m[u].val, sum);
      assert m1 == m[u := m[u].(val := WithU64(m[u].val, sum))];
      assert forall y :: Answers(m1, h, key, y) <==> Answers(m, h, key, y);
      if sum == 0 {
        FindCorrect(mode, w1, h, key);
        assert Find(mode, w1, h, key) == Some(u);
        DeleteRefines(mode, w1, u);
        assert m1 - {u} == m - {u};
      }
    }
  }

  lemma InAbs(mode: Mode, w: Window, u: Uid)
    requires WindowInv(mode, w) && u in Abs(mode, w)
    ensures u in Uids()
  {
  }

  /** A call other than an add-create-delete leaves the counter alone unless it puts the key or changes its record. */
  lemma OthersKeepCounter(m: map<Uid, Record>, op: Op, on: Option<Uid>, m': map<Uid, Record>, reply: Reply,
                          h: Hash, key: seq<Byte>, c: Option<nat>)
    requires IsCounter(m, h, key, c) && MapStep(m, op, on, m', reply)
    requires op.PutOp? ==> op.h != h || op.key != key
    requires !op.PutOp? && !op.GetOp? && on.Some? ==> !Answers(m, h, key, on.value)
    ensures IsCounter(m', h, key, c)
  {
    hide WithU64, U64At;
    SameAnswers(m, op, on, m', reply, h, key);
    SameCounter(m, m', h, key, c);
  }

  lemma SameAnswers(m: map<Uid, Record>, op: Op, on: Option<Uid>, m': map<Uid, Record>, reply: Reply, h: Hash, key: seq<Byte>)
    requires MapStep(m, op, on, m', reply)
    requires op.PutOp? ==> op.h != h || op.key != key
    requires !op.PutOp? && !op.GetOp? && on.Some? ==> !Answers(m, h, key, on.value)
    ensures forall u :: Answers(m', h, key, u) <==> Answers(m, h, key, u)
    ensures forall u :: Answers(m, h, key, u) ==> u in m' && m'[u] == m[u]
  {
    hide WithU64, U64At, Targets;
  }

  lemma SameCounter(m: map<Uid, Record>, m': map<Uid, Record>, h: Hash, key: seq<Byte>, c: Option<nat>)
    requires IsCounter(m, h, key, c)
    requires forall u :: Answers(m', h, key, u) <==> Answers(m, h, key, u)
    requires forall u :: Answers(m, h, key, u) ==> u in m' && m'[u] == m[u]
    ensures IsCounter(m', h, key, c)
  {
    hide U64At;
    if c.Some? {
      var u :| OnlyAnswer(m, h, key, u) && |m[u].val| == 8 && U64At(m[u].val) == c.value;
      assert OnlyAnswer(m', h, key, u);
    }
  }

  /** The window after an add-create-delete; None when it aborted. A refused add changes nothing. */
  ghost function AfterAdd(mode: Mode, w: Window, h: Hash, key: seq<Byte>, add: int): Option<Window>
    requires WindowInv(mode, w) && ValidHash(h) && Accepts(mode, key, LongVal(add))
  {
    match AddKey(mode, w, h, key, add)
    case Added(w') => Some(w')
    case Rejected => Some(w)
    case Aborted => None
  }

  /** One key's counter is another key's bystander. */
  lemma OtherKeysKeepCounter(mode: Mode, w: Window, h2: Hash, key2: seq<Byte>, add: int, h: Hash, key: seq<Byte>, c: Option<nat>)
    requires WindowInv(mode, w) && ValidHash(h2) && Accepts(mode, key2, LongVal(add)) && (h2 != h || key2 != key)
    requires IsCounter(Abs(mode, w), h, key, c)
    ensures AfterAdd(mode, w, h2, key2, add).Some? ==>
              WindowInv(mode, AfterAdd(mode, w, h2, key2, add).value) &&
              IsCounter(Abs(mode, AfterAdd(mode, w, h2, key2, add).value), h, key, c)
  {
    hide WindowInv, Put, AtomAdd, Delete, Find, Abs, WithU64, U64At, LongVal, Uids, IsCounter;
    FindCorrect(mode, w, h2, key2);
    match Find(mode, w, h2, key2) {
      case None =>
        PutRefines(mode, w, h2, key2, LongVal(add));
        var o := Put(mode, w, h2, key2, LongVal(add));
        if o.Stored? { SameCounter(Abs(mode, w), Abs(mode, o.w), h, key, c); }
      case Some(u) =>
        OtherFound(mode, w, h2, key2, add, u, h, key, c);
    }
  }

  lemma OtherFound(mode: Mode, w: Window, h2: Hash, key2: seq<Byte>, add: int, u: Uid, h: Hash, key: seq<Byte>, c: Option<nat>)
    requires WindowInv(mode, w) && ValidHash(h2) && Accepts(mode, key2, LongVal(add)) && (h2 != h || key2 != key)
    requires IsCounter(Abs(mode, w), h, key, c) && Find(mode, w, h2, key2) == Some(u)
    ensures AfterAdd(mode, w, h2, key2, add).Some? && WindowInv(mode, AfterAdd(mode, w, h2, key2, add).value)
    ensures IsCounter(Abs(mode, AfterAdd(mode, w, h2, key2, add).value), h, key, c)
  {
    hide WindowInv, Put, AtomAdd, Delete, Find, Abs, WithU64, U64At, LongVal, Uids, IsCounter;
    var m := Abs(mode, w);
    FindCorrect(mode, w, h2, key2);
    InAbs(mode, w, u);
    AtomAddRefines(mode, w, u, add);
    var w1 := AtomAdd(mode, w, u, add).0;
    var m1 := Abs(mode, w1);
    assert !Answers(m, h, key, u);
    SameCounter(m, m1, h, key, c);
    FindCorrect(mode, w1, h2, key2);
    if Find(mode, w1, h2, key2).Some? {
      var v := Find(mode, w1, h2, key2).value;
      InAbs(mode, w1, v);
      DeleteRefines(mode, w1, v);
      SameCounter(m1, m1 - {v}, h, key, c);
    }
  }

  // ---- Sequences of adds ------------------------------------------------------------------

  function CounterAfter(adds: seq<int>): Option<nat> {
    if adds == [] then None else CounterStep(CounterAfter(adds[..|adds| - 1]), adds[|adds| - 1])
  }

  function Sum(adds: seq<int>): int {
    if adds == [] then 0 else Sum(adds[..|adds| - 1]) + adds[|adds| - 1]
  }

  /** How many zeros the sequence ends with. */
  function EndZeros(adds: seq<int>): nat {
    if adds == [] || adds[|adds| - 1] != 0 then 0 else EndZeros(adds[..|adds| - 1]) + 1
  }

  lemma SumMod(s: int, a: int)
    ensures (s % TWO_64 + a) % TWO_64 == (s + a) % TWO_64
  {
    var q := s / TWO_64;
    assert s == q * TWO_64 + s % TWO_64;
    var r := (s % TWO_64 + a) / TWO_64;
    assert s + a == (q + r) * TWO_64 + (s % TWO_64 + a) % TWO_64;
    ModUnique(s + a, q + r, (s % TWO_64 + a) % TWO_64);
  }

  lemma ModUnique(x: int, q: int, r: nat)
    requires x == q * TWO_64 + r && r < TWO_64
    ensures x % TWO_64 == r
  {
  }

  /** The whole behaviour of a counter key under adds alone. */
  lemma {:induction false} CounterIs(adds: seq<int>)
    requires forall i :: 0 <= i < |adds| ==> IsLong(adds[i])
    ensures CounterAfter(adds) ==
            if Sum(adds) % TWO_64 != 0 then Some(Sum(adds) % TWO_64)
            else if EndZeros(adds) % 2 == 1 then Some(0)
            else None
  {
    if adds != [] {
      var before, a := adds[..|adds| - 1], adds[|adds| - 1];
      CounterIs(before);
      assert IsLong(a);
      SumMod(Sum(before), a);
      assert a % TWO_64 == 0 <==> a == 0;
    }
  }

  /** The promise, present exactly when the wrapped sum is not zero and then holding that sum, is kept exactly when
      the sum is not zero or an even number of zero adds ends the sequence: a zero add to an absent key creates it. */
  lemma CounterPromise(adds: seq<int>)
    requires forall i :: 0 <= i < |adds| ==> IsLong(adds[i])
    ensures (CounterAfter(adds) == if Sum(adds) % TWO_64 == 0 then None else Some(Sum(adds) % TWO_64))
            <==> (Sum(adds) % TWO_64 != 0 || EndZeros(adds) % 2 == 0)
  {
    CounterIs(adds);
  }

  /** Adding zero to an absent key leaves it present with value zero. */
  lemma ZeroAddCreates()
    ensures CounterAfter([0]) == Some(0) && Sum([0]) == 0
  {
    CounterIs([0]);
    assert CounterAfter([]) == None;
  }

  // ---- Counters among other calls ----------------------------------------------------------

  /** A call on a window: one of the five, or an add-create-delete of some key. */
  datatype Mixed = Plain(op: Op) | AddTo(h: Hash, key: seq<Byte>, add: int)

  ghost predicate ValidMixed(mode: Mode, c: Mixed) {
    match c
    case Plain(op) => ValidOp(mode, op)
    case AddTo(h, key, add) => ValidHash(h) && Accepts(mode, key, LongVal(add)) && IsLong(add)
  }

  /** The window after a call; None when a put aborted. */
  ghost function RunMixed(mode: Mode, w: Window, c: Mixed): Option<Window>
    requires WindowInv(mode, w) && ValidMixed(mode, c)
  {
    match c
    case Plain(op) => (match Run(mode, w, op) case None => None case Some(wr) => Some(wr.0))
    case AddTo(h, key, add) => AfterAdd(mode, w, h, key, add)
  }

  /** trace is a run of calls on any keys, none of which aborts. */
  ghost predicate IsMixedRun(mode: Mode, trace: seq<Window>, calls: seq<Mixed>) {
    && |trace| == |calls| + 1
    && (forall k :: 0 <= k < |calls| ==> ValidMixed(mode, calls[k]))
    && (forall k {:trigger calls[k]} :: 0 <= k < |calls| && WindowInv(mode, trace[k]) ==>
          RunMixed(mode, trace[k], calls[k]) == Some(trace[k + 1]))
  }

  /** A call that is not an add-create-delete neither puts the key nor changes a record of it. */
  ghost predicate Spares(mode: Mode, w: Window, c: Mixed, h: Hash, key: seq<Byte>)
    requires WindowInv(mode, w) && ValidMixed(mode, c)
  {
    c.Plain? ==>
      && (c.op.PutOp? ==> c.op.h != h || c.op.key != key)
      && (!c.op.PutOp? && !c.op.GetOp? && TargetOf(mode, w, c.op).Some? ==> !Answers(Abs(mode, w), h, key, TargetOf(mode, w, c.op).value))
  }

  /** The key is touched only by add-create-delete calls along the run. */
  ghost predicate OnlyAdded(mode: Mode, trace: seq<Window>, calls: seq<Mixed>, h: Hash, key: seq<Byte>) {
    forall k :: 0 <= k < |calls| && k < |trace| && WindowInv(mode, trace[k]) && ValidMixed(mode, calls[k]) ==>
      Spares(mode, trace[k], calls[k], h, key)
  }

  /** The amounts added to this key, in order. */
  function OwnAdds(calls: seq<Mixed>, h: Hash, key: seq<Byte>): (adds: seq<int>)
    ensures (forall k :: 0 <= k < |calls| && calls[k].AddTo? ==> IsLong(calls[k].add)) ==> forall i :: 0 <= i < |adds| ==> IsLong(adds[i])
  {
    if calls == [] then []
    else
      var c := calls[|calls| - 1];
      OwnAdds(calls[..|calls| - 1], h, key) + if c.AddTo? && c.h == h && c.key == key then [c.add] else []
  }

  lemma MixedStep(mode: Mode, w: Window, call: Mixed, h: Hash, key: seq<Byte>, adds: seq<int>)
    requires WindowInv(mode, w) && ValidMixed(mode, call) && RunMixed(mode, w, call).Some? && Spares(mode, w, call, h, key)
    requires IsCounter(Abs(mode, w), h, key, CounterAfter(adds))
    ensures WindowInv(mode, RunMixed(mode, w, call).value)
    ensures IsCounter(Abs(mode, RunMixed(mode, w, call).value), h, key, CounterAfter(adds + OwnAdds([call], h, key)))
  {
    hide WindowInv, AddKey, Abs, IsCounter, Run, TargetOf, LongVal, Answers;
    assert [call][..0] == [];
    match call {
      case Plain(op) =>
        RunRefines(mode, w, op);
        OthersKeepCounter(Abs(mode, w), op, TargetOf(mode, w, op), Abs(mode, Run(mode, w, op).value.0), Run(mode, w, op).value.1,
                          h, key, CounterAfter(adds));
        assert adds + [] == adds;
      case AddTo(h2, key2, add) =>
        if h2 == h && key2 == key {
          AddKeySteps(mode, w, h, key, add, CounterAfter(adds));
          assert (adds + [add])[..|adds|] == adds;
        } else {
          OtherKeysKeepCounter(mode, w, h2, key2, add, h, key, CounterAfter(adds));
          assert adds + [] == adds;
        }
    }
  }

  /** Over every run of calls on any keys, with all their partings and shrinks: a key that was absent and that only
      add-create-delete calls touch is, at every moment, what its own adds in their order make it. */
  lemma {:induction false} MixedAddsCount(mode: Mode, trace: seq<Window>, calls: seq<Mixed>, h: Hash, key: seq<Byte>)
    requires IsMixedRun(mode, trace, calls) && OnlyAdded(mode, trace, calls, h, key)
    requires WindowInv(mode, trace[0]) && IsCounter(Abs(mode, trace[0]), h, key, None)
    ensures WindowInv(mode, trace[|calls|])
    ensures IsCounter(Abs(mode, trace[|calls|]), h, key, CounterAfter(OwnAdds(calls, h, key)))
  {
    hide WindowInv, RunMixed, Abs, IsCounter, Spares;
    if calls != [] {
      var n := |calls| - 1;
      MixedAddsCount(mode, trace[..n + 1], calls[..n], h, key);
      assert ValidMixed(mode, calls[n]) && RunMixed(mode, trace[n], calls[n]) == Some(trace[n + 1]);
      MixedStep(mode, trace[n], calls[n], h, key, OwnAdds(calls[..n], h, key));
      assert [calls[n]][..0] == [];
    }
  }

  /** So its value is the wrapped sum of its own adds, exactly as CounterIs says. */
  lemma CounterInStore(mode: Mode, trace: seq<Window>, calls: seq<Mixed>, h: Hash, key: seq<Byte>)
    requires IsMixedRun(mode, trace, calls) && OnlyAdded(mode, trace, calls, h, key)
    requires WindowInv(mode, trace[0]) && IsCounter(Abs(mode, trace[0]), h, key, None)
    ensures WindowInv(mode, trace[|calls|])
    ensures var adds := OwnAdds(calls, h, key);
            IsCounter(Abs(mode, trace[|calls|]), h, key,
                      if Sum(adds) % TWO_64 != 0 then Some(Sum(adds) % TWO_64) else if EndZeros(adds) % 2 == 1 then Some(0) else None)
  {
    hide WindowInv, Abs, IsCounter, OnlyAdded;
    MixedAddsCount(mode, trace, calls, h, key);
    CounterIs(OwnAdds(calls, h, key));
  }
}
