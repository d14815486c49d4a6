/** The fair read/write ticket lock, as an interleaving of its atomic steps over any number of threads. */
module TicketLock {
  import opened Common
  import opened LockWord

  // Where a thread stands in the lock code; t is the 8-bit ticket it read from ticket_next.
  datatype Pc =
    | Idle
    | WriterTook(t: nat)    // added to ticket_next, pad_ticket_next not yet cleared
    | WriterSpin(t: nat)    // comparing t with ticket_active_writer
    | WriterIn(t: nat)      // lock held for writing
    | WriterGave            // added to both active tickets, no pad cleared yet
    | WriterCleared         // pad_ticket_active_writer cleared, pad_ticket_active_reader not yet
    | ReaderTook(t: nat)    // added to ticket_next, pad_ticket_next not yet cleared
    | ReaderSpin(t: nat)    // comparing t with ticket_active_reader
    | ReaderSaw(t: nat)     // comparison succeeded, ticket_active_reader not yet stepped
    | ReaderAdded(t: nat)   // stepped ticket_active_reader, its pad not yet cleared
    | ReaderIn(t: nat)      // lock held for reading
    | ReaderGave            // stepped ticket_active_writer, its pad not yet cleared
  {
    /** A ticket is outstanding from the add that takes it to the add that releases it. */
    predicate Outstanding() {
      WriterTook? || WriterSpin? || WriterIn? || ReaderTook? || ReaderSpin? || ReaderSaw? || ReaderAdded? || ReaderIn?
    }

    /** Readers that have let the next ticket pass them. */
    predicate ReaderInside() { ReaderAdded? || ReaderIn? }

    /** Threads whose wait is over and whose ticket is not yet released. */
    predicate Entered() { WriterIn? || ReaderSaw? || ReaderAdded? || ReaderIn? }

    predicate Waiting() { Outstanding() && !Entered() }

    // Threads between a lane's add and the clearing of that lane's pad byte.
    predicate Unclear(l: Lane) {
      match l
      case WriterLane => WriterGave? || ReaderGave?
      case ReaderLane => WriterGave? || WriterCleared? || ReaderAdded?
      case NextLane => WriterTook? || ReaderTook?
    }
  }

  /** The shared word and the threads. The last four fields are history variables: steps
      write them but no step reads them. */
  datatype State = State(
    word: Word,
    pcs: seq<Pc>,
    arrivals: seq<nat>,   // arrivals[k] is the thread that took the k-th ticket
    order: seq<nat>,      // the unbounded number of each thread's latest ticket
    passed: nat,          // steps of ticket_active_reader so far
    released: nat)        // steps of ticket_active_writer so far

  datatype Turn = Turn(thread: nat, asWriter: bool)

  function Init(n: nat): State {
    State(0, seq(n, i => Idle), [], seq(n, i => 0), 0, 0)
  }

  /** Lanes whose ticket an atomic add of this step increments. */
  predicate Adds(pc: Pc, l: Lane) {
    match l
    case WriterLane => pc.WriterIn? || pc.ReaderIn?
    case ReaderLane => pc.WriterIn? || pc.ReaderSaw?
    case NextLane => pc.Idle?
  }

  /** Lanes whose pad byte this step stores zero to. */
  predicate Clears(pc: Pc, l: Lane) {
    match l
    case WriterLane => pc.WriterGave? || pc.ReaderGave?
    case ReaderLane => pc.WriterCleared? || pc.ReaderAdded?
    case NextLane => pc.WriterTook? || pc.ReaderTook?
  }

  /** The one memory operation of a step from pc. */
  function NextWord(w: Word, pc: Pc): Word {
    match pc
    case Idle => FetchAdd(w, Increment(NextLane))
    case WriterIn(_) => FetchAdd(w, Increment(WriterLane) + Increment(ReaderLane))
    case ReaderSaw(_) => FetchAdd(w, Increment(ReaderLane))
    case ReaderIn(_) => FetchAdd(w, Increment(WriterLane))
    case WriterTook(_) => StoreZeroPad(w, NextLane)
    case ReaderTook(_) => StoreZeroPad(w, NextLane)
    case WriterGave => StoreZeroPad(w, WriterLane)
    case ReaderGave => StoreZeroPad(w, WriterLane)
    case WriterCleared => StoreZeroPad(w, ReaderLane)
    case ReaderAdded(_) => StoreZeroPad(w, ReaderLane)
    case WriterSpin(_) => w
    case ReaderSpin(_) => w
  }

  /** Where the thread goes, given the three ticket bytes it could read. An idle thread starts a
      writer or a reader lock call; a thread that holds the lock may release it. */
  function Advance(pc: Pc, asWriter: bool, next: nat, activeReader: nat, activeWriter: nat): Pc {
    match pc
    case Idle => if asWriter then WriterTook(next) else ReaderTook(next)
    case WriterTook(t) => WriterSpin(t)
    case WriterSpin(t) => if t == activeWriter then WriterIn(t) else pc
    case WriterIn(t) => WriterGave
    case WriterGave => WriterCleared
    case WriterCleared => Idle
    case ReaderTook(t) => ReaderSpin(t)
    case ReaderSpin(t) => if t == activeReader then ReaderSaw(t) else pc
    case ReaderSaw(t) => ReaderAdded(t)
    case ReaderAdded(t) => ReaderIn(t)
    case ReaderIn(t) => ReaderGave
    case ReaderGave => Idle
  }

  /** Thread p goes to pc'; the history variables record it. */
  function Move(s: State, p: nat, pc': Pc, word: Word): State
    requires p < |s.pcs| == |s.order|
  {
    var pc := s.pcs[p];
    State(word,
          s.pcs[p := pc'],
          if Adds(pc, NextLane) then s.arrivals + [p] else s.arrivals,
          if Adds(pc, NextLane) then s.order[p := |s.arrivals|] else s.order,
          s.passed + Bit(Adds(pc, ReaderLane)),
          s.released + Bit(Adds(pc, WriterLane)))
  }

  function Bit(b: bool): nat { if b then 1 else 0 }

  /** One atomic step of one thread. */
  function Step(s: State, turn: Turn): State
    requires turn.thread < |s.pcs| == |s.order|
  {
    var pc := s.pcs[turn.thread];
    Move(s, turn.thread,
         Advance(pc, turn.asWriter, Ticket(s.word, NextLane), Ticket(s.word, ReaderLane), Ticket(s.word, WriterLane)),
         NextWord(s.word, pc))
  }

  /** The state after a schedule: any sequence of turns of n threads. */
  function Exec(n: nat, schedule: seq<Turn>): (s: State)
    requires forall k :: 0 <= k < |schedule| ==> schedule[k].thread < n
    ensures |s.pcs| == n && |s.order| == n
  {
    if schedule == [] then Init(n)
    else Step(Exec(n, schedule[..|schedule| - 1]), schedule[|schedule| - 1])
  }

  ghost predicate Reachable(n: nat, s: State) {
    exists schedule: seq<Turn> | (forall k :: 0 <= k < |schedule| ==> schedule[k].thread < n) :: Exec(n, schedule) == s
  }

  // ---- Counting threads --------------------------------------------------

  function Count(f: Pc -> bool, pcs: seq<Pc>): (c: nat)
    ensures c <= |pcs|
  {
    if pcs == [] then 0 else Count(f, pcs[..|pcs| - 1]) + if f(pcs[|pcs| - 1]) then 1 else 0
  }

  lemma {:induction false} CountUpdate(f: Pc -> bool, pcs: seq<Pc>, p: nat, pc: Pc)
    requires p < |pcs|
    ensures Count(f, pcs[p := pc]) == Count(f, pcs) - Bit(f(pcs[p])) + Bit(f(pc))
    ensures Count(f, pcs) >= Bit(f(pcs[p]))
  {
    var m := |pcs| - 1;
    if p == m {
      assert pcs[p := pc][..m] == pcs[..m];
    } else {
      assert pcs[p := pc][..m] == pcs[..m][p := pc];
      CountUpdate(f, pcs[..m], p, pc);
    }
  }

  lemma {:induction false} CountZero(f: Pc -> bool, pcs: seq<Pc>)
    ensures Count(f, pcs) == 0 <==> forall p :: 0 <= p < |pcs| ==> !f(pcs[p])
  {
    if pcs != [] {
      var m := |pcs| - 1;
      CountZero(f, pcs[..m]);
      assert forall p :: 0 <= p < m ==> pcs[..m][p] == pcs[p];
    }
  }

  function Outstanding(pcs: seq<Pc>): nat { Count((pc: Pc) => pc.Outstanding(), pcs) }
  function Inside(pcs: seq<Pc>): nat { Count((pc: Pc) => pc.ReaderInside(), pcs) }
  function Unclear(pcs: seq<Pc>, l: Lane): nat { Count((pc: Pc) => pc.Unclear(l), pcs) }

  // ---- The packed word decodes to three independent tickets --------------

  /** The unbounded number each lane's ticket byte stands for. */
  function Counter(s: State, l: Lane): nat {
    match l
    case WriterLane => s.released
    case ReaderLane => s.passed
    case NextLane => |s.arrivals|
  }

  /** The ticket byte is its counter modulo 256, and the lane's excess over one byte is at most the
      number of threads that still have to clear the pad. */
  ghost predicate LaneDecodes(s: State, l: Lane) {
    Fits(LaneOf(s.word, l), Counter(s, l), Unclear(s.pcs, l))
  }

  ghost predicate Fits(lane: nat, counter: nat, unclear: nat) {
    lane % 256 == counter % 256 && lane <= 255 + unclear
  }

  ghost predicate Decodes(s: State) {
    LaneDecodes(s, WriterLane) && LaneDecodes(s, ReaderLane) && LaneDecodes(s, NextLane)
  }

  const MOST_THREADS := 65280   // with 255 more, the last value of a 16-bit lane

  lemma UnclearUpdate(pcs: seq<Pc>, p: nat, pc: Pc, l: Lane)
    requires p < |pcs|
    ensures Unclear(pcs[p := pc], l) == Unclear(pcs, l) - Bit(pcs[p].Unclear(l)) + Bit(pc.Unclear(l))
    ensures !pcs[p].Unclear(l) ==> Unclear(pcs, l) < |pcs|
  {
    var f := (pc: Pc) => pc.Unclear(l);
    CountUpdate(f, pcs, p, pc);
    if !pcs[p].Unclear(l) {
      CountMiss(f, pcs, p);
    }
  }

  lemma {:induction false} CountMiss(f: Pc -> bool, pcs: seq<Pc>, p: nat)
    requires p < |pcs| && !f(pcs[p])
    ensures Count(f, pcs) < |pcs|
  {
    var m := |pcs| - 1;
    if p < m { CountMiss(f, pcs[..m], p); }
  }

  lemma WordStep(w: Word, pc: Pc, l: Lane)
    requires forall m: Lane :: Adds(pc, m) ==> LaneOf(w, m) < TWO_16 - 1
    ensures LaneOf(NextWord(w, pc), l) ==
            if Adds(pc, l) then LaneOf(w, l) + 1
            else if Clears(pc, l) then LaneOf(w, l) % 256
            else LaneOf(w, l)
  {
    hide LaneOf, FetchAdd, StoreZeroPad;
    match pc {
      case Idle => AddSteps(w, NextLane, l);
      case WriterIn(_) =>
        assert Adds(pc, WriterLane) && Adds(pc, ReaderLane);
        AddBothSteps(w, l);
      case ReaderSaw(_) => AddSteps(w, ReaderLane, l);
      case ReaderIn(_) => AddSteps(w, WriterLane, l);
      case WriterTook(_) => ClearPad(w, NextLane, l);
      case ReaderTook(_) => ClearPad(w, NextLane, l);
      case WriterGave => ClearPad(w, WriterLane, l);
      case ReaderGave => ClearPad(w, WriterLane, l);
      case WriterCleared => ClearPad(w, ReaderLane, l);
      case ReaderAdded(_) => ClearPad(w, ReaderLane, l);
      case WriterSpin(_) =>
      case ReaderSpin(_) =>
    }
  }

  /** One lane, as numbers, in a step that adds, clears or keeps. */
  lemma LaneArithmetic(lane: nat, counter: nat, unclear: nat, adds: bool, clears: bool)
    requires Fits(lane, counter, unclear)
    requires !(adds && clears) && (clears ==> unclear > 0)
    ensures Fits(if adds then lane + 1 else if clears then lane % 256 else lane,
                 counter + Bit(adds), unclear + Bit(adds) - Bit(clears))
  {
  }

  lemma PadOfFit(lane: nat, counter: nat, unclear: nat)
    requires Fits(lane, counter, unclear)
    ensures lane / 256 <= unclear
  {
  }

  lemma NotFull(s: State, p: nat, l: Lane)
    requires p < |s.pcs| <= MOST_THREADS && Decodes(s)
    requires !s.pcs[p].Unclear(l)
    ensures LaneOf(s.word, l) < TWO_16 - 1
  {
    hide LaneOf;
    assert LaneDecodes(s, l);
    UnclearUpdate(s.pcs, p, Idle, l);
  }

  lemma DecodeLaneStep(s: State, p: nat, pc': Pc, l: Lane)
    requires p < |s.pcs| == |s.order| <= MOST_THREADS
    requires Decodes(s)
    requires Bit(pc'.Unclear(l)) == Bit(s.pcs[p].Unclear(l)) + Bit(Adds(s.pcs[p], l)) - Bit(Clears(s.pcs[p], l))
    ensures LaneDecodes(Move(s, p, pc', NextWord(s.word, s.pcs[p])), l)
  {
    hide LaneOf, NextWord;
    var pc := s.pcs[p];
    forall m: Lane | Adds(pc, m) ensures LaneOf(s.word, m) < TWO_16 - 1 { NotFull(s, p, m); }
    WordStep(s.word, pc, l);
    UnclearUpdate(s.pcs, p, pc', l);
    assert LaneDecodes(s, l);
    var s' := Move(s, p, pc', NextWord(s.word, pc));
    var lane, counter, unclear := LaneOf(s.word, l), Counter(s, l), Unclear(s.pcs, l);
    LaneArithmetic(lane, counter, unclear, Adds(pc, l), Clears(pc, l));
    assert Counter(s', l) == counter + Bit(Adds(pc, l));
    assert Unclear(s'.pcs, l) == unclear + Bit(Adds(pc, l)) - Bit(Clears(pc, l));
  }

  lemma DecodeStep(s: State, turn: Turn)
    requires turn.thread < |s.pcs| == |s.order| <= MOST_THREADS
    requires Decodes(s)
    ensures Decodes(Step(s, turn))
  {
    hide Ticket, LaneOf, NextWord;
    var pc' := Step(s, turn).pcs[turn.thread];
    DecodeLaneStep(s, turn.thread, pc', WriterLane);
    DecodeLaneStep(s, turn.thread, pc', ReaderLane);
    DecodeLaneStep(s, turn.thread, pc', NextLane);
  }

  /** In every reachable state of up to 65280 threads each ticket byte equals its own counter modulo 256,
      and a pad byte is at most the number of threads that have still to clear it. */
  lemma {:induction false} TicketsDecode(n: nat, schedule: seq<Turn>)
    requires n <= MOST_THREADS
    requires forall k :: 0 <= k < |schedule| ==> schedule[k].thread < n
    ensures Decodes(Exec(n, schedule))
    ensures forall l: Lane :: Ticket(Exec(n, schedule).word, l) == Counter(Exec(n, schedule), l) % 256
    ensures forall l: Lane :: LaneOf(Exec(n, schedule).word, l) / 256 <= Unclear(Exec(n, schedule).pcs, l)
  {
    hide Ticket, NextWord, Step;
    if schedule != [] {
      TicketsDecode(n, schedule[..|schedule| - 1]);
      DecodeStep(Exec(n, schedule[..|schedule| - 1]), schedule[|schedule| - 1]);
    }
    var s := Exec(n, schedule);
    assert Decodes(s);
    forall l: Lane ensures Ticket(s.word, l) == Counter(s, l) % 256 {
      TicketOfLane(s.word, l);
      assert LaneDecodes(s, l);
    }
    forall l: Lane ensures LaneOf(s.word, l) / 256 <= Unclear(s.pcs, l) {
      assert LaneDecodes(s, l);
      PadOfFit(LaneOf(s.word, l), Counter(s, l), Unclear(s.pcs, l));
    }
  }

  // ---- The order of tickets ----------------------------------------------

  /** What thread p's place in the code says about its ticket number. */
  ghost predicate TicketInOrder(s: State, p: nat)
    requires p < |s.pcs| == |s.order|
  {
    s.pcs[p].Outstanding() ==>
      && s.order[p] < |s.arrivals|
      && s.arrivals[s.order[p]] == p
      && s.pcs[p].t == s.order[p] % 256
      && (s.pcs[p].ReaderInside() <==> s.order[p] < s.passed)
      && (s.pcs[p].WriterIn? ==> s.order[p] == s.passed == s.released)
      && (s.pcs[p].ReaderSaw? ==> s.order[p] == s.passed)
  }

  /** Every ticket not yet passed belongs to a thread that is still at it. */
  ghost predicate TicketOwned(s: State, k: nat)
    requires k < |s.arrivals| && |s.pcs| == |s.order|
  {
    var p := s.arrivals[k];
    p < |s.pcs| && s.pcs[p].Outstanding() && !s.pcs[p].ReaderInside() && s.order[p] == k
  }

  ghost predicate Ordered(s: State) {
    && |s.pcs| == |s.order|
    && s.passed <= |s.arrivals|
    && |s.arrivals| == s.released + Outstanding(s.pcs)
    && s.passed == s.released + Inside(s.pcs)
    && (forall p :: 0 <= p < |s.pcs| ==> TicketInOrder(s, p))
    && (forall k :: s.passed <= k < |s.arrivals| ==> TicketOwned(s, k))
  }

  lemma CountsUpdate(pcs: seq<Pc>, p: nat, pc: Pc)
    requires p < |pcs|
    ensures Outstanding(pcs[p := pc]) == Outstanding(pcs) - Bit(pcs[p].Outstanding()) + Bit(pc.Outstanding())
    ensures Inside(pcs[p := pc]) == Inside(pcs) - Bit(pcs[p].ReaderInside()) + Bit(pc.ReaderInside())
    ensures Outstanding(pcs) >= Bit(pcs[p].Outstanding())
    ensures Inside(pcs) >= Bit(pcs[p].ReaderInside())
    ensures Outstanding(pcs) <= |pcs|
  {
    CountUpdate((pc: Pc) => pc.Outstanding(), pcs, p, pc);
    CountUpdate((pc: Pc) => pc.ReaderInside(), pcs, p, pc);
  }

  lemma CloseMod(x: nat, c: nat)
    requires c <= x < c + 256
    ensures x % 256 == c % 256 <==> x == c
  {
  }

  /** With at most 256 tickets outstanding, equality modulo 256 is equality for a ticket that waits. */
  lemma NoAlias(s: State, p: nat)
    requires Ordered(s) && p < |s.pcs| && Outstanding(s.pcs) <= 256
    requires s.pcs[p].Outstanding() && !s.pcs[p].ReaderInside()
    ensures s.released <= s.passed <= s.order[p] < s.released + 256
    ensures s.pcs[p].t == s.released % 256 <==> s.order[p] == s.released
    ensures s.pcs[p].t == s.passed % 256 <==> s.order[p] == s.passed
  {
    assert TicketInOrder(s, p);
    CountsUpdate(s.pcs, p, Idle);
    CloseMod(s.order[p], s.released);
    CloseMod(s.order[p], s.passed);
  }

  /** Where p goes when the ticket bytes it reads are the counters modulo 256. */
  function Exact(s: State, p: nat, asWriter: bool): Pc
    requires p < |s.pcs|
  {
    Advance(s.pcs[p], asWriter, |s.arrivals| % 256, s.passed % 256, s.released % 256)
  }

  lemma OrderOfMover(s: State, p: nat, asWriter: bool, word: Word)
    requires p < |s.pcs| && Outstanding(s.pcs) <= 256
    requires Ordered(s)
    ensures TicketInOrder(Move(s, p, Exact(s, p, asWriter), word), p)
  {
    assert TicketInOrder(s, p);
    if s.pcs[p].Outstanding() && !s.pcs[p].ReaderInside() { NoAlias(s, p); }
  }

  lemma OrderOfOther(s: State, p: nat, pc': Pc, word: Word, q: nat)
    requires p < |s.pcs| && q < |s.pcs| && p != q
    requires Ordered(s)
    ensures TicketInOrder(Move(s, p, pc', word), q)
  {
    assert TicketInOrder(s, p) && TicketInOrder(s, q);
    if s.pcs[q].WriterIn? {
      CountZero((pc: Pc) => pc.ReaderInside(), s.pcs);
    }
  }

  lemma OwnerOfTicket(s: State, p: nat, asWriter: bool, word: Word, k: nat)
    requires p < |s.pcs| && Outstanding(s.pcs) <= 256
    requires Ordered(s)
    requires var s' := Move(s, p, Exact(s, p, asWriter), word); s'.passed <= k < |s'.arrivals|
    ensures TicketOwned(Move(s, p, Exact(s, p, asWriter), word), k)
  {
    assert TicketInOrder(s, p);
    assert k < |s.arrivals| ==> TicketOwned(s, k);
  }

  /** A step with at most 256 tickets outstanding keeps the order of tickets. */
  lemma OrderMove(s: State, p: nat, asWriter: bool, word: Word)
    requires p < |s.pcs| && Outstanding(s.pcs) <= 256
    requires Ordered(s)
    ensures Ordered(Move(s, p, Exact(s, p, asWriter), word))
  {
    var s' := Move(s, p, Exact(s, p, asWriter), word);
    CountsUpdate(s.pcs, p, Exact(s, p, asWriter));
    assert TicketInOrder(s, p);
    forall q | 0 <= q < |s.pcs| ensures TicketInOrder(s', q) {
      if q == p { OrderOfMover(s, p, asWriter, word); } else { OrderOfOther(s, p, Exact(s, p, asWriter), word, q); }
    }
    forall k | s'.passed <= k < |s'.arrivals| ensures TicketOwned(s', k) {
      OwnerOfTicket(s, p, asWriter, word, k);
    }
  }

  /** Before every turn of the schedule at most 256 tickets are outstanding. */
  ghost predicate BoundedBefore(n: nat, schedule: seq<Turn>) {
    && n <= MOST_THREADS
    && (forall k :: 0 <= k < |schedule| ==> schedule[k].thread < n)
    && (forall k :: 0 <= k < |schedule| ==> Outstanding(Exec(n, schedule[..k]).pcs) <= 256)
  }

  /** And so they are after it. */
  ghost predicate Bounded(n: nat, schedule: seq<Turn>) {
    BoundedBefore(n, schedule) && Outstanding(Exec(n, schedule).pcs) <= 256
  }

  lemma BoundedPrefix(n: nat, schedule: seq<Turn>, k: nat)
    requires BoundedBefore(n, schedule) && k < |schedule|
    ensures Bounded(n, schedule[..k])
  {
    hide Exec;
    forall j | 0 <= j < k ensures schedule[..k][..j] == schedule[..j] {}
  }

  /** At most 256 threads never have more than 256 tickets out. */
  lemma FewAreBounded(n: nat, schedule: seq<Turn>)
    requires n <= 256
    requires forall k :: 0 <= k < |schedule| ==> schedule[k].thread < n
    ensures Bounded(n, schedule)
  {
    hide Step;
  }

  lemma {:induction false} RunOrdered(n: nat, schedule: seq<Turn>)
    requires BoundedBefore(n, schedule)
    ensures Ordered(Exec(n, schedule))
  {
    hide Ticket, LaneOf, NextWord;
    if schedule == [] {
      CountZero((pc: Pc) => pc.Outstanding(), Init(n).pcs);
      CountZero((pc: Pc) => pc.ReaderInside(), Init(n).pcs);
    } else {
      var before, turn := schedule[..|schedule| - 1], schedule[|schedule| - 1];
      BoundedPrefix(n, schedule, |schedule| - 1);
      RunOrdered(n, before);
      var s := Exec(n, before);
      TicketsDecode(n, before);
      assert Counter(s, NextLane) == |s.arrivals| && Counter(s, ReaderLane) == s.passed && Counter(s, WriterLane) == s.released;
      OrderMove(s, turn.thread, turn.asWriter, NextWord(s.word, s.pcs[turn.thread]));
    }
  }

  // ---- Mutual exclusion --------------------------------------------------

  /** A writer that holds the lock is the only thread past its wait. */
  ghost predicate Exclusive(s: State) {
    forall p, q :: 0 <= p < |s.pcs| && 0 <= q < |s.pcs| && p != q && s.pcs[p].WriterIn? ==> !s.pcs[q].Entered()
  }

  lemma OrderedIsExclusive(s: State)
    requires Ordered(s)
    ensures Exclusive(s)
  {
    forall p, q | 0 <= p < |s.pcs| && 0 <= q < |s.pcs| && p != q && s.pcs[p].WriterIn? ensures !s.pcs[q].Entered() {
      assert TicketInOrder(s, p) && TicketInOrder(s, q);
      CountZero((pc: Pc) => pc.ReaderInside(), s.pcs);
    }
  }

  /** As long as never more than 256 tickets were outstanding before a turn, a writer that holds the lock is alone. */
  lemma MutualExclusion(n: nat, schedule: seq<Turn>)
    requires BoundedBefore(n, schedule)
    ensures Exclusive(Exec(n, schedule))
  {
    RunOrdered(n, schedule);
    OrderedIsExclusive(Exec(n, schedule));
  }

  // ---- Fairness ----------------------------------------------------------

  /** On this turn a thread's wait ends although q's earlier ticket is still out. */
  ghost predicate EntersBefore(s: State, turn: Turn, q: nat)
    requires turn.thread < |s.pcs| == |s.order| && q < |s.pcs|
  {
    && s.pcs[turn.thread].Waiting() && Step(s, turn).pcs[turn.thread].Entered()
    && s.pcs[q].Outstanding() && s.order[q] < s.order[turn.thread]
  }

  /** The turn on which a thread's wait ends comes after every earlier ticket was released, or, for
      a reader, after every earlier ticket was released or is held by a reader. */
  lemma NoOvertaking(n: nat, schedule: seq<Turn>, turn: Turn, q: nat)
    requires Bounded(n, schedule) && turn.thread < n && q < n
    ensures var s := Exec(n, schedule);
            EntersBefore(s, turn, q) ==> s.pcs[turn.thread].ReaderSpin? && s.pcs[q].ReaderInside()
  {
    hide Ticket, LaneOf, Exec, Step, EntersBefore;
    RunOrdered(n, schedule);
    TicketsDecode(n, schedule);
    var s := Exec(n, schedule);
    assert Counter(s, ReaderLane) == s.passed && Counter(s, WriterLane) == s.released;
    if EntersBefore(s, turn, q) { EarlierInside(s, turn, q); }
  }

  lemma EarlierInside(s: State, turn: Turn, q: nat)
    requires turn.thread < |s.pcs| && q < |s.pcs| && Ordered(s) && Outstanding(s.pcs) <= 256
    requires Ticket(s.word, ReaderLane) == s.passed % 256 && Ticket(s.word, WriterLane) == s.released % 256
    requires EntersBefore(s, turn, q)
    ensures s.pcs[turn.thread].ReaderSpin? && s.pcs[q].ReaderInside()
  {
    hide Ticket, LaneOf, NextWord;
    var p := turn.thread;
    assert TicketInOrder(s, p) && TicketInOrder(s, q);
    NoAlias(s, p);
    if s.pcs[p].WriterSpin? {
      assert s.order[p] == s.released == s.passed;
      CountZero((pc: Pc) => pc.ReaderInside(), s.pcs);
    }
  }

  // ---- Never stuck -------------------------------------------------------

  ghost predicate AllIdle(s: State) {
    forall i :: 0 <= i < |s.pcs| ==> s.pcs[i].Idle?
  }

  /** Unless every thread is idle, some thread inside the lock code can move on. */
  lemma SomeoneMoves(n: nat, schedule: seq<Turn>) returns (p: nat)
    requires Bounded(n, schedule)
    requires !AllIdle(Exec(n, schedule))
    ensures p < n && !Exec(n, schedule).pcs[p].Idle?
    ensures Step(Exec(n, schedule), Turn(p, true)).pcs[p] != Exec(n, schedule).pcs[p]
  {
    hide Ticket, LaneOf, NextWord;
    var s := Exec(n, schedule);
    RunOrdered(n, schedule);
    TicketsDecode(n, schedule);
    if q :| 0 <= q < n && !s.pcs[q].Idle? && !s.pcs[q].WriterSpin? && !s.pcs[q].ReaderSpin? {
      p := q;
    } else {
      // only spinning threads: nobody is inside, so the oldest ticket is both active tickets
      CountZero((pc: Pc) => pc.ReaderInside(), s.pcs);
      CountZero((pc: Pc) => pc.Outstanding(), s.pcs);
      p := s.arrivals[s.passed];
      assert TicketOwned(s, s.passed) && TicketInOrder(s, p);
      NoAlias(s, p);
      assert Counter(s, ReaderLane) == s.passed && Counter(s, WriterLane) == s.released;
    }
  }

  /** Steps a thread has left until it is idle again, not counting failed comparisons. */
  function Left(pc: Pc): nat {
    match pc
    case Idle => 0
    case WriterTook(_) => 5
    case WriterSpin(_) => 4
    case WriterIn(_) => 3
    case WriterGave => 2
    case WriterCleared => 1
    case ReaderTook(_) => 6
    case ReaderSpin(_) => 5
    case ReaderSaw(_) => 4
    case ReaderAdded(_) => 3
    case ReaderIn(_) => 2
    case ReaderGave => 1
  }

  function Work(pcs: seq<Pc>): (w: nat)
    ensures w <= 6 * |pcs|
  {
    if pcs == [] then 0 else Work(pcs[..|pcs| - 1]) + Left(pcs[|pcs| - 1])
  }

  lemma {:induction false} WorkUpdate(pcs: seq<Pc>, p: nat, pc: Pc)
    requires p < |pcs|
    ensures Work(pcs[p := pc]) == Work(pcs) - Left(pcs[p]) + Left(pc)
  {
    var m := |pcs| - 1;
    if p == m {
      assert pcs[p := pc][..m] == pcs[..m];
    } else {
      assert pcs[p := pc][..m] == pcs[..m][p := pc];
      WorkUpdate(pcs[..m], p, pc);
    }
  }

  lemma ExecExtend(n: nat, schedule: seq<Turn>, turn: Turn)
    requires turn.thread < n
    requires forall k :: 0 <= k < |schedule| ==> schedule[k].thread < n
    ensures Exec(n, schedule + [turn]) == Step(Exec(n, schedule), turn)
  {
    hide Step;
    assert (schedule + [turn])[..|schedule|] == schedule;
  }

  lemma BoundedExtend(n: nat, schedule: seq<Turn>, turn: Turn)
    requires Bounded(n, schedule) && turn.thread < n && Outstanding(Step(Exec(n, schedule), turn).pcs) <= 256
    ensures Bounded(n, schedule + [turn])
  {
    hide Step;
    ExecExtend(n, schedule, turn);
    var longer := schedule + [turn];
    forall k | 0 <= k < |longer| ensures Outstanding(Exec(n, longer[..k]).pcs) <= 256 {
      assert longer[..k] == if k < |schedule| then schedule[..k] else schedule;
    }
  }

  lemma UsefulTurn(n: nat, schedule: seq<Turn>) returns (turn: Turn)
    requires Bounded(n, schedule)
    requires !AllIdle(Exec(n, schedule))
    ensures turn.thread < n && Bounded(n, schedule + [turn])
    ensures Work(Exec(n, schedule + [turn]).pcs) == Work(Exec(n, schedule).pcs) - 1
  {
    hide Step;
    var p := SomeoneMoves(n, schedule);
    turn := Turn(p, true);
    ExecExtend(n, schedule, turn);
    MoveWorks(Exec(n, schedule), p);
    BoundedExtend(n, schedule, turn);
  }

  lemma MoveWorks(s: State, p: nat)
    requires p < |s.pcs| == |s.order| && !s.pcs[p].Idle?
    requires Step(s, Turn(p, true)).pcs[p] != s.pcs[p]
    ensures Work(Step(s, Turn(p, true)).pcs) == Work(s.pcs) - 1
    ensures Outstanding(Step(s, Turn(p, true)).pcs) <= Outstanding(s.pcs)
  {
    hide Ticket, LaneOf, NextWord;
    WorkUpdate(s.pcs, p, Step(s, Turn(p, true)).pcs[p]);
    CountsUpdate(s.pcs, p, Step(s, Turn(p, true)).pcs[p]);
  }

  /** From every reachable state, if nobody new arrives, at most 6n turns let every waiting thread
      take the lock, release it and become idle. */
  lemma Drains(n: nat, schedule: seq<Turn>) returns (more: seq<Turn>)
    requires Bounded(n, schedule)
    ensures Bounded(n, schedule + more)
    ensures |more| <= 6 * n
    ensures AllIdle(Exec(n, schedule + more))
  {
    hide Step;
    more := [];
    assert schedule + more == schedule;
    while !AllIdle(Exec(n, schedule + more))
      invariant Bounded(n, schedule + more)
      invariant forall k :: 0 <= k < |more| ==> more[k].thread < n
      invariant |more| + Work(Exec(n, schedule + more).pcs) <= 6 * n
      decreases Work(Exec(n, schedule + more).pcs)
    {
      var turn := UsefulTurn(n, schedule + more);
      assert schedule + (more + [turn]) == schedule + more + [turn];
      more := more + [turn];
    }
  }

  // ---- Where mutual exclusion stops --------------------------------------

  /** The state after threads 0..k-1 of n have each taken a writer ticket and begun to spin. */
  function Crowd(n: nat, k: nat): State
    requires k <= n
  {
    State(TWO_32 * (k % 256), seq(n, i => if i < k then WriterSpin(i % 256) else Idle),
          seq(k, i => i), seq(n, i => if i < k then i else 0), 0, 0)
  }

  lemma {:induction false} CrowdReached(n: nat, k: nat) returns (schedule: seq<Turn>)
    requires k <= n
    ensures forall j :: 0 <= j < |schedule| ==> schedule[j].thread < n
    ensures Exec(n, schedule) == Crowd(n, k)
  {
    hide Step;
    if k == 0 {
      schedule := [];
      assert Init(n) == Crowd(n, 0);
    } else {
      var before := CrowdReached(n, k - 1);
      var turn := Turn(k - 1, true);
      ExecExtend(n, before, turn);
      ExecExtend(n, before + [turn], turn);
      schedule := before + [turn] + [turn];
      CrowdGrows(n, k);
    }
  }

  lemma CrowdGrows(n: nat, k: nat)
    requires 0 < k <= n
    ensures var took := Step(Crowd(n, k - 1), Turn(k - 1, true));
            Step(took, Turn(k - 1, true)) == Crowd(n, k)
  {
    hide Ticket, FetchAdd, StoreZeroPad, Step, Move;
    var s, t := Crowd(n, k - 1), (k - 1) % 256;
    CrowdWord(t);
    TakeClear(s, k - 1, t, Crowd(n, k).word);
    CrowdMoves(n, k, FetchAdd(s.word, Increment(NextLane)));
  }

  lemma TakeClear(s: State, p: nat, t: nat, w: Word)
    requires p < |s.pcs| == |s.order| && s.pcs[p].Idle?
    requires Ticket(s.word, NextLane) == t
    requires StoreZeroPad(FetchAdd(s.word, Increment(NextLane)), NextLane) == w
    ensures var took := Move(s, p, WriterTook(t), FetchAdd(s.word, Increment(NextLane)));
            && Step(s, Turn(p, true)) == took
            && Step(took, Turn(p, true)) == Move(took, p, WriterSpin(t), w)
  {
    hide Ticket, FetchAdd, StoreZeroPad;
  }

  lemma CrowdMoves(n: nat, k: nat, w: Word)
    requires 0 < k <= n
    ensures var took := Move(Crowd(n, k - 1), k - 1, WriterTook((k - 1) % 256), w);
            Move(took, k - 1, WriterSpin((k - 1) % 256), Crowd(n, k).word) == Crowd(n, k)
  {
    var s1 := Move(Crowd(n, k - 1), k - 1, WriterTook((k - 1) % 256), w);
    assert s1.arrivals == Crowd(n, k).arrivals;
    assert s1.order == Crowd(n, k).order;
    assert s1.pcs[k - 1 := WriterSpin((k - 1) % 256)] == Crowd(n, k).pcs;
  }

  lemma CrowdWord(t: nat)
    requires t < 256
    ensures Ticket(TWO_32 * t, NextLane) == t
    ensures StoreZeroPad(FetchAdd(TWO_32 * t, Increment(NextLane)), NextLane) == TWO_32 * ((t + 1) % 256)
  {
    var w := TWO_32 * (t + 1);
    assert FetchAdd(TWO_32 * t, Increment(NextLane)) == w;
    PadByte(w);
    DigitsUnique(w, 0, 0, t + 1, 0);
  }

  /** Two writers hold the lock together. */
  ghost predicate Clash(s: State) {
    |s.pcs| > 256 && s.pcs[0].WriterIn? && s.pcs[256].WriterIn?
  }

  lemma ClashReached(n: nat) returns (schedule: seq<Turn>)
    requires n > 256
    ensures forall j :: 0 <= j < |schedule| ==> schedule[j].thread < n
    ensures Clash(Exec(n, schedule))
  {
    hide LaneOf, FetchAdd, StoreZeroPad;
    var crowd := CrowdReached(n, 257);
    var s := Crowd(n, 257);
    assert Ticket(s.word, WriterLane) == 0 by { DigitsUnique(s.word, 0, 0, 1, 0); TicketOfLane(s.word, WriterLane); }
    ExecExtend(n, crowd, Turn(0, true));
    schedule := crowd + [Turn(0, true)] + [Turn(256, true)];
    ExecExtend(n, crowd + [Turn(0, true)], Turn(256, true));
    assert s.pcs[0] == WriterSpin(0) && s.pcs[256] == WriterSpin(0);
  }

  /** With 257 threads two writers can hold the lock together: tickets 0 and 256 read the same byte. */
  lemma TwoWriters(n: nat)
    requires n > 256
    ensures exists s: State :: Reachable(n, s) && Clash(s)
  {
    hide Exec, Clash;
    var schedule := ClashReached(n);
    assert Reachable(n, Exec(n, schedule));
  }

  /** The lock excludes in every run of n threads exactly when n is at most 256. */
  lemma ExclusionThreshold(n: nat)
    ensures (forall s: State :: Reachable(n, s) ==> Exclusive(s)) <==> n <= 256
  {
    hide Exec;
    if n <= 256 {
      forall s: State | Reachable(n, s) ensures Exclusive(s) {
        var schedule: seq<Turn> :| (forall k :: 0 <= k < |schedule| ==> schedule[k].thread < n) && Exec(n, schedule) == s;
        FewAreBounded(n, schedule);
        MutualExclusion(n, schedule);
      }
    } else {
      TwoWriters(n);
      var s: State :| Reachable(n, s) && Clash(s);
      assert s.pcs[0].WriterIn? && s.pcs[256].Entered();
    }
  }
}
