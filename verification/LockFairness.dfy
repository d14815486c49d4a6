/** No starvation: under every schedule that keeps giving each thread turns, with any number of new arrivals, a thread
    that has taken a ticket gets the lock. */
module LockFairness {
  import opened LockWord
  import opened TicketLock

  /** Steps left until a thread releases its ticket, not counting failed comparisons. */
  function Togo(pc: Pc): (w: nat)
    ensures w <= 5 && (w > 0 <==> pc.Outstanding())
  {
    match pc
    case WriterTook(_) => 3
    case WriterSpin(_) => 2
    case WriterIn(_) => 1
    case ReaderTook(_) => 5
    case ReaderSpin(_) => 4
    case ReaderSaw(_) => 3
    case ReaderAdded(_) => 2
    case ReaderIn(_) => 1
    case _ => 0
  }

  /** The steps thread q owes to tickets up to number k. */
  function Owes(s: State, k: nat, q: nat): nat
    requires q < |s.pcs| == |s.order|
  {
    if s.order[q] <= k then Togo(s.pcs[q]) else 0
  }

  /** The steps the first m threads owe to tickets up to number k. */
  function Owed(s: State, k: nat, m: nat): (w: nat)
    requires m <= |s.pcs| == |s.order|
  {
    if m == 0 then 0 else Owed(s, k, m - 1) + Owes(s, k, m - 1)
  }

  lemma {:induction false} OwedChange(s: State, s': State, k: nat, m: nat, p: nat)
    requires m <= |s.pcs| == |s.order| == |s'.pcs| == |s'.order| && p < |s.pcs|
    requires forall q :: 0 <= q < |s.pcs| && q != p ==> s'.pcs[q] == s.pcs[q] && s'.order[q] == s.order[q]
    ensures Owed(s', k, m) == Owed(s, k, m) + if p < m then Owes(s', k, p) - Owes(s, k, p) else 0
  {
    if m > 0 { OwedChange(s, s', k, m - 1, p); }
  }

  lemma {:induction false} OwedAtLeast(s: State, k: nat, m: nat, p: nat)
    requires p < m <= |s.pcs| == |s.order|
    ensures Owed(s, k, m) >= Owes(s, k, p)
  {
    if p < m - 1 { OwedAtLeast(s, k, m - 1, p); }
  }

  lemma {:induction false} OwedBound(s: State, k: nat, m: nat)
    requires m <= |s.pcs| == |s.order|
    ensures Owed(s, k, m) <= 5 * Outstanding(s.pcs[..m])
  {
    if m > 0 {
      assert s.pcs[..m][..m - 1] == s.pcs[..m - 1];
      OwedBound(s, k, m - 1);
    }
  }

  // ---- Who can move --------------------------------------------------------------------

  /** q's next turn takes it on. */
  ghost predicate Ready(s: State, q: nat)
    requires q < |s.pcs| == |s.order|
  {
    && s.pcs[q].Outstanding()
    && (s.pcs[q].WriterSpin? ==> s.order[q] == s.released)
    && (s.pcs[q].ReaderSpin? ==> s.order[q] == s.passed)
  }

  /** The ticket bytes read as their counters. */
  ghost predicate Decoded(s: State) {
    forall l: Lane :: Ticket(s.word, l) == Counter(s, l) % 256
  }

  lemma ExactStep(s: State, turn: Turn)
    requires turn.thread < |s.pcs| == |s.order| && Decoded(s)
    ensures Step(s, turn).pcs == s.pcs[turn.thread := Exact(s, turn.thread, turn.asWriter)]
  {
    hide Ticket, NextWord;
    assert Counter(s, ReaderLane) == s.passed && Counter(s, WriterLane) == s.released && Counter(s, NextLane) == |s.arrivals|;
  }

  /** While a thread waits, some thread with its ticket or an earlier one is ready. */
  lemma SomeoneReady(s: State, p: nat) returns (q: nat)
    requires Ordered(s) && Outstanding(s.pcs) <= 256 && p < |s.pcs| && s.pcs[p].Waiting()
    ensures q < |s.pcs| && Ready(s, q) && s.order[q] <= s.order[p]
  {
    assert TicketInOrder(s, p);
    if x :| 0 <= x < |s.pcs| && s.pcs[x].Outstanding() && s.order[x] <= s.order[p] && !s.pcs[x].WriterSpin? && !s.pcs[x].ReaderSpin? {
      q := x;
    } else {
      // nobody with an earlier ticket is inside, so the oldest ticket is both active tickets
      q := s.arrivals[s.passed];
      assert TicketOwned(s, s.passed) && TicketInOrder(s, q);
      forall x | 0 <= x < |s.pcs| ensures !s.pcs[x].ReaderInside() { assert TicketInOrder(s, x); }
      CountZero((pc: Pc) => pc.ReaderInside(), s.pcs);
    }
  }

  /** A ready thread stays ready until its own turn. */
  lemma StaysReady(s: State, q: nat, turn: Turn)
    requires Ordered(s) && Outstanding(s.pcs) <= 256 && Decoded(s) && q < |s.pcs| && Ready(s, q) && turn.thread < |s.pcs| && turn.thread != q
    ensures |Step(s, turn).order| == |s.order| && Step(s, turn).order[q] == s.order[q] && Ready(Step(s, turn), q)
  {
    hide Ticket, NextWord;
    var r := turn.thread;
    assert TicketInOrder(s, q) && TicketInOrder(s, r);
    if s.pcs[q].WriterSpin? {
      NoAlias(s, q);
      CountZero((pc: Pc) => pc.ReaderInside(), s.pcs);
    }
  }

  /** A turn never adds to what is owed to tickets already taken; a ready thread's turn takes one off. */
  lemma OwedStep(s: State, k: nat, turn: Turn)
    requires Ordered(s) && Outstanding(s.pcs) <= 256 && Decoded(s) && turn.thread < |s.pcs| && k < |s.arrivals|
    ensures var s' := Step(s, turn);
            && |s'.pcs| == |s'.order| == |s.pcs| && k < |s'.arrivals|
            && Owed(s', k, |s.pcs|) <= Owed(s, k, |s.pcs|)
            && (Ready(s, turn.thread) && s.order[turn.thread] <= k ==> Owed(s', k, |s.pcs|) < Owed(s, k, |s.pcs|))
  {
    hide Ticket, NextWord;
    var p, s' := turn.thread, Step(s, turn);
    ExactStep(s, turn);
    assert TicketInOrder(s, p);
    OwedChange(s, s', k, |s.pcs|, p);
  }

  // ---- Rounds ---------------------------------------------------------------------------

  /** Each thread has a turn. */
  predicate IsRound(n: nat, turns: seq<Turn>) {
    forall q :: 0 <= q < n ==> HasTurn(turns, q)
  }

  predicate HasTurn(turns: seq<Turn>, q: nat) {
    exists k :: 0 <= k < |turns| && turns[k].thread == q
  }

  lemma RunFacts(n: nat, schedule: seq<Turn>)
    requires Bounded(n, schedule)
    ensures var s := Exec(n, schedule); Ordered(s) && Decoded(s) && Outstanding(s.pcs) <= 256
  {
    hide Exec, Ticket, LaneOf;
    RunOrdered(n, schedule);
    TicketsDecode(n, schedule);
  }

  lemma BoundedStart(n: nat, schedule: seq<Turn>, more: seq<Turn>)
    requires Bounded(n, schedule + more)
    ensures Bounded(n, schedule)
  {
    hide Exec;
    if more == [] {
      assert schedule + more == schedule;
    } else {
      BoundedPrefix(n, schedule + more, |schedule|);
      assert (schedule + more)[..|schedule|] == schedule;
    }
  }

  /** Turns never add to what is owed. */
  lemma {:induction false} OwedRun(n: nat, schedule: seq<Turn>, more: seq<Turn>, k: nat)
    requires Bounded(n, schedule + more) && Bounded(n, schedule) && k < |Exec(n, schedule).arrivals|
    ensures k < |Exec(n, schedule + more).arrivals| && Owed(Exec(n, schedule + more), k, n) <= Owed(Exec(n, schedule), k, n)
    decreases |more|
  {
    hide Step, Owed;
    if more == [] {
      assert schedule + more == schedule;
    } else {
      NextTurn(n, schedule, more, k);
      BoundedStart(n, schedule + [more[0]], more[1..]);
      OwedRun(n, schedule + [more[0]], more[1..], k);
    }
  }

  lemma NextTurn(n: nat, schedule: seq<Turn>, more: seq<Turn>, k: nat)
    requires Bounded(n, schedule + more) && more != [] && Bounded(n, schedule) && k < |Exec(n, schedule).arrivals|
    ensures more[0].thread < n && (schedule + [more[0]]) + more[1..] == schedule + more
    ensures Exec(n, schedule + [more[0]]) == Step(Exec(n, schedule), more[0])
    ensures k < |Exec(n, schedule + [more[0]]).arrivals|
    ensures Owed(Exec(n, schedule + [more[0]]), k, n) <= Owed(Exec(n, schedule), k, n)
    ensures Ready(Exec(n, schedule), more[0].thread) && Exec(n, schedule).order[more[0].thread] <= k ==>
              Owed(Exec(n, schedule + [more[0]]), k, n) < Owed(Exec(n, schedule), k, n)
  {
    hide Step, Owed, Ready;
    assert more[0] == (schedule + more)[|schedule|];
    assert (schedule + [more[0]]) + more[1..] == schedule + more;
    ExecExtend(n, schedule, more[0]);
    RunFacts(n, schedule);
    OwedStep(Exec(n, schedule), k, more[0]);
  }

  /** Turns that include one of a ready thread take something off. */
  lemma {:induction false} ReadyTurn(n: nat, schedule: seq<Turn>, more: seq<Turn>, k: nat, q: nat)
    requires Bounded(n, schedule + more) && Bounded(n, schedule) && k < |Exec(n, schedule).arrivals|
    requires q < n && Ready(Exec(n, schedule), q) && Exec(n, schedule).order[q] <= k && HasTurn(more, q)
    ensures Owed(Exec(n, schedule + more), k, n) < Owed(Exec(n, schedule), k, n)
    decreases |more|
  {
    hide Step, Owed, Ready;
    NextTurn(n, schedule, more, k);
    var next := schedule + [more[0]];
    BoundedStart(n, next, more[1..]);
    if more[0].thread == q {
      OwedRun(n, next, more[1..], k);
    } else {
      RunFacts(n, schedule);
      StaysReady(Exec(n, schedule), q, more[0]);
      var j :| 0 <= j < |more| && more[j].thread == q;
      assert more[1..][j - 1].thread == q;
      ReadyTurn(n, next, more[1..], k, q);
    }
  }

  /** A round takes something off as long as the thread with ticket k waits. */
  lemma RoundPays(n: nat, schedule: seq<Turn>, round: seq<Turn>, p: nat)
    requires Bounded(n, schedule + round) && Bounded(n, schedule) && IsRound(n, round) && p < n && Exec(n, schedule).pcs[p].Waiting()
    ensures Exec(n, schedule).order[p] < |Exec(n, schedule).arrivals|
    ensures Owed(Exec(n, schedule + round), Exec(n, schedule).order[p], n) < Owed(Exec(n, schedule), Exec(n, schedule).order[p], n)
  {
    hide Exec, Owed;
    RunFacts(n, schedule);
    var s := Exec(n, schedule);
    assert TicketInOrder(s, p);
    var q := SomeoneReady(s, p);
    assert HasTurn(round, q);
    ReadyTurn(n, schedule, round, s.order[p], q);
  }

  function Flat(rounds: seq<seq<Turn>>): seq<Turn> {
    if rounds == [] then [] else Flat(rounds[..|rounds| - 1]) + rounds[|rounds| - 1]
  }

  /** The thread still waits with ticket k. */
  ghost predicate WaitsWith(n: nat, schedule: seq<Turn>, p: nat, k: nat)
    requires p < n && forall j :: 0 <= j < |schedule| ==> schedule[j].thread < n
  {
    Exec(n, schedule).pcs[p].Waiting() && Exec(n, schedule).order[p] == k
  }

  /** The thread has the lock by ticket k, or as a reader is about to let the next ticket pass. */
  ghost predicate EnteredWith(n: nat, schedule: seq<Turn>, p: nat, k: nat)
    requires p < n && forall j :: 0 <= j < |schedule| ==> schedule[j].thread < n
  {
    Exec(n, schedule).pcs[p].Entered() && Exec(n, schedule).order[p] == k
  }

  /** A waiting thread waits on or enters. */
  lemma WaitOrEnter(n: nat, schedule: seq<Turn>, turn: Turn, p: nat, k: nat)
    requires Bounded(n, schedule) && turn.thread < n && p < n && WaitsWith(n, schedule, p, k)
    ensures forall j :: 0 <= j < |schedule + [turn]| ==> (schedule + [turn])[j].thread < n
    ensures WaitsWith(n, schedule + [turn], p, k) || EnteredWith(n, schedule + [turn], p, k)
  {
    hide Exec, Ticket, NextWord;
    ExecExtend(n, schedule, turn);
  }

  /** The thread has entered by one of the next turns. */
  ghost predicate EntersWithin(n: nat, schedule: seq<Turn>, more: seq<Turn>, p: nat, k: nat)
    requires p < n && forall j :: 0 <= j < |schedule + more| ==> (schedule + more)[j].thread < n
  {
    exists m :: 0 <= m <= |more| && EntersAfter(n, schedule, more, m, p, k)
  }

  ghost predicate EntersAfter(n: nat, schedule: seq<Turn>, more: seq<Turn>, m: nat, p: nat, k: nat)
    requires p < n && m <= |more| && forall j :: 0 <= j < |schedule + more| ==> (schedule + more)[j].thread < n
  {
    assert forall j :: 0 <= j < |schedule + more[..m]| ==> (schedule + more[..m])[j] == (schedule + more)[j];
    EnteredWith(n, schedule + more[..m], p, k)
  }

  lemma {:induction false} WaitsOrEntered(n: nat, schedule: seq<Turn>, more: seq<Turn>, p: nat, k: nat)
    requires Bounded(n, schedule + more) && p < n
    ensures forall j :: 0 <= j < |schedule| ==> schedule[j].thread < n
    ensures WaitsWith(n, schedule, p, k) ==> WaitsWith(n, schedule + more, p, k) || EntersWithin(n, schedule, more, p, k)
    decreases |more|
  {
    hide Exec, WaitsWith, EnteredWith, EntersAfter;
    BoundedStart(n, schedule, more);
    if more == [] {
      assert schedule + more == schedule;
    } else if WaitsWith(n, schedule, p, k) {
      var m := |more| - 1;
      var before := schedule + more[..m];
      assert before + [more[m]] == schedule + more;
      BoundedStart(n, before, [more[m]]);
      WaitsOrEntered(n, schedule, more[..m], p, k);
      if WaitsWith(n, before, p, k) {
        assert more[m] == (schedule + more)[|schedule| + m];
        WaitOrEnter(n, before, more[m], p, k);
        if EnteredWith(n, schedule + more, p, k) {
          assert more[..|more|] == more;
          assert EntersAfter(n, schedule, more, |more|, p, k) by { EntersNow(n, schedule, more, p, k); }
        }
      } else {
        var j :| 0 <= j <= m && EntersAfter(n, schedule, more[..m], j, p, k);
        EntersLonger(n, schedule, more, m, j, p, k);
      }
    }
  }

  lemma EntersNow(n: nat, schedule: seq<Turn>, more: seq<Turn>, p: nat, k: nat)
    requires p < n && forall j :: 0 <= j < |schedule + more| ==> (schedule + more)[j].thread < n
    requires EnteredWith(n, schedule + more, p, k)
    ensures EntersAfter(n, schedule, more, |more|, p, k)
  {
    hide EnteredWith;
    assert more[..|more|] == more;
  }

  lemma EntersLonger(n: nat, schedule: seq<Turn>, more: seq<Turn>, m: nat, j: nat, p: nat, k: nat)
    requires p < n && j <= m <= |more| && forall i :: 0 <= i < |schedule + more| ==> (schedule + more)[i].thread < n
    requires forall i :: 0 <= i < |schedule + more[..m]| ==> (schedule + more[..m])[i].thread < n
    requires EntersAfter(n, schedule, more[..m], j, p, k)
    ensures EntersAfter(n, schedule, more, j, p, k)
  {
    hide EnteredWith;
    assert more[..m][..j] == more[..j];
  }

  /** Every round that ends with the thread still waiting has paid off something. */
  lemma {:induction false} RoundsPay(n: nat, schedule: seq<Turn>, rounds: seq<seq<Turn>>, p: nat, k: nat)
    requires Bounded(n, schedule + Flat(rounds)) && Bounded(n, schedule) && p < n && WaitsWith(n, schedule, p, k)
    requires forall i :: 0 <= i < |rounds| ==> IsRound(n, rounds[i])
    ensures k < |Exec(n, schedule).arrivals|
    ensures WaitsWith(n, schedule + Flat(rounds), p, k) ==> Owed(Exec(n, schedule + Flat(rounds)), k, n) + |rounds| <= Owed(Exec(n, schedule), k, n)
    ensures WaitsWith(n, schedule + Flat(rounds), p, k) || EntersWithin(n, schedule, Flat(rounds), p, k)
    decreases |rounds|
  {
    hide Exec, Owed, IsRound, EntersWithin;
    RunFacts(n, schedule);
    assert TicketInOrder(Exec(n, schedule), p);
    WaitsOrEntered(n, schedule, Flat(rounds), p, k);
    if rounds == [] {
      assert schedule + [] == schedule;
    } else {
      var m := |rounds| - 1;
      var before := schedule + Flat(rounds[..m]);
      assert before + rounds[m] == schedule + Flat(rounds);
      BoundedStart(n, before, rounds[m]);
      RoundsPay(n, schedule, rounds[..m], p, k);
      if WaitsWith(n, before, p, k) {
        RoundPays(n, before, rounds[m], p);
      } else if WaitsWith(n, schedule + Flat(rounds), p, k) {
        OwedRun(n, schedule, Flat(rounds[..m]), k);
        WaitedBefore(n, before, rounds[m], p, k);
      }
    }
  }

  /** A ticket once entered is not waited with again. */
  lemma {:induction false} WaitedBefore(n: nat, schedule: seq<Turn>, more: seq<Turn>, p: nat, k: nat)
    requires Bounded(n, schedule + more) && Bounded(n, schedule) && p < n && k < |Exec(n, schedule).arrivals|
    requires WaitsWith(n, schedule + more, p, k)
    ensures WaitsWith(n, schedule, p, k)
    decreases |more|
  {
    hide Step;
    if more == [] {
      assert schedule + more == schedule;
    } else {
      var m := |more| - 1;
      var before := schedule + more[..m];
      assert before + [more[m]] == schedule + more;
      BoundedStart(n, before, [more[m]]);
      OwedRun(n, schedule, more[..m], k);
      assert more[m] == (schedule + more)[|schedule| + m];
      WaitStep(n, before, more[m], p, k);
      WaitedBefore(n, schedule, more[..m], p, k);
    }
  }

  lemma WaitStep(n: nat, schedule: seq<Turn>, turn: Turn, p: nat, k: nat)
    requires Bounded(n, schedule) && turn.thread < n && p < n && k < |Exec(n, schedule).arrivals|
    requires forall j :: 0 <= j < |schedule + [turn]| ==> (schedule + [turn])[j].thread < n
    requires WaitsWith(n, schedule + [turn], p, k)
    ensures WaitsWith(n, schedule, p, k)
  {
    hide Exec, Ticket, NextWord;
    ExecExtend(n, schedule, turn);
  }

  const ENOUGH := 1280   // five steps for each of 256 tickets

  /** From any moment on, under any schedule that lets each thread have a turn 1280 times over, and however many new
      arrivals there are, a thread waiting with ticket k enters, as long as never more than 256 tickets are outstanding. */
  lemma NoStarvation(n: nat, schedule: seq<Turn>, rounds: seq<seq<Turn>>, p: nat, k: nat)
    requires Bounded(n, schedule + Flat(rounds)) && p < n
    requires |rounds| >= ENOUGH && forall i :: 0 <= i < |rounds| ==> IsRound(n, rounds[i])
    ensures forall j :: 0 <= j < |schedule| ==> schedule[j].thread < n
    ensures WaitsWith(n, schedule, p, k) ==> EntersWithin(n, schedule, Flat(rounds), p, k)
  {
    hide Exec, Owed, IsRound, EntersWithin, Flat;
    BoundedStart(n, schedule, Flat(rounds));
    if WaitsWith(n, schedule, p, k) {
      RoundsPay(n, schedule, rounds, p, k);
      OwedBound(Exec(n, schedule), k, n);
      assert Exec(n, schedule).pcs[..n] == Exec(n, schedule).pcs;
      if WaitsWith(n, schedule + Flat(rounds), p, k) {
        OwedAtLeast(Exec(n, schedule + Flat(rounds)), k, n, p);
      }
    }
  }
}
