/** Readers and writers: a lock call waits and enters as what it was called for, and readers hold the lock together. */
module LockReaders {
  import opened LockWord
  import opened TicketLock
  import opened LockFairness

  // ---- A call is a reader's or a writer's from its ticket to its release --------------------------

  predicate AtReader(pc: Pc) {
    pc.ReaderTook? || pc.ReaderSpin? || pc.ReaderSaw? || pc.ReaderAdded? || pc.ReaderIn? || pc.ReaderGave?
  }

  predicate AtWriter(pc: Pc) {
    pc.WriterTook? || pc.WriterSpin? || pc.WriterIn? || pc.WriterGave? || pc.WriterCleared?
  }

  ghost predicate Turns(n: nat, schedule: seq<Turn>) {
    forall j :: 0 <= j < |schedule| ==> schedule[j].thread < n
  }

  /** As long as a thread's latest ticket is the one its lock call took, it stands where only a call of that kind stands,
      or has released the lock. */
  lemma {:induction false} TicketKind(n: nat, schedule: seq<Turn>, p: nat, asWriter: bool, more: seq<Turn>)
    requires p < n && Turns(n, schedule) && Turns(n, more) && Exec(n, schedule).pcs[p].Idle?
    ensures Turns(n, schedule + [Turn(p, asWriter)] + more)
    ensures var k, s := |Exec(n, schedule).arrivals|, Exec(n, schedule + [Turn(p, asWriter)] + more);
            && k < |s.arrivals| && k <= s.order[p]
            && (s.order[p] == k ==> s.pcs[p].Idle? || (if asWriter then AtWriter(s.pcs[p]) else AtReader(s.pcs[p])))
    decreases |more|
  {
    hide Step;
    var turn := Turn(p, asWriter);
    if more == [] {
      assert schedule + [turn] + [] == schedule + [turn];
      ExecExtend(n, schedule, turn);
      KindStep(Exec(n, schedule), turn, p);
    } else {
      var m := |more| - 1;
      TicketKind(n, schedule, p, asWriter, more[..m]);
      var before := schedule + [turn] + more[..m];
      assert before + [more[m]] == schedule + [turn] + more;
      ExecExtend(n, before, more[m]);
      KindStep(Exec(n, before), more[m], p);
    }
  }

  lemma KindStep(s: State, turn: Turn, p: nat)
    requires turn.thread < |s.pcs| == |s.order| && p < |s.pcs|
    ensures var s' := Step(s, turn);
            && |s'.pcs| == |s'.order| == |s.pcs| && |s'.arrivals| >= |s.arrivals|
            && (turn.thread != p ==> s'.pcs[p] == s.pcs[p] && s'.order[p] == s.order[p])
            && (turn.thread == p && s.pcs[p].Idle? ==>
                  && (if turn.asWriter then AtWriter(s'.pcs[p]) else AtReader(s'.pcs[p]))
                  && s'.order[p] == |s.arrivals| < |s'.arrivals|)
            && (!s.pcs[p].Idle? ==> s'.order[p] == s.order[p])
            && (AtReader(s.pcs[p]) ==> AtReader(s'.pcs[p]) || s'.pcs[p].Idle?)
            && (AtWriter(s.pcs[p]) ==> AtWriter(s'.pcs[p]) || s'.pcs[p].Idle?)
  {
    hide Ticket, NextWord;
  }

  /** The thread holds the lock as a writer, or as a reader that is about to let or has let the next ticket pass, by the
      ticket with number k. */
  ghost predicate HoldsAs(s: State, p: nat, asWriter: bool, k: nat)
    requires p < |s.pcs| == |s.order|
  {
    s.order[p] == k && if asWriter then s.pcs[p].WriterIn? else s.pcs[p].ReaderSaw? || s.pcs[p].ReaderAdded? || s.pcs[p].ReaderIn?
  }

  ghost predicate HoldsAfter(n: nat, schedule: seq<Turn>, p: nat, asWriter: bool, k: nat) {
    p < n && Turns(n, schedule) && HoldsAs(Exec(n, schedule), p, asWriter, k)
  }

  /** No call starves: an idle thread that calls for the lock gets it, as what it asked for and by the ticket it took then,
      under every schedule that gives each thread 1280 turns, whoever else arrives. */
  lemma CallGetsIn(n: nat, schedule: seq<Turn>, p: nat, asWriter: bool, rounds: seq<seq<Turn>>)
    requires Bounded(n, schedule + [Turn(p, asWriter)] + Flat(rounds)) && p < n && Turns(n, schedule)
    requires Exec(n, schedule).pcs[p].Idle?
    requires |rounds| >= ENOUGH && forall i :: 0 <= i < |rounds| ==> IsRound(n, rounds[i])
    ensures exists m :: 0 <= m <= |Flat(rounds)| &&
              HoldsAfter(n, schedule + [Turn(p, asWriter)] + Flat(rounds)[..m], p, asWriter, |Exec(n, schedule).arrivals|)
  {
    hide Exec, IsRound, Flat, EnteredWith, WaitsWith, EntersAfter, HoldsAs;
    var called, k := schedule + [Turn(p, asWriter)], |Exec(n, schedule).arrivals|;
    NoStarvation(n, called, rounds, p, k);
    assert WaitsWith(n, called, p, k) by { CallWaits(n, schedule, p, asWriter); }
    var more := Flat(rounds);
    var m :| 0 <= m <= |more| && EntersAfter(n, called, more, m, p, k);
    forall j | 0 <= j < m ensures more[..m][j].thread < n { assert more[j] == (called + more)[|called| + j]; }
    TicketKind(n, schedule, p, asWriter, more[..m]);
    assert EnteredWith(n, called + more[..m], p, k) by { EnteredBy(n, called, more, m, p, k); }
    assert HoldsAfter(n, called + more[..m], p, asWriter, k) by { HoldsBy(n, called + more[..m], p, asWriter, k); }
  }

  lemma EnteredBy(n: nat, schedule: seq<Turn>, more: seq<Turn>, m: nat, p: nat, k: nat)
    requires p < n && m <= |more| && Turns(n, schedule + more) && EntersAfter(n, schedule, more, m, p, k)
    ensures Turns(n, schedule + more[..m]) && EnteredWith(n, schedule + more[..m], p, k)
  {
    hide EnteredWith;
    assert forall j :: 0 <= j < |schedule + more[..m]| ==> (schedule + more[..m])[j] == (schedule + more)[j];
  }

  lemma HoldsBy(n: nat, schedule: seq<Turn>, p: nat, asWriter: bool, k: nat)
    requires p < n && Turns(n, schedule) && EnteredWith(n, schedule, p, k)
    requires var s := Exec(n, schedule); s.order[p] == k ==> s.pcs[p].Idle? || (if asWriter then AtWriter(s.pcs[p]) else AtReader(s.pcs[p]))
    ensures HoldsAfter(n, schedule, p, asWriter, k)
  {
    hide Exec;
  }

  lemma CallWaits(n: nat, schedule: seq<Turn>, p: nat, asWriter: bool)
    requires p < n && Turns(n, schedule) && Exec(n, schedule).pcs[p].Idle?
    ensures Turns(n, schedule + [Turn(p, asWriter)])
    ensures WaitsWith(n, schedule + [Turn(p, asWriter)], p, |Exec(n, schedule).arrivals|)
  {
    hide Exec, Ticket, NextWord;
    ExecExtend(n, schedule, Turn(p, asWriter));
  }

  // ---- Readers let readers in ----------------------------------------------------------------------

  /** The thread has a reader's ticket, and every earlier ticket still out is a reader's too. */
  ghost predicate OnlyReadersBefore(s: State, p: nat)
    requires p < |s.pcs| == |s.order|
  {
    && AtReader(s.pcs[p]) && s.pcs[p].Outstanding()
    && forall q :: 0 <= q < |s.pcs| && s.pcs[q].Outstanding() && s.order[q] < s.order[p] ==> AtReader(s.pcs[q])
  }

  /** Threads outside the lock code, holding the lock, or calling as writers have not moved, and nobody has released. */
  ghost predicate NobodyLeft(s: State, s': State) {
    && |s'.pcs| == |s.pcs| && |s'.order| == |s.order| && s'.released == s.released
    && forall q :: 0 <= q < |s.pcs| && (s.pcs[q].Idle? || s.pcs[q].ReaderIn? || AtWriter(s.pcs[q])) ==> s'.pcs[q] == s.pcs[q]
  }

  /** Someone with a reader's ticket no later than p's can take a step towards letting p in. */
  lemma NextReader(s: State, p: nat) returns (q: nat)
    requires Ordered(s) && Decoded(s) && Outstanding(s.pcs) <= 256 && p < |s.pcs| && OnlyReadersBefore(s, p) && !s.pcs[p].ReaderIn?
    ensures q < |s.pcs| && AtReader(s.pcs[q]) && s.pcs[q].Outstanding() && !s.pcs[q].ReaderIn?
    ensures Step(s, Turn(q, true)).pcs[q] != s.pcs[q]
  {
    hide Ticket, NextWord;
    assert TicketInOrder(s, p);
    if s.pcs[p].ReaderInside() {
      q := p;
    } else {
      q := s.arrivals[s.passed];
      assert TicketOwned(s, s.passed) && TicketInOrder(s, q);
      NoAlias(s, q);
      assert Counter(s, ReaderLane) == s.passed;
    }
  }

  lemma ReaderMoves(s: State, p: nat, q: nat)
    requires p < |s.pcs| == |s.order| && q < |s.pcs| && OnlyReadersBefore(s, p) && !s.pcs[p].ReaderIn?
    requires AtReader(s.pcs[q]) && s.pcs[q].Outstanding() && !s.pcs[q].ReaderIn?
    ensures var s' := Step(s, Turn(q, true));
            NobodyLeft(s, s') && OnlyReadersBefore(s', p) && s'.order == s.order && s'.arrivals == s.arrivals
  {
    hide Ticket, NextWord;
  }

  lemma NobodyLeftNext(s: State, s1: State, s2: State)
    requires NobodyLeft(s, s1) && NobodyLeft(s1, s2)
    ensures NobodyLeft(s, s2)
  {
  }

  /** A reader behind readers only gets in by turns in which nobody releases. */
  lemma ReaderGetsIn(n: nat, schedule: seq<Turn>, p: nat) returns (more: seq<Turn>)
    requires Bounded(n, schedule) && p < n && OnlyReadersBefore(Exec(n, schedule), p)
    ensures Bounded(n, schedule + more)
    ensures Exec(n, schedule + more).pcs[p].ReaderIn? && Exec(n, schedule + more).order == Exec(n, schedule).order
    ensures NobodyLeft(Exec(n, schedule), Exec(n, schedule + more))
  {
    hide Exec, Step, NobodyLeft, OnlyReadersBefore;
    more := [];
    assert schedule + more == schedule;
    assert NobodyLeft(Exec(n, schedule), Exec(n, schedule + more)) by { StaysPut(Exec(n, schedule)); }
    while !Exec(n, schedule + more).pcs[p].ReaderIn?
      invariant Bounded(n, schedule + more) && OnlyReadersBefore(Exec(n, schedule + more), p)
      invariant NobodyLeft(Exec(n, schedule), Exec(n, schedule + more)) && Exec(n, schedule + more).order == Exec(n, schedule).order
      decreases Work(Exec(n, schedule + more).pcs)
    {
      RunFacts(n, schedule + more);
      var s := Exec(n, schedule + more);
      var q := NextReader(s, p);
      var turn := Turn(q, true);
      ReaderMoves(s, p, q);
      MoveWorks(s, q);
      ExecExtend(n, schedule + more, turn);
      BoundedExtend(n, schedule + more, turn);
      NobodyLeftNext(Exec(n, schedule), s, Step(s, turn));
      assert schedule + (more + [turn]) == schedule + more + [turn];
      more := more + [turn];
    }
  }

  lemma StaysPut(s: State)
    ensures NobodyLeft(s, s)
  {
  }

  // ---- Any number of readers inside, up to 256 --------------------------------------------------------

  lemma {:induction false} FewOutstanding(pcs: seq<Pc>, k: nat)
    requires forall i :: k <= i < |pcs| ==> !pcs[i].Outstanding()
    ensures Outstanding(pcs) <= k
    decreases |pcs|
  {
    if pcs != [] {
      var m := |pcs| - 1;
      if k <= m {
        FewOutstanding(pcs[..m], k);
      }
    }
  }

  /** The first k threads hold the lock as readers and the others are idle. */
  ghost predicate ReadersIn(s: State, k: nat) {
    forall i :: 0 <= i < |s.pcs| ==> if i < k then s.pcs[i].ReaderIn? else s.pcs[i].Idle?
  }

  /** For every k up to 256, k of n threads can hold the lock together as readers. */
  lemma {:induction false} ReadersShare(n: nat, k: nat) returns (schedule: seq<Turn>)
    requires k <= n <= MOST_THREADS && k <= 256
    ensures Bounded(n, schedule) && ReadersIn(Exec(n, schedule), k)
  {
    hide Step;
    if k == 0 {
      schedule := [];
      FewOutstanding(Init(n).pcs, 0);
    } else {
      var before := ReadersShare(n, k - 1);
      var s, turn := Exec(n, before), Turn(k - 1, false);
      ExecExtend(n, before, turn);
      OneMoreReader(s, k - 1);
      BoundedExtend(n, before, turn);
      var more := ReaderGetsIn(n, before + [turn], k - 1);
      schedule := before + [turn] + more;
    }
  }

  lemma OneMoreReader(s: State, k: nat)
    requires k < |s.pcs| == |s.order| && k < 256 && ReadersIn(s, k)
    ensures var s' := Step(s, Turn(k, false));
            && |s'.pcs| == |s'.order| == |s.pcs| && Outstanding(s'.pcs) <= 256 && OnlyReadersBefore(s', k)
            && (forall i :: 0 <= i < |s.pcs| && i != k ==> s'.pcs[i] == s.pcs[i])
  {
    hide Ticket, NextWord;
    FewOutstanding(Step(s, Turn(k, false)).pcs, k + 1);
  }
}
