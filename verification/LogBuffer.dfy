/** The multiplexed log: any number of threads append lines under the lock, one thread writes the
    buffer out, unlocked, while they go on appending. */
module LogBuffer {
  type Byte = bv8

  const WRITE_THRESHOLD := 65536

  /** The log thread: asleep, inside its write loop, or past it. used and left are its locals log_used and
      log_left; second is the time it read. */
  datatype Phase = Asleep | Writing(used: nat, left: nat, second: nat) | Wrote(used: nat, left: nat, second: nat)

  /** buffer is bytes[..used]; accepted and written record every byte appended and every byte written so far. */
  datatype Log = Log(size: nat, buffer: seq<Byte>, phase: Phase, lastSecond: nat, failSecond: nat,
                     accepted: seq<Byte>, written: seq<Byte>)

  /** What a write() call can do with the n > 0 bytes left. */
  datatype Result = Bytes(count: nat) | WouldBlock | Interrupted | Failed

  datatype Event =
    | Append(line: seq<Byte>, prefixLen: nat)  // one locked attempt of an appender
    | Begin(second: nat)                       // the thread looks at the buffer and decides whether to write
    | Write(result: Result)                    // one write() of the thread, no lock held
    | Finish                                   // the thread moves what it did not write to the front

  /** Whether an attempt to append goes through now. */
  predicate Fits(l: Log, line: seq<Byte>, prefixLen: nat) {
    |line| < l.size && prefixLen + |line| <= l.size - |l.buffer|
  }

  predicate ShouldWrite(l: Log, second: nat) {
    |l.buffer| > 0 && l.failSecond != second && (l.lastSecond != second || |l.buffer| >= WRITE_THRESHOLD)
  }

  ghost predicate Enabled(l: Log, e: Event) {
    match e
    case Append(_, _) => true
    case Begin(_) => l.phase.Asleep?
    case Write(result) => l.phase.Writing? && l.phase.left > 0 && (result.Bytes? ==> 0 < result.count <= l.phase.left)
    case Finish => l.phase.Wrote? || (l.phase.Writing? && l.phase.left == 0)
  }

  /** What the running thread still has to write stays where it read it. */
  ghost predicate Inv(l: Log) {
    && |l.buffer| <= l.size
    && match l.phase
       case Asleep => l.accepted == l.written + l.buffer
       case _ => l.phase.left <= l.phase.used <= |l.buffer| && l.accepted == l.written + l.buffer[l.phase.used - l.phase.left..]
  }

  function Apply(l: Log, e: Event): Log
    requires Inv(l) && Enabled(l, e)
  {
    match e
    case Append(line, prefixLen) =>
      if Fits(l, line, prefixLen) then l.(buffer := l.buffer + line, accepted := l.accepted + line) else l
    case Begin(second) =>
      if ShouldWrite(l, second) then l.(phase := Writing(|l.buffer|, |l.buffer|, second)) else l
    case Write(result) =>
      var used, left, second := l.phase.used, l.phase.left, l.phase.second;
      (match result
       case Bytes(n) =>
         l.(phase := Writing(used, left - n, second), written := l.written + l.buffer[used - left..used - left + n])
       case WouldBlock => l.(phase := Wrote(used, left, second))
       case Interrupted => l.(phase := Wrote(used, left, second))
       case Failed => l.(phase := Wrote(used, left, second), failSecond := second))
    case Finish =>
      l.(buffer := l.buffer[l.phase.used - l.phase.left..], phase := Asleep, lastSecond := l.phase.second)
  }

  /** What an event adds to the accepted bytes. */
  function Accepts(l: Log, e: Event): seq<Byte> {
    match e
    case Append(line, prefixLen) => if Fits(l, line, prefixLen) then line else []
    case _ => []
  }

  lemma StepKeeps(l: Log, e: Event)
    requires Inv(l) && Enabled(l, e)
    ensures Inv(Apply(l, e)) && Apply(l, e).size == l.size && Apply(l, e).accepted == l.accepted + Accepts(l, e)
  {
    assert l.accepted + [] == l.accepted;
    match e {
      case Append(line, prefixLen) => AppendKeeps(l, line, prefixLen);
      case Begin(_) => assert l.buffer[0..] == l.buffer;
      case Write(result) => WriteKeeps(l, result);
      case Finish =>
    }
  }

  lemma InvPhase(l: Log)
    requires Inv(l)
    ensures !l.phase.Asleep? ==> l.phase.left <= l.phase.used <= |l.buffer| <= l.size
  {
  }

  lemma AppendKeeps(l: Log, line: seq<Byte>, prefixLen: nat)
    requires Inv(l)
    ensures Inv(Apply(l, Append(line, prefixLen)))
  {
    if Fits(l, line, prefixLen) {
      if l.phase.Asleep? {
        assert l.written + (l.buffer + line) == l.written + l.buffer + line;
      } else {
        var k := l.phase.used - l.phase.left;
        assert (l.buffer + line)[k..] == l.buffer[k..] + line;
        assert l.written + (l.buffer[k..] + line) == l.written + l.buffer[k..] + line;
      }
    }
  }

  lemma WriteKeeps(l: Log, result: Result)
    requires Inv(l) && Enabled(l, Write(result))
    ensures Inv(Apply(l, Write(result)))
  {
    if result.Bytes? {
      var k := l.phase.used - l.phase.left;
      var head, rest := l.buffer[k..k + result.count], l.buffer[k + result.count..];
      assert l.buffer[k..] == head + rest;
      assert l.written + (head + rest) == l.written + head + rest;
    }
  }

  /** The log after a sequence of events by the appenders and the thread, in any order the phases allow. */
  ghost predicate IsRun(trace: seq<Log>, events: seq<Event>) {
    && |trace| == |events| + 1
    && forall k {:trigger events[k]} :: 0 <= k < |events| && Inv(trace[k]) ==>
         Enabled(trace[k], events[k]) && trace[k + 1] == Apply(trace[k], events[k])
  }

  lemma {:induction false} RunKeeps(trace: seq<Log>, events: seq<Event>, k: nat)
    requires IsRun(trace, events) && Inv(trace[0]) && k <= |events|
    ensures Inv(trace[k])
  {
    hide Inv, Apply, Enabled;
    if k > 0 {
      RunKeeps(trace, events, k - 1);
      StepKeeps(trace[k - 1], events[k - 1]);
    }
  }

  /** The lines accepted along a run, in lock order. */
  ghost function Lines(trace: seq<Log>, events: seq<Event>): seq<Byte>
    requires IsRun(trace, events)
  {
    if events == [] then []
    else
      var n := |events| - 1;
      Lines(trace[..n + 1], events[..n]) + Accepts(trace[n], events[n])
  }

  /** The bytes not written yet, wherever the thread is. */
  function Pending(l: Log): seq<Byte>
    requires Inv(l)
  {
    if l.phase.Asleep? then l.buffer else l.buffer[l.phase.used - l.phase.left..]
  }

  /** From an empty log: at every moment what was written, followed by what is pending, is exactly the accepted
      lines in lock order, whatever the partial and failed writes in between; and the buffer never overflows. */
  lemma {:induction false} NothingLost(trace: seq<Log>, events: seq<Event>)
    requires IsRun(trace, events)
    requires trace[0].buffer == [] && trace[0].accepted == [] && trace[0].written == [] && trace[0].phase.Asleep?
    ensures var l := trace[|events|];
            Inv(l) && l.written + Pending(l) == l.accepted == Lines(trace, events) && |l.buffer| <= l.size == trace[0].size
  {
    hide Apply, Enabled, Accepts;
    if events != [] {
      hide Lines;
      var n := |events| - 1;
      LinesLast(trace, events);
      NothingLost(trace[..n + 1], events[..n]);
      RunKeeps(trace, events, n);
      StepKeeps(trace[n], events[n]);
    }
  }

  /** Between the start and the end of a pass: neither event of another pass. */
  predicate Meanwhile(e: Event) {
    !e.Begin? && !e.Finish?
  }

  /** During a pass the buffer is what it was at the start and, behind it, the lines accepted since. */
  lemma {:induction false} DuringPass(trace: seq<Log>, events: seq<Event>)
    requires IsRun(trace, events) && Inv(trace[0]) && events != []
    requires events[0].Begin? && ShouldWrite(trace[0], events[0].second) && trace[0].phase.Asleep?
    requires forall k :: 0 < k < |events| ==> Meanwhile(events[k])
    ensures var l, b := trace[|events|], trace[0].buffer;
            && Inv(l) && !l.phase.Asleep? && l.phase.used == |b| && l.buffer == b + Lines(trace, events)
            && l.written + b[l.phase.used - l.phase.left..] == trace[0].written + b
  {
    hide Inv, Apply, Enabled, Accepts, ShouldWrite, Lines;
    var n := |events| - 1;
    RunKeeps(trace, events, n);
    StepKeeps(trace[n], events[n]);
    LinesLast(trace, events);
    InvPhase(trace[|events|]);
    if n == 0 {
      PassBegins(trace[0], events[0].second);
      NoLines(trace, events);
    } else {
      PassPrefix(trace, events, n);
      DuringPass(trace[..n + 1], events[..n]);
      PassStep(trace[n], events[n], trace[0].buffer, Lines(trace[..n + 1], events[..n]), trace[0].written);
    }
  }

  lemma PassBegins(l: Log, second: nat)
    requires Inv(l) && l.phase.Asleep? && ShouldWrite(l, second)
    ensures var l' := Apply(l, Begin(second));
            && !l'.phase.Asleep? && l'.phase.used == l'.phase.left == |l.buffer| && l'.buffer == l.buffer + [] && l'.written == l.written
            && l.buffer[l'.phase.used - l'.phase.left..] == l.buffer
  {
  }

  lemma NoLines(trace: seq<Log>, events: seq<Event>)
    requires IsRun(trace, events) && |events| == 1 && events[0].Begin?
    ensures Lines(trace, events) == []
  {
    hide Inv, Apply, Enabled;
    assert Lines(trace[..1], events[..0]) == [];
  }

  lemma LinesLast(trace: seq<Log>, events: seq<Event>)
    requires IsRun(trace, events) && events != []
    ensures var n := |events| - 1;
            IsRun(trace[..n + 1], events[..n]) && Lines(trace, events) == Lines(trace[..n + 1], events[..n]) + Accepts(trace[n], events[n])
  {
    hide Inv, Apply, Enabled, Accepts;
  }

  lemma PassStep(l: Log, e: Event, b: seq<Byte>, lines: seq<Byte>, written: seq<Byte>)
    requires Inv(l) && Enabled(l, e) && Meanwhile(e) && !l.phase.Asleep? && l.phase.used == |b|
    requires l.buffer == b + lines && l.written + b[l.phase.used - l.phase.left..] == written + b
    ensures var l' := Apply(l, e);
            && !l'.phase.Asleep? && l'.phase.used == |b| && l'.phase.left <= |b|
            && l'.buffer == b + (lines + Accepts(l, e)) && l'.written + b[l'.phase.used - l'.phase.left..] == written + b
  {
    var k := l.phase.used - l.phase.left;
    match e {
      case Append(line, _) => assert b + (lines + line) == b + lines + line;
      case Write(result) =>
        if result.Bytes? {
          assert l.buffer[k..k + result.count] == b[k..k + result.count];
          assert b[k..] == b[k..k + result.count] + b[k + result.count..];
        }
    }
    assert lines + [] == lines;
  }

  /** A pass, whatever appenders do meanwhile: when all its bytes were written, exactly those are gone, and the buffer left
      is exactly the lines accepted from its start to its end. */
  lemma {:induction false} FullPass(trace: seq<Log>, events: seq<Event>)
    requires IsRun(trace, events) && Inv(trace[0]) && |events| >= 2
    requires events[0].Begin? && ShouldWrite(trace[0], events[0].second) && trace[0].phase.Asleep?
    requires forall k :: 0 < k < |events| - 1 ==> Meanwhile(events[k])
    requires events[|events| - 1].Finish?
    ensures Inv(trace[|events| - 1]) && !trace[|events| - 1].phase.Asleep?
    ensures trace[|events| - 1].phase.left == 0 ==>
              trace[|events|].buffer == Lines(trace, events) && trace[|events|].written == trace[0].written + trace[0].buffer
  {
    hide Inv, Apply, Enabled, Accepts, ShouldWrite, Lines;
    var n := |events| - 1;
    PassPrefix(trace, events, n);
    DuringPass(trace[..n + 1], events[..n]);
    RunKeeps(trace, events, n);
    InvPhase(trace[n]);
    LinesFinish(trace, events);
    PassEnd(trace[n], trace[0].buffer, Lines(trace[..n + 1], events[..n]), trace[0].written);
  }

  lemma PassPrefix(trace: seq<Log>, events: seq<Event>, n: nat)
    requires IsRun(trace, events) && 0 < n < |events| && forall k :: 0 < k < n ==> Meanwhile(events[k])
    ensures IsRun(trace[..n + 1], events[..n]) && forall k :: 0 < k < n ==> Meanwhile(events[..n][k])
  {
    hide Inv, Apply, Enabled, Meanwhile;
  }

  lemma LinesFinish(trace: seq<Log>, events: seq<Event>)
    requires IsRun(trace, events) && events != [] && events[|events| - 1].Finish?
    ensures var n := |events| - 1; IsRun(trace[..n + 1], events[..n]) && Lines(trace, events) == Lines(trace[..n + 1], events[..n])
  {
    hide Inv, Apply, Enabled, Lines;
    var n := |events| - 1;
    LinesLast(trace, events);
    assert Lines(trace[..n + 1], events[..n]) + [] == Lines(trace[..n + 1], events[..n]);
  }

  lemma PassEnd(l: Log, b: seq<Byte>, lines: seq<Byte>, written: seq<Byte>)
    requires Inv(l) && Enabled(l, Finish) && l.phase.used == |b| && l.buffer == b + lines && l.phase.left <= |b|
    requires l.written + b[l.phase.used - l.phase.left..] == written + b
    ensures l.phase.left == 0 ==> Apply(l, Finish).buffer == lines && Apply(l, Finish).written == written + b
  {
  }

  // ---- When lines are taken and passes start --------------------------------------------

  /** An attempt to append takes the whole line exactly when it is shorter than the log and fits behind what is there
      together with its prefix length; otherwise it changes nothing. */
  lemma AppendTakes(l: Log, line: seq<Byte>, prefixLen: nat)
    requires Inv(l)
    ensures Fits(l, line, prefixLen) <==> |line| < l.size && |l.buffer| + prefixLen + |line| <= l.size
    ensures var l' := Apply(l, Append(line, prefixLen));
            if |line| < l.size && |l.buffer| + prefixLen + |line| <= l.size
            then l'.buffer == l.buffer + line && l'.accepted == l.accepted + line && l' == l.(buffer := l'.buffer, accepted := l'.accepted)
            else l' == l
  {
  }

  /** What a write answers decides what is next: while bytes are left after some were written, another write; when none are
      left, or nothing could be written, the end of the pass, which leaves exactly the bytes not written in front. */
  lemma WriteEnds(l: Log, result: Result)
    requires Inv(l) && Enabled(l, Write(result))
    ensures Inv(Apply(l, Write(result)))
    ensures var l', done := Apply(l, Write(result)), (if result.Bytes? then result.count else 0);
            var ends := done == 0 || done == l.phase.left;
            && (Enabled(l', Finish) <==> ends)
            && (forall next: Result :: Enabled(l', Write(next)) ==> !ends)
            && (!ends ==> Enabled(l', Write(Bytes(l.phase.left - done))))
            && (ends ==> Apply(l', Finish).buffer == l.buffer[l.phase.used - l.phase.left + done..])
  {
    StepKeeps(l, Write(result));
  }

  /** A write failed for good during these events. */
  predicate SomeFailed(events: seq<Event>) {
    Write(Failed) in events
  }

  /** During a pass the second stays the one it began in; only a failed write records it as such. */
  lemma {:induction false} SecondsDuring(trace: seq<Log>, events: seq<Event>)
    requires IsRun(trace, events) && Inv(trace[0]) && events != []
    requires events[0].Begin? && ShouldWrite(trace[0], events[0].second) && trace[0].phase.Asleep?
    requires forall k :: 0 < k < |events| ==> Meanwhile(events[k])
    ensures var l := trace[|events|];
            && Inv(l) && !l.phase.Asleep? && l.phase.second == events[0].second && l.lastSecond == trace[0].lastSecond
            && l.failSecond == if SomeFailed(events) then events[0].second else trace[0].failSecond
  {
    hide Inv, Enabled, ShouldWrite;
    var n := |events| - 1;
    RunKeeps(trace, events, n);
    RunKeeps(trace, events, n + 1);
    assert events == events[..n] + [events[n]];
    if n == 0 {
      InvPhase(trace[0]);
      StartsWriting(trace[0], events[0].second);
    } else {
      PassPrefix(trace, events, n);
      SecondsDuring(trace[..n + 1], events[..n]);
      SecondsStep(trace[n], events[n]);
    }
  }

  lemma StartsWriting(l: Log, second: nat)
    requires Inv(l) && l.phase.Asleep? && ShouldWrite(l, second)
    ensures var l' := Apply(l, Begin(second));
            l'.phase == Writing(|l.buffer|, |l.buffer|, second) && l'.lastSecond == l.lastSecond && l'.failSecond == l.failSecond
  {
  }

  lemma SecondsStep(l: Log, e: Event)
    requires Inv(l) && Enabled(l, e) && !l.phase.Asleep? && Meanwhile(e)
    ensures var l' := Apply(l, e);
            && !l'.phase.Asleep? && l'.phase.second == l.phase.second && l'.lastSecond == l.lastSecond
            && l'.failSecond == if e == Write(Failed) then l.phase.second else l.failSecond
  {
  }

  /** When the next pass starts, after one that began in some second: never on an empty log; in the same second only with
      64 KB or more to write and no failed write in it; in another second always, unless a write failed in just that one. */
  lemma NextPass(trace: seq<Log>, events: seq<Event>, second: nat)
    requires IsRun(trace, events) && Inv(trace[0]) && |events| >= 2
    requires events[0].Begin? && ShouldWrite(trace[0], events[0].second) && trace[0].phase.Asleep?
    requires forall k :: 0 < k < |events| - 1 ==> Meanwhile(events[k])
    requires events[|events| - 1].Finish?
    ensures var l, first := trace[|events|], events[0].second;
            && Inv(l) && l.phase.Asleep?
            && (Apply(l, Begin(second)) == l || Apply(l, Begin(second)) == l.(phase := Writing(|l.buffer|, |l.buffer|, second)))
            && (Apply(l, Begin(second)).phase.Writing? <==>
                  && |l.buffer| > 0
                  && (second == first ==> |l.buffer| >= 65536 && !SomeFailed(events))
                  && (second != first ==> SomeFailed(events) || second != trace[0].failSecond))
  {
    hide Inv, Enabled;
    var n := |events| - 1;
    PassPrefix(trace, events, n);
    SecondsDuring(trace[..n + 1], events[..n]);
    RunKeeps(trace, events, n);
    RunKeeps(trace, events, n + 1);
    assert events == events[..n] + [events[n]];
    assert SomeFailed(events) <==> SomeFailed(events[..n]);
    FinishSeconds(trace[n]);
  }

  lemma FinishSeconds(l: Log)
    requires Inv(l) && Enabled(l, Finish) && !l.phase.Asleep?
    ensures Apply(l, Finish).phase.Asleep? && Apply(l, Finish).lastSecond == l.phase.second && Apply(l, Finish).failSecond == l.failSecond
  {
  }

  // ---- Waiting appenders -------------------------------------------------------

  /** The events can happen one after another from l, all of them the log thread's. */
  ghost predicate Playable(l: Log, events: seq<Event>)
    decreases |events|
  {
    events == [] || (Inv(l) && Enabled(l, events[0]) && !events[0].Append? && Playable(Apply(l, events[0]), events[1..]))
  }

  ghost function Play(l: Log, events: seq<Event>): Log
    requires Playable(l, events)
    decreases |events|
  {
    if events == [] then l else Play(Apply(l, events[0]), events[1..])
  }

  lemma {:induction false} PlaySize(l: Log, events: seq<Event>)
    requires Inv(l) && Playable(l, events)
    ensures Inv(Play(l, events)) && Play(l, events).size == l.size
    decreases |events|
  {
    hide Apply, Enabled, Inv;
    if events != [] {
      StepKeeps(l, events[0]);
      PlaySize(Apply(l, events[0]), events[1..]);
    }
  }

  lemma PlayThen(l: Log, e: Event, events: seq<Event>)
    requires Inv(l) && Enabled(l, e) && !e.Append? && Playable(Apply(l, e), events)
    ensures Playable(l, [e] + events) && Play(l, [e] + events) == Play(Apply(l, e), events)
  {
    hide Apply, Enabled, Inv;
    assert ([e] + events)[1..] == events;
  }

  /** One whole pass in a new second empties the buffer of a sleeping thread. */
  lemma PassEmpties(l: Log) returns (events: seq<Event>)
    requires Inv(l) && l.phase.Asleep?
    ensures Playable(l, events) && Play(l, events).buffer == []
  {
    events := [];
    if l.buffer != [] {
      var begun := Apply(l, Begin(l.failSecond + l.lastSecond + 1));
      var wrote := Apply(begun, Write(Bytes(|l.buffer|)));
      StepKeeps(l, Begin(l.failSecond + l.lastSecond + 1));
      StepKeeps(begun, Write(Bytes(|l.buffer|)));
      assert Apply(wrote, Finish).buffer == [];
      PlayThen(wrote, Finish, []);
      PlayThen(begun, Write(Bytes(|l.buffer|)), [Finish]);
      PlayThen(l, Begin(l.failSecond + l.lastSecond + 1), [Write(Bytes(|l.buffer|)), Finish]);
      events := [Begin(l.failSecond + l.lastSecond + 1), Write(Bytes(|l.buffer|)), Finish];
      assert events == [Begin(l.failSecond + l.lastSecond + 1)] + [Write(Bytes(|l.buffer|)), Finish];
      assert [Write(Bytes(|l.buffer|))] + [Finish] == [Write(Bytes(|l.buffer|)), Finish];
      assert [Finish] + [] == [Finish];
    }
  }

  /** Wherever the thread is, it can go on to empty the buffer. */
  lemma ThreadEmpties(l: Log) returns (events: seq<Event>)
    requires Inv(l)
    ensures Playable(l, events) && Play(l, events).buffer == []
  {
    if l.phase.Asleep? {
      events := PassEmpties(l);
    } else if l.phase.Writing? && l.phase.left > 0 {
      var wrote := Apply(l, Write(Bytes(l.phase.left)));
      StepKeeps(l, Write(Bytes(l.phase.left)));
      StepKeeps(wrote, Finish);
      var rest := PassEmpties(Apply(wrote, Finish));
      PlayThen(wrote, Finish, rest);
      PlayThen(l, Write(Bytes(l.phase.left)), [Finish] + rest);
      events := [Write(Bytes(l.phase.left))] + ([Finish] + rest);
    } else {
      StepKeeps(l, Finish);
      var rest := PassEmpties(Apply(l, Finish));
      PlayThen(l, Finish, rest);
      events := [Finish] + rest;
    }
  }

  /** The thread can make room for a line it is asked to wait for, exactly when prefix and line together are no longer
      than the buffer. A longer line that is itself shorter than the buffer is waited for in vain. */
  lemma WaitCanEnd(l: Log, line: seq<Byte>, prefixLen: nat)
    requires Inv(l) && |line| < l.size
    ensures (exists events :: Playable(l, events) && Fits(Play(l, events), line, prefixLen)) <==> prefixLen + |line| <= l.size
  {
    hide Inv, Apply, Enabled, Play, Playable;
    if prefixLen + |line| <= l.size {
      var events := ThreadEmpties(l);
      PlaySize(l, events);
      assert Fits(Play(l, events), line, prefixLen);
    }
    forall events | Playable(l, events) && Fits(Play(l, events), line, prefixLen) ensures prefixLen + |line| <= l.size {
      PlaySize(l, events);
    }
  }

  /** The log in shared memory. Only fields a caller could observe are kept besides the two records. */
  class SharedLog {
    const bytes: array<Byte>
    var used: nat
    var phase: Phase
    var lastSecond: nat
    var failSecond: nat
    ghost var accepted: seq<Byte>
    ghost var written: seq<Byte>

    ghost function View(): Log
      reads this, bytes
      requires used <= bytes.Length
    {
      Log(bytes.Length, bytes[..used], phase, lastSecond, failSecond, accepted, written)
    }

    ghost predicate Valid()
      reads this, bytes
    {
      used <= bytes.Length && Inv(View())
    }

    /** shf_log_thread_new, before any thread has run. */
    constructor (size: nat)
      requires size > 0
      ensures Valid() && View() == Log(size, [], Asleep, 0, 0, [], [])
    {
      bytes := new Byte[size];
      used, phase, lastSecond, failSecond, accepted, written := 0, Asleep, 0, 0, [], [];
    }

    /** The line copied behind the used bytes. */
    method CopyBehind(line: seq<Byte>)
      requires used + |line| <= bytes.Length
      modifies bytes
      ensures bytes[..used + |line|] == old(bytes[..used]) + line
    {
      for i := 0 to |line|
        invariant forall j :: 0 <= j < i ==> bytes[used + j] == line[j]
        invariant forall j :: 0 <= j < used ==> bytes[j] == old(bytes[j])
      {
        bytes[used + i] := line[i];
      }
    }

    /** One turn of the append loop under the lock. The line is dropped when it can never fit;
        otherwise the caller waits and tries again until the result is true. */
    method TryAppend(line: seq<Byte>, prefixLen: nat) returns (appended: bool)
      requires Valid()
      modifies this, bytes
      ensures Valid() && View() == Apply(old(View()), Append(line, prefixLen))
      ensures appended <==> |line| < bytes.Length && old(used) + prefixLen + |line| <= bytes.Length
      ensures appended ==> bytes[..used] == old(bytes[..used]) + line
      ensures !appended ==> bytes[..] == old(bytes[..]) && used == old(used)
    {
      hide Inv;
      StepKeeps(View(), Append(line, prefixLen));
      appended := false;
      if |line| < bytes.Length && prefixLen + |line| <= bytes.Length - used {
        CopyBehind(line);
        used := used + |line|;
        accepted := accepted + line;
        appended := true;
      }
    }

    method StartPass(second: nat)
      requires Valid() && phase.Asleep?
      modifies this`phase
      ensures Valid() && View() == Apply(old(View()), Begin(second))
    {
      StepKeeps(View(), Begin(second));
      var logUsed := used;
      if logUsed > 0 && failSecond != second && (lastSecond != second || logUsed >= WRITE_THRESHOLD) {
        phase := Writing(logUsed, logUsed, second);
      }
    }

    /** One round of the unlocked write loop; result is what write() answered. */
    method WriteSome(result: Result)
      requires Valid() && Enabled(View(), Write(result))
      modifies this`phase, this`failSecond, this`written
      ensures Valid() && View() == Apply(old(View()), Write(result))
    {
      InvPhase(View());
      hide Inv;
      StepKeeps(View(), Write(result));
      var start := phase.used - phase.left;
      match result {
        case Bytes(n) =>
          written := written + bytes[..used][start..start + n];
          phase := Writing(phase.used, phase.left - n, phase.second);
        case WouldBlock => phase := Wrote(phase.used, phase.left, phase.second);
        case Interrupted => phase := Wrote(phase.used, phase.left, phase.second);
        case Failed =>
          failSecond := phase.second;
          phase := Wrote(phase.used, phase.left, phase.second);
      }
    }

    /** memmove to the front. */
    method MoveDown(k: nat, count: nat)
      requires k + count <= bytes.Length
      modifies bytes
      ensures bytes[..count] == old(bytes[k..k + count])
    {
      for i := 0 to count
        invariant forall j :: 0 <= j < i ==> bytes[j] == old(bytes[k + j])
        invariant forall j :: i <= j < bytes.Length ==> bytes[j] == old(bytes[j])
      {
        bytes[i] := bytes[k + i];
      }
    }

    /** After the write loop: what is left, and what came in during the writes, moves to the front. */
    method EndPass()
      requires Valid() && Enabled(View(), Finish)
      modifies this, bytes
      ensures Valid() && View() == Apply(old(View()), Finish)
    {
      InvPhase(View());
      hide Inv;
      StepKeeps(View(), Finish);
      var k := phase.used - phase.left;
      if phase.used != phase.left {
        var leftDuringWrite := used - phase.used;
        var moved := phase.left + leftDuringWrite;
        MoveDown(k, moved);
        assert bytes[..moved] == old(bytes[..used])[k..];
        used := moved;
      } else {
        assert bytes[..used] == bytes[..used][k..];
      }
      lastSecond := phase.second;
      phase := Asleep;
    }
  }
}
