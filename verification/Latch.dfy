/**
  `latch` as a step machine.  `count_down` subtracts and re-reads the counter in two steps and
  notifies in a third, none of them under the mutex; `wait` tests the counter, tests it again as
  the predicate of the condition variable, and falls asleep, holding the mutex from the first test
  until it sleeps.
*/
module Latch {
  import opened Wrappers
  import opened Counting

  const U64: nat := 0x1_0000_0000_0000_0000

  function Wrap(x: int): (r: nat)
    ensures r < U64
    ensures 0 <= x < U64 ==> r == x
  {
    x % U64
  }

  datatype Thread =
    | Idle
    | Subtracted   // in count_down, about to re-read the counter
    | NotifyDue    // re-read zero, about to call notify_all
    | Tested       // in wait, the first test was negative, holds the mutex
    | Committed    // the predicate was false, about to sleep, holds the mutex
    | Asleep
    | Woken        // about to take the mutex and evaluate the predicate again

  datatype Latch = Latch(counter: nat, mutex: Option<nat>, threads: seq<Thread>)

  datatype Event =
    | Arrive(t: nat, n: nat)
    | Reread(t: nat)
    | NotifyAll(t: nat)
    | Test(t: nat)
    | Retest(t: nat)
    | Sleep(t: nat)
    | Spurious(t: nat)
    | Relock(t: nat)

  function Fresh(expected: nat, threads: nat): Latch {
    Latch(Wrap(expected), None, seq(threads, _ => Idle))
  }

  predicate Enabled(s: Latch, e: Event) {
    && e.t < |s.threads|
    && var p := s.threads[e.t];
       match e
       case Arrive(_, n) => p.Idle? && n < U64
       case Reread(_) => p.Subtracted?
       case NotifyAll(_) => p.NotifyDue?
       case Test(_) => p.Idle? && s.mutex == None
       case Retest(_) => p.Tested?
       case Sleep(_) => p.Committed?
       case Spurious(_) => p.Asleep?
       case Relock(_) => p.Woken? && s.mutex == None
  }

  function WakeAll(threads: seq<Thread>): (r: seq<Thread>)
    ensures |r| == |threads|
  {
    seq(|threads|, i requires 0 <= i < |threads| => if threads[i].Asleep? then Woken else threads[i])
  }

  function Next(s: Latch, e: Event): Latch
    requires Enabled(s, e)
  {
    match e
    case Arrive(t, n) => s.(counter := Wrap(s.counter - n), threads := s.threads[t := Subtracted])
    case Reread(t) => s.(threads := s.threads[t := if s.counter == 0 then NotifyDue else Idle])
    case NotifyAll(t) => s.(threads := WakeAll(s.threads[t := Idle]))
    case Test(t) =>
      if s.counter == 0 then s else s.(mutex := Some(t), threads := s.threads[t := Tested])
    case Retest(t) =>
      if s.counter == 0 then s.(mutex := None, threads := s.threads[t := Idle])
      else s.(threads := s.threads[t := Committed])
    case Sleep(t) => s.(mutex := None, threads := s.threads[t := Asleep])
    case Spurious(t) => s.(threads := s.threads[t := Woken])
    case Relock(t) =>
      if s.counter == 0 then s.(threads := s.threads[t := Idle])
      else s.(mutex := Some(t), threads := s.threads[t := Committed])
  }

  /** At this event a call of `wait` returns. */
  predicate WaitReturns(s: Latch, e: Event)
    requires Enabled(s, e)
  {
    (e.Test? || e.Retest? || e.Relock?) && Next(s, e).threads[e.t].Idle?
  }

  predicate Runs(s: Latch, es: seq<Event>)
    decreases |es|
  {
    es == [] || (Enabled(s, es[0]) && Runs(Next(s, es[0]), es[1..]))
  }

  function Exec(s: Latch, es: seq<Event>): Latch
    requires Runs(s, es)
    decreases |es|
  {
    if es == [] then s else Exec(Next(s, es[0]), es[1..])
  }

  lemma RunCons(s: Latch, e: Event, rest: seq<Event>)
    requires Enabled(s, e) && Runs(Next(s, e), rest)
    ensures Runs(s, [e] + rest) && Exec(s, [e] + rest) == Exec(Next(s, e), rest)
    ensures Arrived([e] + rest) == (if e.Arrive? then e.n else 0) + Arrived(rest)
  {
  }

  /** The sum of the arguments of the count_down calls made. */
  function Arrived(es: seq<Event>): nat {
    if es == [] then 0 else (if es[0].Arrive? then es[0].n else 0) + Arrived(es[1..])
  }

  // ---------------------------------------------------------------- arithmetic

  lemma WrapSub(x: int, n: int)
    ensures Wrap(Wrap(x) - n) == Wrap(x - n)
  {
  }

  /** In every interleaving the counter is the expectation minus the arrivals, modulo 2^64. */
  lemma {:induction false} CounterIsDifference(s: Latch, es: seq<Event>, total: int)
    requires Runs(s, es) && s.counter == Wrap(total)
    ensures Exec(s, es).counter == Wrap(total - Arrived(es))
    decreases |es|
  {
    if es != [] {
      var n := if es[0].Arrive? then es[0].n else 0;
      WrapSub(total, n);
      CounterIsDifference(Next(s, es[0]), es[1..], total - n);
    }
  }

  /**
    For any number of arrivals: the counter is zero exactly if the arrivals miss the expectation by
    a multiple of 2^64, and it is what remains to arrive exactly if no more arrived than expected.
  */
  lemma CounterIsExactIff(expected: nat, threads: nat, es: seq<Event>)
    requires expected < U64 && Runs(Fresh(expected, threads), es)
    ensures Exec(Fresh(expected, threads), es).counter == 0 <==> (expected - Arrived(es)) % U64 == 0
    ensures Exec(Fresh(expected, threads), es).counter == expected - Arrived(es) <==> Arrived(es) <= expected
  {
    CounterIsDifference(Fresh(expected, threads), es, expected);
  }

  /** While the arrivals do not exceed the expectation, the counter is zero exactly when all have arrived. */
  lemma ZeroMeansAllArrived(expected: nat, threads: nat, es: seq<Event>)
    requires expected < U64 && Runs(Fresh(expected, threads), es) && Arrived(es) <= expected
    ensures Exec(Fresh(expected, threads), es).counter == expected - Arrived(es)
    ensures Exec(Fresh(expected, threads), es).counter == 0 <==> Arrived(es) == expected
  {
    CounterIsDifference(Fresh(expected, threads), es, expected);
  }

  /** Zero stays zero in every continuation, exactly as long as what arrives later is a multiple of 2^64, in particular nothing. */
  lemma ZeroIsStable(s: Latch, es: seq<Event>)
    requires Runs(s, es) && s.counter == 0
    ensures Exec(s, es).counter == 0 <==> Arrived(es) % U64 == 0
  {
    CounterIsDifference(s, es, 0);
  }

  // ---------------------------------------------------------------- wait returns at zero

  /** Wherever `wait` looks at the counter, it returns exactly if the counter is zero. */
  lemma WaitReturnsIff(s: Latch, e: Event)
    requires Enabled(s, e) && (e.Test? || e.Retest? || e.Relock?)
    ensures WaitReturns(s, e) <==> s.counter == 0
  {
  }

  /** The mutex is held by the one thread that stands between its tests and its sleep, if there is one. */
  ghost predicate MutexFits(s: Latch) {
    && (s.mutex.Some? ==>
          s.mutex.value < |s.threads| && (s.threads[s.mutex.value].Tested? || s.threads[s.mutex.value].Committed?))
    && forall t: nat | t < |s.threads| :: s.mutex == Some(t) <==> s.threads[t].Tested? || s.threads[t].Committed?
  }

  lemma {:induction false} RunKeepsMutex(s: Latch, es: seq<Event>)
    requires Runs(s, es) && MutexFits(s)
    ensures MutexFits(Exec(s, es))
    decreases |es|
  {
    if es != [] {
      RunKeepsMutex(Next(s, es[0]), es[1..]);
    }
  }

  /**
    How threads move through `wait`, whoever takes the step: they leave it only at zero, fall asleep
    only holding the mutex, which they give back, and are woken by every notification and by a
    spurious wakeup of their own, and by nothing else.
  */
  lemma WaitStepByStep(s: Latch, e: Event, t: nat)
    requires Enabled(s, e) && MutexFits(s) && t < |s.threads|
    ensures var s' := Next(s, e);
            var p, p' := s.threads[t], s'.threads[t];
            && (Waits(p) && !Waits(p') ==> s.counter == 0 && p'.Idle? && e.t == t && WaitReturns(s, e))
            && (!p.Asleep? && p'.Asleep? ==> p.Committed? && s.mutex == Some(t) && s'.mutex == None)
            && (p.Asleep? ==> if e.NotifyAll? || e == Spurious(t) then p'.Woken? else p'.Asleep?)
            && (p'.Committed? && !p.Committed? ==> s.counter != 0 && (p.Tested? || p.Woken?))
  {
  }

  /** The thread is inside `wait`. */
  predicate Waits(p: Thread) {
    p.Tested? || p.Committed? || p.Asleep? || p.Woken?
  }

  /** `wait` returns only at zero: by then everything expected has arrived, and nothing beyond it but whole rounds of the counter. */
  lemma WaitReturnsOnlyAtZero(expected: nat, threads: nat, es: seq<Event>, e: Event, t: nat)
    requires expected < U64 && Runs(Fresh(expected, threads), es)
    requires var s := Exec(Fresh(expected, threads), es);
             && Enabled(s, e) && t < |s.threads| && !Waits(Next(s, e).threads[t])
             && (Waits(s.threads[t]) || e == Test(t))
    ensures Arrived(es) >= expected && (Arrived(es) - expected) % U64 == 0
  {
    CounterIsExactIff(expected, threads, es);
    RunKeepsMutex(Fresh(expected, threads), es);
    WaitStepByStep(Exec(Fresh(expected, threads), es), e, t);
  }

  /** The step that a thread inside a call takes next, unless it sleeps. */
  function NextMove(p: Thread, t: nat): Event
    requires !p.Idle? && !p.Asleep?
  {
    match p
    case Subtracted => Reread(t)
    case NotifyDue => NotifyAll(t)
    case Tested => Retest(t)
    case Committed => Sleep(t)
    case Woken => Relock(t)
  }

  /**
    No deadlock: in every reachable state a thread that is inside a call and not asleep can take its
    next step, or it is a woken one and the holder of the mutex can; a thread outside can count down
    by any number, and can start to wait unless the mutex is held.
  */
  lemma NobodyIsBlocked(expected: nat, threads: nat, es: seq<Event>, t: nat, n: nat)
    requires Runs(Fresh(expected, threads), es) && t < threads && n < U64
    ensures var s := Exec(Fresh(expected, threads), es);
            && |s.threads| == threads
            && (s.mutex.Some? ==>
                  var h := s.mutex.value;
                  h < threads && !s.threads[h].Idle? && !s.threads[h].Asleep? && Enabled(s, NextMove(s.threads[h], h)))
            && (s.threads[t].Idle? ==> Enabled(s, Arrive(t, n)) && (s.mutex == None ==> Enabled(s, Test(t))))
            && (s.threads[t].Asleep? ==> Enabled(s, Spurious(t)))
            && (!s.threads[t].Idle? && !s.threads[t].Asleep? && (s.threads[t].Woken? ==> s.mutex == None) ==>
                  Enabled(s, NextMove(s.threads[t], t)))
  {
    RunKeepsMutex(Fresh(expected, threads), es);
    RunKeepsThreads(Fresh(expected, threads), es);
  }

  lemma {:induction false} RunKeepsThreads(s: Latch, es: seq<Event>)
    requires Runs(s, es)
    ensures |Exec(s, es).threads| == |s.threads|
    decreases |es|
  {
    if es != [] {
      RunKeepsThreads(Next(s, es[0]), es[1..]);
    }
  }

  /** A step that a thread takes inside `wait` while it is not asleep. */
  predicate InWait(e: Event) {
    e.Retest? || e.Sleep? || e.Relock?
  }

  ghost function Inside(s: Latch): set<nat> {
    set t | 0 <= t < |s.threads| && (s.threads[t].Tested? || s.threads[t].Committed? || s.threads[t].Woken?)
  }

  /** Everybody who was awake inside `wait` is out of it, or asleep if it was about to sleep; nobody else has moved, and the mutex is free. */
  ghost predicate LeftWait(s: Latch, end: Latch) {
    && end.counter == s.counter && end.mutex == None && |end.threads| == |s.threads|
    && forall t: nat | t < |s.threads| ::
         if s.threads[t].Tested? || s.threads[t].Woken? then end.threads[t].Idle?
         else if s.threads[t].Committed? then end.threads[t].Asleep?
         else end.threads[t] == s.threads[t]
  }

  lemma OneLeaves(s: Latch, t: nat, e: Event)
    requires MutexFits(s) && s.counter == 0 && t in Inside(s) && Enabled(s, e) && InWait(e) && e.t == t
    ensures MutexFits(Next(s, e)) && Next(s, e).counter == 0
    ensures Inside(Next(s, e)) == Inside(s) - {t}
    ensures forall end :: LeftWait(Next(s, e), end) ==> LeftWait(s, end)
  {
  }

  lemma NobodyInside(s: Latch)
    requires MutexFits(s) && forall t :: t in Inside(s) ==> s.mutex.Some? && s.mutex != Some(t)
    ensures LeftWait(s, s)
  {
    assert forall t: nat | t < |s.threads| && s.mutex == None :: t !in Inside(s);
    assert s.mutex == None;
  }

  lemma {:induction false} WaitersLeave(s: Latch) returns (es: seq<Event>)
    requires MutexFits(s) && s.counter == 0
    ensures Runs(s, es) && LeftWait(s, Exec(s, es))
    ensures forall i | 0 <= i < |es| :: InWait(es[i])
    decreases |Inside(s)|
  {
    if t: nat :| t in Inside(s) && (s.mutex == None || s.mutex == Some(t)) {
      var e := if s.threads[t].Tested? then Retest(t) else if s.threads[t].Committed? then Sleep(t) else Relock(t);
      OneLeaves(s, t, e);
      SubsetSize(Inside(s) - {t}, Inside(s));
      hide Next, Enabled, Runs, Exec, LeftWait;
      var rest := WaitersLeave(Next(s, e));
      RunCons(s, e, rest);
      es := [e] + rest;
    } else {
      NobodyInside(s);
      es := [];
    }
  }

  /**
    `wait` returns at zero: from every reachable state in which the counter is zero, steps of the
    threads awake inside `wait` bring each of them out of it, but for one that stands between its
    predicate and its sleep, and leave the mutex free.
  */
  lemma WaitersGetOut(expected: nat, threads: nat, es: seq<Event>) returns (more: seq<Event>)
    requires Runs(Fresh(expected, threads), es) && Exec(Fresh(expected, threads), es).counter == 0
    ensures forall i | 0 <= i < |more| :: InWait(more[i])
    ensures var s := Exec(Fresh(expected, threads), es);
            MutexFits(s) && Runs(s, more) && LeftWait(s, Exec(s, more))
  {
    RunKeepsMutex(Fresh(expected, threads), es);
    more := WaitersLeave(Exec(Fresh(expected, threads), es));
  }

  // ---------------------------------------------------------------- too many arrivals

  /** More arrivals than expected can pass zero by: the counter then starts again from the top. */
  lemma OverArrivalWraps()
    ensures var es := [Arrive(0, 2)];
            Runs(Fresh(1, 1), es) && Exec(Fresh(1, 1), es).counter == U64 - 1
  {
    var s := Next(Fresh(1, 1), Arrive(0, 2));
    assert Exec(s, []) == s;
  }

  // ---------------------------------------------------------------- somebody notifies

  /** Some count_down has subtracted and not yet returned. */
  predicate Pending(s: Latch) {
    exists t :: 0 <= t < |s.threads| && (s.threads[t].Subtracted? || s.threads[t].NotifyDue?)
  }

  predicate NotifiedAtZero(s: Latch, es: seq<Event>)
    requires Runs(s, es)
    decreases |es|
  {
    es != [] && ((es[0].NotifyAll? && s.counter == 0) || NotifiedAtZero(Next(s, es[0]), es[1..]))
  }

  lemma {:induction false} ZeroIsAnnounced(s: Latch, es: seq<Event>)
    requires Runs(s, es) && Arrived(es) <= s.counter < U64
    requires s.counter != 0 || Pending(s)
    ensures Exec(s, es).counter != 0 || Pending(Exec(s, es)) || NotifiedAtZero(s, es)
    decreases |es|
  {
    if es != [] && !(es[0].NotifyAll? && s.counter == 0) {
      var e, s' := es[0], Next(s, es[0]);
      if e.Arrive? {
        assert s'.threads[e.t].Subtracted?;
      } else if s.counter == 0 {
        var t :| 0 <= t < |s.threads| && (s.threads[t].Subtracted? || s.threads[t].NotifyDue?);
        assert s'.threads[t].Subtracted? || s'.threads[t].NotifyDue?;
      }
      ZeroIsAnnounced(s', es[1..]);
    }
  }

  /** If something was expected, then once all have arrived and every count_down has returned, a notify_all was issued at zero. */
  lemma LastArrivalNotifies(expected: nat, threads: nat, es: seq<Event>)
    requires 0 < expected < U64 && Runs(Fresh(expected, threads), es) && Arrived(es) == expected
    ensures Pending(Exec(Fresh(expected, threads), es)) || NotifiedAtZero(Fresh(expected, threads), es)
  {
    ZeroMeansAllArrived(expected, threads, es);
    ZeroIsAnnounced(Fresh(expected, threads), es);
  }

  /** A count_down notifies exactly if it reads zero back; otherwise it returns. */
  lemma NotifiesIff(s: Latch, t: nat)
    requires Enabled(s, Reread(t))
    ensures if s.counter == 0 then Next(s, Reread(t)).threads[t].NotifyDue? else Next(s, Reread(t)).threads[t].Idle?
  {
  }

  predicate SomeDue(s: Latch) {
    exists t :: 0 <= t < |s.threads| && s.threads[t].NotifyDue?
  }

  lemma {:induction false} DueMeansZero(s: Latch, es: seq<Event>)
    requires Runs(s, es) && Arrived(es) <= s.counter < U64 && (SomeDue(s) ==> s.counter == 0)
    ensures SomeDue(Exec(s, es)) ==> Exec(s, es).counter == 0
    decreases |es|
  {
    if es != [] {
      var s' := Next(s, es[0]);
      assert SomeDue(s') ==> s'.counter == 0 by {
        if t :| 0 <= t < |s'.threads| && s'.threads[t].NotifyDue? {
          assert s.threads[t].NotifyDue? || (es[0] == Reread(t) && s.counter == 0);
        }
      }
      DueMeansZero(s', es[1..]);
    }
  }

  /** While the arrivals do not exceed the expectation, nobody is notified before all have arrived. */
  lemma NotifiesOnlyAtZero(expected: nat, threads: nat, es: seq<Event>, t: nat)
    requires expected < U64 && Runs(Fresh(expected, threads), es) && Arrived(es) <= expected
    requires Enabled(Exec(Fresh(expected, threads), es), NotifyAll(t))
    ensures Arrived(es) == expected
  {
    ZeroMeansAllArrived(expected, threads, es);
    DueMeansZero(Fresh(expected, threads), es);
  }

  // ---------------------------------------------------------------- and yet a waiter can sleep on

  /** Zero is reached, nobody is going to notify, and a waiter sleeps. */
  predicate Stranded(s: Latch) {
    s.counter == 0 && !Pending(s) && exists w :: 0 <= w < |s.threads| && s.threads[w].Asleep?
  }

  /** This continuation, in which nothing more arrives, leaves a waiter asleep with nobody left to notify. */
  predicate Strands(s: Latch, es: seq<Event>) {
    Runs(s, es) && Arrived(es) == 0 && Stranded(Exec(s, es))
  }

  predicate SomeCommitted(s: Latch) {
    exists w :: 0 <= w < |s.threads| && s.threads[w].Committed?
  }

  /** The notification is not sent under the mutex, so it can fall between the predicate and the sleep. */
  lemma WakeupCanBeLost()
    ensures var es := [Test(1), Retest(1), Arrive(0, 1), Reread(0), NotifyAll(0), Sleep(1)];
            Runs(Fresh(1, 2), es) && Stranded(Exec(Fresh(1, 2), es))
  {
    var s0 := Fresh(1, 2);
    assert s0.threads == [Idle, Idle];
    var s1 := Latch(1, Some(1), [Idle, Tested]);
    var s2 := Latch(1, Some(1), [Idle, Committed]);
    var s3 := Latch(0, Some(1), [Subtracted, Committed]);
    var s4 := Latch(0, Some(1), [NotifyDue, Committed]);
    var s5 := Latch(0, Some(1), [Idle, Committed]);
    var s6 := Latch(0, None, [Idle, Asleep]);
    assert Next(s0, Test(1)) == s1;
    assert Next(s1, Retest(1)) == s2;
    assert Next(s2, Arrive(0, 1)) == s3;
    assert Next(s3, Reread(0)) == s4;
    assert Next(s4, NotifyAll(0)) == s5 by {
      assert WakeAll([Idle, Committed]) == [Idle, Committed];
    }
    assert Next(s5, Sleep(1)) == s6;
    assert s6.threads[1].Asleep? && Stranded(s6);
    RunCons(s5, Sleep(1), []);
    ReplayOfLoss(s0, s1, s2, s3, s4, s5, s6);
  }

  lemma ReplayOfLoss(s0: Latch, s1: Latch, s2: Latch, s3: Latch, s4: Latch, s5: Latch, s6: Latch)
    requires Enabled(s0, Test(1)) && Next(s0, Test(1)) == s1
    requires Enabled(s1, Retest(1)) && Next(s1, Retest(1)) == s2
    requires Enabled(s2, Arrive(0, 1)) && Next(s2, Arrive(0, 1)) == s3
    requires Enabled(s3, Reread(0)) && Next(s3, Reread(0)) == s4
    requires Enabled(s4, NotifyAll(0)) && Next(s4, NotifyAll(0)) == s5
    requires Runs(s5, [Sleep(1)] + []) && Exec(s5, [Sleep(1)] + []) == s6
    ensures var es := [Test(1), Retest(1), Arrive(0, 1), Reread(0), NotifyAll(0), Sleep(1)];
            Runs(s0, es) && Exec(s0, es) == s6
  {
    hide Next, Enabled, Runs, Exec, Stranded;
    RunCons(s4, NotifyAll(0), [Sleep(1)] + []);
    RunCons(s3, Reread(0), [NotifyAll(0)] + ([Sleep(1)] + []));
    RunCons(s2, Arrive(0, 1), [Reread(0)] + ([NotifyAll(0)] + ([Sleep(1)] + [])));
    RunCons(s1, Retest(1), [Arrive(0, 1)] + ([Reread(0)] + ([NotifyAll(0)] + ([Sleep(1)] + []))));
    RunCons(s0, Test(1), [Retest(1)] + ([Arrive(0, 1)] + ([Reread(0)] + ([NotifyAll(0)] + ([Sleep(1)] + [])))));
    assert [Test(1)] + ([Retest(1)] + ([Arrive(0, 1)] + ([Reread(0)] + ([NotifyAll(0)] + ([Sleep(1)] + [])))))
        == [Test(1), Retest(1), Arrive(0, 1), Reread(0), NotifyAll(0), Sleep(1)];
  }

  /** A stranded waiter sleeps on until somebody calls count_down again or it wakes spuriously. */
  lemma {:induction false} StrandedSleepsOn(s: Latch, w: nat, es: seq<Event>)
    requires Runs(s, es) && !Pending(s) && w < |s.threads| && s.threads[w].Asleep?
    requires forall i | 0 <= i < |es| :: !es[i].Arrive? && es[i] != Spurious(w)
    ensures w < |Exec(s, es).threads| && Exec(s, es).threads[w].Asleep?
    decreases |es|
  {
    if es != [] {
      var s' := Next(s, es[0]);
      assert !es[0].Reread? && !es[0].NotifyAll? && !es[0].Arrive?;
      assert forall t | 0 <= t < |s'.threads| :: !s'.threads[t].Subtracted? && !s'.threads[t].NotifyDue?;
      StrandedSleepsOn(s', w, es[1..]);
    }
  }

  /** A count_down of nothing at zero is enough to wake it. */
  lemma EmptyCountDownWakes(s: Latch, w: nat, t: nat)
    requires Stranded(s) && w < |s.threads| && s.threads[w].Asleep? && t < |s.threads| && s.threads[t].Idle?
    ensures var es := [Arrive(t, 0), Reread(t), NotifyAll(t)];
            Runs(s, es) && Exec(s, es).counter == 0 && w < |Exec(s, es).threads| && Exec(s, es).threads[w].Woken?
  {
    var s1 := Next(s, Arrive(t, 0));
    var s2 := Next(s1, Reread(t));
    var s3 := Next(s2, NotifyAll(t));
    assert s3.counter == 0 && s3.threads[w].Woken?;
    RunCons(s2, NotifyAll(t), []);
    RunCons(s1, Reread(t), [NotifyAll(t)] + []);
    RunCons(s, Arrive(t, 0), [Reread(t)] + ([NotifyAll(t)] + []));
    assert [Arrive(t, 0)] + ([Reread(t)] + ([NotifyAll(t)] + [])) == [Arrive(t, 0), Reread(t), NotifyAll(t)];
  }

  ghost predicate AllClear(s: Latch) {
    s.counter == 0 && forall w | 0 <= w < |s.threads| :: !s.threads[w].Committed? && !s.threads[w].Asleep?
  }

  lemma {:induction false} AllClearStays(s: Latch, es: seq<Event>)
    requires Runs(s, es) && AllClear(s) && Arrived(es) == 0
    ensures AllClear(Exec(s, es))
    decreases |es|
  {
    if es != [] {
      AllClearStays(Next(s, es[0]), es[1..]);
    }
  }

  /**
    Exactly when the last notification is lost: of the notify_all at zero that no other
    count_down will follow, some continuation leaves a waiter asleep with nobody left to notify if
    and only if a waiter stood between its predicate and its sleep when the notification was sent.
  */
  lemma LastNotifyIsLostIff(s: Latch, t: nat)
    requires Enabled(s, NotifyAll(t)) && s.counter == 0
    requires forall u | 0 <= u < |s.threads| :: u != t ==> !s.threads[u].Subtracted? && !s.threads[u].NotifyDue?
    ensures (exists es :: Strands(Next(s, NotifyAll(t)), es)) <==> SomeCommitted(s)
  {
    var s' := Next(s, NotifyAll(t));
    if SomeCommitted(s) {
      var w :| 0 <= w < |s.threads| && s.threads[w].Committed?;
      var s'' := Next(s', Sleep(w));
      RunCons(s', Sleep(w), []);
      assert s''.threads[w].Asleep?;
      assert Strands(s', [Sleep(w)] + []);
    } else {
      assert AllClear(s');
      forall es ensures !Strands(s', es) {
        if Runs(s', es) && Arrived(es) == 0 {
          AllClearStays(s', es);
        }
      }
    }
  }

  // ---------------------------------------------------------------- the object

  class Counter {
    var expected: nat

    constructor (expected: nat)
      requires expected < U64
      ensures this.expected == expected
    {
      this.expected := expected;
    }

    /** A count_down that is not interrupted; it notifies exactly if it reads zero back. */
    method CountDown(n: nat) returns (notifies: bool)
      requires expected < U64 && n < U64
      modifies this
      ensures expected == if n <= old(expected) then old(expected) - n else old(expected) - n + U64
      ensures notifies <==> n == old(expected)
    {
      expected := Wrap(expected - n);
      notifies := expected == 0;
    }
  }
}
