/**
  `shared_state::wait` as a step machine on top of the write-once cell.  A waiter looks at the tag
  without the mutex, again with it, and a third time as the predicate of the condition variable,
  and then falls asleep; setters publish the tag and notify without the mutex, and they notify one
  waiter only.
*/
module FutureWait {
  import opened Wrappers
  import opened Counting
  import S = SharedState

  datatype Waiter =
    | Away
    | Looked      // found the state initial, about to take the mutex
    | Tested      // found it initial again, holds the mutex
    | Committed   // the predicate was false, about to sleep, holds the mutex
    | Asleep
    | Woken       // about to take the mutex and evaluate the predicate again

  datatype Room<V, E> = Room(cell: S.Cell<V, E>, mutex: Option<nat>, waiters: seq<Waiter>)

  datatype Event<V, E> =
    | Look(w: nat)
    | Lock(w: nat)
    | Retest(w: nat)
    | Sleep(w: nat)
    | Spurious(w: nat)
    | Relock(w: nat)
    | Setter(e: S.Event<V, E>, target: nat)  // a notification wakes `target`, if anybody sleeps

  function Fresh<V, E>(setters: nat, waiters: nat): Room<V, E> {
    Room(S.Fresh(setters), None, seq(waiters, _ => Away))
  }

  predicate Ready<V, E>(s: Room<V, E>) {
    s.cell.tag != S.Init
  }

  predicate Sleeps<V, E>(s: Room<V, E>, w: nat) {
    w < |s.waiters| && s.waiters[w].Asleep?
  }

  predicate SomeoneSleeps<V, E>(s: Room<V, E>) {
    exists w :: 0 <= w < |s.waiters| && s.waiters[w].Asleep?
  }

  predicate Enabled<V, E>(s: Room<V, E>, e: Event<V, E>) {
    if e.Setter? then
      S.Enabled(s.cell, e.e) && (e.e.Notify? && SomeoneSleeps(s) ==> Sleeps(s, e.target))
    else
      && e.w < |s.waiters|
      && match e
         case Look(w) => s.waiters[w].Away?
         case Lock(w) => s.waiters[w].Looked? && s.mutex == None
         case Retest(w) => s.waiters[w].Tested?
         case Sleep(w) => s.waiters[w].Committed?
         case Spurious(w) => s.waiters[w].Asleep?
         case Relock(w) => s.waiters[w].Woken? && s.mutex == None
  }

  function Next<V, E>(s: Room<V, E>, e: Event<V, E>): Room<V, E>
    requires Enabled(s, e)
  {
    match e
    case Look(w) => if Ready(s) then s else s.(waiters := s.waiters[w := Looked])
    case Lock(w) =>
      if Ready(s) then s.(waiters := s.waiters[w := Away])
      else s.(mutex := Some(w), waiters := s.waiters[w := Tested])
    case Retest(w) =>
      if Ready(s) then s.(mutex := None, waiters := s.waiters[w := Away])
      else s.(waiters := s.waiters[w := Committed])
    case Sleep(w) => s.(mutex := None, waiters := s.waiters[w := Asleep])
    case Spurious(w) => s.(waiters := s.waiters[w := Woken])
    case Relock(w) =>
      if Ready(s) then s.(waiters := s.waiters[w := Away])
      else s.(mutex := Some(w), waiters := s.waiters[w := Committed])
    case Setter(ce, target) =>
      s.(cell := S.Next(s.cell, ce),
         waiters := if ce.Notify? && Sleeps(s, target) then s.waiters[target := Woken] else s.waiters)
  }

  /** At this event a call of `wait` returns. */
  predicate WaitReturns<V, E>(s: Room<V, E>, e: Event<V, E>)
    requires Enabled(s, e)
  {
    (e.Look? || e.Lock? || e.Retest? || e.Relock?) && Next(s, e).waiters[e.w].Away?
  }

  predicate Runs<V, E>(s: Room<V, E>, es: seq<Event<V, E>>)
    decreases |es|
  {
    es == [] || (Enabled(s, es[0]) && Runs(Next(s, es[0]), es[1..]))
  }

  function Exec<V, E>(s: Room<V, E>, es: seq<Event<V, E>>): Room<V, E>
    requires Runs(s, es)
    decreases |es|
  {
    if es == [] then s else Exec(Next(s, es[0]), es[1..])
  }

  lemma RunCons<V, E>(s: Room<V, E>, e: Event<V, E>, rest: seq<Event<V, E>>)
    requires Enabled(s, e) && Runs(Next(s, e), rest)
    ensures Runs(s, [e] + rest) && Exec(s, [e] + rest) == Exec(Next(s, e), rest)
  {
  }

  // ---------------------------------------------------------------- the cell only sees its own machine

  function CellTrace<V, E>(es: seq<Event<V, E>>): seq<S.Event<V, E>> {
    if es == [] then [] else (if es[0].Setter? then [es[0].e] else []) + CellTrace(es[1..])
  }

  lemma {:induction false} RoomRefinesCell<V, E>(s: Room<V, E>, es: seq<Event<V, E>>)
    requires Runs(s, es)
    ensures S.Runs(s.cell, CellTrace(es)) && S.Exec(s.cell, CellTrace(es)) == Exec(s, es).cell
    decreases |es|
  {
    if es != [] {
      assert Next(s, es[0]).cell == if es[0].Setter? then S.Next(s.cell, es[0].e) else s.cell;
      assert es[0].Setter? ==> S.Enabled(s.cell, es[0].e);
      hide Next, Enabled, S.Next, S.Enabled;
      RoomRefinesCell(Next(s, es[0]), es[1..]);
      var tail := CellTrace(es[1..]);
      if es[0].Setter? {
        assert ([es[0].e] + tail)[1..] == tail;
      } else {
        assert [] + tail == tail;
      }
    }
  }

  // ---------------------------------------------------------------- wait is safe

  /**
    `wait` returns only after some call has won the cell, in every interleaving of any number of
    waiters and setters; in every continuation the tag stays that of the winner, and `get` reports
    the winner's outcome exactly if the winner is not between its exchange and its write.
  */
  lemma WaitReturnsOnlyWhenReady<V, E>(setters: nat, waiters: nat, es: seq<Event<V, E>>, e: Event<V, E>, w: nat, more: seq<Event<V, E>>)
    requires Runs(Fresh<V, E>(setters, waiters), es)
    requires var s := Exec(Fresh<V, E>(setters, waiters), es);
             && Enabled(s, e) && w < |s.waiters| && Next(s, e).waiters[w].Away?
             && (!s.waiters[w].Away? || e == Look(w))
             && Runs(Next(s, e), more)
    ensures var winner := S.Winner(CellTrace(es));
            var end := Exec(Next(Exec(Fresh<V, E>(setters, waiters), es), e), more);
            && winner.Some?
            && end.cell.tag == S.TagOf(winner.value)
            && (S.Reported(end.cell) == S.Promised(winner) <==> !S.MidWrite(end.cell))
  {
    var s0 := Fresh<V, E>(setters, waiters);
    var s := Exec(s0, es);
    RoomRefinesCell(s0, es);
    S.FirstCallWins(setters, CellTrace(es));
    RunKeepsMutex(s0, es);
    WaitStepByStep(s, e, w);
    assert s.cell.tag != S.Init;
    var s1 := Next(s, e);
    RoomRefinesCell(s1, more);
    CellRunsOn(setters, CellTrace(es), CellTrace(more));
    S.FirstCallWins(setters, CellTrace(es) + CellTrace(more));
  }

  lemma CellRunsOn<V, E>(setters: nat, a: seq<S.Event<V, E>>, b: seq<S.Event<V, E>>)
    requires S.Runs(S.Fresh<V, E>(setters), a) && S.Runs(S.Exec(S.Fresh<V, E>(setters), a), b)
    ensures S.Runs(S.Fresh<V, E>(setters), a + b)
    ensures S.Exec(S.Fresh<V, E>(setters), a + b) == S.Exec(S.Exec(S.Fresh<V, E>(setters), a), b)
    ensures S.Winner(a).Some? ==> S.Winner(a + b) == S.Winner(a)
  {
    S.RunsConcat(S.Fresh<V, E>(setters), a, b);
    S.WinnerConcat(a, b);
  }

  // ---------------------------------------------------------------- wait returns when there is an outcome

  /** Wherever `wait` looks at the tag, it returns exactly if the tag is no longer initial. */
  lemma WaitReturnsIff<V, E>(s: Room<V, E>, e: Event<V, E>)
    requires Enabled(s, e) && (e.Look? || e.Lock? || e.Retest? || e.Relock?)
    ensures WaitReturns(s, e) <==> Ready(s)
  {
  }

  /** The mutex is held by the one waiter that stands between its tests and its sleep, if there is one. */
  ghost predicate MutexFits<V, E>(s: Room<V, E>) {
    && (s.mutex.Some? ==>
          s.mutex.value < |s.waiters| && (s.waiters[s.mutex.value].Tested? || s.waiters[s.mutex.value].Committed?))
    && forall w: nat | w < |s.waiters| :: s.mutex == Some(w) <==> s.waiters[w].Tested? || s.waiters[w].Committed?
  }

  lemma {:induction false} RunKeepsMutex<V, E>(s: Room<V, E>, es: seq<Event<V, E>>)
    requires Runs(s, es) && MutexFits(s)
    ensures MutexFits(Exec(s, es))
    decreases |es|
  {
    if es != [] {
      RunKeepsMutex(Next(s, es[0]), es[1..]);
    }
  }

  /**
    How threads move through `wait`, whoever takes the step: they leave it only when there is an
    outcome, fall asleep only holding the mutex, which they give back, and are woken by a
    notification that picks them and by a spurious wakeup of their own, and by nothing else.
  */
  lemma WaitStepByStep<V, E>(s: Room<V, E>, e: Event<V, E>, w: nat)
    requires Enabled(s, e) && MutexFits(s) && w < |s.waiters|
    ensures var s' := Next(s, e);
            var p, p' := s.waiters[w], s'.waiters[w];
            && (!p.Away? && p'.Away? ==> Ready(s) && !e.Setter? && e.w == w && WaitReturns(s, e))
            && (!p.Asleep? && p'.Asleep? ==> p.Committed? && s.mutex == Some(w) && s'.mutex == None)
            && (p.Asleep? ==>
                  if e == Spurious(w) || (e.Setter? && e.e.Notify? && e.target == w) then p'.Woken? else p'.Asleep?)
            && (p'.Committed? && !p.Committed? ==> !Ready(s) && (p.Tested? || p.Woken?))
  {
  }

  /** A notification wakes one waiter, if any sleeps. */
  lemma NotifyWakesOne<V, E>(s: Room<V, E>, t: nat, target: nat)
    requires Enabled(s, Setter(S.Notify(t), target))
    ensures var s' := Next(s, Setter(S.Notify(t), target));
            && (SomeoneSleeps(s) ==> Sleeps(s, target) && s'.waiters[target].Woken?)
            && forall w: nat | w < |s.waiters| && w != target :: s'.waiters[w] == s.waiters[w]
  {
  }

  /** The step that a thread inside `wait` takes next, unless it sleeps. */
  function NextMove<V, E>(p: Waiter, w: nat): Event<V, E>
    requires !p.Away? && !p.Asleep?
  {
    match p
    case Looked => Lock(w)
    case Tested => Retest(w)
    case Committed => Sleep(w)
    case Woken => Relock(w)
  }

  lemma {:induction false} RunKeepsWaiters<V, E>(s: Room<V, E>, es: seq<Event<V, E>>)
    requires Runs(s, es)
    ensures |Exec(s, es).waiters| == |s.waiters|
    decreases |es|
  {
    if es != [] {
      RunKeepsWaiters(Next(s, es[0]), es[1..]);
    }
  }

  /**
    No deadlock: in every reachable state a thread inside `wait` and not asleep can take its next
    step, or it is about to take the mutex and the holder of the mutex can; a thread outside can
    always start to wait.
  */
  lemma NobodyIsBlocked<V, E>(setters: nat, waiters: nat, es: seq<Event<V, E>>, w: nat)
    requires Runs(Fresh<V, E>(setters, waiters), es) && w < waiters
    ensures var s := Exec(Fresh<V, E>(setters, waiters), es);
            && |s.waiters| == waiters
            && (s.mutex.Some? ==>
                  var h := s.mutex.value;
                  h < waiters && !s.waiters[h].Away? && !s.waiters[h].Asleep? && Enabled(s, NextMove(s.waiters[h], h)))
            && (s.waiters[w].Away? ==> Enabled(s, Look(w)))
            && (s.waiters[w].Asleep? ==> Enabled(s, Spurious(w)))
            && (!s.waiters[w].Away? && !s.waiters[w].Asleep? && (s.waiters[w].Looked? || s.waiters[w].Woken? ==> s.mutex == None) ==>
                  Enabled(s, NextMove(s.waiters[w], w)))
  {
    RunKeepsMutex(Fresh<V, E>(setters, waiters), es);
    RunKeepsWaiters(Fresh<V, E>(setters, waiters), es);
  }

  /** A setter is never blocked: whatever step of the cell is due can be taken, with some waiter to wake. */
  lemma SettersGoOn<V, E>(s: Room<V, E>, ce: S.Event<V, E>) returns (target: nat)
    requires S.Enabled(s.cell, ce)
    ensures Enabled(s, Setter(ce, target))
  {
    if w :| 0 <= w < |s.waiters| && s.waiters[w].Asleep? {
      target := w;
    } else {
      target := 0;
    }
  }

  /** A step that a thread takes inside `wait` while it is not asleep. */
  predicate InWait<V, E>(e: Event<V, E>) {
    e.Lock? || e.Retest? || e.Sleep? || e.Relock?
  }

  ghost function Inside<V, E>(s: Room<V, E>): set<nat> {
    set w | 0 <= w < |s.waiters| && !s.waiters[w].Away? && !s.waiters[w].Asleep?
  }

  /** Everybody who was awake inside `wait` is out of it, or asleep if it was about to sleep; nobody else has moved, and the mutex is free. */
  ghost predicate LeftWait<V, E>(s: Room<V, E>, end: Room<V, E>) {
    && end.cell == s.cell && end.mutex == None && |end.waiters| == |s.waiters|
    && forall w: nat | w < |s.waiters| ::
         if s.waiters[w].Away? || s.waiters[w].Asleep? then end.waiters[w] == s.waiters[w]
         else if s.waiters[w].Committed? then end.waiters[w].Asleep?
         else end.waiters[w].Away?
  }

  lemma OneLeaves<V, E>(s: Room<V, E>, w: nat, e: Event<V, E>)
    requires MutexFits(s) && Ready(s) && w in Inside(s) && Enabled(s, e) && InWait(e) && e.w == w
    ensures MutexFits(Next(s, e)) && Ready(Next(s, e))
    ensures Inside(Next(s, e)) == Inside(s) - {w}
    ensures forall end :: LeftWait(Next(s, e), end) ==> LeftWait(s, end)
  {
  }

  lemma NobodyInside<V, E>(s: Room<V, E>)
    requires MutexFits(s) && forall w :: w in Inside(s) ==> s.mutex.Some? && s.mutex != Some(w)
    ensures LeftWait(s, s)
  {
    assert forall w: nat | w < |s.waiters| && s.mutex == None :: w !in Inside(s);
    assert s.mutex == None;
  }

  lemma {:induction false} WaitersLeave<V, E>(s: Room<V, E>) returns (es: seq<Event<V, E>>)
    requires MutexFits(s) && Ready(s)
    ensures Runs(s, es) && LeftWait(s, Exec(s, es))
    ensures forall i | 0 <= i < |es| :: InWait(es[i])
    decreases |Inside(s)|
  {
    if w: nat :| w in Inside(s) && (s.mutex == None || s.mutex == Some(w)) {
      var e: Event<V, E> := match s.waiters[w]
                            case Looked => Lock(w)
                            case Tested => Retest(w)
                            case Committed => Sleep(w)
                            case _ => Relock(w);
      OneLeaves(s, w, e);
      SubsetSize(Inside(s) - {w}, Inside(s));
      hide Next, Enabled, Runs, Exec, LeftWait;
      var rest := WaitersLeave(Next(s, e));
      RunCons(s, e, rest);
      es := [e] + rest;
    } else {
      NobodyInside(s);
      es := [];
    }
  }

  /**
    `wait` returns once there is an outcome: from every reachable state with one, steps of the
    threads awake inside `wait` bring each of them out of it, but for one that stands between its
    predicate and its sleep, and leave the mutex free.
  */
  lemma WaitersGetOut<V, E>(setters: nat, waiters: nat, es: seq<Event<V, E>>) returns (more: seq<Event<V, E>>)
    requires Runs(Fresh<V, E>(setters, waiters), es) && Ready(Exec(Fresh<V, E>(setters, waiters), es))
    ensures forall i | 0 <= i < |more| :: InWait(more[i])
    ensures var s := Exec(Fresh<V, E>(setters, waiters), es);
            MutexFits(s) && Runs(s, more) && LeftWait(s, Exec(s, more))
  {
    RunKeepsMutex(Fresh<V, E>(setters, waiters), es);
    more := WaitersLeave(Exec(Fresh<V, E>(setters, waiters), es));
  }

  // ---------------------------------------------------------------- only the winner notifies, and once

  predicate Active<V, E>(p: S.Setter<V, E>) {
    !p.Idle?
  }

  /** Nobody but the winner is inside a call, and before there is a winner nobody is. */
  ghost predicate OneActive<V, E>(s: S.Cell<V, E>) {
    && (s.tag == S.Init ==> forall t | 0 <= t < |s.setters| :: !Active(s.setters[t]))
    && (forall t, u | 0 <= t < u < |s.setters| :: !(Active(s.setters[t]) && Active(s.setters[u])))
  }

  lemma {:induction false} RunKeepsOneActive<V, E>(s: Room<V, E>, es: seq<Event<V, E>>)
    requires Runs(s, es) && OneActive(s.cell)
    ensures OneActive(Exec(s, es).cell)
    decreases |es|
  {
    if es != [] {
      RunKeepsOneActive(Next(s, es[0]), es[1..]);
    }
  }

  // ---------------------------------------------------------------- a wakeup can be lost

  /** The outcome is there, nobody is going to notify, and a waiter sleeps. */
  predicate Stranded<V, E>(s: Room<V, E>) {
    && Ready(s)
    && (forall t | 0 <= t < |s.cell.setters| :: !Active(s.cell.setters[t]))
    && SomeoneSleeps(s)
  }

  predicate Strands<V, E>(s: Room<V, E>, es: seq<Event<V, E>>) {
    Runs(s, es) && Stranded(Exec(s, es))
  }

  /** A stranded waiter stays asleep until a spurious wakeup of its own. */
  lemma {:induction false} StrandedSleepsOn<V, E>(s: Room<V, E>, w: nat, es: seq<Event<V, E>>)
    requires Runs(s, es) && Ready(s) && forall t | 0 <= t < |s.cell.setters| :: !Active(s.cell.setters[t])
    requires Sleeps(s, w) && forall i | 0 <= i < |es| :: es[i] != Spurious(w)
    ensures Sleeps(Exec(s, es), w)
    decreases |es|
  {
    if es != [] {
      assert es[0].Setter? ==> es[0].e.Exchange?;
      assert Sleeps(Next(s, es[0]), w);
      StrandedSleepsOn(Next(s, es[0]), w, es[1..]);
    }
  }

  /** Nobody sleeps and nobody is about to. */
  ghost predicate AllClear<V, E>(s: Room<V, E>) {
    Ready(s) && forall w | 0 <= w < |s.waiters| :: !s.waiters[w].Committed? && !s.waiters[w].Asleep?
  }

  lemma {:induction false} AllClearStays<V, E>(s: Room<V, E>, es: seq<Event<V, E>>)
    requires Runs(s, es) && AllClear(s)
    ensures AllClear(Exec(s, es))
    decreases |es|
  {
    if es != [] {
      AllClearStays(Next(s, es[0]), es[1..]);
    }
  }

  /** A waiter that the notification does not help: about to sleep, or asleep and not the one that is woken. */
  predicate Missed<V, E>(s: Room<V, E>, target: nat, w: nat) {
    w < |s.waiters| && (s.waiters[w].Committed? || (s.waiters[w].Asleep? && w != target))
  }

  /**
    Exactly when the notification is not enough: in every reachable state in which the winner is
    about to notify, some continuation leaves a waiter asleep with the outcome there and nobody
    left to notify, if and only if a waiter stood between its predicate and its sleep, or slept
    and was not the one that was woken.
  */
  lemma NotifyIsNotEnoughIff<V, E>(setters: nat, waiters: nat, es: seq<Event<V, E>>, t: nat, target: nat)
    requires Runs(Fresh<V, E>(setters, waiters), es)
    requires Enabled(Exec(Fresh<V, E>(setters, waiters), es), Setter(S.Notify(t), target))
    ensures var s := Exec(Fresh<V, E>(setters, waiters), es);
            (exists more :: Strands(Next(s, Setter(S.Notify(t), target)), more)) <==> exists w: nat :: Missed(s, target, w)
  {
    var s := Exec(Fresh<V, E>(setters, waiters), es);
    RunKeepsOneActive(Fresh<V, E>(setters, waiters), es);
    LostIff(s, t, target);
  }

  lemma LostIff<V, E>(s: Room<V, E>, t: nat, target: nat)
    requires Enabled(s, Setter(S.Notify(t), target)) && OneActive(s.cell)
    ensures (exists more :: Strands(Next(s, Setter(S.Notify(t), target)), more)) <==> exists w: nat :: Missed(s, target, w)
  {
    var s' := Next(s, Setter(S.Notify(t), target));
    assert Active(s.cell.setters[t]);
    assert Ready(s') && forall u | 0 <= u < |s'.cell.setters| :: !Active(s'.cell.setters[u]);
    if w: nat :| Missed(s, target, w) {
      if s.waiters[w].Asleep? {
        assert Sleeps(s', w) && Strands(s', []);
      } else {
        var e: Event<V, E> := Sleep(w);
        RunCons(s', e, []);
        assert Sleeps(Next(s', e), w) && Strands(s', [e] + []);
      }
    } else {
      assert AllClear(s') by {
        forall w | 0 <= w < |s'.waiters| ensures !s'.waiters[w].Committed? && !s'.waiters[w].Asleep? {
          assert !Missed(s, target, w);
          assert s.waiters[w].Asleep? ==> Sleeps(s, w);
        }
      }
      forall more ensures !Strands(s', more) {
        if Runs(s', more) {
          AllClearStays(s', more);
        }
      }
    }
  }

  /** The way of a waiter to its sleep. */
  function ToSleep<V, E>(w: nat): seq<Event<V, E>> {
    [Look(w), Lock(w), Retest(w), Sleep(w)]
  }

  lemma FallsAsleep<V, E>(s: Room<V, E>, w: nat)
    requires w < |s.waiters| && s.waiters[w].Away? && s.mutex == None && !Ready(s)
    ensures Runs(s, ToSleep(w)) && Exec(s, ToSleep(w)) == s.(waiters := s.waiters[w := Asleep])
  {
    var e1: Event<V, E>, e2: Event<V, E>, e3: Event<V, E>, e4: Event<V, E> := Look(w), Lock(w), Retest(w), Sleep(w);
    var s1 := Next(s, e1);
    var s2 := Next(s1, e2);
    var s3 := Next(s2, e3);
    var s4 := Next(s3, e4);
    assert s4.waiters == s.waiters[w := Asleep];
    RunCons(s3, e4, []);
    hide Runs, Exec, Next, Enabled;
    RunCons(s2, e3, [e4] + []);
    RunCons(s1, e2, [e3] + ([e4] + []));
    RunCons(s, e1, [e2] + ([e3] + ([e4] + [])));
    assert [e1] + ([e2] + ([e3] + ([e4] + []))) == ToSleep(w);
  }

  /** An undisturbed setter, whose notification wakes `target`. */
  function SetAndNotify<V, E>(value: V, target: nat): seq<Event<V, E>> {
    [Setter(S.Exchange(0, S.SetValue(value)), 0), Setter(S.Write(0), 0), Setter(S.Notify(0), target)]
  }

  lemma OneIsLeft<V, E>(s: Room<V, E>, value: V, w: nat)
    requires s.cell == S.Fresh(1) && Sleeps(s, 0) && Sleeps(s, w) && w != 0
    ensures Strands(s, SetAndNotify(value, 0))
  {
    var es: seq<Event<V, E>> := SetAndNotify(value, 0);
    var s1 := Next(s, es[0]);
    var s2 := Next(s1, es[1]);
    var s3 := Next(s2, es[2]);
    assert Sleeps(s3, w);
    RunCons(s2, es[2], []);
    RunCons(s1, es[1], [es[2]] + []);
    RunCons(s, es[0], [es[1]] + ([es[2]] + []));
    assert [es[0]] + ([es[1]] + ([es[2]] + [])) == es;
  }

  lemma {:induction false} RunsConcat<V, E>(s: Room<V, E>, a: seq<Event<V, E>>, b: seq<Event<V, E>>)
    requires Runs(s, a) && Runs(Exec(s, a), b)
    ensures Runs(s, a + b) && Exec(s, a + b) == Exec(Exec(s, a), b)
    decreases |a|
  {
    hide Next, Enabled;
    if a == [] {
      assert a + b == b;
    } else {
      RunsConcat(Next(s, a[0]), a[1..], b);
      assert (a + b)[1..] == a[1..] + b;
    }
  }

  /** Two threads wait and the value is set: one wakes up, the other sleeps on. */
  lemma TwoWaitersOneWakeup<V, E>(value: V)
    ensures Strands(Fresh<V, E>(1, 2), ToSleep(0) + (ToSleep(1) + SetAndNotify(value, 0)))
  {
    var s0 := Fresh<V, E>(1, 2);
    FallsAsleep(s0, 0);
    var s1 := s0.(waiters := s0.waiters[0 := Asleep]);
    FallsAsleep(s1, 1);
    var s2 := s1.(waiters := s1.waiters[1 := Asleep]);
    OneIsLeft(s2, value, 1);
    hide Runs, Exec, Fresh;
    RunsConcat(s1, ToSleep(1), SetAndNotify(value, 0));
    RunsConcat(s0, ToSleep(0), ToSleep(1) + SetAndNotify(value, 0));
  }
}
