/**
  Shutdown: once `clear` has gone over all queues, no worker sleeps any more, a live worker can
  always move, and the steps of the workers are bounded by a measure that only new calls raise,
  so every worker loop ends and `join` returns.
*/
module PoolShutdown {
  import opened Tickets
  import opened Pool
  import opened PoolInvariant
  import opened PoolConservation
  import opened PoolProgress
  import M = Monitor

  /** Every queue is cancelled and has nobody asleep. */
  ghost predicate Shut<T>(s: Pool<T>) {
    forall q: nat | q < |s.queues| :: Cleared(s, q)
  }

  lemma StepKeepsShut<T>(s: Pool<T>, e: Event<T>)
    requires Enabled(s, e) && Shut(s)
    ensures Shut(Next(s, e))
  {
    forall q: nat | q < |s.queues| ensures Cleared(Next(s, e), q) {
      assert Cleared(s, q);
      StepKeepsCleared(s, e, q);
    }
  }

  // ---------------------------------------------------------------- the theorems

  /** When `clear` returns from the last queue, all queues are shut. */
  lemma ClearEndsShut<T>(s: Pool<T>, c: nat)
    requires Inv(s) && Enabled(s, NotifyAll(c)) && s.clients[c].q + 1 == |s.queues|
    ensures Shut(Next(s, NotifyAll(c)))
  {
    var e: Event<T> := NotifyAll(c);
    assert ClientShape(s, s.clients[c]);
    forall q: nat | q < |s.queues| ensures Cleared(Next(s, e), q) {
      if q + 1 < |s.queues| {
        assert Cleared(s, q);
        StepKeepsCleared(s, e, q);
      }
    }
  }

  predicate InClear<T>(p: Client<T>) {
    p.Clearing? || p.NotifyingAll?
  }

  /** A step takes a client out of `clear` only when its last queue is done. */
  lemma StepInClear<T>(s: Pool<T>, e: Event<T>, c: nat)
    requires Inv(s) && Enabled(s, e) && c < |s.clients| && InClear(s.clients[c])
    ensures c < |Next(s, e).clients|
    ensures InClear(Next(s, e).clients[c]) || Shut(Next(s, e))
  {
    if !InClear(Next(s, e).clients[c]) {
      ClearEndsShut(s, c);
    }
  }

  lemma {:induction false} RunKeepsShut<T>(s: Pool<T>, es: seq<Event<T>>)
    requires Runs(s, es) && Shut(s)
    ensures Shut(Exec(s, es))
    decreases |es|
  {
    if es != [] {
      StepKeepsShut(s, es[0]);
      RunKeepsShut(Next(s, es[0]), es[1..]);
    }
  }

  /** When a call of `clear` returns, all queues are shut, whatever the other threads did meanwhile. */
  lemma {:induction false} ClearReturnsShut<T>(s: Pool<T>, es: seq<Event<T>>, c: nat)
    requires Inv(s) && Runs(s, es) && c < |s.clients| && InClear(s.clients[c])
    ensures c < |Exec(s, es).clients|
    ensures InClear(Exec(s, es).clients[c]) || Shut(Exec(s, es))
    decreases |es|
  {
    if es != [] {
      var s', rest := Next(s, es[0]), es[1..];
      StepKeepsInv(s, es[0]);
      StepInClear(s, es[0], c);
      if InClear(s'.clients[c]) {
        ClearReturnsShut(s', rest, c);
      } else {
        RunKeepsShut(s', rest);
        RunKeepsClients(s', rest);
      }
    }
  }

  lemma {:induction false} RunKeepsClients<T>(s: Pool<T>, es: seq<Event<T>>)
    requires Runs(s, es)
    ensures |Exec(s, es).clients| == |s.clients|
    decreases |es|
  {
    if es != [] {
      RunKeepsClients(Next(s, es[0]), es[1..]);
    }
  }

  /** In the shutdown region a worker that has not exited is never blocked. */
  lemma LiveWorkerCanMove<T>(s: Pool<T>, w: nat)
    requires Inv(s) && Shut(s) && w < |s.workers| && !s.workers[w].Exited?
    ensures !Asleep(s, w) && Enabled(s, WorkerMove(s.workers[w], w))
  {
    if s.workers[w].Waiting? {
      assert Cleared(s, Home(s, s.workers[w].ticket));
    }
    AwakeWorkerCanMove(s, w);
  }

  /** The steps of workers in a run. */
  function WorkerSteps<T>(es: seq<Event<T>>): nat {
    if es == [] then 0 else (if ByWorker(es[0]) then 1 else 0) + WorkerSteps(es[1..])
  }

  lemma NoneToWake<T>(s: Pool<T>, e: Event<T>)
    requires Enabled(s, e) && Shut(s)
    ensures !e.Spurious?
  {
    assert TouchOf(s, e).Touches? ==> Cleared(s, TouchOf(s, e).q);
  }

  /** A shut pool has no sleeper to wake by accident, so every worker step is an inner step. */
  lemma {:induction false} WorkerStepsAreInner<T>(s: Pool<T>, es: seq<Event<T>>)
    requires Runs(s, es) && Shut(s)
    ensures WorkerSteps(es) <= InnerSteps(es)
    decreases |es|
  {
    if es != [] {
      var e := es[0];
      NoneToWake(s, e);
      StepKeepsShut(s, e);
      hide Next, Enabled, Shut;
      WorkerStepsAreInner(Next(s, e), es[1..]);
    }
  }

  ghost predicate AllExited<T>(s: Pool<T>) {
    forall w | 0 <= w < |s.workers| :: s.workers[w].Exited?
  }

  lemma NoSteps<T>(s: Pool<T>)
    ensures Runs(s, []) && Exec(s, []) == s
  {
  }

  lemma OneStepNearer<T>(s: Pool<T>, w: nat) returns (e: Event<T>)
    requires Inv(s) && Shut(s) && w < |s.workers| && !s.workers[w].Exited?
    ensures ByWorker(e) && Enabled(s, e) && Inv(Next(s, e)) && Shut(Next(s, e)) && Live(Next(s, e)) < Live(s)
  {
    e := WorkerMove(s.workers[w], w);
    hide Next, Enabled, Inv, Live, Shut;
    LiveWorkerCanMove(s, w);
    StepKeepsInv(s, e);
    StepKeepsShut(s, e);
    StepIsPaid(s, e);
  }

  /** From a shut pool the workers can reach their end alone, within the measure. */
  lemma {:induction false} WorkersFinish<T>(s: Pool<T>) returns (es: seq<Event<T>>)
    requires Inv(s) && Shut(s)
    ensures Runs(s, es) && AllExited(Exec(s, es))
    ensures (forall i | 0 <= i < |es| :: ByWorker(es[i])) && |es| <= Live(s)
    decreases Live(s)
  {
    hide Next, Enabled, Inv, Live, Shut, Taken, Takes, Runs, Exec;
    if AllExited(s) {
      NoSteps(s);
      es := [];
    } else {
      var w: nat :| w < |s.workers| && !s.workers[w].Exited?;
      var e := OneStepNearer(s, w);
      var rest := WorkersFinish(Next(s, e));
      RunCons(s, e, rest);
      es := [e] + rest;
    }
  }

  lemma LiveWorkersCanMove<T>(s: Pool<T>)
    requires Inv(s) && Shut(s)
    ensures 0 < |s.queues|
    ensures forall w: nat | w < |s.workers| && !s.workers[w].Exited? ::
              !Asleep(s, w) && Enabled(s, WorkerMove(s.workers[w], w))
  {
    forall w: nat | w < |s.workers| && !s.workers[w].Exited?
      ensures !Asleep(s, w) && Enabled(s, WorkerMove(s.workers[w], w))
    {
      LiveWorkerCanMove(s, w);
    }
  }

  /** Any run of a fresh pool, then a call of `clear`, and anything until that call has returned. */
  ghost predicate ClearReturned<T>(threadCount: nat, clientCount: nat, before: seq<Event<T>>, c: nat, during: seq<Event<T>>)
  {
    var s0 := Fresh<T>(threadCount, clientCount);
    && Runs(s0, before)
    && Enabled(Exec(s0, before), BeginClear(c))
    && Runs(Next(Exec(s0, before), BeginClear(c)), during)
    && var returned := Exec(Next(Exec(s0, before), BeginClear(c)), during);
       c < |returned.clients| && !InClear(returned.clients[c])
  }

  ghost function Returned<T>(threadCount: nat, clientCount: nat, before: seq<Event<T>>, c: nat, during: seq<Event<T>>): Pool<T>
    requires ClearReturned(threadCount, clientCount, before, c, during)
  {
    Exec(Next(Exec(Fresh<T>(threadCount, clientCount), before), BeginClear(c)), during)
  }

  lemma ReturnedIsShut<T>(threadCount: nat, clientCount: nat, before: seq<Event<T>>, c: nat, during: seq<Event<T>>)
    requires threadCount < U32 && ClearReturned(threadCount, clientCount, before, c, during)
    ensures var s := Returned(threadCount, clientCount, before, c, during); Inv(s) && Shut(s)
  {
    var s0 := Fresh<T>(threadCount, clientCount);
    var s1 := Exec(s0, before);
    FreshInv<T>(threadCount, clientCount);
    RunKeepsInv(s0, before);
    var s2 := Next(s1, BeginClear(c));
    assert InClear(s2.clients[c]);
    StepKeepsInv(s1, BeginClear(c));
    ClearReturnsShut(s2, during, c);
    RunKeepsInv(s2, during);
  }

  /**
    `join` returns.  Take any run of a pool of any size, in which some thread then calls `clear`
    and in which that call returns while the others go on, and continue it in any way.  The
    workers have then taken no more steps than the measure at the return of `clear` and the costs
    of the calls made since allow, so with finitely many calls they stop; a worker that has not
    exited is awake and can move, so it stops only by exiting; and from where the continuation
    ends, steps of the workers alone, at most as many as the measure still allows, make all exit.
  */
  lemma JoinReturns<T>(threadCount: nat, clientCount: nat, before: seq<Event<T>>, c: nat,
                       during: seq<Event<T>>, after: seq<Event<T>>) returns (finish: seq<Event<T>>)
    requires threadCount < U32 && ClearReturned(threadCount, clientCount, before, c, during)
    requires Runs(Returned(threadCount, clientCount, before, c, during), after)
    ensures var returned := Returned(threadCount, clientCount, before, c, during);
            var end := Exec(returned, after);
            && WorkerSteps(after) + Live(end) <= Live(returned) + Costs(|returned.queues|, after)
            && 0 < |end.queues|
            && (forall w: nat | w < |end.workers| && !end.workers[w].Exited? ::
                  !Asleep(end, w) && Enabled(end, WorkerMove(end.workers[w], w)))
            && Runs(end, finish) && AllExited(Exec(end, finish))
            && |finish| <= Live(end)
    ensures forall i | 0 <= i < |finish| :: ByWorker(finish[i])
  {
    hide Exec, Runs, Next, Enabled, Inv, Shut, ClearReturned, Returned, Live, AllExited;
    var s := Returned(threadCount, clientCount, before, c, during);
    ReturnedIsShut(threadCount, clientCount, before, c, during);
    InnerStepsAreBounded(s, after);
    WorkerStepsAreInner(s, after);
    RunKeepsShut(s, after);
    LiveWorkersCanMove(Exec(s, after));
    finish := WorkersFinish(Exec(s, after));
  }

  // ---------------------------------------------------------------- work after clear

  /** A pool of one worker that has not started, after a clear. */
  function OneCleared<T>(): Pool<T> {
    Pool([M.Fresh<T>().(cancelled := true)], [Starting], [Idle], 0, 0)
  }

  /** The same pool with `clear` between its critical section and its notification. */
  function OneClearing<T>(): Pool<T> {
    Pool([M.Fresh<T>().(cancelled := true, allDue := {1})], [Starting], [NotifyingAll(0)], 0, 0)
  }

  lemma ClearBegins<T>()
    ensures Runs(Fresh<T>(1, 1), [BeginClear(0), ClearNext(0)])
    ensures Exec(Fresh<T>(1, 1), [BeginClear(0), ClearNext(0)]) == OneClearing<T>()
  {
    var s1 := Next(Fresh<T>(1, 1), BeginClear(0));
    var s2 := Next(s1, ClearNext(0));
    assert s2.queues[0] == OneClearing<T>().queues[0];
    assert s2.queues == [s2.queues[0]] && s2.workers == [Starting] && s2.clients == [NotifyingAll(0)];
    assert Runs(s1, [ClearNext(0)]);
  }

  lemma ClearEnds<T>()
    ensures Runs(OneClearing<T>(), [NotifyAll(0)]) && Exec(OneClearing<T>(), [NotifyAll(0)]) == OneCleared<T>()
  {
    var s := Next(OneClearing<T>(), NotifyAll(0));
    assert s.queues[0] == OneCleared<T>().queues[0];
    assert s.queues == [s.queues[0]] && s.workers == [Starting] && s.clients == [Idle];
  }

  lemma ClearRun<T>()
    ensures var es: seq<Event<T>> := [BeginClear(0), ClearNext(0), NotifyAll(0)];
            Runs(Fresh<T>(1, 1), es) && Exec(Fresh<T>(1, 1), es) == OneCleared<T>()
  {
    ClearBegins<T>();
    ClearEnds<T>();
    hide Runs, Exec, Fresh, OneClearing, OneCleared;
    RunsConcat(Fresh<T>(1, 1), [BeginClear(0), ClearNext(0)], [NotifyAll(0)]);
    assert [BeginClear(0), ClearNext(0)] + [NotifyAll(0)] == [Event<T>.BeginClear(0), ClearNext(0), NotifyAll(0)];
  }

  lemma ScheduleRun<T>(task: T)
    ensures var es := [BeginSchedule(0, task), ProbePush(0, true), NotifyOne(0, 0)];
            && Runs(OneCleared<T>(), es)
            && Exec(OneCleared<T>(), es)
                 == OneCleared<T>().(queues := [M.Fresh<T>().(cancelled := true, items := [task])], pushIndex := 1)
  {
    var s1 := Next(OneCleared<T>(), BeginSchedule(0, task));
    var s2 := Next(s1, ProbePush(0, true));
    assert s2.queues[0] == M.Fresh<T>().(cancelled := true, items := [task], oneDue := {1});
    var s3 := Next(s2, NotifyOne(0, 0));
    assert s3.queues[0] == M.Fresh<T>().(cancelled := true, items := [task]);
    assert s3.queues == [s3.queues[0]] && s3.workers == [Starting] && s3.clients == [Idle];
    assert Runs(s2, [NotifyOne(0, 0)]);
    assert Runs(s1, [ProbePush(0, true), NotifyOne(0, 0)]);
  }

  lemma TakeRun<T>(task: T)
    ensures var s := OneCleared<T>().(queues := [M.Fresh<T>().(cancelled := true, items := [task])], pushIndex := 1);
            var es: seq<Event<T>> := [Start(0), Probe(0, true)];
            Runs(s, es) && Exec(s, es).workers == [Running(0, task)]
  {
    var s := OneCleared<T>().(queues := [M.Fresh<T>().(cancelled := true, items := [task])], pushIndex := 1);
    var s1 := Next(s, Start(0));
    assert Runs(s1, [Probe(0, true)]);
  }

  /** `clear` does not close the door: a task scheduled after it is accepted, and a worker still probing runs it. */
  lemma WorkAfterClearCanRun<T>(task: T)
    ensures var cleared: seq<Event<T>> := [BeginClear(0), ClearNext(0), NotifyAll(0)];
            var scheduled := [BeginSchedule(0, task), ProbePush(0, true), NotifyOne(0, 0)];
            var taken: seq<Event<T>> := [Start(0), Probe(0, true)];
            var es := cleared + (scheduled + taken);
            Runs(Fresh<T>(1, 1), es) && Exec(Fresh<T>(1, 1), es).workers == [Running(0, task)]
  {
    var cleared: seq<Event<T>> := [BeginClear(0), ClearNext(0), NotifyAll(0)];
    var scheduled := [BeginSchedule(0, task), ProbePush(0, true), NotifyOne(0, 0)];
    ClearRun<T>();
    ScheduleRun(task);
    TakeRun(task);
    RunsConcat(OneCleared<T>(), scheduled, [Start(0), Probe(0, true)]);
    RunsConcat(Fresh<T>(1, 1), cleared, scheduled + [Start(0), Probe(0, true)]);
  }
}
