/**
  What the pool and the futures achieve together: no future holds up a worker, a shut pool comes to
  its end by the steps of its workers and their tasks, and then every future has its outcome.
*/
module Resolution {
  import opened Wrappers
  import opened Tickets
  import opened Counting
  import opened Pipeline
  import opened PoolConservation
  import opened EndToEnd
  import P = Pool
  import PI = PoolInvariant
  import PP = PoolProgress
  import PS = PoolShutdown
  import L = Lifecycle
  import S = SharedState

  // ---------------------------------------------------------------- the futures do not hold up the pool

  /** What a reachable state offers: the agreement, the invariant of the pool, and that of every life. */
  lemma Reachable<V, E>(threadCount: nat, clientCount: nat, senders: seq<Sender<V, E>>, cancelers: nat, es: seq<Event<V, E>>)
    requires threadCount < U32 && Runs(Fresh(threadCount, clientCount, senders, cancelers), es)
    ensures var s := Exec(Fresh(threadCount, clientCount, senders, cancelers), es);
            && Inv(s) && |s.lives| == |senders|
            && (!s.destroyed ==> PI.Inv(s.pool))
            && AllSound(s)
  {
    var s0 := Fresh(threadCount, clientCount, senders, cancelers);
    var s := Exec(s0, es);
    FreshInv(threadCount, clientCount, senders, cancelers);
    RunKeepsInv(s0, es);
    RunKeepsLives(s0, es);
    PI.FreshInv<nat>(threadCount, clientCount);
    if !s.destroyed {
      SystemRefinesPool(s0, es);
      PI.RunKeepsInv(s0.pool, PoolTrace(es));
    }
    hide Runs, Exec, Inv, L.Inv, PI.Inv;
    forall i | 0 <= i < |s.lives| ensures Sound(s.lives[i]) {
      SystemRefinesLife(s0, es, i);
      L.FreshInv(senders[i], cancelers);
      L.RunKeepsInv(s0.lives[i], LifeTrace(s0, es, i), false);
    }
  }

  lemma {:induction false} RunKeepsLives<V, E>(s: System<V, E>, es: seq<Event<V, E>>)
    requires Runs(s, es)
    ensures |Exec(s, es).lives| == |s.lives|
    decreases |es|
  {
    if es != [] {
      RunKeepsLives(Next(s, es[0]), es[1..]);
    }
  }

  /** A step of the pool goes through whenever the futures allow it, because all tasks are where it expects them. */
  lemma PoolStepGoesThrough<V, E>(s: System<V, E>, e: P.Event<nat>)
    requires Inv(s) && !s.destroyed && P.Enabled(s.pool, e) && PoolMay(s, e)
    ensures Enabled(s, PoolStep(e))
  {
    hide P.Enabled, PoolMay, Ended;
    forall i | 0 <= i < |s.lives| ensures Ready(s.lives[i], LifeEvent(s, PoolStep(e), i)) {
      assert Agrees(s, i);
      PoolMovesReadyTasks(s, e, i);
    }
  }

  lemma LifeStepGoesThrough<V, E>(s: System<V, E>, i: nat, e: L.Event<V, E>)
    requires LifeMay(s, i, e) && L.Enabled(s.lives[i], e)
    ensures Enabled(s, LifeStep(i, e))
  {
  }

  /** A step that a task takes itself: not the threads that may cancel it, nor the frames that hold copies of its receiver. */
  predicate ByTask<V, E>(e: L.Event<V, E>) {
    e.Check? || e.Invoked? || e.Settle? || e.Return? || (e.CellStep? && e.e.t == L.TASK)
  }

  /** A step that a worker takes in its loop or in the task that it runs. */
  predicate ByWorkers<V, E>(e: Event<V, E>) {
    (e.LifeStep? && ByTask(e.move)) || (e.PoolStep? && P.ByWorker(e.step))
  }

  ghost predicate Sound<V, E>(l: L.Life<V, E>) {
    L.Inv(l, true) || L.Inv(l, false)
  }

  ghost predicate AllSound<V, E>(s: System<V, E>) {
    forall i | 0 <= i < |s.lives| :: Sound(s.lives[i])
  }

  lemma TaskMoveIsByTask<V, E>(l: L.Life<V, E>)
    requires Sound(l) && OnWorker(l.task)
    ensures L.TASK < |l.cell.setters| && ByTask(L.TaskMove(l))
  {
  }

  /** The next step of an awake worker: that of the task it runs, as long as the task has not returned. */
  function WorkerMove<V, E>(s: System<V, E>, w: nat): Event<V, E>
    requires w < |s.pool.workers| && !s.pool.workers[w].Exited?
  {
    var p := s.pool.workers[w];
    if p.Running? && p.task < |s.lives| && OnWorker(s.lives[p.task].task) && L.TASK < |s.lives[p.task].cell.setters|
    then LifeStep(p.task, L.TaskMove(s.lives[p.task]))
    else PoolStep(PI.WorkerMove(p, w))
  }

  lemma TaskCanGoOn<V, E>(s: System<V, E>, i: nat)
    requires i < |s.lives| && Sound(s.lives[i]) && OnWorker(s.lives[i].task)
    ensures L.TASK < |s.lives[i].cell.setters| && ByTask(L.TaskMove(s.lives[i]))
    ensures Enabled(s, LifeStep(i, L.TaskMove(s.lives[i])))
  {
    TaskMoveIsByTask(s.lives[i]);
    L.TaskIsNeverStuck(s.lives[i], L.Inv(s.lives[i], true));
    LifeStepGoesThrough(s, i, L.TaskMove(s.lives[i]));
  }

  /**
    No worker is ever blocked by a future: in every reachable state a worker that neither sleeps
    nor has exited has a next step, in its own loop or in the task that it runs.
  */
  lemma AwakeWorkerCanGoOn<V, E>(threadCount: nat, clientCount: nat, senders: seq<Sender<V, E>>, cancelers: nat,
                                 es: seq<Event<V, E>>, w: nat)
    requires threadCount < U32 && Runs(Fresh(threadCount, clientCount, senders, cancelers), es)
    requires var s := Exec(Fresh(threadCount, clientCount, senders, cancelers), es);
             && !s.destroyed && 0 < |s.pool.queues| && w < |s.pool.workers|
             && !s.pool.workers[w].Exited? && !PI.Asleep(s.pool, w)
    ensures var s := Exec(Fresh(threadCount, clientCount, senders, cancelers), es);
            Enabled(s, WorkerMove(s, w)) && ByWorkers(WorkerMove(s, w))
  {
    var s := Exec(Fresh(threadCount, clientCount, senders, cancelers), es);
    Reachable(threadCount, clientCount, senders, cancelers, es);
    GoOn(s, w);
  }

  lemma GoOn<V, E>(s: System<V, E>, w: nat)
    requires Inv(s) && PI.Inv(s.pool) && !s.destroyed
    requires AllSound(s)
    requires w < |s.pool.workers| && !s.pool.workers[w].Exited? && !PI.Asleep(s.pool, w)
    ensures Enabled(s, WorkerMove(s, w)) && ByWorkers(WorkerMove(s, w))
  {
    hide PI.Inv, L.Inv, Sound, Enabled, P.Enabled, L.TaskMove, PI.Asleep, Ended, Placed;
    var p := s.pool.workers[w];
    PI.AwakeWorkerCanMove(s.pool, w);
    if p.Running? {
      assert Agrees(s, p.task) && RunsTask(s.pool, w, p.task);
      if OnWorker(s.lives[p.task].task) {
        TaskCanGoOn(s, p.task);
      } else {
        PoolStepGoesThrough(s, PI.WorkerMove(p, w));
      }
    } else {
      PoolStepGoesThrough(s, PI.WorkerMove(p, w));
    }
  }

  // ---------------------------------------------------------------- every future has its outcome at the end

  /** Once the pool is destroyed, every task that was scheduled was discarded, or has run and returned. */
  lemma EveryTaskIsOver<V, E>(s: System<V, E>, i: nat)
    requires Inv(s) && s.destroyed && i in s.begun
    ensures i < |s.lives| && (s.lives[i].task.Discarded? || Returned(s.lives[i].task))
  {
    assert Agrees(s, i);
    UnionOfEmpties(Hands(s.pool));
    assert Held(s.pool)[i] == 0 && Queued(s.pool)[i] == 0;
    forall w: nat ensures !RunsTask(s.pool, w, i) {
    }
  }

  /**
    How a future ends.  Its task was discarded or has returned; if it returned, the future reports
    the meaning of its chain or that it was cancelled; if it was discarded, nothing of the chain
    has run and, once `wait` has returned and the destructor of the promise is through, the future
    reports a broken promise or that it was cancelled.
  */
  ghost predicate Resolved<V, E>(sender: Sender<V, E>, l: L.Life<V, E>) {
    && (l.task.Discarded? || Returned(l.task))
    && (L.WaitReturned(l) && !l.breakDue ==> l.cell.tag != S.Init)
    && (Returned(l.task) ==>
          && l.cell.tag != S.Init
          && (!S.MidWrite(l.cell) ==> S.Reported(l.cell) == S.GotCanceled || S.Reported(l.cell) == L.Outcome(sender)))
    && (l.task.Discarded? && L.WaitReturned(l) && !l.breakDue ==>
          && l.ran == []
          && (!S.MidWrite(l.cell) ==> S.Reported(l.cell) == S.GotCanceled || S.Reported(l.cell) == S.BrokenPromise))
  }

  /**
    Every future is resolved: take any number of futures on a pool of any size, any interleaving of
    their callers, of cancels and clears and of the workers, and let the pool be destroyed after all
    workers have exited.  Then every future whose `wait` has scheduled its task has its outcome.
  */
  lemma EveryFutureIsResolved<V, E>(threadCount: nat, clientCount: nat, senders: seq<Sender<V, E>>, cancelers: nat,
                                    es: seq<Event<V, E>>)
    requires Runs(Fresh(threadCount, clientCount, senders, cancelers), es)
    requires Exec(Fresh(threadCount, clientCount, senders, cancelers), es).destroyed
    ensures var s := Exec(Fresh(threadCount, clientCount, senders, cancelers), es);
            |s.lives| == |senders| && forall i | i in s.begun :: i < |senders| && Resolved(senders[i], s.lives[i])
  {
    var s0 := Fresh(threadCount, clientCount, senders, cancelers);
    var s := Exec(s0, es);
    FreshInv(threadCount, clientCount, senders, cancelers);
    RunKeepsInv(s0, es);
    RunKeepsLives(s0, es);
    hide Runs, Exec, Inv, L.WaitReturned, L.Runs, L.Exec;
    forall i | i in s.begun ensures i < |senders| && Resolved(senders[i], s.lives[i]) {
      EveryTaskIsOver(s, i);
      SystemRefinesLife(s0, es, i);
      L.EveryFutureGetsAnOutcome(senders[i], cancelers, LifeTrace(s0, es, i));
      var _ := L.FinalReport(senders[i], cancelers, LifeTrace(s0, es, i));
    }
  }

  // ---------------------------------------------------------------- and the end is reached

  lemma MoveKeepsSound<V, E>(l: L.Life<V, E>, e: Option<L.Event<V, E>>)
    requires Ready(l, e) && Sound(l)
    ensures Sound(After(l, e))
  {
    if e.Some? {
      hide L.Next, L.Enabled, L.Inv;
      if L.Inv(l, true) {
        L.StepKeepsInv(l, e.value, true);
      } else {
        L.StepKeepsInv(l, e.value, false);
      }
    }
  }

  /** A system whose pool has been cleared and is not yet destroyed. */
  ghost predicate Closing<V, E>(s: System<V, E>) {
    && Inv(s) && !s.destroyed && PI.Inv(s.pool) && PS.Shut(s.pool) && AllSound(s)
  }

  lemma StepKeepsClosing<V, E>(s: System<V, E>, e: Event<V, E>)
    requires Enabled(s, e) && Closing(s) && !e.Destroy?
    ensures Closing(Next(s, e))
  {
    StepKeepsInv(s, e);
    var s' := Next(s, e);
    assert e.LifeStep? ==> s'.pool == s.pool;
    if e.PoolStep? {
      assert s'.pool == P.Next(s.pool, e.step);
      PI.StepKeepsInv(s.pool, e.step);
      PS.StepKeepsShut(s.pool, e.step);
    }
    hide Inv, PI.Inv, PS.Shut, P.Next, P.Enabled, Sound;
    forall i | 0 <= i < |s'.lives| ensures Sound(s'.lives[i]) {
      MoveKeepsSound(s.lives[i], LifeEvent(s, e, i));
    }
  }

  function Depth<V, E>(receiver: Receiver<V, E, ()>): nat {
    match receiver
    case ValueReceiver(_) => 0
    case Adapter(downstream, _) => Depth(downstream) + 1
  }

  /** The steps that a task can still take: of each step of its chain the invocation, and five around them. */
  function Budget<V, E>(l: L.Life<V, E>): nat {
    match l.task
    case Unqueued => Depth(L.Nest(l.sender)) + 5
    case Queued => Depth(L.Nest(l.sender)) + 5
    case Taken => Depth(L.Nest(l.sender)) + 5
    case Stepping(rest, _) => Depth(rest) + 4
    case Settling(_) => 4
    case Settled =>
      if L.TASK < |l.cell.setters| then
        (match l.cell.setters[L.TASK]
         case Idle => 1
         case Notifying => 2
         case Writing(_) => 3)
      else 0
    case _ => 0
  }

  /** Every step of a task lowers its budget, and nothing raises it. */
  lemma MoveSpends<V, E>(l: L.Life<V, E>, e: L.Event<V, E>)
    requires L.Enabled(l, e) && Sound(l)
    ensures Budget(L.Next(l, e)) + (if ByTask(e) then 1 else 0) <= Budget(l)
  {
  }

  function Budgets<V, E>(lives: seq<L.Life<V, E>>): seq<nat> {
    seq(|lives|, i requires 0 <= i < |lives| => Budget(lives[i]))
  }

  predicate OfTask<V, E>(e: Event<V, E>) {
    e.LifeStep? && ByTask(e.move)
  }

  lemma StepSpends<V, E>(s: System<V, E>, e: Event<V, E>)
    requires Enabled(s, e) && AllSound(s)
    ensures Sum(Budgets(Next(s, e).lives)) + (if OfTask(e) then 1 else 0) <= Sum(Budgets(s.lives))
    ensures AllSound(Next(s, e))
  {
    var s' := Next(s, e);
    var i, slack := if e.LifeStep? then e.i else 0, if OfTask(e) then 1 else 0;
    assert |s'.lives| == |s.lives| && (e.LifeStep? ==> i < |s.lives|);
    forall j | 0 <= j < |s.lives|
      ensures Sound(s'.lives[j]) && Budgets(s'.lives)[j] + (if j == i then slack else 0) <= Budgets(s.lives)[j]
    {
      var le := LifeEvent(s, e, j);
      assert Ready(s.lives[j], le) && s'.lives[j] == After(s.lives[j], le);
      assert e.LifeStep? && j == i ==> le == Some(e.move);
      assert Sound(s.lives[j]);
      hide Next, Enabled, Sound, Budget;
      MoveKeepsSound(s.lives[j], le);
      if le.Some? {
        MoveSpends(s.lives[j], le.value);
      }
    }
    SumPointwise(Budgets(s'.lives), Budgets(s.lives), i, slack);
  }

  function TaskSteps<V, E>(es: seq<Event<V, E>>): nat {
    if es == [] then 0 else (if OfTask(es[0]) then 1 else 0) + TaskSteps(es[1..])
  }

  lemma {:induction false} RunSpends<V, E>(s: System<V, E>, es: seq<Event<V, E>>)
    requires Runs(s, es) && AllSound(s)
    ensures AllSound(Exec(s, es))
    ensures TaskSteps(es) + Sum(Budgets(Exec(s, es).lives)) <= Sum(Budgets(s.lives))
    decreases |es|
  {
    if es != [] {
      hide Next, Enabled, AllSound, Budgets;
      StepSpends(s, es[0]);
      RunSpends(Next(s, es[0]), es[1..]);
    }
  }

  /** The number of steps of a chain. */
  function Length<V, E>(sender: Sender<V, E>): nat {
    match sender
    case Schedule => 0
    case Then(upstream, _) => Length(upstream) + 1
  }

  lemma {:induction false} DepthIsLength<V, E>(sender: Sender<V, E>, receiver: Receiver<V, E, ()>)
    ensures Depth(Connect(sender, receiver)) == Length(sender) + Depth(receiver)
    decreases sender
  {
    match sender
    case Schedule =>
    case Then(upstream, step) => DepthIsLength(upstream, Adapter(receiver, step));
  }

  /** What the tasks of these chains can cost. */
  function ChainCosts<V, E>(senders: seq<Sender<V, E>>): seq<nat> {
    seq(|senders|, i requires 0 <= i < |senders| => Length(senders[i]) + 5)
  }

  lemma FreshBudgets<V, E>(threadCount: nat, clientCount: nat, senders: seq<Sender<V, E>>, cancelers: nat)
    ensures var s := Fresh(threadCount, clientCount, senders, cancelers);
            AllSound(s) && Budgets(s.lives) == ChainCosts(senders)
  {
    var s := Fresh(threadCount, clientCount, senders, cancelers);
    forall i | 0 <= i < |senders| ensures Sound(s.lives[i]) && Budget(s.lives[i]) == Length(senders[i]) + 5 {
      L.FreshInv(senders[i], cancelers);
      DepthIsLength(senders[i], ValueReceiver(()));
    }
  }

  /** Over every run of any number of futures, the steps of all tasks together are no more than their chains are long. */
  lemma TaskStepsAreBounded<V, E>(threadCount: nat, clientCount: nat, senders: seq<Sender<V, E>>, cancelers: nat,
                                  es: seq<Event<V, E>>)
    requires Runs(Fresh(threadCount, clientCount, senders, cancelers), es)
    ensures TaskSteps(es) <= Sum(ChainCosts(senders))
  {
    FreshBudgets(threadCount, clientCount, senders, cancelers);
    RunSpends(Fresh(threadCount, clientCount, senders, cancelers), es);
  }

  /** The step of a worker that has not exited makes progress, in the pool or in its task. */
  lemma WorkerMoveShortens<V, E>(s: System<V, E>, w: nat)
    requires Closing(s) && w < |s.pool.workers| && !s.pool.workers[w].Exited?
    ensures Enabled(s, WorkerMove(s, w))
    ensures var s' := Next(s, WorkerMove(s, w));
            PP.Live(s'.pool) < PP.Live(s.pool) || (s'.pool == s.pool && Sum(Budgets(s'.lives)) < Sum(Budgets(s.lives)))
  {
    PS.LiveWorkerCanMove(s.pool, w);
    hide P.Enabled, P.Next, L.Enabled, L.Next, PI.Inv, PS.Shut, PI.Asleep, L.Inv;
    GoOn(s, w);
    match WorkerMove(s, w)
    case LifeStep(i, e) =>
      TaskMoveIsByTask(s.lives[i]);
      StepSpends(s, LifeStep(i, e));
    case PoolStep(e) =>
      PP.StepIsPaid(s.pool, e);
  }

  lemma RunCons<V, E>(s: System<V, E>, e: Event<V, E>, rest: seq<Event<V, E>>)
    requires Enabled(s, e) && Runs(Next(s, e), rest)
    ensures Runs(s, [e] + rest) && Exec(s, [e] + rest) == Exec(Next(s, e), rest)
  {
    hide Next, Enabled;
    assert ([e] + rest)[1..] == rest;
  }

  lemma WorkerMoveIsByWorkers<V, E>(s: System<V, E>, w: nat)
    requires Closing(s) && w < |s.pool.workers| && !s.pool.workers[w].Exited? && Enabled(s, WorkerMove(s, w))
    ensures ByWorkers(WorkerMove(s, w)) && Next(s, WorkerMove(s, w)).pool.clients == s.pool.clients
  {
    match WorkerMove(s, w)
    case LifeStep(i, _) => TaskMoveIsByTask(s.lives[i]);
    case PoolStep(_) =>
  }

  /** The workers and the tasks that they run, alone, bring all workers to their end. */
  lemma {:induction false} WorkersAndTasksFinish<V, E>(s: System<V, E>) returns (es: seq<Event<V, E>>)
    requires Closing(s)
    ensures Runs(s, es) && Closing(Exec(s, es)) && PS.AllExited(Exec(s, es).pool)
    ensures Exec(s, es).pool.clients == s.pool.clients
    ensures forall i | 0 <= i < |es| :: ByWorkers(es[i])
    decreases PP.Live(s.pool), Sum(Budgets(s.lives))
  {
    hide Next, Enabled, Closing, PP.Live, Budgets, WorkerMove, Runs, Exec;
    if PS.AllExited(s.pool) {
      EmptyRun(s);
      es := [];
    } else {
      var w: nat :| w < |s.pool.workers| && !s.pool.workers[w].Exited?;
      WorkerMoveShortens(s, w);
      WorkerMoveIsByWorkers(s, w);
      var e := WorkerMove(s, w);
      StepKeepsClosing(s, e);
      var rest := WorkersAndTasksFinish(Next(s, e));
      RunCons(s, e, rest);
      es := [e] + rest;
    }
  }

  lemma DestroyGoesThrough<V, E>(s: System<V, E>)
    requires Inv(s) && !s.destroyed && PS.AllExited(s.pool) && AllIdle(s.pool)
    ensures Enabled(s, Destroy) && Next(s, Destroy).destroyed
  {
    forall i | 0 <= i < |s.lives| ensures Ready(s.lives[i], LifeEvent(s, Destroy, i)) {
      assert Agrees(s, i);
    }
  }

  lemma {:induction false} RunsConcat<V, E>(s: System<V, E>, a: seq<Event<V, E>>, b: seq<Event<V, E>>)
    requires Runs(s, a) && Runs(Exec(s, a), b)
    ensures Runs(s, a + b) && Exec(s, a + b) == Exec(Exec(s, a), b)
    decreases |a|
  {
    hide Next, Enabled;
    if a == [] {
      assert a + b == b;
    } else {
      RunsConcat(Next(s, a[0]), a[1..], b);
      assert (a + b)[1..] == a[1..] + b;
    }
  }

  lemma FinishAndDestroy<V, E>(s: System<V, E>) returns (es: seq<Event<V, E>>)
    requires Closing(s) && AllIdle(s.pool)
    ensures Runs(s, es + [Destroy]) && Exec(s, es + [Destroy]).destroyed
    ensures forall i | 0 <= i < |es| :: ByWorkers(es[i])
  {
    es := WorkersAndTasksFinish(s);
    var s' := Exec(s, es);
    assert AllIdle(s'.pool);
    hide Next, Enabled, Runs, Exec, Inv, PS.AllExited;
    DestroyGoesThrough(s');
    EmptyRun(Next(s', Destroy));
    RunCons(s', Destroy, []);
    assert [Destroy] + [] == [Event<V, E>.Destroy];
    RunsConcat(s, es, [Destroy]);
  }

  lemma EmptyRun<V, E>(s: System<V, E>)
    ensures Runs(s, []) && Exec(s, []) == s
  {
  }

  lemma ShutPoolIsBounded<V, E>(s: System<V, E>, es: seq<Event<V, E>>)
    requires Runs(s, es) && !Exec(s, es).destroyed && PI.Inv(s.pool) && PS.Shut(s.pool)
    ensures var end := Exec(s, es);
            && PI.Inv(end.pool) && PS.Shut(end.pool)
            && PS.WorkerSteps(PoolTrace(es)) + PP.Live(end.pool) <= PP.Live(s.pool) + PP.Costs(|s.pool.queues|, PoolTrace(es))
  {
    hide Runs, Exec, PI.Inv, PS.Shut, P.Runs, P.Exec, PP.Live;
    SystemRefinesPool(s, es);
    PP.InnerStepsAreBounded(s.pool, PoolTrace(es));
    PS.WorkerStepsAreInner(s.pool, PoolTrace(es));
    PS.RunKeepsShut(s.pool, PoolTrace(es));
  }

  lemma LiveWorkersGoOn<V, E>(s: System<V, E>)
    requires Closing(s)
    ensures forall w: nat | w < |s.pool.workers| && !s.pool.workers[w].Exited? ::
              Enabled(s, WorkerMove(s, w)) && ByWorkers(WorkerMove(s, w))
  {
    forall w: nat | w < |s.pool.workers| && !s.pool.workers[w].Exited?
      ensures Enabled(s, WorkerMove(s, w)) && ByWorkers(WorkerMove(s, w))
    {
      PS.LiveWorkerCanMove(s.pool, w);
      hide P.Enabled, PI.Inv, PS.Shut, PI.Asleep, Enabled;
      GoOn(s, w);
    }
  }

  /**
    `join` returns, with futures on the pool, in every run: after any run that has shut the queues,
    as a `clear` that has returned does, and any continuation, the workers have taken no more steps
    in their loops than the measure of the pool and the calls made since allow, the tasks over the
    whole run no more than their chains are long, and a worker that has not exited has a next step,
    in its loop or in the task that it runs.
  */
  lemma JoinReturns<V, E>(threadCount: nat, clientCount: nat, senders: seq<Sender<V, E>>, cancelers: nat,
                          es: seq<Event<V, E>>, more: seq<Event<V, E>>)
    requires threadCount < U32 && Runs(Fresh(threadCount, clientCount, senders, cancelers), es)
    requires var s := Exec(Fresh(threadCount, clientCount, senders, cancelers), es);
             PS.Shut(s.pool) && Runs(s, more) && !Exec(s, more).destroyed
    ensures var s := Exec(Fresh(threadCount, clientCount, senders, cancelers), es);
            var end := Exec(s, more);
            && PS.WorkerSteps(PoolTrace(more)) + PP.Live(end.pool) <= PP.Live(s.pool) + PP.Costs(|s.pool.queues|, PoolTrace(more))
            && TaskSteps(es + more) <= Sum(ChainCosts(senders))
            && (forall w: nat | w < |end.pool.workers| && !end.pool.workers[w].Exited? ::
                  Enabled(end, WorkerMove(end, w)) && ByWorkers(WorkerMove(end, w)))
  {
    hide Runs, Exec, Fresh, Enabled, Inv, PI.Inv, PS.Shut, AllSound, PP.Live;
    var s0 := Fresh(threadCount, clientCount, senders, cancelers);
    var s := Exec(s0, es);
    SystemRefinesPool(s, more);
    Reachable(threadCount, clientCount, senders, cancelers, es);
    ShutPoolIsBounded(s, more);
    RunsConcat(s0, es, more);
    Reachable(threadCount, clientCount, senders, cancelers, es + more);
    TaskStepsAreBounded(threadCount, clientCount, senders, cancelers, es + more);
    LiveWorkersGoOn(Exec(s, more));
  }

  /**
    Shutdown resolves every future: from every reachable state in which the queues are shut, as they
    are when a `clear` has returned, and no call is in progress, steps of the workers and of the
    tasks that they run end all workers, so that the pool can be destroyed, and then every future
    whose `wait` has scheduled its task has its outcome.
  */
  lemma ShutdownResolvesAll<V, E>(threadCount: nat, clientCount: nat, senders: seq<Sender<V, E>>, cancelers: nat,
                                  es: seq<Event<V, E>>) returns (more: seq<Event<V, E>>)
    requires threadCount < U32 && Runs(Fresh(threadCount, clientCount, senders, cancelers), es)
    requires var s := Exec(Fresh(threadCount, clientCount, senders, cancelers), es);
             !s.destroyed && PS.Shut(s.pool) && AllIdle(s.pool)
    ensures forall i | 0 <= i < |more| :: ByWorkers(more[i])
    ensures var s0 := Fresh(threadCount, clientCount, senders, cancelers);
            && Runs(s0, es + (more + [Destroy]))
            && var end := Exec(s0, es + (more + [Destroy]));
               && end.destroyed && |end.lives| == |senders|
               && forall i | i in end.begun :: i < |senders| && Resolved(senders[i], end.lives[i])
  {
    var s0 := Fresh(threadCount, clientCount, senders, cancelers);
    Reachable(threadCount, clientCount, senders, cancelers, es);
    hide Runs, Exec, Inv, PI.Inv, PS.Shut, L.Inv, Resolved, Fresh, AllIdle;
    more := FinishAndDestroy(Exec(s0, es));
    RunsConcat(s0, es, more + [Destroy]);
    EveryFutureIsResolved(threadCount, clientCount, senders, cancelers, es + (more + [Destroy]));
  }

  // ---------------------------------------------------------------- a future that nobody disturbs

  /** Nobody but the task is inside a call on the shared state. */
  ghost predicate OnlyTaskActive<V, E>(l: L.Life<V, E>) {
    forall t | 0 <= t < |l.cell.setters| && t != L.TASK :: l.cell.setters[t].Idle?
  }

  /** A step on the way of the task from its caller through a queue and a worker. */
  predicate OnTheWay<V, E>(e: L.Event<V, E>) {
    ByTask(e) || e.Enqueue? || e.Take? || e.Release?
  }

  lemma WayStaysQuiet<V, E>(l: L.Life<V, E>, e: L.Event<V, E>)
    requires L.Enabled(l, e) && Sound(l) && OnlyTaskActive(l) && OnTheWay(e)
    ensures Sound(L.Next(l, e)) && OnlyTaskActive(L.Next(l, e))
  {
    MoveKeepsSound(l, Some(e));
  }

  /** The step that takes a task nearer to its end. */
  function WayOn<V, E>(l: L.Life<V, E>): L.Event<V, E>
    requires !l.task.Done? && !l.task.Discarded? && L.TASK < |l.cell.setters|
  {
    if l.task.Unqueued? then L.Enqueue
    else if l.task.Queued? then L.Take
    else if OnWorker(l.task) then L.TaskMove(l)
    else L.Release
  }

  /** How far a task has to go until its worker lets it go. */
  function WayLeft<V, E>(l: L.Life<V, E>): nat {
    match l.task
    case Unqueued => Budget(l) + 3
    case Queued => Budget(l) + 2
    case Done(_) => 0
    case Discarded => 0
    case _ => Budget(l) + 1
  }

  lemma WayIsOpen<V, E>(l: L.Life<V, E>)
    requires Sound(l) && l.handles != {} && !l.task.Done? && !l.task.Discarded?
    ensures L.TASK < |l.cell.setters| && OnTheWay(WayOn(l)) && L.Enabled(l, WayOn(l))
    ensures var l' := L.Next(l, WayOn(l));
            !l'.task.Discarded? && (l'.handles != {} || l'.task.Done?) && WayLeft(l') < WayLeft(l)
  {
    if OnWorker(l.task) {
      TaskMoveIsByTask(l);
      L.TaskIsNeverStuck(l, L.Inv(l, true));
    }
    MoveSpends(l, WayOn(l));
  }

  lemma {:induction false} GoesItsWay<V, E>(l: L.Life<V, E>) returns (es: seq<L.Event<V, E>>)
    requires Sound(l) && OnlyTaskActive(l) && !l.task.Discarded? && (l.handles != {} || l.task.Done?)
    ensures L.Runs(l, es) && L.Exec(l, es).task.Done? && Sound(L.Exec(l, es)) && OnlyTaskActive(L.Exec(l, es))
    ensures forall i | 0 <= i < |es| :: OnTheWay(es[i])
    decreases WayLeft(l)
  {
    if l.task.Done? {
      es := [];
    } else {
      WayIsOpen(l);
      var e := WayOn(l);
      WayStaysQuiet(l, e);
      hide L.Next, L.Enabled, Sound, OnlyTaskActive, WayLeft, WayOn, OnTheWay;
      var rest := GoesItsWay(L.Next(l, e));
      L.RunCons(l, e, rest);
      es := [e] + rest;
    }
  }

  lemma {:induction false} OnlySettles<V, E>(es: seq<L.Event<V, E>>)
    requires forall i | 0 <= i < |es| :: OnTheWay(es[i])
    ensures L.FirstExchange(es).Some? ==> L.FirstExchange(es).value.Settle?
    decreases |es|
  {
    if es != [] {
      OnlySettles(es[1..]);
    }
  }

  lemma WayEndsQuiet<V, E>(l: L.Life<V, E>)
    requires Sound(l) && OnlyTaskActive(l) && l.task.Done?
    ensures !S.MidWrite(l.cell)
  {
  }

  /**
    A future that nobody disturbs: for every chain there is a run from the fresh future, in which the
    task goes from its caller through a queue and a worker, and after which `get` reports the fold of
    the bodies of the steps, and exactly these steps have run.
  */
  lemma UndisturbedLife<V, E>(sender: Sender<V, E>, cancelers: nat) returns (es: seq<L.Event<V, E>>, args: seq<Option<V>>)
    ensures L.Runs(L.Fresh(sender, cancelers), es)
    ensures forall i | 0 <= i < |es| :: OnTheWay(es[i])
    ensures var l := L.Exec(L.Fresh(sender, cancelers), es);
            && l.task == L.Done(false)
            && FoldsTo(StepsOf(sender), args, S.Reported(l.cell), l.ran)
  {
    var l0 := L.Fresh(sender, cancelers);
    L.FreshInv(sender, cancelers);
    es := GoesItsWay(l0);
    var l := L.Exec(l0, es);
    WayEndsQuiet(l);
    args := L.FinalReport(sender, cancelers, es);
    L.FutureReportsFirst(sender, cancelers, es);
    OnlySettles(es);
    L.RunKeepsInv(l0, es, false);
    assert S.Reported(l.cell) == L.Outcome(sender);
    assert !l.task.skipped;
  }

  lemma MaySchedule<V, E>(s: System<V, E>, c: nat, i: nat)
    requires Inv(s) && PI.Inv(s.pool) && !s.destroyed && c < |s.pool.clients| && s.pool.clients[c].Idle?
    requires i < |s.lives| && i !in s.begun && s.lives[i].task.Unqueued? && L.Local(0) in s.lives[i].handles
    ensures Enabled(s, PoolStep(P.BeginSchedule(c, i)))
  {
    assert 0 < |s.pool.queues|;
    hide Inv, PI.Inv, Enabled;
    PoolStepGoesThrough(s, P.BeginSchedule(c, i));
  }

  /** No `wait` is refused: a future that is not yet scheduled can be, by any caller that is not inside a call. */
  lemma WaitMaySchedule<V, E>(threadCount: nat, clientCount: nat, senders: seq<Sender<V, E>>, cancelers: nat,
                              es: seq<Event<V, E>>, c: nat, i: nat)
    requires threadCount < U32 && Runs(Fresh(threadCount, clientCount, senders, cancelers), es)
    requires var s := Exec(Fresh(threadCount, clientCount, senders, cancelers), es);
             && !s.destroyed && c < |s.pool.clients| && s.pool.clients[c].Idle?
             && i < |s.lives| && i !in s.begun && s.lives[i].task.Unqueued? && L.Local(0) in s.lives[i].handles
    ensures var s := Exec(Fresh(threadCount, clientCount, senders, cancelers), es);
            Enabled(s, PoolStep(P.BeginSchedule(c, i)))
  {
    var s := Exec(Fresh(threadCount, clientCount, senders, cancelers), es);
    Reachable(threadCount, clientCount, senders, cancelers, es);
    MaySchedule(s, c, i);
  }
}
