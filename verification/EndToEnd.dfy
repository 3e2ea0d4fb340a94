/**
  The pool and the futures together.  The tasks of the pool are the tasks of the lives of the
  futures that `wait` has made: pushing task `i` enqueues the task of life `i`, popping it takes
  it, clearing or destroying a queue discards what is in it, and a worker is done with a task when
  the task has returned.  Every step keeps the pool and the lives in agreement about each task.
*/
module EndToEnd {
  import opened Wrappers
  import opened Counting
  import opened Pipeline
  import opened PoolConservation
  import P = Pool
  import PS = PoolShutdown
  import L = Lifecycle

  datatype System<!V, !E> = System(
    pool: P.Pool<nat>,
    lives: seq<L.Life<V, E>>,
    begun: set<nat>,   // the lives whose `wait` has called `schedule`
    destroyed: bool    // the pool is gone, with its queues and what was left in them
  )

  datatype Event<V, E> =
    | PoolStep(step: P.Event<nat>)
    | LifeStep(i: nat, move: L.Event<V, E>)
    | Destroy

  ghost function Fresh<V, E>(threadCount: nat, clientCount: nat, senders: seq<Sender<V, E>>, cancelers: nat): System<V, E> {
    System(P.Fresh(threadCount, clientCount),
           seq(|senders|, i requires 0 <= i < |senders| => L.Fresh(senders[i], cancelers)), {}, false)
  }

  // ---------------------------------------------------------------- what a step of the pool does to a life

  function PoolEvent<V, E>(p: P.Pool<nat>, e: P.Event<nat>, i: nat): Option<L.Event<V, E>>
    requires P.Enabled(p, e)
  {
    if i in Enqueues(p, e) then Some(L.Enqueue)
    else if i in Takes(p, e) then Some(L.Take)
    else if i in Drops(p, e) then Some(L.Discard)
    else None
  }

  /** What event `e` of the system does to life `i`. */
  ghost function LifeEvent<V, E>(s: System<V, E>, e: Event<V, E>, i: nat): Option<L.Event<V, E>>
    requires e.PoolStep? ==> P.Enabled(s.pool, e.step)
  {
    match e
    case PoolStep(pe) => PoolEvent(s.pool, pe, i)
    case LifeStep(j, le) => if i == j then Some(le) else None
    case Destroy => if Queued(s.pool)[i] > 0 then Some(L.Discard) else None
  }

  predicate Ready<V, E>(l: L.Life<V, E>, e: Option<L.Event<V, E>>) {
    e.Some? ==> L.Enabled(l, e.value)
  }

  function After<V, E>(l: L.Life<V, E>, e: Option<L.Event<V, E>>): L.Life<V, E>
    requires Ready(l, e)
  {
    if e.Some? then L.Next(l, e.value) else l
  }

  predicate Returned<V, E>(task: L.Task<V, E>) {
    task.Finished? || task.Done?
  }

  /** The schedule call of life `i` has not yet put its task into a queue. */
  predicate InHand<V, E>(s: System<V, E>, i: nat) {
    i < |s.lives| && i in s.begun && s.lives[i].task.Unqueued?
  }

  /** What the futures demand of a step of the pool: `wait` schedules once, and a worker runs its task to the end. */
  predicate PoolMay<V, E>(s: System<V, E>, e: P.Event<nat>)
    requires P.Enabled(s.pool, e)
  {
    match e
    case BeginSchedule(_, i) =>
      i < |s.lives| && i !in s.begun && s.lives[i].task.Unqueued? && L.Local(0) in s.lives[i].handles
    case Finish(w) =>
      var i := s.pool.workers[w].task;
      i < |s.lives| && Returned(s.lives[i].task)
    case _ => true
  }

  /** What the pool demands of a step of a life: it alone moves the task, and a schedule call holds its copy until it has pushed. */
  predicate LifeMay<V, E>(s: System<V, E>, i: nat, e: L.Event<V, E>) {
    && i < |s.lives|
    && !e.Enqueue? && !e.Take? && !e.Discard?
    && (e.Drop? && e.k == 0 ==> !InHand(s, i))
  }

  predicate AllIdle(p: P.Pool<nat>) {
    forall c | 0 <= c < |p.clients| :: p.clients[c].Idle?
  }

  ghost predicate May<V, E>(s: System<V, E>, e: Event<V, E>) {
    match e
    case PoolStep(pe) => !s.destroyed && P.Enabled(s.pool, pe) && PoolMay(s, pe)
    case LifeStep(i, le) => LifeMay(s, i, le)
    case Destroy => !s.destroyed && PS.AllExited(s.pool) && AllIdle(s.pool)
  }

  ghost predicate Enabled<V, E>(s: System<V, E>, e: Event<V, E>) {
    May(s, e) && forall i | 0 <= i < |s.lives| :: Ready(s.lives[i], LifeEvent(s, e, i))
  }

  function WithoutItems(p: P.Pool<nat>): P.Pool<nat> {
    p.(queues := seq(|p.queues|, q requires 0 <= q < |p.queues| => p.queues[q].(items := [])))
  }

  ghost function PoolAfter<V, E>(s: System<V, E>, e: Event<V, E>): P.Pool<nat>
    requires May(s, e)
  {
    match e
    case PoolStep(pe) => P.Next(s.pool, pe)
    case LifeStep(_, _) => s.pool
    case Destroy => WithoutItems(s.pool)
  }

  ghost function Next<V, E>(s: System<V, E>, e: Event<V, E>): System<V, E>
    requires Enabled(s, e)
  {
    System(PoolAfter(s, e),
           seq(|s.lives|, i requires 0 <= i < |s.lives| && Ready(s.lives[i], LifeEvent(s, e, i)) =>
               After(s.lives[i], LifeEvent(s, e, i))),
           if e.PoolStep? && e.step.BeginSchedule? then s.begun + {e.step.task} else s.begun,
           s.destroyed || e.Destroy?)
  }

  ghost predicate Runs<V, E>(s: System<V, E>, es: seq<Event<V, E>>)
    decreases |es|
  {
    es == [] || (Enabled(s, es[0]) && Runs(Next(s, es[0]), es[1..]))
  }

  ghost function Exec<V, E>(s: System<V, E>, es: seq<Event<V, E>>): System<V, E>
    requires Runs(s, es)
    decreases |es|
  {
    if es == [] then s else Exec(Next(s, es[0]), es[1..])
  }

  // ---------------------------------------------------------------- the parts only see their own machines

  ghost function LifeTrace<V, E>(s: System<V, E>, es: seq<Event<V, E>>, i: nat): seq<L.Event<V, E>>
    requires Runs(s, es)
    decreases |es|
  {
    if es == [] then []
    else
      var e := LifeEvent(s, es[0], i);
      (if e.Some? then [e.value] else []) + LifeTrace(Next(s, es[0]), es[1..], i)
  }

  lemma LifeCons<V, E>(l: L.Life<V, E>, e: Option<L.Event<V, E>>, rest: seq<L.Event<V, E>>)
    requires Ready(l, e) && L.Runs(After(l, e), rest)
    ensures var es := (if e.Some? then [e.value] else []) + rest;
            L.Runs(l, es) && L.Exec(l, es) == L.Exec(After(l, e), rest)
  {
    hide L.Next, L.Enabled;
    if e.Some? {
      assert ([e.value] + rest)[1..] == rest;
    } else {
      assert [] + rest == rest;
    }
  }

  /** Every future of the system lives a life of `Lifecycle`. */
  lemma {:induction false} SystemRefinesLife<V, E>(s: System<V, E>, es: seq<Event<V, E>>, i: nat)
    requires Runs(s, es) && i < |s.lives|
    ensures i < |Exec(s, es).lives|
    ensures L.Runs(s.lives[i], LifeTrace(s, es, i)) && L.Exec(s.lives[i], LifeTrace(s, es, i)) == Exec(s, es).lives[i]
    decreases |es|
  {
    if es != [] {
      SystemRefinesLife(Next(s, es[0]), es[1..], i);
      LifeCons(s.lives[i], LifeEvent(s, es[0], i), LifeTrace(Next(s, es[0]), es[1..], i));
    }
  }

  function PoolTrace<V, E>(es: seq<Event<V, E>>): seq<P.Event<nat>> {
    if es == [] then [] else (if es[0].PoolStep? then [es[0].step] else []) + PoolTrace(es[1..])
  }

  /** Until it is destroyed, the pool of the system runs as a `Pool`. */
  lemma {:induction false} SystemRefinesPool<V, E>(s: System<V, E>, es: seq<Event<V, E>>)
    requires Runs(s, es) && !Exec(s, es).destroyed
    ensures !s.destroyed
    ensures P.Runs(s.pool, PoolTrace(es)) && P.Exec(s.pool, PoolTrace(es)) == Exec(s, es).pool
    decreases |es|
  {
    if es != [] {
      SystemRefinesPool(Next(s, es[0]), es[1..]);
      var tail := PoolTrace(es[1..]);
      hide P.Next, P.Enabled;
      if es[0].PoolStep? {
        assert ([es[0].step] + tail)[1..] == tail;
      } else {
        assert [] + tail == tail;
      }
    }
  }

  // ---------------------------------------------------------------- the pool and the lives agree

  predicate OnWorker<V, E>(task: L.Task<V, E>) {
    task.Taken? || task.Stepping? || task.Settling? || task.Settled?
  }

  ghost predicate RunsTask(p: P.Pool<nat>, w: nat, i: nat) {
    w < |p.workers| && p.workers[w].Running? && p.workers[w].task == i
  }

  /** Where the task of life `i` waits, told by the pool and told by the life. */
  ghost predicate Placed<V, E>(s: System<V, E>, i: nat) {
    && Held(s.pool)[i] == (if InHand(s, i) then 1 else 0)
    && Queued(s.pool)[i] == (if i < |s.lives| && s.lives[i].task.Queued? then 1 else 0)
    && (i in s.begun ==> i < |s.lives|)
    && (InHand(s, i) ==> L.Local(0) in s.lives[i].handles)
  }

  /** A task in progress has a worker, a worker that runs it has a task in progress or at its end, and there is only one. */
  ghost predicate Manned<V, E>(s: System<V, E>, i: nat) {
    && (i < |s.lives| && OnWorker(s.lives[i].task) ==> exists w: nat :: RunsTask(s.pool, w, i))
    && (forall w: nat | RunsTask(s.pool, w, i) :: i < |s.lives| && (OnWorker(s.lives[i].task) || Returned(s.lives[i].task)))
    && (forall v: nat, w: nat | RunsTask(s.pool, v, i) && RunsTask(s.pool, w, i) :: v == w)
  }

  ghost predicate Agrees<V, E>(s: System<V, E>, i: nat) {
    Placed(s, i) && Manned(s, i)
  }

  /** A pool is destroyed only when nobody is in it, and nothing is left in it afterwards. */
  ghost predicate Ended<V, E>(s: System<V, E>) {
    s.destroyed ==> PS.AllExited(s.pool) && AllIdle(s.pool) && Queued(s.pool) == multiset{}
  }

  ghost predicate Inv<V, E>(s: System<V, E>) {
    (forall i: nat :: Agrees(s, i)) && Ended(s)
  }

  // ---------------------------------------------------------------- one step of the pool

  /** A step of the pool begins, enqueues, takes or drops, and only one of these. */
  lemma OneKind<T>(p: P.Pool<T>, e: P.Event<T>)
    requires P.Enabled(p, e)
    ensures |Enqueues(p, e)| <= 1 && |Takes(p, e)| <= 1
    ensures Begins(e) != [] ==> Begins(e) == [e.task] && Enqueues(p, e) == Takes(p, e) == Drops(p, e) == []
    ensures Enqueues(p, e) != [] ==> Takes(p, e) == Drops(p, e) == []
    ensures Takes(p, e) != [] ==> Enqueues(p, e) == Drops(p, e) == []
  {
  }

  /** Which worker runs what after a step. */
  lemma RunningAfter(p: P.Pool<nat>, e: P.Event<nat>, w: nat, i: nat)
    requires P.Enabled(p, e)
    ensures RunsTask(P.Next(p, e), w, i)
       <==> (RunsTask(p, w, i) && e != P.Finish(w)) || (i in Takes(p, e) && P.ByWorker(e) && e.w == w)
    ensures i in Takes(p, e) ==> P.ByWorker(e)
  {
  }

  /** The counts of one task, before and after a step. */
  lemma CountsAfter(p: P.Pool<nat>, e: P.Event<nat>, i: nat)
    requires P.Enabled(p, e) && Held(p)[i] <= 1 && Queued(p)[i] <= 1
    ensures var p' := P.Next(p, e);
            && (i in Begins(e) ==> Held(p')[i] == Held(p)[i] + 1 && Queued(p')[i] == Queued(p)[i])
            && (i in Enqueues(p, e) ==> Held(p)[i] == 1 && Held(p')[i] == 0 && Queued(p')[i] == Queued(p)[i] + 1)
            && (i in Takes(p, e) || i in Drops(p, e) ==> Held(p')[i] == Held(p)[i] && Queued(p)[i] == 1 && Queued(p')[i] == 0)
            && (i !in Begins(e) && i !in Enqueues(p, e) && i !in Takes(p, e) && i !in Drops(p, e) ==>
                  Held(p')[i] == Held(p)[i] && Queued(p')[i] == Queued(p)[i])
  {
    StepMovesOne(p, e, i);
    OneKind(p, e);
    Single(Begins(e), i);
    Single(Enqueues(p, e), i);
    Single(Takes(p, e), i);
    hide P.Next, P.Enabled, Enqueues, Takes, Drops, Held, Queued;
  }

  lemma Single<T>(xs: seq<T>, x: T)
    ensures x in xs <==> multiset(xs)[x] > 0
    ensures |xs| <= 1 ==> multiset(xs)[x] <= 1
  {
    if |xs| == 1 {
      assert xs == [xs[0]];
    }
  }

  // ---------------------------------------------------------------- every step keeps the agreement

  /** What the pool moves is where the life says it is. */
  lemma PoolMoves<V, E>(s: System<V, E>, e: P.Event<nat>, i: nat)
    requires P.Enabled(s.pool, e) && Placed(s, i)
    ensures i in Enqueues(s.pool, e) ==> InHand(s, i)
    ensures i in Takes(s.pool, e) || i in Drops(s.pool, e) ==> i < |s.lives| && s.lives[i].task.Queued?
  {
    CountsAfter(s.pool, e, i);
    hide P.Next, P.Enabled, Enqueues, Takes, Drops, Held, Queued;
  }

  lemma PoolMovesReadyTasks<V, E>(s: System<V, E>, e: P.Event<nat>, i: nat)
    requires P.Enabled(s.pool, e) && Placed(s, i) && i < |s.lives|
    ensures Ready(s.lives[i], PoolEvent(s.pool, e, i))
  {
    PoolMoves(s, e, i);
    ReadyForPool(s.lives[i]);
    hide P.Next, P.Enabled, Enqueues, Takes, Drops, Held, Queued, L.Enabled;
  }

  lemma ReadyForPool<V, E>(l: L.Life<V, E>)
    ensures l.task.Unqueued? && L.Local(0) in l.handles ==> L.Enabled(l, L.Enqueue)
    ensures l.task.Queued? ==> L.Enabled(l, L.Take) && L.Enabled(l, L.Discard)
  {
  }

  /** The life of a task after a step of the pool. */
  lemma LifeAfterPool<V, E>(s: System<V, E>, e: P.Event<nat>, i: nat)
    requires Enabled(s, PoolStep(e)) && Placed(s, i) && i < |s.lives|
    ensures i < |Next(s, PoolStep(e)).lives|
    ensures var l' := Next(s, PoolStep(e)).lives[i];
            if i in Enqueues(s.pool, e) then l'.task == L.Queued
            else if i in Takes(s.pool, e) then l'.task == L.Taken
            else if i in Drops(s.pool, e) then l'.task == L.Discarded
            else l' == s.lives[i]
  {
    PoolMoves(s, e, i);
    hide P.Next, P.Enabled, Enqueues, Takes, Drops, Held, Queued;
  }

  /** A life seen from outside: only the pool moves its task into a queue, out of it, or into a worker. */
  lemma OwnMove<V, E>(l: L.Life<V, E>, e: L.Event<V, E>)
    requires L.Enabled(l, e) && !e.Enqueue? && !e.Take? && !e.Discard?
    ensures var l' := L.Next(l, e);
            && (l'.task.Unqueued? <==> l.task.Unqueued?)
            && (l'.task.Queued? <==> l.task.Queued?)
            && (OnWorker(l'.task) ==> OnWorker(l.task))
            && (OnWorker(l.task) || Returned(l.task) ==> OnWorker(l'.task) || Returned(l'.task))
            && (L.Local(0) in l.handles && !(e.Drop? && e.k == 0) ==> L.Local(0) in l'.handles)
  {
  }

  lemma LifeStepAgrees<V, E>(s: System<V, E>, j: nat, e: L.Event<V, E>, i: nat)
    requires Enabled(s, LifeStep(j, e)) && Agrees(s, i)
    ensures Agrees(Next(s, LifeStep(j, e)), i)
  {
    assert Ready(s.lives[j], LifeEvent(s, LifeStep(j, e), j));
    var s' := Next(s, LifeStep(j, e));
    assert s'.pool == s.pool && s'.begun == s.begun && |s'.lives| == |s.lives|;
    if i < |s.lives| {
      if i == j {
        OwnMove(s.lives[i], e);
        assert s'.lives[i] == L.Next(s.lives[i], e);
      } else {
        assert s'.lives[i] == s.lives[i];
      }
    }
    hide L.Next, L.Enabled, Next, Held, Queued;
  }

  /** What a step of the pool leaves alone and what it does, for one task. */
  lemma PoolStepFrame<V, E>(s: System<V, E>, e: P.Event<nat>)
    requires Enabled(s, PoolStep(e))
    ensures P.Enabled(s.pool, e) && PoolMay(s, e)
    ensures var s' := Next(s, PoolStep(e));
            && |s'.lives| == |s.lives| && s'.pool == P.Next(s.pool, e)
            && s'.begun == if e.BeginSchedule? then s.begun + {e.task} else s.begun
  {
  }

  /** A task in progress keeps its worker. */
  lemma StaysManned<V, E>(s: System<V, E>, e: P.Event<nat>, i: nat) returns (w: nat)
    requires Enabled(s, PoolStep(e)) && Agrees(s, i) && i < |s.lives|
    requires i < |Next(s, PoolStep(e)).lives| && OnWorker(Next(s, PoolStep(e)).lives[i].task)
    ensures RunsTask(Next(s, PoolStep(e)).pool, w, i)
  {
    PoolStepFrame(s, e);
    LifeAfterPool(s, e, i);
    hide Next, Enabled, P.Next, P.Enabled, Placed, Takes, Drops, Enqueues;
    if i in Takes(s.pool, e) {
      TakenByWorker(s.pool, e);
      w := e.w;
    } else {
      w :| RunsTask(s.pool, w, i);
    }
    RunningAfter(s.pool, e, w, i);
  }

  lemma TakenByWorker<T>(p: P.Pool<T>, e: P.Event<T>)
    requires P.Enabled(p, e) && Takes(p, e) != []
    ensures P.ByWorker(e)
  {
  }

  /** A worker runs a task in progress, or one that has returned. */
  lemma StaysInProgress<V, E>(s: System<V, E>, e: P.Event<nat>, i: nat, w: nat)
    requires Enabled(s, PoolStep(e)) && Agrees(s, i) && RunsTask(Next(s, PoolStep(e)).pool, w, i)
    ensures var s' := Next(s, PoolStep(e));
            i < |s'.lives| && (OnWorker(s'.lives[i].task) || Returned(s'.lives[i].task))
  {
    PoolStepFrame(s, e);
    hide Next, Enabled, P.Next, P.Enabled, Placed, Takes, Drops, Enqueues, L.Enabled, L.Next;
    PoolMoves(s, e, i);
    RunningAfter(s.pool, e, w, i);
    assert i < |s.lives|;
    LifeAfterPool(s, e, i);
  }

  /** A task that is taken comes from a queue, where no worker runs it, so it gets one worker. */
  lemma StaysSingle<V, E>(s: System<V, E>, e: P.Event<nat>, i: nat, v: nat, w: nat)
    requires Enabled(s, PoolStep(e)) && Agrees(s, i)
    requires RunsTask(Next(s, PoolStep(e)).pool, v, i) && RunsTask(Next(s, PoolStep(e)).pool, w, i)
    ensures v == w
  {
    PoolStepFrame(s, e);
    hide Next, Enabled, P.Next, P.Enabled, Placed, Takes, Drops, Enqueues;
    PoolMoves(s, e, i);
    RunningAfter(s.pool, e, v, i);
    RunningAfter(s.pool, e, w, i);
  }

  lemma PoolStepMans<V, E>(s: System<V, E>, e: P.Event<nat>, i: nat)
    requires Enabled(s, PoolStep(e)) && Agrees(s, i)
    ensures Manned(Next(s, PoolStep(e)), i)
  {
    PoolStepFrame(s, e);
    hide Next, Enabled, P.Next, P.Enabled, Agrees;
    var s' := Next(s, PoolStep(e));
    if i < |s'.lives| && OnWorker(s'.lives[i].task) {
      var w := StaysManned(s, e, i);
    }
    forall w: nat | RunsTask(s'.pool, w, i)
      ensures i < |s'.lives| && (OnWorker(s'.lives[i].task) || Returned(s'.lives[i].task))
    {
      StaysInProgress(s, e, i, w);
    }
    forall v: nat, w: nat | RunsTask(s'.pool, v, i) && RunsTask(s'.pool, w, i) ensures v == w {
      StaysSingle(s, e, i, v, w);
    }
  }

  /** The books of one task balance, whether it was begun, enqueued, moved out of its queue, or left alone. */
  lemma PlacedAfter<V, E>(s: System<V, E>, s': System<V, E>, i: nat, began: bool, enqueued: bool, out: bool)
    requires Placed(s, i) && |s'.lives| == |s.lives| && (i in s'.begun <==> i in s.begun || began)
    requires !(began && enqueued) && !(began && out) && !(enqueued && out)
    requires began ==> i < |s.lives| && i !in s.begun && s.lives[i].task.Unqueued? && L.Local(0) in s.lives[i].handles
    requires enqueued ==> InHand(s, i)
    requires out ==> i < |s.lives| && s.lives[i].task.Queued?
    requires Held(s'.pool)[i] == Held(s.pool)[i] + (if began then 1 else 0) - (if enqueued then 1 else 0)
    requires Queued(s'.pool)[i] == Queued(s.pool)[i] + (if enqueued then 1 else 0) - (if out then 1 else 0)
    requires i < |s.lives| ==>
               if enqueued then s'.lives[i].task == L.Queued
               else if out then s'.lives[i].task == L.Taken || s'.lives[i].task == L.Discarded
               else s'.lives[i] == s.lives[i]
    ensures Placed(s', i)
  {
    hide Held, Queued;
  }

  lemma PoolStepPlaces<V, E>(s: System<V, E>, e: P.Event<nat>, i: nat)
    requires Enabled(s, PoolStep(e)) && Placed(s, i)
    ensures Placed(Next(s, PoolStep(e)), i)
  {
    PoolStepFrame(s, e);
    PoolMoves(s, e, i);
    CountsAfter(s.pool, e, i);
    OneKind(s.pool, e);
    if i < |s.lives| {
      LifeAfterPool(s, e, i);
    }
    hide Next, Enabled, P.Next, P.Enabled, Held, Queued, Takes, Drops, Enqueues;
    PlacedAfter(s, Next(s, PoolStep(e)), i, i in Begins(e), i in Enqueues(s.pool, e),
                i in Takes(s.pool, e) || i in Drops(s.pool, e));
  }

  lemma NothingQueued(p: P.Pool<nat>)
    ensures Queued(WithoutItems(p)) == multiset{} && Held(WithoutItems(p)) == Held(p)
  {
    UnionOfEmpties(Stocks(WithoutItems(p)));
    assert Hands(WithoutItems(p)) == Hands(p);
  }

  lemma DestroyAgrees<V, E>(s: System<V, E>, i: nat)
    requires Enabled(s, Destroy) && Agrees(s, i)
    ensures Agrees(Next(s, Destroy), i)
  {
    NothingQueued(s.pool);
    var s' := Next(s, Destroy);
    assert s'.pool.workers == s.pool.workers;
    forall w: nat ensures RunsTask(s'.pool, w, i) <==> RunsTask(s.pool, w, i) {
    }
    assert s'.pool == WithoutItems(s.pool) && s'.begun == s.begun;
  }

  lemma StepKeepsEnded<V, E>(s: System<V, E>, e: Event<V, E>)
    requires Enabled(s, e) && Ended(s)
    ensures Ended(Next(s, e))
  {
    if e.Destroy? {
      NothingQueued(s.pool);
    }
  }

  lemma StepKeepsInv<V, E>(s: System<V, E>, e: Event<V, E>)
    requires Enabled(s, e) && Inv(s)
    ensures Inv(Next(s, e))
  {
    StepKeepsEnded(s, e);
    hide Next, Enabled, Agrees, Ended;
    forall i: nat ensures Agrees(Next(s, e), i) {
      assert Agrees(s, i);
      match e
      case PoolStep(pe) => PoolStepAgrees(s, pe, i);
      case LifeStep(j, le) => LifeStepAgrees(s, j, le, i);
      case Destroy => DestroyAgrees(s, i);
    }
  }

  lemma PoolStepAgrees<V, E>(s: System<V, E>, e: P.Event<nat>, i: nat)
    requires Enabled(s, PoolStep(e)) && Agrees(s, i)
    ensures Agrees(Next(s, PoolStep(e)), i)
  {
    PoolStepPlaces(s, e, i);
    PoolStepMans(s, e, i);
    hide Next, Enabled, Placed, Manned;
  }

  lemma {:induction false} RunKeepsInv<V, E>(s: System<V, E>, es: seq<Event<V, E>>)
    requires Runs(s, es) && Inv(s)
    ensures Inv(Exec(s, es))
    decreases |es|
  {
    if es != [] {
      StepKeepsInv(s, es[0]);
      hide Next, Enabled, Inv;
      RunKeepsInv(Next(s, es[0]), es[1..]);
    }
  }

  lemma FreshInv<V, E>(threadCount: nat, clientCount: nat, senders: seq<Sender<V, E>>, cancelers: nat)
    ensures Inv(Fresh(threadCount, clientCount, senders, cancelers))
  {
    var s := Fresh(threadCount, clientCount, senders, cancelers);
    UnionOfEmpties(Hands(s.pool));
    UnionOfEmpties(Stocks(s.pool));
    forall i: nat ensures Agrees(s, i) {
      assert Held(s.pool)[i] == 0 && Queued(s.pool)[i] == 0;
    }
  }
}
