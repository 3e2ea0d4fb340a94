/**
  What can still run after `clear`.  Later pushes are accepted and `try_pop` ignores the
  cancellation, so a worker that is still to probe can take a task; a worker that is past its
  probes gets nothing from the blocking pop of a cancelled queue and exits.
*/
module AfterClear {
  import opened Tickets
  import opened Dealing
  import opened Pool
  import opened PoolInvariant
  import opened PoolConservation
  import opened PoolShutdown
  import opened Solo

  /** The worker has a probe before it. */
  predicate StillProbes<T>(p: Worker<T>) {
    p.Starting? || p.Probing? || p.Running?
  }

  ghost predicate SomeStillProbes<T>(s: Pool<T>) {
    exists w: nat :: w < |s.workers| && StillProbes(s.workers[w])
  }

  ghost predicate TakesSomething<T>(s: Pool<T>, es: seq<Event<T>>) {
    Runs(s, es) && Taken(s, es) != []
  }

  // ---------------------------------------------------------------- past the probes nothing runs

  lemma StepPastProbes<T>(s: Pool<T>, e: Event<T>)
    requires Enabled(s, e) && Shut(s) && !SomeStillProbes(s)
    ensures !SomeStillProbes(Next(s, e)) && Takes(s, e) == []
  {
    if ByWorker(e) {
      assert !StillProbes(s.workers[e.w]);
      assert Cleared(s, TouchOf(s, e).q);
      assert WorkerAfter(s, e).Exited? || WorkerAfter(s, e).Waiting?;
    }
    forall w: nat | w < |Next(s, e).workers| ensures !StillProbes(Next(s, e).workers[w]) {
      assert !StillProbes(s.workers[w]);
    }
  }

  lemma {:induction false} NothingRunsPastProbes<T>(s: Pool<T>, es: seq<Event<T>>)
    requires Runs(s, es) && Shut(s) && !SomeStillProbes(s)
    ensures Taken(s, es) == []
    decreases |es|
  {
    if es != [] {
      StepKeepsShut(s, es[0]);
      StepPastProbes(s, es[0]);
      hide Next, Enabled, Shut, SomeStillProbes, Takes;
      NothingRunsPastProbes(Next(s, es[0]), es[1..]);
    }
  }

  // ---------------------------------------------------------------- before them something can

  lemma {:induction false} ClientsKeepWorkers<T>(s: Pool<T>, es: seq<Event<T>>, c: nat)
    requires Runs(s, es) && OnlyClient(es, c)
    ensures Exec(s, es).workers == s.workers
    decreases |es|
  {
    if es != [] {
      assert !ByWorker(es[0]);
      ClientsKeepWorkers(Next(s, es[0]), es[1..], c);
    }
  }

  /** How often the push index has to advance to reach `q`. */
  function Distance(index: nat, q: nat): nat
    requires index < U32 && q < U32
  {
    if index <= q then q - index else q + U32 - index
  }

  /** One uncontended schedule call. */
  lemma OneMoreTask<T>(s: Pool<T>, c: nat, task: T) returns (es: seq<Event<T>>)
    requires Inv(s) && c < |s.clients| && s.clients[c].Idle?
    ensures Runs(s, es)
    ensures var s' := Exec(s, es);
            && 0 < |s.queues| && Inv(s') && s'.workers == s.workers && s'.clients == s.clients
            && s'.pushIndex == Advance(s.pushIndex)
            && Contents(s') == Append(Contents(s), Slot(s.pushIndex, 0, |s.queues|), task)
  {
    var locks := Uncontended(|s.queues|);
    assert 0 < |locks| && locks[0] && FirstLocked(locks, 0) == 0;
    hide Next, Enabled, Runs, Exec;
    es := SoloSchedule(s, c, task, locks);
    ClientsKeepWorkers(s, es, c);
    RunKeepsInv(s, es);
  }

  /** Scheduling often enough puts a task into any given queue. */
  lemma {:induction false} Reach<T>(s: Pool<T>, c: nat, task: T, q: nat) returns (es: seq<Event<T>>)
    requires Inv(s) && c < |s.clients| && s.clients[c].Idle? && q < |s.queues|
    ensures Runs(s, es)
    ensures var s' := Exec(s, es);
            Inv(s') && s'.workers == s.workers && |s'.queues| == |s.queues| && Contents(s')[q] != []
    decreases Distance(s.pushIndex, q)
  {
    es := OneMoreTask(s, c, task);
    var s' := Exec(s, es);
    if Slot(s.pushIndex, 0, |s.queues|) != q {
      assert s.pushIndex != q by {
        SmallMod(q, |s.queues|);
      }
      assert |s'.queues| == |Contents(s')| == |s.queues|;
      hide Next, Enabled, Runs, Exec, Inv, Contents;
      var rest := Reach(s', c, task, q);
      RunsConcat(s, es, rest);
      es := es + rest;
    }
  }

  /** A worker that still probes gets to its next probe. */
  lemma ToTheProbe<T>(s: Pool<T>, w: nat) returns (es: seq<Event<T>>)
    requires Inv(s) && w < |s.workers| && StillProbes(s.workers[w])
    ensures Runs(s, es)
    ensures var s' := Exec(s, es);
            Inv(s') && w < |s'.workers| && s'.workers[w].Probing? && s'.clients == s.clients
  {
    if s.workers[w].Probing? {
      es := [];
    } else {
      var e: Event<T> := if s.workers[w].Starting? then Start(w) else Finish(w);
      StepKeepsInv(s, e);
      RunOne(s, e);
      es := [e];
    }
  }

  lemma ProbeTakes<T>(s: Pool<T>, w: nat)
    requires Inv(s) && w < |s.workers| && s.workers[w].Probing?
    requires Contents(s)[Slot(s.workers[w].ticket, s.workers[w].n, |s.queues|)] != []
    ensures TakesSomething(s, [Probe(w, true)])
  {
    var e: Event<T> := Probe(w, true);
    WorkerIsOutside(s, w, TouchOf(s, e).q);
    ProbeHits(s, e);
    RunOne(s, e);
  }

  lemma TakesLater<T>(s: Pool<T>, a: seq<Event<T>>, b: seq<Event<T>>)
    requires Runs(s, a) && TakesSomething(Exec(s, a), b)
    ensures TakesSomething(s, a + b)
  {
    RunsConcat(s, a, b);
    TakenConcat(s, a, b);
  }

  lemma ProbingCanTake<T>(s: Pool<T>, c: nat, w: nat, task: T) returns (es: seq<Event<T>>)
    requires Inv(s) && c < |s.clients| && s.clients[c].Idle?
    requires w < |s.workers| && StillProbes(s.workers[w])
    ensures TakesSomething(s, es)
  {
    hide Next, Enabled, Runs, Exec, Inv, Contents, TakesSomething;
    var a := ToTheProbe(s, w);
    var s1 := Exec(s, a);
    InvHasQueues(s1);
    var b := Reach(s1, c, task, Slot(s1.workers[w].ticket, s1.workers[w].n, |s1.queues|));
    var s2 := Exec(s1, b);
    ProbeTakes(s2, w);
    TakesLater(s1, b, [Probe(w, true)]);
    TakesLater(s, a, b + [Probe(w, true)]);
    es := a + (b + [Probe(w, true)]);
  }

  lemma InvHasQueues<T>(s: Pool<T>)
    requires Inv(s)
    ensures 0 < |s.queues|
  {
  }

  /**
    Exactly when work can still run after `clear`: from a shut state, with a caller that may still
    schedule, some run starts a task if and only if some worker has a probe before it.  In a pool
    of any size, whatever the callers do, workers that wait, are about to wait, or have exited
    take nothing any more.
  */
  lemma WorkAfterClearIff<T>(s: Pool<T>, c: nat, task: T)
    requires Inv(s) && Shut(s) && c < |s.clients| && s.clients[c].Idle?
    ensures (exists es: seq<Event<T>> :: TakesSomething(s, es)) <==> SomeStillProbes(s)
  {
    hide Next, Enabled, Runs, Exec, Inv, Shut, Taken;
    if w: nat :| w < |s.workers| && StillProbes(s.workers[w]) {
      var es := ProbingCanTake(s, c, w, task);
    } else {
      forall es: seq<Event<T>> | Runs(s, es) ensures !TakesSomething(s, es) {
        NothingRunsPastProbes(s, es);
      }
    }
  }
}
