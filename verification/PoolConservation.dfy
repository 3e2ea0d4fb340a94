/**
  Nothing is lost and nothing is run twice: over every run, whatever the try-locks do, the
  scheduled tasks are the tasks still in the hands of their callers, queued, handed to workers
  and dropped by `clear`, with multiplicity.  Each queue on its own is a FIFO.
*/
module PoolConservation {
  import opened Counting
  import opened Pool
  import M = Monitor

  // ---------------------------------------------------------------- what one event does to tasks

  /** The task of a schedule call that starts here. */
  function Begins<T>(e: Event<T>): seq<T> {
    if e.BeginSchedule? then [e.task] else []
  }

  /** The task that a schedule call puts into a queue here. */
  function Enqueues<T>(s: Pool<T>, e: Event<T>): seq<T>
    requires Enabled(s, e)
  {
    if (e.ProbePush? && e.locked) || e.PushHome? then [s.clients[e.c].task] else []
  }

  /** The task that a worker starts to run here. */
  function Takes<T>(s: Pool<T>, e: Event<T>): seq<T>
    requires Enabled(s, e)
  {
    if ByWorker(e) && !s.workers[e.w].Running? && WorkerAfter(s, e).Running? then [WorkerAfter(s, e).task] else []
  }

  /** The tasks that `clear` throws away here. */
  function Drops<T>(s: Pool<T>, e: Event<T>): seq<T>
    requires Enabled(s, e)
  {
    if e.ClearNext? then s.queues[s.clients[e.c].q].items else []
  }

  // ---------------------------------------------------------------- over a run, in order

  function Begun<T>(es: seq<Event<T>>): seq<T> {
    if es == [] then [] else Begins(es[0]) + Begun(es[1..])
  }

  function Enqueued<T>(s: Pool<T>, es: seq<Event<T>>): seq<T>
    requires Runs(s, es)
    decreases |es|
  {
    if es == [] then [] else Enqueues(s, es[0]) + Enqueued(Next(s, es[0]), es[1..])
  }

  function Taken<T>(s: Pool<T>, es: seq<Event<T>>): seq<T>
    requires Runs(s, es)
    decreases |es|
  {
    if es == [] then [] else Takes(s, es[0]) + Taken(Next(s, es[0]), es[1..])
  }

  function Dropped<T>(s: Pool<T>, es: seq<Event<T>>): seq<T>
    requires Runs(s, es)
    decreases |es|
  {
    if es == [] then [] else Drops(s, es[0]) + Dropped(Next(s, es[0]), es[1..])
  }

  /** A run of one more step in front. */
  lemma RunCons<T>(s: Pool<T>, e: Event<T>, rest: seq<Event<T>>)
    requires Enabled(s, e) && Runs(Next(s, e), rest)
    ensures Runs(s, [e] + rest) && Exec(s, [e] + rest) == Exec(Next(s, e), rest)
    ensures Taken(s, [e] + rest) == Takes(s, e) + Taken(Next(s, e), rest)
  {
    hide Next, Enabled, Takes;
    assert ([e] + rest)[1..] == rest;
  }

  /** A run of a single step. */
  lemma RunOne<T>(s: Pool<T>, e: Event<T>)
    requires Enabled(s, e)
    ensures Runs(s, [e]) && Exec(s, [e]) == Next(s, e) && Taken(s, [e]) == Takes(s, e)
  {
    RunCons(s, e, []);
    assert [e] + [] == [e];
  }

  lemma {:induction false} TakenConcat<T>(s: Pool<T>, a: seq<Event<T>>, b: seq<Event<T>>)
    requires Runs(s, a) && Runs(Exec(s, a), b) && Runs(s, a + b)
    ensures Taken(s, a + b) == Taken(s, a) + Taken(Exec(s, a), b)
    decreases |a|
  {
    hide Next, Enabled, Takes;
    if a == [] {
      assert a + b == b;
    } else {
      assert (a + b)[1..] == a[1..] + b;
      TakenConcat(Next(s, a[0]), a[1..], b);
    }
  }

  // ---------------------------------------------------------------- where tasks are

  ghost function HandOf<T>(p: Client<T>): multiset<T> {
    if p.Pushing? then multiset{p.task} else multiset{}
  }

  ghost function Hands<T>(s: Pool<T>): seq<multiset<T>> {
    seq(|s.clients|, i requires 0 <= i < |s.clients| => HandOf(s.clients[i]))
  }

  ghost function Stocks<T>(s: Pool<T>): seq<multiset<T>> {
    seq(|s.queues|, i requires 0 <= i < |s.queues| => multiset(s.queues[i].items))
  }

  /** Tasks that a schedule call has not yet put into a queue. */
  ghost function Held<T>(s: Pool<T>): multiset<T> {
    Union(Hands(s))
  }

  ghost function Queued<T>(s: Pool<T>): multiset<T> {
    Union(Stocks(s))
  }

  // ---------------------------------------------------------------- conservation, step by step

  lemma HandBalance<T>(s: Pool<T>, e: Event<T>)
    requires Enabled(s, e) && !ByWorker(e)
    ensures HandOf(s.clients[e.c]) + multiset(Begins(e)) == HandOf(ClientAfter(s, e)) + multiset(Enqueues(s, e))
  {
  }

  lemma HandsAfter<T>(s: Pool<T>, e: Event<T>)
    requires Enabled(s, e)
    ensures ByWorker(e) ==> Hands(Next(s, e)) == Hands(s)
    ensures !ByWorker(e) ==> e.c < |Hands(s)| && Hands(Next(s, e)) == Hands(s)[e.c := HandOf(ClientAfter(s, e))]
  {
  }

  lemma StocksAfter<T>(s: Pool<T>, e: Event<T>)
    requires Enabled(s, e)
    ensures TouchOf(s, e).Untouched? ==> Stocks(Next(s, e)) == Stocks(s)
    ensures TouchOf(s, e).Touches? ==>
              var Touches(q, me) := TouchOf(s, e);
              q < |Stocks(s)| && Stocks(Next(s, e)) == Stocks(s)[q := multiset(M.Next(s.queues[q], me).items)]
  {
  }

  lemma StepMovesHands<T>(s: Pool<T>, e: Event<T>)
    requires Enabled(s, e)
    ensures Held(s) + multiset(Begins(e)) == Held(Next(s, e)) + multiset(Enqueues(s, e))
  {
    var s' := Next(s, e);
    HandsAfter(s, e);
    if !ByWorker(e) {
      var hand := HandOf(ClientAfter(s, e));
      UnionUpdate(Hands(s), e.c, hand);
      HandBalance(s, e);
      Trade(Held(s), Held(s'), HandOf(s.clients[e.c]), hand, multiset(Begins(e)), multiset(Enqueues(s, e)));
    }
  }

  /** What one step does to the container of the queue it touches. */
  lemma TouchedQueue<T>(s: Pool<T>, e: Event<T>)
    requires Enabled(s, e) && TouchOf(s, e).Touches?
    ensures var Touches(q, me) := TouchOf(s, e);
            && M.Appends(me) == Enqueues(s, e)
            && M.Delivers(s.queues[q], me) == Takes(s, e)
            && (me.Clear? <==> e.ClearNext?)
            && (me.Clear? ==> Drops(s, e) == s.queues[q].items)
  {
  }

  lemma UntouchedQueues<T>(s: Pool<T>, e: Event<T>)
    requires Enabled(s, e) && TouchOf(s, e).Untouched?
    ensures Enqueues(s, e) == Takes(s, e) == Drops(s, e) == []
  {
  }

  lemma StepMovesStock<T>(s: Pool<T>, e: Event<T>)
    requires Enabled(s, e)
    ensures Queued(s) + multiset(Enqueues(s, e))
         == Queued(Next(s, e)) + (multiset(Takes(s, e)) + multiset(Drops(s, e)))
  {
    var s' := Next(s, e);
    StocksAfter(s, e);
    match TouchOf(s, e)
    case Untouched =>
      UntouchedQueues(s, e);
    case Touches(q, me) =>
      TouchedQueue(s, e);
      var before, after := s.queues[q].items, M.Next(s.queues[q], me).items;
      UnionUpdate(Stocks(s), q, multiset(after));
      ItemsBalance(s.queues[q], me);
      Trade(Queued(s), Queued(s'), multiset(before), multiset(after),
            multiset(Enqueues(s, e)), multiset(Takes(s, e)) + multiset(Drops(s, e)));
  }

  /** The balance of one container over one step, cleared or not. */
  lemma ItemsBalance<T>(m: M.Monitor<T>, e: M.Event<T>)
    requires M.Enabled(m, e)
    ensures multiset(m.items) + multiset(M.Appends(e))
         == multiset(M.Next(m, e).items) + (multiset(M.Delivers(m, e)) + if e.Clear? then multiset(m.items) else multiset{})
  {
    if !e.Clear? {
      M.StepIsFifo(m, e);
      assert multiset(m.items + M.Appends(e)) == multiset(M.Delivers(m, e) + M.Next(m, e).items);
    }
  }

  /** The balance of one step, for one task. */
  lemma StepMovesOne<T>(s: Pool<T>, e: Event<T>, x: T)
    requires Enabled(s, e)
    ensures var s' := Next(s, e);
            var enqueued := multiset(Enqueues(s, e))[x];
            && Held(s)[x] + multiset(Begins(e))[x] == Held(s')[x] + enqueued
            && Queued(s)[x] + enqueued == Queued(s')[x] + (multiset(Takes(s, e))[x] + multiset(Drops(s, e))[x])
  {
    var s' := Next(s, e);
    StepMovesHands(s, e);
    StepMovesStock(s, e);
    hide *;
    assert (Held(s) + multiset(Begins(e)))[x] == (Held(s') + multiset(Enqueues(s, e)))[x];
    assert (Queued(s) + multiset(Enqueues(s, e)))[x]
        == (Queued(s') + (multiset(Takes(s, e)) + multiset(Drops(s, e))))[x];
  }

  /** Every schedule call puts its task into exactly one queue, once, whichever of its probes fail. */
  lemma {:induction false} EachCallEnqueuesOnce<T>(s: Pool<T>, es: seq<Event<T>>)
    requires Runs(s, es)
    ensures Held(s) + multiset(Begun(es)) == Held(Exec(s, es)) + multiset(Enqueued(s, es))
    decreases |es|
  {
    if es != [] {
      var e, s', rest := es[0], Next(s, es[0]), es[1..];
      StepMovesHands(s, e);
      EachCallEnqueuesOnce(s', rest);
      Compose(Held(s), Held(s'), Held(Exec(s', rest)), multiset(Begins(e)), multiset(Enqueues(s, e)),
              multiset(Begun(rest)), multiset(Enqueued(s', rest)));
    }
  }

  /** Every task that enters a queue leaves it once, to a worker or to `clear`, or is still there. */
  lemma {:induction false} EachTaskLeavesOnce<T>(s: Pool<T>, es: seq<Event<T>>)
    requires Runs(s, es)
    ensures Queued(s) + multiset(Enqueued(s, es))
         == Queued(Exec(s, es)) + multiset(Taken(s, es) + Dropped(s, es))
    decreases |es|
  {
    if es != [] {
      var e, s', rest := es[0], Next(s, es[0]), es[1..];
      StepMovesStock(s, e);
      EachTaskLeavesOnce(s', rest);
      Compose(Queued(s), Queued(s'), Queued(Exec(s', rest)),
              multiset(Enqueues(s, e)), multiset(Takes(s, e)) + multiset(Drops(s, e)),
              multiset(Enqueued(s', rest)), multiset(Taken(s', rest) + Dropped(s', rest)));
    }
  }

  /** Conservation over every run of a fresh pool. */
  lemma Conservation<T>(threadCount: nat, clientCount: nat, es: seq<Event<T>>)
    requires Runs(Fresh<T>(threadCount, clientCount), es)
    ensures var s0 := Fresh<T>(threadCount, clientCount);
            var s := Exec(s0, es);
            multiset(Begun(es)) == Held(s) + (Queued(s) + multiset(Taken(s0, es) + Dropped(s0, es)))
  {
    var s0 := Fresh<T>(threadCount, clientCount);
    UnionOfEmpties(Hands(s0));
    UnionOfEmpties(Stocks(s0));
    EachCallEnqueuesOnce(s0, es);
    EachTaskLeavesOnce(s0, es);
    var s := Exec(s0, es);
    assert multiset(Enqueued(s0, es)) == Queued(s) + multiset(Taken(s0, es) + Dropped(s0, es));
    assert multiset(Begun(es)) == Held(s) + multiset(Enqueued(s0, es));
  }

  // ---------------------------------------------------------------- each queue of the pool is the queue machine

  /** The steps that a run performs on queue `q`. */
  function QueueTrace<T>(s: Pool<T>, es: seq<Event<T>>, q: nat): seq<M.Event<T>>
    requires Runs(s, es)
    decreases |es|
  {
    if es == [] then []
    else
      (match TouchOf(s, es[0])
       case Touches(p, me) => if p == q then [me] else []
       case Untouched => [])
      + QueueTrace(Next(s, es[0]), es[1..], q)
  }

  /** A run of the pool, seen from one queue, is a run of the queue machine. */
  lemma {:induction false} PoolRefinesQueues<T>(s: Pool<T>, es: seq<Event<T>>, q: nat)
    requires Runs(s, es) && q < |s.queues|
    ensures M.Runs(s.queues[q], QueueTrace(s, es, q))
    ensures q < |Exec(s, es).queues| && M.Exec(s.queues[q], QueueTrace(s, es, q)) == Exec(s, es).queues[q]
    decreases |es|
  {
    if es != [] {
      var s', rest := Next(s, es[0]), es[1..];
      PoolRefinesQueues(s', rest, q);
      var tail := QueueTrace(s', rest, q);
      match TouchOf(s, es[0])
      case Touches(p, me) =>
        if p == q {
          assert ([me] + tail)[1..] == tail;
        } else {
          assert [] + tail == tail;
        }
      case Untouched =>
        assert [] + tail == tail;
    }
  }

  ghost predicate NoClearing<T>(es: seq<Event<T>>) {
    forall i | 0 <= i < |es| :: !es[i].ClearNext?
  }

  lemma {:induction false} NoClearingMeansClearFree<T>(s: Pool<T>, es: seq<Event<T>>, q: nat)
    requires Runs(s, es) && NoClearing(es)
    ensures M.ClearFree(QueueTrace(s, es, q))
    decreases |es|
  {
    if es != [] {
      NoClearingMeansClearFree(Next(s, es[0]), es[1..], q);
    }
  }

  /** Each queue of the pool delivers in append order under any mix of try and blocking operations, until something is cleared. */
  lemma EachQueueIsFifo<T>(s: Pool<T>, es: seq<Event<T>>, q: nat)
    requires Runs(s, es) && NoClearing(es) && q < |s.queues|
    ensures M.Runs(s.queues[q], QueueTrace(s, es, q))
    ensures q < |Exec(s, es).queues|
    ensures s.queues[q].items + M.Appended(QueueTrace(s, es, q))
         == M.Delivered(s.queues[q], QueueTrace(s, es, q)) + Exec(s, es).queues[q].items
  {
    PoolRefinesQueues(s, es, q);
    NoClearingMeansClearFree(s, es, q);
    M.RunIsFifo(s.queues[q], QueueTrace(s, es, q));
  }

  /** With one queue the pool as a whole is a FIFO: workers start the tasks in the order in which they were enqueued. */
  lemma {:induction false} OneQueueIsFifo<T>(s: Pool<T>, es: seq<Event<T>>)
    requires Runs(s, es) && NoClearing(es) && |s.queues| == 1
    ensures |Exec(s, es).queues| == 1
    ensures s.queues[0].items + Enqueued(s, es) == Taken(s, es) + Exec(s, es).queues[0].items
    decreases |es|
  {
    if es != [] {
      var e, s', rest := es[0], Next(s, es[0]), es[1..];
      OneQueueIsFifo(s', rest);
      match TouchOf(s, e) {
        case Touches(q, me) =>
          TouchedQueue(s, e);
          M.StepIsFifo(s.queues[0], me);
        case Untouched =>
          UntouchedQueues(s, e);
      }
      assert s.queues[0].items + Enqueues(s, e) == Takes(s, e) + s'.queues[0].items;
      M.Regroup(s.queues[0].items, Enqueues(s, e), Takes(s, e), s'.queues[0].items,
              Enqueued(s', rest), Taken(s', rest), Exec(s', rest).queues[0].items);
    }
  }
}
