/**
  Progress of the pool, in every regime: a measure bounds the steps that the pool itself can
  take, and only calls from outside and spurious wakeups can pay for more.  When no step of its
  own is left, the pool is at rest, and without a clear a pool at rest has run everything.
*/
module PoolProgress {
  import opened Counting
  import opened Tickets
  import opened Pool
  import opened PoolInvariant
  import opened PoolConservation
  import M = Monitor

  // ---------------------------------------------------------------- steps and what they cost

  /** A step that the pool takes by itself: of a worker, or a notification that is due. */
  predicate Inner<T>(e: Event<T>) {
    (ByWorker(e) && !e.Spurious?) || e.NotifyOne? || e.NotifyAll?
  }

  function InnerSteps<T>(es: seq<Event<T>>): nat {
    if es == [] then 0 else (if Inner(es[0]) then 1 else 0) + InnerSteps(es[1..])
  }

  /** The inner steps that an event from outside can cause in a pool of `count` queues. */
  function Cost<T>(count: nat, e: Event<T>): nat {
    match e
    case BeginSchedule(_, _) => count + 4
    case BeginClear(_) => ClearWeight(count, 0)
    case Spurious(_) => 1
    case _ => 0
  }

  function Costs<T>(count: nat, es: seq<Event<T>>): nat {
    if es == [] then 0 else Cost(count, es[0]) + Costs(count, es[1..])
  }

  // ---------------------------------------------------------------- the measure

  function WorkerWeight<T>(count: nat, p: Worker<T>): nat {
    match p
    case Starting => count + 2
    case Probing(_, n) => if n < count then count - n + 1 else 0
    case Entering(_) => 1
    case Waiting(_) => 0
    case Running(_, _) => count + 2
    case Exited => 0
  }

  function ClientWeight<T>(count: nat, p: Client<T>): nat {
    match p
    case Idle => 0
    case Pushing(_, _, _) => count + 4
    case NotifyingOne(_) => 2
    case Clearing(q) => ClearWeight(count, q)
    case NotifyingAll(q) => ClearWeight(count, q)
  }

  /** For each queue that `clear` has before it, a notification and the sleepers that it wakes. */
  function ClearWeight(count: nat, q: nat): nat {
    if q < count then (count + 1) * (count - q) else 0
  }

  lemma OneQueueLess(count: nat, q: nat)
    requires q < count
    ensures ClearWeight(count, q) == ClearWeight(count, q + 1) + count + 1
  {
    MoreWeight(count + 1, count - q, count - q - 1);
  }

  function QueueWeight<T>(count: nat, m: M.Monitor<T>): nat {
    (count + 2) * |m.items| + |m.woken|
  }

  function WorkerWeights<T>(s: Pool<T>): seq<nat> {
    seq(|s.workers|, i requires 0 <= i < |s.workers| => WorkerWeight(|s.queues|, s.workers[i]))
  }

  function ClientWeights<T>(s: Pool<T>): seq<nat> {
    seq(|s.clients|, i requires 0 <= i < |s.clients| => ClientWeight(|s.queues|, s.clients[i]))
  }

  function QueueWeights<T>(s: Pool<T>): seq<nat> {
    seq(|s.queues|, i requires 0 <= i < |s.queues| => QueueWeight(|s.queues|, s.queues[i]))
  }

  /** An upper bound on the inner steps that the calls made so far can still cause. */
  function Live<T>(s: Pool<T>): nat {
    Sum(WorkerWeights(s)) + Sum(ClientWeights(s)) + Sum(QueueWeights(s))
  }

  // ---------------------------------------------------------------- the measure, part by part

  lemma WorkerPart<T>(s: Pool<T>, e: Event<T>)
    requires Enabled(s, e)
    ensures ByWorker(e) ==>
              Sum(WorkerWeights(Next(s, e))) + WorkerWeight(|s.queues|, s.workers[e.w])
                == Sum(WorkerWeights(s)) + WorkerWeight(|s.queues|, WorkerAfter(s, e))
    ensures !ByWorker(e) ==> Sum(WorkerWeights(Next(s, e))) == Sum(WorkerWeights(s))
  {
    var s' := Next(s, e);
    if ByWorker(e) {
      assert s'.workers == s.workers[e.w := WorkerAfter(s, e)];
      var v := WorkerWeight(|s.queues|, WorkerAfter(s, e));
      assert WorkerWeights(s') == WorkerWeights(s)[e.w := v];
      SumUpdate(WorkerWeights(s), e.w, v);
    } else {
      assert s'.workers == s.workers;
      assert WorkerWeights(s') == WorkerWeights(s);
    }
  }

  lemma ClientPart<T>(s: Pool<T>, e: Event<T>)
    requires Enabled(s, e)
    ensures !ByWorker(e) ==>
              Sum(ClientWeights(Next(s, e))) + ClientWeight(|s.queues|, s.clients[e.c])
                == Sum(ClientWeights(s)) + ClientWeight(|s.queues|, ClientAfter(s, e))
    ensures ByWorker(e) ==> Sum(ClientWeights(Next(s, e))) == Sum(ClientWeights(s))
  {
    var s' := Next(s, e);
    if !ByWorker(e) {
      assert s'.clients == s.clients[e.c := ClientAfter(s, e)];
      var v := ClientWeight(|s.queues|, ClientAfter(s, e));
      assert ClientWeights(s') == ClientWeights(s)[e.c := v];
      SumUpdate(ClientWeights(s), e.c, v);
    } else {
      assert s'.clients == s.clients;
      assert ClientWeights(s') == ClientWeights(s);
    }
  }

  lemma QueuePart<T>(s: Pool<T>, e: Event<T>)
    requires Enabled(s, e)
    ensures TouchOf(s, e).Untouched? ==> Sum(QueueWeights(Next(s, e))) == Sum(QueueWeights(s))
    ensures TouchOf(s, e).Touches? ==>
              var Touches(q, me) := TouchOf(s, e);
              Sum(QueueWeights(Next(s, e))) + QueueWeight(|s.queues|, s.queues[q])
                == Sum(QueueWeights(s)) + QueueWeight(|s.queues|, M.Next(s.queues[q], me))
  {
    var s' := Next(s, e);
    match TouchOf(s, e)
    case Untouched =>
      assert s'.queues == s.queues;
      assert QueueWeights(s') == QueueWeights(s);
    case Touches(q, me) =>
      var v := QueueWeight(|s.queues|, M.Next(s.queues[q], me));
      assert s'.queues == s.queues[q := M.Next(s.queues[q], me)];
      assert QueueWeights(s') == QueueWeights(s)[q := v];
      SumUpdate(QueueWeights(s), q, v);
  }

  lemma MoreWeight(k: nat, a: nat, b: nat)
    ensures b == a + 1 ==> k * b == k * a + k
    ensures a == b + 1 ==> k * b == k * a - k
    ensures b == 0 ==> k * b <= k * a
  {
  }

  /** How many threads a queue step wakes. */
  lemma WokenAfter<T>(m: M.Monitor<T>, e: M.Event<T>)
    requires M.Enabled(m, e) && M.Separate(m)
    ensures e.Recheck? ==> |M.Next(m, e).woken| == |m.woken| - 1
    ensures e.Spurious? || e.NotifyOne? ==> |M.Next(m, e).woken| <= |m.woken| + 1
    ensures e.NotifyAll? ==> |M.Next(m, e).woken| == |m.woken| + |m.waiting|
    ensures !e.Recheck? && !e.Spurious? && !e.NotifyOne? && !e.NotifyAll? ==> M.Next(m, e).woken == m.woken
  {
    match e
    case Recheck(t) => M.DropOne(m.woken, t);
    case Spurious(t) => M.AddOne(m.woken, t);
    case NotifyOne(_, target) =>
      if m.waiting != {} {
        M.AddOne(m.woken, target);
      }
    case _ =>
  }

  /** How many items a queue step adds or removes. */
  lemma ItemsAfter<T>(m: M.Monitor<T>, e: M.Event<T>)
    requires M.Enabled(m, e)
    ensures !e.Clear? ==> |M.Next(m, e).items| + |M.Delivers(m, e)| == |m.items| + |M.Appends(e)|
    ensures e.Clear? ==> |M.Next(m, e).items| == 0
  {
    if !e.Clear? {
      M.StepIsFifo(m, e);
      hide M.Next, M.Delivers, M.Appends;
      assert |m.items + M.Appends(e)| == |M.Delivers(m, e) + M.Next(m, e).items|;
    }
  }

  lemma ItemsWeigh<T>(count: nat, m: M.Monitor<T>, m': M.Monitor<T>)
    ensures |m'.items| == |m.items| ==> QueueWeight(count, m') + |m.woken| == QueueWeight(count, m) + |m'.woken|
    ensures |m'.items| == |m.items| + 1 ==> QueueWeight(count, m') + |m.woken| == QueueWeight(count, m) + (count + 2) + |m'.woken|
    ensures |m'.items| + 1 == |m.items| ==> QueueWeight(count, m') + (count + 2) + |m.woken| == QueueWeight(count, m) + |m'.woken|
    ensures |m'.items| == 0 ==> QueueWeight(count, m') + |m.woken| <= QueueWeight(count, m) + |m'.woken|
  {
    MoreWeight(count + 2, |m.items|, |m'.items|);
  }

  /** What a queue step does to the weight of the queue. */
  lemma QueueDelta<T>(count: nat, m: M.Monitor<T>, e: M.Event<T>)
    requires M.Enabled(m, e) && M.Separate(m)
    ensures var before, after := QueueWeight(count, m), QueueWeight(count, M.Next(m, e));
            match e
            case Clear(_) => after <= before
            case NotifyOne(_, _) => after <= before + 1
            case NotifyAll(_) => after == before + |m.waiting|
            case Spurious(_) => after <= before + 1
            case _ =>
              after + (if M.Delivers(m, e) != [] then count + 2 else 0) + (if e.Recheck? then 1 else 0)
                == before + (if M.Appends(e) != [] then count + 2 else 0)
  {
    WokenAfter(m, e);
    ItemsAfter(m, e);
    ItemsWeigh(count, m, M.Next(m, e));
    AtMostOne(m, e);
    hide M.Next, M.Enabled, QueueWeight, M.Separate, M.Delivers, M.Appends;
  }

  lemma AtMostOne<T>(m: M.Monitor<T>, e: M.Event<T>)
    ensures M.Delivers(m, e) == [] || (|M.Delivers(m, e)| == 1 && M.Appends(e) == [])
    ensures |M.Appends(e)| <= 1
    ensures e.NotifyOne? || e.NotifyAll? || e.Spurious? || e.Clear? ==> M.Delivers(m, e) == M.Appends(e) == []
  {
  }

  lemma FewSleepers<T>(s: Pool<T>, q: nat)
    requires Shape(s) && Booked(s) && q < |s.queues|
    ensures |s.queues[q].waiting| <= |s.queues|
  {
    forall t | t in s.queues[q].waiting ensures t in Below(|s.queues|) {
      assert Fits(s, q, t);
    }
    SubsetSize(s.queues[q].waiting, Below(|s.queues|));
  }

  /** A worker pays for its step, with the help of the task that it takes or of the wakeup that it uses up. */
  lemma WorkerOwnDelta<T>(s: Pool<T>, e: Event<T>)
    requires Enabled(s, e) && Shape(s) && ByWorker(e)
    ensures WorkerWeight(|s.queues|, WorkerAfter(s, e)) + (if e.Spurious? then 0 else 1)
         <= WorkerWeight(|s.queues|, s.workers[e.w]) + (if Takes(s, e) != [] then |s.queues| + 2 else 0) + (if e.Recheck? then 1 else 0)
  {
  }

  /** What the acting worker and the queue it touches weigh before and after. */
  lemma WorkerDelta<T>(s: Pool<T>, e: Event<T>)
    requires Enabled(s, e) && Inv(s) && ByWorker(e)
    ensures var count := |s.queues|;
            var before, after := WorkerWeight(count, s.workers[e.w]), WorkerWeight(count, WorkerAfter(s, e));
            var spent := if e.Spurious? then 0 else 1;
            match TouchOf(s, e)
            case Untouched => after + spent <= before
            case Touches(q, me) =>
              after + QueueWeight(count, M.Next(s.queues[q], me)) + spent
                <= before + QueueWeight(count, s.queues[q]) + (1 - spent)
  {
    WorkerOwnDelta(s, e);
    match TouchOf(s, e)
    case Untouched =>
      UntouchedQueues(s, e);
      hide WorkerAfter, WorkerWeight, Takes;
    case Touches(q, me) =>
      TouchedQueue(s, e);
      assert M.Separate(s.queues[q]) by {
        assert M.Inv(s.queues[q]);
      }
      QueueDelta(|s.queues|, s.queues[q], me);
      assert me.Recheck? <==> e.Recheck?;
      assert me.Spurious? <==> e.Spurious?;
      hide M.Next, M.Enabled, QueueWeight, M.Separate, Inv, WorkerAfter, WorkerWeight, Takes, M.Delivers;
  }

  /** A notification is paid for by the call that sends it. */
  lemma NotifyOneDelta<T>(s: Pool<T>, e: Event<T>)
    requires Enabled(s, e) && Monitors(s) && e.NotifyOne?
    ensures var count, p := |s.queues|, s.clients[e.c];
            ClientWeight(count, ClientAfter(s, e)) + QueueWeight(count, M.Next(s.queues[p.q], TouchOf(s, e).e)) + 1
              <= ClientWeight(count, p) + QueueWeight(count, s.queues[p.q])
  {
    var q := s.clients[e.c].q;
    assert M.Separate(s.queues[q]) by {
      assert M.Inv(s.queues[q]);
    }
    QueueDelta(|s.queues|, s.queues[q], TouchOf(s, e).e);
    hide M.Next, M.Enabled, QueueWeight, M.Separate;
  }

  lemma NotifyAllOwnDelta<T>(s: Pool<T>, e: Event<T>)
    requires Enabled(s, e) && e.NotifyAll?
    ensures ClientWeight(|s.queues|, ClientAfter(s, e)) + |s.queues| + 1 == ClientWeight(|s.queues|, s.clients[e.c])
  {
    OneQueueLess(|s.queues|, s.clients[e.c].q);
    assert ClearWeight(|s.queues|, |s.queues|) == 0;
    hide ClearWeight;
  }

  lemma NotifyAllDelta<T>(s: Pool<T>, e: Event<T>)
    requires Enabled(s, e) && Inv(s) && e.NotifyAll?
    ensures var count, p := |s.queues|, s.clients[e.c];
            ClientWeight(count, ClientAfter(s, e)) + QueueWeight(count, M.Next(s.queues[p.q], TouchOf(s, e).e)) + 1
              <= ClientWeight(count, p) + QueueWeight(count, s.queues[p.q])
  {
    var q := s.clients[e.c].q;
    assert M.Separate(s.queues[q]) by {
      assert M.Inv(s.queues[q]);
    }
    QueueDelta(|s.queues|, s.queues[q], TouchOf(s, e).e);
    FewSleepers(s, q);
    NotifyAllOwnDelta(s, e);
    hide M.Next, M.Enabled, QueueWeight, M.Separate, ClientWeight, ClientAfter, Inv;
  }

  lemma NotifyDelta<T>(s: Pool<T>, e: Event<T>)
    requires Enabled(s, e) && Inv(s) && (e.NotifyOne? || e.NotifyAll?)
    ensures var count := |s.queues|;
            var before, after := ClientWeight(count, s.clients[e.c]), ClientWeight(count, ClientAfter(s, e));
            var Touches(q, me) := TouchOf(s, e);
            after + QueueWeight(count, M.Next(s.queues[q], me)) + 1 <= before + QueueWeight(count, s.queues[q])
  {
    if e.NotifyOne? {
      NotifyOneDelta(s, e);
    } else {
      NotifyAllDelta(s, e);
    }
    hide M.Next, M.Enabled, QueueWeight, ClientWeight, Inv;
  }

  lemma CallDelta<T>(s: Pool<T>, e: Event<T>)
    requires Enabled(s, e) && (e.BeginSchedule? || e.BeginClear?)
    ensures TouchOf(s, e).Untouched?
    ensures ClientWeight(|s.queues|, ClientAfter(s, e)) <= ClientWeight(|s.queues|, s.clients[e.c]) + Cost(|s.queues|, e)
  {
    hide ClearWeight;
  }

  lemma ClientOwnDelta<T>(s: Pool<T>, e: Event<T>)
    requires Enabled(s, e) && (e.ProbePush? || e.PushHome? || e.ClearNext?)
    ensures TouchOf(s, e).Touches? && (TouchOf(s, e).e.Clear? <==> e.ClearNext?)
    ensures !TouchOf(s, e).e.NotifyOne? && !TouchOf(s, e).e.NotifyAll? && !TouchOf(s, e).e.Spurious? && !TouchOf(s, e).e.Recheck?
    ensures Takes(s, e) == [] && (e.ClearNext? ==> Enqueues(s, e) == [])
    ensures ClientWeight(|s.queues|, ClientAfter(s, e)) + (if Enqueues(s, e) != [] then |s.queues| + 2 else 0)
         <= ClientWeight(|s.queues|, s.clients[e.c])
  {
    hide ClearWeight;
  }

  /** A push moves the weight of its task from the caller to the queue; a clear only drops. */
  lemma ClientDelta<T>(s: Pool<T>, e: Event<T>)
    requires Enabled(s, e) && Monitors(s) && (e.ProbePush? || e.PushHome? || e.ClearNext?)
    ensures TouchOf(s, e).Touches?
    ensures var count := |s.queues|;
            var before, after := ClientWeight(count, s.clients[e.c]), ClientWeight(count, ClientAfter(s, e));
            var Touches(q, me) := TouchOf(s, e);
            after + QueueWeight(count, M.Next(s.queues[q], me)) <= before + QueueWeight(count, s.queues[q])
  {
    var Touches(q, me) := TouchOf(s, e);
    assert M.Separate(s.queues[q]) by {
      assert M.Inv(s.queues[q]);
    }
    QueueDelta(|s.queues|, s.queues[q], me);
    TouchedQueue(s, e);
    ClientOwnDelta(s, e);
    hide M.Next, M.Enabled, QueueWeight, M.Separate, ClientWeight, ClientAfter, Takes, Enqueues, M.Delivers, M.Appends;
  }

  /** Every inner step lowers the measure, no other step raises it by more than its cost. */
  lemma StepIsPaid<T>(s: Pool<T>, e: Event<T>)
    requires Enabled(s, e) && Inv(s)
    ensures Live(Next(s, e)) + (if Inner(e) then 1 else 0) <= Live(s) + Cost(|s.queues|, e)
    ensures |Next(s, e).queues| == |s.queues|
  {
    WorkerPart(s, e);
    ClientPart(s, e);
    QueuePart(s, e);
    if ByWorker(e) {
      WorkerDelta(s, e);
    } else if Inner(e) {
      NotifyDelta(s, e);
    } else if Outside(e) {
      CallDelta(s, e);
    } else {
      ClientDelta(s, e);
    }
  }

  /** Over every run of every pool: the inner steps taken and still possible are paid for by the start and by the outside. */
  lemma {:induction false} InnerStepsAreBounded<T>(s: Pool<T>, es: seq<Event<T>>)
    requires Runs(s, es) && Inv(s)
    ensures Inv(Exec(s, es))
    ensures InnerSteps(es) + Live(Exec(s, es)) <= Live(s) + Costs(|s.queues|, es)
    decreases |es|
  {
    if es != [] {
      hide Next, Enabled, Inv, Live;
      StepKeepsInv(s, es[0]);
      StepIsPaid(s, es[0]);
      InnerStepsAreBounded(Next(s, es[0]), es[1..]);
    }
  }

  // ---------------------------------------------------------------- whole runs

  /** The probes, pushes and clears that the calls in progress have before them. */
  function ErrandWeight<T>(count: nat, p: Client<T>): nat {
    match p
    case Idle => 0
    case Pushing(_, _, n) => (if n <= 4 * count then 4 * count - n else 0) + 1
    case NotifyingOne(_) => 0
    case Clearing(q) => if q < count then count - q else 0
    case NotifyingAll(q) => if q < count then count - q - 1 else 0
  }

  function ErrandWeights<T>(s: Pool<T>): seq<nat> {
    seq(|s.clients|, i requires 0 <= i < |s.clients| => ErrandWeight(|s.queues|, s.clients[i]))
  }

  predicate Outside<T>(e: Event<T>) {
    e.BeginSchedule? || e.BeginClear? || e.Spurious?
  }

  /** All steps that an event from outside can cause, itself included. */
  function Price<T>(count: nat, e: Event<T>): nat {
    Cost(count, e) + if Outside(e) then 4 * count + 2 else 0
  }

  function Prices<T>(count: nat, es: seq<Event<T>>): nat {
    if es == [] then 0 else Price(count, es[0]) + Prices(count, es[1..])
  }

  function Measure<T>(s: Pool<T>): nat {
    Live(s) + Sum(ErrandWeights(s))
  }

  lemma ErrandPart<T>(s: Pool<T>, e: Event<T>)
    requires Enabled(s, e) && Shape(s) && 4 * |s.queues| < U32
    ensures Sum(ErrandWeights(Next(s, e))) + (if Inner(e) then 0 else 1)
              <= Sum(ErrandWeights(s)) + (if Outside(e) then 4 * |s.queues| + 2 else 0)
  {
    var s' := Next(s, e);
    if ByWorker(e) {
      assert ErrandWeights(s') == ErrandWeights(s);
    } else {
      var v := ErrandWeight(|s.queues|, ClientAfter(s, e));
      assert ClientShape(s, s.clients[e.c]);
      assert ErrandWeights(s') == ErrandWeights(s)[e.c := v];
      SumUpdate(ErrandWeights(s), e.c, v);
    }
  }

  /**
    No livelock: as long as the probe loop of `schedule` can end, the length of every run, with
    clears or without, is bounded by its start and by the calls and spurious wakeups in it.
  */
  lemma {:induction false} EveryRunIsBounded<T>(s: Pool<T>, es: seq<Event<T>>)
    requires Runs(s, es) && Inv(s) && 4 * |s.queues| < U32
    ensures |es| + Measure(Exec(s, es)) <= Measure(s) + Prices(|s.queues|, es)
    decreases |es|
  {
    if es != [] {
      StepIsPaid(s, es[0]);
      ErrandPart(s, es[0]);
      StepKeepsInv(s, es[0]);
      hide Next, Enabled, Inv, Live, ErrandWeights;
      EveryRunIsBounded(Next(s, es[0]), es[1..]);
    }
  }

  // ---------------------------------------------------------------- rest

  /** Every worker sleeps or has exited, and no notification is due. */
  ghost predicate AtRest<T>(s: Pool<T>) {
    && 0 < |s.queues|
    && (forall w: nat | w < |s.workers| :: s.workers[w].Exited? || Asleep(s, w))
    && (forall c | 0 <= c < |s.clients| :: !s.clients[c].NotifyingOne? && !s.clients[c].NotifyingAll?)
  }

  /** A pool that is not at rest has an inner step. */
  lemma RestlessCanMove<T>(s: Pool<T>) returns (e: Event<T>)
    requires Inv(s) && !AtRest(s)
    ensures Inner(e) && Enabled(s, e)
  {
    if w: nat :| w < |s.workers| && !s.workers[w].Exited? && !Asleep(s, w) {
      AwakeWorkerCanMove(s, w);
      e := WorkerMove(s.workers[w], w);
    } else if c: nat :| c < |s.clients| && s.clients[c].NotifyingOne? {
      e := NotifyIsReady(s, c);
    } else {
      var c: nat :| c < |s.clients| && s.clients[c].NotifyingAll?;
      assert ClientShape(s, s.clients[c]);
      assert Fits(s, s.clients[c].q, ClientTid(s, c));
      e := NotifyAll(c);
    }
  }

  /** A pool at rest has none. */
  lemma RestHasNoMove<T>(s: Pool<T>, e: Event<T>)
    requires Inv(s) && AtRest(s) && Inner(e)
    ensures !Enabled(s, e)
  {
    if e.Recheck? && AtPoint(s, e) {
      assert Asleep(s, e.w);
      assert M.Inv(s.queues[Home(s, s.workers[e.w].ticket)]);
    }
  }

  /** At rest means: no inner step is possible. */
  lemma RestMeansStuck<T>(s: Pool<T>)
    requires Inv(s)
    ensures AtRest(s) <==> forall e: Event<T> | Inner(e) :: !Enabled(s, e)
  {
    if AtRest(s) {
      forall e: Event<T> | Inner(e) ensures !Enabled(s, e) {
        RestHasNoMove(s, e);
      }
    } else {
      var e := RestlessCanMove(s);
    }
  }

  lemma {:induction false} InnerStepsOnly<T>(count: nat, es: seq<Event<T>>)
    requires forall i | 0 <= i < |es| :: Inner(es[i])
    ensures InnerSteps(es) == |es| && Costs(count, es) == 0
    decreases |es|
  {
    if es != [] {
      InnerStepsOnly(count, es[1..]);
    }
  }

  /** Left to itself, the pool comes to rest, from every state. */
  lemma {:induction false} CatchUp<T>(s: Pool<T>) returns (es: seq<Event<T>>)
    requires Inv(s)
    ensures Runs(s, es) && Inv(Exec(s, es)) && AtRest(Exec(s, es))
    ensures forall i | 0 <= i < |es| :: Inner(es[i])
    decreases Live(s)
  {
    hide Next, Enabled, Inv, Live, AtRest, Takes;
    if AtRest(s) {
      es := [];
    } else {
      var e := RestlessCanMove(s);
      StepKeepsInv(s, e);
      StepIsPaid(s, e);
      assert Cost(|s.queues|, e) == 0;
      var rest := CatchUp(Next(s, e));
      RunCons(s, e, rest);
      es := [e] + rest;
    }
  }

  /** And within as many steps as the measure says. */
  lemma ComesToRest<T>(s: Pool<T>) returns (es: seq<Event<T>>)
    requires Inv(s)
    ensures Runs(s, es) && Inv(Exec(s, es)) && AtRest(Exec(s, es))
    ensures (forall i | 0 <= i < |es| :: Inner(es[i])) && |es| <= Live(s)
  {
    es := CatchUp(s);
    InnerStepsOnly(|s.queues|, es);
    InnerStepsAreBounded(s, es);
  }

  // ---------------------------------------------------------------- without a clear, rest means everything has run

  lemma NothingCancelled<T>(threadCount: nat, clientCount: nat, es: seq<Event<T>>)
    requires Runs(Fresh<T>(threadCount, clientCount), es) && NoClearing(es)
    ensures !SomeCancelled(Exec(Fresh<T>(threadCount, clientCount), es))
  {
    var s0 := Fresh<T>(threadCount, clientCount);
    RunKeepsSize(s0, es);
    forall q | 0 <= q < |s0.queues| ensures !Exec(s0, es).queues[q].cancelled {
      PoolRefinesQueues(s0, es, q);
      NoClearingMeansClearFree(s0, es, q);
      M.CancelledOnlyByClear(s0.queues[q], QueueTrace(s0, es, q));
    }
  }

  /**
    A pool at rest has run everything: in every run without a clear, of a pool of any size, when
    no inner step is left, all queues are empty, and the tasks scheduled are the tasks run and
    those that a caller has not yet put into a queue.
  */
  lemma RestHasRunEverything<T>(threadCount: nat, clientCount: nat, es: seq<Event<T>>)
    requires threadCount < U32 && Runs(Fresh<T>(threadCount, clientCount), es) && NoClearing(es)
    requires AtRest(Exec(Fresh<T>(threadCount, clientCount), es))
    ensures var s0 := Fresh<T>(threadCount, clientCount);
            var s := Exec(s0, es);
            && (forall q | 0 <= q < |s.queues| :: s.queues[q].items == [])
            && multiset(Begun(es)) == Held(s) + multiset(Taken(s0, es))
  {
    RestIsEmpty(threadCount, clientCount, es);
    var s0 := Fresh<T>(threadCount, clientCount);
    Conservation(threadCount, clientCount, es);
    NoClearingDropsNothing(s0, es);
    hide Exec, Runs, Fresh, Taken, Dropped, Begun, Held, Queued, AtRest;
    EmptyStock(Exec(s0, es));
    assert Taken(s0, es) + [] == Taken(s0, es);
    assert multiset{} + multiset(Taken(s0, es)) == multiset(Taken(s0, es));
  }

  lemma NoClearingConcat<T>(es: seq<Event<T>>, more: seq<Event<T>>)
    requires NoClearing(es) && forall i | 0 <= i < |more| :: Inner(more[i])
    ensures NoClearing(es + more)
  {
    forall i | 0 <= i < |es + more| ensures !(es + more)[i].ClearNext? {
      if i >= |es| {
        assert Inner(more[i - |es|]);
      }
    }
  }

  /**
    Every task gets run: any run without a clear can be continued, by steps of the pool alone and
    no more of them than the measure says, to a state in which everything enqueued has been run.
  */
  lemma EveryTaskGetsRun<T>(threadCount: nat, clientCount: nat, es: seq<Event<T>>) returns (more: seq<Event<T>>)
    requires threadCount < U32 && Runs(Fresh<T>(threadCount, clientCount), es) && NoClearing(es)
    ensures forall i | 0 <= i < |more| :: Inner(more[i])
    ensures |more| <= Live(Exec(Fresh<T>(threadCount, clientCount), es))
    ensures var s0 := Fresh<T>(threadCount, clientCount);
            && Runs(s0, es + more)
            && var s := Exec(s0, es + more);
               && AtRest(s)
               && (forall q | 0 <= q < |s.queues| :: s.queues[q].items == [])
               && multiset(Begun(es + more)) == Held(s) + multiset(Taken(s0, es + more))
  {
    hide Exec, Runs, Fresh, Taken, Begun, Held, AtRest, Live, Inv, NoClearing;
    var s0 := Fresh<T>(threadCount, clientCount);
    FreshInv<T>(threadCount, clientCount);
    RunKeepsInv(s0, es);
    more := ComesToRest(Exec(s0, es));
    RunsConcat(s0, es, more);
    NoClearingConcat(es, more);
    RestHasRunEverything(threadCount, clientCount, es + more);
  }

  lemma RestIsEmpty<T>(threadCount: nat, clientCount: nat, es: seq<Event<T>>)
    requires threadCount < U32 && Runs(Fresh<T>(threadCount, clientCount), es) && NoClearing(es)
    requires AtRest(Exec(Fresh<T>(threadCount, clientCount), es))
    ensures var s := Exec(Fresh<T>(threadCount, clientCount), es);
            forall q | 0 <= q < |s.queues| :: s.queues[q].items == []
  {
    var s0 := Fresh<T>(threadCount, clientCount);
    FreshInv<T>(threadCount, clientCount);
    RunKeepsInv(s0, es);
    ExitOnlyAfterClear(s0, es);
    NothingCancelled(threadCount, clientCount, es);
    var s := Exec(s0, es);
    hide Runs, Exec, Fresh, Inv;
    forall q | 0 <= q < |s.queues| ensures s.queues[q].items == [] {
      QuietQueueIsEmpty(s, q);
    }
  }

  lemma EmptyStock<T>(s: Pool<T>)
    requires forall q | 0 <= q < |s.queues| :: s.queues[q].items == []
    ensures Queued(s) == multiset{}
  {
    UnionOfEmpties(Stocks(s));
  }

  lemma {:induction false} NoClearingDropsNothing<T>(s: Pool<T>, es: seq<Event<T>>)
    requires Runs(s, es) && NoClearing(es)
    ensures Dropped(s, es) == []
    decreases |es|
  {
    if es != [] {
      assert !es[0].ClearNext?;
      NoClearingDropsNothing(Next(s, es[0]), es[1..]);
    }
  }
}
