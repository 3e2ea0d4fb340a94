/**
  The thread pool as a step machine over every interleaving: N workers running the loop of
  `thread_pool::run` on top of `rr_scheduler::scheduled`, and any number of clients calling
  `rr_scheduler::schedule` and `rr_scheduler::clear`.  Each step is one atomic action of one
  thread; a step that touches a queue is a step of that queue's monitor.  A schedule call made
  from inside a task is a client of its own.
*/
module Pool {
  import opened Tickets
  import M = Monitor

  datatype Worker<T> =
    | Starting                         // before its first `scheduled`, which draws the ticket
    | Probing(ticket: nat, n: nat)     // about to try_pop its n-th queue
    | Entering(ticket: nat)            // about to call `pop` on its home queue
    | Waiting(ticket: nat)             // inside the wait of that `pop`
    | Running(ticket: nat, task: T)
    | Exited

  datatype Client<T> =
    | Idle
    | Pushing(task: T, index: nat, n: nat)  // about to make probe n of `schedule`
    | NotifyingOne(q: nat)
    | Clearing(q: nat)                      // about to clear queue q
    | NotifyingAll(q: nat)

  datatype Pool<T> = Pool(
    queues: seq<M.Monitor<T>>,
    workers: seq<Worker<T>>,
    clients: seq<Client<T>>,
    pushIndex: nat,
    popIndex: nat
  )

  datatype Event<T> =
    | Start(w: nat)
    | Probe(w: nat, locked: bool)
    | Enter(w: nat)
    | Recheck(w: nat)
    | Spurious(w: nat)
    | Finish(w: nat)
    | BeginSchedule(c: nat, task: T)
    | ProbePush(c: nat, locked: bool)
    | PushHome(c: nat)
    | NotifyOne(c: nat, target: nat)
    | BeginClear(c: nat)
    | ClearNext(c: nat)
    | NotifyAll(c: nat)

  datatype Touch<T> = Untouched | Touches(q: nat, e: M.Event<T>)

  predicate ByWorker<T>(e: Event<T>) {
    e.Start? || e.Probe? || e.Enter? || e.Recheck? || e.Spurious? || e.Finish?
  }

  /** `thread_pool{threadCount}` with its scheduler, and `clientCount` threads that may call in. */
  function Fresh<T>(threadCount: nat, clientCount: nat): Pool<T> {
    var n := if threadCount == 0 then 1 else threadCount;
    Pool(seq(n, _ => M.Fresh<T>()), seq(n, _ => Starting), seq(clientCount, _ => Idle), 0, 0)
  }

  function Home<T>(s: Pool<T>, ticket: nat): nat
    requires 0 < |s.queues|
  {
    Slot(ticket, 0, |s.queues|)
  }

  /** The thread identity of client `c`; worker `w` is thread `w`. */
  function ClientTid<T>(s: Pool<T>, c: nat): nat {
    |s.queues| + c
  }

  /** The thread is at the program point from which this event continues. */
  predicate AtPoint<T>(s: Pool<T>, e: Event<T>) {
    if ByWorker(e) then
      e.w < |s.workers| && var p := s.workers[e.w];
      match e
      case Start(_) => p.Starting?
      case Probe(_, _) => p.Probing?
      case Enter(_) => p.Entering?
      case Recheck(_) => p.Waiting?
      case Spurious(_) => p.Waiting?
      case Finish(_) => p.Running?
    else
      e.c < |s.clients| && var p := s.clients[e.c];
      match e
      case BeginSchedule(_, _) => p.Idle?
      case ProbePush(_, _) => p.Pushing? && p.n != 4 * |s.queues|
      case PushHome(_) => p.Pushing? && p.n == 4 * |s.queues|
      case NotifyOne(_, _) => p.NotifyingOne? && p.q < |s.queues|
      case BeginClear(_) => p.Idle?
      case ClearNext(_) => p.Clearing? && p.q < |s.queues|
      case NotifyAll(_) => p.NotifyingAll? && p.q < |s.queues|
  }

  /** The queue step that this event performs, if any. */
  function TouchOf<T>(s: Pool<T>, e: Event<T>): (r: Touch<T>)
    requires 0 < |s.queues| && AtPoint(s, e)
    ensures r.Touches? ==> r.q < |s.queues|
  {
    var count := |s.queues|;
    match e
    case Probe(w, locked) => Touches(Slot(s.workers[w].ticket, s.workers[w].n, count), M.TryPop(w, locked))
    case Enter(w) => Touches(Home(s, s.workers[w].ticket), M.EnterPop(w))
    case Recheck(w) => Touches(Home(s, s.workers[w].ticket), M.Recheck(w))
    case Spurious(w) => Touches(Home(s, s.workers[w].ticket), M.Spurious(w))
    case ProbePush(c, locked) =>
      Touches(Slot(s.clients[c].index, s.clients[c].n, count), M.TryPush(ClientTid(s, c), s.clients[c].task, locked))
    case PushHome(c) => Touches(Home(s, s.clients[c].index), M.Push(ClientTid(s, c), s.clients[c].task))
    case NotifyOne(c, target) => Touches(s.clients[c].q, M.NotifyOne(ClientTid(s, c), target))
    case ClearNext(c) => Touches(s.clients[c].q, M.Clear(ClientTid(s, c)))
    case NotifyAll(c) => Touches(s.clients[c].q, M.NotifyAll(ClientTid(s, c)))
    case _ => Untouched
  }

  predicate Enabled<T>(s: Pool<T>, e: Event<T>) {
    && 0 < |s.queues|
    && AtPoint(s, e)
    && var touch := TouchOf(s, e);
       touch.Touches? ==> M.Enabled(s.queues[touch.q], touch.e)
  }

  /** What a popping worker is told at this event. */
  function Answer<T>(s: Pool<T>, e: Event<T>): M.PopOutcome<T>
    requires Enabled(s, e) && (e.Probe? || e.Enter? || e.Recheck?)
  {
    var touch := TouchOf(s, e);
    M.Outcome(s.queues[touch.q], touch.e)
  }

  function WorkerAfter<T>(s: Pool<T>, e: Event<T>): Worker<T>
    requires Enabled(s, e) && ByWorker(e)
  {
    var p := s.workers[e.w];
    match e
    case Start(_) => Probing(s.popIndex, 0)
    case Probe(_, _) =>
      (match Answer(s, e)
       case Got(task) => Running(p.ticket, task)
       case _ => if p.n + 1 == |s.queues| then Entering(p.ticket) else Probing(p.ticket, p.n + 1))
    case Enter(_) => AfterPop(p.ticket, Answer(s, e))
    case Recheck(_) => AfterPop(p.ticket, Answer(s, e))
    case Spurious(_) => p
    case Finish(_) => Probing(p.ticket, 0)
  }

  /** The worker loop runs the task it got, and ends when it got none. */
  function AfterPop<T>(ticket: nat, r: M.PopOutcome<T>): Worker<T> {
    match r
    case Got(task) => Running(ticket, task)
    case Nothing => Exited
    case Sleeps => Waiting(ticket)
  }

  function ClientAfter<T>(s: Pool<T>, e: Event<T>): Client<T>
    requires Enabled(s, e) && !ByWorker(e)
  {
    var p := s.clients[e.c];
    match e
    case BeginSchedule(_, task) => Pushing(task, s.pushIndex, 0)
    case ProbePush(_, locked) =>
      if locked then NotifyingOne(TouchOf(s, e).q) else Pushing(p.task, p.index, Wrap(p.n + 1))
    case PushHome(_) => NotifyingOne(TouchOf(s, e).q)
    case NotifyOne(_, _) => Idle
    case BeginClear(_) => Clearing(0)
    case ClearNext(_) => NotifyingAll(p.q)
    case NotifyAll(_) => if p.q + 1 == |s.queues| then Idle else Clearing(p.q + 1)
  }

  function QueuesAfter<T>(s: Pool<T>, e: Event<T>): (qs: seq<M.Monitor<T>>)
    requires Enabled(s, e)
    ensures |qs| == |s.queues|
  {
    match TouchOf(s, e)
    case Untouched => s.queues
    case Touches(q, me) => s.queues[q := M.Next(s.queues[q], me)]
  }

  function Next<T>(s: Pool<T>, e: Event<T>): Pool<T>
    requires Enabled(s, e)
  {
    if ByWorker(e) then
      s.(queues := QueuesAfter(s, e),
         workers := s.workers[e.w := WorkerAfter(s, e)],
         popIndex := if e.Start? then Advance(s.popIndex) else s.popIndex)
    else
      s.(queues := QueuesAfter(s, e),
         clients := s.clients[e.c := ClientAfter(s, e)],
         pushIndex := if e.BeginSchedule? then Advance(s.pushIndex) else s.pushIndex)
  }

  predicate Runs<T>(s: Pool<T>, es: seq<Event<T>>)
    decreases |es|
  {
    es == [] || (Enabled(s, es[0]) && Runs(Next(s, es[0]), es[1..]))
  }

  function Exec<T>(s: Pool<T>, es: seq<Event<T>>): Pool<T>
    requires Runs(s, es)
    decreases |es|
  {
    if es == [] then s else Exec(Next(s, es[0]), es[1..])
  }

  lemma {:induction false} RunsConcat<T>(s: Pool<T>, a: seq<Event<T>>, b: seq<Event<T>>)
    requires Runs(s, a) && Runs(Exec(s, a), b)
    ensures Runs(s, a + b) && Exec(s, a + b) == Exec(Exec(s, a), b)
    decreases |a|
  {
    hide Next, Enabled;
    if a == [] {
      assert a + b == b;
    } else {
      RunsConcat(Next(s, a[0]), a[1..], b);
      assert (a + b)[1..] == a[1..] + b;
    }
  }

  lemma {:induction false} RunKeepsSize<T>(s: Pool<T>, es: seq<Event<T>>)
    requires Runs(s, es)
    ensures |Exec(s, es).queues| == |s.queues|
    decreases |es|
  {
    if es != [] {
      RunKeepsSize(Next(s, es[0]), es[1..]);
    }
  }
}
