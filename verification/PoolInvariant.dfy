/**
  What every step of the pool keeps, and the theorem that no task is stranded: when all workers
  sleep and no notification is on its way, every queue is empty.
*/
module PoolInvariant {
  import opened Tickets
  import opened Counting
  import opened Pool
  import M = Monitor

  // ---------------------------------------------------------------- threads and queues agree

  ghost predicate WaitsAt<T>(s: Pool<T>, q: nat, t: nat)
    requires 0 < |s.queues|
  {
    t < |s.workers| && s.workers[t].Waiting? && Home(s, s.workers[t].ticket) == q
  }

  ghost predicate ClientAt<T>(s: Pool<T>, p: Client<T>, t: nat) {
    |s.queues| <= t < |s.queues| + |s.clients| && s.clients[t - |s.queues|] == p
  }

  /** Thread `t` stands in the books of queue `q` exactly as its program point says. */
  ghost predicate Fits<T>(s: Pool<T>, q: nat, t: nat)
    requires q < |s.queues|
  {
    var m := s.queues[q];
    && (M.InWait(m, t) <==> WaitsAt(s, q, t))
    && (t in m.oneDue <==> ClientAt(s, NotifyingOne(q), t))
    && (t in m.allDue <==> ClientAt(s, NotifyingAll(q), t))
  }

  ghost predicate Shape<T>(s: Pool<T>) {
    && 0 < |s.queues| == |s.workers| < U32
    && (forall w | 0 <= w < |s.workers| :: s.workers[w].Probing? ==> s.workers[w].n < |s.queues|)
    && (forall c | 0 <= c < |s.clients| :: ClientShape(s, s.clients[c]))
    && s.pushIndex < U32
  }

  ghost predicate ClientShape<T>(s: Pool<T>, p: Client<T>) {
    match p
    case Idle => true
    case Pushing(_, index, n) => index < U32 && n < U32 && (4 * |s.queues| < U32 ==> n <= 4 * |s.queues|)
    case NotifyingOne(q) => q < |s.queues|
    case Clearing(q) => q < |s.queues| && ClearedBelow(s, q)
    case NotifyingAll(q) => q < |s.queues| && ClearedBelow(s, q) && s.queues[q].cancelled
  }

  /** Queue `q` has been cleared and its sleepers have been woken. */
  ghost predicate Cleared<T>(s: Pool<T>, q: nat)
    requires q < |s.queues|
  {
    s.queues[q].cancelled && s.queues[q].waiting == {}
  }

  ghost predicate ClearedBelow<T>(s: Pool<T>, bound: nat)
    requires bound <= |s.queues|
  {
    forall q: nat | q < bound :: Cleared(s, q)
  }

  // ---------------------------------------------------------------- tickets

  predicate HasTicket<T>(p: Worker<T>) {
    !p.Starting? && !p.Exited?
  }

  ghost function Started<T>(s: Pool<T>): set<nat> {
    set w | 0 <= w < |s.workers| && !s.workers[w].Starting?
  }

  ghost predicate TicketsDistinct<T>(s: Pool<T>) {
    && s.popIndex == |Started(s)|
    && (forall w | 0 <= w < |s.workers| :: HasTicket(s.workers[w]) ==> s.workers[w].ticket < s.popIndex)
    && (forall v, w | 0 <= v < w < |s.workers| ::
          HasTicket(s.workers[v]) && HasTicket(s.workers[w]) ==> s.workers[v].ticket != s.workers[w].ticket)
  }

  ghost predicate Monitors<T>(s: Pool<T>) {
    forall q | 0 <= q < |s.queues| :: M.Inv(s.queues[q])
  }

  ghost predicate Booked<T>(s: Pool<T>) {
    forall q: nat, t: nat | q < |s.queues| :: Fits(s, q, t)
  }

  ghost predicate Inv<T>(s: Pool<T>) {
    Shape(s) && TicketsDistinct(s) && Monitors(s) && Booked(s)
  }

  // ---------------------------------------------------------------- the invariant is inductive

  lemma FreshInv<T>(threadCount: nat, clientCount: nat)
    requires threadCount < U32
    ensures Inv(Fresh<T>(threadCount, clientCount))
  {
    var s := Fresh<T>(threadCount, clientCount);
    assert Started(s) == {};
    forall q | 0 <= q < |s.queues| ensures M.Inv(s.queues[q]) {
      M.FreshInv<T>();
    }
  }

  lemma StepKeepsCleared<T>(s: Pool<T>, e: Event<T>, q: nat)
    requires Enabled(s, e) && q < |s.queues|
    ensures s.queues[q].cancelled ==> Next(s, e).queues[q].cancelled
    ensures Cleared(s, q) ==> Cleared(Next(s, e), q)
  {
  }

  lemma StepKeepsClientShape<T>(s: Pool<T>, e: Event<T>, c: nat)
    requires Enabled(s, e) && Shape(s) && c < |s.clients|
    ensures ClientShape(Next(s, e), Next(s, e).clients[c])
  {
    var s' := Next(s, e);
    forall q: nat | q < |s.queues| ensures Cleared(s, q) ==> Cleared(s', q) {
      StepKeepsCleared(s, e, q);
    }
    var p := s.clients[c];
    assert ClientShape(s, p);
    if p.NotifyingAll? {
      StepKeepsCleared(s, e, p.q);
    }
  }

  lemma StepKeepsShape<T>(s: Pool<T>, e: Event<T>)
    requires Enabled(s, e) && Shape(s)
    ensures Shape(Next(s, e))
  {
    var s' := Next(s, e);
    forall c | 0 <= c < |s'.clients| ensures ClientShape(s', s'.clients[c]) {
      StepKeepsClientShape(s, e, c);
    }
  }

  lemma QueuesAfterStep<T>(s: Pool<T>, e: Event<T>)
    requires Enabled(s, e)
    ensures TouchOf(s, e).Untouched? ==> Next(s, e).queues == s.queues
    ensures TouchOf(s, e).Touches? ==>
              var Touches(q, me) := TouchOf(s, e);
              M.Enabled(s.queues[q], me) && Next(s, e).queues == s.queues[q := M.Next(s.queues[q], me)]
  {
  }

  lemma StepKeepsMonitors<T>(s: Pool<T>, e: Event<T>)
    requires Enabled(s, e) && Monitors(s)
    ensures Monitors(Next(s, e))
  {
    QueuesAfterStep(s, e);
    hide Next, AtPoint, M.Next, M.Enabled, M.Inv;
    match TouchOf(s, e)
    case Untouched =>
    case Touches(q, me) =>
      assert M.Inv(s.queues[q]);
      M.StepKeepsInv(s.queues[q], me);
  }

  /** A worker step leaves the notifications that are due, and everybody but the worker, where they are. */
  lemma WorkerStepFrame<T>(s: Pool<T>, e: Event<T>, q: nat, t: nat)
    requires Enabled(s, e) && ByWorker(e) && q < |s.queues|
    ensures var m, m' := s.queues[q], Next(s, e).queues[q];
            && m'.oneDue == m.oneDue && m'.allDue == m.allDue
            && (t != e.w ==> (M.InWait(m', t) <==> M.InWait(m, t)))
  {
    match TouchOf(s, e)
    case Untouched =>
    case Touches(touched, me) =>
      M.PopMovesOnlyCaller(s.queues[touched], me, t);
  }

  /** A worker is inside the wait of its queue after a step exactly if the step says so, and only at its home queue. */
  lemma WorkerWaits<T>(s: Pool<T>, e: Event<T>)
    requires Enabled(s, e) && ByWorker(e)
    ensures TouchOf(s, e).Untouched? ==> !s.workers[e.w].Waiting? && !WorkerAfter(s, e).Waiting?
    ensures TouchOf(s, e).Touches? ==>
              var Touches(q, me) := TouchOf(s, e);
              && me.t == e.w && (M.Pops(me) || me.Spurious?)
              && (WorkerAfter(s, e).Waiting? <==> me.Spurious? || M.Outcome(s.queues[q], me).Sleeps?)
              && (s.workers[e.w].Waiting? || WorkerAfter(s, e).Waiting? ==> q == Home(s, s.workers[e.w].ticket))
              && (WorkerAfter(s, e).Waiting? ==> WorkerAfter(s, e).ticket == s.workers[e.w].ticket)
  {
  }

  /** The queue that a worker step touches has the worker in its wait afterwards exactly if it waits. */
  lemma TouchedQueueFits<T>(s: Pool<T>, e: Event<T>)
    requires Enabled(s, e) && ByWorker(e) && Monitors(s) && TouchOf(s, e).Touches?
    ensures var Touches(q, me) := TouchOf(s, e);
            M.InWait(M.Next(s.queues[q], me), e.w) <==> WorkerAfter(s, e).Waiting?
  {
    var Touches(q, me) := TouchOf(s, e);
    assert M.Separate(s.queues[q]) by {
      assert M.Inv(s.queues[q]);
    }
    WorkerWaits(s, e);
    hide WorkerAfter, M.Next, M.Separate, M.Outcome;
    M.PopMovesOnlyCaller(s.queues[q], me, e.w);
  }

  /** The worker that moves waits afterwards at its home queue, or nowhere. */
  lemma MovedWorkerFits<T>(s: Pool<T>, e: Event<T>, q: nat)
    requires Enabled(s, e) && ByWorker(e) && Shape(s) && Monitors(s) && q < |s.queues| && Fits(s, q, e.w)
    ensures M.InWait(Next(s, e).queues[q], e.w) <==> WaitsAt(Next(s, e), q, e.w)
  {
    WorkerWaits(s, e);
    if TouchOf(s, e).Touches? {
      TouchedQueueFits(s, e);
    }
    hide WorkerAfter, M.Next, M.Enabled, M.InWait;
  }

  lemma OthersStay<T>(s: Pool<T>, e: Event<T>, t: nat)
    requires Enabled(s, e) && ByWorker(e)
    ensures var s' := Next(s, e);
            && s'.clients == s.clients && |s'.queues| == |s.queues| && |s'.workers| == |s.workers|
            && (t < |s.workers| && t != e.w ==> s'.workers[t] == s.workers[t])
  {
  }

  lemma WorkerStepKeepsFit<T>(s: Pool<T>, e: Event<T>, q: nat, t: nat)
    requires Enabled(s, e) && ByWorker(e) && Shape(s) && Monitors(s) && q < |s.queues| && Fits(s, q, t)
    ensures Fits(Next(s, e), q, t)
  {
    WorkerStepFrame(s, e, q, t);
    OthersStay(s, e, t);
    hide Next, Enabled, M.InWait, Shape, Monitors;
    if t == e.w {
      MovedWorkerFits(s, e, q);
    }
  }

  lemma ClientStepKeepsFit<T>(s: Pool<T>, e: Event<T>, q: nat, t: nat)
    requires Enabled(s, e) && Shape(s) && q < |s.queues| && Fits(s, q, t) && !ByWorker(e)
    ensures Fits(Next(s, e), q, t)
  {
  }

  lemma StepKeepsFit<T>(s: Pool<T>, e: Event<T>, q: nat, t: nat)
    requires Enabled(s, e) && Shape(s) && Monitors(s) && q < |s.queues| && Fits(s, q, t)
    ensures Fits(Next(s, e), q, t)
  {
    if ByWorker(e) {
      WorkerStepKeepsFit(s, e, q, t);
    } else {
      ClientStepKeepsFit(s, e, q, t);
    }
  }

  lemma StepKeepsTickets<T>(s: Pool<T>, e: Event<T>)
    requires Enabled(s, e) && Shape(s) && TicketsDistinct(s)
    ensures TicketsDistinct(Next(s, e))
  {
    StartedAfter(s, e);
    TicketsAfter(s, e);
    if e.Start? {
      SubsetSize(Started(Next(s, e)), Below(|s.workers|));
    }
    hide Next, Enabled, Started;
  }

  /** A worker keeps its ticket; the one that starts draws the next. */
  lemma TicketsAfter<T>(s: Pool<T>, e: Event<T>)
    requires Enabled(s, e)
    ensures |Next(s, e).workers| == |s.workers|
    ensures Next(s, e).popIndex == if e.Start? then Advance(s.popIndex) else s.popIndex
    ensures forall w | 0 <= w < |s.workers| && HasTicket(Next(s, e).workers[w]) ::
              if e.Start? && w == e.w then Next(s, e).workers[w].ticket == s.popIndex
              else HasTicket(s.workers[w]) && Next(s, e).workers[w].ticket == s.workers[w].ticket
  {
  }

  lemma StartedAfter<T>(s: Pool<T>, e: Event<T>)
    requires Enabled(s, e)
    ensures Started(Next(s, e)) == if e.Start? then Started(s) + {e.w} else Started(s)
    ensures e.Start? ==> e.w !in Started(s) && |Started(Next(s, e))| == |Started(s)| + 1
  {
    var workers := Next(s, e).workers;
    assert |workers| == |s.workers|;
    assert forall v | 0 <= v < |workers| :: workers[v].Starting? <==> s.workers[v].Starting? && !(e.Start? && v == e.w);
    assert e.Start? ==> e.w < |s.workers| && s.workers[e.w].Starting?;
    hide Next, Enabled;
  }

  lemma StepKeepsInv<T>(s: Pool<T>, e: Event<T>)
    requires Enabled(s, e) && Inv(s)
    ensures Inv(Next(s, e))
  {
    StepKeepsShape(s, e);
    StepKeepsTickets(s, e);
    StepKeepsMonitors(s, e);
    forall q: nat, t: nat | q < |s.queues| ensures Fits(Next(s, e), q, t) {
      StepKeepsFit(s, e, q, t);
    }
  }

  lemma {:induction false} RunKeepsInv<T>(s: Pool<T>, es: seq<Event<T>>)
    requires Runs(s, es) && Inv(s)
    ensures Inv(Exec(s, es))
    decreases |es|
  {
    if es != [] {
      StepKeepsInv(s, es[0]);
      RunKeepsInv(Next(s, es[0]), es[1..]);
    }
  }

  // ---------------------------------------------------------------- no stranded task

  ghost predicate Asleep<T>(s: Pool<T>, w: nat)
    requires 0 < |s.queues|
  {
    && w < |s.workers| && s.workers[w].Waiting?
    && w in s.queues[Home(s, s.workers[w].ticket)].waiting
  }

  lemma TicketHolder<T>(s: Pool<T>, q: nat) returns (w: nat)
    requires TicketsDistinct(s) && q < |s.workers|
    requires forall v | 0 <= v < |s.workers| :: HasTicket(s.workers[v])
    ensures s.popIndex == |s.workers|
    ensures w < |s.workers| && s.workers[w].ticket == q
  {
    assert Started(s) == Below(|s.workers|);
    var f := TicketsOf(s);
    assert Distinct(f) && forall i | 0 <= i < |f| :: f[i] < |f|;
    Pigeonhole(f, q);
    w :| 0 <= w < |f| && f[w] == q;
  }

  ghost function TicketsOf<T>(s: Pool<T>): (f: seq<nat>)
    requires forall v | 0 <= v < |s.workers| :: HasTicket(s.workers[v])
    ensures |f| == |s.workers| && forall v | 0 <= v < |f| :: HasTicket(s.workers[v]) && f[v] == s.workers[v].ticket
  {
    seq(|s.workers|, v requires 0 <= v < |s.workers| && HasTicket(s.workers[v]) => s.workers[v].ticket)
  }

  /** When every worker holds a ticket, the home queues of the workers are all the queues, each once. */
  lemma HomesAreABijection<T>(s: Pool<T>, q: nat) returns (w: nat)
    requires Inv(s) && q < |s.queues|
    requires forall v | 0 <= v < |s.workers| :: HasTicket(s.workers[v])
    ensures w < |s.workers| && Home(s, s.workers[w].ticket) == q
    ensures forall v: nat | v < |s.workers| && Home(s, s.workers[v].ticket) == q :: v == w
  {
    w := TicketHolder(s, q);
    forall v: nat | v < |s.workers| ensures Home(s, s.workers[v].ticket) == s.workers[v].ticket {
      HomeOfSmallTicket(s, s.workers[v].ticket);
    }
  }

  lemma HomeOfSmallTicket<T>(s: Pool<T>, ticket: nat)
    requires ticket < |s.queues| < U32
    ensures Home(s, ticket) == ticket
  {
    SmallMod(ticket, |s.queues|);
  }

  lemma SmallMod(x: nat, n: nat)
    requires x < n
    ensures x % n == x
  {
  }

  /**
    No stranded task: in every reachable state of a pool of any size, if all workers are asleep
    and no notification is pending, then no queue holds a task and none is cancelled.
  */
  lemma NoStrandedTask<T>(threadCount: nat, clientCount: nat, es: seq<Event<T>>)
    requires threadCount < U32 && Runs(Fresh<T>(threadCount, clientCount), es)
    ensures var s := Exec(Fresh<T>(threadCount, clientCount), es);
            && 0 < |s.queues|
            && ((forall w: nat | w < |s.workers| :: Asleep(s, w))
                && (forall c | 0 <= c < |s.clients| :: !s.clients[c].NotifyingOne? && !s.clients[c].NotifyingAll?)
                ==> forall q | 0 <= q < |s.queues| :: s.queues[q].items == [] && !s.queues[q].cancelled)
  {
    var s := Exec(Fresh<T>(threadCount, clientCount), es);
    FreshInv<T>(threadCount, clientCount);
    RunKeepsInv(Fresh<T>(threadCount, clientCount), es);
    if && (forall w: nat | w < |s.workers| :: Asleep(s, w))
       && (forall c | 0 <= c < |s.clients| :: !s.clients[c].NotifyingOne? && !s.clients[c].NotifyingAll?) {
      forall q | 0 <= q < |s.queues| ensures s.queues[q].items == [] && !s.queues[q].cancelled {
        QuietQueueIsEmpty(s, q);
      }
    }
  }

  lemma QuietQueueIsEmpty<T>(s: Pool<T>, q: nat)
    requires Inv(s) && q < |s.queues|
    requires forall w: nat | w < |s.workers| :: Asleep(s, w)
    requires forall c | 0 <= c < |s.clients| :: !s.clients[c].NotifyingOne? && !s.clients[c].NotifyingAll?
    ensures s.queues[q].items == [] && !s.queues[q].cancelled
  {
    var m := s.queues[q];
    forall v: nat | v < |s.workers| ensures HasTicket(s.workers[v]) {
      assert Asleep(s, v);
    }
    var w := HomesAreABijection(s, q);
    assert Asleep(s, w);
    assert M.Inv(m);
    forall t: nat ensures t !in m.woken && t !in m.oneDue && t !in m.allDue {
      assert Fits(s, q, t);
      assert t < |s.workers| ==> Asleep(s, t);
    }
    assert m.woken == {} && m.oneDue == {} && m.allDue == {};
  }

  // ---------------------------------------------------------------- no deadlock over queued tasks

  /** The step that a worker takes next, if it is not asleep. */
  function WorkerMove<T>(p: Worker<T>, w: nat): Event<T>
    requires !p.Exited?
  {
    match p
    case Starting => Start(w)
    case Probing(_, _) => Probe(w, true)
    case Entering(_) => Enter(w)
    case Waiting(_) => Recheck(w)
    case Running(_, _) => Finish(w)
  }

  lemma AwakeWorkerCanMove<T>(s: Pool<T>, w: nat)
    requires Inv(s) && w < |s.workers| && !s.workers[w].Exited? && !Asleep(s, w)
    ensures Enabled(s, WorkerMove(s.workers[w], w))
  {
    var e := WorkerMove(s.workers[w], w);
    match TouchOf(s, e)
    case Untouched =>
    case Touches(q, _) =>
      assert Fits(s, q, w);
  }

  lemma NotifierIsDue<T>(s: Pool<T>, c: nat)
    requires Shape(s) && Booked(s) && c < |s.clients| && s.clients[c].NotifyingOne?
    ensures s.clients[c].q < |s.queues| && ClientTid(s, c) in s.queues[s.clients[c].q].oneDue
  {
    assert ClientShape(s, s.clients[c]);
    assert Fits(s, s.clients[c].q, ClientTid(s, c));
  }

  /** A sleeping worker may wake up spuriously at any moment, and is then awake. */
  lemma SleeperMayWake<T>(s: Pool<T>, w: nat)
    requires Inv(s) && Asleep(s, w)
    ensures Enabled(s, Spurious(w)) && 0 < |Next(s, Spurious(w)).queues| && !Asleep(Next(s, Spurious(w)), w)
  {
    assert M.Inv(s.queues[Home(s, s.workers[w].ticket)]);
  }

  /** A notification that is due can be sent. */
  lemma NotifyIsReady<T>(s: Pool<T>, c: nat) returns (e: Event<T>)
    requires Inv(s) && c < |s.clients| && s.clients[c].NotifyingOne?
    ensures e.NotifyOne? && e.c == c && Enabled(s, e)
  {
    hide Shape, Booked, TicketsDistinct, Monitors;
    NotifierIsDue(s, c);
    e := NotifyOne(c, SomeOf(s.queues[s.clients[c].q].waiting));
  }

  ghost function SomeOf(ts: set<nat>): (t: nat)
    ensures ts == {} || t in ts
  {
    if ts == {} then 0 else var t :| t in ts; t
  }

  ghost predicate SomeCancelled<T>(s: Pool<T>) {
    exists q :: 0 <= q < |s.queues| && s.queues[q].cancelled
  }

  ghost predicate SomeExited<T>(s: Pool<T>) {
    exists w :: 0 <= w < |s.workers| && s.workers[w].Exited?
  }

  lemma ExitNeedsCancel<T>(s: Pool<T>, e: Event<T>, w: nat)
    requires Enabled(s, e) && w < |s.workers| && !s.workers[w].Exited? && Next(s, e).workers[w].Exited?
    ensures SomeCancelled(s)
  {
    assert s.queues[TouchOf(s, e).q].cancelled;
  }

  lemma StepKeepsCancelled<T>(s: Pool<T>, e: Event<T>)
    requires Enabled(s, e) && (SomeExited(s) ==> SomeCancelled(s))
    ensures SomeExited(Next(s, e)) ==> SomeCancelled(Next(s, e))
  {
    var s' := Next(s, e);
    if w :| 0 <= w < |s'.workers| && s'.workers[w].Exited? {
      if !s.workers[w].Exited? {
        ExitNeedsCancel(s, e, w);
      }
      var q :| 0 <= q < |s.queues| && s.queues[q].cancelled;
      StepKeepsCleared(s, e, q);
      assert s'.queues[q].cancelled;
    }
  }

  /** A worker loop ends only after some queue was cleared. */
  lemma {:induction false} ExitOnlyAfterClear<T>(s: Pool<T>, es: seq<Event<T>>)
    requires Runs(s, es) && (SomeExited(s) ==> SomeCancelled(s))
    ensures SomeExited(Exec(s, es)) ==> SomeCancelled(Exec(s, es))
    decreases |es|
  {
    if es != [] {
      StepKeepsCancelled(s, es[0]);
      ExitOnlyAfterClear(Next(s, es[0]), es[1..]);
    }
  }

  /**
    No deadlock over queued tasks: in every reachable state in which nothing was cleared and some
    queue holds a task, a worker can move or a notification can be sent, with no help from
    outside and without a spurious wakeup.
  */
  lemma QueuedTaskIsNeverStuck<T>(threadCount: nat, clientCount: nat, es: seq<Event<T>>, q: nat)
    returns (e: Event<T>)
    requires threadCount < U32 && Runs(Fresh<T>(threadCount, clientCount), es)
    requires var s := Exec(Fresh<T>(threadCount, clientCount), es);
             q < |s.queues| && s.queues[q].items != [] && !SomeCancelled(s)
    ensures Enabled(Exec(Fresh<T>(threadCount, clientCount), es), e)
    ensures e.NotifyOne? || (ByWorker(e) && !e.Spurious?)
  {
    var s0 := Fresh<T>(threadCount, clientCount);
    var s := Exec(s0, es);
    FreshInv<T>(threadCount, clientCount);
    RunKeepsInv(s0, es);
    ExitOnlyAfterClear(s0, es);
    if w: nat :| w < |s.workers| && !Asleep(s, w) {
      assert !s.workers[w].Exited?;
      AwakeWorkerCanMove(s, w);
      e := WorkerMove(s.workers[w], w);
    } else if c: nat :| c < |s.clients| && s.clients[c].NotifyingOne? {
      e := NotifyIsReady(s, c);
    } else {
      assert forall c | 0 <= c < |s.clients| :: !s.clients[c].NotifyingAll? by {
        forall c | 0 <= c < |s.clients| ensures !s.clients[c].NotifyingAll? {
          assert ClientShape(s, s.clients[c]);
        }
      }
      QuietQueueIsEmpty(s, q);
      assert false;
    }
  }
}
