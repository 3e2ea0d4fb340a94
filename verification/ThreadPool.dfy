/** `thread_pool` as an object: its construction, and a worker loop or a series of callers that nobody disturbs. */
module ThreadPool {
  import opened Tickets
  import opened Dealing
  import opened RoundRobin
  import M = Monitor
  import P = Pool

  class Pool<T> {
    const threadCount: nat
    const scheduler: Scheduler<T>

    ghost predicate Valid()
      reads this, scheduler
    {
      scheduler.Valid() && |scheduler.queues| == threadCount
    }

    /** The machine of `clients` callers starts in the state of this object: its queues, a worker for each, and both indices. */
    ghost predicate StartsAs(s: P.Pool<T>, clients: nat)
      reads this, scheduler, scheduler.queues
    {
      && |s.queues| == |s.workers| == threadCount == |scheduler.queues| && |s.clients| == clients
      && (forall i | 0 <= i < threadCount :: s.queues[i] == scheduler.queues[i].View() && s.workers[i] == P.Starting)
      && (forall c | 0 <= c < clients :: s.clients[c] == P.Idle)
      && s.pushIndex == scheduler.pushIndex && s.popIndex == scheduler.popIndex
    }

    /** At least one thread, and as many queues as threads. */
    constructor (requested: nat)
      requires requested < U32
      ensures Valid() && fresh(scheduler) && threadCount == (if requested == 0 then 1 else requested)
      ensures scheduler.pushIndex == 0 && scheduler.popIndex == 0
      ensures forall i | 0 <= i < threadCount :: fresh(scheduler.queues[i]) && scheduler.queues[i].View() == M.Fresh()
      ensures forall clients: nat :: StartsAs(P.Fresh<T>(requested, clients), clients)
    {
      var count := if requested == 0 then 1 else requested;
      threadCount := count;
      scheduler := new Scheduler<T>(count);
      new;
    }

    /** One uncontended round of the worker loop: the front of the drain, or the end of it. */
    method NextTask(t: M.Tid, ticket: nat) returns (r: M.PopOutcome<T>)
      requires Valid() && scheduler.Outside(t)
      modifies scheduler.queues
      ensures Valid() && scheduler.Cancelled() == old(scheduler.Cancelled())
      ensures !r.Sleeps? ==> scheduler.Outside(t)
      ensures var before, after := old(scheduler.Contents()), scheduler.Contents();
              && Emptied(after, ticket, 0) == Emptied(before, ticket, 0)
              && if Drain(before, ticket, 0) == [] then
                   && after == before == Emptied(before, ticket, 0)
                   && r == if scheduler.Cancelled()[Slot(ticket, 0, threadCount)] then M.Nothing else M.Sleeps
                 else
                   r.Got? && Drain(before, ticket, 0) == [r.item] + Drain(after, ticket, 0)
    {
      var locks := seq(threadCount, _ => true);
      ghost var before := scheduler.Contents();
      ghost var k := FirstHit(before, ticket, locks, 0);
      if k < threadCount {
        DrainTakesFirst(before, ticket, 0, k);
      } else {
        DrainOfNothing(before, ticket, 0);
        assert before[Slot(ticket, 0, threadCount)] == [];
      }
      r := scheduler.Scheduled(t, ticket, locks);
    }

    /** The worker loop of a thread that holds `ticket`. */
    method Loop(t: M.Tid, ticket: nat) returns (ran: seq<T>, last: M.PopOutcome<T>)
      requires Valid() && scheduler.Outside(t)
      modifies scheduler.queues
      ensures Valid()
      ensures ran == Drain(old(scheduler.Contents()), ticket, 0)
      ensures scheduler.Contents() == Emptied(old(scheduler.Contents()), ticket, 0)
      ensures last == if old(scheduler.Cancelled())[Slot(ticket, 0, threadCount)] then M.Nothing else M.Sleeps
    {
      ghost var total := Drain(scheduler.Contents(), ticket, 0);
      ghost var end := Emptied(scheduler.Contents(), ticket, 0);
      ran := [];
      var task := NextTask(t, ticket);
      ghost var left := Drain(scheduler.Contents(), ticket, 0);
      while task.Got?
        invariant Valid() && scheduler.Cancelled() == old(scheduler.Cancelled())
        invariant !task.Sleeps? ==> scheduler.Outside(t)
        invariant left == Drain(scheduler.Contents(), ticket, 0) && Emptied(scheduler.Contents(), ticket, 0) == end
        invariant task.Got? ==> total == ran + ([task.item] + left)
        invariant !task.Got? ==>
                    && total == ran
                    && scheduler.Contents() == end
                    && task == if scheduler.Cancelled()[Slot(ticket, 0, threadCount)] then M.Nothing else M.Sleeps
        decreases |left|, task.Got?
      {
        assert ran + ([task.item] + left) == (ran + [task.item]) + left;
        ran := ran + [task.item];
        task := NextTask(t, ticket);
        left := Drain(scheduler.Contents(), ticket, 0);
      }
      last := task;
    }

    /**
      The worker thread.  Undisturbed, it runs every task that its probes can reach, each once and
      first in first out per queue, and stops only when nothing is left: it ends if its home queue
      is cancelled, and sleeps there otherwise.  If its round goes around the ring, it runs all
      tasks, from its home queue to the next and so on.
    */
    method Run(t: M.Tid) returns (ran: seq<T>, last: M.PopOutcome<T>)
      requires Valid() && scheduler.Outside(t)
      modifies scheduler`popIndex, scheduler.queues
      ensures Valid()
      ensures ran == Drain(old(scheduler.Contents()), old(scheduler.popIndex), 0)
      ensures scheduler.Contents() == Emptied(old(scheduler.Contents()), old(scheduler.popIndex), 0)
      ensures Rotates(old(scheduler.popIndex), threadCount) ==>
                && ran == InRotation(old(scheduler.Contents()), Slot(old(scheduler.popIndex), 0, threadCount), 0)
                && forall q | 0 <= q < threadCount :: scheduler.Contents()[q] == []
      ensures last == if old(scheduler.Cancelled())[Slot(old(scheduler.popIndex), 0, threadCount)] then M.Nothing else M.Sleeps
    {
      if Rotates(scheduler.popIndex, threadCount) {
        RotationDrainsAll(scheduler.Contents(), scheduler.popIndex);
      }
      var ticket := scheduler.DrawTicket();
      ran, last := Loop(t, ticket);
    }

    /** One schedule call that gets its first lock. */
    method ScheduleOne(t: M.Tid, task: T)
      requires Valid() && scheduler.Outside(t)
      modifies scheduler`pushIndex, scheduler.queues
      ensures Valid() && scheduler.Outside(t) && scheduler.pushIndex == Advance(old(scheduler.pushIndex))
      ensures scheduler.Contents() == Append(old(scheduler.Contents()), Slot(old(scheduler.pushIndex), 0, threadCount), task)
    {
      UncontendedTarget(scheduler.pushIndex, threadCount);
      scheduler.Schedule(t, task, Uncontended(threadCount));
    }

    /** A series of uncontended schedule calls deals the tasks round robin. */
    method ScheduleAll(t: M.Tid, tasks: seq<T>)
      requires Valid() && scheduler.Outside(t)
      modifies scheduler`pushIndex, scheduler.queues
      ensures Valid() && scheduler.Outside(t)
      ensures forall q | 0 <= q < threadCount ::
                scheduler.Contents()[q]
                  == old(scheduler.Contents())[q] + Dealt(tasks, old(scheduler.pushIndex), threadCount, q)
    {
      ghost var start := scheduler.Contents();
      ghost var ticket := scheduler.pushIndex;
      var i := 0;
      while i < |tasks|
        invariant i <= |tasks| && Valid() && scheduler.Outside(t)
        invariant forall q | 0 <= q < threadCount ::
                    start[q] + Dealt(tasks, ticket, threadCount, q)
                      == scheduler.Contents()[q] + Dealt(tasks[i..], scheduler.pushIndex, threadCount, q)
      {
        ghost var before := scheduler.Contents();
        ghost var index := scheduler.pushIndex;
        ScheduleOne(t, tasks[i]);
        assert tasks[i..][1..] == tasks[i + 1..];
        forall q | 0 <= q < threadCount
          ensures start[q] + Dealt(tasks, ticket, threadCount, q)
               == scheduler.Contents()[q] + Dealt(tasks[i + 1..], scheduler.pushIndex, threadCount, q)
        {
          DealOne(tasks[i..], index, threadCount, q, before[q]);
        }
        i := i + 1;
      }
    }
  }

  /**
    Tasks scheduled one after the other into a fresh pool: queue `i` holds every task whose number
    is congruent to `i`, in order, and no queue is ahead of another by more than one.
  */
  method Deal<T>(requested: nat, t: M.Tid, tasks: seq<T>) returns (pool: Pool<T>)
    requires requested < U32
    ensures fresh(pool) && pool.Valid() && pool.threadCount == (if requested == 0 then 1 else requested)
    ensures |tasks| <= U32 || U32 % pool.threadCount == 0 ==>
              && (forall q | 0 <= q < pool.threadCount ::
                    pool.scheduler.Contents()[q] == Residue(tasks, 0, pool.threadCount, q))
              && (forall p, q | 0 <= p < pool.threadCount && 0 <= q < pool.threadCount ::
                    |pool.scheduler.Contents()[p]| <= |pool.scheduler.Contents()[q]| + 1)
  {
    pool := new Pool<T>(requested);
    assert forall q | 0 <= q < pool.threadCount :: pool.scheduler.queues[q].View().items == [];
    pool.ScheduleAll(t, tasks);
    if |tasks| <= U32 || U32 % pool.threadCount == 0 {
      FreshDeal(tasks, pool.threadCount);
    }
  }

  lemma DealOne<T>(tasks: seq<T>, ticket: nat, count: nat, q: nat, held: seq<T>)
    requires 0 < count && tasks != []
    ensures held + Dealt(tasks, ticket, count, q)
         == (if q == Slot(ticket, 0, count) then held + [tasks[0]] else held) + Dealt(tasks[1..], Advance(ticket), count, q)
  {
  }
}
