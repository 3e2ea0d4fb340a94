/**
  `rr_scheduler` as an object.  A call runs here without interruption by other threads; which of
  its try-locks fail is an argument, and arbitrary.
*/
module RoundRobin {
  import opened Tickets
  import opened Wrappers
  import opened Dealing
  import opened BlockingQueue
  import M = Monitor

  class Scheduler<T> {
    const queues: seq<Queue<T>>
    var pushIndex: nat
    var popIndex: nat

    ghost predicate Valid()
      reads this
    {
      && 0 < |queues| < U32
      && pushIndex < U32 && popIndex < U32
      && forall i, j | 0 <= i < j < |queues| :: queues[i] != queues[j]
    }

    ghost function Contents(): (c: seq<seq<T>>)
      reads queues
      ensures |c| == |queues|
    {
      seq(|queues|, i requires 0 <= i < |queues| reads queues => queues[i].container)
    }

    /** Thread `t` is not inside any queue. */
    ghost predicate Outside(t: M.Tid)
      reads queues
    {
      forall i | 0 <= i < |queues| :: M.Idle(queues[i].View(), t)
    }

    ghost function Cancelled(): (c: seq<bool>)
      reads queues
      ensures |c| == |queues|
    {
      seq(|queues|, i requires 0 <= i < |queues| reads queues => queues[i].isCancelled)
    }

    constructor (queueCount: nat)
      requires 0 < queueCount < U32
      ensures Valid() && |queues| == queueCount
      ensures forall i | 0 <= i < queueCount :: fresh(queues[i]) && queues[i].View() == M.Fresh()
      ensures pushIndex == 0 && popIndex == 0
    {
      var made: seq<Queue<T>> := [];
      while |made| < queueCount
        invariant |made| <= queueCount
        invariant forall i | 0 <= i < |made| :: fresh(made[i]) && made[i].View() == M.Fresh()
        invariant forall i, j | 0 <= i < j < |made| :: made[i] != made[j]
      {
        var queue := new Queue<T>();
        made := made + [queue];
      }
      queues := made;
      pushIndex, popIndex := 0, 0;
    }

    /** One probe of `schedule`, with the notification that follows. */
    method TryPushAt(q: nat, t: M.Tid, task: T, locked: bool) returns (pushed: bool)
      requires Valid() && Outside(t) && q < |queues|
      modifies queues[q]
      ensures pushed == locked
      ensures Valid() && Outside(t)
      ensures Contents() == if pushed then Append(old(Contents()), q, task) else old(Contents())
      ensures Cancelled() == old(Cancelled())
    {
      pushed := queues[q].TryPush(t, task, locked);
      if pushed {
        var _ := queues[q].NotifyOne(t);
      }
      assert forall i | 0 <= i < |queues| && i != q :: queues[i].View() == old(queues[i].View());
    }

    /** The blocking push of `schedule`, with the notification that follows. */
    method PushAt(q: nat, t: M.Tid, task: T)
      requires Valid() && Outside(t) && q < |queues|
      modifies queues[q]
      ensures Valid() && Outside(t)
      ensures Contents() == Append(old(Contents()), q, task)
      ensures Cancelled() == old(Cancelled())
    {
      queues[q].Push(t, task);
      var _ := queues[q].NotifyOne(t);
      assert forall i | 0 <= i < |queues| && i != q :: queues[i].View() == old(queues[i].View());
    }

    /** `schedule`, with `locks[k]` telling whether its `k`-th attempt gets the lock, for every call that returns. */
    method Schedule(t: M.Tid, task: T, locks: seq<bool>)
      requires Valid() && Outside(t) && Returns(locks, |queues|)
      modifies this`pushIndex, queues
      ensures Valid() && Outside(t) && pushIndex == Advance(old(pushIndex))
      ensures Contents() == Append(old(Contents()), Target(old(pushIndex), locks, |queues|), task)
      ensures Cancelled() == old(Cancelled())
    {
      var index := pushIndex;
      pushIndex := Advance(pushIndex);
      var n, k := 0, 0;
      while n != 4 * |queues|
        invariant k <= |locks| && n == Wrap(k)
        invariant FirstLocked(locks, k) == FirstLocked(locks, 0)
        invariant Outside(t) && Contents() == old(Contents()) && Cancelled() == old(Cancelled())
        invariant Valid() && pushIndex == Advance(old(pushIndex))
        decreases |locks| - k
      {
        WrappedProbe(index, k, |queues|);
        var pushed := TryPushAt(Slot(index, n, |queues|), t, task, locks[k]);
        if pushed {
          return;
        }
        WrapSucc(k);
        n, k := Wrap(n + 1), k + 1;
      }
      PushAt(Slot(index, 0, |queues|), t, task);
    }

    /** The first call of `scheduled` on a thread draws the ticket of that thread. */
    method DrawTicket() returns (ticket: nat)
      requires Valid()
      modifies this`popIndex
      ensures Valid() && ticket == old(popIndex) && popIndex == Advance(ticket)
    {
      ticket := popIndex;
      popIndex := Advance(popIndex);
    }

    /** One probe of `scheduled`. */
    method TryPopAt(q: nat, t: M.Tid, locked: bool) returns (r: M.PopOutcome<T>)
      requires Valid() && Outside(t) && q < |queues|
      modifies queues[q]
      ensures Valid() && Outside(t) && Cancelled() == old(Cancelled())
      ensures if locked && old(Contents())[q] != []
              then r == M.Got(old(Contents())[q][0]) && Contents() == Behead(old(Contents()), q)
              else r == M.Nothing && Contents() == old(Contents())
    {
      r := queues[q].TryPop(t, locked);
      assert forall i | 0 <= i < |queues| && i != q :: queues[i].View() == old(queues[i].View());
    }

    /** The blocking pop of `scheduled`, up to its return or its first sleep. */
    method PopAt(q: nat, t: M.Tid) returns (r: M.PopOutcome<T>)
      requires Valid() && Outside(t) && q < |queues|
      modifies queues[q]
      ensures Valid() && Cancelled() == old(Cancelled())
      ensures !r.Sleeps? ==> Outside(t)
      ensures if Cancelled()[q] then
                r == M.Nothing && Contents() == old(Contents())
              else if old(Contents())[q] == [] then
                r == M.Sleeps && Contents() == old(Contents()) && t in queues[q].waiting
              else
                r == M.Got(old(Contents())[q][0]) && Contents() == Behead(old(Contents()), q)
    {
      r := queues[q].Pop(t);
      assert forall i | 0 <= i < |queues| && i != q :: queues[i].View() == old(queues[i].View());
    }

    /** `scheduled`, up to its return or its first sleep in the blocking pop. */
    method Scheduled(t: M.Tid, ticket: nat, locks: seq<bool>) returns (r: M.PopOutcome<T>)
      requires Valid() && Outside(t) && |locks| == |queues|
      modifies queues
      ensures Valid() && Cancelled() == old(Cancelled())
      ensures !r.Sleeps? ==> Outside(t)
      ensures var k := FirstHit(old(Contents()), ticket, locks, 0);
              var home := Slot(ticket, 0, |queues|);
              if k < |queues| then
                var q := Slot(ticket, k, |queues|);
                r == M.Got(old(Contents())[q][0]) && Contents() == Behead(old(Contents()), q)
              else if Cancelled()[home] then
                r == M.Nothing && Contents() == old(Contents())
              else if old(Contents())[home] == [] then
                r == M.Sleeps && Contents() == old(Contents()) && t in queues[home].waiting
              else
                r == M.Got(old(Contents())[home][0]) && Contents() == Behead(old(Contents()), home)
    {
      var n := 0;
      while n != |queues|
        invariant n <= |queues|
        invariant FirstHit(old(Contents()), ticket, locks, n) == FirstHit(old(Contents()), ticket, locks, 0)
        invariant Outside(t) && Contents() == old(Contents()) && Cancelled() == old(Cancelled())
        invariant Valid()
        decreases |queues| - n
      {
        r := TryPopAt(Slot(ticket, n, |queues|), t, locks[n]);
        if r.Got? {
          return;
        }
        n := n + 1;
      }
      r := PopAt(Slot(ticket, 0, |queues|), t);
    }

    /** `clear`: every queue is emptied and cancelled, and everybody asleep is woken. */
    method Clear(t: M.Tid)
      requires Valid() && Outside(t)
      modifies queues
      ensures Valid() && Outside(t)
      ensures forall i | 0 <= i < |queues| :: queues[i].View() == M.AfterClear(old(queues[i].View()))
    {
      for i := 0 to |queues|
        invariant Valid() && Outside(t)
        invariant forall j | i <= j < |queues| :: queues[j].View() == old(queues[j].View())
        invariant forall j | 0 <= j < i :: queues[j].View() == M.AfterClear(old(queues[j].View()))
      {
        queues[i].Clear(t);
        queues[i].NotifyAll(t);
        assert queues[i].View() == M.AfterClear(old(queues[i].View()));
      }
    }
  }

  /** Building a scheduler without queues is rejected. */
  method MakeScheduler<T>(queueCount: nat) returns (r: Option<Scheduler<T>>)
    requires queueCount < U32
    ensures r.None? <==> queueCount == 0
    ensures r.Some? ==> r.value.Valid() && fresh(r.value) && |r.value.queues| == queueCount
    ensures r.Some? ==> forall i | 0 <= i < queueCount :: r.value.queues[i].View() == M.Fresh()
  {
    if queueCount == 0 {
      r := None;
    } else {
      var scheduler := new Scheduler<T>(queueCount);
      r := Some(scheduler);
    }
  }
}
