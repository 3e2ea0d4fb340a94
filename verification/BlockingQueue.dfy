/** The blocking queue as an object.  Each method is one locked region, or one notification, of the queue. */
module BlockingQueue {
  import opened Monitor

  class Queue<T> {
    var isCancelled: bool
    var container: seq<T>

    // The condition variable and the calls in progress.
    var waiting: set<Tid>
    var woken: set<Tid>
    var oneDue: set<Tid>
    var allDue: set<Tid>

    function View(): Monitor<T>
      reads this
    {
      Monitor(container, isCancelled, waiting, woken, oneDue, allDue)
    }

    constructor ()
      ensures View() == Fresh()
    {
      isCancelled, container := false, [];
      waiting, woken, oneDue, allDue := {}, {}, {}, {};
    }

    /** `pop`, up to its return or its first sleep. */
    method Pop(t: Tid) returns (r: PopOutcome<T>)
      requires Idle(View(), t)
      modifies this
      ensures r == Outcome(old(View()), EnterPop(t))
      ensures View() == Next(old(View()), EnterPop(t))
    {
      if container == [] || !isCancelled {
        if container == [] && !isCancelled {
          waiting := waiting + {t};
          return Sleeps;
        }
      }
      if isCancelled {
        return Nothing;
      }
      r := PopFront();
    }

    /** The part of `pop` after a wakeup. */
    method Resume(t: Tid) returns (r: PopOutcome<T>)
      requires t in woken
      modifies this
      ensures r == Outcome(old(View()), Event.Recheck(t))
      ensures View() == Next(old(View()), Event.Recheck(t))
    {
      woken := woken - {t};
      if container == [] && !isCancelled {
        waiting := waiting + {t};
        return Sleeps;
      }
      if isCancelled {
        return Nothing;
      }
      r := PopFront();
    }

    method TryPop(t: Tid, locked: bool) returns (r: PopOutcome<T>)
      requires Idle(View(), t)
      modifies this
      ensures r == Outcome(old(View()), Event.TryPop(t, locked))
      ensures View() == Next(old(View()), Event.TryPop(t, locked))
    {
      if container == [] || !locked {
        return Nothing;
      }
      r := PopFront();
    }

    method PopFront() returns (r: PopOutcome<T>)
      requires container != []
      modifies this`container
      ensures r == Got(old(container)[0]) && container == old(container)[1..]
    {
      r := Got(container[0]);
      container := container[1..];
    }

    /** `push`, up to its notification. */
    method Push(t: Tid, item: T)
      requires Idle(View(), t)
      modifies this
      ensures View() == Next(old(View()), Event.Push(t, item))
    {
      container := container + [item];
      oneDue := oneDue + {t};
    }

    /** `try_push`, up to its notification. */
    method TryPush(t: Tid, item: T, locked: bool) returns (pushed: bool)
      requires Idle(View(), t)
      modifies this
      ensures pushed == locked
      ensures View() == Next(old(View()), Event.TryPush(t, item, locked))
    {
      if !locked {
        return false;
      }
      container := container + [item];
      oneDue := oneDue + {t};
      pushed := true;
    }

    method NotifyOne(t: Tid) returns (target: Tid)
      requires t in oneDue
      modifies this
      ensures Enabled(old(View()), Event.NotifyOne(t, target))
      ensures View() == Next(old(View()), Event.NotifyOne(t, target))
    {
      oneDue := oneDue - {t};
      target := t;
      if waiting != {} {
        target :| target in waiting;
        waiting, woken := waiting - {target}, woken + {target};
      }
    }

    /** `clear`, up to its notification. */
    method Clear(t: Tid)
      requires Idle(View(), t)
      modifies this
      ensures View() == Next(old(View()), Event.Clear(t))
    {
      isCancelled := true;
      container := [];
      allDue := allDue + {t};
    }

    method NotifyAll(t: Tid)
      requires t in allDue
      modifies this
      ensures View() == Next(old(View()), Event.NotifyAll(t))
    {
      allDue := allDue - {t};
      waiting, woken := {}, woken + waiting;
    }
  }
}
