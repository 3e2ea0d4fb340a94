/**
  The blocking queue as a step machine.  Every region that the queue runs under its mutex is one
  step; `notify_one` and `notify_all` are later steps of the same thread, because the queue
  notifies after it has unlocked.  The failure of a try-lock, the choice of the thread that a
  notification wakes and spurious wakeups are part of the event, so a run is any sequence of
  enabled events.
*/
module Monitor {

  type Tid = nat

  datatype Monitor<T> = Monitor(
    items: seq<T>,
    cancelled: bool,
    waiting: set<Tid>,  // asleep in the condition variable
    woken: set<Tid>,    // left the condition variable, has not yet rechecked the predicate
    oneDue: set<Tid>,   // pushed and unlocked, has not yet called notify_one
    allDue: set<Tid>    // cleared and unlocked, has not yet called notify_all
  )

  datatype Event<T> =
    | Push(t: Tid, item: T)
    | TryPush(t: Tid, item: T, locked: bool)
    | NotifyOne(t: Tid, target: Tid)
    | TryPop(t: Tid, locked: bool)
    | EnterPop(t: Tid)
    | Recheck(t: Tid)
    | Spurious(t: Tid)
    | Clear(t: Tid)
    | NotifyAll(t: Tid)

  /** What a pop does at one step: it returns an item, returns nothing, or goes to sleep. */
  datatype PopOutcome<T> = Got(item: T) | Nothing | Sleeps

  function Fresh<T>(): Monitor<T> {
    Monitor([], false, {}, {}, {}, {})
  }

  predicate Idle<T>(m: Monitor<T>, t: Tid) {
    t !in m.waiting && t !in m.woken && t !in m.oneDue && t !in m.allDue
  }

  predicate Enabled<T>(m: Monitor<T>, e: Event<T>) {
    match e
    case Push(t, _) => Idle(m, t)
    case TryPush(t, _, _) => Idle(m, t)
    case NotifyOne(t, target) => t in m.oneDue && (m.waiting == {} || target in m.waiting)
    case TryPop(t, _) => Idle(m, t)
    case EnterPop(t) => Idle(m, t)
    case Recheck(t) => t in m.woken
    case Spurious(t) => t in m.waiting
    case Clear(t) => Idle(m, t)
    case NotifyAll(t) => t in m.allDue
  }

  /** The predicate that `pop` hands to the condition variable. */
  predicate Ready<T>(m: Monitor<T>) {
    m.items != [] || m.cancelled
  }

  /** `pop` once it holds the lock and its predicate, if it was tested, is true. */
  function AfterWait<T>(m: Monitor<T>): PopOutcome<T>
    requires Ready(m)
  {
    if m.cancelled then Nothing else Got(m.items[0])
  }

  /** The first locked region of `pop`: the wait is skipped when an item is there and the queue is cancelled. */
  function EnterOutcome<T>(m: Monitor<T>): PopOutcome<T> {
    if m.items == [] || !m.cancelled then
      if Ready(m) then AfterWait(m) else Sleeps
    else
      AfterWait(m)
  }

  /** A woken thread evaluates the predicate again under the lock. */
  function RecheckOutcome<T>(m: Monitor<T>): PopOutcome<T> {
    if Ready(m) then AfterWait(m) else Sleeps
  }

  function TryPopOutcome<T>(m: Monitor<T>, locked: bool): PopOutcome<T> {
    if m.items == [] || !locked then Nothing else Got(m.items[0])
  }

  predicate Pops<T>(e: Event<T>) {
    e.EnterPop? || e.Recheck? || e.TryPop?
  }

  /** What the popping thread sees at this event. */
  function Outcome<T>(m: Monitor<T>, e: Event<T>): PopOutcome<T>
    requires Pops(e)
  {
    match e
    case EnterPop(_) => EnterOutcome(m)
    case Recheck(_) => RecheckOutcome(m)
    case TryPop(_, locked) => TryPopOutcome(m, locked)
  }

  function Next<T>(m: Monitor<T>, e: Event<T>): Monitor<T>
    requires Enabled(m, e)
  {
    match e
    case Push(t, item) =>
      m.(items := m.items + [item], oneDue := m.oneDue + {t})
    case TryPush(t, item, locked) =>
      if locked then m.(items := m.items + [item], oneDue := m.oneDue + {t}) else m
    case NotifyOne(t, target) =>
      if m.waiting == {} then m.(oneDue := m.oneDue - {t})
      else m.(oneDue := m.oneDue - {t}, waiting := m.waiting - {target}, woken := m.woken + {target})
    case TryPop(t, locked) =>
      if TryPopOutcome(m, locked).Got? then m.(items := m.items[1..]) else m
    case EnterPop(t) =>
      (match EnterOutcome(m)
       case Got(_) => m.(items := m.items[1..])
       case Nothing => m
       case Sleeps => m.(waiting := m.waiting + {t}))
    case Recheck(t) =>
      (match RecheckOutcome(m)
       case Got(_) => m.(items := m.items[1..], woken := m.woken - {t})
       case Nothing => m.(woken := m.woken - {t})
       case Sleeps => m.(woken := m.woken - {t}, waiting := m.waiting + {t}))
    case Spurious(t) =>
      m.(waiting := m.waiting - {t}, woken := m.woken + {t})
    case Clear(t) =>
      m.(cancelled := true, items := [], allDue := m.allDue + {t})
    case NotifyAll(t) =>
      m.(allDue := m.allDue - {t}, woken := m.woken + m.waiting, waiting := {})
  }

  // ---------------------------------------------------------------- runs

  predicate Runs<T>(m: Monitor<T>, es: seq<Event<T>>)
    decreases |es|
  {
    es == [] || (Enabled(m, es[0]) && Runs(Next(m, es[0]), es[1..]))
  }

  function Exec<T>(m: Monitor<T>, es: seq<Event<T>>): Monitor<T>
    requires Runs(m, es)
    decreases |es|
  {
    if es == [] then m else Exec(Next(m, es[0]), es[1..])
  }

  /** The item that this event appends to the container, if any. */
  function Appends<T>(e: Event<T>): seq<T> {
    match e
    case Push(_, item) => [item]
    case TryPush(_, item, locked) => if locked then [item] else []
    case _ => []
  }

  /** The item that this event hands to a popper, if any. */
  function Delivers<T>(m: Monitor<T>, e: Event<T>): seq<T> {
    if Pops(e) && Outcome(m, e).Got? then [Outcome(m, e).item] else []
  }

  function Appended<T>(es: seq<Event<T>>): seq<T> {
    if es == [] then [] else Appends(es[0]) + Appended(es[1..])
  }

  function Delivered<T>(m: Monitor<T>, es: seq<Event<T>>): seq<T>
    requires Runs(m, es)
    decreases |es|
  {
    if es == [] then [] else Delivers(m, es[0]) + Delivered(Next(m, es[0]), es[1..])
  }

  predicate ClearFree<T>(es: seq<Event<T>>) {
    forall i | 0 <= i < |es| :: !es[i].Clear?
  }

  // ---------------------------------------------------------------- no lost wakeup

  ghost predicate Separate<T>(m: Monitor<T>) {
    m.waiting !! m.woken !! m.oneDue !! m.allDue
  }

  /**
    While somebody sleeps, the items of a live queue are covered by notifications that are still
    to come and by threads already woken; on a cancelled queue a notify_all is still to come.
  */
  ghost predicate NoLostWakeup<T>(m: Monitor<T>) {
    m.waiting != {} ==>
      if m.cancelled then m.allDue != {} else |m.items| <= |m.oneDue| + |m.woken|
  }

  ghost predicate Inv<T>(m: Monitor<T>) {
    Separate(m) && NoLostWakeup(m)
  }

  ghost predicate InWait<T>(m: Monitor<T>, t: Tid) {
    t in m.waiting || t in m.woken
  }

  /** A step of a popping thread only moves that thread; it is inside the wait afterwards exactly if it sleeps or was woken. */
  lemma PopMovesOnlyCaller<T>(m: Monitor<T>, e: Event<T>, t: Tid)
    requires Enabled(m, e) && (Pops(e) || e.Spurious?)
    ensures Next(m, e).oneDue == m.oneDue && Next(m, e).allDue == m.allDue
    ensures t != e.t ==> (InWait(Next(m, e), t) <==> InWait(m, t))
    ensures Separate(m) ==> (InWait(Next(m, e), e.t) <==> e.Spurious? || Outcome(m, e).Sleeps?)
  {
  }

  lemma FreshInv<T>()
    ensures Inv(Fresh<T>())
  {
  }

  lemma StepKeepsSeparate<T>(m: Monitor<T>, e: Event<T>)
    requires Enabled(m, e) && Separate(m)
    ensures Separate(Next(m, e))
  {
  }

  lemma AddOne(s: set<Tid>, t: Tid)
    requires t !in s
    ensures |s + {t}| == |s| + 1
  {
  }

  lemma DropOne(s: set<Tid>, t: Tid)
    requires t in s
    ensures |s - {t}| == |s| - 1
  {
  }

  /** A notify_one wakes one sleeper and no more, if there is one, and touches nothing else but the notification due. */
  lemma NotifyOneWakesOne<T>(m: Monitor<T>, e: Event<T>)
    requires Enabled(m, e) && Separate(m) && e.NotifyOne?
    ensures var m' := Next(m, e);
            && m'.waiting + m'.woken == m.waiting + m.woken
            && |m'.waiting| == |m.waiting| - (if m.waiting == {} then 0 else 1)
            && |m'.woken| == |m.woken| + (if m.waiting == {} then 0 else 1)
            && |m'.oneDue| == |m.oneDue| - 1
            && m'.items == m.items && m'.cancelled == m.cancelled && m'.allDue == m.allDue
  {
    DropOne(m.oneDue, e.t);
    if m.waiting != {} {
      DropOne(m.waiting, e.target);
      AddOne(m.woken, e.target);
    }
  }

  /** A spurious wakeup wakes its sleeper and touches nothing else. */
  lemma SpuriousWakesOne<T>(m: Monitor<T>, e: Event<T>)
    requires Separate(m) && e.Spurious? && e.t in m.waiting
    ensures Enabled(m, e)
    ensures var m' := Next(m, e);
            && e.t in m'.woken && e.t !in m'.waiting
            && m'.waiting + m'.woken == m.waiting + m.woken && |m'.waiting| == |m.waiting| - 1
            && m'.items == m.items && m'.cancelled == m.cancelled && m'.oneDue == m.oneDue && m'.allDue == m.allDue
  {
    DropOne(m.waiting, e.t);
  }

  /** A notify_all wakes every sleeper. */
  lemma NotifyAllWakesAll<T>(m: Monitor<T>, e: Event<T>)
    requires Enabled(m, e) && Separate(m) && e.NotifyAll?
    ensures var m' := Next(m, e);
            && m'.waiting == {} && |m'.woken| == |m.woken| + |m.waiting| && |m'.allDue| == |m.allDue| - 1
            && (forall t :: t in m'.woken <==> InWait(m, t))
            && m'.items == m.items && m'.cancelled == m.cancelled && m'.oneDue == m.oneDue
  {
    DropOne(m.allDue, e.t);
  }

  /** An undisturbed clear: nothing is left, the queue is cancelled, and everybody asleep is woken. */
  function AfterClear<T>(m: Monitor<T>): Monitor<T> {
    m.(items := [], cancelled := true, waiting := {}, woken := m.woken + m.waiting)
  }

  lemma ClearThenNotify<T>(m: Monitor<T>, t: Tid)
    requires Idle(m, t)
    ensures Enabled(m, Clear(t)) && Enabled(Next(m, Clear(t)), NotifyAll(t))
    ensures Next(Next(m, Clear(t)), NotifyAll(t)) == AfterClear(m)
  {
  }

  lemma StepKeepsCover<T>(m: Monitor<T>, e: Event<T>)
    requires Enabled(m, e) && Inv(m)
    ensures NoLostWakeup(Next(m, e))
  {
    match e
    case Push(t, _) => AddOne(m.oneDue, t);
    case TryPush(t, _, _) => AddOne(m.oneDue, t);
    case NotifyOne(t, target) =>
      DropOne(m.oneDue, t);
      if m.waiting != {} {
        AddOne(m.woken, target);
      }
    case Recheck(t) => DropOne(m.woken, t);
    case Spurious(t) => AddOne(m.woken, t);
    case Clear(t) => assert t in Next(m, e).allDue;
    case _ =>
  }

  lemma StepKeepsInv<T>(m: Monitor<T>, e: Event<T>)
    requires Enabled(m, e) && Inv(m)
    ensures Inv(Next(m, e))
  {
    StepKeepsSeparate(m, e);
    StepKeepsCover(m, e);
  }

  /** Every interleaving of any number of pushers, poppers and clearers keeps the wakeup cover. */
  lemma {:induction false} RunKeepsInv<T>(m: Monitor<T>, es: seq<Event<T>>)
    requires Runs(m, es) && Inv(m)
    ensures Inv(Exec(m, es))
    decreases |es|
  {
    if es != [] {
      StepKeepsInv(m, es[0]);
      RunKeepsInv(Next(m, es[0]), es[1..]);
    }
  }

  /** In every reachable state: with nobody left to notify and nobody awake in `pop`, a sleeper means an empty live queue. */
  lemma SleepersMeanEmpty<T>(es: seq<Event<T>>)
    requires Runs(Fresh<T>(), es)
    ensures var m := Exec(Fresh<T>(), es);
            && NoLostWakeup(m)
            && (m.waiting != {} && m.woken == {} && m.oneDue == {} && m.allDue == {} ==> m.items == [] && !m.cancelled)
  {
    FreshInv<T>();
    RunKeepsInv(Fresh<T>(), es);
  }

  /** Once cancelled and notified, a queue never puts a thread to sleep again. */
  lemma {:induction false} CancelledNeverSleeps<T>(m: Monitor<T>, es: seq<Event<T>>)
    requires Runs(m, es) && m.cancelled && m.waiting == {}
    ensures Exec(m, es).cancelled && Exec(m, es).waiting == {}
    decreases |es|
  {
    if es != [] {
      CancelledNeverSleeps(Next(m, es[0]), es[1..]);
    }
  }

  // ---------------------------------------------------------------- FIFO

  lemma StepIsFifo<T>(m: Monitor<T>, e: Event<T>)
    requires Enabled(m, e) && !e.Clear?
    ensures m.items + Appends(e) == Delivers(m, e) + Next(m, e).items
  {
  }

  lemma Regroup<T>(a: seq<T>, b: seq<T>, c: seq<T>, d: seq<T>, b': seq<T>, c': seq<T>, d': seq<T>)
    requires a + b == c + d && d + b' == c' + d'
    ensures a + (b + b') == (c + c') + d'
  {
    assert a + (b + b') == (a + b) + b';
    assert (c + d) + b' == c + (d + b');
    assert c + (c' + d') == (c + c') + d';
  }

  /**
    From any state, as long as nothing is cleared, what was in the container followed by what is
    appended equals what is delivered followed by what is left, in order.
  */
  lemma {:induction false} RunIsFifo<T>(m: Monitor<T>, es: seq<Event<T>>)
    requires Runs(m, es) && ClearFree(es)
    ensures m.items + Appended(es) == Delivered(m, es) + Exec(m, es).items
    decreases |es|
  {
    if es != [] {
      var e, rest := es[0], es[1..];
      var m' := Next(m, e);
      StepIsFifo(m, e);
      RunIsFifo(m', rest);
      Regroup(m.items, Appends(e), Delivers(m, e), m'.items, Appended(rest), Delivered(m', rest), Exec(m', rest).items);
    }
  }

  // ---------------------------------------------------------------- pop

  /** The test that `pop` makes before it waits changes nothing: the first region behaves like a recheck of the predicate. */
  lemma SplitTestIsWaitLoop<T>(m: Monitor<T>)
    ensures EnterOutcome(m) == RecheckOutcome(m)
    ensures EnterOutcome(m).Sleeps? <==> !Ready(m)
  {
  }

  predicate HasClear<T>(es: seq<Event<T>>) {
    exists i :: 0 <= i < |es| && es[i].Clear?
  }

  lemma {:induction false} CancelledOnlyByClear<T>(m: Monitor<T>, es: seq<Event<T>>)
    requires Runs(m, es)
    ensures Exec(m, es).cancelled <==> m.cancelled || HasClear(es)
    decreases |es|
  {
    if es != [] {
      CancelledOnlyByClear(Next(m, es[0]), es[1..]);
      if HasClear(es[1..]) {
        var i :| 0 <= i < |es[1..]| && es[1..][i].Clear?;
        assert es[i + 1].Clear?;
      }
      if es[0].Clear? {
        assert HasClear(es);
      }
      if HasClear(es) {
        var i :| 0 <= i < |es| && es[i].Clear?;
        if i > 0 {
          assert es[1..][i - 1].Clear?;
        }
      }
    }
  }

  /**
    What a blocking pop can do after any run: it returns nothing exactly when a clear has
    happened, it sleeps exactly when nothing was cleared and the container is empty, and
    otherwise it hands out the front item.
  */
  lemma PopAnswers<T>(es: seq<Event<T>>, e: Event<T>)
    requires Runs(Fresh<T>(), es) && (e.EnterPop? || e.Recheck?)
    requires Enabled(Exec(Fresh<T>(), es), e)
    ensures var m := Exec(Fresh<T>(), es);
            && (Outcome(m, e).Nothing? <==> HasClear(es))
            && (Outcome(m, e).Sleeps? <==> !HasClear(es) && m.items == [])
            && (Outcome(m, e).Got? ==> m.items != [] && Next(m, e).items == m.items[1..] && Outcome(m, e).item == m.items[0])
  {
    CancelledOnlyByClear(Fresh<T>(), es);
  }
}
