/**
  The life of one future: `wait` makes a receiver, copies of it travel into the task and with the
  task through a queue into a worker, the task runs the chain, the future may be cancelled by any
  thread at any time, and when the last copy is destroyed the promise reports itself broken.

  Every copy of the receiver shares one promise, and because the receiver declares a copy
  constructor, moving it copies it too.  The copies held by the frames of `wait`, by the caller of
  `schedule` and by its probes are the handles `Local(k)`; `wait` has returned when none is left.
*/
module Lifecycle {
  import opened Wrappers
  import opened Pipeline
  import S = SharedState

  datatype Handle = Local(k: nat) | InQueue | InWorker

  datatype Task<!V, !E> =
    | Unqueued
    | Queued
    | Discarded                            // destroyed by `clear` without having run
    | Taken                                // in a worker, before the test for cancellation
    | Stepping(rest: Receiver<V, E, ()>, arg: Option<V>)  // about to complete what is left of the nest
    | Settling(flow: Flow<V, E>)           // about to exchange the tag of the shared state
    | Settled                              // inside that call
    | Finished(skipped: bool)              // the task has returned, its worker still holds it
    | Done(skipped: bool)                  // and has let it go

  datatype Life<!V, !E> = Life(
    sender: Sender<V, E>,
    cell: S.Cell<Option<V>, E>,
    handles: set<Handle>,
    task: Task<V, E>,
    ran: seq<nat>,
    breakDue: bool,   // the last handle is gone, the promise is being destroyed
    broke: bool       // the promise has been destroyed
  )

  datatype Event<V, E> =
    | Copy(k: nat)
    | Drop(k: nat)
    | Enqueue
    | Discard
    | Take
    | Check
    | Invoked
    | Settle
    | Return
    | Release
    | BreakNow
    | CancelNow(t: nat)
    | CellStep(e: S.Event<Option<V>, E>)  // the write or the notification of a call in progress

  const TASK: nat := 0
  const DESTRUCTOR: nat := 1

  /** `wait` has made its receiver and taken the future; `cancelers` threads may cancel. */
  function Fresh<V, E>(sender: Sender<V, E>, cancelers: nat): Life<V, E> {
    Life(sender, S.Fresh(2 + cancelers), {Local(0)}, Unqueued, [], false, false)
  }

  function CellEvent<V, E>(s: Life<V, E>, e: Event<V, E>): Option<S.Event<Option<V>, E>> {
    match e
    case Settle => if s.task.Settling? then Some(S.Exchange(TASK, CallOf(s.task.flow))) else None
    case BreakNow => Some(S.Exchange(DESTRUCTOR, S.Break))
    case CancelNow(t) => Some(S.Exchange(t, S.Cancel))
    case CellStep(ce) => Some(ce)
    case _ => None
  }

  predicate AtPoint<V, E>(s: Life<V, E>, e: Event<V, E>) {
    match e
    case Copy(k) => s.handles != {} && Local(k) !in s.handles
    case Drop(k) => Local(k) in s.handles
    case Enqueue => s.task.Unqueued? && s.handles != {}
    case Discard => s.task.Queued?
    case Take => s.task.Queued?
    case Check => s.task.Taken?
    case Invoked => s.task.Stepping? && s.task.rest.Adapter?
    case Settle => s.task.Settling?
    case Return => s.task.Settled? && TASK < |s.cell.setters| && s.cell.setters[TASK].Idle?
    case Release => s.task.Finished?
    case BreakNow => s.breakDue
    case CancelNow(t) => 2 <= t
    case CellStep(ce) => !ce.Exchange?
  }

  predicate Enabled<V, E>(s: Life<V, E>, e: Event<V, E>) {
    AtPoint(s, e) && (CellEvent(s, e).Some? ==> S.Enabled(s.cell, CellEvent(s, e).value))
  }

  /** The receiver made by connecting the chain; its promise is the cell of the life. */
  function Nest<V, E>(sender: Sender<V, E>): Receiver<V, E, ()> {
    Connect(sender, ValueReceiver(()))
  }

  /** `complete` on a receiver: an adapter has its step to invoke, the value receiver sets the value. */
  function At<V, E>(receiver: Receiver<V, E, ()>, arg: Option<V>): Task<V, E> {
    if receiver.ValueReceiver? then Settling(Flowing(arg)) else Stepping(receiver, arg)
  }

  function TaskAfter<V, E>(s: Life<V, E>, e: Event<V, E>): Task<V, E>
    requires Enabled(s, e)
  {
    match e
    case Enqueue => Queued
    case Discard => Discarded
    case Take => Taken
    case Check => if s.cell.tag == S.Canceled then Finished(true) else At(Nest(s.sender), None)
    case Invoked =>
      (match Invoke(s.task.rest.step, s.task.arg)
       case Flowing(out) => At(s.task.rest.downstream, out)
       case Failed(err) => Settling(Failed(err)))
    case Settle => Settled
    case Return => Finished(false)
    case Release => Done(s.task.skipped)
    case _ => s.task
  }

  function HandlesAfter<V, E>(s: Life<V, E>, e: Event<V, E>): set<Handle>
    requires Enabled(s, e)
  {
    match e
    case Copy(k) => s.handles + {Local(k)}
    case Drop(k) => s.handles - {Local(k)}
    case Enqueue => s.handles + {InQueue}
    case Discard => s.handles - {InQueue}
    case Take => s.handles - {InQueue} + {InWorker}
    case Release => s.handles - {InWorker}
    case _ => s.handles
  }

  function Next<V, E>(s: Life<V, E>, e: Event<V, E>): Life<V, E>
    requires Enabled(s, e)
  {
    var handles := HandlesAfter(s, e);
    s.(cell := if CellEvent(s, e).Some? then S.Next(s.cell, CellEvent(s, e).value) else s.cell,
       handles := handles,
       task := TaskAfter(s, e),
       ran := if e.Invoked? then s.ran + [s.task.rest.step.id] else s.ran,
       breakDue := if e.BreakNow? then false else s.breakDue || (s.handles != {} && handles == {}),
       broke := s.broke || e.BreakNow?)
  }

  predicate Runs<V, E>(s: Life<V, E>, es: seq<Event<V, E>>)
    decreases |es|
  {
    es == [] || (Enabled(s, es[0]) && Runs(Next(s, es[0]), es[1..]))
  }

  function Exec<V, E>(s: Life<V, E>, es: seq<Event<V, E>>): Life<V, E>
    requires Runs(s, es)
    decreases |es|
  {
    if es == [] then s else Exec(Next(s, es[0]), es[1..])
  }

  // ---------------------------------------------------------------- the first exchange of a run

  predicate IsExchange<V, E>(e: Event<V, E>) {
    e.Settle? || e.BreakNow? || e.CancelNow?
  }

  function FirstExchange<V, E>(es: seq<Event<V, E>>): (first: Option<Event<V, E>>)
    ensures first.Some? ==> IsExchange(first.value)
  {
    if es == [] then None else if IsExchange(es[0]) then Some(es[0]) else FirstExchange(es[1..])
  }

  ghost predicate HasCancel<V, E>(es: seq<Event<V, E>>) {
    exists i :: 0 <= i < |es| && es[i].CancelNow?
  }

  /** The call that an exchange makes, if the chain means `flow`. */
  function CallAt<V, E>(flow: Flow<V, E>, e: Event<V, E>): S.Call<Option<V>, E>
    requires IsExchange(e)
  {
    match e
    case Settle => CallOf(flow)
    case BreakNow => S.Break
    case CancelNow(_) => S.Cancel
  }

  function CellTrace<V, E>(s: Life<V, E>, es: seq<Event<V, E>>): seq<S.Event<Option<V>, E>>
    requires Runs(s, es)
    decreases |es|
  {
    if es == [] then []
    else (if CellEvent(s, es[0]).Some? then [CellEvent(s, es[0]).value] else []) + CellTrace(Next(s, es[0]), es[1..])
  }

  /** The shared state only sees its own machine. */
  lemma {:induction false} LifeRefinesCell<V, E>(s: Life<V, E>, es: seq<Event<V, E>>)
    requires Runs(s, es)
    ensures S.Runs(s.cell, CellTrace(s, es)) && S.Exec(s.cell, CellTrace(s, es)) == Exec(s, es).cell
    decreases |es|
  {
    if es != [] {
      var s', rest := Next(s, es[0]), es[1..];
      LifeRefinesCell(s', rest);
      var tail := CellTrace(s', rest);
      if CellEvent(s, es[0]).Some? {
        var ce := CellEvent(s, es[0]).value;
        assert ([ce] + tail)[1..] == tail;
      } else {
        assert [] + tail == tail;
      }
    }
  }

  // ---------------------------------------------------------------- the steps of the chain

  /** What the task has run, followed by what is left of its nest, is the meaning of the chain. */
  ghost predicate OnTrack<V, E>(s: Life<V, E>) {
    match s.task
    case Stepping(rest, arg) => rest.Adapter? && Continue(Trail(Flowing(arg), s.ran), rest) == Meaning(s.sender)
    case Settling(flow) => Meaning(s.sender) == Trail(flow, s.ran)
    case Settled => s.ran == Meaning(s.sender).ran
    case Finished(skipped) => s.ran == if skipped then [] else Meaning(s.sender).ran
    case Done(skipped) => s.ran == if skipped then [] else Meaning(s.sender).ran
    case _ => s.ran == []
  }

  lemma StepKeepsTrack<V, E>(s: Life<V, E>, e: Event<V, E>)
    requires Enabled(s, e) && OnTrack(s)
    ensures OnTrack(Next(s, e))
  {
    match e
    case Check =>
      ConnectPreservesMeaning(s.sender, ValueReceiver(()));
      SettledNest(Meaning(s.sender));
      assert Continue(Trail(Flowing(None), []), Nest(s.sender)) == Meaning(s.sender);
      if Nest(s.sender).ValueReceiver? {
        SettledNest<V, E>(Trail(Flowing(None), []));
      }
    case Invoked =>
      var Stepping(Adapter(downstream, step), arg) := s.task;
      var trail := Bind(Trail(Flowing(arg), s.ran), step);
      ContinueAdapter(Trail(Flowing(arg), s.ran), downstream, step);
      if downstream.ValueReceiver? {
        SettledNest(trail);
      }
    case _ =>
  }

  /** Nothing is left to run behind a value receiver. */
  lemma SettledNest<V, E>(trail: Trail<V, E>)
    ensures Continue(trail, ValueReceiver(())) == trail
  {
  }

  // ---------------------------------------------------------------- ownership and the tag

  predicate Worked<V, E>(task: Task<V, E>) {
    task.Taken? || task.Stepping? || task.Settling? || task.Settled? || task.Finished?
  }

  predicate HasSettled<V, E>(task: Task<V, E>) {
    task.Settled? || ((task.Finished? || task.Done?) && !task.skipped)
  }

  predicate Skipped<V, E>(task: Task<V, E>) {
    (task.Finished? || task.Done?) && task.skipped
  }

  ghost predicate Owned<V, E>(s: Life<V, E>) {
    && (InQueue in s.handles <==> s.task.Queued?)
    && (InWorker in s.handles <==> Worked(s.task))
    && (s.handles != {} ==> !s.breakDue && !s.broke)
    && (s.handles == {} ==> s.breakDue != s.broke)
  }

  lemma StepKeepsOwned<V, E>(s: Life<V, E>, e: Event<V, E>)
    requires Enabled(s, e) && Owned(s)
    ensures Owned(Next(s, e))
  {
  }

  /** The tag, given whether a cancel has already reached its exchange. */
  ghost predicate TagFits<V, E>(s: Life<V, E>, cancelled: bool) {
    && (!HasSettled(s.task) && !s.broke ==> s.cell.tag == if cancelled then S.Canceled else S.Init)
    && (HasSettled(s.task) || s.broke ==> s.cell.tag != S.Init)
    && (Skipped(s.task) ==> s.cell.tag == S.Canceled)
  }

  lemma StepKeepsTag<V, E>(s: Life<V, E>, e: Event<V, E>, cancelled: bool)
    requires Enabled(s, e) && TagFits(s, cancelled)
    ensures TagFits(Next(s, e), cancelled || e.CancelNow?)
  {
  }

  /** The task and the destructor are inside a call on the shared state only where their program points say so. */
  ghost predicate Quiet<V, E>(s: Life<V, E>) {
    && 2 <= |s.cell.setters|
    && (!s.task.Settled? ==> s.cell.setters[TASK].Idle?)
    && (!s.broke ==> s.cell.setters[DESTRUCTOR].Idle?)
  }

  lemma StepKeepsQuiet<V, E>(s: Life<V, E>, e: Event<V, E>)
    requires Enabled(s, e) && Quiet(s)
    ensures Quiet(Next(s, e))
  {
  }

  ghost predicate Inv<V, E>(s: Life<V, E>, cancelled: bool) {
    OnTrack(s) && Owned(s) && TagFits(s, cancelled) && Quiet(s)
  }

  lemma StepKeepsInv<V, E>(s: Life<V, E>, e: Event<V, E>, cancelled: bool)
    requires Enabled(s, e) && Inv(s, cancelled)
    ensures Inv(Next(s, e), cancelled || e.CancelNow?)
  {
    StepKeepsTrack(s, e);
    StepKeepsOwned(s, e);
    StepKeepsTag(s, e, cancelled);
    StepKeepsQuiet(s, e);
  }

  /** The move that the task, its queue or the destructor can make next. */
  function TaskMove<V, E>(s: Life<V, E>): Event<V, E>
    requires Worked(s.task) || s.task.Queued? || s.breakDue
    requires TASK < |s.cell.setters|
  {
    if s.breakDue then BreakNow
    else match s.task
      case Queued => Take
      case Taken => Check
      case Stepping(_, _) => Invoked
      case Settling(_) => Settle
      case Settled =>
        (match s.cell.setters[TASK]
         case Idle => Return
         case Writing(_) => CellStep(S.Write(TASK))
         case Notifying => CellStep(S.Notify(TASK)))
      case _ => Release
  }

  /** A queued or running task and a promise under destruction can always go on, whatever the cancelling threads do. */
  lemma TaskIsNeverStuck<V, E>(s: Life<V, E>, cancelled: bool)
    requires Inv(s, cancelled) && (Worked(s.task) || s.task.Queued? || s.breakDue)
    ensures Enabled(s, TaskMove(s))
  {
  }

  lemma {:induction false} RunKeepsInv<V, E>(s: Life<V, E>, es: seq<Event<V, E>>, cancelled: bool)
    requires Runs(s, es) && Inv(s, cancelled)
    ensures Inv(Exec(s, es), cancelled || HasCancel(es))
    ensures Exec(s, es).sender == s.sender
    decreases |es|
  {
    if es != [] {
      StepKeepsInv(s, es[0], cancelled);
      RunKeepsInv(Next(s, es[0]), es[1..], cancelled || es[0].CancelNow?);
      HasCancelCons(es);
    }
  }

  lemma HasCancelCons<V, E>(es: seq<Event<V, E>>)
    requires es != []
    ensures HasCancel(es) <==> es[0].CancelNow? || HasCancel(es[1..])
  {
  }

  lemma FreshInv<V, E>(sender: Sender<V, E>, cancelers: nat)
    ensures Inv(Fresh(sender, cancelers), false)
  {
  }

  // ---------------------------------------------------------------- the outcome

  /** The cell of a life is won by the call of the first exchange in the run. */
  lemma {:induction false} WinnerIsFirstExchange<V, E>(s: Life<V, E>, es: seq<Event<V, E>>, cancelled: bool)
    requires Runs(s, es) && Inv(s, cancelled)
    ensures S.Winner(CellTrace(s, es))
         == match FirstExchange(es)
            case None => None
            case Some(e) => Some(CallAt(Meaning(s.sender).flow, e))
    decreases |es|
  {
    if es != [] {
      StepKeepsInv(s, es[0], cancelled);
      var s', rest := Next(s, es[0]), es[1..];
      WinnerIsFirstExchange(s', rest, cancelled || es[0].CancelNow?);
      var tail := CellTrace(s', rest);
      if CellEvent(s, es[0]).Some? {
        assert ([CellEvent(s, es[0]).value] + tail)[1..] == tail;
      } else {
        assert [] + tail == tail;
      }
    }
  }

  /**
    What the future reports, in every interleaving: the first of cancel, settle and break to
    reach its exchange decides, a settle reports the meaning of the chain, and nothing else is
    ever reported once no winner is between its exchange and its write.
  */
  lemma FutureReportsFirst<V, E>(sender: Sender<V, E>, cancelers: nat, es: seq<Event<V, E>>)
    requires Runs(Fresh(sender, cancelers), es)
    ensures var s := Exec(Fresh(sender, cancelers), es);
            match FirstExchange(es)
            case None => s.cell.tag == S.Init
            case Some(CancelNow(_)) => s.cell.tag == S.Canceled
            case Some(BreakNow) => s.cell.tag == S.Broken
            case Some(_) => s.cell.tag == if Meaning(sender).flow.Flowing? then S.Value else S.Error
    ensures var s := Exec(Fresh(sender, cancelers), es);
            !S.MidWrite(s.cell) ==>
              match FirstExchange(es)
              case None => S.Reported(s.cell) == S.Waits
              case Some(CancelNow(_)) => S.Reported(s.cell) == S.GotCanceled
              case Some(BreakNow) => S.Reported(s.cell) == S.BrokenPromise
              case Some(_) =>
                match Meaning(sender).flow
                case Flowing(arg) => S.Reported(s.cell) == S.Got(arg)
                case Failed(e) => S.Reported(s.cell) == S.Rethrows(e)
  {
    var s0 := Fresh(sender, cancelers);
    FreshInv(sender, cancelers);
    LifeRefinesCell(s0, es);
    WinnerIsFirstExchange(s0, es, false);
    S.FirstCallWins(2 + cancelers, CellTrace(s0, es));
  }

  lemma {:induction false} FirstExchangeExists<V, E>(s: Life<V, E>, es: seq<Event<V, E>>)
    requires Runs(s, es) && !s.broke
    ensures Exec(s, es).broke ==> FirstExchange(es).Some?
    decreases |es|
  {
    if es != [] && !es[0].BreakNow? {
      FirstExchangeExists(Next(s, es[0]), es[1..]);
    }
  }

  /** A task that ends up discarded was never run, so its run has no settle. */
  lemma {:induction false} DiscardedNeverSettles<V, E>(s: Life<V, E>, es: seq<Event<V, E>>)
    requires Runs(s, es) && (Exec(s, es).task.Discarded? || Exec(s, es).task.Unqueued?)
    ensures !Worked(s.task) && !s.task.Done?
    ensures FirstExchange(es).Some? ==> !FirstExchange(es).value.Settle?
    decreases |es|
  {
    if es != [] {
      DiscardedNeverSettles(Next(s, es[0]), es[1..]);
    }
  }

  /** `wait` has returned: neither its frames nor those of the schedule call hold a copy. */
  ghost predicate WaitReturned<V, E>(s: Life<V, E>) {
    forall k :: Local(k) !in s.handles
  }

  /** Then a task that is over holds the last copy, or there is none. */
  lemma LastCopy<V, E>(s: Life<V, E>)
    requires Owned(s) && WaitReturned(s) && (s.task.Unqueued? || s.task.Discarded? || s.task.Done?)
    ensures s.handles == {} && s.breakDue != s.broke
  {
    assert forall h | h in s.handles :: h == InQueue || h == InWorker;
    assert s.handles == {};
  }

  // ---------------------------------------------------------------- copies come and go

  /** Whether a frame has its copy after these events, if it had it before them as told. */
  function Holds<V, E>(es: seq<Event<V, E>>, k: nat, before: bool): bool {
    if es == [] then before
    else Holds(es[1..], k, if es[0].Copy? && es[0].k == k then true else if es[0].Drop? && es[0].k == k then false else before)
  }

  /** A frame has its copy from the moment it makes it until it drops it; the first frame of `wait` has it from the start. */
  lemma {:induction false} CopiesAreCounted<V, E>(s: Life<V, E>, es: seq<Event<V, E>>, k: nat)
    requires Runs(s, es)
    ensures Local(k) in Exec(s, es).handles <==> Holds(es, k, Local(k) in s.handles)
    decreases |es|
  {
    if es != [] {
      CopiesAreCounted(Next(s, es[0]), es[1..], k);
    }
  }

  /** A thread that is not inside a call can cancel at any moment, and as long as there is a copy, a frame can make another. */
  lemma CancelIsNeverBlocked<V, E>(s: Life<V, E>, t: nat, k: nat)
    ensures 2 <= t < |s.cell.setters| && s.cell.setters[t].Idle? ==> Enabled(s, CancelNow(t))
    ensures s.handles != {} && Local(k) !in s.handles ==> Enabled(s, Copy(k))
    ensures Local(k) in s.handles ==> Enabled(s, Drop(k))
  {
  }

  lemma RunCons<V, E>(s: Life<V, E>, e: Event<V, E>, rest: seq<Event<V, E>>)
    requires Enabled(s, e) && Runs(Next(s, e), rest)
    ensures Runs(s, [e] + rest) && Exec(s, [e] + rest) == Exec(Next(s, e), rest)
  {
    hide Next, Enabled;
    assert ([e] + rest)[1..] == rest;
  }

  /**
    When the frames let go of their copies and the task is over or was never queued, the promise is
    destroyed and the future has its outcome, with no other step needed.
  */
  lemma {:induction false} PromiseIsDestroyed<V, E>(s: Life<V, E>, cancelled: bool) returns (es: seq<Event<V, E>>)
    requires Inv(s, cancelled) && (s.task.Unqueued? || s.task.Discarded? || s.task.Done?)
    ensures Runs(s, es) && Exec(s, es).broke && Exec(s, es).handles == {} && Exec(s, es).cell.tag != S.Init
    ensures forall i | 0 <= i < |es| :: es[i].Drop? || es[i].BreakNow?
    decreases |s.handles|, s.breakDue
  {
    if s.handles != {} {
      var h :| h in s.handles;
      assert h != InQueue && h != InWorker;
      var e: Event<V, E> := Drop(h.k);
      StepKeepsInv(s, e, cancelled);
      assert Next(s, e).handles == s.handles - {h} && Next(s, e).task == s.task;
      var rest := PromiseIsDestroyed(Next(s, e), cancelled);
      RunCons(s, e, rest);
      es := [e] + rest;
    } else if s.breakDue {
      var e: Event<V, E> := BreakNow;
      StepKeepsInv(s, e, cancelled);
      RunCons(s, e, []);
      es := [e] + [];
    } else {
      es := [];
    }
  }

  // ---------------------------------------------------------------- every future gets an outcome

  /** The promise is only ever broken for a task that never reached a worker. */
  ghost predicate BrokenFits<V, E>(s: Life<V, E>) {
    s.cell.tag == S.Broken ==> s.handles == {} && (s.task.Unqueued? || s.task.Discarded?)
  }

  lemma {:induction false} BrokenNeverRuns<V, E>(s: Life<V, E>, es: seq<Event<V, E>>, cancelled: bool)
    requires Runs(s, es) && Inv(s, cancelled) && BrokenFits(s)
    ensures BrokenFits(Exec(s, es))
    decreases |es|
  {
    if es != [] {
      StepKeepsInv(s, es[0], cancelled);
      StepKeepsBrokenFits(s, es[0], cancelled);
      hide Next, Enabled, Inv, BrokenFits;
      BrokenNeverRuns(Next(s, es[0]), es[1..], cancelled || es[0].CancelNow?);
    }
  }

  lemma StepKeepsBrokenFits<V, E>(s: Life<V, E>, e: Event<V, E>, cancelled: bool)
    requires Enabled(s, e) && Inv(s, cancelled) && BrokenFits(s)
    ensures BrokenFits(Next(s, e))
  {
  }

  /**
    Every future gets an outcome.  Once `wait` has returned and the task is discarded or let go,
    the shared state is out of its initial state as soon as the destructor of the promise has made
    its exchange; a task that has run never leaves it there; and a task that is discarded without
    running breaks the promise unless a cancel came first.
  */
  lemma EveryFutureGetsAnOutcome<V, E>(sender: Sender<V, E>, cancelers: nat, es: seq<Event<V, E>>)
    requires Runs(Fresh(sender, cancelers), es)
    ensures var s := Exec(Fresh(sender, cancelers), es);
            && (s.handles == {} && !s.breakDue ==> s.cell.tag != S.Init)
            && (s.task.Finished? || s.task.Done? ==> s.cell.tag != S.Init)
            && (s.cell.tag == S.Broken ==> s.handles == {} && (s.task.Unqueued? || s.task.Discarded?))
            && (s.task.Discarded? && WaitReturned(s) ==> s.handles == {} && s.breakDue != s.broke)
            && (s.task.Discarded? && WaitReturned(s) && !s.breakDue ==>
                  && s.ran == []
                  && FirstExchange(es).Some?
                  && s.cell.tag == if FirstExchange(es).value.CancelNow? then S.Canceled else S.Broken)
  {
    var s0 := Fresh(sender, cancelers);
    var s := Exec(s0, es);
    FreshInv(sender, cancelers);
    RunKeepsInv(s0, es, false);
    BrokenNeverRuns(s0, es, false);
    if s.task.Discarded? && WaitReturned(s) {
      LastCopy(s);
    }
    if s.task.Discarded? && WaitReturned(s) && !s.breakDue {
      FirstExchangeExists(s0, es);
      DiscardedNeverSettles(s0, es);
      LifeRefinesCell(s0, es);
      WinnerIsFirstExchange(s0, es, false);
      S.FirstCallWins(2 + cancelers, CellTrace(s0, es));
    }
  }

  /** What the future of an undisturbed chain reports. */
  function Outcome<V, E>(sender: Sender<V, E>): S.GetResult<Option<V>, E> {
    S.Promised(Some(CallOf(Meaning(sender).flow)))
  }

  /**
    What is reported in the end: by a future whose task has returned, the outcome of the fold of its
    chain or that it was cancelled; by a future whose task was discarded, that it was cancelled or broken.
  */
  lemma FinalReport<V, E>(sender: Sender<V, E>, cancelers: nat, es: seq<Event<V, E>>) returns (args: seq<Option<V>>)
    requires Runs(Fresh(sender, cancelers), es)
    ensures FoldsTo(StepsOf(sender), args, Outcome(sender), Meaning(sender).ran)
    ensures var s := Exec(Fresh(sender, cancelers), es);
            !S.MidWrite(s.cell) ==>
              && (s.task.Finished? || s.task.Done? ==> S.Reported(s.cell) == S.GotCanceled || S.Reported(s.cell) == Outcome(sender))
              && (s.task.Discarded? && WaitReturned(s) && !s.breakDue ==>
                    S.Reported(s.cell) == S.GotCanceled || S.Reported(s.cell) == S.BrokenPromise)
  {
    args := MeaningIsFold(sender);
    var s0 := Fresh(sender, cancelers);
    FreshInv(sender, cancelers);
    EveryFutureGetsAnOutcome(sender, cancelers, es);
    LifeRefinesCell(s0, es);
    WinnerIsFirstExchange(s0, es, false);
    S.FirstCallWins(2 + cancelers, CellTrace(s0, es));
  }

  // ---------------------------------------------------------------- cancellation at any point

  predicate Committed<V, E>(task: Task<V, E>) {
    task.Stepping? || task.Settling? || HasSettled(task)
  }

  lemma {:induction false} BranchIsFinal<V, E>(s: Life<V, E>, es: seq<Event<V, E>>)
    requires Runs(s, es)
    ensures Skipped(s.task) ==> Skipped(Exec(s, es).task)
    ensures Committed(s.task) ==> Committed(Exec(s, es).task)
    decreases |es|
  {
    if es != [] {
      BranchIsFinal(Next(s, es[0]), es[1..]);
    }
  }

  /**
    The test at the start of the task decides what runs: after a cancel that precedes it no step
    ever runs; otherwise, whatever is cancelled later, the steps run are those of the uncancelled
    chain, in order, and all of them once the task settles.
  */
  lemma CancelVersusCheck<V, E>(sender: Sender<V, E>, cancelers: nat, pre: seq<Event<V, E>>, post: seq<Event<V, E>>)
    requires Runs(Fresh(sender, cancelers), pre)
    requires Enabled(Exec(Fresh(sender, cancelers), pre), Check)
    requires Runs(Next(Exec(Fresh(sender, cancelers), pre), Check), post)
    ensures var end := Exec(Next(Exec(Fresh(sender, cancelers), pre), Check), post);
            if HasCancel(pre) then
              end.ran == [] && Skipped(end.task) && end.cell.tag == S.Canceled
            else
              end.ran <= Meaning(sender).ran && (HasSettled(end.task) ==> end.ran == Meaning(sender).ran) && Committed(end.task)
  {
    var s0 := Fresh(sender, cancelers);
    var s1 := Exec(s0, pre);
    FreshInv(sender, cancelers);
    RunKeepsInv(s0, pre, false);
    var s2 := Next(s1, Check);
    StepKeepsInv(s1, Check, HasCancel(pre));
    RunKeepsInv(s2, post, HasCancel(pre));
    BranchIsFinal(s2, post);
  }

  /** The exchange decides how the future ends: cancelled exactly if a cancel precedes the settle. */
  lemma CancelVersusSettle<V, E>(sender: Sender<V, E>, cancelers: nat, pre: seq<Event<V, E>>, post: seq<Event<V, E>>)
    requires Runs(Fresh(sender, cancelers), pre)
    requires Enabled(Exec(Fresh(sender, cancelers), pre), Settle)
    requires Runs(Next(Exec(Fresh(sender, cancelers), pre), Settle), post)
    ensures var end := Exec(Next(Exec(Fresh(sender, cancelers), pre), Settle), post);
            end.cell.tag == if HasCancel(pre) then S.Canceled else S.TagOf(CallOf(Meaning(sender).flow))
  {
    var s0 := Fresh(sender, cancelers);
    var s1 := Exec(s0, pre);
    FreshInv(sender, cancelers);
    RunKeepsInv(s0, pre, false);
    var s2 := Next(s1, Settle);
    LifeRefinesCell(s2, post);
    S.TagIsStable(s2.cell, CellTrace(s2, post));
  }
}
