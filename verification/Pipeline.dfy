/**
  Senders and receivers.  `then` wraps a sender; `connect` turns the chain inside out into nested
  receivers; the task that `schedule` starts completes the outermost receiver.  The meaning of a
  sender is defined without any receiver, and running the nest is proved to deliver it.

  A value travels as an option: `None` stands for the empty argument list of a void step.
  Invocables are identified by a number so that the order in which they run can be stated.
*/
module Pipeline {
  import opened Wrappers
  import opened SharedState

  datatype Return<+V, +E> = Returns(value: V) | ReturnsVoid | Throws(e: E)

  datatype Step<!V, !E> = Step(id: nat, body: Option<V> -> Return<V, E>)

  datatype Sender<!V, !E> = Schedule | Then(upstream: Sender<V, E>, step: Step<V, E>)

  /** A nest of receivers around a promise `P`: a shared state, or nothing where only the nest matters. */
  datatype Receiver<!V, !E, +P> =
    | ValueReceiver(promise: P)
    | Adapter(downstream: Receiver<V, E, P>, step: Step<V, E>)

  /** What is travelling down the chain: a value, or an exception on its way to the task. */
  datatype Flow<+V, +E> = Flowing(arg: Option<V>) | Failed(e: E)

  /** A flow together with the steps that ran to produce it. */
  datatype Trail<+V, +E> = Trail(flow: Flow<V, E>, ran: seq<nat>)

  function Invoke<V, E>(step: Step<V, E>, arg: Option<V>): Flow<V, E> {
    match step.body(arg)
    case Returns(value) => Flowing(Some(value))
    case ReturnsVoid => Flowing(None)
    case Throws(e) => Failed(e)
  }

  // ---------------------------------------------------------------- what a sender means

  /** A step after a trail: it runs on the value, and a failed trail passes it by. */
  function Bind<V, E>(trail: Trail<V, E>, step: Step<V, E>): Trail<V, E> {
    match trail.flow
    case Failed(_) => trail
    case Flowing(arg) => Trail(Invoke(step, arg), trail.ran + [step.id])
  }

  function Meaning<V, E>(sender: Sender<V, E>): Trail<V, E> {
    match sender
    case Schedule => Trail(Flowing(None), [])
    case Then(upstream, step) => Bind(Meaning(upstream), step)
  }

  // ---------------------------------------------------------------- what connecting and running does

  /** `sender_adapter::connect` wraps the receiver and passes it upstream. */
  function Connect<V, E, P>(sender: Sender<V, E>, receiver: Receiver<V, E, P>): Receiver<V, E, P> {
    match sender
    case Schedule => receiver
    case Then(upstream, step) => Connect(upstream, Adapter(receiver, step))
  }

  /** `complete` on a nest of receivers: the trail that reaches the value receiver, or the exception thrown on the way. */
  function Deliver<V, E, P>(receiver: Receiver<V, E, P>, arg: Option<V>): Trail<V, E> {
    match receiver
    case ValueReceiver(_) => Trail(Flowing(arg), [])
    case Adapter(downstream, step) =>
      match Invoke(step, arg)
      case Failed(e) => Trail(Failed(e), [step.id])
      case Flowing(out) =>
        var rest := Deliver(downstream, out);
        Trail(rest.flow, [step.id] + rest.ran)
  }

  function PromiseOf<V, E, P>(receiver: Receiver<V, E, P>): P {
    match receiver
    case ValueReceiver(promise) => promise
    case Adapter(downstream, _) => PromiseOf(downstream)
  }

  /** Running a nest after a trail. */
  function Continue<V, E, P>(trail: Trail<V, E>, receiver: Receiver<V, E, P>): Trail<V, E> {
    match trail.flow
    case Failed(_) => trail
    case Flowing(arg) =>
      var rest := Deliver(receiver, arg);
      Trail(rest.flow, trail.ran + rest.ran)
  }

  lemma ContinueAdapter<V, E, P>(trail: Trail<V, E>, receiver: Receiver<V, E, P>, step: Step<V, E>)
    ensures Continue(trail, Adapter(receiver, step)) == Continue(Bind(trail, step), receiver)
  {
  }

  /** Connecting preserves meaning, for every chain and every receiver at its end. */
  lemma {:induction false} ConnectPreservesMeaning<V, E, P>(sender: Sender<V, E>, receiver: Receiver<V, E, P>)
    ensures Deliver(Connect(sender, receiver), None) == Continue(Meaning(sender), receiver)
    ensures PromiseOf(Connect(sender, receiver)) == PromiseOf(receiver)
    decreases sender
  {
    match sender
    case Schedule =>
      assert [] + Deliver(receiver, None).ran == Deliver(receiver, None).ran;
    case Then(upstream, step) =>
      ConnectPreservesMeaning(upstream, Adapter(receiver, step));
      ContinueAdapter(Meaning(upstream), receiver, step);
  }

  // ---------------------------------------------------------------- chains as lists

  /** then(... then(schedule(...), f1) ..., fn). */
  function Chain<V, E>(steps: seq<Step<V, E>>): Sender<V, E> {
    if steps == [] then Schedule else Then(Chain(steps[..|steps| - 1]), steps[|steps| - 1])
  }

  /** The steps of a chain, first to last. */
  function StepsOf<V, E>(sender: Sender<V, E>): seq<Step<V, E>> {
    match sender
    case Schedule => []
    case Then(upstream, step) => StepsOf(upstream) + [step]
  }

  lemma {:induction false} EverySenderIsAChain<V, E>(sender: Sender<V, E>)
    ensures Chain(StepsOf(sender)) == sender
    decreases sender
  {
    match sender
    case Schedule =>
    case Then(upstream, step) =>
      EverySenderIsAChain(upstream);
      var steps := StepsOf(sender);
      assert steps[..|steps| - 1] == StepsOf(upstream);
  }

  function Ids<V, E>(steps: seq<Step<V, E>>): (ids: seq<nat>) {
    seq(|steps|, i requires 0 <= i < |steps| => steps[i].id)
  }

  /** The step is done, and hands this on: the value that it returned, or nothing if it returned none. */
  ghost predicate Yields<V, E>(r: Return<V, E>, out: Option<V>) {
    match r
    case Returns(value) => out == Some(value)
    case ReturnsVoid => out == None
    case Throws(_) => false
  }

  /** `args` are the values handed to the steps, the first of them none, as far as no step throws. */
  ghost predicate Feeds<V, E>(steps: seq<Step<V, E>>, args: seq<Option<V>>) {
    && 0 < |args| <= |steps| + 1
    && args[0] == None
    && forall i | 0 <= i < |args| - 1 :: Yields(steps[i].body(args[i]), args[i + 1])
  }

  /**
    A chain is the fold of its steps up to the first throw: every step before it runs on what the
    one before returned, the thrown exception is the outcome, and no later step runs.
  */
  lemma {:induction false} ChainIsFold<V, E>(steps: seq<Step<V, E>>) returns (args: seq<Option<V>>)
    ensures Feeds(steps, args)
    ensures |args| == |steps| + 1 ==> Meaning(Chain(steps)) == Trail(Flowing(args[|steps|]), Ids(steps))
    ensures |args| <= |steps| ==>
              var r := steps[|args| - 1].body(args[|args| - 1]);
              r.Throws? && Meaning(Chain(steps)) == Trail(Failed(r.e), Ids(steps[..|args|]))
  {
    if steps == [] {
      args := [None];
    } else {
      var init, last := steps[..|steps| - 1], steps[|steps| - 1];
      args := ChainIsFold(init);
      if |args| == |init| + 1 {
        assert steps[..|args|] == steps;
        assert Ids(steps) == Ids(init) + [last.id];
        match last.body(args[|init|]) {
          case Returns(value) => args := args + [Some(value)];
          case ReturnsVoid => args := args + [None];
          case Throws(_) =>
        }
      } else {
        assert init[..|args|] == steps[..|args|];
      }
    }
  }

  /**
    What `get` reports and which steps have run when every step has its turn: the value that the
    last step returned, or the exception of the first that threw.
  */
  ghost predicate FoldsTo<V, E>(steps: seq<Step<V, E>>, args: seq<Option<V>>, report: GetResult<Option<V>, E>, ran: seq<nat>) {
    && Feeds(steps, args)
    && if |args| == |steps| + 1 then
         report == Got(args[|steps|]) && ran == Ids(steps)
       else
         var r := steps[|args| - 1].body(args[|args| - 1]);
         r.Throws? && report == Rethrows(r.e) && ran == Ids(steps[..|args|])
  }

  // ---------------------------------------------------------------- the objects

  /** The call that a flow makes on the shared state: the value receiver completes, or the task fails it. */
  function CallOf<V, E>(flow: Flow<V, E>): Call<Option<V>, E> {
    match flow
    case Flowing(arg) => SetValue(arg)
    case Failed(e) => SetException(e)
  }

  /** The call that the task makes on the shared state has the outcome of the fold. */
  lemma MeaningIsFold<V, E>(sender: Sender<V, E>) returns (args: seq<Option<V>>)
    ensures FoldsTo(StepsOf(sender), args, Promised(Some(CallOf(Meaning(sender).flow))), Meaning(sender).ran)
  {
    EverySenderIsAChain(sender);
    args := ChainIsFold(StepsOf(sender));
  }

  /** The shared state at the end of a nest. */
  function Target<V, E>(receiver: Receiver<V, E, State<Option<V>, E>>): (state: State<Option<V>, E>)
    ensures state == PromiseOf(receiver)
  {
    match receiver
    case ValueReceiver(state) => state
    case Adapter(downstream, _) => Target(downstream)
  }

  method Complete<V, E>(receiver: Receiver<V, E, State<Option<V>, E>>, arg: Option<V>) returns (thrown: Option<E>, ran: seq<nat>)
    modifies Target(receiver)
    ensures ran == Deliver(receiver, arg).ran
    ensures match Deliver(receiver, arg).flow
            case Failed(e) => thrown == Some(e) && unchanged(Target(receiver))
            case Flowing(out) =>
              && thrown == None
              && (Target(receiver).tag, Target(receiver).data)
                   == Apply(old(Target(receiver).tag), old(Target(receiver).data), SetValue(out))
    decreases receiver
  {
    match receiver
    case ValueReceiver(state) =>
      state.SetValue(arg);
      thrown, ran := None, [];
    case Adapter(downstream, step) =>
      match step.body(arg)
      case Throws(e) =>
        thrown, ran := Some(e), [step.id];
      case ReturnsVoid =>
        thrown, ran := Complete(downstream, None);
        ran := [step.id] + ran;
      case Returns(value) =>
        thrown, ran := Complete(downstream, Some(value));
        ran := [step.id] + ran;
  }

  method Fail<V, E>(receiver: Receiver<V, E, State<Option<V>, E>>, e: E)
    modifies Target(receiver)
    ensures (Target(receiver).tag, Target(receiver).data)
         == Apply(old(Target(receiver).tag), old(Target(receiver).data), SetException(e))
    decreases receiver
  {
    match receiver
    case ValueReceiver(state) => state.SetException(e);
    case Adapter(downstream, _) => Fail(downstream, e);
  }

  method Cancel<V, E>(receiver: Receiver<V, E, State<Option<V>, E>>)
    modifies Target(receiver)
    ensures (Target(receiver).tag, Target(receiver).data)
         == Apply(old(Target(receiver).tag), old(Target(receiver).data), Call.Cancel)
    decreases receiver
  {
    match receiver
    case ValueReceiver(state) => state.Cancel();
    case Adapter(downstream, _) => Cancel(downstream);
  }

  predicate IsCanceled<V, E>(receiver: Receiver<V, E, State<Option<V>, E>>): (canceled: bool)
    reads Target(receiver)
    ensures canceled <==> Target(receiver).tag == Canceled
  {
    match receiver
    case ValueReceiver(state) => state.tag == Canceled
    case Adapter(downstream, _) => IsCanceled(downstream)
  }

  /** The task that `schedule_state::start` enqueues. */
  method RunTask<V, E>(receiver: Receiver<V, E, State<Option<V>, E>>) returns (ran: seq<nat>)
    modifies Target(receiver)
    ensures old(Target(receiver).tag) == Canceled ==> ran == [] && unchanged(Target(receiver))
    ensures old(Target(receiver).tag) != Canceled ==>
              && ran == Deliver(receiver, None).ran
              && (Target(receiver).tag, Target(receiver).data)
                   == Apply(old(Target(receiver).tag), old(Target(receiver).data), CallOf(Deliver(receiver, None).flow))
  {
    ran := [];
    if !IsCanceled(receiver) {
      var thrown;
      thrown, ran := Complete(receiver, None);
      if thrown.Some? {
        Fail(receiver, thrown.value);
      }
    }
  }

  /**
    `wait` on a chain whose task is then run, and `get`: the future reports the meaning of the chain, value
    or first exception, and exactly the steps of that meaning have run, in order.  A cancel
    between the two leaves the future cancelled and runs nothing.
  */
  method WaitThenRun<V, E>(sender: Sender<V, E>, cancelFirst: bool)
    returns (report: GetResult<Option<V>, E>, ran: seq<nat>, ghost args: seq<Option<V>>)
    ensures cancelFirst ==> report == GotCanceled && ran == []
    ensures !cancelFirst ==> ran == Meaning(sender).ran
    ensures !cancelFirst ==>
              match Meaning(sender).flow
              case Flowing(arg) => report == Got(arg)
              case Failed(e) => report == Rethrows(e)
    ensures !cancelFirst ==> FoldsTo(StepsOf(sender), args, report, ran)
  {
    args := MeaningIsFold(sender);
    var state := new State<Option<V>, E>();
    var receiver := Connect(sender, ValueReceiver(state));
    ConnectPreservesMeaning(sender, ValueReceiver(state));
    if cancelFirst {
      state.Cancel();
    }
    ran := RunTask(receiver);
    report := state.Get();
  }
}
