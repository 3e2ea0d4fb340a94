/**
  `shared_state` as a write-once cell.  A setter first exchanges the tag and then, if it won,
  writes the data and notifies: three steps that other setters may interleave with.
*/
module SharedState {
  import opened Wrappers

  datatype Tag = Init | Value | Error | Canceled | Broken

  datatype Data<V, E> = Monostate | Exception(e: E) | Result(value: Option<V>)

  datatype Call<V, E> = SetValue(value: V) | SetException(e: E) | Cancel | Break

  datatype Setter<V, E> = Idle | Writing(call: Call<V, E>) | Notifying

  datatype Cell<V, E> = Cell(tag: Tag, data: Data<V, E>, setters: seq<Setter<V, E>>)

  datatype Event<V, E> =
    | Exchange(t: nat, call: Call<V, E>)
    | Write(t: nat)
    | Notify(t: nat)

  /** What `get` does: it reports one of the four outcomes, it finds the wrong variant, or it waits. */
  datatype GetResult<V, E> =
    | Got(value: V)
    | GotCanceled
    | Rethrows(e: E)
    | BrokenPromise
    | BadVariantAccess
    | Waits

  function Fresh<V, E>(setters: nat): Cell<V, E> {
    Cell(Init, Monostate, seq(setters, _ => Idle))
  }

  function TagOf<V, E>(call: Call<V, E>): Tag {
    match call
    case SetValue(_) => Value
    case SetException(_) => Error
    case Cancel => Canceled
    case Break => Broken
  }

  function DataOf<V, E>(call: Call<V, E>): Data<V, E> {
    match call
    case SetValue(value) => Result(Some(value))
    case SetException(e) => Exception(e)
    case Cancel => Result(None)
    case Break => Monostate
  }

  predicate Enabled<V, E>(s: Cell<V, E>, e: Event<V, E>) {
    && e.t < |s.setters|
    && match e
       case Exchange(t, _) => s.setters[t].Idle?
       case Write(t) => s.setters[t].Writing?
       case Notify(t) => s.setters[t].Notifying?
  }

  function Next<V, E>(s: Cell<V, E>, e: Event<V, E>): Cell<V, E>
    requires Enabled(s, e)
  {
    match e
    case Exchange(t, call) =>
      if s.tag == Init then
        s.(tag := TagOf(call), setters := s.setters[t := if call.Break? then Notifying else Writing(call)])
      else
        s
    case Write(t) =>
      s.(data := DataOf(s.setters[t].call), setters := s.setters[t := Notifying])
    case Notify(t) =>
      s.(setters := s.setters[t := Idle])
  }

  predicate Runs<V, E>(s: Cell<V, E>, es: seq<Event<V, E>>)
    decreases |es|
  {
    es == [] || (Enabled(s, es[0]) && Runs(Next(s, es[0]), es[1..]))
  }

  function Exec<V, E>(s: Cell<V, E>, es: seq<Event<V, E>>): Cell<V, E>
    requires Runs(s, es)
    decreases |es|
  {
    if es == [] then s else Exec(Next(s, es[0]), es[1..])
  }

  lemma {:induction false} RunsConcat<V, E>(s: Cell<V, E>, a: seq<Event<V, E>>, b: seq<Event<V, E>>)
    requires Runs(s, a) && Runs(Exec(s, a), b)
    ensures Runs(s, a + b) && Exec(s, a + b) == Exec(Exec(s, a), b)
    decreases |a|
  {
    if a == [] {
      assert a + b == b;
    } else {
      RunsConcat(Next(s, a[0]), a[1..], b);
      assert (a + b)[1..] == a[1..] + b;
    }
  }

  /** `get`: it switches on the tag and then reads the variant that the tag announces. */
  function Reported<V, E>(s: Cell<V, E>): GetResult<V, E> {
    match s.tag
    case Init => Waits
    case Value => ReadResult(s.data)
    case Canceled => ReadResult(s.data)
    case Error => if s.data.Exception? then Rethrows(s.data.e) else BadVariantAccess
    case Broken => BrokenPromise
  }

  function ReadResult<V, E>(d: Data<V, E>): GetResult<V, E> {
    match d
    case Result(Some(value)) => Got(value)
    case Result(None) => GotCanceled
    case _ => BadVariantAccess
  }

  // ---------------------------------------------------------------- the specification: first call wins

  /** The first call that reaches its exchange, in a run from a fresh cell. */
  function Winner<V, E>(es: seq<Event<V, E>>): Option<Call<V, E>> {
    if es == [] then None
    else if es[0].Exchange? then Some(es[0].call)
    else Winner(es[1..])
  }

  lemma {:induction false} WinnerConcat<V, E>(a: seq<Event<V, E>>, b: seq<Event<V, E>>)
    ensures Winner(a + b) == if Winner(a).Some? then Winner(a) else Winner(b)
    decreases |a|
  {
    if a == [] {
      assert a + b == b;
    } else {
      WinnerConcat(a[1..], b);
      assert (a + b)[1..] == a[1..] + b;
    }
  }

  function Writes<V, E>(es: seq<Event<V, E>>): nat {
    if es == [] then 0 else (if es[0].Write? then 1 else 0) + Writes(es[1..])
  }

  /** What the winning call promises to the caller of `get`. */
  function Promised<V, E>(winner: Option<Call<V, E>>): GetResult<V, E> {
    match winner
    case None => Waits
    case Some(SetValue(value)) => Got(value)
    case Some(SetException(e)) => Rethrows(e)
    case Some(Cancel) => GotCanceled
    case Some(Break) => BrokenPromise
  }

  predicate MidWrite<V, E>(s: Cell<V, E>) {
    exists t :: 0 <= t < |s.setters| && s.setters[t].Writing?
  }

  /** The cell after a run whose first exchange was `winner` and which wrote `writes` times. */
  ghost predicate Follows<V, E>(s: Cell<V, E>, winner: Option<Call<V, E>>, writes: nat) {
    match winner
    case None => s.tag == Init && s.data == Monostate && writes == 0 && forall t | 0 <= t < |s.setters| :: s.setters[t].Idle?
    case Some(call) =>
      && s.tag == TagOf(call)
      && (forall t | 0 <= t < |s.setters| && s.setters[t].Writing? :: s.setters[t].call == call)
      && (forall t, u | 0 <= t < u < |s.setters| :: !(s.setters[t].Writing? && s.setters[u].Writing?))
      && (if MidWrite(s) then !call.Break? && s.data == Monostate && writes == 0
          else s.data == DataOf(call) && writes == (if call.Break? then 0 else 1))
  }

  function WinnerAfter<V, E>(winner: Option<Call<V, E>>, e: Event<V, E>): Option<Call<V, E>> {
    if winner.None? && e.Exchange? then Some(e.call) else winner
  }

  lemma StepFollows<V, E>(s: Cell<V, E>, e: Event<V, E>, winner: Option<Call<V, E>>, writes: nat)
    requires Enabled(s, e) && Follows(s, winner, writes)
    ensures Follows(Next(s, e), WinnerAfter(winner, e), writes + (if e.Write? then 1 else 0))
  {
    var s' := Next(s, e);
    match e
    case Exchange(t, call) =>
      if s.tag == Init && !call.Break? {
        assert s'.setters[t].Writing?;
      }
    case Write(t) =>
      assert MidWrite(s);
      assert forall u | 0 <= u < |s'.setters| :: !s'.setters[u].Writing?;
    case Notify(t) =>
      assert forall u | 0 <= u < |s'.setters| :: s'.setters[u].Writing? <==> s.setters[u].Writing?;
      if MidWrite(s) {
        var u :| 0 <= u < |s.setters| && s.setters[u].Writing?;
        assert s'.setters[u].Writing?;
      }
  }

  function WinnerFrom<V, E>(winner: Option<Call<V, E>>, es: seq<Event<V, E>>): Option<Call<V, E>> {
    if winner.Some? then winner else Winner(es)
  }

  lemma {:induction false} RunFollows<V, E>(s: Cell<V, E>, es: seq<Event<V, E>>, winner: Option<Call<V, E>>, writes: nat)
    requires Runs(s, es) && Follows(s, winner, writes)
    ensures Follows(Exec(s, es), WinnerFrom(winner, es), writes + Writes(es))
    decreases |es|
  {
    if es != [] {
      StepFollows(s, es[0], winner, writes);
      RunFollows(Next(s, es[0]), es[1..], WinnerAfter(winner, es[0]), writes + (if es[0].Write? then 1 else 0));
    }
  }

  /**
    Write-once, over every interleaving of any number of setters: the tag is that of the first
    call to exchange, the data is written at most once, and `get` reports that first call, and no
    other, exactly when its winner is not between the exchange and the write.
  */
  lemma FirstCallWins<V, E>(setters: nat, es: seq<Event<V, E>>)
    requires Runs(Fresh<V, E>(setters), es)
    ensures var s := Exec(Fresh<V, E>(setters), es);
            && (s.tag == Init <==> Winner(es).None?)
            && (Winner(es).Some? ==> s.tag == TagOf(Winner(es).value))
            && Writes(es) <= 1
            && (s.data != Monostate ==> Winner(es).Some? && s.data == DataOf(Winner(es).value) && Writes(es) == 1)
            && (Reported(s) == Promised(Winner(es)) <==> !MidWrite(s))
            && (MidWrite(s) ==> Reported(s) == BadVariantAccess)
  {
    var s0 := Fresh<V, E>(setters);
    assert Follows(s0, None, 0);
    RunFollows(s0, es, None, 0);
  }

  /** The tag leaves its initial value at most once: a ready cell keeps its tag in every continuation. */
  lemma {:induction false} TagIsStable<V, E>(s: Cell<V, E>, es: seq<Event<V, E>>)
    requires Runs(s, es) && s.tag != Init
    ensures Exec(s, es).tag == s.tag
    decreases |es|
  {
    if es != [] {
      TagIsStable(Next(s, es[0]), es[1..]);
    }
  }

  /** `get` can find the wrong variant: the tag is published before the data. */
  lemma TornGet<V, E>(value: V)
    ensures var es := [Exchange(0, SetValue(value))];
            Runs(Fresh<V, E>(1), es) && Reported(Exec(Fresh<V, E>(1), es)) == BadVariantAccess
  {
    var s := Next(Fresh<V, E>(1), Exchange(0, SetValue(value)));
    assert Exec(s, []) == s;
  }

  // ---------------------------------------------------------------- the object

  /** A call that runs without interruption. */
  function Apply<V, E>(tag: Tag, data: Data<V, E>, call: Call<V, E>): (Tag, Data<V, E>) {
    if tag == Init then (TagOf(call), if call.Break? then data else DataOf(call)) else (tag, data)
  }

  class State<V, E> {
    var tag: Tag
    var data: Data<V, E>

    /** The cell of this object when no call is in progress. */
    ghost function View(): Cell<V, E>
      reads this
    {
      Cell(tag, data, [Idle])
    }

    constructor ()
      ensures View() == Fresh(1)
    {
      tag := Init;
      data := Monostate;
      new;
      assert Fresh<V, E>(1).setters == [Idle];
    }

    method CompareExchange(desired: Tag) returns (won: bool)
      modifies this`tag
      ensures won == (old(tag) == Init)
      ensures tag == if won then desired else old(tag)
    {
      won := tag == Init;
      if won {
        tag := desired;
      }
    }

    method SetValue(value: V)
      modifies this
      ensures (tag, data) == Apply(old(tag), old(data), Call.SetValue(value))
    {
      var won := CompareExchange(Value);
      if won {
        data := Result(Some(value));
      }
    }

    method SetException(e: E)
      modifies this
      ensures (tag, data) == Apply(old(tag), old(data), Call.SetException(e))
    {
      var won := CompareExchange(Error);
      if won {
        data := Exception(e);
      }
    }

    method Cancel()
      modifies this
      ensures (tag, data) == Apply(old(tag), old(data), Call.Cancel)
    {
      var won := CompareExchange(Canceled);
      if won {
        data := Result(None);
      }
    }

    method Broken()
      modifies this
      ensures (tag, data) == Apply(old(tag), old(data), Call.Break)
    {
      var _ := CompareExchange(Tag.Broken);
    }

    method Get() returns (r: GetResult<V, E>)
      ensures r == Reported(View())
    {
      match tag {
        case Init => r := Waits;
        case Value => r := ReadResult(data);
        case Canceled => r := ReadResult(data);
        case Error => r := if data.Exception? then Rethrows(data.e) else BadVariantAccess;
        case Broken => r := BrokenPromise;
      }
    }
  }

  /** A call that is not interrupted is the run of its own steps in the machine. */
  lemma CallIsItsOwnRun<V, E>(s: Cell<V, E>, t: nat, call: Call<V, E>)
    requires t < |s.setters| && s.setters[t].Idle?
    ensures var es := if s.tag != Init then [Exchange(t, call)]
                      else if call.Break? then [Exchange(t, call), Notify(t)]
                      else [Exchange(t, call), Write(t), Notify(t)];
            && Runs(s, es)
            && Exec(s, es) == s.(tag := Apply(s.tag, s.data, call).0, data := Apply(s.tag, s.data, call).1)
  {
    var s1 := Next(s, Exchange(t, call));
    if s.tag == Init {
      if call.Break? {
        assert Runs(s1, [Notify(t)]);
        assert Exec(s1, [Notify(t)]) == Next(s1, Notify(t));
        assert Next(s1, Notify(t)).setters == s.setters;
      } else {
        var s2 := Next(s1, Write(t));
        assert Runs(s2, [Notify(t)]);
        assert Exec(s2, [Notify(t)]) == Next(s2, Notify(t));
        assert Runs(s1, [Write(t), Notify(t)]) && Exec(s1, [Write(t), Notify(t)]) == Next(s2, Notify(t));
        assert Next(s2, Notify(t)).setters == s.setters;
      }
    }
  }
}
