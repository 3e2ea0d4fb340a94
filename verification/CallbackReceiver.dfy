/**
  `callback_receiver`: three handlers behind one compare-exchange.  The exchange and the
  invocation of the handler are two steps, so calls from several threads may interleave.
*/
module CallbackReceiver {
  import opened Wrappers

  datatype Tag = Initial | Completed | Failed | Canceled

  /** Which of the three operations was called, and hence which handler it invokes. */
  datatype Kind = Complete | Fail | Cancel

  datatype Caller = Idle | Invoking(kind: Kind)

  datatype Receiver = Receiver(tag: Tag, callers: seq<Caller>, invoked: seq<Kind>)

  datatype Event =
    | Exchange(t: nat, kind: Kind)
    | Invoke(t: nat, throws: bool)
    | Move

  function TagOf(kind: Kind): Tag {
    match kind
    case Complete => Completed
    case Fail => Failed
    case Cancel => Canceled
  }

  function Fresh(callers: nat): Receiver {
    Receiver(Initial, seq(callers, _ => Idle), [])
  }

  predicate Enabled(s: Receiver, e: Event) {
    match e
    case Exchange(t, _) => t < |s.callers| && s.callers[t].Idle?
    case Invoke(t, throws) => t < |s.callers| && s.callers[t].Invoking? && (throws ==> s.callers[t].kind.Complete?)
    case Move => forall t | 0 <= t < |s.callers| :: s.callers[t].Idle?
  }

  /** A handler that throws has been invoked all the same; a moved receiver takes the tag along. */
  function Next(s: Receiver, e: Event): Receiver
    requires Enabled(s, e)
  {
    match e
    case Exchange(t, kind) =>
      if s.tag == Initial then s.(tag := TagOf(kind), callers := s.callers[t := Invoking(kind)]) else s
    case Invoke(t, _) =>
      s.(callers := s.callers[t := Idle], invoked := s.invoked + [s.callers[t].kind])
    case Move => s
  }

  predicate Runs(s: Receiver, es: seq<Event>)
    decreases |es|
  {
    es == [] || (Enabled(s, es[0]) && Runs(Next(s, es[0]), es[1..]))
  }

  function Exec(s: Receiver, es: seq<Event>): Receiver
    requires Runs(s, es)
    decreases |es|
  {
    if es == [] then s else Exec(Next(s, es[0]), es[1..])
  }

  lemma RunCons(s: Receiver, e: Event, rest: seq<Event>)
    requires Enabled(s, e) && Runs(Next(s, e), rest)
    ensures Runs(s, [e] + rest) && Exec(s, [e] + rest) == Exec(Next(s, e), rest)
  {
  }

  function First(es: seq<Event>): Option<Kind> {
    if es == [] then None else if es[0].Exchange? then Some(es[0].kind) else First(es[1..])
  }

  predicate Busy(s: Receiver) {
    exists t :: 0 <= t < |s.callers| && s.callers[t].Invoking?
  }

  /** The receiver after a run whose first call was `first`. */
  ghost predicate Follows(s: Receiver, first: Option<Kind>) {
    match first
    case None => s.tag == Initial && s.invoked == [] && !Busy(s)
    case Some(kind) =>
      && s.tag == TagOf(kind)
      && (forall t | 0 <= t < |s.callers| && s.callers[t].Invoking? :: s.callers[t].kind == kind)
      && (forall t, u | 0 <= t < u < |s.callers| :: !(s.callers[t].Invoking? && s.callers[u].Invoking?))
      && s.invoked == if Busy(s) then [] else [kind]
  }

  lemma StepFollows(s: Receiver, e: Event, first: Option<Kind>)
    requires Enabled(s, e) && Follows(s, first)
    ensures Follows(Next(s, e), if first.None? && e.Exchange? then Some(e.kind) else first)
  {
    var s' := Next(s, e);
    match e
    case Exchange(t, _) =>
      if s.tag == Initial {
        assert s'.callers[t].Invoking?;
      }
    case Invoke(t, _) =>
      assert Busy(s);
      assert forall u | 0 <= u < |s'.callers| :: !s'.callers[u].Invoking?;
    case Move =>
  }

  lemma {:induction false} RunFollows(s: Receiver, es: seq<Event>, first: Option<Kind>)
    requires Runs(s, es) && Follows(s, first)
    ensures Follows(Exec(s, es), if first.Some? then first else First(es))
    decreases |es|
  {
    if es != [] {
      StepFollows(s, es[0], first);
      RunFollows(Next(s, es[0]), es[1..], if first.None? && es[0].Exchange? then Some(es[0].kind) else first);
    }
  }

  /**
    One shot: over every interleaving at most one handler is invoked, it is the handler of the
    first call, and it has been invoked as soon as no call is in progress.  The state names that
    call: completed after `complete`, failed after `fail`, canceled after `cancel`.
  */
  lemma OneShot(callers: nat, es: seq<Event>)
    requires Runs(Fresh(callers), es)
    ensures var s := Exec(Fresh(callers), es);
            match First(es)
            case None => s.tag == Initial && s.invoked == []
            case Some(kind) =>
              && s.invoked == (if Busy(s) then [] else [kind])
              && match kind
                 case Complete => s.tag == Completed
                 case Fail => s.tag == Failed
                 case Cancel => s.tag == Canceled
  {
    RunFollows(Fresh(callers), es, None);
  }

  // ---------------------------------------------------------------- is_canceled

  /** As the code has it: compared against the failed state, and for difference. */
  predicate ReportsCanceled(tag: Tag) {
    tag != Failed
  }

  /** The answer is right exactly for a cancelled and for a failed receiver. */
  lemma ReportsCanceledIsRightIff(tag: Tag)
    ensures (ReportsCanceled(tag) <==> tag == Canceled) <==> tag == Canceled || tag == Failed
  {
  }

  /** What `is_canceled` answers after any run: no exactly if the first call was `fail`. */
  lemma AnswerAfterRun(callers: nat, es: seq<Event>)
    requires Runs(Fresh(callers), es)
    ensures !ReportsCanceled(Exec(Fresh(callers), es).tag) <==> First(es) == Some(Fail)
  {
    OneShot(callers, es);
  }

  // ---------------------------------------------------------------- the object

  class Callback {
    var tag: Tag
    var invoked: seq<Kind>

    ghost function View(): Receiver
      reads this
    {
      Receiver(tag, [Idle], invoked)
    }

    constructor ()
      ensures View() == Fresh(1)
    {
      tag, invoked := Initial, [];
    }

    /** Any of complete, fail and cancel, run without interruption. */
    method Call(kind: Kind)
      modifies this
      ensures old(tag) != Initial ==> tag == old(tag)
      ensures old(tag) == Initial ==>
                match kind
                case Complete => tag == Completed
                case Fail => tag == Failed
                case Cancel => tag == Canceled
      ensures invoked == if old(tag) == Initial then old(invoked) + [kind] else old(invoked)
    {
      if tag == Initial {
        tag := TagOf(kind);
        invoked := invoked + [kind];
      }
    }

    /**
      The task of `schedule_state` on such a receiver: because of the answer of `is_canceled` it
      never completes it, whatever state the receiver is in.
    */
    method RunTask()
      modifies this
      ensures tag == old(tag) && invoked == old(invoked)
    {
      if !ReportsCanceled(tag) {
        Call(Complete);
      }
    }
  }

  /** A call that is not interrupted is the run of its own steps in the machine. */
  lemma CallIsItsOwnRun(s: Receiver, t: nat, kind: Kind)
    requires t < |s.callers| && s.callers[t].Idle?
    ensures var es := if s.tag == Initial then [Exchange(t, kind), Invoke(t, false)] else [Exchange(t, kind)];
            && Runs(s, es) && Exec(s, es).callers == s.callers
            && Exec(s, es).invoked == (if s.tag == Initial then s.invoked + [kind] else s.invoked)
            && Exec(s, es).tag
                 == if s.tag != Initial then s.tag else if kind.Complete? then Completed else if kind.Fail? then Failed else Canceled
  {
    var s1 := Next(s, Exchange(t, kind));
    if s.tag == Initial {
      var s2 := Next(s1, Invoke(t, false));
      assert s2.callers == s.callers;
      RunCons(s1, Invoke(t, false), []);
      RunCons(s, Exchange(t, kind), [Invoke(t, false)] + []);
      assert [Exchange(t, kind)] + ([Invoke(t, false)] + []) == [Exchange(t, kind), Invoke(t, false)];
    } else {
      RunCons(s, Exchange(t, kind), []);
      assert [Exchange(t, kind)] + [] == [Exchange(t, kind)];
    }
  }
}
