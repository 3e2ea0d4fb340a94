/**
  When `schedule` falls back to the blocking push.  The call counts its failed probes in an
  `unsigned` and compares it with four times the number of queues, so it can fall back, and is
  sure to end, exactly if that number fits 32 bits.
*/
module ProbeLoop {
  import opened Tickets
  import opened Pool
  import opened PoolInvariant
  import opened PoolConservation
  import opened Solo

  /** The next `k` probes of client `c` all fail. */
  function FailedProbes<T>(c: nat, k: nat): seq<Event<T>> {
    if k == 0 then [] else [ProbePush(c, false)] + FailedProbes(c, k - 1)
  }

  lemma NotHome<T>(s: Pool<T>, e: Event<T>)
    requires Inv(s) && Enabled(s, e) && 4 * |s.queues| >= U32
    ensures !e.PushHome?
  {
    assert !ByWorker(e) ==> ClientShape(s, s.clients[e.c]);
  }

  /** In a pool of 2^30 queues or more no run ever makes the blocking push. */
  lemma {:induction false} NoFallback<T>(s: Pool<T>, es: seq<Event<T>>)
    requires Inv(s) && Runs(s, es) && 4 * |s.queues| >= U32
    ensures forall i | 0 <= i < |es| :: !es[i].PushHome?
    decreases |es|
  {
    if es != [] {
      NotHome(s, es[0]);
      StepKeepsInv(s, es[0]);
      assert |Next(s, es[0]).queues| == |s.queues|;
      NoFallback(Next(s, es[0]), es[1..]);
    }
  }

  /** How many more probes a call with counter `n` makes before it falls back. */
  function Left(n: nat, count: nat): nat {
    if n <= 4 * count then 4 * count - n else 0
  }

  /** The pool with the counter of caller `c` at `n`. */
  function Counted<T>(s: Pool<T>, c: nat, n: nat): Pool<T>
    requires c < |s.clients| && s.clients[c].Pushing?
  {
    s.(clients := s.clients[c := s.clients[c].(n := n)])
  }

  lemma CountedTwice<T>(s: Pool<T>, c: nat, m: nat, n: nat)
    requires c < |s.clients| && s.clients[c].Pushing?
    ensures c < |Counted(s, c, m).clients| && Counted(s, c, m).clients[c] == s.clients[c].(n := m)
    ensures Counted(Counted(s, c, m), c, n) == Counted(s, c, n) && |Counted(s, c, m).queues| == |s.queues|
    ensures Counted(s, c, s.clients[c].n) == s
  {
    assert s.clients[c := s.clients[c]] == s.clients;
  }

  /** A probe that fails moves nothing but the counter of its caller. */
  lemma OneFails<T>(s: Pool<T>, c: nat)
    requires Inv(s) && c < |s.clients| && s.clients[c].Pushing?
    requires 4 * |s.queues| < U32 ==> 0 < Left(s.clients[c].n, |s.queues|)
    ensures Enabled(s, ProbePush(c, false))
    ensures var n := s.clients[c].n;
            var s' := Next(s, ProbePush(c, false));
            && Inv(s')
            && s' == Counted(s, c, Wrap(n + 1))
            && (4 * |s.queues| < U32 ==> Left(Wrap(n + 1), |s.queues|) == Left(n, |s.queues|) - 1)
  {
    var e: Event<T> := ProbePush(c, false);
    NotYetHome(s, c);
    hide Inv, AtPoint;
    ClientIsOutside(s, c, TouchOf(s, e).q);
    ProbeMisses(s, e);
    hide Next;
  }

  lemma NotYetHome<T>(s: Pool<T>, c: nat)
    requires Inv(s) && c < |s.clients| && s.clients[c].Pushing?
    requires 4 * |s.queues| < U32 ==> 0 < Left(s.clients[c].n, |s.queues|)
    ensures 0 < |s.queues| && AtPoint(s, ProbePush(c, false))
    ensures 4 * |s.queues| < U32 ==> Left(Wrap(s.clients[c].n + 1), |s.queues|) == Left(s.clients[c].n, |s.queues|) - 1
  {
    assert ClientShape(s, s.clients[c]);
  }

  lemma NoneFails<T>(s: Pool<T>, c: nat)
    requires Inv(s) && c < |s.clients| && s.clients[c].Pushing?
    ensures Runs(s, FailedProbes(c, 0)) && Exec(s, FailedProbes(c, 0)) == Counted(s, c, Wrap(s.clients[c].n + 0))
  {
    assert ClientShape(s, s.clients[c]);
    CountedTwice(s, c, 0, 0);
  }

  lemma {:induction false} Failing<T>(s: Pool<T>, c: nat, k: nat)
    requires Inv(s) && c < |s.clients| && s.clients[c].Pushing?
    requires 4 * |s.queues| < U32 ==> k <= Left(s.clients[c].n, |s.queues|)
    ensures Runs(s, FailedProbes(c, k))
    ensures Exec(s, FailedProbes(c, k)) == Counted(s, c, Wrap(s.clients[c].n + k))
    decreases k
  {
    hide Next, Enabled, Inv, Runs, Exec, Taken, Takes, Left, Counted, Wrap;
    if k == 0 {
      NoneFails(s, c);
    } else {
      OneFails(s, c);
      CountedTwice(s, c, Wrap(s.clients[c].n + 1), Wrap(s.clients[c].n + k));
      Failing(Next(s, ProbePush(c, false)), c, k - 1);
      RunCons(s, ProbePush(c, false), FailedProbes(c, k - 1));
      WrapTwice(s.clients[c].n, k);
    }
  }

  lemma WrapTwice(n: nat, k: nat)
    requires 0 < k
    ensures Wrap(Wrap(n + 1) + (k - 1)) == Wrap(n + k)
  {
    WrappedProbe(k - 1, n + 1, U32);
  }

  /** After `k` failed probes the call is about to make its blocking push. */
  ghost predicate FallsBackAfter<T>(s: Pool<T>, c: nat, k: nat) {
    Runs(s, FailedProbes(c, k)) && Enabled(Exec(s, FailedProbes(c, k)), PushHome(c))
  }

  /**
    For every state of every pool and every call in progress: the call falls back after finitely
    many failed probes if and only if four times the queue count fits 32 bits, and if it does not,
    the probes can fail for ever.
  */
  lemma FallsBackIff<T>(s: Pool<T>, c: nat)
    requires Inv(s) && c < |s.clients| && s.clients[c].Pushing?
    ensures (exists k: nat :: FallsBackAfter(s, c, k)) <==> 4 * |s.queues| < U32
    ensures (forall k: nat :: Runs(s, FailedProbes(c, k))) <==> 4 * |s.queues| >= U32
  {
    if 4 * |s.queues| < U32 {
      var k := Left(s.clients[c].n, |s.queues|);
      LastProbe(s, c, k);
      OneProbeTooMany(s, c, k);
    } else {
      forall k: nat ensures Runs(s, FailedProbes(c, k)) && !FallsBackAfter(s, c, k) {
        Failing(s, c, k);
      }
    }
  }

  lemma HomeIsReady<T>(s: Pool<T>, c: nat)
    requires Inv(s) && c < |s.clients| && s.clients[c].Pushing? && s.clients[c].n == 4 * |s.queues|
    ensures Enabled(s, PushHome(c))
  {
    ClientIsOutside(s, c, Home(s, s.clients[c].index));
  }

  lemma LastCount<T>(s: Pool<T>, c: nat)
    requires Inv(s) && c < |s.clients| && s.clients[c].Pushing? && 4 * |s.queues| < U32
    ensures Wrap(s.clients[c].n + Left(s.clients[c].n, |s.queues|)) == 4 * |s.queues|
  {
    assert ClientShape(s, s.clients[c]);
  }

  lemma LastProbe<T>(s: Pool<T>, c: nat, k: nat)
    requires Inv(s) && c < |s.clients| && s.clients[c].Pushing? && 4 * |s.queues| < U32
    requires k == Left(s.clients[c].n, |s.queues|)
    ensures FallsBackAfter(s, c, k)
    ensures var s' := Exec(s, FailedProbes(c, k));
            |s'.queues| == |s.queues| && c < |s'.clients| && s'.clients[c].Pushing? && s'.clients[c].n == 4 * |s.queues|
  {
    hide Runs, Exec, Inv, Left, Wrap, Enabled;
    LastCount(s, c);
    Failing(s, c, k);
    RunKeepsInv(s, FailedProbes(c, k));
    HomeIsReady(Exec(s, FailedProbes(c, k)), c);
  }

  lemma OneProbeTooMany<T>(s: Pool<T>, c: nat, k: nat)
    requires c < |s.clients| && s.clients[c].Pushing? && Runs(s, FailedProbes(c, k))
    requires c < |Exec(s, FailedProbes(c, k)).clients|
    requires Exec(s, FailedProbes(c, k)).clients[c].Pushing? && |Exec(s, FailedProbes(c, k)).queues| == |s.queues|
    requires Exec(s, FailedProbes(c, k)).clients[c].n == 4 * |s.queues|
    ensures !Runs(s, FailedProbes(c, k + 1))
    decreases k
  {
    if k > 0 && Runs(s, FailedProbes(c, k + 1)) {
      assert FailedProbes<T>(c, k + 1)[1..] == FailedProbes(c, k);
      assert FailedProbes<T>(c, k)[1..] == FailedProbes(c, k - 1);
      OneProbeTooMany(Next(s, ProbePush(c, false)), c, k - 1);
    }
  }

  /** The smallest pool for which a call can probe without end, from its start. */
  lemma EndlessProbing<T>(task: T, k: nat)
    ensures Runs(Fresh<T>(0x4000_0000, 1), [BeginSchedule(0, task)] + FailedProbes(0, k))
  {
    var s := Fresh<T>(0x4000_0000, 1);
    FreshInv<T>(0x4000_0000, 1);
    var e := BeginSchedule(0, task);
    StepKeepsInv(s, e);
    var s' := Next(s, e);
    assert |s'.queues| == 0x4000_0000 && s'.clients[0].Pushing?;
    Failing(s', 0, k);
    RunCons(s, e, FailedProbes(0, k));
  }
}
