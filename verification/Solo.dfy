/**
  The objects and the step machine agree: a call that is left alone, and whose try-locks go as
  they may, takes the machine to the contents that the method of the scheduler ends with.
*/
module Solo {
  import opened Tickets
  import opened Dealing
  import opened Pool
  import opened PoolInvariant
  import opened PoolConservation
  import M = Monitor

  function Items<T>(queues: seq<M.Monitor<T>>): (c: seq<seq<T>>)
    ensures |c| == |queues|
  {
    seq(|queues|, i requires 0 <= i < |queues| => queues[i].items)
  }

  function Contents<T>(s: Pool<T>): (c: seq<seq<T>>)
    ensures |c| == |s.queues|
  {
    Items(s.queues)
  }

  ghost predicate OnlyClient<T>(es: seq<Event<T>>, c: nat) {
    forall i | 0 <= i < |es| :: !ByWorker(es[i]) && es[i].c == c
  }

  ghost predicate OnlyWorker<T>(es: seq<Event<T>>, w: nat) {
    forall i | 0 <= i < |es| :: ByWorker(es[i]) && es[i].w == w
  }

  lemma OnlyClientCons<T>(e: Event<T>, rest: seq<Event<T>>, c: nat)
    requires !ByWorker(e) && e.c == c && OnlyClient(rest, c)
    ensures OnlyClient([e] + rest, c)
  {
  }

  lemma OnlyClientPair<T>(e: Event<T>, f: Event<T>)
    requires !ByWorker(e) && !ByWorker(f) && e.c == f.c
    ensures OnlyClient([e] + [f], e.c)
  {
  }

  lemma OnlyWorkerNil<T>(w: nat)
    ensures OnlyWorker<T>([], w)
  {
  }

  lemma OnlyWorkerCons<T>(e: Event<T>, rest: seq<Event<T>>, w: nat)
    requires ByWorker(e) && e.w == w && OnlyWorker(rest, w)
    ensures OnlyWorker([e] + rest, w)
  {
  }

  /** The outcome of the try-lock of this event, if it has one. */
  function TryOf<T>(e: Event<T>): seq<bool> {
    if e.ProbePush? || e.Probe? then [e.locked] else []
  }

  /** The outcomes of the try-locks in a run, in order. */
  function Tries<T>(es: seq<Event<T>>): seq<bool> {
    if es == [] then [] else TryOf(es[0]) + Tries(es[1..])
  }

  /** Of the outcomes that a call is given from `k` on, those that it gets to see if it stops at `first`. */
  function Seen(locks: seq<bool>, k: nat, first: nat): seq<bool>
    requires k <= first <= |locks|
  {
    locks[k..if first < |locks| then first + 1 else first]
  }

  lemma TriesCons<T>(e: Event<T>, rest: seq<Event<T>>)
    ensures Tries([e] + rest) == TryOf(e) + Tries(rest)
  {
    assert ([e] + rest)[1..] == rest;
  }

  lemma TriesOne<T>(e: Event<T>)
    ensures Tries([e]) == TryOf(e)
  {
    assert Tries<T>([]) == [];
  }

  lemma {:induction false} TriesConcat<T>(a: seq<Event<T>>, b: seq<Event<T>>)
    ensures Tries(a + b) == Tries(a) + Tries(b)
  {
    if a == [] {
      assert a + b == b;
    } else {
      hide Tries, TryOf;
      var e, rest := a[0], a[1..];
      Rejoin(a, b);
      TriesCons(e, rest + b);
      TriesCons(e, rest);
      TriesConcat(rest, b);
      Regroup(TryOf(e), Tries(rest), Tries(b));
    }
  }

  lemma Rejoin<A>(a: seq<A>, b: seq<A>)
    requires a != []
    ensures a + b == [a[0]] + (a[1..] + b) && a == [a[0]] + a[1..]
  {
  }

  lemma Regroup<A>(x: seq<A>, y: seq<A>, z: seq<A>)
    ensures x + (y + z) == (x + y) + z
  {
  }

  /** One outcome more in front. */
  lemma SeenCons(locks: seq<bool>, k: nat, first: nat)
    requires k <= first <= |locks|
    ensures k < first ==> Seen(locks, k, first) == [locks[k]] + Seen(locks, k + 1, first)
    ensures k == first ==> Seen(locks, k, first) == if k < |locks| then [locks[k]] else []
  {
  }

  lemma ClientIsOutside<T>(s: Pool<T>, c: nat, q: nat)
    requires Inv(s) && c < |s.clients| && q < |s.queues|
    requires !s.clients[c].NotifyingOne? && !s.clients[c].NotifyingAll?
    ensures M.Idle(s.queues[q], ClientTid(s, c))
  {
    assert Fits(s, q, ClientTid(s, c));
  }

  lemma WorkerIsOutside<T>(s: Pool<T>, w: nat, q: nat)
    requires Inv(s) && w < |s.workers| && q < |s.queues| && !s.workers[w].Waiting?
    ensures M.Idle(s.queues[q], w)
  {
    assert Fits(s, q, w);
  }

  // ---------------------------------------------------------------- schedule

  /** A notification leaves the contents alone. */
  lemma NotifyKeepsContents<T>(s: Pool<T>, e: Event<T>)
    requires Enabled(s, e) && e.NotifyOne?
    ensures Next(s, e).clients == s.clients[e.c := Idle] && Next(s, e).pushIndex == s.pushIndex
    ensures Contents(Next(s, e)) == Contents(s)
  {
  }

  lemma Pushes<T>(s: Pool<T>, e: Event<T>)
    requires Enabled(s, e) && ((e.ProbePush? && e.locked) || e.PushHome?)
    ensures var q := TouchOf(s, e).q;
            && Contents(Next(s, e)) == Append(Contents(s), q, s.clients[e.c].task)
            && Next(s, e).clients == s.clients[e.c := NotifyingOne(q)]
            && Next(s, e).pushIndex == s.pushIndex
  {
  }

  lemma ProbeMisses<T>(s: Pool<T>, e: Event<T>)
    requires Inv(s) && Enabled(s, e) && e.ProbePush? && !e.locked
    ensures var p := s.clients[e.c];
            Next(s, e) == s.(clients := s.clients[e.c := Pushing(p.task, p.index, Wrap(p.n + 1))])
    ensures Inv(Next(s, e))
  {
    StepKeepsInv(s, e);
    var q := TouchOf(s, e).q;
    assert s.queues[q := s.queues[q]] == s.queues;
  }

  /** Client `c` is about to make attempt `k` of a schedule call; its own counter has wrapped. */
  ghost predicate Attempts<T>(s: Pool<T>, c: nat, k: nat) {
    c < |s.clients| && s.clients[c].Pushing? && s.clients[c].n == Wrap(k)
  }

  /** The end of a schedule call that is about to make attempt `k`. */
  ghost predicate PushOutcome<T>(s: Pool<T>, c: nat, locks: seq<bool>, k: nat, s': Pool<T>)
  {
    && 0 < |s.queues| && c < |s.clients| && s.clients[c].Pushing? && k <= |locks|
    && var Pushing(task, index, _) := s.clients[c];
    var first := FirstLocked(locks, k);
    var q := if first < |locks| then Slot(index, first, |s.queues|) else Slot(index, 0, |s.queues|);
    && Contents(s') == Append(Contents(s), q, task)
    && s'.clients == s.clients[c := Idle]
    && s'.pushIndex == s.pushIndex
  }

  /** The next event of the call. */
  function Attempt<T>(c: nat, locks: seq<bool>, k: nat): Event<T> {
    if k < |locks| then ProbePush(c, locks[k]) else PushHome(c)
  }

  /** Where the event of a schedule call pushes. */
  lemma PushTarget<T>(s: Pool<T>, c: nat, locks: seq<bool>, k: nat)
    requires Attempts(s, c, k) && k <= |locks| && Enabled(s, Attempt(c, locks, k))
    requires k < |locks| ==> locks[k]
    ensures var index := s.clients[c].index;
            var first := FirstLocked(locks, k);
            TouchOf(s, Attempt(c, locks, k)).q
              == if first < |locks| then Slot(index, first, |s.queues|) else Slot(index, 0, |s.queues|)
  {
    WrappedProbe(s.clients[c].index, k, |s.queues|);
  }

  lemma PushThenNotify<T>(s: Pool<T>, c: nat, locks: seq<bool>, k: nat, q: nat, s': Pool<T>, end: Pool<T>)
    requires 0 < |s.queues| && c < |s.clients| && s.clients[c].Pushing? && k <= |locks| && q < |s.queues|
    requires var index := s.clients[c].index;
             var first := FirstLocked(locks, k);
             q == if first < |locks| then Slot(index, first, |s.queues|) else Slot(index, 0, |s.queues|)
    requires Contents(s') == Append(Contents(s), q, s.clients[c].task) && Contents(end) == Contents(s')
    requires s'.clients == s.clients[c := NotifyingOne(q)] && end.clients == s'.clients[c := Idle]
    requires s.pushIndex == s'.pushIndex == end.pushIndex
    ensures PushOutcome(s, c, locks, k, end)
  {
  }

  /** The push at last, with its notification. */
  lemma SoloPush<T>(s: Pool<T>, c: nat, locks: seq<bool>, k: nat) returns (es: seq<Event<T>>)
    requires Inv(s) && Attempts(s, c, k) && k <= |locks| && Enabled(s, Attempt(c, locks, k))
    requires k < |locks| ==> locks[k]
    ensures Runs(s, es) && OnlyClient(es, c) && PushOutcome(s, c, locks, k, Exec(s, es))
    ensures Tries(es) == Seen(locks, k, FirstLocked(locks, k))
  {
    var e: Event<T> := Attempt(c, locks, k);
    assert AtPoint(s, e) && 0 < |s.queues|;
    SeenCons(locks, k, k);
    hide Next, Enabled, AtPoint, Inv, TouchOf, Runs, Exec, OnlyClient, PushOutcome, Contents, Tries, Seen;
    StepKeepsInv(s, e);
    Pushes(s, e);
    PushTarget(s, c, locks, k);
    var s' := Next(s, e);
    var f := NotifyIsReady(s', c);
    NotifyKeepsContents(s', f);
    RunOne(s', f);
    RunCons(s, e, [f]);
    OnlyClientPair(e, f);
    TriesOne(f);
    TriesCons(e, [f]);
    PushThenNotify(s, c, locks, k, TouchOf(s, e).q, s', Next(s', f));
    es := [e] + [f];
  }

  /** A missed probe does not change how the call ends. */
  lemma MissThenPush<T>(s: Pool<T>, c: nat, locks: seq<bool>, k: nat, s': Pool<T>, end: Pool<T>)
    requires 0 < |s.queues| && c < |s.clients| && s.clients[c].Pushing? && k < |locks| && !locks[k]
    requires s' == s.(clients := s.clients[c := Pushing(s.clients[c].task, s.clients[c].index, Wrap(k + 1))])
    requires PushOutcome(s', c, locks, k + 1, end)
    ensures PushOutcome(s, c, locks, k, end)
  {
  }

  /** As long as no lock was taken, the next attempt of a call that returns can be made. */
  lemma AttemptIsReady<T>(s: Pool<T>, c: nat, locks: seq<bool>, k: nat)
    requires Inv(s) && Attempts(s, c, k) && Returns(locks, |s.queues|)
    requires k <= |locks| && forall i | 0 <= i < k :: !locks[i]
    ensures 0 < |s.queues| && Enabled(s, Attempt(c, locks, k))
  {
    assert 4 * |s.queues| >= U32 && k == |locks| ==> false;
    ClientIsOutside(s, c, TouchOf(s, Attempt<T>(c, locks, k)).q);
  }

  lemma {:induction false} SoloProbes<T>(s: Pool<T>, c: nat, locks: seq<bool>, k: nat) returns (es: seq<Event<T>>)
    requires Inv(s) && Attempts(s, c, k) && Returns(locks, |s.queues|)
    requires k <= |locks| && forall i | 0 <= i < k :: !locks[i]
    ensures Runs(s, es) && OnlyClient(es, c) && PushOutcome(s, c, locks, k, Exec(s, es))
    ensures Tries(es) == Seen(locks, k, FirstLocked(locks, k))
    decreases |locks| - k
  {
    hide Next, Enabled, Inv, Runs, Exec, PushOutcome, OnlyClient, Returns, Tries, Seen;
    AttemptIsReady(s, c, locks, k);
    if k == |locks| || locks[k] {
      es := SoloPush(s, c, locks, k);
    } else {
      var e: Event<T> := Attempt(c, locks, k);
      ProbeMisses(s, e);
      WrapSucc(k);
      var s' := Next(s, e);
      var rest := SoloProbes(s', c, locks, k + 1);
      RunCons(s, e, rest);
      MissThenPush(s, c, locks, k, s', Exec(s', rest));
      OnlyClientCons(e, rest, c);
      TriesCons(e, rest);
      SeenCons(locks, k, FirstLocked(locks, k));
      es := [e] + rest;
    }
  }

  /**
    A schedule call that runs alone ends as the method `Schedule` of the scheduler does, for all
    outcomes of its try-locks that let it return: its probes have exactly these outcomes, up to
    the first that gets its lock.
  */
  lemma SoloSchedule<T>(s: Pool<T>, c: nat, task: T, locks: seq<bool>) returns (es: seq<Event<T>>)
    requires Inv(s) && c < |s.clients| && s.clients[c].Idle? && Returns(locks, |s.queues|)
    ensures Runs(s, es) && OnlyClient(es, c) && Tries(es) == Seen(locks, 0, FirstLocked(locks, 0))
    ensures var s' := Exec(s, es);
            && Contents(s') == Append(Contents(s), Target(s.pushIndex, locks, |s.queues|), task)
            && s'.clients == s.clients && s'.pushIndex == Advance(s.pushIndex)
  {
    var e: Event<T> := BeginSchedule(c, task);
    StepKeepsInv(s, e);
    var s1 := Next(s, e);
    assert Contents(s1) == Contents(s);
    assert s1.clients == s.clients[c := Pushing(task, s.pushIndex, 0)] && s1.pushIndex == Advance(s.pushIndex);
    hide Next, Enabled, Inv, Runs, Exec, Contents, Tries, Seen, OnlyClient;
    var rest := SoloProbes(s1, c, locks, 0);
    RunCons(s, e, rest);
    TriesCons(e, rest);
    es := [e] + rest;
    assert s1.clients[c := Idle] == s.clients;
  }

  // ---------------------------------------------------------------- clear

  /** One queue of a clear call: its critical section and its notification. */
  lemma ClearOne<T>(s: Pool<T>, c: nat) returns (s1: Pool<T>)
    requires Inv(s) && c < |s.clients| && s.clients[c].Clearing?
    ensures Enabled(s, ClearNext(c)) && s1 == Next(s, ClearNext(c)) && Enabled(s1, NotifyAll(c)) && Inv(Next(s1, NotifyAll(c)))
    ensures var q, s2 := s.clients[c].q, Next(s1, NotifyAll(c));
            && q < |s.queues| && s2.queues == s.queues[q := M.AfterClear(s.queues[q])]
            && s2.clients == s.clients[c := if q + 1 == |s.queues| then Idle else Clearing(q + 1)]
            && s2.workers == s.workers && s2.pushIndex == s.pushIndex && s2.popIndex == s.popIndex
  {
    var q, m, t := s.clients[c].q, s.queues[s.clients[c].q], ClientTid(s, c);
    ClearHalf(s, c);
    s1 := Next(s, ClearNext(c));
    M.ClearThenNotify(m, t);
    StepKeepsInv(s, ClearNext(c));
    hide Next, Enabled, Inv, M.Next, M.Enabled, M.Idle, M.AfterClear;
    NotifyHalf(s1, c);
    StepKeepsInv(s1, NotifyAll(c));
    assert s.queues[q := M.Next(m, M.Clear(t))][q := M.AfterClear(m)] == s.queues[q := M.AfterClear(m)];
  }

  lemma ClearHalf<T>(s: Pool<T>, c: nat)
    requires Inv(s) && c < |s.clients| && s.clients[c].Clearing?
    ensures s.clients[c].q < |s.queues| && M.Idle(s.queues[s.clients[c].q], ClientTid(s, c)) && Enabled(s, ClearNext(c))
    ensures var q := s.clients[c].q;
            Next(s, ClearNext(c)) == s.(queues := s.queues[q := M.Next(s.queues[q], M.Clear(ClientTid(s, c)))],
                                        clients := s.clients[c := NotifyingAll(q)])
  {
    assert ClientShape(s, s.clients[c]);
    ClientIsOutside(s, c, s.clients[c].q);
  }

  lemma NotifyHalf<T>(s: Pool<T>, c: nat)
    requires c < |s.clients| && s.clients[c].NotifyingAll? && s.clients[c].q < |s.queues|
    requires M.Enabled(s.queues[s.clients[c].q], M.NotifyAll(ClientTid(s, c)))
    ensures Enabled(s, NotifyAll(c))
    ensures var q := s.clients[c].q;
            Next(s, NotifyAll(c)) == s.(queues := s.queues[q := M.Next(s.queues[q], M.NotifyAll(ClientTid(s, c)))],
                                        clients := s.clients[c := if q + 1 == |s.queues| then Idle else Clearing(q + 1)])
  {
  }

  /** What a clear call that is about to clear queue `q` leaves. */
  ghost predicate ClearedFrom<T>(s: Pool<T>, q: nat, end: Pool<T>) {
    && |end.queues| == |s.queues|
    && (forall i | 0 <= i < |s.queues| :: end.queues[i] == if i < q then s.queues[i] else M.AfterClear(s.queues[i]))
    && end.workers == s.workers && end.pushIndex == s.pushIndex && end.popIndex == s.popIndex
  }

  lemma {:induction false} SoloClears<T>(s: Pool<T>, c: nat) returns (es: seq<Event<T>>)
    requires Inv(s) && c < |s.clients| && s.clients[c].Clearing?
    ensures Runs(s, es) && OnlyClient(es, c)
    ensures ClearedFrom(s, s.clients[c].q, Exec(s, es)) && Exec(s, es).clients == s.clients[c := Idle]
    decreases |s.queues| - s.clients[c].q
  {
    hide Next, Enabled, Inv, Runs, Exec, ClearedFrom, OnlyClient, M.AfterClear;
    var q := s.clients[c].q;
    var s1 := ClearOne(s, c);
    var s2 := Next(s1, NotifyAll(c));
    var rest: seq<Event<T>>;
    if q + 1 < |s.queues| {
      rest := SoloClears(s2, c);
    } else {
      rest := [];
      AllClearedFrom(s2, c);
    }
    ClearsOneMore(s, c, s1, rest);
    OneMoreCleared(s, q, s2, Exec(s2, rest));
    es := [ClearNext(c)] + ([NotifyAll(c)] + rest);
  }

  lemma AllClearedFrom<T>(s: Pool<T>, c: nat)
    ensures Runs(s, []) && Exec(s, []) == s && ClearedFrom(s, |s.queues|, s) && OnlyClient<T>([], c)
  {
  }

  lemma OneMoreCleared<T>(s: Pool<T>, q: nat, s2: Pool<T>, end: Pool<T>)
    requires q < |s.queues| && s2.queues == s.queues[q := M.AfterClear(s.queues[q])]
    requires s2.workers == s.workers && s2.pushIndex == s.pushIndex && s2.popIndex == s.popIndex
    requires ClearedFrom(s2, q + 1, end)
    ensures ClearedFrom(s, q, end)
  {
    hide M.AfterClear;
  }

  lemma ClearsOneMore<T>(s: Pool<T>, c: nat, s1: Pool<T>, rest: seq<Event<T>>)
    requires Enabled(s, ClearNext(c)) && s1 == Next(s, ClearNext(c))
    requires Enabled(s1, NotifyAll(c)) && Runs(Next(s1, NotifyAll(c)), rest) && OnlyClient(rest, c)
    ensures var es := [ClearNext(c)] + ([NotifyAll(c)] + rest);
            Runs(s, es) && OnlyClient(es, c) && Exec(s, es) == Exec(Next(s1, NotifyAll(c)), rest)
  {
    hide Next, Enabled, Taken, Takes, OnlyClient;
    RunCons(s1, NotifyAll(c), rest);
    RunCons(s, ClearNext(c), [NotifyAll(c)] + rest);
    OnlyClientCons(NotifyAll(c), rest, c);
    OnlyClientCons(ClearNext(c), [NotifyAll(c)] + rest, c);
  }

  /** A clear call that runs alone ends as the method `Clear` of the scheduler does: every queue is emptied and cancelled, and its sleepers are woken. */
  lemma SoloClear<T>(s: Pool<T>, c: nat) returns (es: seq<Event<T>>)
    requires Inv(s) && c < |s.clients| && s.clients[c].Idle?
    ensures Runs(s, es) && OnlyClient(es, c)
    ensures ClearedFrom(s, 0, Exec(s, es)) && Exec(s, es).clients == s.clients
  {
    var e: Event<T> := BeginClear(c);
    StepKeepsInv(s, e);
    var s1 := Next(s, e);
    var rest := SoloClears(s1, c);
    RunCons(s, e, rest);
    OnlyClientCons(e, rest, c);
    es := [e] + rest;
    assert s1.clients[c := Idle] == s.clients;
  }

  // ---------------------------------------------------------------- scheduled

  lemma ProbeHits<T>(s: Pool<T>, e: Event<T>)
    requires Enabled(s, e) && e.Probe?
    ensures var Probing(ticket, n) := s.workers[e.w];
            var q := Slot(ticket, n, |s.queues|);
            if e.locked && s.queues[q].items != [] then
              && Takes(s, e) == [Contents(s)[q][0]]
              && Contents(Next(s, e)) == Behead(Contents(s), q)
              && Next(s, e).workers[e.w] == Running(ticket, Contents(s)[q][0])
            else
              && Takes(s, e) == []
              && Next(s, e).queues == s.queues
              && Next(s, e).workers[e.w] == if n + 1 == |s.queues| then Entering(ticket) else Probing(ticket, n + 1)
  {
  }

  function InHand<T>(p: Worker<T>): seq<T> {
    if p.Running? then [p.task] else []
  }

  lemma EnterPops<T>(s: Pool<T>, e: Event<T>)
    requires Enabled(s, e) && e.Enter?
    ensures HomeOutcome(s.queues, s.workers[e.w].ticket, Next(s, e), e.w)
    ensures Takes(s, e) == InHand(Next(s, e).workers[e.w])
  {
  }

  /** What the blocking pop on the home queue does to a worker. */
  ghost predicate HomeOutcome<T>(queues: seq<M.Monitor<T>>, ticket: nat, s': Pool<T>, w: nat)
  {
    && 0 < |queues| == |s'.queues| && w < |s'.workers|
    && var q := Slot(ticket, 0, |queues|);
    if queues[q].cancelled then
      s'.workers[w] == Exited && Contents(s') == Items(queues)
    else if queues[q].items == [] then
      s'.workers[w] == Waiting(ticket) && Contents(s') == Items(queues) && w in s'.queues[q].waiting
    else
      s'.workers[w] == Running(ticket, Items(queues)[q][0]) && Contents(s') == Behead(Items(queues), q)
  }

  /** The end of a call of `scheduled` that is about to make its probe `n`. */
  ghost predicate PopOutcome<T>(queues: seq<M.Monitor<T>>, ticket: nat, n: nat, locks: seq<bool>, s': Pool<T>, w: nat)
  {
    && 0 < |queues| == |locks| && n <= |locks| && w < |s'.workers|
    && var k := FirstHit(Items(queues), ticket, locks, n);
    if k < |locks| then
      var q := Slot(ticket, k, |queues|);
      s'.workers[w] == Running(ticket, Items(queues)[q][0]) && Contents(s') == Behead(Items(queues), q)
    else
      HomeOutcome(queues, ticket, s', w)
  }

  lemma HomeEndsPop<T>(queues: seq<M.Monitor<T>>, ticket: nat, locks: seq<bool>, end: Pool<T>, w: nat)
    requires |queues| == |locks| && HomeOutcome(queues, ticket, end, w)
    ensures PopOutcome(queues, ticket, |locks|, locks, end, w)
  {
  }

  lemma HitEndsPop<T>(s: Pool<T>, e: Event<T>, locks: seq<bool>)
    requires Inv(s) && Enabled(s, e) && e.Probe? && |locks| == |s.queues|
    requires s.workers[e.w].n < |locks| && e.locked == locks[s.workers[e.w].n]
    requires e.locked && s.queues[Slot(s.workers[e.w].ticket, s.workers[e.w].n, |s.queues|)].items != []
    ensures PopOutcome(s.queues, s.workers[e.w].ticket, s.workers[e.w].n, locks, Next(s, e), e.w)
    ensures e.w < |Next(s, e).workers| && Takes(s, e) == InHand(Next(s, e).workers[e.w])
  {
    ProbeHits(s, e);
  }

  /** A missed probe does not change how the call ends. */
  lemma MissThenPop<T>(queues: seq<M.Monitor<T>>, ticket: nat, n: nat, locks: seq<bool>, end: Pool<T>, w: nat)
    requires 0 < |queues| == |locks| && n < |locks| && w < |end.workers|
    requires !(locks[n] && queues[Slot(ticket, n, |queues|)].items != [])
    requires PopOutcome(queues, ticket, n + 1, locks, end, w)
    ensures PopOutcome(queues, ticket, n, locks, end, w)
  {
  }

  /** The probes of `es` are those of a call of `scheduled` from its probe `n` on, with the outcomes given, up to its first hit. */
  ghost predicate PopTries<T>(queues: seq<M.Monitor<T>>, ticket: nat, n: nat, locks: seq<bool>, es: seq<Event<T>>) {
    && 0 < |queues| && n <= |locks|
    && Tries(es) == Seen(locks, n, FirstHit(Items(queues), ticket, locks, n))
  }

  lemma HitTries<T>(queues: seq<M.Monitor<T>>, ticket: nat, n: nat, locks: seq<bool>, e: Event<T>)
    requires 0 < |queues| && n < |locks| && e.Probe? && e.locked == locks[n]
    requires locks[n] && queues[Slot(ticket, n, |queues|)].items != []
    ensures PopTries(queues, ticket, n, locks, [e])
  {
    TriesOne(e);
    SeenCons(locks, n, n);
  }

  lemma HomeTries<T>(queues: seq<M.Monitor<T>>, ticket: nat, locks: seq<bool>, es: seq<Event<T>>)
    requires 0 < |queues| && Tries(es) == []
    ensures PopTries(queues, ticket, |locks|, locks, es)
  {
    SeenCons(locks, |locks|, |locks|);
  }

  lemma MissTries<T>(queues: seq<M.Monitor<T>>, ticket: nat, n: nat, locks: seq<bool>, e: Event<T>, rest: seq<Event<T>>)
    requires 0 < |queues| && n < |locks| && e.Probe? && e.locked == locks[n]
    requires !(locks[n] && queues[Slot(ticket, n, |queues|)].items != [])
    requires PopTries(queues, ticket, n + 1, locks, rest)
    ensures PopTries(queues, ticket, n, locks, [e] + rest)
  {
    TriesCons(e, rest);
    SeenCons(locks, n, FirstHit(Items(queues), ticket, locks, n));
  }

  /**
    A call of `scheduled` that runs alone ends as the method `Scheduled` of the scheduler does: its
    probes have exactly the outcomes given, up to the first that gets its lock and finds a task.
  */
  lemma {:induction false} SoloScheduled<T>(s: Pool<T>, w: nat, locks: seq<bool>) returns (es: seq<Event<T>>)
    requires Inv(s) && w < |s.workers| && s.workers[w].Probing? && |locks| == |s.queues|
    ensures Runs(s, es) && OnlyWorker(es, w)
    ensures w < |Exec(s, es).workers| && s.workers[w].n <= |locks|
    ensures PopOutcome(s.queues, s.workers[w].ticket, s.workers[w].n, locks, Exec(s, es), w)
    ensures Taken(s, es) == InHand(Exec(s, es).workers[w])
    ensures PopTries(s.queues, s.workers[w].ticket, s.workers[w].n, locks, es)
    decreases |locks| - s.workers[w].n
  {
    hide Next, Enabled, Inv, Runs, Exec, Taken, Takes, HomeOutcome, PopOutcome, OnlyWorker, Contents, PopTries, FirstHit;
    var ticket, n := s.workers[w].ticket, s.workers[w].n;
    var e := ProbePopIsReady(s, w, locks);
    OnlyWorkerNil<T>(w);
    OnlyWorkerCons(e, [], w);
    var s' := Next(s, e);
    if locks[n] && s.queues[Slot(ticket, n, |s.queues|)].items != [] {
      HitEndsPop(s, e, locks);
      RunOne(s, e);
      assert [e] + [] == [e];
      HitTries(s.queues, ticket, n, locks, e);
      es := [e];
    } else {
      ProbeHits(s, e);
      var rest;
      if n + 1 == |locks| {
        rest := SoloEnter(s', w);
        HomeEndsPop(s.queues, ticket, locks, Exec(s', rest), w);
        HomeTries(s.queues, ticket, locks, rest);
      } else {
        rest := SoloScheduled(s', w, locks);
      }
      RunCons(s, e, rest);
      MissThenPop(s.queues, ticket, n, locks, Exec(s', rest), w);
      OnlyWorkerCons(e, rest, w);
      MissTries(s.queues, ticket, n, locks, e, rest);
      es := [e] + rest;
    }
  }

  lemma ProbePopIsReady<T>(s: Pool<T>, w: nat, locks: seq<bool>) returns (e: Event<T>)
    requires Inv(s) && w < |s.workers| && s.workers[w].Probing? && |locks| == |s.queues|
    ensures 0 < |s.queues| && s.workers[w].n < |locks| && e == Probe(w, locks[s.workers[w].n])
    ensures Enabled(s, e) && Inv(Next(s, e))
    ensures |Next(s, e).workers| == |s.workers| && |Next(s, e).queues| == |s.queues|
  {
    e := Probe(w, locks[s.workers[w].n]);
    WorkerIsOutside(s, w, TouchOf(s, e).q);
    StepKeepsInv(s, e);
  }

  lemma SoloEnter<T>(s: Pool<T>, w: nat) returns (es: seq<Event<T>>)
    requires Inv(s) && w < |s.workers| && s.workers[w].Entering?
    ensures Runs(s, es) && OnlyWorker(es, w)
    ensures w < |Exec(s, es).workers| && HomeOutcome(s.queues, s.workers[w].ticket, Exec(s, es), w)
    ensures Taken(s, es) == InHand(Exec(s, es).workers[w]) && Tries(es) == []
  {
    var e: Event<T> := Enter(w);
    WorkerIsOutside(s, w, TouchOf(s, e).q);
    EnterPops(s, e);
    RunOne(s, e);
    TriesOne(e);
    es := [e];
  }

  // ---------------------------------------------------------------- the worker loop

  lemma FinishesTask<T>(s: Pool<T>, w: nat)
    requires Inv(s) && w < |s.workers| && s.workers[w].Running?
    ensures Enabled(s, Finish(w)) && Takes(s, Finish(w)) == [] && Inv(Next(s, Finish(w)))
    ensures var s' := Next(s, Finish(w));
            s'.queues == s.queues && w < |s'.workers| && s'.workers[w] == Probing(s.workers[w].ticket, 0)
  {
    StepKeepsInv(s, Finish(w));
  }

  /** The end of a loop on queues with these flags: exited if the home queue is cancelled, asleep there if not. */
  ghost predicate LoopEnds<T>(cancelled: bool, ticket: nat, s: Pool<T>, w: nat)
  {
    && 0 < |s.queues| && w < |s.workers|
    && if cancelled then s.workers[w] == Exited
       else s.workers[w] == Waiting(ticket) && w in s.queues[Home(s, ticket)].waiting
  }

  /** What one uncontended round does: it takes the front of the drain, or finds that there is none. */
  ghost predicate RoundOutcome<T>(queues: seq<M.Monitor<T>>, ticket: nat, taken: seq<T>, s': Pool<T>, w: nat)
  {
    && 0 < |queues| == |s'.queues| && w < |s'.workers|
    && var before, after := Items(queues), Contents(s');
    if Drain(before, ticket, 0) == [] then
      taken == [] && after == Emptied(before, ticket, 0) && LoopEnds(queues[Slot(ticket, 0, |queues|)].cancelled, ticket, s', w)
    else
      && |taken| == 1 && Drain(before, ticket, 0) == taken + Drain(after, ticket, 0)
      && Emptied(after, ticket, 0) == Emptied(before, ticket, 0)
      && s'.workers[w].Running? && s'.workers[w].ticket == ticket
  }

  lemma OutcomeOfRound<T>(queues: seq<M.Monitor<T>>, ticket: nat, locks: seq<bool>, s': Pool<T>, w: nat)
    requires 0 < |queues| == |locks| == |s'.queues| && w < |s'.workers|
    requires forall i | 0 <= i < |locks| :: locks[i]
    requires PopOutcome(queues, ticket, 0, locks, s', w)
    ensures RoundOutcome(queues, ticket, InHand(s'.workers[w]), s', w)
  {
    var contents := Items(queues);
    var k := FirstHit(contents, ticket, locks, 0);
    if k < |locks| {
      DrainTakesFirst(contents, ticket, 0, k);
    } else {
      DrainOfNothing(contents, ticket, 0);
      assert contents[Slot(ticket, 0, |queues|)] == [];
    }
  }

  /** Workers do not cancel. */
  lemma {:induction false} WorkersKeepFlags<T>(s: Pool<T>, es: seq<Event<T>>, w: nat, q: nat)
    requires Runs(s, es) && OnlyWorker(es, w) && q < |s.queues|
    ensures q < |Exec(s, es).queues| && Exec(s, es).queues[q].cancelled == s.queues[q].cancelled
    decreases |es|
  {
    if es != [] {
      assert ByWorker(es[0]);
      WorkersKeepFlags(Next(s, es[0]), es[1..], w, q);
    }
  }

  lemma SoloRound<T>(s: Pool<T>, w: nat) returns (es: seq<Event<T>>)
    requires Inv(s) && w < |s.workers| && s.workers[w].Probing? && s.workers[w].n == 0
    ensures Runs(s, es) && OnlyWorker(es, w) && Inv(Exec(s, es)) && w < |Exec(s, es).workers| && |Exec(s, es).queues| == |s.queues|
    ensures RoundOutcome(s.queues, s.workers[w].ticket, Taken(s, es), Exec(s, es), w)
    ensures false !in Tries(es)
  {
    var locks := seq(|s.queues|, _ => true);
    es := SoloScheduled(s, w, locks);
    RunKeepsInv(s, es);
    RunKeepsSize(s, es);
    OutcomeOfRound(s.queues, s.workers[w].ticket, locks, Exec(s, es), w);
  }

  /** A round, the end of its task, and the rest of the loop. */
  lemma RoundThenRest<T>(s: Pool<T>, es: seq<Event<T>>, w: nat, rest: seq<Event<T>>)
    requires Runs(s, es) && Inv(Exec(s, es)) && w < |Exec(s, es).workers| && Exec(s, es).workers[w].Running?
    requires Enabled(Exec(s, es), Finish(w)) && Runs(Next(Exec(s, es), Finish(w)), rest)
    ensures Runs(s, es + ([Finish(w)] + rest))
    ensures Exec(s, es + ([Finish(w)] + rest)) == Exec(Next(Exec(s, es), Finish(w)), rest)
    ensures Taken(s, es + ([Finish(w)] + rest)) == Taken(s, es) + Taken(Next(Exec(s, es), Finish(w)), rest)
  {
    FinishesTask(Exec(s, es), w);
    RunCons(Exec(s, es), Finish(w), rest);
    RunsConcat(s, es, [Finish(w)] + rest);
    TakenConcat(s, es, [Finish(w)] + rest);
    assert [] + Taken(Next(Exec(s, es), Finish(w)), rest) == Taken(Next(Exec(s, es), Finish(w)), rest);
  }

  lemma OnlyWorkerConcat<T>(es: seq<Event<T>>, rest: seq<Event<T>>, w: nat)
    requires OnlyWorker(es, w) && OnlyWorker(rest, w)
    ensures OnlyWorker(es + ([Finish(w)] + rest), w)
  {
  }

  /**
    The loop of a worker that runs alone and always gets its locks starts exactly the tasks of the
    drain, in that order, and then exits if its home queue is cancelled and sleeps there otherwise.
  */
  lemma {:induction false} SoloDrain<T>(s: Pool<T>, w: nat) returns (es: seq<Event<T>>)
    requires Inv(s) && w < |s.workers| && s.workers[w].Probing? && s.workers[w].n == 0
    ensures Runs(s, es) && OnlyWorker(es, w) && false !in Tries(es)
    ensures Taken(s, es) == Drain(Contents(s), s.workers[w].ticket, 0)
    ensures Contents(Exec(s, es)) == Emptied(Contents(s), s.workers[w].ticket, 0)
    ensures 0 < |s.queues|
    ensures LoopEnds(s.queues[Home(s, s.workers[w].ticket)].cancelled, s.workers[w].ticket, Exec(s, es), w)
    decreases |Drain(Contents(s), s.workers[w].ticket, 0)|
  {
    assert 0 < |s.queues|;
    var home := Home(s, s.workers[w].ticket);
    es := SoloRound(s, w);
    hide Next, Enabled, Inv, Runs, Exec, Taken, Drain, Emptied, OnlyWorker, LoopEnds, Tries;
    var s1 := Exec(s, es);
    if s1.workers[w].Running? {
      WorkersKeepFlags(s, es, w, home);
      FinishesTask(s1, w);
      var rest := SoloDrain(Next(s1, Finish(w)), w);
      RoundThenRest(s, es, w, rest);
      OnlyWorkerConcat(es, rest, w);
      TriesCons(Finish(w), rest);
      TriesConcat(es, [Finish(w)] + rest);
      es := es + ([Finish(w)] + rest);
    }
  }

  // ---------------------------------------------------------------- from the start of a worker

  /** A worker that starts draws the pop index as its ticket and is about to make its first probe. */
  lemma Starts<T>(s: Pool<T>, w: nat)
    requires Inv(s) && w < |s.workers| && s.workers[w].Starting?
    ensures Enabled(s, Start(w)) && Takes(s, Start(w)) == [] && Inv(Next(s, Start(w)))
    ensures var s' := Next(s, Start(w));
            s'.queues == s.queues && w < |s'.workers| && s'.workers[w] == Probing(s.popIndex, 0) && s'.popIndex == Advance(s.popIndex)
  {
    StepKeepsInv(s, Start(w));
  }

  /** Nobody draws a second ticket. */
  lemma {:induction false} StartedWorkerKeepsIndex<T>(s: Pool<T>, es: seq<Event<T>>, w: nat)
    requires Runs(s, es) && OnlyWorker(es, w) && w < |s.workers| && !s.workers[w].Starting?
    ensures Exec(s, es).popIndex == s.popIndex
    decreases |es|
  {
    if es != [] {
      assert ByWorker(es[0]) && es[0].w == w;
      StartedWorkerKeepsIndex(Next(s, es[0]), es[1..], w);
    }
  }

  /** What a run after `Start` says of the run with it. */
  lemma AfterStart<T>(s: Pool<T>, w: nat, rest: seq<Event<T>>)
    requires Enabled(s, Start(w)) && Takes(s, Start(w)) == [] && Runs(Next(s, Start(w)), rest) && OnlyWorker(rest, w)
    ensures var es := [Start(w)] + rest;
            && Runs(s, es) && OnlyWorker(es, w) && Exec(s, es) == Exec(Next(s, Start(w)), rest)
            && Taken(s, es) == Taken(Next(s, Start(w)), rest)
            && Tries(es) == Tries(rest)
  {
    hide Next, Enabled, Takes, Tries, OnlyWorker;
    RunCons(s, Start(w), rest);
    OnlyWorkerCons(Start(w), rest, w);
    TriesCons(Start(w), rest);
  }

  /** The first call of `scheduled` on a thread, alone: its ticket is the pop index, which it advances. */
  lemma SoloFirstScheduled<T>(s: Pool<T>, w: nat, locks: seq<bool>) returns (es: seq<Event<T>>)
    requires Inv(s) && w < |s.workers| && s.workers[w].Starting? && |locks| == |s.queues|
    ensures Runs(s, es) && OnlyWorker(es, w) && w < |Exec(s, es).workers|
    ensures PopOutcome(s.queues, s.popIndex, 0, locks, Exec(s, es), w)
    ensures PopTries(s.queues, s.popIndex, 0, locks, es)
    ensures Taken(s, es) == InHand(Exec(s, es).workers[w])
    ensures Exec(s, es).popIndex == Advance(s.popIndex)
  {
    hide Next, Enabled, Inv, Runs, Exec, Taken, Takes, PopOutcome, OnlyWorker, Tries;
    Starts(s, w);
    var s' := Next(s, Start(w));
    var rest := SoloScheduled(s', w, locks);
    StartedWorkerKeepsIndex(s', rest, w);
    AfterStart(s, w, rest);
    es := [Start(w)] + rest;
  }

  /**
    A worker that runs alone, from its start, and always gets its locks runs as the method `Run` of
    the pool does: it starts exactly the tasks of the drain of its ticket, in that order, and then
    exits if its home queue is cancelled and sleeps there otherwise.
  */
  lemma SoloRun<T>(s: Pool<T>, w: nat) returns (es: seq<Event<T>>)
    requires Inv(s) && w < |s.workers| && s.workers[w].Starting?
    ensures Runs(s, es) && OnlyWorker(es, w) && false !in Tries(es)
    ensures Taken(s, es) == Drain(Contents(s), s.popIndex, 0)
    ensures Contents(Exec(s, es)) == Emptied(Contents(s), s.popIndex, 0)
    ensures 0 < |s.queues|
    ensures LoopEnds(s.queues[Home(s, s.popIndex)].cancelled, s.popIndex, Exec(s, es), w)
    ensures Exec(s, es).popIndex == Advance(s.popIndex)
  {
    hide Next, Enabled, Inv, Runs, Exec, Taken, Takes, Drain, Emptied, OnlyWorker, LoopEnds, Tries;
    Starts(s, w);
    var s' := Next(s, Start(w));
    var rest := SoloDrain(s', w);
    StartedWorkerKeepsIndex(s', rest, w);
    AfterStart(s, w, rest);
    es := [Start(w)] + rest;
  }
}
