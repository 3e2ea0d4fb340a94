/**
  What a call of the scheduler does to the contents of the queues when no other thread runs in
  between, for every outcome of its try-locks: which queue a task goes to, which task a worker
  gets, and in which order a worker empties the queues.
*/
module Dealing {
  import opened Tickets

  /** The first probe from `n` on that gets its lock, or the number of probes if none does. */
  function FirstLocked(locks: seq<bool>, n: nat): (k: nat)
    requires n <= |locks|
    ensures n <= k <= |locks|
    ensures k < |locks| ==> locks[k]
    ensures forall i | n <= i < k :: !locks[i]
    decreases |locks| - n
  {
    if n == |locks| || locks[n] then n else FirstLocked(locks, n + 1)
  }

  /**
    The outcomes of the try-locks of a schedule call that returns.  Its loop compares an `unsigned`
    counter with four times the queue count: if that fits 32 bits the call makes so many probes and
    then blocks; if not, it probes until it gets a lock.
  */
  predicate Returns(locks: seq<bool>, count: nat) {
    if 4 * count < U32 then |locks| == 4 * count else true in locks
  }

  /** The queue that a schedule call pushes to: that of its first lock, or its own when all probes fail. */
  function Target(ticket: nat, locks: seq<bool>, count: nat): (q: nat)
    requires 0 < count
    ensures q < count
  {
    var k := FirstLocked(locks, 0);
    if k < |locks| then Slot(ticket, k, count) else Slot(ticket, 0, count)
  }

  /** Every try-lock of a schedule call succeeds. */
  function Uncontended(count: nat): (locks: seq<bool>)
    requires 0 < count
    ensures Returns(locks, count) && locks != [] && locks[0]
  {
    if 4 * count < U32 then seq(4 * count, _ => true) else [true]
  }

  lemma UncontendedTarget(ticket: nat, count: nat)
    requires 0 < count
    ensures Target(ticket, Uncontended(count), count) == Slot(ticket, 0, count)
  {
    assert FirstLocked(Uncontended(count), 0) == 0;
  }

  /** The first probe from `n` on that gets its lock and finds a task. */
  function FirstHit<T>(contents: seq<seq<T>>, ticket: nat, locks: seq<bool>, n: nat): (k: nat)
    requires 0 < |contents| && n <= |locks|
    ensures n <= k <= |locks|
    ensures k < |locks| ==> locks[k] && contents[Slot(ticket, k, |contents|)] != []
    ensures forall i | n <= i < k :: !(locks[i] && contents[Slot(ticket, i, |contents|)] != [])
    decreases |locks| - n
  {
    if n == |locks| || (locks[n] && contents[Slot(ticket, n, |contents|)] != []) then n
    else FirstHit(contents, ticket, locks, n + 1)
  }

  function Append<T>(contents: seq<seq<T>>, q: nat, task: T): (r: seq<seq<T>>)
    requires q < |contents|
    ensures |r| == |contents|
  {
    contents[q := contents[q] + [task]]
  }

  function Behead<T>(contents: seq<seq<T>>, q: nat): (r: seq<seq<T>>)
    requires q < |contents| && contents[q] != []
    ensures |r| == |contents|
  {
    contents[q := contents[q][1..]]
  }

  // ---------------------------------------------------------------- draining

  /** The tasks in the order in which the probes from `n` on come across them. */
  function Drain<T>(contents: seq<seq<T>>, ticket: nat, n: nat): seq<T>
    requires n <= |contents|
    decreases |contents| - n
  {
    if n == |contents| then []
    else
      var q := Slot(ticket, n, |contents|);
      contents[q] + Drain(contents[q := []], ticket, n + 1)
  }

  /** What the probes from `n` on leave when each takes all it finds. */
  function Emptied<T>(contents: seq<seq<T>>, ticket: nat, n: nat): (r: seq<seq<T>>)
    requires n <= |contents|
    ensures |r| == |contents|
    decreases |contents| - n
  {
    if n == |contents| then contents
    else Emptied(contents[Slot(ticket, n, |contents|) := []], ticket, n + 1)
  }

  /** Taking the front task at the first nonempty probe takes the front of the drain. */
  lemma {:induction false} DrainTakesFirst<T>(contents: seq<seq<T>>, ticket: nat, n: nat, k: nat)
    requires n <= k < |contents|
    requires forall i | n <= i < k :: contents[Slot(ticket, i, |contents|)] == []
    requires contents[Slot(ticket, k, |contents|)] != []
    ensures var q := Slot(ticket, k, |contents|);
            && Drain(contents, ticket, n) == [contents[q][0]] + Drain(Behead(contents, q), ticket, n)
            && Emptied(contents, ticket, n) == Emptied(Behead(contents, q), ticket, n)
    decreases k - n
  {
    var q := Slot(ticket, k, |contents|);
    var left := Behead(contents, q);
    var p := Slot(ticket, n, |contents|);
    if n == k {
      assert left[p := []] == contents[p := []];
      assert contents[p] == [contents[p][0]] + left[p];
      assert contents[p] + Drain(contents[p := []], ticket, n + 1)
          == [contents[p][0]] + (left[p] + Drain(contents[p := []], ticket, n + 1));
    } else {
      assert contents[p := []] == contents && left[p := []] == left;
      DrainTakesFirst(contents, ticket, n + 1, k);
      assert Drain(contents, ticket, n) == Drain(contents, ticket, n + 1);
      assert Drain(left, ticket, n) == Drain(left, ticket, n + 1);
    }
  }

  lemma {:induction false} DrainOfNothing<T>(contents: seq<seq<T>>, ticket: nat, n: nat)
    requires n <= |contents|
    requires forall i | n <= i < |contents| :: contents[Slot(ticket, i, |contents|)] == []
    ensures Drain(contents, ticket, n) == [] && Emptied(contents, ticket, n) == contents
    decreases |contents| - n
  {
    if n < |contents| {
      assert contents[Slot(ticket, n, |contents|) := []] == contents;
      DrainOfNothing(contents, ticket, n + 1);
    }
  }

  lemma {:induction false} EmptiedIsEmpty<T>(contents: seq<seq<T>>, ticket: nat, n: nat, m: nat, q: nat)
    requires n <= m <= |contents| && q < |contents|
    requires contents[q] == [] || (m < |contents| && Slot(ticket, m, |contents|) == q)
    ensures Emptied(contents, ticket, n)[q] == []
    decreases |contents| - n
  {
    if n < |contents| {
      var next := contents[Slot(ticket, n, |contents|) := []];
      EmptiedIsEmpty(next, ticket, n + 1, if n == m then m + 1 else m, q);
    }
  }

  /** The queues one after the other, from the `n`-th after `home` on, around the ring. */
  function InRotation<T>(contents: seq<seq<T>>, home: nat, n: nat): seq<T>
    requires n <= |contents|
    decreases |contents| - n
  {
    if n == |contents| then []
    else contents[(home + n) % |contents|] + InRotation(contents, home, n + 1)
  }

  lemma {:induction false} DrainIsInRotation<T>(contents: seq<seq<T>>, original: seq<seq<T>>, ticket: nat, home: nat, n: nat)
    requires n <= |contents| == |original|
    requires forall i, j | 0 <= i < j < |contents| :: Slot(ticket, i, |contents|) != Slot(ticket, j, |contents|)
    requires forall i: nat | i < |contents| :: Slot(ticket, i, |contents|) == (home + i) % |contents|
    requires forall i | n <= i < |contents| ::
               contents[Slot(ticket, i, |contents|)] == original[Slot(ticket, i, |contents|)]
    ensures Drain(contents, ticket, n) == InRotation(original, home, n)
    decreases |contents| - n
  {
    if n < |contents| {
      DrainIsInRotation(contents[Slot(ticket, n, |contents|) := []], original, ticket, home, n + 1);
    }
  }

  lemma RoundVisitsOnce(ticket: nat, count: nat)
    requires 0 < count < U32 && ticket < U32
    requires ticket + count <= U32 || U32 % count == 0
    ensures forall q: nat | q < count :: Visits(ticket, count, count, q) == 1
  {
    SingleRoundIff(ticket, count);
    assert 1 * count == count;
  }

  lemma RoundIsInjective(ticket: nat, count: nat)
    requires 0 < count && forall q: nat | q < count :: Visits(ticket, count, count, q) == 1
    ensures forall i, j | 0 <= i < j < count :: Slot(ticket, i, count) != Slot(ticket, j, count)
  {
    forall i, j | 0 <= i < j < count && Slot(ticket, i, count) == Slot(ticket, j, count) ensures false {
      TwoProbesTwoVisits(ticket, count, count, i, j);
    }
  }

  /** The round of a ticket goes around the ring of queues. */
  predicate Rotates(ticket: nat, count: nat) {
    0 < count && (ticket + count <= U32 || U32 % count == 0)
  }

  /** If probing is a rotation, the drain takes every queue whole, in the order home, home + 1, ... around the ring, and leaves nothing. */
  lemma RotationDrainsAll<T>(contents: seq<seq<T>>, ticket: nat)
    requires |contents| < U32 && ticket < U32 && Rotates(ticket, |contents|)
    ensures Drain(contents, ticket, 0) == InRotation(contents, Slot(ticket, 0, |contents|), 0)
    ensures forall q | 0 <= q < |contents| :: Emptied(contents, ticket, 0)[q] == []
  {
    var home := Slot(ticket, 0, |contents|);
    RoundVisitsOnce(ticket, |contents|);
    RoundIsInjective(ticket, |contents|);
    forall i: nat | i < |contents| ensures Slot(ticket, i, |contents|) == (home + i) % |contents| {
      ProbesAreConsecutive(ticket, i, |contents|);
    }
    DrainIsInRotation(contents, contents, ticket, home, 0);
    forall q | 0 <= q < |contents| ensures Emptied(contents, ticket, 0)[q] == [] {
      var m := VisitWitness(ticket, |contents|, |contents|, q);
      EmptiedIsEmpty(contents, ticket, 0, m, q);
    }
  }

  lemma UnvisitedQueue(ticket: nat, count: nat) returns (q: nat)
    requires 0 < count < U32 && ticket < U32 && !Rotates(ticket, count)
    ensures q < count && Visits(ticket, count, count, q) == 0
  {
    var r, s := U32 % count, ticket % count;
    SingleRoundIff(ticket, count);
    ProbingIsRotationIff(ticket, 1, count);
    q := if r > s then count - 1 else s - 1;
    VisitsByResidues(ticket, 1, count, q);
    assert 1 * count == count;
  }

  /** If it is not, a worker with this ticket misses a queue: it never takes the only task there is. */
  lemma WithoutRotationOneIsMissed<T>(ticket: nat, count: nat, task: T) returns (q: nat)
    requires 0 < count < U32 && ticket < U32 && !Rotates(ticket, count)
    ensures q < count
    ensures var contents := seq(count, i => if i == q then [task] else []);
            Drain(contents, ticket, 0) == [] && Emptied(contents, ticket, 0) == contents
  {
    q := UnvisitedQueue(ticket, count);
    var contents := seq(count, i => if i == q then [task] else []);
    forall i | 0 <= i < count ensures contents[Slot(ticket, i, count)] == [] {
      SomeVisit(ticket, count, count, i);
    }
    DrainOfNothing(contents, ticket, 0);
  }

  // ---------------------------------------------------------------- dealing

  /** The tasks, scheduled in order from `ticket` on without contention, that land on queue `q`. */
  function Dealt<T>(tasks: seq<T>, ticket: nat, count: nat, q: nat): seq<T>
    requires 0 < count
  {
    if tasks == [] then []
    else (if Slot(ticket, 0, count) == q then [tasks[0]] else []) + Dealt(tasks[1..], Advance(ticket), count, q)
  }

  /** The elements whose position, counted from `first`, is congruent to `q`. */
  function Residue<T>(tasks: seq<T>, first: nat, count: nat, q: nat): seq<T>
    requires 0 < count
  {
    if tasks == [] then []
    else (if first % count == q then [tasks[0]] else []) + Residue(tasks[1..], first + 1, count, q)
  }

  /** From a fresh scheduler, queue `q` gets exactly the tasks whose number is congruent to `q`, in order. */
  lemma {:induction false} DealtByResidue<T>(tasks: seq<T>, first: nat, count: nat, q: nat)
    requires 0 < count && (first + |tasks| <= U32 || U32 % count == 0)
    ensures Dealt(tasks, Wrap(first), count, q) == Residue(tasks, first, count, q)
    decreases |tasks|
  {
    if tasks != [] {
      WrapSucc(first);
      DealtByResidue(tasks[1..], first + 1, count, q);
      if U32 % count == 0 {
        ResidueSurvivesWrap(first, count);
      }
    }
  }

  lemma {:induction false} DealtLength<T>(tasks: seq<T>, ticket: nat, count: nat, q: nat)
    requires 0 < count && ticket < U32
    ensures |Dealt(tasks, ticket, count, q)| == Visits(ticket, |tasks|, count, q)
    decreases |tasks|
  {
    if tasks != [] {
      DealtLength(tasks[1..], Advance(ticket), count, q);
      VisitsFromFront(ticket, |tasks| - 1, count, q);
    }
  }

  /** What a fresh scheduler deals: the residue classes, with sizes within one of each other. */
  lemma FreshDeal<T>(tasks: seq<T>, count: nat)
    requires 0 < count && (|tasks| <= U32 || U32 % count == 0)
    ensures forall q: nat | q < count :: Dealt(tasks, 0, count, q) == Residue(tasks, 0, count, q)
    ensures forall p: nat, q: nat | p < count && q < count ::
              |Residue(tasks, 0, count, p)| <= |Residue(tasks, 0, count, q)| + 1
  {
    forall q: nat | q < count
      ensures Dealt(tasks, 0, count, q) == Residue(tasks, 0, count, q)
      ensures |Residue(tasks, 0, count, q)| == Visits(0, |tasks|, count, q)
    {
      DealtByResidue(tasks, 0, count, q);
      DealtLength(tasks, 0, count, q);
    }
    BalancedForeverIff(count);
    assert BalancedAfter(|tasks|, count);
  }

  /** Visits counted from the front instead of the back. */
  lemma {:induction false} VisitsFromFront(ticket: nat, probes: nat, count: nat, q: nat)
    requires 0 < count && ticket < U32
    ensures Visits(ticket, probes + 1, count, q)
         == (if Slot(ticket, 0, count) == q then 1 else 0) + Visits(Advance(ticket), probes, count, q)
  {
    if probes > 0 {
      VisitsFromFront(ticket, probes - 1, count, q);
      WrapSum(ticket, probes);
    }
  }

  lemma WrapSum(ticket: nat, n: nat)
    requires ticket < U32 && 0 < n
    ensures Wrap(ticket + n) == Wrap(Advance(ticket) + (n - 1))
  {
  }
}
