/**
  The 32-bit ticket arithmetic of `rr_scheduler`: a ticket plus a probe number wraps at 2^32
  before it is reduced modulo the number of queues.
*/
module Tickets {

  const U32: nat := 0x1_0000_0000

  /** Unsigned 32-bit wrap-around. */
  function Wrap(x: nat): (r: nat)
    ensures r < U32
    ensures x < U32 ==> r == x
    ensures U32 <= x < 2 * U32 ==> r == x - U32
  {
    x % U32
  }

  /** The queue that probe `n` of a call holding `ticket` looks at. */
  function Slot(ticket: nat, n: nat, count: nat): (q: nat)
    requires 0 < count
    ensures q < count
  {
    Wrap(ticket + n) % count
  }

  /** What `fetch_add(1U)` leaves behind. */
  function Advance(ticket: nat): (t: nat)
    ensures t < U32
  {
    Wrap(ticket + 1)
  }

  /** How many of the first `probes` probes of a call land on queue `q`. */
  function Visits(ticket: nat, probes: nat, count: nat, q: nat): nat
    requires 0 < count
  {
    if probes == 0 then 0
    else Visits(ticket, probes - 1, count, q) + (if Slot(ticket, probes - 1, count) == q then 1 else 0)
  }

  /** How many of the numbers below `x` are congruent to `q` modulo `count`. */
  function Tally(x: nat, count: nat, q: nat): nat
    requires 0 < count
  {
    if x == 0 then 0
    else Tally(x - 1, count, q) + (if (x - 1) % count == q then 1 else 0)
  }

  // ---------------------------------------------------------------- division facts

  lemma MulSign(d: int, count: nat)
    requires 0 < count
    ensures d >= 1 ==> d * count >= count
    ensures d <= -1 ==> d * count <= 0 - count
  {
  }

  lemma DivModUnique(x: nat, count: nat, a: int, r: nat)
    requires 0 < count && r < count && x == a * count + r
    ensures x / count == a && x % count == r
  {
    var d := a - x / count;
    assert d * count == x % count - r;
    MulSign(d, count);
  }

  lemma DivModSucc(x: nat, count: nat)
    requires 0 < count
    ensures x % count + 1 < count ==> (x + 1) / count == x / count && (x + 1) % count == x % count + 1
    ensures x % count + 1 == count ==> (x + 1) / count == x / count + 1 && (x + 1) % count == 0
  {
    if x % count + 1 < count {
      DivModUnique(x + 1, count, x / count, x % count + 1);
    } else {
      assert x + 1 == (x / count + 1) * count;
      DivModUnique(x + 1, count, x / count + 1, 0);
    }
  }

  lemma {:induction false} TallyClosedForm(x: nat, count: nat, q: nat)
    requires 0 < count && q < count
    ensures Tally(x, count, q) == x / count + (if q < x % count then 1 else 0)
  {
    if x == 0 {
      DivModUnique(0, count, 0, 0);
    } else {
      TallyClosedForm(x - 1, count, q);
      DivModSucc(x - 1, count);
    }
  }

  lemma WrapSucc(x: nat)
    ensures Wrap(Wrap(x) + 1) == Wrap(x + 1)
  {
  }

  /** A probe counter that has itself wrapped leads to the same queue. */
  lemma WrappedProbe(ticket: nat, k: nat, count: nat)
    requires 0 < count
    ensures Slot(ticket, Wrap(k), count) == Slot(ticket, k, count)
  {
    var d := k / U32;
    assert ticket + k == d * U32 + (ticket + Wrap(k));
    var x := ticket + Wrap(k);
    DivModUnique(ticket + k, U32, d + x / U32, x % U32);
  }

  // ---------------------------------------------------------------- probing is a rotation

  lemma {:induction false} VisitsWithoutWrap(ticket: nat, probes: nat, count: nat, q: nat)
    requires 0 < count && ticket + probes <= U32
    ensures Visits(ticket, probes, count, q) == Tally(ticket + probes, count, q) - Tally(ticket, count, q)
  {
    if probes > 0 {
      VisitsWithoutWrap(ticket, probes - 1, count, q);
    }
  }

  lemma {:induction false} VisitsAcrossWrap(ticket: nat, probes: nat, count: nat, q: nat)
    requires 0 < count && ticket < U32 && U32 <= ticket + probes <= 2 * U32
    ensures Visits(ticket, probes, count, q)
         == Tally(U32, count, q) - Tally(ticket, count, q) + Tally(ticket + probes - U32, count, q)
    decreases probes
  {
    if ticket + probes == U32 {
      VisitsWithoutWrap(ticket, probes, count, q);
    } else {
      VisitsAcrossWrap(ticket, probes - 1, count, q);
    }
  }

  /** Every queue is probed equally often. */
  ghost predicate ProbesEvenly(ticket: nat, rounds: nat, count: nat)
    requires 0 < count
  {
    forall q: nat | q < count :: Visits(ticket, rounds * count, count, q) == rounds
  }

  lemma EvenWithoutWrap(ticket: nat, rounds: nat, count: nat)
    requires 0 < count && ticket + rounds * count <= U32
    ensures ProbesEvenly(ticket, rounds, count)
  {
    var last := ticket + rounds * count;
    assert last == (ticket / count + rounds) * count + ticket % count;
    DivModUnique(last, count, ticket / count + rounds, ticket % count);
    forall q: nat | q < count ensures Visits(ticket, rounds * count, count, q) == rounds {
      VisitsWithoutWrap(ticket, rounds * count, count, q);
      TallyClosedForm(last, count, q);
      TallyClosedForm(ticket, count, q);
    }
  }

  lemma RestResidue(ticket: nat, wrap: nat, rounds: nat, count: nat)
    requires 0 < count && wrap <= ticket + rounds * count
    ensures var r, s, rest := wrap % count, ticket % count, ticket + rounds * count - wrap;
            var turns := rounds - wrap / count + ticket / count;
            if r <= s then rest / count == turns && rest % count == s - r
            else rest / count == turns - 1 && rest % count == s - r + count
  {
    var r, s, rest := wrap % count, ticket % count, ticket + rounds * count - wrap;
    var a, b := wrap / count, ticket / count;
    var turns := rounds - a + b;
    assert turns * count == rounds * count - a * count + b * count;
    if r <= s {
      DivModUnique(rest, count, turns, s - r);
    } else {
      assert (turns - 1) * count == turns * count - count;
      DivModUnique(rest, count, turns - 1, s - r + count);
    }
  }

  /** The number of visits when the probes run past the wrap, in terms of the residues of the wrap point and the ticket. */
  lemma VisitsByResidues(ticket: nat, rounds: nat, count: nat, q: nat)
    requires 0 < count && q < count && ticket < U32 && rounds * count <= U32 <= ticket + rounds * count
    ensures var r, s := U32 % count, ticket % count;
            Visits(ticket, rounds * count, count, q)
              == (if r <= s
                  then rounds + (if q < r then 1 else 0) - (if q < s then 1 else 0) + (if q < s - r then 1 else 0)
                  else rounds - 1 + (if q < r then 1 else 0) - (if q < s then 1 else 0) + (if q < s - r + count then 1 else 0))
  {
    var r, s := U32 % count, ticket % count;
    var rest := ticket + rounds * count - U32;
    VisitsAcrossWrap(ticket, rounds * count, count, q);
    TallyClosedForm(U32, count, q);
    TallyClosedForm(ticket, count, q);
    TallyClosedForm(rest, count, q);
    RestResidue(ticket, U32, rounds, count);
  }

  /**
    When is probing a rotation?  `rounds * count` probes from `ticket` visit every queue exactly
    `rounds` times if and only if the ticket does not wrap on the way, or it wraps after whole
    rounds, or the queue count divides 2^32.
  */
  lemma ProbingIsRotationIff(ticket: nat, rounds: nat, count: nat)
    requires 0 < count && ticket < U32 && rounds * count <= U32
    ensures ProbesEvenly(ticket, rounds, count)
       <==> ticket + rounds * count <= U32 || U32 % count == ticket % count || U32 % count == 0
  {
    if ticket + rounds * count <= U32 {
      EvenWithoutWrap(ticket, rounds, count);
    } else {
      forall q: nat | q < count {
        VisitsByResidues(ticket, rounds, count, q);
      }
      var r, s := U32 % count, ticket % count;
      if r > s {
        // the last queue is visited too rarely
        assert Visits(ticket, rounds * count, count, count - 1) == rounds - 1;
      } else if 0 < r < s {
        // queue 0 is visited too often
        assert Visits(ticket, rounds * count, count, 0) == rounds + 1;
      } else {
        assert forall q: nat | q < count :: Visits(ticket, rounds * count, count, q) == rounds;
      }
    }
  }

  /** The single round of `scheduled`: with fewer than 2^32 queues the middle case cannot occur inside the round. */
  lemma SingleRoundIff(ticket: nat, count: nat)
    requires 0 < count < U32 && ticket < U32
    ensures ProbesEvenly(ticket, 1, count) <==> ticket + count <= U32 || U32 % count == 0
  {
    ProbingIsRotationIff(ticket, 1, count);
    if ticket + count > U32 && U32 % count == ticket % count {
      var k := U32 - ticket;
      assert k == (U32 / count - ticket / count) * count;
      DivModUnique(k, count, U32 / count - ticket / count, 0);
      DivModUnique(k, count, 0, k);
      assert false;
    }
  }

  /** The shortest way to see it: of twelve probes of three queues from the last ticket on, five, four and three. */
  lemma RotationFails()
    ensures Visits(U32 - 1, 12, 3, 0) == 5 && Visits(U32 - 1, 12, 3, 1) == 4 && Visits(U32 - 1, 12, 3, 2) == 3
    ensures !ProbesEvenly(U32 - 1, 4, 3)
  {
    VisitsByResidues(U32 - 1, 4, 3, 0);
    VisitsByResidues(U32 - 1, 4, 3, 1);
    VisitsByResidues(U32 - 1, 4, 3, 2);
  }

  /** Probe by probe the queues are consecutive, as long as the ticket has not wrapped or the queue count divides 2^32. */
  lemma ProbesAreConsecutive(ticket: nat, n: nat, count: nat)
    requires 0 < count && ticket < U32 && (ticket + n < U32 || U32 % count == 0)
    ensures Slot(ticket, n, count) == (Slot(ticket, 0, count) + n) % count
  {
    if U32 % count == 0 {
      ResidueSurvivesWrap(ticket + n, count);
    }
    var home := ticket % count;
    assert ticket + n == (ticket / count) * count + (home + n);
    var d := (home + n) / count;
    assert (ticket / count + d) * count == (ticket / count) * count + d * count;
    DivModUnique(ticket + n, count, ticket / count + d, (home + n) % count);
  }

  /** A probe that visits `q` exists as soon as `q` has a visit. */
  lemma {:induction false} VisitWitness(ticket: nat, probes: nat, count: nat, q: nat) returns (n: nat)
    requires 0 < count && Visits(ticket, probes, count, q) > 0
    ensures n < probes && Slot(ticket, n, count) == q
  {
    if Slot(ticket, probes - 1, count) == q {
      n := probes - 1;
    } else {
      n := VisitWitness(ticket, probes - 1, count, q);
    }
  }

  /** Two different probes of the same queue make two visits. */
  lemma {:induction false} TwoProbesTwoVisits(ticket: nat, probes: nat, count: nat, m: nat, n: nat)
    requires 0 < count && m < n < probes && Slot(ticket, m, count) == Slot(ticket, n, count)
    ensures Visits(ticket, probes, count, Slot(ticket, n, count)) >= 2
  {
    if n == probes - 1 {
      SomeVisit(ticket, n, count, m);
    } else {
      TwoProbesTwoVisits(ticket, probes - 1, count, m, n);
    }
  }

  lemma {:induction false} SomeVisit(ticket: nat, probes: nat, count: nat, n: nat)
    requires 0 < count && n < probes
    ensures Visits(ticket, probes, count, Slot(ticket, n, count)) >= 1
  {
    if n < probes - 1 {
      SomeVisit(ticket, probes - 1, count, n);
    }
  }

  // ---------------------------------------------------------------- dealing is balanced

  /** After `k` uncontended schedule calls from a fresh scheduler, queue sizes differ by at most one. */
  ghost predicate BalancedAfter(k: nat, count: nat)
    requires 0 < count
  {
    forall p: nat, q: nat | p < count && q < count :: Visits(0, k, count, p) <= Visits(0, k, count, q) + 1
  }

  lemma ResidueSurvivesWrap(x: nat, count: nat)
    requires 0 < count && U32 % count == 0
    ensures Wrap(x) % count == x % count
  {
    var a, d, w := U32 / count, x / U32, Wrap(x);
    assert U32 == a * count;
    assert x == d * U32 + w;
    assert d * U32 == (d * a) * count;
    assert (d * a + w / count) * count == (d * a) * count + (w / count) * count;
    DivModUnique(x, count, d * a + w / count, w % count);
  }

  lemma {:induction false} VisitsWhenDividing(k: nat, count: nat, q: nat)
    requires 0 < count && U32 % count == 0
    ensures Visits(0, k, count, q) == Tally(k, count, q)
  {
    if k > 0 {
      VisitsWhenDividing(k - 1, count, q);
      ResidueSurvivesWrap(k - 1, count);
    }
  }

  lemma BalancedWithoutWrap(k: nat, count: nat)
    requires 0 < count && k <= U32
    ensures BalancedAfter(k, count)
  {
    forall q: nat | q < count ensures k / count <= Visits(0, k, count, q) <= k / count + 1 {
      VisitsWithoutWrap(0, k, count, q);
      TallyClosedForm(k, count, q);
    }
  }

  /** Dealing stays balanced for ever exactly if the queue count divides 2^32; until the ticket wraps it always is. */
  lemma BalancedForeverIff(count: nat)
    requires 0 < count
    ensures forall k: nat | k <= U32 :: BalancedAfter(k, count)
    ensures (forall k: nat :: BalancedAfter(k, count)) <==> U32 % count == 0
  {
    forall k: nat | k <= U32 ensures BalancedAfter(k, count) {
      BalancedWithoutWrap(k, count);
    }
    if U32 % count == 0 {
      forall k: nat ensures BalancedAfter(k, count) {
        forall q: nat | q < count ensures k / count <= Visits(0, k, count, q) <= k / count + 1 {
          VisitsWhenDividing(k, count, q);
          TallyClosedForm(k, count, q);
        }
      }
    } else {
      // one call after the wrap, queue 0 is two ahead of the last queue
      UnevenAfterWrap(count);
      assert !BalancedAfter(U32 + 1, count);
    }
  }

  lemma UnevenAfterWrap(count: nat)
    requires 0 < count && U32 % count != 0
    ensures Visits(0, U32 + 1, count, 0) == Visits(0, U32 + 1, count, count - 1) + 2
  {
    assert count != 1;
    VisitsAcrossWrap(0, U32 + 1, count, 0);
    VisitsAcrossWrap(0, U32 + 1, count, count - 1);
    TallyClosedForm(U32, count, 0);
    TallyClosedForm(U32, count, count - 1);
    DivModUnique(1, count, 0, 1);
    TallyClosedForm(1, count, 0);
    TallyClosedForm(1, count, count - 1);
  }
}
