/** Finite counting used by the machines: sizes of sets, and sums over sequences. */
module Counting {

  /** The numbers below `n`. */
  function Below(n: nat): (s: set<nat>)
    ensures |s| == n
    ensures forall x: nat :: x in s <==> x < n
  {
    if n == 0 then {} else Below(n - 1) + {n - 1}
  }

  lemma {:induction false} SubsetSize<A>(a: set<A>, b: set<A>)
    requires a <= b
    ensures |a| <= |b|
    ensures |a| == |b| ==> a == b
    decreases |a|
  {
    if a != {} {
      var x :| x in a;
      SubsetSize(a - {x}, b - {x});
      assert a == (a - {x}) + {x};
      assert b == (b - {x}) + {x};
    } else if |b| == 0 {
      assert b == {};
    }
  }

  ghost predicate Distinct<A>(f: seq<A>) {
    forall i, j | 0 <= i < j < |f| :: f[i] != f[j]
  }

  lemma {:induction false} DistinctSize<A>(f: seq<A>)
    requires Distinct(f)
    ensures |set x | x in f| == |f|
  {
    if f != [] {
      var g, last := f[..|f| - 1], f[|f| - 1];
      DistinctSize(g);
      assert forall i | 0 <= i < |g| :: g[i] == f[i] != last;
      assert f == g + [last];
      assert (set x | x in f) == (set x | x in g) + {last};
    } else {
      assert (set x | x in f) == {};
    }
  }

  /** Distinct numbers below their own count are all the numbers below it. */
  lemma Pigeonhole(f: seq<nat>, q: nat)
    requires forall i | 0 <= i < |f| :: f[i] < |f|
    requires Distinct(f)
    requires q < |f|
    ensures q in f
  {
    var image := set x | x in f;
    DistinctSize(f);
    SubsetSize(image, Below(|f|));
    assert q in Below(|f|);
  }

  function Sum(xs: seq<nat>): nat {
    if xs == [] then 0 else xs[0] + Sum(xs[1..])
  }

  lemma {:induction false} SumUpdate(xs: seq<nat>, i: nat, v: nat)
    requires i < |xs|
    ensures Sum(xs[i := v]) + xs[i] == Sum(xs) + v
  {
    if i == 0 {
      assert xs[i := v][1..] == xs[1..];
    } else {
      SumUpdate(xs[1..], i - 1, v);
      assert xs[i := v][1..] == xs[1..][i - 1 := v];
    }
  }

  /** Sums compare as their terms do, with the slack that one term has. */
  lemma {:induction false} SumPointwise(xs: seq<nat>, ys: seq<nat>, i: int, slack: nat)
    requires |xs| == |ys|
    requires forall j | 0 <= j < |xs| :: xs[j] + (if j == i then slack else 0) <= ys[j]
    ensures Sum(xs) + (if 0 <= i < |xs| then slack else 0) <= Sum(ys)
  {
    if xs != [] {
      SumPointwise(xs[1..], ys[1..], i - 1, slack);
    }
  }

  ghost function Union<A>(xs: seq<multiset<A>>): multiset<A> {
    if xs == [] then multiset{} else xs[0] + Union(xs[1..])
  }

  /** If replacing `part` by `part'` turns `total` into `total'`, the totals balance as the parts do. */
  lemma Trade<A>(total: multiset<A>, total': multiset<A>, part: multiset<A>, part': multiset<A>,
                 into: multiset<A>, out: multiset<A>)
    requires total' + part == total + part' && part + into == part' + out
    ensures total + into == total' + out
  {
    forall x: A ensures (total + into)[x] == (total' + out)[x] {
      assert (total' + part)[x] == (total + part')[x];
      assert (part + into)[x] == (part' + out)[x];
    }
  }

  /** Two balances in a row are one balance. */
  lemma Compose<A>(a: multiset<A>, b: multiset<A>, c: multiset<A>,
                   into: multiset<A>, out: multiset<A>, into': multiset<A>, out': multiset<A>)
    requires a + into == b + out && b + into' == c + out'
    ensures a + (into + into') == c + (out + out')
  {
    forall x: A ensures (a + (into + into'))[x] == (c + (out + out'))[x] {
      assert (a + into)[x] == (b + out)[x];
      assert (b + into')[x] == (c + out')[x];
    }
  }

  lemma {:induction false} UnionUpdate<A>(xs: seq<multiset<A>>, i: nat, v: multiset<A>)
    requires i < |xs|
    ensures Union(xs[i := v]) + xs[i] == Union(xs) + v
  {
    if i == 0 {
      assert xs[i := v][1..] == xs[1..];
    } else {
      UnionUpdate(xs[1..], i - 1, v);
      assert xs[i := v][1..] == xs[1..][i - 1 := v];
      assert Union(xs[i := v]) == xs[0] + Union(xs[1..][i - 1 := v]);
      assert Union(xs[i := v]) + xs[i] == xs[0] + (Union(xs[1..]) + v);
    }
  }

  lemma {:induction false} UnionOfEmpties<A>(xs: seq<multiset<A>>)
    requires forall i | 0 <= i < |xs| :: xs[i] == multiset{}
    ensures Union(xs) == multiset{}
  {
    if xs != [] {
      UnionOfEmpties(xs[1..]);
    }
  }
}
