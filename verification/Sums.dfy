/** Sums over the elements of a sequence and the values of a map. */
module Sums {
  function SumSeq<T>(xs: seq<T>, f: T -> nat): nat {
    if xs == [] then 0 else f(xs[0]) + SumSeq(xs[1..], f)
  }

  /** Replacing one element changes the sum by the difference. */
  lemma {:induction false} SumUpdate<T>(xs: seq<T>, i: nat, x: T, f: T -> nat)
    requires i < |xs|
    ensures SumSeq(xs[i := x], f) + f(xs[i]) == SumSeq(xs, f) + f(x)
  {
    var ys := xs[i := x];
    if i == 0 {
      assert ys[1..] == xs[1..];
    } else {
      assert ys[1..] == xs[1..][i - 1 := x];
      SumUpdate(xs[1..], i - 1, x, f);
    }
  }

  lemma {:induction false} SumBounded<T>(xs: seq<T>, f: T -> nat, most: nat)
    requires forall x | x in xs :: f(x) <= most
    ensures SumSeq(xs, f) <= most * |xs|
  {
    if xs != [] {
      SumBounded(xs[1..], f, most);
      assert most * |xs| == most + most * |xs[1..]|;
    }
  }

  lemma {:induction false} SumMonotone<T>(xs: seq<T>, f: T -> nat, g: T -> nat)
    requires forall x | x in xs :: f(x) <= g(x)
    ensures SumSeq(xs, f) <= SumSeq(xs, g)
  {
    if xs != [] {
      SumMonotone(xs[1..], f, g);
    }
  }

  lemma {:induction false} SumAppend<T>(xs: seq<T>, x: T, f: T -> nat)
    ensures SumSeq(xs + [x], f) == SumSeq(xs, f) + f(x)
  {
    if xs == [] {
      assert xs + [x] == [x] && [x][1..] == [];
    } else {
      assert (xs + [x])[1..] == xs[1..] + [x];
      SumAppend(xs[1..], x, f);
    }
  }

  lemma {:induction false} SumSame<T>(xs: seq<T>, f: T -> nat, g: T -> nat)
    requires forall x | x in xs :: f(x) == g(x)
    ensures SumSeq(xs, f) == SumSeq(xs, g)
  {
    if xs != [] {
      SumSame(xs[1..], f, g);
    }
  }

  /** A map of counters reads as zero where it has no entry. */
  function Reading<K>(m: map<K, int>, k: K): int {
    if k in m then m[k] else 0
  }

  ghost function SumMap<K(!new)>(m: map<K, int>): int
    decreases m.Keys
  {
    if m == map[] then 0
    else
      var k :| k in m;
      SumMap(m - {k}) + m[k]
  }

  lemma SumMapStep<K(!new)>(m: map<K, int>) returns (k: K)
    requires m != map[]
    ensures k in m && SumMap(m) == SumMap(m - {k}) + m[k]
  {
    k :| k in m && SumMap(m) == SumMap(m - {k}) + m[k];
  }

  lemma {:induction false} SumMapWithout<K(!new)>(m: map<K, int>, k: K)
    requires k in m
    ensures SumMap(m) == SumMap(m - {k}) + m[k]
    decreases m.Keys
  {
    hide SumMap;
    var j := SumMapStep(m);
    if j != k {
      assert m - {j} - {k} == m - {k} - {j};
      SumMapWithout(m - {j}, k);
      SumMapWithout(m - {k}, j);
    }
  }

  /** Adding to one counter adds to the sum. */
  lemma SumMapAdd<K(!new)>(m: map<K, int>, k: K, d: int)
    ensures SumMap(m[k := Reading(m, k) + d]) == SumMap(m) + d
  {
    hide SumMap;
    var m' := m[k := Reading(m, k) + d];
    SumMapWithout(m', k);
    assert m' - {k} == m - {k};
    if k in m {
      SumMapWithout(m, k);
    } else {
      assert m - {k} == m;
    }
  }
}
