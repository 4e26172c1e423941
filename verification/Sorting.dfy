/** Sorting by a comparison, standing for the library sort. */
module Sorting {
  ghost predicate TotalPreorder<T(!new)>(le: (T, T) -> bool) {
    && (forall a, b :: le(a, b) || le(b, a))
    && (forall a, b, c :: le(a, b) && le(b, c) ==> le(a, c))
  }

  ghost predicate Sorted<T>(xs: seq<T>, le: (T, T) -> bool) {
    forall i, j | 0 <= i < j < |xs| :: le(xs[i], xs[j])
  }

  lemma Inserted<T(!new)>(xs: seq<T>, i: nat, x: T, le: (T, T) -> bool)
    requires TotalPreorder(le) && Sorted(xs, le) && i <= |xs|
    requires i > 0 ==> le(xs[i - 1], x)
    requires forall j | i <= j < |xs| :: le(x, xs[j])
    ensures Sorted(xs[..i] + [x] + xs[i..], le)
  {
  }

  method Insert<T(!new)>(xs: seq<T>, x: T, le: (T, T) -> bool) returns (r: seq<T>)
    requires TotalPreorder(le) && Sorted(xs, le)
    ensures Sorted(r, le)
    ensures multiset(r) == multiset(xs) + multiset{x}
  {
    var i := |xs|;
    while i > 0 && !le(xs[i - 1], x)
      invariant 0 <= i <= |xs|
      invariant forall j | i <= j < |xs| :: le(x, xs[j])
    {
      i := i - 1;
    }
    r := xs[..i] + [x] + xs[i..];
    Inserted(xs, i, x, le);
    assert xs == xs[..i] + xs[i..];
    hide TotalPreorder;
    hide Sorted;
  }

  method SortBy<T(!new)>(xs: seq<T>, le: (T, T) -> bool) returns (r: seq<T>)
    requires TotalPreorder(le)
    ensures Sorted(r, le)
    ensures multiset(r) == multiset(xs)
  {
    r := [];
    for i := 0 to |xs|
      invariant Sorted(r, le)
      invariant multiset(r) == multiset(xs[..i])
    {
      assert xs[..i + 1] == xs[..i] + [xs[i]];
      r := Insert(r, xs[i], le);
    }
    assert xs[..|xs|] == xs;
  }

  ghost predicate Distinct<T>(xs: seq<T>) {
    forall i, j | 0 <= i < j < |xs| :: xs[i] != xs[j]
  }

  lemma {:induction false} DistinctCounts<T>(xs: seq<T>)
    ensures Distinct(xs) <==> forall x | x in xs :: multiset(xs)[x] == 1
  {
    if xs != [] {
      var rest := xs[1..];
      DistinctCounts(rest);
      assert xs == [xs[0]] + rest;
      assert multiset(xs) == multiset{xs[0]} + multiset(rest);
      assert Distinct(xs) <==> Distinct(rest) && xs[0] !in rest by {
        if xs[0] in rest {
          var i :| 0 <= i < |rest| && rest[i] == xs[0];
          assert xs[i + 1] == xs[0];
        }
        forall i, j | 0 <= i < j < |rest|
          ensures rest[i] == xs[i + 1] && rest[j] == xs[j + 1]
        {
        }
        if Distinct(rest) && xs[0] !in rest {
          forall i, j | 0 <= i < j < |xs|
            ensures xs[i] != xs[j]
          {
            assert xs[j] == rest[j - 1];
            if i > 0 {
              assert xs[i] == rest[i - 1];
            }
          }
        }
      }
      forall x | x in xs
        ensures multiset(xs)[x] == multiset(rest)[x] + (if x == xs[0] then 1 else 0)
      {
      }
      if forall x | x in xs :: multiset(xs)[x] == 1 {
        assert xs[0] in xs;
        forall x | x in rest
          ensures multiset(rest)[x] == 1
        {
          assert x in xs;
        }
      }
    }
  }

  /** Rearranging a list changes neither its elements nor whether they repeat. */
  lemma SameBag<T>(xs: seq<T>, ys: seq<T>)
    requires multiset(xs) == multiset(ys)
    ensures |xs| == |ys|
    ensures forall x :: x in xs <==> x in ys
    ensures Distinct(xs) <==> Distinct(ys)
  {
    assert |multiset(xs)| == |multiset(ys)|;
    forall x
      ensures x in xs <==> x in ys
    {
      assert x in xs <==> x in multiset(xs);
      assert x in ys <==> x in multiset(ys);
    }
    DistinctCounts(xs);
    DistinctCounts(ys);
  }

  /** The elements of a set, in some order. */
  method Elements<T>(s: set<T>) returns (xs: seq<T>)
    ensures Distinct(xs)
    ensures forall x :: x in xs <==> x in s
  {
    xs := [];
    var rest := s;
    while rest != {}
      invariant rest <= s
      invariant Distinct(xs)
      invariant forall x :: x in xs <==> x in s - rest
      decreases rest
    {
      var x :| x in rest;
      assert x !in xs;
      xs := xs + [x];
      rest := rest - {x};
    }
  }
}
