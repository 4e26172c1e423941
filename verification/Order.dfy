/** The lexicographic order on strings, and finite sets of strings listed in it. */
module Order {
  predicate Less(a: string, b: string) {
    b != "" && (a == "" || a[0] < b[0] || (a[0] == b[0] && Less(a[1..], b[1..])))
  }

  predicate AtMost(a: string, b: string) {
    a == b || Less(a, b)
  }

  lemma {:induction false} LessTransitive(a: string, b: string, c: string)
    requires Less(a, b) && Less(b, c)
    ensures Less(a, c)
  {
    if a != "" && a[0] == b[0] == c[0] {
      LessTransitive(a[1..], b[1..], c[1..]);
    }
  }

  lemma {:induction false} LessTrichotomous(a: string, b: string)
    ensures a == b || Less(a, b) || Less(b, a)
    ensures !(Less(a, b) && Less(b, a)) && !Less(a, a)
  {
    if a != "" && b != "" && a[0] == b[0] {
      LessTrichotomous(a[1..], b[1..]);
      LessTrichotomous(a[1..], a[1..]);
      assert a == [a[0]] + a[1..] && b == [b[0]] + b[1..];
    } else if a != "" {
      LessTrichotomous(a[1..], a[1..]);
    }
  }

  ghost predicate IsLeast(s: set<string>, m: string) {
    m in s && forall x | x in s :: AtMost(m, x)
  }

  lemma {:induction false} LeastExists(s: set<string>)
    requires s != {}
    ensures exists m :: IsLeast(s, m)
    decreases s
  {
    var x :| x in s;
    if s == {x} {
      assert IsLeast(s, x);
    } else {
      LeastExists(s - {x});
      var m :| IsLeast(s - {x}, m);
      LessTrichotomous(m, x);
      if Less(x, m) {
        forall y | y in s
          ensures AtMost(x, y)
        {
          if y != x && y != m {
            assert y in s - {x};
            LessTransitive(x, m, y);
          }
        }
        assert IsLeast(s, x);
      } else {
        assert IsLeast(s, m);
      }
    }
  }

  lemma LeastUnique(s: set<string>, a: string, b: string)
    requires IsLeast(s, a) && IsLeast(s, b)
    ensures a == b
  {
    LessTrichotomous(a, b);
  }

  /** The elements of a set in ascending order. */
  ghost function Ascending(s: set<string>): seq<string>
    decreases s
  {
    if s == {} then []
    else
      LeastExists(s);
      var m :| IsLeast(s, m);
      [m] + Ascending(s - {m})
  }

  ghost predicate StrictlyAscending(xs: seq<string>) {
    forall i, j | 0 <= i < j < |xs| :: Less(xs[i], xs[j])
  }

  lemma {:induction false} AscendingLists(s: set<string>)
    ensures forall x :: x in Ascending(s) <==> x in s
    ensures StrictlyAscending(Ascending(s))
    ensures |Ascending(s)| == |s|
    decreases s
  {
    if s != {} {
      var m := Ascending(s)[0];
      var rest := s - {m};
      LeastExists(s);
      assert IsLeast(s, m) && Ascending(s) == [m] + Ascending(rest);
      AscendingLists(rest);
      var xs := Ascending(s);
      forall i, j | 0 <= i < j < |xs|
        ensures Less(xs[i], xs[j])
      {
        assert xs[j] == Ascending(rest)[j - 1] && xs[j] in rest;
        if i > 0 {
          assert xs[i] == Ascending(rest)[i - 1];
        }
      }
    }
  }

  /** There is only one way to list a set in strictly ascending order. */
  lemma {:induction false} AscendingUnique(xs: seq<string>)
    requires StrictlyAscending(xs)
    ensures xs == Ascending(set x | x in xs)
  {
    var s := set x | x in xs;
    if xs != [] {
      assert xs[0] in s;
      LeastExists(s);
      var m := Ascending(s)[0];
      assert IsLeast(s, xs[0]) by {
        forall x | x in s
          ensures AtMost(xs[0], x)
        {
          var i :| 0 <= i < |xs| && xs[i] == x;
        }
      }
      LeastUnique(s, xs[0], m);
      LessTrichotomous(m, m);
      assert forall i | 0 < i < |xs| :: Less(xs[0], xs[i]);
      assert s - {m} == set x | x in xs[1..];
      AscendingUnique(xs[1..]);
    }
  }
}
