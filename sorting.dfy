/**
 * Ascending sort of a vector of reals (numpy's `np.sort` / `ndarray.sort`),
 * written as insertion sort, with the facts the CVaR estimator and the
 * empirical CDF rely on: the result is sorted, is a permutation of the input,
 * is the only sorted permutation, commutes with every strictly increasing
 * map of the values (translations and positive scalings among them), and is
 * monotone in every input value.
 */
module Sorting {
  import opened Vectors

  /** Ascending order, stated on neighbours; SortedOrder gives every pair. */
  predicate Sorted(s: seq<real>)
  {
    |s| <= 1 || (s[0] <= s[1] && Sorted(s[1..]))
  }

  lemma {:induction false} SortedOrder(s: seq<real>, i: nat, j: nat)
    requires Sorted(s) && i <= j < |s|
    ensures s[i] <= s[j]
    decreases |s|, j - i
  {
    if i < j {
      if i == 0 {
        SortedOrder(s, 1, j);
      } else {
        SortedOrder(s[1..], i - 1, j - 1);
      }
    }
  }

  function Insert(x: real, s: seq<real>): (r: seq<real>)
    requires Sorted(s)
    ensures |r| == |s| + 1 && Sorted(r)
    ensures r[0] == if |s| == 0 || x <= s[0] then x else s[0]
  {
    if |s| == 0 then [x]
    else if x <= s[0] then [x] + s
    else [s[0]] + Insert(x, s[1..])
  }

  function Sort(s: seq<real>): (r: seq<real>)
    ensures |r| == |s| && Sorted(r)
  {
    if |s| == 0 then []
    else Insert(s[0], Sort(s[1..]))
  }

  lemma {:induction false} InsertPermutation(x: real, s: seq<real>)
    requires Sorted(s)
    ensures multiset(Insert(x, s)) == multiset(s) + multiset{x}
  {
    if |s| > 0 {
      assert s == [s[0]] + s[1..];
      if x > s[0] {
        InsertPermutation(x, s[1..]);
      }
    }
  }

  /** The sorted result is a permutation of the input. */
  lemma {:induction false} SortPermutes(s: seq<real>)
    ensures multiset(Sort(s)) == multiset(s)
  {
    if |s| > 0 {
      assert s == [s[0]] + s[1..];
      SortPermutes(s[1..]);
      InsertPermutation(s[0], Sort(s[1..]));
    }
  }

  /** The head of a sorted sequence is its least value. */
  lemma HeadIsLeast(s: seq<real>, v: real)
    requires Sorted(s) && v in s
    ensures s[0] <= v
  {
    var i :| 0 <= i < |s| && s[i] == v;
    SortedOrder(s, 0, i);
  }

  /** Two sorted sequences holding the same values are equal. */
  lemma {:induction false} SortedUnique(a: seq<real>, b: seq<real>)
    requires Sorted(a) && Sorted(b) && multiset(a) == multiset(b)
    ensures a == b
  {
    assert |a| == |multiset(a)| == |b|;
    if |a| > 0 {
      assert a[0] in a && b[0] in b;
      assert a[0] in multiset(b) && b[0] in multiset(a);
      HeadIsLeast(b, a[0]);
      HeadIsLeast(a, b[0]);
      assert a == [a[0]] + a[1..];
      assert b == [b[0]] + b[1..];
      assert a[0] == b[0];
      calc {
        multiset(a[1..]);
        multiset(a) - multiset{a[0]};
        multiset(b) - multiset{b[0]};
        multiset(b[1..]);
      }
      SortedUnique(a[1..], b[1..]);
    }
  }

  /** Sorting a permutation gives the same result. */
  lemma SortPermutation(a: seq<real>, b: seq<real>)
    requires multiset(a) == multiset(b)
    ensures Sort(a) == Sort(b)
  {
    SortPermutes(a);
    SortPermutes(b);
    SortedUnique(Sort(a), Sort(b));
  }


  /** For c > 0, multiplying by c keeps comparisons. */
  lemma ScaleOrder(c: real, x: real, y: real)
    requires c > 0.0
    ensures x <= y ==> c * x <= c * y
    ensures x > y ==> c * x > c * y
  {
    if x <= y {
      assert c * y - c * x == c * (y - x);
    } else {
      assert c * x - c * y == c * (x - y);
    }
  }

  /** f applied to every value. */
  function Map(f: real -> real, s: seq<real>): (r: seq<real>)
    ensures |r| == |s| && forall i :: 0 <= i < |s| ==> r[i] == f(s[i])
  {
    seq(|s|, i requires 0 <= i < |s| => f(s[i]))
  }

  ghost predicate Increasing(f: real -> real)
  {
    forall u, v :: u < v ==> f(u) < f(v)
  }

  lemma MapTail(f: real -> real, s: seq<real>)
    requires |s| > 0
    ensures Map(f, s)[1..] == Map(f, s[1..])
  {
    assert forall j :: 0 <= j < |s| - 1 ==> Map(f, s)[1..][j] == Map(f, s[1..])[j];
  }

  lemma MapCons(f: real -> real, x: real, s: seq<real>)
    ensures Map(f, [x] + s) == [f(x)] + Map(f, s)
  {
    assert forall j :: 0 <= j < |s| + 1 ==> Map(f, [x] + s)[j] == ([f(x)] + Map(f, s))[j];
  }

  lemma {:induction false} MapSorted(f: real -> real, s: seq<real>)
    requires Increasing(f) && Sorted(s)
    ensures Sorted(Map(f, s))
  {
    if |s| > 1 {
      MapTail(f, s);
      MapSorted(f, s[1..]);
      assert s[0] < s[1] ==> f(s[0]) < f(s[1]);
    }
  }

  lemma InsertMapStep(f: real -> real, x: real, s: seq<real>)
    requires Sorted(s) && |s| > 0 && Sorted(Map(f, s)) && Sorted(Map(f, s[1..]))
    requires (x <= s[0]) == (f(x) <= f(s[0]))
    requires Insert(f(x), Map(f, s[1..])) == Map(f, Insert(x, s[1..]))
    ensures Insert(f(x), Map(f, s)) == Map(f, Insert(x, s))
  {
    var t := Map(f, s);
    MapTail(f, s);
    assert t[0] == f(s[0]);
    if x > s[0] {
      calc {
        Map(f, Insert(x, s));
        Map(f, [s[0]] + Insert(x, s[1..]));
        { MapCons(f, s[0], Insert(x, s[1..])); }
        [f(s[0])] + Map(f, Insert(x, s[1..]));
        [t[0]] + Insert(f(x), t[1..]);
        Insert(f(x), t);
      }
    } else {
      calc {
        Map(f, Insert(x, s));
        Map(f, [x] + s);
        { MapCons(f, x, s); }
        [f(x)] + t;
        Insert(f(x), t);
      }
    }
  }


  lemma {:induction false} InsertMap(f: real -> real, x: real, s: seq<real>)
    requires Increasing(f) && Sorted(s)
    ensures Sorted(Map(f, s))
    ensures Insert(f(x), Map(f, s)) == Map(f, Insert(x, s))
  {
    MapSorted(f, s);
    if |s| > 0 {
      InsertMap(f, x, s[1..]);
      assert x < s[0] ==> f(x) < f(s[0]);
      assert s[0] < x ==> f(s[0]) < f(x);
      InsertMapStep(f, x, s);
    } else {
      MapCons(f, x, []);
    }
  }

  /** Sorting commutes with every strictly increasing map of the values. */
  lemma {:induction false} SortMap(f: real -> real, s: seq<real>)
    requires Increasing(f)
    ensures Sort(Map(f, s)) == Map(f, Sort(s))
  {
    if |s| > 0 {
      var t := Map(f, s);
      MapTail(f, s);
      SortMap(f, s[1..]);
      InsertMap(f, s[0], Sort(s[1..]));
      assert Sort(t) == Insert(t[0], Sort(t[1..]));
    }
  }

  /** Adding c to every value adds c to every order statistic. */
  lemma SortShift(s: seq<real>, c: real)
    ensures Sort(Shift(s, c)) == Shift(Sort(s), c)
  {
    var f := v => v + c;
    SortMap(f, s);
    MapShift(s, c);
    MapShift(Sort(s), c);
  }

  lemma MapShift(s: seq<real>, c: real)
    ensures Map(v => v + c, s) == Shift(s, c)
  {
    assert forall i :: 0 <= i < |s| ==> Map(v => v + c, s)[i] == Shift(s, c)[i];
  }

  lemma SortScaleZero(s: seq<real>)
    ensures Sort(Scale(0.0, s)) == Scale(0.0, Sort(s))
  {
    var t := Scale(0.0, s);
    var r := Sort(t);
    SortPermutes(t);
    forall i | 0 <= i < |r|
      ensures r[i] == 0.0
    {
      assert r[i] in multiset(t);
      var j :| 0 <= j < |t| && t[j] == r[i];
    }
  }

  lemma MapScale(s: seq<real>, c: real)
    ensures Map(v => c * v, s) == Scale(c, s)
  {
    assert forall i :: 0 <= i < |s| ==> Map(v => c * v, s)[i] == Scale(c, s)[i];
  }

  /** For c ≥ 0, multiplying every value by c multiplies every order statistic by c. */
  lemma {:induction false} SortScale(s: seq<real>, c: real)
    requires c >= 0.0
    ensures Sort(Scale(c, s)) == Scale(c, Sort(s))
  {
    if c == 0.0 {
      SortScaleZero(s);
    } else {
      var f := v => c * v;
      forall u, v | u < v
        ensures f(u) < f(v)
      {
        ScaleOrder(c, u, v);
      }
      SortMap(f, s);
      MapScale(s, c);
      MapScale(Sort(s), c);
    }
  }

  /** A sorted non-empty sequence is its head inserted into its tail. */
  lemma InsertHead(s: seq<real>)
    requires Sorted(s) && |s| > 0
    ensures Insert(s[0], s[1..]) == s
  {
  }

  predicate Below(a: seq<real>, b: seq<real>)
  {
    |a| == |b| && forall i :: 0 <= i < |a| ==> a[i] <= b[i]
  }

  lemma {:induction false} InsertMonotone(x: real, t: seq<real>, y: real, u: seq<real>)
    requires Sorted(t) && Sorted(u) && Below(t, u) && x <= y
    ensures Below(Insert(x, t), Insert(y, u))
    decreases |t|
  {
    if |t| == 0 {
    } else if x <= t[0] && y <= u[0] {
    } else if x > t[0] && y > u[0] {
      InsertMonotone(x, t[1..], y, u[1..]);
    } else if x <= t[0] {
      InsertMonotone(t[0], t[1..], y, u[1..]);
      InsertHead(t);
    } else {
      InsertMonotone(x, t[1..], u[0], u[1..]);
      InsertHead(u);
    }
  }

  /** Raising some values never lowers any order statistic. */
  lemma {:induction false} SortMonotone(f: seq<real>, g: seq<real>)
    requires Below(f, g)
    ensures Below(Sort(f), Sort(g))
  {
    if |f| > 0 {
      SortMonotone(f[1..], g[1..]);
      InsertMonotone(f[0], Sort(f[1..]), g[0], Sort(g[1..]));
    }
  }
}
