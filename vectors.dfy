/**
 * Vectors of reals and the element-wise operations numpy performs on them:
 * sums, products, blends and the canonical basis vectors e_i.
 */
module Vectors {

  /** Sum of all entries (numpy's `.sum()`). */
  function Sum(s: seq<real>): real
  {
    if |s| == 0 then 0.0 else s[0] + Sum(s[1..])
  }

  function Add(a: seq<real>, b: seq<real>): (r: seq<real>)
    requires |a| == |b|
    ensures |r| == |a| && forall i :: 0 <= i < |a| ==> r[i] == a[i] + b[i]
  {
    seq(|a|, i requires 0 <= i < |a| => a[i] + b[i])
  }

  /** Element-wise product (numpy's `a * b` on equal shapes). */
  function Mul(a: seq<real>, b: seq<real>): (r: seq<real>)
    requires |a| == |b|
    ensures |r| == |a| && forall i :: 0 <= i < |a| ==> r[i] == a[i] * b[i]
  {
    seq(|a|, i requires 0 <= i < |a| => a[i] * b[i])
  }

  function Scale(c: real, a: seq<real>): (r: seq<real>)
    ensures |r| == |a| && forall i :: 0 <= i < |a| ==> r[i] == c * a[i]
  {
    seq(|a|, i requires 0 <= i < |a| => c * a[i])
  }

  /** Adds the same constant to every entry. */
  function Shift(a: seq<real>, c: real): (r: seq<real>)
    ensures |r| == |a| && forall i :: 0 <= i < |a| ==> r[i] == a[i] + c
  {
    seq(|a|, i requires 0 <= i < |a| => a[i] + c)
  }

  /** The stochastic-approximation blend (1 - alpha) * a + alpha * b. */
  function Blend(a: seq<real>, b: seq<real>, alpha: real): (r: seq<real>)
    requires |a| == |b|
    ensures |r| == |a|
  {
    Add(Scale(1.0 - alpha, a), Scale(alpha, b))
  }

  function Dot(a: seq<real>, b: seq<real>): real
    requires |a| == |b|
  {
    Sum(Mul(a, b))
  }

  /** Every row of a matrix has the given width. */
  predicate Rows(A: seq<seq<real>>, width: nat)
  {
    forall s :: 0 <= s < |A| ==> |A[s]| == width
  }

  function Zeros(n: nat): (r: seq<real>)
    ensures |r| == n && forall i :: 0 <= i < n ==> r[i] == 0.0
  {
    seq(n, i => 0.0)
  }

  function Ones(n: nat): (r: seq<real>)
    ensures |r| == n && forall i :: 0 <= i < n ==> r[i] == 1.0
  {
    seq(n, i => 1.0)
  }

  /** The canonical basis vector e_i of R^n (a row of numpy's `identity(n)`). */
  function Unit(n: nat, i: nat): (r: seq<real>)
    requires i < n
    ensures |r| == n && r[i] == 1.0 && forall j :: 0 <= j < n && j != i ==> r[j] == 0.0
  {
    seq(n, j => if j == i then 1.0 else 0.0)
  }

  lemma ScaleTail(c: real, a: seq<real>)
    requires |a| > 0
    ensures Scale(c, a)[1..] == Scale(c, a[1..])
  {
    assert forall j :: 0 <= j < |a| - 1 ==> Scale(c, a)[1..][j] == Scale(c, a[1..])[j];
  }

  lemma ShiftTail(a: seq<real>, c: real)
    requires |a| > 0
    ensures Shift(a, c)[1..] == Shift(a[1..], c)
  {
    assert forall j :: 0 <= j < |a| - 1 ==> Shift(a, c)[1..][j] == Shift(a[1..], c)[j];
  }

  predicate NonNegative(s: seq<real>)
  {
    forall i :: 0 <= i < |s| ==> s[i] >= 0.0
  }

  lemma {:induction false} SumAppend(a: seq<real>, b: seq<real>)
    ensures Sum(a + b) == Sum(a) + Sum(b)
  {
    if |a| == 0 {
      assert a + b == b;
    } else {
      assert (a + b)[1..] == a[1..] + b;
      SumAppend(a[1..], b);
    }
  }

  lemma {:induction false} SumLast(s: seq<real>)
    requires |s| > 0
    ensures Sum(s) == Sum(s[..|s| - 1]) + s[|s| - 1]
  {
    assert s == s[..|s| - 1] + [s[|s| - 1]];
    SumAppend(s[..|s| - 1], [s[|s| - 1]]);
  }

  lemma {:induction false} SumOfAdd(a: seq<real>, b: seq<real>)
    requires |a| == |b|
    ensures Sum(Add(a, b)) == Sum(a) + Sum(b)
  {
    if |a| > 0 {
      assert Add(a, b)[1..] == Add(a[1..], b[1..]);
      SumOfAdd(a[1..], b[1..]);
    }
  }

  lemma {:induction false} SumOfScale(c: real, a: seq<real>)
    ensures Sum(Scale(c, a)) == c * Sum(a)
  {
    if |a| > 0 {
      ScaleTail(c, a);
      SumOfScale(c, a[1..]);
    }
  }

  lemma {:induction false} SumOfShift(a: seq<real>, c: real)
    ensures Sum(Shift(a, c)) == Sum(a) + (|a| as real) * c
  {
    if |a| > 0 {
      ShiftTail(a, c);
      SumOfShift(a[1..], c);
    }
  }

  lemma {:induction false} SumOfZeros(n: nat)
    ensures Sum(Zeros(n)) == 0.0
  {
    if n > 0 {
      assert Zeros(n)[1..] == Zeros(n - 1);
      SumOfZeros(n - 1);
    }
  }

  /** A vector all of whose entries equal c sums to |s| * c. */
  lemma {:induction false} SumOfConstant(s: seq<real>, c: real)
    requires forall i :: 0 <= i < |s| ==> s[i] == c
    ensures Sum(s) == (|s| as real) * c
  {
    if |s| > 0 {
      SumOfConstant(s[1..], c);
    }
  }

  lemma {:induction false} SumNonNegative(s: seq<real>)
    requires NonNegative(s)
    ensures Sum(s) >= 0.0
  {
    if |s| > 0 {
      SumNonNegative(s[1..]);
    }
  }

  /** Sums are monotone in every entry. */
  lemma {:induction false} SumMonotone(a: seq<real>, b: seq<real>)
    requires |a| == |b|
    requires forall i :: 0 <= i < |a| ==> a[i] <= b[i]
    ensures Sum(a) <= Sum(b)
  {
    if |a| > 0 {
      SumMonotone(a[1..], b[1..]);
    }
  }

  /** Changing one entry by d changes the sum by d. */
  lemma {:induction false} SumUpdate(s: seq<real>, i: nat, v: real)
    requires i < |s|
    ensures Sum(s[i := v]) == Sum(s) - s[i] + v
  {
    if i > 0 {
      assert s[i := v][1..] == s[1..][i - 1 := v];
      SumUpdate(s[1..], i - 1, v);
    }
  }

  /** A vector that is zero except at index i sums to its entry at i. */
  lemma {:induction false} SumSingle(s: seq<real>, i: nat)
    requires i < |s|
    requires forall j :: 0 <= j < |s| && j != i ==> s[j] == 0.0
    ensures Sum(s) == s[i]
  {
    var z := s[i := 0.0];
    SumOfConstant(z, 0.0);
    assert s == z[i := s[i]];
    SumUpdate(z, i, s[i]);
  }

  lemma DotUnit(u: seq<real>, i: nat)
    requires i < |u|
    ensures Dot(u, Unit(|u|, i)) == u[i]
  {
    SumSingle(Mul(u, Unit(|u|, i)), i);
  }

  /** The dot product is additive in its second argument. */
  lemma DotAdd(u: seq<real>, a: seq<real>, b: seq<real>)
    requires |u| == |a| == |b|
    ensures Dot(u, Add(a, b)) == Dot(u, a) + Dot(u, b)
  {
    forall i | 0 <= i < |u|
      ensures Mul(u, Add(a, b))[i] == Add(Mul(u, a), Mul(u, b))[i]
    {
      calc {
        Mul(u, Add(a, b))[i];
        u[i] * (a[i] + b[i]);
        u[i] * a[i] + u[i] * b[i];
      }
    }
    assert Mul(u, Add(a, b)) == Add(Mul(u, a), Mul(u, b));
    SumOfAdd(Mul(u, a), Mul(u, b));
  }

  lemma Swap(x: real, y: real, z: real)
    ensures x * (y * z) == y * (x * z)
  {
  }

  lemma AddMulAt(a: seq<real>, b: seq<real>, c: seq<real>, i: nat, ai: real, ci: real)
    requires |a| == |b| == |c| && i < |a| && a[i] == ai && c[i] == ci
    ensures Add(a, Mul(b, c))[i] == ai + b[i] * ci
  {
  }

  /** The dot product is homogeneous in its second argument. */
  lemma DotScale(u: seq<real>, c: real, a: seq<real>)
    requires |u| == |a|
    ensures Dot(u, Scale(c, a)) == c * Dot(u, a)
  {
    MulScale(u, c, a);
    SumOfScale(c, Mul(u, a));
  }

  lemma MulScale(u: seq<real>, c: real, a: seq<real>)
    requires |u| == |a|
    ensures Mul(u, Scale(c, a)) == Scale(c, Mul(u, a))
  {
    forall i | 0 <= i < |u|
      ensures Mul(u, Scale(c, a))[i] == Scale(c, Mul(u, a))[i]
    {
      Swap(u[i], c, a[i]);
    }
  }

  lemma DotSymmetric(a: seq<real>, b: seq<real>)
    requires |a| == |b|
    ensures Dot(a, b) == Dot(b, a)
  {
    assert Mul(a, b) == Mul(b, a);
  }

  /** The first term of a dot product and the rest. */
  lemma DotCons(a: seq<real>, b: seq<real>)
    requires |a| == |b| > 0
    ensures Dot(a, b) == a[0] * b[0] + Dot(a[1..], b[1..])
  {
    assert forall j :: 0 <= j < |a| - 1 ==> Mul(a, b)[1..][j] == Mul(a[1..], b[1..])[j];
    assert Mul(a, b)[1..] == Mul(a[1..], b[1..]);
  }

  lemma ProductNonNegative(u: real, v: real)
    requires u >= 0.0 && v >= 0.0
    ensures u * v >= 0.0
  {
  }
}
