/**
 * The triangular kernel K of generator.py and linear/scenarios.py (the two
 * files define the same closure). K(h) is the function
 * x ↦ [|x| < 1/h] · h · (1 − h·|x|), a triangle of height h on the support
 * (−1/h, 1/h). The closure is modelled in its applied form Kernel(h, x).
 */
module Kernel {
  function Abs(x: real): (a: real)
    ensures a >= 0.0 && (a == x || a == -x)
  {
    if x < 0.0 then -x else x
  }

  /** K(h)(x); 1/h needs h ≠ 0. */
  function Kernel(h: real, x: real): real
    requires h != 0.0
  {
    (if Abs(x) < 1.0 / h then 1.0 else 0.0) * h * (1.0 - h * Abs(x))
  }

  /** For h > 0, |x| < 1/h exactly when h·|x| < 1. */
  lemma InSupport(h: real, a: real)
    requires h > 0.0 && a >= 0.0
    ensures a < 1.0 / h <==> h * a < 1.0
  {
    var r := 1.0 / h;
    assert h * r == 1.0;
    if a < r {
      assert h * (r - a) > 0.0;
      assert h * (r - a) == h * r - h * a;
    } else {
      assert h * (a - r) >= 0.0;
      assert h * (a - r) == h * a - h * r;
    }
  }

  /** For h > 0 the kernel is non-negative, and positive exactly on the support |x| < 1/h. */
  lemma KernelSign(h: real, x: real)
    requires h > 0.0
    ensures Kernel(h, x) >= 0.0
    ensures Kernel(h, x) > 0.0 <==> Abs(x) < 1.0 / h
  {
    var a := Abs(x);
    InSupport(h, a);
    if a < 1.0 / h {
      Positive(h, 1.0 - h * a);
    }
  }

  lemma Positive(h: real, d: real)
    requires h > 0.0 && d > 0.0
    ensures 1.0 * h * d > 0.0
  {
  }

  /** Outside the support |x| ≥ 1/h the kernel is 0, whatever the sign of h. */
  lemma KernelVanishes(h: real, x: real)
    requires h != 0.0 && Abs(x) >= 1.0 / h
    ensures Kernel(h, x) == 0.0
  {
  }

  /** Inside the support the kernel is the line h − h²·|x|. */
  lemma KernelInside(h: real, x: real)
    requires h != 0.0 && Abs(x) < 1.0 / h
    ensures Kernel(h, x) == h - h * h * Abs(x)
  {
    Expand(h, Abs(x));
  }

  lemma Expand(h: real, a: real)
    ensures 1.0 * h * (1.0 - h * a) == h - h * h * a
  {
  }

  /** For h > 0 the peak is K(h)(0) = h and no value exceeds it. */
  lemma KernelPeak(h: real, x: real)
    requires h > 0.0
    ensures Kernel(h, 0.0) == h
    ensures Kernel(h, x) <= h
  {
    assert 0.0 < 1.0 / h;
    KernelSign(h, x);
    if Abs(x) < 1.0 / h {
      KernelInside(h, x);
      Drop(h, Abs(x));
    }
  }

  lemma Drop(h: real, a: real)
    requires h > 0.0 && a >= 0.0
    ensures h - h * h * a <= h
  {
    assert h * h * a >= 0.0 by {
      assert h * h > 0.0;
    }
  }

  /** The kernel is even: K(h)(x) = K(h)(−x). */
  lemma KernelSymmetric(h: real, x: real)
    requires h != 0.0
    ensures Kernel(h, x) == Kernel(h, -x)
  {
    assert Abs(x) == Abs(-x);
  }
}
