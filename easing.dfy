/** Smoothstep easing, t*t*(3 - 2t): slow in, fast middle, slow out.
    The same polynomial is written out in animate_v2 (_ease_in_out), in
    genuary_swarm (_ease_in_out) and inline in boolean_algebra's frame
    schedule; it is defined once here, with the linear frame progress that
    both frame loops feed into it. */
module Easing {

  import opened RealArith

  function Smoothstep(t: real): real
  {
    t * t * (3.0 - 2.0 * t)
  }

  /** The fixed points the animations rely on: the first and the last frame
      sit exactly on the key values, and the midpoint is unmoved. */
  lemma SmoothstepFixedPoints()
    ensures Smoothstep(0.0) == 0.0
    ensures Smoothstep(1.0) == 1.0
    ensures Smoothstep(0.5) == 0.5
  {
  }

  /** Progress in [0, 1] stays in [0, 1]. */
  lemma SmoothstepBounded(t: real)
    requires 0.0 <= t <= 1.0
    ensures 0.0 <= Smoothstep(t) <= 1.0
  {
    SmoothstepMonotone(0.0, t);
    SmoothstepMonotone(t, 1.0);
  }

  /** Strictly inside (0, 1) stays strictly inside (0, 1). */
  lemma SmoothstepInterior(t: real)
    requires 0.0 < t < 1.0
    ensures 0.0 < Smoothstep(t) < 1.0
  {
    // the upper bound is the lower bound at 1 - t, by symmetry
    SmoothstepPositive(t);
    SmoothstepPositive(1.0 - t);
    SmoothstepSymmetric(t);
  }

  lemma SmoothstepPositive(t: real)
    requires 0.0 < t < 1.0
    ensures 0.0 < Smoothstep(t)
  {
    MulPos(t, t);
    MulPos(Mul(t, t), 3.0 - 2.0 * t);
    assert Mul(Mul(t, t), 3.0 - 2.0 * t) == Smoothstep(t);
  }

  /** Smoothstep is monotone on [0, 1]. */
  lemma SmoothstepMonotone(a: real, b: real)
    requires 0.0 <= a <= b <= 1.0
    ensures Smoothstep(a) <= Smoothstep(b)
  {
    // e(b) - e(a) = (b - a) * (3(a + b) - 2(a*a + a*b + b*b))
    var q := 3.0 * (a + b) - 2.0 * (a * a + a * b + b * b);
    MulNonneg(a, 1.0 - a);
    MulNonneg(b, 1.0 - b);
    MulNonneg(b, 1.0 - a);
    MulNonneg(a, 1.0 - b);
    assert Mul(a, 1.0 - a) == a - a * a;
    assert Mul(b, 1.0 - b) == b - b * b;
    assert Mul(b, 1.0 - a) == b - a * b;
    assert Mul(a, 1.0 - b) == a - a * b;
    assert q >= 0.0;
    MulNonneg(b - a, q);
    assert Mul(b - a, q) == Smoothstep(b) - Smoothstep(a);
  }

  /** Easing is point-symmetric about (0.5, 0.5). */
  lemma SmoothstepSymmetric(t: real)
    ensures Smoothstep(1.0 - t) == 1.0 - Smoothstep(t)
  {
  }

  /** Linear progress of frame i of n: i/(n - 1), or 1.0 for a single frame. */
  function FrameProgress(i: nat, n: nat): real
  {
    if n > 1 then i as real / (n - 1) as real else 1.0
  }

  /** Progress starts at 0 and ends at 1 (a lone frame is already at 1),
      stays in [0, 1], and is strictly inside for the frames in between. */
  lemma FrameProgressBounds(i: nat, n: nat)
    requires i < n
    ensures n > 1 ==> FrameProgress(0, n) == 0.0 && FrameProgress(n - 1, n) == 1.0
    ensures n == 1 ==> FrameProgress(0, n) == 1.0
    ensures 0 < i < n - 1 ==> 0.0 < FrameProgress(i, n) < 1.0
    ensures 0.0 <= FrameProgress(i, n) <= 1.0
  {
    if 0 < i < n - 1 {
      DivInterior(i as real, (n - 1) as real);
    }
  }
}
