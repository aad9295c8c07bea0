/** numpy.linspace with both ends included, as the stroke sampler of
    genuary_swarm and the petal arcs of fibonacci use it. */
module Spacing {

  import opened RealArith

  /** Value k of numpy.linspace(lo, hi, n). */
  function LinspaceAt(lo: real, hi: real, n: nat, k: nat): real
  {
    if n > 1 then Lerp(lo, hi, k as real / (n - 1) as real) else lo
  }

  /** numpy.linspace(lo, hi, n): n evenly spaced values from lo to hi, both
      ends included; a single value is lo. */
  function Linspace(lo: real, hi: real, n: nat): (r: seq<real>)
    ensures |r| == n
  {
    seq(n, k requires 0 <= k < n => LinspaceAt(lo, hi, n, k))
  }

  /** The first value is lo and, for two or more values, the last is hi. */
  lemma LinspaceEnds(lo: real, hi: real, n: nat)
    requires n >= 1
    ensures Linspace(lo, hi, n)[0] == lo
    ensures n > 1 ==> Linspace(lo, hi, n)[n - 1] == hi
  {
    assert Linspace(lo, hi, n)[0] == LinspaceAt(lo, hi, n, 0);
    assert Linspace(lo, hi, n)[n - 1] == LinspaceAt(lo, hi, n, n - 1);
    if n > 1 {
      var d := (n - 1) as real;
      assert Mul(1.0, d) == d;
      DivOfMul(1.0, d);
    }
  }

  /** Neighbouring values are (hi - lo) / (n - 1) apart. */
  lemma LinspaceStep(lo: real, hi: real, n: nat, k: nat)
    requires k + 1 < n
    ensures Linspace(lo, hi, n)[k + 1] - Linspace(lo, hi, n)[k] == (hi - lo) / (n - 1) as real
  {
    var d := (n - 1) as real;
    var q0, q1 := k as real / d, (k + 1) as real / d;
    FractionStep(k as real, d);
    assert Linspace(lo, hi, n)[k + 1] == lo + Mul(hi - lo, q1);
    assert Linspace(lo, hi, n)[k] == lo + Mul(hi - lo, q0);
    assert Mul(hi - lo, q1) - Mul(hi - lo, q0) == Mul(hi - lo, q1 - q0);
    assert Mul(hi - lo, 1.0 / d) == (hi - lo) / d;
  }

  /** (k + 1)/d - k/d is 1/d. */
  lemma FractionStep(k: real, d: real)
    requires d > 0.0
    ensures (k + 1.0) / d - k / d == 1.0 / d
  {
    var q0, q1 := k / d, (k + 1.0) / d;
    assert Mul(q0, d) == k && Mul(q1, d) == k + 1.0;
    assert Mul(q1 - q0, d) == Mul(q1, d) - Mul(q0, d);
    assert Mul(1.0, d) == d;
    DivOfMul(q1 - q0, d);
    DivOfMul(1.0, d);
  }

  /** Every value lies between lo and hi. */
  lemma LinspaceBetween(lo: real, hi: real, n: nat, k: nat)
    requires k < n && lo <= hi
    ensures lo <= Linspace(lo, hi, n)[k] <= hi
  {
    assert Linspace(lo, hi, n)[k] == LinspaceAt(lo, hi, n, k);
    if n > 1 {
      var d := (n - 1) as real;
      DivUnit(k as real, d);
      LerpBetween(lo, hi, k as real / d);
    }
  }
}
