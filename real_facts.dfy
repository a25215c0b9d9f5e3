// Facts about real arithmetic that the slider's proofs use: fractions of a
// length, ratios in the unit interval, and scaling by a factor of at most one.

module RealFacts {
  import opened UnrealMath

  /** A fraction of a nonnegative amount is between zero and that amount. */
  lemma FractionOf(a: real, f: real)
    requires a >= 0.0 && 0.0 <= f <= 1.0
    ensures 0.0 <= a * f <= a
  {
    assert a - a * f == a * (1.0 - f);
  }

  /** A ratio of a nonnegative amount to a larger positive one lies in [0, 1]. */
  lemma RatioInUnit(n: real, d: real)
    requires d > 0.0 && 0.0 <= n <= d
    ensures 0.0 <= n / d <= 1.0
  {
    assert (n / d) * d == n;
  }

  /** A fraction of a signed length, offset by -minScale, lies between -minScale and length - minScale. */
  lemma ScaledFractionWithin(c: real, dist: real, minScale: real)
    requires 0.0 <= c <= 1.0
    ensures Min(-minScale, dist - minScale) <= c * dist - minScale <= Max(-minScale, dist - minScale)
  {
    var p := c * dist;
    if dist >= 0.0 {
      FractionOf(dist, c);
      assert 0.0 <= p <= dist;
      assert -minScale <= p - minScale <= dist - minScale;
    } else {
      FractionOf(-dist, c);
      assert (-dist) * c == -p;
      assert dist <= p <= 0.0;
      assert dist - minScale <= p - minScale <= -minScale;
    }
  }

  /** A fraction of a nonpositive amount is between that amount and zero. */
  lemma FractionOfNegative(a: real, f: real)
    requires a <= 0.0 && 0.0 <= f <= 1.0
    ensures a <= a * f <= 0.0
  {
    assert a * f - a == a * (f - 1.0);
  }

  /** Reversing a nonnegative momentum and scaling it by a restitution of at most one never makes it faster. */
  lemma RestitutionSlowsForward(x: real, restitution: real)
    requires 0.0 < restitution <= 1.0 && x >= 0.0
    ensures Abs(-(x * restitution)) <= Abs(x)
  {
    FractionOf(x, restitution);
  }

  /** Reversing a negative momentum and scaling it by a restitution of at most one never makes it faster. */
  lemma RestitutionSlowsBackward(x: real, restitution: real)
    requires 0.0 < restitution <= 1.0 && x < 0.0
    ensures Abs(-(x * restitution)) <= Abs(x)
  {
    FractionOfNegative(x, restitution);
  }

  /** Reversing a momentum and scaling it by a restitution of at most one never makes it faster. */
  lemma RestitutionSlows(x: real, restitution: real)
    requires 0.0 < restitution <= 1.0
    ensures Abs(-(x * restitution)) <= Abs(x)
  {
    if x >= 0.0 {
      RestitutionSlowsForward(x, restitution);
    } else {
      RestitutionSlowsBackward(x, restitution);
    }
  }
}
