/**
 * Angle similarity of two line normals.
 *
 * `similarAngles` in low_structures.go (identical in golang/low_structures.go)
 * compares angles modulo 2*pi with a fixed threshold of 0.5 rad;
 * `similar_angle` in low_structures.py compares them modulo pi with a caller
 * supplied threshold. The two rules are modelled side by side, and
 * SimilarityRulesDiffer exhibits an input on which they disagree.
 */
module Angles {
  import opened Geometry

  /** The fixed threshold of the Go rule, about 28 degrees. */
  const MinAngDiff: real := 0.5

  /** The Go reduction: only an argument with |a| >= 2*pi is reduced, by
      floor(a / 2pi) * 2pi. */
  function ReduceAngle(a: real): real
  {
    if a >= TwoPi || a <= -TwoPi then a - (a / TwoPi).Floor as real * TwoPi else a
  }

  /** `similarAngles`: true iff the reduced angles are less than 0.5 apart,
      or more than 2*pi - 0.5 apart. */
  predicate SimilarAngles(a: real, b: real)
  {
    var d := Abs(ReduceAngle(a) - ReduceAngle(b));
    d < MinAngDiff || d > TwoPi - MinAngDiff
  }

  /** An independent reference: the representative of `a` in [0, 2pi). */
  function ModTwoPi(a: real): (m: real)
    ensures 0.0 <= m < TwoPi
  {
    a - (a / TwoPi).Floor as real * TwoPi
  }

  /** The distance between two angles on the circle of circumference 2pi. */
  function CircularDistance(a: real, b: real): (d: real)
    ensures 0.0 <= d <= Pi
  {
    var e := Abs(ModTwoPi(a) - ModTwoPi(b));
    if e <= Pi then e else TwoPi - e
  }

  /** Reduction leaves arguments in (-2pi, 2pi) alone and moves every other
      argument into [0, 2pi) by a whole number of turns. */
  lemma ReduceAngleRange(a: real)
    ensures -TwoPi < a < TwoPi ==> ReduceAngle(a) == a
    ensures !(-TwoPi < a < TwoPi) ==> 0.0 <= ReduceAngle(a) < TwoPi
    ensures var turns := (a - ReduceAngle(a)) / TwoPi; turns == turns.Floor as real
  {
    if a >= TwoPi || a <= -TwoPi {
      var k := (a / TwoPi).Floor;
      assert (a - ReduceAngle(a)) / TwoPi == k as real;
    }
  }

  /** On non-negative angles the reduction is the usual remainder modulo 2pi. */
  lemma ReduceNonNegative(a: real)
    requires a >= 0.0
    ensures ReduceAngle(a) == ModTwoPi(a)
  {
    if a < TwoPi {
      assert 0.0 <= a / TwoPi < 1.0;
      assert (a / TwoPi).Floor == 0;
    }
  }

  /** For non-negative angles the Go rule is exactly "closer than 0.5 on the
      circle of circumference 2pi". */
  lemma SimilarAnglesIsCircular(a: real, b: real)
    requires a >= 0.0 && b >= 0.0
    ensures SimilarAngles(a, b) <==> CircularDistance(a, b) < MinAngDiff
  {
    ReduceNonNegative(a);
    ReduceNonNegative(b);
  }

  /** The rule is symmetric and reflexive. */
  lemma SimilarAnglesSymmetricReflexive(a: real, b: real)
    ensures SimilarAngles(a, b) == SimilarAngles(b, a)
    ensures SimilarAngles(a, a)
  {
  }

  /** A whole turn added to a non-negative angle changes nothing. */
  lemma SimilarAnglesPeriodic(a: real, b: real)
    requires a >= 0.0
    ensures SimilarAngles(a + TwoPi, b) == SimilarAngles(a, b)
  {
    ReduceNonNegative(a);
    ReduceNonNegative(a + TwoPi);
    var k := (a / TwoPi).Floor;
    assert (a + TwoPi) / TwoPi == a / TwoPi + 1.0;
    assert ((a + TwoPi) / TwoPi).Floor == k + 1;
  }

  /** Rows of the Go test table: 0 and 3pi are half a turn apart, so not
      similar; 0 and 4pi, 2pi and 4pi are; 0 and 2pi - 0.49 are through the
      wrap-around; pi/2 and pi are not. */
  lemma SimilarAnglesTable()
    ensures !SimilarAngles(0.0, 3.0 * Pi)
    ensures SimilarAngles(0.0, 4.0 * Pi)
    ensures SimilarAngles(TwoPi, 4.0 * Pi)
    ensures SimilarAngles(0.0, TwoPi - 0.49)
    ensures !SimilarAngles(0.0, TwoPi - 0.5)
    ensures SimilarAngles(0.0, 4.0 * Pi + 0.49)
    ensures !SimilarAngles(0.0, 4.0 * Pi + 0.5)
    ensures !SimilarAngles(Pi / 2.0, Pi)
  {
    assert (3.0 * Pi / TwoPi).Floor == 1;
    assert (4.0 * Pi / TwoPi).Floor == 2;
    assert (TwoPi / TwoPi).Floor == 1;
    assert ((4.0 * Pi + 0.49) / TwoPi).Floor == 2;
    assert ((4.0 * Pi + 0.5) / TwoPi).Floor == 2;
  }

  /** `similar_angle` (low_structures.py): never similar for a non-positive
      threshold; otherwise the raw difference is below the threshold or
      above pi minus the threshold. */
  predicate SimilarAnglePy(a: real, b: real, minAngDiff: real)
  {
    if minAngDiff <= 0.0 then false
    else
      var d := Abs(a - b);
      d < minAngDiff || d > Pi - minAngDiff
  }

  /** The distance between two angles in [0, pi) taken modulo pi. */
  function ModPiDistance(a: real, b: real): (d: real)
    requires 0.0 <= a < Pi && 0.0 <= b < Pi
    ensures 0.0 <= d <= Pi / 2.0
  {
    var e := Abs(a - b);
    if e <= Pi / 2.0 then e else Pi - e
  }

  /** For angles in [0, pi) (the range of OpenCV's Hough transform) the
      Python rule is "closer than the threshold modulo pi". */
  lemma SimilarAnglePyIsModPi(a: real, b: real, m: real)
    requires 0.0 <= a < Pi && 0.0 <= b < Pi
    ensures SimilarAnglePy(a, b, m) <==> m > 0.0 && ModPiDistance(a, b) < m
  {
  }

  /** The two copies disagree: normals 0.1 and pi - 0.1 belong to lines only
      0.2 rad apart in direction. Python calls them similar (modulo pi), Go
      does not (modulo 2pi). */
  lemma SimilarityRulesDiffer()
    ensures SimilarAnglePy(0.1, Pi - 0.1, MinAngDiff)
    ensures !SimilarAngles(0.1, Pi - 0.1)
  {
  }
}
