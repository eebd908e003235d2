/**
 * The spacing score of grid.go: the score accumulator (`meanAcc`),
 * `minInt`, the nearest-position table built by a linear sweep
 * (`preparePointDistances`) and the fit of evenly spaced expected points
 * against that table (`pointSimilarities`).
 *
 * Positions and scores are float64 in the source and `real` here; the
 * source's NaN (0/0) becomes None where it can arise.
 */
module GridScore {
  import opened Wrappers
  import opened Geometry

  // ---------------------------------------------------------------------
  // meanAcc

  /** Sum of the values, added left to right as `Mean` does. */
  function Sum(s: seq<real>): real
  {
    if |s| == 0 then 0.0 else Sum(s[..|s| - 1]) + s[|s| - 1]
  }

  /** The arithmetic mean; the 0/0 of an empty accumulator is None. */
  function MeanOf(s: seq<real>): (m: Option<real>)
    ensures m.Some? <==> |s| > 0
  {
    if |s| == 0 then None else Some(Sum(s) / |s| as real)
  }

  lemma {:induction false} SumBounds(s: seq<real>, lo: real, hi: real)
    requires forall i :: 0 <= i < |s| ==> lo <= s[i] <= hi
    ensures lo * |s| as real <= Sum(s) <= hi * |s| as real
  {
    if |s| > 0 {
      SumBounds(s[..|s| - 1], lo, hi);
      assert lo * |s| as real == lo * (|s| - 1) as real + lo;
      assert hi * |s| as real == hi * (|s| - 1) as real + hi;
    }
  }

  /** The mean lies between any bounds of the values; in particular the
      mean of equal values is that value. */
  lemma MeanBetween(s: seq<real>, lo: real, hi: real)
    requires |s| > 0
    requires forall i :: 0 <= i < |s| ==> lo <= s[i] <= hi
    ensures lo <= MeanOf(s).value <= hi
  {
    SumBounds(s, lo, hi);
    var n := |s| as real;
    assert lo * n / n == lo && hi * n / n == hi;
  }

  /** `meanAcc`: the scores added so far. */
  class MeanAcc {
    var values: seq<real>

    constructor()
      ensures values == []
    {
      values := [];
    }

    method Add(value: real)
      modifies this
      ensures values == old(values) + [value]
    {
      values := values + [value];
    }

    /** The sum of the values divided by their count. */
    method Mean() returns (m: Option<real>)
      ensures m == MeanOf(values)
    {
      var res := 0.0;
      var count := |values|;
      var i := 0;
      while i < |values|
        invariant 0 <= i <= |values|
        invariant res == Sum(values[..i])
      {
        assert values[..i + 1][..i] == values[..i];
        res := res + values[i];
        i := i + 1;
      }
      assert values[..i] == values;
      if count == 0 {
        m := None;
      } else {
        m := Some(res / count as real);
      }
    }
  }

  /** `minInt`. */
  function MinInt(a: int, b: int): (r: int)
    ensures r <= a && r <= b
    ensures r == a || r == b
  {
    if a < b then a else b
  }

  // ---------------------------------------------------------------------
  // preparePointDistances

  /** Number of cells of the table: `int(last) + 1`. */
  function TableLength(positions: seq<real>): int
    requires |positions| > 0
  {
    GoInt(positions[|positions| - 1]) + 1
  }

  /**
   * The sweep from cell c on, with the cursor at posI: each cell takes the
   * nearer of the current position and the next one (the current one on a
   * tie, or when there is no next one, whose distance counts as the table
   * length); when the next one wins the cursor moves to it.
   */
  function SweepFrom(positions: seq<real>, ld: int, c: int, posI: nat, acc: seq<real>): (r: seq<real>)
    requires |positions| > 0 && ld == TableLength(positions)
    requires 0 <= c <= ld && posI < |positions|
    ensures |r| == |acc| + ld - c
    decreases ld - c
  {
    if c == ld then acc
    else
      var d1 := Abs(positions[posI] - c as real);
      var d2 := if posI + 1 < |positions| then Abs(positions[posI + 1] - c as real) else ld as real;
      if d1 <= d2 then
        SweepFrom(positions, ld, c + 1, posI, acc + [positions[posI]])
      else
        SweepFrom(positions, ld, c + 1, posI + 1, acc + [positions[posI + 1]])
  }

  /** The table `preparePointDistances` returns. */
  function PointTable(positions: seq<real>): (r: seq<real>)
    requires |positions| > 0 && TableLength(positions) >= 0
    ensures |r| == TableLength(positions)
  {
    SweepFrom(positions, TableLength(positions), 0, 0, [])
  }

  /** `preparePointDistances`: the table is filled cell by cell while the
      cursor only moves forward. The source panics on an empty list and
      on a last position of -2 or below (negative `make` length). */
  method PreparePointDistances(positions: seq<real>) returns (table: seq<real>)
    requires |positions| > 0 && TableLength(positions) >= 0
    ensures table == PointTable(positions)
  {
    var maxPos := positions[|positions| - 1];
    var ld := GoInt(maxPos) + 1;
    var closest := new real[ld];
    var posI := 0;
    var c := 0;
    while c < ld
      invariant 0 <= c <= ld && 0 <= posI < |positions|
      invariant SweepFrom(positions, ld, c, posI, closest[..c]) == PointTable(positions)
    {
      var d1 := Abs(positions[posI] - c as real);
      var d2 := ld as real;
      if posI + 1 < |positions| {
        d2 := Abs(positions[posI + 1] - c as real);
      }
      if d1 <= d2 {
        closest[c] := positions[posI];
      } else {
        closest[c] := positions[posI + 1];
        posI := posI + 1;
      }
      assert closest[..c + 1] == closest[..c] + [closest[c]];
      c := c + 1;
    }
    table := closest[..];
  }

  lemma {:induction false} SweepMembers(positions: seq<real>, ld: int, c: int, posI: nat, acc: seq<real>)
    requires |positions| > 0 && ld == TableLength(positions)
    requires 0 <= c <= ld && posI < |positions|
    requires forall x :: x in acc ==> x in positions
    ensures forall x :: x in SweepFrom(positions, ld, c, posI, acc) ==> x in positions
    decreases ld - c
  {
    if c < ld {
      var d1 := Abs(positions[posI] - c as real);
      var d2 := if posI + 1 < |positions| then Abs(positions[posI + 1] - c as real) else ld as real;
      if d1 <= d2 {
        assert SweepFrom(positions, ld, c, posI, acc) == SweepFrom(positions, ld, c + 1, posI, acc + [positions[posI]]);
        SweepMembers(positions, ld, c + 1, posI, acc + [positions[posI]]);
      } else {
        assert SweepFrom(positions, ld, c, posI, acc) == SweepFrom(positions, ld, c + 1, posI + 1, acc + [positions[posI + 1]]);
        SweepMembers(positions, ld, c + 1, posI + 1, acc + [positions[posI + 1]]);
      }
    }
  }

  /** Every cell of the table holds one of the positions. */
  lemma PointTableMembers(positions: seq<real>)
    requires |positions| > 0 && TableLength(positions) >= 0
    ensures forall x :: x in PointTable(positions) ==> x in positions
  {
    var r := PointTable(positions);
    SweepMembers(positions, TableLength(positions), 0, 0, []);
    assert r == SweepFrom(positions, TableLength(positions), 0, 0, []);
  }

  predicate NonDecreasing(s: seq<real>)
  {
    forall i, j :: 0 <= i < j < |s| ==> s[i] <= s[j]
  }

  lemma {:induction false} SweepNonDecreasing(positions: seq<real>, ld: int, c: int, posI: nat, acc: seq<real>)
    requires |positions| > 0 && ld == TableLength(positions)
    requires 0 <= c <= ld && posI < |positions|
    requires NonDecreasing(positions) && NonDecreasing(acc)
    requires |acc| > 0 ==> acc[|acc| - 1] <= positions[posI]
    ensures NonDecreasing(SweepFrom(positions, ld, c, posI, acc))
    decreases ld - c
  {
    if c < ld {
      var d1 := Abs(positions[posI] - c as real);
      var d2 := if posI + 1 < |positions| then Abs(positions[posI + 1] - c as real) else ld as real;
      if d1 <= d2 {
        SweepNonDecreasing(positions, ld, c + 1, posI, acc + [positions[posI]]);
      } else {
        assert positions[posI] <= positions[posI + 1];
        SweepNonDecreasing(positions, ld, c + 1, posI + 1, acc + [positions[posI + 1]]);
      }
    }
  }

  /** For sorted positions the table never decreases: the cursor only
      moves forward. */
  lemma PointTableNonDecreasing(positions: seq<real>)
    requires |positions| > 0 && TableLength(positions) >= 0
    requires NonDecreasing(positions)
    ensures NonDecreasing(PointTable(positions))
  {
    SweepNonDecreasing(positions, TableLength(positions), 0, 0, []);
  }

  /** A table of grid_test.go: cell 3 is nearer 5.5 than 0. */
  lemma PointTableExample()
    ensures PointTable([0.0, 5.5]) == [0.0, 0.0, 0.0, 5.5, 5.5, 5.5]
  {
    var p := [0.0, 5.5];
    assert TableLength(p) == 6;
    assert SweepFrom(p, 6, 0, 0, []) == SweepFrom(p, 6, 1, 0, [0.0]);
    assert SweepFrom(p, 6, 1, 0, [0.0]) == SweepFrom(p, 6, 2, 0, [0.0, 0.0]);
    assert SweepFrom(p, 6, 2, 0, [0.0, 0.0]) == SweepFrom(p, 6, 3, 1, [0.0, 0.0, 0.0]);
    assert SweepFrom(p, 6, 3, 1, [0.0, 0.0, 0.0]) == SweepFrom(p, 6, 4, 1, [0.0, 0.0, 0.0, 5.5]);
    assert SweepFrom(p, 6, 4, 1, [0.0, 0.0, 0.0, 5.5]) == SweepFrom(p, 6, 5, 1, [0.0, 0.0, 0.0, 5.5, 5.5]);
    assert SweepFrom(p, 6, 5, 1, [0.0, 0.0, 0.0, 5.5, 5.5]) == SweepFrom(p, 6, 6, 1, [0.0, 0.0, 0.0, 5.5, 5.5, 5.5]);
  }

  lemma TieExampleCells0To4()
    ensures SweepFrom([2.0, 5.0, 6.0, 10.0], 11, 0, 0, []) == SweepFrom([2.0, 5.0, 6.0, 10.0], 11, 4, 1, [2.0, 2.0, 2.0, 2.0])
  {
    var p := [2.0, 5.0, 6.0, 10.0];
    assert TableLength(p) == 11;
    var none: seq<real> := [];
    assert none + [p[0]] == [2.0];
    assert SweepFrom(p, 11, 0, 0, none) == SweepFrom(p, 11, 1, 0, [2.0]);
    assert SweepFrom(p, 11, 1, 0, [2.0]) == SweepFrom(p, 11, 2, 0, [2.0, 2.0]);
    assert SweepFrom(p, 11, 2, 0, [2.0, 2.0]) == SweepFrom(p, 11, 3, 0, [2.0, 2.0, 2.0]);
  }

  lemma TieExampleCells4To8()
    ensures SweepFrom([2.0, 5.0, 6.0, 10.0], 11, 4, 1, [2.0, 2.0, 2.0, 2.0]) == SweepFrom([2.0, 5.0, 6.0, 10.0], 11, 8, 2, [2.0, 2.0, 2.0, 2.0, 5.0, 5.0, 6.0, 6.0])
  {
    var p := [2.0, 5.0, 6.0, 10.0];
    assert TableLength(p) == 11;
    assert SweepFrom(p, 11, 4, 1, [2.0, 2.0, 2.0, 2.0]) == SweepFrom(p, 11, 5, 1, [2.0, 2.0, 2.0, 2.0, 5.0]);
    assert SweepFrom(p, 11, 5, 1, [2.0, 2.0, 2.0, 2.0, 5.0]) == SweepFrom(p, 11, 6, 2, [2.0, 2.0, 2.0, 2.0, 5.0, 5.0]);
    assert SweepFrom(p, 11, 6, 2, [2.0, 2.0, 2.0, 2.0, 5.0, 5.0]) == SweepFrom(p, 11, 7, 2, [2.0, 2.0, 2.0, 2.0, 5.0, 5.0, 6.0]);
  }

  lemma TieExampleCells8To11()
    ensures SweepFrom([2.0, 5.0, 6.0, 10.0], 11, 8, 2, [2.0, 2.0, 2.0, 2.0, 5.0, 5.0, 6.0, 6.0]) == SweepFrom([2.0, 5.0, 6.0, 10.0], 11, 11, 3, [2.0, 2.0, 2.0, 2.0, 5.0, 5.0, 6.0, 6.0, 6.0, 10.0, 10.0])
  {
    var p := [2.0, 5.0, 6.0, 10.0];
    assert TableLength(p) == 11;
    assert SweepFrom(p, 11, 8, 2, [2.0, 2.0, 2.0, 2.0, 5.0, 5.0, 6.0, 6.0]) == SweepFrom(p, 11, 9, 3, [2.0, 2.0, 2.0, 2.0, 5.0, 5.0, 6.0, 6.0, 6.0]);
    assert SweepFrom(p, 11, 9, 3, [2.0, 2.0, 2.0, 2.0, 5.0, 5.0, 6.0, 6.0, 6.0]) == SweepFrom(p, 11, 10, 3, [2.0, 2.0, 2.0, 2.0, 5.0, 5.0, 6.0, 6.0, 6.0, 10.0]);
  }

  /** A table of grid_test.go with a tie: cell 8 is 2 away from both 6
      and 10 and keeps the earlier 6. */
  lemma PointTableTieExample()
    ensures PointTable([2.0, 5.0, 6.0, 10.0]) == [2.0, 2.0, 2.0, 2.0, 5.0, 5.0, 6.0, 6.0, 6.0, 10.0, 10.0]
  {
    assert TableLength([2.0, 5.0, 6.0, 10.0]) == 11;
    TieExampleCells0To4();
    TieExampleCells4To8();
    TieExampleCells8To11();
  }

  // ---------------------------------------------------------------------
  // pointSimilarities

  /** Every expected point indexes the table after truncation. */
  predicate InTable(expected: seq<real>, table: seq<real>)
  {
    forall k :: 0 <= k < |expected| ==> 0 <= GoInt(expected[k]) < |table|
  }

  /** How far the gap between a point and the previous match is from the
      step, relative to the step. */
  function Deviation(point: real, prev: real, step: real): real
    requires step != 0.0
  {
    Abs(Abs(point - prev) - step) / step
  }

  /**
   * The loop of `pointSimilarities` from expected point k on: each point
   * looks up its table cell; after the first, a deviation of 0.2 or more
   * ends the loop, a smaller one is added (divided by 9) to the fit.
   */
  function FitFrom(expected: seq<real>, table: seq<real>, step: real, k: nat, matches: seq<real>, fit: real): (r: (real, seq<real>))
    requires InTable(expected, table) && step != 0.0 && k <= |expected|
    decreases |expected| - k
  {
    if k == |expected| then (1.0 - fit, matches)
    else
      var point := table[GoInt(expected[k])];
      if |matches| > 0 && Deviation(point, matches[|matches| - 1], step) >= 0.2 then
        (1.0 - fit, matches)
      else
        var fit' := if |matches| > 0 then fit + Deviation(point, matches[|matches| - 1], step) / 9.0 else fit;
        FitFrom(expected, table, step, k + 1, matches + [point], fit')
  }

  /** The step is the gap between the first two expected points. */
  function Step(expected: seq<real>): real
    requires |expected| >= 2
  {
    expected[1] - expected[0]
  }

  /** `pointSimilarities` as a value: (score, matched table values). */
  function Similarities(expected: seq<real>, table: seq<real>): (real, seq<real>)
    requires |expected| >= 2 && InTable(expected, table) && Step(expected) != 0.0
  {
    FitFrom(expected, table, Step(expected), 0, [], 0.0)
  }

  method PointSimilarities(expected: seq<real>, table: seq<real>) returns (score: real, matches: seq<real>)
    requires |expected| >= 2 && InTable(expected, table) && Step(expected) != 0.0
    ensures (score, matches) == Similarities(expected, table)
  {
    var fit := 0.0;
    matches := [];
    var step := expected[1] - expected[0];
    var k := 0;
    while k < |expected|
      invariant 0 <= k <= |expected|
      invariant FitFrom(expected, table, step, k, matches, fit) == Similarities(expected, table)
    {
      var point := table[GoInt(expected[k])];
      if |matches| > 0 {
        var f := Abs(Abs(point - matches[|matches| - 1]) - step) / step;
        if f >= 0.2 {
          break;
        }
        fit := fit + f / 9.0;
      }
      matches := matches + [point];
      k := k + 1;
    }
    score := 1.0 - fit;
  }

  /** Sum of the deviations between consecutive matches. */
  function DevSum(m: seq<real>, step: real): real
    requires step != 0.0
  {
    if |m| < 2 then 0.0
    else DevSum(m[..|m| - 1], step) + Deviation(m[|m| - 1], m[|m| - 2], step)
  }

  /** Consecutive matches deviate by less than 0.2 steps, stated match by
      match as the loop appends them. */
  predicate Steady(m: seq<real>, step: real)
    requires step != 0.0
  {
    |m| < 2 || (Steady(m[..|m| - 1], step) && Deviation(m[|m| - 1], m[|m| - 2], step) < 0.2)
  }

  lemma {:induction false} SteadyMeans(m: seq<real>, step: real)
    requires step != 0.0 && Steady(m, step)
    ensures forall i :: 0 < i < |m| ==> Deviation(m[i], m[i - 1], step) < 0.2
  {
    if |m| >= 2 {
      SteadyMeans(m[..|m| - 1], step);
    }
  }

  /** The matches of the loop: table values of a prefix of the expected
      points, steady, stopping only at the end or at a deviating point. */
  lemma {:induction false} FitFromMatches(expected: seq<real>, table: seq<real>, step: real, k: nat, matches: seq<real>, fit: real)
    requires InTable(expected, table) && step != 0.0 && k <= |expected|
    requires |matches| == k && Steady(matches, step)
    requires forall i :: 0 <= i < k ==> matches[i] == table[GoInt(expected[i])]
    ensures var m := FitFrom(expected, table, step, k, matches, fit).1;
      k <= |m| <= |expected| &&
      (forall i :: 0 <= i < |m| ==> m[i] == table[GoInt(expected[i])]) &&
      Steady(m, step) &&
      (|m| < |expected| ==> |m| > 0 && Deviation(table[GoInt(expected[|m|])], m[|m| - 1], step) >= 0.2)
    decreases |expected| - k
  {
    if k < |expected| {
      var point := table[GoInt(expected[k])];
      if |matches| > 0 && Deviation(point, matches[|matches| - 1], step) >= 0.2 {
        assert FitFrom(expected, table, step, k, matches, fit).1 == matches;
      } else {
        var m' := matches + [point];
        assert m'[..|m'| - 1] == matches;
        assert Steady(m', step);
        var fit' := if |matches| > 0 then fit + Deviation(point, matches[|matches| - 1], step) / 9.0 else fit;
        assert FitFrom(expected, table, step, k, matches, fit) == FitFrom(expected, table, step, k + 1, m', fit');
        FitFromMatches(expected, table, step, k + 1, m', fit');
      }
    }
  }

  /** The score of the loop: one minus the deviations of the matches summed
      and divided by 9. */
  lemma {:induction false} FitFromScore(expected: seq<real>, table: seq<real>, step: real, k: nat, matches: seq<real>, fit: real)
    requires InTable(expected, table) && step != 0.0 && k <= |expected|
    requires fit == DevSum(matches, step) / 9.0
    ensures var r := FitFrom(expected, table, step, k, matches, fit);
      r.0 == 1.0 - DevSum(r.1, step) / 9.0
    decreases |expected| - k
  {
    if k < |expected| {
      var point := table[GoInt(expected[k])];
      if |matches| > 0 && Deviation(point, matches[|matches| - 1], step) >= 0.2 {
      } else {
        var m' := matches + [point];
        assert m'[..|m'| - 1] == matches;
        var fit' := if |matches| > 0 then fit + Deviation(point, matches[|matches| - 1], step) / 9.0 else fit;
        FitFromScore(expected, table, step, k + 1, m', fit');
      }
    }
  }

  /**
   * What `pointSimilarities` returns: the table values of a prefix of the
   * expected points (at least the first), consecutive ones deviating by
   * less than 0.2 steps; the loop stops only at the end or at a point that
   * deviates by 0.2 or more; the score is one minus the deviations summed
   * and divided by 9.
   */
  lemma SimilaritiesMeaning(expected: seq<real>, table: seq<real>)
    requires |expected| >= 2 && InTable(expected, table) && Step(expected) != 0.0
    ensures var (score, m) := Similarities(expected, table);
      1 <= |m| <= |expected| &&
      (forall i :: 0 <= i < |m| ==> m[i] == table[GoInt(expected[i])]) &&
      (forall i :: 0 < i < |m| ==> Deviation(m[i], m[i - 1], Step(expected)) < 0.2) &&
      (|m| < |expected| ==> Deviation(table[GoInt(expected[|m|])], m[|m| - 1], Step(expected)) >= 0.2) &&
      score == 1.0 - DevSum(m, Step(expected)) / 9.0
  {
    var step := Step(expected);
    var first := table[GoInt(expected[0])];
    assert [] + [first] == [first];
    assert FitFrom(expected, table, step, 0, [], 0.0) == FitFrom(expected, table, step, 1, [first], 0.0);
    FitFromMatches(expected, table, step, 1, [first], 0.0);
    FitFromScore(expected, table, step, 1, [first], 0.0);
    SteadyMeans(Similarities(expected, table).1, step);
  }

  lemma {:induction false} DevSumBounds(m: seq<real>, step: real)
    requires step > 0.0 && Steady(m, step)
    ensures 0.0 <= DevSum(m, step)
    ensures |m| >= 2 ==> DevSum(m, step) < 0.2 * (|m| - 1) as real
  {
    if |m| >= 2 {
      DevSumBounds(m[..|m| - 1], step);
      var num := Abs(Abs(m[|m| - 1] - m[|m| - 2]) - step);
      assert Deviation(m[|m| - 1], m[|m| - 2], step) >= 0.0 by {
        assert num >= 0.0;
      }
    }
  }

  /** With a positive step the score lies in (1 - 0.2(m-1)/9, 1] for m
      matches, so ten matches score above 0.8. */
  lemma ScoreBounds(expected: seq<real>, table: seq<real>)
    requires |expected| >= 2 && InTable(expected, table) && Step(expected) > 0.0
    ensures var (score, m) := Similarities(expected, table);
      score <= 1.0 &&
      (|m| >= 2 ==> score > 1.0 - 0.2 * (|m| - 1) as real / 9.0) &&
      (|m| == 10 ==> score > 0.8)
  {
    var step := Step(expected);
    var first := table[GoInt(expected[0])];
    assert [] + [first] == [first];
    assert FitFrom(expected, table, step, 0, [], 0.0) == FitFrom(expected, table, step, 1, [first], 0.0);
    FitFromMatches(expected, table, step, 1, [first], 0.0);
    FitFromScore(expected, table, step, 1, [first], 0.0);
    DevSumBounds(Similarities(expected, table).1, step);
  }

  /** With a negative step no deviation reaches 0.2: every expected point is
      matched and the score is at least 1. */
  lemma NegativeStepMatchesAll(expected: seq<real>, table: seq<real>)
    requires |expected| >= 2 && InTable(expected, table) && Step(expected) < 0.0
    ensures var (score, m) := Similarities(expected, table);
      |m| == |expected| && score >= 1.0
  {
    SimilaritiesMeaning(expected, table);
    var m := Similarities(expected, table).1;
    var step := Step(expected);
    NonPositiveDevSum(m, step);
  }

  lemma {:induction false} NonPositiveDevSum(m: seq<real>, step: real)
    requires step < 0.0
    ensures DevSum(m, step) <= 0.0
  {
    if |m| >= 2 {
      NonPositiveDevSum(m[..|m| - 1], step);
      var num := Abs(Abs(m[|m| - 1] - m[|m| - 2]) - step);
      assert num >= 0.0;
    }
  }
}
