/**
 * `linearDistances` of grid.go: the search for ten lines of one family
 * that cut a divider line of the other family at evenly spaced points.
 *
 * The lines' positions along the divider are the distances from the first
 * line's crossing to each line's crossing. Each pair of positions (start i,
 * end j, at least nine lines apart) proposes ten evenly spaced expected
 * points; `pointSimilarities` looks them up in the nearest-position table,
 * and a pair whose ten points all match yields a candidate of ten lines.
 *
 * The distance between two pixels (`math.Hypot`) is a parameter.
 */
module GridMatch {
  import opened Wrappers
  import opened Geometry
  import opened GridScore

  /** `scoredLines`: a candidate set of lines and its score. */
  datatype ScoredLines = ScoredLines(lines: seq<Line>, score: real)

  /** Distance between two pixels. */
  type Distance = (Point, Point) -> real

  /** `distanceBetweenPoints` never returns a negative value. */
  ghost predicate NonNegative(dist: Distance)
  {
    forall p, q :: dist(p, q) >= 0.0
  }

  /** Each line's position along the divider: its distance from the first
      line's crossing. */
  function Positions(lines: seq<Line>, divider: Line, solve: Solver, dist: Distance): (points: seq<real>)
    requires |lines| > 0
    ensures |points| == |lines|
  {
    var origin := Intersection(solve, lines[0], divider).1;
    seq(|lines|, i requires 0 <= i < |lines| => dist(origin, Intersection(solve, lines[i], divider).1))
  }

  /** The ten evenly spaced points from start to end. */
  function Expected(start: real, end: real): (e: seq<real>)
    ensures |e| == 10 && e[0] == start
    ensures forall k :: 0 <= k < 10 ==> e[k] == start + (end - start) / 9.0 * k as real
  {
    seq(10, k requires 0 <= k < 10 => start + (end - start) / 9.0 * k as real)
  }

  /** The candidate list after one pair. */
  function Append(acc: seq<ScoredLines>, candidate: Option<ScoredLines>): seq<ScoredLines>
  {
    match candidate
    case Some(m) => acc + [m]
    case None => acc
  }

  /** `sort.Float64Slice.Search`: the first index whose value is at least x
      (the length when there is none). */
  function Search(points: seq<real>, x: real): (i: nat)
    ensures i <= |points|
    ensures forall k :: 0 <= k < i ==> points[k] < x
    ensures i < |points| ==> points[i] >= x
  {
    if |points| == 0 || points[0] >= x then 0 else 1 + Search(points[1..], x)
  }

  /** On sorted positions, searching for one of them finds its first
      occurrence. */
  lemma SearchFindsFirst(points: seq<real>, x: real)
    requires NonDecreasing(points) && x in points
    ensures Search(points, x) < |points| && points[Search(points, x)] == x
  {
    var k :| 0 <= k < |points| && points[k] == x;
  }

  /** The line of each matched value: the line at its first position. */
  function LinesOf(lines: seq<Line>, points: seq<real>, selected: seq<real>): (r: seq<Line>)
    requires |lines| == |points|
    requires forall l :: 0 <= l < |selected| ==> Search(points, selected[l]) < |points|
    ensures |r| == |selected|
    ensures forall l :: 0 <= l < |selected| ==> r[l] == lines[Search(points, selected[l])]
  {
    seq(|selected|, l requires 0 <= l < |selected| => lines[Search(points, selected[l])])
  }

  /** The candidate of the pair (i, j): None when the points do not all
      match, or when start and end coincide (a zero step, NaN in the
      source). */
  function Candidate(lines: seq<Line>, points: seq<real>, table: seq<real>, i: nat, j: nat): Option<ScoredLines>
    requires |lines| == |points| && i < j < |points|
    requires NonDecreasing(points) && points[0] >= 0.0 && table == PointTable(points)
  {
    var e := Expected(points[i], points[j]);
    if points[j] == points[i] then None
    else
      ExpectedInTable(points, i, j);
      var (score, selected) := Similarities(e, table);
      if |selected| != 10 then None
      else
        SelectedAreLines(points, i, j);
        Some(ScoredLines(LinesOf(lines, points, selected), score))
  }

  lemma MulMonotone(step: real, k: real)
    requires step >= 0.0 && 0.0 <= k <= 9.0
    ensures 0.0 <= step * k <= step * 9.0
  {
  }

  /** The truncation of a value in [0, last] is a cell of the table. */
  lemma TruncInTable(v: real, last: real)
    requires 0.0 <= v <= last
    ensures 0 <= GoInt(v) <= GoInt(last)
  {
  }

  /** For sorted non-negative positions, every expected point between two
      of them lies in the table. */
  lemma ExpectedInTable(points: seq<real>, i: nat, j: nat)
    requires i < j < |points| && NonDecreasing(points) && points[0] >= 0.0
    ensures TableLength(points) >= 0
    ensures InTable(Expected(points[i], points[j]), PointTable(points))
    ensures points[j] != points[i] ==> Step(Expected(points[i], points[j])) > 0.0
  {
    var e := Expected(points[i], points[j]);
    var last := points[|points| - 1];
    var step := (points[j] - points[i]) / 9.0;
    assert 0.0 <= points[i] <= points[j] <= last;
    assert step * 9.0 == points[j] - points[i];
    forall k | 0 <= k < 10
      ensures 0 <= GoInt(e[k]) < |PointTable(points)|
    {
      assert e[k] == points[i] + step * k as real;
      MulMonotone(step, k as real);
      assert points[i] <= e[k];
      assert step * k as real <= step * 9.0;
      assert e[k] <= points[j];
      TruncInTable(e[k], last);
    }
  }

  /** The matched values are positions of lines. */
  lemma SelectedAreLines(points: seq<real>, i: nat, j: nat)
    requires i < j < |points| && NonDecreasing(points) && points[0] >= 0.0
    requires TableLength(points) >= 0
    requires InTable(Expected(points[i], points[j]), PointTable(points))
    requires points[j] != points[i]
    ensures forall l :: 0 <= l < |Similarities(Expected(points[i], points[j]), PointTable(points)).1| ==>
      Search(points, Similarities(Expected(points[i], points[j]), PointTable(points)).1[l]) < |points|
  {
    var e := Expected(points[i], points[j]);
    var table := PointTable(points);
    SimilaritiesMeaning(e, table);
    PointTableMembers(points);
    var sel := Similarities(e, table).1;
    forall l | 0 <= l < |sel|
      ensures Search(points, sel[l]) < |points|
    {
      assert sel[l] == table[GoInt(e[l])];
      assert sel[l] in table;
      SearchFindsFirst(points, sel[l]);
    }
  }

  /** The candidate of every pair, as one function. */
  function CandidateOf(lines: seq<Line>, points: seq<real>, table: seq<real>): (nat, nat) -> Option<ScoredLines>
    requires |lines| == |points| > 0
    requires NonDecreasing(points) && points[0] >= 0.0 && table == PointTable(points)
  {
    (i: nat, j: nat) => if i < j < |points| then Candidate(lines, points, table, i, j) else None
  }

  /** The scan over start i and end j (j >= i + 9) of n positions, both in
      input order, appending each pair's candidate. */
  function ScanFrom(n: nat, cand: (nat, nat) -> Option<ScoredLines>, i: nat, j: nat, acc: seq<ScoredLines>): seq<ScoredLines>
    requires n >= 10 && i <= n - 9 && i + 9 <= j <= n
    decreases n - i, n - j
  {
    if i == n - 9 then acc
    else if j == n then
      if i + 1 == n - 9 then acc else ScanFrom(n, cand, i + 1, i + 10, acc)
    else
      ScanFrom(n, cand, i, j + 1, Append(acc, cand(i, j)))
  }

  lemma ScanStep(n: nat, cand: (nat, nat) -> Option<ScoredLines>, i: nat, j: nat, acc: seq<ScoredLines>)
    requires n >= 10 && i < n - 9 && i + 9 <= j < n
    ensures ScanFrom(n, cand, i, j, acc) == ScanFrom(n, cand, i, j + 1, Append(acc, cand(i, j)))
  {
  }

  lemma ScanRow(n: nat, cand: (nat, nat) -> Option<ScoredLines>, i: nat, acc: seq<ScoredLines>)
    requires n >= 10 && i < n - 9
    ensures i + 1 < n - 9 ==> ScanFrom(n, cand, i, n, acc) == ScanFrom(n, cand, i + 1, i + 10, acc)
    ensures i + 1 == n - 9 ==> ScanFrom(n, cand, i, n, acc) == acc
  {
  }

  /** What `linearDistances` returns. */
  function LinearMatches(lines: seq<Line>, divider: Line, solve: Solver, dist: Distance): seq<ScoredLines>
    requires NonNegative(dist)
    requires |lines| >= 10 ==> NonDecreasing(Positions(lines, divider, solve, dist))
  {
    if |lines| < 10 then []
    else
      var points := Positions(lines, divider, solve, dist);
      assert points[0] >= 0.0;
      ExpectedInTable(points, 0, |points| - 1);
      ScanFrom(|points|, CandidateOf(lines, points, PointTable(points)), 0, 9, [])
  }

  /**
   * `linearDistances`. Fewer than ten lines give no candidates. The source
   * relies on the lines being sorted so that their positions along the
   * divider are too; otherwise an expected point can fall outside the
   * table and the source panics.
   */
  method LinearDistances(lines: seq<Line>, divider: Line, solve: Solver, dist: Distance)
    returns (matches: seq<ScoredLines>)
    requires NonNegative(dist)
    requires |lines| >= 10 ==> NonDecreasing(Positions(lines, divider, solve, dist))
    ensures matches == LinearMatches(lines, divider, solve, dist)
  {
    matches := [];
    var linesCount := |lines|;
    if linesCount < 10 {
      return;
    }
    var intersections := new Point[linesCount];
    var n := 0;
    while n < linesCount
      invariant 0 <= n <= linesCount
      invariant forall k :: 0 <= k < n ==> intersections[k] == Intersection(solve, lines[k], divider).1
    {
      var (_, point) := Intersection(solve, lines[n], divider);
      intersections[n] := point;
      n := n + 1;
    }
    var crossings := intersections[..];
    var points := new real[linesCount];
    n := 0;
    while n < linesCount
      invariant 0 <= n <= linesCount
      invariant forall k :: 0 <= k < n ==> points[k] == dist(crossings[0], crossings[k])
    {
      points[n] := dist(crossings[0], crossings[n]);
      n := n + 1;
    }
    ghost var ps := Positions(lines, divider, solve, dist);
    assert forall k :: 0 <= k < linesCount ==> points[k] == ps[k];
    assert points[..] == ps;
    ExpectedInTable(ps, 0, linesCount - 1);
    var distances := PreparePointDistances(points[..]);
    matches := ScanPairs(lines, points[..], distances);
  }

  /** The two loops over start and end. */
  method ScanPairs(lines: seq<Line>, points: seq<real>, distances: seq<real>) returns (matches: seq<ScoredLines>)
    requires |lines| == |points| >= 10
    requires NonDecreasing(points) && points[0] >= 0.0 && distances == PointTable(points)
    ensures matches == ScanFrom(|points|, CandidateOf(lines, points, distances), 0, 9, [])
  {
    matches := [];
    var linesCount := |points|;
    ghost var cand := CandidateOf(lines, points, distances);
    var expectedPoints := new real[10];
    var i := 0;
    while i < linesCount - 10 + 1
      invariant 0 <= i <= linesCount - 9
      invariant i < linesCount - 9 ==> ScanFrom(linesCount, cand, i, i + 9, matches) == ScanFrom(linesCount, cand, 0, 9, [])
      invariant i == linesCount - 9 ==> matches == ScanFrom(linesCount, cand, 0, 9, [])
    {
      matches := ScanEnds(lines, points, distances, i, matches, expectedPoints);
      ScanRow(linesCount, cand, i, matches);
      i := i + 1;
    }
  }

  /** The inner loop: every end j from i + 9 on, for one start i. */
  method ScanEnds(lines: seq<Line>, points: seq<real>, distances: seq<real>, i: nat, acc: seq<ScoredLines>, expectedPoints: array<real>)
    returns (matches: seq<ScoredLines>)
    requires |lines| == |points| >= 10 && i < |points| - 9
    requires NonDecreasing(points) && points[0] >= 0.0 && distances == PointTable(points)
    requires expectedPoints.Length == 10
    modifies expectedPoints
    ensures ScanFrom(|points|, CandidateOf(lines, points, distances), i, |points|, matches) ==
      ScanFrom(|points|, CandidateOf(lines, points, distances), i, i + 9, acc)
  {
    ghost var cand := CandidateOf(lines, points, distances);
    var linesCount := |points|;
    matches := acc;
    var j := i + 10 - 1;
    while j < linesCount
      invariant i + 9 <= j <= linesCount
      invariant ScanFrom(linesCount, cand, i, j, matches) == ScanFrom(linesCount, cand, i, i + 9, acc)
    {
      var candidate := TryPair(lines, points, distances, i, j, expectedPoints);
      assert cand(i, j) == candidate;
      ScanStep(linesCount, cand, i, j, matches);
      matches := Append(matches, candidate);
      j := j + 1;
    }
  }

  /** One pass of the inner loop: fill the buffer of expected points, score
      them, and on ten matches look up the line of each matched value. */
  method TryPair(lines: seq<Line>, points: seq<real>, distances: seq<real>, i: nat, j: nat, expectedPoints: array<real>)
    returns (candidate: Option<ScoredLines>)
    requires |lines| == |points| && i < j < |points|
    requires NonDecreasing(points) && points[0] >= 0.0 && distances == PointTable(points)
    requires expectedPoints.Length == 10
    modifies expectedPoints
    ensures candidate == Candidate(lines, points, distances, i, j)
  {
    var start, end := points[i], points[j];
    var step := (end - start) / 9.0;
    FillExpected(start, end, expectedPoints);
    if step == 0.0 {
      return None;
    }
    ExpectedInTable(points, i, j);
    var score, selectedPoints := PointSimilarities(expectedPoints[..], distances);
    if |selectedPoints| != 10 {
      return None;
    }
    SelectedAreLines(points, i, j);
    var matchLines := LookUpLines(lines, points, selectedPoints);
    candidate := Some(ScoredLines(matchLines, score));
  }

  /** The loop filling the buffer with the ten evenly spaced points. */
  method FillExpected(start: real, end: real, expectedPoints: array<real>)
    requires expectedPoints.Length == 10
    modifies expectedPoints
    ensures expectedPoints[..] == Expected(start, end)
  {
    var step := (end - start) / 9.0;
    var k := 0;
    while k < 10
      invariant 0 <= k <= 10
      invariant forall m :: 0 <= m < k ==> expectedPoints[m] == Expected(start, end)[m]
    {
      expectedPoints[k] := start + step * k as real;
      k := k + 1;
    }
  }

  /** The loop looking up the line of each matched value. */
  method LookUpLines(lines: seq<Line>, points: seq<real>, selected: seq<real>) returns (r: seq<Line>)
    requires |lines| == |points| && |selected| == 10
    requires forall l :: 0 <= l < |selected| ==> Search(points, selected[l]) < |points|
    ensures r == LinesOf(lines, points, selected)
  {
    var matchLines := new Line[10];
    var l := 0;
    while l < 10
      invariant 0 <= l <= 10
      invariant forall m :: 0 <= m < l ==> matchLines[m] == LinesOf(lines, points, selected)[m]
    {
      matchLines[l] := lines[Search(points, selected[l])];
      l := l + 1;
    }
    r := matchLines[..];
  }

  /** Every candidate has exactly ten lines, scores in (0.8, 1], and each of
      its lines is the first input line at the position it matched. */
  predicate Good(m: ScoredLines, lines: seq<Line>, points: seq<real>)
    requires |lines| == |points|
  {
    |m.lines| == 10 && 0.8 < m.score <= 1.0 &&
    forall l :: 0 <= l < 10 ==>
      exists idx :: (0 <= idx < |points| && m.lines[l] == lines[idx] &&
        forall k :: 0 <= k < idx ==> points[k] < points[idx])
  }

  /** Each line looked up for a matched position is the first line at that
      position. */
  lemma FirstLines(lines: seq<Line>, points: seq<real>, selected: seq<real>)
    requires |lines| == |points| && NonDecreasing(points)
    requires forall x :: x in selected ==> x in points
    ensures forall l :: 0 <= l < |selected| ==> Search(points, selected[l]) < |points|
    ensures forall l :: 0 <= l < |selected| ==>
      exists idx :: (0 <= idx < |points| && LinesOf(lines, points, selected)[l] == lines[idx] &&
        forall k :: 0 <= k < idx ==> points[k] < points[idx])
  {
    forall l | 0 <= l < |selected|
      ensures Search(points, selected[l]) < |points| && points[Search(points, selected[l])] == selected[l]
    {
      SearchFindsFirst(points, selected[l]);
    }
  }

  lemma CandidateGood(lines: seq<Line>, points: seq<real>, table: seq<real>, i: nat, j: nat)
    requires |lines| == |points| && i < j < |points|
    requires NonDecreasing(points) && points[0] >= 0.0 && table == PointTable(points)
    ensures Candidate(lines, points, table, i, j).Some? ==> Good(Candidate(lines, points, table, i, j).value, lines, points)
  {
    if Candidate(lines, points, table, i, j).Some? {
      var e := Expected(points[i], points[j]);
      ExpectedInTable(points, i, j);
      var (score, sel) := Similarities(e, table);
      SelectionGood(lines, points, table, e, score, sel);
    }
  }

  /** A full selection from the table gives a good candidate. */
  lemma SelectionGood(lines: seq<Line>, points: seq<real>, table: seq<real>, e: seq<real>, score: real, sel: seq<real>)
    requires |lines| == |points| && |points| > 0
    requires NonDecreasing(points) && points[0] >= 0.0 && table == PointTable(points)
    requires TableLength(points) >= 0 && |e| >= 2 && InTable(e, table) && Step(e) > 0.0
    requires (score, sel) == Similarities(e, table) && |sel| == 10
    ensures forall l :: 0 <= l < |sel| ==> Search(points, sel[l]) < |points|
    ensures Good(ScoredLines(LinesOf(lines, points, sel), score), lines, points)
  {
    ScoreBounds(e, table);
    SimilaritiesMeaning(e, table);
    PointTableMembers(points);
    assert forall x :: x in sel ==> x in table;
    FirstLines(lines, points, sel);
  }

  lemma {:induction false} ScanFromGood(n: nat, cand: (nat, nat) -> Option<ScoredLines>, lines: seq<Line>, points: seq<real>, i: nat, j: nat, acc: seq<ScoredLines>)
    requires n >= 10 && i <= n - 9 && i + 9 <= j <= n && |lines| == |points|
    requires forall i', j' :: cand(i', j').Some? ==> Good(cand(i', j').value, lines, points)
    requires forall m :: m in acc ==> Good(m, lines, points)
    ensures forall m :: m in ScanFrom(n, cand, i, j, acc) ==> Good(m, lines, points)
    decreases n - i, n - j
  {
    if i == n - 9 {
    } else if j == n {
      if i + 1 < n - 9 {
        ScanFromGood(n, cand, lines, points, i + 1, i + 10, acc);
      }
    } else {
      ScanFromGood(n, cand, lines, points, i, j + 1, Append(acc, cand(i, j)));
    }
  }

  /** `linearDistances` returns nothing for fewer than ten lines; otherwise
      every candidate holds exactly ten lines, scores in (0.8, 1], and each
      of its lines is the first input line at its position. */
  lemma LinearMatchesMeaning(lines: seq<Line>, divider: Line, solve: Solver, dist: Distance)
    requires NonNegative(dist)
    requires |lines| >= 10 ==> NonDecreasing(Positions(lines, divider, solve, dist))
    ensures |lines| < 10 ==> LinearMatches(lines, divider, solve, dist) == []
    ensures |lines| >= 10 ==> forall m :: m in LinearMatches(lines, divider, solve, dist) ==>
      Good(m, lines, Positions(lines, divider, solve, dist))
  {
    if |lines| >= 10 {
      var points := Positions(lines, divider, solve, dist);
      ExpectedInTable(points, 0, |points| - 1);
      var table := PointTable(points);
      var cand := CandidateOf(lines, points, table);
      forall i', j' | cand(i', j').Some?
        ensures Good(cand(i', j').value, lines, points)
      {
        CandidateGood(lines, points, table, i', j');
      }
      ScanFromGood(|points|, cand, lines, points, 0, 9, []);
    }
  }
}
