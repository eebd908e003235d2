/**
 * The search of the Python copy (grid.py): `linear_distances`, a generator
 * of candidate line sets along one divider line, and `possible_grids`,
 * which adds up the scores of equal candidates over every divider and pairs
 * the three best horizontal sets with the three best vertical ones.
 *
 * A generator is modelled by the sequence of the values it yields. The 2x2
 * solve (`cv2.solve`) and the distance between points are parameters; a
 * failed solve is taken to leave the point at the origin.
 */
module GridPySearch {
  import opened Wrappers
  import opened Geometry
  import opened Seqs
  import opened GridScore
  import opened GridMatch
  import opened GridPairs
  import opened GridPyTable

  /** Distance between two solver points. */
  type PyDistance = (Vec, Vec) -> real

  ghost predicate NonNegativePy(dist: PyDistance)
  {
    forall p, q :: dist(p, q) >= 0.0
  }

  /** The point `intersection` returns for a line and the divider. */
  function Crossing(solve: Solver, line: Line, divider: Line): Vec
  {
    match solve(line, divider)
    case Some(v) => v
    case None => Vec(0.0, 0.0)
  }

  /** Each line's position along the divider: its distance from the first
      line's crossing. */
  function PyPositions(lines: seq<Line>, divider: Line, solve: Solver, dist: PyDistance): (points: seq<real>)
    requires |lines| > 0
    ensures |points| == |lines|
  {
    var origin := Crossing(solve, lines[0], divider);
    seq(|lines|, i requires 0 <= i < |lines| => dist(origin, Crossing(solve, lines[i], divider)))
  }

  /** `s.index(x)`: the first position holding x, or |s| when there is none
      (where Python raises `ValueError`). */
  function FirstIndex(s: seq<real>, x: real): (i: nat)
    ensures i <= |s|
    ensures i < |s| <==> x in s
    ensures i < |s| ==> s[i] == x
    ensures forall k :: 0 <= k < i ==> s[k] != x
  {
    if |s| == 0 then 0
    else if s[0] == x then 0
    else
      assert forall y :: y in s <==> y == s[0] || y in s[1..];
      1 + FirstIndex(s[1..], x)
  }

  /** The line of each matched value: the first line at that position. */
  function PyLinesOf(lines: seq<Line>, points: seq<real>, selected: seq<real>): (r: seq<Line>)
    requires |lines| == |points|
    requires forall x :: x in selected ==> x in points
    ensures |r| == |selected|
  {
    seq(|selected|, l requires 0 <= l < |selected| => lines[FirstIndex(points, selected[l])])
  }

  /** `set(s)`. */
  function Elements(s: seq<real>): set<real>
  {
    set x | x in s
  }

  /** A sequence has as many different values as elements exactly when no
      value repeats. */
  lemma {:induction false} ElementsCount(s: seq<real>)
    ensures |Elements(s)| <= |s|
    ensures |Elements(s)| == |s| <==> Distinct(s)
  {
    if |s| > 0 {
      var init, last := s[..|s| - 1], s[|s| - 1];
      ElementsCount(init);
      assert Elements(s) == Elements(init) + {last};
      if last in init {
        assert Elements(s) == Elements(init);
        var k :| 0 <= k < |init| && init[k] == last;
        assert s[k] == s[|s| - 1];
      } else {
        assert |Elements(s)| == |Elements(init)| + 1;
        if Distinct(init) {
          forall i, j | 0 <= i < j < |s|
            ensures s[i] != s[j]
          {
            if j < |s| - 1 {
              assert s[i] == init[i] && s[j] == init[j];
            } else {
              assert s[i] in init;
            }
          }
        } else {
          var i, j :| 0 <= i < j < |init| && init[i] == init[j];
          assert s[i] == s[j];
        }
      }
    }
  }

  // ---------------------------------------------------------------------
  // linear_distances

  /** What the source relies on: positions that are distances, so not
      negative, each of which truncates to an index of the table (placing
      a point beyond the last cell raises `IndexError`, outside any `try`). */
  predicate Fits(points: seq<real>)
  {
    PyInRange(points) && forall k :: 0 <= k < |points| ==> points[k] >= 0.0
  }

  /** Truncation keeps the order of non-negative values. */
  lemma TruncMonotone(v: real, w: real)
    requires 0.0 <= v <= w
    ensures 0 <= PyInt(v) <= PyInt(w)
  {
  }

  /** Every expected point between two positions, taken in either order,
      truncates to a cell. */
  lemma ExpectedInCells(points: seq<real>, i: nat, j: nat)
    requires Fits(points) && i < |points| && j < |points|
    ensures forall k :: 0 <= k < 10 ==> 0 <= PyInt(Expected(points[i], points[j])[k]) < Cells(points)
  {
    var n := Cells(points);
    var a, b := points[i], points[j];
    assert 0.0 <= a && PyInt(a) < n;
    assert 0.0 <= b && PyInt(b) < n;
    forall k | 0 <= k < 10
      ensures 0 <= PyInt(Expected(a, b)[k]) < n
    {
      Between(a, b, k);
      if a <= b {
        TruncInCells(Expected(a, b)[k], b, n);
      } else {
        TruncInCells(Expected(a, b)[k], a, n);
      }
    }
  }

  lemma TruncInCells(v: real, w: real, n: int)
    requires 0.0 <= v <= w && PyInt(w) < n
    ensures 0 <= PyInt(v) < n
  {
    TruncMonotone(v, w);
  }

  /** The expected points from a to b lie between them. */
  lemma Between(a: real, b: real, k: int)
    requires 0 <= k < 10
    ensures a <= b ==> a <= Expected(a, b)[k] <= b
    ensures b < a ==> b <= Expected(a, b)[k] <= a
  {
    var step := (b - a) / 9.0;
    assert Expected(a, b)[k] == a + step * k as real;
    assert step * 9.0 == b - a;
    var e := Expected(a, b)[k];
    if step >= 0.0 {
      MulMonotone(step, k as real);
      assert 0.0 <= step * k as real <= step * 9.0;
      assert step * 9.0 == b - a;
      assert a <= e <= b;
    } else {
      MulMonotone(-step, k as real);
      assert (-step) * k as real == -(step * k as real) && (-step) * 9.0 == -(step * 9.0);
      assert step * 9.0 <= step * k as real <= 0.0;
      assert step * 9.0 == b - a;
      assert b <= e <= a;
    }
  }

  /** For positions that fit, every expected point between two of them
      reads a cell of the table. */
  lemma PyExpectedInTable(points: seq<real>, i: nat, j: nat)
    requires Fits(points) && i <= j < |points|
    ensures PyInTable(Expected(points[i], points[j]), PyTable(points))
  {
    ExpectedInCells(points, i, j);
    assert |PyTable(points)| == Cells(points);
  }

  /** The candidate of start i and end j (`points[j-1]` in the source): the
      fit's ten matched values must be ten different values. */
  function PyCandidate(lines: seq<Line>, points: seq<real>, table: seq<real>, i: nat, j: nat): Option<ScoredLines>
    requires |lines| == |points| && i <= j < |points|
    requires Fits(points) && table == PyTable(points)
  {
    var e := Expected(points[i], points[j]);
    PyExpectedInTable(points, i, j);
    var (fit, selected) := PySimilarities(e, table);
    if |Elements(selected)| != 10 then None
    else
      SelectedArePoints(points, i, j);
      Some(ScoredLines(PyLinesOf(lines, points, selected), fit))
  }

  /** Every matched value is one of the positions. */
  lemma SelectedArePoints(points: seq<real>, i: nat, j: nat)
    requires Fits(points) && i <= j < |points|
    ensures PyInRange(points) && PyInTable(Expected(points[i], points[j]), PyTable(points))
    ensures forall x :: x in PySimilarities(Expected(points[i], points[j]), PyTable(points)).1 ==> x in points
  {
    PyExpectedInTable(points, i, j);
    var e := Expected(points[i], points[j]);
    var table := PyTable(points);
    PySimilaritiesMeaning(e, table);
    PyTableHoldsPoints(points);
    MatchesFromTable(e, table, PySimilarities(e, table).1, points);
  }

  lemma MatchesFromTable(e: seq<real>, table: seq<real>, sel: seq<real>, points: seq<real>)
    requires PyInTable(e, table) && |sel| <= |e|
    requires forall i :: 0 <= i < |sel| ==> sel[i] == PyAt(table, PyInt(e[i]))
    requires forall c :: 0 <= c < |table| ==> table[c] in points
    ensures forall x :: x in sel ==> x in points
  {
    forall x | x in sel
      ensures x in points
    {
      var l :| 0 <= l < |sel| && sel[l] == x;
      assert x == table[Slot(PyInt(e[l]), |table|)];
    }
  }

  /** A candidate is yielded exactly when the fit matched ten points and no
      value among them repeats. */
  lemma PyCandidateWhen(lines: seq<Line>, points: seq<real>, table: seq<real>, i: nat, j: nat)
    requires |lines| == |points| && i <= j < |points|
    requires Fits(points) && table == PyTable(points)
    ensures PyInTable(Expected(points[i], points[j]), table)
    ensures var selected := PySimilarities(Expected(points[i], points[j]), table).1;
      PyCandidate(lines, points, table, i, j).Some? <==> |selected| == 10 && Distinct(selected)
  {
    PyExpectedInTable(points, i, j);
    var e := Expected(points[i], points[j]);
    PySimilaritiesMeaning(e, table);
    ElementsCount(PySimilarities(e, table).1);
  }

  function PyCandidateOf(lines: seq<Line>, points: seq<real>, table: seq<real>): (nat, nat) -> Option<ScoredLines>
    requires |lines| == |points|
    requires Fits(points) && table == PyTable(points)
  {
    (i: nat, j: nat) => if i <= j < |points| then PyCandidate(lines, points, table, i, j) else None
  }

  /** One step of the scan appends the candidate of the pair (i, j). */
  lemma ScanStepPy(lines: seq<Line>, points: seq<real>, table: seq<real>, i: nat, j: nat,
                   acc: seq<ScoredLines>, candidate: Option<ScoredLines>)
    requires |lines| == |points| >= 10 && i < |points| - 9 && i + 9 <= j < |points|
    requires Fits(points) && table == PyTable(points)
    requires candidate == PyCandidate(lines, points, table, i, j)
    ensures ScanFrom(|points|, PyCandidateOf(lines, points, table), i, j, acc) ==
      ScanFrom(|points|, PyCandidateOf(lines, points, table), i, j + 1, Append(acc, candidate))
  {
    var cand := PyCandidateOf(lines, points, table);
    assert cand(i, j) == candidate;
    ScanStep(|points|, cand, i, j, acc);
  }

  /** What the source demands of a family of lines along a divider: at
      least one line, and every position within the table. */
  ghost predicate AlongDivider(lines: seq<Line>, divider: Line, solve: Solver, dist: PyDistance)
  {
    NonNegativePy(dist) && |lines| > 0 && PyInRange(PyPositions(lines, divider, solve, dist))
  }

  lemma AlongFits(lines: seq<Line>, divider: Line, solve: Solver, dist: PyDistance)
    requires AlongDivider(lines, divider, solve, dist)
    ensures Fits(PyPositions(lines, divider, solve, dist))
  {
    var points := PyPositions(lines, divider, solve, dist);
    forall k | 0 <= k < |points|
      ensures points[k] >= 0.0
    {
      assert points[k] == dist(Crossing(solve, lines[0], divider), Crossing(solve, lines[k], divider));
    }
  }

  /** The values `linear_distances` yields: one (0.0, []) for fewer than ten
      lines, then the candidates of every start and end ten or more lines
      apart, in scan order. */
  function PyLinearMatches(lines: seq<Line>, divider: Line, solve: Solver, dist: PyDistance): seq<ScoredLines>
    requires AlongDivider(lines, divider, solve, dist)
  {
    if |lines| < 10 then [ScoredLines([], 0.0)]
    else
      var points := PyPositions(lines, divider, solve, dist);
      AlongFits(lines, divider, solve, dist);
      ScanFrom(|points|, PyCandidateOf(lines, points, PyTable(points)), 0, 9, [])
  }

  /**
   * `linear_distances`. With fewer than ten lines it yields (0.0, []) and
   * goes on: the table is still built and the scan is empty. An empty
   * family, where the source raises `IndexError` after that first value,
   * is excluded.
   */
  method LinearDistancesPy(lines: seq<Line>, divider: Line, solve: Solver, dist: PyDistance)
    returns (found: seq<ScoredLines>)
    requires AlongDivider(lines, divider, solve, dist)
    ensures found == PyLinearMatches(lines, divider, solve, dist)
  {
    found := [];
    if |lines| < 10 {
      found := found + [ScoredLines([], 0.0)];
    }
    var intersections: seq<Vec> := [];
    for n := 0 to |lines|
      invariant |intersections| == n
      invariant forall k :: 0 <= k < n ==> intersections[k] == Crossing(solve, lines[k], divider)
    {
      var point := Crossing(solve, lines[n], divider);
      intersections := intersections + [point];
    }
    var points: seq<real> := [];
    for n := 0 to |intersections|
      invariant |points| == n
      invariant forall k :: 0 <= k < n ==> points[k] == dist(intersections[0], intersections[k])
    {
      points := points + [dist(intersections[0], intersections[n])];
    }
    assert points == PyPositions(lines, divider, solve, dist);
    AlongFits(lines, divider, solve, dist);
    var distances := PreparePointDistancesPy(points);
    found := ScanPairsPy(lines, points, distances, found);
  }

  /** The two loops over start i and end j - 1. */
  method ScanPairsPy(lines: seq<Line>, points: seq<real>, distances: seq<real>, found0: seq<ScoredLines>)
    returns (found: seq<ScoredLines>)
    requires |lines| == |points|
    requires Fits(points) && distances == PyTable(points)
    ensures |points| < 10 ==> found == found0
    ensures |points| >= 10 ==> found == ScanFrom(|points|, PyCandidateOf(lines, points, distances), 0, 9, found0)
  {
    found := found0;
    var pointsCount := |points|;
    ghost var cand := PyCandidateOf(lines, points, distances);
    var i := 0;
    while i < pointsCount + 1 - 10
      invariant 0 <= i && (pointsCount >= 10 ==> i <= pointsCount - 9)
      invariant pointsCount < 10 ==> found == found0
      invariant pointsCount >= 10 && i < pointsCount - 9 ==>
        ScanFrom(pointsCount, cand, i, i + 9, found) == ScanFrom(pointsCount, cand, 0, 9, found0)
      invariant pointsCount >= 10 && i == pointsCount - 9 ==> found == ScanFrom(pointsCount, cand, 0, 9, found0)
    {
      found := ScanEndsPy(lines, points, distances, i, found);
      ScanRow(pointsCount, cand, i, found);
      i := i + 1;
    }
  }

  /** The inner loop: every end position from i + 9 on, for one start i. */
  method ScanEndsPy(lines: seq<Line>, points: seq<real>, distances: seq<real>, i: nat, acc: seq<ScoredLines>)
    returns (found: seq<ScoredLines>)
    requires |lines| == |points| >= 10 && i < |points| - 9
    requires Fits(points) && distances == PyTable(points)
    ensures ScanFrom(|points|, PyCandidateOf(lines, points, distances), i, |points|, found) ==
      ScanFrom(|points|, PyCandidateOf(lines, points, distances), i, i + 9, acc)
  {
    ghost var cand := PyCandidateOf(lines, points, distances);
    var pointsCount := |points|;
    found := acc;
    var j := i + 10;
    while j < pointsCount + 1
      invariant i + 10 <= j <= pointsCount + 1
      invariant ScanFrom(pointsCount, cand, i, j - 1, found) == ScanFrom(pointsCount, cand, i, i + 9, acc)
    {
      var candidate := TryPairPy(lines, points, distances, i, j - 1);
      ScanStepPy(lines, points, distances, i, j - 1, found, candidate);
      found := Append(found, candidate);
      j := j + 1;
    }
  }

  /** One pass of the inner loop, with end position `points[j]`. */
  method TryPairPy(lines: seq<Line>, points: seq<real>, distances: seq<real>, i: nat, j: nat)
    returns (candidate: Option<ScoredLines>)
    requires |lines| == |points| && i <= j < |points|
    requires Fits(points) && distances == PyTable(points)
    ensures candidate == PyCandidate(lines, points, distances, i, j)
  {
    var start, end := points[i], points[j];
    var step := (end - start) / 9.0;
    var expectedPoints := seq(10, k requires 0 <= k < 10 => start + step * k as real);
    assert expectedPoints == Expected(start, end);
    PyExpectedInTable(points, i, j);
    var score, selectedPoints := PointSimilaritiesPy(expectedPoints, distances);
    if |Elements(selectedPoints)| != 10 {
      return None;
    }
    SelectedArePoints(points, i, j);
    var selectedLines := seq(|selectedPoints|, l requires 0 <= l < |selectedPoints| =>
      lines[FirstIndex(points, selectedPoints[l])]);
    candidate := Some(ScoredLines(selectedLines, score));
  }

  /** The candidate m holds the lines of ten different matched values, each
      the first line at its value's position. */
  predicate Picks(m: ScoredLines, lines: seq<Line>, points: seq<real>, selected: seq<real>)
    requires |lines| == |points|
  {
    |selected| == 10 && Distinct(selected) &&
    (forall x :: x in selected ==> x in points) &&
    m.lines == PyLinesOf(lines, points, selected)
  }

  /** What every yielded candidate promises: ten lines of ten different
      positions, and a fit (a sum of gaps) that is not negative. */
  ghost predicate PyGood(m: ScoredLines, lines: seq<Line>, points: seq<real>)
    requires |lines| == |points|
  {
    |m.lines| == 10 && m.score >= 0.0 && exists selected :: Picks(m, lines, points, selected)
  }

  lemma PyCandidateGood(lines: seq<Line>, points: seq<real>, table: seq<real>, i: nat, j: nat)
    requires |lines| == |points| && i <= j < |points|
    requires Fits(points) && table == PyTable(points)
    ensures PyCandidate(lines, points, table, i, j).Some? ==>
      PyGood(PyCandidate(lines, points, table, i, j).value, lines, points)
  {
    if PyCandidate(lines, points, table, i, j).Some? {
      var e := Expected(points[i], points[j]);
      PyCandidateWhen(lines, points, table, i, j);
      SelectedArePoints(points, i, j);
      PySimilaritiesMeaning(e, table);
      var sel := PySimilarities(e, table).1;
      assert Picks(PyCandidate(lines, points, table, i, j).value, lines, points, sel);
    }
  }

  lemma {:induction false} ScanFromPyGood(n: nat, cand: (nat, nat) -> Option<ScoredLines>, lines: seq<Line>, points: seq<real>,
                                         i: nat, j: nat, acc: seq<ScoredLines>)
    requires n >= 10 && i <= n - 9 && i + 9 <= j <= n && |lines| == |points|
    requires forall i', j' :: cand(i', j').Some? ==> PyGood(cand(i', j').value, lines, points)
    requires forall m :: m in acc ==> PyGood(m, lines, points)
    ensures forall m :: m in ScanFrom(n, cand, i, j, acc) ==> PyGood(m, lines, points)
    decreases n - i, n - j
  {
    if i == n - 9 {
    } else if j == n {
      if i + 1 < n - 9 {
        ScanFromPyGood(n, cand, lines, points, i + 1, i + 10, acc);
      }
    } else {
      ScanFromPyGood(n, cand, lines, points, i, j + 1, Append(acc, cand(i, j)));
    }
  }

  /** `linear_distances` yields exactly (0.0, []) for fewer than ten lines;
      otherwise every value it yields is a good candidate. */
  lemma PyLinearMatchesMeaning(lines: seq<Line>, divider: Line, solve: Solver, dist: PyDistance)
    requires AlongDivider(lines, divider, solve, dist)
    ensures |lines| < 10 ==> PyLinearMatches(lines, divider, solve, dist) == [ScoredLines([], 0.0)]
    ensures |lines| >= 10 ==> forall m :: m in PyLinearMatches(lines, divider, solve, dist) ==>
      PyGood(m, lines, PyPositions(lines, divider, solve, dist))
  {
    if |lines| >= 10 {
      var points := PyPositions(lines, divider, solve, dist);
      AlongFits(lines, divider, solve, dist);
      var table := PyTable(points);
      var cand := PyCandidateOf(lines, points, table);
      forall i', j' | cand(i', j').Some?
        ensures PyGood(cand(i', j').value, lines, points)
      {
        PyCandidateGood(lines, points, table, i', j');
      }
      ScanFromPyGood(|points|, cand, lines, points, 0, 9, []);
    }
  }

  // ---------------------------------------------------------------------
  // possible_grids

  /** The sort key `l[0]`, (distance, angle), compared as a tuple. */
  function LineLe(a: Line, b: Line): bool
  {
    a.distance < b.distance || (a.distance == b.distance && a.theta <= b.theta)
  }

  /** What every divider of one family demands of the other. */
  ghost predicate PyAligned(primary: seq<Line>, secondary: seq<Line>, solve: Solver, dist: PyDistance)
  {
    forall s :: s in secondary ==> AlongDivider(primary, s, solve, dist)
  }

  /** Everything `linear_distances` yields for every divider, in divider
      order. */
  function PyAllMatches(primary: seq<Line>, secondary: seq<Line>, solve: Solver, dist: PyDistance): seq<ScoredLines>
    requires PyAligned(primary, secondary, solve, dist)
  {
    if |secondary| == 0 then []
    else
      assert forall s :: s in secondary[..|secondary| - 1] ==> s in secondary;
      PyAllMatches(primary, secondary[..|secondary| - 1], solve, dist) +
      PyLinearMatches(primary, secondary[|secondary| - 1], solve, dist)
  }

  /** A line tuple's entry in the `defaultdict(float)`: the sum of the
      scores yielded with it. */
  function Total(all: seq<ScoredLines>, k: seq<Line>): real
  {
    Sum(ScoresOf(all, k))
  }

  /** The order in which a Python 2 dictionary lists its keys, given them
      in the order they were first inserted. It follows the keys' hashes,
      so the model leaves it open. */
  type DictOrder = seq<seq<Line>> -> seq<seq<Line>>

  /** The dictionary lists every key once. */
  ghost predicate Permutes(iter: DictOrder)
  {
    forall ks :: multiset(iter(ks)) == multiset(ks)
  }

  /** `items()` of the dictionary: each line tuple with its total, the
      tuples (kept in first-yield order) listed as `iter` has them. */
  function Items(all: seq<ScoredLines>, iter: DictOrder): (items: seq<(seq<Line>, real)>)
    ensures |items| == |iter(Keys(all))|
  {
    var order := iter(Keys(all));
    seq(|order|, i requires 0 <= i < |order| => (order[i], Total(all, order[i])))
  }

  function ItemLe(a: (seq<Line>, real), b: (seq<Line>, real)): bool
  {
    a.1 <= b.1
  }

  /** The line tuple of each item. */
  function Firsts(items: seq<(seq<Line>, real)>): (ks: seq<seq<Line>>)
    ensures |ks| == |items|
  {
    seq(|items|, i requires 0 <= i < |items| => items[i].0)
  }

  /** The line tuples by ascending total: `[l for l, s in sorted(...)]`. */
  function Ranked(all: seq<ScoredLines>, iter: DictOrder): seq<seq<Line>>
  {
    Firsts(SortBy(Items(all, iter), ItemLe))
  }

  /** The items hold each yielded tuple once, with its total. */
  lemma ItemsFacts(all: seq<ScoredLines>, iter: DictOrder)
    requires Permutes(iter)
    ensures multiset(Firsts(Items(all, iter))) == multiset(Keys(all))
    ensures Distinct(Firsts(Items(all, iter)))
    ensures forall it :: it in Items(all, iter) ==> it.1 == Total(all, it.0)
  {
    assert Firsts(Items(all, iter)) == iter(Keys(all));
    KeysDistinct(all);
    PermutationDistinct(iter(Keys(all)), Keys(all));
  }

  /** Reordering items whose tuples are all different keeps the tuples,
      each once. */
  lemma FirstsOfPermutation(items: seq<(seq<Line>, real)>, sorted: seq<(seq<Line>, real)>)
    requires multiset(sorted) == multiset(items) && Distinct(Firsts(items))
    ensures |Firsts(sorted)| == |Firsts(items)|
    ensures forall k :: k in Firsts(sorted) <==> k in Firsts(items)
    ensures Distinct(Firsts(sorted))
  {
    PermutationMembers(sorted, items);
    var fs, fi := Firsts(sorted), Firsts(items);
    forall k
      ensures k in fs <==> k in fi
    {
      if k in fs {
        var i :| 0 <= i < |fs| && fs[i] == k;
        assert sorted[i] in items;
        var p :| 0 <= p < |items| && items[p] == sorted[i];
        assert fi[p] == k;
      }
      if k in fi {
        var p :| 0 <= p < |fi| && fi[p] == k;
        assert items[p] in sorted;
        var i :| 0 <= i < |sorted| && sorted[i] == items[p];
        assert fs[i] == k;
      }
    }
    assert Distinct(items) by {
      forall i, j | 0 <= i < j < |items|
        ensures items[i] != items[j]
      {
        assert fi[i] != fi[j];
      }
    }
    PermutationDistinct(sorted, items);
    forall i, j | 0 <= i < j < |sorted|
      ensures fs[i] != fs[j]
    {
      assert sorted[i] in items && sorted[j] in items;
      var p :| 0 <= p < |items| && items[p] == sorted[i];
      var q :| 0 <= q < |items| && items[q] == sorted[j];
      assert p != q;
      assert fi[p] == fs[i] && fi[q] == fs[j];
    }
  }

  /** Sorted by total, item by item. */
  lemma SortedTotals(items: seq<(seq<Line>, real)>, sorted: seq<(seq<Line>, real)>, all: seq<ScoredLines>)
    requires multiset(sorted) == multiset(items) && SortedBy(sorted, ItemLe)
    requires forall it :: it in items ==> it.1 == Total(all, it.0)
    ensures forall i, j :: 0 <= i < j < |sorted| ==> Total(all, Firsts(sorted)[i]) <= Total(all, Firsts(sorted)[j])
  {
    forall i | 0 <= i < |sorted|
      ensures sorted[i].1 == Total(all, Firsts(sorted)[i])
    {
      assert sorted[i] in multiset(items);
    }
  }

  /** The ranked line tuples are the yielded ones, each once. */
  lemma RankedMembers(all: seq<ScoredLines>, iter: DictOrder)
    requires Permutes(iter)
    ensures |Ranked(all, iter)| == |Keys(all)|
    ensures forall k :: k in Ranked(all, iter) <==> k in LineLists(all)
    ensures Distinct(Ranked(all, iter))
  {
    var items := Items(all, iter);
    ItemsFacts(all, iter);
    FirstsOfPermutation(items, SortBy(items, ItemLe));
    PermutationMembers(Firsts(items), Keys(all));
  }

  /** The ranked line tuples come by ascending total. */
  lemma RankedAscending(all: seq<ScoredLines>, iter: DictOrder)
    requires Permutes(iter)
    ensures forall i, j :: 0 <= i < j < |Ranked(all, iter)| ==> Total(all, Ranked(all, iter)[i]) <= Total(all, Ranked(all, iter)[j])
  {
    var items := Items(all, iter);
    ItemsFacts(all, iter);
    assert TotalPreorder(ItemLe);
    SortBySorted(items, ItemLe);
    SortedTotals(items, SortBy(items, ItemLe), all);
  }

  /** Python's `s[:n]`. */
  function Take<T>(s: seq<T>, n: nat): (r: seq<T>)
    ensures |r| == MinInt(n, |s|)
  {
    s[..MinInt(n, |s|)]
  }

  /** The three line tuples `possible_grids` keeps of one family: yielded
      ones, different from each other, with no dropped tuple of a lower
      total, whatever order the dictionary lists them in. */
  lemma TopThree(all: seq<ScoredLines>, iter: DictOrder)
    requires Permutes(iter)
    ensures |Take(Ranked(all, iter), 3)| == MinInt(3, |Keys(all)|)
    ensures Distinct(Take(Ranked(all, iter), 3))
    ensures forall k :: k in Take(Ranked(all, iter), 3) ==> k in LineLists(all)
    ensures forall k, d :: k in Take(Ranked(all, iter), 3) && d in LineLists(all) && d !in Take(Ranked(all, iter), 3) ==>
      Total(all, k) <= Total(all, d)
  {
    RankedMembers(all, iter);
    RankedAscending(all, iter);
    var r := Ranked(all, iter);
    var t := Take(r, 3);
    forall k, d | k in t && d in LineLists(all) && d !in t
      ensures Total(all, k) <= Total(all, d)
    {
      var i :| 0 <= i < |t| && t[i] == k;
      var j :| 0 <= j < |r| && r[j] == d;
      assert j >= |t|;
    }
  }

  /** A grid of the Python copy: ten horizontal and ten vertical lines. */
  datatype PyGrid = PyGrid(horizontal: seq<Line>, vertical: seq<Line>)

  function PyRow(h: seq<Line>, vs: seq<seq<Line>>): (row: seq<PyGrid>)
    ensures |row| == |vs|
  {
    seq(|vs|, k requires 0 <= k < |vs| => PyGrid(h, vs[k]))
  }

  /** Every horizontal set with every vertical set, horizontal-major. */
  function PyPairs(hs: seq<seq<Line>>, vs: seq<seq<Line>>): seq<PyGrid>
  {
    if |hs| == 0 then [] else PyPairs(hs[..|hs| - 1], vs) + PyRow(hs[|hs| - 1], vs)
  }

  lemma RowIndex(a: nat, b: nat, n: nat, q: nat)
    requires a < n && b < q
    ensures a * q + b < n * q
    ensures a < n - 1 ==> a * q + b < (n - 1) * q
    ensures (n - 1) * q + q == n * q
  {
    assert (a + 1) * q <= n * q;
    if a < n - 1 {
      assert (a + 1) * q <= (n - 1) * q;
    }
  }

  lemma {:induction false} PyPairsLength(hs: seq<seq<Line>>, vs: seq<seq<Line>>)
    ensures |PyPairs(hs, vs)| == |hs| * |vs|
  {
    if |hs| > 0 {
      PyPairsLength(hs[..|hs| - 1], vs);
      assert (|hs| - 1) * |vs| + |vs| == |hs| * |vs|;
    }
  }

  /** Grid a * |vs| + b pairs horizontal set a with vertical set b. */
  lemma {:induction false} PyPairsAt(hs: seq<seq<Line>>, vs: seq<seq<Line>>)
    ensures |PyPairs(hs, vs)| == |hs| * |vs|
    ensures forall a, b :: 0 <= a < |hs| && 0 <= b < |vs| ==> PyPairs(hs, vs)[a * |vs| + b] == PyGrid(hs[a], vs[b])
  {
    PyPairsLength(hs, vs);
    forall a, b | 0 <= a < |hs| && 0 <= b < |vs| {
      PyPairAt(hs, vs, a, b);
    }
  }

  /** The pair of horizontal set a and vertical set b sits at a * |vs| + b. */
  lemma {:induction false} PyPairAt(hs: seq<seq<Line>>, vs: seq<seq<Line>>, a: nat, b: nat)
    requires a < |hs| && b < |vs|
    ensures a * |vs| + b < |PyPairs(hs, vs)|
    ensures PyPairs(hs, vs)[a * |vs| + b] == PyGrid(hs[a], vs[b])
  {
    var n, q := |hs|, |vs|;
    var init := hs[..n - 1];
    PyPairsLength(init, vs);
    RowIndex(a, b, n, q);
    var before := PyPairs(init, vs);
    var row := PyRow(hs[n - 1], vs);
    assert PyPairs(hs, vs) == before + row;
    if a < n - 1 {
      PyPairAt(init, vs, a, b);
      assert hs[a] == init[a];
    } else {
      assert row[b] == PyGrid(hs[a], vs[b]);
    }
  }

  /** What the source demands: each family, sorted, is aligned along every
      line of the other. */
  ghost predicate PyFamilies(horizontal: seq<Line>, vertical: seq<Line>, solve: Solver, dist: PyDistance)
  {
    PyAligned(SortBy(vertical, LineLe), SortBy(horizontal, LineLe), solve, dist) &&
    PyAligned(SortBy(horizontal, LineLe), SortBy(vertical, LineLe), solve, dist)
  }

  /** The vertical and horizontal yields (`lines_v`, `lines_h` before
      ranking). */
  function VerticalMatches(horizontal: seq<Line>, vertical: seq<Line>, solve: Solver, dist: PyDistance): seq<ScoredLines>
    requires PyFamilies(horizontal, vertical, solve, dist)
  {
    PyAllMatches(SortBy(vertical, LineLe), SortBy(horizontal, LineLe), solve, dist)
  }

  function HorizontalMatches(horizontal: seq<Line>, vertical: seq<Line>, solve: Solver, dist: PyDistance): seq<ScoredLines>
    requires PyFamilies(horizontal, vertical, solve, dist)
  {
    PyAllMatches(SortBy(horizontal, LineLe), SortBy(vertical, LineLe), solve, dist)
  }

  /** `possible_grids` as a value. */
  function PyPossibleGrids(horizontal: seq<Line>, vertical: seq<Line>, solve: Solver, dist: PyDistance, iter: DictOrder): seq<PyGrid>
    requires PyFamilies(horizontal, vertical, solve, dist)
  {
    PyPairs(Take(Ranked(HorizontalMatches(horizontal, vertical, solve, dist), iter), 3),
            Take(Ranked(VerticalMatches(horizontal, vertical, solve, dist), iter), 3))
  }

  /** Every grid pairs a horizontal set with a vertical set. */
  lemma {:induction false} PyPairsMembers(hs: seq<seq<Line>>, vs: seq<seq<Line>>)
    ensures forall g :: g in PyPairs(hs, vs) ==> g.horizontal in hs && g.vertical in vs
  {
    if |hs| > 0 {
      PyPairsMembers(hs[..|hs| - 1], vs);
    }
  }

  /** At most three by three sets give at most nine grids, each pairing one
      of the horizontal sets with one of the vertical sets. */
  lemma PairsShape(hs: seq<seq<Line>>, vs: seq<seq<Line>>)
    requires |hs| <= 3 && |vs| <= 3
    ensures |PyPairs(hs, vs)| == |hs| * |vs| <= 9
    ensures forall g :: g in PyPairs(hs, vs) ==> g.horizontal in hs && g.vertical in vs
  {
    PyPairsLength(hs, vs);
    PyPairsMembers(hs, vs);
    AtMostNine(|hs|, |vs|);
  }

  /** At most nine grids, each pairing one of the (at most three) kept
      horizontal tuples with one of the kept vertical tuples. */
  lemma PyPossibleGridsShape(horizontal: seq<Line>, vertical: seq<Line>, solve: Solver, dist: PyDistance, iter: DictOrder)
    requires PyFamilies(horizontal, vertical, solve, dist)
    ensures var hs := Take(Ranked(HorizontalMatches(horizontal, vertical, solve, dist), iter), 3);
      var vs := Take(Ranked(VerticalMatches(horizontal, vertical, solve, dist), iter), 3);
      var grids := PyPossibleGrids(horizontal, vertical, solve, dist, iter);
      |grids| == |hs| * |vs| <= 9 &&
      forall g :: g in grids ==> g.horizontal in hs && g.vertical in vs
  {
    var hs := Take(Ranked(HorizontalMatches(horizontal, vertical, solve, dist), iter), 3);
    var vs := Take(Ranked(VerticalMatches(horizontal, vertical, solve, dist), iter), 3);
    PairsShape(hs, vs);
  }

  /** The sort keeps the number of lines. */
  lemma SortByLength<T>(s: seq<T>, le: (T, T) -> bool)
    ensures |SortBy(s, le)| == |s|
  {
    assert |multiset(SortBy(s, le))| == |multiset(s)|;
  }

  lemma {:induction false} PyAllMatchesTen(primary: seq<Line>, secondary: seq<Line>, solve: Solver, dist: PyDistance)
    requires PyAligned(primary, secondary, solve, dist) && |primary| >= 10
    ensures forall m :: m in PyAllMatches(primary, secondary, solve, dist) ==> |m.lines| == 10
  {
    if |secondary| > 0 {
      var init := secondary[..|secondary| - 1];
      assert forall s :: s in init ==> s in secondary;
      PyAllMatchesTen(primary, init, solve, dist);
      PyLinearMatchesMeaning(primary, secondary[|secondary| - 1], solve, dist);
    }
  }

  lemma {:induction false} PyAllMatchesShort(primary: seq<Line>, secondary: seq<Line>, solve: Solver, dist: PyDistance)
    requires PyAligned(primary, secondary, solve, dist) && |primary| < 10
    ensures forall m :: m in PyAllMatches(primary, secondary, solve, dist) ==> m == ScoredLines([], 0.0)
  {
    if |secondary| > 0 {
      var init := secondary[..|secondary| - 1];
      assert forall s :: s in init ==> s in secondary;
      PyAllMatchesShort(primary, init, solve, dist);
      PyLinearMatchesMeaning(primary, secondary[|secondary| - 1], solve, dist);
    }
  }

  /** A kept tuple is the line list of some yielded value. */
  lemma KeptYielded(all: seq<ScoredLines>, iter: DictOrder, k: seq<Line>)
    requires Permutes(iter) && k in Take(Ranked(all, iter), 3)
    ensures exists m :: m in all && m.lines == k
  {
    TopThree(all, iter);
    var i :| 0 <= i < |all| && LineLists(all)[i] == k;
    assert all[i] in all;
  }

  /**
   * With ten lines or more in both families every grid holds ten lines of
   * each. A family of fewer than ten lines contributes only the empty tuple
   * that `linear_distances` yields first, so every grid has it on that side.
   */
  lemma PyGridsLines(horizontal: seq<Line>, vertical: seq<Line>, solve: Solver, dist: PyDistance, iter: DictOrder)
    requires PyFamilies(horizontal, vertical, solve, dist) && Permutes(iter)
    ensures |horizontal| >= 10 && |vertical| >= 10 ==>
      forall g :: g in PyPossibleGrids(horizontal, vertical, solve, dist, iter) ==> |g.horizontal| == 10 && |g.vertical| == 10
    ensures |vertical| < 10 ==> forall g :: g in PyPossibleGrids(horizontal, vertical, solve, dist, iter) ==> g.vertical == []
    ensures |horizontal| < 10 ==> forall g :: g in PyPossibleGrids(horizontal, vertical, solve, dist, iter) ==> g.horizontal == []
  {
    var v, h := SortBy(vertical, LineLe), SortBy(horizontal, LineLe);
    SortByLength(vertical, LineLe);
    SortByLength(horizontal, LineLe);
    var allH, allV := HorizontalMatches(horizontal, vertical, solve, dist), VerticalMatches(horizontal, vertical, solve, dist);
    var hs, vs := Take(Ranked(allH, iter), 3), Take(Ranked(allV, iter), 3);
    PyPossibleGridsShape(horizontal, vertical, solve, dist, iter);
    if |h| >= 10 {
      PyAllMatchesTen(h, v, solve, dist);
    } else {
      PyAllMatchesShort(h, v, solve, dist);
    }
    if |v| >= 10 {
      PyAllMatchesTen(v, h, solve, dist);
    } else {
      PyAllMatchesShort(v, h, solve, dist);
    }
    forall g | g in PyPossibleGrids(horizontal, vertical, solve, dist, iter)
      ensures |h| >= 10 ==> |g.horizontal| == 10
      ensures |h| < 10 ==> g.horizontal == []
      ensures |v| >= 10 ==> |g.vertical| == 10
      ensures |v| < 10 ==> g.vertical == []
    {
      KeptYielded(allH, iter, g.horizontal);
      KeptYielded(allV, iter, g.vertical);
    }
  }

  // ---------------------------------------------------------------------
  // The loops of possible_grids

  /** The state of the `defaultdict` loop: the tuples in first-seen order
      and each tuple's running sum. */
  ghost predicate Summed(all: seq<ScoredLines>, keys: seq<seq<Line>>, sums: map<seq<Line>, real>)
  {
    keys == Keys(all) &&
    (forall k :: k in sums <==> k in keys) &&
    (forall k :: k in sums ==> sums[k] == Total(all, k))
  }

  /** The sums after one value: its entry created at 0 when new, then the
      score added. */
  function WithSum(sums: map<seq<Line>, real>, m: ScoredLines): map<seq<Line>, real>
  {
    var created := if m.lines in sums then sums else sums[m.lines := 0.0];
    created[m.lines := created[m.lines] + m.score]
  }

  /** One more value adds its score to its own tuple's total only. */
  lemma TotalStep(all: seq<ScoredLines>, m: ScoredLines, k: seq<Line>)
    ensures Total(all + [m], k) == Total(all, k) + (if k == m.lines then m.score else 0.0)
  {
    var all' := all + [m];
    assert all'[..|all'| - 1] == all;
    var s := ScoresOf(all, k);
    if k == m.lines {
      assert ScoresOf(all', k) == s + [m.score];
      assert (s + [m.score])[..|s|] == s;
    } else {
      assert ScoresOf(all', k) == s;
    }
  }

  /** `lines[tuple(line)] += score` keeps the state. */
  lemma SumOne(all: seq<ScoredLines>, keys: seq<seq<Line>>, sums: map<seq<Line>, real>, m: ScoredLines)
    requires Summed(all, keys, sums)
    ensures Summed(all + [m], if m.lines in sums then keys else keys + [m.lines], WithSum(sums, m))
  {
    KeysStep(all, m);
    if m.lines !in sums {
      assert m.lines !in LineLists(all);
    }
    SumsStep(all, sums, m);
  }

  /** One more value adds its tuple to the keys when it is new. */
  lemma KeysStep(all: seq<ScoredLines>, m: ScoredLines)
    ensures Keys(all + [m]) == if m.lines in Keys(all) then Keys(all) else Keys(all) + [m.lines]
  {
    assert (all + [m])[..|all|] == all;
  }

  /** One more value adds its score to its tuple's sum, which starts at 0
      when the tuple is new. */
  lemma SumsStep(all: seq<ScoredLines>, sums: map<seq<Line>, real>, m: ScoredLines)
    requires forall k :: k in sums ==> sums[k] == Total(all, k)
    requires m.lines !in sums ==> ScoresOf(all, m.lines) == []
    ensures forall k :: k in WithSum(sums, m) ==> WithSum(sums, m)[k] == Total(all + [m], k)
  {
    var sums' := WithSum(sums, m);
    forall k | k in sums'
      ensures sums'[k] == Total(all + [m], k)
    {
      TotalStep(all, m, k);
    }
  }

  /** The body of the inner loop: a new tuple starts at 0 and its key is
      appended, then the score is added. */
  method AddSum(keys0: seq<seq<Line>>, sums0: map<seq<Line>, real>, m: ScoredLines)
    returns (keys: seq<seq<Line>>, sums: map<seq<Line>, real>)
    ensures keys == (if m.lines in sums0 then keys0 else keys0 + [m.lines])
    ensures sums == WithSum(sums0, m)
  {
    keys, sums := keys0, sums0;
    if m.lines !in sums {
      sums := sums[m.lines := 0.0];
      keys := keys + [m.lines];
    }
    sums := sums[m.lines := sums[m.lines] + m.score];
  }

  /** The inner loop over one divider's values. */
  method AddYields(ghost done: seq<ScoredLines>, keys0: seq<seq<Line>>, sums0: map<seq<Line>, real>,
                   found: seq<ScoredLines>)
    returns (keys: seq<seq<Line>>, sums: map<seq<Line>, real>)
    requires Summed(done, keys0, sums0)
    ensures Summed(done + found, keys, sums)
  {
    keys, sums := keys0, sums0;
    assert done + found[..0] == done;
    for b := 0 to |found|
      invariant Summed(done + found[..b], keys, sums)
    {
      TakeOneMore(done, found, b);
      SumOne(done + found[..b], keys, sums, found[b]);
      keys, sums := AddSum(keys, sums, found[b]);
    }
    assert found[..|found|] == found;
  }

  lemma PyAlignedPrefix(primary: seq<Line>, secondary: seq<Line>, a: nat, solve: Solver, dist: PyDistance)
    requires PyAligned(primary, secondary, solve, dist) && a < |secondary|
    ensures PyAligned(primary, secondary[..a + 1], solve, dist)
    ensures PyAllMatches(primary, secondary[..a + 1], solve, dist) ==
      PyAllMatches(primary, secondary[..a], solve, dist) + PyLinearMatches(primary, secondary[a], solve, dist)
  {
    assert secondary[..a + 1][..a] == secondary[..a];
  }

  /** The outer loop: every divider's values added to the dictionary. */
  method SumMatches(primary: seq<Line>, secondary: seq<Line>, solve: Solver, dist: PyDistance)
    returns (keys: seq<seq<Line>>, sums: map<seq<Line>, real>)
    requires PyAligned(primary, secondary, solve, dist)
    ensures Summed(PyAllMatches(primary, secondary, solve, dist), keys, sums)
  {
    keys := [];
    sums := map[];
    for a := 0 to |secondary|
      invariant PyAligned(primary, secondary[..a], solve, dist)
      invariant Summed(PyAllMatches(primary, secondary[..a], solve, dist), keys, sums)
    {
      PyAlignedPrefix(primary, secondary, a, solve, dist);
      var found := LinearDistancesPy(primary, secondary[a], solve, dist);
      keys, sums := AddYields(PyAllMatches(primary, secondary[..a], solve, dist), keys, sums, found);
    }
    assert secondary[..|secondary|] == secondary;
  }

  /** The ranking comprehension over the dictionary's items. */
  method RankKeys(ghost all: seq<ScoredLines>, keys: seq<seq<Line>>, sums: map<seq<Line>, real>, iter: DictOrder)
    returns (ranked: seq<seq<Line>>)
    requires Summed(all, keys, sums) && Permutes(iter)
    ensures ranked == Ranked(all, iter)
  {
    var order := iter(keys);
    forall k | k in order
      ensures k in sums
    {
      assert k in multiset(order);
      assert k in multiset(keys);
    }
    var items := seq(|order|, i requires 0 <= i < |order| => (order[i], sums[order[i]]));
    assert items == Items(all, iter);
    var sorted := SortBy(items, ItemLe);
    ranked := seq(|sorted|, i requires 0 <= i < |sorted| => sorted[i].0);
  }

  /** The two loops that pair the kept tuples. */
  method PairUp(hs: seq<seq<Line>>, vs: seq<seq<Line>>) returns (grids: seq<PyGrid>)
    ensures grids == PyPairs(hs, vs)
  {
    grids := [];
    for a := 0 to |hs|
      invariant grids == PyPairs(hs[..a], vs)
    {
      for b := 0 to |vs|
        invariant grids == PyPairs(hs[..a], vs) + PyRow(hs[a], vs[..b])
      {
        assert PyRow(hs[a], vs[..b + 1]) == PyRow(hs[a], vs[..b]) + [PyGrid(hs[a], vs[b])];
        grids := grids + [PyGrid(hs[a], vs[b])];
      }
      assert vs[..|vs|] == vs;
      assert hs[..a + 1][..a] == hs[..a];
    }
    assert hs[..|hs|] == hs;
  }

  /** `possible_grids`. */
  method PossibleGridsPy(horizontal: seq<Line>, vertical: seq<Line>, solve: Solver, dist: PyDistance, iter: DictOrder)
    returns (grids: seq<PyGrid>)
    requires PyFamilies(horizontal, vertical, solve, dist) && Permutes(iter)
    ensures grids == PyPossibleGrids(horizontal, vertical, solve, dist, iter)
  {
    var v := SortBy(vertical, LineLe);
    var h := SortBy(horizontal, LineLe);
    var keysV, sumsV := SumMatches(v, h, solve, dist);
    var keysH, sumsH := SumMatches(h, v, solve, dist);
    var linesV := RankKeys(PyAllMatches(v, h, solve, dist), keysV, sumsV, iter);
    var linesH := RankKeys(PyAllMatches(h, v, solve, dist), keysH, sumsH, iter);
    grids := PairUp(Take(linesH, 3), Take(linesV, 3));
  }
}
