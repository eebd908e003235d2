/**
 * The lookup table and the spacing fit of the Python copy (grid.py):
 * `point_similarities` and `prepare_point_distances`.
 *
 * Python's `int()` of a float truncates toward zero, like Go's conversion,
 * and a negative list index counts from the end of the list; an index
 * outside [-n, n) raises `IndexError`.
 */
module GridPyTable {
  import opened Geometry
  import opened Seqs
  import opened GridScore

  /** Python's `int()` of a float. */
  function PyInt(x: real): int
  {
    GoInt(x)
  }

  /** The list position a Python index j names in a list of n items. */
  function Slot(j: int, n: int): (s: int)
    requires -n <= j < n
    ensures 0 <= s < n
  {
    if j < 0 then n + j else j
  }

  /** `s[j]` in Python. */
  function PyAt(s: seq<real>, j: int): real
    requires -|s| <= j < |s|
  {
    s[Slot(j, |s|)]
  }

  // ---------------------------------------------------------------------
  // point_similarities

  /** Every expected point indexes the table after truncation, counting
      from the end when negative. */
  predicate PyInTable(expected: seq<real>, table: seq<real>)
  {
    forall k :: 0 <= k < |expected| ==> -|table| <= PyInt(expected[k]) < |table|
  }

  /** How far the gap between a point and the previous one is from the
      step, not divided by the step. */
  function Gap(point: real, prev: real, step: real): real
  {
    Abs(Abs(point - prev) - step)
  }

  /**
   * The loop of `point_similarities` from expected point k on: each point
   * looks up its table cell; after the first, a gap of 0.2 steps or more
   * ends the loop and a smaller one is added to the fit.
   */
  function PyFitFrom(expected: seq<real>, table: seq<real>, step: real, k: nat, points: seq<real>, fit: real): (r: (real, seq<real>))
    requires PyInTable(expected, table) && k <= |expected|
    decreases |expected| - k
  {
    if k == |expected| then (fit, points)
    else
      var point := PyAt(table, PyInt(expected[k]));
      if |points| > 0 && Gap(point, points[|points| - 1], step) >= 0.2 * step then (fit, points)
      else
        var fit' := if |points| > 0 then fit + Gap(point, points[|points| - 1], step) else fit;
        PyFitFrom(expected, table, step, k + 1, points + [point], fit')
  }

  /** `point_similarities` as a value: (fit, matched table values). */
  function PySimilarities(expected: seq<real>, table: seq<real>): (real, seq<real>)
    requires |expected| >= 2 && PyInTable(expected, table)
  {
    PyFitFrom(expected, table, expected[1] - expected[0], 0, [], 0.0)
  }

  method PointSimilaritiesPy(expected: seq<real>, table: seq<real>) returns (fit: real, points: seq<real>)
    requires |expected| >= 2 && PyInTable(expected, table)
    ensures (fit, points) == PySimilarities(expected, table)
  {
    fit := 0.0;
    points := [];
    var step := expected[1] - expected[0];
    var k := 0;
    while k < |expected|
      invariant 0 <= k <= |expected|
      invariant PyFitFrom(expected, table, step, k, points, fit) == PySimilarities(expected, table)
    {
      var point := PyAt(table, PyInt(expected[k]));
      if |points| > 0 {
        var f := Abs(Abs(point - points[|points| - 1]) - step);
        if f >= 0.2 * step {
          break;
        }
        fit := fit + f;
      }
      points := points + [point];
      k := k + 1;
    }
  }

  /** Sum of the gaps between consecutive matches. */
  function GapSum(m: seq<real>, step: real): real
  {
    if |m| < 2 then 0.0 else GapSum(m[..|m| - 1], step) + Gap(m[|m| - 1], m[|m| - 2], step)
  }

  /** Every gap between consecutive matches is below 0.2 steps, stated
      match by match as the loop appends them. */
  predicate Close(m: seq<real>, step: real)
  {
    |m| < 2 || (Close(m[..|m| - 1], step) && Gap(m[|m| - 1], m[|m| - 2], step) < 0.2 * step)
  }

  lemma {:induction false} CloseMeans(m: seq<real>, step: real)
    requires Close(m, step)
    ensures forall i :: 0 < i < |m| ==> Gap(m[i], m[i - 1], step) < 0.2 * step
  {
    if |m| >= 2 {
      CloseMeans(m[..|m| - 1], step);
    }
  }

  lemma {:induction false} PyFitFromValues(expected: seq<real>, table: seq<real>, step: real, k: nat, points: seq<real>, fit: real)
    requires PyInTable(expected, table) && k <= |expected|
    requires |points| == k
    requires forall i :: 0 <= i < k ==> points[i] == PyAt(table, PyInt(expected[i]))
    ensures var m := PyFitFrom(expected, table, step, k, points, fit).1;
      k <= |m| <= |expected| &&
      forall i :: 0 <= i < |m| ==> m[i] == PyAt(table, PyInt(expected[i]))
    decreases |expected| - k
  {
    if k < |expected| {
      var point := PyAt(table, PyInt(expected[k]));
      if |points| > 0 && Gap(point, points[|points| - 1], step) >= 0.2 * step {
      } else {
        var fit' := if |points| > 0 then fit + Gap(point, points[|points| - 1], step) else fit;
        PyFitFromValues(expected, table, step, k + 1, points + [point], fit');
      }
    }
  }

  lemma {:induction false} PyFitFromClose(expected: seq<real>, table: seq<real>, step: real, k: nat, points: seq<real>, fit: real)
    requires PyInTable(expected, table) && k <= |expected|
    requires |points| == k && Close(points, step)
    ensures var m := PyFitFrom(expected, table, step, k, points, fit).1;
      k <= |m| <= |expected| && Close(m, step) &&
      (|m| < |expected| ==> |m| > 0 && Gap(PyAt(table, PyInt(expected[|m|])), m[|m| - 1], step) >= 0.2 * step)
    decreases |expected| - k
  {
    if k < |expected| {
      var point := PyAt(table, PyInt(expected[k]));
      if |points| > 0 && Gap(point, points[|points| - 1], step) >= 0.2 * step {
      } else {
        var m' := points + [point];
        assert m'[..|m'| - 1] == points;
        var fit' := if |points| > 0 then fit + Gap(point, points[|points| - 1], step) else fit;
        PyFitFromClose(expected, table, step, k + 1, m', fit');
      }
    }
  }

  lemma {:induction false} PyFitFromSum(expected: seq<real>, table: seq<real>, step: real, k: nat, points: seq<real>, fit: real)
    requires PyInTable(expected, table) && k <= |expected|
    requires fit == GapSum(points, step)
    ensures var r := PyFitFrom(expected, table, step, k, points, fit);
      r.0 == GapSum(r.1, step)
    decreases |expected| - k
  {
    if k < |expected| {
      var point := PyAt(table, PyInt(expected[k]));
      if |points| > 0 && Gap(point, points[|points| - 1], step) >= 0.2 * step {
      } else {
        var m' := points + [point];
        assert m'[..|m'| - 1] == points;
        var fit' := if |points| > 0 then fit + Gap(point, points[|points| - 1], step) else fit;
        PyFitFromSum(expected, table, step, k + 1, m', fit');
      }
    }
  }

  /**
   * What `point_similarities` returns: the table values of a prefix of the
   * expected points (at least the first), consecutive ones less than 0.2
   * steps off the step; the loop stops only at the end or at a point 0.2
   * steps off or more; the fit is the plain sum of the gaps, so lower is
   * better, and it is never negative.
   */
  lemma PySimilaritiesMeaning(expected: seq<real>, table: seq<real>)
    requires |expected| >= 2 && PyInTable(expected, table)
    ensures var (fit, m) := PySimilarities(expected, table);
      var step := expected[1] - expected[0];
      1 <= |m| <= |expected| &&
      (forall i :: 0 <= i < |m| ==> m[i] == PyAt(table, PyInt(expected[i]))) &&
      (forall i :: 0 < i < |m| ==> Gap(m[i], m[i - 1], step) < 0.2 * step) &&
      (|m| < |expected| ==> Gap(PyAt(table, PyInt(expected[|m|])), m[|m| - 1], step) >= 0.2 * step) &&
      fit == GapSum(m, step) && fit >= 0.0
  {
    var step := expected[1] - expected[0];
    var first := PyAt(table, PyInt(expected[0]));
    assert [] + [first] == [first];
    assert PyFitFrom(expected, table, step, 0, [], 0.0) == PyFitFrom(expected, table, step, 1, [first], 0.0);
    PyFitFromValues(expected, table, step, 1, [first], 0.0);
    PyFitFromClose(expected, table, step, 1, [first], 0.0);
    PyFitFromSum(expected, table, step, 1, [first], 0.0);
    GapSumNonNegative(PySimilarities(expected, table).1, step);
    CloseMeans(PySimilarities(expected, table).1, step);
  }

  lemma {:induction false} GapSumNonNegative(m: seq<real>, step: real)
    ensures GapSum(m, step) >= 0.0
  {
    if |m| >= 2 {
      GapSumNonNegative(m[..|m| - 1], step);
    }
  }

  /** Unlike the Go copy, which divides by the step, a step of zero or below
      stops the loop after the first point: no gap is below 0.2 steps. */
  lemma NonPositiveStepMatchesOne(expected: seq<real>, table: seq<real>)
    requires |expected| >= 2 && PyInTable(expected, table) && expected[1] - expected[0] <= 0.0
    ensures |PySimilarities(expected, table).1| == 1 && PySimilarities(expected, table).0 == 0.0
  {
    PySimilaritiesMeaning(expected, table);
  }

  lemma GapScale(f: real, step: real)
    requires step > 0.0
    ensures f / step >= 0.2 <==> f >= 0.2 * step
  {
    if f / step >= 0.2 {
      assert f == (f / step) * step;
    }
  }

  lemma FitScale(fit: real, f: real, step: real)
    requires step > 0.0
    ensures fit / (9.0 * step) + f / step / 9.0 == (fit + f) / (9.0 * step)
  {
  }

  lemma {:induction false} FitFromAgrees(expected: seq<real>, table: seq<real>, step: real, k: nat, m: seq<real>, fit: real)
    requires InTable(expected, table) && step > 0.0 && k <= |expected|
    ensures PyInTable(expected, table)
    ensures FitFrom(expected, table, step, k, m, fit / (9.0 * step)) ==
      (1.0 - PyFitFrom(expected, table, step, k, m, fit).0 / (9.0 * step), PyFitFrom(expected, table, step, k, m, fit).1)
    decreases |expected| - k
  {
    if k < |expected| {
      var point := table[GoInt(expected[k])];
      assert PyAt(table, PyInt(expected[k])) == point;
      if |m| > 0 {
        var f := Gap(point, m[|m| - 1], step);
        assert Deviation(point, m[|m| - 1], step) == f / step;
        GapScale(f, step);
        if f < 0.2 * step {
          FitScale(fit, f, step);
          FitFromAgrees(expected, table, step, k + 1, m + [point], fit + f);
        }
      } else {
        FitFromAgrees(expected, table, step, k + 1, m + [point], fit);
      }
    }
  }

  /** With a positive step and non-negative cells both copies match the
      same points, and the Go score is one minus the Python fit divided by
      nine steps. */
  lemma PyAgreesWithGo(expected: seq<real>, table: seq<real>)
    requires |expected| >= 2 && InTable(expected, table) && Step(expected) > 0.0
    ensures PyInTable(expected, table)
    ensures Similarities(expected, table).1 == PySimilarities(expected, table).1
    ensures Similarities(expected, table).0 == 1.0 - PySimilarities(expected, table).0 / (9.0 * Step(expected))
  {
    FitFromAgrees(expected, table, Step(expected), 0, [], 0.0);
    assert 0.0 / (9.0 * Step(expected)) == 0.0;
  }

  // ---------------------------------------------------------------------
  // prepare_point_distances

  /** A table entry: (distance, point). */
  type Entry = (real, real)

  /** Python's `min(a, b)` on pairs: b only when it is smaller
      lexicographically. */
  function PairMin(a: Entry, b: Entry): (r: Entry)
    ensures r == a || r == b
    ensures r.0 <= a.0 && r.0 <= b.0
  {
    if b.0 < a.0 || (b.0 == a.0 && b.1 < a.1) then b else a
  }

  /** One `try` block: entry j takes the smaller of itself and (i, p); an
      index out of range is skipped. */
  function Claim(d: seq<Entry>, j: int, i: int, p: real): (r: seq<Entry>)
    ensures |r| == |d|
  {
    if -|d| <= j < |d| then d[Slot(j, |d|) := PairMin((i as real, p), d[Slot(j, |d|)])] else d
  }

  /** The spread loop of one point from distance i to top - 1. */
  function Spread(d: seq<Entry>, p: real, idx: int, i: int, top: int): (r: seq<Entry>)
    ensures |r| == |d|
    decreases top - i
  {
    if i >= top then d
    else Spread(Claim(Claim(d, idx - i, i, p), idx + i, i, p), p, idx, i + 1, top)
  }

  /** One pass of the outer loop: the point's own entry, then the spread. */
  function Place(d: seq<Entry>, p: real, top: int): (r: seq<Entry>)
    requires -|d| <= PyInt(p) < |d|
    ensures |r| == |d|
  {
    Spread(d[Slot(PyInt(p), |d|) := (0.0, p)], p, PyInt(p), 1, top)
  }

  predicate Indexable(ps: seq<real>, n: int)
  {
    forall k :: 0 <= k < |ps| ==> -n <= PyInt(ps[k]) < n
  }

  /** The entries after placing every point, in order. */
  function Fill(d: seq<Entry>, ps: seq<real>, top: int): (r: seq<Entry>)
    requires Indexable(ps, |d|)
    ensures |r| == |d|
  {
    if |ps| == 0 then d
    else Place(Fill(d, ps[..|ps| - 1], top), ps[|ps| - 1], top)
  }

  function Last(ps: seq<real>): real
    requires |ps| > 0
  {
    ps[|ps| - 1]
  }

  /** Number of entries: `int(max_p + 1)`. */
  function Cells(ps: seq<real>): int
    requires |ps| > 0
  {
    PyInt(Last(ps) + 1.0)
  }

  /** What the source relies on: a last point to read, and every point's
      own index inside the list (the own-entry write is outside the
      `try`). */
  predicate PyInRange(ps: seq<real>)
  {
    |ps| > 0 && Indexable(ps, Cells(ps))
  }

  function Start(ps: seq<real>): (d: seq<Entry>)
    requires PyInRange(ps)
    ensures |d| == Cells(ps)
  {
    seq(Cells(ps), _ => (Last(ps), Last(ps)))
  }

  /** The list `prepare_point_distances` returns. */
  function PyTable(ps: seq<real>): (r: seq<real>)
    requires PyInRange(ps)
    ensures |r| == Cells(ps)
  {
    var f := Fill(Start(ps), ps, PyInt(Last(ps)));
    seq(|f|, c requires 0 <= c < |f| => f[c].1)
  }

  /** One `try` block over the list of entries. */
  method ClaimAt(distances: array<Entry>, j: int, i: int, point: real)
    modifies distances
    ensures distances[..] == Claim(old(distances[..]), j, i, point)
  {
    var n := distances.Length;
    if -n <= j < n {
      var s := Slot(j, n);
      distances[s] := PairMin((i as real, point), distances[s]);
    }
  }

  /** The spread of one point over the list of entries. */
  method PlacePoint(distances: array<Entry>, point: real, top: int)
    requires -distances.Length <= PyInt(point) < distances.Length
    modifies distances
    ensures distances[..] == Place(old(distances[..]), point, top)
  {
    var n := distances.Length;
    var idx := PyInt(point);
    ghost var start := distances[..];
    distances[Slot(idx, n)] := (0.0, point);
    ghost var d0 := distances[..];
    assert d0 == start[Slot(idx, n) := (0.0, point)];
    var i := 1;
    while i < top
      invariant Spread(distances[..], point, idx, i, top) == Spread(d0, point, idx, 1, top)
      decreases top - i
    {
      ClaimAt(distances, idx - i, i, point);
      ClaimAt(distances, idx + i, i, point);
      i := i + 1;
    }
    assert Spread(distances[..], point, idx, i, top) == distances[..];
  }

  /** `prepare_point_distances`. */
  method PreparePointDistancesPy(points: seq<real>) returns (table: seq<real>)
    requires PyInRange(points)
    ensures table == PyTable(points)
  {
    var maxP := points[|points| - 1];
    var n := PyInt(maxP + 1.0);
    var distances := new Entry[n](_ => (maxP, maxP));
    assert distances[..] == Start(points);
    for k := 0 to |points|
      invariant distances[..] == Fill(Start(points), points[..k], PyInt(maxP))
    {
      assert points[..k + 1][..k] == points[..k];
      PlacePoint(distances, points[k], PyInt(maxP));
    }
    assert points[..|points|] == points;
    table := seq(n, c requires 0 <= c < n reads distances => distances[c].1);
  }

  // ---------------------------------------------------------------------
  // What the table holds

  /** Every entry's point is one of the given points. */
  predicate PointsFrom(d: seq<Entry>, ps: seq<real>)
  {
    forall c :: 0 <= c < |d| ==> d[c].1 in ps
  }

  lemma ClaimPointsFrom(d: seq<Entry>, j: int, i: int, p: real, ps: seq<real>)
    requires PointsFrom(d, ps) && p in ps
    ensures PointsFrom(Claim(d, j, i, p), ps)
  {
  }

  lemma {:induction false} SpreadPointsFrom(d: seq<Entry>, p: real, idx: int, i: int, top: int, ps: seq<real>)
    requires PointsFrom(d, ps) && p in ps
    ensures PointsFrom(Spread(d, p, idx, i, top), ps)
    decreases top - i
  {
    if i < top {
      var d1 := Claim(d, idx - i, i, p);
      var d2 := Claim(d1, idx + i, i, p);
      ClaimPointsFrom(d, idx - i, i, p, ps);
      ClaimPointsFrom(d1, idx + i, i, p, ps);
      SpreadPointsFrom(d2, p, idx, i + 1, top, ps);
      assert Spread(d, p, idx, i, top) == Spread(d2, p, idx, i + 1, top);
    }
  }

  lemma {:induction false} FillPointsFrom(d: seq<Entry>, ps: seq<real>, top: int, all: seq<real>)
    requires Indexable(ps, |d|) && PointsFrom(d, all) && forall p :: p in ps ==> p in all
    ensures PointsFrom(Fill(d, ps, top), all)
  {
    if |ps| > 0 {
      var prev := ps[..|ps| - 1];
      var p := ps[|ps| - 1];
      FillPointsFrom(d, prev, top, all);
      SpreadPointsFrom(Fill(d, prev, top)[Slot(PyInt(p), |d|) := (0.0, p)], p, PyInt(p), 1, top, all);
    }
  }

  /** Every entry of the table is one of the points. */
  lemma PyTableHoldsPoints(ps: seq<real>)
    requires PyInRange(ps)
    ensures forall c :: 0 <= c < |PyTable(ps)| ==> PyTable(ps)[c] in ps
  {
    FillPointsFrom(Start(ps), ps, PyInt(Last(ps)), ps);
  }

  /** An entry at distance 0 keeps its point through any spread. */
  lemma {:induction false} SpreadKeepsZero(d: seq<Entry>, p: real, idx: int, i: int, top: int, c: int)
    requires 0 <= c < |d| && d[c].0 == 0.0 && i >= 1
    ensures Spread(d, p, idx, i, top)[c] == d[c]
    decreases top - i
  {
    if i < top {
      SpreadKeepsZero(Claim(Claim(d, idx - i, i, p), idx + i, i, p), p, idx, i + 1, top, c);
    }
  }

  /** A point's own entry is (0, point) once it is placed, and stays so
      until a later point with the same entry is placed. */
  lemma {:induction false} OwnEntry(d: seq<Entry>, ps: seq<real>, top: int, k: nat)
    requires Indexable(ps, |d|) && k < |ps|
    ensures var c := Slot(PyInt(ps[k]), |d|);
      exists k' :: (k <= k' < |ps| && Slot(PyInt(ps[k']), |d|) == c && Fill(d, ps, top)[c] == (0.0, ps[k']))
  {
    var c := Slot(PyInt(ps[k]), |d|);
    var prev := ps[..|ps| - 1];
    var p := ps[|ps| - 1];
    var f := Fill(d, prev, top);
    if k == |ps| - 1 || Slot(PyInt(p), |d|) == c {
      SpreadKeepsZero(f[Slot(PyInt(p), |d|) := (0.0, p)], p, PyInt(p), 1, top, Slot(PyInt(p), |d|));
      assert Fill(d, ps, top)[Slot(PyInt(p), |d|)] == (0.0, ps[|ps| - 1]);
    } else {
      OwnEntry(d, prev, top, k);
      var k' :| k <= k' < |prev| && Slot(PyInt(prev[k']), |d|) == c && f[c] == (0.0, prev[k']);
      SpreadKeepsZero(f[Slot(PyInt(p), |d|) := (0.0, p)], p, PyInt(p), 1, top, c);
      assert ps[k'] == prev[k'];
    }
  }

  /** The own entry of every point holds the last point sharing it. */
  lemma PyTableOwnEntries(ps: seq<real>, k: nat)
    requires PyInRange(ps) && k < |ps|
    ensures exists k' :: (k <= k' < |ps| && Slot(PyInt(ps[k']), Cells(ps)) == Slot(PyInt(ps[k]), Cells(ps)) &&
      PyTable(ps)[Slot(PyInt(ps[k]), Cells(ps))] == ps[k'])
  {
    OwnEntry(Start(ps), ps, PyInt(Last(ps)), k);
  }

  // ---------------------------------------------------------------------
  // Each entry holds the least claim made on it

  /** Python's ordering of pairs. */
  predicate LexLe(a: Entry, b: Entry)
  {
    a.0 < b.0 || (a.0 == b.0 && a.1 <= b.1)
  }

  /** `e` is one of `s`, and nothing in `s` is below it. */
  predicate IsLeast(e: Entry, s: set<Entry>)
  {
    e in s && forall x :: x in s ==> LexLe(e, x)
  }

  /** The spread of a point whose index is `idx` reaches entry `c` of `n`
      at distance `i`, on one side or the other, a negative index wrapping. */
  predicate Hits(idx: int, i: int, c: int, n: int)
  {
    (-n <= idx - i < n && Slot(idx - i, n) == c) || (-n <= idx + i < n && Slot(idx + i, n) == c)
  }

  /** The claims (i, p) the spread from distance `lo` to `top - 1` makes
      on entry `c`. */
  function SpreadClaims(p: real, idx: int, c: int, n: int, lo: int, top: int): set<Entry>
  {
    set i | lo <= i < top && Hits(idx, i, c, n) :: (i as real, p)
  }

  /** What placing point `p` offers entry `c`: (0, p) when it is the
      point's own entry, and the claims of its spread. */
  function PointClaims(p: real, c: int, n: int, top: int): set<Entry>
  {
    (if -n <= PyInt(p) < n && Slot(PyInt(p), n) == c then {(0.0, p)} else {}) + SpreadClaims(p, PyInt(p), c, n, 1, top)
  }

  /** Everything the points offer entry `c`. */
  function AllClaims(ps: seq<real>, c: int, n: int, top: int): set<Entry>
  {
    if |ps| == 0 then {} else AllClaims(ps[..|ps| - 1], c, n, top) + PointClaims(ps[|ps| - 1], c, n, top)
  }

  /** No two points own the same entry. */
  predicate DistinctSlots(ps: seq<real>, n: int)
  {
    forall a, b :: 0 <= a < b < |ps| && -n <= PyInt(ps[a]) < n && -n <= PyInt(ps[b]) < n ==>
      Slot(PyInt(ps[a]), n) != Slot(PyInt(ps[b]), n)
  }

  /** Python's `min` of two pairs, each least of its own set, is least of
      both sets. */
  lemma LeastPairMin(a: Entry, s: set<Entry>, b: Entry, t: set<Entry>)
    requires IsLeast(a, s) && IsLeast(b, t)
    ensures IsLeast(PairMin(a, b), s + t)
  {
  }

  /** One round of the spread loop offers entry `c` the pair (i, p) exactly
      when it hits `c`. */
  lemma ClaimRound(d: seq<Entry>, p: real, idx: int, i: int, c: int, s: set<Entry>)
    requires 0 <= c < |d| && IsLeast(d[c], s)
    ensures var here: set<Entry> := if Hits(idx, i, c, |d|) then {(i as real, p)} else {};
      IsLeast(Claim(Claim(d, idx - i, i, p), idx + i, i, p)[c], s + here)
  {
    var n := |d|;
    var e: Entry := (i as real, p);
    var d1 := Claim(d, idx - i, i, p);
    var d2 := Claim(d1, idx + i, i, p);
    var left: set<Entry> := if -n <= idx - i < n && Slot(idx - i, n) == c then {e} else {};
    if left != {} {
      LeastPairMin(e, {e}, d[c], s);
      assert {e} + s == s + left;
    } else {
      assert d1[c] == d[c];
      assert s + left == s;
    }
    var here: set<Entry> := if Hits(idx, i, c, n) then {e} else {};
    if -n <= idx + i < n && Slot(idx + i, n) == c {
      LeastPairMin(e, {e}, d1[c], s + left);
      assert {e} + (s + left) == s + here;
    } else {
      assert d2[c] == d1[c];
      assert s + left == s + here;
    }
  }

  /** The spread from distance `i` leaves in entry `c` the least of what it
      held and of the spread's claims on it. */
  lemma {:induction false} SpreadLeast(d: seq<Entry>, p: real, idx: int, i: int, top: int, c: int, s: set<Entry>)
    requires 0 <= c < |d| && IsLeast(d[c], s)
    ensures IsLeast(Spread(d, p, idx, i, top)[c], s + SpreadClaims(p, idx, c, |d|, i, top))
    decreases top - i
  {
    var n := |d|;
    if i >= top {
      assert SpreadClaims(p, idx, c, n, i, top) == {};
    } else {
      var d2 := Claim(Claim(d, idx - i, i, p), idx + i, i, p);
      var here: set<Entry> := if Hits(idx, i, c, n) then {(i as real, p)} else {};
      ClaimRound(d, p, idx, i, c, s);
      SpreadLeast(d2, p, idx, i + 1, top, c, s + here);
      var rest := SpreadClaims(p, idx, c, n, i + 1, top);
      var all := SpreadClaims(p, idx, c, n, i, top);
      forall x | x in all
        ensures x in here + rest
      {
        var j :| i <= j < top && Hits(idx, j, c, n) && x == (j as real, p);
        if j > i {
          assert x in rest;
        }
      }
      forall x | x in here + rest
        ensures x in all
      {
        if x in here {
          assert i <= i < top && Hits(idx, i, c, n) && x == (i as real, p);
        } else {
          var j :| i + 1 <= j < top && Hits(idx, j, c, n) && x == (j as real, p);
          assert i <= j < top;
        }
      }
      assert all == here + rest;
      assert s + here + rest == s + all;
    }
  }

  /** Placing point `p` leaves in entry `c` the least of what it held and
      of the point's claims, provided (0, p) is below whatever its own
      entry was offered before. */
  lemma PlaceLeast(d: seq<Entry>, p: real, top: int, c: int, s: set<Entry>)
    requires -|d| <= PyInt(p) < |d| && 0 <= c < |d| && IsLeast(d[c], s)
    requires Slot(PyInt(p), |d|) == c ==> forall x :: x in s ==> LexLe((0.0, p), x)
    ensures IsLeast(Place(d, p, top)[c], s + PointClaims(p, c, |d|, top))
  {
    var n := |d|;
    var own := Slot(PyInt(p), n);
    var d1 := d[own := (0.0, p)];
    var mine: set<Entry> := if own == c then {(0.0, p)} else {};
    assert IsLeast(d1[c], s + mine);
    SpreadLeast(d1, p, PyInt(p), 1, top, c, s + mine);
    assert s + mine + SpreadClaims(p, PyInt(p), c, n, 1, top) == s + PointClaims(p, c, n, top);
  }

  /** A claim on entry `c` is at distance 1 or more, unless it is the
      (0, p) of a point owning `c`. */
  lemma {:induction false} ClaimShape(ps: seq<real>, c: int, n: int, top: int, x: Entry)
    requires x in AllClaims(ps, c, n, top)
    ensures x.0 >= 1.0 || exists k :: 0 <= k < |ps| && -n <= PyInt(ps[k]) < n && Slot(PyInt(ps[k]), n) == c && x == (0.0, ps[k])
  {
    var m := |ps| - 1;
    var prev := ps[..m];
    if x in AllClaims(prev, c, n, top) {
      ClaimShape(prev, c, n, top, x);
      if x.0 < 1.0 {
        var k :| 0 <= k < |prev| && -n <= PyInt(prev[k]) < n && Slot(PyInt(prev[k]), n) == c && x == (0.0, prev[k]);
        assert ps[k] == prev[k];
      }
    } else if x in SpreadClaims(ps[m], PyInt(ps[m]), c, n, 1, top) {
      var i :| 1 <= i < top && Hits(PyInt(ps[m]), i, c, n) && x == (i as real, ps[m]);
    }
  }

  /** Placing the points in order leaves in every entry the least of its
      initial value and of every claim on it. */
  lemma {:induction false} FillLeast(d: seq<Entry>, ps: seq<real>, top: int, start: Entry)
    requires Indexable(ps, |d|) && DistinctSlots(ps, |d|)
    requires forall c :: 0 <= c < |d| ==> d[c] == start
    requires forall k :: 0 <= k < |ps| ==> LexLe((0.0, ps[k]), start)
    ensures forall c :: 0 <= c < |d| ==> IsLeast(Fill(d, ps, top)[c], {start} + AllClaims(ps, c, |d|, top))
  {
    var n := |d|;
    if |ps| == 0 {
      forall c | 0 <= c < n
        ensures IsLeast(Fill(d, ps, top)[c], {start} + AllClaims(ps, c, n, top))
      {
        assert {start} + AllClaims(ps, c, n, top) == {start};
      }
    } else {
      var m := |ps| - 1;
      var prev := ps[..m];
      var p := ps[m];
      FillLeast(d, prev, top, start);
      var f := Fill(d, prev, top);
      forall c | 0 <= c < n
        ensures IsLeast(Fill(d, ps, top)[c], {start} + AllClaims(ps, c, n, top))
      {
        FillStep(f, ps, top, start, c);
      }
    }
  }

  /** The last point's placement keeps entry `c` least: (0, p) is below
      every claim other points made on its own entry. */
  lemma FillStep(f: seq<Entry>, ps: seq<real>, top: int, start: Entry, c: int)
    requires |ps| > 0 && Indexable(ps, |f|) && DistinctSlots(ps, |f|) && 0 <= c < |f|
    requires forall k :: 0 <= k < |ps| ==> LexLe((0.0, ps[k]), start)
    requires IsLeast(f[c], {start} + AllClaims(ps[..|ps| - 1], c, |f|, top))
    ensures IsLeast(Place(f, ps[|ps| - 1], top)[c], {start} + AllClaims(ps, c, |f|, top))
  {
    var n := |f|;
    var m := |ps| - 1;
    var prev := ps[..m];
    var p := ps[m];
    var s := {start} + AllClaims(prev, c, n, top);
    assert -n <= PyInt(p) < n;
    if Slot(PyInt(p), n) == c {
      forall x | x in s
        ensures LexLe((0.0, p), x)
      {
        if x != start {
          ClaimShape(prev, c, n, top, x);
        }
      }
    }
    PlaceLeast(f, p, top, c, s);
    assert s + PointClaims(p, c, n, top) == {start} + AllClaims(ps, c, n, top);
  }

  /**
   * When no two points own the same entry, each entry of the list
   * `prepare_point_distances` builds is the least, in Python's ordering of
   * pairs, of three kinds of claim: the initial (max_p, max_p), the
   * (0, point) of the point owning it, and every (i, point) with
   * 1 <= i < int(max_p) whose index `idx - i` or `idx + i` names it, a
   * negative index wrapping. The table keeps that least claim's point.
   */
  lemma PyTableIsLeast(ps: seq<real>)
    requires PyInRange(ps) && DistinctSlots(ps, Cells(ps))
    ensures var f := Fill(Start(ps), ps, PyInt(Last(ps)));
      forall c :: 0 <= c < Cells(ps) ==>
        IsLeast(f[c], {(Last(ps), Last(ps))} + AllClaims(ps, c, Cells(ps), PyInt(Last(ps)))) &&
        PyTable(ps)[c] == f[c].1
  {
    var last := Last(ps);
    var n := Cells(ps);
    assert -n <= PyInt(ps[0]) < n;
    assert last >= 0.0;
    forall k | 0 <= k < |ps|
      ensures LexLe((0.0, ps[k]), (last, last))
    {
      if last == 0.0 {
        assert n == 1;
        assert |ps| == 1;
      }
    }
    FillLeast(Start(ps), ps, PyInt(last), (last, last));
  }

  /**
   * Python's negative indices wrap a point's spread to the left around to
   * the far end of the list: placing 0.0 into the six entries for the points
   * [0.0, 5.0] writes distance 1 into the last entry. The later point 5.0
   * takes that entry back with distance 0, so the table comes out right.
   */
  lemma WrapExample()
    ensures Place(Start([0.0, 5.0]), 0.0, 5)[5] == (1.0, 0.0)
    ensures PyTable([0.0, 5.0]) == [0.0, 0.0, 0.0, 5.0, 5.0, 5.0]
  {
    var ps := [0.0, 5.0];
    var d0 := Start(ps);
    assert PyInt(6.0) == 6 && PyInt(5.0) == 5;
    assert d0 == seq(6, _ => (5.0, 5.0));
    var d1 := WrapFirst(d0);
    assert ps[..1] == [0.0] && [0.0][..0] == [];
    assert Fill(d0, [0.0], 5) == d1;
    assert Fill(d0, ps, 5) == Place(d1, 5.0, 5);
    WrapSecond(d1);
  }

  lemma WrapFirst(d0: seq<Entry>) returns (d1: seq<Entry>)
    requires d0 == seq(6, _ => (5.0, 5.0))
    ensures d1 == Place(d0, 0.0, 5)
    ensures d1 == [(0.0, 0.0), (1.0, 0.0), (2.0, 0.0), (3.0, 0.0), (2.0, 0.0), (1.0, 0.0)]
  {
    assert PyInt(0.0) == 0;
    d1 := Place(d0, 0.0, 5);
  }

  lemma WrapSecond(d1: seq<Entry>)
    requires d1 == [(0.0, 0.0), (1.0, 0.0), (2.0, 0.0), (3.0, 0.0), (2.0, 0.0), (1.0, 0.0)]
    ensures Place(d1, 5.0, 5) == [(0.0, 0.0), (1.0, 0.0), (2.0, 0.0), (2.0, 5.0), (1.0, 5.0), (0.0, 5.0)]
  {
    assert PyInt(5.0) == 5;
  }
}
