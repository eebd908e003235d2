/**
 * `evaluateGrids` (grid.go): each grid is scored again by the ink under its
 * lines. Every horizontal line becomes a fragment from its crossing with the
 * first vertical line to its crossing with the last one, and every vertical
 * line one between the first and the last horizontal line; each inked pixel
 * of a fragment's raster adds the reciprocal of the fragment's length. The
 * grid's score is to be multiplied by that ink sum over the number of
 * fragments, and the grids sorted best first.
 *
 * As written, the loop updates a copy of each grid, so the new scores are
 * lost and the grids come back re-sorted on their pairing scores alone.
 * EvaluateGridsAsWritten models that; EvaluateGrids models the evident
 * intent, storing each new score.
 */
module GridEval {
  import opened Geometry
  import opened Seqs
  import opened Bresenham
  import opened GridPairs

  /** Whether the pixel at a point is non-zero. */
  type Image = Point -> bool

  /** A fragment's Euclidean length, as math.Hypot computes it. */
  type Length = Fragment -> real

  /** The pixels of a fragment; `evaluateGrids` uses Raster, the points
      `pointsOnLineFragment` gives. */
  type Rasterizer = Fragment -> seq<Point>

  /** `evaluateGrids` reads the first and last line of each family. */
  predicate Framed(g: LineGrid)
  {
    |g.horizontal| > 0 && |g.vertical| > 0
  }

  ghost predicate NonNegativeLength(length: Length)
  {
    forall f :: length(f) >= 0.0
  }

  // ---------------------------------------------------------------------
  // Fragments

  /** A line cut by two lines of the other family. */
  function Cut(solve: Solver, l: Line, first: Line, last: Line): Fragment
  {
    Fragment(Intersection(solve, l, first).1, Intersection(solve, l, last).1)
  }

  /** The horizontal fragments, then the vertical ones. */
  function Fragments(g: LineGrid, solve: Solver): (fs: seq<Fragment>)
    requires Framed(g)
    ensures |fs| == |g.horizontal| + |g.vertical|
  {
    var h, v := g.horizontal, g.vertical;
    seq(|h|, j requires 0 <= j < |h| => Cut(solve, h[j], v[0], v[|v| - 1])) +
    seq(|v|, j requires 0 <= j < |v| => Cut(solve, v[j], h[0], h[|h| - 1]))
  }

  /** The two loops of `evaluateGrids` that cut the fragments. */
  method GridFragments(g: LineGrid, solve: Solver) returns (fragments: seq<Fragment>)
    requires Framed(g)
    ensures fragments == Fragments(g, solve)
  {
    var hCount := |g.horizontal|;
    var vCount := |g.vertical|;
    var fs := new Fragment[hCount + vCount];
    var firstVertLine := g.vertical[0];
    var lastVertLine := g.vertical[vCount - 1];
    for j := 0 to hCount
      invariant forall t :: 0 <= t < j ==> fs[t] == Cut(solve, g.horizontal[t], firstVertLine, lastVertLine)
    {
      var (_, start) := Intersection(solve, g.horizontal[j], firstVertLine);
      var (_, end) := Intersection(solve, g.horizontal[j], lastVertLine);
      fs[j] := Fragment(start, end);
    }
    var firstHorizLine := g.horizontal[0];
    var lastHorizLine := g.horizontal[hCount - 1];
    for j := 0 to vCount
      invariant forall t :: 0 <= t < hCount ==> fs[t] == Cut(solve, g.horizontal[t], firstVertLine, lastVertLine)
      invariant forall t :: 0 <= t < j ==> fs[hCount + t] == Cut(solve, g.vertical[t], firstHorizLine, lastHorizLine)
    {
      var (_, start) := Intersection(solve, g.vertical[j], firstHorizLine);
      var (_, end) := Intersection(solve, g.vertical[j], lastHorizLine);
      fs[hCount + j] := Fragment(start, end);
    }
    fragments := fs[..];
  }

  /** Each horizontal fragment runs from the crossing with the first vertical
      line to that with the last, and each vertical one likewise. */
  lemma FragmentsSpan(g: LineGrid, solve: Solver)
    requires Framed(g)
    ensures forall j :: 0 <= j < |g.horizontal| ==>
      Fragments(g, solve)[j].start == Intersection(solve, g.horizontal[j], g.vertical[0]).1 &&
      Fragments(g, solve)[j].end == Intersection(solve, g.horizontal[j], g.vertical[|g.vertical| - 1]).1
    ensures forall j :: 0 <= j < |g.vertical| ==>
      Fragments(g, solve)[|g.horizontal| + j].start == Intersection(solve, g.vertical[j], g.horizontal[0]).1 &&
      Fragments(g, solve)[|g.horizontal| + j].end == Intersection(solve, g.vertical[j], g.horizontal[|g.horizontal| - 1]).1
  {
  }

  // ---------------------------------------------------------------------
  // Ink

  /** What an inked pixel of f adds: one over f's length (0 for a fragment
      of length 0, where Go's float division gives infinity). */
  function Value(f: Fragment, length: Length): real
  {
    if length(f) == 0.0 then 0.0 else 1.0 / length(f)
  }

  /** The ink of one fragment's points: each inked point adds value. */
  function PointsInk(points: seq<Point>, value: real, image: Image): real
  {
    if |points| == 0 then 0.0
    else PointsInk(points[..|points| - 1], value, image) + (if image(points[|points| - 1]) then value else 0.0)
  }

  /** The ink of the fragments: the sum of each fragment's ink. */
  function GridInk(fs: seq<Fragment>, raster: Rasterizer, length: Length, image: Image): real
  {
    if |fs| == 0 then 0.0
    else
      var f := fs[|fs| - 1];
      GridInk(fs[..|fs| - 1], raster, length, image) + PointsInk(raster(f), Value(f, length), image)
  }

  lemma PointsInkStep(points: seq<Point>, k: nat, value: real, image: Image)
    requires k < |points|
    ensures PointsInk(points[..k + 1], value, image) ==
      PointsInk(points[..k], value, image) + (if image(points[k]) then value else 0.0)
  {
    assert points[..k + 1][..k] == points[..k];
  }

  /** The scoring loops of `evaluateGrids`. */
  method InkScore(fragments: seq<Fragment>, length: Length, image: Image) returns (score: real)
    ensures score == GridInk(fragments, Raster, length, image)
  {
    score := 0.0;
    for i := 0 to |fragments|
      invariant score == GridInk(fragments[..i], Raster, length, image)
    {
      var fragment := fragments[i];
      var points := PointsOnLineFragment(fragment);
      var value := Value(fragment, length);
      ghost var before := score;
      for k := 0 to |points|
        invariant score == before + PointsInk(points[..k], value, image)
      {
        PointsInkStep(points, k, value, image);
        if image(points[k]) {
          score := score + value;
        }
      }
      assert points[..|points|] == points;
      assert fragments[..i + 1][..i] == fragments[..i];
    }
    assert fragments[..|fragments|] == fragments;
  }

  lemma {:induction false} PointsInkMonotone(points: seq<Point>, value: real, a: Image, b: Image)
    requires value >= 0.0
    requires forall p :: a(p) ==> b(p)
    ensures 0.0 <= PointsInk(points, value, a) <= PointsInk(points, value, b)
  {
    if |points| > 0 {
      PointsInkMonotone(points[..|points| - 1], value, a, b);
    }
  }

  lemma {:induction false} PointsInkNone(points: seq<Point>, value: real, image: Image)
    requires forall p :: !image(p)
    ensures PointsInk(points, value, image) == 0.0
  {
    if |points| > 0 {
      PointsInkNone(points[..|points| - 1], value, image);
    }
  }

  lemma {:induction false} PointsInkAll(points: seq<Point>, value: real, image: Image)
    requires forall p :: image(p)
    ensures PointsInk(points, value, image) == |points| as real * value
  {
    if |points| > 0 {
      var n := |points| - 1;
      PointsInkAll(points[..n], value, image);
      assert (n as real + 1.0) * value == n as real * value + value;
    }
  }

  /** More ink never lowers the ink score. */
  lemma {:induction false} MoreInkScoresMore(fs: seq<Fragment>, raster: Rasterizer, length: Length, a: Image, b: Image)
    requires NonNegativeLength(length)
    requires forall p :: a(p) ==> b(p)
    ensures 0.0 <= GridInk(fs, raster, length, a) <= GridInk(fs, raster, length, b)
  {
    if |fs| > 0 {
      var f := fs[|fs| - 1];
      MoreInkScoresMore(fs[..|fs| - 1], raster, length, a, b);
      assert Value(f, length) >= 0.0;
      PointsInkMonotone(raster(f), Value(f, length), a, b);
    }
  }

  /** A blank image scores nothing. */
  lemma {:induction false} BlankScoresZero(fs: seq<Fragment>, raster: Rasterizer, length: Length, image: Image)
    requires forall p :: !image(p)
    ensures GridInk(fs, raster, length, image) == 0.0
  {
    if |fs| > 0 {
      BlankScoresZero(fs[..|fs| - 1], raster, length, image);
      PointsInkNone(raster(fs[|fs| - 1]), Value(fs[|fs| - 1], length), image);
    }
  }

  /** Each fragment's point count over its length, summed. */
  function Coverage(fs: seq<Fragment>, raster: Rasterizer, length: Length): real
  {
    if |fs| == 0 then 0.0
    else Coverage(fs[..|fs| - 1], raster, length) + |raster(fs[|fs| - 1])| as real * Value(fs[|fs| - 1], length)
  }

  /** A fully inked image scores, per fragment, its point count over its
      length. */
  lemma {:induction false} FullInkScore(fs: seq<Fragment>, raster: Rasterizer, length: Length, image: Image)
    requires forall p :: image(p)
    ensures GridInk(fs, raster, length, image) == Coverage(fs, raster, length)
  {
    if |fs| > 0 {
      FullInkScore(fs[..|fs| - 1], raster, length, image);
      PointsInkAll(raster(fs[|fs| - 1]), Value(fs[|fs| - 1], length), image);
    }
  }

  // ---------------------------------------------------------------------
  // evaluateGrids

  /** A grid scored again by the ink under its fragments. */
  function Rescore(g: LineGrid, solve: Solver, raster: Rasterizer, length: Length, image: Image): (r: LineGrid)
    requires Framed(g)
    ensures r.horizontal == g.horizontal && r.vertical == g.vertical
  {
    var fs := Fragments(g, solve);
    g.(score := Scaled(g.score, GridInk(fs, raster, length, image), |fs|))
  }

  /** `grid.Score * score / float64(len(fragments))`. */
  function Scaled(score: real, ink: real, n: nat): real
    requires n > 0
  {
    score * ink / n as real
  }

  function Rescored(grids: seq<LineGrid>, solve: Solver, raster: Rasterizer, length: Length, image: Image)
    : (r: seq<LineGrid>)
    requires forall g :: g in grids ==> Framed(g)
    ensures |r| == |grids|
  {
    seq(|grids|, i requires 0 <= i < |grids| => Rescore(grids[i], solve, raster, length, image))
  }

  lemma ScaleBounds(s: real, ink: real, n: nat)
    requires 0.0 <= s <= 1.0 && 0.0 <= ink <= n as real && n > 0
    ensures 0.0 <= Scaled(s, ink, n) <= 1.0
    ensures ink == 0.0 ==> Scaled(s, ink, n) == 0.0
  {
    var d := n as real;
    var q := ink / d;
    UnitQuotient(ink, d);
    ScaleAssoc(s, ink, d);
    UnitProduct(s, q);
  }

  lemma UnitQuotient(ink: real, d: real)
    requires d >= 1.0 && 0.0 <= ink <= d
    ensures 0.0 <= ink / d <= 1.0
    ensures ink == 0.0 ==> ink / d == 0.0
  {
    var q := ink / d;
    assert q * d == ink;
  }

  lemma ScaleAssoc(s: real, ink: real, d: real)
    requires d >= 1.0
    ensures s * ink / d == s * (ink / d)
  {
  }

  lemma UnitProduct(s: real, q: real)
    requires 0.0 <= s <= 1.0 && 0.0 <= q <= 1.0
    ensures 0.0 <= s * q <= 1.0
  {
    NonNegativeProduct(s, q);
    NonNegativeProduct(1.0 - s, q);
    assert (1.0 - s) * q == q - s * q;
  }

  lemma NonNegativeProduct(a: real, b: real)
    requires a >= 0.0 && b >= 0.0
    ensures a * b >= 0.0
  {
  }

  /** A grid whose pairing score lies in [0, 1] keeps a score in [0, 1]
      when its fragments carry at most one unit of ink each (at most one
      inked pixel per unit of length), and scores 0 on a blank image. */
  lemma RescoreBounds(g: LineGrid, solve: Solver, raster: Rasterizer, length: Length, image: Image)
    requires Framed(g) && 0.0 <= g.score <= 1.0 && NonNegativeLength(length)
    requires GridInk(Fragments(g, solve), raster, length, image) <= |Fragments(g, solve)| as real
    ensures 0.0 <= Rescore(g, solve, raster, length, image).score <= 1.0
    ensures (forall p :: !image(p)) ==> Rescore(g, solve, raster, length, image).score == 0.0
  {
    var fs := Fragments(g, solve);
    MoreInkScoresMore(fs, raster, length, image, image);
    ScaleBounds(g.score, GridInk(fs, raster, length, image), |fs|);
    if forall p :: !image(p) {
      BlankScoresZero(fs, raster, length, image);
    }
  }

  /** One grid of `evaluateGrids`, scored again. */
  method RescoreGrid(grid: LineGrid, solve: Solver, length: Length, image: Image) returns (r: LineGrid)
    requires Framed(grid)
    ensures r == Rescore(grid, solve, Raster, length, image)
  {
    var fragments := GridFragments(grid, solve);
    var score := InkScore(fragments, length, image);
    r := grid.(score := Scaled(grid.score, score, |fragments|));
  }

  /** `evaluateGrids` with each grid's new score stored: the grids, scored
      again, best first. */
  method EvaluateGrids(grids: seq<LineGrid>, solve: Solver, length: Length, image: Image)
    returns (result: seq<LineGrid>)
    requires forall g :: g in grids ==> Framed(g)
    ensures multiset(result) == multiset(Rescored(grids, solve, Raster, length, image))
    ensures SortedDesc(result, Rank)
  {
    var scored := grids;
    for i := 0 to |grids|
      invariant |scored| == |grids|
      invariant forall t :: 0 <= t < i ==> scored[t] == Rescore(grids[t], solve, Raster, length, image)
      invariant forall t :: i <= t < |grids| ==> scored[t] == grids[t]
    {
      assert grids[i] in grids;
      var grid := RescoreGrid(scored[i], solve, length, image);
      scored := scored[i := grid];
    }
    assert scored == Rescored(grids, solve, Raster, length, image);
    result := SortedCopyDesc(scored, Rank);
  }

  /** What the as-written `evaluateGrids` returns: its input re-sorted. */
  predicate ReSorted(grids: seq<LineGrid>, result: seq<LineGrid>)
  {
    multiset(result) == multiset(grids) && SortedDesc(result, Rank)
  }

  /** `evaluateGrids` as written: the score computed for each grid goes to
      the loop's copy of it, so only the sort has an effect. */
  method EvaluateGridsAsWritten(grids: seq<LineGrid>, solve: Solver, length: Length, image: Image)
    returns (result: seq<LineGrid>)
    requires forall g :: g in grids ==> Framed(g)
    ensures ReSorted(grids, result)
  {
    for i := 0 to |grids|
    {
      var grid := grids[i];
      assert grid in grids;
      grid := RescoreGrid(grid, solve, length, image);
    }
    result := SortedCopyDesc(grids, Rank);
  }

  /** On a blank image the as-written evaluation keeps a grid's pairing
      score of 1, where scoring by ink gives 0. */
  lemma AsWrittenIgnoresInk(g: LineGrid, solve: Solver, raster: Rasterizer, length: Length, image: Image)
    requires Framed(g) && g.score == 1.0
    requires forall p :: !image(p)
    ensures forall r: seq<LineGrid> :: ReSorted([g], r) ==> r == [g] && r[0].score == 1.0
    ensures Rescore(g, solve, raster, length, image).score == 0.0
  {
    forall r | ReSorted([g], r)
      ensures r == [g]
    {
      PermutationMembers(r, [g]);
      assert r[0] in [g];
    }
    BlankScoresZero(Fragments(g, solve), raster, length, image);
  }
}
