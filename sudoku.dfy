/**
 * Locating the puzzle (sudoku.go): `NewSudoku` turns the Hough lines of the
 * pre-processed image into the best grid of ten by ten lines, and a
 * recognised sudoku gives the twenty fragments of its `Overlay` and the four
 * corners its `Extracted` view is warped from.
 *
 * The Hough voting, the neural-network pass `nnGrid`, `extractCells`, the
 * drawing and the perspective warp are not part of this model: `NewSudoku`
 * takes the lines the Hough transform found, `Overlay` returns the fragments
 * it would draw and `Extracted` the corner correspondence it would warp by.
 */
module Sudoku {
  import opened Wrappers
  import opened Geometry
  import opened Seqs
  import opened Dedup
  import opened Buckets
  import opened GridMatch
  import opened GridPairs
  import opened Bresenham
  import opened GridEval
  import opened GridPyFind

  // ---------------------------------------------------------------------
  // The buckets of NewSudoku

  /** `bucketSize := 90 / 5` and its half, the step between centres. */
  const BucketSize: nat := 90 / 5
  const BucketStep: nat := BucketSize / 2

  /** The buckets `NewSudoku` sorts lines into: 18 degrees wide, every 9
      degrees, each with its orthogonal complement. */
  function SudokuBuckets(): map<int, seq<Range>>
  {
    AngleBuckets(BucketSize, BucketStep, true)
  }

  /** The bucket parameters, and the centres the corrected loop gives for
      them: every 9 degrees from 0 to 81. The loop as written stops at 72
      (`Buckets.AsWrittenPipelineExample`). */
  lemma SudokuBucketsShape()
    ensures BucketSize == 18 && BucketStep == 9
    ensures forall c :: c in SudokuBuckets() <==> c in [0, 9, 18, 27, 36, 45, 54, 63, 72, 81]
    ensures forall c :: c in SudokuBuckets() ==> SudokuBuckets()[c] == BucketRanges(c, 18, true)
  {
    AngleBucketsContents(BucketSize, BucketStep, true);
    assert Centres(0, 9, 81) == [0, 9, 18, 27, 36, 45, 54, 63, 72, 81];
  }

  /** A bucket centre as the angle, in radians, that lines are compared
      with. */
  function Radians(degrees: int): real
  {
    degrees as real * Pi / 180.0
  }

  /** The lines of bucket `c` and its angle. */
  function ClusterAt(c: int, lines: seq<Line>): Cluster
    requires c in SudokuBuckets()
  {
    (Radians(c), Matches(SudokuBuckets()[c], lines))
  }

  /** What `possibleGrids` demands of the two families of every bucket the
      search reaches. */
  ghost predicate Searchable(lines: seq<Line>, solve: Solver, dist: Distance)
  {
    forall c :: c in SudokuBuckets() && Considered(ClusterAt(c, lines)) ==>
      Arranged(Families(ClusterAt(c, lines)).1, Families(ClusterAt(c, lines)).0, solve, dist)
  }

  /** Some bucket holds at least twenty lines, ten or more on each side. */
  predicate SomeConsidered(lines: seq<Line>)
  {
    exists c :: c in SudokuBuckets() && Considered(ClusterAt(c, lines))
  }

  /** A grid `possibleGrids` can propose. */
  predicate Shaped(g: LineGrid)
  {
    |g.horizontal| == 10 && |g.vertical| == 10 && 0.64 <= g.score <= 1.0
  }

  /** What one call of `possibleGrids` on the families of `c` gives, with
      the families sorted by distance and the best groups of each side as
      witnesses. */
  ghost predicate Proposed(c: Cluster, solve: Solver, dist: Distance, grids: seq<LineGrid>,
                           byH: seq<Line>, byV: seq<Line>, linesH: seq<ScoredLines>, linesV: seq<ScoredLines>)
  {
    && ByDistance(byH) && multiset(byH) == multiset(Families(c).1)
    && ByDistance(byV) && multiset(byV) == multiset(Families(c).0)
    && BestGroups(linesH, byH, byV, 3, solve, dist) && BestGroups(linesV, byV, byH, 3, solve, dist)
    && multiset(grids) == multiset(Pairs(linesH, linesV)) && SortedDesc(grids, Rank)
  }

  /** The grids one visited bucket adds: what `possibleGrids` proposes for
      it when it is large enough, and nothing otherwise. */
  ghost predicate FoundIn(c: Cluster, solve: Solver, dist: Distance, grids: seq<LineGrid>)
  {
    if Considered(c) then
      exists byH, byV, linesH, linesV :: Proposed(c, solve, dist, grids, byH, byV, linesH, linesV)
    else
      grids == []
  }

  /** The grids of the buckets, one after the other. */
  function Flatten(found: seq<seq<LineGrid>>): seq<LineGrid>
  {
    if found == [] then [] else Flatten(found[..|found| - 1]) + found[|found| - 1]
  }

  /** The map `putLinesIntoBuckets` gives for the sudoku buckets: every key
      holds that bucket's non-empty matches, every non-empty match list is
      held by some key, and no two keys hold the same list. */
  predicate Bucketed(bucketed: map<int, seq<Line>>, lines: seq<Line>)
  {
    && (forall c :: c in bucketed ==>
      c in SudokuBuckets() && bucketed[c] == Matches(SudokuBuckets()[c], lines) && bucketed[c] != [])
    && (forall c :: c in SudokuBuckets() && Matches(SudokuBuckets()[c], lines) != [] ==>
      exists c' :: c' in bucketed && bucketed[c'] == Matches(SudokuBuckets()[c], lines))
    && (forall c, c' :: c in bucketed && c' in bucketed && c != c' ==> bucketed[c] != bucketed[c'])
  }

  /** What visiting `angle` adds: a key of `bucketed` adds what `FoundIn`
      says, any other angle nothing. */
  ghost predicate Adds(bucketed: map<int, seq<Line>>, angle: int, lines: seq<Line>,
                       solve: Solver, dist: Distance, more: seq<LineGrid>)
    requires forall c :: c in bucketed ==> c in SudokuBuckets()
  {
    if angle in bucketed then FoundIn(ClusterAt(angle, lines), solve, dist, more) else more == []
  }

  /** Bucket by bucket in the visiting order `order`, what each angle adds. */
  ghost predicate VisitedAll(bucketed: map<int, seq<Line>>, order: seq<int>, lines: seq<Line>,
                             solve: Solver, dist: Distance, found: seq<seq<LineGrid>>)
    requires forall c :: c in bucketed ==> c in SudokuBuckets()
  {
    |found| == |order| && forall i :: 0 <= i < |order| ==> Adds(bucketed, order[i], lines, solve, dist, found[i])
  }

  /** Visiting one more angle extends the record by what that angle adds. */
  lemma VisitedStep(bucketed: map<int, seq<Line>>, order: seq<int>, i: nat, lines: seq<Line>,
                    solve: Solver, dist: Distance, found: seq<seq<LineGrid>>, more: seq<LineGrid>)
    requires forall c :: c in bucketed ==> c in SudokuBuckets()
    requires i < |order| && VisitedAll(bucketed, order[..i], lines, solve, dist, found)
    requires Adds(bucketed, order[i], lines, solve, dist, more)
    ensures VisitedAll(bucketed, order[..i + 1], lines, solve, dist, found + [more])
    ensures Flatten(found + [more]) == Flatten(found) + more
  {
    assert (found + [more])[..|found|] == found;
    forall k | 0 <= k < i + 1
      ensures order[..i + 1][k] == order[k] && (k < i ==> order[..i][k] == order[k])
    {
    }
  }

  /** A grid is among the flattened grids exactly when some bucket's
      grids hold it. */
  lemma {:induction false} FlattenMembers(found: seq<seq<LineGrid>>, g: LineGrid)
    ensures g in Flatten(found) <==> exists i :: 0 <= i < |found| && g in found[i]
  {
    if found != [] {
      var n := |found| - 1;
      FlattenMembers(found[..n], g);
      if g in Flatten(found) && g !in found[n] {
        var i :| 0 <= i < n && g in found[..n][i];
        assert found[..n][i] == found[i];
      }
      if exists i :: 0 <= i < |found| && g in found[i] {
        var i :| 0 <= i < |found| && g in found[i];
        if i < n {
          assert found[..n][i] == found[i];
        }
      }
    }
  }

  /** Every grid collected comes from a visited bucket that passes the size
      filters, and every grid such a bucket proposes is collected. */
  lemma CandidateSources(bucketed: map<int, seq<Line>>, order: seq<int>, lines: seq<Line>,
                         solve: Solver, dist: Distance, found: seq<seq<LineGrid>>, g: LineGrid)
    requires forall c :: c in bucketed ==> c in SudokuBuckets()
    requires VisitedAll(bucketed, order, lines, solve, dist, found)
    ensures g in Flatten(found) <==>
      exists i :: 0 <= i < |order| && order[i] in bucketed && Considered(ClusterAt(order[i], lines)) && g in found[i]
  {
    FlattenMembers(found, g);
    if g in Flatten(found) {
      var i :| 0 <= i < |found| && g in found[i];
      assert Adds(bucketed, order[i], lines, solve, dist, found[i]);
    }
  }

  // ---------------------------------------------------------------------
  // The loop over the buckets

  /**
   * The body of the loop over the buckets: a bucket of fewer than twenty
   * lines, or one whose similar (vertical) or other (horizontal) family has
   * fewer than ten, is skipped; the others add what `possibleGrids` finds.
   */
  method BucketGrids(angle: int, lineClass: seq<Line>, solve: Solver, dist: Distance)
    returns (grids: seq<LineGrid>)
    requires var c := (Radians(angle), lineClass);
      Considered(c) ==> Arranged(Families(c).1, Families(c).0, solve, dist)
    ensures FoundIn((Radians(angle), lineClass), solve, dist, grids)
    ensures grids != [] ==> Considered((Radians(angle), lineClass))
    ensures |grids| <= 9 && forall g :: g in grids ==> Shaped(g)
  {
    if |lineClass| < 20 {
      return [];
    }
    var vertical, horizontal := LinesWithSimilarAngle(lineClass, Radians(angle));
    if |vertical| < 10 || |horizontal| < 10 {
      return [];
    }
    assert (vertical, horizontal) == Families((Radians(angle), lineClass));
    ghost var byH, byV, linesH, linesV;
    grids, byH, byV, linesH, linesV := PossibleGrids(horizontal, vertical, solve, dist);
    assert Proposed((Radians(angle), lineClass), solve, dist, grids, byH, byV, linesH, linesV);
  }

  /**
   * The loop of `NewSudoku` over the bucketed lines. Go visits the map in
   * an unspecified order; `order` is that order, and angles without lines
   * are passed over. `found` holds what each visited angle adds, and the
   * result is all of it in visiting order.
   */
  method CollectGrids(bucketed: map<int, seq<Line>>, order: seq<int>, lines: seq<Line>, solve: Solver, dist: Distance)
    returns (grids: seq<LineGrid>, ghost found: seq<seq<LineGrid>>)
    requires forall c :: c in bucketed ==> c in SudokuBuckets() && bucketed[c] == Matches(SudokuBuckets()[c], lines)
    requires Searchable(lines, solve, dist)
    ensures VisitedAll(bucketed, order, lines, solve, dist, found) && grids == Flatten(found)
    ensures grids != [] ==> SomeConsidered(lines)
    ensures |grids| <= 9 * |order| && forall g :: g in grids ==> Shaped(g) && Framed(g)
  {
    grids, found := [], [];
    for i := 0 to |order|
      invariant VisitedAll(bucketed, order[..i], lines, solve, dist, found) && grids == Flatten(found)
      invariant grids != [] ==> SomeConsidered(lines)
      invariant |grids| <= 9 * i && forall g :: g in grids ==> Shaped(g) && Framed(g)
    {
      var angle := order[i];
      var more: seq<LineGrid> := [];
      if angle in bucketed {
        assert ClusterAt(angle, lines) == (Radians(angle), bucketed[angle]);
        more := BucketGrids(angle, bucketed[angle], solve, dist);
      }
      VisitedStep(bucketed, order, i, lines, solve, dist, found, more);
      found := found + [more];
      grids := grids + more;
    }
    assert order[..|order|] == order;
  }

  // ---------------------------------------------------------------------
  // lineSudoku

  /** The zero `lineGrid`. */
  const ZeroGrid: LineGrid := LineGrid([], [], 0.0)

  /** `lineSudoku`: the pre-processed image, the grid found on it and
      whether one was. */
  class LineSudoku {
    var preProcessed: Image
    var grid: LineGrid
    var recognised: bool

    /** A recognised sudoku has a grid of ten by ten lines. */
    predicate Valid()
      reads this
    {
      recognised ==> |grid.horizontal| == 10 && |grid.vertical| == 10
    }

    constructor(preProcessed: Image)
      ensures this.preProcessed == preProcessed && grid == ZeroGrid && !recognised
    {
      this.preProcessed := preProcessed;
      grid := ZeroGrid;
      recognised := false;
    }

    /** A recognised sudoku holding `grid`. */
    constructor Recognised(preProcessed: Image, grid: LineGrid)
      requires |grid.horizontal| == 10 && |grid.vertical| == 10
      ensures this.preProcessed == preProcessed && this.grid == grid && recognised && Valid()
    {
      this.preProcessed := preProcessed;
      this.grid := grid;
      recognised := true;
    }

    /** `Overlay`: nothing unless recognised; otherwise the ten horizontal
        fragments, then the ten vertical ones. */
    method Overlay(solve: Solver) returns (fragments: Option<seq<Fragment>>)
      requires Valid()
      ensures !recognised <==> fragments == None
      ensures recognised ==> fragments == Some(OverlayFragments(grid, solve))
    {
      if !recognised {
        return None;
      }
      var g := grid;
      var h, v := g.horizontal, g.vertical;
      var fs := new Fragment[20];
      for i := 0 to 10
        invariant forall t :: 0 <= t < i ==> fs[t] == Across(g, solve, t)
        invariant forall t :: 0 <= t < i ==> fs[t + 10] == Down(g, solve, t)
      {
        var (_, hStart) := Intersection(solve, h[i], v[0]);
        var (_, hEnd) := Intersection(solve, h[i], v[9]);
        fs[i] := Fragment(hStart, hEnd);
        var (_, vStart) := Intersection(solve, h[0], v[i]);
        var (_, vEnd) := Intersection(solve, h[9], v[i]);
        fs[i + 10] := Fragment(vStart, vEnd);
      }
      assert forall k :: 10 <= k < 20 ==> fs[k] == fs[(k - 10) + 10];
      assert fs[..] == OverlayFragments(g, solve);
      fragments := Some(fs[..]);
    }

    /** `Extracted`: nothing unless recognised; otherwise the grid's corners
        and the corners of the `imageSize` square they are warped to. */
    method Extracted(imageSize: int, solve: Solver) returns (warp: Option<(seq<Vec>, seq<Vec>)>)
      requires Valid()
      ensures !recognised <==> warp == None
      ensures recognised ==> warp == Some((Corners(grid, solve), Square(imageSize)))
    {
      if !recognised {
        return None;
      }
      var h, v := grid.horizontal, grid.vertical;
      var (_, p1) := Intersection(solve, h[0], v[0]);
      var (_, p2) := Intersection(solve, h[0], v[9]);
      var (_, p3) := Intersection(solve, h[9], v[9]);
      var (_, p4) := Intersection(solve, h[9], v[0]);
      var src := [ToVec(p1), ToVec(p2), ToVec(p3), ToVec(p4)];
      var size := imageSize as real;
      var dst := [Vec(0.0, 0.0), Vec(size, 0.0), Vec(size, size), Vec(0.0, size)];
      warp := Some((src, dst));
    }
  }

  /**
   * The grids `NewSudoku` chooses from: duplicates removed, the lines put
   * into the 18/9 orthogonal buckets and the grids of every bucket
   * collected. Go visits both maps in an unspecified order; `order` is that
   * order. `bucketed` is the map of lines per bucket and `found` what each
   * bucket adds: the result is exactly the grids `possibleGrids` proposes
   * for every bucket of `bucketed` that passes the size filters.
   */
  method SudokuGrids(houghLines: seq<Line>, width: int, height: int, order: seq<int>, solve: Solver, dist: Distance)
    returns (grids: seq<LineGrid>, ghost bucketed: map<int, seq<Line>>, ghost found: seq<seq<LineGrid>>)
    requires forall c :: c in SudokuBuckets() <==> c in order
    requires forall i, j :: 0 <= i < j < |order| ==> order[i] != order[j]
    requires Searchable(Survivors(houghLines, GoRule(width, height, solve)), solve, dist)
    ensures var lines := Survivors(houghLines, GoRule(width, height, solve));
      && Bucketed(bucketed, lines)
      && VisitedAll(bucketed, order, lines, solve, dist, found) && grids == Flatten(found)
    ensures grids != [] ==> SomeConsidered(Survivors(houghLines, GoRule(width, height, solve)))
    ensures |grids| <= 9 * |order| && forall g :: g in grids ==> Shaped(g) && Framed(g)
  {
    var lines := RemoveDuplicateLines(houghLines, width, height, solve);
    var buckets := GenerateAngleBuckets(BucketSize, BucketStep, true);
    var byAngle := PutLinesIntoBuckets(buckets, lines, order);
    bucketed := byAngle;
    grids, found := CollectGrids(byAngle, order, lines, solve, dist);
  }

  /**
   * `NewSudoku` from the Hough lines on: the grids of `SudokuGrids` scored
   * again by the ink of the pre-processed image. With no grid the result is
   * `ErrNotRecognised` and an unrecognised sudoku; otherwise the sudoku
   * holds the best-scoring grid. `candidates` are the grids of
   * `SudokuGrids`, bucket by bucket as `found` records them.
   */
  method NewSudoku(houghLines: seq<Line>, width: int, height: int, order: seq<int>, preProcessed: Image,
                   solve: Solver, dist: Distance, length: Length)
    returns (s: LineSudoku, err: Option<Error>, ghost candidates: seq<LineGrid>,
             ghost bucketed: map<int, seq<Line>>, ghost found: seq<seq<LineGrid>>)
    requires forall c :: c in SudokuBuckets() <==> c in order
    requires forall i, j :: 0 <= i < j < |order| ==> order[i] != order[j]
    requires Searchable(Survivors(houghLines, GoRule(width, height, solve)), solve, dist)
    ensures var lines := Survivors(houghLines, GoRule(width, height, solve));
      && Bucketed(bucketed, lines)
      && VisitedAll(bucketed, order, lines, solve, dist, found) && candidates == Flatten(found)
    ensures fresh(s) && s.Valid() && s.preProcessed == preProcessed
    ensures err == None <==> s.recognised
    ensures err != None ==> err == Some(ErrNotRecognised) && s.grid == ZeroGrid
    ensures s.recognised <==> candidates != []
    ensures candidates != [] ==> SomeConsidered(Survivors(houghLines, GoRule(width, height, solve)))
    ensures forall g :: g in candidates ==> Shaped(g) && Framed(g)
    ensures s.recognised ==>
      s.grid in Rescored(candidates, solve, Raster, length, preProcessed) &&
      forall g :: g in Rescored(candidates, solve, Raster, length, preProcessed) ==> g.score <= s.grid.score
  {
    var grids;
    grids, bucketed, found := SudokuGrids(houghLines, width, height, order, solve, dist);
    candidates := grids;
    var chosen, best := ChooseGrid(grids, solve, length, preProcessed);
    if chosen {
      s := new LineSudoku.Recognised(preProcessed, best);
      err := None;
    } else {
      s := new LineSudoku(preProcessed);
      err := Some(ErrNotRecognised);
    }
  }

  /**
   * `evaluateGrids` followed by the choice of `grids[0]`: nothing when there
   * are no grids, otherwise the best of the grids scored again.
   */
  method ChooseGrid(grids: seq<LineGrid>, solve: Solver, length: Length, image: Image)
    returns (found: bool, best: LineGrid)
    requires forall g :: g in grids ==> Shaped(g) && Framed(g)
    ensures found <==> grids != []
    ensures found ==> |best.horizontal| == 10 && |best.vertical| == 10
    ensures found ==> best in Rescored(grids, solve, Raster, length, image)
    ensures found ==> forall g :: g in Rescored(grids, solve, Raster, length, image) ==> g.score <= best.score
  {
    var ranked := EvaluateGrids(grids, solve, length, image);
    if |ranked| == 0 {
      return false, ZeroGrid;
    }
    BestFirst(ranked, Rescored(grids, solve, Raster, length, image));
    RescoredShape(grids, solve, length, image, ranked[0]);
    found, best := true, ranked[0];
  }

  /** The head of a list sorted best first, holding the same grids as
      `all`, is one of them and scores at least as high as each. */
  lemma BestFirst(ranked: seq<LineGrid>, all: seq<LineGrid>)
    requires |ranked| > 0 && multiset(ranked) == multiset(all) && SortedDesc(ranked, Rank)
    ensures ranked[0] in all && forall g :: g in all ==> g.score <= ranked[0].score
  {
    assert ranked[0] in multiset(all);
    forall g | g in all
      ensures g.score <= ranked[0].score
    {
      assert g in multiset(ranked);
      var k :| 0 <= k < |ranked| && ranked[k] == g;
      assert Rank(ranked[k]) <= Rank(ranked[0]);
    }
  }

  /** A grid scored again keeps its lines. */
  lemma RescoredShape(grids: seq<LineGrid>, solve: Solver, length: Length, image: Image, g: LineGrid)
    requires forall t :: t in grids ==> Shaped(t) && Framed(t)
    requires g in Rescored(grids, solve, Raster, length, image)
    ensures |g.horizontal| == 10 && |g.vertical| == 10
  {
    var r := Rescored(grids, solve, Raster, length, image);
    var k :| 0 <= k < |r| && r[k] == g;
    assert grids[k] in grids;
  }

  // ---------------------------------------------------------------------
  // Overlay and Extracted

  /** Fragment `i` runs from the crossing of horizontal line `i` with the
      first vertical line to that with the last; fragment `10 + i` from the
      crossing of the first horizontal line with vertical line `i` to that
      of the last. */
  function OverlayFragments(g: LineGrid, solve: Solver): (fs: seq<Fragment>)
    requires |g.horizontal| == 10 && |g.vertical| == 10
    ensures |fs| == 20
  {
    seq(20, k requires 0 <= k < 20 => if k < 10 then Across(g, solve, k) else Down(g, solve, k - 10))
  }

  /** Horizontal line `i` between the first and last vertical lines. */
  function Across(g: LineGrid, solve: Solver, i: int): Fragment
    requires |g.horizontal| == 10 && |g.vertical| == 10 && 0 <= i < 10
  {
    Fragment(Intersection(solve, g.horizontal[i], g.vertical[0]).1, Intersection(solve, g.horizontal[i], g.vertical[9]).1)
  }

  /** Vertical line `i` between the first and last horizontal lines. */
  function Down(g: LineGrid, solve: Solver, i: int): Fragment
    requires |g.horizontal| == 10 && |g.vertical| == 10 && 0 <= i < 10
  {
    Fragment(Intersection(solve, g.horizontal[0], g.vertical[i]).1, Intersection(solve, g.horizontal[9], g.vertical[i]).1)
  }

  /** The solver finds the same crossing whichever line comes first. */
  ghost predicate Symmetric(solve: Solver)
  {
    forall a, b :: solve(a, b) == solve(b, a)
  }

  /**
   * The overlay draws the fragments `evaluateGrids` scored the grid by:
   * the same twenty fragments in the same order, once the crossing does not
   * depend on the order of its two lines.
   */
  lemma OverlayIsScoredFragments(g: LineGrid, solve: Solver)
    requires |g.horizontal| == 10 && |g.vertical| == 10 && Symmetric(solve)
    ensures OverlayFragments(g, solve) == Fragments(g, solve)
  {
    var o, f := OverlayFragments(g, solve), Fragments(g, solve);
    forall i | 0 <= i < 20
      ensures o[i] == f[i]
    {
      var h, v := g.horizontal, g.vertical;
      if i < 10 {
        assert o[i] == Across(g, solve, i);
        assert f[i] == Cut(solve, h[i], v[0], v[9]);
      } else {
        var j := i - 10;
        assert o[i] == Down(g, solve, j);
        assert f[i] == Cut(solve, v[j], h[0], h[9]);
        assert solve(h[0], v[j]) == solve(v[j], h[0]);
        assert solve(h[9], v[j]) == solve(v[j], h[9]);
      }
    }
  }

  /** `newPointF`: a pixel as a point of reals. */
  function ToVec(p: Point): Vec
  {
    Vec(p.x as real, p.y as real)
  }

  /** The four corners of the grid, clockwise from the first crossing:
      H0 x V0, H0 x V9, H9 x V9, H9 x V0. */
  function Corners(g: LineGrid, solve: Solver): (cs: seq<Vec>)
    requires |g.horizontal| == 10 && |g.vertical| == 10
    ensures |cs| == 4
  {
    var h, v := g.horizontal, g.vertical;
    [ToVec(Intersection(solve, h[0], v[0]).1), ToVec(Intersection(solve, h[0], v[9]).1),
     ToVec(Intersection(solve, h[9], v[9]).1), ToVec(Intersection(solve, h[9], v[0]).1)]
  }

  /** The corners of the `size` square, in the same turn as `Corners`. */
  function Square(size: int): (sq: seq<Vec>)
    ensures |sq| == 4
  {
    var s := size as real;
    [Vec(0.0, 0.0), Vec(s, 0.0), Vec(s, s), Vec(0.0, s)]
  }

  /**
   * The extracted corners are the ends of the first and last horizontal
   * fragments of the overlay, and they go to the corners of the square in
   * the same turn: the top edge to the top edge, the bottom to the bottom.
   */
  lemma CornersOnOverlay(g: LineGrid, solve: Solver, size: int)
    requires |g.horizontal| == 10 && |g.vertical| == 10
    ensures var cs, o, sq := Corners(g, solve), OverlayFragments(g, solve), Square(size);
      && cs[0] == ToVec(o[0].start) && cs[1] == ToVec(o[0].end)
      && cs[2] == ToVec(o[9].end) && cs[3] == ToVec(o[9].start)
      && cs[0] == ToVec(o[10].start) && cs[3] == ToVec(o[10].end)
      && cs[1] == ToVec(o[19].start) && cs[2] == ToVec(o[19].end)
      && sq[0].y == sq[1].y && sq[2].y == sq[3].y && sq[0].x == sq[3].x && sq[1].x == sq[2].x
  {
    var o := OverlayFragments(g, solve);
    assert o[10] == Down(g, solve, 0) && o[19] == Down(g, solve, 9);
  }
}
