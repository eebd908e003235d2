/**
 * The choice of the grid in the Python copy (grid.py): `evaluate_grids`
 * keeps the grid with the least ink under its fragments, and `find_grid`
 * runs the search on every large enough cluster of lines and keeps the
 * cluster result with the highest score.
 *
 * The ink count (drawing the fragments and summing the masked image) is a
 * parameter. A cluster's lines are split by orientation with the rule of
 * the Go copy, which the Python copy imports but does not define.
 */
module GridPyFind {
  import opened Wrappers
  import opened Geometry
  import opened Seqs
  import opened Angles
  import opened Buckets
  import opened GridPySearch

  /** A `(score, grid)` pair; `None` is Python's `None`. */
  datatype Best = Best(score: int, grid: Option<PyGrid>)

  /** The starting score of `evaluate_grids`: `10**10`. */
  const NoGrid: int := 10_000_000_000

  /** The ink under a grid's fragments: `masked_image.sum()`. */
  type Ink = PyGrid -> int

  // ---------------------------------------------------------------------
  // evaluate_grids

  /** `min(best, (score, grid))`: a lower score replaces the current best.
      On an equal score Python compares the grids; here the current best
      stays. */
  function Lower(best: Best, score: int, g: PyGrid): Best
  {
    if score < best.score then Best(score, Some(g)) else best
  }

  /** The loop of `evaluate_grids` over the grids, from best on. */
  function EvaluateFrom(grids: seq<PyGrid>, ink: Ink, best: Best): Best
  {
    if |grids| == 0 then best
    else Lower(EvaluateFrom(grids[..|grids| - 1], ink, best), ink(grids[|grids| - 1]), grids[|grids| - 1])
  }

  /** What `evaluate_grids` returns. */
  function EvaluateGridsPy(grids: seq<PyGrid>, ink: Ink): Best
  {
    EvaluateFrom(grids, ink, Best(NoGrid, None))
  }

  method EvaluateGridsLoop(grids: seq<PyGrid>, ink: Ink) returns (best: Best)
    ensures best == EvaluateGridsPy(grids, ink)
  {
    best := Best(NoGrid, None);
    for i := 0 to |grids|
      invariant best == EvaluateGridsPy(grids[..i], ink)
    {
      var grid := grids[i];
      var score := ink(grid);
      assert grids[..i + 1][..i] == grids[..i];
      best := Lower(best, score, grid);
    }
    assert grids[..|grids|] == grids;
  }

  lemma {:induction false} EvaluateFromMeaning(grids: seq<PyGrid>, ink: Ink, start: Best)
    requires start.grid.None?
    ensures var best := EvaluateFrom(grids, ink, start);
      best.score <= start.score &&
      (forall g :: g in grids ==> best.score <= ink(g)) &&
      (best.grid.Some? ==> best.grid.value in grids && best.score == ink(best.grid.value) && best.score < start.score) &&
      (best.grid.None? <==> best == start)
  {
    if |grids| > 0 {
      var init := grids[..|grids| - 1];
      EvaluateFromMeaning(init, ink, start);
      assert forall g :: g in grids ==> g in init || g == grids[|grids| - 1];
    }
  }

  /**
   * `evaluate_grids` returns a grid of least ink, with that ink; no grid
   * (and 10**10) exactly when every grid has at least 10**10 ink, an empty
   * list included.
   */
  lemma EvaluateGridsMeaning(grids: seq<PyGrid>, ink: Ink)
    ensures var best := EvaluateGridsPy(grids, ink);
      best.score <= NoGrid &&
      (forall g :: g in grids ==> best.score <= ink(g)) &&
      (best.grid.Some? ==> best.grid.value in grids && best.score == ink(best.grid.value)) &&
      (best.grid.None? <==> best.score == NoGrid) &&
      (best.grid.None? <==> forall g :: g in grids ==> ink(g) >= NoGrid)
  {
    EvaluateFromMeaning(grids, ink, Best(NoGrid, None));
  }

  // ---------------------------------------------------------------------
  // find_grid

  /** A cluster of lines: the bucket's angle and its lines. */
  type Cluster = (real, seq<Line>)

  /** The two families of a cluster: (vertical, horizontal). */
  function Families(c: Cluster): (seq<Line>, seq<Line>)
  {
    (Filter(c.1, SimilarTo(c.0)), Filter(c.1, NotSimilarTo(c.0)))
  }

  /** A cluster `find_grid` searches: twenty lines or more, and ten or more
      in each family. */
  predicate Considered(c: Cluster)
  {
    |c.1| >= 20 && |Families(c).0| >= 10 && |Families(c).1| >= 10
  }

  /** What the search demands of every cluster it runs on. */
  ghost predicate Searchable(clusters: seq<Cluster>, solve: Solver, dist: PyDistance, iter: DictOrder)
  {
    Permutes(iter) &&
    forall c :: c in clusters && Considered(c) ==> PyFamilies(Families(c).1, Families(c).0, solve, dist)
  }

  /** The grids `possible_grids` proposes for a searched cluster. */
  function ClusterGrids(c: Cluster, solve: Solver, dist: PyDistance, iter: DictOrder): seq<PyGrid>
    requires Considered(c) && PyFamilies(Families(c).1, Families(c).0, solve, dist)
  {
    PyPossibleGrids(Families(c).1, Families(c).0, solve, dist, iter)
  }

  /** `max(best, (score, grid))`: a higher score replaces the current best.
      On an equal score Python compares the grids, `None` below any grid;
      here a grid replaces `None` and otherwise the current best stays. */
  function Higher(best: Best, b: Best): Best
  {
    if b.score > best.score || (b.score == best.score && best.grid.None? && b.grid.Some?) then b else best
  }

  /** The selection `find_grid` applies to the results of the clusters it
      searches, from (0, None) on. */
  function SelectAsWritten(results: seq<Best>): Best
  {
    if |results| == 0 then Best(0, None)
    else Higher(SelectAsWritten(results[..|results| - 1]), results[|results| - 1])
  }

  /** The selection returns the highest score, never below 0, and it is one
      of the results or the starting (0, None). */
  lemma {:induction false} SelectMeaning(results: seq<Best>)
    ensures var best := SelectAsWritten(results);
      best.score >= 0 &&
      (forall r :: r in results ==> best.score >= r.score) &&
      (best == Best(0, None) || best in results) &&
      (|results| == 0 ==> best == Best(0, None))
  {
    if |results| > 0 {
      var init := results[..|results| - 1];
      SelectMeaning(init);
      assert forall r :: r in results ==> r in init || r == results[|results| - 1];
    }
  }

  /** The grids proposed for a cluster: none when `find_grid` skips it. */
  function Proposed(c: Cluster, solve: Solver, dist: PyDistance, iter: DictOrder): seq<PyGrid>
    requires Considered(c) ==> PyFamilies(Families(c).1, Families(c).0, solve, dist)
  {
    if Considered(c) then ClusterGrids(c, solve, dist, iter) else []
  }

  /** Split a cluster by orientation and, when both families are large
      enough, search it. */
  method ProposeGrids(c: Cluster, solve: Solver, dist: PyDistance, iter: DictOrder) returns (searched: bool, grids: seq<PyGrid>)
    requires Permutes(iter) && (Considered(c) ==> PyFamilies(Families(c).1, Families(c).0, solve, dist))
    ensures searched == Considered(c) && grids == Proposed(c, solve, dist, iter)
  {
    var (angle, lineClass) := c;
    if |lineClass| < 20 {
      return false, [];
    }
    var vertical, horizontal := LinesWithSimilarAngle(lineClass, angle);
    assert (vertical, horizontal) == Families(c);
    if |vertical| < 10 || |horizontal| < 10 {
      return false, [];
    }
    assert Considered(c);
    assert PyFamilies(horizontal, vertical, solve, dist);
    searched := true;
    grids := PossibleGridsPy(horizontal, vertical, solve, dist, iter);
  }

  /** The result of one cluster: none when `find_grid` skips it. */
  function ClusterResult(c: Cluster, solve: Solver, dist: PyDistance, iter: DictOrder, ink: Ink): seq<Best>
    requires Considered(c) ==> PyFamilies(Families(c).1, Families(c).0, solve, dist)
  {
    if Considered(c) then [EvaluateGridsPy(ClusterGrids(c, solve, dist, iter), ink)] else []
  }

  /** One pass of the loop of `find_grid`: split the cluster, search it and
      evaluate its grids. */
  method SearchCluster(c: Cluster, solve: Solver, dist: PyDistance, iter: DictOrder, ink: Ink) returns (found: seq<Best>)
    requires Permutes(iter) && (Considered(c) ==> PyFamilies(Families(c).1, Families(c).0, solve, dist))
    ensures found == ClusterResult(c, solve, dist, iter, ink)
  {
    var searched, grids := ProposeGrids(c, solve, dist, iter);
    if !searched {
      return [];
    }
    var result := EvaluateGridsLoop(grids, ink);
    found := [result];
  }

  /** The result of every cluster `find_grid` searches, in cluster order. */
  function Results(clusters: seq<Cluster>, solve: Solver, dist: PyDistance, iter: DictOrder, ink: Ink): seq<Best>
    requires Searchable(clusters, solve, dist, iter)
  {
    if |clusters| == 0 then []
    else
      var init, c := clusters[..|clusters| - 1], clusters[|clusters| - 1];
      assert forall d :: d in init ==> d in clusters;
      Results(init, solve, dist, iter, ink) + ClusterResult(c, solve, dist, iter, ink)
  }

  lemma {:induction false} ResultsMembers(clusters: seq<Cluster>, solve: Solver, dist: PyDistance, iter: DictOrder, ink: Ink)
    requires Searchable(clusters, solve, dist, iter)
    ensures forall c :: c in clusters && Considered(c) ==>
      EvaluateGridsPy(ClusterGrids(c, solve, dist, iter), ink) in Results(clusters, solve, dist, iter, ink)
    ensures forall r :: r in Results(clusters, solve, dist, iter, ink) ==>
      exists c :: c in clusters && Considered(c) && r == EvaluateGridsPy(ClusterGrids(c, solve, dist, iter), ink)
  {
    if |clusters| > 0 {
      var init, c := clusters[..|clusters| - 1], clusters[|clusters| - 1];
      assert forall d :: d in init ==> d in clusters;
      assert forall d :: d in clusters ==> d in init || d == c;
      ResultsMembers(init, solve, dist, iter, ink);
    }
  }

  lemma {:induction false} ResultsNone(clusters: seq<Cluster>, solve: Solver, dist: PyDistance, iter: DictOrder, ink: Ink)
    requires Searchable(clusters, solve, dist, iter)
    requires forall c :: c in clusters ==> !Considered(c)
    ensures Results(clusters, solve, dist, iter, ink) == []
  {
    if |clusters| > 0 {
      var init := clusters[..|clusters| - 1];
      assert forall d :: d in init ==> d in clusters;
      assert clusters[|clusters| - 1] in clusters;
      ResultsNone(init, solve, dist, iter, ink);
    }
  }

  lemma ClusterStep(clusters: seq<Cluster>, i: int, solve: Solver, dist: PyDistance, iter: DictOrder, ink: Ink)
    requires Searchable(clusters, solve, dist, iter) && 0 <= i < |clusters|
    ensures Searchable(clusters[..i], solve, dist, iter) && Searchable(clusters[..i + 1], solve, dist, iter)
    ensures Considered(clusters[i]) ==> PyFamilies(Families(clusters[i]).1, Families(clusters[i]).0, solve, dist)
    ensures Results(clusters[..i + 1], solve, dist, iter, ink) ==
      Results(clusters[..i], solve, dist, iter, ink) + ClusterResult(clusters[i], solve, dist, iter, ink)
    ensures AllGrids(clusters[..i + 1], solve, dist, iter) ==
      AllGrids(clusters[..i], solve, dist, iter) + Proposed(clusters[i], solve, dist, iter)
  {
    assert clusters[..i + 1][..i] == clusters[..i];
    assert clusters[i] in clusters;
    assert forall d :: d in clusters[..i + 1] ==> d in clusters;
  }

  /** What `find_grid` returns, as written. */
  function FindGridPy(clusters: seq<Cluster>, solve: Solver, dist: PyDistance, iter: DictOrder, ink: Ink): Best
    requires Searchable(clusters, solve, dist, iter)
  {
    SelectAsWritten(Results(clusters, solve, dist, iter, ink))
  }

  /** `find_grid` from the clusters on: split, search, evaluate, keep the
      maximum. */
  method FindGridLoop(clusters: seq<Cluster>, solve: Solver, dist: PyDistance, iter: DictOrder, ink: Ink) returns (best: Best)
    requires Searchable(clusters, solve, dist, iter)
    ensures best == FindGridPy(clusters, solve, dist, iter, ink)
  {
    best := Best(0, None);
    for i := 0 to |clusters|
      invariant Searchable(clusters[..i], solve, dist, iter)
      invariant best == SelectAsWritten(Results(clusters[..i], solve, dist, iter, ink))
    {
      ClusterStep(clusters, i, solve, dist, iter, ink);
      ghost var before := Results(clusters[..i], solve, dist, iter, ink);
      var found := SearchCluster(clusters[i], solve, dist, iter, ink);
      if |found| == 1 {
        assert (before + found)[..|before|] == before;
        assert SelectAsWritten(before + found) == Higher(SelectAsWritten(before), found[0]);
        best := Higher(best, found[0]);
      } else {
        assert before + found == before;
      }
    }
    assert clusters[..|clusters|] == clusters;
  }

  /**
   * `find_grid` returns the highest of the searched clusters' results,
   * never below 0; with no cluster searched it is (0, None); a grid it
   * returns is one `possible_grids` proposed for a searched cluster, and
   * the score is that grid's ink.
   */
  lemma FindGridPyMeaning(clusters: seq<Cluster>, solve: Solver, dist: PyDistance, iter: DictOrder, ink: Ink)
    requires Searchable(clusters, solve, dist, iter)
    ensures var best := FindGridPy(clusters, solve, dist, iter, ink);
      best.score >= 0 &&
      (forall c :: c in clusters && Considered(c) ==>
        best.score >= EvaluateGridsPy(ClusterGrids(c, solve, dist, iter), ink).score) &&
      ((forall c :: c in clusters ==> !Considered(c)) ==> best == Best(0, None)) &&
      (best.grid.Some? ==> (best.score == ink(best.grid.value) &&
        exists c :: c in clusters && Considered(c) && best.grid.value in ClusterGrids(c, solve, dist, iter)))
  {
    var results := Results(clusters, solve, dist, iter, ink);
    SelectMeaning(results);
    ResultsMembers(clusters, solve, dist, iter, ink);
    if forall c :: c in clusters ==> !Considered(c) {
      ResultsNone(clusters, solve, dist, iter, ink);
    }
    var best := SelectAsWritten(results);
    if best.grid.Some? {
      assert best in results;
      var c :| c in clusters && Considered(c) && best == EvaluateGridsPy(ClusterGrids(c, solve, dist, iter), ink);
      EvaluateGridsMeaning(ClusterGrids(c, solve, dist, iter), ink);
    }
  }

  // ---------------------------------------------------------------------
  // The polarity of the choice

  /**
   * `evaluate_grids` keeps the least ink, but `find_grid` keeps the most:
   * of two clusters whose best grids have ink 5 and 7 it returns the one of
   * ink 7, and a cluster with no grid at all, whose result is
   * (10**10, None), hides the grid of every other cluster.
   */
  lemma PolarityExample(g5: PyGrid, g7: PyGrid)
    ensures SelectAsWritten([Best(5, Some(g5)), Best(7, Some(g7))]) == Best(7, Some(g7))
    ensures SelectAsWritten([Best(5, Some(g5)), Best(NoGrid, None)]) == Best(NoGrid, None)
  {
    assert [Best(5, Some(g5)), Best(7, Some(g7))][..1] == [Best(5, Some(g5))];
    assert [Best(5, Some(g5)), Best(NoGrid, None)][..1] == [Best(5, Some(g5))];
    assert [Best(5, Some(g5))][..0] == [];
    assert SelectAsWritten([Best(5, Some(g5))]) == Best(5, Some(g5));
  }

  /** Every grid of every searched cluster, in cluster order. */
  function AllGrids(clusters: seq<Cluster>, solve: Solver, dist: PyDistance, iter: DictOrder): seq<PyGrid>
    requires Searchable(clusters, solve, dist, iter)
  {
    if |clusters| == 0 then []
    else
      var init, c := clusters[..|clusters| - 1], clusters[|clusters| - 1];
      assert forall d :: d in init ==> d in clusters;
      AllGrids(init, solve, dist, iter) + Proposed(c, solve, dist, iter)
  }

  lemma {:induction false} AllGridsMembers(clusters: seq<Cluster>, solve: Solver, dist: PyDistance, iter: DictOrder)
    requires Searchable(clusters, solve, dist, iter)
    ensures forall c, g :: c in clusters && Considered(c) && g in ClusterGrids(c, solve, dist, iter) ==> g in AllGrids(clusters, solve, dist, iter)
    ensures forall g :: g in AllGrids(clusters, solve, dist, iter) ==>
      exists c :: c in clusters && Considered(c) && g in ClusterGrids(c, solve, dist, iter)
  {
    if |clusters| > 0 {
      var init, c := clusters[..|clusters| - 1], clusters[|clusters| - 1];
      assert forall d :: d in init ==> d in clusters;
      assert forall d :: d in clusters ==> d in init || d == c;
      AllGridsMembers(init, solve, dist, iter);
    }
  }

  /** The choice with one polarity: the least ink over the grids of every
      searched cluster. */
  function FindGridLeastInk(clusters: seq<Cluster>, solve: Solver, dist: PyDistance, iter: DictOrder, ink: Ink): Best
    requires Searchable(clusters, solve, dist, iter)
  {
    EvaluateGridsPy(AllGrids(clusters, solve, dist, iter), ink)
  }

  /** The corrected choice returns a grid of a searched cluster whose ink is
      no more than that of any grid of any searched cluster. */
  lemma FindGridLeastInkMeaning(clusters: seq<Cluster>, solve: Solver, dist: PyDistance, iter: DictOrder, ink: Ink)
    requires Searchable(clusters, solve, dist, iter)
    ensures var best := FindGridLeastInk(clusters, solve, dist, iter, ink);
      (forall c, g :: c in clusters && Considered(c) && g in ClusterGrids(c, solve, dist, iter) ==> best.score <= ink(g)) &&
      (best.grid.Some? ==> (best.score == ink(best.grid.value) &&
        exists c :: c in clusters && Considered(c) && best.grid.value in ClusterGrids(c, solve, dist, iter)))
  {
    LeastInkBound(clusters, solve, dist, iter, ink);
    LeastInkFound(clusters, solve, dist, iter, ink);
  }

  lemma LeastInkBound(clusters: seq<Cluster>, solve: Solver, dist: PyDistance, iter: DictOrder, ink: Ink)
    requires Searchable(clusters, solve, dist, iter)
    ensures forall c, g :: c in clusters && Considered(c) && g in ClusterGrids(c, solve, dist, iter) ==>
      FindGridLeastInk(clusters, solve, dist, iter, ink).score <= ink(g)
  {
    var all := AllGrids(clusters, solve, dist, iter);
    AllGridsMembers(clusters, solve, dist, iter);
    EvaluateGridsMeaning(all, ink);
  }

  lemma LeastInkFound(clusters: seq<Cluster>, solve: Solver, dist: PyDistance, iter: DictOrder, ink: Ink)
    requires Searchable(clusters, solve, dist, iter)
    ensures var best := FindGridLeastInk(clusters, solve, dist, iter, ink);
      best.grid.Some? ==> (best.score == ink(best.grid.value) &&
        exists c :: c in clusters && Considered(c) && best.grid.value in ClusterGrids(c, solve, dist, iter))
  {
    var all := AllGrids(clusters, solve, dist, iter);
    var best := FindGridLeastInk(clusters, solve, dist, iter, ink);
    AllGridsMembers(clusters, solve, dist, iter);
    EvaluateGridsMeaning(all, ink);
    if best.grid.Some? {
      assert best.grid.value in all;
    }
  }

  /** The corrected `find_grid`. */
  method FindGridCorrected(clusters: seq<Cluster>, solve: Solver, dist: PyDistance, iter: DictOrder, ink: Ink) returns (best: Best)
    requires Searchable(clusters, solve, dist, iter)
    ensures best == FindGridLeastInk(clusters, solve, dist, iter, ink)
  {
    var grids: seq<PyGrid> := [];
    for i := 0 to |clusters|
      invariant Searchable(clusters[..i], solve, dist, iter)
      invariant grids == AllGrids(clusters[..i], solve, dist, iter)
    {
      ClusterStep(clusters, i, solve, dist, iter, ink);
      var _, found := ProposeGrids(clusters[i], solve, dist, iter);
      grids := grids + found;
    }
    assert clusters[..|clusters|] == clusters;
    best := EvaluateGridsLoop(grids, ink);
  }
}
