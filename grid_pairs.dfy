/**
 * Aggregation and pairing of grid.go: `buildScoredLines` runs
 * `linearDistances` against every divider of the other family, groups the
 * candidates by their line list, scores each group by the mean of its
 * candidates' scores and keeps the best `top`; `possibleGrids` pairs the
 * best three horizontal and the best three vertical groups into at most
 * nine grids, best first.
 *
 * Go keys the groups by the text of the line list; here the key is the line
 * list itself.
 */
module GridPairs {
  import opened Wrappers
  import opened Geometry
  import opened Seqs
  import opened GridScore
  import opened GridMatch

  // ---------------------------------------------------------------------
  // Grouping the candidates

  /** What `linearDistances` needs of the primary family against every
      divider: positions along the divider in order. */
  ghost predicate AlignedAlong(primary: seq<Line>, secondary: seq<Line>, solve: Solver, dist: Distance)
  {
    NonNegative(dist) &&
    forall s :: s in secondary ==> |primary| >= 10 ==> NonDecreasing(Positions(primary, s, solve, dist))
  }

  /** The candidates of every divider, in divider order. */
  function AllMatches(primary: seq<Line>, secondary: seq<Line>, solve: Solver, dist: Distance): seq<ScoredLines>
    requires AlignedAlong(primary, secondary, solve, dist)
  {
    if |secondary| == 0 then []
    else
      AllMatches(primary, secondary[..|secondary| - 1], solve, dist) +
      LinearMatches(primary, secondary[|secondary| - 1], solve, dist)
  }

  /** The line list of every candidate, in order. */
  function LineLists(all: seq<ScoredLines>): (ls: seq<seq<Line>>)
    ensures |ls| == |all|
  {
    seq(|all|, i requires 0 <= i < |all| => all[i].lines)
  }

  lemma LineListsSnoc(all: seq<ScoredLines>)
    requires |all| > 0
    ensures LineLists(all) == LineLists(all[..|all| - 1]) + [all[|all| - 1].lines]
  {
  }

  /** The distinct line lists of the candidates, in first-seen order. */
  function Keys(all: seq<ScoredLines>): (keys: seq<seq<Line>>)
    ensures forall k :: k in keys <==> k in LineLists(all)
  {
    if |all| == 0 then []
    else
      var init := Keys(all[..|all| - 1]);
      var last := all[|all| - 1];
      LineListsSnoc(all);
      if last.lines in init then init else init + [last.lines]
  }

  lemma {:induction false} KeysDistinct(all: seq<ScoredLines>)
    ensures Distinct(Keys(all))
  {
    if |all| > 0 {
      KeysDistinct(all[..|all| - 1]);
    }
  }

  /** The scores of the candidates with line list k, in order. */
  function ScoresOf(all: seq<ScoredLines>, k: seq<Line>): (scores: seq<real>)
    ensures |scores| > 0 <==> k in LineLists(all)
  {
    if |all| == 0 then []
    else
      LineListsSnoc(all);
      ScoresOf(all[..|all| - 1], k) + (if all[|all| - 1].lines == k then [all[|all| - 1].score] else [])
  }

  /** Each score of a group is one of its candidates' scores. */
  lemma {:induction false} ScoresOfWithin(all: seq<ScoredLines>, k: seq<Line>)
    requires WellScored(all)
    ensures forall x :: x in ScoresOf(all, k) ==> 0.8 < x <= 1.0
  {
    if |all| > 0 {
      var init := all[..|all| - 1];
      assert forall m :: m in init ==> m in all;
      ScoresOfWithin(init, k);
      assert all[|all| - 1] in all;
    }
  }

  /** A group: its line list and the mean score of its candidates. */
  function Entry(all: seq<ScoredLines>, k: seq<Line>): ScoredLines
    requires k in Keys(all)
  {
    ScoredLines(k, MeanOf(ScoresOf(all, k)).value)
  }

  /** Every group, in first-seen order. */
  function Entries(all: seq<ScoredLines>): (es: seq<ScoredLines>)
    ensures |es| == |Keys(all)|
    ensures forall i :: 0 <= i < |es| ==> es[i] == Entry(all, Keys(all)[i])
  {
    seq(|Keys(all)|, i requires 0 <= i < |Keys(all)| => Entry(all, Keys(all)[i]))
  }

  /** The groups `buildScoredLines` ranks. */
  function Groups(primary: seq<Line>, secondary: seq<Line>, solve: Solver, dist: Distance): seq<ScoredLines>
    requires AlignedAlong(primary, secondary, solve, dist)
  {
    Entries(AllMatches(primary, secondary, solve, dist))
  }

  /** The state the grouping loop keeps: the keys in first-seen order and
      each key's scores. */
  ghost predicate Grouped(all: seq<ScoredLines>, keys: seq<seq<Line>>, scores: map<seq<Line>, seq<real>>)
  {
    keys == Keys(all) &&
    (forall k :: k in scores <==> k in keys) &&
    (forall k :: k in scores ==> scores[k] == ScoresOf(all, k))
  }

  /** The scores after one candidate: its group created empty when new,
      then its score appended. */
  function WithScore(scores: map<seq<Line>, seq<real>>, m: ScoredLines): map<seq<Line>, seq<real>>
  {
    var created := if m.lines in scores then scores else scores[m.lines := []];
    created[m.lines := created[m.lines] + [m.score]]
  }

  /** Adding one candidate to its group keeps the grouping state. */
  lemma GroupOne(all: seq<ScoredLines>, keys: seq<seq<Line>>, scores: map<seq<Line>, seq<real>>, m: ScoredLines)
    requires Grouped(all, keys, scores)
    ensures Grouped(all + [m], if m.lines in scores then keys else keys + [m.lines], WithScore(scores, m))
  {
    var all' := all + [m];
    assert all'[..|all'| - 1] == all;
    var scores' := WithScore(scores, m);
    forall k | k in scores'
      ensures scores'[k] == ScoresOf(all', k)
    {
      if k == m.lines && m.lines !in scores {
        assert ScoresOf(all, k) == [];
      }
    }
  }

  /** The body of the loop of `buildScoredLines`: a new group is created
      and its key appended, then the score is added to the group. */
  method AddOne(ghost all: seq<ScoredLines>, keys0: seq<seq<Line>>, scores0: map<seq<Line>, seq<real>>, found: ScoredLines)
    returns (keys: seq<seq<Line>>, scores: map<seq<Line>, seq<real>>)
    requires Grouped(all, keys0, scores0)
    ensures Grouped(all + [found], keys, scores)
  {
    keys, scores := keys0, scores0;
    GroupOne(all, keys, scores, found);
    if found.lines !in scores {
      scores := scores[found.lines := []];
      keys := keys + [found.lines];
    }
    scores := scores[found.lines := scores[found.lines] + [found.score]];
  }

  // ---------------------------------------------------------------------
  // Facts about the groups

  /** What `linearDistances` promises of each candidate. */
  predicate WellScored(all: seq<ScoredLines>)
  {
    forall m :: m in all ==> |m.lines| == 10 && 0.8 < m.score <= 1.0
  }

  lemma {:induction false} AllMatchesWellScored(primary: seq<Line>, secondary: seq<Line>, solve: Solver, dist: Distance)
    requires AlignedAlong(primary, secondary, solve, dist)
    ensures WellScored(AllMatches(primary, secondary, solve, dist))
    ensures |primary| < 10 ==> AllMatches(primary, secondary, solve, dist) == []
  {
    if |secondary| > 0 {
      var init := secondary[..|secondary| - 1];
      var last := secondary[|secondary| - 1];
      AllMatchesWellScored(primary, init, solve, dist);
      LinearMatchesMeaning(primary, last, solve, dist);
    }
  }

  /** Every group holds ten lines and a score in [0.8, 1], the mean of
      scores in (0.8, 1]. */
  lemma EntriesWellScored(all: seq<ScoredLines>)
    requires WellScored(all)
    ensures forall e :: e in Entries(all) ==> |e.lines| == 10 && 0.8 <= e.score <= 1.0
  {
    forall e | e in Entries(all)
      ensures |e.lines| == 10 && 0.8 <= e.score <= 1.0
    {
      var i :| 0 <= i < |Entries(all)| && Entries(all)[i] == e;
      var k := Keys(all)[i];
      assert k in LineLists(all);
      var scores := ScoresOf(all, k);
      ScoresOfWithin(all, k);
      assert forall t :: 0 <= t < |scores| ==> scores[t] in scores;
      MeanBetween(scores, 0.8, 1.0);
      var j :| 0 <= j < |all| && all[j].lines == k;
      assert all[j] in all;
    }
  }

  /** No two groups share a line list, so a group is determined by its
      lines. */
  lemma EntriesDistinct(all: seq<ScoredLines>)
    ensures Distinct(Entries(all))
    ensures forall d, e :: d in Entries(all) && e in Entries(all) && d.lines == e.lines ==> d == e
  {
    KeysDistinct(all);
  }

  /** The first t of a sorted rearrangement of distinct groups: groups, no
      repeats, and no group left out scores above one kept. */
  lemma TopOfSorted(groups: seq<ScoredLines>, sorted: seq<ScoredLines>, t: nat)
    requires multiset(sorted) == multiset(groups) && SortedDesc(sorted, Score)
    requires Distinct(groups) && t <= |sorted|
    ensures forall r :: r in sorted[..t] ==> r in groups
    ensures forall e :: e in groups && e !in sorted[..t] ==> forall r :: r in sorted[..t] ==> e.score <= r.score
    ensures Distinct(sorted[..t])
  {
    forall r | r in sorted[..t]
      ensures r in groups
    {
      assert r in multiset(sorted);
    }
    forall e, r | e in groups && e !in sorted[..t] && r in sorted[..t]
      ensures e.score <= r.score
    {
      assert e in multiset(sorted);
      var j :| 0 <= j < |sorted| && sorted[j] == e;
      var i :| 0 <= i < t && sorted[..t][i] == r;
    }
    PermutationDistinct(sorted, groups);
  }

  function Score(s: ScoredLines): real
  {
    s.score
  }

  // ---------------------------------------------------------------------
  // buildScoredLines

  /** What `buildScoredLines` promises of its result: at most `top` groups,
      fewer only when there are no more, sorted by non-increasing mean
      score, none left out scoring higher, and no line list twice. */
  ghost predicate BestGroups(result: seq<ScoredLines>, primary: seq<Line>, secondary: seq<Line>, top: nat,
                             solve: Solver, dist: Distance)
  {
    && AlignedAlong(primary, secondary, solve, dist)
    && var groups := Groups(primary, secondary, solve, dist);
    && |result| == MinInt(top, |groups|)
    && SortedDesc(result, Score)
    && (forall r :: r in result ==> r in groups)
    && (forall e :: e in groups && e !in result ==> forall r :: r in result ==> e.score <= r.score)
    && (forall i, j :: 0 <= i < j < |result| ==> result[i].lines != result[j].lines)
  }

  /**
   * `buildScoredLines`: the groups of all candidates against every divider,
   * each scored by the mean of its candidates' scores, sorted by
   * non-increasing score and cut to the first `top`: no group left out
   * scores above one kept, and no line list is kept twice. The scores map of
   * the source holds one accumulator per group; here it holds the values
   * accumulated. The lines map contributes only its keys, since each kept
   * candidate's score is replaced by the group's mean.
   */
  method BuildScoredLines(primary: seq<Line>, secondary: seq<Line>, top: nat, solve: Solver, dist: Distance)
    returns (result: seq<ScoredLines>)
    requires AlignedAlong(primary, secondary, solve, dist)
    ensures |result| == MinInt(top, |Groups(primary, secondary, solve, dist)|)
    ensures SortedDesc(result, Score)
    ensures forall r :: r in result ==> r in Groups(primary, secondary, solve, dist)
    ensures forall e :: e in Groups(primary, secondary, solve, dist) && e !in result ==>
      forall r :: r in result ==> e.score <= r.score
    ensures forall i, j :: 0 <= i < j < |result| ==> result[i].lines != result[j].lines
  {
    ghost var all := AllMatches(primary, secondary, solve, dist);
    var keys, scores := GroupMatches(primary, secondary, solve, dist);
    var scoredLn := ScoreGroups(all, keys, scores);
    SortDesc(scoredLn, Score);
    var n := MinInt(top, |keys|);
    result := scoredLn[..n];
    EntriesDistinct(all);
    TopOfSorted(Entries(all), scoredLn[..], n);
    assert result == scoredLn[..][..n];
    DistinctLines(all, result);
  }

  /** Distinct groups have distinct line lists. */
  lemma DistinctLines(all: seq<ScoredLines>, chosen: seq<ScoredLines>)
    requires Distinct(chosen) && forall r :: r in chosen ==> r in Entries(all)
    ensures forall i, j :: 0 <= i < j < |chosen| ==> chosen[i].lines != chosen[j].lines
  {
    EntriesDistinct(all);
    forall i, j | 0 <= i < j < |chosen|
      ensures chosen[i].lines != chosen[j].lines
    {
      assert chosen[i] in Entries(all) && chosen[j] in Entries(all);
    }
  }

  /** The loop of `buildScoredLines` that gives every group its mean. */
  method ScoreGroups(ghost all: seq<ScoredLines>, keys: seq<seq<Line>>, scores: map<seq<Line>, seq<real>>)
    returns (scoredLn: array<ScoredLines>)
    requires Grouped(all, keys, scores)
    ensures fresh(scoredLn) && scoredLn[..] == Entries(all)
  {
    scoredLn := new ScoredLines[|keys|];
    var s := 0;
    while s < |keys|
      invariant 0 <= s <= |keys|
      invariant forall t :: 0 <= t < s ==> scoredLn[t] == Entry(all, keys[t])
    {
      assert keys[s] in Keys(all);
      var mean := MeanOf(scores[keys[s]]);
      scoredLn[s] := ScoredLines(keys[s], mean.value);
      s := s + 1;
    }
  }

  lemma AlignedPrefix(primary: seq<Line>, secondary: seq<Line>, a: nat, solve: Solver, dist: Distance)
    requires AlignedAlong(primary, secondary, solve, dist) && a < |secondary|
    ensures AlignedAlong(primary, secondary[..a + 1], solve, dist)
    ensures AllMatches(primary, secondary[..a + 1], solve, dist) ==
      AllMatches(primary, secondary[..a], solve, dist) + LinearMatches(primary, secondary[a], solve, dist)
  {
    assert secondary[..a + 1][..a] == secondary[..a];
  }

  /** The loop of `buildScoredLines` over the dividers: every candidate is
      added to its group. */
  method GroupMatches(primary: seq<Line>, secondary: seq<Line>, solve: Solver, dist: Distance)
    returns (keys: seq<seq<Line>>, scores: map<seq<Line>, seq<real>>)
    requires AlignedAlong(primary, secondary, solve, dist)
    ensures Grouped(AllMatches(primary, secondary, solve, dist), keys, scores)
  {
    keys := [];
    scores := map[];
    var a := 0;
    while a < |secondary|
      invariant 0 <= a <= |secondary|
      invariant AlignedAlong(primary, secondary[..a], solve, dist)
      invariant Grouped(AllMatches(primary, secondary[..a], solve, dist), keys, scores)
    {
      AlignedPrefix(primary, secondary, a, solve, dist);
      var matches := LinearDistances(primary, secondary[a], solve, dist);
      keys, scores := AddMatches(AllMatches(primary, secondary[..a], solve, dist), keys, scores, matches);
      a := a + 1;
    }
    assert secondary[..a] == secondary;
  }

  lemma TakeOneMore<T>(done: seq<T>, s: seq<T>, b: nat)
    requires b < |s|
    ensures done + s[..b + 1] == (done + s[..b]) + [s[b]]
  {
    assert s[..b + 1] == s[..b] + [s[b]];
  }

  /** The loop of `buildScoredLines` over one divider's candidates. */
  method AddMatches(ghost done: seq<ScoredLines>, keys0: seq<seq<Line>>, scores0: map<seq<Line>, seq<real>>,
                    matches: seq<ScoredLines>)
    returns (keys: seq<seq<Line>>, scores: map<seq<Line>, seq<real>>)
    requires Grouped(done, keys0, scores0)
    ensures Grouped(done + matches, keys, scores)
  {
    keys, scores := keys0, scores0;
    var b := 0;
    assert done + matches[..0] == done;
    while b < |matches|
      invariant 0 <= b <= |matches|
      invariant Grouped(done + matches[..b], keys, scores)
    {
      TakeOneMore(done, matches, b);
      keys, scores := AddOne(done + matches[..b], keys, scores, matches[b]);
      b := b + 1;
    }
    assert matches[..b] == matches;
  }

  // ---------------------------------------------------------------------
  // possibleGrids

  /** A candidate grid: ten horizontal and ten vertical lines, scored. */
  datatype LineGrid = LineGrid(horizontal: seq<Line>, vertical: seq<Line>, score: real)

  function Rank(g: LineGrid): real
  {
    g.score
  }

  /** Ascending distance, as a non-increasing key. */
  function NegDistance(l: Line): real
  {
    -(l.distance as real)
  }

  predicate ByDistance(s: seq<Line>)
  {
    SortedDesc(s, NegDistance)
  }

  /** Whatever order of equal distances the sort leaves, each family's
      crossings along every line of the other come in order. */
  ghost predicate Arranged(horizontal: seq<Line>, vertical: seq<Line>, solve: Solver, dist: Distance)
  {
    forall h, v :: ByDistance(h) && multiset(h) == multiset(horizontal) &&
                   ByDistance(v) && multiset(v) == multiset(vertical) ==>
      AlignedAlong(h, v, solve, dist) && AlignedAlong(v, h, solve, dist)
  }

  /** The grids of one horizontal group with every vertical group. */
  function Row(h: ScoredLines, vs: seq<ScoredLines>): (row: seq<LineGrid>)
    ensures |row| == |vs|
  {
    seq(|vs|, k requires 0 <= k < |vs| => LineGrid(h.lines, vs[k].lines, h.score * vs[k].score))
  }

  /** Every horizontal group with every vertical group, horizontal-major. */
  function Pairs(hs: seq<ScoredLines>, vs: seq<ScoredLines>): (ps: seq<LineGrid>)
  {
    if |hs| == 0 then [] else Pairs(hs[..|hs| - 1], vs) + Row(hs[|hs| - 1], vs)
  }

  lemma {:induction false} PairsLength(hs: seq<ScoredLines>, vs: seq<ScoredLines>)
    ensures |Pairs(hs, vs)| == |hs| * |vs|
  {
    if |hs| > 0 {
      PairsLength(hs[..|hs| - 1], vs);
      assert |Pairs(hs, vs)| == (|hs| - 1) * |vs| + |vs|;
    }
  }

  /** The grids of a row pair its group with one vertical group each. */
  lemma RowMembers(h: ScoredLines, vs: seq<ScoredLines>)
    ensures forall g :: g in Row(h, vs) ==> PairOf(g, [h], vs)
  {
    forall g | g in Row(h, vs)
      ensures PairOf(g, [h], vs)
    {
      var k :| 0 <= k < |vs| && Row(h, vs)[k] == g;
      assert h in [h] && vs[k] in vs;
    }
  }

  /** A pair is one horizontal group's lines with one vertical group's,
      scored by the product of their scores. */
  predicate PairOf(g: LineGrid, hs: seq<ScoredLines>, vs: seq<ScoredLines>)
  {
    exists h, v :: h in hs && v in vs && g == LineGrid(h.lines, v.lines, h.score * v.score)
  }

  lemma {:induction false} PairsMembers(hs: seq<ScoredLines>, vs: seq<ScoredLines>)
    ensures forall g :: g in Pairs(hs, vs) ==> PairOf(g, hs, vs)
  {
    if |hs| > 0 {
      var n := |hs| - 1;
      var init := hs[..n];
      PairsMembers(init, vs);
      RowMembers(hs[n], vs);
      forall g | g in Pairs(hs, vs)
        ensures PairOf(g, hs, vs)
      {
        if g in Pairs(init, vs) {
          var h, v :| h in init && v in vs && g == LineGrid(h.lines, v.lines, h.score * v.score);
          assert h in hs;
        } else {
          assert g in Row(hs[n], vs);
          var h, v :| h in [hs[n]] && v in vs && g == LineGrid(h.lines, v.lines, h.score * v.score);
          assert h in hs;
        }
      }
    }
  }

  /** Groups kept from families of fewer than ten lines: none; otherwise
      groups of ten lines scoring in [0.8, 1]. */
  lemma KeptFit(primary: seq<Line>, secondary: seq<Line>, solve: Solver, dist: Distance, kept: seq<ScoredLines>)
    requires AlignedAlong(primary, secondary, solve, dist)
    requires forall r :: r in kept ==> r in Groups(primary, secondary, solve, dist)
    ensures Fit(kept)
    ensures |primary| < 10 ==> |Groups(primary, secondary, solve, dist)| == 0
  {
    AllMatchesWellScored(primary, secondary, solve, dist);
    EntriesWellScored(AllMatches(primary, secondary, solve, dist));
  }

  /** What pairing at most three groups of each family gives. */
  lemma PairedFit(linesH: seq<ScoredLines>, linesV: seq<ScoredLines>, grids: seq<LineGrid>)
    requires Fit(linesH) && Fit(linesV) && |linesH| <= 3 && |linesV| <= 3
    requires multiset(grids) == multiset(Pairs(linesH, linesV))
    ensures |grids| <= 9
    ensures forall g :: g in grids ==> |g.horizontal| == 10 && |g.vertical| == 10 && 0.64 <= g.score <= 1.0
    ensures |linesH| == 0 || |linesV| == 0 ==> grids == []
  {
    PairsFit(linesH, linesV);
    PairsLength(linesH, linesV);
    AtMostNine(|linesH|, |linesV|);
    PermutationMembers(grids, Pairs(linesH, linesV));
    if |linesH| == 0 || |linesV| == 0 {
      assert |linesH| * |linesV| == 0;
    }
  }

  /** Groups of ten lines scoring in [0.8, 1]. */
  predicate Fit(groups: seq<ScoredLines>)
  {
    forall x :: x in groups ==> |x.lines| == 10 && 0.8 <= x.score <= 1.0
  }

  /** Pairs of such groups are ten by ten grids scoring in [0.64, 1]. */
  lemma {:induction false} PairsFit(hs: seq<ScoredLines>, vs: seq<ScoredLines>)
    requires Fit(hs) && Fit(vs)
    ensures forall g :: g in Pairs(hs, vs) ==>
      |g.horizontal| == 10 && |g.vertical| == 10 && 0.64 <= g.score <= 1.0
  {
    if |hs| > 0 {
      var h := hs[|hs| - 1];
      assert Fit(hs[..|hs| - 1]) by {
        forall x | x in hs[..|hs| - 1]
          ensures x in hs
        {
        }
      }
      PairsFit(hs[..|hs| - 1], vs);
      forall k | 0 <= k < |vs|
        ensures 0.64 <= Row(h, vs)[k].score <= 1.0
      {
        ProductBounds(h.score, vs[k].score);
      }
    }
  }

  /** The pairing loops of `possibleGrids`, then the sort by non-increasing
      score. */
  method PairGrids(linesH: seq<ScoredLines>, linesV: seq<ScoredLines>) returns (grids: seq<LineGrid>)
    ensures multiset(grids) == multiset(Pairs(linesH, linesV))
    ensures SortedDesc(grids, Rank)
  {
    var all: seq<LineGrid> := [];
    var i := 0;
    while i < |linesH|
      invariant 0 <= i <= |linesH|
      invariant all == Pairs(linesH[..i], linesV)
    {
      var h := linesH[i];
      var k := 0;
      while k < |linesV|
        invariant 0 <= k <= |linesV|
        invariant all == Pairs(linesH[..i], linesV) + Row(h, linesV)[..k]
      {
        var v := linesV[k];
        ghost var row := Row(h, linesV);
        assert row[k] == LineGrid(h.lines, v.lines, h.score * v.score);
        assert row[..k + 1] == row[..k] + [row[k]];
        all := all + [LineGrid(h.lines, v.lines, h.score * v.score)];
        k := k + 1;
      }
      assert linesH[..i + 1][..i] == linesH[..i];
      assert Row(h, linesV)[..k] == Row(h, linesV);
      i := i + 1;
    }
    assert linesH[..i] == linesH;
    grids := SortedCopyDesc(all, Rank);
  }

  lemma ProductBounds(a: real, b: real)
    requires 0.8 <= a <= 1.0 && 0.8 <= b <= 1.0
    ensures 0.64 <= a * b <= 1.0
  {
    assert a * b >= 0.8 * b;
    assert a * b <= 1.0 * b;
  }

  lemma AtMostNine(p: nat, q: nat)
    requires p <= 3 && q <= 3
    ensures p * q <= 9
  {
    assert p * q <= 3 * q;
  }

  /**
   * `possibleGrids`: both families sorted by ascending distance (here on
   * copies), the best three groups of each, and every horizontal group
   * paired with every vertical one, scored by the product of their scores,
   * best first. At most nine grids, each of ten by ten lines scoring in
   * [0.64, 1]; none when either family has fewer than ten lines.
   */
  method PossibleGrids(horizontal: seq<Line>, vertical: seq<Line>, solve: Solver, dist: Distance)
    returns (grids: seq<LineGrid>, ghost byH: seq<Line>, ghost byV: seq<Line>,
             ghost linesH: seq<ScoredLines>, ghost linesV: seq<ScoredLines>)
    requires Arranged(horizontal, vertical, solve, dist)
    ensures ByDistance(byH) && multiset(byH) == multiset(horizontal)
    ensures ByDistance(byV) && multiset(byV) == multiset(vertical)
    ensures BestGroups(linesH, byH, byV, 3, solve, dist) && BestGroups(linesV, byV, byH, 3, solve, dist)
    ensures multiset(grids) == multiset(Pairs(linesH, linesV))
    ensures |grids| <= 9
    ensures SortedDesc(grids, Rank)
    ensures forall g :: g in grids ==> |g.horizontal| == 10 && |g.vertical| == 10 && 0.64 <= g.score <= 1.0
    ensures |horizontal| < 10 || |vertical| < 10 ==> grids == []
  {
    var sortedV := SortedCopyDesc(vertical, NegDistance);
    var sortedH := SortedCopyDesc(horizontal, NegDistance);
    byH, byV := sortedH, sortedV;
    assert ByDistance(byH) && ByDistance(byV);
    var bestH := BuildScoredLines(sortedH, sortedV, 3, solve, dist);
    var bestV := BuildScoredLines(sortedV, sortedH, 3, solve, dist);
    linesH, linesV := bestH, bestV;
    KeptFit(byH, byV, solve, dist, linesH);
    KeptFit(byV, byH, solve, dist, linesV);
    grids := PairGrids(bestH, bestV);
    PermutationMembers(byH, horizontal);
    PermutationMembers(byV, vertical);
    PairedFit(linesH, linesV, grids);
  }
}
