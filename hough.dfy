/**
 * The discrete parts of the Hough transform (hough.go and the copy in
 * golang/hough.go, which agree on everything modelled here): the list of
 * angles, and the read-out of a filled accumulator into lines.
 *
 * The voting loops are not part of this model: the read-out takes the
 * accumulator as input, one row per distance and one column per angle.
 */
module Hough {
  import opened Wrappers
  import opened Geometry
  import opened Seqs

  // ---------------------------------------------------------------------
  // generateThetas

  /** `int((end - start) / step) + 1`, the number of angles. */
  function ThetaCount(start: real, end: real, step: real): int
    requires step != 0.0
  {
    GoInt((end - start) / step) + 1
  }

  /** The angles `start, start + step, ...`, `count` of them. */
  function Thetas(start: real, step: real, count: nat): (r: seq<real>)
    ensures |r| == count
    ensures count > 0 ==> r[0] == start
    ensures forall i :: 0 < i < count ==> r[i] == r[i - 1] + step
  {
    if count == 0 then [] else Thetas(start, step, count - 1) + [start + (count - 1) as real * step]
  }

  /**
   * The angles span the range: with a step towards `end`, the last angle
   * is at most one step short of `end` and never past it.
   */
  lemma ThetasSpan(start: real, end: real, step: real)
    requires step != 0.0 && (end - start) / step >= 0.0
    ensures var n := ThetaCount(start, end, step);
      n >= 1 &&
      var last := Thetas(start, step, n)[n - 1];
      last == start + (n - 1) as real * step &&
      (step > 0.0 ==> last <= end < last + step) &&
      (step < 0.0 ==> last + step < end <= last)
  {
    var k := GoInt((end - start) / step);
    assert k >= 0;
    assert ThetaCount(start, end, step) - 1 == k;
    ThetasValue(start, step, k + 1, k);
    SpanArith(start, end, step, k as real);
  }

  /** From `k <= (end - start) / step < k + 1`: the angle `start + k * step`
      is within one step of `end`. */
  lemma SpanArith(start: real, end: real, step: real, k: real)
    requires step != 0.0 && k <= (end - start) / step < k + 1.0
    ensures var last := start + k * step;
      (step > 0.0 ==> last <= end < last + step) &&
      (step < 0.0 ==> last + step < end <= last)
  {
    var q := (end - start) / step;
    if step > 0.0 {
      SpanUp(start, end, step, k, q);
    } else {
      SpanDown(start, end, step, k, q);
    }
  }

  lemma SpanUp(start: real, end: real, step: real, k: real, q: real)
    requires step > 0.0 && k <= q < k + 1.0 && q * step == end - start
    ensures start + k * step <= end < start + k * step + step
  {
    ScaleUp(k, q, step);
    Below(start, end, step, k, q);
  }

  lemma SpanDown(start: real, end: real, step: real, k: real, q: real)
    requires step < 0.0 && k <= q < k + 1.0 && q * step == end - start
    ensures start + k * step + step < end <= start + k * step
  {
    ScaleDown(k, q, step);
    Above(start, end, step, k, q);
  }

  /** `end` is less than one positive step past `start + k * step`. */
  lemma Below(start: real, end: real, step: real, k: real, q: real)
    requires step > 0.0 && q < k + 1.0 && q * step == end - start
    ensures end < start + k * step + step
  {
    ScaleUpStrict(q, k + 1.0, step);
    var m := k * step;
    var p := (k + 1.0) * step;
    assert p == m + step;
    assert q * step < p;
  }

  /** `end` is more than one negative step past `start + k * step`. */
  lemma Above(start: real, end: real, step: real, k: real, q: real)
    requires step < 0.0 && q < k + 1.0 && q * step == end - start
    ensures start + k * step + step < end
  {
    ScaleDownStrict(q, k + 1.0, step);
    var m := k * step;
    var p := (k + 1.0) * step;
    assert p == m + step;
    assert q * step > p;
  }

  /** Multiplying by a positive factor keeps the order of `x` and `y`. */
  lemma ScaleUp(x: real, y: real, c: real)
    requires c > 0.0 && x <= y
    ensures x * c <= y * c
  {
    assert (y - x) * c >= 0.0;
  }

  lemma ScaleUpStrict(x: real, y: real, c: real)
    requires c > 0.0 && x < y
    ensures x * c < y * c
  {
    assert (y - x) * c > 0.0;
  }

  /** Multiplying by a negative factor reverses the order of `x` and `y`. */
  lemma ScaleDown(x: real, y: real, c: real)
    requires c < 0.0 && x <= y
    ensures x * c >= y * c
  {
    assert (y - x) * c <= 0.0;
  }

  lemma ScaleDownStrict(x: real, y: real, c: real)
    requires c < 0.0 && x < y
    ensures x * c > y * c
  {
    assert (y - x) * c < 0.0;
  }

  lemma {:induction false} ThetasValue(start: real, step: real, count: nat, i: int)
    requires 0 <= i < count
    ensures Thetas(start, step, count)[i] == start + i as real * step
  {
    if i < count - 1 {
      ThetasValue(start, step, count - 1, i);
    }
  }

  /** Cases of the angle table test. */
  lemma ThetasExampleWhole()
    ensures ThetaCount(-1.0, 1.0, 1.0) == 3 && Thetas(-1.0, 1.0, 3) == [-1.0, 0.0, 1.0]
  {
    assert GoInt(2.0) == 2;
    assert Thetas(-1.0, 1.0, 1) == [-1.0];
    assert Thetas(-1.0, 1.0, 2) == [-1.0, 0.0];
  }

  lemma ThetasExampleDown()
    ensures ThetaCount(1.0, 0.0, -0.5) == 3 && Thetas(1.0, -0.5, 3) == [1.0, 0.5, 0.0]
  {
    assert (0.0 - 1.0) / -0.5 == 2.0;
    assert GoInt(2.0) == 2;
    assert Thetas(1.0, -0.5, 1) == [1.0];
    assert Thetas(1.0, -0.5, 2) == [1.0, 0.5];
  }

  lemma ThetasExampleShort()
    ensures ThetaCount(0.0, 1.0, 0.3) == 4 && Thetas(0.0, 0.3, 4) == [0.0, 0.3, 0.6, 0.9]
  {
    var q := (1.0 - 0.0) / 0.3;
    assert 3.0 <= q < 4.0;
    assert GoInt(q) == 3;
    assert Thetas(0.0, 0.3, 1) == [0.0];
    assert Thetas(0.0, 0.3, 2) == [0.0, 0.3];
    assert Thetas(0.0, 0.3, 3) == [0.0, 0.3, 0.6];
  }

  /**
   * `generateThetas`: the angles from `start` in steps of `step`; a
   * negative count makes the slice allocation panic (None). The angle is
   * carried by repeated addition, as in the source.
   */
  method GenerateThetas(start: real, end: real, step: real) returns (thetas: Option<seq<real>>)
    requires step != 0.0
    ensures thetas.None? <==> ThetaCount(start, end, step) < 0
    ensures thetas.Some? ==> thetas.value == Thetas(start, step, ThetaCount(start, end, step))
  {
    var count := GoInt((end - start) / step) + 1;
    if count < 0 {
      return None;
    }
    var a := new real[count];
    var theta := start;
    for i := 0 to count
      invariant theta == start + i as real * step
      invariant forall k :: 0 <= k < i ==> a[k] == start + k as real * step
    {
      a[i] := theta;
      theta := theta + step;
    }
    forall k | 0 <= k < count
      ensures a[k] == Thetas(start, step, count)[k]
    {
      ThetasValue(start, step, count, k);
    }
    thetas := Some(a[..]);
  }

  // ---------------------------------------------------------------------
  // Lines of the accumulator

  /** `HashKey`: the angle printed to 8 decimals, and the distance. */
  datatype Key = Key(theta8: int, distance: int)

  function HashKey(l: Line): Key
  {
    Key((l.theta * 100000000.0 + 0.5).Floor, l.distance)
  }

  /** Every row of the accumulator has one cell per angle. */
  predicate Rectangular(acc: seq<seq<nat>>, thetas: seq<real>)
  {
    forall i :: 0 <= i < |acc| ==> |acc[i]| == |thetas|
  }

  /** A cell with at least 2 votes and at least `threshold`. */
  predicate Voted(count: nat, threshold: nat)
  {
    !(count < 2 || count < threshold)
  }

  /** The line of cell `(i, j)`: row `i` is the distance `i - base`; a
      negative distance is flipped, with the angle turned by pi. */
  function CellLine(thetas: seq<real>, base: int, i: int, j: int, count: nat): (l: Line)
    requires 0 <= j < |thetas|
    ensures l.distance >= 0 && l.count == count
    ensures l.distance == i - base || l.distance == base - i
    ensures i - base >= 0 ==> l == Line(thetas[j], i - base, count)
    ensures i - base < 0 ==> l == Line(thetas[j] + Pi, base - i, count)
  {
    var r := i - base;
    if r < 0 then Line(thetas[j] + Pi, -r, count) else Line(thetas[j], r, count)
  }

  /** The lines of the voted cells among the first `n` of row `i`. */
  function RowLines(acc: seq<seq<nat>>, thetas: seq<real>, base: int, threshold: nat, i: int, n: int): seq<Line>
    requires Rectangular(acc, thetas) && 0 <= i < |acc| && 0 <= n <= |thetas|
    decreases n
  {
    if n == 0 then []
    else
      var prev := RowLines(acc, thetas, base, threshold, i, n - 1);
      if Voted(acc[i][n - 1], threshold) then prev + [CellLine(thetas, base, i, n - 1, acc[i][n - 1])] else prev
  }

  /** The lines of the voted cells of the first `m` rows, in row-major
      order. */
  function Scan(acc: seq<seq<nat>>, thetas: seq<real>, base: int, threshold: nat, m: int): seq<Line>
    requires Rectangular(acc, thetas) && 0 <= m <= |acc|
  {
    if m == 0 then [] else Scan(acc, thetas, base, threshold, m - 1) + RowLines(acc, thetas, base, threshold, m - 1, |thetas|)
  }

  /** A line is in a row's list exactly when it is the line of a voted
      cell of that row. */
  lemma {:induction false} RowLinesMeaning(acc: seq<seq<nat>>, thetas: seq<real>, base: int, threshold: nat, i: int, n: int, l: Line)
    requires Rectangular(acc, thetas) && 0 <= i < |acc| && 0 <= n <= |thetas|
    ensures l in RowLines(acc, thetas, base, threshold, i, n) <==>
      exists j :: 0 <= j < n && Voted(acc[i][j], threshold) && l == CellLine(thetas, base, i, j, acc[i][j])
  {
    if n > 0 {
      RowLinesMeaning(acc, thetas, base, threshold, i, n - 1, l);
    }
  }

  /** A line is scanned exactly when it is the line of a voted cell. */
  lemma {:induction false} ScanMeaning(acc: seq<seq<nat>>, thetas: seq<real>, base: int, threshold: nat, m: int, l: Line)
    requires Rectangular(acc, thetas) && 0 <= m <= |acc|
    ensures l in Scan(acc, thetas, base, threshold, m) <==>
      exists i, j :: 0 <= i < m && 0 <= j < |thetas| && Voted(acc[i][j], threshold) && l == CellLine(thetas, base, i, j, acc[i][j])
  {
    if m > 0 {
      ScanMeaning(acc, thetas, base, threshold, m - 1, l);
      RowLinesMeaning(acc, thetas, base, threshold, m - 1, |thetas|, l);
    }
  }

  // ---------------------------------------------------------------------
  // First line per key

  /** The keys of a list of lines. */
  function Keys(s: seq<Line>): set<Key>
  {
    if |s| == 0 then {} else Keys(s[..|s| - 1]) + {HashKey(s[|s| - 1])}
  }

  lemma {:induction false} KeysMeaning(s: seq<Line>, k: Key)
    ensures k in Keys(s) <==> exists i :: 0 <= i < |s| && HashKey(s[i]) == k
  {
    if |s| > 0 {
      KeysMeaning(s[..|s| - 1], k);
    }
  }

  /** The scan with the `linesSet` filter: a line is kept when no kept line
      has its key. */
  function Unique(s: seq<Line>): seq<Line>
  {
    if |s| == 0 then []
    else
      var u := Unique(s[..|s| - 1]);
      if HashKey(s[|s| - 1]) in Keys(u) then u else u + [s[|s| - 1]]
  }

  /** The kept lines have distinct keys, and every key of the input is
      kept. */
  lemma {:induction false} UniqueKeys(s: seq<Line>)
    ensures Keys(Unique(s)) == Keys(s)
    ensures forall a, b :: 0 <= a < b < |Unique(s)| ==> HashKey(Unique(s)[a]) != HashKey(Unique(s)[b])
  {
    if |s| > 0 {
      var init := s[..|s| - 1];
      var u := Unique(init);
      UniqueKeys(init);
      if HashKey(s[|s| - 1]) !in Keys(u) {
        var u' := u + [s[|s| - 1]];
        assert u'[..|u'| - 1] == u;
        forall a | 0 <= a < |u|
          ensures HashKey(u[a]) != HashKey(s[|s| - 1])
        {
          KeysMeaning(u, HashKey(u[a]));
        }
      }
    }
  }

  /** The line `s[i]` comes before every other line with its key. */
  ghost predicate FirstOfKey(s: seq<Line>, i: int)
    requires 0 <= i < |s|
  {
    forall k :: 0 <= k < i ==> HashKey(s[k]) != HashKey(s[i])
  }

  /** Each kept line is the first line of the input with its key. */
  lemma {:induction false} UniqueFirst(s: seq<Line>)
    ensures forall l :: l in Unique(s) ==> exists i :: 0 <= i < |s| && s[i] == l && FirstOfKey(s, i)
  {
    if |s| > 0 {
      var init := s[..|s| - 1];
      UniqueFirst(init);
      forall l | l in Unique(s)
        ensures exists i :: 0 <= i < |s| && s[i] == l && FirstOfKey(s, i)
      {
        if l in Unique(init) {
          var i :| 0 <= i < |init| && init[i] == l && FirstOfKey(init, i);
          FirstOfKeyPrefix(s, i);
        } else {
          LastFirstOfKey(s);
        }
      }
    }
  }

  lemma FirstOfKeyPrefix(s: seq<Line>, i: int)
    requires 0 <= i < |s| - 1 && FirstOfKey(s[..|s| - 1], i)
    ensures FirstOfKey(s, i)
  {
    assert forall k :: 0 <= k <= i ==> s[..|s| - 1][k] == s[k];
  }

  /** A last line that `Unique` keeps has no earlier line with its key. */
  lemma LastFirstOfKey(s: seq<Line>)
    requires |s| > 0 && HashKey(s[|s| - 1]) !in Keys(Unique(s[..|s| - 1]))
    ensures FirstOfKey(s, |s| - 1)
  {
    var init := s[..|s| - 1];
    UniqueKeys(init);
    KeysMeaning(init, HashKey(s[|s| - 1]));
    assert forall k :: 0 <= k < |init| ==> init[k] == s[k];
  }

  lemma {:induction false} UniqueMembers(s: seq<Line>)
    ensures forall l :: l in Unique(s) ==> l in s
  {
    if |s| > 0 {
      UniqueMembers(s[..|s| - 1]);
    }
  }

  // ---------------------------------------------------------------------
  // The read-out

  function CountKey(l: Line): real
  {
    l.count as real
  }

  /** `lines[:limit]` when `limit > 0` and there are more lines. */
  function Limit(s: seq<Line>, limit: int): (r: seq<Line>)
    ensures limit > 0 ==> |r| == if |s| > limit then limit else |s|
    ensures limit <= 0 ==> r == s
    ensures r <= s
  {
    if limit > 0 && |s| > limit then s[..limit] else s
  }

  /** The lines of the accumulator before sorting: one per key, in the
      order of the scan. */
  function Found(acc: seq<seq<nat>>, thetas: seq<real>, base: int, threshold: nat): seq<Line>
    requires Rectangular(acc, thetas)
  {
    Unique(Scan(acc, thetas, base, threshold, |acc|))
  }

  /** Row `i` appended to the scan of the rows before it. */
  lemma ScanRow(acc: seq<seq<nat>>, thetas: seq<real>, base: int, threshold: nat, i: int, n: int)
    requires Rectangular(acc, thetas) && 0 <= i < |acc| && 0 < n <= |thetas|
    ensures var prev := Scan(acc, thetas, base, threshold, i) + RowLines(acc, thetas, base, threshold, i, n - 1);
      Scan(acc, thetas, base, threshold, i) + RowLines(acc, thetas, base, threshold, i, n) ==
        if Voted(acc[i][n - 1], threshold) then prev + [CellLine(thetas, base, i, n - 1, acc[i][n - 1])] else prev
  {
  }

  /** `linesSet` holds the keys of the lines kept so far. */
  lemma UniqueStep(s: seq<Line>, l: Line)
    ensures Unique(s + [l]) == if HashKey(l) in Keys(Unique(s)) then Unique(s) else Unique(s) + [l]
    ensures Keys(Unique(s) + [l]) == Keys(Unique(s)) + {HashKey(l)}
  {
    assert (s + [l])[..|s|] == s;
    assert (Unique(s) + [l])[..|Unique(s)|] == Unique(s);
  }

  /** One row of the read-out loop: the voted cells of row `i` go through
      the `linesSet` filter. */
  method ReadRow(acc: seq<seq<nat>>, thetas: seq<real>, base: int, threshold: nat, i: int,
                 found0: seq<Line>, linesSet0: set<Key>)
    returns (found: seq<Line>, linesSet: set<Key>)
    requires Rectangular(acc, thetas) && 0 <= i < |acc|
    requires found0 == Unique(Scan(acc, thetas, base, threshold, i)) && linesSet0 == Keys(found0)
    ensures found == Unique(Scan(acc, thetas, base, threshold, i + 1)) && linesSet == Keys(found)
  {
    found, linesSet := found0, linesSet0;
    ghost var before := Scan(acc, thetas, base, threshold, i);
    assert before + RowLines(acc, thetas, base, threshold, i, 0) == before;
    var r := i - base;
    var thetaOffset := 0.0;
    if r < 0 {
      thetaOffset := Pi;
      r := -r;
    }
    ghost var prefix := before;
    for j := 0 to |acc[i]|
      invariant prefix == before + RowLines(acc, thetas, base, threshold, i, j)
      invariant found == Unique(prefix) && linesSet == Keys(found)
    {
      found, linesSet := ReadCell(acc, thetas, base, threshold, i, j, r, thetaOffset, prefix, found, linesSet);
      ScanRow(acc, thetas, base, threshold, i, j + 1);
      prefix := if Voted(acc[i][j], threshold) then prefix + [CellLine(thetas, base, i, j, acc[i][j])] else prefix;
    }
  }

  /** One cell of the read-out loop: a cell with fewer than two votes, or
      fewer than `threshold`, is skipped; otherwise its line goes through
      the `linesSet` filter. */
  method ReadCell(acc: seq<seq<nat>>, thetas: seq<real>, base: int, threshold: nat, i: int, j: int,
                  r: int, thetaOffset: real, ghost prefix: seq<Line>, found0: seq<Line>, linesSet0: set<Key>)
    returns (found: seq<Line>, linesSet: set<Key>)
    requires Rectangular(acc, thetas) && 0 <= i < |acc| && 0 <= j < |thetas|
    requires if i - base < 0 then r == base - i && thetaOffset == Pi else r == i - base && thetaOffset == 0.0
    requires found0 == Unique(prefix) && linesSet0 == Keys(found0)
    ensures found == Unique(if Voted(acc[i][j], threshold) then prefix + [CellLine(thetas, base, i, j, acc[i][j])] else prefix)
    ensures linesSet == Keys(found)
  {
    found, linesSet := found0, linesSet0;
    var count := acc[i][j];
    if count < 2 || count < threshold {
      return;
    }
    var line := Line(thetas[j] + thetaOffset, r, count);
    assert line == CellLine(thetas, base, i, j, count);
    found, linesSet := KeepLine(prefix, found, linesSet, line);
  }

  /** The `linesSet` filter on one line: it is kept, and its key recorded,
      unless a line with its key was kept before. */
  method KeepLine(ghost s: seq<Line>, found0: seq<Line>, linesSet0: set<Key>, line: Line)
    returns (found: seq<Line>, linesSet: set<Key>)
    requires found0 == Unique(s) && linesSet0 == Keys(found0)
    ensures found == Unique(s + [line]) && linesSet == Keys(found)
  {
    found, linesSet := found0, linesSet0;
    UniqueStep(s, line);
    if HashKey(line) !in linesSet {
      linesSet := linesSet + {HashKey(line)};
      found := found + [line];
    }
  }

  /**
   * The read-out of `houghLines` (and `HoughLines`): scan the accumulator
   * row by row, keep the first line of each key, sort by non-increasing
   * count (`sort.Sort` is not stable: any such order) and keep the first
   * `limit` lines when `limit > 0`.
   */
  method ReadOut(acc: seq<seq<nat>>, thetas: seq<real>, base: int, threshold: nat, limit: int)
    returns (lines: seq<Line>, ghost ranked: seq<Line>)
    requires Rectangular(acc, thetas)
    ensures multiset(ranked) == multiset(Found(acc, thetas, base, threshold))
    ensures SortedDesc(ranked, CountKey)
    ensures lines == Limit(ranked, limit)
  {
    var linesSet: set<Key> := {};
    var found: seq<Line> := [];
    for i := 0 to |acc|
      invariant found == Unique(Scan(acc, thetas, base, threshold, i))
      invariant linesSet == Keys(found)
    {
      found, linesSet := ReadRow(acc, thetas, base, threshold, i, found, linesSet);
    }
    var sorted := SortedCopyDesc(found, CountKey);
    ranked := sorted;
    if limit > 0 && |sorted| > limit {
      lines := sorted[..limit];
    } else {
      lines := sorted;
    }
  }

  /**
   * What the read-out yields: every line has a non-negative distance and
   * comes from a cell with at least 2 and at least `threshold` votes, no
   * two lines share a key, and every voted cell's key is represented when
   * nothing is cut by the limit.
   */
  lemma FoundMeaning(acc: seq<seq<nat>>, thetas: seq<real>, base: int, threshold: nat)
    requires Rectangular(acc, thetas)
    ensures var found := Found(acc, thetas, base, threshold);
      (forall l :: l in found ==> (l.distance >= 0 && l.count >= 2 && l.count >= threshold &&
        exists i, j :: 0 <= i < |acc| && 0 <= j < |thetas| && Voted(acc[i][j], threshold) &&
          l == CellLine(thetas, base, i, j, acc[i][j]))) &&
      (forall a, b :: 0 <= a < b < |found| ==> HashKey(found[a]) != HashKey(found[b])) &&
      (forall i, j :: 0 <= i < |acc| && 0 <= j < |thetas| && Voted(acc[i][j], threshold) ==>
        HashKey(CellLine(thetas, base, i, j, acc[i][j])) in Keys(found))
  {
    var scan := Scan(acc, thetas, base, threshold, |acc|);
    var found := Unique(scan);
    UniqueKeys(scan);
    UniqueMembers(scan);
    forall l | l in found
      ensures exists i, j :: (0 <= i < |acc| && 0 <= j < |thetas| && Voted(acc[i][j], threshold) &&
        l == CellLine(thetas, base, i, j, acc[i][j]))
    {
      ScanMeaning(acc, thetas, base, threshold, |acc|, l);
    }
    forall i, j | 0 <= i < |acc| && 0 <= j < |thetas| && Voted(acc[i][j], threshold)
      ensures HashKey(CellLine(thetas, base, i, j, acc[i][j])) in Keys(found)
    {
      var l := CellLine(thetas, base, i, j, acc[i][j]);
      ScanMeaning(acc, thetas, base, threshold, |acc|, l);
      var k :| 0 <= k < |scan| && scan[k] == l;
      KeysMeaning(scan, HashKey(l));
    }
  }

  /** The limit keeps lines with the most votes: no line cut by the limit
      has more votes than a line kept. */
  lemma LimitKeepsMostVoted(ranked: seq<Line>, limit: int)
    requires SortedDesc(ranked, CountKey)
    ensures var lines := Limit(ranked, limit);
      forall a, b :: 0 <= a < |lines| <= b < |ranked| ==> ranked[b].count <= lines[a].count
  {
  }
}
