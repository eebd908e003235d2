/**
 * The Python copy of the low-level structures: `point_in_view`,
 * `intersections`, `remove_duplicate_lines` and `generate_angle_buckets` in
 * low_structures.py (`similar_angle` is Angles.SimilarAnglePy).
 *
 * Python's `intersection` returns what cv2.solve returns, unrounded: the
 * Solver's vector, or nothing when the system is singular.
 */
module LowStructuresPy {
  import opened Wrappers
  import opened Geometry
  import opened Angles
  import opened Dedup
  import opened Buckets

  /** `np.deg2rad`. */
  function DegToRad(d: real): real
  {
    d * Pi / 180.0
  }

  /** The padding `remove_duplicate_lines` leaves at its default: half the
      image on every side. */
  const Scope: real := 0.5

  /** `point_in_view`: the closed box [-w*scope, w + w*scope] x
      [-h*scope, h + h*scope]. */
  predicate PointInView(p: Vec, w: real, h: real, scope: real)
  {
    0.0 - w * scope <= p.x <= w + w * scope &&
    0.0 - h * scope <= p.y <= h + h * scope
  }

  /** The box is centred on the image: a point is in view exactly when it is
      within (1/2 + scope) * w of the centre column and (1/2 + scope) * h of
      the centre row. */
  lemma PointInViewCentred(p: Vec, w: real, h: real, scope: real)
    requires w >= 0.0 && h >= 0.0 && scope >= 0.0
    ensures PointInView(p, w, h, scope) <==>
      Abs(p.x - w / 2.0) <= w * (0.5 + scope) && Abs(p.y - h / 2.0) <= h * (0.5 + scope)
  {
    assert w * (0.5 + scope) == w / 2.0 + w * scope;
    assert h * (0.5 + scope) == h / 2.0 + h * scope;
  }

  /** Callers pass NumPy's `img.shape`, which is (rows, cols): w is the
      row count. On a 100-row, 300-column image the point (250, 50), inside
      the picture, is out of view. */
  lemma ShapeIsRowsFirst()
    ensures !PointInView(Vec(250.0, 50.0), 100.0, 300.0, Scope)
    ensures PointInView(Vec(250.0, 50.0), 300.0, 100.0, Scope)
  {
  }

  // ---------------------------------------------------------------------
  // intersections

  /** `intersections`: every pair j < i of line indices whose system the
      solver solves, keyed by the sorted pair, mapped to the solution of
      (lines[i], lines[j]). */
  method Intersections(lines: seq<Line>, solve: Solver) returns (points: map<(int, int), Vec>)
    ensures forall key :: key in points <==>
      0 <= key.0 < key.1 < |lines| && solve(lines[key.1], lines[key.0]).Some?
    ensures forall key :: key in points ==> points[key] == solve(lines[key.1], lines[key.0]).value
  {
    points := map[];
    var i := 0;
    while i < |lines|
      invariant 0 <= i <= |lines|
      invariant forall key :: key in points <==>
        0 <= key.0 < key.1 < i && solve(lines[key.1], lines[key.0]).Some?
      invariant forall key :: key in points ==> points[key] == solve(lines[key.1], lines[key.0]).value
    {
      var j := 0;
      while j < |lines|
        invariant 0 <= j <= |lines|
        invariant forall key :: key in points <==>
          (0 <= key.0 < key.1 < i || (key.1 == i && 0 <= key.0 < j && key.0 < i)) &&
          solve(lines[key.1], lines[key.0]).Some?
        invariant forall key :: key in points ==> points[key] == solve(lines[key.1], lines[key.0]).value
      {
        if i <= j {
          j := j + 1;
          continue;
        }
        var res := solve(lines[i], lines[j]);
        if res.None? {
          j := j + 1;
          continue;
        }
        points := points[(j, i) := res.value];
        j := j + 1;
      }
      i := i + 1;
    }
  }

  // ---------------------------------------------------------------------
  // remove_duplicate_lines

  /** The Python duplicate test for the later line a and the earlier line b:
      similar modulo pi under the threshold m (radians), solvable, and the
      unrounded solution in view. There is no distance shortcut. */
  predicate DuplicatePairPy(a: Line, b: Line, m: real, w: real, h: real, solve: Solver)
  {
    SimilarAnglePy(a.theta, b.theta, m) &&
    solve(a, b).Some? && PointInView(solve(a, b).value, w, h, Scope)
  }

  /** The rule as a pair test on (earlier, later), for the generic pass. */
  function PyRule(m: real, w: real, h: real, solve: Solver): DupRule
  {
    (e: Line, l: Line) => DuplicatePairPy(l, e, m, w, h, solve)
  }

  /** A pair the solver cannot solve (parallel lines) is never a duplicate in
      Python, while the Go rule marks it when the distances are within 3;
      the lines at angle 1.5 with distances 100 and 102 show both. */
  lemma ParallelNeverDuplicate(solve: Solver, w: real, h: real)
    requires forall a, b :: solve(a, b) == None
    ensures forall e, l :: !PyRule(DegToRad(MinAngDiff), w, h, solve)(e, l)
    ensures DuplicatePairGo(Line(1.5, 100, 0), Line(1.5, 102, 0), 300, 300, solve)
  {
  }

  /** The pair loops of `remove_duplicate_lines` that fill `to_remove`: for
      every i and every j < i, mark i when the pair is a duplicate. */
  method MarkDuplicatesPy(lines: seq<Line>, m: real, w: real, h: real, solve: Solver)
    returns (toRemove: set<int>)
    ensures toRemove == RemovedSet(lines, |lines|, PyRule(m, w, h, solve))
  {
    ghost var dup := PyRule(m, w, h, solve);
    var n := |lines|;
    toRemove := {};
    var i := 0;
    while i < n
      invariant 0 <= i <= n
      invariant forall k :: k in toRemove <==> 0 <= k < i && Removed(lines, k, dup)
    {
      var lineA := lines[i];
      var j := 0;
      while j < n
        invariant 0 <= j <= n
        invariant forall k :: k in toRemove <==>
          (0 <= k < i && Removed(lines, k, dup)) || (k == i && MarkedBy(lines, j, i, dup))
      {
        if i <= j {
          j := j + 1;
          continue;
        }
        var lineB := lines[j];
        var similar := SimilarAnglePy(lineA.theta, lineB.theta, m);
        if !similar {
          j := j + 1;
          continue;
        }
        var res := solve(lineA, lineB);
        if res.None? {
          j := j + 1;
          continue;
        }
        var inView := PointInView(res.value, w, h, Scope);
        if inView {
          toRemove := toRemove + {if i > j then i else j};
        }
        j := j + 1;
      }
      assert MarkedBy(lines, n, i, dup) <==> Removed(lines, i, dup);
      i := i + 1;
    }
  }

  /** `remove_duplicate_lines`: the threshold converted from degrees, the
      marked set, then the unmarked lines in input order. */
  method RemoveDuplicateLinesPy(lines: seq<Line>, minAngDiff: real, w: real, h: real, solve: Solver)
    returns (cleaned: seq<Line>)
    ensures cleaned == Survivors(lines, PyRule(DegToRad(minAngDiff), w, h, solve))
  {
    var m := DegToRad(minAngDiff);
    ghost var dup := PyRule(m, w, h, solve);
    var toRemove := MarkDuplicatesPy(lines, m, w, h, solve);
    cleaned := [];
    var i := 0;
    while i < |lines|
      invariant 0 <= i <= |lines|
      invariant cleaned == KeptPrefix(lines, i, dup)
    {
      if i !in toRemove {
        cleaned := cleaned + [lines[i]];
      }
      i := i + 1;
    }
  }

  // ---------------------------------------------------------------------
  // generate_angle_buckets

  /**
   * The ranges of the bucket centred at pos (radians) with half-window w2:
   * the window, its part below 0 wrapped to (pi + start, pi), its part above
   * pi wrapped to (0, end - pi), and when orthogonal the window shifted by
   * pi/2 with its part above pi wrapped to (0, end - pi).
   */
  function RangesPy(pos: real, w2: real, ortogonal: bool): seq<Range>
  {
    var b1 := Range(pos - w2, pos + w2);
    var prim := if b1.start < 0.0 then [Range(Pi + b1.start, Pi)] else [];
    var bis := if b1.end > Pi then [Range(0.0, b1.end - Pi)] else [];
    if ortogonal then
      var b2 := Range(b1.start + Pi / 2.0, b1.end + Pi / 2.0);
      var b2Prim := if b2.end > Pi then [Range(0.0, b2.end - Pi)] else [];
      [b1] + prim + bis + [b2] + b2Prim
    else
      [b1] + prim + bis
  }

  function ScaleRange(r: Range): Range
  {
    Range(DegToRad(r.start), DegToRad(r.end))
  }

  /** The Python ranges are the Go ranges (degrees) converted to radians:
      both copies apply the same rules in the same order. */
  lemma RangesPyAreGoRanges(pos: int, bucketSize: nat, ortogonal: bool)
    ensures var py := RangesPy(DegToRad(pos as real), DegToRad(bucketSize as real) / 2.0, ortogonal);
      var go := BucketRanges(pos, bucketSize, ortogonal);
      |py| == |go| && forall i :: 0 <= i < |go| ==> py[i] == ScaleRange(go[i])
  {
    var w2 := DegToRad(bucketSize as real) / 2.0;
    var gw2 := bucketSize as real / 2.0;
    var p := DegToRad(pos as real);
    assert p - w2 == DegToRad(pos as real - gw2);
    assert p + w2 == DegToRad(pos as real + gw2);
    assert Pi + (p - w2) == DegToRad(180.0 + (pos as real - gw2));
    assert (p + w2) - Pi == DegToRad((pos as real + gw2) - 180.0);
    assert (p - w2) + Pi / 2.0 == DegToRad((pos as real - gw2) + 90.0);
    assert (p + w2) + Pi / 2.0 == DegToRad((pos as real + gw2) + 90.0);
    assert (p + w2) + Pi / 2.0 - Pi == DegToRad((pos as real + gw2) + 90.0 - 180.0);
  }

  /** The last centre the loop may record: pi (or pi/2) minus the step. */
  function MaxPosPy(stepRad: real, ortogonal: bool): real
  {
    (if ortogonal then Pi / 2.0 else Pi) - stepRad
  }

  /** The body of the bucket loop: the window, then each wrapped or
      orthogonal range appended when its condition holds. */
  method BucketPy(pos: real, w2: real, ortogonal: bool) returns (bucket: seq<Range>)
    ensures bucket == RangesPy(pos, w2, ortogonal)
  {
    var b1 := Range(pos - w2, pos + w2);
    bucket := [b1];
    if b1.start < 0.0 {
      bucket := bucket + [Range(Pi + b1.start, Pi)];
    }
    if b1.end > Pi {
      bucket := bucket + [Range(0.0, b1.end - Pi)];
    }
    if ortogonal {
      var b2 := Range(b1.start + Pi / 2.0, b1.end + Pi / 2.0);
      bucket := bucket + [b2];
      if b2.end > Pi {
        bucket := bucket + [Range(0.0, b2.end - Pi)];
      }
    }
  }

  /** The centres the bucket loop has recorded so far, stated entry by
      entry as the loop appends them: the first centre is 0, each later
      centre is the previous one plus the step and lies below maxPos. */
  predicate BuiltPy(buckets: seq<(real, seq<Range>)>, stepRad: real, maxPos: real)
  {
    if |buckets| == 0 then true
    else
      var n := |buckets| - 1;
      BuiltPy(buckets[..n], stepRad, maxPos) &&
      (if n == 0 then buckets[n].0 == 0.0
       else buckets[n].0 == buckets[n - 1].0 + stepRad && buckets[n].0 < maxPos)
  }

  lemma {:induction false} BuiltPyMeans(buckets: seq<(real, seq<Range>)>, stepRad: real, maxPos: real)
    requires BuiltPy(buckets, stepRad, maxPos)
    ensures |buckets| > 0 ==> buckets[0].0 == 0.0
    ensures forall k :: 0 < k < |buckets| ==> buckets[k].0 == buckets[k - 1].0 + stepRad
    ensures forall k :: 0 < k < |buckets| ==> buckets[k].0 < maxPos
  {
    if |buckets| > 0 {
      BuiltPyMeans(buckets[..|buckets| - 1], stepRad, maxPos);
    }
  }

  /** Appending the next centre keeps the list one the loop builds. */
  lemma BuiltPyAppend(buckets: seq<(real, seq<Range>)>, stepRad: real, maxPos: real, pos: real, bucket: seq<Range>)
    requires BuiltPy(buckets, stepRad, maxPos)
    requires |buckets| == 0 ==> pos == 0.0
    requires |buckets| > 0 ==> pos == buckets[|buckets| - 1].0 + stepRad && pos < maxPos
    ensures BuiltPy(buckets + [(pos, bucket)], stepRad, maxPos)
  {
    assert (buckets + [(pos, bucket)])[..|buckets|] == buckets;
  }

  /** The distance covered by n steps of size s, added one step at a time
      as the loop adds them. */
  function Reach(n: nat, s: real): real
  {
    if n == 0 then 0.0 else Reach(n - 1, s) + s
  }

  lemma {:induction false} ReachIsProduct(n: nat, s: real)
    ensures Reach(n, s) == n as real * s
  {
    if n > 0 {
      ReachIsProduct(n - 1, s);
    }
  }

  /** Some number of positive steps covers any distance: the bucket loop
      ends. */
  lemma StepsToCover(t: real, s: real) returns (n: nat)
    requires s > 0.0
    ensures Reach(n, s) >= t
  {
    if t <= 0.0 {
      n := 0;
    } else {
      n := (t / s).Floor + 1;
      ReachIsProduct(n, s);
      assert n as real > t / s;
      assert n as real * s > (t / s) * s;
    }
  }

  /** `generate_angle_buckets`: an ordered list of (centre, ranges) pairs.
      The centres start at 0 and go up by the step (radians); every centre
      after the first lies below MaxPosPy, and the next one would not. */
  method GenerateAngleBucketsPy(bucketSize: real, step: real, ortogonal: bool)
    returns (buckets: seq<(real, seq<Range>)>)
    requires step > 0.0
    ensures |buckets| >= 1 && buckets[0].0 == 0.0
    ensures forall k :: 0 < k < |buckets| ==> buckets[k].0 == buckets[k - 1].0 + DegToRad(step)
    ensures forall k :: 0 <= k < |buckets| ==>
      buckets[k].1 == RangesPy(buckets[k].0, DegToRad(bucketSize) / 2.0, ortogonal)
    ensures forall k :: 0 < k < |buckets| ==> buckets[k].0 < MaxPosPy(DegToRad(step), ortogonal)
    ensures buckets[|buckets| - 1].0 + DegToRad(step) >= MaxPosPy(DegToRad(step), ortogonal)
  {
    var stepRad := DegToRad(step);
    var w2 := DegToRad(bucketSize) / 2.0;
    var maxPos := MaxPosPy(stepRad, ortogonal);
    buckets := BucketLoop(stepRad, w2, maxPos, ortogonal);
    BuiltPyMeans(buckets, stepRad, maxPos);
  }

  /** The loop of `generate_angle_buckets`: from centre 0, a bucket per
      centre, until the next centre reaches maxPos. */
  method BucketLoop(stepRad: real, w2: real, maxPos: real, ortogonal: bool) returns (buckets: seq<(real, seq<Range>)>)
    requires stepRad > 0.0 && maxPos + stepRad > 0.0
    ensures |buckets| >= 1 && BuiltPy(buckets, stepRad, maxPos)
    ensures forall k :: 0 <= k < |buckets| ==> buckets[k].1 == RangesPy(buckets[k].0, w2, ortogonal)
    ensures buckets[|buckets| - 1].0 + stepRad >= maxPos
  {
    var pos := 0.0;
    buckets := [];
    ghost var fuel := StepsToCover(maxPos + stepRad, stepRad);
    while true
      invariant |buckets| == 0 ==> pos == 0.0
      invariant |buckets| > 0 ==> pos == buckets[|buckets| - 1].0 + stepRad && pos < maxPos
      invariant BuiltPy(buckets, stepRad, maxPos)
      invariant forall k :: 0 <= k < |buckets| ==> buckets[k].1 == RangesPy(buckets[k].0, w2, ortogonal)
      invariant pos + Reach(fuel, stepRad) >= maxPos + stepRad
      decreases fuel
    {
      assert fuel > 0;
      var bucket := BucketPy(pos, w2, ortogonal);
      BuiltPyAppend(buckets, stepRad, maxPos, pos, bucket);
      buckets := buckets + [(pos, bucket)];
      pos := pos + stepRad;
      fuel := fuel - 1;
      if pos >= maxPos {
        break;
      }
    }
  }
}
