/**
 * Angle buckets: `generateAngleBuckets`, `putLinesIntoBuckets` and
 * `linesWithSimilarAngle` in low_structures.go (identical in
 * golang/low_structures.go).
 *
 * Bucket parameters are whole degrees in the source, so centres are integer
 * degrees here and ranges are real degrees; a line's Theta (radians) is
 * compared against a range through the factor Pi / 180, as the source does
 * when it builds its ranges in radians.
 */
module Buckets {
  import opened Geometry
  import opened Angles
  import opened Seqs

  /** A closed range of angles, in degrees. */
  datatype Range = Range(start: real, end: real)

  /** The largest angle a centre may reach: 180 degrees, or 90 when every
      bucket also carries its orthogonal complement. */
  function MaxAngle(ortogonal: bool): (m: int)
    ensures m == 90 || m == 180
  {
    if ortogonal then 90 else 180
  }

  /**
   * The ranges of the bucket centred at pos: the window itself, its
   * wrapped-around part below 0 or above 180, and, when orthogonal, the window
   * shifted by 90 degrees with its part above 180 wrapped to 0.
   */
  function BucketRanges(pos: int, bucketSize: nat, ortogonal: bool): (rs: seq<Range>)
    ensures 1 <= |rs| <= 5
    ensures rs[0].end - rs[0].start == bucketSize as real
    ensures rs[0].start + rs[0].end == 2.0 * pos as real
  {
    var w2 := bucketSize as real / 2.0;
    var b1 := Range(pos as real - w2, pos as real + w2);
    var prim := if b1.start < 0.0 then [Range(180.0 + b1.start, 180.0)] else [];
    var bis := if b1.end > 180.0 then [Range(0.0, b1.end - 180.0)] else [];
    if ortogonal then
      var b2 := Range(b1.start + 90.0, b1.end + 90.0);
      var b2Prim := if b2.end > 180.0 then [Range(0.0, b2.end - 180.0)] else [];
      [b1] + prim + bis + [b2] + b2Prim
    else
      [b1] + prim + bis
  }

  /** Angle d (degrees) lies in one of the closed ranges. */
  predicate InRanges(d: real, rs: seq<Range>)
  {
    exists r :: r in rs && r.start <= d <= r.end
  }

  /** The distance between two line directions, which repeat every 180
      degrees. */
  function HalfTurnDistance(d: real, c: real): (r: real)
    ensures r >= 0.0
    ensures r <= Abs(d - c) && r <= Abs(d - c + 180.0) && r <= Abs(d - c - 180.0)
    ensures r == Abs(d - c) || r == Abs(d - c + 180.0) || r == Abs(d - c - 180.0)
  {
    var a := Abs(d - c);
    var b := Abs(d - c + 180.0);
    var e := Abs(d - c - 180.0);
    if a <= b && a <= e then a else if b <= e then b else e
  }

  /**
   * What a bucket collects: an angle in [0, 180] is in the bucket centred at
   * pos only if it is within half a window of pos (or of pos + 90 when
   * orthogonal), modulo 180; and every angle strictly within half a window is
   * in it.
   */
  lemma BucketMembership(d: real, pos: int, bucketSize: nat, ortogonal: bool)
    requires 0.0 <= d <= 180.0
    requires 0 <= pos < MaxAngle(ortogonal)
    requires bucketSize <= 180
    ensures var w2 := bucketSize as real / 2.0;
      InRanges(d, BucketRanges(pos, bucketSize, ortogonal)) ==>
        HalfTurnDistance(d, pos as real) <= w2 ||
        (ortogonal && HalfTurnDistance(d, pos as real + 90.0) <= w2)
    ensures var w2 := bucketSize as real / 2.0;
      HalfTurnDistance(d, pos as real) < w2 ||
      (ortogonal && HalfTurnDistance(d, pos as real + 90.0) < w2) ==>
        InRanges(d, BucketRanges(pos, bucketSize, ortogonal))
  {
    var rs := BucketRanges(pos, bucketSize, ortogonal);
    var w2 := bucketSize as real / 2.0;
    var p := pos as real;
    var b1 := Range(p - w2, p + w2);
    assert rs[0] == b1;
    if Abs(d - p) < w2 {
      assert b1 in rs;
    } else if Abs(d - p + 180.0) < w2 {
      assert Range(0.0, b1.end - 180.0) in rs;
    } else if Abs(d - p - 180.0) < w2 {
      assert Range(180.0 + b1.start, 180.0) in rs;
    }
    if ortogonal {
      var b2 := Range(b1.start + 90.0, b1.end + 90.0);
      assert b2 in rs;
      if Abs(d - p - 90.0) < w2 {
      } else if Abs(d - p - 90.0 + 180.0) < w2 {
        assert Range(0.0, b2.end - 180.0) in rs;
      }
    }
  }

  // ---------------------------------------------------------------------
  // Centres

  /** The centres visited by the bucket loop from pos on: it records pos,
      advances by step and stops once pos passes maxPos. This is the intended
      stop, under which MaxAngle - step is the last centre when step divides
      the maximum angle. */
  function Centres(pos: int, step: nat, maxPos: int): (cs: seq<int>)
    requires step > 0
    ensures |cs| > 0
    decreases if pos <= maxPos then maxPos - pos + 1 else 0
  {
    [pos] + (if pos + step > maxPos then [] else Centres(pos + step, step, maxPos))
  }

  /** The centres visited by the loop as written, which stops as soon as
      pos >= maxPos. */
  function CentresAsWritten(pos: int, step: nat, maxPos: int): (cs: seq<int>)
    requires step > 0
    ensures |cs| > 0
    decreases if pos < maxPos then maxPos - pos else 0
  {
    [pos] + (if pos + step >= maxPos then [] else CentresAsWritten(pos + step, step, maxPos))
  }

  /** The centres start at pos, go up by step, and all but the first are at
      most maxPos; the next one would pass maxPos. */
  lemma {:induction false} CentresShape(pos: int, step: nat, maxPos: int)
    requires step > 0
    ensures var cs := Centres(pos, step, maxPos);
      cs[0] == pos &&
      (forall i :: 0 < i < |cs| ==> cs[i] == cs[i - 1] + step && cs[i] <= maxPos) &&
      cs[|cs| - 1] + step > maxPos
    decreases if pos <= maxPos then maxPos - pos + 1 else 0
  {
    var cs := Centres(pos, step, maxPos);
    if pos + step <= maxPos {
      var rest := Centres(pos + step, step, maxPos);
      CentresShape(pos + step, step, maxPos);
      assert cs == [pos] + rest;
      forall i | 0 < i < |cs| ensures cs[i] == cs[i - 1] + step && cs[i] <= maxPos {
        assert cs[i] == rest[i - 1];
        if i > 1 {
          assert cs[i - 1] == rest[i - 2];
        }
      }
    } else {
      assert cs == [pos];
    }
  }

  /** The two stops agree except that the loop as written drops maxPos
      whenever the centres land on it exactly. */
  lemma {:induction false} AsWrittenDropsLastCentre(pos: int, step: nat, maxPos: int)
    requires step > 0
    ensures Centres(pos, step, maxPos) == CentresAsWritten(pos, step, maxPos) ||
      (Centres(pos, step, maxPos) == CentresAsWritten(pos, step, maxPos) + [maxPos] &&
       maxPos != pos && maxPos !in CentresAsWritten(pos, step, maxPos))
    decreases if pos <= maxPos then maxPos - pos + 1 else 0
  {
    var next := pos + step;
    if next < maxPos {
      AsWrittenDropsLastCentre(next, step, maxPos);
      var c, w := Centres(next, step, maxPos), CentresAsWritten(next, step, maxPos);
      assert Centres(pos, step, maxPos) == [pos] + c;
      assert CentresAsWritten(pos, step, maxPos) == [pos] + w;
      if c != w {
        assert [pos] + (w + [maxPos]) == ([pos] + w) + [maxPos];
        CentresAsWrittenAbove(next, step, maxPos);
      }
    } else if next == maxPos {
      assert Centres(next, step, maxPos) == [maxPos];
    }
  }

  lemma {:induction false} CentresAsWrittenAbove(pos: int, step: nat, maxPos: int)
    requires step > 0
    ensures forall c :: c in CentresAsWritten(pos, step, maxPos) ==> c >= pos
    ensures forall c :: c in CentresAsWritten(pos, step, maxPos) ==> c == pos || c < maxPos
    decreases if pos < maxPos then maxPos - pos else 0
  {
    if pos + step < maxPos {
      CentresAsWrittenAbove(pos + step, step, maxPos);
    }
  }

  /** The loop as written omits the last intended centre exactly when the
      centres land on maxPos. */
  lemma AsWrittenOmitsMaxPos(step: nat, maxPos: int)
    requires step > 0
    ensures maxPos != 0 && maxPos in Centres(0, step, maxPos) ==>
      maxPos !in CentresAsWritten(0, step, maxPos)
  {
    CentresAsWrittenAbove(0, step, maxPos);
  }

  /** With bucket size 60 and step 30 the loop as written stops after 120,
      while the intended centres run up to 150. */
  lemma AsWrittenExample()
    ensures CentresAsWritten(0, 30, 150) == [0, 30, 60, 90, 120]
    ensures Centres(0, 30, 150) == [0, 30, 60, 90, 120, 150]
  {
  }

  /** With the parameters the pipeline uses (bucket size 18, step 9,
      orthogonal) the last intended centre is 81 and the loop as written
      stops at 72. */
  lemma AsWrittenPipelineExample()
    ensures Centres(0, 9, 81) == [0, 9, 18, 27, 36, 45, 54, 63, 72, 81]
    ensures CentresAsWritten(0, 9, 81) == [0, 9, 18, 27, 36, 45, 54, 63, 72]
  {
  }

  /** The buckets the loop produces from state (pos, acc) on: record the
      bucket at pos, then stop once the next centre passes maxPos. */
  function BucketsFrom(pos: int, step: nat, maxPos: int, acc: map<int, seq<Range>>,
                       bucketSize: nat, ortogonal: bool): map<int, seq<Range>>
    requires step > 0
    decreases if pos <= maxPos then maxPos - pos + 1 else 0
  {
    var acc' := acc[pos := BucketRanges(pos, bucketSize, ortogonal)];
    if pos + step > maxPos then acc'
    else BucketsFrom(pos + step, step, maxPos, acc', bucketSize, ortogonal)
  }

  /** The buckets the generator is meant to produce. */
  function AngleBuckets(bucketSize: nat, step: nat, ortogonal: bool): map<int, seq<Range>>
    requires step > 0
  {
    BucketsFrom(0, step, MaxAngle(ortogonal) - step, map[], bucketSize, ortogonal)
  }

  lemma {:induction false} BucketsFromContents(pos: int, step: nat, maxPos: int,
      acc: map<int, seq<Range>>, bucketSize: nat, ortogonal: bool)
    requires step > 0
    ensures var m := BucketsFrom(pos, step, maxPos, acc, bucketSize, ortogonal);
      forall c :: c in m <==> c in acc || c in Centres(pos, step, maxPos)
    ensures var m := BucketsFrom(pos, step, maxPos, acc, bucketSize, ortogonal);
      forall c :: c in Centres(pos, step, maxPos) ==> m[c] == BucketRanges(c, bucketSize, ortogonal)
    ensures var m := BucketsFrom(pos, step, maxPos, acc, bucketSize, ortogonal);
      forall c :: c in acc && c !in Centres(pos, step, maxPos) ==> m[c] == acc[c]
    decreases if pos <= maxPos then maxPos - pos + 1 else 0
  {
    var acc' := acc[pos := BucketRanges(pos, bucketSize, ortogonal)];
    if pos + step <= maxPos {
      BucketsFromContents(pos + step, step, maxPos, acc', bucketSize, ortogonal);
      assert Centres(pos, step, maxPos) == [pos] + Centres(pos + step, step, maxPos);
    } else {
      assert Centres(pos, step, maxPos) == [pos];
    }
  }

  /** There is one bucket per centre, holding that centre's ranges; in
      particular the bucket at 0 is always present. */
  lemma AngleBucketsContents(bucketSize: nat, step: nat, ortogonal: bool)
    requires step > 0
    ensures forall c :: c in AngleBuckets(bucketSize, step, ortogonal) <==>
      c in Centres(0, step, MaxAngle(ortogonal) - step)
    ensures forall c :: c in AngleBuckets(bucketSize, step, ortogonal) ==>
      AngleBuckets(bucketSize, step, ortogonal)[c] == BucketRanges(c, bucketSize, ortogonal)
    ensures 0 in AngleBuckets(bucketSize, step, ortogonal)
  {
    BucketsFromContents(0, step, MaxAngle(ortogonal) - step, map[], bucketSize, ortogonal);
    assert Centres(0, step, MaxAngle(ortogonal) - step)[0] == 0;
  }

  /**
   * `generateAngleBuckets` with the intended stop (pos > maxPos). The source
   * loops forever for a step of 0.
   */
  method GenerateAngleBuckets(bucketSize: nat, step: nat, ortogonal: bool)
    returns (buckets: map<int, seq<Range>>)
    requires step > 0
    ensures buckets == AngleBuckets(bucketSize, step, ortogonal)
  {
    var maxPos := MaxAngle(ortogonal) - step;
    buckets := map[];
    var pos := 0;
    while true
      invariant pos == 0 || pos <= maxPos
      invariant BucketsFrom(pos, step, maxPos, buckets, bucketSize, ortogonal) ==
        AngleBuckets(bucketSize, step, ortogonal)
      decreases MaxAngle(ortogonal) - pos
    {
      buckets := buckets[pos := BucketRanges(pos, bucketSize, ortogonal)];
      pos := pos + step;
      if pos > maxPos {
        break;
      }
    }
  }

  /** Every centre lies in [0, MaxAngle). */
  lemma CentresInRange(step: nat, ortogonal: bool)
    requires step > 0
    ensures var cs := Centres(0, step, MaxAngle(ortogonal) - step);
      forall i :: 0 <= i < |cs| ==> 0 <= cs[i] < MaxAngle(ortogonal)
  {
    var cs := Centres(0, step, MaxAngle(ortogonal) - step);
    CentresShape(0, step, MaxAngle(ortogonal) - step);
    forall i | 0 <= i < |cs| ensures 0 <= cs[i] < MaxAngle(ortogonal) {
      CentresGrow(cs, step, i);
    }
  }

  lemma {:induction false} CentresGrow(cs: seq<int>, step: nat, i: int)
    requires |cs| > 0 && cs[0] == 0 && 0 <= i < |cs|
    requires forall k :: 0 < k < |cs| ==> cs[k] == cs[k - 1] + step
    ensures cs[i] >= 0
  {
    if i > 0 {
      CentresGrow(cs, step, i - 1);
    }
  }

  // ---------------------------------------------------------------------
  // Assigning lines to buckets

  /** Theta (radians) lies in one of the bucket's ranges (degrees). */
  predicate InBucket(theta: real, bucket: seq<Range>)
  {
    exists r :: r in bucket && r.start * Pi / 180.0 <= theta <= r.end * Pi / 180.0
  }

  function InBucketTest(bucket: seq<Range>): Line -> bool
  {
    (l: Line) => InBucket(l.theta, bucket)
  }

  /** The lines that fall into the bucket, in input order. */
  function Matches(bucket: seq<Range>, lines: seq<Line>): seq<Line>
  {
    Filter(lines, InBucketTest(bucket))
  }

  /** Each line is matched as often as it occurs when its Theta is in the
      bucket, and never otherwise. */
  lemma MatchesCount(bucket: seq<Range>, lines: seq<Line>, l: Line)
    ensures multiset(Matches(bucket, lines))[l] ==
      if InBucket(l.theta, bucket) then multiset(lines)[l] else 0
  {
    FilterCounts(lines, InBucketTest(bucket), l);
  }

  /** The loop over the lines, with the inner loop over the ranges that stops
      at the first range containing Theta. */
  method MatchLines(bucket: seq<Range>, lines: seq<Line>) returns (matches: seq<Line>)
    ensures matches == Matches(bucket, lines)
  {
    matches := [];
    var i := 0;
    while i < |lines|
      invariant 0 <= i <= |lines|
      invariant matches == Matches(bucket, lines[..i])
    {
      var line := lines[i];
      var found := false;
      var k := 0;
      while k < |bucket|
        invariant 0 <= k <= |bucket|
        invariant !found ==> forall r :: r in bucket[..k] ==>
          !(r.start * Pi / 180.0 <= line.theta <= r.end * Pi / 180.0)
        invariant found ==> InBucket(line.theta, bucket)
      {
        var b := bucket[k];
        if b.start * Pi / 180.0 <= line.theta && line.theta <= b.end * Pi / 180.0 {
          found := true;
          break;
        }
        k := k + 1;
      }
      assert !found ==> bucket[..k] == bucket;
      if found {
        matches := matches + [line];
      }
      assert lines[..i + 1][..i] == lines[..i];
      i := i + 1;
    }
    assert lines[..|lines|] == lines;
  }

  /**
   * `putLinesIntoBuckets`: buckets are visited in Go's unspecified map order;
   * each keeps its matches unless they are empty or equal to the matches of
   * a bucket already kept. The source compares matches through a string of
   * their fields; here the lists themselves are compared.
   */
  /** The kept buckets hold the matches of their bucket, none empty. */
  ghost predicate KeptMatches(bucketed: map<int, seq<Line>>, buckets: map<int, seq<Range>>, lines: seq<Line>)
  {
    forall c :: c in bucketed ==>
      c in buckets && bucketed[c] == Matches(buckets[c], lines) && bucketed[c] != []
  }

  /** No two kept buckets hold the same matches. */
  ghost predicate DistinctValues(bucketed: map<int, seq<Line>>)
  {
    forall c, c' :: c in bucketed && c' in bucketed && c != c' ==> bucketed[c] != bucketed[c']
  }

  /** Some kept bucket holds v. */
  ghost predicate HeldBy(bucketed: map<int, seq<Line>>, v: seq<Line>)
  {
    exists c :: c in bucketed && bucketed[c] == v
  }

  lemma KeepPreserves(bucketed: map<int, seq<Line>>, buckets: map<int, seq<Range>>, lines: seq<Line>,
                      angle: int, matches: seq<Line>)
    requires KeptMatches(bucketed, buckets, lines) && DistinctValues(bucketed)
    requires angle in buckets && angle !in bucketed
    requires matches == Matches(buckets[angle], lines) && matches != [] && !HeldBy(bucketed, matches)
    ensures KeptMatches(bucketed[angle := matches], buckets, lines)
    ensures DistinctValues(bucketed[angle := matches])
    ensures forall v :: HeldBy(bucketed[angle := matches], v) <==> HeldBy(bucketed, v) || v == matches
  {
    var m' := bucketed[angle := matches];
    forall v ensures HeldBy(m', v) <==> HeldBy(bucketed, v) || v == matches {
      if HeldBy(m', v) {
        var c :| c in m' && m'[c] == v;
        if c != angle {
          assert c in bucketed && bucketed[c] == v;
        }
      }
      if HeldBy(bucketed, v) {
        var c :| c in bucketed && bucketed[c] == v;
        assert m'[c] == v;
      }
      if v == matches {
        assert m'[angle] == v;
      }
    }
  }

  /**
   * `putLinesIntoBuckets`. Go visits the buckets in an unspecified order;
   * order is that order: every bucket once. Each bucket keeps its matches
   * when they are non-empty and no bucket visited earlier kept the same
   * list.
   */
  method PutLinesIntoBuckets(buckets: map<int, seq<Range>>, lines: seq<Line>, order: seq<int>)
    returns (bucketed: map<int, seq<Line>>)
    requires forall c :: c in buckets <==> c in order
    requires forall i, j :: 0 <= i < j < |order| ==> order[i] != order[j]
    ensures forall c :: c in bucketed ==>
      c in buckets && bucketed[c] == Matches(buckets[c], lines) && bucketed[c] != []
    ensures forall c :: c in buckets && Matches(buckets[c], lines) != [] ==>
      exists c' :: c' in bucketed && bucketed[c'] == Matches(buckets[c], lines)
    ensures forall c, c' :: c in bucketed && c' in bucketed && c != c' ==> bucketed[c] != bucketed[c']
  {
    bucketed := map[];
    var alreadyMatched: set<seq<Line>> := {};
    var i := 0;
    while i < |order|
      invariant 0 <= i <= |order|
      invariant forall c :: c in bucketed ==> c in order[..i]
      invariant KeptMatches(bucketed, buckets, lines) && DistinctValues(bucketed)
      invariant forall c :: c in order[..i] && Matches(buckets[c], lines) != [] ==>
        HeldBy(bucketed, Matches(buckets[c], lines))
      invariant forall v :: v in alreadyMatched <==> HeldBy(bucketed, v)
    {
      var angle := order[i];
      var matches := MatchLines(buckets[angle], lines);
      if |matches| > 0 && matches !in alreadyMatched {
        KeepPreserves(bucketed, buckets, lines, angle, matches);
        alreadyMatched := alreadyMatched + {matches};
        bucketed := bucketed[angle := matches];
      }
      assert order[..i + 1] == order[..i] + [angle];
      i := i + 1;
    }
    assert order[..|order|] == order;
  }

  // ---------------------------------------------------------------------
  // Splitting a bucket by orientation

  function SimilarTo(angle: real): Line -> bool
  {
    (l: Line) => SimilarAngles(l.theta, angle)
  }

  function NotSimilarTo(angle: real): Line -> bool
  {
    (l: Line) => !SimilarAngles(l.theta, angle)
  }

  /** `linesWithSimilarAngle`: a stable partition of the lines into those
      similar to angle and the rest. */
  method LinesWithSimilarAngle(lines: seq<Line>, angle: real)
    returns (similar: seq<Line>, other: seq<Line>)
    ensures similar == Filter(lines, SimilarTo(angle))
    ensures other == Filter(lines, NotSimilarTo(angle))
    ensures multiset(similar) + multiset(other) == multiset(lines)
    ensures forall l :: l in similar ==> SimilarAngles(l.theta, angle)
    ensures forall l :: l in other ==> !SimilarAngles(l.theta, angle)
  {
    similar, other := [], [];
    var i := 0;
    while i < |lines|
      invariant 0 <= i <= |lines|
      invariant similar == Filter(lines[..i], SimilarTo(angle))
      invariant other == Filter(lines[..i], NotSimilarTo(angle))
    {
      var line := lines[i];
      if SimilarAngles(line.theta, angle) {
        similar := similar + [line];
      } else {
        other := other + [line];
      }
      assert lines[..i + 1][..i] == lines[..i];
      i := i + 1;
    }
    assert lines[..|lines|] == lines;
    FilterPartition(lines, SimilarTo(angle), NotSimilarTo(angle));
  }
}
