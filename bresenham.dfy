/**
 * Bresenham's line algorithm: `pointsOnLineFragment` in low_structures.go.
 *
 * The walk advances the major coordinate (x when |dx| > |dy|, y otherwise)
 * one unit per step and the minor coordinate when the error term drops
 * below zero. The error term is kept as a real, as the source keeps it as a
 * float64 that only ever holds multiples of one half.
 */
module Bresenham {
  import opened Geometry

  /** n steps in direction s. */
  function Offset(s: int, n: int): int
    requires s == 1 || s == -1
  {
    if s == 1 then n else -n
  }

  /** The direction from 0 to d; 1 for d == 0. */
  function Sign(d: int): (s: int)
    ensures s == 1 || s == -1
    ensures d == Offset(s, AbsInt(d))
  {
    if d < 0 then -1 else 1
  }

  /** Which coordinate the walk advances on every step. */
  datatype Axis = AlongX | AlongY

  function MajorAxis(f: Fragment): Axis
  {
    if AbsInt(f.end.x - f.start.x) > AbsInt(f.end.y - f.start.y) then AlongX else AlongY
  }

  function Major(axis: Axis, p: Point): int
  {
    if axis == AlongX then p.x else p.y
  }

  function Minor(axis: Axis, p: Point): int
  {
    if axis == AlongX then p.y else p.x
  }

  /** The point with major coordinate a and minor coordinate b. */
  function Pt(axis: Axis, a: int, b: int): (p: Point)
    ensures Major(axis, p) == a && Minor(axis, p) == b
  {
    if axis == AlongX then Point(a, b) else Point(b, a)
  }

  /** One step of the major coordinate and at most one of the minor one, in
      the directions sa and sb. */
  predicate Step(axis: Axis, sa: int, sb: int, p: Point, q: Point)
  {
    Major(axis, q) == Major(axis, p) + sa &&
    (Minor(axis, q) == Minor(axis, p) || Minor(axis, q) == Minor(axis, p) + sb)
  }

  predicate Steps(axis: Axis, sa: int, sb: int, ps: seq<Point>)
  {
    forall i :: 0 < i < |ps| ==> Step(axis, sa, sb, ps[i - 1], ps[i])
  }

  /** The raster of a fragment: one point per unit of the major extent plus
      one, from Start to End, the major coordinate moving by one each step
      and the minor one by zero or one, always towards End. */
  predicate IsRaster(points: seq<Point>, f: Fragment)
  {
    var axis := MajorAxis(f);
    var da, db := Major(axis, f.end) - Major(axis, f.start), Minor(axis, f.end) - Minor(axis, f.start);
    |points| == AbsInt(da) + 1 &&
    points[0] == f.start && points[|points| - 1] == f.end &&
    Steps(axis, Sign(da), Sign(db), points)
  }

  /** Twice the signed area between p - Start and the fragment's direction;
      zero exactly on the ideal line. */
  function Cross(p: Point, f: Fragment): int
  {
    (p.y - f.start.y) * (f.end.x - f.start.x) - (p.x - f.start.x) * (f.end.y - f.start.y)
  }

  /** p lies within half a step of the ideal segment along the minor axis:
      twice the cross product of (p - Start) with the direction is at most
      the major extent. */
  predicate Close(p: Point, f: Fragment)
  {
    var dx, dy := f.end.x - f.start.x, f.end.y - f.start.y;
    var major := if AbsInt(dx) > AbsInt(dy) then AbsInt(dx) else AbsInt(dy);
    2 * AbsInt(Cross(p, f)) <= major
  }

  predicate CloseToSegment(points: seq<Point>, f: Fragment)
  {
    forall i :: 0 <= i < |points| ==> Close(points[i], f)
  }

  /**
   * The points the loop appends from the state (a, b, err) on, after acc:
   * record the point, stop at the last major coordinate a1, otherwise lower
   * the error by db and, when it drops below 0, step the minor coordinate and
   * raise the error by da; then step the major coordinate. n counts the steps
   * left.
   */
  function Walk(axis: Axis, a1: int, sa: int, sb: int, da: nat, db: nat,
                a: int, b: int, err: real, n: nat, acc: seq<Point>): (r: seq<Point>)
    requires sa == 1 || sa == -1
    requires a1 == a + Offset(sa, n)
    ensures |r| == |acc| + n + 1
    decreases n
  {
    var acc' := acc + [Pt(axis, a, b)];
    if a == a1 then acc'
    else
      var err' := err - db as real;
      if err' < 0.0 then Walk(axis, a1, sa, sb, da, db, a + sa, b + sb, err' + da as real, n - 1, acc')
      else Walk(axis, a1, sa, sb, da, db, a + sa, b, err', n - 1, acc')
  }

  /** The raster `pointsOnLineFragment` produces for f. */
  function Raster(f: Fragment): seq<Point>
  {
    var axis := MajorAxis(f);
    var da, db := Major(axis, f.end) - Major(axis, f.start), Minor(axis, f.end) - Minor(axis, f.start);
    Walk(axis, Major(axis, f.end), Sign(da), Sign(db), AbsInt(da), AbsInt(db),
         Major(axis, f.start), Minor(axis, f.start), AbsInt(da) as real / 2.0, AbsInt(da), [])
  }

  // ---------------------------------------------------------------------
  // Shape of the walk

  /** Steps, stated pair by pair as the walk appends points. */
  predicate Chain(axis: Axis, sa: int, sb: int, ps: seq<Point>)
  {
    |ps| <= 1 ||
    (Chain(axis, sa, sb, ps[..|ps| - 1]) && Step(axis, sa, sb, ps[|ps| - 2], ps[|ps| - 1]))
  }

  lemma {:induction false} ChainMeans(axis: Axis, sa: int, sb: int, ps: seq<Point>)
    requires Chain(axis, sa, sb, ps)
    ensures Steps(axis, sa, sb, ps)
  {
    if |ps| > 1 {
      ChainMeans(axis, sa, sb, ps[..|ps| - 1]);
    }
  }

  /** The walk keeps the first point and appends points one step apart,
      starting one step after the last point so far. */
  lemma {:induction false} WalkShape(axis: Axis, a1: int, sa: int, sb: int, da: nat, db: nat,
                                     a: int, b: int, err: real, n: nat, acc: seq<Point>)
    requires sa == 1 || sa == -1
    requires a1 == a + Offset(sa, n)
    requires Chain(axis, sa, sb, acc)
    requires |acc| > 0 ==> Step(axis, sa, sb, acc[|acc| - 1], Pt(axis, a, b))
    ensures var r := Walk(axis, a1, sa, sb, da, db, a, b, err, n, acc);
      r[0] == (if |acc| > 0 then acc[0] else Pt(axis, a, b)) && Chain(axis, sa, sb, r)
    decreases n
  {
    var acc' := acc + [Pt(axis, a, b)];
    assert acc'[..|acc|] == acc;
    if a != a1 {
      var err' := err - db as real;
      if err' < 0.0 {
        WalkShape(axis, a1, sa, sb, da, db, a + sa, b + sb, err' + da as real, n - 1, acc');
      } else {
        WalkShape(axis, a1, sa, sb, da, db, a + sa, b, err', n - 1, acc');
      }
    }
  }

  // ---------------------------------------------------------------------
  // Closeness: the error term tracks the cross product

  /** The walk of f along its major axis: the parameters Raster passes. */
  predicate WalkOf(f: Fragment, axis: Axis, a1: int, sa: int, sb: int, da: nat, db: nat)
  {
    axis == MajorAxis(f) && a1 == Major(axis, f.end) &&
    sa == Sign(a1 - Major(axis, f.start)) && da == AbsInt(a1 - Major(axis, f.start)) &&
    sb == Sign(Minor(axis, f.end) - Minor(axis, f.start)) &&
    db == AbsInt(Minor(axis, f.end) - Minor(axis, f.start))
  }

  /** Cross in the walk's own coordinates; equal to Cross up to sign. */
  function CrossAB(f: Fragment, axis: Axis, a: int, b: int): int
  {
    var a0, b0 := Major(axis, f.start), Minor(axis, f.start);
    (b - b0) * (Major(axis, f.end) - a0) - (a - a0) * (Minor(axis, f.end) - b0)
  }

  lemma CrossABIsCross(f: Fragment, axis: Axis, a: int, b: int)
    ensures AbsInt(CrossAB(f, axis, a, b)) == AbsInt(Cross(Pt(axis, a, b), f))
  {
  }

  /** Moving one factor by one unit in direction s moves the product by k. */
  lemma MulShift(u: int, s: int, k: int)
    requires s == 1 || s == -1
    ensures (u + s) * k == u * k + Offset(s, k)
  {
    if s == 1 {
      assert (u + 1) * k == u * k + k;
    } else {
      assert (u - 1) * k == u * k - k;
    }
  }

  /** The state the loop keeps between iterations: err is da/2 + e, it stays
      in [0, da), and CrossAB of the current point is e with the signs of
      both axes. */
  predicate Inv(f: Fragment, axis: Axis, a1: int, sa: int, sb: int, da: nat, db: nat,
                a: int, b: int, err: real, e: int)
  {
    WalkOf(f, axis, a1, sa, sb, da, db) &&
    err == da as real / 2.0 + e as real &&
    0.0 <= err && (err < da as real || da == 0) &&
    (da == 0 ==> b == Minor(axis, f.end)) &&
    CrossAB(f, axis, a, b) == Offset(sa, Offset(sb, e))
  }

  lemma InvClose(f: Fragment, axis: Axis, a1: int, sa: int, sb: int, da: nat, db: nat,
                 a: int, b: int, err: real, e: int)
    requires Inv(f, axis, a1, sa, sb, da, db, a, b, err, e)
    ensures CloseTo(f)(Pt(axis, a, b))
  {
    CrossABIsCross(f, axis, a, b);
    assert 2 * AbsInt(e) <= da;
  }

  lemma InvStep(f: Fragment, axis: Axis, a1: int, sa: int, sb: int, da: nat, db: nat,
                a: int, b: int, err: real, e: int)
    requires Inv(f, axis, a1, sa, sb, da, db, a, b, err, e)
    ensures var err' := err - db as real;
      if err' < 0.0 then Inv(f, axis, a1, sa, sb, da, db, a + sa, b + sb, err' + da as real, e - db + da)
      else Inv(f, axis, a1, sa, sb, da, db, a + sa, b, err', e - db)
  {
    var a0, b0 := Major(axis, f.start), Minor(axis, f.start);
    var dA, dB := Major(axis, f.end) - a0, Minor(axis, f.end) - b0;
    assert dA == Offset(sa, da) && dB == Offset(sb, db);
    MulShift(a - a0, sa, dB);
    assert CrossAB(f, axis, a + sa, b) == CrossAB(f, axis, a, b) - Offset(sa, dB);
    MulShift(b - b0, sb, dA);
    assert CrossAB(f, axis, a + sa, b + sb) == CrossAB(f, axis, a + sa, b) + Offset(sb, dA);
  }

  /** A product of naturals is at least either factor when the other is
      at least 1. */
  lemma {:induction false} MulAtLeast(p: nat, q: nat)
    requires q >= 1
    ensures p * q >= p
  {
    if q > 1 {
      MulAtLeast(p, q - 1);
      assert p * q == p * (q - 1) + p;
    }
  }

  /** A non-zero integer factor does not shrink a product's magnitude. */
  lemma ProductAtLeast(a: int, b: int)
    requires b != 0
    ensures AbsInt(a * b) >= AbsInt(a)
  {
    MulAtLeast(AbsInt(a), AbsInt(b));
    if a < 0 && b < 0 {
      assert a * b == (-a) * (-b);
    } else if a < 0 {
      assert a * b == -((-a) * b);
    } else if b < 0 {
      assert a * b == -(a * (-b));
    }
  }

  /** At the last major coordinate the kept state pins the minor one to End. */
  lemma InvEnd(f: Fragment, axis: Axis, a1: int, sa: int, sb: int, da: nat, db: nat,
               b: int, err: real, e: int)
    requires Inv(f, axis, a1, sa, sb, da, db, a1, b, err, e)
    ensures Pt(axis, a1, b) == f.end
  {
    if da > 0 {
      var a0, b0 := Major(axis, f.start), Minor(axis, f.start);
      var dA := a1 - a0;
      assert CrossAB(f, axis, a1, b) == dA * (b - Minor(axis, f.end)) by {
        assert (b - b0) * dA - dA * (Minor(axis, f.end) - b0) == dA * (b - Minor(axis, f.end));
      }
      assert 2 * AbsInt(e) <= da;
      if b != Minor(axis, f.end) {
        ProductAtLeast(dA, b - Minor(axis, f.end));
      }
    }
  }

  /** Closeness to f as a property of points. */
  function CloseTo(f: Fragment): Point -> bool
  {
    p => Close(p, f)
  }

  /** Every point satisfies P, stated point by point as the walk appends
      them. */
  predicate AllSat(ps: seq<Point>, P: Point -> bool)
  {
    |ps| == 0 || (AllSat(ps[..|ps| - 1], P) && P(ps[|ps| - 1]))
  }

  lemma {:induction false} AllSatMeans(ps: seq<Point>, P: Point -> bool)
    requires AllSat(ps, P)
    ensures forall i :: 0 <= i < |ps| ==> P(ps[i])
  {
    if |ps| > 0 {
      AllSatMeans(ps[..|ps| - 1], P);
    }
  }

  lemma AllSatSnoc(ps: seq<Point>, p: Point, P: Point -> bool)
    requires AllSat(ps, P) && P(p)
    ensures AllSat(ps + [p], P)
  {
    assert (ps + [p])[..|ps|] == ps;
  }

  /** Every point the walk appends is close to the segment. */
  lemma {:induction false} WalkClose(f: Fragment, axis: Axis, a1: int, sa: int, sb: int, da: nat, db: nat,
                                     a: int, b: int, err: real, n: nat, acc: seq<Point>, e: int)
    requires Inv(f, axis, a1, sa, sb, da, db, a, b, err, e)
    requires a1 == a + Offset(sa, n)
    requires AllSat(acc, CloseTo(f))
    ensures AllSat(Walk(axis, a1, sa, sb, da, db, a, b, err, n, acc), CloseTo(f))
    decreases n
  {
    var acc' := acc + [Pt(axis, a, b)];
    InvClose(f, axis, a1, sa, sb, da, db, a, b, err, e);
    AllSatSnoc(acc, Pt(axis, a, b), CloseTo(f));
    if a != a1 {
      InvStep(f, axis, a1, sa, sb, da, db, a, b, err, e);
      var err' := err - db as real;
      if err' < 0.0 {
        WalkClose(f, axis, a1, sa, sb, da, db, a + sa, b + sb, err' + da as real, n - 1, acc', e - db + da);
      } else {
        WalkClose(f, axis, a1, sa, sb, da, db, a + sa, b, err', n - 1, acc', e - db);
      }
    }
  }

  /** The walk ends at End. */
  lemma {:induction false} WalkEnds(f: Fragment, axis: Axis, a1: int, sa: int, sb: int, da: nat, db: nat,
                                    a: int, b: int, err: real, n: nat, acc: seq<Point>, e: int)
    requires Inv(f, axis, a1, sa, sb, da, db, a, b, err, e)
    requires a1 == a + Offset(sa, n)
    ensures var r := Walk(axis, a1, sa, sb, da, db, a, b, err, n, acc);
      r[|r| - 1] == f.end
    decreases n
  {
    var acc' := acc + [Pt(axis, a, b)];
    if a == a1 {
      InvEnd(f, axis, a1, sa, sb, da, db, b, err, e);
    } else {
      InvStep(f, axis, a1, sa, sb, da, db, a, b, err, e);
      var err' := err - db as real;
      if err' < 0.0 {
        WalkEnds(f, axis, a1, sa, sb, da, db, a + sa, b + sb, err' + da as real, n - 1, acc', e - db + da);
      } else {
        WalkEnds(f, axis, a1, sa, sb, da, db, a + sa, b, err', n - 1, acc', e - db);
      }
    }
  }

  /** The raster ends at End. */
  lemma RasterEnds(f: Fragment)
    ensures Raster(f)[|Raster(f)| - 1] == f.end
  {
    var axis := MajorAxis(f);
    var a0, b0 := Major(axis, f.start), Minor(axis, f.start);
    var a1 := Major(axis, f.end);
    var da, db := a1 - a0, Minor(axis, f.end) - b0;
    var sa, sb := Sign(da), Sign(db);
    var err := AbsInt(da) as real / 2.0;
    assert Inv(f, axis, a1, sa, sb, AbsInt(da), AbsInt(db), a0, b0, err, 0);
    WalkEnds(f, axis, a1, sa, sb, AbsInt(da), AbsInt(db), a0, b0, err, AbsInt(da), [], 0);
  }

  /** The raster runs from Start to End in max(|dx|, |dy|) + 1 points, one
      step apart. */
  lemma RasterIsRaster(f: Fragment)
    ensures IsRaster(Raster(f), f)
  {
    var axis := MajorAxis(f);
    var a0, b0 := Major(axis, f.start), Minor(axis, f.start);
    var a1 := Major(axis, f.end);
    var da, db := a1 - a0, Minor(axis, f.end) - b0;
    var sa, sb := Sign(da), Sign(db);
    WalkShape(axis, a1, sa, sb, AbsInt(da), AbsInt(db), a0, b0, AbsInt(da) as real / 2.0, AbsInt(da), []);
    ChainMeans(axis, sa, sb, Raster(f));
    RasterEnds(f);
  }

  /** Every point of the raster lies within half a step of the ideal
      segment. */
  lemma RasterIsClose(f: Fragment)
    ensures CloseToSegment(Raster(f), f)
  {
    var axis := MajorAxis(f);
    var a0, b0 := Major(axis, f.start), Minor(axis, f.start);
    var a1 := Major(axis, f.end);
    var da, db := a1 - a0, Minor(axis, f.end) - b0;
    var sa, sb := Sign(da), Sign(db);
    var err := AbsInt(da) as real / 2.0;
    assert Inv(f, axis, a1, sa, sb, AbsInt(da), AbsInt(db), a0, b0, err, 0);
    WalkClose(f, axis, a1, sa, sb, AbsInt(da), AbsInt(db), a0, b0, err, AbsInt(da), [], 0);
    AllSatMeans(Raster(f), CloseTo(f));
  }

  // ---------------------------------------------------------------------
  // The source's two loops

  /** `pointsOnLineFragment`: walk along x when |dx| > |dy|, along y
      otherwise. */
  method PointsOnLineFragment(f: Fragment) returns (points: seq<Point>)
    ensures points == Raster(f)
  {
    var x0, x1 := f.start.x, f.end.x;
    var y0, y1 := f.start.y, f.end.y;
    var dx, sx := x1 - x0, 1;
    if dx < 0 {
      sx, dx := -1, -dx;
    }
    var dy, sy := y1 - y0, 1;
    if dy < 0 {
      sy, dy := -1, -dy;
    }
    if dx > dy {
      points := WalkAlongX(x0, y0, x1, sx, sy, dx, dy);
    } else {
      points := WalkAlongY(x0, y0, y1, sx, sy, dx, dy);
    }
  }

  /** The loop over x of `pointsOnLineFragment`. */
  method WalkAlongX(x0: int, y0: int, x1: int, sx: int, sy: int, dx: nat, dy: nat)
    returns (points: seq<Point>)
    requires sx == 1 || sx == -1
    requires x1 == x0 + Offset(sx, dx)
    ensures points == Walk(AlongX, x1, sx, sy, dx, dy, x0, y0, dx as real / 2.0, dx, [])
  {
    points := [];
    var err := dx as real / 2.0;
    var x, y := x0, y0;
    ghost var n: nat := dx;
    while true
      invariant x1 == x + Offset(sx, n)
      invariant Walk(AlongX, x1, sx, sy, dx, dy, x, y, err, n, points) ==
                Walk(AlongX, x1, sx, sy, dx, dy, x0, y0, dx as real / 2.0, dx, [])
      decreases n
    {
      points := points + [Point(x, y)];
      if x == x1 {
        break;
      }
      err := err - dy as real;
      if err < 0.0 {
        y := y + sy;
        err := err + dx as real;
      }
      x := x + sx;
      n := n - 1;
    }
  }

  /** The loop over y of `pointsOnLineFragment`. */
  method WalkAlongY(x0: int, y0: int, y1: int, sx: int, sy: int, dx: nat, dy: nat)
    returns (points: seq<Point>)
    requires sy == 1 || sy == -1
    requires y1 == y0 + Offset(sy, dy)
    ensures points == Walk(AlongY, y1, sy, sx, dy, dx, y0, x0, dy as real / 2.0, dy, [])
  {
    points := [];
    var err := dy as real / 2.0;
    var x, y := x0, y0;
    ghost var n: nat := dy;
    while true
      invariant y1 == y + Offset(sy, n)
      invariant Walk(AlongY, y1, sy, sx, dy, dx, y, x, err, n, points) ==
                Walk(AlongY, y1, sy, sx, dy, dx, y0, x0, dy as real / 2.0, dy, [])
      decreases n
    {
      points := points + [Point(x, y)];
      if y == y1 {
        break;
      }
      err := err - dx as real;
      if err < 0.0 {
        x := x + sx;
        err := err + dy as real;
      }
      y := y + sy;
      n := n - 1;
    }
  }

  /** The raster of (0,0)-(3,1) is (0,0), (1,0), (2,1), (3,1). */
  lemma RasterExample()
    ensures Raster(Fragment(Point(0, 0), Point(3, 1))) ==
      [Point(0, 0), Point(1, 0), Point(2, 1), Point(3, 1)]
  {
  }

  /** The two fragments of low_structures_test.go:405-412. */
  lemma RasterTestExamples()
    ensures Raster(Fragment(Point(0, 0), Point(5, 5))) ==
      [Point(0, 0), Point(1, 1), Point(2, 2), Point(3, 3), Point(4, 4), Point(5, 5)]
    ensures Raster(Fragment(Point(0, 1), Point(6, 4))) ==
      [Point(0, 1), Point(1, 1), Point(2, 2), Point(3, 2), Point(4, 3), Point(5, 3), Point(6, 4)]
  {
  }
}
