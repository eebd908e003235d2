/**
 * Values shared by the whole pipeline: polar lines, integer points, the Go
 * float-to-int conversion, and the intersection of two lines.
 *
 * Solving the 2x2 system `x*cos(t) + y*sin(t) = r` (mat64.Solve in Go,
 * cv2.solve in Python) is floating-point library code; it is a parameter of
 * type Solver here, and every statement about intersections holds for any
 * solver.
 */
module Geometry {
  import opened Wrappers

  /** The float64 value of pi. */
  const Pi: real := 3.141592653589793
  const TwoPi: real := 2.0 * Pi

  /** A line in polar form: the angle of its normal (radians), its signed
      distance from the origin, and the number of votes it got in the Hough
      accumulator. */
  datatype Line = Line(theta: real, distance: int, count: nat)

  /** An integer pixel position. */
  datatype Point = Point(x: int, y: int)

  /** A solution of the 2x2 system, before rounding. */
  datatype Vec = Vec(x: real, y: real)

  /** The 2x2 linear solve; None when the system is singular (parallel lines). */
  type Solver = (Line, Line) -> Option<Vec>

  /** A segment between two pixels. */
  datatype Fragment = Fragment(start: Point, end: Point)

  function Abs(x: real): real { if x < 0.0 then -x else x }

  function AbsInt(x: int): nat { if x < 0 then -x else x }

  /** Go's conversion of a float64 to int: truncation toward zero. */
  function GoInt(x: real): (n: int)
    ensures x >= 0.0 ==> n as real <= x < n as real + 1.0
    ensures x < 0.0 ==> n as real - 1.0 < x <= n as real
  {
    if x >= 0.0 then x.Floor else -((-x).Floor)
  }

  /** Go's integer division by a positive divisor: truncation toward zero. */
  function GoDiv(a: int, b: int): (q: int)
    requires b > 0
    ensures a >= 0 ==> q == a / b
    ensures a < 0 ==> q == -((-a) / b)
  {
    if a >= 0 then a / b else -((-a) / b)
  }

  /** Go's `int(v + 0.5)`, used to turn solver output into pixels. */
  function RoundCoordinate(v: real): int
  {
    GoInt(v + 0.5)
  }

  /** Adding 0.5 and truncating rounds to the nearest integer (halves up)
      only from -0.5 upwards; below that it rounds up, off by up to 1.5. */
  lemma RoundCoordinateError(v: real)
    ensures v >= -0.5 ==> -0.5 < RoundCoordinate(v) as real - v <= 0.5
    ensures v < -0.5 ==> 0.5 <= RoundCoordinate(v) as real - v < 1.5
  {
  }

  /** `intersection` (low_structures.go, golang/low_structures.go): the
      solver's point rounded with RoundCoordinate, or (false, (0, 0)) when
      the solve fails. */
  function Intersection(solve: Solver, a: Line, b: Line): (res: (bool, Point))
    ensures res.0 <==> solve(a, b).Some?
    ensures !res.0 ==> res.1 == Point(0, 0)
    ensures res.0 ==> -0.5 < res.1.x as real - solve(a, b).value.x < 1.5
    ensures res.0 ==> -0.5 < res.1.y as real - solve(a, b).value.y < 1.5
  {
    match solve(a, b)
    case None => (false, Point(0, 0))
    case Some(v) =>
      RoundCoordinateError(v.x);
      RoundCoordinateError(v.y);
      (true, Point(RoundCoordinate(v.x), RoundCoordinate(v.y)))
  }

  /** Halves round up, and a value in (-1.5, -0.5) truncates to 0. */
  lemma RoundCoordinateExamples()
    ensures RoundCoordinate(9.5) == 10
    ensures RoundCoordinate(199.4) == 199
    ensures RoundCoordinate(-0.7) == 0
  {
  }
}
