/**
 * `preparePointDistances` of the older copy of the grid search
 * (golang/grid.go): a distance transform over the cells 0..n, where n is the
 * last position rounded to the nearest integer. Every cell starts owned by
 * the last position at distance n; each position then claims its own cell
 * and spreads left and right, taking every cell it is strictly nearer to
 * than the cell's current owner and stopping at the first one it is not.
 *
 * As written, the start-up loop begins at cell 1, so cell 0 keeps the zero
 * value of the fresh slices: owned at distance 0 by the value 0. No
 * position can take it over unless it rounds to 0 itself. The corrected
 * start-up begins at cell 0, and then every cell holds a position whose
 * rounded cell is nearest to it.
 */
module GridTransform {
  import opened Geometry
  import opened GridScore

  /** The cell of a position: `int(position + 0.5)`. */
  function Cell(p: real): int
  {
    GoInt(p + 0.5)
  }

  /** What the source relies on: a non-empty list whose positions all fall
      in the cells 0..n of the last one (it indexes out of range
      otherwise). */
  predicate InRange(positions: seq<real>)
  {
    |positions| > 0 &&
    forall k :: 0 <= k < |positions| ==> 0 <= Cell(positions[k]) <= Cell(positions[|positions| - 1])
  }

  /** The leftward spread from cell idx, at distance i on: owner and
      distance tables after the loop. */
  function SpreadLeft(c: seq<int>, d: seq<real>, p: real, idx: int, i: int): (r: (seq<int>, seq<real>))
    requires |c| == |d| && 0 <= idx < |c| && 1 <= i <= idx + 1
    ensures |r.0| == |c| && |r.1| == |d|
    decreases idx + 1 - i
  {
    if i < idx + 1 && i < c[idx - i] then SpreadLeft(c[idx - i := i], d[idx - i := p], p, idx, i + 1)
    else (c, d)
  }

  /** The rightward spread from cell idx, at distance i on. */
  function SpreadRight(c: seq<int>, d: seq<real>, p: real, idx: int, i: int): (r: (seq<int>, seq<real>))
    requires |c| == |d| && 0 <= idx < |c| && 1 <= i <= |c| - idx
    ensures |r.0| == |c| && |r.1| == |d|
    decreases |c| - idx - i
  {
    if i < |c| - idx && i < c[idx + i] then SpreadRight(c[idx + i := i], d[idx + i := p], p, idx, i + 1)
    else (c, d)
  }

  /** One pass of the outer loop: claim the position's cell, then spread. */
  function Place(c: seq<int>, d: seq<real>, p: real): (r: (seq<int>, seq<real>))
    requires |c| == |d| && 0 <= Cell(p) < |c|
    ensures |r.0| == |c| && |r.1| == |d|
  {
    var idx := Cell(p);
    var left := SpreadLeft(c[idx := 0], d[idx := p], p, idx, 1);
    SpreadRight(left.0, left.1, p, idx, 1)
  }

  predicate CellsBelow(ps: seq<real>, len: int)
  {
    forall k :: 0 <= k < |ps| ==> 0 <= Cell(ps[k]) < len
  }

  /** The tables after placing every position, in order. */
  function Fill(c: seq<int>, d: seq<real>, ps: seq<real>): (r: (seq<int>, seq<real>))
    requires |c| == |d| && CellsBelow(ps, |c|)
    ensures |r.0| == |c| && |r.1| == |d|
  {
    if |ps| == 0 then (c, d)
    else
      var prev := Fill(c, d, ps[..|ps| - 1]);
      Place(prev.0, prev.1, ps[|ps| - 1])
  }

  /** The tables as the source starts them: cell 0 at its zero value. */
  function AsWrittenStart(n: nat, maxPos: real): (seq<int>, seq<real>)
  {
    ([0] + seq(n, _ => n), [0.0] + seq(n, _ => maxPos))
  }

  /** The corrected start: every cell owned by the last position. */
  function NearestStart(n: nat, maxPos: real): (seq<int>, seq<real>)
  {
    (seq(n + 1, _ => n), seq(n + 1, _ => maxPos))
  }

  function Last(positions: seq<real>): real
    requires |positions| > 0
  {
    positions[|positions| - 1]
  }

  /** The table the source returns. */
  function AsWrittenTable(positions: seq<real>): (r: seq<real>)
    requires InRange(positions)
    ensures |r| == Cell(Last(positions)) + 1
  {
    var n := Cell(Last(positions));
    var start := AsWrittenStart(n, Last(positions));
    Fill(start.0, start.1, positions).1
  }

  /** The table with the corrected start. */
  function NearestTable(positions: seq<real>): (r: seq<real>)
    requires InRange(positions)
    ensures |r| == Cell(Last(positions)) + 1
  {
    var n := Cell(Last(positions));
    var start := NearestStart(n, Last(positions));
    Fill(start.0, start.1, positions).1
  }

  // ---------------------------------------------------------------------
  // The imperative transform

  /** One pass of the outer loop over the two tables. */
  method PlacePosition(closest: array<int>, distances: array<real>, position: real)
    requires closest.Length == distances.Length && 0 <= Cell(position) < closest.Length
    modifies closest, distances
    ensures (closest[..], distances[..]) == Place(old(closest[..]), old(distances[..]), position)
  {
    var idx := GoInt(position + 0.5);
    closest[idx] := 0;
    distances[idx] := position;
    ghost var c1, d1 := closest[..], distances[..];
    var i := 1;
    while i < idx + 1
      invariant 1 <= i <= idx + 1
      invariant SpreadLeft(closest[..], distances[..], position, idx, i) == SpreadLeft(c1, d1, position, idx, 1)
    {
      if i < closest[idx - i] {
        closest[idx - i] := i;
        distances[idx - i] := position;
      } else {
        break;
      }
      i := i + 1;
    }
    ghost var c2, d2 := closest[..], distances[..];
    var ld := closest.Length;
    i := 1;
    while i < ld - idx
      invariant 1 <= i <= ld - idx
      invariant SpreadRight(closest[..], distances[..], position, idx, i) == SpreadRight(c2, d2, position, idx, 1)
    {
      if i < closest[idx + i] {
        closest[idx + i] := i;
        distances[idx + i] := position;
      } else {
        break;
      }
      i := i + 1;
    }
  }

  /** The outer loop over the positions. */
  method PlaceAll(closest: array<int>, distances: array<real>, positions: seq<real>)
    requires closest.Length == distances.Length && CellsBelow(positions, closest.Length)
    modifies closest, distances
    ensures (closest[..], distances[..]) == Fill(old(closest[..]), old(distances[..]), positions)
  {
    ghost var c0, d0 := closest[..], distances[..];
    for k := 0 to |positions|
      invariant (closest[..], distances[..]) == Fill(c0, d0, positions[..k])
    {
      assert positions[..k + 1][..k] == positions[..k];
      PlacePosition(closest, distances, positions[k]);
    }
    assert positions[..|positions|] == positions;
  }

  /** `preparePointDistances` as written: the start-up loop begins at 1. */
  method PreparePointDistancesAsWritten(positions: seq<real>) returns (table: seq<real>)
    requires InRange(positions)
    ensures table == AsWrittenTable(positions)
  {
    var maxPos := positions[|positions| - 1];
    var ld := GoInt(maxPos + 0.5) + 1;
    var closest := new int[ld](_ => 0);
    var distances := new real[ld](_ => 0.0);
    for i := 1 to ld
      invariant closest[0] == 0 && distances[0] == 0.0
      invariant forall m :: 1 <= m < i ==> closest[m] == ld - 1 && distances[m] == maxPos
    {
      closest[i] := GoInt(maxPos + 0.5);
      distances[i] := maxPos;
    }
    assert closest[..] == AsWrittenStart(ld - 1, maxPos).0;
    assert distances[..] == AsWrittenStart(ld - 1, maxPos).1;
    PlaceAll(closest, distances, positions);
    table := distances[..];
  }

  /** `preparePointDistances` with the start-up loop beginning at 0. */
  method PreparePointDistancesNearest(positions: seq<real>) returns (table: seq<real>)
    requires InRange(positions)
    ensures table == NearestTable(positions)
    ensures |table| == Cell(Last(positions)) + 1
    ensures forall c :: 0 <= c < |table| ==> IsNearest(table[c], c, positions)
    ensures DistinctCells(positions) ==> forall c :: 0 <= c < |table| ==> IsEarliestNearest(table[c], c, positions)
  {
    var maxPos := positions[|positions| - 1];
    var ld := GoInt(maxPos + 0.5) + 1;
    var closest := new int[ld](_ => 0);
    var distances := new real[ld](_ => 0.0);
    for i := 0 to ld
      invariant forall m :: 0 <= m < i ==> closest[m] == ld - 1 && distances[m] == maxPos
    {
      closest[i] := GoInt(maxPos + 0.5);
      distances[i] := maxPos;
    }
    assert closest[..] == NearestStart(ld - 1, maxPos).0;
    assert distances[..] == NearestStart(ld - 1, maxPos).1;
    PlaceAll(closest, distances, positions);
    table := distances[..];
    NearestTableIsNearest(positions);
    if DistinctCells(positions) {
      NearestTableEarliest(positions);
    }
  }

  // ---------------------------------------------------------------------
  // The corrected table holds nearest positions

  /** The smallest distance from cell x to the cell of a position, capped by
      the start value n. */
  function MinDist(x: int, ps: seq<real>, n: int): (m: int)
    ensures m <= n && (n >= 0 ==> m >= 0)
    ensures forall k :: 0 <= k < |ps| ==> m <= AbsInt(x - Cell(ps[k]))
  {
    if |ps| == 0 then n
    else MinInt(MinDist(x, ps[..|ps| - 1], n), AbsInt(x - Cell(ps[|ps| - 1])))
  }

  /** The owner of cell x after placing ps: a later position takes the cell
      when it sits on it or is strictly nearer than every earlier one. */
  function Nearest(x: int, ps: seq<real>, n: int, init: real): real
  {
    if |ps| == 0 then init
    else
      var q := ps[|ps| - 1];
      if x == Cell(q) || AbsInt(x - Cell(q)) < MinDist(x, ps[..|ps| - 1], n) then q
      else Nearest(x, ps[..|ps| - 1], n, init)
  }

  /** Neighbouring cells' distances differ by at most one per cell. */
  predicate Lipschitz(c: seq<int>)
  {
    forall x, y :: 0 <= x < y < |c| ==> c[x] <= c[y] + (y - x) && c[y] <= c[x] + (y - x)
  }

  lemma {:induction false} MinDistLipschitz(ps: seq<real>, n: int, x: int, y: int)
    ensures MinDist(x, ps, n) <= MinDist(y, ps, n) + AbsInt(x - y)
  {
    if |ps| > 0 {
      MinDistLipschitz(ps[..|ps| - 1], n, x, y);
    }
  }

  function MinRow(ps: seq<real>, n: nat): (r: seq<int>)
    ensures |r| == n + 1
  {
    seq(n + 1, x requires 0 <= x <= n => MinDist(x, ps, n))
  }

  function NearestRow(ps: seq<real>, n: nat, init: real): (r: seq<real>)
    ensures |r| == n + 1
  {
    seq(n + 1, x requires 0 <= x <= n => Nearest(x, ps, n, init))
  }

  lemma MinRowLipschitz(ps: seq<real>, n: nat)
    ensures Lipschitz(MinRow(ps, n))
  {
    forall x, y | 0 <= x < y <= n
      ensures MinDist(x, ps, n) <= MinDist(y, ps, n) + (y - x)
      ensures MinDist(y, ps, n) <= MinDist(x, ps, n) + (y - x)
    {
      MinDistLipschitz(ps, n, x, y);
      MinDistLipschitz(ps, n, y, x);
    }
  }

  /** The leftward spread over a Lipschitz table takes exactly the cells
      left of idx that idx is strictly nearer to: stopping at the first cell
      it does not win loses nothing further left. */
  lemma {:induction false} SpreadLeftClaims(c0: seq<int>, d0: seq<real>, c: seq<int>, d: seq<real>, p: real, idx: int, i: int)
    requires |c0| == |d0| == |c| == |d| && 0 <= idx < |c| && 1 <= i <= idx + 1
    requires Lipschitz(c0)
    requires forall x :: idx - i < x < idx ==> idx - x < c0[x] && c[x] == idx - x && d[x] == p
    requires forall x :: 0 <= x <= idx - i ==> c[x] == c0[x] && d[x] == d0[x]
    ensures forall x :: 0 <= x < idx ==>
      SpreadLeft(c, d, p, idx, i).0[x] == MinInt(c0[x], idx - x) &&
      SpreadLeft(c, d, p, idx, i).1[x] == (if idx - x < c0[x] then p else d0[x])
    ensures forall x :: idx <= x < |c| ==>
      SpreadLeft(c, d, p, idx, i).0[x] == c[x] && SpreadLeft(c, d, p, idx, i).1[x] == d[x]
    decreases idx + 1 - i
  {
    if i < idx + 1 && i < c[idx - i] {
      SpreadLeftClaims(c0, d0, c[idx - i := i], d[idx - i := p], p, idx, i + 1);
    } else if i < idx + 1 {
      forall x | 0 <= x <= idx - i
        ensures c0[x] <= idx - x
      {
        if x < idx - i {
          assert c0[x] <= c0[idx - i] + (idx - i - x);
        }
      }
    }
  }

  /** The rightward spread, symmetrically. */
  lemma {:induction false} SpreadRightClaims(c0: seq<int>, d0: seq<real>, c: seq<int>, d: seq<real>, p: real, idx: int, i: int)
    requires |c0| == |d0| == |c| == |d| && 0 <= idx < |c| && 1 <= i <= |c| - idx
    requires Lipschitz(c0)
    requires forall x :: idx < x < idx + i ==> x - idx < c0[x] && c[x] == x - idx && d[x] == p
    requires forall x :: idx + i <= x < |c| ==> c[x] == c0[x] && d[x] == d0[x]
    ensures forall x :: idx < x < |c| ==>
      SpreadRight(c, d, p, idx, i).0[x] == MinInt(c0[x], x - idx) &&
      SpreadRight(c, d, p, idx, i).1[x] == (if x - idx < c0[x] then p else d0[x])
    ensures forall x :: 0 <= x <= idx ==>
      SpreadRight(c, d, p, idx, i).0[x] == c[x] && SpreadRight(c, d, p, idx, i).1[x] == d[x]
    decreases |c| - idx - i
  {
    if i < |c| - idx && i < c[idx + i] {
      SpreadRightClaims(c0, d0, c[idx + i := i], d[idx + i := p], p, idx, i + 1);
    } else if i < |c| - idx {
      forall x | idx + i <= x < |c|
        ensures c0[x] <= x - idx
      {
        if x > idx + i {
          assert c0[x] <= c0[idx + i] + (x - idx - i);
        }
      }
    }
  }

  /** Placing a position over a Lipschitz table takes its own cell and every
      cell it is strictly nearer to, and nothing else. */
  lemma PlaceClaims(c0: seq<int>, d0: seq<real>, p: real)
    requires |c0| == |d0| && 0 <= Cell(p) < |c0| && Lipschitz(c0)
    requires forall x :: 0 <= x < |c0| ==> c0[x] >= 0
    ensures forall x :: 0 <= x < |c0| ==>
      Place(c0, d0, p).0[x] == MinInt(c0[x], AbsInt(x - Cell(p))) &&
      Place(c0, d0, p).1[x] == (if x == Cell(p) || AbsInt(x - Cell(p)) < c0[x] then p else d0[x])
  {
    var idx := Cell(p);
    var c1, d1 := c0[idx := 0], d0[idx := p];
    SpreadLeftClaims(c0, d0, c1, d1, p, idx, 1);
    var left := SpreadLeft(c1, d1, p, idx, 1);
    SpreadRightClaims(c0, d0, left.0, left.1, p, idx, 1);
  }

  /** Placing one more position over the rows of the earlier ones gives
      the rows of them all. */
  lemma PlaceRows(ps: seq<real>, n: nat, init: real)
    requires |ps| > 0 && 0 <= Cell(ps[|ps| - 1]) <= n
    ensures Place(MinRow(ps[..|ps| - 1], n), NearestRow(ps[..|ps| - 1], n, init), ps[|ps| - 1]) ==
      (MinRow(ps, n), NearestRow(ps, n, init))
  {
    var prev := ps[..|ps| - 1];
    var p := ps[|ps| - 1];
    MinRowLipschitz(prev, n);
    PlaceClaims(MinRow(prev, n), NearestRow(prev, n, init), p);
    var r := Place(MinRow(prev, n), NearestRow(prev, n, init), p);
    forall x | 0 <= x <= n
      ensures r.0[x] == MinRow(ps, n)[x] && r.1[x] == NearestRow(ps, n, init)[x]
    {
      assert MinRow(ps, n)[x] == MinDist(x, ps, n);
      assert NearestRow(ps, n, init)[x] == Nearest(x, ps, n, init);
    }
    assert r.0 == MinRow(ps, n);
    assert r.1 == NearestRow(ps, n, init);
  }

  /** Filling from the corrected start gives, cell by cell, the smallest
      distance to a position and the position that owns the cell. */
  lemma {:induction false} FillNearest(ps: seq<real>, n: nat, init: real)
    requires CellsBelow(ps, n + 1)
    ensures Fill(NearestStart(n, init).0, NearestStart(n, init).1, ps) == (MinRow(ps, n), NearestRow(ps, n, init))
  {
    var start := NearestStart(n, init);
    if |ps| == 0 {
      assert start.0 == MinRow(ps, n);
      assert start.1 == NearestRow(ps, n, init);
    } else {
      var prev := ps[..|ps| - 1];
      assert CellsBelow(prev, n + 1);
      FillNearest(prev, n, init);
      PlaceRows(ps, n, init);
    }
  }

  /** v is a position whose cell is nearest to cell c. */
  predicate IsNearest(v: real, c: int, positions: seq<real>)
  {
    exists j :: (0 <= j < |positions| && v == positions[j] &&
      forall k :: 0 <= k < |positions| ==> AbsInt(c - Cell(v)) <= AbsInt(c - Cell(positions[k])))
  }

  /** The owner of a cell is either the start value, when no position is
      nearer than n, or a position at the smallest distance. */
  lemma {:induction false} NearestOwner(x: int, ps: seq<real>, n: int, init: real)
    requires n >= 0
    ensures (Nearest(x, ps, n, init) == init && MinDist(x, ps, n) == n) ||
      exists j :: (0 <= j < |ps| && Nearest(x, ps, n, init) == ps[j] &&
        AbsInt(x - Cell(ps[j])) == MinDist(x, ps, n))
  {
    if |ps| > 0 {
      var prev := ps[..|ps| - 1];
      var q := ps[|ps| - 1];
      NearestOwner(x, prev, n, init);
      if x == Cell(q) || AbsInt(x - Cell(q)) < MinDist(x, prev, n) {
        assert AbsInt(x - Cell(ps[|ps| - 1])) == MinDist(x, ps, n);
      } else if Nearest(x, prev, n, init) == init && MinDist(x, prev, n) == n {
      } else {
        var j :| 0 <= j < |prev| && Nearest(x, prev, n, init) == prev[j] &&
          AbsInt(x - Cell(prev[j])) == MinDist(x, prev, n);
        assert ps[j] == prev[j];
      }
    }
  }

  /** Every cell of the corrected table holds a position whose cell is
      nearest to it. */
  lemma NearestTableIsNearest(positions: seq<real>)
    requires InRange(positions)
    ensures forall c :: 0 <= c < |NearestTable(positions)| ==> IsNearest(NearestTable(positions)[c], c, positions)
  {
    var last := Last(positions);
    var n := Cell(last);
    FillNearest(positions, n, last);
    forall c | 0 <= c <= n
      ensures IsNearest(NearestTable(positions)[c], c, positions)
    {
      var v := Nearest(c, positions, n, last);
      assert NearestTable(positions)[c] == v;
      NearestOwner(c, positions, n, last);
      if v == last && MinDist(c, positions, n) == n {
        assert AbsInt(c - Cell(v)) <= n;
        assert positions[|positions| - 1] == v;
      } else {
        var j :| 0 <= j < |positions| && v == positions[j] && AbsInt(c - Cell(positions[j])) == MinDist(c, positions, n);
      }
    }
  }

  /** No two positions round to the same cell (as for distinct integer
      positions). */
  predicate DistinctCells(ps: seq<real>)
  {
    forall k, k' :: 0 <= k < k' < |ps| ==> Cell(ps[k]) != Cell(ps[k'])
  }

  lemma DistinctCellsPrefix(ps: seq<real>)
    requires |ps| > 0 && DistinctCells(ps)
    ensures DistinctCells(ps[..|ps| - 1])
    ensures forall k :: 0 <= k < |ps| - 1 ==> Cell(ps[k]) != Cell(ps[|ps| - 1])
  {
  }

  /** v is the earliest position whose cell is nearest to cell c. */
  predicate IsEarliestNearest(v: real, c: int, positions: seq<real>)
  {
    exists j :: (0 <= j < |positions| && v == positions[j] &&
      (forall k :: 0 <= k < |positions| ==> AbsInt(c - Cell(v)) <= AbsInt(c - Cell(positions[k]))) &&
      forall k :: 0 <= k < j ==> AbsInt(c - Cell(v)) < AbsInt(c - Cell(positions[k])))
  }

  /** ps[j] is the earliest position at distance m from cell x, and no
      earlier one is as near. */
  predicate FirstAt(x: int, ps: seq<real>, j: int, m: int)
  {
    0 <= j < |ps| && AbsInt(x - Cell(ps[j])) == m &&
    forall k :: 0 <= k < j ==> m < AbsInt(x - Cell(ps[k]))
  }

  /** With distinct cells, the owner is the start value when no position is
      nearer than n, or else the earliest position at the smallest
      distance. */
  lemma {:induction false} EarliestOwner(x: int, ps: seq<real>, n: int, init: real)
    requires n >= 0 && DistinctCells(ps)
    ensures (Nearest(x, ps, n, init) == init && MinDist(x, ps, n) == n) ||
      exists j :: FirstAt(x, ps, j, MinDist(x, ps, n)) && Nearest(x, ps, n, init) == ps[j]
  {
    if |ps| > 0 {
      var prev := ps[..|ps| - 1];
      var q := ps[|ps| - 1];
      var m, mp := MinDist(x, ps, n), MinDist(x, prev, n);
      var dq := AbsInt(x - Cell(q));
      assert m == MinInt(mp, dq);
      DistinctCellsPrefix(ps);
      EarliestOwner(x, prev, n, init);
      if x == Cell(q) || dq < mp {
        LastTakes(x, ps, n, init);
      } else if Nearest(x, prev, n, init) == init && mp == n {
        assert Nearest(x, ps, n, init) == init && m == n;
      } else {
        var j :| FirstAt(x, prev, j, mp) && Nearest(x, prev, n, init) == prev[j];
        EarlierKeeps(x, ps, n, init, j);
      }
    }
  }

  /** The last position owns a cell it sits on or is strictly nearest to. */
  lemma LastTakes(x: int, ps: seq<real>, n: int, init: real)
    requires n >= 0 && |ps| > 0
    requires forall k :: 0 <= k < |ps| - 1 ==> Cell(ps[k]) != Cell(ps[|ps| - 1])
    requires x == Cell(ps[|ps| - 1]) || AbsInt(x - Cell(ps[|ps| - 1])) < MinDist(x, ps[..|ps| - 1], n)
    ensures FirstAt(x, ps, |ps| - 1, MinDist(x, ps, n)) && Nearest(x, ps, n, init) == ps[|ps| - 1]
  {
  }

  /** An earlier owner keeps a cell the last position does not take. */
  lemma EarlierKeeps(x: int, ps: seq<real>, n: int, init: real, j: int)
    requires n >= 0 && |ps| > 0
    requires x != Cell(ps[|ps| - 1]) && AbsInt(x - Cell(ps[|ps| - 1])) >= MinDist(x, ps[..|ps| - 1], n)
    requires FirstAt(x, ps[..|ps| - 1], j, MinDist(x, ps[..|ps| - 1], n))
    requires Nearest(x, ps[..|ps| - 1], n, init) == ps[..|ps| - 1][j]
    ensures FirstAt(x, ps, j, MinDist(x, ps, n)) && Nearest(x, ps, n, init) == ps[j]
  {
    var prev := ps[..|ps| - 1];
    assert forall k :: 0 <= k <= j ==> ps[k] == prev[k];
  }

  /** When no two positions share a cell, every cell of the corrected table
      holds the earliest of the positions nearest to it: ties go to the
      earlier position. */
  lemma NearestTableEarliest(positions: seq<real>)
    requires InRange(positions) && DistinctCells(positions)
    ensures forall c :: 0 <= c < |NearestTable(positions)| ==>
      IsEarliestNearest(NearestTable(positions)[c], c, positions)
  {
    var last := Last(positions);
    var n := Cell(last);
    var L := |positions| - 1;
    FillNearest(positions, n, last);
    forall c | 0 <= c <= n
      ensures IsEarliestNearest(NearestTable(positions)[c], c, positions)
    {
      var v := Nearest(c, positions, n, last);
      assert NearestTable(positions)[c] == v;
      EarliestOwner(c, positions, n, last);
      if v == last && MinDist(c, positions, n) == n {
        assert positions[L] == v;
      } else {
        var j :| FirstAt(c, positions, j, MinDist(c, positions, n)) && v == positions[j];
      }
    }
  }

  // ---------------------------------------------------------------------
  // Cell 0 as written

  lemma {:induction false} SpreadLeftKeepsZero(c: seq<int>, d: seq<real>, p: real, idx: int, i: int)
    requires |c| == |d| && 0 <= idx < |c| && 1 <= i <= idx + 1 && c[0] == 0
    ensures SpreadLeft(c, d, p, idx, i).0[0] == 0 && SpreadLeft(c, d, p, idx, i).1[0] == d[0]
    decreases idx + 1 - i
  {
    if i < idx + 1 && i < c[idx - i] {
      SpreadLeftKeepsZero(c[idx - i := i], d[idx - i := p], p, idx, i + 1);
    }
  }

  lemma {:induction false} SpreadRightKeepsZero(c: seq<int>, d: seq<real>, p: real, idx: int, i: int)
    requires |c| == |d| && 0 <= idx < |c| && 1 <= i <= |c| - idx
    ensures SpreadRight(c, d, p, idx, i).0[0] == c[0] && SpreadRight(c, d, p, idx, i).1[0] == d[0]
    decreases |c| - idx - i
  {
    if i < |c| - idx && i < c[idx + i] {
      SpreadRightKeepsZero(c[idx + i := i], d[idx + i := p], p, idx, i + 1);
    }
  }

  lemma {:induction false} FillKeepsZero(c: seq<int>, d: seq<real>, ps: seq<real>)
    requires |c| == |d| && CellsBelow(ps, |c|) && |c| > 0 && c[0] == 0
    requires forall k :: 0 <= k < |ps| ==> Cell(ps[k]) != 0
    ensures Fill(c, d, ps).0[0] == 0 && Fill(c, d, ps).1[0] == d[0]
  {
    if |ps| > 0 {
      var prev := ps[..|ps| - 1];
      var p := ps[|ps| - 1];
      FillKeepsZero(c, d, prev);
      var f := Fill(c, d, prev);
      var idx := Cell(p);
      SpreadLeftKeepsZero(f.0[idx := 0], f.1[idx := p], p, idx, 1);
      var left := SpreadLeft(f.0[idx := 0], f.1[idx := p], p, idx, 1);
      SpreadRightKeepsZero(left.0, left.1, p, idx, 1);
    }
  }

  /** As written, cell 0 holds 0 whenever no position rounds to 0: no
      position can take it, even when none is 0. */
  lemma AsWrittenCellZero(positions: seq<real>)
    requires InRange(positions)
    requires forall k :: 0 <= k < |positions| ==> Cell(positions[k]) != 0
    ensures AsWrittenTable(positions)[0] == 0.0
  {
    var n := Cell(Last(positions));
    var start := AsWrittenStart(n, Last(positions));
    FillKeepsZero(start.0, start.1, positions);
  }

  /** When the first position rounds to 0 the start value of cell 0 is
      overwritten at once, and the table as written is the corrected one. */
  lemma AsWrittenFromZero(positions: seq<real>)
    requires InRange(positions) && Cell(positions[0]) == 0
    ensures AsWrittenTable(positions) == NearestTable(positions)
  {
    var last := Last(positions);
    var n := Cell(last);
    var a := AsWrittenStart(n, last);
    var b := NearestStart(n, last);
    var p := positions[0];
    assert a.0[0 := 0] == b.0[0 := 0];
    assert a.1[0 := p] == b.1[0 := p];
    assert Place(a.0, a.1, p) == Place(b.0, b.1, p);
    FillAfterFirst(a.0, a.1, b.0, b.1, positions, |positions|);
    assert positions[..|positions|] == positions;
  }

  /** Tables that agree after the first position agree after all of them. */
  lemma {:induction false} FillAfterFirst(a0: seq<int>, a1: seq<real>, b0: seq<int>, b1: seq<real>, ps: seq<real>, k: nat)
    requires |a0| == |a1| == |b0| == |b1| && CellsBelow(ps, |a0|) && 1 <= k <= |ps|
    requires Place(a0, a1, ps[0]) == Place(b0, b1, ps[0])
    ensures Fill(a0, a1, ps[..k]) == Fill(b0, b1, ps[..k])
  {
    assert ps[..k][..k - 1] == ps[..k - 1];
    if k == 1 {
      assert ps[..0] == [];
    } else {
      FillAfterFirst(a0, a1, b0, b1, ps, k - 1);
    }
  }

  /** The positions {0, 5.5}: 5.5 rounds to cell 6, so the table has seven
      cells, 0, 0, 0, 0, 5.5, 5.5, 5.5, where golang/grid_test.go:15-16
      expects the six of `int(maxPos) + 1` cells. */
  lemma HalfPositionExample()
    ensures AsWrittenTable([0.0, 5.5]) == [0.0, 0.0, 0.0, 0.0, 5.5, 5.5, 5.5]
  {
    var ps := [0.0, 5.5];
    assert Cell(0.0) == 0 && Cell(5.5) == 6;
    AsWrittenFromZero(ps);
    FillNearest(ps, 6, 5.5);
    assert ps[..1] == [0.0];
    assert [0.0][..0] == [];
    forall x | 0 <= x <= 6
      ensures NearestRow(ps, 6, 5.5)[x] == if x > 3 then 5.5 else 0.0
    {
      assert [0.0][..0] == [] && MinDist(x, [0.0], 6) == x;
      if x <= 3 {
        assert Nearest(x, [0.0], 6, 5.5) == 0.0;
      }
    }
    assert NearestTable(ps) == NearestRow(ps, 6, 5.5);
  }

  /** The positions {2, 5}: as written cell 0 holds 0, which is no position;
      the corrected table is 2, 2, 2, 2, 5, 5. */
  lemma TwoFiveExample()
    ensures AsWrittenTable([2.0, 5.0])[0] == 0.0
    ensures NearestTable([2.0, 5.0]) == [2.0, 2.0, 2.0, 2.0, 5.0, 5.0]
  {
    var ps := [2.0, 5.0];
    assert Cell(2.0) == 2 && Cell(5.0) == 5;
    AsWrittenCellZero(ps);
    FillNearest(ps, 5, 5.0);
    assert ps[..1] == [2.0];
    assert [2.0][..0] == [];
    assert NearestTable(ps) == NearestRow(ps, 5, 5.0);
  }
}
