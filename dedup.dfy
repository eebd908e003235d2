/**
 * Duplicate-line removal: `removeDuplicateLines` in low_structures.go (the
 * copy in golang/low_structures.go is identical) and, through the same
 * generic pass, `remove_duplicate_lines` in low_structures.py.
 *
 * Both copies mark line k for removal when SOME earlier line j < k (removed
 * or not) forms a duplicate pair with it, and keep the unmarked lines in
 * their input order. The pass is stated once, over a pair rule
 * `dup(earlier, later)`, and its properties (order-preserving subsequence,
 * first line kept, length, no duplicate pair left, idempotence) are proved
 * once for every rule.
 */
module Dedup {
  import opened Geometry
  import opened Angles

  /** A duplicate test on a pair of lines, the earlier one first. */
  type DupRule = (Line, Line) -> bool

  /** Line k is marked: some earlier line forms a duplicate pair with it. */
  predicate Removed(lines: seq<Line>, k: int, dup: DupRule)
    requires 0 <= k < |lines|
  {
    exists j :: 0 <= j < k && dup(lines[j], lines[k])
  }

  /** The unmarked lines among the first n, in input order. */
  function KeptPrefix(lines: seq<Line>, n: nat, dup: DupRule): seq<Line>
    requires n <= |lines|
  {
    if n == 0 then []
    else KeptPrefix(lines, n - 1, dup) + (if Removed(lines, n - 1, dup) then [] else [lines[n - 1]])
  }

  /** The indices of the unmarked lines among the first n, increasing. */
  ghost function KeptIndices(lines: seq<Line>, n: nat, dup: DupRule): seq<int>
    requires n <= |lines|
  {
    if n == 0 then []
    else KeptIndices(lines, n - 1, dup) + (if Removed(lines, n - 1, dup) then [] else [n - 1])
  }

  /** The indices of the marked lines among the first n. */
  ghost function RemovedSet(lines: seq<Line>, n: nat, dup: DupRule): set<int>
    requires n <= |lines|
  {
    set k | 0 <= k < n && Removed(lines, k, dup)
  }

  /** The result of the pass. */
  function Survivors(lines: seq<Line>, dup: DupRule): seq<Line>
  {
    KeptPrefix(lines, |lines|, dup)
  }

  /** The kept prefix is the input read at the kept indices, which are
      increasing and are exactly the unmarked indices below n. */
  lemma {:induction false} KeptPrefixIndices(lines: seq<Line>, n: nat, dup: DupRule)
    requires n <= |lines|
    ensures |KeptPrefix(lines, n, dup)| == |KeptIndices(lines, n, dup)|
    ensures n > 0 ==> |KeptIndices(lines, n, dup)| > 0 && KeptIndices(lines, n, dup)[0] == 0
    ensures forall m :: 0 <= m < |KeptIndices(lines, n, dup)| ==>
      0 <= KeptIndices(lines, n, dup)[m] < n &&
      KeptPrefix(lines, n, dup)[m] == lines[KeptIndices(lines, n, dup)[m]]
    ensures forall m, m' :: 0 <= m < m' < |KeptIndices(lines, n, dup)| ==>
      KeptIndices(lines, n, dup)[m] < KeptIndices(lines, n, dup)[m']
    ensures forall k :: 0 <= k < n ==> (k in KeptIndices(lines, n, dup) <==> !Removed(lines, k, dup))
  {
    if n > 0 {
      KeptPrefixIndices(lines, n - 1, dup);
    }
  }

  /** Every line is kept or marked: n = kept + marked. */
  lemma {:induction false} KeptPlusRemoved(lines: seq<Line>, n: nat, dup: DupRule)
    requires n <= |lines|
    ensures |KeptPrefix(lines, n, dup)| + |RemovedSet(lines, n, dup)| == n
  {
    if n > 0 {
      KeptPlusRemoved(lines, n - 1, dup);
      var before := RemovedSet(lines, n - 1, dup);
      assert n - 1 !in before;
      if Removed(lines, n - 1, dup) {
        assert RemovedSet(lines, n, dup) == before + {n - 1};
        assert |before + {n - 1}| == |before| + 1;
      } else {
        assert RemovedSet(lines, n, dup) == before;
      }
    } else {
      assert RemovedSet(lines, n, dup) == {};
    }
  }

  lemma {:induction false} KeptPrefixGrows(lines: seq<Line>, i: nat, n: nat, dup: DupRule)
    requires i <= n <= |lines|
    ensures |KeptPrefix(lines, i, dup)| <= |KeptPrefix(lines, n, dup)|
    decreases n - i
  {
    if i < n {
      KeptPrefixGrows(lines, i, n - 1, dup);
    }
  }

  /** One more index adds its line to the kept prefix exactly when it is
      not in the removal set. */
  lemma KeptStep(lines: seq<Line>, i: nat, n: nat, dup: DupRule)
    requires i < n <= |lines|
    ensures i in RemovedSet(lines, n, dup) <==> Removed(lines, i, dup)
    ensures KeptPrefix(lines, i + 1, dup) ==
      KeptPrefix(lines, i, dup) + (if i in RemovedSet(lines, n, dup) then [] else [lines[i]])
  {
  }

  /** The result is an order-preserving subsequence of the input: line k is
      in it (at its relative position) exactly when it is not marked. */
  lemma SurvivorsSubsequence(lines: seq<Line>, dup: DupRule)
    ensures |Survivors(lines, dup)| <= |lines|
    ensures |Survivors(lines, dup)| == |lines| - |RemovedSet(lines, |lines|, dup)|
    ensures |lines| > 0 ==> |Survivors(lines, dup)| > 0 && Survivors(lines, dup)[0] == lines[0]
    ensures forall k :: 0 <= k < |lines| && !Removed(lines, k, dup) ==> lines[k] in Survivors(lines, dup)
  {
    var n := |lines|;
    KeptPrefixIndices(lines, n, dup);
    KeptPlusRemoved(lines, n, dup);
    var ks := KeptIndices(lines, n, dup);
    forall k | 0 <= k < n && !Removed(lines, k, dup)
      ensures lines[k] in Survivors(lines, dup)
    {
      var m :| 0 <= m < |ks| && ks[m] == k;
      assert Survivors(lines, dup)[m] == lines[k];
    }
  }

  /** No two surviving lines form a duplicate pair: every pair was tested. */
  lemma NoDuplicatePairLeft(lines: seq<Line>, dup: DupRule)
    ensures forall a, b :: 0 <= a < b < |Survivors(lines, dup)| ==>
      !dup(Survivors(lines, dup)[a], Survivors(lines, dup)[b])
  {
    var n := |lines|;
    KeptPrefixIndices(lines, n, dup);
    var ks := KeptIndices(lines, n, dup);
    forall a, b | 0 <= a < b < |Survivors(lines, dup)|
      ensures !dup(Survivors(lines, dup)[a], Survivors(lines, dup)[b])
    {
      assert ks[b] in ks;
      assert !Removed(lines, ks[b], dup);
      assert ks[a] < ks[b];
    }
  }

  lemma {:induction false} NothingMarkedKeepsAll(lines: seq<Line>, n: nat, dup: DupRule)
    requires n <= |lines|
    requires forall k :: 0 <= k < |lines| ==> !Removed(lines, k, dup)
    ensures KeptPrefix(lines, n, dup) == lines[..n]
  {
    if n > 0 {
      NothingMarkedKeepsAll(lines, n - 1, dup);
      assert lines[..n] == lines[..n - 1] + [lines[n - 1]];
    }
  }

  /** Running the pass a second time removes nothing. */
  lemma Idempotent(lines: seq<Line>, dup: DupRule)
    ensures Survivors(Survivors(lines, dup), dup) == Survivors(lines, dup)
  {
    var s := Survivors(lines, dup);
    NoDuplicatePairLeft(lines, dup);
    forall k | 0 <= k < |s| ensures !Removed(s, k, dup) {
    }
    NothingMarkedKeepsAll(s, |s|, dup);
    assert s[..|s|] == s;
  }

  // ---------------------------------------------------------------------
  // The Go rule (low_structures.go:81-129)

  /** Lines whose distances differ by less than this are duplicates. */
  const MinDist: real := 3.0

  /** The closed view box [-w/2, w + w/2] x [-h/2, h + h/2], halves by Go's
      integer division. */
  predicate InViewGo(p: Point, width: int, height: int)
  {
    var minX := 0 - GoDiv(width, 2);
    var minY := 0 - GoDiv(height, 2);
    var maxX := width + GoDiv(width, 2);
    var maxY := height + GoDiv(height, 2);
    minX <= p.x <= maxX && minY <= p.y <= maxY
  }

  /** The Go duplicate test for an earlier line a and a later line b. */
  predicate DuplicatePairGo(a: Line, b: Line, width: int, height: int, solve: Solver)
  {
    SimilarAngles(a.theta, b.theta) &&
    (Abs((a.distance - b.distance) as real) < MinDist ||
     (var (ok, p) := Intersection(solve, a, b); ok && InViewGo(p, width, height)))
  }

  function GoRule(width: int, height: int, solve: Solver): DupRule
  {
    (a: Line, b: Line) => DuplicatePairGo(a, b, width, height, solve)
  }

  /** Line k is marked by one of the first i lines. */
  ghost predicate MarkedBy(lines: seq<Line>, i: int, k: int, dup: DupRule)
    requires 0 <= k < |lines|
  {
    exists j :: 0 <= j < i && j < k && dup(lines[j], lines[k])
  }

  /** The nested pair loops of `removeDuplicateLines` that fill `toRemove`. */
  method MarkDuplicates(lines: seq<Line>, width: int, height: int, solve: Solver)
    returns (toRemove: set<int>)
    ensures toRemove == RemovedSet(lines, |lines|, GoRule(width, height, solve))
  {
    ghost var dup := GoRule(width, height, solve);
    var n := |lines|;
    toRemove := {};
    var i := 0;
    while i < n
      invariant 0 <= i <= n
      invariant forall k :: k in toRemove <==> 0 <= k < n && MarkedBy(lines, i, k, dup)
    {
      var lineA := lines[i];
      var k := i + 1;
      while k < n
        invariant i + 1 <= k <= n
        invariant forall k' :: k' in toRemove <==>
          0 <= k' < n && (MarkedBy(lines, i, k', dup) || (i < k' < k && dup(lines[i], lines[k'])))
      {
        var lineB := lines[k];
        var similar := SimilarAngles(lineA.theta, lineB.theta);
        if !similar {
          k := k + 1;
          continue;
        }
        if Abs((lineA.distance - lineB.distance) as real) < MinDist {
          toRemove := toRemove + {k};
          k := k + 1;
          continue;
        }
        var (ok, point) := Intersection(solve, lineA, lineB);
        if !ok {
          k := k + 1;
          continue;
        }
        var inView := InViewGo(point, width, height);
        if inView {
          toRemove := toRemove + {k};
        }
        k := k + 1;
      }
      forall k' | 0 <= k' < n
        ensures MarkedBy(lines, i + 1, k', dup) <==>
          MarkedBy(lines, i, k', dup) || (i < k' && dup(lines[i], lines[k']))
      {
        if MarkedBy(lines, i + 1, k', dup) && !MarkedBy(lines, i, k', dup) {
          var j :| 0 <= j < i + 1 && j < k' && dup(lines[j], lines[k']);
          assert j == i;
        }
      }
      i := i + 1;
    }
    forall k ensures k in toRemove <==> k in RemovedSet(lines, n, dup) {
      if 0 <= k < n && Removed(lines, k, dup) {
        var j :| 0 <= j < k && dup(lines[j], lines[k]);
        assert MarkedBy(lines, n, k, dup);
      }
    }
  }

  /** `removeDuplicateLines`: the marked set, then the kept lines copied by
      index into a buffer of size len(lines) - len(toRemove). */
  method RemoveDuplicateLines(lines: seq<Line>, width: int, height: int, solve: Solver)
    returns (deDuped: seq<Line>)
    ensures deDuped == Survivors(lines, GoRule(width, height, solve))
  {
    ghost var dup := GoRule(width, height, solve);
    var n := |lines|;
    var toRemove := MarkDuplicates(lines, width, height, solve);
    KeptPlusRemoved(lines, n, dup);
    var buffer := new Line[n - |toRemove|];
    CopyKept(lines, toRemove, dup, buffer);
    deDuped := buffer[..];
  }

  /** The copy loop of `removeDuplicateLines`: the lines whose index is not
      marked go, in order, into the buffer. */
  method CopyKept(lines: seq<Line>, toRemove: set<int>, ghost dup: DupRule, buffer: array<Line>)
    requires toRemove == RemovedSet(lines, |lines|, dup)
    requires buffer.Length == |KeptPrefix(lines, |lines|, dup)|
    modifies buffer
    ensures buffer[..] == KeptPrefix(lines, |lines|, dup)
  {
    var n := |lines|;
    var j := 0;
    var i := 0;
    KeptPrefixGrows(lines, 0, n, dup);
    while i < n
      invariant 0 <= i <= n
      invariant j <= buffer.Length
      invariant buffer[..j] == KeptPrefix(lines, i, dup)
    {
      KeptPrefixGrows(lines, i + 1, n, dup);
      KeptStep(lines, i, n, dup);
      ghost var next := KeptPrefix(lines, i + 1, dup);
      if i in toRemove {
        assert next == buffer[..j];
        i := i + 1;
        continue;
      }
      assert next == buffer[..j] + [lines[i]];
      buffer[j] := lines[i];
      assert buffer[..j + 1] == next;
      j := j + 1;
      i := i + 1;
    }
    assert buffer[..] == buffer[..j];
  }

  /** Rows of the Go test table: two lines with angles 1.570796 and 1.5
      and distances 100 and 102 are duplicates whatever the solver says. */
  lemma CloseDistanceIsDuplicate(solve: Solver)
    ensures DuplicatePairGo(Line(1.570796, 100, 0), Line(1.5, 102, 0), 300, 300, solve)
    ensures !DuplicatePairGo(Line(0.0, 10, 0), Line(1.570796, 10, 0), 300, 300, solve)
  {
  }
}
