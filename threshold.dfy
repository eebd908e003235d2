/**
 * Adaptive thresholding (threshold.go and the copy in golang/threshold.go).
 *
 * A matrix is an `array2<real>` indexed `[row, col]`. Each cell is compared
 * with the mean of a square window of side `blockSize` around it, clipped
 * at the matrix edges by `viewValues`. The two copies share `viewValues`,
 * `meanMat` and the filter; they differ in how a bad block size is reported
 * and in the per-cell rule.
 */
module Threshold {
  import opened Wrappers

  /** The values of `thresholdType`; any other value leaves every cell 0. */
  const ThreshBinary: int := 0
  const ThreshBinaryInv: int := 1

  // ---------------------------------------------------------------------
  // The window

  /** The intersection of `[start, start + ksize)` with `[0, total)`, as a
      first index and a length. */
  function Window(start: int, ksize: int, total: int): (int, int)
  {
    var lo := if start < 0 then 0 else start;
    var hi := if start + ksize < total then start + ksize else total;
    (lo, hi - lo)
  }

  /**
   * `viewValues`: the first index and the length of a window of `ksize`
   * starting at `start`, clipped to `[0, total)`. Both edges are clipped
   * except when the window overhangs both: then only the left one is. A
   * window starting inside `[0, total]` stays inside it.
   */
  function ViewValues(start: int, ksize: int, total: int): (r: (int, int))
    ensures r == Window(start, ksize, total) <==> start >= 0 || start + ksize <= total
    ensures start < 0 ==> r == (0, ksize + start)
    ensures 0 <= start <= total && ksize >= 0 ==> r.0 == start && 0 <= r.1 <= ksize && r.0 + r.1 <= total
  {
    if start < 0 then (0, ksize + start)
    else if start + ksize > total then (start, total - start)
    else (start, ksize)
  }

  /** The window `[s, s + n)` is a non-empty part of `[0, total)`: a view the
      matrix library accepts. */
  predicate ViewFits(start: int, ksize: int, total: int)
  {
    var (s, n) := ViewValues(start, ksize, total);
    0 <= s && 1 <= n && s + n <= total
  }

  /** The window of half-width `(ksize - 1) / 2` around `p` fits. */
  predicate CellFits(p: int, ksize: int, total: int)
  {
    ViewFits(p - (ksize - 1) / 2, ksize, total)
  }

  /** Every window around an index of `[0, total)` fits. */
  predicate AllFit(total: int, ksize: int)
  {
    forall p :: 0 <= p < total ==> CellFits(p, ksize, total)
  }

  /**
   * The windows fit exactly when the dimension is 0 or at least
   * `ksize - 1`: on a shorter dimension a window overhangs both edges and
   * the view reaches past the end.
   */
  lemma AllFitIff(total: int, ksize: int)
    requires total >= 0 && ksize >= 1 && ksize % 2 == 1
    ensures AllFit(total, ksize) <==> total == 0 || total >= ksize - 1
  {
    var delta := (ksize - 1) / 2;
    assert ksize == 2 * delta + 1;
    if total == 0 || total >= ksize - 1 {
      forall p | 0 <= p < total
        ensures CellFits(p, ksize, total)
      {
        if p - delta < 0 {
          assert ViewValues(p - delta, ksize, total) == (0, p + delta + 1);
        }
      }
    } else {
      var p := if total > delta then total - delta else 0;
      assert 0 <= p < total && p - delta < 0;
      assert ViewValues(p - delta, ksize, total).1 == p + delta + 1 > total;
      assert !CellFits(p, ksize, total);
    }
  }

  // ---------------------------------------------------------------------
  // The mean

  /** The sum of `n` cells of row `r` from column `c0` on. */
  function RowSum(src: array2<real>, r: int, c0: int, n: int): real
    reads src
    requires 0 <= r < src.Length0 && 0 <= c0 && 0 <= n && c0 + n <= src.Length1
    decreases n
  {
    if n == 0 then 0.0 else RowSum(src, r, c0, n - 1) + src[r, c0 + n - 1]
  }

  /** `mat64.Sum` of the view of `nr` rows from `r0` and `nc` columns from
      `c0`. */
  function ViewSum(src: array2<real>, r0: int, nr: int, c0: int, nc: int): real
    reads src
    requires 0 <= r0 && 0 <= nr && r0 + nr <= src.Length0
    requires 0 <= c0 && 0 <= nc && c0 + nc <= src.Length1
    decreases nr
  {
    if nr == 0 then 0.0 else ViewSum(src, r0, nr - 1, c0, nc) + RowSum(src, r0 + nr - 1, c0, nc)
  }

  /** `meanMat`: the mean of the clipped window around `(row, col)`. */
  function MeanMat(row: int, rows: int, col: int, cols: int, delta: int, ksize: int, src: array2<real>): real
    reads src
    requires rows == src.Length0 && cols == src.Length1
    requires ViewFits(row - delta, ksize, rows) && ViewFits(col - delta, ksize, cols)
  {
    var (startRow, rowNum) := ViewValues(row - delta, ksize, rows);
    var (startCol, colNum) := ViewValues(col - delta, ksize, cols);
    ViewSum(src, startRow, rowNum, startCol, colNum) / (rowNum * colNum) as real
  }

  /** The mean `meanFilter` gives the cell `(row, col)`. */
  function CellMean(src: array2<real>, row: int, col: int, ksize: int): real
    reads src
    requires AllFit(src.Length0, ksize) && AllFit(src.Length1, ksize)
    requires 0 <= row < src.Length0 && 0 <= col < src.Length1
  {
    assert CellFits(row, ksize, src.Length0) && CellFits(col, ksize, src.Length1);
    MeanMat(row, src.Length0, col, src.Length1, (ksize - 1) / 2, ksize, src)
  }

  /** The window of a cell holds the cell and reaches `(ksize - 1) / 2`
      cells to each side, clipped at the matrix edges. */
  lemma CellWindow(total: int, p: int, ksize: int)
    requires ksize >= 1 && ksize % 2 == 1 && AllFit(total, ksize) && 0 <= p < total
    ensures var (s, n) := ViewValues(p - (ksize - 1) / 2, ksize, total);
      s <= p < s + n &&
      s == (if p - (ksize - 1) / 2 < 0 then 0 else p - (ksize - 1) / 2) &&
      s + n == (if p + (ksize - 1) / 2 + 1 < total then p + (ksize - 1) / 2 + 1 else total)
  {
    assert CellFits(p, ksize, total);
  }

  lemma {:induction false} RowSumBounds(src: array2<real>, r: int, c0: int, n: int, lo: real, hi: real)
    requires 0 <= r < src.Length0 && 0 <= c0 && 0 <= n && c0 + n <= src.Length1
    requires forall j :: c0 <= j < c0 + n ==> lo <= src[r, j] <= hi
    ensures n as real * lo <= RowSum(src, r, c0, n) <= n as real * hi
  {
    if n > 0 {
      RowSumBounds(src, r, c0, n - 1, lo, hi);
      assert lo <= src[r, c0 + n - 1] <= hi;
      assert RowSum(src, r, c0, n) == RowSum(src, r, c0, n - 1) + src[r, c0 + n - 1];
      assert (n - 1) as real + 1.0 == n as real;
      Distribute((n - 1) as real, lo);
      Distribute((n - 1) as real, hi);
    }
  }

  lemma {:induction false} ViewSumBounds(src: array2<real>, r0: int, nr: int, c0: int, nc: int, lo: real, hi: real)
    requires 0 <= r0 && 0 <= nr && r0 + nr <= src.Length0
    requires 0 <= c0 && 0 <= nc && c0 + nc <= src.Length1
    requires forall i, j :: r0 <= i < r0 + nr && c0 <= j < c0 + nc ==> lo <= src[i, j] <= hi
    ensures nr as real * (nc as real * lo) <= ViewSum(src, r0, nr, c0, nc) <= nr as real * (nc as real * hi)
  {
    if nr > 0 {
      ViewSumBounds(src, r0, nr - 1, c0, nc, lo, hi);
      RowSumBounds(src, r0 + nr - 1, c0, nc, lo, hi);
      assert ViewSum(src, r0, nr, c0, nc) == ViewSum(src, r0, nr - 1, c0, nc) + RowSum(src, r0 + nr - 1, c0, nc);
      var m := (nr - 1) as real;
      var below, above := nc as real * lo, nc as real * hi;
      assert m + 1.0 == nr as real;
      Distribute(m, below);
      Distribute(m, above);
      assert nr as real * below == m * below + below;
      assert nr as real * above == m * above + above;
    }
  }

  lemma Distribute(a: real, k: real)
    ensures (a + 1.0) * k == a * k + k
  {
  }

  /** A window mean lies between the least and the greatest cell. */
  lemma CellMeanBounds(src: array2<real>, row: int, col: int, ksize: int, lo: real, hi: real)
    requires AllFit(src.Length0, ksize) && AllFit(src.Length1, ksize)
    requires 0 <= row < src.Length0 && 0 <= col < src.Length1
    requires forall i, j :: 0 <= i < src.Length0 && 0 <= j < src.Length1 ==> lo <= src[i, j] <= hi
    ensures lo <= CellMean(src, row, col, ksize) <= hi
  {
    var delta := (ksize - 1) / 2;
    assert CellFits(row, ksize, src.Length0) && CellFits(col, ksize, src.Length1);
    var (startRow, rowNum) := ViewValues(row - delta, ksize, src.Length0);
    var (startCol, colNum) := ViewValues(col - delta, ksize, src.Length1);
    assert 0 <= startRow && 1 <= rowNum && startRow + rowNum <= src.Length0;
    assert 0 <= startCol && 1 <= colNum && startCol + colNum <= src.Length1;
    ViewMeanBounds(src, startRow, rowNum, startCol, colNum, lo, hi);
  }

  lemma ViewMeanBounds(src: array2<real>, r0: int, nr: int, c0: int, nc: int, lo: real, hi: real)
    requires 0 <= r0 && 1 <= nr && r0 + nr <= src.Length0
    requires 0 <= c0 && 1 <= nc && c0 + nc <= src.Length1
    requires forall i, j :: 0 <= i < src.Length0 && 0 <= j < src.Length1 ==> lo <= src[i, j] <= hi
    ensures lo <= ViewSum(src, r0, nr, c0, nc) / (nr * nc) as real <= hi
  {
    var sum, size := ViewSum(src, r0, nr, c0, nc), (nr * nc) as real;
    assert nr as real * (nc as real * lo) <= sum <= nr as real * (nc as real * hi) by {
      ViewSumBounds(src, r0, nr, c0, nc, lo, hi);
    }
    ProductCast(nr, nc);
    QuotientBounds(sum, size, nr as real, nc as real, lo, hi);
  }

  lemma ProductCast(a: int, b: int)
    requires a >= 1 && b >= 1
    ensures (a * b) as real == a as real * b as real
  {
  }

  lemma QuotientBounds(sum: real, size: real, a: real, b: real, lo: real, hi: real)
    requires a >= 1.0 && b >= 1.0 && size == a * b && a * (b * lo) <= sum <= a * (b * hi)
    ensures lo <= sum / size <= hi
  {
    assert a * b >= 1.0;
    assert a * (b * lo) == (a * b) * lo && a * (b * hi) == (a * b) * hi;
  }

  /** `meanFilter` (and `boxFilter`): every cell of the result is the mean of
      its window. The columns, which the source spreads over goroutines,
      are visited one after the other. */
  method MeanFilter(src: array2<real>, ksize: int) returns (dst: array2<real>)
    requires AllFit(src.Length0, ksize) && AllFit(src.Length1, ksize)
    ensures fresh(dst) && dst.Length0 == src.Length0 && dst.Length1 == src.Length1
    ensures forall r, c :: 0 <= r < dst.Length0 && 0 <= c < dst.Length1 ==> dst[r, c] == CellMean(src, r, c, ksize)
  {
    dst := new real[src.Length0, src.Length1];
    for col := 0 to src.Length1
      invariant forall r, c :: 0 <= r < dst.Length0 && 0 <= c < col ==> dst[r, c] == CellMean(src, r, c, ksize)
    {
      FilterColumn(src, dst, col, ksize);
    }
  }

  /** The goroutine of `meanFilter` for one column. */
  method FilterColumn(src: array2<real>, dst: array2<real>, col: int, ksize: int)
    requires AllFit(src.Length0, ksize) && AllFit(src.Length1, ksize)
    requires src != dst && dst.Length0 == src.Length0 && dst.Length1 == src.Length1 && 0 <= col < src.Length1
    modifies dst
    ensures forall r :: 0 <= r < dst.Length0 ==> dst[r, col] == CellMean(src, r, col, ksize)
    ensures forall r, c :: 0 <= r < dst.Length0 && 0 <= c < dst.Length1 && c != col ==> dst[r, c] == old(dst[r, c])
  {
    var rows, cols := src.Length0, src.Length1;
    var delta := (ksize - 1) / 2;
    for row := 0 to rows
      invariant forall r :: 0 <= r < row ==> dst[r, col] == CellMean(src, r, col, ksize)
      invariant forall r, c :: 0 <= r < rows && 0 <= c < cols && c != col ==> dst[r, c] == old(dst[r, c])
    {
      assert CellFits(row, ksize, rows) && CellFits(col, ksize, cols);
      var m := MeanMat(row, rows, col, cols, delta, ksize, src);
      dst[row, col] := m;
    }
  }

  // ---------------------------------------------------------------------
  // threshold.go: adaptiveThreshold

  /** The cell rule of `adaptiveThreshold`, against `level` = mean - delta. */
  function Binarise(threshold: int, srcVal: real, level: real, maxValue: real): (v: real)
    ensures v == maxValue || v == 0.0
    ensures v != maxValue ==> !(threshold == ThreshBinary && srcVal > level) && !(threshold == ThreshBinaryInv && srcVal < level)
    ensures v != 0.0 ==> (threshold == ThreshBinary && srcVal > level) || (threshold == ThreshBinaryInv && srcVal < level)
  {
    if threshold == ThreshBinary then (if srcVal > level then maxValue else 0.0)
    else if threshold == ThreshBinaryInv then (if srcVal < level then maxValue else 0.0)
    else 0.0
  }

  /** The second loop of `adaptiveThreshold`: every cell of `dst`, which
      holds the window means, is replaced by the cell rule. */
  method ThresholdCells(src: array2<real>, dst: array2<real>, threshold: int, maxValue: real, delta: real)
    requires src != dst && dst.Length0 == src.Length0 && dst.Length1 == src.Length1
    modifies dst
    ensures forall r, c :: 0 <= r < dst.Length0 && 0 <= c < dst.Length1 ==>
      dst[r, c] == Binarise(threshold, src[r, c], old(dst[r, c]) - delta, maxValue)
  {
    var rows, cols := src.Length0, src.Length1;
    for col := 0 to cols
      invariant forall r, c :: 0 <= r < rows && 0 <= c < col ==>
        dst[r, c] == Binarise(threshold, src[r, c], old(dst[r, c]) - delta, maxValue)
      invariant forall r, c :: 0 <= r < rows && col <= c < cols ==> dst[r, c] == old(dst[r, c])
    {
      for row := 0 to rows
        invariant forall r, c :: 0 <= r < rows && 0 <= c < col ==>
          dst[r, c] == Binarise(threshold, src[r, c], old(dst[r, c]) - delta, maxValue)
        invariant forall r :: 0 <= r < row ==>
          dst[r, col] == Binarise(threshold, src[r, col], old(dst[r, col]) - delta, maxValue)
        invariant forall r, c :: 0 <= r < rows && col <= c < cols && (c > col || r >= row) ==> dst[r, c] == old(dst[r, c])
      {
        var newVal := 0.0;
        var dstVal := dst[row, col] - delta;
        var srcVal := src[row, col];
        if threshold == ThreshBinary {
          if srcVal > dstVal {
            newVal := maxValue;
          }
        } else if threshold == ThreshBinaryInv {
          if srcVal < dstVal {
            newVal := maxValue;
          }
        }
        dst[row, col] := newVal;
      }
    }
  }

  /** A block size `adaptiveThreshold` accepts: odd and at least 1. */
  predicate GoodBlockSize(blockSize: int)
  {
    !(blockSize % 2 != 1 || blockSize < 1)
  }

  /**
   * `adaptiveThreshold`. A bad block size panics with `ErrBlockSize`; a
   * negative `maxValue` returns `src` itself; a window the matrix cannot
   * hold makes the matrix library panic; otherwise a new matrix holds, for
   * each cell, `maxValue` or 0 by the cell rule against the window mean
   * less `delta`.
   */
  method AdaptiveThreshold(src: array2<real>, maxValue: real, threshold: int, blockSize: int, delta: real)
    returns (dst: array2?<real>, panicked: Option<Error>)
    ensures panicked == Some(ErrBlockSize) <==> !GoodBlockSize(blockSize)
    ensures panicked == None <==>
      GoodBlockSize(blockSize) && (maxValue < 0.0 || (AllFit(src.Length0, blockSize) && AllFit(src.Length1, blockSize)))
    ensures GoodBlockSize(blockSize) && maxValue < 0.0 ==> panicked == None && dst == src
    ensures panicked == Some(ErrIndexOutOfRange) <==>
      GoodBlockSize(blockSize) && maxValue >= 0.0 && !(AllFit(src.Length0, blockSize) && AllFit(src.Length1, blockSize))
    ensures panicked == None && maxValue >= 0.0 ==>
      dst != null && fresh(dst) && dst.Length0 == src.Length0 && dst.Length1 == src.Length1 &&
      AllFit(src.Length0, blockSize) && AllFit(src.Length1, blockSize) &&
      forall r, c :: 0 <= r < dst.Length0 && 0 <= c < dst.Length1 ==>
        dst[r, c] == Binarise(threshold, src[r, c], CellMean(src, r, c, blockSize) - delta, maxValue)
  {
    if blockSize % 2 != 1 || blockSize < 1 {
      return null, Some(ErrBlockSize);
    }
    if maxValue < 0.0 {
      return src, None;
    }
    if !(AllFit(src.Length0, blockSize) && AllFit(src.Length1, blockSize)) {
      return null, Some(ErrIndexOutOfRange);
    }
    var means := MeanFilter(src, blockSize);
    label filtered:
    ThresholdCells(src, means, threshold, maxValue, delta);
    forall r, c | 0 <= r < means.Length0 && 0 <= c < means.Length1
      ensures means[r, c] == Binarise(threshold, src[r, c], CellMean(src, r, c, blockSize) - delta, maxValue)
    {
      assert old@filtered(means[r, c]) == CellMean(src, r, c, blockSize);
    }
    dst, panicked := means, None;
  }

  // ---------------------------------------------------------------------
  // golang/threshold.go: AdaptiveThreshold

  /** The cell rule of the older copy: `maxValue` where the window mean
      exceeds the cell. */
  function BinariseGo(mean: real, srcVal: real, maxValue: real): (v: real)
    ensures v == maxValue || v == 0.0
    ensures mean > srcVal ==> v == maxValue
    ensures v != maxValue ==> mean <= srcVal
  {
    if mean > srcVal then maxValue else 0.0
  }

  /** The second loop of the older `AdaptiveThreshold`. */
  method ThresholdCellsGo(src: array2<real>, dst: array2<real>, maxValue: real)
    requires src != dst && dst.Length0 == src.Length0 && dst.Length1 == src.Length1
    modifies dst
    ensures forall r, c :: 0 <= r < dst.Length0 && 0 <= c < dst.Length1 ==>
      dst[r, c] == BinariseGo(old(dst[r, c]), src[r, c], maxValue)
  {
    var rows, cols := src.Length0, src.Length1;
    for col := 0 to cols
      invariant forall r, c :: 0 <= r < rows && 0 <= c < col ==>
        dst[r, c] == BinariseGo(old(dst[r, c]), src[r, c], maxValue)
      invariant forall r, c :: 0 <= r < rows && col <= c < cols ==> dst[r, c] == old(dst[r, c])
    {
      for row := 0 to rows
        invariant forall r, c :: 0 <= r < rows && 0 <= c < col ==>
          dst[r, c] == BinariseGo(old(dst[r, c]), src[r, c], maxValue)
        invariant forall r :: 0 <= r < row ==>
          dst[r, col] == BinariseGo(old(dst[r, col]), src[r, col], maxValue)
        invariant forall r, c :: 0 <= r < rows && col <= c < cols && (c > col || r >= row) ==> dst[r, c] == old(dst[r, c])
      {
        var newVal := 0.0;
        var dstVal := dst[row, col];
        var srcVal := src[row, col];
        if dstVal > srcVal {
          newVal := maxValue;
        }
        dst[row, col] := newVal;
      }
    }
  }

  /** The older rule is the inverted rule of threshold.go with no offset. */
  lemma BinariseGoIsInverse(mean: real, srcVal: real, maxValue: real)
    ensures BinariseGo(mean, srcVal, maxValue) == Binarise(ThreshBinaryInv, srcVal, mean - 0.0, maxValue)
  {
  }

  /**
   * `AdaptiveThreshold` of the older copy: a bad block size is returned as
   * `ErrBlockSize` with no matrix; `thresholdType` and `delta` are
   * ignored.
   */
  method AdaptiveThresholdGo(src: array2<real>, maxValue: real, thresholdType: int, blockSize: int, delta: real)
    returns (dst: array2?<real>, err: Option<Error>)
    ensures err == Some(ErrBlockSize) <==> !GoodBlockSize(blockSize)
    ensures err == None <==>
      GoodBlockSize(blockSize) && (maxValue < 0.0 || (AllFit(src.Length0, blockSize) && AllFit(src.Length1, blockSize)))
    ensures err == Some(ErrBlockSize) ==> dst == null
    ensures GoodBlockSize(blockSize) && maxValue < 0.0 ==> err == None && dst == src
    ensures err == Some(ErrIndexOutOfRange) <==>
      GoodBlockSize(blockSize) && maxValue >= 0.0 && !(AllFit(src.Length0, blockSize) && AllFit(src.Length1, blockSize))
    ensures err == None && maxValue >= 0.0 ==>
      dst != null && fresh(dst) && dst.Length0 == src.Length0 && dst.Length1 == src.Length1 &&
      AllFit(src.Length0, blockSize) && AllFit(src.Length1, blockSize) &&
      forall r, c :: 0 <= r < dst.Length0 && 0 <= c < dst.Length1 ==>
        dst[r, c] == BinariseGo(CellMean(src, r, c, blockSize), src[r, c], maxValue)
  {
    if blockSize % 2 != 1 || blockSize < 1 {
      return null, Some(ErrBlockSize);
    }
    if maxValue < 0.0 {
      return src, None;
    }
    if !(AllFit(src.Length0, blockSize) && AllFit(src.Length1, blockSize)) {
      return null, Some(ErrIndexOutOfRange);
    }
    var means := MeanFilter(src, blockSize);
    label filtered:
    ThresholdCellsGo(src, means, maxValue);
    forall r, c | 0 <= r < means.Length0 && 0 <= c < means.Length1
      ensures means[r, c] == BinariseGo(CellMean(src, r, c, blockSize), src[r, c], maxValue)
    {
      assert old@filtered(means[r, c]) == CellMean(src, r, c, blockSize);
    }
    dst, err := means, None;
  }
}
