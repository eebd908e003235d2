/**
 * Image pre-processing (process.go and the copy in golang/process.go): the
 * adaptive-threshold window derived from the image size, the two
 * thresholding passes, and the conversions between a gray image and a
 * matrix.
 *
 * A gray matrix is an `array2<real>` indexed `[row, col]`, so its height is
 * `Length0` and its width `Length1`. A gray image (`image.Gray`) is an
 * `array2<Byte>` indexed `[x, y]` like `GrayAt(x, y)`, so its width is
 * `Length0` and its height `Length1`. The colour conversion `grayImage` is
 * not part of this model: the passes start from the gray matrix.
 */
module Process {
  import opened Wrappers
  import opened Geometry
  import opened Threshold

  /** A pixel of an `image.Gray`. */
  type Byte = b: int | 0 <= b < 256

  // ---------------------------------------------------------------------
  // The window

  /** Bumps an even window to the next odd number. */
  function OddUp(n: int): (r: int)
    ensures r % 2 == 1
    ensures r == n || r == n + 1
    ensures n % 2 == 1 ==> r == n
  {
    if n % 2 == 0 then n + 1 else n
  }

  /**
   * `windowSize` of process.go, as written: both branches of the comparison
   * with the width assign the height, so the window is the height divided
   * by `divider`, bumped to odd, whatever the width.
   */
  function WindowSize(w: nat, h: nat, divider: int): (window: int)
    requires divider > 0
    ensures window % 2 == 1 && 1 <= window
    ensures window == h / divider || window == h / divider + 1
  {
    var max := if w > h then h else h;
    OddUp(max / divider)
  }

  /** The width never changes `windowSize`. */
  lemma WindowSizeIgnoresWidth(w1: nat, w2: nat, h: nat, divider: int)
    requires divider > 0
    ensures WindowSize(w1, h, divider) == WindowSize(w2, h, divider)
  {
  }

  /** The larger of the two image sides. */
  function MaxSide(w: nat, h: nat): (m: nat)
    ensures m >= w && m >= h && (m == w || m == h)
  {
    if w > h then w else h
  }

  /**
   * `windowSize` as its comparison intends it: the larger side divided by
   * `divider`, bumped to odd.
   */
  function WindowSizeMax(w: nat, h: nat, divider: int): (window: int)
    requires divider > 0
    ensures window % 2 == 1 && 1 <= window
    ensures window >= w / divider && window >= h / divider
    ensures window == MaxSide(w, h) / divider || window == MaxSide(w, h) / divider + 1
  {
    DivMonotone(w, MaxSide(w, h), divider);
    DivMonotone(h, MaxSide(w, h), divider);
    OddUp(MaxSide(w, h) / divider)
  }

  lemma DivMonotone(a: nat, b: nat, d: int)
    requires d > 0 && a <= b
    ensures a / d <= b / d
  {
    var qa, qb := a / d, b / d;
    assert qa * d + a % d == a && qb * d + b % d == b;
    if qa > qb {
      MulMonotone(qb + 1, qa, d);
      assert false;
    }
  }

  lemma MulMonotone(x: int, y: int, d: int)
    requires x <= y && d > 0
    ensures x * d <= y * d
  {
    assert (y - x) * d >= 0;
  }

  /** A wide image: process.go takes the window from the height alone. */
  lemma WindowSizeWideExample()
    ensures WindowSize(1000, 100, 10) == 11
    ensures WindowSizeMax(1000, 100, 10) == 101
  {
  }

  // ---------------------------------------------------------------------
  // process.go: the block size handed to adaptiveThreshold

  /** `(window - 1) / 2`, the block size process.go passes on. */
  function HalfWindow(window: int): (b: int)
    requires window >= 1
    ensures b >= 0 && (window % 2 == 1 ==> window == 2 * b + 1)
  {
    (window - 1) / 2
  }

  /**
   * For an odd window, half of it is a block size `adaptiveThreshold`
   * accepts exactly when the window is 3 more than a multiple of 4; a window
   * of the form `4k + 1` gives an even block size and a panic.
   */
  lemma {:induction false} HalfWindowGood(window: int)
    requires window >= 1 && window % 2 == 1
    ensures GoodBlockSize(HalfWindow(window)) <==> window % 4 == 3
  {
    var b := HalfWindow(window);
    assert window == 2 * b + 1;
    if b % 2 == 1 {
      assert b == 2 * (b / 2) + 1;
      assert window == 4 * (b / 2) + 3;
    } else {
      assert b == 2 * (b / 2);
      assert window == 4 * (b / 2) + 1;
    }
  }

  /** The block sizes of `binarize` and `removeBlobsBody` for a matrix of the
      given height and width. */
  function BinarizeBlock(rows: nat, cols: nat): int
  {
    HalfWindow(WindowSize(cols, rows, 10))
  }

  function RemoveBlobsBlock(rows: nat, cols: nat): int
  {
    HalfWindow(WindowSize(cols, rows, 20))
  }

  /** A 1000-pixel-high image: window 101, block size 50, which
      `adaptiveThreshold` rejects. */
  lemma BlockSizeExample()
    ensures WindowSize(800, 1000, 10) == 101
    ensures BinarizeBlock(1000, 800) == 50 && !GoodBlockSize(BinarizeBlock(1000, 800))
  {
    HalfWindowGood(101);
  }

  /** `adaptiveThreshold` gets past its block-size check and its windows fit. */
  predicate PassFits(rows: nat, cols: nat, blockSize: int)
  {
    GoodBlockSize(blockSize) && AllFit(rows, blockSize) && AllFit(cols, blockSize)
  }

  /**
   * `binarize` of process.go: the inverted threshold with maximum 255 and no
   * offset, with half the height-derived window as block size. It panics
   * with `ErrBlockSize` exactly when the window is of the form `4k + 1`.
   */
  method Binarize(src: array2<real>) returns (dst: array2?<real>, panicked: Option<Error>)
    ensures var b := BinarizeBlock(src.Length0, src.Length1);
      && (panicked == Some(ErrBlockSize) <==> WindowSize(src.Length1, src.Length0, 10) % 4 == 1)
      && (panicked == Some(ErrIndexOutOfRange) <==> GoodBlockSize(b) && !PassFits(src.Length0, src.Length1, b))
      && (panicked == None <==> PassFits(src.Length0, src.Length1, b))
      && (panicked == None ==>
        dst != null && fresh(dst) && dst.Length0 == src.Length0 && dst.Length1 == src.Length1 &&
        forall r, c :: 0 <= r < dst.Length0 && 0 <= c < dst.Length1 ==>
          dst[r, c] == Binarise(ThreshBinaryInv, src[r, c], CellMean(src, r, c, b) - 0.0, 255.0))
  {
    var window := WindowSize(src.Length1, src.Length0, 10);
    HalfWindowGood(window);
    dst, panicked := AdaptiveThreshold(src, 255.0, ThreshBinaryInv, HalfWindow(window), 0.0);
  }

  /**
   * `removeBlobsBody` of process.go: the plain threshold with maximum 255
   * and offset -128 (a cell survives when it exceeds its window mean plus
   * 128), with half the height-derived window of divider 20 as block size.
   */
  method RemoveBlobsBody(src: array2<real>) returns (dst: array2?<real>, panicked: Option<Error>)
    ensures var b := RemoveBlobsBlock(src.Length0, src.Length1);
      && (panicked == Some(ErrBlockSize) <==> WindowSize(src.Length1, src.Length0, 20) % 4 == 1)
      && (panicked == Some(ErrIndexOutOfRange) <==> GoodBlockSize(b) && !PassFits(src.Length0, src.Length1, b))
      && (panicked == None <==> PassFits(src.Length0, src.Length1, b))
      && (panicked == None ==>
        dst != null && fresh(dst) && dst.Length0 == src.Length0 && dst.Length1 == src.Length1 &&
        forall r, c :: 0 <= r < dst.Length0 && 0 <= c < dst.Length1 ==>
          dst[r, c] == Binarise(ThreshBinary, src[r, c], CellMean(src, r, c, b) - (-128.0), 255.0))
  {
    var window := WindowSize(src.Length1, src.Length0, 20);
    HalfWindowGood(window);
    dst, panicked := AdaptiveThreshold(src, 255.0, ThreshBinary, HalfWindow(window), -128.0);
  }

  /** Every cell is 0 or 255. */
  predicate IsBinary(m: array2<real>, level: real)
    reads m
  {
    forall r, c :: 0 <= r < m.Length0 && 0 <= c < m.Length1 ==> m[r, c] == 0.0 || m[r, c] == level
  }

  /**
   * `preProcess` of process.go from the gray matrix on: `removeBlobsBody`
   * of `binarize`. The first pass to panic decides the outcome; when
   * neither does, the result has the size of the input and holds only 0 and
   * 255, and `binary` is the intermediate matrix.
   */
  method PreProcess(gray: array2<real>) returns (dst: array2?<real>, panicked: Option<Error>, binary: array2?<real>)
    ensures var rows, cols := gray.Length0, gray.Length1;
      && (panicked == None <==>
        PassFits(rows, cols, BinarizeBlock(rows, cols)) && PassFits(rows, cols, RemoveBlobsBlock(rows, cols)))
      && (panicked == Some(ErrBlockSize) <==>
        WindowSize(cols, rows, 10) % 4 == 1 ||
        (PassFits(rows, cols, BinarizeBlock(rows, cols)) && WindowSize(cols, rows, 20) % 4 == 1))
      && (panicked == None ==>
        dst != null && binary != null && dst.Length0 == rows && dst.Length1 == cols &&
        binary.Length0 == rows && binary.Length1 == cols && IsBinary(binary, 255.0) && IsBinary(dst, 255.0) &&
        (forall r, c :: 0 <= r < rows && 0 <= c < cols ==>
          binary[r, c] == Binarise(ThreshBinaryInv, gray[r, c],
            CellMean(gray, r, c, BinarizeBlock(rows, cols)) - 0.0, 255.0)) &&
        forall r, c :: 0 <= r < rows && 0 <= c < cols ==>
          dst[r, c] == Binarise(ThreshBinary, binary[r, c],
            CellMean(binary, r, c, RemoveBlobsBlock(rows, cols)) + 128.0, 255.0))
  {
    binary, panicked := Binarize(gray);
    if panicked != None {
      dst := null;
      return;
    }
    dst, panicked := RemoveBlobsBody(binary);
  }

  // ---------------------------------------------------------------------
  // process.go with the window of the larger side passed whole

  /**
   * `binarize` as evidently intended: the window of the larger side is
   * itself the block size, as in golang/process.go. The block size is
   * always accepted.
   */
  method BinarizeCorrected(src: array2<real>) returns (dst: array2?<real>, panicked: Option<Error>)
    ensures var b := WindowSizeMax(src.Length1, src.Length0, 10);
      && panicked != Some(ErrBlockSize)
      && (panicked == None <==> PassFits(src.Length0, src.Length1, b))
      && (panicked == None ==>
        dst != null && fresh(dst) && dst.Length0 == src.Length0 && dst.Length1 == src.Length1 &&
        forall r, c :: 0 <= r < dst.Length0 && 0 <= c < dst.Length1 ==>
          dst[r, c] == Binarise(ThreshBinaryInv, src[r, c], CellMean(src, r, c, b) - 0.0, 255.0))
  {
    var window := WindowSizeMax(src.Length1, src.Length0, 10);
    dst, panicked := AdaptiveThreshold(src, 255.0, ThreshBinaryInv, window, 0.0);
  }

  method RemoveBlobsBodyCorrected(src: array2<real>) returns (dst: array2?<real>, panicked: Option<Error>)
    ensures var b := WindowSizeMax(src.Length1, src.Length0, 20);
      && panicked != Some(ErrBlockSize)
      && (panicked == None <==> PassFits(src.Length0, src.Length1, b))
      && (panicked == None ==>
        dst != null && fresh(dst) && dst.Length0 == src.Length0 && dst.Length1 == src.Length1 &&
        forall r, c :: 0 <= r < dst.Length0 && 0 <= c < dst.Length1 ==>
          dst[r, c] == Binarise(ThreshBinary, src[r, c], CellMean(src, r, c, b) - (-128.0), 255.0))
  {
    var window := WindowSizeMax(src.Length1, src.Length0, 20);
    dst, panicked := AdaptiveThreshold(src, 255.0, ThreshBinary, window, -128.0);
  }

  /** `preProcess` with both corrections: it never panics on the block
      size; `binary` is the inverted threshold of `gray` with the window of
      the larger side over 10, and the result the plain threshold of
      `binary` with the window of the larger side over 20. */
  method PreProcessCorrected(gray: array2<real>) returns (dst: array2?<real>, panicked: Option<Error>, binary: array2?<real>)
    ensures panicked != Some(ErrBlockSize)
    ensures var rows, cols := gray.Length0, gray.Length1;
      panicked == None <==>
        PassFits(rows, cols, WindowSizeMax(cols, rows, 10)) && PassFits(rows, cols, WindowSizeMax(cols, rows, 20))
    ensures var rows, cols := gray.Length0, gray.Length1;
      panicked == None ==>
        dst != null && binary != null && dst.Length0 == rows && dst.Length1 == cols &&
        binary.Length0 == rows && binary.Length1 == cols && IsBinary(binary, 255.0) && IsBinary(dst, 255.0) &&
        (forall r, c :: 0 <= r < rows && 0 <= c < cols ==>
          binary[r, c] == Binarise(ThreshBinaryInv, gray[r, c],
            CellMean(gray, r, c, WindowSizeMax(cols, rows, 10)) - 0.0, 255.0)) &&
        forall r, c :: 0 <= r < rows && 0 <= c < cols ==>
          dst[r, c] == Binarise(ThreshBinary, binary[r, c],
            CellMean(binary, r, c, WindowSizeMax(cols, rows, 20)) + 128.0, 255.0)
  {
    binary, panicked := BinarizeCorrected(gray);
    if panicked != None {
      dst := null;
      return;
    }
    dst, panicked := RemoveBlobsBodyCorrected(binary);
  }

  // ---------------------------------------------------------------------
  // golang/process.go: the windows

  /** The `binarize` window of golang/process.go: the larger side over 10,
      bumped to odd. */
  function BinarizeWindowGo(rows: nat, cols: nat): (window: int)
    ensures window % 2 == 1 && GoodBlockSize(window)
    ensures window >= rows / 10 && window >= cols / 10
    ensures window == MaxSide(rows, cols) / 10 || window == MaxSide(rows, cols) / 10 + 1
  {
    var max := if cols > rows then cols else rows;
    DivMonotone(rows, max, 10);
    DivMonotone(cols, max, 10);
    OddUp(max / 10)
  }

  /** The `removeBlobsBody` window of golang/process.go: `max` starts at
      the width and is compared with the width again, so the window is the
      width over 20, bumped to odd, whatever the height. */
  function RemoveBlobsWindowGo(rows: nat, cols: nat): (window: int)
    ensures window % 2 == 1 && GoodBlockSize(window)
    ensures window == cols / 20 || window == cols / 20 + 1
  {
    var max := cols;
    var max' := if cols > max then cols else max;
    OddUp(max' / 20)
  }

  /** Every cell lies in `[0, 1]`. */
  predicate InUnit(m: array2<real>)
    reads m
  {
    forall r, c :: 0 <= r < m.Length0 && 0 <= c < m.Length1 ==> 0.0 <= m[r, c] <= 1.0
  }

  /**
   * `binarize` of golang/process.go: `AdaptiveThreshold` with maximum 1 and
   * the inverted rule. Its block size is always accepted; a cell becomes 1
   * exactly when its window mean exceeds it.
   */
  method BinarizeGo(src: array2<real>) returns (dst: array2?<real>, err: Option<Error>)
    ensures var b := BinarizeWindowGo(src.Length0, src.Length1);
      && err != Some(ErrBlockSize)
      && (err == None <==> PassFits(src.Length0, src.Length1, b))
      && (err == None ==>
        dst != null && fresh(dst) && dst.Length0 == src.Length0 && dst.Length1 == src.Length1 &&
        forall r, c :: 0 <= r < dst.Length0 && 0 <= c < dst.Length1 ==>
          (dst[r, c] == 1.0 <==> CellMean(src, r, c, b) > src[r, c]) &&
          (dst[r, c] == 0.0 <==> CellMean(src, r, c, b) <= src[r, c]))
  {
    var window := BinarizeWindowGo(src.Length0, src.Length1);
    dst, err := AdaptiveThresholdGo(src, 1.0, ThreshBinaryInv, window, 0.0);
  }

  /**
   * `removeBlobsBody` of golang/process.go. It asks for the plain rule with
   * offset -0.5, but `AdaptiveThreshold` of that copy ignores both, so a
   * cell becomes 1 exactly when its window mean exceeds it, as in
   * `BinarizeGo`.
   */
  method RemoveBlobsBodyGo(src: array2<real>) returns (dst: array2?<real>, err: Option<Error>)
    ensures var b := RemoveBlobsWindowGo(src.Length0, src.Length1);
      && err != Some(ErrBlockSize)
      && (err == None <==> PassFits(src.Length0, src.Length1, b))
      && (err == None ==>
        dst != null && fresh(dst) && dst.Length0 == src.Length0 && dst.Length1 == src.Length1 &&
        forall r, c :: 0 <= r < dst.Length0 && 0 <= c < dst.Length1 ==>
          (dst[r, c] == 1.0 <==> CellMean(src, r, c, b) > src[r, c]) &&
          (dst[r, c] == 0.0 <==> CellMean(src, r, c, b) <= src[r, c]))
  {
    var window := RemoveBlobsWindowGo(src.Length0, src.Length1);
    dst, err := AdaptiveThresholdGo(src, 1.0, ThreshBinary, window, -0.5);
  }

  // ---------------------------------------------------------------------
  // golang/process.go: imageToMatrix and matrixToImage

  /** `imageToMatrix`: an h-by-w matrix whose cell `[y, x]` is the gray value
      of pixel `(x, y)`. */
  method ImageToMatrix(img: array2<Byte>) returns (dst: array2<real>)
    ensures fresh(dst) && dst.Length0 == img.Length1 && dst.Length1 == img.Length0
    ensures forall y, x :: 0 <= y < dst.Length0 && 0 <= x < dst.Length1 ==> dst[y, x] == img[x, y] as real
  {
    var w, h := img.Length0, img.Length1;
    dst := new real[h, w];
    for x := 0 to w
      invariant forall y, x' :: 0 <= y < h && 0 <= x' < x ==> dst[y, x'] == img[x', y] as real
    {
      for y := 0 to h
        invariant forall y', x' :: 0 <= y' < h && 0 <= x' < x ==> dst[y', x'] == img[x', y'] as real
        invariant forall y' :: 0 <= y' < y ==> dst[y', x] == img[x, y'] as real
      {
        dst[y, x] := img[x, y] as real;
      }
    }
  }

  /**
   * Go's `uint8(v)` for a float: truncation toward zero when the value is a
   * byte; outside that range Go leaves the result to the platform, and the
   * model keeps the low eight bits of the truncated value.
   */
  function Uint8(v: real): (b: Byte)
    ensures 0.0 <= v < 256.0 ==> b == v.Floor
  {
    GoInt(v) % 256
  }

  /** The pixel `matrixToImage` writes for the cell `v`: `uint8(v * mult)`. */
  function Pixel(v: real, mult: real): Byte
  {
    Uint8(v * mult)
  }

  /** Every cell is at most 1: `mat64.Max(src) <= 1`. */
  predicate AtMostOne(m: array2<real>)
    reads m
  {
    forall r, c :: 0 <= r < m.Length0 && 0 <= c < m.Length1 ==> m[r, c] <= 1.0
  }

  /** `mat64.Max`: the largest cell of a non-empty matrix. */
  method MatMax(src: array2<real>) returns (m: real)
    requires src.Length0 >= 1 && src.Length1 >= 1
    ensures forall r, c :: 0 <= r < src.Length0 && 0 <= c < src.Length1 ==> src[r, c] <= m
    ensures exists r, c :: 0 <= r < src.Length0 && 0 <= c < src.Length1 && src[r, c] == m
  {
    m := src[0, 0];
    for r := 0 to src.Length0
      invariant forall r', c :: 0 <= r' < r && 0 <= c < src.Length1 ==> src[r', c] <= m
      invariant exists r', c :: 0 <= r' < src.Length0 && 0 <= c < src.Length1 && src[r', c] == m
    {
      for c := 0 to src.Length1
        invariant forall r', c' :: 0 <= r' < r && 0 <= c' < src.Length1 ==> src[r', c'] <= m
        invariant forall c' :: 0 <= c' < c ==> src[r, c'] <= m
        invariant exists r', c' :: 0 <= r' < src.Length0 && 0 <= c' < src.Length1 && src[r', c'] == m
      {
        if src[r, c] > m {
          m := src[r, c];
        }
      }
    }
  }

  /** The factor `matrixToImage` applies: 255 when every cell is at most 1,
      else 1. */
  function Mult(atMostOne: bool): real
  {
    if atMostOne then 255.0 else 1.0
  }

  /**
   * `matrixToImage`: a cols-by-rows image whose pixel `(col, row)` is
   * `uint8(v * mult)` for the cell `v` at `[row, col]`, where `mult` is 255
   * when the largest cell is at most 1 and 1 otherwise. An empty matrix is
   * outside the model, since `mat64.Max` reads its first cell.
   */
  method MatrixToImage(src: array2<real>) returns (img: array2<Byte>)
    requires src.Length0 >= 1 && src.Length1 >= 1
    ensures fresh(img) && img.Length0 == src.Length1 && img.Length1 == src.Length0
    ensures forall col, row :: 0 <= col < img.Length0 && 0 <= row < img.Length1 ==>
      img[col, row] == Pixel(src[row, col], Mult(AtMostOne(src)))
  {
    var rows, cols := src.Length0, src.Length1;
    var max := MatMax(src);
    var mult := 1.0;
    if max <= 1.0 {
      mult := 255.0;
    }
    assert mult == Mult(AtMostOne(src));
    img := new Byte[cols, rows];
    for col := 0 to cols
      invariant forall c, r :: 0 <= c < col && 0 <= r < rows ==> img[c, r] == Pixel(src[r, c], mult)
    {
      for row := 0 to rows
        invariant forall c, r :: 0 <= c < col && 0 <= r < rows ==> img[c, r] == Pixel(src[r, c], mult)
        invariant forall r :: 0 <= r < row ==> img[col, r] == Pixel(src[r, col], mult)
      {
        img[col, row] := Pixel(src[row, col], mult);
      }
    }
  }

  /** A byte survives `uint8(float64(b) * 1)`; a 0/1 pixel scaled by 255 is
      black or white. */
  lemma PixelRoundTrip(b: Byte)
    ensures Pixel(b as real, 1.0) == b
    ensures b <= 1 ==> Pixel(b as real, 255.0) == 255 * b
  {
    assert (b as real * 1.0).Floor == b;
    if b <= 1 {
      assert (b as real * 255.0) == (255 * b) as real;
    }
  }

  /**
   * `matrixToImage` undoes `imageToMatrix`: an image with some pixel above 1
   * comes back unchanged, and an image of 0s and 1s comes back with its 1s
   * turned to 255.
   */
  method ImageRoundTrip(img: array2<Byte>) returns (back: array2<Byte>)
    requires img.Length0 >= 1 && img.Length1 >= 1
    ensures back.Length0 == img.Length0 && back.Length1 == img.Length1
    ensures (exists x, y :: 0 <= x < img.Length0 && 0 <= y < img.Length1 && img[x, y] > 1) ==>
      forall x, y :: 0 <= x < img.Length0 && 0 <= y < img.Length1 ==> back[x, y] == img[x, y]
    ensures (forall x, y :: 0 <= x < img.Length0 && 0 <= y < img.Length1 ==> img[x, y] <= 1) ==>
      forall x, y :: 0 <= x < img.Length0 && 0 <= y < img.Length1 ==> back[x, y] == 255 * img[x, y]
  {
    var m := ImageToMatrix(img);
    back := MatrixToImage(m);
    if exists x, y :: 0 <= x < img.Length0 && 0 <= y < img.Length1 && img[x, y] > 1 {
      var x, y :| 0 <= x < img.Length0 && 0 <= y < img.Length1 && img[x, y] > 1;
      assert m[y, x] > 1.0;
      assert !AtMostOne(m);
      forall x', y' | 0 <= x' < img.Length0 && 0 <= y' < img.Length1
        ensures back[x', y'] == img[x', y']
      {
        PixelRoundTrip(img[x', y']);
      }
    } else {
      assert AtMostOne(m);
      forall x', y' | 0 <= x' < img.Length0 && 0 <= y' < img.Length1
        ensures back[x', y'] == 255 * img[x', y']
      {
        PixelRoundTrip(img[x', y']);
      }
    }
  }
}
