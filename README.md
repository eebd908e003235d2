# Sudoku grid finder: a verified model of the line-to-grid pipeline

The repository finds a sudoku puzzle in a photograph. Several steps run in order:

1. The image is thresholded and a Hough transform is run on it.
2. The Hough accumulator is read out into polar lines `(θ, distance, count)`.
3. Near-duplicate lines are removed.
4. The remaining lines are put into overlapping angle buckets. Each bucket's lines are split into two families of roughly perpendicular lines.
5. Each family is searched for ten lines that are evenly spaced along a crossing "divider" line.
6. The best sets of ten are paired into at most nine candidate 10×10 grids, and the best grid is kept.

The pipeline exists three times:
- the Go root package (`low_structures.go`, `grid.go`, `hough.go`, `threshold.go`, `process.go`, `sudoku.go`);
- an older Go copy under `golang/`;
- a Python version (`low_structures.py`, `grid.py`).

Small integer cores sit around the pipeline and are modelled as well:
- Bresenham rasterisation of a line fragment;
- generation of the Hough angles;
- adaptive-threshold window clipping and its per-pixel rule;
- derivation of the threshold window size;
- the digit recogniser's input preparation and `argmax`.

Conventions:
- Angles and positions are `real`. π is the float64 constant.
- Bucket parameters are integer degrees, as the `uint` arguments are.
- The 2×2 solve behind `intersection` (`mat64.Solve`, `cv2.solve`) is a function parameter `solve: (Line, Line) -> Option<Vec>`, together with its cos/sin. So are `math.Hypot`/`distanceBetweenPoints` (`dist`) and `lineFragment.Length` (`length`).
- Go `map` iteration order is random. Methods that range over a map take an `order` argument, listing the keys in any order, and their contracts hold for every order.
- A Python 2 dictionary lists its keys in an order set by their hashes. The Python search takes that order as a parameter `iter`, and its lemmas hold for every order that lists each key once.
- `sort.Sort` is not stable. A Go sort is modelled as "some permutation sorted by the key", and the contracts say only that.
- Images are `array2<Byte>` indexed `[x, y]`; matrices are `array2<real>` indexed `[row, col]`.

The golang/ copies of `similarAngles`, `removeDuplicateLines`, `generateAngleBuckets`, `linesWithSimilarAngle`, `putLinesIntoBuckets`, `viewValues`, `meanMat`, `GenerateThetas`, `HashKey` and the Hough read-out are the same as the root copies. They share one model, and the rows below cite the root copy. Where the copies differ (`AdaptiveThreshold`, `binarize`, `removeBlobsBody`, `preparePointDistances`), each copy has its own members.

Modules: `Wrappers`, `Geometry`, `Angles`, `Seqs`, `Dedup`, `Buckets`, `Bresenham`, `LowStructuresPy`, `Hough`, `Threshold`, `Process`, `Digits`, `GridScore`, `GridMatch`, `GridPairs`, `GridEval`, `GridTransform`, `GridPyTable`, `GridPySearch`, `GridPyFind`, `Sudoku`.

## Model

| member | source | states |
|---|---|---|
| Angles.ReduceAngleRange | low_structures.go:38-43 | an angle strictly inside (−2π, 2π) is left unchanged; any other angle is brought into [0, 2π) by removing a whole number of turns |
| Angles.ReduceNonNegative | low_structures.go:38-43 | on non-negative angles the reduction is the remainder modulo 2π |
| Angles.SimilarAnglesIsCircular | low_structures.go:35-50 | for non-negative angles, `similarAngles` holds exactly when their circular distance is below 0.5 |
| Angles.SimilarAnglesSymmetricReflexive | low_structures.go:35-50 | the relation is symmetric, and every angle is similar to itself |
| Angles.SimilarAnglesPeriodic | low_structures.go:38-43 | adding a full turn to a non-negative angle does not change the answer |
| Angles.SimilarAnglesTable | low_structures_test.go:18-47 | 0 and 3π are not similar, because 3π reduces to π; 0 and 4π are similar; 2π − 0.49 is similar to 0 and 2π − 0.5 is not; π/2 and π are not similar |
| Angles.SimilarAnglePyIsModPi | low_structures.py:6-20 | for angles in [0, π), the Python rule holds exactly when the threshold is positive and the distance modulo π is below it |
| Angles.SimilarityRulesDiffer | low_structures.py:18 | 0.1 and π − 0.1 are similar under the Python modulo-π rule but not under the Go modulo-2π rule |
| Geometry.GoInt | low_structures.go:73-76 | Go's float-to-int conversion truncates toward zero |
| Geometry.GoDiv | low_structures.go:84-88 | Go's integer division truncates toward zero; the view bounds `width/scope` use it |
| Geometry.RoundCoordinateError | low_structures.go:72-76 | adding 0.5 and truncating lands within half a unit of the value for v ≥ −0.5, and 0.5 to 1.5 above it for smaller v |
| Geometry.Intersection | low_structures.go:60-78 | ok holds exactly when the solve succeeds; the point is (0, 0) when it fails; otherwise each coordinate is the solution's value plus 0.5, truncated |
| Geometry.RoundCoordinateExamples | golang/low_structures_test.go:56-65 | 9.5 becomes 10, 199.4 becomes 199, and −0.7 becomes 0 |
| Dedup.MarkDuplicates | low_structures.go:90-118 | the marked set is exactly the indices k that have an earlier line i, marked or not, which the Go duplicate rule pairs with k. The rule: similar angle, and either distance difference below 3 or a solvable crossing inside the padded view |
| Dedup.CopyKept | low_structures.go:120-129 | the copy loop fills the buffer with the unmarked lines, in input order |
| Dedup.RemoveDuplicateLines | low_structures.go:81-130 | the result is the survivors of the Go rule |
| Dedup.KeptPlusRemoved | low_structures.go:120 | kept lines plus marked indices make up the input length, so the buffer of size `len(lines)-len(toRemove)` is filled exactly |
| Dedup.KeptPrefixIndices | low_structures.go:120-129 | the kept lines are the input lines at strictly increasing indices, starting at index 0; an index is kept exactly when it is not marked |
| Dedup.SurvivorsSubsequence | low_structures.go:81-130 | the result is no longer than the input and has length len(lines) − \|toRemove\|; line 0 is always kept; every unmarked line is present |
| Dedup.NoDuplicatePairLeft | low_structures.go:91-118 | no two survivors, taken in order, satisfy the duplicate rule |
| Dedup.Idempotent | low_structures.go:81-130 | a second pass over the survivors removes nothing |
| Dedup.NothingMarkedKeepsAll | low_structures.go:120-129 | when no line is marked, the copy is the whole input |
| Dedup.CloseDistanceIsDuplicate | low_structures_test.go:111-131 | two similar lines at distances 100 and 102 are duplicates whatever the solver returns; lines at 0 and π/2 are not |
| Buckets.BucketRanges | low_structures.go:157-178 | one to five ranges; the first is centred on the bucket position and is bucketSize wide |
| Buckets.HalfTurnDistance | low_structures.go:157-178 | the distance between two angles in degrees, modulo a half turn: the smallest of \|d − c\| and \|d − c ± 180\|, never negative |
| Buckets.BucketMembership | low_structures.go:157-178 | for θ in [0°, 180°]: lying in a bucket's ranges implies being within half the bucket size of its position, or of position + 90° when orthogonal, modulo a half turn; lying strictly within implies being in a range |
| Buckets.CentresShape | low_structures.go:155-186 | the intended centres start at 0, grow by step, never pass maxPos, and the next one would |
| Buckets.AsWrittenDropsLastCentre | low_structures.go:182-185 | the loop as written gives either the intended centres or all of them except the last, and that last one is maxPos |
| Buckets.CentresAsWrittenAbove | low_structures.go:182-185 | every centre of the loop as written is the first one or lies below maxPos |
| Buckets.AsWrittenOmitsMaxPos | low_structures.go:182-185 | when maxPos is an intended centre other than 0, the loop as written does not reach it |
| Buckets.AsWrittenExample | low_structures_test.go:146-164 | with step 30 over 180°, the loop as written stops at 120 while the tests expect 150 |
| Buckets.AsWrittenPipelineExample | sudoku.go:138-140 | with bucket size 18, step 9 and the orthogonal flag, the loop as written gives 0..72 and the intended centres are 0..81 |
| Buckets.BucketsFromContents | low_structures.go:155-186 | the loop state maps every visited centre to its ranges and keeps the earlier entries |
| Buckets.AngleBucketsContents | low_structures.go:141-189 | the keys are exactly the centres from 0 to MaxAngle − step, each mapped to its ranges; 0 is always a key |
| Buckets.GenerateAngleBuckets | low_structures.go:141-189 | the map built by the corrected loop, which stops only past maxPos, is AngleBuckets |
| Buckets.CentresInRange | low_structures.go:148-152 | every centre lies in [0, 90) when orthogonal and in [0, 180) otherwise |
| Buckets.MatchesCount | low_structures.go:215-222 | a line occurs in a bucket's matches as often as in the input when its θ lies in one of the closed ranges, and not at all otherwise |
| Buckets.MatchLines | low_structures.go:213-222 | the inner loop computes the bucket's matches in input order, each line at most once per occurrence |
| Buckets.KeepPreserves | low_structures.go:224-228 | storing a new non-empty match list that no kept bucket holds keeps every stored entry correct and all stored lists distinct |
| Buckets.PutLinesIntoBuckets | low_structures.go:208-231 | every kept bucket holds its own non-empty matches; every bucket with non-empty matches has its list held by some kept bucket; no two kept buckets hold the same list |
| Buckets.LinesWithSimilarAngle | low_structures.go:193-206 | `similar` is the order-preserving selection of the lines similar to the angle, and `other` is the rest; together they are a permutation of the input |
| Seqs.FilterCounts | low_structures.go:197-203 | a kept element occurs as often as in the input, and a rejected one not at all |
| Seqs.Filter | low_structures.go:197-203 | the selection keeps only elements of the input that satisfy the test, and is no longer than the input |
| Seqs.FilterPartition | low_structures.go:193-206 | two complementary selections together are a permutation of the input |
| Seqs.SortDesc | grid.go:89 | the in-place sort leaves the array ordered by non-increasing key and permuted |
| Seqs.SortedCopyDesc | hough.go:127 | a sorted copy is ordered by non-increasing key and is a permutation |
| Seqs.SortBy | grid.py:103-104 | `sorted` returns a permutation of its input |
| Seqs.SortBySorted | grid.py:103-104 | under a total preorder the result of `sorted` is ordered |
| LowStructuresPy.PointInViewCentred | low_structures.py:47-62 | a point is in view exactly when it lies in the closed box padded by scope·w and scope·h on each side |
| LowStructuresPy.ShapeIsRowsFirst | grid.py:146 | NumPy's shape is (rows, cols), so `w` is the row count: x = 250 is outside an image of 100 rows and 300 columns, and inside one of 300 rows and 100 columns |
| LowStructuresPy.Intersections | low_structures.py:65-80 | the keys are exactly the pairs (j, i), j < i, whose solve succeeds, each mapped to its solution |
| LowStructuresPy.ParallelNeverDuplicate | low_structures.py:101-103 | when no solve succeeds, the Python rule pairs nothing, while the Go rule still pairs lines 2 apart |
| LowStructuresPy.MarkDuplicatesPy | low_structures.py:89-108 | the larger index of every pair that is similar, solvable and in view is marked, and nothing else |
| LowStructuresPy.RemoveDuplicateLinesPy | low_structures.py:83-111 | the result is the survivors of the Python rule, with the threshold converted from degrees |
| LowStructuresPy.RangesPyAreGoRanges | low_structures.py:135-152 | the Python ranges are the Go ranges converted to radians, in the same order |
| LowStructuresPy.BucketPy | low_structures.py:135-152 | the loop body builds the bucket's ranges |
| LowStructuresPy.BuiltPyMeans | low_structures.py:131-158 | the first centre is 0, each next one is one step further, and every centre after the first lies below max_pos |
| LowStructuresPy.BucketLoop | low_structures.py:131-158 | the `while` loop emits at least one bucket, each with its ranges, and stops once the next centre would reach max_pos |
| LowStructuresPy.GenerateAngleBucketsPy | low_structures.py:114-160 | the ordered buckets start at 0 and grow by the step; each centre after the first is below (π/2 or π) − step; the loop stops at the first centre that would not be |
| Bresenham.Sign | low_structures.go:238-250 | the sign is ±1 and d equals sign · \|d\| |
| Bresenham.WalkShape | low_structures.go:256-286 | the walk starts at the start point; each step moves the major coordinate by its sign and the minor one by 0 or its sign |
| Bresenham.InvClose | low_structures.go:264-268 | under the error invariant the current point is within half a step of the ideal line |
| Bresenham.InvStep | low_structures.go:264-269 | one step of the loop preserves the error invariant |
| Bresenham.InvEnd | low_structures.go:260-262 | when the major coordinate reaches its end, the point is the end point |
| Bresenham.WalkClose | low_structures.go:256-286 | every point of the walk is within half a step of the ideal line |
| Bresenham.WalkEnds | low_structures.go:256-286 | the walk ends at the end point |
| Bresenham.RasterIsRaster | low_structures.go:234-289 | the points run from start to end with max(\|dx\|, \|dy\|) + 1 entries; the major coordinate moves by ±1 per point and the minor one by 0 or ±1 in a fixed direction |
| Bresenham.RasterEnds | low_structures.go:234-289 | the last point is the fragment's end |
| Bresenham.RasterIsClose | low_structures.go:234-289 | every point is within half a pixel, along the minor axis, of the line through the two ends |
| Bresenham.PointsOnLineFragment | low_structures.go:234-289 | the method returns the raster of the fragment |
| Bresenham.WalkAlongX | low_structures.go:256-270 | the x-major loop yields the walk from the start with error dx/2 |
| Bresenham.WalkAlongY | low_structures.go:271-286 | the y-major loop yields the walk from the start with error dy/2 |
| Bresenham.RasterExample | low_structures.go:234-289 | (0,0)→(3,1) rasterises to (0,0), (1,0), (2,1), (3,1) |
| Bresenham.RasterTestExamples | low_structures_test.go:405-412 | (0,0)→(5,5) and (0,1)→(6,4) rasterise to the points the test expects |
| Hough.ThetasSpan | hough.go:49-58 | the count is int((end − start)/step) + 1 ≥ 1 when the quotient is non-negative; the last angle is start + (count−1)·step and is within one step of end, on the side the step's sign gives |
| Hough.Thetas | hough.go:52-56 | `count` angles starting at `start`, each one step after the previous |
| Hough.ThetasValue | hough.go:52-56 | entry i is start + i·step |
| Hough.ThetasExampleWhole | hough_test.go:21 | from −1 to 1 in steps of 1 gives −1, 0, 1 |
| Hough.ThetasExampleDown | hough_test.go:22 | a negative step counts down: from 1 to 0 by −0.5 gives 1, 0.5, 0 |
| Hough.ThetasExampleShort | hough_test.go:19 | from 0 to 1 by 0.3 gives four angles, the last 0.9 |
| Hough.GenerateThetas | hough.go:49-58 | no slice is made when the count is negative, where Go panics; otherwise the running `theta` loop fills the evenly stepped angles |
| Hough.CellLine | hough.go:103-119 | the distance is \|i − base\| and never negative; a negative row is flipped, with θ + π |
| Hough.RowLinesMeaning | hough.go:110-124 | a row yields exactly the lines of its cells with count ≥ 2 and ≥ threshold |
| Hough.ScanMeaning | hough.go:101-125 | the row-major scan yields exactly the lines of the voted cells |
| Hough.KeysMeaning | hough.go:120-123 | the key set holds exactly the keys of the lines seen |
| Hough.UniqueKeys | hough.go:120-123 | after `linesSet` filtering, no two kept lines share a key, and every key seen is kept |
| Hough.UniqueFirst | hough.go:120-123 | every kept line is the first line of its key in scan order |
| Hough.UniqueMembers | hough.go:120-123 | every kept line was found |
| Hough.ReadCell | hough.go:110-123 | one cell adds its line exactly when voted and its key is new, and `linesSet` stays the kept lines' keys |
| Hough.KeepLine | hough.go:120-123 | the `linesSet` test appends a line exactly when its key is new |
| Hough.ReadRow | hough.go:103-125 | after row i, the kept lines are the key-unique prefix of the scan of rows 0..i |
| Hough.Limit | hough.go:129-131 | with limit > 0 the result is the first min(limit, len) lines; otherwise it is the whole list |
| Hough.ReadOut | hough.go:101-133 | the lines found are sorted by non-increasing count, as a permutation, and then limited |
| Hough.FoundMeaning | hough.go:101-125 | every line found comes from a voted cell (distance ≥ 0, count ≥ 2 and ≥ threshold); keys are pairwise distinct; every voted cell's key is present |
| Hough.LimitKeepsMostVoted | hough.go:127-131 | no dropped line has more votes than a kept one |
| Threshold.ViewValues | threshold.go:21-31 | a negative start becomes (0, ksize + start); a window starting in [0, total] stays inside it; the result is the fully clipped window exactly unless the window overhangs both edges |
| Threshold.AllFitIff | threshold.go:33-39 | for odd ksize, every clipped window is a valid view exactly when the dimension is 0 or at least ksize − 1 |
| Threshold.CellWindow | threshold.go:34-35 | the window around p covers p and runs from max(0, p − delta) to min(total, p + delta + 1) |
| Threshold.CellMeanBounds | threshold.go:33-39 | the window mean lies between the smallest and largest value of the matrix |
| Threshold.ViewMeanBounds | threshold.go:36-38 | the mean of any non-empty view lies between the matrix's bounds |
| Threshold.FilterColumn | threshold.go:48-53 | one column's pass writes the window mean into each of its cells and leaves the other columns alone |
| Threshold.MeanFilter | threshold.go:41-58 | every output cell is the mean of its clipped window |
| Threshold.Binarise | threshold.go:71-87 | a cell is maxValue exactly when src > mean − delta under `threshBinary`, or src < mean − delta under `threshBinaryInv`; otherwise it is 0 |
| Threshold.ThresholdCells | threshold.go:70-87 | each cell is set by the rule from its own mean |
| Threshold.AdaptiveThreshold | threshold.go:60-89 | an even or non-positive block size panics with `errBlockSize`; maxValue < 0 returns `src`; a window the matrix cannot view panics; otherwise each cell follows the rule |
| Threshold.BinariseGo | golang/threshold.go:71-79 | the golang/ rule gives maxValue exactly when the mean exceeds the source value, and 0 otherwise |
| Threshold.BinariseGoIsInverse | golang/threshold.go:71-79 | the golang/ rule is the inverse rule with delta 0, whatever type and delta were passed |
| Threshold.ThresholdCellsGo | golang/threshold.go:70-81 | each cell is set by the golang/ rule |
| Threshold.AdaptiveThresholdGo | golang/threshold.go:60-83 | a bad block size returns `ErrBlockSize` and no matrix; maxValue < 0 returns (src, nil); otherwise each cell follows the golang/ rule |
| Process.OddUp | process.go:53-56 | an even window is bumped by one; the result is odd |
| Process.WindowSize | process.go:44-58 | the window is odd and at least 1, and equals h/divider or h/divider + 1 |
| Process.WindowSizeIgnoresWidth | process.go:48-51 | the window does not depend on the width at all |
| Process.WindowSizeMax | process.go:44-58 | the corrected window is odd, is at least w/divider and h/divider, and is max(w, h)/divider possibly bumped |
| Process.WindowSizeWideExample | process.go:48-51 | a 1000-wide, 100-high image with divider 10 gets 11 rather than 101 |
| Process.HalfWindow | process.go:63 | (window − 1)/2 is half the odd window, rounded down |
| Process.HalfWindowGood | process.go:63 | half of an odd window is a valid block size exactly when window ≡ 3 (mod 4) |
| Process.BlockSizeExample | process.go:62-63 | a 1000-high image gets window 101 and block size 50, which `adaptiveThreshold` rejects |
| Process.Binarize | process.go:61-64 | panics with `errBlockSize` exactly when the window is ≡ 1 (mod 4), and with an index error exactly when the block is valid but a window cannot be viewed; otherwise each cell is 255 when below its window mean and 0 otherwise |
| Process.RemoveBlobsBody | process.go:67-70 | the same with divider 20, `threshBinary` and delta −128 |
| Process.PreProcess | process.go:76-81 | `removeBlobsBody(binarize(gray))`: it panics when either step does; otherwise every cell of the intermediate is the inverted threshold of `gray` against its window mean (block size from the height over 10), and every cell of the output is the plain threshold of the intermediate against its window mean plus 128 (block size from the height over 20); both are binary |
| Process.BinarizeCorrected | process.go:61-64 | with the window itself as block size, `errBlockSize` cannot occur |
| Process.RemoveBlobsBodyCorrected | process.go:67-70 | the same for the second pass |
| Process.PreProcessCorrected | process.go:76-81 | the corrected composition never panics with `errBlockSize`; it panics exactly when a window of the larger side (over 10, then over 20) does not fit; otherwise the intermediate is the inverted threshold of `gray` and the output the plain threshold of the intermediate, cell by cell, with those windows |
| Process.BinarizeWindowGo | golang/process.go:90-99 | the golang/ window is max(rows, cols)/10, bumped to odd, and always a valid block size |
| Process.RemoveBlobsWindowGo | golang/process.go:106-115 | the golang/ window is cols/20, bumped to odd, whatever the rows |
| Process.BinarizeGo | golang/process.go:89-102 | a cell is 1 exactly when its window mean exceeds it, and 0 exactly otherwise |
| Process.RemoveBlobsBodyGo | golang/process.go:105-118 | the same rule with the cols/20 window; the type and delta −0.5 have no effect |
| Process.ImageToMatrix | golang/process.go:59-70 | an h×w matrix with M[y][x] = gray(x, y) |
| Process.Uint8 | golang/process.go:82 | for a value in [0, 256) the byte is its integer part |
| Process.MatMax | golang/process.go:75 | the value returned is the largest entry and occurs in the matrix |
| Process.MatrixToImage | golang/process.go:72-86 | a cols×rows image with pixel (col, row) = uint8(M[row][col]·mult), where mult is 255 exactly when the maximum is ≤ 1 |
| Process.PixelRoundTrip | golang/process.go:82 | a byte value survives conversion with multiplier 1; a 0/1 value becomes 0/255 |
| Process.ImageRoundTrip | golang/process.go:59-86 | image → matrix → image gives the image back when some pixel exceeds 1, and 255 × the image when all pixels are 0 or 1 |
| Digits.FirstMaxMeaning | digits/digits.go:35-45 | the result is (0, −1) when nothing exceeds −1; otherwise it is the first index of the largest value, with that value |
| Digits.Argmax | digits/digits.go:35-45 | the loop computes the first strict maximum from (0, −1) |
| Digits.ArgmaxTieExample | digits/digits.go:39-41 | with a tie, the first maximum wins |
| Digits.Inverted | digits/digits.go:58-64 | a pixel darker than the threshold becomes its inverse 255 − v, any other becomes 0 |
| Digits.InputIndexBijective | digits/digits.go:54-66 | x·28 + y sends distinct pixels to distinct inputs within 784 |
| Digits.BuildInput | digits/digits.go:54-68 | every pixel is replaced by its inverted value, and input[x·28 + y] is that value / 255, in [0, 1] |
| Digits.RecogniseDigit | digits/digits.go:49-72 | a non-28×28 image panics and is untouched; otherwise the pixels are inverted in place and the answer is the first maximum of the network's output on the prepared input |
| GridScore.MeanAcc.constructor | grid.go:39-41 | a new accumulator holds no values |
| GridScore.MeanAcc.Add | grid.go:43-45 | `Add` appends the value |
| GridScore.MeanAcc.Mean | grid.go:47-56 | the mean of the values added, and none when there are no values |
| GridScore.MeanOf | grid.go:47-56 | a mean exists exactly when there is at least one value |
| GridScore.SumBounds | grid.go:47-56 | values within [lo, hi] sum to between n·lo and n·hi |
| GridScore.MeanBetween | grid.go:47-56 | the mean of values within [lo, hi] lies in [lo, hi] |
| GridScore.MinInt | grid.go:58-63 | the result is one of the two arguments and is no larger than either |
| GridScore.PreparePointDistances | grid.go:215-238 | the sweep with a moving `posI` builds the table |
| GridScore.PointTable | grid.go:215-238 | the table has int(last) + 1 entries, one per integer position up to the last point |
| GridScore.SweepMembers | grid.go:221-235 | the sweep only ever writes one of the positions |
| GridScore.SweepNonDecreasing | grid.go:221-235 | for sorted positions the sweep appends entries that never decrease |
| GridScore.PointTableMembers | grid.go:215-238 | every entry is one of the positions |
| GridScore.PointTableNonDecreasing | grid.go:221-235 | for sorted positions the entries never decrease |
| GridScore.PointTableExample | grid_test.go:15-18 | {0, 5.5} gives six entries, 0, 0, 0, 5.5, 5.5, 5.5 |
| GridScore.PointTableTieExample | grid_test.go:31-34 | on a tie the earlier position wins, as the test expects: {2, 5, 6, 10} gives 2,2,2,2,5,5,6,6,6,10,10 |
| GridScore.PointSimilarities | grid.go:240-259 | the accumulation loop computes the reference similarity |
| GridScore.FitFromMatches | grid.go:244-258 | the loop matches table[int(expected[k])] for a prefix of the expected points, each within 0.2 relative deviation, and stops at the first that is not |
| GridScore.FitFromScore | grid.go:244-258 | the accumulated score is 1 − Σ deviation / 9 over the matched points |
| GridScore.DevSumBounds | grid.go:249-252 | for a positive step, the summed deviation of m matched points is non-negative and below 0.2·(m − 1) |
| GridScore.SimilaritiesMeaning | grid.go:240-259 | the matches are table[int(expected[k])] for a non-empty prefix, every relative deviation in it is below 0.2, and the first expected point left out deviates by ≥ 0.2; the score is 1 − Σ deviation / 9 |
| GridScore.ScoreBounds | grid.go:244-258 | for a positive step the score is ≤ 1 and above 1 − 0.2·(m − 1)/9 for m ≥ 2 matches, so above 0.8 with ten |
| GridScore.NegativeStepMatchesAll | grid.go:244-252 | with a negative step every expected point matches and the score is at least 1 |
| GridMatch.Expected | grid.go:187-191 | ten points from start, evenly spaced up to end |
| GridMatch.Search | grid.go:203-206 | `sort.SearchFloat64s`: the first index whose value is at least x, every earlier value being smaller |
| GridMatch.SearchFindsFirst | grid.go:203-206 | in sorted positions, `Search` finds the first occurrence of a value present |
| GridMatch.LinesOf | grid.go:203-206 | each selected value is mapped to the line at its searched index |
| GridMatch.ExpectedInTable | grid.go:188-192 | for sorted non-negative positions, every expected point indexes the table, and distinct ends give a positive step |
| GridMatch.SelectedAreLines | grid.go:192-206 | every selected value is found among the positions |
| GridMatch.ScanStep | grid.go:184-210 | one (i, j) step of the double loop appends that pair's candidate |
| GridMatch.ScanRow | grid.go:184-186 | the inner loop moves on to the next start, or ends after the last start |
| GridMatch.FillExpected | grid.go:189-191 | the reused buffer holds the ten expected points |
| GridMatch.TryPair | grid.go:187-208 | one pair yields its candidate: nothing unless ten points match |
| GridMatch.LookUpLines | grid.go:203-206 | the lines looked up are those at each value's searched index |
| GridMatch.ScanEnds | grid.go:186-209 | the inner loop over ends appends each end's candidate for one start |
| GridMatch.ScanPairs | grid.go:184-210 | the double loop produces the scan over all pairs |
| GridMatch.LinearDistances | grid.go:160-213 | the method computes the reference matches |
| GridMatch.FirstLines | grid.go:203-206 | each chosen line is the first input line at its position |
| GridMatch.CandidateGood | grid.go:187-208 | a candidate has ten lines, a score in (0.8, 1], and each of its lines is the first at its position |
| GridMatch.SelectionGood | grid.go:192-206 | ten matched values are all found among the positions, and their lines form a good candidate |
| GridMatch.ScanFromGood | grid.go:184-210 | when every candidate is good, every match the rest of the scan appends is good |
| GridMatch.LinearMatchesMeaning | grid.go:160-213 | fewer than ten lines give no matches; otherwise every match has ten lines, each the first at its position, with a score in (0.8, 1] |
| GridPairs.KeysDistinct | grid.go:67-79 | the grouping keys are pairwise distinct |
| GridPairs.Keys | grid.go:67-79 | the keys are exactly the line lists that occur among the matches |
| GridPairs.ScoresOf | grid.go:72-77 | a key has scores exactly when its line list occurs among the matches |
| GridPairs.Entries | grid.go:81-87 | one entry per key, holding its lines and its mean score |
| GridPairs.ScoresOfWithin | grid.go:72-77 | every score in a group lies in (0.8, 1] |
| GridPairs.GroupOne | grid.go:72-77 | adding one match either starts a new group or adds its score to the existing group |
| GridPairs.AddOne | grid.go:72-77 | the map update keeps the grouping invariant |
| GridPairs.AddMatches | grid.go:71-78 | the inner loop groups every match of one divider |
| GridPairs.GroupMatches | grid.go:66-79 | the outer loop groups the matches of all dividers |
| GridPairs.AllMatchesWellScored | grid.go:69-71 | every match from every divider has ten lines and a score in (0.8, 1]; fewer than ten primary lines give none |
| GridPairs.EntriesWellScored | grid.go:81-87 | every averaged group has ten lines and a score in [0.8, 1] |
| GridPairs.EntriesDistinct | grid.go:81-87 | no two averaged groups share a line list |
| GridPairs.DistinctLines | grid.go:89-91 | distinct groups chosen from the entries have distinct line lists |
| GridPairs.ScoreGroups | grid.go:81-87 | the array is filled with each group's lines and mean score |
| GridPairs.TopOfSorted | grid.go:89-91 | the first t entries of the sorted groups are groups, are distinct, and outscore every group left out |
| GridPairs.BuildScoredLines | grid.go:66-92 | min(top, #groups) groups, sorted by non-increasing mean score, with distinct line lists, and none left out scores higher |
| GridPairs.PairsLength | grid.go:102-112 | the pairing yields \|linesH\| · \|linesV\| grids |
| GridPairs.PairsMembers | grid.go:102-112 | every grid pairs one horizontal set with one vertical set, scored by the product of their scores |
| GridPairs.PairsFit | grid.go:105-109 | paired grids have 10 + 10 lines and a score in [0.64, 1] |
| GridPairs.KeptFit | grid.go:99-100 | groups kept from aligned lines have ten lines and a score in [0.8, 1]; fewer than ten primary lines give no group |
| GridPairs.PairedFit | grid.go:99-114 | at most nine grids; none when a family has no group |
| GridPairs.PairGrids | grid.go:102-114 | the pairing, sorted by non-increasing score |
| GridPairs.PossibleGrids | grid.go:94-117 | each family is sorted by distance as a permutation; the kept groups of each are the best min(3, #groups) groups along the other family, distinct and sorted by score; the grids are exactly their pairings (as a multiset), each scored by the product; at most nine, sorted by non-increasing score, 10 + 10 lines, score in [0.64, 1]; none when either family has fewer than ten lines |
| GridEval.GridFragments | grid.go:121-139 | each horizontal line runs from the first to the last vertical line, and each vertical line from the first to the last horizontal line |
| GridEval.FragmentsSpan | grid.go:125-139 | fragment j's ends are the crossings with the first and last lines of the other family |
| GridEval.InkScore | grid.go:141-150 | the loop sums 1/length over the inked points of every fragment |
| GridEval.PointsInkMonotone | grid.go:145-149 | more ink never lowers a fragment's sum |
| GridEval.MoreInkScoresMore | grid.go:141-150 | more ink never lowers the grid's ink score, which is non-negative |
| GridEval.BlankScoresZero | grid.go:141-150 | a blank image scores 0 |
| GridEval.FullInkScore | grid.go:141-150 | a fully inked image scores the fragments' coverage |
| GridEval.RescoreBounds | grid.go:151 | the intended new score stays in [0, 1], and is 0 on a blank image |
| GridEval.Rescore | grid.go:141-151 | rescoring keeps the grid's lines and changes only its score |
| GridEval.ScaleBounds | grid.go:151 | a score in [0, 1] scaled by ink ≤ n over n fragments stays in [0, 1], and no ink gives 0 |
| GridEval.RescoreGrid | grid.go:120-151 | one grid's intended rescoring: the old score × ink / number of fragments |
| GridEval.EvaluateGrids | grid.go:119-157 | the corrected evaluation returns the rescored grids, as a permutation, sorted by non-increasing score |
| GridEval.EvaluateGridsAsWritten | grid.go:119-157 | as written the result is only the input re-sorted: same grids, same scores |
| GridEval.AsWrittenIgnoresInk | grid.go:151 | a grid scoring 1 on a blank image keeps score 1 as written, while the intended rescoring gives 0 |
| GridTransform.PlacePosition | golang/grid.go:15-34 | one position claims its cell at distance 0, then spreads left and right, overwriting only strictly closer cells and stopping at the first it cannot improve |
| GridTransform.PlaceAll | golang/grid.go:14-35 | the loop applies every position in order |
| GridTransform.PreparePointDistancesAsWritten | golang/grid.go:3-38 | the function as written yields int(last + 0.5) + 1 entries, with cell 0 pre-claimed |
| GridTransform.PreparePointDistancesNearest | golang/grid.go:3-38 | the corrected table, with cell 0 initialised like the others: every cell holds a position at minimal rounded distance, and for distinct cells the earliest such position |
| GridTransform.MinDistLipschitz | golang/grid.go:18-33 | the minimal distance changes by at most 1 between neighbouring cells, which is why the spread may stop early |
| GridTransform.MinDist | golang/grid.go:14-35 | the smallest rounded distance from a cell to any position, bounded by the initial value |
| GridTransform.SpreadLeftClaims | golang/grid.go:18-25 | the left spread lowers every cell left of the position to the smaller of its old distance and its distance to the position, and leaves the right side alone |
| GridTransform.SpreadRightClaims | golang/grid.go:27-34 | the same for the right spread |
| GridTransform.PlaceRows | golang/grid.go:14-35 | placing the last position turns the nearest table of the others into the nearest table of all |
| GridTransform.NearestOwner | golang/grid.go:14-35 | every cell holds a position at minimal distance, or its initial value when nothing is closer |
| GridTransform.EarliestOwner | golang/grid.go:14-35 | for distinct cells, that position is the earliest at minimal distance |
| GridTransform.PlaceClaims | golang/grid.go:15-34 | placing a position sets each cell to the smaller of its old distance and its distance to the new cell, and keeps the value of the closer one |
| GridTransform.FillNearest | golang/grid.go:14-35 | the fill equals the nearest-position reference |
| GridTransform.NearestTableIsNearest | golang/grid.go:3-38 | every cell of the corrected table holds a nearest position |
| GridTransform.NearestTableEarliest | golang/grid.go:14-35 | when no two positions round to the same cell, every cell holds the earliest position at minimal distance |
| GridTransform.AsWrittenCellZero | golang/grid.go:9-12 | when no position rounds to 0, cell 0 still reads 0.0 as written |
| GridTransform.FillKeepsZero | golang/grid.go:9-12 | a cell pre-claimed at distance 0 is never overwritten when no position lies on it |
| GridTransform.AsWrittenFromZero | golang/grid.go:9-12 | when the first position rounds to 0, the code as written equals the corrected table |
| GridTransform.HalfPositionExample | golang/grid.go:5 | as written {0, 5.5} gives seven cells, 0, 0, 0, 0, 5.5, 5.5, 5.5, because 5.5 rounds to cell 6 |
| GridTransform.TwoFiveExample | golang/grid_test.go:27-30 | for {2, 5}, cell 0 is 0.0 as written, while the corrected table is 2, 2, 2, 2, 5, 5 as the test expects |
| GridPyTable.PointSimilaritiesPy | grid.py:22-36 | the loop computes the Python similarity |
| GridPyTable.PySimilaritiesMeaning | grid.py:22-36 | the matches are distances[int(e)] for a non-empty prefix, with every gap within 0.2·step, and the first point left out is not; the fit is the unnormalised sum of \| \|p − prev\| − step \|, and is ≥ 0 |
| GridPyTable.NonPositiveStepMatchesOne | grid.py:29-31 | with step ≤ 0 only the first point is matched, with fit 0 |
| GridPyTable.PyFitFromValues | grid.py:29-35 | the matched points are distances[int(e)] for a prefix of the expected points |
| GridPyTable.PyFitFromClose | grid.py:29-35 | each matched gap is within 0.2·step, and the loop stops at the first gap that is not |
| GridPyTable.PyFitFromSum | grid.py:29-35 | the fit is the sum of the gaps' differences from the step |
| GridPyTable.GapSumNonNegative | grid.py:32-33 | the fit is never negative |
| GridPyTable.FitFromAgrees | grid.py:22-36 | for a positive step the Python loop stops where the Go loop stops, and the Go score is 1 − fit/(9·step) |
| GridPyTable.PyAgreesWithGo | grid.py:22-36 | for a positive step, Python matches the same points as Go, and Go's score is 1 − fit/(9·step) |
| GridPyTable.PairMin | grid.py:47 | the tuple minimum is one of the two arguments and has the smaller distance |
| GridPyTable.PlacePoint | grid.py:43-54 | one point claims its own cell at distance 0 and takes the tuple minimum on the cells i to either side, i from 1 to int(max_p) − 1, with a negative index wrapping |
| GridPyTable.OwnEntry | grid.py:43-44 | after the fill, a point's own cell holds distance 0 with that point, or a later point with the same cell |
| GridPyTable.PreparePointDistancesPy | grid.py:39-56 | the loops build the reference table of int(max + 1) entries |
| GridPyTable.PyTableHoldsPoints | grid.py:39-56 | every entry is one of the points |
| GridPyTable.PyTableOwnEntries | grid.py:43-44 | a point's own cell ends up holding that point, or a later point with the same cell |
| GridPyTable.PyTableIsLeast | grid.py:39-56 | when no two points share a cell, every cell holds the point of the least (distance, point) pair, in Python's tuple order, among (max_p, max_p), the (0, p) of the point owning the cell and every (i, p), 1 ≤ i < int(max_p), whose index idx − i or idx + i names the cell, negative indices wrapping |
| GridPyTable.FillLeast | grid.py:42-54 | placing the points in order leaves every cell the least of its start value and every claim on it |
| GridPyTable.FillStep | grid.py:43-44 | with distinct cells, a point's (0, p) is below every earlier claim on its own cell |
| GridPyTable.PlaceLeast | grid.py:43-54 | one point leaves each cell the least of what it held and of the point's claims on it |
| GridPyTable.SpreadLeast | grid.py:45-54 | the spread loop leaves each cell the least of what it held and of the spread's claims on it |
| GridPyTable.ClaimRound | grid.py:46-54 | one round offers (i, p) to exactly the cells idx − i and idx + i, wrapping, and keeps the tuple minimum |
| GridPyTable.LeastPairMin | grid.py:47 | `min` of two pairs, each least of its set, is least of the union |
| GridPyTable.ClaimShape | grid.py:43-53 | a claim on a cell is at distance ≥ 1 unless it is the (0, p) of a point owning that cell |
| GridPyTable.WrapExample | grid.py:45-49 | for {0, 5}, the first point's left spread wraps to cell 5; the final table is still 0, 0, 0, 5, 5, 5 |
| GridPyTable.WrapFirst | grid.py:45-49 | after point 0 the wrapped cells 5 and 4 hold 0 at distances 1 and 2 |
| GridPyTable.WrapSecond | grid.py:42-49 | point 5 then reclaims cells 3 to 5 |
| GridPySearch.FirstIndex | grid.py:86 | `points.index` gives the first index holding the value, and only a value present is found |
| GridPySearch.PyLinesOf | grid.py:86 | each selected value gives the line at its first index |
| GridPySearch.ElementsCount | grid.py:82 | `len(set(s))` is at most \|s\|, and equals it exactly when s has no repeats |
| GridPySearch.ExpectedInCells | grid.py:77-79 | for non-negative points that fit the table, every expected point between two of them, in either order, truncates to a cell |
| GridPySearch.PyExpectedInTable | grid.py:78-80 | for non-negative points that fit the table, every int(expected) indexes the table |
| GridPySearch.AlongFits | grid.py:68-72 | positions along a divider are distances, so not negative, and fit the table |
| GridPySearch.PyCandidateWhen | grid.py:80-86 | a pair yields a candidate exactly when ten pairwise distinct values are matched |
| GridPySearch.TryPairPy | grid.py:77-86 | one (i, j) iteration yields that candidate |
| GridPySearch.ScanEndsPy | grid.py:76-86 | the inner loop over ends appends each candidate for one start |
| GridPySearch.ScanPairsPy | grid.py:75-86 | the double loop over i and j ≥ i + 10 produces the scan; fewer than ten points add nothing |
| GridPySearch.LinearDistancesPy | grid.py:59-86 | the generator's yields, collected, are the reference matches |
| GridPySearch.PyCandidateGood | grid.py:82-86 | a candidate has ten lines, each the first at its position |
| GridPySearch.ScanFromPyGood | grid.py:75-86 | when every candidate is good, every yield the rest of the scan adds is good |
| GridPySearch.PyLinearMatchesMeaning | grid.py:59-86 | fewer than ten lines yield only (0.0, []); otherwise every yield has ten lines, each the first at its position |
| GridPySearch.SumOne | grid.py:96 | adding one yield keeps every key summed over all yields so far |
| GridPySearch.TotalStep | grid.py:96 | a further yield adds its score to its own key's total only |
| GridPySearch.KeysStep | grid.py:96 | a further yield adds its line tuple as a new key only when it is unseen |
| GridPySearch.AddSum | grid.py:96 | `lines_v[tuple(line)] += score` adds the key at its first occurrence and raises its sum |
| GridPySearch.AddYields | grid.py:95-96 | the inner loop sums one divider's yields |
| GridPySearch.SumMatches | grid.py:93-96 | the loops sum the scores of identical line tuples over all dividers |
| GridPySearch.FirstsOfPermutation | grid.py:103 | sorting the items keeps the keys, still distinct |
| GridPySearch.SortedTotals | grid.py:103 | the sorted keys have non-decreasing totals |
| GridPySearch.RankedMembers | grid.py:103-104 | the ranked keys are exactly the line tuples yielded, each once |
| GridPySearch.RankedAscending | grid.py:103-104 | the ranked keys are in ascending total score |
| GridPySearch.ItemsFacts | grid.py:103 | whatever order the dictionary lists its keys in, the items hold each yielded tuple once, with its total |
| GridPySearch.RankKeys | grid.py:103-104 | the method computes the ranking of the items in the order the dictionary lists them |
| GridPySearch.TopThree | grid.py:107-108 | whatever the dictionary order, the first three are distinct yielded keys, and no key left out has a lower total |
| GridPySearch.KeptYielded | grid.py:107-108 | every kept key is the line tuple of some yield |
| GridPySearch.PyPairsLength | grid.py:106-109 | the pairing has \|hs\| · \|vs\| entries |
| GridPySearch.PyPairsAt | grid.py:106-109 | entry a·\|vs\| + b pairs hs[a] with vs[b] (horizontal-major order) |
| GridPySearch.PyPairAt | grid.py:106-109 | pair (a, b) sits at index a·\|vs\| + b |
| GridPySearch.PairsShape | grid.py:106-109 | at most 3 × 3 = 9 pairs, each of a kept horizontal and a kept vertical key |
| GridPySearch.PyPairsMembers | grid.py:106-109 | every grid pairs a horizontal key with a vertical key |
| GridPySearch.PairUp | grid.py:106-109 | the nested loop builds the pairing |
| GridPySearch.PyPossibleGridsShape | grid.py:89-111 | at most nine grids, each pairing one of the top three horizontal keys with one of the top three vertical keys |
| GridPySearch.PyAllMatchesTen | grid.py:75-86 | with at least ten lines every yield has ten lines |
| GridPySearch.PyAllMatchesShort | grid.py:60-61 | with fewer than ten lines every yield is (0.0, []) |
| GridPySearch.PyGridsLines | grid.py:89-111 | with ten or more lines on both sides every grid has 10 + 10 lines; a family of fewer than ten lines contributes only empty tuples |
| GridPySearch.PossibleGridsPy | grid.py:89-111 | the method computes the reference grids |
| GridPyFind.EvaluateGridsLoop | grid.py:114-138 | the loop keeps the running tuple minimum of (ink, grid) from (10**10, None) |
| GridPyFind.EvaluateFromMeaning | grid.py:115-136 | the best score is at most the start and every grid's ink; a chosen grid is one of the grids with that ink |
| GridPyFind.EvaluateGridsMeaning | grid.py:114-138 | the best ink is at most 10**10 and every grid's ink; no grid is chosen exactly when every ink is ≥ 10**10 |
| GridPyFind.SelectMeaning | grid.py:154-168 | the running `max` from (0, None) is at least every result and is one of them or (0, None) |
| GridPyFind.ProposeGrids | grid.py:158-166 | a cluster is searched exactly when it has ≥ 20 lines and both families have ≥ 10, and then its grids are `possible_grids(horizontal, vertical)` |
| GridPyFind.SearchCluster | grid.py:158-168 | one iteration contributes that cluster's evaluation when it is searched |
| GridPyFind.ResultsMembers | grid.py:155-168 | the results are exactly the evaluations of the searched clusters |
| GridPyFind.ResultsNone | grid.py:158-164 | when no cluster passes the filters there are no results |
| GridPyFind.ClusterStep | grid.py:155-168 | one more cluster appends its own result |
| GridPyFind.FindGridLoop | grid.py:154-170 | the loop computes `find_grid` as written |
| GridPyFind.FindGridPyMeaning | grid.py:141-170 | as written, the answer's score is ≥ 0 and ≥ every searched cluster's best ink; with no searched cluster it is (0, None); a chosen grid comes from a searched cluster and has that ink |
| GridPyFind.PolarityExample | grid.py:168 | between clusters whose best inks are 5 and 7, `max` picks the 7; a cluster with no grid, (10**10, None), beats a found grid |
| GridPyFind.AllGridsMembers | grid.py:155-166 | the candidate grids are exactly those proposed by searched clusters |
| GridPyFind.FindGridLeastInkMeaning | grid.py:135-136 | the corrected answer has ink no greater than any candidate grid's, and a chosen grid is a candidate with that ink |
| GridPyFind.LeastInkBound | grid.py:135-136 | the corrected score is at most every candidate's ink |
| GridPyFind.LeastInkFound | grid.py:135-136 | a grid chosen by the correction is a candidate with that ink |
| GridPyFind.FindGridCorrected | grid.py:141-170 | the corrected loop computes the least-ink choice |
| Sudoku.SudokuBucketsShape | sudoku.go:138-140 | size 18 and step 9 are the parameters; with the corrected loop they give the orthogonal buckets 0, 9, …, 81 |
| Sudoku.BucketGrids | sudoku.go:146-156 | a bucket with < 20 lines or a family < 10 contributes nothing; otherwise its grids are, up to order, the pairs of the best three groups of each family sorted by distance (`FoundIn`), best first; at most nine, each 10 + 10 |
| Sudoku.VisitedStep | sudoku.go:142-157 | visiting one more bucket extends the per-bucket record, and the collected grids by that bucket's grids |
| Sudoku.FlattenMembers | sudoku.go:156 | a grid is collected exactly when some bucket's grids hold it |
| Sudoku.CandidateSources | sudoku.go:142-157 | a grid is collected exactly when a visited bucket that passes the size filters proposes it |
| Sudoku.CollectGrids | sudoku.go:142-157 | the result is the grids of every visited bucket, concatenated in visiting order, each bucket's grids as `FoundIn` states them (none for an angle without lines); at most nine per bucket, each 10 + 10 and framed |
| Sudoku.SudokuGrids | sudoku.go:136-157 | the bucket map holds, for the surviving lines of duplicate removal, each bucket's non-empty matches once per distinct list, and the result is exactly the grids `possibleGrids` proposes for its buckets, in visiting order |
| Sudoku.ChooseGrid | sudoku.go:159-162 | a grid is found exactly when there are candidates; it is a rescored candidate with the highest score |
| Sudoku.BestFirst | sudoku.go:159-161 | the head of a descending sort has the highest score |
| Sudoku.RescoredShape | sudoku.go:159-161 | rescoring keeps the 10 + 10 lines |
| Sudoku.NewSudoku | sudoku.go:123-171 | the candidates are exactly the grids of the buckets, as for `SudokuGrids`; with none it returns `ErrNotRecognised` and leaves `Recognised` false with the zero grid; otherwise `Recognised` is true and `Grid` is the best-scoring rescored candidate |
| Sudoku.LineSudoku.constructor | sudoku.go:124-126 | a new sudoku is unrecognised, holds the zero grid and keeps its image |
| Sudoku.LineSudoku.Recognised | sudoku.go:160-162 | a recognised sudoku holds a 10 + 10 grid |
| Sudoku.LineSudoku.Overlay | sudoku.go:30-47 | nothing when not recognised; otherwise the 20 fragments |
| Sudoku.OverlayFragments | sudoku.go:35-44 | exactly 20 fragments |
| Sudoku.OverlayIsScoredFragments | sudoku.go:36-44 | for a solver symmetric in its arguments, the overlay's fragments are the ones `evaluateGrids` scores: i from H[i]∩V[0] to H[i]∩V[9], and 10 + i from H[0]∩V[i] to H[9]∩V[i] |
| Sudoku.LineSudoku.Extracted | sudoku.go:49-79 | nothing when not recognised; otherwise the four grid corners and the target square |
| Sudoku.CornersOnOverlay | sudoku.go:54-72 | the corners are H0∩V0, H0∩V9, H9∩V9 and H9∩V0, the ends of overlay fragments 0, 9, 10 and 19, mapped onto an axis-aligned square |

## Left out

- The Hough voting loops (goroutines with atomic adds) are not modelled. The read-out takes the accumulator as an input, and `int(offset)` as `base`.
- The 2×2 linear solve, cos/sin, `math.Hypot`, `distanceBetweenPoints` and `lineFragment.Length` are floating-point library calls. They are function parameters, with only the facts the code relies on, such as non-negative distances.
- Floating-point drift is not modelled, because reals are exact. This affects the running `theta` in `generateThetas` and the bucket `pos` loop.
- `Hough.GenerateThetas`: requires a non-zero step. Go would compute an infinite or NaN count.
- `Hough.HashKey`: rounds θ half-up at the eighth decimal. `%0.8f` rounds the binary value, which can differ at exact halves.
- `Buckets.PutLinesIntoBuckets`: deduplicates buckets by comparing their match lists, not their `String()` text, which prints each θ with `%f`, so angles that differ past the sixth decimal compare equal there.
- `GridPairs.BuildScoredLines`: groups matches by line list, not by the `%f` text of the lines. It sorts copies: `possibleGrids` sorts the caller's slices in place, and that aliasing is not modelled.
- `GridMatch.LinearDistances`: requires positions that are ordered along the divider (ghost predicates `AlignedAlong`/`Arranged`). The code only comments "Lines have to be sorted correctly". A start and end at the same position (a zero step) yields no candidate. Go computes a NaN score there and keeps the ten lines.
- `GridScore.MeanAcc.Mean`: returns none for an empty accumulator, where Go divides 0 by 0. The code never takes the mean of an empty accumulator.
- `GridScore.PreparePointDistances`: requires non-empty positions and a table length int(last) + 1 that is not negative. Go panics on a negative `make` length; it never indexes out of range, even for unsorted positions.
- `GridTransform.PreparePointDistancesAsWritten`: requires (`InRange`) non-empty positions whose cells lie in 0..cell(last). The code indexes out of range otherwise.
- `GridPyTable.PreparePointDistancesPy`: requires (`PyInRange`) non-empty positions whose truncations are valid Python indices of the int(max_p + 1) cells, negative ones wrapping. Python raises `IndexError` at the own-cell write otherwise.
- `Threshold.AdaptiveThreshold`: the mat64 `View` panic on a window past the matrix is modelled as the error `ErrIndexOutOfRange`.
- `meanFilter`/`boxFilter` run sequentially, one column at a time. The goroutine fan-out is left out.
- `Process.MatrixToImage`: requires a non-empty matrix, because `mat64.Max` panics on an empty one. `uint8` of a value outside [0, 256) is taken as truncation modulo 256.
- `Process.PreProcess`: the root `process.go` passes an `image.Gray` where `adaptiveThreshold` expects a `*mat64.Dense`. The model applies the threshold to the grey matrix.
- `grayImage`, `extractCells`, `nnGrid`, the perspective warp and all drawing (visualize.go, visualize.py) are left out. The OpenCV wrappers in process.py are left out too.
- The Python `evaluate_grids` draws fragments and sums a masked image with OpenCV. Its ink count is a parameter `ink`.
- `LoadNetwork` and `nn.Evaluate` are left out. `Digits.RecogniseDigit` takes the evaluation as a function parameter.
- `Sudoku.NewSudoku`: uses the corrected `EvaluateGrids`, because the code as written does not change any score (see Findings). It also uses the corrected bucket loop, with centres 0..81, where the code as written stops at 72 and never searches an 81° bucket (see Findings and `Buckets.AsWrittenPipelineExample`). The timing prints are left out.
- `SudokuGrids`: searches the buckets of the corrected loop, centres 0..81. The code as written builds only 0..72, so the model also searches an 81° bucket that the program never has.
- `GridEval.Value`: a fragment of length 0 adds 0 per inked pixel. Go's float division gives +Inf there.
- `Process.BinarizeGo` and `Process.RemoveBlobsBodyGo`: golang/process.go:101 and :117 return `AdaptiveThreshold`'s two results from functions declared with one, so that copy does not compile. The methods return both results.
- `GridPySearch.RankKeys`: Python 2 lists a dictionary's keys in an order set by their hashes. The model takes that order as a parameter (`DictOrder`), so the stable sort can break ties in any order. Its lemmas hold for every order.
- `GridPyFind.Lower`: on equal ink the current best stays. Python's tuple `min` would then compare the grids themselves, and that comparison is not modelled.
- `GridEval.InkScore`: the image is a total function of the point. Go reads `src.Pix[src.PixOffset(x, y)]`, which for a raster point outside the image reads a pixel of a neighbouring row while the offset stays inside the buffer, and panics with index out of range beyond it. Neither is modelled.
- `GridPyFind.FindGridLoop`: Python 2 orders `None` below any grid and compares grids only on equal scores. The model compares scores, and on a tie prefers a found grid to `None`.
- grid.py imports `distance_between_points`, `put_lines_into_buckets` and `lines_with_similar_angle`, which low_structures.py does not define. The Python model takes the clusters as an input, built with the Go definitions, and the distance as the parameter `dist`.
- golang/port.go is not part of this model. It is an unfinished stub.
- main.go, golang/main.go, cli/main.go, web/ and the example-image I/O are left out.

## Findings

| source | as written | input that shows it | evidently intended | confidence | as-written member | corrected member |
|---|---|---|---|---|---|---|
| low_structures.go:182-185 | the loop breaks when `pos >= maxPos` with maxPos = 180° (or 90°) − step, so in exact arithmetic the last centre, 180° − step (or 90° − step), is never emitted | bucket size 18, step 9, orthogonal (as `NewSudoku` calls it): centres 0..72, no 81 | every centre up to and including maxPos, as the tests at low_structures_test.go:146-164 expect | medium, not executed; float64 drift brings the last centre back for some steps | Buckets.AsWrittenPipelineExample | Buckets.GenerateAngleBuckets |
| golang/grid.go:5 | the table has int(maxPos + 0.5) + 1 cells and each position goes to cell int(position + 0.5) | positions {0, 5.5}: seven cells, 0, 0, 0, 0, 5.5, 5.5, 5.5 | six cells, 0, 0, 0, 5.5, 5.5, 5.5, as golang/grid_test.go:15-16 expects and as the root grid.go:217 computes with int(maxPos) + 1 (`GridScore.PointTableExample`) | medium, not executed; the intended table may instead be the root copy's | GridTransform.HalfPositionExample | GridScore.PreparePointDistances |
| golang/grid.go:9-12 | the initialising loop starts at 1, so cell 0 starts as "claimed at distance 0 with value 0" | positions {2, 5}: cell 0 is 0.0 | cell 0 holds its nearest position, 2, as golang/grid_test.go:27-30 expects | high, not executed | GridTransform.TwoFiveExample | GridTransform.PreparePointDistancesNearest |
| grid.go:151 | the new score is assigned to the range variable, a copy, so no grid's score changes | a grid of score 1 on a blank image keeps score 1 | the score is scaled by the grid's ink, which gives 0 on a blank image | high, not executed | GridEval.AsWrittenIgnoresInk | GridEval.EvaluateGrids |
| grid.py:168 | clusters are combined with `max`, while `evaluate_grids` chooses the grid with the least ink | two clusters whose best inks are 5 and 7: the 7 is chosen; a cluster with no grid (10**10, None) beats every found grid | the least ink wins across clusters, as it does within one | high, not executed | GridPyFind.PolarityExample | GridPyFind.FindGridCorrected |
| process.go:48-51 | both branches assign `max = h`, so the window ignores the width | 1000 wide, 100 high, divider 10: window 11 | the larger side decides: 101 | high, not executed | Process.WindowSizeWideExample | Process.WindowSizeMax |
| process.go:63 | the block size passed is `(window-1)/2`, which is even whenever window ≡ 1 (mod 4) | an image 1000 high: window 101, block size 50, and `adaptiveThreshold` panics with `errBlockSize` | an odd block size, such as the window itself as golang/process.go passes it | high, not executed | Process.BlockSizeExample | Process.PreProcessCorrected |
