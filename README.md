# textorient in Dafny

textorient decides whether a scanned page is upright or turned by 90, 180 or
270 degrees, and turns it back. It can also first remove a small skew. The
pipeline has four parts:

- **Tile sampler** (`imagesplit.go`, `imagesplit.c`). The page is converted
  to grayscale. A non-square page whose long side exceeds 2000 px is scaled
  down so that its long side is 2000 px; a square page keeps its size. A
  margin of 10% is cut from every edge, and the interior is split into
  32 x 32 tiles. Each tile is scored by its horizontal perplexity, the number
  of sharp brightness transitions along its rows. The 3 x 200 most
  perplexing tiles form a pool, which is shuffled with a fixed-seed
  generator. The source then copies out the first 200 tiles of the pool, and
  fails when the pool holds fewer (see "## Findings"). The model returns the
  first min(200, pool size) tiles instead.
- **Tile classifier** (`orient.go`, `getTileOrientation`). A small network
  scores one dense 32 x 32 tile for each of the four rotations. The class is
  where the running maximum of the scores last rose. The confidence is how
  much it rose at that point.
- **Vote** (`GetImageOrientation`). Each tile whose confidence is above 0.5
  votes for its class. The class with the most votes wins, the lowest index
  on a tie, and class 0 when no tile voted.
- **Correction** (`MakeUpright`, `Straighten`, `StraightenAndMakeUpright`).
  The winning rotation is undone by a quarter or half turn. The skew measured
  by the white-lines estimator is undone by turning the page by minus that
  angle.

The model has five modules, one file each:

- `Wrappers`: Option and Result.
- `Images`: the image library the pipeline calls. An image has dimensions, a
  row stride and a pixel format. Its pixels are described by where they come
  from: a scan, a grayscale conversion, a resampling, a window onto another
  raster, or a rotation.
- `Perplexity`: the C transition scan. It is a method over a byte array and is
  proved against a recursive count.
- `Sampler`: `SplitImage`.
  - The grid is laid into an array by the same nested loop as the source,
    split into `LayTiles`, `LayRow` and `PlaceCell`.
  - The tiles are sorted by decreasing perplexity with an in-place insertion
    sort, proved to give the ranking function `Ranked`.
  - The pool is shuffled in place by the Fisher-Yates loop of Go's
    `rand.Shuffle`.
  - The samples are then copied out.
  - Each step is proved against a specification function, and the whole is
    described by the function `Split`.
- `Orientation`: the `Orient` object with its `loaded` flag and network.
  - Tile classification, the vote, and turning the page upright.
  - Straightening and the default white-lines settings.

Two things are parameters of the model: the network's output for a tile
(`infer`), and the skew estimator. The perplexity of a tile is a parameter of
the sampler (`perplexity`), and `Perplexity` models it separately. The random
generator is a parameter too: `draw(n, i)` gives the i-th index drawn while
shuffling n tiles.

The confidence of a tile is not the gap between its two highest scores.
`getTileOrientation` (orient.go:198-207) subtracts the running maximum just
before the class, and that running maximum starts at 0.
`Orientation.ConfidenceBounds` states what the code computes.
`Orientation.ConfidenceIsNotSecondGap` gives scores on which it differs from
the gap between the two highest scores. `Orientation.ConfidenceAtLeastSecondGap`
shows that, for scores that are not negative, it is never smaller than that gap.

The margins are computed in the source as `int(float64(w) * 0.1)` and
`int(float64(w) * 0.9)`. Both double constants lie slightly above 0.1 and 0.9,
so for any realistic width the truncation equals `w / 10` and `w * 9 / 10` in
integers. The model uses the integer forms.

## Model

| member | source | states |
|---|---|---|
| Perplexity.SeedWindow | imagesplit.c:11-14 | the window sum starts as the sum of the first min(width, 5) pixels of the row |
| Perplexity.RowTransitions | imagesplit.c:10-39 | the sliding-window loop over one row returns exactly the number of pixels from the 6th on whose value times 5 differs from the sum of the 5 pixels before it by more than 50 |
| Perplexity.ScanStep | imagesplit.c:24-38 | one step of the scan slides the window sum by the pixel that leaves and the one that enters, and adds one exactly when pixel x is a transition |
| Perplexity.SumSlide | imagesplit.c:26 | moving the window one pixel right subtracts the pixel that leaves and adds the one that enters |
| Perplexity.HorizontalPerplexity | imagesplit.c:3-40 | the scan over a strided buffer returns the sum of the transition counts of the rows, row y being the `width` bytes from offset y * stride |
| Perplexity.ImageCountStep | imagesplit.c:7-8 | counting one more row adds that row's transitions |
| Perplexity.RowCountBound | imagesplit.c:24-36 | a row contributes at most one transition per pixel after its first 5 |
| Perplexity.CountBound | imagesplit.c:7-40 | rows of `width` pixels contribute at most width - 5 transitions each |
| Perplexity.ImageCountBound | imagesplit.c:7-40 | the total count is at most height * (width - 5) |
| Perplexity.NarrowRowsCountNothing | imagesplit.c:16-19 | rows narrower than the 5-pixel window contribute nothing |
| Perplexity.NarrowImageCountsNothing | imagesplit.c:16-19 | an image narrower than the window has count 0 |
| Perplexity.UniformRowCountsNothing | imagesplit.c:29-36 | a row of one repeated value has no transitions |
| Perplexity.RatioInUnitInterval | imagesplit.c:42 | for a non-empty image the returned ratio count / (width * height) lies in [0, 1) |
| Perplexity.SameRow | imagesplit.c:8 | two buffers that agree on the pixels of row y give the same row y |
| Perplexity.SameRows | imagesplit.c:7-8 | two buffers that agree on every pixel inside the rows give the same rows |
| Perplexity.CountIgnoresPadding | imagesplit.c:7-40 | bytes between rows (stride beyond width) and after the last row never change the count |
| Sampler.CappedSize | imagesplit.go:29-33 | the resize cap never enlarges a page, and leaves both sides within 2000 px unless the page is square |
| Sampler.Normalize | imagesplit.go:26-33 | the page the sampler works on is grayscale and has the capped size |
| Sampler.CappedSizeShape | imagesplit.go:29-33 | the resize cap never enlarges a page and keeps its orientation; a non-square page over 2000 px gets its long side set to exactly 2000 and its short side scaled in proportion, rounded down; other pages keep their size |
| Sampler.ScaledShortSide | imagesplit.go:30-32 | the scaled short side is the floor of short * 2000 / long, below 2000 and no larger than before |
| Sampler.AxisShape | imagesplit.go:35-41 | along one axis the interior lies in the page, holds a tile exactly when it is at least one tile long, and holds RowOf(span, size) tiles but not one more |
| Sampler.Plan | imagesplit.go:35-44 | there is no layout exactly when the interior is shorter than one tile in some axis; a layout uses the given tile size and its grid plus one more row and column fits inside the page's interior |
| Sampler.PlanShape | imagesplit.go:35-44 | the interior drops 10% on each side; there is no grid exactly when the interior is shorter than one tile in some axis; otherwise the grid keeps one tile fewer than fits, so one more column and row still fit and two more do not |
| Sampler.GridLength | imagesplit.go:45-46 | the grid has nx * ny tiles |
| Sampler.GridIndex | imagesplit.go:47-56 | slot y * nx + x of the grid holds the crop of column x, row y |
| Sampler.GridAt | imagesplit.go:47-56 | every slot k of the grid holds the crop of column k mod nx and row k div nx, which lie inside the grid |
| Sampler.CellShape | imagesplit.go:49-55 | each cell is a size x size window of the page at its grid position, scored by the perplexity of that window |
| Sampler.CellOrigin | imagesplit.go:49-51 | cell (x, y) starts at (x1 + x * size, y1 + y * size) and ends inside the page |
| Sampler.GridInInterior | imagesplit.go:35-51 | every grid tile lies inside the interior that the margins leave |
| Sampler.CellInjective | imagesplit.go:49-51 | two cells with the same window are the same cell |
| Sampler.GridDistinct | imagesplit.go:47-52 | two different grid slots hold different windows |
| Sampler.GridDistinctViews | imagesplit.go:47-52 | no window occurs twice in the grid |
| Sampler.PlaceCell | imagesplit.go:49-55 | storing one cell extends the filled prefix of the array by the next grid tile |
| Sampler.LayRow | imagesplit.go:48-56 | the inner loop fills one more grid row |
| Sampler.LayTiles | imagesplit.go:45-57 | the nested loop fills a fresh array with exactly the grid, in row-major order |
| Sampler.RankedSorts | imagesplit.go:58-65 | the ranking is in non-increasing perplexity and is a permutation of the tiles |
| Sampler.InsertLast | imagesplit.go:58-65 | moving the next tile forward past strictly lower tiles inserts it into the ranking of the tiles before it, and leaves the later tiles alone |
| Sampler.SortByPerplexity | imagesplit.go:58-65 | the tiles end up as the ranking `Ranked` of the tiles before: in non-increasing perplexity and a permutation of them |
| Sampler.RankingUnique | imagesplit.go:58-65 | when no two scores are equal there is only one ranking by non-increasing perplexity |
| Sampler.AnySortSamplesAlike | imagesplit.go:58-75 | when no two grid tiles score the same, any sort by decreasing perplexity, whatever its tie rule, leads to the same samples as `Ranked` |
| Sampler.ShuffleFromPermutes | imagesplit.go:68-70 | each swap round of the shuffle keeps the same tiles |
| Sampler.ShuffledPermutes | imagesplit.go:68-70 | the shuffled pool is a permutation of the pool |
| Sampler.ShufflePrefix | imagesplit.go:67-70 | the in-place shuffle of the first n tiles gives the shuffle specification and leaves the rest untouched |
| Sampler.TakeSamples | imagesplit.go:72-75 | returns the images of the first min(numTiles, pool) shuffled tiles, in order |
| Sampler.TakeSamplesAsWritten | imagesplit.go:72-75 | the copy loop as written fails exactly when more samples are asked for than the pool holds, and otherwise returns the first numTiles images |
| Sampler.SmallPageExhaustsPool | imagesplit.go:40-75 | a 300 x 300 grayscale page has a 6 x 6 grid, so its pool of 36 is smaller than the 200 samples asked for |
| Sampler.SplitImage | imagesplit.go:19-78 | the samples are `Split` of the page, a function of the page, the counts, the scores and the fixed-seed generator: none when the interior holds no tile; otherwise the images of the first min(numTiles, pool) tiles of the shuffled pool, the top min(grid size, 3 * numTiles) tiles of the grid's ranking |
| Sampler.SampleCount | imagesplit.go:67-75 | the number of samples is min(numTiles, grid size) |
| Sampler.SamplesAreTopRanked | imagesplit.go:58-75 | every sample is a pool tile, and every pool tile is at least as perplexing as every tile left out of the pool |
| Sampler.SamplesInInterior | imagesplit.go:35-56 | every sample lies inside the page's interior |
| Sampler.SamplesDistinct | imagesplit.go:47-75 | no window is sampled twice |
| Sampler.SplitShape | imagesplit.go:40-56 | every sample is size x size, and a split is empty exactly when there is no grid, the grid is empty, or no samples are asked for |
| Orientation.TopIndexIsFirstMax | orient.go:198-205 | the class is the first index holding the highest score, and 0 when no score is positive |
| Orientation.RunnerUpIsPrefixTop | orient.go:198-207 | the subtracted value is the running maximum (from 0) of the scores before the class |
| Orientation.ConfidenceBounds | orient.go:198-207 | the confidence lies between 0 and the top score; it is the top score minus 0 or minus a score before the class, and at most the gap to any score before the class |
| Orientation.ConfidenceAtLeastSecondGap | orient.go:198-207 | when no score is negative, the confidence is at least the gap between the top score and some other class's score, hence at least the gap to the second-highest score |
| Orientation.NoPositiveScore | orient.go:196-207 | if no score is positive the tile is class 0 with confidence 0 |
| Orientation.ConfidenceIsNotSecondGap | orient.go:198-207 | scores 0.05, 0.6, 0.35, 0 give class 1 with confidence 0.55, while the gap to the second-highest score is 0.25 |
| Orientation.Classify | orient.go:186-209 | a tile is classified exactly when it is 32 x 32, the network is loaded and inference returns status 0; the class is below 4 and the confidence lies between 0 and the top score |
| Orientation.Densify | orient.go:158-163 | the network is given a dense tile with the same size, format and pixels, which is the tile itself when it is already dense |
| Orientation.Orient.TileOrientation | orient.go:186-209 | a tile that is not 32 x 32 is rejected, then a closed network, then a failed inference; otherwise the scan over the four scores returns the class and confidence above, with the class below 4 and the confidence at least 0 |
| Orientation.ClosedRejects | orient.go:186-197 | a 32 x 32 tile is rejected by a closed network, and by a loaded one exactly when inference fails |
| Orientation.Tally | orient.go:154-170 | a successful tally has four buckets |
| Orientation.TallyCounts | orient.go:154-170 | bucket k of a successful tally is the number of tiles classified as k with a confidence above 0.5 |
| Orientation.TallyFailure | orient.go:155-170 | the vote fails exactly when some tile cannot be classified, and then with the error of the first such tile |
| Orientation.TallyStops | orient.go:164-166 | once one tile fails, later tiles do not change the error |
| Orientation.TallyBound | orient.go:155-170 | each tile adds at most one vote |
| Orientation.Winner | orient.go:171-179 | the winner is one of the buckets |
| Orientation.WinnerIsFirstBest | orient.go:171-179 | the winner holds the highest count, every earlier count is strictly lower, and the winner is 0 when no tile voted |
| Orientation.SoleWinner | orient.go:171-179 | counts that are zero except at one class elect that class |
| Orientation.NoConfidentTile | orient.go:167-180 | when no tile's confidence exceeds 0.5 the counts stay zero and the page is class 0 |
| Orientation.UnanimousTiles | orient.go:155-180 | when every tile confidently names class k, class k gets all the votes and wins |
| Orientation.Vote | orient.go:149-180 | the vote fails with "too small" exactly when there are no tiles, and a successful vote names one of the four classes |
| Orientation.Orient.VoteOnTiles | orient.go:151-180 | no tiles gives "too small"; otherwise the first classification error, or the winner of the thresholded vote |
| Orientation.Orient.GetImageOrientation | orient.go:149-181 | the result is the vote over the 200 tiles of 32 x 32 that `Split` gives for the page |
| Orientation.SampledTilesFit | orient.go:150-166 | every sampled tile passes the 32 x 32 check, so it is rejected only by a closed network or a failed inference |
| Orientation.PageTooSmall | orient.go:150-153 | orienting a page fails as "too small" exactly when its normalised interior has no grid or an empty grid |
| Orientation.Upright | orient.go:131-143 | class 0 keeps the page itself; class 1 and 3 give a new dense buffer with width and height exchanged; class 2 keeps the dimensions; the content is the page turned by -90, +90 or 180 degrees |
| Orientation.UndoCancelsRotation | orient.go:131-143 | the turn chosen for each class brings the detected rotation back to a whole number of turns, and only classes 1 and 3 use a quarter turn |
| Orientation.Orient.MakeUpright | orient.go:125-146 | a failed orientation is passed on; otherwise the page is turned upright for the detected class |
| Orientation.NewWhiteLinesParams | orient.go:75-83 | the default skew search is symmetric about 0, spans 50 steps, includes quarter turns, and works at up to 1000 px |
| Orientation.EstimatorInput | orient.go:88-91 | the estimator sees a dense grayscale image of the page's size, which is the page itself when it already is one |
| Orientation.Straighten | orient.go:87-115 | the result is the page itself, or a dense turned copy of it in the same format; it has the page's dimensions or those exchanged |
| Orientation.StraightenShape | orient.go:87-115 | a zero skew returns the page itself; otherwise the page is turned by minus the skew into a new dense buffer, with width and height exchanged exactly when the skew exceeds 45 degrees either way; default settings are used when none are given |
| Orientation.Orient.StraightenAndMakeUpright | orient.go:118-120 | the page is straightened, then made upright, and errors are passed on |
| Orientation.Orient.constructor | orient.go:64-69 | a new `Orient` has its network loaded |
| Orientation.NewOrient | orient.go:45-72 | loading fails with a load error when the network cannot be loaded; otherwise a fresh, loaded `Orient` is returned |
| Orientation.Orient.Close | orient.go:212-219 | after Close the network is no longer loaded |
| Orientation.ClosedTally | orient.go:186-192 | with the network closed, a vote over 32 x 32 tiles fails as "not loaded" |
| Orientation.ClosedVoteFails | orient.go:149-166 | after Close, orienting any page fails: "too small" when it gives no tiles, "not loaded" otherwise |

## Left out

- Pixel values are not modelled. Grayscale conversion, resampling, cloning and rotation fix only the shape of their result and record where its pixels come from. The C scan works on concrete bytes.
- Perplexity.HorizontalPerplexity: returns the integer transition count. The float32 division that the C function returns is stated on reals (`Perplexity.Ratio`), without float rounding.
- Integer widths are not modelled. Go `int`, C `int` and `float32` are unbounded integers and reals here. Pages are far below the sizes where the C count or the grid arithmetic would overflow.
- The margins use integer division in place of the source's double multiplication and truncation. The two agree for widths below about 10^15.
- Sampler.SortByPerplexity: equal scores keep their grid order, as in an insertion sort. Go's `slices.SortFunc` (pdqsort) is deterministic but not stable, and its tie order is not modelled. When no two scores are equal both give the same ranking (`Sampler.RankingUnique`, `Sampler.AnySortSamplesAlike`). On a real page ties are common, for example blank tiles all score 0, so there the model's samples may differ from the program's.
- Sampler.SplitImage: the split, and every member built on it, follows the corrected copy-out of the "## Findings" row (`Sampler.TakeSamples`): a pool smaller than numTiles gives all of its tiles. The source stops at imagesplit.go:74 on such pages, including pages whose grid is empty (nx or ny is 0). This holds for `Sampler.Split`, `Sampler.SampleCount`, `Sampler.SplitShape`, `Orientation.Orient.GetImageOrientation`, `Orientation.Orient.MakeUpright`, `Orientation.Orient.StraightenAndMakeUpright`, `Orientation.PageTooSmall` and `Orientation.ClosedVoteFails`.
- Sampler.SplitImage: the PCG generator seeded with (123, 456) is a parameter `draw`. The exact sequence it yields is not modelled, only that it is fixed.
- The sampler's perplexity hook is the `perplexity` parameter. `Perplexity` models the C scan behind it, but the cgo call that links them (imagesplit.go:80-82) is not modelled.
- The network is the `infer` parameter. Nothing is modelled of ncnn, the model files, the softmax of orient.cpp, or the C-side 32 x 32 check, which the Go check always precedes.
- The white-lines skew estimator of docangle is the `estimate` parameter. Degrees are kept, and the conversion to radians for cimg's Rotate is left out.
- Orientation.NewOrient: whether loading succeeds is the parameter `loads`. Copying the embedded files into C memory is left out.
- Orientation.Orient.Close: models only that the network is no longer loaded. Freeing C memory is left out. This includes the second free of the parameter buffers when Close is called twice.
- Orientation.Orient.TileOrientation: the scores are reals. The float32 rounding of the subtraction is not modelled.
- Error messages are modelled as the `Error` datatype, not as text.
- Concurrency is not modelled: an `Orient` is not safe to share, and the model has a single caller.

## Findings

| source | as written | input that shows it | evidently intended | confidence | as-written member | corrected member |
|---|---|---|---|---|---|---|
| imagesplit.go:72-75 | `samples` gets numTiles slots, and slot i is read from `tiles[i]`, but the pool was cut to min(totalTiles, 3 * numTiles) tiles, so the read goes past its end when the pool holds fewer than numTiles | a 300 x 300 grayscale page with numTiles 200 and size 32: margins 30..270, a 6 x 6 grid, and a pool of 36 tiles (Sampler.SmallPageExhaustsPool) | return min(numTiles, pool size) samples, all of the pool when it is small | not executed | Sampler.TakeSamplesAsWritten | Sampler.TakeSamples |
