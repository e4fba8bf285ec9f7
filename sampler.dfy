/**
 * The tile sampler of imagesplit.go: normalise the page (grayscale, long side
 * capped at 2000 px), lay a grid of square tiles over the interior left after a
 * 10% margin on every side, score every tile by perplexity, keep the 3 * numTiles
 * best, shuffle them with a fixed-seed generator and hand out the first numTiles.
 */
module Sampler {
  import opened Wrappers
  import opened Images

  /** Longest side the sampler works at. */
  const MaxSize: nat := 2000

  /** A tile view and its perplexity score. */
  datatype Tile = Tile(img: Image, perplexity: real)

  /**
   * The fixed-seed generator (PCG seeded with 123 and 456) as seen by a
   * Fisher-Yates shuffle of n elements: the raw draw for position i. The
   * shuffle reduces it below i + 1, the range the generator's bounded draw
   * guarantees.
   */
  type Draw = (nat, nat) -> nat

  function Min(a: int, b: int): int
  {
    if a < b then a else b
  }

  // ---------------------------------------------------------------- arithmetic
  // Grid index arithmetic goes through Times, Column and RowOf, which are
  // defined by recursion, so that the solver only meets them through the
  // small lemmas below and reasons linearly everywhere else.

  /** a * b */
  function Times(a: nat, b: nat): nat
  {
    if a == 0 then 0 else Times(a - 1, b) + b
  }

  lemma {:induction false} TimesIsProduct(a: nat, b: nat)
    ensures Times(a, b) == a * b
  {
    if a > 0 {
      TimesIsProduct(a - 1, b);
    }
  }

  lemma {:induction false} TimesMono(a: nat, a': nat, b: nat)
    requires a <= a'
    ensures Times(a, b) <= Times(a', b)
  {
    if a < a' {
      TimesMono(a, a' - 1, b);
    }
  }

  lemma TimesNext(a: nat, b: nat)
    ensures Times(a + 1, b) == Times(a, b) + b
  {
  }

  lemma {:induction false} TimesMonoRight(a: nat, b: nat, b': nat)
    requires b <= b'
    ensures Times(a, b) <= Times(a, b')
  {
    if a > 0 {
      TimesMonoRight(a - 1, b, b');
    }
  }

  lemma {:induction false} TimesPositive(a: nat, b: nat)
    requires Times(a, b) > 0
    ensures a > 0 && b > 0
  {
    if a > 0 && b == 0 {
      TimesPositive(a - 1, b);
    }
  }

  lemma {:induction false} TimesInjective(a: nat, a': nat, b: nat)
    requires b > 0 && Times(a, b) == Times(a', b)
    ensures a == a'
  {
    if a < a' {
      TimesMono(a + 1, a', b);
    } else if a' < a {
      TimesMono(a' + 1, a, b);
    }
  }

  /** k % n */
  function Column(k: nat, n: nat): nat
    requires n > 0
    decreases k
  {
    if k < n then k else Column(k - n, n)
  }

  /** k / n */
  function RowOf(k: nat, n: nat): nat
    requires n > 0
    decreases k
  {
    if k < n then 0 else RowOf(k - n, n) + 1
  }

  /** Every index splits into whole rows plus a column. */
  lemma {:induction false} Decompose(k: nat, n: nat)
    requires n > 0
    ensures Column(k, n) < n && k == Times(RowOf(k, n), n) + Column(k, n)
  {
    if k >= n {
      Decompose(k - n, n);
    }
  }

  /** Index y * n + x lies in row y, column x. */
  lemma {:induction false} RowMajor(x: nat, y: nat, n: nat)
    requires x < n
    ensures Column(Times(y, n) + x, n) == x && RowOf(Times(y, n) + x, n) == y
  {
    if y > 0 {
      RowMajor(x, y - 1, n);
    }
  }

  /** An index below m * n lies in one of the first m rows. */
  lemma RowBound(k: nat, n: nat, m: nat)
    requires k < Times(m, n)
    ensures n > 0 && RowOf(k, n) < m
  {
    TimesPositive(m, n);
    Decompose(k, n);
    if RowOf(k, n) >= m {
      TimesMono(m, RowOf(k, n), n);
    }
  }

  /** Splitting into whole rows and a column is unique. */
  lemma {:induction false} RowsUnique(q: nat, r: nat, q': nat, r': nat, n: nat)
    requires r < n && r' < n && Times(q, n) + r == Times(q', n) + r'
    ensures q == q' && r == r'
  {
    if q < q' {
      TimesMono(q + 1, q', n);
    } else if q' < q {
      TimesMono(q' + 1, q, n);
    }
  }

  /** RowOf and Column are integer division and remainder. */
  lemma QuotientRemainder(k: nat, n: nat)
    requires n > 0
    ensures RowOf(k, n) == k / n && Column(k, n) == k % n
  {
    Decompose(k, n);
    DivBracket(k, n);
    RowsUnique(RowOf(k, n), Column(k, n), k / n, k - Times(k / n, n), n);
  }

  lemma SameCell(i: nat, j: nat, n: nat)
    requires n > 0 && Column(i, n) == Column(j, n) && RowOf(i, n) == RowOf(j, n)
    ensures i == j
  {
    Decompose(i, n);
    Decompose(j, n);
  }

  // ------------------------------------------------------------ normalisation

  /**
   * Size after the resize cap: a landscape page wider than MaxSize, or a
   * portrait page taller than MaxSize, is scaled so that its long side is
   * exactly MaxSize, the short side rounded down. Square pages and pages
   * within the cap keep their size.
   */
  function CappedSize(width: nat, height: nat): (r: (nat, nat))
    ensures r.0 <= width && r.1 <= height
    ensures (r.0 <= MaxSize && r.1 <= MaxSize) || width == height
  {
    if width > height && width > MaxSize then
      ScaledShortSide(height, width);
      (MaxSize, height * MaxSize / width)
    else if height > width && height > MaxSize then
      ScaledShortSide(width, height);
      (width * MaxSize / height, MaxSize)
    else (width, height)
  }

  /** Integer division of p by d, bracketed by multiples of d. */
  lemma DivBracket(p: nat, d: nat)
    requires d > 0
    ensures Times(p / d, d) <= p < Times(p / d + 1, d)
  {
    TimesIsProduct(p / d, d);
    TimesIsProduct(p / d + 1, d);
  }

  lemma ScaledShortSide(short: nat, long: nat)
    requires short < long && long > MaxSize
    ensures var s := short * MaxSize / long;
      s <= short && s < MaxSize && Times(s, long) <= short * MaxSize < Times(s + 1, long)
  {
    var p := short * MaxSize;
    var s := p / long;
    DivBracket(p, long);
    if s >= MaxSize {
      TimesMono(MaxSize, s, long);
      TimesMonoRight(MaxSize, short + 1, long);
      TimesIsProduct(MaxSize, short + 1);
    }
    if s > short {
      TimesMono(short + 1, s, long);
      TimesMonoRight(short + 1, MaxSize + 1, long);
      TimesIsProduct(short + 1, MaxSize + 1);
    }
  }

  /** The cap never enlarges, keeps the page's orientation, and brings the long side of a non-square page down to MaxSize exactly, scaling the short side in proportion (rounded down). */
  lemma CappedSizeShape(width: nat, height: nat)
    ensures var (w, h) := CappedSize(width, height);
      && w <= width && h <= height
      && (width > height ==> w >= h) && (height > width ==> h >= w)
      && (width != height && (width > MaxSize || height > MaxSize) ==> (w == MaxSize || h == MaxSize) && w <= MaxSize && h <= MaxSize)
      && (width > height && width > MaxSize ==> Times(h, width) <= height * MaxSize < Times(h + 1, width))
      && (height > width && height > MaxSize ==> Times(w, height) <= width * MaxSize < Times(w + 1, height))
      && (width == height || (width <= MaxSize && height <= MaxSize) ==> w == width && h == height)
  {
    if width > height && width > MaxSize {
      ScaledShortSide(height, width);
    } else if height > width && height > MaxSize {
      ScaledShortSide(width, height);
    }
  }

  /** The page the sampler works on: grayscale, then capped in size. */
  function Normalize(img: Image): (r: Image)
    ensures r.format == Gray && (r.width, r.height) == CappedSize(img.width, img.height)
  {
    var gray := if img.format != Gray then ToGray(img) else img;
    var (w, h) := CappedSize(gray.width, gray.height);
    if w == gray.width && h == gray.height then gray else ResizeNew(gray, w, h)
  }

  // ------------------------------------------------------------------ layout

  /** Interior bounds along one axis: 10% of the length in from each end. */
  function Margins(length: nat): (nat, nat)
  {
    (length / 10, length * 9 / 10)
  }

  /** Grid placement over a page: interior [x1, x2) x [y1, y2), tile size, tiles per row and per column. */
  datatype Layout = Layout(x1: nat, y1: nat, x2: nat, y2: nat, size: nat, nx: nat, ny: nat)


  /**
   * Interior and grid for a page of the given size. The grid keeps one tile
   * fewer than fits in each axis; when an axis has room for no tile at all the
   * page is too small and there is no layout.
   */
  function Plan(width: nat, height: nat, size: nat): (r: Option<Layout>)
    requires size > 0
    ensures r.None? <==> Margins(width).1 - Margins(width).0 < size || Margins(height).1 - Margins(height).0 < size
    ensures r.Some? ==> r.value.size == size && FitsPage(r.value, width, height)
  {
    AxisShape(width, size);
    AxisShape(height, size);
    var (x1, x2) := Margins(width);
    var (y1, y2) := Margins(height);
    var nx := RowOf(x2 - x1, size) - 1;
    var ny := RowOf(y2 - y1, size) - 1;
    if nx < 0 || ny < 0 then None else Some(Layout(x1, y1, x2, y2, size, nx, ny))
  }

  /** The layout fits the page, and a grid one tile larger in each axis would still fit its interior. */
  predicate FitsPage(l: Layout, width: nat, height: nat)
  {
    && l.size > 0
    && l.x1 <= l.x2 <= width && l.y1 <= l.y2 <= height
    && l.x1 + Times(l.nx + 1, l.size) <= l.x2
    && l.y1 + Times(l.ny + 1, l.size) <= l.y2
  }

  /**
   * Along one axis: the interior lies within the page, it holds a tile exactly
   * when it is at least `size` long, and then a grid of RowOf(span, size) tiles
   * fits in it and one more does not.
   */
  lemma AxisShape(length: nat, size: nat)
    requires size > 0
    ensures var (lo, hi) := Margins(length);
      && lo <= hi <= length
      && (RowOf(hi - lo, size) >= 1 <==> hi - lo >= size)
      && lo + Times(RowOf(hi - lo, size), size) <= hi < lo + Times(RowOf(hi - lo, size) + 1, size)
  {
    var (lo, hi) := Margins(length);
    Decompose(hi - lo, size);
  }

  /**
   * The interior keeps 10% of each side out (rounded down), the layout exists
   * exactly when the interior can hold a tile in both axes, and then the grid
   * has one tile fewer than fits: one more column (row) still fits in the
   * interior, two more do not.
   */
  lemma PlanShape(width: nat, height: nat, size: nat)
    requires size > 0
    ensures var (x1, x2) := Margins(width);
      var (y1, y2) := Margins(height);
      && x1 <= x2 <= width && y1 <= y2 <= height
      && (Plan(width, height, size).None? <==> x2 - x1 < size || y2 - y1 < size)
      && (Plan(width, height, size).Some? ==>
            var l := Plan(width, height, size).value;
            && l.x1 == x1 && l.x2 == x2 && l.y1 == y1 && l.y2 == y2 && l.size == size
            && FitsPage(l, width, height)
            && l.x2 < l.x1 + Times(l.nx + 2, size)
            && l.y2 < l.y1 + Times(l.ny + 2, size))
  {
    AxisShape(width, size);
    AxisShape(height, size);
  }

  // ------------------------------------------------------------------ tiles

  /** Column (row) x of a grid of n still ends inside the span whose room is n + 1 tiles. */
  lemma CellFits(lo: nat, hi: nat, n: nat, size: nat, x: nat)
    requires lo + Times(n + 1, size) <= hi && x < n
    ensures lo + Times(x, size) + size <= hi
  {
    TimesMono(x + 1, n + 1, size);
  }

  /** The view of grid cell (x, y), at (x1 + x * size, y1 + y * size), with its score. */
  function Cell(src: Image, l: Layout, x: nat, y: nat, perplexity: Image -> real): Tile
    requires FitsPage(l, src.width, src.height) && x < l.nx && y < l.ny
  {
    CellFits(l.x1, l.x2, l.nx, l.size, x);
    CellFits(l.y1, l.y2, l.ny, l.size, y);
    var px := l.x1 + Times(x, l.size);
    var py := l.y1 + Times(y, l.size);
    var crop := ReferenceCrop(src, px, py, px + l.size, py + l.size);
    Tile(crop, perplexity(crop))
  }

  /** Grid index k holds the cell in column k % nx of row k / nx. */
  function GridCell(src: Image, l: Layout, perplexity: Image -> real, k: nat): Tile
    requires FitsPage(l, src.width, src.height) && k < Times(l.ny, l.nx)
  {
    RowBound(k, l.nx, l.ny);
    Decompose(k, l.nx);
    Cell(src, l, Column(k, l.nx), RowOf(k, l.nx), perplexity)
  }

  /** The first n tiles of the grid in row-major order. */
  function GridPrefix(src: Image, l: Layout, perplexity: Image -> real, n: nat): seq<Tile>
    requires FitsPage(l, src.width, src.height) && n <= Times(l.ny, l.nx)
  {
    if n == 0 then [] else GridPrefix(src, l, perplexity, n - 1) + [GridCell(src, l, perplexity, n - 1)]
  }

  /** All cells in row-major order: cell (x, y) at index y * nx + x. */
  function GridTiles(src: Image, l: Layout, perplexity: Image -> real): seq<Tile>
    requires FitsPage(l, src.width, src.height)
  {
    GridPrefix(src, l, perplexity, Times(l.ny, l.nx))
  }

  lemma {:induction false} GridPrefixAt(src: Image, l: Layout, perplexity: Image -> real, n: nat, k: nat)
    requires FitsPage(l, src.width, src.height) && n <= Times(l.ny, l.nx)
    ensures |GridPrefix(src, l, perplexity, n)| == n
    ensures k < n ==> GridPrefix(src, l, perplexity, n)[k] == GridCell(src, l, perplexity, k)
  {
    if n > 0 {
      GridPrefixAt(src, l, perplexity, n - 1, k);
    }
  }

  /** A size x size view of `src` that shares its stride and lies inside the interior of `l`. */
  predicate InInterior(src: Image, l: Layout, img: Image)
  {
    && img.width == l.size && img.height == l.size
    && img.stride == src.stride && img.format == src.format
    && img.raster.Window? && img.raster.src == src.raster
    && l.x1 <= img.raster.left && img.raster.left + l.size <= l.x2
    && l.y1 <= img.raster.top && img.raster.top + l.size <= l.y2
  }

  /** Cell (x, y) has origin (x1 + x * size, y1 + y * size), is scored by the hook, and lies inside the interior. */
  lemma CellShape(src: Image, l: Layout, perplexity: Image -> real, x: nat, y: nat)
    requires FitsPage(l, src.width, src.height) && x < l.nx && y < l.ny
    ensures var t := Cell(src, l, x, y, perplexity);
      && t.img.raster == Window(src.raster, l.x1 + Times(x, l.size), l.y1 + Times(y, l.size))
      && t.perplexity == perplexity(t.img)
      && InInterior(src, l, t.img)
  {
    CellFits(l.x1, l.x2, l.nx, l.size, x);
    CellFits(l.y1, l.y2, l.ny, l.size, y);
  }

  /** The grid has nx * ny tiles. */
  lemma GridLength(src: Image, l: Layout, perplexity: Image -> real)
    requires FitsPage(l, src.width, src.height)
    ensures |GridTiles(src, l, perplexity)| == Times(l.ny, l.nx) == l.nx * l.ny
  {
    GridPrefixAt(src, l, perplexity, Times(l.ny, l.nx), 0);
    TimesIsProduct(l.ny, l.nx);
  }

  /** Grid index k holds the cell in column k % nx of row k / nx. */
  lemma GridAt(src: Image, l: Layout, perplexity: Image -> real, k: nat)
    requires FitsPage(l, src.width, src.height) && k < |GridTiles(src, l, perplexity)|
    ensures l.nx > 0 && Column(k, l.nx) < l.nx && RowOf(k, l.nx) < l.ny
    ensures GridTiles(src, l, perplexity)[k] == Cell(src, l, Column(k, l.nx), RowOf(k, l.nx), perplexity)
  {
    GridLength(src, l, perplexity);
    GridPrefixAt(src, l, perplexity, Times(l.ny, l.nx), k);
    RowBound(k, l.nx, l.ny);
    Decompose(k, l.nx);
  }

  /** Cell (x, y) is stored at index y * nx + x. */
  lemma GridIndex(src: Image, l: Layout, perplexity: Image -> real, x: nat, y: nat)
    requires FitsPage(l, src.width, src.height) && x < l.nx && y < l.ny
    ensures Times(y, l.nx) + x < |GridTiles(src, l, perplexity)|
    ensures GridTiles(src, l, perplexity)[Times(y, l.nx) + x] == Cell(src, l, x, y, perplexity)
  {
    var k := Times(y, l.nx) + x;
    TimesMono(y + 1, l.ny, l.nx);
    GridLength(src, l, perplexity);
    RowMajor(x, y, l.nx);
    GridAt(src, l, perplexity, k);
  }

  /** Every tile of the grid lies inside the interior. */
  lemma GridInInterior(src: Image, l: Layout, perplexity: Image -> real, k: nat)
    requires FitsPage(l, src.width, src.height) && k < |GridTiles(src, l, perplexity)|
    ensures InInterior(src, l, GridTiles(src, l, perplexity)[k].img)
  {
    GridAt(src, l, perplexity, k);
    CellShape(src, l, perplexity, Column(k, l.nx), RowOf(k, l.nx));
  }

  /** Different cells are different views. */
  lemma CellInjective(src: Image, l: Layout, perplexity: Image -> real, x: nat, y: nat, x': nat, y': nat)
    requires FitsPage(l, src.width, src.height) && x < l.nx && y < l.ny && x' < l.nx && y' < l.ny
    requires Cell(src, l, x, y, perplexity).img == Cell(src, l, x', y', perplexity).img
    ensures x == x' && y == y'
  {
    CellShape(src, l, perplexity, x, y);
    CellShape(src, l, perplexity, x', y');
    TimesInjective(x, x', l.size);
    TimesInjective(y, y', l.size);
  }

  /** No two tiles of the sequence are the same view. */
  predicate DistinctViews(s: seq<Tile>)
  {
    forall i, j | 0 <= i < j < |s| :: s[i].img != s[j].img
  }

  /** No two grid tiles are the same view. */
  lemma GridDistinct(src: Image, l: Layout, perplexity: Image -> real, i: nat, j: nat)
    requires FitsPage(l, src.width, src.height)
    requires i < j < |GridTiles(src, l, perplexity)|
    ensures GridTiles(src, l, perplexity)[i].img != GridTiles(src, l, perplexity)[j].img
  {
    GridAt(src, l, perplexity, i);
    GridAt(src, l, perplexity, j);
    if GridTiles(src, l, perplexity)[i].img == GridTiles(src, l, perplexity)[j].img {
      CellInjective(src, l, perplexity, Column(i, l.nx), RowOf(i, l.nx), Column(j, l.nx), RowOf(j, l.nx));
      SameCell(i, j, l.nx);
    }
  }

  /** Cell (x, y) in the source's own arithmetic: its view starts at (x1 + x * size, y1 + y * size). */
  lemma CellOrigin(src: Image, l: Layout, perplexity: Image -> real, x: nat, y: nat)
    requires FitsPage(l, src.width, src.height) && x < l.nx && y < l.ny
    ensures l.x1 + x * l.size + l.size <= src.width && l.y1 + y * l.size + l.size <= src.height
    ensures var px, py := l.x1 + x * l.size, l.y1 + y * l.size;
      var crop := ReferenceCrop(src, px, py, px + l.size, py + l.size);
      Cell(src, l, x, y, perplexity) == Tile(crop, perplexity(crop))
  {
    TimesIsProduct(x, l.size);
    TimesIsProduct(y, l.size);
    CellFits(l.x1, l.x2, l.nx, l.size, x);
    CellFits(l.y1, l.y2, l.ny, l.size, y);
  }

  lemma GridPrefixStep(src: Image, l: Layout, perplexity: Image -> real, n: nat)
    requires FitsPage(l, src.width, src.height) && n < Times(l.ny, l.nx)
    ensures GridPrefix(src, l, perplexity, n + 1) == GridPrefix(src, l, perplexity, n) + [GridCell(src, l, perplexity, n)]
  {
  }

  lemma GridCellAt(src: Image, l: Layout, perplexity: Image -> real, x: nat, y: nat)
    requires FitsPage(l, src.width, src.height) && x < l.nx && y < l.ny
    ensures Times(y, l.nx) + x < Times(l.ny, l.nx)
    ensures GridCell(src, l, perplexity, Times(y, l.nx) + x) == Cell(src, l, x, y, perplexity)
  {
    TimesNext(y, l.nx);
    TimesMono(y + 1, l.ny, l.nx);
    RowMajor(x, y, l.nx);
  }

  /** The grid prefix grows cell by cell: the cell after the first y * nx + x is (x, y). */
  lemma GridPrefixNext(src: Image, l: Layout, perplexity: Image -> real, x: nat, y: nat)
    requires FitsPage(l, src.width, src.height) && x < l.nx && y < l.ny
    ensures Times(y, l.nx) + x < Times(l.ny, l.nx)
    ensures GridPrefix(src, l, perplexity, Times(y, l.nx) + x + 1)
         == GridPrefix(src, l, perplexity, Times(y, l.nx) + x) + [Cell(src, l, x, y, perplexity)]
  {
    var k := Times(y, l.nx) + x;
    GridCellAt(src, l, perplexity, x, y);
    GridPrefixStep(src, l, perplexity, k);
  }

  /** Storing c just past a prefix p extends the prefix by c. */
  lemma PrefixAfterStore<T>(a: seq<T>, k: nat, c: T, p: seq<T>)
    requires k < |a| && a[..k] == p
    ensures a[k := c][..k + 1] == p + [c]
  {
    assert a[k := c][..k + 1] == a[..k] + [c];
  }

  /** Scores the view of cell (x, y) and stores it at index y * nx + x, just past the cells before it. */
  method PlaceCell(src: Image, l: Layout, perplexity: Image -> real, tiles: array<Tile>, x: nat, y: nat)
    requires FitsPage(l, src.width, src.height) && x < l.nx && y < l.ny
    requires tiles.Length == Times(l.ny, l.nx) && Times(y, l.nx) + x < tiles.Length
    requires tiles[..Times(y, l.nx) + x] == GridPrefix(src, l, perplexity, Times(y, l.nx) + x)
    modifies tiles
    ensures tiles[..Times(y, l.nx) + x + 1] == GridPrefix(src, l, perplexity, Times(y, l.nx) + x + 1)
    ensures tiles[Times(y, l.nx) + x + 1..] == old(tiles[Times(y, l.nx) + x + 1..])
  {
    ghost var k := Times(y, l.nx) + x;
    ghost var before := tiles[..];
    GridPrefixNext(src, l, perplexity, x, y);
    CellFits(l.x1, l.x2, l.nx, l.size, x);
    CellFits(l.y1, l.y2, l.ny, l.size, y);
    var px := l.x1 + Times(x, l.size);
    var py := l.y1 + Times(y, l.size);
    var crop := ReferenceCrop(src, px, py, px + l.size, py + l.size);
    tiles[Times(y, l.nx) + x] := Tile(crop, perplexity(crop));
    PrefixAfterStore(before, k, Cell(src, l, x, y, perplexity), GridPrefix(src, l, perplexity, k));
  }

  /** Fills row y of the grid, cell by cell. */
  method LayRow(src: Image, l: Layout, perplexity: Image -> real, tiles: array<Tile>, y: nat)
    requires FitsPage(l, src.width, src.height) && y < l.ny
    requires tiles.Length == Times(l.ny, l.nx) && Times(y, l.nx) <= tiles.Length
    requires tiles[..Times(y, l.nx)] == GridPrefix(src, l, perplexity, Times(y, l.nx))
    modifies tiles
    ensures Times(y + 1, l.nx) <= tiles.Length
    ensures tiles[..Times(y + 1, l.nx)] == GridPrefix(src, l, perplexity, Times(y + 1, l.nx))
    ensures tiles[Times(y + 1, l.nx)..] == old(tiles[Times(y + 1, l.nx)..])
  {
    TimesNext(y, l.nx);
    TimesMono(y + 1, l.ny, l.nx);
    for x := 0 to l.nx
      invariant tiles[..Times(y, l.nx) + x] == GridPrefix(src, l, perplexity, Times(y, l.nx) + x)
      invariant tiles[Times(y + 1, l.nx)..] == old(tiles[Times(y + 1, l.nx)..])
    {
      PlaceCell(src, l, perplexity, tiles, x, y);
    }
  }

  /** Fills a fresh array with the grid's tiles, row by row. */
  method LayTiles(src: Image, l: Layout, perplexity: Image -> real) returns (tiles: array<Tile>)
    requires FitsPage(l, src.width, src.height)
    ensures fresh(tiles) && tiles[..] == GridTiles(src, l, perplexity)
  {
    tiles := new Tile[Times(l.ny, l.nx)];
    for y := 0 to l.ny
      invariant Times(y, l.nx) <= tiles.Length
      invariant tiles[..Times(y, l.nx)] == GridPrefix(src, l, perplexity, Times(y, l.nx))
    {
      LayRow(src, l, perplexity, tiles, y);
    }
    assert tiles[..] == tiles[..Times(l.ny, l.nx)];
  }

  // ------------------------------------------------------------------ ranking

  /** Highest perplexity first. */
  predicate NonIncreasing(s: seq<Tile>)
  {
    forall i, j | 0 <= i < j < |s| :: s[i].perplexity >= s[j].perplexity
  }

  /** Exchanges two elements in place. */
  method Swap<T>(a: array<T>, i: nat, j: nat)
    requires i < a.Length && j < a.Length
    modifies a
    ensures a[..] == old(a[..])[i := old(a[j])][j := old(a[i])]
    ensures multiset(a[..]) == multiset(old(a[..]))
  {
    a[i], a[j] := a[j], a[i];
  }

  /**
   * Inserts t into a ranking behind every tile scored at least as high as t:
   * the place an insertion sort that moves t forward past strictly lower
   * tiles gives it.
   */
  function Insert(s: seq<Tile>, t: Tile): (r: seq<Tile>)
    ensures |r| == |s| + 1
  {
    if s == [] || s[|s| - 1].perplexity >= t.perplexity then s + [t]
    else Insert(s[..|s| - 1], t) + [s[|s| - 1]]
  }

  /**
   * The ranking of a sequence of tiles by decreasing perplexity: each tile in
   * turn is inserted into the ranking of the tiles before it. Tiles of equal
   * perplexity keep their relative order.
   */
  function Ranked(s: seq<Tile>): (r: seq<Tile>)
    ensures |r| == |s|
  {
    if s == [] then [] else Insert(Ranked(s[..|s| - 1]), s[|s| - 1])
  }

  lemma {:induction false} InsertPermutes(s: seq<Tile>, t: Tile)
    ensures multiset(Insert(s, t)) == multiset(s) + multiset{t}
  {
    if s != [] && s[|s| - 1].perplexity < t.perplexity {
      var init := s[..|s| - 1];
      assert s == init + [s[|s| - 1]];
      InsertPermutes(init, t);
    }
  }

  /** Appending a tile no higher than any tile before keeps the order. */
  lemma AppendLowest(r: seq<Tile>, u: Tile)
    requires NonIncreasing(r)
    requires forall i | 0 <= i < |r| :: r[i].perplexity >= u.perplexity
    ensures NonIncreasing(r + [u])
  {
  }

  lemma {:induction false} InsertOrdered(s: seq<Tile>, t: Tile)
    requires NonIncreasing(s)
    ensures NonIncreasing(Insert(s, t))
  {
    if s != [] && s[|s| - 1].perplexity < t.perplexity {
      var init := s[..|s| - 1];
      var last := s[|s| - 1];
      InsertOrdered(init, t);
      InsertPermutes(init, t);
      var r := Insert(init, t);
      forall i | 0 <= i < |r|
        ensures r[i].perplexity >= last.perplexity
      {
        assert r[i] in multiset(init) + multiset{t};
        if r[i] != t {
          var p :| 0 <= p < |init| && init[p] == r[i];
          assert s[p] == init[p];
        }
      }
      AppendLowest(r, last);
    }
  }

  /** The ranking is in non-increasing perplexity and holds the same tiles. */
  lemma {:induction false} RankedSorts(s: seq<Tile>)
    ensures NonIncreasing(Ranked(s))
    ensures multiset(Ranked(s)) == multiset(s)
  {
    if s != [] {
      var init := s[..|s| - 1];
      RankedSorts(init);
      InsertOrdered(Ranked(init), s[|s| - 1]);
      InsertPermutes(Ranked(init), s[|s| - 1]);
      assert s == init + [s[|s| - 1]];
    }
  }

  /** Inserting t behind the first j ranked tiles, when it goes no further forward. */
  lemma InsertAt(p: seq<Tile>, t: Tile, j: nat)
    requires j <= |p|
    requires j == 0 || p[j - 1].perplexity >= t.perplexity
    ensures Insert(p[..j], t) == p[..j] + [t]
  {
  }

  /** Moving t one place forward, past a strictly lower tile. */
  lemma InsertPast(p: seq<Tile>, t: Tile, j: nat)
    requires 0 < j <= |p| && p[j - 1].perplexity < t.perplexity
    ensures Insert(p[..j], t) + p[j..] == Insert(p[..j - 1], t) + p[j - 1..]
  {
    assert p[..j][..j - 1] == p[..j - 1];
    assert p[j - 1..] == [p[j - 1]] + p[j..];
  }

  /** Moves tile i forward past the strictly lower tiles before it: the first i + 1 tiles become Insert of tile i into the first i. */
  method InsertLast(a: array<Tile>, i: nat)
    requires i < a.Length
    modifies a
    ensures a[..i + 1] == Insert(old(a[..i]), old(a[i]))
    ensures a[i + 1..] == old(a[i + 1..])
  {
    ghost var p := a[..i];
    var t := a[i];
    var j := i;
    while j > 0 && a[j - 1].perplexity < t.perplexity
      invariant j <= i
      invariant a[..j] == p[..j] && a[j] == t && a[j + 1..i + 1] == p[j..]
      invariant Insert(p, t) == Insert(p[..j], t) + p[j..]
      invariant a[i + 1..] == old(a[i + 1..])
      decreases j
    {
      InsertPast(p, t, j);
      a[j] := a[j - 1];
      a[j - 1] := t;
      j := j - 1;
    }
    InsertAt(p, t, j);
    assert a[..i + 1] == a[..j] + [a[j]] + a[j + 1..i + 1];
  }

  /**
   * Orders the tiles by decreasing perplexity, in place, by insertion: tile i
   * moves forward while the tile before it scores strictly lower.
   */
  method SortByPerplexity(a: array<Tile>)
    modifies a
    ensures a[..] == Ranked(old(a[..]))
    ensures NonIncreasing(a[..])
    ensures multiset(a[..]) == multiset(old(a[..]))
  {
    ghost var s := a[..];
    for i := 0 to a.Length
      invariant a[..i] == Ranked(s[..i])
      invariant a[i..] == s[i..]
    {
      InsertLast(a, i);
      assert s[..i + 1][..i] == s[..i];
    }
    assert a[..] == a[..a.Length] && s == s[..a.Length];
    RankedSorts(s);
  }

  // ---------------------------------------------------------------- shuffling

  function SwapAt<T>(s: seq<T>, i: nat, j: nat): seq<T>
    requires i < |s| && j < |s|
  {
    s[i := s[j]][j := s[i]]
  }

  /**
   * Fisher-Yates from position i down to 1: position i is exchanged with the
   * drawn position in [0, i], then the same is done below it.
   */
  function ShuffleFrom<T>(s: seq<T>, i: nat, draw: Draw): (r: seq<T>)
    requires i < |s| || i == 0
    ensures |r| == |s|
    decreases i
  {
    if i == 0 then s else ShuffleFrom(SwapAt(s, i, draw(|s|, i) % (i + 1)), i - 1, draw)
  }

  /** The whole shuffle of a sequence, starting at its last position. */
  function Shuffled<T>(s: seq<T>, draw: Draw): (r: seq<T>)
    ensures |r| == |s|
  {
    if |s| == 0 then s else ShuffleFrom(s, |s| - 1, draw)
  }

  lemma SwapAtPermutes<T>(s: seq<T>, i: nat, j: nat)
    requires i < |s| && j < |s|
    ensures |SwapAt(s, i, j)| == |s| && multiset(SwapAt(s, i, j)) == multiset(s)
  {
  }

  lemma {:induction false} ShuffleFromPermutes<T>(s: seq<T>, i: nat, draw: Draw)
    requires i < |s| || i == 0
    ensures multiset(ShuffleFrom(s, i, draw)) == multiset(s)
    decreases i
  {
    if i > 0 {
      var t := SwapAt(s, i, draw(|s|, i) % (i + 1));
      SwapAtPermutes(s, i, draw(|s|, i) % (i + 1));
      ShuffleFromPermutes(t, i - 1, draw);
    }
  }

  /** Whatever the generator draws, the shuffle only reorders. */
  lemma ShuffledPermutes<T>(s: seq<T>, draw: Draw)
    ensures multiset(Shuffled(s, draw)) == multiset(s)
  {
    if |s| > 0 {
      ShuffleFromPermutes(s, |s| - 1, draw);
    }
  }

  /** The prefix of length n after exchanging two of its positions. */
  lemma SwapInPrefix<T>(before: seq<T>, after: seq<T>, n: nat, i: nat, j: nat)
    requires i < n && j < n && n <= |before|
    requires after == before[i := before[j]][j := before[i]]
    ensures after[..n] == SwapAt(before[..n], i, j) && after[n..] == before[n..]
  {
  }

  /**
   * The generator's shuffle of the first n tiles, in place: for i from n - 1
   * down to 1, tile i is exchanged with the tile at the drawn position in [0, i].
   * Tiles from n on are not touched.
   */
  method ShufflePrefix(a: array<Tile>, n: nat, draw: Draw)
    requires n <= a.Length
    modifies a
    ensures a[..n] == Shuffled(old(a[..n]), draw)
    ensures a[n..] == old(a[n..])
  {
    if n == 0 {
      assert a[..n] == [] == old(a[..n]);
      return;
    }
    var i: nat := n - 1;
    while i > 0
      invariant i < n
      invariant ShuffleFrom(a[..n], i, draw) == Shuffled(old(a[..n]), draw)
      invariant a[n..] == old(a[n..])
    {
      var j := draw(n, i) % (i + 1);
      ghost var before := a[..];
      Swap(a, i, j);
      SwapInPrefix(before, a[..], n, i, j);
      i := i - 1;
    }
    assert ShuffleFrom(a[..n], 0, draw) == a[..n];
  }

  // ----------------------------------------------------------------- sampling

  /** The images of a sequence of tiles. */
  function Views(s: seq<Tile>): seq<Image>
  {
    if s == [] then [] else Views(s[..|s| - 1]) + [s[|s| - 1].img]
  }

  lemma {:induction false} ViewsAt(s: seq<Tile>, i: nat)
    ensures |Views(s)| == |s|
    ensures i < |s| ==> Views(s)[i] == s[i].img
  {
    if s != [] {
      ViewsAt(s[..|s| - 1], i);
    }
  }

  lemma ViewsStep(s: seq<Tile>, i: nat)
    requires i < |s|
    ensures Views(s[..i + 1]) == Views(s[..i]) + [s[i].img]
  {
    assert s[..i + 1][..i] == s[..i];
  }

  /** How many of the ranked tiles are kept: three per requested sample, at most all of them. */
  function PoolSize(total: nat, numTiles: nat): nat
  {
    Min(total, 3 * numTiles)
  }

  /**
   * The images of the first numTiles shuffled pool tiles, fewer when the pool
   * is smaller than numTiles.
   */
  method TakeSamples(tiles: array<Tile>, poolLen: nat, numTiles: nat) returns (samples: seq<Image>)
    requires poolLen <= tiles.Length
    ensures |samples| == Min(numTiles, poolLen)
    ensures samples == Views(tiles[..Min(numTiles, poolLen)])
  {
    var n := Min(numTiles, poolLen);
    var out := new Image[n];
    for i := 0 to n
      invariant out[..i] == Views(tiles[..i])
    {
      ViewsStep(tiles[..], i);
      assert tiles[..][..i + 1] == tiles[..i + 1] && tiles[..][..i] == tiles[..i];
      out[i] := tiles[i].img;
    }
    samples := out[..];
    assert out[..] == out[..n];
    ViewsAt(tiles[..n], 0);
  }

  /**
   * Sampling as imagesplit.go writes it: numTiles slots are filled from the
   * pool, and reading past the end of the pool stops the program (None).
   */
  method TakeSamplesAsWritten(tiles: array<Tile>, poolLen: nat, numTiles: nat) returns (r: Option<seq<Image>>)
    requires poolLen <= tiles.Length
    ensures r.None? <==> numTiles > poolLen
    ensures r.Some? ==> r.value == Views(tiles[..numTiles])
  {
    var out := new Image[numTiles];
    for i := 0 to numTiles
      invariant i <= poolLen
      invariant out[..i] == Views(tiles[..i])
    {
      if i >= poolLen {
        return None;
      }
      ViewsStep(tiles[..], i);
      assert tiles[..][..i + 1] == tiles[..i + 1] && tiles[..][..i] == tiles[..i];
      out[i] := tiles[i].img;
    }
    assert out[..] == out[..numTiles];
    return Some(out[..]);
  }

  /**
   * A 300 x 300 grayscale page cut into 32 px tiles has a 6 x 6 grid, so its
   * pool holds 36 tiles, fewer than the 200 samples the orientation vote asks
   * for: the sampling as written reads past the end of the pool.
   */
  lemma SmallPageExhaustsPool()
    ensures var page := Image(300, 300, 300, Gray, Scan(0));
      && Normalize(page) == page
      && Plan(300, 300, 32) == Some(Layout(30, 30, 270, 270, 32, 6, 6))
      && PoolSize(Times(6, 6), 200) == 36 < 200
  {
    assert RowOf(240, 32) == 7;
  }

  // ---------------------------------------------------------------- splitting

  /**
   * What sampling hands out from a page's grid: the grid is ranked by
   * decreasing perplexity, the pool is the first PoolSize ranked tiles, and
   * the samples are the images of the first numTiles of the shuffled pool
   * (all of it when the pool is smaller).
   */
  function Sample(grid: seq<Tile>, numTiles: nat, draw: Draw): seq<Image>
  {
    var pool := PoolSize(|grid|, numTiles);
    Views(Shuffled(Ranked(grid)[..pool], draw)[..Min(numTiles, pool)])
  }

  /**
   * The samples of a page: none when the normalised page's interior holds no
   * tile, otherwise a sampling of its grid.
   */
  function Split(img: Image, numTiles: nat, size: nat, perplexity: Image -> real, draw: Draw): seq<Image>
    requires size > 0
  {
    var page := Normalize(img);
    match Plan(page.width, page.height, size)
    case None => []
    case Some(l) => Sample(GridTiles(page, l, perplexity), numTiles, draw)
  }

  /**
   * Splits a page into size x size tiles and returns numTiles of them, picked
   * at random among the 3 * numTiles with the highest perplexity. A page whose
   * interior holds no tile gives no samples. The generator's seed is fixed, so
   * the samples are a function of the page, the counts and the scores.
   */
  method SplitImage(img: Image, numTiles: nat, size: nat, perplexity: Image -> real, draw: Draw)
    returns (samples: seq<Image>)
    requires size > 0
    ensures samples == Split(img, numTiles, size, perplexity, draw)
  {
    var page := Normalize(img);
    var plan := Plan(page.width, page.height, size);
    if plan.None? {
      return [];
    }
    var l := plan.value;
    var tiles := LayTiles(page, l, perplexity);
    SortByPerplexity(tiles);
    var poolLen := Min(tiles.Length, 3 * numTiles);
    ShufflePrefix(tiles, poolLen, draw);
    samples := TakeSamples(tiles, poolLen, numTiles);
    assert tiles[..Min(numTiles, poolLen)] == tiles[..poolLen][..Min(numTiles, poolLen)];
  }

  // ------------------------------------------------------- what a split gives

  lemma GridDistinctViews(src: Image, l: Layout, perplexity: Image -> real)
    requires FitsPage(l, src.width, src.height)
    ensures DistinctViews(GridTiles(src, l, perplexity))
  {
    forall i, j | 0 <= i < j < |GridTiles(src, l, perplexity)|
      ensures GridTiles(src, l, perplexity)[i].img != GridTiles(src, l, perplexity)[j].img
    {
      GridDistinct(src, l, perplexity, i, j);
    }
  }

  ghost predicate Distinct<T>(s: seq<T>)
  {
    forall i, j | 0 <= i < j < |s| :: s[i] != s[j]
  }

  /** In a sequence without repetitions every element occurs at most once. */
  lemma {:induction false} AtMostOnce<T>(s: seq<T>, x: T)
    requires Distinct(s)
    ensures multiset(s)[x] <= 1
  {
    if s != [] {
      var init := s[..|s| - 1];
      assert s == init + [s[|s| - 1]];
      AtMostOnce(init, x);
      if s[|s| - 1] == x {
        assert x !in init;
      }
    }
  }

  /** An element at two positions occurs at least twice. */
  lemma Twice<T>(s: seq<T>, i: nat, j: nat)
    requires i < j < |s| && s[i] == s[j]
    ensures multiset(s)[s[i]] >= 2
  {
    assert s == s[..j] + s[j..];
    assert s[i] in s[..j] && s[j] in s[j..];
  }

  /** Reordering keeps the views distinct. */
  lemma DistinctViewsPermuted(s: seq<Tile>, t: seq<Tile>)
    requires multiset(s) == multiset(t) && DistinctViews(s)
    ensures DistinctViews(t)
  {
    forall i, j | 0 <= i < j < |t|
      ensures t[i].img != t[j].img
    {
      if t[i].img == t[j].img {
        assert t[i] in multiset(s) && t[j] in multiset(s);
        var p :| 0 <= p < |s| && s[p] == t[i];
        var q :| 0 <= q < |s| && s[q] == t[j];
        if p == q {
          Twice(t, i, j);
          AtMostOnce(s, t[i]);
        }
      }
    }
  }

  /** Sampling hands out min(numTiles, number of grid tiles) images: all available ones when the grid is small. */
  lemma SampleCount(grid: seq<Tile>, numTiles: nat, draw: Draw)
    ensures |Sample(grid, numTiles, draw)| == Min(numTiles, |grid|)
  {
    var pool := PoolSize(|grid|, numTiles);
    ViewsAt(Shuffled(Ranked(grid)[..pool], draw)[..Min(numTiles, pool)], 0);
  }

  /**
   * Every sample is the view of a pool tile, and every pool tile is at least
   * as perplexing as every ranked tile left out of the pool.
   */
  lemma SamplesAreTopRanked(grid: seq<Tile>, numTiles: nat, draw: Draw, k: nat)
    requires k < |Sample(grid, numTiles, draw)|
    ensures var ranked := Ranked(grid);
      exists i | 0 <= i < PoolSize(|grid|, numTiles) ::
        && Sample(grid, numTiles, draw)[k] == ranked[i].img
        && forall j | PoolSize(|grid|, numTiles) <= j < |grid| :: ranked[i].perplexity >= ranked[j].perplexity
  {
    var ranked := Ranked(grid);
    RankedSorts(grid);
    var pool := PoolSize(|grid|, numTiles);
    var shuffled := Shuffled(ranked[..pool], draw);
    ViewsAt(shuffled[..Min(numTiles, pool)], k);
    ShuffledPermutes(ranked[..pool], draw);
    assert shuffled[k] in multiset(ranked[..pool]);
    var i :| 0 <= i < pool && ranked[..pool][i] == shuffled[k];
    assert Sample(grid, numTiles, draw)[k] == ranked[i].img;
  }

  /** Every sample is a tile-sized view that lies inside the page's interior. */
  lemma SamplesInInterior(page: Image, l: Layout, perplexity: Image -> real, numTiles: nat, draw: Draw, k: nat)
    requires FitsPage(l, page.width, page.height)
    requires k < |Sample(GridTiles(page, l, perplexity), numTiles, draw)|
    ensures InInterior(page, l, Sample(GridTiles(page, l, perplexity), numTiles, draw)[k])
  {
    var grid := GridTiles(page, l, perplexity);
    var ranked := Ranked(grid);
    SamplesAreTopRanked(grid, numTiles, draw, k);
    RankedSorts(grid);
    var i :| 0 <= i < PoolSize(|grid|, numTiles) && Sample(grid, numTiles, draw)[k] == ranked[i].img;
    assert ranked[i] in multiset(grid);
    var g :| 0 <= g < |grid| && grid[g] == ranked[i];
    GridInInterior(page, l, perplexity, g);
  }

  /** No view is sampled twice. */
  lemma SamplesDistinct(page: Image, l: Layout, perplexity: Image -> real, numTiles: nat, draw: Draw)
    requires FitsPage(l, page.width, page.height)
    ensures var samples := Sample(GridTiles(page, l, perplexity), numTiles, draw);
      forall k, k' | 0 <= k < k' < |samples| :: samples[k] != samples[k']
  {
    var grid := GridTiles(page, l, perplexity);
    var ranked := Ranked(grid);
    var samples := Sample(grid, numTiles, draw);
    var pool := PoolSize(|grid|, numTiles);
    var shuffled := Shuffled(ranked[..pool], draw);
    var taken := shuffled[..Min(numTiles, pool)];
    GridDistinctViews(page, l, perplexity);
    RankedSorts(grid);
    DistinctViewsPermuted(grid, ranked);
    assert DistinctViews(ranked[..pool]);
    ShuffledPermutes(ranked[..pool], draw);
    DistinctViewsPermuted(ranked[..pool], shuffled);
    forall k, k' | 0 <= k < k' < |samples|
      ensures samples[k] != samples[k']
    {
      ViewsAt(taken, k);
      ViewsAt(taken, k');
    }
  }

  /**
   * Every sample of a split is a size x size view, and a split gives no
   * samples exactly when the interior holds no tile, the grid is empty or no
   * sample was asked for.
   */
  lemma SplitShape(img: Image, numTiles: nat, size: nat, perplexity: Image -> real, draw: Draw)
    requires size > 0
    ensures var samples := Split(img, numTiles, size, perplexity, draw);
      forall k | 0 <= k < |samples| :: samples[k].width == size && samples[k].height == size
    ensures var page := Normalize(img);
      var plan := Plan(page.width, page.height, size);
      Split(img, numTiles, size, perplexity, draw) == [] <==>
        plan.None? || plan.value.nx == 0 || plan.value.ny == 0 || numTiles == 0
  {
    var page := Normalize(img);
    var plan := Plan(page.width, page.height, size);
    if plan.Some? {
      var l := plan.value;
      var grid := GridTiles(page, l, perplexity);
      SampleCount(grid, numTiles, draw);
      GridLength(page, l, perplexity);
      TimesIsProduct(l.ny, l.nx);
      forall k | 0 <= k < |Sample(grid, numTiles, draw)|
        ensures Sample(grid, numTiles, draw)[k].width == size && Sample(grid, numTiles, draw)[k].height == size
      {
        SamplesInInterior(page, l, perplexity, numTiles, draw, k);
      }
    }
  }

  /** No two tiles of the sequence have the same perplexity. */
  predicate DistinctScores(s: seq<Tile>)
  {
    forall i, j | 0 <= i < j < |s| :: s[i].perplexity != s[j].perplexity
  }

  lemma DistinctScoresPermuted(s: seq<Tile>, t: seq<Tile>)
    requires multiset(s) == multiset(t) && DistinctScores(s)
    ensures DistinctScores(t)
  {
    forall i, j | 0 <= i < j < |t|
      ensures t[i].perplexity != t[j].perplexity
    {
      if t[i].perplexity == t[j].perplexity {
        assert t[i] in multiset(s) && t[j] in multiset(s);
        var p :| 0 <= p < |s| && s[p] == t[i];
        var q :| 0 <= q < |s| && s[q] == t[j];
        if p == q {
          Twice(t, i, j);
          AtMostOnce(s, t[i]);
        }
      }
    }
  }

  lemma MultisetTail<T>(s: seq<T>)
    requires |s| > 0
    ensures multiset(s[1..]) == multiset(s) - multiset{s[0]}
  {
    assert s == [s[0]] + s[1..];
  }

  /** Two rankings of the same tiles with distinct scores start with the same tile. */
  lemma RankingHead(a: seq<Tile>, b: seq<Tile>)
    requires multiset(a) == multiset(b) && NonIncreasing(a) && NonIncreasing(b) && DistinctScores(a)
    requires |a| > 0
    ensures |b| > 0 && a[0] == b[0]
  {
    assert a[0] in multiset(b);
    var q :| 0 <= q < |b| && b[q] == a[0];
    assert b[0] in multiset(a);
    var p :| 0 <= p < |a| && a[p] == b[0];
    assert a[0].perplexity >= a[p].perplexity == b[0].perplexity >= b[q].perplexity;
  }

  /** With all scores distinct there is only one ranking: sorting is then fully determined. */
  lemma {:induction false} RankingUnique(a: seq<Tile>, b: seq<Tile>)
    requires multiset(a) == multiset(b) && NonIncreasing(a) && NonIncreasing(b) && DistinctScores(a)
    ensures a == b
  {
    if |a| == 0 {
      assert |multiset(b)| == 0;
    } else {
      RankingHead(a, b);
      MultisetTail(a);
      MultisetTail(b);
      RankingUnique(a[1..], b[1..]);
      assert a == [a[0]] + a[1..] && b == [b[0]] + b[1..];
    }
  }

  /**
   * The order of equal scores is the only thing the ranking fixes beyond a
   * sort by decreasing perplexity: when no two grid tiles score the same,
   * every such sort, whatever its tie rule, gives the ranking Ranked and so
   * the same samples.
   */
  lemma AnySortSamplesAlike(grid: seq<Tile>, numTiles: nat, draw: Draw, ranked: seq<Tile>)
    requires DistinctScores(grid)
    requires multiset(ranked) == multiset(grid) && NonIncreasing(ranked)
    ensures var pool := PoolSize(|ranked|, numTiles);
      Views(Shuffled(ranked[..pool], draw)[..Min(numTiles, pool)]) == Sample(grid, numTiles, draw)
  {
    RankedSorts(grid);
    DistinctScoresPermuted(grid, Ranked(grid));
    RankingUnique(Ranked(grid), ranked);
  }
}
