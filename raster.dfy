/** Images and label maps as rectangular grids of pixel values, with the PIL and numpy
    operations the pipeline applies to them: crop, border expansion, mirroring, numpy slicing,
    thresholding and the cast to 8-bit. */
module Raster {

  /** `height` rows of `width` pixels each; a pixel is one integer sample. */
  datatype Grid = Grid(width: nat, height: nat, rows: seq<seq<int>>)

  predicate Rectangular(g: Grid) {
    |g.rows| == g.height && forall y | 0 <= y < |g.rows| :: |g.rows[y]| == g.width
  }

  type Raster = g: Grid | Rectangular(g) witness Grid(0, 0, [])

  function Min(a: int, b: int): int { if a <= b then a else b }

  function Max(a: int, b: int): int { if a <= b then b else a }

  /** The pixel at row y, column x, and 0 outside the grid (what PIL reads there). */
  function Pixel(g: Raster, y: int, x: int): int {
    if 0 <= y < g.height && 0 <= x < g.width then g.rows[y][x] else 0
  }

  /** The grid of the given size whose pixel (y, x) is f(y, x). */
  function Build(width: nat, height: nat, f: (int, int) -> int): (r: Raster)
    ensures r.width == width && r.height == height
    ensures forall y, x | 0 <= y < height && 0 <= x < width :: r.rows[y][x] == f(y, x)
  {
    Grid(width, height, seq(height, y => seq(width, x => f(y, x))))
  }

  /** Two grids of the same size that agree on every pixel are the same grid. */
  lemma SameRaster(a: Raster, b: Raster)
    requires a.width == b.width && a.height == b.height
    requires forall y, x | 0 <= y < a.height && 0 <= x < a.width :: a.rows[y][x] == b.rows[y][x]
    ensures a == b
  {
    forall y | 0 <= y < a.height
      ensures a.rows[y] == b.rows[y]
    {
      assert forall x | 0 <= x < a.width :: a.rows[y][x] == b.rows[y][x];
    }
  }

  /** PIL `crop((left, upper, right, lower))`: pixel (y, x) of the result is the source pixel
      (upper + y, left + x), or 0 where the box leaves the image. */
  function Crop(g: Raster, left: int, upper: int, right: int, lower: int): (r: Raster)
    requires left <= right && upper <= lower
    ensures r.width == right - left && r.height == lower - upper
    ensures forall y, x | 0 <= y < r.height && 0 <= x < r.width :: r.rows[y][x] == Pixel(g, upper + y, left + x)
  {
    Build(right - left, lower - upper, (y, x) => Pixel(g, upper + y, left + x))
  }

  /** A box that lies inside the image takes every pixel of the crop from the image itself. */
  lemma CropInside(g: Raster, left: int, upper: int, right: int, lower: int)
    requires 0 <= left <= right <= g.width && 0 <= upper <= lower <= g.height
    ensures forall y, x | 0 <= y < lower - upper && 0 <= x < right - left ::
      Crop(g, left, upper, right, lower).rows[y][x] == g.rows[upper + y][left + x]
  {
  }

  /** `ImageOps.expand` with border (left, top, right, bottom): a canvas filled with `fill`,
      grown by the border on each side, with the image pasted at (left, top) and clipped to the
      canvas (a negative border shrinks the canvas). */
  function Expand(g: Raster, left: int, top: int, right: int, bottom: int, fill: int): (r: Raster)
    requires 0 <= left + g.width + right && 0 <= top + g.height + bottom
    ensures r.width == left + g.width + right && r.height == top + g.height + bottom
    ensures forall y, x | 0 <= y < r.height && 0 <= x < r.width ::
      r.rows[y][x] == if top <= y < top + g.height && left <= x < left + g.width
                      then g.rows[y - top][x - left] else fill
  {
    var r := Build(left + g.width + right, top + g.height + bottom,
                   (y, x) => if 0 <= y - top < g.height && 0 <= x - left < g.width then Pixel(g, y - top, x - left) else fill);
    assert forall y, x | 0 <= y < r.height && 0 <= x < r.width ::
      r.rows[y][x] == if 0 <= y - top < g.height && 0 <= x - left < g.width then Pixel(g, y - top, x - left) else fill;
    r
  }

  /** Cropping the pasted area back out of a canvas grown on every side returns the image. */
  lemma CropUndoesExpand(g: Raster, left: nat, top: nat, right: nat, bottom: nat, fill: int)
    ensures Crop(Expand(g, left, top, right, bottom, fill), left, top, left + g.width, top + g.height) == g
  {
    var e := Expand(g, left, top, right, bottom, fill);
    var r := Crop(e, left, top, left + g.width, top + g.height);
    forall y, x | 0 <= y < g.height && 0 <= x < g.width
      ensures r.rows[y][x] == g.rows[y][x]
    {
      assert r.rows[y][x] == Pixel(e, top + y, left + x);
    }
    SameRaster(r, g);
  }

  /** PIL `transpose(FLIP_LEFT_RIGHT)`: every row reversed. */
  function FlipLeftRight(g: Raster): (r: Raster)
    ensures r.width == g.width && r.height == g.height
    ensures forall y, x | 0 <= y < g.height && 0 <= x < g.width :: r.rows[y][x] == g.rows[y][g.width - 1 - x]
  {
    var r := Build(g.width, g.height, (y, x) => Pixel(g, y, g.width - 1 - x));
    assert forall y, x | 0 <= y < g.height && 0 <= x < g.width :: r.rows[y][x] == Pixel(g, y, g.width - 1 - x);
    r
  }

  /** PIL `transpose(FLIP_TOP_BOTTOM)`: the order of the rows reversed. */
  function FlipTopBottom(g: Raster): (r: Raster)
    ensures r.width == g.width && r.height == g.height
    ensures forall y, x | 0 <= y < g.height && 0 <= x < g.width :: r.rows[y][x] == g.rows[g.height - 1 - y][x]
  {
    var r := Build(g.width, g.height, (y, x) => Pixel(g, g.height - 1 - y, x));
    assert forall y, x | 0 <= y < g.height && 0 <= x < g.width :: r.rows[y][x] == Pixel(g, g.height - 1 - y, x);
    r
  }

  lemma FlipLeftRightInvolutive(g: Raster)
    ensures FlipLeftRight(FlipLeftRight(g)) == g
  {
    SameRaster(FlipLeftRight(FlipLeftRight(g)), g);
  }

  lemma FlipTopBottomInvolutive(g: Raster)
    ensures FlipTopBottom(FlipTopBottom(g)) == g
  {
    SameRaster(FlipTopBottom(FlipTopBottom(g)), g);
  }

  /** Python's normalisation of the slice `s[i:j]` of a sequence of length n: a negative bound
      counts from the end, and both bounds are clipped to [0, n]. Gives the kept range [a, b). */
  function SliceBound(i: int, n: nat): (k: nat)
    ensures k <= n
    ensures 0 <= i ==> k == Min(i, n)
    ensures i < 0 ==> k == Max(0, i + n)
  {
    if i < 0 then (if i + n < 0 then 0 else i + n) else if i > n then n else i
  }

  function SliceRange(n: nat, i: int, j: int): (r: (nat, nat))
    ensures r.0 <= r.1 <= n
  {
    var a := SliceBound(i, n);
    var b := SliceBound(j, n);
    (a, if b < a then a else b)
  }

  /** numpy `g[i:i + size, j:j + size]`: rows and columns sliced with Python's slice rules. */
  function Tile(g: Raster, i: int, j: int, size: int): (r: Raster)
  {
    var rs := SliceRange(g.height, i, i + size);
    var cs := SliceRange(g.width, j, j + size);
    Build(cs.1 - cs.0, rs.1 - rs.0, (y, x) => Pixel(g, rs.0 + y, cs.0 + x))
  }

  /** A tile that lies inside the image is the PIL crop of the same square. */
  lemma TileInsideIsCrop(g: Raster, i: nat, j: nat, size: nat)
    requires i + size <= g.height && j + size <= g.width
    ensures Tile(g, i, j, size) == Crop(g, j, i, j + size, i + size)
  {
    SameRaster(Tile(g, i, j, size), Crop(g, j, i, j + size, i + size));
  }

  /** Every pixel of a tile is a pixel of the image, shifted by the start of the slice. */
  lemma TileTakesPixels(g: Raster, i: int, j: int, size: int)
    ensures var rs := SliceRange(g.height, i, i + size); var cs := SliceRange(g.width, j, j + size);
      var t := Tile(g, i, j, size);
      && t.height == rs.1 - rs.0 && t.width == cs.1 - cs.0
      && forall y, x | 0 <= y < t.height && 0 <= x < t.width ::
           rs.0 + y < g.height && cs.0 + x < g.width && t.rows[y][x] == g.rows[rs.0 + y][cs.0 + x]
  {
    var rs := SliceRange(g.height, i, i + size);
    var cs := SliceRange(g.width, j, j + size);
    var t := Tile(g, i, j, size);
    assert t == Build(cs.1 - cs.0, rs.1 - rs.0, (y, x) => Pixel(g, rs.0 + y, cs.0 + x));
    forall y, x | 0 <= y < t.height && 0 <= x < t.width
      ensures t.rows[y][x] == g.rows[rs.0 + y][cs.0 + x]
    {
      assert t.rows[y][x] == Pixel(g, rs.0 + y, cs.0 + x);
    }
  }

  /** A tile is never larger than `size` in either direction, and is empty when it starts past
      the end of the image. */
  lemma TileBounds(g: Raster, i: nat, j: nat, size: nat)
    ensures Tile(g, i, j, size).height == if i >= g.height then 0 else Min(size, g.height - i)
    ensures Tile(g, i, j, size).width == if j >= g.width then 0 else Min(size, g.width - j)
  {
  }

  /** numpy masked assignment `g[p(g)] = v`. */
  function Assign(g: Raster, p: int -> bool, v: int): (r: Raster)
    ensures r.width == g.width && r.height == g.height
    ensures forall y, x | 0 <= y < g.height && 0 <= x < g.width ::
      r.rows[y][x] == if p(g.rows[y][x]) then v else g.rows[y][x]
  {
    var r := Build(g.width, g.height, (y, x) => if p(Pixel(g, y, x)) then v else Pixel(g, y, x));
    assert forall y, x | 0 <= y < g.height && 0 <= x < g.width ::
      r.rows[y][x] == if p(Pixel(g, y, x)) then v else Pixel(g, y, x);
    r
  }

  /** The label binarisation of ReadImage: first every sample below 128 becomes 0, then every
      sample at or above 128 becomes 255. */
  function Binarize(g: Raster): (r: Raster)
    ensures r.width == g.width && r.height == g.height
    ensures forall y, x | 0 <= y < g.height && 0 <= x < g.width ::
      r.rows[y][x] == if g.rows[y][x] < 128 then 0 else 255
  {
    Assign(Assign(g, p => p < 128, 0), p => p >= 128, 255)
  }

  /** numpy `astype(np.uint8)`: every sample wraps around modulo 256. */
  function ToUint8(g: Raster): (r: Raster)
    ensures r.width == g.width && r.height == g.height
    ensures forall y, x | 0 <= y < g.height && 0 <= x < g.width :: 0 <= r.rows[y][x] < 256
    ensures forall y, x | 0 <= y < g.height && 0 <= x < g.width && 0 <= g.rows[y][x] < 256 ::
      r.rows[y][x] == g.rows[y][x]
  {
    Build(g.width, g.height, (y, x) => Pixel(g, y, x) % 256)
  }

  /** `np.zeros((height, width))`. */
  function Zeros(width: nat, height: nat): (r: Raster)
    ensures r.width == width && r.height == height
    ensures forall y, x | 0 <= y < height && 0 <= x < width :: r.rows[y][x] == 0
  {
    Build(width, height, (y, x) => 0)
  }

  /** numpy `g.any()`: some pixel is non-zero. */
  predicate AnyNonZero(g: Raster) {
    exists y, x | 0 <= y < g.height && 0 <= x < g.width :: g.rows[y][x] != 0
  }
}
