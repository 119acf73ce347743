/** The cropping and padding stages: CenterCrop, RandomCrop and PadImage. Each cuts or borders
    every present layer with one common box computed from the image, and records the
    configured size under `img_shape`. */
module Crops {
  import opened Wrappers
  import opened Raster
  import opened Record
  import opened CropGeometry
  import opened Transforms

  /** All present layers have the size of the image, as the stages expect of their input. */
  predicate LayersMatchImage(s: Sample)
    requires s.img.Some?
  {
    forall l | Get(s, l).Some? ::
      Get(s, l).value.width == s.img.value.width && Get(s, l).value.height == s.img.value.height
  }

  function CropOp(b: Box): LayerOp {
    CropTo(b.left, b.upper, b.right, b.lower)
  }

  /** The final step of both crops: every present layer cut to box b, no layer added, and
      `img_shape` set to the configured size; every other key as it was. */
  function CroppedTo(s: Sample, b: Box, th: nat, tw: nat): (r: Sample)
    requires b.left <= b.right && b.upper <= b.lower
    ensures SameLayers(r, s)
    ensures forall l | Get(s, l).Some? :: Get(r, l).value == Crop(Get(s, l).value, b.left, b.upper, b.right, b.lower)
    ensures forall l | Get(s, l).Some? :: Get(r, l).value.width == b.right - b.left && Get(r, l).value.height == b.lower - b.upper
    ensures r.fields.Keys == s.fields.Keys + {ImgShape} && r.fields[ImgShape] == Pair(th, tw)
    ensures forall k | k in s.fields && k != ImgShape :: r.fields[k] == s.fields[k]
  {
    MapAll(s, CropOp(b)).(fields := s.fields[ImgShape := Pair(th, tw)])
  }

  /** The crop both stages end with: the image, then the loop over the labels, each cut to b. */
  method CropLayers(results: Results, b: Box)
    requires results.sample.img.Some? && b.left <= b.right && b.upper <= b.lower
    modifies results
    ensures results.sample == MapAll(old(results.sample), CropOp(b))
  {
    LoopIsMapAll(results.sample, CropOp(b));
    UpdateImageAndLabels(results, CropOp(b));
  }

  // ---------------------------------------------------------------------------------------
  // CenterCrop

  /** The box CenterCrop cuts from an image of size (w, h) for the size (th, tw). */
  function CentreBox(w: int, h: int, th: nat, tw: nat): (b: Box)
    ensures b.right - b.left == tw && b.lower - b.upper == th
  {
    var x1 := HalfRounded(w - tw);
    var y1 := HalfRounded(h - th);
    Box(x1, y1, x1 + tw, y1 + th)
  }

  /** The record after CenterCrop(th, tw): every present layer cut to the same centred box, so
      every layer has the configured size, and `img_shape` set to that size. */
  function CenterCropped(s: Sample, th: nat, tw: nat): (r: Sample)
    requires s.img.Some?
    ensures r.img.Some? && SameLayers(r, s)
    ensures forall l | Get(s, l).Some? :: Get(r, l).Some? && Get(r, l).value.width == tw && Get(r, l).value.height == th
    ensures r.fields.Keys == s.fields.Keys + {ImgShape} && r.fields[ImgShape] == Pair(th, tw)
    ensures forall k | k in s.fields && k != ImgShape :: r.fields[k] == s.fields[k]
  {
    CroppedTo(s, CentreBox(s.img.value.width, s.img.value.height, th, tw), th, tw)
  }

  /** When the crop fits in the image, CenterCrop keeps its middle: the margins left and right
      (and above and below) differ by at most one pixel, and each output pixel is the image
      pixel shifted by the box origin. */
  lemma CentreBoxTakesMiddle(g: Raster, th: nat, tw: nat)
    requires tw <= g.width && th <= g.height
    ensures var b := CentreBox(g.width, g.height, th, tw);
      var out := Crop(g, b.left, b.upper, b.right, b.lower);
      && 0 <= b.left && -1 <= b.left - (g.width - b.right) <= 1
      && 0 <= b.upper && -1 <= b.upper - (g.height - b.lower) <= 1
      && forall y, x | 0 <= y < th && 0 <= x < tw :: out.rows[y][x] == g.rows[b.upper + y][b.left + x]
  {
    var b := CentreBox(g.width, g.height, th, tw);
    CentredWindow(g.width, tw);
    CentredWindow(g.height, th);
    CropInside(g, b.left, b.upper, b.right, b.lower);
  }

  /** Every layer of a record whose layers match the image is cut to the middle of itself. */
  lemma CenterCropTakesMiddle(s: Sample, th: nat, tw: nat, l: Layer)
    requires s.img.Some? && LayersMatchImage(s) && Get(s, l).Some?
    requires tw <= s.img.value.width && th <= s.img.value.height
    ensures var g := Get(s, l).value; var out := Get(CenterCropped(s, th, tw), l).value;
      var b := CentreBox(g.width, g.height, th, tw);
      && 0 <= b.left && -1 <= b.left - (g.width - b.right) <= 1
      && 0 <= b.upper && -1 <= b.upper - (g.height - b.lower) <= 1
      && forall y, x | 0 <= y < th && 0 <= x < tw :: out.rows[y][x] == g.rows[b.upper + y][b.left + x]
  {
    var g := Get(s, l).value;
    var b := CentreBox(g.width, g.height, th, tw);
    assert Get(CenterCropped(s, th, tw), l).value == Crop(g, b.left, b.upper, b.right, b.lower);
    CentreBoxTakesMiddle(g, th, tw);
  }

  class CenterCrop {
    const th: nat
    const tw: nat

    constructor(th: nat, tw: nat)
      ensures this.th == th && this.tw == tw
    {
      this.th := th;
      this.tw := tw;
    }

    method Apply(results: Results)
      requires results.sample.img.Some?
      modifies results
      ensures results.sample == CenterCropped(old(results.sample), th, tw)
    {
      var g := results.sample.img.value;
      var w, h := g.width, g.height;
      var b := CentreBox(w, h, th, tw);
      CropLayers(results, b);
      results.sample := results.sample.(fields := results.sample.fields[ImgShape := Pair(th, tw)]);
    }
  }

  // ---------------------------------------------------------------------------------------
  // RandomCrop

  /** The random draws RandomCrop makes are in the ranges `random.randint` returns. */
  predicate CropDrawsInRange(s: Sample, th: nat, tw: nat, nopad: bool, centroid: Option<Point>, dx: int, dy: int)
    requires s.img.Some?
  {
    var g := s.img.value;
    g.width != tw || g.height != th ==> DrawsInRange(g.width, g.height, th, tw, nopad, centroid, dx, dy)
  }

  function BorderOp(a: Adjusted, ignoreIndex: int): LayerOp {
    Border(a.padW, a.padH, a.padW, a.padH, ignoreIndex)
  }

  /** RandomCrop's padding step: when either border is non-zero, each present layer gets the
      border (padW, padH) on every side, filled with the ignore index in the segmentation
      labels and 0 elsewhere. */
  function PaddedForCrop(s: Sample, a: Adjusted, ignoreIndex: int): (r: Sample)
    requires s.img.Some?
    ensures r.img.Some? && r.fields == s.fields
    ensures r.img.value.width == s.img.value.width + 2 * a.padW
    ensures r.img.value.height == s.img.value.height + 2 * a.padH
    ensures SameLayers(r, s)
    ensures a.padH > 0 || a.padW > 0 ==> forall l | Get(s, l).Some? ::
      Get(r, l).value == Expand(Get(s, l).value, a.padW, a.padH, a.padW, a.padH, FillFor(l, ignoreIndex))
    ensures a.padH == 0 && a.padW == 0 ==> r == s
  {
    if a.padH > 0 || a.padW > 0 then MapAll(s, BorderOp(a, ignoreIndex)) else s
  }

  /** RandomCrop's size adjustment and window, for the record's image. */
  function CropAdjustment(s: Sample, th: nat, tw: nat, nopad: bool): Adjusted
    requires s.img.Some?
  {
    Adjust(s.img.value.width, s.img.value.height, th, tw, nopad)
  }

  function CropWindow(s: Sample, th: nat, tw: nat, nopad: bool, centroid: Option<Point>, dx: int, dy: int): Box
    requires s.img.Some? && CropDrawsInRange(s, th, tw, nopad, centroid, dx, dy)
    requires s.img.value.width != tw || s.img.value.height != th
  {
    Window(s.img.value.width, s.img.value.height, th, tw, nopad, centroid, dx, dy)
  }

  /** The record after RandomCrop(size = (th, tw)): unchanged when the image already has that
      size, not even `img_shape`; otherwise every present layer bordered (when the crop needs
      it) and cut to one common window, and `img_shape` set to the configured size, even when
      `nopad` shrank the crop. */
  function RandomCropped(s: Sample, th: nat, tw: nat, ignoreIndex: int, nopad: bool,
                         centroid: Option<Point>, dx: int, dy: int): (r: Sample)
    requires s.img.Some? && CropDrawsInRange(s, th, tw, nopad, centroid, dx, dy)
    ensures r.img.Some?
    ensures SameLayers(r, s)
    ensures var g := s.img.value; g.width == tw && g.height == th ==> r == s
    ensures var g := s.img.value; g.width != tw || g.height != th ==>
      r.fields.Keys == s.fields.Keys + {ImgShape} && r.fields[ImgShape] == Pair(th, tw)
    ensures forall k | k in s.fields && k != ImgShape :: r.fields[k] == s.fields[k]
  {
    var g := s.img.value;
    if g.width == tw && g.height == th then s
    else CroppedTo(PaddedForCrop(s, CropAdjustment(s, th, tw, nopad), ignoreIndex),
                   CropWindow(s, th, tw, nopad, centroid, dx, dy), th, tw)
  }

  /** A window that lies inside an image bordered by (padW, padH) on every side reads, at each
      of its pixels, the original pixel shifted back by the border, or the fill colour. */
  lemma BorderedCrop(g: Raster, padW: nat, padH: nat, fill: int, bordered: bool, b: Box)
    requires !bordered ==> padW == 0 && padH == 0
    requires 0 <= b.left <= b.right <= g.width + 2 * padW && 0 <= b.upper <= b.lower <= g.height + 2 * padH
    ensures var p := if bordered then Expand(g, padW, padH, padW, padH, fill) else g;
      var out := Crop(p, b.left, b.upper, b.right, b.lower);
      forall y, x | 0 <= y < out.height && 0 <= x < out.width ::
        var sy := b.upper - padH + y;
        var sx := b.left - padW + x;
        out.rows[y][x] == if 0 <= sy < g.height && 0 <= sx < g.width then g.rows[sy][sx] else fill
  {
    var p := if bordered then Expand(g, padW, padH, padW, padH, fill) else g;
    var out := Crop(p, b.left, b.upper, b.right, b.lower);
    forall y, x | 0 <= y < out.height && 0 <= x < out.width
      ensures out.rows[y][x] == if 0 <= b.upper - padH + y < g.height && 0 <= b.left - padW + x < g.width
                                then g.rows[b.upper - padH + y][b.left - padW + x] else fill
    {
      assert out.rows[y][x] == p.rows[b.upper + y][b.left + x];
    }
  }

  /** Every present layer is cut by RandomCrop with the one window computed from the image,
      after the one border: the identical box for the image and all its labels. */
  lemma RandomCropSameWindow(s: Sample, th: nat, tw: nat, ignoreIndex: int, nopad: bool,
                             centroid: Option<Point>, dx: int, dy: int, l: Layer)
    requires s.img.Some? && CropDrawsInRange(s, th, tw, nopad, centroid, dx, dy)
    requires s.img.value.width != tw || s.img.value.height != th
    requires Get(s, l).Some?
    ensures var a := CropAdjustment(s, th, tw, nopad);
      var b := CropWindow(s, th, tw, nopad, centroid, dx, dy);
      var g := Get(s, l).value;
      var p := if a.padH > 0 || a.padW > 0 then Expand(g, a.padW, a.padH, a.padW, a.padH, FillFor(l, ignoreIndex)) else g;
      Get(RandomCropped(s, th, tw, ignoreIndex, nopad, centroid, dx, dy), l) == Some(Crop(p, b.left, b.upper, b.right, b.lower))
  {
  }

  /** The size of RandomCrop's output: the configured size, or, with `nopad` and a crop larger
      than the image, the square of the image's shorter side, which fits in both dimensions. */
  lemma RandomCropSize(s: Sample, th: nat, tw: nat, ignoreIndex: int, nopad: bool,
                       centroid: Option<Point>, dx: int, dy: int)
    requires s.img.Some? && CropDrawsInRange(s, th, tw, nopad, centroid, dx, dy)
    requires s.img.value.width != tw || s.img.value.height != th
    ensures var g := s.img.value;
      var out := RandomCropped(s, th, tw, ignoreIndex, nopad, centroid, dx, dy).img.value;
      var shrunk := nopad && (th > g.height || tw > g.width);
      && out.width == (if shrunk then Min(g.width, g.height) else tw)
      && out.height == (if shrunk then Min(g.width, g.height) else th)
      && (shrunk ==> out.width <= g.width && out.height <= g.height)
  {
    var b := CropWindow(s, th, tw, nopad, centroid, dx, dy);
    var p := PaddedForCrop(s, CropAdjustment(s, th, tw, nopad), ignoreIndex);
    assert RandomCropped(s, th, tw, ignoreIndex, nopad, centroid, dx, dy).img.value == Crop(p.img.value, b.left, b.upper, b.right, b.lower);
  }

  class RandomCrop {
    const th: nat
    const tw: nat
    const ignoreIndex: int
    const nopad: bool

    constructor(th: nat, tw: nat, ignoreIndex: int, nopad: bool)
      ensures this.th == th && this.tw == tw && this.ignoreIndex == ignoreIndex && this.nopad == nopad
    {
      this.th := th;
      this.tw := tw;
      this.ignoreIndex := ignoreIndex;
      this.nopad := nopad;
    }

    /** `dx` and `dy` are the values `random.randint` returned for the two axes; they are not
        read when no draw is made. The size adjustment, the border width and the origin of each
        axis are the pure steps Adjust, PadPerSide and Origin, which Window combines. */
    method Apply(results: Results, centroid: Option<Point>, dx: int, dy: int)
      requires results.sample.img.Some?
      requires CropDrawsInRange(results.sample, th, tw, nopad, centroid, dx, dy)
      modifies results
      ensures results.sample == RandomCropped(old(results.sample), th, tw, ignoreIndex, nopad, centroid, dx, dy)
    {
      var g := results.sample.img.value;
      var w, h := g.width, g.height;
      if w != tw || h != th {
        var a := Adjust(w, h, th, tw, nopad);
        PadForCrop(results, a);
        var b := Window(w, h, th, tw, nopad, centroid, dx, dy);
        CropLayers(results, b);
        results.sample := results.sample.(fields := results.sample.fields[ImgShape := Pair(th, tw)]);
      }
    }

    /** The padding loop, run only when either border is non-zero. */
    method PadForCrop(results: Results, a: Adjusted)
      requires results.sample.img.Some?
      modifies results
      ensures results.sample == PaddedForCrop(old(results.sample), a, ignoreIndex)
    {
      if a.padH > 0 || a.padW > 0 {
        LoopIsMapAll(results.sample, BorderOp(a, ignoreIndex));
        UpdateLayers(results, Layers, BorderOp(a, ignoreIndex));
      }
    }
  }

  // ---------------------------------------------------------------------------------------
  // PadImage

  /** PIL's `resize((width, height), resample)`, which this model takes as given. */
  type Resizing = (Raster, int, int, Resample) -> Raster

  /** PIL's resize returns an image of the requested size. */
  ghost predicate ResizesExactly(resize: Resizing) {
    forall g: Raster, w: nat, h: nat, m: Resample {:trigger resize(g, w, h, m)} ::
      resize(g, w, h, m).width == w && resize(g, w, h, m).height == h
  }

  /** PadImage scales only an image larger than the square, to the square's width, keeping the
      aspect ratio; `int(h * tw / w)` is the height, with exact arithmetic. */
  function ScaledHeight(w: nat, h: nat, size: nat): nat
    requires w > 0
  {
    h * size / w
  }

  /** The record after PadImage's optional resize: present layers scaled to (size, target_h). */
  function ScaledForPad(s: Sample, size: nat, resize: Resizing): (r: Sample)
    requires s.img.Some? && (s.img.value.width > 0 || s.img.value.height <= size)
    ensures r.fields == s.fields && SameLayers(r, s)
  {
    var g := s.img.value;
    if g.width > size || g.height > size then MapAll(s, Scale(resize, size, ScaledHeight(g.width, g.height, size)))
    else s
  }

  /** The border PadImage adds to reach the square: right and bottom only, possibly negative. */
  function PadOp(s: Sample, size: nat, ignoreIndex: int): LayerOp
    requires s.img.Some?
  {
    Border(0, 0, size - s.img.value.width, size - s.img.value.height, ignoreIndex)
  }

  /** PadImage needs the image and the segmentation labels, and scales only non-empty images;
      the border must leave every layer a canvas PIL can allocate. */
  predicate PadApplies(s: Sample, size: nat, ignoreIndex: int, resize: Resizing) {
    && s.img.Some? && s.gtSemanticSeg.Some?
    && (s.img.value.width > 0 || s.img.value.height <= size)
    && var scaled := ScaledForPad(s, size, resize);
       AcceptsEvery(scaled, PadOp(scaled, size, ignoreIndex))
  }

  /** The record after PadImage(size): the optional resize, then every present layer given the
      right and bottom border that brings the image to size x size, filled with the ignore
      index in the segmentation labels and 0 elsewhere; `img_shape` set to (size, size). */
  function PaddedImage(s: Sample, size: nat, ignoreIndex: int, resize: Resizing): (r: Sample)
    requires PadApplies(s, size, ignoreIndex, resize)
    ensures SameLayers(r, s)
    ensures r.fields.Keys == s.fields.Keys + {ImgShape} && r.fields[ImgShape] == Pair(size, size)
    ensures forall k | k in s.fields && k != ImgShape :: r.fields[k] == s.fields[k]
  {
    var scaled := ScaledForPad(s, size, resize);
    MapAll(scaled, PadOp(scaled, size, ignoreIndex)).(fields := s.fields[ImgShape := Pair(size, size)])
  }

  /** With an exact resize, the layers still match the image after PadImage's resize. */
  lemma ScaledLayersMatch(s: Sample, size: nat, resize: Resizing)
    requires s.img.Some? && LayersMatchImage(s) && ResizesExactly(resize)
    requires s.img.value.width > 0 || s.img.value.height <= size
    ensures var t := ScaledForPad(s, size, resize); t.img.Some? && LayersMatchImage(t)
  {
    var g := s.img.value;
    if g.width > size || g.height > size {
      var th := ScaledHeight(g.width, g.height, size);
      var t := ScaledForPad(s, size, resize);
      forall l | Get(t, l).Some?
        ensures Get(t, l).value.width == size && Get(t, l).value.height == th
      {
        assert Get(t, l).value == resize(Get(s, l).value, size, th, ResampleFor(l));
      }
    }
  }

  /** With an exact resize and layers that match the image, every layer PadImage returns is
      size x size, whatever the input's size. */
  lemma PadImageSquare(s: Sample, size: nat, ignoreIndex: int, resize: Resizing, l: Layer)
    requires s.img.Some? && LayersMatchImage(s) && ResizesExactly(resize)
    requires PadApplies(s, size, ignoreIndex, resize)
    requires Get(s, l).Some?
    ensures Get(PaddedImage(s, size, ignoreIndex, resize), l).value.width == size
    ensures Get(PaddedImage(s, size, ignoreIndex, resize), l).value.height == size
  {
    var t := ScaledForPad(s, size, resize);
    ScaledLayersMatch(s, size, resize);
    var op := PadOp(t, size, ignoreIndex);
    assert Get(PaddedImage(s, size, ignoreIndex, resize), l) == Lift(op, l, Get(t, l));
  }

  /** An image that fits in the square is not scaled: it sits at the top left of the output,
      and the rest is the fill colour. */
  lemma PadImageKeepsSmall(s: Sample, size: nat, ignoreIndex: int, resize: Resizing, l: Layer)
    requires PadApplies(s, size, ignoreIndex, resize)
    requires s.img.value.width <= size && s.img.value.height <= size
    requires Get(s, l).Some?
    ensures var g := Get(s, l).value; var out := Get(PaddedImage(s, size, ignoreIndex, resize), l).value;
      forall y, x | 0 <= y < out.height && 0 <= x < out.width ::
        out.rows[y][x] == if y < g.height && x < g.width then g.rows[y][x] else FillFor(l, ignoreIndex)
  {
    assert ScaledForPad(s, size, resize) == s;
    var op := PadOp(s, size, ignoreIndex);
    assert Get(PaddedImage(s, size, ignoreIndex, resize), l) == Lift(op, l, Get(s, l));
  }

  /** The resize keeps the width-to-height ratio by the width alone, so an image taller than
      wide comes out of it taller than the square, and the negative bottom border then cuts its
      lower rows away: the output holds only the first `size` rows of the scaled image. */
  lemma PadImageCutsTallImages(s: Sample, size: nat, ignoreIndex: int, resize: Resizing)
    requires s.img.Some? && ResizesExactly(resize)
    requires PadApplies(s, size, ignoreIndex, resize)
    requires 0 < s.img.value.width < s.img.value.height && size < s.img.value.height
    ensures var g := s.img.value; var th := ScaledHeight(g.width, g.height, size);
      var scaled := resize(g, size, th, Bicubic);
      var out := PaddedImage(s, size, ignoreIndex, resize).img.value;
      && th >= size
      && out.height == size
      && forall y, x | 0 <= y < out.height && 0 <= x < out.width :: out.rows[y][x] == scaled.rows[y][x]
  {
    var g := s.img.value;
    var th := ScaledHeight(g.width, g.height, size);
    TallScalesTall(g.width, g.height, size);
    var scaled := resize(g, size, th, Bicubic);
    assert ScaledForPad(s, size, resize).img.value == scaled;
    var out := PaddedImage(s, size, ignoreIndex, resize).img.value;
    assert out == Expand(scaled, 0, 0, size - size, size - th, 0);
  }

  lemma TallScalesTall(w: nat, h: nat, size: nat)
    requires 0 < w < h
    ensures ScaledHeight(w, h, size) >= size
  {
    var q := h * size / w;
    assert w * q + h * size % w == h * size;
    assert h * size - w * size == (h - w) * size;
    assert w * (q - size + 1) == w * q - w * size + w;
    PositiveFactor(w, q - size + 1);
  }

  lemma PositiveFactor(a: int, b: int)
    requires a > 0 && a * b > 0
    ensures b > 0
  {
  }

  class PadImage {
    const size: nat
    const ignoreIndex: int

    constructor(size: nat, ignoreIndex: int)
      ensures this.size == size && this.ignoreIndex == ignoreIndex
    {
      this.size := size;
      this.ignoreIndex := ignoreIndex;
    }

    method Apply(results: Results, resize: Resizing)
      requires PadApplies(results.sample, size, ignoreIndex, resize)
      modifies results
      ensures results.sample == PaddedImage(old(results.sample), size, ignoreIndex, resize)
    {
      ScaleDown(results, resize);
      PadRightBottom(results);
      results.sample := results.sample.(fields := results.sample.fields[ImgShape := Pair(size, size)]);
    }

    /** The first half of Apply: an image larger than the square, with its labels, is resized
        to the square's width. */
    method ScaleDown(results: Results, resize: Resizing)
      requires results.sample.img.Some?
      requires results.sample.img.value.width > 0 || results.sample.img.value.height <= size
      modifies results
      ensures results.sample == ScaledForPad(old(results.sample), size, resize)
    {
      ghost var s0 := results.sample;
      var g := results.sample.img.value;
      var w, h := g.width, g.height;
      if w > size || h > size {
        var op := Scale(resize, size, h * size / w);
        LoopIsMapAll(results.sample, op);
        UpdateImageAndLabels(results, op);
        assert results.sample == MapAll(s0, op);
      }
    }

    /** The second half of Apply: the image, then the segmentation labels, then the loop over
        the remaining labels, each given the right and bottom border. */
    method PadRightBottom(results: Results)
      requires results.sample.img.Some? && results.sample.gtSemanticSeg.Some?
      requires AcceptsEvery(results.sample, PadOp(results.sample, size, ignoreIndex))
      modifies results
      ensures results.sample == MapAll(old(results.sample), PadOp(old(results.sample), size, ignoreIndex))
    {
      var scaled := results.sample;
      var pad := PadOp(scaled, size, ignoreIndex);
      results.sample := Put(results.sample, Img, ApplyOp(pad, Img, scaled.img.value));
      results.sample := Put(results.sample, GtSemanticSeg, ApplyOp(pad, GtSemanticSeg, scaled.gtSemanticSeg.value));
      PadRemainder(scaled, pad);
      UpdateLayers(results, PadLoopLayers, pad);
    }
  }

  /** The labels PadImage borders in its loop, after the image and the segmentation labels. */
  const PadLoopLayers: seq<Layer> := [GtEdge, ValidPixels]

  /** PadImage's loop over the two remaining labels, after the image and the segmentation
      labels, finishes the border of every layer. */
  lemma PadRemainder(s: Sample, op: LayerOp)
    requires s.img.Some? && s.gtSemanticSeg.Some? && AcceptsEvery(s, op)
    ensures var t := Put(Put(s, Img, ApplyOp(op, Img, s.img.value)), GtSemanticSeg, ApplyOp(op, GtSemanticSeg, s.gtSemanticSeg.value));
      && Distinct(PadLoopLayers) && AcceptsAll(t, PadLoopLayers, op)
      && MapLayers(t, PadLoopLayers, op) == MapAll(s, op)
  {
    var t := Put(Put(s, Img, ApplyOp(op, Img, s.img.value)), GtSemanticSeg, ApplyOp(op, GtSemanticSeg, s.gtSemanticSeg.value));
    var keys := PadLoopLayers;
    assert keys[0] == GtEdge && keys[1] == ValidPixels;
    assert Img !in keys && GtSemanticSeg !in keys && GtEdge in keys && ValidPixels in keys;
    var r := MapLayers(t, keys, op);
    SameSample(r, MapAll(s, op));
  }
}
