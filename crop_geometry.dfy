/** The integer arithmetic of RandomCrop and CenterCrop: how the crop size is adjusted to the
    image, how wide a border is added, and where the crop window starts. Sizes follow the
    transforms' own conventions: an image size is (w, h), a configured size is (th, tw). */
module CropGeometry {
  import opened Wrappers
  import opened Raster

  datatype Point = Point(x: int, y: int)

  /** A crop box in PIL's order (left, upper, right, lower). */
  datatype Box = Box(left: int, upper: int, right: int, lower: int)

  /** The border RandomCrop adds on EACH side of an image side `s` that is shorter than the crop
      side `t`: (t - s) // 2 + 1, and nothing when the side is long enough. */
  function PadPerSide(t: int, s: int): (pad: nat)
    ensures pad > 0 <==> t > s
    ensures t <= s + 2 * pad
    ensures t > s ==> s + 2 * pad <= t + 2
  {
    if t > s then (t - s) / 2 + 1 else 0
  }

  /** Crop size and border after RandomCrop's adjustment step. */
  datatype Adjusted = Adjusted(th: nat, tw: nat, padH: nat, padW: nat)

  /** The adjustment step, taken when the image is not already the crop size. With `nopad`, a
      crop that does not fit shrinks to a square of the image's shorter side; otherwise the crop
      keeps its size and the image gets a border on each side. Either way the crop then fits. */
  function Adjust(w: nat, h: nat, th: nat, tw: nat, nopad: bool): (a: Adjusted)
    ensures a.th <= h + 2 * a.padH && a.tw <= w + 2 * a.padW
    ensures nopad ==> a.padH == 0 && a.padW == 0
    ensures nopad && (th > h || tw > w) ==> a.th == Min(w, h) && a.tw == Min(w, h)
    ensures !nopad || (th <= h && tw <= w) ==> a.th == th && a.tw == tw
    ensures !nopad ==> a.padH == PadPerSide(th, h) && a.padW == PadPerSide(tw, w)
  {
    if nopad then
      if th > h || tw > w then
        var shorter := Min(w, h);
        Adjusted(shorter, shorter, 0, 0)
      else
        Adjusted(th, tw, 0, 0)
    else
      Adjusted(th, tw, PadPerSide(th, h), PadPerSide(tw, w))
  }

  function CentreX(centroid: Option<Point>): Option<int> {
    if centroid.Some? then Some(centroid.value.x) else None
  }

  function CentreY(centroid: Option<Point>): Option<int> {
    if centroid.Some? then Some(centroid.value.y) else None
  }

  /** The value `random.randint` may return for one axis of side `side` and crop side `t`:
      randint(c - t, c) around a centroid coordinate c, and randint(0, side - t) without one
      (no draw is made when side == t). */
  predicate DrawInRange(side: int, t: int, centre: Option<int>, draw: int) {
    match centre
    case Some(c) => c - t <= draw <= c
    case None => side != t ==> 0 <= draw <= side - t
  }

  /** The crop origin along one axis: the draw clamped into [0, side - t] around a centroid, and
      the draw itself (or 0 when the side equals the crop) without one. The window then lies in
      the image, and it contains the centroid when the centroid lies in the image. */
  function Origin(side: int, t: int, centre: Option<int>, draw: int): (x: int)
    requires 0 <= t <= side && DrawInRange(side, t, centre, draw)
    ensures 0 <= x <= side - t
    ensures centre.None? && side == t ==> x == 0
    ensures centre.Some? && 0 <= centre.value <= side ==> x <= centre.value <= x + t
  {
    match centre
    case Some(c) => Min(side - t, Max(0, draw))
    case None => if side == t then 0 else draw
  }

  predicate DrawsInRange(w: nat, h: nat, th: nat, tw: nat, nopad: bool, centroid: Option<Point>, dx: int, dy: int) {
    var a := Adjust(w, h, th, tw, nopad);
    && DrawInRange(w + 2 * a.padW, a.tw, CentreX(centroid), dx)
    && DrawInRange(h + 2 * a.padH, a.th, CentreY(centroid), dy)
  }

  /** The crop window RandomCrop takes from the (possibly bordered) image of size (w, h). It has
      the adjusted crop size and lies inside the bordered image. */
  function Window(w: nat, h: nat, th: nat, tw: nat, nopad: bool, centroid: Option<Point>, dx: int, dy: int): (b: Box)
    requires DrawsInRange(w, h, th, tw, nopad, centroid, dx, dy)
    ensures var a := Adjust(w, h, th, tw, nopad);
      && 0 <= b.left <= b.right <= w + 2 * a.padW && b.right - b.left == a.tw
      && 0 <= b.upper <= b.lower <= h + 2 * a.padH && b.lower - b.upper == a.th
  {
    var a := Adjust(w, h, th, tw, nopad);
    var x1 := Origin(w + 2 * a.padW, a.tw, CentreX(centroid), dx);
    var y1 := Origin(h + 2 * a.padH, a.th, CentreY(centroid), dy);
    Box(x1, y1, x1 + a.tw, y1 + a.th)
  }

  /** When a side needs a border, every window that fits in the bordered side covers the whole
      original side, which sits at [pad, pad + s). */
  lemma BorderedWindowCoversImage(s: nat, t: int, x: int)
    requires t > s && 0 <= x <= s + 2 * PadPerSide(t, s) - t
    ensures x <= PadPerSide(t, s) && PadPerSide(t, s) + s <= x + t
  {
  }

  /** "If a centroid is passed in, the crop must intersect the centroid": a centroid inside the
      original image, at (c.x, c.y), sits at (c.x + padW, c.y + padH) once the border is added,
      and the window contains that point. The source does not shift the centroid by the border;
      this holds anyway, because a bordered side leaves the window at most two positions to move. */
  lemma {:induction false} WindowCoversCentroid(w: nat, h: nat, th: nat, tw: nat, nopad: bool, c: Point, dx: int, dy: int)
    requires 0 <= c.x <= w && 0 <= c.y <= h
    requires DrawsInRange(w, h, th, tw, nopad, Some(c), dx, dy)
    ensures var a := Adjust(w, h, th, tw, nopad);
      var b := Window(w, h, th, tw, nopad, Some(c), dx, dy);
      b.left <= c.x + a.padW <= b.right && b.upper <= c.y + a.padH <= b.lower
  {
    var a := Adjust(w, h, th, tw, nopad);
    var b := Window(w, h, th, tw, nopad, Some(c), dx, dy);
    assert b.left == Origin(w + 2 * a.padW, a.tw, Some(c.x), dx);
    assert b.upper == Origin(h + 2 * a.padH, a.th, Some(c.y), dy);
    if a.padW > 0 {
      BorderedWindowCoversImage(w, tw, b.left);
    }
    if a.padH > 0 {
      BorderedWindowCoversImage(h, th, b.upper);
    }
  }

  /** Python 3's round(d / 2): the nearest integer to d / 2, with halves going to the even
      neighbour. The two ensures determine the result uniquely. */
  function HalfRounded(d: int): (r: int)
    ensures -1 <= 2 * r - d <= 1
    ensures 2 * r != d ==> r % 2 == 0
  {
    if d % 2 == 0 then d / 2
    else
      var k := d / 2;
      if k % 2 == 0 then k else k + 1
  }

  /** CenterCrop's origin along an axis of side `side` for a crop side `t`: the two margins differ
      by at most one, and when the crop fits the window lies inside the image. */
  lemma CentredWindow(side: int, t: int)
    ensures var x := HalfRounded(side - t);
      -1 <= x - (side - (x + t)) <= 1
    ensures 0 <= t <= side ==> 0 <= HalfRounded(side - t) && HalfRounded(side - t) + t <= side
  {
  }
}
