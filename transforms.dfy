/** The flip and rotation stages of the segmentation pipeline, and the layer loop every geometric
    stage shares. Each stage is a class whose `Apply` updates the record it is given in place,
    as the stage's `__call__` does, and is proved against a function of the old record that
    states the whole new record. */
module Transforms {
  import opened Wrappers
  import opened Raster
  import opened Record

  /** The loop every stage runs, `for key in keys: if key in results: results[key] = op(...)`. */
  method UpdateLayers(results: Results, keys: seq<Layer>, op: LayerOp)
    requires Distinct(keys) && AcceptsAll(results.sample, keys, op)
    modifies results
    ensures results.sample == MapLayers(old(results.sample), keys, op)
  {
    for i := 0 to |keys|
      invariant Distinct(keys[i..]) && AcceptsAll(results.sample, keys[i..], op)
      invariant MapLayers(results.sample, keys[i..], op) == MapLayers(old(results.sample), keys, op)
    {
      var s := results.sample;
      var rest := keys[i..];
      assert rest[0] == keys[i] && rest[1..] == keys[i + 1..];
      MapLayersUnfold(s, rest, op);
      results.sample := Step(s, keys[i], op);
    }
  }

  /** The stages that write the image unconditionally and then loop over the label keys:
      `results['img'] = op(results['img'])` followed by the loop over `Labels`. With the image
      present this is the loop over all of `Layers`. */
  method UpdateImageAndLabels(results: Results, op: LayerOp)
    requires results.sample.img.Some? && AcceptsAll(results.sample, Layers, op)
    modifies results
    ensures results.sample == MapLayers(old(results.sample), Layers, op)
  {
    LayersDistinct();
    var s := results.sample;
    MapLayersUnfold(s, Layers, op);
    results.sample := Put(s, Img, ApplyOp(op, Img, s.img.value));
    assert results.sample == Step(s, Img, op);
    UpdateLayers(results, Labels, op);
  }

  // ---------------------------------------------------------------------------------------
  // Flips

  /** The axis a flip mirrors: left-right (the `horizontal_flip` flag) or top-bottom
      (the `vertical_flip` flag). */
  datatype Axis = LeftRight | TopBottom

  function FlagKey(axis: Axis): Key {
    match axis
    case LeftRight => HorizontalFlip
    case TopBottom => VerticalFlip
  }

  function Mirror(axis: Axis): LayerOp {
    match axis
    case LeftRight => MirrorLeftRight
    case TopBottom => MirrorTopBottom
  }

  function MirrorRaster(axis: Axis, g: Raster): Raster {
    match axis
    case LeftRight => FlipLeftRight(g)
    case TopBottom => FlipTopBottom(g)
  }

  /** `results[k] = not results[k] if k in results else True`. */
  function Toggled(fields: map<Key, Value>, k: Key): map<Key, Value> {
    fields[k := Bool(!(k in fields && Truthy(fields[k])))]
  }

  /** The record after HorizontallyFlip (LeftRight) or VerticalFlip (TopBottom): every present
      layer mirrored and no layer added, the flag set to the negation of its truth value when
      present and to True when absent, and every other key as it was. */
  function Flipped(s: Sample, axis: Axis): (r: Sample)
    ensures forall l :: Get(r, l).Some? == Get(s, l).Some?
    ensures forall l | Get(s, l).Some? :: Get(r, l).value == MirrorRaster(axis, Get(s, l).value)
    ensures r.fields.Keys == s.fields.Keys + {FlagKey(axis)}
    ensures r.fields[FlagKey(axis)] == Bool(!(FlagKey(axis) in s.fields && Truthy(s.fields[FlagKey(axis)])))
    ensures forall k | k in s.fields && k != FlagKey(axis) :: r.fields[k] == s.fields[k]
  {
    MapAll(s, Mirror(axis)).(fields := Toggled(s.fields, FlagKey(axis)))
  }

  /** The record after a random flip that does not fire: images untouched, and the flag
      defaulted to False when absent. */
  function NotFlipped(s: Sample, axis: Axis): (r: Sample)
    ensures forall l :: Get(r, l) == Get(s, l)
    ensures FlagKey(axis) in s.fields ==> r == s
    ensures FlagKey(axis) !in s.fields ==> r.fields == s.fields[FlagKey(axis) := Bool(false)]
  {
    var k := FlagKey(axis);
    s.(fields := s.fields[k := if k in s.fields then s.fields[k] else Bool(false)])
  }

  /** RandomHorizontallyFlip / RandomVerticalFlip: flips when the draw `coin` of `random.random()`
      falls below p. */
  function RandomlyFlipped(s: Sample, axis: Axis, p: real, coin: real): (r: Sample)
    ensures coin < p ==> r == Flipped(s, axis)
    ensures coin >= p ==> r == NotFlipped(s, axis)
  {
    if coin < p then Flipped(s, axis) else NotFlipped(s, axis)
  }

  /** Flipping twice gives back the record, except that an absent flag ends up False. The flag
      the pipeline stores is a boolean; any other value would come back as its truth value. */
  lemma FlipTwice(s: Sample, axis: Axis)
    requires FlagKey(axis) in s.fields ==> s.fields[FlagKey(axis)].Bool?
    ensures Flipped(Flipped(s, axis), axis) == NotFlipped(s, axis)
  {
    var f := Flipped(s, axis);
    var r := Flipped(f, axis);
    var n := NotFlipped(s, axis);
    forall l
      ensures Get(r, l) == Get(n, l)
    {
      if Get(s, l).Some? {
        var g := Get(s, l).value;
        match axis
        case LeftRight => FlipLeftRightInvolutive(g);
        case TopBottom => FlipTopBottomInvolutive(g);
      }
    }
    assert r.fields == n.fields;
    SameSample(r, n);
  }

  /** A flip transform is its own inverse on a record that carries the flag. */
  lemma FlipInvolutive(s: Sample, axis: Axis)
    requires FlagKey(axis) in s.fields && s.fields[FlagKey(axis)].Bool?
    ensures Flipped(Flipped(s, axis), axis) == s
  {
    FlipTwice(s, axis);
  }

  /** The flips of the two axes commute, flags included. */
  lemma FlipsCommute(s: Sample)
    ensures Flipped(Flipped(s, LeftRight), TopBottom) == Flipped(Flipped(s, TopBottom), LeftRight)
  {
    var a := Flipped(Flipped(s, LeftRight), TopBottom);
    var b := Flipped(Flipped(s, TopBottom), LeftRight);
    forall l
      ensures Get(a, l) == Get(b, l)
    {
      if Get(s, l).Some? {
        FlipsCommuteOnRaster(Get(s, l).value);
      }
    }
    assert a.fields == b.fields;
    SameSample(a, b);
  }

  lemma FlipsCommuteOnRaster(g: Raster)
    ensures FlipTopBottom(FlipLeftRight(g)) == FlipLeftRight(FlipTopBottom(g))
  {
    var a := FlipTopBottom(FlipLeftRight(g));
    var b := FlipLeftRight(FlipTopBottom(g));
    forall y, x | 0 <= y < g.height && 0 <= x < g.width
      ensures a.rows[y][x] == b.rows[y][x]
    {
      assert a.rows[y][x] == g.rows[g.height - 1 - y][g.width - 1 - x];
    }
    SameRaster(a, b);
  }

  class HorizontallyFlip {
    constructor() {}

    method Apply(results: Results)
      modifies results
      ensures results.sample == Flipped(old(results.sample), LeftRight)
    {
      LoopIsMapAll(results.sample, MirrorLeftRight);
      UpdateLayers(results, Layers, MirrorLeftRight);
      results.sample := results.sample.(fields := Toggled(results.sample.fields, HorizontalFlip));
    }
  }

  class RandomHorizontallyFlip {
    const p: real

    constructor(p: real)
      ensures this.p == p
    {
      this.p := p;
    }

    /** `coin` is the value `random.random()` returned. */
    method Apply(results: Results, coin: real)
      requires 0.0 <= coin < 1.0
      modifies results
      ensures results.sample == RandomlyFlipped(old(results.sample), LeftRight, p, coin)
    {
      if coin < p {
        var flip := new HorizontallyFlip();
        flip.Apply(results);
      } else {
        var f := results.sample.fields;
        results.sample := results.sample.(fields := f[HorizontalFlip := if HorizontalFlip in f then f[HorizontalFlip] else Bool(false)]);
      }
    }
  }

  class VerticalFlip {
    constructor() {}

    method Apply(results: Results)
      modifies results
      ensures results.sample == Flipped(old(results.sample), TopBottom)
    {
      LoopIsMapAll(results.sample, MirrorTopBottom);
      UpdateLayers(results, Layers, MirrorTopBottom);
      results.sample := results.sample.(fields := Toggled(results.sample.fields, VerticalFlip));
    }
  }

  class RandomVerticalFlip {
    const p: real

    constructor(p: real)
      ensures this.p == p
    {
      this.p := p;
    }

    method Apply(results: Results, coin: real)
      requires 0.0 <= coin < 1.0
      modifies results
      ensures results.sample == RandomlyFlipped(old(results.sample), TopBottom, p, coin)
    {
      if coin < p {
        var flip := new VerticalFlip();
        flip.Apply(results);
      } else {
        var f := results.sample.fields;
        results.sample := results.sample.(fields := f[VerticalFlip := if VerticalFlip in f then f[VerticalFlip] else Bool(false)]);
      }
    }
  }

  // ---------------------------------------------------------------------------------------
  // Rotation

  /** PIL's `Image.rotate(degree, resample)`, which this model takes as given. */
  type Rotation = (Raster, int, Resample) -> Raster

  predicate RightAngle(degree: int) {
    degree == 90 || degree == 180 || degree == 270
  }

  /** The `rotate` counter, when present, is a number the addition accepts: an integer or a
      bool, which Python adds as 0 or 1. */
  predicate CounterIsNumber(s: Sample) {
    Rotate in s.fields ==> s.fields[Rotate].Int? || s.fields[Rotate].Bool?
  }

  /** The value of the `rotate` counter as Python adds it, 0 when the record has none. */
  function Counter(s: Sample): int
    requires CounterIsNumber(s)
  {
    if Rotate !in s.fields then 0
    else match s.fields[Rotate]
      case Int(i) => i
      case Bool(b) => if b then 1 else 0
  }

  /** The record after Rotate(degree): the image, which must be present, and every present
      label turned by `degree`, bicubic for the image and nearest for the labels; `degree`
      added to the counter, with no reduction modulo 360; every other key as it was. */
  function Rotated(s: Sample, rotate: Rotation, degree: int): (r: Sample)
    requires s.img.Some? && CounterIsNumber(s)
    ensures r.img.Some? && CounterIsNumber(r)
    ensures forall l :: Get(r, l).Some? == Get(s, l).Some?
    ensures forall l | Get(s, l).Some? :: Get(r, l).value == rotate(Get(s, l).value, degree, ResampleFor(l))
    ensures Rotate in r.fields && r.fields[Rotate] == Int(Counter(s) + degree) && Counter(r) == Counter(s) + degree
    ensures r.fields.Keys == s.fields.Keys + {Rotate}
    ensures forall k | k in s.fields && k != Rotate :: r.fields[k] == s.fields[k]
  {
    MapAll(s, Turn(rotate, degree)).(fields := s.fields[Rotate := Int(degree + Counter(s))])
  }

  /** The record after a RandomRotate that does not fire: the images untouched, whatever the
      record holds, and the counter, whatever its type, kept or set to 0. */
  function NotRotated(s: Sample): (r: Sample)
    ensures forall l :: Get(r, l) == Get(s, l)
    ensures Rotate in r.fields && r.fields[Rotate] == (if Rotate in s.fields then s.fields[Rotate] else Int(0))
    ensures CounterIsNumber(s) ==> CounterIsNumber(r) && Counter(r) == Counter(s)
    ensures r.fields.Keys == s.fields.Keys + {Rotate}
    ensures forall k | k in s.fields :: r.fields[k] == s.fields[k]
  {
    s.(fields := s.fields[Rotate := if Rotate in s.fields then s.fields[Rotate] else Int(0)])
  }

  /** RandomRotate: rotates when the draw `coin` of `random.random()` falls below 0.5; only
      then must the image be present and the counter a number. */
  function RandomlyRotated(s: Sample, rotate: Rotation, degree: int, coin: real): (r: Sample)
    requires coin < 0.5 ==> s.img.Some? && CounterIsNumber(s)
    ensures coin < 0.5 ==> r == Rotated(s, rotate, degree)
    ensures coin >= 0.5 ==> r == NotRotated(s)
  {
    if coin < 0.5 then Rotated(s, rotate, degree) else NotRotated(s)
  }

  /** A chain of Rotate stages, one per entry of `degrees`. */
  function RotatedAll(s: Sample, rotate: Rotation, degrees: seq<int>): (r: Sample)
    requires s.img.Some? && CounterIsNumber(s)
    ensures r.img.Some? && CounterIsNumber(r)
    decreases |degrees|
  {
    if degrees == [] then s else RotatedAll(Rotated(s, rotate, degrees[0]), rotate, degrees[1..])
  }

  function Sum(ds: seq<int>): int {
    if ds == [] then 0 else ds[0] + Sum(ds[1..])
  }

  /** The counter records the sum of all the rotations applied, so four quarter turns leave
      360 and not 0. */
  lemma {:induction false} RotationsAccumulate(s: Sample, rotate: Rotation, degrees: seq<int>)
    requires s.img.Some? && CounterIsNumber(s)
    ensures Counter(RotatedAll(s, rotate, degrees)) == Counter(s) + Sum(degrees)
    decreases |degrees|
  {
    if degrees != [] {
      RotationsAccumulate(Rotated(s, rotate, degrees[0]), rotate, degrees[1..]);
    }
  }

  lemma FourQuarterTurns(s: Sample, rotate: Rotation)
    requires s.img.Some? && CounterIsNumber(s)
    ensures Counter(RotatedAll(s, rotate, [90, 90, 90, 90])) == Counter(s) + 360
  {
    RotationsAccumulate(s, rotate, [90, 90, 90, 90]);
  }

  class RotateStage {
    const degree: int

    constructor(degree: int)
      requires RightAngle(degree)
      ensures this.degree == degree
    {
      this.degree := degree;
    }

    method Apply(results: Results, rotate: Rotation)
      requires results.sample.img.Some? && CounterIsNumber(results.sample)
      modifies results
      ensures results.sample == Rotated(old(results.sample), rotate, degree)
    {
      var f, n := results.sample.fields, Counter(results.sample);
      LoopIsMapAll(results.sample, Turn(rotate, degree));
      UpdateImageAndLabels(results, Turn(rotate, degree));
      results.sample := results.sample.(fields := f[Rotate := Int(degree + n)]);
    }
  }

  class RandomRotate {
    const degree: int

    constructor(degree: int)
      requires RightAngle(degree)
      ensures this.degree == degree
    {
      this.degree := degree;
    }

    method Apply(results: Results, rotate: Rotation, coin: real)
      requires RightAngle(degree)
      requires 0.0 <= coin < 1.0
      requires coin < 0.5 ==> results.sample.img.Some? && CounterIsNumber(results.sample)
      modifies results
      ensures results.sample == RandomlyRotated(old(results.sample), rotate, degree, coin)
    {
      if coin < 0.5 {
        var stage := new RotateStage(degree);
        stage.Apply(results, rotate);
      } else {
        var f := results.sample.fields;
        results.sample := results.sample.(fields := f[Rotate := if Rotate in f then f[Rotate] else Int(0)]);
      }
    }
  }
}
