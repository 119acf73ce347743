/** The per-sample record the pipeline threads through its stages, a Python dict. Its four
    image-valued keys ("layers") are the image and its three label maps; every geometric
    transform runs the same loop over them, `for key in [...]: if key in results:
    results[key] = op(results[key])`, which is MapLayers here. The other keys hold flags,
    counters, sizes, paths and settings. */
module Record {
  import opened Wrappers
  import opened Raster

  /** The image-valued keys. */
  datatype Layer = Img | GtSemanticSeg | GtEdge | ValidPixels

  /** The other keys the modelled stages and the dataset read or write, one constructor per
      Python key name (`img_shape`, `horizontal_flip`, ..., `seg_fields`); `Other(name)` stands
      for any key the modelled code does not name, so the named keys are never spelled as an
      `Other`. */
  datatype Key =
    | ImgShape | HorizontalFlip | VerticalFlip | Rotate
    | ImgPath | LabelPath | Rgb2Label | NChannels | TileSize | H | W | NumClasses | ImgId
    | ImgPrefix | SegPrefix | MaskFields | SegFields
    | Other(name: string)

  /** The kinds of value the pipeline stores under a non-layer key. */
  datatype Value =
    | Null                           // Python None
    | Bool(b: bool)
    | Int(i: int)
    | Str(s: string)
    | Pair(first: int, second: int)  // a (height, width) size
    | Strings(items: seq<string>)    // a list of field names
    | Opaque                         // any other object, e.g. the RGB-to-class mapping

  /** Python's truth value of a stored value, which `not results[key]` negates. */
  predicate Truthy(v: Value) {
    match v
    case Null => false
    case Bool(b) => b
    case Int(i) => i != 0
    case Str(s) => s != []
    case Strings(items) => items != []
    case _ => true
  }

  /** The exceptions the modelled code can raise: a KeyError names the missing key, an
      AttributeError the missing method, and a failed `assert` carries the checked condition. */
  datatype Error =
    | IndexError
    | KeyError(key: string)
    | AssertionError(reason: string)
    | TypeError(reason: string)
    | AttributeError(name: string)

  /** One record: each layer is present (Some) or absent (None), and `fields` holds every
      other key that is present. */
  datatype Sample = Sample(img: Option<Raster>, gtSemanticSeg: Option<Raster>, gtEdge: Option<Raster>,
                           validPixels: Option<Raster>, fields: map<Key, Value>)


  /** `results.get(key)` for a layer key. */
  function Get(s: Sample, l: Layer): Option<Raster> {
    match l
    case Img => s.img
    case GtSemanticSeg => s.gtSemanticSeg
    case GtEdge => s.gtEdge
    case ValidPixels => s.validPixels
  }

  /** `results[key] = g` for a layer key: only that layer changes. */
  function Put(s: Sample, l: Layer, g: Raster): (r: Sample)
    ensures Get(r, l) == Some(g) && r.fields == s.fields
    ensures forall m | m != l :: Get(r, m) == Get(s, m)
  {
    match l
    case Img => s.(img := Some(g))
    case GtSemanticSeg => s.(gtSemanticSeg := Some(g))
    case GtEdge => s.(gtEdge := Some(g))
    case ValidPixels => s.(validPixels := Some(g))
  }

  /** Two records with the same layers and the same other keys are the same record. */
  lemma SameSample(a: Sample, b: Sample)
    requires forall l :: Get(a, l) == Get(b, l)
    requires a.fields == b.fields
    ensures a == b
  {
    assert Get(a, Img) == Get(b, Img) && Get(a, GtSemanticSeg) == Get(b, GtSemanticSeg);
    assert Get(a, GtEdge) == Get(b, GtEdge) && Get(a, ValidPixels) == Get(b, ValidPixels);
  }

  /** The same layers are present in both records. */
  predicate SameLayers(a: Sample, b: Sample) {
    && a.img.Some? == b.img.Some? && a.gtSemanticSeg.Some? == b.gtSemanticSeg.Some?
    && a.gtEdge.Some? == b.gtEdge.Some? && a.validPixels.Some? == b.validPixels.Some?
  }

  const Labels: seq<Layer> := [GtSemanticSeg, GtEdge, ValidPixels]
  const Layers: seq<Layer> := [Img] + Labels

  /** The resampling filter a transform uses: bicubic for the image, nearest for label maps. */
  datatype Resample = Bicubic | Nearest

  function ResampleFor(l: Layer): Resample {
    if l == Img then Bicubic else Nearest
  }

  /** The colour a border is filled with: the ignore index in the segmentation labels and 0
      (black, or "no edge", or "not valid") in every other layer. */
  function FillFor(l: Layer, ignoreIndex: int): int {
    if l == GtSemanticSeg then ignoreIndex else 0
  }

  /** What a transform does to one layer. `Turn` and `Scale` carry PIL's rotate and resize,
      which this model takes as given functions. */
  datatype LayerOp =
    | MirrorLeftRight
    | MirrorTopBottom
    | CropTo(left: int, upper: int, right: int, lower: int)
    | Border(left: int, top: int, right: int, bottom: int, ignoreIndex: int)
    | Turn(rotate: (Raster, int, Resample) -> Raster, degree: int)
    | Scale(resize: (Raster, int, int, Resample) -> Raster, width: nat, height: nat)

  /** PIL refuses a crop box with right < left or lower < upper, and a border that leaves a
      negative canvas. */
  predicate Accepts(op: LayerOp, g: Raster) {
    match op
    case CropTo(l, u, r, lo) => l <= r && u <= lo
    case Border(l, t, r, b, _) => 0 <= l + g.width + r && 0 <= t + g.height + b
    case _ => true
  }

  function ApplyOp(op: LayerOp, l: Layer, g: Raster): Raster
    requires Accepts(op, g)
  {
    match op
    case MirrorLeftRight => FlipLeftRight(g)
    case MirrorTopBottom => FlipTopBottom(g)
    case CropTo(left, upper, right, lower) => Crop(g, left, upper, right, lower)
    case Border(left, top, right, bottom, ignore) => Expand(g, left, top, right, bottom, FillFor(l, ignore))
    case Turn(rotate, degree) => rotate(g, degree, ResampleFor(l))
    case Scale(resize, width, height) => resize(g, width, height, ResampleFor(l))
  }

  predicate AcceptsLayer(op: LayerOp, o: Option<Raster>) {
    o.Some? ==> Accepts(op, o.value)
  }

  /** The layer after op, when it is present. */
  function Lift(op: LayerOp, l: Layer, o: Option<Raster>): Option<Raster>
    requires AcceptsLayer(op, o)
  {
    if o.Some? then Some(ApplyOp(op, l, o.value)) else None
  }

  predicate Distinct(keys: seq<Layer>) {
    forall i, j | 0 <= i < j < |keys| :: keys[i] != keys[j]
  }

  predicate AcceptsAll(s: Sample, keys: seq<Layer>, op: LayerOp) {
    && (Img in keys ==> AcceptsLayer(op, s.img))
    && (GtSemanticSeg in keys ==> AcceptsLayer(op, s.gtSemanticSeg))
    && (GtEdge in keys ==> AcceptsLayer(op, s.gtEdge))
    && (ValidPixels in keys ==> AcceptsLayer(op, s.validPixels))
  }

  /** op can be applied to every present layer. */
  predicate AcceptsEvery(s: Sample, op: LayerOp) {
    AcceptsLayer(op, s.img) && AcceptsLayer(op, s.gtSemanticSeg) && AcceptsLayer(op, s.gtEdge) && AcceptsLayer(op, s.validPixels)
  }

  lemma LayersDistinct()
    ensures Distinct(Layers) && Distinct(Labels)
    ensures Layers[0] == Img && Layers[1..] == Labels
    ensures Img in Layers && GtSemanticSeg in Layers && GtEdge in Layers && ValidPixels in Layers
    ensures Img !in Labels && GtSemanticSeg in Labels && GtEdge in Labels && ValidPixels in Labels
  {
    assert Layers[1] == GtSemanticSeg && Layers[2] == GtEdge && Layers[3] == ValidPixels;
    assert Labels[0] == GtSemanticSeg && Labels[1] == GtEdge && Labels[2] == ValidPixels;
  }

  /** One pass of the loop body: `if key in results: results[key] = op(results[key])`. */
  function Step(s: Sample, l: Layer, op: LayerOp): Sample
    requires AcceptsLayer(op, Get(s, l))
  {
    if Get(s, l).Some? then Put(s, l, ApplyOp(op, l, Get(s, l).value)) else s
  }

  /** The whole loop over `keys`: every listed layer that is present receives op, and nothing
      else changes, neither the unlisted layers nor the other keys. */
  function MapLayers(s: Sample, keys: seq<Layer>, op: LayerOp): (r: Sample)
    requires Distinct(keys) && AcceptsAll(s, keys, op)
    ensures r.fields == s.fields
    ensures r.img == if Img in keys then Lift(op, Img, s.img) else s.img
    ensures r.gtSemanticSeg == if GtSemanticSeg in keys then Lift(op, GtSemanticSeg, s.gtSemanticSeg) else s.gtSemanticSeg
    ensures r.gtEdge == if GtEdge in keys then Lift(op, GtEdge, s.gtEdge) else s.gtEdge
    ensures r.validPixels == if ValidPixels in keys then Lift(op, ValidPixels, s.validPixels) else s.validPixels
    decreases |keys|
  {
    if keys == [] then s
    else
      MapLayersUnfold(s, keys, op);
      MapLayers(Step(s, keys[0], op), keys[1..], op)
  }

  /** One pass of the loop leaves the rest of the loop with distinct keys it accepts. */
  lemma MapLayersUnfold(s: Sample, keys: seq<Layer>, op: LayerOp)
    requires keys != [] && Distinct(keys) && AcceptsAll(s, keys, op)
    ensures AcceptsLayer(op, Get(s, keys[0]))
    ensures Distinct(keys[1..]) && AcceptsAll(Step(s, keys[0], op), keys[1..], op)
    ensures forall l | l in keys[1..] :: l != keys[0]
  {
    forall l | l in keys[1..]
      ensures l != keys[0]
    {
      var i :| 0 <= i < |keys[1..]| && keys[1..][i] == l;
      assert keys[i + 1] == l;
    }
  }

  /** Every present layer receives op, all four at once; the other keys stay as they were. */
  function MapAll(s: Sample, op: LayerOp): (r: Sample)
    requires AcceptsEvery(s, op)
    ensures r.fields == s.fields
    ensures forall l :: Get(r, l) == Lift(op, l, Get(s, l))
  {
    Sample(Lift(op, Img, s.img), Lift(op, GtSemanticSeg, s.gtSemanticSeg), Lift(op, GtEdge, s.gtEdge),
           Lift(op, ValidPixels, s.validPixels), s.fields)
  }

  /** The loop over all four layers, one layer at a time, is MapAll. */
  lemma LoopIsMapAll(s: Sample, op: LayerOp)
    requires AcceptsEvery(s, op)
    ensures Distinct(Layers) && AcceptsAll(s, Layers, op)
    ensures MapLayers(s, Layers, op) == MapAll(s, op)
  {
    LayersDistinct();
  }

  /** The mutable record a stage receives and returns. */
  class Results {
    var sample: Sample

    constructor(sample: Sample)
      ensures this.sample == sample
    {
      this.sample := sample;
    }
  }
}
