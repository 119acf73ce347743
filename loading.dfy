/** ReadImage, the first stage of every pipeline: it reads the image named by `img_path`, the
    label map named by `label_path` (or an all-zero map when there is none), cuts both to the
    tile given by `h`, `w` and `tile_size`, and optionally derives the edge map. */
module Loading {
  import opened Wrappers
  import opened Raster
  import opened Record
  import opened Text

  /** The file readers and the label conversions, which this model takes as given:
      `image(path, n_channels)` is read_image(path, 'image', n_channels), `labelFile(path)` is
      read_image(path, 'label'), `colorToClass` maps an RGB label to class indices, and `edges`
      is the one-hot edge extraction for the given number of classes. */
  datatype Readers = Readers(
    image: (Value, Value) -> Raster,
    labelFile: string -> Raster,
    colorToClass: (Raster, Value) -> Raster,
    edges: (Raster, Value) -> Raster)

  /** The label file extensions ReadImage accepts. */
  const LabelExtensions: seq<string> := ["tif", "png", "jpg", "jpeg", "ppm", "bmp"]

  /** `results['n_channels']` when present, 3 otherwise. */
  function Channels(f: map<Key, Value>): (v: Value)
    ensures NChannels in f ==> v == f[NChannels]
    ensures NChannels !in f ==> v == Int(3)
  {
    if NChannels in f then f[NChannels] else Int(3)
  }

  /** A value used as a slice bound: an int, or a bool (an int in Python); anything else makes
      the slice raise a TypeError. */
  function AsIndex(v: Value): (r: Result<int, Error>)
    ensures r.Success? <==> v.Int? || v.Bool?
    ensures v.Int? ==> r == Success(v.i)
    ensures v.Bool? ==> r == Success(if v.b then 1 else 0)
  {
    match v
    case Int(i) => Success(i)
    case Bool(b) => Success(if b then 1 else 0)
    case _ => Failure(TypeError("slice indices must be integers"))
  }

  /** The label path is given when the key is present and not None. */
  predicate HasLabelPath(f: map<Key, Value>) {
    LabelPath in f && f[LabelPath] != Null
  }

  /** The label map ReadImage reads, before tiling: from the label file (checked for its
      extension and for the RGB-to-class mapping, optionally binarised, converted to classes
      and wrapped to uint8), or an all-zero map of the image's size when there is no label
      path. */
  function LabelMap(f: map<Key, Value>, img: Raster, readers: Readers, binarize: bool): (r: Result<Raster, Error>)
    ensures !HasLabelPath(f) ==> r == Success(Zeros(img.width, img.height))
    ensures HasLabelPath(f) && !f[LabelPath].Str? ==> r == Failure(AttributeError("split"))
    ensures HasLabelPath(f) && f[LabelPath].Str? && LastField(f[LabelPath].s, '.') !in LabelExtensions ==> r.Failure? && r.error.AssertionError?
    ensures HasLabelPath(f) && Rgb2Label !in f ==> r.Failure?
    ensures r.Success? ==> forall y, x | 0 <= y < r.value.height && 0 <= x < r.value.width :: 0 <= r.value.rows[y][x] < 256
  {
    if HasLabelPath(f) then
      var path := f[LabelPath];
      if !path.Str? then Failure(AttributeError("split"))
      else if LastField(path.s, '.') !in LabelExtensions then Failure(AssertionError("label extension"))
      else if Rgb2Label !in f then Failure(AssertionError("Mapping from RGB to label must be provided."))
      else
        var raw := readers.labelFile(path.s);
        var rgb := if binarize then Binarize(raw) else raw;
        Success(ToUint8(readers.colorToClass(rgb, f[Rgb2Label])))
    else Success(Zeros(img.width, img.height))
  }

  /** The tile `img[i:i + tile_size, j:j + tile_size]`. */
  datatype Tiling = Tiling(i: int, j: int, size: int)

  /** The tile to cut: none unless `tile_size`, `h` and `w` are all present, and a TypeError
      when one of them is not an integer. */
  function TilingOf(f: map<Key, Value>): (r: Result<Option<Tiling>, Error>)
    ensures !(TileSize in f && H in f && W in f) ==> r == Success(None)
    ensures r.Success? && r.value.Some? ==> TileSize in f && H in f && W in f
    ensures TileSize in f && H in f && W in f && f[TileSize].Int? && f[H].Int? && f[W].Int? ==>
      r == Success(Some(Tiling(f[H].i, f[W].i, f[TileSize].i)))
  {
    if TileSize in f && H in f && W in f then
      match (AsIndex(f[H]), AsIndex(f[W]), AsIndex(f[TileSize]))
      case (Success(i), Success(j), Success(size)) => Success(Some(Tiling(i, j, size)))
      case _ => Failure(TypeError("slice indices must be integers"))
    else Success(None)
  }

  function Cut(g: Raster, t: Option<Tiling>): Raster {
    if t.Some? then Tile(g, t.value.i, t.value.j, t.value.size) else g
  }

  /** `np.zeros(label.shape)` when the label has no non-zero pixel, the edge map otherwise. */
  function EdgeMap(labels: Raster, numClasses: Value, readers: Readers): (r: Raster)
    ensures !AnyNonZero(labels) ==> r == Zeros(labels.width, labels.height)
  {
    if AnyNonZero(labels) then readers.edges(labels, numClasses) else Zeros(labels.width, labels.height)
  }

  /** The image and the label map ReadImage writes, both cut to the tile. */
  datatype Pictures = Pictures(img: Raster, seg: Raster)

  /** The reading half of ReadImage: the checks on `img_path`, the label path and the tile
      arguments, in the source's order, then the two pictures. */
  function Read(f: map<Key, Value>, binarize: bool, readers: Readers): (r: Result<Pictures, Error>)
    ensures ImgPath !in f ==> r == Failure(AssertionError("img_path"))
    ensures HasLabelPath(f) && f[LabelPath].Str? && (LastField(f[LabelPath].s, '.') !in LabelExtensions || Rgb2Label !in f)
      ==> r.Failure? && r.error.AssertionError?
  {
    if ImgPath !in f then Failure(AssertionError("img_path"))
    else
      var img := readers.image(f[ImgPath], Channels(f));
      match LabelMap(f, img, readers, binarize)
      case Failure(e) => Failure(e)
      case Success(labels) =>
        match TilingOf(f)
        case Failure(e) => Failure(e)
        case Success(t) => Success(Pictures(Cut(img, t), Cut(labels, t)))
  }

  /** Every label map ReadImage writes holds class indices in [0, 256), tiled or not. */
  lemma LabelsAreBytes(f: map<Key, Value>, binarize: bool, readers: Readers)
    requires Read(f, binarize, readers).Success?
    ensures var seg := Read(f, binarize, readers).value.seg;
      forall y, x | 0 <= y < seg.height && 0 <= x < seg.width :: 0 <= seg.rows[y][x] < 256
  {
    var img := readers.image(f[ImgPath], Channels(f));
    var labels := LabelMap(f, img, readers, binarize).value;
    var t := TilingOf(f).value;
    assert Read(f, binarize, readers).value.seg == Cut(labels, t);
    if t.Some? {
      TileTakesPixels(labels, t.value.i, t.value.j, t.value.size);
    }
  }

  /** Without a label path the label map is all zero and has the size of the (tiled) image. */
  lemma NoLabelGivesZeros(f: map<Key, Value>, binarize: bool, readers: Readers)
    requires !HasLabelPath(f) && Read(f, binarize, readers).Success?
    ensures var p := Read(f, binarize, readers).value;
      && p.seg.width == p.img.width && p.seg.height == p.img.height
      && forall y, x | 0 <= y < p.seg.height && 0 <= x < p.seg.width :: p.seg.rows[y][x] == 0
  {
    var img := readers.image(f[ImgPath], Channels(f));
    var labels := Zeros(img.width, img.height);
    var t := TilingOf(f).value;
    assert Read(f, binarize, readers).value == Pictures(Cut(img, t), Cut(labels, t));
    if t.Some? {
      TileTakesPixels(labels, t.value.i, t.value.j, t.value.size);
      TileTakesPixels(img, t.value.i, t.value.j, t.value.size);
    }
  }

  /** With integer `h`, `w` and `tile_size` whose tile lies inside the image, the image written
      is the PIL crop of that square: rows from `h`, columns from `w`. */
  lemma TileIsCrop(f: map<Key, Value>, binarize: bool, readers: Readers)
    requires Read(f, binarize, readers).Success?
    requires TileSize in f && H in f && W in f && f[TileSize].Int? && f[H].Int? && f[W].Int?
    requires var i, j, size := f[H].i, f[W].i, f[TileSize].i;
      var img := readers.image(f[ImgPath], Channels(f));
      0 <= i && 0 <= j && 0 <= size && i + size <= img.height && j + size <= img.width
    ensures var i, j, size := f[H].i, f[W].i, f[TileSize].i;
      Read(f, binarize, readers).value.img == Crop(readers.image(f[ImgPath], Channels(f)), j, i, j + size, i + size)
  {
    var img := readers.image(f[ImgPath], Channels(f));
    assert Read(f, binarize, readers).value.img == Tile(img, f[H].i, f[W].i, f[TileSize].i);
    TileInsideIsCrop(img, f[H].i, f[W].i, f[TileSize].i);
  }

  /** What a stage leaves behind: the record, with whatever it wrote before an exception, and
      the exception, if one was raised. */
  datatype Outcome = Outcome(sample: Sample, error: Option<Error>)

  /** The key the edge branch checks for, as the source spells it. */
  const EdgeCheckAsWritten: Key := Other("lable_path")

  /** ReadImage on record s, its edge branch checking for `edgeKey` (see EdgeCheckAsWritten and
      ReadImage). A failed read writes nothing; then the image and the label map are written,
      and with `get_edge` the edge map. No other key ever changes. */
  function Loaded(s: Sample, getEdge: bool, edgeKey: Key, binarize: bool, readers: Readers): (r: Outcome)
    ensures r.sample.fields == s.fields && r.sample.validPixels == s.validPixels
    ensures Read(s.fields, binarize, readers).Failure? ==> r == Outcome(s, Some(Read(s.fields, binarize, readers).error))
    ensures Read(s.fields, binarize, readers).Success? ==>
      && r.sample.img == Some(Read(s.fields, binarize, readers).value.img)
      && r.sample.gtSemanticSeg == Some(Read(s.fields, binarize, readers).value.seg)
    ensures r.error.None? ==> Read(s.fields, binarize, readers).Success?
    ensures r.error.None? && getEdge ==> r.sample.gtEdge.Some?
    ensures !getEdge ==> r.sample.gtEdge == s.gtEdge && r.error.None? == Read(s.fields, binarize, readers).Success?
  {
    match Read(s.fields, binarize, readers)
    case Failure(e) => Outcome(s, Some(e))
    case Success(p) =>
      var written := Put(Put(s, Img, p.img), GtSemanticSeg, p.seg);
      if !getEdge then Outcome(written, None)
      else if !(edgeKey in s.fields && NumClasses in s.fields) then Outcome(written, Some(AssertionError("edge inputs")))
      else Outcome(Put(written, GtEdge, EdgeMap(p.seg, s.fields[NumClasses], readers)), None)
  }

  /** As written, the edge branch checks for the misspelt key 'lable_path', which no record the
      dataset builds contains: with `get_edge` every record that reaches the branch fails
      there, after the image and the label map were written and without an edge map. */
  lemma EdgeCheckAsWrittenFails(s: Sample, binarize: bool, readers: Readers)
    requires EdgeCheckAsWritten !in s.fields
    requires Read(s.fields, binarize, readers).Success?
    ensures var r := Loaded(s, true, EdgeCheckAsWritten, binarize, readers);
      && r.error == Some(AssertionError("edge inputs"))
      && r.sample == Loaded(s, false, EdgeCheckAsWritten, binarize, readers).sample
      && r.sample.gtEdge == s.gtEdge
  {
  }

  /** Checking for 'label_path', as intended, the edge branch writes an edge map whenever the
      record names its label file and the number of classes: the edge extraction of the label
      map, or all zero (of the label's size) when the label map is all zero. */
  lemma EdgeMapWithLabelPath(s: Sample, binarize: bool, readers: Readers)
    requires LabelPath in s.fields && NumClasses in s.fields
    requires Read(s.fields, binarize, readers).Success?
    ensures var r := Loaded(s, true, LabelPath, binarize, readers);
      var seg := r.sample.gtSemanticSeg.value;
      && r.error.None?
      && r.sample.img == Loaded(s, false, LabelPath, binarize, readers).sample.img
      && r.sample.gtSemanticSeg == Loaded(s, false, LabelPath, binarize, readers).sample.gtSemanticSeg
      && r.sample.gtEdge == Some(EdgeMap(seg, s.fields[NumClasses], readers))
      && (!AnyNonZero(seg) ==> r.sample.gtEdge == Some(Zeros(seg.width, seg.height)))
  {
  }

  /** The ReadImage stage; its edge branch checks for 'label_path' (see
      EdgeCheckAsWrittenFails for the check as the source spells it). */
  class ReadImage {
    const getEdge: bool

    constructor(getEdge: bool)
      ensures this.getEdge == getEdge
    {
      this.getEdge := getEdge;
    }

    /** `readers` stands for the file system and the label conversions; the exception raised,
        if any, is returned, and the record keeps what was written before it. */
    method Apply(results: Results, readers: Readers, binarizeLabel: bool) returns (error: Option<Error>)
      modifies results
      ensures var r := Loaded(old(results.sample), getEdge, LabelPath, binarizeLabel, readers);
        results.sample == r.sample && error == r.error
    {
      var f := results.sample.fields;
      var read := Read(f, binarizeLabel, readers);
      if read.Failure? {
        return Some(read.error);
      }
      var img, seg := read.value.img, read.value.seg;
      results.sample := Put(results.sample, Img, img);
      results.sample := Put(results.sample, GtSemanticSeg, seg);
      if getEdge {
        if !(LabelPath in f && NumClasses in f) {
          return Some(AssertionError("edge inputs"));
        }
        results.sample := Put(results.sample, GtEdge, EdgeMap(seg, f[NumClasses], readers));
      }
      return None;
    }
  }
}
