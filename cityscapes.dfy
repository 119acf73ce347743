/** The Cityscapes segmentation dataset: it reads the list of image ids, records each image's
    file name, path and size, drops the images that are too small for training, groups the
    rest by aspect ratio, and builds the record each sample starts the pipeline with. */
module Cityscapes {
  import opened Wrappers
  import opened Raster
  import opened Record
  import opened Text
  import opened Loading

  /** The eight classes of the dataset. */
  const Classes: seq<string> := ["person", "rider", "car", "truck", "bus", "train", "motorcycle", "bicycle"]

  /** The smallest side `_filter_imgs` keeps by default. */
  const MinSize := 32

  /** `os.path.join` and `os.path.isabs`, which this model takes as given. */
  datatype PathOps = PathOps(join: (string, string) -> string, isAbs: string -> bool)

  /** A prefix as the constructor leaves it: a relative prefix is put under the data root. */
  function JoinPrefix(root: Option<string>, prefix: Option<string>, paths: PathOps): (r: Option<string>)
    ensures r.Some? == prefix.Some?
    ensures root.None? || prefix.None? || paths.isAbs(prefix.value) ==> r == prefix
    ensures root.Some? && prefix.Some? && !paths.isAbs(prefix.value) ==> r == Some(paths.join(root.value, prefix.value))
  {
    if root.Some? && !(prefix.None? || paths.isAbs(prefix.value)) then Some(paths.join(root.value, prefix.value))
    else prefix
  }

  // ---------------------------------------------------------------------------------------
  // The image list

  /** The ids `read_imglist` returns for a list file whose text, after Python's newline
      translation, is `contents`: its lines, each stripped. */
  function ImageIds(contents: string): (ids: seq<string>)
    ensures |ids| == |Lines(contents)|
  {
    var lines := Lines(contents);
    seq(|lines|, k requires 0 <= k < |lines| => Strip(lines[k]))
  }

  /** There is one id per line of the file (a last line without '\n' counts too), and every id
      is a whole line stripped: no '\n' in it and no whitespace at either end. */
  lemma ImageIdsAreStrippedLines(contents: string)
    ensures var ids := ImageIds(contents);
      && |ids| == CountOf(contents, '\n') + (if contents != [] && contents[|contents| - 1] != '\n' then 1 else 0)
      && forall k | 0 <= k < |ids| :: '\n' !in ids[k] && Strip(ids[k]) == ids[k]
  {
    var ids := ImageIds(contents);
    LineCount(contents);
    LinesPartitionText(contents);
    forall k | 0 <= k < |ids|
      ensures '\n' !in ids[k] && Strip(ids[k]) == ids[k]
    {
      StrippedLineHasNoNewline(Lines(contents)[k]);
      StripIdempotent(Lines(contents)[k]);
    }
  }

  /** `read_imglist`, given the contents of the list file. */
  method ReadImglist(contents: string) returns (ids: seq<string>)
    ensures ids == ImageIds(contents)
  {
    var lines := Lines(contents);
    ghost var all := ImageIds(contents);
    ids := [];
    for k := 0 to |lines|
      invariant ids == all[..k]
    {
      assert all[k] == Strip(lines[k]);
      ids := ids + [Strip(lines[k])];
      assert ids == all[..k + 1];
    }
    assert all[..|lines|] == all;
  }

  // ---------------------------------------------------------------------------------------
  // Annotations

  /** One entry of `data_infos`. */
  datatype DataInfo = DataInfo(id: string, filename: string, imgPath: string, width: nat, height: nat)

  /** The entry as the dict it is in the source: the value stored under a key, if any. */
  function InfoField(d: DataInfo, key: string): (v: Option<Value>)
    ensures v.Some? <==> key in {"id", "filename", "img_path", "width", "height"}
  {
    if key == "id" then Some(Str(d.id))
    else if key == "filename" then Some(Str(d.filename))
    else if key == "img_path" then Some(Str(d.imgPath))
    else if key == "width" then Some(Int(d.width))
    else if key == "height" then Some(Int(d.height))
    else None
  }

  /** The entry `load_annotations` makes for one id; `size` is `Image.open(path).size`. */
  function InfoFor(id: string, imgPrefix: string, paths: PathOps, size: string -> (nat, nat)): DataInfo {
    var path := paths.join(imgPrefix, id + ".jpg");
    DataInfo(id, id + ".jpg", path, size(path).0, size(path).1)
  }

  /** The file name of an entry is its id with the extension "jpg": removing the extension
      gives back the id, whatever dots the id holds. */
  lemma FileNameRoundTrip(id: string, imgPrefix: string, paths: PathOps, size: string -> (nat, nat))
    ensures var d := InfoFor(id, imgPrefix, paths, size);
      d.id == id && Stem(d.filename) == id && LastField(d.filename, '.') == "jpg"
  {
    NameRoundTrip(id, "jpg");
    assert id + "." + "jpg" == id + ".jpg";
  }

  /** `load_annotations` over the given ids; joining with a None prefix raises a TypeError, so
      the source needs a prefix whenever there is an id. */
  function Annotations(ids: seq<string>, imgPrefix: Option<string>, paths: PathOps, size: string -> (nat, nat)): (r: seq<DataInfo>)
    requires imgPrefix.Some? || ids == []
    ensures |r| == |ids|
    ensures forall k | 0 <= k < |r| :: r[k].id == ids[k]
  {
    seq(|ids|, k requires 0 <= k < |ids| => InfoFor(ids[k], imgPrefix.value, paths, size))
  }

  method LoadAnnotations(ids: seq<string>, imgPrefix: Option<string>, paths: PathOps, size: string -> (nat, nat))
    returns (infos: seq<DataInfo>)
    requires imgPrefix.Some? || ids == []
    ensures infos == Annotations(ids, imgPrefix, paths, size)
  {
    infos := [];
    for k := 0 to |ids|
      invariant infos == Annotations(ids, imgPrefix, paths, size)[..k]
    {
      infos := infos + [InfoFor(ids[k], imgPrefix.value, paths, size)];
    }
  }

  // ---------------------------------------------------------------------------------------
  // Filtering and grouping

  /** `min(width, height) >= min_size`. */
  predicate LargeEnough(d: DataInfo, minSize: int) {
    Min(d.width, d.height) >= minSize
  }

  /** The indices among the first n entries that `_filter_imgs` keeps: in increasing order,
      exactly those of the entries large enough. */
  function KeptIndices(infos: seq<DataInfo>, minSize: int, n: nat): (r: seq<nat>)
    requires n <= |infos|
    ensures forall k | 0 <= k < |r| :: r[k] < n && LargeEnough(infos[r[k]], minSize)
    ensures forall k, m | 0 <= k < m < |r| :: r[k] < r[m]
    ensures forall i | 0 <= i < n && LargeEnough(infos[i], minSize) :: i in r
  {
    if n == 0 then []
    else KeptIndices(infos, minSize, n - 1) + (if LargeEnough(infos[n - 1], minSize) then [n - 1] else [])
  }

  method FilterImgs(infos: seq<DataInfo>, minSize: int) returns (valid: seq<nat>)
    ensures valid == KeptIndices(infos, minSize, |infos|)
  {
    valid := [];
    for i := 0 to |infos|
      invariant valid == KeptIndices(infos, minSize, i)
    {
      if Min(infos[i].width, infos[i].height) >= minSize {
        valid := valid + [i];
      }
    }
  }

  /** `[infos[i] for i in indices]`. */
  function Select(infos: seq<DataInfo>, indices: seq<nat>): (r: seq<DataInfo>)
    requires forall k | 0 <= k < |indices| :: indices[k] < |infos|
    ensures |r| == |indices| && forall k | 0 <= k < |r| :: r[k] == infos[indices[k]]
  {
    seq(|indices|, k requires 0 <= k < |indices| => infos[indices[k]])
  }

  /** The entries training keeps, in their order: every entry large enough, and only those. */
  function Kept(infos: seq<DataInfo>): (r: seq<DataInfo>)
    ensures forall k | 0 <= k < |r| :: LargeEnough(r[k], MinSize)
  {
    Select(infos, KeptIndices(infos, MinSize, |infos|))
  }

  /** The group of an entry: 1 when its aspect ratio width / height exceeds 1, else 0. */
  function GroupOf(d: DataInfo): int {
    if d.width > d.height then 1 else 0
  }

  /** True division `width / height > 1`, for a positive height, is `width > height`. */
  lemma RatioAboveOne(w: nat, h: nat)
    requires h > 0
    ensures (w as real) / (h as real) > 1.0 <==> w > h
  {
    var hr := h as real;
    var q := (w as real) / hr;
    assert q * hr == w as real;
    if q > 1.0 {
      PositiveProduct(q - 1.0, hr);
    }
    if w > h {
      PositiveProduct(w as real - h as real, 1.0 / hr);
      assert (w as real - h as real) * (1.0 / hr) == q - 1.0;
    }
  }

  /** The loop of `_set_group_flag`: a zeroed array, set to 1 where width / height > 1. */
  method GroupFlags(infos: seq<DataInfo>) returns (groups: array<int>)
    requires forall i | 0 <= i < |infos| :: infos[i].height > 0
    ensures fresh(groups) && groups.Length == |infos|
    ensures forall i | 0 <= i < |infos| :: groups[i] == GroupOf(infos[i])
  {
    groups := new int[|infos|](_ => 0);
    for i := 0 to |infos|
      invariant forall j | 0 <= j < i :: groups[j] == GroupOf(infos[j])
      invariant forall j | i <= j < |infos| :: groups[j] == 0
    {
      RatioAboveOne(infos[i].width, infos[i].height);
      if (infos[i].width as real) / (infos[i].height as real) > 1.0 {
        groups[i] := 1;
      }
    }
  }

  lemma PositiveProduct(a: real, b: real)
    requires a > 0.0 && b > 0.0
    ensures a * b > 0.0
  { }

  // ---------------------------------------------------------------------------------------
  // The dataset

  /** `get_ann_info`'s result: the label file name and its path under the label prefix. */
  datatype Ann = Ann(segMap: string, segPath: string)

  /** Python's `xs[idx]` on a list of length n: a negative index counts from the end. */
  function PyIndex(n: nat, idx: int): (r: Option<nat>)
    ensures r.Some? <==> -(n as int) <= idx < n
    ensures r.Some? ==> r.value < n && r.value == (if idx < 0 then n + idx else idx)
  {
    if 0 <= idx < n then Some(idx) else if -(n as int) <= idx < 0 then Some(idx + n) else None
  }

  /** The prefix as the record stores it: the string, or None. */
  function PrefixValue(p: Option<string>): Value {
    if p.Some? then Str(p.value) else Null
  }

  /** The keys `pre_pipeline` writes: both prefixes and two empty field lists; every other key
      keeps its value. */
  function PipelineFields(f: map<Key, Value>, imgPrefix: Option<string>, segPrefix: Option<string>): (r: map<Key, Value>)
    ensures r.Keys == f.Keys + {ImgPrefix, SegPrefix, MaskFields, SegFields}
    ensures r[ImgPrefix] == PrefixValue(imgPrefix) && r[SegPrefix] == PrefixValue(segPrefix)
    ensures r[MaskFields] == Strings([]) && r[SegFields] == Strings([])
    ensures forall k | k in f && k !in {ImgPrefix, SegPrefix, MaskFields, SegFields} :: r[k] == f[k]
  {
    f[ImgPrefix := PrefixValue(imgPrefix)][SegPrefix := PrefixValue(segPrefix)][MaskFields := Strings([])][SegFields := Strings([])]
  }

  /** The record handed to the pipeline for an image: no layer yet, the given keys, and those
      `pre_pipeline` adds. */
  function PipelineRecord(f: map<Key, Value>, imgPrefix: Option<string>, segPrefix: Option<string>): Sample {
    Sample(None, None, None, None, PipelineFields(f, imgPrefix, segPrefix))
  }

  /** The keys `prepare_train_img` and `prepare_test_img` take from an entry, with the label
      path given. */
  function EntryFields(d: DataInfo, labelPath: Value, numClasses: nat): (f: map<Key, Value>)
    ensures f.Keys == {ImgPath, LabelPath, ImgId, H, W, NumClasses}
    ensures f[ImgPath] == Str(d.imgPath) && f[LabelPath] == labelPath && f[ImgId] == Str(d.id)
    ensures f[H] == Int(d.height) && f[W] == Int(d.width) && f[NumClasses] == Int(numClasses)
  {
    map[ImgPath := Str(d.imgPath), LabelPath := labelPath, ImgId := Str(d.id),
        H := Int(d.height), W := Int(d.width), NumClasses := Int(numClasses)]
  }

  /** `s` is the record prepared for entry `d`: no layer yet; the image path, the given label
      path, the id, the height under `h` and the width under `w`, the number of classes; both
      prefixes and two empty field lists; and no other key. */
  predicate PreparedFrom(s: Sample, d: DataInfo, labelPath: Value, numClasses: nat,
                         imgPrefix: Option<string>, segPrefix: Option<string>)
  {
    var f := s.fields;
    && s.img.None? && s.gtSemanticSeg.None? && s.gtEdge.None? && s.validPixels.None?
    && f.Keys == {ImgPath, LabelPath, ImgId, H, W, NumClasses, ImgPrefix, SegPrefix, MaskFields, SegFields}
    && f[ImgPath] == Str(d.imgPath) && f[LabelPath] == labelPath && f[ImgId] == Str(d.id)
    && f[H] == Int(d.height) && f[W] == Int(d.width) && f[NumClasses] == Int(numClasses)
    && f[ImgPrefix] == PrefixValue(imgPrefix) && f[SegPrefix] == PrefixValue(segPrefix)
    && f[MaskFields] == Strings([]) && f[SegFields] == Strings([])
  }

  /** The record built from an entry's keys and pre_pipeline's is the one prepared for it. */
  function PreparedRecord(d: DataInfo, labelPath: Value, numClasses: nat,
                          imgPrefix: Option<string>, segPrefix: Option<string>): (s: Sample)
    ensures PreparedFrom(s, d, labelPath, numClasses, imgPrefix, segPrefix)
  {
    PipelineRecord(EntryFields(d, labelPath, numClasses), imgPrefix, segPrefix)
  }

  class CityscapeSegmentation {
    var dataRoot: Option<string>
    var imgPrefix: Option<string>
    var segPrefix: Option<string>
    var testMode: bool
    var numClasses: nat
    var dataInfos: seq<DataInfo>
    /** `os.path`, which `get_ann_info` joins the label prefix with. */
    var paths: PathOps
    /** The group of every entry, for the sampler; training only (empty in test mode). */
    var flag: array<int>

    /** What the constructor establishes: eight classes, and in training every entry large
        enough and a group flag per entry that is 1 exactly for the landscape images. */
    predicate Valid()
      reads this, flag
    {
      && numClasses == |Classes|
      && (!testMode ==>
           && flag.Length == |dataInfos|
           && (forall i | 0 <= i < |dataInfos| :: LargeEnough(dataInfos[i], MinSize))
           && (forall i | 0 <= i < |dataInfos| :: flag[i] == GroupOf(dataInfos[i])))
    }

    /** `listing` is the contents of the image-list file and `size` opens an image and gives its
        (width, height). The source fails on the first id when the image prefix is None. */
    constructor(dataRoot: Option<string>, listing: string, imgPrefix: Option<string>, segPrefix: Option<string>,
                testMode: bool, paths: PathOps, size: string -> (nat, nat))
      requires JoinPrefix(dataRoot, imgPrefix, paths).Some? || ImageIds(listing) == []
      ensures Valid()
      ensures this.dataRoot == dataRoot && this.testMode == testMode && this.paths == paths
      ensures this.imgPrefix == JoinPrefix(dataRoot, imgPrefix, paths)
      ensures this.segPrefix == JoinPrefix(dataRoot, segPrefix, paths)
      ensures var all := Annotations(ImageIds(listing), this.imgPrefix, paths, size);
        dataInfos == if testMode then all else Kept(all)
    {
      var prefix := JoinPrefix(dataRoot, imgPrefix, paths);
      this.dataRoot := dataRoot;
      this.imgPrefix := prefix;
      this.segPrefix := JoinPrefix(dataRoot, segPrefix, paths);
      this.testMode := testMode;
      this.paths := paths;
      this.numClasses := |Classes|;
      var ids := ReadImglist(listing);
      var infos := LoadAnnotations(ids, prefix, paths, size);
      if !testMode {
        var valid := FilterImgs(infos, MinSize);
        infos := Select(infos, valid);
      }
      this.dataInfos := infos;
      this.flag := new int[0];
      new;
      if !testMode {
        SetGroupFlag();
      }
    }

    /** `_set_group_flag`: 1 for the entries whose width / height exceeds 1, 0 for the rest. */
    method SetGroupFlag()
      requires forall i | 0 <= i < |dataInfos| :: dataInfos[i].height > 0
      modifies this
      ensures fresh(flag) && flag.Length == |dataInfos|
      ensures forall i | 0 <= i < |dataInfos| :: flag[i] == GroupOf(dataInfos[i])
      ensures dataInfos == old(dataInfos) && testMode == old(testMode) && numClasses == old(numClasses)
      ensures dataRoot == old(dataRoot) && imgPrefix == old(imgPrefix) && segPrefix == old(segPrefix)
      ensures paths == old(paths)
    {
      flag := GroupFlags(dataInfos);
    }

    /** `__len__`; in training the sampler's flags cover exactly the dataset. */
    function Len(): (n: nat)
      reads this, flag
      ensures Valid() && !testMode ==> n == flag.Length
    {
      |dataInfos|
    }

    /** `get_ann_info`: the label file of an entry is its id with the extension "png", under the
        label prefix. An index out of range raises an IndexError, a None prefix a TypeError. */
    function GetAnnInfo(idx: int): (r: Result<Ann, Error>)
      reads this
      ensures PyIndex(|dataInfos|, idx).None? ==> r == Failure(IndexError)
      ensures PyIndex(|dataInfos|, idx).Some? && segPrefix.None? ==> r.Failure? && r.error.TypeError?
      ensures r.Success? ==> segPrefix.Some? && PyIndex(|dataInfos|, idx).Some?
    {
      match PyIndex(|dataInfos|, idx)
      case None => Failure(IndexError)
      case Some(i) =>
        var id := dataInfos[i].id;
        if segPrefix.None? then Failure(TypeError("join() argument must be str"))
        else Success(Ann(id + ".png", paths.join(segPrefix.value, id + ".png")))
    }

    /** The label file of an entry and the image file share the entry's id as their stem; the
        label's extension is "png". */
    lemma AnnotationNamesMatch(idx: int)
      requires GetAnnInfo(idx).Success?
      ensures var d := dataInfos[PyIndex(|dataInfos|, idx).value]; var ann := GetAnnInfo(idx).value;
        && ann.segMap == d.id + ".png" && Stem(ann.segMap) == d.id && LastField(ann.segMap, '.') == "png"
        && ann.segPath == paths.join(segPrefix.value, ann.segMap)
    {
      var d := dataInfos[PyIndex(|dataInfos|, idx).value];
      NameRoundTrip(d.id, "png");
      assert d.id + "." + "png" == d.id + ".png";
    }

    /** `pre_pipeline`: the two prefixes and two empty field lists are written into the record;
        no layer and no other key changes. */
    method PrePipeline(results: Results)
      modifies results
      ensures results.sample == old(results.sample).(fields := PipelineFields(old(results.sample.fields), imgPrefix, segPrefix))
    {
      var f := results.sample.fields;
      f := f[ImgPrefix := PrefixValue(imgPrefix)];
      f := f[SegPrefix := PrefixValue(segPrefix)];
      f := f[MaskFields := Strings([])];
      f := f[SegFields := Strings([])];
      results.sample := results.sample.(fields := f);
    }

    /** The record `prepare_train_img` hands to the pipeline: the entry's keys with the label
        path from get_ann_info, and what pre_pipeline adds. It fails exactly where
        get_ann_info does. */
    function TrainRecord(idx: int): (r: Result<Sample, Error>)
      reads this
      ensures r.Failure? <==> GetAnnInfo(idx).Failure?
      ensures r.Failure? ==> r.error == GetAnnInfo(idx).error
      ensures r.Success? ==> PreparedFrom(r.value, dataInfos[PyIndex(|dataInfos|, idx).value],
                                          Str(GetAnnInfo(idx).value.segPath), numClasses, imgPrefix, segPrefix)
    {
      match GetAnnInfo(idx)
      case Failure(e) => Failure(e)
      case Success(ann) =>
        Success(PreparedRecord(dataInfos[PyIndex(|dataInfos|, idx).value], Str(ann.segPath), numClasses, imgPrefix, segPrefix))
    }

    /** A training record carries no RGB-to-class mapping, so ReadImage refuses it with a failed
        assertion before reading anything. */
    lemma TrainRecordLacksMapping(idx: int, binarize: bool, readers: Readers)
      requires TrainRecord(idx).Success?
      ensures var r := Read(TrainRecord(idx).value.fields, binarize, readers); r.Failure? && r.error.AssertionError?
    {
      var f := TrainRecord(idx).value.fields;
      assert Rgb2Label !in f;
      assert HasLabelPath(f) && f[LabelPath].Str?;
    }

    method PrepareTrainImg(idx: int) returns (r: Result<Sample, Error>)
      ensures r == TrainRecord(idx)
    {
      var ann := GetAnnInfo(idx);
      if ann.Failure? {
        return Failure(ann.error);
      }
      var d := dataInfos[PyIndex(|dataInfos|, idx).value];
      var results := new Results(Sample(None, None, None, None, EntryFields(d, Str(ann.value.segPath), numClasses)));
      PrePipeline(results);
      return Success(results.sample);
    }

    /** `prepare_test_img` as written: it reads the entry's 'img_id', a key no entry has (the id
        is stored under 'id'). */
    function TestRecordAsWritten(idx: int): (r: Result<Sample, Error>)
      reads this
    {
      match PyIndex(|dataInfos|, idx)
      case None => Failure(IndexError)
      case Some(i) =>
        var d := dataInfos[i];
        match InfoField(d, "img_id")
        case None => Failure(KeyError("img_id"))
        case Some(id) =>
          Success(PipelineRecord(EntryFields(d, Null, numClasses)[ImgId := id], imgPrefix, segPrefix))
    }

    /** No test sample can be prepared as written: an index in range raises a KeyError, one
        out of range an IndexError. */
    lemma TestRecordAsWrittenFails(idx: int)
      ensures TestRecordAsWritten(idx).Failure?
      ensures PyIndex(|dataInfos|, idx).Some? ==> TestRecordAsWritten(idx) == Failure(KeyError("img_id"))
      ensures PyIndex(|dataInfos|, idx).None? ==> TestRecordAsWritten(idx) == Failure(IndexError)
    {
      if PyIndex(|dataInfos|, idx).Some? {
        var d := dataInfos[PyIndex(|dataInfos|, idx).value];
        assert InfoField(d, "img_id").None?;
      }
    }

    /** `prepare_test_img` reading the id from 'id', as intended: the entry's keys with no label
        path, and what pre_pipeline adds. It fails only on an index out of range. */
    function TestRecord(idx: int): (r: Result<Sample, Error>)
      reads this
      ensures r.Success? <==> PyIndex(|dataInfos|, idx).Some?
      ensures r.Failure? ==> r.error == IndexError
      ensures r.Success? ==> PreparedFrom(r.value, dataInfos[PyIndex(|dataInfos|, idx).value], Null, numClasses, imgPrefix, segPrefix)
    {
      match PyIndex(|dataInfos|, idx)
      case None => Failure(IndexError)
      case Some(i) => Success(PreparedRecord(dataInfos[i], Null, numClasses, imgPrefix, segPrefix))
    }

    /** A test record passes ReadImage: with no label path its label map is all zero and of the
        image's size. With `get_edge`, the check as written fails on it, while the intended
        check passes and writes an all-zero edge map of that size. */
    lemma TestRecordThroughReadImage(idx: int, binarize: bool, readers: Readers)
      requires TestRecord(idx).Success?
      ensures var s := TestRecord(idx).value; var p := Read(s.fields, binarize, readers);
        && p.Success?
        && p.value.seg.width == p.value.img.width && p.value.seg.height == p.value.img.height
        && !AnyNonZero(p.value.seg)
        && Loaded(s, true, EdgeCheckAsWritten, binarize, readers).error.Some?
        && Loaded(s, true, LabelPath, binarize, readers).error.None?
        && Loaded(s, true, LabelPath, binarize, readers).sample.gtEdge == Some(Zeros(p.value.seg.width, p.value.seg.height))
    {
      var s := TestRecord(idx).value;
      var f := s.fields;
      assert ImgPath in f && !HasLabelPath(f) && TileSize !in f && EdgeCheckAsWritten !in f;
      NoLabelGivesZeros(f, binarize, readers);
      EdgeCheckAsWrittenFails(s, binarize, readers);
      EdgeMapWithLabelPath(s, binarize, readers);
    }

    method PrepareTestImg(idx: int) returns (r: Result<Sample, Error>)
      ensures r == TestRecord(idx)
    {
      var i := PyIndex(|dataInfos|, idx);
      if i.None? {
        return Failure(IndexError);
      }
      var results := new Results(Sample(None, None, None, None, EntryFields(dataInfos[i.value], Null, numClasses)));
      PrePipeline(results);
      return Success(results.sample);
    }

    /** `__getitem__`: the test record in test mode, the training record otherwise. */
    method GetItem(idx: int) returns (r: Result<Sample, Error>)
      ensures r == if testMode then TestRecord(idx) else TrainRecord(idx)
      ensures testMode ==> TestRecordAsWritten(idx).Failure?
      ensures testMode && PyIndex(|dataInfos|, idx).Some? ==> TestRecordAsWritten(idx) == Failure(KeyError("img_id"))
    {
      TestRecordAsWrittenFails(idx);
      if testMode {
        r := PrepareTestImg(idx);
      } else {
        r := PrepareTrainImg(idx);
      }
    }
  }
}
