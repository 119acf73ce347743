# Segmentation data pipeline: Cityscapes dataset and custom transforms

This project models, in Dafny, two parts of a semantic-segmentation training code base:

- the **custom pipeline stages** of `mmdet/datasets/pipelines/transforms_custom.py`. Each stage
  takes the mutable `results` record of a sample and updates its image layers (`img`,
  `gt_semantic_seg`, `gt_edge`, `valid_pixels`) and its bookkeeping keys (`img_shape`,
  `horizontal_flip`, `vertical_flip`, `rotate`) in place. The stages modelled are:
  - `ReadImage`: reading, the default label map, binarisation, tiling and the edge branch;
  - `CenterCrop`, `RandomCrop` and `PadImage`;
  - the two flips and their random variants;
  - `Rotate` and `RandomRotate`.
- the **Cityscapes segmentation dataset** of `mmdet/datasets/cityscapes_seg.py`. It reads the
  list of image ids, records the file name, path and size of each image, and joins relative
  prefixes onto the data root. In training it drops the images smaller than 32 pixels and
  groups the rest by aspect ratio. It builds the record each sample enters the pipeline with.

Modules, one file each:

| file | module | what it holds |
|---|---|---|
| `wrappers.dfy` | `Wrappers` | `Option` and `Result` |
| `raster.dfy` | `Raster` | images as rectangular integer grids; PIL crop, expand and transpose; numpy slicing, masked assignment and the cast to `uint8` |
| `record.dfy` | `Record` | the `results` record (four optional layers plus a key/value map), Python's exceptions, and the loop `for key in [...]: if key in results: ...` that every stage runs |
| `text.dfy` | `Text` | iterating over the lines of a file, `str.strip`, `str.split(sep)[-1]` |
| `crop_geometry.dfy` | `CropGeometry` | the integer arithmetic of the two crops |
| `transforms.dfy` | `Transforms` | the flips and rotations |
| `crops.dfy` | `Crops` | `CenterCrop`, `RandomCrop`, `PadImage` |
| `loading.dfy` | `Loading` | `ReadImage` |
| `cityscapes.dfy` | `Cityscapes` | the dataset class |

Each stage is a class whose `Apply` method changes a `Record.Results` object in place, as
`__call__` changes its dict. `Apply` is proved to leave exactly the record that a function of
the old record describes. That function's own contract, and the lemmas about it, state what the
stage promises:
- the same window on every layer;
- flipping twice gives the record back;
- the rotation counter sums the rotations;
- the tile is the PIL crop of the same square.

The dataset class keeps the source's fields. Its constructor runs the same steps as
`__init__`: it reads the list, loads the annotations, filters in training, and sets the group
flag in training. Each loop is a method proved against a specification function.

Randomness, files and foreign libraries are parameters:
- **Random draws.** `random.random()` and `random.randint` become the values they returned,
  constrained to the ranges those calls return.
- **Files and images.** The contents of the image-list file, `Image.open(path).size`, and
  `read_image`, `color2class` and the edge extraction are given functions.
- **Path operations.** `os.path.join` and `os.path.isabs` are given functions.
- **PIL.** `Image.rotate` and `Image.resize` are given functions.

## Model

| member | source | states |
|---|---|---|
| Raster.Crop | mmdet/datasets/pipelines/transforms_custom.py:159-162 | PIL `crop` gives the box's size, with pixel (y, x) taken from (upper + y, left + x) of the source, and 0 outside the image |
| Raster.CropInside | mmdet/datasets/pipelines/transforms_custom.py:159-162 | a box inside the image takes every pixel from the image itself |
| Raster.Expand | mmdet/datasets/pipelines/transforms_custom.py:215-221 | `ImageOps.expand` grows the canvas by the border, pastes the image at (left, top) and fills the rest with the fill colour |
| Raster.CropUndoesExpand | mmdet/datasets/pipelines/transforms_custom.py:215-246 | cropping the pasted area back out of an expanded canvas returns the original image |
| Raster.FlipLeftRight | mmdet/datasets/pipelines/transforms_custom.py:324 | `FLIP_LEFT_RIGHT` keeps the size and reverses every row |
| Raster.FlipTopBottom | mmdet/datasets/pipelines/transforms_custom.py:347 | `FLIP_TOP_BOTTOM` keeps the size and reverses the order of the rows |
| Raster.FlipLeftRightInvolutive | mmdet/datasets/pipelines/transforms_custom.py:324 | mirroring left-right twice gives back the image |
| Raster.FlipTopBottomInvolutive | mmdet/datasets/pipelines/transforms_custom.py:347 | mirroring top-bottom twice gives back the image |
| Raster.SliceBound | mmdet/datasets/pipelines/transforms_custom.py:74 | a Python slice bound: negative bounds count from the end, and both are clipped to [0, n] |
| Raster.SliceRange | mmdet/datasets/pipelines/transforms_custom.py:74 | the normalised slice is an ordered range inside [0, n] |
| Raster.TileInsideIsCrop | mmdet/datasets/pipelines/transforms_custom.py:70-75 | a numpy tile that lies inside the image equals the PIL crop of the same square |
| Raster.TileTakesPixels | mmdet/datasets/pipelines/transforms_custom.py:74-75 | every pixel of a tile is the image's pixel shifted by the slice starts, for any bounds, negative or past the end |
| Raster.TileBounds | mmdet/datasets/pipelines/transforms_custom.py:74-75 | a tile is at most `tile_size` in each direction, and empty when it starts past the image |
| Raster.Assign | mmdet/datasets/pipelines/transforms_custom.py:64-65 | masked assignment replaces exactly the pixels the mask selects |
| Raster.Binarize | mmdet/datasets/pipelines/transforms_custom.py:63-65 | binarising sends every pixel below 128 to 0 and every other pixel to 255 |
| Raster.ToUint8 | mmdet/datasets/pipelines/transforms_custom.py:66 | the cast leaves every pixel in [0, 256) and keeps the pixels already in that range |
| Raster.Zeros | mmdet/datasets/pipelines/transforms_custom.py:68 | `np.zeros` of the given size holds only zeros |
| Record.Put | mmdet/datasets/pipelines/transforms_custom.py:77-78 | writing one layer changes that layer and nothing else |
| Record.MapLayers | mmdet/datasets/pipelines/transforms_custom.py:160-162 | the key loop applies the operation to each listed layer that is present; absent and unlisted layers and all other keys are unchanged |
| Record.MapAll | mmdet/datasets/pipelines/transforms_custom.py:322-324 | applying an operation to all four layers changes every present layer and no other key |
| Record.LoopIsMapAll | mmdet/datasets/pipelines/transforms_custom.py:322-324 | the loop over the four layer keys, one at a time, equals applying the operation to all of them at once |
| Text.LinesPartitionText | mmdet/datasets/cityscapes_seg.py:101 | the lines joined give back the file's translated text, and each line is non-empty with at most a final '\n' |
| Text.LineCount | mmdet/datasets/cityscapes_seg.py:101 | there is one line per '\n' of the translated text, plus one for a last line without '\n' |
| Text.StripLeft | mmdet/datasets/cityscapes_seg.py:102 | `lstrip` keeps a suffix, removes only whitespace, and leaves no leading whitespace |
| Text.StripRight | mmdet/datasets/cityscapes_seg.py:102 | `rstrip` keeps a prefix, removes only whitespace, and leaves no trailing whitespace |
| Text.StripCharacterised | mmdet/datasets/cityscapes_seg.py:102 | `strip` keeps one contiguous slice, cuts only whitespace before and after it, and leaves no whitespace at either end |
| Text.StripIdempotent | mmdet/datasets/cityscapes_seg.py:102 | stripping twice is stripping once |
| Text.StrippedLineHasNoNewline | mmdet/datasets/cityscapes_seg.py:101-102 | a stripped line contains no newline |
| Text.LastField | mmdet/datasets/pipelines/transforms_custom.py:60 | `split(sep)[-1]` is the suffix after the last separator, and it holds no separator |
| Text.NameRoundTrip | mmdet/datasets/cityscapes_seg.py:88-89 | a name `stem.ext` gives back `ext` as its extension and `stem` as everything before the last dot |
| CropGeometry.PadPerSide | mmdet/datasets/pipelines/transforms_custom.py:204-211 | the per-side border is positive exactly when the crop exceeds the side, and then the bordered side covers the crop with at most two pixels to spare |
| CropGeometry.Adjust | mmdet/datasets/pipelines/transforms_custom.py:196-212 | with `nopad`, an oversized crop becomes a square of the shorter side and gets no border; without it, the crop keeps its size and both borders are `(t - s) // 2 + 1` or 0; the crop then fits either way |
| CropGeometry.Origin | mmdet/datasets/pipelines/transforms_custom.py:224-242 | the crop origin lies in [0, side - t]; it is 0 when the side already equals the crop; around a centroid inside the image, the window contains the centroid |
| CropGeometry.Window | mmdet/datasets/pipelines/transforms_custom.py:224-243 | the crop box has the adjusted size and lies inside the bordered image |
| CropGeometry.BorderedWindowCoversImage | mmdet/datasets/pipelines/transforms_custom.py:203-242 | on a bordered side every admissible window covers the whole original side |
| CropGeometry.WindowCoversCentroid | mmdet/datasets/pipelines/transforms_custom.py:224-233 | the crop contains the centroid, shifted by the border, whenever the centroid lies in the image |
| CropGeometry.HalfRounded | mmdet/datasets/pipelines/transforms_custom.py:156-157 | `round(d / 2.0)` is the nearest integer to d / 2, with halves going to the even neighbour |
| CropGeometry.CentredWindow | mmdet/datasets/pipelines/transforms_custom.py:156-159 | the centre crop's two margins differ by at most one, and a crop that fits lies inside the image |
| Transforms.UpdateLayers | mmdet/datasets/pipelines/transforms_custom.py:160-162 | the imperative key loop leaves exactly the record the loop function describes |
| Transforms.UpdateImageAndLabels | mmdet/datasets/pipelines/transforms_custom.py:372-375 | writing the image, then looping over the label keys, is the loop over all four layers |
| Transforms.Flipped | mmdet/datasets/pipelines/transforms_custom.py:319-349 | a flip mirrors every present layer and adds no layer; the flag becomes `not old` when present, else True; every other key is unchanged |
| Transforms.NotFlipped | mmdet/datasets/pipelines/transforms_custom.py:337-338 | a random flip that does not fire leaves the images alone and only defaults an absent flag to False |
| Transforms.RandomlyFlipped | mmdet/datasets/pipelines/transforms_custom.py:329-362 | the random flips flip exactly when the draw is below p |
| Transforms.FlipTwice | mmdet/datasets/pipelines/transforms_custom.py:319-349 | flipping twice restores the record, except that an absent flag ends up False |
| Transforms.FlipInvolutive | mmdet/datasets/pipelines/transforms_custom.py:319-349 | on a record that carries the flag, a flip is its own inverse |
| Transforms.FlipsCommute | mmdet/datasets/pipelines/transforms_custom.py:319-349 | the horizontal and vertical flips commute, flags included |
| Transforms.FlipsCommuteOnRaster | mmdet/datasets/pipelines/transforms_custom.py:324-347 | the two pixel mirrors commute |
| Transforms.HorizontallyFlip.Apply | mmdet/datasets/pipelines/transforms_custom.py:321-327 | the stage leaves the record `Flipped` describes, for the left-right axis |
| Transforms.RandomHorizontallyFlip.Apply | mmdet/datasets/pipelines/transforms_custom.py:333-339 | the stage leaves the record `RandomlyFlipped` describes for its draw |
| Transforms.VerticalFlip.Apply | mmdet/datasets/pipelines/transforms_custom.py:344-349 | the stage leaves the record `Flipped` describes, for the top-bottom axis |
| Transforms.RandomVerticalFlip.Apply | mmdet/datasets/pipelines/transforms_custom.py:356-362 | the stage leaves the record `RandomlyFlipped` describes for its draw |
| Transforms.Rotated | mmdet/datasets/pipelines/transforms_custom.py:371-377 | rotation turns every present layer (bicubic for the image, nearest otherwise); the counter becomes the integer old + degree (a bool counter adding as 0 or 1), with no modulo, or degree when absent; no other key changes |
| Transforms.NotRotated | mmdet/datasets/pipelines/transforms_custom.py:390-391 | a rotation that does not fire keeps every layer and every key, whatever the record holds; the counter keeps its value, whatever its type, or becomes 0 when absent |
| Transforms.RandomlyRotated | mmdet/datasets/pipelines/transforms_custom.py:386-392 | RandomRotate rotates exactly when the draw is below 0.5; only then does it need the image and a numeric counter |
| Transforms.RotatedAll | mmdet/datasets/pipelines/transforms_custom.py:371-377 | a chain of rotations keeps the image present and the counter a number |
| Transforms.RotationsAccumulate | mmdet/datasets/pipelines/transforms_custom.py:376 | after a chain of rotations the counter is the old counter plus the sum of their degrees |
| Transforms.FourQuarterTurns | mmdet/datasets/pipelines/transforms_custom.py:376 | four quarter turns add 360 to the counter; it is not reduced modulo 360 |
| Transforms.RotateStage.constructor | mmdet/datasets/pipelines/transforms_custom.py:367-369 | the degree must be 90, 180 or 270 |
| Transforms.RotateStage.Apply | mmdet/datasets/pipelines/transforms_custom.py:371-377 | the stage leaves the record `Rotated` describes |
| Transforms.RandomRotate.constructor | mmdet/datasets/pipelines/transforms_custom.py:382-384 | the degree must be 90, 180 or 270 |
| Transforms.RandomRotate.Apply | mmdet/datasets/pipelines/transforms_custom.py:386-392 | the stage leaves the record `RandomlyRotated` describes for its draw |
| Crops.CroppedTo | mmdet/datasets/pipelines/transforms_custom.py:243-247 | the final crop cuts every present layer to one box of the box's size, adds no layer, and sets `img_shape` |
| Crops.CropLayers | mmdet/datasets/pipelines/transforms_custom.py:243-246 | cropping the image and then looping over the labels cuts every present layer to the box |
| Crops.CentreBox | mmdet/datasets/pipelines/transforms_custom.py:154-159 | the centre box has the configured size |
| Crops.CenterCropped | mmdet/datasets/pipelines/transforms_custom.py:152-165 | exactly the layers present before are present after, each at the configured size; `img_shape` is that size; no other key changes |
| Crops.CentreBoxTakesMiddle | mmdet/datasets/pipelines/transforms_custom.py:154-159 | when the crop fits, its margins differ by at most one on each axis and its pixels are the image's |
| Crops.CenterCropTakesMiddle | mmdet/datasets/pipelines/transforms_custom.py:152-162 | every layer the size of the image is cut to its own middle |
| Crops.CenterCrop.Apply | mmdet/datasets/pipelines/transforms_custom.py:152-165 | the stage leaves the record `CenterCropped` describes |
| Crops.PaddedForCrop | mmdet/datasets/pipelines/transforms_custom.py:203-223 | when either border is non-zero, every present layer gets the same border (ignore index in the labels, 0 elsewhere) and the image grows by twice the border; otherwise nothing changes |
| Crops.RandomCropped | mmdet/datasets/pipelines/transforms_custom.py:192-249 | nothing changes, not even `img_shape`, when the image already has the crop size; otherwise no layer is added, `img_shape` becomes the configured size even when `nopad` shrank the crop, and no other key changes |
| Crops.BorderedCrop | mmdet/datasets/pipelines/transforms_custom.py:212-246 | a window in the bordered image reads the original pixel where it overlaps the image and the fill elsewhere |
| Crops.RandomCropSameWindow | mmdet/datasets/pipelines/transforms_custom.py:243-246 | every present layer is bordered and then cut with the one window computed from the image |
| Crops.RandomCropSize | mmdet/datasets/pipelines/transforms_custom.py:195-246 | the output has the configured size, or, with `nopad` and an oversized crop, a square of the image's shorter side |
| Crops.RandomCrop.Apply | mmdet/datasets/pipelines/transforms_custom.py:192-249 | the stage leaves the record `RandomCropped` describes for its draws |
| Crops.RandomCrop.PadForCrop | mmdet/datasets/pipelines/transforms_custom.py:213-223 | the padding loop leaves the record `PaddedForCrop` describes |
| Crops.ScaledForPad | mmdet/datasets/pipelines/transforms_custom.py:299-305 | the optional resize adds no layer and changes no key |
| Crops.PaddedImage | mmdet/datasets/pipelines/transforms_custom.py:293-316 | PadImage adds no layer, sets `img_shape` to (size, size) and changes no other key |
| Crops.ScaledLayersMatch | mmdet/datasets/pipelines/transforms_custom.py:299-305 | after the resize, every layer still has the image's size |
| Crops.PadImageSquare | mmdet/datasets/pipelines/transforms_custom.py:293-316 | every present layer comes out size × size |
| Crops.PadImageKeepsSmall | mmdet/datasets/pipelines/transforms_custom.py:307-313 | an image that fits is not scaled: it sits at the top left of the square, and the right and bottom are filled |
| Crops.PadImageCutsTallImages | mmdet/datasets/pipelines/transforms_custom.py:299-309 | an image taller than wide and taller than the square is scaled by its width only, so the bottom border is negative and rows are cut |
| Crops.TallScalesTall | mmdet/datasets/pipelines/transforms_custom.py:300-301 | scaling a tall image to the square's width leaves a height of at least the square's side |
| Crops.PadImage.Apply | mmdet/datasets/pipelines/transforms_custom.py:293-316 | the stage leaves the record `PaddedImage` describes |
| Crops.PadImage.ScaleDown | mmdet/datasets/pipelines/transforms_custom.py:299-305 | the resize step leaves the record `ScaledForPad` describes |
| Crops.PadImage.PadRightBottom | mmdet/datasets/pipelines/transforms_custom.py:307-313 | writing the image, then the labels, then looping over the other two layers borders every present layer |
| Crops.PadRemainder | mmdet/datasets/pipelines/transforms_custom.py:309-313 | bordering the image and the labels, then looping over the other two layers, borders all four |
| Loading.Channels | mmdet/datasets/pipelines/transforms_custom.py:56-57 | the channel count is the given `n_channels`, or 3 when none is given |
| Loading.AsIndex | mmdet/datasets/pipelines/transforms_custom.py:71-75 | a slice bound must be an int or a bool; anything else raises a TypeError |
| Loading.LabelMap | mmdet/datasets/pipelines/transforms_custom.py:58-68 | a non-string path raises an AttributeError; a bad extension or a missing `rgb2label` fails the assertion; with no label path the map is all zero and the image's size; every label map holds bytes |
| Loading.TilingOf | mmdet/datasets/pipelines/transforms_custom.py:70-73 | tiling happens only when `tile_size`, `h` and `w` are all present, using those three values |
| Loading.EdgeMap | mmdet/datasets/pipelines/transforms_custom.py:82-86 | a label map with no non-zero pixel gets an all-zero edge map of its size |
| Loading.Read | mmdet/datasets/pipelines/transforms_custom.py:53-75 | a missing `img_path` fails the assertion, and so does a label path with a bad extension or without a mapping |
| Loading.LabelsAreBytes | mmdet/datasets/pipelines/transforms_custom.py:58-75 | every label map ReadImage writes, tiled or not, holds values in [0, 256) |
| Loading.NoLabelGivesZeros | mmdet/datasets/pipelines/transforms_custom.py:67-75 | without a label path, the label map is all zero and has the size of the (tiled) image |
| Loading.TileIsCrop | mmdet/datasets/pipelines/transforms_custom.py:70-75 | with integer `h`, `w`, `tile_size` inside the image, the image written is the PIL crop of that square, rows from `h` |
| Loading.Loaded | mmdet/datasets/pipelines/transforms_custom.py:53-89 | a failed read writes nothing; otherwise the image and labels read are written; with `get_edge` an edge map is written unless the check fails; no other key changes |
| Loading.EdgeCheckAsWrittenFails | mmdet/datasets/pipelines/transforms_custom.py:80-81 | as written, the edge branch fails on every record without 'lable_path', after the image and labels were written and without an edge map |
| Loading.EdgeMapWithLabelPath | mmdet/datasets/pipelines/transforms_custom.py:80-87 | with the check for 'label_path', the edge branch passes and writes the edge map of the labels, zero when they are all zero |
| Loading.ReadImage.constructor | mmdet/datasets/pipelines/transforms_custom.py:50-51 | the stage keeps its `get_edge` setting |
| Loading.ReadImage.Apply | mmdet/datasets/pipelines/transforms_custom.py:53-89 | the stage leaves the record and raises the exception that `Loaded` describes (edge check on 'label_path') |
| Cityscapes.JoinPrefix | mmdet/datasets/cityscapes_seg.py:63-67 | a prefix is joined onto the data root exactly when the root is given and the prefix is given and relative; otherwise it is unchanged |
| Cityscapes.ImageIds | mmdet/datasets/cityscapes_seg.py:98-103 | there is one id per line of the list's text after newline translation |
| Cityscapes.ImageIdsAreStrippedLines | mmdet/datasets/cityscapes_seg.py:98-103 | the number of ids is the number of newlines (after newline translation), plus one for an unterminated last line, and every id is a stripped line with no newline and no whitespace at either end |
| Cityscapes.ReadImglist | mmdet/datasets/cityscapes_seg.py:98-103 | the reading loop returns exactly `ImageIds` |
| Cityscapes.InfoField | mmdet/datasets/cityscapes_seg.py:92-93 | an entry holds exactly the keys id, filename, img_path, width, height |
| Cityscapes.FileNameRoundTrip | mmdet/datasets/cityscapes_seg.py:88-93 | an entry's file name has the extension "jpg" and the entry's id as its stem, whatever dots the id contains |
| Cityscapes.Annotations | mmdet/datasets/cityscapes_seg.py:84-95 | there is one entry per id, in order, each with that id |
| Cityscapes.LoadAnnotations | mmdet/datasets/cityscapes_seg.py:84-95 | the loading loop returns exactly `Annotations` |
| Cityscapes.KeptIndices | mmdet/datasets/cityscapes_seg.py:119-125 | the filter returns, in increasing order, exactly the indices whose `min(width, height)` reaches the minimum size |
| Cityscapes.FilterImgs | mmdet/datasets/cityscapes_seg.py:119-125 | the filtering loop returns exactly `KeptIndices` |
| Cityscapes.Select | mmdet/datasets/cityscapes_seg.py:75 | the selection takes the entries at the indices, in their order |
| Cityscapes.Kept | mmdet/datasets/cityscapes_seg.py:73-75 | every entry kept for training is at least 32 pixels on each side |
| Cityscapes.RatioAboveOne | mmdet/datasets/cityscapes_seg.py:136 | for a positive height, `width / height > 1` holds exactly when width > height |
| Cityscapes.GroupFlags | mmdet/datasets/cityscapes_seg.py:133-137 | the flag loop gives an array with one flag per entry: 1 for landscape entries, 0 otherwise |
| Cityscapes.PyIndex | mmdet/datasets/cityscapes_seg.py:106 | a list index is valid exactly in [-n, n), and a negative one counts from the end |
| Cityscapes.PipelineFields | mmdet/datasets/cityscapes_seg.py:113-117 | `pre_pipeline` sets exactly the two prefixes and two empty field lists, and keeps every other key |
| Cityscapes.EntryFields | mmdet/datasets/cityscapes_seg.py:152-158 | the record built from an entry has exactly the keys img_path, label_path, img_id, h (the height), w (the width), num_classes |
| Cityscapes.PreparedRecord | mmdet/datasets/cityscapes_seg.py:152-159 | the record handed to the pipeline has no layer, the entry's six keys, `pre_pipeline`'s four, and no other key |
| Cityscapes.CityscapeSegmentation.constructor | mmdet/datasets/cityscapes_seg.py:47-81 | the prefixes are joined, the entries loaded, filtered in training only, and in training every entry has a group flag; there are 8 classes |
| Cityscapes.CityscapeSegmentation.SetGroupFlag | mmdet/datasets/cityscapes_seg.py:127-137 | the flag array gets one flag per entry, 1 exactly where width / height > 1, and no other field changes |
| Cityscapes.CityscapeSegmentation.Len | mmdet/datasets/cityscapes_seg.py:139-140 | in training the length equals the number of group flags |
| Cityscapes.CityscapeSegmentation.GetAnnInfo | mmdet/datasets/cityscapes_seg.py:105-111 | an index out of range raises an IndexError and a None label prefix a TypeError; otherwise the label file is found |
| Cityscapes.CityscapeSegmentation.AnnotationNamesMatch | mmdet/datasets/cityscapes_seg.py:105-111 | the label file is the id with the extension "png", its stem is the image's id, and it sits under the label prefix |
| Cityscapes.CityscapeSegmentation.PrePipeline | mmdet/datasets/cityscapes_seg.py:113-117 | the record changes by `PipelineFields` and nothing else |
| Cityscapes.CityscapeSegmentation.TrainRecord | mmdet/datasets/cityscapes_seg.py:149-159 | the training record fails exactly where `get_ann_info` fails; otherwise it is the entry's record, with the label path from `get_ann_info` |
| Cityscapes.CityscapeSegmentation.TrainRecordLacksMapping | mmdet/datasets/cityscapes_seg.py:152-158 | a training record this dataset builds has a label path but no `rgb2label` (the dataset never sets one), so ReadImage fails its assertion on it unless a stage before it adds the mapping |
| Cityscapes.CityscapeSegmentation.PrepareTrainImg | mmdet/datasets/cityscapes_seg.py:149-160 | the method returns `TrainRecord` |
| Cityscapes.CityscapeSegmentation.TestRecordAsWrittenFails | mmdet/datasets/cityscapes_seg.py:163-167 | as written, every test lookup fails: a KeyError for 'img_id' in range, an IndexError out of range |
| Cityscapes.CityscapeSegmentation.TestRecord | mmdet/datasets/cityscapes_seg.py:163-172 | with the id read from 'id', the test record fails only out of range; otherwise it is the entry's record with no label path |
| Cityscapes.CityscapeSegmentation.TestRecordThroughReadImage | mmdet/datasets/cityscapes_seg.py:163-172 | ReadImage reads a test record; its labels are all zero and the image's size; with `get_edge`, the check as written fails and the intended check writes a zero edge map |
| Cityscapes.CityscapeSegmentation.PrepareTestImg | mmdet/datasets/cityscapes_seg.py:163-173 | the method returns the corrected `TestRecord` |
| Cityscapes.CityscapeSegmentation.GetItem | mmdet/datasets/cityscapes_seg.py:142-146 | `__getitem__` takes the test path exactly in test mode, returning the corrected test record; the test record as written always fails, with a KeyError for `img_id` on a valid index |

## Left out

- Pixels: a pixel is one integer. The channels of an RGB image are not modelled separately, and
  the image and the labels are cropped, padded and flipped alike.
- PIL and other libraries:
  - `Image.rotate` and `Image.resize` are given functions. Only their sizes are assumed where a
    lemma needs them (`ResizesExactly`).
  - `read_image`, `color2class`, `mask_to_onehot` and `onehot_to_binary_edges` are given
    functions too, gathered in `Loading.Readers`.
- Files and paths:
  - `Image.open(path).size` in `load_annotations` is a parameter.
  - So is the file opened in `read_imglist`, whose contents are passed instead of the name.
    The one-element tuple that `self.imglist_name = imglist_name,` builds (read back with
    `[0]`) is therefore not modelled.
  - `os.path.join` and `os.path.isabs` are parameters (`Cityscapes.PathOps`).
- Randomness: the values `random.random()` and `random.randint` returned are parameters,
  constrained to the ranges those calls return.
- Floating point:
  - PadImage's height `int(h * (tw / float(w)))` is taken as the exact integer quotient
    `h * size / w`. The float product can round one unit differently.
  - `_set_group_flag` compares an exact rational `width / height` with 1.
  - CenterCrop's `round((w - tw) / 2.0)` is exact, because a half-integer is representable.
- The pipeline itself:
  - `__getitem__`, `prepare_train_img` and `prepare_test_img` return the record handed to
    `self.pipeline`, not the pipeline's output. `Compose`, the registries and the
    `Dataset` base class are not part of this model.
- Other stages: `ToPilImage`, `ToArray`, `Resize`, `ResizeImg`, `RandomSizeAndCrop` and the blur
  stages of the same file are outside the modelled core.
- The group flag is `np.uint8` in the source and an `int` array here. In test mode the source
  never creates `flag`; here it is an empty array.
- Cityscapes.CityscapeSegmentation.constructor: requires an image prefix whenever the list names
  an image. In that case the source raises a TypeError from `os.path.join`, which a constructor
  cannot return.
- Cityscapes.CityscapeSegmentation.SetGroupFlag: requires positive heights. The source raises
  ZeroDivisionError on a zero height. The constructor meets this requirement, because every entry
  kept for training is at least 32 pixels high.
- Cityscapes.CityscapeSegmentation.Len: states nothing about the flags in test mode, where the
  source has none.
- Crops.CenterCrop.Apply, Crops.RandomCrop.Apply: require the record to hold `img`. The source
  raises a KeyError without it.
- Crops.PadImage.Apply: requires `img` and `gt_semantic_seg`, where the source raises a
  KeyError without them. It also requires a non-zero width when scaling (the source raises
  ZeroDivisionError) and a border that leaves a non-negative canvas (PIL raises).
- Transforms.RotateStage.Apply: requires `img` (the source raises a KeyError without it) and a
  `rotate` counter that is an int or a bool, which Python adds as 0 or 1. A float counter is not
  modelled, since the record holds no floats; any other value makes the addition raise a TypeError.
- Transforms.RandomRotate.Apply, Transforms.RandomlyRotated: need `img` and a numeric counter
  only when the draw fires, for the same reasons. A draw that does not fire accepts any record.
- Cityscapes.ImageIds, Text.Lines: take the list file's text after Python's newline translation.
  Reading in text mode turns '\r' and "\r\n" into '\n' before lines are split, so a lone '\r' in
  the text given here does not end a line. The translation itself is not modelled.
- Cityscapes.CityscapeSegmentation.GetItem: in test mode returns the corrected test record
  (`TestRecord`). The record as written (`TestRecordAsWritten`) is the one the source builds, and
  the method's contract states that it fails.
- Transforms.RandomHorizontallyFlip.Apply, Transforms.RandomVerticalFlip.Apply,
  Transforms.RandomRotate.Apply: the draw is a parameter in [0, 1), as `random.random()`
  returns.

## Findings

| source | as written | input that shows it | evidently intended | confidence | as-written member | corrected member |
|---|---|---|---|---|---|---|
| mmdet/datasets/cityscapes_seg.py:167 | `prepare_test_img` reads `img_info['img_id']`, but `load_annotations` stores the id under `'id'` | any test-mode dataset with at least one image, and `dataset[0]` | read `img_info['id']`, as `prepare_train_img` does | high (not executed) | Cityscapes.CityscapeSegmentation.TestRecordAsWrittenFails | Cityscapes.CityscapeSegmentation.TestRecord |
| mmdet/datasets/pipelines/transforms_custom.py:81 | `ReadImage(get_edge=True)` asserts `'lable_path' in results`, a key no record contains | any record the dataset builds, read with `get_edge=True` | assert `'label_path' in results` | high (not executed) | Loading.EdgeCheckAsWrittenFails | Loading.EdgeMapWithLabelPath |
