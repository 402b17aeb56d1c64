# TN3K data pipeline and segmentation losses, in Dafny

This project models the data and loss core of the SPSS reproduction, a
semi-supervised thyroid-nodule segmentation codebase. The model covers:

- **`tn3kDataSet`** (module `Tn3k`). This is the TN3K loader.
  - The constructor picks a manifest from the split size (`expID` 1, 2 or 3
    selects the 322, 644 or 1289 image split), the mode and the sign.
    It then reads the manifest with `splitlines` and joins every line
    under `root/tn3k/trainval-image`.
  - In test mode it walks `root/tn3k/test-image` instead.
  - It selects the default transform pipeline.
  - `__getitem__` derives the mask path with `str.replace` and the sample
    name with `split('/')[-1]`.
  - The class exists twice in the repository, in `GAN/data/tn3k.py` and
    `semi/code/data/tn3k.py`. The two copies agree statement for statement
    and are modelled once. The table cites the `semi` copy. In the `GAN` copy
    the same code sits at these lines: `__init__` 20-80, `__getitem__` 92-122,
    `__len__` 128 and `get_all_files` 140-145.
  - `Tn3k.DataSet` is the object. Its fields are `mode`, `sign`, `imglist`
    and `transform`, and `New` builds it step by step as `__init__` does.
    `Construct` is the pure description `New` is proved against.
- **`build_dataset`** (module `Factory`). It decides which loaders a run
  configuration builds and what it returns.
- **The losses of `utils/loss.py`** (module `Loss`):
  - the Dice loss, with its `view(size, -1)` reshaping, broadcasting and
    division;
  - the tuple unwrapping shared by the BCE and Dice losses;
  - the BCE + Dice sum;
  - the accumulation loop of the global cosine loss.
- **The `get_test.py` script** (module `TestSplit`). It lists
  `airs/tn3k/test-image/`, keeps path components 6-8 of every file and
  writes them one per line to `airs/tn3k/test.txt`.

Python's library behaviour is written out where the code depends on it, in
modules `Strings` and `Paths`:

- `str.replace`, `str.split` and `str.splitlines` (including `"\r\n"` and
  the other line boundaries);
- `posixpath.join`;
- `os.path.abspath`;
- negative list indices.

File contents, directory walks and image decoding are inputs (`Tn3k.Env`).

Four behaviours of the code worth knowing:

- **Indexing.** `__getitem__` accepts Python's negative indices. An index
  outside `[-len, len)` fails, not just one outside `[0, len)`.
- **`expID` outside 1-3 in training mode.** This is not a bad-path failure at
  file-open time. It is an `UnboundLocalError` on `imgfile` before anything
  is opened.
- **Unlabeled sample without a transform.** This returns `None`, not an
  image.
- **Unknown mode.** This leaves `imglist` unset, so `len` and indexing raise
  `AttributeError`.

## Model

| member | source | states |
|---|---|---|
| Tn3k.Construct | semi/code/data/tn3k.py:9-72 | A built loader keeps the given mode and sign. Its transform is the supplied one, or else the default. `imglist` stays unset exactly for a mode outside train/valid/test. Only train and valid construction can fail. |
| Tn3k.ManifestConstruction | semi/code/data/tn3k.py:15-41 | For valid mode, or train mode with expID 1, 2 or 3, the listing comes from a manifest file. Construction succeeds exactly when that file can be read. Otherwise it fails with CannotOpen on that file. |
| Tn3k.DataSet.New | semi/code/data/tn3k.py:9-72 | The statement-by-statement constructor. It succeeds exactly when `Construct` does and fails with the same error. On success it yields a fresh object whose four fields are `Construct`'s result. |
| Tn3k.DataSet.constructor | semi/code/data/tn3k.py:10-12 | After allocation only `mode` and `sign` are set: `imglist` is unset and `transform` holds None until `New` assigns it. |
| Tn3k.DataSet.GetAllFiles | semi/code/data/tn3k.py:115-124 | The nested loop returns `abspath(join(root, file))` for every file the walk yields, in walk order. |
| Tn3k.DefaultTransform | semi/code/data/tn3k.py:47-71 | There is a default pipeline exactly for labeled training, unlabeled training, validation and test. Each starts with Resize(320, 320) and ends with ToTensor. RandomZoom(0.9, 1.1) is present exactly in labeled training. |
| Tn3k.UnlabeledPipelineOmitsZoom | semi/code/data/tn3k.py:49-66 | The unlabeled training pipeline is the labeled one with the zoom step removed. It uses torchvision steps instead of the paired-transform steps. |
| Tn3k.LabeledManifests | semi/code/data/tn3k.py:16-22 | Labeled training with expID 1, 2 or 3 reads `322/`, `644/` or `1289/labeled.txt` under `root/data/splits/tn3k`. |
| Tn3k.UnlabeledManifests | semi/code/data/tn3k.py:27-33 | Training with any sign other than "label" reads the matching `unlabeled.txt`. |
| Tn3k.ValidIgnoresExpId | semi/code/data/tn3k.py:37-38 | Validation reads `val.txt` whatever the expID and sign. |
| Tn3k.BadExpIdFails | semi/code/data/tn3k.py:15-24 | In training mode an expID outside 1-3 raises UnboundLocalError on `imgfile`. |
| Tn3k.ManifestListing | semi/code/data/tn3k.py:24-41 | Train and valid loaders list the manifest lines in order, each joined under `root/tn3k/trainval-image`. The loader's length is the number of lines. |
| Tn3k.TestListing | semi/code/data/tn3k.py:42-44 | A test loader never fails. It lists one path per walked file, in walk order, so its length is the number of files. All paths are absolute when the working directory is. |
| Tn3k.UnknownModeLeavesListUnset | semi/code/data/tn3k.py:111-113 | For a mode outside train/valid/test, construction succeeds without `imglist`. `len` and indexing then raise AttributeError. |
| Tn3k.TwoLineManifest | semi/code/data/tn3k.py:24-26 | Example: a default loader with expID 1 and manifest "a\nb\n" lists `root/tn3k/trainval-image/a`, then `.../b`. |
| Tn3k.PyIndex | semi/code/data/tn3k.py:77 | A list index is valid exactly when it lies in `[-n, n)`. A negative index counts from the end. |
| Tn3k.Item | semi/code/data/tn3k.py:74-109 | Error cases: an unset list raises AttributeError and an invalid index raises IndexError. Only unlabeled training yields a bare image, and that is `None` without a transform. Every other configuration yields the labeled record: its name is the last '/'-component of the image path, both files must decode, and its label is the transformed mask at the rewritten path. For a valid index: unlabeled training fails exactly when the image does not open, with CannotOpen on its path, and otherwise yields the transformed RGB image. Every other configuration fails exactly when the image or the mask does not open, with CannotOpen on the first of the two that fails, and otherwise yields the RGB image, transformed when a transform is set. |
| Tn3k.ManifestSample | semi/code/data/tn3k.py:98-109 | For a labeled-training or validation loader, sample k of a readable manifest is the record of the transformed RGB image `root/tn3k/trainval-image/l`, the transformed grey mask `root/tn3k/trainval-mask/l` and the name of `l`. Here `l` is line k, and its image and mask both open. |
| Tn3k.MaskPathReplacesToken | semi/code/data/tn3k.py:85 | When the image token occurs exactly once, the mask path swaps just that occurrence ("test-image" to "test-mask" in test mode, "trainval-image" to "trainval-mask" otherwise). Everything else is kept. |
| Tn3k.TrainvalImagePathShape | semi/code/data/tn3k.py:26 | A manifest image path is `root/tn3k/trainval-image/line`, with the directory token at its end. |
| Tn3k.ReplaceTrailingToken | semi/code/data/tn3k.py:100 | When a path's only `trainval-image` ends its directory part, `replace` rewrites just that directory name. |
| Tn3k.ManifestMaskPath | semi/code/data/tn3k.py:100 | In train and valid mode, the mask of manifest line `l` is `root/tn3k/trainval-mask/l` when the token occurs only as that directory. |
| Tn3k.ManifestMaskPathInjective | semi/code/data/tn3k.py:100 | Under the same condition, two manifest lines with the same mask path are the same line. |
| Tn3k.MaskPathInjectiveAfterToken | semi/code/data/tn3k.py:85-100 | In every mode, including the test mode of walked files, two paths that share a prefix ending in the mode's image token, with the token occurring nowhere else, have the same mask path only when they are the same path. |
| Tn3k.ManifestSampleName | semi/code/data/tn3k.py:107 | The name of a manifest sample is the last component of its manifest line. The root plays no part. |
| Tn3k.SelectTransform | semi/code/data/tn3k.py:47-72 | No contract of its own. A supplied transform is kept, and otherwise the default is used. Its properties are stated by Tn3k.Construct and Tn3k.DefaultTransform. |
| Tn3k.SplitManifest | semi/code/data/tn3k.py:17-33 | No contract of its own. The expID table is stated by Tn3k.LabeledManifests, Tn3k.UnlabeledManifests and Tn3k.BadExpIdFails. |
| Tn3k.Source | semi/code/data/tn3k.py:15-44 | No contract of its own. Where the list comes from in each mode is stated by Tn3k.ManifestConstruction, Tn3k.ValidIgnoresExpId, Tn3k.TestListing and Tn3k.UnknownModeLeavesListUnset. |
| Tn3k.Length | semi/code/data/tn3k.py:111-113 | No contract of its own. It is stated by Tn3k.ManifestListing, Tn3k.TestListing and Tn3k.UnknownModeLeavesListUnset. |
| Tn3k.MaskPath | semi/code/data/tn3k.py:85 | No contract of its own. It is stated by Tn3k.MaskPathReplacesToken and Tn3k.ManifestMaskPath. |
| Tn3k.DataSet.Len | semi/code/data/tn3k.py:111-113 | No contract of its own. It is `Tn3k.Length` of the object's fields, which Tn3k.DataSet.New ties to `Construct`. |
| Tn3k.DataSet.GetItem | semi/code/data/tn3k.py:74-109 | No contract of its own. It is `Tn3k.Item` of the object's fields, whose contract states the sample and the errors. |
| Factory.Build | semi/code/data/build_dataset.py:3-24 | A dataset other than "tn3k" leaves the returned variable unbound. Manner "test" returns one test loader. Any other manner returns (labeled train, unlabeled train or None, valid). The unlabeled loader is present exactly for "semi" and "self". |
| Factory.TestMannerBuildsTestLoader | semi/code/data/build_dataset.py:12-15 | In test manner the result is exactly the test loader for the configured root and expID. |
| Factory.TrainingMannerBuildsTriple | semi/code/data/build_dataset.py:16-24 | In any other manner the build succeeds exactly when the returned loaders can be built. The result is those loaders, and the test loader built alongside is dropped. |
| Factory.CallsCarryConfiguration | semi/code/data/build_dataset.py:14-23 | Every loader gets the configured root and expID and no transform. Only the two training loaders get the configured ratio; the others get 10. |
| Factory.RatioIgnored | semi/code/data/tn3k.py:9 | The constructor's result does not depend on `ratio`. |
| Loss.Unwrap | semi/code/utils/loss.py:48-49 | No contract of its own. It is stated by Loss.TupleUsesFirstElement. |
| Loss.RowScore | semi/code/utils/loss.py:58 | No contract of its own. It is stated by Loss.RowScoreInUnit, Loss.RowScoreFinite and Loss.BroadcastLossBelowZero. |
| Loss.DiceLoss | semi/code/utils/loss.py:37-61 | No contract of its own. It is stated by Loss.DiceLossOfRows, Loss.DiceLossInUnit, Loss.DiceLossFinite, Loss.DiceUsesTargetBatch and the worked examples. |
| Loss.CosineLoss | semi/code/utils/loss.py:90-109 | No contract of its own. It is the value Loss.GlobalCosineForward is proved to return, bounded by Loss.WeightedTermsBounds. |
| Loss.View | semi/code/utils/loss.py:54-55 | `view(size, -1)` succeeds exactly when `size > 0` and divides the element count. It then gives `size` rows of equal width. |
| Loss.ChunksConcat | semi/code/utils/loss.py:54-55 | The rows of a view concatenate back to the data, with nothing lost or reordered. |
| Loss.RowProduct | semi/code/utils/loss.py:57 | `pred_flat * target_flat` for one sample. It is defined exactly when the widths are equal or one of them is 1. A width-1 row is broadcast against the other: the result has the other row's width, and entry i is the product of the entries at i, where a width-1 row always supplies its single entry. |
| Loss.BceLoss | semi/code/utils/loss.py:10-30 | Each operand is viewed with its own batch size. When both views succeed, a mismatch of shape is a ShapeError. With matching shapes, a prediction entry outside [0, 1] is a RangeError. A value comes only from predictions in [0, 1], and it is `bce` of the two views. |
| Loss.BceDiceLoss | semi/code/utils/loss.py:70-81 | The sum succeeds exactly when both losses do. A BCE error is reported first. When BCE succeeds and Dice fails, the Dice error is reported. A finite Dice value is added to the BCE value with weight 1. |
| Loss.TupleUsesFirstElement | semi/code/utils/loss.py:21-22 | A tuple prediction is scored by its first element by each of the three losses. An empty tuple is an IndexError. |
| Loss.DiceUsesTargetBatch | semi/code/utils/loss.py:52-55 | Both operands of the Dice loss are reshaped with the target's batch size. The prediction's own batch size plays no part. |
| Loss.OverlapBound | semi/code/utils/loss.py:57-58 | For two rows of equal width with entries in [0, 1], twice the summed overlap is at most the summed prediction plus the summed target. |
| Loss.RowScoreInUnit | semi/code/utils/loss.py:58 | For two rows of equal width with entries in [0, 1], each smoothed per-sample Dice score is finite and lies in (0, 1]. |
| Loss.RowScoreFinite | semi/code/utils/loss.py:58 | Non-negative inputs never make the smoothed denominator zero. |
| Loss.ScoresInUnit | semi/code/utils/loss.py:58-59 | For n pairs of rows of equal width with entries in [0, 1], the scores exist and their sum lies in [0, n]. It is positive when n > 0. |
| Loss.ScoresFinite | semi/code/utils/loss.py:58-59 | Non-negative rows give a finite score sum. |
| Loss.DiceLossFinite | semi/code/utils/loss.py:37-61 | With non-negative inputs, a Dice loss that is defined is finite. |
| Loss.DiceLossInUnit | semi/code/utils/loss.py:37-61 | For equal-size inputs in [0, 1] that the target batch divides, the Dice loss is defined and lies in [0, 1). |
| Loss.DiceLossOfRows | semi/code/utils/loss.py:59 | The loss is 1 minus the summed scores divided by the target's batch size. |
| Loss.DiceOfConstants | semi/code/utils/loss.py:50-59 | For uniform tensors whose sample rows each score s, the Dice loss is 1 - s. |
| Loss.DiceOfIdenticalOnes | semi/code/utils/loss.py:50-59 | An all-ones prediction against an all-ones target has Dice loss exactly 0. |
| Loss.BroadcastLossBelowZero | semi/code/utils/loss.py:57-59 | Example: a one-element prediction broadcast against a two-element target of value 1 scores 5/4, so the Dice loss is -1/4. The [0, 1) bound needs rows of equal width. |
| Loss.DiceOfDisjoint | semi/code/utils/loss.py:50-59 | An all-ones prediction against an all-zeros target has Dice loss 1 - 1/(w+1) for samples of w elements. It is not 1, because of the smoothing term. |
| Loss.GlobalCosineForward | semi/code/utils/loss.py:90-109 | The loop returns the weighted sum of the per-pair terms over `range(len(a))`, whichever `stop_grad` is. It raises IndexError when `b` or `weight` is shorter than `a`. |
| Loss.CosineOfNothing | semi/code/utils/loss.py:101-102 | No feature maps give loss 0. |
| Loss.CosineOfIdentical | semi/code/utils/loss.py:101-109 | Identical feature lists, whose terms are 0, give loss 0. |
| Loss.WeightedTermsBounds | semi/code/utils/loss.py:101-109 | With terms in [0, 2] (1 minus a cosine) and non-negative weights, the loss lies between 0 and twice the weight sum. |
| TestSplit.Entry | data/splits/tn3k/get_test.py:25-26 | No contract of its own. It is stated by TestSplit.EntryKeepsComponentsSixToEight and TestSplit.EntryIgnoresOtherComponents. |
| TestSplit.Reformatted | data/splits/tn3k/get_test.py:24-27 | No contract of its own. It is stated by TestSplit.Reformat and TestSplit.TopLevelFileFails. |
| TestSplit.Lines | data/splits/tn3k/get_test.py:30-32 | No contract of its own. It is stated by TestSplit.WriteLines, TestSplit.LinesCons and TestSplit.ReadBack. |
| TestSplit.ListFilesInDirectory | data/splits/tn3k/get_test.py:3-18 | The nested loop returns `join(root, file)` for every walked file, in walk order, without making paths absolute. |
| TestSplit.ListingIsRelative | data/splits/tn3k/get_test.py:14-17 | A walk of relative directories and relative names lists only relative paths. |
| TestSplit.Reformat | data/splits/tn3k/get_test.py:24-27 | If every path has at least nine '/'-components, the result is one entry per path, in order: components 6, 7 and 8 joined by '/'. Otherwise it is IndexError. |
| TestSplit.EntryKeepsComponentsSixToEight | data/splits/tn3k/get_test.py:25-26 | An entry splits back into exactly components 6-8 of its path. |
| TestSplit.EntryIgnoresOtherComponents | data/splits/tn3k/get_test.py:26 | Two paths that agree on components 6-8 give the same entry. |
| TestSplit.FourComponents | data/splits/tn3k/get_test.py:20 | A path of three '/'-free directory names and a '/'-free file name splits into exactly those four components. |
| TestSplit.TopLevelFileFails | data/splits/tn3k/get_test.py:20-26 | A file directly inside `airs/tn3k/test-image/` has four components, so reformatting stops with IndexError. |
| TestSplit.WriteLines | data/splits/tn3k/get_test.py:30-32 | The loop writes each entry followed by "\n", in order. |
| TestSplit.LinesCons | data/splits/tn3k/get_test.py:31-32 | The written text of a list is its first entry and "\n", followed by the text of the rest. |
| TestSplit.ReadBack | data/splits/tn3k/get_test.py:30-32 | Reading the written file back with `splitlines`, as the loader reads manifests, gives back the entries, provided none holds a line break. |
| TestSplit.GetTest | data/splits/tn3k/get_test.py:20-32 | The script stops with IndexError before opening the output when a listed path is too short. Otherwise it stops with the open error when `airs/tn3k/test.txt` cannot be opened for writing, or writes the serialized entries there. |
| Strings.Replace | semi/code/data/tn3k.py:100 | No contract of its own. It is stated by Strings.ReplaceWithoutMatch and Strings.ReplaceUniqueMatch. |
| Strings.ReplaceWithoutMatch | semi/code/data/tn3k.py:100 | With no occurrence, `replace` returns its input. |
| Strings.ReplaceFirstMatch | semi/code/data/tn3k.py:100 | At the first occurrence of the pattern, `replace` keeps the text before it, substitutes it, and goes on replacing in the rest. So every occurrence the scan meets is replaced, not just the first. |
| Strings.ReplaceUniqueMatch | semi/code/data/tn3k.py:100 | With exactly one occurrence at k, `replace` substitutes it and keeps the text around it. |
| Strings.Split | data/splits/tn3k/get_test.py:25 | `str.split(sep)` gives at least one piece, and no piece holds the separator. |
| Strings.JoinSplit | data/splits/tn3k/get_test.py:25-26 | Joining the pieces of a split with the separator gives back the string. |
| Strings.SplitJoin | data/splits/tn3k/get_test.py:25-26 | Splitting a join of separator-free pieces gives back the pieces. |
| Strings.LastComponent | semi/code/data/tn3k.py:107 | No contract of its own. It is stated by Strings.LastComponentIsTextAfterLastSlash and Strings.LastComponentAfterSlash. |
| Strings.LastComponentIsTextAfterLastSlash | semi/code/data/tn3k.py:107 | `split('/')[-1]` is the '/'-free suffix after the last '/', or the whole path when there is none. |
| Strings.LastComponentAfterSlash | semi/code/data/tn3k.py:107 | The last component of `a + "/" + b` is that of `b`. |
| Strings.LineEnd | semi/code/data/tn3k.py:25 | Gives the position of the first line boundary, or the length if there is none. |
| Strings.SplitLines | semi/code/data/tn3k.py:25 | `str.splitlines()` yields lines that contain no boundary character. |
| Strings.SplitLinesOfNewlineTerminated | semi/code/data/tn3k.py:25 | A break-free line followed by "\n" splits off as that line. |
| Strings.SplitLinesCrLf | semi/code/data/tn3k.py:25 | A break-free line followed by "\r\n" splits off as that line: the pair is one boundary, not two. |
| Strings.SplitLinesOfOneLine | semi/code/data/tn3k.py:25 | A non-empty text without boundaries is one line. |
| Strings.BoundaryWidth | semi/code/data/tn3k.py:25 | A boundary is one or two characters long and lies inside the text. |
| Strings.LineEndAt | semi/code/data/tn3k.py:25 | The first boundary of a break-free line followed by a break is right after the line. |
| Strings.SplitLinesKeepEnds | semi/code/data/tn3k.py:25 | No contract of its own. It is `splitlines(keepends=True)`, the reference that Strings.KeepEndsRejoin and Strings.SplitLinesDropsBoundaries relate `splitlines()` to. |
| Strings.KeepEndsRejoin | semi/code/data/tn3k.py:25 | The lines with their boundaries kept concatenate back to the text, so no character is lost or reordered. |
| Strings.SplitLinesDropsBoundaries | semi/code/data/tn3k.py:25 | `splitlines()` gives as many lines as the keepends form. Each line is its keepends counterpart with the boundary removed. That boundary is one break character or "\r\n", and only the last line may lack it. |
| Paths.AbsPath | semi/code/data/tn3k.py:122 | `abspath` keeps an absolute path. It makes a relative one absolute when the working directory is. |
| Paths.PathJoin | semi/code/data/tn3k.py:26 | No contract of its own. It is stated by Paths.JoinRelative. |
| Paths.JoinRelative | semi/code/data/tn3k.py:26 | Joining a relative name onto a directory keeps the directory as a prefix and the name as a suffix. |
| Paths.ListedFilesCount | semi/code/data/tn3k.py:120-123 | The listing holds exactly one path per file name the walk yields. |
| Paths.AbsPaths | semi/code/data/tn3k.py:120-123 | `abspath` of each listed path keeps the count. All results are absolute when the working directory is. |

## Left out

- File reading, image decoding and directory walking are inputs, not
  effects. `Image.open(...).convert(mode)` is a tag (`Decoded(path, colour)`)
  and is not decoded pixels. Its only failure is a path outside
  `Env.images`.
- The transform pipelines are modelled as their lists of steps and the
  library each step comes from. What a step does to pixels, and the shared
  random draw with which paired steps transform image and mask alike, are
  not modelled. `utils/mytransforms` is not part of this model.
- A transform the caller supplies is taken to be truthy, as every callable
  is. A falsy callable object is not modelled.
- Paths.AbsPath: does not apply the `normpath` that `os.path.abspath`
  performs, so "." and ".." components and doubled '/' are kept as they are.
- `os.walk` is its output. Its top-down order and the pruning of
  sub-directories are taken as given.
- Whether `airs/tn3k/test.txt` can be opened for writing is an input of
  `TestSplit.GetTest`. The distinction between FileNotFoundError and
  PermissionError is folded into one `OpenError`, and a failure part-way
  through writing is not modelled.
- Loss.BceDiceLoss: the BCE value itself is a parameter, `bce`. The model
  keeps its reshaping, shape check, range check of the prediction and error
  order, but not its logarithms.
- Loss.View: a non-contiguous tensor, on which `view` raises, is not
  modelled. Every tensor is contiguous row-major data.
- Loss.GlobalCosineForward: each term, `mean(1 - cosine_similarity(...))` of
  one flattened pair of feature maps, is a parameter, `term`. Failures
  inside a term (unviewable feature maps) are not modelled. `detach()` only
  affects gradients, so both branches compute the same value.
- Gradients, devices and the PyTorch autograd graph are not modelled.
- Floating point is modelled as exact reals, so rounding is not modelled.
  A zero denominator, impossible for non-negative inputs, is the value
  `NonFinite` (PyTorch gives inf or nan).
- Loss.View: `size(0)` of a 0-dimensional tensor is not modelled. Every
  tensor has a batch size.
- The `ratio` argument and the `json` import are unused by the loader. The
  model proves the first (`Factory.RatioIgnored`) and leaves the second out.
- Factory.Build: the training manner also constructs a test loader and
  discards it. Building a test loader cannot fail in the model, so that call
  is not repeated in `Build`.
- Tn3k.DataSet.New: it returns `Failure` instead of a half-initialised
  object when `__init__` raises. In Python the object with `mode` and
  `sign` set is unreachable after the exception.
- `GAN/models/mlp.py` and `semi/code/utils/save_img.py` are not part of
  this model.
