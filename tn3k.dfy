/**
 * The TN3K thyroid-nodule dataset loader `tn3kDataSet`. The repository holds
 * two copies of this class (one for the GAN, one for semi-supervised
 * training) that agree line for line; this module models both.
 *
 * File contents, directory walks and image decoding are inputs (`Env`); what
 * the loader decides from them is modelled exactly: which manifest it reads,
 * how each manifest line becomes an image path, which transform steps it
 * selects, how a mask path and a sample name are derived, and which errors
 * the Python code raises on the way.
 */
module Tn3k {
  import opened Wrappers
  import opened Strings
  import opened Paths

  /** The exceptions the loader raises. */
  datatype Error =
    | UnboundLocal(name: string)       // a local read before any branch assigned it
    | MissingAttribute(name: string)   // an attribute `__init__` never set
    | CannotOpen(path: string)         // `open` or `Image.open` failed
    | IndexOutOfRange(index: int)      // list index outside [-len, len)

  /** What the loader reads from the outside world. */
  datatype Env = Env(
    texts: map<string, string>,          // text files, by path
    trees: map<string, seq<WalkStep>>,   // what `os.walk` yields, by top directory
    images: set<string>,                 // paths `Image.open` can decode
    cwd: string)                         // working directory, for `abspath`

  /** `os.walk(dir)`: a directory it cannot list yields nothing. */
  function Walk(env: Env, dir: string): seq<WalkStep> {
    if dir in env.trees then env.trees[dir] else []
  }

  // ---------------------------------------------------------------------
  // Transform pipelines: only which steps, in which order, from which library.

  /** `utils.mytransforms` steps act on the (image, mask) pair; torchvision
      steps act on one image. */
  datatype Library = MyTransforms | Torchvision

  datatype Op =
    | Resize(height: nat, width: nat)
    | RandomHorizontalFlip
    | RandomVerticalFlip
    | RandomRotation(degrees: nat)
    | RandomZoom(low: real, high: real)
    | RandomCrop(height: nat, width: nat)
    | ToTensor

  datatype Step = Step(lib: Library, op: Op)

  /** A `transforms.Compose` of steps, or a callable the caller supplied. */
  datatype Transform = Compose(steps: seq<Step>) | Supplied(name: string)

  const LabeledTrainSteps: seq<Step> := [
    Step(MyTransforms, Resize(320, 320)),
    Step(MyTransforms, RandomHorizontalFlip),
    Step(MyTransforms, RandomVerticalFlip),
    Step(MyTransforms, RandomRotation(90)),
    Step(MyTransforms, RandomZoom(0.9, 1.1)),
    Step(MyTransforms, RandomCrop(256, 256)),
    Step(MyTransforms, ToTensor)]

  const UnlabeledTrainSteps: seq<Step> := [
    Step(Torchvision, Resize(320, 320)),
    Step(Torchvision, RandomHorizontalFlip),
    Step(Torchvision, RandomVerticalFlip),
    Step(Torchvision, RandomRotation(90)),
    Step(Torchvision, RandomCrop(256, 256)),
    Step(Torchvision, ToTensor)]

  const EvalSteps: seq<Step> := [
    Step(MyTransforms, Resize(320, 320)),
    Step(MyTransforms, ToTensor)]

  function Ops(steps: seq<Step>): (ops: seq<Op>)
    ensures |ops| == |steps|
  {
    seq(|steps|, i requires 0 <= i < |steps| => steps[i].op)
  }

  /** The pipeline `__init__` builds when the caller passes no transform.
      There is one exactly for labeled or unlabeled training and for
      validation and test; every one starts by resizing to 320x320 and ends
      with conversion to a tensor; only labeled training zooms. */
  function DefaultTransform(mode: string, sign: string): (t: Option<Transform>)
    ensures t.Some? <==> (mode == "train" && (sign == "label" || sign == "unlabel")) || mode == "valid" || mode == "test"
    ensures t.Some? ==> t.value.Compose? && |t.value.steps| >= 2
    ensures t.Some? ==> t.value.steps[0].op == Resize(320, 320) && t.value.steps[|t.value.steps| - 1].op == ToTensor
    ensures t.Some? ==> (RandomZoom(0.9, 1.1) in Ops(t.value.steps) <==> mode == "train" && sign == "label")
  {
    if mode == "train" && sign == "label" then
      assert Ops(LabeledTrainSteps)[4] == RandomZoom(0.9, 1.1);
      Some(Compose(LabeledTrainSteps))
    else if mode == "train" && sign == "unlabel" then
      assert Ops(UnlabeledTrainSteps) == [Resize(320, 320), RandomHorizontalFlip, RandomVerticalFlip,
                                          RandomRotation(90), RandomCrop(256, 256), ToTensor];
      Some(Compose(UnlabeledTrainSteps))
    else if mode == "valid" || mode == "test" then
      assert Ops(EvalSteps) == [Resize(320, 320), ToTensor];
      Some(Compose(EvalSteps))
    else None
  }

  /** A supplied transform is kept as given; otherwise the default. */
  function SelectTransform(supplied: Option<Transform>, mode: string, sign: string): Option<Transform> {
    if supplied.Some? then supplied else DefaultTransform(mode, sign)
  }

  /** The unlabeled training pipeline is the labeled one without its zoom step
      (from the single-image library instead of the paired one). */
  lemma UnlabeledPipelineOmitsZoom()
    ensures |LabeledTrainSteps| == 7 && |UnlabeledTrainSteps| == 6
    ensures LabeledTrainSteps[4].op == RandomZoom(0.9, 1.1)
    ensures Ops(UnlabeledTrainSteps) == Ops(LabeledTrainSteps)[..4] + Ops(LabeledTrainSteps)[5..]
    ensures forall i :: 0 <= i < |UnlabeledTrainSteps| ==> UnlabeledTrainSteps[i].lib == Torchvision
    ensures forall i :: 0 <= i < |LabeledTrainSteps| ==> LabeledTrainSteps[i].lib == MyTransforms
  {
    assert Ops(UnlabeledTrainSteps) == [Resize(320, 320), RandomHorizontalFlip, RandomVerticalFlip,
                                        RandomRotation(90), RandomCrop(256, 256), ToTensor];
  }

  // ---------------------------------------------------------------------
  // Where the list of images comes from.

  /** Where `__init__` takes `imglist` from: a manifest file, a directory
      walk, nowhere because `imgfile` was never bound, or nowhere at all
      because the mode matched no branch. */
  datatype Listing = FromManifest(file: string) | FromWalk(dir: string) | UnboundFile | NoList

  /** The experiment-size table: expID 1, 2, 3 select the 322, 644 and 1289
      image splits; no other expID selects anything. */
  function SplitManifest(expID: int, labeled: bool): Option<string> {
    if expID == 1 then Some(if labeled then "data/splits/tn3k/322/labeled.txt" else "data/splits/tn3k/322/unlabeled.txt")
    else if expID == 2 then Some(if labeled then "data/splits/tn3k/644/labeled.txt" else "data/splits/tn3k/644/unlabeled.txt")
    else if expID == 3 then Some(if labeled then "data/splits/tn3k/1289/labeled.txt" else "data/splits/tn3k/1289/unlabeled.txt")
    else None
  }

  function Source(root: string, expID: int, mode: string, sign: string): Listing {
    if mode == "train" then
      match SplitManifest(expID, sign == "label")
      case Some(name) => FromManifest(PathJoin(root, name))
      case None => UnboundFile
    else if mode == "valid" then FromManifest(PathJoin(root, "data/splits/tn3k/val.txt"))
    else if mode == "test" then FromWalk(PathJoin(root, "tn3k/test-image"))
    else NoList
  }

  /** Labeled training reads the labeled manifest of the chosen split. */
  lemma LabeledManifests(root: string)
    ensures Source(root, 1, "train", "label") == FromManifest(PathJoin(root, "data/splits/tn3k/322/labeled.txt"))
    ensures Source(root, 2, "train", "label") == FromManifest(PathJoin(root, "data/splits/tn3k/644/labeled.txt"))
    ensures Source(root, 3, "train", "label") == FromManifest(PathJoin(root, "data/splits/tn3k/1289/labeled.txt"))
  {
  }

  /** Training with any sign other than "label" reads the unlabeled manifest. */
  lemma UnlabeledManifests(root: string, sign: string)
    requires sign != "label"
    ensures Source(root, 1, "train", sign) == FromManifest(PathJoin(root, "data/splits/tn3k/322/unlabeled.txt"))
    ensures Source(root, 2, "train", sign) == FromManifest(PathJoin(root, "data/splits/tn3k/644/unlabeled.txt"))
    ensures Source(root, 3, "train", sign) == FromManifest(PathJoin(root, "data/splits/tn3k/1289/unlabeled.txt"))
  {
  }

  /** Validation reads val.txt whatever the expID and sign. */
  lemma ValidIgnoresExpId(root: string, expID: int, sign: string)
    ensures Source(root, expID, "valid", sign) == FromManifest(PathJoin(root, "data/splits/tn3k/val.txt"))
  {
  }

  // ---------------------------------------------------------------------
  // Construction.

  /** The arguments of `tn3kDataSet(root, expID, mode, ratio, sign, transform)`. */
  datatype Params = Params(root: string, expID: int, mode: string, ratio: int, sign: string, transform: Option<Transform>)

  /** The defaults `mode='train', ratio=10, sign='label', transform=None`. */
  function DefaultParams(root: string, expID: int): Params {
    Params(root, expID, "train", 10, "label", None)
  }

  /** The attributes of a constructed loader; `imglist == None` is the
      attribute never having been set. */
  datatype Fields = Fields(mode: string, sign: string, imglist: Option<seq<string>>, transform: Option<Transform>)

  /** `os.path.join(root, 'tn3k/trainval-image', line)`. */
  function TrainvalImagePath(root: string, line: string): string {
    PathJoin(PathJoin(root, "tn3k/trainval-image"), line)
  }

  function ImagePaths(root: string, lines: seq<string>): (paths: seq<string>)
    ensures |paths| == |lines|
  {
    seq(|lines|, i requires 0 <= i < |lines| => TrainvalImagePath(root, lines[i]))
  }

  /** What `tn3kDataSet(...)` builds, or the exception it raises. Only the
      two manifest-reading modes can fail; the transform is the supplied one
      or the default. */
  function Construct(p: Params, env: Env): (r: Result<Fields, Error>)
    ensures r.Success? ==> r.value.mode == p.mode && r.value.sign == p.sign
    ensures r.Success? ==> r.value.transform == SelectTransform(p.transform, p.mode, p.sign)
    ensures r.Success? ==> (r.value.imglist.None? <==> p.mode != "train" && p.mode != "valid" && p.mode != "test")
    ensures r.Failure? ==> p.mode == "train" || p.mode == "valid"
  {
    var list :- match Source(p.root, p.expID, p.mode, p.sign)
      case UnboundFile => Failure(UnboundLocal("imgfile"))
      case FromManifest(file) =>
        if file in env.texts then Success(Some(ImagePaths(p.root, SplitLines(env.texts[file]))))
        else Failure(CannotOpen(file))
      case FromWalk(dir) => Success(Some(AbsPaths(env.cwd, ListedFiles(Walk(env, dir)))))
      case NoList => Success(None);
    Success(Fields(p.mode, p.sign, list, SelectTransform(p.transform, p.mode, p.sign)))
  }

  /** An expID outside {1, 2, 3} in training mode fails on the unbound `imgfile`. */
  lemma BadExpIdFails(p: Params, env: Env)
    requires p.mode == "train" && p.expID != 1 && p.expID != 2 && p.expID != 3
    ensures Construct(p, env) == Failure(UnboundLocal("imgfile"))
  {
  }

  /** Train and valid loaders list the manifest's lines in order, each joined
      under `root/tn3k/trainval-image`, so their length is the line count. */
  lemma ManifestListing(p: Params, env: Env)
    requires p.mode == "train" || p.mode == "valid"
    requires Construct(p, env).Success?
    ensures Source(p.root, p.expID, p.mode, p.sign).FromManifest?
    ensures var lines := SplitLines(env.texts[Source(p.root, p.expID, p.mode, p.sign).file]);
      && Construct(p, env).value.imglist == Some(ImagePaths(p.root, lines))
      && Length(Construct(p, env).value) == Success(|lines|)
      && forall i :: 0 <= i < |lines| ==> Construct(p, env).value.imglist.value[i] == TrainvalImagePath(p.root, lines[i])
  {
  }

  /** A manifest-reading loader (validation, or training with a known expID)
      is built exactly when its manifest can be opened; otherwise the
      constructor raises on that file. */
  lemma ManifestConstruction(p: Params, env: Env)
    requires p.mode == "valid" || (p.mode == "train" && (p.expID == 1 || p.expID == 2 || p.expID == 3))
    ensures Source(p.root, p.expID, p.mode, p.sign).FromManifest?
    ensures var file := Source(p.root, p.expID, p.mode, p.sign).file;
      && (Construct(p, env).Success? <==> file in env.texts)
      && (file !in env.texts ==> Construct(p, env) == Failure(CannotOpen(file)))
  {
  }

  /** A test loader never fails and lists one absolute path per file the walk
      of `root/tn3k/test-image` yields (for an absolute working directory). */
  lemma TestListing(p: Params, env: Env)
    requires p.mode == "test"
    ensures Construct(p, env).Success?
    ensures var walk := Walk(env, PathJoin(p.root, "tn3k/test-image"));
      && Construct(p, env).value.imglist == Some(AbsPaths(env.cwd, ListedFiles(walk)))
      && Length(Construct(p, env).value) == Success(FileCount(walk))
      && (IsAbsolute(env.cwd) ==> forall i :: 0 <= i < FileCount(walk) ==> IsAbsolute(Construct(p, env).value.imglist.value[i]))
  {
    ListedFilesCount(Walk(env, PathJoin(p.root, "tn3k/test-image")));
  }

  /** A mode outside train/valid/test never sets `imglist`: `len` and indexing
      raise AttributeError. */
  lemma UnknownModeLeavesListUnset(p: Params, env: Env, index: int)
    requires p.mode != "train" && p.mode != "valid" && p.mode != "test"
    ensures Construct(p, env) == Success(Fields(p.mode, p.sign, None, p.transform))
    ensures Length(Construct(p, env).value) == Failure(MissingAttribute("imglist"))
    ensures Item(Construct(p, env).value, index, env) == Failure(MissingAttribute("imglist"))
  {
  }

  /** The worked example: a manifest "a\nb\n" gives the two image paths
      `root/tn3k/trainval-image/a` and `.../b`, in that order. */
  lemma TwoLineManifest(root: string, a: string, b: string, env: Env)
    requires !IsAbsolute(a) && !IsAbsolute(b)
    requires NoLineBreak(a)
    requires NoLineBreak(b)
    requires PathJoin(root, "data/splits/tn3k/322/labeled.txt") in env.texts
    requires env.texts[PathJoin(root, "data/splits/tn3k/322/labeled.txt")] == a + "\n" + b + "\n"
    ensures Construct(DefaultParams(root, 1), env).Success?
    ensures Construct(DefaultParams(root, 1), env).value.imglist
      == Some([PathJoin(root, "tn3k/trainval-image") + "/" + a, PathJoin(root, "tn3k/trainval-image") + "/" + b])
  {
    var file := PathJoin(root, "data/splits/tn3k/322/labeled.txt");
    assert Source(root, 1, "train", "label") == FromManifest(file);
    var rest := b + "\n" + "";
    assert a + "\n" + b + "\n" == a + "\n" + rest;
    SplitLinesOfNewlineTerminated(a, rest);
    SplitLinesOfNewlineTerminated(b, "");
    assert SplitLines(a + "\n" + b + "\n") == [a, b];
    TrainvalImagePathShape(root, a);
    TrainvalImagePathShape(root, b);
    assert ImagePaths(root, [a, b]) == [TrainvalImagePath(root, a), TrainvalImagePath(root, b)];
  }

  // ---------------------------------------------------------------------
  // Reading one sample.

  /** `len(self.imglist)`. */
  function Length(f: Fields): Result<nat, Error> {
    if f.imglist.None? then Failure(MissingAttribute("imglist")) else Success(|f.imglist.value|)
  }

  /** Python list indexing: negative indices count from the end. */
  function PyIndex(n: nat, index: int): (k: Option<nat>)
    ensures k.Some? <==> 0 <= n + index && index < n
    ensures k.Some? ==> k.value < n && (k.value == index || k.value == n + index)
  {
    if 0 <= index < n then Some(index) else if 0 <= n + index && index < 0 then Some(n + index) else None
  }

  datatype Colour = RGB | Grey

  /** An image as decoded from a path, possibly passed through a transform. */
  datatype Raster = Decoded(path: string, colour: Colour) | Transformed(via: Transform, source: Raster)

  /** What `__getitem__` returns: the record {image, label, name}, the bare
      image of an unlabeled training sample, or `None` (an unlabeled sample
      with no transform falls off the end of the branch). */
  datatype Sample =
    | Labeled(image: Raster, mask: Raster, name: string)   // the dict with keys image, label, name
    | Unlabeled(image: Raster)
    | NoSample

  /** The mask of an image: every "test-image" becomes "test-mask" in test
      mode, every "trainval-image" becomes "trainval-mask" otherwise. */
  function MaskPath(mode: string, path: string): string {
    if mode == "test" then Replace(path, "test-image", "test-mask")
    else Replace(path, "trainval-image", "trainval-mask")
  }

  function Apply(t: Option<Transform>, r: Raster): Raster {
    if t.Some? then Transformed(t.value, r) else r
  }

  function Open(env: Env, path: string, colour: Colour): Result<Raster, Error> {
    if path in env.images then Success(Decoded(path, colour)) else Failure(CannotOpen(path))
  }

  /** `__getitem__(index)`. Only unlabeled training yields a bare image; every
      other configuration yields the labeled record, whose name is the last
      '/'-component of the image path (not of the mask path) and whose label
      is read from the mask path. */
  function Item(f: Fields, index: int, env: Env): (r: Result<Sample, Error>)
    ensures f.imglist.None? ==> r == Failure(MissingAttribute("imglist"))
    ensures f.imglist.Some? && PyIndex(|f.imglist.value|, index).None? ==> r == Failure(IndexOutOfRange(index))
    ensures r.Success? ==> (r.value.Labeled? <==> !(f.mode == "train" && f.sign == "unlabel"))
    ensures r.Success? ==> (r.value.NoSample? <==> f.mode == "train" && f.sign == "unlabel" && f.transform.None?)
    ensures r.Success? && r.value.Labeled? ==>
      var path := f.imglist.value[PyIndex(|f.imglist.value|, index).value];
      && r.value.name == LastComponent(path)
      && path in env.images && MaskPath(f.mode, path) in env.images
      && r.value.mask == Apply(f.transform, Decoded(MaskPath(f.mode, path), Grey))
    ensures f.imglist.Some? && PyIndex(|f.imglist.value|, index).Some? && f.mode == "train" && f.sign == "unlabel" ==>
      var path := f.imglist.value[PyIndex(|f.imglist.value|, index).value];
      && (r.Failure? <==> path !in env.images)
      && (r.Failure? ==> r.error == CannotOpen(path))
      && (r.Success? && f.transform.Some? ==> r.value == Unlabeled(Transformed(f.transform.value, Decoded(path, RGB))))
    ensures f.imglist.Some? && PyIndex(|f.imglist.value|, index).Some? && !(f.mode == "train" && f.sign == "unlabel") ==>
      var path := f.imglist.value[PyIndex(|f.imglist.value|, index).value];
      && (r.Failure? <==> path !in env.images || MaskPath(f.mode, path) !in env.images)
      && (r.Failure? ==> r.error == CannotOpen(if path !in env.images then path else MaskPath(f.mode, path)))
      && (r.Success? ==> r.value.image == Apply(f.transform, Decoded(path, RGB)))
  {
    if f.imglist.None? then Failure(MissingAttribute("imglist"))
    else
      match PyIndex(|f.imglist.value|, index)
      case None => Failure(IndexOutOfRange(index))
      case Some(k) =>
        var path := f.imglist.value[k];
        var img :- Open(env, path, RGB);
        if f.mode == "train" && f.sign == "unlabel" then
          if f.transform.Some? then Success(Unlabeled(Transformed(f.transform.value, img))) else Success(NoSample)
        else
          var gt :- Open(env, MaskPath(f.mode, path), Grey);
          Success(Labeled(Apply(f.transform, img), Apply(f.transform, gt), LastComponent(path)))
  }

  /** The mask path replaces the one occurrence of the image directory token. */
  lemma MaskPathReplacesToken(mode: string, path: string, k: nat)
    requires var token := if mode == "test" then "test-image" else "trainval-image";
      MatchAt(path, token, k) && forall i :: MatchAt(path, token, i) ==> i == k
    ensures mode == "test" ==> MaskPath(mode, path) == path[..k] + "test-mask" + path[k + 10..]
    ensures mode != "test" ==> MaskPath(mode, path) == path[..k] + "trainval-mask" + path[k + 14..]
  {
    if mode == "test" {
      ReplaceUniqueMatch(path, "test-image", "test-mask", k);
    } else {
      ReplaceUniqueMatch(path, "trainval-image", "trainval-mask", k);
    }
  }

  /** In any mode, two paths that share a prefix ending in the mode's image
      token, with that token occurring nowhere else, have the same mask path
      only when their remainders agree. */
  lemma MaskPathInjectiveAfterToken(mode: string, d: string, r1: string, r2: string)
    requires var token := if mode == "test" then "test-image" else "trainval-image";
      && |d| >= |token| && d[|d| - |token|..] == token
      && (forall i :: MatchAt(d + r1, token, i) ==> i == |d| - |token|)
      && (forall i :: MatchAt(d + r2, token, i) ==> i == |d| - |token|)
    ensures MaskPath(mode, d + r1) == MaskPath(mode, d + r2) ==> r1 == r2
  {
    var token := if mode == "test" then "test-image" else "trainval-image";
    var sub := if mode == "test" then "test-mask" else "trainval-mask";
    var k := |d| - |token|;
    var p1, p2 := d + r1, d + r2;
    assert p1[k..k + |token|] == token;
    assert p2[k..k + |token|] == token;
    MaskPathReplacesToken(mode, p1, k);
    MaskPathReplacesToken(mode, p2, k);
    assert p1[..k] == d[..k] && p1[k + |token|..] == r1;
    assert p2[..k] == d[..k] && p2[k + |token|..] == r2;
    var m := d[..k] + sub;
    assert MaskPath(mode, p1) == m + r1;
    assert MaskPath(mode, p2) == m + r2;
    assert r1 == (m + r1)[|m|..];
    assert r2 == (m + r2)[|m|..];
  }

  /** `root/tn3k/trainval-image/line` ends in the directory token followed by "/line". */
  lemma TrainvalImagePathShape(root: string, line: string)
    requires !IsAbsolute(line)
    ensures var dir := PathJoin(root, "tn3k/trainval-image");
      && |dir| >= 19 && dir[|dir| - 19..] == "tn3k/trainval-image"
      && PathJoin(root, "tn3k/trainval-mask") == dir[..|dir| - 14] + "trainval-mask"
      && TrainvalImagePath(root, line) == dir + "/" + line
  {
    var image, mask := "tn3k/trainval-image", "tn3k/trainval-mask";
    assert |image| == 19 && image[..5] == mask[..5] && mask[5..] == "trainval-mask";
    var dir := PathJoin(root, image);
    var prefix := if root == [] || root[|root| - 1] == '/' then root else root + "/";
    assert dir == prefix + image;
    assert PathJoin(root, mask) == prefix + mask;
    assert dir[..|dir| - 14] == prefix + image[..5];
    assert dir[|dir| - 19..] == image;
  }

  /** Replacing the only `trainval-image` of a path that ends a directory
      swaps just that directory's last component. */
  lemma ReplaceTrailingToken(p: string, dir: string, rest: string)
    requires p == dir + rest
    requires |dir| >= 14 && dir[|dir| - 14..] == "trainval-image"
    requires forall i :: MatchAt(p, "trainval-image", i) ==> i == |dir| - 14
    ensures Replace(p, "trainval-image", "trainval-mask") == dir[..|dir| - 14] + "trainval-mask" + rest
  {
    var image, mask := "trainval-image", "trainval-mask";
    var k := |dir| - 14;
    assert p[k..k + 14] == image;
    ReplaceUniqueMatch(p, image, mask, k);
    assert p[..k] == dir[..k];
    assert p[k + 14..] == rest;
  }

  /** For a manifest line, the mask lives at `root/tn3k/trainval-mask/line`,
      provided "trainval-image" occurs in the image path only as its own
      directory. */
  lemma ManifestMaskPath(root: string, line: string)
    requires !IsAbsolute(line)
    requires var p := TrainvalImagePath(root, line); var k := |PathJoin(root, "tn3k/trainval-image")| - 14;
      forall i :: MatchAt(p, "trainval-image", i) ==> i == k
    ensures MaskPath("train", TrainvalImagePath(root, line)) == PathJoin(PathJoin(root, "tn3k/trainval-mask"), line)
    ensures MaskPath("valid", TrainvalImagePath(root, line)) == PathJoin(PathJoin(root, "tn3k/trainval-mask"), line)
  {
    TrainvalImagePathShape(root, line);
    var p := TrainvalImagePath(root, line);
    var dir := PathJoin(root, "tn3k/trainval-image");
    var rest := "/" + line;
    assert dir[|dir| - 14..] == dir[|dir| - 19..][5..];
    ReplaceTrailingToken(p, dir, rest);
    var m := PathJoin(root, "tn3k/trainval-mask");
    assert m == dir[..|dir| - 14] + "trainval-mask";
    assert Replace(p, "trainval-image", "trainval-mask") == m + rest;
    assert m != [] && m[|m| - 1] == 'k';
    assert PathJoin(m, line) == m + rest;
  }

  lemma ManifestMaskPathInjective(root: string, line1: string, line2: string)
    requires !IsAbsolute(line1) && !IsAbsolute(line2)
    requires var k := |PathJoin(root, "tn3k/trainval-image")| - 14;
      && (forall i :: MatchAt(TrainvalImagePath(root, line1), "trainval-image", i) ==> i == k)
      && (forall i :: MatchAt(TrainvalImagePath(root, line2), "trainval-image", i) ==> i == k)
    requires MaskPath("train", TrainvalImagePath(root, line1)) == MaskPath("train", TrainvalImagePath(root, line2))
    ensures line1 == line2
  {
    ManifestMaskPath(root, line1);
    ManifestMaskPath(root, line2);
    var m := PathJoin(root, "tn3k/trainval-mask");
    TrainvalImagePathShape(root, line1);
    assert PathJoin(m, line1) == m + "/" + line1;
    assert PathJoin(m, line2) == m + "/" + line2;
    assert line1 == (m + "/" + line1)[|m| + 1..];
  }

  /** The name of a manifest sample is the last component of its manifest line. */
  lemma ManifestSampleName(root: string, line: string)
    requires !IsAbsolute(line)
    ensures LastComponent(TrainvalImagePath(root, line)) == LastComponent(line)
  {
    TrainvalImagePathShape(root, line);
    LastComponentAfterSlash(PathJoin(root, "tn3k/trainval-image"), line);
  }

  /** Reading sample `k` of a labeled manifest loader: the image at
      `root/tn3k/trainval-image/line` and the mask at
      `root/tn3k/trainval-mask/line`, both through the loader's transform,
      named by the last component of the manifest line. */
  lemma ManifestSample(p: Params, env: Env, file: string, k: nat)
    requires (p.mode == "train" && p.sign != "unlabel") || p.mode == "valid"
    requires Source(p.root, p.expID, p.mode, p.sign) == FromManifest(file) && file in env.texts
    requires k < |SplitLines(env.texts[file])|
    requires var line := SplitLines(env.texts[file])[k];
      && !IsAbsolute(line)
      && (forall i :: MatchAt(TrainvalImagePath(p.root, line), "trainval-image", i) ==> i == |PathJoin(p.root, "tn3k/trainval-image")| - 14)
      && TrainvalImagePath(p.root, line) in env.images
      && PathJoin(PathJoin(p.root, "tn3k/trainval-mask"), line) in env.images
    ensures Construct(p, env).Success?
    ensures var line := SplitLines(env.texts[file])[k];
      var t := SelectTransform(p.transform, p.mode, p.sign);
      Item(Construct(p, env).value, k, env)
        == Success(Labeled(Apply(t, Decoded(TrainvalImagePath(p.root, line), RGB)),
                           Apply(t, Decoded(PathJoin(PathJoin(p.root, "tn3k/trainval-mask"), line), Grey)),
                           LastComponent(line)))
  {
    var lines := SplitLines(env.texts[file]);
    var line := lines[k];
    var f := Construct(p, env).value;
    assert f.imglist == Some(ImagePaths(p.root, lines));
    assert f.imglist.value[k] == TrainvalImagePath(p.root, line);
    ManifestMaskPath(p.root, line);
    ManifestSampleName(p.root, line);
    assert MaskPath(p.mode, TrainvalImagePath(p.root, line)) == PathJoin(PathJoin(p.root, "tn3k/trainval-mask"), line);
  }

  // ---------------------------------------------------------------------
  // The loader object.

  class DataSet {
    var mode: string
    var sign: string
    var imglist: Option<seq<string>>     // None: the attribute is not set
    var transform: Option<Transform>     // None: the attribute holds Python's None

    /** The object after `__init__` has stored `mode` and `sign` and nothing else. */
    constructor (mode: string, sign: string)
      ensures this.mode == mode && this.sign == sign && imglist.None? && transform.None?
    {
      this.mode := mode;
      this.sign := sign;
      imglist := None;
      transform := None;
    }

    function State(): Fields
      reads this
    {
      Fields(mode, sign, imglist, transform)
    }

    /** `tn3kDataSet(root, expID, mode, ratio, sign, transform)`: the loader
        `Construct` describes, or the exception it names. */
    static method New(p: Params, env: Env) returns (r: Result<DataSet, Error>)
      ensures r.Success? <==> Construct(p, env).Success?
      ensures r.Failure? ==> r.error == Construct(p, env).error
      ensures r.Success? ==> fresh(r.value) && r.value.State() == Construct(p, env).value
    {
      var ds := new DataSet(p.mode, p.sign);
      if p.mode == "train" {
        var imgfile: Option<string> := None;
        if p.sign == "label" {
          if p.expID == 1 {
            imgfile := Some(PathJoin(p.root, "data/splits/tn3k/322/labeled.txt"));
          } else if p.expID == 2 {
            imgfile := Some(PathJoin(p.root, "data/splits/tn3k/644/labeled.txt"));
          } else if p.expID == 3 {
            imgfile := Some(PathJoin(p.root, "data/splits/tn3k/1289/labeled.txt"));
          }
        } else {
          if p.expID == 1 {
            imgfile := Some(PathJoin(p.root, "data/splits/tn3k/322/unlabeled.txt"));
          } else if p.expID == 2 {
            imgfile := Some(PathJoin(p.root, "data/splits/tn3k/644/unlabeled.txt"));
          } else if p.expID == 3 {
            imgfile := Some(PathJoin(p.root, "data/splits/tn3k/1289/unlabeled.txt"));
          }
        }
        if imgfile.None? {
          return Failure(UnboundLocal("imgfile"));
        }
        if imgfile.value !in env.texts {
          return Failure(CannotOpen(imgfile.value));
        }
        ds.imglist := Some(ImagePaths(p.root, SplitLines(env.texts[imgfile.value])));
      } else if p.mode == "valid" {
        var imgfile := PathJoin(p.root, "data/splits/tn3k/val.txt");
        if imgfile !in env.texts {
          return Failure(CannotOpen(imgfile));
        }
        ds.imglist := Some(ImagePaths(p.root, SplitLines(env.texts[imgfile])));
      } else if p.mode == "test" {
        var files := ds.GetAllFiles(PathJoin(p.root, "tn3k/test-image"), env);
        ds.imglist := Some(files);
      }

      var t := p.transform;
      if t.None? {
        if p.mode == "train" && p.sign == "label" {
          t := Some(Compose(LabeledTrainSteps));
        } else if p.mode == "train" && p.sign == "unlabel" {
          t := Some(Compose(UnlabeledTrainSteps));
        } else if p.mode == "valid" || p.mode == "test" {
          t := Some(Compose(EvalSteps));
        }
      }
      ds.transform := t;
      return Success(ds);
    }

    /** `get_all_files(directory)`: the absolute path of every file the walk
        yields, in walk order. */
    method GetAllFiles(directory: string, env: Env) returns (filePaths: seq<string>)
      ensures filePaths == AbsPaths(env.cwd, ListedFiles(Walk(env, directory)))
    {
      var walk := Walk(env, directory);
      filePaths := [];
      var i := 0;
      while i < |walk|
        invariant 0 <= i <= |walk|
        invariant filePaths == AbsPaths(env.cwd, ListedFiles(walk[..i]))
      {
        var step := walk[i];
        var j := 0;
        while j < |step.files|
          invariant 0 <= j <= |step.files|
          invariant filePaths == AbsPaths(env.cwd, ListedFiles(walk[..i]) + StepPaths(step)[..j])
        {
          var filePath := AbsPath(env.cwd, PathJoin(step.dir, step.files[j]));
          assert StepPaths(step)[..j + 1] == StepPaths(step)[..j] + [PathJoin(step.dir, step.files[j])];
          filePaths := filePaths + [filePath];
          j := j + 1;
        }
        assert walk[..i + 1][..i] == walk[..i];
        assert StepPaths(step)[..j] == StepPaths(step);
        i := i + 1;
      }
      assert walk[..i] == walk;
    }

    /** `len(self)`. */
    function Len(): Result<nat, Error>
      reads this
    {
      Length(State())
    }

    /** `self[index]`. */
    function GetItem(index: int, env: Env): Result<Sample, Error>
      reads this
    {
      Item(State(), index, env)
    }
  }
}
