/**
 * The `os.path` and `os.walk` behaviour the dataset code relies on.
 * `os.walk` itself is an input: the sequence of (directory, file names) steps
 * it yields, in the order it yields them.
 */
module Paths {

  predicate IsAbsolute(p: string) {
    |p| > 0 && p[0] == '/'
  }

  /** `posixpath.join(a, b)`: an absolute `b` discards `a`; otherwise a '/' is
      inserted unless `a` is empty or already ends with one. */
  function PathJoin(a: string, b: string): string {
    if IsAbsolute(b) then b
    else if a == [] || a[|a| - 1] == '/' then a + b
    else a + "/" + b
  }

  /** Joining a relative name onto a directory keeps the directory as a prefix
      and the name as a suffix. */
  lemma JoinRelative(a: string, b: string)
    requires !IsAbsolute(b)
    ensures |a| <= |PathJoin(a, b)|
    ensures PathJoin(a, b)[..|a|] == a
    ensures PathJoin(a, b)[|PathJoin(a, b)| - |b|..] == b
  {
  }

  /** `os.path.abspath(p)` relative to the working directory `cwd`, without
      the `normpath` clean-up of "." and ".." components. */
  function AbsPath(cwd: string, p: string): (r: string)
    ensures IsAbsolute(cwd) ==> IsAbsolute(r)
    ensures IsAbsolute(p) ==> r == p
  {
    if IsAbsolute(p) then p else PathJoin(cwd, p)
  }

  /** One tuple yielded by `os.walk`; the sub-directory names only steer the
      walk, whose whole order is given. */
  datatype WalkStep = WalkStep(dir: string, files: seq<string>)

  /** `os.path.join(root, file)` for every file of one walked directory. */
  function StepPaths(step: WalkStep): (paths: seq<string>)
    ensures |paths| == |step.files|
  {
    seq(|step.files|, k requires 0 <= k < |step.files| => PathJoin(step.dir, step.files[k]))
  }

  /** Every file of every walked directory, joined to its directory, in walk order. */
  function ListedFiles(walk: seq<WalkStep>): seq<string>
  {
    if walk == [] then []
    else ListedFiles(walk[..|walk| - 1]) + StepPaths(walk[|walk| - 1])
  }

  /** How many file names the walk yields. */
  function FileCount(walk: seq<WalkStep>): nat {
    if walk == [] then 0 else FileCount(walk[..|walk| - 1]) + |walk[|walk| - 1].files|
  }

  /** The listing holds exactly one path per file name the walk yields. */
  lemma {:induction false} ListedFilesCount(walk: seq<WalkStep>)
    ensures |ListedFiles(walk)| == FileCount(walk)
    decreases |walk|
  {
    if walk != [] {
      ListedFilesCount(walk[..|walk| - 1]);
    }
  }

  /** `os.path.abspath` applied to each path. */
  function AbsPaths(cwd: string, paths: seq<string>): (r: seq<string>)
    ensures |r| == |paths|
    ensures IsAbsolute(cwd) ==> forall i :: 0 <= i < |r| ==> IsAbsolute(r[i])
  {
    seq(|paths|, i requires 0 <= i < |paths| => AbsPath(cwd, paths[i]))
  }
}
