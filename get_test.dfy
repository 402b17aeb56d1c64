/**
 * The one-off script that writes the TN3K test manifest: list every file
 * under the test-image directory, keep components 6 to 8 of each
 * '/'-separated path, and write them one per line.
 */
module TestSplit {
  import opened Wrappers
  import opened Strings
  import opened Paths

  const TestImageDir := "airs/tn3k/test-image/"
  const OutputFile := "airs/tn3k/test.txt"

  /** `IndexError` from a path with fewer than nine components; `OpenError`
      when `open(OutputFile, 'w')` fails (FileNotFoundError when `airs/tn3k`
      is missing, PermissionError when it is not writable). */
  datatype ScriptError = IndexError | OpenError

  /** `list_files_in_directory`: `os.path.join(root, file)` for every file the
      walk yields, in walk order and without making the paths absolute. */
  method ListFilesInDirectory(walk: seq<WalkStep>) returns (fileList: seq<string>)
    ensures fileList == ListedFiles(walk)
  {
    fileList := [];
    var i := 0;
    while i < |walk|
      invariant 0 <= i <= |walk|
      invariant fileList == ListedFiles(walk[..i])
    {
      var step := walk[i];
      var j := 0;
      while j < |step.files|
        invariant 0 <= j <= |step.files|
        invariant fileList == ListedFiles(walk[..i]) + StepPaths(step)[..j]
      {
        assert StepPaths(step)[..j + 1] == StepPaths(step)[..j] + [PathJoin(step.dir, step.files[j])];
        fileList := fileList + [PathJoin(step.dir, step.files[j])];
        j := j + 1;
      }
      assert walk[..i + 1][..i] == walk[..i];
      assert StepPaths(step)[..j] == StepPaths(step);
      i := i + 1;
    }
    assert walk[..i] == walk;
  }

  /** A walk from a relative directory lists relative paths. */
  lemma {:induction false} ListingIsRelative(walk: seq<WalkStep>)
    requires forall s :: s in walk ==> !IsAbsolute(s.dir) && forall f :: f in s.files ==> !IsAbsolute(f)
    ensures forall p :: p in ListedFiles(walk) ==> !IsAbsolute(p)
    decreases |walk|
  {
    if walk != [] {
      var last := walk[|walk| - 1];
      assert forall s :: s in walk[..|walk| - 1] ==> s in walk;
      ListingIsRelative(walk[..|walk| - 1]);
      forall k | 0 <= k < |last.files| ensures !IsAbsolute(StepPaths(last)[k]) {
        assert last.files[k] in last.files;
      }
    }
  }

  predicate HasNineComponents(path: string) {
    |Split(path, '/')| >= 9
  }

  /** `path[6] + '/' + path[7] + '/' + path[8]` of the split path. */
  function Entry(path: string): string
    requires HasNineComponents(path)
  {
    var parts := Split(path, '/');
    parts[6] + "/" + parts[7] + "/" + parts[8]
  }

  /** The reformatting loop as a value: IndexError as soon as one path has
      fewer than nine components, otherwise one entry per path, in order. */
  function Reformatted(paths: seq<string>): Result<seq<string>, ScriptError> {
    if forall i :: 0 <= i < |paths| ==> HasNineComponents(paths[i]) then
      Success(seq(|paths|, i requires 0 <= i < |paths| && HasNineComponents(paths[i]) => Entry(paths[i])))
    else Failure(IndexError)
  }

  /** The loop of the script over the listed paths. */
  method Reformat(filePaths: seq<string>) returns (r: Result<seq<string>, ScriptError>)
    ensures r == Reformatted(filePaths)
  {
    var list := [];
    for i := 0 to |filePaths|
      invariant forall k :: 0 <= k < i ==> HasNineComponents(filePaths[k])
      invariant |list| == i && forall k :: 0 <= k < i ==> list[k] == Entry(filePaths[k])
    {
      var path := Split(filePaths[i], '/');
      if |path| < 9 {
        return Failure(IndexError);
      }
      var name := path[6] + "/" + path[7] + "/" + path[8];
      list := list + [name];
    }
    assert forall i :: 0 <= i < |filePaths| ==> HasNineComponents(filePaths[i]);
    assert list == Reformatted(filePaths).value;
    return Success(list);
  }

  /** An entry splits back into exactly components 6, 7 and 8 of its path. */
  lemma EntryKeepsComponentsSixToEight(path: string)
    requires HasNineComponents(path)
    ensures Split(Entry(path), '/') == Split(path, '/')[6..9]
  {
    var parts := Split(path, '/');
    var kept := [parts[6], parts[7], parts[8]];
    assert JoinWith(kept[2..], '/') == parts[8];
    assert JoinWith(kept[1..], '/') == parts[7] + ['/'] + parts[8];
    assert JoinWith(kept, '/') == Entry(path);
    SplitJoin(kept, '/');
    assert kept == parts[6..9];
  }

  /** Components before 6 and after 8 play no part in an entry. */
  lemma EntryIgnoresOtherComponents(path1: string, path2: string)
    requires HasNineComponents(path1) && HasNineComponents(path2)
    requires Split(path1, '/')[6..9] == Split(path2, '/')[6..9]
    ensures Entry(path1) == Entry(path2)
  {
    var p1, p2 := Split(path1, '/'), Split(path2, '/');
    assert p1[6] == p1[6..9][0] && p1[7] == p1[6..9][1] && p1[8] == p1[6..9][2];
    assert p2[6] == p2[6..9][0] && p2[7] == p2[6..9][1] && p2[8] == p2[6..9][2];
  }

  /** A '/'-free leading name is the first component. */
  lemma LeadingComponent(a: string, rest: string)
    requires '/' !in a
    ensures Split(a + ['/'] + rest, '/') == [a] + Split(rest, '/')
  {
    SplitAround(a, rest, '/');
    SplitWithoutSeparator(a, '/');
  }

  /** Three '/'-free directory names and a '/'-free file name make four components. */
  lemma FourComponents(a: string, b: string, c: string, name: string)
    requires '/' !in a && '/' !in b && '/' !in c && '/' !in name
    ensures Split(a + ['/'] + b + ['/'] + c + ['/'] + name, '/') == [a, b, c, name]
  {
    var t3 := c + ['/'] + name;
    var t2 := b + ['/'] + t3;
    var t1 := a + ['/'] + t2;
    SplitWithoutSeparator(name, '/');
    LeadingComponent(c, name);
    LeadingComponent(b, t3);
    LeadingComponent(a, t2);
    assert a + ['/'] + b + ['/'] + c + ['/'] + name == t1;
  }

  /** A file directly inside the hard-coded directory has only four path
      components, so the script stops with IndexError. */
  lemma TopLevelFileFails(name: string, others: seq<string>)
    requires '/' !in name
    ensures !HasNineComponents(PathJoin(TestImageDir, name))
    ensures Reformatted([PathJoin(TestImageDir, name)] + others) == Failure(IndexError)
  {
    var a, b, c := "airs", "tn3k", "test-image";
    assert TestImageDir == a + ['/'] + b + ['/'] + c + ['/'];
    assert PathJoin(TestImageDir, name) == a + ['/'] + b + ['/'] + c + ['/'] + name;
    FourComponents(a, b, c, name);
    assert !HasNineComponents(([PathJoin(TestImageDir, name)] + others)[0]);
  }

  /** The written file: each entry followed by "\n". */
  function Lines(entries: seq<string>): string {
    if entries == [] then "" else Lines(entries[..|entries| - 1]) + entries[|entries| - 1] + "\n"
  }

  /** The write loop. */
  method WriteLines(entries: seq<string>) returns (text: string)
    ensures text == Lines(entries)
  {
    text := "";
    for i := 0 to |entries|
      invariant text == Lines(entries[..i])
    {
      assert entries[..i + 1][..i] == entries[..i];
      text := text + entries[i] + "\n";
    }
    assert entries[..|entries|] == entries;
  }

  lemma {:induction false} LinesCons(first: string, rest: seq<string>)
    ensures Lines([first] + rest) == first + "\n" + Lines(rest)
    decreases |rest|
  {
    if rest != [] {
      var init := rest[..|rest| - 1];
      LinesCons(first, init);
      assert ([first] + rest)[..|rest|] == [first] + init;
    }
  }

  /** Reading the written file back with `splitlines()`, as the dataset
      loader reads its manifests, gives the entries back, provided no entry
      contains a line break. */
  lemma {:induction false} ReadBack(entries: seq<string>)
    requires forall k :: 0 <= k < |entries| ==> NoLineBreak(entries[k])
    ensures SplitLines(Lines(entries)) == entries
    decreases |entries|
  {
    if entries != [] {
      LinesCons(entries[0], entries[1..]);
      assert [entries[0]] + entries[1..] == entries;
      assert entries[0] + "\n" + Lines(entries[1..]) == entries[0] + "\n" + Lines(entries[1..]);
      SplitLinesOfNewlineTerminated(entries[0], Lines(entries[1..]));
      ReadBack(entries[1..]);
    }
  }

  /** The whole script: the file it writes and the text written, the
      IndexError that stops it before the file is opened, or the error from
      opening the file. Whether the open succeeds is a property of the file
      system, given as `outputOpens`. */
  method GetTest(walk: seq<WalkStep>, outputOpens: bool) returns (r: Result<(string, string), ScriptError>)
    ensures Reformatted(ListedFiles(walk)).Failure? ==> r == Failure(IndexError)
    ensures Reformatted(ListedFiles(walk)).Success? && !outputOpens ==> r == Failure(OpenError)
    ensures Reformatted(ListedFiles(walk)).Success? && outputOpens ==>
      r == Success((OutputFile, Lines(Reformatted(ListedFiles(walk)).value)))
  {
    var filePaths := ListFilesInDirectory(walk);
    var list := Reformat(filePaths);
    if list.Failure? {
      return Failure(IndexError);
    }
    if !outputOpens {
      return Failure(OpenError);
    }
    var text := WriteLines(list.value);
    return Success((OutputFile, text));
  }
}
