/**
 * The Python string operations the dataset code relies on, with Python's
 * semantics: `str.replace` (every non-overlapping occurrence, left to right),
 * `str.split(sep)` with a one-character separator, `split(sep)[-1]` and
 * `str.splitlines()`.
 */
module Strings {

  /** `pat` occurs in `s` starting at position `i`. */
  predicate MatchAt(s: string, pat: string, i: int) {
    0 <= i && i + |pat| <= |s| && s[i..i + |pat|] == pat
  }

  /** Python's `s.replace(pat, sub)`: scan left to right, replacing each
      occurrence of `pat` and resuming after it. */
  function Replace(s: string, pat: string, sub: string): string
    requires |pat| > 0
    decreases |s|
  {
    if |s| < |pat| then s
    else if s[..|pat|] == pat then sub + Replace(s[|pat|..], pat, sub)
    else [s[0]] + Replace(s[1..], pat, sub)
  }

  /** A prefix in which no occurrence of `pat` starts is copied unchanged. */
  lemma {:induction false} ReplaceSkipsPrefix(a: string, rest: string, pat: string, sub: string)
    requires |pat| > 0
    requires forall i :: 0 <= i < |a| ==> !MatchAt(a + rest, pat, i)
    ensures Replace(a + rest, pat, sub) == a + Replace(rest, pat, sub)
    decreases |a|
  {
    var s := a + rest;
    if a == [] {
      assert s == rest;
    } else if |s| < |pat| {
      ReplaceShort(rest, pat, sub);
    } else {
      assert !MatchAt(s, pat, 0);
      assert s[..|pat|] != pat;
      assert s[1..] == a[1..] + rest;
      forall i | 0 <= i < |a[1..]|
        ensures !MatchAt(a[1..] + rest, pat, i)
      {
        assert !MatchAt(s, pat, i + 1);
        if i + |pat| <= |s| - 1 {
          assert s[i + 1..i + 1 + |pat|] == (a[1..] + rest)[i..i + |pat|];
        }
      }
      ReplaceSkipsPrefix(a[1..], rest, pat, sub);
      assert [s[0]] + (a[1..] + Replace(rest, pat, sub)) == a + Replace(rest, pat, sub);
    }
  }

  lemma ReplaceShort(s: string, pat: string, sub: string)
    requires |pat| > 0 && |s| < |pat|
    ensures Replace(s, pat, sub) == s
  {
  }

  /** With no occurrence of `pat`, `replace` returns its input. */
  lemma ReplaceWithoutMatch(s: string, pat: string, sub: string)
    requires |pat| > 0
    requires forall i :: !MatchAt(s, pat, i)
    ensures Replace(s, pat, sub) == s
  {
    assert s + [] == s;
    ReplaceSkipsPrefix(s, [], pat, sub);
    ReplaceShort([], pat, sub);
  }

  /** Past a unique occurrence of `pat`, no further occurrence starts. */
  lemma NoMatchAfterUnique(s: string, pat: string, k: nat, tail: string)
    requires |pat| > 0 && MatchAt(s, pat, k) && tail == s[k + |pat|..]
    requires forall i :: MatchAt(s, pat, i) ==> i == k
    ensures forall i :: !MatchAt(tail, pat, i)
  {
    forall i ensures !MatchAt(tail, pat, i) {
      if MatchAt(tail, pat, i) {
        assert s[k + |pat| + i..k + |pat| + i + |pat|] == tail[i..i + |pat|];
        assert MatchAt(s, pat, k + |pat| + i);
      }
    }
  }

  /** When `pat` occurs exactly once, at `k`, `replace` substitutes that one
      occurrence and keeps everything around it. */
  lemma ReplaceUniqueMatch(s: string, pat: string, sub: string, k: nat)
    requires |pat| > 0
    requires MatchAt(s, pat, k)
    requires forall i :: MatchAt(s, pat, i) ==> i == k
    ensures Replace(s, pat, sub) == s[..k] + sub + s[k + |pat|..]
  {
    var head, rest, tail := s[..k], s[k..], s[k + |pat|..];
    assert s == head + rest;
    forall i | 0 <= i < |head| ensures !MatchAt(s, pat, i) {
    }
    ReplaceSkipsPrefix(head, rest, pat, sub);
    assert rest[..|pat|] == pat && rest[|pat|..] == tail;
    assert Replace(rest, pat, sub) == sub + Replace(tail, pat, sub);
    NoMatchAfterUnique(s, pat, k, tail);
    ReplaceWithoutMatch(tail, pat, sub);
  }

  /** `replace` substitutes the first occurrence of `pat`, keeps the text
      before it, and carries on replacing in the rest: every occurrence the
      scan meets is replaced, not just the first. */
  lemma ReplaceFirstMatch(s: string, pat: string, sub: string, k: nat)
    requires |pat| > 0 && MatchAt(s, pat, k)
    requires forall i :: 0 <= i < k ==> !MatchAt(s, pat, i)
    ensures Replace(s, pat, sub) == s[..k] + sub + Replace(s[k + |pat|..], pat, sub)
  {
    var head, rest := s[..k], s[k..];
    NoMatchInHead(s, pat, head, rest);
    ReplaceSkipsPrefix(head, rest, pat, sub);
    ReplaceAtStart(rest, pat, sub);
    assert rest[|pat|..] == s[k + |pat|..];
  }

  /** Cutting `s` after a prefix in which no occurrence starts. */
  lemma NoMatchInHead(s: string, pat: string, head: string, rest: string)
    requires |head| <= |s| && head == s[..|head|] && rest == s[|head|..]
    requires forall i :: 0 <= i < |head| ==> !MatchAt(s, pat, i)
    ensures s == head + rest
    ensures forall i :: 0 <= i < |head| ==> !MatchAt(head + rest, pat, i)
  {
    assert s == head + rest;
  }

  /** An occurrence at the very start is substituted, and the scan resumes
      after it. */
  lemma ReplaceAtStart(s: string, pat: string, sub: string)
    requires |pat| > 0 && MatchAt(s, pat, 0)
    ensures Replace(s, pat, sub) == sub + Replace(s[|pat|..], pat, sub)
  {
  }

  /** Python's `s.split(sep)` for a one-character separator: always at least
      one piece, and no piece contains the separator. */
  function Split(s: string, sep: char): (parts: seq<string>)
    ensures |parts| >= 1
    ensures forall i :: 0 <= i < |parts| ==> sep !in parts[i]
    decreases |s|
  {
    if s == [] then [[]]
    else
      var rest := Split(s[1..], sep);
      if s[0] == sep then [[]] + rest
      else [[s[0]] + rest[0]] + rest[1..]
  }

  /** The inverse of `Split`: `sep.join(parts)`. */
  function JoinWith(parts: seq<string>, sep: char): string
    requires |parts| >= 1
  {
    if |parts| == 1 then parts[0] else parts[0] + [sep] + JoinWith(parts[1..], sep)
  }

  /** Splitting at a separator distributes over the two sides of it. */
  lemma {:induction false} SplitAround(a: string, b: string, sep: char)
    ensures Split(a + [sep] + b, sep) == Split(a, sep) + Split(b, sep)
    decreases |a|
  {
    var s := a + [sep] + b;
    if a == [] {
      assert s[1..] == b;
    } else {
      assert s[1..] == a[1..] + [sep] + b;
      SplitAround(a[1..], b, sep);
    }
  }

  /** A string without the separator is one piece. */
  lemma {:induction false} SplitWithoutSeparator(s: string, sep: char)
    requires sep !in s
    ensures Split(s, sep) == [s]
    decreases |s|
  {
    if s != [] {
      assert s[0] != sep && sep !in s[1..];
      SplitWithoutSeparator(s[1..], sep);
      assert [s[0]] + s[1..] == s;
    }
  }

  /** `sep.join(s.split(sep)) == s`. */
  lemma {:induction false} JoinSplit(s: string, sep: char)
    ensures JoinWith(Split(s, sep), sep) == s
    decreases |s|
  {
    if s != [] {
      JoinSplit(s[1..], sep);
      var rest := Split(s[1..], sep);
      if s[0] == sep {
        assert Split(s, sep)[1..] == rest;
      } else if |rest| == 1 {
        assert JoinWith(Split(s, sep), sep) == [s[0]] + rest[0];
      } else {
        assert Split(s, sep)[1..] == rest[1..];
        assert JoinWith(rest, sep) == rest[0] + [sep] + JoinWith(rest[1..], sep);
      }
    }
  }

  /** `sep.join(parts).split(sep) == parts` when no part holds the separator. */
  lemma {:induction false} SplitJoin(parts: seq<string>, sep: char)
    requires |parts| >= 1
    requires forall i :: 0 <= i < |parts| ==> sep !in parts[i]
    ensures Split(JoinWith(parts, sep), sep) == parts
    decreases |parts|
  {
    SplitWithoutSeparator(parts[0], sep);
    if |parts| > 1 {
      SplitJoin(parts[1..], sep);
      SplitAround(parts[0], JoinWith(parts[1..], sep), sep);
      assert [parts[0]] + parts[1..] == parts;
    }
  }

  /** `s.split('/')[-1]`, the text after the last '/'. */
  function LastComponent(s: string): string {
    var parts := Split(s, '/');
    parts[|parts| - 1]
  }

  /** The last component holds no '/', is a suffix of the path, and is
      preceded by a '/' unless it is the whole path. */
  lemma LastComponentIsTextAfterLastSlash(s: string)
    ensures '/' !in LastComponent(s)
    ensures |LastComponent(s)| <= |s|
    ensures s[|s| - |LastComponent(s)|..] == LastComponent(s)
    ensures |LastComponent(s)| < |s| ==> s[|s| - |LastComponent(s)| - 1] == '/'
  {
    JoinSplit(s, '/');
    JoinEndsWithLast(Split(s, '/'), '/');
  }

  lemma {:induction false} JoinEndsWithLast(parts: seq<string>, sep: char)
    requires |parts| >= 1
    ensures var j := JoinWith(parts, sep); var l := parts[|parts| - 1];
      |l| <= |j| && j[|j| - |l|..] == l && (|parts| > 1 ==> |l| < |j| && j[|j| - |l| - 1] == sep)
    decreases |parts|
  {
    if |parts| > 1 {
      JoinEndsWithLast(parts[1..], sep);
    }
  }

  /** The last component of `a + "/" + b` is that of `b`. */
  lemma LastComponentAfterSlash(a: string, b: string)
    ensures LastComponent(a + "/" + b) == LastComponent(b)
  {
    SplitAround(a, b, '/');
    assert a + "/" + b == a + ['/'] + b;
  }

  /** The characters `str.splitlines` treats as line boundaries. */
  predicate IsLineBreak(c: char) {
    var n := c as int;
    (10 <= n <= 13) || (28 <= n <= 30) || n == 0x85 || n == 0x2028 || n == 0x2029
  }

  predicate NoLineBreak(line: string) {
    forall j :: 0 <= j < |line| ==> !IsLineBreak(line[j])
  }

  /** Position of the first line boundary, or the length if there is none. */
  function LineEnd(s: string): (i: nat)
    ensures i <= |s|
    ensures forall j :: 0 <= j < i ==> !IsLineBreak(s[j])
    ensures i < |s| ==> IsLineBreak(s[i])
  {
    BreakFrom(s, 0)
  }

  /** Position of the first line boundary at or after `k`. */
  function BreakFrom(s: string, k: nat): (i: nat)
    requires k <= |s|
    ensures k <= i <= |s|
    ensures forall j :: k <= j < i ==> !IsLineBreak(s[j])
    ensures i < |s| ==> IsLineBreak(s[i])
    decreases |s| - k
  {
    if k == |s| || IsLineBreak(s[k]) then k else BreakFrom(s, k + 1)
  }

  /** Width of the boundary at `i`: "\r\n" is one boundary of two characters. */
  function BoundaryWidth(s: string, i: nat): (w: nat)
    requires i < |s|
    ensures 1 <= w <= 2 && i + w <= |s|
  {
    if s[i] == '\r' && i + 1 < |s| && s[i + 1] == '\n' then 2 else 1
  }

  /** Python's `s.splitlines()`: "\r\n" is one boundary, a final boundary
      does not open an empty last line, and "" has no lines. */
  function SplitLines(s: string): (lines: seq<string>)
    ensures forall k :: 0 <= k < |lines| ==> NoLineBreak(lines[k])
    decreases |s|
  {
    if |s| == 0 then []
    else
      var i := LineEnd(s);
      if i == |s| then [s]
      else
        [s[..i]] + SplitLines(s[i + BoundaryWidth(s, i)..])
  }

  /** `s.splitlines(keepends=True)`: the same lines, each with its boundary. */
  function SplitLinesKeepEnds(s: string): seq<string>
    decreases |s|
  {
    if |s| == 0 then []
    else
      var i := LineEnd(s);
      if i == |s| then [s]
      else [s[..i + BoundaryWidth(s, i)]] + SplitLinesKeepEnds(s[i + BoundaryWidth(s, i)..])
  }

  function Flatten(parts: seq<string>): string {
    if |parts| == 0 then [] else parts[0] + Flatten(parts[1..])
  }

  /** A single boundary character, or "\r\n". */
  predicate IsBoundary(e: string) {
    (|e| == 1 && IsLineBreak(e[0])) || e == "\r\n"
  }

  /** The lines with their boundaries kept concatenate back to the text. */
  lemma {:induction false} KeepEndsRejoin(s: string)
    ensures Flatten(SplitLinesKeepEnds(s)) == s
    decreases |s|
  {
    if s != [] {
      var i := LineEnd(s);
      if i < |s| {
        var j := i + BoundaryWidth(s, i);
        var head, tail := s[..j], s[j..];
        KeepEndsRejoin(tail);
        var fulls := SplitLinesKeepEnds(s);
        assert fulls == [head] + SplitLinesKeepEnds(tail);
        assert fulls[0] == head && fulls[1..] == SplitLinesKeepEnds(tail);
        assert Flatten(fulls) == head + Flatten(SplitLinesKeepEnds(tail));
        assert head + tail == s;
      } else {
        assert SplitLinesKeepEnds(s) == [s];
        assert Flatten([s]) == s + Flatten([]);
      }
    }
  }

  /** `line` is `full` without its line boundary, which only the last line
      may lack. */
  predicate DropsBoundary(line: string, full: string, last: bool) {
    |line| <= |full| && full[..|line|] == line
    && (IsBoundary(full[|line|..]) || (last && full == line))
  }

  /** One step of both splits: the text before the first boundary, then
      the lines of what follows it. */
  lemma SplitLinesStep(s: string, i: nat, j: nat)
    requires i == LineEnd(s) && i < |s| && j == i + BoundaryWidth(s, i)
    ensures SplitLines(s) == [s[..i]] + SplitLines(s[j..])
  {
  }

  lemma KeepEndsStep(s: string, i: nat, j: nat)
    requires i == LineEnd(s) && i < |s| && j == i + BoundaryWidth(s, i)
    ensures SplitLinesKeepEnds(s) == [s[..j]] + SplitLinesKeepEnds(s[j..])
  {
  }

  /** The boundary starting at a line break is a line boundary. */
  lemma BoundaryAt(s: string, i: nat)
    requires i < |s| && IsLineBreak(s[i])
    ensures IsBoundary(s[i..i + BoundaryWidth(s, i)])
  {
    if BoundaryWidth(s, i) == 2 {
      assert s[i..i + 2] == [s[i], s[i + 1]] == "\r\n";
    } else {
      assert s[i..i + 1] == [s[i]];
    }
  }

  /** Line-by-line agreement survives putting one more pair in front. */
  lemma DropsBoundaryCons(head: string, full: string, lines: seq<string>, fulls: seq<string>)
    requires DropsBoundary(head, full, false)
    requires |lines| == |fulls|
    requires forall k :: 0 <= k < |lines| ==> DropsBoundary(lines[k], fulls[k], k == |lines| - 1)
    ensures forall k :: 0 <= k < |lines| + 1 ==>
      DropsBoundary(([head] + lines)[k], ([full] + fulls)[k], k == |lines|)
  {
    forall k | 1 <= k < |lines| + 1
      ensures DropsBoundary(([head] + lines)[k], ([full] + fulls)[k], k == |lines|)
    {
      assert ([head] + lines)[k] == lines[k - 1];
      assert ([full] + fulls)[k] == fulls[k - 1];
    }
  }

  /** `splitlines()` yields the same lines as `splitlines(keepends=True)`
      with the boundary removed: every line but possibly the last ends in
      exactly one boundary, the last ends in one or in nothing. */
  lemma {:induction false} SplitLinesDropsBoundaries(s: string)
    ensures |SplitLines(s)| == |SplitLinesKeepEnds(s)|
    ensures forall k :: 0 <= k < |SplitLines(s)| ==>
      DropsBoundary(SplitLines(s)[k], SplitLinesKeepEnds(s)[k], k == |SplitLines(s)| - 1)
    decreases |s|
  {
    if s != [] {
      var i := LineEnd(s);
      if i < |s| {
        var j := i + BoundaryWidth(s, i);
        var tail := s[j..];
        SplitLinesDropsBoundaries(tail);
        var head, full := s[..i], s[..j];
        SplitLinesStep(s, i, j);
        KeepEndsStep(s, i, j);
        BoundaryAt(s, i);
        assert full[..i] == head && full[i..] == s[i..j];
        DropsBoundaryCons(head, full, SplitLines(tail), SplitLinesKeepEnds(tail));
      } else {
        assert SplitLines(s) == [s] && SplitLinesKeepEnds(s) == [s];
      }
    }
  }

  /** Text without a boundary is one line. */
  lemma SplitLinesOfOneLine(s: string)
    requires s != [] && NoLineBreak(s)
    ensures SplitLines(s) == [s]
  {
    assert LineEnd(s) == |s|;
  }

  /** "\r\n" ends one line, not two. */
  lemma SplitLinesCrLf(line: string, rest: string)
    requires NoLineBreak(line)
    ensures SplitLines(line + "\r\n" + rest) == [line] + SplitLines(rest)
  {
    var tail := "\r\n" + rest;
    var s := line + tail;
    assert s == line + "\r\n" + rest;
    assert tail[0] == '\r' && tail[1] == '\n';
    LineEndAt(line, tail);
    var i := |line|;
    assert s[i] == '\r' && s[i + 1] == '\n';
    assert BoundaryWidth(s, i) == 2;
    assert s[..i] == line && s[i + 2..] == rest;
    assert SplitLines(s) == [s[..i]] + SplitLines(s[i + 2..]);
  }

  /** The first boundary of `line + rest` is the one `rest` starts with. */
  lemma {:induction false} LineEndAt(line: string, rest: string)
    requires NoLineBreak(line)
    requires rest != [] && IsLineBreak(rest[0])
    ensures LineEnd(line + rest) == |line|
    decreases |line|
  {
    if line != [] {
      assert (line + rest)[1..] == line[1..] + rest;
      LineEndAt(line[1..], rest);
    }
  }

  /** One line followed by "\n" and more text splits off as that line. */
  lemma SplitLinesOfNewlineTerminated(line: string, rest: string)
    requires NoLineBreak(line)
    ensures SplitLines(line + "\n" + rest) == [line] + SplitLines(rest)
  {
    var s := line + "\n" + rest;
    assert s[|line|] == '\n' && IsLineBreak('\n');
    assert LineEnd(s) == |line|;
    assert s[..|line|] == line;
    assert s[|line| + 1..] == rest;
  }
}
