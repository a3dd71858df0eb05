/**
 Reading NayDuck test lists: `./<path>` lines include other files, up to a depth of 4, and with
 comments asked for, `#./<path>` lines include files whose lines are then commented out.

 The file system is a total function; `rstrip` depends on what counts as white space.
 */
module Nayduck {
  import opened Sequences

  datatype FileSystem = FileSystem(
    read: string -> seq<string>,
    join: (string, string) -> string,
    parent: string -> string,
    isSpace: char -> bool)

  const MAX_DEPTH: nat := 4

  function RStrip(fs: FileSystem, line: string): string {
    if line != [] && fs.isSpace(line[|line| - 1]) then RStrip(fs, line[..|line| - 1]) else line
  }

  function LStripHash(line: string): string {
    if line != [] && line[0] == '#' then LStripHash(line[1..]) else line
  }

  /** The longest beginning that does not end in white space. */
  lemma {:induction false} RStripIs(fs: FileSystem, line: string)
    ensures var r := RStrip(fs, line);
            && r <= line && (r != [] ==> !fs.isSpace(r[|r| - 1]))
            && forall i :: |r| <= i < |line| ==> fs.isSpace(line[i])
  {
    if line != [] && fs.isSpace(line[|line| - 1]) {
      RStripIs(fs, line[..|line| - 1]);
    }
  }

  /** Exactly the leading hash signs are dropped. */
  lemma {:induction false} LStripHashIs(line: string, n: nat)
    requires n <= |line| && (forall i :: 0 <= i < n ==> line[i] == '#') && (n < |line| ==> line[n] != '#')
    ensures LStripHash(line) == line[n..]
  {
    if n == 0 {
      assert line[0..] == line;
    } else {
      LStripHashIs(line[1..], n - 1);
      assert line[1..][n - 1..] == line[n..];
    }
  }

  predicate IsComment(line: string) {
    line != [] && line[0] == '#'
  }

  predicate IsInclude(line: string, comments: bool) {
    "./" <= line || (comments && "#./" <= line)
  }

  /** What one line contributes. */
  function ExpandLine(fs: FileSystem, raw: string, dir: string, depth: nat, comment: bool, comments: bool): seq<string>
    requires depth <= MAX_DEPTH
    decreases MAX_DEPTH - depth, 0
  {
    var line := RStrip(fs, raw);
    if IsInclude(line, comments) then
      if depth == MAX_DEPTH then []
      else
        var path := fs.join(dir, LStripHash(line));
        Expand(fs, fs.read(path), fs.parent(path), depth + 1, comment || IsComment(line), comments)
    else if comments || (line != [] && !IsComment(line)) then
      [if comment && !IsComment(line) then "#" + line else line]
    else []
  }

  function Expand(fs: FileSystem, lines: seq<string>, dir: string, depth: nat, comment: bool,
                  comments: bool): seq<string>
    requires depth <= MAX_DEPTH
    decreases MAX_DEPTH - depth, 1, |lines|
  {
    if lines == [] then []
    else ExpandLine(fs, lines[0], dir, depth, comment, comments) + Expand(fs, lines[1..], dir, depth, comment, comments)
  }

  /**
   Includes: the file named by the line, behind its hash sign, seen from the directory of the
   file that the line stands in; the lines of that file are read as from its own directory, one
   level deeper, and commented out below a hash sign.  At the deepest level nothing is read.
   */
  lemma IncludeReads(fs: FileSystem, name: string, hash: bool, dir: string, depth: nat, comment: bool, comments: bool)
    requires depth <= MAX_DEPTH && "./" <= name && !fs.isSpace(name[|name| - 1]) && (hash ==> comments)
    ensures var path := fs.join(dir, name);
            ExpandLine(fs, if hash then "#" + name else name, dir, depth, comment, comments) ==
            if depth == 4 then []
            else Expand(fs, fs.read(path), fs.parent(path), depth + 1, comment || hash, comments)
  {
    hide Expand;
    var line := if hash then "#" + name else name;
    assert line[|line| - 1] == name[|name| - 1];
    assert RStrip(fs, line) == line;
    assert name[0] == '.' && LStripHash(name) == name;
    if hash {
      assert line[0] == '#' && line[1..] == name;
      assert "#./" <= line && LStripHash(line) == name;
    }
  }

  /** Other lines: tests are kept, or commented out; comments and empty lines only where comments are asked for. */
  lemma OtherLineIs(fs: FileSystem, line: string, dir: string, depth: nat, comment: bool, comments: bool)
    requires depth <= MAX_DEPTH && (line != [] ==> !fs.isSpace(line[|line| - 1]))
    requires !("./" <= line) && (comments ==> !("#./" <= line))
    ensures ExpandLine(fs, line, dir, depth, comment, comments) ==
            if "#" <= line || (line == [] && !comment) then if comments then [line] else []
            else if !comment then [line]
            else if comments || line != [] then ["#" + line] else []
  {
    hide Expand;
    assert RStrip(fs, line) == line;
    assert "#" <= line <==> IsComment(line);
  }

  /** White space at the end of a line changes nothing. */
  lemma TrailingSpaceIsIgnored(fs: FileSystem, line: string, dir: string, depth: nat, comment: bool, comments: bool)
    requires depth <= MAX_DEPTH
    ensures ExpandLine(fs, line, dir, depth, comment, comments) ==
            ExpandLine(fs, RStrip(fs, line), dir, depth, comment, comments)
  {
    hide Expand;
    RStripIs(fs, line);
    assert RStrip(fs, RStrip(fs, line)) == RStrip(fs, line);
  }

  /** The output is the concatenation of what the lines contribute, in order. */
  lemma {:induction false} ExpandIsFlat(fs: FileSystem, lines: seq<string>, dir: string, depth: nat, comment: bool,
                                        comments: bool, parts: seq<seq<string>>)
    requires depth <= MAX_DEPTH && |parts| == |lines|
    requires forall i :: 0 <= i < |lines| ==> parts[i] == ExpandLine(fs, lines[i], dir, depth, comment, comments)
    ensures Expand(fs, lines, dir, depth, comment, comments) == Flat(parts)
  {
    hide ExpandLine;
    if lines != [] {
      ExpandIsFlat(fs, lines[1..], dir, depth, comment, comments, parts[1..]);
    }
  }

  lemma ExpandNothing(fs: FileSystem, dir: string, depth: nat, comment: bool, comments: bool)
    requires depth <= MAX_DEPTH
    ensures Expand(fs, [], dir, depth, comment, comments) == []
  {
  }

  lemma ExpandStep(fs: FileSystem, lines: seq<string>, k: nat, dir: string, depth: nat, comment: bool, comments: bool)
    requires depth <= MAX_DEPTH && k < |lines|
    ensures Expand(fs, lines[k..], dir, depth, comment, comments) ==
            ExpandLine(fs, lines[k], dir, depth, comment, comments) +
                Expand(fs, lines[k + 1..], dir, depth, comment, comments)
  {
    hide ExpandLine;
    assert lines[k..][0] == lines[k] && lines[k..][1..] == lines[k + 1..];
  }

  /** The generator `impl`, collecting what it yields. */
  method ReadTests(fs: FileSystem, lines: seq<string>, dir: string, depth: nat, comment: bool, comments: bool)
    returns (out: seq<string>)
    requires depth <= MAX_DEPTH
    ensures out == Expand(fs, lines, dir, depth, comment, comments)
    decreases MAX_DEPTH - depth, 1
  {
    hide ExpandLine, Expand;
    out := [];
    ExpandNothing(fs, dir, depth, comment, comments);
    assert lines[0..] == lines;
    for k := 0 to |lines|
      invariant out + Expand(fs, lines[k..], dir, depth, comment, comments) ==
          Expand(fs, lines, dir, depth, comment, comments)
    {
      ExpandStep(fs, lines, k, dir, depth, comment, comments);
      var more := ReadLine(fs, lines[k], dir, depth, comment, comments);
      assert out + (more + Expand(fs, lines[k + 1..], dir, depth, comment, comments)) ==
          out + more + Expand(fs, lines[k + 1..], dir, depth, comment, comments);
      out := out + more;
    }
    assert lines[|lines|..] == [] && out + [] == out;
  }

  /** The body of its loop. */
  method ReadLine(fs: FileSystem, raw: string, dir: string, depth: nat, comment: bool, comments: bool)
    returns (out: seq<string>)
    requires depth <= MAX_DEPTH
    ensures out == ExpandLine(fs, raw, dir, depth, comment, comments)
    decreases MAX_DEPTH - depth, 0
  {
    hide Expand;
    out := [];
    var line := RStrip(fs, raw);
    if IsInclude(line, comments) {
      if depth < MAX_DEPTH {
        var path := fs.join(dir, LStripHash(line));
        out := ReadTests(fs, fs.read(path), fs.parent(path), depth + 1, comment || IsComment(line), comments);
      }
    } else if comments || (line != [] && !IsComment(line)) {
      if comment && !IsComment(line) {
        line := "#" + line;
      }
      out := [line];
    }
  }

  /** `__read_tests`: the listed lines are at depth 1, seen from the given directory, and not commented out. */
  method ReadAllTests(fs: FileSystem, lines: seq<string>, dir: string, comments: bool) returns (out: seq<string>)
    ensures out == Expand(fs, lines, dir, 1, false, comments)
  {
    out := ReadTests(fs, lines, dir, 1, false, comments);
  }

  // Plain output is the commented output without comments and empty lines

  function Uncommented(lines: seq<string>): seq<string> {
    if lines == [] then []
    else (if lines[0] == [] || IsComment(lines[0]) then [] else [lines[0]]) + Uncommented(lines[1..])
  }

  predicate AllComments(lines: seq<string>) {
    forall i :: 0 <= i < |lines| ==> IsComment(lines[i])
  }

  lemma {:induction false} UncommentedAppend(a: seq<string>, b: seq<string>)
    ensures Uncommented(a + b) == Uncommented(a) + Uncommented(b)
  {
    if a == [] {
      assert a + b == b;
    } else {
      assert (a + b)[1..] == a[1..] + b;
      UncommentedAppend(a[1..], b);
    }
  }

  lemma {:induction false} UncommentedNothing(lines: seq<string>)
    requires AllComments(lines)
    ensures Uncommented(lines) == []
  {
    if lines != [] {
      UncommentedNothing(lines[1..]);
    }
  }

  /** Every line that comes out of a commented include, at any depth, is a comment. */
  lemma {:induction false} CommentedIncludeIsComment(fs: FileSystem, lines: seq<string>, dir: string, depth: nat)
    requires depth <= MAX_DEPTH
    ensures AllComments(Expand(fs, lines, dir, depth, true, true))
    decreases MAX_DEPTH - depth, |lines|
  {
    if lines != [] {
      CommentedIncludeIsComment(fs, lines[1..], dir, depth);
      var line := RStrip(fs, lines[0]);
      if IsInclude(line, true) && depth < MAX_DEPTH {
        var path := fs.join(dir, LStripHash(line));
        CommentedIncludeIsComment(fs, fs.read(path), fs.parent(path), depth + 1);
      }
      assert AllComments(ExpandLine(fs, lines[0], dir, depth, true, true));
    }
  }

  lemma {:induction false} PlainLine(fs: FileSystem, raw: string, dir: string, depth: nat)
    requires depth <= MAX_DEPTH
    ensures ExpandLine(fs, raw, dir, depth, false, false) == Uncommented(ExpandLine(fs, raw, dir, depth, false, true))
    decreases MAX_DEPTH - depth, 0
  {
    var line := RStrip(fs, raw);
    if !IsInclude(line, true) {
      assert [line][1..] == [];
    } else if depth < MAX_DEPTH {
      var path := fs.join(dir, LStripHash(line));
      if IsComment(line) {
        CommentedIncludeIsComment(fs, fs.read(path), fs.parent(path), depth + 1);
        UncommentedNothing(Expand(fs, fs.read(path), fs.parent(path), depth + 1, true, true));
      } else {
        PlainIsUncommented(fs, fs.read(path), fs.parent(path), depth + 1);
      }
    }
  }

  /** For every file system, cyclic includes among them. */
  lemma {:induction false} PlainIsUncommented(fs: FileSystem, lines: seq<string>, dir: string, depth: nat)
    requires depth <= MAX_DEPTH
    ensures Expand(fs, lines, dir, depth, false, false) == Uncommented(Expand(fs, lines, dir, depth, false, true))
    decreases MAX_DEPTH - depth, 1, |lines|
  {
    if lines != [] {
      PlainLine(fs, lines[0], dir, depth);
      PlainIsUncommented(fs, lines[1..], dir, depth);
      UncommentedAppend(ExpandLine(fs, lines[0], dir, depth, false, true),
          Expand(fs, lines[1..], dir, depth, false, true));
    }
  }
}
