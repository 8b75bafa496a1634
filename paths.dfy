/**
 * The parts of Foundation's file-URL API that the core uses: `lastPathComponent`,
 * `deletingLastPathComponent`, `pathExtension` and `lowercased()`. A file URL is
 * modelled by its path string.
 */
module Paths {
  import opened Wrappers
  import opened Sequences

  /** The path without the trailing separators a directory URL carries. */
  function TrimTrailingSlashes(p: string): (r: string)
    ensures r <= p
    ensures r == [] || r[|r| - 1] != '/'
    ensures forall i :: |r| <= i < |p| ==> p[i] == '/'
  {
    if p != [] && p[|p| - 1] == '/' then TrimTrailingSlashes(p[..|p| - 1]) else p
  }

  /** The file name: what follows the last separator. */
  function LastPathComponent(p: string): (r: string)
    ensures '/' !in r
    ensures |r| <= |TrimTrailingSlashes(p)|
    ensures r == TrimTrailingSlashes(p)[|TrimTrailingSlashes(p)| - |r|..]
  {
    var q := TrimTrailingSlashes(p);
    match LastIndexOf(q, '/')
    case None => q
    case Some(i) => q[i + 1..]
  }

  /** The parent directory: the path up to and including the last separator. */
  function DeletingLastPathComponent(p: string): (r: string)
    ensures r + LastPathComponent(p) == TrimTrailingSlashes(p)
    ensures r == [] || r[|r| - 1] == '/'
  {
    var q := TrimTrailingSlashes(p);
    match LastIndexOf(q, '/')
    case None => []
    case Some(i) => q[..i + 1]
  }

  /**
   * The extension: what follows the last dot of the file name. A name whose only
   * dot is its first character (a hidden file such as ".profile") has none.
   */
  function PathExtension(p: string): (r: string)
    ensures '.' !in r && '/' !in r
    ensures r != [] ==> '.' in LastPathComponent(p)
  {
    var name := LastPathComponent(p);
    match LastIndexOf(name, '.')
    case None => []
    case Some(i) => if i == 0 then [] else name[i + 1..]
  }

  function LowerChar(c: char): char {
    if 'A' <= c <= 'Z' then (c as int - 'A' as int + 'a' as int) as char else c
  }

  /** `lowercased()` on the ASCII range; every other character is kept. */
  function Lowercased(s: string): (r: string)
    ensures |r| == |s|
    ensures forall i :: 0 <= i < |s| ==> r[i] == LowerChar(s[i])
  {
    seq(|s|, i requires 0 <= i < |s| => LowerChar(s[i]))
  }

  /** The file name of a path joined from a directory and a name is that name. */
  lemma {:induction false} LastComponentOfJoinedPath(dir: string, name: string)
    requires name != [] && '/' !in name
    ensures LastPathComponent(dir + "/" + name) == name
  {
    var p := dir + "/" + name;
    assert p == dir + ['/'] + name;
    assert p[|p| - 1] == name[|name| - 1];
    assert TrimTrailingSlashes(p) == p;
    LastIndexOfSplit(dir, '/', name);
    assert p[|dir| + 1..] == name;
  }

  /** A file name made of a non-empty stem, a dot and a dot-free extension has that extension. */
  lemma {:induction false} ExtensionOfJoinedPath(dir: string, stem: string, ext: string)
    requires stem != [] && '/' !in stem
    requires '/' !in ext && '.' !in ext
    ensures PathExtension(dir + "/" + (stem + "." + ext)) == ext
  {
    var name := stem + "." + ext;
    assert name == stem + ['.'] + ext;
    assert '/' !in name;
    LastComponentOfJoinedPath(dir, name);
    LastIndexOfSplit(stem, '.', ext);
    assert name[|stem| + 1..] == ext;
  }
}
