/**
 * FinderSelectionManager: which paths count as videos, and how the selection
 * that Finder reports is turned into paths. The AppleScript run and the
 * frontmost-application query are replaced by their results, passed in.
 */
module FinderSelection {
  import opened Wrappers
  import opened Sequences
  import opened Paths

  /** The eleven extensions the player is offered, in lower case. */
  const SupportedExtensions: seq<string> :=
    ["mkv", "avi", "webm", "mp4", "m4v", "mov", "wmv", "flv", "ts", "mts", "m2ts"]

  const FinderBundleId: string := "com.apple.finder"

  /** A path is a video file when its lower-cased extension is on the list. */
  predicate IsVideoFile(path: string): (r: bool)
    ensures r ==> '.' in LastPathComponent(path)
    ensures r ==> 2 <= |PathExtension(path)| <= 4
  {
    assert forall e <- SupportedExtensions :: 2 <= |e| <= 4;
    Lowercased(PathExtension(path)) in SupportedExtensions
  }

  /** Classification by extension, whatever the letter case of the extension. */
  lemma VideoFileByExtension(dir: string, stem: string, ext: string)
    requires stem != [] && '/' !in stem
    requires '/' !in ext && '.' !in ext
    ensures IsVideoFile(dir + "/" + (stem + "." + ext)) <==> Lowercased(ext) in SupportedExtensions
  {
    ExtensionOfJoinedPath(dir, stem, ext);
  }

  /** A file name without an extension is never a video file. */
  lemma NoExtensionIsNotVideo(path: string)
    requires '.' !in LastPathComponent(path)
    ensures !IsVideoFile(path)
  {
  }

  /** "movie.MKV" is a video file, in any directory. */
  lemma UpperCaseMkvIsVideo(dir: string)
    ensures IsVideoFile(dir + "/" + ("movie" + "." + "MKV"))
  {
    VideoFileByExtension(dir, "movie", "MKV");
    MkvIsSupported();
  }

  lemma MkvIsSupported()
    ensures Lowercased("MKV") in SupportedExtensions
  {
    assert Lowercased("MKV") == "mkv" == SupportedExtensions[0];
  }

  /** "movie.txt" is not a video file, in any directory. */
  lemma TextFileIsNotVideo(dir: string)
    ensures !IsVideoFile(dir + "/" + ("movie" + "." + "txt"))
  {
    VideoFileByExtension(dir, "movie", "txt");
    TxtIsNotSupported();
  }

  lemma TxtIsNotSupported()
    ensures Lowercased("txt") !in SupportedExtensions
  {
    assert Lowercased("txt") == "txt";
    assert forall e <- SupportedExtensions :: |e| != 3 || e[0] != 't';
  }

  /** Foundation's `whitespacesAndNewlines`: Unicode category Zs, tab, U+000A-U+000D, U+0085, U+2028, U+2029. */
  const Whitespace: set<char> := {
    '\t', '\n', '\U{B}', '\U{C}', '\r', '\U{85}', '\U{2028}', '\U{2029}',
    ' ', '\U{A0}', '\U{1680}', '\U{2000}', '\U{2001}', '\U{2002}', '\U{2003}', '\U{2004}',
    '\U{2005}', '\U{2006}', '\U{2007}', '\U{2008}', '\U{2009}', '\U{200A}', '\U{202F}',
    '\U{205F}', '\U{3000}' }

  predicate IsWhitespace(c: char) {
    c in Whitespace
  }

  function DropLeadingWhitespace(s: string): (r: string)
    ensures |r| <= |s| && r == s[|s| - |r|..]
    ensures r == [] || !IsWhitespace(r[0])
    ensures forall i :: 0 <= i < |s| - |r| ==> IsWhitespace(s[i])
  {
    if s != [] && IsWhitespace(s[0]) then
      var r := DropLeadingWhitespace(s[1..]);
      assert s[1..][|s| - 1 - |r|..] == s[|s| - |r|..];
      assert forall i :: 1 <= i < |s| ==> s[i] == s[1..][i - 1];
      r
    else s
  }

  function DropTrailingWhitespace(s: string): (r: string)
    ensures r <= s
    ensures r == [] || !IsWhitespace(r[|r| - 1])
    ensures forall i :: |r| <= i < |s| ==> IsWhitespace(s[i])
  {
    if s != [] && IsWhitespace(s[|s| - 1]) then DropTrailingWhitespace(s[..|s| - 1]) else s
  }

  /** Neither starts nor ends with white space. */
  predicate IsTrimmed(s: string) {
    s == [] || (!IsWhitespace(s[0]) && !IsWhitespace(s[|s| - 1]))
  }

  /** Stripping white space from the front and then from the back leaves an infix of the input. */
  lemma StrippedInfix(s: string, d: string, r: string)
    requires |d| <= |s| && d == s[|s| - |d|..] && forall k :: 0 <= k < |s| - |d| ==> IsWhitespace(s[k])
    requires r <= d && forall k :: |r| <= k < |d| ==> IsWhitespace(d[k])
    ensures exists i, j ::
              && 0 <= i <= j <= |s| && r == s[i..j]
              && (forall k :: 0 <= k < i ==> IsWhitespace(s[k]))
              && (forall k :: j <= k < |s| ==> IsWhitespace(s[k]))
  {
    var i, j := |s| - |d|, |s| - |d| + |r|;
    assert r == s[i..j];
    assert forall k :: j <= k < |s| ==> s[k] == d[k - i];
  }

  /** `trimmingCharacters(in: .whitespacesAndNewlines)`. */
  function Trim(s: string): (r: string)
    ensures |r| <= |s|
    ensures IsTrimmed(r)
    ensures r == [] <==> forall i :: 0 <= i < |s| ==> IsWhitespace(s[i])
    ensures IsTrimmed(s) ==> r == s
  {
    DropTrailingWhitespace(DropLeadingWhitespace(s))
  }

  /** Trimming removes white space at the two ends and nothing else. */
  lemma TrimRemovesOnlyEnds(s: string)
    ensures exists i, j ::
              && 0 <= i <= j <= |s| && Trim(s) == s[i..j]
              && (forall k :: 0 <= k < i ==> IsWhitespace(s[k]))
              && (forall k :: j <= k < |s| ==> IsWhitespace(s[k]))
  {
    var d := DropLeadingWhitespace(s);
    StrippedInfix(s, d, DropTrailingWhitespace(d));
  }

  /** `components(separatedBy: "\n")`: the pieces between line feeds, the empty ones included. */
  function SplitLines(s: string): (r: seq<string>)
    ensures |r| == multiset(s)['\n'] + 1
    ensures forall k :: 0 <= k < |r| ==> '\n' !in r[k]
  {
    match IndexOf(s, '\n')
    case None => [s]
    case Some(i) =>
      assert s == s[..i] + ['\n'] + s[i + 1..];
      assert multiset(s)['\n'] == multiset(s[i + 1..])['\n'] + 1;
      [s[..i]] + SplitLines(s[i + 1..])
  }

  /** Trims every piece and keeps the non-empty ones. */
  function TrimAndDropEmpty(pieces: seq<string>): (r: seq<string>)
    ensures |r| <= |pieces|
    ensures forall p <- r :: p != [] && IsTrimmed(p)
  {
    if pieces == [] then []
    else
      var t := Trim(pieces[0]);
      var rest := TrimAndDropEmpty(pieces[1..]);
      if t == [] then rest else [t] + rest
  }

  /**
   * The paths in the text Finder's selection script returns: split at line
   * feeds, trimmed, empty lines dropped. No path is empty or starts or ends
   * with white space, and there are never more paths than lines.
   */
  function ParseSelection(output: string): (paths: seq<string>)
    ensures |paths| <= multiset(output)['\n'] + 1
    ensures forall p <- paths :: p != [] && IsTrimmed(p)
  {
    TrimAndDropEmpty(SplitLines(output))
  }

  /**
   * `getFinderSelection`: `None` stands for every way the script can fail
   * (it cannot be built, it reports an error, or its result is not text).
   */
  function FinderSelectionPaths(scriptResult: Option<string>): (paths: seq<string>)
    ensures scriptResult.None? ==> paths == []
    ensures forall p <- paths :: p != []
  {
    match scriptResult
    case None => []
    case Some(output) => ParseSelection(output)
  }

  /** The text the selection script builds: every POSIX path followed by a line feed. */
  function ScriptOutput(paths: seq<string>): (r: string)
    ensures r == [] <==> paths == []
    ensures paths != [] ==> r[|r| - 1] == '\n'
    ensures (forall p <- paths :: '\n' !in p) ==> multiset(r)['\n'] == |paths|
  {
    if paths == [] then []
    else
      assert forall p <- paths[1..] :: p in paths;
      assert '\n' !in paths[0] ==> multiset(paths[0])['\n'] == 0;
      paths[0] + ['\n'] + ScriptOutput(paths[1..])
  }

  /** A path the selection text carries unchanged: not empty, one line, not padded with white space. */
  predicate IsCleanPath(p: string) {
    p != [] && '\n' !in p && IsTrimmed(p)
  }

  /** The first line is cut at the first line feed. */
  lemma SplitLinesAtFirstFeed(first: string, rest: string)
    requires '\n' !in first
    ensures SplitLines(first + ['\n'] + rest) == [first] + SplitLines(rest)
  {
    var s := first + ['\n'] + rest;
    IndexOfSplit(first, '\n', rest);
    assert s[..|first|] == first;
    assert s[|first| + 1..] == rest;
  }

  lemma {:induction false} SplitScriptOutput(paths: seq<string>)
    requires forall k :: 0 <= k < |paths| ==> '\n' !in paths[k]
    ensures SplitLines(ScriptOutput(paths)) == paths + [""]
  {
    if paths != [] {
      var first, rest := paths[0], ScriptOutput(paths[1..]);
      calc {
        SplitLines(ScriptOutput(paths));
        SplitLines(first + ['\n'] + rest);
        { SplitLinesAtFirstFeed(first, rest); }
        [first] + SplitLines(rest);
        { SplitScriptOutput(paths[1..]); }
        [first] + (paths[1..] + [""]);
        { assert paths == [first] + paths[1..]; }
        paths + [""];
      }
    }
  }

  lemma {:induction false} TrimAndDropEmptyClean(paths: seq<string>)
    requires forall k :: 0 <= k < |paths| ==> IsCleanPath(paths[k])
    ensures TrimAndDropEmpty(paths + [""]) == paths
  {
    if paths == [] {
      assert Trim("") == "";
    } else {
      assert (paths + [""])[1..] == paths[1..] + [""];
      TrimAndDropEmptyClean(paths[1..]);
      assert paths == [paths[0]] + paths[1..];
    }
  }

  /** Parsing recovers exactly the paths the selection script printed. */
  lemma ParseScriptOutput(paths: seq<string>)
    requires forall k :: 0 <= k < |paths| ==> IsCleanPath(paths[k])
    ensures ParseSelection(ScriptOutput(paths)) == paths
  {
    SplitScriptOutput(paths);
    TrimAndDropEmptyClean(paths);
  }

  /**
   * Trimming is lossy: a selected path that ends in a space comes back
   * without it, so the path handed on is not the one that was selected.
   */
  lemma PaddedPathComesBackTrimmed(p: string)
    requires IsCleanPath(p)
    ensures ParseSelection(ScriptOutput([p + " "])) == [p]
  {
    var q := p + " ";
    SplitScriptOutput([q]);
    assert q[0] == p[0] && IsWhitespace(q[|q| - 1]);
    assert DropLeadingWhitespace(q) == q;
    assert q[..|q| - 1] == p;
    assert Trim(q) == p;
    var lines := SplitLines(ScriptOutput([q]));
    assert lines[0] == q && lines[1..] == [""];
    assert TrimAndDropEmpty(lines[1..]) == [];
  }

  /** `getSelectedVideoFile`: the first video file among the selected paths. */
  function SelectedVideoFile(scriptResult: Option<string>): (r: Option<string>)
    ensures r.Some? ==> IsVideoFile(r.value) && r.value in FinderSelectionPaths(scriptResult)
    ensures r.None? <==> forall p <- FinderSelectionPaths(scriptResult) :: !IsVideoFile(p)
    ensures r.Some? ==>
      var paths := FinderSelectionPaths(scriptResult);
      forall j :: 0 <= j < IndexOf(paths, r.value).value ==> !IsVideoFile(paths[j])
  {
    FirstWhere(FinderSelectionPaths(scriptResult), IsVideoFile)
  }

  /** `isFinderFrontmost`: `None` stands for no frontmost application or one without a bundle identifier. */
  predicate IsFinderFrontmost(frontmostBundleId: Option<string>): (r: bool)
    ensures r <==> frontmostBundleId.Some? && frontmostBundleId.value == "com.apple.finder"
  {
    frontmostBundleId == Some(FinderBundleId)
  }
}
