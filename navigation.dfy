/**
 * FinderSelectionManager's sibling navigation: the video files of a directory,
 * sorted by name, and the next or previous one with wrap-around. The
 * directory read is a function from a directory path to its listing (`None`
 * when it cannot be read); Foundation's `localizedStandardCompare` is the
 * abstract name order `nameOrder(a, b)`, meaning "a sorts before b".
 */
module Navigation {
  import opened Wrappers
  import opened Sequences
  import opened Paths
  import opened FinderSelection
  import opened Sorting

  /** Paths ordered by their file names under `nameOrder`. */
  function ByName(nameOrder: (string, string) -> bool): (less: (string, string) -> bool)
    ensures StrictWeakOrder(nameOrder) ==> StrictWeakOrder(less)
  {
    ByKeyStrictWeakOrder(LastPathComponent, nameOrder);
    ByKey(LastPathComponent, nameOrder)
  }

  /**
   * `getSiblingVideoFiles`: the video files listed for the file's directory,
   * each as often as listed, and nothing when the directory cannot be read.
   */
  function SiblingVideoFiles(
    url: string, listDirectory: string -> Option<seq<string>>, nameOrder: (string, string) -> bool
  ): (siblings: seq<string>)
    ensures forall k :: 0 <= k < |siblings| ==> IsVideoFile(siblings[k])
    ensures listDirectory(DeletingLastPathComponent(url)).None? ==> siblings == []
    ensures listDirectory(DeletingLastPathComponent(url)).Some? ==>
      forall x :: multiset(siblings)[x] == if IsVideoFile(x) then multiset(listDirectory(DeletingLastPathComponent(url)).value)[x] else 0
  {
    match listDirectory(DeletingLastPathComponent(url))
    case None => []
    case Some(contents) => InsertionSort(Filter(contents, IsVideoFile), ByName(nameOrder))
  }

  /** Every sibling is a video file of the listing, and every video file of the listing is a sibling. */
  lemma SiblingsAreListedVideoFiles(
    url: string, listDirectory: string -> Option<seq<string>>, nameOrder: (string, string) -> bool, x: string
  )
    requires listDirectory(DeletingLastPathComponent(url)).Some?
    ensures x in SiblingVideoFiles(url, listDirectory, nameOrder) <==>
      IsVideoFile(x) && x in listDirectory(DeletingLastPathComponent(url)).value
  {
    var siblings := SiblingVideoFiles(url, listDirectory, nameOrder);
    assert x in siblings <==> x in multiset(siblings);
    assert x in listDirectory(DeletingLastPathComponent(url)).value <==>
      x in multiset(listDirectory(DeletingLastPathComponent(url)).value);
  }

  /** The siblings come in ascending name order. */
  lemma SiblingsSorted(url: string, listDirectory: string -> Option<seq<string>>, nameOrder: (string, string) -> bool)
    requires StrictWeakOrder(nameOrder)
    ensures Sorted(SiblingVideoFiles(url, listDirectory, nameOrder), ByName(nameOrder))
  {
    if listDirectory(DeletingLastPathComponent(url)).Some? {
      SortIsSorted(Filter(listDirectory(DeletingLastPathComponent(url)).value, IsVideoFile), ByName(nameOrder));
    }
  }

  /** A listing without repetitions gives siblings without repetitions. */
  lemma SiblingsDistinct(url: string, listDirectory: string -> Option<seq<string>>, nameOrder: (string, string) -> bool)
    requires listDirectory(DeletingLastPathComponent(url)).Some? ==> Distinct(listDirectory(DeletingLastPathComponent(url)).value)
    ensures Distinct(SiblingVideoFiles(url, listDirectory, nameOrder))
  {
    var siblings := SiblingVideoFiles(url, listDirectory, nameOrder);
    if listDirectory(DeletingLastPathComponent(url)).Some? {
      DistinctMultiset(listDirectory(DeletingLastPathComponent(url)).value);
      DistinctMultiset(siblings);
    }
  }

  /** The element after `current`, wrapping from the last to the first; `None` when `current` is absent. */
  function NextIn(siblings: seq<string>, current: string): (r: Option<string>)
    ensures r.None? <==> current !in siblings
    ensures r.Some? ==> r.value in siblings
  {
    match IndexOf(siblings, current)
    case None => None
    case Some(i) => if i + 1 < |siblings| then Some(siblings[i + 1]) else Some(siblings[0])
  }

  /** The element before `current`, wrapping from the first to the last; `None` when `current` is absent. */
  function PreviousIn(siblings: seq<string>, current: string): (r: Option<string>)
    ensures r.None? <==> current !in siblings
    ensures r.Some? ==> r.value in siblings
  {
    match IndexOf(siblings, current)
    case None => None
    case Some(i) => if i > 0 then Some(siblings[i - 1]) else Some(siblings[|siblings| - 1])
  }

  /** In a list without repetitions, next moves one place forward, wrapping at the end. */
  lemma NextAt(siblings: seq<string>, i: nat)
    requires Distinct(siblings) && i < |siblings|
    ensures NextIn(siblings, siblings[i]) == Some(if i + 1 < |siblings| then siblings[i + 1] else siblings[0])
  {
    IndexOfDistinct(siblings, i);
  }

  /** In a list without repetitions, previous moves one place back, wrapping at the start. */
  lemma PreviousAt(siblings: seq<string>, i: nat)
    requires Distinct(siblings) && i < |siblings|
    ensures PreviousIn(siblings, siblings[i]) == Some(if i > 0 then siblings[i - 1] else siblings[|siblings| - 1])
  {
    IndexOfDistinct(siblings, i);
  }

  /** Going back then forward, or forward then back, returns to the same file. */
  lemma NavigationRoundTrip(siblings: seq<string>, current: string)
    requires Distinct(siblings) && current in siblings
    ensures NextIn(siblings, PreviousIn(siblings, current).value) == Some(current)
    ensures PreviousIn(siblings, NextIn(siblings, current).value) == Some(current)
  {
    var i := IndexOf(siblings, current).value;
    var n := |siblings|;
    PreviousAt(siblings, i);
    NextAt(siblings, i);
    NextAt(siblings, if i > 0 then i - 1 else n - 1);
    PreviousAt(siblings, if i + 1 < n then i + 1 else 0);
  }

  /** A file alone in its list is its own next and previous file. */
  lemma SingleFileNavigation(current: string)
    ensures NextIn([current], current) == Some(current)
    ensures PreviousIn([current], current) == Some(current)
  {
  }

  /** The siblings of a file are exactly the video files of its directory's listing, when it can be read. */
  lemma SiblingMembership(current: string, listDirectory: string -> Option<seq<string>>, nameOrder: (string, string) -> bool)
    ensures forall x :: x in SiblingVideoFiles(current, listDirectory, nameOrder) <==>
      (listDirectory(DeletingLastPathComponent(current)).Some?
       && IsVideoFile(x) && x in listDirectory(DeletingLastPathComponent(current)).value)
  {
    forall x ensures x in SiblingVideoFiles(current, listDirectory, nameOrder) <==>
      (listDirectory(DeletingLastPathComponent(current)).Some?
       && IsVideoFile(x) && x in listDirectory(DeletingLastPathComponent(current)).value)
    {
      if listDirectory(DeletingLastPathComponent(current)).Some? {
        SiblingsAreListedVideoFiles(current, listDirectory, nameOrder, x);
      }
    }
  }

  /** `getNextVideoFile`: the next sibling of `current`, from a fresh listing of its directory. */
  function NextVideoFile(
    current: string, listDirectory: string -> Option<seq<string>>, nameOrder: (string, string) -> bool
  ): (r: Option<string>)
    ensures r.Some? <==> (listDirectory(DeletingLastPathComponent(current)).Some?
      && IsVideoFile(current) && current in listDirectory(DeletingLastPathComponent(current)).value)
    ensures r.Some? ==> IsVideoFile(r.value) && r.value in listDirectory(DeletingLastPathComponent(current)).value
  {
    SiblingMembership(current, listDirectory, nameOrder);
    NextIn(SiblingVideoFiles(current, listDirectory, nameOrder), current)
  }

  /** `getPreviousVideoFile`: the previous sibling of `current`, from a fresh listing of its directory. */
  function PreviousVideoFile(
    current: string, listDirectory: string -> Option<seq<string>>, nameOrder: (string, string) -> bool
  ): (r: Option<string>)
    ensures r.Some? <==> (listDirectory(DeletingLastPathComponent(current)).Some?
      && IsVideoFile(current) && current in listDirectory(DeletingLastPathComponent(current)).value)
    ensures r.Some? ==> IsVideoFile(r.value) && r.value in listDirectory(DeletingLastPathComponent(current)).value
  {
    SiblingMembership(current, listDirectory, nameOrder);
    PreviousIn(SiblingVideoFiles(current, listDirectory, nameOrder), current)
  }

  /** A listing as a directory read returns it: every entry once, every entry inside the directory. */
  ghost predicate ListingOf(listDirectory: string -> Option<seq<string>>, dir: string) {
    listDirectory(dir).Some? ==>
      Distinct(listDirectory(dir).value) &&
      forall k :: 0 <= k < |listDirectory(dir).value| ==> DeletingLastPathComponent(listDirectory(dir).value[k]) == dir
  }

  /**
   * While the directory does not change, stepping back then forward (or
   * forward then back) from a listed video file returns to it.
   */
  lemma VideoNavigationRoundTrip(
    current: string, listDirectory: string -> Option<seq<string>>, nameOrder: (string, string) -> bool
  )
    requires ListingOf(listDirectory, DeletingLastPathComponent(current))
    requires listDirectory(DeletingLastPathComponent(current)).Some?
    requires IsVideoFile(current) && current in listDirectory(DeletingLastPathComponent(current)).value
    ensures NextVideoFile(PreviousVideoFile(current, listDirectory, nameOrder).value, listDirectory, nameOrder) == Some(current)
    ensures PreviousVideoFile(NextVideoFile(current, listDirectory, nameOrder).value, listDirectory, nameOrder) == Some(current)
  {
    var dir := DeletingLastPathComponent(current);
    var siblings := SiblingVideoFiles(current, listDirectory, nameOrder);
    SiblingsDistinct(current, listDirectory, nameOrder);
    SiblingsAreListedVideoFiles(current, listDirectory, nameOrder, current);
    NavigationRoundTrip(siblings, current);
    var prev := PreviousVideoFile(current, listDirectory, nameOrder).value;
    var next := NextVideoFile(current, listDirectory, nameOrder).value;
    assert DeletingLastPathComponent(prev) == dir;
    assert DeletingLastPathComponent(next) == dir;
    assert SiblingVideoFiles(prev, listDirectory, nameOrder) == siblings;
    assert SiblingVideoFiles(next, listDirectory, nameOrder) == siblings;
  }
}
