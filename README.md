# MKV QuickPlay core, modelled in Dafny

MKV QuickPlay is a macOS menu-bar utility. Control+Space previews the video selected in Finder by starting the external `mpv` player. The up and down arrows step to the previous or next video of the same directory, and Escape closes the preview. This project models the logic behind that:

- **Classification and selection** (`FinderSelection`, with `Paths` for the file-URL helpers): the case-insensitive extension allow-list, and the parsing of the newline-separated text that Finder's selection script returns. It proves that parsing recovers exactly the paths the script printed, provided every path is non-empty, a single line and not padded with white space. Trimming makes this lossy for other paths (`FinderSelection.PaddedPathComesBackTrimmed`).
- **Sibling navigation** (`Navigation`, with `Sorting` for `filter` and `sorted(by:)` over any element type): the video files of a directory, filtered from the listing and sorted by file name, and the next or previous one with wrap-around. It proves that the result is a sorted permutation of the listed video files, and that next and previous undo each other.
- **Player lifecycle** (`MpvLauncher`, class `Launcher`): the single tracked mpv process and its file. This covers the search for the executable, the argument list, `stop` clearing the bookkeeping before it signals the process, and the termination handler that reacts only to the tracked process.
- **Key dispatch** (`Hotkeys`): the pass-through-or-consume decision of the event tap, and the bookkeeping of the tap and its run-loop source (class `HotkeyManager`).
- **Application state** (`App`, class `AppDelegate`): `currentPreviewURL`, `justClosed` and the hotkey manager's `isPreviewActive` flag. It covers every action that changes them, with the invariant that the flag is set exactly while a preview file is recorded.
- `Scenarios` proves event sequences from those contracts alone: a stale or repeated exit notification, an exit after a close, and a preview with no player installed.

The environment is passed in as inputs. These are Finder's answer, the frontmost application, directory listings, `fileExists`, the outcome of starting the process, and whether a process is running. `localizedStandardCompare` becomes an abstract name order. The sortedness lemma requires that order to be a strict weak order, which is what `sorted(by:)` demands of its comparator.

Three behaviours of the code are worth stating up front, and the model keeps them:

- `playVideo` sets `isPreviewActive` even when mpv is missing or fails to start, so the arrow keys and Escape are then swallowed with no player on screen (`Scenarios.PreviewWithoutPlayer`).
- `play` records `currentFile` before the launch can fail, and `stop` with no tracked process leaves a stale `currentFile` in place (`MpvLauncher.Launcher.Played`).
- `justClosed` is written but never read, so it has no effect on behaviour.

## Model

| member | source | states |
|---|---|---|
| `Paths.Lowercased` | MKVQuickPlay/FinderSelectionManager.swift:56 | same length; every character is mapped by the ASCII lower-case mapping |
| `Paths.PathExtension` | MKVQuickPlay/FinderSelectionManager.swift:56 | the extension has no dot or separator and is empty unless the file name has a dot |
| `Paths.DeletingLastPathComponent` | MKVQuickPlay/FinderSelectionManager.swift:62 | the directory ends in a separator and, followed by the file name, gives back the path |
| `Paths.LastPathComponent` | MKVQuickPlay/MPVLauncher.swift:49 | the file name holds no separator and is a suffix of the path |
| `Paths.ExtensionOfJoinedPath` | MKVQuickPlay/FinderSelectionManager.swift:56 | a file named stem.ext in any directory has extension ext |
| `FinderSelection.IsVideoFile` | MKVQuickPlay/FinderSelectionManager.swift:55-58 | a video file's name has a dot and an extension of two to four characters (which one is fixed by `VideoFileByExtension`) |
| `FinderSelection.VideoFileByExtension` | MKVQuickPlay/FinderSelectionManager.swift:55-58 | such a file is a video file iff its lower-cased extension is one of the eleven listed |
| `FinderSelection.NoExtensionIsNotVideo` | MKVQuickPlay/FinderSelectionManager.swift:55-58 | a file name without a dot is never a video file |
| `FinderSelection.UpperCaseMkvIsVideo` | MKVQuickPlay/FinderSelectionManager.swift:7 | "movie.MKV" is accepted: the comparison ignores case |
| `FinderSelection.TextFileIsNotVideo` | MKVQuickPlay/FinderSelectionManager.swift:7 | "movie.txt" is rejected |
| `FinderSelection.Trim` | MKVQuickPlay/FinderSelectionManager.swift:48 | the result neither starts nor ends with white space, is empty iff the input is all white space, and leaves a trimmed input as it is |
| `FinderSelection.TrimRemovesOnlyEnds` | MKVQuickPlay/FinderSelectionManager.swift:48 | the trimmed line is an infix of the line with only white space before and after it |
| `FinderSelection.SplitLines` | MKVQuickPlay/FinderSelectionManager.swift:47 | one piece more than there are line feeds, no piece holding a line feed |
| `FinderSelection.ParseSelection` | MKVQuickPlay/FinderSelectionManager.swift:47-51 | no returned path is empty or padded with white space, and there are never more paths than lines |
| `FinderSelection.FinderSelectionPaths` | MKVQuickPlay/FinderSelectionManager.swift:31-51 | a failed script run yields no paths; no path is empty |
| `FinderSelection.ScriptOutput` | MKVQuickPlay/FinderSelectionManager.swift:17-28 | empty iff no path is selected; otherwise ends in a line feed, with exactly one line feed per path when no path holds one |
| `FinderSelection.ParseScriptOutput` | MKVQuickPlay/FinderSelectionManager.swift:17-51 | for paths that are non-empty, single-line and not padded with white space, parsing the text the selection script prints (each path followed by a line feed) gives back exactly those paths |
| `FinderSelection.PaddedPathComesBackTrimmed` | MKVQuickPlay/FinderSelectionManager.swift:47-49 | a selected path ending in a space comes back without it, so the parsed path is not the selected one |
| `Sequences.IndexOf` | MKVQuickPlay/FinderSelectionManager.swift:85 | none iff the element is absent; otherwise an index holding it with no earlier occurrence |
| `Sequences.FirstWhere` | MKVQuickPlay/FinderSelectionManager.swift:12 | none iff no element satisfies the predicate; otherwise an element that does, with none before it that does |
| `FinderSelection.IsFinderFrontmost` | MKVQuickPlay/FinderSelectionManager.swift:111-114 | true exactly when the frontmost application's bundle identifier is com.apple.finder; none is not Finder |
| `FinderSelection.SelectedVideoFile` | MKVQuickPlay/FinderSelectionManager.swift:10-13 | the result is a video file among the parsed selection, with no video file before it; none iff the selection holds no video file |
| `Sorting.Filter` | MKVQuickPlay/FinderSelectionManager.swift:72 | every element satisfying the predicate is kept as often as it occurs, and nothing else |
| `Sorting.InsertionSort` | MKVQuickPlay/FinderSelectionManager.swift:73 | the sorted list is a permutation of its input |
| `Sorting.SortIsSorted` | MKVQuickPlay/FinderSelectionManager.swift:73 | under a strict weak order, no element sorts before one placed earlier |
| `Sorting.ByKeyStrictWeakOrder` | MKVQuickPlay/FinderSelectionManager.swift:73 | comparing paths by their file names under a strict weak order is again a strict weak order |
| `Navigation.ByName` | MKVQuickPlay/FinderSelectionManager.swift:73 | the file-name comparator is a strict weak order whenever the name order is |
| `Navigation.SiblingVideoFiles` | MKVQuickPlay/FinderSelectionManager.swift:61-80 | every sibling is a video file; an unreadable directory gives none; otherwise each listed video file appears as often as listed |
| `Navigation.SiblingsAreListedVideoFiles` | MKVQuickPlay/FinderSelectionManager.swift:64-75 | a path is a sibling iff it is a listed video file |
| `Navigation.SiblingsSorted` | MKVQuickPlay/FinderSelectionManager.swift:71-73 | the siblings come in ascending name order |
| `Navigation.SiblingsDistinct` | MKVQuickPlay/FinderSelectionManager.swift:64-75 | a listing without repetitions gives siblings without repetitions |
| `Navigation.NextIn` | MKVQuickPlay/FinderSelectionManager.swift:85-93 | none iff the current file is absent; any result is in the list |
| `Navigation.PreviousIn` | MKVQuickPlay/FinderSelectionManager.swift:99-107 | none iff the current file is absent; any result is in the list |
| `Navigation.NextAt` | MKVQuickPlay/FinderSelectionManager.swift:83-94 | from index i, next is element i+1, or the first element from the last index |
| `Navigation.PreviousAt` | MKVQuickPlay/FinderSelectionManager.swift:97-108 | from index i, previous is element i-1, or the last element from index 0 |
| `Navigation.NavigationRoundTrip` | MKVQuickPlay/FinderSelectionManager.swift:83-108 | in a list without repetitions, next(previous(x)) == x and previous(next(x)) == x |
| `Navigation.SingleFileNavigation` | MKVQuickPlay/FinderSelectionManager.swift:83-108 | a file alone in its list is its own next and previous file |
| `Navigation.SiblingMembership` | MKVQuickPlay/FinderSelectionManager.swift:61-80 | a path is a sibling iff the directory is readable and lists it as a video file |
| `Navigation.NextVideoFile` | MKVQuickPlay/FinderSelectionManager.swift:83-94 | a result exists iff the directory is readable and lists the current file as a video file; the result is a listed video file |
| `Navigation.PreviousVideoFile` | MKVQuickPlay/FinderSelectionManager.swift:97-108 | a result exists iff the directory is readable and lists the current file as a video file; the result is a listed video file |
| `Navigation.VideoNavigationRoundTrip` | MKVQuickPlay/FinderSelectionManager.swift:61-108 | while the directory is unchanged, stepping back then forward (or forward then back) from a listed video file returns to it |
| `MpvLauncher.FindMpv` | MKVQuickPlay/MPVLauncher.swift:15-28 | the loop returns the first of the three install locations that exists, or none when none does |
| `MpvLauncher.MpvArguments` | MKVQuickPlay/MPVLauncher.swift:42-54 | eleven arguments; the seventh is "--title=" and the file name; the ninth and tenth turn off mpv's default and window key bindings; the last is the file path |
| `MpvLauncher.StopSignals` | MKVQuickPlay/MPVLauncher.swift:83-89 | nothing is sent to a process that is not running; otherwise terminate comes first, and every signal goes to that process |
| `MpvLauncher.PlayAlert` | MKVQuickPlay/MPVLauncher.swift:32-74 | no alert exactly when mpv was found and the process started; the not-found alert when mpv is missing; the launch-error alert carrying the reason when starting failed |
| `MpvLauncher.Launcher.constructor` | MKVQuickPlay/MPVLauncher.swift:8-13 | no process and no file are tracked |
| `MpvLauncher.Launcher.Stop` | MKVQuickPlay/MPVLauncher.swift:77-90 | with no tracked process nothing changes; otherwise process and file are cleared whatever the process's state, and the stop signals go to that process |
| `MpvLauncher.Launcher.Play` | MKVQuickPlay/MPVLauncher.swift:30-75 | stops first; without mpv nothing is tracked; otherwise the file is recorded and the started process (executable, arguments) is tracked, or none if the launch failed |
| `MpvLauncher.Launcher.HandleTermination` | MKVQuickPlay/MPVLauncher.swift:59-67 | onClose fires iff the exiting process is the tracked one; then the state is cleared, otherwise nothing changes |
| `MpvLauncher.Launcher.IsPlaying` | MKVQuickPlay/MPVLauncher.swift:92-94 | playing iff a process is tracked and it is running; false when none is tracked |
| `Hotkeys.Dispatch` | MKVQuickPlay/HotkeyManager.swift:107-148 | non-keyDown events pass through; Control+Space is always consumed for the hotkey; up, down and Escape are consumed iff a preview is active; with no preview every other key passes |
| `Hotkeys.HotkeyManager.constructor` | MKVQuickPlay/HotkeyManager.swift:7-10 | no tap, no run-loop source, no active preview |
| `Hotkeys.HotkeyManager.Start` | MKVQuickPlay/HotkeyManager.swift:55-83 | a no-op when a tap is installed or cannot be created; otherwise records the tap and its source |
| `Hotkeys.HotkeyManager.Stop` | MKVQuickPlay/HotkeyManager.swift:85-96 | the tap and the run-loop source are both nil afterwards |
| `Hotkeys.HotkeyManager.HandleEvent` | MKVQuickPlay/HotkeyManager.swift:98-149 | a tap-disabled event re-enables an installed tap and passes; the action is the dispatch decision with the current preview flag |
| `App.AppDelegate.constructor` | MKVQuickPlay/AppDelegate.swift:16-29 | fresh launcher and hotkey manager, no preview |
| `App.AppDelegate.PlayVideo` | MKVQuickPlay/AppDelegate.swift:149-154 | the preview URL is the file and the preview is active, whatever the launcher did; the launcher is left as its play leaves it |
| `App.AppDelegate.ClosePreview` | MKVQuickPlay/AppDelegate.swift:99-110 | the launcher is stopped, there is no preview URL, the preview is inactive and justClosed is set |
| `App.AppDelegate.OnPlayerClosed` | MKVQuickPlay/AppDelegate.swift:31-35 | there is no preview URL and the preview is inactive |
| `App.AppDelegate.ProcessExited` | MKVQuickPlay/MPVLauncher.swift:59-67 | only the tracked process's exit clears the launcher's process and file and the preview; any other exit changes nothing |
| `App.AppDelegate.PreviewSelectedVideo` | MKVQuickPlay/AppDelegate.swift:72-81 | nothing changes unless Finder is frontmost and a video is selected; then that video plays |
| `App.AppDelegate.NavigateToNextVideo` | MKVQuickPlay/AppDelegate.swift:83-89 | nothing changes without a preview URL or a next file; otherwise the next file plays |
| `App.AppDelegate.NavigateToPreviousVideo` | MKVQuickPlay/AppDelegate.swift:91-97 | nothing changes without a preview URL or a previous file; otherwise the previous file plays |
| `App.AppDelegate.OnHotkeyPressed` | MKVQuickPlay/AppDelegate.swift:47-53 | closes the preview when the launcher reports playing, otherwise previews the selection |
| `App.AppDelegate.RunCallback` | MKVQuickPlay/AppDelegate.swift:40-68 | up plays the previous video, down the next, Escape closes, the hotkey toggles |
| `App.AppDelegate.DeliverKeyEvent` | MKVQuickPlay/HotkeyManager.swift:111-148 | the decision uses whether a preview URL is recorded; a passed-through event changes nothing; a consumed one runs its callback |
| `App.AppDelegate.OpenFiles` | MKVQuickPlay/AppDelegate.swift:134-141 | replies success iff the list is non-empty and then plays only the first file; an empty list plays nothing |
| `App.AppDelegate.OpenFile` | MKVQuickPlay/AppDelegate.swift:129-132 | plays the file and replies success |
| `App.AppDelegate.OpenUrls` | MKVQuickPlay/AppDelegate.swift:143-147 | plays the first URL, or nothing for an empty list |
| `App.AppDelegate.DidFinishLaunching` | MKVQuickPlay/AppDelegate.swift:26-28 | starts the hotkey tap as `start` does |
| `App.AppDelegate.WillTerminate` | MKVQuickPlay/AppDelegate.swift:114-117 | the tap is removed and the launcher stopped; the preview fields are left as they are |
| `Scenarios.ExitNotifiedTwice` | MKVQuickPlay/MPVLauncher.swift:59-67 | onClose fires at most once per process: a second notification for the same identifier never fires |
| `Scenarios.ExitAfterClose` | MKVQuickPlay/AppDelegate.swift:99-110 | after a close, no exit notification fires onClose, so a stop-initiated exit never does |
| `Scenarios.StaleExitAfterReplay` | MKVQuickPlay/MPVLauncher.swift:30-67 | after playing another file, the replaced process's exit fires onClose only if the new process has the same identifier |
| `Scenarios.PreviewWithoutPlayer` | MKVQuickPlay/AppDelegate.swift:149-154 | with mpv missing, no process is tracked and nothing is playing, yet the preview is active and the arrow keys and Escape are swallowed |

## Left out

- StatusBarController is not part of this model. The `setActive` calls in `playVideo`, `closePreview` and `onClose` always mirror `isPreviewActive`, and the menu's preview item calls `previewSelectedVideo`, which is modelled.
- HotkeyManager's accessibility-permission check and alert, and the creation of the event tap and its run-loop registration, are left out. They are operating-system plumbing: `Start` receives the created tap and source as inputs. Enabling the tap in `start` and disabling it in `stop` are not modelled; re-enabling it in `handleEvent` appears only as the `reenableTap` flag.
- The AppleScript run and the `NSWorkspace` frontmost-application query are replaced by their results, as inputs. The script's output format is captured by `ScriptOutput`.
- `contentsOfDirectory` and `fileExists` are inputs. The listing is taken as the operating system returns it, with hidden entries already skipped.
- `localizedStandardCompare` is an abstract name order. The sort is modelled as a stable insertion sort. Swift's sort guarantees the same ordering and permutation, but may order names the comparator finds equal differently.
- A URL is modelled by its path string. `URL(fileURLWithPath:)` normalisation is not modelled, and `firstIndex(of:)` compares URLs as strings. The root path's last component is empty here rather than "/".
- `ParseSelection` trims every line, so a selected path that starts or ends with white space, or holds a line feed, is not recovered: the path handed on differs from the selected file (`PaddedPathComesBackTrimmed` shows the trailing-space case).
- `lowercased()` folds ASCII letters only; other Unicode case mappings are not modelled.
- Process spawning, `usleep(100_000)` and the actual delivery of `terminate` and `SIGKILL` are left out. The signals are recorded in the ghost log `sent`; whether the process is running before and after the grace period is an input.
- `DispatchQueue.main.async` and `asyncAfter` are left out: callbacks run as sequential calls. The 0.5 s timer that resets `justClosed` is not modelled, so `justClosed` is only ever set.
- NSAlert display is left out: `Play` returns the alert it would show.
- The `@main` entry point, `applicationSupportsSecureRestorableState` and `applicationShouldTerminateAfterLastWindowClosed` (constant answers) are left out. So are the optionality of `onClose` and the weak `self` captures: the callbacks are always installed.
- Process identifiers are compared as the source compares them. A new process that reuses a stale process's identifier is treated as the tracked one (`Scenarios.StaleExitAfterReplay` states when).
