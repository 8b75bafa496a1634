/**
 * AppDelegate: the preview state (`currentPreviewURL`, `justClosed`), the
 * hotkey manager's `isPreviewActive` flag, and the actions that change them.
 * The closures dispatched to the main queue run as direct calls, one event
 * at a time. Everything the operating system answers during one event is
 * bundled in a `World`.
 */
module App {
  import opened Wrappers
  import opened FinderSelection
  import opened Navigation
  import opened MpvLauncher
  import opened Hotkeys

  datatype World = World(
    frontmostBundleId: Option<string>,
    finderScriptResult: Option<string>,
    listDirectory: string -> Option<seq<string>>,
    nameOrder: (string, string) -> bool,
    fileExists: string -> bool,
    spawn: SpawnOutcome,
    isRunning: Pid -> bool,
    runningAfterGrace: Pid -> bool)

  class AppDelegate {
    const launcher: Launcher
    const hotkeys: HotkeyManager
    var currentPreviewURL: Option<string>
    /** Set by `closePreview`; nothing in the application reads it. */
    var justClosed: bool

    /** The hotkey manager's preview flag is set exactly while a preview file is recorded. */
    ghost predicate Valid()
      reads this, launcher, hotkeys
    {
      launcher.Valid() && hotkeys.Valid() && hotkeys.isPreviewActive == currentPreviewURL.Some?
    }

    /** The components as `applicationDidFinishLaunching` creates them, before the tap is started. */
    constructor ()
      ensures Valid()
      ensures fresh(launcher) && fresh(hotkeys)
      ensures currentPreviewURL == None && !justClosed
      ensures launcher.mpvProcess == None && hotkeys.eventTap == None
    {
      launcher := new Launcher();
      hotkeys := new HotkeyManager();
      currentPreviewURL := None;
      justClosed := false;
    }

    /** The state `playVideo(url)` leaves: the preview is on, whatever the launcher managed. */
    twostate predicate PlayedVideo(url: string, w: World)
      reads this, launcher, hotkeys
    {
      && currentPreviewURL == Some(url)
      && hotkeys.isPreviewActive
      && justClosed == old(justClosed)
      && hotkeys.eventTap == old(hotkeys.eventTap) && hotkeys.runLoopSource == old(hotkeys.runLoopSource)
      && launcher.Played(url, w.fileExists, w.spawn, w.isRunning, w.runningAfterGrace)
    }

    /** The state `closePreview` leaves. */
    twostate predicate ClosedPreview(w: World)
      reads this, launcher, hotkeys
    {
      && currentPreviewURL == None
      && !hotkeys.isPreviewActive
      && justClosed
      && hotkeys.eventTap == old(hotkeys.eventTap) && hotkeys.runLoopSource == old(hotkeys.runLoopSource)
      && launcher.Stopped(w.isRunning, w.runningAfterGrace)
    }

    /** Nothing changed. */
    twostate predicate Unchanged()
      reads this, launcher, hotkeys
    {
      unchanged(this) && unchanged(launcher) && unchanged(hotkeys)
    }

    /** `playVideo`: records the file, asks the launcher to play it, and marks the preview active. */
    method PlayVideo(url: string, w: World) returns (alert: Option<Alert>)
      requires Valid()
      modifies this, launcher, hotkeys
      ensures Valid()
      ensures PlayedVideo(url, w)
      ensures alert == PlayAlert(w.fileExists, w.spawn)
    {
      currentPreviewURL := Some(url);
      alert := launcher.Play(url, w.fileExists, w.spawn, w.isRunning, w.runningAfterGrace);
      hotkeys.isPreviewActive := true;
    }

    /** `closePreview`: stops the player and clears the preview. */
    method ClosePreview(w: World)
      requires Valid()
      modifies this, launcher, hotkeys
      ensures Valid()
      ensures ClosedPreview(w)
    {
      justClosed := true;
      launcher.Stop(w.isRunning, w.runningAfterGrace);
      currentPreviewURL := None;
      hotkeys.isPreviewActive := false;
    }

    /** The `onClose` closure the launcher calls when the player exits on its own. */
    method OnPlayerClosed()
      requires Valid()
      modifies this, hotkeys
      ensures Valid()
      ensures currentPreviewURL == None && !hotkeys.isPreviewActive && justClosed == old(justClosed)
      ensures hotkeys.eventTap == old(hotkeys.eventTap) && hotkeys.runLoopSource == old(hotkeys.runLoopSource)
    {
      currentPreviewURL := None;
      hotkeys.isPreviewActive := false;
    }

    /**
     * The player process `pid` exited: the launcher's termination handler
     * runs, and if it calls `onClose` the preview is cleared.
     */
    method ProcessExited(pid: Pid) returns (fired: bool)
      requires Valid()
      modifies this, launcher, hotkeys
      ensures Valid()
      ensures fired <==> old(launcher.mpvProcess).Some? && old(launcher.mpvProcess).value.pid == pid
      ensures fired ==> currentPreviewURL == None && !hotkeys.isPreviewActive
      ensures fired ==> launcher.mpvProcess == None && launcher.currentFile == None
      ensures fired ==> justClosed == old(justClosed) && launcher.sent == old(launcher.sent)
      ensures fired ==> hotkeys.eventTap == old(hotkeys.eventTap) && hotkeys.runLoopSource == old(hotkeys.runLoopSource)
      ensures !fired ==> Unchanged()
    {
      fired := launcher.HandleTermination(pid);
      if fired {
        OnPlayerClosed();
      }
    }

    /** The state `previewSelectedVideo` leaves. */
    twostate predicate PreviewedSelection(w: World)
      reads this, launcher, hotkeys
    {
      if !IsFinderFrontmost(w.frontmostBundleId) then Unchanged()
      else match SelectedVideoFile(w.finderScriptResult)
        case None => Unchanged()
        case Some(video) => PlayedVideo(video, w)
    }

    /** `previewSelectedVideo`: plays the first selected video, only while Finder is frontmost. */
    method PreviewSelectedVideo(w: World)
      requires Valid()
      modifies this, launcher, hotkeys
      ensures Valid()
      ensures PreviewedSelection(w)
    {
      if !IsFinderFrontmost(w.frontmostBundleId) {
        return;
      }
      var videoUrl := SelectedVideoFile(w.finderScriptResult);
      if videoUrl.None? {
        return;
      }
      var _ := PlayVideo(videoUrl.value, w);
    }

    /** The state `navigateToNextVideo` leaves. */
    twostate predicate NavigatedNext(w: World)
      reads this, launcher, hotkeys
    {
      match old(currentPreviewURL)
      case None => Unchanged()
      case Some(current) =>
        match NextVideoFile(current, w.listDirectory, w.nameOrder)
        case None => Unchanged()
        case Some(next) => PlayedVideo(next, w)
    }

    /** The state `navigateToPreviousVideo` leaves. */
    twostate predicate NavigatedPrevious(w: World)
      reads this, launcher, hotkeys
    {
      match old(currentPreviewURL)
      case None => Unchanged()
      case Some(current) =>
        match PreviousVideoFile(current, w.listDirectory, w.nameOrder)
        case None => Unchanged()
        case Some(previous) => PlayedVideo(previous, w)
    }

    /** `navigateToNextVideo`: plays the next sibling of the previewed file, if there is one. */
    method NavigateToNextVideo(w: World)
      requires Valid()
      modifies this, launcher, hotkeys
      ensures Valid()
      ensures NavigatedNext(w)
    {
      if currentPreviewURL.None? {
        return;
      }
      var next := NextVideoFile(currentPreviewURL.value, w.listDirectory, w.nameOrder);
      if next.Some? {
        var _ := PlayVideo(next.value, w);
      }
    }

    /** `navigateToPreviousVideo`: plays the previous sibling of the previewed file, if there is one. */
    method NavigateToPreviousVideo(w: World)
      requires Valid()
      modifies this, launcher, hotkeys
      ensures Valid()
      ensures NavigatedPrevious(w)
    {
      if currentPreviewURL.None? {
        return;
      }
      var previous := PreviousVideoFile(currentPreviewURL.value, w.listDirectory, w.nameOrder);
      if previous.Some? {
        var _ := PlayVideo(previous.value, w);
      }
    }

    /** The Control+Space closure: close a playing preview, otherwise preview the selection. */
    method OnHotkeyPressed(w: World)
      requires Valid()
      modifies this, launcher, hotkeys
      ensures Valid()
      ensures old(launcher.IsPlaying(w.isRunning)) ==> ClosedPreview(w)
      ensures !old(launcher.IsPlaying(w.isRunning)) ==> PreviewedSelection(w)
    {
      if launcher.IsPlaying(w.isRunning) {
        ClosePreview(w);
      } else {
        PreviewSelectedVideo(w);
      }
    }

    /** The closures `setupCallbacks` installs: up plays the previous video, down the next, Escape closes. */
    method RunCallback(callback: Callback, w: World)
      requires Valid()
      modifies this, launcher, hotkeys
      ensures Valid()
      ensures callback == HotkeyPressed && old(launcher.IsPlaying(w.isRunning)) ==> ClosedPreview(w)
      ensures callback == HotkeyPressed && !old(launcher.IsPlaying(w.isRunning)) ==> PreviewedSelection(w)
      ensures callback == UpArrowPressed ==> NavigatedPrevious(w)
      ensures callback == DownArrowPressed ==> NavigatedNext(w)
      ensures callback == EscapePressed ==> ClosedPreview(w)
    {
      match callback
      case HotkeyPressed => OnHotkeyPressed(w);
      case UpArrowPressed => NavigateToPreviousVideo(w);
      case DownArrowPressed => NavigateToNextVideo(w);
      case EscapePressed => ClosePreview(w);
    }

    /**
     * A key event reaching the tap: the manager decides, and a consumed event
     * runs its callback.
     */
    method DeliverKeyEvent(eventType: EventType, keyCode: int, control: bool, w: World) returns (r: Response)
      requires Valid()
      modifies this, launcher, hotkeys
      ensures Valid()
      ensures r.action == Dispatch(eventType, keyCode, control, old(currentPreviewURL).Some?)
      ensures r.action == PassThrough ==> Unchanged()
      ensures r.action == Consume(HotkeyPressed) && old(launcher.IsPlaying(w.isRunning)) ==> ClosedPreview(w)
      ensures r.action == Consume(HotkeyPressed) && !old(launcher.IsPlaying(w.isRunning)) ==> PreviewedSelection(w)
      ensures r.action == Consume(UpArrowPressed) ==> NavigatedPrevious(w)
      ensures r.action == Consume(DownArrowPressed) ==> NavigatedNext(w)
      ensures r.action == Consume(EscapePressed) ==> ClosedPreview(w)
    {
      r := hotkeys.HandleEvent(eventType, keyCode, control);
      if r.action.Consume? {
        RunCallback(r.action.callback, w);
      }
    }

    /** `application(_:openFiles:)`: plays the first file and replies success, or replies failure for none. */
    method OpenFiles(filenames: seq<string>, w: World) returns (success: bool)
      requires Valid()
      modifies this, launcher, hotkeys
      ensures Valid()
      ensures success <==> filenames != []
      ensures filenames != [] ==> PlayedVideo(filenames[0], w)
      ensures filenames == [] ==> Unchanged()
    {
      if filenames != [] {
        var _ := PlayVideo(filenames[0], w);
        success := true;
      } else {
        success := false;
      }
    }

    /** `application(_:openFile:)`: plays the file and replies success. */
    method OpenFile(filename: string, w: World) returns (success: bool)
      requires Valid()
      modifies this, launcher, hotkeys
      ensures Valid()
      ensures success && PlayedVideo(filename, w)
    {
      var _ := PlayVideo(filename, w);
      success := true;
    }

    /** `application(_:open:)`: plays the first URL, if any. */
    method OpenUrls(urls: seq<string>, w: World)
      requires Valid()
      modifies this, launcher, hotkeys
      ensures Valid()
      ensures urls != [] ==> PlayedVideo(urls[0], w)
      ensures urls == [] ==> Unchanged()
    {
      if urls != [] {
        var _ := PlayVideo(urls[0], w);
      }
    }

    /** The tap start in `applicationDidFinishLaunching`. */
    method DidFinishLaunching(createdTap: Option<nat>, createdSource: Option<nat>)
      requires Valid()
      modifies hotkeys
      ensures Valid()
      ensures old(hotkeys.eventTap).None? && createdTap.Some? ==>
        hotkeys.eventTap == createdTap && hotkeys.runLoopSource == createdSource
      ensures old(hotkeys.eventTap).Some? || createdTap.None? ==> unchanged(hotkeys)
    {
      hotkeys.Start(createdTap, createdSource);
    }

    /** `applicationWillTerminate`: removes the tap and stops the player; the preview fields stay as they are. */
    method WillTerminate(w: World)
      requires Valid()
      modifies launcher, hotkeys
      ensures Valid()
      ensures hotkeys.eventTap == None && hotkeys.runLoopSource == None
      ensures hotkeys.isPreviewActive == old(hotkeys.isPreviewActive)
      ensures launcher.Stopped(w.isRunning, w.runningAfterGrace)
    {
      hotkeys.Stop();
      launcher.Stop(w.isRunning, w.runningAfterGrace);
    }
  }
}
