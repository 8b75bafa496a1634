/**
 * Event sequences that combine the launcher's termination handling with the
 * application's actions, proved from the contracts of `App` alone.
 */
module Scenarios {
  import opened Wrappers
  import opened Sequences
  import opened MpvLauncher
  import opened Hotkeys
  import opened App

  /** A second exit notification for the same process never calls `onClose`. */
  method ExitNotifiedTwice(app: AppDelegate, pid: Pid) returns (first: bool, second: bool)
    requires app.Valid()
    modifies app, app.launcher, app.hotkeys
    ensures app.Valid()
    ensures first <==> old(app.launcher.mpvProcess).Some? && old(app.launcher.mpvProcess).value.pid == pid
    ensures !second
  {
    first := app.ProcessExited(pid);
    second := app.ProcessExited(pid);
  }

  /** After the preview is closed, the exit of the stopped process (or any other) calls no `onClose`. */
  method ExitAfterClose(app: AppDelegate, w: World, pid: Pid) returns (fired: bool)
    requires app.Valid()
    modifies app, app.launcher, app.hotkeys
    ensures app.Valid()
    ensures !fired
    ensures app.currentPreviewURL == None && !app.hotkeys.isPreviewActive
  {
    app.ClosePreview(w);
    fired := app.ProcessExited(pid);
  }

  /**
   * Playing another file replaces the tracked process; the late exit of the
   * replaced one calls `onClose` only if the new process has the same identifier.
   */
  method StaleExitAfterReplay(app: AppDelegate, url: string, w: World, stalePid: Pid) returns (fired: bool)
    requires app.Valid()
    modifies app, app.launcher, app.hotkeys
    ensures app.Valid()
    ensures fired <==> FirstWhere(MpvCandidates, w.fileExists).Some? && w.spawn == Started(stalePid)
    ensures !fired ==> app.currentPreviewURL == Some(url) && app.hotkeys.isPreviewActive
  {
    var _ := app.PlayVideo(url, w);
    fired := app.ProcessExited(stalePid);
  }

  /**
   * Without mpv installed the preview is still marked active: no process is
   * tracked, yet the arrow keys and Escape are swallowed until a close.
   */
  method PreviewWithoutPlayer(app: AppDelegate, url: string, w: World, keyCode: int) returns (a: Action)
    requires app.Valid()
    requires FirstWhere(MpvCandidates, w.fileExists).None?
    requires keyCode == UpArrowKey || keyCode == DownArrowKey || keyCode == EscapeKey
    modifies app, app.launcher, app.hotkeys
    ensures app.Valid()
    ensures app.launcher.mpvProcess == None && !app.launcher.IsPlaying(w.isRunning)
    ensures app.hotkeys.isPreviewActive
    ensures a.Consume?
  {
    var alert := app.PlayVideo(url, w);
    assert alert == Some(MpvNotFound);
    a := app.hotkeys.HandleEvent(KeyDown, keyCode, false).action;
  }
}
