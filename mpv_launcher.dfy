/**
 * MPVLauncher: the one mpv process the application tracks, and the file it
 * was started for. A process is known by its process identifier. The file
 * system's `fileExists`, the result of `Process.run()` and `isRunning` (at
 * stop time and again after the grace period) are inputs; the asynchronous
 * exit notification is a call of `HandleTermination`.
 */
module MpvLauncher {
  import opened Wrappers
  import opened Sequences
  import opened Paths

  type Pid = int

  /** A started player: its identifier, executable and arguments. */
  datatype Process = Process(pid: Pid, executable: string, arguments: seq<string>)

  /** What `Process.run()` did: started a process, or threw. */
  datatype SpawnOutcome = Started(pid: Pid) | SpawnFailed(reason: string)

  /** The alerts `play` shows. */
  datatype Alert = MpvNotFound | LaunchError(reason: string)

  /** A signal `stop` sends: `terminate()` first, `SIGKILL` if the process outlives the grace period. */
  datatype Signal = Terminate(pid: Pid) | Kill(pid: Pid)

  /** The install locations searched, in order. */
  const MpvCandidates: seq<string> :=
    ["/opt/homebrew/bin/mpv", "/usr/local/bin/mpv", "/Applications/mpv.app/Contents/MacOS/mpv"]

  /** `findMPV`: the loop over the install locations, returning at the first that exists. */
  method FindMpv(fileExists: string -> bool) returns (r: Option<string>)
    ensures r == FirstWhere(MpvCandidates, fileExists)
  {
    for i := 0 to |MpvCandidates|
      invariant FirstWhere(MpvCandidates[i..], fileExists) == FirstWhere(MpvCandidates, fileExists)
    {
      if fileExists(MpvCandidates[i]) {
        return Some(MpvCandidates[i]);
      }
      assert MpvCandidates[i..][1..] == MpvCandidates[i + 1..];
    }
    return None;
  }

  /** The arguments `play` passes to mpv for a file. */
  function MpvArguments(url: string): (args: seq<string>)
    ensures |args| == 11
    ensures args[6] == "--title=" + LastPathComponent(url)
    ensures args[|args| - 1] == url
    ensures args[8] == "--input-default-bindings=no" && args[9] == "--input-vo-keyboard=no"
  {
    [ "--hwdec=auto",
      "--keep-open=yes",
      "--osc=yes",
      "--osd-level=1",
      "--autofit=80%",
      "--auto-window-resize=yes",
      "--title=" + LastPathComponent(url),
      "--force-window=immediate",
      "--input-default-bindings=no",
      "--input-vo-keyboard=no",
      url ]
  }

  /** The signals `stop` sends to the process it stops. */
  function StopSignals(process: Process, isRunning: Pid -> bool, runningAfterGrace: Pid -> bool): (sent: seq<Signal>)
    ensures sent == [] <==> !isRunning(process.pid)
    ensures forall k :: 0 <= k < |sent| ==> sent[k].pid == process.pid
    ensures sent != [] ==> sent[0] == Terminate(process.pid)
  {
    if !isRunning(process.pid) then []
    else [Terminate(process.pid)] + if runningAfterGrace(process.pid) then [Kill(process.pid)] else []
  }

  /** The alert `play` shows: none exactly when mpv was found and started. */
  function PlayAlert(fileExists: string -> bool, spawn: SpawnOutcome): (alert: Option<Alert>)
    ensures alert.None? <==> FirstWhere(MpvCandidates, fileExists).Some? && spawn.Started?
    ensures FirstWhere(MpvCandidates, fileExists).None? ==> alert == Some(MpvNotFound)
    ensures FirstWhere(MpvCandidates, fileExists).Some? && spawn.SpawnFailed? ==> alert == Some(LaunchError(spawn.reason))
  {
    match FirstWhere(MpvCandidates, fileExists)
    case None => Some(MpvNotFound)
    case Some(_) => if spawn.SpawnFailed? then Some(LaunchError(spawn.reason)) else None
  }

  class Launcher {
    var mpvProcess: Option<Process>
    var currentFile: Option<string>
    /** The signals sent to player processes so far. */
    ghost var sent: seq<Signal>

    /** A tracked process plays the current file with an executable from the search list. */
    ghost predicate Valid()
      reads this
    {
      mpvProcess.Some? ==>
        && currentFile.Some?
        && mpvProcess.value.arguments == MpvArguments(currentFile.value)
        && mpvProcess.value.executable in MpvCandidates
    }

    constructor ()
      ensures Valid()
      ensures mpvProcess == None && currentFile == None && sent == []
    {
      mpvProcess := None;
      currentFile := None;
      sent := [];
    }

    /** The state `stop` leaves behind. */
    twostate predicate Stopped(isRunning: Pid -> bool, runningAfterGrace: Pid -> bool)
      reads this
    {
      if old(mpvProcess).None? then
        mpvProcess == None && currentFile == old(currentFile) && sent == old(sent)
      else
        mpvProcess == None && currentFile == None
        && sent == old(sent) + StopSignals(old(mpvProcess).value, isRunning, runningAfterGrace)
    }

    /** The state `play(url)` leaves behind. */
    twostate predicate Played(
      url: string, fileExists: string -> bool, spawn: SpawnOutcome,
      isRunning: Pid -> bool, runningAfterGrace: Pid -> bool)
      reads this
    {
      && sent == old(sent) + (if old(mpvProcess).Some? then StopSignals(old(mpvProcess).value, isRunning, runningAfterGrace) else [])
      && match FirstWhere(MpvCandidates, fileExists)
         case None =>
           mpvProcess == None && currentFile == (if old(mpvProcess).None? then old(currentFile) else None)
         case Some(exe) =>
           && currentFile == Some(url)
           && mpvProcess == (if spawn.Started? then Some(Process(spawn.pid, exe, MpvArguments(url))) else None)
    }

    /**
     * `stop`: with no tracked process nothing happens. Otherwise the
     * bookkeeping is cleared first, whatever the process's state, then a
     * running process is asked to terminate and killed if it is still
     * running after the grace period.
     */
    method Stop(isRunning: Pid -> bool, runningAfterGrace: Pid -> bool)
      requires Valid()
      modifies this
      ensures Valid()
      ensures Stopped(isRunning, runningAfterGrace)
    {
      if mpvProcess.None? {
        return;
      }
      var process := mpvProcess.value;
      mpvProcess := None;
      currentFile := None;
      // The terminate-then-kill sequence with its grace period, as a log entry.
      sent := sent + StopSignals(process, isRunning, runningAfterGrace);
    }

    /**
     * `play`: stops the tracked process, finds mpv (alerting when it is
     * missing), records the file, and tracks the new process if it started
     * (alerting with the reason when it did not).
     */
    method Play(
      url: string, fileExists: string -> bool, spawn: SpawnOutcome,
      isRunning: Pid -> bool, runningAfterGrace: Pid -> bool)
      returns (alert: Option<Alert>)
      requires Valid()
      modifies this
      ensures Valid()
      ensures Played(url, fileExists, spawn, isRunning, runningAfterGrace)
      ensures alert == PlayAlert(fileExists, spawn)
    {
      Stop(isRunning, runningAfterGrace);
      var mpvPath := FindMpv(fileExists);
      if mpvPath.None? {
        return Some(MpvNotFound);
      }
      currentFile := Some(url);
      var arguments := MpvArguments(url);
      match spawn
      case Started(pid) =>
        mpvProcess := Some(Process(pid, mpvPath.value, arguments));
        alert := None;
      case SpawnFailed(reason) =>
        alert := Some(LaunchError(reason));
    }

    /**
     * The termination handler, run on the main queue: only the exit of the
     * tracked process clears the state and calls `onClose`; `fired` says
     * whether it was called.
     */
    method HandleTermination(pid: Pid) returns (fired: bool)
      requires Valid()
      modifies this
      ensures Valid()
      ensures fired <==> old(mpvProcess).Some? && old(mpvProcess).value.pid == pid
      ensures fired ==> mpvProcess == None && currentFile == None && sent == old(sent)
      ensures !fired ==> unchanged(this)
    {
      fired := mpvProcess.Some? && mpvProcess.value.pid == pid;
      if fired {
        mpvProcess := None;
        currentFile := None;
      }
    }

    /** `isPlaying`: a process is tracked and it is running now. */
    function IsPlaying(isRunning: Pid -> bool): (playing: bool)
      reads this
      ensures playing <==> mpvProcess.Some? && isRunning(mpvProcess.value.pid)
    {
      match mpvProcess
      case None => false
      case Some(p) => isRunning(p.pid)
    }
  }
}
