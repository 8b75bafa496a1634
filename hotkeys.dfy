/**
 * HotkeyManager: the decision `handleEvent` takes for each event the tap
 * delivers, and the bookkeeping of the tap and its run-loop source.
 * Creating the tap and the source are inputs (the tap can fail to be created).
 */
module Hotkeys {
  import opened Wrappers

  /** The event types the tap callback distinguishes. */
  datatype EventType = KeyDown | TapDisabledByTimeout | TapDisabledByUserInput | OtherEvent

  /** The callbacks the manager fires. */
  datatype Callback = HotkeyPressed | UpArrowPressed | DownArrowPressed | EscapePressed

  /** Pass the event on unchanged, or swallow it and fire a callback. */
  datatype Action = PassThrough | Consume(callback: Callback)

  const SpaceKey := 49
  const UpArrowKey := 126
  const DownArrowKey := 125
  const EscapeKey := 53

  /** The decision `handleEvent` takes: Control+Space always, the arrows and Escape only during a preview. */
  function Dispatch(eventType: EventType, keyCode: int, control: bool, previewActive: bool): (a: Action)
    ensures eventType != KeyDown ==> a == PassThrough
    ensures eventType == KeyDown && keyCode == SpaceKey && control ==> a == Consume(HotkeyPressed)
    ensures a.Consume? ==> eventType == KeyDown
    ensures a == Consume(HotkeyPressed) ==> keyCode == SpaceKey && control
    ensures a == Consume(UpArrowPressed) <==> eventType == KeyDown && previewActive && keyCode == UpArrowKey
    ensures a == Consume(DownArrowPressed) <==> eventType == KeyDown && previewActive && keyCode == DownArrowKey
    ensures a == Consume(EscapePressed) <==> eventType == KeyDown && previewActive && keyCode == EscapeKey
    ensures !previewActive && !(keyCode == SpaceKey && control) ==> a == PassThrough
  {
    if eventType == TapDisabledByTimeout || eventType == TapDisabledByUserInput then PassThrough
    else if eventType != KeyDown then PassThrough
    else if keyCode == SpaceKey && control then Consume(HotkeyPressed)
    else if previewActive then
      if keyCode == UpArrowKey then Consume(UpArrowPressed)
      else if keyCode == DownArrowKey then Consume(DownArrowPressed)
      else if keyCode == EscapeKey then Consume(EscapePressed)
      else PassThrough
    else PassThrough
  }

  /** What `handleEvent` returns: the action, and whether it re-enabled the tap. */
  datatype Response = Response(action: Action, reenableTap: bool)

  class HotkeyManager {
    var eventTap: Option<nat>
    var runLoopSource: Option<nat>
    var isPreviewActive: bool

    /** A run-loop source exists only for an installed tap. */
    ghost predicate Valid()
      reads this
    {
      runLoopSource.Some? ==> eventTap.Some?
    }

    constructor ()
      ensures Valid()
      ensures eventTap == None && runLoopSource == None && !isPreviewActive
    {
      eventTap := None;
      runLoopSource := None;
      isPreviewActive := false;
    }

    /**
     * `start`: nothing when a tap is installed or cannot be created;
     * otherwise the new tap and its run-loop source are recorded.
     */
    method Start(createdTap: Option<nat>, createdSource: Option<nat>)
      requires Valid()
      modifies this
      ensures Valid()
      ensures old(eventTap).Some? || createdTap.None? ==> unchanged(this)
      ensures old(eventTap).None? && createdTap.Some? ==>
        eventTap == createdTap && runLoopSource == createdSource && isPreviewActive == old(isPreviewActive)
    {
      if eventTap.Some? {
        return;
      }
      if createdTap.None? {
        return;
      }
      eventTap := createdTap;
      runLoopSource := createdSource;
    }

    /** `stop`: the tap and the run-loop source are both forgotten. */
    method Stop()
      requires Valid()
      modifies this
      ensures Valid()
      ensures eventTap == None && runLoopSource == None && isPreviewActive == old(isPreviewActive)
    {
      if runLoopSource.Some? {
        runLoopSource := None;
      }
      eventTap := None;
    }

    /**
     * `handleEvent`: a tap-disabled event re-enables an installed tap and is
     * passed on; every other event is decided by `Dispatch` with the current
     * preview flag.
     */
    function HandleEvent(eventType: EventType, keyCode: int, control: bool): (r: Response)
      reads this
      ensures r.reenableTap <==> (eventType == TapDisabledByTimeout || eventType == TapDisabledByUserInput) && eventTap.Some?
      ensures r.action == Dispatch(eventType, keyCode, control, isPreviewActive)
    {
      if eventType == TapDisabledByTimeout || eventType == TapDisabledByUserInput then
        Response(PassThrough, eventTap.Some?)
      else
        Response(Dispatch(eventType, keyCode, control, isPreviewActive), false)
    }
  }
}
