/**
 * The session's state transitions as pure functions from the old
 * `CameraState` to the new one: the `update { ... }` lambdas and plain
 * assignments of the handlers, and the location staging decision.
 */
module Session {
  import opened Wrappers
  import opened Bytes
  import opened States
  import opened Codec
  import opened Gatt

  /** A `Ready` state with nothing carried over: flags unreported, nothing pressed, no telemetry. */
  predicate IsBaseline(s: CameraState)
    requires s.Ready?
  {
    s.focus == Unreported && s.shutter == Unreported && s.recording == Unreported &&
    s.pressedButtons == {} && s.pressedJogs == {} &&
    s.mediaStatus.None? && s.batteryStatus.None?
  }

  /** `CameraStateReady(name, ReportedBoolean(), ..., emptySet(), emptySet(), null, null)`. */
  function FreshReady(name: Option<string>): (r: CameraState)
    ensures r.Ready? && r.name == name && IsBaseline(r)
  {
    Ready(name, Unreported, Unreported, Unreported, {}, {}, None, None)
  }

  /**
   * A completed subscription always installs a fresh `Ready`; its name is
   * the identified device name, or null when the state was not `Identified`
   * (including when it was already `Ready`).
   */
  function SubscribedState(s: CameraState): (r: CameraState)
    ensures r.Ready? && IsBaseline(r)
    ensures r.name == (if s.Identified? then Some(s.deviceName) else None)
  {
    FreshReady(if s.Identified? then Some(s.deviceName) else None)
  }

  /** A second subscription completing while `Ready` drops the name and any telemetry. */
  lemma ResubscribeDropsReadyContents(s: CameraState)
    requires s.Ready?
    ensures SubscribedState(s) == FreshReady(None)
    ensures SubscribedState(s).name.None? && SubscribedState(s).mediaStatus.None?
  {
  }

  /** The three flags a remote-status notification can report. */
  datatype Flag = Focus | Shutter | Recording

  /** Byte 1 of a remote-status frame: 0x3f focus, 0xa0 shutter, 0xd5 recording. */
  function FlagFor(code: byte): Option<Flag>
  {
    if code == 0x3f then Some(Focus)
    else if code == 0xa0 then Some(Shutter)
    else if code == 0xd5 then Some(Recording)
    else None
  }

  function FlagValue(s: CameraState, f: Flag): Reported
    requires s.Ready?
  {
    match f
    case Focus => s.focus
    case Shutter => s.shutter
    case Recording => s.recording
  }

  /** Two `Ready` states that agree on everything but the three flags. */
  predicate SameButFlags(r: CameraState, s: CameraState)
    requires r.Ready? && s.Ready?
  {
    r.name == s.name && r.pressedButtons == s.pressedButtons && r.pressedJogs == s.pressedJogs &&
    r.mediaStatus == s.mediaStatus && r.batteryStatus == s.batteryStatus
  }

  /**
   * The bytes `onRemoteStatusUpdate` indexes are there: byte 1 whenever the
   * state reacts, and byte 2 when byte 1 names a flag. A shorter frame makes
   * the source throw instead of updating the state.
   */
  predicate StatusFrameReadable(s: CameraState, value: seq<byte>)
  {
    (s.Ready? || s.RemoteDisabled?) ==> |value| >= 2 && (FlagFor(value[1]).Some? ==> |value| >= 3)
  }

  /**
   * `onRemoteStatusUpdate`. Only `Ready` and `RemoteDisabled` react; a
   * `RemoteDisabled` first becomes a fresh `Ready` named after the session's
   * `name`. Byte 1 picks the flag, which becomes a new `ReportedBoolean` of
   * bit 0x20 of byte 2, stamped `now`; every other field is kept.
   */
  function RemoteStatusUpdate(s: CameraState, name: Option<string>, value: seq<byte>, now: int): (r: CameraState)
    requires StatusFrameReadable(s, value)
    ensures !(s.Ready? || s.RemoteDisabled?) ==> r == s
    ensures s.Ready? ==> r.Ready? && SameButFlags(r, s)
    ensures s.RemoteDisabled? ==> r.Ready? && SameButFlags(r, FreshReady(name))
    ensures s.Ready? || s.RemoteDisabled? ==>
      forall f: Flag :: FlagValue(r, f) ==
        if FlagFor(value[1]) == Some(f) then ReportedAt(MaskSet(value[2], 0x20), now)
        else if s.RemoteDisabled? then Unreported
        else FlagValue(s, f)
  {
    if s.RemoteDisabled? || s.Ready? then
      var state := if s.RemoteDisabled? then FreshReady(name) else s;
      if value[1] == 0x3f then state.(focus := ReportedAt(MaskSet(value[2], 0x20), now))
      else if value[1] == 0xa0 then state.(shutter := ReportedAt(MaskSet(value[2], 0x20), now))
      else if value[1] == 0xd5 then state.(recording := ReportedAt(MaskSet(value[2], 0x20), now))
      else state
    else
      s
  }

  /** `onCameraMediaUpdate`: a `Ready` state takes the decoded status, null when decoding fails. */
  function MediaUpdated(s: CameraState, value: seq<byte>): (r: CameraState)
    ensures !s.Ready? ==> r == s
    ensures s.Ready? ==> r.Ready? && r.mediaStatus == ParseCameraMedia(value) && r.(mediaStatus := s.mediaStatus) == s
  {
    if s.Ready? then s.(mediaStatus := ParseCameraMedia(value)) else s
  }

  /** `onCameraBatteryUpdate`: a `Ready` state takes the decoded status, null when decoding fails. */
  function BatteryUpdated(s: CameraState, value: seq<byte>): (r: CameraState)
    ensures !s.Ready? ==> r == s
    ensures s.Ready? ==> r.Ready? && r.batteryStatus == ParseCameraBattery(value) && r.(batteryStatus := s.batteryStatus) == s
  {
    if s.Ready? then s.(batteryStatus := ParseCameraBattery(value)) else s
  }

  /**
   * The optimistic press-set update of `executeCameraActionStep`: a button
   * (jog) step adds its button (jog) when pressed and removes it when
   * released; other steps and other states are left alone.
   */
  function ApplyPress(s: CameraState, action: ActionStep): (r: CameraState)
    ensures !s.Ready? || action.Countdown? || action.WaitForEvent? ==> r == s
    ensures s.Ready? && action.Button? ==>
      r.Ready? && r.(pressedButtons := s.pressedButtons) == s &&
      (action.button in r.pressedButtons <==> action.pressed) &&
      forall b :: b != action.button ==> (b in r.pressedButtons <==> b in s.pressedButtons)
    ensures s.Ready? && action.Jog? ==>
      r.Ready? && r.(pressedJogs := s.pressedJogs) == s &&
      (action.jog in r.pressedJogs <==> action.pressed) &&
      forall j :: j != action.jog ==> (j in r.pressedJogs <==> j in s.pressedJogs)
  {
    if !s.Ready? then s
    else
      match action
      case Button(button, pressed, _) =>
        s.(pressedButtons := if pressed then s.pressedButtons + {button} else s.pressedButtons - {button})
      case Jog(jog, pressed, _, _) =>
        s.(pressedJogs := if pressed then s.pressedJogs + {jog} else s.pressedJogs - {jog})
      case _ => s
  }

  /** Pressing a button that was not held and then releasing it restores the state. */
  lemma PressThenRelease(s: CameraState, b: ButtonCode, downCode: byte, upCode: byte)
    requires s.Ready? && b !in s.pressedButtons
    ensures ApplyPress(ApplyPress(s, Button(b, true, downCode)), Button(b, false, upCode)) == s
  {
    var t := ApplyPress(s, Button(b, true, downCode));
    assert t.pressedButtons - {b} == s.pressedButtons;
  }

  /** The state after `executeCameraActionStep` has applied `steps` in order (press tracking only). */
  function ApplyPresses(s: CameraState, steps: seq<ActionStep>): (r: CameraState)
    ensures r.Ready? <==> s.Ready?
    ensures !s.Ready? ==> r == s
    ensures s.Ready? ==> r.(pressedButtons := s.pressedButtons, pressedJogs := s.pressedJogs) == s
    decreases |steps|
  {
    if steps == [] then s
    else ApplyPress(ApplyPresses(s, steps[..|steps| - 1]), steps[|steps| - 1])
  }

  /** Whether the last step in `steps` that names button `b` presses it, if any step does. */
  function LastButtonStep(steps: seq<ActionStep>, b: ButtonCode): Option<bool>
    decreases |steps|
  {
    if steps == [] then None
    else
      var last := steps[|steps| - 1];
      if last.Button? && last.button == b then Some(last.pressed)
      else LastButtonStep(steps[..|steps| - 1], b)
  }

  /** Whether the last step in `steps` that names jog `j` presses it, if any step does. */
  function LastJogStep(steps: seq<ActionStep>, j: JogCode): Option<bool>
    decreases |steps|
  {
    if steps == [] then None
    else
      var last := steps[|steps| - 1];
      if last.Jog? && last.jog == j then Some(last.pressed)
      else LastJogStep(steps[..|steps| - 1], j)
  }

  /**
   * The pressed sets track the steps sent: after any sequence of steps, a
   * button (jog) is held iff the last step naming it was a press, and keeps
   * its old status when no step names it.
   */
  lemma {:induction false} HeldIffLastStepPressed(s: CameraState, steps: seq<ActionStep>, b: ButtonCode, j: JogCode)
    requires s.Ready?
    ensures var r := ApplyPresses(s, steps);
      (b in r.pressedButtons <==> if LastButtonStep(steps, b).Some? then LastButtonStep(steps, b).value else b in s.pressedButtons) &&
      (j in r.pressedJogs <==> if LastJogStep(steps, j).Some? then LastJogStep(steps, j).value else j in s.pressedJogs)
    decreases |steps|
  {
    if steps != [] {
      HeldIffLastStepPressed(s, steps[..|steps| - 1], b, j);
    }
  }

  /** `value.toString(Charsets.UTF_8)`, here one character per byte. */
  function DecodeName(value: seq<byte>): string
  {
    seq(|value|, i requires 0 <= i < |value| => (value[i] as int) as char)
  }

  /** What the read callbacks registered by service discovery do to the state. */
  function ReadCallbackState(cb: ReadCallback, status: int, value: seq<byte>, s: CameraState, address: string): CameraState
  {
    if status != GattSuccess then s
    else
      match cb
      case NameRead => Identified(DecodeName(value), address)
      case MediaPrimingRead => MediaUpdated(s, value)
      case BatteryPrimingRead => BatteryUpdated(s, value)
      case DataFormatRead => s
  }

  /**
   * The state after a write completes: status 144 on the command
   * characteristic means the camera's remote setting is off; status 144 on
   * the location writes, and every other status, changes nothing.
   */
  function WrittenState(s: CameraState, target: Characteristic, status: int, present: set<Characteristic>): (r: CameraState)
    ensures r == RemoteDisabled <==>
      (status == RemoteDisabledStatus && target == RemoteCommand && RemoteCommand in present) || s == RemoteDisabled
    ensures r != s ==> r == RemoteDisabled
  {
    if status == RemoteDisabledStatus && target == RemoteCommand && RemoteCommand in present then RemoteDisabled
    else s
  }

  /**
   * A rejected command leads to `RemoteDisabled`, and the next status
   * notification heals it into a `Ready` with nothing pressed, no telemetry,
   * and no flag set except the one the notification reports.
   */
  lemma RemoteDisabledRecovers(s: CameraState, present: set<Characteristic>, name: Option<string>, value: seq<byte>, now: int)
    requires s.Ready? && RemoteCommand in present && StatusFrameReadable(RemoteDisabled, value)
    ensures WrittenState(s, RemoteCommand, RemoteDisabledStatus, present) == RemoteDisabled
    ensures var r := RemoteStatusUpdate(RemoteDisabled, name, value, now);
      r.Ready? && r.name == name && r.pressedButtons == {} && r.pressedJogs == {} &&
      r.mediaStatus.None? && r.batteryStatus.None? &&
      (FlagFor(value[1]).None? ==> IsBaseline(r))
  {
    var r := RemoteStatusUpdate(RemoteDisabled, name, value, now);
    if FlagFor(value[1]).None? {
      assert FlagValue(r, Focus) == Unreported;
      assert FlagValue(r, Shutter) == Unreported;
      assert FlagValue(r, Recording) == Unreported;
    }
  }

  /** What `sendLocation` does with a fix. */
  datatype Staging =
    | Transmit(frame: seq<byte>)  // enqueue the frame and clear the staged fix
    | Hold                        // stage the fix until location set-up is done
    | Discard                     // send nothing and leave the staged fix as it was

  /**
   * `sendLocation`: a fix is held back until location is supported, set up
   * and its data format known; after that it is sent when it is fresh and the
   * receiver characteristic exists, and dropped otherwise.
   */
  function LocationDisposition(supported: bool, initDone: bool, sendTimezone: Option<bool>,
                               receiverPresent: bool, fix: Fix, clock: Clock): (r: Staging)
    ensures r.Hold? <==> !(supported && initDone && sendTimezone.Some?)
    ensures r.Transmit? ==>
      !IsStale(fix, clock.elapsedRealtimeNanos) && receiverPresent &&
      r.frame == LocationFrame(fix, clock, sendTimezone.value) &&
      |r.frame| == FrameLength(sendTimezone.value)
    ensures r.Discard? <==>
      supported && initDone && sendTimezone.Some? && (IsStale(fix, clock.elapsedRealtimeNanos) || !receiverPresent)
  {
    if supported && initDone && sendTimezone.Some? then
      var data := EncodeLocation(fix, clock, sendTimezone);
      if data.Some? && receiverPresent then Transmit(data.value) else Discard
    else
      Hold
  }
}
