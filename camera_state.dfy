/**
 * The values the session publishes: the sealed `CameraState` hierarchy, the
 * decoded telemetry records, the action steps the application sends down,
 * and `ReportedBoolean`, the one mutable helper object.
 */
module States {
  import opened Wrappers
  import opened Bytes

  /** A button of the camera remote (the `ButtonCode` enum; its constants live outside this model). */
  datatype ButtonCode = ButtonCode(ordinal: nat)

  /** A jog control of the camera remote (the `JogCode` enum). */
  datatype JogCode = JogCode(ordinal: nat)

  /**
   * One step of a camera action. `code` is the wire code that `getCode()`
   * returns for the step; countdown and wait-for-event steps are run by the
   * service above this layer.
   */
  datatype ActionStep =
    | Button(button: ButtonCode, pressed: bool, code: byte)
    | Jog(jog: JogCode, pressed: bool, code: byte, step: byte)
    | Countdown
    | WaitForEvent

  /** The value of a `ReportedBoolean` at one moment: the flag and when it last changed (ms of `elapsedRealtime`). */
  datatype Reported = Reported(state: bool, lastChange: Option<int>)

  /** What `ReportedBoolean()` holds: false, never changed. */
  const Unreported: Reported := Reported(false, None)

  /** What `ReportedBoolean(b)` holds when constructed at time `now`. */
  function ReportedAt(b: bool, now: int): Reported
  {
    Reported(b, Some(now))
  }

  /** The label of a media status: shots left, or recording time left. */
  datatype MediaLabel = ShotsLabel(shots: i32) | DurationLabel(seconds: i32)

  /** The label of a battery status: the charging or battery icon and the percentage. */
  datatype BatteryLabel = BatteryLabel(charging: bool, percentage: i32)

  datatype MediaStatus = MediaStatus(shotsRemaining: Option<i32>, secondsRemaining: Option<i32>, description: MediaLabel)

  datatype BatteryStatus = BatteryStatus(percentage: i32, charging: bool, description: BatteryLabel)

  /** A platform exception carried by an error state. */
  datatype Failure = Failure(message: string)

  /** The sealed class: every state is exactly one of these variants. */
  datatype CameraState =
    | Gone
    | Connecting
    | NotBonded
    | RemoteDisabled
    | Identified(deviceName: string, address: string)  // `name` in the source
    | Ready(
        name: Option<string>,
        focus: Reported,
        shutter: Reported,
        recording: Reported,
        pressedButtons: set<ButtonCode>,
        pressedJogs: set<JogCode>,
        mediaStatus: Option<MediaStatus>,
        batteryStatus: Option<BatteryStatus>)
    | Error(exception: Option<Failure>, description: string := "")

  /**
   * A boolean that remembers when it was last assigned. Every assignment to
   * `state` goes through the setter and stamps `lastChange`, even when the
   * value does not change; the no-argument constructor does not.
   */
  class ReportedBoolean {
    var lastChange: Option<int>
    var state: bool

    function Snapshot(): Reported
      reads this
    {
      Reported(state, lastChange)
    }

    constructor ()
      ensures state == false && lastChange == None
      ensures Snapshot() == Unreported
    {
      lastChange := None;
      state := false;
    }

    /** The secondary constructor: runs the primary one, then assigns through the setter. */
    constructor Of(b: bool, now: int)
      ensures state == b && lastChange == Some(now)
      ensures Snapshot() == ReportedAt(b, now)
    {
      lastChange := None;
      state := false;
      new;
      SetState(b, now);
    }

    /** The property setter of `state`, with the clock reading as a parameter. */
    method SetState(value: bool, now: int)
      modifies this
      ensures state == value && lastChange == Some(now)
    {
      state := value;
      lastChange := Some(now);
    }
  }
}
