/**
 * What the session asks of the camera's GATT server: the characteristics it
 * knows, the three kinds of queued operation, and the bootstrap plan that
 * service discovery turns into operations.
 */
module Gatt {
  import opened Wrappers
  import opened Bytes

  /** The characteristics the session resolves during service discovery. */
  datatype Characteristic =
    | DeviceName              // generic access service
    | RemoteCommand | RemoteStatus              // remote service
    | CameraStatus | CameraMedia | CameraBattery  // camera service
    | LocationNotification | LocationReceiver | LocationDataFormat
    | LocationLock | LocationEnabled | LocationTimeCorrection | LocationAreaAdjustment

  /**
   * The result callbacks of the reads the session issues, one per closure
   * written in the discovery handler.
   */
  datatype ReadCallback = NameRead | MediaPrimingRead | BatteryPrimingRead | DataFormatRead

  /** `CameraBLEWrite`, `CameraBLERead` and `CameraBLESubscribe`. */
  datatype Operation =
    | Write(target: Characteristic, data: seq<byte>)
    | Read(target: Characteristic, callback: ReadCallback)
    | Subscribe(target: Characteristic)

  /** `BluetoothGatt.GATT_SUCCESS`. */
  const GattSuccess: int := 0

  /** The write status with which the camera refuses commands while its remote setting is off. */
  const RemoteDisabledStatus: int := 144

  /** All six location characteristics the feature needs. */
  predicate LocationSupported(present: set<Characteristic>)
  {
    LocationReceiver in present && LocationDataFormat in present && LocationLock in present &&
    LocationEnabled in present && LocationTimeCorrection in present && LocationAreaAdjustment in present
  }

  /** The session needs the command, status and device-name characteristics. */
  predicate HasRequired(present: set<Characteristic>)
  {
    RemoteStatus in present && RemoteCommand in present && DeviceName in present
  }

  /** Media and battery are used only when the whole camera service is there. */
  predicate HasTelemetry(present: set<Characteristic>)
  {
    CameraStatus in present && CameraMedia in present && CameraBattery in present
  }

  function TelemetryOps(present: set<Characteristic>): seq<Operation>
  {
    if HasTelemetry(present) then
      [Subscribe(CameraMedia), Read(CameraMedia, MediaPrimingRead),
       Subscribe(CameraBattery), Read(CameraBattery, BatteryPrimingRead)]
    else []
  }

  function LocationOps(present: set<Characteristic>): seq<Operation>
  {
    (if LocationDataFormat in present then [Read(LocationDataFormat, DataFormatRead)] else [])
    + (if LocationLock in present then [Write(LocationLock, [0x01])] else [])
    + (if LocationEnabled in present then [Write(LocationEnabled, [0x01])] else [])
  }

  /** The plan always starts by reading the device name and subscribing to the remote status. */
  const BootstrapHead: seq<Operation> := [Read(DeviceName, NameRead), Subscribe(RemoteStatus)]

  /**
   * The operations a successful discovery enqueues, in order, or None when
   * a required characteristic is missing (the session then fails and
   * disconnects).
   */
  function BootstrapPlan(present: set<Characteristic>): (plan: Option<seq<Operation>>)
    ensures plan.Some? <==> HasRequired(present)
    ensures plan.Some? ==>
      2 <= |plan.value| <= 9 &&
      plan.value[0] == Read(DeviceName, NameRead) && plan.value[1] == Subscribe(RemoteStatus)
  {
    if HasRequired(present) then
      Some(BootstrapHead + TelemetryOps(present) + LocationOps(present))
    else
      None
  }

  /** Every planned operation addresses a characteristic that discovery found. */
  lemma PlanTargetsPresent(present: set<Characteristic>, k: nat)
    requires BootstrapPlan(present).Some? && k < |BootstrapPlan(present).value|
    ensures BootstrapPlan(present).value[k].target in present
  {
    var plan := BootstrapPlan(present).value;
    var t := TelemetryOps(present);
    var l := LocationOps(present);
    if k >= 2 + |t| {
      var j := k - 2 - |t|;
      assert plan[k] == l[j];
      var a := if LocationDataFormat in present then [Read(LocationDataFormat, DataFormatRead)] else [];
      var b := if LocationLock in present then [Write(LocationLock, [0x01])] else [];
      assert l == a + b + (if LocationEnabled in present then [Write(LocationEnabled, [0x01])] else []);
    }
  }

  /**
   * Telemetry is primed (subscribe, then read, for media and then battery)
   * exactly when the camera service is complete, right after the status
   * subscription.
   */
  lemma PlanPrimesTelemetry(present: set<Characteristic>)
    requires HasRequired(present)
    ensures var plan := BootstrapPlan(present).value;
      HasTelemetry(present) <==> |plan| >= 6 && plan[2] == Subscribe(CameraMedia)
    ensures var plan := BootstrapPlan(present).value;
      HasTelemetry(present) ==>
        plan[2..6] == [Subscribe(CameraMedia), Read(CameraMedia, MediaPrimingRead),
                       Subscribe(CameraBattery), Read(CameraBattery, BatteryPrimingRead)]
  {
    var plan := BootstrapPlan(present).value;
    assert |LocationOps(present)| <= 3;
  }

  /**
   * The location set-up is the tail of the plan: data-format read, then the
   * lock write, then the enable write, each only when its characteristic
   * exists; the enable write, when there, is the last operation.
   */
  lemma PlanEndsWithLocationSetup(present: set<Characteristic>)
    requires HasRequired(present)
    ensures var plan := BootstrapPlan(present).value;
      plan[|plan| - |LocationOps(present)|..] == LocationOps(present)
    ensures var plan := BootstrapPlan(present).value;
      LocationEnabled in present <==> plan[|plan| - 1] == Write(LocationEnabled, [0x01])
    ensures |BootstrapPlan(present).value| ==
      |BootstrapHead| + (if HasTelemetry(present) then 4 else 0) + |LocationOps(present)|
    ensures |LocationOps(present)| ==
      (if LocationDataFormat in present then 1 else 0) + (if LocationLock in present then 1 else 0)
      + (if LocationEnabled in present then 1 else 0)
  {
    var plan := BootstrapPlan(present).value;
    var l := LocationOps(present);
    assert plan == BootstrapHead + TelemetryOps(present) + l;
    assert plan[|plan| - |l|..] == l;
    if LocationEnabled !in present {
      var t := TelemetryOps(present);
      if |l| == 0 {
        if |t| == 0 {
          assert plan[|plan| - 1] == Subscribe(RemoteStatus);
        } else {
          assert plan[|plan| - 1] == t[|t| - 1];
        }
      } else {
        assert plan[|plan| - 1] == l[|l| - 1];
      }
    }
  }
}
