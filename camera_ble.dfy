/**
 * `CameraBLE`: one connection to a camera. It owns the operation serializer
 * (a FIFO queue and a single in-flight slot in front of a GATT client that
 * accepts one request at a time) and the session fields that the GATT
 * callbacks and the application's intents update. Everything runs under one
 * sequential owner.
 */
module CameraBle {
  import opened Wrappers
  import opened Bytes
  import opened States
  import opened Codec
  import opened Gatt
  import opened Session

  /** The GATT client, reduced to a sink that records every operation issued to it. */
  class Transport {
    var issued: seq<Operation>

    constructor ()
      ensures issued == []
    {
      issued := [];
    }

    /** `writeCharacteristic`, `readCharacteristic`, or enabling notifications. */
    method Issue(op: Operation)
      modifies this
      ensures issued == old(issued) + [op]
    {
      issued := issued + [op];
    }
  }

  /** The session fields of `CameraBLE` besides the serializer, as one value. */
  datatype SessionVars = SessionVars(
    present: set<Characteristic>,
    cameraState: CameraState,
    name: Option<string>,
    locationSupportedByCamera: bool,
    locationSendTimezone: Option<bool>,
    locationInitDone: bool,
    lastLocation: Option<Fix>,
    disconnects: nat)

  /** What a read callback does to the session fields. */
  function AfterReadCallback(v: SessionVars, cb: ReadCallback, status: int, value: seq<byte>, address: string): SessionVars
  {
    v.(cameraState := ReadCallbackState(cb, status, value, v.cameraState, address),
       name := if cb.NameRead? && status == GattSuccess then Some(DecodeName(value)) else v.name,
       locationSendTimezone :=
         if cb.DataFormatRead? && status == GattSuccess then Some(SendsTimezone(value)) else v.locationSendTimezone,
       locationSupportedByCamera :=
         if cb.DataFormatRead? && status != GattSuccess then false else v.locationSupportedByCamera)
  }

  /**
   * A failed read runs no callback body except the data-format one, which
   * turns location support off; the state, the name and the time-zone
   * choice stay as they were.
   */
  lemma FailedReadKeepsSession(v: SessionVars, cb: ReadCallback, status: int, value: seq<byte>, address: string)
    requires status != GattSuccess
    ensures AfterReadCallback(v, cb, status, value, address) ==
      v.(locationSupportedByCamera := v.locationSupportedByCamera && !cb.DataFormatRead?)
  {
  }

  /**
   * A successful name read identifies the camera, and the subscription that
   * completes next names the `Ready` state after it, with the same name the
   * session keeps.
   */
  lemma NameReadNamesReady(v: SessionVars, value: seq<byte>, address: string)
    ensures var w := AfterReadCallback(v, NameRead, GattSuccess, value, address);
      w.name == Some(DecodeName(value)) && w.cameraState == Identified(DecodeName(value), address) &&
      SubscribedState(w.cameraState) == FreshReady(w.name) && SubscribedState(w.cameraState).name == w.name
  {
  }

  /** The operation `sendLocation` enqueues, if any. */
  function Sent(d: Staging): seq<Operation>
  {
    if d.Transmit? then [Write(LocationReceiver, d.frame)] else []
  }

  /** What `sendLocation` does to the staged fix. */
  function AfterStaging(v: SessionVars, d: Staging, fix: Fix): SessionVars
  {
    match d
    case Transmit(_) => v.(lastLocation := None)
    case Hold => v.(lastLocation := Some(fix))
    case Discard => v
  }

  /** What `notifyDisconnect` does to the session fields. */
  function Disconnected(v: SessionVars): SessionVars
  {
    v.(cameraState := Gone,
       present := v.present - {RemoteCommand, RemoteStatus},
       locationInitDone := false,
       disconnects := v.disconnects + 1)
  }

  /** The header of the location frame, written into a zeroed buffer of the frame's length. */
  method WriteHeader(result: array<byte>, withZone: bool)
    requires result.Length == FrameLength(withZone) && result[..] == seq(result.Length, _ => 0)
    modifies result
    ensures result[..] == LocationHeaderPart(withZone)
  {
    ghost var zeros := result[..];
    CopyInto(LocationHeaderTemplate, result, 0);
    ghost var t := result[..];
    result[1] := ToByte(result.Length - 2);
    assert result[..] == t[1 := ToByte(result.Length - 2)];
    ghost var u := result[..];
    result[5] := if withZone then 0x03 else 0x00;
    assert result[..] == u[5 := if withZone then 0x03 else 0x00];
  }

  /** Latitude, longitude and the UTC date and time, written at bytes 11..25. */
  method WriteFix(result: array<byte>, fix: Fix, utc: UtcCalendar)
    requires result.Length >= 26
    modifies result
    ensures result[..] == LocationFixPart(old(result[..]), fix, utc)
  {
    WriteCoordinates(result, fix, utc.year);
    WriteDate(result, utc);
  }

  /** Latitude and longitude as big-endian `Int`s at 11 and 15, the year as a `Short` at 19. */
  method WriteCoordinates(result: array<byte>, fix: Fix, year: int)
    requires result.Length >= 26
    modifies result
    ensures result[..] ==
      Splice(Splice(Splice(old(result[..]), 11, BE32(fix.latitudeE7 as int)), 15, BE32(fix.longitudeE7 as int)), 19, BE16(year))
  {
    CopyInto(BE32(fix.latitudeE7 as int), result, 11);
    CopyInto(BE32(fix.longitudeE7 as int), result, 15);
    CopyInto(BE16(year), result, 19);
  }

  /** The 1-based month, day, hour, minute and second, one byte each at 21..25. */
  method WriteDate(result: array<byte>, utc: UtcCalendar)
    requires result.Length >= 26
    modifies result
    ensures result[..] == old(result[..])[21 := ToByte(utc.month + 1)][22 := ToByte(utc.day)][23 := ToByte(utc.hour)]
                                         [24 := ToByte(utc.minute)][25 := ToByte(utc.second)]
  {
    result[21] := ToByte(utc.month + 1);
    result[22] := ToByte(utc.day);
    result[23] := ToByte(utc.hour);
    result[24] := ToByte(utc.minute);
    result[25] := ToByte(utc.second);
  }

  /** The raw and daylight-saving offsets in minutes, written at bytes 91..94. */
  method WriteZone(result: array<byte>, zone: Zone)
    requires result.Length == 95
    modifies result
    ensures result[..] == Splice(Splice(old(result[..]), 91, BE16(RawOffsetMinutes(zone))), 93, BE16(DstOffsetMinutes(zone)))
  {
    CopyInto(BE16(RawOffsetMinutes(zone)), result, 91);
    CopyInto(BE16(DstOffsetMinutes(zone)), result, 93);
  }

  /**
   * Proof plumbing, not a property of the source: regrouping a concatenation,
   * so that the enqueue helpers' postconditions chain.
   */
  lemma Associative(s: seq<Operation>, t: seq<Operation>, u: seq<Operation>)
    ensures s + t + u == s + (t + u)
  {
  }

  class CameraBLE {
    const address: string
    const gatt: Transport

    /** The characteristics whose handles are set (non-null). */
    var present: set<Characteristic>

    var operationQueue: seq<Operation>
    var currentOperation: Option<Operation>

    var cameraState: CameraState
    var name: Option<string>
    var locationSupportedByCamera: bool
    var locationSendTimezone: Option<bool>
    var locationInitDone: bool
    var lastLocation: Option<Fix>

    /** How often the owner's `onDisconnect` callback has run. */
    var disconnects: nat

    /**
     * The serializer invariant: with nothing in flight nothing waits, and
     * the operation in flight is the last one issued to the transport.
     */
    ghost predicate Valid()
      reads this, gatt
    {
      (currentOperation.None? ==> operationQueue == []) &&
      (currentOperation.Some? ==> gatt.issued != [] && gatt.issued[|gatt.issued| - 1] == currentOperation.value)
    }

    /** The operation in flight followed by the queue, in dispatch order. */
    ghost function Pending(): seq<Operation>
      reads this
    {
      (if currentOperation.Some? then [currentOperation.value] else []) + operationQueue
    }

    /** Everything handed to the transport, followed by everything still queued. */
    ghost function Submitted(): seq<Operation>
      reads this, gatt
    {
      gatt.issued + operationQueue
    }

    ghost function Vars(): SessionVars
      reads this
    {
      SessionVars(present, cameraState, name, locationSupportedByCamera, locationSendTimezone,
                  locationInitDone, lastLocation, disconnects)
    }

    twostate predicate SerializerUnchanged()
      reads this, gatt
    {
      currentOperation == old(currentOperation) && operationQueue == old(operationQueue) &&
      gatt.issued == old(gatt.issued)
    }

    constructor (address: string)
      ensures Valid() && fresh(gatt) && gatt.issued == [] && Pending() == []
      ensures this.address == address
      ensures Vars() == SessionVars({}, Gone, None, false, None, false, None, 0)
    {
      this.address := address;
      gatt := new Transport();
      present := {};
      operationQueue := [];
      currentOperation := None;
      cameraState := Gone;
      name := None;
      locationSupportedByCamera := false;
      locationSendTimezone := None;
      locationInitDone := false;
      lastLocation := None;
      disconnects := 0;
    }

    // ----------------------------------------------------------- serializer

    /** Appends `op` to the queue and dispatches it at once when nothing is in flight. */
    method EnqueueOperation(op: Operation)
      requires Valid()
      modifies this, gatt
      ensures Valid()
      ensures Submitted() == old(Submitted()) + [op]
      ensures Pending() == old(Pending()) + [op]
      ensures Vars() == old(Vars())
    {
      operationQueue := operationQueue + [op];
      if currentOperation.None? {
        ExecuteNextOperation();
      }
    }

    /** Drops the queue and the in-flight operation; nothing is issued and no callback runs. */
    method ResetOperationQueue()
      modifies this
      ensures Valid() && Pending() == [] && currentOperation.None?
      ensures Vars() == old(Vars())
    {
      operationQueue := [];
      currentOperation := None;
    }

    /** When nothing is in flight, polls the head of the queue and issues it. */
    method ExecuteNextOperation()
      requires currentOperation.Some? ==> Valid()
      modifies this, gatt
      ensures Valid()
      ensures old(currentOperation).Some? ==> SerializerUnchanged()
      ensures old(currentOperation).None? ==>
        Submitted() == old(Submitted()) && Pending() == old(operationQueue) &&
        gatt.issued == old(gatt.issued) + (if old(operationQueue) == [] then [] else [old(operationQueue)[0]])
      ensures Vars() == old(Vars())
    {
      if currentOperation.Some? {
        return;
      }
      if operationQueue == [] {
        currentOperation := None;
      } else {
        var op := operationQueue[0];
        currentOperation := Some(op);
        operationQueue := operationQueue[1..];
        gatt.Issue(op);
      }
    }

    /** Retires the operation in flight and dispatches the next one. */
    method OperationComplete()
      requires Valid()
      modifies this, gatt
      ensures Valid()
      ensures Submitted() == old(Submitted()) && Pending() == old(operationQueue)
      ensures Vars() == old(Vars())
    {
      currentOperation := None;
      ExecuteNextOperation();
    }

    /**
     * A write finished. Ignored unless a write is in flight. Otherwise the
     * write is retired; success on the location-enable characteristic marks
     * location set-up done and offers the staged fix to `sendLocation`
     * (sent and cleared, or left staged when it is stale or has no
     * receiver); status 144 on the
     * command characteristic means the camera's remote setting is off.
     */
    method WriteComplete(target: Characteristic, status: int, clock: Clock)
      requires Valid()
      modifies this, gatt
      ensures Valid()
      ensures !(old(currentOperation).Some? && old(currentOperation).value.Write?) ==>
        SerializerUnchanged() && Vars() == old(Vars())
      ensures old(currentOperation).Some? && old(currentOperation).value.Write? ==>
        var enableAck := status == GattSuccess && target == LocationEnabled && LocationEnabled in old(present);
        var d := if enableAck && old(lastLocation).Some? then
                   LocationDisposition(old(locationSupportedByCamera), true, old(locationSendTimezone),
                                       LocationReceiver in old(present), old(lastLocation).value, clock)
                 else Discard;
        && Submitted() == old(Submitted()) + Sent(d)
        && Pending() == old(operationQueue) + Sent(d)
        && var w := old(Vars()).(locationInitDone := old(locationInitDone) || enableAck,
                                 cameraState := WrittenState(old(cameraState), target, status, old(present)));
           Vars() == if old(lastLocation).Some? then AfterStaging(w, d, old(lastLocation).value) else w
    {
      if currentOperation.Some? && currentOperation.value.Write? {
        OperationComplete();
        // A successful lock write is only logged.
        if status == GattSuccess && target == LocationEnabled && LocationEnabled in present {
          locationInitDone := true;
          if lastLocation.Some? {
            SendLocation(lastLocation.value, clock);
          }
        }
        // Status 144 on the location writes is only logged.
        if status == RemoteDisabledStatus && target == RemoteCommand && RemoteCommand in present {
          cameraState := RemoteDisabled;
        }
      }
    }

    /**
     * A read finished. Ignored unless a read is in flight. Otherwise the
     * read is retired, the next operation dispatched, and then the read's
     * callback runs with exactly the reported status and value.
     */
    method ReadComplete(status: int, value: seq<byte>)
      requires Valid()
      modifies this, gatt
      ensures Valid()
      ensures !(old(currentOperation).Some? && old(currentOperation).value.Read?) ==>
        SerializerUnchanged() && Vars() == old(Vars())
      ensures old(currentOperation).Some? && old(currentOperation).value.Read? ==>
        && Submitted() == old(Submitted()) && Pending() == old(operationQueue)
        && Vars() == AfterReadCallback(old(Vars()), old(currentOperation).value.callback, status, value, address)
    {
      if currentOperation.Some? && currentOperation.value.Read? {
        var callback := currentOperation.value.callback;
        OperationComplete();
        RunReadCallback(callback, status, value);
      }
    }

    /**
     * A subscription finished, whatever its status. Ignored unless a
     * subscription is in flight. Otherwise a fresh `Ready` is installed and
     * the subscription retired.
     */
    method SubscribeComplete(status: int)
      requires Valid()
      modifies this, gatt
      ensures Valid()
      ensures !(old(currentOperation).Some? && old(currentOperation).value.Subscribe?) ==>
        SerializerUnchanged() && Vars() == old(Vars())
      ensures old(currentOperation).Some? && old(currentOperation).value.Subscribe? ==>
        && Submitted() == old(Submitted()) && Pending() == old(operationQueue)
        && Vars() == old(Vars()).(cameraState := SubscribedState(old(cameraState)))
    {
      if currentOperation.Some? && currentOperation.value.Subscribe? {
        cameraState := SubscribedState(cameraState);
        OperationComplete();
      }
    }

    // -------------------------------------------------------------- session

    /** The result callbacks registered with the bootstrap reads. */
    method RunReadCallback(callback: ReadCallback, status: int, value: seq<byte>)
      modifies this
      ensures SerializerUnchanged()
      ensures Vars() == AfterReadCallback(old(Vars()), callback, status, value, address)
    {
      match callback
      case NameRead =>
        if status == GattSuccess {
          var newName := DecodeName(value);
          cameraState := Identified(newName, address);
          name := Some(newName);
        }
      case MediaPrimingRead =>
        if status == GattSuccess {
          OnCameraMediaUpdate(value);
        }
      case BatteryPrimingRead =>
        if status == GattSuccess {
          OnCameraBatteryUpdate(value);
        }
      case DataFormatRead =>
        if status == GattSuccess {
          locationSendTimezone := Some(SendsTimezone(value));
        } else {
          locationSupportedByCamera := false;
        }
    }

    /**
     * Service discovery finished. On success the handles are resolved and
     * the bootstrap plan enqueued in order; when a required characteristic
     * is missing the session fails and disconnects (ending in `Gone`).
     */
    method OnServicesDiscovered(success: bool, discovered: set<Characteristic>)
      requires Valid()
      modifies this, gatt
      ensures Valid()
      ensures !success ==>
        SerializerUnchanged() &&
        Vars() == old(Vars()).(cameraState := Error(None, "Service discovery failed."))
      ensures success && HasRequired(discovered) ==>
        && Submitted() == old(Submitted()) + BootstrapPlan(discovered).value
        && Pending() == old(Pending()) + BootstrapPlan(discovered).value
        && Vars() == old(Vars()).(present := discovered - {DeviceName},
                                  locationSupportedByCamera := LocationSupported(discovered))
      ensures success && !HasRequired(discovered) ==>
        && gatt.issued == old(gatt.issued) && Pending() == []
        && Vars() == Disconnected(old(Vars()).(present := discovered - {DeviceName},
                                               locationSupportedByCamera := LocationSupported(discovered),
                                               cameraState := Error(None, "Remote service not found.")))
    {
      if !success {
        cameraState := Error(None, "Service discovery failed.");
        return;
      }
      present := discovered - {DeviceName};
      locationSupportedByCamera := LocationSupported(discovered);
      if RemoteStatus in discovered && RemoteCommand in discovered && DeviceName in discovered {
        EnqueueBootstrap(discovered);
        assert BootstrapPlan(discovered).value == BootstrapHead + TelemetryOps(discovered) + LocationOps(discovered);
      } else {
        cameraState := Error(None, "Remote service not found.");
        NotifyDisconnect();
      }
    }

    /** The bootstrap operations, enqueued one by one in plan order. */
    method EnqueueBootstrap(discovered: set<Characteristic>)
      requires Valid()
      modifies this, gatt
      ensures Valid()
      ensures Submitted() == old(Submitted()) + (BootstrapHead + TelemetryOps(discovered) + LocationOps(discovered))
      ensures Pending() == old(Pending()) + (BootstrapHead + TelemetryOps(discovered) + LocationOps(discovered))
      ensures Vars() == old(Vars())
    {
      ghost var submitted, pending := Submitted(), Pending();
      EnqueuePair(Read(DeviceName, NameRead), Subscribe(RemoteStatus));
      EnqueueTelemetry(discovered);
      Associative(submitted, BootstrapHead, TelemetryOps(discovered));
      Associative(pending, BootstrapHead, TelemetryOps(discovered));
      EnqueueLocationSetup(discovered);
      Associative(submitted, BootstrapHead + TelemetryOps(discovered), LocationOps(discovered));
      Associative(pending, BootstrapHead + TelemetryOps(discovered), LocationOps(discovered));
    }

    /** The media and battery subscriptions and priming reads, when the camera service is complete. */
    method EnqueueTelemetry(discovered: set<Characteristic>)
      requires Valid()
      modifies this, gatt
      ensures Valid()
      ensures Submitted() == old(Submitted()) + TelemetryOps(discovered)
      ensures Pending() == old(Pending()) + TelemetryOps(discovered)
      ensures Vars() == old(Vars())
    {
      if CameraStatus in discovered && CameraMedia in discovered && CameraBattery in discovered {
        ghost var submitted, pending := Submitted(), Pending();
        EnqueuePair(Subscribe(CameraMedia), Read(CameraMedia, MediaPrimingRead));
        EnqueuePair(Subscribe(CameraBattery), Read(CameraBattery, BatteryPrimingRead));
        ghost var first := [Subscribe(CameraMedia), Read(CameraMedia, MediaPrimingRead)];
        ghost var second := [Subscribe(CameraBattery), Read(CameraBattery, BatteryPrimingRead)];
        Associative(submitted, first, second);
        Associative(pending, first, second);
      }
    }

    /** Two operations, enqueued one after the other. */
    method EnqueuePair(first: Operation, second: Operation)
      requires Valid()
      modifies this, gatt
      ensures Valid()
      ensures Submitted() == old(Submitted()) + [first, second]
      ensures Pending() == old(Pending()) + [first, second]
      ensures Vars() == old(Vars())
    {
      ghost var submitted, pending := Submitted(), Pending();
      EnqueueOperation(first);
      EnqueueOperation(second);
      Associative(submitted, [first], [second]);
      Associative(pending, [first], [second]);
    }

    /** The data-format read, the lock write and the enable write, each when its characteristic exists. */
    method EnqueueLocationSetup(discovered: set<Characteristic>)
      requires Valid()
      modifies this, gatt
      ensures Valid()
      ensures Submitted() == old(Submitted()) + LocationOps(discovered)
      ensures Pending() == old(Pending()) + LocationOps(discovered)
      ensures Vars() == old(Vars())
    {
      ghost var submitted, pending := Submitted(), Pending();
      ghost var format := if LocationDataFormat in discovered then [Read(LocationDataFormat, DataFormatRead)] else [];
      ghost var lock := if LocationLock in discovered then [Write(LocationLock, [0x01])] else [];
      ghost var enable := if LocationEnabled in discovered then [Write(LocationEnabled, [0x01])] else [];
      EnqueueWhen(LocationDataFormat in discovered, Read(LocationDataFormat, DataFormatRead));
      EnqueueWhen(LocationLock in discovered, Write(LocationLock, [0x01]));
      Associative(submitted, format, lock);
      Associative(pending, format, lock);
      EnqueueWhen(LocationEnabled in discovered, Write(LocationEnabled, [0x01]));
      Associative(submitted, format + lock, enable);
      Associative(pending, format + lock, enable);
    }

    /** `op`, enqueued only when `condition` holds (a `?.let` on a possibly null handle). */
    method EnqueueWhen(condition: bool, op: Operation)
      requires Valid()
      modifies this, gatt
      ensures Valid()
      ensures Submitted() == old(Submitted()) + (if condition then [op] else [])
      ensures Pending() == old(Pending()) + (if condition then [op] else [])
      ensures Vars() == old(Vars())
    {
      if condition {
        EnqueueOperation(op);
      }
    }

    /** The link is gone: state `Gone`, remote handles cleared, serializer reset, set-up to redo. */
    method NotifyDisconnect()
      modifies this
      ensures Valid() && Pending() == []
      ensures Vars() == Disconnected(old(Vars()))
    {
      cameraState := Gone;
      present := present - {RemoteCommand, RemoteStatus};
      ResetOperationQueue();
      currentOperation := None;
      locationInitDone := false;
      disconnects := disconnects + 1;
    }

    /** A remote-status notification (`onRemoteStatusUpdate`); `now` is the `elapsedRealtime` reading. */
    method OnRemoteStatusUpdate(value: seq<byte>, now: int)
      requires StatusFrameReadable(cameraState, value)
      modifies this
      ensures SerializerUnchanged()
      ensures Vars() == old(Vars()).(cameraState := RemoteStatusUpdate(old(cameraState), old(name), value, now))
    {
      cameraState := RemoteStatusUpdate(cameraState, name, value, now);
    }

    /** A media-status notification or priming read. */
    method OnCameraMediaUpdate(value: seq<byte>)
      modifies this
      ensures SerializerUnchanged()
      ensures Vars() == old(Vars()).(cameraState := MediaUpdated(old(cameraState), value))
    {
      var mediaStatus := ParseCameraMedia(value);
      if cameraState.Ready? {
        cameraState := cameraState.(mediaStatus := mediaStatus);
      }
    }

    /** A battery-status notification or priming read. */
    method OnCameraBatteryUpdate(value: seq<byte>)
      modifies this
      ensures SerializerUnchanged()
      ensures Vars() == old(Vars()).(cameraState := BatteryUpdated(old(cameraState), value))
    {
      var batteryStatus := ParseCameraBattery(value);
      if cameraState.Ready? {
        cameraState := cameraState.(batteryStatus := batteryStatus);
      }
    }

    /**
     * `onCharacteristicChanged`: a notification is routed by the handle it
     * came from; camera-status and location notifications, and handles the
     * session does not hold, change nothing.
     */
    method OnCharacteristicChanged(source: Characteristic, value: seq<byte>, now: int)
      requires source == RemoteStatus && RemoteStatus in present ==> StatusFrameReadable(cameraState, value)
      modifies this
      ensures SerializerUnchanged()
      ensures source !in old(present) || source !in {RemoteStatus, CameraMedia, CameraBattery} ==>
        Vars() == old(Vars())
      ensures source == RemoteStatus && source in old(present) ==>
        Vars() == old(Vars()).(cameraState := RemoteStatusUpdate(old(cameraState), old(name), value, now))
      ensures source == CameraMedia && source in old(present) ==>
        Vars() == old(Vars()).(cameraState := MediaUpdated(old(cameraState), value))
      ensures source == CameraBattery && source in old(present) ==>
        Vars() == old(Vars()).(cameraState := BatteryUpdated(old(cameraState), value))
    {
      if source !in present {
        return;
      }
      match source
      case RemoteStatus => OnRemoteStatusUpdate(value, now);
      case CameraMedia => OnCameraMediaUpdate(value);
      case CameraBattery => OnCameraBatteryUpdate(value);
      case _ =>
    }

    // ------------------------------------------------------------- location

    /**
     * `serializeLocation`: no frame for a fix more than 30 s old or while the
     * data format is unknown; otherwise the 91- or 95-byte frame, filled in
     * place in a zeroed buffer.
     */
    method SerializeLocation(fix: Fix, clock: Clock) returns (r: Option<seq<byte>>)
      ensures r == EncodeLocation(fix, clock, locationSendTimezone)
    {
      if clock.elapsedRealtimeNanos - fix.elapsedRealtimeNanos > MaxFixAgeNanos {
        return None;
      }
      var sendTimezone := locationSendTimezone;
      if sendTimezone.None? {
        return None;
      }
      var withZone := sendTimezone.value;
      var dataLength := if withZone then 95 else 91;
      var result := new byte[dataLength](_ => 0);
      WriteHeader(result, withZone);
      WriteFix(result, fix, clock.utc);
      if withZone {
        WriteZone(result, clock.zone);
      }
      r := Some(result[..]);
    }

    /**
     * `sendLocation`: sends the fix when location is supported, set up and
     * its format known (clearing the staged fix), or stages it otherwise.
     */
    method SendLocation(fix: Fix, clock: Clock)
      requires Valid()
      modifies this, gatt
      ensures Valid()
      ensures var d := LocationDisposition(old(locationSupportedByCamera), old(locationInitDone), old(locationSendTimezone),
                                           LocationReceiver in old(present), fix, clock);
        && Submitted() == old(Submitted()) + Sent(d)
        && Pending() == old(Pending()) + Sent(d)
        && Vars() == AfterStaging(old(Vars()), d, fix)
    {
      if locationSupportedByCamera && locationInitDone && locationSendTimezone.Some? {
        var data := SerializeLocation(fix, clock);
        if data.Some? && LocationReceiver in present {
          EnqueueOperation(Write(LocationReceiver, data.value));
          lastLocation := None;
        }
      } else {
        lastLocation := Some(fix);
      }
    }

    // -------------------------------------------------------------- actions

    /**
     * `executeCameraActionStep`: only while `Ready` and with a command
     * characteristic; button and jog steps enqueue their frame and update
     * the pressed sets at once, without waiting for the write.
     */
    method ExecuteCameraActionStep(action: ActionStep)
      requires Valid()
      modifies this, gatt
      ensures Valid()
      ensures var acts := old(cameraState).Ready? && RemoteCommand in old(present);
        var sent := if acts && ActionFrame(action).Some? then [Write(RemoteCommand, ActionFrame(action).value)] else [];
        && Submitted() == old(Submitted()) + sent
        && Pending() == old(Pending()) + sent
        && Vars() == old(Vars()).(cameraState := if acts then ApplyPress(old(cameraState), action) else old(cameraState))
    {
      if !cameraState.Ready? {
        return;
      }
      if RemoteCommand in present {
        match action
        case Button(button, pressed, code) =>
          EnqueueOperation(Write(RemoteCommand, ButtonFrame(code)));
          cameraState := ApplyPress(cameraState, action);
        case Jog(jog, pressed, code, step) =>
          EnqueueOperation(Write(RemoteCommand, JogFrame(code, pressed, step)));
          cameraState := ApplyPress(cameraState, action);
        case _ =>
      }
    }
  }
}
