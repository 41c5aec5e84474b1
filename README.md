# alpharemote camera link, modelled in Dafny

alpharemote is an Android remote control for Sony cameras over Bluetooth Low
Energy. This project models its camera link, `CameraBLE`, and the
`CameraState` value it publishes:

- the **operation serializer**: GATT allows one request in flight, so every
  write, read and notification subscription goes through a FIFO queue with a
  single in-flight slot; a completion callback retires the slot and dispatches
  the next operation;
- **service discovery**: which characteristics the session resolves, and the
  ordered bootstrap plan it enqueues (name read, remote-status subscription,
  media/battery priming, location set-up);
- the **session state machine** (`Gone`, `Connecting`, `NotBonded`,
  `RemoteDisabled`, `Identified`, `Ready`, `Error`) and how completions and
  notifications move it;
- the **byte protocol**: decoding the media and battery notifications,
  encoding button and jog command frames, reading the location data-format
  flag, and laying out the 91- or 95-byte location frame;
- **location staging**: a fix is held while the camera's location support,
  location set-up or data format is missing; once all three are in place it
  is sent and cleared, but a fix that is stale or has no receiver at that
  point is dropped and stays staged.

Files, one module each:

| file | module | contents |
|---|---|---|
| `wrappers.dfy` | `Wrappers` | `Option` |
| `bytes.dfy` | `Bytes` | Kotlin `Byte`, `Int`, `Short` views, big-endian encoders and decoders, `copyInto` |
| `camera_state.dfy` | `States` | the `CameraState` hierarchy and the `ReportedBoolean` class |
| `codec.dfy` | `Codec` | media and battery decoders, command frames, the location frame |
| `gatt.dfy` | `Gatt` | characteristics, queued operations, the bootstrap plan |
| `session.dfy` | `Session` | the state transitions as pure functions of the old state |
| `camera_ble.dfy` | `CameraBle` | the `CameraBLE` class: serializer, session fields, handlers |

Modelling choices:

- A `Byte` is kept as its unsigned bit pattern (`byte`, 0..255). The signed
  views (`Byte.toInt()`, `ByteBuffer.getInt()`, `Int.toShort()`) and Kotlin's
  truncating `Int` division are written out.
- The Android GATT client is a `Transport` object that records, in order,
  every operation issued to it. The serializer is specified by
  `Submitted()`, the issued operations followed by the queue, and by
  `Pending()`, the in-flight operation followed by the queue. Enqueueing
  appends to both, and retiring an operation (`OperationComplete`) leaves
  `Submitted()` unchanged. The one completion that adds to it is
  `WriteComplete`: when the location-enable write succeeds and a fix is
  staged, it appends the location write that `sendLocation` enqueues. So operations reach the transport in the order they were
  enqueued, one at a time.
- A characteristic handle that is non-null is an element of the set
  `present`. The device-name handle is local to the discovery handler, so it
  is not in `present`.
- The read callbacks are closures in the source. Here they are the four
  values of `ReadCallback`, and `RunReadCallback` executes them.
- `CameraStateReady` holds `ReportedBoolean` objects. In the model it holds
  `Reported(state, lastChange)` snapshots, so the state transitions stay pure
  functions. The `ReportedBoolean` class itself is modelled, and its
  constructors are proved to produce exactly those snapshots. The
  `elapsedRealtime` reading is a parameter `now`.
- The media and battery descriptions are formatted strings (an emoji,
  `DateUtils.formatElapsedTime`, a percentage). Here they are the label values
  `ShotsLabel`, `DurationLabel` and `BatteryLabel`, which carry the data the
  string shows.
- Platform clocks become a `Clock` value: the monotonic clock, the fields of a
  UTC `Calendar`, and the default time zone.

Behaviour of the code that the model keeps, though one might expect
otherwise:

- A media or battery notification that fails to decode *replaces* the
  previous status with null.
- Every completed subscription installs a fresh `Ready`. Its name comes from
  the state only when that state is `Identified`. So the second and third
  bootstrap subscriptions drop the camera name, and the third also drops the
  media status primed after the second (`Session.ResubscribeDropsReadyContents`).
  The battery priming read is queued after the third subscription, and the
  serializer is FIFO, so the primed battery status survives the bootstrap.
- When a required characteristic is missing, the handler sets
  `Error("Remote service not found.")` and at once calls `notifyDisconnect`,
  so the state the session ends in is `Gone`.
- When the location-enable write succeeds, the staged fix is offered to
  `sendLocation`. A fix that is more than 30 s old by then, or one with no
  location receiver, is not sent, and it is not cleared either: it stays
  staged (`Session.LocationDisposition`'s drop case; `WriteComplete` leaves
  `lastLocation` as it was).
- The date and time in the location frame come from the current UTC clock,
  not from the fix's own timestamp.

## Model

| member | source | states |
|---|---|---|
| States.ReportedBoolean.constructor | app/src/main/java/org/staacks/alpharemote/camera/CameraState.kt:18-20 | a new flag is false and has never changed (`Unreported`) |
| States.ReportedBoolean.Of | app/src/main/java/org/staacks/alpharemote/camera/CameraState.kt:25-27 | constructing from a value goes through the setter, so the flag holds the value and its change time is `now` |
| States.ReportedBoolean.SetState | app/src/main/java/org/staacks/alpharemote/camera/CameraState.kt:20-24 | setting the flag stores the value and stamps the change time |
| Bytes.I32RoundTrip | app/src/main/java/org/staacks/alpharemote/camera/CameraBLE.kt:629-630 | four bytes written by `putInt` read back with `getInt` as the same `Int` |
| Bytes.I16RoundTrip | app/src/main/java/org/staacks/alpharemote/camera/CameraBLE.kt:635 | two bytes written by `putShort` read back as the value truncated to `Short` |
| Bytes.CopyInto | app/src/main/java/org/staacks/alpharemote/camera/CameraBLE.kt:621-624 | `copyInto` overwrites exactly the target window of the array with the source bytes, and nothing else |
| Codec.ParseCameraMedia | app/src/main/java/org/staacks/alpharemote/camera/CameraBLE.kt:510-542 | a status is decoded exactly when the frame has 20+ bytes, the 0,0,2 header, and slot 1 is usable, or (24+ bytes) slot 2 is; slot 1 wins and supplies the counters at 8 and 16, otherwise slot 2 supplies those at 12 and 20; at least one counter is present and the label shows the seconds if known, else the shots |
| Codec.MediaFrameRoundTrip | app/src/main/java/org/staacks/alpharemote/camera/CameraBLE.kt:510-525 | any shot and second counts a camera puts in slot 1 (kind 1..5) are decoded back exactly |
| Codec.ParseCameraBattery | app/src/main/java/org/staacks/alpharemote/camera/CameraBLE.kt:544-567 | a status is decoded exactly when the frame has 18+ bytes, the header, and pack 1 or pack 2 is usable (presence bit, state 1..11, percentage 0..100); pack 1 wins; charging iff the state is 6..11; percentage always 0..100 |
| Codec.BatteryFrameRoundTrip | app/src/main/java/org/staacks/alpharemote/camera/CameraBLE.kt:544-556 | a pack-1 reading with state 1..11 and percentage 0..100 is decoded back exactly, charging iff state >= 6 |
| Codec.BatteryExample | app/src/main/java/org/staacks/alpharemote/camera/CameraBLE.kt:548-555 | a concrete frame with charge state 7 and 83 % decodes as 83 %, charging |
| Codec.ActionFrameDecodes | app/src/main/java/org/staacks/alpharemote/camera/CameraBLE.kt:681-694 | only button and jog steps produce a frame; the camera reads back `0x01, code` for a button and `0x02, code, step` for a jog, the step 0 on release |
| Codec.SendsTimezone | app/src/main/java/org/staacks/alpharemote/camera/CameraBLE.kt:180 | the time zone fields are requested iff the data format has 5+ bytes and bit 1 of byte 4 is set |
| Codec.EncodeLocation | app/src/main/java/org/staacks/alpharemote/camera/CameraBLE.kt:606-614 | no frame iff the fix is more than 30 s old or the data format is unknown; otherwise the location frame |
| Codec.LocationFrameLayout | app/src/main/java/org/staacks/alpharemote/camera/CameraBLE.kt:616-656 | the frame is 91 or 95 bytes: template header with length-2 at byte 1 and the zone flag at 5, latitude and longitude read back at 11 and 15, year at 19, 1-based month, day, hour, minute, second at 21..25, zeros to 90, and with time zone the raw and DST offsets in minutes at 91 and 93 |
| Codec.HeaderPartLayout | app/src/main/java/org/staacks/alpharemote/camera/CameraBLE.kt:616-625 | the header is the template with the patched length and zone flag, zeros after byte 10 |
| Codec.FixPartLayout | app/src/main/java/org/staacks/alpharemote/camera/CameraBLE.kt:629-640 | the coordinates and date fill bytes 11..25 and change no other byte |
| Codec.ZonePartLayout | app/src/main/java/org/staacks/alpharemote/camera/CameraBLE.kt:642-653 | the offsets fill bytes 91..94 and change no other byte |
| Gatt.BootstrapPlan | app/src/main/java/org/staacks/alpharemote/camera/CameraBLE.kt:138-204 | a plan exists iff the status, command and name characteristics were found; it has 2 to 9 operations and starts with the name read and the status subscription |
| Gatt.PlanTargetsPresent | app/src/main/java/org/staacks/alpharemote/camera/CameraBLE.kt:139-196 | every planned operation addresses a characteristic discovery found |
| Gatt.PlanPrimesTelemetry | app/src/main/java/org/staacks/alpharemote/camera/CameraBLE.kt:151-176 | media and battery are subscribed and primed, in that order, right after the status subscription, iff the camera service is complete |
| Gatt.PlanEndsWithLocationSetup | app/src/main/java/org/staacks/alpharemote/camera/CameraBLE.kt:177-196 | the plan ends with the data-format read, lock write and enable write, each iff its characteristic exists; the enable write is last iff it exists; the plan is exactly the two-operation head, the four telemetry operations when the camera service is complete, and the location operations, with nothing in between |
| Session.SubscribedState | app/src/main/java/org/staacks/alpharemote/camera/CameraBLE.kt:478-486 | a completed subscription yields a `Ready` with no flags reported, nothing pressed and no telemetry, named only when the state was `Identified` |
| Session.ResubscribeDropsReadyContents | app/src/main/java/org/staacks/alpharemote/camera/CameraBLE.kt:480-484 | a subscription completing while `Ready` drops the name and all telemetry |
| Session.RemoteStatusUpdate | app/src/main/java/org/staacks/alpharemote/camera/CameraBLE.kt:490-506 | only `Ready` and `RemoteDisabled` react; `RemoteDisabled` restarts from a fresh `Ready`; byte 1 picks focus, shutter or recording, which becomes bit 0x20 of byte 2 stamped now; the other flags and all other fields are kept |
| Session.RemoteDisabledRecovers | app/src/main/java/org/staacks/alpharemote/camera/CameraBLE.kt:457-460 | a 144 on a command write disables the remote, and the next status notification heals it into a `Ready` with nothing pressed and no telemetry |
| Session.MediaUpdated | app/src/main/java/org/staacks/alpharemote/camera/CameraBLE.kt:575-588 | a `Ready` state takes the decoded media status, null when decoding fails; other states and other fields are untouched |
| Session.BatteryUpdated | app/src/main/java/org/staacks/alpharemote/camera/CameraBLE.kt:591-604 | a `Ready` state takes the decoded battery status, null when decoding fails; other states and other fields are untouched |
| Session.ApplyPress | app/src/main/java/org/staacks/alpharemote/camera/CameraBLE.kt:681-697 | a button (jog) step makes its button (jog) held iff pressed and leaves every other button (jog) and field alone; other steps and states change nothing |
| Session.ApplyPresses | app/src/main/java/org/staacks/alpharemote/camera/CameraBLE.kt:674-697 | applying a sequence of steps leaves any state other than `Ready` as it is, keeps a `Ready` state `Ready`, and changes nothing but the two pressed sets |
| Session.HeldIffLastStepPressed | app/src/main/java/org/staacks/alpharemote/camera/CameraBLE.kt:681-697 | after any sequence of steps, a button or jog is held iff the last step naming it was a press; one no step names keeps its old status |
| Session.PressThenRelease | app/src/main/java/org/staacks/alpharemote/camera/CameraBLE.kt:681-688 | pressing and releasing a button that was not held restores the state |
| Session.WrittenState | app/src/main/java/org/staacks/alpharemote/camera/CameraBLE.kt:457-464 | the state becomes `RemoteDisabled` iff a command write returns 144 (or it already was); no other write result changes it |
| Session.FreshReady | app/src/main/java/org/staacks/alpharemote/camera/CameraBLE.kt:495 | the restart state carries the session name and nothing else |
| Session.LocationDisposition | app/src/main/java/org/staacks/alpharemote/camera/CameraBLE.kt:659-672 | a fix is held iff location is not supported, set up and its format known; otherwise it is sent iff fresh and the receiver exists, as the location frame of the right length, and dropped otherwise |
| CameraBle.CameraBLE.constructor | app/src/main/java/org/staacks/alpharemote/camera/CameraBLE.kt:65-99 | a new link is `Gone` with no handles, an empty serializer and no location state |
| CameraBle.CameraBLE.EnqueueOperation | app/src/main/java/org/staacks/alpharemote/camera/CameraBLE.kt:373-378 | the operation joins the end of the pending sequence and is issued at once when nothing is in flight |
| CameraBle.CameraBLE.ResetOperationQueue | app/src/main/java/org/staacks/alpharemote/camera/CameraBLE.kt:381-385 | nothing is pending afterwards and nothing is issued |
| CameraBle.CameraBLE.ExecuteNextOperation | app/src/main/java/org/staacks/alpharemote/camera/CameraBLE.kt:388-435 | with an operation in flight nothing happens; otherwise the head of the queue, if any, is issued and becomes the operation in flight |
| CameraBle.CameraBLE.OperationComplete | app/src/main/java/org/staacks/alpharemote/camera/CameraBLE.kt:438-441 | the operation in flight is retired and the rest of the queue stays pending in order |
| CameraBle.CameraBLE.WriteComplete | app/src/main/java/org/staacks/alpharemote/camera/CameraBLE.kt:443-466 | ignored unless a write is in flight; otherwise it is retired, a successful enable write marks location set-up done and sends the staged fix, and a 144 on the command characteristic disables the remote |
| CameraBle.CameraBLE.ReadComplete | app/src/main/java/org/staacks/alpharemote/camera/CameraBLE.kt:469-476 | ignored unless a read is in flight; otherwise it is retired and that read's own callback runs on the status and value |
| CameraBle.CameraBLE.SubscribeComplete | app/src/main/java/org/staacks/alpharemote/camera/CameraBLE.kt:478-486 | ignored unless a subscription is in flight; otherwise a fresh `Ready` is installed, whatever the status, and the subscription retired |
| CameraBle.CameraBLE.RunReadCallback | app/src/main/java/org/staacks/alpharemote/camera/CameraBLE.kt:141-193 | a name read identifies the camera and records its name; priming reads update media or battery; a data-format read sets the time zone flag, or on failure turns location support off; failed reads change nothing else |
| CameraBle.FailedReadKeepsSession | app/src/main/java/org/staacks/alpharemote/camera/CameraBLE.kt:142-187 | a read that fails leaves state, name and time-zone choice unchanged; only a failed data-format read turns location support off |
| CameraBle.NameReadNamesReady | app/src/main/java/org/staacks/alpharemote/camera/CameraBLE.kt:142-149 | a successful name read makes the state `Identified` with the decoded name and records it, and the remote-status subscription completing next installs a `Ready` carrying that same name |
| CameraBle.CameraBLE.OnServicesDiscovered | app/src/main/java/org/staacks/alpharemote/camera/CameraBLE.kt:117-212 | a failed discovery only sets an error; a successful one resolves the handles and location support and enqueues exactly the bootstrap plan, or, without the required characteristics, disconnects |
| CameraBle.CameraBLE.EnqueueBootstrap | app/src/main/java/org/staacks/alpharemote/camera/CameraBLE.kt:139-196 | the name read and status subscription, then the telemetry operations, then the location set-up are enqueued, in that order; `OnServicesDiscovered` shows this is the bootstrap plan |
| CameraBle.CameraBLE.NotifyDisconnect | app/src/main/java/org/staacks/alpharemote/camera/CameraBLE.kt:347-357 | the state is `Gone`, the remote handles are cleared, nothing is pending, location set-up must be redone, and the owner is told once |
| CameraBle.CameraBLE.OnRemoteStatusUpdate | app/src/main/java/org/staacks/alpharemote/camera/CameraBLE.kt:490-506 | the state becomes the remote-status transition of the old state and the session name |
| CameraBle.CameraBLE.OnCameraMediaUpdate | app/src/main/java/org/staacks/alpharemote/camera/CameraBLE.kt:575-588 | the state becomes the media transition; the serializer is untouched |
| CameraBle.CameraBLE.OnCameraBatteryUpdate | app/src/main/java/org/staacks/alpharemote/camera/CameraBLE.kt:591-604 | the state becomes the battery transition; the serializer is untouched |
| CameraBle.CameraBLE.OnCharacteristicChanged | app/src/main/java/org/staacks/alpharemote/camera/CameraBLE.kt:288-301 | a notification is routed by the handle it came from; camera-status, location and unknown handles change nothing |
| CameraBle.CameraBLE.SerializeLocation | app/src/main/java/org/staacks/alpharemote/camera/CameraBLE.kt:606-657 | the bytes filled in place in a zeroed array are exactly the location frame, or none for a stale fix or unknown format |
| CameraBle.CameraBLE.SendLocation | app/src/main/java/org/staacks/alpharemote/camera/CameraBLE.kt:659-672 | the fix is sent (enqueued, staged fix cleared), held, or dropped exactly as the location disposition says |
| CameraBle.CameraBLE.ExecuteCameraActionStep | app/src/main/java/org/staacks/alpharemote/camera/CameraBLE.kt:674-704 | only while `Ready` with a command handle: a button or jog step enqueues its command frame and updates the held set at once |
| CameraBle.WriteHeader | app/src/main/java/org/staacks/alpharemote/camera/CameraBLE.kt:616-625 | the zeroed buffer holds exactly the header part afterwards |
| CameraBle.WriteFix | app/src/main/java/org/staacks/alpharemote/camera/CameraBLE.kt:629-640 | the buffer holds the fix part applied to its old contents |
| CameraBle.WriteZone | app/src/main/java/org/staacks/alpharemote/camera/CameraBLE.kt:642-653 | the two offsets are spliced in at 91 and 93 |

## Left out

- Connecting: `connectToDevice`, `onConnectionStateChange`, the bond-state receiver and `disconnectFromDevice` drive the Android Bluetooth stack. The constructor leaves the state `Gone`, the field initialiser's value, not the `Connecting` that `connectToDevice` sets; no modelled operation sets `Connecting` or `NotBonded`, so those states are never reached in the model. The disconnect path is `NotifyDisconnect`, which `disconnectFromDevice` calls after closing the link.
- `onServiceChanged` is `ResetOperationQueue` followed by a new discovery request to the stack. The discovery result then arrives as `OnServicesDiscovered`.
- Every `SecurityException` handler (it sets `Error(e)`) is left out. The permission checks of the Android stack are not part of this model.
- Session.RemoteStatusUpdate: requires the bytes the source indexes to exist (`StatusFrameReadable`: byte 1 while the state is `Ready` or `RemoteDisabled`, byte 2 when byte 1 names a flag). A shorter frame in those states makes the source throw an index exception; that path is not modelled. In every other state any frame is accepted and ignored, as in the source. `CameraBLE.OnRemoteStatusUpdate` and `CameraBLE.OnCharacteristicChanged` carry the same precondition.
- `onCameraStatusUpdate` only logs. All logging is left out.
- Floating point: a fix is given with its coordinates already scaled by 10^7 and truncated to `Int`.
- The API-level split between the deprecated and the current GATT callbacks is left out. Both deliver the same status and value.
- `gatt?.` calls on a null handle are left out: `Transport.Issue` always records the operation.
- Session.DecodeName: maps each byte to one character. It does not model UTF-8 decoding of multi-byte sequences.
- Codec.ParseCameraMedia: the description is a `MediaLabel` value, not the formatted string with emoji and `DateUtils.formatElapsedTime`.
- Codec.ParseCameraBattery: the description is a `BatteryLabel` value, not the formatted string.
- Codec.IsStale: the 64-bit arithmetic of `elapsedRealtimeNanos` is unbounded here. It cannot overflow on real clock values.
- States.ReportedBoolean: `Ready` stores value snapshots of the flags, not shared objects, so the object identity that a Kotlin data class's `equals` compares is not modelled.
- The `StateFlow` that publishes `cameraState` (observers, deduplication of equal values) is left out. The model keeps only the current value.
- Concurrency: `@Synchronized` and the Bluetooth binder threads are left out. Every handler runs to completion before the next one starts.
