/**
 * The byte-level protocol of the camera's remote, camera and location
 * services: decoding the media and battery frames, encoding the command
 * frames, reading the location data-format flag and laying out the location
 * frame. All multi-byte integers are big-endian.
 */
module Codec {
  import opened Wrappers
  import opened Bytes
  import opened States

  /** Bytes 1..3 of a media or battery frame must be 0, 0, 2. */
  predicate HasHeader(data: seq<byte>)
    requires |data| >= 4
  {
    data[1] == 0 && data[2] == 0 && data[3] == 2
  }

  // ---------------------------------------------------------------- media

  /** A counter of a media slot: present when its bit of the slot's flag byte is set. */
  function Counter(data: seq<byte>, flags: byte, mask: int, at: nat): Option<i32>
    requires mask == 2 || mask == 4
    requires at + 4 <= |data|
  {
    if MaskSet(flags, mask) then Some(ReadI32BE(data, at)) else None
  }

  /**
   * When a media slot is usable: its presence bit is set, its kind byte is
   * in 1..5, and it reports shots (bit 2) or recording seconds (bit 4).
   */
  predicate SlotValid(flags: byte, kind: byte)
  {
    MaskSet(flags, 1) && 1 <= SignedByte(kind) <= 5 && (MaskSet(flags, 2) || MaskSet(flags, 4))
  }

  /** The label the status shows: the shot count, unless a recording time is known. */
  function MediaLabelOf(shots: Option<i32>, seconds: Option<i32>): MediaLabel
    requires shots.Some? || seconds.Some?
  {
    if seconds.None? then ShotsLabel(shots.value) else DurationLabel(seconds.value)
  }

  /** Decodes one slot of a media frame, or None when the slot is not usable. */
  function MediaSlot(data: seq<byte>, flags: byte, kind: byte, shotsAt: nat, secondsAt: nat): Option<MediaStatus>
    requires shotsAt + 4 <= |data| && secondsAt + 4 <= |data|
  {
    var shots := Counter(data, flags, 2, shotsAt);
    var seconds := Counter(data, flags, 4, secondsAt);
    if MaskSet(flags, 1) && 1 <= SignedByte(kind) <= 5 && (shots.Some? || seconds.Some?) then
      Some(MediaStatus(shots, seconds, MediaLabelOf(shots, seconds)))
    else
      None
  }

  /**
   * `parseCameraMedia`: slot 1 (flags at 4, kind at 6, shots at 8, seconds
   * at 16) wins when usable; slot 2 (flags at 5, kind at 7, shots at 12,
   * seconds at 20) is looked at only in frames of 24 bytes or more.
   */
  function ParseCameraMedia(data: seq<byte>): (r: Option<MediaStatus>)
    ensures |data| < 20 || !HasHeader(data) ==> r.None?
    ensures r.Some? <==>
      |data| >= 20 && HasHeader(data) &&
      (SlotValid(data[4], data[6]) || (|data| >= 24 && SlotValid(data[5], data[7])))
    ensures r.Some? && SlotValid(data[4], data[6]) ==>
      r.value.shotsRemaining == Counter(data, data[4], 2, 8) &&
      r.value.secondsRemaining == Counter(data, data[4], 4, 16)
    ensures r.Some? && !SlotValid(data[4], data[6]) ==>
      r.value.shotsRemaining == Counter(data, data[5], 2, 12) &&
      r.value.secondsRemaining == Counter(data, data[5], 4, 20)
    ensures r.Some? ==>
      (r.value.shotsRemaining.Some? || r.value.secondsRemaining.Some?) &&
      r.value.description == MediaLabelOf(r.value.shotsRemaining, r.value.secondsRemaining)
  {
    if |data| < 20 || !HasHeader(data) then None
    else
      var slot1 := MediaSlot(data, data[4], data[6], 8, 16);
      if slot1.Some? then slot1
      else if |data| < 24 then None
      else MediaSlot(data, data[5], data[7], 12, 20)
  }

  /** The slot-1 flag byte for the counters that are present. */
  function MediaFlags(shots: Option<i32>, seconds: Option<i32>): byte
  {
    1 + (if shots.Some? then 2 else 0) + (if seconds.Some? then 4 else 0)
  }

  /** A 20-byte media frame as the camera sends it with only slot 1 in use. */
  function MediaFrame(kind: byte, shots: Option<i32>, seconds: Option<i32>): (f: seq<byte>)
    ensures |f| == 20
  {
    [0, 0, 0, 2, MediaFlags(shots, seconds), 0, kind, 0]
    + BE32(if shots.Some? then shots.value as int else 0)
    + [0, 0, 0, 0]
    + BE32(if seconds.Some? then seconds.value as int else 0)
  }

  /** Whatever slot 1 reports is decoded back exactly. */
  lemma MediaFrameRoundTrip(kind: byte, shots: Option<i32>, seconds: Option<i32>)
    requires 1 <= kind <= 5
    requires shots.Some? || seconds.Some?
    ensures ParseCameraMedia(MediaFrame(kind, shots, seconds))
         == Some(MediaStatus(shots, seconds, MediaLabelOf(shots, seconds)))
  {
    var f := MediaFrame(kind, shots, seconds);
    var flags := MediaFlags(shots, seconds);
    assert f[4] == flags && f[6] == kind && HasHeader(f);
    assert MaskSet(flags, 1);
    assert MaskSet(flags, 2) <==> shots.Some?;
    assert MaskSet(flags, 4) <==> seconds.Some?;
    if shots.Some? {
      I32RoundTrip(shots.value, f, 8);
    }
    if seconds.Some? {
      assert f[16..20] == BE32(seconds.value as int);
      I32RoundTrip(seconds.value, f, 16);
    }
  }

  // -------------------------------------------------------------- battery

  /** A battery pack is usable when its presence bit is set, its state byte is in 1..11 and its percentage in 0..100. */
  predicate PackValid(presence: byte, state: byte, percentage: i32)
  {
    MaskSet(presence, 1) && 1 <= SignedByte(state) <= 11 && 0 <= percentage <= 100
  }

  /** State bytes 6..11 mean the pack is charging. */
  predicate IsCharging(state: byte)
  {
    6 <= SignedByte(state) <= 11
  }

  /** Decodes one battery pack, or None when it is not usable. */
  function BatteryPack(presence: byte, state: byte, percentage: i32): Option<BatteryStatus>
  {
    var charging := 6 <= SignedByte(state) <= 11;
    if MaskSet(presence, 1) && 1 <= SignedByte(state) <= 11 && 0 <= percentage <= 100 then
      Some(BatteryStatus(percentage, charging, BatteryLabel(charging, percentage)))
    else
      None
  }

  /**
   * `parseCameraBattery`: pack 1 (presence at 4, state at 8, percentage at
   * 10) wins over pack 2 (presence at 5, state at 9, percentage at 14).
   */
  function ParseCameraBattery(data: seq<byte>): (r: Option<BatteryStatus>)
    ensures |data| < 18 || !HasHeader(data) ==> r.None?
    ensures r.Some? <==>
      |data| >= 18 && HasHeader(data) &&
      (PackValid(data[4], data[8], ReadI32BE(data, 10)) || PackValid(data[5], data[9], ReadI32BE(data, 14)))
    ensures r.Some? && PackValid(data[4], data[8], ReadI32BE(data, 10)) ==>
      r.value.percentage == ReadI32BE(data, 10) && (r.value.charging <==> IsCharging(data[8]))
    ensures r.Some? && !PackValid(data[4], data[8], ReadI32BE(data, 10)) ==>
      r.value.percentage == ReadI32BE(data, 14) && (r.value.charging <==> IsCharging(data[9]))
    ensures r.Some? ==>
      0 <= r.value.percentage <= 100 &&
      r.value.description == BatteryLabel(r.value.charging, r.value.percentage)
  {
    if |data| < 18 || !HasHeader(data) then None
    else
      var pack1 := BatteryPack(data[4], data[8], ReadI32BE(data, 10));
      if pack1.Some? then pack1
      else BatteryPack(data[5], data[9], ReadI32BE(data, 14))
  }

  /** An 18-byte battery frame as the camera sends it with only pack 1 present. */
  function BatteryFrame(state: byte, percentage: i32): (f: seq<byte>)
    ensures |f| == 18
  {
    [0, 0, 0, 2, 1, 0, 0, 0, state, 0] + BE32(percentage as int) + [0, 0, 0, 0]
  }

  /** A pack-1 reading is decoded back exactly; charging iff the state byte is 6..11. */
  lemma BatteryFrameRoundTrip(state: byte, percentage: i32)
    requires 1 <= state <= 11 && 0 <= percentage <= 100
    ensures ParseCameraBattery(BatteryFrame(state, percentage))
         == Some(BatteryStatus(percentage, state >= 6, BatteryLabel(state >= 6, percentage)))
  {
    var f := BatteryFrame(state, percentage);
    assert f[4] == 1 && f[8] == state && HasHeader(f);
    I32RoundTrip(percentage, f, 10);
  }

  /** Pack 1 present, charge state 7 and 83 percent decode as 83 %, charging. */
  lemma BatteryExample()
    ensures ParseCameraBattery([0, 0, 0, 2, 1, 0, 0, 0, 7, 0, 0, 0, 0, 83, 0, 0, 0, 0])
         == Some(BatteryStatus(83, true, BatteryLabel(true, 83)))
  {
    assert BatteryFrame(7, 83) == [0, 0, 0, 2, 1, 0, 0, 0, 7, 0, 0, 0, 0, 83, 0, 0, 0, 0];
    BatteryFrameRoundTrip(7, 83);
  }

  // ------------------------------------------------------------- commands

  /** A button press or release: `[0x01, code]`. */
  function ButtonFrame(code: byte): seq<byte>
  {
    [0x01, code]
  }

  /** A jog press or release: `[0x02, code, step]`, the step sent as 0 on release. */
  function JogFrame(code: byte, pressed: bool, step: byte): seq<byte>
  {
    [0x02, code, if pressed then step else 0x00]
  }

  /** The command frame an action step puts on the wire, if any. */
  function ActionFrame(action: ActionStep): Option<seq<byte>>
  {
    match action
    case Button(_, _, code) => Some(ButtonFrame(code))
    case Jog(_, pressed, code, step) => Some(JogFrame(code, pressed, step))
    case Countdown => None
    case WaitForEvent => None
  }

  /** A command as the camera reads it off the command characteristic. */
  datatype Command = ButtonCommand(code: byte) | JogCommand(code: byte, step: byte)

  /** The camera's reading of a command frame: class byte 1 (two bytes) or 2 (three bytes). */
  function DecodeCommand(frame: seq<byte>): Option<Command>
  {
    if |frame| == 2 && frame[0] == 0x01 then Some(ButtonCommand(frame[1]))
    else if |frame| == 3 && frame[0] == 0x02 then Some(JogCommand(frame[1], frame[2]))
    else None
  }

  /**
   * Only button and jog steps produce a frame, and the camera reads back the
   * step's code, and for a jog the step when pressed and 0 when released.
   */
  lemma ActionFrameDecodes(action: ActionStep)
    ensures ActionFrame(action).Some? <==> action.Button? || action.Jog?
    ensures action.Button? ==> DecodeCommand(ActionFrame(action).value) == Some(ButtonCommand(action.code))
    ensures action.Jog? ==>
      DecodeCommand(ActionFrame(action).value) == Some(JogCommand(action.code, if action.pressed then action.step else 0))
  {
  }

  // ----------------------------------------------------- location format

  /** The data-format characteristic asks for time zone fields when byte 4 has bit 1 set. */
  function SendsTimezone(value: seq<byte>): (r: bool)
    ensures r <==> |value| >= 5 && value[4] as int % 4 >= 2
  {
    |value| >= 5 && MaskSet(value[4], 2)
  }

  // --------------------------------------------------------------- location

  /** A location fix: coordinates already scaled by 10^7 and truncated to `Int`, and its monotonic timestamp. */
  datatype Fix = Fix(latitudeE7: i32, longitudeE7: i32, elapsedRealtimeNanos: int)

  /** The fields of a UTC `Calendar`; `month` is 0-based as `Calendar.MONTH` is. */
  datatype UtcCalendar = UtcCalendar(year: int, month: int, day: int, hour: int, minute: int, second: int)

  /** The default time zone: raw offset and DST savings in ms, and whether DST is in effect now. */
  datatype Zone = Zone(rawOffsetMillis: int, dstSavingsMillis: int, inDaylightTime: bool)

  /** The readings of the platform clocks at one moment. */
  datatype Clock = Clock(elapsedRealtimeNanos: int, utc: UtcCalendar, zone: Zone)

  /** A fix more than 30 s old on the monotonic clock is never sent. */
  const MaxFixAgeNanos: int := 30_000_000_000

  predicate IsStale(fix: Fix, nowNanos: int)
  {
    nowNanos - fix.elapsedRealtimeNanos > MaxFixAgeNanos
  }

  const LocationHeaderTemplate: seq<byte> := [0x00, 0x00, 0x08, 0x02, 0xfc, 0x00, 0x00, 0x00, 0x10, 0x10, 0x10]

  function FrameLength(sendTimezone: bool): nat
  {
    if sendTimezone then 95 else 91
  }

  /** The UTC offset in whole minutes (Kotlin `Int` division, toward zero). */
  function RawOffsetMinutes(zone: Zone): int
  {
    TruncDiv(zone.rawOffsetMillis, 60000)
  }

  /** The daylight-saving offset in whole minutes, 0 outside DST. */
  function DstOffsetMinutes(zone: Zone): int
  {
    if zone.inDaylightTime then TruncDiv(zone.dstSavingsMillis, 60000) else 0
  }

  /** The zero-filled frame with the header template copied in and bytes 1 and 5 patched. */
  function LocationHeaderPart(sendTimezone: bool): (f: seq<byte>)
    ensures |f| == FrameLength(sendTimezone)
  {
    var n := FrameLength(sendTimezone);
    Splice(seq(n, _ => 0), 0, LocationHeaderTemplate)[1 := ToByte(n - 2)][5 := if sendTimezone then 0x03 else 0x00]
  }

  /** `f` with latitude, longitude and the UTC date and time filled in. */
  function LocationFixPart(f: seq<byte>, fix: Fix, utc: UtcCalendar): (r: seq<byte>)
    requires |f| >= 26
    ensures |r| == |f|
  {
    var g := Splice(Splice(Splice(f, 11, BE32(fix.latitudeE7 as int)), 15, BE32(fix.longitudeE7 as int)), 19, BE16(utc.year));
    g[21 := ToByte(utc.month + 1)][22 := ToByte(utc.day)][23 := ToByte(utc.hour)][24 := ToByte(utc.minute)][25 := ToByte(utc.second)]
  }

  /** The location frame as `serializeLocation` fills it, step by step. */
  function LocationFrame(fix: Fix, clock: Clock, sendTimezone: bool): (f: seq<byte>)
    ensures |f| == FrameLength(sendTimezone)
  {
    var g := LocationFixPart(LocationHeaderPart(sendTimezone), fix, clock.utc);
    if sendTimezone then
      Splice(Splice(g, 91, BE16(RawOffsetMinutes(clock.zone))), 93, BE16(DstOffsetMinutes(clock.zone)))
    else
      g
  }

  /** What `serializeLocation` returns: no frame for a stale fix or an unknown data format. */
  function EncodeLocation(fix: Fix, clock: Clock, sendTimezone: Option<bool>): (r: Option<seq<byte>>)
    ensures r.None? <==> IsStale(fix, clock.elapsedRealtimeNanos) || sendTimezone.None?
    ensures r.Some? ==> r.value == LocationFrame(fix, clock, sendTimezone.value)
  {
    if IsStale(fix, clock.elapsedRealtimeNanos) then None
    else if sendTimezone.None? then None
    else Some(LocationFrame(fix, clock, sendTimezone.value))
  }

  /** The header part: the template with length and time-zone flag patched, zeros after byte 10. */
  lemma HeaderPartLayout(sendTimezone: bool)
    ensures var h := LocationHeaderPart(sendTimezone);
      && h[0] == 0x00 && h[1] as int == FrameLength(sendTimezone) - 2 && h[2] == 0x08 && h[3] == 0x02
      && h[4] == 0xfc && h[5] == (if sendTimezone then 0x03 else 0x00)
      && h[6] == 0x00 && h[7] == 0x00 && h[8] == 0x10 && h[9] == 0x10 && h[10] == 0x10
      && forall i :: 11 <= i < |h| ==> h[i] == 0
  {
    var n := FrameLength(sendTimezone);
    var z: seq<byte> := seq(n, _ => 0);
    var t := Splice(z, 0, LocationHeaderTemplate);
    assert forall i :: 11 <= i < n ==> t[i] == z[i] == 0;
  }

  /** The fix part writes bytes 11..25 and nothing else. */
  lemma FixPartLayout(f: seq<byte>, fix: Fix, utc: UtcCalendar)
    requires |f| >= 26
    ensures var g := LocationFixPart(f, fix, utc);
      && (forall i :: 0 <= i < |f| && !(11 <= i < 26) ==> g[i] == f[i])
      && g[11..15] == BE32(fix.latitudeE7 as int)
      && g[15..19] == BE32(fix.longitudeE7 as int)
      && g[19..21] == BE16(utc.year)
      && g[21] == ToByte(utc.month + 1) && g[22] == ToByte(utc.day) && g[23] == ToByte(utc.hour)
      && g[24] == ToByte(utc.minute) && g[25] == ToByte(utc.second)
  {
    var a := Splice(f, 11, BE32(fix.latitudeE7 as int));
    var b := Splice(a, 15, BE32(fix.longitudeE7 as int));
    var c := Splice(b, 19, BE16(utc.year));
    var g := LocationFixPart(f, fix, utc);
    assert forall i :: 0 <= i < 21 ==> g[i] == c[i];
    assert c[11..15] == a[11..15];
    assert c[15..19] == b[15..19];
  }

  /** The time zone part writes the two offsets at 91 and 93 and nothing else. */
  lemma ZonePartLayout(g: seq<byte>, zone: Zone)
    requires |g| == 95
    ensures var f := Splice(Splice(g, 91, BE16(RawOffsetMinutes(zone))), 93, BE16(DstOffsetMinutes(zone)));
      && (forall i :: 0 <= i < 91 ==> f[i] == g[i])
      && f[91..93] == BE16(RawOffsetMinutes(zone))
      && f[93..95] == BE16(DstOffsetMinutes(zone))
  {
  }

  /**
   * The layout of the location frame: 91 or 95 bytes; the header template
   * with the length minus 2 at byte 1 and the time zone flag at byte 5;
   * latitude and longitude at 11 and 15; year at 19; month (1-based), day,
   * hour, minute, second at 21..25; zeros up to 91; then, with time zone,
   * the UTC and DST offsets in minutes at 91 and 93.
   */
  lemma LocationFrameLayout(fix: Fix, clock: Clock, sendTimezone: bool)
    ensures var f := LocationFrame(fix, clock, sendTimezone);
      var n := FrameLength(sendTimezone);
      && |f| == n
      && f[0] == 0x00 && f[1] as int == n - 2 && f[2] == 0x08 && f[3] == 0x02 && f[4] == 0xfc
      && f[5] == (if sendTimezone then 0x03 else 0x00)
      && f[6] == 0x00 && f[7] == 0x00 && f[8] == 0x10 && f[9] == 0x10 && f[10] == 0x10
      && ReadI32BE(f, 11) == fix.latitudeE7
      && ReadI32BE(f, 15) == fix.longitudeE7
      && ReadI16BE(f, 19) == ToShort(clock.utc.year)
      && f[21] == ToByte(clock.utc.month + 1) && f[22] == ToByte(clock.utc.day)
      && f[23] == ToByte(clock.utc.hour) && f[24] == ToByte(clock.utc.minute)
      && f[25] == ToByte(clock.utc.second)
      && (forall i :: 26 <= i < 91 ==> f[i] == 0)
      && (sendTimezone ==>
            ReadI16BE(f, 91) == ToShort(RawOffsetMinutes(clock.zone)) &&
            ReadI16BE(f, 93) == ToShort(DstOffsetMinutes(clock.zone)))
  {
    var h := LocationHeaderPart(sendTimezone);
    HeaderPartLayout(sendTimezone);
    var g := LocationFixPart(h, fix, clock.utc);
    FixPartLayout(h, fix, clock.utc);
    var f := LocationFrame(fix, clock, sendTimezone);
    if sendTimezone {
      ZonePartLayout(g, clock.zone);
      I16RoundTrip(RawOffsetMinutes(clock.zone), f, 91);
      I16RoundTrip(DstOffsetMinutes(clock.zone), f, 93);
    }
    assert forall i :: 0 <= i < 91 ==> f[i] == g[i];
    assert f[11..15] == g[11..15] && f[15..19] == g[15..19] && f[19..21] == g[19..21];
    I32RoundTrip(fix.latitudeE7, f, 11);
    I32RoundTrip(fix.longitudeE7, f, 15);
    I16RoundTrip(clock.utc.year, f, 19);
  }
}
