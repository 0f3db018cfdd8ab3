/**
 * The frame dispatcher `decodeUplink`: port gating, then the message type in
 * byte 0 selects the alarm, periodic-data or configuration decode. `Decode`
 * states what a call produces; `DecodeUplink` builds it step by step as the
 * codec does and is proved to produce exactly that.
 */
module Codec {
  import opened Base
  import opened Bits
  import opened ByteReader
  import opened Numeric
  import opened Registry
  import opened Layouts
  import opened CommonDecoders
  import opened Diagnostics

  /** The timestamps of a periodic-data record. */
  datatype Stamps =
    | NoStamps                                       // none merged yet
    | Shared(timestamp: Option<nat>)                 // `timestamp` (profiles 1 to 5)
    | Dual(t0: Option<nat>, tMinus1: Option<nat>)    // `timestamp_t0`, `timestamp_t-1` (profiles 6, 7)

  /**
   * The `data` record. Each non-empty record also carries its `frame` entry:
   * type 0x11 "Alarm", type 2 "Periodical data" with profileId, profileVersion
   * and profileLabel, or type 1 "Configuration settings".
   */
  datatype Data =
    | NoData                                          // `{}`
    | AlarmData(alarms: seq<nat>, timestamp: Option<nat>)
    | PeriodicData(profile: nat, version: nat, profileLabel: Option<string>,
                   readings: seq<Reading>, ctCounts: Option<seq<nat>>,
                   inputs: Option<seq<nat>>, counters: Option<seq<nat>>, stamps: Stamps)
    | ConfigData(content: Option<string>)             // `Config_settings_content`

  /** Where the codec raises instead of returning. */
  datatype Crash =
    | EmptyPayload    // `msg_type` is never bound (lines 101-104)
    | AlarmTruncated  // an alarm frame shorter than 9 bytes indexes past its end
    | ProfileZero     // profile 0 never binds `Decode_DIaVM`

  datatype Outcome =
    | Decoded(data: Data, warnings: seq<Warning>, errors: seq<Error>)
    | Crashed(reason: Crash)

  const ConfigAskDateTime: string := "B-10L ask the date & hour"

  /** `(b1 & 0xF0) >> 4`: the profile id nibble. */
  function ProfileOf(b1: Byte): nat
  {
    Shr(And(b1, 0xF0), 4)
  }

  /** `b1 & 0x0F`: the profile version nibble. */
  function VersionOf(b1: Byte): nat
  {
    And(b1, 0x0F)
  }

  /** Byte 1 of a periodic frame is its profile id (high nibble) and version (low nibble). */
  lemma NibbleSplit(b1: Byte)
    ensures ProfileOf(b1) == b1 / 16 && VersionOf(b1) == b1 % 16
    ensures 16 * ProfileOf(b1) + VersionOf(b1) == b1
  {
    assert Pow2(4) == 16 && Pow2(4) - 1 == 0x0F && Shl(0x0F, 4) == 0xF0;
    MaskedField(b1, 4, 4);
    AndLowMask(b1, 4);
    LowShr(b1, 4);
    assert Pow2(4 + 4) == 256;
    ShrBound(b1, 4, 4);
    LowOfSmall(Shr(b1, 4), 4);
    LowBound(b1, 4);
  }

  // ----- what a call produces -----

  /** `decodeUplink`: payload None stands for a `bytes` string that is not hexadecimal. */
  function Decode(payload: Option<seq<Byte>>, port: int): Outcome
  {
    if payload.None? then Decoded(NoData, [], [InvalidHex])
    else if port == 0 then Decoded(NoData, [VoidMessage], [])
    else if port != 2 then Decoded(NoData, [], [UnsupportedPort(port)])
    else DecodeFrame(payload.value)
  }

  function DecodeFrame(b: seq<Byte>): Outcome
  {
    if |b| == 0 then Crashed(EmptyPayload)
    else if b[0] == 0x11 then DecodeAlarm(b)
    else if b[0] == 2 then DecodePeriodic(b)
    else if b[0] == 1 then DecodeConfig(b)
    else Decoded(NoData, [], [])
  }

  function DecodeAlarm(b: seq<Byte>): Outcome
  {
    if |b| < 9 then Crashed(AlarmTruncated)
    else
      var t := ResolveShared(ReadBytes(b, 1, 4));
      Decoded(AlarmData(AlarmFlags(b[5], b[6], b[7], b[8]), t.stamp), t.warnings, [])
  }

  function DecodePeriodic(b: seq<Byte>): Outcome
  {
    if |b| < 2 then Decoded(NoData, [], [PeriodicTooShort])
    else
      var p := ProfileOf(b[1]);
      var v := VersionOf(b[1]);
      var versions := FindVersions(AcceptedProfiles, p);
      if versions.None? then Decoded(NoData, [], [UnmanagedProfile(p)])
      else
        var length := FindLength(versions.value, v);
        if length.None? then Decoded(NoData, [], [UnmanagedVersion(v, p)])
        else if |b| != length.value then Decoded(NoData, [], [WrongLength(v, p, length.value)])
        else if p == 0 then Crashed(ProfileZero)
        else
          LookupMatchesTable(p, v);
          DecodeProfile(b, p, v)
  }

  /** A validated frame of a managed profile: its layout, registers and clock(s). */
  function DecodeProfile(b: seq<Byte>, p: nat, v: nat): Outcome
    requires 1 <= p <= 7
  {
    DecodeLayout(b, p, v, LayoutOf(p))
  }

  /** A validated frame decoded with the given layout. */
  function DecodeLayout(b: seq<Byte>, p: nat, v: nat, lay: Layout): Outcome
  {
    var ct := if lay.ctCountersAt.Some? then Some(Nibbles(ReadBytes(b, lay.ctCountersAt.value, 2))) else None;
    var inputs := Some(InputFlags(ReadBytes(b, lay.inputsAt, 2)));
    var counters := Some(Nibbles(ReadBytes(b, lay.countersAt, 2)));
    var readings := DecodeFields(b, lay.fields);
    match lay.clock
    case SharedClock(at) =>
      var t := ResolveShared(ReadBytes(b, at, 4));
      Decoded(PeriodicData(p, v, Some(lay.profileLabel), readings, ct, inputs, counters, Shared(t.stamp)), t.warnings, [])
    case DualClock(at0, at1) =>
      var t0 := ResolveSnapshot(T0, ReadBytes(b, at0, 4));
      var t1 := ResolveSnapshot(TMinus1, ReadBytes(b, at1, 4));
      Decoded(PeriodicData(p, v, Some(lay.profileLabel), readings, ct, inputs, counters, Dual(t0.stamp, t1.stamp)),
              t0.warnings + t1.warnings, [])
  }

  function DecodeConfig(b: seq<Byte>): Outcome
    requires |b| >= 1
  {
    if |b| == 2 then Decoded(ConfigData(if b[1] == 1 then Some(ConfigAskDateTime) else None), [], [])
    else Decoded(ConfigData(None), [], [ConfigLength])
  }

  // ----- the codec, step by step -----

  /**
   * `decodeUplink` as the codec runs it: the record, the warnings and the errors
   * are built up stage by stage, and the frame goes to the stage its type selects.
   */
  method DecodeUplink(payload: Option<seq<Byte>>, port: int) returns (out: Outcome)
    ensures out == Decode(payload, port)
  {
    var data: Data := NoData;
    var warnings: seq<Warning> := [];
    var errors: seq<Error> := [];
    if payload.None? {
      errors := [InvalidHex];
      return Decoded(data, warnings, errors);
    }
    var b := payload.value;
    if port == 0 {
      warnings := warnings + [VoidMessage];
      return Decoded(data, warnings, errors);
    }
    if port != 2 {
      errors := errors + [UnsupportedPort(port)];
      return Decoded(data, warnings, errors);
    }
    if |b| == 0 {
      return Crashed(EmptyPayload);
    }
    var msgType := b[0];
    if msgType == 0x11 {
      out := AlarmStage(b);
    } else if msgType == 2 {
      out := PeriodicStage(b);
    } else if msgType == 1 {
      out := ConfigStage(b);
    } else {
      out := Decoded(data, warnings, errors);
    }
  }

  /** The alarm branch. */
  method AlarmStage(b: seq<Byte>) returns (out: Outcome)
    ensures out == DecodeAlarm(b)
  {
    if |b| < 9 {
      return Crashed(AlarmTruncated);
    }
    var warnings: seq<Warning> := [];
    var nbSecond := ReadBytes(b, 1, 4);
    var data := AlarmData(AlarmFlags(b[5], b[6], b[7], b[8]), None);
    if nbSecond == 0 {
      warnings := warnings + [DatetimeNotSet];
    }
    data := data.(timestamp := if nbSecond == 0 then None else Some(nbSecond));
    return Decoded(data, warnings, []);
  }

  /** The scan of the registry for a profile id: no early exit, the last match wins. */
  method ScanProfiles(profile: nat) returns (versions: Option<seq<VersionEntry>>)
    ensures versions == FindVersions(AcceptedProfiles, profile)
  {
    versions := None;
    for i := 0 to |AcceptedProfiles|
      invariant versions == FindVersions(AcceptedProfiles[..i], profile)
    {
      if AcceptedProfiles[i].id == profile {
        versions := Some(AcceptedProfiles[i].versions);
      }
      assert AcceptedProfiles[..i + 1][..i] == AcceptedProfiles[..i];
    }
    assert AcceptedProfiles[..|AcceptedProfiles|] == AcceptedProfiles;
  }

  /** The scan of a profile's versions: no early exit, the last match wins. */
  method ScanVersions(entries: seq<VersionEntry>, version: nat) returns (frameLength: Option<nat>)
    ensures frameLength == FindLength(entries, version)
  {
    frameLength := None;
    for j := 0 to |entries|
      invariant frameLength == FindLength(entries[..j], version)
    {
      if entries[j].version == version {
        frameLength := Some(entries[j].length);
      }
      assert entries[..j + 1][..j] == entries[..j];
    }
    assert entries[..|entries|] == entries;
  }

  /** The periodic-data branch: validation, then the profile stage, then the common part. */
  method PeriodicStage(b: seq<Byte>) returns (out: Outcome)
    ensures out == DecodePeriodic(b)
  {
    if |b| < 2 {
      return Decoded(NoData, [], [PeriodicTooShort]);
    }
    var profile := ProfileOf(b[1]);
    var version := VersionOf(b[1]);
    var versions := ScanProfiles(profile);
    if versions.None? {
      return Decoded(NoData, [], [UnmanagedProfile(profile)]);
    }
    var frameLength := ScanVersions(versions.value, version);
    if frameLength.None? {
      return Decoded(NoData, [], [UnmanagedVersion(version, profile)]);
    }
    if |b| != frameLength.value {
      return Decoded(NoData, [], [WrongLength(version, profile, frameLength.value)]);
    }
    LookupMatchesTable(profile, version);
    out := ProfileStage(b, profile, version);
  }

  /**
   * A validated periodic frame. Profiles 1 to 7 bind their fields, registers and
   * clock(s) from their layout; profile 0 binds nothing, so the common part
   * that follows reads its unbound digital-input word and raises.
   */
  method ProfileStage(b: seq<Byte>, profile: nat, version: nat) returns (out: Outcome)
    requires profile <= 7
    ensures out == if profile == 0 then Crashed(ProfileZero) else DecodeProfile(b, profile, version)
  {
    if profile == 0 {
      return Crashed(ProfileZero);
    }
    RegisterOffsets(profile);
    out := LayoutStage(b, profile, version, LayoutOf(profile));
  }

  /**
   * The profile stage and the common part for a profile with the given layout:
   * the shared timestamp step runs for every profile but 6 and 7, whose
   * layouts carry the two snapshot clocks instead.
   */
  method LayoutStage(b: seq<Byte>, profile: nat, version: nat, lay: Layout) returns (out: Outcome)
    requires lay.clock.SharedClock? <==> profile != 6 && profile != 7
    ensures out == DecodeLayout(b, profile, version, lay)
  {
    var warnings: seq<Warning> := [];
    var data := PeriodicData(profile, version, Some(lay.profileLabel), [], None, None, None, NoStamps);
    var nbSecond: Option<nat> := None;
    match lay.clock {
      case SharedClock(at) =>
        nbSecond := Some(ReadBytes(b, at, 4));
      case DualClock(at0, at1) =>
        var t0 := ResolveSnapshot(T0, ReadBytes(b, at0, 4));
        warnings := warnings + t0.warnings;
        var t1 := ResolveSnapshot(TMinus1, ReadBytes(b, at1, 4));
        warnings := warnings + t1.warnings;
        data := data.(stamps := Dual(t0.stamp, t1.stamp));
    }
    var inputsWord := ReadBytes(b, lay.inputsAt, 2);
    var countersWord := ReadBytes(b, lay.countersAt, 2);
    var ct := if lay.ctCountersAt.Some? then Some(Nibbles(ReadBytes(b, lay.ctCountersAt.value, 2))) else None;
    data := data.(readings := DecodeFields(b, lay.fields), ctCounts := ct);

    // The common part.
    data := data.(inputs := Some(InputFlags(inputsWord)));
    data := data.(counters := Some(Nibbles(countersWord)));
    if profile != 6 && profile != 7 {
      var seconds := nbSecond.value;
      if seconds == 0 {
        warnings := warnings + [DatetimeNotSet];
      }
      data := data.(stamps := Shared(if seconds == 0 then None else Some(seconds)));
    }
    return Decoded(data, warnings, []);
  }

  /** The configuration branch: the frame entry is set before the length is checked. */
  method ConfigStage(b: seq<Byte>) returns (out: Outcome)
    requires |b| >= 1
    ensures out == DecodeConfig(b)
  {
    var errors: seq<Error> := [];
    var data := ConfigData(None);
    if |b| == 2 {
      if b[1] == 1 {
        data := data.(content := Some(ConfigAskDateTime));
      }
    } else {
      errors := [ConfigLength];
    }
    return Decoded(data, [], errors);
  }
}
