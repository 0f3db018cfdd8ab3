/**
 * Individual frames and what the codec makes of them, down to the text of
 * their warnings and errors.
 */
module Scenarios {
  import opened Base
  import opened Bits
  import opened ByteReader
  import opened Numeric
  import opened Layouts
  import opened Diagnostics
  import opened Codec
  import opened CodecProperties

  /** Bit k of 1 is set exactly for k = 0, and no bit of 0 is set. */
  lemma BitsOfOneAndZero(k: nat)
    ensures Bit(1, k) == if k == 0 then 1 else 0
    ensures Bit(0, k) == 0
  {
    ShrZero(k);
    if k > 0 {
      ShrZero(k - 1);
    }
  }

  /**
   * The alarm frame 11 00000000 01 00 00 00: the epoch word is zero, so no
   * timestamp and "Datetime is not set correctly"; only ILogicalAlarmValue1 is set.
   */
  lemma AlarmWithUnsetClock()
    ensures
      var d := Decode(Some([0x11, 0, 0, 0, 0, 0x01, 0, 0, 0]), 2);
      && d == Decoded(AlarmData([1] + seq(19, k => 0), None), [DatetimeNotSet], [])
      && WarningText(d.warnings[0]) == "Datetime is not set correctly"
  {
    var b: seq<Byte> := [0x11, 0, 0, 0, 0, 0x01, 0, 0, 0];
    AlarmFrames(b);
    var flags := DecodeFrame(b).data.alarms;
    forall k | 0 <= k < 20
      ensures flags[k] == ([1] + seq(19, k => 0))[k]
    {
      if k < 8 {
        BitsOfOneAndZero(k);
      } else if k < 12 {
        BitsOfOneAndZero(k - 8);
      } else if k < 16 {
        BitsOfOneAndZero(k - 12);
      } else {
        BitsOfOneAndZero(k - 16);
      }
    }
    assert flags == [1] + seq(19, k => 0);
  }

  /** A 49-byte frame of profile 1 version 1 is one byte short of the registry's 50. */
  lemma ProfileOneFrameTooShort(b: seq<Byte>)
    requires |b| == 49 && b[0] == 2 && b[1] == 0x11
    ensures Decode(Some(b), 2) == Decoded(NoData, [], [WrongLength(1, 1, 50)])
  {
    PeriodicRejections(b);
  }

  /** Byte 1 = 0x92 names profile 9, which the registry does not know. */
  lemma UnknownProfile(b: seq<Byte>)
    requires |b| >= 2 && b[0] == 2 && b[1] == 0x92
    ensures Decode(Some(b), 2) == Decoded(NoData, [], [UnmanagedProfile(9)])
  {
    PeriodicRejections(b);
  }

  /** Byte 1 = 0x13 names version 3 of profile 1, which the registry does not know. */
  lemma UnknownVersion(b: seq<Byte>)
    requires |b| >= 2 && b[0] == 2 && b[1] == 0x13
    ensures Decode(Some(b), 2) == Decoded(NoData, [], [UnmanagedVersion(3, 1)])
  {
    PeriodicRejections(b);
  }

  /** The message of the unknown-profile rejection above. */
  lemma UnknownProfileText()
    ensures ErrorText(UnmanagedProfile(9)) == "Periodic data profile 9 is not managed"
  {
  }

  /** A 50-byte frame of profile 0 version 1 passes validation, then the codec raises. */
  lemma ProfileZeroRaises(b: seq<Byte>)
    requires |b| == 50 && b[0] == 2 && b[1] == 0x01
    ensures Decode(Some(b), 2) == Crashed(ProfileZero)
  {
    CrashesExactly(Some(b), 2);
    assert DecodeFrame(b) == DecodePeriodic(b);
  }

  /** The configuration frame 01 01 asks for the date and hour; 01 01 01 is too long. */
  lemma ConfigurationRequests()
    ensures Decode(Some([1, 1]), 2) == Decoded(ConfigData(Some("B-10L ask the date & hour")), [], [])
    ensures Decode(Some([1, 0]), 2) == Decoded(ConfigData(None), [], [])
    ensures
      var d := Decode(Some([1, 1, 1]), 2);
      && d == Decoded(ConfigData(None), [], [ConfigLength])
      && ErrorText(d.errors[0]) == "error, payload length must be 2 bytes"
  {
  }

  /** Port 0 is a void message, and port 3 is refused by number, whatever the frame. */
  lemma PortsOtherThanTwo(b: seq<Byte>)
    ensures
      var d := Decode(Some(b), 0);
      d == Decoded(NoData, [VoidMessage], []) && WarningText(d.warnings[0]) == "Void message, no data"
    ensures
      var d := Decode(Some(b), 3);
      d == Decoded(NoData, [], [UnsupportedPort(3)]) && ErrorText(d.errors[0]) == "No frame shoud be sent on port 3"
  {
  }

  /** An empty payload on port 2 raises before any message type is known. */
  lemma EmptyPayloadRaises()
    ensures Decode(Some([]), 2) == Crashed(EmptyPayload)
  {
  }

  /**
   * A profile-4 frame whose active power word (bytes 6 to 9) is 80 00 00 00:
   * the conversion leaves 2^31 positive, so `IPSumAvgInst` is +2147483.648 kW
   * where the two's-complement reading is -2147483.648 kW.
   */
  lemma ActivePowerAtTwoTo31(b: seq<Byte>)
    requires ManagedFrame(b) && b[1] / 16 == 4
    requires b[6] == 0x80 && b[7] == 0 && b[8] == 0 && b[9] == 0
    ensures DecodeFrame(b).Decoded? && DecodeFrame(b).data.PeriodicData? && |DecodeFrame(b).data.readings| == 12
    ensures DecodeFrame(b).data.readings[0].value == Some(Num(TwoTo31, 1000))
    ensures TwosComplement32(TwoTo31) == -TwoTo31
  {
    ActivePowerWord(b);
    BigEndian4(b, 6);
    assert b[6..10][0] == 0x80;
  }

  /** Active power word FF FF FF FE: -0.002 kW. */
  lemma ActivePowerMinusTwo(b: seq<Byte>)
    requires ManagedFrame(b) && b[1] / 16 == 4
    requires b[6] == 0xFF && b[7] == 0xFF && b[8] == 0xFF && b[9] == 0xFE
    ensures DecodeFrame(b).Decoded? && DecodeFrame(b).data.PeriodicData? && |DecodeFrame(b).data.readings| == 12
    ensures DecodeFrame(b).data.readings[0].value == Some(Num(-2, 1000))
  {
    ActivePowerWord(b);
    BigEndian4(b, 6);
    assert b[6..10][0] == 0xFF;
  }

  /** Active power word 7F FF FF FF is the sentinel: no value. */
  lemma ActivePowerSentinel(b: seq<Byte>)
    requires ManagedFrame(b) && b[1] / 16 == 4
    requires b[6] == 0x7F && b[7] == 0xFF && b[8] == 0xFF && b[9] == 0xFF
    ensures DecodeFrame(b).Decoded? && DecodeFrame(b).data.PeriodicData? && |DecodeFrame(b).data.readings| == 12
    ensures DecodeFrame(b).data.readings[0].value.None?
  {
    ActivePowerWord(b);
    assert b[6..10] == [0x7F, 0xFF, 0xFF, 0xFF];
  }

  /** The active power reading of a profile-4 frame, from its bytes 6 to 9. */
  lemma ActivePowerWord(b: seq<Byte>)
    requires ManagedFrame(b) && b[1] / 16 == 4
    ensures DecodeFrame(b).Decoded? && DecodeFrame(b).data.PeriodicData? && |DecodeFrame(b).data.readings| == 12
    ensures DecodeFrame(b).data.readings[0].value ==
      if b[6..10] == [0x7F, 0xFF, 0xFF, 0xFF] then None else Some(Num(U32ToS32(BigEndian(b, 6, 4)), 1000))
  {
    ProfileFourFirstField();
    assert LayoutOfFrame(b) == LayoutOf(4);
    ReadingMeaning(b, 0);
  }

  /** The first field of profile 4 is the signed, sentinel-checked 4-byte active power over 1000. */
  lemma ProfileFourFirstField()
    ensures |LayoutOf(4).fields| == 12
    ensures LayoutOf(4).fields[0] == FieldSpec("IPSumAvgInst", 6, 4, CheckedS32, 1000, Some("kW"))
  {
  }
}
