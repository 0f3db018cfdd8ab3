/**
 * The decoders shared by several frame kinds: the digital-input word split
 * into 14 flags, the counter-status words split into four nibbles, the alarm
 * masks split into 20 flags, and the resolution of epoch-seconds timestamps
 * (seconds since 2000-01-01, the device's epoch).
 */
module CommonDecoders {
  import opened Base
  import opened Bits
  import opened Numeric
  import opened Diagnostics

  /** `1 if (x & mask) else 0`, also written `int((x & mask) != 0)`. */
  function Flag(x: nat, mask: nat): nat
  {
    if And(x, mask) != 0 then 1 else 0
  }

  /** The masks of IInputFct01 .. IInputFct10 and CT1 .. CT4, in that order. */
  const InputMasks: seq<nat> := [0x0001, 0x0002, 0x0004, 0x0008, 0x0010, 0x0020, 0x0040,
                                  0x0080, 0x0100, 0x0200, 0x0400, 0x0800, 0x1000, 0x2000]

  /** The digital-input / virtual-monitor decode of `DIaVM`. */
  function InputFlags(w: nat): (r: seq<nat>)
    ensures |r| == 14
    ensures forall k :: 0 <= k < 14 ==> r[k] == Bit(w, k)
  {
    FlagsAreBits(w, InputMasks, 14);
    seq(14, k requires 0 <= k < 14 => Flag(w, InputMasks[k]))
  }

  /** Testing the first n masks of a table of single-bit masks reads bits 0 to n - 1. */
  lemma FlagsAreBits(x: nat, masks: seq<nat>, n: nat)
    requires n <= |masks| && n <= 14
    requires forall k :: 0 <= k < n ==> masks[k] == InputMasks[k]
    ensures forall k :: 0 <= k < n ==> Flag(x, masks[k]) == Bit(x, k)
  {
    forall k | 0 <= k < n
      ensures Flag(x, masks[k]) == Bit(x, k)
    {
      MasksAreBits(k);
      MaskedBit(x, k);
    }
  }

  lemma MasksAreBits(k: nat)
    requires k < 14
    ensures InputMasks[k] == Shl(1, k)
  {
    assert Shl(1, 13) == 0x2000;
  }

  /** `(w & 0x000F)`, `(w & 0x00F0) >> 4`, `(w & 0x0F00) >> 8`, `(w & 0xF000) >> 12`. */
  function Nibbles(w: nat): (r: seq<nat>)
    ensures |r| == 4
    ensures forall j :: 0 <= j < 4 ==> r[j] == Field(w, 4 * j, 4) && r[j] < 16
    ensures w < 0x1_0000 ==> r[0] + 16 * r[1] + 256 * r[2] + 4096 * r[3] == w
  {
    NibbleMasks(w);
    NibblesRecompose(w);
    [And(w, 0x000F), Shr(And(w, 0x00F0), 4), Shr(And(w, 0x0F00), 8), Shr(And(w, 0xF000), 12)]
  }

  lemma NibbleMasks(w: nat)
    ensures And(w, 0x000F) == Field(w, 0, 4) < 16
    ensures Shr(And(w, 0x00F0), 4) == Field(w, 4, 4) < 16
    ensures Shr(And(w, 0x0F00), 8) == Field(w, 8, 4) < 16
    ensures Shr(And(w, 0xF000), 12) == Field(w, 12, 4) < 16
  {
    assert Pow2(4) - 1 == 0xF;
    assert Shl(0xF, 4) == 0x00F0 && Shl(0xF, 8) == 0x0F00 && Shl(0xF, 12) == 0xF000;
    AndLowMask(w, 4);
    MaskedField(w, 4, 4);
    MaskedField(w, 8, 4);
    MaskedField(w, 12, 4);
    LowBound(w, 4);
    LowBound(Shr(w, 4), 4);
    LowBound(Shr(w, 8), 4);
    LowBound(Shr(w, 12), 4);
  }

  lemma NibblesRecompose(w: nat)
    ensures w < 0x1_0000 ==>
      Field(w, 0, 4) + 16 * Field(w, 4, 4) + 256 * Field(w, 8, 4) + 4096 * Field(w, 12, 4) == w
  {
    assert Pow2(4) == 16;
    assert Pow2(4 + 12) == 0x1_0000;
    LowShr(w, 4);
    LowShr(Shr(w, 4), 4);
    LowShr(Shr(w, 8), 4);
    ShrShr(w, 4, 4);
    ShrShr(w, 8, 4);
    if w < 0x1_0000 {
      ShrBound(w, 12, 4);
      LowOfSmall(Shr(w, 12), 4);
    }
  }

  /**
   * The 20 alarm flags: bits 0 to 7 of the logic/combi mask (ILogicalAlarmValue1..4,
   * ICombiAlarmValue1..4), then bits 0 to 3 of the analog, system and protection
   * masks (IAnalogAlarmValue1..4, ISystemAlarmValue1..4, IProtectionAlarmValue1..4).
   */
  function AlarmFlags(logicCombi: Byte, analog: Byte, system: Byte, protection: Byte): (r: seq<nat>)
    ensures |r| == 20
    ensures forall k :: 0 <= k < 8 ==> r[k] == Bit(logicCombi, k)
    ensures forall k :: 0 <= k < 4 ==>
      r[8 + k] == Bit(analog, k) && r[12 + k] == Bit(system, k) && r[16 + k] == Bit(protection, k)
  {
    FlagsAreBits(logicCombi, AlarmMasks, 8);
    FlagsAreBits(analog, AlarmMasks, 4);
    FlagsAreBits(system, AlarmMasks, 4);
    FlagsAreBits(protection, AlarmMasks, 4);
    seq(8, k requires 0 <= k < 8 => Flag(logicCombi, AlarmMasks[k]))
      + seq(4, k requires 0 <= k < 4 => Flag(analog, AlarmMasks[k]))
      + seq(4, k requires 0 <= k < 4 => Flag(system, AlarmMasks[k]))
      + seq(4, k requires 0 <= k < 4 => Flag(protection, AlarmMasks[k]))
  }

  /** The masks 0x01 .. 0x80 the alarm bytes are tested with. */
  const AlarmMasks: seq<nat> := [0x01, 0x02, 0x04, 0x08, 0x10, 0x20, 0x40, 0x80]

  /** A timestamp resolved from an epoch word, with the warnings its resolution appends. */
  datatype Resolved = Resolved(stamp: Option<nat>, warnings: seq<Warning>)

  /**
   * The shared timestamp step (alarm frames, profiles 1 to 5): 0 means "not
   * set", any other value is that many seconds after 2000-01-01.
   */
  function ResolveShared(seconds: nat): (r: Resolved)
    ensures r.stamp.None? <==> seconds == 0
    ensures r.stamp.Some? ==> r.stamp.value == seconds
    ensures r.warnings == [] <==> r.stamp.Some?
    ensures r.warnings != [] ==> r.warnings == [DatetimeNotSet]
  {
    if seconds == 0 then Resolved(None, [DatetimeNotSet]) else Resolved(Some(seconds), [])
  }

  /** 20 years of 365 days, in seconds: snapshot times below it are implausible. */
  const PlausibleFloor: nat := 20 * 365 * 24 * 60 * 60

  /**
   * One snapshot timestamp of a load-curve frame, tested in order: the u32
   * sentinel means "values not available", a time below the plausibility floor
   * means "not set correctly", anything else is that time.
   */
  function ResolveSnapshot(s: Snapshot, seconds: nat): (r: Resolved)
    ensures r.stamp.Some? <==> !IsDefaultU32(seconds) && seconds >= PlausibleFloor
    ensures r.stamp.Some? ==> r.stamp.value == seconds
    ensures r.warnings == [] <==> r.stamp.Some?
    ensures IsDefaultU32(seconds) ==> r.warnings == [ValuesNotAvailable(s)]
    ensures seconds < PlausibleFloor ==> r.warnings == [SnapshotNotSet(s)]
  {
    if IsDefaultU32(seconds) then Resolved(None, [ValuesNotAvailable(s)])
    else if seconds < PlausibleFloor then Resolved(None, [SnapshotNotSet(s)])
    else Resolved(Some(seconds), [])
  }
}
