/**
 * The profile field layouts of periodic-data frames (profiles 1 to 7): for
 * each profile, the fixed byte offset, width, sentinel check, signed
 * reinterpretation, divisor and unit of every field it emits, the offsets of
 * its bitfield registers and of its clock(s); and the decoding of one field.
 */
module Layouts {
  import opened Base
  import opened ByteReader
  import opened Numeric
  import Registry

  /** How the raw unsigned read of a field is checked and reinterpreted. */
  datatype Encoding =
    | Plain       // no sentinel check, unsigned
    | CheckedU16  // `is_default_u16`, unsigned
    | CheckedS16  // `is_default_s16`, then `u32_to_s16`
    | CheckedU32  // `is_default_u32`, unsigned
    | CheckedS32  // `is_default_s32`, then `u32_to_s32`

  /**
   * A decoded quantity, exactly raw / divisor. Divisor 1 stands for a field the
   * source emits as the integer itself, without division.
   */
  datatype Num = Num(raw: int, divisor: nat) {
    function Value(): real
      requires divisor > 0
    {
      raw as real / divisor as real
    }
  }

  /** One field of a layout; `unit` is the value of its unit key (None: null or no unit key). */
  datatype FieldSpec = FieldSpec(name: string, offset: nat, width: nat, encoding: Encoding, divisor: nat, unit: Option<string>)

  /** A decoded field: its key, its value (None: the sentinel, `None` in the source) and its unit. */
  datatype Reading = Reading(name: string, value: Option<Num>, unit: Option<string>)

  /**
   * Where a profile's clock lives: one `NbSecond` word for the shared timestamp
   * step (profiles 1 to 5), or the t0 and t-1 snapshot words (profiles 6 and 7).
   */
  datatype Clock = SharedClock(at: nat) | DualClock(t0At: nat, t1At: nat)

  /**
   * A profile layout: its label (`profileLabel`), its fields in emission order, the offset of the
   * second counter-status word (profile 4 only), of the digital-input word
   * (`DIaVM`), of the counter-status word, and its clock.
   */
  datatype Layout = Layout(profileLabel: string, fields: seq<FieldSpec>, ctCountersAt: Option<nat>, inputsAt: nat, countersAt: nat, clock: Clock)

  /** The width in bytes a sentinel-checked encoding is applied to. */
  function CheckedWidth(e: Encoding): nat
    requires e != Plain
  {
    match e
    case CheckedU16 => 2
    case CheckedS16 => 2
    case CheckedU32 => 4
    case CheckedS32 => 4
  }

  /** The sentinel test of an encoding, on the raw unsigned read. */
  predicate IsSentinel(e: Encoding, raw: nat)
  {
    match e
    case Plain => false
    case CheckedU16 => IsDefaultU16(raw)
    case CheckedS16 => IsDefaultS16(raw)
    case CheckedU32 => IsDefaultU32(raw)
    case CheckedS32 => IsDefaultS32(raw)
  }

  /** The signed reinterpretation of an encoding, if any. */
  function Reinterpret(e: Encoding, raw: nat): int
  {
    match e
    case CheckedS16 => U32ToS16(raw)
    case CheckedS32 => U32ToS32(raw)
    case _ => raw
  }

  /**
   * One field: the sentinel test on the raw unsigned read comes first, then the
   * signed reinterpretation, then the division.
   */
  function DecodeField(b: seq<Byte>, f: FieldSpec): (v: Option<Num>)
    ensures v.Some? ==> v.value.divisor == f.divisor
    ensures v.Some? && f.encoding in {Plain, CheckedU16, CheckedU32} ==> 0 <= v.value.raw < Pow256(f.width)
    ensures v.Some? && f.encoding == CheckedS32 && f.width == 4 ==>
      -TwoTo31 < v.value.raw <= TwoTo31 && v.value.raw != TwoTo31 - 1
    ensures v.Some? && f.encoding == CheckedS16 && f.width == 2 ==>
      -TwoTo15 < v.value.raw <= TwoTo15 && v.value.raw != TwoTo15 - 1
  {
    var raw := ReadBytes(b, f.offset, f.width);
    ReadBytesIsBigEndian(b, f.offset, f.width);
    if IsSentinel(f.encoding, raw) then None
    else Some(Num(Reinterpret(f.encoding, raw), f.divisor))
  }

  /** All fields of a layout, in order. */
  function DecodeFields(b: seq<Byte>, fs: seq<FieldSpec>): (r: seq<Reading>)
    ensures |r| == |fs|
    ensures forall k :: 0 <= k < |fs| ==> r[k].name == fs[k].name && r[k].unit == fs[k].unit
  {
    seq(|fs|, k requires 0 <= k < |fs| => Reading(fs[k].name, DecodeField(b, fs[k]), fs[k].unit))
  }

  /** The byte pattern of an encoding's sentinel. */
  function SentinelPattern(e: Encoding): seq<Byte>
    requires e != Plain
  {
    match e
    case CheckedU16 => [0xFF, 0xFF]
    case CheckedS16 => [0x7F, 0xFF]
    case CheckedU32 => [0xFF, 0xFF, 0xFF, 0xFF]
    case CheckedS32 => [0x7F, 0xFF, 0xFF, 0xFF]
  }

  /**
   * What a field means in terms of the frame's bytes: it is absent exactly when
   * it is sentinel-checked and its bytes are the sentinel pattern; otherwise it
   * is the big-endian value of its bytes, reinterpreted, over its divisor.
   */
  lemma FieldMeaning(b: seq<Byte>, f: FieldSpec)
    requires f.offset + f.width <= |b|
    requires f.encoding != Plain ==> f.width == CheckedWidth(f.encoding)
    ensures DecodeField(b, f).None? <==>
      f.encoding != Plain && b[f.offset..f.offset + f.width] == SentinelPattern(f.encoding)
    ensures DecodeField(b, f).Some? ==>
      DecodeField(b, f).value == Num(Reinterpret(f.encoding, BigEndian(b, f.offset, f.width)), f.divisor)
  {
    ReadBytesIsBigEndian(b, f.offset, f.width);
    SentinelBytes(b, f.offset);
  }

  // ----- the layouts -----

  function Energy(name: string, offset: nat, width: nat, divisor: nat, unit: string): FieldSpec
  {
    FieldSpec(name, offset, width, Plain, divisor, Some(unit))
  }

  function Checked(name: string, offset: nat, encoding: Encoding, divisor: nat, unit: Option<string>): FieldSpec
    requires encoding != Plain
  {
    FieldSpec(name, offset, CheckedWidth(encoding), encoding, divisor, unit)
  }

  /** Profile 1, single-load energies: five 8-byte counters over 10000. */
  const Profile1: Layout := Layout(
    "1 - Single Load energies (consumption/production)",
    [ Energy("IEaPInst", 6, 8, 10000, "kWh"),
      Energy("IEaNInst", 14, 8, 10000, "kWh"),
      Energy("IErPInst", 22, 8, 10000, "kVar"),
      Energy("IErNInst", 30, 8, 10000, "kVar"),
      Energy("ITotalMeter", 38, 8, 10000, "pulse") ],
    None, 46, 48, SharedClock(2))

  /**
   * Profile 2, multi-load energies (consumption): 4-byte raw counts. The load-3
   * reactive energy is read at offset 16, not 26, as in the source.
   */
  const Profile2: Layout := Layout(
    "2- Multi-load & Energies (consumption)",
    [ Energy("IEaPInst1", 6, 4, 1, "kWh"),
      Energy("IErPInst1", 10, 4, 1, "kVar"),
      Energy("IEaPInst2", 14, 4, 1, "kWh"),
      Energy("IErPInst2", 18, 4, 1, "kVar"),
      Energy("IEaPInst3", 22, 4, 1, "kWh"),
      Energy("IErPInst3", 16, 4, 1, "kVar"),
      Energy("IEaPInst4", 30, 4, 1, "kWh"),
      Energy("IErPInst4", 34, 4, 1, "kVar") ],
    None, 46, 48, SharedClock(2))

  /**
   * Profile 3, multi-load energies (consumption/production): 4-byte raw counts.
   * The load-3 negative energy is read at offset 16, not 26, as in the source.
   */
  const Profile3: Layout := Layout(
    "3 - Multi-load energies (consumption/production)",
    [ Energy("IEaPInst1", 6, 4, 1, "kWh"),
      Energy("IEaNInst1", 10, 4, 1, "kWh"),
      Energy("IEaPInst2", 14, 4, 1, "kWh"),
      Energy("IEaNInst2", 18, 4, 1, "kWh"),
      Energy("IEaPInst3", 22, 4, 1, "kWh"),
      Energy("IEaNInst3", 16, 4, 1, "kWh"),
      Energy("IEaPInst4", 30, 4, 1, "kWh"),
      Energy("IEaNInst4", 34, 4, 1, "kWh") ],
    None, 46, 48, SharedClock(2))

  /** Profile 4, single-load monitoring. */
  const Profile4: Layout := Layout(
    "4 - Single load Monitoring",
    [ Checked("IPSumAvgInst", 6, CheckedS32, 1000, Some("kW")),
      Checked("IQSumAvgInst", 10, CheckedS32, 1000, Some("kVar")),
      Checked("ISSumAvgInst", 14, CheckedU32, 1000, Some("kVar")),
      Checked("IpFSumAvgInst", 18, CheckedS16, 1, None),
      FieldSpec("IpFSumTypeAvg", 20, 2, Plain, 1, None),
      Checked("II1AvgInst", 22, CheckedU32, 1000, Some("A")),
      Checked("II2AvgInst", 26, CheckedU32, 1000, Some("A")),
      Checked("II3AvgInst", 30, CheckedU32, 1000, Some("A")),
      Checked("IFreqAvgInst", 34, CheckedU32, 1000, Some("Hz")),
      Checked("IInstTemperature1", 40, CheckedS16, 100, Some("°C")),
      Checked("IInstTemperature2", 42, CheckedS16, 100, Some("°C")),
      Checked("IInstTemperature3", 44, CheckedS16, 100, Some("°C")) ],
    Some(46), 38, 48, SharedClock(2))

  /** Profile 5, multi-load monitoring: eight signed averages over 1000. */
  const Profile5: Layout := Layout(
    "5 - Multi-load monitoring",
    [ Checked("IPSumAvgInst1", 6, CheckedS32, 1000, Some("kW")),
      Checked("IQSumAvgInst1", 10, CheckedS32, 1000, Some("kVar")),
      Checked("IPSumAvgInst2", 14, CheckedS32, 1000, Some("kW")),
      Checked("IQSumAvgInst2", 18, CheckedS32, 1000, Some("kVar")),
      Checked("IPSumAvgInst3", 22, CheckedS32, 1000, Some("kW")),
      Checked("IQSumAvgInst3", 26, CheckedS32, 1000, Some("kVar")),
      Checked("IPSumAvgInst4", 30, CheckedS32, 1000, Some("kW")),
      Checked("IQSumAvgInst4", 34, CheckedS32, 1000, Some("kVar")) ],
    None, 38, 40, SharedClock(2))

  /** Profile 6, single-load load curves: snapshots t0 (from offset 2) and t-1 (from offset 24). */
  const Profile6: Layout := Layout(
    "6 - Single load - Load curves",
    [ Checked("ILastP10ActivePower", 6, CheckedU32, 1000, Some("kW")),
      Checked("ILastP10ActivePowerNeg", 10, CheckedU32, 1000, Some("kW")),
      Checked("ILastP10ReactivePower", 14, CheckedU32, 1000, Some("kVar")),
      Checked("ILastP10ReactivePowerNeg", 18, CheckedU32, 1000, Some("kVar")),
      Checked("Type_P10", 22, CheckedU16, 1, None),
      Checked("ILastP10ActivePower_t-1", 28, CheckedU32, 1000, Some("kW")),
      Checked("ILastP10ActivePowerNeg_t-1", 32, CheckedU32, 1000, Some("kW")),
      Checked("ILastP10ReactivePower_t-1", 36, CheckedU32, 1000, Some("kVar")),
      Checked("ILastP10ReactivePowerNeg_t-1", 40, CheckedU32, 1000, Some("kVar")),
      Checked("Type_P10_t-1", 44, CheckedU16, 1, None) ],
    None, 46, 48, DualClock(2, 24))

  /**
   * Profile 7, multi-load load curves: four active powers per snapshot. The
   * type words at offsets 22 and 44 are read by the source but never emitted.
   */
  const Profile7: Layout := Layout(
    "7 - Multi load - Load curves",
    [ Checked("ILastP10ActivePower_Load1", 6, CheckedU32, 1000, Some("kW")),
      Checked("ILastP10ActivePower_Load2", 10, CheckedU32, 1000, Some("kW")),
      Checked("ILastP10ActivePower_Load3", 14, CheckedU32, 1000, Some("kW")),
      Checked("ILastP10ActivePower_Load4", 18, CheckedU32, 1000, Some("kW")),
      Checked("ILastP10ActivePower_Load1_t-1", 28, CheckedU32, 1000, Some("kW")),
      Checked("ILastP10ActivePower_Load2_t-1", 32, CheckedU32, 1000, Some("kW")),
      Checked("ILastP10ActivePower_Load3_t-1", 36, CheckedU32, 1000, Some("kW")),
      Checked("ILastP10ActivePower_Load4_t-1", 40, CheckedU32, 1000, Some("kW")) ],
    None, 46, 48, DualClock(2, 24))

  /** The layout of a managed profile. */
  function LayoutOf(profile: nat): Layout
    requires 1 <= profile <= 7
  {
    match profile
    case 1 => Profile1
    case 2 => Profile2
    case 3 => Profile3
    case 4 => Profile4
    case 5 => Profile5
    case 6 => Profile6
    case _ => Profile7
  }

  /** Every read a layout makes ends within a frame of the given length. */
  ghost predicate ReadsWithin(lay: Layout, length: nat)
  {
    && (forall k :: 0 <= k < |lay.fields| ==> lay.fields[k].offset + lay.fields[k].width <= length)
    && (lay.ctCountersAt.Some? ==> lay.ctCountersAt.value + 2 <= length)
    && lay.inputsAt + 2 <= length
    && lay.countersAt + 2 <= length
    && match lay.clock
       case SharedClock(at) => at + 4 <= length
       case DualClock(t0, t1) => t0 + 4 <= length && t1 + 4 <= length
  }

  /** Every field's encoding is applied to the width it is meant for, and every divisor is positive. */
  ghost predicate WellTyped(lay: Layout)
  {
    forall k :: 0 <= k < |lay.fields| ==>
      && lay.fields[k].divisor >= 1
      && (lay.fields[k].encoding != Plain ==> lay.fields[k].width == CheckedWidth(lay.fields[k].encoding))
  }

  /**
   * For a frame of the exact length the registry fixes, every fixed-offset read
   * of profiles 1 to 7 is in bounds.
   */
  lemma LayoutsInBounds(profile: nat)
    requires 1 <= profile <= 7
    ensures Registry.ExpectedLength(profile, 1).Some?
    ensures ReadsWithin(LayoutOf(profile), Registry.ExpectedLength(profile, 1).value)
  {
    match profile
    case 1 => assert ReadsWithin(Profile1, 50);
    case 2 => assert ReadsWithin(Profile2, 50);
    case 3 => assert ReadsWithin(Profile3, 50);
    case 4 => assert ReadsWithin(Profile4, 50);
    case 5 => assert ReadsWithin(Profile5, 44);
    case 6 => assert ReadsWithin(Profile6, 50);
    case 7 => assert ReadsWithin(Profile7, 50);
  }

  /**
   * The registry's lengths are tight: the farthest reads end at byte 50 (48 + 2)
   * for profiles 1 to 4, 6 and 7 and at byte 42 (40 + 2) of 44 for profile 5.
   */
  lemma LayoutsTight(profile: nat)
    requires 1 <= profile <= 7
    ensures profile == 5 ==> !ReadsWithin(LayoutOf(profile), 41)
    ensures profile != 5 ==> !ReadsWithin(LayoutOf(profile), 49)
  {
  }

  /** Every layout applies each check to the width it is meant for, with a positive divisor. */
  lemma LayoutsWellTyped(profile: nat)
    requires 1 <= profile <= 7
    ensures WellTyped(LayoutOf(profile))
  {
  }

  /**
   * Where each managed profile keeps its registers and clock(s): the digital
   * inputs at 38 (profiles 4, 5) or 46, the counter status at 40 (profile 5) or
   * 48, the second counter status at 46 (profile 4 only), the shared clock at 2
   * (profiles 1 to 5) or the snapshot clocks at 2 and 24 (profiles 6, 7).
   */
  lemma RegisterOffsets(p: nat)
    requires 1 <= p <= 7
    ensures LayoutOf(p).inputsAt == if p == 4 || p == 5 then 38 else 46
    ensures LayoutOf(p).countersAt == if p == 5 then 40 else 48
    ensures LayoutOf(p).ctCountersAt == if p == 4 then Some(46) else None
    ensures LayoutOf(p).clock == if p <= 5 then SharedClock(2) else DualClock(2, 24)
  {
  }

  /** No read of the layout touches bytes lo to hi - 1. */
  ghost predicate ReadsAvoid(lay: Layout, lo: nat, hi: nat)
  {
    && (forall k :: 0 <= k < |lay.fields| ==> lay.fields[k].offset + lay.fields[k].width <= lo || hi <= lay.fields[k].offset)
    && (lay.ctCountersAt.Some? ==> lay.ctCountersAt.value + 2 <= lo || hi <= lay.ctCountersAt.value)
    && (lay.inputsAt + 2 <= lo || hi <= lay.inputsAt)
    && (lay.countersAt + 2 <= lo || hi <= lay.countersAt)
    && match lay.clock
       case SharedClock(at) => at + 4 <= lo || hi <= at
       case DualClock(t0, t1) => (t0 + 4 <= lo || hi <= t0) && (t1 + 4 <= lo || hi <= t1)
  }

  /**
   * Profiles 2 and 3 read the load-3 second counter (field 5) at offset 16,
   * overlapping the two load-2 counters (fields 2 and 3, at 14 and 18), so no
   * read of theirs touches bytes 26 to 29.
   */
  lemma Load3Offsets(p: nat)
    requires p == 2 || p == 3
    ensures |LayoutOf(p).fields| == 8
    ensures forall k :: 0 <= k < 8 ==>
      LayoutOf(p).fields[k].width == 4 && LayoutOf(p).fields[k].encoding == Plain && LayoutOf(p).fields[k].divisor == 1
    ensures LayoutOf(p).fields[2].offset == 14 && LayoutOf(p).fields[3].offset == 18
    ensures LayoutOf(p).fields[5].offset == 16
    ensures ReadsAvoid(LayoutOf(p), 26, 30)
  {
  }
}
