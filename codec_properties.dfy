/**
 * What `decodeUplink` promises, stated on the decode function `Codec.Decode`
 * (which the codec's step-by-step method is proved to compute): the gating
 * by port, the crash paths, the validation of periodic frames against the
 * registry, the meaning of every field and register of an accepted frame in
 * terms of its bytes, and the timestamp warnings.
 */
module CodecProperties {
  import opened Base
  import opened Bits
  import opened ByteReader
  import opened Numeric
  import opened Registry
  import opened Layouts
  import opened CommonDecoders
  import opened Diagnostics
  import opened Codec

  /**
   * A periodic-data frame the codec accepts: byte 1 names a managed profile
   * (1 to 7) in version 1, and the frame has the registry's length.
   */
  predicate ManagedFrame(b: seq<Byte>)
  {
    && |b| >= 2 && b[0] == 2
    && 1 <= b[1] / 16 <= 7 && b[1] % 16 == 1
    && ExpectedLength(b[1] / 16, 1) == Some(|b|)
  }

  /** The layout of an accepted frame's profile. */
  function LayoutOfFrame(b: seq<Byte>): Layout
    requires ManagedFrame(b)
  {
    LayoutOf(b[1] / 16)
  }

  // ----- port gating and crashes -----

  /**
   * Only frames on port 2 are decoded: a payload that is not hexadecimal is one
   * error, port 0 is one warning, any other port is one error naming the port.
   */
  lemma PortGating(payload: Option<seq<Byte>>, port: int)
    ensures payload.None? ==> Decode(payload, port) == Decoded(NoData, [], [InvalidHex])
    ensures payload.Some? && port == 0 ==> Decode(payload, port) == Decoded(NoData, [VoidMessage], [])
    ensures payload.Some? && port != 0 && port != 2 ==>
      Decode(payload, port) == Decoded(NoData, [], [UnsupportedPort(port)])
    ensures Decode(payload, port).Decoded? && Decode(payload, port).data != NoData ==> payload.Some? && port == 2
  {
  }

  /**
   * The codec raises exactly on an empty payload, on an alarm frame shorter
   * than 9 bytes, and on a 50-byte periodic frame of profile 0 version 1
   * (byte 1 = 0x01), which passes validation and reaches the common part with
   * its digital-input word unbound.
   */
  lemma CrashesExactly(payload: Option<seq<Byte>>, port: int)
    ensures Decode(payload, port).Crashed? <==>
      && payload.Some? && port == 2
      && (|payload.value| == 0
          || (payload.value[0] == 0x11 && |payload.value| < 9)
          || (payload.value[0] == 2 && |payload.value| == 50 && payload.value[1] == 0x01))
  {
    if payload.Some? && port == 2 && |payload.value| >= 2 && payload.value[0] == 2 {
      var b := payload.value;
      NibbleSplit(b[1]);
      LookupMatchesTable(b[1] / 16, b[1] % 16);
      if b[1] / 16 == 0 && b[1] % 16 == 1 {
        assert b[1] == 0x01;
      }
    }
  }

  /**
   * The diagnostics of any call: at most one error; an error comes with no
   * warning and with an empty record unless the frame is a configuration
   * frame; at most two warnings; the void-message warning exactly on port 0.
   */
  lemma DiagnosticsShape(payload: Option<seq<Byte>>, port: int)
    ensures Decode(payload, port).Decoded? ==> |Decode(payload, port).errors| <= 1
    ensures Decode(payload, port).Decoded? && Decode(payload, port).errors != [] ==>
      Decode(payload, port).warnings == [] && (Decode(payload, port).data.NoData? || Decode(payload, port).data.ConfigData?)
    ensures Decode(payload, port).Decoded? ==> |Decode(payload, port).warnings| <= 2
    ensures (Decode(payload, port).Decoded? && VoidMessage in Decode(payload, port).warnings) <==>
      payload.Some? && port == 0
  {
    if payload.Some? && port == 2 && |payload.value| >= 1 && payload.value[0] == 2 {
      PeriodicDiagnostics(payload.value);
    }
  }

  /** The diagnostics of a periodic frame: as above, and never the void-message warning. */
  lemma PeriodicDiagnostics(b: seq<Byte>)
    requires |b| >= 1 && b[0] == 2
    ensures DecodeFrame(b).Decoded? ==>
      && |DecodeFrame(b).errors| <= 1
      && (DecodeFrame(b).errors != [] ==> DecodeFrame(b).warnings == [] && DecodeFrame(b).data.NoData?)
      && |DecodeFrame(b).warnings| <= 2
      && VoidMessage !in DecodeFrame(b).warnings
  {
    PeriodicRejections(b);
    if |b| >= 2 {
      var p := b[1] / 16;
      NibbleSplit(b[1]);
      LookupMatchesTable(p, b[1] % 16);
      if ManagedFrame(b) {
        AcceptedWarnings(b);
      } else if p == 0 && b[1] % 16 == 1 && |b| == 50 {
        assert DecodeFrame(b).Crashed?;
      }
    }
  }

  /** An accepted frame has no error and at most one warning per clock. */
  lemma AcceptedWarnings(b: seq<Byte>)
    requires ManagedFrame(b)
    ensures DecodeFrame(b).Decoded? && DecodeFrame(b).errors == []
    ensures |DecodeFrame(b).warnings| <= 2 && VoidMessage !in DecodeFrame(b).warnings
  {
    FrameStamps(b);
    if b[1] / 16 <= 5 {
      assert |ResolveShared(BigEndian(b, 2, 4)).warnings| <= 1;
    } else {
      var t0 := ResolveSnapshot(T0, BigEndian(b, 2, 4));
      var t1 := ResolveSnapshot(TMinus1, BigEndian(b, 24, 4));
      assert |t0.warnings| <= 1 && |t1.warnings| <= 1;
      assert VoidMessage !in t0.warnings + t1.warnings;
    }
  }


  // ----- periodic frames: validation -----

  /**
   * The validation of a periodic frame, in order: at least two bytes, then a
   * profile id (high nibble of byte 1) the registry knows, then a version (low
   * nibble) it knows for that profile, then the registry's exact length. Each
   * failure yields an empty record and the one error that names it.
   */
  lemma PeriodicRejections(b: seq<Byte>)
    requires |b| >= 1 && b[0] == 2
    ensures |b| < 2 ==> DecodeFrame(b) == Decoded(NoData, [], [PeriodicTooShort])
    ensures |b| >= 2 && b[1] / 16 > 7 ==>
      DecodeFrame(b) == Decoded(NoData, [], [UnmanagedProfile(b[1] / 16)])
    ensures |b| >= 2 && b[1] / 16 <= 7 && b[1] % 16 != 1 ==>
      DecodeFrame(b) == Decoded(NoData, [], [UnmanagedVersion(b[1] % 16, b[1] / 16)])
    ensures |b| >= 2 && b[1] / 16 <= 7 && b[1] % 16 == 1 && ExpectedLength(b[1] / 16, 1) != Some(|b|) ==>
      DecodeFrame(b) == Decoded(NoData, [], [WrongLength(1, b[1] / 16, if b[1] / 16 == 5 then 44 else 50)])
  {
    if |b| >= 2 {
      NibbleSplit(b[1]);
      LookupMatchesTable(b[1] / 16, b[1] % 16);
    }
  }

  /**
   * A periodic frame decodes without error exactly when it is accepted, and an
   * accepted frame yields the record of its profile: id, version 1, label, and
   * one reading per field of the profile's layout.
   */
  lemma {:induction false} AcceptedFrames(b: seq<Byte>)
    requires |b| >= 1 && b[0] == 2
    ensures (DecodeFrame(b).Decoded? && DecodeFrame(b).errors == []) <==> ManagedFrame(b)
    ensures ManagedFrame(b) ==>
      && DecodeFrame(b).Decoded? && DecodeFrame(b).data.PeriodicData?
      && DecodeFrame(b).data.profile == b[1] / 16
      && DecodeFrame(b).data.version == 1
      && DecodeFrame(b).data.profileLabel == Some(LayoutOfFrame(b).profileLabel)
      && |DecodeFrame(b).data.readings| == |LayoutOfFrame(b).fields|
  {
    PeriodicRejections(b);
    if |b| >= 2 {
      NibbleSplit(b[1]);
      LookupMatchesTable(b[1] / 16, b[1] % 16);
      if ManagedFrame(b) {
        FrameSplit(b);
      }
    }
  }

  /** An accepted frame passes validation and is decoded with its profile's layout. */
  lemma FrameIsProfile(b: seq<Byte>)
    requires ManagedFrame(b)
    ensures DecodeFrame(b) == DecodeLayout(b, b[1] / 16, 1, LayoutOfFrame(b))
    ensures ReadsWithin(LayoutOfFrame(b), |b|) && WellTyped(LayoutOfFrame(b))
  {
    NibbleSplit(b[1]);
    LookupMatchesTable(b[1] / 16, 1);
    LayoutsInBounds(b[1] / 16);
    LayoutsWellTyped(b[1] / 16);
  }

  /**
   * A frame decoded with a layout whose reads all lie inside it, component by
   * component: each read is the big-endian value of the bytes it covers.
   */
  lemma LayoutShape(b: seq<Byte>, p: nat, v: nat, lay: Layout)
    requires ReadsWithin(lay, |b|)
    ensures
      var d := DecodeLayout(b, p, v, lay);
      && d.Decoded? && d.errors == [] && d.data.PeriodicData?
      && d.data.profile == p && d.data.version == v && d.data.profileLabel == Some(lay.profileLabel)
      && d.data.readings == DecodeFields(b, lay.fields)
      && d.data.inputs == Some(InputFlags(BigEndian(b, lay.inputsAt, 2)))
      && d.data.counters == Some(Nibbles(BigEndian(b, lay.countersAt, 2)))
      && (lay.ctCountersAt.Some? ==> d.data.ctCounts == Some(Nibbles(BigEndian(b, lay.ctCountersAt.value, 2))))
      && (lay.ctCountersAt.None? ==> d.data.ctCounts.None?)
      && |d.warnings| <= 2
      && (lay.clock.SharedClock? ==>
            var t := ResolveShared(BigEndian(b, lay.clock.at, 4));
            d.data.stamps == Shared(t.stamp) && d.warnings == t.warnings)
      && (lay.clock.DualClock? ==>
            var t0 := ResolveSnapshot(T0, BigEndian(b, lay.clock.t0At, 4));
            var t1 := ResolveSnapshot(TMinus1, BigEndian(b, lay.clock.t1At, 4));
            d.data.stamps == Dual(t0.stamp, t1.stamp) && d.warnings == t0.warnings + t1.warnings)
  {
    ReadBytesIsBigEndian(b, lay.inputsAt, 2);
    ReadBytesIsBigEndian(b, lay.countersAt, 2);
    if lay.ctCountersAt.Some? {
      ReadBytesIsBigEndian(b, lay.ctCountersAt.value, 2);
    }
    match lay.clock
    case SharedClock(at) =>
      ReadBytesIsBigEndian(b, at, 4);
    case DualClock(at0, at1) =>
      ReadBytesIsBigEndian(b, at0, 4);
      ReadBytesIsBigEndian(b, at1, 4);
  }

  /** How an accepted frame is decoded, component by component. */
  lemma FrameSplit(b: seq<Byte>)
    requires ManagedFrame(b)
    ensures ReadsWithin(LayoutOfFrame(b), |b|) && WellTyped(LayoutOfFrame(b))
    ensures
      var lay := LayoutOfFrame(b);
      var d := DecodeFrame(b);
      && d.Decoded? && d.errors == [] && d.data.PeriodicData?
      && d.data.profile == b[1] / 16 && d.data.version == 1 && d.data.profileLabel == Some(lay.profileLabel)
      && d.data.readings == DecodeFields(b, lay.fields)
      && d.data.inputs == Some(InputFlags(BigEndian(b, lay.inputsAt, 2)))
      && d.data.counters == Some(Nibbles(BigEndian(b, lay.countersAt, 2)))
      && (lay.ctCountersAt.Some? ==> d.data.ctCounts == Some(Nibbles(BigEndian(b, lay.ctCountersAt.value, 2))))
      && (lay.ctCountersAt.None? ==> d.data.ctCounts.None?)
      && |d.warnings| <= 2
      && (lay.clock.SharedClock? ==>
            var t := ResolveShared(BigEndian(b, lay.clock.at, 4));
            d.data.stamps == Shared(t.stamp) && d.warnings == t.warnings)
      && (lay.clock.DualClock? ==>
            var t0 := ResolveSnapshot(T0, BigEndian(b, lay.clock.t0At, 4));
            var t1 := ResolveSnapshot(TMinus1, BigEndian(b, lay.clock.t1At, 4));
            d.data.stamps == Dual(t0.stamp, t1.stamp) && d.warnings == t0.warnings + t1.warnings)
  {
    FrameIsProfile(b);
    LayoutShape(b, b[1] / 16, 1, LayoutOfFrame(b));
  }

  /** The digital-input flags of an accepted frame are those of its layout's word. */
  lemma FrameInputs(b: seq<Byte>)
    requires ManagedFrame(b)
    ensures DecodeFrame(b).Decoded? && DecodeFrame(b).data.PeriodicData?
    ensures LayoutOfFrame(b).inputsAt + 2 <= |b|
    ensures DecodeFrame(b).data.inputs == Some(InputFlags(BigEndian(b, LayoutOfFrame(b).inputsAt, 2)))
  {
    FrameSplit(b);
  }

  /** The readings of an accepted frame are its layout's fields, decoded in order. */
  lemma FrameReadings(b: seq<Byte>)
    requires ManagedFrame(b)
    ensures DecodeFrame(b).Decoded? && DecodeFrame(b).data.PeriodicData?
    ensures DecodeFrame(b).data.readings == DecodeFields(b, LayoutOfFrame(b).fields)
    ensures ReadsWithin(LayoutOfFrame(b), |b|) && WellTyped(LayoutOfFrame(b))
  {
    FrameSplit(b);
  }

  /** The counter-status words a layout decodes, for any layout whose reads lie inside the frame. */
  lemma LayoutCounters(b: seq<Byte>, p: nat, v: nat, lay: Layout)
    requires ReadsWithin(lay, |b|)
    ensures DecodeLayout(b, p, v, lay).Decoded? && DecodeLayout(b, p, v, lay).data.PeriodicData?
    ensures lay.countersAt + 2 <= |b|
    ensures DecodeLayout(b, p, v, lay).data.counters == Some(Nibbles(BigEndian(b, lay.countersAt, 2)))
    ensures lay.ctCountersAt.Some? ==>
      lay.ctCountersAt.value + 2 <= |b| &&
      DecodeLayout(b, p, v, lay).data.ctCounts == Some(Nibbles(BigEndian(b, lay.ctCountersAt.value, 2)))
    ensures lay.ctCountersAt.None? ==> DecodeLayout(b, p, v, lay).data.ctCounts.None?
  {
    ReadBytesIsBigEndian(b, lay.countersAt, 2);
    if lay.ctCountersAt.Some? {
      ReadBytesIsBigEndian(b, lay.ctCountersAt.value, 2);
    }
  }

  /** The timestamps and warnings of an accepted frame are those of its layout's clock(s). */
  lemma FrameStamps(b: seq<Byte>)
    requires ManagedFrame(b)
    ensures DecodeFrame(b).Decoded? && DecodeFrame(b).data.PeriodicData? && DecodeFrame(b).errors == []
    ensures b[1] / 16 <= 5 ==>
      var t := ResolveShared(BigEndian(b, 2, 4));
      DecodeFrame(b).data.stamps == Shared(t.stamp) && DecodeFrame(b).warnings == t.warnings
    ensures b[1] / 16 >= 6 ==>
      var t0 := ResolveSnapshot(T0, BigEndian(b, 2, 4));
      var t1 := ResolveSnapshot(TMinus1, BigEndian(b, 24, 4));
      DecodeFrame(b).data.stamps == Dual(t0.stamp, t1.stamp) && DecodeFrame(b).warnings == t0.warnings + t1.warnings
  {
    FrameSplit(b);
    RegisterOffsets(b[1] / 16);
  }

  // ----- periodic frames: fields -----

  /**
   * Field k of an accepted frame: it carries its layout's key and unit; it is
   * absent exactly when it is sentinel-checked and its bytes are the
   * sentinel; otherwise its value is the big-endian number of its bytes,
   * reinterpreted as signed where the profile says so, over a positive divisor.
   */
  lemma ReadingMeaning(b: seq<Byte>, k: nat)
    requires ManagedFrame(b) && k < |LayoutOfFrame(b).fields|
    ensures DecodeFrame(b).Decoded? && DecodeFrame(b).data.PeriodicData?
    ensures |DecodeFrame(b).data.readings| == |LayoutOfFrame(b).fields|
    ensures
      var f := LayoutOfFrame(b).fields[k];
      var r := DecodeFrame(b).data.readings[k];
      && f.offset + f.width <= |b|
      && r.name == f.name && r.unit == f.unit
      && (r.value.None? <==> f.encoding != Plain && b[f.offset..f.offset + f.width] == SentinelPattern(f.encoding))
      && (r.value.Some? ==>
            r.value.value == Num(Reinterpret(f.encoding, BigEndian(b, f.offset, f.width)), f.divisor) && f.divisor >= 1)
  {
    FrameReadings(b);
    var f := LayoutOfFrame(b).fields[k];
    FieldMeaning(b, f);
  }

  /**
   * Profiles 2 and 3 read their load-3 second counter (`IErPInst3`,
   * `IEaNInst3`) at offset 16, not 26: its value is the low two-byte half of
   * the load-2 first counter (bytes 14 to 17) followed by the high half of the
   * load-2 second counter (bytes 18 to 21).
   */
  lemma Load3Overlap(b: seq<Byte>)
    requires ManagedFrame(b) && (b[1] / 16 == 2 || b[1] / 16 == 3)
    ensures DecodeFrame(b).Decoded? && DecodeFrame(b).data.PeriodicData?
    ensures |DecodeFrame(b).data.readings| == 8
    ensures DecodeFrame(b).data.readings[2].value == Some(Num(BigEndian(b, 14, 4), 1))
    ensures DecodeFrame(b).data.readings[3].value == Some(Num(BigEndian(b, 18, 4), 1))
    ensures DecodeFrame(b).data.readings[5].value == Some(Num(BigEndian(b, 16, 4), 1))
    ensures BigEndian(b, 14, 4) == 0x1_0000 * BigEndian(b, 14, 2) + BigEndian(b, 16, 2)
    ensures BigEndian(b, 18, 4) == 0x1_0000 * BigEndian(b, 18, 2) + BigEndian(b, 20, 2)
    ensures BigEndian(b, 16, 4) == 0x1_0000 * BigEndian(b, 16, 2) + BigEndian(b, 18, 2)
  {
    var fs := LayoutOfFrame(b).fields;
    Load3Offsets(b[1] / 16);
    assert fs[2].offset == 14 && fs[3].offset == 18 && fs[5].offset == 16;
    FrameReadings(b);
    PlainReadings(b, fs);
    BigEndianHalves(b, 14);
    BigEndianHalves(b, 16);
    BigEndianHalves(b, 18);
  }

  /** A field read plain, with divisor 1, is the big-endian value of its bytes. */
  lemma PlainReadings(b: seq<Byte>, fs: seq<FieldSpec>)
    requires forall k :: 0 <= k < |fs| ==> fs[k].offset + fs[k].width <= |b| && fs[k].encoding == Plain && fs[k].divisor == 1
    ensures forall k :: 0 <= k < |fs| ==>
      DecodeFields(b, fs)[k].value == Some(Num(BigEndian(b, fs[k].offset, fs[k].width), 1))
  {
    forall k | 0 <= k < |fs|
      ensures DecodeFields(b, fs)[k].value == Some(Num(BigEndian(b, fs[k].offset, fs[k].width), 1))
    {
      ReadBytesIsBigEndian(b, fs[k].offset, fs[k].width);
    }
  }

  /** A layout's decode depends only on the bytes its reads cover. */
  lemma LayoutLocal(b: seq<Byte>, c: seq<Byte>, p: nat, v: nat, lay: Layout, lo: nat, hi: nat)
    requires ReadsWithin(lay, |b|) && ReadsAvoid(lay, lo, hi)
    requires |c| == |b| && forall i :: 0 <= i < |b| && !(lo <= i < hi) ==> b[i] == c[i]
    ensures DecodeLayout(b, p, v, lay) == DecodeLayout(c, p, v, lay)
  {
    forall k | 0 <= k < |lay.fields|
      ensures DecodeField(b, lay.fields[k]) == DecodeField(c, lay.fields[k])
    {
      var f := lay.fields[k];
      Agree(b, c, f.offset, f.width, lo, hi);
    }
    assert DecodeFields(b, lay.fields) == DecodeFields(c, lay.fields);
    Agree(b, c, lay.inputsAt, 2, lo, hi);
    Agree(b, c, lay.countersAt, 2, lo, hi);
    if lay.ctCountersAt.Some? {
      Agree(b, c, lay.ctCountersAt.value, 2, lo, hi);
    }
    match lay.clock
    case SharedClock(at) =>
      Agree(b, c, at, 4, lo, hi);
    case DualClock(at0, at1) =>
      Agree(b, c, at0, 4, lo, hi);
      Agree(b, c, at1, 4, lo, hi);
  }

  /** Two frames that agree outside lo to hi - 1 read alike wherever a read avoids that range. */
  lemma Agree(b: seq<Byte>, c: seq<Byte>, i: nat, n: nat, lo: nat, hi: nat)
    requires i + n <= |b| == |c| && (i + n <= lo || hi <= i)
    requires forall j :: 0 <= j < |b| && !(lo <= j < hi) ==> b[j] == c[j]
    ensures ReadBytes(b, i, n) == ReadBytes(c, i, n)
  {
    assert b[i..i + n] == c[i..i + n];
    ReadBytesLocal(b, c, i, n);
  }

  /**
   * Because of that offset, bytes 26 to 29 of a profile 2 or 3 frame are read
   * by nothing: two frames that differ only there decode alike.
   */
  lemma UnreadBytes(b: seq<Byte>, c: seq<Byte>)
    requires ManagedFrame(b) && (b[1] / 16 == 2 || b[1] / 16 == 3)
    requires |c| == |b| && forall i :: 0 <= i < |b| && !(26 <= i < 30) ==> b[i] == c[i]
    ensures DecodeFrame(b) == DecodeFrame(c)
  {
    assert c[0] == b[0] && c[1] == b[1];
    Load3Offsets(b[1] / 16);
    FrameIsProfile(b);
    FrameIsProfile(c);
    LayoutLocal(b, c, b[1] / 16, 1, LayoutOfFrame(b), 26, 30);
  }

  // ----- periodic frames: registers -----

  /**
   * The 14 digital-input flags of a two-byte word: flags 0 to 7 are bits 0 to 7
   * of its low byte, flags 8 to 13 bits 0 to 5 of its high byte.
   */
  lemma InputFlagsOfWord(b: seq<Byte>, at: nat)
    requires at + 2 <= |b|
    ensures
      var flags := InputFlags(BigEndian(b, at, 2));
      && (forall k :: 0 <= k < 8 ==> flags[k] == Bit(b[at + 1], k))
      && (forall k :: 8 <= k < 14 ==> flags[k] == Bit(b[at], k - 8))
  {
    BigEndian2(b, at);
    assert Pow2(8) == 0x100;
    forall k | 0 <= k < 14
      ensures Bit(BigEndian(b, at, 2), k) == if k < 8 then Bit(b[at + 1], k) else Bit(b[at], k - 8)
    {
      BitOfSum(b[at], b[at + 1], 8, k);
    }
  }

  /**
   * The 14 digital-input flags of an accepted frame (IInputFct01 .. IInputFct10,
   * CT1 .. CT4) are the bits of its digital-input word, at offset 38 for
   * profiles 4 and 5 and 46 for the others.
   */
  lemma InputRegister(b: seq<Byte>)
    requires ManagedFrame(b)
    ensures DecodeFrame(b).Decoded? && DecodeFrame(b).data.PeriodicData?
    ensures
      var at := if b[1] / 16 == 4 || b[1] / 16 == 5 then 38 else 46;
      var flags := DecodeFrame(b).data.inputs;
      && at + 2 <= |b|
      && flags.Some? && |flags.value| == 14
      && (forall k :: 0 <= k < 8 ==> flags.value[k] == Bit(b[at + 1], k))
      && (forall k :: 8 <= k < 14 ==> flags.value[k] == Bit(b[at], k - 8))
  {
    var at := if b[1] / 16 == 4 || b[1] / 16 == 5 then 38 else 46;
    RegisterOffsets(b[1] / 16);
    assert LayoutOfFrame(b).inputsAt == at;
    FrameInputs(b);
    InputFlagsOfWord(b, at);
  }

  /** The four nibbles of the two-byte word at `at`, low nibble of the low byte first. */
  lemma NibblesOfWord(b: seq<Byte>, at: nat)
    requires at + 2 <= |b|
    ensures Nibbles(BigEndian(b, at, 2)) ==
      [b[at + 1] % 16, b[at + 1] / 16, b[at] % 16, b[at] / 16]
  {
    BigEndian2(b, at);
    var r := Nibbles(BigEndian(b, at, 2));
    DigitPair(r[1], r[0], 16, b[at + 1]);
    DigitPair(r[3], r[2], 16, b[at]);
    DigitPair(r[3] * 16 + r[2], r[1] * 16 + r[0], 0x100, BigEndian(b, at, 2));
  }

  /** Uniqueness of a two-digit representation: low digit and high part of x in base m. */
  lemma DigitPair(high: nat, low: nat, m: nat, x: nat)
    requires (m == 16 || m == 0x100) && low < m
    ensures high * m + low == x <==> low == x % m && high == x / m
  {
    if m == 16 {
      assert high * 16 + low == x <==> low == x % 16 && high == x / 16;
    } else {
      assert high * 0x100 + low == x <==> low == x % 0x100 && high == x / 0x100;
    }
  }



  /**
   * The counter-status word (Input1Cpt .. Input4Cpt) of an accepted frame, at
   * offset 40 for profile 5 and 48 for the others, is its four nibbles.
   */
  lemma CounterRegister(b: seq<Byte>)
    requires ManagedFrame(b)
    ensures DecodeFrame(b).Decoded? && DecodeFrame(b).data.PeriodicData?
    ensures
      var at := if b[1] / 16 == 5 then 40 else 48;
      && at + 2 <= |b|
      && DecodeFrame(b).data.counters == Some([b[at + 1] % 16, b[at + 1] / 16, b[at] % 16, b[at] / 16])
  {
    var at := if b[1] / 16 == 5 then 40 else 48;
    RegisterOffsets(b[1] / 16);
    assert LayoutOfFrame(b).countersAt == at;
    FrameIsProfile(b);
    LayoutCounters(b, b[1] / 16, 1, LayoutOfFrame(b));
    NibblesOfWord(b, at);
  }

  /**
   * Only profile 4 carries the second counter-status word (CT1Cpt .. CT4Cpt),
   * at offset 46, and it is that word's four nibbles.
   */
  lemma CtCounterRegister(b: seq<Byte>)
    requires ManagedFrame(b)
    ensures DecodeFrame(b).Decoded? && DecodeFrame(b).data.PeriodicData?
    ensures DecodeFrame(b).data.ctCounts.Some? <==> b[1] / 16 == 4
    ensures b[1] / 16 == 4 ==>
      DecodeFrame(b).data.ctCounts == Some([b[47] % 16, b[47] / 16, b[46] % 16, b[46] / 16])
  {
    FrameIsProfile(b);
    RegisterOffsets(b[1] / 16);
    LayoutCounters(b, b[1] / 16, 1, LayoutOfFrame(b));
    if b[1] / 16 == 4 {
      NibblesOfWord(b, 46);
    }
  }

  // ----- timestamps -----

  /**
   * The shared timestamp step on the epoch word at `at`: absent, with the one
   * warning "Datetime is not set correctly", exactly when its four bytes are
   * zero; otherwise their big-endian value, in seconds since 2000, with no warning.
   */
  lemma SharedStampOfWord(b: seq<Byte>, at: nat)
    requires at + 4 <= |b|
    ensures
      var t := ResolveShared(ReadBytes(b, at, 4));
      && (t.stamp.None? <==> b[at] == 0 && b[at + 1] == 0 && b[at + 2] == 0 && b[at + 3] == 0)
      && (t.stamp.Some? ==> t.stamp.value == BigEndian(b, at, 4))
      && (t.warnings == [] <==> t.stamp.Some?)
      && (t.warnings != [] ==> t.warnings == [DatetimeNotSet])
  {
    ReadBytesIsBigEndian(b, at, 4);
    BigEndianZero(b, at, 4);
  }

  /** Profiles 1 to 5 carry one clock, the epoch word at bytes 2 to 5. */
  lemma SharedClockFrames(b: seq<Byte>)
    requires ManagedFrame(b) && b[1] / 16 <= 5
    ensures DecodeFrame(b).Decoded? && DecodeFrame(b).data.PeriodicData?
    ensures
      var d := DecodeFrame(b);
      && d.data.stamps.Shared?
      && (d.data.stamps.timestamp.None? <==> b[2] == 0 && b[3] == 0 && b[4] == 0 && b[5] == 0)
      && (d.data.stamps.timestamp.Some? ==> d.data.stamps.timestamp.value == BigEndian(b, 2, 4))
      && (d.warnings == [] <==> d.data.stamps.timestamp.Some?)
      && (d.warnings != [] ==> d.warnings == [DatetimeNotSet])
  {
    FrameStamps(b);
    SharedStampOfWord(b, 2);
    ReadBytesIsBigEndian(b, 2, 4);
  }

  /**
   * One snapshot clock on the epoch word at `at`: present exactly when it is
   * neither the u32 sentinel (bytes FF FF FF FF) nor below the plausibility
   * floor; when absent, one warning saying which of the two tests it failed.
   */
  lemma SnapshotOfWord(s: Snapshot, b: seq<Byte>, at: nat)
    requires at + 4 <= |b|
    ensures
      var t := ResolveSnapshot(s, BigEndian(b, at, 4));
      && (t.stamp.Some? <==> b[at..at + 4] != [0xFF, 0xFF, 0xFF, 0xFF] && BigEndian(b, at, 4) >= PlausibleFloor)
      && (t.stamp.Some? ==> t.stamp.value == BigEndian(b, at, 4))
      && (t.stamp.Some? ==> t.warnings == [])
      && (t.stamp.None? ==>
            t.warnings == [if b[at..at + 4] == [0xFF, 0xFF, 0xFF, 0xFF] then ValuesNotAvailable(s) else SnapshotNotSet(s)])
  {
    ReadBytesIsBigEndian(b, at, 4);
    SentinelBytes(b, at);
  }

  /**
   * Profiles 6 and 7 carry two snapshot clocks, t0 at bytes 2 to 5 and t-1 at
   * bytes 24 to 27; each absent one adds its warning, t0's before t-1's.
   */
  lemma DualClockFrames(b: seq<Byte>)
    requires ManagedFrame(b) && b[1] / 16 >= 6
    ensures DecodeFrame(b).Decoded? && DecodeFrame(b).data.PeriodicData?
    ensures DecodeFrame(b).data.stamps.Dual?
    ensures
      var d := DecodeFrame(b);
      var t0 := d.data.stamps.t0;
      var t1 := d.data.stamps.tMinus1;
      && (t0.Some? <==> b[2..6] != [0xFF, 0xFF, 0xFF, 0xFF] && BigEndian(b, 2, 4) >= PlausibleFloor)
      && (t0.Some? ==> t0.value == BigEndian(b, 2, 4))
      && (t1.Some? <==> b[24..28] != [0xFF, 0xFF, 0xFF, 0xFF] && BigEndian(b, 24, 4) >= PlausibleFloor)
      && (t1.Some? ==> t1.value == BigEndian(b, 24, 4))
      && |d.warnings| == (if t0.None? then 1 else 0) + (if t1.None? then 1 else 0)
      && (t0.None? ==>
            d.warnings[0] == if b[2..6] == [0xFF, 0xFF, 0xFF, 0xFF] then ValuesNotAvailable(T0) else SnapshotNotSet(T0))
      && (t1.None? ==>
            d.warnings[|d.warnings| - 1] ==
            if b[24..28] == [0xFF, 0xFF, 0xFF, 0xFF] then ValuesNotAvailable(TMinus1) else SnapshotNotSet(TMinus1))
  {
    FrameStamps(b);
    SnapshotOfWord(T0, b, 2);
    SnapshotOfWord(TMinus1, b, 24);
  }

  // ----- alarm and configuration frames -----

  /**
   * An alarm frame of at least 9 bytes: 20 flags, the bits of bytes 5 to 8
   * (all eight of byte 5, the low four of the others), and the shared clock at
   * bytes 1 to 4, absent with one warning exactly when those bytes are zero.
   */
  lemma AlarmFrames(b: seq<Byte>)
    requires |b| >= 9 && b[0] == 0x11
    ensures DecodeFrame(b).Decoded? && DecodeFrame(b).errors == [] && DecodeFrame(b).data.AlarmData?
    ensures
      var d := DecodeFrame(b);
      var flags := d.data.alarms;
      && |flags| == 20
      && (forall k :: 0 <= k < 8 ==> flags[k] == Bit(b[5], k))
      && (forall k :: 0 <= k < 4 ==>
            flags[8 + k] == Bit(b[6], k) && flags[12 + k] == Bit(b[7], k) && flags[16 + k] == Bit(b[8], k))
      && (d.data.timestamp.None? <==> b[1] == 0 && b[2] == 0 && b[3] == 0 && b[4] == 0)
      && (d.data.timestamp.Some? ==> d.data.timestamp.value == BigEndian(b, 1, 4))
      && (d.warnings == [] <==> d.data.timestamp.Some?)
      && (d.warnings != [] ==> d.warnings == [DatetimeNotSet])
  {
    SharedStampOfWord(b, 1);
  }

  /**
   * A configuration frame always yields a configuration record; it asks for
   * the date and hour exactly when it is the two bytes 01 01, and it is in
   * error exactly when it is not two bytes long.
   */
  lemma ConfigFrames(b: seq<Byte>)
    requires |b| >= 1 && b[0] == 1
    ensures DecodeFrame(b).Decoded? && DecodeFrame(b).data.ConfigData? && DecodeFrame(b).warnings == []
    ensures DecodeFrame(b).data.content.Some? <==> b == [1, 1]
    ensures DecodeFrame(b).data.content.Some? ==> DecodeFrame(b).data.content.value == ConfigAskDateTime
    ensures DecodeFrame(b).errors == [] <==> |b| == 2
    ensures DecodeFrame(b).errors != [] ==> DecodeFrame(b).errors == [ConfigLength]
  {
    if |b| == 2 && b[1] == 1 {
      assert b == [1, 1];
    }
  }

  /** Any other message type decodes to an empty record with no diagnostics. */
  lemma OtherFrames(b: seq<Byte>)
    requires |b| >= 1 && b[0] != 0x11 && b[0] != 2 && b[0] != 1
    ensures DecodeFrame(b) == Decoded(NoData, [], [])
  {
  }
}
