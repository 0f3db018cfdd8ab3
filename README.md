# Socomec B-10L uplink codec, modelled in Dafny

This project models `decodeUplink`, the uplink decoder of the Socomec B-10L
LoRaWAN pulse and monitoring module, together with its helpers (`read_bytes`,
`u32_to_s32`, `u32_to_s16`, the `is_default_*` sentinel tests) and the
`accepted_profiles` registry. It proves what a decode call produces for every
payload and port.

A call receives the frame's bytes and the LoRaWAN port and produces a `data`
record, a list of warnings and a list of errors, or raises. The model covers
these steps:

- **Port gating.** Port 0 is a void message. Any port other than 0 and 2 is refused, naming the port.
- **Dispatch.** Byte 0 selects the frame type: 0x11 alarm, 2 periodic data, 1 configuration. Any other type gives an empty record.
- **Alarm frames.** Bytes 1 to 4 are the epoch seconds (0 means the clock is not set). Bytes 5 to 8 are the four alarm masks, split into 20 flags.
- **Periodic frames.** The high nibble of byte 1 is the profile and the low nibble its version. Both are looked up in the registry, and the frame must have the registry's exact length. Profiles 1 to 7 each have their own fixed field layout.
- **Common part of periodic frames.** The digital-input word is split into 14 flags and the counter-status word into 4 nibbles. Profile 4 adds a second counter-status word. Then comes the timestamp: one shared epoch word for profiles 1 to 5, and two snapshot clocks, t0 and t-1, for profiles 6 and 7.
- **Configuration frames.** The frame must be 2 bytes long. Byte 1 set to 1 asks the device's date and hour.

Modules, in dependency order:

| module | file | contents |
|---|---|---|
| `Base` | base.dfy | `Byte`, `Option` |
| `Bits` | bits.dfy | Python's non-negative `&`, `>>`, `<<` on integers, and bit extraction |
| `ByteReader` | byte_reader.dfy | `read_bytes` with Python's slice clipping, and its big-endian meaning |
| `Numeric` | numeric.dfy | the signed reinterpretations, and the four sentinel tests with their byte patterns |
| `Registry` | registry.dfy | `accepted_profiles` and its last-match-wins lookups |
| `Layouts` | layouts.dfy | the seven profile layouts: offset, width, sentinel check, signedness, divisor and unit of each field; register offsets; clocks |
| `Diagnostics` | diagnostics.dfy | warnings and errors, with the codec's exact message texts |
| `CommonDecoders` | common_decoders.dfy | input flags, counter nibbles, alarm flags, timestamp resolution |
| `Codec` | codec.dfy | `Decode`, the specification of a call; `DecodeUplink`, the step-by-step decoder proved equal to it |
| `CodecProperties` | codec_properties.dfy | what a call produces, in terms of the payload's bytes |
| `Scenarios` | scenarios.dfy | individual frames and their decoded results |

Three behaviours of the code are kept exactly as written:

- `u32_to_s32` subtracts 2^32 only above 2^31, so the word 0x80000000 decodes as +2^31, not -2^31. `u32_to_s16` does the same at 2^15.
- Profiles 2 and 3 read their sixth value (`IErPInst3`, `IEaNInst3`) from offset 16, not 26. That value overlaps the two load-2 counters, and bytes 26 to 29 are never read.
- Profile 0 passes validation and then raises, because it never binds the digital-input word that the common part reads.

## Model

| member | source | states |
|---|---|---|
| ByteReader.ReadBytesIsBigEndian | Socomec_B10L_codec.py:42-43 | `read_bytes` always returns a value below 256^count. When the slice lies inside the frame, it is the big-endian number of those bytes. |
| ByteReader.ReadBytesLocal | Socomec_B10L_codec.py:42-43 | `read_bytes` depends only on the bytes it covers. |
| ByteReader.FromBytesIsBigEndian | Socomec_B10L_codec.py:43 | `int.from_bytes(..., 'big')` of a byte string is its big-endian value, most significant byte first. |
| ByteReader.FromBytesBound | Socomec_B10L_codec.py:43 | The integer of n bytes is below 256^n. |
| ByteReader.BigEndianZero | Socomec_B10L_codec.py:43 | A big-endian read is zero exactly when all of its bytes are zero. |
| ByteReader.BigEndianHalves | Socomec_B10L_codec.py:43 | A 4-byte read is 2^16 times its high 2-byte half plus its low half. |
| ByteReader.BigEndian4 | Socomec_B10L_codec.py:43 | A 4-byte read, written out byte by byte. |
| Numeric.U32ToS32 | Socomec_B10L_codec.py:45-48 | The result is the input or the input minus 2^32. On a 32-bit word it lies in -2^31+1 .. 2^31. It is negative exactly for inputs strictly between 2^31 and 2^32. |
| Numeric.U32ToS16 | Socomec_B10L_codec.py:50-53 | The result is the input or the input minus 2^16. On a 16-bit word it lies in -2^15+1 .. 2^15. It is negative exactly for inputs strictly between 2^15 and 2^16. |
| Numeric.U32ToS32VersusTwosComplement | Socomec_B10L_codec.py:45-48 | The conversion agrees with two's complement on every 32-bit word except 2^31, which it leaves positive. |
| Numeric.U32ToS16VersusTwosComplement | Socomec_B10L_codec.py:50-53 | The conversion agrees with two's complement on every 16-bit word except 2^15, which it leaves positive. |
| Numeric.SentinelBytes | Socomec_B10L_codec.py:55-65 | Each sentinel test holds exactly on one byte pattern of the frame: FF FF FF FF for u32, 7F FF FF FF for s32, FF FF for u16, 7F FF for s16. |
| Registry.FindVersions | Socomec_B10L_codec.py:154-157 | The profile scan finds nothing exactly when no registry entry has that id. Otherwise it returns the versions of a matching entry. |
| Registry.FindLength | Socomec_B10L_codec.py:161-164 | The version scan finds nothing exactly when no entry has that version. Otherwise it returns the length of a matching entry. |
| Registry.RegistryUnambiguous | Socomec_B10L_codec.py:7-40 | Profile ids are distinct and each profile has exactly one version, so "the last match wins" is never exercised. |
| Registry.LookupMatchesTable | Socomec_B10L_codec.py:7-40 | Profiles 0 to 7 are known. For a known profile, the version lookup gives 50 bytes for version 1 (44 for profile 5) and nothing for any other version. |
| Registry.FindVersionsOfMatch | Socomec_B10L_codec.py:154-157 | In a table with a unique entry for an id, the scan returns that entry's versions. |
| Codec.ScanProfiles | Socomec_B10L_codec.py:154-159 | The loop over `accepted_profiles` (no early exit, last match wins) computes exactly the profile lookup. |
| Codec.ScanVersions | Socomec_B10L_codec.py:161-166 | The loop over a profile's versions computes exactly the version lookup. |
| Codec.NibbleSplit | Socomec_B10L_codec.py:147-149 | `(b1 & 0xF0) >> 4` is b1 / 16 and `b1 & 0x0F` is b1 % 16; the two recompose b1. |
| Codec.DecodeUplink | Socomec_B10L_codec.py:67-577 | The stepwise decoder produces exactly `Decode`: the same record, warnings and errors, or the same crash. |
| Codec.AlarmStage | Socomec_B10L_codec.py:104-144 | The alarm branch produces the alarm decode of the frame, crashing below 9 bytes. |
| Codec.PeriodicStage | Socomec_B10L_codec.py:146-170 | The periodic branch, with its registry loops and validation, produces the periodic decode. |
| Codec.ProfileStage | Socomec_B10L_codec.py:172-184 | The periodic branch after validation: profile 0 crashes, and every other profile is decoded with its layout. |
| Codec.LayoutStage | Socomec_B10L_codec.py:186-557 | The stepwise profile binding and common part produce the layout's decode. The shared timestamp step runs exactly for profiles other than 6 and 7. |
| Codec.ConfigStage | Socomec_B10L_codec.py:559-575 | The configuration branch produces the configuration decode. |
| Layouts.DecodeField | Socomec_B10L_codec.py:301-315 | A present value keeps the field's divisor. Unsigned fields lie below 256^width. A signed s32 value lies in -2^31+1 .. 2^31 and is never the sentinel 2^31-1; an s16 value likewise. |
| Layouts.DecodeFields | Socomec_B10L_codec.py:186-518 | A profile's readings are one per field, in layout order, with the field's key and unit. |
| Layouts.FieldMeaning | Socomec_B10L_codec.py:301-315 | A field is absent exactly when it is sentinel-checked and its bytes are the sentinel pattern. Otherwise it is the reinterpreted big-endian value of its bytes over its divisor. |
| Layouts.LayoutsInBounds | Socomec_B10L_codec.py:7-40 | Every read of every profile 1..7 lies inside the registry's frame length for that profile. |
| Layouts.LayoutsTight | Socomec_B10L_codec.py:359-377 | The layouts reach the end of their frames: profile 5 reads beyond byte 41, and the others beyond byte 49. |
| Layouts.LayoutsWellTyped | Socomec_B10L_codec.py:299-518 | Every sentinel-checked field has the width its test is meant for, and every divisor is positive. |
| Layouts.RegisterOffsets | Socomec_B10L_codec.py:186-518 | The digital-input word is at 38 for profiles 4 and 5, and at 46 otherwise. The counter-status word is at 40 for profile 5 and 48 otherwise; the CT word is at 46, in profile 4 only. Profiles 1 to 5 have one clock at 2; profiles 6 and 7 have clocks at 2 and 24. |
| Layouts.Load3Offsets | Socomec_B10L_codec.py:215-297 | Profiles 2 and 3 read eight plain 4-byte counts, the third at 14, the fourth at 18 and the sixth at 16. None of their reads touches bytes 26 to 29. |
| Diagnostics.NatText | Socomec_B10L_codec.py:158-169 | The decimal text of a number in a message has only digits, at least one, and no leading zero. It has one digit exactly for numbers below 10. |
| Diagnostics.NatTextRoundTrip | Socomec_B10L_codec.py:158-169 | Reading the decimal text back gives the number. |
| CommonDecoders.InputFlags | Socomec_B10L_codec.py:523-540 | The 14 flags `IInputFct01`..`CT4` are bits 0 to 13 of the digital-input word. |
| CommonDecoders.Nibbles | Socomec_B10L_codec.py:542-549 | `Input1Cpt`..`Input4Cpt` are the word's four nibbles, each below 16, and for a 16-bit word they recompose it. |
| CommonDecoders.AlarmFlags | Socomec_B10L_codec.py:110-137 | The 20 alarm flags are bits 0..7 of the logic/combi mask, then bits 0..3 of the analog, system and protection masks. |
| CommonDecoders.ResolveShared | Socomec_B10L_codec.py:139-144 | The timestamp is absent exactly when the epoch word is 0, and then the warning is "Datetime is not set correctly". Otherwise it is that many seconds, with no warning. |
| CommonDecoders.ResolveSnapshot | Socomec_B10L_codec.py:403-409 | The snapshot time is present exactly when it is not the u32 sentinel and not below 20×365 days. The sentinel gives "values are not available"; a low value gives "not set correctly". |
| CodecProperties.PortGating | Socomec_B10L_codec.py:86-99 | A non-hex payload, port 0 and ports other than 0 and 2 each give their fixed outcome. Only port 2 with a hex payload yields any data. |
| CodecProperties.CrashesExactly | Socomec_B10L_codec.py:101-184 | A call raises exactly on port 2 with a hex payload that is empty, or an alarm frame shorter than 9 bytes, or a 50-byte profile-0 version-1 frame. |
| CodecProperties.DiagnosticsShape | Socomec_B10L_codec.py:67-577 | A call has at most one error and at most two warnings. An error excludes warnings and any data other than a configuration frame. "Void message" appears exactly for port 0. |
| CodecProperties.PeriodicDiagnostics | Socomec_B10L_codec.py:146-557 | A periodic frame has at most one error and at most two warnings. A rejected frame has no warnings and no data. |
| CodecProperties.AcceptedWarnings | Socomec_B10L_codec.py:400-557 | An accepted periodic frame has no error and at most two warnings, none of them "Void message". |
| CodecProperties.PeriodicRejections | Socomec_B10L_codec.py:146-170 | Each rejection, in order: a one-byte frame, an unknown profile (> 7), an unknown version (≠ 1), then a wrong length (reporting 44 for profile 5, 50 otherwise). |
| CodecProperties.AcceptedFrames | Socomec_B10L_codec.py:146-184 | A periodic frame decodes without error exactly when it is managed. A managed frame yields its profile id, version 1, its label and one reading per layout field. |
| CodecProperties.FrameIsProfile | Socomec_B10L_codec.py:172-518 | A managed frame is decoded with its profile's layout, which lies inside the frame and is well typed. |
| CodecProperties.LayoutShape | Socomec_B10L_codec.py:172-557 | For any in-bounds layout, the record is built from its fields, registers and clock. Shared clocks give the shared timestamp and warning; dual clocks give both snapshots, warnings in the order t0, t-1. |
| CodecProperties.FrameSplit | Socomec_B10L_codec.py:172-557 | The same decomposition for a managed frame, component by component. |
| CodecProperties.FrameInputs | Socomec_B10L_codec.py:523-540 | A managed frame's input flags come from its layout's digital-input word. |
| CodecProperties.FrameReadings | Socomec_B10L_codec.py:186-518 | A managed frame's readings are its layout's fields decoded in order. |
| CodecProperties.LayoutCounters | Socomec_B10L_codec.py:542-549 | For any in-bounds layout, the counter nibbles come from its counter-status word. The CT nibbles come from that word exactly when the layout has one. |
| CodecProperties.FrameStamps | Socomec_B10L_codec.py:400-557 | Profiles 1 to 5 resolve the shared epoch word at 2. Profiles 6 and 7 resolve t0 at 2 and t-1 at 24, with t0's warning first. |
| CodecProperties.ReadingMeaning | Socomec_B10L_codec.py:186-518 | Each reading of a managed frame has its field's key and unit. It is absent exactly on the sentinel bytes; otherwise it is the reinterpreted big-endian value over a positive divisor. |
| CodecProperties.Load3Overlap | Socomec_B10L_codec.py:219-224 | In profiles 2 and 3 the sixth value is the 4-byte read at 16: the low half of the third value followed by the high half of the fourth. |
| CodecProperties.UnreadBytes | Socomec_B10L_codec.py:215-297 | Two profile-2 or profile-3 frames that differ only in bytes 26 to 29 decode identically. |
| CodecProperties.InputFlagsOfWord | Socomec_B10L_codec.py:523-540 | Flags 0 to 7 are the bits of the word's low byte, and flags 8 to 13 the low six bits of its high byte. |
| CodecProperties.InputRegister | Socomec_B10L_codec.py:523-540 | A managed frame's 14 input flags are the bits of bytes 38 and 39 (profiles 4, 5) or 46 and 47 (others), low byte first. |
| CodecProperties.NibblesOfWord | Socomec_B10L_codec.py:542-549 | The four counter nibbles of a 2-byte word are its second byte's low and high nibbles, then its first byte's. |
| CodecProperties.CounterRegister | Socomec_B10L_codec.py:542-549 | A managed frame's counter nibbles come from bytes 40 and 41 (profile 5) or 48 and 49 (others). |
| CodecProperties.CtCounterRegister | Socomec_B10L_codec.py:317-356 | CT counts are present exactly for profile 4, and they are the nibbles of bytes 46 and 47. |
| CodecProperties.SharedStampOfWord | Socomec_B10L_codec.py:551-557 | The shared timestamp of an epoch word is absent, with one warning, exactly when its four bytes are zero. Otherwise it is their value, with no warning. |
| CodecProperties.SharedClockFrames | Socomec_B10L_codec.py:551-557 | Profiles 1 to 5 have no timestamp exactly when bytes 2 to 5 are zero, and then the one warning "Datetime is not set correctly". Otherwise the timestamp is their value. |
| CodecProperties.SnapshotOfWord | Socomec_B10L_codec.py:403-422 | A snapshot is present exactly when its bytes are not FF FF FF FF and its value is plausible. Otherwise it carries the one warning that its bytes select. |
| CodecProperties.DualClockFrames | Socomec_B10L_codec.py:400-422 | Profiles 6 and 7: t0 from bytes 2 to 5 and t-1 from bytes 24 to 27. There is one warning per missing snapshot, t0's first. |
| CodecProperties.AlarmFrames | Socomec_B10L_codec.py:104-144 | An alarm frame of at least 9 bytes gives no error. Its flags are the bits of bytes 5 to 8, and its timestamp is bytes 1 to 4, absent with one warning exactly when they are zero. |
| CodecProperties.ConfigFrames | Socomec_B10L_codec.py:559-575 | A configuration frame has no errors exactly when it is 2 bytes long, and otherwise only the length error. Its content is present, as the date-and-hour request, exactly for 01 01. |
| CodecProperties.OtherFrames | Socomec_B10L_codec.py:104-577 | Any other message type gives an empty record with no warnings and no errors. |
| Scenarios.AlarmWithUnsetClock | Socomec_B10L_codec.py:104-144 | 11 00000000 01 00 00 00 decodes to `ILogicalAlarmValue1` set, every other flag clear, no timestamp, and "Datetime is not set correctly". |
| Scenarios.ProfileOneFrameTooShort | Socomec_B10L_codec.py:168-170 | A 49-byte profile-1 version-1 frame is rejected for not being 50 bytes long. |
| Scenarios.UnknownProfile | Socomec_B10L_codec.py:154-159 | Byte 1 = 0x92 is rejected as unmanaged profile 9. |
| Scenarios.UnknownVersion | Socomec_B10L_codec.py:161-166 | Byte 1 = 0x13 is rejected as unmanaged version 3 of profile 1. |
| Scenarios.ProfileZeroRaises | Socomec_B10L_codec.py:183-184 | A 50-byte frame starting 02 01 raises. |
| Scenarios.UnknownProfileText | Socomec_B10L_codec.py:158 | The unknown-profile error for profile 9 reads "Periodic data profile 9 is not managed". |
| Scenarios.ConfigurationRequests | Socomec_B10L_codec.py:559-575 | 01 01 gives the date-and-hour request, 01 00 gives no content, and 01 01 01 gives the length error "error, payload length must be 2 bytes". |
| Scenarios.PortsOtherThanTwo | Socomec_B10L_codec.py:92-99 | On port 0 any frame gives "Void message, no data". On port 3 it gives "No frame shoud be sent on port 3". |
| Scenarios.EmptyPayloadRaises | Socomec_B10L_codec.py:101-104 | An empty payload on port 2 raises. |
| Scenarios.ActivePowerWord | Socomec_B10L_codec.py:303 | Profile 4's active power is absent on 7F FF FF FF. Otherwise it is `u32_to_s32` of bytes 6 to 9 over 1000. |
| Scenarios.ActivePowerAtTwoTo31 | Socomec_B10L_codec.py:45-48 | Profile 4 with active power bytes 80 00 00 00 yields +2^31/1000, where two's complement gives -2^31. |
| Scenarios.ActivePowerMinusTwo | Socomec_B10L_codec.py:303 | Profile 4 with active power bytes FF FF FF FE yields -2/1000. |
| Scenarios.ActivePowerSentinel | Socomec_B10L_codec.py:303 | Profile 4 with active power bytes 7F FF FF FF yields no value. |

## Left out

- Hex parsing of the `bytes` string is not modelled. The payload is the parsed byte sequence, and `None` stands for a string that is not hexadecimal, which gives the "Frame should be an hexadecimal string" error.
- Clocks and calendar: `executionTime` (the wall clock), and the conversion of epoch seconds to `datetime` values and `%Y-%m-%d %H:%M:%S` strings (local time for the snapshots, UTC elsewhere). Timestamps are kept as seconds since 2000-01-01.
- Floating-point division: a value is kept as the exact pair (raw, divisor). `Num.Value` gives the real quotient, not the rounded IEEE double the code returns.
- The `codec` metadata block and the echoed `input` record are constants or copies of the input.
- Profile 0 stores the message "Profile 0 (custom) is not managed" under a misspelt key (`warings`) before it raises. That store is not modelled, because the call raises anyway.
- Some errors are assigned as a bare string rather than appended to the list. The model keeps one list of errors, and at most one error is ever produced.
- Values a branch reads but never emits are left out: the pulse meter of profiles 2 and 3, and the type words of profile 7.
- The order of keys in the record, the `_unit` key of profile 4's temperatures (lower-case, and emitted after all three values), and unit keys whose value is `None` are left out. A reading keeps its unit as `Option`.
- Python's exceptions are not modelled by type. Each path that raises is the `Crash` datatype: an empty payload (`msg_type` unbound), an alarm shorter than 9 bytes (index out of range), and profile 0 (the digital-input word unbound).
- The long error messages that splice numbers into text (unknown version, wrong length) are only modelled through `ErrorText`. `Scenarios` proves the literal text for the unknown-profile message only.
