/**
 * The warnings and errors a decode call accumulates, and the exact text the
 * codec gives each of them.
 */
module Diagnostics {

  /** The two snapshots of a load-curve frame (profiles 6 and 7). */
  datatype Snapshot = T0 | TMinus1

  datatype Warning =
    | VoidMessage                            // a frame on port 0
    | DatetimeNotSet                         // epoch seconds 0 (alarm, profiles 1 to 5)
    | ValuesNotAvailable(snapshot: Snapshot) // snapshot epoch word is the u32 sentinel
    | SnapshotNotSet(snapshot: Snapshot)     // snapshot epoch below the plausibility floor

  datatype Error =
    | InvalidHex                                          // the payload is not a hex string
    | UnsupportedPort(port: int)                          // any port but 0 and 2
    | PeriodicTooShort                                    // a periodic frame of one byte
    | UnmanagedProfile(profile: nat)                      // profile id not in the registry
    | UnmanagedVersion(version: nat, profile: nat)        // version not in the registry
    | WrongLength(version: nat, profile: nat, length: nat) // not the registry's exact length
    | ConfigLength                                        // a configuration frame not 2 bytes long

  /** The decimal digit of d. */
  function Digit(d: nat): (c: char)
    requires d < 10
    ensures '0' <= c <= '9'
  {
    ('0' as int + d) as char
  }

  /** The value of a string of decimal digits, most significant first. */
  function DecimalValue(s: string): nat
    requires forall k :: 0 <= k < |s| ==> '0' <= s[k] <= '9'
  {
    if s == [] then 0 else 10 * DecimalValue(s[..|s| - 1]) + (s[|s| - 1] as int - '0' as int)
  }

  /** Python's `str(n)` for a natural number: decimal, no leading zero. */
  function NatText(n: nat): (s: string)
    ensures |s| >= 1
    ensures forall k :: 0 <= k < |s| ==> '0' <= s[k] <= '9'
    ensures |s| > 1 ==> s[0] != '0'
    ensures n < 10 <==> |s| == 1
  {
    if n < 10 then [Digit(n)] else NatText(n / 10) + [Digit(n % 10)]
  }

  /** Python's `str(n)` for an integer. */
  function IntText(n: int): string
  {
    if n < 0 then "-" + NatText(-n) else NatText(n)
  }

  function SnapshotText(s: Snapshot): string
  {
    match s
    case T0 => "t0"
    case TMinus1 => "t-1"
  }

  function WarningText(w: Warning): string
  {
    match w
    case VoidMessage => "Void message, no data"
    case DatetimeNotSet => "Datetime is not set correctly"
    case ValuesNotAvailable(s) => SnapshotText(s) + " values are not available"
    case SnapshotNotSet(s) => "Datetime " + SnapshotText(s) + " is not set correctly"
  }

  function ErrorText(e: Error): string
  {
    match e
    case InvalidHex => "Frame should be an hexadecimal string"
    case UnsupportedPort(port) => "No frame shoud be sent on port " + IntText(port)
    case PeriodicTooShort => "Data periodic frame should be larger than 1 byte"
    case UnmanagedProfile(p) => "Periodic data profile " + NatText(p) + " is not managed"
    case UnmanagedVersion(v, p) =>
      "Version " + NatText(v) + " of periodic data profile " + NatText(p) + " is not managed"
    case WrongLength(v, p, len) =>
      "Frame in version " + NatText(v) + " of periodic data profile " + NatText(p)
      + " should be " + NatText(len) + " bytes long"
    case ConfigLength => "error, payload length must be 2 bytes"
  }

  /** Reading back the decimal text of n gives n. */
  lemma {:induction false} NatTextRoundTrip(n: nat)
    ensures DecimalValue(NatText(n)) == n
  {
    if n >= 10 {
      NatTextRoundTrip(n / 10);
      var s := NatText(n);
      assert s[..|s| - 1] == NatText(n / 10);
    }
  }
}
