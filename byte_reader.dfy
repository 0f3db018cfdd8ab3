/**
 * The byte reader (`read_bytes`): a big-endian unsigned integer read from a
 * frame, with Python's slice semantics for reads that run past the end.
 */
module ByteReader {
  import opened Base

  /** 256 to the power n: one more than the largest n-byte unsigned value. */
  function Pow256(n: nat): (r: nat)
    ensures r >= 1
  {
    if n == 0 then 1 else 256 * Pow256(n - 1)
  }

  /**
   * `int.from_bytes(s, byteorder='big')`: each further byte shifts the value
   * accumulated so far one byte to the left.
   */
  function FromBytes(s: seq<Byte>): nat
  {
    if s == [] then 0 else FromBytes(s[..|s| - 1]) * 256 + s[|s| - 1]
  }

  /** Python's slice `b[i:i + n]`, clipped to the end of b. */
  function Slice(b: seq<Byte>, i: nat, n: nat): (s: seq<Byte>)
    ensures |s| <= n
    ensures i + n <= |b| ==> s == b[i..i + n]
  {
    var lo := if i <= |b| then i else |b|;
    var hi := if i + n <= |b| then i + n else |b|;
    b[lo..hi]
  }

  /** `read_bytes(b, i, n)`. */
  function ReadBytes(b: seq<Byte>, i: nat, n: nat): nat
  {
    FromBytes(Slice(b, i, n))
  }

  /** Reference reading: the sum of b[i + k] * 256^(n - 1 - k) for k in 0 .. n - 1. */
  function BigEndian(b: seq<Byte>, i: nat, n: nat): nat
    requires i + n <= |b|
    decreases n
  {
    if n == 0 then 0 else (b[i] as nat) * Pow256(n - 1) + BigEndian(b, i + 1, n - 1)
  }

  /** Taking one more byte into the sum shifts it left by one byte. */
  lemma {:induction false} BigEndianSnoc(b: seq<Byte>, i: nat, n: nat)
    requires i + n < |b|
    ensures BigEndian(b, i, n + 1) == BigEndian(b, i, n) * 256 + b[i + n]
    decreases n
  {
    if n > 0 {
      BigEndianSnoc(b, i + 1, n - 1);
      ShiftWeight(b[i], Pow256(n - 1));
    }
  }

  lemma ShiftWeight(x: nat, w: nat)
    ensures x * (256 * w) == (x * w) * 256
  {
  }

  /** Accumulating bytes from the left computes the sum of the bytes' weights. */
  lemma {:induction false} FromBytesIsBigEndian(s: seq<Byte>)
    ensures FromBytes(s) == BigEndian(s, 0, |s|)
  {
    if s != [] {
      var init := s[..|s| - 1];
      FromBytesIsBigEndian(init);
      BigEndianPrefix(s, init, |init|);
      BigEndianSnoc(s, 0, |init|);
    }
  }

  /** The sum over the first n bytes is the same in a sequence and in any extension of it. */
  lemma {:induction false} BigEndianPrefix(s: seq<Byte>, t: seq<Byte>, n: nat)
    requires n <= |t| <= |s| && t == s[..|t|]
    ensures BigEndian(s, 0, n) == BigEndian(t, 0, n)
  {
    BigEndianPrefixFrom(s, t, 0, n);
  }

  lemma {:induction false} BigEndianPrefixFrom(s: seq<Byte>, t: seq<Byte>, i: nat, n: nat)
    requires i + n <= |t| <= |s| && t == s[..|t|]
    ensures BigEndian(s, i, n) == BigEndian(t, i, n)
    decreases n
  {
    if n > 0 {
      BigEndianPrefixFrom(s, t, i + 1, n - 1);
    }
  }

  /** The sum over b[i .. i + n] is the sum over the slice itself. */
  lemma {:induction false} BigEndianSlice(b: seq<Byte>, i: nat, n: nat)
    requires i + n <= |b|
    ensures BigEndian(b, i, n) == BigEndian(b[i..i + n], 0, n)
    decreases n
  {
    if n > 0 {
      BigEndianSlice(b, i + 1, n - 1);
      BigEndianShift(b[i..i + n], 1, n - 1);
      assert b[i..i + n][1..] == b[i + 1..i + n];
    }
  }

  lemma {:induction false} BigEndianShift(s: seq<Byte>, i: nat, n: nat)
    requires 1 <= i && i + n <= |s|
    ensures BigEndian(s, i, n) == BigEndian(s[1..], i - 1, n)
    decreases n
  {
    if n > 0 {
      BigEndianShift(s, i + 1, n - 1);
    }
  }

  /** An n-byte accumulation is below 256^n. */
  lemma {:induction false} FromBytesBound(s: seq<Byte>)
    ensures FromBytes(s) < Pow256(|s|)
  {
    if s != [] {
      FromBytesBound(s[..|s| - 1]);
    }
  }

  lemma {:induction false} Pow256Mono(m: nat, n: nat)
    requires m <= n
    ensures Pow256(m) <= Pow256(n)
    decreases n
  {
    if m < n {
      Pow256Mono(m, n - 1);
    }
  }

  /**
   * `read_bytes(b, i, n)` never reaches 256^n, and when the n bytes lie inside
   * the frame it is the big-endian sum of b[i], ..., b[i + n - 1].
   */
  lemma ReadBytesIsBigEndian(b: seq<Byte>, i: nat, n: nat)
    ensures ReadBytes(b, i, n) < Pow256(n)
    ensures i + n <= |b| ==> ReadBytes(b, i, n) == BigEndian(b, i, n)
  {
    var s := Slice(b, i, n);
    FromBytesBound(s);
    Pow256Mono(|s|, n);
    if i + n <= |b| {
      FromBytesIsBigEndian(s);
      BigEndianSlice(b, i, n);
    }
  }

  /** A read depends only on the bytes it covers. */
  lemma ReadBytesLocal(b: seq<Byte>, c: seq<Byte>, i: nat, n: nat)
    requires i + n <= |b| && i + n <= |c|
    requires b[i..i + n] == c[i..i + n]
    ensures ReadBytes(b, i, n) == ReadBytes(c, i, n)
  {
  }

  /** A read is zero exactly when every byte it covers is zero. */
  lemma {:induction false} BigEndianZero(b: seq<Byte>, i: nat, n: nat)
    requires i + n <= |b|
    ensures BigEndian(b, i, n) == 0 <==> forall k :: i <= k < i + n ==> b[k] == 0
    decreases n
  {
    if n > 0 {
      BigEndianZero(b, i + 1, n - 1);
      var rest := BigEndian(b, i + 1, n - 1);
      if b[i] == 0 {
        assert BigEndian(b, i, n) == rest;
      } else {
        ScaledPositive(b[i], Pow256(n - 1));
        assert BigEndian(b, i, n) > 0;
      }
    }
  }

  lemma ScaledPositive(x: nat, y: nat)
    requires x >= 1 && y >= 1
    ensures x * y >= 1
  {
  }

  /** A two-byte read, byte by byte. */
  lemma BigEndian2(b: seq<Byte>, i: nat)
    requires i + 2 <= |b|
    ensures BigEndian(b, i, 2) == 0x100 * (b[i] as nat) + b[i + 1] as nat
  {
    assert Pow256(1) == 0x100;
    assert BigEndian(b, i + 1, 1) == b[i + 1];
  }

  /** A four-byte read, byte by byte. */
  lemma BigEndian4(b: seq<Byte>, i: nat)
    requires i + 4 <= |b|
    ensures BigEndian(b, i, 4) ==
      0x100_0000 * (b[i] as nat) + 0x1_0000 * (b[i + 1] as nat) + 0x100 * (b[i + 2] as nat) + b[i + 3] as nat
  {
    assert Pow256(3) == 0x100_0000 && Pow256(2) == 0x1_0000;
    BigEndian2(b, i + 2);
  }

  /** A four-byte read is its high two-byte half shifted by two bytes, plus its low half. */
  lemma BigEndianHalves(b: seq<Byte>, i: nat)
    requires i + 4 <= |b|
    ensures BigEndian(b, i, 4) == 0x1_0000 * BigEndian(b, i, 2) + BigEndian(b, i + 2, 2)
  {
    BigEndian4(b, i);
    BigEndian2(b, i);
    BigEndian2(b, i + 2);
  }
}
