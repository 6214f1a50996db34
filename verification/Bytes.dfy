/** Byte strings: digests, little-endian and decimal numbers. */
module Bytes {
  import opened GoInt

  type Digest = d: seq<Byte> | |d| == 32 witness seq(32, _ => 0)

  /** A hash function; every theorem that has one as a parameter holds for any of them. */
  type Hasher = seq<Byte> -> Digest

  function LittleEndian(bytes: seq<Byte>): nat {
    if bytes == [] then 0 else bytes[0] + 256 * LittleEndian(bytes[1..])
  }

  function LittleEndianBytes(x: nat, length: nat): (bytes: seq<Byte>)
    ensures |bytes| == length
  {
    if length == 0 then [] else [x % 256] + LittleEndianBytes(x / 256, length - 1)
  }

  lemma {:induction false} BytesPrefix(x: nat, k: nat, length: nat)
    requires k <= length
    ensures LittleEndianBytes(x, length)[..k] == LittleEndianBytes(x, k)
  {
    if k > 0 {
      BytesPrefix(x / 256, k - 1, length - 1);
      var tail := LittleEndianBytes(x / 256, length - 1);
      assert ([x % 256] + tail)[..k] == [x % 256] + tail[..k - 1];
    }
  }

  lemma {:induction false} BytesOfZero(length: nat)
    ensures LittleEndianBytes(0, length) == seq(length, _ => 0)
  {
    if length > 0 {
      BytesOfZero(length - 1);
      assert seq(length, _ => 0) == [0] + seq(length - 1, _ => 0);
    }
  }

  function Pow256(k: nat): nat {
    if k == 0 then 1 else 256 * Pow256(k - 1)
  }

  lemma {:induction false} BytesPadding(x: nat, k: nat, length: nat, bound: nat)
    requires bound == Pow256(k) && x < bound && k <= length
    ensures LittleEndianBytes(x, length) == LittleEndianBytes(x, k) + seq(length - k, _ => 0)
  {
    if k == 0 {
      BytesOfZero(length);
    } else {
      BytesPadding(x / 256, k - 1, length - 1, Pow256(k - 1));
      assert [x % 256] + LittleEndianBytes(x / 256, k - 1) + seq(length - k, _ => 0)
          == [x % 256] + (LittleEndianBytes(x / 256, k - 1) + seq(length - k, _ => 0));
    }
  }

  lemma SplitRemainder(x: nat, m: nat)
    requires m > 0
    ensures x % (256 * m) % 256 == x % 256
    ensures x % (256 * m) / 256 == x / 256 % m
  {
    var a, b := x / 256 / m, x / 256 % m;
    assert 256 * (m * a) == (256 * m) * a;
    DivModFromParts(x, a, 256 * m, 256 * b + x % 256);
  }

  lemma {:induction false} BytesOfRemainder(x: nat, length: nat)
    ensures Pow256(length) > 0
    ensures LittleEndianBytes(x % Pow256(length), length) == LittleEndianBytes(x, length)
  {
    if length > 0 {
      BytesOfRemainder(x / 256, length - 1);
      SplitRemainder(x, Pow256(length - 1));
    }
  }

  lemma FourBytes()
    ensures Pow256(4) == TWO_TO_32
  {
    assert Pow256(3) == 0x100_0000;
  }

  lemma {:induction false} LittleEndianRoundTrip(x: nat, length: nat)
    requires x < Pow256(length)
    ensures LittleEndian(LittleEndianBytes(x, length)) == x
  {
    if length > 0 {
      LittleEndianRoundTrip(x / 256, length - 1);
    }
  }

  lemma EightBytes()
    ensures Pow256(8) == TWO_TO_64
  {
    FourBytes();
    assert Pow256(6) == 256 * (256 * Pow256(4));
  }

  /** The decimal digits of a number, as strconv writes them. */
  function Decimal(n: nat): (digits: seq<Byte>)
    ensures |digits| > 0
  {
    if n < 10 then [48 + n] else Decimal(n / 10) + [48 + n % 10]
  }

  lemma {:induction false} DecimalInjective(a: nat, b: nat)
    requires Decimal(a) == Decimal(b)
    ensures a == b
    decreases a
  {
    if a >= 10 && b >= 10 {
      var m, n := Decimal(a / 10), Decimal(b / 10);
      assert (m + [48 + a % 10])[..|m|] == m && (n + [48 + b % 10])[..|n|] == n;
      assert (m + [48 + a % 10])[|m|] == 48 + a % 10 && (n + [48 + b % 10])[|n|] == 48 + b % 10;
      DecimalInjective(a / 10, b / 10);
    }
  }
}
