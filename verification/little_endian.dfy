/**
  Little-endian integer fields and ASCII four-character codes, as written by
  Python's `struct.pack` with the native codes of the Windows target:
  `l` is a signed 4-byte integer, `L` an unsigned 4-byte integer and `H` an
  unsigned 2-byte integer, all least significant byte first.
 */
module LittleEndian {

  newtype byte = b: int | 0 <= b < 256

  const TWO_16: int := 0x1_0000
  const TWO_31: int := 0x8000_0000
  const TWO_32: int := 0x1_0000_0000

  /** Range accepted by `pack("H", x)`: the values two bytes can hold. */
  predicate FitsU16(x: int): (b: bool)
    ensures b <==> 0 <= x < Pow256(2)
  {
    0 <= x < TWO_16
  }

  /** Range accepted by `pack("L", x)`: the values four bytes can hold. */
  predicate FitsU32(x: int): (b: bool)
    ensures b <==> 0 <= x < Pow256(4)
  {
    0 <= x < TWO_32
  }

  /**
    Range accepted by `pack("l", x)`: shifted by 2^31 it is the unsigned
    4-byte range, split evenly between negative and non-negative values.
   */
  predicate FitsI32(x: int): (b: bool)
    ensures b <==> FitsU32(x + TWO_31)
    ensures b ==> (x < 0 <==> x + TWO_31 < Pow256(4) / 2)
  {
    -TWO_31 <= x < TWO_31
  }

  function ByteOf(x: int): (b: byte)
    requires 0 <= x < 256
    ensures b as int == x
  {
    x as byte
  }

  /** Unsigned value of a little-endian byte sequence. */
  function Unsigned(s: seq<byte>): nat
  {
    if |s| == 0 then 0 else s[0] as int + 256 * Unsigned(s[1..])
  }

  function Pow256(k: nat): (p: nat)
    ensures p > 0
  {
    if k == 0 then 1 else 256 * Pow256(k - 1)
  }

  /** The `k`-byte little-endian encoding of `n`. */
  function EncodeUnsigned(n: nat, k: nat): (s: seq<byte>)
    requires n < Pow256(k)
    ensures |s| == k
    ensures Unsigned(s) == n
  {
    if k == 0 then []
    else
      DivBound(n, Pow256(k - 1));
      var rest := EncodeUnsigned(n / 256, k - 1);
      var b := ByteOf(n % 256);
      UnsignedCons(b, rest);
      DivMod(n);
      [b] + rest
  }

  /** The value of a sequence is its first byte plus 256 times the value of the rest. */
  lemma UnsignedCons(b: byte, rest: seq<byte>)
    ensures Unsigned([b] + rest) == b as int + 256 * Unsigned(rest)
  {
    assert ([b] + rest)[1..] == rest;
  }

  /** A low digit and the higher part are recovered by `% 256` and `/ 256`. */
  lemma DigitSplit(d: int, r: int)
    requires 0 <= d < 256
    ensures (d + 256 * r) % 256 == d && (d + 256 * r) / 256 == r
  {
  }

  lemma DivMod(n: nat)
    ensures n == n % 256 + 256 * (n / 256)
  {
  }

  lemma DivBound(n: nat, p: nat)
    requires n < 256 * p
    ensures n / 256 < p
  {
  }

  /** A `k`-byte sequence holds a value below 256^k. */
  lemma {:induction false} UnsignedBound(s: seq<byte>)
    ensures Unsigned(s) < Pow256(|s|)
  {
    if |s| > 0 {
      UnsignedBound(s[1..]);
    }
  }

  /** Encoding is the only `k`-byte sequence with a given value. */
  lemma {:induction false} EncodeUnsignedOfUnsigned(s: seq<byte>)
    ensures Unsigned(s) < Pow256(|s|)
    ensures EncodeUnsigned(Unsigned(s), |s|) == s
  {
    UnsignedBound(s);
    if |s| > 0 {
      var n := Unsigned(s);
      var rest := s[1..];
      assert s == [s[0]] + rest;
      UnsignedCons(s[0], rest);
      DigitSplit(s[0] as int, Unsigned(rest));
      EncodeUnsignedOfUnsigned(rest);
      assert ByteOf(n % 256) == s[0];
      assert EncodeUnsigned(n, |s|) == [ByteOf(n % 256)] + EncodeUnsigned(n / 256, |s| - 1);
    }
  }

  /** `pack("H", x)`. */
  function U16(x: int): (s: seq<byte>)
    requires FitsU16(x)
    ensures |s| == 2 && Unsigned(s) == x
    ensures s[0] as int == x % 256 && s[1] as int == x / 256
  {
    EncodeUnsigned(x, 2)
  }

  /** `pack("L", x)`. */
  function U32(x: int): (s: seq<byte>)
    requires FitsU32(x)
    ensures |s| == 4 && Unsigned(s) == x
  {
    EncodeUnsigned(x, 4)
  }

  /** `pack("l", x)`: two's complement in four bytes. */
  function I32(x: int): (s: seq<byte>)
    requires FitsI32(x)
    ensures |s| == 4 && Signed32(s) == x
  {
    U32(if x < 0 then x + TWO_32 else x)
  }

  /** Reads four bytes as `struct.unpack("l", s)` would. */
  function Signed32(s: seq<byte>): (x: int)
    requires |s| == 4
    ensures FitsI32(x)
  {
    UnsignedBound(s);
    var u := Unsigned(s);
    if u >= TWO_31 then u - TWO_32 else u
  }

  lemma U16OfUnsigned(s: seq<byte>)
    requires |s| == 2
    ensures FitsU16(Unsigned(s)) && U16(Unsigned(s)) == s
  {
    UnsignedBound(s);
    EncodeUnsignedOfUnsigned(s);
  }

  lemma U32OfUnsigned(s: seq<byte>)
    requires |s| == 4
    ensures FitsU32(Unsigned(s)) && U32(Unsigned(s)) == s
  {
    UnsignedBound(s);
    EncodeUnsignedOfUnsigned(s);
  }

  lemma I32OfSigned(s: seq<byte>)
    requires |s| == 4
    ensures I32(Signed32(s)) == s
  {
    U32OfUnsigned(s);
    var u := Unsigned(s);
    if u >= TWO_31 {
      assert Signed32(s) + TWO_32 == u;
    } else {
      assert Signed32(s) == u;
    }
  }

  /** True when every character is 7-bit ASCII. */
  predicate IsAscii(t: string) {
    forall i :: 0 <= i < |t| ==> t[i] as int < 0x80
  }

  /** `t.encode()` for an ASCII string: one byte per character. */
  function Ascii(t: string): (s: seq<byte>)
    requires IsAscii(t)
    ensures |s| == |t|
    ensures forall i :: 0 <= i < |t| ==> s[i] as int == t[i] as int
  {
    seq(|t|, i requires 0 <= i < |t| => ByteOf(t[i] as int))
  }
}
