/**
 * Byte-level encodings used by the bindings and the array renderer:
 * big-endian (network order) integers of a fixed width, two's complement,
 * and lowercase hexadecimal byte pairs.
 */
module BinaryUtils {
  import opened Wrappers
  import opened Foundation

  function Pow256(n: nat): (r: nat)
    ensures r >= 1
  {
    if n == 0 then 1 else 0x100 * Pow256(n - 1)
  }

  /** Half the range of a signed integer of `width` bytes: `Int.max + 1`. */
  function SignedBound(width: Width): (r: nat)
    ensures 2 * r == Pow256(width)
  {
    0x80 * Pow256(width - 1)
  }

  /** The signed integers representable in `width` bytes. */
  predicate FitsSigned(i: int, width: Width) {
    0 - SignedBound(width) <= i < SignedBound(width)
  }

  // ---------------------------------------------------------------------------
  // Big-endian unsigned integers

  /** `x` written in `width` bytes, most significant byte first. */
  function BigEndian(x: nat, width: nat): (r: seq<Byte>)
    requires x < Pow256(width)
    ensures |r| == width
  {
    if width == 0 then [] else BigEndian(x / 0x100, width - 1) + [x % 0x100]
  }

  /** The value of bytes read most significant first. */
  function FromBigEndian(b: seq<Byte>): (r: nat)
    ensures r < Pow256(|b|)
  {
    if b == [] then 0 else FromBigEndian(b[..|b| - 1]) * 0x100 + b[|b| - 1]
  }

  lemma {:induction false} FromBigEndianOfBigEndian(x: nat, width: nat)
    requires x < Pow256(width)
    ensures FromBigEndian(BigEndian(x, width)) == x
    decreases width
  {
    if width > 0 {
      var b := BigEndian(x, width);
      FromBigEndianOfBigEndian(x / 0x100, width - 1);
      assert b[..|b| - 1] == BigEndian(x / 0x100, width - 1);
    }
  }

  lemma {:induction false} BigEndianOfFromBigEndian(b: seq<Byte>)
    ensures BigEndian(FromBigEndian(b), |b|) == b
    decreases |b|
  {
    if b != [] {
      var init := b[..|b| - 1];
      var x := FromBigEndian(b);
      BigEndianOfFromBigEndian(init);
      assert x / 0x100 == FromBigEndian(init) && x % 0x100 == b[|b| - 1];
      assert b == init + [b[|b| - 1]];
    }
  }

  /** Big-endian encoding of `width` bytes is a bijection onto byte strings of that length. */
  lemma BigEndianRoundTrip(x: nat, b: seq<Byte>, width: nat)
    requires x < Pow256(width)
    ensures FromBigEndian(BigEndian(x, width)) == x
    ensures |b| == width ==> (BigEndian(x, width) == b <==> FromBigEndian(b) == x)
  {
    FromBigEndianOfBigEndian(x, width);
    BigEndianOfFromBigEndian(b);
  }

  // ---------------------------------------------------------------------------
  // Two's complement

  /** The unsigned value whose bits are `i`'s two's complement in `width` bytes. */
  function TwosComplement(i: int, width: Width): (r: nat)
    requires FitsSigned(i, width)
    ensures r < Pow256(width)
    ensures (r < SignedBound(width)) <==> (0 <= i)
  {
    if i < 0 then i + Pow256(width) else i
  }

  /** Reads `width` bytes worth of unsigned value as a signed integer. */
  function FromTwosComplement(u: nat, width: Width): (r: int)
    requires u < Pow256(width)
    ensures FitsSigned(r, width)
  {
    if u < SignedBound(width) then u else u - Pow256(width)
  }

  /** The big-endian two's complement bytes of `i`, as `i.bigEndian` lays them out in memory. */
  function SignedBigEndian(i: int, width: Width): (r: seq<Byte>)
    requires FitsSigned(i, width)
    ensures |r| == width
  {
    BigEndian(TwosComplement(i, width), width)
  }

  /** Reading back the bytes of a signed big-endian integer recovers it. */
  lemma SignedBigEndianRoundTrip(i: int, width: Width)
    requires FitsSigned(i, width)
    ensures FromTwosComplement(FromBigEndian(SignedBigEndian(i, width)), width) == i
  {
    FromBigEndianOfBigEndian(TwosComplement(i, width), width);
  }

  // ---------------------------------------------------------------------------
  // Lowercase hexadecimal

  function HexDigit(d: nat): (c: char)
    requires d < 16
    ensures IsDigit(c) || 'a' <= c <= 'f'
  {
    if d < 10 then DigitChar(d) else (0x61 + d - 10) as char
  }

  function HexValue(c: char): Option<nat> {
    if '0' <= c <= '9' then Some(c as int - 0x30)
    else if 'a' <= c <= 'f' then Some(c as int - 0x61 + 10)
    else None
  }

  /** `byte.lowercaseHexPair`: two lowercase hex digits, high nibble first. */
  function LowercaseHexPair(b: Byte): (r: string)
    ensures |r| == 2
  {
    [HexDigit(b / 16), HexDigit(b % 16)]
  }

  /** `bytes.map { $0.lowercaseHexPair }.joined()`. */
  function HexString(bytes: seq<Byte>): (r: string)
    ensures |r| == 2 * |bytes|
    ensures forall k :: 0 <= k < |r| ==> IsDigit(r[k]) || 'a' <= r[k] <= 'f'
  {
    if bytes == [] then "" else LowercaseHexPair(bytes[0]) + HexString(bytes[1..])
  }

  /** Reads pairs of hex digits back into bytes. */
  function ParseHex(s: string): Option<seq<Byte>>
    decreases |s|
  {
    if s == [] then Some([])
    else if |s| == 1 then None
    else match (HexValue(s[0]), HexValue(s[1]), ParseHex(s[2..]))
      case (Some(hi), Some(lo), Some(rest)) => Some([hi * 16 + lo] + rest)
      case _ => None
  }

  lemma {:induction false} ParseHexString(bytes: seq<Byte>)
    ensures ParseHex(HexString(bytes)) == Some(bytes)
  {
    if bytes != [] {
      var s := HexString(bytes);
      assert s[2..] == HexString(bytes[1..]);
      ParseHexString(bytes[1..]);
      assert [bytes[0]] + bytes[1..] == bytes;
    }
  }
}
