/**
 * The pieces of the Swift standard library and Foundation that the marshalling
 * layer relies on: fixed-width integer ranges, the bit-pattern view of `Double`,
 * `Date`, the UTF-8 view of a `String`, `Int.description`, and the platform
 * conversions that the model does not compute itself (floating point and date
 * formatting), gathered in a `Platform` record that is passed in.
 */
module Foundation {
  import opened Wrappers

  /** `UInt8`, the element type of `Data`. */
  type Byte = x: int | 0 <= x < 0x100

  /** `Int8`, i.e. `CChar`, the element type of a binding's buffer. */
  type Int8 = x: int | -0x80 <= x < 0x80

  type UInt64 = x: int | 0 <= x < 0x1_0000_0000_0000_0000

  type Int64 = x: int | -0x8000_0000_0000_0000 <= x < 0x8000_0000_0000_0000

  /** A 64-bit IEEE-754 value, represented by its bit pattern. */
  datatype Double = Double(bitPattern: UInt64)

  /** An instant: seconds since 2001-01-01T00:00:00Z as a `Double`. */
  datatype Date = Date(timeIntervalSinceReferenceDate: Double)

  /** `MemoryLayout<T>.size` of an integer type: at least one byte. */
  type Width = w: nat | 1 <= w witness 1

  /**
   * What the running platform supplies and the model takes as given:
   * the byte width of `Int`, `Double.description`, the `timestamptz`
   * formatter, and the two floating-point conversions of a date's offset
   * from the PostgreSQL epoch 2000-01-01T00:00:00Z
   * (`Int64(interval * 1_000_000)` and `Float64(interval)`).
   */
  datatype Platform = Platform(
    intSize: Width,
    doubleDescription: Double -> string,
    timestamptzString: Date -> string,
    microsecondsSince2000: Date -> Int64,
    secondsSince2000: Date -> Double)

  // ---------------------------------------------------------------------------
  // Int8(bitPattern:) and UInt8(bitPattern:)

  /** `Int8(bitPattern: b)`: the same eight bits read as two's complement. */
  function Int8BitPattern(b: Byte): (r: Int8)
    ensures UInt8BitPattern(r) == b
    ensures 0 <= b < 0x80 ==> r == b
  {
    if b < 0x80 then b else b - 0x100
  }

  /** `UInt8(bitPattern: i)`: the inverse reinterpretation. */
  function UInt8BitPattern(i: Int8): (r: Byte)
    ensures 0 <= i ==> r == i
  {
    if i < 0 then i + 0x100 else i
  }

  /** Each byte reinterpreted as a `CChar`. */
  function Int8s(bytes: seq<Byte>): (r: seq<Int8>)
    ensures |r| == |bytes|
    ensures UInt8s(r) == bytes
  {
    seq(|bytes|, k requires 0 <= k < |bytes| => Int8BitPattern(bytes[k]))
  }

  /** Each `CChar` reinterpreted as a byte. */
  function UInt8s(chars: seq<Int8>): (r: seq<Byte>)
    ensures |r| == |chars|
    ensures forall k :: 0 <= k < |chars| ==> r[k] == UInt8BitPattern(chars[k])
  {
    seq(|chars|, k requires 0 <= k < |chars| => UInt8BitPattern(chars[k]))
  }

  // ---------------------------------------------------------------------------
  // String.utf8: UTF-8 encoding of Unicode scalar values (RFC 3629)

  predicate IsContinuation(b: Byte) {
    0x80 <= b < 0xC0
  }

  /** The UTF-8 encoding of one Unicode scalar value. */
  function Utf8Scalar(c: char): (r: seq<Byte>)
    ensures 1 <= |r| <= 4
  {
    var n := c as int;
    if n < 0x80 then [n]
    else if n < 0x800 then [0xC0 + n / 0x40, 0x80 + n % 0x40]
    else if n < 0x1_0000 then [0xE0 + n / 0x40 / 0x40, 0x80 + n / 0x40 % 0x40, 0x80 + n % 0x40]
    else [0xF0 + n / 0x40 / 0x40 / 0x40, 0x80 + n / 0x40 / 0x40 % 0x40, 0x80 + n / 0x40 % 0x40, 0x80 + n % 0x40]
  }

  /** `Array(s.utf8)`. */
  function Utf8(s: string): (r: seq<Byte>)
    ensures |s| <= |r| <= 4 * |s|
  {
    if s == [] then [] else Utf8Scalar(s[0]) + Utf8(s[1..])
  }

  /**
   * Decodes the scalar value at the front of `b`, returning it and the
   * number of bytes it occupies; `None` if `b` does not start with a
   * well-formed UTF-8 sequence (overlong forms, surrogates and values above
   * U+10FFFF are ill-formed).
   */
  function DecodeScalar(b: seq<Byte>): (r: Option<(char, nat)>)
    requires |b| > 0
    ensures r.Some? ==> 1 <= r.value.1 <= |b| && r.value.1 <= 4
  {
    var b0: int := b[0];
    if b0 < 0x80 then Some((b0 as char, 1))
    else if 0xC2 <= b0 < 0xE0 then
      if 2 <= |b| && IsContinuation(b[1]) then
        Some((((b0 - 0xC0) * 0x40 + (b[1] - 0x80)) as char, 2))
      else None
    else if 0xE0 <= b0 < 0xF0 then
      if 3 <= |b| && IsContinuation(b[1]) && IsContinuation(b[2]) then
        var n := ((b0 - 0xE0) * 0x40 + (b[1] - 0x80)) * 0x40 + (b[2] - 0x80);
        if 0x800 <= n && !(0xD800 <= n < 0xE000) then Some((n as char, 3)) else None
      else None
    else if 0xF0 <= b0 < 0xF5 then
      if 4 <= |b| && IsContinuation(b[1]) && IsContinuation(b[2]) && IsContinuation(b[3]) then
        var n := (((b0 - 0xF0) * 0x40 + (b[1] - 0x80)) * 0x40 + (b[2] - 0x80)) * 0x40 + (b[3] - 0x80);
        if 0x1_0000 <= n < 0x11_0000 then Some((n as char, 4)) else None
      else None
    else None
  }

  /** `String(data: b, encoding: .utf8)`: `None` unless `b` is well-formed UTF-8. */
  function DecodeUtf8(b: seq<Byte>): Option<string>
    decreases |b|
  {
    if b == [] then Some([])
    else match DecodeScalar(b)
      case None => None
      case Some((c, k)) =>
        match DecodeUtf8(b[k..])
        case None => None
        case Some(rest) => Some([c] + rest)
  }

  lemma DecodeEncodedScalar(c: char, rest: seq<Byte>)
    ensures DecodeScalar(Utf8Scalar(c) + rest) == Some((c, |Utf8Scalar(c)|))
  {
    var e := Utf8Scalar(c);
    var b := e + rest;
    var n := c as int;
    assert b[0] == e[0];
    if n < 0x80 {
    } else if n < 0x800 {
      assert b[1] == e[1];
      assert n == n / 0x40 * 0x40 + n % 0x40;
    } else if n < 0x1_0000 {
      assert b[1] == e[1] && b[2] == e[2];
      var q := n / 0x40;
      assert n == q * 0x40 + n % 0x40;
      assert q == q / 0x40 * 0x40 + q % 0x40;
    } else {
      assert b[1] == e[1] && b[2] == e[2] && b[3] == e[3];
      var q := n / 0x40;
      var q2 := q / 0x40;
      assert n == q * 0x40 + n % 0x40;
      assert q == q2 * 0x40 + q % 0x40;
      assert q2 == q2 / 0x40 * 0x40 + q2 % 0x40;
    }
  }

  lemma EncodeDecodedScalar(b: seq<Byte>)
    requires |b| > 0 && DecodeScalar(b).Some?
    ensures Utf8Scalar(DecodeScalar(b).value.0) == b[..DecodeScalar(b).value.1]
  {
    var b0: int := b[0];
    if b0 < 0x80 {
    } else if 0xC2 <= b0 < 0xE0 {
      var n: int := (b0 - 0xC0) * 0x40 + (b[1] - 0x80);
      assert n / 0x40 == b0 - 0xC0 && n % 0x40 == b[1] - 0x80;
    } else if 0xE0 <= b0 < 0xF0 {
      var q: int := (b0 - 0xE0) * 0x40 + (b[1] - 0x80);
      var n := q * 0x40 + (b[2] - 0x80);
      assert n / 0x40 == q && n % 0x40 == b[2] - 0x80;
      assert q / 0x40 == b0 - 0xE0 && q % 0x40 == b[1] - 0x80;
    } else {
      var q2: int := (b0 - 0xF0) * 0x40 + (b[1] - 0x80);
      var q := q2 * 0x40 + (b[2] - 0x80);
      var n := q * 0x40 + (b[3] - 0x80);
      assert n / 0x40 == q && n % 0x40 == b[3] - 0x80;
      assert q / 0x40 == q2 && q % 0x40 == b[2] - 0x80;
      assert q2 / 0x40 == b0 - 0xF0 && q2 % 0x40 == b[1] - 0x80;
    }
  }

  /** Decoding the UTF-8 encoding of a string gives the string back. */
  lemma {:induction false} Utf8RoundTrip(s: string)
    ensures DecodeUtf8(Utf8(s)) == Some(s)
  {
    if s != [] {
      var e := Utf8Scalar(s[0]);
      var b := Utf8(s);
      assert b == e + Utf8(s[1..]);
      DecodeEncodedScalar(s[0], Utf8(s[1..]));
      assert b[|e|..] == Utf8(s[1..]);
      Utf8RoundTrip(s[1..]);
      assert [s[0]] + s[1..] == s;
    }
  }

  /** Bytes that decode are exactly the encoding of what they decode to. */
  lemma {:induction false} Utf8DecodeExact(b: seq<Byte>)
    requires DecodeUtf8(b).Some?
    ensures Utf8(DecodeUtf8(b).value) == b
    decreases |b|
  {
    if b != [] {
      var (c, k) := DecodeScalar(b).value;
      var rest := DecodeUtf8(b[k..]).value;
      var s := DecodeUtf8(b).value;
      assert s == [c] + rest;
      EncodeDecodedScalar(b);
      Utf8DecodeExact(b[k..]);
      assert s[0] == c && s[1..] == rest;
      assert Utf8(s) == Utf8Scalar(c) + Utf8(rest);
      assert b == b[..k] + b[k..];
    }
  }

  /** Well-formed UTF-8 is precisely the set of encodings of strings. */
  lemma ValidUtf8Iff(b: seq<Byte>)
    ensures DecodeUtf8(b).Some? <==> exists s :: Utf8(s) == b
  {
    if DecodeUtf8(b).Some? {
      Utf8DecodeExact(b);
    }
    if s :| Utf8(s) == b {
      Utf8RoundTrip(s);
    }
  }

  // ---------------------------------------------------------------------------
  // Int.description and its inverse

  function DigitChar(d: nat): (c: char)
    requires d < 10
    ensures '0' <= c <= '9'
  {
    (0x30 + d) as char
  }

  predicate IsDigit(c: char) {
    '0' <= c <= '9'
  }

  /** Decimal text of a natural number, without leading zeros. */
  function NatDescription(n: nat): (r: string)
    ensures |r| > 0 && forall k :: 0 <= k < |r| ==> IsDigit(r[k])
    decreases n
  {
    if n < 10 then [DigitChar(n)] else NatDescription(n / 10) + [DigitChar(n % 10)]
  }

  /** `Int.description`: decimal text with a leading `-` for negative values. */
  function IntDescription(i: int): (r: string)
    ensures |r| > 0
    ensures forall k :: 0 <= k < |r| ==> IsDigit(r[k]) || (k == 0 && r[k] == '-')
  {
    if i < 0 then "-" + NatDescription(-i) else NatDescription(i)
  }

  /** Reads a non-empty run of decimal digits. */
  function ParseNat(s: string): Option<nat>
    decreases |s|
  {
    if s == [] || !IsDigit(s[|s| - 1]) then None
    else
      var d := s[|s| - 1] as int - 0x30;
      if |s| == 1 then Some(d)
      else match ParseNat(s[..|s| - 1])
        case None => None
        case Some(m) => Some(m * 10 + d)
  }

  /** Reads optionally signed decimal text, as PostgreSQL reads an integer element. */
  function ParseInt(s: string): Option<int> {
    if |s| > 0 && s[0] == '-' then
      match ParseNat(s[1..])
      case None => None
      case Some(n) => Some(0 - n)
    else
      match ParseNat(s)
      case None => None
      case Some(n) => Some(n)
  }

  lemma {:induction false} ParseNatDescription(n: nat)
    ensures ParseNat(NatDescription(n)) == Some(n)
    decreases n
  {
    var s := NatDescription(n);
    if n >= 10 {
      ParseNatDescription(n / 10);
      assert s[..|s| - 1] == NatDescription(n / 10);
    }
  }

  /** `Int.description` is read back to the same integer. */
  lemma ParseIntDescription(i: int)
    ensures ParseInt(IntDescription(i)) == Some(i)
  {
    if i < 0 {
      ParseNatDescription(-i);
      assert IntDescription(i)[1..] == NatDescription(-i);
    } else {
      ParseNatDescription(i);
    }
  }
}
