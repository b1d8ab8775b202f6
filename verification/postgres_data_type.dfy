/**
 * The tagged value model `PostgresDataType`, its narrowing accessors, the
 * `PostgresDataTypeConvertible` conformances, and the rendering of a value as
 * an element of a PostgreSQL array literal (PostgreSQL documentation, section
 * 8.15.6 "Array Value Input"; byte strings in the hex format of section 8.4.1).
 *
 * Beside the renderer stands a reference reader for one-dimensional array
 * literals of a single element type, written from the PostgreSQL grammar, so
 * that the renderer can be proved to round-trip.
 */
module DataType {
  import opened Wrappers
  import F = Foundation
  import opened BinaryUtils

  datatype PostgresDataType =
    | String(s: string)
    | Int(i: int)
    | Double(d: F.Double)
    | Null
    | Bytes(data: seq<F.Byte>)
    | Bool(b: bool)
    | Array(elements: seq<PostgresDataType>)
    | Date(date: F.Date)
  {
    /** `string`: the payload of a `.string`, nil for every other tag. */
    function StringValue(): (r: Option<string>)
      ensures r.Some? <==> String?
      ensures r.Some? ==> this == String(r.value)
    {
      if String? then Some(s) else None
    }

    function IntValue(): (r: Option<int>)
      ensures r.Some? <==> Int?
      ensures r.Some? ==> this == Int(r.value)
    {
      if Int? then Some(i) else None
    }

    function DoubleValue(): (r: Option<F.Double>)
      ensures r.Some? <==> Double?
      ensures r.Some? ==> this == Double(r.value)
    {
      if Double? then Some(d) else None
    }

    function IsNull(): (r: bool)
      ensures r <==> this == Null
    {
      Null?
    }

    function BytesValue(): (r: Option<seq<F.Byte>>)
      ensures r.Some? <==> Bytes?
      ensures r.Some? ==> this == Bytes(r.value)
    {
      if Bytes? then Some(data) else None
    }

    function BoolValue(): (r: Option<bool>)
      ensures r.Some? <==> Bool?
      ensures r.Some? ==> this == Bool(r.value)
    {
      if Bool? then Some(b) else None
    }

    function ArrayValue(): (r: Option<seq<PostgresDataType>>)
      ensures r.Some? <==> Array?
      ensures r.Some? ==> this == Array(r.value)
    {
      if Array? then Some(elements) else None
    }

    function DateValue(): (r: Option<F.Date>)
      ensures r.Some? <==> Date?
      ensures r.Some? ==> this == Date(r.value)
    {
      if Date? then Some(date) else None
    }

    /** How many of the eight views (seven accessors and `isNull`) answer. */
    function AnsweringViews(): nat {
      (if StringValue().Some? then 1 else 0) + (if IntValue().Some? then 1 else 0)
      + (if DoubleValue().Some? then 1 else 0) + (if IsNull() then 1 else 0)
      + (if BytesValue().Some? then 1 else 0) + (if BoolValue().Some? then 1 else 0)
      + (if ArrayValue().Some? then 1 else 0) + (if DateValue().Some? then 1 else 0)
    }
  }

  /** Every value answers exactly one view; `.null` answers none of the payload accessors. */
  lemma ExactlyOneView(v: PostgresDataType)
    ensures v.AnsweringViews() == 1
    ensures v.IsNull() ==>
              (v.StringValue() == None && v.IntValue() == None && v.DoubleValue() == None
               && v.BytesValue() == None && v.BoolValue() == None && v.ArrayValue() == None
               && v.DateValue() == None)
  {
  }

  // ---------------------------------------------------------------------------
  // PostgresDataTypeConvertible

  /** The Swift values that conform to `PostgresDataTypeConvertible`. */
  datatype Convertible =
    | SwiftString(s: string)
    | SwiftInt(i: int)
    | SwiftDouble(d: F.Double)
    | SwiftArray(elements: seq<Convertible>)
    | SwiftDate(date: F.Date)
    | SwiftData(data: seq<F.Byte>)

  /** `convertToPostgresType()`: scalars are wrapped in their tag, arrays are mapped element-wise. */
  function ConvertToPostgresType(c: Convertible): (r: PostgresDataType)
    ensures c.SwiftString? ==> r.StringValue() == Some(c.s)
    ensures c.SwiftInt? ==> r.IntValue() == Some(c.i)
    ensures c.SwiftDouble? ==> r.DoubleValue() == Some(c.d)
    ensures c.SwiftDate? ==> r.DateValue() == Some(c.date)
    ensures c.SwiftData? ==> r.BytesValue() == Some(c.data)
    ensures c.SwiftArray? ==> r.ArrayValue().Some? && |r.elements| == |c.elements|
    ensures c.SwiftArray? ==>
      forall k :: 0 <= k < |c.elements| ==> r.elements[k] == ConvertToPostgresType(c.elements[k])
  {
    match c
    case SwiftString(s) => String(s)
    case SwiftInt(i) => Int(i)
    case SwiftDouble(d) => Double(d)
    case SwiftArray(a) => Array(seq(|a|, k requires 0 <= k < |a| => ConvertToPostgresType(a[k])))
    case SwiftDate(date) => Date(date)
    case SwiftData(data) => Bytes(data)
  }

  /** True of a value holding `.null` or `.bool` at any depth. */
  predicate HasNullOrBool(v: PostgresDataType) {
    match v
    case Null => true
    case Bool(_) => true
    case Array(a) => exists k :: 0 <= k < |a| && HasNullOrBool(a[k])
    case _ => false
  }

  /** No conformance produces `.null` or `.bool`: neither `Optional` nor `Bool` conforms. */
  lemma {:induction false} ConvertedHasNoNullOrBool(c: Convertible)
    ensures !HasNullOrBool(ConvertToPostgresType(c))
  {
    if c.SwiftArray? {
      var r := ConvertToPostgresType(c);
      forall k | 0 <= k < |c.elements|
        ensures !HasNullOrBool(r.elements[k])
      {
        ConvertedHasNoNullOrBool(c.elements[k]);
      }
    }
  }

  /** Conversion keeps every distinction: element order, length and payloads. */
  lemma {:induction false} ConvertToPostgresTypeInjective(c1: Convertible, c2: Convertible)
    ensures ConvertToPostgresType(c1) == ConvertToPostgresType(c2) ==> c1 == c2
  {
    if ConvertToPostgresType(c1) == ConvertToPostgresType(c2) && c1.SwiftArray? && c2.SwiftArray? {
      var a1, a2 := c1.elements, c2.elements;
      assert |a1| == |a2|;
      forall k | 0 <= k < |a1|
        ensures a1[k] == a2[k]
      {
        assert ConvertToPostgresType(c1).elements[k] == ConvertToPostgresType(c2).elements[k];
        ConvertToPostgresTypeInjective(a1[k], a2[k]);
      }
    }
  }

  // ---------------------------------------------------------------------------
  // Escaping of string elements

  /** `s.replacingOccurrences(of: [target], with: replacement)`, scalar by scalar. */
  function ReplacingOccurrences(s: string, target: char, replacement: string): (r: string)
    ensures target !in replacement ==> target !in r
  {
    if s == [] then ""
    else (if s[0] == target then replacement else [s[0]]) + ReplacingOccurrences(s[1..], target, replacement)
  }

  /** The body of a string element: backslashes doubled first, then quotes backslash-escaped. */
  function EscapeBody(s: string): string {
    ReplacingOccurrences(ReplacingOccurrences(s, '\\', "\\\\"), '"', "\\\"")
  }

  function EscapeChar(c: char): (r: string)
    ensures 1 <= |r| <= 2
  {
    if c == '\\' then "\\\\" else if c == '"' then "\\\"" else [c]
  }

  /** Single-pass escaping: each `\` and `"` is preceded by a backslash. */
  function Escaped(s: string): string {
    if s == [] then "" else EscapeChar(s[0]) + Escaped(s[1..])
  }

  lemma {:induction false} ReplacingOccurrencesAppend(a: string, b: string, target: char, replacement: string)
    ensures ReplacingOccurrences(a + b, target, replacement)
         == ReplacingOccurrences(a, target, replacement) + ReplacingOccurrences(b, target, replacement)
  {
    if a != [] {
      var head := if a[0] == target then replacement else [a[0]];
      assert (a + b)[0] == a[0];
      assert (a + b)[1..] == a[1..] + b;
      ReplacingOccurrencesAppend(a[1..], b, target, replacement);
      var x, y := ReplacingOccurrences(a[1..], target, replacement), ReplacingOccurrences(b, target, replacement);
      assert ReplacingOccurrences(a + b, target, replacement) == head + (x + y);
      assert head + (x + y) == (head + x) + y;
    } else {
      assert a + b == b;
    }
  }

  /** The two `replacingOccurrences` passes together escape each character exactly once. */
  lemma {:induction false} EscapeBodyIsEscaped(s: string)
    ensures EscapeBody(s) == Escaped(s)
  {
    if s != [] {
      var head := if s[0] == '\\' then "\\\\" else [s[0]];
      var first := ReplacingOccurrences(s, '\\', "\\\\");
      assert first == head + ReplacingOccurrences(s[1..], '\\', "\\\\");
      ReplacingOccurrencesAppend(head, ReplacingOccurrences(s[1..], '\\', "\\\\"), '"', "\\\"");
      if s[0] == '\\' {
        assert ReplacingOccurrences(head, '"', "\\\"") == "\\" + ReplacingOccurrences("\\", '"', "\\\"");
      }
      assert ReplacingOccurrences(head, '"', "\\\"") == EscapeChar(s[0]);
      EscapeBodyIsEscaped(s[1..]);
    }
  }

  // ---------------------------------------------------------------------------
  // postgresArrayElementString

  /** The summed lengths of `parts`. */
  function TotalLength(parts: seq<string>): nat {
    if parts == [] then 0 else |parts[0]| + TotalLength(parts[1..])
  }

  /** `elements.joined(separator: separator)`: one separator between each two parts. */
  function Join(separator: string, parts: seq<string>): (r: string)
    ensures |parts| == 0 ==> r == ""
    ensures |parts| == 1 ==> r == parts[0]
  {
    if |parts| == 0 then ""
    else if |parts| == 1 then parts[0]
    else parts[0] + separator + Join(separator, parts[1..])
  }

  /** `postgresArrayElementString`: the text of `v` as an element of an array literal. */
  function ElementString(v: PostgresDataType, platform: F.Platform): (r: string)
    ensures v.Null? ==> r == "NULL"
    ensures v.String? || v.Bytes? ==> |r| >= 2 && r[0] == '"' && r[|r| - 1] == '"'
    ensures v.Array? ==> |r| >= 2 && r[0] == '{' && r[|r| - 1] == '}'
    decreases v
  {
    match v
    case Null => "NULL"
    case Bytes(data) => "\"\\\\x" + HexString(data) + "\""
    case Bool(b) => if b then "t" else "f"
    case Int(i) => F.IntDescription(i)
    case Double(d) => platform.doubleDescription(d)
    case String(s) => "\"" + EscapeBody(s) + "\""
    case Array(a) => "{" + Join(",", ElementStrings(a, platform)) + "}"
    case Date(date) => platform.timestamptzString(date)
  }

  /** `array.map { $0.postgresArrayElementString }`. */
  function ElementStrings(a: seq<PostgresDataType>, platform: F.Platform): (r: seq<string>)
    ensures |r| == |a|
    decreases a
  {
    seq(|a|, k requires 0 <= k < |a| => ElementString(a[k], platform))
  }

  /** The literal `{e1,...,en}` of an array, as `Bind(array:)` and nested elements produce it. */
  function ArrayLiteral(a: seq<PostgresDataType>, platform: F.Platform): (r: string)
    ensures |r| >= 2 && r[0] == '{' && r[|r| - 1] == '}'
  {
    ElementString(Array(a), platform)
  }

  lemma {:induction false} JoinAppend(separator: string, parts: seq<string>, last: string)
    requires |parts| > 0
    ensures Join(separator, parts + [last]) == Join(separator, parts) + separator + last
  {
    if |parts| > 1 {
      assert (parts + [last])[1..] == parts[1..] + [last];
      JoinAppend(separator, parts[1..], last);
    }
  }

  /** A join is as long as its parts plus one separator between each two of them. */
  lemma {:induction false} JoinLength(separator: string, parts: seq<string>)
    requires |parts| > 0
    ensures |Join(separator, parts)| == TotalLength(parts) + (|parts| - 1) * |separator|
  {
    if |parts| > 1 {
      JoinLength(separator, parts[1..]);
    }
  }

  /** The literal of an array is its rendered elements joined by commas inside braces. */
  lemma ArrayLiteralJoin(a: seq<PostgresDataType>, platform: F.Platform)
    ensures ArrayLiteral(a, platform) == "{" + Join(",", ElementStrings(a, platform)) + "}"
  {
  }

  lemma {:induction false} ElementStringsAppend(a: seq<PostgresDataType>, v: PostgresDataType, platform: F.Platform)
    ensures ElementStrings(a + [v], platform) == ElementStrings(a, platform) + [ElementString(v, platform)]
  {
    var all := ElementStrings(a + [v], platform);
    var init := ElementStrings(a, platform);
    forall k | 0 <= k < |all|
      ensures all[k] == (init + [ElementString(v, platform)])[k]
    {
      if k < |a| {
        assert (a + [v])[k] == a[k];
      } else {
        assert (a + [v])[k] == v;
      }
    }
  }

  lemma ArrayLiteralEmpty(platform: F.Platform)
    ensures ArrayLiteral([], platform) == "{}"
  {
    ArrayLiteralJoin([], platform);
    assert ElementStrings([], platform) == [];
  }

  lemma ArrayLiteralSingleton(v: PostgresDataType, platform: F.Platform)
    ensures ArrayLiteral([v], platform) == "{" + ElementString(v, platform) + "}"
  {
    ArrayLiteralJoin([v], platform);
    assert ElementStrings([v], platform) == [ElementString(v, platform)] by {
      assert ElementStrings([v], platform)[0] == ElementString(v, platform);
    }
  }

  lemma ArrayLiteralAppend(a: seq<PostgresDataType>, v: PostgresDataType, platform: F.Platform)
    requires |a| > 0
    ensures ArrayLiteral(a + [v], platform)
         == "{" + Join(",", ElementStrings(a, platform)) + "," + ElementString(v, platform) + "}"
  {
    var init, last := ElementStrings(a, platform), ElementString(v, platform);
    ArrayLiteralJoin(a + [v], platform);
    ElementStringsAppend(a, v, platform);
    JoinAppend(",", init, last);
    Braced(Join(",", init), last);
  }

  lemma Braced(joined: string, last: string)
    ensures "{" + (joined + "," + last) + "}" == "{" + joined + "," + last + "}"
  {
  }

  /**
   * Bracket structure of an array literal: an empty array gives `{}`, and a
   * non-empty one is `{` + the first elements joined by commas + `,` + the
   * last element + `}`, so a comma separates elements and never trails.
   */
  lemma ArrayLiteralStructure(a: seq<PostgresDataType>, v: PostgresDataType, platform: F.Platform)
    ensures ArrayLiteral([], platform) == "{}"
    ensures ArrayLiteral([v], platform) == "{" + ElementString(v, platform) + "}"
    ensures |a| > 0 ==> ArrayLiteral(a + [v], platform)
                        == "{" + Join(",", ElementStrings(a, platform)) + "," + ElementString(v, platform) + "}"
  {
    ArrayLiteralEmpty(platform);
    ArrayLiteralSingleton(v, platform);
    if |a| > 0 {
      ArrayLiteralAppend(a, v, platform);
    }
  }

  /** Scalar elements: `NULL` unquoted, `t`/`f`, and the decimal text of an integer. */
  lemma ScalarElements(i: int, platform: F.Platform)
    ensures ElementString(Null, platform) == "NULL"
    ensures ElementString(Bool(true), platform) == "t" && ElementString(Bool(false), platform) == "f"
    ensures ElementString(Int(i), platform) == F.IntDescription(i)
    ensures F.ParseInt(ElementString(Int(i), platform)) == Some(i)
  {
    F.ParseIntDescription(i);
  }

  /**
   * A bytes element is the quoted, escaped bytea hex text `\x` + hex pairs:
   * two lowercase hex digits per byte, 2n + 5 characters in all.
   */
  lemma BytesElement(data: seq<F.Byte>, platform: F.Platform)
    ensures ElementString(Bytes(data), platform) == "\"" + EscapeBody("\\x" + HexString(data)) + "\""
    ensures |ElementString(Bytes(data), platform)| == 2 * |data| + 5
    ensures ElementString(Bytes([]), platform) == "\"\\\\x\""
  {
    BytesHexEscaped(HexString(data));
    assert HexString([]) == "";
  }

  /** Escaping `\x` followed by hex digits only doubles the backslash. */
  lemma BytesHexEscaped(hex: string)
    requires forall k :: 0 <= k < |hex| ==> F.IsDigit(hex[k]) || 'a' <= hex[k] <= 'f'
    ensures EscapeBody("\\x" + hex) == "\\\\x" + hex
  {
    EscapedPlain(hex);
    EscapedCons('x', hex);
    assert "\\x" + hex == ['\\'] + ("x" + hex);
    EscapedCons('\\', "x" + hex);
    EscapeBodyIsEscaped("\\x" + hex);
  }

  lemma EscapedCons(c: char, t: string)
    ensures Escaped([c] + t) == EscapeChar(c) + Escaped(t)
  {
    assert ([c] + t)[1..] == t;
  }

  /** Hex digits (anything without `\` or `"`) pass through escaping unchanged. */
  lemma {:induction false} EscapedPlain(t: string)
    requires forall k :: 0 <= k < |t| ==> t[k] != '\\' && t[k] != '"'
    ensures Escaped(t) == t
  {
    if t != [] {
      EscapedPlain(t[1..]);
      assert [t[0]] + t[1..] == t;
    }
  }

  /** `[[1,2],[3,4]]` renders as `{{1,2},{3,4}}`. */
  lemma TwoDimensionalExample(platform: F.Platform)
    ensures ArrayLiteral([Array([Int(1), Int(2)]), Array([Int(3), Int(4)])], platform) == "{{1,2},{3,4}}"
  {
    var row1, row2 := [Int(1), Int(2)], [Int(3), Int(4)];
    DigitElements(platform);
    PairLiteral(Int(1), Int(2), platform);
    PairLiteral(Int(3), Int(4), platform);
    PairLiteral(Array(row1), Array(row2), platform);
    assert ElementString(Array(row1), platform) == "{1,2}";
    assert ElementString(Array(row2), platform) == "{3,4}";
  }

  /** The one-digit integers render as their digit. */
  lemma DigitElements(platform: F.Platform)
    ensures ElementString(Int(1), platform) == "1" && ElementString(Int(2), platform) == "2"
    ensures ElementString(Int(3), platform) == "3" && ElementString(Int(4), platform) == "4"
  {
    assert F.IntDescription(1) == "1" && F.IntDescription(2) == "2";
    assert F.IntDescription(3) == "3" && F.IntDescription(4) == "4";
  }

  /** The literal of a two-element array. */
  lemma PairLiteral(u: PostgresDataType, v: PostgresDataType, platform: F.Platform)
    ensures ArrayLiteral([u, v], platform) == "{" + ElementString(u, platform) + "," + ElementString(v, platform) + "}"
  {
    var first, second := ElementString(u, platform), ElementString(v, platform);
    var parts := ElementStrings([u, v], platform);
    assert parts == [first, second] by {
      assert parts[0] == first && parts[1] == second;
    }
    assert parts[1..] == [second];
    assert Join(",", parts) == first + "," + second;
    ArrayLiteralJoin([u, v], platform);
    Braced(first, second);
  }

  /** `[1, nil, 3]` renders as `{1,NULL,3}`. */
  lemma NullElementExample(platform: F.Platform)
    ensures ArrayLiteral([Int(1), Null, Int(3)], platform) == "{1,NULL,3}"
  {
    assert F.IntDescription(1) == "1" && F.IntDescription(3) == "3";
    var withNull := [Int(1), Null, Int(3)];
    assert ElementStrings(withNull, platform) == ["1", "NULL", "3"] by {
      var es := ElementStrings(withNull, platform);
      assert es[0] == "1" && es[1] == "NULL" && es[2] == "3";
    }
    assert ["1", "NULL", "3"][1..] == ["NULL", "3"] && ["NULL", "3"][1..] == ["3"];
  }

  /** The bytes `00 12 00` render as the element `"\\x001200"`. */
  lemma BytesElementExample(platform: F.Platform)
    ensures ElementString(Bytes([0x00, 0x12, 0x00]), platform) == "\"\\\\x001200\""
  {
    assert LowercaseHexPair(0x00) == "00";
    assert LowercaseHexPair(0x12) == "12";
    assert HexString([0x00, 0x12, 0x00]) == "001200";
  }

  // ---------------------------------------------------------------------------
  // Reference reader for one-dimensional array literals (PostgreSQL's side)

  /** The element type of an array column, which decides how its elements are read. */
  datatype ElementType = IntElement | BoolElement | TextElement | ByteaElement

  /** True of the values a column of element type `t` holds: its type, or `.null`. */
  predicate OfElementType(v: PostgresDataType, t: ElementType) {
    match v
    case Null => true
    case Int(_) => t == IntElement
    case Bool(_) => t == BoolElement
    case String(_) => t == TextElement
    case Bytes(_) => t == ByteaElement
    case _ => false
  }

  /**
   * Reads the rest of a quoted element, just after its opening `"`: a
   * backslash takes the next character literally, an unescaped `"` closes the
   * element. Returns the element's text and what follows the closing quote.
   */
  function ReadQuoted(t: string): (r: Option<(string, string)>)
    ensures r.Some? ==> |r.value.1| < |t|
    decreases |t|
  {
    if t == [] then None
    else if t[0] == '"' then Some(("", t[1..]))
    else if t[0] == '\\' then
      if |t| < 2 then None
      else match ReadQuoted(t[2..])
        case None => None
        case Some((body, rest)) => Some(([t[1]] + body, rest))
    else match ReadQuoted(t[1..])
      case None => None
      case Some((body, rest)) => Some(([t[0]] + body, rest))
  }

  /** Reads an unquoted element: everything up to the next `,`. */
  function ReadBare(t: string): (r: (string, string))
    ensures |r.0| + |r.1| == |t|
    decreases |t|
  {
    if t == [] || t[0] == ',' then ("", t)
    else var (token, rest) := ReadBare(t[1..]); ([t[0]] + token, rest)
  }

  /** Reads one element of type `ty` from the front of `t`, returning it and what follows. */
  function ReadElement(t: string, ty: ElementType): (r: Option<(PostgresDataType, string)>)
    ensures r.Some? ==> |r.value.1| < |t|
  {
    if |t| > 0 && t[0] == '"' then
      match ReadQuoted(t[1..])
      case None => None
      case Some((text, rest)) =>
        match ty
        case TextElement => Some((String(text), rest))
        case ByteaElement =>
          if |text| >= 2 && text[..2] == "\\x" then
            match ParseHex(text[2..])
            case None => None
            case Some(data) => Some((Bytes(data), rest))
          else None
        case _ => None
    else
      var (token, rest) := ReadBare(t);
      if token == "" then None
      else if token == "NULL" then Some((Null, rest))
      else match ty
        case IntElement =>
          (match F.ParseInt(token)
           case None => None
           case Some(i) => Some((Int(i), rest)))
        case BoolElement =>
          if token == "t" then Some((Bool(true), rest))
          else if token == "f" then Some((Bool(false), rest))
          else None
        case _ => None
  }

  /** Reads comma-separated elements that fill all of `t`. */
  function ReadElements(t: string, ty: ElementType): Option<seq<PostgresDataType>>
    decreases |t|
  {
    match ReadElement(t, ty)
    case None => None
    case Some((v, rest)) =>
      if rest == [] then Some([v])
      else if rest[0] != ',' then None
      else match ReadElements(rest[1..], ty)
        case None => None
        case Some(vs) => Some([v] + vs)
  }

  /** Reads a one-dimensional array literal `{...}` whose elements have type `ty`. */
  function ReadArrayLiteral(t: string, ty: ElementType): Option<seq<PostgresDataType>> {
    if |t| >= 2 && t[0] == '{' && t[|t| - 1] == '}' then
      var inner := t[1..|t| - 1];
      if inner == [] then Some([]) else ReadElements(inner, ty)
    else None
  }

  predicate EndsElement(rest: string) {
    rest == [] || rest[0] == ','
  }

  lemma {:induction false} ReadBareToken(token: string, rest: string)
    requires forall k :: 0 <= k < |token| ==> token[k] != ','
    requires EndsElement(rest)
    ensures ReadBare(token + rest) == (token, rest)
  {
    if token != [] {
      assert (token + rest)[1..] == token[1..] + rest;
      ReadBareToken(token[1..], rest);
      assert [token[0]] + token[1..] == token;
    } else {
      assert token + rest == rest;
    }
  }

  /** A string element's body is read back, up to its closing quote, as the original string. */
  lemma {:induction false} ReadEscaped(s: string, rest: string)
    ensures ReadQuoted(Escaped(s) + "\"" + rest) == Some((s, rest))
  {
    var t := Escaped(s) + "\"" + rest;
    if s == [] {
      assert t == "\"" + rest;
      assert t[1..] == rest;
    } else {
      var e := EscapeChar(s[0]);
      assert t == e + (Escaped(s[1..]) + "\"" + rest);
      ReadEscaped(s[1..], rest);
      assert t[|e|..] == Escaped(s[1..]) + "\"" + rest;
      assert [s[0]] + s[1..] == s;
    }
  }

  /**
   * Round trip of a string element: unescaping the quoted body recovers the
   * original string, and the element ends exactly at its closing quote.
   */
  lemma StringElementRoundTrip(s: string, rest: string, platform: F.Platform)
    ensures ElementString(String(s), platform) == "\"" + EscapeBody(s) + "\""
    ensures ReadQuoted(EscapeBody(s) + "\"" + rest) == Some((s, rest))
  {
    EscapeBodyIsEscaped(s);
    ReadEscaped(s, rest);
  }

  lemma ReadElementOf(v: PostgresDataType, ty: ElementType, rest: string, platform: F.Platform)
    requires OfElementType(v, ty)
    requires EndsElement(rest)
    ensures ReadElement(ElementString(v, platform) + rest, ty) == Some((v, rest))
  {
    match v
    case Null => ReadBareToken("NULL", rest);
    case Int(i) => ReadIntElement(i, rest, platform);
    case Bool(b) => ReadBareToken(ElementString(v, platform), rest);
    case String(s) => ReadStringElement(s, rest, platform);
    case Bytes(data) => ReadBytesElement(data, rest, platform);
  }

  lemma ReadIntElement(i: int, rest: string, platform: F.Platform)
    requires EndsElement(rest)
    ensures ReadElement(ElementString(Int(i), platform) + rest, IntElement) == Some((Int(i), rest))
  {
    ReadBareToken(F.IntDescription(i), rest);
    F.ParseIntDescription(i);
    assert F.IntDescription(i) != "NULL" by {
      assert F.IntDescription(i)[0] != 'N';
    }
  }

  lemma ReadStringElement(s: string, rest: string, platform: F.Platform)
    requires EndsElement(rest)
    ensures ReadElement(ElementString(String(s), platform) + rest, TextElement) == Some((String(s), rest))
  {
    var t := ElementString(String(s), platform) + rest;
    StringElementRoundTrip(s, rest, platform);
    assert t[1..] == EscapeBody(s) + "\"" + rest;
  }

  lemma ReadBytesElement(data: seq<F.Byte>, rest: string, platform: F.Platform)
    requires EndsElement(rest)
    ensures ReadElement(ElementString(Bytes(data), platform) + rest, ByteaElement) == Some((Bytes(data), rest))
  {
    var text := "\\x" + HexString(data);
    var t := ElementString(Bytes(data), platform) + rest;
    BytesElement(data, platform);
    StringElementRoundTrip(text, rest, platform);
    assert t[1..] == EscapeBody(text) + "\"" + rest;
    assert text[..2] == "\\x" && text[2..] == HexString(data);
    ParseHexString(data);
  }

  lemma {:induction false} ReadJoinedElements(a: seq<PostgresDataType>, ty: ElementType, platform: F.Platform)
    requires |a| > 0
    requires forall k :: 0 <= k < |a| ==> OfElementType(a[k], ty)
    ensures ReadElements(Join(",", ElementStrings(a, platform)), ty) == Some(a)
  {
    var parts := ElementStrings(a, platform);
    if |a| == 1 {
      ReadElementOf(a[0], ty, "", platform);
      assert parts[0] + "" == parts[0] == ElementString(a[0], platform);
      assert a == [a[0]];
    } else {
      var tail := Join(",", ElementStrings(a[1..], platform));
      assert parts[1..] == ElementStrings(a[1..], platform);
      assert Join(",", parts) == parts[0] + ("," + tail);
      ReadElementOf(a[0], ty, "," + tail, platform);
      assert ("," + tail)[1..] == tail;
      ReadJoinedElements(a[1..], ty, platform);
      assert [a[0]] + a[1..] == a;
    }
  }

  /**
   * Rendering a one-dimensional array whose elements are all of one column
   * type (or `.null`) and reading the literal back as PostgreSQL would gives
   * the original elements, in order.
   */
  lemma ArrayLiteralRoundTrip(a: seq<PostgresDataType>, ty: ElementType, platform: F.Platform)
    requires forall k :: 0 <= k < |a| ==> OfElementType(a[k], ty)
    ensures ReadArrayLiteral(ArrayLiteral(a, platform), ty) == Some(a)
  {
    var lit := ArrayLiteral(a, platform);
    var inner := Join(",", ElementStrings(a, platform));
    assert lit == "{" + inner + "}";
    assert lit[1..|lit| - 1] == inner;
    if |a| > 0 {
      ReadJoinedElements(a, ty, platform);
      assert inner != [] by {
        assert ReadElements(inner, ty).Some?;
      }
    }
  }
}
