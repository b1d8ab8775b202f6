/**
 * Parameter binding: `Bind` turns one value into the `(bytes, length, type,
 * format)` quadruple that libpq's `PQexecParams` takes for a parameter.
 *
 * The abstract content of a binding is the value type `BindingValue`; one
 * specification function per initializer says what that initializer
 * produces, and the `Bind` class, whose fields never change after
 * initialization, fills its buffer step by step and is proved to agree with
 * those functions.
 */
module Binding {
  import opened Wrappers
  import F = Foundation
  import opened BinaryUtils
  import DT = DataType

  /** `Bind.Format`: `.string` (raw value 0) is text, `.binary` (raw value 1). */
  datatype Format = Text | Binary {
    function RawValue(): (r: int)
      ensures r == 0 <==> Text?
      ensures r == 1 <==> Binary?
    {
      if Text? then 0 else 1
    }
  }

  /** The parameter types a binding names; `None` lets the server infer the type. */
  datatype FieldType = Bool | Int2 | Int4 | Int8 | Float4 | Float8 | Timestamptz

  /** Connection-level settings; `hasIntegerDatetimes` selects the timestamp encoding. */
  datatype Configuration = Configuration(hasIntegerDatetimes: bool)

  /** The configuration `convertToBinding` uses when none is given. */
  const DefaultConfiguration := Configuration(hasIntegerDatetimes := true)

  /** What a binding hands to libpq: no buffer means SQL NULL. */
  datatype BindingValue = BindingValue(
    bytes: Option<seq<F.Int8>>,
    length: int,
    fieldType: Option<FieldType>,
    format: Format)

  // ---------------------------------------------------------------------------
  // What each initializer produces

  /** `init(configuration:)`: no buffer, length 0, no type, text format. */
  function NullBinding(): (r: BindingValue)
    ensures r.bytes.None? && r.length == 0
    ensures r.fieldType.None? && r.format.RawValue() == 0
  {
    BindingValue(None, 0, None, Text)
  }

  /** `string.utf8CString`: the UTF-8 bytes followed by a terminating 0. */
  function Utf8CString(s: string): seq<F.Byte> {
    F.Utf8(s) + [0]
  }

  /** `init(string:)`: the C string, whose length counts the terminating 0, untyped, as text. */
  function StringBinding(s: string): (r: BindingValue)
    ensures r.bytes.Some? && F.UInt8s(r.bytes.value) == F.Utf8(s) + [0]
    ensures r.length == |r.bytes.value| == |F.Utf8(s)| + 1
    ensures r.fieldType.None? && r.format == Text
  {
    var cString := Utf8CString(s);
    BindingValue(Some(F.Int8s(cString)), |cString|, None, Text)
  }

  /** `init(bool:)`: a single byte that is 1 exactly for true, tagged `bool`, in binary. */
  function BoolBinding(b: bool): (r: BindingValue)
    ensures r.bytes.Some? && r.length == |r.bytes.value| == 1
    ensures r.bytes.value[0] == 1 <==> b
    ensures r.bytes.value[0] == 0 <==> !b
    ensures r.fieldType == Some(FieldType.Bool) && r.format == Binary
  {
    BindingValue(Some([if b then 1 else 0]), 1, Some(FieldType.Bool), Binary)
  }

  /** The integer type tag for an `Int` of `width` bytes; `None` when there is none. */
  function IntFieldType(width: F.Width): (r: Option<FieldType>)
    ensures r.Some? <==> width in {2, 4, 8}
  {
    if width == 2 then Some(Int2)
    else if width == 4 then Some(Int4)
    else if width == 8 then Some(FieldType.Int8)
    else None
  }

  /**
   * `init(int:)` on a platform whose `Int` has `width` bytes: `width` binary
   * bytes under the matching integer tag, or else the decimal text as a string.
   */
  function IntBinding(i: int, width: F.Width): (r: BindingValue)
    requires FitsSigned(i, width)
    ensures r.bytes.Some? && r.length == |r.bytes.value|
    ensures width in {2, 4, 8} ==> r.length == width && r.fieldType == IntFieldType(width) && r.format == Binary
    ensures width !in {2, 4, 8} ==> r.fieldType.None? && r.format == Text
  {
    match IntFieldType(width)
    case Some(t) => BindingValue(Some(F.Int8s(SignedBigEndian(i, width))), width, Some(t), Binary)
    case None => StringBinding(F.IntDescription(i))
  }

  /** `Int.max` on a platform whose `Int` has `width` bytes. */
  function IntMax(width: F.Width): (r: int)
    ensures FitsSigned(r, width) && !FitsSigned(r + 1, width)
  {
    SignedBound(width) - 1
  }

  /** `init(uint:)`: the binding of the value clamped to `Int.max`. */
  function UIntBinding(u: nat, width: F.Width): (r: BindingValue)
    requires u < Pow256(width)
    ensures u >= IntMax(width) ==> r == IntBinding(IntMax(width), width)
    ensures u < IntMax(width) ==> r == IntBinding(u, width)
  {
    IntBinding(if u >= IntMax(width) then IntMax(width) else u, width)
  }

  /** `init(double:)` for an 8-byte `Double`: eight binary bytes tagged `float8`. */
  function DoubleBinding(d: F.Double): (r: BindingValue)
    ensures r.bytes.Some? && r.length == |r.bytes.value| == 8
    ensures r.fieldType == Some(Float8) && r.format == Binary
  {
    BindingValue(Some(F.Int8s(BigEndian(d.bitPattern, 8))), 8, Some(Float8), Binary)
  }

  /** `init(data:)`: the bytes reinterpreted as `Int8`, untyped, in binary. */
  function DataBinding(data: seq<F.Byte>): (r: BindingValue)
    ensures r.bytes.Some? && r.length == |r.bytes.value| == |data|
    ensures r.fieldType.None? && r.format == Binary
  {
    BindingValue(Some(F.Int8s(data)), |data|, None, Binary)
  }

  /** The eight bytes of a timestamp: microseconds as an `Int64`, or seconds as a `Double`. */
  function TimestampBytes(date: F.Date, configuration: Configuration, platform: F.Platform): (r: seq<F.Byte>)
    ensures |r| == 8
  {
    if configuration.hasIntegerDatetimes then
      SignedBigEndian(platform.microsecondsSince2000(date), 8)
    else
      BigEndian(platform.secondsSince2000(date).bitPattern, 8)
  }

  /** `init(date:)`: eight binary bytes tagged `timestamptz`. */
  function DateBinding(date: F.Date, configuration: Configuration, platform: F.Platform): (r: BindingValue)
    ensures r.bytes.Some? && r.length == |r.bytes.value| == 8
    ensures r.fieldType == Some(Timestamptz) && r.format == Binary
  {
    BindingValue(Some(F.Int8s(TimestampBytes(date, configuration, platform))), 8, Some(Timestamptz), Binary)
  }

  /** `init(array:)`: the array literal `{e1,...,en}` bound as a string. */
  function ArrayBinding(elements: seq<DT.PostgresDataType>, platform: F.Platform): (r: BindingValue)
    ensures r.bytes.Some? && r.length == |r.bytes.value| == |F.Utf8(DT.ArrayLiteral(elements, platform))| + 1
    ensures r.fieldType.None? && r.format == Text
  {
    StringBinding(DT.ArrayLiteral(elements, platform))
  }

  /** True of the values `convertToBinding` accepts: an `.int` fits the platform's `Int`. */
  predicate Bindable(v: DT.PostgresDataType, platform: F.Platform) {
    v.Int? ==> FitsSigned(v.i, platform.intSize)
  }

  /**
   * `convertToBinding(configuration:)`: each tag goes to its own initializer,
   * which fixes the type tag and the format the server receives.
   */
  function BindingOf(v: DT.PostgresDataType, configuration: Configuration, platform: F.Platform): (r: BindingValue)
    requires Bindable(v, platform)
    ensures v.Bool? ==> r.fieldType == Some(FieldType.Bool) && r.format == Binary
    ensures v.Double? ==> r.fieldType == Some(Float8) && r.format == Binary
    ensures v.Date? ==> r.fieldType == Some(Timestamptz) && r.format == Binary
    ensures v.Int? ==> r.fieldType == IntFieldType(platform.intSize)
    ensures v.Bytes? ==> r.fieldType.None? && r.format == Binary
    ensures v.String? || v.Array? || v.Null? ==> r.fieldType.None? && r.format == Text
  {
    match v
    case String(s) => StringBinding(s)
    case Int(i) => IntBinding(i, platform.intSize)
    case Double(d) => DoubleBinding(d)
    case Null => NullBinding()
    case Bytes(data) => DataBinding(data)
    case Bool(b) => BoolBinding(b)
    case Array(a) => ArrayBinding(a, platform)
    case Date(date) => DateBinding(date, configuration, platform)
  }

  // ---------------------------------------------------------------------------
  // Properties of the bindings

  /** Every binding except NULL has a buffer, and its length is the buffer's size. */
  lemma BindingLength(v: DT.PostgresDataType, configuration: Configuration, platform: F.Platform)
    requires Bindable(v, platform)
    ensures BindingOf(v, configuration, platform).bytes.None? <==> v.Null?
    ensures BindingOf(v, configuration, platform).bytes.Some? ==>
      BindingOf(v, configuration, platform).length == |BindingOf(v, configuration, platform).bytes.value|
    ensures v.Null? ==> BindingOf(v, configuration, platform) == BindingValue(None, 0, None, Text)
  {
  }

  /**
   * A string binding holds the UTF-8 bytes and one terminating 0, and its
   * length counts that 0; the bytes before it decode back to the string.
   */
  lemma StringBindingContents(s: string)
    ensures StringBinding(s).bytes.Some?
    ensures F.UInt8s(StringBinding(s).bytes.value) == F.Utf8(s) + [0]
    ensures StringBinding(s).length == |F.Utf8(s)| + 1
    ensures F.DecodeUtf8(F.UInt8s(StringBinding(s).bytes.value)[..StringBinding(s).length - 1]) == Some(s)
    ensures StringBinding(s).fieldType.None? && StringBinding(s).format.RawValue() == 0
  {
    var encoded := F.Utf8(s);
    assert (encoded + [0])[..|encoded|] == encoded;
    F.Utf8RoundTrip(s);
  }

  /**
   * On a 2, 4 or 8-byte `Int` the binding carries the matching integer tag
   * and `width` bytes from which the value is read back exactly.
   */
  lemma IntBindingRoundTrip(i: int, width: F.Width)
    requires FitsSigned(i, width) && width in {2, 4, 8}
    ensures IntBinding(i, width).fieldType == Some(if width == 2 then Int2 else if width == 4 then Int4 else FieldType.Int8)
    ensures IntBinding(i, width).format == Binary && IntBinding(i, width).length == width
    ensures IntBinding(i, width).bytes.Some? && |IntBinding(i, width).bytes.value| == width
    ensures FromTwosComplement(FromBigEndian(F.UInt8s(IntBinding(i, width).bytes.value)), width) == i
  {
    SignedBigEndianRoundTrip(i, width);
  }

  /** On any other width the binding is the string binding of the decimal text, which reads back as `i`. */
  lemma IntBindingFallback(i: int, width: F.Width)
    requires FitsSigned(i, width) && width !in {2, 4, 8}
    ensures IntBinding(i, width) == StringBinding(F.IntDescription(i))
    ensures F.DecodeUtf8(F.UInt8s(IntBinding(i, width).bytes.value)[..IntBinding(i, width).length - 1])
      == Some(F.IntDescription(i))
    ensures F.ParseInt(F.IntDescription(i)) == Some(i)
  {
    StringBindingContents(F.IntDescription(i));
    F.ParseIntDescription(i);
  }

  /** A `UInt` binding reads back as the value clamped to `Int.max`. */
  lemma UIntBindingClamp(u: nat, width: F.Width)
    requires u < Pow256(width)
    ensures width in {2, 4, 8} ==>
      FromTwosComplement(FromBigEndian(F.UInt8s(UIntBinding(u, width).bytes.value)), width)
        == if u >= IntMax(width) then IntMax(width) else u
  {
    var i := if u >= IntMax(width) then IntMax(width) else u;
    if width in {2, 4, 8} {
      IntBindingRoundTrip(i, width);
    }
  }

  /** A data binding holds each byte reinterpreted as `Int8`, so reading it back gives the data. */
  lemma DataBindingContents(data: seq<F.Byte>)
    ensures DataBinding(data).bytes.Some? && DataBinding(data).length == |data|
    ensures |DataBinding(data).bytes.value| == |data|
    ensures forall k :: 0 <= k < |data| ==> DataBinding(data).bytes.value[k] == F.Int8BitPattern(data[k])
    ensures F.UInt8s(DataBinding(data).bytes.value) == data
    ensures DataBinding(data).fieldType.None? && DataBinding(data).format == Binary
  {
  }

  /** An array binds as the string binding of its array literal. */
  lemma ArrayBindingLiteral(elements: seq<DT.PostgresDataType>, platform: F.Platform)
    ensures ArrayBinding(elements, platform) == StringBinding(DT.ArrayLiteral(elements, platform))
    ensures F.DecodeUtf8(F.UInt8s(ArrayBinding(elements, platform).bytes.value)[..ArrayBinding(elements, platform).length - 1])
      == Some(DT.ArrayLiteral(elements, platform))
  {
    StringBindingContents(DT.ArrayLiteral(elements, platform));
  }

  /**
   * Doubles and dates always bind as 8 binary bytes, tagged `float8` and
   * `timestamptz`; the bytes read back as the double's bit pattern, the
   * microseconds, or the seconds' bit pattern.
   */
  lemma FixedWidthBindings(d: F.Double, date: F.Date, configuration: Configuration, platform: F.Platform)
    ensures DoubleBinding(d).length == 8 && DoubleBinding(d).format == Binary
    ensures DoubleBinding(d).fieldType == Some(Float8)
    ensures FromBigEndian(F.UInt8s(DoubleBinding(d).bytes.value)) == d.bitPattern
    ensures DateBinding(date, configuration, platform).length == 8
    ensures DateBinding(date, configuration, platform).format == Binary
    ensures DateBinding(date, configuration, platform).fieldType == Some(Timestamptz)
    ensures configuration.hasIntegerDatetimes ==>
      FromTwosComplement(FromBigEndian(F.UInt8s(DateBinding(date, configuration, platform).bytes.value)), 8)
        == platform.microsecondsSince2000(date)
    ensures !configuration.hasIntegerDatetimes ==>
      FromBigEndian(F.UInt8s(DateBinding(date, configuration, platform).bytes.value))
        == platform.secondsSince2000(date).bitPattern
  {
    FromBigEndianOfBigEndian(d.bitPattern, 8);
    if configuration.hasIntegerDatetimes {
      SignedBigEndianRoundTrip(platform.microsecondsSince2000(date), 8);
    } else {
      FromBigEndianOfBigEndian(platform.secondsSince2000(date).bitPattern, 8);
    }
  }

  /** With the default configuration a date binds as integer microseconds. */
  lemma DefaultConfigurationDates(date: F.Date, platform: F.Platform)
    ensures DefaultConfiguration.hasIntegerDatetimes
    ensures FromTwosComplement(
              FromBigEndian(F.UInt8s(BindingOf(DT.Date(date), DefaultConfiguration, platform).bytes.value)), 8)
            == platform.microsecondsSince2000(date)
  {
    FixedWidthBindings(F.Double(0), date, DefaultConfiguration, platform);
  }

  // ---------------------------------------------------------------------------
  // Filling buffers

  /** Allocates a buffer and copies `contents` into it element by element. */
  method CopyToNewBuffer(contents: seq<F.Int8>) returns (buffer: array<F.Int8>)
    ensures fresh(buffer)
    ensures buffer[..] == contents
  {
    buffer := new F.Int8[|contents|];
    for i := 0 to |contents|
      invariant buffer[..i] == contents[..i]
    {
      buffer[i] := contents[i];
    }
  }

  /** Allocates a buffer and stores each byte of `data` reinterpreted as `Int8`. */
  method CopyDataToNewBuffer(data: seq<F.Byte>) returns (buffer: array<F.Int8>)
    ensures fresh(buffer)
    ensures buffer[..] == F.Int8s(data)
  {
    buffer := new F.Int8[|data|];
    for i := 0 to |data|
      invariant forall k :: 0 <= k < i ==> buffer[k] == F.Int8BitPattern(data[k])
    {
      buffer[i] := F.Int8BitPattern(data[i]);
    }
  }

  /**
   * The buffer, type and format of `init(int:)`: the big-endian bytes under an
   * integer tag, or the decimal text's C string when `Int` has no tag.
   */
  method IntegerBuffer(i: int, width: F.Width) returns (bytes: array<F.Int8>, fieldType: Option<FieldType>, format: Format)
    requires FitsSigned(i, width)
    ensures fresh(bytes)
    ensures BindingValue(Some(bytes[..]), bytes.Length, fieldType, format) == IntBinding(i, width)
  {
    var integerType := IntFieldType(width);
    if integerType.Some? {
      bytes := CopyToNewBuffer(F.Int8s(SignedBigEndian(i, width)));
      fieldType, format := integerType, Binary;
    } else {
      // Unsupported integer size: bind the decimal text instead.
      bytes := CopyToNewBuffer(F.Int8s(Utf8CString(F.IntDescription(i))));
      fieldType, format := None, Text;
    }
  }

  // ---------------------------------------------------------------------------
  // Bind

  class Bind {
    /** The `SmartPointer`'s memory; `null` for a NULL binding. */
    const buffer: array?<F.Int8>
    /** The `SmartPointer`'s length. */
    const bufferLength: int
    /** Whether the binding frees its buffer when it goes away. */
    ghost const ownsMemory: bool
    const fieldType: Option<FieldType>
    const format: Format
    const configuration: Configuration

    /** The `SmartPointer`'s length is the size of the memory it points to. */
    predicate Valid() {
      buffer != null ==> bufferLength == buffer.Length
    }

    /** The `length` getter: the buffer's length, 0 without a buffer. */
    function Length(): (r: int)
      ensures buffer == null ==> r == 0
      ensures Valid() && buffer != null ==> r == buffer.Length
    {
      if buffer == null then 0 else bufferLength
    }

    /** What the binding hands to libpq: the `bytes` and `length` getters, the type and the format. */
    function Value(): (r: BindingValue)
      reads buffer
      ensures r.bytes.None? <==> buffer == null
      ensures buffer != null ==> r.bytes == Some(buffer[..])
      ensures Valid() && r.bytes.Some? ==> r.length == |r.bytes.value|
      ensures r.bytes.None? ==> r.length == 0
      ensures r.fieldType == fieldType && r.format == format
    {
      BindingValue(if buffer == null then None else Some(buffer[..]), Length(), fieldType, format)
    }

    /** The designated initializer. */
    constructor (bytes: array?<F.Int8>, length: int, ownsMemory: bool, fieldType: Option<FieldType>,
                 format: Format, configuration: Configuration)
      ensures buffer == bytes && bufferLength == length && this.ownsMemory == ownsMemory
      ensures this.fieldType == fieldType && this.format == format && this.configuration == configuration
    {
      buffer, bufferLength, this.ownsMemory := bytes, length, ownsMemory;
      this.fieldType, this.format, this.configuration := fieldType, format, configuration;
    }

    /** A NULL binding: PQexecParams reads a nil pointer as NULL. */
    constructor Null(configuration: Configuration)
      ensures Value() == NullBinding() && buffer == null && Length() == 0 && Valid()
      ensures fieldType.None? && format.RawValue() == 0
      ensures this.configuration == configuration
    {
      buffer, bufferLength, ownsMemory := null, 0, false;
      fieldType, format, this.configuration := None, Text, configuration;
    }

    constructor FromString(s: string, configuration: Configuration)
      ensures buffer != null && fresh(buffer) && ownsMemory && Valid()
      ensures Value() == StringBinding(s) && this.configuration == configuration
    {
      var bytes := CopyToNewBuffer(F.Int8s(Utf8CString(s)));
      buffer, bufferLength, ownsMemory := bytes, bytes.Length, true;
      fieldType, format, this.configuration := None, Text, configuration;
    }

    constructor FromBool(b: bool, configuration: Configuration)
      ensures buffer != null && fresh(buffer) && ownsMemory && Valid()
      ensures Value() == BoolBinding(b) && this.configuration == configuration
    {
      var bytes := new F.Int8[1];
      bytes[0] := if b then 1 else 0;
      assert bytes[..] == [bytes[0]];
      buffer, bufferLength, ownsMemory := bytes, 1, true;
      fieldType, format, this.configuration := Some(FieldType.Bool), Binary, configuration;
    }

    constructor FromInt(i: int, configuration: Configuration, platform: F.Platform)
      requires FitsSigned(i, platform.intSize)
      ensures buffer != null && fresh(buffer) && ownsMemory && Valid()
      ensures Value() == IntBinding(i, platform.intSize) && this.configuration == configuration
    {
      var bytes, integerType, integerFormat := IntegerBuffer(i, platform.intSize);
      buffer, bufferLength, ownsMemory := bytes, bytes.Length, true;
      fieldType, format, this.configuration := integerType, integerFormat, configuration;
    }

    /** Clamps to `Int.max` and then binds as `init(int:)` does. */
    constructor FromUInt(u: nat, configuration: Configuration, platform: F.Platform)
      requires u < Pow256(platform.intSize)
      ensures buffer != null && fresh(buffer) && ownsMemory && Valid()
      ensures Value() == UIntBinding(u, platform.intSize) && this.configuration == configuration
    {
      var width := platform.intSize;
      var i := if u >= IntMax(width) then IntMax(width) else u;
      var bytes, integerType, integerFormat := IntegerBuffer(i, width);
      buffer, bufferLength, ownsMemory := bytes, bytes.Length, true;
      fieldType, format, this.configuration := integerType, integerFormat, configuration;
    }

    constructor FromDouble(d: F.Double, configuration: Configuration)
      ensures buffer != null && fresh(buffer) && ownsMemory && Valid()
      ensures Value() == DoubleBinding(d) && this.configuration == configuration
    {
      var bytes := CopyToNewBuffer(F.Int8s(BigEndian(d.bitPattern, 8)));
      buffer, bufferLength, ownsMemory := bytes, bytes.Length, true;
      fieldType, format, this.configuration := Some(Float8), Binary, configuration;
    }

    constructor FromData(data: seq<F.Byte>, configuration: Configuration)
      ensures buffer != null && fresh(buffer) && ownsMemory && Valid()
      ensures Value() == DataBinding(data) && this.configuration == configuration
    {
      var bytes := CopyDataToNewBuffer(data);
      buffer, bufferLength, ownsMemory := bytes, |data|, true;
      fieldType, format, this.configuration := None, Binary, configuration;
    }

    constructor FromDate(date: F.Date, configuration: Configuration, platform: F.Platform)
      ensures buffer != null && fresh(buffer) && ownsMemory && Valid()
      ensures Value() == DateBinding(date, configuration, platform) && this.configuration == configuration
    {
      var bytes;
      if configuration.hasIntegerDatetimes {
        var microseconds := platform.microsecondsSince2000(date);
        bytes := CopyToNewBuffer(F.Int8s(SignedBigEndian(microseconds, 8)));
      } else {
        var seconds := platform.secondsSince2000(date);
        bytes := CopyToNewBuffer(F.Int8s(BigEndian(seconds.bitPattern, 8)));
      }
      buffer, bufferLength, ownsMemory := bytes, bytes.Length, true;
      fieldType, format, this.configuration := Some(Timestamptz), Binary, configuration;
    }

    constructor FromArray(elements: seq<DT.PostgresDataType>, configuration: Configuration, platform: F.Platform)
      ensures buffer != null && fresh(buffer) && ownsMemory && Valid()
      ensures Value() == ArrayBinding(elements, platform) && this.configuration == configuration
    {
      var arrayString := DT.ArrayLiteral(elements, platform);
      var bytes := CopyToNewBuffer(F.Int8s(Utf8CString(arrayString)));
      buffer, bufferLength, ownsMemory := bytes, bytes.Length, true;
      fieldType, format, this.configuration := None, Text, configuration;
    }
  }

  /** `convertToBinding(configuration:)` on a value. */
  method ConvertToBinding(v: DT.PostgresDataType, configuration: Configuration, platform: F.Platform)
    returns (binding: Bind)
    requires Bindable(v, platform)
    ensures fresh(binding) && binding.configuration == configuration && binding.Valid()
    ensures binding.buffer != null ==> fresh(binding.buffer)
    ensures binding.Value() == BindingOf(v, configuration, platform)
  {
    if v.String? {
      binding := new Bind.FromString(v.s, configuration);
    } else if v.Int? {
      binding := new Bind.FromInt(v.i, configuration, platform);
    } else if v.Double? {
      binding := new Bind.FromDouble(v.d, configuration);
    } else if v.Null? {
      binding := new Bind.Null(configuration);
    } else if v.Bytes? {
      binding := new Bind.FromData(v.data, configuration);
    } else if v.Bool? {
      binding := new Bind.FromBool(v.b, configuration);
    } else if v.Array? {
      binding := new Bind.FromArray(v.elements, configuration, platform);
    } else {
      binding := new Bind.FromDate(v.date, configuration, platform);
    }
  }
}
