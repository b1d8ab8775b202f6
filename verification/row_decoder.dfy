/**
 * The row decoder: reads a `Row` into a value described by a schema.
 *
 * Swift's reflective `Decodable` is replaced by an explicit `Shape`: the
 * container requests a type's `init(from:)` makes, including the requests
 * that the standard library makes only under a guard (`decodeIfPresent` and
 * `Optional`'s `init(from:)`). Decoding a shape walks it against the row as
 * the decoder's containers answer each request, so every request's success or
 * error is the one the decoder produces for it.
 */
module RowDecoding {
  import opened Wrappers
  import F = Foundation
  import DT = DataType
  import opened Rows

  /** A coding path: the string values of the `CodingKey`s leading to a container. */
  type CodingPath = seq<string>

  /** The primitive types the containers decode directly. */
  datatype Primitive =
    | Bool | String | Double | Float | Int
    | Int8 | Int16 | Int32 | Int64 | UInt | UInt8 | UInt16 | UInt32 | UInt64
  {
    /** True of the fixed-width integer types whose initializer from `Int` checks its range. */
    predicate IsNarrowing() {
      !(Bool? || String? || Double? || Float? || Int?)
    }
  }

  /** One request made of a keyed container for one key. */
  datatype KeyedRequest =
    | Contains                    // contains(_:)
    | DecodeNil                   // decodeNil(forKey:)
    | Decode(kind: Primitive)     // decode(_:forKey:) for a primitive type
    | DecodeDate                  // decode(Date.self, forKey:)
    | DecodeNested(shape: Shape)  // decode(T.self, forKey:) for any other Decodable T
    | NestedKeyed                 // nestedContainer(keyedBy:forKey:)
    | NestedUnkeyed               // nestedUnkeyedContainer(forKey:)
    | DecodeIfPresent(wrapped: KeyedRequest)
      // decodeIfPresent(_:forKey:), the default the synthesized code uses for an Optional field:
      // nil unless contains(key) and not decodeNil(forKey:), and otherwise the wrapped request

  datatype FieldRequest = FieldRequest(key: string, request: KeyedRequest)

  /** One request made of a single-value container. */
  datatype SingleValueRequest =
    | SingleDecodeNil                   // decodeNil()
    | SingleDecode(kind: Primitive)     // decode(_:) for a primitive type
    | SingleDecodeDate                  // decode(Date.self), which runs Date(from:)
    | SingleDecodeNested(shape: Shape)  // decode(T.self) for any other Decodable T

  /** How a type's `init(from:)` reads its decoder. */
  datatype Shape =
    | Keyed(fields: seq<FieldRequest>)  // container(keyedBy:), then one request per field, in order
    | SingleValue(request: SingleValueRequest)
    | OptionalOf(wrapped: Shape)
      // Optional's init(from:): nil if the single-value decodeNil() is true, else the wrapped type
    | Unkeyed                           // unkeyedContainer()

  /** What a request yields. `Float` results keep the `Double` they are converted from. */
  datatype Decoded =
    | BoolValue(b: bool)
    | StringValue(s: string)
    | DoubleValue(d: F.Double)
    | FloatValue(fromDouble: F.Double)
    | IntegerValue(i: int)
    | DateValue(date: F.Date)
    | Flag(flag: bool)              // the answer of contains or decodeNil
    | Struct(values: seq<Decoded>)  // a keyed shape: one value per field request
    | NilValue                      // the nil of an Optional

  /** Runtime traps: they end the program and no `try` catches them. */
  datatype Trap = NarrowingOverflow | UnkeyedContainer | EmptyCodingPath

  datatype DecodingError =
    | KeyNotFound(key: string, codingPath: CodingPath)
    | DataCorrupted(codingPath: CodingPath)
    | Trapped(trap: Trap)

  /** `_RowDecoder`: a row and the coding path at which it is read. */
  datatype Decoder = Decoder(row: Row, codingPath: CodingPath)

  // ---------------------------------------------------------------------------
  // Reading a value as a primitive

  /** The range of each fixed-width integer type. */
  predicate InRange(kind: Primitive, i: int) {
    match kind
    case Int8 => -0x80 <= i < 0x80
    case Int16 => -0x8000 <= i < 0x8000
    case Int32 => -0x8000_0000 <= i < 0x8000_0000
    case Int64 => -0x8000_0000_0000_0000 <= i < 0x8000_0000_0000_0000
    case UInt8 => 0 <= i < 0x100
    case UInt16 => 0 <= i < 0x1_0000
    case UInt32 => 0 <= i < 0x1_0000_0000
    case UInt64 => 0 <= i < 0x1_0000_0000_0000_0000
    case UInt => 0 <= i
    case _ => true
  }

  /** The tag a primitive type accepts. */
  predicate Accepts(kind: Primitive, v: DT.PostgresDataType) {
    match kind
    case Bool => v.Bool?
    case String => v.String?
    case Double => v.Double?
    case Float => v.Double?
    case _ => v.Int?
  }

  /**
   * Reads `v` as `kind` through its accessor; `corrupted` is the error for a
   * tag mismatch. A `.int` outside a fixed-width type's range traps.
   */
  function Extract(kind: Primitive, v: DT.PostgresDataType, corrupted: DecodingError): (r: Result<Decoded, DecodingError>)
    ensures !Accepts(kind, v) ==> r == Failure(corrupted)
    ensures Accepts(kind, v) && v.Int? ==> (r.Success? <==> InRange(kind, v.i))
    ensures Accepts(kind, v) && v.Int? && !InRange(kind, v.i) ==> r == Failure(Trapped(NarrowingOverflow))
    ensures r.Success? ==> r.value == (match v
                                       case Bool(b) => BoolValue(b)
                                       case String(s) => StringValue(s)
                                       case Double(d) => if kind.Float? then FloatValue(d) else DoubleValue(d)
                                       case _ => IntegerValue(v.i))
  {
    match kind
    case Bool => (match v.BoolValue() case Some(b) => Success(BoolValue(b)) case None => Failure(corrupted))
    case String => (match v.StringValue() case Some(s) => Success(StringValue(s)) case None => Failure(corrupted))
    case Double => (match v.DoubleValue() case Some(d) => Success(DoubleValue(d)) case None => Failure(corrupted))
    case Float => (match v.DoubleValue() case Some(d) => Success(FloatValue(d)) case None => Failure(corrupted))
    case _ =>
      match v.IntValue()
      case None => Failure(corrupted)
      case Some(i) => if InRange(kind, i) then Success(IntegerValue(i)) else Failure(Trapped(NarrowingOverflow))
  }

  // ---------------------------------------------------------------------------
  // KeyedContainer, whose coding path is its decoder's

  /** `value(for:)`: the column's value, or `keyNotFound` at the container's path. */
  function KeyedValue(d: Decoder, key: string): (r: Result<DT.PostgresDataType, DecodingError>)
    ensures r.Success? <==> key in d.row.fields
    ensures r.Success? ==> r.value == d.row.fields[key]
    ensures r.Failure? ==> r.error == KeyNotFound(key, d.codingPath)
  {
    match d.row.Lookup(key)
    case None => Failure(KeyNotFound(key, d.codingPath))
    case Some(v) => Success(v)
  }

  /** `contains(_:)`. */
  function KeyedContains(d: Decoder, key: string): (r: bool)
    ensures r <==> d.row.Lookup(key).Some?
  {
    key in d.row.fields.Keys
  }

  /** `allKeys`, with every column name accepted as a key. */
  function AllKeys(d: Decoder): (r: set<string>)
    ensures forall key :: key in r <==> KeyedContains(d, key)
  {
    d.row.fields.Keys
  }

  /** `decodeNil(forKey:)`: whether the column holds `.null`; an absent key is still an error. */
  function KeyedDecodeNil(d: Decoder, key: string): (r: Result<bool, DecodingError>)
    ensures key !in d.row.fields ==> r == Failure(KeyNotFound(key, d.codingPath))
    ensures key in d.row.fields ==> r == Success(d.row.fields[key] == DT.Null)
  {
    match KeyedValue(d, key)
    case Failure(e) => Failure(e)
    case Success(v) => Success(v.IsNull())
  }

  /** `decode(_:forKey:)` for a primitive type; a mismatch is corrupted data at `path + [key]`. */
  function KeyedDecode(d: Decoder, key: string, kind: Primitive): (r: Result<Decoded, DecodingError>)
    ensures key !in d.row.fields ==> r == Failure(KeyNotFound(key, d.codingPath))
    ensures key in d.row.fields ==> r == Extract(kind, d.row.fields[key], DataCorrupted(d.codingPath + [key]))
  {
    match KeyedValue(d, key)
    case Failure(e) => Failure(e)
    case Success(v) => Extract(kind, v, DataCorrupted(d.codingPath + [key]))
  }

  /** `decode(Date.self, forKey:)`: only a `.date` column decodes. */
  function KeyedDecodeDate(d: Decoder, key: string): (r: Result<Decoded, DecodingError>)
    ensures r.Success? <==> key in d.row.fields && d.row.fields[key].Date?
    ensures r.Success? ==> r.value == DateValue(d.row.fields[key].date)
    ensures key !in d.row.fields ==> r == Failure(KeyNotFound(key, d.codingPath))
    ensures key in d.row.fields && !d.row.fields[key].Date? ==> r == Failure(DataCorrupted(d.codingPath + [key]))
  {
    match KeyedValue(d, key)
    case Failure(e) => Failure(e)
    case Success(v) =>
      match v.DateValue()
      case Some(date) => Success(DateValue(date))
      case None => Failure(DataCorrupted(d.codingPath + [key]))
  }

  /** `nestedContainer(keyedBy:forKey:)` and `nestedUnkeyedContainer(forKey:)`: nesting is refused. */
  function KeyedNestedContainer(d: Decoder, key: string): (r: Result<Decoded, DecodingError>)
    ensures r.Failure? && r.error.DataCorrupted? && r.error.codingPath == d.codingPath + [key]
  {
    Failure(DataCorrupted(d.codingPath + [key]))
  }

  // ---------------------------------------------------------------------------
  // SingleValueContainer, whose coding path is its decoder's

  /** `lastKey`: the last key of the coding path; `codingPath.last!` traps on an empty path. */
  function LastKey(d: Decoder): (r: Result<string, DecodingError>)
    ensures r.Failure? <==> d.codingPath == []
    ensures r.Failure? ==> r.error == Trapped(EmptyCodingPath)
    ensures r.Success? ==> r.value == d.codingPath[|d.codingPath| - 1]
  {
    if |d.codingPath| == 0 then Failure(Trapped(EmptyCodingPath)) else Success(d.codingPath[|d.codingPath| - 1])
  }

  /** `valueForLastKey()`: the value of the column named by the last key. */
  function ValueForLastKey(d: Decoder): (r: Result<DT.PostgresDataType, DecodingError>)
    ensures d.codingPath == [] ==> r == Failure(Trapped(EmptyCodingPath))
    ensures d.codingPath != [] ==> r == KeyedValue(Decoder(d.row, d.codingPath), d.codingPath[|d.codingPath| - 1])
  {
    match LastKey(d)
    case Failure(e) => Failure(e)
    case Success(key) =>
      match d.row.Lookup(key)
      case None => Failure(KeyNotFound(key, d.codingPath))
      case Some(v) => Success(v)
  }

  /**
   * `decodeNil()`: `(try? valueForLastKey().bool) ?? false`, true only for a
   * column holding `.bool(true)`; an absent key answers false.
   */
  function SingleDecodeNilOf(d: Decoder): (r: Result<bool, DecodingError>)
    ensures d.codingPath == [] ==> r == Failure(Trapped(EmptyCodingPath))
    ensures d.codingPath != [] ==>
      r == Success(d.row.Lookup(d.codingPath[|d.codingPath| - 1]) == Some(DT.Bool(true)))
  {
    match ValueForLastKey(d)
    case Failure(Trapped(t)) => Failure(Trapped(t))
    case Failure(_) => Success(false)
    case Success(v) =>
      match v.BoolValue()
      case Some(b) => Success(b)
      case None => Success(false)
  }

  /**
   * `decode(_:)` for a primitive type. A `String` also accepts `.bytes` that
   * are well-formed UTF-8; a mismatch is corrupted data at the container's path.
   */
  function SingleDecodeOf(d: Decoder, kind: Primitive): (r: Result<Decoded, DecodingError>)
    ensures d.codingPath == [] ==> r == Failure(Trapped(EmptyCodingPath))
    ensures d.codingPath != [] && d.codingPath[|d.codingPath| - 1] !in d.row.fields ==>
      r == Failure(KeyNotFound(d.codingPath[|d.codingPath| - 1], d.codingPath))
    ensures !kind.String? && d.codingPath != [] && d.codingPath[|d.codingPath| - 1] in d.row.fields ==>
      r == Extract(kind, d.row.fields[d.codingPath[|d.codingPath| - 1]], DataCorrupted(d.codingPath))
    ensures kind.String? && d.codingPath != [] && d.codingPath[|d.codingPath| - 1] in d.row.fields ==>
      var v := d.row.fields[d.codingPath[|d.codingPath| - 1]];
      && (r.Success? <==> v.String? || (v.Bytes? && F.DecodeUtf8(v.data).Some?))
      && (v.String? ==> r == Success(StringValue(v.s)))
      && (v.Bytes? && F.DecodeUtf8(v.data).Some? ==> r == Success(StringValue(F.DecodeUtf8(v.data).value)))
      && (r.Failure? ==> r.error == DataCorrupted(d.codingPath))
  {
    match ValueForLastKey(d)
    case Failure(e) => Failure(e)
    case Success(v) =>
      if kind.String? then
        match v.StringValue()
        case Some(s) => Success(StringValue(s))
        case None =>
          match v.BytesValue()
          case Some(data) =>
            (match F.DecodeUtf8(data)
             case Some(s) => Success(StringValue(s))
             case None => Failure(DataCorrupted(d.codingPath)))
          case None => Failure(DataCorrupted(d.codingPath))
      else
        Extract(kind, v, DataCorrupted(d.codingPath))
  }

  /**
   * The `decode(_: Date.Type)` overload, which reads a `.date`. It is not a
   * requirement of `SingleValueDecodingContainer`, and `singleValueContainer()`
   * hands out the container only as that protocol, so no call reaches it:
   * `decode(Date.self)` runs `Date(from:)`, modelled by `DateFromDecoder`.
   */
  function SingleDecodeDateOf(d: Decoder): (r: Result<Decoded, DecodingError>)
    ensures r.Success? <==> d.codingPath != [] && d.row.Lookup(d.codingPath[|d.codingPath| - 1]).Some?
                            && d.row.fields[d.codingPath[|d.codingPath| - 1]].Date?
    ensures r.Success? ==> r.value == DateValue(d.row.fields[d.codingPath[|d.codingPath| - 1]].date)
    ensures d.codingPath != [] && d.row.Lookup(d.codingPath[|d.codingPath| - 1]).Some? && r.Failure? ==>
      r.error == DataCorrupted(d.codingPath)
  {
    match ValueForLastKey(d)
    case Failure(e) => Failure(e)
    case Success(v) =>
      match v.DateValue()
      case Some(date) => Success(DateValue(date))
      case None => Failure(DataCorrupted(d.codingPath))
  }

  /**
   * Foundation's `Date(from:)`: a single-value `decode(Double.self)`, taken as
   * the seconds since the reference date. A `.date` column is not a `Double`.
   */
  function DateFromDecoder(d: Decoder): (r: Result<Decoded, DecodingError>)
    ensures d.codingPath == [] ==> r == Failure(Trapped(EmptyCodingPath))
    ensures d.codingPath != [] && d.codingPath[|d.codingPath| - 1] !in d.row.fields ==>
      r == Failure(KeyNotFound(d.codingPath[|d.codingPath| - 1], d.codingPath))
    ensures d.codingPath != [] && d.codingPath[|d.codingPath| - 1] in d.row.fields ==>
      var v := d.row.fields[d.codingPath[|d.codingPath| - 1]];
      && (r.Success? <==> v.Double?)
      && (v.Double? ==> r == Success(DateValue(F.Date(v.d))))
      && (!v.Double? ==> r == Failure(DataCorrupted(d.codingPath)))
  {
    match SingleDecodeOf(d, Double)
    case Failure(e) => Failure(e)
    case Success(v) => if v.DoubleValue? then Success(DateValue(F.Date(v.d))) else Failure(DataCorrupted(d.codingPath))
  }

  // ---------------------------------------------------------------------------
  // Decoding a shape

  /**
   * `T(from: decoder)` for a type whose `init(from:)` has shape `shape`.
   * `unkeyedContainer()` is a `fatalError`.
   */
  function DecodeShape(d: Decoder, shape: Shape): (r: Result<Decoded, DecodingError>)
    ensures shape.Keyed? ==>
      (r.Success? <==> forall k :: 0 <= k < |shape.fields| ==> DecodeField(d, shape.fields[k]).Success?)
    ensures shape.Keyed? && r.Success? ==>
      && r.value.Struct? && |r.value.values| == |shape.fields|
      && forall k :: 0 <= k < |shape.fields| ==> r.value.values[k] == DecodeField(d, shape.fields[k]).value
    ensures shape.OptionalOf? && d.codingPath == [] ==> r == Failure(Trapped(EmptyCodingPath))
    ensures shape.OptionalOf? && d.codingPath != [] && d.row.Lookup(d.codingPath[|d.codingPath| - 1]) == Some(DT.Bool(true))
      ==> r == Success(NilValue)
    ensures shape.Unkeyed? ==> r == Failure(Trapped(UnkeyedContainer))
    decreases shape
  {
    match shape
    case Keyed(fields) =>
      (match DecodeFields(d, fields)
       case Failure(e) => Failure(e)
       case Success(values) => Success(Struct(values)))
    case SingleValue(request) => DecodeSingle(d, request)
    case OptionalOf(wrapped) =>
      (match SingleDecodeNilOf(d)
       case Failure(e) => Failure(e)
       case Success(isNil) => if isNil then Success(NilValue) else DecodeShape(d, wrapped))
    case Unkeyed => Failure(Trapped(UnkeyedContainer))
  }

  /** The requests of a keyed `init(from:)`, in order, stopping at the first error. */
  function DecodeFields(d: Decoder, fields: seq<FieldRequest>): (r: Result<seq<Decoded>, DecodingError>)
    ensures r.Success? <==> forall k :: 0 <= k < |fields| ==> DecodeField(d, fields[k]).Success?
    ensures r.Success? ==> (|r.value| == |fields| &&
      forall k :: 0 <= k < |fields| ==> r.value[k] == DecodeField(d, fields[k]).value)
    ensures r.Failure? ==>
      exists n :: 0 <= n < |fields| && DecodeField(d, fields[n]) == Failure(r.error)
        && (forall k :: 0 <= k < n ==> DecodeField(d, fields[k]).Success?)
    decreases fields
  {
    if fields == [] then Success([])
    else
      match DecodeField(d, fields[0])
      case Failure(e) => Failure(e)
      case Success(first) =>
        match DecodeFields(d, fields[1..])
        case Failure(e) => Failure(e)
        case Success(rest) => Success([first] + rest)
  }

  /**
   * One request of a keyed container. A nested type is decoded at
   * `path + [key]` without a lookup; `decodeIfPresent` answers nil for an
   * absent or NULL column and otherwise makes the wrapped request.
   */
  function DecodeField(d: Decoder, field: FieldRequest): (r: Result<Decoded, DecodingError>)
    ensures field.request.Contains? ==> r == Success(Flag(field.key in d.row.fields))
    ensures field.request.DecodeNil? && field.key in d.row.fields ==> r == Success(Flag(d.row.fields[field.key].Null?))
    ensures (field.request.DecodeNil? || field.request.Decode? || field.request.DecodeDate?) && field.key !in d.row.fields
      ==> r == Failure(KeyNotFound(field.key, d.codingPath))
    ensures field.request.DecodeIfPresent? && (field.key !in d.row.fields || d.row.fields[field.key].Null?)
      ==> r == Success(NilValue)
    ensures field.request.NestedKeyed? || field.request.NestedUnkeyed?
      ==> r == Failure(DataCorrupted(d.codingPath + [field.key]))
    decreases field.request
  {
    match field.request
    case Contains => Success(Flag(KeyedContains(d, field.key)))
    case DecodeNil =>
      (match KeyedDecodeNil(d, field.key)
       case Failure(e) => Failure(e)
       case Success(isNull) => Success(Flag(isNull)))
    case Decode(kind) => KeyedDecode(d, field.key, kind)
    case DecodeDate => KeyedDecodeDate(d, field.key)
    case DecodeNested(shape) => DecodeShape(Decoder(d.row, d.codingPath + [field.key]), shape)
    case NestedKeyed => KeyedNestedContainer(d, field.key)
    case NestedUnkeyed => KeyedNestedContainer(d, field.key)
    case DecodeIfPresent(wrapped) =>
      if !KeyedContains(d, field.key) || KeyedDecodeNil(d, field.key) == Success(true) then Success(NilValue)
      else DecodeField(d, FieldRequest(field.key, wrapped))
  }

  /** One request of a single-value container. A nested type is decoded by the same decoder. */
  function DecodeSingle(d: Decoder, request: SingleValueRequest): (r: Result<Decoded, DecodingError>)
    ensures d.codingPath == [] && !request.SingleDecodeNested? ==> r == Failure(Trapped(EmptyCodingPath))
    ensures request.SingleDecodeNil? && d.codingPath != [] ==>
      r == Success(Flag(d.row.Lookup(d.codingPath[|d.codingPath| - 1]) == Some(DT.Bool(true))))
    ensures request.SingleDecodeDate? && d.codingPath != [] && d.codingPath[|d.codingPath| - 1] in d.row.fields ==>
      var v := d.row.fields[d.codingPath[|d.codingPath| - 1]];
      && (r.Success? <==> v.Double?)
      && (r.Success? ==> r.value == DateValue(F.Date(v.d)))
    decreases request
  {
    match request
    case SingleDecodeNil =>
      (match SingleDecodeNilOf(d)
       case Failure(e) => Failure(e)
       case Success(b) => Success(Flag(b)))
    case SingleDecode(kind) => SingleDecodeOf(d, kind)
    case SingleDecodeDate => DateFromDecoder(d)
    case SingleDecodeNested(shape) => DecodeShape(d, shape)
  }

  /** `Row.decode` and `RowDecoder.decode(_:from:)`: decoding starts at the empty path. */
  function DecodeRow(row: Row, shape: Shape): (r: Result<Decoded, DecodingError>)
    ensures shape.Keyed? ==>
      (r.Success? <==> forall k :: 0 <= k < |shape.fields| ==> DecodeField(Decoder(row, []), shape.fields[k]).Success?)
    ensures shape.OptionalOf? || (shape.SingleValue? && !shape.request.SingleDecodeNested?)
      ==> r == Failure(Trapped(EmptyCodingPath))
    ensures shape.Unkeyed? ==> r == Failure(Trapped(UnkeyedContainer))
  {
    DecodeShape(Decoder(row, []), shape)
  }

  /** `[Row].decode`: one value per row, in order, or the first row's error. */
  function DecodeRows(rows: seq<Row>, shape: Shape): (r: Result<seq<Decoded>, DecodingError>)
    ensures r.Success? <==> forall k :: 0 <= k < |rows| ==> DecodeRow(rows[k], shape).Success?
    ensures r.Success? ==> (|r.value| == |rows| &&
      forall k :: 0 <= k < |rows| ==> r.value[k] == DecodeRow(rows[k], shape).value)
    ensures r.Failure? ==>
      exists n :: 0 <= n < |rows| && DecodeRow(rows[n], shape) == Failure(r.error)
        && (forall k :: 0 <= k < n ==> DecodeRow(rows[k], shape).Success?)
  {
    if rows == [] then Success([])
    else
      match DecodeRow(rows[0], shape)
      case Failure(e) => Failure(e)
      case Success(first) =>
        match DecodeRows(rows[1..], shape)
        case Failure(e) => Failure(e)
        case Success(rest) => Success([first] + rest)
  }

  // ---------------------------------------------------------------------------
  // Properties of the decoder

  /**
   * `Bool`, `String`, `Double` and `Int` decode exactly when the column has
   * the matching tag (a `String` never accepts `.bytes`); anything else is
   * corrupted data at `path + [key]`.
   */
  lemma KeyedDecodeMatchesTag(d: Decoder, key: string, kind: Primitive, v: DT.PostgresDataType)
    requires !kind.IsNarrowing() && d.row.Lookup(key) == Some(v)
    ensures KeyedDecode(d, key, kind).Success? <==> Accepts(kind, v)
    ensures !Accepts(kind, v) ==> KeyedDecode(d, key, kind) == Failure(DataCorrupted(d.codingPath + [key]))
    ensures kind.String? && v.Bytes? ==> KeyedDecode(d, key, kind).Failure?
    ensures kind.Bool? && v.Bool? ==> KeyedDecode(d, key, kind) == Success(BoolValue(v.b))
    ensures kind.String? && v.String? ==> KeyedDecode(d, key, kind) == Success(StringValue(v.s))
    ensures kind.Double? && v.Double? ==> KeyedDecode(d, key, kind) == Success(DoubleValue(v.d))
    ensures kind.Int? && v.Int? ==> KeyedDecode(d, key, kind) == Success(IntegerValue(v.i))
  {
  }

  /** A fixed-width integer decodes a `.int` in its range to the same number and traps outside it. */
  lemma NarrowingDecode(d: Decoder, key: string, kind: Primitive, i: int)
    requires kind.IsNarrowing() && d.row.Lookup(key) == Some(DT.Int(i))
    ensures InRange(kind, i) ==> KeyedDecode(d, key, kind) == Success(IntegerValue(i))
    ensures !InRange(kind, i) ==> KeyedDecode(d, key, kind) == Failure(Trapped(NarrowingOverflow))
  {
  }

  /** Nested containers are refused whatever the row holds, and an unkeyed container traps. */
  lemma NestedContainersRefused(d: Decoder, key: string)
    ensures DecodeField(d, FieldRequest(key, NestedKeyed)) == Failure(DataCorrupted(d.codingPath + [key]))
    ensures DecodeField(d, FieldRequest(key, NestedUnkeyed)) == Failure(DataCorrupted(d.codingPath + [key]))
    ensures DecodeShape(d, Unkeyed) == Failure(Trapped(UnkeyedContainer))
  {
  }

  /**
   * A nested type whose `init(from:)` asks a single-value container for a
   * primitive reads the column named by the field's key, as the keyed
   * container would, except that a missing column is reported at the
   * extended path.
   */
  lemma NestedSingleValueReadsKey(d: Decoder, key: string, kind: Primitive)
    requires !kind.String?
    ensures key in d.row.fields ==>
      DecodeField(d, FieldRequest(key, DecodeNested(SingleValue(SingleDecode(kind))))) == KeyedDecode(d, key, kind)
    ensures key !in d.row.fields ==>
      DecodeField(d, FieldRequest(key, DecodeNested(SingleValue(SingleDecode(kind)))))
        == Failure(KeyNotFound(key, d.codingPath + [key]))
  {
    var nested := Decoder(d.row, d.codingPath + [key]);
    assert LastKey(nested) == Success(key);
  }

  /**
   * A single-value `String` accepts a `.string`, or `.bytes` exactly when they
   * are well-formed UTF-8, which then decode to the string they encode.
   */
  lemma SingleValueStringAcceptsUtf8(d: Decoder, data: seq<F.Byte>, s: string)
    requires d.codingPath != [] && d.row.Lookup(d.codingPath[|d.codingPath| - 1]) == Some(DT.Bytes(data))
    ensures SingleDecodeOf(d, String).Success? <==> F.DecodeUtf8(data).Some?
    ensures data == F.Utf8(s) ==> SingleDecodeOf(d, String) == Success(StringValue(s))
    ensures F.DecodeUtf8(data).None? ==> SingleDecodeOf(d, String) == Failure(DataCorrupted(d.codingPath))
  {
    if data == F.Utf8(s) {
      F.Utf8RoundTrip(s);
    }
  }

  /** At the root the coding path is empty, so every single-value request on a column traps. */
  lemma RootSingleValueTraps(row: Row, request: SingleValueRequest)
    requires !request.SingleDecodeNested?
    ensures DecodeRow(row, SingleValue(request)) == Failure(Trapped(EmptyCodingPath))
  {
    var d := Decoder(row, []);
    assert ValueForLastKey(d) == Failure(Trapped(EmptyCodingPath));
    assert DecodeRow(row, SingleValue(request)) == DecodeSingle(d, request);
  }

  /**
   * `decodeIfPresent` for an Optional field: nil for an absent or NULL column,
   * and otherwise exactly the wrapped request, errors included.
   */
  lemma DecodeIfPresentGuard(d: Decoder, key: string, wrapped: KeyedRequest)
    ensures key !in d.row.fields ==> DecodeField(d, FieldRequest(key, DecodeIfPresent(wrapped))) == Success(NilValue)
    ensures d.row.Lookup(key) == Some(DT.Null) ==> DecodeField(d, FieldRequest(key, DecodeIfPresent(wrapped))) == Success(NilValue)
    ensures key in d.row.fields && !d.row.fields[key].Null? ==>
      DecodeField(d, FieldRequest(key, DecodeIfPresent(wrapped))) == DecodeField(d, FieldRequest(key, wrapped))
  {
  }

  /**
   * One shape serves a batch whose Optional `Int` column is absent in some
   * rows and NULL in others: every such row decodes, to nil or to the number.
   */
  lemma OptionalIntColumn(rows: seq<Row>, key: string)
    requires forall k :: 0 <= k < |rows| ==>
      key !in rows[k].fields || rows[k].fields[key].Null? || rows[k].fields[key].Int?
    ensures var r := DecodeRows(rows, Keyed([FieldRequest(key, DecodeIfPresent(Decode(Int)))]));
      && r.Success? && |r.value| == |rows|
      && forall k :: 0 <= k < |rows| ==>
           r.value[k] == Struct([if key in rows[k].fields && rows[k].fields[key].Int?
                                 then IntegerValue(rows[k].fields[key].i) else NilValue])
  {
    var shape := Keyed([FieldRequest(key, DecodeIfPresent(Decode(Int)))]);
    forall k | 0 <= k < |rows|
      ensures DecodeRow(rows[k], shape)
           == Success(Struct([if key in rows[k].fields && rows[k].fields[key].Int?
                              then IntegerValue(rows[k].fields[key].i) else NilValue]))
    {
      var d := Decoder(rows[k], []);
      var field := FieldRequest(key, DecodeIfPresent(Decode(Int)));
      DecodeIfPresentGuard(d, key, Decode(Int));
      var values := DecodeRow(rows[k], shape).value.values;
      assert values == [DecodeField(d, field).value];
    }
  }

  /**
   * `Optional`'s `init(from:)` on this decoder: nil only for a column holding
   * `.bool(true)`. A NULL column is handed to the wrapped primitive, which
   * rejects it as corrupted data.
   */
  lemma SingleValueOptional(d: Decoder, kind: Primitive)
    requires d.codingPath != []
    ensures var key := d.codingPath[|d.codingPath| - 1];
      && (d.row.Lookup(key) == Some(DT.Bool(true)) ==>
            DecodeShape(d, OptionalOf(SingleValue(SingleDecode(kind)))) == Success(NilValue))
      && (d.row.Lookup(key) == Some(DT.Null) ==>
            DecodeShape(d, OptionalOf(SingleValue(SingleDecode(kind)))) == Failure(DataCorrupted(d.codingPath)))
      && (d.row.Lookup(key) != Some(DT.Bool(true)) ==>
            DecodeShape(d, OptionalOf(SingleValue(SingleDecode(kind)))) == SingleDecodeOf(d, kind))
  {
  }

  /**
   * A single-value `decode(Date.self)` runs `Date(from:)`, which asks for a
   * `Double`: a `.date` column is refused and a `.double` column is read as
   * seconds since the reference date.
   */
  lemma SingleValueDateReadsDouble(t: F.Date, x: F.Double)
    ensures var field := FieldRequest("at", DecodeNested(SingleValue(SingleDecodeDate)));
      && DecodeField(Decoder(Row(map["at" := DT.Date(t)]), []), field) == Failure(DataCorrupted(["at"]))
      && DecodeField(Decoder(Row(map["at" := DT.Double(x)]), []), field) == Success(DateValue(F.Date(x)))
  {
    var field := FieldRequest("at", DecodeNested(SingleValue(SingleDecodeDate)));
    var nested1 := Decoder(Row(map["at" := DT.Date(t)]), ["at"]);
    var nested2 := Decoder(Row(map["at" := DT.Double(x)]), ["at"]);
    assert nested1.codingPath[|nested1.codingPath| - 1] == "at";
    assert nested2.codingPath[|nested2.codingPath| - 1] == "at";
    assert [] + ["at"] == ["at"];
    assert DecodeShape(nested1, SingleValue(SingleDecodeDate)) == DecodeSingle(nested1, SingleDecodeDate);
    assert DecodeShape(nested2, SingleValue(SingleDecodeDate)) == DecodeSingle(nested2, SingleDecodeDate);
  }

  /** The `Date` overload, had it been reachable, reads the `.date` column of the same row. */
  lemma SingleDateOverloadReadsDate(t: F.Date)
    ensures SingleDecodeDateOf(Decoder(Row(map["at" := DT.Date(t)]), ["at"])) == Success(DateValue(t))
  {
    var d := Decoder(Row(map["at" := DT.Date(t)]), ["at"]);
    assert d.codingPath[|d.codingPath| - 1] == "at";
  }

  /** True of shapes made of keyed containers only, which never look at the coding path. */
  predicate KeyedOnly(shape: Shape)
    decreases shape
  {
    match shape
    case Keyed(fields) => forall k :: 0 <= k < |fields| ==> RequestKeyedOnly(fields[k].request)
    case SingleValue(_) => false
    case OptionalOf(_) => false
    case Unkeyed => true
  }

  predicate RequestKeyedOnly(request: KeyedRequest)
    decreases request
  {
    match request
    case DecodeNested(shape) => KeyedOnly(shape)
    case DecodeIfPresent(wrapped) => RequestKeyedOnly(wrapped)
    case _ => true
  }

  /** A shape of keyed containers decodes to the same values at any coding path. */
  lemma {:induction false} KeyedShapePathIndependent(row: Row, path1: CodingPath, path2: CodingPath, shape: Shape)
    requires KeyedOnly(shape)
    ensures DecodeShape(Decoder(row, path1), shape).Success? == DecodeShape(Decoder(row, path2), shape).Success?
    ensures DecodeShape(Decoder(row, path1), shape).Success? ==>
      DecodeShape(Decoder(row, path1), shape).value == DecodeShape(Decoder(row, path2), shape).value
    decreases shape
  {
    if shape.Keyed? {
      var fields := shape.fields;
      forall k | 0 <= k < |fields|
        ensures DecodeField(Decoder(row, path1), fields[k]).Success? == DecodeField(Decoder(row, path2), fields[k]).Success?
        ensures DecodeField(Decoder(row, path1), fields[k]).Success? ==>
          DecodeField(Decoder(row, path1), fields[k]).value == DecodeField(Decoder(row, path2), fields[k]).value
      {
        KeyedFieldPathIndependent(row, path1, path2, fields[k].key, fields[k].request);
      }
      var r1, r2 := DecodeShape(Decoder(row, path1), shape), DecodeShape(Decoder(row, path2), shape);
      if r1.Success? {
        assert r1.value.values == r2.value.values;
      }
    }
  }

  lemma {:induction false} KeyedFieldPathIndependent(row: Row, path1: CodingPath, path2: CodingPath, key: string, request: KeyedRequest)
    requires RequestKeyedOnly(request)
    ensures DecodeField(Decoder(row, path1), FieldRequest(key, request)).Success?
         == DecodeField(Decoder(row, path2), FieldRequest(key, request)).Success?
    ensures DecodeField(Decoder(row, path1), FieldRequest(key, request)).Success? ==>
      DecodeField(Decoder(row, path1), FieldRequest(key, request)).value
        == DecodeField(Decoder(row, path2), FieldRequest(key, request)).value
    decreases request
  {
    match request
    case DecodeNested(shape) =>
      KeyedShapePathIndependent(row, path1 + [key], path2 + [key], shape);
    case DecodeIfPresent(wrapped) =>
      KeyedFieldPathIndependent(row, path1, path2, key, wrapped);
    case _ =>
  }

  /**
   * A nested struct re-reads the same row at the extended path: as a field it
   * decodes to exactly what the same shape decodes to at the root.
   */
  lemma NestedStructReadsSameRow(row: Row, path: CodingPath, key: string, shape: Shape)
    requires KeyedOnly(shape)
    ensures DecodeField(Decoder(row, path), FieldRequest(key, DecodeNested(shape))).Success?
      == DecodeRow(row, shape).Success?
    ensures DecodeRow(row, shape).Success? ==>
      DecodeField(Decoder(row, path), FieldRequest(key, DecodeNested(shape))) == DecodeRow(row, shape)
  {
    KeyedShapePathIndependent(row, path + [key], [], shape);
  }
}
