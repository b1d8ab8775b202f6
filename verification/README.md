# SwiftgreSQL value marshalling, modelled in Dafny

This project models the value-marshalling layer of SwiftgreSQL, a PostgreSQL
client library written in Swift. It covers four parts:

- `PostgresDataType`, the tagged value that travels between Swift and the
  server. This includes its narrowing accessors, the
  `PostgresDataTypeConvertible` conformances, `convertToBinding`, and the
  rendering of values as elements of a PostgreSQL array literal (PostgreSQL
  documentation, section 8.15.6 "Array Value Input"; bytea hex format,
  section 8.4.1).
- `Bind`, a query parameter as libpq receives it: a buffer (or none for SQL
  NULL), a length, an optional type tag and a text/binary format.
- `Row`, an immutable map from column name to value.
- The row decoder, which reads a row into a Swift `Decodable` value.

## Layout

| file | module | contents |
|---|---|---|
| `wrappers.dfy` | `Wrappers` | `Option` and `Result` |
| `foundation.dfy` | `Foundation` | Swift and Foundation basics: `UInt8`/`Int8` reinterpretation, UTF-8, `Int.description`, and the `Platform` record of conversions taken as given |
| `binary_utils.dfy` | `BinaryUtils` | Big-endian bytes, two's complement, lowercase hex pairs |
| `postgres_data_type.dfy` | `DataType` | `PostgresDataType`, its accessors, conversions and array-literal renderer, plus a reference reader for one-dimensional array literals |
| `binding.dfy` | `Binding` | The `Bind` class and one specification function per initializer |
| `row.dfy` | `Rows` | `Row` and its subscript |
| `row_decoder.dfy` | `RowDecoding` | The decoder's keyed and single-value containers, driven by an explicit schema |

### Modelling choices

- **Binding buffers.** `Bind` is a class whose fields are constants, as in
  Swift. The buffer is an `array`. The convenience initializers fill it,
  copying byte strings in loops. Every convenience initializer is proved to
  produce the `BindingValue` given by its specification function. The
  designated initializer only stores its arguments. The `ownsMemory` flag is
  kept as a ghost constant.
- **Doubles and dates.** A `Double` is represented by its IEEE-754 bit
  pattern. A `Date` is its `timeIntervalSinceReferenceDate`. The model takes
  as inputs the conversions it cannot compute itself, gathered in the
  `Platform` record:
  - `Double.description`;
  - the `timestamptz` formatter;
  - `Int64(interval * 1_000_000)` and `Float64(interval)`;
  - the size of `Int`.
- **Decodable types.** Swift's reflective `Decodable` is replaced by a
  `Shape`, which describes the container requests that a type's
  `init(from:)` makes:
  - keyed requests, one per field, made in order;
  - a single-value request;
  - `Optional`'s `init(from:)`, which calls the wrapped type only when the
    single-value `decodeNil()` is false;
  - a request for an unkeyed container.

  A keyed field may be `decodeIfPresent`, the standard library's default that
  synthesized code uses for an `Optional` property. It answers nil unless
  `contains(key)` is true and `decodeNil(forKey:)` is false, and otherwise
  makes the wrapped request. So one shape covers rows whose optional column
  is present, NULL or absent. Decoding a shape answers each request as the
  Swift containers answer it, including Swift's dispatch rules. The one
  exception is that column names are compared as sequences of Unicode
  scalars (see "Left out"). A
  single-value `decode(Date.self)` reaches Foundation's `Date(from:)`, which
  asks for a `Double`, and never reaches the `Date` overload (see Findings).
- **Traps.** Runtime traps are a separate error, `Trapped`, which no `try`
  catches. The traps are:
  - an integer narrowing out of range;
  - `fatalError` in `unkeyedContainer()`;
  - `codingPath.last!` on an empty path.

  The single-value `decodeNil` catches ordinary errors but lets traps
  through.
- **Quirks kept as written.** The model reproduces three behaviours of the
  Swift code exactly:
  - The string binding's length counts the terminating 0.
  - The single-value `decodeNil()` is true only for `.bool(true)`, so a
    single-value `Optional` is nil only for `.bool(true)`. A NULL column is
    handed to the wrapped type, which rejects it.
  - Keyed `decodeNil` throws for an absent key.

## Model

| member | source | states |
|---|---|---|
| DataType.PostgresDataType.StringValue | Sources/SwiftgreSQL/Bind/PostgresDataType.swift:63-68 | `string` is non-nil exactly for `.string`, and then holds its payload |
| DataType.PostgresDataType.IntValue | Sources/SwiftgreSQL/Bind/PostgresDataType.swift:70-75 | `int` is non-nil exactly for `.int`, and then holds its payload |
| DataType.PostgresDataType.DoubleValue | Sources/SwiftgreSQL/Bind/PostgresDataType.swift:77-82 | `double` is non-nil exactly for `.double`, and then holds its payload |
| DataType.PostgresDataType.IsNull | Sources/SwiftgreSQL/Bind/PostgresDataType.swift:84-90 | `isNull` holds exactly for `.null` |
| DataType.PostgresDataType.BytesValue | Sources/SwiftgreSQL/Bind/PostgresDataType.swift:91-96 | `bytes` is non-nil exactly for `.bytes`, and then holds its payload |
| DataType.PostgresDataType.BoolValue | Sources/SwiftgreSQL/Bind/PostgresDataType.swift:98-103 | `bool` is non-nil exactly for `.bool`, and then holds its payload |
| DataType.PostgresDataType.ArrayValue | Sources/SwiftgreSQL/Bind/PostgresDataType.swift:105-110 | `array` is non-nil exactly for `.array`, and then holds its elements |
| DataType.PostgresDataType.DateValue | Sources/SwiftgreSQL/Bind/PostgresDataType.swift:112-117 | `date` is non-nil exactly for `.date`, and then holds its payload |
| DataType.ExactlyOneView | Sources/SwiftgreSQL/Bind/PostgresDataType.swift:63-117 | Every value answers exactly one of the eight views, and for `.null` every payload accessor is nil |
| DataType.ConvertToPostgresType | Sources/SwiftgreSQL/Bind/PostgresDataType.swift:25-59 | Scalars are wrapped in their matching tag. An array becomes an `.array` of the same length whose element k is the conversion of element k |
| DataType.ConvertedHasNoNullOrBool | Sources/SwiftgreSQL/Bind/PostgresDataType.swift:21-59 | No conformance produces `.null` or `.bool` at any depth |
| DataType.ConvertToPostgresTypeInjective | Sources/SwiftgreSQL/Bind/PostgresDataType.swift:25-59 | Conversion is injective: distinct Swift values, nested arrays included, never become the same `PostgresDataType` |
| DataType.ReplacingOccurrences | Sources/SwiftgreSQL/Bind/PostgresDataType.swift:160-162 | After replacing a character by a text that does not contain it, the character no longer occurs |
| DataType.EscapeBodyIsEscaped | Sources/SwiftgreSQL/Bind/PostgresDataType.swift:159-163 | Doubling `\` first and then escaping `"` puts a backslash before each `\` and `"` exactly once |
| DataType.StringElementRoundTrip | Sources/SwiftgreSQL/Bind/PostgresDataType.swift:159-163 | A string element is the quoted escaped body, and unescaping it up to the closing quote recovers the string |
| DataType.ScalarElements | Sources/SwiftgreSQL/Bind/PostgresDataType.swift:143-154 | `.null` renders as `NULL`, `.bool` as `t`/`f`, and `.int` as decimal text that reads back as the same integer |
| DataType.BytesElement | Sources/SwiftgreSQL/Bind/PostgresDataType.swift:146-148 | A bytes element is the quoted, escaped `\x` followed by hex pairs; it has 2n+5 characters, and empty data gives `"\\x"` |
| DataType.BytesElementExample | Sources/SwiftgreSQL/Bind/PostgresDataType.swift:146-148 | The bytes 00 12 00 render as `"\\x001200"` |
| DataType.ElementString | Sources/SwiftgreSQL/Bind/PostgresDataType.swift:141-171 | `.null` renders as the bare `NULL`. String and bytes elements are enclosed in double quotes, and array elements in braces |
| DataType.Join | Sources/SwiftgreSQL/Bind/PostgresDataType.swift:166 | `joined(separator:)` of no parts is empty, and of one part is that part |
| DataType.JoinLength | Sources/SwiftgreSQL/Bind/PostgresDataType.swift:166 | A join is as long as its parts plus one separator between each two of them |
| DataType.JoinAppend | Sources/SwiftgreSQL/Bind/PostgresDataType.swift:166 | Joining one more part adds exactly one separator and that part at the end |
| DataType.ArrayLiteral | Sources/SwiftgreSQL/Bind/PostgresDataType.swift:165-167 | An array literal starts with `{` and ends with `}` |
| DataType.ElementStrings | Sources/SwiftgreSQL/Bind/PostgresDataType.swift:165-167 | Nested elements are rendered one per array element |
| DataType.ArrayLiteralStructure | Sources/SwiftgreSQL/Bind/PostgresDataType.swift:165-167 | An empty array gives `{}`, a singleton gives `{e}`, and longer arrays separate elements by commas with none trailing |
| DataType.TwoDimensionalExample | Sources/SwiftgreSQL/Bind/PostgresDataType.swift:165-167 | `[[1,2],[3,4]]` renders as `{{1,2},{3,4}}` |
| DataType.NullElementExample | Sources/SwiftgreSQL/Bind/PostgresDataType.swift:141-167 | `[1, NULL, 3]` renders as `{1,NULL,3}` |
| DataType.ReadElementOf | Sources/SwiftgreSQL/Bind/PostgresDataType.swift:141-163 | A rendered NULL, int, bool, text or bytea element is read back as the same value by an element reader that follows the PostgreSQL grammar |
| DataType.ArrayLiteralRoundTrip | Sources/SwiftgreSQL/Bind/PostgresDataType.swift:141-171 | Rendering a one-dimensional array of one element type (NULLs allowed) and reading the literal back gives the same elements, in order |
| Foundation.Int8BitPattern | Sources/SwiftgreSQL/Bind/Bind.swift:162 | `Int8(bitPattern:)` is undone by `UInt8(bitPattern:)` |
| Foundation.Int8s | Sources/SwiftgreSQL/Bind/Bind.swift:160-163 | Reinterpreting bytes as `Int8` keeps the length and is undone byte by byte |
| Foundation.Utf8RoundTrip | Sources/SwiftgreSQL/Bind/Bind.swift:72 | Decoding the UTF-8 encoding of a string gives back the string |
| Foundation.Utf8DecodeExact | Sources/SwiftgreSQL/RowDecoder.swift:230 | Bytes that decode as UTF-8 are exactly the encoding of the decoded string |
| Foundation.ValidUtf8Iff | Sources/SwiftgreSQL/RowDecoder.swift:230 | `String(data:encoding: .utf8)` succeeds exactly on the encodings of strings |
| Foundation.ParseIntDescription | Sources/SwiftgreSQL/Bind/PostgresDataType.swift:153-154 | `Int.description` reads back as the same integer |
| BinaryUtils.BigEndianRoundTrip | Sources/SwiftgreSQL/Bind/Bind.swift:113-115 | Writing an unsigned value in big-endian order is a bijection onto byte strings of that width |
| BinaryUtils.TwosComplement | Sources/SwiftgreSQL/Bind/Bind.swift:113 | The two's complement bits of a signed value fit the width, and the top half of the range holds exactly the negative values |
| BinaryUtils.SignedBigEndianRoundTrip | Sources/SwiftgreSQL/Bind/Bind.swift:113-115 | The bytes of `int.bigEndian` read back as the same signed integer |
| BinaryUtils.HexString | Sources/SwiftgreSQL/Bind/PostgresDataType.swift:147 | Hex text has two characters per byte, all lowercase hex digits |
| BinaryUtils.ParseHexString | Sources/SwiftgreSQL/Bind/PostgresDataType.swift:147 | Hex pairs read back as the original bytes |
| Binding.Format.RawValue | Sources/SwiftgreSQL/Bind/Bind.swift:23-26 | `.string` has raw value 0 and `.binary` has raw value 1 |
| Binding.NullBinding | Sources/SwiftgreSQL/Bind/Bind.swift:57-66 | NULL has no buffer, length 0, no type and format `.string` |
| Binding.StringBinding | Sources/SwiftgreSQL/Bind/Bind.swift:71-81 | The buffer holds the UTF-8 bytes and a terminating 0. The length is the buffer's size, which counts that 0. No type, text format |
| Binding.BoolBinding | Sources/SwiftgreSQL/Bind/Bind.swift:86-91 | One byte, which is 1 exactly for true and 0 exactly for false, tagged `bool`, binary |
| Binding.IntBinding | Sources/SwiftgreSQL/Bind/Bind.swift:96-116 | The length is the buffer's size. On widths 2/4/8 it is the width, with the matching integer tag and binary format. Otherwise the binding is untyped text |
| Binding.UIntBinding | Sources/SwiftgreSQL/Bind/Bind.swift:121-131 | A `UInt` at or above `Int.max` binds as `Int.max`; a smaller one binds as itself |
| Binding.DoubleBinding | Sources/SwiftgreSQL/Bind/Bind.swift:136-154 | Eight bytes, tagged float8, binary |
| Binding.DataBinding | Sources/SwiftgreSQL/Bind/Bind.swift:159-166 | As many bytes as the data, untyped, binary |
| Binding.DateBinding | Sources/SwiftgreSQL/Bind/Bind.swift:171-186 | Eight bytes, tagged timestamptz, binary, in both datetime representations |
| Binding.ArrayBinding | Sources/SwiftgreSQL/Bind/Bind.swift:191-195 | Untyped text whose length is the UTF-8 length of the array literal plus the terminating 0 |
| Binding.BindingOf | Sources/SwiftgreSQL/Bind/PostgresDataType.swift:120-139 | Each tag fixes the type and the format: bool, float8 and timestamptz are binary, `.int` gets the platform's integer tag, bytes are untyped binary, and strings, arrays and NULL are untyped text |
| Binding.IntFieldType | Sources/SwiftgreSQL/Bind/Bind.swift:99-111 | An integer type tag exists exactly for widths 2, 4 and 8 |
| Binding.IntMax | Sources/SwiftgreSQL/Bind/Bind.swift:123-124 | `Int.max` is the largest integer that fits the platform's `Int` |
| Binding.TimestampBytes | Sources/SwiftgreSQL/Bind/Bind.swift:171-186 | A timestamp is always 8 bytes, in either datetime representation |
| Binding.BindingLength | Sources/SwiftgreSQL/Bind/Bind.swift:30-39 | Only NULL has no buffer, a NULL binding has length 0, no type and text format, and otherwise the length is the buffer's size |
| Binding.StringBindingContents | Sources/SwiftgreSQL/Bind/Bind.swift:71-81 | The buffer is the UTF-8 bytes plus one 0 byte, and the length counts that 0. The bytes before it decode back to the string, the type is nil and the format is `.string` |
| Binding.IntBindingRoundTrip | Sources/SwiftgreSQL/Bind/Bind.swift:96-116 | On widths 2/4/8 the tag is int2/int4/int8, the length is the width, and the big-endian two's-complement bytes read back as the integer |
| Binding.IntBindingFallback | Sources/SwiftgreSQL/Bind/Bind.swift:107-110 | On other widths the binding equals the string binding of the decimal text, which reads back as the integer |
| Binding.UIntBindingClamp | Sources/SwiftgreSQL/Bind/Bind.swift:121-131 | On widths 2/4/8 the bytes of a `UInt` binding read back as the value clamped to `Int.max` |
| Binding.DataBindingContents | Sources/SwiftgreSQL/Bind/Bind.swift:159-166 | The length is `data.count`, byte i is `data[i]` reinterpreted as signed, the bytes read back as the data, the type is nil and the format is binary |
| Binding.ArrayBindingLiteral | Sources/SwiftgreSQL/Bind/Bind.swift:191-195 | An array binds as the string binding of its array literal |
| Binding.FixedWidthBindings | Sources/SwiftgreSQL/Bind/Bind.swift:136-186 | Doubles and dates bind as 8 binary bytes tagged float8 or timestamptz. The bytes read back as the double's bits, the microseconds, or the seconds' bits |
| Binding.DefaultConfigurationDates | Sources/SwiftgreSQL/Bind/PostgresDataType.swift:120 | The default configuration has integer datetimes, so a date binds as microseconds |
| Binding.CopyToNewBuffer | Sources/SwiftgreSQL/Bind/Bind.swift:75-78 | A fresh buffer is filled element by element with the given contents |
| Binding.CopyDataToNewBuffer | Sources/SwiftgreSQL/Bind/Bind.swift:160-163 | A fresh buffer holds each byte reinterpreted as `Int8` |
| Binding.IntegerBuffer | Sources/SwiftgreSQL/Bind/Bind.swift:96-116 | A fresh buffer, type and format that together are the int binding |
| Binding.Bind.Length | Sources/SwiftgreSQL/Bind/Bind.swift:35-39 | `length` is 0 without a buffer, and otherwise the size of the buffer's memory |
| Binding.Bind.Value | Sources/SwiftgreSQL/Bind/Bind.swift:30-47 | `bytes` is nil exactly without a buffer and otherwise the buffer's contents. Its length matches `length`, and the type and format are the stored ones |
| Binding.Bind.constructor | Sources/SwiftgreSQL/Bind/Bind.swift:197-206 | The designated initializer stores the pointer, length, ownership, type, format and configuration |
| Binding.Bind.Null | Sources/SwiftgreSQL/Bind/Bind.swift:57-66 | No buffer, `length` 0, a nil type and format `.string` |
| Binding.Bind.FromString | Sources/SwiftgreSQL/Bind/Bind.swift:71-81 | A fresh buffer that owns its memory and whose value is the string binding |
| Binding.Bind.FromBool | Sources/SwiftgreSQL/Bind/Bind.swift:86-91 | A fresh one-byte buffer whose value is the bool binding |
| Binding.Bind.FromInt | Sources/SwiftgreSQL/Bind/Bind.swift:96-116 | A fresh buffer whose value is the int binding for the platform's `Int` width |
| Binding.Bind.FromUInt | Sources/SwiftgreSQL/Bind/Bind.swift:121-131 | A fresh buffer whose value is the clamped int binding |
| Binding.Bind.FromDouble | Sources/SwiftgreSQL/Bind/Bind.swift:136-154 | A fresh buffer whose value is the float8 binding of the bit pattern |
| Binding.Bind.FromData | Sources/SwiftgreSQL/Bind/Bind.swift:159-166 | A fresh buffer whose value is the data binding |
| Binding.Bind.FromDate | Sources/SwiftgreSQL/Bind/Bind.swift:171-186 | A fresh buffer whose value is the timestamptz binding in the configured representation |
| Binding.Bind.FromArray | Sources/SwiftgreSQL/Bind/Bind.swift:191-195 | A fresh buffer whose value is the string binding of the array literal |
| Binding.ConvertToBinding | Sources/SwiftgreSQL/Bind/PostgresDataType.swift:120-139 | Each tag goes to its own initializer, and the new binding's value is that initializer's binding |
| Rows.Row.Lookup | Sources/SwiftgreSQL/Bind/Row.swift:13-15 | A present key gives exactly the stored value; an absent key gives nil and never fails |
| Rows.StoredNullIsPresent | Sources/SwiftgreSQL/Bind/Row.swift:11-15 | A stored `.null` gives `Some(.null)`, which differs from what an absent key gives |
| RowDecoding.Extract | Sources/SwiftgreSQL/RowDecoder.swift:68-164 | A tag mismatch gives the corrupted-data error. An out-of-range narrowing traps. Otherwise the result is the payload |
| RowDecoding.KeyedValue | Sources/SwiftgreSQL/RowDecoder.swift:53-58 | Success exactly for a present key, holding its value; otherwise `keyNotFound(key, containerPath)` |
| RowDecoding.KeyedContains | Sources/SwiftgreSQL/RowDecoder.swift:60-62 | `contains` holds exactly when the row has the column |
| RowDecoding.AllKeys | Sources/SwiftgreSQL/RowDecoder.swift:49-51 | `allKeys` holds exactly the keys that `contains` accepts |
| RowDecoding.KeyedDecodeNil | Sources/SwiftgreSQL/RowDecoder.swift:64-66 | True exactly for `.null`; an absent key still throws `keyNotFound` |
| RowDecoding.KeyedDecode | Sources/SwiftgreSQL/RowDecoder.swift:68-164 | An absent key gives `keyNotFound`; otherwise the stored value is read with corrupted data reported at `path + [key]` |
| RowDecoding.KeyedDecodeDate | Sources/SwiftgreSQL/RowDecoder.swift:166-172 | Succeeds exactly for a `.date` column; otherwise `keyNotFound` or corrupted data at `path + [key]` |
| RowDecoding.KeyedNestedContainer | Sources/SwiftgreSQL/RowDecoder.swift:178-184 | Nested containers always fail with corrupted data at `path + [key]` |
| RowDecoding.LastKey | Sources/SwiftgreSQL/RowDecoder.swift:205-207 | The last key of the coding path; an empty path traps |
| RowDecoding.ValueForLastKey | Sources/SwiftgreSQL/RowDecoder.swift:209-214 | The keyed lookup of the last key, with `keyNotFound` at the container's path |
| RowDecoding.SingleDecodeNilOf | Sources/SwiftgreSQL/RowDecoder.swift:216-218 | True exactly when the last key holds `.bool(true)`; an empty path traps |
| RowDecoding.SingleDecodeOf | Sources/SwiftgreSQL/RowDecoder.swift:220-319 | Reads the last key's value like the keyed container, with corrupted data at the container's path. A `String` returns a `.string` column's own text, and the decoded text of `.bytes` exactly when they are valid UTF-8 |
| RowDecoding.SingleDecodeDateOf | Sources/SwiftgreSQL/RowDecoder.swift:321-326 | The `Date` overload, which no call reaches, succeeds exactly for a `.date` in the last key's column |
| RowDecoding.DateFromDecoder | Sources/SwiftgreSQL/RowDecoder.swift:237-242 | `Date(from:)` on this decoder succeeds exactly for a `.double` column, giving that many seconds since the reference date; any other column is corrupted data at the container's path |
| RowDecoding.DecodeShape | Sources/SwiftgreSQL/RowDecoder.swift:333-343 | A keyed shape succeeds exactly when every field request does, and gives one value per field, in order. An `Optional` is nil for `.bool(true)` and traps at the root. An unkeyed container traps |
| RowDecoding.DecodeFields | Sources/SwiftgreSQL/RowDecoder.swift:39-194 | One value per field, in order, when every request succeeds; otherwise the error of the first failing request |
| RowDecoding.DecodeField | Sources/SwiftgreSQL/RowDecoder.swift:60-184 | `contains` answers presence. `decodeNil` answers NULL-ness of a present column. Reads of an absent column give `keyNotFound` at the container's path. `decodeIfPresent` is nil for an absent or NULL column. Nested containers are corrupted data at `path + [key]` |
| RowDecoding.DecodeSingle | Sources/SwiftgreSQL/RowDecoder.swift:216-330 | At an empty path every request except a nested type traps. `decodeNil` is true exactly for `.bool(true)`. `decode(Date.self)` succeeds exactly on a `.double` column |
| RowDecoding.DecodeRow | Sources/SwiftgreSQL/RowDecoder.swift:10-14 | A keyed shape succeeds exactly when every field decodes at the empty path. Single-value reads and `Optional` trap at the root, and so does an unkeyed container |
| RowDecoding.DecodeRows | Sources/SwiftgreSQL/RowDecoder.swift:16-22 | One result per row, in order, when every row decodes; otherwise the error of the first row that fails |
| RowDecoding.KeyedDecodeMatchesTag | Sources/SwiftgreSQL/RowDecoder.swift:68-101 | Bool, String, Double and Int succeed exactly on the matching tag, returning the payload. A String never accepts `.bytes`, and a mismatch is corrupted data |
| RowDecoding.NarrowingDecode | Sources/SwiftgreSQL/RowDecoder.swift:103-164 | Int8 through UInt64 return the same number when it is in range and trap otherwise |
| RowDecoding.NestedContainersRefused | Sources/SwiftgreSQL/RowDecoder.swift:178-184 | Nested keyed and unkeyed containers always fail, and an unkeyed container traps |
| RowDecoding.NestedSingleValueReadsKey | Sources/SwiftgreSQL/RowDecoder.swift:166-176 | A nested single-value primitive reads the field's own column as the keyed container would, reporting a missing column at `path + [key]` |
| RowDecoding.SingleValueStringAcceptsUtf8 | Sources/SwiftgreSQL/RowDecoder.swift:227-235 | A single-value String accepts `.bytes` exactly when they are valid UTF-8, decoding the encoded string |
| RowDecoding.RootSingleValueTraps | Sources/SwiftgreSQL/RowDecoder.swift:205-207 | At the root the path is empty, so single-value requests on a column trap |
| RowDecoding.DecodeIfPresentGuard | Sources/SwiftgreSQL/RowDecoder.swift:60-66 | `decodeIfPresent` is nil for an absent or NULL column, and otherwise exactly the wrapped request, errors included |
| RowDecoding.OptionalIntColumn | Sources/SwiftgreSQL/RowDecoder.swift:16-22 | One shape decodes a batch whose optional `Int` column is absent, NULL or an integer in each row, giving nil or the number for each row, in order |
| RowDecoding.SingleValueOptional | Sources/SwiftgreSQL/RowDecoder.swift:216-218 | A single-value `Optional` is nil for `.bool(true)`. A NULL column is rejected as corrupted data. Any other column is the wrapped primitive's read |
| RowDecoding.SingleValueDateReadsDouble | Sources/SwiftgreSQL/RowDecoder.swift:321-330 | A type that reads `decode(Date.self)` from a single-value container fails on a `.date` column and reads a `.double` column as a date |
| RowDecoding.SingleDateOverloadReadsDate | Sources/SwiftgreSQL/RowDecoder.swift:321-326 | The overload as written would read the same `.date` column as its date |
| RowDecoding.KeyedFieldPathIndependent | Sources/SwiftgreSQL/RowDecoder.swift:166-176 | A keyed-only field request gives the same values at any coding path |
| RowDecoding.KeyedShapePathIndependent | Sources/SwiftgreSQL/RowDecoder.swift:166-176 | A shape of keyed containers decodes to the same values at any coding path |
| RowDecoding.NestedStructReadsSameRow | Sources/SwiftgreSQL/RowDecoder.swift:173-175 | A nested struct re-reads the same row at `path + [key]`, giving what the same shape gives at the root |

## Findings

| source | as written | input that shows it | evidently intended | confidence | as-written member | corrected member |
|---|---|---|---|---|---|---|
| Sources/SwiftgreSQL/RowDecoder.swift:321-326 | `decode(_: Date.Type)` is not a requirement of `SingleValueDecodingContainer`. `singleValueContainer()` (lines 341-343) returns the protocol type, so `decode(Date.self)` goes to the generic `decode<T>` (lines 328-330), which runs `Date(from:)`, and that asks for a `Double` | the row `["at": .date(t)]` and a type whose `init(from:)` reads `singleValueContainer().decode(Date.self)`, decoded as field `at`: corrupted data at `["at"]`. A `.double(x)` column gives a date `x` seconds after the reference date | a `.date` column decodes to its date, as the overload reads it | high; not executed | RowDecoding.SingleValueDateReadsDouble | RowDecoding.SingleDecodeDateOf |

The decoder model follows the program as it runs. `DecodeSingle` uses
`DateFromDecoder`, and `SingleDecodeDateOf` keeps the intended reading beside
it, with `SingleDateOverloadReadsDate` showing it on the same row.

## Left out

- Connections, query execution, transactions and LISTEN/NOTIFY are not modelled. They are libpq calls through `CPostgreSQL`.
- Memory management is not modelled: `SmartPointer`'s `deinit`/`deallocate` and the `Result`-bound initializer (Bind.swift:4-19, 208-217). Ownership survives only as the ghost `ownsMemory` flag, which every convenience initializer sets.
- The float4 and text branches of `init(double:)` are not modelled. A Swift `Double` is always 8 bytes, so those branches are unreachable and only the float8 branch is modelled.
- The floating-point conversions are inputs of the model, not computed by it. `Double.description`, `Float(double)`, the `timestamptz` formatter and the date arithmetic `Int64(interval * 1_000_000)` / `Float64(interval)` come from the `Platform` record. A `Float` decode returns the `Double` it converts.
- The trap of `Int64(interval * 1_000_000)` on out-of-range dates is not modelled. The platform conversion always yields an `Int64`.
- Foundation's treatment of a leading byte-order mark in `String(data:encoding:)` is not modelled. Decoding here is strict UTF-8 as in RFC 3629.
- `replacingOccurrences` is modelled on Unicode scalars, not on grapheme clusters.
- Rows.Row.Lookup, KeyedValue, KeyedContains, ValueForLastKey: column names are matched as exact sequences of Unicode scalars, not up to Unicode canonical equivalence as Swift's `String` dictionary keys are. A column stored as "caf\u{E9}" is therefore absent under the key "cafe\u{301}" here, but found in Swift. The model has no Unicode normalization.
- The payloads of `.int` and `Convertible.SwiftInt` are unbounded integers, not the platform's `Int`. Values wider than `Int` cannot arise in Swift. `Binding.Bindable` requires the platform width wherever binding depends on it. On such unreachable values, the narrowing decodes only extend the model's behaviour.
- Codable machinery is replaced by the explicit `Shape`: `userInfo`, `superDecoder`, `Key(stringValue:)` (every column name is accepted as a key) and the reflective `T(from:)`.
- A hand-written `init(from:)` that chooses its requests from earlier answers is not modelled. Examples are branching on `contains` or on a decoded value. The only conditional requests modelled are the standard library's `decodeIfPresent` and `Optional`'s `init(from:)`.
- Error `debugDescription` texts are not modelled.
- `PostgresDataType`'s `Equatable` conformance compares doubles by bit pattern here, so NaN equals itself and 0.0 differs from -0.0.
- The `timestamptz` rendering of date array elements is left uninterpreted. The array reader covers one-dimensional arrays of int, bool, text and bytea elements only.
