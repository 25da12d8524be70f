/** Values shared by every part of the slice-to-struct engine: the error
    kinds, the dynamic values a destination field can hold, the parts of
    Go's standard library the model leaves abstract, and the argument record
    every converter receives. */
module Types {

  datatype Option<T> = None | Some(value: T)

  datatype Result<T> = Ok(value: T) | Err(error: Error)

  /** Why a name-table lookup or the up-front length check rejected the call. */
  datatype ConfigReason =
    | ItemsExceedFieldNames                       // "count items greater then fieldNames"
    | NameNotInTable(name: string)                // "fieldName does not exist on fieldNames"
    | IndexOutOfItems(name: string, index: nat)   // "fieldName index does not exist on slice"

  /** The errors the engine and its converters can return; message text and
      wrapping are not modelled. */
  datatype Error =
    | IndexDoesNotExist                 // ErrIndexDoesNotExist
    | ConfigError(reason: ConfigReason)
    | ConverterDoesNotExist             // ErrConverterDoesNotExist
    | Parse(token: string)              // a rejected integer, float, time or Scan input
    | TypeNotImplemented(typeKey: string)   // the engine's closed fallback switch
    | FieldTypeUnknown(typeKey: string)     // the sql wrapper converter's own switch
    | IndexOutOfRange                   // the run-time panic of the tag parser

  /** Opaque carriers for what float and time parsing produce. */
  datatype Float64 = Float64(bits: int)
  datatype Instant = Instant(unixNano: int)

  /** The payload of a database/sql nullable wrapper. */
  datatype Scalar =
    | IntS(i: int) | FloatS(f: Float64) | StrS(s: string) | BoolS(b: bool) | TimeS(t: Instant)

  /** A sql.Null* value: its payload and its Valid flag. */
  datatype Nullable = Nullable(payload: Scalar, valid: bool)

  /** The time layout used when a field's tags give none (day.month.year). */
  const DefaultTimeLayout := "02.01.2006"

  /** The layout for a time field: its third tag when there is one. */
  function TimeLayout(tags: seq<string>): (layout: string)
    ensures |tags| > 2 ==> layout == tags[2]
    ensures |tags| <= 2 ==> layout == DefaultTimeLayout
  {
    if |tags| > 2 then tags[2] else DefaultTimeLayout
  }

  /** The zero value of sql.NullInt64. */
  const NullInt64Zero := Nullable(IntS(0), false)

  datatype SqlKind =
    | NullInt64 | NullFloat64 | NullString | NullInt32 | NullInt16 | NullByte | NullBool | NullTime

  /** What one field of the destination record holds. `Zero` is the Go zero
      value of the field's declared type, i.e. a field nobody wrote. */
  datatype Value =
    | Zero
    | IntV(i: int)              // int, int64
    | IntPtr(pi: int)           // *int, *int64
    | Str(s: string)
    | StrPtr(ps: string)
    | Float(f: Float64)
    | FloatPtr(pf: Float64)
    | Time(t: Instant)
    | TimePtr(pt: Instant)
    | Sql(kind: SqlKind, n: Nullable)

  /** The library calls whose internals are not modelled: strconv.ParseFloat,
      time.Parse (layout, value) and the Scan method of each sql.Null* type. */
  datatype Library = Library(
    parseFloat: string -> Option<Float64>,
    parseTime: (string, string) -> Option<Instant>,
    scan: (SqlKind, string) -> Option<Nullable>)

  /** The engine's configuration (the Go Params struct, without its
      unexported converter registry). */
  datatype Params = Params(
    replaceCommaToDot: bool,
    returnErrIndexDoesNotExist: bool,
    fieldNames: seq<string>)

  /** The argument of every converter's Set: the caller's item buffer, the
      selected index, the destination (record array and field position),
      the parsed tags, the resolved alias and the declared type key. */
  datatype ConvertValueParams = ConvertValueParams(
    items: array<string>,
    index: nat,
    record: array<Value>,
    field: nat,
    tags: seq<string>,
    fieldName: string,
    fieldType: string)
  {
    predicate InBounds() {
      index < items.Length && field < record.Length
    }
  }

  /** What a converter did: its error, the item buffer afterwards, and the
      value it wrote to the destination (None: destination untouched). */
  datatype SetResult = SetResult(err: Option<Error>, items: seq<string>, dest: Option<Value>)

  /** The record after an optional write to position k. */
  function Written(record: seq<Value>, k: nat, dest: Option<Value>): (r: seq<Value>)
    requires k < |record|
    ensures |r| == |record|
    ensures forall j | 0 <= j < |record| && j != k :: r[j] == record[j]
    ensures r[k] == if dest.Some? then dest.value else record[k]
  {
    if dest.Some? then record[k := dest.value] else record
  }
}
