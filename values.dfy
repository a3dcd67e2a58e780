/** Runtime values of the exporter as a closed set of type tags: the column
    values a data reader hands over, the .NET types the type maps dispatch on,
    and the typed properties of an Azure table entity (`EntityProperty`,
    `EdmType`). Date/time, floating-point and GUID payloads are opaque tokens:
    the model compares them and prints them, and does no arithmetic on them. */
module Values {
  import opened Wrappers
  import opened Text

  type byte = bv8
  type int32 = x: int | -0x8000_0000 <= x < 0x8000_0000
  type int64 = x: int | -0x8000_0000_0000_0000 <= x < 0x8000_0000_0000_0000

  /** An opaque payload: `order` stands for the payload's place in its type's
      ordering (ticks, for a date), `text` for what `ToString()` prints. */
  datatype Opaque = Opaque(order: int, text: string)

  /** The .NET runtime types that `GetType()`/`typeof` can name in the core.
      `NullableOf(t)` is `Nullable<t>`; `NamedType` is any other type. */
  datatype ClrType =
    | StringType | CharArrayType | ByteType | ShortType | IntType | LongType
    | ByteArrayType | BoolType | DateTimeType | DateTimeOffsetType
    | DecimalType | FloatType | DoubleType | TimeSpanType | GuidType | DbNullType
    | NullableOf(underlying: ClrType)
    | NamedType(fullName: string)

  /** Types a boxed column value can have without its own constructor in `Value`. */
  predicate IsOtherType(t: ClrType) {
    !(t.StringType? || t.ByteArrayType? || t.BoolType? || t.DateTimeType? ||
      t.DateTimeOffsetType? || t.DoubleType? || t.GuidType? || t.IntType? ||
      t.LongType? || t.DbNullType? || t.NullableOf?)
  }

  type OtherType = t: ClrType | IsOtherType(t) witness DecimalType

  /** A column value as an object reference: `NullValue` is a null reference,
      `DbNullValue` is `DBNull.Value`, `OtherValue` a value of any type the
      entity conversion does not know (decimal, short, TimeSpan, ...). */
  datatype Value =
    | NullValue
    | DbNullValue
    | BytesValue(bytes: seq<byte>)
    | BoolValue(flag: bool)
    | DateTimeOffsetValue(offsetTime: Opaque)
    | DateTimeValue(time: Opaque)
    | DoubleValue(double: Opaque)
    | GuidValue(guid: Opaque)
    | IntValue(int32: int32)
    | LongValue(int64: int64)
    | StringValue(str: string)
    | OtherValue(otherType: OtherType, text: string)

  /** `value.GetType()`; a null reference has no type. */
  function TypeOf(v: Value): (t: Option<ClrType>)
    ensures t.None? <==> v.NullValue?
    ensures t.Some? ==> !t.value.NullableOf?
  {
    match v
    case NullValue => None
    case DbNullValue => Some(DbNullType)
    case BytesValue(_) => Some(ByteArrayType)
    case BoolValue(_) => Some(BoolType)
    case DateTimeOffsetValue(_) => Some(DateTimeOffsetType)
    case DateTimeValue(_) => Some(DateTimeType)
    case DoubleValue(_) => Some(DoubleType)
    case GuidValue(_) => Some(GuidType)
    case IntValue(_) => Some(IntType)
    case LongValue(_) => Some(LongType)
    case StringValue(_) => Some(StringType)
    case OtherValue(t, _) => Some(t)
  }

  /** `value.ToString()`; `None` stands for the NullReferenceException a null reference raises. */
  function Display(v: Value): Option<string> {
    match v
    case NullValue => None
    case DbNullValue => Some("")
    case BytesValue(_) => Some("System.Byte[]")
    case BoolValue(b) => Some(if b then "True" else "False")
    case DateTimeOffsetValue(o) => Some(o.text)
    case DateTimeValue(o) => Some(o.text)
    case DoubleValue(o) => Some(o.text)
    case GuidValue(o) => Some(o.text)
    case IntValue(i) => Some(IntToDecimal(i))
    case LongValue(l) => Some(IntToDecimal(l))
    case StringValue(s) => Some(s)
    case OtherValue(_, text) => Some(text)
  }

  /** The storage types of the Azure table service. `UndefinedEdm(code)` is an
      enum variable holding a number that names none of the eight members. */
  datatype EdmType =
    | Binary | Boolean | DateTime | Double | Guid | Int32 | Int64 | String
    | UndefinedEdm(code: int)

  /** A typed entity property. A String property may hold a null string
      (`StringProperty(None)`); every other kind holds a value. */
  datatype EntityProperty =
    | StringProperty(stringValue: Option<string>)
    | BinaryProperty(binaryValue: seq<byte>)
    | BooleanProperty(booleanValue: bool)
    | DateTimeOffsetProperty(offsetValue: Opaque)
    | DateTimeProperty(dateTimeValue: Opaque)
    | DoubleProperty(doubleValue: Opaque)
    | GuidProperty(guidValue: Opaque)
    | Int32Property(int32Value: int32)
    | Int64Property(int64Value: int64)

  /** `EntityProperty.PropertyType`: both date kinds are stored as `EdmType.DateTime`. */
  function PropertyType(p: EntityProperty): EdmType {
    match p
    case StringProperty(_) => String
    case BinaryProperty(_) => Binary
    case BooleanProperty(_) => Boolean
    case DateTimeOffsetProperty(_) => DateTime
    case DateTimeProperty(_) => DateTime
    case DoubleProperty(_) => Double
    case GuidProperty(_) => Guid
    case Int32Property(_) => Int32
    case Int64Property(_) => Int64
  }

  /** A table entity's property bag, `IDictionary<string, EntityProperty>`. */
  type Properties = map<string, EntityProperty>

  /** A row as a data reader yields it, `Dictionary<string, object>`. */
  type Row = map<string, Value>
}
