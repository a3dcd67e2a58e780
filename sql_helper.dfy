/** `SqlHelper.GetDbType`: the SQL Server parameter type a .NET type is bound
    as, looked up in a table filled once by the static constructor. */
module SqlHelper {
  import opened Wrappers
  import opened Values

  /** The members of `System.Data.SqlDbType` the table uses. */
  datatype SqlDbType =
    | NVarChar | TinyInt | SmallInt | Int | BigInt | Image | Bit
    | DateTime2 | DateTimeOffset | Money | Real | Float | Time

  const TypeMap: map<ClrType, SqlDbType> := map[
    StringType := NVarChar,
    CharArrayType := NVarChar,
    ByteType := TinyInt,
    ShortType := SmallInt,
    IntType := Int,
    LongType := BigInt,
    ByteArrayType := Image,
    BoolType := Bit,
    DateTimeType := DateTime2,
    DateTimeOffsetType := DateTimeOffset,
    DecimalType := Money,
    FloatType := Real,
    DoubleType := Float,
    TimeSpanType := Time
  ]

  /** `Nullable.GetUnderlyingType(t) ?? t`. */
  function UnderlyingOrSelf(t: ClrType): (u: ClrType)
    ensures t.NullableOf? ==> u == t.underlying
    ensures !t.NullableOf? ==> u == t
  {
    if t.NullableOf? then t.underlying else t
  }

  /** The mapped type of `giveType`, or of the type it makes nullable;
      `Failure` is the ArgumentException naming the unmapped type. */
  function GetDbType(giveType: ClrType): (r: Result<SqlDbType, ClrType>)
    ensures r.Success? ==>
      || (giveType in TypeMap && r.value == TypeMap[giveType])
      || (giveType.NullableOf? && giveType.underlying in TypeMap && r.value == TypeMap[giveType.underlying])
    ensures r.Failure? ==>
      && r.error !in TypeMap
      && (r.error == giveType || (giveType.NullableOf? && r.error == giveType.underlying))
  {
    var t := UnderlyingOrSelf(giveType);
    if t in TypeMap then Success(TypeMap[t]) else Failure(t)
  }

  /** The fourteen entries: text to NVarChar, the integers by width, and so on. */
  lemma Mappings()
    ensures GetDbType(StringType) == Success(NVarChar) && GetDbType(CharArrayType) == Success(NVarChar)
    ensures GetDbType(ByteType) == Success(TinyInt) && GetDbType(ShortType) == Success(SmallInt)
    ensures GetDbType(IntType) == Success(Int) && GetDbType(LongType) == Success(BigInt)
    ensures GetDbType(ByteArrayType) == Success(Image) && GetDbType(BoolType) == Success(Bit)
    ensures GetDbType(DateTimeType) == Success(DateTime2) && GetDbType(DateTimeOffsetType) == Success(DateTimeOffset)
    ensures GetDbType(DecimalType) == Success(Money) && GetDbType(FloatType) == Success(Real)
    ensures GetDbType(DoubleType) == Success(Float) && GetDbType(TimeSpanType) == Success(Time)
  {
    TextMappings();
    IntegerMappings();
    OtherMappings();
    NumberMappings();
  }

  lemma TextMappings()
    ensures GetDbType(StringType) == Success(NVarChar) && GetDbType(CharArrayType) == Success(NVarChar)
  {
  }

  lemma IntegerMappings()
    ensures GetDbType(ByteType) == Success(TinyInt) && GetDbType(ShortType) == Success(SmallInt)
    ensures GetDbType(IntType) == Success(Int) && GetDbType(LongType) == Success(BigInt)
  {
  }

  lemma OtherMappings()
    ensures GetDbType(ByteArrayType) == Success(Image) && GetDbType(BoolType) == Success(Bit)
    ensures GetDbType(DateTimeType) == Success(DateTime2) && GetDbType(DateTimeOffsetType) == Success(DateTimeOffset)
  {
  }

  lemma NumberMappings()
    ensures GetDbType(DecimalType) == Success(Money) && GetDbType(FloatType) == Success(Real)
    ensures GetDbType(DoubleType) == Success(Float) && GetDbType(TimeSpanType) == Success(Time)
  {
  }

  /** `Nullable<T>` binds as `T` does; `T` is never itself nullable in .NET. */
  lemma NullableLikeUnderlying(t: ClrType)
    requires !t.NullableOf?
    ensures GetDbType(NullableOf(t)) == GetDbType(t)
  {
  }

  /** A type is bound exactly when it, or the type it makes nullable, is in the
      table; `Guid`, `DBNull` and every other type throw. */
  lemma SupportedExactly(t: ClrType)
    ensures GetDbType(t).Success? <==> UnderlyingOrSelf(t) in TypeMap
    ensures GetDbType(GuidType).Failure? && GetDbType(DbNullType).Failure?
    ensures GetDbType(NullableOf(GuidType)) == Failure(GuidType)
    ensures t.NamedType? ==> GetDbType(t) == Failure(t)
  {
  }

  /** The runtime type of a boxed value is never nullable, so a parameter
      value binds by its own type; the exporter's `long` cursor binds as
      BigInt, and a `DateTime` value maps to DateTime2. */
  lemma ParameterBinding(v: Value, cursor: int64, date: Opaque)
    requires !v.NullValue?
    ensures GetDbType(TypeOf(v).value).Success? <==> TypeOf(v).value in TypeMap
    ensures GetDbType(TypeOf(LongValue(cursor)).value) == Success(BigInt)
    ensures GetDbType(TypeOf(DateTimeValue(date)).value) == Success(DateTime2)
  {
  }
}
