/** `DynamicObjectTableEntity`: a table entity whose properties are an open
    bag filled at run time, through the dynamic-member hooks (`TryGetMember`,
    `TrySetMember`) or `AddValue`, each value converted to a typed
    `EntityProperty` by a closed dispatch on its runtime type. */
module DynamicEntity {
  import opened Wrappers
  import opened Values
  import opened TableStorage

  /** `ConvertToEntityProperty(key, value)`: null and DBNull become a String
      property holding null; the nine supported types become the property of
      their kind; any other type throws, which `Failure(key)` stands for. */
  function ConvertToEntityProperty(key: string, value: Value): (r: Result<EntityProperty, string>)
    ensures r.Failure? <==> value.OtherValue?
    ensures r.Failure? ==> r.error == key
    ensures value.NullValue? || value.DbNullValue? ==> r == Success(StringProperty(None))
  {
    match value
    case NullValue => Success(StringProperty(None))
    case BytesValue(b) => Success(BinaryProperty(b))
    case BoolValue(b) => Success(BooleanProperty(b))
    case DateTimeOffsetValue(o) => Success(DateTimeOffsetProperty(o))
    case DateTimeValue(o) => Success(DateTimeProperty(o))
    case DoubleValue(o) => Success(DoubleProperty(o))
    case GuidValue(o) => Success(GuidProperty(o))
    case IntValue(i) => Success(Int32Property(i))
    case LongValue(l) => Success(Int64Property(l))
    case StringValue(s) => Success(StringProperty(Some(s)))
    case DbNullValue => Success(StringProperty(None))
    case OtherValue(_, _) => Failure(key)
  }

  /** The boxed value a property carries (`EntityProperty.PropertyAsObject`);
      a String property holding null carries a null reference. */
  function PropertyValue(p: EntityProperty): Value {
    match p
    case StringProperty(None) => NullValue
    case StringProperty(Some(s)) => StringValue(s)
    case BinaryProperty(b) => BytesValue(b)
    case BooleanProperty(b) => BoolValue(b)
    case DateTimeOffsetProperty(o) => DateTimeOffsetValue(o)
    case DateTimeProperty(o) => DateTimeValue(o)
    case DoubleProperty(o) => DoubleValue(o)
    case GuidProperty(o) => GuidValue(o)
    case Int32Property(i) => IntValue(i)
    case Int64Property(l) => LongValue(l)
  }

  /** `GetType(EdmType)`: the .NET type each of the eight storage types is read
      as; any other enum value throws TypeLoadException, which `Failure` stands for. */
  function GetType(edmType: EdmType): (r: Result<ClrType, EdmType>)
    ensures r.Failure? <==> edmType.UndefinedEdm?
  {
    match edmType
    case Binary => Success(ByteArrayType)
    case Boolean => Success(BoolType)
    case DateTime => Success(DateTimeType)
    case Double => Success(DoubleType)
    case Guid => Success(GuidType)
    case Int32 => Success(IntType)
    case Int64 => Success(LongType)
    case String => Success(StringType)
    case UndefinedEdm(_) => Failure(edmType)
  }

  /** A supported non-null value is stored as the property of its own kind,
      carrying the same value, and reads back as itself. */
  lemma ConvertPreservesValue(key: string, v: Value)
    requires !v.NullValue? && !v.DbNullValue? && !v.OtherValue?
    ensures ConvertToEntityProperty(key, v).Success?
    ensures PropertyValue(ConvertToEntityProperty(key, v).value) == v
  {
  }

  /** The stored property's storage type is read back as the value's own .NET
      type, except that a DateTimeOffset is read back as DateTime and null or
      DBNull as string. */
  lemma ConvertPreservesType(key: string, v: Value)
    requires !v.OtherValue?
    ensures var t := GetType(PropertyType(ConvertToEntityProperty(key, v).value));
      && t.Success?
      && t.value == if v.NullValue? || v.DbNullValue? then StringType
                    else if v.DateTimeOffsetValue? then DateTimeType
                    else TypeOf(v).value
  {
  }

  /** Every property a conversion can produce has one of the eight storage types. */
  lemma PropertyTypesAreReadable(p: EntityProperty)
    ensures GetType(PropertyType(p)).Success?
  {
  }

  /** The default `DateTime`, which `ProcessCursorPoint` holds until it is assigned. */
  const MinDateTime: Opaque := Opaque(0, "01/01/0001 00:00:00")

  class DynamicObjectTableEntity {
    var ETag: Option<string>
    var PartitionKey: Option<string>
    var RowKey: Option<string>
    var Properties: Properties
    /** The value of the row's date column, which the legacy pipeline checkpoints. */
    var ProcessCursorPoint: Opaque

    /** The parameterless constructor: no keys yet, no properties. */
    constructor ()
      ensures Properties == map[]
      ensures PartitionKey.None? && RowKey.None? && ETag.None?
      ensures ProcessCursorPoint == MinDateTime
    {
      ETag, PartitionKey, RowKey := None, None, None;
      Properties := map[];
      ProcessCursorPoint := MinDateTime;
    }

    /** The constructor taking the two keys. */
    constructor WithKeys(partitionKey: string, rowKey: string)
      ensures Properties == map[]
      ensures PartitionKey == Some(partitionKey) && RowKey == Some(rowKey) && ETag.None?
      ensures ProcessCursorPoint == MinDateTime
    {
      ETag := None;
      PartitionKey, RowKey := Some(partitionKey), Some(rowKey);
      Properties := map[];
      ProcessCursorPoint := MinDateTime;
    }

    /** Reading a dynamic member always succeeds: an absent member is first
        added as a String property holding null. */
    method TryGetMember(name: string) returns (found: bool, result: EntityProperty)
      modifies this`Properties
      ensures found
      ensures name in old(Properties) ==> Properties == old(Properties) && result == old(Properties)[name]
      ensures name !in old(Properties) ==>
        Properties == old(Properties)[name := StringProperty(None)] && result == StringProperty(None)
    {
      if name !in Properties {
        var added := ConvertToEntityProperty(name, NullValue);
        Properties := Properties[name := added.value];
      }
      result := Properties[name];
      found := true;
    }

    /** Insert or replace `key`, after converting the value; a value of an
        unsupported type throws before anything is changed. */
    method AddValue(key: string, value: Value) returns (r: Outcome<string>)
      modifies this`Properties
      ensures r.Pass? <==> ConvertToEntityProperty(key, value).Success?
      ensures r.Pass? ==> Properties == old(Properties)[key := ConvertToEntityProperty(key, value).value]
      ensures r.Pass? ==> |Properties| == |old(Properties)| + (if key in old(Properties) then 0 else 1)
      ensures r.Fail? ==> r.error == key && Properties == old(Properties)
    {
      var prop := ConvertToEntityProperty(key, value);
      if prop.Failure? {
        return Fail(prop.error);
      }
      if key in Properties {
        Properties := Properties[key := prop.value];
      } else {
        Properties := Properties[key := prop.value];
      }
      r := Pass;
    }

    /** Setting a dynamic member is `AddValue` reporting success as `true`. */
    method TrySetMember(name: string, value: Value) returns (r: Result<bool, string>)
      modifies this`Properties
      ensures r.Success? <==> ConvertToEntityProperty(name, value).Success?
      ensures r.Success? ==> r.value && Properties == old(Properties)[name := ConvertToEntityProperty(name, value).value]
      ensures r.Failure? ==> Properties == old(Properties)
    {
      var added := AddValue(name, value);
      r := if added.Pass? then Success(true) else Failure(added.error);
    }

    /** Installing the properties the table service delivered. */
    method ReadEntity(properties: Properties)
      modifies this`Properties
      ensures WriteEntity() == properties
    {
      Properties := properties;
    }

    /** The properties handed to the table service. */
    function WriteEntity(): Properties
      reads this
    {
      Properties
    }

    /** The entity as a batch operation serialises it. */
    function Record(): EntityRecord
      reads this
      requires PartitionKey.Some? && RowKey.Some?
    {
      EntityRecord(PartitionKey.value, RowKey.value, WriteEntity())
    }
  }
}
