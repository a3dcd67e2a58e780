/** `PropertySizeTransformer`: keeps every text property of an entity within
    the table service's field size by cutting it to 32000 characters and
    marking the cut with `-->`. */
module PropertySizeTransformer {
  import opened Wrappers
  import opened Values
  import opened TableStorage

  /** Appended to a value that was cut. */
  const PostfixString: string := "-->"

  const MaxLength: nat := 32000

  function ShortenString(input: string): (r: string)
    ensures |input| <= MaxLength ==> r == input
    ensures |r| == if |input| <= MaxLength then |input| else MaxLength + |PostfixString|
    ensures |input| > MaxLength ==> r[..MaxLength] == input[..MaxLength] && r[MaxLength..] == PostfixString
  {
    if |input| <= MaxLength then input else input[..MaxLength] + PostfixString
  }

  /** Shortening an already shortened value changes nothing. */
  lemma ShortenStringIdempotent(s: string)
    ensures ShortenString(ShortenString(s)) == ShortenString(s)
  {
    if |s| > MaxLength {
      var t := ShortenString(s);
      assert t == t[..MaxLength] + t[MaxLength..];
    }
  }

  /** What the loop body does to one non-null property: a String longer than
      the limit is replaced by its shortened copy; anything else is kept. */
  function LimitProperty(p: EntityProperty): EntityProperty {
    if PropertyType(p) == String && p.stringValue.Some? && |p.stringValue.value| > MaxLength
    then StringProperty(Some(ShortenString(p.stringValue.value)))
    else p
  }

  /** The property bag after a complete pass. */
  function LimitAll(props: Properties): Properties {
    map k | k in props :: LimitProperty(props[k])
  }

  /** Reading `StringValue.Length` of a String property that holds null throws. */
  predicate HasNullString(props: Properties) {
    exists k :: k in props && props[k] == StringProperty(None)
  }

  /** A pass leaves the key set alone and every non-String property untouched;
      each String ends at most 32003 long and one of at most 32000 is unchanged;
      null strings stay null. */
  lemma LimitAllShape(props: Properties)
    ensures LimitAll(props).Keys == props.Keys
    ensures forall k :: k in props && PropertyType(props[k]) != String ==> LimitAll(props)[k] == props[k]
    ensures forall k :: k in props && props[k].StringProperty? ==> LimitAll(props)[k].StringProperty?
    ensures forall k :: k in props && props[k].StringProperty? && props[k].stringValue.Some? ==>
      && LimitAll(props)[k].stringValue.Some?
      && |LimitAll(props)[k].stringValue.value| <= MaxLength + |PostfixString|
      && (|props[k].stringValue.value| <= MaxLength ==> LimitAll(props)[k] == props[k])
    ensures HasNullString(LimitAll(props)) <==> HasNullString(props)
  {
    if HasNullString(LimitAll(props)) {
      var k :| k in LimitAll(props) && LimitAll(props)[k] == StringProperty(None);
      assert props[k] == StringProperty(None);
    }
    if HasNullString(props) {
      var k :| k in props && props[k] == StringProperty(None);
      assert LimitAll(props)[k] == StringProperty(None);
    }
  }

  /** Transforming twice gives the properties transforming once gives. */
  lemma LimitAllIdempotent(props: Properties)
    ensures LimitAll(LimitAll(props)) == LimitAll(props)
  {
    forall k | k in props
      ensures LimitProperty(LimitProperty(props[k])) == LimitProperty(props[k])
    {
      var p := props[k];
      if PropertyType(p) == String && p.stringValue.Some? && |p.stringValue.value| > MaxLength {
        ShortenStringIdempotent(p.stringValue.value);
      }
    }
  }

  /** `Transform(entity)`: visit every property once and shorten the long
      strings in place. `Fail(key)` is the NullReferenceException raised on
      reaching a String property `key` that holds null; the properties visited
      before it are already shortened, the others not yet. */
  method Transform(entity: DynamicTableEntity) returns (r: Outcome<string>)
    modifies entity`Properties
    ensures r.Pass? <==> !HasNullString(old(entity.Properties))
    ensures r.Pass? ==> entity.Properties == LimitAll(old(entity.Properties))
    ensures r.Fail? ==>
      && r.error in old(entity.Properties) && old(entity.Properties)[r.error] == StringProperty(None)
      && entity.Properties.Keys == old(entity.Properties).Keys
      && forall k :: k in entity.Properties ==>
           entity.Properties[k] == old(entity.Properties)[k] ||
           entity.Properties[k] == LimitProperty(old(entity.Properties)[k])
  {
    ghost var original := entity.Properties;
    var remaining := entity.Properties.Keys;
    while remaining != {}
      invariant remaining <= original.Keys
      invariant entity.Properties.Keys == original.Keys
      invariant forall k :: k in remaining ==> entity.Properties[k] == original[k]
      invariant forall k :: k in original && k !in remaining ==>
        entity.Properties[k] == LimitProperty(original[k]) && original[k] != StringProperty(None)
      decreases remaining
    {
      var key :| key in remaining;
      var prop := entity.Properties[key];
      if PropertyType(prop) == String {
        if prop.stringValue.None? {
          return Fail(key);
        }
        if |prop.stringValue.value| > MaxLength {
          entity.Properties := entity.Properties[key := StringProperty(Some(ShortenString(prop.stringValue.value)))];
        }
      }
      remaining := remaining - {key};
    }
    r := Pass;
  }
}
