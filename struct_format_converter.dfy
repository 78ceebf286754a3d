/**
  AtlasStructFormatConverter: the conversion of a struct between the legacy
  Struct / raw-map form and the AtlasStruct / raw-map form, attribute by
  attribute under the struct's schema. Each method runs the loops the
  converter runs and is proved to return what the matching function of
  StructConversion describes.
 */
module StructFormatConverter {
  import opened Wrappers
  import opened AtlasModel
  import opened StructConversion

  /** The loop over an owned array of references: collects the context's
      entity for each element, gives up (null) at the first element that does
      not resolve. */
  method ResolveOwnedArray(arrayValue: seq<Value>, ctx: Context) returns (r: Result<Option<seq<AtlasEntity>>, ConversionError>)
    ensures r == ResolveAll(arrayValue, ctx)
  {
    var entities: Option<seq<AtlasEntity>> := Some([]);
    var i := 0;
    assert arrayValue[i..] == arrayValue;
    AppendNothing(ResolveAll(arrayValue, ctx));
    while i < |arrayValue|
      invariant 0 <= i <= |arrayValue|
      invariant entities.Some?
      invariant ResolveAll(arrayValue, ctx) == Append(entities.value, ResolveAll(arrayValue[i..], ctx))
    {
      ResolveAllStep(arrayValue[i..]);
      assert arrayValue[i..][1..] == arrayValue[i + 1..];
      var entityGuid := GetGuid(arrayValue[i]);
      if entityGuid.Err? {
        return Err(entityGuid.error);
      }
      var entity := LookupEntity(entityGuid.value, ctx);
      if entity.Some? {
        AppendPrepend(entities.value, entity.value, ResolveAll(arrayValue[i + 1..], ctx));
        entities := Some(entities.value + [entity.value]);
      } else {
        assert ResolveAll(arrayValue, ctx) == Ok(None);
        entities := None;
        break;
      }
      i := i + 1;
    }
    if i == |arrayValue| {
      assert arrayValue[i..] == [];
      assert entities.value + [] == entities.value;
    }
    return Ok(entities);
  }

  /** The entities collected so far, put before the outcome of the rest. */
  function Append(done: seq<AtlasEntity>, rest: Result<Option<seq<AtlasEntity>>, ConversionError>): Result<Option<seq<AtlasEntity>>, ConversionError> {
    match rest
    case Ok(Some(es)) => Ok(Some(done + es))
    case _ => rest
  }

  lemma AppendNothing(rest: Result<Option<seq<AtlasEntity>>, ConversionError>)
    ensures Append([], rest) == rest
  {
    if rest.Ok? && rest.value.Some? {
      assert [] + rest.value.value == rest.value.value;
    }
  }

  lemma AppendPrepend(done: seq<AtlasEntity>, entity: AtlasEntity, rest: Result<Option<seq<AtlasEntity>>, ConversionError>)
    ensures Append(done, PrependEntity(entity, rest)) == Append(done + [entity], rest)
  {
    if rest.Ok? && rest.value.Some? {
      assert done + ([entity] + rest.value.value) == (done + [entity]) + rest.value.value;
    }
  }

  lemma ResolveAllStep(elems: seq<Value>)
    ensures elems != [] ==> forall ctx: Context {:trigger ResolveAll(elems, ctx)} ::
      ResolveAll(elems, ctx) ==
        match GetGuid(elems[0])
        case Err(e) => Err(e)
        case Ok(guid) =>
          match LookupEntity(guid, ctx)
          case None => Ok(None)
          case Some(entity) => PrependEntity(entity, ResolveAll(elems[1..], ctx))
  {
  }

  /** The owned-reference branch of the v2 -> v1 walk: the value and type the
      attribute's converter is then called with. */
  method RewriteOwnedRef(registry: TypeRegistry, schema: StructSchema, attr: AtlasAttribute, v2Value: Value, ctx: Context)
    returns (r: Result<Rewritten, ConversionError>)
    ensures r == OwnedRefRewrite(registry, schema, attr, v2Value, ctx)
  {
    var value, attrType := v2Value, attr.attributeType;
    if v2Value != Null && schema.isEntityType && attr.isOwnedRef {
      if attrType.ArrayType? {
        var elemTypeName := ElementTypeName(attrType.elementType);
        var entityType := GetEntityTypeByName(registry, elemTypeName);
        if entityType.Some? {
          if !v2Value.RawList? {
            return Err(ClassCast("java.util.Collection", ClassName(v2Value)));
          }
          var entities := ResolveOwnedArray(v2Value.items, ctx);
          if entities.Err? {
            return Err(entities.error);
          }
          if entities.value.Some? {
            value := RawList(EntityValues(entities.value.value));
            attrType := ArrayType(EntityType(entityType.value.typeName));
          }
        }
      } else if attrType.ObjectIdType? {
        var entityGuid := GetGuid(v2Value);
        if entityGuid.Err? {
          return Err(entityGuid.error);
        }
        var entity := LookupEntity(entityGuid.value, ctx);
        var entityType := if entity.Some? then GetEntityTypeByName(registry, entity.value.typeName) else None;
        if entity.Some? && entityType.Some? {
          value := V2Entity(entity.value);
          attrType := EntityType(entityType.value.typeName);
        }
      }
    }
    return Ok(Rewritten(value, attrType));
  }

  /** The v2 -> v1 attribute-map walk: only the attributes the schema knows,
      each converted (after the owned-reference rewrite) and stored under its
      name; null for a null or empty map. */
  method FromV2ToV1Attributes(registry: TypeRegistry, conv: Converters, schema: StructSchema,
                              attributes: Option<map<string, Value>>, ctx: Context)
    returns (r: Result<Option<map<string, Value>>, ConversionError>)
    requires schema.WellFormed()
    ensures Realizes(r, WalkV2ToV1(registry, conv, schema, attributes, ctx))
    ensures IsEmptyMap(attributes) ==> r == Ok(None)
    ensures r.Ok? && !IsEmptyMap(attributes) ==> r.value.Some? && r.value.value.Keys == KnownNames(schema, attributes.value)
  {
    if IsEmptyMap(attributes) {
      return Ok(None);
    }
    var m := attributes.value;
    var ret: map<string, Value> := map[];
    var pending := m.Keys;
    while pending != {}
      invariant pending <= m.Keys
      invariant forall k | k in KnownNames(schema, m) - pending :: AttributeV2ToV1(registry, conv, schema, k, m, ctx).Ok?
      invariant ret == map k | k in KnownNames(schema, m) - pending :: AttributeV2ToV1(registry, conv, schema, k, m, ctx).value
      decreases pending
    {
      var attrName :| attrName in pending;
      pending := pending - {attrName};
      if attrName !in schema.attributes {
        continue;
      }
      var attr := schema.attributes[attrName];
      var attrType := attr.attributeType;
      if Category(attrType) !in conv.registered {
        WalkV2ToV1FailsWith(registry, conv, schema, m, ctx, attrName);
        return Err(UnsupportedConversion(Category(attrType)));
      }
      var v2Value := if attr.name in m then m[attr.name] else Null;
      var rewritten := RewriteOwnedRef(registry, schema, attr, v2Value, ctx);
      if rewritten.Err? {
        WalkV2ToV1FailsWith(registry, conv, schema, m, ctx, attrName);
        return Err(rewritten.error);
      }
      if Category(rewritten.value.attrType) !in conv.registered {
        WalkV2ToV1FailsWith(registry, conv, schema, m, ctx, attrName);
        return Err(UnsupportedConversion(Category(rewritten.value.attrType)));
      }
      var v1Value := conv.v2ToV1(Category(rewritten.value.attrType), rewritten.value.value, rewritten.value.attrType, ctx);
      if v1Value.Err? {
        WalkV2ToV1FailsWith(registry, conv, schema, m, ctx, attrName);
        return Err(v1Value.error);
      }
      ret := ret[attr.name := v1Value.value];
    }
    assert KnownNames(schema, m) - pending == KnownNames(schema, m);
    return Ok(Some(ret));
  }

  /** The v1 -> v2 attribute-map walk: only the attributes the schema knows,
      each converted and stored under its name; null for a null or empty map. */
  method FromV1ToV2Attributes(conv: Converters, schema: StructSchema, attributes: Option<map<string, Value>>, ctx: Context)
    returns (r: Result<Option<map<string, Value>>, ConversionError>)
    requires schema.WellFormed()
    ensures Realizes(r, WalkV1ToV2(conv, schema, attributes, ctx))
    ensures IsEmptyMap(attributes) ==> r == Ok(None)
    ensures r.Ok? && !IsEmptyMap(attributes) ==> r.value.Some? && r.value.value.Keys == KnownNames(schema, attributes.value)
  {
    if IsEmptyMap(attributes) {
      return Ok(None);
    }
    var m := attributes.value;
    var ret: map<string, Value> := map[];
    var pending := m.Keys;
    while pending != {}
      invariant pending <= m.Keys
      invariant forall k | k in KnownNames(schema, m) - pending :: AttributeV1ToV2(conv, schema, k, m, ctx).Ok?
      invariant ret == map k | k in KnownNames(schema, m) - pending :: AttributeV1ToV2(conv, schema, k, m, ctx).value
      decreases pending
    {
      var attrName :| attrName in pending;
      pending := pending - {attrName};
      if attrName !in schema.attributes {
        continue;
      }
      var attr := schema.attributes[attrName];
      var attrType := attr.attributeType;
      if Category(attrType) !in conv.registered {
        WalkV1ToV2FailsWith(conv, schema, m, ctx, attrName);
        return Err(UnsupportedConversion(Category(attrType)));
      }
      var v1Value := if attr.name in m then m[attr.name] else Null;
      var v2Value := conv.v1ToV2(Category(attrType), v1Value, attrType, ctx);
      if v2Value.Err? {
        WalkV1ToV2FailsWith(conv, schema, m, ctx, attrName);
        return Err(v2Value.error);
      }
      ret := ret[attr.name := v2Value.value];
    }
    assert KnownNames(schema, m) - pending == KnownNames(schema, m);
    return Ok(Some(ret));
  }

  /** One known attribute that fails makes the whole walk fail, with its
      error among the possible ones. */
  lemma WalkV2ToV1FailsWith(registry: TypeRegistry, conv: Converters, schema: StructSchema,
                            m: map<string, Value>, ctx: Context, k: string)
    requires k in m && k in schema.attributes && AttributeV2ToV1(registry, conv, schema, k, m, ctx).Err?
    ensures WalkV2ToV1(registry, conv, schema, Some(m), ctx).Fails?
    ensures AttributeV2ToV1(registry, conv, schema, k, m, ctx).error in WalkV2ToV1(registry, conv, schema, Some(m), ctx).errors
  {
    assert k in KnownNames(schema, m);
  }

  lemma WalkV1ToV2FailsWith(conv: Converters, schema: StructSchema, m: map<string, Value>, ctx: Context, k: string)
    requires k in m && k in schema.attributes && AttributeV1ToV2(conv, schema, k, m, ctx).Err?
    ensures WalkV1ToV2(conv, schema, Some(m), ctx).Fails?
    ensures AttributeV1ToV2(conv, schema, k, m, ctx).error in WalkV1ToV2(conv, schema, Some(m), ctx).errors
  {
    assert k in KnownNames(schema, m);
  }

  /** Struct v1 -> v2 (object level). */
  method FromV1ToV2(conv: Converters, schema: StructSchema, v1Obj: Value, ctx: Context) returns (r: Result<Value, ConversionError>)
    requires schema.WellFormed()
    ensures Realizes(r, StructV1ToV2(conv, schema, v1Obj, ctx))
    ensures v1Obj == Null ==> r == Ok(Null)
    ensures !(v1Obj.Null? || v1Obj.RawMap? || v1Obj.V1Struct?) ==> r == Err(UnexpectedType("Map or Struct", ClassName(v1Obj)))
    ensures r.Ok? && v1Obj != Null ==> r.value.V2Struct? && r.value.typeName == schema.typeName
    ensures v1Obj.RawMap? && (AttributesPropertyKey !in v1Obj.entries || v1Obj.entries[AttributesPropertyKey] in {Null, RawMap(map[])}) ==>
              r == Ok(V2Struct(schema.typeName, None))
  {
    match v1Obj {
      case Null =>
        return Ok(Null);
      case RawMap(v1Map) =>
        var v1Attribs := V1MapAttributes(v1Map);
        if v1Attribs.Err? {
          return Err(v1Attribs.error);
        }
        if !IsEmptyMap(v1Attribs.value) {
          var attrs := FromV1ToV2Attributes(conv, schema, v1Attribs.value, ctx);
          if attrs.Err? {
            return Err(attrs.error);
          }
          return Ok(V2Struct(schema.typeName, attrs.value));
        }
        return Ok(V2Struct(schema.typeName, None));
      case V1Struct(_, values) =>
        var attrs := FromV1ToV2Attributes(conv, schema, values, ctx);
        if attrs.Err? {
          return Err(attrs.error);
        }
        return Ok(V2Struct(schema.typeName, attrs.value));
      case _ =>
        return Err(UnexpectedType("Map or Struct", ClassName(v1Obj)));
    }
  }

  /** Struct v2 -> v1 (object level). */
  method FromV2ToV1(registry: TypeRegistry, conv: Converters, schema: StructSchema, v2Obj: Value, ctx: Context)
    returns (r: Result<Value, ConversionError>)
    requires schema.WellFormed()
    ensures Realizes(r, StructV2ToV1(registry, conv, schema, v2Obj, ctx))
    ensures v2Obj == Null ==> r == Ok(Null)
    ensures !(v2Obj.Null? || v2Obj.RawMap? || v2Obj.V2Struct? || v2Obj.V2Entity?) ==>
              r == Err(UnexpectedType("Map or AtlasStruct", ClassName(v2Obj)))
    ensures r.Ok? && v2Obj != Null ==> r.value.V1Struct? && r.value.typeName == schema.typeName
    ensures v2Obj.RawMap? && AttributesPropertyKey in v2Obj.entries && v2Obj.entries[AttributesPropertyKey] in {Null, RawMap(map[])} ==>
              r == Ok(V1Struct(schema.typeName, None))
  {
    var attributes: Option<map<string, Value>>;
    match v2Obj {
      case Null =>
        return Ok(Null);
      case RawMap(v2Map) =>
        var v2Attribs := V2MapAttributes(v2Map);
        if v2Attribs.Err? {
          return Err(v2Attribs.error);
        }
        if IsEmptyMap(v2Attribs.value) {
          return Ok(V1Struct(schema.typeName, None));
        }
        attributes := v2Attribs.value;
      case V2Struct(_, attrs) =>
        attributes := attrs;
      case V2Entity(entity) =>
        attributes := entity.attributes;
      case _ =>
        return Err(UnexpectedType("Map or AtlasStruct", ClassName(v2Obj)));
    }
    var values := FromV2ToV1Attributes(registry, conv, schema, attributes, ctx);
    if values.Err? {
      return Err(values.error);
    }
    return Ok(V1Struct(schema.typeName, values.value));
  }
}
