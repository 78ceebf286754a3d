/**
  What AtlasStructFormatConverter computes, as functions: the guid of a
  reference, the all-or-nothing resolution of an owned array of references,
  the owned-reference rewrite, the conversion of one attribute, the walk over
  an attribute map and the object-level conversions. The methods of
  StructFormatConverter are proved against these, and the lemmas here state
  what the converter promises about them.

  A walk visits the keys of a hash map in an order the model does not fix, so
  when several attributes fail, which error surfaces is not determined. An
  Outcome therefore holds either the converted value or the set of errors the
  conversion may throw.
 */
module StructConversion {
  import opened Wrappers
  import opened AtlasModel

  const AttributesPropertyKey := "attributes"
  const GuidKey := "guid"

  datatype Outcome<T(==)> = Converted(value: T) | Fails(errors: set<ConversionError>)

  /** A run of the converter that returned r is one the outcome allows. */
  predicate Realizes<T(==)>(r: Result<T, ConversionError>, o: Outcome<T>) {
    && (r.Ok? <==> o.Converted?)
    && (r.Ok? ==> r.value == o.value)
    && (r.Err? ==> r.error in o.errors)
  }

  /** StringUtils.isNotEmpty */
  predicate IsNotEmpty(s: Option<string>) {
    s.Some? && s.value != ""
  }

  // ---------------------------------------------------------------------
  // getGuid and context lookup

  /** The guid of an AtlasObjectId, the "guid" entry of a raw map (a cast to
      String that fails on any other non-null entry), and null otherwise. */
  function GetGuid(obj: Value): (r: Result<Option<Guid>, ConversionError>)
    ensures obj.V2ObjectId? ==> r == Ok(obj.guid)
    ensures obj.RawMap? && GuidKey in obj.entries && obj.entries[GuidKey].Str? ==> r == Ok(Some(obj.entries[GuidKey].s))
    ensures obj.RawMap? && (GuidKey !in obj.entries || obj.entries[GuidKey].Null?) ==> r == Ok(None)
    ensures !obj.V2ObjectId? && !obj.RawMap? ==> r == Ok(None)
    ensures r.Err? <==> obj.RawMap? && GuidKey in obj.entries && !obj.entries[GuidKey].Null? && !obj.entries[GuidKey].Str?
  {
    match obj
    case V2ObjectId(guid, _) => Ok(guid)
    case RawMap(entries) =>
      if GuidKey !in entries then Ok(None)
      else (match entries[GuidKey]
            case Null => Ok(None)
            case Str(s) => Ok(Some(s))
            case other => Err(ClassCast("java.lang.String", ClassName(other))))
    case _ => Ok(None)
  }

  /** An object id and a raw map carrying the same guid under "guid" name the
      same guid; one without a guid and a map without a "guid" entry both
      give null; neither form fails. */
  lemma GetGuidFormsAgree(guid: Option<Guid>, typeName: TypeName, entries: map<string, Value>)
    ensures guid.Some? ==>
              GetGuid(V2ObjectId(guid, typeName)) == GetGuid(RawMap(entries[GuidKey := Str(guid.value)])) == Ok(guid)
    ensures guid.None? ==>
              GetGuid(V2ObjectId(guid, typeName)) == GetGuid(RawMap(entries - {GuidKey}))
              == GetGuid(RawMap(entries[GuidKey := Null])) == Ok(None)
  {
  }

  /** The entity the context holds for a non-empty guid, or null. */
  function LookupEntity(guid: Option<Guid>, ctx: Context): Option<AtlasEntity> {
    if IsNotEmpty(guid) && guid.value in ctx then Some(ctx[guid.value]) else None
  }

  /** An element of an owned array resolves when its guid can be read, is
      non-empty and names an entity of the context. */
  predicate Resolves(elem: Value, ctx: Context) {
    GetGuid(elem).Ok? && LookupEntity(GetGuid(elem).value, ctx).Some?
  }

  function ResolvedEntity(elem: Value, ctx: Context): AtlasEntity
    requires Resolves(elem, ctx)
  {
    LookupEntity(GetGuid(elem).value, ctx).value
  }

  // ---------------------------------------------------------------------
  // The owned array: all or nothing

  /** The entities for the elements, front to back: null at the first element
      that does not resolve, an error if reading a guid throws before that. */
  function ResolveAll(elems: seq<Value>, ctx: Context): Result<Option<seq<AtlasEntity>>, ConversionError> {
    if elems == [] then Ok(Some([]))
    else
      match GetGuid(elems[0])
      case Err(e) => Err(e)
      case Ok(guid) =>
        match LookupEntity(guid, ctx)
        case None => Ok(None)
        case Some(entity) => PrependEntity(entity, ResolveAll(elems[1..], ctx))
  }

  function PrependEntity(entity: AtlasEntity, rest: Result<Option<seq<AtlasEntity>>, ConversionError>): Result<Option<seq<AtlasEntity>>, ConversionError> {
    match rest
    case Ok(Some(es)) => Ok(Some([entity] + es))
    case _ => rest
  }

  /** The list is replaced exactly when every element resolves, and then by
      the context's entities in the elements' order. */
  lemma {:induction false} ResolveAllAllOrNothing(elems: seq<Value>, ctx: Context)
    ensures (ResolveAll(elems, ctx).Ok? && ResolveAll(elems, ctx).value.Some?)
            <==> forall i | 0 <= i < |elems| :: Resolves(elems[i], ctx)
    ensures ResolveAll(elems, ctx).Ok? && ResolveAll(elems, ctx).value.Some? ==>
            var es := ResolveAll(elems, ctx).value.value;
            |es| == |elems| && forall i | 0 <= i < |elems| :: es[i] == ResolvedEntity(elems[i], ctx)
  {
    if elems != [] {
      ResolveAllAllOrNothing(elems[1..], ctx);
      assert forall i | 1 <= i < |elems| :: elems[i] == elems[1..][i - 1];
      if Resolves(elems[0], ctx) && ResolveAll(elems[1..], ctx).Ok? && ResolveAll(elems[1..], ctx).value.Some? {
        var es := ResolveAll(elems[1..], ctx).value.value;
        assert ResolveAll(elems, ctx) == Ok(Some([ResolvedEntity(elems[0], ctx)] + es));
      }
    }
  }

  /** An element that resolves nowhere, preceded only by elements whose guid
      can be read, keeps the whole list: no partial substitution. */
  lemma {:induction false} ResolveAllMissKeepsList(elems: seq<Value>, ctx: Context, miss: nat)
    requires miss < |elems| && !Resolves(elems[miss], ctx) && GetGuid(elems[miss]).Ok?
    requires forall i | 0 <= i < miss :: GetGuid(elems[i]).Ok?
    ensures ResolveAll(elems, ctx) == Ok(None)
  {
    if miss > 0 && Resolves(elems[0], ctx) {
      assert forall i | 0 <= i < miss - 1 :: elems[1..][i] == elems[i + 1];
      ResolveAllMissKeepsList(elems[1..], ctx, miss - 1);
    }
  }

  function EntityValues(es: seq<AtlasEntity>): (r: seq<Value>)
    ensures |r| == |es| && forall i | 0 <= i < |es| :: r[i] == V2Entity(es[i])
  {
    seq(|es|, i requires 0 <= i < |es| => V2Entity(es[i]))
  }

  // ---------------------------------------------------------------------
  // The owned-reference rewrite of the v2 -> v1 walk

  /** The value and type an attribute is converted with. */
  datatype Rewritten = Rewritten(value: Value, attrType: AtlasType)

  /** The name an owned array's elements are looked up under: the object type
      of an object-id element type, the element type's own name otherwise. */
  function ElementTypeName(elem: AtlasType): TypeName {
    if elem.ObjectIdType? then elem.objectType else TypeNameOf(elem)
  }

  /** Owned-reference materialisation: for an owned attribute of an entity
      type holding a non-null value, an array of references becomes the list
      of the context's entities when all of them resolve, and a single
      reference becomes its entity when it resolves to a registered entity
      type; everything else is converted as it is. */
  function OwnedRefRewrite(registry: TypeRegistry, schema: StructSchema, attr: AtlasAttribute, v2Value: Value, ctx: Context): Result<Rewritten, ConversionError> {
    var asIs := Ok(Rewritten(v2Value, attr.attributeType));
    if v2Value != Null && schema.isEntityType && attr.isOwnedRef then
      match attr.attributeType
      case ArrayType(elemType) =>
        (match GetEntityTypeByName(registry, ElementTypeName(elemType))
         case None => asIs
         case Some(entityType) =>
           if !v2Value.RawList? then Err(ClassCast("java.util.Collection", ClassName(v2Value)))
           else
             match ResolveAll(v2Value.items, ctx)
             case Err(e) => Err(e)
             case Ok(None) => asIs
             case Ok(Some(es)) => Ok(Rewritten(RawList(EntityValues(es)), ArrayType(EntityType(entityType.typeName)))))
      case ObjectIdType(_) =>
        (match GetGuid(v2Value)
         case Err(e) => Err(e)
         case Ok(guid) =>
           var entity := LookupEntity(guid, ctx);
           if entity.Some? && GetEntityTypeByName(registry, entity.value.typeName).Some? then
             Ok(Rewritten(V2Entity(entity.value), EntityType(registry[entity.value.typeName].typeName)))
           else asIs)
      case _ => asIs
    else asIs
  }

  /** No rewrite unless the struct is an entity type, the attribute is owned
      and the value is not null; none for an array whose element type does
      not name a registered entity type; and none for attribute types other
      than arrays and object ids. */
  lemma NoRewriteUnlessOwned(registry: TypeRegistry, schema: StructSchema, attr: AtlasAttribute, v2Value: Value, ctx: Context)
    requires v2Value == Null || !schema.isEntityType || !attr.isOwnedRef
             || !(attr.attributeType.ArrayType? || attr.attributeType.ObjectIdType?)
             || (attr.attributeType.ArrayType? && GetEntityTypeByName(registry, ElementTypeName(attr.attributeType.elementType)).None?)
    ensures OwnedRefRewrite(registry, schema, attr, v2Value, ctx) == Ok(Rewritten(v2Value, attr.attributeType))
  {
  }

  /** An owned array whose element type names an entity type: replaced by the
      context's entities, in order, typed as an array of that entity type,
      exactly when every element resolves; otherwise kept as it is. */
  lemma OwnedArrayRewrite(registry: TypeRegistry, schema: StructSchema, attr: AtlasAttribute, items: seq<Value>, ctx: Context)
    requires schema.isEntityType && attr.isOwnedRef && attr.attributeType.ArrayType?
    requires GetEntityTypeByName(registry, ElementTypeName(attr.attributeType.elementType)).Some?
    requires forall i | 0 <= i < |items| :: GetGuid(items[i]).Ok?
    ensures var r := OwnedRefRewrite(registry, schema, attr, RawList(items), ctx);
            var entityTypeName := registry[ElementTypeName(attr.attributeType.elementType)].typeName;
            && r.Ok?
            && ((forall i | 0 <= i < |items| :: Resolves(items[i], ctx)) ==>
                  && r.value.attrType == ArrayType(EntityType(entityTypeName))
                  && r.value.value.RawList?
                  && |r.value.value.items| == |items|
                  && forall i | 0 <= i < |items| :: r.value.value.items[i] == V2Entity(ResolvedEntity(items[i], ctx)))
            && ((exists i | 0 <= i < |items| :: !Resolves(items[i], ctx)) ==>
                  r.value == Rewritten(RawList(items), attr.attributeType))
  {
    ResolveAllAllOrNothing(items, ctx);
    if exists i | 0 <= i < |items| :: !Resolves(items[i], ctx) {
      var i :| 0 <= i < |items| && !Resolves(items[i], ctx);
      ResolveAllMissKeepsList(items, ctx, i);
    }
  }

  /** An owned single reference becomes the context's entity, typed by that
      entity's registered type, exactly when its guid is non-empty, found in
      the context, and names a registered entity type. */
  lemma OwnedReferenceRewrite(registry: TypeRegistry, schema: StructSchema, attr: AtlasAttribute, v2Value: Value, ctx: Context)
    requires schema.isEntityType && attr.isOwnedRef && attr.attributeType.ObjectIdType?
    requires v2Value != Null && GetGuid(v2Value).Ok?
    ensures var r := OwnedRefRewrite(registry, schema, attr, v2Value, ctx);
            var guid := GetGuid(v2Value).value;
            var found := IsNotEmpty(guid) && guid.value in ctx
                         && GetEntityTypeByName(registry, ctx[guid.value].typeName).Some?;
            && r.Ok?
            && (found ==> r.value == Rewritten(V2Entity(ctx[guid.value]), EntityType(registry[ctx[guid.value].typeName].typeName)))
            && (!found ==> r.value == Rewritten(v2Value, attr.attributeType))
  {
  }

  // ---------------------------------------------------------------------
  // One attribute

  /** v2 -> v1 for one known attribute: the converter of the declared type's
      category must exist; the value read under the attribute's name (null
      when absent) goes through the owned-reference rewrite and then through
      the converter of the rewritten type's category. */
  function AttributeV2ToV1(registry: TypeRegistry, conv: Converters, schema: StructSchema, attrName: string,
                           attributes: map<string, Value>, ctx: Context): Result<Value, ConversionError>
    requires attrName in schema.attributes
  {
    var attr := schema.attributes[attrName];
    if Category(attr.attributeType) !in conv.registered then Err(UnsupportedConversion(Category(attr.attributeType)))
    else
      var v2Value := if attr.name in attributes then attributes[attr.name] else Null;
      match OwnedRefRewrite(registry, schema, attr, v2Value, ctx)
      case Err(e) => Err(e)
      case Ok(rw) =>
        if Category(rw.attrType) !in conv.registered then Err(UnsupportedConversion(Category(rw.attrType)))
        else conv.v2ToV1(Category(rw.attrType), rw.value, rw.attrType, ctx)
  }

  /** v1 -> v2 for one known attribute: the converter of the declared type's
      category applied to the value read under the attribute's name (null
      when absent). */
  function AttributeV1ToV2(conv: Converters, schema: StructSchema, attrName: string,
                           attributes: map<string, Value>, ctx: Context): Result<Value, ConversionError>
    requires attrName in schema.attributes
  {
    var attr := schema.attributes[attrName];
    if Category(attr.attributeType) !in conv.registered then Err(UnsupportedConversion(Category(attr.attributeType)))
    else
      var v1Value := if attr.name in attributes then attributes[attr.name] else Null;
      conv.v1ToV2(Category(attr.attributeType), v1Value, attr.attributeType, ctx)
  }

  // ---------------------------------------------------------------------
  // The attribute walks

  /** The input's attribute names the schema knows; all others are skipped. */
  function KnownNames(schema: StructSchema, attributes: map<string, Value>): set<string> {
    attributes.Keys * schema.attributes.Keys
  }

  predicate IsEmptyMap(attributes: Option<map<string, Value>>) {
    attributes.None? || attributes.value == map[]
  }

  /** The attribute-map walk from v2 to v1: null for a null or empty map;
      otherwise each known attribute under its name with its converted value,
      or a failure with the error of some attribute that fails. */
  function WalkV2ToV1(registry: TypeRegistry, conv: Converters, schema: StructSchema,
                      attributes: Option<map<string, Value>>, ctx: Context): Outcome<Option<map<string, Value>>>
  {
    if IsEmptyMap(attributes) then Converted(None)
    else
      var m := attributes.value;
      var known := KnownNames(schema, m);
      if forall k | k in known :: AttributeV2ToV1(registry, conv, schema, k, m, ctx).Ok? then
        Converted(Some(map k | k in known :: AttributeV2ToV1(registry, conv, schema, k, m, ctx).value))
      else
        Fails(set k | k in known && AttributeV2ToV1(registry, conv, schema, k, m, ctx).Err?
                    :: AttributeV2ToV1(registry, conv, schema, k, m, ctx).error)
  }

  /** The attribute-map walk from v1 to v2, in the same shape. */
  function WalkV1ToV2(conv: Converters, schema: StructSchema,
                      attributes: Option<map<string, Value>>, ctx: Context): Outcome<Option<map<string, Value>>>
  {
    if IsEmptyMap(attributes) then Converted(None)
    else
      var m := attributes.value;
      var known := KnownNames(schema, m);
      if forall k | k in known :: AttributeV1ToV2(conv, schema, k, m, ctx).Ok? then
        Converted(Some(map k | k in known :: AttributeV1ToV2(conv, schema, k, m, ctx).value))
      else
        Fails(set k | k in known && AttributeV1ToV2(conv, schema, k, m, ctx).Err?
                    :: AttributeV1ToV2(conv, schema, k, m, ctx).error)
  }

  // ---------------------------------------------------------------------
  // The object-level conversions

  /** The cast (Map) of an "attributes" entry: null stays null, a map is
      taken, anything else throws. */
  function AsAttributeMap(entry: Value): Result<Option<map<string, Value>>, ConversionError> {
    match entry
    case Null => Ok(None)
    case RawMap(m) => Ok(Some(m))
    case _ => Err(ClassCast("java.util.Map", ClassName(entry)))
  }

  /** The attributes a raw v1 map carries: its "attributes" entry. */
  function V1MapAttributes(v1Map: map<string, Value>): Result<Option<map<string, Value>>, ConversionError> {
    if AttributesPropertyKey in v1Map then AsAttributeMap(v1Map[AttributesPropertyKey]) else Ok(None)
  }

  /** The attributes a raw v2 map carries: its "attributes" entry when the key
      is present, the whole map otherwise. */
  function V2MapAttributes(v2Map: map<string, Value>): Result<Option<map<string, Value>>, ConversionError> {
    if AttributesPropertyKey in v2Map then AsAttributeMap(v2Map[AttributesPropertyKey]) else Ok(Some(v2Map))
  }

  /** A walk's outcome wrapped into an object of the target type. */
  function WrapV2(typeName: TypeName, walk: Outcome<Option<map<string, Value>>>): Outcome<Value> {
    match walk
    case Converted(attrs) => Converted(V2Struct(typeName, attrs))
    case Fails(errs) => Fails(errs)
  }

  function WrapV1(typeName: TypeName, walk: Outcome<Option<map<string, Value>>>): Outcome<Value> {
    match walk
    case Converted(values) => Converted(V1Struct(typeName, values))
    case Fails(errs) => Fails(errs)
  }

  /** Struct v1 -> v2: null to null; a raw map through its "attributes"
      entry (no walk when that is null or empty); a Struct through its
      values; anything else is an unexpected type. The result carries the
      target type's name. */
  function StructV1ToV2(conv: Converters, schema: StructSchema, v1Obj: Value, ctx: Context): Outcome<Value> {
    match v1Obj
    case Null => Converted(Null)
    case RawMap(v1Map) =>
      (match V1MapAttributes(v1Map)
       case Err(e) => Fails({e})
       case Ok(attrs) =>
         if !IsEmptyMap(attrs) then WrapV2(schema.typeName, WalkV1ToV2(conv, schema, attrs, ctx))
         else Converted(V2Struct(schema.typeName, None)))
    case V1Struct(_, values) => WrapV2(schema.typeName, WalkV1ToV2(conv, schema, values, ctx))
    case _ => Fails({UnexpectedType("Map or Struct", ClassName(v1Obj))})
  }

  /** Struct v2 -> v1: null to null; a raw map through its "attributes"
      entry or as a whole (no walk when that is null or empty); an
      AtlasStruct, or an AtlasEntity, through its attributes; anything else is
      an unexpected type. The result carries the target type's name. */
  function StructV2ToV1(registry: TypeRegistry, conv: Converters, schema: StructSchema, v2Obj: Value, ctx: Context): Outcome<Value> {
    match v2Obj
    case Null => Converted(Null)
    case RawMap(v2Map) =>
      (match V2MapAttributes(v2Map)
       case Err(e) => Fails({e})
       case Ok(attrs) =>
         if !IsEmptyMap(attrs) then WrapV1(schema.typeName, WalkV2ToV1(registry, conv, schema, attrs, ctx))
         else Converted(V1Struct(schema.typeName, None)))
    case V2Struct(_, attributes) => WrapV1(schema.typeName, WalkV2ToV1(registry, conv, schema, attributes, ctx))
    case V2Entity(entity) => WrapV1(schema.typeName, WalkV2ToV1(registry, conv, schema, entity.attributes, ctx))
    case _ => Fails({UnexpectedType("Map or AtlasStruct", ClassName(v2Obj))})
  }

  // ---------------------------------------------------------------------
  // Properties of the walks and the round trip

  /** A walk that converts yields exactly the known names of a non-empty
      input, each holding its attribute's converted value even when that
      value is null; a walk over a null or empty map yields null. */
  lemma {:induction false} WalkV2ToV1Shape(registry: TypeRegistry, conv: Converters, schema: StructSchema,
                                           attributes: Option<map<string, Value>>, ctx: Context)
    ensures IsEmptyMap(attributes) ==> WalkV2ToV1(registry, conv, schema, attributes, ctx) == Converted(None)
    ensures var w := WalkV2ToV1(registry, conv, schema, attributes, ctx);
            !IsEmptyMap(attributes) && w.Converted? ==>
              && w.value.Some?
              && w.value.value.Keys == KnownNames(schema, attributes.value)
              && forall k | k in w.value.value ::
                   AttributeV2ToV1(registry, conv, schema, k, attributes.value, ctx) == Ok(w.value.value[k])
  {
  }

  /** A walk in which every known attribute converts yields exactly the map of
      their converted values. */
  lemma {:induction false} WalkV2ToV1Converts(registry: TypeRegistry, conv: Converters, schema: StructSchema,
                                              m: map<string, Value>, ctx: Context, result: map<string, Value>)
    requires m != map[] && result.Keys == KnownNames(schema, m)
    requires forall k | k in result :: AttributeV2ToV1(registry, conv, schema, k, m, ctx) == Ok(result[k])
    ensures WalkV2ToV1(registry, conv, schema, Some(m), ctx) == Converted(Some(result))
  {
    var known := KnownNames(schema, m);
    assert forall k | k in known :: AttributeV2ToV1(registry, conv, schema, k, m, ctx).Ok?;
    var walked := map k | k in known :: AttributeV2ToV1(registry, conv, schema, k, m, ctx).value;
    assert walked == result;
  }

  lemma {:induction false} WalkV1ToV2Converts(conv: Converters, schema: StructSchema,
                                              m: map<string, Value>, ctx: Context, result: map<string, Value>)
    requires m != map[] && result.Keys == KnownNames(schema, m)
    requires forall k | k in result :: AttributeV1ToV2(conv, schema, k, m, ctx) == Ok(result[k])
    ensures WalkV1ToV2(conv, schema, Some(m), ctx) == Converted(Some(result))
  {
    var known := KnownNames(schema, m);
    assert forall k | k in known :: AttributeV1ToV2(conv, schema, k, m, ctx).Ok?;
    var walked := map k | k in known :: AttributeV1ToV2(conv, schema, k, m, ctx).value;
    assert walked == result;
  }

  /** A raw v1 map is unwrapped through its "attributes" entry: without that
      entry, or with a null or empty one, it gives an AtlasStruct of the
      target type without attributes; with a map there it converts like a
      Struct holding that map. */
  lemma V1MapUnwrapping(conv: Converters, schema: StructSchema, v1Map: map<string, Value>, typeName: TypeName, ctx: Context)
    ensures AttributesPropertyKey !in v1Map ==>
              StructV1ToV2(conv, schema, RawMap(v1Map), ctx) == Converted(V2Struct(schema.typeName, None))
    ensures AttributesPropertyKey in v1Map && v1Map[AttributesPropertyKey] in {Null, RawMap(map[])} ==>
              StructV1ToV2(conv, schema, RawMap(v1Map), ctx) == Converted(V2Struct(schema.typeName, None))
    ensures AttributesPropertyKey in v1Map && v1Map[AttributesPropertyKey].RawMap? ==>
              StructV1ToV2(conv, schema, RawMap(v1Map), ctx)
              == StructV1ToV2(conv, schema, V1Struct(typeName, Some(v1Map[AttributesPropertyKey].entries)), ctx)
  {
  }

  /** A raw v2 map is unwrapped through its "attributes" entry when that key
      is present, and is otherwise itself the attribute map: either way it
      converts like an AtlasStruct holding those attributes. */
  lemma V2MapUnwrapping(registry: TypeRegistry, conv: Converters, schema: StructSchema, v2Map: map<string, Value>,
                        typeName: TypeName, ctx: Context)
    ensures AttributesPropertyKey !in v2Map ==>
              StructV2ToV1(registry, conv, schema, RawMap(v2Map), ctx)
              == StructV2ToV1(registry, conv, schema, V2Struct(typeName, Some(v2Map)), ctx)
    ensures AttributesPropertyKey in v2Map && v2Map[AttributesPropertyKey].RawMap? ==>
              StructV2ToV1(registry, conv, schema, RawMap(v2Map), ctx)
              == StructV2ToV1(registry, conv, schema, V2Struct(typeName, Some(v2Map[AttributesPropertyKey].entries)), ctx)
    ensures AttributesPropertyKey in v2Map && v2Map[AttributesPropertyKey].Null? ==>
              StructV2ToV1(registry, conv, schema, RawMap(v2Map), ctx) == Converted(V1Struct(schema.typeName, None))
  {
  }

  /** Round trip: a v1 Struct whose attributes the schema all knows, none of
      them owned by an entity type, and whose nested converters undo each
      other on its values, converts to an AtlasStruct of the schema's type and
      back to a Struct of the schema's type holding the same attributes. */
  lemma {:induction false} RoundTripV1V2V1(registry: TypeRegistry, conv: Converters, schema: StructSchema, typeName: TypeName,
                                           values: map<string, Value>, ctx1: Context, ctx2: Context)
    requires schema.WellFormed()
    requires values != map[] && values.Keys <= schema.attributes.Keys
    requires forall k | k in values :: !(schema.isEntityType && schema.attributes[k].isOwnedRef)
    requires forall k | k in values :: Category(schema.attributes[k].attributeType) in conv.registered
    requires forall k | k in values ::
               var t := schema.attributes[k].attributeType;
               && conv.v1ToV2(Category(t), values[k], t, ctx1).Ok?
               && conv.v2ToV1(Category(t), conv.v1ToV2(Category(t), values[k], t, ctx1).value, t, ctx2) == Ok(values[k])
    ensures var there := StructV1ToV2(conv, schema, V1Struct(typeName, Some(values)), ctx1);
            && there.Converted?
            && there.value.V2Struct? && there.value.typeName == schema.typeName
            && StructV2ToV1(registry, conv, schema, there.value, ctx2) == Converted(V1Struct(schema.typeName, Some(values)))
  {
    var known := KnownNames(schema, values);
    assert known == values.Keys;
    forall k | k in known
      ensures AttributeV1ToV2(conv, schema, k, values, ctx1).Ok?
    {
    }
    var m2 := map k | k in known :: AttributeV1ToV2(conv, schema, k, values, ctx1).value;
    assert WalkV1ToV2(conv, schema, Some(values), ctx1) == Converted(Some(m2));
    var k0 :| k0 in values;
    assert k0 in m2;
    assert KnownNames(schema, m2) == known;
    forall k | k in known
      ensures AttributeV2ToV1(registry, conv, schema, k, m2, ctx2) == Ok(values[k])
    {
      var attr := schema.attributes[k];
      NoRewriteUnlessOwned(registry, schema, attr, m2[k], ctx2);
    }
    var back := map k | k in known :: AttributeV2ToV1(registry, conv, schema, k, m2, ctx2).value;
    assert back == values;
    assert WalkV2ToV1(registry, conv, schema, Some(m2), ctx2) == Converted(Some(values));
  }

  /** Round trip the other way: an AtlasStruct whose attributes the schema all
      knows, none of them owned by an entity type, and whose nested
      converters undo each other on its values, converts to a Struct of the
      schema's type and back to an AtlasStruct of the schema's type holding
      the same attributes. */
  lemma {:induction false} RoundTripV2V1V2(registry: TypeRegistry, conv: Converters, schema: StructSchema, typeName: TypeName,
                                           attributes: map<string, Value>, ctx1: Context, ctx2: Context)
    requires schema.WellFormed()
    requires attributes != map[] && attributes.Keys <= schema.attributes.Keys
    requires forall k | k in attributes :: !(schema.isEntityType && schema.attributes[k].isOwnedRef)
    requires forall k | k in attributes :: Category(schema.attributes[k].attributeType) in conv.registered
    requires forall k | k in attributes ::
               var t := schema.attributes[k].attributeType;
               && conv.v2ToV1(Category(t), attributes[k], t, ctx1).Ok?
               && conv.v1ToV2(Category(t), conv.v2ToV1(Category(t), attributes[k], t, ctx1).value, t, ctx2) == Ok(attributes[k])
    ensures var there := StructV2ToV1(registry, conv, schema, V2Struct(typeName, Some(attributes)), ctx1);
            && there.Converted?
            && there.value.V1Struct? && there.value.typeName == schema.typeName
            && StructV1ToV2(conv, schema, there.value, ctx2) == Converted(V2Struct(schema.typeName, Some(attributes)))
  {
    var known := KnownNames(schema, attributes);
    assert known == attributes.Keys;
    var values := map k | k in known :: conv.v2ToV1(Category(schema.attributes[k].attributeType), attributes[k],
                                                    schema.attributes[k].attributeType, ctx1).value;
    forall k | k in values
      ensures AttributeV2ToV1(registry, conv, schema, k, attributes, ctx1) == Ok(values[k])
    {
      NoRewriteUnlessOwned(registry, schema, schema.attributes[k], attributes[k], ctx1);
    }
    WalkV2ToV1Converts(registry, conv, schema, attributes, ctx1, values);
    var k0 :| k0 in attributes;
    assert k0 in values;
    assert KnownNames(schema, values) == known;
    forall k | k in attributes
      ensures AttributeV1ToV2(conv, schema, k, values, ctx2) == Ok(attributes[k])
    {
    }
    WalkV1ToV2Converts(conv, schema, values, ctx2, attributes);
  }
}
