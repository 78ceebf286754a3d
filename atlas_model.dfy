/**
  The data the struct format converter works on: the type system it consults
  (types, struct schemas, the registry of entity types), the run-time values of
  the legacy (v1) and modern (v2) instance models, the conversion context and
  the registry of nested converters.
 */
module AtlasModel {
  import opened Wrappers

  type TypeName = string
  type Guid = string

  /** The category of a type; the converter registry dispatches on it. */
  datatype TypeCategory =
    | Primitive | Enum | Array | Map | Struct | Entity | ObjectId | Classification

  /** A type of the type registry, as far as the converter inspects it. */
  datatype AtlasType =
    | PrimitiveType(name: TypeName)
    | EnumType(name: TypeName)
    | ArrayType(elementType: AtlasType)
    | MapType(keyType: AtlasType, valueType: AtlasType)
    | StructType(name: TypeName)
    | EntityType(name: TypeName)
    | ObjectIdType(objectType: TypeName)
    | ClassificationType(name: TypeName)

  function Category(t: AtlasType): TypeCategory {
    match t
    case PrimitiveType(_) => Primitive
    case EnumType(_) => Enum
    case ArrayType(_) => Array
    case MapType(_, _) => Map
    case StructType(_) => Struct
    case EntityType(_) => Entity
    case ObjectIdType(_) => ObjectId
    case ClassificationType(_) => Classification
  }

  /** The registered name of a type; collection types use the built-in
      "array<...>" and "map<...,...>" spellings, object ids "objectid". */
  function TypeNameOf(t: AtlasType): TypeName {
    match t
    case PrimitiveType(n) => n
    case EnumType(n) => n
    case ArrayType(e) => "array<" + TypeNameOf(e) + ">"
    case MapType(k, v) => "map<" + TypeNameOf(k) + "," + TypeNameOf(v) + ">"
    case StructType(n) => n
    case EntityType(n) => n
    case ObjectIdType(_) => "objectid"
    case ClassificationType(n) => n
  }

  /** One attribute of a struct or entity type. */
  datatype AtlasAttribute = AtlasAttribute(name: string, attributeType: AtlasType, isOwnedRef: bool)

  /** A struct type (or, when isEntityType, an entity type) with its attributes by name. */
  datatype StructSchema = StructSchema(typeName: TypeName, isEntityType: bool, attributes: map<string, AtlasAttribute>)
  {
    /** Every attribute is found under its own name. */
    predicate WellFormed() {
      forall n | n in attributes :: attributes[n].name == n
    }
  }

  /** The type registry: struct and entity types by name. */
  type TypeRegistry = map<TypeName, StructSchema>

  /** The entity type registered under the name, or null when there is none
      or the name is not that of an entity type. */
  function GetEntityTypeByName(registry: TypeRegistry, name: TypeName): (r: Option<StructSchema>)
    ensures r.Some? <==> name in registry && registry[name].isEntityType
    ensures r.Some? ==> r.value == registry[name]
  {
    if name in registry && registry[name].isEntityType then Some(registry[name]) else None
  }

  /** The run-time objects the converters see. A Java null is Null; an
      attribute map that is null is None. A java.lang.String is always Str;
      Scalar stands for the other scalar classes (numbers, booleans, dates,
      enums), named by their class. */
  datatype Value =
    | Null
    | Str(s: string)
    | Scalar(className: string, text: string)
    | RawMap(entries: map<string, Value>)
    | RawList(items: seq<Value>)
    | V1Struct(typeName: TypeName, values: Option<map<string, Value>>)
    | V2Struct(typeName: TypeName, attributes: Option<map<string, Value>>)
    | V2Entity(entity: AtlasEntity)
    | V2ObjectId(guid: Option<Guid>, typeName: TypeName)

  /** A v2 entity: an AtlasStruct with a guid. */
  datatype AtlasEntity = AtlasEntity(typeName: TypeName, guid: Option<Guid>, attributes: Option<map<string, Value>>)

  /** The Java class a value reports in error messages. */
  function ClassName(v: Value): string {
    match v
    case Null => "null"
    case Str(_) => "java.lang.String"
    case Scalar(c, _) => c
    case RawMap(_) => "java.util.HashMap"
    case RawList(_) => "java.util.ArrayList"
    case V1Struct(_, _) => "org.apache.atlas.model.v1.instance.Struct"
    case V2Struct(_, _) => "org.apache.atlas.model.instance.AtlasStruct"
    case V2Entity(_) => "org.apache.atlas.model.instance.AtlasEntity"
    case V2ObjectId(_, _) => "org.apache.atlas.model.instance.AtlasObjectId"
  }

  /** The conversion context: the entities already met in this conversion, by guid. */
  type Context = map<Guid, AtlasEntity>

  datatype ConversionError =
    | UnexpectedType(expected: string, actual: string)
    | UnsupportedConversion(category: TypeCategory)
    | ClassCast(target: string, actual: string)

  /** The converter registry: which categories have a converter, and what the
      nested converters do, taken as given. */
  datatype Converters = Converters(
    registered: set<TypeCategory>,
    v1ToV2: (TypeCategory, Value, AtlasType, Context) -> Result<Value, ConversionError>,
    v2ToV1: (TypeCategory, Value, AtlasType, Context) -> Result<Value, ConversionError>)
}
