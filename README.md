# Atlas struct format conversion, Storm hook helpers and system attributes

This project models three pieces of Apache Atlas in Dafny and proves properties about them.

**The struct format converter** (`AtlasStructFormatConverter`) converts a struct between two forms:
- the legacy v1 form: a `Struct`, or a raw map whose `"attributes"` entry holds the attributes;
- the modern v2 form: an `AtlasStruct`/`AtlasEntity`, or a raw map.

The conversion goes attribute by attribute under the struct type's schema:
- Attributes the schema does not know are skipped.
- Each known attribute goes through the converter registered for its type category.
- From v2 to v1, an owned attribute of an entity type first goes through the owned-reference rewrite. References are replaced by the full entities already recorded in the conversion context. For an array this is all-or-nothing; for a single reference it happens per reference.

The files:
- `atlas_model.dfy` (module `AtlasModel`) holds the data model:
  - types, struct schemas and the type registry (a map from name to schema);
  - the run-time values of both instance models;
  - the conversion context (a read-only map from guid to entity);
  - the converter registry. It holds the set of categories that have a converter and two uninterpreted conversion functions.
- `struct_conversion.dfy` (module `StructConversion`) states what the converter computes, as functions, and proves the converter's promises about them as lemmas.
- `struct_format_converter.dfy` (module `StructFormatConverter`) holds the converter's loops as methods. Each method is proved to return what its specification function describes.

A walk visits the keys of a hash map, in no fixed order. When several attributes fail, which error surfaces is therefore not determined. The specification gives the set of errors a run may throw, and each method is proved to return either the converted value or one of those errors.

**The Storm hook** (`storm_atlas_hook.dfy`, module `StormAtlasHook`) covers:
- the qualified names given to Kafka topics, HBase tables and HDFS paths;
- the owner recorded for a topology;
- the graph of spout and bolt nodes built for a topology, with the `outputs` and `inputs` of each node wired from the topology's adjacency map.

**`AtlasSystemAttributes`** (`system_attributes.dfy`, module `SystemAttributes`) is a class with four mutable fields. The model covers its constructors, getters, setters, `equals` and `hashCode`.

## Model

| member | source | states |
|---|---|---|
| StructConversion.GetGuidFormsAgree | repository/src/main/java/org/apache/atlas/repository/converters/AtlasStructFormatConverter.java:213-229 | an AtlasObjectId and a raw map whose `"guid"` entry holds the same guid give that guid; an object id without a guid and a map whose `"guid"` entry is absent or null both give null; neither form makes `getGuid` fail |
| StructConversion.ResolveAllAllOrNothing | repository/src/main/java/org/apache/atlas/repository/converters/AtlasStructFormatConverter.java:155-179 | the entity list exists exactly when every element has a non-empty guid found in the context; it then holds those entities in element order, one per element |
| StructConversion.ResolveAllMissKeepsList | repository/src/main/java/org/apache/atlas/repository/converters/AtlasStructFormatConverter.java:158-170 | one element that does not resolve discards the whole list: there is no partial substitution |
| StructConversion.NoRewriteUnlessOwned | repository/src/main/java/org/apache/atlas/repository/converters/AtlasStructFormatConverter.java:136-201 | value and type pass through unchanged unless the value is non-null, the struct is an entity type and the attribute is owned; an owned array whose element type does not name a registered entity type is also unchanged, and so is an owned attribute that is neither an array nor an object id |
| StructConversion.OwnedArrayRewrite | repository/src/main/java/org/apache/atlas/repository/converters/AtlasStructFormatConverter.java:141-182 | with an entity element type, the list becomes the context's entities in order, typed as an array of that entity type, when every element resolves; otherwise the original list and type are kept |
| StructConversion.OwnedReferenceRewrite | repository/src/main/java/org/apache/atlas/repository/converters/AtlasStructFormatConverter.java:183-198 | a single owned reference becomes its context entity, with the entity's registered type, exactly when its guid is non-empty, found in the context and names a registered entity type; otherwise it is kept |
| StructConversion.WalkV2ToV1Shape | repository/src/main/java/org/apache/atlas/repository/converters/AtlasStructFormatConverter.java:116-211 | a null or empty map gives null; a successful walk gives exactly the input names the schema knows, each holding its converted value, even when that value is null |
| StructConversion.WalkV2ToV1Converts | repository/src/main/java/org/apache/atlas/repository/converters/AtlasStructFormatConverter.java:120-207 | when every known attribute converts, the v2 to v1 walk gives exactly the map from the known names to their converted values |
| StructConversion.WalkV1ToV2Converts | repository/src/main/java/org/apache/atlas/repository/converters/AtlasStructFormatConverter.java:234-253 | when every known attribute converts, the v1 to v2 walk gives exactly the map from the known names to their converted values |
| StructConversion.V1MapUnwrapping | repository/src/main/java/org/apache/atlas/repository/converters/AtlasStructFormatConverter.java:61-69 | a raw v1 map without an `"attributes"` entry, or with a null or empty one, gives an AtlasStruct of the target type without attributes; with a map there, it converts like a Struct holding that map |
| StructConversion.V2MapUnwrapping | repository/src/main/java/org/apache/atlas/repository/converters/AtlasStructFormatConverter.java:89-103 | a raw v2 map with an `"attributes"` key converts like an AtlasStruct holding that entry (a null entry gives a Struct without attributes); without the key it converts like an AtlasStruct holding the whole map |
| StructConversion.RoundTripV1V2V1 | repository/src/main/java/org/apache/atlas/repository/converters/AtlasStructFormatConverter.java:55-114 | a v1 Struct whose attributes are all known and not owned, and whose nested converters undo each other, converts to v2 and back to a Struct of the schema's type with the same attributes |
| StructConversion.RoundTripV2V1V2 | repository/src/main/java/org/apache/atlas/repository/converters/AtlasStructFormatConverter.java:55-114 | an AtlasStruct whose attributes are all known and not owned, and whose nested converters undo each other, converts to v1 and back to an AtlasStruct of the schema's type with the same attributes |
| StructFormatConverter.ResolveOwnedArray | repository/src/main/java/org/apache/atlas/repository/converters/AtlasStructFormatConverter.java:155-172 | the collecting loop with its early `break` returns the all-or-nothing entity list |
| StructFormatConverter.RewriteOwnedRef | repository/src/main/java/org/apache/atlas/repository/converters/AtlasStructFormatConverter.java:136-202 | the owned-reference branch produces exactly the rewritten value and type described above, or the cast errors it can throw |
| StructFormatConverter.FromV2ToV1Attributes | repository/src/main/java/org/apache/atlas/repository/converters/AtlasStructFormatConverter.java:116-211 | a null or empty map gives null; otherwise the loop either returns exactly the known names with their converted values, or returns an error that some known attribute throws |
| StructFormatConverter.FromV1ToV2Attributes | repository/src/main/java/org/apache/atlas/repository/converters/AtlasStructFormatConverter.java:231-257 | the same for the v1 to v2 walk, without the owned-reference rewrite |
| StructFormatConverter.WalkV2ToV1FailsWith | repository/src/main/java/org/apache/atlas/repository/converters/AtlasStructFormatConverter.java:124-206 | one known attribute whose conversion fails makes the whole v2 to v1 walk fail, and its error is among those the walk may throw |
| StructFormatConverter.WalkV1ToV2FailsWith | repository/src/main/java/org/apache/atlas/repository/converters/AtlasStructFormatConverter.java:238-252 | the same for the v1 to v2 walk |
| StructFormatConverter.FromV1ToV2 | repository/src/main/java/org/apache/atlas/repository/converters/AtlasStructFormatConverter.java:55-80 | null gives null; a map is read through its `"attributes"` entry, and gives an AtlasStruct without attributes when that entry is absent, null or empty; a Struct is read through its values; anything else is `UNEXPECTED_TYPE("Map or Struct", class)`; a result carries the target type's name |
| StructFormatConverter.FromV2ToV1 | repository/src/main/java/org/apache/atlas/repository/converters/AtlasStructFormatConverter.java:83-114 | null gives null; a map is read through its `"attributes"` entry when that key is present, and as a whole otherwise, and gives a Struct without attributes when that entry is null or empty; an AtlasStruct is read through its attributes; anything else is `UNEXPECTED_TYPE("Map or AtlasStruct", class)`; a result carries the target type's name |
| StormAtlasHook.ToLowerIdempotent | addons/storm-bridge/src/main/java/org/apache/atlas/storm/hook/StormAtlasHook.java:394-404 | lower-casing a lower-cased name changes nothing |
| StormAtlasHook.ToLowerKeepsSeparator | addons/storm-bridge/src/main/java/org/apache/atlas/storm/hook/StormAtlasHook.java:394-404 | lower-casing neither adds nor removes `@` or `.` |
| StormAtlasHook.SplitAtSeparator | addons/storm-bridge/src/main/java/org/apache/atlas/storm/hook/StormAtlasHook.java:394-404 | two names joined at a separator that neither left part contains are equal exactly when both parts are equal |
| StormAtlasHook.KafkaTopicQualifiedName | addons/storm-bridge/src/main/java/org/apache/atlas/storm/hook/StormAtlasHook.java:394-396 | the name splits into the lower-cased topic, `@`, and the cluster name as given |
| StormAtlasHook.HbaseTableQualifiedName | addons/storm-bridge/src/main/java/org/apache/atlas/storm/hook/StormAtlasHook.java:398-400 | the name splits into the lower-cased namespace, `.`, the lower-cased table, `@`, and the cluster name |
| StormAtlasHook.HdfsPathQualifiedName | addons/storm-bridge/src/main/java/org/apache/atlas/storm/hook/StormAtlasHook.java:402-404 | the name splits into the lower-cased path, `@`, and the cluster name |
| StormAtlasHook.KafkaTopicQualifiedNameInjective | addons/storm-bridge/src/main/java/org/apache/atlas/storm/hook/StormAtlasHook.java:394-396 | for topics without `@`, two qualified names are equal exactly when the topics agree up to case and the clusters are equal |
| StormAtlasHook.HdfsPathQualifiedNameInjective | addons/storm-bridge/src/main/java/org/apache/atlas/storm/hook/StormAtlasHook.java:402-404 | for paths without `@`, two qualified names are equal exactly when the paths agree up to case and the clusters are equal |
| StormAtlasHook.HbaseTableQualifiedNameInjective | addons/storm-bridge/src/main/java/org/apache/atlas/storm/hook/StormAtlasHook.java:398-400 | for namespaces without `.` or `@` and tables without `@`, two qualified names are equal exactly when namespace, table and cluster agree, the first two up to case |
| StormAtlasHook.HbaseTableQualifiedNameDottedNamespace | addons/storm-bridge/src/main/java/org/apache/atlas/storm/hook/StormAtlasHook.java:398-400 | without that restriction, the namespace `a.b` with table `t` and the namespace `a` with table `b.t` share a qualified name |
| StormAtlasHook.QualifiedNamesIgnoreCase | addons/storm-bridge/src/main/java/org/apache/atlas/storm/hook/StormAtlasHook.java:394-404 | every qualified name is unchanged when the lower-cased parts are lower-cased first |
| StormAtlasHook.CreateTopologyInstance | addons/storm-bridge/src/main/java/org/apache/atlas/storm/hook/StormAtlasHook.java:115-131 | the owner is never empty: it is the topology's owner when that is non-empty, and `"anonymous"` otherwise; id, name, qualified name, start time and cluster name are as given |
| StormAtlasHook.AddSpouts | addons/storm-bridge/src/main/java/org/apache/atlas/storm/hook/StormAtlasHook.java:317-324 | every spout becomes a spout node under its name, and every other entry is kept |
| StormAtlasHook.AddBolts | addons/storm-bridge/src/main/java/org/apache/atlas/storm/hook/StormAtlasHook.java:326-333 | every bolt becomes a bolt node under its name, replacing a spout of the same name, and every other entry is kept |
| StormAtlasHook.ListOf | addons/storm-bridge/src/main/java/org/apache/atlas/storm/hook/StormAtlasHook.java:373-375 | the outputs list holds each name of the adjacency set exactly once |
| StormAtlasHook.WithInput | addons/storm-bridge/src/main/java/org/apache/atlas/storm/hook/StormAtlasHook.java:380-389 | appending an input keeps the node's kind, name and outputs, and adds exactly one occurrence of the name to the inputs, starting from an empty list when they were null |
| StormAtlasHook.AddIncomingLinks | addons/storm-bridge/src/main/java/org/apache/atlas/storm/hook/StormAtlasHook.java:379-390 | each node in the adjacency set gains the source's name among its inputs; every other node is unchanged |
| StormAtlasHook.PredecessorsStep | addons/storm-bridge/src/main/java/org/apache/atlas/storm/hook/StormAtlasHook.java:363-390 | processing one more source adds that source to a node's predecessors exactly when the node is among the source's successors |
| StormAtlasHook.InputsExtendedStep | addons/storm-bridge/src/main/java/org/apache/atlas/storm/hook/StormAtlasHook.java:382-389 | appending the source to a node's inputs extends the inputs by one more predecessor |
| StormAtlasHook.ConnectedSkip | addons/storm-bridge/src/main/java/org/apache/atlas/storm/hook/StormAtlasHook.java:365-369 | a source with an empty adjacency set changes no node, and its outputs stay untouched |
| StormAtlasHook.ConnectedStep | addons/storm-bridge/src/main/java/org/apache/atlas/storm/hook/StormAtlasHook.java:371-390 | a source with successors gets them as its outputs, and each successor gains the source among its inputs |
| StormAtlasHook.ConnectNode | addons/storm-bridge/src/main/java/org/apache/atlas/storm/hook/StormAtlasHook.java:371-390 | the body of the loop for one source keeps every node wired with respect to the sources processed so far |
| StormAtlasHook.AddGraphConnections | addons/storm-bridge/src/main/java/org/apache/atlas/storm/hook/StormAtlasHook.java:359-392 | afterwards every node has its kind and name; a node with successors has them as its outputs, and other outputs are untouched; every node's inputs are extended by exactly its predecessors |
| StormAtlasHook.FreshNodeWired | addons/storm-bridge/src/main/java/org/apache/atlas/storm/hook/StormAtlasHook.java:363-390 | for a node created without outputs and inputs: outputs are its successors, or null when it has none; inputs are its predecessors, or null when it has none |
| StormAtlasHook.GraphWired | addons/storm-bridge/src/main/java/org/apache/atlas/storm/hook/StormAtlasHook.java:363-390 | in the wired graph, n lists m among its outputs exactly when m lists n among its inputs |
| StormAtlasHook.CreateTopologyGraph | addons/storm-bridge/src/main/java/org/apache/atlas/storm/hook/StormAtlasHook.java:305-315 | one node per spout and bolt name, a bolt winning over a spout of the same name; outputs are the successors and inputs the predecessors, each listed once; outputs and inputs agree on every edge |
| SystemAttributes.AtlasSystemAttributes.constructor | intg/src/main/java/org/apache/atlas/model/v1/instance/AtlasSystemAttributes.java:50-51 | all four fields are null |
| SystemAttributes.AtlasSystemAttributes.Copy | intg/src/main/java/org/apache/atlas/model/v1/instance/AtlasSystemAttributes.java:53-60 | a null argument leaves all four fields null; otherwise all four fields are copied, so the copy equals the original in both directions |
| SystemAttributes.AtlasSystemAttributes.Of | intg/src/main/java/org/apache/atlas/model/v1/instance/AtlasSystemAttributes.java:62-67 | each getter returns the argument of the same name |
| SystemAttributes.AtlasSystemAttributes.SetCreatedBy | intg/src/main/java/org/apache/atlas/model/v1/instance/AtlasSystemAttributes.java:69-75 | the getter returns the value set, and the other three fields are unchanged |
| SystemAttributes.AtlasSystemAttributes.SetModifiedBy | intg/src/main/java/org/apache/atlas/model/v1/instance/AtlasSystemAttributes.java:77-83 | the getter returns the value set, and the other three fields are unchanged |
| SystemAttributes.AtlasSystemAttributes.SetCreatedTime | intg/src/main/java/org/apache/atlas/model/v1/instance/AtlasSystemAttributes.java:85-91 | the getter returns the value set, and the other three fields are unchanged |
| SystemAttributes.AtlasSystemAttributes.SetModifiedTime | intg/src/main/java/org/apache/atlas/model/v1/instance/AtlasSystemAttributes.java:93-99 | the getter returns the value set, and the other three fields are unchanged |
| SystemAttributes.AtlasSystemAttributes.Equals | intg/src/main/java/org/apache/atlas/model/v1/instance/AtlasSystemAttributes.java:102-117 | true on the same object; false for null and for another class; otherwise true exactly when all four fields are equal |
| SystemAttributes.EqualsSymmetric | intg/src/main/java/org/apache/atlas/model/v1/instance/AtlasSystemAttributes.java:102-117 | `equals` is symmetric |
| SystemAttributes.EqualsTransitive | intg/src/main/java/org/apache/atlas/model/v1/instance/AtlasSystemAttributes.java:102-117 | `equals` is transitive |
| SystemAttributes.EqualsHashCode | intg/src/main/java/org/apache/atlas/model/v1/instance/AtlasSystemAttributes.java:119-122 | hashCode depends on the four fields only, so equal objects have equal hash codes, whatever the hash arithmetic |

## Left out

- The nested converters and the converter registry are not part of this model. The nested converters are uninterpreted functions, and nothing is claimed about them. Their updates to the conversion context are not modelled: the context is read-only.
- A missing converter (`converterRegistry.getConverter`) is modelled as an `UnsupportedConversion` error for the category.
- The `(AtlasStructType) type` casts are not modelled: the schema is given as a struct schema.
- The type registry is not part of this model. It is a map from type name to schema, and `typeRegistry.getEntityTypeByName` is the lookup `AtlasModel.GetEntityTypeByName` in it; nothing else is claimed about the registry.
- The `AtlasStruct(typeName)` and `Struct(typeName)` constructors are not part of this model. The struct they create is modelled with a null attribute map, not an empty one, and the results for raw maps without attributes depend on that choice.
- The walks require the schema to file every attribute under its own name. The type registry builds its attribute maps that way.
- Keys of raw v1 maps are strings in the model; the `toString()` of other key objects is not modelled.
- An owned collection is modelled as a list. A Java `Set` holding references, and its iteration order, are not modelled.
- The class names in error messages are fixed strings per kind of value, not `getCanonicalName()` of arbitrary classes.
- Logging calls have no effect and are not modelled.
- Storm hook, not modelled because they are I/O, Kafka notification, Java deserialisation, reflection or Hadoop/HBase/Hive configuration:
  - `notify`;
  - `addTopologyDataSets`, `addTopologyInputs`, `addTopologyOutputs` and `addDataSet`;
  - the `driverClass` and `conf` attributes set by `createSpoutInstance`/`createBoltInstance`;
  - `getClusterName` and `extractComponentClusterName`.
- `System.currentTimeMillis()` and the cluster name are parameters of `CreateTopologyInstance`.
- `StormTopologyUtil.getAdjacencyMap` is not part of this model: the adjacency map is an input.
- A null adjacency set is not modelled: every node's adjacency set is a set, possibly empty, and is skipped like an empty one.
- AddGraphConnections: requires every node with successors, and every successor, to be a node of the graph. The source dereferences null otherwise.
- CreateTopologyGraph: returns the node map rather than `new ArrayList<>(nodeEntities.values())`. The order of that list, and of each `outputs` and `inputs` list, follows hash iteration, so the model states these lists as multisets.
- The entity objects are values in the model. Aliasing of the `inputs` list, which is updated in place and set back, is not modelled.
- `String.toLowerCase` is modelled on ASCII letters only. Locale-sensitive lower-casing is not modelled.
- `java.util.Date` is modelled as an integer timestamp.
- SystemAttributes.EqualsHashCode: `HashCode` takes the `Objects.hash` arithmetic as a parameter; only its dependence on the four fields is modelled, so the lemma holds for every hash function.
- The JSON/XML annotations and `Serializable` on `AtlasSystemAttributes` are not modelled.
