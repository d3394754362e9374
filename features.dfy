/**
 * The data the generator works on: the annotation payloads read from the
 * schema (common.ModelFeature, common.ParserOption, common.ModelFieldOption),
 * the per-field record MergedPickedFieldData and the per-model
 * ModelFeatureCollection (module/utils.go, module/generator.go), the
 * descriptor tree the extractor walks, and ProtoTypesMap.
 */
module Features {
  import opened Wrappers

  // -----------------------------------------------------------------------
  // Annotation payloads
  // -----------------------------------------------------------------------

  /** common.ModelFeature: marks a message as a stored model. */
  datatype ModelFeature = ModelFeature(keeperKey: string)

  /** common.ParserOption: which request helpers a message wants. */
  datatype ParserOption = ParserOption(
    swag: bool,
    paging: bool,
    list: bool,
    merge: bool,
    mergeFrom: string,
    pick: bool,
    pickWith: string,
    fiber: bool)

  /** common.ModelFieldOption: how a field takes part in merge, pick and binding. */
  datatype FieldOption = FieldOption(merged: bool, picked: bool, source: string)

  /** MergedPickedFieldData: what the extractor records about a field. */
  datatype FieldData = FieldData(
    name: string,
    protoType: string,
    goType: string,
    repeated: bool,
    source: string,
    merged: bool,
    picked: bool)

  /**
   * ModelFeatureCollection. Its `fields` member is never written or read
   * and is not part of the model.
   */
  datatype Collection = Collection(
    features: Option<ModelFeature>,
    parser: Option<ParserOption>,
    fieldsList: seq<FieldData>)

  /** &ModelFeatureCollection{}. */
  const EmptyCollection := Collection(None, None, [])

  /** The map the extractor fills, keyed by model name. */
  type FeatureMap = map<string, Collection>

  // -----------------------------------------------------------------------
  // The descriptor tree
  // -----------------------------------------------------------------------

  /**
   * The outcome of reading an extension: not set, set to a value, or a
   * payload that does not decode (Extension returns an error).
   */
  datatype Ext<+T> = Absent | Present(value: T) | Malformed

  /**
   * A field: its proto name, descriptor type name ("TYPE_STRING", ...),
   * whether it is repeated, the name of the message it embeds when it is
   * message-typed, and its field annotation.
   */
  datatype Field = Field(
    name: string,
    protoType: string,
    repeated: bool,
    embed: Option<string>,
    option: Ext<FieldOption>)

  /**
   * A message: its proto name, the Go type name the code generator gives it
   * (pgsgo.Context.Name), its two annotations, its nested messages and its
   * fields, each in declaration order.
   */
  datatype Message = Message(
    name: string,
    goName: string,
    modelFeature: Ext<ModelFeature>,
    parser: Ext<ParserOption>,
    messages: seq<Message>,
    fields: seq<Field>)

  /** A service method; the content of its option is never used. */
  datatype Method = Method(name: string, option: Ext<()>)

  datatype Service = Service(name: string, methods: seq<Method>)

  /** A proto file: its name, its service annotation, messages and services. */
  datatype File = File(
    name: string,
    serviceOption: Ext<()>,
    messages: seq<Message>,
    services: seq<Service>)

  // -----------------------------------------------------------------------
  // ProtoTypesMap
  // -----------------------------------------------------------------------

  /** ProtoTypesMap: descriptor type names to Go type names. */
  const ProtoTypesMap: map<string, string> := map[
    "TYPE_DOUBLE" := "float64",
    "TYPE_FLOAT" := "float32",
    "TYPE_INT64" := "int64",
    "TYPE_UINT64" := "uint64",
    "TYPE_INT32" := "int32",
    "TYPE_BOOL" := "bool",
    "TYPE_STRING" := "string",
    "TYPE_BYTES" := "byte",
    "TYPE_UINT32" := "uint32"]

  /** ProtoTypesMap[t]: Go yields "" for a type the map does not list. */
  function GoType(protoType: string): string
  {
    if protoType in ProtoTypesMap then ProtoTypesMap[protoType] else ""
  }

  /**
   * A descriptor type gets a Go type name exactly when the map lists it;
   * every other type (TYPE_MESSAGE, TYPE_ENUM, TYPE_SINT32, ...) gets "".
   */
  lemma GoTypeKnownIffListed(t: string)
    ensures GoType(t) != "" <==> t in ProtoTypesMap
  {
    if t in ProtoTypesMap {
      assert ProtoTypesMap[t] in ["float64", "float32", "int64", "uint64", "int32", "bool", "string", "byte", "uint32"];
    }
  }
}
