/**
 * Per-type and per-property metadata, and the serializer options that carry
 * the class registry, the activation strategy and the parameterised-creator
 * cache. Everything the core obtains from reflection or code generation is a
 * constant of the options object, supplied from outside.
 */
module Metadata {
  import opened Optional
  import opened JsonValues

  /** The structural category of a type. */
  datatype ClassType = Unknown | Object | Value | Enumerable | Dictionary | IListConstructible | IDictionaryConstructible

  /** How a buffered list becomes the property's collection at the end of the array. */
  datatype EnumerableConverter =
    | ArrayConverter                          // builds an array of the buffered items
    | CollectionCreatorConverter              // a constructor taking the finished collection
    | ImmutableCollectionConverter(delegateKey: string) // a cached CreateRange delegate
    | DefaultICollectionConverter             // Activator.CreateInstance(runtime type, finished list)

  /** How a buffered dictionary becomes the property's value at the end of the object. */
  datatype DictionaryConverter =
    | DictionaryCreatorConverter
    | ImmutableDictionaryConverter(delegateKey: string)
    | KeyValuePairConverter

  /** The accessors reflection reports for a declared property: Some(isPublic), or None when absent. */
  datatype ReflectedProperty = ReflectedProperty(name: string, getter: Option<bool>, setter: Option<bool>)

  /** JsonPropertyInfo: a declared property, or the policy property that stands for a whole collection. */
  datatype PropertyInfo = PropertyInfo(
    name: string,
    isPolicy: bool,
    hasGetter: bool,
    hasSetter: bool,
    ignoreNullValues: bool,
    declaredType: TypeDesc,
    runtimeType: TypeDesc,
    classType: ClassType,           // category of the runtime type
    elementType: Option<TypeDesc>,  // element (or dictionary value) type of a collection property
    enumerableConverter: Option<EnumerableConverter>,
    dictionaryConverter: Option<DictionaryConverter>)

  /** JsonClassInfo: the metadata of one type. */
  datatype ClassInfo = ClassInfo(
    ty: TypeDesc,
    classType: ClassType,
    createObject: Option<Value>,        // what the parameterless constructor returns; None when there is none
    elementType: Option<TypeDesc>,
    policyProperty: PropertyInfo,       // the property that stands for the whole value
    dataExtensionProperty: Option<PropertyInfo>)

  /** An opaque handle on a delegate that builds a collection from a finished one. */
  datatype Creator = Creator(id: nat)

  /** Class-type categories whose frames address their value through the policy property. */
  predicate UsesPolicyProperty(ct: ClassType) {
    ct == Value || ct == Enumerable || ct == Dictionary || ct == IListConstructible || ct == IDictionaryConstructible
  }

  /**
   * JsonSerializerOptions. `classOf` is GetOrAddClass, `strategy` is the
   * class materializer's CreateParameterizedCreator, `createRange` holds the
   * immutable collections' CreateRange delegates by key and `invoke` runs a
   * creator on a finished collection. `construct` is Activator.CreateInstance
   * of a type whose constructor takes the finished collection. `creators` is the parameterised-creator
   * cache, the one piece of state the core updates.
   */
  class SerializerOptions {
    const classOf: TypeDesc -> ClassInfo
    const strategy: (TypeDesc, TypeDesc) -> Option<Creator>
    const createRange: map<string, Creator>
    const invoke: (Creator, Value) -> Value
    const construct: (TypeDesc, Value) -> Value
    const polymorphicProperty: PropertyInfo -> PropertyInfo
    const dictionaryKeyPolicy: Option<string -> Option<string>>
    var creators: map<TypeDesc, Creator>

    constructor (
      classOf: TypeDesc -> ClassInfo,
      strategy: (TypeDesc, TypeDesc) -> Option<Creator>,
      createRange: map<string, Creator>,
      invoke: (Creator, Value) -> Value,
      construct: (TypeDesc, Value) -> Value,
      polymorphicProperty: PropertyInfo -> PropertyInfo,
      dictionaryKeyPolicy: Option<string -> Option<string>>)
      ensures this.classOf == classOf && this.strategy == strategy && this.createRange == createRange
      ensures this.invoke == invoke && this.construct == construct && this.polymorphicProperty == polymorphicProperty
      ensures this.dictionaryKeyPolicy == dictionaryKeyPolicy
      ensures creators == map[]
    {
      this.classOf := classOf;
      this.strategy := strategy;
      this.createRange := createRange;
      this.invoke := invoke;
      this.construct := construct;
      this.polymorphicProperty := polymorphicProperty;
      this.dictionaryKeyPolicy := dictionaryKeyPolicy;
      creators := map[];
    }
  }
}
