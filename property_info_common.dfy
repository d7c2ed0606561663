/**
 * JsonPropertyInfoCommon<TClass, TDeclaredProperty, TRuntimeProperty>: how a
 * property reads and writes its value on the owning object, which concrete
 * collection type stands for an interface, and how a buffered list or
 * dictionary is turned into a collection that can only be built from a
 * finished one. TClass is an object (`Obj`) whose fields are the properties;
 * TDeclaredProperty is `p.declaredType`; TRuntimeProperty is the type passed
 * as `elem`.
 */
module PropertyInfoCommon {
  import opened Optional
  import opened JsonValues
  import opened Outcomes
  import opened Metadata

  /**
   * Initialize: a declared property gets a getter (setter) only for a public
   * get (set) accessor; a policy property, which has no reflected property,
   * gets both.
   */
  function Initialize(
    reflected: Option<ReflectedProperty>,
    declaredType: TypeDesc,
    runtimeType: TypeDesc,
    classType: ClassType,
    elementType: Option<TypeDesc>,
    ignoreNullValues: bool,
    enumerableConverter: Option<EnumerableConverter>,
    dictionaryConverter: Option<DictionaryConverter>): (p: PropertyInfo)
    ensures p.isPolicy <==> reflected.None?
    ensures p.hasGetter <==> reflected.None? || reflected.value.getter == Some(true)
    ensures p.hasSetter <==> reflected.None? || reflected.value.setter == Some(true)
    ensures reflected.Some? ==> p.name == reflected.value.name
    ensures p.declaredType == declaredType && p.runtimeType == runtimeType && p.classType == classType
    ensures p.ignoreNullValues == ignoreNullValues
  {
    match reflected
    case None =>
      PropertyInfo("", true, true, true, ignoreNullValues, declaredType, runtimeType, classType,
                   elementType, enumerableConverter, dictionaryConverter)
    case Some(rp) =>
      PropertyInfo(rp.name, false, rp.getter == Some(true), rp.setter == Some(true), ignoreNullValues,
                   declaredType, runtimeType, classType, elementType, enumerableConverter, dictionaryConverter)
  }

  /** The getter delegate: reads field `p.name` of the object (an unset field holds null). */
  function Get(p: PropertyInfo, obj: Value): Result<Value> {
    if !p.hasGetter then Failure(NullReference)
    else match obj
      case Obj(fields) => Success(if p.name in fields then fields[p.name] else Null)
      case Null => Failure(NullReference)
      case _ => Failure(InvalidCast)
  }

  /**
   * GetValueAsObject: a policy property stands for the value itself and hands
   * its argument back; a declared property reads the field through its getter.
   */
  function GetValueAsObject(p: PropertyInfo, obj: Value): (r: Result<Value>)
    ensures p.isPolicy ==> r == Success(obj)
    ensures !p.isPolicy && r.Success? ==> p.hasGetter && obj.Obj?
  {
    if p.isPolicy then Success(obj) else Get(p, obj)
  }

  /** The setter delegate: stores `v` in field `p.name` of the object. A policy property has no setter delegate. */
  function Set(p: PropertyInfo, obj: Value, v: Value): Result<Value> {
    if !p.hasSetter || p.isPolicy then Failure(NullReference)
    else match obj
      case Obj(fields) => Success(Obj(fields[p.name := v]))
      case Null => Failure(NullReference)
      case _ => Failure(InvalidCast)
  }

  /**
   * SetValueAsObject: casts the value to the declared type, then stores it,
   * except that a null value is dropped when IgnoreNullValues is set.
   */
  function SetValueAsObject(p: PropertyInfo, obj: Value, v: Value): (r: Result<Value>)
    ensures !CanCast(v, p.declaredType) ==> r == Failure(InvalidCast)
    ensures CanCast(v, p.declaredType) && v == Null && p.ignoreNullValues ==> r == Success(obj)
    ensures r.Success? && !(v == Null && p.ignoreNullValues) ==>
      !p.isPolicy && p.hasSetter && obj.Obj? && r.value.Obj? && r.value.fields.Keys == obj.fields.Keys + {p.name}
  {
    if !CanCast(v, p.declaredType) then Failure(InvalidCast)
    else if v == Null && p.ignoreNullValues then Success(obj)
    else Set(p, obj, v)
  }

  /**
   * Any other value that casts is stored: reading the property back gives the
   * value, and every other field is unchanged.
   */
  lemma SetThenGet(p: PropertyInfo, fields: map<string, Value>, v: Value)
    requires !p.isPolicy && p.hasGetter && p.hasSetter
    requires CanCast(v, p.declaredType) && !(v == Null && p.ignoreNullValues)
    ensures SetValueAsObject(p, Obj(fields), v).Success?
    ensures GetValueAsObject(p, SetValueAsObject(p, Obj(fields), v).value) == Success(v)
    ensures forall f | f in fields && f != p.name :: SetValueAsObject(p, Obj(fields), v).value.fields[f] == fields[f]
  {
  }

  /**
   * Writes back a collection that was read through GetValueAsObject and then
   * changed in place: for a policy property the collection is the value itself,
   * otherwise it is the field the getter read.
   */
  function WithInner(p: PropertyInfo, obj: Value, inner: Value): Value {
    if p.isPolicy then inner
    else match obj
      case Obj(fields) => Obj(fields[p.name := inner])
      case _ => obj
  }

  /** Reading back after a write-back sees the changed collection, and no other field moves. */
  lemma GetAfterWithInner(p: PropertyInfo, obj: Value, inner: Value)
    requires GetValueAsObject(p, obj).Success?
    ensures GetValueAsObject(p, WithInner(p, obj, inner)) == Success(inner)
    ensures !p.isPolicy ==> forall f | f in obj.fields && f != p.name :: WithInner(p, obj, inner).fields[f] == obj.fields[f]
  {
  }

  /**
   * GetConcreteType: the collection type to instantiate for a property whose
   * runtime type is `parentType`. Interfaces that List<T> satisfies become
   * List<TDeclaredProperty>, set interfaces become HashSet<TDeclaredProperty>,
   * and every other type is its own concrete type.
   */
  function GetConcreteType(declared: TypeDesc, parentType: TypeDesc): (r: TypeDesc)
    ensures parentType.assignableFromList ==> r == ListOf(declared)
    ensures !parentType.assignableFromList && parentType.isSetInterface ==> r == HashSetOf(declared)
    ensures !parentType.assignableFromList && !parentType.isSetInterface ==> r == parentType
    ensures !r.isInterface || r == parentType
  {
    if parentType.assignableFromList then ListOf(declared)
    else if parentType.isSetInterface then HashSetOf(declared)
    else parentType
  }

  /** The concrete type is a fixed point: mapping it again changes nothing. */
  lemma ConcreteTypeIsFixedPoint(declared: TypeDesc, parentType: TypeDesc)
    ensures GetConcreteType(declared, GetConcreteType(declared, parentType)) == GetConcreteType(declared, parentType)
  {
  }

  /**
   * CreateGenericIEnumerableFromList: yields every buffered item cast to
   * TRuntimeProperty, in order. The first item that does not cast raises an
   * invalid-cast error.
   */
  method CreateGenericIEnumerableFromList(items: seq<Value>, elem: TypeDesc) returns (r: Result<seq<Value>>)
    ensures r.Success? <==> forall i | 0 <= i < |items| :: CanCast(items[i], elem)
    ensures r.Success? ==> r.value == items
    ensures r.Failure? ==> r.error == InvalidCast
  {
    var out: seq<Value> := [];
    var i := 0;
    while i < |items|
      invariant 0 <= i <= |items|
      invariant out == items[..i]
      invariant forall j | 0 <= j < i :: CanCast(items[j], elem)
    {
      if !CanCast(items[i], elem) {
        return Failure(InvalidCast);
      }
      out := out + [items[i]];
      i := i + 1;
    }
    assert items[..i] == items;
    r := Success(out);
  }

  /**
   * CreateGenericIEnumerableFromDictionary: yields one key/value pair per
   * buffered entry, the value cast to TRuntimeProperty, in enumeration order.
   */
  method CreateGenericIEnumerableFromDictionary(es: seq<Entry>, elem: TypeDesc) returns (r: Result<seq<Entry>>)
    ensures r.Success? <==> forall i | 0 <= i < |es| :: CanCast(es[i].value, elem)
    ensures r.Success? ==> r.value == es
    ensures r.Failure? ==> r.error == InvalidCast
  {
    var out: seq<Entry> := [];
    var i := 0;
    while i < |es|
      invariant 0 <= i <= |es|
      invariant out == es[..i]
      invariant forall j | 0 <= j < i :: CanCast(es[j].value, elem)
    {
      if !CanCast(es[i].value, elem) {
        return Failure(InvalidCast);
      }
      out := out + [Entry(es[i].key, es[i].value)];
      i := i + 1;
    }
    assert es[..i] == es;
    r := Success(out);
  }

  /** The argument type a parameterised creator for `enumerableType` takes. */
  function CreatorArgumentType(enumerableType: TypeDesc, elem: TypeDesc): TypeDesc {
    if IsGeneric(enumerableType) then IEnumerableOf(elem) else ICollectionType
  }

  /** The creator GetOrAddParameterizedCreator yields: the cached one, else the one the strategy makes. */
  function CreatorFor(opts: SerializerOptions, ty: TypeDesc, argumentType: TypeDesc): Option<Creator>
    reads opts
  {
    if ty in opts.creators then Some(opts.creators[ty]) else opts.strategy(ty, argumentType)
  }

  /** The creator cache after GetOrAddParameterizedCreator: a new creator is added, nothing else changes. */
  function CreatorsAfter(opts: SerializerOptions, ty: TypeDesc, argumentType: TypeDesc): map<TypeDesc, Creator>
    reads opts
  {
    if ty !in opts.creators && opts.strategy(ty, argumentType).Some? then opts.creators[ty := opts.strategy(ty, argumentType).value]
    else opts.creators
  }

  /**
   * What CreateIEnumerableInstanceFromList yields for the cache as it stands:
   * no creator is a JSON error; a generic type first casts every item; the
   * creator then receives the finished list.
   */
  function InstanceFromList(opts: SerializerOptions, enumerableType: TypeDesc, elem: TypeDesc, items: seq<Value>): (r: Result<Value>)
    reads opts
    ensures r.Success? <==>
      CreatorFor(opts, enumerableType, CreatorArgumentType(enumerableType, elem)).Some?
      && (IsGeneric(enumerableType) ==> forall i | 0 <= i < |items| :: CanCast(items[i], elem))
  {
    match CreatorFor(opts, enumerableType, CreatorArgumentType(enumerableType, elem))
    case None => Failure(UnableToConvert(enumerableType))
    case Some(c) =>
      if IsGeneric(enumerableType) && exists i | 0 <= i < |items| :: !CanCast(items[i], elem) then Failure(InvalidCast)
      else Success(opts.invoke(c, List(items)))
  }

  /** What CreateIDictionaryInstanceFromDictionary yields for the cache as it stands. */
  function InstanceFromDictionary(opts: SerializerOptions, dictionaryType: TypeDesc, es: seq<Entry>): Result<Value>
    reads opts
  {
    match CreatorFor(opts, dictionaryType, IDictionaryType)
    case None => Failure(UnableToConvert(dictionaryType))
    case Some(c) => Success(opts.invoke(c, Dict(es)))
  }

  /** What CreateImmutableCollectionFromList yields. */
  function ImmutableFromList(opts: SerializerOptions, collectionType: TypeDesc, delegateKey: string, elem: TypeDesc, items: seq<Value>): Result<Value> {
    if delegateKey !in opts.createRange then Failure(UnableToConvert(collectionType))
    else if exists i | 0 <= i < |items| :: !CanCast(items[i], elem) then Failure(InvalidCast)
    else Success(opts.invoke(opts.createRange[delegateKey], List(items)))
  }

  /** What CreateImmutableCollectionFromDictionary yields. */
  function ImmutableFromDictionary(opts: SerializerOptions, collectionType: TypeDesc, delegateKey: string, elem: TypeDesc, es: seq<Entry>): Result<Value> {
    if delegateKey !in opts.createRange then Failure(UnableToConvert(collectionType))
    else if exists i | 0 <= i < |es| :: !CanCast(es[i].value, elem) then Failure(InvalidCast)
    else Success(opts.invoke(opts.createRange[delegateKey], Dict(es)))
  }

  /**
   * The parameterised-creator cache: a hit returns the cached creator and
   * changes nothing; a miss asks the materializer strategy, fails when it has
   * no creator, and otherwise adds the creator to the cache.
   */
  method GetOrAddParameterizedCreator(opts: SerializerOptions, ty: TypeDesc, argumentType: TypeDesc)
    returns (r: Result<Creator>)
    modifies opts`creators
    ensures old(ty in opts.creators) ==> r == Success(old(opts.creators[ty])) && opts.creators == old(opts.creators)
    ensures !old(ty in opts.creators) && opts.strategy(ty, argumentType).None? ==>
      r == Failure(UnableToConvert(ty)) && opts.creators == old(opts.creators)
    ensures !old(ty in opts.creators) && opts.strategy(ty, argumentType).Some? ==>
      r == Success(opts.strategy(ty, argumentType).value) && opts.creators == old(opts.creators)[ty := r.value]
  {
    if ty in opts.creators {
      return Success(opts.creators[ty]);
    }
    var created := opts.strategy(ty, argumentType);
    if created.None? {
      return Failure(UnableToConvert(ty));
    }
    opts.creators := opts.creators[ty := created.value];
    r := Success(created.value);
  }

  /**
   * CreateIEnumerableInstanceFromList: builds `enumerableType` by passing the
   * finished list to its parameterised creator, typed as IEnumerable<T> for a
   * generic type and as ICollection otherwise.
   */
  method CreateIEnumerableInstanceFromList(opts: SerializerOptions, enumerableType: TypeDesc, elem: TypeDesc, items: seq<Value>)
    returns (r: Result<Value>)
    modifies opts`creators
    ensures old(enumerableType in opts.creators) ==> opts.creators == old(opts.creators)
    ensures !old(enumerableType in opts.creators) ==>
      var created := opts.strategy(enumerableType, CreatorArgumentType(enumerableType, elem));
      if created.None? then r == Failure(UnableToConvert(enumerableType)) && opts.creators == old(opts.creators)
      else opts.creators == old(opts.creators)[enumerableType := created.value]
    ensures r.Success? ==> enumerableType in opts.creators && r.value == opts.invoke(opts.creators[enumerableType], List(items))
    ensures r.Failure? && enumerableType in opts.creators ==>
      r.error == InvalidCast && IsGeneric(enumerableType) && exists i | 0 <= i < |items| :: !CanCast(items[i], elem)
    ensures enumerableType in opts.creators && (!IsGeneric(enumerableType) || forall i | 0 <= i < |items| :: CanCast(items[i], elem)) ==>
      r.Success?
    ensures r == old(InstanceFromList(opts, enumerableType, elem, items))
    ensures opts.creators == old(CreatorsAfter(opts, enumerableType, CreatorArgumentType(enumerableType, elem)))
  {
    var creator :- GetOrAddParameterizedCreator(opts, enumerableType, CreatorArgumentType(enumerableType, elem));
    if IsGeneric(enumerableType) {
      var typed :- CreateGenericIEnumerableFromList(items, elem);
      r := Success(opts.invoke(creator, List(typed)));
    } else {
      r := Success(opts.invoke(creator, List(items)));
    }
  }

  /**
   * CreateIDictionaryInstanceFromDictionary: builds a dictionary type by
   * passing the finished dictionary to its parameterised creator. Only
   * non-generic types are meant to arrive here; nothing enforces it.
   */
  method CreateIDictionaryInstanceFromDictionary(opts: SerializerOptions, dictionaryType: TypeDesc, es: seq<Entry>)
    returns (r: Result<Value>)
    modifies opts`creators
    ensures old(dictionaryType in opts.creators) ==> opts.creators == old(opts.creators)
    ensures !old(dictionaryType in opts.creators) ==>
      var created := opts.strategy(dictionaryType, IDictionaryType);
      if created.None? then r == Failure(UnableToConvert(dictionaryType)) && opts.creators == old(opts.creators)
      else opts.creators == old(opts.creators)[dictionaryType := created.value]
    ensures r.Success? <==> dictionaryType in opts.creators
    ensures r.Success? ==> r.value == opts.invoke(opts.creators[dictionaryType], Dict(es))
    ensures r == old(InstanceFromDictionary(opts, dictionaryType, es))
    ensures opts.creators == old(CreatorsAfter(opts, dictionaryType, IDictionaryType))
  {
    var creator :- GetOrAddParameterizedCreator(opts, dictionaryType, IDictionaryType);
    r := Success(opts.invoke(creator, Dict(es)));
  }

  /**
   * CreateImmutableCollectionFromList: an immutable collection is built by its
   * cached CreateRange delegate; a missing delegate is a JSON error.
   */
  method CreateImmutableCollectionFromList(opts: SerializerOptions, collectionType: TypeDesc, delegateKey: string, elem: TypeDesc, items: seq<Value>)
    returns (r: Result<Value>)
    ensures delegateKey !in opts.createRange ==> r == Failure(UnableToConvert(collectionType))
    ensures delegateKey in opts.createRange && (forall i | 0 <= i < |items| :: CanCast(items[i], elem)) ==>
      r == Success(opts.invoke(opts.createRange[delegateKey], List(items)))
    ensures delegateKey in opts.createRange && (exists i | 0 <= i < |items| :: !CanCast(items[i], elem)) ==>
      r == Failure(InvalidCast)
    ensures r == ImmutableFromList(opts, collectionType, delegateKey, elem, items)
  {
    if delegateKey !in opts.createRange {
      return Failure(UnableToConvert(collectionType));
    }
    var typed :- CreateGenericIEnumerableFromList(items, elem);
    r := Success(opts.invoke(opts.createRange[delegateKey], List(typed)));
  }

  /** CreateImmutableCollectionFromDictionary: the same, for immutable dictionaries. */
  method CreateImmutableCollectionFromDictionary(opts: SerializerOptions, collectionType: TypeDesc, delegateKey: string, elem: TypeDesc, es: seq<Entry>)
    returns (r: Result<Value>)
    ensures delegateKey !in opts.createRange ==> r == Failure(UnableToConvert(collectionType))
    ensures delegateKey in opts.createRange && (forall i | 0 <= i < |es| :: CanCast(es[i].value, elem)) ==>
      r == Success(opts.invoke(opts.createRange[delegateKey], Dict(es)))
    ensures delegateKey in opts.createRange && (exists i | 0 <= i < |es| :: !CanCast(es[i].value, elem)) ==>
      r == Failure(InvalidCast)
    ensures r == ImmutableFromDictionary(opts, collectionType, delegateKey, elem, es)
  {
    if delegateKey !in opts.createRange {
      return Failure(UnableToConvert(collectionType));
    }
    var typed :- CreateGenericIEnumerableFromDictionary(es, elem);
    r := Success(opts.invoke(opts.createRange[delegateKey], Dict(typed)));
  }

  /**
   * CreateKeyValuePairFromDictionary: a KeyValuePair<string, T> arrives either
   * as the one-entry object {"key": value} or as the two-entry object
   * {"Key": "key", "Value": value}; any other shape is a JSON error naming
   * the property's runtime type.
   */
  function CreateKeyValuePairFromDictionary(es: seq<Entry>, elem: TypeDesc, enumerableType: TypeDesc): (r: Result<Value>)
    ensures r.Success? ==> r.value.Pair?
    ensures |es| == 1 && CanCast(es[0].value, elem) ==> r == Success(Pair(es[0].key, es[0].value))
    ensures |es| == 1 && !CanCast(es[0].value, elem) ==> r == Failure(InvalidCast)
    ensures |es| != 1 && |es| != 2 ==> r == Failure(UnableToConvert(enumerableType))
    ensures |es| == 2 && r.Success? ==>
      Find(es, "Key") == Some(Str(r.value.key)) && Find(es, "Value") == Some(r.value.val) && IsInstance(r.value.val, elem)
  {
    if |es| == 1 then
      if CanCast(es[0].value, elem) then Success(Pair(es[0].key, es[0].value)) else Failure(InvalidCast)
    else if |es| == 2 then
      match (Find(es, "Key"), Find(es, "Value"))
      case (Some(Str(key)), Some(value)) =>
        if IsInstance(value, elem) then Success(Pair(key, value)) else Failure(UnableToConvert(enumerableType))
      case _ => Failure(UnableToConvert(enumerableType))
    else Failure(UnableToConvert(enumerableType))
  }

  /**
   * The two accepted shapes reconstruct the same pair: {"k": v} and
   * {"Key": "k", "Value": v} both give (k, v), whichever order the two
   * entries arrive in.
   */
  lemma {:induction false} KeyValuePairShapesAgree(k: string, v: Value, elem: TypeDesc, ty: TypeDesc, swapped: bool)
    requires IsInstance(v, elem)
    ensures
      var two := if swapped then [Entry("Value", v), Entry("Key", Str(k))] else [Entry("Key", Str(k)), Entry("Value", v)];
      CreateKeyValuePairFromDictionary(two, elem, ty) == CreateKeyValuePairFromDictionary([Entry(k, v)], elem, ty) == Success(Pair(k, v))
  {
    var two := if swapped then [Entry("Value", v), Entry("Key", Str(k))] else [Entry("Key", Str(k)), Entry("Value", v)];
    assert "Key" != "Value";
    if swapped {
      assert two[1..] == [Entry("Key", Str(k))];
      assert Find(two, "Key") == Some(Str(k));
      assert Find(two, "Value") == Some(v);
    } else {
      assert two[1..] == [Entry("Value", v)];
      assert Find(two, "Key") == Some(Str(k));
      assert Find(two, "Value") == Some(v);
    }
  }

  /** A third entry next to "Key" and "Value" is rejected. */
  lemma ExtraEntryRejected(k: string, v: Value, extra: Entry, elem: TypeDesc, ty: TypeDesc)
    ensures CreateKeyValuePairFromDictionary([Entry("Key", Str(k)), Entry("Value", v), extra], elem, ty)
      == Failure(UnableToConvert(ty))
  {
  }

  /** Two entries that do not name "Key" (as a string) and "Value" are rejected. */
  lemma TwoEntriesWithoutKeyRejected(es: seq<Entry>, elem: TypeDesc, ty: TypeDesc)
    requires |es| == 2 && !HasKey(es, "Key")
    ensures CreateKeyValuePairFromDictionary(es, elem, ty) == Failure(UnableToConvert(ty))
  {
  }
}
