/**
 * JsonSerializer.Read.HandleDictionary: the StartObject and EndObject
 * transitions when the value being read is a dictionary.
 */
module HandleDictionary {
  import opened Optional
  import opened JsonValues
  import opened Outcomes
  import opened Metadata
  import opened PropertyInfoCommon
  import opened ReadStacks
  import opened HandleArray
  import opened HandleObject

  /** The property a dictionary is read through: the pending property, else the root class's own (policy) property. */
  function DictionaryProperty(f: Frame): Result<PropertyInfo> {
    if f.propertyInfo.Some? then Success(f.propertyInfo.value)
    else if f.classInfo.Some? then Success(f.classInfo.value.policyProperty)
    else Failure(NullReference)
  }

  /** The `(IDictionary)CreateObject()` step: a buffer for an IDictionary-constructible value. */
  function StartBuffer(f: Frame, createObject: Option<Value>): (r: Result<Frame>)
    ensures r.Success? <==> createObject.Some? && createObject.value.Dict?
    ensures r.Success? ==> r.value == f.(tempDictionary := Some(createObject.value.entries))
    ensures createObject.None? ==> r == Failure(NullReference)
  {
    match createObject
    case None => Failure(NullReference)
    case Some(Dict(es)) => Success(f.(tempDictionary := Some(es)))
    case Some(_) => Failure(InvalidCast)
  }

  /**
   * The frame pushed for a dictionary nested in a dictionary: it reads the
   * element class. A leaf element class other than object and JsonElement
   * cannot be read as an object; an element class that cannot be created
   * is an error whose kind depends on the class.
   */
  function NestedDictionaryFrame(opts: SerializerOptions, p: PropertyInfo): (r: Result<Frame>)
    ensures p.elementType.None? ==> r == Failure(NullReference)
    ensures p.elementType.Some? ==>
      var ci := opts.classOf(p.elementType.value);
      var f := InitializeFrame(ci);
      && (ci.classType == Value && ci.ty != ObjectType && ci.ty != JsonElementType ==>
            r == Failure(UnableToConvert(ci.ty)))
      && (!(ci.classType == Value && ci.ty != ObjectType && ci.ty != JsonElementType) && ci.createObject.Some? ==>
            (IsProcessingIDictionaryConstructible(f) ==> ci.createObject.value.Dict?) ==> r.Success?)
      && (r.Success? ==>
            && ci.createObject.Some?
            && r.value.classInfo == Some(ci)
            && r.value.propertyInfo == f.propertyInfo
            && r.value.collectionPropertyInitialized && !r.value.drain
            && r.value.returnValue == ci.createObject.value
            && (IsProcessingIDictionaryConstructible(f) <==> r.value.tempDictionary.Some?)
            && (r.value.tempDictionary.Some? ==> Dict(r.value.tempDictionary.value) == ci.createObject.value))
      && (!(ci.classType == Value && ci.ty != ObjectType && ci.ty != JsonElementType) && ci.createObject.None? ==>
            r == Failure(
              if IsProcessingIDictionaryConstructible(f) then NullReference
              else if IsProcessingEnumerableOrIListConstructible(f) then UnableToConvert(ci.ty)
              else CollectionNotSupported(p.declaredType)))
  {
    if p.elementType.None? then Failure(NullReference)
    else
      var ci := opts.classOf(p.elementType.value);
      var f := InitializeFrame(ci).(collectionPropertyInitialized := true);
      if ci.classType == Value && ci.ty != ObjectType && ci.ty != JsonElementType then
        Failure(UnableToConvert(ci.ty))
      else
        var f1 :- if IsProcessingIDictionaryConstructible(f) then StartBuffer(f, ci.createObject) else Success(f);
        if IsProcessingEnumerableOrIListConstructible(f1) then
          match ci.createObject
          case None => Failure(UnableToConvert(ci.ty))
          case Some(v) => Success(f1.(returnValue := v))
        else
          match ci.createObject
          case None => Failure(CollectionNotSupported(p.declaredType))
          case Some(v) => Success(f1.(returnValue := v))
  }

  /**
   * The dictionary read through property `p` of the current frame: an
   * IDictionary-constructible value starts a buffer; otherwise a new
   * dictionary is set on the object being read, or becomes the frame's
   * ReturnValue when there is none.
   */
  function StartDictionaryFrame(opts: SerializerOptions, f: Frame, p: PropertyInfo): (r: Result<Frame>)
    ensures r.Success? ==> SameShape(f.(collectionPropertyInitialized := true), r.value)
    ensures IsProcessingIDictionaryConstructible(f) ==>
      r == StartBuffer(f.(collectionPropertyInitialized := true), opts.classOf(p.runtimeType).createObject)
    ensures !IsProcessingIDictionaryConstructible(f) ==>
      var created := opts.classOf(p.runtimeType).createObject;
      && (created.None? ==> r == Failure(CollectionNotSupported(p.declaredType)))
      && (created.Some? && f.returnValue == Null ==>
            r == Success(f.(collectionPropertyInitialized := true, returnValue := created.value)))
      && (created.Some? && created.value != Null && f.returnValue != Null && f.propertyInfo.Some? ==>
            match SetValueAsObject(f.propertyInfo.value, f.returnValue, created.value)
            case Success(o) => r == Success(f.(collectionPropertyInitialized := true, returnValue := o))
            case Failure(e) => r == Failure(e))
      && (created.Some? && created.value != Null && f.returnValue != Null && f.propertyInfo.None? ==> r == Failure(NullReference))
      && (created == Some(Null) ==> r == Success(f.(collectionPropertyInitialized := true)))
  {
    var g := f.(collectionPropertyInitialized := true);
    if IsProcessingIDictionaryConstructible(g) then
      StartBuffer(g, opts.classOf(p.runtimeType).createObject)
    else
      match opts.classOf(p.runtimeType).createObject
      case None => Failure(CollectionNotSupported(p.declaredType))
      case Some(v) =>
        if v == Null then Success(g)
        else if g.returnValue != Null then
          match g.propertyInfo
          case None => Failure(NullReference)
          case Some(q) =>
            var o :- SetValueAsObject(q, g.returnValue, v);
            Success(g.(returnValue := o))
        else Success(g.(returnValue := v))
  }

  /**
   * A dictionary started for a declared property of an object ends up in that
   * property: reading the property back gives the new dictionary.
   */
  lemma StartDictionaryStoresInProperty(opts: SerializerOptions, f: Frame, fields: map<string, Value>)
    requires f.returnValue == Obj(fields) && f.propertyInfo.Some?
    requires !IsProcessingIDictionaryConstructible(f)
    requires var p := f.propertyInfo.value;
      !p.isPolicy && p.hasGetter && p.hasSetter && !p.ignoreNullValues
    requires var c := opts.classOf(f.propertyInfo.value.runtimeType).createObject;
      c.Some? && c.value != Null && CanCast(c.value, f.propertyInfo.value.declaredType)
    ensures var p := f.propertyInfo.value;
      var r := StartDictionaryFrame(opts, f, p);
      r.Success? && GetValueAsObject(p, r.value.returnValue) == Success(opts.classOf(p.runtimeType).createObject.value)
  {
    var p := f.propertyInfo.value;
    SetThenGet(p, fields, opts.classOf(p.runtimeType).createObject.value);
  }

  /** HandleStartDictionary. */
  method HandleStartDictionary(opts: SerializerOptions, state: ReadStack) returns (s: Status)
    requires state.Valid()
    requires !IsProcessingEnumerableOrIListConstructible(state.Current())
    modifies state
    ensures state.Valid()
    ensures
      var f := old(state.Current());
      var n := |old(state.frames)|;
      match DictionaryProperty(f)
      case Failure(e) => s == Fail(e) && state.frames == old(state.frames)
      case Success(p) =>
        if f.collectionPropertyInitialized then
          match NestedDictionaryFrame(opts, p)
          case Failure(e) => s == Fail(e) && state.frames == old(state.frames)
          case Success(g) => s == Ok && state.frames == old(state.frames) + [g]
        else
          match StartDictionaryFrame(opts, f, p)
          case Failure(e) => s == Fail(e) && state.frames == old(state.frames)
          case Success(g) => s == Ok && state.frames == old(state.frames)[..n - 1] + [g]
  {
    var f := state.Current();
    var property := DictionaryProperty(f);
    if property.Failure? {
      return Fail(property.error);
    }
    var p := property.value;
    if f.collectionPropertyInitialized {
      // A dictionary nested in a dictionary gets a frame of its own.
      var g := NestedDictionaryFrame(opts, p);
      if g.Failure? {
        return Fail(g.error);
      }
      state.Push();
      state.SetCurrent(g.value);
    } else {
      var g := StartDictionaryFrame(opts, f, p);
      if g.Failure? {
        return Fail(g.error);
      }
      state.SetCurrent(g.value);
    }
    s := Ok;
  }

  /**
   * What the dictionary converter's CreateFromDictionary yields for the
   * creator cache as it stands: a creator-built dictionary, an immutable
   * dictionary or a key/value pair made from the buffered entries.
   */
  function DictionaryConversion(opts: SerializerOptions, p: PropertyInfo, es: seq<Entry>): Result<Value>
    reads opts
  {
    match p.dictionaryConverter
    case None => Failure(NullReference)
    case Some(DictionaryCreatorConverter) => InstanceFromDictionary(opts, p.runtimeType, es)
    case Some(ImmutableDictionaryConverter(key)) =>
      if p.elementType.None? then Failure(NullReference)
      else ImmutableFromDictionary(opts, p.runtimeType, key, p.elementType.value, es)
    case Some(KeyValuePairConverter) =>
      if p.elementType.None? then Failure(NullReference)
      else CreateKeyValuePairFromDictionary(es, p.elementType.value, p.runtimeType)
  }

  /** The creator cache after CreateFromDictionary: only a dictionary creator may add to it. */
  function CreatorsAfterDictionary(opts: SerializerOptions, p: PropertyInfo): map<TypeDesc, Creator>
    reads opts
  {
    if p.dictionaryConverter == Some(DictionaryCreatorConverter) then CreatorsAfter(opts, p.runtimeType, IDictionaryType)
    else opts.creators
  }

  /** The dictionary converter's CreateFromDictionary: turns the buffered entries into the property's type. */
  method CreateFromDictionary(opts: SerializerOptions, p: PropertyInfo, es: seq<Entry>) returns (r: Result<Value>)
    modifies opts`creators
    ensures p.dictionaryConverter.None? ==> r == Failure(NullReference)
    ensures p.dictionaryConverter == Some(KeyValuePairConverter) ==>
      r == if p.elementType.None? then Failure(NullReference)
           else CreateKeyValuePairFromDictionary(es, p.elementType.value, p.runtimeType)
    ensures p.dictionaryConverter.Some? && p.dictionaryConverter.value.ImmutableDictionaryConverter? && p.elementType.Some?
            && p.dictionaryConverter.value.delegateKey !in opts.createRange ==>
      r == Failure(UnableToConvert(p.runtimeType))
    ensures p.dictionaryConverter == Some(DictionaryCreatorConverter) && r.Success? ==>
      p.runtimeType in opts.creators && r.value == opts.invoke(opts.creators[p.runtimeType], Dict(es))
    ensures p.dictionaryConverter.Some? && p.dictionaryConverter.value.ImmutableDictionaryConverter? && p.elementType.Some?
            && p.dictionaryConverter.value.delegateKey in opts.createRange ==>
      var ranged := opts.invoke(opts.createRange[p.dictionaryConverter.value.delegateKey], Dict(es));
      r == if forall i | 0 <= i < |es| :: CanCast(es[i].value, p.elementType.value) then Success(ranged) else Failure(InvalidCast)
    ensures r == old(DictionaryConversion(opts, p, es))
    ensures opts.creators == old(CreatorsAfterDictionary(opts, p))
  {
    match p.dictionaryConverter {
      case None =>
        r := Failure(NullReference);
      case Some(DictionaryCreatorConverter) =>
        r := CreateIDictionaryInstanceFromDictionary(opts, p.runtimeType, es);
      case Some(ImmutableDictionaryConverter(key)) =>
        if p.elementType.None? {
          return Failure(NullReference);
        }
        r := CreateImmutableCollectionFromDictionary(opts, p.runtimeType, key, p.elementType.value, es);
      case Some(KeyValuePairConverter) =>
        if p.elementType.None? {
          return Failure(NullReference);
        }
        r := CreateKeyValuePairFromDictionary(es, p.elementType.value, p.runtimeType);
    }
  }

  /**
   * The value an EndObject finishes when the frame reads a dictionary that is
   * not a property: the buffer converted by the dictionary converter, else
   * ReturnValue.
   */
  function FinishedDictionary(opts: SerializerOptions, f: Frame): (r: Result<Value>)
    reads opts
    ensures f.tempDictionary.None? ==> r == Success(f.returnValue)
    ensures f.tempDictionary.Some? && f.propertyInfo.None? ==> r == Failure(NullReference)
    ensures f.tempDictionary.Some? && f.propertyInfo.Some? && f.propertyInfo.value.dictionaryConverter == Some(KeyValuePairConverter)
            && f.propertyInfo.value.elementType.Some? ==>
      r == CreateKeyValuePairFromDictionary(f.tempDictionary.value, f.propertyInfo.value.elementType.value, f.propertyInfo.value.runtimeType)
  {
    if f.tempDictionary.None? then Success(f.returnValue)
    else if f.propertyInfo.None? then Failure(NullReference)
    else DictionaryConversion(opts, f.propertyInfo.value, f.tempDictionary.value)
  }

  /** The end of a dictionary that is the extension-data property: the object around it ends. */
  predicate IsExtensionDataEnd(f: Frame) {
    PropertyIs(f, Dictionary) && f.classInfo.Some? && f.classInfo.value.dataExtensionProperty == f.propertyInfo
  }

  /**
   * HandleEndDictionary: a dictionary property is complete (or, for the
   * extension-data property, the enclosing object ends); an
   * IDictionary-constructible property is converted from its buffer and set;
   * any other dictionary is the finished value, kept at the root or applied
   * to the frame below.
   */
  method HandleEndDictionary(opts: SerializerOptions, state: ReadStack) returns (s: Status)
    requires state.Valid()
    requires PropertyIs(state.Current(), Dictionary) ==> !ClassTypeIs(state.Current(), IDictionaryConstructible)
    modifies state, opts`creators
    ensures state.Valid()
    ensures
      var f := old(state.Current());
      PropertyIs(f, Dictionary) && !IsExtensionDataEnd(f) ==>
        s == (if f.classInfo.None? then Fail(NullReference) else Ok)
        && state.frames == old(state.frames)[..|old(state.frames)| - 1] + (if f.classInfo.None? then [f] else [EndProperty(f)])
    ensures
      var f := old(state.Current());
      var n := |old(state.frames)|;
      (IsExtensionDataEnd(f) || (!PropertyIs(f, Dictionary) && !PropertyIs(f, IDictionaryConstructible) && f.tempDictionary.None?)) ==>
        if n == 1 then s == Ok && state.frames == [EmptyFrame.(returnValue := f.returnValue)]
        else match ApplyObject(old(state.frames)[n - 2], f.returnValue, false)
          case Success(g) => s == Ok && state.frames == old(state.frames)[..n - 2] + [g]
          case Failure(e) => s == Fail(e) && state.frames == old(state.frames)[..n - 1]
    ensures
      var f := old(state.Current());
      var n := |old(state.frames)|;
      PropertyIs(f, IDictionaryConstructible) && f.tempDictionary.Some?
      && f.propertyInfo.value.dictionaryConverter == Some(KeyValuePairConverter) && f.propertyInfo.value.elementType.Some? ==>
        var p := f.propertyInfo.value;
        match CreateKeyValuePairFromDictionary(f.tempDictionary.value, p.elementType.value, p.runtimeType)
        case Failure(e) => s == Fail(e) && state.frames == old(state.frames)
        case Success(kv) =>
          match SetValueAsObject(p, f.returnValue, kv)
          case Failure(e) => s == Fail(e) && state.frames == old(state.frames)
          case Success(o) => s == Ok && state.frames == old(state.frames)[..n - 1] + [EndProperty(f).(returnValue := o)]
    ensures
      var f := old(state.Current());
      var n := |old(state.frames)|;
      PropertyIs(f, IDictionaryConstructible) ==>
        if f.tempDictionary.None? then s == Fail(NullReference) && state.frames == old(state.frames)
        else
          var p := f.propertyInfo.value;
          match old(DictionaryConversion(opts, p, f.tempDictionary.value))
          case Failure(e) => s == Fail(e) && state.frames == old(state.frames)
          case Success(v) =>
            match SetValueAsObject(p, f.returnValue, v)
            case Failure(e) => s == Fail(e) && state.frames == old(state.frames)
            case Success(o) => s == Ok && state.frames == old(state.frames)[..n - 1] + [EndProperty(f).(returnValue := o)]
    ensures
      var f := old(state.Current());
      var n := |old(state.frames)|;
      !PropertyIs(f, Dictionary) && !PropertyIs(f, IDictionaryConstructible) ==>
        match old(FinishedDictionary(opts, state.Current()))
        case Failure(e) => s == Fail(e) && state.frames == old(state.frames)
        case Success(value) =>
          if n == 1 then s == Ok && state.frames == [EmptyFrame.(returnValue := value)]
          else match ApplyObject(old(state.frames)[n - 2], value, false)
            case Success(g) => s == Ok && state.frames == old(state.frames)[..n - 2] + [g]
            case Failure(e) => s == Fail(e) && state.frames == old(state.frames)[..n - 1]
    ensures
      var f := old(state.Current());
      !PropertyIs(f, Dictionary) && f.tempDictionary.Some? && f.propertyInfo.Some? ==>
        opts.creators == old(CreatorsAfterDictionary(opts, state.Current().propertyInfo.value))
    ensures
      var f := old(state.Current());
      PropertyIs(f, Dictionary) || f.tempDictionary.None? || f.propertyInfo.None? ==> opts.creators == old(opts.creators)
  {
    var f := state.Current();
    if PropertyIs(f, Dictionary) {
      if f.classInfo.None? {
        return Fail(NullReference);
      }
      if f.classInfo.value.dataExtensionProperty == f.propertyInfo {
        // The token ends the object that owns the extension-data dictionary.
        s := HandleEndObject(opts, state);
      } else {
        // The entries were added to the property's dictionary as they were read.
        state.SetCurrent(EndProperty(f));
        s := Ok;
      }
    } else if PropertyIs(f, IDictionaryConstructible) {
      var p := f.propertyInfo.value;
      if f.tempDictionary.None? {
        return Fail(NullReference);
      }
      var converted := CreateFromDictionary(opts, p, f.tempDictionary.value);
      if converted.Failure? {
        return Fail(converted.error);
      }
      var o := SetValueAsObject(p, f.returnValue, converted.value);
      if o.Failure? {
        return Fail(o.error);
      }
      state.SetCurrent(EndProperty(f).(returnValue := o.value));
      s := Ok;
    } else {
      var value := f.returnValue;
      if f.tempDictionary.Some? {
        if f.propertyInfo.None? {
          return Fail(NullReference);
        }
        var converted := CreateFromDictionary(opts, f.propertyInfo.value, f.tempDictionary.value);
        if converted.Failure? {
          return Fail(converted.error);
        }
        value := converted.value;
      }
      if state.IsLastFrame() {
        state.SetCurrent(EmptyFrame.(returnValue := value));
        s := Ok;
      } else {
        state.Pop();
        s := ApplyObjectToEnumerable(value, state, false);
      }
    }
  }
}
