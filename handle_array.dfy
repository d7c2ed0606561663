/**
 * JsonSerializer.Read.HandleArray: the StartArray and EndArray transitions,
 * and the two routines that hand a finished value to the current frame
 * (append to a list or buffer, add to a dictionary, or set a property).
 */
module HandleArray {
  import opened Optional
  import opened JsonValues
  import opened Outcomes
  import opened Metadata
  import opened PropertyInfoCommon
  import opened ReadStacks

  /** Applying a value changes only what a frame holds, never where it is in the parse. */
  predicate SameShape(f: Frame, g: Frame) {
    g == f.(returnValue := g.returnValue, tempEnumerable := g.tempEnumerable, tempDictionary := g.tempDictionary)
  }

  /** IList.Add on the list a frame holds. */
  function AppendToList(list: Value, v: Value): (r: Result<Value>)
    ensures list.List? <==> r.Success?
    ensures r.Success? ==> r.value == List(list.items + [v])
  {
    match list
    case List(items) => Success(List(items + [v]))
    case Null => Failure(NullReference)
    case _ => Failure(InvalidCast)
  }

  /** IDictionary.Add after the Contains check: a key already present is a duplicate-key error. */
  function AddToDictionary(d: Value, key: string, v: Value): (r: Result<Value>)
    ensures d.Dict? && HasKey(d.entries, key) ==> r == Failure(DuplicateKey(key))
    ensures d.Dict? && !HasKey(d.entries, key) ==> r == Success(Dict(d.entries + [Entry(key, v)]))
    ensures !d.Dict? ==> r.Failure? && r.error != DuplicateKey(key)
  {
    match d
    case Dict(es) => if HasKey(es, key) then Failure(DuplicateKey(key)) else Success(Dict(es + [Entry(key, v)]))
    case Null => Failure(NullReference)
    case _ => Failure(InvalidCast)
  }

  /** Appends to the frame's own list: the buffer when one was started, else the list in ReturnValue. */
  function AppendToFrameList(f: Frame, value: Value): (r: Result<Frame>)
    ensures r.Success? ==> SameShape(f, r.value)
    ensures f.tempEnumerable.Some? ==>
      var buf := f.tempEnumerable.value;
      r.Success? && r.value.tempEnumerable.Some? && |r.value.tempEnumerable.value| == |buf| + 1
      && r.value.tempEnumerable.value[..|buf|] == buf && r.value.tempEnumerable.value[|buf|] == value
      && r.value.returnValue == f.returnValue
    ensures f.tempEnumerable.None? ==> (r.Success? <==> f.returnValue.List?)
    ensures f.tempEnumerable.None? && r.Success? ==>
      r.value.returnValue.List? && r.value.returnValue.items == f.returnValue.items + [value]
  {
    if f.tempEnumerable.Some? then
      Success(f.(tempEnumerable := Some(f.tempEnumerable.value + [value])))
    else
      var l :- AppendToList(f.returnValue, value);
      Success(f.(returnValue := l))
  }

  /** Appends to the list held by the frame's enumerable property: the buffer, or the list its getter returns. */
  function AppendToPropertyList(f: Frame, value: Value): (r: Result<Frame>)
    requires f.propertyInfo.Some?
    ensures r.Success? ==> SameShape(f, r.value)
    ensures f.tempEnumerable.Some? ==>
      var buf := f.tempEnumerable.value;
      r.Success? && r.value.tempEnumerable == Some(buf + [value]) && r.value.returnValue == f.returnValue
    ensures f.tempEnumerable.None? ==>
      var p := f.propertyInfo.value;
      match GetValueAsObject(p, f.returnValue)
      case Success(List(items)) =>
        r == Success(f.(returnValue := WithInner(p, f.returnValue, List(items + [value]))))
        && GetValueAsObject(p, r.value.returnValue) == Success(List(items + [value]))
      case _ => r.Failure?
  {
    if f.tempEnumerable.Some? then
      Success(f.(tempEnumerable := Some(f.tempEnumerable.value + [value])))
    else
      var p := f.propertyInfo.value;
      var list :- GetValueAsObject(p, f.returnValue);
      var l :- AppendToList(list, value);
      GetAfterWithInner(p, f.returnValue, l);
      Success(f.(returnValue := WithInner(p, f.returnValue, l)))
  }

  /** Adds to the dictionary that the frame's property reads out of `container`, writing the result back. */
  function AddThroughProperty(p: PropertyInfo, container: Value, key: string, value: Value): (r: Result<Value>)
    ensures match GetValueAsObject(p, container)
      case Success(Dict(es)) =>
        (r.Failure? <==> HasKey(es, key))
        && (r.Failure? ==> r.error == DuplicateKey(key))
        && (r.Success? ==> r.value == WithInner(p, container, Dict(es + [Entry(key, value)])))
        && (r.Success? ==> GetValueAsObject(p, r.value) == Success(Dict(es + [Entry(key, value)])))
      case _ => r.Failure?
  {
    var d :- GetValueAsObject(p, container);
    var d' :- AddToDictionary(d, key, value);
    GetAfterWithInner(p, container, d');
    Success(WithInner(p, container, d'))
  }

  /** Where ApplyObjectToEnumerable puts a value: a list, a dictionary, or a property. */
  predicate ObjectGoesToList(f: Frame, setPropertyDirectly: bool) {
    IsEnumerable(f) || (!setPropertyDirectly && IsEnumerableProperty(f))
  }
  predicate ObjectGoesToDictionary(f: Frame, setPropertyDirectly: bool) {
    !ObjectGoesToList(f, setPropertyDirectly) && (IsDictionary(f) || (IsDictionaryProperty(f) && !setPropertyDirectly))
  }

  /**
   * ApplyObjectToEnumerable on the current frame. An enumerable frame appends
   * to its buffer or list; an enumerable property (unless the value is to be
   * set directly) appends to the property's buffer or list; a dictionary
   * frame or dictionary property adds under KeyName, rejecting a duplicate;
   * anything else sets the property through SetValueAsObject.
   */
  function ApplyObject(f: Frame, value: Value, setPropertyDirectly: bool): (r: Result<Frame>)
    ensures r.Success? ==> SameShape(f, r.value)
    ensures IsEnumerable(f) ==> r == AppendToFrameList(f, value)
    ensures !IsEnumerable(f) && ObjectGoesToList(f, setPropertyDirectly) ==> r == AppendToPropertyList(f, value)
    ensures ObjectGoesToDictionary(f, setPropertyDirectly) && f.propertyInfo.Some? && f.returnValue != Null ==>
      match AddThroughProperty(f.propertyInfo.value, f.returnValue, f.keyName, value)
      case Success(c) => r == Success(f.(returnValue := c))
      case Failure(e) => r == Failure(e)
    ensures ObjectGoesToDictionary(f, setPropertyDirectly) && f.propertyInfo.Some? && f.returnValue == Null && f.tempDictionary.Some? ==>
      match AddThroughProperty(f.propertyInfo.value, Dict(f.tempDictionary.value), f.keyName, value)
      case Success(c) => r == (if c.Dict? then Success(f.(tempDictionary := Some(c.entries))) else Failure(InvalidCast))
      case Failure(e) => r == Failure(e)
    ensures ObjectGoesToDictionary(f, setPropertyDirectly) && (f.propertyInfo.None? || (f.returnValue == Null && f.tempDictionary.None?)) ==>
      r == Failure(NullReference)
    ensures !ObjectGoesToList(f, setPropertyDirectly) && !ObjectGoesToDictionary(f, setPropertyDirectly) ==>
      if f.propertyInfo.None? then r == Failure(NullReference)
      else match SetValueAsObject(f.propertyInfo.value, f.returnValue, value)
        case Success(o) => r.Success? && r.value == f.(returnValue := o)
        case Failure(e) => r == Failure(e)
  {
    if IsEnumerable(f) then AppendToFrameList(f, value)
    else if ObjectGoesToList(f, setPropertyDirectly) then AppendToPropertyList(f, value)
    else if ObjectGoesToDictionary(f, setPropertyDirectly) then
      if f.propertyInfo.None? then Failure(NullReference)
      else
        var p := f.propertyInfo.value;
        if f.returnValue != Null then
          var c :- AddThroughProperty(p, f.returnValue, f.keyName, value);
          Success(f.(returnValue := c))
        else if f.tempDictionary.Some? then
          var c :- AddThroughProperty(p, Dict(f.tempDictionary.value), f.keyName, value);
          if c.Dict? then Success(f.(tempDictionary := Some(c.entries))) else Failure(InvalidCast)
        else Failure(NullReference)
    else if f.propertyInfo.None? then Failure(NullReference)
    else
      var o :- SetValueAsObject(f.propertyInfo.value, f.returnValue, value);
      Success(f.(returnValue := o))
  }

  /** Where ApplyValueToEnumerable puts a value. */
  predicate ValueGoesToDictionary(f: Frame) {
    !IsProcessingEnumerable(f) && IsProcessingDictionary(f)
  }

  /**
   * ApplyValueToEnumerable on the current frame: like ApplyObject without the
   * direct-set case, except that a dictionary prefers its TempDictionaryValues
   * buffer, and adds to it without going through the property.
   */
  function ApplyValue(f: Frame, value: Value): (r: Result<Frame>)
    ensures r.Success? ==> SameShape(f, r.value)
    ensures IsEnumerable(f) ==> r == AppendToFrameList(f, value)
    ensures !IsEnumerable(f) && IsEnumerableProperty(f) ==> r == AppendToPropertyList(f, value)
    ensures ValueGoesToDictionary(f) && f.tempDictionary.Some? ==>
      var es := f.tempDictionary.value;
      (r.Failure? <==> HasKey(es, f.keyName))
      && (r.Failure? ==> r.error == DuplicateKey(f.keyName))
      && (r.Success? ==> r.value == f.(tempDictionary := Some(es + [Entry(f.keyName, value)])))
    ensures ValueGoesToDictionary(f) && f.tempDictionary.None? && f.returnValue != Null && f.propertyInfo.Some? ==>
      match AddThroughProperty(f.propertyInfo.value, f.returnValue, f.keyName, value)
      case Success(c) => r == Success(f.(returnValue := c))
      case Failure(e) => r == Failure(e)
    ensures ValueGoesToDictionary(f) && f.tempDictionary.None? && (f.returnValue == Null || f.propertyInfo.None?) ==>
      r == Failure(NullReference)
    ensures !IsProcessingEnumerable(f) && !IsProcessingDictionary(f) ==>
      if f.propertyInfo.None? then r == Failure(NullReference)
      else match SetValueAsObject(f.propertyInfo.value, f.returnValue, value)
        case Success(o) => r == Success(f.(returnValue := o))
        case Failure(e) => r == Failure(e)
  {
    if IsEnumerable(f) then AppendToFrameList(f, value)
    else if IsEnumerableProperty(f) then AppendToPropertyList(f, value)
    else if IsProcessingDictionary(f) then
      if f.tempDictionary.Some? then
        var d :- AddToDictionary(Dict(f.tempDictionary.value), f.keyName, value);
        Success(f.(tempDictionary := Some(d.entries)))
      else if f.returnValue != Null then
        if f.propertyInfo.None? then Failure(NullReference)
        else
          var c :- AddThroughProperty(f.propertyInfo.value, f.returnValue, f.keyName, value);
          Success(f.(returnValue := c))
      else Failure(NullReference)
    else if f.propertyInfo.None? then Failure(NullReference)
    else
      var o :- SetValueAsObject(f.propertyInfo.value, f.returnValue, value);
      Success(f.(returnValue := o))
  }

  /**
   * Adding to a dictionary held by a frame: the new key maps to the value,
   * every other key looks up as before, and keys stay unique.
   */
  lemma {:induction false} ApplyObjectAddsUnderKey(f: Frame, value: Value, setPropertyDirectly: bool, es: seq<Entry>, q: string)
    requires ObjectGoesToDictionary(f, setPropertyDirectly) && f.propertyInfo.Some? && f.returnValue != Null
    requires GetValueAsObject(f.propertyInfo.value, f.returnValue) == Success(Dict(es))
    ensures ApplyObject(f, value, setPropertyDirectly).Failure? <==> HasKey(es, f.keyName)
    ensures ApplyObject(f, value, setPropertyDirectly).Success? ==>
      var es' := Dict(es + [Entry(f.keyName, value)]);
      && GetValueAsObject(f.propertyInfo.value, ApplyObject(f, value, setPropertyDirectly).value.returnValue) == Success(es')
      && Find(es'.entries, q) == (if q == f.keyName then Some(value) else Find(es, q))
      && (UniqueKeys(es) ==> UniqueKeys(es'.entries))
  {
    if !HasKey(es, f.keyName) {
      FindAppend(es, f.keyName, value, q);
      if UniqueKeys(es) {
        AppendKeepsUniqueKeys(es, f.keyName, value);
      }
    }
  }

  /** The same for ApplyValueToEnumerable adding to a TempDictionaryValues buffer. */
  lemma {:induction false} ApplyValueAddsUnderKey(f: Frame, value: Value, q: string)
    requires ValueGoesToDictionary(f) && f.tempDictionary.Some?
    ensures ApplyValue(f, value).Success? ==>
      var es' := ApplyValue(f, value).value.tempDictionary.value;
      && Find(es', q) == (if q == f.keyName then Some(value) else Find(f.tempDictionary.value, q))
      && (UniqueKeys(f.tempDictionary.value) ==> UniqueKeys(es'))
  {
    var es := f.tempDictionary.value;
    if !HasKey(es, f.keyName) {
      FindAppend(es, f.keyName, value, q);
      if UniqueKeys(es) {
        AppendKeepsUniqueKeys(es, f.keyName, value);
      }
    }
  }

  /**
   * GetEnumerableValue: the finished collection of an array frame: the list
   * in ReturnValue of an enumerable frame, otherwise the buffer (or null).
   */
  function GetEnumerableValue(f: Frame): Value {
    if IsEnumerable(f) && f.returnValue != Null then f.returnValue
    else if f.tempEnumerable.Some? then List(f.tempEnumerable.value)
    else Null
  }

  /** The property a StartArray fills: the root's policy property, a polymorphic property, or the current one. */
  function ArrayTargetProperty(opts: SerializerOptions, f: Frame): Result<PropertyInfo> {
    if f.propertyInfo.None? then
      if f.classInfo.None? then Failure(NullReference) else Success(f.classInfo.value.policyProperty)
    else if ClassTypeIs(f, Unknown) then Success(opts.polymorphicProperty(f.propertyInfo.value))
    else Success(f.propertyInfo.value)
  }

  /** A JSON array can fill an enumerable type, but not an array of rank greater than one. */
  predicate AcceptsArray(t: TypeDesc) {
    t.isEnumerable && !(t.isArray && t.rank > 1)
  }

  /**
   * CreateEnumerableValue: a property with an enumerable converter starts an
   * empty buffer and yields no collection yet; an IList type is instantiated
   * by its parameterless constructor; any other type cannot take an array.
   */
  function CreateEnumerableValue(opts: SerializerOptions, f: Frame): Result<(Frame, Value)> {
    if f.propertyInfo.None? then Failure(NullReference)
    else
      var p := f.propertyInfo.value;
      if p.enumerableConverter.Some? then Success((f.(tempEnumerable := Some([])), Null))
      else if p.runtimeType.isIList then
        match opts.classOf(p.runtimeType).createObject
        case None => Failure(NullReference)
        case Some(c) => Success((f, c))
      else Failure(UnableToConvert(p.runtimeType))
  }

  /**
   * The second half of StartArray: a collection the property already holds
   * (set by a constructor, say) is kept; only when it reads as null is a new
   * collection (or buffer) created and stored in the property, or in
   * ReturnValue when there is no object around it.
   */
  function CreateEnumerableIfAbsent(opts: SerializerOptions, f: Frame): (r: Result<Frame>)
    ensures f.propertyInfo.None? ==> r == Failure(NullReference)
    ensures f.propertyInfo.Some? ==>
      var p := f.propertyInfo.value;
      match GetValueAsObject(p, f.returnValue)
      case Success(x) =>
        (x != Null ==> r == Success(f))
        && (x == Null && p.enumerableConverter.Some? ==> r == Success(f.(tempEnumerable := Some([]))))
        && (x == Null && p.enumerableConverter.None? && f.returnValue == Null ==>
              var ctor := opts.classOf(p.runtimeType).createObject;
              (r.Success? <==> p.runtimeType.isIList && ctor.Some?)
              && (r.Success? ==> r.value == f.(returnValue := ctor.value)))
        && (x == Null && p.enumerableConverter.None? && !p.runtimeType.isIList ==> r == Failure(UnableToConvert(p.runtimeType)))
        && (x == Null && p.enumerableConverter.None? && p.runtimeType.isIList && f.returnValue != Null ==>
              match opts.classOf(p.runtimeType).createObject
              case None => r == Failure(NullReference)
              case Some(c) =>
                if c == Null then r == Success(f)
                else match SetValueAsObject(p, f.returnValue, c)
                  case Success(o) => r == Success(f.(returnValue := o))
                  case Failure(e) => r == Failure(e))
      case Failure(e) => r == Failure(e)
    ensures r.Success? ==> r.value.drain == f.drain && r.value.propertyInfo == f.propertyInfo && r.value.classInfo == f.classInfo
  {
    if f.propertyInfo.None? then Failure(NullReference)
    else
      var p := f.propertyInfo.value;
      var current :- GetValueAsObject(p, f.returnValue);
      if current != Null then Success(f)
      else
        var created :- CreateEnumerableValue(opts, f);
        var (g, value) := created;
        if value == Null then Success(g)
        else if g.returnValue != Null then
          var o :- SetValueAsObject(p, g.returnValue, value);
          Success(g.(returnValue := o))
        else Success(g.(returnValue := value))
  }

  /**
   * A list property of an object that reads null ends up holding the
   * collection its type's constructor creates.
   */
  lemma StartArrayStoresInProperty(opts: SerializerOptions, f: Frame, fields: map<string, Value>)
    requires f.returnValue == Obj(fields) && f.propertyInfo.Some?
    requires var p := f.propertyInfo.value;
      !p.isPolicy && p.hasGetter && p.hasSetter && !p.ignoreNullValues
      && p.enumerableConverter.None? && p.runtimeType.isIList
      && GetValueAsObject(p, f.returnValue) == Success(Null)
    requires var c := opts.classOf(f.propertyInfo.value.runtimeType).createObject;
      c.Some? && c.value != Null && CanCast(c.value, f.propertyInfo.value.declaredType)
    ensures var p := f.propertyInfo.value;
      var r := CreateEnumerableIfAbsent(opts, f);
      r.Success? && GetValueAsObject(p, r.value.returnValue) == Success(opts.classOf(p.runtimeType).createObject.value)
  {
    var p := f.propertyInfo.value;
    SetThenGet(p, fields, opts.classOf(p.runtimeType).createObject.value);
  }

  /** The frame StartArray reads into: a new frame for the element type of a nested array, else the current one marked initialized. */
  function ArrayFrame(opts: SerializerOptions, f: Frame): Result<Frame> {
    if f.propertyInitialized then
      if f.classInfo.None? || f.classInfo.value.elementType.None? then Failure(NullReference)
      else
        var elementType := opts.classOf(f.classInfo.value.elementType.value).policyProperty.runtimeType;
        Success(InitializeFrame(opts.classOf(elementType)))
    else Success(f.(propertyInitialized := true))
  }

  /** HandleStartArray. */
  method HandleStartArray(opts: SerializerOptions, state: ReadStack) returns (s: Status)
    requires state.Valid()
    modifies state
    ensures state.Valid()
    ensures old(state.Current()).skipProperty ==>
      s == Ok && state.frames == old(state.frames) + [EmptyFrame.(drain := true)]
    ensures !old(state.Current()).skipProperty ==>
      match ArrayTargetProperty(opts, old(state.Current()))
      case Success(p) => !AcceptsArray(p.runtimeType) ==> s == Fail(UnableToConvert(p.runtimeType)) && state.frames == old(state.frames)
      case Failure(e) => s == Fail(e) && state.frames == old(state.frames)
    ensures !old(state.Current()).skipProperty && s.Ok? ==>
      var f := old(state.Current());
      var n := |old(state.frames)|;
      && ArrayTargetProperty(opts, f).Success? && AcceptsArray(ArrayTargetProperty(opts, f).value.runtimeType)
      && ArrayFrame(opts, f).Success?
      && Success(state.Current()) == CreateEnumerableIfAbsent(opts, ArrayFrame(opts, f).value)
      && (f.propertyInitialized ==> |state.frames| == n + 1 && state.frames[..n] == old(state.frames))
      && (!f.propertyInitialized ==> |state.frames| == n && state.frames[..n - 1] == old(state.frames)[..n - 1])
    ensures
      var f := old(state.Current());
      var n := |old(state.frames)|;
      !f.skipProperty && ArrayTargetProperty(opts, f).Success? && AcceptsArray(ArrayTargetProperty(opts, f).value.runtimeType) ==>
        match ArrayFrame(opts, f)
        case Failure(e) => s == Fail(e) && state.frames == old(state.frames)
        case Success(g) =>
          match CreateEnumerableIfAbsent(opts, g)
          case Failure(e) => s == Fail(e) && state.frames == old(state.frames)
          case Success(h) =>
            && s == Ok
            && (f.propertyInitialized ==> state.frames == old(state.frames) + [h])
            && (!f.propertyInitialized ==> state.frames == old(state.frames)[..n - 1] + [h])
  {
    var f := state.Current();
    if f.skipProperty {
      // The array is not applied to anything: drain it.
      state.Push();
      state.SetCurrent(EmptyFrame.(drain := true));
      return Ok;
    }
    var target := ArrayTargetProperty(opts, f);
    if target.Failure? {
      return Fail(target.error);
    }
    var arrayType := target.value.runtimeType;
    if !AcceptsArray(arrayType) {
      return Fail(UnableToConvert(arrayType));
    }
    var g := ArrayFrame(opts, f);
    if g.Failure? {
      return Fail(g.error);
    }
    var h := CreateEnumerableIfAbsent(opts, g.value);
    if h.Failure? {
      return Fail(h.error);
    }
    if f.propertyInitialized {
      // A nested array gets a frame of its own.
      state.Push();
    }
    state.SetCurrent(h.value);
    s := Ok;
  }

  /** ApplyObjectToEnumerable: applies a finished value to the current frame. */
  method ApplyObjectToEnumerable(value: Value, state: ReadStack, setPropertyDirectly: bool) returns (s: Status)
    requires state.Valid()
    modifies state
    ensures state.Valid()
    ensures match ApplyObject(old(state.Current()), value, setPropertyDirectly)
      case Success(g) => s == Ok && state.frames == old(state.frames)[..|old(state.frames)| - 1] + [g]
      case Failure(e) => s == Fail(e) && state.frames == old(state.frames)
  {
    var r := ApplyObject(state.Current(), value, setPropertyDirectly);
    if r.Failure? {
      return Fail(r.error);
    }
    state.SetCurrent(r.value);
    s := Ok;
  }

  /** ApplyValueToEnumerable: applies a value read by a converter to the current frame. */
  method ApplyValueToEnumerable(value: Value, state: ReadStack) returns (s: Status)
    requires state.Valid()
    modifies state
    ensures state.Valid()
    ensures match ApplyValue(old(state.Current()), value)
      case Success(g) => s == Ok && state.frames == old(state.frames)[..|old(state.frames)| - 1] + [g]
      case Failure(e) => s == Fail(e) && state.frames == old(state.frames)
  {
    var r := ApplyValue(state.Current(), value);
    if r.Failure? {
      return Fail(r.error);
    }
    state.SetCurrent(r.value);
    s := Ok;
  }

  /**
   * What the enumerable converter's CreateFromList yields for the creator
   * cache as it stands: an array converter keeps the items, a collection
   * creator and an immutable collection build the type from them.
   */
  function ListConversion(opts: SerializerOptions, p: PropertyInfo, items: seq<Value>): Result<Value>
    reads opts
  {
    match p.enumerableConverter
    case None => Failure(NullReference)
    case Some(ArrayConverter) => Success(List(items))
    case Some(CollectionCreatorConverter) =>
      if p.elementType.None? then Failure(NullReference)
      else InstanceFromList(opts, p.runtimeType, p.elementType.value, items)
    case Some(ImmutableCollectionConverter(key)) =>
      if p.elementType.None? then Failure(NullReference)
      else ImmutableFromList(opts, p.runtimeType, key, p.elementType.value, items)
    case Some(DefaultICollectionConverter) => Success(opts.construct(p.runtimeType, List(items)))
  }

  /** The creator cache after CreateFromList: only a collection creator may add to it. */
  function CreatorsAfterList(opts: SerializerOptions, p: PropertyInfo): map<TypeDesc, Creator>
    reads opts
  {
    if p.enumerableConverter == Some(CollectionCreatorConverter) && p.elementType.Some? then
      CreatorsAfter(opts, p.runtimeType, CreatorArgumentType(p.runtimeType, p.elementType.value))
    else opts.creators
  }

  /** The enumerable converter's CreateFromList: turns the buffered items into the property's collection type. */
  method CreateFromList(opts: SerializerOptions, p: PropertyInfo, items: seq<Value>) returns (r: Result<Value>)
    modifies opts`creators
    ensures p.enumerableConverter == Some(ArrayConverter) ==> r == Success(List(items))
    ensures p.enumerableConverter.None? ==> r == Failure(NullReference)
    ensures p.enumerableConverter == Some(DefaultICollectionConverter) ==> r == Success(opts.construct(p.runtimeType, List(items)))
    ensures r == old(ListConversion(opts, p, items))
    ensures opts.creators == old(CreatorsAfterList(opts, p))
  {
    match p.enumerableConverter {
      case None =>
        r := Failure(NullReference);
      case Some(ArrayConverter) =>
        r := Success(List(items));
      case Some(CollectionCreatorConverter) =>
        if p.elementType.None? {
          return Failure(NullReference);
        }
        r := CreateIEnumerableInstanceFromList(opts, p.runtimeType, p.elementType.value, items);
      case Some(ImmutableCollectionConverter(key)) =>
        if p.elementType.None? {
          return Failure(NullReference);
        }
        r := CreateImmutableCollectionFromList(opts, p.runtimeType, key, p.elementType.value, items);
      case Some(DefaultICollectionConverter) =>
        r := Success(opts.construct(p.runtimeType, List(items)));
    }
  }

  /**
   * The value an EndArray finishes: the buffer converted by the property's
   * enumerable converter, else the collection GetEnumerableValue finds.
   * The buffer is converted directly rather than through GetEnumerableValue:
   * the two differ only for an enumerable frame that holds both a buffer and
   * a non-null ReturnValue, and no frame does. CreateEnumerableIfAbsent starts
   * a buffer only when the property reads null, which for an enumerable
   * frame's policy property means ReturnValue is null, and then it stores
   * no collection in ReturnValue.
   */
  function FinishedArray(opts: SerializerOptions, f: Frame): (r: Result<Value>)
    reads opts
    ensures f.tempEnumerable.Some? && f.propertyInfo.Some? && f.propertyInfo.value.enumerableConverter == Some(ArrayConverter) ==>
      r == Success(List(f.tempEnumerable.value))
    ensures f.tempEnumerable.None? && IsEnumerable(f) && f.returnValue != Null ==> r == Success(f.returnValue)
    ensures f.tempEnumerable.Some? && f.propertyInfo.None? ==> r == Failure(NullReference)
  {
    if f.tempEnumerable.None? then Success(GetEnumerableValue(f))
    else if f.propertyInfo.None? then Failure(NullReference)
    else ListConversion(opts, f.propertyInfo.value, f.tempEnumerable.value)
  }

  /** The first half of EndArray: the finished value, converting the buffer when there is one. */
  method FinishArray(opts: SerializerOptions, f: Frame) returns (r: Result<Value>)
    modifies opts`creators
    ensures r == old(FinishedArray(opts, f))
    ensures f.tempEnumerable.Some? && f.propertyInfo.Some? ==> opts.creators == old(CreatorsAfterList(opts, f.propertyInfo.value))
    ensures f.tempEnumerable.None? || f.propertyInfo.None? ==> opts.creators == old(opts.creators)
  {
    if f.tempEnumerable.None? {
      return Success(GetEnumerableValue(f));
    }
    if f.propertyInfo.None? {
      return Failure(NullReference);
    }
    r := CreateFromList(opts, f.propertyInfo.value, f.tempEnumerable.value);
  }

  /** The frames an EndArray applies its value to: the frame below a popped enumerable, else the current one. */
  function ApplyTarget(frames: seq<Frame>): seq<Frame>
    requires |frames| > 0
  {
    if |frames| > 1 && IsEnumerable(frames[|frames| - 1]) then frames[..|frames| - 1] else frames
  }

  /** ApplyValueToEnumerable of each value of `vs` in turn, stopping at the first failure. */
  function ApplyValues(f: Frame, vs: seq<Value>): Result<Frame>
    decreases |vs|
  {
    if vs == [] then Success(f)
    else
      var g :- ApplyValue(f, vs[0]);
      ApplyValues(g, vs[1..])
  }

  /**
   * Under an array converter, the elements read into a buffer come out of
   * EndArray as one list, after what the buffer held, in the order read.
   */
  lemma {:induction false} BufferedArrayFinishesWithItems(opts: SerializerOptions, f: Frame, vs: seq<Value>)
    requires f.tempEnumerable.Some? && f.propertyInfo.Some? && f.propertyInfo.value.enumerableConverter == Some(ArrayConverter)
    requires IsEnumerable(f) || IsEnumerableProperty(f)
    ensures ApplyValues(f, vs).Success?
    ensures FinishedArray(opts, ApplyValues(f, vs).value) == Success(List(f.tempEnumerable.value + vs))
    decreases |vs|
  {
    if vs != [] {
      var g := ApplyValue(f, vs[0]).value;
      assert g.tempEnumerable == Some(f.tempEnumerable.value + [vs[0]]);
      BufferedArrayFinishesWithItems(opts, g, vs[1..]);
      assert f.tempEnumerable.value + vs == g.tempEnumerable.value + vs[1..];
    } else {
      assert f.tempEnumerable.value + vs == f.tempEnumerable.value;
    }
  }

  /**
   * What the second half of EndArray does with the finished value: on the
   * last frame it becomes the root result when ReturnValue is null, and a
   * list or dictionary frame is returned as it is; otherwise the value is
   * applied to the frame below a popped enumerable (else to the current
   * frame), whose enumerable property is then reset.
   */
  function EndArrayOutcome(frames: seq<Frame>, value: Value, setPropertyDirectly: bool): (o: (Result<bool>, seq<Frame>))
    requires |frames| > 0
    ensures |o.1| > 0 && (!frames[0].drain ==> !o.1[0].drain)
    ensures o.0 == Success(true) <==> |frames| == 1 && (frames[0].returnValue == Null || IsEnumerable(frames[0]) || IsDictionary(frames[0]))
    ensures o.0 == Success(true) ==> |o.1| == 1
    ensures o.0.Failure? ==> o.1 == ApplyTarget(frames)
    ensures o.0.Success? && |frames| > 1 ==>
      var below := ApplyTarget(frames);
      |o.1| == |below| && o.1[..|below| - 1] == below[..|below| - 1]
  {
    var f := frames[|frames| - 1];
    if |frames| == 1 && f.returnValue == Null then (Success(true), [EmptyFrame.(returnValue := value)])
    else if |frames| == 1 && (IsEnumerable(f) || IsDictionary(f)) then (Success(true), frames)
    else
      var below := ApplyTarget(frames);
      match ApplyObject(below[|below| - 1], value, setPropertyDirectly)
      case Failure(e) => (Failure(e), below)
      case Success(g) => (Success(false), below[..|below| - 1] + [if IsEnumerableProperty(g) then ResetProperty(g) else g])
  }

  /** The second half of EndArray, as EndArrayOutcome says. */
  method StoreFinishedArray(value: Value, setPropertyDirectly: bool, state: ReadStack) returns (r: Result<bool>)
    requires state.Valid()
    modifies state
    ensures state.Valid()
    ensures (r, state.frames) == EndArrayOutcome(old(state.frames), value, setPropertyDirectly)
  {
    var f := state.Current();
    if state.IsLastFrame() {
      if f.returnValue == Null {
        state.SetCurrent(EmptyFrame.(returnValue := value));
        assert state.frames == [EmptyFrame.(returnValue := value)];
        return Success(true);
      } else if IsEnumerable(f) || IsDictionary(f) {
        return Success(true);
      }
      // Otherwise there is an object around the array: fall through.
    } else if IsEnumerable(f) {
      state.Pop();
    }
    var applied := ApplyObjectToEnumerable(value, state, setPropertyDirectly);
    if applied.Fail? {
      return Failure(applied.error);
    }
    if IsEnumerableProperty(state.Current()) {
      state.SetCurrent(ResetProperty(state.Current()));
    }
    r := Success(false);
  }

  /** HandleEndArray: returns whether the finished array is the root result. */
  method HandleEndArray(opts: SerializerOptions, state: ReadStack) returns (r: Result<bool>)
    requires state.Valid()
    modifies state, opts`creators
    ensures state.Valid()
    ensures old(state.Current()).drain ==>
      r == Success(false) && state.frames == old(state.frames)[..|old(state.frames)| - 1]
    ensures
      var f := old(state.Current());
      !f.drain && f.tempEnumerable.None? && IsEnumerableProperty(f) ==>
        r == Success(false) && state.frames == old(state.frames)[..|old(state.frames)| - 1] + [ResetProperty(f)]
    ensures
      var f := old(state.Current());
      var n := |old(state.frames)|;
      !f.drain && !(f.tempEnumerable.None? && IsEnumerableProperty(f)) ==>
        match old(FinishedArray(opts, state.Current()))
        case Failure(e) => r == Failure(e) && state.frames == old(state.frames)
        case Success(value) => (r, state.frames) == EndArrayOutcome(old(state.frames), value, f.tempEnumerable.Some?)
    ensures
      var f := old(state.Current());
      !f.drain && f.tempEnumerable.Some? && f.propertyInfo.Some? ==>
        opts.creators == old(CreatorsAfterList(opts, state.Current().propertyInfo.value))
    ensures
      var f := old(state.Current());
      f.drain || f.tempEnumerable.None? || f.propertyInfo.None? ==> opts.creators == old(opts.creators)
    ensures r == Success(true) ==> |state.frames| == 1
    ensures
      var f := old(state.Current());
      !f.drain && !old(state.IsLastFrame()) && IsEnumerable(f) && (f.tempEnumerable.Some? || !IsEnumerableProperty(f)) && r.Success? ==>
        |state.frames| == |old(state.frames)| - 1 && state.frames[..|state.frames| - 1] == old(state.frames)[..|state.frames| - 1]
  {
    var lastFrame := state.IsLastFrame();
    var f := state.Current();
    if f.drain {
      // The array is not applied to anything.
      state.Pop();
      return Success(lastFrame);
    }
    if f.tempEnumerable.None? && IsEnumerableProperty(f) {
      // The items were added to the property's list as they were read.
      state.SetCurrent(ResetProperty(f));
      return Success(false);
    }
    var finished := FinishArray(opts, f);
    if finished.Failure? {
      return Failure(finished.error);
    }
    r := StoreFinishedArray(finished.value, f.tempEnumerable.Some?, state);
  }
}
