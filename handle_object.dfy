/**
 * JsonSerializer.Read.HandleObject: the StartObject and EndObject
 * transitions for objects (and for dictionaries built from a buffer).
 */
module HandleObject {
  import opened Optional
  import opened JsonValues
  import opened Outcomes
  import opened Metadata
  import opened ReadStacks
  import opened HandleArray

  /** GetElementType: the element type of the collection the frame is reading. */
  function GetElementType(f: Frame): Option<TypeDesc> {
    if (ClassTypeIs(f, Enumerable) || ClassTypeIs(f, IListConstructible)) then f.classInfo.value.elementType
    else if f.propertyInfo.Some? then f.propertyInfo.value.elementType
    else None
  }

  /**
   * The frame a StartObject fills: inside an enumerable or IList-constructible
   * frame a new frame for the element type; for a pending property a new frame
   * for the property's runtime type; at the root the current frame itself.
   * The boolean says whether a frame is pushed.
   */
  function ObjectFrame(opts: SerializerOptions, f: Frame): Result<(bool, Frame)> {
    if IsProcessingEnumerable(f) || IsProcessingIListConstructible(f) then
      match GetElementType(f)
      case None => Failure(NullReference)
      case Some(t) => Success((true, InitializeFrame(opts.classOf(t))))
    else if f.propertyInfo.Some? then
      Success((true, InitializeFrame(opts.classOf(f.propertyInfo.value.runtimeType))))
    else Success((false, f))
  }

  /**
   * The second half of StartObject: an Object type without a parameterless
   * constructor is rejected (as a polymorphic interface when the type is an
   * interface); an IDictionary-constructible target gets an empty
   * TempDictionaryValues buffer; any other target gets a new instance as
   * ReturnValue.
   */
  function CreateObjectInFrame(f: Frame): (r: Result<Frame>)
    ensures f.classInfo.None? ==> r == Failure(NullReference)
    ensures f.classInfo.Some? && f.classInfo.value.createObject.None? && f.classInfo.value.classType == Object ==>
      var t := f.classInfo.value.ty;
      r == Failure(if t.isInterface then PolymorphicInterface(t) else MissingParameterlessConstructor(t))
    ensures r.Success? ==> f.classInfo.Some? && f.classInfo.value.createObject.Some?
    ensures f.classInfo.Some? && f.classInfo.value.createObject.Some? ==>
      (IsProcessingIDictionaryConstructible(f) ==> f.classInfo.value.createObject.value.Dict?) ==> r.Success?
    ensures r.Success? && IsProcessingIDictionaryConstructible(f) ==>
      f.classInfo.value.createObject.value.Dict?
      && r.value == f.(tempDictionary := Some(f.classInfo.value.createObject.value.entries))
    ensures r.Success? && !IsProcessingIDictionaryConstructible(f) ==>
      r.value == f.(returnValue := f.classInfo.value.createObject.value)
  {
    if f.classInfo.None? then Failure(NullReference)
    else
      var ci := f.classInfo.value;
      if ci.createObject.None? && ci.classType == Object then
        if ci.ty.isInterface then Failure(PolymorphicInterface(ci.ty))
        else Failure(MissingParameterlessConstructor(ci.ty))
      else if IsProcessingIDictionaryConstructible(f) then
        match ci.createObject
        case None => Failure(NullReference)
        case Some(Dict(es)) => Success(f.(tempDictionary := Some(es)))
        case Some(_) => Failure(InvalidCast)
      else
        match ci.createObject
        case None => Failure(NullReference)
        case Some(v) => Success(f.(returnValue := v))
  }

  /** HandleStartObject. */
  method HandleStartObject(opts: SerializerOptions, state: ReadStack) returns (s: Status)
    requires state.Valid()
    requires !IsProcessingDictionary(state.Current()) && !IsProcessingIDictionaryConstructible(state.Current())
    modifies state
    ensures state.Valid()
    ensures
      var f := old(state.Current());
      var n := |old(state.frames)|;
      match ObjectFrame(opts, f)
      case Failure(e) => s == Fail(e) && state.frames == old(state.frames)
      case Success((pushed, g)) =>
        match CreateObjectInFrame(g)
        case Failure(e) => s == Fail(e) && state.frames == old(state.frames)
        case Success(h) =>
          && s == Ok
          && (pushed ==> state.frames == old(state.frames) + [h])
          && (!pushed ==> state.frames == old(state.frames)[..n - 1] + [h])
    ensures s.Ok? && (IsProcessingEnumerable(old(state.Current())) || IsProcessingIListConstructible(old(state.Current()))) ==>
      |state.frames| == |old(state.frames)| + 1
      && state.Current().classInfo == Some(opts.classOf(GetElementType(old(state.Current())).value))
    ensures s.Ok? && !IsProcessingEnumerableOrIListConstructible(old(state.Current())) ==>
      && (old(state.Current()).propertyInfo.Some? ==>
            |state.frames| == |old(state.frames)| + 1
            && state.Current().classInfo == Some(opts.classOf(old(state.Current()).propertyInfo.value.runtimeType)))
      && (old(state.Current()).propertyInfo.None? ==> |state.frames| == |old(state.frames)|)
  {
    var target := ObjectFrame(opts, state.Current());
    if target.Failure? {
      return Fail(target.error);
    }
    var (pushed, g) := target.value;
    var h := CreateObjectInFrame(g);
    if h.Failure? {
      return Fail(h.error);
    }
    if pushed {
      state.Push();
    }
    state.SetCurrent(h.value);
    s := Ok;
  }

  /** What HandleEndObject demands: no buffered dictionary, and a dictionary only for the extension-data property. */
  predicate EndObjectAllowed(f: Frame) {
    && (!IsProcessingDictionary(f) || (f.classInfo.Some? && f.classInfo.value.dataExtensionProperty == f.propertyInfo))
    && !IsProcessingIDictionaryConstructible(f)
  }

  /**
   * HandleEndObject: the root object stays as ReturnValue of a reset frame;
   * an inner object pops its frame and is applied to the frame below.
   */
  method HandleEndObject(opts: SerializerOptions, state: ReadStack) returns (s: Status)
    requires state.Valid()
    requires EndObjectAllowed(state.Current())
    modifies state
    ensures state.Valid()
    ensures old(state.IsLastFrame()) ==>
      s == Ok && state.frames == [EmptyFrame.(returnValue := old(state.Current()).returnValue)]
    ensures !old(state.IsLastFrame()) ==>
      var n := |old(state.frames)|;
      match ApplyObject(old(state.frames)[n - 2], old(state.Current()).returnValue, false)
      case Success(g) => s == Ok && state.frames == old(state.frames)[..n - 2] + [g]
      case Failure(e) => s == Fail(e) && state.frames == old(state.frames)[..n - 1]
  {
    var value := state.Current().returnValue;
    if state.IsLastFrame() {
      state.SetCurrent(EmptyFrame.(returnValue := value));
      return Ok;
    }
    state.Pop();
    s := ApplyObjectToEnumerable(value, state, false);
  }
}
