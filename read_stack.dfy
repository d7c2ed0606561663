/**
 * ReadStackFrame and ReadStack: the explicit stack that replaces recursion.
 * A frame is a value (a C# struct); the stack is an object whose frames the
 * handlers push, pop and replace. The current frame is the last one.
 */
module ReadStacks {
  import opened Optional
  import opened JsonValues
  import opened Metadata

  datatype Frame = Frame(
    classInfo: Option<ClassInfo>,
    propertyInfo: Option<PropertyInfo>,
    returnValue: Value,
    tempEnumerable: Option<seq<Value>>,   // TempEnumerableValues
    tempDictionary: Option<seq<Entry>>,   // TempDictionaryValues
    keyName: string,
    drain: bool,
    skipProperty: bool,
    propertyInitialized: bool,
    collectionPropertyInitialized: bool)

  /** A frame as Push leaves it, and as Reset leaves the last frame. */
  const EmptyFrame: Frame := Frame(None, None, Null, None, None, "", false, false, false, false)

  predicate ClassTypeIs(f: Frame, ct: ClassType) {
    f.classInfo.Some? && f.classInfo.value.classType == ct
  }

  /** IsProcessingProperty(ct): the frame is positioned on a declared property of category `ct`. */
  predicate PropertyIs(f: Frame, ct: ClassType) {
    f.propertyInfo.Some? && !f.propertyInfo.value.isPolicy && f.propertyInfo.value.classType == ct
  }

  predicate IsEnumerable(f: Frame) { ClassTypeIs(f, Enumerable) }
  predicate IsDictionary(f: Frame) { ClassTypeIs(f, Dictionary) }
  predicate IsEnumerableProperty(f: Frame) { PropertyIs(f, Enumerable) }
  predicate IsDictionaryProperty(f: Frame) { PropertyIs(f, Dictionary) }
  predicate IsProcessingEnumerable(f: Frame) { IsEnumerable(f) || IsEnumerableProperty(f) }
  predicate IsProcessingDictionary(f: Frame) { IsDictionary(f) || IsDictionaryProperty(f) }
  predicate IsProcessingIDictionaryConstructible(f: Frame) {
    ClassTypeIs(f, IDictionaryConstructible) || PropertyIs(f, IDictionaryConstructible)
  }
  predicate IsProcessingIListConstructible(f: Frame) {
    ClassTypeIs(f, IListConstructible) || PropertyIs(f, IListConstructible)
  }
  predicate IsProcessingEnumerableOrIListConstructible(f: Frame) {
    IsProcessingEnumerable(f) || IsProcessingIListConstructible(f)
  }

  /** ResetProperty: forgets everything about the property being read. */
  function ResetProperty(f: Frame): Frame {
    f.(propertyInfo := None, tempEnumerable := None, tempDictionary := None, keyName := "",
       propertyInitialized := false, collectionPropertyInitialized := false)
  }

  /** EndProperty: the property is complete; the frame goes back to reading its object. */
  function EndProperty(f: Frame): Frame {
    ResetProperty(f).(drain := false, skipProperty := false)
  }

  /**
   * Initialize on a freshly pushed frame: the frame reads a value of class
   * `ci`; collections and leaves are addressed through their policy property.
   */
  function InitializeFrame(ci: ClassInfo): (f: Frame)
    ensures f.classInfo == Some(ci) && f.returnValue == Null && !f.drain
  {
    EmptyFrame.(classInfo := Some(ci),
                propertyInfo := if UsesPolicyProperty(ci.classType) then Some(ci.policyProperty) else None)
  }

  class ReadStack {
    var frames: seq<Frame>

    /** The stack is never empty while parsing, and its bottom frame never drains. */
    ghost predicate Valid()
      reads this
    {
      |frames| > 0 && !frames[0].drain
    }

    constructor (root: ClassInfo)
      ensures Valid() && frames == [InitializeFrame(root)]
    {
      frames := [InitializeFrame(root)];
    }

    function Current(): Frame
      reads this
      requires |frames| > 0
    {
      frames[|frames| - 1]
    }

    predicate IsLastFrame()
      reads this
    {
      |frames| == 1
    }

    method Push()
      requires Valid()
      modifies this
      ensures Valid() && frames == old(frames) + [EmptyFrame]
    {
      frames := frames + [EmptyFrame];
    }

    method Pop()
      requires Valid() && |frames| > 1
      modifies this
      ensures Valid() && frames == old(frames)[..|old(frames)| - 1]
    {
      frames := frames[..|frames| - 1];
    }

    /** Replaces the current frame; nothing below it changes. */
    method SetCurrent(f: Frame)
      requires Valid()
      requires |frames| == 1 ==> !f.drain
      modifies this
      ensures Valid() && frames == old(frames)[..|old(frames)| - 1] + [f]
    {
      frames := frames[..|frames| - 1] + [f];
    }
  }
}
