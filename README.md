# System.Text.Json resumable deserialization, in Dafny

This project models the core of the System.Text.Json deserializer (snapshot of
the corefx repository). The parser does not recurse. It keeps an explicit
`ReadStack` of frames, one per JSON object or array being built, and a token
handler runs for each structural token:

- `HandleStartArray` / `HandleEndArray`
- `HandleStartObject` / `HandleEndObject`
- `HandleStartDictionary` / `HandleEndDictionary`
- `ApplyObjectToEnumerable` / `ApplyValueToEnumerable`, which hand a finished
  value to the frame below

Each handler pushes or pops a frame, creates a container or starts a deferred
buffer (`TempEnumerableValues` / `TempDictionaryValues`), appends to a list,
or adds to a dictionary and rejects a duplicate key. At the end token it
either hands the finished value to the parent frame or keeps it as the root
result.

Under the handlers sits the per-property contract of
`JsonPropertyInfoCommon` and `JsonPropertyInfoNullable`:

- getting and setting a property, where a null value is ignored under
  `IgnoreNullValues`;
- the concrete collection type that stands for an interface;
- the parameterised-creator cache;
- building collections that can only be made from a finished list or
  dictionary (immutable collections, key/value pairs);
- the read and write rules of nullable properties.

Layout:

- `values.dfy`: values (`Null`, strings, numbers, lists, ordered dictionaries,
  objects, key/value pairs), type descriptions and error outcomes.
- `metadata.dfy`: class and property metadata, and the serializer options
  with their creator cache.
- `read_stack.dfy`: `Frame` (a C# struct, so a datatype) and the `ReadStack`
  class.
- `property_info_common.dfy`, `handle_array.dfy`, `handle_object.dfy`,
  `handle_dictionary.dfy`, `property_info_nullable.dfy`: one module per
  source file.

Modelling decisions:

- **Handlers are methods over the `ReadStack` object.** Each one's
  postcondition gives the new stack through pure functions on frames
  (`ApplyObject`, `CreateObjectInFrame`, `StartDictionaryFrame`, …). The
  lemmas are stated about those functions.
- **Exceptions become `Fail(e)` / `Failure(e)` outcomes.** The same goes for
  the invalid casts and null dereferences that the release build would
  throw.
- **`Debug.Assert` is absent in a release build.** It becomes a `requires`
  only where the model could not otherwise continue: the entry conditions of
  `HandleStartObject`, `HandleEndObject` and `HandleStartDictionary`.
  Everywhere else the code path the release build takes is modelled.
- **The snapshot is mid-refactor.** Call sites and definitions disagree in
  arity, and the model uses the evident intended signatures:
  - `ApplyObjectToEnumerable(value, state, setPropertyDirectly = false)`;
  - `HandleEndObject(options, state)`;
  - `JsonPropertyInfoNullable` with its underlying type as
    `TRuntimeProperty`.
- **Dictionaries are ordered entry lists.** Their lookup is `Find`, and
  duplicate-key rejection keeps their keys unique.
- **Everything outside the core is a parameter.** The materializer strategy,
  the `CreateRange` delegates, creator invocation, `Activator.CreateInstance` and the polymorphic-property
  factory are function-valued constants of `SerializerOptions`. A class's
  `CreateObject` is an `Option` value on its class info. A value converter is
  a pair of functions between token text and values.
- **The writer is an append-only token sequence.**

## Model

| member | source | states |
|---|---|---|
| JsonValues.Find | src/System.Text.Json/src/System/Text/Json/Serialization/JsonSerializer.Read.HandleArray.cs:199-204 | the dictionary indexer finds a value exactly when the key is present, and the value found is stored under that key |
| JsonValues.FindAppend | src/System.Text.Json/src/System/Text/Json/Serialization/JsonSerializer.Read.HandleArray.cs:201-204 | adding a key that is not present makes it map to the new value and leaves every other lookup unchanged |
| JsonValues.AppendKeepsUniqueKeys | src/System.Text.Json/src/System/Text/Json/Serialization/JsonSerializer.Read.HandleArray.cs:201-208 | adding only absent keys keeps a dictionary's keys unique |
| PropertyInfoCommon.Initialize | src/System.Text.Json/src/System/Text/Json/Serialization/JsonPropertyInfoCommon.cs:34-53 | HasGetter (HasSetter) holds iff the reflected get (set) accessor is public, or the property is a policy property, which has both; IsPropertyPolicy holds iff there is no reflected property |
| PropertyInfoCommon.GetValueAsObject | src/System.Text.Json/src/System/Text/Json/Serialization/JsonPropertyInfoCommon.cs:64-73 | a policy property returns its argument unchanged; a declared property reads only through a getter, on an object |
| PropertyInfoCommon.SetValueAsObject | src/System.Text.Json/src/System/Text/Json/Serialization/JsonPropertyInfoCommon.cs:75-84 | a value that does not cast to the declared type is an invalid cast; a null value under IgnoreNullValues leaves the object exactly as it was; any other success went through a declared property's setter on an object, adding no field but the property's |
| PropertyInfoCommon.SetThenGet | src/System.Text.Json/src/System/Text/Json/Serialization/JsonPropertyInfoCommon.cs:75-84 | any other value that casts to the declared type is stored: reading the property back gives it, and no other field changes |
| PropertyInfoCommon.GetAfterWithInner | src/System.Text.Json/src/System/Text/Json/Serialization/JsonSerializer.Read.HandleArray.cs:179-181 | a collection read through a property and changed in place is seen changed when read back through the property, and no other field moves |
| PropertyInfoCommon.GetConcreteType | src/System.Text.Json/src/System/Text/Json/Serialization/JsonPropertyInfoCommon.cs:95-107 | list-assignable interfaces map to List<T>, set interfaces to HashSet<T>, any other type to itself; the result is never an interface it was not given |
| PropertyInfoCommon.ConcreteTypeIsFixedPoint | src/System.Text.Json/src/System/Text/Json/Serialization/JsonPropertyInfoCommon.cs:95-107 | mapping the concrete type again changes nothing |
| PropertyInfoCommon.CreateGenericIEnumerableFromList | src/System.Text.Json/src/System/Text/Json/Serialization/JsonPropertyInfoCommon.cs:223-229 | succeeds iff every item casts to the element type, then yields exactly the items in order (one per input); otherwise an invalid cast (the cast is eager, see Left out) |
| PropertyInfoCommon.CreateGenericIEnumerableFromDictionary | src/System.Text.Json/src/System/Text/Json/Serialization/JsonPropertyInfoCommon.cs:231-237 | the same for dictionary entries: one pair per entry, keys and order kept |
| PropertyInfoCommon.GetOrAddParameterizedCreator | src/System.Text.Json/src/System/Text/Json/Serialization/JsonPropertyInfoCommon.cs:112-132 | a cache hit returns the cached creator and leaves the cache unchanged; a miss with no creator fails and leaves it unchanged; otherwise the new creator is added, so a second call hits |
| PropertyInfoCommon.CreateIEnumerableInstanceFromList | src/System.Text.Json/src/System/Text/Json/Serialization/JsonPropertyInfoCommon.cs:110-139 | the cache is updated as above; the result is the cached creator applied to the list; with a creator cached it succeeds iff the type is not generic or every item casts, and fails only with an invalid cast |
| PropertyInfoCommon.InstanceFromList | src/System.Text.Json/src/System/Text/Json/Serialization/JsonPropertyInfoCommon.cs:110-139 | the outcome for the cache as it stands succeeds iff a creator is cached or can be made and, for a generic type, every item casts |
| PropertyInfoCommon.CreateIDictionaryInstanceFromDictionary | src/System.Text.Json/src/System/Text/Json/Serialization/JsonPropertyInfoCommon.cs:142-160 | the cache is updated as above; it succeeds iff a creator is cached afterwards, and the result is that creator applied to the dictionary |
| PropertyInfoCommon.CreateImmutableCollectionFromList | src/System.Text.Json/src/System/Text/Json/Serialization/JsonPropertyInfoCommon.cs:165-176 | a missing CreateRange delegate is a JSON error naming the collection type; otherwise the delegate gets the typed items, and an item that does not cast is an invalid cast |
| PropertyInfoCommon.CreateImmutableCollectionFromDictionary | src/System.Text.Json/src/System/Text/Json/Serialization/JsonPropertyInfoCommon.cs:181-192 | the same for immutable dictionaries |
| PropertyInfoCommon.CreateKeyValuePairFromDictionary | src/System.Text.Json/src/System/Text/Json/Serialization/JsonPropertyInfoCommon.cs:199-221 | a one-entry dictionary gives (its key, its value), or an invalid cast when the value does not cast to the element type; a two-entry one succeeds only with a string "Key" and a "Value" of the element type, giving (Key, Value); any other size is a JSON error naming the runtime type |
| PropertyInfoCommon.KeyValuePairShapesAgree | src/System.Text.Json/src/System/Text/Json/Serialization/JsonPropertyInfoCommon.cs:203-218 | {"k": v} and {"Key": "k", "Value": v} (in either order) reconstruct the same pair (k, v) |
| PropertyInfoCommon.ExtraEntryRejected | src/System.Text.Json/src/System/Text/Json/Serialization/JsonPropertyInfoCommon.cs:212-220 | a third entry beside "Key" and "Value" is rejected |
| PropertyInfoCommon.TwoEntriesWithoutKeyRejected | src/System.Text.Json/src/System/Text/Json/Serialization/JsonPropertyInfoCommon.cs:212-220 | two entries without a "Key" entry are rejected |
| HandleArray.AppendToList | src/System.Text.Json/src/System/Text/Json/Serialization/JsonSerializer.Read.HandleArray.cs:164-167 | IList.Add succeeds exactly on a list and appends the value at its end |
| HandleArray.AddToDictionary | src/System.Text.Json/src/System/Text/Json/Serialization/JsonSerializer.Read.HandleArray.cs:199-208 | a key already present is a duplicate-key error; otherwise the entry is added at the end |
| HandleArray.AppendToFrameList | src/System.Text.Json/src/System/Text/Json/Serialization/JsonSerializer.Read.HandleArray.cs:158-168 | an enumerable frame appends to TempEnumerableValues when it exists (one longer, earlier items kept, ReturnValue untouched), otherwise to the list in ReturnValue |
| HandleArray.AppendToPropertyList | src/System.Text.Json/src/System/Text/Json/Serialization/JsonSerializer.Read.HandleArray.cs:169-183 | an enumerable property appends to its buffer, or to the list its getter returns, written back into the property alone so that it reads back one longer; nothing else in the frame changes |
| HandleArray.AddThroughProperty | src/System.Text.Json/src/System/Text/Json/Serialization/JsonSerializer.Read.HandleArray.cs:197-208 | adding to the dictionary a property reads fails iff the key is present (a duplicate-key error); otherwise the dictionary is written back into the property alone and reads back with the new entry |
| HandleArray.ApplyObject | src/System.Text.Json/src/System/Text/Json/Serialization/JsonSerializer.Read.HandleArray.cs:150-215 | every branch of ApplyObjectToEnumerable as its own outcome: a list or its buffer gains the value at its end; an enumerable property (unless set directly) appends to its buffer or list; a dictionary adds under KeyName to the dictionary ReturnValue's property reads, else to the TempDictionaryValues buffer, a duplicate key being an error and neither being a null dereference; anything else goes through SetValueAsObject; only the container that receives the value changes |
| HandleArray.ApplyValue | src/System.Text.Json/src/System/Text/Json/Serialization/JsonSerializer.Read.HandleArray.cs:218-281 | the same for ApplyValueToEnumerable, where a dictionary adds to TempDictionaryValues first (failing iff the key is present), then through ReturnValue's property, neither being a null dereference; anything else goes through SetValueAsObject |
| HandleArray.ApplyObjectAddsUnderKey | src/System.Text.Json/src/System/Text/Json/Serialization/JsonSerializer.Read.HandleArray.cs:184-209 | adding under KeyName fails iff the key is present; otherwise the key maps to the value, every other key looks up as before, and keys stay unique |
| HandleArray.ApplyValueAddsUnderKey | src/System.Text.Json/src/System/Text/Json/Serialization/JsonSerializer.Read.HandleArray.cs:251-275 | the same for a value added to TempDictionaryValues |
| HandleArray.CreateEnumerableIfAbsent | src/System.Text.Json/src/System/Text/Json/Serialization/JsonSerializer.Read.HandleArray.cs:62-79 | an existing non-null collection is left as it is; a null one gets a buffer under an enumerable converter, else a new IList instance, which is set on ReturnValue's property through SetValueAsObject when there is an object and becomes ReturnValue otherwise; a type that is neither is a JSON error |
| HandleArray.StartArrayStoresInProperty | src/System.Text.Json/src/System/Text/Json/Serialization/JsonSerializer.Read.HandleArray.cs:63-72 | a list property of an object that reads null holds the newly created collection afterwards |
| HandleArray.HandleStartArray | src/System.Text.Json/src/System/Text/Json/Serialization/JsonSerializer.Read.HandleArray.cs:14-80 | with SkipProperty exactly one Drain frame is pushed; a non-enumerable target or an array of rank > 1 is a JSON error; for an accepted target the frame from ArrayFrame filled by CreateEnumerableIfAbsent is pushed for an initialized property and replaces the current frame otherwise, and any failure leaves the stack as it was |
| HandleArray.ApplyObjectToEnumerable | src/System.Text.Json/src/System/Text/Json/Serialization/JsonSerializer.Read.HandleArray.cs:150-215 | only the current frame changes, as ApplyObject says |
| HandleArray.ApplyValueToEnumerable | src/System.Text.Json/src/System/Text/Json/Serialization/JsonSerializer.Read.HandleArray.cs:218-281 | only the current frame changes, as ApplyValue says |
| HandleArray.CreateFromList | src/System.Text.Json/src/System/Text/Json/Serialization/JsonSerializer.Read.HandleArray.cs:99-106 | an array converter returns the buffered items as they are; a collection creator and an immutable collection build the type from them as CreateIEnumerableInstanceFromList and CreateImmutableCollectionFromList do; the default collection converter constructs the runtime type from the list; a missing converter is a null dereference; only a collection creator may add to the creator cache |
| HandleArray.HandleEndArray | src/System.Text.Json/src/System/Text/Json/Serialization/JsonSerializer.Read.HandleArray.cs:82-147 | a Drain frame is popped and nothing is applied; an enumerable property without a buffer only resets the property; otherwise a failed conversion returns its error with the stack unchanged, and the finished value (the converted buffer, else the collection) is stored as EndArrayOutcome says, setting the property directly exactly when it was buffered; a converted buffer leaves the creator cache as CreatorsAfterList says, and every other path leaves it unchanged; true only on a one-frame stack; an inner enumerable pops exactly one frame |
| HandleArray.EndArrayOutcome | src/System.Text.Json/src/System/Text/Json/Serialization/JsonSerializer.Read.HandleArray.cs:118-146 | true is returned exactly on a one-frame stack whose ReturnValue is null (the value then becomes the root result) or which holds a list or dictionary (left as it is); otherwise the value is applied to the frame below a popped enumerable, else to the current frame, and only that frame changes; a failure leaves the stack popped but otherwise unchanged; the bottom frame never starts draining |
| HandleArray.StoreFinishedArray | src/System.Text.Json/src/System/Text/Json/Serialization/JsonSerializer.Read.HandleArray.cs:118-146 | the result and the new stack are exactly EndArrayOutcome of the old stack |
| HandleArray.FinishArray | src/System.Text.Json/src/System/Text/Json/Serialization/JsonSerializer.Read.HandleArray.cs:96-106 | the value is exactly FinishedArray of the frame; converting a buffer leaves the creator cache as CreatorsAfterList says for the frame's property, and without a buffer or a property the cache is unchanged |
| HandleArray.FinishedArray | src/System.Text.Json/src/System/Text/Json/Serialization/JsonSerializer.Read.HandleArray.cs:96-106 | under an array converter the finished value is the buffer's items in order; without a buffer an enumerable frame finishes with its own list; a buffer without a property is a null dereference |
| HandleArray.BufferedArrayFinishesWithItems | src/System.Text.Json/src/System/Text/Json/Serialization/JsonSerializer.Read.HandleArray.cs:225-250 | every element read into a buffer under an array converter comes out of EndArray, after what the buffer held, in the order read |
| HandleObject.CreateObjectInFrame | src/System.Text.Json/src/System/Text/Json/Serialization/JsonSerializer.Read.HandleObject.cs:31-57 | an Object class without a constructor is rejected (the polymorphic-interface error for an interface, the missing-constructor error otherwise); with a constructor it succeeds, an IDictionary-constructible target getting a TempDictionaryValues buffer and any other target a new ReturnValue |
| HandleObject.HandleStartObject | src/System.Text.Json/src/System/Text/Json/Serialization/JsonSerializer.Read.HandleObject.cs:12-58 | inside an enumerable or IList-constructible frame one frame for the element type is pushed; for a pending property one frame for its runtime type; at the root none; then the frame is filled as CreateObjectInFrame says |
| HandleObject.HandleEndObject | src/System.Text.Json/src/System/Text/Json/Serialization/JsonSerializer.Read.HandleObject.cs:60-85 | on the last frame the value survives Reset as ReturnValue; otherwise exactly one frame is popped and the value is applied to the new top frame |
| HandleDictionary.StartBuffer | src/System.Text.Json/src/System/Text/Json/Serialization/JsonSerializer.Read.HandleDictionary.cs:80-84 | an IDictionary-constructible value gets an empty TempDictionaryValues buffer; a missing constructor is a null dereference |
| HandleDictionary.NestedDictionaryFrame | src/System.Text.Json/src/System/Text/Json/Serialization/JsonSerializer.Read.HandleDictionary.cs:26-76 | the pushed frame reads the element class and is marked initialized; a Value element class other than object and JsonElement is a JSON error; a missing constructor is a JSON error on the enumerable path and NotSupported otherwise; with a constructor (yielding a dictionary for a constructible class) it succeeds |
| HandleDictionary.StartDictionaryFrame | src/System.Text.Json/src/System/Text/Json/Serialization/JsonSerializer.Read.HandleDictionary.cs:78-114 | an IDictionary-constructible target starts a buffer instead of the container; a missing constructor is NotSupported; a new dictionary is set on ReturnValue's property when ReturnValue exists (a null dereference when the frame has no property), otherwise becomes ReturnValue |
| HandleDictionary.StartDictionaryStoresInProperty | src/System.Text.Json/src/System/Text/Json/Serialization/JsonSerializer.Read.HandleDictionary.cs:99-107 | the dictionary started for a property of an object reads back through that property |
| HandleDictionary.HandleStartDictionary | src/System.Text.Json/src/System/Text/Json/Serialization/JsonSerializer.Read.HandleDictionary.cs:13-115 | with CollectionPropertyInitialized exactly one frame is pushed, as NestedDictionaryFrame says; otherwise only the current frame changes, as StartDictionaryFrame says |
| HandleDictionary.CreateFromDictionary | src/System.Text.Json/src/System/Text/Json/Serialization/JsonSerializer.Read.HandleDictionary.cs:139-149 | the converter dispatch: a key/value pair property is built by CreateKeyValuePairFromDictionary; an immutable dictionary fails without its delegate, fails on a value that does not cast, and is otherwise the delegate applied to the buffer; a creator-built dictionary is the cached creator applied to the buffer; only a creator may add to the cache |
| HandleDictionary.HandleEndDictionary | src/System.Text.Json/src/System/Text/Json/Serialization/JsonSerializer.Read.HandleDictionary.cs:117-168 | the extension-data property forwards to end-of-object; any other dictionary property only ends the property; an IDictionary-constructible property converts its buffer once and sets the result on ReturnValue's property, ending the property, nothing below changing, each failure leaving the stack as it was; any other dictionary finishes with its converted buffer (else ReturnValue), kept as the root result on the last frame or applied, after exactly one pop, to the frame below as ApplyObject says; converting a buffer leaves the creator cache as CreatorsAfterDictionary says, and every other path leaves it unchanged |
| HandleDictionary.FinishedDictionary | src/System.Text.Json/src/System/Text/Json/Serialization/JsonSerializer.Read.HandleDictionary.cs:145-154 | without a buffer the finished dictionary is ReturnValue; a buffered key/value pair is the pair CreateKeyValuePairFromDictionary makes; a buffer without a property is a null dereference |
| PropertyInfoNullable.AsNullable | src/System.Text.Json/src/System/Text/Json/Serialization/JsonPropertyInfoNullable.cs:147 | the cast to a nullable succeeds exactly on null (the empty nullable) and on a number (a present one) |
| PropertyInfoNullable.ConvertLeaf | src/System.Text.Json/src/System/Text/Json/Serialization/JsonPropertyInfoNullable.cs:23-28 | without a converter reading is a JSON error naming the runtime type; with one it succeeds exactly when the converter reads the token |
| PropertyInfoNullable.OnRead | src/System.Text.Json/src/System/Text/Json/Serialization/JsonPropertyInfoNullable.cs:21-38 | the read value becomes ReturnValue when that is null, and is otherwise set on ReturnValue; nothing else on the stack changes |
| PropertyInfoNullable.OnReadEnumerable | src/System.Text.Json/src/System/Text/Json/Serialization/JsonPropertyInfoNullable.cs:40-50 | the read value, as a present nullable, is applied to the current frame as ApplyValueToEnumerable does |
| PropertyInfoNullable.PropertyTokens | src/System.Text.Json/src/System/Text/Json/Serialization/JsonPropertyInfoNullable.cs:52-82 | an empty nullable writes `name: null`, or nothing under IgnoreNullValues; a present value writes the name only when there is one, then the converter's text; nothing without a converter |
| PropertyInfoNullable.WrittenPropertyReadsBack | src/System.Text.Json/src/System/Text/Json/Serialization/JsonPropertyInfoNullable.cs:64-81 | a written property is its name and one value token, and that token reads back as the property's value |
| PropertyInfoNullable.OnWrite | src/System.Text.Json/src/System/Text/Json/Serialization/JsonPropertyInfoNullable.cs:52-82 | the writer gains exactly PropertyTokens' tokens, or nothing on failure |
| PropertyInfoNullable.ElementTokens | src/System.Text.Json/src/System/Text/Json/Serialization/JsonPropertyInfoNullable.cs:133-159 | an empty element is a bare null token; a present one the converter's text; nothing without a converter |
| PropertyInfoNullable.OnWriteEnumerable | src/System.Text.Json/src/System/Text/Json/Serialization/JsonPropertyInfoNullable.cs:133-159 | the writer gains exactly ElementTokens' tokens |
| PropertyInfoNullable.DictionaryEntryTokens | src/System.Text.Json/src/System/Text/Json/Serialization/JsonPropertyInfoNullable.cs:84-131 | nothing without a converter; an unsupported enumerator is NotSupported; an empty value is written under its own key; a present value under the policy's key, a null policy key being an error |
| PropertyInfoNullable.OnWriteDictionary | src/System.Text.Json/src/System/Text/Json/Serialization/JsonPropertyInfoNullable.cs:84-131 | the writer gains exactly DictionaryEntryTokens' tokens, or nothing on failure |
| PropertyInfoNullable.NullKeyIsNotRenamed | src/System.Text.Json/src/System/Text/Json/Serialization/JsonPropertyInfoNullable.cs:111-125 | under a key naming policy, an empty value keeps its original key while a present value is written under the renamed key |
| PropertyInfoNullable.GetDictionaryConcreteType | src/System.Text.Json/src/System/Text/Json/Serialization/JsonPropertyInfoNullable.cs:161-164 | a string-keyed concrete dictionary whose values accept exactly null and present values |
| PropertyInfoNullable.ArrayTokens | src/System.Text.Json/src/System/Text/Json/Serialization/JsonPropertyInfoNullable.cs:150-157 | each element of an enumerable of nullables is written as exactly one token |
| PropertyInfoNullable.ArrayRoundTrip | src/System.Text.Json/tests/Serialization/NullableTests.cs:225-237 | with a converter whose text reads back, writing an enumerable of nullables and reading it back gives the same elements; `[null]` gives one empty nullable |
| PropertyInfoNullable.DictionaryTokens | src/System.Text.Json/src/System/Text/Json/Serialization/JsonPropertyInfoNullable.cs:111-130 | each entry of a dictionary of nullables is written as exactly two tokens |
| PropertyInfoNullable.DictionaryRoundTrip | src/System.Text.Json/tests/Serialization/NullableTests.cs:100-111 | without a key naming policy, writing a dictionary of nullables and reading it back gives the same keys and values; `{"key":null}` gives an empty nullable under "key" |

## Left out

- `ReadStackFrame.cs`, `ReadStack.cs`, `JsonClassInfo.cs` and `JsonPropertyInfo.cs` are not part of this model's sources. Their helpers are modelled from their names and uses in the handlers:
  - frame predicates such as `IsProcessingDictionary`;
  - `Reset`, `ResetProperty`, `EndProperty`, `Initialize`;
  - `GetElementType`, `GetEnumerableValue`, `CreateEnumerableValue`;
  - `CreateRootObject`, `CreatePolymorphicProperty`.
- `DefaultICollectionConverter.CreateFromDictionary` (DefaultICollectionConverter.cs:18-22) is not an override of the dictionary converter's `CreateFromDictionary`, so the dictionary end handler cannot reach it. The model's dictionary converters are the creator-built, immutable and key/value pair kinds.
- A constructor delegate that returns null is read as an invalid cast where `(IDictionary)CreateObject()` starts a buffer (HandleObject.cs:47, HandleDictionary.cs:45, 83). .NET leaves a null buffer there and fails at the first entry. The model reports the failure earlier and with a different kind.
- `CreateDictionaryAddMethod` (HandleObject.cs:55, HandleDictionary.cs:71, 102) prepares a reflection delegate and adds nothing to the value, so it is not modelled.
- `UpdateSortedPropertyCache` (HandleObject.cs:68-71) is a performance cache whose code is not part of this model.
- `CreateConverterList`, `GetDictionaryConcreteType` of the common property (JsonPropertyInfoCommon.cs:86-94), `GetPolicies` (58-62) and `CreateIEnumerableConstructibleType` (194-197) are not called by the modelled handlers.
- Reading and writing bytes is not modelled: `Utf8JsonReader`, `Utf8JsonWriter`, JSON escaping, `JsonEncodedText.Encode` and the text encoder. A converter is a pair of functions on token text, and an encoded key is the key itself.
- Error message text, JSON paths and exception types beyond the error kind are not modelled.
- The thread-safety of the options caches is not modelled. Only sequential lookup and insertion are.
- Values are immutable. An in-place `Add` on a list or dictionary reached through a property is modelled as a write-back of the changed collection into the property, so aliasing between two references to one collection is not captured.
- When a handler throws, the model returns the error without the frame the source pushed before throwing (HandleObject.cs:20-43, HandleDictionary.cs:28-39), and a failed application to the frame below leaves that frame as it was. The serializer discards the stack after an exception, so no later step sees the difference.
- The null token, property names and primitive leaf values are read by other handlers (`HandleNull`, `HandlePropertyName`, `HandleValue`). These are outside this model. The round-trip lemmas read a null token as the empty nullable, as those handlers do for a nullable element.
- JsonValues.CanCast: unboxing null into a non-nullable value type is reported as an invalid cast; .NET raises a NullReferenceException there. Only the error kind differs.
- PropertyInfoCommon.CreateIDictionaryInstanceFromDictionary: the assertion that the type is not generic is absent in a release build. The model accepts generic types as the release build does.
- PropertyInfoCommon.CreateGenericIEnumerableFromList / CreateGenericIEnumerableFromDictionary: the source yields the cast items lazily, so a failing cast surfaces only when the creator enumerates that far; the model casts every item before the creator runs. The outcomes agree whenever the creator enumerates the whole input, which InstanceFromList, ImmutableFromList and ImmutableFromDictionary assume as well.
- HandleDictionary.HandleEndDictionary: requires that a frame reading a dictionary property is not itself IDictionary-constructible. This is what the forwarded `HandleEndObject` asserts of the frame.
- HandleDictionary.CreateFromDictionary: the cast the immutable and creator-built paths apply to their result is not modelled.
- PropertyInfoNullable.DictionaryEntryTokens: a strongly typed enumerator's value is checked with the same cast as a `DictionaryEntry`'s. For a typed enumerator that cast never fails.
