/** Option, used for every reference the serializer may find null. */
module Optional {
  datatype Option<+T> = None | Some(value: T)
}

/**
 * The values the deserializer builds, and the type descriptions it
 * consults. A C# `null` reference is `Null`; a dictionary is an ordered
 * list of entries, because the dictionaries the serializer fills
 * enumerate in insertion order.
 */
module JsonValues {
  import opened Optional

  /** The shape of a runtime type, as far as casts and `is` tests care. */
  datatype Kind = ObjectK | StringK | NumberK | NullableK | ListK | DictK | PairK | ClassK

  /** A runtime type: its identity (name and generic arguments) and the facts the core asks of it. */
  datatype TypeDesc = TypeDesc(
    name: string,
    args: seq<TypeDesc>,
    kind: Kind,
    isInterface: bool,
    isEnumerable: bool,       // assignable to IEnumerable
    isIList: bool,            // assignable to IList
    isArray: bool,
    rank: nat,                // array rank, 0 when not an array
    assignableFromList: bool, // an interface that List<T> implements
    isSetInterface: bool)     // ISet<T>

  datatype Value =
    | Null
    | Str(s: string)
    | Num(n: int)
    | List(items: seq<Value>)
    | Dict(entries: seq<Entry>)
    | Obj(fields: map<string, Value>)
    | Pair(key: string, val: Value)

  datatype Entry = Entry(key: string, value: Value)

  predicate IsGeneric(t: TypeDesc) { |t.args| > 0 }

  /** A concrete class type with the given generic arguments. */
  function ConcreteType(name: string, args: seq<TypeDesc>, kind: Kind, enumerable: bool, ilist: bool): TypeDesc {
    TypeDesc(name, args, kind, false, enumerable, ilist, false, 0, false, false)
  }

  const ObjectType: TypeDesc := ConcreteType("Object", [], ObjectK, false, false)
  const StringType: TypeDesc := ConcreteType("String", [], StringK, false, false)
  const JsonElementType: TypeDesc := ConcreteType("JsonElement", [], ClassK, false, false)
  const ICollectionType: TypeDesc :=
    TypeDesc("ICollection", [], ListK, true, true, false, false, 0, false, false)

  const IDictionaryType: TypeDesc :=
    TypeDesc("IDictionary", [], DictK, true, true, false, false, 0, false, false)

  function IEnumerableOf(t: TypeDesc): TypeDesc {
    TypeDesc("IEnumerable`1", [t], ListK, true, true, false, false, 0, true, false)
  }
  function ListOf(t: TypeDesc): TypeDesc { ConcreteType("List`1", [t], ListK, true, true) }
  function HashSetOf(t: TypeDesc): TypeDesc { ConcreteType("HashSet`1", [t], ListK, true, false) }
  function DictionaryOf(t: TypeDesc): TypeDesc { ConcreteType("Dictionary`2", [StringType, t], DictK, true, false) }
  function NullableOf(t: TypeDesc): TypeDesc { ConcreteType("Nullable`1", [t], NullableK, false, false) }

  /** The C# `v is T` test: never true of null. */
  predicate IsInstance(v: Value, t: TypeDesc) {
    match t.kind
    case ObjectK => v != Null
    case StringK => v.Str?
    case NumberK => v.Num?
    case NullableK => v.Num?
    case ListK => v.List?
    case DictK => v.Dict?
    case PairK => v.Pair?
    case ClassK => v.Obj?
  }

  /** The C# cast `(T)v`: null casts to every type except a non-nullable value type. */
  predicate CanCast(v: Value, t: TypeDesc) {
    IsInstance(v, t) || (v == Null && t.kind != NumberK)
  }

  predicate HasKey(es: seq<Entry>, k: string) {
    exists i | 0 <= i < |es| :: es[i].key == k
  }

  /** No key occurs twice: what duplicate-key rejection keeps true of every dictionary it fills. */
  predicate UniqueKeys(es: seq<Entry>) {
    forall i, j | 0 <= i < j < |es| :: es[i].key != es[j].key
  }

  /** The dictionary indexer: the value stored under `k`, if any. */
  function Find(es: seq<Entry>, k: string): (r: Option<Value>)
    ensures r.Some? <==> HasKey(es, k)
    ensures r.Some? ==> Entry(k, r.value) in es
  {
    if es == [] then None
    else if es[0].key == k then Some(es[0].value)
    else
      var r := Find(es[1..], k);
      assert HasKey(es, k) ==> HasKey(es[1..], k) by {
        if HasKey(es, k) {
          var i :| 0 <= i < |es| && es[i].key == k;
          assert es[1..][i - 1].key == k;
        }
      }
      assert HasKey(es[1..], k) ==> HasKey(es, k) by {
        if HasKey(es[1..], k) {
          var i :| 0 <= i < |es[1..]| && es[1..][i].key == k;
          assert es[i + 1].key == k;
        }
      }
      r
  }

  /** Appending a fresh key makes it map to the new value and leaves every other lookup as it was. */
  lemma {:induction false} FindAppend(es: seq<Entry>, k: string, v: Value, q: string)
    requires !HasKey(es, k)
    ensures Find(es + [Entry(k, v)], q) == if q == k then Some(v) else Find(es, q)
  {
    if es == [] {
    } else {
      assert (es + [Entry(k, v)])[1..] == es[1..] + [Entry(k, v)];
      if es[0].key != q {
        FindAppend(es[1..], k, v, q);
      } else {
        assert es[0].key != k;
      }
    }
  }

  /** Appending a key that is not yet present keeps the keys unique. */
  lemma AppendKeepsUniqueKeys(es: seq<Entry>, k: string, v: Value)
    requires UniqueKeys(es) && !HasKey(es, k)
    ensures UniqueKeys(es + [Entry(k, v)])
  {
    var es' := es + [Entry(k, v)];
    forall i, j | 0 <= i < j < |es'| ensures es'[i].key != es'[j].key {
      if j == |es| {
        assert es'[i] == es[i];
      }
    }
  }
}

/** The outcomes of the serializer's operations: a value, or the exception it throws. */
module Outcomes {
  import opened JsonValues

  datatype ErrorKind =
    | UnableToConvert(ty: TypeDesc)          // JsonException: DeserializeUnableToConvertValue
    | DuplicateKey(key: string)              // JsonException: DeserializeDuplicateKey
    | CollectionNotSupported(ty: TypeDesc)   // NotSupportedException: SerializationNotSupportedCollection
    | PolymorphicInterface(ty: TypeDesc)     // InvalidOperationException: DeserializePolymorphicInterface
    | MissingParameterlessConstructor(ty: TypeDesc) // InvalidOperationException
    | DictionaryKeyNull                      // InvalidOperationException: SerializerDictionaryKeyNull
    | NotSupported                           // a bare NotSupportedException
    | ConversionFailed                       // the value converter rejected the token
    | InvalidCast                            // a run-time cast that fails
    | NullReference                          // a null reference or delegate that is dereferenced
    | MissingValue                           // Nullable<T>.Value read on an empty nullable

  datatype Result<+T> = Success(value: T) | Failure(error: ErrorKind) {
    predicate IsFailure() { Failure? }
    function PropagateFailure<U>(): Result<U> requires Failure? { Failure(error) }
    function Extract(): T requires Success? { value }
  }

  /** The outcome of a handler that returns nothing. */
  datatype Status = Ok | Fail(error: ErrorKind)
}
