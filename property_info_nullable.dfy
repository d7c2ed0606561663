/**
 * JsonPropertyInfoNullable: the read and write rules of a property whose type
 * is Nullable<T>. A present value of the underlying type is `Num(n)`; an
 * empty nullable is `Null`. The value converter is a pair of partial
 * functions between token text and values, and the writer keeps the
 * tokens it has been given, in order.
 */
module PropertyInfoNullable {
  import opened Optional
  import opened JsonValues
  import opened Outcomes
  import opened Metadata
  import opened PropertyInfoCommon
  import opened ReadStacks
  import opened HandleArray

  /** The property's value converter: `read` may reject a token, `write` always gives text. */
  datatype Converter = Converter(read: string -> Option<int>, write: int -> string)

  /** What a converter's Write must satisfy for values to read back as written. */
  ghost predicate RoundTrips(c: Converter) {
    forall v :: c.read(c.write(v)) == Some(v)
  }

  datatype Token = PropertyName(name: string) | NullToken | Leaf(text: string)

  /** Utf8JsonWriter, reduced to the sequence of tokens it has written. */
  class Writer {
    var tokens: seq<Token>

    constructor ()
      ensures tokens == []
    {
      tokens := [];
    }

    /** WriteNull(name): `"name": null`. */
    method WriteNull(name: string)
      modifies this
      ensures tokens == old(tokens) + [PropertyName(name), NullToken]
    {
      tokens := tokens + [PropertyName(name), NullToken];
    }

    method WritePropertyName(name: string)
      modifies this
      ensures tokens == old(tokens) + [PropertyName(name)]
    {
      tokens := tokens + [PropertyName(name)];
    }

    method WriteNullValue()
      modifies this
      ensures tokens == old(tokens) + [NullToken]
    {
      tokens := tokens + [NullToken];
    }

    /** The converter's Write of `v`. */
    method WriteValue(c: Converter, v: int)
      modifies this
      ensures tokens == old(tokens) + [Leaf(c.write(v))]
    {
      tokens := tokens + [Leaf(c.write(v))];
    }
  }

  /** The cast `(TProperty?)v`: null is the empty nullable, a number a present one. */
  function AsNullable(v: Value): (r: Result<Option<int>>)
    ensures r.Success? <==> v.Null? || v.Num?
    ensures r.Success? ==> (r.value.None? <==> v.Null?) && (r.value.Some? ==> v == Num(r.value.value))
  {
    match v
    case Null => Success(None)
    case Num(n) => Success(Some(n))
    case _ => Failure(InvalidCast)
  }

  /** The boxed form of a nullable: the inverse of AsNullable. */
  function Boxed(x: Option<int>): Value {
    match x
    case None => Null
    case Some(n) => Num(n)
  }

  /** Converter.Read of a leaf token; a property without a converter cannot read one. */
  function ConvertLeaf(p: PropertyInfo, conv: Option<Converter>, text: string): (r: Result<int>)
    ensures conv.None? ==> r == Failure(UnableToConvert(p.runtimeType))
    ensures conv.Some? ==> (r.Success? <==> conv.value.read(text).Some?)
    ensures r.Success? ==> conv.Some? && conv.value.read(text) == Some(r.value)
    ensures r.Failure? && conv.Some? ==> r.error == ConversionFailed
  {
    match conv
    case None => Failure(UnableToConvert(p.runtimeType))
    case Some(c) =>
      match c.read(text)
      case None => Failure(ConversionFailed)
      case Some(v) => Success(v)
  }

  /**
   * OnRead: the converted value becomes the frame's ReturnValue when it has
   * none (a nullable read as the root or as a collection element), and is
   * otherwise set on the object being read.
   */
  method OnRead(p: PropertyInfo, conv: Option<Converter>, text: string, state: ReadStack) returns (s: Status)
    requires state.Valid()
    modifies state
    ensures state.Valid()
    ensures
      var f := old(state.Current());
      var n := |old(state.frames)|;
      match ConvertLeaf(p, conv, text)
      case Failure(e) => s == Fail(e) && state.frames == old(state.frames)
      case Success(v) =>
        if f.returnValue == Null then
          s == Ok && state.frames == old(state.frames)[..n - 1] + [f.(returnValue := Num(v))]
        else match Set(p, f.returnValue, Num(v))
          case Failure(e) => s == Fail(e) && state.frames == old(state.frames)
          case Success(o) => s == Ok && state.frames == old(state.frames)[..n - 1] + [f.(returnValue := o)]
  {
    var value := ConvertLeaf(p, conv, text);
    if value.Failure? {
      return Fail(value.error);
    }
    var f := state.Current();
    if f.returnValue == Null {
      state.SetCurrent(f.(returnValue := Num(value.value)));
    } else {
      var o := Set(p, f.returnValue, Num(value.value));
      if o.Failure? {
        return Fail(o.error);
      }
      state.SetCurrent(f.(returnValue := o.value));
    }
    s := Ok;
  }

  /** OnReadEnumerable: the converted value, as a present nullable, is applied to the collection being read. */
  method OnReadEnumerable(p: PropertyInfo, conv: Option<Converter>, text: string, state: ReadStack) returns (s: Status)
    requires state.Valid()
    modifies state
    ensures state.Valid()
    ensures
      match ConvertLeaf(p, conv, text)
      case Failure(e) => s == Fail(e) && state.frames == old(state.frames)
      case Success(v) =>
        match ApplyValue(old(state.Current()), Num(v))
        case Success(g) => s == Ok && state.frames == old(state.frames)[..|old(state.frames)| - 1] + [g]
        case Failure(e) => s == Fail(e) && state.frames == old(state.frames)
  {
    var value := ConvertLeaf(p, conv, text);
    if value.Failure? {
      return Fail(value.error);
    }
    s := ApplyValueToEnumerable(Num(value.value), state);
  }

  /** The nullable a property write starts from: the value itself for a policy property, else what the getter returns. */
  function PropertyValue(p: PropertyInfo, current: Value): Result<Option<int>> {
    if p.isPolicy then AsNullable(current)
    else
      var v :- Get(p, current);
      AsNullable(v)
  }

  /**
   * The tokens OnWrite emits for the property. An empty nullable is written
   * as `name: null` unless null values are ignored (reading the absent
   * escaped name is then an error); a present value is written by the
   * converter, after the name when there is one, and not at all without a
   * converter.
   */
  function PropertyTokens(p: PropertyInfo, conv: Option<Converter>, escapedName: Option<string>, current: Value): (r: Result<seq<Token>>)
    ensures PropertyValue(p, current).Failure? ==> r.Failure?
    ensures PropertyValue(p, current) == Success(None) ==>
      r == if p.ignoreNullValues then Success([])
           else if escapedName.None? then Failure(MissingValue)
           else Success([PropertyName(escapedName.value), NullToken])
    ensures PropertyValue(p, current).Success? && PropertyValue(p, current).value.Some? ==>
      var v := PropertyValue(p, current).value.value;
      r == Success(
        if conv.None? then []
        else if escapedName.None? then [Leaf(conv.value.write(v))]
        else [PropertyName(escapedName.value), Leaf(conv.value.write(v))])
  {
    var value :- PropertyValue(p, current);
    match value
    case None =>
      if p.ignoreNullValues then Success([])
      else if escapedName.None? then Failure(MissingValue)
      else Success([PropertyName(escapedName.value), NullToken])
    case Some(v) =>
      match conv
      case None => Success([])
      case Some(c) =>
        if escapedName.Some? then Success([PropertyName(escapedName.value), Leaf(c.write(v))])
        else Success([Leaf(c.write(v))])
  }

  /**
   * A property written with a name reads back as the value it held, unless it
   * was an empty nullable whose null is ignored.
   */
  lemma WrittenPropertyReadsBack(p: PropertyInfo, c: Converter, name: string, current: Value)
    requires RoundTrips(c) && PropertyValue(p, current).Success?
    requires !(PropertyValue(p, current).value.None? && p.ignoreNullValues)
    ensures var ts := PropertyTokens(p, Some(c), Some(name), current).value;
      |ts| == 2 && ts[0] == PropertyName(name) && ReadValueToken(p, Some(c), ts[1]) == PropertyValue(p, current)
  {
    var x := PropertyValue(p, current).value;
    if x.Some? {
      assert c.read(c.write(x.value)) == Some(x.value);
    }
  }

  /** OnWrite. */
  method OnWrite(p: PropertyInfo, conv: Option<Converter>, escapedName: Option<string>, current: Value, w: Writer)
    returns (s: Status)
    modifies w
    ensures match PropertyTokens(p, conv, escapedName, current)
      case Success(ts) => s == Ok && w.tokens == old(w.tokens) + ts
      case Failure(e) => s == Fail(e) && w.tokens == old(w.tokens)
  {
    var value := PropertyValue(p, current);
    if value.Failure? {
      return Fail(value.error);
    }
    match value.value {
      case None =>
        if !p.ignoreNullValues {
          if escapedName.None? {
            return Fail(MissingValue);
          }
          w.WriteNull(escapedName.value);
        }
      case Some(v) =>
        if conv.Some? {
          if escapedName.Some? {
            w.WritePropertyName(escapedName.value);
          }
          w.WriteValue(conv.value, v);
        }
    }
    s := Ok;
  }

  /** The tokens OnWriteEnumerable emits for one element: a bare null, or the converter's output. */
  function ElementTokens(conv: Option<Converter>, element: Value): (r: Result<seq<Token>>)
    ensures conv.None? ==> r == Success([])
    ensures conv.Some? ==> (r.Success? <==> element.Null? || element.Num?)
    ensures conv.Some? && element.Null? ==> r == Success([NullToken])
    ensures conv.Some? && r.Success? && element.Num? ==> r.value == [Leaf(conv.value.write(element.n))]
  {
    match conv
    case None => Success([])
    case Some(c) =>
      var value :- AsNullable(element);
      match value
      case None => Success([NullToken])
      case Some(v) => Success([Leaf(c.write(v))])
  }

  /** OnWriteEnumerable. */
  method OnWriteEnumerable(conv: Option<Converter>, element: Value, w: Writer) returns (s: Status)
    modifies w
    ensures match ElementTokens(conv, element)
      case Success(ts) => s == Ok && w.tokens == old(w.tokens) + ts
      case Failure(e) => s == Fail(e) && w.tokens == old(w.tokens)
  {
    if conv.Some? {
      var value := AsNullable(element);
      if value.Failure? {
        return Fail(value.error);
      }
      match value.value {
        case None => w.WriteNullValue();
        case Some(v) => w.WriteValue(conv.value, v);
      }
    }
    s := Ok;
  }

  /** How the dictionary being written is enumerated. */
  datatype Enumerator = TypedEnumerator | EntryEnumerator | OtherEnumerator

  /**
   * The tokens OnWriteDictionary emits for the current entry. A strongly
   * typed enumerator, or a DictionaryEntry enumerator over an
   * IDictionary-constructible value, is supported; any other is not. An
   * empty value is written under its own key; a present value under the key
   * the naming policy gives, which must not be null.
   */
  function DictionaryEntryTokens(opts: SerializerOptions, conv: Option<Converter>, enumerator: Enumerator,
                                 constructible: bool, e: Entry): (r: Result<seq<Token>>)
    ensures conv.None? ==> r == Success([])
    ensures conv.Some? && (enumerator.OtherEnumerator? || (enumerator.EntryEnumerator? && !constructible)) ==>
      r == Failure(NotSupported)
    ensures conv.Some? && r.Success? ==> e.value.Null? || e.value.Num?
    ensures conv.Some? && r.Success? && e.value.Null? ==> r.value == [PropertyName(e.key), NullToken]
    ensures conv.Some? && r.Success? && e.value.Num? && opts.dictionaryKeyPolicy.None? ==>
      r.value == [PropertyName(e.key), Leaf(conv.value.write(e.value.n))]
    ensures conv.Some? && r.Success? && e.value.Num? && opts.dictionaryKeyPolicy.Some? ==>
      var renamed := opts.dictionaryKeyPolicy.value(e.key);
      renamed.Some? && r.value == [PropertyName(renamed.value), Leaf(conv.value.write(e.value.n))]
    ensures conv.Some? && r.Failure? && e.value.Num? && opts.dictionaryKeyPolicy.Some?
            && opts.dictionaryKeyPolicy.value(e.key).None? && !(enumerator.OtherEnumerator? || (enumerator.EntryEnumerator? && !constructible)) ==>
      r.error == DictionaryKeyNull
  {
    match conv
    case None => Success([])
    case Some(c) =>
      if enumerator.OtherEnumerator? || (enumerator.EntryEnumerator? && !constructible) then Failure(NotSupported)
      else
        var value :- AsNullable(e.value);
        match value
        case None => Success([PropertyName(e.key), NullToken])
        case Some(v) =>
          var key :- match opts.dictionaryKeyPolicy
            case None => Success(e.key)
            case Some(policy) =>
              match policy(e.key)
              case None => Failure(DictionaryKeyNull)
              case Some(k) => Success(k);
          Success([PropertyName(key), Leaf(c.write(v))])
  }

  /** OnWriteDictionary. */
  method OnWriteDictionary(opts: SerializerOptions, conv: Option<Converter>, enumerator: Enumerator,
                           constructible: bool, e: Entry, w: Writer) returns (s: Status)
    modifies w
    ensures match DictionaryEntryTokens(opts, conv, enumerator, constructible, e)
      case Success(ts) => s == Ok && w.tokens == old(w.tokens) + ts
      case Failure(err) => s == Fail(err) && w.tokens == old(w.tokens)
  {
    if conv.None? {
      return Ok;
    }
    if enumerator.OtherEnumerator? || (enumerator.EntryEnumerator? && !constructible) {
      return Fail(NotSupported);
    }
    var value := AsNullable(e.value);
    if value.Failure? {
      return Fail(value.error);
    }
    match value.value {
      case None =>
        w.WriteNull(e.key);
      case Some(v) =>
        var key := e.key;
        if opts.dictionaryKeyPolicy.Some? {
          var converted := opts.dictionaryKeyPolicy.value(key);
          if converted.None? {
            return Fail(DictionaryKeyNull);
          }
          key := converted.value;
        }
        w.WritePropertyName(key);
        w.WriteValue(conv.value, v);
    }
    s := Ok;
  }

  /** GetDictionaryConcreteType: a dictionary of nullables keyed by string. */
  function GetDictionaryConcreteType(underlying: TypeDesc): (r: TypeDesc)
    ensures r.kind == DictK && !r.isInterface && |r.args| == 2 && r.args[0] == StringType
    ensures forall v :: CanCast(v, r.args[1]) <==> v.Null? || v.Num?
  {
    DictionaryOf(NullableOf(underlying))
  }

  // The rest of the module reads written tokens back, to state the round
  // trips that the serializer's tests rely on. A null token reads as the
  // empty nullable; a leaf is read by the property's converter.

  /** One value token read back as a nullable. */
  function ReadValueToken(p: PropertyInfo, conv: Option<Converter>, t: Token): Result<Option<int>> {
    match t
    case NullToken => Success(None)
    case Leaf(text) =>
      var v :- ConvertLeaf(p, conv, text);
      Success(Some(v))
    case PropertyName(_) => Failure(ConversionFailed)
  }

  /** The elements of a written array, read back. */
  function ReadElements(p: PropertyInfo, conv: Option<Converter>, ts: seq<Token>): Result<seq<Option<int>>>
    decreases |ts|
  {
    if ts == [] then Success([])
    else
      var x :- ReadValueToken(p, conv, ts[0]);
      var rest :- ReadElements(p, conv, ts[1..]);
      Success([x] + rest)
  }

  /** The tokens written for the elements of an enumerable of nullables, one call per element. */
  function ArrayTokens(c: Converter, xs: seq<Option<int>>): (ts: seq<Token>)
    ensures |ts| == |xs|
  {
    if xs == [] then []
    else ElementTokens(Some(c), Boxed(xs[0])).value + ArrayTokens(c, xs[1..])
  }

  /**
   * Writing the elements and reading them back gives them again: in
   * particular `[null]` reads back as one empty nullable.
   */
  lemma {:induction false} ArrayRoundTrip(p: PropertyInfo, c: Converter, xs: seq<Option<int>>)
    requires RoundTrips(c)
    ensures ReadElements(p, Some(c), ArrayTokens(c, xs)) == Success(xs)
  {
    if xs != [] {
      var ts := ArrayTokens(c, xs);
      assert ts[1..] == ArrayTokens(c, xs[1..]);
      ArrayRoundTrip(p, c, xs[1..]);
      match xs[0] {
        case None =>
        case Some(v) => assert c.read(c.write(v)) == Some(v);
      }
      assert [xs[0]] + xs[1..] == xs;
    }
  }

  /** The entries of a written dictionary, read back: a name token followed by a value token. */
  function ReadEntries(p: PropertyInfo, conv: Option<Converter>, ts: seq<Token>): Result<seq<(string, Option<int>)>>
    decreases |ts|
  {
    if ts == [] then Success([])
    else if |ts| < 2 || !ts[0].PropertyName? then Failure(ConversionFailed)
    else
      var x :- ReadValueToken(p, conv, ts[1]);
      var rest :- ReadEntries(p, conv, ts[2..]);
      Success([(ts[0].name, x)] + rest)
  }

  /** The tokens written for a dictionary of nullables whose keys are not renamed. */
  function DictionaryTokens(opts: SerializerOptions, c: Converter, es: seq<(string, Option<int>)>): (ts: seq<Token>)
    requires opts.dictionaryKeyPolicy.None?
    ensures |ts| == 2 * |es|
  {
    if es == [] then []
    else DictionaryEntryTokens(opts, Some(c), TypedEnumerator, false, Entry(es[0].0, Boxed(es[0].1))).value
         + DictionaryTokens(opts, c, es[1..])
  }

  /**
   * Without a key naming policy, writing a dictionary of nullables and
   * reading it back gives the same keys and values: in particular
   * `{"key":null}` reads back as an empty nullable under "key".
   */
  lemma {:induction false} DictionaryRoundTrip(opts: SerializerOptions, p: PropertyInfo, c: Converter, es: seq<(string, Option<int>)>)
    requires opts.dictionaryKeyPolicy.None? && RoundTrips(c)
    ensures ReadEntries(p, Some(c), DictionaryTokens(opts, c, es)) == Success(es)
  {
    if es != [] {
      var ts := DictionaryTokens(opts, c, es);
      assert ts[2..] == DictionaryTokens(opts, c, es[1..]);
      DictionaryRoundTrip(opts, p, c, es[1..]);
      match es[0].1 {
        case None =>
        case Some(v) => assert c.read(c.write(v)) == Some(v);
      }
      assert [es[0]] + es[1..] == es;
    }
  }

  /**
   * With a key naming policy, a present value is written under the renamed
   * key but an empty one under the original key.
   */
  lemma NullKeyIsNotRenamed(opts: SerializerOptions, c: Converter, k: string, n: int)
    requires opts.dictionaryKeyPolicy.Some? && opts.dictionaryKeyPolicy.value(k).Some?
    ensures DictionaryEntryTokens(opts, Some(c), TypedEnumerator, false, Entry(k, Null)).value[0] == PropertyName(k)
    ensures DictionaryEntryTokens(opts, Some(c), TypedEnumerator, false, Entry(k, Num(n))).value[0]
            == PropertyName(opts.dictionaryKeyPolicy.value(k).value)
  {
  }
}
