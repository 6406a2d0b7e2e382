/** UBKitAnyCodable.swift: a wrapper that decodes any JSON value into a Swift `Any`
    by trying six shapes in turn, and encodes an `Any` by dispatching on its runtime type. */
module AnyCodable {
  import opened Optional
  import opened Json

  /** The runtime shapes a wrapped `Any` can have. `Opaque` stands for every native value
      outside the six supported shapes (an `NSObject`, a `Date`, ...). */
  datatype AnyValue =
    | IntValue(i: Int64)
    | DoubleValue(d: Double)
    | StringValue(s: string)
    | BoolValue(b: bool)
    | ArrayValue(items: seq<AnyValue>)
    | DictValue(entries: map<string, AnyValue>)
    | Opaque(typeName: string)

  /** `DecodingError.typeMismatch`. */
  datatype DecodeError = TypeMismatch

  /** `EncodingError.invalidValue`. */
  datatype EncodeError = UnsupportedType

  /** Built only from the six supported shapes, at every depth. */
  predicate Supported(v: AnyValue) {
    match v
    case Opaque(_) => false
    case ArrayValue(items) => forall i :: 0 <= i < |items| ==> Supported(items[i])
    case DictValue(entries) => forall k :: k in entries ==> Supported(entries[k])
    case _ => true
  }

  /** No whole-valued Double that fits in an Int at any depth: exactly the values that can come
      out of decoding, since such a Double would be read back as an Int. */
  predicate Canonical(v: AnyValue) {
    match v
    case DoubleValue(d) => !(d.Whole? && InInt64(d.w))
    case ArrayValue(items) => forall i :: 0 <= i < |items| ==> Canonical(items[i])
    case DictValue(entries) => forall k :: k in entries ==> Canonical(entries[k])
    case _ => true
  }

  // ---------------------------------------------------------------- decoding

  /** `container.decode(Int.self)`: a whole number that fits in 64 bits. */
  function DecodeInt(j: Json): Option<Int64> {
    if j.JNumber? && j.n.Whole? && InInt64(j.n.w) then Some(j.n.w) else None
  }

  /** `container.decode(Double.self)`: any number. */
  function DecodeDouble(j: Json): Option<Double> {
    if j.JNumber? then Some(j.n) else None
  }

  function DecodeString(j: Json): Option<string> {
    if j.JString? then Some(j.s) else None
  }

  function DecodeBool(j: Json): Option<bool> {
    if j.JBool? then Some(j.b) else None
  }

  /** `container.decode([UBKitAnyCodable].self)`: an array all of whose elements decode. */
  function DecodeArray(j: Json): Option<seq<AnyValue>>
    decreases j, 0
  {
    if j.JArray? && forall i :: 0 <= i < |j.items| ==> Decode(j.items[i]).Ok? then
      Some(seq(|j.items|, i requires 0 <= i < |j.items| => Decode(j.items[i]).value))
    else None
  }

  /** `container.decode([String: UBKitAnyCodable].self)`: an object all of whose values decode. */
  function DecodeDict(j: Json): Option<map<string, AnyValue>>
    decreases j, 0
  {
    if j.JObject? && forall k :: k in j.fields ==> Decode(j.fields[k]).Ok? then
      Some(map k | k in j.fields :: Decode(j.fields[k]).value)
    else None
  }

  /** `init(from:)`: Int, then Double, then String, then Bool, then array, then dictionary;
      the first shape that decodes wins, and a value matching none is a type mismatch. */
  function Decode(j: Json): (r: Result<AnyValue, DecodeError>)
    decreases j, 1
    ensures r.Ok? <==> NullFree(j)
    ensures r.Ok? ==> Supported(r.value) && Canonical(r.value)
    ensures j.JNumber? && j.n.Whole? && InInt64(j.n.w) ==> r == Ok(IntValue(j.n.w))
    ensures j.JNumber? && !(j.n.Whole? && InInt64(j.n.w)) ==> r == Ok(DoubleValue(j.n))
  {
    var asInt := DecodeInt(j);
    if asInt.Some? then Ok(IntValue(asInt.value)) else
    var asDouble := DecodeDouble(j);
    if asDouble.Some? then Ok(DoubleValue(asDouble.value)) else
    var asString := DecodeString(j);
    if asString.Some? then Ok(StringValue(asString.value)) else
    var asBool := DecodeBool(j);
    if asBool.Some? then Ok(BoolValue(asBool.value)) else
    var asArray := DecodeArray(j);
    if asArray.Some? then Ok(ArrayValue(asArray.value)) else
    var asDict := DecodeDict(j);
    if asDict.Some? then Ok(DictValue(asDict.value)) else
    Err(TypeMismatch)
  }

  // ---------------------------------------------------------------- encoding

  /** `encode(to:)`: dispatch on the runtime shape; arrays and dictionaries encode each element
      in turn, so one unsupported element anywhere aborts the whole encoding. */
  function Encode(v: AnyValue): (r: Result<Json, EncodeError>)
    ensures r.Ok? <==> Supported(v)
    ensures r.Ok? ==> NullFree(r.value)
    ensures r.Ok? && v.ArrayValue? ==> r.value.JArray? && |r.value.items| == |v.items|
    ensures r.Ok? && v.DictValue? ==> r.value.JObject? && r.value.fields.Keys == v.entries.Keys
  {
    match v
    case IntValue(i) => Ok(JNumber(Whole(i)))
    case DoubleValue(d) => Ok(JNumber(d))
    case StringValue(s) => Ok(JString(s))
    case BoolValue(b) => Ok(JBool(b))
    case ArrayValue(items) =>
      if forall i :: 0 <= i < |items| ==> Encode(items[i]).Ok? then
        Ok(JArray(seq(|items|, i requires 0 <= i < |items| => Encode(items[i]).value)))
      else Err(UnsupportedType)
    case DictValue(entries) =>
      if forall k :: k in entries ==> Encode(entries[k]).Ok? then
        Ok(JObject(map k | k in entries :: Encode(entries[k]).value))
      else Err(UnsupportedType)
    case Opaque(_) => Err(UnsupportedType)
  }

  // ---------------------------------------------------------------- round trips

  /** Every supported value that decoding could have produced comes back unchanged:
      Int, String, Bool, non-integral Double, and arrays and dictionaries of them,
      with length, order, key set and every element preserved. */
  lemma {:induction false} RoundTrip(v: AnyValue)
    requires Supported(v) && Canonical(v)
    ensures Encode(v).Ok? && Decode(Encode(v).value) == Ok(v)
  {
    match v
    case ArrayValue(items) =>
      forall i | 0 <= i < |items| ensures Decode(Encode(items[i]).value) == Ok(items[i]) {
        RoundTrip(items[i]);
      }
      var j := Encode(v).value;
      assert forall i :: 0 <= i < |items| ==> j.items[i] == Encode(items[i]).value;
      assert DecodeInt(j).None? && DecodeDouble(j).None? && DecodeString(j).None? && DecodeBool(j).None?;
      assert DecodeArray(j).Some?;
      assert DecodeArray(j).value == items;
    case DictValue(entries) =>
      forall k | k in entries ensures Decode(Encode(entries[k]).value) == Ok(entries[k]) {
        RoundTrip(entries[k]);
      }
      var j := Encode(v).value;
      assert DecodeArray(j).None?;
      assert DecodeDict(j).Some?;
      assert DecodeDict(j).value == entries;
    case _ =>
  }

  /** Decoding loses nothing of the wire tree: re-encoding a decoded value gives the tree back.
      In particular a whole number too large for Int decodes as a Double and is written back as
      the same number. */
  lemma {:induction false} WireRoundTrip(j: Json)
    requires Decode(j).Ok?
    ensures Encode(Decode(j).value) == Ok(j)
  {
    match j
    case JArray(items) =>
      assert DecodeArray(j).Some?;
      forall i | 0 <= i < |items| ensures Encode(Decode(items[i]).value) == Ok(items[i]) {
        WireRoundTrip(items[i]);
      }
      assert Encode(Decode(j).value).value == j;
    case JObject(fields) =>
      assert DecodeArray(j).None?;
      assert DecodeDict(j).Some?;
      forall k | k in fields ensures Encode(Decode(fields[k]).value) == Ok(fields[k]) {
        WireRoundTrip(fields[k]);
      }
      assert Encode(Decode(j).value).value == j;
    case _ =>
  }

  /** A whole-valued Double that fits in an Int does not survive the round trip: it comes back
      as the Int with the same value, because Int is tried before Double. */
  lemma WholeDoubleComesBackAsInt(w: Int64)
    ensures Decode(Encode(DoubleValue(Whole(w))).value) == Ok(IntValue(w))
  {
  }

  /** One unsupported value nested anywhere makes the enclosing array or dictionary fail. */
  lemma UnsupportedElementFailsEncode(items: seq<AnyValue>, entries: map<string, AnyValue>, i: nat, k: string)
    requires (0 <= i < |items| && !Supported(items[i])) || (k in entries && !Supported(entries[k]))
    ensures Encode(ArrayValue(items)).Err? || Encode(DictValue(entries)).Err?
    ensures 0 <= i < |items| && !Supported(items[i]) ==> Encode(ArrayValue(items)).Err?
    ensures k in entries && !Supported(entries[k]) ==> Encode(DictValue(entries)).Err?
  {
  }
}
