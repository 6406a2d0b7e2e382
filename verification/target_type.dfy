/** UBKitTargetType.swift: a request target (id, path, optional parameters, method), its
    composite notification name, and its JSON envelope `{"path", "id", "parameters"?}`. */
module TargetType {
  import opened Optional
  import opened Json
  import opened AnyCodable
  import opened RequestMethod
  import opened CodingKeys
  import NameBuilder

  /** A conforming target. The id is handled as a string, as the client code uses it. */
  datatype Target = Target(id: string, path: string, parameters: Option<map<string, AnyValue>>, verb: Method)

  /** The fileprivate `notificationName`: `"\(path)_\(id)_\(method.rawValue)"`. */
  function NotificationName(t: Target): (name: string)
    ensures name == t.path + "_" + t.id + "_" + RawValue(t.verb)
  {
    t.path + [NameBuilder.Separator] + t.id + [NameBuilder.Separator] + RawValue(t.verb)
  }

  /** The requester's name agrees with the name a receiver builds from the same three fields,
      so a response posted for this target reaches its observer. */
  lemma NotificationNameMatchesBuilder(t: Target)
    ensures NotificationName(t) ==
            NameBuilder.Build(NameBuilder.SetMethod(NameBuilder.SetId(NameBuilder.SetPath(NameBuilder.New(), t.path), t.id), RawValue(t.verb)))
  {
  }

  /** The method can be read back from the end of the name, whatever the path and id contain. */
  lemma MethodIsLastComponent(t: Target)
    ensures var parts := NameBuilder.Split(NotificationName(t), NameBuilder.Separator);
            |parts| >= 2 && FromRawValue(parts[|parts| - 1]) == Some(t.verb)
  {
    NameBuilder.LastComponent(t.path + [NameBuilder.Separator] + t.id, RawValue(t.verb));
    RawValueRoundTrip(t.verb);
  }

  // ---------------------------------------------------------------- parameters

  /** The `switch value` inside the parameters loop: String, Int, Double and Bool are written as
      themselves; a dictionary or array goes through JSON serialisation and is decoded back as
      `UBKitAnyCodable` before being written; anything else throws. */
  function EncodeParam(v: AnyValue): (r: Result<Json, EncodeError>)
    ensures r.Ok? <==> Supported(v)
    ensures r.Ok? ==> r == AnyCodable.Encode(v)
    ensures v.StringValue? ==> r == Ok(JString(v.s))
    ensures v.IntValue? ==> r == Ok(JNumber(Whole(v.i)))
    ensures v.DoubleValue? ==> r == Ok(JNumber(v.d))
    ensures v.BoolValue? ==> r == Ok(JBool(v.b))
  {
    match v
    case StringValue(s) => Ok(JString(s))
    case IntValue(i) => Ok(JNumber(Whole(i)))
    case DoubleValue(d) => Ok(JNumber(d))
    case BoolValue(b) => Ok(JBool(b))
    case DictValue(_) =>
      var serialised := AnyCodable.Encode(v);
      if serialised.Err? then Err(serialised.error) else
      var nested := DecodeDict(serialised.value);
      if nested.None? then Err(UnsupportedType) else
      assert Decode(serialised.value) == Ok(DictValue(nested.value));
      WireRoundTrip(serialised.value);
      AnyCodable.Encode(DictValue(nested.value))
    case ArrayValue(_) =>
      var serialised := AnyCodable.Encode(v);
      if serialised.Err? then Err(serialised.error) else
      var nested := DecodeArray(serialised.value);
      if nested.None? then Err(UnsupportedType) else
      assert Decode(serialised.value) == Ok(ArrayValue(nested.value));
      WireRoundTrip(serialised.value);
      AnyCodable.Encode(ArrayValue(nested.value))
    case Opaque(_) => Err(UnsupportedType)
  }

  /** A nested dictionary or array parameter is emitted exactly as its own wire form: the detour
      through serialisation and `UBKitAnyCodable` decoding changes nothing. */
  lemma NestedParamIsWireForm(v: AnyValue)
    requires v.DictValue? || v.ArrayValue?
    requires Supported(v)
    ensures EncodeParam(v).Ok?
    ensures EncodeParam(v) == AnyCodable.Encode(v)
  {
    var j := AnyCodable.Encode(v).value;
    assert Decode(j).Ok?;
    WireRoundTrip(j);
  }

  predicate AllSupported(ps: map<string, AnyValue>) {
    forall k :: k in ps ==> Supported(ps[k])
  }

  /** The parameters object: one entry per parameter key. */
  function EncodedParams(ps: map<string, AnyValue>): (r: map<string, Json>)
    requires AllSupported(ps)
    ensures r.Keys == ps.Keys
    ensures forall k :: k in r ==> r[k] == AnyCodable.Encode(ps[k]).value
  {
    map k | k in ps :: EncodeParam(ps[k]).value
  }

  /** The two keys that are always written. */
  function BaseFields(t: Target): map<string, Json> {
    map["path" := JString(t.path), "id" := JString(t.id)]
  }

  /** What `encode(to:)` produces: `path` and `id` always; `parameters` only when there is at
      least one parameter, because the nested container is created inside the loop body;
      the method is never written; any unsupported parameter fails the whole encoding. */
  function Envelope(t: Target): (r: Result<Json, EncodeError>)
    ensures r.Ok? <==> (t.parameters.None? || AllSupported(t.parameters.value))
    ensures r.Ok? ==> r.value.JObject?
    ensures r.Ok? ==> r.value.fields.Keys <= {"path", "id", "parameters"}
    ensures r.Ok? ==> "path" in r.value.fields && r.value.fields["path"] == JString(t.path)
    ensures r.Ok? ==> "id" in r.value.fields && r.value.fields["id"] == JString(t.id)
    ensures r.Ok? ==> ("parameters" in r.value.fields <==> t.parameters.Some? && |t.parameters.value| > 0)
    ensures r.Ok? && "parameters" in r.value.fields ==>
              && r.value.fields["parameters"].JObject?
              && r.value.fields["parameters"].fields.Keys == t.parameters.value.Keys
              && forall k :: k in t.parameters.value ==>
                   r.value.fields["parameters"].fields[k] == AnyCodable.Encode(t.parameters.value[k]).value
  {
    match t.parameters
    case None => Ok(JObject(BaseFields(t)))
    case Some(ps) =>
      if !AllSupported(ps) then Err(UnsupportedType)
      else if |ps| == 0 then Ok(JObject(BaseFields(t)))
      else Ok(JObject(BaseFields(t)["parameters" := JObject(EncodedParams(ps))]))
  }

  /** One pass of the inner `for (key, value) in parameters` loop: every parameter is written
      into a fresh nested container under its dynamic key; the first unsupported value throws. */
  method EncodeParameters(ps: map<string, AnyValue>) returns (r: Result<map<string, Json>, EncodeError>)
    ensures r.Ok? <==> AllSupported(ps)
    ensures r.Ok? ==> r.value == EncodedParams(ps)
  {
    var nested: map<string, Json> := map[];
    var pending := ps.Keys;
    while pending != {}
      invariant pending <= ps.Keys
      invariant nested.Keys == ps.Keys - pending
      invariant forall k :: k in nested ==> EncodeParam(ps[k]) == Ok(nested[k])
      decreases pending
    {
      var key :| key in pending;
      pending := pending - {key};
      var dynamicKey := CodingKeys.FromString(key).value;
      var encoded := EncodeParam(ps[key]);
      if encoded.Err? {
        return Err(encoded.error);
      }
      nested := nested[dynamicKey.stringValue := encoded.value];
    }
    assert AllSupported(ps);
    return Ok(nested);
  }

  /** `encode(to:)` as written: the outer `for (_, _) in parameters` loop runs once per parameter,
      each pass writing the whole parameters object again; an empty dictionary makes no pass,
      so no `parameters` key is written for it. */
  method EncodeTarget(t: Target) returns (r: Result<Json, EncodeError>)
    ensures r == Envelope(t)
  {
    var fields := BaseFields(t);
    if t.parameters.Some? {
      var ps := t.parameters.value;
      var outer := ps.Keys;
      while outer != {}
        invariant outer <= ps.Keys
        invariant outer == ps.Keys ==> fields == BaseFields(t)
        invariant outer != ps.Keys ==>
                    AllSupported(ps) && fields == BaseFields(t)["parameters" := JObject(EncodedParams(ps))]
        decreases outer
      {
        var pass :| pass in outer;
        outer := outer - {pass};
        var nested := EncodeParameters(ps);
        if nested.Err? {
          assert !AllSupported(ps) && nested.error == UnsupportedType;
          return Err(nested.error);
        }
        fields := fields["parameters" := JObject(nested.value)];
      }
      if outer == ps.Keys {
        assert ps == map[];
      }
    }
    r := Ok(JObject(fields));
  }

  /** `encodedToJSONString()`: the JSON text of the envelope, or `""` when encoding throws.
      The text layout is Foundation's and is taken as a parameter. */
  function EncodedToJsonString(t: Target, render: Json -> string): (s: string)
    ensures Envelope(t).Err? ==> s == ""
    ensures Envelope(t).Ok? ==> s == render(Envelope(t).value)
  {
    match Envelope(t)
    case Ok(j) => render(j)
    case Err(_) => ""
  }

  /** Because JSON text for an object is never empty, the string is empty exactly when some
      parameter is unsupported: `""` is an unambiguous failure signal. */
  lemma EncodedStringEmptyIffUnsupported(t: Target, render: Json -> string)
    requires forall j :: render(j) != ""
    ensures EncodedToJsonString(t, render) == "" <==>
            (t.parameters.Some? && exists k :: k in t.parameters.value && !Supported(t.parameters.value[k]))
  {
  }
}
