/** The JSON tree that JSONEncoder writes and JSONDecoder reads. Text layout (whitespace,
    key order, digit formatting) is not modelled: only the tree. */
module Json {

  /** Swift's `Int` on the platforms the library targets: 64-bit two's complement. */
  predicate InInt64(x: int) {
    -0x8000_0000_0000_0000 <= x < 0x8000_0000_0000_0000
  }

  type Int64 = x: int | InInt64(x)

  /** A Swift `Double` or a JSON number: either whole-valued (`2.0`, `1e20`), carrying that
      integer, or non-integral (`123.45`), kept as an opaque token. No arithmetic is done on
      doubles anywhere in the library, so this is all the model needs. */
  datatype Double = Whole(w: int) | Fraction(token: nat)

  datatype Json =
    | JNull
    | JNumber(n: Double)
    | JString(s: string)
    | JBool(b: bool)
    | JArray(items: seq<Json>)
    | JObject(fields: map<string, Json>)

  /** The tree contains no `null` at any depth. */
  predicate NullFree(j: Json) {
    match j
    case JNull => false
    case JArray(items) => forall i :: 0 <= i < |items| ==> NullFree(items[i])
    case JObject(fields) => forall k :: k in fields ==> NullFree(fields[k])
    case _ => true
  }
}
