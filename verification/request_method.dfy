/** The four request methods of UBKitRequestMethod.swift and their String raw values. */
module RequestMethod {
  import opened Optional

  datatype Method = Get | Post | Put | Delete

  /** The raw values, in declaration order. */
  const RawValues: seq<string> := ["GET", "POST", "PUT", "DELETE"]

  /** `rawValue`: the string a case is declared with. */
  function RawValue(m: Method): (r: string)
    ensures r in RawValues
    ensures |r| > 0
    ensures '_' !in r
  {
    match m
    case Get => "GET"
    case Post => "POST"
    case Put => "PUT"
    case Delete => "DELETE"
  }

  /** `init(rawValue:)`: the case whose raw value is `s`, or `nil`. */
  function FromRawValue(s: string): (r: Option<Method>)
    ensures r.Some? <==> s in RawValues
    ensures r.Some? ==> RawValue(r.value) == s
  {
    if s == "GET" then Some(Get)
    else if s == "POST" then Some(Post)
    else if s == "PUT" then Some(Put)
    else if s == "DELETE" then Some(Delete)
    else None
  }

  /** Every case is reached by exactly one raw value: the raw values are pairwise distinct. */
  lemma RawValueInjective(a: Method, b: Method)
    ensures RawValue(a) == RawValue(b) <==> a == b
  {
  }

  /** `init(rawValue:)` inverts `rawValue`. */
  lemma RawValueRoundTrip(m: Method)
    ensures FromRawValue(RawValue(m)) == Some(m)
  {
  }

  /** There are exactly four methods, one per raw value. */
  lemma ExactlyFourMethods()
    ensures |RawValues| == 4
    ensures forall i, j :: 0 <= i < j < |RawValues| ==> RawValues[i] != RawValues[j]
    ensures forall s :: s in RawValues <==> FromRawValue(s).Some?
  {
  }
}
