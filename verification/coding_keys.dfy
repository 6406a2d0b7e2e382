/** UBKitDynamicCodingKeys.swift: a coding key built from an arbitrary string. */
module CodingKeys {
  import opened Optional

  datatype DynamicKey = DynamicKey(stringValue: string)

  /** The `intValue` property: integer keys are not supported, so every key reports none. */
  function IntValue(k: DynamicKey): (r: Option<int>)
    ensures r.None?
  {
    None
  }

  /** `init?(stringValue:)`: declared failable, but it always succeeds and keeps the string verbatim,
      which is what makes the force-unwrap at the parameters encoder safe. */
  function FromString(s: string): (r: Option<DynamicKey>)
    ensures r.Some?
    ensures r.value.stringValue == s
  {
    Some(DynamicKey(s))
  }

  /** `init?(intValue:)`: always `nil`. */
  function FromInt(i: int): (r: Option<DynamicKey>)
    ensures r.None?
  {
    None
  }

  /** Distinct strings give distinct keys, so no two parameter names share a slot. */
  lemma FromStringInjective(a: string, b: string)
    ensures FromString(a) == FromString(b) <==> a == b
  {
  }
}
