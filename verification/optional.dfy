/** The Option and Result wrappers the rest of the model uses, together with the
    `or` / `orEmpty` conveniences that Optional+Extensions.swift adds to Swift's Optional. */
module Optional {

  /** Swift's `Optional<Wrapped>`: `nil` is None. */
  datatype Option<+T> = None | Some(value: T)

  /** A thrown Swift error or a successful value. */
  datatype Result<+T, +E> = Ok(value: T) | Err(error: E)

  /** `or(_:)`: the wrapped value when present, otherwise the supplied default. */
  function Or<T>(o: Option<T>, other: T): (r: T)
    ensures o.Some? ==> r == o.value
    ensures o.None? ==> r == other
  {
    match o
    case Some(v) => v
    case None => other
  }

  /** `orEmpty` on an optional String: `""` stands in for `nil`. */
  function OrEmpty(o: Option<string>): (r: string)
    ensures o.None? ==> r == ""
    ensures o.Some? ==> r == o.value
  {
    Or(o, "")
  }

  /** `orEmpty` on an optional collection: the empty collection stands in for `nil`. */
  function OrEmptySeq<T>(o: Option<seq<T>>): (r: seq<T>)
    ensures o.None? ==> |r| == 0
    ensures o.Some? ==> r == o.value
  {
    Or(o, [])
  }

  /** `orEmpty` loses exactly the distinction between `nil` and an empty value:
      two optionals give the same `orEmpty` iff they agree once `nil` is read as empty. */
  lemma OrEmptyCollapsesOnlyNil(a: Option<string>, b: Option<string>)
    ensures OrEmpty(a) == OrEmpty(b) <==>
            (a == b || (a.None? && b == Some("")) || (b.None? && a == Some("")))
  {
  }
}
