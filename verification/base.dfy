/** Shared value types: the optional value used for every `?:` field of the
    storefront's records, and the JavaScript truthiness tests the components
    apply to those fields. */
module Base {

  /** An optional value; `None` stands for `undefined`. */
  datatype Option<+T> = None | Some(value: T)

  /** `if (s)` on an optional string: defined and not the empty string. */
  predicate TruthyString(s: Option<string>) {
    s.Some? && s.value != ""
  }

  /** `if (n)` on an optional number: defined and not zero. */
  predicate TruthyNumber(n: Option<real>) {
    n.Some? && n.value != 0.0
  }

  /** `n || 0` on an optional number. */
  function NumberOrZero(n: Option<real>): real {
    if TruthyNumber(n) then n.value else 0.0
  }

  /** Scaling by a non-negative factor keeps order. */
  lemma ScaleMonotone(a: real, b: real, q: real)
    requires a <= b && q >= 0.0
    ensures a * q <= b * q
  {
  }

  /** Distributing a product over a difference. */
  lemma ScaleDifference(u: real, q: real, p: real)
    ensures u * q == u * p + u * (q - p)
  {
  }
}
