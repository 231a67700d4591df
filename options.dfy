/**
 * Optional values and the JavaScript truthiness rules the catalogue code
 * leans on: `a || b` picks `b` when `a` is null, undefined, `''` or `0`.
 */
module Options {

  datatype Option<T> = None | Some(value: T) {
    function GetOr(default: T): T {
      match this
      case Some(v) => v
      case None => default
    }
  }

  /** A possibly-missing string is truthy when present and non-empty. */
  predicate Truthy(s: Option<string>) {
    s.Some? && s.value != ""
  }

  /** A possibly-missing number is truthy when present and non-zero (NaN is not modelled). */
  predicate TruthyInt(n: Option<int>) {
    n.Some? && n.value != 0
  }

  /** `a || b` on possibly-missing strings. */
  function OrElse(a: Option<string>, b: Option<string>): Option<string>
  {
    if Truthy(a) then a else b
  }

  /** `a || d` where the fallback `d` is a plain string: the result is never missing. */
  function OrDefault(a: Option<string>, d: string): string
  {
    if Truthy(a) then a.value else d
  }

  /** `n || d` on a possibly-missing number. */
  function OrDefaultInt(n: Option<int>, d: int): int
  {
    if TruthyInt(n) then n.value else d
  }
}
