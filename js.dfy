/**
 * JavaScript value conventions the dashboard relies on: optional values that
 * may be `undefined` or `null`, the nullish-coalescing operator `??`, and the
 * truthiness tests written as `!x` or `x ? … : …`.
 */
module Js {

  /** A plain optional value, for results that are either present or absent. */
  datatype Option<T> = None | Some(value: T) {
    function GetOr(default: T): T {
      match this
      case Some(v) => v
      case None => default
    }
  }

  /**
   * A JSON/TypeScript field that may be missing (`undefined`), explicitly
   * `null`, or carry a value. `??` and `?.` treat the first two alike; a strict
   * comparison such as `x !== null` does not.
   */
  datatype Nullish<T> = Undefined | Null | Val(v: T) {
    predicate IsNullish() {
      !Val?
    }
  }

  /** `a ?? b`: the left operand unless it is `null` or `undefined`. */
  function Coalesce<T>(a: Nullish<T>, b: Nullish<T>): (r: Nullish<T>)
    ensures a.Val? ==> r == a
    ensures !a.Val? ==> r == b
  {
    if a.Val? then a else b
  }

  /** `a ?? b` where the fallback is a plain value. */
  function CoalesceTo<T>(a: Nullish<T>, b: T): (r: T)
    ensures a.Val? ==> r == a.v
    ensures !a.Val? ==> r == b
  {
    if a.Val? then a.v else b
  }

  /** Truthiness of an optional number: present and not 0 (NaN is not modelled). */
  predicate TruthyNumber(n: Nullish<real>) {
    n.Val? && n.v != 0.0
  }

  /** Truthiness of an optional string: present and not empty. */
  predicate TruthyString(s: Nullish<string>) {
    s.Val? && s.v != ""
  }

  /** `Math.max(a, b)` on numbers (NaN is not modelled). */
  function Max(a: real, b: real): (m: real)
    ensures m >= a && m >= b
    ensures m == a || m == b
  {
    if a >= b then a else b
  }

  /** `s.startsWith(prefix)`. */
  predicate StartsWith(s: string, prefix: string) {
    |prefix| <= |s| && s[..|prefix|] == prefix
  }
}
