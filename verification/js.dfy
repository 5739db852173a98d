/**
 * The two JavaScript value shapes the storefront client relies on:
 * a value that may be `null`, and a number produced by `parseInt` or
 * `parseFloat`, which is either a number or NaN.
 */
module Js {

  /** A value that may be `null` (or absent, for `localStorage.getItem`). */
  datatype Option<+T> = None | Some(value: T)

  /** The result of `parseInt` (T = int) or `parseFloat` (T = real). */
  datatype Number<+T> = Num(value: T) | NaN
}
