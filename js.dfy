/** Small vocabulary for JavaScript values that the overlay's code relies on:
    a property that may be `undefined`, the `||` default idiom, and the
    decimal rendering of a number inside a template string. */
module Js {

  /** A property that is either absent (`undefined`) or holds a value. */
  datatype Option<+T> = None | Some(value: T) {
    function GetOr(default: T): T {
      match this
      case Some(v) => v
      case None => default
    }
  }

  /** `x || d` for a number: both `undefined` and `0` are falsy. */
  function OrInt(x: Option<int>, d: int): int {
    if x.Some? && x.value != 0 then x.value else d
  }

  /** `x || d` for a string: both `undefined` and `""` are falsy. */
  function OrString(x: Option<string>, d: string): string {
    if x.Some? && x.value != "" then x.value else d
  }

  /** JavaScript truthiness of an optional number. */
  predicate TruthyInt(x: Option<int>) {
    x.Some? && x.value != 0
  }

  /** JavaScript truthiness of an optional string. */
  predicate TruthyString(x: Option<string>) {
    x.Some? && x.value != ""
  }

  /** No element occurs twice. */
  ghost predicate Distinct<T>(s: seq<T>) {
    forall i, j :: 0 <= i < j < |s| ==> s[i] != s[j]
  }

  function DigitChar(d: nat): char
    requires d < 10
  {
    "0123456789"[d]
  }

  function NatToString(n: nat): string
    decreases n
  {
    if n < 10 then [DigitChar(n)] else NatToString(n / 10) + [DigitChar(n % 10)]
  }

  /** The decimal text of an integer, as `${n}` renders it. */
  function IntToString(n: int): string {
    if n < 0 then "-" + NatToString(-n) else NatToString(n)
  }
}
