/**
 * Values shared by every route: optional request fields, results, and the
 * JavaScript truthiness tests (`if (!x)`, `x || y`, `x || null`) that the
 * route handlers apply to request fields before using them.
 */
module Common {

  datatype Option<+T> = None | Some(value: T) {
    function GetOr(default: T): T {
      match this
      case Some(v) => v
      case None => default
    }
  }

  datatype Result<+T, +E> = Ok(value: T) | Err(error: E)

  /** A string field is truthy when it is present (not null or undefined) and not "". */
  predicate Truthy(s: Option<string>) {
    s.Some? && s.value != ""
  }

  /** A numeric field is truthy when it is present and not 0. */
  predicate TruthyNum(n: Option<int>) {
    n.Some? && n.value != 0
  }

  /** `a || b` on two string fields: the first one when it is truthy, else the second. */
  function Either(a: Option<string>, b: Option<string>): (r: Option<string>)
    ensures Truthy(r) <==> Truthy(a) || Truthy(b)
    ensures Truthy(a) ==> r == a
    ensures !Truthy(a) ==> r == b
  {
    if Truthy(a) then a else b
  }

  /** `x || null`: a falsy string field is stored as NULL. */
  function OrNull(x: Option<string>): (r: Option<string>)
    ensures r.Some? <==> Truthy(x)
    ensures r.Some? ==> r == x
  {
    if Truthy(x) then x else None
  }

  function Min(a: int, b: int): int {
    if a <= b then a else b
  }

  /** Decimal rendering of a natural number, as a template literal prints it. */
  function NatToString(n: nat): string
    decreases n
  {
    var digit := "0123456789"[n % 10];
    if n < 10 then [digit] else NatToString(n / 10) + [digit]
  }
}
