/** Millisecond arithmetic as JavaScript performs it on integral numbers. */
module Time {

  const SECOND_MS: int := 1000
  const MINUTE_MS: int := 60 * SECOND_MS
  const HOUR_MS: int := 60 * MINUTE_MS
  const DAY_MS: int := 24 * HOUR_MS
  /** The fixed fundraising window of 30 days, in milliseconds. */
  const FUNDING_WINDOW_MS: int := 30 * DAY_MS

  /** JavaScript's `a % d` for a positive divisor: the remainder takes the
      sign of the dividend. Dafny's own `%` is never negative, so the
      negative case is written out. */
  function JsRem(a: int, d: int): (r: int)
    requires d > 0
    ensures -d < r < d
    ensures a >= 0 ==> r >= 0
    ensures a <= 0 ==> r <= 0
    ensures a == TruncDiv(a, d) * d + r
  {
    if a >= 0 then a % d else -((-a) % d)
  }

  /** The quotient rounded toward zero, which pairs with `JsRem`. */
  function TruncDiv(a: int, d: int): int
    requires d > 0
  {
    if a >= 0 then a / d else -((-a) / d)
  }

  /** `Math.floor(a / d)` for a positive divisor: the largest `q` with
      `q * d <= a`. */
  function FloorDiv(a: int, d: int): (q: int)
    requires d > 0
    ensures q * d <= a < q * d + d
  {
    a / d
  }
}
