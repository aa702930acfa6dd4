/**
 The slice of `java.util.concurrent.TimeUnit` that the limiter relies on:
 the conversion `toMillis`, with Java's `int`/`long` ranges written out.
 */
module TimeUnits {

  const LongMax: int := 0x7fff_ffff_ffff_ffff
  const LongMin: int := -0x8000_0000_0000_0000

  /** Values of a Java `int`. */
  type Int32 = x: int | -0x8000_0000 <= x < 0x8000_0000

  /** Values of a Java `long`. */
  type Long = x: int | LongMin <= x <= LongMax

  datatype TimeUnit = Nanoseconds | Microseconds | Milliseconds | Seconds | Minutes | Hours | Days

  /** Java's integer division on a positive divisor: it truncates toward zero. */
  function JavaDiv(a: int, b: int): int
    requires b > 0
  {
    if a >= 0 then a / b else -((-a) / b)
  }

  /**
   `TimeUnit.toMillis(d)`: coarser units multiply and clamp to the `long`
   range, finer units divide and round toward zero.
   */
  function ToMillis(u: TimeUnit, d: Long): (r: Long)
    ensures 0 <= d ==> 0 <= r
    ensures d <= 0 ==> r <= 0
    ensures u == Milliseconds ==> r == d
    ensures u == Microseconds && 0 <= d ==> r * 1_000 <= d < (r + 1) * 1_000
    ensures u == Microseconds && d <= 0 ==> (r - 1) * 1_000 < d <= r * 1_000
    ensures u == Nanoseconds && 0 <= d ==> r * 1_000_000 <= d < (r + 1) * 1_000_000
    ensures u == Nanoseconds && d <= 0 ==> (r - 1) * 1_000_000 < d <= r * 1_000_000
  {
    match u
    case Nanoseconds => JavaDiv(d, 1_000_000)
    case Microseconds => JavaDiv(d, 1_000)
    case Milliseconds => d
    case Seconds =>
      if d > 9_223_372_036_854_775 then LongMax else if d < -9_223_372_036_854_775 then LongMin else d * 1_000
    case Minutes =>
      if d > 153_722_867_280_912 then LongMax else if d < -153_722_867_280_912 then LongMin else d * 60_000
    case Hours =>
      if d > 2_562_047_788_015 then LongMax else if d < -2_562_047_788_015 then LongMin else d * 3_600_000
    case Days =>
      if d > 106_751_991_167 then LongMax else if d < -106_751_991_167 then LongMin else d * 86_400_000
  }

  /** Milliseconds in one unit, for the units no finer than a millisecond. */
  function MillisPerUnit(u: TimeUnit): (m: nat)
    requires !u.Nanoseconds? && !u.Microseconds?
    ensures m >= 1
  {
    match u
    case Milliseconds => 1
    case Seconds => 1_000
    case Minutes => 60_000
    case Hours => 3_600_000
    case Days => 86_400_000
  }

  /**
   An `int` argument never reaches the clamp: for every unit no finer than a
   millisecond, `toMillis` of an `int` is the exact product.
   */
  lemma ToMillisOfIntIsExact(u: TimeUnit, d: Int32)
    requires !u.Nanoseconds? && !u.Microseconds?
    ensures ToMillis(u, d) == d * MillisPerUnit(u)
    ensures -0x8000_0000 * 86_400_000 <= ToMillis(u, d) < 0x8000_0000 * 86_400_000
  {
  }
}
