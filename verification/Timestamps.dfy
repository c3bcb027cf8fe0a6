/** The conversions a sample time goes through, and the bounds of a query. Times are milliseconds where
    Prometheus talks, and instants, nanoseconds since the Unix epoch, where Go's `time.Time` and
    PostgreSQL do. */
module Timestamps {
  const NANOS_PER_MILLI := 1_000_000
  const NANOS_PER_SECOND := 1_000_000_000
  const TWO_TO_63 := 0x8000_0000_0000_0000
  const TWO_TO_64 := 0x1_0000_0000_0000_0000

  predicate IsInt64(x: int) { -TWO_TO_63 <= x < TWO_TO_63 }

  /** The value an int64 computation wraps around to. */
  function Wrap64(x: int): (w: int)
    ensures IsInt64(w) && (w - x) % TWO_TO_64 == 0
  {
    (x + TWO_TO_63) % TWO_TO_64 - TWO_TO_63
  }

  /** Go's `/`: toward zero. */
  function Quotient(a: int, b: int): int
    requires b > 0
  {
    if a >= 0 then a / b else -(-a / b)
  }

  /** `model.Time.UnixNano`, which multiplies in int64. */
  function UnixNano(ms: int): int { Wrap64(ms * NANOS_PER_MILLI) }

  /** `toTimestamp`. */
  function ToTimestamp(ms: int): int {
    var sec := Quotient(ms, 1000);
    var nanoSec := (ms - sec * 1000) * NANOS_PER_MILLI;
    sec * NANOS_PER_SECOND + nanoSec
  }

  /** The instant the writer stores for a sample of the given time. */
  function StoredInstant(ms: int): int { ToTimestamp(Quotient(UnixNano(ms), NANOS_PER_MILLI)) }

  /** `time.Time.UnixMilli`: whole seconds rounded down, then the nanoseconds within the second. */
  function UnixMilli(instant: int): int {
    instant / NANOS_PER_SECOND * 1000 + instant % NANOS_PER_SECOND / NANOS_PER_MILLI
  }

  /** The remote-read conversion: `UnixNano() / 1000000`, wrapping and truncating. */
  function RemoteReadMillis(instant: int): int { Quotient(Wrap64(instant), NANOS_PER_MILLI) }

  const LAST_EXACT_MILLI := 9_223_372_036_854

  lemma ToTimestampIsExact(ms: int)
    ensures ToTimestamp(ms) == ms * NANOS_PER_MILLI
  {
  }

  lemma WrapInside(x: int)
    requires IsInt64(x)
    ensures Wrap64(x) == x
  {
  }

  lemma QuotientOfProduct(a: int)
    ensures Quotient(a * NANOS_PER_MILLI, NANOS_PER_MILLI) == a
  {
  }

  lemma QuotientBounded(x: int)
    requires IsInt64(x)
    ensures -LAST_EXACT_MILLI <= Quotient(x, NANOS_PER_MILLI) <= LAST_EXACT_MILLI
  {
  }

  lemma UnixMilliOfMillis(ms: int)
    ensures UnixMilli(ms * NANOS_PER_MILLI) == ms
  {
    var instant := ms * NANOS_PER_MILLI;
    assert instant / NANOS_PER_SECOND == ms / 1000;
    assert instant % NANOS_PER_SECOND == ms % 1000 * NANOS_PER_MILLI;
  }

  /** Also before 1970, the millisecond is the one the instant lies in. */
  lemma UnixMilliRoundsDown(instant: int)
    ensures UnixMilli(instant) * 1_000_000 <= instant < (UnixMilli(instant) + 1) * 1_000_000
  {
    var seconds, nanos := instant / NANOS_PER_SECOND, instant % NANOS_PER_SECOND;
    assert instant == seconds * NANOS_PER_SECOND + nanos;
    assert nanos / NANOS_PER_MILLI * NANOS_PER_MILLI <= nanos < (nanos / NANOS_PER_MILLI + 1) * NANOS_PER_MILLI;
  }

  lemma StoredInstantExact(ms: int)
    requires IsInt64(ms)
    ensures StoredInstant(ms) == ms * NANOS_PER_MILLI <==> -LAST_EXACT_MILLI <= ms <= LAST_EXACT_MILLI
    ensures exists stored ::
              -LAST_EXACT_MILLI <= stored <= LAST_EXACT_MILLI && StoredInstant(ms) == stored * NANOS_PER_MILLI
  {
    var stored := Quotient(UnixNano(ms), NANOS_PER_MILLI);
    QuotientBounded(UnixNano(ms));
    ToTimestampIsExact(stored);
    if -LAST_EXACT_MILLI <= ms <= LAST_EXACT_MILLI {
      WrapInside(ms * NANOS_PER_MILLI);
      QuotientOfProduct(ms);
    }
  }

  /** The time on the other side of the wrap: the product of the pushed time, taken into the int64 range by a
      multiple of its size. */
  predicate WrapsTo(ms: int, nanos: int) {
    -0x8000_0000_0000_0000 <= nanos < 0x8000_0000_0000_0000 &&
    (nanos - ms * 1_000_000) % 0x1_0000_0000_0000_0000 == 0
  }

  lemma WholeMillis(nanos: int)
    ensures var stored := Quotient(nanos, 1_000_000) * 1_000_000;
            if nanos >= 0 then stored <= nanos < stored + 1_000_000 else stored - 1_000_000 < nanos <= stored
  {
  }

  lemma WholeMultiple(n: int, q: int)
    requires n == q * 1_000_000
    ensures n % 1_000_000 == 0
  {
  }

  lemma UnixNanoWraps(ms: int)
    ensures WrapsTo(ms, UnixNano(ms))
  {
  }

  lemma StoredInstantIs(ms: int)
    ensures StoredInstant(ms) == Quotient(UnixNano(ms), 1_000_000) * 1_000_000
  {
    ToTimestampIsExact(Quotient(UnixNano(ms), NANOS_PER_MILLI));
  }

  /** Every sample, in the exact range or not, is stored at the whole millisecond next to its wrapped time, on the
      side of 1970. */
  lemma StoredInstantWraps(ms: int) returns (nanos: int)
    ensures WrapsTo(ms, nanos) && StoredInstant(ms) % 1_000_000 == 0
    ensures if nanos >= 0 then StoredInstant(ms) <= nanos < StoredInstant(ms) + 1_000_000
            else StoredInstant(ms) - 1_000_000 < nanos <= StoredInstant(ms)
  {
    nanos := UnixNano(ms);
    UnixNanoWraps(ms);
    StoredInstantIs(ms);
    WholeMillis(nanos);
    WholeMultiple(StoredInstant(ms), Quotient(nanos, 1_000_000));
  }

  /** A sample time comes back unchanged, by the StoreAPI and by remote read, exactly when its nanoseconds
      fit in an int64. Beyond that the writer's product wraps and the sample is stored at another time. */
  lemma TimeSurvives(ms: int)
    requires IsInt64(ms)
    ensures UnixMilli(StoredInstant(ms)) == ms <==> -LAST_EXACT_MILLI <= ms <= LAST_EXACT_MILLI
    ensures RemoteReadMillis(StoredInstant(ms)) == UnixMilli(StoredInstant(ms))
  {
    StoredInstantExact(ms);
    var stored :| -LAST_EXACT_MILLI <= stored <= LAST_EXACT_MILLI && StoredInstant(ms) == stored * NANOS_PER_MILLI;
    UnixMilliOfMillis(stored);
    WrapInside(stored * NANOS_PER_MILLI);
    QuotientOfProduct(stored);
  }

  /* ---- query bounds ---- */

  /** 0001-01-01T00:00:00Z and 9999-12-31T23:59:59Z. */
  const EARLIEST_QUERY_TIME := -62_135_596_800 * NANOS_PER_SECOND
  const LATEST_QUERY_TIME := 253_402_300_799 * NANOS_PER_SECOND

  predicate IsLeap(year: int) { year % 4 == 0 && (year % 100 != 0 || year % 400 == 0) }

  /** The days of the years from 1 on before the given one, year by year. */
  function DaysBefore(year: int): int
    requires year >= 1
  {
    if year == 1 then 0 else DaysBefore(year - 1) + if IsLeap(year - 1) then 366 else 365
  }

  function LeapYears(n: int): int { n / 4 - n / 100 + n / 400 }

  lemma OneMoreFourth(n: int)
    ensures n / 4 == (n - 1) / 4 + if n % 4 == 0 then 1 else 0
  {
  }

  lemma OneMoreHundredth(n: int)
    ensures n / 100 == (n - 1) / 100 + if n % 100 == 0 then 1 else 0
  {
  }

  lemma OneMoreFourHundredth(n: int)
    ensures n / 400 == (n - 1) / 400 + if n % 400 == 0 then 1 else 0
  {
  }

  lemma HundredTimes(n: int, q: int)
    requires n == 100 * q
    ensures n % 100 == 0
  {
  }

  lemma FourTimes(n: int, q: int)
    requires n == 4 * q
    ensures n % 4 == 0
  {
  }

  lemma CenturiesAreFourths(n: int)
    ensures n % 400 == 0 ==> n % 100 == 0
    ensures n % 100 == 0 ==> n % 4 == 0
  {
    if n % 400 == 0 {
      HundredTimes(n, 4 * (n / 400));
    }
    if n % 100 == 0 {
      FourTimes(n, 25 * (n / 100));
    }
  }

  lemma OneMoreLeapYear(n: int)
    ensures LeapYears(n) == LeapYears(n - 1) + if IsLeap(n) then 1 else 0
  {
    OneMoreFourth(n);
    OneMoreHundredth(n);
    OneMoreFourHundredth(n);
    CenturiesAreFourths(n);
  }

  lemma {:induction false} DaysBeforeCounted(year: int)
    requires year >= 1
    ensures DaysBefore(year) == 365 * (year - 1) + LeapYears(year - 1)
    decreases year
  {
    if year > 1 {
      OneMoreLeapYear(year - 1);
      DaysBeforeCounted(year - 1);
    }
  }

  /** The clamp bounds are the first second of year 1 and the last of year 9999, counted in days of 86400
      seconds from the first of 1970. */
  lemma BoundsOfTheCalendar()
    ensures EARLIEST_QUERY_TIME == (DaysBefore(1) - DaysBefore(1970)) * 86_400 * 1_000_000_000
    ensures LATEST_QUERY_TIME == ((DaysBefore(10000) - DaysBefore(1970)) * 86_400 - 1) * 1_000_000_000
  {
    DaysBeforeCounted(1970);
    DaysBeforeCounted(10000);
    assert LeapYears(1969) == 477 && LeapYears(9999) == 2424;
  }

  /** The instant a timestamp literal says: `timestampLiteral` short of its RFC 3339 rendering. */
  method TimestampLiteral(milliseconds: int) returns (timestamp: int)
    ensures EARLIEST_QUERY_TIME <= milliseconds * 1_000_000 <= LATEST_QUERY_TIME ==>
              timestamp == milliseconds * 1_000_000
    ensures milliseconds * 1_000_000 < EARLIEST_QUERY_TIME ==> timestamp == EARLIEST_QUERY_TIME
    ensures milliseconds * 1_000_000 > LATEST_QUERY_TIME ==> timestamp == LATEST_QUERY_TIME
    ensures timestamp == ClampedInstant(milliseconds)
  {
    timestamp := milliseconds * NANOS_PER_MILLI;
    if timestamp < EARLIEST_QUERY_TIME {
      timestamp := EARLIEST_QUERY_TIME;
    } else if timestamp > LATEST_QUERY_TIME {
      timestamp := LATEST_QUERY_TIME;
    }
  }

  function Max(a: int, b: int): int { if a < b then b else a }

  function Min(a: int, b: int): int { if a < b then a else b }

  function ClampedInstant(ms: int): int {
    Max(EARLIEST_QUERY_TIME, Min(LATEST_QUERY_TIME, ms * NANOS_PER_MILLI))
  }

  predicate InWindow(start: int, end: int, instant: int) {
    start * NANOS_PER_MILLI <= instant <= end * NANOS_PER_MILLI
  }

  predicate InClampedWindow(start: int, end: int, instant: int) {
    ClampedInstant(start) <= instant <= ClampedInstant(end)
  }

  ghost predicate ClampingKeeps(instant: int) {
    forall start, end :: IsInt64(start) && IsInt64(end) ==>
      (InClampedWindow(start, end, instant) <==> InWindow(start, end, instant))
  }

  /** Clamping answers every window alike exactly for the times strictly between the clamp bounds: at a
      bound itself, and outside, some window answers differently. Every time that int64 milliseconds can
      say is covered, which is more than PostgreSQL stores. */
  lemma ClampingSelectsTheSame(instant: int)
    requires -TWO_TO_63 * NANOS_PER_MILLI <= instant <= (TWO_TO_63 - 1) * NANOS_PER_MILLI
    ensures ClampingKeeps(instant) <==> EARLIEST_QUERY_TIME < instant < LATEST_QUERY_TIME
  {
    if instant == EARLIEST_QUERY_TIME {
      // A window ending before the earliest time is clamped onto that very time.
      assert InClampedWindow(-TWO_TO_63, -TWO_TO_63, instant) && !InWindow(-TWO_TO_63, -TWO_TO_63, instant);
    } else if instant == LATEST_QUERY_TIME {
      assert InClampedWindow(TWO_TO_63 - 1, TWO_TO_63 - 1, instant) && !InWindow(TWO_TO_63 - 1, TWO_TO_63 - 1, instant);
    } else if instant < EARLIEST_QUERY_TIME || LATEST_QUERY_TIME < instant {
      assert InWindow(-TWO_TO_63, TWO_TO_63 - 1, instant) && !InClampedWindow(-TWO_TO_63, TWO_TO_63 - 1, instant);
    }
  }

  lemma ClampingIsMonotone(a: int, b: int)
    requires a <= b
    ensures ClampedInstant(a) <= ClampedInstant(b)
  {
  }
}
