/**
 * Time arithmetic of the store (lib/food-store.ts): the expiration status of
 * an item and the number of days it has left. Timestamps are milliseconds
 * since the epoch and the current time is a parameter. The source divides the
 * millisecond difference in floating point; here the quotient is an exact
 * real, and each result is characterised by integer comparisons on the
 * millisecond difference.
 */
module Expiration {

  const MS_PER_HOUR: int := 1000 * 60 * 60
  const MS_PER_DAY: int := 1000 * 60 * 60 * 24

  datatype ExpirationStatus = Expired | Warning | Ok

  /** The hours elapsed from `from` to `to`, as the quotient the source computes. */
  function HoursBetween(from: int, to: int): real
  {
    (to - from) as real / MS_PER_HOUR as real
  }

  /**
   * Expired when the expiration time is reached, Warning when at most 24
   * hours are left, Ok otherwise. The three cases are exhaustive and mutually
   * exclusive because the result is one value of the datatype.
   */
  function GetExpirationStatus(expirationDate: int, now: int): (s: ExpirationStatus)
    ensures s == Expired <==> expirationDate - now <= 0
    ensures s == Warning <==> 0 < expirationDate - now <= MS_PER_DAY
    ensures s == Ok <==> expirationDate - now > MS_PER_DAY
  {
    var hoursUntilExpiry := HoursBetween(now, expirationDate);
    if hoursUntilExpiry <= 0.0 then Expired
    else if hoursUntilExpiry <= 24.0 then Warning
    else Ok
  }

  /** The least integer not below `x` (JavaScript's `Math.ceil`). */
  function Ceil(x: real): (r: int)
    ensures x <= r as real < x + 1.0
  {
    -((-x).Floor)
  }

  /** The number of days left, rounded up: the least `r` with `r` days reaching the expiration time. */
  function GetDaysLeft(expirationDate: int, now: int): (r: int)
    ensures (r - 1) * MS_PER_DAY < expirationDate - now <= r * MS_PER_DAY
  {
    Ceil((expirationDate - now) as real / MS_PER_DAY as real)
  }

  /**
   * Rounding of the day count: a whole number of days is exact, any part of a
   * day ahead counts as one more day, and a partial day past expiration
   * rounds toward zero.
   */
  lemma DaysLeftRounding(expirationDate: int, now: int, days: int)
    ensures expirationDate - now == days * MS_PER_DAY ==> GetDaysLeft(expirationDate, now) == days
    ensures 0 < expirationDate - now <= MS_PER_DAY ==> GetDaysLeft(expirationDate, now) == 1
    ensures -MS_PER_DAY < expirationDate - now <= 0 ==> GetDaysLeft(expirationDate, now) == 0
    ensures GetDaysLeft(expirationDate, now) >= 0 <==> expirationDate - now > -MS_PER_DAY
  {
  }

  /**
   * The status and the day count use different roundings but agree: expired
   * exactly when no day is left, warning exactly when one day is left, ok
   * exactly when two or more are.
   */
  lemma StatusAgreesWithDaysLeft(expirationDate: int, now: int)
    ensures GetExpirationStatus(expirationDate, now) == Expired <==> GetDaysLeft(expirationDate, now) <= 0
    ensures GetExpirationStatus(expirationDate, now) == Warning <==> GetDaysLeft(expirationDate, now) == 1
    ensures GetExpirationStatus(expirationDate, now) == Ok <==> GetDaysLeft(expirationDate, now) >= 2
  {
  }
}
