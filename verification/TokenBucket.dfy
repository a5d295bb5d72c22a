/**
 * A token bucket of `golang.org/x/time/rate`, by its documented behaviour and in exact arithmetic.
 *
 * Time is in nanoseconds and a token is `TOKEN` units, so a bucket gains `rate` units per
 * nanosecond and nothing is rounded.
 */
module TokenBucket {

  const TOKEN: int := 1_000_000_000

  datatype Bucket = Bucket(rate: int, burst: int, units: int, last: int)

  function Full(rate: int, burst: int, now: int): Bucket {
    Bucket(rate, burst, burst * TOKEN, now)
  }

  /** The units in the bucket at `now`; the clock does not run backwards. */
  function Avail(b: Bucket, now: int): int {
    var gained := b.units + b.rate * (if now < b.last then 0 else now - b.last);
    if gained > b.burst * TOKEN then b.burst * TOKEN else gained
  }

  /** `Allow`: takes a token if there is one, and leaves the bucket alone otherwise. */
  function Take(b: Bucket, now: int): (Bucket, bool) {
    if Avail(b, now) >= TOKEN
    then (b.(units := Avail(b, now) - TOKEN, last := now), true)
    else (b, false)
  }

  /** A bucket that has been in use up to `now`. */
  predicate Valid(b: Bucket, now: int) {
    b.rate >= 1 && b.burst >= 0 && 0 <= b.units <= b.burst * TOKEN && b.last <= now
  }

  lemma MulMono(rate: int, x: int, y: int)
    requires rate >= 0 && x <= y
    ensures rate * x <= rate * y
  {
  }

  lemma MulSplit(rate: int, x: int, y: int, z: int)
    ensures rate * (z - x) == rate * (y - x) + rate * (z - y)
  {
  }

  /** What is available later depends only on what is available now. */
  lemma AvailLater(b: Bucket, now: int, later: int)
    requires Valid(b, now) && now <= later
    ensures var more := Avail(b, now) + b.rate * (later - now);
      Avail(b, later) == if more > b.burst * TOKEN then b.burst * TOKEN else more
    ensures 0 <= Avail(b, now) <= Avail(b, later) <= b.burst * TOKEN
    ensures Avail(b, later) <= Avail(b, now) + b.rate * (later - now)
  {
    MulSplit(b.rate, b.last, now, later);
    MulMono(b.rate, 0, now - b.last);
    MulMono(b.rate, 0, later - now);
  }

  /** Taking removes one token exactly when there is one, and keeps the bucket valid. */
  lemma TakeFacts(b: Bucket, now: int)
    requires Valid(b, now)
    ensures var (after, ok) := Take(b, now);
      && Valid(after, now) && after.rate == b.rate && after.burst == b.burst
      && ok == (Avail(b, now) >= TOKEN)
      && Avail(after, now) == Avail(b, now) - (if ok then TOKEN else 0)
  {
    AvailLater(b, now, now);
    assert b.rate * 0 == 0;
  }

  /** A bucket left alone long enough is full. */
  lemma IdleIsFull(b: Bucket, now: int, idle: int)
    requires Valid(b, now) && idle >= 0 && now - b.last >= idle && b.burst * TOKEN <= b.rate * idle
    ensures Avail(b, now) == b.burst * TOKEN
  {
    MulMono(b.rate, idle, now - b.last);
  }

  /** A clock that runs backwards gives and takes nothing. */
  lemma ClockBackwards(b: Bucket, now: int, earlier: int)
    requires Valid(b, now) && earlier <= b.last
    ensures Avail(b, earlier) == b.units
  {
  }
}
