/**
 Backoff arithmetic of the request engine, in 64-bit integers: every intermediate value
 has type `int64`, so its proof of type-correctness is the proof that nothing overflows.
 Durations are nanoseconds.
 */
module Backoff {
  import opened Common

  newtype int64 = x: int | -0x8000_0000_0000_0000 <= x <= MAX_INT64

  const SECOND: int64 := 1_000_000_000

  function Min(a: int, b: int): int { if a < b then a else b }
  function Max(a: int, b: int): int { if a < b then b else a }

  function Power2(n: nat): (r: nat)
    ensures r >= 1
  {
    if n == 0 then 1 else 2 * Power2(n - 1)
  }

  /** The delay the retry policy promises, in unbounded arithmetic: exponential from
      `initial`, at least what the server asked for, and never above `cap`. */
  function Promised(initial: int, cap: int, attempt: nat, retryAfter: int): int
    requires attempt >= 1
  {
    Min(Max(initial * Power2(attempt - 1), retryAfter), cap)
  }

  /** The delay loop of `waitBackoff`. */
  method Delay(initial: int64, cap: int64, attempt: nat, retryAfter: int64) returns (delay: int64)
    requires 0 < initial <= cap && attempt >= 1
    ensures delay as int == Promised(initial as int, cap as int, attempt, retryAfter as int)
    ensures 0 < delay <= cap
  {
    delay := initial;
    var current := 1;
    while current < attempt && delay < cap
      invariant 1 <= current <= attempt && 0 < delay <= cap
      invariant delay as int == Min(initial as int * Power2(current - 1), cap as int)
      decreases attempt - current
    {
      DoublingSaturates(initial as int, current);
      if delay > cap / 2 {
        delay := cap;
        PowerMonotone(initial as int, current, attempt - 1);
        break;
      }
      delay := delay * 2;
      current := current + 1;
    }
    PowerMonotone(initial as int, current - 1, attempt - 1);
    if retryAfter > delay {
      delay := if retryAfter < cap then retryAfter else cap;
    }
  }

  lemma DoublingSaturates(initial: int, n: nat)
    requires n >= 1
    ensures initial * Power2(n) == 2 * (initial * Power2(n - 1))
  {
  }

  lemma {:induction false} PowerMonotone(initial: int, m: nat, n: nat)
    requires initial > 0 && m <= n
    ensures initial * Power2(m) <= initial * Power2(n)
  {
    if m < n {
      PowerMonotone(initial, m, n - 1);
      DoublingSaturates(initial, n);
    }
  }

  /** The jitter drawn on top of a delay, and the timer value that results. `random` is
      the library's draw from `[0, n)`, which it only makes for a positive `n`. */
  method AddJitter(delay: int64) returns (jitter: int64, total: int64)
    requires 0 < delay
    ensures 0 <= jitter && total as int == delay as int + jitter as int
    ensures delay as int / 5 == 0 ==> jitter == 0
    ensures jitter == 0 || 5 * jitter as int < delay as int
    ensures delay as int + jitter as int <= MAX_INT64
  {
    var room: int64 := MAX_INT64 as int64 - delay;
    var limit := if delay / 5 < room then delay / 5 else room;
    jitter := 0;
    if limit > 0 {
      var random: int64 :| 0 <= random < limit;
      jitter := random;
    }
    total := delay + jitter;
  }

  /** The decoded `Retry-After` header: section 10.2.3 of RFC 9110 allows a number of
      seconds or a date; the integer form is whatever fits Go's 64-bit `int`. */
  datatype RetryAfterHeader =
    | Missing
    | Seconds(count: int64)
    | Date(timestamp: int)
    | Unreadable

  /** What the header asks for: never negative, and ignored when it cannot be represented. */
  function ParseRetryAfter(header: RetryAfterHeader, now: int): (wait: int64)
    ensures 0 <= wait
    ensures header.Seconds? && wait != 0 ==> wait as int == header.count as int * 1_000_000_000
    ensures header.Seconds? && wait == 0 ==>
              header.count <= 0 || header.count as int * 1_000_000_000 > MAX_INT64
    ensures header.Date? ==> wait as int == Max(0, Min(header.timestamp - now, MAX_INT64))
    ensures header.Missing? || header.Unreadable? ==> wait == 0
  {
    match header
    case Missing => 0
    case Unreadable => 0
    case Seconds(count) =>
      if count <= 0 || count > MAX_INT64 as int64 / SECOND then 0 else count * SECOND
    case Date(timestamp) =>
      if timestamp > now then Since(timestamp, now) as int64 else 0
  }

  /** A wait for one failed attempt: whatever the server sent, the timer is armed with the
      promised delay plus less than a fifth of it, inside the 64-bit range. */
  method BackoffTimer(initial: int64, cap: int64, attempt: nat, header: RetryAfterHeader, now: int)
    returns (timer: int64)
    requires 0 < initial <= cap && attempt >= 1
    ensures var d := Promised(initial as int, cap as int, attempt, ParseRetryAfter(header, now) as int);
            d <= timer as int && 5 * (timer as int - d) <= d && timer as int <= MAX_INT64
    ensures var d := Promised(initial as int, cap as int, attempt, ParseRetryAfter(header, now) as int);
            timer as int == d || 5 * (timer as int - d) < d
  {
    var delay := Delay(initial, cap, attempt, ParseRetryAfter(header, now));
    var jitter, total := AddJitter(delay);
    timer := total;
  }

  /** The promised delay never shrinks from one attempt to a later one, nor when the server
      asks for more, and stays between the configured bounds. */
  lemma PromisedMonotone(initial: int, cap: int, a: nat, b: nat, askedA: int, askedB: int)
    requires 0 < initial <= cap && 1 <= a <= b && askedA <= askedB
    ensures initial <= Promised(initial, cap, a, askedA) <= Promised(initial, cap, b, askedB) <= cap
  {
    PowerMonotone(initial, 0, a - 1);
    PowerMonotone(initial, a - 1, b - 1);
  }

  /** Doubling reaches the cap: from then on the delay is constant. */
  lemma {:induction false} CapReached(initial: int, cap: int, attempt: nat, retryAfter: int)
    requires 0 < initial <= cap && attempt >= cap
    ensures Promised(initial, cap, attempt, retryAfter) == cap
  {
    PowerExceeds(attempt - 1);
    assert Power2(attempt - 1) <= initial * Power2(attempt - 1) by {
      PositiveFactor(initial, Power2(attempt - 1));
    }
  }

  lemma PositiveFactor(a: int, b: int)
    requires a >= 1 && b >= 0
    ensures b <= a * b
  {
    assert a * b == (a - 1) * b + b;
  }

  lemma {:induction false} PowerExceeds(n: nat)
    ensures Power2(n) >= n + 1
  {
    if n > 0 { PowerExceeds(n - 1); }
  }
}
