/**
 The token bucket shared by data requests, logins and logouts. Floats are exact reals and
 times are nanoseconds.
 */
module Limiter {

  const NANOS: real := 1_000_000_000.0

  datatype Config = Config(rate: real, burst: nat) {
    predicate Valid() {
      rate > 0.0 && burst >= 1
    }
  }

  datatype Bucket = Bucket(tokens: real, last: int)

  function Min(a: real, b: real): real { if a < b then a else b }

  /** Whole nanoseconds of a non-negative duration: Go truncates toward zero. */
  function Truncate(r: real): (n: int)
    requires r >= 0.0
    ensures n >= 0 && n as real <= r < n as real + 1.0
  {
    r.Floor
  }

  /** Tokens credited for a number of nanoseconds. */
  function Credit(c: Config, nanos: int): real {
    nanos as real / NANOS * c.rate
  }

  lemma CreditAdds(c: Config, a: int, b: int)
    requires c.rate > 0.0
    ensures Credit(c, a + b) == Credit(c, a) + Credit(c, b)
    ensures b >= 0 ==> Credit(c, b) >= 0.0
    ensures Credit(c, 0) == 0.0 && Credit(c, 1) == c.rate / NANOS
  {
    var x, y := a as real / NANOS, b as real / NANOS;
    assert (a + b) as real / NANOS == x + y;
    assert (x + y) * c.rate == x * c.rate + y * c.rate;
    if b >= 0 { NonNegativeProduct(y, c.rate); }
  }

  /** Tokens after crediting the time since the last reading of the clock. */
  function Refill(c: Config, b: Bucket, now: int): Bucket {
    if now > b.last then
      Bucket(Min(c.burst as real, b.tokens + Credit(c, now - b.last)), now)
    else b
  }

  predicate Grants(c: Config, b: Bucket, now: int) {
    Refill(c, b, now).tokens >= 1.0
  }

  /** One pass through the locked section of `Wait`. */
  function Attempt(c: Config, b: Bucket, now: int): Bucket {
    var refilled := Refill(c, b, now);
    if Grants(c, b, now) then refilled.(tokens := refilled.tokens - 1.0) else refilled
  }

  /** The timer a refused caller arms. */
  function TimerFor(c: Config, b: Bucket): (wait: int)
    requires c.Valid() && b.tokens < 1.0
    ensures wait >= 1
  {
    DeficitPositive(c, b);
    var wait := Truncate((1.0 - b.tokens) / c.rate * NANOS);
    if wait <= 0 then 1 else wait
  }

  lemma DeficitPositive(c: Config, b: Bucket)
    requires c.Valid() && b.tokens < 1.0
    ensures (1.0 - b.tokens) / c.rate * NANOS > 0.0
  {
    var q := (1.0 - b.tokens) / c.rate;
    assert q * c.rate == 1.0 - b.tokens;
    if q <= 0.0 {
      NonPositiveProduct(q, c.rate);
    }
  }

  lemma NonPositiveProduct(q: real, r: real)
    requires q <= 0.0 && r >= 0.0
    ensures q * r <= 0.0
  {
  }

  lemma NonNegativeProduct(q: real, r: real)
    requires q >= 0.0 && r >= 0.0
    ensures q * r >= 0.0
  {
  }

  /** A clock that only moves forward; a sleep lasts at least as long as was asked. */
  class Clock {
    var now: int

    constructor (now: int)
      ensures this.now == now
    {
      this.now := now;
    }

    method Sleep(wait: int)
      requires wait >= 0
      modifies this
      ensures now >= old(now) + wait
    {
      var late :| late >= 0;
      now := now + wait + late;
    }
  }

  class RequestLimiter {
    const config: Config
    var tokens: real
    var last: int

    ghost function Contents(): Bucket
      reads this
    {
      Bucket(tokens, last)
    }

    ghost predicate Valid()
      reads this
    {
      config.Valid() && 0.0 <= tokens <= config.burst as real
    }

    constructor (config: Config, now: int)
      requires config.Valid()
      ensures Valid() && this.config == config
      ensures Contents() == Bucket(config.burst as real, now)
    {
      this.config := config;
      tokens := config.burst as real;
      last := now;
    }

    /** The locked section: one reading of the clock, a grant or a refusal with a timer. */
    method TryTake(now: int) returns (granted: bool, wait: int)
      requires Valid()
      modifies this
      ensures Valid()
      ensures Contents() == Attempt(config, old(Contents()), now)
      ensures granted <==> Grants(config, old(Contents()), now)
      ensures !granted ==> tokens < 1.0 && wait == TimerFor(config, Contents())
    {
      StepKeepsBounds(config, Contents(), now);
      var elapsed := (now - last) as real / NANOS;
      if elapsed > 0.0 {
        tokens := Min(config.burst as real, tokens + elapsed * config.rate);
        last := now;
      }
      if tokens >= 1.0 {
        tokens := tokens - 1.0;
        return true, 0;
      }
      wait := TimerFor(config, Bucket(tokens, last));
      granted := false;
    }

    /** `Wait` when nobody else takes tokens: admitted after at most two timers, unless the
        context is cancelled while one is running; `cancelled(k)` says it is during the k-th. */
    method WaitAlone(clock: Clock, cancelled: nat -> bool) returns (granted: bool, timers: nat)
      requires Valid() && last <= clock.now
      modifies this, clock
      ensures Valid() && timers <= 2
      ensures last == clock.now || !granted
      ensures !granted ==> timers >= 1 && cancelled(timers)
      ensures forall k :: 1 <= k < timers ==> !cancelled(k)
      ensures old(Refill(config, Contents(), clock.now).tokens) >= 1.0 ==> granted && timers == 0
    {
      timers := 0;
      ghost var before := Contents();
      var wait: int;
      granted, wait := TryTake(clock.now);
      while !granted
        invariant Valid() && 0 <= timers <= 2
        invariant !granted ==> tokens < 1.0 && last == clock.now && wait == TimerFor(config, Contents())
        invariant granted ==> last == clock.now
        invariant timers == 1 && !granted ==> NearlyFull(config, Contents())
        invariant timers == 2 ==> granted
        invariant forall k :: 1 <= k <= timers ==> !cancelled(k)
        invariant Grants(config, before, old(clock.now)) ==> granted && timers == 0
        decreases 2 - timers
      {
        ghost var refused, asleep := Contents(), clock.now;
        clock.Sleep(wait);
        timers := timers + 1;
        if cancelled(timers) {
          return false, timers;
        }
        TimerSuffices(config, refused, clock.now);
        granted, wait := TryTake(clock.now);
      }
    }
  }

  /** A bucket that lacks less than the tokens of one nanosecond. */
  predicate NearlyFull(c: Config, b: Bucket) {
    b.tokens + c.rate / NANOS >= 1.0
  }

  /** After its own timer a lone caller is served or lacks less than a nanosecond's worth,
      and in the latter case the next timer serves it. */
  lemma TimerSuffices(c: Config, b: Bucket, now: int)
    requires c.Valid() && 0.0 <= b.tokens < 1.0
    requires now >= b.last + TimerFor(c, b)
    ensures Grants(c, b, now) || NearlyFull(c, Refill(c, b, now))
    ensures NearlyFull(c, b) ==> Grants(c, b, now)
  {
    var slept := now - b.last;
    CreditAdds(c, slept - 1, 1);
    TimerCoversDeficit(c, b);
    var wait := TimerFor(c, b);
    CreditAdds(c, wait, slept - wait);
    CreditAdds(c, wait - 1, 1);
    CreditAdds(c, 0, wait - 1);
    assert Refill(c, b, now).tokens == Min(c.burst as real, b.tokens + Credit(c, slept));
  }

  lemma TimerCoversDeficit(c: Config, b: Bucket)
    requires c.Valid() && 0.0 <= b.tokens < 1.0
    ensures b.tokens + Credit(c, TimerFor(c, b)) + c.rate / NANOS >= 1.0
  {
    DeficitPositive(c, b);
    var exact := (1.0 - b.tokens) / c.rate * NANOS;
    ExactCovers(1.0 - b.tokens, c.rate);
    OneMoreNano(c, exact, TimerFor(c, b));
  }

  lemma OneMoreNano(c: Config, exact: real, wait: int)
    requires c.Valid() && exact <= wait as real + 1.0
    ensures exact * (c.rate / NANOS) <= Credit(c, wait) + c.rate / NANOS
  {
    var perNano := c.rate / NANOS;
    Scale(exact, wait as real + 1.0, perNano);
    assert (wait as real + 1.0) * perNano == wait as real * perNano + perNano;
  }

  lemma ExactCovers(deficit: real, rate: real)
    requires rate > 0.0
    ensures (deficit / rate * NANOS) * (rate / NANOS) == deficit
  {
    var q := deficit / rate;
    assert q * rate == deficit;
    assert (q * NANOS) * (rate / NANOS) == q * rate;
  }

  lemma Scale(a: real, b: real, r: real)
    requires a <= b && r >= 0.0
    ensures a * r <= b * r
  {
    NonNegativeProduct(b - a, r);
    assert b * r == a * r + (b - a) * r;
  }

  lemma RefillKeepsBounds(c: Config, b: Bucket, now: int)
    requires c.Valid() && 0.0 <= b.tokens <= c.burst as real
    ensures 0.0 <= Refill(c, b, now).tokens <= c.burst as real
    ensures Refill(c, b, now).tokens >= b.tokens
    ensures now >= b.last ==>
              Refill(c, b, now).tokens <= b.tokens + Credit(c, now - b.last)
    ensures now >= b.last ==> Refill(c, b, now).last == now
  {
    if now >= b.last {
      CreditAdds(c, 0, now - b.last);
    }
  }

  lemma StepKeepsBounds(c: Config, b: Bucket, now: int)
    requires c.Valid() && 0.0 <= b.tokens <= c.burst as real
    ensures 0.0 <= Attempt(c, b, now).tokens <= c.burst as real
  {
    RefillKeepsBounds(c, b, now);
  }

  // ---------- whole runs: the clock readings of all callers, in lock order ----------

  ghost predicate Forward(start: int, readings: seq<int>) {
    && (forall i :: 0 <= i < |readings| ==> start <= readings[i])
    && (forall i, j :: 0 <= i < j < |readings| ==> readings[i] <= readings[j])
  }

  ghost function Run(c: Config, b: Bucket, readings: seq<int>): Bucket {
    if readings == [] then b
    else Attempt(c, Run(c, b, readings[..|readings| - 1]), readings[|readings| - 1])
  }

  /** How many of the attempts were granted. */
  ghost function Granted(c: Config, b: Bucket, readings: seq<int>): nat {
    if readings == [] then 0
    else
      var earlier := readings[..|readings| - 1];
      Granted(c, b, earlier) + if Grants(c, Run(c, b, earlier), readings[|readings| - 1]) then 1 else 0
  }

  /** Tokens are conserved: what is left plus what was granted is at most what was there
      plus what the elapsed time is worth, and the bounds hold at every point. */
  lemma {:induction false} Conservation(c: Config, b: Bucket, readings: seq<int>)
    requires c.Valid() && 0.0 <= b.tokens <= c.burst as real && Forward(b.last, readings)
    ensures var e := Run(c, b, readings);
            && 0.0 <= e.tokens <= c.burst as real
            && e.last == (if readings == [] then b.last else readings[|readings| - 1])
            && e.tokens + Granted(c, b, readings) as real
               <= b.tokens + Credit(c, e.last - b.last)
  {
    if readings != [] {
      var earlier, now := readings[..|readings| - 1], readings[|readings| - 1];
      Conservation(c, b, earlier);
      var mid := Run(c, b, earlier);
      if earlier != [] { assert mid.last == readings[|readings| - 2]; }
      RefillKeepsBounds(c, mid, now);
      StepKeepsBounds(c, mid, now);
      CreditAdds(c, mid.last - b.last, now - mid.last);
    }
  }

  /** The promise of the limiter: in every window of a run, grants are at most
      burst + rate * length, whoever the callers are and whatever happened before. */
  lemma {:induction false} WindowBound(c: Config, b: Bucket, before: seq<int>, window: seq<int>, from: int, until: int)
    requires c.Valid() && 0.0 <= b.tokens <= c.burst as real
    requires Forward(b.last, before + window)
    requires forall i :: 0 <= i < |window| ==> from <= window[i] <= until
    requires from <= until
    ensures Granted(c, Run(c, b, before), window) as real
         <= c.burst as real + Credit(c, until - from)
  {
    CreditAdds(c, 0, until - from);
    if window != [] {
      ForwardSplit(b.last, before, window);
      Conservation(c, b, before);
      var entry := Run(c, b, before);
      var first := window[0];
      assert entry.last <= first by {
        assert (before + window)[|before|] == first;
        if before != [] { assert (before + window)[|before| - 1] == before[|before| - 1]; }
      }
      // Refilling at the first reading only makes the same attempts start from there.
      RefillKeepsBounds(c, entry, first);
      var filled := Refill(c, entry, first);
      StartRefilled(c, entry, filled, window);
      Conservation(c, filled, window);
      var last := window[|window| - 1];
      CreditAdds(c, last - first, until - from - (last - first));
    }
  }

  lemma ForwardSplit(start: int, before: seq<int>, window: seq<int>)
    requires Forward(start, before + window)
    ensures Forward(start, before)
    ensures window != [] ==> Forward(window[0], window)
  {
    var whole := before + window;
    assert forall i :: 0 <= i < |before| ==> whole[i] == before[i];
    assert forall i :: 0 <= i < |window| ==> whole[|before| + i] == window[i];
  }

  lemma {:induction false} StartRefilled(c: Config, entry: Bucket, filled: Bucket, window: seq<int>)
    requires window != [] && c.Valid() && entry.last <= window[0]
    requires filled == Refill(c, entry, window[0])
    ensures Run(c, filled, window) == Run(c, entry, window)
    ensures Granted(c, filled, window) == Granted(c, entry, window)
  {
    var earlier := window[..|window| - 1];
    if earlier == [] {
      assert Run(c, filled, []) == filled && Run(c, entry, []) == entry;
    } else {
      StartRefilled(c, entry, filled, earlier);
    }
  }

  // ---------- what is granted, and not only what is refused ----------

  function Same(now: int, k: nat): (r: seq<int>)
    ensures |r| == k && forall i :: 0 <= i < k ==> r[i] == now
  {
    seq(k, i => now)
  }

  /** Passes at one reading of the clock: the bucket is filled once and then emptied token by token. */
  lemma {:induction false} PassesAtOnce(c: Config, b: Bucket, now: int, k: nat)
    requires c.Valid() && 0.0 <= b.tokens <= c.burst as real && now >= b.last
    ensures var full := Min(c.burst as real, b.tokens + Credit(c, now - b.last));
            && Granted(c, b, Same(now, k)) <= k
            && (k >= 1 ==> Run(c, b, Same(now, k)) == Bucket(full - Granted(c, b, Same(now, k)) as real, now))
            && (k as real <= full ==> Granted(c, b, Same(now, k)) == k)
  {
    CreditAdds(c, 0, now - b.last);
    if k > 0 {
      PassesAtOnce(c, b, now, k - 1);
      assert Same(now, k)[..k - 1] == Same(now, k - 1);
      if k == 1 { assert Run(c, b, Same(now, 0)) == b; }
    }
  }

  /** What the time since the last reading is worth: seconds times the rate. */
  ghost predicate Earned(c: Config, b: Bucket, now: int, earned: real) {
    earned == (now - b.last) as real / 1_000_000_000.0 * c.rate
  }

  /** Whoever the callers are, `k` of them at one reading are all admitted exactly when `k` is at most the
      burst and at most what is left and the time since the last reading is worth. */
  lemma BurstIsServed(c: Config, b: Bucket, now: int, k: nat, earned: real)
    requires c.Valid() && 0.0 <= b.tokens <= c.burst as real && now >= b.last && Earned(c, b, now, earned)
    ensures Granted(c, b, Same(now, k)) == k <==> k <= c.burst && k as real <= b.tokens + earned
  {
    EarnedIsCredit(c, b, now, earned);
    ServedByCredit(c, b, now, k, earned);
  }

  lemma EarnedIsCredit(c: Config, b: Bucket, now: int, earned: real)
    requires Earned(c, b, now, earned)
    ensures earned == Credit(c, now - b.last)
  {
  }

  lemma ServedByCredit(c: Config, b: Bucket, now: int, k: nat, credit: real)
    requires c.Valid() && 0.0 <= b.tokens <= c.burst as real && now >= b.last && credit == Credit(c, now - b.last)
    ensures Granted(c, b, Same(now, k)) == k <==> k <= c.burst && k as real <= b.tokens + credit
  {
    CreditAdds(c, 0, now - b.last);
    PassesAtOnce(c, b, now, k);
    if Granted(c, b, Same(now, k)) == k && k >= 1 {
      Conservation(c, b, Same(now, k));
    }
  }

  /** An idle time worth the burst restores all of it, however empty the bucket was. */
  lemma IdleRestoresBurst(c: Config, b: Bucket, now: int, earned: real)
    requires c.Valid() && 0.0 <= b.tokens <= c.burst as real
    requires now >= b.last && Earned(c, b, now, earned) && earned >= c.burst as real
    ensures Granted(c, b, Same(now, c.burst)) == c.burst
  {
    BurstIsServed(c, b, now, c.burst, earned);
  }

  /** A reading that is not later than the last one refills nothing and does not set the clock back. */
  lemma StaleReading(c: Config, b: Bucket, now: int)
    requires now <= b.last
    ensures Run(c, b, [now]) == Bucket(if b.tokens >= 1.0 then b.tokens - 1.0 else b.tokens, b.last)
  {
    assert [now][..0] == [];
  }

  /** A timer longer than a nanosecond ends no later than the missing part of a token is refilled. */
  lemma TimerIsTight(c: Config, b: Bucket)
    requires c.Valid() && 0.0 <= b.tokens < 1.0 && TimerFor(c, b) > 1
    ensures b.tokens + Credit(c, TimerFor(c, b)) <= 1.0
  {
    DeficitPositive(c, b);
    var exact, wait := (1.0 - b.tokens) / c.rate * NANOS, TimerFor(c, b);
    ExactCovers(1.0 - b.tokens, c.rate);
    Scale(wait as real, exact, c.rate / NANOS);
    assert wait as real * (c.rate / NANOS) == Credit(c, wait);
  }
}
