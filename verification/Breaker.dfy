/**
 The circuit breaker of the request engine. The object's two fields are proved to be a
 summary of the whole history of calls: it refuses exactly on five unreset failures,
 the latest of them less than thirty seconds ago.

 Times are nanoseconds; 0 is Go's zero time, and clock readings are later than that.
 */
module Breaker {

  const THRESHOLD: nat := 5
  const OPEN_PERIOD: int := 30_000_000_000
  const ZERO_TIME: int := 0

  datatype State = State(failures: nat, openUntil: int)

  const INITIAL := State(0, ZERO_TIME)

  datatype Event = Allow(at: int) | Success | Failure(at: int) {
    predicate OnClock() {
      Success? || at > ZERO_TIME
    }
  }

  predicate Refuses(s: State, at: int) {
    at < s.openUntil
  }

  function Step(s: State, e: Event): State {
    match e
    case Allow(at) =>
      if Refuses(s, at) then s
      else if s.openUntil != ZERO_TIME then INITIAL
      else s
    case Success => INITIAL
    case Failure(at) =>
      State(s.failures + 1, if s.failures + 1 >= THRESHOLD then at + OPEN_PERIOD else s.openUntil)
  }

  class CircuitBreaker {
    var failures: nat
    var openUntil: int

    constructor ()
      ensures Current() == INITIAL
    {
      failures, openUntil := 0, ZERO_TIME;
    }

    ghost function Current(): State
      reads this
    {
      State(failures, openUntil)
    }

    method Allow(now: int) returns (allowed: bool)
      modifies this
      ensures allowed <==> !Refuses(old(Current()), now)
      ensures Current() == Step(old(Current()), Event.Allow(now))
    {
      if now < openUntil {
        return false;
      }
      if openUntil != ZERO_TIME {
        openUntil := ZERO_TIME;
        failures := 0;
      }
      return true;
    }

    method Success()
      modifies this
      ensures Current() == Step(old(Current()), Event.Success)
    {
      failures := 0;
      openUntil := ZERO_TIME;
    }

    method Failure(now: int)
      modifies this
      ensures Current() == Step(old(Current()), Event.Failure(now))
    {
      failures := failures + 1;
      if failures >= THRESHOLD {
        openUntil := now + OPEN_PERIOD;
      }
    }
  }

  // ---------- what a history of calls means, without the two fields ----------

  ghost function After(history: seq<Event>): State {
    if history == [] then INITIAL
    else Step(After(history[..|history| - 1]), history[|history| - 1])
  }

  ghost function CountFailures(events: seq<Event>): nat {
    if events == [] then 0
    else CountFailures(events[..|events| - 1]) + if events[|events| - 1].Failure? then 1 else 0
  }

  /** The time of the most recently recorded failure. */
  ghost function LatestFailure(history: seq<Event>): int {
    if history == [] then ZERO_TIME
    else if history[|history| - 1].Failure? then history[|history| - 1].at
    else LatestFailure(history[..|history| - 1])
  }

  /** A success, or an admitted call that finds five failures whose period has run out. */
  ghost predicate Resets(history: seq<Event>, e: Event)
    decreases |history|, 2
  {
    || e.Success?
    || (e.Allow? && FailuresSinceReset(history) >= THRESHOLD && e.at >= LatestFailure(history) + OPEN_PERIOD)
  }

  /** How many events lie up to and including the last reset. */
  ghost function LastReset(history: seq<Event>): (r: nat)
    ensures r <= |history|
    decreases |history|, 0
  {
    if history == [] then 0
    else
      var earlier := history[..|history| - 1];
      if Resets(earlier, history[|history| - 1]) then |history| else LastReset(earlier)
  }

  ghost function FailuresSinceReset(history: seq<Event>): nat
    decreases |history|, 1
  {
    CountFailures(history[LastReset(history)..])
  }

  lemma {:induction false} LatestFailureOnClock(history: seq<Event>)
    requires forall e :: e in history ==> e.OnClock()
    ensures LatestFailure(history) >= ZERO_TIME
  {
    if history != [] {
      LatestFailureOnClock(history[..|history| - 1]);
      assert history[|history| - 1] in history;
    }
  }

  /** The fields summarise the history: `failures` counts since the last reset, and the
      breaker is armed, for thirty seconds from the latest failure, iff there are five. */
  lemma {:induction false} StateMeansHistory(history: seq<Event>)
    requires forall e :: e in history ==> e.OnClock()
    ensures After(history).failures == FailuresSinceReset(history)
    ensures After(history).openUntil
         == if FailuresSinceReset(history) >= THRESHOLD then LatestFailure(history) + OPEN_PERIOD else ZERO_TIME
    ensures After(history).openUntil != ZERO_TIME <==> After(history).failures >= THRESHOLD
  {
    LatestFailureOnClock(history);
    if history != [] {
      var earlier, e := history[..|history| - 1], history[|history| - 1];
      assert e in history;
      LatestFailureOnClock(earlier);
      StateMeansHistory(earlier);
      var start := LastReset(earlier);
      if Resets(earlier, e) {
        assert history[|history|..] == [];
      } else {
        var since := history[start..];
        assert since[..|since| - 1] == earlier[start..];
      }
    }
  }

  /** `Allow` refuses iff at least five failures were recorded since the last reset and
      less than thirty seconds have passed since the latest one. */
  lemma RefusalMeansHistory(history: seq<Event>, at: int)
    requires at > ZERO_TIME && forall e :: e in history ==> e.OnClock()
    ensures Refuses(After(history), at)
       <==> FailuresSinceReset(history) >= THRESHOLD && at < LatestFailure(history) + OPEN_PERIOD
  {
    StateMeansHistory(history);
  }

  /** After the period has run out every later call is admitted until five new failures. */
  lemma {:induction false} HalfOpenAdmitsAll(history: seq<Event>, at: int, calls: seq<Event>, now: int)
    requires at > ZERO_TIME && now > ZERO_TIME
    requires forall e :: e in history + calls ==> e.OnClock()
    requires !Refuses(After(history), at)
    requires CountFailures(calls) + (if After(history).openUntil != ZERO_TIME then 0 else After(history).failures)
           < THRESHOLD
    ensures !Refuses(After(history + [Event.Allow(at)] + calls), now)
    ensures After(history + [Event.Allow(at)] + calls).failures
         <= CountFailures(calls) + (if After(history).openUntil != ZERO_TIME then 0 else After(history).failures)
  {
    var whole := history + [Event.Allow(at)] + calls;
    forall e | e in whole ensures e.OnClock() {
      assert e in history + calls || e == Event.Allow(at);
    }
    StateMeansHistory(whole);
    if calls == [] {
      assert whole[..|whole| - 1] == history;
      assert whole[|whole| - 1] == Event.Allow(at);
    } else {
      var fewer := calls[..|calls| - 1];
      assert forall e :: e in history + fewer ==> e in history + calls;
      HalfOpenAdmitsAll(history, at, fewer, now);
      assert whole[..|whole| - 1] == history + [Event.Allow(at)] + fewer;
    }
  }
}
