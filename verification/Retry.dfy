/**
 The retry loop around one logical API call. The loop counts attempts up and down again for
 its one free re-authentication; the specification beside it never mentions those counters:
 it says which round of the conversation is the first final one, and what it concludes.
 */
module Retry {
  import opened Common
  import opened Api
  import opened Breaker

  /** One data request, as far as the loop can see it. */
  datatype Exchange =
    | NotAdmitted                       // the limiter's context ended first
    | Malformed                         // the request could not be built
    | TransportFailure(retryable: bool)
    | Oversized(status: int)            // the body could not be read within its limit
    | Answer(status: int, retryAfter: int, decodes: bool)

  function Status(x: Exchange): int {
    match x
    case Oversized(status) => status
    case Answer(status, _, _) => status
    case _ => 0
  }

  /** The error of one request, including a success status whose body does not decode. */
  function Failing(x: Exchange): Option<ApiError> {
    match x
    case NotAdmitted => Some(ApiError("rate_limit_context", 0, false))
    case Malformed => Some(ApiError("request", 0, false))
    case TransportFailure(retryable) => Some(ApiError("transport", 0, retryable))
    case Oversized(status) => Some(ApiError("response_size", status, false))
    case Answer(status, _, decodes) =>
      if !Successful(status) then
        Some(ApiError(if status == 401 then "authentication" else "http", status, RetryableStatus(status)))
      else if !decodes then Some(ApiError("invalid_response", status, false))
      else None
  }

  function RetryAfter(x: Exchange): int {
    if x.Answer? && !Successful(x.status) then x.retryAfter else 0
  }

  /** What the world does in one round: the answer of the login cache, the request that is
      made if there is a token, and whether the context ends during the backoff wait. */
  datatype Round = Round(token: Reply<string>, exchange: Exchange, waitCancelled: bool)

  datatype Outcome = Done | Failed(error: ApiError) | Refused(reason: string)

  const CONTEXT := ApiError("context", 0, false)

  // ---------- the meaning of a conversation, round by round ----------

  predicate Unauthorized(r: Round) {
    r.token.Good? && Status(r.exchange) == 401
  }

  /** The first rejected token is thrown away and the round is repeated for free. */
  ghost predicate Free(rounds: nat -> Round, j: nat) {
    Unauthorized(rounds(j)) && forall i: nat :: i < j ==> !Unauthorized(rounds(i))
  }

  /** The attempt a round belongs to: rounds before it that were not free, plus one. */
  ghost function AttemptOf(rounds: nat -> Round, j: nat): nat {
    if j == 0 then 1 else AttemptOf(rounds, j - 1) + if Free(rounds, j - 1) then 0 else 1
  }

  function ErrorOf(r: Round): Option<ApiError> {
    if r.token.Bad? then Some(r.token.error) else Failing(r.exchange)
  }

  ghost predicate WantsWait(limit: nat, rounds: nat -> Round, j: nat) {
    && !Free(rounds, j)
    && ErrorOf(rounds(j)).Some? && ErrorOf(rounds(j)).value.retryable
    && AttemptOf(rounds, j) != limit
  }

  ghost predicate Final(limit: nat, rounds: nat -> Round, j: nat) {
    !Free(rounds, j) && (!WantsWait(limit, rounds, j) || rounds(j).waitCancelled)
  }

  ghost predicate FirstFinal(limit: nat, rounds: nat -> Round, j: nat) {
    Final(limit, rounds, j) && forall i: nat :: i < j ==> !Final(limit, rounds, i)
  }

  /** What the caller is told when round `j` is the final one. */
  ghost function Verdict(limit: nat, rounds: nat -> Round, j: nat): Outcome {
    if WantsWait(limit, rounds, j) then Failed(CONTEXT)
    else match ErrorOf(rounds(j)) case None => Done case Some(e) => Failed(e)
  }

  /** Data requests sent in the first `n` rounds. */
  ghost function Requests(rounds: nat -> Round, n: nat): nat {
    if n == 0 then 0 else Requests(rounds, n - 1) + if rounds(n - 1).token.Good? then 1 else 0
  }

  ghost function Invalidations(rounds: nat -> Round, n: nat): nat {
    if n == 0 then 0 else Invalidations(rounds, n - 1) + if Free(rounds, n - 1) then 1 else 0
  }

  /** The backoff waits of the first `n` rounds: the attempt number and what the server asked. */
  ghost function Waits(limit: nat, rounds: nat -> Round, n: nat): seq<(nat, int)> {
    if n == 0 then []
    else
      Waits(limit, rounds, n - 1)
      + if WantsWait(limit, rounds, n - 1) then [(AttemptOf(rounds, n - 1), Asked(rounds(n - 1)))] else []
  }

  function Asked(r: Round): int {
    if r.token.Bad? then 0 else RetryAfter(r.exchange)
  }

  // ---------- the loop ----------

  class Client {
    const maxAttempts: nat
    const breaker: CircuitBreaker

    constructor (maxAttempts: nat, breaker: CircuitBreaker)
      requires maxAttempts >= 1
      ensures this.maxAttempts == maxAttempts && this.breaker == breaker
    {
      this.maxAttempts := maxAttempts;
      this.breaker := breaker;
    }

    /** One logical call. `rounds` is any behaviour of the world; the other parameters are the
        readings taken before and after the loop. The out-parameters after the outcome are the
        number of rounds, the requests, the waits and the invalidations they contained. */
    method DoJSON(validPath: bool, slotGranted: bool, bodyEncodes: bool, startAt: int, failAt: int,
                  rounds: nat -> Round)
      returns (outcome: Outcome, used: nat, requests: nat, waits: seq<(nat, int)>, invalidations: nat)
      requires maxAttempts >= 1
      modifies breaker
      ensures requests == Requests(rounds, used) && invalidations == Invalidations(rounds, used)
      ensures waits == Waits(maxAttempts, rounds, used)
      ensures !validPath ==> used == 0 && outcome.Refused? && breaker.Current() == old(breaker.Current())
      ensures validPath ==>
                var admitted := Step(old(breaker.Current()), Allow(startAt));
                if Refuses(old(breaker.Current()), startAt) then
                  used == 0 && outcome == Failed(ApiError("circuit_open", 0, true)) && breaker.Current() == admitted
                else if !slotGranted then
                  used == 0 && outcome == Failed(CONTEXT) && breaker.Current() == admitted
                else if !bodyEncodes then
                  used == 0 && outcome.Refused? && breaker.Current() == admitted
                else
                  && used >= 1 && FirstFinal(maxAttempts, rounds, used - 1)
                  && outcome == Verdict(maxAttempts, rounds, used - 1)
                  && breaker.Current() == (match outcome
                       case Done => Step(admitted, Success)
                       case Failed(e) => if e.retryable then Step(admitted, Failure(failAt)) else admitted
                       case Refused(_) => admitted)
    {
      used, requests, waits, invalidations := 0, 0, [], 0;
      if !validPath {
        return Refused("logical API and safe relative path are required"), 0, 0, [], 0;
      }
      var allowed := breaker.Allow(startAt);
      if !allowed {
        return Failed(ApiError("circuit_open", 0, true)), 0, 0, [], 0;
      }
      if !slotGranted {
        return Failed(CONTEXT), 0, 0, [], 0;
      }
      if !bodyEncodes {
        return Refused("encode request"), 0, 0, [], 0;
      }

      ghost var admitted := breaker.Current();
      var last: Option<ApiError> := None;
      var reauthenticated := false;
      var attempt := 1;
      while attempt <= maxAttempts
        invariant 1 <= attempt <= maxAttempts
        invariant attempt == AttemptOf(rounds, used)
        invariant reauthenticated <==> exists i: nat :: i < used && Unauthorized(rounds(i))
        invariant forall i: nat :: i < used ==> !Final(maxAttempts, rounds, i)
        invariant requests == Requests(rounds, used) && invalidations == Invalidations(rounds, used)
        invariant waits == Waits(maxAttempts, rounds, used)
        invariant breaker.Current() == admitted
        decreases maxAttempts - attempt, !reauthenticated
      {
        ghost var here := used;
        var round := rounds(used);
        used := used + 1;
        var asked := 0;
        if round.token.Bad? {
          last := Some(round.token.error);
        } else {
          requests := requests + 1;
          if Status(round.exchange) == 401 && !reauthenticated {
            invalidations := invalidations + 1;
            reauthenticated := true;
            assert Free(rounds, here);
            continue;
          }
          last := Failing(round.exchange);
          asked := RetryAfter(round.exchange);
          if last.None? {
            breaker.Success();
            return Done, used, requests, waits, invalidations;
          }
        }
        assert !Free(rounds, here);
        if !last.value.retryable || attempt == maxAttempts {
          break;
        }
        waits := waits + [(attempt, asked)];
        if round.waitCancelled {
          last := Some(CONTEXT);
          break;
        }
        attempt := attempt + 1;
      }
      if last.value.retryable {
        breaker.Failure(failAt);
      }
      outcome := Failed(last.value);
    }
  }

  // ---------- the bounds of every call ----------

  lemma {:induction false} CountedRounds(limit: nat, rounds: nat -> Round, n: nat)
    ensures Invalidations(rounds, n) <= 1
    ensures Invalidations(rounds, n) == 1 <==> exists i: nat :: i < n && Unauthorized(rounds(i))
    ensures AttemptOf(rounds, n) == 1 + n - Invalidations(rounds, n)
    ensures Requests(rounds, n) <= n && Invalidations(rounds, n) <= Requests(rounds, n)
    ensures |Waits(limit, rounds, n)| <= n - Invalidations(rounds, n)
  {
    if n > 0 {
      CountedRounds(limit, rounds, n - 1);
    }
  }

  lemma {:induction false} AttemptsStayBelow(limit: nat, rounds: nat -> Round, n: nat)
    requires limit >= 1 && forall i: nat :: i < n ==> !Final(limit, rounds, i)
    ensures AttemptOf(rounds, n) <= limit
  {
    if n > 0 {
      AttemptsStayBelow(limit, rounds, n - 1);
      assert !Final(limit, rounds, n - 1);
    }
  }

  /** A call ends within MaxAttempts+1 rounds: at most that many data requests, at most
      MaxAttempts-1 backoff waits, at most one invalidated token. */
  lemma CallBounds(limit: nat, rounds: nat -> Round, used: nat)
    requires limit >= 1 && used >= 1 && FirstFinal(limit, rounds, used - 1)
    ensures used <= limit + 1 && Requests(rounds, used) <= limit + 1
    ensures Invalidations(rounds, used) <= 1
    ensures |Waits(limit, rounds, used)| <= limit - 1
    ensures Requests(rounds, used) == limit + 1 ==> Invalidations(rounds, used) == 1
  {
    AttemptsStayBelow(limit, rounds, used - 1);
    CountedRounds(limit, rounds, used - 1);
    CountedRounds(limit, rounds, used);
    if AttemptOf(rounds, used - 1) == limit {
      assert !WantsWait(limit, rounds, used - 1);
    }
  }

  /** The k-th wait of a call belongs to attempt k, so its delay is the k-th of the schedule. */
  lemma {:induction false} WaitsAreNumbered(limit: nat, rounds: nat -> Round, n: nat)
    requires forall i: nat :: i < n - 1 ==> !Final(limit, rounds, i)
    ensures forall k :: 0 <= k < |Waits(limit, rounds, n)| ==> Waits(limit, rounds, n)[k].0 == k + 1
    ensures (forall i: nat :: i < n ==> !Final(limit, rounds, i)) ==>
              |Waits(limit, rounds, n)| == AttemptOf(rounds, n) - 1
  {
    if n > 0 {
      WaitsAreNumbered(limit, rounds, n - 1);
      assert n >= 2 ==> !Final(limit, rounds, n - 2);
      assert Final(limit, rounds, n - 1) || Free(rounds, n - 1) || WantsWait(limit, rounds, n - 1);
    }
  }

  /** Every round before the final one was the free one, or failed in a retryable way and was followed
      by a wait that ran its course, in an attempt before the last. */
  lemma EarlierRoundsFailed(limit: nat, rounds: nat -> Round, j: nat, i: nat)
    requires limit >= 1 && FirstFinal(limit, rounds, j) && i < j
    ensures || Free(rounds, i)
            || (&& ErrorOf(rounds(i)).Some? && ErrorOf(rounds(i)).value.retryable && !rounds(i).waitCancelled
                && AttemptOf(rounds, i) < limit)
  {
    AttemptsStayBelow(limit, rounds, i);
    assert !Final(limit, rounds, i);
  }

  /** A success is reported exactly when the final round had a token, a 2xx status and a body that
      decodes; one wait was made for each failed attempt before it. */
  lemma SuccessIsReal(limit: nat, rounds: nat -> Round, j: nat)
    requires limit >= 1 && FirstFinal(limit, rounds, j)
    ensures Verdict(limit, rounds, j).Done?
       <==> rounds(j).token.Good? && rounds(j).exchange.Answer?
            && Successful(rounds(j).exchange.status) && rounds(j).exchange.decodes
    ensures !Verdict(limit, rounds, j).Refused?
    ensures Verdict(limit, rounds, j).Done? ==> |Waits(limit, rounds, j + 1)| == AttemptOf(rounds, j) - 1 < limit
  {
    WaitsAreNumbered(limit, rounds, j);
    AttemptsStayBelow(limit, rounds, j);
  }

  /** A retryable error reaches the caller, and counts against the breaker, exactly when all attempts
      are used up and the last one failed that way too: every round but the free one failed in
      a retryable way, there were as many of them as attempts, and a wait between any two. */
  lemma RetryableMeansExhausted(limit: nat, rounds: nat -> Round, j: nat)
    requires limit >= 1 && FirstFinal(limit, rounds, j)
    ensures var v := Verdict(limit, rounds, j);
            (v.Failed? && v.error.retryable
             <==> AttemptOf(rounds, j) == limit && ErrorOf(rounds(j)).Some? && ErrorOf(rounds(j)).value.retryable)
    ensures var v := Verdict(limit, rounds, j);
            v.Failed? && v.error.retryable ==>
              && j + 1 == limit + Invalidations(rounds, j + 1)
              && |Waits(limit, rounds, j + 1)| == limit - 1
              && forall i: nat :: i <= j ==>
                   Free(rounds, i) || (ErrorOf(rounds(i)).Some? && ErrorOf(rounds(i)).value.retryable)
  {
    CountedRounds(limit, rounds, j);
    WaitsAreNumbered(limit, rounds, j);
    forall i: nat | i < j
      ensures Free(rounds, i) || (ErrorOf(rounds(i)).Some? && ErrorOf(rounds(i)).value.retryable) {
      EarlierRoundsFailed(limit, rounds, j, i);
    }
  }

  // ---------- whole calls ----------

  /** An exchange that is worth repeating. */
  predicate Transient(x: Exchange) {
    || (x.TransportFailure? && x.retryable)
    || (x.Answer? && (x.status == 429 || x.status == 500 || x.status == 502 || x.status == 503 || x.status == 504))
  }

  predicate Fulfilled(x: Exchange) {
    x.Answer? && 200 <= x.status <= 299 && x.decodes
  }

  /** What went wrong may go right another time: the login, or else the request. */
  predicate Passing(r: Round) {
    if r.token.Bad? then r.token.error.retryable else Transient(r.exchange)
  }

  /** The first `n` rounds failed in a way that may pass, and were waited for. */
  ghost predicate InVain(rounds: nat -> Round, n: nat) {
    forall i: nat :: i < n ==> Passing(rounds(i)) && !rounds(i).waitCancelled
  }

  /** The wait that the server of a transient failure asks for. */
  function AskedBy(r: Round): int {
    if r.token.Good? && r.exchange.Answer? then r.exchange.retryAfter else 0
  }

  /** One wait was made for each of these rounds, with its number and the time its server asked for. */
  ghost predicate WaitedFor(waits: seq<(nat, int)>, rounds: nat -> Round, n: nat) {
    |waits| == n && forall k :: 0 <= k < n ==> waits[k] == (k + 1, AskedBy(rounds(k)))
  }

  /** One round, by what the loop makes of it: repeated, or the end in one way or the other. */
  lemma RoundMeans(r: Round)
    ensures Passing(r) <==> ErrorOf(r).Some? && ErrorOf(r).value.retryable
    ensures r.token.Good? ==> (Fulfilled(r.exchange) <==> ErrorOf(r).None?)
    ensures Passing(r) ==> Asked(r) == AskedBy(r) && !Unauthorized(r)
  {
  }

  lemma PassingWaits(limit: nat, rounds: nat -> Round, i: nat)
    requires Passing(rounds(i)) && !rounds(i).waitCancelled && AttemptOf(rounds, i) < limit
    ensures !Unauthorized(rounds(i)) && !Free(rounds, i) && WantsWait(limit, rounds, i) && !Final(limit, rounds, i)
  {
    RoundMeans(rounds(i));
  }

  lemma {:induction false} InVainSoFar(limit: nat, rounds: nat -> Round, n: nat)
    requires n < limit && InVain(rounds, n)
    ensures AttemptOf(rounds, n) == n + 1
    ensures forall i: nat :: i < n ==> !Final(limit, rounds, i)
    ensures WaitedFor(Waits(limit, rounds, n), rounds, n)
  {
    if n > 0 {
      assert Passing(rounds(n - 1));
      InVainSoFar(limit, rounds, n - 1);
      PassingWaits(limit, rounds, n - 1);
      RoundMeans(rounds(n - 1));
    }
  }

  /** What ends a call that has attempts left, after any number of failures that may pass: a success if it
      is one, otherwise the error at once. */
  lemma OtherExchangesEnd(limit: nat, rounds: nat -> Round, n: nat)
    requires n < limit && InVain(rounds, n) && !Passing(rounds(n))
    requires rounds(n).token.Bad? || Status(rounds(n).exchange) != 401
    ensures FirstFinal(limit, rounds, n)
    ensures Verdict(limit, rounds, n) == Conclusion(rounds(n))
    ensures WaitedFor(Waits(limit, rounds, n + 1), rounds, n)
  {
    InVainSoFar(limit, rounds, n);
    RoundMeans(rounds(n));
  }

  /** What the caller is told of the round that ends its call. */
  function Conclusion(r: Round): Outcome {
    if r.token.Bad? then Failed(r.token.error)
    else if Fulfilled(r.exchange) then Done
    else
      Failed(
        match r.exchange
        case NotAdmitted => ApiError("rate_limit_context", 0, false)
        case Malformed => ApiError("request", 0, false)
        case TransportFailure(retryable) => ApiError("transport", 0, retryable)
        case Oversized(status) => ApiError("response_size", status, false)
        case Answer(status, _, _) =>
          ApiError(if 200 <= status <= 299 then "invalid_response" else if status == 401 then "authentication"
                   else "http", status, Transient(r.exchange)))
  }

  /** The last of as many failures that may pass as there are attempts is reported, without a wait. */
  lemma LastFailureIsTold(limit: nat, rounds: nat -> Round, n: nat)
    requires n + 1 == limit && InVain(rounds, n) && Passing(rounds(n))
    ensures FirstFinal(limit, rounds, n) && WaitedFor(Waits(limit, rounds, n + 1), rounds, n)
    ensures Verdict(limit, rounds, n) == Conclusion(rounds(n))
  {
    InVainSoFar(limit, rounds, n);
    RoundMeans(rounds(n));
  }

  lemma FreeOnce(limit: nat, rounds: nat -> Round, n: nat)
    requires n < limit && InVain(rounds, n) && rounds(n).token.Good? && Status(rounds(n).exchange) == 401
    ensures Free(rounds, n) && !Free(rounds, n + 1)
    ensures AttemptOf(rounds, n + 1) == n + 1 && WaitedFor(Waits(limit, rounds, n + 1), rounds, n)
    ensures forall i: nat :: i <= n ==> !Final(limit, rounds, i)
  {
    InVainSoFar(limit, rounds, n);
    assert Unauthorized(rounds(n));
  }

  /** A token that is rejected with 401 for the first time costs neither a wait nor an attempt: the next round
      decides as this one would have. A second 401 is reported. */
  lemma RejectedTokenIsFree(limit: nat, rounds: nat -> Round, n: nat)
    requires n < limit && InVain(rounds, n) && rounds(n).token.Good? && Status(rounds(n).exchange) == 401
    requires !Passing(rounds(n + 1))
    ensures FirstFinal(limit, rounds, n + 1)
    ensures Verdict(limit, rounds, n + 1) == Conclusion(rounds(n + 1))
    ensures Invalidations(rounds, n + 2) == 1 && WaitedFor(Waits(limit, rounds, n + 2), rounds, n)
  {
    FreeOnce(limit, rounds, n);
    CountedRounds(limit, rounds, n + 2);
    RoundMeans(rounds(n + 1));
  }
}
