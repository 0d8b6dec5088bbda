/**
 Logical calls and the login cache together: any number of calls, each going through its rounds
 as the retry loop prescribes, take tokens and throw rejected ones away under the mutex that
 they share with logouts.
 */
module Calls {
  import opened Api
  import Auth
  import Retry

  /** Where a call is in its current round. */
  datatype Stage =
    | Asking      // for a token
    | Holding     // the answer of the login cache; the request is under way
    | Clearing    // the token was rejected for the first time
    | Over

  /** `rounds` is all that will happen to the call; `done` of them are behind it. */
  datatype Call = Call(rounds: nat -> Retry.Round, done: nat, stage: Stage)

  /** `cleared` is history: the calls that have thrown a token away. */
  datatype System = System(auth: Auth.State, calls: map<nat, Call>, cleared: set<nat>)

  datatype Action =
    | Open(caller: nat, rounds: nat -> Retry.Round)
    | Lock(step: Auth.Action)
    | Hear(caller: nat)

  function Initially(): System {
    System(Auth.INITIAL, map[], {})
  }

  /** What the login cache answers when this step ends a call of `Token`. */
  function Answer(s: Auth.State, a: Auth.Action): Reply<string> {
    match a
    case Acquire(_, _) => Bad(ApiError("rate_limit_context", 0, false))
    case Decide(_, admitted) => if s.token != "" then Good(s.token) else Bad(ApiError("rate_limit_context", 0, false))
    case Finish(_, reply) => LoginResult(reply)
  }

  /** The step lets its caller out of the mutex. */
  ghost predicate Leaves(s: Auth.State, a: Auth.Action)
    requires Auth.Enabled(s, a)
  {
    Auth.At(Auth.Do(s, a), a.caller).Outside?
  }

  /** Callers of the cache: calls that need a token or reject one, and others that log out. */
  ghost predicate MayLock(s: System, a: Auth.Action) {
    && Auth.Enabled(s.auth, a)
    && (a.Acquire? ==>
          match a.op
          case TakeToken => a.caller in s.calls && s.calls[a.caller].stage.Asking?
          case Invalidating => a.caller in s.calls && s.calls[a.caller].stage.Clearing?
          case LogOut => a.caller !in s.calls)
    && (a.caller in s.calls && s.calls[a.caller].stage.Asking? && Leaves(s.auth, a) ==>
          s.calls[a.caller].rounds(s.calls[a.caller].done).token == Answer(s.auth, a))
  }

  ghost predicate CanStep(limit: nat, s: System, a: Action) {
    match a
    case Open(c, _) => c !in s.calls && Auth.At(s.auth, c).Outside?
    case Lock(step) => MayLock(s, step)
    case Hear(c) => c in s.calls && s.calls[c].stage.Holding?
  }

  /** A call after it has been let out of the mutex. */
  function Released(call: Call): Call {
    if call.stage.Asking? then call.(stage := Holding)
    else if call.stage.Clearing? then call.(done := call.done + 1, stage := Asking)
    else call
  }

  /** A call after its round: a first rejection is cleared, a final round ends it, any other goes on. */
  ghost function Heard(limit: nat, call: Call): Call {
    if Retry.Free(call.rounds, call.done) then call.(stage := Clearing)
    else if Retry.Final(limit, call.rounds, call.done) then call.(stage := Over)
    else call.(done := call.done + 1, stage := Asking)
  }

  ghost function Do(limit: nat, s: System, a: Action): System
    requires CanStep(limit, s, a)
  {
    match a
    case Open(c, rounds) => s.(calls := s.calls[c := Call(rounds, 0, Asking)])
    case Lock(step) =>
      var auth := Auth.Do(s.auth, step);
      if step.caller in s.calls && Leaves(s.auth, step) then
        System(auth, s.calls[step.caller := Released(s.calls[step.caller])],
               if s.calls[step.caller].stage.Clearing? then s.cleared + {step.caller} else s.cleared)
      else s.(auth := auth)
    case Hear(c) => s.(calls := s.calls[c := Heard(limit, s.calls[c])])
  }

  ghost predicate LegalRun(limit: nat, run: seq<Action>) {
    run == [] || (LegalRun(limit, run[..|run| - 1]) && CanStep(limit, After(limit, run[..|run| - 1]), run[|run| - 1]))
  }

  ghost function After(limit: nat, run: seq<Action>): System {
    if run == [] then Initially()
    else
      var s := After(limit, run[..|run| - 1]);
      if CanStep(limit, s, run[|run| - 1]) then Do(limit, s, run[|run| - 1]) else s
  }

  // ---------- invariants ----------

  /** What a caller is doing in the mutex is what its stage says. */
  ghost predicate InStage(s: System, c: nat) {
    match Auth.At(s.auth, c)
    case Outside => true
    case Inside(op) =>
      (match op
       case TakeToken => c in s.calls && s.calls[c].stage.Asking?
       case Invalidating => c in s.calls && s.calls[c].stage.Clearing?
       case LogOut => c !in s.calls)
    case LoggingIn => c in s.calls && s.calls[c].stage.Asking?
    case LoggingOut => c !in s.calls
  }

  /** A call has thrown a token away iff one of its rounds was rejected, and it clears only the first. */
  ghost predicate Counted(s: System, c: nat) {
    c in s.calls ==>
      && (c in s.cleared <==> exists i: nat :: i < s.calls[c].done && Retry.Unauthorized(s.calls[c].rounds(i)))
      && (s.calls[c].stage.Clearing? ==> Retry.Free(s.calls[c].rounds, s.calls[c].done))
  }

  ghost predicate Invariant(s: System) {
    && Auth.Exclusive(s.auth) && Auth.Balanced(s.auth)
    && s.cleared <= s.calls.Keys && s.auth.invalidations == |s.cleared|
    && (forall c: nat :: InStage(s, c)) && (forall c: nat :: Counted(s, c))
  }

  lemma MutexKeepsOthers(s: Auth.State, a: Auth.Action, c: nat)
    requires Auth.Enabled(s, a) && c != a.caller
    ensures Auth.At(Auth.Do(s, a), c) == Auth.At(s, c)
  {
  }

  lemma LockKeeps(limit: nat, s: System, step: Auth.Action)
    requires Invariant(s) && CanStep(limit, s, Lock(step))
    ensures Invariant(Do(limit, s, Lock(step)))
  {
    var t := Do(limit, s, Lock(step));
    Auth.StepKeepsExclusive(s.auth, step);
    Auth.StepKeepsBalance(s.auth, step);
    assert InStage(s, step.caller) && Counted(s, step.caller);
    forall c: nat ensures InStage(t, c) {
      assert InStage(s, c);
      if c != step.caller { MutexKeepsOthers(s.auth, step, c); }
    }
    forall c: nat ensures Counted(t, c) {
      assert Counted(s, c);
    }
  }

  lemma HearKeeps(limit: nat, s: System, c: nat)
    requires Invariant(s) && CanStep(limit, s, Hear(c))
    ensures Invariant(Do(limit, s, Hear(c)))
  {
    var t := Do(limit, s, Hear(c));
    assert InStage(s, c) && Counted(s, c);
    forall d: nat ensures InStage(t, d) && Counted(t, d) {
      assert InStage(s, d) && Counted(s, d);
    }
  }

  lemma OpenKeeps(limit: nat, s: System, c: nat, rounds: nat -> Retry.Round)
    requires Invariant(s) && CanStep(limit, s, Open(c, rounds))
    ensures Invariant(Do(limit, s, Open(c, rounds)))
  {
    var t := Do(limit, s, Open(c, rounds));
    forall d: nat ensures InStage(t, d) && Counted(t, d) {
      assert InStage(s, d) && Counted(s, d);
    }
  }

  lemma {:induction false} InvariantInRuns(limit: nat, run: seq<Action>)
    requires LegalRun(limit, run)
    ensures Invariant(After(limit, run))
  {
    if run != [] {
      var earlier, a := run[..|run| - 1], run[|run| - 1];
      InvariantInRuns(limit, earlier);
      match a
      case Open(c, rounds) => OpenKeeps(limit, After(limit, earlier), c, rounds);
      case Lock(step) => LockKeeps(limit, After(limit, earlier), step);
      case Hear(c) => HearKeeps(limit, After(limit, earlier), c);
    }
  }

  lemma Smaller(a: set<nat>, b: set<nat>)
    requires a <= b
    ensures |a| <= |b|
  {
    assert b == a + (b - a);
  }

  /** Over every interleaving of calls and logouts, successful logins are at most one more than the
      calls and the logouts together. */
  lemma LoginsPerCall(limit: nat, run: seq<Action>)
    requires LegalRun(limit, run)
    ensures var s := After(limit, run); s.auth.logins <= 1 + |s.calls| + s.auth.logouts
  {
    InvariantInRuns(limit, run);
    var s := After(limit, run);
    Smaller(s.cleared, s.calls.Keys);
    assert |s.calls.Keys| == |s.calls|;
  }
}
