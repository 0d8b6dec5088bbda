/**
 The login cache: one token behind a mutex that is held across the login and logout
 exchanges. The class is the sequential behaviour of each call; the state machine below
 interleaves any number of callers at the points where the mutex lets them.
 */
module Auth {
  import opened Common
  import opened Api

  /** What `Token` answers and leaves in the cache, given how the limiter and the server behave. */
  function TokenResult(token: string, admitted: bool, reply: LoginReply): Reply<string> {
    if token != "" then Good(token)
    else if !admitted then Bad(ApiError("rate_limit_context", 0, false))
    else LoginResult(reply)
  }

  function TokenAfter(token: string, admitted: bool, reply: LoginReply): string {
    var r := TokenResult(token, admitted, reply);
    if r.Good? then r.value else token
  }

  /** The token after `Logout`: gone unless the exchange never took place. */
  function LogoutAfter(token: string, admitted: bool, reply: LoginReply): string {
    if token != "" && (!admitted || reply.Unbuilt?) then token else ""
  }

  /** What `Logout` answers. */
  function LogoutError(token: string, admitted: bool, reply: LoginReply): Option<ApiError> {
    if token == "" then None
    else if !admitted then Some(ApiError("rate_limit_context", 0, false))
    else
      match reply
      case Unbuilt => Some(ApiError("request", 0, false))
      case Unreachable(retryable) => Some(ApiError("transport", 0, retryable))
      case Answer(status, _, _) => if Successful(status) then None else Some(ApiError("http", status, false))
  }

  ghost predicate Cached(token: string) {
    token == "" || Sendable(token)
  }

  class AuthManager {
    var token: string

    ghost predicate Valid()
      reads this
    {
      Cached(token)
    }

    constructor ()
      ensures Valid() && token == ""
    {
      token := "";
    }

    method Token(admitted: bool, reply: LoginReply) returns (r: Reply<string>)
      requires Valid()
      modifies this
      ensures Valid()
      ensures r == TokenResult(old(token), admitted, reply)
      ensures token == TokenAfter(old(token), admitted, reply)
      ensures r.Good? <==>
                || old(token) != ""
                || (admitted && reply.Answer? && 200 <= reply.status <= 299 && Sendable(TokenOf(reply)))
      ensures old(token) != "" ==> r == Good(old(token))
      ensures r.Good? <==> token != ""
      ensures r.Good? ==> r.value == token
    {
      if token != "" {
        return Good(token);
      }
      if !admitted {
        return Bad(ApiError("rate_limit_context", 0, false));
      }
      r := LoginResult(reply);
      if r.Good? {
        token := r.value;
      }
    }

    method Invalidate()
      modifies this
      ensures Valid() && token == ""
    {
      token := "";
    }

    method Logout(admitted: bool, reply: LoginReply) returns (error: Option<ApiError>)
      requires Valid()
      modifies this
      ensures Valid() && token == LogoutAfter(old(token), admitted, reply)
      ensures error == LogoutError(old(token), admitted, reply)
      ensures error.None? <==> old(token) == "" || (admitted && reply.Answer? && 200 <= reply.status <= 299)
      ensures token != "" <==> old(token) != "" && (!admitted || reply.Unbuilt?)
      ensures token == "" || token == old(token)
    {
      if token == "" {
        return None;
      }
      if !admitted {
        return Some(ApiError("rate_limit_context", 0, false));
      }
      if reply.Unbuilt? {
        return Some(ApiError("request", 0, false));
      }
      token := "";
      if reply.Unreachable? {
        return Some(ApiError("transport", 0, reply.retryable));
      }
      if !Successful(reply.status) {
        return Some(ApiError("http", reply.status, false));
      }
      error := None;
    }
  }

  // ---------- every interleaving of callers ----------

  datatype Operation = TakeToken | Invalidating | LogOut

  /** A caller outside the mutex, inside it before any exchange, or inside it during one. */
  datatype Place = Outside | Inside(op: Operation) | LoggingIn | LoggingOut

  datatype State = State(
    locked: bool, token: string, places: map<nat, Place>,
    logins: nat, invalidations: nat, logouts: nat,
    clearings: nat) // times a stored token was thrown away

  const INITIAL := State(false, "", map[], 0, 0, 0, 0)

  datatype Action =
    | Acquire(caller: nat, op: Operation)
    | Decide(caller: nat, admitted: bool)
    | Finish(caller: nat, reply: LoginReply)

  function At(s: State, caller: nat): Place {
    if caller in s.places then s.places[caller] else Outside
  }

  predicate Enabled(s: State, a: Action) {
    match a
    case Acquire(c, _) => !s.locked && At(s, c).Outside?
    case Decide(c, _) => At(s, c).Inside?
    case Finish(c, _) => At(s, c).LoggingIn? || At(s, c).LoggingOut?
  }

  function Move(s: State, caller: nat, place: Place): State {
    s.(places := s.places[caller := place])
  }

  function Release(s: State, caller: nat): State {
    Move(s, caller, Outside).(locked := false)
  }

  function Clear(s: State): State {
    s.(token := "", clearings := s.clearings + if s.token == "" then 0 else 1)
  }

  function Do(s: State, a: Action): State
    requires Enabled(s, a)
  {
    match a
    case Acquire(c, op) => Move(s, c, Inside(op)).(locked := true)
    case Decide(c, admitted) =>
      (match At(s, c).op
       case TakeToken =>
         if s.token != "" || !admitted then Release(s, c) else Move(s, c, LoggingIn)
       case Invalidating =>
         Release(Clear(s).(invalidations := s.invalidations + 1), c)
       case LogOut =>
         if s.token == "" || !admitted then Release(s, c) else Move(s, c, LoggingOut))
    case Finish(c, reply) =>
      if At(s, c).LoggingIn? then
        var r := LoginResult(reply);
        if r.Good? then Release(s.(token := r.value, logins := s.logins + 1), c) else Release(s, c)
      else
        if reply.Unbuilt? then Release(s, c) else Release(Clear(s).(logouts := s.logouts + 1), c)
  }

  ghost predicate LegalRun(run: seq<Action>) {
    run == [] || (LegalRun(run[..|run| - 1]) && Enabled(After(run[..|run| - 1]), run[|run| - 1]))
  }

  ghost function After(run: seq<Action>): State {
    if run == [] then INITIAL
    else
      var s := After(run[..|run| - 1]);
      if Enabled(s, run[|run| - 1]) then Do(s, run[|run| - 1]) else s
  }

  /** At most one caller is past the lock, and only while it is held; a login is under way
      only if nothing is cached. */
  ghost predicate Exclusive(s: State) {
    && (forall c, d :: At(s, c) != Outside && At(s, d) != Outside ==> c == d)
    && (forall c :: At(s, c) != Outside ==> s.locked)
    && (forall c :: At(s, c).LoggingIn? ==> s.token == "")
  }

  /** Successful logins are the tokens thrown away plus the one held. */
  ghost predicate Balanced(s: State) {
    && Cached(s.token)
    && s.logins == s.clearings + (if s.token == "" then 0 else 1)
    && s.clearings <= s.invalidations + s.logouts
  }

  lemma StepKeepsExclusive(s: State, a: Action)
    requires Exclusive(s) && Enabled(s, a)
    ensures Exclusive(Do(s, a))
  {
    var t := Do(s, a);
    forall c ensures c != a.caller ==> At(t, c) == At(s, c) {}
    assert forall c :: c != a.caller && At(s, a.caller) != Outside ==> At(s, c) == Outside;
  }

  lemma StepKeepsBalance(s: State, a: Action)
    requires Exclusive(s) && Balanced(s) && Enabled(s, a)
    ensures Balanced(Do(s, a))
  {
    assert At(s, a.caller).LoggingIn? ==> s.token == "";
  }

  /** In every run: at most one caller is inside the mutex (so no two logins are ever in
      flight), and every successful login is paid for by a cleared token or is the one held. */
  lemma {:induction false} LoginsArePaidFor(run: seq<Action>)
    requires LegalRun(run)
    ensures var s := After(run);
            && Exclusive(s)
            && Cached(s.token)
            && s.logins == s.clearings + (if s.token == "" then 0 else 1)
            && s.clearings <= s.invalidations + s.logouts
            && s.logins <= 1 + s.invalidations + s.logouts
  {
    if run != [] {
      var earlier := run[..|run| - 1];
      LoginsArePaidFor(earlier);
      StepKeepsExclusive(After(earlier), run[|run| - 1]);
      StepKeepsBalance(After(earlier), run[|run| - 1]);
    }
  }

  lemma NeverTwoLogins(run: seq<Action>, c: nat, d: nat)
    requires LegalRun(run)
    requires At(After(run), c).LoggingIn? && At(After(run), d).LoggingIn?
    ensures c == d
  {
    LoginsArePaidFor(run);
  }

  /** A call that runs through the machine undisturbed does what the class does. */
  lemma CallsRefineClass(s: State, c: nat, admitted: bool, reply: LoginReply)
    requires !s.locked && At(s, c).Outside? && Cached(s.token)
    ensures
      var inside := Do(s, Acquire(c, TakeToken));
      var decided := Do(inside, Decide(c, admitted));
      var done := if At(decided, c).LoggingIn? then Do(decided, Finish(c, reply)) else decided;
      done.token == TokenAfter(s.token, admitted, reply) && !done.locked
    ensures
      var inside := Do(s, Acquire(c, LogOut));
      var decided := Do(inside, Decide(c, admitted));
      var done := if At(decided, c).LoggingOut? then Do(decided, Finish(c, reply)) else decided;
      done.token == LogoutAfter(s.token, admitted, reply) && !done.locked
  {
  }
}
