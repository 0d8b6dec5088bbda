/**
 The cancelling worker pool that enriches buckets with their quotas: one sender, an
 unbuffered job channel, a one-slot error channel and a context that the first failing
 worker cancels. Every step of every goroutine is one action; runs interleave them freely.
 API calls may take any time and may succeed or fail.
 */
module WorkerPool {

  datatype Worker =
    | Ready               // receiving from the job channel
    | Busy(index: nat)    // inside the quota call for that bucket
    | Failed              // the call failed; about to offer its error
    | Cancelling          // its error was taken; about to cancel the context
    | Exited

  datatype Sender =
    | Sending
    | Closing
    | Waiting
    | ReturnedError
    | Billing

  /** What has happened to one bucket. */
  datatype Job = Unsent | Held(worker: nat) | Enriched | Broken

  datatype State = State(
    workers: seq<Worker>, sender: Sender, next: nat, jobs: seq<Job>, writes: seq<nat>,
    error: bool, cancelled: bool, parentCancelled: bool)

  datatype Action =
    | HandOff(w: nat)
    | StopSending
    | RangeDone
    | Close
    | QuotaOk(w: nat)
    | QuotaFails(w: nat)
    | Report(w: nat)
    | Cancel(w: nat)
    | SeeClosed(w: nat)
    | CancelParent
    | Join

  function Initial(workers: nat, buckets: nat): State {
    State(seq(workers, _ => Ready), Sending, 0, seq(buckets, _ => Unsent), seq(buckets, _ => 0), false, false, false)
  }

  predicate Closed(s: State) {
    !s.sender.Sending? && !s.sender.Closing?
  }

  predicate Done(s: State) {
    s.sender.ReturnedError? || s.sender.Billing?
  }

  predicate Is(s: State, w: nat, p: Worker) {
    w < |s.workers| && s.workers[w] == p
  }

  predicate IsBusy(s: State, w: nat) {
    w < |s.workers| && s.workers[w].Busy? && s.workers[w].index < |s.jobs| == |s.writes|
  }

  predicate Enabled(s: State, a: Action) {
    match a
    case HandOff(w) => s.sender.Sending? && s.next < |s.jobs| && Is(s, w, Ready)
    case StopSending => s.sender.Sending? && s.next < |s.jobs| && s.cancelled
    case RangeDone => s.sender.Sending? && s.next == |s.jobs|
    case Close => s.sender.Closing?
    case QuotaOk(w) => IsBusy(s, w)
    case QuotaFails(w) => IsBusy(s, w)
    case Report(w) => Is(s, w, Failed)
    case Cancel(w) => Is(s, w, Cancelling)
    case SeeClosed(w) => Is(s, w, Ready) && Closed(s)
    case CancelParent => !s.parentCancelled
    case Join => s.sender.Waiting? && forall w :: 0 <= w < |s.workers| ==> s.workers[w].Exited?
  }

  function Do(s: State, a: Action): State
    requires Enabled(s, a)
  {
    match a
    case HandOff(w) =>
      s.(workers := s.workers[w := Busy(s.next)], jobs := s.jobs[s.next := Held(w)], next := s.next + 1)
    case StopSending => s.(sender := Closing)
    case RangeDone => s.(sender := Closing)
    case Close => s.(sender := Waiting)
    case QuotaOk(w) =>
      var i := s.workers[w].index;
      s.(workers := s.workers[w := Ready], jobs := s.jobs[i := Enriched], writes := s.writes[i := s.writes[i] + 1])
    case QuotaFails(w) =>
      s.(workers := s.workers[w := Failed], jobs := s.jobs[s.workers[w].index := Broken])
    case Report(w) =>
      if s.error then s.(workers := s.workers[w := Exited])
      else s.(workers := s.workers[w := Cancelling], error := true)
    case Cancel(w) => s.(workers := s.workers[w := Exited], cancelled := true)
    case SeeClosed(w) => s.(workers := s.workers[w := Exited])
    case CancelParent => s.(parentCancelled := true, cancelled := true)
    case Join => s.(sender := if s.error then ReturnedError else Billing)
  }

  // ---------- invariants ----------

  /** Each bucket is unsent, in the hands of exactly the worker that is busy with it, or
      finished; only a successful call writes, and it writes once. */
  ghost predicate Ownership(s: State) {
    && |s.jobs| == |s.writes| && s.next <= |s.jobs|
    && (forall i :: 0 <= i < |s.jobs| ==> (s.jobs[i].Unsent? <==> s.next <= i))
    && (forall i :: 0 <= i < |s.jobs| && s.jobs[i].Held? ==> Is(s, s.jobs[i].worker, Busy(i)))
    && (forall w :: 0 <= w < |s.workers| && s.workers[w].Busy? ==>
          s.workers[w].index < |s.jobs| && s.jobs[s.workers[w].index] == Held(w))
    && (forall i :: 0 <= i < |s.jobs| ==> s.writes[i] == if s.jobs[i].Enriched? then 1 else 0)
  }

  ghost predicate Some(s: State, p: Worker) {
    p in multiset(s.workers)
  }

  /** How errors, cancellation and the end of the loop depend on each other. */
  ghost predicate Signals(s: State) {
    && (Broken in multiset(s.jobs) <==> s.error || Some(s, Failed))
    && (s.error ==> s.cancelled || Some(s, Cancelling))
    && (Some(s, Cancelling) ==> s.error)
    && (s.cancelled ==> s.error || s.parentCancelled)
    && (Some(s, Exited) ==> s.error || Closed(s))
    && (!s.sender.Sending? ==> s.next == |s.jobs| || s.cancelled)
    && (Done(s) ==> forall w :: 0 <= w < |s.workers| ==> s.workers[w].Exited?)
    && (s.sender.ReturnedError? ==> s.error)
    && (s.sender.Billing? ==> !s.error)
  }

  ghost predicate Invariant(s: State) {
    |s.workers| >= 1 && Ownership(s) && Signals(s)
  }

  lemma InitialHolds(workers: nat, buckets: nat)
    requires workers >= 1
    ensures Invariant(Initial(workers, buckets))
  {
    var s := Initial(workers, buckets);
    assert forall p :: p in multiset(s.workers) ==> p in s.workers;
    assert forall j :: j in multiset(s.jobs) ==> j in s.jobs;
  }

  lemma HandOffKeepsOwnership(s: State, w: nat)
    requires Ownership(s) && Enabled(s, HandOff(w))
    ensures Ownership(Do(s, HandOff(w)))
  {
    assert s.jobs[s.next].Unsent?;
  }

  lemma QuotaKeepsOwnership(s: State, a: Action, w: nat)
    requires Ownership(s) && Enabled(s, a) && (a == QuotaOk(w) || a == QuotaFails(w))
    ensures Ownership(Do(s, a))
  {
    assert s.jobs[s.workers[w].index] == Held(w);
  }

  lemma StepKeepsOwnership(s: State, a: Action)
    requires Ownership(s) && Enabled(s, a)
    ensures Ownership(Do(s, a))
  {
    match a {
      case HandOff(w) => HandOffKeepsOwnership(s, w);
      case QuotaOk(w) => QuotaKeepsOwnership(s, a, w);
      case QuotaFails(w) => QuotaKeepsOwnership(s, a, w);
      case _ => assert Do(s, a).jobs == s.jobs && Do(s, a).writes == s.writes;
    }
  }

  lemma StepKeepsSignals(s: State, a: Action)
    requires Invariant(s) && Enabled(s, a)
    ensures Signals(Do(s, a))
  {
    match a {
      case HandOff(w) => WorkerTakes(s, w);
      case QuotaOk(w) => WorkerFinishes(s, a, w);
      case QuotaFails(w) => WorkerFinishes(s, a, w);
      case Report(w) => WorkerSignals(s, a, w);
      case Cancel(w) => WorkerSignals(s, a, w);
      case SeeClosed(w) => WorkerSignals(s, a, w);
      case Join =>
        assert Some(s, Cancelling) <==> Cancelling in s.workers;
        assert Some(s, Failed) <==> Failed in s.workers;
      case _ =>
    }
  }

  /** A worker takes the next bucket. */
  lemma WorkerTakes(s: State, w: nat)
    requires Signals(s) && Ownership(s) && Enabled(s, HandOff(w))
    ensures Signals(Do(s, HandOff(w)))
  {
    var t := Do(s, HandOff(w));
    assert multiset(t.workers) == multiset(s.workers) - multiset{Ready} + multiset{Busy(s.next)};
    assert multiset(t.jobs) == multiset(s.jobs) - multiset{Unsent} + multiset{Held(w)};
  }

  /** A worker finishes its bucket. */
  lemma WorkerFinishes(s: State, a: Action, w: nat)
    requires Signals(s) && Ownership(s) && Enabled(s, a) && (a == QuotaOk(w) || a == QuotaFails(w))
    ensures Signals(Do(s, a))
  {
    var t, i := Do(s, a), s.workers[w].index;
    assert s.jobs[i] == Held(w);
    assert multiset(t.workers) == multiset(s.workers) - multiset{Busy(i)} + multiset{t.workers[w]};
    assert multiset(t.jobs) == multiset(s.jobs) - multiset{Held(w)} + multiset{t.jobs[i]};
    assert s.workers[w] in multiset(s.workers);
  }

  /** A worker reports, cancels or leaves. */
  lemma WorkerSignals(s: State, a: Action, w: nat)
    requires Signals(s) && Enabled(s, a) && w < |s.workers|
    requires a == Report(w) || a == Cancel(w) || a == SeeClosed(w)
    ensures Signals(Do(s, a))
  {
    var t := Do(s, a);
    assert multiset(t.workers) == multiset(s.workers) - multiset{s.workers[w]} + multiset{t.workers[w]};
    assert s.workers[w] in multiset(s.workers);
  }

  // ---------- runs ----------

  ghost predicate LegalRun(start: State, run: seq<Action>) {
    run == [] || (LegalRun(start, run[..|run| - 1]) && Enabled(After(start, run[..|run| - 1]), run[|run| - 1]))
  }

  ghost function After(start: State, run: seq<Action>): State {
    if run == [] then start
    else
      var s := After(start, run[..|run| - 1]);
      if Enabled(s, run[|run| - 1]) then Do(s, run[|run| - 1]) else s
  }

  lemma StepKeepsInvariant(s: State, a: Action)
    requires Invariant(s) && Enabled(s, a)
    ensures Invariant(Do(s, a)) && |Do(s, a).jobs| == |s.jobs| && |Do(s, a).workers| == |s.workers|
  {
    StepKeepsOwnership(s, a);
    StepKeepsSignals(s, a);
  }

  lemma {:induction false} ReachableInvariant(workers: nat, buckets: nat, run: seq<Action>)
    requires workers >= 1 && LegalRun(Initial(workers, buckets), run)
    ensures var s := After(Initial(workers, buckets), run);
            Invariant(s) && |s.jobs| == buckets && |s.workers| == workers
  {
    if run == [] {
      InitialHolds(workers, buckets);
    } else {
      var earlier := run[..|run| - 1];
      ReachableInvariant(workers, buckets, earlier);
      StepKeepsInvariant(After(Initial(workers, buckets), earlier), run[|run| - 1]);
    }
  }

  /** No two workers ever hold the same bucket. */
  lemma ExclusiveBuckets(workers: nat, buckets: nat, run: seq<Action>, v: nat, w: nat)
    requires workers >= 1 && LegalRun(Initial(workers, buckets), run)
    requires var s := After(Initial(workers, buckets), run);
             v < |s.workers| && w < |s.workers| && s.workers[v].Busy? && s.workers[w].Busy?
             && s.workers[v].index == s.workers[w].index
    ensures v == w
  {
    ReachableInvariant(workers, buckets, run);
  }

  /** If any quota call failed the result is an error; if the billing step is reached none
      did, every bucket sent was enriched exactly once and no other was touched, and all were
      sent unless the parent context was cancelled. */
  lemma Outcome(workers: nat, buckets: nat, run: seq<Action>)
    requires workers >= 1 && LegalRun(Initial(workers, buckets), run)
    ensures var s := After(Initial(workers, buckets), run);
            && |s.jobs| == |s.writes| == buckets
            && (Done(s) ==> (s.sender.ReturnedError? <==> Broken in s.jobs))
            && (s.sender.Billing? ==> forall i :: 0 <= i < buckets ==> s.writes[i] == if i < s.next then 1 else 0)
            && (s.sender.Billing? ==> s.next == buckets || s.parentCancelled)
            && (s.sender.Billing? && !s.parentCancelled ==> forall i :: 0 <= i < buckets ==> s.writes[i] == 1)
            && (s.sender.Billing? ==> (s.next == buckets <==> forall i :: 0 <= i < buckets ==> s.jobs[i].Enriched?))
  {
    ReachableInvariant(workers, buckets, run);
    var s := After(Initial(workers, buckets), run);
    if Done(s) { ErrorMeansBroken(s); }
    if s.sender.Billing? { BillingMeansEnriched(s); }
  }

  lemma ErrorMeansBroken(s: State)
    requires Invariant(s) && Done(s)
    ensures s.sender.ReturnedError? <==> Broken in s.jobs
  {
    assert Broken in s.jobs <==> Broken in multiset(s.jobs);
    assert Some(s, Failed) <==> Failed in s.workers;
  }

  /** In the billing step the buckets that were sent are enriched, and no others. */
  lemma BillingMeansEnriched(s: State)
    requires Invariant(s) && s.sender.Billing?
    ensures s.next == |s.jobs| || s.parentCancelled
    ensures forall i :: 0 <= i < |s.jobs| ==> (s.jobs[i].Enriched? <==> i < s.next)
    ensures s.next == |s.jobs| <==> forall i :: 0 <= i < |s.jobs| ==> s.jobs[i].Enriched?
  {
    ErrorMeansBroken(s);
    forall i | 0 <= i < |s.jobs| ensures s.jobs[i].Enriched? <==> i < s.next {
      assert s.jobs[i] in s.jobs;
    }
    if s.next < |s.jobs| { assert s.jobs[s.next].Unsent?; }
  }

  // ---------- no deadlock, no endless run ----------

  /** In every reachable unfinished state somebody can move, without the parent's help. */
  lemma NeverStuck(workers: nat, buckets: nat, run: seq<Action>) returns (a: Action)
    requires workers >= 1 && LegalRun(Initial(workers, buckets), run)
    requires !Done(After(Initial(workers, buckets), run))
    ensures Enabled(After(Initial(workers, buckets), run), a) && !a.CancelParent?
  {
    ReachableInvariant(workers, buckets, run);
    a := Movable(After(Initial(workers, buckets), run));
  }

  lemma Movable(s: State) returns (a: Action)
    requires Invariant(s) && !Done(s)
    ensures Enabled(s, a) && !a.CancelParent?
  {
    if w: nat :| w < |s.workers| && s.workers[w].Busy? {
      return QuotaOk(w);
    } else if w: nat :| w < |s.workers| && s.workers[w].Failed? {
      return Report(w);
    } else if w: nat :| w < |s.workers| && s.workers[w].Cancelling? {
      return Cancel(w);
    } else if s.sender.Closing? {
      return Close;
    } else if s.sender.Sending? && s.next == |s.jobs| {
      return RangeDone;
    } else if w: nat :| w < |s.workers| && s.workers[w].Ready? {
      return if s.sender.Sending? then HandOff(w) else SeeClosed(w);
    } else if s.sender.Sending? {
      assert s.workers[0] == Exited && s.workers[0] in multiset(s.workers);
      assert Some(s, Cancelling) <==> Cancelling in s.workers;
      return StopSending;
    } else {
      return Join;
    }
  }

  function Weight(w: Worker): nat {
    match w case Ready => 1 case Busy(_) => 3 case Failed => 2 case Cancelling => 1 case Exited => 0
  }

  function Total(workers: seq<Worker>): nat {
    if workers == [] then 0 else Weight(workers[0]) + Total(workers[1..])
  }

  lemma {:induction false} TotalUpdate(workers: seq<Worker>, w: nat, p: Worker)
    requires w < |workers|
    ensures Total(workers[w := p]) + Weight(workers[w]) == Total(workers) + Weight(p)
  {
    if w > 0 {
      TotalUpdate(workers[1..], w - 1, p);
      assert workers[w := p][1..] == workers[1..][w - 1 := p];
    }
  }

  lemma {:induction false} TotalReady(workers: seq<Worker>)
    requires forall w :: 0 <= w < |workers| ==> workers[w].Ready?
    ensures Total(workers) == |workers|
  {
    if workers != [] { TotalReady(workers[1..]); }
  }

  /** Steps still possible, at most. */
  function Remaining(s: State): int {
    Total(s.workers) + 3 * (|s.jobs| - s.next)
    + (match s.sender case Sending => 3 case Closing => 2 case Waiting => 1 case _ => 0)
    + if s.parentCancelled then 0 else 1
  }

  lemma HandOffRunsOut(s: State, w: nat)
    requires Enabled(s, HandOff(w))
    ensures Remaining(Do(s, HandOff(w))) < Remaining(s)
  {
    TotalUpdate(s.workers, w, Busy(s.next));
  }

  lemma QuotaRunsOut(s: State, a: Action)
    requires (a.QuotaOk? || a.QuotaFails?) && Enabled(s, a)
    ensures Remaining(Do(s, a)) < Remaining(s)
  {
    TotalUpdate(s.workers, a.w, if a.QuotaOk? then Ready else Failed);
  }

  lemma ReportRunsOut(s: State, w: nat)
    requires Enabled(s, Report(w))
    ensures Remaining(Do(s, Report(w))) < Remaining(s)
  {
    TotalUpdate(s.workers, w, if s.error then Exited else Cancelling);
  }

  lemma ExitRunsOut(s: State, a: Action)
    requires (a.Cancel? || a.SeeClosed?) && Enabled(s, a)
    ensures Remaining(Do(s, a)) < Remaining(s)
  {
    TotalUpdate(s.workers, a.w, Exited);
  }

  lemma StepsRunOut(s: State, a: Action)
    requires Enabled(s, a)
    ensures Remaining(Do(s, a)) < Remaining(s)
  {
    match a {
      case HandOff(w) => HandOffRunsOut(s, w);
      case QuotaOk(w) => QuotaRunsOut(s, a);
      case QuotaFails(w) => QuotaRunsOut(s, a);
      case Report(w) => ReportRunsOut(s, w);
      case Cancel(w) => ExitRunsOut(s, a);
      case SeeClosed(w) => ExitRunsOut(s, a);
      case _ =>
    }
  }

  /** Every run, whatever the interleaving, has at most workers + 3*buckets + 4 steps; with
      `NeverStuck`, `enrichBuckets` always returns as long as API calls do. */
  lemma {:induction false} RunsAreBounded(workers: nat, buckets: nat, run: seq<Action>)
    requires workers >= 1 && LegalRun(Initial(workers, buckets), run)
    ensures |run| + Remaining(After(Initial(workers, buckets), run)) <= workers + 3 * buckets + 4
    ensures |run| <= workers + 3 * buckets + 4
  {
    ReachableInvariant(workers, buckets, run);
    if run == [] {
      TotalReady(Initial(workers, buckets).workers);
    } else {
      var earlier := run[..|run| - 1];
      RunsAreBounded(workers, buckets, earlier);
      ReachableInvariant(workers, buckets, earlier);
      StepsRunOut(After(Initial(workers, buckets), earlier), run[|run| - 1]);
    }
  }

  // ---------- what the code does not promise ----------

  /** The parent was cancelled before anything was sent, and `k` workers have seen the closed channel. */
  function Leaving(workers: nat, buckets: nat, k: nat): State {
    Initial(workers, buckets).(
      workers := seq(workers, i => if i < k then Exited else Ready), sender := Waiting,
      cancelled := true, parentCancelled := true)
  }

  predicate WithoutFailure(run: seq<Action>) {
    forall a :: a in run ==> !a.QuotaFails? && !a.Report? && !a.Cancel?
  }

  lemma {:induction false} WorkersLeave(workers: nat, buckets: nat, k: nat) returns (run: seq<Action>)
    requires k <= workers && buckets >= 1
    ensures LegalRun(Initial(workers, buckets), run) && WithoutFailure(run)
    ensures After(Initial(workers, buckets), run) == Leaving(workers, buckets, k)
  {
    var start := Initial(workers, buckets);
    if k == 0 {
      run := Extend(start, [], CancelParent);
      run := Extend(start, run, StopSending);
      run := Extend(start, run, Close);
      assert After(start, run).workers == Leaving(workers, buckets, 0).workers;
    } else {
      var shorter := WorkersLeave(workers, buckets, k - 1);
      run := Extend(start, shorter, SeeClosed(k - 1));
      assert After(start, run).workers == Leaving(workers, buckets, k).workers;
    }
  }

  /** With any number of workers and buckets, a cancelled parent can let the billing step be reached,
      with no error and no failed call, although no bucket was enriched. So reaching it means
      completeness exactly when all buckets were sent, see `Outcome`. */
  lemma CancelledParentCanSkip(workers: nat, buckets: nat) returns (run: seq<Action>)
    requires workers >= 1 && buckets >= 1
    ensures LegalRun(Initial(workers, buckets), run) && WithoutFailure(run)
    ensures var s := After(Initial(workers, buckets), run);
            && s.sender.Billing? && !s.error && |s.jobs| == |s.writes| == buckets
            && forall i :: 0 <= i < buckets ==> s.jobs[i].Unsent? && s.writes[i] == 0
  {
    var leaving := WorkersLeave(workers, buckets, workers);
    run := Extend(Initial(workers, buckets), leaving, Join);
  }

  lemma Extend(start: State, run: seq<Action>, a: Action) returns (longer: seq<Action>)
    requires LegalRun(start, run) && Enabled(After(start, run), a)
    ensures longer == run + [a] && LegalRun(start, longer) && After(start, longer) == Do(After(start, run), a)
  {
    longer := run + [a];
    assert longer[..|longer| - 1] == run;
  }
}
