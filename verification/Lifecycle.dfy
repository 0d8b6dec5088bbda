/**
 The life of collector runs: the records the store keeps for each (cluster, collector), and
 every interleaving of runs. A run starts unless one is open, remembers the generation of
 its domain, does its work, and ends as a success, a skip or an error.
 */
module Lifecycle {
  import opened Common

  datatype CollectorState = CollectorState(
    cluster: string, collector: string, lastAttemptAt: int, lastSuccessAt: int,
    lastError: string, running: bool, runs: nat, errors: nat)

  type States = map<string, CollectorState>

  type Generations = map<string, nat>

  const ZERO := CollectorState("", "", 0, 0, "", false, 0, 0)

  // ---------- the store's operations on these records ----------

  function StateOf(states: States, cluster: string, collector: string): CollectorState {
    if Key(cluster, collector) in states then states[Key(cluster, collector)] else ZERO
  }

  function GenerationOf(g: Generations, cluster: string, resource: string): nat {
    if Key(cluster, resource) in g then g[Key(cluster, resource)] else 0
  }

  function Bumped(g: Generations, cluster: string, resource: string): Generations {
    g[Key(cluster, resource) := GenerationOf(g, cluster, resource) + 1]
  }

  /** `Start`: whether the run may go ahead, and the records afterwards. */
  function Started(states: States, cluster: string, collector: string, now: int): (bool, States) {
    var s := StateOf(states, cluster, collector);
    if s.running then (false, states)
    else (true, states[Key(cluster, collector) :=
                  s.(cluster := cluster, collector := collector, lastAttemptAt := now, running := true,
                     runs := s.runs + 1)])
  }

  const ERROR_LIMIT := 256

  /** At most the first 256 bytes of a message. */
  function SanitizeError(message: string): (r: string)
    ensures r <= message && |r| == (if |message| < ERROR_LIMIT then |message| else ERROR_LIMIT)
  {
    if |message| > ERROR_LIMIT then message[..ERROR_LIMIT] else message
  }

  /** `Finish`. */
  function Finished(states: States, cluster: string, collector: string, now: int, error: Option<string>): States {
    var s := StateOf(states, cluster, collector).(cluster := cluster, collector := collector, running := false);
    states[Key(cluster, collector) :=
      if error.None? then s.(lastSuccessAt := now, lastError := "")
      else s.(errors := s.errors + 1, lastError := SanitizeError(error.value))]
  }

  /** `FinishSkipped`. */
  function Skipped(states: States, cluster: string, collector: string): States {
    states[Key(cluster, collector) :=
      StateOf(states, cluster, collector).(cluster := cluster, collector := collector, running := false,
                                           lastError := "")]
  }

  /** The records are filed by pair: an operation on one pair shows up under no other. */
  lemma OtherPairsStay(states: States, c: string, k: string, other: string, name: string, s: CollectorState)
    requires NulFree(c) && NulFree(other) && (c != other || k != name)
    ensures StateOf(states[Key(c, k) := s], other, name) == StateOf(states, other, name)
  {
    if Key(c, k) == Key(other, name) { KeyInjective(c, k, other, name); }
  }

  lemma OtherGenerationsStay(g: Generations, c: string, k: string, other: string, name: string)
    requires NulFree(c) && NulFree(other)
    ensures GenerationOf(Bumped(g, c, k), other, name)
         == GenerationOf(g, other, name) + if c == other && k == name then 1 else 0
  {
    if Key(c, k) == Key(other, name) { KeyInjective(c, k, other, name); }
  }

  // ---------- runs as threads ----------

  type Pair = (string, string)

  datatype Outcome = Success | Skip | Error(message: string)

  /** Where a thread that executes `Run` is. A collector publishes its domain at most once, as the
      last thing it does before it returns without error. `began` is history: the generation when
      the run was recorded as started. */
  datatype Phase =
    | Open(pair: Pair, began: nat)
    | Working(pair: Pair, began: nat, captured: nat, published: bool)
    | Ending(pair: Pair, began: nat, captured: nat, seen: nat, outcome: Outcome)

  /** What has happened to runs: an admitted beginning, or an end. */
  datatype Event =
    | Began(pair: Pair, now: int)
    | Ended(pair: Pair, outcome: Outcome, now: int)

  /** `log` is history. */
  datatype World = World(states: States, generations: Generations, threads: map<int, Phase>, log: seq<Event>)

  datatype Action =
    | Begin(thread: int, pair: Pair, now: int)
    | Capture(thread: int)
    | Publish(thread: int)
    | Bootstrap(cluster: string)
    | Return(thread: int, error: Option<string>)
    | End(thread: int, now: int)

  function Initially(): World {
    World(map[], map[], map[], [])
  }

  // ---------- what a log tells of a pair ----------

  /** How often runs of a pair ended which way. */
  datatype Tally = Tally(successes: nat, errors: nat, skips: nat)

  function CountSuccesses(log: seq<Event>, pair: Pair): nat {
    if log == [] then 0
    else
      var e := log[|log| - 1];
      CountSuccesses(log[..|log| - 1], pair) + if e.Ended? && e.pair == pair && e.outcome.Success? then 1 else 0
  }

  function CountErrors(log: seq<Event>, pair: Pair): nat {
    if log == [] then 0
    else
      var e := log[|log| - 1];
      CountErrors(log[..|log| - 1], pair) + if e.Ended? && e.pair == pair && e.outcome.Error? then 1 else 0
  }

  function CountSkips(log: seq<Event>, pair: Pair): nat {
    if log == [] then 0
    else
      var e := log[|log| - 1];
      CountSkips(log[..|log| - 1], pair) + if e.Ended? && e.pair == pair && e.outcome.Skip? then 1 else 0
  }

  function TallyOf(w: World, pair: Pair): Tally {
    Tally(CountSuccesses(w.log, pair), CountErrors(w.log, pair), CountSkips(w.log, pair))
  }

  /** When the latest run of the pair that succeeded ended, and when the latest one began. */
  function LatestSuccess(log: seq<Event>, pair: Pair): int {
    if log == [] then 0
    else
      var e := log[|log| - 1];
      if e.Ended? && e.pair == pair && e.outcome.Success? then e.now else LatestSuccess(log[..|log| - 1], pair)
  }

  function LatestBegin(log: seq<Event>, pair: Pair): int {
    if log == [] then 0
    else
      var e := log[|log| - 1];
      if e.Began? && e.pair == pair then e.now else LatestBegin(log[..|log| - 1], pair)
  }

  /** How the latest run of the pair that has ended did. */
  function LatestEnd(log: seq<Event>, pair: Pair): Option<Outcome> {
    if log == [] then None
    else
      var e := log[|log| - 1];
      if e.Ended? && e.pair == pair then Some(e.outcome) else LatestEnd(log[..|log| - 1], pair)
  }

  /** The first 256 bytes of the error of a run, empty for any other end. */
  function ErrorText(end: Option<Outcome>): string {
    if end.None? || !end.value.Error? then ""
    else if |end.value.message| <= 256 then end.value.message
    else end.value.message[..256]
  }

  /** One more event, and what it is about. */
  lemma LogGrows(log: seq<Event>, e: Event, pair: Pair)
    ensures (log + [e])[..|log|] == log && (log + [e])[|log|] == e
  {
    assert (log + [e])[..|log|] == log;
  }

  function At(w: World, pair: Pair): CollectorState {
    StateOf(w.states, pair.0, pair.1)
  }

  function Gen(w: World, pair: Pair): nat {
    GenerationOf(w.generations, pair.0, pair.1)
  }

  /** The domain that bootstrap, which any collector may run, publishes too. */
  const NODE := "node"

  /** Cluster names are identifiers without control characters. */
  ghost predicate CanStep(w: World, a: Action) {
    match a
    case Begin(t, pair, _) => t !in w.threads && NulFree(pair.0)
    case Capture(t) => t in w.threads && w.threads[t].Open?
    case Publish(t) => t in w.threads && w.threads[t].Working? && !w.threads[t].published
    case Bootstrap(cluster) => NulFree(cluster)
    case Return(t, error) => t in w.threads && w.threads[t].Working? && (w.threads[t].published ==> error.None?)
    case End(t, _) => t in w.threads && w.threads[t].Ending?
  }

  function OutcomeOf(error: Option<string>, captured: nat, seen: nat): Outcome {
    if error.Some? then Error(error.value) else if seen == captured then Skip else Success
  }

  function Closed(states: States, pair: Pair, outcome: Outcome, now: int): States {
    match outcome
    case Skip => Skipped(states, pair.0, pair.1)
    case Success => Finished(states, pair.0, pair.1, now, None)
    case Error(message) => Finished(states, pair.0, pair.1, now, Some(message))
  }

  function Apply(w: World, a: Action): World
    requires CanStep(w, a)
  {
    match a
    case Begin(t, pair, now) =>
      var (ok, states) := Started(w.states, pair.0, pair.1, now);
      if ok then
        w.(states := states, threads := w.threads[t := Open(pair, Gen(w, pair))], log := w.log + [Began(pair, now)])
      else w
    case Capture(t) =>
      w.(threads := w.threads[t := Working(w.threads[t].pair, w.threads[t].began, Gen(w, w.threads[t].pair), false)])
    case Publish(t) =>
      var p := w.threads[t];
      w.(generations := Bumped(w.generations, p.pair.0, p.pair.1), threads := w.threads[t := p.(published := true)])
    case Bootstrap(cluster) => w.(generations := Bumped(w.generations, cluster, NODE))
    case Return(t, error) =>
      var p := w.threads[t];
      var seen := Gen(w, p.pair);
      w.(threads := w.threads[t := Ending(p.pair, p.began, p.captured, seen, OutcomeOf(error, p.captured, seen))])
    case End(t, now) =>
      var p := w.threads[t];
      w.(states := Closed(w.states, p.pair, p.outcome, now), threads := w.threads - {t},
         log := w.log + [Ended(p.pair, p.outcome, now)])
  }

  ghost predicate StepTo(w: World, w': World) {
    exists a :: CanStep(w, a) && w' == Apply(w, a)
  }

  ghost predicate IsRun(worlds: seq<World>) {
    && worlds != [] && worlds[0] == Initially()
    && forall i :: 0 <= i < |worlds| - 1 ==> StepTo(worlds[i], worlds[i + 1])
  }

  // ---------- what holds in every reachable world ----------

  /** Threads are open on different pairs, and a pair is marked as running iff one is open on it. */
  ghost predicate Exclusive(w: World) {
    && (forall t, u :: t in w.threads && u in w.threads && w.threads[t].pair == w.threads[u].pair ==> t == u)
    && (forall t :: t in w.threads ==> NulFree(w.threads[t].pair.0) && At(w, w.threads[t].pair).running)
    && (forall pair: Pair :: NulFree(pair.0) && At(w, pair).running ==> HasThread(w, pair))
  }

  ghost predicate HasThread(w: World, pair: Pair) {
    exists t :: t in w.threads && w.threads[t].pair == pair
  }

  /** Every run is accounted for. */
  ghost predicate Accounted(w: World) {
    forall pair: Pair :: NulFree(pair.0) ==> Balanced(w, pair)
  }

  ghost predicate Balanced(w: World, pair: Pair) {
    var s, t := At(w, pair), TallyOf(w, pair);
    && s.runs == t.successes + t.errors + t.skips + (if s.running then 1 else 0)
    && s.errors == t.errors
  }

  /** Every record tells what has happened to its pair. */
  ghost predicate Truthful(w: World) {
    forall pair: Pair :: NulFree(pair.0) ==> Tells(At(w, pair), w.log, pair)
  }

  ghost predicate Tells(s: CollectorState, log: seq<Event>, pair: Pair) {
    && s.lastSuccessAt == LatestSuccess(log, pair)
    && s.lastAttemptAt == LatestBegin(log, pair)
    && s.lastError == ErrorText(LatestEnd(log, pair))
  }

  /** Generations only rise, so what a thread remembers is not above what is now. */
  ghost predicate Ordered(w: World) {
    forall t :: t in w.threads ==> PhaseOk(w, w.threads[t])
  }

  ghost predicate PhaseOk(w: World, p: Phase) {
    match p
    case Open(pair, began) => began <= Gen(w, pair)
    case Working(pair, began, captured, published) => began <= captured <= Gen(w, pair)
    case Ending(pair, began, captured, seen, outcome) =>
      began <= captured <= seen <= Gen(w, pair) && (outcome.Success? ==> captured < seen)
  }

  /** Domains that only their own collector publishes: what the generation has done during the run. */
  ghost predicate Owned(w: World) {
    forall t :: t in w.threads && w.threads[t].pair.1 != NODE ==> PublishedBy(w, w.threads[t])
  }

  ghost predicate PublishedBy(w: World, p: Phase) {
    match p
    case Open(pair, began) => Gen(w, pair) == began
    case Working(pair, began, captured, published) =>
      captured == began && Gen(w, pair) == began + if published then 1 else 0
    case Ending(pair, began, captured, seen, outcome) =>
      captured == began && seen == Gen(w, pair) == began + if outcome.Success? then 1 else 0
  }

  /** What an action leaves alone. */
  lemma StatesFrame(w: World, a: Action, pair: Pair)
    requires CanStep(w, a) && NulFree(pair.0) && Exclusive(w)
    requires a.Begin? ==> a.pair != pair
    requires a.End? ==> w.threads[a.thread].pair != pair
    ensures At(Apply(w, a), pair) == At(w, pair) && TallyOf(Apply(w, a), pair) == TallyOf(w, pair)
    ensures Tells(At(w, pair), w.log, pair) ==> Tells(At(w, pair), Apply(w, a).log, pair)
  {
    if Apply(w, a).log != w.log { LogGrows(w.log, Apply(w, a).log[|w.log|], pair); }
    if a.Begin? && Started(w.states, a.pair.0, a.pair.1, a.now).0 {
      OtherPairsStay(w.states, a.pair.0, a.pair.1, pair.0, pair.1, Apply(w, a).states[Key(a.pair.0, a.pair.1)]);
    } else if a.End? {
      var p := w.threads[a.thread].pair;
      OtherPairsStay(w.states, p.0, p.1, pair.0, pair.1, Apply(w, a).states[Key(p.0, p.1)]);
    }
  }

  lemma GenerationsRise(w: World, a: Action, pair: Pair)
    requires CanStep(w, a) && NulFree(pair.0) && Exclusive(w)
    ensures Gen(w, pair) <= Gen(Apply(w, a), pair)
  {
    if a.Publish? {
      OtherGenerationsStay(w.generations, w.threads[a.thread].pair.0, w.threads[a.thread].pair.1, pair.0, pair.1);
    } else if a.Bootstrap? {
      OtherGenerationsStay(w.generations, a.cluster, NODE, pair.0, pair.1);
    }
  }

  /** The generation of a pair moves by one when its run publishes, or with bootstrap. */
  lemma GenerationMoves(w: World, a: Action, pair: Pair)
    requires CanStep(w, a) && NulFree(pair.0) && Exclusive(w) && pair.1 != NODE
    ensures Gen(Apply(w, a), pair) == Gen(w, pair) + if a.Publish? && w.threads[a.thread].pair == pair then 1 else 0
  {
    if a.Publish? {
      OtherGenerationsStay(w.generations, w.threads[a.thread].pair.0, w.threads[a.thread].pair.1, pair.0, pair.1);
    } else if a.Bootstrap? {
      OtherGenerationsStay(w.generations, a.cluster, NODE, pair.0, pair.1);
    }
  }

  /** The pair that a thread's step is about. */
  ghost predicate About(w: World, a: Action, pair: Pair)
    requires CanStep(w, a)
  {
    (a.Begin? && a.pair == pair) || (a.End? && w.threads[a.thread].pair == pair)
  }

  lemma ThreadsKeepPairs(w: World, a: Action, t: int)
    requires CanStep(w, a) && t in Apply(w, a).threads
    ensures t in w.threads ==> Apply(w, a).threads[t].pair == w.threads[t].pair
    ensures t !in w.threads ==>
              a.Begin? && a.thread == t && a.pair == Apply(w, a).threads[t].pair && !At(w, a.pair).running
  {
  }

  lemma StepKeepsExclusive(w: World, a: Action)
    requires CanStep(w, a) && Exclusive(w)
    ensures Exclusive(Apply(w, a))
  {
    var w' := Apply(w, a);
    forall t, u | t in w'.threads && u in w'.threads && w'.threads[t].pair == w'.threads[u].pair ensures t == u {
      ThreadsKeepPairs(w, a, t);
      ThreadsKeepPairs(w, a, u);
    }
    forall t | t in w'.threads ensures NulFree(w'.threads[t].pair.0) && At(w', w'.threads[t].pair).running {
      ThreadsKeepPairs(w, a, t);
      if !About(w, a, w'.threads[t].pair) { StatesFrame(w, a, w'.threads[t].pair); }
    }
    forall pair: Pair | NulFree(pair.0) && At(w', pair).running ensures HasThread(w', pair) {
      RunningHasThread(w, a, pair);
    }
  }

  lemma RunningHasThread(w: World, a: Action, pair: Pair)
    requires CanStep(w, a) && Exclusive(w) && NulFree(pair.0) && At(Apply(w, a), pair).running
    ensures HasThread(Apply(w, a), pair)
  {
    var w' := Apply(w, a);
    if About(w, a, pair) && !At(w, pair).running {
      assert a.thread in w'.threads && w'.threads[a.thread].pair == pair;
    } else {
      if !About(w, a, pair) { StatesFrame(w, a, pair); }
      assert HasThread(w, pair);
      var t :| t in w.threads && w.threads[t].pair == pair;
      assert t in w'.threads && w'.threads[t].pair == pair;
    }
  }

  lemma StepKeepsAccounted(w: World, a: Action)
    requires CanStep(w, a) && Exclusive(w) && Accounted(w)
    ensures Accounted(Apply(w, a))
  {
    forall pair: Pair | NulFree(pair.0) ensures Balanced(Apply(w, a), pair) {
      assert Balanced(w, pair);
      if !About(w, a, pair) {
        StatesFrame(w, a, pair);
      } else if Apply(w, a).log != w.log {
        LogGrows(w.log, Apply(w, a).log[|w.log|], pair);
      }
    }
  }

  lemma StepKeepsTruthful(w: World, a: Action)
    requires CanStep(w, a) && Exclusive(w) && Truthful(w)
    ensures Truthful(Apply(w, a))
  {
    forall pair: Pair | NulFree(pair.0) ensures Tells(At(Apply(w, a), pair), Apply(w, a).log, pair) {
      assert Tells(At(w, pair), w.log, pair);
      if !About(w, a, pair) {
        StatesFrame(w, a, pair);
      } else if Apply(w, a).log != w.log {
        LogGrows(w.log, Apply(w, a).log[|w.log|], pair);
      }
    }
  }

  lemma StepKeepsOrdered(w: World, a: Action)
    requires CanStep(w, a) && Exclusive(w) && Ordered(w)
    ensures Ordered(Apply(w, a))
  {
    var w' := Apply(w, a);
    forall t | t in w'.threads ensures PhaseOk(w', w'.threads[t]) {
      ThreadsKeepPairs(w, a, t);
      if t in w.threads {
        assert PhaseOk(w, w.threads[t]);
        GenerationsRise(w, a, w.threads[t].pair);
      }
    }
  }

  lemma StepKeepsOwned(w: World, a: Action)
    requires CanStep(w, a) && Exclusive(w) && Owned(w)
    ensures Owned(Apply(w, a))
  {
    var w' := Apply(w, a);
    forall t | t in w'.threads && w'.threads[t].pair.1 != NODE ensures PublishedBy(w', w'.threads[t]) {
      ThreadsKeepPairs(w, a, t);
      if t in w.threads {
        assert PublishedBy(w, w.threads[t]);
        GenerationMoves(w, a, w.threads[t].pair);
      }
    }
  }

  ghost predicate Invariant(w: World) {
    Exclusive(w) && Accounted(w) && Truthful(w) && Ordered(w) && Owned(w)
  }

  lemma LastStep(worlds: seq<World>, k: nat) returns (a: Action)
    requires IsRun(worlds) && k + 1 < |worlds|
    ensures CanStep(worlds[k], a) && worlds[k + 1] == Apply(worlds[k], a)
  {
    assert StepTo(worlds[k], worlds[k + 1]);
    a :| CanStep(worlds[k], a) && worlds[k + 1] == Apply(worlds[k], a);
  }

  lemma {:induction false} InvariantInRuns(worlds: seq<World>, k: nat)
    requires IsRun(worlds) && k < |worlds|
    ensures Invariant(worlds[k])
  {
    if k > 0 {
      InvariantInRuns(worlds, k - 1);
      var a := LastStep(worlds, k - 1);
      StepKeepsExclusive(worlds[k - 1], a);
      StepKeepsAccounted(worlds[k - 1], a);
      StepKeepsTruthful(worlds[k - 1], a);
      StepKeepsOrdered(worlds[k - 1], a);
      StepKeepsOwned(worlds[k - 1], a);
    }
  }

  // ---------- the promises ----------

  /** At most one run of a collector is open at any time. */
  lemma OneOpenRun(worlds: seq<World>, k: nat, t: int, u: int)
    requires IsRun(worlds) && k < |worlds|
    requires t in worlds[k].threads && u in worlds[k].threads && worlds[k].threads[t].pair == worlds[k].threads[u].pair
    ensures t == u
  {
    InvariantInRuns(worlds, k);
  }

  /** The counters: runs are the successes, errors and skips plus the open run, if any; errors are
      the runs that ended in error; a pair is marked as running iff a thread is open on it. */
  lemma CountersAreExact(worlds: seq<World>, k: nat, pair: Pair)
    requires IsRun(worlds) && k < |worlds| && NulFree(pair.0)
    ensures var s, t := At(worlds[k], pair), TallyOf(worlds[k], pair);
            && s.runs == t.successes + t.errors + t.skips + (if s.running then 1 else 0)
            && s.errors == t.errors
            && (s.running <==> HasThread(worlds[k], pair))
  {
    InvariantInRuns(worlds, k);
    assert Balanced(worlds[k], pair);
  }

  /** In every reachable world a record tells when the latest run of its pair that succeeded ended, when
      the latest one began, and the first 256 bytes of the error if the latest one to end had one. */
  lemma RecordsTellHistory(worlds: seq<World>, k: nat, pair: Pair)
    requires IsRun(worlds) && k < |worlds| && NulFree(pair.0)
    ensures var s, log := At(worlds[k], pair), worlds[k].log;
            && s.lastSuccessAt == LatestSuccess(log, pair)
            && s.lastAttemptAt == LatestBegin(log, pair)
            && s.lastError == ErrorText(LatestEnd(log, pair))
  {
    InvariantInRuns(worlds, k);
    assert Tells(At(worlds[k], pair), worlds[k].log, pair);
  }

  /** A run ends as its collector returned: as an error with the message of the error, else as a success
      exactly when the generation is not the one it captured. */
  lemma EndsAsReturned(w: World, t: int, error: Option<string>, now: int)
    requires CanStep(w, Return(t, error))
    ensures var w' := Apply(w, Return(t, error));
            && CanStep(w', End(t, now))
            && var log := Apply(w', End(t, now)).log;
            && var p := w.threads[t];
            && var end := LatestEnd(log, p.pair);
            && end.Some?
            && (error.Some? ==> end.value == Error(error.value))
            && (error.None? && Gen(w, p.pair) != p.captured ==> end.value == Success)
            && (error.None? && Gen(w, p.pair) == p.captured ==> end.value == Skip)
  {
    var w' := Apply(w, Return(t, error));
    LogGrows(w'.log, Ended(w.threads[t].pair, w'.threads[t].outcome, now), w.threads[t].pair);
  }

  /** The time of the last success changes only when a run of that very collector ends as a
      success, and during that run the collector's generation strictly rose. */
  lemma SuccessNeedsNewData(worlds: seq<World>, k: nat, a: Action, pair: Pair)
    requires IsRun(worlds) && k < |worlds| && CanStep(worlds[k], a) && NulFree(pair.0)
    requires At(Apply(worlds[k], a), pair).lastSuccessAt != At(worlds[k], pair).lastSuccessAt
    ensures a.End? && At(Apply(worlds[k], a), pair).lastSuccessAt == a.now
    ensures var p := worlds[k].threads[a.thread];
            p.pair == pair && p.outcome.Success? && p.began <= p.captured < p.seen <= Gen(worlds[k], pair)
  {
    var w := worlds[k];
    InvariantInRuns(worlds, k);
    if !About(w, a, pair) {
      StatesFrame(w, a, pair);
    } else if a.End? {
      assert PhaseOk(w, w.threads[a.thread]);
    }
  }

  /** A run that is about to end as an error or a skip has published nothing, and neither has
      anybody else for its collector: the generation is what it was when the run began. A success
      has published exactly once. (Node inventory is published by bootstrap as well.) */
  lemma OnlySuccessPublishes(worlds: seq<World>, k: nat, t: int)
    requires IsRun(worlds) && k < |worlds| && t in worlds[k].threads
    requires worlds[k].threads[t].Ending? && worlds[k].threads[t].pair.1 != NODE
    ensures var p := worlds[k].threads[t];
            Gen(worlds[k], p.pair) == p.began + if p.outcome.Success? then 1 else 0
  {
    InvariantInRuns(worlds, k);
    assert PublishedBy(worlds[k], worlds[k].threads[t]);
  }

  /** Every record carries the pair it is filed under. */
  ghost predicate Filed(states: States) {
    forall key :: key in states ==> key == Key(states[key].cluster, states[key].collector)
  }

  lemma {:induction false} FiledInRuns(worlds: seq<World>, k: nat)
    requires IsRun(worlds) && k < |worlds|
    ensures Filed(worlds[k].states)
  {
    if k > 0 {
      FiledInRuns(worlds, k - 1);
      var a := LastStep(worlds, k - 1);
    }
  }

  /** So the records that a snapshot lists have pairwise distinct (cluster, collector) pairs. */
  lemma OneRecordPerPair(worlds: seq<World>, k: nat, x: string, y: string)
    requires IsRun(worlds) && k < |worlds| && x in worlds[k].states && y in worlds[k].states
    requires worlds[k].states[x].cluster == worlds[k].states[y].cluster
    requires worlds[k].states[x].collector == worlds[k].states[y].collector
    ensures x == y
  {
    FiledInRuns(worlds, k);
  }
}
