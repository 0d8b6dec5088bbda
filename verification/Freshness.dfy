/**
 Two independent readers of the collector states: the health report and the freshness
 filter in front of the exported metrics. Times are nanoseconds, 0 is Go's zero time.
 */
module Freshness {
  import opened Common
  import Lifecycle

  const ZERO_TIME: int := 0
  type CollectorState = Lifecycle.CollectorState
  datatype ClusterRecord = ClusterRecord(name: string, health: Option<real>)
  datatype Snapshot = Snapshot(clusters: seq<ClusterRecord>, states: seq<CollectorState>)

  datatype Status = UP | DEGRADED | DOWN

  function Severity(s: Status): int {
    match s case UP => 0 case DEGRADED => 1 case DOWN => 2
  }

  const REQUIRED: set<string> := {"cluster", "node", "namespace", "bucket"}

  // ---------- what the states of one cluster say ----------

  /** A recorded success of a required collector of the cluster. */
  ghost predicate Success(snapshot: Snapshot, cluster: string, i: nat) {
    && i < |snapshot.states|
    && snapshot.states[i].cluster == cluster
    && snapshot.states[i].collector in REQUIRED
    && snapshot.states[i].lastSuccessAt != ZERO_TIME
  }

  ghost predicate Initialized(snapshot: Snapshot, cluster: string) {
    forall c :: c in REQUIRED ==> exists i: nat :: Success(snapshot, cluster, i) && snapshot.states[i].collector == c
  }

  /** Some required success is older than the limit. */
  ghost predicate OlderThan(snapshot: Snapshot, cluster: string, limit: int, now: int) {
    exists i: nat :: Success(snapshot, cluster, i) && Since(now, snapshot.states[i].lastSuccessAt) > limit
  }

  ghost predicate Unhealthy(snapshot: Snapshot, cluster: string) {
    exists i :: 0 <= i < |snapshot.clusters| && snapshot.clusters[i].name == cluster
      && snapshot.clusters[i].health == Some(0.0)
  }

  ghost predicate Failing(snapshot: Snapshot, cluster: string) {
    exists i :: 0 <= i < |snapshot.states| && snapshot.states[i].cluster == cluster
      && snapshot.states[i].lastError != ""
  }

  /** The status a cluster deserves: no reference to a scan, an oldest or a newest success. */
  ghost function Deserved(snapshot: Snapshot, cluster: string, tolerance: int, maxStale: int, now: int): Status {
    if !Initialized(snapshot, cluster) || OlderThan(snapshot, cluster, maxStale, now) then DOWN
    else if OlderThan(snapshot, cluster, tolerance, now) || Unhealthy(snapshot, cluster) || Failing(snapshot, cluster)
    then DEGRADED
    else UP
  }

  /** The state is that of a collector every cluster needs, and that has succeeded. */
  ghost predicate Ran(s: CollectorState, cluster: string) {
    && s.cluster == cluster && s.lastSuccessAt != 0
    && (s.collector == "cluster" || s.collector == "node" || s.collector == "namespace" || s.collector == "bucket")
  }

  ghost predicate HasRun(snapshot: Snapshot, cluster: string, collector: string) {
    exists s :: s in snapshot.states && Ran(s, cluster) && s.collector == collector
  }

  /** A cluster is down when one of its four collectors has never succeeded, or not for too long. */
  lemma DownMeans(snapshot: Snapshot, cluster: string, tolerance: int, maxStale: int, now: int)
    ensures Deserved(snapshot, cluster, tolerance, maxStale, now) == DOWN
       <==> || !HasRun(snapshot, cluster, "cluster") || !HasRun(snapshot, cluster, "node")
            || !HasRun(snapshot, cluster, "namespace") || !HasRun(snapshot, cluster, "bucket")
            || exists s :: s in snapshot.states && Ran(s, cluster) && Since(now, s.lastSuccessAt) > maxStale
  {
    forall s | s in snapshot.states && Ran(s, cluster)
      ensures exists i: nat :: Success(snapshot, cluster, i) && snapshot.states[i] == s {
      var i: nat :| i < |snapshot.states| && snapshot.states[i] == s;
      assert Success(snapshot, cluster, i);
    }
    forall i: nat | Success(snapshot, cluster, i)
      ensures snapshot.states[i] in snapshot.states && Ran(snapshot.states[i], cluster) {
    }
    InitializedMeans(snapshot, cluster);
  }

  lemma InitializedMeans(snapshot: Snapshot, cluster: string)
    ensures Initialized(snapshot, cluster)
       <==> HasRun(snapshot, cluster, "cluster") && HasRun(snapshot, cluster, "node")
            && HasRun(snapshot, cluster, "namespace") && HasRun(snapshot, cluster, "bucket")
  {
    forall c | c in REQUIRED
      ensures HasRun(snapshot, cluster, c)
         <==> exists i: nat :: Success(snapshot, cluster, i) && snapshot.states[i].collector == c {
      if i: nat :| Success(snapshot, cluster, i) && snapshot.states[i].collector == c {
        assert Ran(snapshot.states[i], cluster);
      }
      if s :| s in snapshot.states && Ran(s, cluster) && s.collector == c {
        var i: nat :| i < |snapshot.states| && snapshot.states[i] == s;
        assert Success(snapshot, cluster, i);
      }
    }
  }

  /** A cluster that is not down is up when all successes are recent enough, its record does not say that it
      is unhealthy, and none of its collectors reports an error. */
  lemma UpMeans(snapshot: Snapshot, cluster: string, tolerance: int, maxStale: int, now: int)
    requires Deserved(snapshot, cluster, tolerance, maxStale, now) != DOWN
    ensures Deserved(snapshot, cluster, tolerance, maxStale, now) == UP
       <==> && (forall s :: s in snapshot.states && Ran(s, cluster) ==> Since(now, s.lastSuccessAt) <= tolerance)
            && (forall c :: c in snapshot.clusters && c.name == cluster ==> c.health != Some(0.0))
            && (forall s :: s in snapshot.states && s.cluster == cluster ==> s.lastError == "")
  {
    forall s | s in snapshot.states && Ran(s, cluster)
      ensures exists i: nat :: Success(snapshot, cluster, i) && snapshot.states[i] == s {
      var i: nat :| i < |snapshot.states| && snapshot.states[i] == s;
      assert Success(snapshot, cluster, i);
    }
    forall i: nat | Success(snapshot, cluster, i)
      ensures snapshot.states[i] in snapshot.states && Ran(snapshot.states[i], cluster) {
    }
  }

  /** What the scan over the states remembers: which required collectors have succeeded,
      the oldest and newest of those successes, and whether any collector reports an error. */
  datatype Scan = Scan(present: set<string>, oldest: int, newest: int, hasError: bool)

  ghost predicate ScannedDomains(s: Scan, snapshot: Snapshot, cluster: string, k: nat) {
    forall c :: c in s.present <==> exists i: nat ::
        i < k && Success(snapshot, cluster, i) && snapshot.states[i].collector == c
  }

  ghost predicate ScannedTimes(s: Scan, snapshot: Snapshot, cluster: string, k: nat) {
    && (forall i: nat :: i < k && Success(snapshot, cluster, i) ==>
          s.oldest <= snapshot.states[i].lastSuccessAt <= s.newest)
    && (s.oldest == ZERO_TIME <==> s.present == {})
    && (s.newest == ZERO_TIME <==> s.present == {})
    && (s.present != {} ==> exists i: nat ::
          i < k && Success(snapshot, cluster, i) && snapshot.states[i].lastSuccessAt == s.oldest)
    && (s.present != {} ==> exists i: nat ::
          i < k && Success(snapshot, cluster, i) && snapshot.states[i].lastSuccessAt == s.newest)
  }

  ghost predicate ScannedErrors(s: Scan, snapshot: Snapshot, cluster: string, k: nat) {
    s.hasError <==> exists i ::
        0 <= i < k && i < |snapshot.states| && snapshot.states[i].cluster == cluster
          && snapshot.states[i].lastError != ""
  }

  method ScanStates(cluster: string, snapshot: Snapshot) returns (s: Scan)
    ensures ScannedDomains(s, snapshot, cluster, |snapshot.states|)
    ensures ScannedTimes(s, snapshot, cluster, |snapshot.states|)
    ensures ScannedErrors(s, snapshot, cluster, |snapshot.states|)
  {
    s := Scan({}, ZERO_TIME, ZERO_TIME, false);
    for k := 0 to |snapshot.states|
      invariant ScannedDomains(s, snapshot, cluster, k)
      invariant ScannedTimes(s, snapshot, cluster, k)
      invariant ScannedErrors(s, snapshot, cluster, k)
    {
      ScanStepKeeps(s, snapshot, cluster, k);
      s := ScanStep(s, cluster, snapshot.states[k]);
    }
  }

  /** One round of the scan. */
  function ScanStep(s: Scan, cluster: string, state: CollectorState): Scan {
    if state.cluster != cluster then s
    else
      var t :=
        if state.collector in REQUIRED && state.lastSuccessAt != ZERO_TIME then
          Scan(s.present + {state.collector},
               if s.oldest == ZERO_TIME || state.lastSuccessAt < s.oldest then state.lastSuccessAt else s.oldest,
               if s.newest == ZERO_TIME || state.lastSuccessAt > s.newest then state.lastSuccessAt else s.newest,
               s.hasError)
        else s;
      if state.lastError != "" then t.(hasError := true) else t
  }

  lemma ScanStepKeeps(s: Scan, snapshot: Snapshot, cluster: string, k: nat)
    requires k < |snapshot.states|
    requires ScannedDomains(s, snapshot, cluster, k) && ScannedTimes(s, snapshot, cluster, k)
    requires ScannedErrors(s, snapshot, cluster, k)
    ensures var t := ScanStep(s, cluster, snapshot.states[k]);
            && ScannedDomains(t, snapshot, cluster, k + 1)
            && ScannedTimes(t, snapshot, cluster, k + 1)
            && ScannedErrors(t, snapshot, cluster, k + 1)
  {
    var t := ScanStep(s, cluster, snapshot.states[k]);
    ScanStepDomains(s, t, snapshot, cluster, k);
    ScanStepTimes(s, t, snapshot, cluster, k);
  }

  lemma ScanStepDomains(s: Scan, t: Scan, snapshot: Snapshot, cluster: string, k: nat)
    requires k < |snapshot.states| && ScannedDomains(s, snapshot, cluster, k)
    requires t == ScanStep(s, cluster, snapshot.states[k])
    ensures ScannedDomains(t, snapshot, cluster, k + 1)
  {
    assert Success(snapshot, cluster, k) ==> t.present == s.present + {snapshot.states[k].collector};
    assert !Success(snapshot, cluster, k) ==> t.present == s.present;
    forall c | c in s.present
      ensures exists i: nat :: i < k + 1 && Success(snapshot, cluster, i) && snapshot.states[i].collector == c {
      var i: nat :| i < k && Success(snapshot, cluster, i) && snapshot.states[i].collector == c;
      assert i < k + 1;
    }
  }

  lemma ScanStepTimes(s: Scan, t: Scan, snapshot: Snapshot, cluster: string, k: nat)
    requires k < |snapshot.states| && ScannedTimes(s, snapshot, cluster, k)
    requires s.present == {} ==> forall i: nat :: i < k ==> !Success(snapshot, cluster, i)
    requires t == ScanStep(s, cluster, snapshot.states[k])
    ensures ScannedTimes(t, snapshot, cluster, k + 1)
  {
    if s.present != {} {
      var i: nat :| i < k && Success(snapshot, cluster, i) && snapshot.states[i].lastSuccessAt == s.oldest;
      var j: nat :| j < k && Success(snapshot, cluster, j) && snapshot.states[j].lastSuccessAt == s.newest;
      assert i < k + 1 && j < k + 1;
    }
    if Success(snapshot, cluster, k) {
      assert t.present != {};
      assert k < k + 1;
    }
  }

  lemma ScannedAll(s: Scan, snapshot: Snapshot, cluster: string)
    requires ScannedDomains(s, snapshot, cluster, |snapshot.states|)
    ensures s.present == {} <==> forall i: nat :: !Success(snapshot, cluster, i)
    ensures s.present == REQUIRED <==> Initialized(snapshot, cluster)
  {
    forall i: nat | Success(snapshot, cluster, i) ensures snapshot.states[i].collector in s.present {
    }
    assert s.present <= REQUIRED;
  }

  /** One scan over the states, then the decision from the age of the oldest success. */
  method EvaluateCluster(cluster: string, snapshot: Snapshot, tolerance: int, maxStale: int, now: int)
    returns (status: Status, newest: int)
    ensures status == Deserved(snapshot, cluster, tolerance, maxStale, now)
    ensures newest == ZERO_TIME <==> forall i: nat :: !Success(snapshot, cluster, i)
    ensures newest != ZERO_TIME ==>
              && (exists i: nat :: Success(snapshot, cluster, i) && snapshot.states[i].lastSuccessAt == newest)
              && (forall i: nat :: Success(snapshot, cluster, i) ==> snapshot.states[i].lastSuccessAt <= newest)
  {
    var scan := ScanStates(cluster, snapshot);
    newest := scan.newest;
    ScannedAll(scan, snapshot, cluster);
    if scan.present != REQUIRED {
      return DOWN, newest;
    }
    assert "cluster" in scan.present;
    OldestDecides(snapshot, cluster, scan.oldest, now);
    var age := Since(now, scan.oldest);
    if age > maxStale {
      return DOWN, newest;
    }
    if age > tolerance {
      return DEGRADED, newest;
    }
    var unhealthy := ReportsUnhealthy(cluster, snapshot);
    if unhealthy {
      return DEGRADED, newest;
    }
    status := if scan.hasError then DEGRADED else UP;
  }

  method ReportsUnhealthy(cluster: string, snapshot: Snapshot) returns (unhealthy: bool)
    ensures unhealthy <==> Unhealthy(snapshot, cluster)
  {
    for k := 0 to |snapshot.clusters|
      invariant forall i :: 0 <= i < k ==> !(snapshot.clusters[i].name == cluster
                                             && snapshot.clusters[i].health == Some(0.0))
    {
      if snapshot.clusters[k].name == cluster && snapshot.clusters[k].health == Some(0.0) {
        return true;
      }
    }
    unhealthy := false;
  }

  /** The age of the oldest success decides whether any success is too old. */
  lemma OldestDecides(snapshot: Snapshot, cluster: string, oldest: int, now: int)
    requires forall i: nat :: Success(snapshot, cluster, i) ==> oldest <= snapshot.states[i].lastSuccessAt
    requires exists i: nat :: Success(snapshot, cluster, i) && snapshot.states[i].lastSuccessAt == oldest
    ensures forall limit :: OlderThan(snapshot, cluster, limit, now) <==> Since(now, oldest) > limit
  {
  }

  // ---------- the whole report ----------

  ghost function Names(snapshot: Snapshot): set<string> {
    (set c | c in snapshot.clusters :: c.name) + (set s | s in snapshot.states :: s.cluster)
  }

  /** The names of the report: every cluster of the snapshot or of a state, once each. */
  method CollectNames(snapshot: Snapshot) returns (names: seq<string>)
    ensures Distinct(names) && forall n :: n in names <==> n in Names(snapshot)
    ensures SortedBy(names, NameKey, TupleLeq)
  {
    var all: seq<string> := [];
    for k := 0 to |snapshot.clusters|
      invariant forall n :: n in all <==> exists i :: 0 <= i < k && snapshot.clusters[i].name == n
    {
      all := all + [snapshot.clusters[k].name];
    }
    for k := 0 to |snapshot.states|
      invariant forall n :: n in all <==>
                  || (exists i :: 0 <= i < |snapshot.clusters| && snapshot.clusters[i].name == n)
                  || (exists i :: 0 <= i < k && snapshot.states[i].cluster == n)
    {
      if snapshot.states[k].cluster !in all {
        all := all + [snapshot.states[k].cluster];
      }
    }
    assert forall n :: n in all <==> n in Names(snapshot);
    names := Compact(all);
  }

  function NameKey(name: string): seq<string> {
    [name]
  }

  /** `slices.Sort` followed by `slices.Compact`. */
  method Compact(all: seq<string>) returns (names: seq<string>)
    ensures Distinct(names) && forall n :: n in names <==> n in all
    ensures SortedBy(names, NameKey, TupleLeq)
  {
    TupleLeqIsOrder();
    var sorted := Sort(all, NameKey, TupleLeq);
    SortSorted(all, NameKey, TupleLeq);
    names := [];
    for k := 0 to |sorted|
      invariant forall n :: n in names <==> n in sorted[..k]
      invariant names != [] ==> k > 0 && names[|names| - 1] == sorted[k - 1]
      invariant k > 0 ==> names != []
      invariant SortedBy(names, NameKey, TupleLeq) && Distinct(names)
    {
      assert sorted[..k + 1] == sorted[..k] + [sorted[k]];
      if k == 0 || sorted[k] != sorted[k - 1] {
        forall i | 0 <= i < |names| ensures TupleLeq(NameKey(names[i]), NameKey(sorted[k])) && names[i] != sorted[k] {
          LaterIsLarger(sorted, names, i, k);
        }
        names := names + [sorted[k]];
      }
    }
    assert sorted[..|sorted|] == sorted;
    forall n ensures n in sorted <==> n in all {
      InSequence(n, sorted, all);
    }
  }

  lemma LaterIsLarger(sorted: seq<string>, names: seq<string>, i: nat, k: nat)
    requires SortedBy(sorted, NameKey, TupleLeq) && 0 < k < |sorted| && i < |names|
    requires sorted[k] != sorted[k - 1] && names[i] in sorted[..k]
    ensures TupleLeq(NameKey(names[i]), NameKey(sorted[k])) && names[i] != sorted[k]
  {
    TupleLeqIsOrder();
    var j :| 0 <= j < k && sorted[j] == names[i];
    assert TupleLeq(NameKey(sorted[j]), NameKey(sorted[k]));
    assert TupleLeq(NameKey(sorted[k - 1]), NameKey(sorted[k]));
    assert j < k - 1 ==> TupleLeq(NameKey(sorted[j]), NameKey(sorted[k - 1]));
    assert NameKey(sorted[k])[0] != NameKey(sorted[k - 1])[0];
  }

  /** The overall status, from the statuses of the clusters alone. */
  ghost function Overall(statuses: set<Status>): Status {
    if statuses == {} || statuses == {DOWN} then DOWN
    else if statuses == {UP} then UP
    else DEGRADED
  }

  ghost function StatusesOf(snapshot: Snapshot, tolerance: int, maxStale: int, now: int): set<Status> {
    set n | n in Names(snapshot) :: Deserved(snapshot, n, tolerance, maxStale, now)
  }

  /** The statuses so far: how many are DOWN, and whether all are UP. */
  ghost predicate Counted(report: seq<(string, Status)>, overall: Status, downCount: int) {
    && overall != DOWN && 0 <= downCount <= |report|
    && (downCount == |report| <==> forall i :: 0 <= i < |report| ==> report[i].1 == DOWN)
    && (overall == UP <==> forall i :: 0 <= i < |report| ==> report[i].1 == UP)
  }

  lemma CountedStep(report: seq<(string, Status)>, overall: Status, downCount: int, name: string, status: Status)
    requires Counted(report, overall, downCount)
    ensures Counted(report + [(name, status)], if status == UP then overall else DEGRADED,
                    if status == DOWN then downCount + 1 else downCount)
  {
    var longer := report + [(name, status)];
    assert forall i :: 0 <= i < |report| ==> longer[i] == report[i];
    assert longer[|report|].1 == status;
  }

  /** The first names, each with its status. */
  ghost predicate Judged(report: seq<(string, Status)>, names: seq<string>, status: string -> Status) {
    |report| <= |names| && forall i :: 0 <= i < |report| ==> report[i] == (names[i], status(names[i]))
  }

  lemma JudgedStep(report: seq<(string, Status)>, names: seq<string>, status: string -> Status)
    requires Judged(report, names, status) && |report| < |names|
    ensures Judged(report + [(names[|report|], status(names[|report|]))], names, status)
  {
  }

  ghost function StatusOf(snapshot: Snapshot, tolerance: int, maxStale: int, now: int): string -> Status {
    (n: string) => Deserved(snapshot, n, tolerance, maxStale, now)
  }

  /** The loop of `Evaluate` over a non-empty list of names. */
  method Tally(names: seq<string>, snapshot: Snapshot, tolerance: int, maxStale: int, now: int)
    returns (overall: Status, report: seq<(string, Status)>)
    requires names != []
    ensures |report| == |names| && Judged(report, names, StatusOf(snapshot, tolerance, maxStale, now))
    ensures overall == UP <==> forall i :: 0 <= i < |report| ==> report[i].1 == UP
    ensures overall == DOWN <==> forall i :: 0 <= i < |report| ==> report[i].1 == DOWN
  {
    report := [];
    overall := UP;
    var downCount := 0;
    for k := 0 to |names|
      invariant |report| == k && Counted(report, overall, downCount)
      invariant Judged(report, names, StatusOf(snapshot, tolerance, maxStale, now))
    {
      var status, newest := EvaluateCluster(names[k], snapshot, tolerance, maxStale, now);
      CountedStep(report, overall, downCount, names[k], status);
      JudgedStep(report, names, StatusOf(snapshot, tolerance, maxStale, now));
      report := report + [(names[k], status)];
      if status == DEGRADED && overall == UP {
        overall := DEGRADED;
      }
      if status == DOWN {
        downCount := downCount + 1;
        overall := DEGRADED;
      }
    }
    if downCount == |names| {
      assert report[0].1 == DOWN;
      overall := DOWN;
    }
  }

  /** `Evaluate`: every cluster is reported once, in order, with its own status, and the
      overall status is UP iff there are clusters and all are UP, DOWN iff none or all DOWN. */
  method Evaluate(snapshot: Snapshot, tolerance: int, maxStale: int, now: int)
    returns (overall: Status, report: seq<(string, Status)>)
    ensures overall == Overall(StatusesOf(snapshot, tolerance, maxStale, now))
    ensures Reports(report, snapshot, tolerance, maxStale, now)
  {
    var names := CollectNames(snapshot);
    if names == [] {
      assert forall n :: n in Names(snapshot) ==> n in names;
      assert Names(snapshot) == {};
      assert StatusesOf(snapshot, tolerance, maxStale, now) == {};
      return DOWN, [];
    }
    overall, report := Tally(names, snapshot, tolerance, maxStale, now);
    forall i, j | 0 <= i < j < |report| ensures TupleLeq(NameKey(report[i].0), NameKey(report[j].0)) {
      assert TupleLeq(NameKey(names[i]), NameKey(names[j]));
    }
    assert forall i :: 0 <= i < |names| ==> names[i] in Names(snapshot);
    forall n | n in Names(snapshot) ensures exists i :: 0 <= i < |report| && report[i].0 == n {
      assert n in names;
      var i :| 0 <= i < |names| && names[i] == n;
      assert report[i].0 == n;
    }
    ReportGivesOverall(overall, report, snapshot, tolerance, maxStale, now);
  }

  /** Each cluster once, in ascending order, with the status it deserves. */
  ghost predicate Reports(report: seq<(string, Status)>, snapshot: Snapshot, tolerance: int, maxStale: int, now: int) {
    && (forall i, j :: 0 <= i < j < |report| ==>
          report[i].0 != report[j].0 && TupleLeq(NameKey(report[i].0), NameKey(report[j].0)))
    && (forall i :: 0 <= i < |report| ==>
          report[i].0 in Names(snapshot) && report[i].1 == Deserved(snapshot, report[i].0, tolerance, maxStale, now))
    && (forall n :: n in Names(snapshot) ==> exists i :: 0 <= i < |report| && report[i].0 == n)
  }

  lemma ReportGivesOverall(overall: Status, report: seq<(string, Status)>, snapshot: Snapshot, tolerance: int,
                           maxStale: int, now: int)
    requires report != [] && Reports(report, snapshot, tolerance, maxStale, now)
    requires overall == UP <==> forall i :: 0 <= i < |report| ==> report[i].1 == UP
    requires overall == DOWN <==> forall i :: 0 <= i < |report| ==> report[i].1 == DOWN
    ensures overall == Overall(StatusesOf(snapshot, tolerance, maxStale, now))
  {
    assert report[0].0 in Names(snapshot);
    Uniform(snapshot, tolerance, maxStale, now, UP);
    Uniform(snapshot, tolerance, maxStale, now, DOWN);
    ReportedStatus(report, snapshot, tolerance, maxStale, now, UP);
    ReportedStatus(report, snapshot, tolerance, maxStale, now, DOWN);
  }

  lemma ReportedStatus(report: seq<(string, Status)>, snapshot: Snapshot, tolerance: int, maxStale: int, now: int,
                       s: Status)
    requires Reports(report, snapshot, tolerance, maxStale, now)
    ensures (forall i :: 0 <= i < |report| ==> report[i].1 == s)
       <==> forall n :: n in Names(snapshot) ==> Deserved(snapshot, n, tolerance, maxStale, now) == s
  {
    if forall i :: 0 <= i < |report| ==> report[i].1 == s {
      forall n | n in Names(snapshot) ensures Deserved(snapshot, n, tolerance, maxStale, now) == s {
        var i :| 0 <= i < |report| && report[i].0 == n;
      }
    }
  }

  // ---------- the metrics side ----------

  /** `domainFresh`: the first state of the collector decides; none at all counts as fresh. */
  method DomainFresh(states: seq<CollectorState>, cluster: string, collector: string, maxStale: int, now: int)
    returns (isFresh: bool)
    ensures isFresh <==> Fresh(states, cluster, collector, maxStale, now)
  {
    for k := 0 to |states|
      invariant forall i :: 0 <= i < k ==> !(states[i].cluster == cluster && states[i].collector == collector)
    {
      if states[k].cluster != cluster || states[k].collector != collector {
        continue;
      }
      if states[k].lastSuccessAt == ZERO_TIME {
        return false;
      }
      return maxStale <= 0 || Since(now, states[k].lastSuccessAt) <= maxStale;
    }
    isFresh := true;
  }

  ghost predicate IsFirst(states: seq<CollectorState>, cluster: string, collector: string, i: nat) {
    && i < |states| && states[i].cluster == cluster && states[i].collector == collector
    && forall j: nat :: j < i ==> !(states[j].cluster == cluster && states[j].collector == collector)
  }

  ghost predicate Fresh(states: seq<CollectorState>, cluster: string, collector: string, maxStale: int, now: int) {
    forall i: nat :: IsFirst(states, cluster, collector, i) ==>
      && states[i].lastSuccessAt != ZERO_TIME
      && (maxStale <= 0 || Since(now, states[i].lastSuccessAt) <= maxStale)
  }

  /** The first state of the pair decides: it has a success, and without a limit that is enough. */
  lemma FirstStateDecides(states: seq<CollectorState>, i: nat, maxStale: int, now: int)
    requires i < |states|
    requires forall j :: 0 <= j < i ==>
               states[j].cluster != states[i].cluster || states[j].collector != states[i].collector
    ensures Fresh(states, states[i].cluster, states[i].collector, maxStale, now)
       <==> states[i].lastSuccessAt != 0 && (maxStale > 0 ==> Since(now, states[i].lastSuccessAt) <= maxStale)
  {
    assert IsFirst(states, states[i].cluster, states[i].collector, i);
  }

  lemma MissingStateIsFresh(states: seq<CollectorState>, cluster: string, collector: string, maxStale: int, now: int)
    requires forall s :: s in states ==> s.cluster != cluster || s.collector != collector
    ensures Fresh(states, cluster, collector, maxStale, now)
  {
  }

  ghost predicate OneStateEach(states: seq<CollectorState>) {
    forall i: nat, j: nat :: i < j < |states| ==>
      !(states[i].cluster == states[j].cluster && states[i].collector == states[j].collector)
  }

  ghost predicate HasState(states: seq<CollectorState>, cluster: string, collector: string) {
    exists i: nat :: i < |states| && states[i].cluster == cluster && states[i].collector == collector
  }

  ghost predicate Exported(states: seq<CollectorState>, cluster: string, collector: string, maxStale: int, now: int) {
    HasState(states, cluster, collector) && Fresh(states, cluster, collector, maxStale, now)
  }

  /** With one state for each pair, a state is the first of its pair. */
  lemma OnlyIsFirst(states: seq<CollectorState>, i: nat)
    requires OneStateEach(states) && i < |states|
    ensures IsFirst(states, states[i].cluster, states[i].collector, i)
    ensures forall j: nat :: IsFirst(states, states[i].cluster, states[i].collector, j) ==> j == i
  {
  }

  lemma ReportedIsExported(snapshot: Snapshot, cluster: string, maxStale: int, now: int, c: string)
    requires OneStateEach(snapshot.states) && c in REQUIRED
    requires Initialized(snapshot, cluster) && !OlderThan(snapshot, cluster, maxStale, now)
    ensures Exported(snapshot.states, cluster, c, maxStale, now)
  {
    var i: nat :| Success(snapshot, cluster, i) && snapshot.states[i].collector == c;
    OnlyIsFirst(snapshot.states, i);
  }

  lemma ExportedIsReported(snapshot: Snapshot, cluster: string, maxStale: int, now: int)
    requires OneStateEach(snapshot.states) && maxStale > 0
    requires forall c :: c in REQUIRED ==> Exported(snapshot.states, cluster, c, maxStale, now)
    ensures Initialized(snapshot, cluster) && !OlderThan(snapshot, cluster, maxStale, now)
  {
    var states := snapshot.states;
    forall c | c in REQUIRED ensures exists i: nat :: Success(snapshot, cluster, i) && states[i].collector == c {
      assert Exported(states, cluster, c, maxStale, now);
      var i: nat :| i < |states| && states[i].cluster == cluster && states[i].collector == c;
      OnlyIsFirst(states, i);
      assert Success(snapshot, cluster, i);
    }
    forall i: nat | Success(snapshot, cluster, i) ensures Since(now, states[i].lastSuccessAt) <= maxStale {
      assert Exported(states, cluster, states[i].collector, maxStale, now);
      OnlyIsFirst(states, i);
    }
  }

  /** The two readers agree exactly: a cluster is DOWN iff one of its four required domains
      has no state yet or is not fresh. In particular a cluster that is not DOWN exports all four. */
  lemma ReadersAgree(snapshot: Snapshot, cluster: string, tolerance: int, maxStale: int, now: int)
    requires OneStateEach(snapshot.states) && maxStale > 0
    ensures Deserved(snapshot, cluster, tolerance, maxStale, now) != DOWN
       <==> forall c :: c in REQUIRED ==> Exported(snapshot.states, cluster, c, maxStale, now)
  {
    if Deserved(snapshot, cluster, tolerance, maxStale, now) != DOWN {
      forall c | c in REQUIRED ensures Exported(snapshot.states, cluster, c, maxStale, now) {
        ReportedIsExported(snapshot, cluster, maxStale, now, c);
      }
    }
    if forall c :: c in REQUIRED ==> Exported(snapshot.states, cluster, c, maxStale, now) {
      ExportedIsReported(snapshot, cluster, maxStale, now);
    }
  }

  // ---------- ageing ----------

  lemma OlderStaysOlder(snapshot: Snapshot, cluster: string, limit: int, now: int, later: int)
    requires now <= later && OlderThan(snapshot, cluster, limit, now)
    ensures OlderThan(snapshot, cluster, limit, later)
  {
    var i: nat :| Success(snapshot, cluster, i) && Since(now, snapshot.states[i].lastSuccessAt) > limit;
    assert Since(later, snapshot.states[i].lastSuccessAt) >= Since(now, snapshot.states[i].lastSuccessAt);
  }

  /** Without new data a cluster never looks better at a later time. */
  lemma ClusterOnlyAges(snapshot: Snapshot, cluster: string, tolerance: int, maxStale: int, now: int, later: int)
    requires now <= later
    ensures Severity(Deserved(snapshot, cluster, tolerance, maxStale, now))
         <= Severity(Deserved(snapshot, cluster, tolerance, maxStale, later))
  {
    if OlderThan(snapshot, cluster, maxStale, now) { OlderStaysOlder(snapshot, cluster, maxStale, now, later); }
    if OlderThan(snapshot, cluster, tolerance, now) { OlderStaysOlder(snapshot, cluster, tolerance, now, later); }
  }

  /** If every cluster has the worst (or best) status, the set of statuses is that one. */
  lemma Uniform(snapshot: Snapshot, tolerance: int, maxStale: int, now: int, status: Status)
    requires Names(snapshot) != {}
    ensures StatusesOf(snapshot, tolerance, maxStale, now) != {}
    ensures StatusesOf(snapshot, tolerance, maxStale, now) == {status}
       <==> forall n :: n in Names(snapshot) ==> Deserved(snapshot, n, tolerance, maxStale, now) == status
  {
    var deserved := (n: string) => Deserved(snapshot, n, tolerance, maxStale, now);
    assert StatusesOf(snapshot, tolerance, maxStale, now) == set n | n in Names(snapshot) :: deserved(n);
    UniformImage(Names(snapshot), deserved, status);
    assert forall n :: deserved(n) == Deserved(snapshot, n, tolerance, maxStale, now);
  }

  lemma UniformImage(names: set<string>, f: string -> Status, status: Status)
    requires names != {}
    ensures (set n | n in names :: f(n)) != {}
    ensures (set n | n in names :: f(n)) == {status} <==> forall n :: n in names ==> f(n) == status
  {
    var image := set n | n in names :: f(n);
    assert forall n :: n in names ==> f(n) in image;
    var n :| n in names;
    assert f(n) in image;
  }

  /** The overall status in terms of the clusters' own. */
  lemma OverallMeans(snapshot: Snapshot, tolerance: int, maxStale: int, now: int)
    ensures var overall := Overall(StatusesOf(snapshot, tolerance, maxStale, now));
            && (overall == UP <==> Names(snapshot) != {} && AllAre(snapshot, tolerance, maxStale, now, UP))
            && (overall == DOWN <==> AllAre(snapshot, tolerance, maxStale, now, DOWN))
  {
    if Names(snapshot) == {} {
      assert StatusesOf(snapshot, tolerance, maxStale, now) == {};
    } else {
      Uniform(snapshot, tolerance, maxStale, now, DOWN);
      Uniform(snapshot, tolerance, maxStale, now, UP);
    }
  }

  ghost predicate AllAre(snapshot: Snapshot, tolerance: int, maxStale: int, now: int, status: Status) {
    forall n :: n in Names(snapshot) ==> Deserved(snapshot, n, tolerance, maxStale, now) == status
  }

  lemma UpEarlier(snapshot: Snapshot, tolerance: int, maxStale: int, now: int, later: int)
    requires now <= later && AllAre(snapshot, tolerance, maxStale, later, UP)
    ensures AllAre(snapshot, tolerance, maxStale, now, UP)
  {
    forall n | n in Names(snapshot) ensures Deserved(snapshot, n, tolerance, maxStale, now) == UP {
      ClusterOnlyAges(snapshot, n, tolerance, maxStale, now, later);
    }
  }

  lemma DownLater(snapshot: Snapshot, tolerance: int, maxStale: int, now: int, later: int)
    requires now <= later && AllAre(snapshot, tolerance, maxStale, now, DOWN)
    ensures AllAre(snapshot, tolerance, maxStale, later, DOWN)
  {
    forall n | n in Names(snapshot) ensures Deserved(snapshot, n, tolerance, maxStale, later) == DOWN {
      ClusterOnlyAges(snapshot, n, tolerance, maxStale, now, later);
    }
  }

  /** Nor does the whole report. */
  lemma ReportOnlyAges(snapshot: Snapshot, tolerance: int, maxStale: int, now: int, later: int)
    requires now <= later
    ensures Severity(Overall(StatusesOf(snapshot, tolerance, maxStale, now)))
         <= Severity(Overall(StatusesOf(snapshot, tolerance, maxStale, later)))
  {
    OverallMeans(snapshot, tolerance, maxStale, now);
    OverallMeans(snapshot, tolerance, maxStale, later);
    if AllAre(snapshot, tolerance, maxStale, later, UP) { UpEarlier(snapshot, tolerance, maxStale, now, later); }
    if AllAre(snapshot, tolerance, maxStale, now, DOWN) { DownLater(snapshot, tolerance, maxStale, now, later); }
  }

  /** A domain that is not exported now is not exported later without new data. */
  lemma StaleStaysStale(states: seq<CollectorState>, cluster: string, collector: string, maxStale: int, now: int,
                        later: int)
    requires now <= later && !Fresh(states, cluster, collector, maxStale, now)
    ensures !Fresh(states, cluster, collector, maxStale, later)
  {
    var i: nat :| IsFirst(states, cluster, collector, i)
                  && !(states[i].lastSuccessAt != ZERO_TIME
                       && (maxStale <= 0 || Since(now, states[i].lastSuccessAt) <= maxStale));
    assert Since(later, states[i].lastSuccessAt) >= Since(now, states[i].lastSuccessAt);
  }
}
