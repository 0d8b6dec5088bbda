/**
 Why an inventory collection has to begin after bootstrap: exactly when one that begins earlier
 can bring back resources that are no longer stored.
 */
module EarlyInventories {
  import opened Common
  import opened NodeReadings
  import opened NodeDomain
  import opened NodeMachine
  import opened Continuations
  import opened SingleRows
  import EarlyTurns

  /** Some continuation of the collection ends with a replacement that does not keep the resources
      stored at that moment. */
  ghost predicate CanMixUp(r: Runner, w: World, begin: Action) {
    exists path :: Ongoing(r, w, begin, path) && EndsInMixUp(r, path)
  }

  ghost predicate EndsInMixUp(r: Runner, path: seq<World>) {
    && path != [] && path[|path| - 1].turn.Resolved?
    && var last := path[|path| - 1];
       !KeepsResources(last.own.nodes, Apply(r, last, Replace).own.nodes)
  }

  /** What can be checked before the collection begins: bootstrap has still to write its nodes, and some
      node of the inventory has resources stored. */
  ghost predicate Overtaken(w: World, raws: seq<RawNode>) {
    w.boot.Published? && exists o :: o in w.own.nodes && o.id in Ids(raws) && o.resource != EMPTY
  }

  // ---------- only then ----------

  /** The store is as it was when the collection began, or bootstrap has written it since. */
  ghost predicate SameOrBooted(start: World, w: World) {
    || (w.own.nodes == start.own.nodes && w.boot == start.boot)
    || (start.boot.Published? && w.boot.Idle? && w.own.nodes == start.boot.nodes)
  }

  /** The list in hand was carried over from what is stored, or from what was stored at the beginning. */
  ghost predicate CarriedFromEither(r: Runner, start: World, w: World, job: Job, nodes: seq<Node>) {
    nodes == Carried(r, job, w.own.nodes) || nodes == Carried(r, job, start.own.nodes)
  }

  /** What holds all along the collection of this job. */
  ghost predicate Bound(r: Runner, start: World, job: Job, w: World) {
    && w.own.resolution.Some? && SameOrBooted(start, w)
    && match w.turn
       case Listed(j) => j == job
       case Prepared(j, nodes) => j == job && CarriedFromEither(r, start, w, job, nodes)
       case Resolved(j, nodes) => j == job && CarriedFromEither(r, start, w, job, nodes)
       case _ => false
  }

  lemma StepKeepsBound(r: Runner, start: World, job: Job, w: World, a: Action)
    requires StoreOk(r, w) && Bound(r, start, job, w) && CanStep(r, w, a) && !Apply(r, w, a).turn.Free?
    requires Newly(job.nodes, r.cluster)
    ensures Bound(r, start, job, Apply(r, w, a))
  {
    if a.Carry? {
      SnapshotIsWellFormed(r, w, a.snapshot);
      CarriedIsOwn(r, job, a.snapshot, w.own.nodes);
    }
  }

  lemma {:induction false} BoundAlong(r: Runner, w: World, begin: Action, job: Job, path: seq<World>, k: nat)
    requires StoreOk(r, w) && Ongoing(r, w, begin, path) && k < |path|
    requires begin.Begin? && job == JobOf(r, begin.raws, begin.now, begin.statuses) && Newly(job.nodes, r.cluster)
    ensures StoreOk(r, path[k]) && Bound(r, w, job, path[k])
  {
    if k == 0 {
      StepKeepsStore(r, w, begin);
    } else {
      BoundAlong(r, w, begin, job, path, k - 1);
      BoundNext(r, w, begin, job, path, k - 1);
    }
  }

  lemma BoundNext(r: Runner, w: World, begin: Action, job: Job, path: seq<World>, k: nat)
    requires Ongoing(r, w, begin, path) && k + 1 < |path| && Newly(job.nodes, r.cluster)
    requires StoreOk(r, path[k]) && Bound(r, w, job, path[k])
    ensures StoreOk(r, path[k + 1]) && Bound(r, w, job, path[k + 1])
  {
    var a := PathStep(r, w, begin, path, k);
    StepKeepsStore(r, path[k], a);
    StepKeepsBound(r, w, job, path[k], a);
  }

  ghost predicate AllEmpty(nodes: seq<Node>) {
    forall n :: n in nodes ==> n.resource == EMPTY
  }

  lemma NewIsEmpty(nodes: seq<Node>, cluster: string)
    requires Newly(nodes, cluster)
    ensures AllEmpty(nodes)
  {
    forall n | n in nodes ensures n.resource == EMPTY {
      var i :| 0 <= i < |nodes| && nodes[i] == n;
    }
  }

  /** Over a store without resources a list keeps what is stored exactly when it has none either. */
  lemma KeepsNothing(stored: seq<Node>, nodes: seq<Node>)
    requires AllEmpty(stored)
    ensures KeepsResources(stored, nodes) <==> AllEmpty(nodes)
  {
    if KeepsResources(stored, nodes) {
      forall n | n in nodes ensures n.resource == EMPTY {
        if exists o :: o in stored && o.id == n.id {
          var o :| o in stored && o.id == n.id;
        }
      }
    }
  }

  /** A list that keeps what is stored has resources exactly when one of its ids had some. */
  lemma KeepsSome(stored: seq<Node>, nodes: seq<Node>)
    requires KeepsResources(stored, nodes)
    ensures AllEmpty(nodes) <==> forall o :: o in stored && o.id in IdSet(nodes) ==> o.resource == EMPTY
  {
    if AllEmpty(nodes) {
      forall o | o in stored && o.id in IdSet(nodes) ensures o.resource == EMPTY {
        var n :| n in nodes && n.id == o.id;
      }
    }
    if forall o :: o in stored && o.id in IdSet(nodes) ==> o.resource == EMPTY {
      forall n | n in nodes ensures n.resource == EMPTY {
        if exists o :: o in stored && o.id == n.id {
          var o :| o in stored && o.id == n.id;
        }
      }
    }
  }

  lemma CarriesSome(r: Runner, job: Job, stored: seq<Node>)
    requires Newly(job.nodes, r.cluster) && Proper(stored, r.cluster)
    ensures AllEmpty(Carried(r, job, stored))
       <==> forall o :: o in stored && o.id in IdSet(job.nodes) ==> o.resource == EMPTY
  {
    CarryingKeeps(r, job, stored);
    CarriedIds(r, job, stored);
    KeepsSome(stored, Carried(r, job, stored));
  }

  /** The end of a collection during which bootstrap has written, at the moment of its replacement. */
  lemma MixedUpOrNot(r: Runner, w: World, job: Job, raws: seq<RawNode>, stored: seq<Node>, nodes: seq<Node>)
    requires Newly(job.nodes, r.cluster) && Proper(w.own.nodes, r.cluster) && IdSet(job.nodes) == Ids(raws)
    requires w.boot.Published? && Newly(stored, r.cluster) && nodes == Carried(r, job, w.own.nodes)
    ensures KeepsResources(stored, nodes) <==> !Overtaken(w, raws)
  {
    NewIsEmpty(stored, r.cluster);
    KeepsNothing(stored, nodes);
    CarriesSome(r, job, w.own.nodes);
  }

  lemma JobIsNew(r: Runner, raws: seq<RawNode>, now: int, statuses: map<string, Status>)
    requires Usable(r, raws)
    ensures Newly(JobOf(r, raws, now, statuses).nodes, r.cluster)
    ensures IdSet(JobOf(r, raws, now, statuses).nodes) == Ids(raws)
  {
    InventoryIsNew(r, raws, now);
    InventoryIds(raws, r.cluster, now);
  }

  lemma OnlyOvertaken(r: Runner, w: World, begin: Action, path: seq<World>)
    requires StoreOk(r, w) && begin.Begin? && Ongoing(r, w, begin, path) && EndsInMixUp(r, path)
    ensures Overtaken(w, begin.raws)
  {
    var job, last := JobOf(r, begin.raws, begin.now, begin.statuses), path[|path| - 1];
    JobIsNew(r, begin.raws, begin.now, begin.statuses);
    BoundAlong(r, w, begin, job, path, |path| - 1);
    MixUpMeans(r, w, job, begin.raws, last);
  }

  lemma MixUpMeans(r: Runner, w: World, job: Job, raws: seq<RawNode>, last: World)
    requires StoreOk(r, w) && StoreOk(r, last) && Newly(job.nodes, r.cluster) && IdSet(job.nodes) == Ids(raws)
    requires Bound(r, w, job, last) && last.turn.Resolved?
    requires !KeepsResources(last.own.nodes, Apply(r, last, Replace).own.nodes)
    ensures Overtaken(w, raws)
  {
    assert Apply(r, last, Replace).own.nodes == last.turn.nodes;
    CarryingKeeps(r, job, last.own.nodes);
    assert last.turn.nodes == Carried(r, job, w.own.nodes) && last.own.nodes != w.own.nodes;
    assert last.own.nodes == w.boot.nodes;
    MixedUpOrNot(r, w, job, raws, last.own.nodes, last.turn.nodes);
  }

  // ---------- and then ----------

  /** The list in hand after the snapshot was read. */
  lemma ReachesResolve(r: Runner, w: World, begin: Action, job: Job) returns (path: seq<World>)
    requires StoreOk(r, w) && begin.Begin? && CanStep(r, w, begin)
    requires job == JobOf(r, begin.raws, begin.now, begin.statuses) && Newly(job.nodes, r.cluster)
    ensures Ongoing(r, w, begin, path)
    ensures var last := path[|path| - 1];
            last.turn == Resolved(job, Carried(r, job, w.own.nodes)) && last.boot == w.boot
  {
    path := [Apply(r, w, begin)];
    var snapshot := SnapshotExists(r, w);
    SnapshotIsWellFormed(r, w, snapshot);
    CarriedIsOwn(r, job, snapshot, w.own.nodes);
    path := Onward(r, w, begin, path, Carry(snapshot));
    path := Onward(r, w, begin, path, Resolve);
  }

  /** Bootstrap writes between the reading of the snapshot and the replacement. */
  lemma MixingUp(r: Runner, w: World, begin: Action) returns (path: seq<World>)
    requires StoreOk(r, w) && begin.Begin? && CanStep(r, w, begin) && Overtaken(w, begin.raws)
    ensures Ongoing(r, w, begin, path) && EndsInMixUp(r, path)
  {
    var job := JobOf(r, begin.raws, begin.now, begin.statuses);
    JobIsNew(r, begin.raws, begin.now, begin.statuses);
    path := ReachesResolve(r, w, begin, job);
    MixedUpOrNot(r, w, job, begin.raws, w.boot.nodes, Carried(r, job, w.own.nodes));
    path := Overtaking(r, w, begin, path);
  }

  lemma Overtaking(r: Runner, w: World, begin: Action, path: seq<World>) returns (longer: seq<World>)
    requires Ongoing(r, w, begin, path) && path[|path| - 1].turn.Resolved? && path[|path| - 1].boot.Published?
    requires !KeepsResources(path[|path| - 1].boot.nodes, path[|path| - 1].turn.nodes)
    ensures Ongoing(r, w, begin, longer) && EndsInMixUp(r, longer)
  {
    longer := Onward(r, w, begin, path, BootReplace);
  }

  /** In every reachable world an inventory collection about to begin can mix up resources, in some
      continuation, exactly when bootstrap is about to overtake it. In particular it never can once
      bootstrap has completed. */
  lemma MixesUpIffOvertaken(r: Runner, worlds: seq<World>, begin: Action)
    requires ReachedBefore(r, worlds, begin) && begin.Begin?
    ensures CanMixUp(r, worlds[|worlds| - 1], begin) <==> Overtaken(worlds[|worlds| - 1], begin.raws)
  {
    var w := worlds[|worlds| - 1];
    StoreOkInRuns(r, worlds);
    if CanMixUp(r, w, begin) {
      var path :| Ongoing(r, w, begin, path) && EndsInMixUp(r, path);
      OnlyOvertaken(r, w, begin, path);
    }
    if Overtaken(w, begin.raws) {
      var path := MixingUp(r, w, begin);
    }
  }

  // ---------- such a beginning is reached ----------

  /** An accepted answer followed by empty ones. */
  lemma {:induction false} OneThenBlanks(first: Records, k: nat)
    requires AllMergeable(map[], first) && Merged(map[], first) == first
    ensures SourcesMergeable([first] + Blanks(k)) && MergeSources([first] + Blanks(k)) == first
  {
    if k == 0 {
      OneSource(first);
      assert [first] + Blanks(0) == [first];
    } else {
      OneThenBlanks(first, k - 1);
      AnotherBlank([first] + Blanks(k - 1), first);
      assert [first] + Blanks(k - 1) + [map[]] == [first] + Blanks(k);
    }
  }

  lemma OneSource(first: Records)
    requires AllMergeable(map[], first) && Merged(map[], first) == first
    ensures SourcesMergeable([first]) && MergeSources([first]) == first
  {
    MergedLast([], first);
    assert [] + [first] == [first];
  }

  lemma AnotherBlank(sources: seq<Records>, first: Records)
    requires SourcesMergeable(sources) && MergeSources(sources) == first
    ensures SourcesMergeable(sources + [map[]]) && MergeSources(sources + [map[]]) == first
  {
    MergeNothing(first);
    MergedLast(sources, map[]);
  }

  lemma MergeNothing(first: Records)
    ensures AllMergeable(first, map[]) && Merged(first, map[]) == first
  {
  }

  lemma OneThenNothing(r: Runner, policy: Policy, p: Payload, first: Records, k: nat)
    requires 1 <= policy.maxInterfaces <= 128 && Parsed(r.rd, policy, p, first)
    requires AllMergeable(map[], first) && Merged(map[], first) == first
    ensures Gathers(r.rd, policy, [p] + Empties(k), [first] + Blanks(k))
  {
    NothingGathered(r, policy, k);
    OneThenBlanks(first, k);
  }

  /** With one legible row about a stored node, a resource collection stores what the row says. */
  lemma CollectsMemory(r: Runner, worlds: seq<World>, c: Cells, number: real) returns (longer: seq<World>)
    requires ReachedBefore(r, worlds, Start) && 1 <= r.policy.maxInterfaces <= 128
    requires Legible(r.rd, c, number) && IsAbout(r.rd, r.policy, c, MemUsed)
    requires worlds[|worlds| - 1].own.resolution.Some?
    requires GroupsFor(r, worlds[|worlds| - 1].own.resolution.value).cpuMemory
    requires c.node in IdSet(worlds[|worlds| - 1].own.nodes)
    ensures IsRun(r, longer)
    ensures var w, w' := worlds[|worlds| - 1], longer[|longer| - 1];
            && w'.turn.Free? && w'.boot == w.boot && w'.own.resolution == w.own.resolution
            && exists o :: o in w'.own.nodes && o.id == c.node && o.resource != EMPTY
  {
    var w := worlds[|worlds| - 1];
    var groups := GroupsFor(r, w.own.resolution.value);
    var first, k := OnlyAbout(c.node, MemUsed, number), QueryCount(groups) - 1;
    OneRowParses(r.rd, PolicyFor(r, groups), c, MemUsed, number);
    MergeFirst(c.node, MemUsed, number);
    OneThenNothing(r, PolicyFor(r, groups), OneRow(c), first, k);
    OneThenBlanks(first, k);
    var path := ReachesGathered(r, w, [OneRow(c)] + Empties(k), [first] + Blanks(k));
    RunGoesOn(r, worlds, Start, path);
    longer := FillsAndReplaces(r, worlds + path, groups, first, c.node);
  }

  lemma FillsAndReplaces(r: Runner, worlds: seq<World>, groups: Groups, resources: Records, node: string)
    returns (longer: seq<World>)
    requires IsRun(r, worlds) && worlds[|worlds| - 1].turn == Gathered(groups, resources) && groups.cpuMemory
    requires node in IdSet(worlds[|worlds| - 1].own.nodes)
    requires node in resources && resources[node].memUsed.Some?
    ensures IsRun(r, longer)
    ensures var w, w' := worlds[|worlds| - 1], longer[|longer| - 1];
            && w'.turn.Free? && w'.boot == w.boot && w'.own.resolution == w.own.resolution
            && exists o :: o in w'.own.nodes && o.id == node && o.resource != EMPTY
  {
    var w := worlds[|worlds| - 1];
    StoreOkInRuns(r, worlds);
    var snapshot := SnapshotExists(r, w);
    SnapshotHasOwn(r, w, snapshot);
    FilledHas(r, w, snapshot, groups, resources, node);
    longer := Extended(r, worlds, Fill(snapshot));
    longer := Extended(r, longer, ReplaceResources);
  }

  lemma FilledHas(r: Runner, w: World, snapshot: seq<Node>, groups: Groups, resources: Records, node: string)
    requires StoreOk(r, w) && IsSnapshot(snapshot, w) && groups.cpuMemory
    requires node in IdSet(w.own.nodes) && node in resources && resources[node].memUsed.Some?
    ensures exists o :: o in Map(OwnNodes(snapshot, r.cluster), Refreshed(resources, groups))
                        && o.id == node && o.resource != EMPTY
  {
    var f := Refreshed(resources, groups);
    SnapshotIsWellFormed(r, w, snapshot);
    FilledIsOwn(r, snapshot, w.own.nodes, resources, groups);
    var n :| n in w.own.nodes && n.id == node;
    assert Originates(w.own.nodes, resources, groups, f(n));
    assert f(n).id == node && f(n).resource.memUsed.Some?;
  }

  /** Such a beginning is reached: between the two publications of bootstrap an inventory has been
      collected, and then resources, of which a legible row tells for one of its nodes. */
  lemma EarlyInventoryCanMixUp(r: Runner, many: seq<RawNode>, few: seq<RawNode>, now: int, c: Cells, number: real)
    requires 1 <= r.policy.maxInterfaces <= 128 && Usable(r, many) && Usable(r, few)
    requires Legible(r.rd, c, number) && IsAbout(r.rd, r.policy, c, MemUsed) && c.node in Ids(few)
    requires GroupsFor(r, ResolutionOf(r, few)).cpuMemory
    ensures var begin := Begin(few, now, map[]);
            exists worlds :: ReachedBefore(r, worlds, begin) && CanMixUp(r, worlds[|worlds| - 1], begin)
  {
    var begin := Begin(few, now, map[]);
    var window := EarlyTurns.ReachesWindow(r, many, few, now);
    CarriedIds(r, JobOf(r, few, now, map[]), []);
    InventoryIds(few, r.cluster, now);
    var worlds := CollectsMemory(r, window, c, number);
    assert ReachedBefore(r, worlds, begin);
    MixesUpIffOvertaken(r, worlds, begin);
  }
}
