/**
 The resolution in force and the inventory it comes from: over every run it is the meet over the
 profiles of the inventory whose resolution was published last, and when that inventory is the
 stored one nothing is collected that some stored node's own version does not support.
 */
module InForce {
  import opened NodeDomain
  import opened NodeMachine
  import Catalog
  import EarlyTurns

  function Versions(nodes: seq<Node>): set<string> {
    set n | n in nodes :: n.version
  }

  /** The resolution is the one of these nodes' versions, each of which is supported. */
  ghost predicate Backs(r: Runner, nodes: seq<Node>, resolution: Catalog.Resolution) {
    && nodes != [] && (forall n :: n in nodes ==> Catalog.Supported(r.catalog, n.version))
    && Catalog.Selected(r.catalog, Versions(nodes)) != []
    && resolution == Catalog.Resolved(r.catalog, Versions(nodes))
  }

  // ---------- where the resolution comes from ----------

  lemma InventoryVersions(raws: seq<RawNode>, cluster: string, now: int)
    ensures Versions(Inventoried(raws, cluster, now)) == Catalog.Elements(RawVersions(raws))
  {
    var nodes, versions := Inventoried(raws, cluster, now), RawVersions(raws);
    forall v ensures v in Versions(nodes) <==> v in versions {
      if v in Versions(nodes) {
        var i :| 0 <= i < |nodes| && nodes[i].version == v;
        assert versions[i] == v;
      }
      if v in versions {
        var i :| 0 <= i < |versions| && versions[i] == v;
        assert nodes[i] in nodes;
      }
    }
  }

  lemma UsableBacks(r: Runner, raws: seq<RawNode>, now: int)
    requires Usable(r, raws)
    ensures Backs(r, Inventoried(raws, r.cluster, now), ResolutionOf(r, raws))
  {
    var nodes := Inventoried(raws, r.cluster, now);
    InventoryVersions(raws, r.cluster, now);
    Catalog.ResolvableSelects(r.catalog, RawVersions(raws));
    forall n | n in nodes ensures Catalog.Supported(r.catalog, n.version) {
      var i :| 0 <= i < |nodes| && nodes[i] == n;
      assert RawVersions(raws)[i] in RawVersions(raws);
    }
  }

  /** What is published, what is about to be, and what is in the lock holder's hands is backed. */
  ghost predicate Backed(r: Runner, w: World) {
    && (w.own.resolution.Some? <==> w.latest != [])
    && (w.own.resolution.Some? ==> Backs(r, w.latest, w.own.resolution.value))
    && (w.boot.Fetched? ==> Backs(r, w.boot.nodes, w.boot.resolution))
    && (InJob(w.turn) ==> Backs(r, w.turn.job.nodes, w.turn.job.resolution))
  }

  predicate InJob(turn: Turn) {
    turn.Listed? || turn.Prepared? || turn.Resolved?
  }

  lemma StepKeepsBacked(r: Runner, w: World, a: Action)
    requires Backed(r, w) && CanStep(r, w, a)
    ensures Backed(r, Apply(r, w, a))
  {
    if a.BootFetch? || a.Begin? { UsableBacks(r, a.raws, a.now); }
  }

  lemma {:induction false} BackedInRuns(r: Runner, worlds: seq<World>)
    requires IsRun(r, worlds)
    ensures Backed(r, worlds[|worlds| - 1])
  {
    if |worlds| > 1 {
      BackedInRuns(r, worlds[..|worlds| - 1]);
      var a := StepAt(r, worlds, |worlds| - 2);
      StepKeepsBacked(r, worlds[|worlds| - 2], a);
    }
  }

  /** In every reachable world a resolution in force is the one of the inventory published last: each
      capability is the meet over the profiles of its versions, and a mixed cluster has no
      interval rates. */
  lemma InForceIsMeet(r: Runner, worlds: seq<World>, name: string)
    requires IsRun(r, worlds) && Catalog.Loaded(r.catalog) && worlds[|worlds| - 1].own.resolution.Some?
    ensures var w := worlds[|worlds| - 1];
            && Backs(r, w.latest, w.own.resolution.value)
            && var selected := Catalog.Selected(r.catalog, Versions(w.latest));
               var m := Catalog.Lookup(w.own.resolution.value.capabilities, name);
            && (w.own.resolution.value.mixed <==> |selected| > 1)
            && (if |selected| > 1 && name == Catalog.INTERVAL_RATES then m == Catalog.Unavailable
                else Catalog.IsMeet(m, selected, name))
  {
    BackedInRuns(r, worlds);
    Catalog.ResolutionIsMeet(r.catalog, Versions(worlds[|worlds| - 1].latest), name);
  }

  // ---------- does it fit what is stored? ----------

  function Roster(nodes: seq<Node>): set<(string, string)> {
    set n | n in nodes :: (n.id, n.version)
  }

  /** The stored nodes are those that the resolution was computed from. */
  ghost predicate Fits(w: World) {
    Roster(w.own.nodes) == Roster(w.latest)
  }

  lemma SameRoster(a: seq<Node>, b: seq<Node>)
    requires |a| == |b| && forall i :: 0 <= i < |a| ==> a[i].id == b[i].id && a[i].version == b[i].version
    ensures Roster(a) == Roster(b)
  {
    forall x ensures x in Roster(a) <==> x in Roster(b) {
      if x in Roster(a) {
        var i :| 0 <= i < |a| && (a[i].id, a[i].version) == x;
        assert b[i] in b;
      }
      if x in Roster(b) {
        var i :| 0 <= i < |b| && (b[i].id, b[i].version) == x;
        assert a[i] in a;
      }
    }
  }

  lemma CarriedRoster(r: Runner, job: Job, stored: seq<Node>)
    ensures Roster(Carried(r, job, stored)) == Roster(job.nodes)
  {
    SameRoster(Carried(r, job, stored), job.nodes);
  }

  lemma FilledRoster(stored: seq<Node>, resources: Records, groups: Groups, nodes: seq<Node>)
    requires FilledFrom(stored, resources, groups, nodes)
    ensures Roster(nodes) == Roster(stored)
  {
    var f := Refreshed(resources, groups);
    forall n | n in nodes ensures (n.id, n.version) in Roster(stored) {
      assert Originates(stored, resources, groups, n);
    }
    forall o | o in stored ensures (o.id, o.version) in Roster(nodes) {
      assert Originates(stored, resources, groups, f(o));
      assert f(o) in nodes && f(o).id == o.id && f(o).version == o.version;
    }
  }

  /** What is in the lock holder's hands, and what is stored while bootstrap has still to write. */
  ghost predicate InStep(w: World) {
    && (w.own.resolution.None? ==> w.own.nodes == [] && w.latest == [])
    && (w.boot.Published? ==> w.turn.Resolved? || w.own.nodes == [] || Fits(w))
    && (w.turn.Prepared? || w.turn.Resolved? ==> Roster(w.turn.nodes) == Roster(w.turn.job.nodes))
    && (w.turn.Resolved? ==> w.latest == w.turn.job.nodes)
    && (w.turn.Filled? ==>
          || Roster(w.turn.nodes) == Roster(w.latest)
          || (!w.boot.Published? && Roster(w.turn.nodes) == Roster(w.own.nodes)))
  }

  lemma StepKeepsInStep(r: Runner, w: World, a: Action)
    requires StoreOk(r, w) && InStep(w) && CanStep(r, w, a)
    ensures InStep(Apply(r, w, a))
  {
    match a
    case Carry(snapshot) => CarriedRoster(r, w.turn.job, snapshot);
    case Fill(snapshot) =>
      SnapshotIsWellFormed(r, w, snapshot);
      FilledIsOwn(r, snapshot, w.own.nodes, w.turn.resources, w.turn.groups);
      FilledRoster(w.own.nodes, w.turn.resources, w.turn.groups, Apply(r, w, a).turn.nodes);
      SomeOwn(snapshot, r.cluster, w.own.nodes);
    case _ =>
  }

  lemma SomeOwn(snapshot: seq<Node>, cluster: string, stored: seq<Node>)
    requires OwnNodes(snapshot, cluster) != [] && forall n :: n in snapshot && n.cluster == cluster <==> n in stored
    ensures stored != []
  {
    assert OwnNodes(snapshot, cluster)[0] in OwnNodes(snapshot, cluster);
  }

  lemma {:induction false} InStepInRuns(r: Runner, worlds: seq<World>)
    requires IsRun(r, worlds)
    ensures StoreOk(r, worlds[|worlds| - 1]) && InStep(worlds[|worlds| - 1])
  {
    StoreOkInRuns(r, worlds);
    if |worlds| > 1 {
      InStepInRuns(r, worlds[..|worlds| - 1]);
      var a := StepAt(r, worlds, |worlds| - 2);
      StepKeepsInStep(r, worlds[|worlds| - 2], a);
    }
  }

  /** The replacement that ends an inventory collection always makes the two fit, and the fit is lost
      only between a publication and its write, or when bootstrap writes another inventory than the
      one that was published last; in the latter case it always is. */
  lemma FitIsLostIff(r: Runner, worlds: seq<World>, a: Action)
    requires ReachedBefore(r, worlds, a)
    ensures var w, w' := worlds[|worlds| - 1], Apply(r, worlds[|worlds| - 1], a);
            && (a.Replace? ==> Fits(w'))
            && (a.BootReplace? ==> (Fits(w') <==> Roster(w.boot.nodes) == Roster(w.latest)))
            && (Fits(w) && !Fits(w') ==> a.BootPublish? || a.Resolve? || a.BootReplace?)
  {
    InStepInRuns(r, worlds);
  }

  /** It can be lost that way: whenever an inventory is collected between the two publications of bootstrap
      and has other nodes or versions, the write of bootstrap leaves a store that the resolution does
      not come from. */
  lemma BootstrapCanMisfit(r: Runner, many: seq<RawNode>, few: seq<RawNode>, now: int)
    requires Usable(r, many) && Usable(r, few)
    requires Roster(Inventoried(many, r.cluster, now)) != Roster(Inventoried(few, r.cluster, now))
    ensures exists worlds :: ReachedBefore(r, worlds, BootReplace) && Fits(worlds[|worlds| - 1])
                             && !Fits(Apply(r, worlds[|worlds| - 1], BootReplace))
  {
    var worlds := EarlyTurns.ReachesWindow(r, many, few, now);
    CarriedRoster(r, JobOf(r, few, now, map[]), []);
    assert ReachedBefore(r, worlds, BootReplace);
    FitIsLostIff(r, worlds, BootReplace);
  }

  lemma FitGoesOn(r: Runner, w: World, a: Action)
    requires StoreOk(r, w) && InStep(w) && CanStep(r, w, a) && Bootstrapped(w) && (Fits(w) || w.turn.Resolved?)
    ensures Fits(Apply(r, w, a)) || Apply(r, w, a).turn.Resolved?
  {
  }

  /** Once bootstrap has completed and the two fit, they fit for ever, but for the moment between the
      publication and the write of a newer inventory. */
  lemma {:induction false} FitsForEver(r: Runner, worlds: seq<World>, k: nat, j: nat)
    requires IsRun(r, worlds) && k <= j < |worlds| && Bootstrapped(worlds[k]) && Fits(worlds[k])
    ensures Fits(worlds[j]) || worlds[j].turn.Resolved?
  {
    if k < j {
      FitsForEver(r, worlds, k, j - 1);
      BootstrappedLater(r, worlds, k, j - 1);
      FitsNext(r, worlds, j - 1);
    }
  }

  lemma FitsNext(r: Runner, worlds: seq<World>, k: nat)
    requires IsRun(r, worlds) && k + 1 < |worlds| && Bootstrapped(worlds[k])
    requires Fits(worlds[k]) || worlds[k].turn.Resolved?
    ensures Fits(worlds[k + 1]) || worlds[k + 1].turn.Resolved?
  {
    InStepInRuns(r, worlds[..k + 1]);
    var a := StepAt(r, worlds, k);
    FitGoesOn(r, worlds[k], a);
  }

  // ---------- what follows for every single node ----------

  /** Where the two fit, what is enabled for the cluster is enabled by the profile of every stored
      node's own version. */
  lemma EnabledForEveryNode(r: Runner, worlds: seq<World>, n: Node, name: string)
    requires IsRun(r, worlds) && Catalog.Loaded(r.catalog) && Fits(worlds[|worlds| - 1])
    requires n in worlds[|worlds| - 1].own.nodes && worlds[|worlds| - 1].own.resolution.Some?
    requires Catalog.Enabled(worlds[|worlds| - 1].own.resolution.value, r.conditional, name)
    ensures Catalog.Selected(r.catalog, {n.version}) != []
    ensures Catalog.Enabled(Catalog.Resolved(r.catalog, {n.version}), r.conditional, name)
  {
    var w := worlds[|worlds| - 1];
    BackedInRuns(r, worlds);
    RosterVersion(w.own.nodes, w.latest, n);
    EnabledForEach(r, w.latest, w.own.resolution.value, n.version, name);
  }

  lemma RosterVersion(a: seq<Node>, b: seq<Node>, n: Node)
    requires Roster(a) == Roster(b) && n in a
    ensures n.version in Versions(b)
  {
    assert (n.id, n.version) in Roster(a);
    var o :| o in b && (o.id, o.version) == (n.id, n.version);
  }

  lemma EnabledForEach(r: Runner, nodes: seq<Node>, resolution: Catalog.Resolution, version: string, name: string)
    requires Catalog.Loaded(r.catalog) && Backs(r, nodes, resolution) && version in Versions(nodes)
    requires Catalog.Enabled(resolution, r.conditional, name)
    ensures Catalog.Selected(r.catalog, {version}) != []
    ensures Catalog.Enabled(Catalog.Resolved(r.catalog, {version}), r.conditional, name)
  {
    SupportedVersion(r, nodes, resolution, version);
    Catalog.SupportedSelects(r.catalog, version);
    EnabledAlone(r.catalog, r.conditional, Versions(nodes), version, name);
  }

  lemma SupportedVersion(r: Runner, nodes: seq<Node>, resolution: Catalog.Resolution, version: string)
    requires Backs(r, nodes, resolution) && version in Versions(nodes)
    ensures Catalog.Supported(r.catalog, version)
  {
  }

  lemma EnabledAlone(catalog: seq<Catalog.Profile>, conditional: set<string>, versions: set<string>, version: string,
                     name: string)
    requires Catalog.Loaded(catalog) && version in versions
    requires Catalog.Selected(catalog, versions) != [] && Catalog.Selected(catalog, {version}) != []
    requires Catalog.Enabled(Catalog.Resolved(catalog, versions), conditional, name)
    ensures Catalog.Enabled(Catalog.Resolved(catalog, {version}), conditional, name)
  {
    Catalog.EnabledSurvivesUpgradeEnd(catalog, versions, {version}, conditional, name);
  }

  /** A resource collection begun after bootstrap over a store that fits refreshes a group only where
      every stored node's own version supports it. */
  lemma CollectedIsSupported(r: Runner, worlds: seq<World>, n: Node, k: nat)
    requires ReachedBefore(r, worlds, ReplaceResources) && worlds[|worlds| - 1].calm && Catalog.Loaded(r.catalog)
    requires Fits(worlds[|worlds| - 1]) && n in worlds[|worlds| - 1].own.nodes && k < 3
    requires var groups := worlds[|worlds| - 1].turn.groups; [groups.cpuMemory, groups.network, groups.disk][k]
    ensures Catalog.Selected(r.catalog, {n.version}) != []
    ensures Catalog.Enabled(Catalog.Resolved(r.catalog, {n.version}), r.conditional, CAPABILITIES[k])
  {
    SettledInRuns(r, worlds);
    EnabledForEveryNode(r, worlds, n, CAPABILITIES[k]);
  }
}
