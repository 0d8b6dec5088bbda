/**
 A small cluster: two nodes of version 3.8.0.0 and a catalog of the profile for 3.8.0, which supports
 CPU and memory. What can happen before bootstrap has completed does happen there.
 */
module ExampleCluster {
  import opened NodeDomain
  import opened NodeMachine
  import V = Version
  import opened Catalog
  import NodeReadings
  import EarlyTurns
  import EarlyInventories
  import InForce
  import SingleRows

  function Release(patch: nat): V.Version {
    V.Version([3, 8, patch, 0], "", "")
  }

  function OnlyProfile(): Profile {
    Profile("ecs-3.8.0", Release(0), Release(1), map["node_cpu_memory" := Native])
  }

  function RawOf(id: string, version: string): RawNode {
    RawNode(id, id, "", "", version, "")
  }

  /** The two nodes, and the first of them alone. */
  function Many(a: string, b: string, version: string): seq<RawNode> {
    [RawOf(a, version), RawOf(b, version)]
  }

  function Few(a: string, version: string): seq<RawNode> {
    [RawOf(a, version)]
  }

  lemma Between(p: seq<nat>, lo: seq<nat>, hi: seq<nat>)
    requires p == lo == [3, 8, 0, 0] && hi == [3, 8, 1, 0]
    ensures V.CompareParts(p, lo) == 0 && V.CompareParts(p, hi) < 0 && V.CompareParts(lo, hi) < 0
  {
    V.ComparePartsOrder(p, lo);
    assert p[1..] == [8, 0, 0] && hi[1..] == [8, 1, 0];
    assert p[1..][1..] == [0, 0] && hi[1..][1..] == [1, 0];
    assert V.CompareParts(p[1..][1..], hi[1..][1..]) < 0;
    assert V.CompareParts(p[1..], hi[1..]) < 0;
  }

  lemma CatalogIsLoaded()
    ensures Loaded([OnlyProfile()])
  {
    Between([3, 8, 0, 0], [3, 8, 0, 0], [3, 8, 1, 0]);
  }

  lemma VersionIsSupported()
    ensures Release(0).Core() != "" && Supported([OnlyProfile()], Release(0).Core())
    ensures OnlyProfile().Supports(V.Parsed(Release(0).Core()).value)
  {
    var v := Release(0);
    V.CoreRoundTrip(v);
    V.ParseMeansReading(v.Core());
    V.ComparePartsOrder(V.Parsed(v.Core()).value.parts, v.parts);
    Between(V.Parsed(v.Core()).value.parts, v.parts, Release(1).parts);
    assert v.Core() == V.Joined(V.PrintAll(v.parts), "");
  }

  lemma ManyIsGood(raws: seq<RawNode>, a: string, b: string, version: string)
    requires raws == Many(a, b, version) && a != "" && b != "" && a != b && version != ""
    ensures GoodInventory(raws)
  {
  }

  lemma FewIsGood(raws: seq<RawNode>, a: string, version: string)
    requires raws == Few(a, version) && a != "" && version != ""
    ensures GoodInventory(raws)
  {
  }

  lemma ResolvableAll(catalog: seq<Profile>, versions: seq<string>, version: string)
    requires versions != [] && Supported(catalog, version) && forall i :: 0 <= i < |versions| ==> versions[i] == version
    ensures Resolvable(catalog, versions)
  {
  }

  lemma UsableExample(r: Runner, a: string, b: string, version: string)
    requires a != "" && b != "" && a != b && version != "" && Supported(r.catalog, version)
    ensures Usable(r, Many(a, b, version)) && Usable(r, Few(a, version))
  {
    ManyIsGood(Many(a, b, version), a, b, version);
    FewIsGood(Few(a, version), a, version);
    ResolvableAll(r.catalog, RawVersions(Many(a, b, version)), version);
    ResolvableAll(r.catalog, RawVersions(Few(a, version)), version);
  }

  lemma EnabledExample(r: Runner, raws: seq<RawNode>)
    requires r.catalog == [OnlyProfile()] && Usable(r, raws)
    ensures GroupsFor(r, ResolutionOf(r, raws)).cpuMemory
  {
    var versions := Elements(RawVersions(raws));
    ResolvableSelects(r.catalog, RawVersions(raws));
    var selected := Selected(r.catalog, versions);
    assert selected[0] in selected && selected == [OnlyProfile()];
    assert CAPABILITIES[0] == "node_cpu_memory";
  }

  lemma IdsOfExample(a: string, b: string, version: string)
    requires a != b
    ensures var many, few := Many(a, b, version), Few(a, version);
            many[1] in many && many[1].id !in Ids(few) && a in Ids(few)
  {
    var few := Few(a, version);
    assert few[0] in few;
  }

  lemma RostersDiffer(cluster: string, a: string, b: string, version: string, now: int)
    requires a != b
    ensures InForce.Roster(Inventoried(Many(a, b, version), cluster, now))
         != InForce.Roster(Inventoried(Few(a, version), cluster, now))
  {
    var many, few := Inventoried(Many(a, b, version), cluster, now), Inventoried(Few(a, version), cluster, now);
    assert many[1] in many && many[1].id == b;
    assert (many[1].id, many[1].version) in InForce.Roster(many);
    forall n | n in few ensures n.id == a {
    }
  }

  // ---------- what can happen there ----------

  /** Two nodes of a version that the catalog supports. */
  predicate IsExample(r: Runner, a: string, b: string, version: string) {
    && r.catalog == [OnlyProfile()] && version != "" && Supported(r.catalog, version)
    && a != "" && b != "" && a != b && 1 <= r.policy.maxInterfaces <= 128
  }

  /** Version 3.8.0.0 makes one. */
  lemma ReleaseIsExample(r: Runner, a: string, b: string)
    requires r.catalog == [OnlyProfile()] && a != "" && b != "" && a != b && 1 <= r.policy.maxInterfaces <= 128
    ensures Loaded(r.catalog) && IsExample(r, a, b, Release(0).Core())
  {
    CatalogIsLoaded();
    VersionIsSupported();
  }

  /** A resource collection can drop a stored node. */
  lemma NodeCanBeDropped(r: Runner, a: string, b: string, version: string, now: int)
    requires IsExample(r, a, b, version)
    ensures exists worlds :: ReachedBefore(r, worlds, Start) && EarlyTurns.CanDrop(r, worlds[|worlds| - 1])
  {
    UsableExample(r, a, b, version);
    EnabledExample(r, Few(a, version));
    IdsOfExample(a, b, version);
    EarlyTurns.EarlyTurnCanDropNode(r, Many(a, b, version), Few(a, version), now);
  }

  /** An inventory collection can bring back resources, once a row about memory was legible. */
  lemma ResourcesCanComeBack(r: Runner, a: string, b: string, version: string, now: int, c: SingleRows.Cells,
                             number: real)
    requires IsExample(r, a, b, version) && c.node == a
    requires SingleRows.Legible(r.rd, c, number) && SingleRows.IsAbout(r.rd, r.policy, c, NodeReadings.MemUsed)
    ensures var begin := Begin(Few(a, version), now, map[]);
            exists worlds :: ReachedBefore(r, worlds, begin)
                             && EarlyInventories.CanMixUp(r, worlds[|worlds| - 1], begin)
  {
    UsableExample(r, a, b, version);
    EnabledExample(r, Few(a, version));
    IdsOfExample(a, b, version);
    EarlyInventories.EarlyInventoryCanMixUp(r, Many(a, b, version), Few(a, version), now, c, number);
  }

  /** Bootstrap can leave a store that the resolution in force does not come from. */
  lemma ResolutionCanMisfit(r: Runner, a: string, b: string, version: string, now: int)
    requires IsExample(r, a, b, version)
    ensures exists worlds :: ReachedBefore(r, worlds, BootReplace) && InForce.Fits(worlds[|worlds| - 1])
                             && !InForce.Fits(Apply(r, worlds[|worlds| - 1], BootReplace))
  {
    UsableExample(r, a, b, version);
    RostersDiffer(r.cluster, a, b, version, now);
    InForce.BootstrapCanMisfit(r, Many(a, b, version), Few(a, version), now);
  }
}
