/**
 The node domain of one cluster over every interleaving of bootstrap, inventory collection,
 resource collection and the writes of other clusters. A lock admits one collection at a
 time; bootstrap does not take it, reads of the store and writes to it are separate steps,
 and the capability resolution is published in a step of its own.
 */
module NodeMachine {
  import opened Common
  import opened NodeReadings
  import opened NodeDomain
  import Catalog
  import Flux
  import NodeFacts

  /** What is fixed for a cluster: its name, its enabled conditional capabilities, its policy and
      the catalog of profiles. */
  datatype Runner = Runner(
    cluster: string, conditional: set<string>, rd: Flux.Reader, policy: Policy, catalog: seq<Catalog.Profile>)

  const CAPABILITIES := ["node_cpu_memory", "node_network_counters", "node_disk_capacity"]

  datatype Boot =
    | Idle
    | Fetched(nodes: seq<Node>, resolution: Catalog.Resolution)
    | Published(nodes: seq<Node>)

  /** The answers of one inventory collection. */
  datatype Job = Job(nodes: seq<Node>, resolution: Catalog.Resolution, statuses: map<string, Status>)

  /** Where the holder of the node lock is. */
  datatype Turn =
    | Free
    | Listed(job: Job)
    | Prepared(job: Job, nodes: seq<Node>)
    | Resolved(job: Job, nodes: seq<Node>)
    | Deciding(flags: seq<bool>)
    | Gathered(groups: Groups, resources: Records)
    | Filled(groups: Groups, resources: Records, nodes: seq<Node>)

  datatype Generations = Generations(node: nat, resources: nat)

  /** What the two collections share. */
  datatype Shared = Shared(nodes: seq<Node>, resolution: Option<Catalog.Resolution>, generations: Generations)

  /** The last three are history: the shared state when the current turn began, whether bootstrap had
      completed by then, and the inventory that the resolution in force was computed from. */
  datatype World = World(
    own: Shared, others: map<string, seq<Node>>, boot: Boot, turn: Turn, entry: Shared, calm: bool,
    latest: seq<Node>)

  datatype Action =
    | BootFetch(raws: seq<RawNode>, now: int) | BootFail | BootPublish | BootReplace
    | Begin(raws: seq<RawNode>, now: int, statuses: map<string, Status>)
    | Carry(snapshot: seq<Node>) | Resolve | Replace
    | Start | Decide | Query(payloads: seq<Payload>, sources: seq<Records>)
    | Fill(snapshot: seq<Node>) | ReplaceResources
    | Fail
    | Foreign(cluster: string, nodes: seq<Node>)

  // ---------- steps ----------

  function Initially(): World {
    var nothing := Shared([], None, Generations(0, 0));
    World(nothing, map[], Idle, Free, nothing, false, [])
  }

  ghost predicate Bootstrapped(w: World) {
    w.own.resolution.Some? && w.boot.Idle?
  }

  /** A usable response to the inventory request: it parses, and the catalog resolves its versions. */
  ghost predicate Usable(r: Runner, raws: seq<RawNode>) {
    GoodInventory(raws) && Catalog.Resolvable(r.catalog, RawVersions(raws))
  }

  function ResolutionOf(r: Runner, raws: seq<RawNode>): Catalog.Resolution
    requires Usable(r, raws)
  {
    Catalog.ResolvableSelects(r.catalog, RawVersions(raws));
    Catalog.Resolved(r.catalog, Catalog.Elements(RawVersions(raws)))
  }

  function JobOf(r: Runner, raws: seq<RawNode>, now: int, statuses: map<string, Status>): Job
    requires Usable(r, raws)
  {
    Job(Inventoried(raws, r.cluster, now), ResolutionOf(r, raws), statuses)
  }

  /** How bootstrap and inventory collection begin: the response is parsed and its versions resolved. */
  method ReadInventory(r: Runner, raws: seq<RawNode>, now: int) returns (job: Result<(seq<Node>, Catalog.Resolution)>)
    requires Catalog.Loaded(r.catalog)
    ensures job.Ok? <==> Usable(r, raws)
    ensures job.Ok? ==> job.value == (Inventoried(raws, r.cluster, now), ResolutionOf(r, raws))
  {
    var parsed := ParseNodes(raws, r.cluster, now);
    if parsed.Err? {
      return Err(parsed.error);
    }
    var resolved := Catalog.Resolve(r.catalog, parsed.value.1);
    if resolved.Err? {
      return Err(resolved.error);
    }
    job := Ok((parsed.value.0, resolved.value));
  }

  lemma InventoryIsNew(r: Runner, raws: seq<RawNode>, now: int)
    requires Usable(r, raws)
    ensures Newly(Inventoried(raws, r.cluster, now), r.cluster)
  {
    NewNodes(raws, Inventoried(raws, r.cluster, now), r.cluster, now);
  }

  /** The nodes of one cluster in the store. */
  ghost predicate Proper(nodes: seq<Node>, cluster: string) {
    DistinctKeys(nodes, NodeKey) && forall n :: n in nodes ==> n.cluster == cluster && WellFormed(n.resource)
  }

  /** What the store hands out: every stored node, each once, sorted. */
  ghost predicate IsSnapshot(snapshot: seq<Node>, w: World) {
    && SortedBy(snapshot, NodeKey, TupleLeq) && DistinctKeys(snapshot, NodeKey)
    && forall n :: n in snapshot <==> n in w.own.nodes || InOthers(n, w)
  }

  ghost predicate InOthers(n: Node, w: World) {
    exists c :: c in w.others && n in w.others[c]
  }

  function Services(r: Runner, resolution: Catalog.Resolution): bool {
    Catalog.Enabled(resolution, r.conditional, "node_service_process")
  }

  function Carried(r: Runner, job: Job, snapshot: seq<Node>): seq<Node> {
    Map(Map(job.nodes, Preserved(snapshot)), WithStatus(job.statuses, Services(r, job.resolution)))
  }

  function GroupsOf(flags: seq<bool>): Groups
    requires |flags| == 3
  {
    Groups(flags[0], flags[2], flags[1])
  }

  /** File systems are passed on only when disk capacity is collected. */
  function PolicyFor(r: Runner, groups: Groups): Policy {
    if groups.disk then r.policy else r.policy.(filesystems := [])
  }

  function QueryCount(groups: Groups): nat {
    (if groups.cpuMemory then 2 else 0) + (if groups.disk then 1 else 0) + (if groups.network then 1 else 0)
  }

  /** CPU and memory take a query each, disks and network one each; none without its capability. */
  lemma QueriesPerGroup(groups: Groups)
    ensures QueryCount(groups) == 0 <==> !groups.cpuMemory && !groups.disk && !groups.network
    ensures QueryCount(groups) == 4 <==> groups.cpuMemory && groups.disk && groups.network
    ensures groups.cpuMemory ==> QueryCount(groups) == 2 + QueryCount(groups.(cpuMemory := false))
    ensures groups.disk ==> QueryCount(groups) == 1 + QueryCount(groups.(disk := false))
  {
  }

  /** While disks are disabled, disk rows are read over, whatever they say. */
  lemma DisabledDisksAreReadOver(r: Runner, groups: Groups, payloads: seq<Payload>, sources: seq<Records>,
                                 node: string, v: real)
    requires !groups.disk && Gathers(r.rd, PolicyFor(r, groups), payloads, sources)
    ensures !NodeFacts.Brings(MergeSources(sources), node, NodeFacts.DisksUsed, v)
    ensures !NodeFacts.Brings(MergeSources(sources), node, NodeFacts.DisksTotal, v)
    ensures PolicyFor(r, groups.(disk := true)) == r.policy
  {
    NodeFacts.NoDisksWithoutFilesystems(r.rd, PolicyFor(r, groups), payloads, sources, node, v);
  }

  /** Where a step can be taken, leaving open what the store hands out and what others write. */
  ghost predicate Ready(r: Runner, w: World, a: Action) {
    match a
    case BootFetch(raws, _) => w.boot.Idle? && w.own.resolution.None? && Usable(r, raws)
    case BootFail => w.boot.Fetched?
    case BootPublish => w.boot.Fetched?
    case BootReplace => w.boot.Published?
    case Begin(raws, _, _) => w.turn.Free? && w.own.resolution.Some? && Usable(r, raws)
    case Carry(snapshot) => w.turn.Listed?
    case Resolve => w.turn.Prepared?
    case Replace => w.turn.Resolved?
    case Start => w.turn.Free? && w.own.resolution.Some?
    case Decide => w.turn.Deciding? && |w.turn.flags| < 3 && w.own.resolution.Some?
    case Query(payloads, sources) =>
      && w.turn.Deciding? && |w.turn.flags| == 3
      && (var groups := GroupsOf(w.turn.flags);
          && 0 < QueryCount(groups) == |payloads|
          && Gathers(r.rd, PolicyFor(r, groups), payloads, sources))
    case Fill(snapshot) => w.turn.Gathered? && OwnNodes(snapshot, r.cluster) != []
    case ReplaceResources => w.turn.Filled?
    case Fail => w.turn.Listed? || w.turn.Deciding? || w.turn.Gathered?
    case Foreign(cluster, nodes) => cluster != r.cluster
  }

  ghost predicate CanStep(r: Runner, w: World, a: Action) {
    && Ready(r, w, a)
    && (a.Carry? || a.Fill? ==> IsSnapshot(a.snapshot, w))
    && (a.Foreign? ==> Proper(a.nodes, a.cluster))
  }

  /** A turn begins. */
  function Entered(w: World, turn: Turn): World {
    w.(turn := turn, entry := w.own, calm := w.own.resolution.Some? && w.boot.Idle?)
  }

  function Write(w: World, nodes: seq<Node>, generations: Generations): World {
    w.(own := w.own.(nodes := nodes, generations := generations))
  }

  function Apply(r: Runner, w: World, a: Action): World
    requires Ready(r, w, a)
  {
    var g := w.own.generations;
    match a
    case BootFetch(raws, now) => w.(boot := Fetched(Inventoried(raws, r.cluster, now), ResolutionOf(r, raws)))
    case BootFail => w.(boot := Idle)
    case BootPublish =>
      w.(own := w.own.(resolution := Some(w.boot.resolution)), boot := Published(w.boot.nodes), latest := w.boot.nodes)
    case BootReplace => Write(w, w.boot.nodes, g.(node := g.node + 1)).(boot := Idle)
    case Begin(raws, now, statuses) => Entered(w, Listed(JobOf(r, raws, now, statuses)))
    case Carry(snapshot) => w.(turn := Prepared(w.turn.job, Carried(r, w.turn.job, snapshot)))
    case Resolve => w.(own := w.own.(resolution := Some(w.turn.job.resolution)),
                       turn := Resolved(w.turn.job, w.turn.nodes), latest := w.turn.job.nodes)
    case Replace => Write(w, w.turn.nodes, g.(node := g.node + 1)).(turn := Free)
    case Start => Entered(w, Deciding([]))
    case Decide => w.(turn := Deciding(w.turn.flags
                                       + [Catalog.Enabled(w.own.resolution.value, r.conditional,
                                                          CAPABILITIES[|w.turn.flags|])]))
    case Query(_, sources) => w.(turn := Gathered(GroupsOf(w.turn.flags), MergeSources(sources)))
    case Fill(snapshot) =>
      w.(turn := Filled(w.turn.groups, w.turn.resources,
                        Map(OwnNodes(snapshot, r.cluster), Refreshed(w.turn.resources, w.turn.groups))))
    case ReplaceResources => Write(w, w.turn.nodes, g.(resources := g.resources + 1)).(turn := Free)
    case Fail => w.(turn := Free)
    case Foreign(cluster, nodes) => w.(others := w.others[cluster := nodes])
  }

  /** A run: the worlds it passes through. */
  ghost predicate IsRun(r: Runner, worlds: seq<World>) {
    && worlds != [] && worlds[0] == Initially()
    && forall i :: 0 <= i < |worlds| - 1 ==> StepTo(r, worlds[i], worlds[i + 1])
  }

  ghost predicate StepTo(r: Runner, w: World, w': World) {
    exists a :: CanStep(r, w, a) && w' == Apply(r, w, a)
  }

  // ---------- what holds in every reachable world ----------

  /** The flags read so far are those of one resolution. */
  ghost predicate FlagsOf(r: Runner, resolution: Catalog.Resolution, flags: seq<bool>) {
    |flags| <= 3 && forall i ::
        0 <= i < |flags| ==> flags[i] == Catalog.Enabled(resolution, r.conditional, CAPABILITIES[i])
  }

  function GroupsFor(r: Runner, resolution: Catalog.Resolution): Groups {
    Groups(Catalog.Enabled(resolution, r.conditional, CAPABILITIES[0]),
           Catalog.Enabled(resolution, r.conditional, CAPABILITIES[2]),
           Catalog.Enabled(resolution, r.conditional, CAPABILITIES[1]))
  }

  ghost predicate BootOk(r: Runner, w: World) {
    match w.boot
    case Idle => true
    case Fetched(nodes, _) => Newly(nodes, r.cluster) && w.own.resolution.None?
    case Published(nodes) => Newly(nodes, r.cluster) && w.own.resolution.Some?
  }

  /** The node lists in the lock holder's hands are fit for the store. */
  ghost predicate TurnOk(r: Runner, w: World) {
    match w.turn
    case Free => true
    case Listed(job) => Newly(job.nodes, r.cluster)
    case Prepared(_, nodes) => Proper(nodes, r.cluster)
    case Resolved(_, nodes) => Proper(nodes, r.cluster)
    case Deciding(_) => true
    case Gathered(_, resources) => AllWellFormed(resources)
    case Filled(_, resources, nodes) => Proper(nodes, r.cluster)
  }

  ghost predicate OthersOk(r: Runner, w: World) {
    forall c :: c in w.others ==> c != r.cluster && Proper(w.others[c], c)
  }

  ghost predicate StoreOk(r: Runner, w: World) {
    Proper(w.own.nodes, r.cluster) && OthersOk(r, w) && BootOk(r, w) && TurnOk(r, w)
      && (!w.turn.Free? ==> w.own.resolution.Some?)
  }

  lemma NewlyIsProper(nodes: seq<Node>, cluster: string)
    requires Newly(nodes, cluster)
    ensures Proper(nodes, cluster)
  {
    EmptyIsWellFormed();
  }

  /** Changing nodes without touching cluster and id keeps the list proper. */
  lemma MappedIsProper(nodes: seq<Node>, cluster: string, f: Node -> Node)
    requires DistinctKeys(nodes, NodeKey)
    requires forall n :: n in nodes ==> n.cluster == cluster && NodeKey(f(n)) == NodeKey(n) && WellFormed(f(n).resource)
    ensures Proper(Map(nodes, f), cluster)
  {
    var m := Map(nodes, f);
    assert forall i :: 0 <= i < |nodes| ==> nodes[i] in nodes;
    forall n | n in m ensures n.cluster == cluster && WellFormed(n.resource) {
      var i :| 0 <= i < |m| && m[i] == n;
      assert NodeKey(f(nodes[i]))[0] == NodeKey(nodes[i])[0];
    }
  }

  lemma SnapshotIsWellFormed(r: Runner, w: World, snapshot: seq<Node>)
    requires StoreOk(r, w) && IsSnapshot(snapshot, w)
    ensures forall n :: n in snapshot ==> WellFormed(n.resource)
    ensures forall n :: n in snapshot && n.cluster == r.cluster <==> n in w.own.nodes
  {
    forall n | n in snapshot
      ensures WellFormed(n.resource) && (n.cluster == r.cluster <==> n in w.own.nodes) {
      if InOthers(n, w) {
        var c :| c in w.others && n in w.others[c];
        assert Proper(w.others[c], c);
      }
    }
  }

  lemma CarriedIsProper(r: Runner, job: Job, snapshot: seq<Node>)
    requires Newly(job.nodes, r.cluster) && forall n :: n in snapshot ==> WellFormed(n.resource)
    ensures Proper(Carried(r, job, snapshot), r.cluster)
  {
    EmptyIsWellFormed();
    var carried := Map(job.nodes, Preserved(snapshot));
    MappedIsProper(job.nodes, r.cluster, Preserved(snapshot));
    MappedIsProper(carried, r.cluster, WithStatus(job.statuses, Services(r, job.resolution)));
  }

  lemma RefreshKeeps(resources: Records, groups: Groups, n: Node)
    requires AllWellFormed(resources) && WellFormed(n.resource)
    ensures WellFormed(Refreshed(resources, groups)(n).resource)
    ensures NodeKey(Refreshed(resources, groups)(n)) == NodeKey(n)
            && Refreshed(resources, groups)(n).Inventory() == n.Inventory()
  {
    EmptyIsWellFormed();
    assert WellFormed(Found(resources, n.id));
  }

  lemma {:induction false} OwnDistinct(snapshot: seq<Node>, cluster: string)
    requires DistinctKeys(snapshot, NodeKey)
    ensures DistinctKeys(OwnNodes(snapshot, cluster), NodeKey)
  {
    if snapshot != [] {
      OwnDistinct(snapshot[..|snapshot| - 1], cluster);
    }
  }

  lemma FilledIsProper(r: Runner, snapshot: seq<Node>, resources: Records, groups: Groups)
    requires DistinctKeys(snapshot, NodeKey) && forall n :: n in snapshot ==> WellFormed(n.resource)
    requires AllWellFormed(resources)
    ensures Proper(Map(OwnNodes(snapshot, r.cluster), Refreshed(resources, groups)), r.cluster)
  {
    var own := OwnNodes(snapshot, r.cluster);
    OwnDistinct(snapshot, r.cluster);
    forall n | n in own
      ensures NodeKey(Refreshed(resources, groups)(n)) == NodeKey(n)
              && WellFormed(Refreshed(resources, groups)(n).resource) {
      RefreshKeeps(resources, groups, n);
    }
    MappedIsProper(own, r.cluster, Refreshed(resources, groups));
  }

  lemma StepKeepsStore(r: Runner, w: World, a: Action)
    requires StoreOk(r, w) && CanStep(r, w, a)
    ensures StoreOk(r, Apply(r, w, a))
  {
    match a
    case BootFetch(raws, now) => InventoryIsNew(r, raws, now);
    case Begin(raws, now, _) => InventoryIsNew(r, raws, now);
    case BootReplace => NewlyIsProper(w.boot.nodes, r.cluster);
    case Carry(snapshot) =>
      SnapshotIsWellFormed(r, w, snapshot);
      CarriedIsProper(r, w.turn.job, snapshot);
    case Query(payloads, sources) =>
      GatheredIsWellFormed(r.rd, PolicyFor(r, GroupsOf(w.turn.flags)), payloads, sources);
    case Fill(snapshot) =>
      SnapshotIsWellFormed(r, w, snapshot);
      FilledIsProper(r, snapshot, w.turn.resources, w.turn.groups);
    case _ =>
  }

  lemma StepAt(r: Runner, worlds: seq<World>, k: nat) returns (a: Action)
    requires IsRun(r, worlds) && k + 1 < |worlds|
    ensures CanStep(r, worlds[k], a) && worlds[k + 1] == Apply(r, worlds[k], a)
  {
    assert StepTo(r, worlds[k], worlds[k + 1]);
    a :| CanStep(r, worlds[k], a) && worlds[k + 1] == Apply(r, worlds[k], a);
  }

  lemma {:induction false} StoreOkInRuns(r: Runner, worlds: seq<World>)
    requires IsRun(r, worlds)
    ensures StoreOk(r, worlds[|worlds| - 1])
  {
    if |worlds| > 1 {
      var w := worlds[|worlds| - 2];
      StoreOkInRuns(r, worlds[..|worlds| - 1]);
      var a := StepAt(r, worlds, |worlds| - 2);
      StepKeepsStore(r, w, a);
    }
  }

  /** In every reachable world each stored node of each cluster is filed under its cluster with
      a distinct id, its CPU usage is a ratio, its disk amounts come together and in order, and
      its interfaces are strictly sorted. */
  lemma StoredNodesAreWellFormed(r: Runner, worlds: seq<World>, k: nat)
    requires IsRun(r, worlds) && k < |worlds|
    ensures Proper(worlds[k].own.nodes, r.cluster)
    ensures forall c :: c in worlds[k].others ==> Proper(worlds[k].others[c], c)
  {
    StoreOkInRuns(r, worlds[..k + 1]);
  }

  // ---------- turns that begin after bootstrap ----------

  /** What the lock holder knows when bootstrap had completed at the beginning of its turn:
      nothing shared has changed but by itself, and what it is about to write was computed
      from what is stored. */
  ghost predicate CalmOk(r: Runner, w: World) {
    && Bootstrapped(w) && w.entry.resolution.Some?
    && w.own.nodes == w.entry.nodes && w.own.generations == w.entry.generations
    && (if w.turn.Resolved? then w.own.resolution == Some(w.turn.job.resolution)
        else w.own.resolution == w.entry.resolution)
    && match w.turn
       case Free => true
       case Listed(_) => true
       case Prepared(job, nodes) => CarriedFrom(r, job, w.own.nodes, nodes)
       case Resolved(job, nodes) => CarriedFrom(r, job, w.own.nodes, nodes)
       case Deciding(flags) => FlagsOf(r, w.own.resolution.value, flags)
       case Gathered(groups, _) => groups == GroupsFor(r, w.own.resolution.value)
       case Filled(groups, resources, nodes) =>
         groups == GroupsFor(r, w.own.resolution.value) && FilledFrom(w.own.nodes, resources, groups, nodes)
  }

  ghost predicate Settled(r: Runner, w: World) {
    w.calm && !w.turn.Free? ==> CalmOk(r, w)
  }

  ghost predicate CarriedFrom(r: Runner, job: Job, stored: seq<Node>, nodes: seq<Node>) {
    nodes == Carried(r, job, stored)
  }

  ghost predicate FilledFrom(stored: seq<Node>, resources: Records, groups: Groups, nodes: seq<Node>) {
    forall n :: n in nodes <==> Originates(stored, resources, groups, n)
  }

  ghost predicate Originates(stored: seq<Node>, resources: Records, groups: Groups, n: Node) {
    exists o :: o in stored && n == Refreshed(resources, groups)(o)
  }

  /** Looking a node up in the snapshot is looking it up among the cluster's own nodes. */
  lemma LatestIsOwn(snapshot: seq<Node>, own: seq<Node>, cluster: string, id: string)
    requires DistinctKeys(snapshot, NodeKey)
    requires forall n :: n in snapshot && n.cluster == cluster <==> n in own
    ensures Latest(snapshot, cluster, id) == Latest(own, cluster, id)
  {
    var s, o := Latest(snapshot, cluster, id), Latest(own, cluster, id);
    assert s.Some? ==> s.value in own;
    assert o.Some? ==> o.value in snapshot;
    if s.Some? && o.Some? {
      var i :| 0 <= i < |snapshot| && snapshot[i] == s.value;
      var j :| 0 <= j < |snapshot| && snapshot[j] == o.value;
      assert NodeKey(snapshot[i]) == NodeKey(snapshot[j]);
    }
  }

  lemma CarriedIsOwn(r: Runner, job: Job, snapshot: seq<Node>, own: seq<Node>)
    requires DistinctKeys(snapshot, NodeKey) && Newly(job.nodes, r.cluster)
    requires forall n :: n in snapshot && n.cluster == r.cluster <==> n in own
    ensures Carried(r, job, snapshot) == Carried(r, job, own)
  {
    forall i | 0 <= i < |job.nodes| ensures Preserved(snapshot)(job.nodes[i]) == Preserved(own)(job.nodes[i]) {
      LatestIsOwn(snapshot, own, r.cluster, job.nodes[i].id);
    }
    assert Map(job.nodes, Preserved(snapshot)) == Map(job.nodes, Preserved(own));
  }

  lemma FilledIsOwn(r: Runner, snapshot: seq<Node>, own: seq<Node>, resources: Records, groups: Groups)
    requires forall n :: n in snapshot && n.cluster == r.cluster <==> n in own
    ensures FilledFrom(own, resources, groups, Map(OwnNodes(snapshot, r.cluster), Refreshed(resources, groups)))
  {
    MapMembers(OwnNodes(snapshot, r.cluster), own, Refreshed(resources, groups));
  }

  lemma StepSettles(r: Runner, w: World, a: Action)
    requires StoreOk(r, w) && Settled(r, w) && CanStep(r, w, a)
    ensures Settled(r, Apply(r, w, a))
  {
    match a
    case Carry(snapshot) =>
      SnapshotIsWellFormed(r, w, snapshot);
      CarriedIsOwn(r, w.turn.job, snapshot, w.own.nodes);
    case Fill(snapshot) =>
      SnapshotIsWellFormed(r, w, snapshot);
      FilledIsOwn(r, snapshot, w.own.nodes, w.turn.resources, w.turn.groups);
    case _ =>
  }

  lemma {:induction false} SettledInRuns(r: Runner, worlds: seq<World>)
    requires IsRun(r, worlds)
    ensures StoreOk(r, worlds[|worlds| - 1]) && Settled(r, worlds[|worlds| - 1])
  {
    StoreOkInRuns(r, worlds);
    if |worlds| > 1 {
      var w := worlds[|worlds| - 2];
      SettledInRuns(r, worlds[..|worlds| - 1]);
      var a := StepAt(r, worlds, |worlds| - 2);
      StepSettles(r, w, a);
    }
  }

  // ---------- what the two collections promise ----------

  /** A world reached by some run in which the next step is `a`. */
  ghost predicate ReachedBefore(r: Runner, worlds: seq<World>, a: Action) {
    IsRun(r, worlds) && CanStep(r, worlds[|worlds| - 1], a)
  }

  /** Every surviving id keeps its resources, and every new one starts without. */
  ghost predicate KeepsResources(stored: seq<Node>, nodes: seq<Node>) {
    && (forall o, n :: o in stored && n in nodes && o.id == n.id ==> n.resource == o.resource)
    && (forall n :: n in nodes && (forall o :: o in stored ==> o.id != n.id) ==> n.resource == EMPTY)
  }

  /** An inventory collection that began after bootstrap replaces the nodes by the fresh
      inventory, and every surviving id keeps the resources that were stored for it at the very
      moment of the replacement. */
  lemma InventoryKeepsResources(r: Runner, worlds: seq<World>)
    requires ReachedBefore(r, worlds, Replace) && worlds[|worlds| - 1].calm
    ensures var w := worlds[|worlds| - 1];
            var w' := Apply(r, w, Replace);
            var job := w.turn.job;
            && w'.own.resolution == Some(job.resolution)
            && |w'.own.nodes| == |job.nodes|
            && (forall i :: 0 <= i < |job.nodes| ==>
                  NodeFacts.JudgedAs(w'.own.nodes[i].Inventory(), job.nodes[i], job.statuses,
                           Catalog.Enabled(job.resolution, r.conditional, "node_service_process")))
            && KeepsResources(w.own.nodes, w'.own.nodes)
  {
    var w := worlds[|worlds| - 1];
    SettledInRuns(r, worlds);
    StoreOkInRuns(r, worlds);
    var job, own := w.turn.job, w.own.nodes;
    TurnKeepsJob(r, worlds);
    CarryingKeeps(r, job, own);
  }

  /** What is carried over from a list keeps the resources of that list. */
  lemma CarryingKeeps(r: Runner, job: Job, own: seq<Node>)
    requires Newly(job.nodes, r.cluster) && Proper(own, r.cluster)
    ensures forall i :: 0 <= i < |job.nodes| ==> CarriedAt(r, job, own, Carried(r, job, own)[i], i)
    ensures KeepsResources(own, Carried(r, job, own))
  {
    forall i | 0 <= i < |job.nodes|
      ensures CarriedAt(r, job, own, Carried(r, job, own)[i], i) {
      CarriedOne(r, job, own, i);
    }
    CarriedAll(r, job, own);
  }

  /** One entry of the carried list: fresh inventory, stored resources. */
  ghost predicate CarriedAt(r: Runner, job: Job, own: seq<Node>, n: Node, i: nat)
    requires i < |job.nodes|
  {
    && NodeFacts.JudgedAs(n.Inventory(), job.nodes[i], job.statuses, Services(r, job.resolution))
    && (forall o :: o in own && o.id == n.id ==> n.resource == o.resource)
    && ((forall o :: o in own ==> o.id != n.id) ==> n.resource == EMPTY)
  }

  lemma CarriedOne(r: Runner, job: Job, own: seq<Node>, i: nat)
    requires Newly(job.nodes, r.cluster) && Proper(own, r.cluster) && i < |job.nodes|
    ensures CarriedAt(r, job, own, Carried(r, job, own)[i], i)
  {
    var raw := job.nodes[i];
    NodeFacts.StatusIsJudged(raw, job.statuses, Services(r, job.resolution));
    var found := Latest(own, r.cluster, raw.id);
    forall o | o in own && o.id == raw.id ensures found == Some(o) {
      SameId(own, r.cluster, o, found.value);
    }
  }

  lemma SameId(own: seq<Node>, cluster: string, a: Node, b: Node)
    requires Proper(own, cluster) && a in own && b in own && a.id == b.id
    ensures a == b
  {
    var i :| 0 <= i < |own| && own[i] == a;
    var j :| 0 <= j < |own| && own[j] == b;
    assert NodeKey(own[i]) == NodeKey(own[j]);
  }

  lemma CarriedAll(r: Runner, job: Job, own: seq<Node>)
    requires forall i :: 0 <= i < |job.nodes| ==> CarriedAt(r, job, own, Carried(r, job, own)[i], i)
    ensures KeepsResources(own, Carried(r, job, own))
  {
    var carried := Carried(r, job, own);
    forall n | n in carried
      ensures forall o :: o in own && o.id == n.id ==> n.resource == o.resource
      ensures (forall o :: o in own ==> o.id != n.id) ==> n.resource == EMPTY {
      var i :| 0 <= i < |carried| && carried[i] == n;
      assert CarriedAt(r, job, own, carried[i], i);
    }
  }

  ghost predicate JobOk(r: Runner, w: World) {
    w.turn.Listed? || w.turn.Prepared? || w.turn.Resolved? ==> Newly(w.turn.job.nodes, r.cluster)
  }

  /** The inventory in the lock holder's hands stays the one it parsed. */
  lemma {:induction false} TurnKeepsJob(r: Runner, worlds: seq<World>)
    requires IsRun(r, worlds)
    ensures JobOk(r, worlds[|worlds| - 1])
  {
    if |worlds| > 1 {
      TurnKeepsJob(r, worlds[..|worlds| - 1]);
      var a := StepAt(r, worlds, |worlds| - 2);
      StepKeepsJob(r, worlds[|worlds| - 2], a);
    }
  }

  lemma StepKeepsJob(r: Runner, w: World, a: Action)
    requires JobOk(r, w) && CanStep(r, w, a)
    ensures JobOk(r, Apply(r, w, a))
  {
    if a.Begin? { InventoryIsNew(r, a.raws, a.now); }
  }

  /** A resource collection that began after bootstrap keeps every stored node with all its
      inventory and health, keeps the resource groups that are disabled under the resolution in
      force, and sets the enabled ones to what was gathered, absent where nothing was. */
  lemma ResourcesKeepInventory(r: Runner, worlds: seq<World>)
    requires ReachedBefore(r, worlds, ReplaceResources) && worlds[|worlds| - 1].calm
    ensures worlds[|worlds| - 1].own.resolution.Some?
    ensures var w := worlds[|worlds| - 1];
            var w' := Apply(r, w, ReplaceResources);
            var groups := GroupsNamed(r, w.own.resolution.value, "node_cpu_memory", "node_disk_capacity",
                                      "node_network_counters");
            && w'.own.resolution == w.own.resolution
            && (forall o :: o in w.own.nodes ==> Refreshed(w.turn.resources, groups)(o) in w'.own.nodes)
            && (forall n :: n in w'.own.nodes ==> Originates(w.own.nodes, w.turn.resources, groups, n))
            && |w'.own.nodes| == |w.own.nodes|
            && (forall o :: o in w.own.nodes ==> Exactly(o, Refreshed(w.turn.resources, groups)(o), w.turn.resources,
                                                         groups))
  {
    SettledInRuns(r, worlds);
    StoreOkInRuns(r, worlds);
    var w := worlds[|worlds| - 1];
    var groups := GroupsFor(r, w.own.resolution.value);
    forall o | o in w.own.nodes ensures Refreshed(w.turn.resources, groups)(o) in w.turn.nodes {
      assert Originates(w.own.nodes, w.turn.resources, groups, Refreshed(w.turn.resources, groups)(o));
    }
    SameIds(r, w.own.nodes, w.turn.nodes, w.turn.resources, groups);
  }

  /** The groups of which the capability is enabled. */
  function GroupsNamed(r: Runner, resolution: Catalog.Resolution, cpuMemory: string, disk: string,
                       network: string): Groups {
    Groups(Catalog.Enabled(resolution, r.conditional, cpuMemory), Catalog.Enabled(resolution, r.conditional, disk),
           Catalog.Enabled(resolution, r.conditional, network))
  }

  /** What refreshing does to a node, field by field. */
  ghost predicate Exactly(o: Node, n: Node, resources: Records, groups: Groups) {
    var now := if o.id in resources then resources[o.id] else EMPTY;
    var expected := (on: bool, found: Option<real>, was: Option<real>) => if on then found else was;
    && n.Inventory() == o.Inventory()
    && n.resource.cpu == expected(groups.cpuMemory, now.cpu, o.resource.cpu)
    && n.resource.memUsed == expected(groups.cpuMemory, now.memUsed, o.resource.memUsed)
    && n.resource.memTotal == expected(groups.cpuMemory, now.memTotal, o.resource.memTotal)
    && n.resource.diskUsed == expected(groups.disk, now.diskUsed, o.resource.diskUsed)
    && n.resource.diskTotal == expected(groups.disk, now.diskTotal, o.resource.diskTotal)
    && n.resource.network == (if groups.network then now.network else o.resource.network)
  }

  function IdSet(nodes: seq<Node>): set<string> {
    set n | n in nodes :: n.id
  }

  lemma {:induction false} IdCount(nodes: seq<Node>, cluster: string)
    requires Proper(nodes, cluster)
    ensures |IdSet(nodes)| == |nodes|
  {
    if nodes != [] {
      var front, last := nodes[..|nodes| - 1], nodes[|nodes| - 1];
      IdCount(front, cluster);
      FrontLacks(nodes, cluster);
      assert IdSet(nodes) == IdSet(front) + {last.id};
    }
  }

  lemma FrontLacks(nodes: seq<Node>, cluster: string)
    requires Proper(nodes, cluster) && nodes != []
    ensures nodes[|nodes| - 1].id !in IdSet(nodes[..|nodes| - 1])
  {
    var k := |nodes| - 1;
    forall i | 0 <= i < k ensures nodes[i].id != nodes[k].id {
      assert nodes[i] in nodes && nodes[k] in nodes;
      assert NodeKey(nodes[i]) != NodeKey(nodes[k]);
    }
  }

  lemma IdKept(own: seq<Node>, nodes: seq<Node>, resources: Records, groups: Groups, id: string)
    requires FilledFrom(own, resources, groups, nodes)
    ensures id in IdSet(own) <==> id in IdSet(nodes)
  {
    var f := Refreshed(resources, groups);
    if id in IdSet(own) {
      var o :| o in own && o.id == id;
      assert Originates(own, resources, groups, f(o));
    }
    if id in IdSet(nodes) {
      var n :| n in nodes && n.id == id;
      assert Originates(own, resources, groups, n);
    }
  }

  lemma SameIds(r: Runner, own: seq<Node>, nodes: seq<Node>, resources: Records, groups: Groups)
    requires Proper(own, r.cluster) && Proper(nodes, r.cluster) && FilledFrom(own, resources, groups, nodes)
    ensures |nodes| == |own|
  {
    forall id ensures id in IdSet(own) <==> id in IdSet(nodes) {
      IdKept(own, nodes, resources, groups, id);
    }
    IdCount(own, r.cluster);
    IdCount(nodes, r.cluster);
    assert IdSet(own) == IdSet(nodes);
  }

  /** A collection that fails leaves nodes, generations and resolution as they were when its turn
      began, whatever else ran meanwhile; so does one that has not yet published anything. */
  lemma FailureChangesNothing(r: Runner, worlds: seq<World>)
    requires ReachedBefore(r, worlds, Fail) && worlds[|worlds| - 1].calm
    ensures var w := worlds[|worlds| - 1];
            Apply(r, w, Fail).own == w.entry
  {
    SettledInRuns(r, worlds);
  }

  lemma BootstrapStaysDone(r: Runner, w: World, a: Action)
    requires Bootstrapped(w) && CanStep(r, w, a)
    ensures Bootstrapped(Apply(r, w, a))
  {
  }

  /** Once bootstrap has completed it stays completed, so every later turn is one of those the
      theorems above speak about. */
  lemma {:induction false} LaterTurnsAreCalm(r: Runner, worlds: seq<World>, k: nat, a: Action)
    requires ReachedBefore(r, worlds, a) && (a.Begin? || a.Start?)
    requires k < |worlds| && Bootstrapped(worlds[k])
    ensures Bootstrapped(worlds[|worlds| - 1]) && Apply(r, worlds[|worlds| - 1], a).calm
  {
    BootstrappedLater(r, worlds, k, |worlds| - 1);
  }

  lemma BootstrappedNext(r: Runner, worlds: seq<World>, k: nat)
    requires IsRun(r, worlds) && k + 1 < |worlds| && Bootstrapped(worlds[k])
    ensures Bootstrapped(worlds[k + 1])
  {
    var a := StepAt(r, worlds, k);
    BootstrapStaysDone(r, worlds[k], a);
  }

  lemma {:induction false} BootstrappedLater(r: Runner, worlds: seq<World>, k: nat, j: nat)
    requires IsRun(r, worlds) && k <= j < |worlds| && Bootstrapped(worlds[k])
    ensures Bootstrapped(worlds[j])
  {
    if k < j {
      BootstrappedLater(r, worlds, k, j - 1);
      BootstrappedNext(r, worlds, j - 1);
    }
  }

  // ---------- nothing is written for nothing ----------

  /** What is about to be written has nodes, and resources were asked for when they are written. */
  ghost predicate Earned(w: World) {
    && (w.boot.Fetched? || w.boot.Published? ==> w.boot.nodes != [])
    && (w.turn.Listed? ==> w.turn.job.nodes != [])
    && (w.turn.Prepared? || w.turn.Resolved? || w.turn.Filled? ==> w.turn.nodes != [])
    && (w.turn.Gathered? || w.turn.Filled? ==>
          w.turn.groups.cpuMemory || w.turn.groups.disk || w.turn.groups.network)
  }

  lemma StepKeepsEarned(r: Runner, w: World, a: Action)
    requires Earned(w) && CanStep(r, w, a)
    ensures Earned(Apply(r, w, a))
    ensures w.own.nodes != [] ==> Apply(r, w, a).own.nodes != []
  {
    if a.Query? { QueriesPerGroup(GroupsOf(w.turn.flags)); }
  }

  lemma {:induction false} EarnedInRuns(r: Runner, worlds: seq<World>)
    requires IsRun(r, worlds)
    ensures Earned(worlds[|worlds| - 1])
  {
    if |worlds| > 1 {
      EarnedInRuns(r, worlds[..|worlds| - 1]);
      var a := StepAt(r, worlds, |worlds| - 2);
      StepKeepsEarned(r, worlds[|worlds| - 2], a);
    }
  }

  /** Once a cluster has nodes it is never without: whatever fails, and in whatever order bootstrap and
      collections write, no write empties its list. */
  lemma {:induction false} NodesNeverVanish(r: Runner, worlds: seq<World>, k: nat, j: nat)
    requires IsRun(r, worlds) && k <= j < |worlds| && worlds[k].own.nodes != []
    ensures worlds[j].own.nodes != []
  {
    if k < j {
      NodesNeverVanish(r, worlds, k, j - 1);
      NodesNext(r, worlds, j - 1);
    }
  }

  lemma NodesNext(r: Runner, worlds: seq<World>, k: nat)
    requires IsRun(r, worlds) && k + 1 < |worlds| && worlds[k].own.nodes != []
    ensures worlds[k + 1].own.nodes != []
  {
    EarnedAt(r, worlds, k);
    var a := StepAt(r, worlds, k);
    StepKeepsEarned(r, worlds[k], a);
  }

  lemma EarnedAt(r: Runner, worlds: seq<World>, k: nat)
    requires IsRun(r, worlds) && k < |worlds|
    ensures Earned(worlds[k])
  {
    EarnedInRuns(r, worlds[..k + 1]);
  }

  /** Resources are written only when a capability was found enabled; the run of a collector that finds none
      publishes nothing. */
  lemma RefreshIsAskedFor(r: Runner, worlds: seq<World>)
    requires ReachedBefore(r, worlds, ReplaceResources)
    ensures var groups := worlds[|worlds| - 1].turn.groups; groups.cpuMemory || groups.disk || groups.network
  {
    EarnedInRuns(r, worlds);
  }

  // ---------- longer runs ----------

  lemma OneMoreStep(r: Runner, worlds: seq<World>, a: Action)
    requires ReachedBefore(r, worlds, a)
    ensures IsRun(r, worlds + [Apply(r, worlds[|worlds| - 1], a)])
  {
    var longer := worlds + [Apply(r, worlds[|worlds| - 1], a)];
    forall i | 0 <= i < |longer| - 1 ensures StepTo(r, longer[i], longer[i + 1]) {
      if i < |worlds| - 1 { assert StepTo(r, worlds[i], worlds[i + 1]); }
    }
  }

  lemma Extended(r: Runner, worlds: seq<World>, a: Action) returns (longer: seq<World>)
    requires ReachedBefore(r, worlds, a)
    ensures IsRun(r, longer) && longer[|longer| - 1] == Apply(r, worlds[|worlds| - 1], a)
  {
    OneMoreStep(r, worlds, a);
    longer := worlds + [Apply(r, worlds[|worlds| - 1], a)];
  }
}
