/**
 All clusters over one store. Each cluster's runner has its own bootstrap and node lock; what
 they share is the contents and the generations of the store. Seen from one cluster, every run
 of this system is a run of the node domain, so what is proved there holds of the stored nodes.
 */
module NodeCache {
  import opened Common
  import opened NodeDomain
  import opened NodeMachine
  import opened Listing
  import opened HeapRecords
  import Catalog
  import Cache
  import Lifecycle

  /** What a cluster's runner has of its own. */
  datatype Local = Local(
    resolution: Option<Catalog.Resolution>, boot: Boot, turn: Turn, entry: Shared, calm: bool, latest: seq<Node>)

  datatype Fleet = Fleet(contents: Cache.Domains, generations: Lifecycle.Generations, locals: map<string, Local>)

  type Runners = map<string, Runner>

  /** Every runner is filed under the name of its cluster. */
  ghost predicate Named(runners: Runners) {
    forall c :: c in runners ==> NulFree(c) && runners[c].cluster == c
  }

  const NODE := "node"
  const RESOURCES := "node-resources"

  /** A step of a cluster's node domain, or the replacement of another list of a cluster. */
  datatype Move =
    | Runs(cluster: string, action: Action)
    | Elsewhere(cluster: string, resource: string, domain: Cache.Domain)

  function Initial(runners: Runners): Fleet {
    var nothing := Shared([], None, Generations(0, 0));
    Fleet(map[], map[], map c | c in runners :: Local(None, Idle, Free, nothing, false, []))
  }

  function Others(contents: Cache.Domains, c: string): map<string, seq<Node>> {
    map d | d in contents && d != c :: contents[d].nodes
  }

  /** The system as one cluster's node domain sees it. */
  function View(f: Fleet, c: string): World
    requires c in f.locals
  {
    var l := f.locals[c];
    World(Shared(Cache.DomainAt(f.contents, c).nodes, l.resolution,
                 Generations(Lifecycle.GenerationOf(f.generations, c, NODE),
                             Lifecycle.GenerationOf(f.generations, c, RESOURCES))),
          Others(f.contents, c), l.boot, l.turn, l.entry, l.calm, l.latest)
  }

  /** What a snapshot of the store gives, in some order of visiting the clusters. */
  ghost predicate Gives(contents: Cache.Domains, snapshot: seq<Node>) {
    exists order :: Enumerates(order, Cache.NodeLists(contents)) && snapshot == Cache.ShownNodes(contents, order)
  }

  ghost predicate CanMove(runners: Runners, f: Fleet, m: Move) {
    && m.cluster in runners && m.cluster in f.locals
    && match m
       case Runs(c, a) =>
         !a.Foreign? && Ready(runners[c], View(f, c), a) && (a.Carry? || a.Fill? ==> Gives(f.contents, a.snapshot))
       case Elsewhere(c, resource, domain) =>
         resource != NODE && resource != RESOURCES && domain.nodes == Cache.DomainAt(f.contents, c).nodes
  }

  predicate Writes(a: Action) {
    a.BootReplace? || a.Replace? || a.ReplaceResources?
  }

  /** The resource whose generation a write raises. */
  function Resource(a: Action): string {
    if a.ReplaceResources? then RESOURCES else NODE
  }

  /** The store after a write is what its operations promise, see `Cache.Store`. */
  function Moved(runners: Runners, f: Fleet, m: Move): Fleet
    requires CanMove(runners, f, m)
  {
    match m
    case Runs(c, a) =>
      var w := Apply(runners[c], View(f, c), a);
      Fleet(if Writes(a) then Cache.WithNodes(f.contents, c, w.own.nodes) else f.contents,
            if Writes(a) then Lifecycle.Bumped(f.generations, c, Resource(a)) else f.generations,
            f.locals[c := Local(w.own.resolution, w.boot, w.turn, w.entry, w.calm, w.latest)])
    case Elsewhere(c, resource, domain) =>
      f.(contents := f.contents[c := domain], generations := Lifecycle.Bumped(f.generations, c, resource))
  }

  ghost predicate MoveTo(runners: Runners, f: Fleet, f': Fleet) {
    exists m :: CanMove(runners, f, m) && f' == Moved(runners, f, m)
  }

  ghost predicate IsFleetRun(runners: Runners, fleets: seq<Fleet>) {
    && Named(runners) && fleets != [] && fleets[0] == Initial(runners)
    && forall i :: 0 <= i < |fleets| - 1 ==> MoveTo(runners, fleets[i], fleets[i + 1])
  }

  lemma FrontIsFleetRun(runners: Runners, fleets: seq<Fleet>) returns (f: Fleet, m: Move)
    requires IsFleetRun(runners, fleets) && |fleets| > 1
    ensures IsFleetRun(runners, fleets[..|fleets| - 1]) && f == fleets[|fleets| - 2]
    ensures CanMove(runners, f, m) && fleets[|fleets| - 1] == Moved(runners, f, m)
  {
    var k := |fleets| - 2;
    f := fleets[k];
    assert MoveTo(runners, fleets[k], fleets[k + 1]);
    m :| CanMove(runners, f, m) && fleets[k + 1] == Moved(runners, f, m);
  }

  /** Nothing is stored but for the clusters that have a runner. */
  lemma {:induction false} StoredHaveRunners(runners: Runners, fleets: seq<Fleet>)
    requires IsFleetRun(runners, fleets)
    ensures var f := fleets[|fleets| - 1]; f.locals.Keys == runners.Keys && f.contents.Keys <= runners.Keys
  {
    if |fleets| > 1 {
      StoredHaveRunners(runners, fleets[..|fleets| - 1]);
      var f, m := FrontIsFleetRun(runners, fleets);
    }
  }

  // ---------- steps, as the clusters see them ----------

  /** Only a write changes nodes and generations, and it raises one generation. */
  lemma Effect(r: Runner, w: World, a: Action)
    requires Ready(r, w, a) && !a.Foreign?
    ensures var w' := Apply(r, w, a);
            && w'.others == w.others && (!Writes(a) ==> w'.own.nodes == w.own.nodes)
            && w'.own.generations == Generations(w.own.generations.node + Raise(a, NODE),
                                                 w.own.generations.resources + Raise(a, RESOURCES))
  {
  }

  function Raise(a: Action, resource: string): nat {
    if Writes(a) && Resource(a) == resource then 1 else 0
  }

  /** The view of a fleet put together from its parts. */
  lemma Assembled(f: Fleet, c: string, w: World)
    requires c in f.locals && f.locals[c] == Local(w.own.resolution, w.boot, w.turn, w.entry, w.calm, w.latest)
    requires Cache.DomainAt(f.contents, c).nodes == w.own.nodes && Others(f.contents, c) == w.others
    requires Lifecycle.GenerationOf(f.generations, c, NODE) == w.own.generations.node
    requires Lifecycle.GenerationOf(f.generations, c, RESOURCES) == w.own.generations.resources
    ensures View(f, c) == w
  {
  }

  lemma OthersStay(contents: Cache.Domains, c: string, domain: Cache.Domain)
    ensures Others(contents[c := domain], c) == Others(contents, c)
  {
  }

  /** A step looks to its own cluster like the step of its node domain. */
  lemma OwnView(runners: Runners, f: Fleet, c: string, a: Action)
    requires Named(runners) && CanMove(runners, f, Runs(c, a))
    ensures View(Moved(runners, f, Runs(c, a)), c) == Apply(runners[c], View(f, c), a)
  {
    var w := Apply(runners[c], View(f, c), a);
    Effect(runners[c], View(f, c), a);
    OthersStay(f.contents, c, Cache.DomainAt(f.contents, c).(nodes := w.own.nodes));
    Lifecycle.OtherGenerationsStay(f.generations, c, Resource(a), c, NODE);
    Lifecycle.OtherGenerationsStay(f.generations, c, Resource(a), c, RESOURCES);
    Assembled(Moved(runners, f, Runs(c, a)), c, w);
  }

  /** What another cluster sees of the replacement of a cluster's lists. */
  lemma SeenFromAfar(f: Fleet, f': Fleet, c: string, resource: string, domain: Cache.Domain, d: string)
    requires NulFree(c) && NulFree(d) && d != c && d in f.locals && d in f'.locals && f'.locals[d] == f.locals[d]
    requires f'.contents == f.contents[c := domain] && f'.generations == Lifecycle.Bumped(f.generations, c, resource)
    ensures View(f', d) == View(f, d).(others := View(f, d).others[c := domain.nodes])
  {
    Lifecycle.OtherGenerationsStay(f.generations, c, resource, d, NODE);
    Lifecycle.OtherGenerationsStay(f.generations, c, resource, d, RESOURCES);
    assert Others(f'.contents, d) == Others(f.contents, d)[c := domain.nodes];
  }

  /** To another cluster it looks like nothing, or like the write of a foreign cluster. */
  lemma OtherView(runners: Runners, f: Fleet, c: string, a: Action, d: string)
    requires Named(runners) && CanMove(runners, f, Runs(c, a)) && d in f.locals && d in runners && d != c
    ensures var f' := Moved(runners, f, Runs(c, a));
            View(f', d)
            == if Writes(a) then Apply(runners[d], View(f, d), Foreign(c, Cache.DomainAt(f'.contents, c).nodes))
               else View(f, d)
  {
    var f' := Moved(runners, f, Runs(c, a));
    if Writes(a) {
      SeenFromAfar(f, f', c, Resource(a), Cache.DomainAt(f'.contents, c), d);
    }
  }

  /** The replacement of another list is not seen by its own cluster, and by the others as a write
      of the nodes that are there anyway. */
  lemma ElsewhereView(runners: Runners, f: Fleet, m: Move, d: string)
    requires Named(runners) && m.Elsewhere? && CanMove(runners, f, m) && d in f.locals && d in runners
    ensures View(Moved(runners, f, m), d)
         == if d == m.cluster then View(f, d)
            else Apply(runners[d], View(f, d), Foreign(m.cluster, Cache.DomainAt(f.contents, m.cluster).nodes))
  {
    var f' := Moved(runners, f, m);
    if d == m.cluster {
      Lifecycle.OtherGenerationsStay(f.generations, d, m.resource, d, NODE);
      Lifecycle.OtherGenerationsStay(f.generations, d, m.resource, d, RESOURCES);
      OthersStay(f.contents, d, m.domain);
      Assembled(f', d, View(f, d));
    } else {
      SeenFromAfar(f, f', m.cluster, m.resource, m.domain, d);
    }
  }

  // ---------- snapshots ----------

  lemma StoredAreFiled(f: Fleet, c: string, r: Runner)
    requires c in f.locals && r.cluster == c && Proper(View(f, c).own.nodes, c) && OthersOk(r, View(f, c))
    ensures Cache.NodesFiled(f.contents)
  {
    forall d | d in f.contents
      ensures DistinctKeys(f.contents[d].nodes, NodeKey) && forall n :: n in f.contents[d].nodes ==> n.cluster == d {
      assert d != c ==> d in Others(f.contents, c) && Others(f.contents, c)[d] == f.contents[d].nodes;
      assert Proper(f.contents[d].nodes, d);
    }
  }

  lemma StoredSomewhere(f: Fleet, c: string, n: Node)
    requires c in f.locals
    ensures (exists d :: d in f.contents && n in f.contents[d].nodes)
       <==> n in View(f, c).own.nodes || InOthers(n, View(f, c))
  {
    var others := Others(f.contents, c);
    if d :| d in f.contents && n in f.contents[d].nodes {
      if d != c { assert d in others && n in others[d]; }
    }
    if n in View(f, c).own.nodes { assert c in f.contents && n in f.contents[c].nodes; }
    if InOthers(n, View(f, c)) {
      var d :| d in others && n in others[d];
      assert n in f.contents[d].nodes;
    }
  }

  /** What a snapshot of the store gives is what the node domain of a cluster expects to read. */
  lemma GivenIsSnapshot(f: Fleet, c: string, r: Runner, snapshot: seq<Node>)
    requires c in f.locals && r.cluster == c && StoreOk(r, View(f, c)) && Gives(f.contents, snapshot)
    ensures IsSnapshot(snapshot, View(f, c))
  {
    var order :| Enumerates(order, Cache.NodeLists(f.contents)) && snapshot == Cache.ShownNodes(f.contents, order);
    StoredAreFiled(f, c, r);
    Cache.SnapshotShowsNodes(f.contents, order);
    forall n ensures n in snapshot <==> n in View(f, c).own.nodes || InOthers(n, View(f, c)) {
      StoredSomewhere(f, c, n);
    }
  }

  // ---------- every cluster's view is a run of its node domain ----------

  /** Seen from any cluster, a run of the system is a run of the node domain; so every theorem about
      such runs holds of what is stored for that cluster. */
  lemma {:induction false} EveryViewIsARun(runners: Runners, fleets: seq<Fleet>, d: string) returns (worlds: seq<World>)
    requires IsFleetRun(runners, fleets) && d in runners
    ensures fleets[|fleets| - 1].locals.Keys == runners.Keys
    ensures IsRun(runners[d], worlds) && worlds[|worlds| - 1] == View(fleets[|fleets| - 1], d)
    decreases |fleets|
  {
    StoredHaveRunners(runners, fleets);
    if |fleets| == 1 {
      worlds := [View(fleets[0], d)];
      assert Others(map[], d) == map[];
    } else {
      var f, m := FrontIsFleetRun(runners, fleets);
      StoredHaveRunners(runners, fleets[..|fleets| - 1]);
      worlds := EveryViewIsARun(runners, fleets[..|fleets| - 1], d);
      if m.cluster == d {
        worlds := OwnMove(runners, f, m, worlds);
      } else {
        var theirs := EveryViewIsARun(runners, fleets[..|fleets| - 1], m.cluster);
        theirs := OwnMove(runners, f, m, theirs);
        worlds := ForeignMove(runners, f, m, d, worlds, theirs);
      }
    }
  }

  /** The run of the cluster that moves goes on. */
  lemma OwnMove(runners: Runners, f: Fleet, m: Move, worlds: seq<World>) returns (longer: seq<World>)
    requires Named(runners) && CanMove(runners, f, m)
    requires IsRun(runners[m.cluster], worlds) && worlds[|worlds| - 1] == View(f, m.cluster)
    ensures IsRun(runners[m.cluster], longer) && longer[|longer| - 1] == View(Moved(runners, f, m), m.cluster)
  {
    var r := runners[m.cluster];
    if m.Runs? {
      StoreOkInRuns(r, worlds);
      if m.action.Carry? || m.action.Fill? {
        GivenIsSnapshot(f, m.cluster, r, m.action.snapshot);
      }
      OneMoreStep(r, worlds, m.action);
      OwnView(runners, f, m.cluster, m.action);
      longer := worlds + [Apply(r, worlds[|worlds| - 1], m.action)];
    } else {
      ElsewhereView(runners, f, m, m.cluster);
      longer := worlds;
    }
  }

  /** The runs of the others go on with it. */
  lemma ForeignMove(runners: Runners, f: Fleet, m: Move, d: string, worlds: seq<World>, theirs: seq<World>)
    returns (longer: seq<World>)
    requires Named(runners) && CanMove(runners, f, m) && d in runners && d in f.locals && d != m.cluster
    requires IsRun(runners[d], worlds) && worlds[|worlds| - 1] == View(f, d)
    requires IsRun(runners[m.cluster], theirs) && theirs[|theirs| - 1] == View(Moved(runners, f, m), m.cluster)
    ensures IsRun(runners[d], longer) && longer[|longer| - 1] == View(Moved(runners, f, m), d)
  {
    var f' := Moved(runners, f, m);
    var written := Foreign(m.cluster, Cache.DomainAt(f'.contents, m.cluster).nodes);
    StoreOkInRuns(runners[m.cluster], theirs);
    if m.Runs? {
      OtherView(runners, f, m.cluster, m.action, d);
    } else {
      ElsewhereView(runners, f, m, d);
    }
    if m.Runs? && !Writes(m.action) {
      longer := worlds;
    } else {
      OneMoreStep(runners[d], worlds, written);
      longer := worlds + [Apply(runners[d], worlds[|worlds| - 1], written)];
    }
  }

  // ---------- what follows for the store ----------

  /** In every reachable state every stored node of every cluster is filed under its cluster with a
      distinct id, CPU usage a ratio, disk amounts paired and in order, interfaces strictly sorted. */
  lemma AllStoredNodesAreWellFormed(runners: Runners, fleets: seq<Fleet>, c: string)
    requires IsFleetRun(runners, fleets) && c in fleets[|fleets| - 1].contents
    ensures Proper(fleets[|fleets| - 1].contents[c].nodes, c)
  {
    StoredHaveRunners(runners, fleets);
    var worlds := EveryViewIsARun(runners, fleets, c);
    StoreOkInRuns(runners[c], worlds);
  }

  /** In every reachable state a snapshot of the store, whatever order it visits the clusters in, is
      one that every cluster's collections are modelled to read: each stored node of every
      cluster once, sorted by cluster and id. */
  lemma StoreGivesSnapshots(runners: Runners, fleets: seq<Fleet>, c: string, order: seq<string>)
    requires IsFleetRun(runners, fleets) && c in runners
    requires Enumerates(order, Cache.NodeLists(fleets[|fleets| - 1].contents))
    ensures c in fleets[|fleets| - 1].locals
    ensures IsSnapshot(Cache.ShownNodes(fleets[|fleets| - 1].contents, order), View(fleets[|fleets| - 1], c))
  {
    var f := fleets[|fleets| - 1];
    var worlds := EveryViewIsARun(runners, fleets, c);
    StoreOkInRuns(runners[c], worlds);
    GivenIsSnapshot(f, c, runners[c], Cache.ShownNodes(f.contents, order));
  }

  // ---------- the store on the heap ----------

  /** A store holds what the system says is stored. */
  ghost predicate Represents(s: Cache.Store, f: Fleet)
    reads s
  {
    s.Contents() == f.contents && s.generations == f.generations
  }

  /** A write step, carried out on the store. */
  method WriteNodes(s: Cache.Store, values: array<NodeRecord>, c: string, resources: bool,
                    ghost runners: Runners, ghost f: Fleet, ghost a: Action, ghost given: set<object>)
    requires s.Valid() && Represents(s, f) && CanMove(runners, f, Runs(c, a)) && Writes(a)
             && a.ReplaceResources? == resources
    requires NodesStand(values[..], Apply(runners[c], View(f, c), a).own.nodes, given) && s !in given
    modifies s.Repr()
    ensures s.Valid() && Represents(s, Moved(runners, f, Runs(c, a)))
  {
    ghost var nodes := Apply(runners[c], View(f, c), a).own.nodes;
    ghost var more;
    if resources {
      more := s.ReplaceNodeResources(c, values, nodes, given);
    } else {
      more := s.ReplaceNodes(c, values, nodes, given);
    }
  }

  /** A read step, carried out on the store. */
  method ReadNodes(s: Cache.Store, ghost f: Fleet)
    returns (nodes: array<NodeRecord>, ghost values: seq<Node>, ghost area: set<object>)
    requires s.Valid() && Represents(s, f)
    ensures fresh(nodes) && fresh(area) && NodesStand(nodes[..], values, area) && Gives(f.contents, values)
  {
    var snapshot, seen := s.TakeSnapshot();
    nodes, values, area := snapshot.nodes, Cache.ShownNodes(f.contents, seen.linked.order), seen.linked.area;
  }
}
