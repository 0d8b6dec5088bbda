/**
 Cached nodes and the loops that change them: reading the inventory, joining health,
 carrying resources over from the previous snapshot, merging the resource queries, and
 refreshing the resource fields of the enabled capabilities.
 */
module NodeDomain {
  import opened Common
  import opened NodeReadings
  import opened NodeAccumulator
  import opened NodeResources
  import Flux
  import Merging

  datatype Service = Service(name: string, kind: string, status: string, health: real)

  datatype Status = Status(health: real, services: seq<Service>)

  datatype Node = Node(
    cluster: string, id: string, name: string, ip: Option<string>, rack: Option<string>, version: string,
    health: Option<real>, state: Option<string>, services: seq<Service>, resource: NodeResource, collectedAt: int)
  {
    /** Everything but the resource fields. */
    function Inventory(): Node {
      this.(resource := EMPTY)
    }
  }

  function NodeKey(n: Node): seq<string> {
    [n.cluster, n.id]
  }

  // ---------- the inventory ----------

  datatype RawNode = RawNode(id: string, name: string, ip: string, rack: string, version: string, state: string)

  function StringPointer(s: string): Option<string> {
    if s == "" then None else Some(s)
  }

  function FromRaw(raw: RawNode, cluster: string, collectedAt: int): Node {
    Node(cluster, raw.id, raw.name, StringPointer(raw.ip), StringPointer(raw.rack), raw.version,
         None, StringPointer(raw.state), [], EMPTY, collectedAt)
  }

  /** The node list of a response. */
  function Inventoried(raws: seq<RawNode>, cluster: string, collectedAt: int): (r: seq<Node>)
    ensures |r| == |raws| && forall i :: 0 <= i < |raws| ==> r[i] == FromRaw(raws[i], cluster, collectedAt)
  {
    seq(|raws|, i requires 0 <= i < |raws| => FromRaw(raws[i], cluster, collectedAt))
  }

  function RawVersions(raws: seq<RawNode>): (r: seq<string>)
    ensures |r| == |raws| && forall i :: 0 <= i < |raws| ==> r[i] == raws[i].version
  {
    seq(|raws|, i requires 0 <= i < |raws| => raws[i].version)
  }

  predicate Complete(raw: RawNode) {
    raw.id != "" && raw.name != "" && raw.version != ""
  }

  function RawId(raw: RawNode): string { raw.id }
  function RawName(raw: RawNode): string { raw.name }

  ghost predicate AllGood(raws: seq<RawNode>) {
    (forall i :: 0 <= i < |raws| ==> Complete(raws[i])) && DistinctKeys(raws, RawId) && DistinctKeys(raws, RawName)
  }

  /** A usable response: some nodes, each with id, name and version, no id and no name twice. */
  ghost predicate GoodInventory(raws: seq<RawNode>) {
    raws != [] && AllGood(raws)
  }

  function Ids(raws: seq<RawNode>): set<string> {
    set raw | raw in raws :: raw.id
  }

  function NodeNames(raws: seq<RawNode>): set<string> {
    set raw | raw in raws :: raw.name
  }

  lemma OneMoreRaw(raws: seq<RawNode>, raw: RawNode)
    ensures Ids(raws + [raw]) == Ids(raws) + {raw.id} && NodeNames(raws + [raw]) == NodeNames(raws) + {raw.name}
    ensures AllGood(raws) && Complete(raw) && raw.id !in Ids(raws) && raw.name !in NodeNames(raws)
            ==> AllGood(raws + [raw])
  {
    assert forall r :: r in raws + [raw] <==> r in raws || r == raw;
    if raw.id !in Ids(raws) { AppendDistinct(raws, raw, RawId); }
    if raw.name !in NodeNames(raws) { AppendDistinct(raws, raw, RawName); }
  }

  lemma AppendDistinct(raws: seq<RawNode>, raw: RawNode, key: RawNode -> string)
    requires forall r :: r in raws ==> key(r) != key(raw)
    ensures DistinctKeys(raws, key) ==> DistinctKeys(raws + [raw], key)
  {
  }

  lemma BadRaw(raws: seq<RawNode>, k: nat)
    requires k < |raws|
    requires !Complete(raws[k]) || raws[k].id in Ids(raws[..k]) || raws[k].name in NodeNames(raws[..k])
    ensures !AllGood(raws)
  {
    if raws[k].id in Ids(raws[..k]) {
      var i :| 0 <= i < k && raws[i].id == raws[k].id;
      assert RawId(raws[i]) == RawId(raws[k]);
    } else if raws[k].name in NodeNames(raws[..k]) {
      var i :| 0 <= i < k && raws[i].name == raws[k].name;
      assert RawName(raws[i]) == RawName(raws[k]);
    }
  }

  /** What is refused: an empty list, a missing id, name or version, an id or a name that occurs twice. */
  lemma GoodMeans(raws: seq<RawNode>)
    ensures GoodInventory(raws)
       <==> && raws != [] && (forall raw :: raw in raws ==> raw.id != "" && raw.name != "" && raw.version != "")
            && forall i, j :: 0 <= i < j < |raws| ==> raws[i].id != raws[j].id && raws[i].name != raws[j].name
  {
    assert forall i :: 0 <= i < |raws| ==> raws[i].id == RawId(raws[i]) && raws[i].name == RawName(raws[i]);
    forall i | 0 <= i < |raws| ensures raws[i] in raws {
    }
  }

  /** What a node list is right after parsing. */
  ghost predicate Newly(nodes: seq<Node>, cluster: string) {
    nodes != [] && DistinctKeys(nodes, NodeKey)
    && forall i :: 0 <= i < |nodes| ==> nodes[i].cluster == cluster && nodes[i].resource == EMPTY
  }

  /** `ParseNodes` on a decoded response. */
  method ParseNodes(raws: seq<RawNode>, cluster: string, collectedAt: int) returns (r: Result<(seq<Node>, seq<string>)>)
    ensures r.Ok? <==> GoodInventory(raws)
    ensures r.Ok? ==> r.value == (Inventoried(raws, cluster, collectedAt), RawVersions(raws))
    ensures r.Ok? ==> Newly(r.value.0, cluster)
  {
    if raws == [] {
      return Err("node list is empty");
    }
    var nodes: seq<Node>, versions: seq<string> := [], [];
    var seen: set<string>, seenNames: set<string> := {}, {};
    for k := 0 to |raws|
      invariant |nodes| == k && |versions| == k
      invariant forall i :: 0 <= i < k ==>
                  nodes[i] == FromRaw(raws[i], cluster, collectedAt) && versions[i] == raws[i].version
      invariant seen == Ids(raws[..k]) && seenNames == NodeNames(raws[..k])
      invariant AllGood(raws[..k])
    {
      var raw := raws[k];
      if raw.id == "" || raw.name == "" || raw.version == "" {
        BadRaw(raws, k);
        return Err("node id, name, and version are required");
      }
      if raw.id in seen {
        BadRaw(raws, k);
        return Err("duplicate node id");
      }
      if raw.name in seenNames {
        BadRaw(raws, k);
        return Err("duplicate node name");
      }
      Cut(raws, k);
      OneMoreRaw(raws[..k], raw);
      seen, seenNames := seen + {raw.id}, seenNames + {raw.name};
      nodes := nodes + [FromRaw(raw, cluster, collectedAt)];
      versions := versions + [raw.version];
    }
    assert raws[..|raws|] == raws;
    NewNodes(raws, nodes, cluster, collectedAt);
    assert nodes == Inventoried(raws, cluster, collectedAt) && versions == RawVersions(raws);
    r := Ok((nodes, versions));
  }

  lemma NewNodes(raws: seq<RawNode>, nodes: seq<Node>, cluster: string, collectedAt: int)
    requires GoodInventory(raws) && |nodes| == |raws|
    requires forall i :: 0 <= i < |raws| ==> nodes[i] == FromRaw(raws[i], cluster, collectedAt)
    ensures Newly(nodes, cluster)
  {
    forall i, j | 0 <= i < j < |nodes| ensures NodeKey(nodes[i]) != NodeKey(nodes[j]) {
      assert RawId(raws[i]) != RawId(raws[j]);
      assert NodeKey(nodes[i])[1] != NodeKey(nodes[j])[1];
    }
  }

  // ---------- health ----------

  function WithStatus(statuses: map<string, Status>, includeServices: bool): Node -> Node {
    (n: Node) =>
      if n.id !in statuses then n
      else n.(health := Some(statuses[n.id].health),
              services := if includeServices then statuses[n.id].services else [])
  }

  /** `ApplyNodeStatuses`, in place. */
  method ApplyNodeStatuses(nodes: array<Node>, statuses: map<string, Status>, includeServices: bool)
    modifies nodes
    ensures nodes[..] == Map(old(nodes[..]), WithStatus(statuses, includeServices))
  {
    for k := 0 to nodes.Length
      invariant forall i :: 0 <= i < k ==> nodes[i] == WithStatus(statuses, includeServices)(old(nodes[i]))
      invariant forall i :: k <= i < nodes.Length ==> nodes[i] == old(nodes[i])
    {
      if nodes[k].id in statuses {
        var status := statuses[nodes[k].id];
        nodes[k] := nodes[k].(health := Some(status.health));
        if includeServices {
          nodes[k] := nodes[k].(services := status.services);
        } else {
          nodes[k] := nodes[k].(services := []);
        }
      }
    }
  }

  // ---------- carrying resources over ----------

  /** The last node of a list with a given cluster and id. */
  function Latest(previous: seq<Node>, cluster: string, id: string): (r: Option<Node>)
    ensures r.Some? ==> r.value in previous && r.value.cluster == cluster && r.value.id == id
    ensures r.None? ==> forall n :: n in previous ==> n.cluster != cluster || n.id != id
  {
    if previous == [] then None
    else
      var last := previous[|previous| - 1];
      if last.cluster == cluster && last.id == id then Some(last)
      else
        assert forall n :: n in previous <==> n in previous[..|previous| - 1] || n == last;
        Latest(previous[..|previous| - 1], cluster, id)
  }

  function Preserved(previous: seq<Node>): Node -> Node {
    (n: Node) =>
      var found := Latest(previous, n.cluster, n.id);
      if found.Some? then n.(resource := found.value.resource) else n
  }

  ghost predicate SafeNames(nodes: seq<Node>) {
    forall n :: n in nodes ==> NulFree(n.cluster)
  }

  /** The map from joined keys to nodes holds the last node under each pair. */
  ghost predicate ByPair(byId: map<string, Node>, previous: seq<Node>) {
    forall cluster, id :: NulFree(cluster) ==>
      (if Latest(previous, cluster, id).Some? then Key(cluster, id) in byId
       && byId[Key(cluster, id)] == Latest(previous, cluster, id).value
       else Key(cluster, id) !in byId)
  }

  lemma ByPairGrows(byId: map<string, Node>, previous: seq<Node>, n: Node)
    requires ByPair(byId, previous) && NulFree(n.cluster)
    ensures ByPair(byId[Key(n.cluster, n.id) := n], previous + [n])
  {
    var longer := previous + [n];
    assert longer[..|longer| - 1] == previous;
    forall cluster, id | NulFree(cluster)
      ensures if Latest(longer, cluster, id).Some?
              then Key(cluster, id) in byId[Key(n.cluster, n.id) := n]
                   && byId[Key(n.cluster, n.id) := n][Key(cluster, id)] == Latest(longer, cluster, id).value
              else Key(cluster, id) !in byId[Key(n.cluster, n.id) := n] {
      if Key(cluster, id) == Key(n.cluster, n.id) { KeyInjective(cluster, id, n.cluster, n.id); }
    }
  }

  /** The first loop of `preserveNodeResources`. */
  method IndexByPair(previous: seq<Node>) returns (byId: map<string, Node>)
    requires SafeNames(previous)
    ensures ByPair(byId, previous)
  {
    byId := map[];
    for k := 0 to |previous|
      invariant ByPair(byId, previous[..k])
    {
      Cut(previous, k);
      ByPairGrows(byId, previous[..k], previous[k]);
      byId := byId[Key(previous[k].cluster, previous[k].id) := previous[k]];
    }
    assert previous[..|previous|] == previous;
  }

  /** `preserveNodeResources`, in place. */
  method PreserveNodeResources(nodes: array<Node>, previous: seq<Node>)
    requires SafeNames(nodes[..]) && SafeNames(previous)
    modifies nodes
    ensures nodes[..] == Map(old(nodes[..]), Preserved(previous))
  {
    var byId := IndexByPair(previous);
    for k := 0 to nodes.Length
      invariant forall i :: 0 <= i < k ==> nodes[i] == Preserved(previous)(old(nodes[i]))
      invariant forall i :: k <= i < nodes.Length ==> nodes[i] == old(nodes[i])
    {
      var key := Key(nodes[k].cluster, nodes[k].id);
      assert old(nodes[..])[k] == nodes[k];
      assert NulFree(nodes[k].cluster);
      if key in byId {
        var r := byId[key].resource;
        nodes[k] := nodes[k].(resource := NodeResource(r.cpu, r.memUsed, r.memTotal, r.diskUsed, r.diskTotal,
                                                       r.network));
      }
    }
  }

  // ---------- refreshing resources ----------

  /** Which groups of resource fields a run collects. */
  datatype Groups = Groups(cpuMemory: bool, disk: bool, network: bool)

  function Found(resources: map<string, NodeResource>, id: string): NodeResource {
    Merging.At(resources, id, EMPTY)
  }

  /** Enabled groups are exactly what was collected, absent where nothing was; the others stay. */
  function Refreshed(resources: map<string, NodeResource>, groups: Groups): Node -> Node {
    (n: Node) =>
      var now, found := n.resource, Found(resources, n.id);
      n.(resource := NodeResource(
           if groups.cpuMemory then found.cpu else now.cpu,
           if groups.cpuMemory then found.memUsed else now.memUsed,
           if groups.cpuMemory then found.memTotal else now.memTotal,
           if groups.disk then found.diskUsed else now.diskUsed,
           if groups.disk then found.diskTotal else now.diskTotal,
           if groups.network then found.network else now.network))
  }

  function Cleared(groups: Groups): Node -> Node {
    Refreshed(map[], groups)
  }

  method ClearEnabled(nodes: array<Node>, groups: Groups)
    modifies nodes
    ensures nodes[..] == Map(old(nodes[..]), Cleared(groups))
  {
    for k := 0 to nodes.Length
      invariant forall i :: 0 <= i < k ==> nodes[i] == Cleared(groups)(old(nodes[i]))
      invariant forall i :: k <= i < nodes.Length ==> nodes[i] == old(nodes[i])
    {
      if groups.cpuMemory {
        nodes[k] := nodes[k].(resource := nodes[k].resource.(cpu := None, memUsed := None, memTotal := None));
      }
      if groups.disk {
        nodes[k] := nodes[k].(resource := nodes[k].resource.(diskUsed := None, diskTotal := None));
      }
      if groups.network {
        nodes[k] := nodes[k].(resource := nodes[k].resource.(network := []));
      }
    }
  }

  function Applied(resources: map<string, NodeResource>, groups: Groups): Node -> Node {
    (n: Node) => if n.id in resources then Refreshed(resources, groups)(n) else n
  }

  lemma ClearedThenApplied(nodes: seq<Node>, resources: map<string, NodeResource>, groups: Groups)
    ensures Map(Map(nodes, Cleared(groups)), Applied(resources, groups)) == Map(nodes, Refreshed(resources, groups))
  {
    forall n: Node ensures Applied(resources, groups)(Cleared(groups)(n)) == Refreshed(resources, groups)(n) {
    }
  }

  /** `ApplyNodeResourcesForCapabilities`, in place. */
  method ApplyNodeResources(nodes: array<Node>, resources: map<string, NodeResource>, groups: Groups)
    modifies nodes
    ensures nodes[..] == Map(old(nodes[..]), Applied(resources, groups))
  {
    for k := 0 to nodes.Length
      invariant forall i :: 0 <= i < k ==> nodes[i] == Applied(resources, groups)(old(nodes[i]))
      invariant forall i :: k <= i < nodes.Length ==> nodes[i] == old(nodes[i])
    {
      if nodes[k].id in resources {
        var found := resources[nodes[k].id];
        if groups.cpuMemory {
          nodes[k] := nodes[k].(resource := nodes[k].resource.(cpu := found.cpu, memUsed := found.memUsed,
                                                               memTotal := found.memTotal));
        }
        if groups.disk {
          nodes[k] := nodes[k].(resource := nodes[k].resource.(diskUsed := found.diskUsed,
                                                               diskTotal := found.diskTotal));
        }
        if groups.network {
          nodes[k] := nodes[k].(resource := nodes[k].resource.(network := found.network));
        }
        assert nodes[k] == Refreshed(resources, groups)(old(nodes[k]));
      }
    }
  }

  function OwnNodes(snapshot: seq<Node>, cluster: string): (r: seq<Node>)
    ensures forall n :: n in r <==> n in snapshot && n.cluster == cluster
  {
    if snapshot == [] then []
    else
      var last := snapshot[|snapshot| - 1];
      assert forall n :: n in snapshot <==> n in snapshot[..|snapshot| - 1] || n == last;
      OwnNodes(snapshot[..|snapshot| - 1], cluster) + if last.cluster == cluster then [last] else []
  }

  /** The end of `CollectNodeResources`: own nodes of a snapshot, cleared and filled. */
  method RefreshNodes(snapshot: seq<Node>, cluster: string, resources: map<string, NodeResource>, groups: Groups)
    returns (r: Result<seq<Node>>)
    ensures r.Err? <==> forall n :: n in snapshot ==> n.cluster != cluster
    ensures r.Ok? ==> r.value == Map(OwnNodes(snapshot, cluster), Refreshed(resources, groups))
  {
    var own: seq<Node> := [];
    for k := 0 to |snapshot|
      invariant own == OwnNodes(snapshot[..k], cluster)
    {
      Cut(snapshot, k);
      assert snapshot[..k + 1][..k] == snapshot[..k];
      if snapshot[k].cluster == cluster {
        own := own + [snapshot[k]];
      }
    }
    assert snapshot[..|snapshot|] == snapshot;
    if |own| == 0 {
      return Err("node cache is empty");
    }
    assert own[0] in own;
    var nodes := new Node[|own|](i requires 0 <= i < |own| => own[i]);
    assert nodes[..] == own;
    ClearEnabled(nodes, groups);
    ApplyNodeResources(nodes, resources, groups);
    ClearedThenApplied(own, resources, groups);
    r := Ok(nodes[..]);
  }

  // ---------- merging the queries ----------

  ghost predicate DisjointNames(a: seq<Network>, b: seq<Network>) {
    forall x, y :: x in a && y in b ==> x.iface != y.iface
  }

  /** Two records can be merged: no part is brought twice. */
  ghost predicate Mergeable(current: NodeResource, incoming: NodeResource) {
    && !(current.cpu.Some? && incoming.cpu.Some?)
    && !(current.memUsed.Some? && incoming.memUsed.Some?)
    && !(current.memTotal.Some? && incoming.memTotal.Some?)
    && !((current.diskUsed.Some? || current.diskTotal.Some?) && (incoming.diskUsed.Some? || incoming.diskTotal.Some?))
    && DisjointNames(current.network, incoming.network)
    && DistinctIfaces(incoming.network)
  }

  function Either(a: Option<real>, b: Option<real>): Option<real> {
    if b.Some? then b else a
  }

  function MergedRecord(current: NodeResource, incoming: NodeResource): NodeResource {
    var hasDisk := incoming.diskUsed.Some? || incoming.diskTotal.Some?;
    NodeResource(
      Either(current.cpu, incoming.cpu), Either(current.memUsed, incoming.memUsed),
      Either(current.memTotal, incoming.memTotal),
      if hasDisk then incoming.diskUsed else current.diskUsed,
      if hasDisk then incoming.diskTotal else current.diskTotal,
      Sort(current.network + incoming.network, IfaceKey, TupleLeq))
  }

  /** The interface loop: append each incoming interface unless its name is present. */
  method AppendNetworks(current: seq<Network>, incoming: seq<Network>) returns (r: Option<seq<Network>>)
    ensures r.Some? <==> DisjointNames(current, incoming) && DistinctIfaces(incoming)
    ensures r.Some? ==> r.value == current + incoming
  {
    var network := current;
    for k := 0 to |incoming|
      invariant network == current + incoming[..k]
      invariant DisjointNames(current, incoming[..k]) && DistinctIfaces(incoming[..k])
    {
      Cut(incoming, k);
      if exists n :: n in network && n.iface == incoming[k].iface {
        NameClash(current, incoming, k);
        return None;
      }
      NoClash(current, incoming, k);
      network := network + [incoming[k]];
    }
    assert incoming[..|incoming|] == incoming;
    r := Some(network);
  }

  lemma NameClash(current: seq<Network>, incoming: seq<Network>, k: nat)
    requires k < |incoming| && exists n :: n in current + incoming[..k] && n.iface == incoming[k].iface
    ensures !(DisjointNames(current, incoming) && DistinctIfaces(incoming))
  {
    var n :| n in current + incoming[..k] && n.iface == incoming[k].iface;
    if n !in current {
      var i :| 0 <= i < k && incoming[i] == n;
    } else {
      assert incoming[k] in incoming;
    }
  }

  lemma NoClash(current: seq<Network>, incoming: seq<Network>, k: nat)
    requires k < |incoming| && DisjointNames(current, incoming[..k]) && DistinctIfaces(incoming[..k])
    requires !exists n :: n in current + incoming[..k] && n.iface == incoming[k].iface
    ensures DisjointNames(current, incoming[..k + 1]) && DistinctIfaces(incoming[..k + 1])
  {
    Cut(incoming, k);
    forall x | x in current ensures x.iface != incoming[k].iface {
      assert x in current + incoming[..k];
    }
    forall i | 0 <= i < k ensures incoming[i].iface != incoming[k].iface {
      assert incoming[i] == incoming[..k][i];
      assert incoming[i] in current + incoming[..k];
    }
  }

  /** The body of the merge loop for one node. */
  method MergeRecord(current: NodeResource, incoming: NodeResource) returns (r: Option<NodeResource>)
    ensures r.Some? <==> Mergeable(current, incoming)
    ensures r.Some? ==> r.value == MergedRecord(current, incoming)
  {
    var c := current;
    if incoming.cpu.Some? {
      if c.cpu.Some? { return None; }
      c := c.(cpu := incoming.cpu);
    }
    if incoming.memUsed.Some? {
      if c.memUsed.Some? { return None; }
      c := c.(memUsed := incoming.memUsed);
    }
    if incoming.memTotal.Some? {
      if c.memTotal.Some? { return None; }
      c := c.(memTotal := incoming.memTotal);
    }
    if incoming.diskUsed.Some? || incoming.diskTotal.Some? {
      if c.diskUsed.Some? || c.diskTotal.Some? { return None; }
      c := c.(diskUsed := incoming.diskUsed, diskTotal := incoming.diskTotal);
    }
    var network := AppendNetworks(c.network, incoming.network);
    if network.None? { return None; }
    r := Some(c.(network := Sort(network.value, IfaceKey, TupleLeq)));
  }

  ghost predicate AllMergeable(target: map<string, NodeResource>, source: map<string, NodeResource>) {
    Merging.CanMerge(target, source, EMPTY, Mergeable)
  }

  function Merged(target: map<string, NodeResource>, source: map<string, NodeResource>): map<string, NodeResource> {
    Merging.Merge(target, source, EMPTY, MergedRecord)
  }

  /** `mergeNodeResources`, taking the nodes of the source in any order. */
  method MergeNodeResources(target: map<string, NodeResource>, source: map<string, NodeResource>)
    returns (ok: bool, merged: map<string, NodeResource>)
    ensures ok <==> AllMergeable(target, source)
    ensures ok ==> merged == Merged(target, source)
  {
    merged := target;
    var todo := source.Keys;
    while todo != {}
      invariant todo <= source.Keys && Merging.MergedBut(target, source, todo, merged, EMPTY, Mergeable, MergedRecord)
      decreases todo
    {
      var id :| id in todo;
      Merging.MergeOneMore(target, source, todo, merged, EMPTY, Mergeable, MergedRecord, id);
      todo := todo - {id};
      var r := MergeRecord(Found(merged, id), source[id]);
      if r.None? {
        return false, merged;
      }
      merged := merged[id := r.value];
    }
    Merging.MergedWhole(target, source, merged, EMPTY, Mergeable, MergedRecord);
    ok := true;
  }

  ghost predicate AllWellFormed(records: map<string, NodeResource>) {
    forall id :: id in records ==> WellFormed(records[id])
  }

  lemma ConcatDistinct(a: seq<Network>, b: seq<Network>)
    requires DistinctIfaces(a) && DistinctIfaces(b) && DisjointNames(a, b)
    ensures DistinctIfaces(a + b)
  {
  }

  /** Merging keeps CPU ratios, disk pairs and the strict order of interfaces, and loses nothing. */
  lemma MergeKeeps(current: NodeResource, incoming: NodeResource)
    requires WellFormed(current) && WellFormed(incoming) && Mergeable(current, incoming)
    ensures var r := MergedRecord(current, incoming);
            && WellFormed(r)
            && (forall n :: n in r.network <==> n in current.network || n in incoming.network)
            && |r.network| == |current.network| + |incoming.network|
  {
    AtMostOneName(current.network);
    ConcatDistinct(current.network, incoming.network);
    SortedNetwork(current.network + incoming.network);
  }

  lemma MergeAllKeeps(target: map<string, NodeResource>, source: map<string, NodeResource>)
    requires AllWellFormed(target) && AllWellFormed(source) && AllMergeable(target, source)
    ensures AllWellFormed(Merged(target, source))
  {
    forall id | id in Merged(target, source) ensures WellFormed(Merged(target, source)[id]) {
      if id in source {
        EmptyIsWellFormed();
        MergeKeeps(Found(target, id), source[id]);
      }
    }
  }

  lemma EmptyIsWellFormed()
    ensures WellFormed(EMPTY)
  {
  }

  predicate MemoryInOrder(r: NodeResource) {
    r.memUsed.Some? && r.memTotal.Some? ==> r.memUsed.value <= r.memTotal.value
  }

  /** Memory order is not rechecked: it survives a merge of ordered records exactly when no
      record brings a total below what the other one brought as used. */
  lemma MemoryOrderAfterMerge(current: NodeResource, incoming: NodeResource)
    requires Mergeable(current, incoming) && MemoryInOrder(current) && MemoryInOrder(incoming)
    ensures MemoryInOrder(MergedRecord(current, incoming)) <==>
              && (current.memUsed.Some? && incoming.memTotal.Some? ==> current.memUsed.value <= incoming.memTotal.value)
              && (incoming.memUsed.Some? && current.memTotal.Some? ==> incoming.memUsed.value <= current.memTotal.value)
  {
  }

  // ---------- all queries of one run ----------

  type Records = map<string, NodeResource>

  type Payload = seq<Flux.Series>

  /** The result of one accepted payload. */
  ghost predicate Parsed(rd: Flux.Reader, policy: Policy, payload: Payload, records: Records) {
    Acceptable(rd, policy, payload) && DescribesAll(rd, policy, ReadingsOf(rd, policy, payload), records)
  }

  lemma ParsedIsUnique(rd: Flux.Reader, policy: Policy, payload: Payload, x: Records, y: Records)
    requires Parsed(rd, policy, payload, x) && Parsed(rd, policy, payload, y)
    ensures x == y
  {
    ResultIsDetermined(rd, policy, ReadingsOf(rd, policy, payload), x, y);
  }

  lemma ParsedIsWellFormed(rd: Flux.Reader, policy: Policy, payload: Payload, records: Records)
    requires Parsed(rd, policy, payload, records)
    ensures AllWellFormed(records)
  {
    forall id | id in records ensures WellFormed(records[id]) {
      RecordsAreWellFormed(rd, policy, payload, records, id);
    }
  }

  /** The merge of a list of results, one after another. */
  function MergeSources(sources: seq<Records>): Records {
    if sources == [] then map[] else Merged(MergeSources(sources[..|sources| - 1]), sources[|sources| - 1])
  }

  function InterfaceCount(records: Records, node: string): nat {
    if node in records then |records[node].network| else 0
  }

  function InterfaceTotal(sources: seq<Records>, node: string): nat {
    if sources == [] then 0
    else InterfaceTotal(sources[..|sources| - 1], node) + InterfaceCount(sources[|sources| - 1], node)
  }

  /** The interface limit is not rechecked either: the interfaces of a node are as many as all queries
      together brought, so the limit holds afterwards exactly when they fit. */
  lemma {:induction false} InterfacesAddUp(sources: seq<Records>, node: string)
    ensures InterfaceCount(MergeSources(sources), node) == InterfaceTotal(sources, node)
  {
    if sources != [] {
      InterfacesAddUp(sources[..|sources| - 1], node);
    }
  }

  ghost predicate SourcesMergeable(sources: seq<Records>) {
    sources != [] ==>
      AllMergeable(MergeSources(sources[..|sources| - 1]), sources[|sources| - 1])
        && SourcesMergeable(sources[..|sources| - 1])
  }

  ghost predicate ParsedEach(rd: Flux.Reader, policy: Policy, payloads: seq<Payload>, sources: seq<Records>) {
    |sources| == |payloads| && forall i :: 0 <= i < |payloads| ==> Parsed(rd, policy, payloads[i], sources[i])
  }

  /** A run's queries succeed: every payload is accepted on its own and all results merge. */
  ghost predicate Gathers(rd: Flux.Reader, policy: Policy, payloads: seq<Payload>, sources: seq<Records>) {
    ParsedEach(rd, policy, payloads, sources) && SourcesMergeable(sources)
  }

  lemma SourcesAreUnique(rd: Flux.Reader, policy: Policy, payloads: seq<Payload>, x: seq<Records>, y: seq<Records>)
    requires ParsedEach(rd, policy, payloads, x) && ParsedEach(rd, policy, payloads, y)
    ensures x == y
  {
    forall i | 0 <= i < |payloads| ensures x[i] == y[i] {
      ParsedIsUnique(rd, policy, payloads[i], x[i], y[i]);
    }
  }

  lemma {:induction false} PrefixMergeable(sources: seq<Records>, k: nat)
    requires SourcesMergeable(sources) && k <= |sources|
    ensures SourcesMergeable(sources[..k])
  {
    if k == |sources| {
      assert sources[..k] == sources;
    } else {
      PrefixMergeable(sources[..|sources| - 1], k);
      assert sources[..|sources| - 1][..k] == sources[..k];
    }
  }

  /** From Flux rows to merged records: what a run gathers is well formed. */
  lemma {:induction false} GatheredIsWellFormed(rd: Flux.Reader, policy: Policy, payloads: seq<Payload>,
                                                sources: seq<Records>)
    requires Gathers(rd, policy, payloads, sources)
    ensures AllWellFormed(MergeSources(sources))
  {
    if sources != [] {
      var k := |sources| - 1;
      GatheredIsWellFormed(rd, policy, payloads[..k], sources[..k]);
      ParsedIsWellFormed(rd, policy, payloads[k], sources[k]);
      MergeAllKeeps(MergeSources(sources[..k]), sources[k]);
    }
  }

  lemma ParseFails(rd: Flux.Reader, policy: Policy, payloads: seq<Payload>, k: nat)
    requires k < |payloads| && !Acceptable(rd, policy, payloads[k])
    ensures forall sources :: !Gathers(rd, policy, payloads, sources)
  {
  }

  lemma MergeFails(rd: Flux.Reader, policy: Policy, payloads: seq<Payload>, k: nat, done: seq<Records>, last: Records)
    requires k < |payloads| && ParsedEach(rd, policy, payloads[..k], done) && Parsed(rd, policy, payloads[k], last)
    requires !AllMergeable(MergeSources(done), last)
    ensures forall sources :: !Gathers(rd, policy, payloads, sources)
  {
    forall sources | Gathers(rd, policy, payloads, sources) ensures false {
      MergeContradicts(rd, policy, payloads, k, done, last, sources);
    }
  }

  lemma MergeContradicts(rd: Flux.Reader, policy: Policy, payloads: seq<Payload>, k: nat, done: seq<Records>,
                         last: Records, sources: seq<Records>)
    requires k < |payloads| && ParsedEach(rd, policy, payloads[..k], done) && Parsed(rd, policy, payloads[k], last)
    requires Gathers(rd, policy, payloads, sources)
    ensures AllMergeable(MergeSources(done), last)
  {
    MergeableAt(sources, k);
    ParsedIsUnique(rd, policy, payloads[k], sources[k], last);
    PrefixParsed(rd, policy, payloads, sources, k);
    SourcesAreUnique(rd, policy, payloads[..k], sources[..k], done);
  }

  lemma MergeableAt(sources: seq<Records>, k: nat)
    requires SourcesMergeable(sources) && k < |sources|
    ensures AllMergeable(MergeSources(sources[..k]), sources[k])
  {
    PrefixMergeable(sources, k + 1);
    assert sources[..k + 1][..k] == sources[..k];
  }

  lemma PrefixParsed(rd: Flux.Reader, policy: Policy, payloads: seq<Payload>, sources: seq<Records>, k: nat)
    requires k <= |payloads| && ParsedEach(rd, policy, payloads, sources)
    ensures ParsedEach(rd, policy, payloads[..k], sources[..k])
  {
  }

  lemma ParsedOneMore(rd: Flux.Reader, policy: Policy, payloads: seq<Payload>, done: seq<Records>, payload: Payload,
                      last: Records)
    requires ParsedEach(rd, policy, payloads, done) && Parsed(rd, policy, payload, last)
    ensures ParsedEach(rd, policy, payloads + [payload], done + [last])
  {
    var ps, rs := payloads + [payload], done + [last];
    forall i | 0 <= i < |ps| ensures Parsed(rd, policy, ps[i], rs[i]) {
      if i < |payloads| { assert ps[i] == payloads[i] && rs[i] == done[i]; }
    }
  }

  lemma GatherOneMore(rd: Flux.Reader, policy: Policy, payloads: seq<Payload>, k: nat, done: seq<Records>,
                      last: Records)
    requires k < |payloads| && Gathers(rd, policy, payloads[..k], done) && Parsed(rd, policy, payloads[k], last)
    requires AllMergeable(MergeSources(done), last)
    ensures Gathers(rd, policy, payloads[..k + 1], done + [last])
    ensures MergeSources(done + [last]) == Merged(MergeSources(done), last)
  {
    ParsedOneMore(rd, policy, payloads[..k], done, payloads[k], last);
    Cut(payloads, k);
    MergedLast(done, last);
  }

  lemma MergedLast(done: seq<Records>, last: Records)
    requires AllMergeable(MergeSources(done), last) && SourcesMergeable(done)
    ensures SourcesMergeable(done + [last]) && MergeSources(done + [last]) == Merged(MergeSources(done), last)
  {
    assert (done + [last])[..|done|] == done;
  }

  /** The query loop of `CollectNodeResources` over the payloads it receives. */
  method Gather(rd: Flux.Reader, policy: Policy, payloads: seq<Payload>)
    returns (r: Result<Records>, ghost sources: seq<Records>)
    ensures r.Err? ==> forall any :: !Gathers(rd, policy, payloads, any)
    ensures r.Ok? ==> Gathers(rd, policy, payloads, sources) && r.value == MergeSources(sources)
  {
    var resources: Records := map[];
    sources := [];
    for k := 0 to |payloads|
      invariant Gathers(rd, policy, payloads[..k], sources) && resources == MergeSources(sources)
    {
      var values := ParseNodeResources(rd, policy, payloads[k]);
      if values.Err? {
        ParseFails(rd, policy, payloads, k);
        return Err("Flux payload rejected"), sources;
      }
      var ok, merged := MergeNodeResources(resources, values.value);
      if !ok {
        MergeFails(rd, policy, payloads, k, sources, values.value);
        return Err("Flux series is duplicated across queries"), sources;
      }
      GatherOneMore(rd, policy, payloads, k, sources, values.value);
      resources, sources := merged, sources + [values.value];
    }
    assert payloads[..|payloads|] == payloads;
    r := Ok(resources);
  }
}
