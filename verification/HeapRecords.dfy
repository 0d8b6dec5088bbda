/**
 Records as they lie in memory: structs whose optional fields are pointers and whose lists
 are slices, the values they stand for, and the deep copies that the store makes of them.

 Each record carries, as ghost information, the set of objects that it consists of.
 */
module HeapRecords {
  import opened Common
  import opened NodeReadings
  import opened NodeDomain

  /** What a pointer field points to. */
  class Cell<T> {
    var value: T
    constructor (value: T)
      ensures this.value == value
    {
      this.value := value;
    }
  }

  function Load<T>(p: Cell?<T>): Option<T>
    reads p
  {
    if p == null then None else Some(p.value)
  }

  /** `clonePointer`. */
  method ClonePointer<T>(p: Cell?<T>) returns (r: Cell?<T>)
    ensures Load(r) == Load(p) && (r != null ==> fresh(r))
  {
    if p == null {
      return null;
    }
    r := new Cell(p.value);
  }

  ghost function Of(p: object?): set<object> {
    if p == null then {} else {p}
  }

  ghost predicate In(p: object?, area: set<object>) {
    p != null ==> p in area
  }

  // ---------- nodes ----------

  datatype NetworkRecord = NetworkRecord(iface: string, receive: Cell?<real>, transmit: Cell?<real>)

  datatype NodeRecord = NodeRecord(
    cluster: string, id: string, name: string, ip: Cell?<string>, rack: Cell?<string>, version: string,
    health: Cell?<real>, state: Cell?<string>, cpu: Cell?<real>, memUsed: Cell?<real>, memTotal: Cell?<real>,
    diskUsed: Cell?<real>, diskTotal: Cell?<real>, network: array<NetworkRecord>, services: array<Service>,
    collectedAt: int,
    ghost area: set<object>)

  ghost predicate NetworkIn(network: array<NetworkRecord>, area: set<object>)
    reads area
  {
    network in area && forall i :: 0 <= i < network.Length ==>
        In(network[i].receive, area) && In(network[i].transmit, area)
  }

  /** All memory of the record lies in its area. */
  ghost predicate NodeIn(n: NodeRecord)
    reads n.area
  {
    && NetworkIn(n.network, n.area) && n.services in n.area
    && In(n.ip, n.area) && In(n.rack, n.area) && In(n.health, n.area) && In(n.state, n.area) && In(n.cpu, n.area)
    && In(n.memUsed, n.area) && In(n.memTotal, n.area) && In(n.diskUsed, n.area) && In(n.diskTotal, n.area)
  }

  ghost function NetworkOf(n: NetworkRecord): Network
    reads n.receive, n.transmit
  {
    Network(n.iface, Load(n.receive), Load(n.transmit))
  }

  ghost function NetworksOf(network: array<NetworkRecord>, area: set<object>): (r: seq<Network>)
    requires NetworkIn(network, area)
    reads area
    ensures |r| == network.Length && forall i :: 0 <= i < |r| ==> r[i] == NetworkOf(network[i])
  {
    seq(network.Length, i requires 0 <= i < network.Length
        && NetworkIn(network, area) reads area => NetworkOf(network[i]))
  }

  /** The value of a record. */
  ghost function NodeOf(n: NodeRecord): Node
    requires NodeIn(n)
    reads n.area
  {
    Node(n.cluster, n.id, n.name, Load(n.ip), Load(n.rack), n.version, Load(n.health), Load(n.state), n.services[..],
         NodeResource(Load(n.cpu), Load(n.memUsed), Load(n.memTotal), Load(n.diskUsed), Load(n.diskTotal),
                      NetworksOf(n.network, n.area)),
         n.collectedAt)
  }

  method CloneInterface(n: NetworkRecord) returns (r: NetworkRecord, ghost area: set<object>)
    ensures fresh(area) && In(r.receive, area) && In(r.transmit, area) && NetworkOf(r) == NetworkOf(n)
  {
    var receive := ClonePointer(n.receive);
    var transmit := ClonePointer(n.transmit);
    r := n.(receive := receive, transmit := transmit);
    area := Of(receive) + Of(transmit);
  }

  /** `slices.Clone` and the loop over the interfaces. */
  method CloneNetwork(network: array<NetworkRecord>) returns (r: array<NetworkRecord>, ghost area: set<object>)
    ensures fresh(area) && NetworkIn(r, area) && r.Length == network.Length
    ensures forall i :: 0 <= i < network.Length ==> NetworkOf(r[i]) == NetworkOf(network[i])
  {
    r := new NetworkRecord[network.Length](i requires 0 <= i < network.Length reads network => network[i]);
    area := {r};
    for k := 0 to network.Length
      invariant fresh(area) && r in area && fresh(r)
      invariant forall i :: k <= i < network.Length ==> r[i] == network[i]
      invariant forall i :: 0 <= i < k ==> In(r[i].receive, area) && In(r[i].transmit, area)
      invariant forall i :: 0 <= i < k ==> NetworkOf(r[i]) == NetworkOf(network[i])
    {
      var cloned, more := CloneInterface(network[k]);
      r[k] := cloned;
      area := area + more;
    }
  }

  /** The pointers outside the resource fields. */
  method CloneFacts(n: NodeRecord) returns (ip: Cell?<string>, rack: Cell?<string>, state: Cell?<string>,
                                            health: Cell?<real>, ghost area: set<object>)
    ensures fresh(area) && In(ip, area) && In(rack, area) && In(state, area) && In(health, area)
    ensures Load(ip) == Load(n.ip) && Load(rack) == Load(n.rack) && Load(state) == Load(n.state)
            && Load(health) == Load(n.health)
  {
    ip := ClonePointer(n.ip);
    rack := ClonePointer(n.rack);
    state := ClonePointer(n.state);
    health := ClonePointer(n.health);
    area := Of(ip) + Of(rack) + Of(state) + Of(health);
  }

  /** The pointers among the resource fields, leaving out the interfaces. */
  method CloneAmounts(n: NodeRecord)
    returns (cpu: Cell?<real>, memUsed: Cell?<real>, memTotal: Cell?<real>, diskUsed: Cell?<real>,
             diskTotal: Cell?<real>, ghost area: set<object>)
    ensures fresh(area) && In(cpu, area) && In(memUsed, area) && In(memTotal, area) && In(diskUsed, area)
            && In(diskTotal, area)
    ensures Load(cpu) == Load(n.cpu) && Load(memUsed) == Load(n.memUsed) && Load(memTotal) == Load(n.memTotal)
    ensures Load(diskUsed) == Load(n.diskUsed) && Load(diskTotal) == Load(n.diskTotal)
  {
    cpu := ClonePointer(n.cpu);
    memUsed := ClonePointer(n.memUsed);
    memTotal := ClonePointer(n.memTotal);
    diskUsed := ClonePointer(n.diskUsed);
    diskTotal := ClonePointer(n.diskTotal);
    area := Of(cpu) + Of(memUsed) + Of(memTotal) + Of(diskUsed) + Of(diskTotal);
  }

  /** The slices. */
  method CloneLists(n: NodeRecord) returns (network: array<NetworkRecord>, services: array<Service>,
                                            ghost area: set<object>)
    ensures fresh(area) && NetworkIn(network, area) && services in area && network.Length == n.network.Length
    ensures services[..] == n.services[..]
    ensures forall i :: 0 <= i < n.network.Length ==> NetworkOf(network[i]) == NetworkOf(n.network[i])
  {
    services := new Service[n.services.Length](i requires 0 <= i < n.services.Length reads n.services => n.services[i]);
    network, area := CloneNetwork(n.network);
    area := area + {services};
  }

  /** The loop body of `cloneNodes`. */
  method CloneNode(n: NodeRecord) returns (r: NodeRecord)
    requires NodeIn(n)
    ensures fresh(r.area) && NodeIn(r)
    ensures NodeOf(r) == NodeOf(n)
  {
    var network, services, lists := CloneLists(n);
    var ip, rack, state, health, facts := CloneFacts(n);
    var cpu, memUsed, memTotal, diskUsed, diskTotal, amounts := CloneAmounts(n);
    r := NodeRecord(n.cluster, n.id, n.name, ip, rack, n.version, health, state, cpu, memUsed, memTotal,
                    diskUsed, diskTotal, network, services, n.collectedAt, facts + amounts + lists);
    SameNode(r, n);
  }

  ghost predicate FactsAlike(r: NodeRecord, n: NodeRecord)
    reads r.ip, r.rack, r.state, r.health, n.ip, n.rack, n.state, n.health
  {
    Load(r.ip) == Load(n.ip) && Load(r.rack) == Load(n.rack) && Load(r.state) == Load(n.state)
      && Load(r.health) == Load(n.health)
  }

  lemma SameNode(r: NodeRecord, n: NodeRecord)
    requires NodeIn(r) && NodeIn(n) && r.network.Length == n.network.Length
    requires forall i :: 0 <= i < n.network.Length ==> NetworkOf(r.network[i]) == NetworkOf(n.network[i])
    requires r.services[..] == n.services[..] && FactsAlike(r, n)
    requires Load(r.cpu) == Load(n.cpu) && Load(r.memUsed) == Load(n.memUsed) && Load(r.memTotal) == Load(n.memTotal)
    requires Load(r.diskUsed) == Load(n.diskUsed) && Load(r.diskTotal) == Load(n.diskTotal)
    requires r.cluster == n.cluster && r.id == n.id && r.name == n.name && r.version == n.version
             && r.collectedAt == n.collectedAt
    ensures NodeOf(r) == NodeOf(n)
  {
    assert NetworksOf(r.network, r.area) == NetworksOf(n.network, n.area);
  }

  // ---------- lists of nodes ----------

  /** The record lies in `area` and stands for a value. */
  ghost predicate NodeStands(n: NodeRecord, value: Node, area: set<object>)
    reads area
  {
    n.area <= area && NodeIn(n) && NodeOf(n) == value
  }

  /** Each pointer of a record holds the value's field of its own name. */
  lemma NodeFieldByField(n: NodeRecord, value: Node, area: set<object>)
    requires NodeStands(n, value, area)
    ensures n.cluster == value.cluster && n.id == value.id && n.name == value.name && n.version == value.version
    ensures Load(n.ip) == value.ip && Load(n.rack) == value.rack && Load(n.state) == value.state
    ensures Load(n.health) == value.health && n.services[..] == value.services && n.collectedAt == value.collectedAt
    ensures Load(n.cpu) == value.resource.cpu
    ensures Load(n.memUsed) == value.resource.memUsed && Load(n.memTotal) == value.resource.memTotal
    ensures Load(n.diskUsed) == value.resource.diskUsed && Load(n.diskTotal) == value.resource.diskTotal
    ensures n.network.Length == |value.resource.network|
    ensures forall i :: 0 <= i < n.network.Length ==>
              && n.network[i].iface == value.resource.network[i].iface
              && Load(n.network[i].receive) == value.resource.network[i].receive
              && Load(n.network[i].transmit) == value.resource.network[i].transmit
  {
  }

  ghost predicate NodesStand(nodes: seq<NodeRecord>, values: seq<Node>, area: set<object>)
    reads area
  {
    |nodes| == |values| && forall i :: 0 <= i < |nodes| ==> NodeStands(nodes[i], values[i], area)
  }

  lemma NodesGrow(nodes: seq<NodeRecord>, values: seq<Node>, area: set<object>, n: NodeRecord, value: Node,
                  more: set<object>)
    requires NodesStand(nodes, values, area) && NodeStands(n, value, more)
    ensures NodesStand(nodes + [n], values + [value], area + more)
  {
    forall i | 0 <= i < |nodes| ensures NodeStands(nodes[i], values[i], area + more) {
      assert NodeStands(nodes[i], values[i], area);
    }
  }

  /** The loop of `cloneNodes`. */
  method CloneEach(nodes: seq<NodeRecord>, ghost values: seq<Node>, ghost given: set<object>)
    returns (r: seq<NodeRecord>, ghost area: set<object>)
    requires NodesStand(nodes, values, given)
    ensures fresh(area) && NodesStand(r, values, area)
  {
    r, area := [], {};
    for k := 0 to |nodes|
      invariant fresh(area) && NodesStand(r, values[..k], area)
    {
      assert NodesStand(nodes, values, given);
      assert NodeStands(nodes[k], values[k], given);
      var n := CloneNode(nodes[k]);
      NodesGrow(r, values[..k], area, n, values[k], n.area);
      Cut(values, k);
      r, area := r + [n], area + n.area;
    }
    assert values[..|nodes|] == values;
  }

  /** `cloneNodes`: a new slice of new records with the same values. */
  method CloneNodes(nodes: array<NodeRecord>, ghost values: seq<Node>, ghost given: set<object>)
    returns (r: array<NodeRecord>, ghost area: set<object>)
    requires NodesStand(nodes[..], values, given)
    ensures fresh(r) && fresh(area) && r !in area && NodesStand(r[..], values, area)
  {
    var cloned;
    cloned, area := CloneEach(nodes[..], values, given);
    r := new NodeRecord[|cloned|](i requires 0 <= i < |cloned| => cloned[i]);
    assert r[..] == cloned;
  }

  lemma LargerArea(nodes: seq<NodeRecord>, values: seq<Node>, area: set<object>, larger: set<object>)
    requires NodesStand(nodes, values, area) && area <= larger
    ensures NodesStand(nodes, values, larger)
  {
    forall i | 0 <= i < |nodes| ensures NodeStands(nodes[i], values[i], larger) {
      assert NodeStands(nodes[i], values[i], area);
    }
  }

  lemma NodesConcat(a: seq<NodeRecord>, x: seq<Node>, area: set<object>, b: seq<NodeRecord>, y: seq<Node>,
                    more: set<object>)
    requires NodesStand(a, x, area) && NodesStand(b, y, more)
    ensures NodesStand(a + b, x + y, area + more)
  {
    LargerArea(a, x, area, area + more);
    LargerArea(b, y, more, area + more);
  }

  // ---------- sorting records ----------

  function RecordKey(n: NodeRecord): seq<string> {
    [n.cluster, n.id]
  }

  lemma SameKey(n: NodeRecord, value: Node, area: set<object>)
    requires NodeStands(n, value, area)
    ensures RecordKey(n) == NodeKey(value)
  {
  }

  lemma FirstAndRest(nodes: seq<NodeRecord>, values: seq<Node>, area: set<object>)
    requires NodesStand(nodes, values, area) && nodes != []
    ensures NodeStands(nodes[0], values[0], area) && NodesStand(nodes[1..], values[1..], area)
    ensures NodesStand(nodes[..|nodes| - 1], values[..|nodes| - 1], area)
    ensures NodeStands(nodes[|nodes| - 1], values[|nodes| - 1], area)
  {
  }

  lemma PutFirst(n: NodeRecord, value: Node, nodes: seq<NodeRecord>, values: seq<Node>, area: set<object>)
    requires NodeStands(n, value, area) && NodesStand(nodes, values, area)
    ensures NodesStand([n] + nodes, [value] + values, area)
  {
  }

  lemma {:induction false} InsertStands(nodes: seq<NodeRecord>, values: seq<Node>, area: set<object>, n: NodeRecord,
                                        value: Node)
    requires NodesStand(nodes, values, area) && NodeStands(n, value, area)
    ensures NodesStand(Insert(nodes, n, RecordKey, TupleLeq), Insert(values, value, NodeKey, TupleLeq), area)
  {
    SameKey(n, value, area);
    if nodes == [] {
      PutFirst(n, value, nodes, values, area);
    } else {
      FirstAndRest(nodes, values, area);
      SameKey(nodes[0], values[0], area);
      if TupleLeq(RecordKey(nodes[0]), RecordKey(n)) {
        InsertStands(nodes[1..], values[1..], area, n, value);
        PutFirst(nodes[0], values[0], Insert(nodes[1..], n, RecordKey, TupleLeq),
                 Insert(values[1..], value, NodeKey, TupleLeq), area);
      } else {
        PutFirst(n, value, nodes, values, area);
      }
    }
  }

  /** Sorting records sorts the values they stand for. */
  lemma {:induction false} SortStands(nodes: seq<NodeRecord>, values: seq<Node>, area: set<object>)
    requires NodesStand(nodes, values, area)
    ensures NodesStand(Sort(nodes, RecordKey, TupleLeq), Sort(values, NodeKey, TupleLeq), area)
  {
    if nodes != [] {
      var k := |nodes| - 1;
      FirstAndRest(nodes, values, area);
      SortStands(nodes[..k], values[..k], area);
      InsertStands(Sort(nodes[..k], RecordKey, TupleLeq), Sort(values[..k], NodeKey, TupleLeq), area, nodes[k],
                   values[k]);
    }
  }

  /** The slice of a snapshot: the records in order. */
  method SortedNodes(nodes: seq<NodeRecord>, ghost values: seq<Node>, ghost area: set<object>)
    returns (r: array<NodeRecord>)
    requires NodesStand(nodes, values, area)
    ensures fresh(r) && NodesStand(r[..], Sort(values, NodeKey, TupleLeq), area)
  {
    SortStands(nodes, values, area);
    var sorted := Sort(nodes, RecordKey, TupleLeq);
    r := new NodeRecord[|sorted|](i requires 0 <= i < |sorted| => sorted[i]);
    assert r[..] == sorted;
  }
}
