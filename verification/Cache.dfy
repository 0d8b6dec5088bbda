/**
 The cache that collectors write and readers take snapshots of. Nothing that a caller passes
 in or gets back is ever part of the store's own memory.
 */
module Cache {
  import opened Common
  import opened NodeDomain
  import opened HeapRecords
  import opened HeapReplications
  import opened HeapFlats
  import opened Recovery
  import opened Lifecycle
  import opened Listing

  /** What is stored for one cluster; a list that was never written is empty. */
  datatype Domain = Domain(nodes: seq<Node>, replications: seq<Replication>, flats: map<Kind, seq<Flat>>) {
    function Listed(kind: Kind): seq<Flat> {
      if kind in flats then flats[kind] else []
    }
  }

  const NOTHING := Domain([], [], map[])

  /** What a cluster's records stand for and the memory they consist of. */
  datatype Meaning = Meaning(value: Domain, nodeArea: set<object>, entryArea: set<object>, flatArea: set<object>)

  /** `clusterData`. */
  class ClusterData {
    var nodes: array<NodeRecord>
    var replications: array<ReplicationRecord>
    var flats: map<Kind, array<FlatRecord>>
    ghost var meaning: Meaning

    /** The memory that this cluster's data consists of. */
    ghost function Repr(): set<object>
      reads this
    {
      {this, nodes, replications} + meaning.nodeArea + meaning.entryArea + meaning.flatArea
    }

    ghost predicate Valid()
      reads this, Repr()
    {
      && this !in meaning.nodeArea + meaning.entryArea + meaning.flatArea && nodes !in meaning.entryArea
      && replications !in meaning.nodeArea + meaning.entryArea + meaning.flatArea
      && NodesStand(nodes[..], meaning.value.nodes, meaning.nodeArea)
      && EntriesStand(replications[..], meaning.value.replications, meaning.entryArea)
      && AllFlatsStand(flats, meaning.value.flats, meaning.flatArea)
    }

    ghost function Value(): Domain
      reads this
    {
      meaning.value
    }

    constructor ()
      ensures Valid() && fresh(Repr()) && Value() == NOTHING
    {
      nodes := new NodeRecord[0];
      replications := new ReplicationRecord[0];
      flats := map[];
      meaning := Meaning(NOTHING, {}, {}, {});
    }

    /** The assignment of a cloned list. */
    method SetNodes(values: array<NodeRecord>, ghost meant: seq<Node>, ghost given: set<object>)
      returns (ghost more: set<object>)
      requires Valid() && NodesStand(values[..], meant, given)
      modifies this
      ensures Valid() && fresh(more) && Repr() <= old(Repr()) + more && Value() == old(Value()).(nodes := meant)
    {
      var cloned, area := CloneNodes(values, meant, given);
      more := area + {cloned};
      nodes, meaning := cloned, meaning.(value := meaning.value.(nodes := meant), nodeArea := area);
    }

    method SetReplications(values: array<ReplicationRecord>, ghost meant: seq<Replication>, ghost given: set<object>)
      returns (ghost more: set<object>)
      requires Valid() && EntriesStand(values[..], meant, given)
      modifies this
      ensures Valid() && fresh(more) && Repr() <= old(Repr()) + more && Value() == old(Value()).(replications := meant)
    {
      var cloned, area := CloneReplications(values, meant, given);
      more := area + {cloned};
      replications, meaning := cloned, meaning.(value := meaning.value.(replications := meant), entryArea := area);
    }

    method SetFlats(kind: Kind, values: array<FlatRecord>, ghost meant: seq<Flat>, ghost given: set<object>)
      returns (ghost more: set<object>)
      requires Valid() && FlatsStand(values[..], meant, given)
      modifies this
      ensures Valid() && fresh(more) && Repr() <= old(Repr()) + more
      ensures Value() == old(Value()).(flats := old(Value()).flats[kind := meant])
    {
      var cloned;
      cloned, more := CloneFlatSlice(values, meant, given);
      AllFlatsGrow(flats, meaning.value.flats, meaning.flatArea, kind, cloned, meant, more);
      flats, meaning := flats[kind := cloned],
        meaning.(value := meaning.value.(flats := meaning.value.flats[kind := meant]),
                 flatArea := meaning.flatArea + more);
    }

    /** The slice that a merge has produced, in place or by appending, becomes the current one. */
    method Adopt(merged: array<ReplicationRecord>, ghost result: seq<Replication>, ghost added: set<object>)
      requires this !in meaning.nodeArea + meaning.entryArea + meaning.flatArea + added
               && nodes !in meaning.entryArea + added
      requires merged !in meaning.nodeArea + meaning.entryArea + meaning.flatArea + added
      requires NodesStand(nodes[..], meaning.value.nodes, meaning.nodeArea)
      requires EntriesStand(merged[..], result, meaning.entryArea + added)
      requires AllFlatsStand(flats, meaning.value.flats, meaning.flatArea)
      modifies this
      ensures Valid() && Repr() <= old(Repr()) + added + {merged}
      ensures Value() == old(Value()).(replications := result)
    {
      replications, meaning :=
        merged, meaning.(value := meaning.value.(replications := result), entryArea := meaning.entryArea + added);
    }

    /** The batch is no part of the store. */
    method MergeRecovery(values: array<ReplicationRecord>, ghost meant: seq<Replication>, ghost given: set<object>)
      returns (ghost more: set<object>, ghost result: seq<Replication>)
      requires Valid() && EntriesStand(values[..], meant, given) && replications !in given
      modifies this, replications
      ensures Valid() && fresh(more) && Repr() <= old(Repr()) + more
      ensures Value() == old(Value()).(replications := result)
              && RecoveryMerged(old(Value()).replications, meant, result)
    {
      ghost var was := nodes[..];
      var merged;
      merged, result, more := MergeEntries(replications, meaning.value.replications, meaning.entryArea, values[..],
                                           meant, given);
      assert nodes[..] == was && NodesStand(was, meaning.value.nodes, meaning.nodeArea);
      Adopt(merged, result, more);
      more := more + if merged == old(replications) then {} else {merged};
    }
  }

  type Domains = map<string, Domain>

  function DomainAt(contents: Domains, name: string): Domain {
    if name in contents then contents[name] else NOTHING
  }

  /** The contents after one list of one cluster was replaced. */
  function WithNodes(contents: Domains, name: string, nodes: seq<Node>): Domains {
    contents[name := DomainAt(contents, name).(nodes := nodes)]
  }

  function WithReplications(contents: Domains, name: string, replications: seq<Replication>): Domains {
    contents[name := DomainAt(contents, name).(replications := replications)]
  }

  function WithFlats(contents: Domains, name: string, kind: Kind, values: seq<Flat>): Domains {
    contents[name := DomainAt(contents, name).(flats := DomainAt(contents, name).flats[kind := values])]
  }

  /** All other clusters are stored as before. */
  ghost predicate OthersStay(before: Domains, after: Domains, name: string) {
    after.Keys == before.Keys + {name} && forall c :: c in before && c != name ==> after[c] == before[c]
  }

  /** A replacement changes one list of one cluster and nothing else. */
  lemma ReplacementsAreLocal(contents: Domains, name: string, nodes: seq<Node>, replications: seq<Replication>,
                             kind: Kind, values: seq<Flat>, other: Kind)
    ensures var was, after := DomainAt(contents, name), WithNodes(contents, name, nodes);
            && OthersStay(contents, after, name) && after[name].nodes == nodes
            && after[name].replications == was.replications && after[name].Listed(other) == was.Listed(other)
    ensures var was, after := DomainAt(contents, name), WithReplications(contents, name, replications);
            && OthersStay(contents, after, name) && after[name].replications == replications
            && after[name].nodes == was.nodes && after[name].Listed(other) == was.Listed(other)
    ensures var was, after := DomainAt(contents, name), WithFlats(contents, name, kind, values);
            && OthersStay(contents, after, name) && after[name].Listed(kind) == values
            && after[name].nodes == was.nodes && after[name].replications == was.replications
            && (other != kind ==> after[name].Listed(other) == was.Listed(other))
    ensures name !in contents ==>
              DomainAt(contents, name).nodes == [] && DomainAt(contents, name).replications == []
              && DomainAt(contents, name).Listed(other) == []
  {
  }

  function NodeLists(contents: Domains): map<string, seq<Node>> {
    map c | c in contents :: contents[c].nodes
  }

  function ReplicationLists(contents: Domains): map<string, seq<Replication>> {
    map c | c in contents :: contents[c].replications
  }

  function FlatLists(contents: Domains, kind: Kind): map<string, seq<Flat>> {
    map c | c in contents :: contents[c].Listed(kind)
  }

  function StateLists(states: States): map<string, seq<CollectorState>> {
    map key | key in states :: [states[key]]
  }

  function StateKey(s: CollectorState): seq<string> {
    [s.cluster, s.collector]
  }

  /** What a reader gets. */
  datatype Snapshot = Snapshot(
    nodes: array<NodeRecord>, replications: array<ReplicationRecord>, clusters: array<FlatRecord>,
    namespaces: array<FlatRecord>, buckets: array<FlatRecord>, performances: array<FlatRecord>,
    states: seq<CollectorState>)

  /** In which order the clusters were visited for a list, and the memory of its copies. */
  datatype Shown = Shown(order: seq<string>, area: set<object>)

  datatype Seen = Seen(
    linked: Shown, clusters: Shown, namespaces: Shown, buckets: Shown, performances: Shown, stateOrder: seq<string>)

  lemma Overwritten(contents: Domains, name: string, a: Domain, b: Domain)
    ensures contents[name := a][name := b] == contents[name := b]
  {
  }

  /** The memory of each cluster, inside that of the store and apart from that of the others. */
  type Areas = map<string, set<object>>

  ghost predicate Apart(areas: Areas, within: set<object>) {
    forall c, d :: ApartAt(areas, within, c, d)
  }

  ghost predicate ApartAt(areas: Areas, within: set<object>, c: string, d: string) {
    c in areas ==> areas[c] <= within && (d in areas && c != d ==> areas[c] !! areas[d])
  }

  lemma ApartGrows(areas: Areas, within: set<object>, name: string, more: set<object>)
    requires Apart(areas, within) && more !! within
    ensures Apart(areas[name := (if name in areas then areas[name] else {}) + more], within + more)
  {
    var areas' := areas[name := (if name in areas then areas[name] else {}) + more];
    forall c, d ensures ApartAt(areas', within + more, c, d) {
      assert ApartAt(areas, within, c, d) && ApartAt(areas, within, d, c);
    }
  }

  /** What is stored for every cluster and the memory it lies in. */
  datatype Layout = Layout(contents: Domains, areas: Areas, memory: set<object>)

  /** A cluster has got new memory and a new meaning. */
  ghost function Relaying(l: Layout, name: string, more: set<object>, value: Domain): Layout {
    Layout(l.contents[name := value],
           l.areas[name := (if name in l.areas then l.areas[name] else {}) + more], l.memory + more)
  }

  class Store {
    var clusters: map<string, ClusterData>
    var states: States
    var generations: Generations
    ghost var layout: Layout

    ghost function Repr(): set<object>
      reads this
    {
      {this} + layout.memory
    }

    ghost function Contents(): Domains
      reads this
    {
      layout.contents
    }

    /** The data of one cluster is sound, lies in its area and means what is recorded. */
    ghost predicate Holds(data: ClusterData, area: set<object>, value: Domain)
      reads area
    {
      data in area && data.Repr() <= area && data.Valid() && data.Value() == value
    }

    ghost predicate SoundAt(c: string)
      reads Repr()
    {
      c in clusters ==>
        c in layout.areas && c in layout.contents && layout.areas[c] <= layout.memory
        && Holds(clusters[c], layout.areas[c], layout.contents[c])
    }

    /** A cluster whose memory is untouched stays sound. */
    twostate lemma StaysSound(c: string)
      requires old(SoundAt(c)) && c in old(clusters) && c in clusters && clusters[c] == old(clusters[c])
      requires c in layout.areas && layout.areas[c] == old(layout.areas[c])
      requires c in layout.contents && layout.contents[c] == old(layout.contents[c])
      requires old(layout.memory) <= layout.memory && unchanged(old(layout.areas[c]))
      ensures SoundAt(c)
    {
    }

    ghost predicate Valid()
      reads Repr()
    {
      && this !in layout.memory && Apart(layout.areas, layout.memory)
      && layout.areas.Keys == layout.contents.Keys == clusters.Keys
      && forall c :: SoundAt(c)
    }

    /** Whatever is done to memory outside the store, to records handed out or handed in, the
        store stays sound and keeps its contents. */
    twostate lemma OutsideIsInvisible()
      requires old(Valid()) && unchanged(this) && unchanged(old(layout.memory))
      ensures Valid() && Contents() == old(Contents())
    {
      forall c ensures SoundAt(c) {
        assert old(SoundAt(c));
        if c in clusters { StaysSound(c); }
      }
    }

    constructor ()
      ensures Valid() && fresh(Repr()) && Contents() == map[] && states == map[] && generations == map[]
    {
      clusters, states, generations := map[], map[], map[];
      layout := Layout(map[], map[], {});
    }

    /** Every cluster but one is sound. */
    ghost predicate SoundBut(name: string)
      reads Repr()
    {
      && this !in layout.memory && Apart(layout.areas, layout.memory)
      && layout.areas.Keys == layout.contents.Keys == clusters.Keys
      && forall c :: c != name ==> SoundAt(c)
    }

    /** The one that is left has new memory and a new meaning, which the store takes note of. */
    ghost method Settle(name: string, more: set<object>)
      requires SoundBut(name) && name in clusters && more !! Repr()
      requires Holds(clusters[name], layout.areas[name] + more, clusters[name].Value())
      modifies this`layout
      ensures Valid() && layout == Relaying(old(layout), name, more, clusters[name].Value())
    {
      ApartGrows(layout.areas, layout.memory, name, more);
      assert ApartAt(layout.areas, layout.memory, name, name);
      layout := Relaying(layout, name, more, clusters[name].Value());
      forall c ensures SoundAt(c) {
        if c in clusters && c != name {
          assert old(SoundAt(c));
          StaysSound(c);
        }
      }
    }

    method AddCluster(name: string) returns (ghost more: set<object>)
      requires Valid() && name !in clusters
      modifies this`clusters, this`layout
      ensures Valid() && name in clusters
      ensures fresh(more) && Repr() == old(Repr()) + more
      ensures Contents() == old(Contents())[name := NOTHING]
    {
      var data := new ClusterData();
      more := data.Repr();
      ApartGrows(layout.areas, layout.memory, name, more);
      layout := Relaying(layout, name, more, data.Value());
      clusters := clusters[name := data];
      forall c ensures SoundAt(c) {
        assert old(SoundAt(c));
        if c in clusters && c != name { StaysSound(c); }
      }
    }

    /** `ensureCluster`. */
    method EnsureCluster(name: string) returns (ghost more: set<object>)
      requires Valid()
      modifies this`clusters, this`layout
      ensures Valid() && name in clusters
      ensures fresh(more) && Repr() == old(Repr()) + more
      ensures Contents() == old(Contents())[name := DomainAt(old(Contents()), name)]
    {
      if name in clusters {
        return {};
      }
      more := AddCluster(name);
    }

    /** `bump`. */
    method Bump(name: string, resource: string)
      requires Valid()
      modifies this`generations
      ensures Valid()
      ensures generations == Bumped(old(generations), name, resource)
    {
      var key := Key(name, resource);
      generations := generations[key := (if key in generations then generations[key] else 0) + 1];
      forall c ensures SoundAt(c) {
        assert old(SoundAt(c));
      }
    }

    method PutNodes(name: string, values: array<NodeRecord>, ghost meant: seq<Node>, ghost given: set<object>)
      returns (ghost more: set<object>)
      requires Valid() && name in clusters && NodesStand(values[..], meant, given)
      modifies this`layout, layout.memory
      ensures Valid()
      ensures fresh(more) && Repr() == old(Repr()) + more
      ensures Contents() == old(Contents())[name := old(Contents())[name].(nodes := meant)]
    {
      var data := clusters[name];
      assert SoundAt(name);
      more := data.SetNodes(values, meant, given);
      forall c | c != name ensures SoundAt(c) {
        assert old(SoundAt(c)) && ApartAt(layout.areas, layout.memory, c, name);
        if c in clusters { StaysSound(c); }
      }
      Settle(name, more);
    }

    method PutReplications(name: string, values: array<ReplicationRecord>, ghost meant: seq<Replication>,
                           ghost given: set<object>)
      returns (ghost more: set<object>)
      requires Valid() && name in clusters && EntriesStand(values[..], meant, given)
      modifies this`layout, layout.memory
      ensures Valid()
      ensures fresh(more) && Repr() == old(Repr()) + more
      ensures Contents() == old(Contents())[name := old(Contents())[name].(replications := meant)]
    {
      var data := clusters[name];
      assert SoundAt(name);
      more := data.SetReplications(values, meant, given);
      forall c | c != name ensures SoundAt(c) {
        assert old(SoundAt(c)) && ApartAt(layout.areas, layout.memory, c, name);
        if c in clusters { StaysSound(c); }
      }
      Settle(name, more);
    }

    method PutFlats(name: string, kind: Kind, values: array<FlatRecord>, ghost meant: seq<Flat>,
                    ghost given: set<object>)
      returns (ghost more: set<object>)
      requires Valid() && name in clusters && FlatsStand(values[..], meant, given)
      modifies this`layout, layout.memory
      ensures Valid()
      ensures fresh(more) && Repr() == old(Repr()) + more
      ensures var was := old(Contents())[name];
              Contents() == old(Contents())[name := was.(flats := was.flats[kind := meant])]
    {
      var data := clusters[name];
      assert SoundAt(name);
      more := data.SetFlats(kind, values, meant, given);
      forall c | c != name ensures SoundAt(c) {
        assert old(SoundAt(c)) && ApartAt(layout.areas, layout.memory, c, name);
        if c in clusters { StaysSound(c); }
      }
      Settle(name, more);
    }

    method MergeInto(name: string, values: array<ReplicationRecord>, ghost meant: seq<Replication>,
                     ghost given: set<object>)
      returns (ghost more: set<object>, ghost result: seq<Replication>)
      requires Valid() && name in clusters && EntriesStand(values[..], meant, given) && given !! Repr()
      modifies this`layout, layout.memory
      ensures Valid()
      ensures fresh(more) && Repr() == old(Repr()) + more
      ensures Contents() == old(Contents())[name := old(Contents())[name].(replications := result)]
      ensures RecoveryMerged(old(Contents())[name].replications, meant, result)
    {
      var data := clusters[name];
      assert SoundAt(name);
      more, result := data.MergeRecovery(values, meant, given);
      forall c | c != name ensures SoundAt(c) {
        assert old(SoundAt(c)) && ApartAt(layout.areas, layout.memory, c, name);
        if c in clusters { StaysSound(c); }
      }
      Settle(name, more);
    }

    method StoreNodes(name: string, values: array<NodeRecord>, ghost meant: seq<Node>, ghost given: set<object>)
      returns (ghost more: set<object>)
      requires Valid() && NodesStand(values[..], meant, given) && this !in given
      modifies this`clusters, this`layout, layout.memory
      ensures Valid()
      ensures fresh(more) && Repr() == old(Repr()) + more
      ensures Contents() == WithNodes(old(Contents()), name, meant)
    {
      ghost var was := DomainAt(Contents(), name);
      Overwritten(Contents(), name, was, was.(nodes := meant));
      ghost var first := EnsureCluster(name);
      more := PutNodes(name, values, meant, given);
      more := more + first;
    }

    method ReplaceNodes(name: string, values: array<NodeRecord>, ghost meant: seq<Node>, ghost given: set<object>)
      returns (ghost more: set<object>)
      requires Valid() && NodesStand(values[..], meant, given) && this !in given
      modifies Repr()
      ensures Valid()
      ensures fresh(more) && Repr() == old(Repr()) + more
      ensures Contents() == WithNodes(old(Contents()), name, meant)
      ensures generations == Bumped(old(generations), name, "node") && states == old(states)
    {
      more := StoreNodes(name, values, meant, given);
      Bump(name, "node");
    }

    method ReplaceNodeResources(name: string, values: array<NodeRecord>, ghost meant: seq<Node>,
                                ghost given: set<object>)
      returns (ghost more: set<object>)
      requires Valid() && NodesStand(values[..], meant, given) && this !in given
      modifies Repr()
      ensures Valid()
      ensures fresh(more) && Repr() == old(Repr()) + more
      ensures Contents() == WithNodes(old(Contents()), name, meant)
      ensures generations == Bumped(old(generations), name, "node-resources") && states == old(states)
    {
      more := StoreNodes(name, values, meant, given);
      Bump(name, "node-resources");
    }

    method StoreReplications(name: string, values: array<ReplicationRecord>, ghost meant: seq<Replication>,
                             ghost given: set<object>)
      returns (ghost more: set<object>)
      requires Valid() && EntriesStand(values[..], meant, given) && this !in given
      modifies this`clusters, this`layout, layout.memory
      ensures Valid()
      ensures fresh(more) && Repr() == old(Repr()) + more
      ensures Contents() == WithReplications(old(Contents()), name, meant)
    {
      ghost var was := DomainAt(Contents(), name);
      Overwritten(Contents(), name, was, was.(replications := meant));
      ghost var first := EnsureCluster(name);
      more := PutReplications(name, values, meant, given);
      more := more + first;
    }

    method ReplaceReplications(name: string, values: array<ReplicationRecord>, ghost meant: seq<Replication>,
                               ghost given: set<object>)
      returns (ghost more: set<object>)
      requires Valid() && EntriesStand(values[..], meant, given) && this !in given
      modifies Repr()
      ensures Valid()
      ensures fresh(more) && Repr() == old(Repr()) + more
      ensures Contents() == WithReplications(old(Contents()), name, meant)
      ensures generations == Bumped(old(generations), name, "replication") && states == old(states)
    {
      more := StoreReplications(name, values, meant, given);
      Bump(name, "replication");
    }

    method StoreFlats(name: string, kind: Kind, values: array<FlatRecord>, ghost meant: seq<Flat>,
                      ghost given: set<object>)
      returns (ghost more: set<object>)
      requires Valid() && FlatsStand(values[..], meant, given) && this !in given
      modifies this`clusters, this`layout, layout.memory
      ensures Valid()
      ensures fresh(more) && Repr() == old(Repr()) + more
      ensures Contents() == WithFlats(old(Contents()), name, kind, meant)
    {
      ghost var was := DomainAt(Contents(), name);
      Overwritten(Contents(), name, was, was.(flats := was.flats[kind := meant]));
      ghost var first := EnsureCluster(name);
      more := PutFlats(name, kind, values, meant, given);
      more := more + first;
    }

    /** The cluster's own record, as a list of one. */
    method ReplaceCluster(name: string, values: array<FlatRecord>, ghost meant: seq<Flat>, ghost given: set<object>)
      returns (ghost more: set<object>)
      requires Valid() && FlatsStand(values[..], meant, given) && this !in given && |meant| == 1
      modifies Repr()
      ensures Valid()
      ensures fresh(more) && Repr() == old(Repr()) + more
      ensures Contents() == WithFlats(old(Contents()), name, Clusters, meant)
      ensures generations == Bumped(old(generations), name, "cluster") && states == old(states)
    {
      more := StoreFlats(name, Clusters, values, meant, given);
      Bump(name, "cluster");
    }

    method ReplaceNamespaces(name: string, values: array<FlatRecord>, ghost meant: seq<Flat>, ghost given: set<object>)
      returns (ghost more: set<object>)
      requires Valid() && FlatsStand(values[..], meant, given) && this !in given
      modifies Repr()
      ensures Valid()
      ensures fresh(more) && Repr() == old(Repr()) + more
      ensures Contents() == WithFlats(old(Contents()), name, Namespaces, meant)
      ensures generations == Bumped(old(generations), name, "namespace") && states == old(states)
    {
      more := StoreFlats(name, Namespaces, values, meant, given);
      Bump(name, "namespace");
    }

    method ReplaceBuckets(name: string, values: array<FlatRecord>, ghost meant: seq<Flat>, ghost given: set<object>)
      returns (ghost more: set<object>)
      requires Valid() && FlatsStand(values[..], meant, given) && this !in given
      modifies Repr()
      ensures Valid()
      ensures fresh(more) && Repr() == old(Repr()) + more
      ensures Contents() == WithFlats(old(Contents()), name, Buckets, meant)
      ensures generations == Bumped(old(generations), name, "bucket") && states == old(states)
    {
      more := StoreFlats(name, Buckets, values, meant, given);
      Bump(name, "bucket");
    }

    method ReplacePerformances(name: string, values: array<FlatRecord>, ghost meant: seq<Flat>,
                               ghost given: set<object>)
      returns (ghost more: set<object>)
      requires Valid() && FlatsStand(values[..], meant, given) && this !in given
      modifies Repr()
      ensures Valid()
      ensures fresh(more) && Repr() == old(Repr()) + more
      ensures Contents() == WithFlats(old(Contents()), name, Performances, meant)
      ensures generations == Bumped(old(generations), name, "performance") && states == old(states)
    {
      more := StoreFlats(name, Performances, values, meant, given);
      Bump(name, "performance");
    }

    method MergeBatch(name: string, values: array<ReplicationRecord>, ghost meant: seq<Replication>,
                      ghost given: set<object>)
      returns (ghost more: set<object>, ghost result: seq<Replication>)
      requires Valid() && EntriesStand(values[..], meant, given) && values !in Repr() && given !! Repr()
      modifies this`clusters, this`layout, layout.memory
      ensures Valid()
      ensures fresh(more) && Repr() == old(Repr()) + more
      ensures Contents() == WithReplications(old(Contents()), name, result)
      ensures RecoveryMerged(DomainAt(old(Contents()), name).replications, meant, result)
    {
      ghost var contents, was := Contents(), DomainAt(Contents(), name);
      ghost var first := EnsureCluster(name);
      assert Contents()[name] == was;
      more, result := MergeInto(name, values, meant, given);
      Overwritten(contents, name, was, was.(replications := result));
      more := more + first;
    }

    /** `MergeRecovery`. */
    method MergeRecovery(name: string, values: array<ReplicationRecord>, ghost meant: seq<Replication>,
                         ghost given: set<object>)
      returns (ghost more: set<object>, ghost result: seq<Replication>)
      requires Valid() && EntriesStand(values[..], meant, given) && values !in Repr() && given !! Repr()
      modifies Repr()
      ensures Valid()
      ensures fresh(more) && Repr() == old(Repr()) + more
      ensures Contents() == WithReplications(old(Contents()), name, result)
      ensures RecoveryMerged(DomainAt(old(Contents()), name).replications, meant, result)
      ensures generations == Bumped(old(generations), name, "recovery") && states == old(states)
    {
      more, result := MergeBatch(name, values, meant, given);
      Bump(name, "recovery");
    }

    /** `Generation`. */
    method Generation(name: string, resource: string) returns (g: nat)
      ensures g == GenerationOf(generations, name, resource)
    {
      g := if Key(name, resource) in generations then generations[Key(name, resource)] else 0;
    }

    method PutState(cluster: string, collector: string, state: CollectorState)
      requires Valid()
      modifies this`states
      ensures Valid() && states == old(states)[Key(cluster, collector) := state]
    {
      states := states[Key(cluster, collector) := state];
      forall c ensures SoundAt(c) {
        assert old(SoundAt(c));
      }
    }

    /** `Start`. */
    method Start(cluster: string, collector: string, now: int) returns (ok: bool)
      requires Valid()
      modifies this`states
      ensures Valid() && (ok, states) == Started(old(states), cluster, collector, now)
    {
      var state := StateOf(states, cluster, collector);
      if state.running {
        return false;
      }
      state := state.(cluster := cluster, collector := collector);
      state := state.(lastAttemptAt := now);
      state := state.(running := true);
      state := state.(runs := state.runs + 1);
      PutState(cluster, collector, state);
      ok := true;
    }

    /** `Finish`. */
    method Finish(cluster: string, collector: string, now: int, error: Option<string>)
      requires Valid()
      modifies this`states
      ensures Valid() && states == Finished(old(states), cluster, collector, now, error)
    {
      var state := StateOf(states, cluster, collector);
      state := state.(cluster := cluster, collector := collector);
      state := state.(running := false);
      if error.None? {
        state := state.(lastSuccessAt := now, lastError := "");
      } else {
        state := state.(errors := state.errors + 1, lastError := SanitizeError(error.value));
      }
      PutState(cluster, collector, state);
    }

    /** `FinishSkipped`. */
    method FinishSkipped(cluster: string, collector: string)
      requires Valid()
      modifies this`states
      ensures Valid() && states == Skipped(old(states), cluster, collector)
    {
      var state := StateOf(states, cluster, collector);
      state := state.(cluster := cluster, collector := collector);
      state := state.(running := false, lastError := "");
      PutState(cluster, collector, state);
    }

    /** Copies of what one cluster has. */
    method CloneCluster(name: string)
      returns (nodes: seq<NodeRecord>, entries: seq<ReplicationRecord>, ghost nodeArea: set<object>,
               ghost entryArea: set<object>)
      requires Valid() && name in clusters
      ensures fresh(nodeArea) && fresh(entryArea)
      ensures name in Contents() && NodesStand(nodes, Contents()[name].nodes, nodeArea)
      ensures EntriesStand(entries, Contents()[name].replications, entryArea)
    {
      var data := clusters[name];
      assert SoundAt(name);
      nodes, nodeArea := CloneEach(data.nodes[..], data.meaning.value.nodes, data.meaning.nodeArea);
      entries, entryArea := CloneEntries(data.replications[..], data.meaning.value.replications,
                                         data.meaning.entryArea);
    }

    ghost predicate Copied(nodes: seq<NodeRecord>, entries: seq<ReplicationRecord>, order: seq<string>,
                           area: set<object>)
      reads this, area
    {
      && NodesStand(nodes, Flatten(NodeLists(Contents()), order), area)
      && EntriesStand(entries, Flatten(ReplicationLists(Contents()), order), area)
    }

    /** Copies of one more cluster are appended. */
    method AppendCopies(name: string, nodes: seq<NodeRecord>, entries: seq<ReplicationRecord>, ghost order: seq<string>,
                        ghost area: set<object>)
      returns (nodes': seq<NodeRecord>, entries': seq<ReplicationRecord>, ghost more: set<object>)
      requires Valid() && name in clusters && Copied(nodes, entries, order, area)
      ensures fresh(more) && Copied(nodes', entries', order + [name], area + more)
    {
      var n, e, na, ea := CloneCluster(name);
      FlattenLast(NodeLists(Contents()), order, name);
      FlattenLast(ReplicationLists(Contents()), order, name);
      more := na + ea;
      LargerArea(n, Contents()[name].nodes, na, more);
      EntriesLarger(e, Contents()[name].replications, ea, more);
      NodesConcat(nodes, Flatten(NodeLists(Contents()), order), area, n, Contents()[name].nodes, more);
      EntriesConcat(entries, Flatten(ReplicationLists(Contents()), order), area, e, Contents()[name].replications,
                    more);
      nodes', entries' := nodes + n, entries + e;
    }

    /** The loop of `Snapshot` over the clusters, in any order. */
    method CloneAll() returns (nodes: seq<NodeRecord>, entries: seq<ReplicationRecord>, ghost order: seq<string>,
                               ghost area: set<object>)
      requires Valid()
      ensures Distinct(order) && forall c :: c in order <==> c in Contents()
      ensures fresh(area) && Copied(nodes, entries, order, area)
    {
      nodes, entries, order, area := [], [], [], {};
      var todo := clusters.Keys;
      while todo != {}
        invariant todo <= clusters.Keys
        invariant Distinct(order) && forall c :: c in order <==> c in clusters && c !in todo
        invariant fresh(area) && Copied(nodes, entries, order, area)
        decreases todo
      {
        var name :| name in todo;
        todo := todo - {name};
        OutsideIsInvisible();
        ghost var more;
        nodes, entries, more := AppendCopies(name, nodes, entries, order, area);
        order, area := order + [name], area + more;
      }
    }

    /** The loop over the collector states, in any order. */
    method ListStates() returns (list: seq<CollectorState>, ghost order: seq<string>)
      ensures Enumerates(order, StateLists(states)) && list == Flatten(StateLists(states), order)
    {
      list, order := [], [];
      var todo := states.Keys;
      while todo != {}
        invariant todo <= states.Keys && list == Flatten(StateLists(states), order)
        invariant Distinct(order) && forall key :: key in order <==> key in states && key !in todo
        decreases todo
      {
        var key :| key in todo;
        todo := todo - {key};
        FlattenLast(StateLists(states), order, key);
        list := list + [states[key]];
        order := order + [key];
      }
    }

    /** Copies of one list of one cluster. */
    method CloneListed(name: string, kind: Kind) returns (records: seq<FlatRecord>, ghost area: set<object>)
      requires Valid() && name in clusters
      ensures fresh(area) && name in Contents() && FlatsStand(records, Contents()[name].Listed(kind), area)
    {
      var data := clusters[name];
      assert SoundAt(name);
      if kind !in data.flats {
        return [], {};
      }
      assert FlatsStandAt(data.flats, data.meaning.value.flats, data.meaning.flatArea, kind);
      records, area := CloneFlats(data.flats[kind][..], data.meaning.value.flats[kind], data.meaning.flatArea);
    }

    /** The stored records of a kind, of all clusters in the order they were visited, sorted. */
    ghost predicate Shows(r: array<FlatRecord>, kind: Kind, shown: Shown)
      reads this, r, shown.area
    {
      && Enumerates(shown.order, FlatLists(Contents(), kind))
      && FlatsStand(r[..], ShownFlats(Contents(), kind, shown.order), shown.area)
    }

    ghost predicate ShowsNodes(r: array<NodeRecord>, shown: Shown)
      reads this, r, shown.area
    {
      && Enumerates(shown.order, NodeLists(Contents()))
      && NodesStand(r[..], ShownNodes(Contents(), shown.order), shown.area)
    }

    ghost predicate ShowsReplications(r: array<ReplicationRecord>, shown: Shown)
      reads this, r, shown.area
    {
      && Enumerates(shown.order, ReplicationLists(Contents()))
      && EntriesStand(r[..], ShownReplications(Contents(), shown.order), shown.area)
    }

    ghost predicate CopiedKind(records: seq<FlatRecord>, kind: Kind, order: seq<string>, area: set<object>)
      reads this, area
    {
      FlatsStand(records, Flatten(FlatLists(Contents(), kind), order), area)
    }

    /** Copies of one more cluster's list are appended. */
    method AppendListed(name: string, kind: Kind, records: seq<FlatRecord>, ghost order: seq<string>,
                        ghost area: set<object>)
      returns (r: seq<FlatRecord>, ghost added: set<object>)
      requires Valid() && name in clusters && CopiedKind(records, kind, order, area)
      ensures fresh(added) && CopiedKind(r, kind, order + [name], area + added)
    {
      var more;
      more, added := CloneListed(name, kind);
      FlattenLast(FlatLists(Contents(), kind), order, name);
      FlatsConcat(records, Flatten(FlatLists(Contents(), kind), order), area, more, Contents()[name].Listed(kind),
                  added);
      r := records + more;
    }

    /** The loop of `Snapshot` over the clusters, for one of the other lists. */
    method CloneEvery(kind: Kind) returns (records: seq<FlatRecord>, ghost shown: Shown)
      requires Valid()
      ensures Distinct(shown.order) && forall c :: c in shown.order <==> c in Contents()
      ensures fresh(shown.area) && CopiedKind(records, kind, shown.order, shown.area)
    {
      records, shown := [], Shown([], {});
      var todo := clusters.Keys;
      while todo != {}
        invariant todo <= clusters.Keys
        invariant Distinct(shown.order) && forall c :: c in shown.order <==> c in clusters && c !in todo
        invariant fresh(shown.area) && CopiedKind(records, kind, shown.order, shown.area)
        decreases todo
      {
        var name :| name in todo;
        todo := todo - {name};
        OutsideIsInvisible();
        ghost var added;
        records, added := AppendListed(name, kind, records, shown.order, shown.area);
        shown := Shown(shown.order + [name], shown.area + added);
      }
    }

    /** The copies of one of the other lists, sorted. */
    method CloneKind(kind: Kind) returns (r: array<FlatRecord>, ghost shown: Shown)
      requires Valid()
      ensures fresh(r) && fresh(shown.area) && Shows(r, kind, shown)
    {
      var records;
      records, shown := CloneEvery(kind);
      r := SortedFlats(records, Flatten(FlatLists(Contents(), kind), shown.order), shown.area);
    }

    /** The copies of nodes and replications, sorted. */
    method CloneLinked() returns (nodes: array<NodeRecord>, entries: array<ReplicationRecord>, ghost shown: Shown)
      requires Valid()
      ensures fresh(nodes) && fresh(entries) && fresh(shown.area)
      ensures ShowsNodes(nodes, shown) && ShowsReplications(entries, shown)
    {
      var n, e, order, area := CloneAll();
      shown := Shown(order, area);
      nodes := SortedNodes(n, Flatten(NodeLists(Contents()), order), area);
      entries := SortedEntries(e, Flatten(ReplicationLists(Contents()), order), area);
    }

    method ClonePair(a: Kind, b: Kind) returns (x: array<FlatRecord>, y: array<FlatRecord>, ghost shownX: Shown,
                                                ghost shownY: Shown)
      requires Valid()
      ensures fresh(x) && fresh(shownX.area) && Shows(x, a, shownX) && fresh(y) && fresh(shownY.area)
              && Shows(y, b, shownY)
    {
      x, shownX := CloneKind(a);
      OutsideIsInvisible();
      y, shownY := CloneKind(b);
    }

    /** The other four lists. */
    method CloneOthers() returns (c: array<FlatRecord>, n: array<FlatRecord>, b: array<FlatRecord>,
                                  p: array<FlatRecord>, ghost seen: Seen)
      requires Valid()
      ensures fresh(c) && fresh(seen.clusters.area) && Shows(c, Clusters, seen.clusters) && fresh(n)
              && fresh(seen.namespaces.area) && Shows(n, Namespaces, seen.namespaces)
      ensures fresh(b) && fresh(seen.buckets.area) && Shows(b, Buckets, seen.buckets) && fresh(p)
              && fresh(seen.performances.area) && Shows(p, Performances, seen.performances)
    {
      ghost var x, y, z, w;
      c, n, x, y := ClonePair(Clusters, Namespaces);
      OutsideIsInvisible();
      b, p, z, w := ClonePair(Buckets, Performances);
      seen := Seen(x, x, y, z, w, []);
    }

    /** `Snapshot`: new records for everything stored, sorted. */
    method TakeSnapshot() returns (r: Snapshot, ghost seen: Seen)
      requires Valid()
      ensures fresh(r.nodes) && fresh(r.replications) && fresh(seen.linked.area)
      ensures ShowsNodes(r.nodes, seen.linked) && ShowsReplications(r.replications, seen.linked)
      ensures fresh(r.clusters) && fresh(seen.clusters.area) && Shows(r.clusters, Clusters, seen.clusters)
              && fresh(r.namespaces) && fresh(seen.namespaces.area) && Shows(r.namespaces, Namespaces, seen.namespaces)
      ensures fresh(r.buckets) && fresh(seen.buckets.area) && Shows(r.buckets, Buckets, seen.buckets)
              && fresh(r.performances) && fresh(seen.performances.area)
                && Shows(r.performances, Performances, seen.performances)
      ensures Enumerates(seen.stateOrder, StateLists(states))
      ensures r.states == ShownStates(states, seen.stateOrder)
    {
      var list, stateOrder := ListStates();
      OutsideIsInvisible();
      var c, n, b, p, others := CloneOthers();
      OutsideIsInvisible();
      var nodes, entries, linked := CloneLinked();
      r := Snapshot(nodes, entries, c, n, b, p, Sort(list, StateKey, TupleLeq));
      seen := others.(linked := linked, stateOrder := stateOrder);
    }
  }

  /** Memory that was handed in may be overwritten afterwards. */
  method ScribbleOnInput(s: Store, values: array<NodeRecord>, mine: Cell<real>, k: nat, junk: NodeRecord, x: real)
    requires s.Valid() && values !in s.Repr() && mine !in s.Repr() && k < values.Length
    modifies values, mine
    ensures s.Valid() && s.Contents() == old(s.Contents())
  {
    values[k] := junk;
    mine.value := x;
    s.OutsideIsInvisible();
  }

  method ScribbleOnNodes(nodes: array<NodeRecord>, ghost values: seq<Node>, ghost area: set<object>, junk: NodeRecord,
                         x: real)
    requires NodesStand(nodes[..], values, area)
    modifies nodes, area
  {
    if nodes.Length > 0 {
      assert NodeStands(nodes[..][0], values[0], area);
      var cpu, network := nodes[0].cpu, nodes[0].network;
      if cpu != null {
        cpu.value := x;
      }
      if network.Length > 0 {
        network[0] := NetworkRecord("", null, null);
      }
      nodes[0] := junk;
    }
  }

  /** So may the memory of a snapshot. */
  method ScribbleOnSnapshot(s: Store, junk: NodeRecord, x: real)
    requires s.Valid()
    ensures s.Valid() && s.Contents() == old(s.Contents())
  {
    var snapshot, seen := s.TakeSnapshot();
    ScribbleOnNodes(snapshot.nodes, ShownNodes(s.Contents(), seen.linked.order), seen.linked.area, junk, x);
    s.OutsideIsInvisible();
  }

  // ---------- what a snapshot shows ----------

  /** Every node is filed under its cluster, with distinct ids. */
  ghost predicate NodesFiled(contents: Domains) {
    && (forall c :: c in contents ==> DistinctKeys(contents[c].nodes, NodeKey))
    && (forall c, n :: c in contents && n in contents[c].nodes ==> n.cluster == c)
  }

  ghost predicate ReplicationsFiled(contents: Domains) {
    && (forall c :: c in contents ==> DistinctKeys(contents[c].replications, EntryKey))
    && (forall c, e :: c in contents && e in contents[c].replications ==> e.cluster == c)
  }

  lemma UniqueNodes(contents: Domains)
    requires NodesFiled(contents)
    ensures UniqueKeys(NodeLists(contents), NodeKey)
  {
    var lists := NodeLists(contents);
    forall c, d | c in lists && d in lists && c != d ensures KeysDiffer(lists[c], lists[d], NodeKey) {
      forall i, j | 0 <= i < |lists[c]| && 0 <= j < |lists[d]| ensures NodeKey(lists[c][i]) != NodeKey(lists[d][j]) {
        assert lists[c][i] in contents[c].nodes && lists[d][j] in contents[d].nodes;
        assert NodeKey(lists[c][i])[0] != NodeKey(lists[d][j])[0];
      }
    }
  }

  lemma UniqueReplications(contents: Domains)
    requires ReplicationsFiled(contents)
    ensures UniqueKeys(ReplicationLists(contents), EntryKey)
  {
    var lists := ReplicationLists(contents);
    forall c, d | c in lists && d in lists && c != d ensures KeysDiffer(lists[c], lists[d], EntryKey) {
      forall i, j | 0 <= i < |lists[c]| && 0 <= j < |lists[d]| ensures EntryKey(lists[c][i]) != EntryKey(lists[d][j]) {
        assert lists[c][i] in contents[c].replications && lists[d][j] in contents[d].replications;
        assert EntryKey(lists[c][i])[0] != EntryKey(lists[d][j])[0];
      }
    }
  }

  /** Every record of a kind is filed under its cluster, with distinct keys. */
  ghost predicate FlatsFiled(contents: Domains, kind: Kind) {
    forall c :: c in contents ==>
      DistinctKeys(contents[c].Listed(kind), FlatKey) && forall v ::
          v in contents[c].Listed(kind) ==> FlatKey(v)[0] == c
  }

  lemma UniqueFlats(contents: Domains, kind: Kind)
    requires FlatsFiled(contents, kind)
    ensures UniqueKeys(FlatLists(contents, kind), FlatKey)
  {
    var lists := FlatLists(contents, kind);
    forall c, d | c in lists && d in lists && c != d ensures KeysDiffer(lists[c], lists[d], FlatKey) {
      forall i, j | 0 <= i < |lists[c]| && 0 <= j < |lists[d]| ensures FlatKey(lists[c][i]) != FlatKey(lists[d][j]) {
        assert lists[c][i] in contents[c].Listed(kind) && lists[d][j] in contents[d].Listed(kind);
      }
    }
  }

  lemma UniqueStates(states: States)
    requires Filed(states)
    ensures UniqueKeys(StateLists(states), StateKey)
  {
    var lists := StateLists(states);
    forall c, d | c in lists && d in lists && c != d ensures KeysDiffer(lists[c], lists[d], StateKey) {
      assert StateKey(states[c])[0] == states[c].cluster && StateKey(states[c])[1] == states[c].collector;
      assert StateKey(states[d])[0] == states[d].cluster && StateKey(states[d])[1] == states[d].collector;
    }
  }

  /** The lists of a snapshot that visited the maps in given orders. */
  function ShownNodes(contents: Domains, order: seq<string>): seq<Node> {
    Sort(Flatten(NodeLists(contents), order), NodeKey, TupleLeq)
  }

  function ShownReplications(contents: Domains, order: seq<string>): seq<Replication> {
    Sort(Flatten(ReplicationLists(contents), order), EntryKey, TupleLeq)
  }

  function ShownFlats(contents: Domains, kind: Kind, order: seq<string>): seq<Flat> {
    Sort(Flatten(FlatLists(contents, kind), order), FlatKey, TupleLeq)
  }

  function ShownStates(states: States, order: seq<string>): seq<CollectorState> {
    Sort(Flatten(StateLists(states), order), StateKey, TupleLeq)
  }

  /** Two snapshots with no write in between show the same, whatever order their maps were visited in. */
  lemma SnapshotsAgree(contents: Domains, a: seq<string>, b: seq<string>)
    requires NodesFiled(contents) && ReplicationsFiled(contents) && forall kind :: FlatsFiled(contents, kind)
    requires Distinct(a) && Distinct(b) && forall c :: (c in a <==> c in contents) && (c in b <==> c in contents)
    ensures ShownNodes(contents, a) == ShownNodes(contents, b)
    ensures ShownReplications(contents, a) == ShownReplications(contents, b)
    ensures forall kind :: ShownFlats(contents, kind, a) == ShownFlats(contents, kind, b)
  {
    TupleLeqIsOrder();
    UniqueNodes(contents);
    FlattenDistinct(NodeLists(contents), a, NodeKey);
    AnyOrder(NodeLists(contents), a, b, NodeKey, TupleLeq);
    UniqueReplications(contents);
    FlattenDistinct(ReplicationLists(contents), a, EntryKey);
    AnyOrder(ReplicationLists(contents), a, b, EntryKey, TupleLeq);
    forall kind ensures ShownFlats(contents, kind, a) == ShownFlats(contents, kind, b) {
      FlatsAgree(contents, kind, a, b);
    }
  }

  lemma FlatsAgree(contents: Domains, kind: Kind, a: seq<string>, b: seq<string>)
    requires FlatsFiled(contents, kind) && Enumerates(a, FlatLists(contents, kind))
             && Enumerates(b, FlatLists(contents, kind))
    ensures ShownFlats(contents, kind, a) == ShownFlats(contents, kind, b)
  {
    TupleLeqIsOrder();
    UniqueFlats(contents, kind);
    FlattenDistinct(FlatLists(contents, kind), a, FlatKey);
    AnyOrder(FlatLists(contents, kind), a, b, FlatKey, TupleLeq);
  }

  /** So do their collector states, of which there is one for each pair. */
  lemma StatesAgree(states: States, a: seq<string>, b: seq<string>)
    requires Filed(states) && Enumerates(a, StateLists(states)) && Enumerates(b, StateLists(states))
    ensures ShownStates(states, a) == ShownStates(states, b)
  {
    TupleLeqIsOrder();
    UniqueStates(states);
    FlattenDistinct(StateLists(states), a, StateKey);
    AnyOrder(StateLists(states), a, b, StateKey, TupleLeq);
  }

  lemma ListedSomewhere(contents: Domains, n: Node)
    ensures (exists c :: c in NodeLists(contents) && n in NodeLists(contents)[c])
            <==> exists c :: c in contents && n in contents[c].nodes
  {
    if c :| c in contents && n in contents[c].nodes { assert n in NodeLists(contents)[c]; }
  }

  /** A snapshot's nodes are the stored nodes of all clusters, each once, sorted by cluster and id. */
  lemma SnapshotShowsNodes(contents: Domains, order: seq<string>)
    requires NodesFiled(contents) && Enumerates(order, NodeLists(contents))
    ensures var nodes := ShownNodes(contents, order);
            && SortedBy(nodes, NodeKey, TupleLeq) && DistinctKeys(nodes, NodeKey)
            && (forall i, j :: 0 <= i < j < |nodes| ==>
                  InOrder([nodes[i].cluster, nodes[i].id], [nodes[j].cluster, nodes[j].id]))
            && forall n :: n in nodes <==> exists c :: c in contents && n in contents[c].nodes
  {
    var lists := NodeLists(contents);
    var nodes := Sort(Flatten(lists, order), NodeKey, TupleLeq);
    TupleLeqIsOrder();
    UniqueNodes(contents);
    SortedListing(lists, order, NodeKey, TupleLeq);
    forall i, j | 0 <= i < j < |nodes|
      ensures InOrder([nodes[i].cluster, nodes[i].id], [nodes[j].cluster, nodes[j].id]) {
      LeqIsInOrder(NodeKey(nodes[i]), NodeKey(nodes[j]));
    }
    forall n ensures n in nodes <==> exists c :: c in contents && n in contents[c].nodes {
      ListedSomewhere(contents, n);
    }
  }

  /** So are its replications, sorted by cluster and id. */
  lemma SnapshotShowsReplications(contents: Domains, order: seq<string>)
    requires ReplicationsFiled(contents) && Enumerates(order, ReplicationLists(contents))
    ensures var links := ShownReplications(contents, order);
            && (forall i, j :: 0 <= i < j < |links| ==>
                  InOrder([links[i].cluster, links[i].id], [links[j].cluster, links[j].id]))
            && DistinctKeys(links, EntryKey)
            && forall e :: e in links <==> exists c :: c in contents && e in contents[c].replications
  {
    var lists := ReplicationLists(contents);
    var links := ShownReplications(contents, order);
    TupleLeqIsOrder();
    UniqueReplications(contents);
    SortedListing(lists, order, EntryKey, TupleLeq);
    forall i, j | 0 <= i < j < |links|
      ensures InOrder([links[i].cluster, links[i].id], [links[j].cluster, links[j].id]) {
      LeqIsInOrder(EntryKey(links[i]), EntryKey(links[j]));
    }
    forall e ensures e in links <==> exists c :: c in contents && e in contents[c].replications {
      if c :| c in contents && e in contents[c].replications { assert e in lists[c]; }
    }
  }

  /** What the other lists are sorted by. */
  function SortedByNames(f: Facts): seq<string> {
    match f
    case ClusterFacts(name, _, _, _, _, _, _, _) => [name]
    case NamespaceFacts(cluster, name, _, _, _, _) => [cluster, name]
    case BucketFacts(cluster, namespace, name, _, _, _) => [cluster, namespace, name]
    case PerformanceFacts(p) =>
      var metric := match p.metric
                    case ReadThroughput => "read_throughput"
                    case WriteThroughput => "write_throughput"
                    case Latency => "latency"
                    case Requests => "requests";
      [p.cluster, p.vdc, p.namespace, metric, p.operation, p.statusClass, p.quantile]
  }

  lemma NamesAreKeys(f: Facts)
    ensures SortedByNames(f) == FactsKey(f)
  {
  }

  lemma FlatsInOrder(f: Flat, g: Flat)
    requires Alike(f.facts, g.facts) && TupleLeq(FlatKey(f), FlatKey(g))
    ensures InOrder(SortedByNames(f.facts), SortedByNames(g.facts))
  {
    NamesAreKeys(f.facts);
    NamesAreKeys(g.facts);
    LeqIsInOrder(FlatKey(f), FlatKey(g));
  }

  lemma ListedFlat(contents: Domains, kind: Kind, v: Flat)
    ensures (exists c :: c in FlatLists(contents, kind) && v in FlatLists(contents, kind)[c])
       <==> exists c :: c in contents && v in contents[c].Listed(kind)
  {
    if c :| c in contents && v in contents[c].Listed(kind) { assert v in FlatLists(contents, kind)[c]; }
  }

  /** Records of one kind. */
  predicate Alike(f: Facts, g: Facts) {
    |SortedByNames(f)| == |SortedByNames(g)|
  }

  /** And so are the records of each other kind: clusters by name, namespaces and buckets under their owners,
      performance series by all their labels. */
  lemma SnapshotShowsFlats(contents: Domains, kind: Kind, order: seq<string>)
    requires FlatsFiled(contents, kind) && Enumerates(order, FlatLists(contents, kind))
    ensures var flats := ShownFlats(contents, kind, order);
            && (forall i, j :: 0 <= i < j < |flats| && Alike(flats[i].facts, flats[j].facts) ==>
                  InOrder(SortedByNames(flats[i].facts), SortedByNames(flats[j].facts)))
            && DistinctKeys(flats, FlatKey)
            && forall v :: v in flats <==> exists c :: c in contents && v in contents[c].Listed(kind)
  {
    var lists := FlatLists(contents, kind);
    var flats := ShownFlats(contents, kind, order);
    TupleLeqIsOrder();
    UniqueFlats(contents, kind);
    SortedListing(lists, order, FlatKey, TupleLeq);
    forall i, j | 0 <= i < j < |flats| && Alike(flats[i].facts, flats[j].facts)
      ensures InOrder(SortedByNames(flats[i].facts), SortedByNames(flats[j].facts)) {
      FlatsInOrder(flats[i], flats[j]);
    }
    forall v ensures v in flats <==> exists c :: c in contents && v in contents[c].Listed(kind) {
      ListedFlat(contents, kind, v);
    }
  }

  /** And the collector states, sorted by cluster and collector. */
  lemma SnapshotShowsStates(states: States, order: seq<string>)
    requires Filed(states) && Enumerates(order, StateLists(states))
    ensures var shown := ShownStates(states, order);
            && (forall i, j :: 0 <= i < j < |shown| ==>
                  InOrder([shown[i].cluster, shown[i].collector], [shown[j].cluster, shown[j].collector]))
            && DistinctKeys(shown, StateKey)
            && forall s :: s in shown <==> exists key :: key in states && states[key] == s
  {
    var lists := StateLists(states);
    var shown := ShownStates(states, order);
    TupleLeqIsOrder();
    UniqueStates(states);
    SortedListing(lists, order, StateKey, TupleLeq);
    forall i, j | 0 <= i < j < |shown|
      ensures InOrder([shown[i].cluster, shown[i].collector], [shown[j].cluster, shown[j].collector]) {
      LeqIsInOrder(StateKey(shown[i]), StateKey(shown[j]));
    }
    forall s ensures s in shown <==> exists key :: key in states && states[key] == s {
      if key :| key in states && states[key] == s { assert s in lists[key]; }
    }
  }
}
