/**
 The collectors of namespaces and of the cluster itself. Both count what the other collectors
 have stored, so they read a snapshot before they publish.
 */
module Inventories {
  import opened Common
  import opened NodeDomain
  import opened HeapRecords
  import opened HeapFlats
  import opened Cache
  import opened Collectors
  import opened BucketCollector
  import Listing
  import Paginator
  import Billing

  // ---------- counting over a snapshot ----------

  predicate InNamespace(f: Facts, cluster: string, namespace: string) {
    f.BucketFacts? && f.cluster == cluster && f.namespace == namespace
  }

  predicate OfCluster(f: Facts, cluster: string) {
    (f.BucketFacts? || f.NamespaceFacts?) && f.cluster == cluster
  }

  function Count(values: seq<Flat>, wanted: Facts -> bool): nat {
    if values == [] then 0
    else Count(values[..|values| - 1], wanted) + if wanted(values[|values| - 1].facts) then 1 else 0
  }

  /** As many as there are positions with such a record. */
  lemma {:induction false} CountIsCardinality(values: seq<Flat>, wanted: Facts -> bool)
    ensures Count(values, wanted) == |set i | 0 <= i < |values| && wanted(values[i].facts)|
  {
    var here := set i | 0 <= i < |values| && wanted(values[i].facts);
    if values != [] {
      var front, n := values[..|values| - 1], |values| - 1;
      CountIsCardinality(front, wanted);
      var before := set i | 0 <= i < |front| && wanted(front[i].facts);
      assert here == if wanted(values[n].facts) then before + {n} else before;
    }
  }

  /** A counting loop. */
  method CountRecords(records: array<FlatRecord>, wanted: Facts -> bool, ghost values: seq<Flat>,
                      ghost area: set<object>)
    returns (n: nat)
    requires FlatsStand(records[..], values, area)
    ensures n == Count(values, wanted)
  {
    n := 0;
    for k := 0 to records.Length
      invariant n == Count(values[..k], wanted)
    {
      assert FlatStands(records[..][k], values[k], area);
      Cut(values, k);
      assert values[..k + 1][..k] == values[..k];
      if wanted(records[k].facts) {
        n := n + 1;
      }
    }
    assert values[..records.Length] == values;
  }

  // ---------- namespaces ----------

  /** An entry of the inventory: its name, or its id in place of it, and what else it tells. */
  datatype Entry = Entry(
    name: string, id: string, owner: Option<string>, group: Option<string>, audit: Option<bool>,
    soft: Option<real>, hard: Option<real>)
  {
    function Named(): string {
      if name == "" then id else name
    }
  }

  function NamesOf(entries: seq<Entry>): (r: seq<string>)
    ensures |r| == |entries| && forall i :: 0 <= i < |r| ==> r[i] == entries[i].Named()
  {
    seq(|entries|, i requires 0 <= i < |entries| => entries[i].Named())
  }

  datatype NamespaceApi = NamespaceApi(
    inventory: Option<seq<Entry>>, quota: string -> Option<Quota>, billing: string -> Option<Billing.Billing>)

  /** Every namespace is named, none twice, the inventory's quotas are in order, and quota and billing
      of each namespace are had. */
  ghost predicate NamespacesAnswered(api: NamespaceApi) {
    && api.inventory.Some? && "" !in NamesOf(api.inventory.value) && Distinct(NamesOf(api.inventory.value))
    && (forall e :: e in api.inventory.value ==> Paginator.QuotasOk(e.soft, e.hard))
    && forall name :: name in NamesOf(api.inventory.value) ==> api.quota(name).Some? && api.billing(name).Some?
  }

  /** What is stored for a namespace: quota and billing of its own, and the buckets counted in it. */
  function NamespaceFlat(cluster: string, now: int, e: Entry, quota: Quota, billing: Billing.Billing,
                         count: nat): Flat {
    Flat(NamespaceFacts(cluster, e.Named(), count, quota.soft.Some?, quota.hard.Some?, now),
         NamespaceFields(UsageValues(e.owner, Some(billing.usedBytes), Some(billing.objectCount), quota.soft,
                                     quota.hard, e.group), e.audit, billing.sampleAt))
  }

  ghost predicate NamespaceStored(cluster: string, now: int, e: Entry, api: NamespaceApi, buckets: seq<Flat>, v: Flat) {
    && api.quota(e.Named()).Some? && api.billing(e.Named()).Some?
    && v == NamespaceFlat(cluster, now, e, api.quota(e.Named()).value, api.billing(e.Named()).value,
                          Count(buckets, f => InNamespace(f, cluster, e.Named())))
  }

  lemma CountInNamespace(values: seq<Flat>, cluster: string, namespace: string)
    ensures Count(values, f => InNamespace(f, cluster, namespace))
         == |set i | 0 <= i < |values| && values[i].facts.BucketFacts? && values[i].facts.cluster == cluster
                     && values[i].facts.namespace == namespace|
  {
    var wanted := f => InNamespace(f, cluster, namespace);
    CountIsCardinality(values, wanted);
    assert (set i | 0 <= i < |values| && wanted(values[i].facts))
        == set i | 0 <= i < |values| && values[i].facts.BucketFacts? && values[i].facts.cluster == cluster
                   && values[i].facts.namespace == namespace;
  }

  lemma CountOfCluster(values: seq<Flat>, cluster: string)
    ensures Count(values, f => OfCluster(f, cluster))
         == |set i | 0 <= i < |values| && (values[i].facts.BucketFacts? || values[i].facts.NamespaceFacts?)
                     && values[i].facts.cluster == cluster|
  {
    var wanted := f => OfCluster(f, cluster);
    CountIsCardinality(values, wanted);
    assert (set i | 0 <= i < |values| && wanted(values[i].facts))
        == set i | 0 <= i < |values| && (values[i].facts.BucketFacts? || values[i].facts.NamespaceFacts?)
                   && values[i].facts.cluster == cluster;
  }

  /** Field by field: under its name, or its id when it has none; quotas from the quota request, use and
      objects from billing, and the number of stored buckets of that namespace. */
  lemma NamespaceIsShown(cluster: string, now: int, e: Entry, api: NamespaceApi, buckets: seq<Flat>, v: Flat)
    requires NamespaceStored(cluster, now, e, api, buckets, v)
    ensures v.facts.NamespaceFacts? && v.fields.NamespaceFields?
    ensures v.facts.cluster == cluster && v.facts.name == (if e.name != "" then e.name else e.id)
    ensures v.facts.bucketCount
         == |set i | 0 <= i < |buckets| && buckets[i].facts.BucketFacts? && buckets[i].facts.cluster == cluster
                     && buckets[i].facts.namespace == v.facts.name|
    ensures v.facts.softConfigured <==> v.fields.usage.soft.Some?
    ensures v.facts.hardConfigured <==> v.fields.usage.hard.Some?
    ensures v.facts.collectedAt == now
    ensures api.quota(v.facts.name) == Some(Quota(v.fields.usage.soft, v.fields.usage.hard))
    ensures v.fields.usage.used.Some? && v.fields.usage.objects.Some?
    ensures api.billing(v.facts.name)
         == Some(Billing.Billing(v.fields.usage.used.value, v.fields.usage.objects.value, v.fields.sampled))
    ensures v.fields.usage.owner == e.owner && v.fields.usage.group == e.group && v.fields.audit == e.audit
  {
    CountInNamespace(buckets, cluster, e.Named());
  }

  /** The checks of the inventory and the enrichment loop's calls. */
  method CheckAnswers(api: NamespaceApi) returns (ok: bool)
    ensures ok <==> NamespacesAnswered(api)
  {
    if api.inventory.None? {
      return false;
    }
    var names := NamesOf(api.inventory.value);
    ok := CheckNames(names);
    if !ok {
      return;
    }
    var entries := api.inventory.value;
    for k := 0 to |entries|
      invariant forall i :: 0 <= i < k ==> Paginator.QuotasOk(entries[i].soft, entries[i].hard)
    {
      ok := Paginator.ValidateQuotas(entries[k].soft, entries[k].hard);
      if !ok {
        return;
      }
    }
    for k := 0 to |names|
      invariant forall i :: 0 <= i < k ==> api.quota(names[i]).Some? && api.billing(names[i]).Some?
    {
      if api.quota(names[k]).None? || api.billing(names[k]).None? {
        return false;
      }
    }
  }

  /** The counting loop over a snapshot's buckets. */
  method FillNamespaces(cluster: string, now: int, api: NamespaceApi, buckets: array<FlatRecord>,
                        ghost shown: seq<Flat>, ghost area: set<object>)
    returns (values: seq<Flat>)
    requires NamespacesAnswered(api) && FlatsStand(buckets[..], shown, area)
    ensures |values| == |api.inventory.value|
    ensures forall i :: 0 <= i < |values| ==> NamespaceStored(cluster, now, api.inventory.value[i], api, shown,
                                                              values[i])
  {
    var entries := api.inventory.value;
    values := [];
    for k := 0 to |entries|
      invariant |values| == k
      invariant forall i :: 0 <= i < k ==> NamespaceStored(cluster, now, entries[i], api, shown, values[i])
    {
      var name := entries[k].Named();
      assert name == NamesOf(entries)[k];
      var n := CountRecords(buckets, f => InNamespace(f, cluster, name), shown, area);
      values := values + [NamespaceFlat(cluster, now, entries[k], api.quota(name).value, api.billing(name).value, n)];
    }
  }

  method EnrichNamespaces(s: Store, cluster: string, now: int, api: NamespaceApi)
    returns (r: Option<seq<Flat>>, ghost order: seq<string>)
    requires s.Valid()
    ensures r.Some? <==> NamespacesAnswered(api)
    ensures r.Some? ==> Listing.Enumerates(order, FlatLists(s.Contents(), Buckets))
    ensures r.Some? ==> |r.value| == |api.inventory.value| && forall i :: 0 <= i < |r.value| ==>
              NamespaceStored(cluster, now, api.inventory.value[i], api, ShownFlats(s.Contents(), Buckets, order),
                              r.value[i])
  {
    order := [];
    var ok := CheckAnswers(api);
    if !ok {
      return None, order;
    }
    s.OutsideIsInvisible();
    var snapshot, seen := s.TakeSnapshot();
    order := seen.buckets.order;
    var values := FillNamespaces(cluster, now, api, snapshot.buckets, ShownFlats(s.Contents(), Buckets, order),
                                 seen.buckets.area);
    r := Some(values);
  }

  /** `CollectNamespaces`. */
  method CollectNamespaces(s: Store, name: string, bootstrapped: bool, now: int, api: NamespaceApi)
    returns (r: Return, ghost values: seq<Flat>, ghost order: seq<string>)
    requires s.Valid()
    modifies s.Repr()
    ensures s.Valid() && s.states == old(s.states) && !r.Nothing?
    ensures Lawful(r, old(s.Contents()), s.Contents(), old(s.generations), s.generations, name, "namespace")
    ensures r.Published? <==> bootstrapped && NamespacesAnswered(api)
    ensures r.Published? ==>
              && s.Contents() == WithFlats(old(s.Contents()), name, Namespaces, values)
                && |values| == |api.inventory.value|
              && forall i :: 0 <= i < |values| ==>
                   NamespaceStored(name, now, api.inventory.value[i], api,
                                   ShownFlats(old(s.Contents()), Buckets, order), values[i])
  {
    values, order := [], [];
    if !bootstrapped {
      return Failed, values, order;
    }
    var enriched, visited := EnrichNamespaces(s, name, now, api);
    s.OutsideIsInvisible();
    if enriched.None? {
      return Failed, values, order;
    }
    values, order := enriched.value, visited;
    var records, area := NewFlats(enriched.value);
    s.OutsideIsInvisible();
    ghost var more := s.ReplaceNamespaces(name, records, values, area);
    r := Published;
  }

  // ---------- the cluster ----------

  /** What the two requests and the runner say; the object count is a field of namespaces. */
  datatype ClusterApi = ClusterApi(
    health: Option<(string, real)>, capacity: Option<(real, real, real)>, site: string, environment: string,
    profiles: seq<string>, mixed: bool)

  /** The objects of the cluster's namespaces, none if no namespace tells. */
  function Objects(values: seq<Flat>, cluster: string): Option<real> {
    if values == [] then None
    else
      var last := values[|values| - 1];
      Plus(Objects(values[..|values| - 1], cluster), ObjectsOf(last.facts, last.fields, cluster))
  }

  function ObjectsOf(f: Facts, fields: Fields, cluster: string): Option<real> {
    if f.NamespaceFacts? && f.cluster == cluster && fields.NamespaceFields? then fields.usage.objects else None
  }

  function Plus(a: Option<real>, b: Option<real>): Option<real> {
    if b.None? then a else if a.None? then b else Some(a.value + b.value)
  }

  /** The amounts that the cluster's namespaces tell. */
  function Told(values: seq<Flat>, cluster: string): seq<real> {
    if values == [] then []
    else
      var last := values[|values| - 1];
      Told(values[..|values| - 1], cluster)
      + if last.facts.NamespaceFacts? && last.facts.cluster == cluster && last.fields.NamespaceFields?
           && last.fields.usage.objects.Some? then [last.fields.usage.objects.value] else []
  }

  function SumOf(amounts: seq<real>): real {
    if amounts == [] then 0.0 else SumOf(amounts[..|amounts| - 1]) + amounts[|amounts| - 1]
  }

  lemma {:induction false} ObjectsAddUp(values: seq<Flat>, cluster: string)
    ensures Objects(values, cluster).Some? <==> Told(values, cluster) != []
    ensures Objects(values, cluster).Some? ==> Objects(values, cluster).value == SumOf(Told(values, cluster))
  {
    if values != [] {
      var front := Told(values[..|values| - 1], cluster);
      ObjectsAddUp(values[..|values| - 1], cluster);
      assert Told(values, cluster) != front ==> Told(values, cluster)[..|front|] == front;
    }
  }

  /** The loop over the namespaces that sums their objects. */
  method SumObjects(records: array<FlatRecord>, cluster: string, ghost values: seq<Flat>, ghost area: set<object>)
    returns (sum: Option<real>)
    requires FlatsStand(records[..], values, area)
    ensures sum == Objects(values, cluster)
  {
    sum := None;
    for k := 0 to records.Length
      invariant sum == Objects(values[..k], cluster)
    {
      assert FlatStands(records[..][k], values[k], area);
      Cut(values, k);
      assert values[..k + 1][..k] == values[..k];
      var f, p := records[k].facts, records[k].references;
      if f.NamespaceFacts? && f.cluster == cluster && p.NamespaceReferences? {
        sum := Plus(sum, Load(p.usage.objects));
      }
    }
    assert values[..records.Length] == values;
  }

  function VersionsOf(nodes: seq<Node>, cluster: string): seq<string> {
    if nodes == [] then []
    else
      var last := nodes[|nodes| - 1];
      VersionsOf(nodes[..|nodes| - 1], cluster) + if last.cluster == cluster then [last.version] else []
  }

  lemma {:induction false} VersionsAreListed(nodes: seq<Node>, cluster: string, version: string)
    ensures version in VersionsOf(nodes, cluster)
       <==> exists n :: n in nodes && n.cluster == cluster && n.version == version
  {
    if nodes != [] {
      var front, last := nodes[..|nodes| - 1], nodes[|nodes| - 1];
      VersionsAreListed(front, cluster, version);
      if n :| n in nodes && n.cluster == cluster && n.version == version { assert n in front || n == last; }
      if n :| n in front && n.cluster == cluster && n.version == version { assert n in nodes; }
      assert last in nodes;
    }
  }

  ghost function Places(nodes: seq<Node>, cluster: string): set<int> {
    set i | 0 <= i < |nodes| && nodes[i].cluster == cluster
  }

  lemma OneMorePlace(nodes: seq<Node>, n: Node, cluster: string)
    ensures |Places(nodes + [n], cluster)| == |Places(nodes, cluster)| + if n.cluster == cluster then 1 else 0
  {
    var before := Places(nodes, cluster);
    assert |nodes| !in before;
    assert Places(nodes + [n], cluster) == if n.cluster == cluster then before + {|nodes|} else before;
  }

  lemma {:induction false} OneVersionEach(nodes: seq<Node>, cluster: string)
    ensures |VersionsOf(nodes, cluster)| == |Places(nodes, cluster)|
  {
    if nodes == [] {
      assert Places(nodes, cluster) == {};
    } else {
      var front, last := nodes[..|nodes| - 1], nodes[|nodes| - 1];
      assert nodes == front + [last];
      OneVersionEach(front, cluster);
      OneMorePlace(front, last, cluster);
    }
  }

  /** The loop over the nodes that lists their versions. */
  method ListVersions(nodes: array<NodeRecord>, cluster: string, ghost values: seq<Node>, ghost area: set<object>)
    returns (versions: seq<string>)
    requires NodesStand(nodes[..], values, area)
    ensures versions == VersionsOf(values, cluster)
  {
    versions := [];
    for k := 0 to nodes.Length
      invariant versions == VersionsOf(values[..k], cluster)
    {
      assert NodeStands(nodes[..][k], values[k], area);
      Cut(values, k);
      assert values[..k + 1][..k] == values[..k];
      if nodes[k].cluster == cluster {
        versions := versions + [nodes[k].version];
      }
    }
    assert values[..nodes.Length] == values;
  }

  /** What is stored for the cluster. */
  function ClusterFlat(name: string, now: int, api: ClusterApi, buckets: nat, namespaces: nat, objects: Option<real>,
                       versions: seq<string>): Flat
    requires api.health.Some? && api.capacity.Some?
  {
    Flat(ClusterFacts(name, api.site, api.environment, api.health.value.0, api.mixed, buckets, namespaces, now),
         ClusterFields(versions, api.profiles, Some(api.health.value.1), Some(api.capacity.value.0),
                       Some(api.capacity.value.1), Some(api.capacity.value.2), objects))
  }

  /** What the cluster record must be, given the contents it counts. */
  ghost predicate ClusterStored(name: string, now: int, api: ClusterApi, contents: Domains, seen: Seen, v: Flat) {
    && api.health.Some? && api.capacity.Some?
    && Listing.Enumerates(seen.linked.order, NodeLists(contents))
    && Listing.Enumerates(seen.buckets.order, FlatLists(contents, Buckets))
    && Listing.Enumerates(seen.namespaces.order, FlatLists(contents, Namespaces))
    && var namespaces := ShownFlats(contents, Namespaces, seen.namespaces.order);
       v == ClusterFlat(name, now, api, Count(ShownFlats(contents, Buckets, seen.buckets.order),
                                              f => OfCluster(f, name)),
                        Count(namespaces, f => OfCluster(f, name)), Objects(namespaces, name),
                        VersionsOf(ShownNodes(contents, seen.linked.order), name))
  }

  /** Field by field: health and capacity from their requests, counts and objects from the stored buckets and
      namespaces of the cluster, versions from its stored nodes. */
  lemma ClusterIsShown(name: string, now: int, api: ClusterApi, contents: Domains, seen: Seen, v: Flat)
    requires ClusterStored(name, now, api, contents, seen, v)
    ensures v.facts.ClusterFacts? && v.fields.ClusterFields? && api.health.Some? && api.capacity.Some?
    ensures v.facts.name == name && v.facts.site == api.site && v.facts.environment == api.environment
    ensures v.facts.mixed == api.mixed && v.facts.collectedAt == now
    ensures v.facts.vdc == api.health.value.0 && v.fields.health == Some(api.health.value.1)
    ensures v.fields.total.Some? && v.fields.used.Some? && v.fields.available.Some?
    ensures api.capacity == Some((v.fields.total.value, v.fields.used.value, v.fields.available.value))
    ensures v.fields.profiles == api.profiles
    ensures var buckets := ShownFlats(contents, Buckets, seen.buckets.order);
            v.facts.bucketCount
            == |set i | 0 <= i < |buckets| && (buckets[i].facts.BucketFacts? || buckets[i].facts.NamespaceFacts?)
                        && buckets[i].facts.cluster == name|
    ensures var namespaces := ShownFlats(contents, Namespaces, seen.namespaces.order);
            && v.facts.namespaceCount
               == |set i | 0 <= i < |namespaces|
                           && (namespaces[i].facts.BucketFacts? || namespaces[i].facts.NamespaceFacts?)
                           && namespaces[i].facts.cluster == name|
            && (v.fields.objects.Some? <==> Told(namespaces, name) != [])
            && (v.fields.objects.Some? ==> v.fields.objects.value == SumOf(Told(namespaces, name)))
    ensures v.fields.versions == VersionsOf(ShownNodes(contents, seen.linked.order), name)
  {
    var buckets := ShownFlats(contents, Buckets, seen.buckets.order);
    var namespaces := ShownFlats(contents, Namespaces, seen.namespaces.order);
    CountOfCluster(buckets, name);
    CountOfCluster(namespaces, name);
    ObjectsAddUp(namespaces, name);
  }

  /** The loops over the lists of a snapshot. */
  method CountLists(name: string, now: int, api: ClusterApi, nodes: array<NodeRecord>, buckets: array<FlatRecord>,
                    namespaces: array<FlatRecord>, ghost shownNodes: seq<Node>, ghost shownBuckets: seq<Flat>,
                    ghost shownNamespaces: seq<Flat>, ghost seen: Seen)
    returns (v: Flat)
    requires api.health.Some? && api.capacity.Some? && NodesStand(nodes[..], shownNodes, seen.linked.area)
    requires FlatsStand(buckets[..], shownBuckets, seen.buckets.area)
    requires FlatsStand(namespaces[..], shownNamespaces, seen.namespaces.area)
    ensures v == ClusterFlat(name, now, api, Count(shownBuckets, f => OfCluster(f, name)),
                             Count(shownNamespaces, f => OfCluster(f, name)), Objects(shownNamespaces, name),
                             VersionsOf(shownNodes, name))
  {
    var b := CountRecords(buckets, f => OfCluster(f, name), shownBuckets, seen.buckets.area);
    var n := CountRecords(namespaces, f => OfCluster(f, name), shownNamespaces, seen.namespaces.area);
    var objects := SumObjects(namespaces, name, shownNamespaces, seen.namespaces.area);
    var versions := ListVersions(nodes, name, shownNodes, seen.linked.area);
    v := ClusterFlat(name, now, api, b, n, objects, versions);
  }

  method CountCluster(s: Store, name: string, now: int, api: ClusterApi) returns (v: Flat, ghost seen: Seen)
    requires s.Valid() && api.health.Some? && api.capacity.Some?
    ensures ClusterStored(name, now, api, s.Contents(), seen, v)
  {
    var snapshot;
    snapshot, seen := s.TakeSnapshot();
    v := CountLists(name, now, api, snapshot.nodes, snapshot.buckets, snapshot.namespaces,
                    ShownNodes(s.Contents(), seen.linked.order), ShownFlats(s.Contents(), Buckets, seen.buckets.order),
                    ShownFlats(s.Contents(), Namespaces, seen.namespaces.order), seen);
  }

  /** `CollectCluster`. */
  method CollectCluster(s: Store, name: string, bootstrapped: bool, now: int, api: ClusterApi)
    returns (r: Return, ghost v: Option<Flat>, ghost seen: Seen)
    requires s.Valid()
    modifies s.Repr()
    ensures s.Valid() && s.states == old(s.states) && !r.Nothing?
    ensures Lawful(r, old(s.Contents()), s.Contents(), old(s.generations), s.generations, name, "cluster")
    ensures r.Published? <==> bootstrapped && api.health.Some? && api.capacity.Some?
    ensures r.Published? ==>
              && v.Some? && ClusterStored(name, now, api, old(s.Contents()), seen, v.value)
              && s.Contents() == WithFlats(old(s.Contents()), name, Clusters, [v.value])
  {
    var nothing := Shown([], {});
    v, seen := None, Seen(nothing, nothing, nothing, nothing, nothing, []);
    if !bootstrapped || api.health.None? || api.capacity.None? {
      return Failed, v, seen;
    }
    var counted, visited := CountCluster(s, name, now, api);
    s.OutsideIsInvisible();
    v, seen := Some(counted), visited;
    var records, area := NewFlats([counted]);
    s.OutsideIsInvisible();
    ghost var more := s.ReplaceCluster(name, records, [counted], area);
    r := Published;
  }
}
