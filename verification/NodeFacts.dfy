/**
 What ends up in a stored node, part by part: from the inventory, from the health answers, from the list it
 is carried over from, and from the rows of all resource queries of a run.
 */
module NodeFacts {
  import opened Common
  import opened Flux
  import opened NodeReadings
  import opened NodeAccumulator
  import opened NodeResources
  import opened NodeDomain

  // ---------- inventory and health ----------

  ghost predicate Says(text: Option<string>, raw: string) {
    (text.None? <==> raw == "") && (text.Some? ==> text.value == raw)
  }

  /** A listed node has the texts of its entry, absent where they are empty, and nothing else yet. */
  ghost predicate ListedAs(n: Node, raw: RawNode, cluster: string, collectedAt: int) {
    && n.cluster == cluster && n.id == raw.id && n.name == raw.name && n.version == raw.version
    && Says(n.ip, raw.ip) && Says(n.rack, raw.rack) && Says(n.state, raw.state)
    && n.health.None? && n.services == [] && n.collectedAt == collectedAt
    && (forall p: Part :: PartOf(n.resource, p).None?) && n.resource.network == []
  }

  /** Health and services come from the node's status, services only where they are wanted; the rest stays. */
  ghost predicate JudgedAs(n: Node, before: Node, statuses: map<string, Status>, services: bool) {
    && n.Inventory() == before.Inventory().(health := n.health, services := n.services)
    && n.resource == before.resource
    && (before.id !in statuses ==> n == before)
    && (before.id in statuses ==>
          n.health == Some(statuses[before.id].health)
          && n.services == if services then statuses[before.id].services else [])
  }

  lemma InventoryIsListed(raws: seq<RawNode>, cluster: string, collectedAt: int, i: nat)
    requires i < |raws|
    ensures ListedAs(Inventoried(raws, cluster, collectedAt)[i], raws[i], cluster, collectedAt)
  {
    assert Inventoried(raws, cluster, collectedAt)[i].resource == EMPTY;
  }

  lemma StatusIsJudged(n: Node, statuses: map<string, Status>, services: bool)
    ensures JudgedAs(WithStatus(statuses, services)(n), n, statuses, services)
  {
  }

  // ---------- carrying over ----------

  /** The node at `k` is the last of the list with that cluster and id. */
  ghost predicate IsLast(nodes: seq<Node>, cluster: string, id: string, k: nat) {
    && k < |nodes| && nodes[k].cluster == cluster && nodes[k].id == id
    && forall j :: k < j < |nodes| ==> nodes[j].cluster != cluster || nodes[j].id != id
  }

  lemma {:induction false} LatestIsLast(nodes: seq<Node>, cluster: string, id: string, k: nat)
    requires IsLast(nodes, cluster, id, k)
    ensures Latest(nodes, cluster, id) == Some(nodes[k])
  {
    if k < |nodes| - 1 {
      assert nodes[|nodes| - 1].cluster != cluster || nodes[|nodes| - 1].id != id;
      LatestIsLast(nodes[..|nodes| - 1], cluster, id, k);
    }
  }

  /** A node takes the resources of the last previous node with its cluster and id, and nothing else of it. */
  lemma PreservedMeans(n: Node, previous: seq<Node>)
    ensures Preserved(previous)(n).Inventory() == n.Inventory()
    ensures forall k: nat :: IsLast(previous, n.cluster, n.id, k) ==>
              Preserved(previous)(n).resource == previous[k].resource
    ensures (forall o :: o in previous ==> o.cluster != n.cluster || o.id != n.id) ==> Preserved(previous)(n) == n
  {
    forall k: nat | IsLast(previous, n.cluster, n.id, k)
      ensures Preserved(previous)(n).resource == previous[k].resource {
      LatestIsLast(previous, n.cluster, n.id, k);
    }
  }

  // ---------- the queries of a run ----------

  /** The amounts of a resource record. */
  datatype Part = CpuRatio | MemoryUsed | MemoryTotal | DisksUsed | DisksTotal

  function PartOf(r: NodeResource, p: Part): Option<real> {
    match p
    case CpuRatio => r.cpu
    case MemoryUsed => r.memUsed
    case MemoryTotal => r.memTotal
    case DisksUsed => r.diskUsed
    case DisksTotal => r.diskTotal
  }

  ghost predicate Brings(records: Records, node: string, p: Part, v: real) {
    node in records && PartOf(records[node], p) == Some(v)
  }

  ghost predicate BringsInterface(records: Records, node: string, n: Network) {
    node in records && n in records[node].network
  }

  /** A merged record has what either record brings. */
  lemma MergedParts(current: NodeResource, incoming: NodeResource, p: Part, v: real)
    requires Mergeable(current, incoming)
    ensures PartOf(MergedRecord(current, incoming), p) == Some(v)
       <==> PartOf(current, p) == Some(v) || PartOf(incoming, p) == Some(v)
  {
    match p
    case CpuRatio =>
    case MemoryUsed =>
    case MemoryTotal =>
    case DisksUsed =>
    case DisksTotal =>
  }

  lemma MergedInterfaces(current: NodeResource, incoming: NodeResource, n: Network)
    ensures n in MergedRecord(current, incoming).network <==> n in current.network || n in incoming.network
  {
    var all := current.network + incoming.network;
    assert n in MergedRecord(current, incoming).network <==> n in multiset(Sort(all, IfaceKey, TupleLeq));
    assert n in multiset(all) <==> n in all;
  }

  lemma MergedBrings(target: Records, source: Records, node: string, p: Part, v: real)
    requires AllMergeable(target, source)
    ensures Brings(Merged(target, source), node, p, v) <==> Brings(target, node, p, v) || Brings(source, node, p, v)
  {
    if node in source { MergedParts(Found(target, node), source[node], p, v); }
  }

  lemma MergedBringsInterface(target: Records, source: Records, node: string, n: Network)
    ensures BringsInterface(Merged(target, source), node, n)
       <==> BringsInterface(target, node, n) || BringsInterface(source, node, n)
  {
    if node in source { MergedInterfaces(Found(target, node), source[node], n); }
  }

  /** What all queries together bring is what one of them brings. */
  lemma {:induction false} GatheredBrings(sources: seq<Records>, node: string, p: Part, v: real)
    requires SourcesMergeable(sources)
    ensures Brings(MergeSources(sources), node, p, v)
       <==> exists i: nat :: i < |sources| && Brings(sources[i], node, p, v)
  {
    if sources != [] {
      var front, last := sources[..|sources| - 1], sources[|sources| - 1];
      GatheredBrings(front, node, p, v);
      MergedBrings(MergeSources(front), last, node, p, v);
      if i: nat :| i < |sources| && Brings(sources[i], node, p, v) { assert i < |front| ==> front[i] == sources[i]; }
      if i: nat :| i < |front| && Brings(front[i], node, p, v) { assert front[i] == sources[i]; }
    }
  }

  lemma {:induction false} GatheredInterfaces(sources: seq<Records>, node: string, n: Network)
    ensures BringsInterface(MergeSources(sources), node, n)
       <==> exists i: nat :: i < |sources| && BringsInterface(sources[i], node, n)
  {
    if sources != [] {
      var front, last := sources[..|sources| - 1], sources[|sources| - 1];
      GatheredInterfaces(front, node, n);
      MergedBringsInterface(MergeSources(front), last, node, n);
      if i: nat :| i < |sources| && BringsInterface(sources[i], node, n) {
        assert i < |front| ==> front[i] == sources[i];
      }
      if i: nat :| i < |front| && BringsInterface(front[i], node, n) { assert front[i] == sources[i]; }
    }
  }

  // ---------- from rows to nodes ----------

  /** The row names the node and supplies the value. */
  ghost predicate LineSupplies(rd: Reader, policy: Policy, l: Line, node: string, f: Field, v: real) {
    && HeaderOk(l.columns, REQUIRED) && Fits(IndexOf(l.columns), l.row)
    && CellText(IndexOf(l.columns), l.row, "node_id") == node && Supplies(rd, policy, IndexOf(l.columns), l.row, f, v)
  }

  /** Some row of the payload does. */
  ghost predicate RowSupplies(rd: Reader, policy: Policy, payload: Payload, node: string, f: Field, v: real) {
    exists l :: l in Lines(payload) && LineSupplies(rd, policy, l, node, f, v)
  }

  lemma LineMeaning(rd: Reader, policy: Policy, l: Line, node: string, f: Field, v: real)
    requires ReadLine(rd, policy, l).Ok?
    ensures LineSupplies(rd, policy, l, node, f, v) <==> ReadLine(rd, policy, l).value == Reading(node, Some((f, v)))
  {
    RowMeaning(rd, policy, IndexOf(l.columns), l.row, f, v);
    RowAccepted(rd, policy, IndexOf(l.columns), l.row);
  }

  /** The readings of an accepted payload are what its rows supply. */
  lemma CarriedByRows(rd: Reader, policy: Policy, payload: Payload, node: string, f: Field, v: real)
    requires Acceptable(rd, policy, payload)
    ensures Carries(ReadingsOf(rd, policy, payload), node, f, v) <==> RowSupplies(rd, policy, payload, node, f, v)
  {
    LinesCarry(rd, policy, Lines(payload), node, f, v);
  }

  lemma LinesCarry(rd: Reader, policy: Policy, lines: seq<Line>, node: string, f: Field, v: real)
    requires forall l :: l in lines ==> ReadLine(rd, policy, l).Ok?
    ensures Reading(node, Some((f, v))) in multiset(Map(lines, ReadingOrIgnored(rd, policy)))
       <==> exists l :: l in lines && LineSupplies(rd, policy, l, node, f, v)
  {
    var r, read := Reading(node, Some((f, v))), ReadingOrIgnored(rd, policy);
    InMap(lines, read, r);
    forall l | l in lines ensures read(l) == r <==> LineSupplies(rd, policy, l, node, f, v) {
      LineMeaning(rd, policy, l, node, f, v);
    }
  }

  lemma InMap<T, U>(s: seq<T>, f: T -> U, u: U)
    ensures u in multiset(Map(s, f)) <==> exists x :: x in s && f(x) == u
  {
    assert u in multiset(Map(s, f)) <==> u in Map(s, f);
    if u in Map(s, f) {
      var k :| 0 <= k < |s| && Map(s, f)[k] == u;
      assert s[k] in s;
    }
    if x :| x in s && f(x) == u {
      var k :| 0 <= k < |s| && s[k] == x;
      assert Map(s, f)[k] == u;
    }
  }

  /** The parts of which a node has one reading. */
  function ReadAs(p: Part): Option<Field> {
    match p
    case CpuRatio => Some(Cpu)
    case MemoryUsed => Some(MemUsed)
    case MemoryTotal => Some(MemTotal)
    case _ => None
  }

  lemma ValueIsCarried(m: Readings, node: string, f: Field, v: real)
    requires Unique(m)
    ensures Value(m, node, f) == Some(v) <==> Carries(m, node, f, v)
  {
    if Carries(m, node, f, v) {
      var w := Value(m, node, f).value;
      assert Label(Reading(node, Some((f, v)))) == Label(Reading(node, Some((f, w))));
    }
  }

  lemma ParsedBrings(rd: Reader, policy: Policy, payload: Payload, records: Records, node: string, p: Part, v: real)
    requires Parsed(rd, policy, payload, records) && ReadAs(p).Some?
    ensures Brings(records, node, p, v) <==> RowSupplies(rd, policy, payload, node, ReadAs(p).value, v)
  {
    var m, f := ReadingsOf(rd, policy, payload), ReadAs(p).value;
    ValueIsCarried(m, node, f, v);
    CarriedByRows(rd, policy, payload, node, f, v);
    if Carries(m, node, f, v) { assert Reading(node, Some((f, v))) in m && node in NodesOf(m); }
    if node in records { assert Describes(rd, policy, m, node, records[node]); }
  }

  /** A node is given a CPU ratio, a used or a total memory by a run exactly when some row of some query
      supplies it. */
  lemma AmountsComeFromRows(rd: Reader, policy: Policy, payloads: seq<Payload>, sources: seq<Records>, node: string,
                            p: Part, v: real)
    requires Gathers(rd, policy, payloads, sources) && ReadAs(p).Some?
    ensures Brings(MergeSources(sources), node, p, v)
       <==> exists i: nat :: i < |payloads| && RowSupplies(rd, policy, payloads[i], node, ReadAs(p).value, v)
  {
    GatheredBrings(sources, node, p, v);
    forall i: nat | i < |payloads|
      ensures Brings(sources[i], node, p, v) <==> RowSupplies(rd, policy, payloads[i], node, ReadAs(p).value, v) {
      ParsedBrings(rd, policy, payloads[i], sources[i], node, p, v);
    }
  }

  /** When no file system is asked for, disk rows are read over, whatever they say. */
  lemma NoDisksWithoutFilesystems(rd: Reader, policy: Policy, payloads: seq<Payload>, sources: seq<Records>,
                                  node: string, v: real)
    requires Gathers(rd, policy, payloads, sources) && policy.filesystems == []
    ensures !Brings(MergeSources(sources), node, DisksUsed, v) && !Brings(MergeSources(sources), node, DisksTotal, v)
  {
    GatheredBrings(sources, node, DisksUsed, v);
    GatheredBrings(sources, node, DisksTotal, v);
    forall i: nat | i < |payloads|
      ensures !Brings(sources[i], node, DisksUsed, v) && !Brings(sources[i], node, DisksTotal, v) {
      ParsedWithoutDisks(rd, policy, payloads[i], sources[i], node, v);
    }
  }

  lemma ParsedWithoutDisks(rd: Reader, policy: Policy, payload: Payload, records: Records, node: string, v: real)
    requires Parsed(rd, policy, payload, records) && policy.filesystems == []
    ensures !Brings(records, node, DisksUsed, v) && !Brings(records, node, DisksTotal, v)
  {
    NoFilesystems(rd, policy, payload, node);
    DescribedWithoutDisks(rd, policy, ReadingsOf(rd, policy, payload), records, node, v);
  }

  lemma NoFilesystems(rd: Reader, policy: Policy, payload: Payload, node: string)
    requires Acceptable(rd, policy, payload) && policy.filesystems == []
    ensures Filesystems(ReadingsOf(rd, policy, payload), node) == {}
  {
    ReadingsAreBounded(rd, policy, payload);
    BoundedWithoutDisks(policy, ReadingsOf(rd, policy, payload), node);
  }

  lemma BoundedWithoutDisks(policy: Policy, m: Readings, node: string)
    requires policy.filesystems == [] && forall r :: r in m ==> Bounded(policy, r)
    ensures Filesystems(m, node) == {}
  {
  }

  lemma DescribedWithoutDisks(rd: Reader, policy: Policy, m: Readings, records: Records, node: string, v: real)
    requires DescribesAll(rd, policy, m, records) && Filesystems(m, node) == {}
    ensures !Brings(records, node, DisksUsed, v) && !Brings(records, node, DisksTotal, v)
  {
    if node in records {
      RecordWithoutDisks(rd, policy, m, node, records[node], v);
    }
  }

  lemma RecordWithoutDisks(rd: Reader, policy: Policy, m: Readings, node: string, r: NodeResource, v: real)
    requires Describes(rd, policy, m, node, r) && Filesystems(m, node) == {}
    ensures PartOf(r, DisksUsed) != Some(v) && PartOf(r, DisksTotal) != Some(v)
  {
    NothingSummed(m, node, r);
  }

  lemma NothingSummed(m: Readings, node: string, r: NodeResource)
    requires Filesystems(m, node) == {} && DiskDescribed(m, node, r)
    ensures r.diskUsed.None? && r.diskTotal.None?
  {
    assert UsedOf(m, node) == map[] && TotalOf(m, node) == map[];
  }

  // ---------- bonds ----------

  /** The name of a physical port: one of the usual prefixes, and a digit after it. */
  predicate NamedLikePort(lower: string) {
    exists i :: 0 <= i < |lower| && '0' <= lower[i] <= '9'
      && (("em" <= lower && i >= 2)
          || (("eno" <= lower || "enp" <= lower || "ens" <= lower || "eth" <= lower) && i >= 3))
  }

  lemma MembersAreNamedLikePorts(rd: Reader, iface: string)
    ensures LikelyBondMember(rd, iface) <==> NamedLikePort(rd.lower(iface))
  {
    var lower := rd.lower(iface);
    if HasDigit(lower) {
      DigitsAfter(lower, 2);
      DigitsAfter(lower, 3);
    }
    if i :| 0 <= i < |lower| && '0' <= lower[i] <= '9' { assert HasDigit(lower); }
  }

  lemma DigitsAfter(s: string, n: nat)
    ensures n <= |s| ==> (HasDigit(s[n..]) <==> exists i :: n <= i < |s| && '0' <= s[i] <= '9')
  {
    if n <= |s| {
      if i :| n <= i < |s| && '0' <= s[i] <= '9' { assert s[n..][i - n] == s[i]; }
      if i :| 0 <= i < |s[n..]| && '0' <= s[n..][i] <= '9' { assert s[n + i] == s[n..][i]; }
    }
  }

  /** An interface is reported unless bonds are preferred, one is there, and it is named like a port. */
  lemma ReportedInterfaces(rd: Reader, policy: Policy, all: set<string>, iface: string)
    ensures iface in Visible(rd, policy, all)
       <==> iface in all && !(policy.preferBond && NamedLikePort(rd.lower(iface))
                              && exists bond :: bond in all && "bond" <= rd.lower(bond))
  {
    MembersAreNamedLikePorts(rd, iface);
    if bond :| bond in all && "bond" <= rd.lower(bond) { assert BondName(rd, bond); }
  }

  // ---------- the checks on a whole node ----------

  /** A file system's used and total amounts are both read or neither, and in order. */
  ghost predicate DiskPaired(m: Readings, node: string, fs: string) {
    && ((exists u: real :: Carries(m, node, DiskUsed(fs), u)) <==> exists t: real :: Carries(m, node, DiskTotal(fs), t))
    && forall u: real, t: real :: Carries(m, node, DiskUsed(fs), u) && Carries(m, node, DiskTotal(fs), t) ==> u <= t
  }

  lemma DiskPairMeans(m: Readings, node: string, fs: string)
    requires Unique(m)
    ensures DiskPaired(m, node, fs) <==> (fs in Filesystems(m, node) ==> DiskComplete(m, node, fs))
  {
    forall u: real ensures Value(m, node, DiskUsed(fs)) == Some(u) <==> Carries(m, node, DiskUsed(fs), u) {
      ValueIsCarried(m, node, DiskUsed(fs), u);
    }
    forall t: real ensures Value(m, node, DiskTotal(fs)) == Some(t) <==> Carries(m, node, DiskTotal(fs), t) {
      ValueIsCarried(m, node, DiskTotal(fs), t);
    }
    FilesystemIsRead(m, node, fs);
  }

  lemma FilesystemIsRead(m: Readings, node: string, fs: string)
    ensures fs in Filesystems(m, node)
       <==> exists v: real :: Carries(m, node, DiskUsed(fs), v) || Carries(m, node, DiskTotal(fs), v)
  {
    if fs in Filesystems(m, node) {
      var r :| r in m && r.node == node && r.sample.Some?
               && (r.sample.value.0 == DiskUsed(fs) || r.sample.value.0 == DiskTotal(fs));
      assert Carries(m, node, r.sample.value.0, r.sample.value.1);
    }
    if v: real :| Carries(m, node, DiskUsed(fs), v) {
      assert Reading(node, Some((DiskUsed(fs), v))) in m;
    }
    if v: real :| Carries(m, node, DiskTotal(fs), v) {
      assert Reading(node, Some((DiskTotal(fs), v))) in m;
    }
  }

  /** A node passes iff it has no more interfaces than allowed, no more memory in use than there is, and each of
      its file systems is read in both amounts, in order. */
  lemma PassingMeans(policy: Policy, m: Readings, node: string)
    requires Unique(m)
    ensures NodePasses(policy, m, node)
       <==> && |Interfaces(m, node)| <= policy.maxInterfaces
            && (forall u: real, t: real :: Carries(m, node, MemUsed, u) && Carries(m, node, MemTotal, t) ==> u <= t)
            && forall fs :: DiskPaired(m, node, fs)
  {
    forall fs ensures DiskPaired(m, node, fs) <==> (fs in Filesystems(m, node) ==> DiskComplete(m, node, fs)) {
      DiskPairMeans(m, node, fs);
    }
    forall u: real ensures Value(m, node, MemUsed) == Some(u) <==> Carries(m, node, MemUsed, u) {
      ValueIsCarried(m, node, MemUsed, u);
    }
    forall t: real ensures Value(m, node, MemTotal) == Some(t) <==> Carries(m, node, MemTotal, t) {
      ValueIsCarried(m, node, MemTotal, t);
    }
  }
}
