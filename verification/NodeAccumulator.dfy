/**
 The two maps that the row loop fills, and what they hold: a table with one value per
 (node, field) label.
 */
module NodeAccumulator {
  import opened Common
  import opened NodeReadings

  // ---------- the accumulator ----------

  datatype Disk = Disk(used: Option<real>, total: Option<real>)

  type Disks = map<string, Disk>

  /** The two maps that the row loop fills. */
  datatype Accumulator = Accumulator(result: map<string, NodeResource>, disks: map<string, Disks>)

  function CurrentOf(a: Accumulator, node: string): NodeResource {
    if node in a.result then a.result[node] else EMPTY
  }

  function DisksOf(a: Accumulator, node: string): Disks {
    if node in a.disks then a.disks[node] else map[]
  }

  function DiskAt(disks: Disks, fs: string): Disk {
    if fs in disks then disks[fs] else Disk(None, None)
  }

  /** Position of an interface in the list, or its length. */
  function Position(network: seq<Network>, iface: string): (k: nat)
    ensures k <= |network|
    ensures k < |network| ==> network[k].iface == iface
    ensures forall i :: 0 <= i < k ==> network[i].iface != iface
  {
    if network == [] || network[0].iface == iface then 0 else 1 + Position(network[1..], iface)
  }

  function FirstValue(iface: string, f: Field, v: real): Network {
    if f.Received? then Network(iface, Some(v), None) else Network(iface, None, Some(v))
  }

  function AddNetwork(policy: Policy, network: seq<Network>, iface: string, f: Field, v: real): Option<seq<Network>>
    requires f == Received(iface) || f == Sent(iface)
  {
    var k := Position(network, iface);
    if k == |network| then
      if |network| >= policy.maxInterfaces then None else Some(network + [FirstValue(iface, f, v)])
    else if f.Received? then
      if network[k].receive.Some? then None else Some(network[k := network[k].(receive := Some(v))])
    else
      if network[k].transmit.Some? then None else Some(network[k := network[k].(transmit := Some(v))])
  }

  /** The effect of one labelled value on a node's record and disk map; None when it
      duplicates a series or brings an interface too many. */
  function AddField(policy: Policy, current: NodeResource, disks: Disks, f: Field,
                    v: real): Option<(NodeResource, Disks)> {
    match f
    case Cpu => if current.cpu.Some? then None else Some((current.(cpu := Some(v)), disks))
    case MemUsed => if current.memUsed.Some? then None else Some((current.(memUsed := Some(v)), disks))
    case MemTotal => if current.memTotal.Some? then None else Some((current.(memTotal := Some(v)), disks))
    case DiskUsed(fs) =>
      var d := DiskAt(disks, fs);
      if d.used.Some? then None else Some((current, disks[fs := d.(used := Some(v))]))
    case DiskTotal(fs) =>
      var d := DiskAt(disks, fs);
      if d.total.Some? then None else Some((current, disks[fs := d.(total := Some(v))]))
    case Received(iface) =>
      (match AddNetwork(policy, current.network, iface, f, v)
       case None => None
       case Some(network) => Some((current.(network := network), disks)))
    case Sent(iface) =>
      (match AddNetwork(policy, current.network, iface, f, v)
       case None => None
       case Some(network) => Some((current.(network := network), disks)))
  }

  /** The effect of one readable row on the maps. */
  function Add(a: Accumulator, policy: Policy, r: Reading): Option<Accumulator> {
    var current := CurrentOf(a, r.node);
    if r.sample.None? then Some(a.(result := a.result[r.node := current]))
    else
      match AddField(policy, current, DisksOf(a, r.node), r.sample.value.0, r.sample.value.1)
      case None => None
      case Some((updated, disks)) =>
        Some(Accumulator(a.result[r.node := updated],
                         if disks == DisksOf(a, r.node) then a.disks else a.disks[r.node := disks]))
  }

  // ---------- the accumulator as a table of labels ----------

  /** For each node that was named, the value of each of its fields that was read. */
  type Fields = map<Field, real>
  type Table = map<string, Fields>

  ghost function FieldsAt(t: Table, node: string): Fields {
    if node in t then t[node] else map[]
  }

  ghost function Get(g: Fields, f: Field): Option<real> {
    if f in g then Some(g[f]) else None
  }

  ghost function Extended(t: Table, r: Reading): Table {
    t[r.node := if r.sample.Some? then FieldsAt(t, r.node)[r.sample.value.0 := r.sample.value.1]
      else FieldsAt(t, r.node)]
  }

  /** The label of the reading is not in the table. */
  ghost predicate NewLabel(t: Table, r: Reading) {
    r.sample.Some? ==> r.sample.value.0 !in FieldsAt(t, r.node)
  }

  /** The table holds exactly the readings, each labelled one of them read once. */
  ghost predicate Tabulates(t: Table, m: Readings) {
    && (forall r :: r in m ==> r.node in t)
    && (forall r :: r in m && r.sample.Some? ==>
          Get(t[r.node], r.sample.value.0) == Some(r.sample.value.1) && m[r] == 1)
    && (forall n :: n in t ==> n in NodesOf(m))
    && (forall n, f :: n in t && f in t[n] ==> Carries(m, n, f, t[n][f]))
  }

  lemma TableIsUnique(t: Table, m: Readings)
    requires Tabulates(t, m)
    ensures Unique(m) && NodesOf(m) == t.Keys
  {
  }

  lemma ValueIsLookup(t: Table, m: Readings, node: string, f: Field)
    requires Tabulates(t, m)
    ensures Value(m, node, f) == Get(FieldsAt(t, node), f)
  {
    if f in FieldsAt(t, node) {
      assert Carries(m, node, f, t[node][f]);
    }
    forall v: real | Carries(m, node, f, v) ensures Get(FieldsAt(t, node), f) == Some(v) {
      var r := Reading(node, Some((f, v)));
      assert r in m;
    }
  }

  lemma ExtendedHas(t: Table, m: Readings, r: Reading, s: Reading)
    requires Tabulates(t, m) && NewLabel(t, r) && s in m + multiset{r}
    ensures s.node in Extended(t, r)
    ensures s.sample.Some? ==>
              && Get(Extended(t, r)[s.node], s.sample.value.0) == Some(s.sample.value.1)
              && (m + multiset{r})[s] == 1
  {
    assert r.sample.Some? ==> r !in m;
    if s != r { assert s in m; }
  }

  lemma ExtendedCarried(t: Table, m: Readings, r: Reading, n: string)
    requires Tabulates(t, m) && n in Extended(t, r)
    ensures n in NodesOf(m + multiset{r})
    ensures forall f :: f in Extended(t, r)[n] ==> Carries(m + multiset{r}, n, f, Extended(t, r)[n][f])
  {
    var t', m' := Extended(t, r), m + multiset{r};
    assert r in m';
    if n in t {
      var s :| s in m && s.node == n;
      assert s in m';
    }
    forall f | f in t'[n] ensures Carries(m', n, f, t'[n][f]) {
      if n in t && f in t[n] { assert Carries(m, n, f, t[n][f]); }
    }
  }

  /** Adding a reading to the multiset adds its label to the table. */
  lemma TableGrows(t: Table, m: Readings, r: Reading)
    requires Tabulates(t, m) && NewLabel(t, r)
    ensures Tabulates(Extended(t, r), m + multiset{r})
  {
    var t', m' := Extended(t, r), m + multiset{r};
    forall s | s in m' ensures s.node in t'
                       ensures s.sample.Some? ==>
                                 Get(t'[s.node], s.sample.value.0) == Some(s.sample.value.1) && m'[s] == 1 {
      ExtendedHas(t, m, r, s);
    }
    forall n | n in t' ensures n in NodesOf(m') && forall f :: f in t'[n] ==> Carries(m', n, f, t'[n][f]) {
      ExtendedCarried(t, m, r, n);
    }
  }

  /** A label that is read twice makes every larger multiset of readings ambiguous. */
  lemma TableRefuses(t: Table, m: Readings, r: Reading)
    requires Tabulates(t, m) && !NewLabel(t, r)
    ensures !Unique(m + multiset{r})
  {
    var m' := m + multiset{r};
    var s := Reading(r.node, Some((r.sample.value.0, t[r.node][r.sample.value.0])));
    assert Carries(m, s.node, s.sample.value.0, s.sample.value.1);
    assert s in m && Label(s) == Label(r);
    assert s in m' && r in m';
    if s == r { assert m'[r] >= 2; }
  }

  // ---------- one node's record agrees with its fields ----------

  ghost predicate DistinctIfaces(network: seq<Network>) {
    forall i, j :: 0 <= i < j < |network| ==> network[i].iface != network[j].iface
  }

  ghost predicate EntryAgrees(n: Network, g: Fields) {
    && n.receive == Get(g, Received(n.iface)) && n.transmit == Get(g, Sent(n.iface))
    && (n.receive.Some? || n.transmit.Some?)
  }

  ghost predicate Mentions(g: Fields, iface: string) {
    Received(iface) in g || Sent(iface) in g
  }

  ghost predicate NetworkAgrees(network: seq<Network>, g: Fields) {
    && DistinctIfaces(network)
    && (forall k :: 0 <= k < |network| ==> EntryAgrees(network[k], g))
    && (forall i :: Mentions(g, i) ==> Position(network, i) < |network|)
  }

  ghost predicate ScalarsAgree(c: NodeResource, g: Fields) {
    c.cpu == Get(g, Cpu) && c.memUsed == Get(g, MemUsed) && c.memTotal == Get(g, MemTotal)
    && c.diskUsed.None? && c.diskTotal.None?
  }

  ghost predicate DisksAgree(disks: Disks, g: Fields) {
    forall fs ::
      && DiskAt(disks, fs) == Disk(Get(g, DiskUsed(fs)), Get(g, DiskTotal(fs)))
      && (fs in disks ==> DiskAt(disks, fs).used.Some? || DiskAt(disks, fs).total.Some?)
  }

  ghost predicate NodeAgrees(c: NodeResource, disks: Disks, g: Fields, limit: int) {
    ScalarsAgree(c, g) && NetworkAgrees(c.network, g) && |c.network| <= limit && DisksAgree(disks, g)
  }

  /** The two maps agree with the table at one node of the table. */
  ghost predicate AgreesAt(a: Accumulator, t: Table, limit: int, node: string) {
    node in t && node in a.result && NodeAgrees(a.result[node], DisksOf(a, node), t[node], limit)
  }

  ghost predicate Agrees(a: Accumulator, t: Table, limit: int) {
    && a.result.Keys == t.Keys && a.disks.Keys <= t.Keys
    && forall n :: n in t ==> AgreesAt(a, t, limit, n)
  }

  /** Fields that are not about interfaces do not disturb the interface list. */
  lemma NetworkKeeps(network: seq<Network>, g: Fields, f: Field, v: real)
    requires NetworkAgrees(network, g) && !f.Received? && !f.Sent?
    ensures NetworkAgrees(network, g[f := v])
  {
    forall k | 0 <= k < |network| ensures EntryAgrees(network[k], g[f := v]) {
      assert EntryAgrees(network[k], g);
    }
    forall i | Mentions(g[f := v], i) ensures Position(network, i) < |network| {
      assert Mentions(g, i);
    }
  }

  lemma EntriesStep(network: seq<Network>, g: Fields, f: Field, v: real, k: nat)
    requires NetworkAgrees(network, g) && k <= |network|
    requires f.Received? || f.Sent?
    requires forall j :: 0 <= j < |network| && j != k ==> network[j].iface != f.iface
    ensures forall j :: 0 <= j < |network| && j != k ==> EntryAgrees(network[j], g[f := v])
  {
    forall j | 0 <= j < |network| && j != k ensures EntryAgrees(network[j], g[f := v]) {
      assert EntryAgrees(network[j], g);
    }
  }

  lemma PositionsStep(network: seq<Network>, longer: seq<Network>, g: Fields, f: Field, v: real, at: nat)
    requires NetworkAgrees(network, g) && (f.Received? || f.Sent?)
    requires |longer| >= |network| && forall j :: 0 <= j < |network| ==> longer[j].iface == network[j].iface
    requires at < |longer| && longer[at].iface == f.iface
    ensures forall i :: Mentions(g[f := v], i) ==> Position(longer, i) < |longer|
  {
    forall i | Mentions(g[f := v], i) ensures Position(longer, i) < |longer| {
      if i != f.iface {
        assert Mentions(g, i);
        assert longer[Position(network, i)].iface == i;
      } else {
        assert longer[at].iface == i;
      }
    }
  }

  lemma NetworkAppended(network: seq<Network>, g: Fields, iface: string, f: Field, v: real)
    requires NetworkAgrees(network, g) && Position(network, iface) == |network|
    requires f == Received(iface) || f == Sent(iface)
    ensures f !in g && NetworkAgrees(network + [FirstValue(iface, f, v)], g[f := v])
  {
    var longer := network + [FirstValue(iface, f, v)];
    assert !Mentions(g, iface);
    EntriesStep(network, g, f, v, |network|);
    PositionsStep(network, longer, g, f, v, |network|);
    assert EntryAgrees(longer[|network|], g[f := v]);
  }

  lemma NetworkUpdated(network: seq<Network>, g: Fields, k: nat, f: Field, v: real)
    requires NetworkAgrees(network, g) && k < |network|
    requires f == Received(network[k].iface) || f == Sent(network[k].iface)
    requires if f.Received? then network[k].receive.None? else network[k].transmit.None?
    ensures f !in g
    ensures var n := if f.Received? then network[k].(receive := Some(v)) else network[k].(transmit := Some(v));
            NetworkAgrees(network[k := n], g[f := v])
  {
    var n := if f.Received? then network[k].(receive := Some(v)) else network[k].(transmit := Some(v));
    assert EntryAgrees(network[k], g);
    EntriesStep(network, g, f, v, k);
    PositionsStep(network, network[k := n], g, f, v, k);
  }

  lemma NetworkStep(policy: Policy, network: seq<Network>, g: Fields, iface: string, f: Field, v: real)
    requires NetworkAgrees(network, g) && |network| <= policy.maxInterfaces
    requires f == Received(iface) || f == Sent(iface)
    ensures var n := AddNetwork(policy, network, iface, f, v);
            && (n.Some? ==> f !in g && NetworkAgrees(n.value, g[f := v]) && |n.value| <= policy.maxInterfaces)
            && (n.None? ==> f in g || Position(network, iface) == |network| == policy.maxInterfaces)
  {
    var k := Position(network, iface);
    if k == |network| {
      NetworkAppended(network, g, iface, f, v);
    } else {
      assert EntryAgrees(network[k], g);
      if AddNetwork(policy, network, iface, f, v).Some? { NetworkUpdated(network, g, k, f, v); }
    }
  }

  ghost predicate OverLimit(policy: Policy, network: seq<Network>, f: Field) {
    (f.Received? || f.Sent?) && Position(network, f.iface) == |network| == policy.maxInterfaces
  }

  lemma DisksStep(disks: Disks, g: Fields, f: Field, v: real)
    requires DisksAgree(disks, g)
    requires f.DiskUsed? || f.DiskTotal? ==> f !in g
    ensures DisksAgree(
              match f
              case DiskUsed(fs) => disks[fs := DiskAt(disks, fs).(used := Some(v))]
              case DiskTotal(fs) => disks[fs := DiskAt(disks, fs).(total := Some(v))]
              case _ => disks, g[f := v])
  {
    var g' := g[f := v];
    var disks' :=
      match f
      case DiskUsed(fs) => disks[fs := DiskAt(disks, fs).(used := Some(v))]
      case DiskTotal(fs) => disks[fs := DiskAt(disks, fs).(total := Some(v))]
      case _ => disks;
    forall fs
      ensures DiskAt(disks', fs) == Disk(Get(g', DiskUsed(fs)), Get(g', DiskTotal(fs)))
      ensures fs in disks' ==> DiskAt(disks', fs).used.Some? || DiskAt(disks', fs).total.Some? {
      assert DiskAt(disks, fs) == Disk(Get(g, DiskUsed(fs)), Get(g, DiskTotal(fs)));
      assert fs in disks ==> DiskAt(disks, fs).used.Some? || DiskAt(disks, fs).total.Some?;
    }
  }

  /** One labelled value on one node: refused exactly when its label was there already or it
      brings an interface beyond the limit; otherwise the record goes on agreeing. */
  lemma FieldStep(policy: Policy, c: NodeResource, disks: Disks, g: Fields, f: Field, v: real)
    requires NodeAgrees(c, disks, g, policy.maxInterfaces)
    ensures var n := AddField(policy, c, disks, f, v);
            && (n.Some? ==> f !in g && NodeAgrees(n.value.0, n.value.1, g[f := v], policy.maxInterfaces))
            && (n.None? ==> f in g || OverLimit(policy, c.network, f))
  {
    if f.Received? || f.Sent? {
      NetworkStep(policy, c.network, g, f.iface, f, v);
    } else {
      NetworkKeeps(c.network, g, f, v);
    }
    if f.DiskUsed? || f.DiskTotal? {
      assert DiskAt(disks, f.fs) == Disk(Get(g, DiskUsed(f.fs)), Get(g, DiskTotal(f.fs)));
    }
    if AddField(policy, c, disks, f, v).Some? {
      DisksStep(disks, g, f, v);
    }
  }

  lemma EmptyAgrees(limit: int)
    requires limit >= 0
    ensures NodeAgrees(EMPTY, map[], map[], limit)
  {
  }

  lemma CurrentAgrees(a: Accumulator, t: Table, limit: int, node: string)
    requires limit >= 0 && Agrees(a, t, limit)
    ensures NodeAgrees(CurrentOf(a, node), DisksOf(a, node), FieldsAt(t, node), limit)
  {
    EmptyAgrees(limit);
    if node in t { assert AgreesAt(a, t, limit, node); }
  }

  /** The maps after one node's record and disks were stored. */
  ghost predicate Stored(a: Accumulator, a': Accumulator, node: string, c: NodeResource, disks: Disks) {
    && a'.result == a.result[node := c]
    && (a'.disks == a.disks[node := disks] || (a'.disks == a.disks && DisksOf(a, node) == disks))
  }

  lemma OtherNodeStays(a: Accumulator, a': Accumulator, t: Table, limit: int, node: string, c: NodeResource,
                       disks: Disks, g: Fields, n: string)
    requires Stored(a, a', node, c, disks) && AgreesAt(a, t, limit, n) && n != node
    ensures AgreesAt(a', t[node := g], limit, n)
  {
    assert DisksOf(a', n) == DisksOf(a, n) && a'.result[n] == a.result[n] && t[node := g][n] == t[n];
  }

  lemma StoredNodeAgrees(a: Accumulator, a': Accumulator, t: Table, limit: int, node: string, c: NodeResource,
                         disks: Disks, g: Fields)
    requires Stored(a, a', node, c, disks) && NodeAgrees(c, disks, g, limit)
    ensures AgreesAt(a', t[node := g], limit, node)
  {
    assert DisksOf(a', node) == disks && a'.result[node] == c;
  }

  lemma StoreNode(a: Accumulator, a': Accumulator, t: Table, limit: int, node: string, c: NodeResource,
                  disks: Disks, g: Fields)
    requires Agrees(a, t, limit) && NodeAgrees(c, disks, g, limit) && Stored(a, a', node, c, disks)
    ensures Agrees(a', t[node := g], limit)
  {
    StoredNodeAgrees(a, a', t, limit, node, c, disks, g);
    forall n | n in t && n != node ensures AgreesAt(a', t[node := g], limit, n) {
      assert AgreesAt(a, t, limit, n);
      OtherNodeStays(a, a', t, limit, node, c, disks, g, n);
    }
  }

  /** One row on the whole accumulator. */
  lemma RowStep(a: Accumulator, t: Table, policy: Policy, r: Reading)
    requires policy.maxInterfaces >= 1 && Agrees(a, t, policy.maxInterfaces)
    ensures var a' := Add(a, policy, r);
            && (a'.Some? ==> NewLabel(t, r) && Agrees(a'.value, Extended(t, r), policy.maxInterfaces))
            && (a'.None? ==> r.sample.Some? && (!NewLabel(t, r)
                                                || OverLimit(policy, CurrentOf(a, r.node).network, r.sample.value.0)))
  {
    var current, disks, g := CurrentOf(a, r.node), DisksOf(a, r.node), FieldsAt(t, r.node);
    CurrentAgrees(a, t, policy.maxInterfaces, r.node);
    if r.sample.None? {
      StoreNode(a, Add(a, policy, r).value, t, policy.maxInterfaces, r.node, current, disks, g);
    } else {
      var (f, v) := r.sample.value;
      FieldStep(policy, current, disks, g, f, v);
      var n := AddField(policy, current, disks, f, v);
      if n.Some? {
        StoreNode(a, Add(a, policy, r).value, t, policy.maxInterfaces, r.node, n.value.0, n.value.1, g[f := v]);
      }
    }
  }

  // ---------- counting interfaces ----------

  lemma {:induction false} NamesCount(network: seq<Network>)
    requires DistinctIfaces(network)
    ensures |Names(network)| == |network|
  {
    if network != [] {
      var front, last := network[..|network| - 1], network[|network| - 1];
      NamesCount(front);
      assert last.iface !in Names(front);
      assert Names(network) == Names(front) + {last.iface};
    }
  }

  /** The interfaces read for a node are the names in its list. */
  lemma InterfacesAreNames(t: Table, m: Readings, node: string, network: seq<Network>)
    requires Tabulates(t, m) && NetworkAgrees(network, FieldsAt(t, node))
    ensures Interfaces(m, node) == Names(network) && |Interfaces(m, node)| == |network|
  {
    var g := FieldsAt(t, node);
    forall i | i in Interfaces(m, node) ensures i in Names(network) {
      var r :| r in m && r.node == node && r.sample.Some?
               && (r.sample.value.0.Received? || r.sample.value.0.Sent?) && r.sample.value.0.iface == i;
      assert Mentions(g, i);
      assert network[Position(network, i)] in network;
    }
    forall n | n in network ensures n.iface in Interfaces(m, node) {
      var k :| 0 <= k < |network| && network[k] == n;
      assert EntryAgrees(network[k], g);
      var f := if n.receive.Some? then Received(n.iface) else Sent(n.iface);
      assert Carries(m, node, f, g[f]);
    }
    NamesCount(network);
  }

  // ---------- failures that no later row can repair ----------

  ghost predicate Hopeless(policy: Policy, m: Readings) {
    !Unique(m) || exists node :: |Interfaces(m, node)| > policy.maxInterfaces
  }

  lemma HopelessStays(policy: Policy, m: Readings, m': Readings)
    requires m <= m' && Hopeless(policy, m)
    ensures Hopeless(policy, m')
  {
    if !Unique(m) {
      var r :| r in m && r.sample.Some?
               && !(m[r] == 1 && forall s :: s in m && s.sample.Some? && Label(s) == Label(r) ==> s == r);
      assert m'[r] >= m[r] && forall s :: s in m ==> s in m';
    } else {
      var node :| |Interfaces(m, node)| > policy.maxInterfaces;
      assert Interfaces(m, node) <= Interfaces(m', node);
      SubsetSize(Interfaces(m, node), Interfaces(m', node));
    }
  }

  lemma SubsetSize(a: set<string>, b: set<string>)
    requires a <= b
    ensures |a| <= |b|
  {
    assert b == a + (b - a);
  }

  lemma HopelessFails(policy: Policy, m: Readings)
    requires policy.maxInterfaces >= 0 && Hopeless(policy, m)
    ensures !Consistent(policy, m)
  {
    if Unique(m) {
      var node :| |Interfaces(m, node)| > policy.maxInterfaces;
      var i :| i in Interfaces(m, node);
      var r :| r in m && r.node == node && r.sample.Some?
               && (r.sample.value.0.Received? || r.sample.value.0.Sent?) && r.sample.value.0.iface == i;
      assert node in NodesOf(m);
    }
  }

  lemma OverLimitIsHopeless(policy: Policy, m: Readings, r: Reading, network: seq<Network>)
    requires r.sample.Some? && OverLimit(policy, network, r.sample.value.0)
    requires Interfaces(m, r.node) == Names(network) && |Names(network)| == |network|
    ensures Hopeless(policy, m + multiset{r})
  {
    var m', i := m + multiset{r}, r.sample.value.0.iface;
    assert r in m';
    assert i in Interfaces(m', r.node);
    assert Interfaces(m, r.node) <= Interfaces(m', r.node);
    assert i !in Names(network);
    SubsetSize(Names(network) + {i}, Interfaces(m', r.node));
  }

  /** A row that the maps refuse makes the readings hopeless. */
  lemma RefusalIsHopeless(a: Accumulator, t: Table, m: Readings, policy: Policy, r: Reading)
    requires policy.maxInterfaces >= 1 && Agrees(a, t, policy.maxInterfaces) && Tabulates(t, m)
    requires Add(a, policy, r).None?
    ensures Hopeless(policy, m + multiset{r})
  {
    RowStep(a, t, policy, r);
    if !NewLabel(t, r) {
      TableRefuses(t, m, r);
    } else {
      CurrentAgrees(a, t, policy.maxInterfaces, r.node);
      InterfacesAreNames(t, m, r.node, CurrentOf(a, r.node).network);
      OverLimitIsHopeless(policy, m, r, CurrentOf(a, r.node).network);
    }
  }
}
