/**
 The node-resource parser: its loops over series, rows, nodes and filesystems, proved
 against the specification on readings, and what that specification guarantees.
 */
module NodeResources {
  import opened Common
  import opened Flux
  import opened NodeReadings
  import opened NodeAccumulator

  // ---------- the loops over series and rows ----------

  ghost function Collected(rd: Reader, policy: Policy, lines: seq<Line>): Readings {
    multiset(Map(lines, ReadingOrIgnored(rd, policy)))
  }

  lemma CollectedStep(rd: Reader, policy: Policy, lines: seq<Line>, more: seq<Line>)
    ensures Collected(rd, policy, lines + more) == Collected(rd, policy, lines) + Collected(rd, policy, more)
  {
    var f := ReadingOrIgnored(rd, policy);
    assert Map(lines + more, f) == Map(lines, f) + Map(more, f);
  }

  lemma CollectedOne(rd: Reader, policy: Policy, l: Line)
    ensures Collected(rd, policy, [l]) == multiset{ReadingOrIgnored(rd, policy)(l)}
  {
    assert Map([l], ReadingOrIgnored(rd, policy)) == [ReadingOrIgnored(rd, policy)(l)];
  }

  ghost predicate Readable(rd: Reader, policy: Policy, lines: seq<Line>) {
    forall l :: l in lines ==> ReadLine(rd, policy, l).Ok?
  }

  /** Everything the loops know after some lines. */
  ghost predicate Progress(rd: Reader, policy: Policy, lines: seq<Line>, a: Accumulator, t: Table) {
    Agrees(a, t, policy.maxInterfaces) && Tabulates(t, Collected(rd, policy, lines)) && Readable(rd, policy, lines)
  }

  /** Some line cannot be read, or the readings are hopeless. */
  ghost predicate Rejected(rd: Reader, policy: Policy, lines: seq<Line>) {
    !Readable(rd, policy, lines) || Hopeless(policy, Collected(rd, policy, lines))
  }

  lemma RejectedStays(rd: Reader, policy: Policy, lines: seq<Line>, more: seq<Line>)
    requires Rejected(rd, policy, lines)
    ensures Rejected(rd, policy, lines + more)
  {
    CollectedStep(rd, policy, lines, more);
    if Readable(rd, policy, lines) {
      HopelessStays(policy, Collected(rd, policy, lines), Collected(rd, policy, lines + more));
    } else {
      var l :| l in lines && !ReadLine(rd, policy, l).Ok?;
      assert l in lines + more;
    }
  }

  /** One row: either progress on one more line, or a rejection. */
  method ReadOne(rd: Reader, policy: Policy, index: ColumnIndex, l: Line, a: Accumulator, ghost t: Table,
                 ghost lines: seq<Line>)
    returns (ok: bool, a': Accumulator, ghost t': Table)
    requires policy.maxInterfaces >= 1 && Progress(rd, policy, lines, a, t)
    requires HeaderOk(l.columns, REQUIRED) && index == IndexOf(l.columns)
    ensures ok ==> Progress(rd, policy, lines + [l], a', t')
    ensures !ok ==> Rejected(rd, policy, lines + [l])
  {
    a', t' := a, t;
    CollectedStep(rd, policy, lines, [l]);
    CollectedOne(rd, policy, l);
    assert l in lines + [l];
    if |l.row| != |l.columns| {
      return false, a, t;
    }
    var reading := ReadRow(rd, policy, index, l.row);
    assert ReadLine(rd, policy, l) == reading;
    if reading.Err? {
      return false, a, t;
    }
    var r := reading.value;
    RowStep(a, t, policy, r);
    var added := Add(a, policy, r);
    if added.None? {
      RefusalIsHopeless(a, t, Collected(rd, policy, lines), policy, r);
      return false, a, t;
    }
    TableGrows(t, Collected(rd, policy, lines), r);
    ok, a', t' := true, added.value, Extended(t, r);
  }

  lemma OneMore(lines: seq<Line>, all: seq<Line>, k: nat)
    requires k < |all|
    ensures lines + all[..k + 1] == lines + all[..k] + [all[k]]
    ensures lines + all == lines + all[..k] + [all[k]] + all[k + 1..]
  {
  }

  /** The row loop of one series. */
  method ReadRows(rd: Reader, policy: Policy, s: Series, index: ColumnIndex, a: Accumulator, ghost t: Table,
                  ghost lines: seq<Line>)
    returns (ok: bool, a': Accumulator, ghost t': Table)
    requires policy.maxInterfaces >= 1 && Progress(rd, policy, lines, a, t)
    requires HeaderOk(s.columns, REQUIRED) && index == IndexOf(s.columns)
    ensures ok ==> Progress(rd, policy, lines + LinesOf(s), a', t')
    ensures !ok ==> Rejected(rd, policy, lines + LinesOf(s))
  {
    a', t' := a, t;
    ghost var done := lines;
    for k := 0 to |s.values|
      invariant done == lines + LinesOf(s)[..k]
      invariant Progress(rd, policy, done, a', t')
    {
      var l := Line(s.columns, s.values[k]);
      assert l == LinesOf(s)[k];
      OneMore(lines, LinesOf(s), k);
      ok, a', t' := ReadOne(rd, policy, index, l, a', t', done);
      done := done + [l];
      if !ok {
        RejectedStays(rd, policy, done, LinesOf(s)[k + 1..]);
        return;
      }
    }
    assert LinesOf(s)[..|s.values|] == LinesOf(s);
    ok := true;
  }

  /** The series loop. */
  method ReadPayload(rd: Reader, policy: Policy, payload: seq<Series>)
    returns (ok: bool, a: Accumulator, ghost t: Table)
    requires policy.maxInterfaces >= 1
    ensures ok ==> HeadersOk(payload, REQUIRED) && Progress(rd, policy, Lines(payload), a, t)
    ensures !ok ==> !HeadersOk(payload, REQUIRED) || Rejected(rd, policy, Lines(payload))
  {
    a, t := Accumulator(map[], map[]), map[];
    assert Map([], ReadingOrIgnored(rd, policy)) == [];
    ghost var done: seq<Line> := [];
    for k := 0 to |payload|
      invariant done == Lines(payload[..k])
      invariant HeadersOk(payload[..k], REQUIRED) && Progress(rd, policy, done, a, t)
    {
      var s := payload[k];
      LinesStep(payload, k);
      if s.Empty() {
        assert LinesOf(s) == [];
        continue;
      }
      var index := BuildIndex(s.columns, REQUIRED);
      if index.Err? {
        assert s in payload;
        return false, a, t;
      }
      ok, a, t := ReadRows(rd, policy, s, index.value, a, t, done);
      done := done + LinesOf(s);
      if !ok {
        LinesSplit(payload, k);
        RejectedStays(rd, policy, done, Lines(payload[k + 1..]));
        return;
      }
    }
    assert payload[..|payload|] == payload;
    ok := true;
  }

  // ---------- finishing a node ----------

  lemma MapRemoveSize(m: map<string, real>, k: string)
    requires k in m
    ensures |m - {k}| < |m|
  {
    var rest := m - {k};
    assert rest.Keys == m.Keys - {k};
  }

  /** Sums do not depend on the order in which the entries are taken. */
  lemma {:induction false} SumTakes(m: map<string, real>, k: string)
    requires k in m
    ensures Sum(m) == m[k] + Sum(m - {k})
    decreases |m|
  {
    assert m != map[];
    var j :| j in m && Sum(m) == m[j] + Sum(m - {j});
    if j != k {
      MapRemoveSize(m, j);
      MapRemoveSize(m, k);
      SumTakes(m - {j}, k);
      SumTakes(m - {k}, j);
      assert m - {j} - {k} == m - {k} - {j};
    }
  }

  lemma SumAdds(m: map<string, real>, k: string, v: real)
    requires k !in m
    ensures Sum(m[k := v]) == Sum(m) + v
  {
    SumTakes(m[k := v], k);
    assert m[k := v] - {k} == m;
  }

  lemma {:induction false} SumMonotone(a: map<string, real>, b: map<string, real>)
    requires a.Keys == b.Keys && forall k :: k in a ==> a[k] <= b[k]
    ensures Sum(a) <= Sum(b)
    decreases |a|
  {
    if a != map[] {
      var k :| k in a;
      MapRemoveSize(a, k);
      SumTakes(a, k);
      SumTakes(b, k);
      SumMonotone(a - {k}, b - {k});
    } else {
      assert b == map[];
    }
  }

  /** The disk maps of a node, as amounts. */
  ghost function UsedIn(disks: Disks): map<string, real> {
    map fs | fs in disks :: if disks[fs].used.Some? then disks[fs].used.value else 0.0
  }

  ghost function TotalIn(disks: Disks): map<string, real> {
    map fs | fs in disks :: if disks[fs].total.Some? then disks[fs].total.value else 0.0
  }

  predicate CompleteDisk(d: Disk) {
    d.used.Some? && d.total.Some? && d.used.value <= d.total.value
  }

  function OptionalFloat(v: Option<real>): real {
    if v.Some? then v.value else 0.0
  }

  /** The disks that are not left, all complete, with their amounts. */
  ghost predicate Tallied(disks: Disks, todo: set<string>, u: map<string, real>, t: map<string, real>) {
    && todo <= disks.Keys && u.Keys == t.Keys == disks.Keys - todo
    && forall fs :: fs in u ==>
         CompleteDisk(disks[fs]) && u[fs] == disks[fs].used.value && t[fs] == disks[fs].total.value
  }

  lemma TalliedStep(disks: Disks, todo: set<string>, u: map<string, real>, t: map<string, real>, fs: string)
    requires Tallied(disks, todo, u, t) && fs in todo && CompleteDisk(disks[fs])
    ensures fs !in u && fs !in t
    ensures Tallied(disks, todo - {fs}, u[fs := disks[fs].used.value], t[fs := disks[fs].total.value])
  {
  }

  lemma TalliedEnd(disks: Disks, u: map<string, real>, t: map<string, real>)
    requires Tallied(disks, {}, u, t)
    ensures u == UsedIn(disks) && t == TotalIn(disks) && forall fs :: fs in disks ==> CompleteDisk(disks[fs])
  {
  }

  /** The loop over one node's filesystems, in any order. */
  method AddDisks(disks: Disks) returns (ok: bool, used: Option<real>, total: Option<real>)
    ensures ok <==> forall fs :: fs in disks ==> CompleteDisk(disks[fs])
    ensures ok ==> used == SumOrNone(UsedIn(disks)) && total == SumOrNone(TotalIn(disks))
  {
    used, total := None, None;
    var todo := disks.Keys;
    ghost var u: map<string, real>, t: map<string, real> := map[], map[];
    while todo != {}
      invariant Tallied(disks, todo, u, t)
      invariant used == SumOrNone(u) && total == SumOrNone(t)
      decreases todo
    {
      var fs :| fs in todo;
      var disk := disks[fs];
      if disk.used.None? || disk.total.None? {
        return false, None, None;
      }
      if disk.used.value > disk.total.value {
        return false, None, None;
      }
      TalliedStep(disks, todo, u, t, fs);
      SumAdds(u, fs, disk.used.value);
      SumAdds(t, fs, disk.total.value);
      assert Sum(map[]) == 0.0;
      used := Some(OptionalFloat(used) + disk.used.value);
      total := Some(OptionalFloat(total) + disk.total.value);
      todo, u, t := todo - {fs}, u[fs := disk.used.value], t[fs := disk.total.value];
    }
    TalliedEnd(disks, u, t);
    ok := true;
  }

  /** `slices.DeleteFunc`: what remains, in order. */
  function WithoutMembers(rd: Reader, network: seq<Network>): (r: seq<Network>)
    ensures forall n :: n in r <==> n in network && !LikelyBondMember(rd, n.iface)
    ensures |r| <= |network|
  {
    if network == [] then []
    else
      var rest := WithoutMembers(rd, network[1..]);
      assert forall n :: n in network <==> n == network[0] || n in network[1..];
      if LikelyBondMember(rd, network[0].iface) then rest else [network[0]] + rest
  }

  lemma {:induction false} WithoutMembersDistinct(rd: Reader, network: seq<Network>)
    requires DistinctIfaces(network)
    ensures DistinctIfaces(WithoutMembers(rd, network))
  {
    if network != [] {
      WithoutMembersDistinct(rd, network[1..]);
      forall n | n in WithoutMembers(rd, network[1..]) ensures n.iface != network[0].iface {
        assert n in network[1..];
      }
    }
  }

  lemma NamesKept(rd: Reader, network: seq<Network>)
    ensures Names(WithoutMembers(rd, network)) == set i | i in Names(network) && !LikelyBondMember(rd, i)
  {
    var kept := WithoutMembers(rd, network);
    forall i | i in Names(network) && !LikelyBondMember(rd, i) ensures i in Names(kept) {
      var n :| n in network && n.iface == i;
      assert n in kept;
    }
  }

  predicate HasBond(rd: Reader, network: seq<Network>) {
    exists n :: n in network && BondName(rd, n.iface)
  }

  lemma BondsAreNamed(rd: Reader, network: seq<Network>)
    ensures HasBond(rd, network) <==> exists i :: i in Names(network) && BondName(rd, i)
  {
    if HasBond(rd, network) {
      var n :| n in network && BondName(rd, n.iface);
      assert n.iface in Names(network);
    }
  }

  function Kept(rd: Reader, policy: Policy, network: seq<Network>): seq<Network> {
    if policy.preferBond && HasBond(rd, network) then WithoutMembers(rd, network) else network
  }

  lemma KeptIsVisible(rd: Reader, policy: Policy, network: seq<Network>)
    requires DistinctIfaces(network)
    ensures Names(Kept(rd, policy, network)) == Visible(rd, policy, Names(network))
    ensures DistinctIfaces(Kept(rd, policy, network))
    ensures forall n :: n in Kept(rd, policy, network) ==> n in network
  {
    BondsAreNamed(rd, network);
    NamesKept(rd, network);
    WithoutMembersDistinct(rd, network);
  }

  /** Bond preference, then the sort by interface. */
  method ArrangeNetwork(rd: Reader, policy: Policy, network: seq<Network>) returns (r: seq<Network>)
    requires DistinctIfaces(network)
    ensures StrictlySorted(r) && Names(r) == Visible(rd, policy, Names(network))
    ensures forall n :: n in r ==> n in network
  {
    KeptIsVisible(rd, policy, network);
    r := Sort(Kept(rd, policy, network), IfaceKey, TupleLeq);
    SortedNetwork(Kept(rd, policy, network));
  }

  lemma SortedNetwork(network: seq<Network>)
    requires DistinctIfaces(network)
    ensures var r := Sort(network, IfaceKey, TupleLeq);
            StrictlySorted(r) && Names(r) == Names(network) && forall n :: n in r <==> n in network
  {
    var r := Sort(network, IfaceKey, TupleLeq);
    TupleLeqIsOrder();
    SortSorted(network, IfaceKey, TupleLeq);
    assert forall n :: IfaceKey(n)[0] == n.iface;
    assert DistinctKeys(network, IfaceKey);
    PermutedKeysDistinct(network, r, IfaceKey);
    forall n ensures n in r <==> n in network {
      InSequence(n, r, network);
    }
  }

  /** The second loop's work on one node. */
  method FinishNode(rd: Reader, policy: Policy, c: NodeResource, disks: Disks) returns (r: Option<NodeResource>)
    requires DistinctIfaces(c.network) && c.diskUsed.None? && c.diskTotal.None?
    ensures r.Some? <==>
              && (c.memUsed.Some? && c.memTotal.Some? ==> c.memUsed.value <= c.memTotal.value)
              && forall fs :: fs in disks ==> CompleteDisk(disks[fs])
    ensures r.Some? ==>
              && r.value.cpu == c.cpu && r.value.memUsed == c.memUsed && r.value.memTotal == c.memTotal
              && r.value.diskUsed == SumOrNone(UsedIn(disks)) && r.value.diskTotal == SumOrNone(TotalIn(disks))
              && StrictlySorted(r.value.network) && Names(r.value.network) == Visible(rd, policy, Names(c.network))
              && forall n :: n in r.value.network ==> n in c.network
  {
    if c.memUsed.Some? && c.memTotal.Some? && c.memUsed.value > c.memTotal.value {
      return None;
    }
    var ok, used, total := AddDisks(disks);
    if !ok {
      return None;
    }
    var network := ArrangeNetwork(rd, policy, c.network);
    r := Some(c.(diskUsed := used, diskTotal := total, network := network));
  }

  lemma DiskIs(t: Table, m: Readings, node: string, disks: Disks, fs: string)
    requires Tabulates(t, m) && DisksAgree(disks, FieldsAt(t, node))
    ensures DiskAt(disks, fs) == Disk(Value(m, node, DiskUsed(fs)), Value(m, node, DiskTotal(fs)))
    ensures fs in disks ==> Value(m, node, DiskUsed(fs)).Some? || Value(m, node, DiskTotal(fs)).Some?
  {
    assert DiskAt(disks, fs) == Disk(Get(FieldsAt(t, node), DiskUsed(fs)), Get(FieldsAt(t, node), DiskTotal(fs)));
    ValueIsLookup(t, m, node, DiskUsed(fs));
    ValueIsLookup(t, m, node, DiskTotal(fs));
  }

  lemma FilesystemIff(m: Readings, node: string, fs: string)
    ensures fs in Filesystems(m, node) <==> Value(m, node, DiskUsed(fs)).Some? || Value(m, node, DiskTotal(fs)).Some?
  {
    if fs in Filesystems(m, node) {
      var r :| r in m && r.node == node && r.sample.Some?
               && (r.sample.value.0.DiskUsed? || r.sample.value.0.DiskTotal?) && r.sample.value.0.fs == fs;
      assert Carries(m, node, r.sample.value.0, r.sample.value.1);
    }
    if Value(m, node, DiskUsed(fs)).Some? {
      var v: real :| Carries(m, node, DiskUsed(fs), v);
      assert Reading(node, Some((DiskUsed(fs), v))).sample.value.0.fs == fs;
    }
    if Value(m, node, DiskTotal(fs)).Some? {
      var v: real :| Carries(m, node, DiskTotal(fs), v);
      assert Reading(node, Some((DiskTotal(fs), v))).sample.value.0.fs == fs;
    }
  }

  lemma FilesystemsAre(t: Table, m: Readings, node: string, disks: Disks)
    requires Tabulates(t, m) && DisksAgree(disks, FieldsAt(t, node))
    ensures Filesystems(m, node) == disks.Keys
  {
    forall fs ensures fs in Filesystems(m, node) <==> fs in disks {
      DiskIs(t, m, node, disks, fs);
      FilesystemIff(m, node, fs);
    }
  }

  lemma AmountsAre(t: Table, m: Readings, node: string, disks: Disks)
    requires Tabulates(t, m) && DisksAgree(disks, FieldsAt(t, node))
    ensures UsedOf(m, node) == UsedIn(disks) && TotalOf(m, node) == TotalIn(disks)
  {
    UsedIs(t, m, node, disks);
    TotalIs(t, m, node, disks);
  }

  lemma UsedIs(t: Table, m: Readings, node: string, disks: Disks)
    requires Tabulates(t, m) && DisksAgree(disks, FieldsAt(t, node))
    ensures UsedOf(m, node) == UsedIn(disks)
  {
    FilesystemsAre(t, m, node, disks);
    forall fs | fs in disks ensures UsedOf(m, node)[fs] == UsedIn(disks)[fs] {
      DiskIs(t, m, node, disks, fs);
    }
  }

  lemma TotalIs(t: Table, m: Readings, node: string, disks: Disks)
    requires Tabulates(t, m) && DisksAgree(disks, FieldsAt(t, node))
    ensures TotalOf(m, node) == TotalIn(disks)
  {
    FilesystemsAre(t, m, node, disks);
    forall fs | fs in disks ensures TotalOf(m, node)[fs] == TotalIn(disks)[fs] {
      DiskIs(t, m, node, disks, fs);
    }
  }

  lemma DisksComplete(t: Table, m: Readings, node: string, disks: Disks)
    requires Tabulates(t, m) && DisksAgree(disks, FieldsAt(t, node))
    ensures (forall fs :: fs in disks ==> CompleteDisk(disks[fs]))
       <==> (forall fs :: fs in Filesystems(m, node) ==> DiskComplete(m, node, fs))
  {
    FilesystemsAre(t, m, node, disks);
    forall fs | fs in disks ensures CompleteDisk(disks[fs]) <==> DiskComplete(m, node, fs) {
      DiskIs(t, m, node, disks, fs);
    }
  }

  lemma MemoryIs(t: Table, m: Readings, node: string, c: NodeResource)
    requires Tabulates(t, m) && ScalarsAgree(c, FieldsAt(t, node))
    ensures c.cpu == Value(m, node, Cpu) && c.memUsed == Value(m, node, MemUsed)
            && c.memTotal == Value(m, node, MemTotal)
  {
    ValueIsLookup(t, m, node, Cpu);
    ValueIsLookup(t, m, node, MemUsed);
    ValueIsLookup(t, m, node, MemTotal);
  }

  lemma NetworkIs(rd: Reader, policy: Policy, t: Table, m: Readings, node: string, network: seq<Network>,
                  r: seq<Network>)
    requires Tabulates(t, m) && NetworkAgrees(network, FieldsAt(t, node))
    requires StrictlySorted(r) && Names(r) == Visible(rd, policy, Names(network)) && forall n :: n in r ==> n in network
    ensures NetworkDescribed(rd, policy, m, node, r)
  {
    InterfacesAreNames(t, m, node, network);
    forall n | n in r
      ensures n.receive == Value(m, node, Received(n.iface)) && n.transmit == Value(m, node, Sent(n.iface)) {
      var k :| 0 <= k < |network| && network[k] == n;
      assert EntryAgrees(network[k], FieldsAt(t, node));
      ValueIsLookup(t, m, node, Received(n.iface));
      ValueIsLookup(t, m, node, Sent(n.iface));
    }
  }

  lemma PassesIff(policy: Policy, t: Table, m: Readings, node: string, c: NodeResource, disks: Disks)
    requires Tabulates(t, m) && NodeAgrees(c, disks, FieldsAt(t, node), policy.maxInterfaces)
    ensures NodePasses(policy, m, node) <==>
              && (c.memUsed.Some? && c.memTotal.Some? ==> c.memUsed.value <= c.memTotal.value)
              && forall fs :: fs in disks ==> CompleteDisk(disks[fs])
  {
    MemoryIs(t, m, node, c);
    DisksComplete(t, m, node, disks);
    InterfacesAreNames(t, m, node, c.network);
  }

  lemma RecordIs(rd: Reader, policy: Policy, t: Table, m: Readings, node: string, c: NodeResource, disks: Disks,
                 r: NodeResource)
    requires Tabulates(t, m) && NodeAgrees(c, disks, FieldsAt(t, node), policy.maxInterfaces)
    requires r.cpu == c.cpu && r.memUsed == c.memUsed && r.memTotal == c.memTotal
    requires r.diskUsed == SumOrNone(UsedIn(disks)) && r.diskTotal == SumOrNone(TotalIn(disks))
    requires StrictlySorted(r.network) && Names(r.network) == Visible(rd, policy, Names(c.network))
    requires forall n :: n in r.network ==> n in c.network
    ensures Describes(rd, policy, m, node, r)
  {
    MemoryIs(t, m, node, c);
    AmountsAre(t, m, node, disks);
    NetworkIs(rd, policy, t, m, node, c.network, r.network);
  }

  /** The second loop's work on one node of the tabulated readings. */
  method FinishOne(rd: Reader, policy: Policy, a: Accumulator, node: string, ghost t: Table, ghost m: Readings)
    returns (r: Option<NodeResource>)
    requires Agrees(a, t, policy.maxInterfaces) && Tabulates(t, m) && node in t
    ensures r.Some? <==> NodePasses(policy, m, node)
    ensures r.Some? ==> FinishedAt(rd, policy, m, node, r.value)
    ensures r.None? ==> !Consistent(policy, m)
  {
    var c, disks := a.result[node], DisksOf(a, node);
    assert AgreesAt(a, t, policy.maxInterfaces, node);
    TableIsUnique(t, m);
    PassesIff(policy, t, m, node, c, disks);
    r := FinishNode(rd, policy, c, disks);
    if r.Some? {
      RecordIs(rd, policy, t, m, node, c, disks, r.value);
    }
  }

  /** A node that passed its checks, and its record. */
  ghost predicate FinishedAt(rd: Reader, policy: Policy, m: Readings, node: string, r: NodeResource) {
    NodePasses(policy, m, node) && Describes(rd, policy, m, node, r)
  }

  ghost predicate Finished(rd: Reader, policy: Policy, m: Readings, finished: map<string, NodeResource>) {
    forall n :: n in finished ==> FinishedAt(rd, policy, m, n, finished[n])
  }

  lemma AllFinished(rd: Reader, policy: Policy, t: Table, m: Readings, finished: map<string, NodeResource>)
    requires Tabulates(t, m) && finished.Keys == t.Keys && Finished(rd, policy, m, finished)
    ensures Consistent(policy, m) && DescribesAll(rd, policy, m, finished)
  {
    TableIsUnique(t, m);
    forall n | n in finished ensures NodePasses(policy, m, n) && Describes(rd, policy, m, n, finished[n]) {
      assert FinishedAt(rd, policy, m, n, finished[n]);
    }
  }

  lemma OneMoreFinished(rd: Reader, policy: Policy, m: Readings, finished: map<string, NodeResource>, node: string,
                        r: NodeResource)
    requires Finished(rd, policy, m, finished) && FinishedAt(rd, policy, m, node, r)
    ensures finished[node := r].Keys == finished.Keys + {node} && Finished(rd, policy, m, finished[node := r])
  {
  }

  lemma OneFewer(all: set<string>, todo: set<string>, done: set<string>, node: string)
    requires todo <= all && done == all - todo && node in todo
    ensures done + {node} == all - (todo - {node}) && todo - {node} <= all
    ensures |todo - {node}| < |todo|
  {
  }

  lemma NoneLeft(all: set<string>, todo: set<string>, done: set<string>)
    requires done == all - todo && todo == {}
    ensures done == all
  {
  }

  /** The loop body: one of the nodes left, taken in any order. */
  method FinishNext(rd: Reader, policy: Policy, a: Accumulator, todo: set<string>, finished: map<string, NodeResource>,
                    ghost t: Table, ghost m: Readings)
    returns (ok: bool, node: string, finished': map<string, NodeResource>)
    requires Agrees(a, t, policy.maxInterfaces) && Tabulates(t, m)
    requires todo != {} && todo <= t.Keys && Finished(rd, policy, m, finished)
    ensures ok ==> node in todo && finished'.Keys == finished.Keys + {node} && Finished(rd, policy, m, finished')
    ensures !ok ==> !Consistent(policy, m)
  {
    node :| node in todo;
    var done := FinishOne(rd, policy, a, node, t, m);
    ok, finished' := done.Some?, finished;
    if ok {
      finished' := finished[node := done.value];
      OneMoreFinished(rd, policy, m, finished, node, done.value);
    }
  }

  /** The second loop, over the nodes in any order. */
  method FinishEach(rd: Reader, policy: Policy, a: Accumulator, ghost t: Table, ghost m: Readings)
    returns (ok: bool, finished: map<string, NodeResource>)
    requires Agrees(a, t, policy.maxInterfaces) && Tabulates(t, m)
    ensures ok ==> finished.Keys == t.Keys && Finished(rd, policy, m, finished)
    ensures !ok ==> !Consistent(policy, m)
  {
    ok, finished := true, map[];
    var todo := a.result.Keys;
    while ok && todo != {}
      invariant ok ==> todo <= t.Keys && finished.Keys == t.Keys - todo && Finished(rd, policy, m, finished)
      invariant !ok ==> !Consistent(policy, m)
      decreases ok, |todo|
    {
      ghost var before := finished.Keys;
      var node;
      ok, node, finished := FinishNext(rd, policy, a, todo, finished, t, m);
      if ok {
        OneFewer(t.Keys, todo, before, node);
        todo := todo - {node};
      }
    }
    if ok { NoneLeft(t.Keys, todo, finished.Keys); }
  }

  method FinishAll(rd: Reader, policy: Policy, a: Accumulator, ghost t: Table, ghost m: Readings)
    returns (r: Result<map<string, NodeResource>>)
    requires Agrees(a, t, policy.maxInterfaces) && Tabulates(t, m)
    ensures r.Ok? <==> Consistent(policy, m)
    ensures r.Ok? ==> DescribesAll(rd, policy, m, r.value)
  {
    var ok, finished := FinishEach(rd, policy, a, t, m);
    if !ok {
      return Err("node resource is inconsistent");
    }
    AllFinished(rd, policy, t, m, finished);
    r := Ok(finished);
  }

  // ---------- the parser ----------

  /** Acceptance without the reader: good headers, readable rows, consistent readings. */
  ghost predicate PayloadOk(rd: Reader, policy: Policy, payload: seq<Series>) {
    && 1 <= policy.maxInterfaces <= 128 && HeadersOk(payload, REQUIRED)
    && (forall l :: l in Lines(payload) ==> LineOk(rd, policy, l))
    && Consistent(policy, ReadingsOf(rd, policy, payload))
  }

  lemma PayloadAccepted(rd: Reader, policy: Policy, payload: seq<Series>)
    ensures Acceptable(rd, policy, payload) <==> PayloadOk(rd, policy, payload)
  {
    forall l | l in Lines(payload) ensures ReadLine(rd, policy, l).Ok? <==> LineOk(rd, policy, l) {
      LineAccepted(rd, policy, l);
    }
  }

  /** `ParseFluxNodeResourcesWithPolicy` on a decoded payload refines the specification. */
  method ParseNodeResources(rd: Reader, policy: Policy, payload: seq<Series>)
    returns (r: Result<map<string, NodeResource>>)
    ensures r.Ok? <==> Acceptable(rd, policy, payload)
    ensures r.Ok? <==> PayloadOk(rd, policy, payload)
    ensures r.Ok? ==> DescribesAll(rd, policy, ReadingsOf(rd, policy, payload), r.value)
  {
    PayloadAccepted(rd, policy, payload);
    if policy.maxInterfaces < 1 || policy.maxInterfaces > 128 {
      return Err("node resource max network interfaces is invalid");
    }
    var ok, a, t := ReadPayload(rd, policy, payload);
    if !ok {
      if Hopeless(policy, ReadingsOf(rd, policy, payload)) {
        HopelessFails(policy, ReadingsOf(rd, policy, payload));
      }
      return Err("Flux payload rejected");
    }
    r := FinishAll(rd, policy, a, t, ReadingsOf(rd, policy, payload));
  }

  // ---------- what the specification guarantees ----------

  lemma AtMostOneName(network: seq<Network>)
    requires StrictlySorted(network)
    ensures DistinctIfaces(network)
  {
    forall i, j | 0 <= i < j < |network| ensures network[i].iface != network[j].iface {
      assert IfaceKey(network[i]) != IfaceKey(network[j]);
    }
  }

  lemma FirstNames(a: seq<Network>, b: seq<Network>)
    requires StrictlySorted(a) && StrictlySorted(b) && Names(a) == Names(b) && a != []
    ensures b != [] && a[0].iface == b[0].iface
    ensures Names(a[1..]) == Names(b[1..])
  {
    assert a[0].iface in Names(a);
    assert b[0].iface in Names(a) && b[0].iface in Names(b);
    var i :| 0 <= i < |a| && a[i].iface == b[0].iface;
    var j :| 0 <= j < |b| && b[j].iface == a[0].iface;
    TupleLeqIsOrder();
    assert TupleLeq(IfaceKey(a[0]), IfaceKey(a[i])) || i == 0;
    assert TupleLeq(IfaceKey(b[0]), IfaceKey(b[j])) || j == 0;
    assert IfaceKey(a[0]) == IfaceKey(b[0]);
    RestNames(a);
    RestNames(b);
  }

  lemma RestNames(a: seq<Network>)
    requires StrictlySorted(a) && a != []
    ensures Names(a[1..]) == Names(a) - {a[0].iface}
  {
    AtMostOneName(a);
    assert a == [a[0]] + a[1..];
    forall n | n in a[1..] ensures n.iface in Names(a) && n.iface != a[0].iface {
      assert n in a;
    }
  }

  /** A strictly sorted list is determined by its names and the values that go with them. */
  lemma {:induction false} NetworkIsDetermined(a: seq<Network>, b: seq<Network>)
    requires StrictlySorted(a) && StrictlySorted(b) && Names(a) == Names(b)
    requires forall x, y :: x in a && y in b && x.iface == y.iface ==> x == y
    ensures a == b
  {
    if a == [] {
      assert b != [] ==> b[0].iface in Names(b);
    } else {
      FirstNames(a, b);
      Tail(a, IfaceKey, TupleLeq);
      Tail(b, IfaceKey, TupleLeq);
      NetworkIsDetermined(a[1..], b[1..]);
      SameSplit(a, b);
    }
  }

  /** The readings of a node determine its record. */
  lemma RecordIsDetermined(rd: Reader, policy: Policy, m: Readings, node: string, x: NodeResource, y: NodeResource)
    requires Describes(rd, policy, m, node, x) && Describes(rd, policy, m, node, y)
    ensures x == y
  {
    NetworkIsDetermined(x.network, y.network);
  }

  lemma SameRecords(x: map<string, NodeResource>, y: map<string, NodeResource>)
    requires x.Keys == y.Keys && forall n :: n in x ==> x[n] == y[n]
    ensures x == y
  {
  }

  lemma ResultIsDetermined(rd: Reader, policy: Policy, m: Readings, x: map<string, NodeResource>,
                           y: map<string, NodeResource>)
    requires DescribesAll(rd, policy, m, x) && DescribesAll(rd, policy, m, y)
    ensures x == y
  {
    forall n | n in x ensures x[n] == y[n] {
      RecordIsDetermined(rd, policy, m, n, x[n], y[n]);
    }
    SameRecords(x, y);
  }

  lemma SameReadings(rd: Reader, policy: Policy, a: seq<Series>, b: seq<Series>)
    requires SamePayload(a, b)
    ensures ReadingsOf(rd, policy, a) == ReadingsOf(rd, policy, b)
    ensures Acceptable(rd, policy, a) <==> Acceptable(rd, policy, b)
  {
    MapPermutation(Lines(a), Lines(b), ReadingOrIgnored(rd, policy));
    HeadersDecide(a, b, REQUIRED);
    forall l ensures l in Lines(a) <==> l in Lines(b) {
      InSequence(l, Lines(a), Lines(b));
    }
  }

  /** Reordering series and rows changes neither acceptance nor the result. */
  lemma OrderIsIrrelevant(rd: Reader, policy: Policy, a: seq<Series>, b: seq<Series>,
                          x: map<string, NodeResource>, y: map<string, NodeResource>)
    requires SamePayload(a, b)
    requires Acceptable(rd, policy, a) ==> DescribesAll(rd, policy, ReadingsOf(rd, policy, a), x)
    requires Acceptable(rd, policy, b) ==> DescribesAll(rd, policy, ReadingsOf(rd, policy, b), y)
    ensures Acceptable(rd, policy, a) <==> Acceptable(rd, policy, b)
    ensures Acceptable(rd, policy, a) ==> x == y
  {
    SameReadings(rd, policy, a, b);
    if Acceptable(rd, policy, a) {
      ResultIsDetermined(rd, policy, ReadingsOf(rd, policy, a), x, y);
    }
  }

  /** A payload is judged as a whole: every labelled row of an accepted payload is the one that
      supplies its label, and is in the result. */
  lemma EveryRowIsTheRow(rd: Reader, policy: Policy, payload: seq<Series>, k: nat)
    requires Acceptable(rd, policy, payload) && k < |Lines(payload)|
    ensures var m := ReadingsOf(rd, policy, payload);
            var read := ReadLine(rd, policy, Lines(payload)[k]);
            && read.Ok? && read.value.node in NodesOf(m)
            && (read.value.sample.Some? ==>
                  && Value(m, read.value.node, read.value.sample.value.0) == Some(read.value.sample.value.1)
                  && m[read.value] == 1)
  {
    var m, l := ReadingsOf(rd, policy, payload), Lines(payload)[k];
    var f := ReadingOrIgnored(rd, policy);
    assert Map(Lines(payload), f)[k] == f(l);
    var r := f(l);
    assert r in m;
    if r.sample.Some? {
      var (field, v) := r.sample.value;
      assert Carries(m, r.node, field, v);
      forall w: real | Carries(m, r.node, field, w) ensures w == v {
        assert Label(Reading(r.node, Some((field, w)))) == Label(r);
      }
    }
  }

  ghost predicate BoundedSample(policy: Policy, f: Field, v: real) {
    && v >= 0.0
    && (f.Cpu? ==> v <= 1.0)
    && (f.DiskUsed? || f.DiskTotal? ==> f.fs in policy.filesystems)
    && ((f.Received? || f.Sent?) && policy.interfaces != [] ==> f.iface in policy.interfaces)
  }

  ghost predicate Bounded(policy: Policy, r: Reading) {
    r.sample.Some? ==> BoundedSample(policy, r.sample.value.0, r.sample.value.1)
  }

  lemma SamplesAreBounded(rd: Reader, policy: Policy, index: ColumnIndex, row: seq<string>, measurement: string,
                          field: string, number: real)
    requires Fits(index, row) && number >= 0.0
    ensures var s := SampleOf(rd, policy, index, row, measurement, field, number);
            s.Ok? && s.value.Some? ==> BoundedSample(policy, s.value.value.0, s.value.value.1)
  {
  }

  lemma RowsAreBounded(rd: Reader, policy: Policy, l: Line)
    requires ReadLine(rd, policy, l).Ok?
    ensures Bounded(policy, ReadLine(rd, policy, l).value)
  {
    var index := IndexOf(l.columns);
    HeadedColumns(index);
    var number := rd.number(l.row[index["_value"]]).value;
    SamplesAreBounded(rd, policy, index, l.row, l.row[index["_measurement"]], l.row[index["_field"]], number);
  }

  lemma ReadingsAreBounded(rd: Reader, policy: Policy, payload: seq<Series>)
    requires Acceptable(rd, policy, payload)
    ensures forall r :: r in ReadingsOf(rd, policy, payload) ==> Bounded(policy, r)
  {
    var f := ReadingOrIgnored(rd, policy);
    forall r | r in ReadingsOf(rd, policy, payload) ensures Bounded(policy, r) {
      assert r in Map(Lines(payload), f);
      var k :| 0 <= k < |Lines(payload)| && Map(Lines(payload), f)[k] == r;
      assert Lines(payload)[k] in Lines(payload);
      RowsAreBounded(rd, policy, Lines(payload)[k]);
    }
  }

  lemma SumsInOrder(policy: Policy, m: Readings, node: string)
    requires NodePasses(policy, m, node)
    ensures Sum(UsedOf(m, node)) <= Sum(TotalOf(m, node))
  {
    SumMonotone(UsedOf(m, node), TotalOf(m, node));
  }

  lemma VisibleCount(rd: Reader, policy: Policy, all: set<string>, network: seq<Network>)
    requires StrictlySorted(network) && Names(network) == Visible(rd, policy, all)
    ensures |network| <= |all|
  {
    AtMostOneName(network);
    NamesCount(network);
    SubsetSize(Visible(rd, policy, all), all);
  }

  lemma RatioInRange(policy: Policy, m: Readings, node: string, cpu: Option<real>)
    requires (forall r :: r in m ==> Bounded(policy, r)) && cpu == Value(m, node, Cpu)
    ensures cpu.Some? ==> 0.0 <= cpu.value <= 1.0
  {
    if cpu.Some? {
      assert Carries(m, node, Cpu, cpu.value);
      assert Bounded(policy, Reading(node, Some((Cpu, cpu.value))));
    }
  }

  lemma RecordIsWellFormed(rd: Reader, policy: Policy, m: Readings, node: string, r: NodeResource)
    requires Describes(rd, policy, m, node, r) && NodePasses(policy, m, node)
    requires forall x :: x in m ==> Bounded(policy, x)
    ensures WellFormed(r) && |r.network| <= policy.maxInterfaces
    ensures r.memUsed.Some? && r.memTotal.Some? ==> r.memUsed.value <= r.memTotal.value
  {
    RatioInRange(policy, m, node, r.cpu);
    SumsInOrder(policy, m, node);
    VisibleCount(rd, policy, Interfaces(m, node), r.network);
  }

  /** Every record of an accepted payload: CPU a ratio, disk amounts summed over allowed
      filesystems and in order, memory in order, interfaces strictly sorted and within the limit. */
  lemma RecordsAreWellFormed(rd: Reader, policy: Policy, payload: seq<Series>, records: map<string, NodeResource>,
                             node: string)
    requires Acceptable(rd, policy, payload) && DescribesAll(rd, policy, ReadingsOf(rd, policy, payload), records)
    requires node in records
    ensures WellFormed(records[node]) && |records[node].network| <= policy.maxInterfaces
    ensures records[node].memUsed.Some? && records[node].memTotal.Some?
            ==> records[node].memUsed.value <= records[node].memTotal.value
    ensures forall fs :: fs in Filesystems(ReadingsOf(rd, policy, payload), node) ==> fs in policy.filesystems
  {
    var m := ReadingsOf(rd, policy, payload);
    ReadingsAreBounded(rd, policy, payload);
    assert node in NodesOf(m) && NodePasses(policy, m, node);
    RecordIsWellFormed(rd, policy, m, node, records[node]);
    AllowedFilesystems(policy, m, node);
  }

  lemma AllowedFilesystems(policy: Policy, m: Readings, node: string)
    requires forall r :: r in m ==> Bounded(policy, r)
    ensures forall fs :: fs in Filesystems(m, node) ==> fs in policy.filesystems
  {
  }
}
