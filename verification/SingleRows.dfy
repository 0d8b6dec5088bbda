/**
 Payloads of a single row, and what they are parsed to: for concrete answers of a server.
 */
module SingleRows {
  import opened Common
  import opened Flux
  import opened NodeReadings
  import opened NodeDomain

  const COLUMNS := ["_measurement", "_field", "_value", "_time", "node_id", "interface", "_start", "_stop"]

  /** The cells of a row: a value of a node at a time, and the range of times that was asked for. */
  datatype Cells = Cells(
    measurement: string, field: string, value: string, stamp: string, node: string, iface: string,
    start: string, stop: string)

  function RowOf(c: Cells): seq<string> {
    [c.measurement, c.field, c.value, c.stamp, c.node, c.iface, c.start, c.stop]
  }

  function OneRow(c: Cells): Payload {
    [Series(COLUMNS, [RowOf(c)])]
  }

  /** The row's time lies inside its range. */
  ghost predicate InRange(rd: Reader, c: Cells) {
    && rd.time(c.stamp).Some? && rd.time(c.start).Some? && rd.time(c.stop).Some?
    && rd.time(c.start).value <= rd.time(c.stamp).value < rd.time(c.stop).value
  }

  /** The library reads the times and the value of the row. */
  ghost predicate Legible(rd: Reader, c: Cells, number: real) {
    InRange(rd, c) && rd.number(c.value) == Some(number) && number >= 0.0 && c.node != ""
  }

  /** The row is about this amount of memory or about what this interface received. */
  ghost predicate IsAbout(rd: Reader, policy: Policy, c: Cells, f: Field) {
    match f
    case MemUsed => c.measurement == "mem" && c.field == "used"
    case MemTotal => c.measurement == "mem" && c.field == "total"
    case Received(name) =>
      && c.measurement == "net" && c.field == "bytes_recv" && c.iface != ""
      && name == rd.text.Normalize(c.iface, 64) && name != "" && (policy.interfaces == [] || name in policy.interfaces)
    case _ => false
  }

  // ---------- the header ----------

  lemma ColumnsDiffer()
    ensures Distinct(COLUMNS)
  {
    var c := COLUMNS;
    assert |c[0]| == 12 && |c[1]| == 6 && |c[2]| == 6 && |c[3]| == 5 && |c[4]| == 7 && |c[5]| == 9;
    assert |c[6]| == 6 && |c[7]| == 5;
    assert c[1][1] == 'f' && c[2][1] == 'v' && c[6][1] == 's' && c[3][1] == 't' && c[7][1] == 's';
  }

  lemma ColumnsSuffice()
    ensures HeaderOk(COLUMNS, REQUIRED)
  {
    ColumnsDiffer();
    assert REQUIRED[0] == COLUMNS[0] && REQUIRED[1] == COLUMNS[1] && REQUIRED[2] == COLUMNS[2];
    assert REQUIRED[3] == COLUMNS[3] && REQUIRED[4] == COLUMNS[4];
  }

  lemma ColumnAt(columns: seq<string>, row: seq<string>, k: nat)
    requires Distinct(columns) && |row| == |columns| && k < |columns|
    ensures columns[k] in IndexOf(columns) && CellText(IndexOf(columns), row, columns[k]) == row[k]
  {
    var index := IndexOf(columns);
    assert columns[index[columns[k]]] == columns[k];
  }

  /** The row has these cells. */
  ghost predicate Holds(index: ColumnIndex, row: seq<string>, c: Cells)
    requires Fits(index, row)
  {
    && CellText(index, row, "_measurement") == c.measurement && CellText(index, row, "_field") == c.field
    && CellText(index, row, "_value") == c.value && CellText(index, row, "_time") == c.stamp
    && CellText(index, row, "node_id") == c.node && CellText(index, row, "interface") == c.iface
    && CellText(index, row, "_start") == c.start && CellText(index, row, "_stop") == c.stop
    && "interface" in index && "_start" in index && "_stop" in index
  }

  lemma RowHolds(c: Cells)
    ensures HeaderOk(COLUMNS, REQUIRED) && Fits(IndexOf(COLUMNS), RowOf(c)) && Holds(IndexOf(COLUMNS), RowOf(c), c)
  {
    var row := RowOf(c);
    ColumnsSuffice();
    ColumnAt(COLUMNS, row, 0);
    ColumnAt(COLUMNS, row, 1);
    ColumnAt(COLUMNS, row, 2);
    ColumnAt(COLUMNS, row, 3);
    ColumnAt(COLUMNS, row, 4);
    ColumnAt(COLUMNS, row, 5);
    ColumnAt(COLUMNS, row, 6);
    ColumnAt(COLUMNS, row, 7);
  }

  // ---------- the reading ----------

  lemma MeasurementsDiffer()
    ensures "mem" != "cpu" && "net" != "cpu" && "net" != "mem" && "net" != "disk"
  {
    assert "mem"[0] != "cpu"[0] && "net"[0] != "cpu"[0] && "net"[0] != "mem"[0] && "net"[0] != "disk"[0];
  }

  lemma SampleIs(rd: Reader, policy: Policy, index: ColumnIndex, row: seq<string>, c: Cells, f: Field, number: real)
    requires Fits(index, row) && Holds(index, row, c) && IsAbout(rd, policy, c, f)
    ensures SampleOf(rd, policy, index, row, c.measurement, c.field, number) == Ok(Some((f, number)))
  {
    MeasurementsDiffer();
    if f.MemTotal? { assert "total"[0] != "used"[0]; }
  }

  lemma RowReads(rd: Reader, policy: Policy, index: ColumnIndex, row: seq<string>, c: Cells, f: Field, number: real)
    requires Fits(index, row) && Headed(index) && Holds(index, row, c)
    requires Legible(rd, c, number) && IsAbout(rd, policy, c, f)
    ensures ReadRow(rd, policy, index, row) == Ok(Reading(c.node, Some((f, number))))
  {
    HeadedColumns(index);
    SampleIs(rd, policy, index, row, c, f, number);
  }

  lemma LineReads(rd: Reader, policy: Policy, l: Line, c: Cells, f: Field, number: real)
    requires HeaderOk(l.columns, REQUIRED) && Fits(IndexOf(l.columns), l.row) && |l.row| == |l.columns|
    requires Holds(IndexOf(l.columns), l.row, c) && Legible(rd, c, number) && IsAbout(rd, policy, c, f)
    ensures ReadLine(rd, policy, l) == Ok(Reading(c.node, Some((f, number))))
  {
    RowReads(rd, policy, IndexOf(l.columns), l.row, c, f, number);
  }

  /** The readings of the payload: that one. */
  lemma PayloadReads(rd: Reader, policy: Policy, c: Cells, f: Field, number: real)
    requires Legible(rd, c, number) && IsAbout(rd, policy, c, f)
    ensures HeadersOk(OneRow(c), REQUIRED) && forall l :: l in Lines(OneRow(c)) ==> ReadLine(rd, policy, l).Ok?
    ensures ReadingsOf(rd, policy, OneRow(c)) == multiset{Reading(c.node, Some((f, number)))}
  {
    RowHolds(c);
    LinesOfOneRow(c);
    OneReading(rd, policy, Lines(OneRow(c)), Line(COLUMNS, RowOf(c)), c, f, number);
  }

  lemma LinesOfOneRow(c: Cells)
    ensures Lines(OneRow(c)) == [Line(COLUMNS, RowOf(c))]
  {
    LinesOfOne(OneRow(c)[0]);
    assert LinesOf(OneRow(c)[0]) == [Line(COLUMNS, RowOf(c))];
  }

  lemma OneReading(rd: Reader, policy: Policy, lines: seq<Line>, l: Line, c: Cells, f: Field, number: real)
    requires lines == [l]
    requires HeaderOk(l.columns, REQUIRED) && Fits(IndexOf(l.columns), l.row) && |l.row| == |l.columns|
    requires Holds(IndexOf(l.columns), l.row, c) && Legible(rd, c, number) && IsAbout(rd, policy, c, f)
    ensures forall x :: x in lines ==> ReadLine(rd, policy, x).Ok?
    ensures multiset(Map(lines, ReadingOrIgnored(rd, policy))) == multiset{Reading(c.node, Some((f, number)))}
  {
    LineReads(rd, policy, l, c, f, number);
    assert Map(lines, ReadingOrIgnored(rd, policy)) == [Reading(c.node, Some((f, number)))];
  }

  // ---------- the record ----------

  /** The record of a node about which one thing is known. */
  function RecordOf(f: Field, number: real): NodeResource {
    match f
    case MemUsed => EMPTY.(memUsed := Some(number))
    case MemTotal => EMPTY.(memTotal := Some(number))
    case Received(name) => EMPTY.(network := [Network(name, Some(number), None)])
    case _ => EMPTY
  }

  lemma OneValue(m: Readings, node: string, f: Field, number: real, g: Field)
    requires m == multiset{Reading(node, Some((f, number)))}
    ensures Value(m, node, g) == if g == f then Some(number) else None
  {
    if g == f { assert Carries(m, node, f, number); }
  }

  lemma OneNode(m: Readings, node: string, f: Field, number: real)
    requires m == multiset{Reading(node, Some((f, number)))} && (f.MemUsed? || f.MemTotal? || f.Received?)
    ensures NodesOf(m) == {node} && Filesystems(m, node) == {}
    ensures Interfaces(m, node) == if f.Received? then {f.iface} else {}
  {
  }

  lemma OneAccepted(policy: Policy, m: Readings, node: string, f: Field, number: real)
    requires m == multiset{Reading(node, Some((f, number)))} && (f.MemUsed? || f.MemTotal? || f.Received?)
    requires policy.maxInterfaces >= 1
    ensures Consistent(policy, m)
  {
    OneNode(m, node, f, number);
    OneValue(m, node, f, number, MemUsed);
    OneValue(m, node, f, number, MemTotal);
  }

  /** A name is not both that of a bond and that of a member. */
  lemma BondIsNoMember(rd: Reader, name: string)
    requires BondName(rd, name)
    ensures !LikelyBondMember(rd, name)
  {
    assert rd.lower(name)[0] == 'b';
  }

  lemma OneDescribed(rd: Reader, policy: Policy, m: Readings, node: string, f: Field, number: real)
    requires m == multiset{Reading(node, Some((f, number)))} && (f.MemUsed? || f.MemTotal? || f.Received?)
    ensures NetworkDescribed(rd, policy, m, node, RecordOf(f, number).network)
  {
    OneNode(m, node, f, number);
    if f.Received? {
      OneValue(m, node, f, number, f);
      OneValue(m, node, f, number, Sent(f.iface));
      if BondName(rd, f.iface) { BondIsNoMember(rd, f.iface); }
    }
  }

  lemma OneRecord(rd: Reader, policy: Policy, m: Readings, node: string, f: Field, number: real)
    requires m == multiset{Reading(node, Some((f, number)))} && (f.MemUsed? || f.MemTotal? || f.Received?)
    ensures DescribesAll(rd, policy, m, map[node := RecordOf(f, number)])
  {
    OneNode(m, node, f, number);
    OneDescribed(rd, policy, m, node, f, number);
    assert UsedOf(m, node) == map[] && TotalOf(m, node) == map[];
    OneValue(m, node, f, number, Cpu);
    OneValue(m, node, f, number, MemUsed);
    OneValue(m, node, f, number, MemTotal);
  }

  function OnlyAbout(node: string, f: Field, number: real): Records {
    map[node := RecordOf(f, number)]
  }

  /** The payload is accepted, with that record as its result. */
  lemma OneRowParses(rd: Reader, policy: Policy, c: Cells, f: Field, number: real)
    requires 1 <= policy.maxInterfaces <= 128 && Legible(rd, c, number) && IsAbout(rd, policy, c, f)
    ensures Parsed(rd, policy, OneRow(c), OnlyAbout(c.node, f, number))
  {
    var m := ReadingsOf(rd, policy, OneRow(c));
    PayloadReads(rd, policy, c, f, number);
    OneAccepted(policy, m, c.node, f, number);
    OneRecord(rd, policy, m, c.node, f, number);
  }

  // ---------- two queries ----------

  /** Two accepted payloads whose results can be merged are gathered. */
  lemma TwoGather(rd: Reader, policy: Policy, p: Payload, q: Payload, first: Records, second: Records)
    requires Parsed(rd, policy, p, first) && Parsed(rd, policy, q, second)
    requires AllMergeable(map[], first) && Merged(map[], first) == first && AllMergeable(first, second)
    ensures Gathers(rd, policy, [p, q], [first, second]) && MergeSources([first, second]) == Merged(first, second)
  {
    MergedLast([], first);
    assert [] + [first] == [first];
    MergedLast([first], second);
    assert [first] + [second] == [first, second];
  }

  lemma SortShort(network: seq<Network>)
    requires |network| <= 1
    ensures Sort(network, IfaceKey, TupleLeq) == network
  {
    if |network| == 1 { assert network[..0] == []; }
  }

  lemma MergeEmpty(r: NodeResource)
    requires |r.network| <= 1
    ensures Mergeable(EMPTY, r) && MergedRecord(EMPTY, r) == r
  {
    SortShort(r.network);
    assert EMPTY.network + r.network == r.network;
  }

  /** A result of one record is merged into nothing as it is. */
  lemma MergeFirst(node: string, f: Field, number: real)
    ensures AllMergeable(map[], OnlyAbout(node, f, number))
    ensures Merged(map[], OnlyAbout(node, f, number)) == OnlyAbout(node, f, number)
  {
    MergeEmpty(RecordOf(f, number));
    assert Merged(map[], OnlyAbout(node, f, number))[node] == RecordOf(f, number);
  }
}
