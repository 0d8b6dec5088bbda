/**
 The node-resource parser: rows of a Flux payload folded into one record per node.

 The specification is about the multiset of readings that the rows carry. A payload is
 accepted iff every row is readable, no (node, field) is read twice, and each node passes
 its own checks; each field of a node is then the unique reading with that label. Nothing
 in it knows the order of series, rows, nodes or filesystems.
 */
module NodeReadings {
  import opened Common
  import opened Flux

  datatype Network = Network(iface: string, receive: Option<real>, transmit: Option<real>)

  datatype NodeResource = NodeResource(
    cpu: Option<real>, memUsed: Option<real>, memTotal: Option<real>,
    diskUsed: Option<real>, diskTotal: Option<real>, network: seq<Network>)

  const EMPTY := NodeResource(None, None, None, None, None, [])

  datatype Policy = Policy(filesystems: seq<string>, interfaces: seq<string>, maxInterfaces: int, preferBond: bool)

  /** What one row can be about. */
  datatype Field =
    | Cpu | MemUsed | MemTotal
    | DiskUsed(fs: string) | DiskTotal(fs: string)
    | Received(iface: string) | Sent(iface: string)

  /** A readable row: the node it names and, unless the row is ignored, one labelled value. */
  datatype Reading = Reading(node: string, sample: Option<(Field, real)>)

  const REQUIRED := ["_measurement", "_field", "_value", "_time", "node_id"]

  // ---------- one row ----------

  /** The five columns that a header must have are among the columns. */
  ghost predicate Headed(index: ColumnIndex) {
    forall k :: 0 <= k < |REQUIRED| ==> REQUIRED[k] in index
  }

  lemma HeadedColumns(index: ColumnIndex)
    requires Headed(index)
    ensures "_measurement" in index && "_field" in index && "_value" in index && "_time" in index && "node_id" in index
  {
    assert REQUIRED[0] in index && REQUIRED[1] in index && REQUIRED[2] in index;
    assert REQUIRED[3] in index && REQUIRED[4] in index;
  }

  /** The checks and the dispatch on measurement and field for one row. */
  function ReadRow(rd: Reader, policy: Policy, index: ColumnIndex, row: seq<string>): Result<Reading>
    requires Fits(index, row) && Headed(index)
  {
    HeadedColumns(index);
    var sampleTime := rd.time(row[index["_time"]]);
    var number := rd.number(row[index["_value"]]);
    var node := row[index["node_id"]];
    if sampleTime.None? then Err("Flux timestamp is invalid")
    else if !RangeOk(rd, index, row, sampleTime.value) then Err("Flux range is invalid")
    else if number.None? || number.value < 0.0 then Err("Flux value is invalid")
    else if node == "" then Err("Flux node_id is empty")
    else
      match SampleOf(rd, policy, index, row, row[index["_measurement"]], row[index["_field"]], number.value)
      case Ok(sample) => Ok(Reading(node, sample))
      case Err(error) => Err(error)
  }

  /** The switch on measurement and field: None for a row that is about nothing collected. */
  function SampleOf(rd: Reader, policy: Policy, index: ColumnIndex, row: seq<string>, measurement: string,
                    field: string, number: real): Result<Option<(Field, real)>>
    requires Fits(index, row)
  {
    if measurement == "cpu" && field == "usage_idle" then
      if "cpu" !in index || row[index["cpu"]] != "cpu-total" then Err("Flux CPU series must identify cpu-total")
      else if number > 100.0 then Err("Flux CPU percent is outside 0..100")
      else Ok(Some((Cpu, (100.0 - number) / 100.0)))
    else if measurement == "mem" && field == "used" then Ok(Some((MemUsed, number)))
    else if measurement == "mem" && field == "total" then Ok(Some((MemTotal, number)))
    else if measurement == "disk" && (field == "used" || field == "total") then
      DiskSample(rd, policy, index, row, field == "used", number)
    else if measurement == "net" && (field == "bytes_recv" || field == "bytes_sent") then
      NetworkSample(rd, policy, index, row, field == "bytes_recv", number)
    else Ok(None)
  }

  function DiskSample(rd: Reader, policy: Policy, index: ColumnIndex, row: seq<string>, used: bool, number: real)
    : Result<Option<(Field, real)>>
    requires Fits(index, row)
  {
    var raw := Dimension(index, row, ["path", "filesystem", "device"]);
    if raw.None? then Err("Flux disk series must identify a filesystem")
    else
      var fs := rd.text.Normalize(raw.value, 128);
      if fs == "" then Err("Flux disk filesystem is invalid")
      else if fs !in policy.filesystems then Ok(None)
      else Ok(Some((if used then DiskUsed(fs) else DiskTotal(fs), number)))
  }

  function NetworkSample(rd: Reader, policy: Policy, index: ColumnIndex, row: seq<string>, received: bool, number: real)
    : Result<Option<(Field, real)>>
    requires Fits(index, row)
  {
    if "interface" !in index || row[index["interface"]] == "" then Err("Flux network interface is required")
    else
      var iface := rd.text.Normalize(row[index["interface"]], 64);
      if iface == "" then Err("Flux network interface is invalid")
      else if policy.interfaces != [] && iface !in policy.interfaces then Ok(None)
      else Ok(Some((if received then Received(iface) else Sent(iface), number)))
  }

  /** When a row supplies a field, told field by field. */
  ghost predicate Supplies(rd: Reader, policy: Policy, index: ColumnIndex, row: seq<string>, f: Field, v: real)
    requires Fits(index, row)
  {
    var number := rd.number(CellText(index, row, "_value"));
    && number.Some?
    && SuppliesAs(rd, policy, index, row, CellText(index, row, "_measurement"), CellText(index, row, "_field"),
                  number.value, f, v)
  }

  ghost predicate SuppliesAs(rd: Reader, policy: Policy, index: ColumnIndex, row: seq<string>, measurement: string,
                             field: string, number: real, f: Field, v: real)
    requires Fits(index, row)
  {
    && (!f.Cpu? ==> v == number)
    && match f
       case Cpu =>
         && measurement == "cpu" && field == "usage_idle" && CellText(index, row, "cpu") == "cpu-total"
         && v * 100.0 + number == 100.0
       case MemUsed => measurement == "mem" && field == "used"
       case MemTotal => measurement == "mem" && field == "total"
       case DiskUsed(fs) => measurement == "disk" && field == "used" && NamesFilesystem(rd, policy, index, row, fs)
       case DiskTotal(fs) => measurement == "disk" && field == "total" && NamesFilesystem(rd, policy, index, row, fs)
       case Received(iface) =>
         measurement == "net" && field == "bytes_recv" && NamesInterface(rd, policy, index, row, iface)
       case Sent(iface) =>
         measurement == "net" && field == "bytes_sent" && NamesInterface(rd, policy, index, row, iface)
  }

  /** The row is about this filesystem, and it is one of the configured ones. */
  ghost predicate NamesFilesystem(rd: Reader, policy: Policy, index: ColumnIndex, row: seq<string>, fs: string)
    requires Fits(index, row)
  {
    var raw := FirstOf(CellText(index, row, "path"), CellText(index, row, "filesystem"),
                       CellText(index, row, "device"));
    fs == rd.text.Normalize(raw, 128) && fs in policy.filesystems
  }

  /** The row is about this interface, and it is a configured one when any are configured. */
  ghost predicate NamesInterface(rd: Reader, policy: Policy, index: ColumnIndex, row: seq<string>, iface: string)
    requires Fits(index, row)
  {
    iface == rd.text.Normalize(CellText(index, row, "interface"), 64)
      && (policy.interfaces == [] || iface in policy.interfaces)
  }

  lemma DimensionIsFirst(index: ColumnIndex, row: seq<string>)
    requires Fits(index, row)
    ensures OrNothing(Dimension(index, row, ["path", "filesystem", "device"]))
         == FirstOf(CellText(index, row, "path"), CellText(index, row, "filesystem"), CellText(index, row, "device"))
  {
    var names := ["path", "filesystem", "device"];
    assert names[1..] == ["filesystem", "device"] && names[1..][1..] == ["device"] && names[1..][1..][1..] == [];
    var three := Dimension(index, row, names[1..][1..][1..]);
    var two := Dimension(index, row, names[1..][1..]);
    var one := Dimension(index, row, names[1..]);
    assert OrNothing(three) == "" && OrNothing(two) == CellText(index, row, "device");
    assert OrNothing(one) == FirstOf("", CellText(index, row, "filesystem"), CellText(index, row, "device"));
  }

  function OrNothing(o: Option<string>): string {
    if o.Some? then o.value else ""
  }

  lemma DiskMeaning(rd: Reader, policy: Policy, index: ColumnIndex, row: seq<string>, used: bool, number: real,
                    fs: string)
    requires Fits(index, row) && DiskSample(rd, policy, index, row, used, number).Ok?
    ensures NamesFilesystem(rd, policy, index, row, fs)
       <==> DiskSample(rd, policy, index, row, used, number).value
            == Some((if used then DiskUsed(fs) else DiskTotal(fs), number))
  {
    DimensionIsFirst(index, row);
  }

  lemma NetworkMeaning(rd: Reader, policy: Policy, index: ColumnIndex, row: seq<string>, received: bool, number: real,
                       iface: string)
    requires Fits(index, row) && NetworkSample(rd, policy, index, row, received, number).Ok?
    ensures NamesInterface(rd, policy, index, row, iface)
       <==> NetworkSample(rd, policy, index, row, received, number).value
            == Some((if received then Received(iface) else Sent(iface), number))
  {
  }

  lemma SampleMeaning(rd: Reader, policy: Policy, index: ColumnIndex, row: seq<string>, measurement: string,
                      field: string, number: real, f: Field, v: real)
    requires Fits(index, row) && SampleOf(rd, policy, index, row, measurement, field, number).Ok?
    ensures SuppliesAs(rd, policy, index, row, measurement, field, number, f, v)
       <==> SampleOf(rd, policy, index, row, measurement, field, number).value == Some((f, v))
  {
    if measurement == "disk" && (field == "used" || field == "total") {
      if f.DiskUsed? || f.DiskTotal? { DiskMeaning(rd, policy, index, row, field == "used", number, f.fs); }
    } else if measurement == "net" && (field == "bytes_recv" || field == "bytes_sent") {
      if f.Received? || f.Sent? { NetworkMeaning(rd, policy, index, row, field == "bytes_recv", number, f.iface); }
    }
  }

  /** The reading of an acceptable row is exactly what the row supplies. */
  lemma RowMeaning(rd: Reader, policy: Policy, index: ColumnIndex, row: seq<string>, f: Field, v: real)
    requires Fits(index, row) && Headed(index) && ReadRow(rd, policy, index, row).Ok?
    ensures Supplies(rd, policy, index, row, f, v) <==> ReadRow(rd, policy, index, row).value.sample == Some((f, v))
  {
    HeadedColumns(index);
    var number := rd.number(row[index["_value"]]).value;
    SampleMeaning(rd, policy, index, row, row[index["_measurement"]], row[index["_field"]], number, f, v);
  }

  /** When a row is readable, told without the reader: its time is right, it has a value that is not negative
      and names a node, and what its measurement and field ask for is there. */
  ghost predicate RowOk(rd: Reader, policy: Policy, index: ColumnIndex, row: seq<string>)
    requires Fits(index, row)
  {
    var number := rd.number(CellText(index, row, "_value"));
    && Timely(rd, index, row) && number.Some? && number.value >= 0.0 && CellText(index, row, "node_id") != ""
    && SampleOk(rd, index, row, CellText(index, row, "_measurement"), CellText(index, row, "_field"), number.value)
  }

  /** Total CPU is a percentage, a disk names its file system, network traffic its interface. */
  ghost predicate SampleOk(rd: Reader, index: ColumnIndex, row: seq<string>, measurement: string, field: string,
                           number: real)
    requires Fits(index, row)
  {
    && (measurement == "cpu" && field == "usage_idle" ==> CellText(index, row, "cpu") == "cpu-total" && number <= 100.0)
    && (measurement == "disk" && (field == "used" || field == "total") ==> DiskNamed(rd, index, row))
    && (measurement == "net" && (field == "bytes_recv" || field == "bytes_sent") ==> InterfaceNamed(rd, index, row))
  }

  ghost predicate DiskNamed(rd: Reader, index: ColumnIndex, row: seq<string>)
    requires Fits(index, row)
  {
    var raw := FirstOf(CellText(index, row, "path"), CellText(index, row, "filesystem"),
                       CellText(index, row, "device"));
    raw != "" && rd.text.Normalize(raw, 128) != ""
  }

  ghost predicate InterfaceNamed(rd: Reader, index: ColumnIndex, row: seq<string>)
    requires Fits(index, row)
  {
    CellText(index, row, "interface") != "" && rd.text.Normalize(CellText(index, row, "interface"), 64) != ""
  }

  lemma DiskAccepted(rd: Reader, policy: Policy, index: ColumnIndex, row: seq<string>, used: bool, number: real)
    requires Fits(index, row)
    ensures DiskSample(rd, policy, index, row, used, number).Ok? <==> DiskNamed(rd, index, row)
  {
    DimensionIsFirst(index, row);
    DimensionIsThere(index, row, ["path", "filesystem", "device"]);
  }

  lemma {:induction false} DimensionIsThere(index: ColumnIndex, row: seq<string>, names: seq<string>)
    requires Fits(index, row)
    ensures Dimension(index, row, names).Some? ==> Dimension(index, row, names).value != ""
  {
    if names != [] { DimensionIsThere(index, row, names[1..]); }
  }

  lemma SampleAccepted(rd: Reader, policy: Policy, index: ColumnIndex, row: seq<string>, measurement: string,
                       field: string, number: real)
    requires Fits(index, row)
    ensures SampleOf(rd, policy, index, row, measurement, field, number).Ok?
       <==> SampleOk(rd, index, row, measurement, field, number)
  {
    if measurement == "disk" && (field == "used" || field == "total") {
      DiskAccepted(rd, policy, index, row, field == "used", number);
    }
  }

  /** A row is accepted exactly when it is readable, and then it is about the node that it names. */
  lemma RowAccepted(rd: Reader, policy: Policy, index: ColumnIndex, row: seq<string>)
    requires Fits(index, row) && Headed(index)
    ensures ReadRow(rd, policy, index, row).Ok? <==> RowOk(rd, policy, index, row)
    ensures ReadRow(rd, policy, index, row).Ok? ==>
              ReadRow(rd, policy, index, row).value.node == CellText(index, row, "node_id")
  {
    HeadedColumns(index);
    TimelyMeans(rd, index, row);
    var number := rd.number(row[index["_value"]]);
    if number.Some? {
      SampleAccepted(rd, policy, index, row, row[index["_measurement"]], row[index["_field"]], number.value);
    }
  }

  function ReadLine(rd: Reader, policy: Policy, l: Line): Result<Reading> {
    if !HeaderOk(l.columns, REQUIRED) then Err("Flux header")
    else if |l.row| != |l.columns| then Err("Flux row length does not match columns")
    else ReadRow(rd, policy, IndexOf(l.columns), l.row)
  }

  /** A line is readable when its header is good, it is as long as that, and its row is. */
  ghost predicate LineOk(rd: Reader, policy: Policy, l: Line) {
    && HeaderOk(l.columns, REQUIRED) && |l.row| == |l.columns|
    && RowOk(rd, policy, IndexOf(l.columns), l.row)
  }

  lemma LineAccepted(rd: Reader, policy: Policy, l: Line)
    ensures ReadLine(rd, policy, l).Ok? <==> LineOk(rd, policy, l)
  {
    if HeaderOk(l.columns, REQUIRED) && |l.row| == |l.columns| { RowAccepted(rd, policy, IndexOf(l.columns), l.row); }
  }

  // ---------- the declarative specification ----------

  type Readings = multiset<Reading>

  function Label(r: Reading): (string, Field)
    requires r.sample.Some?
  {
    (r.node, r.sample.value.0)
  }

  ghost function ReadingsOf(rd: Reader, policy: Policy, payload: seq<Series>): Readings {
    multiset(Map(Lines(payload), ReadingOrIgnored(rd, policy)))
  }

  ghost function ReadingOrIgnored(rd: Reader, policy: Policy): Line -> Reading {
    (l: Line) => if ReadLine(rd, policy, l).Ok? then ReadLine(rd, policy, l).value else Reading("", None)
  }

  /** No label is read twice. */
  ghost predicate Unique(m: Readings) {
    forall r :: r in m && r.sample.Some? ==>
      m[r] == 1 && forall s :: s in m && s.sample.Some? && Label(s) == Label(r) ==> s == r
  }

  ghost function NodesOf(m: Readings): set<string> {
    set r | r in m :: r.node
  }

  ghost predicate Carries(m: Readings, node: string, f: Field, v: real) {
    Reading(node, Some((f, v))) in m
  }

  /** The value read for a label, if there is one. */
  ghost function Value(m: Readings, node: string, f: Field): Option<real> {
    if exists v: real :: Carries(m, node, f, v) then var v: real :| Carries(m, node, f, v); Some(v) else None
  }

  ghost function Interfaces(m: Readings, node: string): set<string> {
    set r | r in m && r.node == node && r.sample.Some? && (r.sample.value.0.Received? || r.sample.value.0.Sent?)
      :: r.sample.value.0.iface
  }

  ghost function Filesystems(m: Readings, node: string): set<string> {
    set r | r in m && r.node == node && r.sample.Some? && (r.sample.value.0.DiskUsed? || r.sample.value.0.DiskTotal?)
      :: r.sample.value.0.fs
  }

  /** The checks on one node once everything has been read. */
  ghost predicate NodePasses(policy: Policy, m: Readings, node: string) {
    && |Interfaces(m, node)| <= policy.maxInterfaces
    && (Value(m, node, MemUsed).Some? && Value(m, node, MemTotal).Some? ==>
          Value(m, node, MemUsed).value <= Value(m, node, MemTotal).value)
    && (forall fs :: fs in Filesystems(m, node) ==> DiskComplete(m, node, fs))
  }

  ghost predicate DiskComplete(m: Readings, node: string, fs: string) {
    && Value(m, node, DiskUsed(fs)).Some? && Value(m, node, DiskTotal(fs)).Some?
    && Value(m, node, DiskUsed(fs)).value <= Value(m, node, DiskTotal(fs)).value
  }

  ghost predicate Consistent(policy: Policy, m: Readings) {
    Unique(m) && forall node :: node in NodesOf(m) ==> NodePasses(policy, m, node)
  }

  ghost predicate Acceptable(rd: Reader, policy: Policy, payload: seq<Series>) {
    && 1 <= policy.maxInterfaces <= 128
    && HeadersOk(payload, REQUIRED)
    && (forall l :: l in Lines(payload) ==> ReadLine(rd, policy, l).Ok?)
    && Consistent(policy, ReadingsOf(rd, policy, payload))
  }

  predicate BondName(rd: Reader, iface: string) {
    "bond" <= rd.lower(iface)
  }

  predicate HasDigit(s: string) {
    exists i :: 0 <= i < |s| && '0' <= s[i] <= '9'
  }

  /** A name like eth0 or ens192, which a bond would have as a member. */
  predicate LikelyBondMember(rd: Reader, iface: string) {
    var lower := rd.lower(iface);
    || ("em" <= lower && HasDigit(lower[2..]))
    || ("eno" <= lower && HasDigit(lower[3..]))
    || ("enp" <= lower && HasDigit(lower[3..]))
    || ("ens" <= lower && HasDigit(lower[3..]))
    || ("eth" <= lower && HasDigit(lower[3..]))
  }

  /** The interfaces that are reported: without likely members when a bond is present and preferred. */
  ghost function Visible(rd: Reader, policy: Policy, all: set<string>): set<string> {
    if policy.preferBond && exists i :: i in all && BondName(rd, i) then set i | i in all && !LikelyBondMember(rd, i)
    else all
  }

  function IfaceKey(n: Network): seq<string> {
    [n.iface]
  }

  ghost predicate StrictlySorted(network: seq<Network>) {
    SortedBy(network, IfaceKey, TupleLeq) && DistinctKeys(network, IfaceKey)
  }

  function Names(network: seq<Network>): set<string> {
    set n | n in network :: n.iface
  }

  ghost function Amount(m: Readings, node: string, f: Field): real {
    if Value(m, node, f).Some? then Value(m, node, f).value else 0.0
  }

  ghost function UsedOf(m: Readings, node: string): map<string, real> {
    map fs | fs in Filesystems(m, node) :: Amount(m, node, DiskUsed(fs))
  }

  ghost function TotalOf(m: Readings, node: string): map<string, real> {
    map fs | fs in Filesystems(m, node) :: Amount(m, node, DiskTotal(fs))
  }

  /** The sum of the values of a map. */
  ghost function Sum(m: map<string, real>): real {
    if m == map[] then 0.0
    else
      var k :| k in m;
      m[k] + Sum(m - {k})
  }

  ghost function SumOrNone(m: map<string, real>): Option<real> {
    if m == map[] then None else Some(Sum(m))
  }

  ghost predicate ScalarsDescribed(m: Readings, node: string, r: NodeResource) {
    r.cpu == Value(m, node, Cpu) && r.memUsed == Value(m, node, MemUsed) && r.memTotal == Value(m, node, MemTotal)
  }

  /** The disk amounts are sums over the filesystems read, absent when there is none. */
  ghost predicate DiskDescribed(m: Readings, node: string, r: NodeResource) {
    r.diskUsed == SumOrNone(UsedOf(m, node)) && r.diskTotal == SumOrNone(TotalOf(m, node))
  }

  ghost predicate NetworkDescribed(rd: Reader, policy: Policy, m: Readings, node: string, network: seq<Network>) {
    && StrictlySorted(network)
    && Names(network) == Visible(rd, policy, Interfaces(m, node))
    && forall n :: n in network ==>
         n.receive == Value(m, node, Received(n.iface)) && n.transmit == Value(m, node, Sent(n.iface))
  }

  /** What a node's record must be. */
  ghost predicate Describes(rd: Reader, policy: Policy, m: Readings, node: string, r: NodeResource) {
    ScalarsDescribed(m, node, r) && DiskDescribed(m, node, r) && NetworkDescribed(rd, policy, m, node, r.network)
  }

  /** What the whole result must be: one record for each node named. */
  ghost predicate DescribesAll(rd: Reader, policy: Policy, m: Readings, records: map<string, NodeResource>) {
    records.Keys == NodesOf(m) && forall n :: n in records ==> Describes(rd, policy, m, n, records[n])
  }

  // ---------- what holds of every record ----------

  ghost predicate DiskOk(r: NodeResource) {
    || (r.diskUsed.None? && r.diskTotal.None?)
    || (r.diskUsed.Some? && r.diskTotal.Some? && r.diskUsed.value <= r.diskTotal.value)
  }

  /** The part that outlives merging, publishing and carrying over: CPU is a ratio, the disk
      amounts come together and in order, the interfaces are strictly sorted. */
  ghost predicate WellFormed(r: NodeResource) {
    (r.cpu.Some? ==> 0.0 <= r.cpu.value <= 1.0) && DiskOk(r) && StrictlySorted(r.network)
  }
}
