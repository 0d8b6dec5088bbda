/**
 Lists of performance series: duplicate rejection inside one query and across queries, and
 the metrics that an accepted list emits.
 */
module PerformanceSeries {
  import opened Common
  import opened Flux
  import opened Performance

  // ---------- one query ----------

  /** The series that some rows carry, in order. */
  function Kept(src: Source, lines: seq<Line>): seq<Sample> {
    if lines == [] then []
    else Kept(src, lines[..|lines| - 1]) + KeptOne(src, lines[|lines| - 1])
  }

  function KeptOne(src: Source, l: Line): seq<Sample> {
    var r := ReadLine(src, l);
    if r.Ok? && r.value.Some? then [r.value.value] else []
  }

  lemma KeptLast(src: Source, a: seq<Line>, l: Line)
    ensures Kept(src, a + [l]) == Kept(src, a) + KeptOne(src, l)
  {
    assert (a + [l])[..|a|] == a;
  }

  lemma {:induction false} KeptConcat(src: Source, a: seq<Line>, b: seq<Line>)
    ensures Kept(src, a + b) == Kept(src, a) + Kept(src, b)
  {
    if b == [] {
      assert a + b == a;
    } else {
      var front, last := b[..|b| - 1], b[|b| - 1];
      assert b == front + [last] && a + b == (a + front) + [last];
      KeptConcat(src, a, front);
      KeptLast(src, a + front, last);
      KeptLast(src, front, last);
    }
  }

  ghost predicate Readable(src: Source, lines: seq<Line>) {
    forall l :: l in lines ==> ReadLine(src, l).Ok?
  }

  /** No two series carry the same labels. */
  ghost predicate DistinctSeries(samples: seq<Sample>) {
    DistinctKeys(samples, Labels)
  }

  ghost predicate AllPlain(src: Source, samples: seq<Sample>) {
    forall p :: p in samples ==> Plain(src, p)
  }

  lemma {:induction false} KeptArePlain(src: Source, lines: seq<Line>)
    requires src.Valid()
    ensures AllPlain(src, Kept(src, lines))
  {
    if lines != [] {
      KeptArePlain(src, lines[..|lines| - 1]);
      RowsArePlain(src, lines[|lines| - 1]);
    }
  }

  ghost predicate GoodLines(src: Source, lines: seq<Line>) {
    Readable(src, lines) && DistinctSeries(Kept(src, lines))
  }

  ghost predicate Acceptable(src: Source, payload: seq<Series>) {
    HeadersOk(payload, REQUIRED) && GoodLines(src, Lines(payload))
  }

  /** Acceptance without the reader: good headers, readable rows, distinct series. */
  ghost predicate PayloadOk(src: Source, payload: seq<Series>) {
    && HeadersOk(payload, REQUIRED) && (forall l :: l in Lines(payload) ==> LineOk(src, l))
    && DistinctSeries(Kept(src, Lines(payload)))
  }

  lemma PayloadAccepted(src: Source, payload: seq<Series>)
    requires src.Valid()
    ensures Acceptable(src, payload) <==> PayloadOk(src, payload)
  {
    forall l | l in Lines(payload) ensures ReadLine(src, l).Ok? <==> LineOk(src, l) {
      LineAccepted(src, l);
    }
  }

  lemma BadStays(src: Source, a: seq<Line>, b: seq<Line>)
    requires !GoodLines(src, a)
    ensures !GoodLines(src, a + b)
  {
    KeptConcat(src, a, b);
    if !Readable(src, a) {
      var l :| l in a && !ReadLine(src, l).Ok?;
      assert l in a + b;
    } else {
      PrefixDistinct(Kept(src, a), Kept(src, b));
    }
  }

  lemma PrefixDistinct(a: seq<Sample>, b: seq<Sample>)
    ensures DistinctSeries(a + b) ==> DistinctSeries(a)
  {
    if DistinctSeries(a + b) {
      forall i, j | 0 <= i < j < |a| ensures Labels(a[i]) != Labels(a[j]) {
        assert (a + b)[i] == a[i] && (a + b)[j] == a[j];
      }
    }
  }

  /** The keys in use are those of the series kept so far. */
  ghost predicate SeenAre(seen: set<string>, samples: seq<Sample>) {
    forall k :: k in seen <==> KeyOf(samples, k)
  }

  ghost predicate KeyOf(samples: seq<Sample>, k: string) {
    exists p :: p in samples && PerformanceKey(p) == k
  }

  lemma NewKey(src: Source, seen: set<string>, samples: seq<Sample>, p: Sample)
    requires SeenAre(seen, samples) && AllPlain(src, samples) && Plain(src, p) && DistinctSeries(samples)
    ensures PerformanceKey(p) !in seen <==> DistinctSeries(samples + [p])
    ensures SeenAre(seen + {PerformanceKey(p)}, samples + [p])
  {
    var longer := samples + [p];
    if PerformanceKey(p) in seen {
      assert KeyOf(samples, PerformanceKey(p));
      var q :| q in samples && PerformanceKey(q) == PerformanceKey(p);
      KeysAreLabels(src, p, q);
      var i :| 0 <= i < |samples| && samples[i] == q;
      assert Labels(longer[i]) == Labels(longer[|samples|]);
    } else {
      forall q | q in samples ensures Labels(q) != Labels(p) {
        KeysAreLabels(src, p, q);
        assert KeyOf(samples, PerformanceKey(q));
      }
    }
    SeenGrows(seen, samples, p);
  }

  lemma SeenGrows(seen: set<string>, samples: seq<Sample>, p: Sample)
    requires SeenAre(seen, samples)
    ensures SeenAre(seen + {PerformanceKey(p)}, samples + [p])
  {
    var longer := samples + [p];
    forall k ensures KeyOf(longer, k) <==> KeyOf(samples, k) || k == PerformanceKey(p) {
      if KeyOf(samples, k) {
        var q :| q in samples && PerformanceKey(q) == k;
        assert q in longer;
      }
      if k == PerformanceKey(p) { assert p in longer; }
    }
  }

  /** What the loops have after some lines. */
  ghost predicate Progress(src: Source, lines: seq<Line>, result: seq<Sample>, seen: set<string>) {
    Readable(src, lines) && result == Kept(src, lines) && DistinctSeries(result) && SeenAre(seen, result)
  }

  lemma LineKept(src: Source, lines: seq<Line>, l: Line)
    ensures Kept(src, lines + [l]) == Kept(src, lines) + KeptOne(src, l)
    ensures Readable(src, lines + [l]) <==> Readable(src, lines) && ReadLine(src, l).Ok?
  {
    var longer := lines + [l];
    KeptLast(src, lines, l);
    assert l in longer && forall k :: k in longer <==> k in lines || k == l;
  }

  /** One row. */
  method ReadOne(src: Source, index: ColumnIndex, l: Line, result: seq<Sample>, seen: set<string>,
                 ghost lines: seq<Line>)
    returns (ok: bool, result': seq<Sample>, seen': set<string>)
    requires src.Valid() && HeaderOk(l.columns, REQUIRED) && index == IndexOf(l.columns)
    requires Progress(src, lines, result, seen)
    ensures ok ==> Progress(src, lines + [l], result', seen')
    ensures !ok ==> !GoodLines(src, lines + [l])
  {
    result', seen' := result, seen;
    LineKept(src, lines, l);
    if |l.row| != |l.columns| {
      return false, result, seen;
    }
    var read := ReadRow(src, index, l.row);
    assert read == ReadLine(src, l);
    if read.Err? {
      return false, result, seen;
    }
    if read.value.None? {
      return true, result, seen;
    }
    var p := read.value.value;
    KeptArePlain(src, lines);
    RowsArePlain(src, l);
    NewKey(src, seen, result, p);
    if PerformanceKey(p) in seen {
      return false, result, seen;
    }
    ok, result', seen' := true, result + [p], seen + {PerformanceKey(p)};
  }

  /** The row loop of one table. */
  method ReadRows(src: Source, s: Series, index: ColumnIndex, result: seq<Sample>, seen: set<string>,
                  ghost lines: seq<Line>)
    returns (ok: bool, result': seq<Sample>, seen': set<string>)
    requires src.Valid() && HeaderOk(s.columns, REQUIRED) && index == IndexOf(s.columns)
    requires Progress(src, lines, result, seen)
    ensures ok ==> Progress(src, lines + LinesOf(s), result', seen')
    ensures !ok ==> !GoodLines(src, lines + LinesOf(s))
  {
    result', seen' := result, seen;
    ghost var done := lines;
    ghost var all := LinesOf(s);
    for k := 0 to |s.values|
      invariant done == lines + all[..k]
      invariant Progress(src, done, result', seen')
    {
      var l := Line(s.columns, s.values[k]);
      RowOf(lines, all, k);
      ok, result', seen' := ReadOne(src, index, l, result', seen', done);
      done := done + [l];
      if !ok {
        BadStays(src, done, all[k + 1..]);
        return;
      }
    }
    assert all[..|s.values|] == all;
    ok := true;
  }

  lemma RowOf(lines: seq<Line>, all: seq<Line>, k: nat)
    requires k < |all|
    ensures lines + all[..k] + [all[k]] == lines + all[..k + 1]
    ensures lines + all[..k + 1] + all[k + 1..] == lines + all
  {
  }

  /** `ParseFluxPerformance` on a decoded payload: it accepts iff every row can be classified and
      no two series have the same labels, and returns the series in the order of their rows. */
  method ParsePerformance(src: Source, payload: seq<Series>) returns (r: Result<seq<Sample>>)
    requires src.Valid()
    ensures r.Ok? <==> Acceptable(src, payload)
    ensures r.Ok? <==> PayloadOk(src, payload)
    ensures r.Ok? ==> r.value == Kept(src, Lines(payload))
  {
    PayloadAccepted(src, payload);
    var result: seq<Sample>, seen: set<string> := [], {};
    ghost var done: seq<Line> := [];
    for k := 0 to |payload|
      invariant done == Lines(payload[..k]) && HeadersOk(payload[..k], REQUIRED)
      invariant Progress(src, done, result, seen)
    {
      var s := payload[k];
      LinesStep(payload, k);
      if s.Empty() {
        assert LinesOf(s) == [];
        continue;
      }
      var index := BuildIndex(s.columns, REQUIRED);
      if index.Err? {
        assert s in payload;
        return Err(index.error);
      }
      var ok;
      ok, result, seen := ReadRows(src, s, index.value, result, seen, done);
      done := done + LinesOf(s);
      if !ok {
        LinesSplit(payload, k);
        BadStays(src, done, Lines(payload[k + 1..]));
        return Err("performance Flux payload rejected");
      }
    }
    assert payload[..|payload|] == payload;
    r := Ok(result);
  }

  // ---------- across queries ----------

  /** `mergePerformances`. */
  method MergePerformances(src: Source, target: seq<Sample>, source: seq<Sample>)
    returns (ok: bool, merged: seq<Sample>)
    requires AllPlain(src, target) && AllPlain(src, source) && DistinctSeries(target)
    ensures ok <==> DistinctSeries(target + source)
    ensures ok ==> merged == target + source
  {
    var seen: set<string> := {};
    for k := 0 to |target|
      invariant SeenAre(seen, target[..k])
    {
      Cut(target, k);
      SeenGrows(seen, target[..k], target[k]);
      seen := seen + {PerformanceKey(target[k])};
    }
    assert target[..|target|] == target;
    merged := target;
    for k := 0 to |source|
      invariant merged == target + source[..k] && DistinctSeries(merged) && SeenAre(seen, merged)
    {
      Cut(source, k);
      assert target + source[..k + 1] == merged + [source[k]];
      PlainConcat(src, target, source, k);
      NewKey(src, seen, merged, source[k]);
      if PerformanceKey(source[k]) in seen {
        assert target + source == (target + source[..k + 1]) + source[k + 1..];
        PrefixDistinct(target + source[..k + 1], source[k + 1..]);
        return false, merged;
      }
      seen := seen + {PerformanceKey(source[k])};
      merged := merged + [source[k]];
    }
    assert source[..|source|] == source;
    ok := true;
  }

  lemma PlainConcat(src: Source, target: seq<Sample>, source: seq<Sample>, k: nat)
    requires AllPlain(src, target) && AllPlain(src, source) && k < |source|
    ensures AllPlain(src, target + source[..k]) && Plain(src, source[k])
  {
    assert source[k] in source;
    assert forall p :: p in source[..k] ==> p in source;
  }

  function KeptAll(src: Source, payloads: seq<seq<Series>>): seq<Sample> {
    if payloads == [] then []
    else KeptAll(src, payloads[..|payloads| - 1]) + Kept(src, Lines(payloads[|payloads| - 1]))
  }

  lemma KeptAllNext(src: Source, payloads: seq<seq<Series>>, k: nat)
    requires k < |payloads|
    ensures KeptAll(src, payloads[..k + 1]) == KeptAll(src, payloads[..k]) + Kept(src, Lines(payloads[k]))
  {
    assert payloads[..k + 1][..k] == payloads[..k];
  }

  lemma {:induction false} KeptAllPrefix(src: Source, payloads: seq<seq<Series>>, k: nat)
    requires k <= |payloads|
    ensures DistinctSeries(KeptAll(src, payloads)) ==> DistinctSeries(KeptAll(src, payloads[..k]))
  {
    if k < |payloads| {
      var front := payloads[..|payloads| - 1];
      PrefixDistinct(KeptAll(src, front), Kept(src, Lines(payloads[|payloads| - 1])));
      KeptAllPrefix(src, front, k);
      assert front[..k] == payloads[..k];
    } else {
      assert payloads[..k] == payloads;
    }
  }

  /** One query of `CollectPerformance`: parse and merge. */
  method CollectOne(src: Source, values: seq<Sample>, payload: seq<Series>) returns (r: Result<seq<Sample>>)
    requires src.Valid() && AllPlain(src, values) && DistinctSeries(values)
    ensures r.Ok? <==> Acceptable(src, payload) && DistinctSeries(values + Kept(src, Lines(payload)))
    ensures r.Ok? ==> r.value == values + Kept(src, Lines(payload)) && AllPlain(src, r.value)
  {
    var parsed := ParsePerformance(src, payload);
    if parsed.Err? {
      return parsed;
    }
    KeptArePlain(src, Lines(payload));
    var ok, merged := MergePerformances(src, values, parsed.value);
    r := if ok then Ok(merged) else Err("performance Flux series contains duplicate metric labels across queries");
  }

  /** The queries succeed: each payload is acceptable, and no labels repeat anywhere. */
  ghost predicate AllAcceptable(src: Source, payloads: seq<seq<Series>>) {
    (forall i :: 0 <= i < |payloads| ==> Acceptable(src, payloads[i])) && DistinctSeries(KeptAll(src, payloads))
  }

  lemma AcceptableNext(src: Source, payloads: seq<seq<Series>>, k: nat)
    requires k < |payloads| && AllAcceptable(src, payloads[..k])
    ensures var good := Acceptable(src, payloads[k])
            && DistinctSeries(KeptAll(src, payloads[..k]) + Kept(src, Lines(payloads[k])));
            && (good ==> AllAcceptable(src, payloads[..k + 1]))
            && (!good ==> !AllAcceptable(src, payloads))
  {
    KeptAllNext(src, payloads, k);
    KeptAllPrefix(src, payloads, k + 1);
    Cut(payloads, k);
  }

  /** The query loop of `CollectPerformance`: it succeeds iff every payload is acceptable and no
      labels repeat anywhere, and then has all series of all payloads. */
  method CollectSeries(src: Source, payloads: seq<seq<Series>>) returns (r: Result<seq<Sample>>)
    requires src.Valid()
    ensures r.Ok? <==> AllAcceptable(src, payloads)
    ensures r.Ok? ==> r.value == KeptAll(src, payloads) && AllPlain(src, r.value)
  {
    var values: seq<Sample> := [];
    for k := 0 to |payloads|
      invariant values == KeptAll(src, payloads[..k]) && AllPlain(src, values)
      invariant AllAcceptable(src, payloads[..k])
    {
      AcceptableNext(src, payloads, k);
      KeptAllNext(src, payloads, k);
      r := CollectOne(src, values, payloads[k]);
      if r.Err? {
        return;
      }
      values := r.value;
    }
    assert payloads[..|payloads|] == payloads;
    r := Ok(values);
  }

  // ---------- emission ----------

  datatype Descriptor = VdcRead | VdcWrite | VdcLatency | VdcRequests | NamespaceRequests

  datatype Gauge = Gauge(descriptor: Descriptor, labels: seq<string>, value: real)

  /** `collectPerformance`: the gauge that a series is exported as. */
  function Emitted(p: Sample): Option<Gauge> {
    if p.namespace == "" then
      match p.metric
      case ReadThroughput => Some(Gauge(VdcRead, [p.cluster, p.vdc], p.value))
      case WriteThroughput => Some(Gauge(VdcWrite, [p.cluster, p.vdc], p.value))
      case Latency => Some(Gauge(VdcLatency, [p.cluster, p.vdc, p.operation, p.quantile], p.value))
      case Requests => Some(Gauge(VdcRequests, [p.cluster, p.vdc, p.operation, p.statusClass], p.value))
    else if p.metric.Requests? then
      Some(Gauge(NamespaceRequests, [p.cluster, p.vdc, p.namespace, p.operation, p.statusClass], p.value))
    else None
  }

  /** The names that the exporter registers a descriptor under. */
  function NameOf(d: Descriptor): string {
    match d
    case VdcRead => "ecs_vdc_read_throughput_bytes_per_second"
    case VdcWrite => "ecs_vdc_write_throughput_bytes_per_second"
    case VdcLatency => "ecs_vdc_request_latency_seconds"
    case VdcRequests => "ecs_vdc_requests"
    case NamespaceRequests => "ecs_namespace_requests"
  }

  /** The label names that it registers with it. */
  function LabelNames(d: Descriptor): seq<string> {
    match d
    case VdcRead => ["cluster", "vdc"]
    case VdcWrite => ["cluster", "vdc"]
    case VdcLatency => ["cluster", "vdc", "operation", "quantile"]
    case VdcRequests => ["cluster", "vdc", "operation", "status_class"]
    case NamespaceRequests => ["cluster", "vdc", "namespace", "operation", "status_class"]
  }

  /** The field of a series that a label name stands for. */
  function LabelOf(p: Sample, name: string): string {
    if name == "cluster" then p.cluster
    else if name == "vdc" then p.vdc
    else if name == "namespace" then p.namespace
    else if name == "operation" then p.operation
    else if name == "quantile" then p.quantile
    else if name == "status_class" then p.statusClass
    else ""
  }

  /** What a gauge called `name` shows, if anything: each of the five carries one metric, either of the
      whole VDC or of one namespace. */
  predicate ShownAs(name: string, p: Sample) {
    || (name == "ecs_vdc_read_throughput_bytes_per_second" && p.namespace == "" && p.metric == ReadThroughput)
    || (name == "ecs_vdc_write_throughput_bytes_per_second" && p.namespace == "" && p.metric == WriteThroughput)
    || (name == "ecs_vdc_request_latency_seconds" && p.namespace == "" && p.metric == Latency)
    || (name == "ecs_vdc_requests" && p.namespace == "" && p.metric == Requests)
    || (name == "ecs_namespace_requests" && p.namespace != "" && p.metric == Requests)
  }

  lemma NamesDiffer()
    ensures |NameOf(VdcRead)| == 40 && |NameOf(VdcWrite)| == 41 && |NameOf(VdcLatency)| == 31
    ensures |NameOf(VdcRequests)| == 16 && |NameOf(NamespaceRequests)| == 22
  {
  }

  /** A series is exported under the one name that may show it, with its value; a series of a namespace that
      does not count requests is not exported. */
  lemma EmittedAsNamed(p: Sample, name: string)
    ensures ShownAs(name, p) <==> Emitted(p).Some? && NameOf(Emitted(p).value.descriptor) == name
    ensures Emitted(p).None? <==> p.namespace != "" && p.metric != Requests
    ensures Emitted(p).Some? ==> Emitted(p).value.value == p.value
  {
    NamesDiffer();
  }

  /** The value under each label name is the series' field of that name. */
  lemma EmittedLabels(p: Sample, i: nat)
    requires Emitted(p).Some? && i < |LabelNames(Emitted(p).value.descriptor)|
    ensures |Emitted(p).value.labels| == |LabelNames(Emitted(p).value.descriptor)|
    ensures Emitted(p).value.labels[i] == LabelOf(p, LabelNames(Emitted(p).value.descriptor)[i])
  {
  }

  predicate SameSeries(p: Gauge, q: Gauge) {
    p.descriptor == q.descriptor && p.labels == q.labels
  }

  predicate Collide(p: Sample, q: Sample) {
    Emitted(p).Some? && Emitted(q).Some? && SameSeries(Emitted(p).value, Emitted(q).value)
  }

  /** Two well-shaped series that are exported as the same Prometheus series are the same series. */
  lemma EmissionIsInjective(p: Sample, q: Sample)
    requires ShapeOk(p) && ShapeOk(q)
    requires Collide(p, q)
    ensures Labels(p) == Labels(q)
  {
    var a, b := Emitted(p).value.labels, Emitted(q).value.labels;
    assert forall i :: 0 <= i < |a| ==> a[i] == b[i];
    assert p.cluster == a[0] == q.cluster && p.vdc == a[1] == q.vdc;
    if p.namespace != "" {
      assert p.namespace == a[2] == q.namespace && p.operation == a[3] == q.operation
             && p.statusClass == a[4] == q.statusClass;
    } else if p.metric == Latency || p.metric == Requests {
      assert p.operation == a[2] == q.operation && a[3] == b[3];
    }
  }

  /** The list collected for a cluster never emits one Prometheus series twice. */
  lemma NoDuplicateMetric(src: Source, samples: seq<Sample>, i: nat, j: nat)
    requires AllPlain(src, samples) && DistinctSeries(samples)
    requires i < |samples| && j < |samples| && i != j
    ensures !Collide(samples[i], samples[j])
  {
    assert samples[i] in samples && samples[j] in samples;
    if Collide(samples[i], samples[j]) {
      EmissionIsInjective(samples[i], samples[j]);
    }
  }

  /** Neither do the lists of two clusters together. */
  lemma NoDuplicateAcrossClusters(a: Source, b: Source, xs: seq<Sample>, ys: seq<Sample>, i: nat, j: nat)
    requires AllPlain(a, xs) && AllPlain(b, ys) && a.cluster != b.cluster
    requires i < |xs| && j < |ys|
    ensures !Collide(xs[i], ys[j])
  {
    assert xs[i] in xs && ys[j] in ys;
    if Collide(xs[i], ys[j]) {
      EmissionIsInjective(xs[i], ys[j]);
    }
  }
}
