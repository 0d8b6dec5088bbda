/**
 Performance series: the classification of Flux rows, the rejection of duplicate labels
 within and across queries, and the metrics emitted from an accepted list.

 Upper-casing is a library routine, like lower-casing and the number and time readers.
 */
module Performance {
  import opened Common
  import opened Text
  import opened Flux

  datatype Metric = ReadThroughput | WriteThroughput | Latency | Requests

  function MetricName(m: Metric): string {
    match m
    case ReadThroughput => "read_throughput"
    case WriteThroughput => "write_throughput"
    case Latency => "latency"
    case Requests => "requests"
  }

  datatype Sample = Sample(
    cluster: string, vdc: string, namespace: string, metric: Metric,
    operation: string, statusClass: string, quantile: string, value: real, collectedAt: int)

  /** What a parse is given besides the payload. Times equal to `zero` count as missing. */
  datatype Source = Source(rd: Reader, upper: string -> string, cluster: string, defaultVdc: string, collectedAt: int,
                           zero: int)
  {
    ghost predicate Valid() {
      rd.text.Valid() && NulFree(cluster) && forall s :: rd.lower(rd.lower(s)) == rd.lower(s)
    }
  }

  const REQUIRED := ["_measurement", "_field", "_value", "_time"]

  // ---------- normalisers ----------

  predicate Contains(s: string, part: string) {
    part <= s || (s != "" && Contains(s[1..], part))
  }

  const OPERATIONS := ["ALL", "DELETE", "GET", "HEAD", "POST", "PUT", "READ", "WRITE"]

  function NormalizeOperation(src: Source, value: string): string {
    var upper := src.upper(src.rd.text.Normalize(value, 32));
    if upper in OPERATIONS then upper else ""
  }

  function LatencyOperation(src: Source, value: string): string {
    var lower := src.rd.lower(src.rd.text.Normalize(value, 64));
    if lower == "ttfb_read" then "READ" else if lower == "ttlb_write" then "WRITE" else NormalizeOperation(src, value)
  }

  const FIELD_OPERATIONS := [("delete", "DELETE"), ("get", "GET"), ("head", "HEAD"), ("post", "POST"), ("put", "PUT"),
                             ("read", "READ"), ("write", "WRITE")]

  function OperationIn(lower: string, candidates: seq<(string, string)>): string {
    if candidates == [] then ""
    else if Contains(lower, candidates[0].0) then candidates[0].1
    else OperationIn(lower, candidates[1..])
  }

  function OperationFromField(src: Source, field: string): string {
    OperationIn(src.rd.lower(field), FIELD_OPERATIONS)
  }

  function NormalizeStatusClass(src: Source, value: string): string {
    var lower := src.rd.lower(src.rd.text.Normalize(value, 16));
    if lower in ["2xx", "success", "succeed"] then "2xx"
    else if lower in ["4xx", "client_error"] then "4xx"
    else if lower in ["5xx", "error", "server_error"] then "5xx"
    else ""
  }

  function StatusClassOf(lower: string): string {
    if Contains(lower, "succeed") || Contains(lower, "success") || Contains(lower, "2xx") then "2xx"
    else if Contains(lower, "user_error") || Contains(lower, "client") || Contains(lower, "4xx") then "4xx"
    else if Contains(lower, "system_error") || Contains(lower, "error") || Contains(lower, "failed")
            || Contains(lower, "server") || Contains(lower, "5xx") then "5xx"
    else ""
  }

  function NormalizeQuantile(src: Source, value: string): string {
    var lower := src.rd.lower(src.rd.text.Normalize(value, 16));
    if lower in ["p50", "0.5", "50"] then "0.5"
    else if lower in ["p95", "0.95", "95"] then "0.95"
    else if lower in ["p99", "0.99", "99"] then "0.99"
    else ""
  }

  function Throughput(src: Source, value: real, unit: string): Option<real> {
    var u := src.upper(src.rd.text.trim(unit));
    if u in ["", "B/S", "BYTE/S", "BYTES/S"] then Some(value)
    else if u == "KB/S" then Some(value * 1_000.0)
    else if u == "MB/S" then Some(value * 1_000_000.0)
    else if u == "GB/S" then Some(value * 1_000_000_000.0)
    else if u == "TB/S" then Some(value * 1_000_000_000_000.0)
    else None
  }

  function LatencySeconds(src: Source, value: real, unit: string): Option<real> {
    var u := src.rd.lower(src.rd.text.trim(unit));
    if u in ["", "ms", "millisecond", "milliseconds"] then Some(value / 1_000.0)
    else if u in ["s", "second", "seconds"] then Some(value)
    else None
  }

  // ---------- one row ----------

  function OrEmpty(o: Option<string>): string {
    if o.Some? then o.value else ""
  }

  function OrElse(value: string, other: string): string {
    if value == "" then other else value
  }

  /** The labels and value common to all measurements, before the measurement is looked at. */
  function Base(src: Source, index: ColumnIndex, row: seq<string>, sampleTime: int, vdc: string): Sample
    requires Fits(index, row)
  {
    Sample(src.cluster, vdc,
           src.rd.text.Normalize(OrEmpty(Dimension(index, row, ["namespace"])), 128), Requests,
           NormalizeOperation(src, OrEmpty(Dimension(index, row, ["operation", "method", "id"]))),
           NormalizeStatusClass(src, OrEmpty(Dimension(index, row, ["status_class"]))),
           NormalizeQuantile(src, OrEmpty(Dimension(index, row, ["quantile", "percentile"]))),
           0.0, if sampleTime == src.zero then src.collectedAt else sampleTime)
  }

  function ThroughputSample(src: Source, base: Sample, field: string, number: real,
                            unit: string): Result<Option<Sample>> {
    var scaled := Throughput(src, number, unit);
    var blank := base.(operation := "", statusClass := "", quantile := "");
    if scaled.None? then Err("performance throughput unit is unsupported")
    else if field in ["read", "read_rate", "read_bytes_per_second", "total_read_requests_size"] then
      Ok(Some(blank.(metric := ReadThroughput, value := scaled.value)))
    else if field in ["write", "write_rate", "write_bytes_per_second", "total_write_requests_size"] then
      Ok(Some(blank.(metric := WriteThroughput, value := scaled.value)))
    else Err("performance throughput field is unsupported")
  }

  function LatencySample(src: Source, base: Sample, operation: string, field: string, number: real,
                         unit: string): Result<Option<Sample>> {
    LatencyOf(base, OrElse(base.operation, LatencyOperation(src, operation)),
              OrElse(base.quantile, NormalizeQuantile(src, field)), LatencySeconds(src, number, unit))
  }

  function LatencyOf(base: Sample, op: string, quantile: string, seconds: Option<real>): Result<Option<Sample>> {
    if op == "" || quantile == "" then Err("performance latency operation and quantile are required")
    else if seconds.None? then Err("performance latency unit is unsupported")
    else Ok(Some(base.(metric := Latency, operation := op, quantile := quantile, statusClass := "",
                       value := seconds.value)))
  }

  function RequestSample(src: Source, base: Sample, field: string, number: real): Result<Option<Sample>> {
    var op := OrElse(OrElse(base.operation, OperationFromField(src, field)), "all");
    var status := if base.statusClass == "" then StatusClassOf(src.rd.lower(field)) else base.statusClass;
    if status == "" then Err("performance status class is required")
    else Ok(Some(base.(metric := Requests, operation := op, statusClass := status, quantile := "", value := number)))
  }

  /** The dispatch on measurement and field; `None` is a row that is skipped. */
  function Dispatch(src: Source, base: Sample, measurement: string, field: string, operation: string, unit: string,
                    number: real): Result<Option<Sample>> {
    if measurement == "cq_performance_throughput" then ThroughputSample(src, base, field, number, unit)
    else if measurement == "cq_performance_latency" then LatencySample(src, base, operation, field, number, unit)
    else if measurement == "cq_performance_transaction" || measurement == "cq_performance_transaction_ns" then
      if field == "failed_request_counter" then Ok(None)
      else if field == "succeed_request_counter" then RequestSample(src, base, field, number)
      else Err("performance transaction field is unsupported")
    else if measurement == "cq_performance_error" || measurement == "cq_performance_error_ns" then
      if field in ["system_errors", "user_errors", "server_error_counter", "client_error_counter"] then
        RequestSample(src, base, field, number)
      else Err("performance error field is unsupported")
    else Err("performance Flux measurement is unsupported")
  }

  function ReadRow(src: Source, index: ColumnIndex, row: seq<string>): Result<Option<Sample>>
    requires Fits(index, row) && forall k :: 0 <= k < |REQUIRED| ==> REQUIRED[k] in index
  {
    assert REQUIRED[0] in index && REQUIRED[1] in index && REQUIRED[2] in index && REQUIRED[3] in index;
    var sampleTime := src.rd.time(row[index["_time"]]);
    var number := src.rd.number(row[index["_value"]]);
    var vdc := src.rd.text.Normalize(OrElse(OrEmpty(Dimension(index, row, ["vdc", "vdc_name", "zone"])),
                                            src.defaultVdc), 128);
    if sampleTime.None? then Err("performance Flux timestamp is invalid")
    else if !RangeOk(src.rd, index, row, sampleTime.value) then Err("Flux range is invalid")
    else if number.None? || number.value < 0.0 then Err("performance Flux value is invalid")
    else if src.cluster == "" || vdc == "" then Err("performance Flux cluster and VDC are required")
    else
      Dispatch(src, Base(src, index, row, sampleTime.value, vdc),
               src.rd.lower(row[index["_measurement"]]), src.rd.lower(row[index["_field"]]),
               OrEmpty(Dimension(index, row, ["operation", "method", "id"])), OrEmpty(Dimension(index, row, ["unit"])),
               number.value)
  }

  // ---------- what a field says about the status class ----------

  lemma DiffersAt(s: string, part: string, k: nat)
    requires k < |part| && (k >= |s| || s[k] != part[k])
    ensures !(part <= s)
  {
  }

  /** Text without some character of the part does not contain it. */
  lemma {:induction false} LacksCharacter(s: string, part: string, k: nat)
    requires k < |part| && part[k] !in s
    ensures !Contains(s, part)
  {
    DiffersAt(s, part, k);
    if s != "" { LacksCharacter(s[1..], part, k); }
  }

  /** Neither does text where its first two characters never follow each other. */
  lemma {:induction false} LacksPair(s: string, part: string)
    requires |part| >= 2
    requires forall i :: 0 <= i < |s| - 1 ==> !(s[i] == part[0] && s[i + 1] == part[1])
    ensures !Contains(s, part)
  {
    DiffersAt(s, part, if |s| >= 2 && s[0] != part[0] then 0 else 1);
    if s != "" { LacksPair(s[1..], part); }
  }

  lemma UserErrorClass(field: string)
    requires "user_error" <= field && 'c' !in field && '2' !in field
    ensures StatusClassOf(field) == "4xx"
  {
    LacksCharacter(field, "succeed", 2);
    LacksCharacter(field, "success", 2);
    LacksCharacter(field, "2xx", 0);
  }

  lemma ClientErrorClass(field: string)
    requires "client" <= field && 's' !in field && '2' !in field
    ensures StatusClassOf(field) == "4xx"
  {
    LacksCharacter(field, "succeed", 0);
    LacksCharacter(field, "success", 0);
    LacksCharacter(field, "2xx", 0);
  }

  lemma SystemErrorClass(field: string)
    requires "system_error" <= field && 'u' !in field && 'c' !in field && '2' !in field && '4' !in field
    ensures StatusClassOf(field) == "5xx"
  {
    LacksCharacter(field, "succeed", 1);
    LacksCharacter(field, "success", 1);
    LacksCharacter(field, "2xx", 0);
    LacksCharacter(field, "user_error", 0);
    LacksCharacter(field, "client", 0);
    LacksCharacter(field, "4xx", 0);
  }

  lemma ServerErrorClass(field: string)
    requires "server" <= field && 'd' !in field && 'l' !in field && '2' !in field && '4' !in field
    requires forall i :: 0 <= i < |field| - 1 ==>
               !(field[i] == 's' && field[i + 1] == 'u') && !(field[i] == 'u' && field[i + 1] == 's')
    ensures StatusClassOf(field) == "5xx"
  {
    LacksCharacter(field, "succeed", 6);
    LacksPair(field, "success");
    LacksCharacter(field, "2xx", 0);
    LacksPair(field, "user_error");
    LacksCharacter(field, "client", 1);
    LacksCharacter(field, "4xx", 0);
  }

  lemma ServerPairs()
    ensures var field := "server_error_counter";
            forall i :: 0 <= i < |field| - 1 ==>
                !(field[i] == 's' && field[i + 1] == 'u') && !(field[i] == 'u' && field[i + 1] == 's')
  {
  }

  lemma UserClasses(field: string)
    ensures field == "user_errors" || field == "client_error_counter" ==> StatusClassOf(field) == "4xx"
  {
    if field == "user_errors" {
      UserErrorClass(field);
    } else if field == "client_error_counter" {
      ClientErrorClass(field);
    }
  }

  lemma SystemClasses(field: string)
    ensures field == "system_errors" || field == "server_error_counter" ==> StatusClassOf(field) == "5xx"
  {
    if field == "system_errors" { SystemErrors(field); }
    if field == "server_error_counter" { ServerErrors(field); }
  }

  lemma SystemErrors(field: string)
    requires field == "system_errors"
    ensures StatusClassOf(field) == "5xx"
  {
    SystemErrorClass(field);
  }

  lemma ServerErrors(field: string)
    requires field == "server_error_counter"
    ensures StatusClassOf(field) == "5xx"
  {
    ServerPairs();
    ServerErrorClass(field);
  }

  /** The fields of the request measurements name their status class themselves: successes are 2xx,
      errors of users and clients 4xx, errors of system and server 5xx. */
  lemma FieldClasses(field: string)
    ensures field == "succeed_request_counter" ==> StatusClassOf(field) == "2xx"
    ensures field == "user_errors" || field == "client_error_counter" ==> StatusClassOf(field) == "4xx"
    ensures field == "system_errors" || field == "server_error_counter" ==> StatusClassOf(field) == "5xx"
  {
    UserClasses(field);
    SystemClasses(field);
    if field == "succeed_request_counter" { assert "succeed" <= field; }
  }

  // ---------- the meaning of a row ----------

  const READ_FIELDS := ["read", "read_rate", "read_bytes_per_second", "total_read_requests_size"]
  const WRITE_FIELDS := ["write", "write_rate", "write_bytes_per_second", "total_write_requests_size"]
  const ERROR_FIELDS := ["system_errors", "user_errors", "server_error_counter", "client_error_counter"]

  predicate IsRequest(measurement: string, field: string) {
    || ((measurement == "cq_performance_transaction" || measurement == "cq_performance_transaction_ns")
        && field == "succeed_request_counter")
    || ((measurement == "cq_performance_error" || measurement == "cq_performance_error_ns") && field in ERROR_FIELDS)
  }

  /** When a row yields a series, told metric by metric; what it does not say of the series is as in `base`. */
  ghost predicate Yields(src: Source, base: Sample, measurement: string, field: string, operation: string, unit: string,
                         number: real, p: Sample)
  {
    match p.metric
    case ReadThroughput =>
      && measurement == "cq_performance_throughput" && field in READ_FIELDS
        && Throughput(src, number, unit) == Some(p.value)
      && p == base.(operation := "", statusClass := "", quantile := "", metric := ReadThroughput, value := p.value)
    case WriteThroughput =>
      && measurement == "cq_performance_throughput" && field in WRITE_FIELDS && field !in READ_FIELDS
      && Throughput(src, number, unit) == Some(p.value)
      && p == base.(operation := "", statusClass := "", quantile := "", metric := WriteThroughput, value := p.value)
    case Latency =>
      && measurement == "cq_performance_latency" && LatencySeconds(src, number, unit) == Some(p.value)
      && p.operation == OrElse(base.operation, LatencyOperation(src, operation)) != ""
      && p.quantile == OrElse(base.quantile, NormalizeQuantile(src, field)) != ""
      && p == base.(operation := p.operation, quantile := p.quantile, statusClass := "", metric := Latency,
                    value := p.value)
    case Requests =>
      && IsRequest(measurement, field) && p.value == number
      && p.operation == OrElse(OrElse(base.operation, OperationFromField(src, field)), "all")
      && p.statusClass == OrElse(base.statusClass, ClassOfField(field))
      && p == base.(operation := p.operation, statusClass := p.statusClass, quantile := "", metric := Requests,
                    value := number)
  }

  /** The status class that each field stands for. */
  function ClassOfField(field: string): string {
    if field == "succeed_request_counter" then "2xx"
    else if field == "user_errors" || field == "client_error_counter" then "4xx"
    else "5xx"
  }

  lemma RequestMeaning(src: Source, base: Sample, measurement: string, field: string, number: real)
    requires IsRequest(measurement, field) && src.rd.lower(field) == field
    ensures var p := base.(metric := Requests, quantile := "", value := number,
                           operation := OrElse(OrElse(base.operation, OperationFromField(src, field)), "all"),
                           statusClass := OrElse(base.statusClass, ClassOfField(field)));
            RequestSample(src, base, field, number) == Ok(Some(p))
  {
    FieldClasses(field);
  }

  lemma ThroughputMeaning(src: Source, base: Sample, field: string, operation: string, unit: string, number: real,
                          p: Sample)
    ensures ThroughputSample(src, base, field, number, unit) == Ok(Some(p))
       <==> Yields(src, base, "cq_performance_throughput", field, operation, unit, number, p)
  {
  }

  lemma LatencyMeaning(src: Source, base: Sample, field: string, operation: string, unit: string, number: real,
                       p: Sample)
    ensures LatencySample(src, base, operation, field, number, unit) == Ok(Some(p))
       <==> Yields(src, base, "cq_performance_latency", field, operation, unit, number, p)
  {
  }

  /** Which of the three classifications a measurement leads to, if any. */
  lemma DispatchCases(src: Source, base: Sample, measurement: string, field: string, operation: string, unit: string,
                      number: real)
    ensures var r := Dispatch(src, base, measurement, field, operation, unit, number);
            if measurement == "cq_performance_throughput" then r == ThroughputSample(src, base, field, number, unit)
            else if measurement == "cq_performance_latency"
              then r == LatencySample(src, base, operation, field, number, unit)
            else if IsRequest(measurement, field) then r == RequestSample(src, base, field, number)
            else r.Err? || r == Ok(None)
  {
  }

  lemma RequestYields(src: Source, base: Sample, measurement: string, field: string, operation: string, unit: string,
                      number: real, p: Sample)
    requires IsRequest(measurement, field)
    requires measurement != "cq_performance_throughput" && measurement != "cq_performance_latency"
    ensures Yields(src, base, measurement, field, operation, unit, number, p)
       <==> p == base.(metric := Requests, quantile := "", value := number,
                       operation := OrElse(OrElse(base.operation, OperationFromField(src, field)), "all"),
                       statusClass := OrElse(base.statusClass, ClassOfField(field)))
  {
  }

  /** An accepted row yields exactly the series that its measurement and field stand for. For a field
      in lower case, as rows are read, no request is refused for want of a status class. */
  lemma DispatchMeaning(src: Source, base: Sample, measurement: string, raw: string, operation: string, unit: string,
                        number: real, p: Sample)
    requires src.Valid()
    ensures var field := src.rd.lower(raw);
            (Dispatch(src, base, measurement, field, operation, unit, number) == Ok(Some(p))
             <==> Yields(src, base, measurement, field, operation, unit, number, p))
  {
    var field := src.rd.lower(raw);
    DispatchCases(src, base, measurement, field, operation, unit, number);
    if measurement == "cq_performance_throughput" {
      ThroughputMeaning(src, base, field, operation, unit, number, p);
    } else if measurement == "cq_performance_latency" {
      LatencyMeaning(src, base, field, operation, unit, number, p);
    } else if IsRequest(measurement, field) {
      RequestMeaning(src, base, measurement, field, number);
      RequestYields(src, base, measurement, field, operation, unit, number, p);
    }
  }

  // ---------- which rows are accepted, and what they say, without the reader ----------

  /** The classes, quantiles and operations that a text stands for, once normalised. */
  lemma NormalizersMean(src: Source, value: string)
    ensures var u := src.rd.lower(src.rd.text.Normalize(value, 16));
            && (NormalizeStatusClass(src, value) == "2xx" <==> u == "2xx" || u == "success" || u == "succeed")
            && (NormalizeStatusClass(src, value) == "4xx" <==> u == "4xx" || u == "client_error")
            && (NormalizeStatusClass(src, value) == "5xx" <==> u == "5xx" || u == "error" || u == "server_error")
  {
    ClassesAreFixed(src, value);
    var a, b, c, d := "2xx", "4xx", "5xx", "";
    assert a[0] != b[0] && a[0] != c[0] && b[0] != c[0] && |d| == 0;
  }

  lemma QuantilesMean(src: Source, value: string)
    ensures var u := src.rd.lower(src.rd.text.Normalize(value, 16));
            && (NormalizeQuantile(src, value) == "0.5" <==> u == "p50" || u == "0.5" || u == "50")
            && (NormalizeQuantile(src, value) == "0.95" <==> u == "p95" || u == "0.95" || u == "95")
            && (NormalizeQuantile(src, value) == "0.99" <==> u == "p99" || u == "0.99" || u == "99")
  {
    var a, b, c, d := "0.5", "0.95", "0.99", "";
    assert |a| == 3 && b[3] != c[3] && |b| == |c| == 4 && |d| == 0;
  }

  lemma OperationsMean(src: Source, value: string)
    ensures var u := src.upper(src.rd.text.Normalize(value, 32));
            NormalizeOperation(src, value)
            == if u in {"ALL", "DELETE", "GET", "HEAD", "POST", "PUT", "READ", "WRITE"} then u else ""
    ensures var l := src.rd.lower(src.rd.text.Normalize(value, 64));
            && (l == "ttfb_read" ==> LatencyOperation(src, value) == "READ")
            && (l == "ttlb_write" ==> LatencyOperation(src, value) == "WRITE")
            && (l != "ttfb_read" && l != "ttlb_write" ==>
                  LatencyOperation(src, value) == NormalizeOperation(src, value))
  {
    assert "ttfb_read"[2] != "ttlb_write"[2];
  }

  /** Throughput is in bytes per second, given in them or in decimal multiples of a thousand. */
  lemma ThroughputUnits(src: Source, value: real, unit: string)
    ensures var u := src.upper(src.rd.text.trim(unit));
            && (u == "" || u == "B/S" || u == "BYTE/S" || u == "BYTES/S" ==>
                  Throughput(src, value, unit) == Some(value))
            && (u == "KB/S" ==> Throughput(src, value, unit) == Some(value * 1_000.0))
            && (u == "MB/S" ==> Throughput(src, value, unit) == Some(value * 1_000_000.0))
            && (u == "GB/S" ==> Throughput(src, value, unit) == Some(value * 1_000_000_000.0))
            && (u == "TB/S" ==> Throughput(src, value, unit) == Some(value * 1_000_000_000_000.0))
    ensures Throughput(src, value, unit).Some? <==> KnownThroughput(src, unit)
  {
    var a, b, c, d, e, f, g, h := "", "B/S", "BYTE/S", "BYTES/S", "KB/S", "MB/S", "GB/S", "TB/S";
    assert |a| == 0 && |b| == 3 && |c| == 6 && |d| == 7 && |e| == |f| == |g| == |h| == 4;
    assert e[0] != f[0] && e[0] != g[0] && e[0] != h[0] && f[0] != g[0] && f[0] != h[0] && g[0] != h[0];
  }

  ghost predicate KnownThroughput(src: Source, unit: string) {
    src.upper(src.rd.text.trim(unit)) in {"", "B/S", "BYTE/S", "BYTES/S", "KB/S", "MB/S", "GB/S", "TB/S"}
  }

  /** Latency is in seconds, given in them or, when no unit is named, in milliseconds. */
  lemma LatencyUnits(src: Source, value: real, unit: string)
    ensures var u := src.rd.lower(src.rd.text.trim(unit));
            && (u == "" || u == "ms" || u == "millisecond" || u == "milliseconds" ==>
                  LatencySeconds(src, value, unit) == Some(value / 1_000.0))
            && (u == "s" || u == "second" || u == "seconds" ==> LatencySeconds(src, value, unit) == Some(value))
    ensures LatencySeconds(src, value, unit).Some? <==> KnownLatency(src, unit)
  {
    var a, b, c, d, e, f, g := "", "ms", "millisecond", "milliseconds", "s", "second", "seconds";
    assert |a| == 0 && |b| == 2 && |c| == 11 && |d| == 12 && |e| == 1 && |f| == 6 && |g| == 7;
  }

  ghost predicate KnownLatency(src: Source, unit: string) {
    src.rd.lower(src.rd.text.trim(unit)) in {"", "ms", "millisecond", "milliseconds", "s", "second", "seconds"}
  }

  /** The VDC of a row: the first of three columns that has one, else that of the source. */
  function VdcText(src: Source, index: ColumnIndex, row: seq<string>): string
    requires Fits(index, row)
  {
    var named := FirstOf(CellText(index, row, "vdc"), CellText(index, row, "vdc_name"), CellText(index, row, "zone"));
    if named == "" then src.defaultVdc else named
  }

  function OperationText(index: ColumnIndex, row: seq<string>): string
    requires Fits(index, row)
  {
    FirstOf(CellText(index, row, "operation"), CellText(index, row, "method"), CellText(index, row, "id"))
  }

  function QuantileText(index: ColumnIndex, row: seq<string>): string
    requires Fits(index, row)
  {
    FirstOf(CellText(index, row, "quantile"), CellText(index, row, "percentile"), "")
  }

  lemma ThreeColumns(index: ColumnIndex, row: seq<string>, names: seq<string>)
    requires Fits(index, row) && |names| == 3
    ensures OrEmpty(Dimension(index, row, names))
         == FirstOf(CellText(index, row, names[0]), CellText(index, row, names[1]), CellText(index, row, names[2]))
  {
    TwoColumns(index, row, names[1..]);
  }

  lemma TwoColumns(index: ColumnIndex, row: seq<string>, names: seq<string>)
    requires Fits(index, row) && |names| == 2
    ensures OrEmpty(Dimension(index, row, names))
         == FirstOf(CellText(index, row, names[0]), CellText(index, row, names[1]), "")
  {
    OneColumn(index, row, names[1..]);
  }

  lemma OneColumn(index: ColumnIndex, row: seq<string>, names: seq<string>)
    requires Fits(index, row) && |names| == 1
    ensures OrEmpty(Dimension(index, row, names)) == CellText(index, row, names[0])
  {
    assert names[1..] == [];
  }

  /** The labels that all measurements share, each from its own columns; metric and value are still open. */
  ghost predicate IsBase(src: Source, index: ColumnIndex, row: seq<string>, base: Sample)
    requires Fits(index, row)
  {
    var at := src.rd.time(CellText(index, row, "_time"));
    && base.cluster == src.cluster && base.vdc == src.rd.text.Normalize(VdcText(src, index, row), 128)
    && base.namespace == src.rd.text.Normalize(CellText(index, row, "namespace"), 128)
    && base.operation == NormalizeOperation(src, OperationText(index, row))
    && base.statusClass == NormalizeStatusClass(src, CellText(index, row, "status_class"))
    && base.quantile == NormalizeQuantile(src, QuantileText(index, row))
    && at.Some? && base.collectedAt == (if at.value == src.zero then src.collectedAt else at.value)
    && base.metric == Requests && base.value == 0.0
  }

  lemma BaseMeans(src: Source, index: ColumnIndex, row: seq<string>)
    requires Fits(index, row) && src.rd.time(CellText(index, row, "_time")).Some?
    ensures IsBase(src, index, row, Base(src, index, row, src.rd.time(CellText(index, row, "_time")).value,
                                         src.rd.text.Normalize(VdcText(src, index, row), 128)))
  {
    ThreeColumns(index, row, ["operation", "method", "id"]);
    TwoColumns(index, row, ["quantile", "percentile"]);
    OneColumn(index, row, ["namespace"]);
    OneColumn(index, row, ["status_class"]);
  }

  /** What measurement and field ask for is there. */
  ghost predicate Classifiable(src: Source, base: Sample, measurement: string, field: string, operation: string,
                               unit: string)
  {
    || (&& measurement == "cq_performance_throughput" && KnownThroughput(src, unit)
        && (field in READ_FIELDS || field in WRITE_FIELDS))
    || (&& measurement == "cq_performance_latency" && KnownLatency(src, unit)
        && (base.operation != "" || LatencyOperation(src, operation) != "")
        && (base.quantile != "" || NormalizeQuantile(src, field) != ""))
    || (&& (measurement == "cq_performance_transaction" || measurement == "cq_performance_transaction_ns")
        && (field == "failed_request_counter" || field == "succeed_request_counter"))
    || (&& (measurement == "cq_performance_error" || measurement == "cq_performance_error_ns")
        && field in ERROR_FIELDS)
  }

  lemma MeasurementsDiffer(measurement: string)
    ensures measurement == "cq_performance_throughput" ==>
              measurement != "cq_performance_latency" && measurement != "cq_performance_transaction"
              && measurement != "cq_performance_transaction_ns" && measurement != "cq_performance_error"
              && measurement != "cq_performance_error_ns"
    ensures measurement == "cq_performance_latency" ==>
              measurement != "cq_performance_transaction" && measurement != "cq_performance_transaction_ns"
              && measurement != "cq_performance_error" && measurement != "cq_performance_error_ns"
    ensures measurement == "cq_performance_transaction" || measurement == "cq_performance_transaction_ns" ==>
              measurement != "cq_performance_error" && measurement != "cq_performance_error_ns"
  {
    assert "cq_performance_throughput"[16] != "cq_performance_transaction"[16];
    assert "cq_performance_throughput"[16] != "cq_performance_transaction_ns"[16];
    assert "cq_performance_throughput"[15] != "cq_performance_latency"[15];
    assert "cq_performance_throughput"[15] != "cq_performance_error"[15];
    assert "cq_performance_throughput"[15] != "cq_performance_error_ns"[15];
    assert "cq_performance_latency"[15] != "cq_performance_transaction"[15];
    assert "cq_performance_latency"[15] != "cq_performance_transaction_ns"[15];
    assert "cq_performance_latency"[15] != "cq_performance_error"[15];
    assert "cq_performance_latency"[15] != "cq_performance_error_ns"[15];
    assert "cq_performance_transaction"[15] != "cq_performance_error"[15];
    assert "cq_performance_transaction"[15] != "cq_performance_error_ns"[15];
    assert "cq_performance_transaction_ns"[15] != "cq_performance_error"[15];
    assert "cq_performance_transaction_ns"[15] != "cq_performance_error_ns"[15];
  }

  lemma DispatchAccepts(src: Source, base: Sample, measurement: string, field: string, operation: string, unit: string,
                        number: real)
    requires src.rd.lower(field) == field
    ensures Dispatch(src, base, measurement, field, operation, unit, number).Ok?
       <==> Classifiable(src, base, measurement, field, operation, unit)
  {
    MeasurementsDiffer(measurement);
    ThroughputUnits(src, number, unit);
    LatencyUnits(src, number, unit);
    if IsRequest(measurement, field) { RequestMeaning(src, base, measurement, field, number); }
  }

  /** When a row is readable, told without the reader. */
  ghost predicate RowOk(src: Source, index: ColumnIndex, row: seq<string>, base: Sample)
    requires Fits(index, row)
  {
    var number := src.rd.number(CellText(index, row, "_value"));
    && Timely(src.rd, index, row) && number.Some? && number.value >= 0.0
    && src.cluster != "" && src.rd.text.Normalize(VdcText(src, index, row), 128) != ""
    && Classifiable(src, base, src.rd.lower(CellText(index, row, "_measurement")),
                    src.rd.lower(CellText(index, row, "_field")), OperationText(index, row),
                    CellText(index, row, "unit"))
  }

  /** What the reader does with a row whose time, value and VDC are right. */
  lemma RowIsDispatched(src: Source, index: ColumnIndex, row: seq<string>, base: Sample)
    requires Fits(index, row) && forall k :: 0 <= k < |REQUIRED| ==> REQUIRED[k] in index
    requires Timely(src.rd, index, row) && IsBase(src, index, row, base)
    requires src.rd.number(CellText(index, row, "_value")).Some?
    requires src.rd.number(CellText(index, row, "_value")).value >= 0.0
    requires src.cluster != "" && src.rd.text.Normalize(VdcText(src, index, row), 128) != ""
    ensures ReadRow(src, index, row)
         == Dispatch(src, base, src.rd.lower(CellText(index, row, "_measurement")),
                     src.rd.lower(CellText(index, row, "_field")), OperationText(index, row),
                     CellText(index, row, "unit"), src.rd.number(CellText(index, row, "_value")).value)
  {
    assert REQUIRED[0] in index && REQUIRED[1] in index && REQUIRED[2] in index && REQUIRED[3] in index;
    TimelyMeans(src.rd, index, row);
    ThreeColumns(index, row, ["vdc", "vdc_name", "zone"]);
    ThreeColumns(index, row, ["operation", "method", "id"]);
    OneColumn(index, row, ["unit"]);
    BaseMeans(src, index, row);
  }

  lemma OtherRowsFail(src: Source, index: ColumnIndex, row: seq<string>)
    requires Fits(index, row) && forall k :: 0 <= k < |REQUIRED| ==> REQUIRED[k] in index
    requires ReadRow(src, index, row).Ok?
    ensures Timely(src.rd, index, row) && src.rd.number(CellText(index, row, "_value")).Some?
    ensures src.rd.number(CellText(index, row, "_value")).value >= 0.0
    ensures src.cluster != "" && src.rd.text.Normalize(VdcText(src, index, row), 128) != ""
  {
    assert REQUIRED[0] in index && REQUIRED[1] in index && REQUIRED[2] in index && REQUIRED[3] in index;
    TimelyMeans(src.rd, index, row);
    ThreeColumns(index, row, ["vdc", "vdc_name", "zone"]);
  }

  /** A row is accepted exactly when it is readable. */
  lemma RowAccepted(src: Source, index: ColumnIndex, row: seq<string>, base: Sample)
    requires src.Valid() && Fits(index, row) && forall k :: 0 <= k < |REQUIRED| ==> REQUIRED[k] in index
    requires src.rd.time(CellText(index, row, "_time")).Some? ==> IsBase(src, index, row, base)
    ensures ReadRow(src, index, row).Ok? <==> RowOk(src, index, row, base)
  {
    if ReadRow(src, index, row).Ok? || RowOk(src, index, row, base) {
      if ReadRow(src, index, row).Ok? { OtherRowsFail(src, index, row); }
      RowIsDispatched(src, index, row, base);
      DispatchAccepts(src, base, src.rd.lower(CellText(index, row, "_measurement")),
                      src.rd.lower(CellText(index, row, "_field")), OperationText(index, row),
                      CellText(index, row, "unit"), src.rd.number(CellText(index, row, "_value")).value);
    }
  }

  /** An accepted row yields exactly the series that its columns tell of, if any. */
  lemma RowYields(src: Source, index: ColumnIndex, row: seq<string>, base: Sample, p: Sample)
    requires src.Valid() && Fits(index, row) && forall k :: 0 <= k < |REQUIRED| ==> REQUIRED[k] in index
    requires IsBase(src, index, row, base) && ReadRow(src, index, row).Ok?
    ensures src.rd.number(CellText(index, row, "_value")).Some?
    ensures ReadRow(src, index, row) == Ok(Some(p))
       <==> Yields(src, base, src.rd.lower(CellText(index, row, "_measurement")),
                   src.rd.lower(CellText(index, row, "_field")), OperationText(index, row),
                   CellText(index, row, "unit"), src.rd.number(CellText(index, row, "_value")).value, p)
  {
    OtherRowsFail(src, index, row);
    RowIsDispatched(src, index, row, base);
    DispatchMeaning(src, base, src.rd.lower(CellText(index, row, "_measurement")), CellText(index, row, "_field"),
                    OperationText(index, row), CellText(index, row, "unit"),
                    src.rd.number(CellText(index, row, "_value")).value, p);
  }

  function ReadLine(src: Source, l: Line): Result<Option<Sample>> {
    if !HeaderOk(l.columns, REQUIRED) then Err("Flux header")
    else if |l.row| != |l.columns| then Err("performance Flux row length does not match columns")
    else ReadRow(src, IndexOf(l.columns), l.row)
  }

  /** A line is readable when its header is good, it is as long as that, and its row is. */
  ghost predicate LineOk(src: Source, l: Line) {
    && HeaderOk(l.columns, REQUIRED) && |l.row| == |l.columns|
    && exists base :: IsBase(src, IndexOf(l.columns), l.row, base) && RowOk(src, IndexOf(l.columns), l.row, base)
  }

  lemma LineAccepted(src: Source, l: Line)
    requires src.Valid()
    ensures ReadLine(src, l).Ok? <==> LineOk(src, l)
  {
    if HeaderOk(l.columns, REQUIRED) && |l.row| == |l.columns| {
      var index := IndexOf(l.columns);
      if ReadLine(src, l).Ok? {
        OtherRowsFail(src, index, l.row);
        var base := Base(src, index, l.row, src.rd.time(CellText(index, l.row, "_time")).value,
                         src.rd.text.Normalize(VdcText(src, index, l.row), 128));
        BaseMeans(src, index, l.row);
        RowAccepted(src, index, l.row, base);
      }
      if base :| IsBase(src, index, l.row, base) && RowOk(src, index, l.row, base) {
        RowAccepted(src, index, l.row, base);
      }
    }
  }

  // ---------- labels and keys ----------

  function Labels(p: Sample): seq<string> {
    [p.cluster, p.vdc, p.namespace, MetricName(p.metric), p.operation, p.statusClass, p.quantile]
  }

  /** `strings.Join` with a NUL byte. */
  function Join(parts: seq<string>): string
    requires parts != []
  {
    if |parts| == 1 then parts[0] else Key(parts[0], Join(parts[1..]))
  }

  function PerformanceKey(p: Sample): string {
    Join(Labels(p))
  }

  ghost predicate AllNulFree(parts: seq<string>) {
    forall i :: 0 <= i < |parts| ==> NulFree(parts[i])
  }

  lemma {:induction false} JoinInjective(a: seq<string>, b: seq<string>)
    requires |a| == |b| > 0 && AllNulFree(a) && AllNulFree(b) && Join(a) == Join(b)
    ensures a == b
  {
    if |a| > 1 {
      KeyInjective(a[0], Join(a[1..]), b[0], Join(b[1..]));
      JoinInjective(a[1..], b[1..]);
      assert a == [a[0]] + a[1..] && b == [b[0]] + b[1..];
    }
  }

  /** The labels that a metric does not use are empty and those it uses are not. */
  predicate ShapeOk(p: Sample) {
    && p.cluster != "" && p.vdc != ""
    && match p.metric
       case ReadThroughput => p.operation == "" && p.statusClass == "" && p.quantile == ""
       case WriteThroughput => p.operation == "" && p.statusClass == "" && p.quantile == ""
       case Latency => p.operation != "" && p.statusClass == "" && p.quantile in ["0.5", "0.95", "0.99"]
       case Requests => p.operation != "" && p.statusClass in ["2xx", "4xx", "5xx"] && p.quantile == ""
  }

  ghost predicate NulFreeLabels(p: Sample) {
    && NulFree(p.cluster) && NulFree(p.vdc) && NulFree(p.namespace)
    && NulFree(p.operation) && NulFree(p.statusClass) && NulFree(p.quantile)
  }

  ghost predicate Plain(src: Source, p: Sample) {
    p.cluster == src.cluster && NulFreeLabels(p) && ShapeOk(p) && p.value >= 0.0
  }

  lemma LabelsAreNulFree(p: Sample)
    requires NulFreeLabels(p)
    ensures AllNulFree(Labels(p))
  {
    assert NulFree(MetricName(p.metric));
  }

  lemma OperationsArePlain(src: Source, value: string)
    ensures NulFree(NormalizeOperation(src, value)) && NulFree(LatencyOperation(src, value))
    ensures NulFree(OperationFromField(src, value))
  {
    CandidatesArePlain(src.rd.lower(value), FIELD_OPERATIONS);
  }

  lemma {:induction false} CandidatesArePlain(lower: string, candidates: seq<(string, string)>)
    requires forall i :: 0 <= i < |candidates| ==> NulFree(candidates[i].1)
    ensures NulFree(OperationIn(lower, candidates))
  {
    if candidates != [] { CandidatesArePlain(lower, candidates[1..]); }
  }

  /** What is known of a row's labels before its measurement is looked at. */
  ghost predicate BaseOk(src: Source, base: Sample) {
    && base.cluster == src.cluster != "" && base.vdc != "" && NulFreeLabels(base)
    && base.statusClass in ["", "2xx", "4xx", "5xx"] && base.quantile in ["", "0.5", "0.95", "0.99"]
  }

  ghost predicate PlainIfAny(src: Source, r: Result<Option<Sample>>) {
    r.Ok? && r.value.Some? ==> Plain(src, r.value.value)
  }

  lemma ThroughputIsPlain(src: Source, base: Sample, field: string, number: real, unit: string)
    requires BaseOk(src, base) && number >= 0.0
    ensures PlainIfAny(src, ThroughputSample(src, base, field, number, unit))
  {
  }

  const QUANTILES := ["", "0.5", "0.95", "0.99"]
  const STATUS_CLASSES := ["", "2xx", "4xx", "5xx"]

  lemma PlainLatency(src: Source, base: Sample, op: string, quantile: string, seconds: Option<real>)
    requires BaseOk(src, base) && NulFree(op) && NulFree(quantile) && quantile in QUANTILES
    requires seconds.Some? ==> seconds.value >= 0.0
    ensures PlainIfAny(src, LatencyOf(base, op, quantile, seconds))
  {
  }

  lemma PlainRequest(src: Source, base: Sample, op: string, status: string, value: real)
    requires BaseOk(src, base) && NulFree(op) && NulFree(status) && op != "" && value >= 0.0
    requires status in STATUS_CLASSES && status != ""
    ensures Plain(src, base.(metric := Requests, operation := op, statusClass := status, quantile := "",
                             value := value))
  {
  }

  lemma LatencyIsPlain(src: Source, base: Sample, operation: string, field: string, number: real, unit: string)
    requires BaseOk(src, base) && number >= 0.0
    ensures PlainIfAny(src, LatencySample(src, base, operation, field, number, unit))
  {
    var quantile := OrElse(base.quantile, NormalizeQuantile(src, field));
    OperationsArePlain(src, operation);
    ClassesAreFixed(src, field);
    FixedArePlain(quantile);
    PlainLatency(src, base, OrElse(base.operation, LatencyOperation(src, operation)), quantile,
                 LatencySeconds(src, number, unit));
  }

  lemma StatusIsPlain(field: string)
    ensures StatusClassOf(field) in ["", "2xx", "4xx", "5xx"]
  {
  }

  lemma RequestIsPlain(src: Source, base: Sample, field: string, number: real)
    requires BaseOk(src, base) && number >= 0.0
    ensures PlainIfAny(src, RequestSample(src, base, field, number))
  {
    OperationsArePlain(src, field);
    StatusIsPlain(src.rd.lower(field));
    FixedArePlain(StatusClassOf(src.rd.lower(field)));
    var op := OrElse(OrElse(base.operation, OperationFromField(src, field)), "all");
    var status := if base.statusClass == "" then StatusClassOf(src.rd.lower(field)) else base.statusClass;
    if status != "" {
      PlainRequest(src, base, op, status, number);
    }
  }

  lemma DispatchIsPlain(src: Source, base: Sample, measurement: string, field: string, operation: string, unit: string,
                        number: real)
    requires BaseOk(src, base) && number >= 0.0
    ensures PlainIfAny(src, Dispatch(src, base, measurement, field, operation, unit, number))
  {
    var r := Dispatch(src, base, measurement, field, operation, unit, number);
    if r == ThroughputSample(src, base, field, number, unit) {
      ThroughputIsPlain(src, base, field, number, unit);
    } else if r == LatencySample(src, base, operation, field, number, unit) {
      LatencyIsPlain(src, base, operation, field, number, unit);
    } else if r == RequestSample(src, base, field, number) {
      RequestIsPlain(src, base, field, number);
    } else {
      assert r.Err? || r == Ok(None);
    }
  }

  lemma ClassesAreFixed(src: Source, value: string)
    ensures NormalizeStatusClass(src, value) in ["", "2xx", "4xx", "5xx"]
    ensures NormalizeQuantile(src, value) in ["", "0.5", "0.95", "0.99"]
  {
  }

  lemma FixedArePlain(value: string)
    requires value in ["", "2xx", "4xx", "5xx"] || value in ["", "0.5", "0.95", "0.99"]
    ensures NulFree(value)
  {
  }

  lemma BaseIsOk(src: Source, index: ColumnIndex, row: seq<string>, sampleTime: int, vdc: string)
    requires src.Valid() && src.cluster != "" && Fits(index, row) && src.rd.text.Normalize(vdc, 128) != ""
    ensures BaseOk(src, Base(src, index, row, sampleTime, src.rd.text.Normalize(vdc, 128)))
  {
    var status := OrEmpty(Dimension(index, row, ["status_class"]));
    var quantile := OrEmpty(Dimension(index, row, ["quantile", "percentile"]));
    NormalizedIsNulFree(src.rd.text, vdc, 128);
    NormalizedIsNulFree(src.rd.text, OrEmpty(Dimension(index, row, ["namespace"])), 128);
    OperationsArePlain(src, OrEmpty(Dimension(index, row, ["operation", "method", "id"])));
    ClassesAreFixed(src, status);
    ClassesAreFixed(src, quantile);
    FixedArePlain(NormalizeStatusClass(src, status));
    FixedArePlain(NormalizeQuantile(src, quantile));
  }

  lemma RowIsPlain(src: Source, index: ColumnIndex, row: seq<string>)
    requires src.Valid() && Fits(index, row) && forall k :: 0 <= k < |REQUIRED| ==> REQUIRED[k] in index
    ensures PlainIfAny(src, ReadRow(src, index, row))
  {
    assert REQUIRED[0] in index && REQUIRED[1] in index && REQUIRED[2] in index && REQUIRED[3] in index;
    var vdc := OrElse(OrEmpty(Dimension(index, row, ["vdc", "vdc_name", "zone"])), src.defaultVdc);
    if ReadRow(src, index, row).Ok? {
      var sampleTime := src.rd.time(row[index["_time"]]).value;
      BaseIsOk(src, index, row, sampleTime, vdc);
      DispatchIsPlain(src, Base(src, index, row, sampleTime, src.rd.text.Normalize(vdc, 128)),
                      src.rd.lower(row[index["_measurement"]]), src.rd.lower(row[index["_field"]]),
                      OrEmpty(Dimension(index, row, ["operation", "method", "id"])),
                      OrEmpty(Dimension(index, row, ["unit"])), src.rd.number(row[index["_value"]]).value);
    }
  }

  /** Every accepted row has labels free of NUL bytes, empty exactly where its metric has none. */
  lemma RowsArePlain(src: Source, l: Line)
    requires src.Valid()
    ensures PlainIfAny(src, ReadLine(src, l))
  {
    if HeaderOk(l.columns, REQUIRED) && |l.row| == |l.columns| {
      RowIsPlain(src, IndexOf(l.columns), l.row);
    }
  }

  lemma KeysAreLabels(src: Source, p: Sample, q: Sample)
    requires Plain(src, p) && Plain(src, q)
    ensures PerformanceKey(p) == PerformanceKey(q) <==> Labels(p) == Labels(q)
  {
    if PerformanceKey(p) == PerformanceKey(q) {
      LabelsAreNulFree(p);
      LabelsAreNulFree(q);
      JoinInjective(Labels(p), Labels(q));
    }
  }
}
