/**
 Flux tables: named columns and rows of strings, as decoded from the query endpoint, and
 the checks every table goes through. The library routines that read timestamps and
 numbers and change case are parameters.
 */
module Flux {
  import opened Common
  import opened Text

  datatype Reader = Reader(text: Library, time: string -> Option<int>, number: string -> Option<real>,
                           lower: string -> string)

  datatype Series = Series(columns: seq<string>, values: seq<seq<string>>) {
    /** An empty placeholder series is skipped. */
    predicate Empty() {
      columns == [] && values == []
    }
  }

  predicate HeaderOk(columns: seq<string>, required: seq<string>) {
    && (forall i, j :: 0 <= i < j < |columns| ==> columns[i] != columns[j])
    && (forall k :: 0 <= k < |required| ==> required[k] in columns)
  }

  type ColumnIndex = map<string, nat>

  function IndexOf(columns: seq<string>): (m: ColumnIndex)
    requires Distinct(columns)
    ensures forall name :: name in m <==> name in columns
    ensures forall name :: name in m ==> m[name] < |columns| && columns[m[name]] == name
  {
    map i: nat | i < |columns| :: columns[i] := i
  }

  /** The header loops: no column twice, every required column present. */
  method BuildIndex(columns: seq<string>, required: seq<string>) returns (r: Result<ColumnIndex>)
    ensures r.Ok? <==> HeaderOk(columns, required)
    ensures r.Ok? ==> r.value == IndexOf(columns)
  {
    var index: ColumnIndex := map[];
    for k := 0 to |columns|
      invariant forall i, j :: 0 <= i < j < k ==> columns[i] != columns[j]
      invariant forall i :: 0 <= i < k ==> columns[i] in index && index[columns[i]] == i
      invariant forall name :: name in index ==> index[name] < k && columns[index[name]] == name
    {
      if columns[k] in index {
        assert columns[index[columns[k]]] == columns[k];
        return Err("Flux series contains duplicate column");
      }
      index := index[columns[k] := k];
    }
    SameIndex(columns, index);
    var complete := HasRequired(index, required);
    r := if complete then Ok(index) else Err("Flux series is missing required column");
  }

  method HasRequired(index: ColumnIndex, required: seq<string>) returns (ok: bool)
    ensures ok <==> forall k :: 0 <= k < |required| ==> required[k] in index
  {
    for k := 0 to |required|
      invariant forall j :: 0 <= j < k ==> required[j] in index
    {
      if required[k] !in index {
        return false;
      }
    }
    ok := true;
  }

  lemma SameIndex(columns: seq<string>, index: ColumnIndex)
    requires Distinct(columns)
    requires forall i :: 0 <= i < |columns| ==> columns[i] in index && index[columns[i]] == i
    requires forall name :: name in index ==> index[name] < |columns| && columns[index[name]] == name
    ensures index == IndexOf(columns)
  {
    var m := IndexOf(columns);
    assert forall name :: name in index <==> name in m;
  }

  /** The indexes of a table point into each of its rows. */
  ghost predicate Fits(index: ColumnIndex, row: seq<string>) {
    forall name :: name in index ==> index[name] < |row|
  }

  /** `fluxDimension`: the first of the named columns that exists and is not empty. */
  function Dimension(index: ColumnIndex, row: seq<string>, names: seq<string>): Option<string>
    requires Fits(index, row)
  {
    if names == [] then None
    else if names[0] in index && row[index[names[0]]] != "" then Some(row[index[names[0]]])
    else Dimension(index, row, names[1..])
  }

  /** `validateFluxRange`: either no range columns, or a half-open range around the sample. */
  predicate RangeOk(rd: Reader, index: ColumnIndex, row: seq<string>, sample: int)
    requires Fits(index, row)
  {
    if "_start" !in index && "_stop" !in index then true
    else
      && "_start" in index && "_stop" in index
      && var start := rd.time(row[index["_start"]]);
         var stop := rd.time(row[index["_stop"]]);
      && start.Some? && stop.Some? && start.value <= sample < stop.value
  }

  /** A column's text, empty when there is no such column. */
  function CellText(index: ColumnIndex, row: seq<string>, name: string): string
    requires Fits(index, row)
  {
    if name in index then row[index[name]] else ""
  }

  function FirstOf(a: string, b: string, c: string): string {
    if a != "" then a else if b != "" then b else c
  }

  /** The time of the row reads; and it has no range columns, or both, which read too, and its time is
      not before the start and before the stop. */
  ghost predicate Timely(rd: Reader, index: ColumnIndex, row: seq<string>)
    requires Fits(index, row)
  {
    var at := rd.time(CellText(index, row, "_time"));
    && at.Some?
    && (|| ("_start" !in index && "_stop" !in index)
        || (&& "_start" in index && "_stop" in index
            && rd.time(CellText(index, row, "_start")).Some? && rd.time(CellText(index, row, "_stop")).Some?
            && rd.time(CellText(index, row, "_start")).value <= at.value
            && at.value < rd.time(CellText(index, row, "_stop")).value))
  }

  lemma TimelyMeans(rd: Reader, index: ColumnIndex, row: seq<string>)
    requires Fits(index, row) && "_time" in index
    ensures Timely(rd, index, row)
       <==> rd.time(row[index["_time"]]).Some? && RangeOk(rd, index, row, rd.time(row[index["_time"]]).value)
  {
  }

  /** A row together with the columns it belongs to. */
  datatype Line = Line(columns: seq<string>, row: seq<string>)

  function LinesOf(s: Series): (r: seq<Line>)
    ensures |r| == |s.values| && forall i :: 0 <= i < |r| ==> r[i] == Line(s.columns, s.values[i])
  {
    seq(|s.values|, i requires 0 <= i < |s.values| => Line(s.columns, s.values[i]))
  }

  /** All rows of a payload, series after series. */
  function Lines(payload: seq<Series>): seq<Line> {
    if payload == [] then [] else Lines(payload[..|payload| - 1]) + LinesOf(payload[|payload| - 1])
  }

  function Headers(payload: seq<Series>): set<seq<string>> {
    set s | s in payload && !s.Empty() :: s.columns
  }

  ghost predicate HeadersOk(payload: seq<Series>, required: seq<string>) {
    forall s :: s in payload && !s.Empty() ==> HeaderOk(s.columns, required)
  }

  /** The same rows under the same headers, in any order of series and of rows. */
  ghost predicate SamePayload(a: seq<Series>, b: seq<Series>) {
    multiset(Lines(a)) == multiset(Lines(b)) && Headers(a) == Headers(b)
  }

  lemma HeadersDecide(a: seq<Series>, b: seq<Series>, required: seq<string>)
    requires Headers(a) == Headers(b)
    ensures HeadersOk(a, required) <==> HeadersOk(b, required)
  {
    forall s | s in a && !s.Empty() ensures exists t :: t in b && !t.Empty() && t.columns == s.columns {
      assert s.columns in Headers(a);
    }
    forall t | t in b && !t.Empty() ensures exists s :: s in a && !s.Empty() && s.columns == t.columns {
      assert t.columns in Headers(b);
    }
  }

  lemma LinesLast(x: seq<Series>, s: Series)
    ensures Lines(x + [s]) == Lines(x) + LinesOf(s)
  {
    assert (x + [s])[..|x|] == x;
  }

  lemma {:induction false} LinesConcat(x: seq<Series>, y: seq<Series>)
    ensures Lines(x + y) == Lines(x) + Lines(y)
  {
    if y == [] {
      assert x + y == x;
    } else {
      var front, last := y[..|y| - 1], y[|y| - 1];
      assert y == front + [last];
      assert x + y == (x + front) + [last];
      LinesConcat(x, front);
      LinesLast(x + front, last);
      LinesLast(front, last);
    }
  }

  lemma LinesOfOne(s: Series)
    ensures Lines([s]) == LinesOf(s)
  {
    assert [s][..0] == [];
  }

  lemma RowsPermute(s: Series, t: Series)
    requires s.columns == t.columns && multiset(s.values) == multiset(t.values)
    ensures multiset(LinesOf(s)) == multiset(LinesOf(t)) && (s.Empty() <==> t.Empty())
  {
    SameLength(s.values, t.values);
    var line := (row: seq<string>) => Line(s.columns, row);
    MapPermutation(s.values, t.values, line);
    assert LinesOf(s) == Map(s.values, line) && LinesOf(t) == Map(t.values, line);
  }

  lemma LinesAround(before: seq<Series>, s: Series, after: seq<Series>)
    ensures Lines(before + [s] + after) == Lines(before) + LinesOf(s) + Lines(after)
  {
    LinesOfOne(s);
    LinesConcat(before + [s], after);
    LinesConcat(before, [s]);
  }

  lemma HeadersAround(before: seq<Series>, s: Series, after: seq<Series>)
    ensures Headers(before + [s] + after) == Headers(before) + (if s.Empty() then {} else {s.columns}) + Headers(after)
  {
    var x := before + [s] + after;
    assert forall u :: u in x <==> u in before || u == s || u in after;
  }

  lemma Sandwich(a: seq<Line>, m: seq<Line>, n: seq<Line>, b: seq<Line>)
    requires multiset(m) == multiset(n)
    ensures multiset(a + m + b) == multiset(a + n + b)
  {
  }

  /** Permuting the rows of one series gives the same payload. */
  lemma PermutedRows(before: seq<Series>, s: Series, t: Series, after: seq<Series>)
    requires s.columns == t.columns && multiset(s.values) == multiset(t.values)
    ensures SamePayload(before + [s] + after, before + [t] + after)
  {
    RowsPermute(s, t);
    LinesAround(before, s, after);
    LinesAround(before, t, after);
    Sandwich(Lines(before), LinesOf(s), LinesOf(t), Lines(after));
    HeadersAround(before, s, after);
    HeadersAround(before, t, after);
  }

  // ---------- one series after another ----------

  lemma LinesStep(payload: seq<Series>, k: nat)
    requires k < |payload|
    ensures Lines(payload[..k + 1]) == Lines(payload[..k]) + LinesOf(payload[k])
    ensures forall s :: s in payload[..k + 1] <==> s in payload[..k] || s == payload[k]
  {
    Cut(payload, k);
    LinesLast(payload[..k], payload[k]);
  }

  lemma LinesSplit(payload: seq<Series>, k: nat)
    requires k < |payload|
    ensures Lines(payload) == Lines(payload[..k]) + LinesOf(payload[k]) + Lines(payload[k + 1..])
  {
    Cut(payload, k);
    LinesAround(payload[..k], payload[k], payload[k + 1..]);
  }

  // ---------- any order of series ----------

  lemma LinesApart(b: seq<Series>, i: nat)
    requires i < |b|
    ensures multiset(Lines(b)) == multiset(Lines(b[..i] + b[i + 1..])) + multiset(LinesOf(b[i]))
  {
    LinesSplit(b, i);
    LinesConcat(b[..i], b[i + 1..]);
  }

  lemma {:induction false} LinesPermute(a: seq<Series>, b: seq<Series>)
    requires multiset(a) == multiset(b)
    ensures multiset(Lines(a)) == multiset(Lines(b))
  {
    if a == [] {
      SameLength(a, b);
      assert b == a;
    } else {
      var last := |a| - 1;
      InSequence(a[last], a, b);
      var i :| 0 <= i < |b| && b[i] == a[last];
      RemoveAt(b, i);
      RemoveAt(a, last);
      assert a[..last] + a[last + 1..] == a[..last];
      LinesPermute(a[..last], b[..i] + b[i + 1..]);
      LinesApart(b, i);
    }
  }

  /** Any permutation of the series gives the same payload. */
  lemma PermutedSeries(a: seq<Series>, b: seq<Series>)
    requires multiset(a) == multiset(b)
    ensures SamePayload(a, b)
  {
    LinesPermute(a, b);
    forall s ensures s in a <==> s in b {
      InSequence(s, a, b);
    }
  }
}
