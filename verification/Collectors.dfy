/**
 Whole collectors, from the answers of the management API to the store. Each of them publishes
 its domain at most once, as the last thing it does: an error leaves contents and generations
 as they were, a disabled capability too, and a success bumps exactly its own generation.
 */
module Collectors {
  import opened Common
  import opened HeapReplications
  import opened HeapFlats
  import opened Recovery
  import opened Lifecycle
  import opened Cache
  import Listing
  import Flux
  import Performance
  import PerformanceSeries

  /** How a collector returns: with an error, with nothing done, or having published. */
  datatype Return = Failed | Nothing | Published

  /** What every collector keeps to. */
  ghost predicate Lawful(r: Return, before: Domains, after: Domains, generationsBefore: Generations,
                         generationsAfter: Generations, name: string, resource: string) {
    if r.Published? then generationsAfter == Bumped(generationsBefore, name, resource)
    else after == before && generationsAfter == generationsBefore
  }

  // ---------- replication and recovery ----------

  /** The links are read one after another; any failing answer fails the collector. */
  method ReadLinks(links: seq<string>, answer: string -> Option<Replication>) returns (r: Option<seq<Replication>>)
    ensures r.Some? <==> forall id :: id in links ==> answer(id).Some?
    ensures r.Some? ==> |r.value| == |links| && forall i :: 0 <= i < |links| ==> Some(r.value[i]) == answer(links[i])
  {
    var values: seq<Replication> := [];
    for k := 0 to |links|
      invariant |values| == k && forall i :: 0 <= i < k ==> Some(values[i]) == answer(links[i])
    {
      var value := answer(links[k]);
      if value.None? {
        return None;
      }
      values := values + [value.value];
    }
    r := Some(values);
  }

  /** `CollectReplication`: groups, then links. */
  method CollectReplication(s: Store, name: string, bootstrapped: bool, groups: seq<string>, links: seq<string>,
                            group: string -> Option<Replication>, link: string -> Option<Replication>)
    returns (r: Return, ghost values: seq<Replication>)
    requires s.Valid()
    modifies s.Repr()
    ensures s.Valid() && s.states == old(s.states) && !r.Nothing?
    ensures Lawful(r, old(s.Contents()), s.Contents(), old(s.generations), s.generations, name, "replication")
    ensures r.Published? <==>
              bootstrapped && (forall id :: id in groups ==> group(id).Some?) && forall id ::
                  id in links ==> link(id).Some?
    ensures r.Published? ==>
              && s.Contents() == WithReplications(old(s.Contents()), name, values) && |values| == |groups| + |links|
              && (forall i :: 0 <= i < |groups| ==> Some(values[i]) == group(groups[i]))
              && (forall i :: 0 <= i < |links| ==> Some(values[|groups| + i]) == link(links[i]))
  {
    values := [];
    if !bootstrapped {
      return Failed, values;
    }
    var first := ReadLinks(groups, group);
    if first.None? {
      return Failed, values;
    }
    var second := ReadLinks(links, link);
    if second.None? {
      return Failed, values;
    }
    values := first.value + second.value;
    var records, area := NewEntries(first.value + second.value);
    ghost var more := s.ReplaceReplications(name, records, values, area);
    r := Published;
  }

  /** `CollectRecovery`: the links' progress is merged into what is stored. */
  method CollectRecovery(s: Store, name: string, bootstrapped: bool, enabled: bool, links: seq<string>,
                         answer: string -> Option<Replication>)
    returns (r: Return, ghost values: seq<Replication>)
    requires s.Valid()
    modifies s.Repr()
    ensures s.Valid() && s.states == old(s.states)
    ensures Lawful(r, old(s.Contents()), s.Contents(), old(s.generations), s.generations, name, "recovery")
    ensures r.Nothing? <==> bootstrapped && !enabled
    ensures r.Published? <==> bootstrapped && enabled && forall id :: id in links ==> answer(id).Some?
    ensures r.Published? ==> name in s.Contents() && |values| == |links|
    ensures r.Published? ==>
              && (forall i :: 0 <= i < |links| ==> Some(values[i]) == answer(links[i]))
              && RecoveryMerged(DomainAt(old(s.Contents()), name).replications, values, s.Contents()[name].replications)
              && s.Contents() == WithReplications(old(s.Contents()), name, s.Contents()[name].replications)
  {
    values := [];
    if !bootstrapped {
      return Failed, values;
    }
    if !enabled {
      return Nothing, values;
    }
    var read := ReadLinks(links, answer);
    if read.None? {
      return Failed, values;
    }
    values := read.value;
    var records, area := NewEntries(read.value);
    ghost var more, result := s.MergeRecovery(name, records, values, area);
    r := Published;
  }

  // ---------- performance ----------

  /** The VDC of the first record with the cluster's name. */
  function VdcIn(clusters: seq<Flat>, name: string): string {
    if clusters == [] then ""
    else if clusters[0].facts.ClusterFacts? && clusters[0].facts.name == name then clusters[0].facts.vdc
    else VdcIn(clusters[1..], name)
  }

  /** The VDC that a stored record tells for the cluster of that name, none when there is no record. */
  lemma {:induction false} VdcIsStored(clusters: seq<Flat>, v: Flat)
    requires DistinctKeys(clusters, FlatKey) && v in clusters && v.facts.ClusterFacts?
    ensures VdcIn(clusters, v.facts.name) == v.facts.vdc
  {
    if clusters[0] != v {
      var rest := clusters[1..];
      var k :| 1 <= k < |clusters| && clusters[k] == v;
      assert rest[k - 1] == v && FlatKey(clusters[0]) != FlatKey(clusters[k]);
      VdcIsStored(rest, v);
    }
  }

  lemma {:induction false} NoVdcIsStored(clusters: seq<Flat>, name: string)
    requires forall v :: v in clusters && v.facts.ClusterFacts? ==> v.facts.name != name
    ensures VdcIn(clusters, name) == ""
  {
    if clusters != [] { NoVdcIsStored(clusters[1..], name); }
  }

  /** The loop over the clusters of a snapshot. */
  method FindVdc(clusters: array<FlatRecord>, name: string, ghost values: seq<Flat>, ghost area: set<object>)
    returns (vdc: string)
    requires FlatsStand(clusters[..], values, area)
    ensures vdc == VdcIn(values, name)
  {
    for k := 0 to clusters.Length
      invariant VdcIn(values, name) == VdcIn(values[k..], name)
    {
      assert FlatStands(clusters[..][k], values[k], area);
      var facts := clusters[k].facts;
      assert values[k..][0] == values[k] && values[k..][1..] == values[k + 1..];
      if facts.ClusterFacts? && facts.name == name {
        return facts.vdc;
      }
    }
    vdc := "";
  }

  /** Two VDC queries, one namespace query. */
  function QueryCount(vdc: bool, namespace: bool): nat {
    (if vdc then 2 else 0) + if namespace then 1 else 0
  }

  function SampleFlat(p: Performance.Sample): Flat {
    Flat(PerformanceFacts(p), NoFields)
  }

  /** The first answers, as far as they came. */
  function Payloads(answer: nat -> Option<seq<Flux.Series>>, n: nat): (r: seq<seq<Flux.Series>>)
    ensures |r| == n && forall i :: 0 <= i < n ==> r[i] == if answer(i).Some? then answer(i).value else []
  {
    seq(n, i requires 0 <= i < n => if answer(i).Some? then answer(i).value else [])
  }

  /** All queries are answered, with payloads that are acceptable together. */
  ghost predicate AllAnswered(src: Performance.Source, answer: nat -> Option<seq<Flux.Series>>, n: nat) {
    (forall i: nat :: i < n ==> answer(i).Some?) && PerformanceSeries.AllAcceptable(src, Payloads(answer, n))
  }

  /** What the loop has after `k` queries. */
  ghost predicate Queried(src: Performance.Source, answer: nat -> Option<seq<Flux.Series>>, k: nat,
                          values: seq<Performance.Sample>) {
    && AllAnswered(src, answer, k)
    && values == PerformanceSeries.KeptAll(src, Payloads(answer, k)) && PerformanceSeries.AllPlain(src, values)
  }

  lemma PayloadsNext(src: Performance.Source, answer: nat -> Option<seq<Flux.Series>>, k: nat, n: nat)
    requires k < n && AllAnswered(src, answer, k) && answer(k).Some?
    ensures var good := PerformanceSeries.Acceptable(src, answer(k).value)
                        && PerformanceSeries.DistinctSeries(PerformanceSeries.KeptAll(src, Payloads(answer, k))
                                                            + PerformanceSeries.Kept(src, Flux.Lines(answer(k).value)));
            && (good ==> AllAnswered(src, answer, k + 1))
            && (!good ==> !AllAnswered(src, answer, n))
    ensures PerformanceSeries.KeptAll(src, Payloads(answer, k + 1))
         == PerformanceSeries.KeptAll(src, Payloads(answer, k))
           + PerformanceSeries.Kept(src, Flux.Lines(answer(k).value))
  {
    var all := Payloads(answer, n);
    assert all[..k] == Payloads(answer, k) && all[..k + 1] == Payloads(answer, k + 1);
    PerformanceSeries.AcceptableNext(src, all, k);
    PerformanceSeries.KeptAllNext(src, all, k);
  }

  /** One query. */
  method QueryOne(src: Performance.Source, answer: nat -> Option<seq<Flux.Series>>, k: nat, n: nat,
                  values: seq<Performance.Sample>)
    returns (r: Option<seq<Performance.Sample>>)
    requires src.Valid() && k < n && Queried(src, answer, k, values)
    ensures r.Some? ==> Queried(src, answer, k + 1, r.value)
    ensures r.None? ==> !AllAnswered(src, answer, n)
  {
    if answer(k).None? {
      return None;
    }
    PayloadsNext(src, answer, k, n);
    var one := PerformanceSeries.CollectOne(src, values, answer(k).value);
    r := if one.Ok? then Some(one.value) else None;
  }

  /** The query loop. */
  method QuerySeries(src: Performance.Source, answer: nat -> Option<seq<Flux.Series>>, n: nat)
    returns (r: Option<seq<Performance.Sample>>)
    requires src.Valid()
    ensures r.Some? <==> AllAnswered(src, answer, n)
    ensures r.Some? ==>
              r.value == PerformanceSeries.KeptAll(src, Payloads(answer, n)) && PerformanceSeries.AllPlain(src, r.value)
  {
    r := Some([]);
    for k := 0 to n
      invariant r.Some? && Queried(src, answer, k, r.value)
    {
      r := QueryOne(src, answer, k, n, r.value);
      if r.None? {
        return;
      }
    }
  }

  /** `CollectPerformance`: what is published are all series of all payloads, with pairwise distinct
      labels, and the cluster's VDC where a row names none. */
  method CollectPerformance(s: Store, src: Performance.Source, bootstrapped: bool, vdc: bool, namespace: bool,
                            answer: nat -> Option<seq<Flux.Series>>)
    returns (r: Return, ghost used: Performance.Source, ghost order: seq<string>)
    requires s.Valid() && src.Valid()
    modifies s.Repr()
    ensures s.Valid() && s.states == old(s.states)
    ensures Lawful(r, old(s.Contents()), s.Contents(), old(s.generations), s.generations, src.cluster, "performance")
    ensures r.Nothing? <==> bootstrapped && !vdc && !namespace
    ensures bootstrapped && (vdc || namespace) ==>
              && Listing.Enumerates(order, FlatLists(old(s.Contents()), Clusters))
              && used == src.(defaultVdc := VdcIn(ShownFlats(old(s.Contents()), Clusters, order), src.cluster))
    ensures r.Published? <==>
              bootstrapped && (vdc || namespace) && AllAnswered(used, answer, QueryCount(vdc, namespace))
    ensures r.Published? ==>
              var samples := PerformanceSeries.KeptAll(used, Payloads(answer, QueryCount(vdc, namespace)));
              && s.Contents() == WithFlats(old(s.Contents()), src.cluster, Performances, Map(samples, SampleFlat))
              && PerformanceSeries.DistinctSeries(samples) && PerformanceSeries.AllPlain(used, samples)
  {
    used, order := src, [];
    if !bootstrapped {
      return Failed, used, order;
    }
    if !vdc && !namespace {
      return Nothing, used, order;
    }
    var defaultVdc;
    defaultVdc, order := ReadVdc(s, src.cluster);
    used := src.(defaultVdc := defaultVdc);
    var samples := QuerySeries(src.(defaultVdc := defaultVdc), answer, QueryCount(vdc, namespace));
    s.OutsideIsInvisible();
    if samples.None? {
      return Failed, used, order;
    }
    var records, area := NewFlats(Map(samples.value, SampleFlat));
    s.OutsideIsInvisible();
    ghost var more := s.ReplacePerformances(src.cluster, records, Map(samples.value, SampleFlat), area);
    r := Published;
  }

  method ReadVdc(s: Store, name: string) returns (vdc: string, ghost order: seq<string>)
    requires s.Valid()
    ensures s.Valid() && Listing.Enumerates(order, FlatLists(s.Contents(), Clusters))
    ensures vdc == VdcIn(ShownFlats(s.Contents(), Clusters, order), name)
  {
    var snapshot, seen := s.TakeSnapshot();
    order := seen.clusters.order;
    vdc := FindVdc(snapshot.clusters, name, ShownFlats(s.Contents(), Clusters, order), seen.clusters.area);
    s.OutsideIsInvisible();
  }

  // ---------- the end of a run ----------

  /** The end of `Run`: the outcome is read off the error and the generation. For a collector that
      keeps to the law it is what the collector did: an error for a failure, a success for a
      publication, a skip for nothing. */
  method EndRun(s: Store, name: string, collector: string, captured: nat, r: Return, message: string, now: int)
    requires s.Valid()
    requires GenerationOf(s.generations, name, collector) == captured + if r.Published? then 1 else 0
    modifies s`states
    ensures s.Valid()
    ensures s.states == match r
                        case Failed => Finished(old(s.states), name, collector, now, Some(message))
                        case Published => Finished(old(s.states), name, collector, now, None)
                        case Nothing => Skipped(old(s.states), name, collector)
  {
    var generation := s.Generation(name, collector);
    s.OutsideIsInvisible();
    if !r.Failed? && generation == captured {
      s.FinishSkipped(name, collector);
    } else {
      s.Finish(name, collector, now, if r.Failed? then Some(message) else None);
    }
  }

  /** What a lawful collector does to its own generation and to those of all others. */
  lemma LawfulMoves(r: Return, contents: Domains, contents': Domains, g: Generations, g': Generations,
                    name: string, resource: string, other: string, theirs: string)
    requires Lawful(r, contents, contents', g, g', name, resource) && NulFree(name) && NulFree(other)
    ensures GenerationOf(g', other, theirs)
         == GenerationOf(g, other, theirs) + if r.Published? && name == other && resource == theirs then 1 else 0
  {
    if r.Published? { OtherGenerationsStay(g, name, resource, other, theirs); }
  }
}
