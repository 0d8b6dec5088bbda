/**
 The readers of health and metrics over the states that a snapshot of the store lists: in every
 reachable state there is one for each pair, so the two agree.
 */
module Agreement {
  import opened Common
  import opened Freshness
  import Lifecycle
  import Listing
  import Cache

  /** A snapshot of reachable records lists one state for each (cluster, collector) pair. */
  lemma ReachableStatesAreUnique(worlds: seq<Lifecycle.World>, k: nat, order: seq<string>)
    requires Lifecycle.IsRun(worlds) && k < |worlds| && Listing.Enumerates(order, Cache.StateLists(worlds[k].states))
    ensures OneStateEach(Cache.ShownStates(worlds[k].states, order))
  {
    var states := Cache.ShownStates(worlds[k].states, order);
    Lifecycle.FiledInRuns(worlds, k);
    Cache.UniqueStates(worlds[k].states);
    TupleLeqIsOrder();
    Listing.SortedListing(Cache.StateLists(worlds[k].states), order, Cache.StateKey, TupleLeq);
    forall i: nat, j: nat | i < j < |states|
      ensures !(states[i].cluster == states[j].cluster && states[i].collector == states[j].collector) {
      assert Cache.StateKey(states[i]) != Cache.StateKey(states[j]);
    }
  }

  /** In every reachable state, whatever order the snapshot visits the records in: a cluster is not
      reported DOWN iff all four required domains have run and are fresh for metrics. */
  lemma ReadersAgreeInRuns(worlds: seq<Lifecycle.World>, k: nat, order: seq<string>, clusters: seq<ClusterRecord>,
                           cluster: string, tolerance: int, maxStale: int, now: int)
    requires Lifecycle.IsRun(worlds) && k < |worlds| && Listing.Enumerates(order, Cache.StateLists(worlds[k].states))
    requires maxStale > 0
    ensures var states := Cache.ShownStates(worlds[k].states, order);
            (Deserved(Snapshot(clusters, states), cluster, tolerance, maxStale, now) != DOWN
             <==> forall c :: c in REQUIRED ==>
                 HasState(states, cluster, c) && Fresh(states, cluster, c, maxStale, now))
  {
    ReachableStatesAreUnique(worlds, k, order);
    ReadersAgree(Snapshot(clusters, Cache.ShownStates(worlds[k].states, order)), cluster, tolerance, maxStale, now);
  }
}
