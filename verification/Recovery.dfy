/**
 Replication entries and the merge of recovery progress into them. Positions are looked up
 among the entries that were there before the merge; entries with other ids are appended.
 */
module Recovery {
  import opened Common

  datatype Replication = Replication(
    cluster: string, id: string, group: string, sourceVdc: Option<string>, targetVdc: Option<string>,
    status: Option<real>, lag: Option<real>, pending: Option<real>,
    recoveryKind: Option<string>, recoveryStatus: Option<string>, recoveryProgress: Option<real>, collectedAt: int)

  function Id(r: Replication): string { r.id }

  /** The last position of an id, or none. */
  function LastPosition(entries: seq<Replication>, id: string): (r: Option<nat>)
    ensures r.Some? ==> r.value < |entries| && entries[r.value].id == id
    ensures r.Some? ==> forall i :: r.value < i < |entries| ==> entries[i].id != id
    ensures r.None? ==> forall i :: 0 <= i < |entries| ==> entries[i].id != id
  {
    if entries == [] then None
    else if entries[|entries| - 1].id == id then Some(|entries| - 1)
    else LastPosition(entries[..|entries| - 1], id)
  }

  /** An entry with the recovery fields and the time of another. */
  function WithRecovery(entry: Replication, value: Replication): Replication {
    entry.(recoveryKind := value.recoveryKind, recoveryStatus := value.recoveryStatus,
          recoveryProgress := value.recoveryProgress, collectedAt := value.collectedAt)
  }

  /** What becomes of the entry at a position: the last value with its id is merged into the last
      entry with that id, and into no other. */
  function Updated(entries: seq<Replication>, values: seq<Replication>, p: nat): Replication
    requires p < |entries|
  {
    var last := LastPosition(values, entries[p].id);
    if LastPosition(entries, entries[p].id) == Some(p) && last.Some? then WithRecovery(entries[p], values[last.value])
    else entries[p]
  }

  /** The values whose id was unknown, in order. */
  function Unknown(entries: seq<Replication>, values: seq<Replication>): seq<Replication> {
    if values == [] then []
    else
      var last := values[|values| - 1];
      Unknown(entries, values[..|values| - 1]) + if LastPosition(entries, last.id).None? then [last] else []
  }

  /** The result of a merge. */
  ghost predicate RecoveryMerged(entries: seq<Replication>, values: seq<Replication>, result: seq<Replication>) {
    && |result| == |entries| + |Unknown(entries, values)|
    && (forall p :: 0 <= p < |entries| ==> result[p] == Updated(entries, values, p))
    && result[|entries|..] == Unknown(entries, values)
  }

  /** One more value, as the loop treats it. */
  function MergeOne(entries: seq<Replication>, current: seq<Replication>, value: Replication): seq<Replication>
    requires |current| >= |entries|
  {
    var p := LastPosition(entries, value.id);
    if p.Some? then current[p.value := WithRecovery(current[p.value], value)] else current + [value]
  }

  lemma LastValue(values: seq<Replication>, value: Replication, id: string)
    ensures LastPosition(values + [value], id) == if value.id == id then Some(|values|) else LastPosition(values, id)
  {
    assert (values + [value])[..|values|] == values;
  }

  lemma MergeStep(entries: seq<Replication>, values: seq<Replication>, current: seq<Replication>, value: Replication)
    requires RecoveryMerged(entries, values, current)
    ensures RecoveryMerged(entries, values + [value], MergeOne(entries, current, value))
  {
    var result := MergeOne(entries, current, value);
    assert (values + [value])[..|values|] == values;
    forall p | 0 <= p < |entries| ensures result[p] == Updated(entries, values + [value], p) {
      LastValue(values, value, entries[p].id);
      assert current[p] == Updated(entries, values, p);
    }
    var at := LastPosition(entries, value.id);
    if at.Some? {
      assert result[|entries|..] == current[|entries|..];
    } else {
      assert result[|entries|..] == current[|entries|..] + [value];
    }
  }

  lemma MergeStart(entries: seq<Replication>)
    ensures RecoveryMerged(entries, [], entries)
  {
  }

  // ---------- what a merge keeps ----------

  lemma {:induction false} UnknownIds(entries: seq<Replication>, values: seq<Replication>)
    ensures forall u :: u in Unknown(entries, values) ==> u in values && LastPosition(entries, u.id).None?
    ensures forall v :: v in values && LastPosition(entries, v.id).None? ==> v in Unknown(entries, values)
  {
    if values != [] {
      UnknownIds(entries, values[..|values| - 1]);
      assert forall v :: v in values <==> v in values[..|values| - 1] || v == values[|values| - 1];
    }
  }

  /** A merge keeps every entry's position, id and replication fields. */
  lemma MergeKeepsEntries(entries: seq<Replication>, values: seq<Replication>, result: seq<Replication>, p: nat)
    requires RecoveryMerged(entries, values, result) && p < |entries|
    ensures result[p] == entries[p].(recoveryKind := result[p].recoveryKind, recoveryStatus := result[p].recoveryStatus,
                                     recoveryProgress := result[p].recoveryProgress,
                                     collectedAt := result[p].collectedAt)
    ensures LastPosition(values, entries[p].id).None? ==> result[p] == entries[p]
  {
    assert result[p] == Updated(entries, values, p);
  }

  /** What an entry is afterwards, field by field: the last entry of its id has the four recovery fields of
      the last value with that id, if there is one; every other entry is as it was. */
  lemma MergeTakesLast(entries: seq<Replication>, values: seq<Replication>, result: seq<Replication>, p: nat, j: nat)
    requires RecoveryMerged(entries, values, result) && p < |entries| && j < |values|
    requires values[j].id == entries[p].id && forall i :: j < i < |values| ==> values[i].id != entries[p].id
    ensures (forall i :: p < i < |entries| ==> entries[i].id != entries[p].id) ==>
              && result[p].recoveryKind == values[j].recoveryKind
              && result[p].recoveryStatus == values[j].recoveryStatus
              && result[p].recoveryProgress == values[j].recoveryProgress
              && result[p].collectedAt == values[j].collectedAt
              && result[p].status == entries[p].status && result[p].lag == entries[p].lag
              && result[p].pending == entries[p].pending
    ensures (exists i :: p < i < |entries| && entries[i].id == entries[p].id) ==> result[p] == entries[p]
  {
    assert result[p] == Updated(entries, values, p);
  }

  /** Ids are distinct afterwards iff they were before and the batch brings no new id twice: new
      ids that a batch repeats stay repeated. */
  lemma DistinctAfterMerge(entries: seq<Replication>, values: seq<Replication>, result: seq<Replication>)
    requires RecoveryMerged(entries, values, result)
    ensures DistinctKeys(result, Id) <==> DistinctKeys(entries, Id) && DistinctKeys(Unknown(entries, values), Id)
  {
    var n, unknown := |entries|, Unknown(entries, values);
    UnknownIds(entries, values);
    forall p | 0 <= p < n ensures Id(result[p]) == Id(entries[p]) {
      MergeKeepsEntries(entries, values, result, p);
    }
    forall i | 0 <= i < |unknown| ensures result[n + i] == unknown[i] && unknown[i] in unknown {
      assert result[n..][i] == unknown[i];
    }
    if DistinctKeys(result, Id) {
      SplitDistinct(entries, unknown, result);
    }
    if DistinctKeys(entries, Id) && DistinctKeys(unknown, Id) {
      JoinDistinct(entries, unknown, result);
    }
  }

  /** A batch of two values with one unknown id leaves that id twice, whatever was there. */
  lemma BatchCanRepeat(entries: seq<Replication>, v: Replication, w: Replication) returns (result: seq<Replication>)
    requires v.id == w.id && LastPosition(entries, v.id).None?
    ensures RecoveryMerged(entries, [v, w], result) && result == entries + [v, w] && !DistinctKeys(result, Id)
  {
    MergeStart(entries);
    MergeStep(entries, [], entries, v);
    result := MergeOne(entries, entries, v);
    assert [] + [v] == [v];
    MergeStep(entries, [v], result, w);
    result := MergeOne(entries, result, w);
    assert [v] + [w] == [v, w] && result == entries + [v, w];
    assert Id(result[|entries|]) == Id(result[|entries| + 1]);
  }

  lemma SplitDistinct(entries: seq<Replication>, unknown: seq<Replication>, result: seq<Replication>)
    requires |result| == |entries| + |unknown| && DistinctKeys(result, Id)
    requires forall p :: 0 <= p < |entries| ==> Id(result[p]) == Id(entries[p])
    requires forall i :: 0 <= i < |unknown| ==> result[|entries| + i] == unknown[i]
    ensures DistinctKeys(entries, Id) && DistinctKeys(unknown, Id)
  {
    forall i, j | 0 <= i < j < |entries| ensures Id(entries[i]) != Id(entries[j]) {
      assert Id(result[i]) != Id(result[j]);
    }
    forall i, j | 0 <= i < j < |unknown| ensures Id(unknown[i]) != Id(unknown[j]) {
      assert Id(result[|entries| + i]) != Id(result[|entries| + j]);
    }
  }

  lemma JoinDistinct(entries: seq<Replication>, unknown: seq<Replication>, result: seq<Replication>)
    requires |result| == |entries| + |unknown|
    requires DistinctKeys(entries, Id) && DistinctKeys(unknown, Id)
    requires forall p :: 0 <= p < |entries| ==> Id(result[p]) == Id(entries[p])
    requires forall i :: 0 <= i < |unknown| ==>
               result[|entries| + i] == unknown[i] && LastPosition(entries, unknown[i].id).None?
    ensures DistinctKeys(result, Id)
  {
    var n := |entries|;
    forall i, j | 0 <= i < j < |result| ensures Id(result[i]) != Id(result[j]) {
      if j < n {
        assert Id(entries[i]) != Id(entries[j]);
      } else if i >= n {
        assert result[n + (i - n)] == unknown[i - n] && result[n + (j - n)] == unknown[j - n];
        assert Id(unknown[i - n]) != Id(unknown[j - n]);
      } else {
        assert result[n + (j - n)] == unknown[j - n];
        assert entries[i].id != unknown[j - n].id;
      }
    }
  }
}
