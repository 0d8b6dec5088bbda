/**
 Replication entries as they lie in memory, and their deep copies.
 */
module HeapReplications {
  import opened Common
  import opened HeapRecords
  import opened Recovery

  datatype ReplicationRecord = ReplicationRecord(
    cluster: string, id: string, group: string, sourceVdc: Cell?<string>, targetVdc: Cell?<string>,
    status: Cell?<real>, lag: Cell?<real>, pending: Cell?<real>,
    recoveryKind: Cell?<string>, recoveryStatus: Cell?<string>, recoveryProgress: Cell?<real>, collectedAt: int)

  ghost predicate EntryIn(r: ReplicationRecord, area: set<object>) {
    && In(r.sourceVdc, area) && In(r.targetVdc, area) && In(r.status, area) && In(r.lag, area) && In(r.pending, area)
    && In(r.recoveryKind, area) && In(r.recoveryStatus, area) && In(r.recoveryProgress, area)
  }

  ghost function EntryOf(r: ReplicationRecord): Replication
    reads r.sourceVdc, r.targetVdc, r.status, r.lag, r.pending, r.recoveryKind, r.recoveryStatus, r.recoveryProgress
  {
    Replication(r.cluster, r.id, r.group, Load(r.sourceVdc), Load(r.targetVdc), Load(r.status), Load(r.lag),
                Load(r.pending),
                Load(r.recoveryKind), Load(r.recoveryStatus), Load(r.recoveryProgress), r.collectedAt)
  }

  /** The record lies in `area` and stands for a value. */
  ghost predicate EntryStands(r: ReplicationRecord, value: Replication, area: set<object>)
    reads area
  {
    EntryIn(r, area) && EntryOf(r) == value
  }

  /** Each pointer of a record holds the value's field of its own name. */
  lemma EntryFieldByField(r: ReplicationRecord, value: Replication, area: set<object>)
    requires EntryStands(r, value, area)
    ensures r.cluster == value.cluster && r.id == value.id && r.group == value.group
    ensures Load(r.sourceVdc) == value.sourceVdc && Load(r.targetVdc) == value.targetVdc
    ensures Load(r.status) == value.status && Load(r.lag) == value.lag && Load(r.pending) == value.pending
    ensures Load(r.recoveryKind) == value.recoveryKind && Load(r.recoveryStatus) == value.recoveryStatus
    ensures Load(r.recoveryProgress) == value.recoveryProgress && r.collectedAt == value.collectedAt
  {
  }

  ghost predicate EntriesStand(entries: seq<ReplicationRecord>, values: seq<Replication>, area: set<object>)
    reads area
  {
    |entries| == |values| && forall i :: 0 <= i < |entries| ==> EntryStands(entries[i], values[i], area)
  }

  lemma EntriesLarger(entries: seq<ReplicationRecord>, values: seq<Replication>, area: set<object>, larger: set<object>)
    requires EntriesStand(entries, values, area) && area <= larger
    ensures EntriesStand(entries, values, larger)
  {
    forall i | 0 <= i < |entries| ensures EntryStands(entries[i], values[i], larger) {
      assert EntryStands(entries[i], values[i], area);
    }
  }

  lemma EntriesGrow(entries: seq<ReplicationRecord>, values: seq<Replication>, area: set<object>,
                    r: ReplicationRecord, value: Replication, more: set<object>)
    requires EntriesStand(entries, values, area) && EntryStands(r, value, more)
    ensures EntriesStand(entries + [r], values + [value], area + more)
  {
    EntriesLarger(entries, values, area, area + more);
  }

  lemma EntriesUpdate(entries: seq<ReplicationRecord>, values: seq<Replication>, area: set<object>, k: nat,
                      r: ReplicationRecord, value: Replication)
    requires EntriesStand(entries, values, area) && EntryStands(r, value, area) && k < |entries|
    ensures EntriesStand(entries[k := r], values[k := value], area)
  {
    var entries', values' := entries[k := r], values[k := value];
    forall i | 0 <= i < |entries| ensures EntryStands(entries'[i], values'[i], area) {
      assert EntryStands(entries[i], values[i], area);
    }
  }

  lemma EntriesOverwrite(entries: seq<ReplicationRecord>, values: seq<Replication>, area: set<object>,
                         more: set<object>, k: nat,
                         r: ReplicationRecord, value: Replication)
    requires EntriesStand(entries, values, area) && EntryStands(r, value, area + more) && k < |entries|
    ensures EntriesStand(entries[k := r], values[k := value], area + more)
  {
    EntriesLarger(entries, values, area, area + more);
    EntriesUpdate(entries, values, area + more, k, r, value);
  }

  /** Copies of the three recovery pointers. */
  method CloneRecovery(r: ReplicationRecord)
    returns (kind: Cell?<string>, status: Cell?<string>, progress: Cell?<real>, ghost area: set<object>)
    ensures fresh(area) && In(kind, area) && In(status, area) && In(progress, area)
    ensures Load(kind) == Load(r.recoveryKind) && Load(status) == Load(r.recoveryStatus)
    ensures Load(progress) == Load(r.recoveryProgress)
  {
    kind := ClonePointer(r.recoveryKind);
    status := ClonePointer(r.recoveryStatus);
    progress := ClonePointer(r.recoveryProgress);
    area := Of(kind) + Of(status) + Of(progress);
  }

  /** An entry with copies of the recovery fields of another. */
  method TakeRecovery(r: ReplicationRecord, value: ReplicationRecord, ghost was: Replication, ghost area: set<object>,
                      ghost meant: Replication, ghost given: set<object>)
    returns (taken: ReplicationRecord, ghost more: set<object>)
    requires EntryStands(r, was, area) && EntryStands(value, meant, given)
    ensures fresh(more) && EntryStands(taken, WithRecovery(was, meant), area + more)
  {
    var kind, status, progress;
    kind, status, progress, more := CloneRecovery(value);
    taken := r.(recoveryKind := kind, recoveryStatus := status, recoveryProgress := progress,
                collectedAt := value.collectedAt);
  }

  method CloneLink(r: ReplicationRecord)
    returns (source: Cell?<string>, target: Cell?<string>, status: Cell?<real>, lag: Cell?<real>, pending: Cell?<real>,
             ghost area: set<object>)
    ensures fresh(area) && In(source, area) && In(target, area) && In(status, area) && In(lag, area)
            && In(pending, area)
    ensures Load(source) == Load(r.sourceVdc) && Load(target) == Load(r.targetVdc) && Load(status) == Load(r.status)
    ensures Load(lag) == Load(r.lag) && Load(pending) == Load(r.pending)
  {
    source := ClonePointer(r.sourceVdc);
    target := ClonePointer(r.targetVdc);
    status := ClonePointer(r.status);
    lag := ClonePointer(r.lag);
    pending := ClonePointer(r.pending);
    area := Of(source) + Of(target) + Of(status) + Of(lag) + Of(pending);
  }

  /** Records with the same plain fields and equal contents behind their pointers. */
  lemma SameEntry(c: ReplicationRecord, r: ReplicationRecord, value: Replication, given: set<object>, area: set<object>)
    requires EntryStands(r, value, given) && EntryIn(c, area)
    requires Load(c.sourceVdc) == Load(r.sourceVdc) && Load(c.targetVdc) == Load(r.targetVdc)
    requires Load(c.status) == Load(r.status) && Load(c.lag) == Load(r.lag) && Load(c.pending) == Load(r.pending)
    requires Load(c.recoveryKind) == Load(r.recoveryKind) && Load(c.recoveryStatus) == Load(r.recoveryStatus)
    requires Load(c.recoveryProgress) == Load(r.recoveryProgress)
    requires c == r.(sourceVdc := c.sourceVdc, targetVdc := c.targetVdc, status := c.status, lag := c.lag,
                     pending := c.pending, recoveryKind := c.recoveryKind, recoveryStatus := c.recoveryStatus,
                     recoveryProgress := c.recoveryProgress)
    ensures EntryStands(c, value, area)
  {
  }

  /** The loop body of `cloneReplications`. */
  method CloneEntry(r: ReplicationRecord, ghost value: Replication, ghost given: set<object>)
    returns (c: ReplicationRecord, ghost area: set<object>)
    requires EntryStands(r, value, given)
    ensures fresh(area) && EntryStands(c, value, area)
  {
    var source, target, status, lag, pending, link := CloneLink(r);
    var kind, state, progress, recovery := CloneRecovery(r);
    c := r.(sourceVdc := source, targetVdc := target, status := status, lag := lag, pending := pending,
            recoveryKind := kind, recoveryStatus := state, recoveryProgress := progress);
    area := link + recovery;
    SameEntry(c, r, value, given, area);
  }

  /** The loop of `cloneReplications`. */
  method CloneEntries(entries: seq<ReplicationRecord>, ghost values: seq<Replication>, ghost given: set<object>)
    returns (r: seq<ReplicationRecord>, ghost area: set<object>)
    requires EntriesStand(entries, values, given)
    ensures fresh(area) && EntriesStand(r, values, area)
  {
    r, area := [], {};
    for k := 0 to |entries|
      invariant fresh(area) && EntriesStand(r, values[..k], area)
    {
      assert EntriesStand(entries, values, given);
      assert EntryStands(entries[k], values[k], given);
      var c, more := CloneEntry(entries[k], values[k], given);
      EntriesGrow(r, values[..k], area, c, values[k], more);
      Cut(values, k);
      r, area := r + [c], area + more;
    }
    assert values[..|entries|] == values;
  }

  /** `cloneReplications`: a new slice of new records with the same values. */
  method CloneReplications(entries: array<ReplicationRecord>, ghost values: seq<Replication>, ghost given: set<object>)
    returns (r: array<ReplicationRecord>, ghost area: set<object>)
    requires EntriesStand(entries[..], values, given)
    ensures fresh(r) && fresh(area) && r !in area && EntriesStand(r[..], values, area)
  {
    var cloned;
    cloned, area := CloneEntries(entries[..], values, given);
    r := new ReplicationRecord[|cloned|](i requires 0 <= i < |cloned| => cloned[i]);
    assert r[..] == cloned;
  }

  // ---------- building records ----------

  method NewText(o: Option<string>) returns (r: Cell?<string>)
    ensures Load(r) == o && (r != null ==> fresh(r))
  {
    if o.None? {
      return null;
    }
    r := new Cell(o.value);
  }

  method NewNumber(o: Option<real>) returns (r: Cell?<real>)
    ensures Load(r) == o && (r != null ==> fresh(r))
  {
    if o.None? {
      return null;
    }
    r := new Cell(o.value);
  }

  method NewLink(value: Replication)
    returns (source: Cell?<string>, target: Cell?<string>, status: Cell?<real>, lag: Cell?<real>, pending: Cell?<real>,
             ghost area: set<object>)
    ensures fresh(area) && In(source, area) && In(target, area) && In(status, area) && In(lag, area)
            && In(pending, area)
    ensures Load(source) == value.sourceVdc && Load(target) == value.targetVdc && Load(status) == value.status
    ensures Load(lag) == value.lag && Load(pending) == value.pending
  {
    source := NewText(value.sourceVdc);
    target := NewText(value.targetVdc);
    status := NewNumber(value.status);
    lag := NewNumber(value.lag);
    pending := NewNumber(value.pending);
    area := Of(source) + Of(target) + Of(status) + Of(lag) + Of(pending);
  }

  method NewRecovery(value: Replication)
    returns (kind: Cell?<string>, status: Cell?<string>, progress: Cell?<real>, ghost area: set<object>)
    ensures fresh(area) && In(kind, area) && In(status, area) && In(progress, area)
    ensures Load(kind) == value.recoveryKind && Load(status) == value.recoveryStatus
            && Load(progress) == value.recoveryProgress
  {
    kind := NewText(value.recoveryKind);
    status := NewText(value.recoveryStatus);
    progress := NewNumber(value.recoveryProgress);
    area := Of(kind) + Of(status) + Of(progress);
  }

  /** A new record for a value. */
  method NewEntry(value: Replication) returns (r: ReplicationRecord, ghost area: set<object>)
    ensures fresh(area) && EntryStands(r, value, area)
  {
    var source, target, status, lag, pending, link := NewLink(value);
    var kind, state, progress, recovery := NewRecovery(value);
    r := ReplicationRecord(value.cluster, value.id, value.group, source, target, status, lag, pending, kind, state,
                           progress,
                           value.collectedAt);
    area := link + recovery;
  }

  method NewEntries(values: seq<Replication>) returns (r: array<ReplicationRecord>, ghost area: set<object>)
    ensures fresh(r) && fresh(area) && EntriesStand(r[..], values, area)
  {
    var entries: seq<ReplicationRecord> := [];
    area := {};
    for k := 0 to |values|
      invariant fresh(area) && EntriesStand(entries, values[..k], area)
    {
      var c, more := NewEntry(values[k]);
      EntriesGrow(entries, values[..k], area, c, values[k], more);
      Cut(values, k);
      entries, area := entries + [c], area + more;
    }
    assert values[..|values|] == values;
    r := new ReplicationRecord[|entries|](i requires 0 <= i < |entries| => entries[i]);
    assert r[..] == entries;
  }

  // ---------- merging recovery progress ----------

  ghost predicate PositionsOf(entries: seq<Replication>, positions: map<string, nat>) {
    forall id :: LastPosition(entries, id) == Position(positions, id)
  }

  function Position(positions: map<string, nat>, id: string): Option<nat> {
    if id in positions then Some(positions[id]) else None
  }

  lemma PositionsGrow(entries: seq<Replication>, k: nat, positions: map<string, nat>)
    requires k < |entries| && PositionsOf(entries[..k], positions)
    ensures PositionsOf(entries[..k + 1], positions[entries[k].id := k])
  {
    Cut(entries, k);
    var longer, positions' := entries[..k + 1], positions[entries[k].id := k];
    forall id ensures LastPosition(longer, id) == Position(positions', id) {
      LastValue(entries[..k], entries[k], id);
    }
  }

  /** Where each id is found last. */
  method Positions(entries: seq<ReplicationRecord>, ghost values: seq<Replication>, ghost area: set<object>)
    returns (positions: map<string, nat>)
    requires EntriesStand(entries, values, area)
    ensures PositionsOf(values, positions)
  {
    positions := map[];
    for k := 0 to |entries|
      invariant PositionsOf(values[..k], positions)
    {
      assert EntryStands(entries[k], values[k], area);
      PositionsGrow(values, k, positions);
      positions := positions[entries[k].id := k];
    }
    assert values[..|entries|] == values;
  }

  /** One value of the batch: an existing entry takes over its recovery fields, in place; a copy of
      a new one is appended. */
  method MergeEntry(current: array<ReplicationRecord>, p: Option<nat>, value: ReplicationRecord,
                    ghost values: seq<Replication>, ghost area: set<object>, ghost meant: Replication,
                        ghost given: set<object>)
    returns (r: array<ReplicationRecord>, ghost more: set<object>)
    requires EntriesStand(current[..], values, area) && current !in area && EntryStands(value, meant, given)
    requires p.Some? ==> p.value < current.Length
    modifies current
    ensures fresh(more) && (r == current || fresh(r)) && r !in more
    ensures EntriesStand(r[..], if p.Some? then values[p.value := WithRecovery(values[p.value], meant)]
                         else values + [meant], area + more)
  {
    ghost var was := current[..];
    if p.Some? {
      assert EntryStands(was[p.value], values[p.value], area);
      var taken;
      taken, more := TakeRecovery(current[p.value], value, values[p.value], area, meant, given);
      EntriesOverwrite(was, values, area, more, p.value, taken, WithRecovery(values[p.value], meant));
      current[p.value] := taken;
      assert current[..] == was[p.value := taken];
      r := current;
    } else {
      var c;
      c, more := CloneEntry(value, meant, given);
      EntriesGrow(was, values, area, c, meant, more);
      var entries := current[..];
      r := new ReplicationRecord[|entries| + 1](
        i requires 0 <= i <= |entries| => if i < |entries| then entries[i] else c);
      assert r[..] == was + [c];
    }
  }

  /** The next value of the batch. */
  method MergeNext(current: array<ReplicationRecord>, positions: map<string, nat>, batch: seq<ReplicationRecord>,
                   k: nat,
                   ghost values: seq<Replication>, ghost now: seq<Replication>, ghost area: set<object>,
                   ghost meant: seq<Replication>, ghost given: set<object>)
    returns (r: array<ReplicationRecord>, ghost next: seq<Replication>, ghost more: set<object>)
    requires EntriesStand(current[..], now, area) && current !in area
    requires EntriesStand(batch, meant, given) && k < |batch|
    requires PositionsOf(values, positions) && RecoveryMerged(values, meant[..k], now)
    modifies current
    ensures fresh(more) && (r == current || fresh(r)) && r !in more
    ensures EntriesStand(r[..], next, area + more)
    ensures RecoveryMerged(values, meant[..k + 1], next)
  {
    assert EntryStands(batch[k], meant[k], given);
    MergeStep(values, meant[..k], now, meant[k]);
    Cut(meant, k);
    r, more := MergeEntry(current, Position(positions, batch[k].id), batch[k], now, area, meant[k], given);
    next := MergeOne(values, now, meant[k]);
  }

  /** The loops of `MergeRecovery`. */
  method MergeEntries(entries: array<ReplicationRecord>, ghost values: seq<Replication>, ghost area: set<object>,
                      batch: seq<ReplicationRecord>, ghost meant: seq<Replication>, ghost given: set<object>)
    returns (r: array<ReplicationRecord>, ghost result: seq<Replication>, ghost added: set<object>)
    requires EntriesStand(entries[..], values, area) && entries !in area
    requires EntriesStand(batch, meant, given) && entries !in given
    modifies entries
    ensures fresh(added) && (r == entries || fresh(r)) && r !in area + added
    ensures EntriesStand(r[..], result, area + added) && RecoveryMerged(values, meant, result)
  {
    var positions := Positions(entries[..], values, area);
    r, result, added := entries, values, {};
    ghost var whole := area;
    MergeStart(values);
    for k := 0 to |batch|
      invariant whole == area + added && fresh(added) && (r == entries || fresh(r)) && r !in whole
      invariant EntriesStand(r[..], result, whole)
      invariant EntriesStand(batch, meant, given) && r !in given
      invariant RecoveryMerged(values, meant[..k], result)
    {
      ghost var more;
      r, result, more := MergeNext(r, positions, batch, k, values, result, whole, meant, given);
      added, whole := added + more, whole + more;
    }
    assert meant[..|batch|] == meant;
  }

  // ---------- sorting records ----------

  function EntryRecordKey(r: ReplicationRecord): seq<string> {
    [r.cluster, r.id]
  }

  function EntryKey(r: Replication): seq<string> {
    [r.cluster, r.id]
  }

  lemma EntriesConcat(a: seq<ReplicationRecord>, x: seq<Replication>, area: set<object>,
                      b: seq<ReplicationRecord>, y: seq<Replication>, more: set<object>)
    requires EntriesStand(a, x, area) && EntriesStand(b, y, more)
    ensures EntriesStand(a + b, x + y, area + more)
  {
    EntriesLarger(a, x, area, area + more);
    EntriesLarger(b, y, more, area + more);
  }

  lemma EntriesSplit(entries: seq<ReplicationRecord>, values: seq<Replication>, area: set<object>)
    requires EntriesStand(entries, values, area) && entries != []
    ensures EntryStands(entries[0], values[0], area) && EntriesStand(entries[1..], values[1..], area)
    ensures EntriesStand(entries[..|entries| - 1], values[..|entries| - 1], area)
    ensures EntryStands(entries[|entries| - 1], values[|entries| - 1], area)
  {
  }

  lemma EntryFirst(r: ReplicationRecord, value: Replication, entries: seq<ReplicationRecord>, values: seq<Replication>,
                   area: set<object>)
    requires EntryStands(r, value, area) && EntriesStand(entries, values, area)
    ensures EntriesStand([r] + entries, [value] + values, area)
  {
  }

  lemma {:induction false} InsertEntryStands(entries: seq<ReplicationRecord>, values: seq<Replication>,
                                             area: set<object>,
                                             r: ReplicationRecord, value: Replication)
    requires EntriesStand(entries, values, area) && EntryStands(r, value, area)
    ensures EntriesStand(Insert(entries, r, EntryRecordKey, TupleLeq), Insert(values, value, EntryKey, TupleLeq), area)
  {
    if entries == [] {
      EntryFirst(r, value, entries, values, area);
    } else {
      EntriesSplit(entries, values, area);
      if TupleLeq(EntryRecordKey(entries[0]), EntryRecordKey(r)) {
        InsertEntryStands(entries[1..], values[1..], area, r, value);
        EntryFirst(entries[0], values[0], Insert(entries[1..], r, EntryRecordKey, TupleLeq),
                   Insert(values[1..], value, EntryKey, TupleLeq), area);
      } else {
        EntryFirst(r, value, entries, values, area);
      }
    }
  }

  lemma {:induction false} SortEntriesStand(entries: seq<ReplicationRecord>, values: seq<Replication>,
                                            area: set<object>)
    requires EntriesStand(entries, values, area)
    ensures EntriesStand(Sort(entries, EntryRecordKey, TupleLeq), Sort(values, EntryKey, TupleLeq), area)
  {
    if entries != [] {
      var k := |entries| - 1;
      EntriesSplit(entries, values, area);
      SortEntriesStand(entries[..k], values[..k], area);
      InsertEntryStands(Sort(entries[..k], EntryRecordKey, TupleLeq), Sort(values[..k], EntryKey, TupleLeq), area,
                        entries[k], values[k]);
    }
  }

  /** The slice of a snapshot: the records in order. */
  method SortedEntries(entries: seq<ReplicationRecord>, ghost values: seq<Replication>, ghost area: set<object>)
    returns (r: array<ReplicationRecord>)
    requires EntriesStand(entries, values, area)
    ensures fresh(r) && EntriesStand(r[..], Sort(values, EntryKey, TupleLeq), area)
  {
    SortEntriesStand(entries, values, area);
    var sorted := Sort(entries, EntryRecordKey, TupleLeq);
    r := new ReplicationRecord[|sorted|](i requires 0 <= i < |sorted| => sorted[i]);
    assert r[..] == sorted;
  }
}
