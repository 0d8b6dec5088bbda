/**
 Records of the four domains that are only ever replaced as a whole: clusters, namespaces,
 buckets and performance series. A record has plain fields, pointers and slices of strings;
 every field is named, and copied by a statement of its own.
 */
module HeapFlats {
  import opened Common
  import opened HeapRecords
  import Performance

  datatype Kind = Clusters | Namespaces | Buckets | Performances

  /** The plain fields. */
  datatype Facts =
    | ClusterFacts(name: string, site: string, environment: string, vdc: string, mixed: bool,
                   bucketCount: int, namespaceCount: int, collectedAt: int)
    | NamespaceFacts(cluster: string, name: string, bucketCount: int,
                     softConfigured: bool, hardConfigured: bool, collectedAt: int)
    | BucketFacts(cluster: string, namespace: string, name: string,
                  softConfigured: bool, hardConfigured: bool, collectedAt: int)
    | PerformanceFacts(sample: Performance.Sample)

  /** Pointers that namespaces and buckets have in common. */
  datatype Usage = Usage(owner: Cell?<string>, used: Cell?<real>, objects: Cell?<real>, soft: Cell?<real>,
                         hard: Cell?<real>, group: Cell?<string>)

  datatype UsageValues = UsageValues(owner: Option<string>, used: Option<real>, objects: Option<real>,
                                     soft: Option<real>, hard: Option<real>, group: Option<string>)

  /** Pointers of buckets only. */
  datatype Traits = Traits(versioning: Cell?<bool>, encryption: Cell?<bool>, locked: Cell?<bool>,
                           retention: Cell?<real>, created: Cell?<int>, modified: Cell?<int>)

  datatype TraitValues = TraitValues(versioning: Option<bool>, encryption: Option<bool>, locked: Option<bool>,
                                     retention: Option<real>, created: Option<int>, modified: Option<int>)

  /** The pointers and slices of a record. */
  datatype References =
    | ClusterReferences(versions: array<string>, profiles: array<string>, health: Cell?<real>, total: Cell?<real>,
                        used: Cell?<real>, available: Cell?<real>, objects: Cell?<real>)
    | NamespaceReferences(usage: Usage, audit: Cell?<bool>, sampled: Cell?<int>)
    | BucketReferences(usage: Usage, traits: Traits, audit: Cell?<bool>, sampled: Cell?<int>)
    | NoReferences

  /** What they refer to. */
  datatype Fields =
    | ClusterFields(versions: seq<string>, profiles: seq<string>, health: Option<real>, total: Option<real>,
                    used: Option<real>, available: Option<real>, objects: Option<real>)
    | NamespaceFields(usage: UsageValues, audit: Option<bool>, sampled: Option<int>)
    | BucketFields(usage: UsageValues, traits: TraitValues, audit: Option<bool>, sampled: Option<int>)
    | NoFields

  datatype FlatRecord = FlatRecord(facts: Facts, references: References)

  datatype Flat = Flat(facts: Facts, fields: Fields)

  /** What the snapshot sorts by. */
  function FactsKey(f: Facts): seq<string> {
    match f
    case ClusterFacts(name, _, _, _, _, _, _, _) => [name]
    case NamespaceFacts(cluster, name, _, _, _, _) => [cluster, name]
    case BucketFacts(cluster, namespace, name, _, _, _) => [cluster, namespace, name]
    case PerformanceFacts(sample) => Performance.Labels(sample)
  }

  function FlatKey(v: Flat): seq<string> {
    FactsKey(v.facts)
  }

  function FlatRecordKey(r: FlatRecord): seq<string> {
    FactsKey(r.facts)
  }

  /** The pointer points into the area, at the value. */
  ghost predicate Stands<T>(p: Cell?<T>, value: Option<T>, area: set<object>)
    reads area
  {
    In(p, area) && Load(p) == value
  }

  ghost predicate SliceStands(list: array<string>, value: seq<string>, area: set<object>)
    reads area
  {
    list in area && list[..] == value
  }

  ghost predicate UsageStands(u: Usage, v: UsageValues, area: set<object>)
    reads area
  {
    && Stands(u.owner, v.owner, area) && Stands(u.used, v.used, area) && Stands(u.objects, v.objects, area)
    && Stands(u.soft, v.soft, area) && Stands(u.hard, v.hard, area) && Stands(u.group, v.group, area)
  }

  ghost predicate TraitsStand(t: Traits, v: TraitValues, area: set<object>)
    reads area
  {
    && Stands(t.versioning, v.versioning, area) && Stands(t.encryption, v.encryption, area)
    && Stands(t.locked, v.locked, area) && Stands(t.retention, v.retention, area)
    && Stands(t.created, v.created, area) && Stands(t.modified, v.modified, area)
  }

  ghost predicate ReferencesStand(p: References, v: Fields, area: set<object>)
    reads area
  {
    match p
    case ClusterReferences(versions, profiles, health, total, used, available, objects) =>
      && v.ClusterFields? && SliceStands(versions, v.versions, area) && SliceStands(profiles, v.profiles, area)
      && Stands(health, v.health, area) && Stands(total, v.total, area) && Stands(used, v.used, area)
      && Stands(available, v.available, area) && Stands(objects, v.objects, area)
    case NamespaceReferences(usage, audit, sampled) =>
      && v.NamespaceFields? && UsageStands(usage, v.usage, area)
      && Stands(audit, v.audit, area) && Stands(sampled, v.sampled, area)
    case BucketReferences(usage, traits, audit, sampled) =>
      && v.BucketFields? && UsageStands(usage, v.usage, area) && TraitsStand(traits, v.traits, area)
      && Stands(audit, v.audit, area) && Stands(sampled, v.sampled, area)
    case NoReferences => v.NoFields?
  }

  lemma UsageLarger(u: Usage, v: UsageValues, area: set<object>, larger: set<object>)
    requires UsageStands(u, v, area) && area <= larger
    ensures UsageStands(u, v, larger)
  {
  }

  lemma TraitsLarger(t: Traits, v: TraitValues, area: set<object>, larger: set<object>)
    requires TraitsStand(t, v, area) && area <= larger
    ensures TraitsStand(t, v, larger)
  {
  }

  /** The record lies in `area` and stands for a value. */
  ghost predicate FlatStands(r: FlatRecord, value: Flat, area: set<object>)
    reads area
  {
    r.facts == value.facts && ReferencesStand(r.references, value.fields, area)
  }

  ghost predicate FlatsStand(records: seq<FlatRecord>, values: seq<Flat>, area: set<object>)
    reads area
  {
    |records| == |values| && forall i :: 0 <= i < |records| ==> FlatStands(records[i], values[i], area)
  }

  lemma FlatLarger(r: FlatRecord, value: Flat, area: set<object>, larger: set<object>)
    requires FlatStands(r, value, area) && area <= larger
    ensures FlatStands(r, value, larger)
  {
  }

  lemma FlatsLarger(records: seq<FlatRecord>, values: seq<Flat>, area: set<object>, larger: set<object>)
    requires FlatsStand(records, values, area) && area <= larger
    ensures FlatsStand(records, values, larger)
  {
    forall i | 0 <= i < |records| ensures FlatStands(records[i], values[i], larger) {
      FlatLarger(records[i], values[i], area, larger);
    }
  }

  lemma FlatsConcat(a: seq<FlatRecord>, x: seq<Flat>, area: set<object>, b: seq<FlatRecord>, y: seq<Flat>,
                    more: set<object>)
    requires FlatsStand(a, x, area) && FlatsStand(b, y, more)
    ensures FlatsStand(a + b, x + y, area + more)
  {
    FlatsLarger(a, x, area, area + more);
    FlatsLarger(b, y, more, area + more);
  }

  // ---------- the lists of one cluster ----------

  ghost predicate FlatsStandAt(flats: map<Kind, array<FlatRecord>>, values: map<Kind, seq<Flat>>, area: set<object>,
                               kind: Kind)
    reads area
  {
    kind in flats ==> kind in values && flats[kind] in area && FlatsStand(flats[kind][..], values[kind], area)
  }

  ghost predicate AllFlatsStand(flats: map<Kind, array<FlatRecord>>, values: map<Kind, seq<Flat>>, area: set<object>)
    reads area
  {
    flats.Keys == values.Keys && forall kind :: FlatsStandAt(flats, values, area, kind)
  }

  lemma AllFlatsGrow(flats: map<Kind, array<FlatRecord>>, values: map<Kind, seq<Flat>>, area: set<object>,
                     kind: Kind, slice: array<FlatRecord>, meant: seq<Flat>, more: set<object>)
    requires AllFlatsStand(flats, values, area) && slice in more && FlatsStand(slice[..], meant, more)
    ensures AllFlatsStand(flats[kind := slice], values[kind := meant], area + more)
  {
    var flats', values' := flats[kind := slice], values[kind := meant];
    FlatsLarger(slice[..], meant, more, area + more);
    forall k ensures FlatsStandAt(flats', values', area + more, k) {
      assert FlatsStandAt(flats, values, area, k);
      if k in flats { FlatsLarger(flats[k][..], values[k], area, area + more); }
    }
  }

  // ---------- copies ----------

  /** `clonePointer` on two fields. */
  method ClonePair<T>(a: Cell?<T>, b: Cell?<T>) returns (x: Cell?<T>, y: Cell?<T>, ghost area: set<object>)
    ensures fresh(area) && In(x, area) && In(y, area) && Load(x) == Load(a) && Load(y) == Load(b)
  {
    x := ClonePointer(a);
    y := ClonePointer(b);
    area := Of(x) + Of(y);
  }

  /** `slices.Clone` of strings. */
  method CloneStrings(list: array<string>) returns (copy: array<string>)
    ensures fresh(copy) && copy[..] == list[..]
  {
    copy := new string[list.Length](i requires 0 <= i < list.Length reads list => list[i]);
  }

  /** `cloneCluster`. */
  method CloneClusterReferences(p: References, ghost v: Fields, ghost given: set<object>)
    returns (r: References, ghost area: set<object>)
    requires p.ClusterReferences? && ReferencesStand(p, v, given)
    ensures fresh(area) && ReferencesStand(r, v, area)
  {
    var versions := CloneStrings(p.versions);
    var profiles := CloneStrings(p.profiles);
    var health, total, first := ClonePair(p.health, p.total);
    var used, available, second := ClonePair(p.used, p.available);
    var objects := ClonePointer(p.objects);
    r := ClusterReferences(versions, profiles, health, total, used, available, objects);
    area := {versions, profiles} + first + second + Of(objects);
  }

  method CloneUsage(u: Usage, ghost v: UsageValues, ghost given: set<object>)
    returns (r: Usage, ghost area: set<object>)
    requires UsageStands(u, v, given)
    ensures fresh(area) && UsageStands(r, v, area)
  {
    var owner, group, texts := ClonePair(u.owner, u.group);
    var used, objects, amounts := ClonePair(u.used, u.objects);
    var soft, hard, quotas := ClonePair(u.soft, u.hard);
    r, area := Usage(owner, used, objects, soft, hard, group), texts + amounts + quotas;
  }

  method CloneTraits(t: Traits, ghost v: TraitValues, ghost given: set<object>)
    returns (r: Traits, ghost area: set<object>)
    requires TraitsStand(t, v, given)
    ensures fresh(area) && TraitsStand(r, v, area)
  {
    var versioning, encryption, flags := ClonePair(t.versioning, t.encryption);
    var locked := ClonePointer(t.locked);
    var retention := ClonePointer(t.retention);
    var created, modified, times := ClonePair(t.created, t.modified);
    r := Traits(versioning, encryption, locked, retention, created, modified);
    area := flags + times + Of(locked) + Of(retention);
  }

  /** The loop body of `cloneNamespaces`. */
  method CloneNamespaceReferences(p: References, ghost v: Fields, ghost given: set<object>)
    returns (r: References, ghost area: set<object>)
    requires p.NamespaceReferences? && ReferencesStand(p, v, given)
    ensures fresh(area) && ReferencesStand(r, v, area)
  {
    var audit := ClonePointer(p.audit);
    var sampled := ClonePointer(p.sampled);
    var usage, shared := CloneUsage(p.usage, v.usage, given);
    r, area := NamespaceReferences(usage, audit, sampled), shared + Of(audit) + Of(sampled);
    UsageLarger(usage, v.usage, shared, area);
  }

  /** The loop body of `cloneBuckets`. */
  method CloneBucketReferences(p: References, ghost v: Fields, ghost given: set<object>)
    returns (r: References, ghost area: set<object>)
    requires p.BucketReferences? && ReferencesStand(p, v, given)
    ensures fresh(area) && ReferencesStand(r, v, area)
  {
    var audit := ClonePointer(p.audit);
    var sampled := ClonePointer(p.sampled);
    var usage, shared := CloneUsage(p.usage, v.usage, given);
    var traits, own := CloneTraits(p.traits, v.traits, given);
    r, area := BucketReferences(usage, traits, audit, sampled), shared + own + Of(audit) + Of(sampled);
    UsageLarger(usage, v.usage, shared, area);
    TraitsLarger(traits, v.traits, own, area);
  }

  /** `clonePointer` on every pointer and `slices.Clone` on every slice of the record. */
  method CloneReferences(p: References, ghost fields: Fields, ghost given: set<object>)
    returns (r: References, ghost area: set<object>)
    requires ReferencesStand(p, fields, given)
    ensures fresh(area) && ReferencesStand(r, fields, area)
  {
    match p
    case ClusterReferences(_, _, _, _, _, _, _) =>
      r, area := CloneClusterReferences(p, fields, given);
    case NamespaceReferences(_, _, _) =>
      r, area := CloneNamespaceReferences(p, fields, given);
    case BucketReferences(_, _, _, _) =>
      r, area := CloneBucketReferences(p, fields, given);
    case NoReferences =>
      r, area := p, {};
  }

  /** One record: `cloneCluster`, or the loop body of `cloneNamespaces`, `cloneBuckets` and
      `slices.Clone`. */
  method CloneFlat(r: FlatRecord, ghost value: Flat, ghost given: set<object>)
    returns (c: FlatRecord, ghost area: set<object>)
    requires FlatStands(r, value, given)
    ensures fresh(area) && FlatStands(c, value, area)
  {
    var references;
    references, area := CloneReferences(r.references, value.fields, given);
    c := FlatRecord(r.facts, references);
  }

  method CloneFlats(records: seq<FlatRecord>, ghost values: seq<Flat>, ghost given: set<object>)
    returns (r: seq<FlatRecord>, ghost area: set<object>)
    requires FlatsStand(records, values, given)
    ensures fresh(area) && FlatsStand(r, values, area)
  {
    r, area := [], {};
    for k := 0 to |records|
      invariant fresh(area) && FlatsStand(r, values[..k], area)
    {
      assert FlatsStand(records, values, given);
      assert FlatStands(records[k], values[k], given);
      var c, more := CloneFlat(records[k], values[k], given);
      FlatsConcat(r, values[..k], area, [c], [values[k]], more);
      Cut(values, k);
      r, area := r + [c], area + more;
    }
    assert values[..|records|] == values;
  }

  /** A new slice of new records with the same values. */
  method CloneFlatSlice(records: array<FlatRecord>, ghost values: seq<Flat>, ghost given: set<object>)
    returns (r: array<FlatRecord>, ghost area: set<object>)
    requires FlatsStand(records[..], values, given)
    ensures fresh(area) && r in area && FlatsStand(r[..], values, area)
  {
    var cloned, inner := CloneFlats(records[..], values, given);
    r := FlatSlice(cloned);
    area := inner + {r};
    FlatsLarger(cloned, values, inner, area);
  }

  method FlatSlice(records: seq<FlatRecord>) returns (r: array<FlatRecord>)
    ensures fresh(r) && r[..] == records
  {
    r := new FlatRecord[|records|](i requires 0 <= i < |records| => records[i]);
  }

  // ---------- building records ----------

  /** A new cell for a value, or nil. */
  method NewPointer<T>(value: Option<T>) returns (p: Cell?<T>)
    ensures Load(p) == value && (p != null ==> fresh(p))
  {
    if value.None? {
      return null;
    }
    p := new Cell(value.value);
  }

  method NewPair<T>(a: Option<T>, b: Option<T>) returns (x: Cell?<T>, y: Cell?<T>, ghost area: set<object>)
    ensures fresh(area) && In(x, area) && In(y, area) && Load(x) == a && Load(y) == b
  {
    x := NewPointer(a);
    y := NewPointer(b);
    area := Of(x) + Of(y);
  }

  method NewStrings(value: seq<string>) returns (list: array<string>)
    ensures fresh(list) && list[..] == value
  {
    list := new string[|value|](i requires 0 <= i < |value| => value[i]);
    assert list[..] == value;
  }

  method NewReferences(fields: Fields) returns (r: References, ghost area: set<object>)
    ensures fresh(area) && ReferencesStand(r, fields, area)
  {
    match fields
    case ClusterFields(_, _, _, _, _, _, _) =>
      r, area := NewClusterReferences(fields);
    case NamespaceFields(_, _, _) =>
      r, area := NewNamespaceReferences(fields);
    case BucketFields(_, _, _, _) =>
      r, area := NewBucketReferences(fields);
    case NoFields =>
      r, area := NoReferences, {};
  }

  method NewClusterReferences(v: Fields) returns (r: References, ghost area: set<object>)
    requires v.ClusterFields?
    ensures fresh(area) && ReferencesStand(r, v, area)
  {
    var versions := NewStrings(v.versions);
    var profiles := NewStrings(v.profiles);
    var health, total, first := NewPair(v.health, v.total);
    var used, available, second := NewPair(v.used, v.available);
    var objects := NewPointer(v.objects);
    r := ClusterReferences(versions, profiles, health, total, used, available, objects);
    area := {versions, profiles} + first + second + Of(objects);
  }

  method NewUsage(v: UsageValues) returns (r: Usage, ghost area: set<object>)
    ensures fresh(area) && UsageStands(r, v, area)
  {
    var owner, group, texts := NewPair(v.owner, v.group);
    var used, objects, amounts := NewPair(v.used, v.objects);
    var soft, hard, quotas := NewPair(v.soft, v.hard);
    r, area := Usage(owner, used, objects, soft, hard, group), texts + amounts + quotas;
  }

  method NewTraits(v: TraitValues) returns (r: Traits, ghost area: set<object>)
    ensures fresh(area) && TraitsStand(r, v, area)
  {
    var versioning, encryption, flags := NewPair(v.versioning, v.encryption);
    var locked := NewPointer(v.locked);
    var retention := NewPointer(v.retention);
    var created, modified, times := NewPair(v.created, v.modified);
    r := Traits(versioning, encryption, locked, retention, created, modified);
    area := flags + times + Of(locked) + Of(retention);
  }

  method NewNamespaceReferences(v: Fields) returns (r: References, ghost area: set<object>)
    requires v.NamespaceFields?
    ensures fresh(area) && ReferencesStand(r, v, area)
  {
    var audit := NewPointer(v.audit);
    var sampled := NewPointer(v.sampled);
    var usage, shared := NewUsage(v.usage);
    r, area := NamespaceReferences(usage, audit, sampled), shared + Of(audit) + Of(sampled);
    UsageLarger(usage, v.usage, shared, area);
  }

  method NewBucketReferences(v: Fields) returns (r: References, ghost area: set<object>)
    requires v.BucketFields?
    ensures fresh(area) && ReferencesStand(r, v, area)
  {
    var audit := NewPointer(v.audit);
    var sampled := NewPointer(v.sampled);
    var usage, shared := NewUsage(v.usage);
    var traits, own := NewTraits(v.traits);
    r, area := BucketReferences(usage, traits, audit, sampled), shared + own + Of(audit) + Of(sampled);
    UsageLarger(usage, v.usage, shared, area);
    TraitsLarger(traits, v.traits, own, area);
  }

  method NewFlat(value: Flat) returns (r: FlatRecord, ghost area: set<object>)
    ensures fresh(area) && FlatStands(r, value, area)
  {
    var references;
    references, area := NewReferences(value.fields);
    r := FlatRecord(value.facts, references);
  }

  /** New records for some values. */
  method NewFlats(values: seq<Flat>) returns (r: array<FlatRecord>, ghost area: set<object>)
    ensures fresh(r) && fresh(area) && FlatsStand(r[..], values, area)
  {
    var records: seq<FlatRecord> := [];
    area := {};
    for k := 0 to |values|
      invariant fresh(area) && FlatsStand(records, values[..k], area)
    {
      var c, more := NewFlat(values[k]);
      FlatsConcat(records, values[..k], area, [c], [values[k]], more);
      Cut(values, k);
      records, area := records + [c], area + more;
    }
    assert values[..|values|] == values;
    r := FlatSlice(records);
  }

  // ---------- sorting records ----------

  lemma FlatsSplit(records: seq<FlatRecord>, values: seq<Flat>, area: set<object>)
    requires FlatsStand(records, values, area) && records != []
    ensures FlatStands(records[0], values[0], area) && FlatsStand(records[1..], values[1..], area)
    ensures FlatsStand(records[..|records| - 1], values[..|records| - 1], area)
    ensures FlatStands(records[|records| - 1], values[|records| - 1], area)
  {
  }

  lemma FlatFirst(r: FlatRecord, value: Flat, records: seq<FlatRecord>, values: seq<Flat>, area: set<object>)
    requires FlatStands(r, value, area) && FlatsStand(records, values, area)
    ensures FlatsStand([r] + records, [value] + values, area)
  {
  }

  lemma {:induction false} InsertFlatStands(records: seq<FlatRecord>, values: seq<Flat>, area: set<object>,
                                            r: FlatRecord, value: Flat)
    requires FlatsStand(records, values, area) && FlatStands(r, value, area)
    ensures FlatsStand(Insert(records, r, FlatRecordKey, TupleLeq), Insert(values, value, FlatKey, TupleLeq), area)
  {
    if records == [] {
      FlatFirst(r, value, records, values, area);
    } else {
      FlatsSplit(records, values, area);
      if TupleLeq(FlatRecordKey(records[0]), FlatRecordKey(r)) {
        InsertFlatStands(records[1..], values[1..], area, r, value);
        FlatFirst(records[0], values[0], Insert(records[1..], r, FlatRecordKey, TupleLeq),
                  Insert(values[1..], value, FlatKey, TupleLeq), area);
      } else {
        FlatFirst(r, value, records, values, area);
      }
    }
  }

  lemma {:induction false} SortFlatsStand(records: seq<FlatRecord>, values: seq<Flat>, area: set<object>)
    requires FlatsStand(records, values, area)
    ensures FlatsStand(Sort(records, FlatRecordKey, TupleLeq), Sort(values, FlatKey, TupleLeq), area)
  {
    if records != [] {
      var k := |records| - 1;
      FlatsSplit(records, values, area);
      SortFlatsStand(records[..k], values[..k], area);
      InsertFlatStands(Sort(records[..k], FlatRecordKey, TupleLeq), Sort(values[..k], FlatKey, TupleLeq), area,
                       records[k], values[k]);
    }
  }

  /** The slice of a snapshot: the records in order. */
  method SortedFlats(records: seq<FlatRecord>, ghost values: seq<Flat>, ghost area: set<object>)
    returns (r: array<FlatRecord>)
    requires FlatsStand(records, values, area)
    ensures fresh(r) && FlatsStand(r[..], Sort(values, FlatKey, TupleLeq), area)
  {
    SortFlatsStand(records, values, area);
    r := FlatSlice(Sort(records, FlatRecordKey, TupleLeq));
  }
}
