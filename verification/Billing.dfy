/**
 The billing join: one batch request per namespace, a single lookup for every bucket the
 batch does not mention, and the buckets updated in place. The specification speaks of
 (namespace, name) pairs; the code of NUL-joined keys in hash maps.
 */
module Billing {
  import opened Common
  import opened Text
  import Paginator

  const NAME_LIMIT: nat := 255

  datatype Billing = Billing(usedBytes: real, objectCount: real, sampleAt: Option<int>)

  datatype Bucket = Bucket(
    namespace: string, name: string, attributes: Paginator.Attributes, billing: Option<Billing>)

  /** One decoded entry of a batch; `billing` is absent when its numbers are not acceptable. */
  datatype RawBilling = RawBilling(namespace: string, name: string, billing: Option<Billing>)

  datatype BatchReply =
    | Entries(entries: seq<RawBilling>)
    | Undecodable
    | ApiFailure(status: int)
    | OtherFailure

  /** The management API: any function of what it is asked. */
  datatype Server = Server(batch: (string, seq<string>) -> BatchReply, single: (string, string) -> Result<Billing>)

  predicate BatchUnsupported(reply: BatchReply) {
    reply.ApiFailure? && (reply.status == 404 || reply.status == 405 || reply.status == 501)
  }

  // ---------- what is promised, on pairs ----------

  type Pair = (string, string)

  function PairOf(b: Bucket): Pair {
    (b.namespace, b.name)
  }

  /** The names of one namespace, in listing order: the ids of its batch request. */
  function NamesIn(pairs: seq<Pair>, namespace: string): seq<string> {
    if pairs == [] then []
    else
      NamesIn(pairs[..|pairs| - 1], namespace)
      + if pairs[|pairs| - 1].0 == namespace then [pairs[|pairs| - 1].1] else []
  }

  ghost predicate EntryOk(lib: Library, e: RawBilling) {
    lib.Normalize(e.name, NAME_LIMIT) != "" && lib.Normalize(e.namespace, NAME_LIMIT) != "" && e.billing.Some?
  }

  ghost predicate EntriesOk(lib: Library, entries: seq<RawBilling>) {
    && (forall e :: e in entries ==> EntryOk(lib, e))
    && (forall i, j :: 0 <= i < j < |entries| ==>
          (entries[i].namespace, entries[i].name) != (entries[j].namespace, entries[j].name))
  }

  /** The batch of a namespace may be used: acceptable entries, all of them requested; or the
      server does not support batches. */
  ghost predicate BatchUsable(lib: Library, server: Server, pairs: seq<Pair>, namespace: string) {
    var reply := server.batch(namespace, NamesIn(pairs, namespace));
    || BatchUnsupported(reply)
    || (&& reply.Entries? && EntriesOk(lib, reply.entries)
        && forall e :: e in reply.entries ==> (e.namespace, e.name) in pairs && e.namespace == namespace)
  }

  /** The billing a bucket must get: its batch entry if there is one, else its own lookup. */
  ghost function Wanted(server: Server, pairs: seq<Pair>, p: Pair): Result<Billing> {
    var reply := server.batch(p.0, NamesIn(pairs, p.0));
    if reply.Entries? && exists e :: e in reply.entries && (e.namespace, e.name) == p && e.billing.Some? then
      var e :| e in reply.entries && (e.namespace, e.name) == p && e.billing.Some?;
      Ok(e.billing.value)
    else server.single(p.0, p.1)
  }

  ghost predicate Joinable(lib: Library, server: Server, pairs: seq<Pair>) {
    forall p :: p in pairs ==> BatchUsable(lib, server, pairs, p.0) && Wanted(server, pairs, p).Ok?
  }

  /** A refused batch stops the join, unless the server does not know batches. */
  lemma RefusalsStopJoin(lib: Library, server: Server, pairs: seq<Pair>, p: Pair)
    requires p in pairs && !server.batch(p.0, NamesIn(pairs, p.0)).Entries?
    requires var reply := server.batch(p.0, NamesIn(pairs, p.0));
             !(reply.ApiFailure? && (reply.status == 404 || reply.status == 405 || reply.status == 501))
    ensures !Joinable(lib, server, pairs)
  {
  }

  /** A server that does not know batches is asked for every bucket on its own. */
  lemma WithoutBatches(lib: Library, server: Server, pairs: seq<Pair>)
    requires forall p :: p in pairs ==>
               var reply := server.batch(p.0, NamesIn(pairs, p.0));
               reply.ApiFailure? && (reply.status == 404 || reply.status == 405 || reply.status == 501)
    ensures Joinable(lib, server, pairs) <==> forall p :: p in pairs ==> server.single(p.0, p.1).Ok?
    ensures forall p :: p in pairs ==> Wanted(server, pairs, p) == server.single(p.0, p.1)
  {
  }

  // ---------- the batch parser ----------

  type BillingMap = map<string, Billing>

  ghost predicate Indexes(m: BillingMap, entries: seq<RawBilling>) {
    && (forall e :: e in entries ==>
          e.billing.Some? && Key(e.namespace, e.name) in m && m[Key(e.namespace, e.name)] == e.billing.value)
    && (forall k :: k in m ==> exists e :: e in entries && Key(e.namespace, e.name) == k)
  }

  lemma PrefixOk(lib: Library, entries: seq<RawBilling>, k: nat)
    requires EntriesOk(lib, entries) && k <= |entries|
    ensures EntriesOk(lib, entries[..k])
  {
    forall e | e in entries[..k] ensures e in entries {
    }
  }

  /** An entry that can follow the ones before it. */
  ghost predicate EntryFits(lib: Library, done: seq<RawBilling>, e: RawBilling) {
    EntryOk(lib, e) && forall i :: 0 <= i < |done| ==> (done[i].namespace, done[i].name) != (e.namespace, e.name)
  }

  lemma OneMoreEntry(lib: Library, done: seq<RawBilling>, e: RawBilling)
    requires EntriesOk(lib, done)
    ensures EntriesOk(lib, done + [e]) <==> EntryFits(lib, done, e)
  {
    var longer := done + [e];
    assert longer[|done|] == e && e in longer;
    assert forall i :: 0 <= i < |done| ==> longer[i] == done[i];
    assert forall f :: f in longer <==> f in done || f == e;
  }

  lemma OneMoreIndexed(m: BillingMap, done: seq<RawBilling>, e: RawBilling)
    requires Indexes(m, done) && e.billing.Some? && Key(e.namespace, e.name) !in m
    ensures Indexes(m[Key(e.namespace, e.name) := e.billing.value], done + [e])
  {
    assert forall f :: f in done + [e] <==> f in done || f == e;
  }

  /** The loop body: one entry. */
  method ParseEntry(lib: Library, m: BillingMap, e: RawBilling, ghost done: seq<RawBilling>)
    returns (r: Result<BillingMap>)
    requires lib.Valid() && EntriesOk(lib, done) && Indexes(m, done)
    ensures r.Ok? <==> EntryFits(lib, done, e)
    ensures r.Ok? ==> Indexes(r.value, done + [e])
  {
    if lib.Normalize(e.name, NAME_LIMIT) == "" || lib.Normalize(e.namespace, NAME_LIMIT) == "" {
      return Err("bucket billing batch item name and namespace are required");
    }
    NormalizedIsNulFree(lib, e.name, NAME_LIMIT);
    NormalizedIsNulFree(lib, e.namespace, NAME_LIMIT);
    var key := Key(e.namespace, e.name);
    KeySeen(m, done, e);
    if key in m {
      return Err("bucket billing batch contains duplicate item");
    }
    if e.billing.None? {
      return Err("billing is invalid");
    }
    OneMoreIndexed(m, done, e);
    r := Ok(m[key := e.billing.value]);
  }

  /** `ParseBucketBillings` on decoded entries. */
  method ParseBatch(lib: Library, entries: seq<RawBilling>) returns (r: Result<BillingMap>)
    requires lib.Valid()
    ensures r.Ok? <==> EntriesOk(lib, entries)
    ensures r.Ok? ==> Indexes(r.value, entries)
  {
    var m: BillingMap := map[];
    for k := 0 to |entries|
      invariant EntriesOk(lib, entries[..k]) && Indexes(m, entries[..k])
    {
      Cut(entries, k);
      OneMoreEntry(lib, entries[..k], entries[k]);
      r := ParseEntry(lib, m, entries[k], entries[..k]);
      if r.Err? {
        if EntriesOk(lib, entries) { PrefixOk(lib, entries, k + 1); }
        return;
      }
      m := r.value;
    }
    assert entries[..|entries|] == entries;
    r := Ok(m);
  }

  /** For a name without NUL bytes, looking up its key is looking up its pair. */
  lemma KeySeen(m: BillingMap, entries: seq<RawBilling>, e: RawBilling)
    requires Indexes(m, entries) && NulFree(e.namespace) && NulFree(e.name)
    ensures Key(e.namespace, e.name) in m
       <==> exists i :: 0 <= i < |entries| && (entries[i].namespace, entries[i].name) == (e.namespace, e.name)
  {
    if Key(e.namespace, e.name) in m {
      var f :| f in entries && Key(f.namespace, f.name) == Key(e.namespace, e.name);
      KeyNamesPair(e.namespace, e.name, f.namespace, f.name);
      var i :| 0 <= i < |entries| && entries[i] == f;
    }
  }

  // ---------- the join ----------

  /** The grouping loop: the indexes of each namespace, ascending. */
  ghost predicate Groups(groups: map<string, seq<nat>>, pairs: seq<Pair>, n: nat) {
    && n <= |pairs|
    && (forall ns :: ns in groups <==> Occurs(pairs, ns, n))
    && (forall ns :: ns in groups ==> GroupOf(groups[ns], pairs, ns, n))
  }

  /** One of the first pairs is of the namespace. */
  ghost predicate Occurs(pairs: seq<Pair>, ns: string, n: nat)
    requires n <= |pairs|
  {
    exists i :: 0 <= i < n && pairs[i].0 == ns
  }

  lemma OccursStep(pairs: seq<Pair>, ns: string, n: nat)
    requires n < |pairs|
    ensures Occurs(pairs, ns, n + 1) <==> Occurs(pairs, ns, n) || pairs[n].0 == ns
  {
  }

  ghost predicate GroupOf(group: seq<nat>, pairs: seq<Pair>, ns: string, n: nat)
    requires n <= |pairs|
  {
    && (forall k :: 0 <= k < |group| ==> group[k] < n)
    && (forall i: nat :: i in group <==> i < n && pairs[i].0 == ns)
    && (forall j, k :: 0 <= j < k < |group| ==> group[j] != group[k])
    && |group| == |NamesIn(pairs[..n], ns)|
    && (forall k :: 0 <= k < |group| ==> pairs[group[k]].1 == NamesIn(pairs[..n], ns)[k])
  }

  ghost function Pairs(buckets: seq<Bucket>): (r: seq<Pair>)
    ensures |r| == |buckets| && forall i :: 0 <= i < |r| ==> r[i] == PairOf(buckets[i])
  {
    seq(|buckets|, i requires 0 <= i < |buckets| => PairOf(buckets[i]))
  }

  lemma {:induction false} NamesElsewhere(pairs: seq<Pair>, ns: string)
    requires forall i :: 0 <= i < |pairs| ==> pairs[i].0 != ns
    ensures NamesIn(pairs, ns) == []
  {
    if pairs != [] { NamesElsewhere(pairs[..|pairs| - 1], ns); }
  }

  method GroupByNamespace(a: array<Bucket>) returns (groups: map<string, seq<nat>>)
    ensures Groups(groups, Pairs(a[..]), a.Length)
  {
    groups := map[];
    ghost var pairs := Pairs(a[..]);
    for n := 0 to a.Length
      invariant Groups(groups, pairs, n)
    {
      assert pairs[n] == PairOf(a[n]);
      var ns := a[n].namespace;
      var earlier := if ns in groups then groups[ns] else [];
      GroupsGrow(groups, earlier, pairs, n);
      groups := groups[ns := earlier + [n]];
    }
  }

  lemma GroupsGrow(groups: map<string, seq<nat>>, earlier: seq<nat>, pairs: seq<Pair>, n: nat)
    requires n < |pairs| && Groups(groups, pairs, n)
    requires earlier == if pairs[n].0 in groups then groups[pairs[n].0] else []
    ensures Groups(groups[pairs[n].0 := earlier + [n]], pairs, n + 1)
  {
    var ns := pairs[n].0;
    if ns !in groups {
      NoneEarlier(groups, pairs, n);
    }
    GroupGains(earlier, pairs, ns, n);
    var grown := groups[ns := earlier + [n]];
    forall other ensures other in grown <==> Occurs(pairs, other, n + 1) {
      OccursStep(pairs, other, n);
    }
    forall other | other in grown ensures GroupOf(grown[other], pairs, other, n + 1) {
      if other != ns { GroupStays(groups[other], pairs, other, n); }
    }
  }

  lemma NoneEarlier(groups: map<string, seq<nat>>, pairs: seq<Pair>, n: nat)
    requires n < |pairs| && Groups(groups, pairs, n) && pairs[n].0 !in groups
    ensures GroupOf([], pairs, pairs[n].0, n)
  {
    forall i | 0 <= i < n ensures pairs[..n][i].0 != pairs[n].0 {}
    NamesElsewhere(pairs[..n], pairs[n].0);
  }

  lemma NamesStep(pairs: seq<Pair>, ns: string, n: nat)
    requires n < |pairs|
    ensures NamesIn(pairs[..n + 1], ns) == NamesIn(pairs[..n], ns) + if pairs[n].0 == ns then [pairs[n].1] else []
  {
    assert pairs[..n + 1][..n] == pairs[..n];
  }

  lemma GroupGains(group: seq<nat>, pairs: seq<Pair>, ns: string, n: nat)
    requires n < |pairs| && GroupOf(group, pairs, ns, n) && pairs[n].0 == ns
    ensures GroupOf(group + [n], pairs, ns, n + 1)
  {
    NamesStep(pairs, ns, n);
    var names := NamesIn(pairs[..n], ns);
    assert forall i: nat :: i in group + [n] <==> i in group || i == n;
  }

  lemma GroupStays(group: seq<nat>, pairs: seq<Pair>, ns: string, n: nat)
    requires n < |pairs| && GroupOf(group, pairs, ns, n) && pairs[n].0 != ns
    ensures GroupOf(group, pairs, ns, n + 1)
  {
    NamesStep(pairs, ns, n);
  }

  /** A namespace's buckets after its round: every one carries its wanted billing. */
  ghost predicate Filled(now: seq<Bucket>, before: seq<Bucket>, server: Server, pairs: seq<Pair>, touched: set<nat>) {
    && |now| == |before| == |pairs|
    && forall i: nat :: i < |now| ==>
         if i in touched then Wanted(server, pairs, pairs[i]).Ok?
           && now[i] == before[i].(billing := Some(Wanted(server, pairs, pairs[i]).value))
         else now[i] == before[i]
  }

  /** The buckets of all namespaces but the remaining ones carry their wanted billing. */
  ghost predicate FilledExcept(now: seq<Bucket>, before: seq<Bucket>, server: Server, pairs: seq<Pair>,
                               remaining: set<string>) {
    && |now| == |before| == |pairs|
    && forall i: nat :: i < |now| ==>
         if pairs[i].0 in remaining then now[i] == before[i]
         else
           && Wanted(server, pairs, pairs[i]).Ok?
           && now[i] == before[i].(billing := Some(Wanted(server, pairs, pairs[i]).value))
  }

  /** One round of the outer loop. */
  method EnrichNamespace(lib: Library, server: Server, a: array<Bucket>, ns: string, group: seq<nat>,
                         ghost pairs: seq<Pair>)
    returns (ok: bool)
    requires lib.Valid() && pairs == Pairs(a[..]) && GroupOf(group, pairs, ns, |pairs|)
    modifies a
    ensures Pairs(a[..]) == pairs
    ensures ok <==> BatchUsable(lib, server, pairs, ns) && forall i ::
              i in group ==> Wanted(server, pairs, pairs[i]).Ok?
    ensures ok ==> Filled(a[..], old(a[..]), server, pairs, set i | i in group)
  {
    var ids := [];
    for k := 0 to |group|
      invariant |ids| == k && forall j :: 0 <= j < k ==> ids[j] == pairs[group[j]].1
    {
      ids := ids + [a[group[k]].name];
    }
    assert pairs[..|pairs|] == pairs;
    assert ids == NamesIn(pairs, ns);
    var reply := server.batch(ns, ids);
    var billings: BillingMap := map[];
    if reply.Entries? {
      var parsed := ParseBatch(lib, reply.entries);
      if parsed.Err? {
        return false;
      }
      billings := parsed.value;
      var requested := RequestedOnly(lib, billings, reply.entries, ns, ids);
      RequestedPairs(pairs, ns, group, ids);
      if !requested {
        return false;
      }
    } else if !BatchUnsupported(reply) {
      return false;
    }
    ok := Distribute(lib, server, a, ns, group, billings, pairs);
  }

  /** Every key of the batch is one that was asked for. */
  method RequestedOnly(lib: Library, billings: BillingMap, entries: seq<RawBilling>, ns: string, ids: seq<string>)
    returns (ok: bool)
    requires lib.Valid() && EntriesOk(lib, entries) && Indexes(billings, entries)
    ensures ok <==> forall e :: e in entries ==> e.namespace == ns && e.name in ids
  {
    var requested: set<string> := {};
    for k := 0 to |ids|
      invariant forall key :: key in requested <==> exists j :: 0 <= j < k && Key(ns, ids[j]) == key
    {
      requested := requested + {Key(ns, ids[k])};
    }
    forall e | e in entries ensures Key(e.namespace, e.name) in requested <==> e.namespace == ns && e.name in ids {
      NormalizedIsNulFree(lib, e.name, NAME_LIMIT);
      NormalizedIsNulFree(lib, e.namespace, NAME_LIMIT);
      forall j | 0 <= j < |ids| ensures Key(e.namespace, e.name) == Key(ns, ids[j])
        <==> e.namespace == ns && e.name == ids[j] {
        KeyNamesPair(e.namespace, e.name, ns, ids[j]);
      }
    }
    ok := forall key :: key in billings ==> key in requested;
  }

  lemma RequestedPairs(pairs: seq<Pair>, ns: string, group: seq<nat>, ids: seq<string>)
    requires GroupOf(group, pairs, ns, |pairs|) && |ids| == |group|
    requires forall k :: 0 <= k < |group| ==> ids[k] == pairs[group[k]].1
    ensures forall name :: name in ids <==> (ns, name) in pairs
  {
    forall name | (ns, name) in pairs ensures name in ids {
      var i: nat :| i < |pairs| && pairs[i] == (ns, name);
      assert i in group;
      var k :| 0 <= k < |group| && group[k] == i;
      assert ids[k] == name;
    }
  }

  /** A bucket's entry in the map of the batch, or a lookup of its own. */
  method BillingFor(lib: Library, server: Server, ns: string, name: string, billings: BillingMap,
                    ghost pairs: seq<Pair>)
    returns (r: Result<Billing>)
    requires lib.Valid()
    requires var reply := server.batch(ns, NamesIn(pairs, ns));
             if reply.Entries? then EntriesOk(lib, reply.entries) && Indexes(billings, reply.entries)
             else billings == map[]
    ensures r == Wanted(server, pairs, (ns, name))
  {
    WantedIsLookup(lib, server, pairs, (ns, name), billings);
    var key := Key(ns, name);
    if key in billings {
      return Ok(billings[key]);
    }
    r := server.single(ns, name);
  }

  /** The inner loop: the batch entry, or a lookup of its own, for each bucket of the group. */
  method Distribute(lib: Library, server: Server, a: array<Bucket>, ns: string, group: seq<nat>, billings: BillingMap,
                    ghost pairs: seq<Pair>)
    returns (ok: bool)
    requires lib.Valid() && pairs == Pairs(a[..]) && GroupOf(group, pairs, ns, |pairs|)
    requires var reply := server.batch(ns, NamesIn(pairs, ns));
             if reply.Entries? then EntriesOk(lib, reply.entries) && Indexes(billings, reply.entries)
             else billings == map[]
    modifies a
    ensures Pairs(a[..]) == pairs
    ensures ok <==> forall i :: i in group ==> Wanted(server, pairs, pairs[i]).Ok?
    ensures ok ==> Filled(a[..], old(a[..]), server, pairs, set i | i in group)
  {
    ghost var before := a[..];
    for k := 0 to |group|
      invariant Pairs(a[..]) == pairs
      invariant Filled(a[..], before, server, pairs, set i | i in group[..k])
    {
      var i := group[k];
      assert pairs[i] == PairOf(a[i]) && pairs[i].0 == ns && i in group;
      assert group[..k + 1] == group[..k] + [i];
      assert i !in group[..k];
      var billing := BillingFor(lib, server, ns, a[i].name, billings, pairs);
      if billing.Err? {
        return false;
      }
      a[i] := a[i].(billing := Some(billing.value));
      assert Pairs(a[..]) == pairs;
    }
    assert group[..|group|] == group;
    ok := true;
  }

  /** Finding the key in the map of the batch is finding the pair's entry in the batch. */
  lemma WantedIsLookup(lib: Library, server: Server, pairs: seq<Pair>, p: Pair, billings: BillingMap)
    requires lib.Valid()
    requires var reply := server.batch(p.0, NamesIn(pairs, p.0));
             if reply.Entries? then EntriesOk(lib, reply.entries) && Indexes(billings, reply.entries)
             else billings == map[]
    ensures Wanted(server, pairs, p)
         == if Key(p.0, p.1) in billings then Ok(billings[Key(p.0, p.1)]) else server.single(p.0, p.1)
  {
    var reply := server.batch(p.0, NamesIn(pairs, p.0));
    if reply.Entries? {
      forall e | e in reply.entries ensures Key(e.namespace, e.name) == Key(p.0, p.1) <==> (e.namespace, e.name) == p {
        NormalizedIsNulFree(lib, e.name, NAME_LIMIT);
        NormalizedIsNulFree(lib, e.namespace, NAME_LIMIT);
        KeyNamesPair(e.namespace, e.name, p.0, p.1);
      }
    }
  }

  /** What is joined when the namespaces of `todo` remain. */
  ghost predicate JoinedBut(lib: Library, server: Server, now: seq<Bucket>, before: seq<Bucket>, pairs: seq<Pair>,
                            namespaces: set<string>, todo: set<string>) {
    FilledExcept(now, before, server, pairs, todo)
    && forall ns :: ns in namespaces && ns !in todo ==> BatchUsable(lib, server, pairs, ns)
  }

  /** The loop body: one namespace. */
  method JoinNamespace(lib: Library, server: Server, a: array<Bucket>, ns: string, group: seq<nat>,
                       ghost pairs: seq<Pair>,
                       ghost before: seq<Bucket>, ghost namespaces: set<string>, ghost todo: set<string>)
    returns (ok: bool)
    requires lib.Valid() && pairs == Pairs(a[..]) && GroupOf(group, pairs, ns, |pairs|)
    requires ns !in todo && Occurs(pairs, ns, |pairs|)
    requires JoinedBut(lib, server, a[..], before, pairs, namespaces, todo + {ns})
    modifies a
    ensures Pairs(a[..]) == pairs
    ensures ok ==> JoinedBut(lib, server, a[..], before, pairs, namespaces, todo)
    ensures !ok ==> !Joinable(lib, server, pairs)
  {
    ghost var mid := a[..];
    ok := EnrichNamespace(lib, server, a, ns, group, pairs);
    if ok {
      FilledCompose(a[..], mid, before, server, pairs, ns, group, todo);
    } else {
      Unjoinable(lib, server, pairs, ns, group);
    }
  }

  /** `enrichBucketBillings`: whatever order the namespaces come in, it succeeds exactly when
      every namespace's batch is usable and every bucket's billing can be had, and then every
      bucket carries exactly that billing and nothing else has changed. */
  method EnrichBillings(lib: Library, server: Server, a: array<Bucket>) returns (ok: bool)
    requires lib.Valid()
    modifies a
    ensures ok <==> Joinable(lib, server, Pairs(old(a[..])))
    ensures ok ==> FilledExcept(a[..], old(a[..]), server, Pairs(old(a[..])), {})
  {
    ghost var before, pairs := a[..], Pairs(a[..]);
    var groups := GroupByNamespace(a);
    var todo := groups.Keys;
    while todo != {}
      invariant todo <= groups.Keys
      invariant Pairs(a[..]) == pairs
      invariant JoinedBut(lib, server, a[..], before, pairs, groups.Keys, todo)
      decreases todo
    {
      var ns :| ns in todo;
      assert todo == (todo - {ns}) + {ns};
      todo := todo - {ns};
      ok := JoinNamespace(lib, server, a, ns, groups[ns], pairs, before, groups.Keys, todo);
      if !ok {
        return;
      }
    }
    AllJoined(lib, server, a[..], before, pairs, groups.Keys);
    ok := true;
  }

  lemma AllJoined(lib: Library, server: Server, now: seq<Bucket>, before: seq<Bucket>, pairs: seq<Pair>,
                  namespaces: set<string>)
    requires FilledExcept(now, before, server, pairs, {})
    requires forall ns :: ns in namespaces ==> BatchUsable(lib, server, pairs, ns)
    requires forall i :: 0 <= i < |pairs| ==> pairs[i].0 in namespaces
    ensures Joinable(lib, server, pairs)
  {
    forall p | p in pairs ensures BatchUsable(lib, server, pairs, p.0) && Wanted(server, pairs, p).Ok? {
      var i: nat :| i < |pairs| && pairs[i] == p;
    }
  }

  lemma Unjoinable(lib: Library, server: Server, pairs: seq<Pair>, ns: string, group: seq<nat>)
    requires GroupOf(group, pairs, ns, |pairs|) && Occurs(pairs, ns, |pairs|)
    requires !(BatchUsable(lib, server, pairs, ns) && forall i :: i in group ==> Wanted(server, pairs, pairs[i]).Ok?)
    ensures !Joinable(lib, server, pairs)
  {
    var i :| 0 <= i < |pairs| && pairs[i].0 == ns;
    assert pairs[i] in pairs;
    if j :| j in group && !Wanted(server, pairs, pairs[j]).Ok? {
      assert pairs[j] in pairs;
    }
  }

  lemma FilledCompose(now: seq<Bucket>, mid: seq<Bucket>, before: seq<Bucket>, server: Server, pairs: seq<Pair>,
                      ns: string, group: seq<nat>, todo: set<string>)
    requires ns !in todo && GroupOf(group, pairs, ns, |pairs|)
    requires FilledExcept(mid, before, server, pairs, todo + {ns})
    requires Filled(now, mid, server, pairs, set i | i in group)
    ensures FilledExcept(now, before, server, pairs, todo)
  {
    forall i: nat | i < |pairs|
      ensures if pairs[i].0 in todo then now[i] == before[i]
              else
                && Wanted(server, pairs, pairs[i]).Ok?
                && now[i] == before[i].(billing := Some(Wanted(server, pairs, pairs[i]).value)) {
      assert i in group <==> pairs[i].0 == ns;
    }
  }
}
