/**
 The bucket collector from end to end: the listing of all namespaces, the quota calls of the
 worker pool, the billing join, and the store.
 */
module BucketCollector {
  import opened Common
  import opened Text
  import opened HeapFlats
  import opened Cache
  import opened Collectors
  import WorkerPool
  import Paginator
  import Billing

  datatype Quota = Quota(soft: Option<real>, hard: Option<real>)

  /** The answers of the management API; no inventory means that its request failed. */
  datatype Api = Api(
    inventory: Option<seq<string>>, pageSize: nat, serve: (string, nat, string) -> Paginator.Reply,
    server: Billing.Server)

  /** How the worker pool went for some number of buckets: its final state, and what the quota call
      for each bucket got if it was made. */
  datatype Pool = Pool(limit: nat, final: nat -> WorkerPool.State, calls: nat -> Result<Quota>) {
    function Workers(n: nat): nat {
      if limit < n then limit else n
    }

    /** The final state is the end of some run of the pool, whose successful and failing calls are these. */
    ghost predicate EndsRun(n: nat, run: seq<WorkerPool.Action>) {
      && WorkerPool.LegalRun(WorkerPool.Initial(Workers(n), n), run)
        && final(n) == WorkerPool.After(WorkerPool.Initial(Workers(n), n), run) && WorkerPool.Done(final(n))
      && |final(n).jobs| == n
      && forall i :: 0 <= i < n ==>
          (final(n).jobs[i].Enriched? ==> calls(i).Ok?) && (final(n).jobs[i].Broken? ==> calls(i).Err?)
    }

    ghost predicate Valid() {
      limit >= 1 && forall n: nat :: n >= 1 ==> Ends(n)
    }

    ghost predicate Ends(n: nat) {
      exists run :: EndsRun(n, run)
    }
  }

  lemma PoolOutcome(pool: Pool, n: nat)
    requires pool.Valid() && n >= 1
    ensures var s := pool.final(n);
            && |s.jobs| == n && WorkerPool.Done(s) && s.next <= n
            && (s.sender.ReturnedError? <==> WorkerPool.Broken in s.jobs)
            && (s.sender.Billing? ==> forall i :: 0 <= i < n ==> (s.jobs[i].Enriched? <==> i < s.next))
            && (s.sender.Billing? ==> s.next == n || s.parentCancelled)
            && forall i :: 0 <= i < n && s.jobs[i].Enriched? ==> pool.calls(i).Ok?
  {
    assert pool.Ends(n);
    var run :| pool.EndsRun(n, run);
    WorkerPool.ReachableInvariant(pool.Workers(n), n, run);
    WorkerPool.ErrorMeansBroken(pool.final(n));
    if pool.final(n).sender.Billing? { WorkerPool.BillingMeansEnriched(pool.final(n)); }
  }

  // ---------- enrichment ----------

  function Unbilled(b: Paginator.Bucket): Billing.Bucket {
    Billing.Bucket(b.namespace, b.name, b.attributes, None)
  }

  ghost function PairsOf(listing: seq<Paginator.Bucket>): seq<Billing.Pair> {
    Billing.Pairs(Map(listing, Unbilled))
  }

  /** What the workers wrote: the quota of every bucket whose call succeeded. */
  function QuotasOf(pool: Pool, n: nat): (r: seq<Option<Quota>>)
    requires n >= 1 ==> |pool.final(n).jobs| == n
    ensures |r| == n
  {
    seq(n, i requires 0 <= i < n =>
      if pool.final(n).jobs[i].Enriched? && pool.calls(i).Ok? then Some(pool.calls(i).value) else None)
  }

  /** Under a cancelled context every request fails, and not as an unsupported one. */
  ghost predicate CancelledFails(pool: Pool, server: Billing.Server, n: nat) {
    n >= 1 && pool.final(n).parentCancelled ==>
      forall namespace, ids ::
          !server.batch(namespace, ids).Entries? && !Billing.BatchUnsupported(server.batch(namespace, ids))
  }

  /** The billing every bucket must get. */
  ghost predicate Billed(server: Billing.Server, listing: seq<Paginator.Bucket>, billed: seq<Billing.Bucket>) {
    && |billed| == |listing|
    && forall i :: 0 <= i < |listing| ==>
         var wanted := Billing.Wanted(server, PairsOf(listing), (listing[i].namespace, listing[i].name));
         wanted.Ok? && billed[i] == Unbilled(listing[i]).(billing := Some(wanted.value))
  }

  /** The enrichment succeeds: no quota call failed and the billings can be joined. */
  ghost predicate Enrichable(lib: Library, listing: seq<Paginator.Bucket>, pool: Pool, server: Billing.Server) {
    listing == [] || (pool.final(|listing|).sender.Billing? && Billing.Joinable(lib, server, PairsOf(listing)))
  }

  /** `enrichBuckets`. */
  method EnrichBuckets(lib: Library, listing: seq<Paginator.Bucket>, pool: Pool, server: Billing.Server)
    returns (ok: bool, billed: seq<Billing.Bucket>, quotas: seq<Option<Quota>>)
    requires lib.Valid() && pool.Valid()
    ensures ok <==> Enrichable(lib, listing, pool, server)
    ensures ok ==> Billed(server, listing, billed)
    ensures ok ==> (|listing| >= 1 ==> |pool.final(|listing|).jobs| == |listing|) && quotas == QuotasOf(pool, |listing|)
  {
    var n := |listing|;
    if n == 0 {
      return true, [], [];
    }
    PoolOutcome(pool, n);
    quotas := QuotasOf(pool, n);
    if pool.final(n).sender.ReturnedError? {
      return false, [], quotas;
    }
    var all := Map(listing, Unbilled);
    var a := new Billing.Bucket[n](i requires 0 <= i < n => all[i]);
    assert a[..] == all;
    ok := Billing.EnrichBillings(lib, server, a);
    billed := a[..];
  }

  /** If requests under a cancelled context fail, success means that every bucket has its quota and
      its billing, even when the parent context was cancelled meanwhile. */
  lemma SuccessIsComplete(lib: Library, listing: seq<Paginator.Bucket>, pool: Pool, server: Billing.Server)
    requires pool.Valid() && CancelledFails(pool, server, |listing|)
    requires Enrichable(lib, listing, pool, server)
    ensures |listing| >= 1 ==> |pool.final(|listing|).jobs| == |listing|
    ensures forall i :: 0 <= i < |listing| ==>
              pool.calls(i).Ok? && QuotasOf(pool, |listing|)[i] == Some(pool.calls(i).value)
  {
    if listing != [] {
      var n := |listing|;
      PoolOutcome(pool, n);
      SomeBatchIsUsable(lib, listing, server);
    }
  }

  lemma SomeBatchIsUsable(lib: Library, listing: seq<Paginator.Bucket>, server: Billing.Server)
    requires listing != [] && Billing.Joinable(lib, server, PairsOf(listing))
    ensures exists namespace, ids ::
              server.batch(namespace, ids).Entries? || Billing.BatchUnsupported(server.batch(namespace, ids))
  {
    var p := PairsOf(listing)[0];
    assert p in PairsOf(listing);
    assert Billing.BatchUsable(lib, server, PairsOf(listing), p.0);
  }

  // ---------- the collector ----------

  /** `ParseNamespaces`, as far as names go: each given and none twice. */
  method CheckNames(names: seq<string>) returns (ok: bool)
    ensures ok <==> "" !in names && Distinct(names)
  {
    var seen: set<string> := {};
    for k := 0 to |names|
      invariant "" !in names[..k] && Distinct(names[..k])
      invariant forall name :: name in seen <==> name in names[..k]
    {
      Cut(names, k);
      if names[k] == "" || names[k] in seen {
        return false;
      }
      seen := seen + {names[k]};
    }
    assert names[..|names|] == names;
    ok := true;
  }

  /** The server's listing of all namespaces, one after another. */
  ghost predicate ListsAll(api: Api, listings: seq<seq<Paginator.Bucket>>) {
    && api.inventory.Some? && "" !in api.inventory.value && Distinct(api.inventory.value)
    && |listings| == |api.inventory.value|
    && forall k :: 0 <= k < |listings| ==> ListsOne(api, listings, k)
  }

  ghost predicate ListsOne(api: Api, listings: seq<seq<Paginator.Bucket>>, k: nat)
    requires api.inventory.Some? && k < |listings| == |api.inventory.value|
  {
    var namespace := api.inventory.value[k];
    Paginator.Listed(Paginator.ServeNamespace(api.serve, namespace), namespace, api.pageSize, listings[k])
  }

  /** What is stored for a bucket: what the listing tells, its own quota once that was read, its billing. */
  function BucketFlat(cluster: string, now: int, b: Billing.Bucket, quota: Option<Quota>): Flat {
    var a := b.attributes;
    var soft := if quota.Some? then quota.value.soft else a.soft;
    var hard := if quota.Some? then quota.value.hard else a.hard;
    var used := if b.billing.Some? then Some(b.billing.value.usedBytes) else None;
    var objects := if b.billing.Some? then Some(b.billing.value.objectCount) else None;
    var sampled := if b.billing.Some? then b.billing.value.sampleAt else None;
    Flat(BucketFacts(cluster, b.namespace, b.name, soft.Some?, hard.Some?, now),
         BucketFields(UsageValues(a.owner, used, objects, soft, hard, a.group),
                      TraitValues(a.versioning, a.encryption, a.locked, a.retention, a.created, a.modified),
                      a.audit, sampled))
  }

  /** The same, field by field: the quotas of the quota call replace both of the listing. */
  lemma BucketIsShown(cluster: string, now: int, b: Billing.Bucket, quota: Option<Quota>)
    ensures var f := BucketFlat(cluster, now, b, quota).facts;
            var r := BucketFlat(cluster, now, b, quota).fields;
            && f.BucketFacts? && f.cluster == cluster && f.namespace == b.namespace && f.name == b.name
            && f.collectedAt == now && r.BucketFields?
            && (f.softConfigured <==> r.usage.soft.Some?) && (f.hardConfigured <==> r.usage.hard.Some?)
            && (quota.Some? ==> r.usage.soft == quota.value.soft && r.usage.hard == quota.value.hard)
            && (quota.None? ==> r.usage.soft == b.attributes.soft && r.usage.hard == b.attributes.hard)
            && r.usage.owner == b.attributes.owner && r.usage.group == b.attributes.group
            && r.traits.versioning == b.attributes.versioning && r.traits.encryption == b.attributes.encryption
            && r.traits.locked == b.attributes.locked && r.traits.retention == b.attributes.retention
            && r.traits.created == b.attributes.created && r.traits.modified == b.attributes.modified
            && r.audit == b.attributes.audit
    ensures var r := BucketFlat(cluster, now, b, quota).fields;
            && r.BucketFields?
            && (b.billing.Some? ==> r.usage.used == Some(b.billing.value.usedBytes)
                                    && r.usage.objects == Some(b.billing.value.objectCount)
                                    && r.sampled == b.billing.value.sampleAt)
            && (b.billing.None? ==> r.usage.used.None? && r.usage.objects.None? && r.sampled.None?)
  {
  }

  function BucketFlats(cluster: string, now: int, billed: seq<Billing.Bucket>, quotas: seq<Option<Quota>>)
    : (r: seq<Flat>)
    requires |billed| == |quotas|
    ensures |r| == |billed|
  {
    seq(|billed|, i requires 0 <= i < |billed| => BucketFlat(cluster, now, billed[i], quotas[i]))
  }

  /** The listing loop, from the inventory on. */
  method ListBuckets(api: Api) returns (r: Option<seq<Paginator.Bucket>>, ghost listings: seq<seq<Paginator.Bucket>>)
    ensures r.Some? ==>
              ListsAll(api, listings) && r.value == Paginator.Flatten(listings) && Paginator.DistinctPairs(r.value)
    ensures r.None? ==> forall any :: !ListsAll(api, any)
  {
    listings := [];
    if api.inventory.None? {
      return None, listings;
    }
    var names := api.inventory.value;
    var ok := CheckNames(names);
    if !ok {
      return None, listings;
    }
    var collected;
    collected, listings := Paginator.CollectAll(names, api.pageSize, api.serve);
    if collected.Err? {
      NotListed(api);
      return None, listings;
    }
    forall k | 0 <= k < |listings| ensures ListsOne(api, listings, k) {}
    r := Some(collected.value);
  }

  lemma NotListed(api: Api)
    requires api.inventory.Some? && Distinct(api.inventory.value)
    requires exists k :: 0 <= k < |api.inventory.value|
                         && Paginator.Unlistable(Paginator.ServeNamespace(api.serve, api.inventory.value[k]),
                                                 api.inventory.value[k], api.pageSize)
    ensures forall any :: !ListsAll(api, any)
  {
    var k :| 0 <= k < |api.inventory.value|
             && Paginator.Unlistable(Paginator.ServeNamespace(api.serve, api.inventory.value[k]),
                                     api.inventory.value[k], api.pageSize);
    var namespace := api.inventory.value[k];
    forall any | ListsAll(api, any)
      ensures Paginator.Listed(Paginator.ServeNamespace(api.serve, namespace), namespace, api.pageSize, any[k]) {
      assert ListsOne(api, any, k);
    }
    Paginator.UnlistableMeansNoListing(Paginator.ServeNamespace(api.serve, namespace), namespace, api.pageSize);
  }

  /** `CollectBuckets`. What is published is the whole listing with the billings wanted, and with every
      quota, provided that requests under a cancelled context fail. */
  method CollectBuckets(s: Store, name: string, bootstrapped: bool, lib: Library, api: Api, pool: Pool,
                        now: int)
    returns (r: Return, ghost listings: seq<seq<Paginator.Bucket>>, ghost billed: seq<Billing.Bucket>,
             ghost quotas: seq<Option<Quota>>)
    requires s.Valid() && lib.Valid() && pool.Valid()
    modifies s.Repr()
    ensures s.Valid() && s.states == old(s.states) && !r.Nothing?
    ensures Lawful(r, old(s.Contents()), s.Contents(), old(s.generations), s.generations, name, "bucket")
    ensures bootstrapped && (exists any :: ListsAll(api, any)) ==> ListsAll(api, listings)
    ensures r.Published? <==>
              bootstrapped && ListsAll(api, listings) && Enrichable(lib, Paginator.Flatten(listings), pool, api.server)
    ensures r.Published? ==>
              && Paginator.DistinctPairs(Paginator.Flatten(listings))
              && Billed(api.server, Paginator.Flatten(listings), billed) && |quotas| == |billed|
              && s.Contents() == WithFlats(old(s.Contents()), name, Buckets,
                                           BucketFlats(name, now, billed, quotas))
    ensures r.Published? && CancelledFails(pool, api.server, |quotas|) ==>
              forall i :: 0 <= i < |quotas| ==> pool.calls(i).Ok? && quotas[i] == Some(pool.calls(i).value)
  {
    listings, billed, quotas := [], [], [];
    if !bootstrapped {
      return Failed, listings, billed, quotas;
    }
    var listing;
    listing, listings := ListBuckets(api);
    if listing.None? {
      return Failed, listings, billed, quotas;
    }
    var ok, b, q := EnrichBuckets(lib, listing.value, pool, api.server);
    s.OutsideIsInvisible();
    if !ok {
      return Failed, listings, billed, quotas;
    }
    billed, quotas := b, q;
    if CancelledFails(pool, api.server, |listing.value|) { SuccessIsComplete(lib, listing.value, pool, api.server); }
    var values := BucketFlats(name, now, b, q);
    var records, area := NewFlats(values);
    s.OutsideIsInvisible();
    ghost var more := s.ReplaceBuckets(name, records, values, area);
    r := Published;
  }
}
