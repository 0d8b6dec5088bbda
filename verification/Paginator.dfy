/**
 Bucket listing: one page parser, the marker loop of one namespace, and the loop over all
 namespaces. The server is an arbitrary function of the request number and the marker.
 */
module Paginator {
  import opened Common

  const MAX_PAGES: nat := 1000
  const MAX_MARKER: nat := 4096

  const DECIMAL_GB: real := 1_000_000_000.0

  /** The text of a timestamp, empty when there is none, and what the library reads it as. */
  datatype Stamp = Stamp(text: string, time: Option<int>)

  /** One entry of a decoded page; a number that is not given is None. */
  datatype RawBucket = RawBucket(
    namespace: string, name: string, owner: string, vpool: string,
    locked: Option<bool>, versioning: Option<bool>, encryption: Option<bool>, audit: Option<bool>,
    created: Stamp, lastModified: Stamp, lastModifiedCamel: Stamp,
    retention: Option<real>, soft: Option<real>, hard: Option<real>)

  /** What a listing tells about a bucket besides its names; amounts are in bytes, retention in seconds. */
  datatype Attributes = Attributes(
    owner: Option<string>, group: Option<string>,
    locked: Option<bool>, versioning: Option<bool>, encryption: Option<bool>, audit: Option<bool>,
    created: Option<int>, modified: Option<int>,
    retention: Option<real>, soft: Option<real>, hard: Option<real>)

  datatype Bucket = Bucket(namespace: string, name: string, attributes: Attributes)

  datatype Reply =
    | Failure
    | Page(buckets: seq<RawBucket>, nextMarker: string, nextMarkerCamel: string)

  // ---------- one entry ----------

  function StringPointer(s: string): Option<string> {
    if s == "" then None else Some(s)
  }

  predicate StampOk(s: Stamp) {
    s.text != "" ==> s.time.Some?
  }

  function TimeOf(s: Stamp): Option<int> {
    if s.text == "" then None else s.time
  }

  /** The time of the last change, under either of its two names. */
  function Modified(raw: RawBucket): Stamp {
    if raw.lastModified.text == "" then raw.lastModifiedCamel else raw.lastModified
  }

  predicate Ambiguous(raw: RawBucket) {
    && raw.lastModified.text != "" && raw.lastModifiedCamel.text != ""
    && raw.lastModified.text != raw.lastModifiedCamel.text
  }

  /** Quotas are at least -1, and in order when both are there. */
  predicate QuotasOk(soft: Option<real>, hard: Option<real>) {
    && (soft.Some? ==> soft.value >= -1.0) && (hard.Some? ==> hard.value >= -1.0)
    && (soft.Some? && hard.Some? && soft.value >= 0.0 && hard.value >= 0.0 ==> soft.value <= hard.value)
  }

  /** -1 and -2 stand for none; otherwise a whole number of seconds. */
  predicate RetentionOk(retention: Option<real>) {
    retention.Some? ==>
      || retention.value == -1.0 || retention.value == -2.0
      || (retention.value >= 0.0 && retention.value.Floor as real == retention.value)
  }

  predicate Readable(raw: RawBucket) {
    && QuotasOk(raw.soft, raw.hard) && StampOk(raw.created) && !Ambiguous(raw) && StampOk(Modified(raw))
    && RetentionOk(raw.retention)
  }

  function Duration(value: Option<real>): Option<real> {
    if value.Some? && value.value >= 0.0 then value else None
  }

  /** An amount given in decimal gigabytes; a negative one is no quota. */
  function Bytes(gigabytes: Option<real>): Option<real> {
    if gigabytes.Some? && gigabytes.value >= 0.0 then Some(gigabytes.value * DECIMAL_GB) else None
  }

  function AttributesOf(raw: RawBucket): Attributes {
    Attributes(StringPointer(raw.owner), StringPointer(raw.vpool), raw.locked, raw.versioning, raw.encryption,
               raw.audit, TimeOf(raw.created), TimeOf(Modified(raw)), Duration(raw.retention), Bytes(raw.soft),
               Bytes(raw.hard))
  }

  function BucketOf(raw: RawBucket): Bucket {
    Bucket(raw.namespace, raw.name, AttributesOf(raw))
  }

  method ValidateQuotas(soft: Option<real>, hard: Option<real>) returns (ok: bool)
    ensures ok <==> QuotasOk(soft, hard)
  {
    if soft.Some? && soft.value < -1.0 {
      return false;
    }
    if hard.Some? && hard.value < -1.0 {
      return false;
    }
    ok := !(soft.Some? && hard.Some? && soft.value >= 0.0 && hard.value >= 0.0 && soft.value > hard.value);
  }

  method ApplyQuota(source: Option<real>) returns (target: Option<real>)
    ensures target == Bytes(source)
  {
    target := None;
    if source.None? || source.value == -1.0 {
      return;
    }
    if source.value >= 0.0 {
      target := Some(source.value * DECIMAL_GB);
    }
  }

  /** The loop body of `ParseBucketPage` after its names were checked. */
  /** What a bucket record tells of its entry: texts and flags as they are, an amount when one is given, in
      bytes, and the times that were read; the time of the last change under whichever name has one. */
  ghost predicate Tells(raw: RawBucket, b: Bucket) {
    && b.namespace == raw.namespace && b.name == raw.name
    && TellsText(raw.owner, b.attributes.owner) && TellsText(raw.vpool, b.attributes.group)
    && b.attributes.locked == raw.locked && b.attributes.versioning == raw.versioning
    && b.attributes.encryption == raw.encryption && b.attributes.audit == raw.audit
    && TellsTime(raw.created, b.attributes.created)
    && (raw.lastModified.text != "" ==> TellsTime(raw.lastModified, b.attributes.modified))
    && (raw.lastModified.text == "" ==> TellsTime(raw.lastModifiedCamel, b.attributes.modified))
    && TellsAmount(raw.retention, 1.0, b.attributes.retention)
    && TellsAmount(raw.soft, 1_000_000_000.0, b.attributes.soft)
    && TellsAmount(raw.hard, 1_000_000_000.0, b.attributes.hard)
  }

  ghost predicate TellsText(raw: string, text: Option<string>) {
    (text.None? <==> raw == "") && (text.Some? ==> text.value == raw)
  }

  ghost predicate TellsTime(raw: Stamp, time: Option<int>) {
    (time.None? <==> raw.text == "") && (raw.text != "" ==> time == raw.time)
  }

  ghost predicate TellsAmount(raw: Option<real>, unit: real, amount: Option<real>) {
    && (amount.Some? <==> raw.Some? && raw.value >= 0.0)
    && (amount.Some? ==> amount.value == raw.value * unit)
  }

  /** What is refused: an amount below -1, a soft quota above the hard one, a time that does not read, two
      different times of the last change, and a retention that is neither whole nor one of two marks. */
  lemma RefusedRecords(raw: RawBucket)
    ensures !Readable(raw)
       <==> || (raw.soft.Some? && raw.soft.value < -1.0) || (raw.hard.Some? && raw.hard.value < -1.0)
            || (raw.soft.Some? && raw.hard.Some? && 0.0 <= raw.hard.value < raw.soft.value)
            || (raw.created.text != "" && raw.created.time.None?)
            || (raw.lastModified.text != "" && raw.lastModified.time.None?)
            || (raw.lastModified.text == "" && raw.lastModifiedCamel.text != "" && raw.lastModifiedCamel.time.None?)
            || (raw.lastModified.text != "" && raw.lastModifiedCamel.text != ""
                && raw.lastModified.text != raw.lastModifiedCamel.text)
            || (raw.retention.Some? && RefusedRetention(raw.retention.value))
  {
  }

  ghost predicate RefusedRetention(seconds: real) {
    seconds != -1.0 && seconds != -2.0 && (seconds < 0.0 || seconds.Floor as real != seconds)
  }

  lemma BucketTells(raw: RawBucket)
    requires Readable(raw)
    ensures Tells(raw, BucketOf(raw))
  {
  }

  method ParseRecord(raw: RawBucket) returns (r: Result<Bucket>)
    ensures r.Ok? <==> Readable(raw)
    ensures r.Ok? ==> r.value == BucketOf(raw)
    ensures r.Ok? ==> Tells(raw, r.value)
  {
    var value := Attributes(StringPointer(raw.owner), StringPointer(raw.vpool), raw.locked, raw.versioning,
                            raw.encryption, raw.audit, None, None, None, None, None);
    var ok := ValidateQuotas(raw.soft, raw.hard);
    if !ok {
      return Err("quota is invalid");
    }
    if raw.created.text != "" {
      if raw.created.time.None? {
        return Err("bucket created timestamp is invalid");
      }
      value := value.(created := raw.created.time);
    }
    var lastModified := raw.lastModified;
    if lastModified.text != "" && raw.lastModifiedCamel.text != "" && lastModified.text != raw.lastModifiedCamel.text {
      return Err("bucket last modified timestamp is ambiguous");
    }
    if lastModified.text == "" {
      lastModified := raw.lastModifiedCamel;
    }
    if lastModified.text != "" {
      if lastModified.time.None? {
        return Err("bucket last modified timestamp is invalid");
      }
      value := value.(modified := lastModified.time);
    }
    if raw.retention.Some? && raw.retention.value != -1.0 && raw.retention.value != -2.0 {
      if raw.retention.value < 0.0 || raw.retention.value.Floor as real != raw.retention.value {
        return Err("bucket retention is invalid");
      }
      value := value.(retention := raw.retention);
    }
    var soft := ApplyQuota(raw.soft);
    var hard := ApplyQuota(raw.hard);
    r := Ok(Bucket(raw.namespace, raw.name, value.(soft := soft, hard := hard)));
    BucketTells(raw);
  }

  function MarkerOf(page: Reply): string
    requires page.Page?
  {
    if page.nextMarker == "" then page.nextMarkerCamel else page.nextMarker
  }

  function PairKey(b: Bucket): string {
    Key(b.namespace, b.name)
  }

  /** What a page must look like to be accepted. */
  ghost predicate Acceptable(page: Reply) {
    && page.Page?
    && |MarkerOf(page)| <= MAX_MARKER && '\r' !in MarkerOf(page) && '\n' !in MarkerOf(page)
    && (forall i :: 0 <= i < |page.buckets| ==>
          page.buckets[i].namespace != "" && page.buckets[i].name != "" && Readable(page.buckets[i]))
    && DistinctKeys(Map(page.buckets, BucketOf), PairKey)
  }

  /** `ParseBucketPage` on decoded records. */
  method ParsePage(page: Reply) returns (r: Result<(seq<Bucket>, string)>)
    ensures r.Ok? <==> Acceptable(page)
    ensures r.Ok? ==> r.value == (Map(page.buckets, BucketOf), MarkerOf(page))
  {
    if page.Failure? {
      return Err("request failed");
    }
    var marker := MarkerOf(page);
    if |marker| > MAX_MARKER || '\r' in marker || '\n' in marker {
      return Err("bucket page marker is invalid");
    }
    var all := Map(page.buckets, BucketOf);
    var result: seq<Bucket> := [];
    var seen: set<string> := {};
    for k := 0 to |page.buckets|
      invariant result == all[..k]
      invariant seen == set i | 0 <= i < k :: PairKey(all[i])
      invariant forall i :: 0 <= i < k ==>
                  page.buckets[i].namespace != "" && page.buckets[i].name != "" && Readable(page.buckets[i])
      invariant forall i, j :: 0 <= i < j < k ==> PairKey(all[i]) != PairKey(all[j])
    {
      var raw := page.buckets[k];
      if raw.name == "" || raw.namespace == "" {
        return Err("bucket name and namespace are required");
      }
      assert PairKey(all[k]) == Key(raw.namespace, raw.name);
      if Key(raw.namespace, raw.name) in seen {
        return Err("duplicate bucket");
      }
      seen := seen + {Key(raw.namespace, raw.name)};
      var parsed := ParseRecord(raw);
      if parsed.Err? {
        return Err(parsed.error);
      }
      result := result + [parsed.value];
    }
    assert all[..|all|] == all;
    r := Ok((result, marker));
  }

  // ---------- the listing of one namespace ----------

  function Flatten(pages: seq<seq<Bucket>>): seq<Bucket> {
    if pages == [] then [] else Flatten(pages[..|pages| - 1]) + pages[|pages| - 1]
  }

  /** In one namespace, buckets are told apart by their names. */
  ghost predicate Listing(buckets: seq<Bucket>, namespace: string) {
    && (forall i :: 0 <= i < |buckets| ==> buckets[i].namespace == namespace)
    && (forall i, j :: 0 <= i < j < |buckets| ==> buckets[i].name != buckets[j].name)
  }

  /** Request `k` with marker `marker` is answered by a page with these buckets and this next marker. */
  ghost predicate Answers(serve: (nat, string) -> Reply, pageSize: nat, k: nat, marker: string, buckets: seq<Bucket>,
                          next: string) {
    && Acceptable(serve(k, marker))
    && Map(serve(k, marker).buckets, BucketOf) == buckets
    && MarkerOf(serve(k, marker)) == next
    && |buckets| <= pageSize
  }

  ghost predicate AnswerAt(serve: (nat, string) -> Reply, pageSize: nat, pages: seq<seq<Bucket>>, markers: seq<string>,
                           k: nat) {
    k < |pages| && k + 1 < |markers| && Answers(serve, pageSize, k, markers[k], pages[k], markers[k + 1])
  }

  /** The first pages of an orderly conversation: markers[k] is sent with request k, no marker
      comes back twice, and what has been listed so far is a duplicate-free listing. */
  ghost predicate Prefix(serve: (nat, string) -> Reply, namespace: string, pageSize: nat, pages: seq<seq<Bucket>>,
                         markers: seq<string>) {
    && |markers| == |pages| + 1 && markers[0] == ""
    && (forall k :: 0 <= k < |pages| ==> AnswerAt(serve, pageSize, pages, markers, k))
    && (forall i, j :: 0 <= i < j < |markers| ==> markers[i] != markers[j])
    && Listing(Flatten(pages), namespace)
  }

  /** A whole conversation: the server cuts one duplicate-free listing of the namespace into at
      most `MAX_PAGES` pages with distinct markers, and the last page has no next marker. */
  ghost predicate Conversation(serve: (nat, string) -> Reply, namespace: string, pageSize: nat, pages: seq<seq<Bucket>>,
                               markers: seq<string>) {
    && 1 <= |pages| == |markers| <= MAX_PAGES
    && Prefix(serve, namespace, pageSize, pages[..|pages| - 1], markers)
    && Answers(serve, pageSize, |pages| - 1, markers[|pages| - 1], pages[|pages| - 1], "")
    && Listing(Flatten(pages), namespace)
  }

  ghost function PageAt(serve: (nat, string) -> Reply, k: nat, marker: string): seq<Bucket> {
    if serve(k, marker).Page? then Map(serve(k, marker).buckets, BucketOf) else []
  }

  /** One page can be added to what has been listed. */
  ghost predicate PageOk(serve: (nat, string) -> Reply, namespace: string, pageSize: nat, listed: seq<Bucket>, k: nat,
                         marker: string) {
    && Acceptable(serve(k, marker))
    && |PageAt(serve, k, marker)| <= pageSize
    && Listing(listed + PageAt(serve, k, marker), namespace)
  }

  /** The next answer can continue (or end) an orderly conversation. */
  ghost predicate NextOk(serve: (nat, string) -> Reply, namespace: string, pageSize: nat, listed: seq<Bucket>,
                         markers: seq<string>) {
    && 1 <= |markers| <= MAX_PAGES
    && PageOk(serve, namespace, pageSize, listed, |markers| - 1, markers[|markers| - 1])
    && FreshMarker(MarkerOf(serve(|markers| - 1, markers[|markers| - 1])), markers)
  }

  ghost predicate FreshMarker(next: string, markers: seq<string>) {
    next == "" || next !in markers
  }

  /** Fetch, parse and check one page. */
  method FetchPage(namespace: string, pageSize: nat, serve: (nat, string) -> Reply, k: nat, marker: string,
                   buckets: seq<Bucket>, seen: set<string>)
    returns (r: Result<(seq<Bucket>, string)>, buckets': seq<Bucket>, seen': set<string>)
    requires Listing(buckets, namespace) && Indexed(seen, buckets, namespace)
    ensures r.Ok? <==> PageOk(serve, namespace, pageSize, buckets, k, marker)
    ensures r.Ok? ==> Answers(serve, pageSize, k, marker, r.value.0, r.value.1)
    ensures r.Ok? ==>
              buckets' == buckets + r.value.0 && Listing(buckets', namespace) && Indexed(seen', buckets', namespace)
  {
    buckets', seen' := buckets, seen;
    r := ParsePage(serve(k, marker));
    if r.Err? {
      return;
    }
    if |r.value.0| > pageSize {
      return Err("bucket page exceeds configured page size"), buckets, seen;
    }
    var ok;
    ok, buckets', seen' := AppendPage(namespace, buckets, seen, r.value.0);
    if !ok {
      r := Err("bucket inventory rejected");
    }
  }

  ghost predicate NoConversation(serve: (nat, string) -> Reply, namespace: string, pageSize: nat) {
    forall pages, markers :: !Conversation(serve, namespace, pageSize, pages, markers)
  }

  /** `collectBucketPages`: succeeds exactly when the server holds such a conversation, and
      then returns exactly the listing that was cut up; it never sends more than 1000 requests. */
  method CollectPages(namespace: string, pageSize: nat, serve: (nat, string) -> Reply)
    returns (r: Result<seq<Bucket>>, requests: nat, ghost pages: seq<seq<Bucket>>, ghost markers: seq<string>)
    ensures requests <= MAX_PAGES
    ensures r.Ok? ==> Conversation(serve, namespace, pageSize, pages, markers)
    ensures r.Ok? ==> r.value == Flatten(pages) && requests == |pages| && Listing(r.value, namespace)
    ensures r.Ok? ==> namespace != ""
    ensures r.Err? ==> namespace == "" || NoConversation(serve, namespace, pageSize)
  {
    requests := 0;
    pages, markers := [], [""];
    if namespace == "" {
      return Err("bucket namespace is required"), 0, pages, markers;
    }
    var buckets: seq<Bucket> := [];
    var marker := "";
    var seenMarkers: set<string> := {};
    var seenBuckets: set<string> := {};
    while requests < MAX_PAGES
      invariant requests == |pages| <= MAX_PAGES
      invariant Prefix(serve, namespace, pageSize, pages, markers)
      invariant buckets == Flatten(pages) && marker == markers[|pages|]
      invariant forall m :: m in markers <==> m == "" || m in seenMarkers
      invariant Indexed(seenBuckets, buckets, namespace)
      decreases MAX_PAGES - requests
    {
      if !NextOk(serve, namespace, pageSize, buckets, markers) {
        Blocked(serve, namespace, pageSize, pages, markers);
      }
      var fetched, buckets', seen' := FetchPage(namespace, pageSize, serve, requests, marker, buckets, seenBuckets);
      requests := requests + 1;
      if fetched.Err? {
        return Err(fetched.error), requests, pages, markers;
      }
      var (page, next) := fetched.value;
      buckets, seenBuckets := buckets', seen';
      if next == "" {
        Concludes(serve, namespace, pageSize, pages, markers, page);
        pages := pages + [page];
        return Ok(buckets), requests, pages, markers;
      }
      if next in seenMarkers || next == marker {
        return Err("bucket pagination marker repeated"), requests, pages, markers;
      }
      Continues(serve, namespace, pageSize, pages, markers, page, next);
      seenMarkers := seenMarkers + {next};
      marker := next;
      pages, markers := pages + [page], markers + [next];
    }
    Blocked(serve, namespace, pageSize, pages, markers);
    r := Err("bucket pagination exceeded the page limit");
  }

  lemma Continues(serve: (nat, string) -> Reply, namespace: string, pageSize: nat, pages: seq<seq<Bucket>>,
                  markers: seq<string>, page: seq<Bucket>, next: string)
    requires Prefix(serve, namespace, pageSize, pages, markers)
    requires Answers(serve, pageSize, |pages|, markers[|pages|], page, next)
    requires Listing(Flatten(pages) + page, namespace) && next !in markers
    ensures Prefix(serve, namespace, pageSize, pages + [page], markers + [next])
    ensures Flatten(pages + [page]) == Flatten(pages) + page
  {
    assert (pages + [page])[..|pages|] == pages;
    MarkersDiffer(markers, next);
    forall k | 0 <= k < |pages| + 1 ensures AnswerAt(serve, pageSize, pages + [page], markers + [next], k) {
      if k < |pages| {
        assert AnswerAt(serve, pageSize, pages, markers, k);
        AnswerStays(serve, pageSize, pages, markers, page, next, k);
      }
    }
  }

  lemma AnswerStays(serve: (nat, string) -> Reply, pageSize: nat, pages: seq<seq<Bucket>>, markers: seq<string>,
                    page: seq<Bucket>, next: string, k: nat)
    requires AnswerAt(serve, pageSize, pages, markers, k)
    ensures AnswerAt(serve, pageSize, pages + [page], markers + [next], k)
  {
  }

  lemma MarkersDiffer(markers: seq<string>, next: string)
    requires next !in markers && forall i, j :: 0 <= i < j < |markers| ==> markers[i] != markers[j]
    ensures forall i, j :: 0 <= i < j < |markers| + 1 ==> (markers + [next])[i] != (markers + [next])[j]
  {
  }

  lemma Concludes(serve: (nat, string) -> Reply, namespace: string, pageSize: nat, pages: seq<seq<Bucket>>,
                  markers: seq<string>, page: seq<Bucket>)
    requires |pages| < MAX_PAGES && Prefix(serve, namespace, pageSize, pages, markers)
    requires Answers(serve, pageSize, |pages|, markers[|pages|], page, "")
    requires Listing(Flatten(pages) + page, namespace)
    ensures Conversation(serve, namespace, pageSize, pages + [page], markers)
    ensures Flatten(pages + [page]) == Flatten(pages) + page
  {
    assert (pages + [page])[..|pages|] == pages;
  }

  /** `seen` holds the keys of the buckets listed so far. */
  ghost predicate Indexed(seen: set<string>, buckets: seq<Bucket>, namespace: string) {
    && (forall i :: 0 <= i < |buckets| ==> Key(namespace, buckets[i].name) in seen)
    && (forall key :: key in seen ==> exists i :: 0 <= i < |buckets| && Key(namespace, buckets[i].name) == key)
  }

  /** The inner loop over one page. */
  method AppendPage(namespace: string, buckets: seq<Bucket>, seen: set<string>, page: seq<Bucket>)
    returns (ok: bool, buckets': seq<Bucket>, seen': set<string>)
    requires Listing(buckets, namespace) && Indexed(seen, buckets, namespace)
    ensures ok <==> Listing(buckets + page, namespace)
    ensures ok ==> buckets' == buckets + page && Indexed(seen', buckets', namespace)
  {
    buckets', seen' := buckets, seen;
    for k := 0 to |page|
      invariant buckets' == buckets + page[..k]
      invariant Listing(buckets', namespace) && Indexed(seen', buckets', namespace)
    {
      var bucket := page[k];
      assert buckets + page == (buckets' + [bucket]) + page[k + 1..];
      ListingPrefix(buckets' + [bucket], page[k + 1..], namespace);
      AddDecides(namespace, buckets', seen', bucket);
      if bucket.namespace != namespace {
        return false, buckets', seen';
      }
      if Key(bucket.namespace, bucket.name) in seen' {
        return false, buckets', seen';
      }
      seen' := seen' + {Key(bucket.namespace, bucket.name)};
      buckets' := buckets' + [bucket];
    }
    assert page[..|page|] == page;
    ok := true;
  }

  lemma ListingPrefix(a: seq<Bucket>, b: seq<Bucket>, namespace: string)
    ensures Listing(a + b, namespace) ==> Listing(a, namespace)
  {
    assert forall i :: 0 <= i < |a| ==> (a + b)[i] == a[i];
  }

  lemma AddDecides(namespace: string, buckets: seq<Bucket>, seen: set<string>, bucket: Bucket)
    requires Listing(buckets, namespace) && Indexed(seen, buckets, namespace)
    ensures Listing(buckets + [bucket], namespace)
       <==> bucket.namespace == namespace && Key(bucket.namespace, bucket.name) !in seen
    ensures bucket.namespace == namespace ==>
              Indexed(seen + {Key(bucket.namespace, bucket.name)}, buckets + [bucket], namespace)
  {
    var longer := buckets + [bucket];
    assert longer[|buckets|] == bucket && forall i :: 0 <= i < |buckets| ==> longer[i] == buckets[i];
    forall i | 0 <= i < |buckets| ensures Key(namespace, buckets[i].name) == Key(namespace, bucket.name)
      <==> buckets[i].name == bucket.name {
      SameNamespaceKey(namespace, buckets[i].name, bucket.name);
    }
  }

  /** Keys with the same first component differ iff the second ones do, NUL bytes or not. */
  lemma SameNamespaceKey(namespace: string, a: string, b: string)
    ensures Key(namespace, a) == Key(namespace, b) <==> a == b
  {
    assert Key(namespace, a)[|namespace| + 1..] == a && Key(namespace, b)[|namespace| + 1..] == b;
  }

  /** The k-th answer of a conversation and the marker that follows it. */
  lemma AnswerOf(serve: (nat, string) -> Reply, namespace: string, pageSize: nat, pages: seq<seq<Bucket>>,
                 markers: seq<string>, k: nat)
    requires Conversation(serve, namespace, pageSize, pages, markers) && k < |pages|
    ensures Answers(serve, pageSize, k, markers[k], pages[k], if k + 1 < |pages| then markers[k + 1] else "")
    ensures k + 1 < |pages| ==> markers[k + 1] != "" && forall i :: 0 <= i <= k ==> markers[i] != markers[k + 1]
  {
    var front := pages[..|pages| - 1];
    if k < |front| { assert AnswerAt(serve, pageSize, front, markers, k) && front[k] == pages[k]; }
  }

  /** Any whole conversation begins with the pages seen so far, so its next answer is in
      order: when the next answer is not, there is no such conversation. */
  lemma Blocked(serve: (nat, string) -> Reply, namespace: string, pageSize: nat, pages: seq<seq<Bucket>>,
                markers: seq<string>)
    requires Prefix(serve, namespace, pageSize, pages, markers)
    requires !NextOk(serve, namespace, pageSize, Flatten(pages), markers)
    ensures NoConversation(serve, namespace, pageSize)
  {
    forall pages', markers' ensures !Conversation(serve, namespace, pageSize, pages', markers') {
      if Conversation(serve, namespace, pageSize, pages', markers') {
        DeterminedUpTo(serve, namespace, pageSize, pages, markers, pages', markers', |pages|);
        NextAnswer(serve, namespace, pageSize, pages, markers, pages', markers');
      }
    }
  }

  lemma NextAnswer(serve: (nat, string) -> Reply, namespace: string, pageSize: nat, pages: seq<seq<Bucket>>,
                   markers: seq<string>, pages': seq<seq<Bucket>>, markers': seq<string>)
    requires Conversation(serve, namespace, pageSize, pages', markers') && |markers| == |pages| + 1
    requires |pages'| > |pages| && pages'[..|pages|] == pages[..|pages|]
             && markers'[..|pages| + 1] == markers[..|pages| + 1]
    ensures NextOk(serve, namespace, pageSize, Flatten(pages), markers)
  {
    var k := |pages|;
    AnswerOf(serve, namespace, pageSize, pages', markers', k);
    var next := if k + 1 < |pages'| then markers'[k + 1] else "";
    NextStep(serve, namespace, pageSize, pages, markers, pages', markers', next);
  }

  lemma NextStep(serve: (nat, string) -> Reply, namespace: string, pageSize: nat, pages: seq<seq<Bucket>>,
                 markers: seq<string>, pages': seq<seq<Bucket>>, markers': seq<string>, next: string)
    requires |pages| < |pages'| == |markers'| <= MAX_PAGES && |markers| == |pages| + 1
    requires pages'[..|pages|] == pages[..|pages|] && markers'[..|pages| + 1] == markers[..|pages| + 1]
    requires Answers(serve, pageSize, |pages|, markers'[|pages|], pages'[|pages|], next)
    requires Listing(Flatten(pages'), namespace)
    requires next != "" ==> forall i :: 0 <= i <= |pages| ==> markers'[i] != next
    ensures NextOk(serve, namespace, pageSize, Flatten(pages), markers)
  {
    var k := |pages|;
    NextListing(pages, pages', namespace);
    SameMarkers(markers, markers', k);
    NextIsFresh(markers, markers', k, next);
    AnswerIsOk(serve, namespace, pageSize, Flatten(pages), markers, pages'[k], next);
  }

  lemma SameMarkers(markers: seq<string>, markers': seq<string>, k: nat)
    requires |markers| == k + 1 <= |markers'| && markers'[..k + 1] == markers[..k + 1]
    ensures forall i :: 0 <= i <= k ==> markers[i] == markers'[i]
  {
    forall i | 0 <= i <= k ensures markers[i] == markers'[i] {
      assert markers'[..k + 1][i] == markers[..k + 1][i];
    }
  }

  lemma NextIsFresh(markers: seq<string>, markers': seq<string>, k: nat, next: string)
    requires |markers| == k + 1 <= |markers'| && forall i :: 0 <= i <= k ==> markers[i] == markers'[i]
    requires next != "" ==> forall i :: 0 <= i <= k ==> markers'[i] != next
    ensures FreshMarker(next, markers)
  {
  }

  lemma AnswerIsOk(serve: (nat, string) -> Reply, namespace: string, pageSize: nat, listed: seq<Bucket>,
                   markers: seq<string>, page: seq<Bucket>, next: string)
    requires 1 <= |markers| <= MAX_PAGES && FreshMarker(next, markers)
    requires Answers(serve, pageSize, |markers| - 1, markers[|markers| - 1], page, next)
    requires Listing(listed + page, namespace)
    ensures NextOk(serve, namespace, pageSize, listed, markers)
  {
    assert PageAt(serve, |markers| - 1, markers[|markers| - 1]) == page;
  }

  lemma NextListing(pages: seq<seq<Bucket>>, pages': seq<seq<Bucket>>, namespace: string)
    requires |pages'| > |pages| && pages'[..|pages|] == pages[..|pages|]
    requires Listing(Flatten(pages'), namespace)
    ensures Listing(Flatten(pages) + pages'[|pages|], namespace)
  {
    var k := |pages|;
    FlattenPrefix(pages', k + 1);
    assert pages'[..k + 1][..k] == pages;
    ListingPrefix(Flatten(pages'[..k + 1]), FlattenRest(pages', k + 1), namespace);
  }

  /** A server holds at most one conversation: the result does not depend on anything else. */
  lemma ConversationIsUnique(serve: (nat, string) -> Reply, namespace: string, pageSize: nat,
                             pages: seq<seq<Bucket>>, markers: seq<string>, pages': seq<seq<Bucket>>,
                             markers': seq<string>)
    requires Conversation(serve, namespace, pageSize, pages, markers)
    requires Conversation(serve, namespace, pageSize, pages', markers')
    ensures pages == pages'
  {
    var front, k := pages[..|pages| - 1], |pages| - 1;
    DeterminedUpTo(serve, namespace, pageSize, front, markers, pages', markers', k);
    assert markers'[k] == markers'[..k + 1][k] == markers[..k + 1][k] == markers[k];
    AnswerOf(serve, namespace, pageSize, pages, markers, k);
    AnswerOf(serve, namespace, pageSize, pages', markers', k);
    assert front[..k] == front;
    assert pages == front + [pages[k]];
    assert pages' == pages'[..k] + [pages'[k]];
  }

  ghost function FlattenRest(pages: seq<seq<Bucket>>, k: nat): seq<Bucket>
    requires k <= |pages|
  {
    if k == |pages| then [] else FlattenRest(pages[..|pages| - 1], k) + pages[|pages| - 1]
  }

  lemma {:induction false} FlattenPrefix(pages: seq<seq<Bucket>>, k: nat)
    requires k <= |pages|
    ensures Flatten(pages) == Flatten(pages[..k]) + FlattenRest(pages, k)
  {
    if k == |pages| {
      assert pages[..k] == pages;
    } else {
      FlattenPrefix(pages[..|pages| - 1], k);
      assert pages[..|pages| - 1][..k] == pages[..k];
    }
  }

  lemma {:induction false} DeterminedUpTo(serve: (nat, string) -> Reply, namespace: string, pageSize: nat,
                                          pages: seq<seq<Bucket>>, markers: seq<string>,
                                          pages': seq<seq<Bucket>>, markers': seq<string>, k: nat)
    requires Prefix(serve, namespace, pageSize, pages, markers) && k <= |pages|
    requires Conversation(serve, namespace, pageSize, pages', markers')
    ensures |pages'| > k && pages'[..k] == pages[..k] && markers'[..k + 1] == markers[..k + 1]
  {
    if k > 0 {
      DeterminedUpTo(serve, namespace, pageSize, pages, markers, pages', markers', k - 1);
      assert markers'[k - 1] == markers'[..k][k - 1] == markers[..k][k - 1] == markers[k - 1];
      assert AnswerAt(serve, pageSize, pages, markers, k - 1);
      assert markers[0] != markers[k];
      AnswerOf(serve, namespace, pageSize, pages', markers', k - 1);
      assert pages'[..k] == pages'[..k - 1] + [pages'[k - 1]];
      assert pages[..k] == pages[..k - 1] + [pages[k - 1]];
    }
  }

  // ---------- all namespaces ----------

  ghost predicate DistinctPairs(buckets: seq<Bucket>) {
    forall i, j :: 0 <= i < j < |buckets| ==>
      buckets[i].namespace != buckets[j].namespace || buckets[i].name != buckets[j].name
  }

  function ServeNamespace(serve: (string, nat, string) -> Reply, namespace: string): (nat, string) -> Reply {
    (k: nat, marker: string) => serve(namespace, k, marker)
  }

  /** The server cuts up exactly this listing of the namespace. */
  ghost predicate Listed(serve: (nat, string) -> Reply, namespace: string, pageSize: nat, listing: seq<Bucket>) {
    namespace != "" && exists pages, markers ::
        Conversation(serve, namespace, pageSize, pages, markers) && Flatten(pages) == listing
  }

  ghost predicate Unlistable(serve: (nat, string) -> Reply, namespace: string, pageSize: nat) {
    namespace == "" || NoConversation(serve, namespace, pageSize)
  }

  lemma UnlistableMeansNoListing(serve: (nat, string) -> Reply, namespace: string, pageSize: nat)
    ensures Unlistable(serve, namespace, pageSize) <==> forall listing :: !Listed(serve, namespace, pageSize, listing)
  {
    if pages, markers :| Conversation(serve, namespace, pageSize, pages, markers) {
      assert namespace != "" ==> Listed(serve, namespace, pageSize, Flatten(pages));
    }
  }

  /** The listing loop of `CollectBuckets` over distinct namespaces: it succeeds exactly when
      every namespace is listed, returns those listings one after another, and an accepted
      inventory never contains a (namespace, name) pair twice. */
  method CollectAll(namespaces: seq<string>, pageSize: nat, serve: (string, nat, string) -> Reply)
    returns (r: Result<seq<Bucket>>, ghost listings: seq<seq<Bucket>>)
    requires Distinct(namespaces)
    ensures r.Ok? ==> |listings| == |namespaces| && r.value == Flatten(listings)
    ensures r.Ok? ==> forall k :: 0 <= k < |namespaces| ==>
              Listed(ServeNamespace(serve, namespaces[k]), namespaces[k], pageSize, listings[k])
    ensures r.Err? ==> exists k ::
              0 <= k < |namespaces| && Unlistable(ServeNamespace(serve, namespaces[k]), namespaces[k], pageSize)
    ensures r.Ok? ==> DistinctPairs(r.value)
  {
    var buckets: seq<Bucket> := [];
    listings := [];
    for k := 0 to |namespaces|
      invariant |listings| == k && buckets == Flatten(listings)
      invariant forall i :: 0 <= i < k ==> Listed(ServeNamespace(serve, namespaces[i]), namespaces[i], pageSize,
                                                  listings[i])
      invariant DistinctPairs(buckets)
      invariant Within(buckets, namespaces[..k])
    {
      var namespace := namespaces[k];
      var values, requests, pages, markers := CollectPages(namespace, pageSize, ServeNamespace(serve, namespace));
      if values.Err? {
        return Err(values.error), listings;
      }
      assert Listed(ServeNamespace(serve, namespace), namespace, pageSize, values.value);
      Concatenated(buckets, values.value, namespaces, k);
      FlattenOneMore(listings, values.value);
      listings := listings + [values.value];
      buckets := buckets + values.value;
    }
    r := Ok(buckets);
  }

  lemma FlattenOneMore(listings: seq<seq<Bucket>>, more: seq<Bucket>)
    ensures Flatten(listings + [more]) == Flatten(listings) + more
  {
    assert (listings + [more])[..|listings|] == listings;
  }

  ghost predicate Within(buckets: seq<Bucket>, namespaces: seq<string>) {
    forall b :: b in buckets ==> b.namespace in namespaces
  }

  lemma Concatenated(buckets: seq<Bucket>, values: seq<Bucket>, namespaces: seq<string>, k: nat)
    requires k < |namespaces| && Distinct(namespaces) && DistinctPairs(buckets)
    requires Within(buckets, namespaces[..k])
    requires Listing(values, namespaces[k])
    ensures DistinctPairs(buckets + values) && Within(buckets + values, namespaces[..k + 1])
  {
    Cut(namespaces, k);
    forall i, j | 0 <= i < |buckets| && 0 <= j < |values| ensures buckets[i].namespace != values[j].namespace {
      assert buckets[i] in buckets;
      var n :| 0 <= n < k && namespaces[n] == buckets[i].namespace;
      assert namespaces[n] != namespaces[k];
    }
  }
}
