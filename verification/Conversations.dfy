/**
 A conversation with the server about the buckets of one namespace, told without the page parser and the
 marker loop: what each answer has to say, and how the answers fit together.
 */
module Conversations {
  import opened Common
  import opened Paginator

  /** The marker that an answer gives for the next page, empty on the last one. */
  function NextOf(page: Reply): string
    requires page.Page?
  {
    if page.nextMarker != "" then page.nextMarker else page.nextMarkerCamel
  }

  ghost predicate EntryTold(raw: RawBucket, namespace: string, b: Bucket) {
    raw.name != "" && raw.namespace != "" && raw.namespace == namespace && Readable(raw) && Tells(raw, b)
  }

  /** A page within its size, with a marker that can be sent, whose entries are all of the namespace, named and
      readable, and are told by the buckets in order. */
  ghost predicate PageTold(page: Reply, pageSize: nat, namespace: string, buckets: seq<Bucket>, next: string) {
    && page.Page? && |page.buckets| == |buckets| <= pageSize
    && NextOf(page) == next && |next| <= 4096 && '\r' !in next && '\n' !in next
    && forall i :: 0 <= i < |buckets| ==> EntryTold(page.buckets[i], namespace, buckets[i])
  }

  /** At most 1000 pages, from the empty marker on, each asked for with the marker of the one before; no
      marker and no name comes twice, and the last page has no next one. */
  ghost predicate Told(serve: (nat, string) -> Reply, namespace: string, pageSize: nat, pages: seq<seq<Bucket>>,
                       markers: seq<string>) {
    && 1 <= |pages| == |markers| <= 1000 && markers[0] == ""
    && (forall k :: 0 <= k < |pages| ==> ToldAt(serve, namespace, pageSize, pages, markers, k))
    && (forall i, j :: 0 <= i < j < |markers| ==> markers[i] != markers[j])
    && NamesDiffer(Flatten(pages))
  }

  ghost predicate ToldAt(serve: (nat, string) -> Reply, namespace: string, pageSize: nat, pages: seq<seq<Bucket>>,
                         markers: seq<string>, k: nat) {
    && k < |pages| == |markers|
    && PageTold(serve(k, markers[k]), pageSize, namespace, pages[k],
                if k + 1 < |pages| then markers[k + 1] else "")
  }

  ghost predicate NamesDiffer(buckets: seq<Bucket>) {
    forall i, j :: 0 <= i < j < |buckets| ==> buckets[i].name != buckets[j].name
  }

  // ---------- one page ----------

  lemma ToldIsRead(raw: RawBucket, b: Bucket)
    requires Readable(raw)
    ensures Tells(raw, b) <==> b == BucketOf(raw)
  {
    BucketTells(raw);
  }

  lemma PageIsTold(page: Reply, pageSize: nat, namespace: string, buckets: seq<Bucket>, next: string)
    requires Acceptable(page) && Map(page.buckets, BucketOf) == buckets && MarkerOf(page) == next
    requires |buckets| <= pageSize && forall i :: 0 <= i < |buckets| ==> buckets[i].namespace == namespace
    ensures PageTold(page, pageSize, namespace, buckets, next)
  {
    forall i | 0 <= i < |buckets| ensures EntryTold(page.buckets[i], namespace, buckets[i]) {
      assert buckets[i] == BucketOf(page.buckets[i]);
      BucketTells(page.buckets[i]);
    }
  }

  lemma ToldPageIsRead(page: Reply, pageSize: nat, namespace: string, buckets: seq<Bucket>, next: string)
    requires PageTold(page, pageSize, namespace, buckets, next) && NamesDiffer(buckets)
    ensures Acceptable(page) && Map(page.buckets, BucketOf) == buckets && MarkerOf(page) == next
    ensures forall i :: 0 <= i < |buckets| ==> buckets[i].namespace == namespace
  {
    forall i | 0 <= i < |buckets|
      ensures buckets[i] == BucketOf(page.buckets[i]) && buckets[i].namespace == namespace {
      assert EntryTold(page.buckets[i], namespace, buckets[i]);
      ToldIsRead(page.buckets[i], buckets[i]);
    }
    assert Map(page.buckets, BucketOf) == buckets;
    forall i, j | 0 <= i < j < |buckets| ensures PairKey(buckets[i]) != PairKey(buckets[j]) {
      SameNamespaceKey(namespace, buckets[i].name, buckets[j].name);
    }
  }

  // ---------- all pages ----------

  lemma FlattenLast(pages: seq<seq<Bucket>>)
    requires pages != []
    ensures Flatten(pages) == Flatten(pages[..|pages| - 1]) + pages[|pages| - 1]
  {
  }

  /** The buckets of a page are among all, in its order. */
  lemma {:induction false} PageAmongAll(pages: seq<seq<Bucket>>, k: nat) returns (at: nat)
    requires k < |pages|
    ensures at + |pages[k]| <= |Flatten(pages)| && Flatten(pages)[at..at + |pages[k]|] == pages[k]
  {
    var front := pages[..|pages| - 1];
    if k == |front| {
      at := |Flatten(front)|;
    } else {
      at := PageAmongAll(front, k);
      assert Flatten(pages)[at..at + |pages[k]|] == Flatten(front)[at..at + |pages[k]|];
    }
  }

  lemma PageOfListing(pages: seq<seq<Bucket>>, namespace: string, k: nat)
    requires k < |pages|
    ensures NamesDiffer(Flatten(pages)) ==> NamesDiffer(pages[k])
    ensures Listing(Flatten(pages), namespace) ==> Listing(pages[k], namespace)
  {
    var at := PageAmongAll(pages, k);
    assert forall i :: 0 <= i < |pages[k]| ==> pages[k][i] == Flatten(pages)[at + i];
  }

  lemma {:induction false} AllOfNamespace(pages: seq<seq<Bucket>>, namespace: string)
    requires forall k :: 0 <= k < |pages| ==> forall b :: b in pages[k] ==> b.namespace == namespace
    ensures forall i :: 0 <= i < |Flatten(pages)| ==> Flatten(pages)[i].namespace == namespace
  {
    if pages != [] {
      AllOfNamespace(pages[..|pages| - 1], namespace);
      assert forall b :: b in pages[|pages| - 1] ==> b.namespace == namespace;
    }
  }

  lemma ConversationIsTold(serve: (nat, string) -> Reply, namespace: string, pageSize: nat, pages: seq<seq<Bucket>>,
                           markers: seq<string>)
    requires Conversation(serve, namespace, pageSize, pages, markers)
    ensures Told(serve, namespace, pageSize, pages, markers)
  {
    forall k | 0 <= k < |pages| ensures ToldAt(serve, namespace, pageSize, pages, markers, k) {
      AnswerOf(serve, namespace, pageSize, pages, markers, k);
      PageOfListing(pages, namespace, k);
      PageIsTold(serve(k, markers[k]), pageSize, namespace, pages[k],
                 if k + 1 < |pages| then markers[k + 1] else "");
    }
  }

  lemma ToldAnswers(serve: (nat, string) -> Reply, namespace: string, pageSize: nat, pages: seq<seq<Bucket>>,
                    markers: seq<string>, k: nat)
    requires Told(serve, namespace, pageSize, pages, markers) && k < |pages|
    ensures Answers(serve, pageSize, k, markers[k], pages[k], if k + 1 < |pages| then markers[k + 1] else "")
    ensures forall b :: b in pages[k] ==> b.namespace == namespace
  {
    assert ToldAt(serve, namespace, pageSize, pages, markers, k);
    PageOfListing(pages, namespace, k);
    ToldPageIsRead(serve(k, markers[k]), pageSize, namespace, pages[k],
                   if k + 1 < |pages| then markers[k + 1] else "");
  }

  lemma ToldIsConversation(serve: (nat, string) -> Reply, namespace: string, pageSize: nat, pages: seq<seq<Bucket>>,
                           markers: seq<string>)
    requires Told(serve, namespace, pageSize, pages, markers)
    ensures Conversation(serve, namespace, pageSize, pages, markers)
  {
    var front, n := pages[..|pages| - 1], |pages| - 1;
    forall k | 0 <= k < |pages| ensures forall b :: b in pages[k] ==> b.namespace == namespace {
      ToldAnswers(serve, namespace, pageSize, pages, markers, k);
    }
    AllOfNamespace(pages, namespace);
    FlattenLast(pages);
    ListingPrefix(Flatten(front), pages[n], namespace);
    forall k | 0 <= k < |front| ensures AnswerAt(serve, pageSize, front, markers, k) {
      ToldAnswers(serve, namespace, pageSize, pages, markers, k);
    }
    ToldAnswers(serve, namespace, pageSize, pages, markers, n);
  }

  /** What the marker loop takes for a conversation is one that can be told like this, and nothing else. */
  lemma ConversationMeans(serve: (nat, string) -> Reply, namespace: string, pageSize: nat, pages: seq<seq<Bucket>>,
                          markers: seq<string>)
    ensures Conversation(serve, namespace, pageSize, pages, markers)
       <==> Told(serve, namespace, pageSize, pages, markers)
  {
    if Conversation(serve, namespace, pageSize, pages, markers) {
      ConversationIsTold(serve, namespace, pageSize, pages, markers);
    }
    if Told(serve, namespace, pageSize, pages, markers) {
      ToldIsConversation(serve, namespace, pageSize, pages, markers);
    }
  }
}
