/**
 Lists gathered from a map whose entries are visited in an arbitrary order, and sorted
 afterwards: with distinct keys the visiting order does not matter.
 */
module Listing {
  import opened Common

  /** The order visits every key of the map once. */
  ghost predicate Enumerates<T>(order: seq<string>, lists: map<string, seq<T>>) {
    Distinct(order) && forall c :: c in order <==> c in lists
  }

  function ListAt<T>(lists: map<string, seq<T>>, c: string): seq<T> {
    if c in lists then lists[c] else []
  }

  function Flatten<T>(lists: map<string, seq<T>>, order: seq<string>): seq<T> {
    if order == [] then [] else Flatten(lists, order[..|order| - 1]) + ListAt(lists, order[|order| - 1])
  }

  lemma FlattenLast<T>(lists: map<string, seq<T>>, order: seq<string>, c: string)
    ensures Flatten(lists, order + [c]) == Flatten(lists, order) + ListAt(lists, c)
  {
    assert (order + [c])[..|order|] == order;
  }

  lemma SplitEnd(a: seq<string>, b: seq<string>)
    requires b != []
    ensures b == b[..|b| - 1] + [b[|b| - 1]] && a + b == (a + b[..|b| - 1]) + [b[|b| - 1]]
  {
  }

  lemma {:induction false} FlattenConcat<T>(lists: map<string, seq<T>>, a: seq<string>, b: seq<string>)
    ensures Flatten(lists, a + b) == Flatten(lists, a) + Flatten(lists, b)
  {
    if b == [] {
      assert a + b == a;
    } else {
      var front, last := b[..|b| - 1], b[|b| - 1];
      SplitEnd(a, b);
      FlattenConcat(lists, a, front);
      FlattenLast(lists, a + front, last);
      FlattenLast(lists, front, last);
      Associates(Flatten(lists, a), Flatten(lists, front), ListAt(lists, last));
    }
  }

  lemma Associates<T>(x: seq<T>, y: seq<T>, z: seq<T>)
    ensures x + y + z == x + (y + z)
  {
  }

  /** Visiting another key earlier or later only permutes the list. */
  lemma {:induction false} FlattenPermutes<T>(lists: map<string, seq<T>>, a: seq<string>, b: seq<string>)
    requires multiset(a) == multiset(b)
    ensures multiset(Flatten(lists, a)) == multiset(Flatten(lists, b))
  {
    if a == [] {
      SameLength(a, b);
      assert b == a;
    } else {
      var last := |a| - 1;
      InSequence(a[last], a, b);
      var i :| 0 <= i < |b| && b[i] == a[last];
      var rest := b[..i] + b[i + 1..];
      RemoveAt(b, i);
      RemoveAt(a, last);
      assert a[..last] + a[last + 1..] == a[..last];
      FlattenPermutes(lists, a[..last], rest);
      FlattenAround(lists, b, i);
    }
  }

  lemma FlattenAround<T>(lists: map<string, seq<T>>, b: seq<string>, i: nat)
    requires i < |b|
    ensures multiset(Flatten(lists, b)) == multiset(Flatten(lists, b[..i] + b[i + 1..])) + multiset(ListAt(lists, b[i]))
  {
    Cut(b, i);
    FlattenConcat(lists, b[..i] + [b[i]], b[i + 1..]);
    FlattenLast(lists, b[..i], b[i]);
    FlattenConcat(lists, b[..i], b[i + 1..]);
  }

  /** Whatever order the map is visited in, the sorted list is the same. */
  lemma AnyOrder<T, K(!new)>(lists: map<string, seq<T>>, a: seq<string>, b: seq<string>, key: T -> K,
                             leq: (K, K) -> bool)
    requires Enumerates(a, lists) && Enumerates(b, lists)
    requires TotalOrder(leq) && DistinctKeys(Flatten(lists, a), key)
    ensures Sort(Flatten(lists, a), key, leq) == Sort(Flatten(lists, b), key, leq)
  {
    SameElements(a, b);
    FlattenPermutes(lists, a, b);
    SortIgnoresOrder(Flatten(lists, a), Flatten(lists, b), key, leq);
  }

  /** The elements are those of the lists visited. */
  lemma {:induction false} FlattenMembers<T>(lists: map<string, seq<T>>, order: seq<string>, x: T)
    ensures x in Flatten(lists, order) <==> exists c :: c in order && x in ListAt(lists, c)
  {
    if order != [] {
      var front, last := order[..|order| - 1], order[|order| - 1];
      FlattenMembers(lists, front, x);
      assert forall c :: c in order <==> c in front || c == last;
    }
  }

  ghost predicate KeysDiffer<T, K>(a: seq<T>, b: seq<T>, key: T -> K) {
    forall i, j :: 0 <= i < |a| && 0 <= j < |b| ==> key(a[i]) != key(b[j])
  }

  /** Keys are distinct within each list and between any two. */
  ghost predicate UniqueKeys<T, K>(lists: map<string, seq<T>>, key: T -> K) {
    && (forall c :: c in lists ==> DistinctKeys(lists[c], key))
    && (forall c, d :: c in lists && d in lists && c != d ==> KeysDiffer(lists[c], lists[d], key))
  }

  lemma {:induction false} FlattenDiffers<T, K>(lists: map<string, seq<T>>, order: seq<string>, d: string, key: T -> K)
    requires UniqueKeys(lists, key) && d !in order && d in lists && forall c :: c in order ==> c in lists
    ensures KeysDiffer(Flatten(lists, order), lists[d], key)
  {
    if order != [] {
      var front, last := order[..|order| - 1], order[|order| - 1];
      FlattenDiffers(lists, front, d, key);
      assert KeysDiffer(lists[last], lists[d], key);
    }
  }

  lemma {:induction false} FlattenDistinct<T, K>(lists: map<string, seq<T>>, order: seq<string>, key: T -> K)
    requires UniqueKeys(lists, key) && Distinct(order) && forall c :: c in order ==> c in lists
    ensures DistinctKeys(Flatten(lists, order), key)
  {
    if order != [] {
      var front, last := order[..|order| - 1], order[|order| - 1];
      FlattenDistinct(lists, front, key);
      assert last !in front;
      FlattenDiffers(lists, front, last, key);
    }
  }

  /** What a sorted listing is: in order, with the elements of the lists, each key once. */
  lemma SortedListing<T, K(!new)>(lists: map<string, seq<T>>, order: seq<string>, key: T -> K, leq: (K, K) -> bool)
    requires Enumerates(order, lists) && TotalOrder(leq)
    ensures var r := Sort(Flatten(lists, order), key, leq);
            && SortedBy(r, key, leq)
            && (UniqueKeys(lists, key) ==> DistinctKeys(r, key))
            && forall x :: x in r <==> exists c :: c in lists && x in lists[c]
  {
    var all := Flatten(lists, order);
    var r := Sort(all, key, leq);
    SortSorted(all, key, leq);
    if UniqueKeys(lists, key) {
      FlattenDistinct(lists, order, key);
      PermutedKeysDistinct(all, r, key);
    }
    forall x ensures x in r <==> exists c :: c in lists && x in lists[c] {
      InSequence(x, r, all);
      FlattenMembers(lists, order, x);
    }
  }
}
