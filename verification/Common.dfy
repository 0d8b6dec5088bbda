/**
 Shared vocabulary: optional values, error returns, NUL-joined map keys,
 string order and the sorting routine that stands for the Go library's `slices.SortFunc`.

 A Go string is modelled as its byte sequence, one `char` per byte.
 */
module Common {

  datatype Option<+T> = None | Some(value: T)

  datatype Result<+T> = Ok(value: T) | Err(error: string)

  ghost predicate Distinct<T>(s: seq<T>) {
    forall i, j :: 0 <= i < j < |s| ==> s[i] != s[j]
  }

  const MAX_INT64: int := 0x7FFF_FFFF_FFFF_FFFF

  /** `time.Time.Sub` in nanoseconds: the difference, saturated to the 64-bit range. */
  function Since(later: int, earlier: int): (d: int)
    ensures -MAX_INT64 - 1 <= d <= MAX_INT64 && (later > earlier ==> d > 0)
    ensures -MAX_INT64 <= later - earlier <= MAX_INT64 ==> d == later - earlier
  {
    if later - earlier > MAX_INT64 then MAX_INT64
    else if later - earlier < -MAX_INT64 - 1 then -MAX_INT64 - 1
    else later - earlier
  }

  // ---------- map keys that join strings with a NUL byte ----------

  const NUL: char := '\0'

  predicate NulFree(s: string) {
    NUL !in s
  }

  function Key(a: string, b: string): string {
    a + [NUL] + b
  }

  lemma FirstNul(a: string, b: string)
    requires NulFree(a)
    ensures Key(a, b)[..|a|] == a && Key(a, b)[|a| + 1..] == b
    ensures Key(a, b)[|a|] == NUL && forall i :: 0 <= i < |a| ==> Key(a, b)[i] != NUL
  {
  }

  /** A joined key names its pair as soon as both first components are free of NUL bytes. */
  lemma KeyInjective(a: string, b: string, c: string, d: string)
    requires NulFree(a) && NulFree(c)
    requires Key(a, b) == Key(c, d)
    ensures a == c && b == d
  {
    FirstNul(a, b);
    FirstNul(c, d);
  }

  // ---------- order on strings and on tuples of strings ----------

  /** `strings.Compare`: negative, zero or positive. */
  function CompareStrings(a: string, b: string): int {
    if a == [] then (if b == [] then 0 else -1)
    else if b == [] then 1
    else if a[0] < b[0] then -1
    else if a[0] > b[0] then 1
    else CompareStrings(a[1..], b[1..])
  }

  lemma {:induction false} CompareStringsOrder(a: string, b: string)
    ensures CompareStrings(a, b) == 0 <==> a == b
    ensures CompareStrings(a, b) == -CompareStrings(b, a)
  {
    if a != [] && b != [] {
      CompareStringsOrder(a[1..], b[1..]);
      assert a == [a[0]] + a[1..] && b == [b[0]] + b[1..];
    }
  }

  lemma {:induction false} CompareStringsTransitive(a: string, b: string, c: string)
    requires CompareStrings(a, b) <= 0 && CompareStrings(b, c) <= 0
    ensures CompareStrings(a, c) <= 0
  {
    if a != [] && b != [] && c != [] && a[0] == b[0] == c[0] {
      CompareStringsTransitive(a[1..], b[1..], c[1..]);
    }
  }

  /** The strings agree before position `i`, and there the first one ends or has the smaller byte. */
  ghost predicate PrecedesAt(a: string, b: string, i: nat) {
    i <= |a| && i < |b| && a[..i] == b[..i] && (i == |a| || a[i] < b[i])
  }

  /** The order of strings is that of a dictionary: the first difference decides. */
  lemma {:induction false} StringsInOrder(a: string, b: string)
    ensures CompareStrings(a, b) < 0 <==> exists i: nat :: PrecedesAt(a, b, i)
  {
    if a == [] || b == [] {
      assert b != [] ==> PrecedesAt(a, b, 0);
    } else if a[0] == b[0] {
      StringsInOrder(a[1..], b[1..]);
      if i: nat :| PrecedesAt(a[1..], b[1..], i) { FirstAgrees(a, b, i); }
      if i: nat :| PrecedesAt(a, b, i) { RestPrecedes(a, b, i); }
    } else {
      assert a[0] < b[0] ==> PrecedesAt(a, b, 0);
      forall i: nat | PrecedesAt(a, b, i) ensures a[0] < b[0] {
        if i > 0 { assert a[..i][0] == b[..i][0]; }
      }
    }
  }

  lemma FirstAgrees(a: string, b: string, i: nat)
    requires a != [] && b != [] && a[0] == b[0] && PrecedesAt(a[1..], b[1..], i)
    ensures PrecedesAt(a, b, i + 1)
  {
    assert a[..i + 1] == [a[0]] + a[1..][..i] && b[..i + 1] == [b[0]] + b[1..][..i];
  }

  lemma RestPrecedes(a: string, b: string, i: nat)
    requires a != [] && b != [] && a[0] == b[0] && PrecedesAt(a, b, i)
    ensures i > 0 && PrecedesAt(a[1..], b[1..], i - 1)
  {
    assert a[1..][..i - 1] == a[..i][1..] && b[1..][..i - 1] == b[..i][1..];
  }

  /** Comparison of two tuples of strings, component by component. */
  function CompareTuples(a: seq<string>, b: seq<string>): int {
    if a == [] then (if b == [] then 0 else -1)
    else if b == [] then 1
    else
      var first := CompareStrings(a[0], b[0]);
      if first != 0 then first else CompareTuples(a[1..], b[1..])
  }

  lemma {:induction false} CompareTuplesOrder(a: seq<string>, b: seq<string>)
    ensures CompareTuples(a, b) == 0 <==> a == b
    ensures CompareTuples(a, b) == -CompareTuples(b, a)
  {
    if a != [] && b != [] {
      CompareStringsOrder(a[0], b[0]);
      CompareTuplesOrder(a[1..], b[1..]);
      assert a == [a[0]] + a[1..] && b == [b[0]] + b[1..];
    }
  }

  lemma {:induction false} CompareTuplesTransitive(a: seq<string>, b: seq<string>, c: seq<string>)
    requires CompareTuples(a, b) <= 0 && CompareTuples(b, c) <= 0
    ensures CompareTuples(a, c) <= 0
  {
    if a != [] && b != [] && c != [] {
      CompareStringsTransitive(a[0], b[0], c[0]);
      CompareStringsOrder(a[0], b[0]);
      CompareStringsOrder(b[0], c[0]);
      CompareStringsOrder(a[0], c[0]);
      if CompareStrings(a[0], c[0]) == 0 {
        CompareStringsOrder(c[0], b[0]);
        CompareStringsTransitive(b[0], c[0], a[0]);
        CompareStringsOrder(b[0], a[0]);
        CompareTuplesTransitive(a[1..], b[1..], c[1..]);
      }
    }
  }

  /** The tuples agree before component `i`, and there the first one has the smaller string. */
  ghost predicate ComponentPrecedes(a: seq<string>, b: seq<string>, i: nat) {
    i < |a| && i < |b| && a[..i] == b[..i] && CompareStrings(a[i], b[i]) < 0
  }

  /** Tuples of the same length: the first component that differs decides. */
  lemma {:induction false} TuplesInOrder(a: seq<string>, b: seq<string>)
    requires |a| == |b|
    ensures CompareTuples(a, b) < 0 <==> exists i: nat :: ComponentPrecedes(a, b, i)
  {
    if a != [] {
      CompareStringsOrder(a[0], b[0]);
      if a[0] == b[0] {
        TuplesInOrder(a[1..], b[1..]);
        if i: nat :| ComponentPrecedes(a[1..], b[1..], i) {
          assert a[..i + 1] == [a[0]] + a[1..][..i] && b[..i + 1] == [b[0]] + b[1..][..i];
          assert ComponentPrecedes(a, b, i + 1);
        }
        if i: nat :| ComponentPrecedes(a, b, i) {
          assert a[1..][..i - 1] == a[..i][1..] && b[1..][..i - 1] == b[..i][1..];
          assert ComponentPrecedes(a[1..], b[1..], i - 1);
        }
      } else {
        assert CompareStrings(a[0], b[0]) < 0 ==> ComponentPrecedes(a, b, 0);
        forall i: nat | ComponentPrecedes(a, b, i) ensures CompareStrings(a[0], b[0]) < 0 {
          if i > 0 { assert a[..i][0] == b[..i][0]; }
        }
      }
    }
  }

  predicate TupleLeq(a: seq<string>, b: seq<string>) {
    CompareTuples(a, b) <= 0
  }

  /** Equal, or the first component that differs comes earlier in the dictionary. */
  ghost predicate InOrder(a: seq<string>, b: seq<string>) {
    a == b || exists k: nat, i: nat :: k < |a| && k < |b| && a[..k] == b[..k] && PrecedesAt(a[k], b[k], i)
  }

  lemma LeqIsInOrder(a: seq<string>, b: seq<string>)
    requires |a| == |b|
    ensures TupleLeq(a, b) <==> InOrder(a, b)
  {
    CompareTuplesOrder(a, b);
    TuplesInOrder(a, b);
    if k: nat :| ComponentPrecedes(a, b, k) { StringsInOrder(a[k], b[k]); }
    if k: nat, i: nat :| k < |a| && a[..k] == b[..k] && PrecedesAt(a[k], b[k], i) {
      StringsInOrder(a[k], b[k]);
      assert ComponentPrecedes(a, b, k);
    }
  }

  lemma TupleLeqIsOrder()
    ensures TotalOrder(TupleLeq)
  {
    forall a, b ensures TupleLeq(a, b) || TupleLeq(b, a)
                ensures TupleLeq(a, b) && TupleLeq(b, a) ==> a == b {
      CompareTuplesOrder(a, b);
    }
    forall a, b, c | TupleLeq(a, b) && TupleLeq(b, c) ensures TupleLeq(a, c) {
      CompareTuplesTransitive(a, b, c);
    }
  }

  // ---------- sorting elements by a key ----------

  ghost predicate TotalPreorder<K(!new)>(leq: (K, K) -> bool) {
    && (forall a, b :: leq(a, b) || leq(b, a))
    && (forall a, b, c :: leq(a, b) && leq(b, c) ==> leq(a, c))
  }

  ghost predicate TotalOrder<K(!new)>(leq: (K, K) -> bool) {
    TotalPreorder(leq) && forall a, b :: leq(a, b) && leq(b, a) ==> a == b
  }

  ghost predicate SortedBy<T, K>(s: seq<T>, key: T -> K, leq: (K, K) -> bool) {
    forall i, j :: 0 <= i < j < |s| ==> leq(key(s[i]), key(s[j]))
  }

  ghost predicate DistinctKeys<T, K>(s: seq<T>, key: T -> K) {
    forall i, j :: 0 <= i < j < |s| ==> key(s[i]) != key(s[j])
  }

  /** Insertion of one element after everything that does not exceed it. */
  function Insert<T, K>(s: seq<T>, x: T, key: T -> K, leq: (K, K) -> bool): (r: seq<T>)
    ensures multiset(r) == multiset(s) + multiset{x}
  {
    if s == [] || !leq(key(s[0]), key(x)) then
      assert [x] + s == [x] + s;
      [x] + s
    else
      assert s == [s[0]] + s[1..];
      [s[0]] + Insert(s[1..], x, key, leq)
  }

  lemma {:induction false} InsertSorted<T, K(!new)>(s: seq<T>, x: T, key: T -> K, leq: (K, K) -> bool)
    requires TotalPreorder(leq) && SortedBy(s, key, leq)
    ensures SortedBy(Insert(s, x, key, leq), key, leq)
  {
    if s != [] && leq(key(s[0]), key(x)) {
      InsertSorted(s[1..], x, key, leq);
      var r := Insert(s[1..], x, key, leq);
      forall j | 0 <= j < |r| ensures leq(key(s[0]), key(r[j])) {
        assert r[j] in multiset(s[1..]) + multiset{x};
        if r[j] in s[1..] {
          var k :| 0 <= k < |s[1..]| && s[1..][k] == r[j];
          assert s[k + 1] == r[j];
        }
      }
    }
  }

  /** The library sort: some ordered permutation (here, the one insertion sort gives). */
  function Sort<T, K>(s: seq<T>, key: T -> K, leq: (K, K) -> bool): (r: seq<T>)
    ensures multiset(r) == multiset(s)
    ensures |r| == |s|
  {
    if s == [] then []
    else
      assert s == s[..|s| - 1] + [s[|s| - 1]];
      var r := Insert(Sort(s[..|s| - 1], key, leq), s[|s| - 1], key, leq);
      assert |r| == |multiset(r)| == |multiset(s)|;
      r
  }

  lemma {:induction false} SortSorted<T, K(!new)>(s: seq<T>, key: T -> K, leq: (K, K) -> bool)
    requires TotalPreorder(leq)
    ensures SortedBy(Sort(s, key, leq), key, leq)
  {
    if s != [] {
      SortSorted(s[..|s| - 1], key, leq);
      InsertSorted(Sort(s[..|s| - 1], key, leq), s[|s| - 1], key, leq);
    }
  }

  lemma InSequence<T>(x: T, s: seq<T>, t: seq<T>)
    requires multiset(s) == multiset(t)
    ensures x in s <==> x in t
  {
    assert x in s <==> x in multiset(s);
    assert x in t <==> x in multiset(t);
  }

  lemma CountOfDistinct<T>(s: seq<T>, x: T)
    requires Distinct(s)
    ensures multiset(s)[x] == if x in s then 1 else 0
  {
    if x in s {
      var i :| 0 <= i < |s| && s[i] == x;
      Cut(s, i);
      assert x !in s[..i] && x !in s[i + 1..];
    }
  }

  /** Without repetitions, the elements determine the multiset. */
  lemma SameElements<T>(s: seq<T>, t: seq<T>)
    requires Distinct(s) && Distinct(t) && forall x :: x in s <==> x in t
    ensures multiset(s) == multiset(t)
  {
    forall x ensures multiset(s)[x] == multiset(t)[x] {
      CountOfDistinct(s, x);
      CountOfDistinct(t, x);
    }
  }

  lemma SameLength<T>(s: seq<T>, t: seq<T>)
    requires multiset(s) == multiset(t)
    ensures |s| == |t|
  {
    assert |s| == |multiset(s)| == |multiset(t)| == |t|;
  }

  lemma Cut<T>(s: seq<T>, k: nat)
    requires k < |s|
    ensures s == s[..k] + [s[k]] + s[k + 1..]
    ensures s[..k + 1] == s[..k] + [s[k]]
  {
  }

  lemma RemoveAt<T>(s: seq<T>, i: nat)
    requires i < |s|
    ensures multiset(s[..i] + s[i + 1..]) == multiset(s) - multiset{s[i]}
  {
    assert s == s[..i] + [s[i]] + s[i + 1..];
  }

  /** The first element of an ordered arrangement with distinct keys is determined. */
  lemma FirstIsUnique<T, K(!new)>(s: seq<T>, t: seq<T>, key: T -> K, leq: (K, K) -> bool)
    requires TotalOrder(leq) && multiset(s) == multiset(t) && s != [] && t != []
    requires SortedBy(s, key, leq) && SortedBy(t, key, leq) && DistinctKeys(s, key)
    ensures s[0] == t[0]
  {
    InSequence(s[0], s, t);
    InSequence(t[0], s, t);
    var i :| 0 <= i < |t| && t[i] == s[0];
    var j :| 0 <= j < |s| && s[j] == t[0];
  }

  lemma Tail<T, K>(s: seq<T>, key: T -> K, leq: (K, K) -> bool)
    requires s != [] && SortedBy(s, key, leq)
    ensures SortedBy(s[1..], key, leq) && (DistinctKeys(s, key) ==> DistinctKeys(s[1..], key))
  {
    var rest := s[1..];
    assert forall i :: 0 <= i < |rest| ==> rest[i] == s[i + 1];
  }

  lemma DropFirst<T>(s: seq<T>)
    requires s != []
    ensures multiset(s[1..]) == multiset(s) - multiset{s[0]}
  {
    RemoveAt(s, 0);
    assert s[..0] + s[1..] == s[1..];
  }

  lemma SameSplit<T>(s: seq<T>, t: seq<T>)
    requires s != [] && t != [] && s[0] == t[0] && s[1..] == t[1..]
    ensures s == t
  {
    assert s == [s[0]] + s[1..] && t == [t[0]] + t[1..];
  }

  /** With distinct keys there is only one ordered arrangement of a collection. */
  lemma {:induction false} SortedIsUnique<T, K(!new)>(s: seq<T>, t: seq<T>, key: T -> K, leq: (K, K) -> bool)
    requires TotalOrder(leq) && multiset(s) == multiset(t)
    requires SortedBy(s, key, leq) && SortedBy(t, key, leq) && DistinctKeys(s, key)
    ensures s == t
  {
    SameLength(s, t);
    if s != [] {
      FirstIsUnique(s, t, key, leq);
      Tail(s, key, leq);
      Tail(t, key, leq);
      DropFirst(s);
      DropFirst(t);
      SortedIsUnique(s[1..], t[1..], key, leq);
      SameSplit(s, t);
    }
  }

  /** Sorting a permutation of elements with distinct keys gives the same sequence. */
  lemma SortIgnoresOrder<T, K(!new)>(s: seq<T>, t: seq<T>, key: T -> K, leq: (K, K) -> bool)
    requires TotalOrder(leq) && multiset(s) == multiset(t) && DistinctKeys(s, key)
    ensures Sort(s, key, leq) == Sort(t, key, leq)
  {
    SortSorted(s, key, leq);
    SortSorted(t, key, leq);
    PermutedKeysDistinct(s, Sort(s, key, leq), key);
    SortedIsUnique(Sort(s, key, leq), Sort(t, key, leq), key, leq);
  }

  /** Keys stay distinct under permutation. */
  lemma {:induction false} PermutedKeysDistinct<T, K(!new)>(s: seq<T>, t: seq<T>, key: T -> K)
    requires multiset(s) == multiset(t) && DistinctKeys(s, key)
    ensures DistinctKeys(t, key)
  {
    forall i, j | 0 <= i < j < |t| ensures key(t[i]) != key(t[j]) {
      InSequence(t[i], s, t);
      InSequence(t[j], s, t);
      if key(t[i]) == key(t[j]) {
        var a :| 0 <= a < |s| && s[a] == t[i];
        var b :| 0 <= b < |s| && s[b] == t[j];
        assert t[i] == t[j];
        TwiceInside(t, i, j);
        OnceInside(s, a, key);
      }
    }
  }

  lemma TwiceInside<T>(t: seq<T>, i: nat, j: nat)
    requires i < j < |t| && t[i] == t[j]
    ensures multiset(t)[t[i]] >= 2
  {
    assert t == t[..i] + [t[i]] + t[i + 1..j] + [t[j]] + t[j + 1..];
  }

  lemma OnceInside<T, K>(s: seq<T>, a: nat, key: T -> K)
    requires a < |s| && DistinctKeys(s, key)
    ensures multiset(s)[s[a]] == 1
  {
    assert s == s[..a] + [s[a]] + s[a + 1..];
    assert s[a] !in s[..a] && s[a] !in s[a + 1..];
  }

  // ---------- permutations ----------

  function Map<A, B>(s: seq<A>, f: A -> B): (r: seq<B>)
    ensures |r| == |s| && forall i :: 0 <= i < |s| ==> r[i] == f(s[i])
  {
    seq(|s|, i requires 0 <= i < |s| => f(s[i]))
  }

  /** The image of a sequence, told by the elements of the sequence alone. */
  lemma MapMembers<T, U>(s: seq<T>, elements: seq<T>, f: T -> U)
    requires forall x :: x in s <==> x in elements
    ensures forall y :: y in Map(s, f) <==> exists x :: x in elements && y == f(x)
  {
    forall i | 0 <= i < |s| ensures s[i] in elements && Map(s, f)[i] == f(s[i]) {
      assert s[i] in s;
    }
    forall x | x in elements ensures f(x) in Map(s, f) {
      var i :| 0 <= i < |s| && s[i] == x;
      assert Map(s, f)[i] == f(x);
    }
  }

  lemma MapFirst<A, B>(s: seq<A>, f: A -> B)
    requires s != []
    ensures multiset(Map(s, f)) == multiset{f(s[0])} + multiset(Map(s[1..], f))
  {
    assert Map(s, f) == [f(s[0])] + Map(s[1..], f);
  }

  lemma MapSplit<A, B>(t: seq<A>, i: nat, f: A -> B)
    requires i < |t|
    ensures multiset(Map(t, f)) == multiset{f(t[i])} + multiset(Map(t[..i] + t[i + 1..], f))
  {
    assert Map(t, f) == Map(t[..i], f) + [f(t[i])] + Map(t[i + 1..], f);
    assert Map(t[..i] + t[i + 1..], f) == Map(t[..i], f) + Map(t[i + 1..], f);
  }

  /** The first element of one arrangement, taken out of another. */
  lemma TakeFirst<A, B>(s: seq<A>, t: seq<A>, f: A -> B) returns (rest: seq<A>)
    requires multiset(s) == multiset(t) && s != []
    ensures multiset(s[1..]) == multiset(rest)
    ensures multiset(Map(t, f)) == multiset{f(s[0])} + multiset(Map(rest, f))
  {
    InSequence(s[0], s, t);
    var i :| 0 <= i < |t| && t[i] == s[0];
    DropFirst(s);
    RemoveAt(t, i);
    rest := t[..i] + t[i + 1..];
    MapSplit(t, i, f);
  }

  /** A permutation of the arguments permutes the images. */
  lemma {:induction false} MapPermutation<A, B>(s: seq<A>, t: seq<A>, f: A -> B)
    requires multiset(s) == multiset(t)
    ensures multiset(Map(s, f)) == multiset(Map(t, f))
  {
    if s == [] {
      SameLength(s, t);
      assert t == s;
    } else {
      var rest := TakeFirst(s, t, f);
      MapFirst(s, f);
      MapPermutation(s[1..], rest, f);
    }
  }
}
