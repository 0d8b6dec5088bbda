/** Product versions: the parser, the printer and the order that profile selection uses. */
module Version {
  import opened Common

  const MAX_UINT32: nat := 0xFFFF_FFFF

  datatype Version = Version(parts: seq<nat>, suffix: string, raw: string) {
    ghost predicate Valid() {
      |parts| == 4 && forall i :: 0 <= i < 4 ==> parts[i] <= MAX_UINT32
    }

    /** The four numbers joined by dots, in decimal without leading zeros. */
    function Core(): string
      requires |parts| == 4
    {
      Joined(PrintAll(parts), "")
    }

    function Compare(other: Version): int {
      CompareParts(parts, other.parts)
    }
  }

  // ---------- decimal numbers ----------

  predicate Digit(c: char) { '0' <= c <= '9' }
  predicate Letter(c: char) { 'a' <= c <= 'z' || 'A' <= c <= 'Z' }
  predicate Separator(c: char) { c == '.' || c == '_' || c == '+' || c == '-' }

  predicate AllDigits(s: string) {
    forall i :: 0 <= i < |s| ==> Digit(s[i])
  }

  function Value(digits: string): nat
    requires AllDigits(digits)
  {
    if digits == [] then 0
    else Value(digits[..|digits| - 1]) * 10 + (digits[|digits| - 1] as int - '0' as int)
  }

  function Print(n: nat): (s: string)
    ensures s != [] && AllDigits(s)
  {
    if n < 10 then [('0' as int + n) as char] else Print(n / 10) + [('0' as int + n % 10) as char]
  }

  lemma {:induction false} ValueOfPrint(n: nat)
    ensures Value(Print(n)) == n
  {
    if n >= 10 {
      ValueOfPrint(n / 10);
      assert Print(n)[..|Print(n)| - 1] == Print(n / 10);
    }
  }

  // ---------- the accepted strings ----------

  /** An optional build suffix: a separator, a letter or digit, then any of the three. */
  predicate SuffixShape(s: string) {
    || s == ""
    || (&& |s| >= 2
        && Separator(s[0])
        && (Digit(s[1]) || Letter(s[1]))
        && forall i :: 2 <= i < |s| ==> Digit(s[i]) || Letter(s[i]) || Separator(s[i]))
  }

  /** A suffix is empty, or a separator, a letter or digit, and any number of all three. */
  lemma SuffixMeans(s: string)
    ensures SuffixShape(s)
       <==> || s == ""
            || (&& |s| >= 2 && (s[0] == '.' || s[0] == '_' || s[0] == '+' || s[0] == '-')
                && Alphanumeric(s[1])
                && forall i :: 2 <= i < |s| ==>
                     Alphanumeric(s[i]) || s[i] == '.' || s[i] == '_' || s[i] == '+' || s[i] == '-')
  {
  }

  predicate Alphanumeric(c: char) {
    '0' <= c <= '9' || 'A' <= c <= 'Z' || 'a' <= c <= 'z'
  }

  predicate Group(g: string) {
    g != "" && AllDigits(g)
  }

  predicate AllGroups(groups: seq<string>) {
    forall i :: 0 <= i < |groups| ==> Group(groups[i])
  }

  /** The groups joined by dots, followed by the suffix. */
  function Joined(groups: seq<string>, suffix: string): string
    requires groups != []
  {
    if |groups| == 1 then groups[0] + suffix else groups[0] + "." + Joined(groups[1..], suffix)
  }

  /** `value` reads as `n` digit groups and a suffix. */
  predicate Reads(value: string, n: nat, groups: seq<string>, suffix: string) {
    |groups| == n >= 1 && AllGroups(groups) && SuffixShape(suffix) && value == Joined(groups, suffix)
  }

  // ---------- the parser ----------

  /** Length of the longest leading run of digits. */
  function DigitRun(s: string): (n: nat)
    ensures n <= |s| && AllDigits(s[..n]) && (n < |s| ==> !Digit(s[n]))
  {
    if s == [] || !Digit(s[0]) then 0
    else
      var n := 1 + DigitRun(s[1..]);
      assert forall i :: 1 <= i < n ==> s[..n][i] == s[1..][..n - 1][i - 1];
      n
  }

  /** One group and what follows it. */
  function TakeGroup(s: string): Option<(string, string)> {
    var n := DigitRun(s);
    if n == 0 then None else Some((s[..n], s[n..]))
  }

  /** One group that a dot ends. */
  function TakeDotted(s: string): Option<(string, string)> {
    match TakeGroup(s)
    case None => None
    case Some((g, rest)) => if rest != "" && rest[0] == '.' then Some((g, rest[1..])) else None
  }

  /** The submatches of a pattern of `n` groups and an optional suffix. */
  function MatchPattern(s: string, n: nat): (m: Option<(seq<string>, string)>)
    requires n >= 1
    ensures m.Some? ==> Reads(s, n, m.value.0, m.value.1)
    decreases n
  {
    if n == 1 then
      match TakeGroup(s)
      case None => None
      case Some((g, suffix)) => if SuffixShape(suffix) then Some(([g], suffix)) else None
    else
      match TakeDotted(s)
      case None => None
      case Some((g, rest)) =>
        match MatchPattern(rest, n - 1)
        case None => None
        case Some((groups, suffix)) =>
          assert ([g] + groups)[1..] == groups;
          assert s == g + "." + rest;
          Some(([g] + groups, suffix))
  }

  /** A digit run is recovered from in front of anything that does not begin with a digit. */
  lemma {:induction false} RunIsUnique(digits: string, rest: string)
    requires AllDigits(digits) && (rest != "" ==> !Digit(rest[0]))
    ensures DigitRun(digits + rest) == |digits|
    ensures (digits + rest)[..|digits|] == digits && (digits + rest)[|digits|..] == rest
  {
    if digits == "" {
      assert digits + rest == rest;
    } else {
      RunIsUnique(digits[1..], rest);
      assert (digits + rest)[1..] == digits[1..] + rest;
    }
  }

  lemma DottedIsUnique(g: string, rest: string)
    requires Group(g)
    ensures TakeDotted(g + "." + rest) == Some((g, rest))
  {
    assert g + "." + rest == g + ("." + rest);
    RunIsUnique(g, "." + rest);
    assert ("." + rest)[1..] == rest;
  }

  /** The pattern finds the reading of a string, and there is only one. */
  lemma {:induction false} PatternIsComplete(value: string, n: nat, groups: seq<string>, suffix: string)
    requires n >= 1 && Reads(value, n, groups, suffix)
    ensures MatchPattern(value, n) == Some((groups, suffix))
    decreases n
  {
    if n == 1 {
      LastGroup(value, n, groups, suffix);
    } else {
      var g, others := groups[0], groups[1..];
      assert groups == [g] + others;
      var rest := FirstGroup(value, n, g, others, suffix);
      PatternIsComplete(rest, n - 1, others, suffix);
      OneMoreGroup(value, n, g, rest, others, suffix);
    }
  }

  lemma LastGroup(value: string, n: nat, groups: seq<string>, suffix: string)
    requires n == 1 && Reads(value, n, groups, suffix)
    ensures MatchPattern(value, n) == Some((groups, suffix))
  {
    assert Group(groups[0]);
    RunIsUnique(groups[0], suffix);
    assert groups == [groups[0]];
  }

  lemma OneMoreGroup(value: string, n: nat, g: string, rest: string, groups: seq<string>, suffix: string)
    requires n >= 2 && TakeDotted(value) == Some((g, rest)) && MatchPattern(rest, n - 1) == Some((groups, suffix))
    ensures MatchPattern(value, n) == Some(([g] + groups, suffix))
  {
  }

  lemma FirstGroup(value: string, n: nat, g: string, others: seq<string>, suffix: string) returns (rest: string)
    requires n >= 2 && Reads(value, n, [g] + others, suffix)
    ensures Reads(rest, n - 1, others, suffix) && TakeDotted(value) == Some((g, rest))
  {
    var groups := [g] + others;
    assert Group(groups[0]);
    assert groups[1..] == others;
    assert forall i :: 0 <= i < n - 1 ==> others[i] == groups[i + 1];
    rest := Joined(others, suffix);
    DottedIsUnique(g, rest);
  }

  /** Four digit groups, each a 32-bit number, and a suffix. */
  ghost predicate Accepts(value: string, groups: seq<string>, suffix: string) {
    Reads(value, 4, groups, suffix) && forall i :: 0 <= i < 4 ==> Numbers(groups)[i] <= MAX_UINT32
  }

  function Numbers(groups: seq<string>): (r: seq<nat>)
    requires AllGroups(groups)
    ensures |r| == |groups| && forall i :: 0 <= i < |r| ==> r[i] == Value(groups[i])
  {
    seq(|groups|, i requires 0 <= i < |groups| => assert Group(groups[i]); Value(groups[i]))
  }

  /** The parse as a value: at most one, since a string has at most one reading. */
  function Parsed(value: string): (r: Result<Version>)
    ensures r.Ok? ==> r.value.Valid() && r.value.raw == value
  {
    match MatchPattern(value, 4)
    case None => Err("version must contain four numeric parts and an optional build suffix")
    case Some((groups, suffix)) =>
      if exists i :: 0 <= i < 4 && Numbers(groups)[i] > MAX_UINT32 then Err("version part out of range")
      else Ok(Version(Numbers(groups), suffix, value))
  }

  /** `ParseVersion`. */
  method ParseVersion(value: string) returns (r: Result<Version>)
    ensures r == Parsed(value)
  {
    var m := MatchPattern(value, 4);
    if m.None? {
      return Err("version must contain four numeric parts and an optional build suffix");
    }
    var parts := ReadParts(m.value.0);
    if parts.None? {
      return Err("version part out of range");
    }
    r := Ok(Version(parts.value, m.value.1, value));
  }

  /** Its loop over the four submatches. */
  method ReadParts(groups: seq<string>) returns (r: Option<seq<nat>>)
    requires |groups| == 4 && AllGroups(groups)
    ensures r.None? <==> exists i :: 0 <= i < 4 && Numbers(groups)[i] > MAX_UINT32
    ensures r.Some? ==> r.value == Numbers(groups)
  {
    var parts: seq<nat> := [];
    for i := 0 to 4
      invariant |parts| == i
      invariant forall k :: 0 <= k < i ==> parts[k] == Numbers(groups)[k] && parts[k] <= MAX_UINT32
    {
      assert Group(groups[i]);
      var part := Value(groups[i]);
      if part > MAX_UINT32 {
        assert Numbers(groups)[i] > MAX_UINT32;
        return None;
      }
      parts := parts + [part];
    }
    assert parts == Numbers(groups);
    r := Some(parts);
  }

  /** Parsing succeeds exactly on the strings with an accepted reading, and yields its numbers. */
  lemma ParseMeansReading(value: string)
    ensures Parsed(value).Ok? <==> exists groups, suffix :: Accepts(value, groups, suffix)
    ensures forall groups, suffix :: Accepts(value, groups, suffix) ==>
              Parsed(value) == Ok(Version(Numbers(groups), suffix, value))
  {
    forall groups, suffix | Accepts(value, groups, suffix)
      ensures Parsed(value) == Ok(Version(Numbers(groups), suffix, value)) {
      PatternIsComplete(value, 4, groups, suffix);
    }
    if Parsed(value).Ok? {
      var m := MatchPattern(value, 4).value;
      assert Accepts(value, m.0, m.1);
    }
  }

  function PrintAll(parts: seq<nat>): (groups: seq<string>)
    ensures |groups| == |parts| && AllGroups(groups)
  {
    seq(|parts|, i requires 0 <= i < |parts| => Print(parts[i]))
  }

  /** Printing the numbers of a version and reading them back changes nothing that counts. */
  lemma CoreRoundTrip(v: Version)
    requires v.Valid()
    ensures var r := Parsed(v.Core());
            && r.Ok?
            && r.value.suffix == ""
            && r.value.Compare(v) == 0
            && r.value.Core() == v.Core()
  {
    var groups := PrintAll(v.parts);
    forall i | 0 <= i < 4 ensures Numbers(groups)[i] == v.parts[i] {
      ValueOfPrint(v.parts[i]);
    }
    assert Numbers(groups) == v.parts;
    ParseMeansReading(v.Core());
    assert Accepts(v.Core(), groups, "");
    ComparePartsOrder(v.parts, v.parts);
  }

  // ---------- the order ----------

  function CompareParts(a: seq<nat>, b: seq<nat>): int {
    if a == [] then (if b == [] then 0 else -1)
    else if b == [] then 1
    else if a[0] < b[0] then -1
    else if a[0] > b[0] then 1
    else CompareParts(a[1..], b[1..])
  }

  /** The parts agree before position `i`, and there the first ones have the smaller number. */
  ghost predicate LowerAt(a: seq<nat>, b: seq<nat>, i: nat) {
    i < |a| && i < |b| && a[..i] == b[..i] && a[i] < b[i]
  }

  lemma {:induction false} PartsInOrder(a: seq<nat>, b: seq<nat>)
    requires |a| == |b|
    ensures CompareParts(a, b) < 0 <==> exists i: nat :: LowerAt(a, b, i)
  {
    if a != [] {
      if a[0] == b[0] {
        PartsInOrder(a[1..], b[1..]);
        if i: nat :| LowerAt(a[1..], b[1..], i) {
          assert a[..i + 1] == [a[0]] + a[1..][..i] && b[..i + 1] == [b[0]] + b[1..][..i];
          assert LowerAt(a, b, i + 1);
        }
        if i: nat :| LowerAt(a, b, i) {
          assert a[1..][..i - 1] == a[..i][1..] && b[1..][..i - 1] == b[..i][1..];
          assert LowerAt(a[1..], b[1..], i - 1);
        }
      } else {
        assert a[0] < b[0] ==> LowerAt(a, b, 0);
        forall i: nat | LowerAt(a, b, i) ensures a[0] < b[0] {
          if i > 0 { assert a[..i][0] == b[..i][0]; }
        }
      }
    }
  }

  /** One version is before another exactly when the first part that differs is the smaller number. */
  lemma FirstDifferenceDecides(u: Version, v: Version)
    requires u.Valid() && v.Valid()
    ensures u.Compare(v) < 0 <==> exists i: nat :: i < 4 && u.parts[..i] == v.parts[..i] && u.parts[i] < v.parts[i]
    ensures u.Compare(v) > 0 <==> exists i: nat :: i < 4 && u.parts[..i] == v.parts[..i] && v.parts[i] < u.parts[i]
  {
    PartsInOrder(u.parts, v.parts);
    PartsInOrder(v.parts, u.parts);
    ComparePartsOrder(u.parts, v.parts);
    if i: nat :| LowerAt(u.parts, v.parts, i) { assert i < 4 && u.parts[..i] == v.parts[..i]; }
    if i: nat :| LowerAt(v.parts, u.parts, i) { assert i < 4 && u.parts[..i] == v.parts[..i]; }
    forall i: nat | i < 4 && u.parts[..i] == v.parts[..i] && u.parts[i] < v.parts[i]
      ensures LowerAt(u.parts, v.parts, i) {
    }
    forall i: nat | i < 4 && u.parts[..i] == v.parts[..i] && v.parts[i] < u.parts[i]
      ensures LowerAt(v.parts, u.parts, i) {
    }
  }

  predicate PartsLeq(a: seq<nat>, b: seq<nat>) {
    CompareParts(a, b) <= 0
  }

  lemma {:induction false} ComparePartsOrder(a: seq<nat>, b: seq<nat>)
    ensures CompareParts(a, b) == 0 <==> a == b
    ensures CompareParts(a, b) == -CompareParts(b, a)
    ensures -1 <= CompareParts(a, b) <= 1
  {
    if a != [] && b != [] {
      ComparePartsOrder(a[1..], b[1..]);
      assert a == [a[0]] + a[1..] && b == [b[0]] + b[1..];
    }
  }

  lemma {:induction false} ComparePartsTransitive(a: seq<nat>, b: seq<nat>, c: seq<nat>)
    requires CompareParts(a, b) <= 0 && CompareParts(b, c) <= 0
    ensures CompareParts(a, c) <= 0
  {
    if a != [] && b != [] && c != [] && a[0] == b[0] == c[0] {
      ComparePartsTransitive(a[1..], b[1..], c[1..]);
    }
  }

  lemma PartsOrdered()
    ensures TotalOrder(PartsLeq)
  {
    forall a, b ensures PartsLeq(a, b) || PartsLeq(b, a)
                ensures PartsLeq(a, b) && PartsLeq(b, a) ==> a == b {
      ComparePartsOrder(a, b);
    }
    forall a, b, c | PartsLeq(a, b) && PartsLeq(b, c) ensures PartsLeq(a, c) {
      ComparePartsTransitive(a, b, c);
    }
  }

  /** `Compare` is a total preorder on versions whose classes are the equal four numbers:
      the build suffix never matters. */
  lemma CompareIsTotalPreorder(u: Version, v: Version, w: Version)
    ensures u.Compare(v) == -v.Compare(u)
    ensures u.Compare(v) == 0 <==> u.parts == v.parts
    ensures u.Compare(v) <= 0 && v.Compare(w) <= 0 ==> u.Compare(w) <= 0
    ensures u.Compare(v) < 0 && v.Compare(w) <= 0 ==> u.Compare(w) < 0
    ensures u.Compare(v) <= 0 && v.Compare(w) < 0 ==> u.Compare(w) < 0
  {
    ComparePartsOrder(u.parts, v.parts);
    ComparePartsOrder(v.parts, w.parts);
    ComparePartsOrder(u.parts, w.parts);
    if u.Compare(v) <= 0 && v.Compare(w) <= 0 {
      ComparePartsTransitive(u.parts, v.parts, w.parts);
      if u.parts == w.parts {
        ComparePartsTransitive(v.parts, w.parts, v.parts);
      }
    }
  }
}
