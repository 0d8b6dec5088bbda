/**
 Compatibility profiles: loading a catalog of half-open version ranges, matching a version
 and resolving the capabilities of a cluster whose nodes may run different versions.
 */
module Catalog {
  import opened Common
  import opened Version

  // ---------- the order of support ----------

  datatype Support = Native | Derived | Conditional | Unavailable

  /** `a` promises no more than `b`. */
  predicate Below(a: Support, b: Support) {
    a == b || a.Unavailable? || (a.Conditional? && !b.Unavailable?)
  }

  function IntersectSupport(left: Support, right: Support): (m: Support)
    ensures Below(m, left) && Below(m, right)
    ensures forall x :: Below(x, left) && Below(x, right) ==> Below(x, m)
  {
    if left == right then left
    else if left == Unavailable || right == Unavailable then Unavailable
    else Conditional
  }

  type Capabilities = map<string, Support>

  /** A capability that is not listed is not available. */
  function Lookup(c: Capabilities, name: string): Support {
    if name in c then c[name] else Unavailable
  }

  // ---------- profiles ----------

  datatype Profile = Profile(id: string, min: Version, max: Version, capabilities: Capabilities) {
    predicate Supports(v: Version) {
      v.Compare(min) >= 0 && v.Compare(max) < 0
    }

    ghost predicate WellFormed() {
      min.Valid() && max.Valid() && min.Compare(max) < 0
    }
  }

  /** The first part in which `u` and `v` differ is smaller in `u`. */
  ghost predicate Precedes(u: Version, v: Version) {
    exists i: nat :: i < 4 && |u.parts| == |v.parts| == 4 && u.parts[..i] == v.parts[..i] && u.parts[i] < v.parts[i]
  }

  /** A profile supports what lies between its bounds, the first of them included. */
  lemma SupportsMeans(p: Profile, v: Version)
    requires p.WellFormed() && v.Valid()
    ensures p.Supports(v) <==> (v.parts == p.min.parts || Precedes(p.min, v)) && Precedes(v, p.max)
  {
    FirstDifferenceDecides(v, p.min);
    FirstDifferenceDecides(v, p.max);
    ComparePartsOrder(v.parts, p.min.parts);
  }

  /** The range part of profile validation. */
  function ValidateRange(minInclusive: string, maxExclusive: string): Result<(Version, Version)> {
    if Parsed(minInclusive).Err? || Parsed(maxExclusive).Err? then Err("version range bound")
    else
      var lo, hi := Parsed(minInclusive).value, Parsed(maxExclusive).value;
      if lo.suffix != "" || hi.suffix != "" then Err("profile range boundaries must not contain build suffixes")
      else if lo.Compare(hi) >= 0 then Err("version range must be non-empty")
      else Ok((lo, hi))
  }

  /** Some version lies between the two. */
  ghost predicate Inhabited(lo: Version, hi: Version) {
    exists v: Version :: v.Valid() && v.Compare(lo) >= 0 && v.Compare(hi) < 0
  }

  /** Validation accepts exactly two suffix-free versions between which some version lies. */
  lemma ValidRangesAreInhabited(minInclusive: string, maxExclusive: string)
    ensures ValidateRange(minInclusive, maxExclusive).Ok? <==>
              && Parsed(minInclusive).Ok? && Parsed(maxExclusive).Ok?
              && Parsed(minInclusive).value.suffix == "" && Parsed(maxExclusive).value.suffix == ""
              && Inhabited(Parsed(minInclusive).value, Parsed(maxExclusive).value)
  {
    if Parsed(minInclusive).Ok? && Parsed(maxExclusive).Ok? {
      RangeNonEmpty(Parsed(minInclusive).value, Parsed(maxExclusive).value);
    }
  }

  lemma ValidRangesAreWellFormed(minInclusive: string, maxExclusive: string, id: string, c: Capabilities)
    requires ValidateRange(minInclusive, maxExclusive).Ok?
    ensures var (lo, hi) := ValidateRange(minInclusive, maxExclusive).value;
            Profile(id, lo, hi, c).WellFormed()
  {
  }

  lemma RangeNonEmpty(lo: Version, hi: Version)
    requires lo.Valid() && hi.Valid()
    ensures Inhabited(lo, hi) <==> lo.Compare(hi) < 0
  {
    CompareIsTotalPreorder(lo, lo, hi);
    if Inhabited(lo, hi) {
      var v: Version :| v.Valid() && v.Compare(lo) >= 0 && v.Compare(hi) < 0;
      CompareIsTotalPreorder(v, lo, hi);
      CompareIsTotalPreorder(lo, v, hi);
    }
  }

  /** No version is in both ranges. */
  ghost predicate Disjoint(p: Profile, q: Profile) {
    forall v: Version :: v.Valid() ==> !(p.Supports(v) && q.Supports(v))
  }

  ghost predicate DistinctIds(profiles: seq<Profile>) {
    forall i, j :: 0 <= i < j < |profiles| ==> profiles[i].id != profiles[j].id
  }

  ghost predicate PairwiseDisjoint(profiles: seq<Profile>) {
    forall i, j :: 0 <= i < j < |profiles| ==> Disjoint(profiles[i], profiles[j])
  }

  function MinParts(p: Profile): seq<nat> {
    p.min.parts
  }

  /** Neighbours in ascending order do not overlap: all that loading checks. */
  ghost predicate Adjacent(profiles: seq<Profile>) {
    && (forall p :: p in profiles ==> p.WellFormed())
    && (forall i :: 1 <= i < |profiles| ==> profiles[i].min.Compare(profiles[i - 1].max) >= 0)
  }

  /** The adjacent-only check separates every pair. */
  lemma {:induction false} AdjacentSeparates(profiles: seq<Profile>, i: nat, j: nat)
    requires Adjacent(profiles) && i < j < |profiles|
    ensures profiles[i].max.Compare(profiles[j].min) <= 0
    ensures profiles[i].min.Compare(profiles[j].min) < 0
    ensures Disjoint(profiles[i], profiles[j]) && Disjoint(profiles[j], profiles[i])
    decreases j - i
  {
    var p, q, before := profiles[i], profiles[j], profiles[j - 1];
    assert p in profiles && before in profiles;
    CompareIsTotalPreorder(q.min, before.max, before.max);
    if i < j - 1 {
      AdjacentSeparates(profiles, i, j - 1);
      CompareIsTotalPreorder(p.max, before.min, before.max);
      CompareIsTotalPreorder(p.max, before.max, q.min);
    }
    CompareIsTotalPreorder(p.min, p.max, q.min);
    forall v: Version | v.Valid() && p.Supports(v) ensures !q.Supports(v) {
      CompareIsTotalPreorder(v, p.max, q.min);
    }
  }

  lemma AdjacentIsDisjoint(profiles: seq<Profile>)
    requires Adjacent(profiles)
    ensures PairwiseDisjoint(profiles)
  {
    forall i, j | 0 <= i < j < |profiles| ensures Disjoint(profiles[i], profiles[j]) {
      AdjacentSeparates(profiles, i, j);
    }
  }

  /** A failing neighbour check exhibits a version that both profiles claim. */
  lemma OverlapWitness(p: Profile, q: Profile)
    requires p.WellFormed() && q.WellFormed()
    requires p.min.Compare(q.min) <= 0 && q.min.Compare(p.max) < 0
    ensures !Disjoint(p, q)
  {
    CompareIsTotalPreorder(p.min, q.min, q.min);
    CompareIsTotalPreorder(q.min, q.min, q.min);
    assert p.Supports(q.min) && q.Supports(q.min);
  }

  /** Disjointness of every pair of distinct profiles does not depend on their order. */
  lemma DisjointPermuted(s: seq<Profile>, t: seq<Profile>)
    requires multiset(s) == multiset(t) && DistinctIds(s) && PairwiseDisjoint(s)
    ensures PairwiseDisjoint(t)
  {
    assert DistinctKeys(s, IdOf);
    PermutedKeysDistinct(s, t, IdOf);
    forall i, j | 0 <= i < j < |t| ensures Disjoint(t[i], t[j]) {
      InSequence(t[i], s, t);
      InSequence(t[j], s, t);
      var a :| 0 <= a < |s| && s[a] == t[i];
      var b :| 0 <= b < |s| && s[b] == t[j];
      assert IdOf(t[i]) != IdOf(t[j]);
    }
  }

  method CheckIds(profiles: seq<Profile>) returns (ok: bool)
    ensures ok <==> DistinctIds(profiles)
  {
    var ids: set<string> := {};
    for k := 0 to |profiles|
      invariant ids == set i | 0 <= i < k :: profiles[i].id
      invariant forall i, j :: 0 <= i < j < k ==> profiles[i].id != profiles[j].id
    {
      if profiles[k].id in ids {
        return false;
      }
      ids := ids + {profiles[k].id};
    }
    ok := true;
  }

  method CheckNeighbours(sorted: seq<Profile>) returns (ok: bool)
    ensures ok <==> forall i :: 1 <= i < |sorted| ==> sorted[i].min.Compare(sorted[i - 1].max) >= 0
  {
    var k := 1;
    while k < |sorted|
      invariant 1 <= k && forall i :: 1 <= i < k && i < |sorted| ==> sorted[i].min.Compare(sorted[i - 1].max) >= 0
    {
      if sorted[k].min.Compare(sorted[k - 1].max) < 0 {
        return false;
      }
      k := k + 1;
    }
    ok := true;
  }

  /** Sorting keeps what the checks are about. */
  lemma SortedCatalog(profiles: seq<Profile>, sorted: seq<Profile>)
    requires sorted == Sort(profiles, MinParts, PartsLeq)
    requires DistinctIds(profiles) && forall p :: p in profiles ==> p.WellFormed()
    ensures DistinctIds(sorted) && forall p :: p in sorted ==> p.WellFormed()
    ensures forall i :: 1 <= i < |sorted| ==> sorted[i - 1].min.Compare(sorted[i].min) <= 0
  {
    PartsOrdered();
    SortSorted(profiles, MinParts, PartsLeq);
    forall p | p in sorted ensures p.WellFormed() {
      InSequence(p, profiles, sorted);
    }
    PermutedKeysDistinct(profiles, sorted, IdOf);
    assert forall p :: IdOf(p) == p.id;
    forall i | 1 <= i < |sorted| ensures sorted[i - 1].min.Compare(sorted[i].min) <= 0 {
      assert PartsLeq(MinParts(sorted[i - 1]), MinParts(sorted[i]));
    }
  }

  function IdOf(p: Profile): string {
    p.id
  }

  /** `LoadDir` after decoding: accepts exactly the catalogs with distinct ids in which no
      two ranges share a version, and keeps every profile. */
  method LoadCatalog(profiles: seq<Profile>) returns (r: Result<seq<Profile>>)
    requires forall p :: p in profiles ==> p.WellFormed()
    ensures r.Ok? <==> DistinctIds(profiles) && PairwiseDisjoint(profiles)
    ensures r.Ok? ==> multiset(r.value) == multiset(profiles) && Loaded(r.value)
  {
    var distinct := CheckIds(profiles);
    if !distinct {
      return Err("duplicate profile_id");
    }
    var sorted := Sort(profiles, MinParts, PartsLeq);
    SortedCatalog(profiles, sorted);
    var separate := CheckNeighbours(sorted);
    NeighboursDecide(sorted);
    if !separate {
      if PairwiseDisjoint(profiles) { DisjointPermuted(profiles, sorted); }
      return Err("profile ranges overlap");
    }
    DisjointPermuted(sorted, profiles);
    r := Ok(sorted);
  }

  /** A profile file after decoding. */
  datatype RawProfile = RawProfile(id: string, minInclusive: string, maxExclusive: string, capabilities: Capabilities)

  predicate RangeValid(raw: RawProfile) {
    ValidateRange(raw.minInclusive, raw.maxExclusive).Ok?
  }

  function ProfileOf(raw: RawProfile): Profile
    requires RangeValid(raw)
  {
    var (lo, hi) := ValidateRange(raw.minInclusive, raw.maxExclusive).value;
    Profile(raw.id, lo, hi, raw.capabilities)
  }

  function ProfilesOf(raws: seq<RawProfile>): (r: seq<Profile>)
    requires forall i :: 0 <= i < |raws| ==> RangeValid(raws[i])
    ensures |r| == |raws| && forall i :: 0 <= i < |r| ==> r[i] == ProfileOf(raws[i])
  {
    seq(|raws|, i requires 0 <= i < |raws| => ProfileOf(raws[i]))
  }

  ghost predicate RangesValid(raws: seq<RawProfile>) {
    forall i :: 0 <= i < |raws| ==> RangeValid(raws[i])
  }

  lemma ProfilesAreWellFormed(raws: seq<RawProfile>)
    requires RangesValid(raws)
    ensures forall p :: p in ProfilesOf(raws) ==> p.WellFormed()
  {
    forall p | p in ProfilesOf(raws) ensures p.WellFormed() {
      var i :| 0 <= i < |raws| && ProfilesOf(raws)[i] == p;
      ValidRangesAreWellFormed(raws[i].minInclusive, raws[i].maxExclusive, raws[i].id, raws[i].capabilities);
    }
  }

  /** The range part of reading each file. */
  method CheckRanges(raws: seq<RawProfile>, valid: RawProfile -> bool) returns (ok: bool)
    ensures ok <==> forall i :: 0 <= i < |raws| ==> valid(raws[i])
  {
    for k := 0 to |raws|
      invariant forall i :: 0 <= i < k ==> valid(raws[i])
    {
      if !valid(raws[k]) {
        return false;
      }
    }
    ok := true;
  }

  /** `LoadDir` from the decoded files: it accepts exactly when every range is valid, ids are distinct
      and no two ranges share a version; then all profiles are in the catalog. */
  method LoadProfiles(raws: seq<RawProfile>) returns (r: Result<seq<Profile>>)
    ensures r.Ok? <==> RangesValid(raws) && DistinctIds(ProfilesOf(raws)) && PairwiseDisjoint(ProfilesOf(raws))
    ensures r.Ok? ==> multiset(r.value) == multiset(ProfilesOf(raws)) && Loaded(r.value)
  {
    var ok := CheckRanges(raws, RangeValid);
    if !ok {
      return Err("profile range is invalid");
    }
    ProfilesAreWellFormed(raws);
    r := LoadCatalog(ProfilesOf(raws));
  }

  /** In ascending order the neighbour check decides pairwise disjointness. */
  lemma NeighboursDecide(sorted: seq<Profile>)
    requires forall p :: p in sorted ==> p.WellFormed()
    requires forall i :: 1 <= i < |sorted| ==> sorted[i - 1].min.Compare(sorted[i].min) <= 0
    ensures PairwiseDisjoint(sorted)
       <==> forall i :: 1 <= i < |sorted| ==> sorted[i].min.Compare(sorted[i - 1].max) >= 0
  {
    if forall i :: 1 <= i < |sorted| ==> sorted[i].min.Compare(sorted[i - 1].max) >= 0 {
      AdjacentIsDisjoint(sorted);
    }
    forall i | 1 <= i < |sorted| && PairwiseDisjoint(sorted) ensures sorted[i].min.Compare(sorted[i - 1].max) >= 0 {
      if sorted[i].min.Compare(sorted[i - 1].max) < 0 { OverlapWitness(sorted[i - 1], sorted[i]); }
    }
  }

  /** What a loaded catalog keeps for the rest of its life. */
  ghost predicate Loaded(catalog: seq<Profile>) {
    Adjacent(catalog) && DistinctIds(catalog)
  }

  // ---------- matching ----------

  /** The first profile of the catalog that supports the version. */
  function MatchIn(catalog: seq<Profile>, v: Version): (r: Option<Profile>)
    ensures r.Some? ==> r.value in catalog && r.value.Supports(v)
    ensures r.None? ==> forall p :: p in catalog ==> !p.Supports(v)
  {
    if catalog == [] then None
    else if catalog[0].Supports(v) then Some(catalog[0])
    else MatchIn(catalog[1..], v)
  }

  method Match(catalog: seq<Profile>, v: Version) returns (r: Option<Profile>)
    ensures r == MatchIn(catalog, v)
  {
    for k := 0 to |catalog|
      invariant MatchIn(catalog, v) == MatchIn(catalog[k..], v)
    {
      if catalog[k].Supports(v) {
        return Some(catalog[k]);
      }
    }
    r := None;
  }

  /** In a loaded catalog the match is the only profile that claims the version. */
  lemma MatchIsUnique(catalog: seq<Profile>, v: Version, p: Profile)
    requires Loaded(catalog) && v.Valid() && p in catalog
    ensures p.Supports(v) <==> MatchIn(catalog, v) == Some(p)
  {
    if p.Supports(v) {
      var q := MatchIn(catalog, v).value;
      var i :| 0 <= i < |catalog| && catalog[i] == p;
      var j :| 0 <= j < |catalog| && catalog[j] == q;
      if i < j { AdjacentSeparates(catalog, i, j); }
      if j < i { AdjacentSeparates(catalog, j, i); }
    }
  }

  // ---------- resolution ----------

  const INTERVAL_RATES := "flux_interval_rates"

  datatype Resolution = Resolution(ids: seq<string>, mixed: bool, capabilities: Capabilities)

  /** Every node version parses and some profile supports it. */
  ghost predicate Resolvable(catalog: seq<Profile>, versions: seq<string>) {
    versions != [] && forall raw :: raw in versions ==> Supported(catalog, raw)
  }

  /** Then some profile is selected. */
  lemma ResolvableSelects(catalog: seq<Profile>, versions: seq<string>)
    requires Resolvable(catalog, versions)
    ensures Selected(catalog, Elements(versions)) != []
  {
    var raw := versions[0];
    assert raw in versions && Supported(catalog, raw);
    var p := MatchIn(catalog, Parsed(raw).value).value;
    assert raw in Elements(versions) && Claims(p, Elements(versions));
    assert p in Selected(catalog, Elements(versions));
  }

  lemma SupportedSelects(catalog: seq<Profile>, raw: string)
    requires Supported(catalog, raw)
    ensures Selected(catalog, {raw}) != []
  {
    var p := MatchIn(catalog, Parsed(raw).value).value;
    assert Claims(p, {raw});
    assert p in Selected(catalog, {raw});
  }

  predicate Supported(catalog: seq<Profile>, raw: string) {
    Parsed(raw).Ok? && MatchIn(catalog, Parsed(raw).value).Some?
  }

  predicate Claims(p: Profile, versions: set<string>) {
    exists raw :: raw in versions && Parsed(raw).Ok? && p.Supports(Parsed(raw).value)
  }

  /** The profiles of the node versions, in catalog order. */
  function Selected(catalog: seq<Profile>, versions: set<string>): (r: seq<Profile>)
    ensures forall p :: p in r <==> p in catalog && Claims(p, versions)
    ensures |r| <= |catalog|
  {
    if catalog == [] then []
    else
      var rest := Selected(catalog[1..], versions);
      assert forall p :: p in catalog <==> p == catalog[0] || p in catalog[1..];
      if Claims(catalog[0], versions) then [catalog[0]] + rest else rest
  }

  function Intersect(c: Capabilities, other: Capabilities): Capabilities {
    map name | name in c :: IntersectSupport(c[name], Lookup(other, name))
  }

  function IntersectAll(profiles: seq<Profile>): Capabilities
    requires profiles != []
  {
    if |profiles| == 1 then profiles[0].capabilities
    else Intersect(IntersectAll(profiles[..|profiles| - 1]), profiles[|profiles| - 1].capabilities)
  }

  function IdsOf(profiles: seq<Profile>): (r: seq<string>)
    ensures |r| == |profiles| && forall i :: 0 <= i < |r| ==> r[i] == profiles[i].id
  {
    seq(|profiles|, i requires 0 <= i < |profiles| => profiles[i].id)
  }

  /** The resolution of a set of node versions. */
  function Resolved(catalog: seq<Profile>, versions: set<string>): Resolution
    requires Selected(catalog, versions) != []
  {
    Combined(Selected(catalog, versions))
  }

  function Combined(selected: seq<Profile>): Resolution
    requires selected != []
  {
    var shared := IntersectAll(selected);
    Resolution(IdsOf(selected), |selected| > 1,
               if |selected| > 1 then shared[INTERVAL_RATES := Unavailable] else shared)
  }

  function Elements(s: seq<string>): set<string> {
    set x | x in s
  }

  lemma {:induction false} SelectedAscends(catalog: seq<Profile>, versions: set<string>)
    requires Adjacent(catalog)
    ensures var s := Selected(catalog, versions);
            SortedBy(s, MinParts, PartsLeq) && DistinctKeys(s, MinParts)
  {
    if catalog != [] {
      RestIsAdjacent(catalog);
      SelectedAscends(catalog[1..], versions);
      FirstPrecedes(catalog, Selected(catalog[1..], versions));
      FirstAscends(catalog[0], Selected(catalog[1..], versions));
    }
  }

  lemma FirstAscends(first: Profile, later: seq<Profile>)
    requires SortedBy(later, MinParts, PartsLeq) && DistinctKeys(later, MinParts)
    requires forall i :: 0 <= i < |later| ==>
               PartsLeq(MinParts(first), MinParts(later[i])) && MinParts(first) != MinParts(later[i])
    ensures SortedBy([first] + later, MinParts, PartsLeq) && DistinctKeys([first] + later, MinParts)
  {
  }

  lemma RestIsAdjacent(catalog: seq<Profile>)
    requires Adjacent(catalog) && catalog != []
    ensures Adjacent(catalog[1..])
  {
    var rest := catalog[1..];
    assert forall i :: 1 <= i < |rest| ==> rest[i] == catalog[i + 1] && rest[i - 1] == catalog[i];
  }

  lemma FirstPrecedes(catalog: seq<Profile>, later: seq<Profile>)
    requires Adjacent(catalog) && catalog != [] && forall p :: p in later ==> p in catalog[1..]
    ensures forall i :: 0 <= i < |later| ==>
              PartsLeq(MinParts(catalog[0]), MinParts(later[i])) && MinParts(catalog[0]) != MinParts(later[i])
  {
    forall i | 0 <= i < |later|
      ensures PartsLeq(MinParts(catalog[0]), MinParts(later[i])) && MinParts(catalog[0]) != MinParts(later[i]) {
      assert later[i] in catalog[1..];
      var j :| 0 <= j < |catalog| - 1 && catalog[1..][j] == later[i];
      AdjacentSeparates(catalog, 0, j + 1);
      ComparePartsOrder(catalog[0].min.parts, later[i].min.parts);
    }
  }

  /** The profile a raw node version is matched to, if it parses and is supported. */
  ghost function PickOf(catalog: seq<Profile>, raw: string): Option<Profile> {
    if Parsed(raw).Ok? then MatchIn(catalog, Parsed(raw).value) else None
  }

  /** One round of the selection loop; `pick` abbreviates `PickOf`. */
  method Pick(catalog: seq<Profile>, raw: string, ghost pick: string -> Option<Profile>) returns (r: Result<Profile>)
    requires forall raw {:trigger PickOf(catalog, raw)} :: pick(raw) == PickOf(catalog, raw)
    ensures r.Ok? <==> pick(raw).Some?
    ensures r.Ok? ==> pick(raw).value == r.value && r.value in catalog
  {
    assert pick(raw) == PickOf(catalog, raw);
    var version := ParseVersion(raw);
    if version.Err? {
      return Err("node version does not parse");
    }
    var matched := Match(catalog, version.value);
    r := if matched.None? then Err("unsupported ECS version") else Ok(matched.value);
  }

  /** `selected` holds each picked profile once; `seen` holds their ids. */
  ghost predicate Selection(catalog: seq<Profile>, selected: seq<Profile>, seen: set<string>, picked: seq<Profile>) {
    && Distinct(selected)
    && (forall p :: p in selected <==> p in picked)
    && (forall p :: p in selected ==> p in catalog)
    && seen == set p | p in selected :: p.id
  }

  method KeepOnce(catalog: seq<Profile>, selected: seq<Profile>, seen: set<string>, p: Profile,
                  ghost picked: seq<Profile>)
    returns (selected': seq<Profile>, seen': set<string>)
    requires Selection(catalog, selected, seen, picked) && DistinctIds(catalog) && p in catalog
    ensures Selection(catalog, selected', seen', picked + [p])
  {
    if p.id in seen {
      ghost var q :| q in selected && q.id == p.id;
      IdNames(catalog, p, q);
      return selected, seen;
    }
    selected', seen' := selected + [p], seen + {p.id};
  }

  /** The first loop of `Resolve`: parse, match, and keep one copy of each profile. */
  method SelectProfiles(catalog: seq<Profile>, versions: seq<string>, ghost pick: string -> Option<Profile>)
    returns (r: Result<seq<Profile>>, ghost picked: seq<Profile>)
    requires DistinctIds(catalog)
    requires forall raw {:trigger PickOf(catalog, raw)} :: pick(raw) == PickOf(catalog, raw)
    ensures r.Ok? <==> forall i :: 0 <= i < |versions| ==> pick(versions[i]).Some?
    ensures r.Ok? ==> |picked| == |versions| && forall i :: 0 <= i < |versions| ==> pick(versions[i]).value == picked[i]
    ensures r.Ok? ==> Distinct(r.value) && forall p :: p in r.value <==> p in picked
  {
    var selected: seq<Profile> := [];
    var seen: set<string> := {};
    picked := [];
    for k := 0 to |versions|
      invariant |picked| == k && Selection(catalog, selected, seen, picked)
      invariant forall i :: 0 <= i < k ==> pick(versions[i]).Some? && pick(versions[i]).value == picked[i]
    {
      var matched := Pick(catalog, versions[k], pick);
      if matched.Err? {
        return Err(matched.error), picked;
      }
      selected, seen := KeepOnce(catalog, selected, seen, matched.value, picked);
      picked := picked + [matched.value];
    }
    r := Ok(selected);
  }

  /** `Resolve`: fails iff a version is malformed or unsupported (or there is none); otherwise
      the answer is the resolution of the set of versions. */
  method Resolve(catalog: seq<Profile>, versions: seq<string>) returns (r: Result<Resolution>)
    requires Loaded(catalog)
    ensures r.Ok? <==> Resolvable(catalog, versions)
    ensures r.Ok? ==> Selected(catalog, Elements(versions)) != [] && r.value == Resolved(catalog, Elements(versions))
  {
    if versions == [] {
      return Err("node version list is empty");
    }
    ghost var pick := (raw: string) => PickOf(catalog, raw);
    var selection, picked := SelectProfiles(catalog, versions, pick);
    forall i | 0 <= i < |versions| ensures Supported(catalog, versions[i]) <==> pick(versions[i]).Some? {}
    if selection.Err? {
      return Err(selection.error);
    }
    SelectionIsComplete(catalog, versions, picked);
    var sorted := Sort(selection.value, MinParts, PartsLeq);
    SortGivesSelected(catalog, Elements(versions), selection.value);
    assert picked[0] in selection.value;
    var combined := CombineProfiles(sorted);
    r := Ok(combined);
  }

  /** The second half of `Resolve`: intersect the selected profiles one after another. */
  method CombineProfiles(sorted: seq<Profile>) returns (r: Resolution)
    requires sorted != []
    ensures r == Combined(sorted)
  {
    var capabilities := sorted[0].capabilities;
    assert sorted[..1] == [sorted[0]];
    for k := 1 to |sorted|
      invariant capabilities == IntersectAll(sorted[..k])
    {
      assert sorted[..k + 1][..k] == sorted[..k];
      capabilities := IntersectInPlace(capabilities, sorted[k].capabilities);
    }
    assert sorted[..|sorted|] == sorted;
    if |sorted| > 1 {
      capabilities := capabilities[INTERVAL_RATES := Unavailable];
    }
    r := Resolution(IdsOf(sorted), |sorted| > 1, capabilities);
  }

  /** The loop over the entries of the map, in whatever order they come. */
  method IntersectInPlace(c: Capabilities, other: Capabilities) returns (r: Capabilities)
    ensures r == Intersect(c, other)
  {
    r := c;
    var todo := c.Keys;
    while todo != {}
      invariant todo <= c.Keys == r.Keys
      invariant forall name :: name in c ==>
                  r[name] == if name in todo then c[name] else IntersectSupport(c[name], Lookup(other, name))
      decreases todo
    {
      var name :| name in todo;
      todo := todo - {name};
      r := r[name := if name !in other then Unavailable else IntersectSupport(r[name], other[name])];
    }
  }

  lemma IdNames(catalog: seq<Profile>, p: Profile, q: Profile)
    requires DistinctIds(catalog) && p in catalog && q in catalog && p.id == q.id
    ensures p == q
  {
    var i :| 0 <= i < |catalog| && catalog[i] == p;
    var j :| 0 <= j < |catalog| && catalog[j] == q;
  }

  /** What the loop picked is what the set of versions selects. */
  lemma SelectionIsComplete(catalog: seq<Profile>, versions: seq<string>, picked: seq<Profile>)
    requires Loaded(catalog) && |picked| == |versions|
    requires forall i :: 0 <= i < |versions| ==> PickOf(catalog, versions[i]) == Some(picked[i])
    ensures forall p :: p in picked <==> p in Selected(catalog, Elements(versions))
  {
    forall p | p in catalog && Claims(p, Elements(versions)) ensures p in picked {
      var raw :| raw in Elements(versions) && Parsed(raw).Ok? && p.Supports(Parsed(raw).value);
      var i :| 0 <= i < |versions| && versions[i] == raw;
      assert PickOf(catalog, versions[i]) == Some(picked[i]);
      MatchIsUnique(catalog, Parsed(raw).value, p);
    }
    forall i | 0 <= i < |picked| ensures picked[i] in catalog && Claims(picked[i], Elements(versions)) {
      assert PickOf(catalog, versions[i]) == Some(picked[i]);
      assert versions[i] in Elements(versions);
    }
  }

  lemma SortGivesSelected(catalog: seq<Profile>, versions: set<string>, selected: seq<Profile>)
    requires Loaded(catalog) && Distinct(selected)
    requires forall p :: p in selected <==> p in Selected(catalog, versions)
    ensures Sort(selected, MinParts, PartsLeq) == Selected(catalog, versions)
  {
    var want := Selected(catalog, versions);
    SelectedAscends(catalog, versions);
    assert Distinct(want) by {
      forall i, j | 0 <= i < j < |want| ensures want[i] != want[j] {
        assert MinParts(want[i]) != MinParts(want[j]);
      }
    }
    SameElements(selected, want);
    PartsOrdered();
    SortSorted(selected, MinParts, PartsLeq);
    SortedIsUnique(want, Sort(selected, MinParts, PartsLeq), MinParts, PartsLeq);
  }

  // ---------- what a resolution promises ----------

  /** `m` is the greatest support that every one of the profiles grants for the name. */
  ghost predicate IsMeet(m: Support, profiles: seq<Profile>, name: string) {
    && (forall p :: p in profiles ==> Below(m, Lookup(p.capabilities, name)))
    && (forall x :: (forall p :: p in profiles ==> Below(x, Lookup(p.capabilities, name))) ==> Below(x, m))
  }

  lemma {:induction false} IntersectAllIsMeet(profiles: seq<Profile>, name: string)
    requires profiles != []
    ensures IsMeet(Lookup(IntersectAll(profiles), name), profiles, name)
  {
    if |profiles| == 1 {
      assert profiles[0] in profiles;
    } else {
      var fewer, last := profiles[..|profiles| - 1], profiles[|profiles| - 1];
      IntersectAllIsMeet(fewer, name);
      assert profiles == fewer + [last];
      assert last in profiles;
      var m := Lookup(IntersectAll(fewer), name);
      assert Lookup(IntersectAll(profiles), name) == IntersectSupport(m, Lookup(last.capabilities, name));
      assert forall p :: p in profiles <==> p in fewer || p == last;
      forall x | forall p :: p in profiles ==> Below(x, Lookup(p.capabilities, name))
        ensures Below(x, Lookup(IntersectAll(profiles), name)) {
        assert Below(x, Lookup(last.capabilities, name));
        assert forall p :: p in fewer ==> Below(x, Lookup(p.capabilities, name));
      }
    }
  }

  /** For every capability the resolution is the greatest lower bound over the profiles of the
      node versions, except that a mixed cluster has no interval rates. */
  lemma ResolutionIsMeet(catalog: seq<Profile>, versions: set<string>, name: string)
    requires Loaded(catalog) && Selected(catalog, versions) != []
    ensures var r := Resolved(catalog, versions);
            if r.mixed && name == INTERVAL_RATES then Lookup(r.capabilities, name) == Unavailable
            else IsMeet(Lookup(r.capabilities, name), Selected(catalog, versions), name)
    ensures Resolved(catalog, versions).mixed <==> |Selected(catalog, versions)| > 1
  {
    IntersectAllIsMeet(Selected(catalog, versions), name);
  }

  lemma MoreVersionsSelectMore(catalog: seq<Profile>, few: set<string>, many: set<string>, p: Profile)
    requires few <= many && p in Selected(catalog, few)
    ensures p in Selected(catalog, many)
  {
    assert Claims(p, few);
  }

  lemma TwoInside(s: seq<Profile>, t: seq<Profile>)
    requires DistinctKeys(s, MinParts) && forall p :: p in s ==> p in t
    ensures |s| >= 2 ==> |t| >= 2
    ensures |s| >= 1 ==> |t| >= 1
  {
    if |s| >= 1 {
      assert s[0] in t;
      if |s| >= 2 {
        assert s[1] in t && MinParts(s[0]) != MinParts(s[1]);
      }
    }
  }

  /** Adding node versions never raises a capability. */
  lemma MoreVersionsNeverRaise(catalog: seq<Profile>, few: set<string>, many: set<string>, name: string)
    requires Loaded(catalog) && few <= many && Selected(catalog, few) != []
    ensures Selected(catalog, many) != []
    ensures Below(Lookup(Resolved(catalog, many).capabilities, name), Lookup(Resolved(catalog, few).capabilities, name))
    ensures Resolved(catalog, few).mixed ==> Resolved(catalog, many).mixed
  {
    forall p | p in Selected(catalog, few) ensures p in Selected(catalog, many) {
      MoreVersionsSelectMore(catalog, few, many, p);
    }
    SelectedAscends(catalog, few);
    TwoInside(Selected(catalog, few), Selected(catalog, many));
    ResolutionIsMeet(catalog, few, name);
    ResolutionIsMeet(catalog, many, name);
  }

  /** `capabilityEnabledFor`. */
  predicate Enabled(r: Resolution, conditional: set<string>, name: string) {
    match Lookup(r.capabilities, name)
    case Native => true
    case Derived => true
    case Conditional => name in conditional
    case Unavailable => false
  }

  ghost predicate AllGrant(profiles: seq<Profile>, name: string, s: Support) {
    forall p :: p in profiles ==> Lookup(p.capabilities, name) == s
  }

  ghost predicate NoneDenies(profiles: seq<Profile>, name: string) {
    forall p :: p in profiles ==> Lookup(p.capabilities, name) != Unavailable
  }

  ghost predicate GrantedBy(profiles: seq<Profile>, conditional: set<string>, name: string) {
    || AllGrant(profiles, name, Native) || AllGrant(profiles, name, Derived)
    || (name in conditional && NoneDenies(profiles, name))
  }

  lemma MeetTable(m: Support, profiles: seq<Profile>, name: string)
    requires profiles != [] && IsMeet(m, profiles, name)
    ensures m == Unavailable <==> !NoneDenies(profiles, name)
    ensures m == Native <==> AllGrant(profiles, name, Native)
    ensures m == Derived <==> AllGrant(profiles, name, Derived)
  {
    assert profiles[0] in profiles;
    if NoneDenies(profiles, name) { assert Below(Conditional, m); }
    if AllGrant(profiles, name, Native) { assert Below(Native, m); }
    if AllGrant(profiles, name, Derived) { assert Below(Derived, m); }
  }

  /** A capability is enabled when all profiles of the node versions grant it alike, natively or derived, or
      when it has been switched on and none of them denies it; interval rates only when there is one
      profile. */
  lemma EnabledMeans(catalog: seq<Profile>, versions: set<string>, conditional: set<string>, name: string)
    requires Loaded(catalog) && Selected(catalog, versions) != []
    ensures Enabled(Resolved(catalog, versions), conditional, name)
       <==> && (|Selected(catalog, versions)| == 1 || name != "flux_interval_rates")
            && GrantedBy(Selected(catalog, versions), conditional, name)
  {
    ResolutionIsMeet(catalog, versions, name);
    var profiles := Selected(catalog, versions);
    assert profiles[0] in profiles;
    if |profiles| == 1 || name != "flux_interval_rates" {
      MeetTable(Lookup(Resolved(catalog, versions).capabilities, name), profiles, name);
    }
  }

  /** What is enabled on a cluster is enabled on the same cluster with only some of its
      versions, in particular with any one of them alone. */
  lemma EnabledSurvivesUpgradeEnd(catalog: seq<Profile>, many: set<string>, few: set<string>,
                                  conditional: set<string>, name: string)
    requires Loaded(catalog) && few <= many && Selected(catalog, few) != []
    requires Selected(catalog, many) != [] && Enabled(Resolved(catalog, many), conditional, name)
    ensures Enabled(Resolved(catalog, few), conditional, name)
  {
    MoreVersionsNeverRaise(catalog, few, many, name);
  }

  /** The whole resolution, profile ids and their order included, is a function of which
      profiles the versions belong to: order, repetition and build suffixes do not matter. */
  lemma {:induction false} ResolutionIgnoresPresentation(catalog: seq<Profile>, some: set<string>, other: set<string>)
    requires forall p :: p in catalog ==> (Claims(p, some) <==> Claims(p, other))
    ensures Selected(catalog, some) == Selected(catalog, other)
    ensures Selected(catalog, some) != [] ==> Resolved(catalog, some) == Resolved(catalog, other)
  {
    if catalog != [] {
      assert catalog[0] in catalog;
      ResolutionIgnoresPresentation(catalog[1..], some, other);
    }
  }
}
