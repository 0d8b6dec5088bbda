/**
 How a collection that is about to begin can go on: the worlds it passes through, whatever else
 runs meanwhile, and steps that can always be taken.
 */
module Continuations {
  import opened Common
  import opened Listing
  import opened NodeReadings
  import opened NodeDomain
  import opened NodeMachine

  /** The worlds that a collection passes through when it begins in `w` with the step `first`. */
  ghost predicate Ongoing(r: Runner, w: World, first: Action, path: seq<World>) {
    && CanStep(r, w, first) && path != [] && path[0] == Apply(r, w, first)
    && (forall i :: 0 <= i < |path| ==> !path[i].turn.Free?)
    && forall i :: 0 <= i < |path| - 1 ==> StepTo(r, path[i], path[i + 1])
  }

  /** The step from one world of the path to the next. */
  lemma PathStep(r: Runner, w: World, first: Action, path: seq<World>, k: nat) returns (a: Action)
    requires Ongoing(r, w, first, path) && k + 1 < |path|
    ensures CanStep(r, path[k], a) && path[k + 1] == Apply(r, path[k], a) && !path[k + 1].turn.Free?
  {
    assert StepTo(r, path[k], path[k + 1]);
    a :| CanStep(r, path[k], a) && path[k + 1] == Apply(r, path[k], a);
  }

  lemma OngoingGrows(r: Runner, w: World, first: Action, path: seq<World>, a: Action)
    requires Ongoing(r, w, first, path) && CanStep(r, path[|path| - 1], a) && !Apply(r, path[|path| - 1], a).turn.Free?
    ensures Ongoing(r, w, first, path + [Apply(r, path[|path| - 1], a)])
  {
    var longer := path + [Apply(r, path[|path| - 1], a)];
    forall i | 0 <= i < |longer| - 1 ensures StepTo(r, longer[i], longer[i + 1]) {
      if i < |path| - 1 { assert StepTo(r, path[i], path[i + 1]); }
    }
  }

  lemma Onward(r: Runner, w: World, first: Action, path: seq<World>, a: Action) returns (longer: seq<World>)
    requires Ongoing(r, w, first, path) && CanStep(r, path[|path| - 1], a) && !Apply(r, path[|path| - 1], a).turn.Free?
    ensures Ongoing(r, w, first, longer) && longer[|longer| - 1] == Apply(r, path[|path| - 1], a)
  {
    OngoingGrows(r, w, first, path, a);
    longer := path + [Apply(r, path[|path| - 1], a)];
  }

  /** The nodes of an inventory have the ids of the response. */
  lemma InventoryIds(raws: seq<RawNode>, cluster: string, now: int)
    ensures IdSet(Inventoried(raws, cluster, now)) == Ids(raws)
  {
    var nodes := Inventoried(raws, cluster, now);
    forall id ensures id in IdSet(nodes) <==> id in Ids(raws) {
      if id in IdSet(nodes) {
        var i :| 0 <= i < |nodes| && nodes[i].id == id;
        assert raws[i] in raws;
      }
      if id in Ids(raws) {
        var i :| 0 <= i < |raws| && raws[i].id == id;
        assert nodes[i] in nodes;
      }
    }
  }

  /** What is carried over has the ids of the inventory. */
  lemma CarriedIds(r: Runner, job: Job, stored: seq<Node>)
    ensures IdSet(Carried(r, job, stored)) == IdSet(job.nodes)
  {
    SameIdSets(Carried(r, job, stored), job.nodes);
  }

  lemma SameIdSets(a: seq<Node>, b: seq<Node>)
    requires |a| == |b| && forall i :: 0 <= i < |a| ==> a[i].id == b[i].id
    ensures IdSet(a) == IdSet(b)
  {
    forall id ensures id in IdSet(a) <==> id in IdSet(b) {
      if id in IdSet(a) {
        var i :| 0 <= i < |a| && a[i].id == id;
        assert b[i] in b;
      }
      if id in IdSet(b) {
        var i :| 0 <= i < |b| && b[i].id == id;
        assert a[i] in a;
      }
    }
  }

  // ---------- what can be read ----------

  lemma {:induction false} SomeOrder(keys: set<string>) returns (order: seq<string>)
    ensures Distinct(order) && forall c :: c in order <==> c in keys
    decreases |keys|
  {
    order := [];
    if keys != {} {
      var c :| c in keys;
      order := SomeOrder(keys - {c});
      order := order + [c];
    }
  }

  /** There always is a snapshot to read. */
  lemma SnapshotExists(r: Runner, w: World) returns (snapshot: seq<Node>)
    requires StoreOk(r, w)
    ensures IsSnapshot(snapshot, w)
  {
    var lists := w.others[r.cluster := w.own.nodes];
    var order := SomeOrder(lists.Keys);
    TupleLeqIsOrder();
    ListsAreUnique(r, w, lists);
    SortedListing(lists, order, NodeKey, TupleLeq);
    snapshot := Sort(Flatten(lists, order), NodeKey, TupleLeq);
    forall n ensures n in snapshot <==> n in w.own.nodes || InOthers(n, w) {
      ListedIff(r, w, lists, n);
    }
  }

  lemma ListedIff(r: Runner, w: World, lists: map<string, seq<Node>>, n: Node)
    requires StoreOk(r, w) && lists == w.others[r.cluster := w.own.nodes]
    ensures (exists c :: c in lists && n in lists[c]) <==> n in w.own.nodes || InOthers(n, w)
  {
    if n in w.own.nodes { assert r.cluster in lists && n in lists[r.cluster]; }
    if InOthers(n, w) {
      var c :| c in w.others && n in w.others[c];
      assert c in lists && n in lists[c];
    }
  }

  lemma ListsAreUnique(r: Runner, w: World, lists: map<string, seq<Node>>)
    requires StoreOk(r, w) && lists == w.others[r.cluster := w.own.nodes]
    ensures UniqueKeys(lists, NodeKey)
  {
    forall c | c in lists ensures Proper(lists[c], c) {}
    forall c, d | c in lists && d in lists && c != d ensures KeysDiffer(lists[c], lists[d], NodeKey) {
      forall i, j | 0 <= i < |lists[c]| && 0 <= j < |lists[d]| ensures NodeKey(lists[c][i]) != NodeKey(lists[d][j]) {
        assert lists[c][i] in lists[c] && lists[d][j] in lists[d];
        assert NodeKey(lists[c][i])[0] != NodeKey(lists[d][j])[0];
      }
    }
  }

  lemma SnapshotHasOwn(r: Runner, w: World, snapshot: seq<Node>)
    requires StoreOk(r, w) && IsSnapshot(snapshot, w) && w.own.nodes != []
    ensures OwnNodes(snapshot, r.cluster) != []
  {
    SnapshotIsWellFormed(r, w, snapshot);
    assert w.own.nodes[0] in w.own.nodes;
    assert w.own.nodes[0] in OwnNodes(snapshot, r.cluster);
  }

  // ---------- queries that find nothing ----------

  function Empties(k: nat): (r: seq<Payload>)
    ensures |r| == k && forall i :: 0 <= i < k ==> r[i] == []
  {
    seq(k, i => [])
  }

  function Blanks(k: nat): (r: seq<Records>)
    ensures |r| == k && forall i :: 0 <= i < k ==> r[i] == map[]
  {
    seq(k, i => map[])
  }

  lemma {:induction false} BlanksMerge(k: nat)
    ensures SourcesMergeable(Blanks(k))
  {
    if k > 0 {
      BlanksMerge(k - 1);
      assert Blanks(k)[..k - 1] == Blanks(k - 1);
    }
  }

  /** Queries that find nothing are accepted. */
  lemma NothingGathered(r: Runner, policy: Policy, k: nat)
    requires 1 <= policy.maxInterfaces <= 128
    ensures Gathers(r.rd, policy, Empties(k), Blanks(k))
  {
    BlanksMerge(k);
    assert ReadingsOf(r.rd, policy, []) == multiset{};
    assert Parsed(r.rd, policy, [], map[]);
  }

  // ---------- the course of a resource collection ----------

  /** The collection goes as far as its queries. */
  lemma ReachesQueries(r: Runner, w: World) returns (path: seq<World>)
    requires CanStep(r, w, Start)
    ensures Ongoing(r, w, Start, path)
    ensures path[|path| - 1] == Entered(w, Deciding(FlagsFor(r, w.own.resolution.value)))
  {
    path := [Apply(r, w, Start)];
    var flags := FlagsFor(r, w.own.resolution.value);
    for k := 0 to 3
      invariant Ongoing(r, w, Start, path) && path[|path| - 1] == Entered(w, Deciding(flags[..k]))
    {
      OngoingGrows(r, w, Start, path, Decide);
      var next := Apply(r, path[|path| - 1], Decide);
      assert next.turn.flags == flags[..k + 1];
      path := path + [next];
    }
    assert flags[..3] == flags;
  }

  function FlagsFor(r: Runner, resolution: Catalog.Resolution): (flags: seq<bool>)
    ensures |flags| == 3 && GroupsOf(flags) == GroupsFor(r, resolution)
  {
    seq(3, i requires 0 <= i < 3 => Catalog.Enabled(resolution, r.conditional, CAPABILITIES[i]))
  }

  /** And beyond them, with acceptable answers. */
  lemma ReachesGathered(r: Runner, w: World, payloads: seq<Payload>, sources: seq<Records>) returns (path: seq<World>)
    requires CanStep(r, w, Start)
    requires var groups := GroupsFor(r, w.own.resolution.value);
             0 < QueryCount(groups) == |payloads| && Gathers(r.rd, PolicyFor(r, groups), payloads, sources)
    ensures Ongoing(r, w, Start, path)
    ensures path[|path| - 1]
         == Entered(w, Gathered(GroupsFor(r, w.own.resolution.value), MergeSources(sources)))
  {
    path := ReachesQueries(r, w);
    path := Onward(r, w, Start, path, Query(payloads, sources));
  }

  /** A run goes on with a collection. */
  lemma RunGoesOn(r: Runner, worlds: seq<World>, first: Action, path: seq<World>)
    requires IsRun(r, worlds) && Ongoing(r, worlds[|worlds| - 1], first, path)
    ensures IsRun(r, worlds + path)
  {
    var longer := worlds + path;
    forall i | 0 <= i < |longer| - 1 ensures StepTo(r, longer[i], longer[i + 1]) {
      if i < |worlds| - 1 {
        assert StepTo(r, worlds[i], worlds[i + 1]);
      } else if i >= |worlds| {
        assert StepTo(r, path[i - |worlds|], path[i - |worlds| + 1]);
      }
    }
  }
}
