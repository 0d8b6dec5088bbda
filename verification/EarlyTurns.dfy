/**
 Why a resource collection has to begin after bootstrap: exactly when one that begins earlier
 can drop a stored node.
 */
module EarlyTurns {
  import opened Common
  import opened NodeDomain
  import opened NodeMachine
  import opened Continuations

  ghost predicate DropsNode(w: World, w': World) {
    exists o :: o in w.own.nodes && forall n :: n in w'.own.nodes ==> n.id != o.id
  }

  /** Some continuation of the collection ends with a replacement that drops a node. */
  ghost predicate CanDrop(r: Runner, w: World) {
    exists path :: Ongoing(r, w, Start, path) && EndsInDrop(r, path)
  }

  ghost predicate EndsInDrop(r: Runner, path: seq<World>) {
    && path != [] && path[|path| - 1].turn.Filled?
    && DropsNode(path[|path| - 1], Apply(r, path[|path| - 1], ReplaceResources))
  }

  ghost predicate LacksSome(arriving: seq<Node>, stored: seq<Node>) {
    exists o :: o in arriving && o.id !in IdSet(stored)
  }

  /** What can be checked before the collection starts: bootstrap has still to write its nodes, one
      of which is not stored yet, some nodes are stored, some group is enabled and the
      interface limit is one the parser accepts. */
  ghost predicate Threatened(r: Runner, w: World) {
    && w.boot.Published? && w.own.nodes != [] && LacksSome(w.boot.nodes, w.own.nodes)
    && w.own.resolution.Some? && QueryCount(GroupsFor(r, w.own.resolution.value)) > 0
    && 1 <= r.policy.maxInterfaces <= 128
  }

  // ---------- only then ----------

  /** What holds all along the collection that started in `start`. */
  ghost predicate Bound(r: Runner, start: World, w: World) {
    && w.own.resolution.Some? && w.own.resolution == start.own.resolution
    && (|| (w.own.nodes == start.own.nodes && w.boot == start.boot)
        || (start.boot.Published? && w.boot.Idle? && w.own.nodes == start.boot.nodes))
    && match w.turn
       case Deciding(flags) => FlagsOf(r, w.own.resolution.value, flags)
       case Gathered(groups, _) => Queried(r, w, groups)
       case Filled(groups, _, nodes) => Queried(r, w, groups) && FilledIds(start, w, nodes)
       case _ => false
  }

  ghost predicate Queried(r: Runner, w: World, groups: Groups)
    requires w.own.resolution.Some?
  {
    groups == GroupsFor(r, w.own.resolution.value) && QueryCount(groups) > 0 && 1 <= r.policy.maxInterfaces <= 128
  }

  /** The node list in hand has the ids of what is stored, or of what was stored before bootstrap wrote. */
  ghost predicate FilledIds(start: World, w: World, nodes: seq<Node>) {
    && IdSet(nodes) != {}
    && (|| IdSet(nodes) == IdSet(w.own.nodes)
        || (IdSet(nodes) == IdSet(start.own.nodes) && start.boot.Published? && w.boot.Idle?
            && w.own.nodes == start.boot.nodes))
  }

  lemma SomeQuery(r: Runner, groups: Groups, payloads: seq<Payload>, sources: seq<Records>)
    requires payloads != [] && Gathers(r.rd, PolicyFor(r, groups), payloads, sources)
    ensures 1 <= r.policy.maxInterfaces <= 128
  {
    assert Parsed(r.rd, PolicyFor(r, groups), payloads[0], sources[0]);
  }

  /** Filling from a snapshot gives the ids of the stored nodes. */
  lemma FilledHasIds(r: Runner, w: World, snapshot: seq<Node>)
    requires StoreOk(r, w) && w.turn.Gathered? && CanStep(r, w, Fill(snapshot))
    ensures IdSet(Apply(r, w, Fill(snapshot)).turn.nodes) == IdSet(w.own.nodes) != {}
  {
    var nodes := Apply(r, w, Fill(snapshot)).turn.nodes;
    SnapshotIsWellFormed(r, w, snapshot);
    FilledIsOwn(r, snapshot, w.own.nodes, w.turn.resources, w.turn.groups);
    SameIds(w.own.nodes, nodes, w.turn.resources, w.turn.groups);
    SomeId(OwnNodes(snapshot, r.cluster), w.own.nodes);
  }

  lemma SameIds(stored: seq<Node>, nodes: seq<Node>, resources: Records, groups: Groups)
    requires FilledFrom(stored, resources, groups, nodes)
    ensures IdSet(nodes) == IdSet(stored)
  {
    forall id ensures id in IdSet(stored) <==> id in IdSet(nodes) {
      IdKept(stored, nodes, resources, groups, id);
    }
  }

  lemma SomeId(mine: seq<Node>, stored: seq<Node>)
    requires mine != [] && forall n :: n in mine ==> n in stored
    ensures IdSet(stored) != {}
  {
    assert mine[0] in mine;
    assert mine[0].id in IdSet(stored);
  }

  lemma StepKeepsBound(r: Runner, start: World, w: World, a: Action)
    requires StoreOk(r, w) && Bound(r, start, w) && CanStep(r, w, a) && !Apply(r, w, a).turn.Free?
    ensures Bound(r, start, Apply(r, w, a))
  {
    match a
    case Query(payloads, sources) => SomeQuery(r, GroupsOf(w.turn.flags), payloads, sources);
    case Fill(snapshot) => FilledHasIds(r, w, snapshot);
    case _ =>
  }

  lemma {:induction false} BoundAlong(r: Runner, w: World, path: seq<World>, k: nat)
    requires StoreOk(r, w) && Ongoing(r, w, Start, path) && k < |path|
    ensures StoreOk(r, path[k]) && Bound(r, w, path[k])
  {
    if k == 0 {
      StepKeepsStore(r, w, Start);
    } else {
      BoundAlong(r, w, path, k - 1);
      BoundNext(r, w, path, k - 1);
    }
  }

  lemma BoundNext(r: Runner, w: World, path: seq<World>, k: nat)
    requires Ongoing(r, w, Start, path) && k + 1 < |path| && StoreOk(r, path[k]) && Bound(r, w, path[k])
    ensures StoreOk(r, path[k + 1]) && Bound(r, w, path[k + 1])
  {
    var a := PathStep(r, w, Start, path, k);
    StepKeepsStore(r, path[k], a);
    StepKeepsBound(r, w, path[k], a);
  }

  lemma OnlyThreatened(r: Runner, w: World, path: seq<World>)
    requires StoreOk(r, w) && Ongoing(r, w, Start, path) && EndsInDrop(r, path)
    ensures Threatened(r, w)
  {
    var last := path[|path| - 1];
    BoundAlong(r, w, path, |path| - 1);
    DropMeans(r, w, last);
  }

  lemma DropMeans(r: Runner, w: World, last: World)
    requires Bound(r, w, last) && last.turn.Filled? && DropsNode(last, Apply(r, last, ReplaceResources))
    ensures Threatened(r, w)
  {
    assert Apply(r, last, ReplaceResources).own.nodes == last.turn.nodes;
    var o :| o in last.own.nodes && forall n :: n in last.turn.nodes ==> n.id != o.id;
    assert o.id !in IdSet(last.turn.nodes) && o.id in IdSet(last.own.nodes);
    assert IdSet(last.turn.nodes) == IdSet(w.own.nodes) && last.own.nodes == w.boot.nodes;
    assert o in w.boot.nodes && o.id !in IdSet(w.own.nodes);
  }

  // ---------- and then ----------

  lemma ReachesFill(r: Runner, w: World) returns (path: seq<World>)
    requires StoreOk(r, w) && CanStep(r, w, Start) && Threatened(r, w)
    ensures Ongoing(r, w, Start, path) && path[|path| - 1].turn.Gathered?
    ensures path[|path| - 1].own == w.own && path[|path| - 1].others == w.others && path[|path| - 1].boot == w.boot
  {
    var groups := GroupsFor(r, w.own.resolution.value);
    NothingGathered(r, PolicyFor(r, groups), QueryCount(groups));
    path := ReachesGathered(r, w, Empties(QueryCount(groups)), Blanks(QueryCount(groups)));
  }

  lemma ReachesReplacement(r: Runner, w: World) returns (path: seq<World>)
    requires StoreOk(r, w) && CanStep(r, w, Start) && Threatened(r, w)
    ensures Ongoing(r, w, Start, path) && path[|path| - 1].turn.Filled?
    ensures path[|path| - 1].boot == w.boot && IdSet(path[|path| - 1].turn.nodes) == IdSet(w.own.nodes)
  {
    path := ReachesFill(r, w);
    var last := path[|path| - 1];
    BoundAlong(r, w, path, |path| - 1);
    var snapshot := SnapshotExists(r, last);
    SnapshotHasOwn(r, last, snapshot);
    FilledHasIds(r, last, snapshot);
    OngoingGrows(r, w, Start, path, Fill(snapshot));
    path := path + [Apply(r, last, Fill(snapshot))];
  }

  /** Bootstrap writes before the collection does. */
  lemma Dropping(r: Runner, w: World) returns (path: seq<World>)
    requires StoreOk(r, w) && CanStep(r, w, Start) && Threatened(r, w)
    ensures Ongoing(r, w, Start, path) && EndsInDrop(r, path)
  {
    path := ReachesReplacement(r, w);
    var filled := path[|path| - 1];
    OngoingGrows(r, w, Start, path, BootReplace);
    path := path + [Apply(r, filled, BootReplace)];
    Lost(r, filled);
  }

  lemma Lost(r: Runner, filled: World)
    requires filled.turn.Filled? && filled.boot.Published? && LacksSome(filled.boot.nodes, filled.turn.nodes)
    ensures var late := Apply(r, filled, BootReplace); DropsNode(late, Apply(r, late, ReplaceResources))
  {
    var o :| o in filled.boot.nodes && o.id !in IdSet(filled.turn.nodes);
    assert forall n :: n in filled.turn.nodes ==> n.id in IdSet(filled.turn.nodes);
  }

  /** In every reachable world a resource collection about to start can drop a stored node, in some
      continuation, exactly when bootstrap threatens it. In particular it never can once
      bootstrap has completed. */
  lemma DropsIffThreatened(r: Runner, worlds: seq<World>)
    requires ReachedBefore(r, worlds, Start)
    ensures CanDrop(r, worlds[|worlds| - 1]) <==> Threatened(r, worlds[|worlds| - 1])
  {
    var w := worlds[|worlds| - 1];
    StoreOkInRuns(r, worlds);
    if CanDrop(r, w) {
      var path :| Ongoing(r, w, Start, path) && EndsInDrop(r, path);
      OnlyThreatened(r, w, path);
    }
    if Threatened(r, w) {
      var path := Dropping(r, w);
    }
  }

  // ---------- the threat is real ----------

  /** The end of an inventory collection that began in the window: bootstrap has published its
      resolution but has still to write its nodes. */
  ghost predicate InWindow(r: Runner, w: World, many: seq<RawNode>, few: seq<RawNode>, now: int)
    requires Usable(r, many) && Usable(r, few)
  {
    && w.turn.Free? && w.boot == Published(Inventoried(many, r.cluster, now))
    && w.others == map[] && w.own.resolution == Some(ResolutionOf(r, few))
    && w.own.nodes == Carried(r, JobOf(r, few, now, map[]), []) && w.latest == Inventoried(few, r.cluster, now)
  }

  /** Bootstrap has published the resolution of an inventory but not yet its nodes. */
  ghost predicate AtPublication(r: Runner, w: World, many: seq<RawNode>, now: int)
    requires Usable(r, many)
  {
    w == Initially().(own := Initially().own.(resolution := Some(ResolutionOf(r, many))),
                      boot := Published(Inventoried(many, r.cluster, now)), latest := Inventoried(many, r.cluster, now))
  }

  lemma ReachesPublication(r: Runner, many: seq<RawNode>, now: int) returns (worlds: seq<World>)
    requires Usable(r, many)
    ensures IsRun(r, worlds) && AtPublication(r, worlds[|worlds| - 1], many, now)
  {
    worlds := [Initially()];
    worlds := Extended(r, worlds, BootFetch(many, now));
    worlds := Extended(r, worlds, BootPublish);
  }

  /** Meanwhile another inventory is collected. */
  lemma ReachesWindow(r: Runner, many: seq<RawNode>, few: seq<RawNode>, now: int) returns (worlds: seq<World>)
    requires Usable(r, many) && Usable(r, few)
    ensures IsRun(r, worlds) && InWindow(r, worlds[|worlds| - 1], many, few, now)
  {
    worlds := ReachesPublication(r, many, now);
    worlds := Extended(r, worlds, Begin(few, now, map[]));
    worlds := Extended(r, worlds, Carry([]));
    worlds := Extended(r, worlds, Resolve);
    worlds := Extended(r, worlds, Replace);
  }

  /** Such a world is reached: whenever bootstrap reads one inventory and a collection in the window
      reads another that lacks a node of the first, and the latter's resolution enables a group, a
      collection that starts then can drop a stored node. */
  lemma EarlyTurnCanDropNode(r: Runner, many: seq<RawNode>, few: seq<RawNode>, now: int)
    requires 1 <= r.policy.maxInterfaces <= 128 && Usable(r, many) && Usable(r, few)
    requires (exists raw :: raw in many && raw.id !in Ids(few)) && QueryCount(GroupsFor(r, ResolutionOf(r, few))) > 0
    ensures exists worlds :: ReachedBefore(r, worlds, Start) && CanDrop(r, worlds[|worlds| - 1])
  {
    var worlds := ReachesWindow(r, many, few, now);
    WindowIsThreatened(r, worlds[|worlds| - 1], many, few, now);
    assert ReachedBefore(r, worlds, Start);
    DropsIffThreatened(r, worlds);
  }

  lemma WindowIsThreatened(r: Runner, w: World, many: seq<RawNode>, few: seq<RawNode>, now: int)
    requires 1 <= r.policy.maxInterfaces <= 128 && Usable(r, many) && Usable(r, few) && InWindow(r, w, many, few, now)
    requires (exists raw :: raw in many && raw.id !in Ids(few)) && QueryCount(GroupsFor(r, ResolutionOf(r, few))) > 0
    ensures Threatened(r, w)
  {
    CarriedIds(r, JobOf(r, few, now, map[]), []);
    InventoryIds(few, r.cluster, now);
    InventoryIds(many, r.cluster, now);
    var raw :| raw in many && raw.id !in Ids(few);
    assert raw.id in IdSet(w.boot.nodes) && raw.id !in IdSet(w.own.nodes);
    assert |w.own.nodes| == |few|;
  }
}
