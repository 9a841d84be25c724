/**
 `related` of crates/domain/src/parent.rs: climb the `parent_uuid` chain, then walk down from its top.
 The data may contain cycles; the climb is cut off after 4096 steps and the walk visits a uuid once.
 */
module Lineage {
  import opened Wrappers
  import opened Model

  const MAX_DEPTH: nat := 4096

  /** Where the climb stops: no parent uuid, a parent outside the graph, or the step limit. */
  ghost function ChainTop(all: seq<Subvolume>, s: Subvolume, steps: nat): Subvolume
    decreases steps
  {
    if steps == 0 || s.parentUuid == None || FindUuid(all, s.parentUuid.value) == None then s
    else ChainTop(all, FindUuid(all, s.parentUuid.value).value, steps - 1)
  }

  ghost function Seeds(top: Subvolume): set<Uuid> {
    (if top.uuid.Some? then {top.uuid.value} else {}) + (if top.parentUuid.Some? then {top.parentUuid.value} else {})
  }

  predicate ChildOfAny(s: Subvolume, parents: set<Uuid>) {
    s.parentUuid.Some? && s.parentUuid.value in parents
  }

  /** A walk down: the first member is a child of a seed, each next one a child of the one before. */
  ghost predicate Descends(all: seq<Subvolume>, seeds: set<Uuid>, path: seq<Subvolume>) {
    && path != []
    && (forall i :: 0 <= i < |path| ==> path[i] in all)
    && ChildOfAny(path[0], seeds)
    && forall i :: 0 <= i < |path| - 1 ==> path[i].uuid.Some? && path[i + 1].parentUuid == path[i].uuid
  }

  /** Reachable from the seeds by one or more child steps. */
  ghost predicate Reachable(all: seq<Subvolume>, seeds: set<Uuid>, s: Subvolume) {
    exists path :: Descends(all, seeds, path) && path[|path| - 1] == s
  }

  /** A uuid whose children are reachable. */
  ghost predicate ReachableUuid(all: seq<Subvolume>, seeds: set<Uuid>, u: Uuid) {
    u in seeds || exists s :: Reachable(all, seeds, s) && s.uuid == Some(u)
  }

  lemma ChildIsReachable(all: seq<Subvolume>, seeds: set<Uuid>, u: Uuid, child: Subvolume)
    requires ReachableUuid(all, seeds, u) && child in all && child.parentUuid == Some(u)
    ensures Reachable(all, seeds, child)
  {
    if u in seeds {
      assert Descends(all, seeds, [child]);
      assert [child][|[child]| - 1] == child;
    } else {
      var s :| Reachable(all, seeds, s) && s.uuid == Some(u);
      var path :| Descends(all, seeds, path) && path[|path| - 1] == s;
      var longer := path + [child];
      assert longer[0] == path[0];
      assert Descends(all, seeds, longer);
      assert longer[|longer| - 1] == child;
    }
  }

  /** Once every child of a visited uuid has its own uuid visited, the visited set is the reachable one. */
  lemma {:induction false} ClosedCoversPath(all: seq<Subvolume>, seeds: set<Uuid>, visited: set<Uuid>,
                                            path: seq<Subvolume>, i: nat)
    requires seeds <= visited && Descends(all, seeds, path) && i < |path|
    requires forall s :: s in all && ChildOfAny(s, visited) && s.uuid.Some? ==> s.uuid.value in visited
    ensures ChildOfAny(path[i], visited)
  {
    if i > 0 {
      ClosedCoversPath(all, seeds, visited, path, i - 1);
      assert path[i - 1 + 1].parentUuid == path[i - 1].uuid;
    }
  }

  /** A candidate that `related` reports. */
  predicate Eligible(s: Subvolume, snapshot: Subvolume) {
    s.id != snapshot.id && s.readonly
  }

  /** The answer: read-only, not the snapshot, and reachable. */
  ghost predicate IsRelated(all: seq<Subvolume>, snapshot: Subvolume, s: Subvolume) {
    s in all && s.readonly && s.id != snapshot.id && Reachable(all, Seeds(ChainTop(all, snapshot, MAX_DEPTH)), s)
  }

  function Uuids(subvols: seq<Subvolume>): (r: set<Uuid>)
    ensures forall s :: s in subvols && s.uuid.Some? ==> s.uuid.value in r
  {
    if subvols == [] then {}
    else Uuids(subvols[1..]) + (if subvols[0].uuid.Some? then {subvols[0].uuid.value} else {})
  }

  method Climb(graph: RelationshipGraph, snapshot: Subvolume) returns (top: Subvolume)
    requires graph.Valid()
    ensures top == ChainTop(graph.subvols, snapshot, MAX_DEPTH)
  {
    top := snapshot;
    var steps := 0;
    while top.parentUuid.Some?
      invariant steps <= MAX_DEPTH
      invariant ChainTop(graph.subvols, snapshot, MAX_DEPTH) == ChainTop(graph.subvols, top, MAX_DEPTH - steps)
      decreases MAX_DEPTH - steps
    {
      if steps >= MAX_DEPTH {
        break;
      }
      match graph.Get(top.parentUuid.value) {
        case Some(parent) =>
          top := parent;
          steps := steps + 1;
        case None =>
          break;
      }
    }
  }

  /** The ids in the result so far are exactly `seenIds`, each once. */
  ghost predicate Reported(result: seq<Subvolume>, seenIds: set<nat>) {
    && (forall i, j :: 0 <= i < j < |result| ==> result[i].id != result[j].id)
    && (forall i :: 0 <= i < |result| ==> result[i].id in seenIds)
    && (forall id :: id in seenIds ==> exists i :: 0 <= i < |result| && result[i].id == id)
  }

  /** Every child of a visited uuid is reported, and its own uuid is visited or queued. */
  ghost predicate Expanded(all: seq<Subvolume>, snapshot: Subvolume, visited: set<Uuid>, queue: seq<Uuid>,
                           seenIds: set<nat>)
  {
    forall s :: s in all && ChildOfAny(s, visited) ==>
      && (Eligible(s, snapshot) ==> s.id in seenIds)
      && (s.uuid.Some? ==> s.uuid.value in visited || s.uuid.value in queue)
  }

  ghost predicate Sound(all: seq<Subvolume>, snapshot: Subvolume, seeds: set<Uuid>, result: seq<Subvolume>) {
    forall i :: 0 <= i < |result| ==>
      result[i] in all && Eligible(result[i], snapshot) && Reachable(all, seeds, result[i])
  }

  ghost predicate Pending(all: seq<Subvolume>, seeds: set<Uuid>, visited: set<Uuid>, queue: seq<Uuid>) {
    && (forall u :: u in queue ==> ReachableUuid(all, seeds, u) && u in seeds + Uuids(all))
    && (forall u :: u in visited ==> u in seeds + Uuids(all))
    && (forall u :: u in seeds ==> u in visited || u in queue)
  }

  /** One child: report it unless it was, and queue its uuid. */
  method ExpandOne(all: seq<Subvolume>, snapshot: Subvolume, ghost seeds: set<Uuid>, ghost uuid: Uuid,
                   child: Subvolume, queue0: seq<Uuid>, result0: seq<Subvolume>, seen0: set<nat>)
    returns (queue: seq<Uuid>, result: seq<Subvolume>, seenIds: set<nat>)
    requires child in all && child.parentUuid == Some(uuid) && ReachableUuid(all, seeds, uuid)
    requires Reported(result0, seen0) && Sound(all, snapshot, seeds, result0)
    ensures Reported(result, seenIds) && Sound(all, snapshot, seeds, result)
    ensures queue == queue0 + (if child.uuid.Some? then [child.uuid.value] else []) && seen0 <= seenIds
    ensures child.uuid.Some? ==> ReachableUuid(all, seeds, child.uuid.value) && child.uuid.value in Uuids(all)
    ensures Eligible(child, snapshot) ==> child.id in seenIds
  {
    queue, result, seenIds := queue0, result0, seen0;
    ChildIsReachable(all, seeds, uuid, child);
    if Eligible(child, snapshot) && child.id !in seenIds {
      seenIds, result := Report(result, seenIds, child);
    }
    if child.uuid.Some? {
      queue := queue + [child.uuid.value];
    }
  }

  /** The queue only grew, and by uuids that can be reached. */
  ghost predicate Queued(all: seq<Subvolume>, seeds: set<Uuid>, queue0: seq<Uuid>, queue: seq<Uuid>) {
    queue0 <= queue && forall u :: u in queue ==> u in queue0 || (ReachableUuid(all, seeds, u) && u in Uuids(all))
  }

  /** The first `n` children are reported and queued. */
  ghost predicate Handled(snapshot: Subvolume, children: seq<Subvolume>, n: nat, queue: seq<Uuid>, seenIds: set<nat>)
    requires n <= |children|
  {
    forall k :: 0 <= k < n ==>
      && (Eligible(children[k], snapshot) ==> children[k].id in seenIds)
      && (children[k].uuid.Some? ==> children[k].uuid.value in queue)
  }

  lemma HandledMore(snapshot: Subvolume, children: seq<Subvolume>, i: nat, queue: seq<Uuid>, seenIds: set<nat>,
                    queue': seq<Uuid>, seenIds': set<nat>)
    requires i < |children| && Handled(snapshot, children, i, queue, seenIds) && seenIds <= seenIds'
    requires queue' == queue + (if children[i].uuid.Some? then [children[i].uuid.value] else [])
    requires Eligible(children[i], snapshot) ==> children[i].id in seenIds'
    ensures Handled(snapshot, children, i + 1, queue', seenIds')
  {
  }

  lemma QueuedMore(all: seq<Subvolume>, seeds: set<Uuid>, queue0: seq<Uuid>, queue: seq<Uuid>, more: seq<Uuid>)
    requires Queued(all, seeds, queue0, queue)
    requires forall u :: u in more ==> ReachableUuid(all, seeds, u) && u in Uuids(all)
    ensures Queued(all, seeds, queue0, queue + more)
  {
  }

  /** The inner loop: report the children of one uuid and queue their uuids. */
  method Expand(all: seq<Subvolume>, snapshot: Subvolume, ghost seeds: set<Uuid>, ghost uuid: Uuid,
                children: seq<Subvolume>, queue0: seq<Uuid>, result0: seq<Subvolume>, seen0: set<nat>)
    returns (queue: seq<Uuid>, result: seq<Subvolume>, seenIds: set<nat>)
    requires forall i :: 0 <= i < |children| ==> children[i] in all && children[i].parentUuid == Some(uuid)
    requires ReachableUuid(all, seeds, uuid)
    requires Reported(result0, seen0) && Sound(all, snapshot, seeds, result0)
    ensures Reported(result, seenIds) && Sound(all, snapshot, seeds, result)
    ensures seen0 <= seenIds && Queued(all, seeds, queue0, queue)
    ensures Handled(snapshot, children, |children|, queue, seenIds)
  {
    queue, result, seenIds := queue0, result0, seen0;
    for i := 0 to |children|
      invariant seen0 <= seenIds && Reported(result, seenIds) && Sound(all, snapshot, seeds, result)
      invariant Queued(all, seeds, queue0, queue)
      invariant Handled(snapshot, children, i, queue, seenIds)
    {
      ghost var queueBefore, seenBefore := queue, seenIds;
      queue, result, seenIds := ExpandOne(all, snapshot, seeds, uuid, children[i], queue, result, seenIds);
      HandledMore(snapshot, children, i, queueBefore, seenBefore, queue, seenIds);
      QueuedMore(all, seeds, queue0, queueBefore, if children[i].uuid.Some? then [children[i].uuid.value] else []);
    }
  }

  /** Visiting `uuid` keeps the frontier complete once its children are reported and queued. */
  lemma ExpandedBy(all: seq<Subvolume>, snapshot: Subvolume, visited: set<Uuid>, uuid: Uuid, rest: seq<Uuid>,
                   seen0: set<nat>, children: seq<Subvolume>, queue: seq<Uuid>, seenIds: set<nat>)
    requires Expanded(all, snapshot, visited, [uuid] + rest, seen0)
    requires forall s :: s in all && s.parentUuid == Some(uuid) ==> s in children
    requires rest <= queue && seen0 <= seenIds
    requires forall k :: 0 <= k < |children| ==>
      && (Eligible(children[k], snapshot) ==> children[k].id in seenIds)
      && (children[k].uuid.Some? ==> children[k].uuid.value in queue)
    ensures Expanded(all, snapshot, visited + {uuid}, queue, seenIds)
  {
    forall s | s in all && ChildOfAny(s, visited + {uuid})
      ensures Eligible(s, snapshot) ==> s.id in seenIds
      ensures s.uuid.Some? ==> s.uuid.value in visited + {uuid} || s.uuid.value in queue
    {
      if s.parentUuid.value == uuid {
        assert s in children;
      } else {
        assert ChildOfAny(s, visited);
      }
    }
  }

  /** `seen_ids.insert(id)` followed by `result.push(child)`. */
  method Report(result: seq<Subvolume>, seenIds: set<nat>, child: Subvolume) returns (ids: set<nat>, r: seq<Subvolume>)
    requires Reported(result, seenIds) && child.id !in seenIds
    ensures Reported(r, ids) && ids == seenIds + {child.id} && r == result + [child]
  {
    ids, r := seenIds + {child.id}, result + [child];
    assert r[|r| - 1] == child;
    forall id | id in ids ensures exists i :: 0 <= i < |r| && r[i].id == id {
      if id in seenIds {
        var i :| 0 <= i < |result| && result[i].id == id;
        assert r[i].id == id;
      }
    }
  }

  lemma PendingBy(all: seq<Subvolume>, seeds: set<Uuid>, visited: set<Uuid>, uuid: Uuid, rest: seq<Uuid>,
                  queue: seq<Uuid>)
    requires Pending(all, seeds, visited, [uuid] + rest)
    requires rest <= queue
    requires forall u :: u in queue ==> u in rest || (ReachableUuid(all, seeds, u) && u in Uuids(all))
    ensures Pending(all, seeds, visited + {uuid}, queue)
  {
    assert uuid in [uuid] + rest;
    forall u | u in queue ensures ReachableUuid(all, seeds, u) && u in seeds + Uuids(all) {
      if u in rest {
        assert u in [uuid] + rest;
      }
    }
    forall u | u in seeds ensures u in visited + {uuid} || u in queue {
      assert u in visited || u in [uuid] + rest;
    }
  }

  lemma SkipVisited(all: seq<Subvolume>, snapshot: Subvolume, seeds: set<Uuid>, visited: set<Uuid>, uuid: Uuid,
                    rest: seq<Uuid>, seenIds: set<nat>)
    requires uuid in visited && Pending(all, seeds, visited, [uuid] + rest)
    requires Expanded(all, snapshot, visited, [uuid] + rest, seenIds)
    ensures Pending(all, seeds, visited, rest) && Expanded(all, snapshot, visited, rest, seenIds)
  {
    PendingBy(all, seeds, visited, uuid, rest, rest);
    assert visited + {uuid} == visited;
  }

  method SeedQueue(top: Subvolume) returns (queue: seq<Uuid>)
    ensures forall u :: u in queue <==> u in Seeds(top)
  {
    queue := [];
    if top.uuid.Some? {
      queue := queue + [top.uuid.value];
    }
    if top.parentUuid.Some? {
      queue := queue + [top.parentUuid.value];
    }
  }

  /** One turn of the walk for a uuid that was not visited before. */
  method Visit(graph: RelationshipGraph, snapshot: Subvolume, ghost seeds: set<Uuid>, visited: set<Uuid>, uuid: Uuid,
               rest: seq<Uuid>, result0: seq<Subvolume>, seen0: set<nat>)
    returns (queue: seq<Uuid>, result: seq<Subvolume>, seenIds: set<nat>)
    requires graph.Valid()
    requires Reported(result0, seen0) && Sound(graph.subvols, snapshot, seeds, result0)
    requires Pending(graph.subvols, seeds, visited, [uuid] + rest)
    requires Expanded(graph.subvols, snapshot, visited, [uuid] + rest, seen0)
    ensures Reported(result, seenIds) && Sound(graph.subvols, snapshot, seeds, result)
    ensures Pending(graph.subvols, seeds, visited + {uuid}, queue)
    ensures Expanded(graph.subvols, snapshot, visited + {uuid}, queue, seenIds)
  {
    var children := graph.ChildrenOf(uuid);
    assert uuid in [uuid] + rest;
    assert forall i :: 0 <= i < |children| ==> children[i] in children;
    queue, result, seenIds := Expand(graph.subvols, snapshot, seeds, uuid, children, rest, result0, seen0);
    ExpandedBy(graph.subvols, snapshot, visited, uuid, rest, seen0, children, queue, seenIds);
    PendingBy(graph.subvols, seeds, visited, uuid, rest, queue);
  }

  /** The breadth-first walk. */
  method WalkDown(graph: RelationshipGraph, snapshot: Subvolume, top: Subvolume)
    returns (result: seq<Subvolume>, ghost seenIds: set<nat>, ghost visited: set<Uuid>)
    requires graph.Valid()
    ensures Reported(result, seenIds) && Sound(graph.subvols, snapshot, Seeds(top), result)
    ensures Expanded(graph.subvols, snapshot, visited, [], seenIds)
    ensures Seeds(top) <= visited
  {
    var all := graph.subvols;
    ghost var seeds := Seeds(top);
    result := [];
    var seen: set<nat>, done: set<Uuid> := {}, {};
    var queue := SeedQueue(top);
    while queue != []
      invariant Reported(result, seen) && Sound(all, snapshot, seeds, result)
      invariant Pending(all, seeds, done, queue)
      invariant Expanded(all, snapshot, done, queue, seen)
      decreases seeds + Uuids(all) - done, |queue|
    {
      var uuid, rest := queue[0], queue[1..];
      assert queue == [uuid] + rest;
      if uuid in done {
        SkipVisited(all, snapshot, seeds, done, uuid, rest, seen);
        queue := rest;
      } else {
        assert uuid in seeds + Uuids(all);
        queue, result, seen := Visit(graph, snapshot, seeds, done, uuid, rest, result, seen);
        done := done + {uuid};
      }
    }
    seenIds, visited := seen, done;
  }

  lemma WalkIsComplete(all: seq<Subvolume>, snapshot: Subvolume, seeds: set<Uuid>, visited: set<Uuid>,
                       seenIds: set<nat>, s: Subvolume)
    requires Expanded(all, snapshot, visited, [], seenIds) && seeds <= visited
    requires s in all && Eligible(s, snapshot) && Reachable(all, seeds, s)
    ensures s.id in seenIds
  {
    var path :| Descends(all, seeds, path) && path[|path| - 1] == s;
    ClosedCoversPath(all, seeds, visited, path, |path| - 1);
  }

  /**
   `related` terminates on every graph, reports each id at most once, and reports exactly the ids of
   the eligible subvolumes that are reachable from the chain top.
   */
  method Related(graph: RelationshipGraph, snapshot: Subvolume) returns (result: seq<Subvolume>)
    requires graph.Valid()
    ensures forall i, j :: 0 <= i < j < |result| ==> result[i].id != result[j].id
    ensures forall i :: 0 <= i < |result| ==> IsRelated(graph.subvols, snapshot, result[i])
    ensures forall s :: IsRelated(graph.subvols, snapshot, s) ==> exists i :: 0 <= i < |result| && result[i].id == s.id
  {
    var top := Climb(graph, snapshot);
    ghost var seenIds, visited;
    result, seenIds, visited := WalkDown(graph, snapshot, top);
    forall s | IsRelated(graph.subvols, snapshot, s) ensures exists i :: 0 <= i < |result| && result[i].id == s.id {
      WalkIsComplete(graph.subvols, snapshot, Seeds(top), visited, seenIds, s);
    }
  }

  // ---------------------------------------------------------------------------
  // What the lineage covers
  // ---------------------------------------------------------------------------

  /** Climbing keeps the lower members inside the reachable set. */
  lemma {:induction false} ClimbKeepsLineage(all: seq<Subvolume>, s: Subvolume, steps: nat)
    requires s.parentUuid.Some?
    ensures ReachableUuid(all, Seeds(ChainTop(all, s, steps)), s.parentUuid.value)
    decreases steps
  {
    var top := ChainTop(all, s, steps);
    if steps == 0 || FindUuid(all, s.parentUuid.value).None? {
      assert top == s;
    } else {
      var parent := FindUuid(all, s.parentUuid.value).value;
      if parent.parentUuid.Some? {
        ClimbKeepsLineage(all, parent, steps - 1);
        ChildIsReachable(all, Seeds(top), parent.parentUuid.value, parent);
      } else {
        assert top == ChainTop(all, parent, steps - 1) == parent;
        assert parent.uuid == s.parentUuid;
      }
    }
  }

  lemma {:induction false} OwnUuidIsReachable(all: seq<Subvolume>, s: Subvolume, steps: nat)
    requires s in all && s.uuid.Some?
    ensures ReachableUuid(all, Seeds(ChainTop(all, s, steps)), s.uuid.value)
    decreases steps
  {
    if steps == 0 || s.parentUuid == None || FindUuid(all, s.parentUuid.value) == None {
      assert ChainTop(all, s, steps) == s;
    } else {
      var parent := FindUuid(all, s.parentUuid.value).value;
      OwnUuidIsReachable(all, parent, steps - 1);
      ChildIsReachable(all, Seeds(ChainTop(all, s, steps)), parent.uuid.value, s);
    }
  }

  /** A climb can be interrupted and taken up again. */
  lemma {:induction false} ClimbInTwo(all: seq<Subvolume>, s: Subvolume, k: nat, steps: nat)
    requires k <= steps
    ensures ChainTop(all, s, steps) == ChainTop(all, ChainTop(all, s, k), steps - k)
    decreases k
  {
    if k > 0 && s.parentUuid.Some? && FindUuid(all, s.parentUuid.value).Some? {
      ClimbInTwo(all, FindUuid(all, s.parentUuid.value).value, k - 1, steps - 1);
    }
  }

  /** What can be reached from a reachable uuid can be reached. */
  lemma {:induction false} ReachableFrom(all: seq<Subvolume>, seeds: set<Uuid>, u: Uuid, path: seq<Subvolume>, i: nat)
    requires ReachableUuid(all, seeds, u) && Descends(all, {u}, path) && i < |path|
    ensures Reachable(all, seeds, path[i])
  {
    if i == 0 {
      ChildIsReachable(all, seeds, u, path[0]);
    } else {
      ReachableFrom(all, seeds, u, path, i - 1);
      assert path[i - 1 + 1].parentUuid == path[i - 1].uuid;
      ChildIsReachable(all, seeds, path[i - 1].uuid.value, path[i]);
    }
  }

  /** Every descendant of an ancestor up to 4096 generations back is related: siblings, cousins and so on. */
  lemma FamilyIsRelated(all: seq<Subvolume>, snapshot: Subvolume, generations: nat, s: Subvolume)
    requires generations <= 4096 && s in all && s.readonly && s.id != snapshot.id
    requires
      var ancestor := ChainTop(all, snapshot, generations);
      ancestor in all && ancestor.uuid.Some? && Reachable(all, {ancestor.uuid.value}, s)
    ensures IsRelated(all, snapshot, s)
  {
    var ancestor, top := ChainTop(all, snapshot, generations), ChainTop(all, snapshot, MAX_DEPTH);
    ClimbInTwo(all, snapshot, generations, MAX_DEPTH);
    OwnUuidIsReachable(all, ancestor, MAX_DEPTH - generations);
    var path :| Descends(all, {ancestor.uuid.value}, path) && path[|path| - 1] == s;
    ReachableFrom(all, Seeds(top), ancestor.uuid.value, path, |path| - 1);
  }

  predicate Same(x: Option<Uuid>, y: Option<Uuid>) {
    x.Some? && x == y
  }

  /** Read-only siblings, which share the snapshot's `parent_uuid`, are always related. */
  lemma SiblingsAreRelated(all: seq<Subvolume>, snapshot: Subvolume, sibling: Subvolume)
    requires sibling in all && sibling.readonly && sibling.id != snapshot.id
    requires Same(snapshot.parentUuid, sibling.parentUuid)
    ensures IsRelated(all, snapshot, sibling)
  {
    ClimbKeepsLineage(all, snapshot, MAX_DEPTH);
    ChildIsReachable(all, Seeds(ChainTop(all, snapshot, MAX_DEPTH)), snapshot.parentUuid.value, sibling);
  }

  /** A read-only parent is related unless it is the unrooted top of the chain. */
  lemma ParentIsRelated(all: seq<Subvolume>, snapshot: Subvolume, parent: Subvolume)
    requires snapshot.parentUuid.Some? && FindUuid(all, snapshot.parentUuid.value) == Some(parent)
    requires parent.readonly && parent.id != snapshot.id && parent.parentUuid.Some?
    ensures IsRelated(all, snapshot, parent)
  {
    ClimbKeepsLineage(all, parent, MAX_DEPTH - 1);
    ChildIsReachable(all, Seeds(ChainTop(all, snapshot, MAX_DEPTH)), parent.parentUuid.value, parent);
  }
}
