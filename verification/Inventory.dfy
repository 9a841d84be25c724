/** The inventory: `list` and `stats` of crates/application/src/inventory.rs. */
module Inventory {
  import opened Wrappers
  import opened Sequences
  import opened Naming
  import opened Model
  import opened Parent
  import opened Service

  datatype BackupStatus = BackupStatus(snapshot: Subvolume, backups: seq<Subvolume>)

  datatype Report = Report(snapshots: seq<BackupStatus>, orphans: seq<Subvolume>, incomplete: seq<Subvolume>)

  datatype Stats = Stats(snapshots: nat, backups: nat, correlated: nat, orphaned: nat, incomplete: nat)

  /** The leaf name follows the naming scheme. */
  predicate IsManaged(s: Subvolume) {
    s.path.FileName().Some? && ParseName(s.path.FileName().value).Some?
  }

  function ManagedIn(all: seq<Subvolume>, dir: Path): seq<Subvolume> {
    Filter(Filter(all, InDirectory(dir)), IsManaged)
  }

  /** The last component of the path is a name in the naming scheme. */
  ghost predicate FollowsScheme(s: Subvolume) {
    var parts := s.path.parts;
    parts != [] && parts[|parts| - 1] != ".." && ParseName(parts[|parts| - 1]).Some?
  }

  /** Managed are the subvolumes directly in the directory whose names follow the naming scheme. */
  lemma ManagedAre(all: seq<Subvolume>, dir: Path, s: Subvolume)
    ensures s in ManagedIn(all, dir) <==> s in all && (exists name :: LiesIn(s, dir, name)) && FollowsScheme(s)
  {
    ListsDirectory(all, dir, s);
  }

  // ---------------------------------------------------------------------------
  // What the inventory says
  // ---------------------------------------------------------------------------

  predicate IsCopyOfSome(snapshots: seq<Subvolume>, b: Subvolume) {
    exists i :: 0 <= i < |snapshots| && IsCorrelated(snapshots[i], b)
  }

  function Copies(snapshots: seq<Subvolume>): Subvolume -> bool {
    (b: Subvolume) => IsCopyOfSome(snapshots, b)
  }

  /** Writable and received from nowhere: what a broken receive leaves. */
  ghost predicate IsIncomplete(b: Subvolume) { !b.readonly && b.receivedUuid == None }

  function Garbled(): Subvolume -> bool { (b: Subvolume) => b.IsGarbled() }

  function Orphaned(snapshots: seq<Subvolume>): Subvolume -> bool {
    (b: Subvolume) => !IsCopyOfSome(snapshots, b) && !b.IsGarbled()
  }

  function IdsOf(s: seq<Subvolume>): set<nat> { set x | x in s :: x.id }

  /** The ids the code collects while it maps the snapshots. */
  ghost function CorrelatedIds(snapshots: seq<Subvolume>, backups: seq<Subvolume>): set<nat> {
    set i, b | 0 <= i < |snapshots| && b in Correlates(snapshots[i], backups) :: b.id
  }

  /** Neither correlated nor incomplete, by id. */
  ghost function OrphanedById(snapshots: seq<Subvolume>, backups: seq<Subvolume>): Subvolume -> bool {
    var correlated, incomplete := CorrelatedIds(snapshots, backups), IdsOf(Filter(backups, Garbled()));
    (b: Subvolume) => b.id !in correlated && b.id !in incomplete
  }

  // ---------------------------------------------------------------------------
  // The code
  // ---------------------------------------------------------------------------

  /** The backups found for one snapshot are all its copies, each once. */
  ghost predicate Lists(found: seq<Subvolume>, s: Subvolume, backups: seq<Subvolume>) {
    && Ascending(found)
    && (forall t :: t in found ==> t in Correlates(s, backups))
    && (forall t :: t in Correlates(s, backups) ==> exists k :: 0 <= k < |found| && found[k].id == t.id)
    && (UniqueIds(backups) ==> forall t :: t in Correlates(s, backups) ==> t in found)
  }

  ghost predicate ListsAll(statuses: seq<BackupStatus>, snapshots: seq<Subvolume>, backups: seq<Subvolume>) {
    && |statuses| == |snapshots|
    && forall i :: 0 <= i < |snapshots| ==>
         statuses[i].snapshot == snapshots[i] && Lists(statuses[i].backups, snapshots[i], backups)
  }

  method CorrelateAll(snapshots: seq<Subvolume>, graph: RelationshipGraph)
    returns (statuses: seq<BackupStatus>, ids: set<nat>)
    requires graph.Valid()
    ensures ListsAll(statuses, snapshots, graph.subvols)
    ensures ids == CorrelatedIds(snapshots, graph.subvols)
  {
    statuses, ids := [], {};
    for i := 0 to |snapshots|
      invariant ListsAll(statuses, snapshots[..i], graph.subvols)
      invariant ids == CorrelatedIds(snapshots[..i], graph.subvols)
    {
      var found := TargetCorrelates(snapshots[i], graph);
      var more := CollectIds(found);
      OneSnapshotMore(snapshots, i, graph.subvols, found, ids, more);
      OneStatusMore(statuses, snapshots, i, graph.subvols, found);
      statuses := statuses + [BackupStatus(snapshots[i], found)];
      ids := ids + more;
    }
    assert snapshots[..|snapshots|] == snapshots;
  }

  lemma OneStatusMore(statuses: seq<BackupStatus>, snapshots: seq<Subvolume>, i: nat, backups: seq<Subvolume>,
                      found: seq<Subvolume>)
    requires i < |snapshots| && ListsAll(statuses, snapshots[..i], backups) && Lists(found, snapshots[i], backups)
    ensures ListsAll(statuses + [BackupStatus(snapshots[i], found)], snapshots[..i + 1], backups)
  {
    var more := statuses + [BackupStatus(snapshots[i], found)];
    forall k | 0 <= k < i + 1
      ensures more[k].snapshot == snapshots[..i + 1][k] && Lists(more[k].backups, snapshots[..i + 1][k], backups)
    {
      if k < i {
        assert snapshots[..i][k] == snapshots[..i + 1][k];
      }
    }
  }

  ghost predicate HasCopyId(s: Subvolume, backups: seq<Subvolume>, id: nat) {
    exists b :: b in Correlates(s, backups) && b.id == id
  }

  /** The ids of what was found for a snapshot are those of its copies. */
  lemma FoundIds(found: seq<Subvolume>, s: Subvolume, backups: seq<Subvolume>, id: nat)
    requires Lists(found, s, backups)
    ensures (exists k :: 0 <= k < |found| && found[k].id == id) <==> HasCopyId(s, backups, id)
  {
    if k: nat :| k < |found| && found[k].id == id {
      assert found[k] in Correlates(s, backups);
    }
  }

  lemma CorrelatedEarlier(front: seq<Subvolume>, s: Subvolume, backups: seq<Subvolume>, id: nat)
    requires id in CorrelatedIds(front, backups) || HasCopyId(s, backups, id)
    ensures id in CorrelatedIds(front + [s], backups)
  {
    var all := front + [s];
    if id in CorrelatedIds(front, backups) {
      var k, b :| 0 <= k < |front| && b in Correlates(front[k], backups) && b.id == id;
      assert all[k] == front[k];
    } else {
      assert all[|front|] == s;
    }
  }

  lemma CorrelatedLater(front: seq<Subvolume>, s: Subvolume, backups: seq<Subvolume>, id: nat)
    requires id in CorrelatedIds(front + [s], backups)
    ensures id in CorrelatedIds(front, backups) || HasCopyId(s, backups, id)
  {
    var all := front + [s];
    var k, b :| 0 <= k < |all| && b in Correlates(all[k], backups) && b.id == id;
    if k < |front| {
      assert all[k] == front[k];
    }
  }

  lemma CorrelatedWithOneMore(front: seq<Subvolume>, s: Subvolume, backups: seq<Subvolume>, id: nat)
    ensures id in CorrelatedIds(front + [s], backups)
       <==> id in CorrelatedIds(front, backups) || HasCopyId(s, backups, id)
  {
    if id in CorrelatedIds(front, backups) || HasCopyId(s, backups, id) {
      CorrelatedEarlier(front, s, backups, id);
    }
    if id in CorrelatedIds(front + [s], backups) {
      CorrelatedLater(front, s, backups, id);
    }
  }

  lemma OneSnapshotMore(snapshots: seq<Subvolume>, i: nat, backups: seq<Subvolume>, found: seq<Subvolume>,
                        ids: set<nat>, more: set<nat>)
    requires i < |snapshots| && Lists(found, snapshots[i], backups)
    requires ids == CorrelatedIds(snapshots[..i], backups)
    requires forall id :: id in more <==> exists k :: 0 <= k < |found| && found[k].id == id
    ensures ids + more == CorrelatedIds(snapshots[..i + 1], backups)
  {
    var front, s := snapshots[..i], snapshots[i];
    assert snapshots[..i + 1] == front + [s];
    forall id ensures id in ids + more <==> id in CorrelatedIds(front + [s], backups) {
      FoundIds(found, s, backups, id);
      CorrelatedWithOneMore(front, s, backups, id);
    }
  }

  /** `list` */
  method List(source: seq<Subvolume>, target: seq<Subvolume>, snapshotDir: Path, targetDir: Path)
    returns (r: Result<Report, PortError>)
    ensures r.Ok? <==> UniqueUuids(ManagedIn(target, targetDir))
    ensures r.Err? ==> r.error == Verification
    ensures
      var snapshots, backups := ManagedIn(source, snapshotDir), ManagedIn(target, targetDir);
      r.Ok? ==>
        && ListsAll(r.value.snapshots, snapshots, backups)
        && r.value.incomplete == Filter(backups, Garbled())
        && (forall b :: b in r.value.incomplete <==> b in backups && IsIncomplete(b))
        && r.value.orphans == Filter(backups, OrphanedById(snapshots, backups))
  {
    var snapshots, backups := ManagedIn(source, snapshotDir), ManagedIn(target, targetDir);
    var graph := Build(backups);
    if graph.Err? {
      return Err(Verification);
    }
    var statuses, correlated := CorrelateAll(snapshots, graph.value);
    var incomplete := Filter(backups, Garbled());
    var incompleteIds := IdsOf(incomplete);
    var orphans := Filter(backups, (b: Subvolume) => b.id !in correlated && b.id !in incompleteIds);
    FilterSame(backups, (b: Subvolume) => b.id !in correlated && b.id !in incompleteIds,
               OrphanedById(snapshots, backups));
    r := Ok(Report(statuses, orphans, incomplete));
  }

  /** `stats` */
  method CountAll(source: seq<Subvolume>, target: seq<Subvolume>, snapshotDir: Path, targetDir: Path)
    returns (r: Result<Stats, PortError>)
    ensures r.Ok? <==> UniqueUuids(ManagedIn(target, targetDir))
    ensures
      var snapshots, backups := ManagedIn(source, snapshotDir), ManagedIn(target, targetDir);
      r.Ok? ==>
        && r.value.snapshots == |snapshots|
        && r.value.correlated == |CorrelatedIds(snapshots, backups)|
        && r.value.incomplete == |Filter(backups, Garbled())|
        && r.value.orphaned == |Filter(backups, OrphanedById(snapshots, backups))|
        && r.value.backups == r.value.correlated + r.value.orphaned + r.value.incomplete
  {
    var inventory := List(source, target, snapshotDir, targetDir);
    if inventory.Err? {
      return Err(inventory.error);
    }
    ghost var snapshots, backups := ManagedIn(source, snapshotDir), ManagedIn(target, targetDir);
    var ids: set<nat> := {};
    var statuses := inventory.value.snapshots;
    for i := 0 to |statuses|
      invariant ids == CorrelatedIds(snapshots[..i], backups)
    {
      var more := CollectIds(statuses[i].backups);
      OneSnapshotMore(snapshots, i, backups, statuses[i].backups, ids, more);
      ids := ids + more;
    }
    assert snapshots[..|snapshots|] == snapshots;
    var orphaned, incomplete := |inventory.value.orphans|, |inventory.value.incomplete|;
    r := Ok(Stats(|statuses|, |ids| + orphaned + incomplete, |ids|, orphaned, incomplete));
  }

  // ---------------------------------------------------------------------------
  // With unique ids
  // ---------------------------------------------------------------------------

  lemma IdOfCopy(snapshots: seq<Subvolume>, backups: seq<Subvolume>, b: Subvolume)
    requires UniqueIds(backups) && b in backups
    ensures b.id in CorrelatedIds(snapshots, backups) <==> IsCopyOfSome(snapshots, b)
  {
    if b.id in CorrelatedIds(snapshots, backups) {
      var i, t :| 0 <= i < |snapshots| && t in Correlates(snapshots[i], backups) && t.id == b.id;
      SameId(backups, t, b);
    }
    if IsCopyOfSome(snapshots, b) {
      var i :| 0 <= i < |snapshots| && IsCorrelated(snapshots[i], b);
      assert b in Correlates(snapshots[i], backups);
    }
  }

  lemma IdOfGarbled(backups: seq<Subvolume>, b: Subvolume)
    requires UniqueIds(backups) && b in backups
    ensures b.id in IdsOf(Filter(backups, Garbled())) <==> b.IsGarbled()
  {
    if b.id in IdsOf(Filter(backups, Garbled())) {
      var t :| t in Filter(backups, Garbled()) && t.id == b.id;
      SameId(backups, t, b);
    }
    if b.IsGarbled() {
      assert b in Filter(backups, Garbled());
    }
  }

  /** The backup holds the content of some snapshot. */
  ghost predicate BacksUp(snapshots: seq<Subvolume>, b: Subvolume) {
    exists s :: s in snapshots && SameContent(s, b)
  }

  lemma CopyBacksUp(snapshots: seq<Subvolume>, b: Subvolume)
    ensures IsCopyOfSome(snapshots, b) <==> BacksUp(snapshots, b)
  {
    forall s ensures IsCorrelated(s, b) <==> SameContent(s, b) {
      CorrelatedIsSameContent(s, b);
    }
    if s :| s in snapshots && SameContent(s, b) {
      var i :| 0 <= i < |snapshots| && snapshots[i] == s;
      assert IsCorrelated(snapshots[i], b);
    }
  }

  /** What the three classes of backups are. */
  lemma ClassesAre(snapshots: seq<Subvolume>, backups: seq<Subvolume>, b: Subvolume)
    ensures b in Filter(backups, Garbled()) <==> b in backups && IsIncomplete(b)
    ensures b in Filter(backups, Copies(snapshots)) <==> b in backups && BacksUp(snapshots, b)
    ensures b in Filter(backups, Orphaned(snapshots)) <==>
      b in backups && !IsIncomplete(b) && !BacksUp(snapshots, b)
  {
    CopyBacksUp(snapshots, b);
  }

  /** The orphans are the complete backups that are a copy of no snapshot. */
  lemma OrphansAreReal(snapshots: seq<Subvolume>, backups: seq<Subvolume>)
    requires UniqueIds(backups)
    ensures Filter(backups, OrphanedById(snapshots, backups)) == Filter(backups, Orphaned(snapshots))
    ensures forall b :: b in Filter(backups, OrphanedById(snapshots, backups)) <==>
      b in backups && !IsIncomplete(b) && !BacksUp(snapshots, b)
  {
    forall b ensures b in Filter(backups, Orphaned(snapshots)) <==>
      b in backups && !IsIncomplete(b) && !BacksUp(snapshots, b)
    {
      ClassesAre(snapshots, backups, b);
    }
    forall i | 0 <= i < |backups|
      ensures OrphanedById(snapshots, backups)(backups[i]) == Orphaned(snapshots)(backups[i]) {
      IdOfCopy(snapshots, backups, backups[i]);
      IdOfGarbled(backups, backups[i]);
    }
    FilterSame(backups, OrphanedById(snapshots, backups), Orphaned(snapshots));
  }

  /** Every managed backup is exactly one of correlated, orphaned and incomplete. */
  lemma ThreeWays(snapshots: seq<Subvolume>, backups: seq<Subvolume>)
    ensures multiset(Filter(backups, Copies(snapshots))) + multiset(Filter(backups, Orphaned(snapshots)))
            + multiset(Filter(backups, Garbled())) == multiset(backups)
  {
    var rest := (b: Subvolume) => !IsCopyOfSome(snapshots, b);
    FilterSplitsMultiset(backups, Copies(snapshots), rest);
    var others := Filter(backups, rest);
    forall i | 0 <= i < |others| ensures Orphaned(snapshots)(others[i]) != Garbled()(others[i]) {
      assert others[i] in others;
    }
    FilterSplitsMultiset(others, Orphaned(snapshots), Garbled());
    FilterThrough(backups, rest, Orphaned(snapshots));
    FilterThrough(backups, rest, Garbled());
  }

  lemma {:induction false} CountIds(s: seq<Subvolume>)
    requires UniqueIds(s)
    ensures |IdsOf(s)| == |s|
  {
    if s != [] {
      CountIds(s[1..]);
      assert s[0].id !in IdsOf(s[1..]);
      assert IdsOf(s) == {s[0].id} + IdsOf(s[1..]);
    }
  }

  lemma {:induction false} FilterUniqueIds(s: seq<Subvolume>, p: Subvolume -> bool)
    requires UniqueIds(s)
    ensures UniqueIds(Filter(s, p))
  {
    if s != [] {
      FilterUniqueIds(s[1..], p);
      forall x | x in Filter(s[1..], p) ensures x.id != s[0].id {
        assert x in s[1..];
      }
    }
  }

  /** `stats.backups` counts every managed backup once. */
  lemma StatsCountAll(snapshots: seq<Subvolume>, backups: seq<Subvolume>)
    requires UniqueIds(backups)
    ensures |CorrelatedIds(snapshots, backups)| + |Filter(backups, OrphanedById(snapshots, backups))|
            + |Filter(backups, Garbled())| == |backups|
  {
    var copies := Filter(backups, Copies(snapshots));
    OrphansAreReal(snapshots, backups);
    ThreeWays(snapshots, backups);
    FilterUniqueIds(backups, Copies(snapshots));
    CountIds(copies);
    forall id ensures id in CorrelatedIds(snapshots, backups) <==> id in IdsOf(copies) {
      if id in CorrelatedIds(snapshots, backups) {
        var i, t :| 0 <= i < |snapshots| && t in Correlates(snapshots[i], backups) && t.id == id;
        assert t in copies;
      }
      if id in IdsOf(copies) {
        var t :| t in copies && t.id == id;
        IdOfCopy(snapshots, backups, t);
      }
    }
    assert CorrelatedIds(snapshots, backups) == IdsOf(copies);
    assert |multiset(copies) + multiset(Filter(backups, Orphaned(snapshots))) + multiset(Filter(backups, Garbled()))|
        == |copies| + |Filter(backups, Orphaned(snapshots))| + |Filter(backups, Garbled())|;
  }
}
