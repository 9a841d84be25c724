/**
 Whole runs: the common pair stays the same pair across a prune, the incremental chain is never
 broken by any interleaving of operations and failures, and resuming drains the backlog.
 */
module ServiceRuns {
  import opened Wrappers
  import opened Sequences
  import opened Calendar
  import opened Retention
  import opened Naming
  import opened Model
  import opened Parent
  import opened Safety
  import opened SendCommand
  import opened Service
  import opened ServiceLaws

  // ---------------------------------------------------------------------------
  // The pair after a prune
  // ---------------------------------------------------------------------------

  ghost predicate AllSpared(subvols: seq<Subvolume>, p: Subvolume -> bool, victims: seq<Subvolume>) {
    forall s :: s in subvols && p(s) ==> Spared(s, victims)
  }

  /** One deletion that spares what `p` selects. */
  lemma DeleteOneFilters(subvols: seq<Subvolume>, victims: seq<Subvolume>, p: Subvolume -> bool)
    requires victims != [] && AllSpared(subvols, p, victims)
    ensures
      var left := Filter(subvols, NotAt(victims[0].FullPath()));
      Filter(left, p) == Filter(subvols, p) && AllSpared(left, p, victims[1..])
  {
    assert victims[0] in victims;
    FilterThrough(subvols, NotAt(victims[0].FullPath()), p);
    forall s | s in Filter(subvols, NotAt(victims[0].FullPath())) && p(s) ensures Spared(s, victims[1..]) {
      assert Spared(s, victims);
    }
  }

  lemma {:induction false} DeleteSomeFilters(w: World, victims: seq<Subvolume>, deletes: nat, p: Subvolume -> bool)
    requires AllSpared(w.target, p, victims)
    ensures Filter(DeleteSome(w, victims, deletes).target, p) == Filter(w.target, p)
    decreases victims
  {
    if victims != [] && deletes > 0 {
      DeleteOneFilters(w.target, victims, p);
      DeleteSomeFilters(DeletePath(w, victims[0].FullPath()), victims[1..], deletes - 1, p);
    }
  }

  /** The copies of `s` in the directory, as one filter over the whole filesystem. */
  function CopyIn(dir: Path, s: Subvolume): Subvolume -> bool {
    (t: Subvolume) => InDirectory(dir)(t) && IsCorrelated(s, t)
  }

  lemma {:induction false} CorrelatesInDirectory(s: Subvolume, subvols: seq<Subvolume>, dir: Path)
    ensures Correlates(s, ExistingIn(subvols, dir)) == Filter(subvols, CopyIn(dir, s))
  {
    if subvols != [] {
      CorrelatesInDirectory(s, subvols[1..], dir);
    }
  }

  /** A prune leaves the selected target subvolumes as they were, in order, if its anchors name them. */
  lemma PruneStepKeepsTarget(w: World, all: seq<Subvolume>, deletes: nat, candidates: seq<Subvolume>,
                             policy: RetentionPolicy, ctx: SafetyContext, now: Zoned, p: Subvolume -> bool)
    requires Valid(now.local) && UniquePaths(all) && PartOf(candidates, all) && PartOf(w.target, all)
    requires forall s :: s in w.target && p(s) ==> s.id in ctx.forcePreserveIds || s !in candidates
    ensures Filter(PruneStep(w, deletes, candidates, policy, ctx, now).world.target, p) == Filter(w.target, p)
  {
    var victims := PruneSchedule(candidates, policy, ctx, now).delete;
    forall s | s in w.target && p(s) ensures Spared(s, victims) {
      forall v | v in victims ensures v.FullPath() != s.FullPath() {
        VictimsAreFair(candidates, policy, ctx, now, v);
        if v.FullPath() == s.FullPath() {
          SamePath(all, v, s);
        }
      }
    }
    DeleteSomeFilters(w, victims, deletes, p);
  }

  lemma CopiesAreAnchored(w: World, job: Job, p: Subvolume)
    requires UniquePaths(w.source + w.target)
    ensures
      var snapshots := ExistingIn(w.source, job.source.Directory());
      var backups := ExistingIn(w.target, job.target.Directory());
      forall s :: s in w.target && CopyIn(job.target.Directory(), p)(s)
        ==> s.id in CopyIds(p, backups) && s !in snapshots
  {
    var snapshots := ExistingIn(w.source, job.source.Directory());
    var backups := ExistingIn(w.target, job.target.Directory());
    forall s | s in w.target && CopyIn(job.target.Directory(), p)(s)
      ensures s.id in CopyIds(p, backups) && s !in snapshots {
      assert s in Correlates(p, backups);
      if s in snapshots {
        SourceAndTargetApart(w, s, s);
      }
    }
  }

  lemma PruneBothKeepsTarget(w: World, deletes: nat, job: Job, snapshots: seq<Subvolume>, backups: seq<Subvolume>,
                             q: Subvolume -> bool)
    requires job.Valid() && UniquePaths(w.source + w.target)
    requires PartOf(snapshots, w.source) && PartOf(backups, w.target) && LatestCommon(snapshots, backups).Some?
    requires forall s :: s in w.target && q(s) ==>
      s.id in CopyIds(LatestCommon(snapshots, backups).value, backups) && s !in snapshots
    ensures Filter(PruneBothStep(w, deletes, job, snapshots, backups, {}, {}).world.target, q) == Filter(w.target, q)
  {
    if UniqueUuids(backups) {
      var all := w.source + w.target;
      var p := LatestCommon(snapshots, backups).value;
      var ctxB := SafetyContext({} + CopyIds(p, backups), false);
      var ctxS := SafetyContext({} + {p.id}, snapshots != [] && backups == []);
      var first := PruneStep(w, deletes, backups, job.targetPolicy, ctxB, job.backupsNow);
      PruneStepKeepsTarget(w, all, deletes, backups, job.targetPolicy, ctxB, job.backupsNow, q);
      PruneStepShrinks(w, deletes, backups, job.targetPolicy, ctxB, job.backupsNow);
      PruneStepKeepsTarget(first.world, all, first.deletes, snapshots, job.snapshotPolicy, ctxS, job.snapshotsNow, q);
    }
  }

  /** A prune leaves the copies of the latest common snapshot exactly as they were, in order. */
  lemma CopiesUnchanged(w: World, deletes: nat, job: Job, p: Subvolume)
    requires job.Valid() && UniquePaths(w.source + w.target)
    requires
      var snapshots := ExistingIn(w.source, job.source.Directory());
      var backups := ExistingIn(w.target, job.target.Directory());
      LatestCommon(snapshots, backups) == Some(p)
    ensures
      var dir := job.target.Directory();
      Correlates(p, ExistingIn(PruneOnlyStep(w, deletes, job).world.target, dir))
        == Correlates(p, ExistingIn(w.target, dir))
  {
    var dir := job.target.Directory();
    CorrelatesInDirectory(p, w.target, dir);
    CorrelatesInDirectory(p, PruneOnlyStep(w, deletes, job).world.target, dir);
    CopiesAreAnchored(w, job, p);
    PruneBothKeepsTarget(w, deletes, job, ExistingIn(w.source, job.source.Directory()), ExistingIn(w.target, dir),
      CopyIn(dir, p));
  }

  /**
   After a prune, however many of its deletions happened, the latest common pair is the same pair:
   the same snapshot with the same list of copies.
   */
  lemma PairIsStable(w: World, deletes: nat, job: Job, p: Subvolume)
    requires job.Valid() && UniquePaths(w.source + w.target) && UniqueIds(w.source)
    requires
      var snapshots := ExistingIn(w.source, job.source.Directory());
      var backups := ExistingIn(w.target, job.target.Directory());
      LatestCommon(snapshots, backups) == Some(p)
    ensures
      var w' := PruneOnlyStep(w, deletes, job).world;
      var snapshots' := ExistingIn(w'.source, job.source.Directory());
      var backups' := ExistingIn(w'.target, job.target.Directory());
      && LatestCommon(snapshots', backups') == Some(p)
      && Correlates(p, backups') == Correlates(p, ExistingIn(w.target, job.target.Directory()))
  {
    var snapshots := ExistingIn(w.source, job.source.Directory());
    var backups := ExistingIn(w.target, job.target.Directory());
    var w' := PruneOnlyStep(w, deletes, job).world;
    var snapshots' := ExistingIn(w'.source, job.source.Directory());
    var backups' := ExistingIn(w'.target, job.target.Directory());
    LatestPairSurvives(w, deletes, job, snapshots, backups, {}, {});
    PruneBothShrinks(w, deletes, job, snapshots, backups, {}, {});
    CopiesUnchanged(w, deletes, job, p);
    LatestCommonIsFirst(snapshots, backups);
    LatestCommonIsFirst(snapshots', backups');
    assert p in snapshots';
    var q := LatestCommon(snapshots', backups').value;
    assert q in snapshots && Correlates(q, backups) != [] by {
      var c := Correlates(q, backups')[0];
      assert c in Correlates(q, backups');
      assert c in Correlates(q, backups);
    }
    assert NoOlder(p, q) && NoOlder(q, p);
    SameId(w.source, p, q);
  }

  // ---------------------------------------------------------------------------
  // Continuity of the incremental chain
  // ---------------------------------------------------------------------------

  /** The listing is what a healthy pair of filesystems reports. */
  ghost predicate Healthy(w: World, source: Site) {
    && UniquePaths(w.source + w.target)
    && UniqueIds(w.source) && UniqueIds(w.target)
    && UniqueUuids(w.source) && UniqueUuids(w.target)
    && forall s :: s in w.source ==> s.fsUuid == source.fsUuid
  }

  predicate FreshOn(subvols: seq<Subvolume>, a: Assigned) {
    forall i :: 0 <= i < |subvols| ==> subvols[i].id != a.id && subvols[i].uuid != Some(a.uuid)
  }

  predicate FreshTransfer(w: World, answer: TransferAnswer) {
    match answer
    case Received(a) => FreshOn(w.target, a)
    case Broken(Some(l), _) => FreshOn(w.target, l.made)
    case Broken(None, _) => true
  }

  /** The kernel gives out ids and uuids that are not in use. */
  predicate FreshPorts(w: World, ports: Ports) {
    (!ports.snapshot.Refused? ==> FreshOn(w.source, ports.snapshot.made)) && FreshTransfer(w, ports.transfer)
  }

  /** The directories hold a snapshot and a copy of it. */
  ghost predicate Linked(w: World, source: Site, target: Site) {
    exists s, b :: LinkedBy(w, source, target, s, b)
  }

  predicate LinkedBy(w: World, source: Site, target: Site, s: Subvolume, b: Subvolume) {
    s in ExistingIn(w.source, source.Directory()) && b in ExistingIn(w.target, target.Directory()) && IsCorrelated(s, b)
  }

  datatype Op = Run(ports: Ports, job: Job) | Resume(ports: Ports, job: Job) | Prune(ports: Ports, job: Job)

  ghost function WorldAfter(w: World, op: Op): World
    requires op.job.Valid()
  {
    match op
    case Run(ports, job) => RunStep(w, ports, job).world
    case Resume(ports, job) => ResumeStep(w, ports, job).world
    case Prune(ports, job) => PruneOnlyStep(w, ports.deletes, job).world
  }

  ghost function SentBy(w: World, op: Op): seq<Sent>
    requires op.job.Valid()
  {
    match op
    case Run(ports, job) => RunStep(w, ports, job).sent
    case Resume(ports, job) => ResumeStep(w, ports, job).sent
    case Prune(_, _) => []
  }

  lemma UniquePathsKept(a: seq<Subvolume>, keep: Subvolume -> bool)
    requires UniquePaths(a)
    ensures UniquePaths(Filter(a, keep))
    decreases |a|
  {
    if a != [] {
      assert UniquePaths(a[1..]);
      UniquePathsKept(a[1..], keep);
      var rest := Filter(a[1..], keep);
      forall j | 0 <= j < |rest| ensures rest[j].FullPath() != a[0].FullPath() {
        assert rest[j] in a[1..];
      }
    }
  }

  lemma {:induction false} UniqueIdsKept(a: seq<Subvolume>, keep: Subvolume -> bool)
    requires UniqueIds(a)
    ensures UniqueIds(Filter(a, keep))
  {
    if a != [] {
      assert UniqueIds(a[1..]);
      UniqueIdsKept(a[1..], keep);
      var rest := Filter(a[1..], keep);
      forall j | 0 <= j < |rest| ensures rest[j].id != a[0].id {
        assert rest[j] in a[1..];
      }
    }
  }

  lemma {:induction false} UniqueUuidsKept(a: seq<Subvolume>, keep: Subvolume -> bool)
    requires UniqueUuids(a)
    ensures UniqueUuids(Filter(a, keep))
  {
    if a != [] {
      forall i, j | 0 <= i < j < |a| - 1 && a[1..][i].uuid.Some? ensures a[1..][i].uuid != a[1..][j].uuid {
        assert a[i + 1].uuid != a[j + 1].uuid;
      }
      UniqueUuidsKept(a[1..], keep);
      var rest := Filter(a[1..], keep);
      forall j | 0 <= j < |rest| && a[0].uuid.Some? ensures a[0].uuid != rest[j].uuid {
        assert rest[j] in a[1..];
      }
    }
  }

  lemma FilterHealthy(w: World, keep: Subvolume -> bool, source: Site)
    requires Healthy(w, source)
    ensures Healthy(World(Filter(w.source, keep), Filter(w.target, keep)), source)
  {
    UniquePathsKept(w.source + w.target, keep);
    FilterConcat(w.source, w.target, keep);
    UniqueIdsKept(w.source, keep);
    UniqueIdsKept(w.target, keep);
    UniqueUuidsKept(w.source, keep);
    UniqueUuidsKept(w.target, keep);
  }

  lemma {:induction false} DeleteSomeHealthy(w: World, victims: seq<Subvolume>, deletes: nat, source: Site)
    requires Healthy(w, source)
    ensures Healthy(DeleteSome(w, victims, deletes), source)
    decreases victims
  {
    if victims != [] && deletes > 0 {
      FilterHealthy(w, NotAt(victims[0].FullPath()), source);
      DeleteSomeHealthy(DeletePath(w, victims[0].FullPath()), victims[1..], deletes - 1, source);
    }
  }

  lemma PruneStepHealthy(w: World, deletes: nat, candidates: seq<Subvolume>, policy: RetentionPolicy,
                         ctx: SafetyContext, now: Zoned, source: Site)
    requires Healthy(w, source) && Valid(now.local)
    ensures Healthy(PruneStep(w, deletes, candidates, policy, ctx, now).world, source)
  {
    DeleteSomeHealthy(w, PruneSchedule(candidates, policy, ctx, now).delete, deletes, source);
  }

  lemma PruneBothHealthy(w: World, deletes: nat, job: Job, snapshots: seq<Subvolume>, backups: seq<Subvolume>,
                         sp: set<nat>, bp: set<nat>)
    requires Healthy(w, job.source) && job.Valid()
    ensures Healthy(PruneBothStep(w, deletes, job, snapshots, backups, sp, bp).world, job.source)
  {
    if UniqueUuids(backups) {
      var pair := LatestCommon(snapshots, backups);
      var keepSnapshots := sp + if pair.Some? then {pair.value.id} else {};
      var keepBackups := bp + if pair.Some? then CopyIds(pair.value, backups) else {};
      var aborted := snapshots != [] && backups == [];
      var first := PruneStep(w, deletes, backups, job.targetPolicy, SafetyContext(keepBackups, false), job.backupsNow);
      PruneStepHealthy(w, deletes, backups, job.targetPolicy, SafetyContext(keepBackups, false), job.backupsNow,
                       job.source);
      PruneStepHealthy(first.world, first.deletes, snapshots, job.snapshotPolicy, SafetyContext(keepSnapshots, aborted),
                       job.snapshotsNow, job.source);
    }
  }

  lemma SourceGains(w: World, s: Subvolume, source: Site)
    requires Healthy(w, source) && !TakenOnHost(w, s.FullPath()) && s.fsUuid == source.fsUuid
    requires forall i :: 0 <= i < |w.source| ==> w.source[i].id != s.id && w.source[i].uuid != s.uuid
    ensures Healthy(w.(source := w.source + [s]), source)
  {
    var before, all := w.source + w.target, w.source + [s] + w.target;
    var n := |w.source|;
    forall i, j | 0 <= i < j < |all| ensures all[i].FullPath() != all[j].FullPath() {
      assert i != n ==> all[i] == before[if i < n then i else i - 1] && all[i] in before;
      assert j != n ==> all[j] == before[if j < n then j else j - 1] && all[j] in before;
    }
  }

  lemma CreateStepHealthy(w: World, job: Job, leaf: string, answer: SnapshotAnswer)
    requires Healthy(w, job.source) && (!answer.Refused? ==> FreshOn(w.source, answer.made))
    ensures
      var w' := CreateStep(w, job, leaf, answer).0;
      Healthy(w', job.source) && PartOf(w.source, w'.source) && w'.target == w.target
  {
    var w' := CreateStep(w, job, leaf, answer).0;
    if w' != w {
      SourceGains(w, w'.source[|w.source|], job.source);
    }
  }

  /** Everything that is read-only or was received from somewhere is still there. */
  ghost predicate CompleteKept(w: World, w': World) {
    && (forall s :: s in w.source && (s.readonly || s.receivedUuid.Some?) ==> s in w'.source)
    && (forall s :: s in w.target && (s.readonly || s.receivedUuid.Some?) ==> s in w'.target)
  }

  lemma TargetGains(w: World, b: Subvolume, source: Site)
    requires Healthy(w, source) && !TakenOnHost(w, b.FullPath())
    requires forall i :: 0 <= i < |w.target| ==> w.target[i].id != b.id && w.target[i].uuid != b.uuid
    ensures Healthy(w.(target := w.target + [b]), source)
  {
    var before, all := w.source + w.target, w.source + (w.target + [b]);
    var n := |before|;
    forall i, j | 0 <= i < j < |all| ensures all[i].FullPath() != all[j].FullPath() {
      assert all[i] == before[i] && all[i] in before;
      assert j < n ==> all[j] == before[j];
    }
  }

  lemma TransferStepHealthy(w: World, job: Job, snapshot: Subvolume, answer: TransferAnswer)
    requires Healthy(w, job.source) && FreshTransfer(w, answer)
    ensures
      var (w', r) := TransferStep(w, job, snapshot, answer);
      && Healthy(w', job.source) && CompleteKept(w, w')
      && (r.Ok? ==> w'.source == w.source && PartOf(w.target, w'.target))
  {
    if snapshot.path.FileName().Some? {
      var leaf := snapshot.path.FileName().value;
      var path := job.target.mountpoint.Join(job.target.Entry(leaf));
      if TakenOnHost(w, path) {
        FilterHealthy(w, NotGarbledAt(path), job.source);
      } else if answer.Received? {
        TargetGains(w, NewSubvolume(job.target, leaf, answer.backup, snapshot.uuid, true), job.source);
      } else if answer.leftover.Some? {
        var l := answer.leftover.value;
        TargetGains(w, NewSubvolume(job.target, leaf, l.made, l.receivedUuid, l.readonly), job.source);
      }
    }
  }

  /** A new subvolume lies in the directory it was created in. */
  lemma NewIsInDirectory(site: Site, leaf: string, a: Assigned, receivedUuid: Option<Uuid>, readonly: bool)
    ensures InDirectory(site.Directory())(NewSubvolume(site, leaf, a, receivedUuid, readonly))
  {
    var full := site.mountpoint.parts + (site.dir + [leaf]);
    assert full[..|full| - 1] == site.mountpoint.parts + site.dir;
  }

  ghost predicate LinkedLists(snapshots: seq<Subvolume>, backups: seq<Subvolume>) {
    exists s, b :: s in snapshots && b in backups && IsCorrelated(s, b)
  }

  /** The lists name a latest pair, in the directories. */
  lemma LinkedListsHavePair(w: World, job: Job, snapshots: seq<Subvolume>, backups: seq<Subvolume>)
    returns (p: Subvolume, c: Subvolume)
    requires LinkedLists(snapshots, backups)
    requires PartOf(snapshots, ExistingIn(w.source, job.source.Directory()))
    requires PartOf(backups, ExistingIn(w.target, job.target.Directory()))
    ensures LatestCommon(snapshots, backups) == Some(p) && c in Correlates(p, backups)
    ensures InDirectory(job.source.Directory())(p) && InDirectory(job.target.Directory())(c) && IsCorrelated(p, c)
  {
    var s, b :| s in snapshots && b in backups && IsCorrelated(s, b);
    assert b in Correlates(s, backups);
    LatestCommonIsFirst(snapshots, backups);
    p := LatestCommon(snapshots, backups).value;
    c := Correlates(p, backups)[0];
    assert c in Correlates(p, backups);
    assert p in ExistingIn(w.source, job.source.Directory());
    assert c in ExistingIn(w.target, job.target.Directory());
  }

  /** A prune whose lists hold a snapshot with a copy leaves the directories linked, wherever it stops. */
  lemma PruneBothLinks(w: World, deletes: nat, job: Job, snapshots: seq<Subvolume>, backups: seq<Subvolume>,
                       sp: set<nat>, bp: set<nat>)
    requires job.Valid() && UniquePaths(w.source + w.target) && LinkedLists(snapshots, backups)
    requires PartOf(snapshots, ExistingIn(w.source, job.source.Directory()))
    requires PartOf(backups, ExistingIn(w.target, job.target.Directory()))
    ensures Linked(PruneBothStep(w, deletes, job, snapshots, backups, sp, bp).world, job.source, job.target)
  {
    var p, c := LinkedListsHavePair(w, job, snapshots, backups);
    LatestPairSurvives(w, deletes, job, snapshots, backups, sp, bp);
    assert LinkedBy(PruneBothStep(w, deletes, job, snapshots, backups, sp, bp).world, job.source, job.target, p, c);
  }

  lemma IncludingIsPart(subvols: seq<Subvolume>, s: Subvolume, whole: seq<Subvolume>)
    requires PartOf(subvols, whole) && s in whole
    ensures PartOf(Including(subvols, s), whole) && PartOf(subvols, Including(subvols, s))
  {
  }

  /** The received copy is in the list the prune works on, so the pair just made counts. */
  lemma ReceivedLinks(w: World, job: Job, snapshot: Subvolume, answer: TransferAnswer, backups: seq<Subvolume>,
                      snapshots: seq<Subvolume>)
    requires TransferStep(w, job, snapshot, answer).1.Ok? && answer.Received?
    requires FreshOn(w.target, answer.backup) && PartOf(backups, w.target)
    requires snapshot in snapshots && snapshot.readonly && snapshot.uuid.Some?
    ensures LinkedLists(snapshots, Including(backups, TransferStep(w, job, snapshot, answer).1.value))
  {
    var b := TransferStep(w, job, snapshot, answer).1.value;
    forall i | 0 <= i < |backups| ensures backups[i].id != b.id {
      assert backups[i] in w.target;
    }
    assert b in Including(backups, b);
    assert IsCorrelated(snapshot, b);
  }

  /**
   Send and prune keep the host healthy, keep an existing link, and make one when the transfer of a
   read-only snapshot succeeds.
   */
  lemma {:induction false} SendAndPruneLinks(w: World, ports: Ports, job: Job, snapshot: Subvolume,
                                             snapshots: seq<Subvolume>, backups: seq<Subvolume>, sp: set<nat>)
    requires job.Valid() && Healthy(w, job.source)
    requires FreshTransfer(w, ports.transfer)
    requires PartOf(snapshots, ExistingIn(w.source, job.source.Directory())) && snapshot in snapshots
    requires PartOf(backups, ExistingIn(w.target, job.target.Directory()))
    ensures
      var r := SendAndPrune(w, ports, job, snapshot, snapshots, backups, sp);
      && Healthy(r.world, job.source)
      && (LinkedLists(snapshots, backups) ==> Linked(r.world, job.source, job.target))
      && (r.result.Ok? && snapshot.readonly && snapshot.uuid.Some? ==> Linked(r.world, job.source, job.target))
  {
    if LinkedLists(snapshots, backups) {
      var s, b :| s in snapshots && b in backups && IsCorrelated(s, b);
      assert LinkedBy(w, job.source, job.target, s, b);
    }
    if ParentChoice(job, snapshot, snapshots, backups).Ok? {
      var (w', received) := TransferStep(w, job, snapshot, ports.transfer);
      if received.Ok? {
        PruneAfterReceive(w, ports, job, snapshot, snapshots, backups, sp);
      } else {
        FailedTransferLinks(w, ports, job, snapshot, snapshots, backups);
      }
    }
  }

  /** A transfer that failed, whatever it left behind. */
  lemma FailedTransferLinks(w: World, ports: Ports, job: Job, snapshot: Subvolume, snapshots: seq<Subvolume>,
                            backups: seq<Subvolume>)
    requires Healthy(w, job.source) && FreshTransfer(w, ports.transfer)
    requires PartOf(snapshots, ExistingIn(w.source, job.source.Directory()))
    requires PartOf(backups, ExistingIn(w.target, job.target.Directory()))
    ensures
      var (w', _) := TransferStep(w, job, snapshot, ports.transfer);
      Healthy(w', job.source) && (LinkedLists(snapshots, backups) ==> Linked(w', job.source, job.target))
  {
    var (w', _) := TransferStep(w, job, snapshot, ports.transfer);
    TransferStepHealthy(w, job, snapshot, ports.transfer);
    if LinkedLists(snapshots, backups) {
      TransferKeepsLink(w, w', job, snapshots, backups);
    }
  }

  /** The prune that follows a successful transfer. */
  lemma PruneAfterReceive(w: World, ports: Ports, job: Job, snapshot: Subvolume, snapshots: seq<Subvolume>,
                          backups: seq<Subvolume>, sp: set<nat>)
    requires job.Valid() && Healthy(w, job.source) && FreshTransfer(w, ports.transfer)
    requires PartOf(snapshots, ExistingIn(w.source, job.source.Directory())) && snapshot in snapshots
    requires PartOf(backups, ExistingIn(w.target, job.target.Directory()))
    requires TransferStep(w, job, snapshot, ports.transfer).1.Ok?
    ensures
      var (w', received) := TransferStep(w, job, snapshot, ports.transfer);
      var b := received.value;
      var after := PruneBothStep(w', ports.deletes, job, snapshots, Including(backups, b), sp, {b.id}).world;
      && Healthy(after, job.source)
      && (LinkedLists(snapshots, backups) || (snapshot.readonly && snapshot.uuid.Some?)
          ==> Linked(after, job.source, job.target))
  {
    var (w', received) := TransferStep(w, job, snapshot, ports.transfer);
    var list := Including(backups, received.value);
    TransferStepHealthy(w, job, snapshot, ports.transfer);
    NewIsInDirectory(job.target, snapshot.path.FileName().value, ports.transfer.backup, snapshot.uuid, true);
    IncludingIsPart(backups, received.value, ExistingIn(w'.target, job.target.Directory()));
    if snapshot.readonly && snapshot.uuid.Some? {
      ReceivedLinks(w, job, snapshot, ports.transfer, backups, snapshots);
    }
    PruneKeepsBoth(w', ports.deletes, job, snapshots, list, sp, {received.value.id});
  }

  /** The prune of both sides keeps the host healthy and keeps a link of the lists it works on. */
  lemma PruneKeepsBoth(w: World, deletes: nat, job: Job, snapshots: seq<Subvolume>, backups: seq<Subvolume>,
                       sp: set<nat>, bp: set<nat>)
    requires job.Valid() && Healthy(w, job.source)
    requires PartOf(snapshots, ExistingIn(w.source, job.source.Directory()))
    requires PartOf(backups, ExistingIn(w.target, job.target.Directory()))
    ensures
      var w' := PruneBothStep(w, deletes, job, snapshots, backups, sp, bp).world;
      Healthy(w', job.source) && (LinkedLists(snapshots, backups) ==> Linked(w', job.source, job.target))
  {
    PruneBothHealthy(w, deletes, job, snapshots, backups, sp, bp);
    if LinkedLists(snapshots, backups) {
      PruneBothLinks(w, deletes, job, snapshots, backups, sp, bp);
    }
  }

  /** A link is between read-only subvolumes, so no transfer breaks it. */
  lemma TransferKeepsLink(w: World, w': World, job: Job, snapshots: seq<Subvolume>, backups: seq<Subvolume>)
    requires CompleteKept(w, w') && LinkedLists(snapshots, backups)
    requires PartOf(backups, ExistingIn(w.target, job.target.Directory()))
    requires PartOf(snapshots, ExistingIn(w.source, job.source.Directory()))
    ensures Linked(w', job.source, job.target)
  {
    var s, b :| s in snapshots && b in backups && IsCorrelated(s, b);
    assert LinkedBy(w', job.source, job.target, s, b);
  }

  /**
   A transfer made in mode `Yes` on these lists: relative to the best parent, with all others as clone
   sources, and the command line says so.
   */
  ghost predicate SentWell(x: Sent, snapshots: seq<Subvolume>, backups: seq<Subvolume>) {
    WellChosen(x.selection, x.snapshot, snapshots, backups, Yes) && Requests(x.command, x.snapshot, x.selection)
  }

  /** In mode `Yes`, another snapshot of the list that has a copy makes the send incremental. */
  lemma LinkedHasParent(job: Job, snapshot: Subvolume, snapshots: seq<Subvolume>, backups: seq<Subvolume>,
                        s: Subvolume, b: Subvolume)
    requires job.mode == Yes && UniqueUuids(snapshots) && UniqueUuids(backups)
    requires s in snapshots && b in backups && IsCorrelated(s, b)
    requires s.id != snapshot.id && s.fsUuid == snapshot.fsUuid
    ensures ParentChoice(job, snapshot, snapshots, backups).Ok?
    ensures WellChosen(ParentChoice(job, snapshot, snapshots, backups).value, snapshot, snapshots, backups, Yes)
  {
    CorrelatedIsSameContent(s, b);
    assert MayServe(s, snapshot, snapshots, backups, Yes);
    ChoiceAnswers(snapshot, snapshots, backups, Yes);
  }

  /** The operation is for this pair of directories and the kernel's answers are fresh. */
  ghost predicate Plausible(w: World, op: Op, source: Site, target: Site) {
    op.job.Valid() && op.job.source == source && op.job.target == target && FreshPorts(w, op.ports)
  }

  /** The lists a run works on once its snapshot exists. */
  lemma RunLists(w: World, ports: Ports, job: Job)
    requires job.Valid() && Healthy(w, job.source) && FreshPorts(w, ports)
    requires CreateStep(w, job, SnapshotLeaf(w, job), ports.snapshot).1.Ok?
    ensures
      var (w', created) := CreateStep(w, job, SnapshotLeaf(w, job), ports.snapshot);
      var snapshots := ExistingIn(w'.source, job.source.Directory());
      && Healthy(w', job.source) && w'.target == w.target
      && created.value in snapshots && PartOf(ExistingIn(w.source, job.source.Directory()), snapshots)
      && Including(snapshots, created.value) == snapshots
      && created.value.readonly && created.value.uuid.Some? && created.value.fsUuid == job.source.fsUuid
      && (forall s :: s in w.source ==> s.id != created.value.id)
  {
    var leaf := SnapshotLeaf(w, job);
    CreateStepHealthy(w, job, leaf, ports.snapshot);
    NewIsInDirectory(job.source, leaf, ports.snapshot.made, None, true);
    var (w', created) := CreateStep(w, job, leaf, ports.snapshot);
    assert created.value in w'.source;
  }

  /** The snapshot step alone keeps a link, whether or not it is confirmed. */
  lemma CreateKeepsLink(w: World, ports: Ports, job: Job)
    requires job.Valid() && Healthy(w, job.source) && FreshPorts(w, ports) && Linked(w, job.source, job.target)
    ensures
      var w' := CreateStep(w, job, SnapshotLeaf(w, job), ports.snapshot).0;
      Linked(w', job.source, job.target)
      && LinkedLists(ExistingIn(w'.source, job.source.Directory()), ExistingIn(w'.target, job.target.Directory()))
  {
    var w' := CreateStep(w, job, SnapshotLeaf(w, job), ports.snapshot).0;
    CreateStepHealthy(w, job, SnapshotLeaf(w, job), ports.snapshot);
    var s, b :| LinkedBy(w, job.source, job.target, s, b);
    assert LinkedBy(w', job.source, job.target, s, b);
  }

  /** Once its snapshot exists a run is a send of it. */
  lemma RunIsSend(w: World, ports: Ports, job: Job, w': World, snapshot: Subvolume)
    requires job.Valid() && CreateStep(w, job, SnapshotLeaf(w, job), ports.snapshot) == (w', Ok(snapshot))
    requires Including(ExistingIn(w'.source, job.source.Directory()), snapshot)
      == ExistingIn(w'.source, job.source.Directory())
    ensures
      RunStep(w, ports, job)
      == SendAndPrune(w', ports, job, snapshot, ExistingIn(w'.source, job.source.Directory()),
                      ExistingIn(w'.target, job.target.Directory()), {snapshot.id})
  {
  }

  lemma CreatedRunLinks(w: World, ports: Ports, job: Job)
    requires job.Valid() && Healthy(w, job.source) && FreshPorts(w, ports)
    requires CreateStep(w, job, SnapshotLeaf(w, job), ports.snapshot).1.Ok?
    ensures
      var r := RunStep(w, ports, job);
      && Healthy(r.world, job.source)
      && (Linked(w, job.source, job.target) ==> Linked(r.world, job.source, job.target))
      && (r.result.Ok? ==> Linked(r.world, job.source, job.target))
  {
    var (w', created) := CreateStep(w, job, SnapshotLeaf(w, job), ports.snapshot);
    RunLists(w, ports, job);
    var snapshots := ExistingIn(w'.source, job.source.Directory());
    var backups := ExistingIn(w'.target, job.target.Directory());
    RunIsSend(w, ports, job, w', created.value);
    SendAndPruneLinks(w', ports, job, created.value, snapshots, backups, {created.value.id});
    if Linked(w, job.source, job.target) {
      CreateKeepsLink(w, ports, job);
    }
  }

  lemma RunLinks(w: World, ports: Ports, job: Job)
    requires job.Valid() && Healthy(w, job.source) && FreshPorts(w, ports)
    ensures
      var r := RunStep(w, ports, job);
      && Healthy(r.world, job.source)
      && (Linked(w, job.source, job.target) ==> Linked(r.world, job.source, job.target))
      && (r.result.Ok? ==> Linked(r.world, job.source, job.target))
  {
    if CreateStep(w, job, SnapshotLeaf(w, job), ports.snapshot).1.Ok? {
      CreatedRunLinks(w, ports, job);
    } else {
      CreateStepHealthy(w, job, SnapshotLeaf(w, job), ports.snapshot);
      if Linked(w, job.source, job.target) {
        CreateKeepsLink(w, ports, job);
      }
    }
  }

  lemma CreatedHasParent(w: World, ports: Ports, job: Job)
    requires job.Valid() && Healthy(w, job.source) && FreshPorts(w, ports)
    requires Linked(w, job.source, job.target) && job.mode == Yes
    requires CreateStep(w, job, SnapshotLeaf(w, job), ports.snapshot).1.Ok?
    ensures
      var (w', created) := CreateStep(w, job, SnapshotLeaf(w, job), ports.snapshot);
      var snapshots := ExistingIn(w'.source, job.source.Directory());
      var backups := ExistingIn(w'.target, job.target.Directory());
      var choice := ParentChoice(job, created.value, snapshots, backups);
      choice.Ok? && WellChosen(choice.value, created.value, snapshots, backups, Yes)
  {
    var (w', created) := CreateStep(w, job, SnapshotLeaf(w, job), ports.snapshot);
    RunLists(w, ports, job);
    var snapshots := ExistingIn(w'.source, job.source.Directory());
    var backups := ExistingIn(w'.target, job.target.Directory());
    var s, b :| LinkedBy(w, job.source, job.target, s, b);
    assert s in snapshots && b in backups;
    UniqueUuidsKept(w'.source, InDirectory(job.source.Directory()));
    UniqueUuidsKept(w'.target, InDirectory(job.target.Directory()));
    LinkedHasParent(job, created.value, snapshots, backups, s, b);
  }

  /** The lists a run in mode `Yes` sent its snapshot by, and that it was sent well. */
  ghost predicate RunSent(w: World, ports: Ports, job: Job)
    requires job.Valid()
  {
    var (w', created) := CreateStep(w, job, SnapshotLeaf(w, job), ports.snapshot);
    var sent := RunStep(w, ports, job).sent;
    if created.Err? then sent == []
    else
      && |sent| == 1 && sent[0].snapshot == created.value
      && SentWell(sent[0], ExistingIn(w'.source, job.source.Directory()),
                  ExistingIn(w'.target, job.target.Directory()))
  }

  /**
   On linked directories a run in mode `Yes` sends its snapshot relative to the best of the other listed
   snapshots with a copy, and with all the rest of them as clone sources, whatever happens afterwards.
   */
  lemma RunSendsIncrementally(w: World, ports: Ports, job: Job)
    requires job.Valid() && Healthy(w, job.source) && FreshPorts(w, ports)
    requires Linked(w, job.source, job.target) && job.mode == Yes
    ensures RunSent(w, ports, job)
  {
    var (w', created) := CreateStep(w, job, SnapshotLeaf(w, job), ports.snapshot);
    if created.Ok? {
      RunLists(w, ports, job);
      RunIsSend(w, ports, job, w', created.value);
      CreatedHasParent(w, ports, job);
      ChoiceIsSent(w', ports, job, created.value, ExistingIn(w'.source, job.source.Directory()),
                   ExistingIn(w'.target, job.target.Directory()), {created.value.id});
    }
  }

  lemma ResumeLinks(w: World, ports: Ports, job: Job)
    requires job.Valid() && Healthy(w, job.source) && FreshPorts(w, ports)
    ensures
      var r := ResumeStep(w, ports, job);
      && Healthy(r.world, job.source)
      && (Linked(w, job.source, job.target) ==> Linked(r.world, job.source, job.target))
  {
    var snapshots := ExistingIn(w.source, job.source.Directory());
    var backups := ExistingIn(w.target, job.target.Directory());
    if Linked(w, job.source, job.target) {
      var s, b :| LinkedBy(w, job.source, job.target, s, b);
      assert LinkedLists(snapshots, backups);
    }
    if UniqueUuids(backups) {
      match Due(snapshots, backups, job.basename) {
        case None =>
          PruneBothHealthy(w, ports.deletes, job, snapshots, backups, {}, {});
          if LinkedLists(snapshots, backups) {
            PruneBothLinks(w, ports.deletes, job, snapshots, backups, {}, {});
          }
        case Some(snapshot) =>
          SendAndPruneLinks(w, ports, job, snapshot, snapshots, backups, {});
      }
    }
  }

  /** What a send logs is decided before anything is transferred. */
  lemma SentIsTheChoice(w: World, ports: Ports, job: Job, snapshot: Subvolume, snapshots: seq<Subvolume>,
                        backups: seq<Subvolume>, sp: set<nat>)
    requires job.Valid()
    ensures SendAndPrune(w, ports, job, snapshot, snapshots, backups, sp).sent
         == match ParentChoice(job, snapshot, snapshots, backups)
            case Err(_) => []
            case Ok(selection) => [Sent(snapshot, selection, SendArgs(snapshot, selection))]
    ensures forall x :: x in SendAndPrune(w, ports, job, snapshot, snapshots, backups, sp).sent ==>
      Requests(x.command, x.snapshot, x.selection)
  {
    if ParentChoice(job, snapshot, snapshots, backups).Ok? {
      SendArgsSay(snapshot, ParentChoice(job, snapshot, snapshots, backups).value);
    }
  }

  lemma ResumeSent(w: World, ports: Ports, job: Job)
    requires job.Valid()
    ensures
      var snapshots := ExistingIn(w.source, job.source.Directory());
      var backups := ExistingIn(w.target, job.target.Directory());
      var due := Due(snapshots, backups, job.basename);
      ResumeStep(w, ports, job).sent
        == if !UniqueUuids(backups) || due.None? then []
           else SendAndPrune(w, ports, job, due.value, snapshots, backups, {}).sent
  {
  }

  lemma ResumeSendsNone(w: World, ports: Ports, job: Job, snapshots: seq<Subvolume>, backups: seq<Subvolume>)
    requires job.Valid()
    requires snapshots == ExistingIn(w.source, job.source.Directory())
    requires backups == ExistingIn(w.target, job.target.Directory())
    requires !UniqueUuids(backups) || Due(snapshots, backups, job.basename).None?
    ensures ResumeStep(w, ports, job).sent == []
  {
    ResumeSent(w, ports, job);
  }

  /** A send whose choice is well made sends well. */
  lemma ChoiceIsSent(w: World, ports: Ports, job: Job, snapshot: Subvolume, snapshots: seq<Subvolume>,
                     backups: seq<Subvolume>, sp: set<nat>)
    requires job.Valid()
    requires
      var choice := ParentChoice(job, snapshot, snapshots, backups);
      choice.Ok? && WellChosen(choice.value, snapshot, snapshots, backups, Yes)
    ensures
      var sent := SendAndPrune(w, ports, job, snapshot, snapshots, backups, sp).sent;
      |sent| == 1 && sent[0].snapshot == snapshot && SentWell(sent[0], snapshots, backups)
  {
    SentIsTheChoice(w, ports, job, snapshot, snapshots, backups, sp);
  }

  /** What a resume sends with something due is what the send of it sends. */
  lemma ResumeSendsDue(w: World, ports: Ports, job: Job, due: Subvolume)
    requires job.Valid()
    requires
      var snapshots := ExistingIn(w.source, job.source.Directory());
      var backups := ExistingIn(w.target, job.target.Directory());
      UniqueUuids(backups) && Due(snapshots, backups, job.basename) == Some(due)
    ensures ResumeStep(w, ports, job).sent
      == SendAndPrune(w, ports, job, due, ExistingIn(w.source, job.source.Directory()),
                      ExistingIn(w.target, job.target.Directory()), {}).sent
  {
    ResumeSent(w, ports, job);
  }

  /** A resume in mode `Yes` sent nothing, or one snapshot and that well. */
  ghost predicate ResumeSentWell(w: World, ports: Ports, job: Job)
    requires job.Valid()
  {
    var sent := ResumeStep(w, ports, job).sent;
    || sent == []
    || (|sent| == 1 && SentWell(sent[0], ExistingIn(w.source, job.source.Directory()),
                                ExistingIn(w.target, job.target.Directory())))
  }

  /** So does a resume. */
  lemma {:induction false} ResumeSendsIncrementally(w: World, ports: Ports, job: Job)
    requires job.Valid() && Healthy(w, job.source) && Linked(w, job.source, job.target) && job.mode == Yes
    ensures ResumeSentWell(w, ports, job)
  {
    var snapshots := ExistingIn(w.source, job.source.Directory());
    var backups := ExistingIn(w.target, job.target.Directory());
    if UniqueUuids(backups) && Due(snapshots, backups, job.basename).Some? {
      var due := Due(snapshots, backups, job.basename).value;
      DueHasParent(w, job, due);
      ResumeSendsDue(w, ports, job, due);
      ChoiceIsSent(w, ports, job, due, snapshots, backups, {});
    } else {
      ResumeSendsNone(w, ports, job, snapshots, backups);
    }
  }

  lemma DueHasParent(w: World, job: Job, due: Subvolume)
    requires Healthy(w, job.source) && Linked(w, job.source, job.target) && job.mode == Yes
    requires
      Due(ExistingIn(w.source, job.source.Directory()), ExistingIn(w.target, job.target.Directory()), job.basename)
        == Some(due)
    ensures
      var snapshots := ExistingIn(w.source, job.source.Directory());
      var backups := ExistingIn(w.target, job.target.Directory());
      var choice := ParentChoice(job, due, snapshots, backups);
      choice.Ok? && WellChosen(choice.value, due, snapshots, backups, Yes)
  {
    var snapshots := ExistingIn(w.source, job.source.Directory());
    var backups := ExistingIn(w.target, job.target.Directory());
    UniqueUuidsKept(w.source, InDirectory(job.source.Directory()));
    UniqueUuidsKept(w.target, InDirectory(job.target.Directory()));
    DueIsFirst(snapshots, backups, job.basename);
    var s, b :| LinkedBy(w, job.source, job.target, s, b);
    assert b in Correlates(s, backups);
    DifferentIds(w.source, s, due);
    LinkedHasParent(job, due, snapshots, backups, s, b);
  }

  lemma DifferentIds(all: seq<Subvolume>, a: Subvolume, b: Subvolume)
    requires UniqueIds(all) && a in all && b in all && a != b
    ensures a.id != b.id
  {
  }

  lemma DueIsFirst(snapshots: seq<Subvolume>, backups: seq<Subvolume>, basename: string)
    requires Due(snapshots, backups, basename).Some?
    ensures
      var due := Due(snapshots, backups, basename).value;
      due in snapshots && NameBasename(due) == Some(basename) && Correlates(due, backups) == []
  {
    var waiting := Filter(snapshots, NeedsCopy(basename, backups));
    assert Due(snapshots, backups, basename).value in waiting;
  }

  /** The name says that the subvolume is a snapshot of `basename`. */
  predicate IsOf(s: Subvolume, basename: string) {
    && s.path.parts != [] && s.path.parts[|s.path.parts| - 1] != ".."
    && ParseName(s.path.parts[|s.path.parts| - 1]).Some?
    && ParseName(s.path.parts[|s.path.parts| - 1]).value.basename == basename
  }

  ghost predicate Waits(s: Subvolume, snapshots: seq<Subvolume>, backups: seq<Subvolume>, basename: string) {
    s in snapshots && IsOf(s, basename) && !HasCopy(s, backups)
  }

  lemma {:induction false} NeedsCopyMeans(s: Subvolume, basename: string, backups: seq<Subvolume>)
    ensures NeedsCopy(basename, backups)(s) <==> IsOf(s, basename) && !HasCopy(s, backups)
  {
    CorrelatesAreCopies(s, backups);
  }

  /** What a resume sends is the newest snapshot of the basename without a copy, if there is one. */
  lemma {:induction false} DueWaits(snapshots: seq<Subvolume>, backups: seq<Subvolume>, basename: string)
    ensures
      match Due(snapshots, backups, basename)
      case None => forall s :: !Waits(s, snapshots, backups, basename)
      case Some(due) =>
        && Waits(due, snapshots, backups, basename)
        && forall s :: Waits(s, snapshots, backups, basename) ==> NoOlder(due, s)
  {
    forall s
      ensures s in Filter(snapshots, NeedsCopy(basename, backups)) <==> Waits(s, snapshots, backups, basename)
    {
      NeedsCopyMeans(s, basename, backups);
    }
  }

  /** The snapshot and the backup a send just made survive the prune that follows. */
  lemma SendLeavesBoth(w: World, ports: Ports, job: Job, snapshot: Subvolume, snapshots: seq<Subvolume>,
                       backups: seq<Subvolume>)
    requires job.Valid() && Healthy(w, job.source) && FreshTransfer(w, ports.transfer)
    requires PartOf(snapshots, w.source) && PartOf(backups, w.target) && snapshot in w.source
    requires SendAndPrune(w, ports, job, snapshot, snapshots, backups, {snapshot.id}).result.Ok?
    ensures
      var r := SendAndPrune(w, ports, job, snapshot, snapshots, backups, {snapshot.id});
      && r.result.value.snapshot == snapshot && snapshot in r.world.source
      && r.result.value.backup in r.world.target && r.result.value.backup.receivedUuid == snapshot.uuid
  {
    var (w', received) := TransferStep(w, job, snapshot, ports.transfer);
    TransferStepHealthy(w, job, snapshot, ports.transfer);
    var b := received.value;
    var list := Including(backups, b);
    assert b in w'.target;
    SeedsSurvive(w', ports.deletes, job, snapshots, list, snapshot, b);
  }

  lemma SeedsSurvive(w: World, deletes: nat, job: Job, snapshots: seq<Subvolume>, backups: seq<Subvolume>,
                     s: Subvolume, b: Subvolume)
    requires job.Valid() && UniquePaths(w.source + w.target)
    requires PartOf(snapshots, w.source) && PartOf(backups, w.target) && s in w.source && b in w.target
    ensures
      var r := PruneBothStep(w, deletes, job, snapshots, backups, {s.id}, {b.id});
      s in r.world.source && b in r.world.target
  {
    if s in backups {
      SourceAndTargetApart(w, s, s);
    }
    if b in snapshots {
      SourceAndTargetApart(w, b, b);
    }
    PruneBothSpares(w, deletes, job, snapshots, backups, {s.id}, {b.id}, s);
    PruneBothSpares(w, deletes, job, snapshots, backups, {s.id}, {b.id}, b);
  }

  /** A run that reports success leaves its snapshot on the source and its backup on the target. */
  lemma RunLeavesBoth(w: World, ports: Ports, job: Job)
    requires job.Valid() && Healthy(w, job.source) && FreshPorts(w, ports) && RunStep(w, ports, job).result.Ok?
    ensures
      var r := RunStep(w, ports, job);
      && r.result.value.snapshot in r.world.source && r.result.value.snapshot !in w.source
      && r.result.value.backup in r.world.target
      && r.result.value.backup.receivedUuid == r.result.value.snapshot.uuid
  {
    var (w', created) := CreateStep(w, job, SnapshotLeaf(w, job), ports.snapshot);
    RunLists(w, ports, job);
    RunIsSend(w, ports, job, w', created.value);
    SendLeavesBoth(w', ports, job, created.value, ExistingIn(w'.source, job.source.Directory()),
                   ExistingIn(w'.target, job.target.Directory()));
  }

  lemma PruneOnlyLinks(w: World, deletes: nat, job: Job)
    requires job.Valid() && Healthy(w, job.source)
    ensures
      var r := PruneOnlyStep(w, deletes, job);
      Healthy(r.world, job.source) && (Linked(w, job.source, job.target) ==> Linked(r.world, job.source, job.target))
  {
    var snapshots := ExistingIn(w.source, job.source.Directory());
    var backups := ExistingIn(w.target, job.target.Directory());
    PruneBothHealthy(w, deletes, job, snapshots, backups, {}, {});
    if Linked(w, job.source, job.target) {
      var s, b :| LinkedBy(w, job.source, job.target, s, b);
      assert LinkedLists(snapshots, backups);
      PruneBothLinks(w, deletes, job, snapshots, backups, {}, {});
    }
  }

  lemma OpLinks(w: World, op: Op, source: Site, target: Site)
    requires Healthy(w, source) && Plausible(w, op, source, target)
    ensures Healthy(WorldAfter(w, op), source)
    ensures Linked(w, source, target) ==> Linked(WorldAfter(w, op), source, target)
    ensures Linked(w, source, target) && op.job.mode == Yes ==> OpSent(w, op)
  {
    match op {
      case Run(ports, job) => RunLinks(w, ports, job);
      case Resume(ports, job) => ResumeLinks(w, ports, job);
      case Prune(ports, job) => PruneOnlyLinks(w, ports.deletes, job);
    }
    if Linked(w, source, target) && op.job.mode == Yes {
      OpSendsIncrementally(w, op, source, target);
    }
  }

  /** What an operation in mode `Yes` sent, it sent well. */
  ghost predicate OpSent(w: World, op: Op)
    requires op.job.Valid()
  {
    match op
    case Run(ports, job) => RunSent(w, ports, job)
    case Resume(ports, job) => ResumeSentWell(w, ports, job)
    case Prune(_, _) => SentBy(w, op) == []
  }

  lemma OpSendsIncrementally(w: World, op: Op, source: Site, target: Site)
    requires Healthy(w, source) && Plausible(w, op, source, target) && Linked(w, source, target) && op.job.mode == Yes
    ensures OpSent(w, op)
  {
    match op {
      case Run(ports, job) => RunSendsIncrementally(w, ports, job);
      case Resume(ports, job) => ResumeSendsIncrementally(w, ports, job);
      case Prune(_, _) =>
    }
  }

  /** The operations happen one after the other, each with answers that are fresh at its time. */
  ghost predicate PlausibleRun(w: World, ops: seq<Op>, source: Site, target: Site)
    decreases ops
  {
    ops == [] || (Plausible(w, ops[0], source, target) && PlausibleRun(WorldAfter(w, ops[0]), ops[1..], source, target))
  }

  ghost function After(w: World, ops: seq<Op>, source: Site, target: Site): World
    requires PlausibleRun(w, ops, source, target)
    decreases ops
  {
    if ops == [] then w else After(WorldAfter(w, ops[0]), ops[1..], source, target)
  }

  lemma {:induction false} LinkedForever(w: World, ops: seq<Op>, source: Site, target: Site)
    requires Healthy(w, source) && Linked(w, source, target) && PlausibleRun(w, ops, source, target)
    ensures Healthy(After(w, ops, source, target), source) && Linked(After(w, ops, source, target), source, target)
    decreases ops
  {
    if ops != [] {
      OpLinks(w, ops[0], source, target);
      LinkedForever(WorldAfter(w, ops[0]), ops[1..], source, target);
    }
  }

  /**
   Once one run has succeeded, after any interleaving of runs, resumes and prunes, with any policies
   and any failures, the next run or resume in mode `Yes` sends what it sends relative to the best of the
   listed snapshots with a copy, and with all others of them as clone sources.
   */
  lemma ChainContinuity(w: World, first: Op, ops: seq<Op>, next: Op, source: Site, target: Site)
    requires Healthy(w, source) && Plausible(w, first, source, target)
    requires first.Run? && RunStep(w, first.ports, first.job).result.Ok?
    requires PlausibleRun(WorldAfter(w, first), ops, source, target)
    requires Plausible(After(WorldAfter(w, first), ops, source, target), next, source, target)
    requires next.job.mode == Yes
    ensures OpSent(After(WorldAfter(w, first), ops, source, target), next)
  {
    RunLinks(w, first.ports, first.job);
    LinkedForever(WorldAfter(w, first), ops, source, target);
    OpSendsIncrementally(After(WorldAfter(w, first), ops, source, target), next, source, target);
  }
}
