/**
 What the orchestration guarantees over single operations, every failure point, and whole runs.
 The environment is assumed to give subvolumes unique ids, uuids and paths.
 */
module ServiceLaws {
  import opened Wrappers
  import opened Calendar
  import opened Retention
  import opened Naming
  import opened Model
  import opened Parent
  import opened Safety
  import opened Service

  predicate UniquePaths(s: seq<Subvolume>) {
    forall i, j :: 0 <= i < j < |s| ==> s[i].FullPath() != s[j].FullPath()
  }

  ghost predicate PartOf(part: seq<Subvolume>, whole: seq<Subvolume>) {
    forall s :: s in part ==> s in whole
  }

  // ---------------------------------------------------------------------------
  // What a prune can delete
  // ---------------------------------------------------------------------------

  /** A scheduled deletion is a candidate with a parsable name that no anchor protects. */
  lemma VictimsAreFair(candidates: seq<Subvolume>, policy: RetentionPolicy, ctx: SafetyContext, now: Zoned,
                       v: Subvolume)
    requires Valid(now.local) && v in PruneSchedule(candidates, policy, ctx, now).delete
    ensures v in candidates && v.id !in ctx.forcePreserveIds && !ctx.targetAborted
    ensures DatedEntryOf(v, now.offset).Some? && policy.preserveMin != KeepAll
  {
    var entries := DatedEntries(candidates, now.offset);
    SortKeepsValid(entries);
    var es := SortEntries(entries);
    var d := AllDeltas(es, now.local, policy);
    var verdict := Verdict(es, policy, now.local);
    EnforceIsMonotone(verdict, ctx);
    assert v in verdict.delete;
    var k := DeletedIndex(es, Flags(policy, d), v);
    assert es[k] in multiset(entries);
    assert !Kept(policy, d, k);
  }

  lemma {:induction false} DeletedIndex<T>(es: seq<DatedEntry<T>>, flags: seq<bool>, v: T) returns (k: nat)
    requires |es| == |flags| && v in Select(es, flags, false)
    ensures k < |es| && es[k].payload == v && !flags[k]
  {
    if !flags[0] && es[0].payload == v {
      k := 0;
    } else {
      k := DeletedIndex(es[1..], flags[1..], v);
      k := k + 1;
    }
  }

  ghost predicate Spared(s: Subvolume, victims: seq<Subvolume>) {
    forall v :: v in victims ==> v.FullPath() != s.FullPath()
  }

  /** The delete loop removes nothing but its victims, wherever it stops. */
  lemma {:induction false} DeleteSomeSpares(w: World, victims: seq<Subvolume>, deletes: nat, s: Subvolume)
    requires Spared(s, victims)
    ensures s in w.source ==> s in DeleteSome(w, victims, deletes).source
    ensures s in w.target ==> s in DeleteSome(w, victims, deletes).target
    decreases victims
  {
    if victims != [] && deletes > 0 {
      assert victims[0] in victims;
      assert Spared(s, victims[1..]);
      DeleteSomeSpares(DeletePath(w, victims[0].FullPath()), victims[1..], deletes - 1, s);
    }
  }

  lemma {:induction false} DeleteSomeShrinks(w: World, victims: seq<Subvolume>, deletes: nat)
    ensures PartOf(DeleteSome(w, victims, deletes).source, w.source)
    ensures PartOf(DeleteSome(w, victims, deletes).target, w.target)
    decreases victims
  {
    if victims != [] && deletes > 0 {
      DeleteSomeShrinks(DeletePath(w, victims[0].FullPath()), victims[1..], deletes - 1);
    }
  }

  lemma SamePath(all: seq<Subvolume>, a: Subvolume, b: Subvolume)
    requires UniquePaths(all) && a in all && b in all && a.FullPath() == b.FullPath()
    ensures a == b
  {
  }

  /** Named by the anchors, not a candidate, or not to be deleted for a reason that needs no anchor. */
  predicate Exempt(candidates: seq<Subvolume>, policy: RetentionPolicy, ctx: SafetyContext, now: Zoned, s: Subvolume) {
    s.id in ctx.forcePreserveIds || s !in candidates || ctx.targetAborted || policy.preserveMin == KeepAll
    || DatedEntryOf(s, now.offset).None?
  }

  predicate In(w: World, s: Subvolume, w': World) {
    (s in w.source ==> s in w'.source) && (s in w.target ==> s in w'.target)
  }

  /** One side's prune spares everything its anchors name, and everything that is not a candidate. */
  lemma PruneStepSpares(w: World, all: seq<Subvolume>, deletes: nat, candidates: seq<Subvolume>,
                        policy: RetentionPolicy, ctx: SafetyContext, now: Zoned, s: Subvolume)
    requires Valid(now.local) && UniquePaths(all) && PartOf(candidates, all) && s in all
    requires Exempt(candidates, policy, ctx, now, s)
    ensures In(w, s, PruneStep(w, deletes, candidates, policy, ctx, now).world)
  {
    var victims := PruneSchedule(candidates, policy, ctx, now).delete;
    forall v | v in victims ensures v.FullPath() != s.FullPath() {
      VictimsAreFair(candidates, policy, ctx, now, v);
      if v.FullPath() == s.FullPath() {
        SamePath(all, v, s);
      }
    }
    DeleteSomeSpares(w, victims, deletes, s);
  }

  lemma SparedCons(s: Subvolume, victims: seq<Subvolume>)
    requires victims != [] && victims[0].FullPath() != s.FullPath() && Spared(s, victims[1..])
    ensures Spared(s, victims)
  {
    assert victims == [victims[0]] + victims[1..];
  }

  /** As long as deletions succeed, the loop removes every victim. */
  lemma {:induction false} DeleteSomeRemoves(w: World, victims: seq<Subvolume>, deletes: nat, s: Subvolume)
    requires !Spared(s, victims) && |victims| <= deletes
    ensures s !in DeleteSome(w, victims, deletes).source && s !in DeleteSome(w, victims, deletes).target
    decreases victims
  {
    var w' := DeletePath(w, victims[0].FullPath());
    if Spared(s, victims[1..]) {
      if victims[0].FullPath() != s.FullPath() {
        SparedCons(s, victims);
      }
      assert s !in w'.source && s !in w'.target;
      DeleteSomeShrinks(w', victims[1..], deletes - 1);
    } else {
      DeleteSomeRemoves(w', victims[1..], deletes - 1, s);
    }
  }

  /**
   A prune succeeds if and only if every scheduled deletion does, and then exactly the scheduled
   subvolumes are gone.
   */
  lemma PruneIsExact(w: World, deletes: nat, candidates: seq<Subvolume>, policy: RetentionPolicy, ctx: SafetyContext,
                     now: Zoned, s: Subvolume)
    requires Valid(now.local) && UniquePaths(w.source + w.target) && PartOf(candidates, w.source + w.target)
    requires s in w.source + w.target
    ensures
      var victims := PruneSchedule(candidates, policy, ctx, now).delete;
      var r := PruneStep(w, deletes, candidates, policy, ctx, now);
      && (r.result.Ok? <==> |victims| <= deletes)
      && (r.result.Ok? ==> (s in r.world.source + r.world.target <==> s !in victims))
  {
    var victims := PruneSchedule(candidates, policy, ctx, now).delete;
    if |victims| <= deletes {
      if s in victims {
        assert !Spared(s, victims);
        DeleteSomeRemoves(w, victims, deletes, s);
      } else {
        forall v | v in victims ensures v.FullPath() != s.FullPath() {
          VictimsAreFair(candidates, policy, ctx, now, v);
          if v.FullPath() == s.FullPath() {
            SamePath(w.source + w.target, v, s);
          }
        }
        DeleteSomeSpares(w, victims, deletes, s);
      }
    }
  }

  lemma {:induction false} PruneStepShrinks(w: World, deletes: nat, candidates: seq<Subvolume>,
                                            policy: RetentionPolicy, ctx: SafetyContext, now: Zoned)
    requires Valid(now.local)
    ensures
      var r := PruneStep(w, deletes, candidates, policy, ctx, now);
      PartOf(r.world.source, w.source) && PartOf(r.world.target, w.target)
  {
    DeleteSomeShrinks(w, PruneSchedule(candidates, policy, ctx, now).delete, deletes);
  }

  lemma {:induction false} PruneBothShrinks(w: World, deletes: nat, job: Job, snapshots: seq<Subvolume>,
                                            backups: seq<Subvolume>, sp: set<nat>, bp: set<nat>)
    requires job.Valid()
    ensures
      var r := PruneBothStep(w, deletes, job, snapshots, backups, sp, bp);
      PartOf(r.world.source, w.source) && PartOf(r.world.target, w.target)
  {
    if UniqueUuids(backups) {
      var pair := LatestCommon(snapshots, backups);
      var keepSnapshots := sp + if pair.Some? then {pair.value.id} else {};
      var keepBackups := bp + if pair.Some? then CopyIds(pair.value, backups) else {};
      var snapshotContext := SafetyContext(keepSnapshots, snapshots != [] && backups == []);
      var first := PruneStep(w, deletes, backups, job.targetPolicy, SafetyContext(keepBackups, false), job.backupsNow);
      PruneBothWorld(w, deletes, job, snapshots, backups, sp, bp);
      PruneStepShrinks(w, deletes, backups, job.targetPolicy, SafetyContext(keepBackups, false), job.backupsNow);
      PruneStepShrinks(first.world, first.deletes, snapshots, job.snapshotPolicy, snapshotContext, job.snapshotsNow);
    }
  }

  /** Two prunes in a row; the second runs only if the first succeeds. */
  lemma TwoPrunesSpare(w: World, all: seq<Subvolume>, deletes: nat, s: Subvolume,
                       one: seq<Subvolume>, policyOne: RetentionPolicy, ctxOne: SafetyContext, nowOne: Zoned,
                       two: seq<Subvolume>, policyTwo: RetentionPolicy, ctxTwo: SafetyContext, nowTwo: Zoned)
    requires Valid(nowOne.local) && Valid(nowTwo.local)
    requires UniquePaths(all) && PartOf(one, all) && PartOf(two, all) && s in all
    requires Exempt(one, policyOne, ctxOne, nowOne, s) && Exempt(two, policyTwo, ctxTwo, nowTwo, s)
    ensures
      var first := PruneStep(w, deletes, one, policyOne, ctxOne, nowOne);
      && In(w, s, first.world)
      && In(w, s, PruneStep(first.world, first.deletes, two, policyTwo, ctxTwo, nowTwo).world)
  {
    var first := PruneStep(w, deletes, one, policyOne, ctxOne, nowOne);
    PruneStepSpares(w, all, deletes, one, policyOne, ctxOne, nowOne, s);
    PruneStepSpares(first.world, all, first.deletes, two, policyTwo, ctxTwo, nowTwo, s);
  }

  /** A subvolume that both halves of the prune leave alone is still there, wherever the prune stops. */
  lemma PruneBothSpares(w: World, deletes: nat, job: Job, snapshots: seq<Subvolume>, backups: seq<Subvolume>,
                        sp: set<nat>, bp: set<nat>, s: Subvolume)
    requires job.Valid() && UniquePaths(w.source + w.target)
    requires PartOf(snapshots, w.source) && PartOf(backups, w.target) && s in w.source + w.target
    requires
      var pair := LatestCommon(snapshots, backups);
      && (s !in backups || (pair.Some? && s.id in CopyIds(pair.value, backups)) || s.id in bp
          || job.targetPolicy.preserveMin == KeepAll || DatedEntryOf(s, job.backupsNow.offset).None?)
      && (s !in snapshots || pair == Some(s) || s.id in sp || backups == []
          || job.snapshotPolicy.preserveMin == KeepAll || DatedEntryOf(s, job.snapshotsNow.offset).None?)
    ensures In(w, s, PruneBothStep(w, deletes, job, snapshots, backups, sp, bp).world)
  {
    if UniqueUuids(backups) {
      var pair := LatestCommon(snapshots, backups);
      var keepSnapshots := sp + if pair.Some? then {pair.value.id} else {};
      var keepBackups := bp + if pair.Some? then CopyIds(pair.value, backups) else {};
      var backupContext := SafetyContext(keepBackups, false);
      var snapshotContext := SafetyContext(keepSnapshots, snapshots != [] && backups == []);
      PruneBothWorld(w, deletes, job, snapshots, backups, sp, bp);
      PartOfBoth(snapshots, backups, w);
      TwoPrunesSpare(w, w.source + w.target, deletes, s,
                     backups, job.targetPolicy, backupContext, job.backupsNow,
                     snapshots, job.snapshotPolicy, snapshotContext, job.snapshotsNow);
    }
  }

  lemma PartOfBoth(snapshots: seq<Subvolume>, backups: seq<Subvolume>, w: World)
    requires PartOf(snapshots, w.source) && PartOf(backups, w.target)
    ensures PartOf(snapshots, w.source + w.target) && PartOf(backups, w.source + w.target)
  {
  }

  /** Where the double prune leaves the world: after its first half, or after both. */
  lemma PruneBothWorld(w: World, deletes: nat, job: Job, snapshots: seq<Subvolume>, backups: seq<Subvolume>,
                       sp: set<nat>, bp: set<nat>)
    requires job.Valid() && UniqueUuids(backups)
    ensures
      var pair := LatestCommon(snapshots, backups);
      var keepSnapshots := sp + if pair.Some? then {pair.value.id} else {};
      var keepBackups := bp + if pair.Some? then CopyIds(pair.value, backups) else {};
      var backupContext := SafetyContext(keepBackups, false);
      var snapshotContext := SafetyContext(keepSnapshots, snapshots != [] && backups == []);
      var first := PruneStep(w, deletes, backups, job.targetPolicy, backupContext, job.backupsNow);
      var second :=
        PruneStep(first.world, first.deletes, snapshots, job.snapshotPolicy, snapshotContext, job.snapshotsNow);
      PruneBothStep(w, deletes, job, snapshots, backups, sp, bp).world in {first.world, second.world}
  {
  }

  /**
   The latest common snapshot and all its copies survive every prune, for every policy, every seed and
   every number of deletes after which the prune breaks off.
   */
  lemma LatestPairSurvives(w: World, deletes: nat, job: Job, snapshots: seq<Subvolume>, backups: seq<Subvolume>,
                           sp: set<nat>, bp: set<nat>)
    requires job.Valid() && UniquePaths(w.source + w.target)
    requires PartOf(snapshots, w.source) && PartOf(backups, w.target) && LatestCommon(snapshots, backups).Some?
    ensures
      var pair := LatestCommon(snapshots, backups).value;
      var r := PruneBothStep(w, deletes, job, snapshots, backups, sp, bp);
      && pair in r.world.source
      && (forall b :: b in Correlates(pair, backups) ==> b in r.world.target)
  {
    var pair := LatestCommon(snapshots, backups).value;
    LatestCommonIsFirst(snapshots, backups);
    assert pair !in backups by {
      if pair in backups {
        SourceAndTargetApart(w, pair, pair);
      }
    }
    PruneBothSpares(w, deletes, job, snapshots, backups, sp, bp, pair);
    forall b | b in Correlates(pair, backups)
      ensures b in PruneBothStep(w, deletes, job, snapshots, backups, sp, bp).world.target {
      assert b !in snapshots by {
        if b in snapshots {
          SourceAndTargetApart(w, b, b);
        }
      }
      PruneBothSpares(w, deletes, job, snapshots, backups, sp, bp, b);
    }
  }

  lemma SourceAndTargetApart(w: World, s: Subvolume, t: Subvolume)
    requires UniquePaths(w.source + w.target) && s in w.source && t in w.target
    ensures s.FullPath() != t.FullPath()
  {
    var i :| 0 <= i < |w.source| && w.source[i] == s;
    var j :| 0 <= j < |w.target| && w.target[j] == t;
    var all := w.source + w.target;
    assert all[i] == s && all[|w.source| + j] == t;
  }

  /** With no backup listed on the target, no source snapshot is deleted. */
  lemma EmptyTargetSparesSource(w: World, deletes: nat, job: Job, snapshots: seq<Subvolume>, sp: set<nat>,
                                bp: set<nat>, s: Subvolume)
    requires job.Valid() && UniquePaths(w.source + w.target) && PartOf(snapshots, w.source) && s in w.source
    ensures s in PruneBothStep(w, deletes, job, snapshots, [], sp, bp).world.source
  {
    PruneBothSpares(w, deletes, job, snapshots, [], sp, bp, s);
  }

  /** A subvolume whose name is not in the naming scheme is never deleted. */
  lemma ForeignNamesSurvive(w: World, deletes: nat, job: Job, snapshots: seq<Subvolume>, backups: seq<Subvolume>,
                            sp: set<nat>, bp: set<nat>, s: Subvolume, leaf: string)
    requires job.Valid() && UniquePaths(w.source + w.target)
    requires PartOf(snapshots, w.source) && PartOf(backups, w.target) && s in w.source + w.target
    requires s.path.FileName() == Some(leaf) && ParseName(leaf) == None
    ensures
      var r := PruneBothStep(w, deletes, job, snapshots, backups, sp, bp);
      s in r.world.source + r.world.target
  {
    PruneBothSpares(w, deletes, job, snapshots, backups, sp, bp, s);
  }
}
