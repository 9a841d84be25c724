/** The delete-safety anchors: crates/domain/src/safety.rs. */
module Safety {
  import opened Wrappers
  import opened Sequences
  import opened Model
  import opened Parent
  import opened Retention

  datatype SafetyContext = SafetyContext(forcePreserveIds: set<nat>, targetAborted: bool)

  function Forced(ids: set<nat>): Subvolume -> bool { (s: Subvolume) => s.id in ids }

  function NotForced(ids: set<nat>): Subvolume -> bool { (s: Subvolume) => s.id !in ids }

  /** The schedule once the anchors were applied. */
  function Enforced(schedule: Schedule<Subvolume>, ctx: SafetyContext): Schedule<Subvolume> {
    if ctx.targetAborted then Schedule(schedule.preserve + schedule.delete, [])
    else Schedule(schedule.preserve + Filter(schedule.delete, Forced(ctx.forcePreserveIds)),
                  Filter(schedule.delete, NotForced(ctx.forcePreserveIds)))
  }

  /** `enforce`: one pass over the deletions, extending `preserve`. */
  method Enforce(schedule: Schedule<Subvolume>, ctx: SafetyContext) returns (r: Schedule<Subvolume>)
    ensures r == Enforced(schedule, ctx)
  {
    var preserve, delete := schedule.preserve, schedule.delete;
    if ctx.targetAborted {
      return Schedule(preserve + delete, []);
    }
    var rescued: seq<Subvolume>, deletable: seq<Subvolume> := [], [];
    for i := 0 to |delete|
      invariant rescued == Filter(delete[..i], Forced(ctx.forcePreserveIds))
      invariant deletable == Filter(delete[..i], NotForced(ctx.forcePreserveIds))
    {
      FilterTake(delete, i, Forced(ctx.forcePreserveIds));
      FilterTake(delete, i, NotForced(ctx.forcePreserveIds));
      if delete[i].id in ctx.forcePreserveIds {
        rescued := rescued + [delete[i]];
      } else {
        deletable := deletable + [delete[i]];
      }
    }
    assert delete[..|delete|] == delete;
    r := Schedule(preserve + rescued, deletable);
  }

  /**
   Subvolumes only ever move from delete to preserve, none is lost, exactly the forced ones stop being
   deletable, and an aborted target deletes nothing.
   */
  lemma EnforceIsMonotone(schedule: Schedule<Subvolume>, ctx: SafetyContext)
    ensures
      var r := Enforced(schedule, ctx);
      && schedule.preserve <= r.preserve
      && multiset(r.delete) <= multiset(schedule.delete)
      && multiset(r.preserve) + multiset(r.delete) == multiset(schedule.preserve) + multiset(schedule.delete)
      && (forall s :: s in r.delete <==>
            s in schedule.delete && s.id !in ctx.forcePreserveIds && !ctx.targetAborted)
  {
    if !ctx.targetAborted {
      FilterSplitsMultiset(schedule.delete, Forced(ctx.forcePreserveIds), NotForced(ctx.forcePreserveIds));
    }
  }

  // ---------------------------------------------------------------------------
  // The latest common pair
  // ---------------------------------------------------------------------------

  function FirstCopied(ordered: seq<Subvolume>, target: seq<Subvolume>): (r: Option<Subvolume>)
    ensures r.Some? ==> r.value in ordered && Correlates(r.value, target) != []
    ensures r.None? ==> forall s :: s in ordered ==> Correlates(s, target) == []
  {
    if ordered == [] then None
    else if Correlates(ordered[0], target) != [] then Some(ordered[0])
    else FirstCopied(ordered[1..], target)
  }

  /** The snapshot half of `latest_common_pair`: the first copied one in newest-first order. */
  function LatestCommon(snapshots: seq<Subvolume>, target: seq<Subvolume>): Option<Subvolume> {
    FirstCopied(StableSort(snapshots, NewestFirst), target)
  }

  /** The ids of a snapshot's copies. */
  function CopyIds(s: Subvolume, target: seq<Subvolume>): set<nat> {
    set t | t in Correlates(s, target) :: t.id
  }

  lemma {:induction false} FirstCopiedIsNewest(ordered: seq<Subvolume>, target: seq<Subvolume>, s: Subvolume)
    requires Sorted(ordered, NewestFirst) && s in ordered && Correlates(s, target) != []
    ensures FirstCopied(ordered, target).Some? && NoOlder(FirstCopied(ordered, target).value, s)
  {
    if Correlates(ordered[0], target) != [] {
      var i :| 0 <= i < |ordered| && ordered[i] == s;
      OrderIsByAge(ordered[0], ordered[i]);
      assert i == 0 || NewestFirst(ordered[0], ordered[i]);
    } else {
      FirstCopiedIsNewest(ordered[1..], target, s);
    }
  }

  lemma LatestCommonIsFirst(snapshots: seq<Subvolume>, target: seq<Subvolume>)
    ensures
      match LatestCommon(snapshots, target)
      case None => forall s :: s in snapshots ==> Correlates(s, target) == []
      case Some(p) => && p in snapshots && Correlates(p, target) != []
                      && forall s :: s in snapshots && Correlates(s, target) != [] ==> NoOlder(p, s)
  {
    var ordered := StableSort(snapshots, NewestFirst);
    NewestFirstOrder();
    StableSortSorted(snapshots, NewestFirst);
    SameElements(ordered, snapshots);
    forall s | s in snapshots && Correlates(s, target) != []
      ensures LatestCommon(snapshots, target).Some? && NoOlder(LatestCommon(snapshots, target).value, s)
    {
      assert s in ordered;
      FirstCopiedIsNewest(ordered, target, s);
    }
  }

  /** It is the newest snapshot with a copy on the target, and it is absent only when no snapshot has one. */
  lemma LatestCommonIsNewest(snapshots: seq<Subvolume>, target: seq<Subvolume>)
    ensures
      match LatestCommon(snapshots, target)
      case None => forall s :: s in snapshots ==> !HasCopy(s, target)
      case Some(p) => && p in snapshots && HasCopy(p, target)
                      && forall s :: s in snapshots && HasCopy(s, target) ==>
                           s.cgen < p.cgen || (s.cgen == p.cgen && s.id <= p.id)
  {
    LatestCommonIsFirst(snapshots, target);
    forall s ensures Correlates(s, target) != [] <==> HasCopy(s, target) {
      CorrelatesAreCopies(s, target);
    }
  }

  datatype CommonPair = CommonPair(snapshot: Subvolume, backups: seq<Subvolume>)

  method LatestCommonPair(snapshots: seq<Subvolume>, target: RelationshipGraph) returns (r: Option<CommonPair>)
    requires target.Valid()
    ensures r.Some? <==> LatestCommon(snapshots, target.subvols).Some?
    ensures r.Some? ==> Some(r.value.snapshot) == LatestCommon(snapshots, target.subvols)
    ensures r.Some? ==> forall id :: id in CopyIds(r.value.snapshot, target.subvols)
                          <==> exists i :: 0 <= i < |r.value.backups| && r.value.backups[i].id == id
  {
    var ordered := StableSort(snapshots, NewestFirst);
    for i := 0 to |ordered|
      invariant LatestCommon(snapshots, target.subvols) == FirstCopied(ordered[i..], target.subvols)
    {
      var backups := TargetCorrelates(ordered[i], target);
      CopiesAgree(ordered[i], target.subvols, backups);
      assert ordered[i..][1..] == ordered[i + 1..] && ordered[i..][0] == ordered[i];
      if backups != [] {
        CopyIdsAgree(ordered[i], target.subvols, backups);
        return Some(CommonPair(ordered[i], backups));
      }
    }
    r := None;
  }

  lemma CopyIdsAgree(s: Subvolume, target: seq<Subvolume>, copies: seq<Subvolume>)
    requires forall t :: t in copies ==> t in Correlates(s, target)
    requires forall t :: t in Correlates(s, target) ==> exists k :: 0 <= k < |copies| && copies[k].id == t.id
    ensures forall id :: id in CopyIds(s, target) <==> exists i :: 0 <= i < |copies| && copies[i].id == id
  {
    forall id ensures id in CopyIds(s, target) <==> exists i :: 0 <= i < |copies| && copies[i].id == id {
      if i :| 0 <= i < |copies| && copies[i].id == id {
        assert copies[i] in Correlates(s, target);
      }
    }
  }
}
