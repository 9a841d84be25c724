/**
 The scheduler's theorems for histories of subvolumes: names are read by `dated_entry`, subvolumes with
 foreign names are skipped, every prune has anchors of its own, and its deletions may break off.
 */
module DatedHistories {
  import opened Sequences
  import opened Calendar
  import opened Naming
  import opened Retention
  import opened Model
  import opened Safety
  import opened Service
  import opened ServiceLaws
  import History = RetentionHistory
  import Theorems = RetentionTheorems

  /** Subvolumes created since the last prune, and the prune that ends the round. */
  datatype Round = Round(taken: seq<Subvolume>, now: DateTime, ctx: SafetyContext, deletes: nat)

  const NO_ANCHORS := SafetyContext({}, false)

  /** What the policy keeps of these subvolumes. */
  ghost function Survivors(candidates: seq<Subvolume>, policy: RetentionPolicy, now: DateTime, reference: int)
    : seq<Subvolume>
    requires Valid(now)
  {
    PruneSchedule(candidates, policy, NO_ANCHORS, Zoned(now, reference)).preserve
  }

  ghost function AllTaken(rounds: seq<Round>): seq<Subvolume> {
    if rounds == [] then [] else AllTaken(rounds[..|rounds| - 1]) + rounds[|rounds| - 1].taken
  }

  /** The victims a delete loop reaches. */
  function Reached(victims: seq<Subvolume>, deletes: nat): (r: seq<Subvolume>)
    ensures forall v :: v in r ==> v in victims
  {
    if deletes < |victims| then victims[..deletes] else victims
  }

  ghost function NotAmong(victims: seq<Subvolume>): Subvolume -> bool {
    (s: Subvolume) => Spared(s, victims)
  }

  /** What a directory still lists after a prune of all it lists. */
  ghost function Left(candidates: seq<Subvolume>, policy: RetentionPolicy, ctx: SafetyContext, now: DateTime,
                      deletes: nat, reference: int): seq<Subvolume>
    requires Valid(now)
  {
    var victims := PruneSchedule(candidates, policy, ctx, Zoned(now, reference)).delete;
    Filter(candidates, NotAmong(Reached(victims, deletes)))
  }

  ghost function LeftBy(listed: seq<Subvolume>, policy: RetentionPolicy, round: Round, reference: int): seq<Subvolume>
    requires Valid(round.now)
  {
    Left(listed, policy, round.ctx, round.now, round.deletes, reference)
  }

  /** What the directory lists when round `i` is to be pruned. */
  ghost function Listed(policy: RetentionPolicy, rounds: seq<Round>, reference: int, i: nat): seq<Subvolume>
    requires i < |rounds| && forall k :: 0 <= k < |rounds| ==> Valid(rounds[k].now)
    decreases i
  {
    (if i == 0 then [] else LeftBy(Listed(policy, rounds, reference, i - 1), policy, rounds[i - 1], reference))
    + rounds[i].taken
  }

  // ---------------------------------------------------------------------------
  // Dated subvolumes
  // ---------------------------------------------------------------------------

  function HasDate(reference: int): Subvolume -> bool {
    (s: Subvolume) => DatedEntryOf(s, reference).Some?
  }

  const NO_DATE := DateTime(1970, 0, 1, 0, 0, 0, 0)

  /** The entry of a dated subvolume; of a foreign one, anything. */
  function DateOf(reference: int): Subvolume -> DatedEntry<Subvolume> {
    (s: Subvolume) =>
      match DatedEntryOf(s, reference)
      case Some(e) => e
      case None => DatedEntry(0, NO_DATE, false, 0, s)
  }

  lemma OwnEntryIsDate(s: Subvolume, reference: int)
    ensures OwnEntries(s, reference) == Theorems.DateAll(DateOf(reference), if HasDate(reference)(s) then [s] else [])
  {
  }

  /** The list of entries is the dated part of the list of subvolumes, entry by entry. */
  lemma {:induction false} EntriesAreDates(xs: seq<Subvolume>, reference: int)
    ensures DatedEntries(xs, reference) == Theorems.DateAll(DateOf(reference), Filter(xs, HasDate(reference)))
  {
    if xs != [] {
      var n := |xs| - 1;
      EntriesAreDates(xs[..n], reference);
      OwnEntryIsDate(xs[n], reference);
      FilterTake(xs, n, HasDate(reference));
      Theorems.DateAllConcat(DateOf(reference), Filter(xs[..n], HasDate(reference)),
                    if HasDate(reference)(xs[n]) then [xs[n]] else []);
      assert xs[..n + 1] == xs;
    }
  }

  lemma NoAnchorsNoChange(schedule: Schedule<Subvolume>)
    ensures Enforced(schedule, NO_ANCHORS).preserve == schedule.preserve
  {
    FilterNone(schedule.delete, Forced({}));
    assert schedule.preserve + [] == schedule.preserve;
  }

  /** A prune of subvolumes is the scheduler on the dated ones. */
  lemma SurvivorsAreScheduled(xs: seq<Subvolume>, policy: RetentionPolicy, now: DateTime, reference: int)
    requires Valid(now)
    ensures Survivors(xs, policy, now, reference)
         == Theorems.Prune(policy, DateOf(reference), now, Filter(xs, HasDate(reference)))
  {
    EntriesAreDates(xs, reference);
    SortKeepsValid(DatedEntries(xs, reference));
    NoAnchorsNoChange(Verdict(SortEntries(DatedEntries(xs, reference)), policy, now));
  }

  /** The rounds as the scheduler sees them. */
  function Managed(rounds: seq<Round>, reference: int): (r: seq<Theorems.Round<Subvolume>>)
    ensures |r| == |rounds|
    ensures forall i :: 0 <= i < |r| ==>
      r[i] == Theorems.Round(Filter(rounds[i].taken, HasDate(reference)), rounds[i].now)
  {
    seq(|rounds|, i requires 0 <= i < |rounds| =>
      Theorems.Round(Filter(rounds[i].taken, HasDate(reference)), rounds[i].now))
  }

  lemma {:induction false} ManagedTaken(rounds: seq<Round>, reference: int)
    ensures Theorems.AllTaken(Managed(rounds, reference)) == Filter(AllTaken(rounds), HasDate(reference))
  {
    if rounds != [] {
      var n := |rounds| - 1;
      ManagedTaken(rounds[..n], reference);
      assert Managed(rounds[..n], reference) == Managed(rounds, reference)[..n];
      FilterConcat(AllTaken(rounds[..n]), rounds[n].taken, HasDate(reference));
    }
  }

  // ---------------------------------------------------------------------------
  // What a prune leaves
  // ---------------------------------------------------------------------------

  lemma OneGone(s: seq<Subvolume>, v: Subvolume, rest: seq<Subvolume>)
    ensures Filter(Filter(s, NotAt(v.FullPath())), NotAmong(rest)) == Filter(s, NotAmong([v] + rest))
  {
    forall x ensures NotAmong([v] + rest)(x) == (NotAt(v.FullPath())(x) && NotAmong(rest)(x)) {
      assert v in [v] + rest;
    }
    FilterTwice(s, NotAt(v.FullPath()), NotAmong(rest), NotAmong([v] + rest));
  }

  lemma ReachedCons(victims: seq<Subvolume>, deletes: nat)
    requires victims != [] && deletes > 0
    ensures Reached(victims, deletes) == [victims[0]] + Reached(victims[1..], deletes - 1)
  {
  }

  lemma NoneReached(s: seq<Subvolume>, victims: seq<Subvolume>, deletes: nat)
    requires victims == [] || deletes == 0
    ensures DeleteSomeOf(s, victims, deletes) == Filter(s, NotAmong(Reached(victims, deletes)))
  {
    FilterAll(s, NotAmong(Reached(victims, deletes)));
  }

  /** The delete loop on one side. */
  function DeleteSomeOf(s: seq<Subvolume>, victims: seq<Subvolume>, deletes: nat): seq<Subvolume>
    decreases victims
  {
    if victims == [] || deletes == 0 then s
    else DeleteSomeOf(Filter(s, NotAt(victims[0].FullPath())), victims[1..], deletes - 1)
  }

  lemma {:induction false} DeleteSomeSides(w: World, victims: seq<Subvolume>, deletes: nat)
    ensures DeleteSome(w, victims, deletes)
         == World(DeleteSomeOf(w.source, victims, deletes), DeleteSomeOf(w.target, victims, deletes))
    decreases victims
  {
    if victims != [] && deletes > 0 {
      DeleteSomeSides(DeletePath(w, victims[0].FullPath()), victims[1..], deletes - 1);
    }
  }

  lemma OneMoreReached(s: seq<Subvolume>, victims: seq<Subvolume>, deletes: nat)
    requires victims != [] && deletes > 0
    requires
      var rest := Filter(s, NotAt(victims[0].FullPath()));
      DeleteSomeOf(rest, victims[1..], deletes - 1) == Filter(rest, NotAmong(Reached(victims[1..], deletes - 1)))
    ensures DeleteSomeOf(s, victims, deletes) == Filter(s, NotAmong(Reached(victims, deletes)))
  {
    ReachedCons(victims, deletes);
    OneGone(s, victims[0], Reached(victims[1..], deletes - 1));
  }

  /** The delete loop removes what it reaches. */
  lemma {:induction false} DeleteSomeFilters(s: seq<Subvolume>, victims: seq<Subvolume>, deletes: nat)
    ensures DeleteSomeOf(s, victims, deletes) == Filter(s, NotAmong(Reached(victims, deletes)))
    decreases victims
  {
    if victims == [] || deletes == 0 {
      NoneReached(s, victims, deletes);
    } else {
      DeleteSomeFilters(Filter(s, NotAt(victims[0].FullPath())), victims[1..], deletes - 1);
      OneMoreReached(s, victims, deletes);
    }
  }

  /** After a prune of what a directory lists, it lists what `Left` says, wherever the deletions broke off. */
  lemma LeftIsListed(w: World, deletes: nat, dir: Path, policy: RetentionPolicy, ctx: SafetyContext, now: Zoned)
    requires Valid(now.local)
    ensures
      var snapshots := ExistingIn(w.source, dir);
      ExistingIn(PruneStep(w, deletes, snapshots, policy, ctx, now).world.source, dir)
      == Left(snapshots, policy, ctx, now.local, deletes, now.offset)
    ensures
      var backups := ExistingIn(w.target, dir);
      ExistingIn(PruneStep(w, deletes, backups, policy, ctx, now).world.target, dir)
      == Left(backups, policy, ctx, now.local, deletes, now.offset)
  {
    var snapshots, backups := ExistingIn(w.source, dir), ExistingIn(w.target, dir);
    var onSource := PruneSchedule(snapshots, policy, ctx, now).delete;
    var onTarget := PruneSchedule(backups, policy, ctx, now).delete;
    DeleteSomeSides(w, onSource, deletes);
    DeleteSomeSides(w, onTarget, deletes);
    DeleteSomeFilters(w.source, onSource, deletes);
    DeleteSomeFilters(w.target, onTarget, deletes);
    FiltersCommute(w.source, InDirectory(dir), NotAmong(Reached(onSource, deletes)));
    FiltersCommute(w.target, InDirectory(dir), NotAmong(Reached(onTarget, deletes)));
  }

  lemma {:induction false} DistinctEntries(xs: seq<Subvolume>, reference: int)
    requires UniquePaths(xs)
    ensures Distinct(DatedEntries(xs, reference))
  {
    if xs != [] {
      var front, last := xs[..|xs| - 1], xs[|xs| - 1];
      DistinctEntries(front, reference);
      var es := DatedEntries(front, reference);
      forall i | 0 <= i < |es| ensures es[i].payload != last {
        assert es[i].payload in front;
        var k :| 0 <= k < |front| && front[k] == es[i].payload;
        assert xs[k] == front[k];
      }
    }
  }

  /** What the policy keeps is no victim, and has no victim's path. */
  lemma KeptIsSpared(xs: seq<Subvolume>, policy: RetentionPolicy, ctx: SafetyContext, now: Zoned, i: nat)
    requires Valid(now.local) && UniquePaths(xs)
    requires i < |SortEntries(DatedEntries(xs, now.offset))|
    requires ValidEntries(SortEntries(DatedEntries(xs, now.offset)))
    requires
      var es := SortEntries(DatedEntries(xs, now.offset));
      Flags(policy, AllDeltas(es, now.local, policy))[i]
    ensures Spared(SortEntries(DatedEntries(xs, now.offset))[i].payload, PruneSchedule(xs, policy, ctx, now).delete)
  {
    var entries := DatedEntries(xs, now.offset);
    var es := SortEntries(entries);
    var verdict := Verdict(es, policy, now.local);
    DistinctEntries(xs, now.offset);
    DistinctPermutation(entries, es);
    EnforceIsMonotone(verdict, ctx);
    forall v | v in PruneSchedule(xs, policy, ctx, now).delete ensures v.FullPath() != es[i].payload.FullPath() {
      var k := DeletedIndex(es, Flags(policy, AllDeltas(es, now.local, policy)), v);
      SameEntry(xs, now.offset, es, i, k);
    }
  }

  lemma EntryByPath(xs: seq<Subvolume>, reference: int, e: DatedEntry<Subvolume>, f: DatedEntry<Subvolume>)
    requires UniquePaths(xs) && e in DatedEntries(xs, reference) && f in DatedEntries(xs, reference)
    requires e.payload.FullPath() == f.payload.FullPath()
    ensures e == f
  {
    SamePath(xs, e.payload, f.payload);
  }

  lemma SameEntry(xs: seq<Subvolume>, reference: int, es: seq<DatedEntry<Subvolume>>, i: nat, k: nat)
    requires UniquePaths(xs) && multiset(es) == multiset(DatedEntries(xs, reference)) && Distinct(es)
    requires i < |es| && k < |es| && i != k
    ensures es[i].payload.FullPath() != es[k].payload.FullPath()
  {
    SameElements(es, DatedEntries(xs, reference));
    if es[i].payload.FullPath() == es[k].payload.FullPath() {
      EntryByPath(xs, reference, es[i], es[k]);
    }
  }

  function OfPayload(keep: Subvolume -> bool): DatedEntry<Subvolume> -> bool {
    (e: DatedEntry<Subvolume>) => keep(e.payload)
  }

  lemma {:induction false} DateAllFilter(date: Subvolume -> DatedEntry<Subvolume>, xs: seq<Subvolume>,
                                         keep: Subvolume -> bool)
    requires Theorems.Dates(date)
    ensures Theorems.DateAll(date, Filter(xs, keep)) == Filter(Theorems.DateAll(date, xs), OfPayload(keep))
  {
    if xs != [] {
      DateAllFilter(date, xs[1..], keep);
      assert Theorems.DateAll(date, xs) == [date(xs[0])] + Theorems.DateAll(date, xs[1..]);
      assert date(xs[0]).payload == xs[0];
      if keep(xs[0]) {
        Theorems.DateAllConcat(date, [xs[0]], Filter(xs[1..], keep));
        assert Theorems.DateAll(date, [xs[0]]) == [date(xs[0])];
      }
    }
  }

  function FlagsOf(es: seq<DatedEntry<Subvolume>>, p: DatedEntry<Subvolume> -> bool): (f: seq<bool>)
    ensures |f| == |es| && forall i :: 0 <= i < |f| ==> f[i] == p(es[i])
  {
    seq(|es|, i requires 0 <= i < |es| => p(es[i]))
  }

  lemma {:induction false} FilterPicks(es: seq<DatedEntry<Subvolume>>, p: DatedEntry<Subvolume> -> bool)
    ensures Filter(es, p) == History.Pick(es, FlagsOf(es, p))
  {
    if es != [] {
      FilterPicks(es[1..], p);
      assert FlagsOf(es, p)[1..] == FlagsOf(es[1..], p);
    }
  }

  lemma DatesOf(reference: int)
    ensures Theorems.Dates(DateOf(reference))
  {
  }

  /** Sorting the entries of what is left is filtering the sorted entries. */
  lemma LeftSorted(xs: seq<Subvolume>, reference: int, keep: Subvolume -> bool)
    ensures
      var es := SortEntries(DatedEntries(xs, reference));
      SortEntries(Theorems.DateAll(DateOf(reference), Filter(Filter(xs, keep), HasDate(reference))))
      == History.Pick(es, FlagsOf(es, OfPayload(keep)))
  {
    var date, dated := DateOf(reference), Filter(xs, HasDate(reference));
    FiltersCommute(xs, keep, HasDate(reference));
    EntriesAreDates(xs, reference);
    DatesOf(reference);
    DateAllFilter(date, dated, keep);
    Theorems.EntryOrder<Subvolume>();
    StableSortFilter(Theorems.DateAll(date, dated), EntryLe, OfPayload(keep));
    FilterPicks(SortEntries(DatedEntries(xs, reference)), OfPayload(keep));
  }

  /** A prune with any anchors, broken off anywhere, spares all that the policy keeps. */
  lemma LeftThins(xs: seq<Subvolume>, policy: RetentionPolicy, ctx: SafetyContext, now: DateTime, deletes: nat,
                  reference: int)
    requires Valid(now) && UniquePaths(xs) && policy.hourOfDay == 0
    requires forall x :: x in xs && DatedEntryOf(x, reference).Some? ==>
      Theorems.TakenBy(DateOf(reference)(x), now, reference + UNIX_EPOCH)
    ensures Theorems.Thinned(policy, DateOf(reference), now, Filter(xs, HasDate(reference)),
                             Filter(Left(xs, policy, ctx, now, deletes, reference), HasDate(reference)))
  {
    var victims := PruneSchedule(xs, policy, ctx, Zoned(now, reference)).delete;
    var keep := NotAmong(Reached(victims, deletes));
    var es := SortEntries(DatedEntries(xs, reference));
    var flags := FlagsOf(es, OfPayload(keep));
    SortKeepsValid(DatedEntries(xs, reference));
    EntriesAreDates(xs, reference);
    LeftSorted(xs, reference, keep);
    forall i | 0 <= i < |es| && Flags(policy, AllDeltas(es, now, policy))[i] ensures flags[i] {
      KeptIsSpared(xs, policy, ctx, Zoned(now, reference), i);
    }
    Theorems.SparingThins(policy, DateOf(reference), now, Filter(xs, HasDate(reference)),
                          Filter(Left(xs, policy, ctx, now, deletes, reference), HasDate(reference)), flags,
                          reference + UNIX_EPOCH);
  }

  // ---------------------------------------------------------------------------
  // Path independence
  // ---------------------------------------------------------------------------

  /** `x` is not dated after `y`; where the dates are equal it has no higher counter. */
  predicate DatedBefore(x: Subvolume, y: Subvolume, reference: int) {
    DatedEntryOf(x, reference).Some? && DatedEntryOf(y, reference).Some? ==>
      EntryLe(DatedEntryOf(x, reference).value, DatedEntryOf(y, reference).value)
  }

  /**
   Clocks that do not run backwards, nothing dated after the prune of its round, and names that follow
   the order of the rounds.
   */
  ghost predicate Chronicle(rounds: seq<Round>, reference: int) {
    && (forall i :: 0 <= i < |rounds| ==> Valid(rounds[i].now))
    && (forall i :: 0 < i < |rounds| ==> Seconds(rounds[i - 1].now) <= Seconds(rounds[i].now))
    && (forall i, x :: 0 <= i < |rounds| && x in rounds[i].taken && DatedEntryOf(x, reference).Some? ==>
          Seconds(DatedEntryOf(x, reference).value.local) <= Seconds(rounds[i].now))
    && (forall i, j, x, y :: 0 <= i < j < |rounds| && x in rounds[i].taken && y in rounds[j].taken ==>
          DatedBefore(x, y, reference))
  }

  lemma ChronicleOfDates(rounds: seq<Round>, reference: int)
    requires Chronicle(rounds, reference)
    ensures Theorems.Chronicle(DateOf(reference), Managed(rounds, reference), reference + UNIX_EPOCH)
  {
    var rs := Managed(rounds, reference);
    forall i, x | 0 <= i < |rs| && x in rs[i].taken
      ensures Theorems.TakenBy(DateOf(reference)(x), rs[i].now, reference + UNIX_EPOCH)
    {
      assert x in rounds[i].taken;
    }
    forall i, j, x, y | 0 <= i < j < |rs| && x in rs[i].taken && y in rs[j].taken
      ensures EntryLe(DateOf(reference)(x), DateOf(reference)(y))
    {
      assert DatedBefore(x, y, reference);
    }
  }

  /** A directory never lists a path twice. */
  ghost predicate PathsListedOnce(policy: RetentionPolicy, rounds: seq<Round>, reference: int)
    requires forall i :: 0 <= i < |rounds| ==> Valid(rounds[i].now)
  {
    forall i :: 0 <= i < |rounds| ==> UniquePaths(Listed(policy, rounds, reference, i))
  }

  /** What the prunes of the earlier rounds leave of the dated subvolumes. */
  ghost function Lefts(policy: RetentionPolicy, rounds: seq<Round>, reference: int): (r: seq<seq<Subvolume>>)
    requires rounds != [] && forall i :: 0 <= i < |rounds| ==> Valid(rounds[i].now)
    ensures |r| == |rounds| - 1
    ensures forall i :: 0 <= i < |r| ==> 
      r[i] == Filter(LeftBy(Listed(policy, rounds, reference, i), policy, rounds[i], reference),
                     HasDate(reference))
  {
    seq(|rounds| - 1, i requires 0 <= i < |rounds| - 1 =>
      Filter(LeftBy(Listed(policy, rounds, reference, i), policy, rounds[i], reference), HasDate(reference)))
  }

  lemma ListedDated(policy: RetentionPolicy, rounds: seq<Round>, reference: int, i: nat)
    requires i < |rounds| && forall k :: 0 <= k < |rounds| ==> Valid(rounds[k].now)
    ensures Theorems.OnDisk(Managed(rounds, reference), Lefts(policy, rounds, reference), i)
         == Filter(Listed(policy, rounds, reference, i), HasDate(reference))
  {
    if i > 0 {
      FilterConcat(LeftBy(Listed(policy, rounds, reference, i - 1), policy, rounds[i - 1], reference),
                   rounds[i].taken, HasDate(reference));
    } else {
      FilterConcat([], rounds[0].taken, HasDate(reference));
    }
  }

  lemma LeftWasListed(listed: seq<Subvolume>, policy: RetentionPolicy, round: Round, reference: int, x: Subvolume)
    requires Valid(round.now) && x in LeftBy(listed, policy, round, reference)
    ensures x in listed
  {
  }

  /** What is listed was taken now or listed before. */
  lemma ListedBefore(policy: RetentionPolicy, rounds: seq<Round>, reference: int, i: nat, x: Subvolume)
    requires i < |rounds| && forall k :: 0 <= k < |rounds| ==> Valid(rounds[k].now)
    requires x in Listed(policy, rounds, reference, i) && x !in rounds[i].taken
    ensures i > 0 && x in Listed(policy, rounds, reference, i - 1)
  {
    if i > 0 {
      LeftWasListed(Listed(policy, rounds, reference, i - 1), policy, rounds[i - 1], reference, x);
    }
  }

  /** Lists in which everything was taken now or listed before. */
  ghost predicate Fed(lists: seq<seq<Subvolume>>, rounds: seq<Round>) {
    && |lists| == |rounds|
    && forall i, x :: 0 <= i < |rounds| && x in lists[i] && x !in rounds[i].taken ==> i > 0 && x in lists[i - 1]
  }

  lemma {:induction false} FedByRounds(lists: seq<seq<Subvolume>>, rounds: seq<Round>, i: nat, x: Subvolume)
    returns (k: nat)
    requires Fed(lists, rounds) && i < |rounds| && x in lists[i]
    ensures k <= i && x in rounds[k].taken
    decreases i
  {
    k := i;
    if x !in rounds[i].taken {
      k := FedByRounds(lists, rounds, i - 1, x);
    }
  }

  ghost function AllListed(policy: RetentionPolicy, rounds: seq<Round>, reference: int): (r: seq<seq<Subvolume>>)
    requires forall k :: 0 <= k < |rounds| ==> Valid(rounds[k].now)
    ensures |r| == |rounds| && forall i :: 0 <= i < |r| ==> r[i] == Listed(policy, rounds, reference, i)
  {
    seq(|rounds|, i requires 0 <= i < |rounds| => Listed(policy, rounds, reference, i))
  }

  /** Every listed subvolume was taken in some round. */
  lemma ListedWasTaken(policy: RetentionPolicy, rounds: seq<Round>, reference: int, i: nat, x: Subvolume)
    returns (k: nat)
    requires i < |rounds| && forall k :: 0 <= k < |rounds| ==> Valid(rounds[k].now)
    requires x in Listed(policy, rounds, reference, i)
    ensures k <= i && x in rounds[k].taken
  {
    var lists := AllListed(policy, rounds, reference);
    forall j, y | 0 <= j < |rounds| && y in lists[j] && y !in rounds[j].taken
      ensures j > 0 && y in lists[j - 1]
    {
      ListedBefore(policy, rounds, reference, j, y);
    }
    k := FedByRounds(lists, rounds, i, x);
  }

  lemma {:induction false} NowAdvances(rounds: seq<Round>, reference: int, i: nat, j: nat)
    requires Chronicle(rounds, reference) && i <= j < |rounds|
    ensures Seconds(rounds[i].now) <= Seconds(rounds[j].now)
    decreases j
  {
    if i < j {
      NowAdvances(rounds, reference, i, j - 1);
    }
  }

  lemma ListedIsPast(policy: RetentionPolicy, rounds: seq<Round>, reference: int, n: nat, x: Subvolume)
    requires Chronicle(rounds, reference) && n < |rounds| && DatedEntryOf(x, reference).Some?
    requires x in Listed(policy, rounds, reference, n)
    ensures Theorems.TakenBy(DateOf(reference)(x), rounds[n].now, reference + UNIX_EPOCH)
  {
    var i := ListedWasTaken(policy, rounds, reference, n, x);
    NowAdvances(rounds, reference, i, n);
  }

  lemma RoundsThin(policy: RetentionPolicy, rounds: seq<Round>, reference: int)
    requires rounds != [] && Chronicle(rounds, reference) && policy.hourOfDay == 0
    requires PathsListedOnce(policy, rounds, reference)
    ensures Theorems.ThinnedBetween(policy, DateOf(reference), Managed(rounds, reference),
                                    Lefts(policy, rounds, reference))
  {
    var date, rs, lefts := DateOf(reference), Managed(rounds, reference), Lefts(policy, rounds, reference);
    forall i | 0 <= i < |lefts|
      ensures Theorems.Thinned(policy, date, rs[i].now, Theorems.OnDisk(rs, lefts, i), lefts[i])
    {
      var listed := Listed(policy, rounds, reference, i);
      ListedDated(policy, rounds, reference, i);
      forall x | x in listed && DatedEntryOf(x, reference).Some?
        ensures Theorems.TakenBy(date(x), rounds[i].now, reference + UNIX_EPOCH)
      {
        ListedIsPast(policy, rounds, reference, i, x);
      }
      LeftThins(listed, policy, rounds[i].ctx, rounds[i].now, rounds[i].deletes, reference);
    }
  }

  /** The theorem below, as the scheduler sees it. */
  lemma ManagedPathIndependence(policy: RetentionPolicy, rounds: seq<Round>, reference: int, n: nat)
    requires |rounds| == n + 1 && Chronicle(rounds, reference) && policy.hourOfDay == 0
    requires PathsListedOnce(policy, rounds, reference)
    ensures
      var rs, date := Managed(rounds, reference), DateOf(reference);
      Theorems.Prune(policy, date, rounds[n].now, Theorems.OnDisk(rs, Lefts(policy, rounds, reference), n))
      == Theorems.Prune(policy, date, rounds[n].now, Theorems.AllTaken(rs))
  {
    DatesOf(reference);
    ChronicleOfDates(rounds, reference);
    RoundsThin(policy, rounds, reference);
    Theorems.EarlierPrunesVanish(policy, DateOf(reference), Managed(rounds, reference),
                                 Lefts(policy, rounds, reference), reference + UNIX_EPOCH);
  }

  /**
   Whatever anchors the earlier prunes had and wherever their deletions broke off: of what is listed in the
   last round, the policy keeps exactly what it would keep of everything ever taken.
   */
  lemma PathIndependence(policy: RetentionPolicy, rounds: seq<Round>, reference: int)
    requires rounds != [] && Chronicle(rounds, reference) && policy.hourOfDay == 0
    requires PathsListedOnce(policy, rounds, reference)
    ensures
      var now := rounds[|rounds| - 1].now;
      Survivors(Listed(policy, rounds, reference, |rounds| - 1), policy, now, reference)
      == Survivors(AllTaken(rounds), policy, now, reference)
  {
    var n := |rounds| - 1;
    ManagedPathIndependence(policy, rounds, reference, n);
    ListedDated(policy, rounds, reference, n);
    ManagedTaken(rounds, reference);
    SurvivorsAreScheduled(Listed(policy, rounds, reference, n), policy, rounds[n].now, reference);
    SurvivorsAreScheduled(AllTaken(rounds), policy, rounds[n].now, reference);
  }
}
