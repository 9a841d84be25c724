/**
 Consequences of the flat rule over whole histories of snapshots and prunes.

 A prune reads an entry only through the five calendar periods it falls in, and `now` only through
 the five periods it stands at, so the argument runs over such period vectors; `at` maps an entry to
 its vector. Module RetentionTheorems applies it to dated entries.
 */
module RetentionHistory {
  import opened Wrappers
  import opened Sequences
  import opened Retention

  /** A period some tier can keep a representative of. */
  type Slot = (Unit, int)

  /** The periods of an entry, or the periods `now` stands at, one per unit. */
  type Periods = Deltas

  ghost predicate NotLater(a: Periods, b: Periods) {
    forall unit: Unit :: a.At(unit) <= b.At(unit)
  }

  ghost function SlotsOf(p: Periods): (s: set<Slot>)
    ensures forall unit: Unit, k: int :: (unit, k) in s <==> k == p.At(unit)
  {
    {(Hours, p.hours), (Days, p.days), (Weeks, p.weeks), (Months, p.months), (Years, p.years)}
  }

  predicate FloorHolds(policy: RetentionPolicy, now: Periods, p: Periods) {
    match policy.preserveMin
    case KeepAll => true
    case NoFloor => false
    case Latest => false
    case Within(count, unit) => now.At(unit) - p.At(unit) <= count
  }

  predicate InTierRange(policy: RetentionPolicy, now: Periods, unit: Unit, k: int) {
    match policy.Tier(unit)
    case None => false
    case Some(All) => true
    case Some(Count(n)) => n != 0 && now.At(unit) - n <= k
  }

  ghost predicate NewInRange(policy: RetentionPolicy, now: Periods, p: Periods, seen: set<Slot>, unit: Unit) {
    (unit, p.At(unit)) !in seen && InTierRange(policy, now, unit, p.At(unit))
  }

  /** The flat rule, read from the oldest entry on: `seen` holds the periods already met. */
  ghost predicate KeepsNext(policy: RetentionPolicy, now: Periods, p: Periods, seen: set<Slot>, last: bool) {
    || FloorHolds(policy, now, p)
    || (policy.preserveMin == Latest && last)
    || exists unit :: NewInRange(policy, now, p, seen, unit)
  }

  ghost function Keep<E>(policy: RetentionPolicy, at: E -> Periods, now: Periods, es: seq<E>, seen: set<Slot>)
    : (r: seq<E>)
    ensures forall e :: e in r ==> e in es
    ensures policy.preserveMin == Latest && es != [] ==> r != []
  {
    if es == [] then []
    else
      (if KeepsNext(policy, now, at(es[0]), seen, |es| == 1) then [es[0]] else [])
      + Keep(policy, at, now, es[1..], seen + SlotsOf(at(es[0])))
  }

  /** The elements whose flag is set, in order. */
  function Pick<E>(es: seq<E>, flags: seq<bool>): (r: seq<E>)
    requires |es| == |flags|
  {
    if es == [] then [] else (if flags[0] then [es[0]] else []) + Pick(es[1..], flags[1..])
  }

  ghost function SeenBefore<E>(at: E -> Periods, es: seq<E>, k: nat): (s: set<Slot>)
    requires k <= |es|
  {
    if k == 0 then {} else SeenBefore(at, es, k - 1) + SlotsOf(at(es[k - 1]))
  }

  lemma {:induction false} SeenBeforeMeans<E>(at: E -> Periods, es: seq<E>, k: nat, unit: Unit, p: int)
    requires k <= |es|
    ensures (unit, p) in SeenBefore(at, es, k) <==> exists j :: 0 <= j < k && at(es[j]).At(unit) == p
  {
    if k > 0 {
      SeenBeforeMeans(at, es, k - 1, unit, p);
      assert (unit, p) in SlotsOf(at(es[k - 1])) <==> at(es[k - 1]).At(unit) == p;
    }
  }

  /** Entry `i` is flagged as the flat rule decides, given the periods of all earlier entries. */
  ghost predicate Decided<E>(policy: RetentionPolicy, at: E -> Periods, now: Periods, es: seq<E>, flags: seq<bool>,
                             i: nat)
    requires i < |es| == |flags|
  {
    flags[i] <==> KeepsNext(policy, now, at(es[i]), SeenBefore(at, es, i), i == |es| - 1)
  }

  /** Deciding entry by entry is the recursive reading. */
  lemma {:induction false} KeepPicks<E>(policy: RetentionPolicy, at: E -> Periods, now: Periods, es: seq<E>,
                                        flags: seq<bool>, k: nat)
    requires k <= |es| == |flags|
    requires forall i :: 0 <= i < |es| ==> Decided(policy, at, now, es, flags, i)
    ensures Keep(policy, at, now, es[k..], SeenBefore(at, es, k)) == Pick(es[k..], flags[k..])
    decreases |es| - k
  {
    if k < |es| {
      KeepPicks(policy, at, now, es, flags, k + 1);
      assert Decided(policy, at, now, es, flags, k);
      KeepPicksOne(policy, at, now, es, flags, k, SeenBefore(at, es, k));
    }
  }

  lemma KeepPicksOne<E>(policy: RetentionPolicy, at: E -> Periods, now: Periods, es: seq<E>, flags: seq<bool>, k: nat,
                        seen: set<Slot>)
    requires k < |es| == |flags|
    requires flags[k] <==> KeepsNext(policy, now, at(es[k]), seen, k == |es| - 1)
    requires Keep(policy, at, now, es[k + 1..], seen + SlotsOf(at(es[k]))) == Pick(es[k + 1..], flags[k + 1..])
    ensures Keep(policy, at, now, es[k..], seen) == Pick(es[k..], flags[k..])
  {
    assert es[k..][1..] == es[k + 1..] && flags[k..][1..] == flags[k + 1..];
    assert es[k..][0] == es[k] && flags[k..][0] == flags[k];
  }

  // ---------------------------------------------------------------------------
  // An earlier prune is invisible to a later one
  // ---------------------------------------------------------------------------

  /**
   The first prune met the periods in `seen`; the second, which no longer sees the deleted entries,
   met only those in `pruned`. A period that was met but not kept was out of range already.
   */
  ghost predicate Gap(policy: RetentionPolicy, now: Periods, seen: set<Slot>, pruned: set<Slot>) {
    && pruned <= seen
    && forall unit: Unit, k: int :: (unit, k) in seen && (unit, k) !in pruned ==> !InTierRange(policy, now, unit, k)
  }

  lemma GapLater(policy: RetentionPolicy, now: Periods, later: Periods, seen: set<Slot>, pruned: set<Slot>)
    requires NotLater(now, later) && Gap(policy, now, seen, pruned)
    ensures Gap(policy, later, seen, pruned)
  {
  }

  lemma GapGrows(policy: RetentionPolicy, now: Periods, p: Periods, seen: set<Slot>, pruned: set<Slot>, last: bool)
    requires Gap(policy, now, seen, pruned)
    ensures Gap(policy, now, seen + SlotsOf(p),
                if KeepsNext(policy, now, p, seen, last) then pruned + SlotsOf(p) else pruned)
  {
    if !KeepsNext(policy, now, p, seen, last) {
      forall unit: Unit, k: int | (unit, k) in seen + SlotsOf(p) && (unit, k) !in pruned
        ensures !InTierRange(policy, now, unit, k)
      {
        assert !NewInRange(policy, now, p, seen, unit);
      }
    }
  }

  lemma SameDecision(policy: RetentionPolicy, now: Periods, p: Periods, seen: set<Slot>, pruned: set<Slot>, last: bool)
    requires Gap(policy, now, seen, pruned)
    ensures KeepsNext(policy, now, p, pruned, last) <==> KeepsNext(policy, now, p, seen, last)
  {
    forall unit: Unit ensures NewInRange(policy, now, p, pruned, unit) <==> NewInRange(policy, now, p, seen, unit) {
    }
  }

  /** What a later prune keeps, an earlier one would have kept too. */
  lemma KeptEarlier(policy: RetentionPolicy, now: Periods, later: Periods, p: Periods, seen: set<Slot>, last: bool)
    requires NotLater(now, later)
    ensures KeepsNext(policy, later, p, seen, last) ==> KeepsNext(policy, now, p, seen, last)
  {
    if unit :| NewInRange(policy, later, p, seen, unit) {
      assert NewInRange(policy, now, p, seen, unit);
    }
  }

  lemma {:induction false} GapIsInvisible<E>(policy: RetentionPolicy, at: E -> Periods, now: Periods, es: seq<E>,
                                             seen: set<Slot>, pruned: set<Slot>)
    requires Gap(policy, now, seen, pruned)
    ensures Keep(policy, at, now, es, pruned) == Keep(policy, at, now, es, seen)
  {
    if es != [] {
      SameDecision(policy, now, at(es[0]), seen, pruned, |es| == 1);
      GapIsInvisible(policy, at, now, es[1..], seen + SlotsOf(at(es[0])), pruned + SlotsOf(at(es[0])));
    }
  }

  /** Flags that are set wherever the flat rule keeps the entry, and perhaps elsewhere. */
  ghost predicate Spares<E>(policy: RetentionPolicy, at: E -> Periods, now: Periods, es: seq<E>, seen: set<Slot>,
                            flags: seq<bool>)
    requires |es| == |flags|
  {
    es != [] ==>
      && (KeepsNext(policy, now, at(es[0]), seen, |es| == 1) ==> flags[0])
      && Spares(policy, at, now, es[1..], seen + SlotsOf(at(es[0])), flags[1..])
  }

  /** Under `Latest` something is always left. */
  lemma {:induction false} SomethingSpared<E>(policy: RetentionPolicy, at: E -> Periods, now: Periods, es: seq<E>,
                                              seen: set<Slot>, flags: seq<bool>)
    requires |es| == |flags| && Spares(policy, at, now, es, seen, flags)
    ensures policy.preserveMin == Latest && es != [] ==> Pick(es, flags) != []
  {
    if |es| > 1 {
      SomethingSpared(policy, at, now, es[1..], seen + SlotsOf(at(es[0])), flags[1..]);
    }
  }

  lemma PickCons<E>(es: seq<E>, flags: seq<bool>)
    requires |es| == |flags| && es != []
    ensures Pick(es, flags) == (if flags[0] then [es[0]] else []) + Pick(es[1..], flags[1..])
  {
  }

  /** One entry of the older ones that is left. */
  lemma ComposeLeft<E>(policy: RetentionPolicy, at: E -> Periods, later: Periods, e: E, older: seq<E>, left: seq<E>,
                       newer: seq<E>, seen: set<Slot>, pruned: set<Slot>)
    requires Gap(policy, later, seen, pruned)
    requires Keep(policy, at, later, left + newer, pruned + SlotsOf(at(e)))
          == Keep(policy, at, later, older + newer, seen + SlotsOf(at(e)))
    requires policy.preserveMin == Latest ==> (left == [] <==> older == [])
    ensures Keep(policy, at, later, [e] + left + newer, pruned) == Keep(policy, at, later, [e] + older + newer, seen)
  {
    assert [e] + left + newer == [e] + (left + newer) && [e] + older + newer == [e] + (older + newer);
    assert ([e] + (left + newer))[1..] == left + newer && ([e] + (older + newer))[1..] == older + newer;
    SameDecision(policy, later, at(e), seen, pruned, older + newer == []);
    if policy.preserveMin != Latest {
      SameDecision(policy, later, at(e), seen, pruned, left + newer == []);
    }
  }

  /** One that is deleted. */
  lemma ComposeGone<E>(policy: RetentionPolicy, at: E -> Periods, now: Periods, later: Periods, e: E, older: seq<E>,
                       left: seq<E>, newer: seq<E>, seen: set<Slot>, pruned: set<Slot>)
    requires NotLater(now, later) && !KeepsNext(policy, now, at(e), seen, older == [])
    requires Keep(policy, at, later, left + newer, pruned)
          == Keep(policy, at, later, older + newer, seen + SlotsOf(at(e)))
    ensures Keep(policy, at, later, left + newer, pruned) == Keep(policy, at, later, [e] + older + newer, seen)
  {
    assert [e] + older + newer == [e] + (older + newer) && ([e] + (older + newer))[1..] == older + newer;
    KeptEarlier(policy, now, later, at(e), seen, older == []);
    KeptEarlier(policy, now, later, at(e), seen, false);
  }

  /**
   Removing some of the older entries, none that the policy keeps at the time, does not change what a
   later prune of everything keeps.
   */
  lemma {:induction false} PrunesCompose<E>(policy: RetentionPolicy, at: E -> Periods, now: Periods, later: Periods,
                                            older: seq<E>, flags: seq<bool>, newer: seq<E>, seen: set<Slot>,
                                            pruned: set<Slot>)
    requires NotLater(now, later) && Gap(policy, now, seen, pruned)
    requires |older| == |flags| && Spares(policy, at, now, older, seen, flags)
    ensures Keep(policy, at, later, Pick(older, flags) + newer, pruned)
         == Keep(policy, at, later, older + newer, seen)
  {
    GapLater(policy, now, later, seen, pruned);
    if older == [] {
      assert older + newer == newer && Pick(older, flags) + newer == newer;
      GapIsInvisible(policy, at, later, newer, seen, pruned);
    } else {
      var e, rest, left := older[0], older[1..], Pick(older[1..], flags[1..]);
      var more := seen + SlotsOf(at(e));
      PickCons(older, flags);
      assert older == [e] + rest;
      if flags[0] {
        PrunesCompose(policy, at, now, later, rest, flags[1..], newer, more, pruned + SlotsOf(at(e)));
        SomethingSpared(policy, at, now, rest, more, flags[1..]);
        ComposeLeft(policy, at, later, e, rest, left, newer, seen, pruned);
      } else {
        GapGrows(policy, now, at(e), seen, pruned, |older| == 1);
        PrunesCompose(policy, at, now, later, rest, flags[1..], newer, more, pruned);
        ComposeGone(policy, at, now, later, e, rest, left, newer, seen, pruned);
        assert [] + left == left;
      }
    }
  }

  lemma {:induction false} PickIsPart<E>(es: seq<E>, flags: seq<bool>)
    requires |es| == |flags|
    ensures forall x :: x in Pick(es, flags) ==> x in es
  {
    if es != [] {
      PickIsPart(es[1..], flags[1..]);
      PickCons(es, flags);
      assert forall x :: x in es[1..] ==> x in es;
    }
  }

  lemma {:induction false} PickSorted<E>(es: seq<E>, flags: seq<bool>, le: (E, E) -> bool)
    requires |es| == |flags| && Sorted(es, le)
    ensures Sorted(Pick(es, flags), le)
  {
    if es != [] {
      var rest := Pick(es[1..], flags[1..]);
      PickSorted(es[1..], flags[1..], le);
      PickIsPart(es[1..], flags[1..]);
      PickCons(es, flags);
      forall j | 0 <= j < |rest| ensures le(es[0], rest[j]) {
        assert rest[j] in es[1..];
      }
      if flags[0] {
        SortedCons(es[0], rest, le);
      } else {
        assert Pick(es, flags) == rest;
      }
    }
  }

  lemma SortedCons<E>(e: E, rest: seq<E>, le: (E, E) -> bool)
    requires Sorted(rest, le) && forall j :: 0 <= j < |rest| ==> le(e, rest[j])
    ensures Sorted([e] + rest, le)
  {
  }

  /** Flags that spare what was decided entry by entry. */
  lemma {:induction false} SparesDecided<E>(policy: RetentionPolicy, at: E -> Periods, now: Periods, es: seq<E>,
                                            decided: seq<bool>, flags: seq<bool>, k: nat)
    requires k <= |es| == |decided| == |flags|
    requires forall i :: 0 <= i < |es| ==> Decided(policy, at, now, es, decided, i) && (decided[i] ==> flags[i])
    ensures Spares(policy, at, now, es[k..], SeenBefore(at, es, k), flags[k..])
    decreases |es| - k
  {
    if k < |es| {
      SparesDecided(policy, at, now, es, decided, flags, k + 1);
      assert Decided(policy, at, now, es, decided, k);
      assert es[k..][1..] == es[k + 1..] && flags[k..][1..] == flags[k + 1..];
    }
  }

  // ---------------------------------------------------------------------------
  // Rounds of snapshots, each ended by a prune
  // ---------------------------------------------------------------------------

  /** Snapshots taken since the round before, and where `now` stands at the prune that ends it. */
  datatype Round<E> = Round(taken: seq<E>, now: Periods)

  ghost function AllTaken<E>(rounds: seq<Round<E>>): seq<E> {
    if rounds == [] then [] else AllTaken(rounds[..|rounds| - 1]) + rounds[|rounds| - 1].taken
  }

  /** Every snapshot sorts at or behind everything taken in earlier rounds, and `now` never goes back. */
  ghost predicate Advancing<E>(rounds: seq<Round<E>>, le: (E, E) -> bool) {
    && (forall i :: 0 < i < |rounds| ==> NotLater(rounds[i - 1].now, rounds[i].now))
    && (forall i, x, y :: 0 <= i < |rounds| && x in AllTaken(rounds[..i]) && y in rounds[i].taken ==> le(x, y))
  }

  lemma AdvancingPrefix<E>(rounds: seq<Round<E>>, le: (E, E) -> bool)
    requires rounds != [] && Advancing(rounds, le)
    ensures Advancing(rounds[..|rounds| - 1], le)
  {
    var before := rounds[..|rounds| - 1];
    forall i, x, y | 0 <= i < |before| && x in AllTaken(before[..i]) && y in before[i].taken ensures le(x, y) {
      assert before[..i] == rounds[..i] && before[i] == rounds[i];
    }
  }

  /**
   A prune, or a part of one: what is left of the sorted entries is some of them, among them all that the
   policy keeps.
   */
  ghost predicate Thinned<E>(policy: RetentionPolicy, at: E -> Periods, now: Periods, disk: seq<E>, left: seq<E>,
                             le: (E, E) -> bool)
  {
    exists flags: seq<bool> ::
      |flags| == |StableSort(disk, le)| && StableSort(left, le) == Pick(StableSort(disk, le), flags)
      && Spares(policy, at, now, StableSort(disk, le), {}, flags)
  }

  /** What round `i` finds on disk, when round `k` left `lefts[k]`. */
  function OnDisk<E>(rounds: seq<Round<E>>, lefts: seq<seq<E>>, i: nat): seq<E>
    requires i < |rounds| && i <= |lefts|
  {
    (if i == 0 then [] else lefts[i - 1]) + rounds[i].taken
  }

  /** Round `i` ended with a prune, or a part of one. */
  ghost predicate ThinnedAt<E>(policy: RetentionPolicy, at: E -> Periods, rounds: seq<Round<E>>, lefts: seq<seq<E>>,
                               le: (E, E) -> bool, i: nat)
    requires i < |rounds| && i < |lefts|
  {
    Thinned(policy, at, rounds[i].now, OnDisk(rounds, lefts, i), lefts[i], le)
  }

  /** Every round but the last did. */
  ghost predicate ThinnedBetween<E>(policy: RetentionPolicy, at: E -> Periods, rounds: seq<Round<E>>,
                                    lefts: seq<seq<E>>, le: (E, E) -> bool)
  {
    |rounds| == |lefts| + 1 && forall i :: 0 <= i < |lefts| ==> ThinnedAt(policy, at, rounds, lefts, le, i)
  }

  lemma OnDiskPrefix<E>(rounds: seq<Round<E>>, lefts: seq<seq<E>>, n: nat, i: nat)
    requires |rounds| == |lefts| + 1 && i <= n < |lefts|
    ensures OnDisk(rounds[..n + 1], lefts[..n], i) == OnDisk(rounds, lefts, i)
  {
  }

  lemma ThinnedPrefix<E>(policy: RetentionPolicy, at: E -> Periods, rounds: seq<Round<E>>, lefts: seq<seq<E>>,
                         le: (E, E) -> bool, n: nat)
    requires n < |lefts| && ThinnedBetween(policy, at, rounds, lefts, le)
    ensures ThinnedBetween(policy, at, rounds[..n + 1], lefts[..n], le)
  {
    var before, fewer := rounds[..n + 1], lefts[..n];
    forall i | 0 <= i < n ensures ThinnedAt(policy, at, before, fewer, le, i) {
      OnDiskPrefix(rounds, lefts, n, i);
      assert ThinnedAt(policy, at, rounds, lefts, le, i);
    }
  }

  lemma LeftIsPart<E(!new)>(policy: RetentionPolicy, at: E -> Periods, now: Periods, disk: seq<E>, left: seq<E>,
                            le: (E, E) -> bool)
    requires Thinned(policy, at, now, disk, left, le)
    ensures forall x :: x in left ==> x in disk
  {
    var es := StableSort(disk, le);
    var flags: seq<bool> :| |flags| == |es| && StableSort(left, le) == Pick(es, flags)
      && Spares(policy, at, now, es, {}, flags);
    PickIsPart(es, flags);
    SameElements(es, disk);
    SameElements(StableSort(left, le), left);
  }

  /** One prune, whole or in part, is invisible to a later one that also sees newer entries. */
  lemma OnePruneMore<E(!new)>(policy: RetentionPolicy, at: E -> Periods, last: Periods, later: Periods, disk: seq<E>,
                              left: seq<E>, newer: seq<E>, le: (E, E) -> bool)
    requires TotalPreorder(le) && NotLater(last, later) && Thinned(policy, at, last, disk, left, le)
    requires forall x, y :: x in disk && y in newer ==> le(x, y)
    ensures Keep(policy, at, later, StableSort(left + newer, le), {})
         == Keep(policy, at, later, StableSort(disk + newer, le), {})
  {
    var es := StableSort(disk, le);
    var flags: seq<bool> :| |flags| == |es| && StableSort(left, le) == Pick(es, flags)
      && Spares(policy, at, last, es, {}, flags);
    StableSortSorted(disk, le);
    LeftIsPart(policy, at, last, disk, left, le);
    StableSortAppend(disk, newer, le);
    StableSortAppend(left, newer, le);
    PrunesCompose(policy, at, last, later, es, flags, StableSort(newer, le), {}, {});
  }

  /** What is on disk was taken. */
  lemma {:induction false} OnDiskWasTaken<E(!new)>(policy: RetentionPolicy, at: E -> Periods, rounds: seq<Round<E>>,
          lefts: seq<seq<E>>, le: (E, E) -> bool)
    requires ThinnedBetween(policy, at, rounds, lefts, le)
    ensures forall x :: x in OnDisk(rounds, lefts, |lefts|) ==> x in AllTaken(rounds)
  {
    var n := |lefts|;
    if n > 0 {
      ThinnedPrefix(policy, at, rounds, lefts, le, n - 1);
      OnDiskWasTaken(policy, at, rounds[..n], lefts[..n - 1], le);
      OnDiskPrefix(rounds, lefts, n - 1, n - 1);
      assert ThinnedAt(policy, at, rounds, lefts, le, n - 1);
      LeftIsPart(policy, at, rounds[n - 1].now, OnDisk(rounds, lefts, n - 1), lefts[n - 1], le);
    }
  }

  /** What the last round but one deleted is invisible to a prune that sees this round and newer entries. */
  lemma LastPruneVanishes<E(!new)>(policy: RetentionPolicy, at: E -> Periods, rounds: seq<Round<E>>,
                                   lefts: seq<seq<E>>, later: Periods, newer: seq<E>, le: (E, E) -> bool, n: nat)
    requires TotalPreorder(le) && Advancing(rounds, le) && ThinnedBetween(policy, at, rounds, lefts, le)
    requires n + 1 == |lefts| && NotLater(rounds[n + 1].now, later)
    requires forall x, y :: x in AllTaken(rounds) && y in newer ==> le(x, y)
    ensures
      var batch := rounds[n + 1].taken + newer;
      Keep(policy, at, later, StableSort(lefts[n] + batch, le), {})
      == Keep(policy, at, later, StableSort(OnDisk(rounds, lefts, n) + batch, le), {})
  {
    ThinnedPrefix(policy, at, rounds, lefts, le, n);
    OnDiskPrefix(rounds, lefts, n, n);
    OnDiskWasTaken(policy, at, rounds[..n + 1], lefts[..n], le);
    NotLaterThrough(rounds[n].now, rounds[n + 1].now, later);
    BatchFollows(rounds, n + 1, newer, le);
    assert ThinnedAt(policy, at, rounds, lefts, le, n);
    OnePruneMore(policy, at, rounds[n].now, later, OnDisk(rounds, lefts, n), lefts[n], rounds[n + 1].taken + newer, le);
  }

  lemma Regroup<E>(a: seq<E>, b: seq<E>, c: seq<E>)
    ensures a + b + c == a + (b + c)
  {
  }

  lemma Batches<E>(rounds: seq<Round<E>>, lefts: seq<seq<E>>, newer: seq<E>, n: nat)
    requires |rounds| == |lefts| + 1 == n + 2
    ensures OnDisk(rounds, lefts, n + 1) + newer == lefts[n] + (rounds[n + 1].taken + newer)
    ensures AllTaken(rounds) + newer == AllTaken(rounds[..n + 1]) + (rounds[n + 1].taken + newer)
  {
    Regroup(lefts[n], rounds[n + 1].taken, newer);
    Regroup(AllTaken(rounds[..n + 1]), rounds[n + 1].taken, newer);
  }

  /** The theorem below, for a last prune that sees even newer entries. */
  lemma {:induction false} EarlierPrunesVanish<E(!new)>(policy: RetentionPolicy, at: E -> Periods,
          rounds: seq<Round<E>>, lefts: seq<seq<E>>, later: Periods, newer: seq<E>, le: (E, E) -> bool)
    requires TotalPreorder(le) && Advancing(rounds, le) && ThinnedBetween(policy, at, rounds, lefts, le)
    requires NotLater(rounds[|lefts|].now, later)
    requires forall x, y :: x in AllTaken(rounds) && y in newer ==> le(x, y)
    ensures Keep(policy, at, later, StableSort(OnDisk(rounds, lefts, |lefts|) + newer, le), {})
         == Keep(policy, at, later, StableSort(AllTaken(rounds) + newer, le), {})
    decreases |lefts|
  {
    if lefts == [] {
      assert AllTaken(rounds[..0]) == [];
      assert OnDisk(rounds, lefts, 0) == AllTaken(rounds);
    } else {
      var n := |lefts| - 1;
      LastPruneVanishes(policy, at, rounds, lefts, later, newer, le, n);
      AdvancingPrefix(rounds, le);
      ThinnedPrefix(policy, at, rounds, lefts, le, n);
      OnDiskPrefix(rounds, lefts, n, n);
      NotLaterThrough(rounds[n].now, rounds[n + 1].now, later);
      BatchFollows(rounds, n + 1, newer, le);
      EarlierPrunesVanish(policy, at, rounds[..n + 1], lefts[..n], later, rounds[n + 1].taken + newer, le);
      Batches(rounds, lefts, newer, n);
    }
  }

  lemma NotLaterThrough(a: Periods, b: Periods, c: Periods)
    requires NotLater(a, b) && NotLater(b, c)
    ensures NotLater(a, c)
  {
    forall unit: Unit ensures a.At(unit) <= c.At(unit) {
      assert a.At(unit) <= b.At(unit);
    }
  }

  lemma BatchFollows<E>(rounds: seq<Round<E>>, n: nat, newer: seq<E>, le: (E, E) -> bool)
    requires n + 1 == |rounds| && Advancing(rounds, le)
    requires forall x, y :: x in AllTaken(rounds) && y in newer ==> le(x, y)
    ensures forall x, y :: x in AllTaken(rounds[..n]) && y in rounds[n].taken + newer ==> le(x, y)
  {
  }

  /**
   Whatever the prunes of the earlier rounds deleted among what the policy did not keep, the last prune
   keeps exactly what it would have kept of everything ever taken.
   */
  lemma PathIndependence<E(!new)>(policy: RetentionPolicy, at: E -> Periods, rounds: seq<Round<E>>,
                                  lefts: seq<seq<E>>, le: (E, E) -> bool)
    requires TotalPreorder(le) && Advancing(rounds, le) && ThinnedBetween(policy, at, rounds, lefts, le)
    ensures
      var now := rounds[|lefts|].now;
      Keep(policy, at, now, StableSort(OnDisk(rounds, lefts, |lefts|), le), {})
      == Keep(policy, at, now, StableSort(AllTaken(rounds), le), {})
  {
    EarlierPrunesVanish(policy, at, rounds, lefts, rounds[|lefts|].now, [], le);
    assert OnDisk(rounds, lefts, |lefts|) + [] == OnDisk(rounds, lefts, |lefts|);
    assert AllTaken(rounds) + [] == AllTaken(rounds);
  }


  // ---------------------------------------------------------------------------
  // Bounds
  // ---------------------------------------------------------------------------

  /** The periods a tier can still keep: `0..n` steps back from `now`, for a tier that counts to `n > 0`. */
  ghost function TierSlots(policy: RetentionPolicy, now: Periods, unit: Unit): (s: set<Slot>)
    ensures forall slot :: slot in s <==>
      && slot.0 == unit && policy.Tier(unit).Some? && policy.Tier(unit).value.Count?
      && 0 <= now.At(unit) - slot.1 <= policy.Tier(unit).value.count && 0 < policy.Tier(unit).value.count
    ensures |s| == TierBound(policy, unit)
  {
    if policy.Tier(unit).Some? && policy.Tier(unit).value.Count? && policy.Tier(unit).value.count > 0 then
      SlotRange(unit, now.At(unit) - policy.Tier(unit).value.count, policy.Tier(unit).value.count + 1)
    else {}
  }

  ghost function SlotRange(unit: Unit, from: int, n: nat): (s: set<Slot>)
    ensures forall slot :: slot in s <==> slot.0 == unit && from <= slot.1 < from + n
    ensures |s| == n
  {
    if n == 0 then {} else SlotRange(unit, from, n - 1) + {(unit, from + n - 1)}
  }

  function TierBound(policy: RetentionPolicy, unit: Unit): nat {
    match policy.Tier(unit)
    case Some(Count(n)) => if n > 0 then n + 1 else 0
    case _ => 0
  }

  function PolicyBound(policy: RetentionPolicy): nat {
    TierBound(policy, Hours) + TierBound(policy, Days) + TierBound(policy, Weeks)
    + TierBound(policy, Months) + TierBound(policy, Years)
  }

  /** No floor, and every tier that is on counts. */
  predicate CountOnly(policy: RetentionPolicy) {
    && policy.preserveMin == NoFloor
    && policy.hourly != Some(All) && policy.daily != Some(All) && policy.weekly != Some(All)
    && policy.monthly != Some(All) && policy.yearly != Some(All)
  }

  ghost function AllSlots(policy: RetentionPolicy, now: Periods): (s: set<Slot>)
    ensures |s| <= PolicyBound(policy)
    ensures forall unit :: TierSlots(policy, now, unit) <= s
  {
    var a := TierSlots(policy, now, Hours) + TierSlots(policy, now, Days);
    var b := TierSlots(policy, now, Weeks) + TierSlots(policy, now, Months);
    a + b + TierSlots(policy, now, Years)
  }

  /** A kept entry uses up a slot nobody used before. */
  lemma UsesSlot(policy: RetentionPolicy, now: Periods, p: Periods, seen: set<Slot>, slots: set<Slot>, last: bool)
    requires CountOnly(policy) && NotLater(p, now)
    requires forall unit :: TierSlots(policy, now, unit) <= slots
    ensures |slots - (seen + SlotsOf(p))| + (if KeepsNext(policy, now, p, seen, last) then 1 else 0) <= |slots - seen|
  {
    var free, left := slots - seen, slots - (seen + SlotsOf(p));
    SubsetSize(left, free);
    if KeepsNext(policy, now, p, seen, last) {
      var unit :| NewInRange(policy, now, p, seen, unit);
      var slot := (unit, p.At(unit));
      assert policy.Tier(unit) != Some(All);
      assert slot in TierSlots(policy, now, unit);
      SmallerSubset(left, free, slot);
    }
  }

  lemma {:induction false} KeepBounded<E>(policy: RetentionPolicy, at: E -> Periods, now: Periods, es: seq<E>,
                                          seen: set<Slot>, slots: set<Slot>)
    requires CountOnly(policy)
    requires forall i :: 0 <= i < |es| ==> NotLater(at(es[i]), now)
    requires forall unit :: TierSlots(policy, now, unit) <= slots
    ensures |Keep(policy, at, now, es, seen)| <= |slots - seen|
  {
    if es != [] {
      UsesSlot(policy, now, at(es[0]), seen, slots, |es| == 1);
      KeepBounded(policy, at, now, es[1..], seen + SlotsOf(at(es[0])), slots);
    }
  }

  lemma {:induction false} SubsetSize<T>(a: set<T>, b: set<T>)
    requires a <= b
    ensures |a| <= |b|
  {
    if a != {} {
      var x :| x in a;
      SubsetSize(a - {x}, b - {x});
    }
  }

  lemma SmallerSubset<T>(a: set<T>, b: set<T>, x: T)
    requires a <= b && x in b && x !in a
    ensures |a| < |b|
  {
    SubsetSize(a, b - {x});
  }
}
