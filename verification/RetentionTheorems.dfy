/** The scheduler's laws, stated for the verdicts of `schedule` itself. */
module RetentionTheorems {
  import opened Wrappers
  import opened Sequences
  import opened Calendar
  import opened Retention
  import opened RetentionLaws
  import History = RetentionHistory

  // ---------------------------------------------------------------------------
  // Conservation and monotonicity, for every input
  // ---------------------------------------------------------------------------

  function Payloads<T>(es: seq<DatedEntry<T>>): (r: seq<T>)
    ensures |r| == |es|
    ensures forall i :: 0 <= i < |r| ==> r[i] == es[i].payload
  {
    seq(|es|, i requires 0 <= i < |es| => es[i].payload)
  }

  /** Put two lists back together, taking from the first where the flag is set. */
  function Merge<T>(flags: seq<bool>, a: seq<T>, b: seq<T>): seq<T> {
    if flags == [] then []
    else if flags[0] then (if a == [] then [] else [a[0]] + Merge(flags[1..], a[1..], b))
    else (if b == [] then [] else [b[0]] + Merge(flags[1..], a, b[1..]))
  }

  lemma {:induction false} SelectMerges<T>(es: seq<DatedEntry<T>>, flags: seq<bool>)
    requires |es| == |flags|
    ensures Merge(flags, Select(es, flags, true), Select(es, flags, false)) == Payloads(es)
  {
    if es != [] {
      SelectMerges(es[1..], flags[1..]);
      var a, b := Select(es[1..], flags[1..], true), Select(es[1..], flags[1..], false);
      assert Payloads(es) == [es[0].payload] + Payloads(es[1..]);
      if flags[0] {
        assert Select(es, flags, true) == [es[0].payload] + a && Select(es, flags, false) == b;
      } else {
        assert Select(es, flags, false) == [es[0].payload] + b && Select(es, flags, true) == a;
      }
    }
  }

  lemma MultisetCons<T>(x: T, s: seq<T>)
    ensures multiset([x] + s) == multiset{x} + multiset(s)
  {
  }

  lemma HeadAndTail<T>(s: seq<T>)
    requires s != []
    ensures s == [s[0]] + s[1..]
  {
  }

  lemma {:induction false} MergeKeepsAll<T>(flags: seq<bool>, a: seq<T>, b: seq<T>)
    requires |Merge(flags, a, b)| == |flags| == |a| + |b|
    ensures multiset(Merge(flags, a, b)) == multiset(a) + multiset(b)
  {
    if flags == [] {
      assert a == [] && b == [];
    } else if flags[0] {
      MergeKeepsAll(flags[1..], a[1..], b);
      HeadAndTail(a);
      MultisetCons(a[0], a[1..]);
      MultisetCons(a[0], Merge(flags[1..], a[1..], b));
    } else {
      MergeKeepsAll(flags[1..], a, b[1..]);
      HeadAndTail(b);
      MultisetCons(b[0], b[1..]);
      MultisetCons(b[0], Merge(flags[1..], a, b[1..]));
    }
  }

  lemma {:induction false} SelectSizes<T>(es: seq<DatedEntry<T>>, flags: seq<bool>)
    requires |es| == |flags|
    ensures |Select(es, flags, true)| + |Select(es, flags, false)| == |es|
  {
    if es != [] {
      SelectSizes(es[1..], flags[1..]);
    }
  }

  /**
   Preserve and delete are complementary, order-preserving parts of the sorted input: interleaving
   them by the verdict's flags gives the input back, and nothing is lost or invented.
   */
  lemma VerdictConserves<T>(input: seq<DatedEntry<T>>, policy: RetentionPolicy, now: DateTime)
    requires ValidEntries(SortEntries(input)) && Valid(now)
    ensures
      var es := SortEntries(input);
      var v := Verdict(es, policy, now);
      && Merge(Flags(policy, AllDeltas(es, now, policy)), v.preserve, v.delete) == Payloads(es)
      && multiset(v.preserve) + multiset(v.delete) == multiset(Payloads(input))
  {
    var es := SortEntries(input);
    var flags := Flags(policy, AllDeltas(es, now, policy));
    SelectMerges(es, flags);
    SelectSizes(es, flags);
    MergeKeepsAll(flags, Select(es, flags, true), Select(es, flags, false));
    SamePayloads(es, input);
  }

  lemma {:induction false} SamePayloads<T>(a: seq<DatedEntry<T>>, b: seq<DatedEntry<T>>)
    requires multiset(a) == multiset(b)
    ensures multiset(Payloads(a)) == multiset(Payloads(b))
  {
    if a == [] {
      assert |multiset(b)| == 0;
    } else {
      assert a == [a[0]] + a[1..];
      var k := TakeOut(b, a[0], a[1..]);
      SamePayloads(a[1..], b[..k] + b[k + 1..]);
      PayloadsWithout(a, 0);
      PayloadsWithout(b, k);
      assert a[..0] + a[1..] == a[1..];
    }
  }

  lemma WithoutOne<T>(b: seq<T>, k: nat)
    requires k < |b|
    ensures multiset(b) == multiset(b[..k] + b[k + 1..]) + multiset{b[k]}
  {
    assert b == b[..k] + [b[k]] + b[k + 1..];
  }

  lemma Cancel<T>(a: multiset<T>, b: multiset<T>, x: T)
    requires a + multiset{x} == multiset{x} + b
    ensures a == b
  {
    assert a == a + multiset{x} - multiset{x};
    assert b == multiset{x} + b - multiset{x};
  }

  lemma TakeOut<T>(b: seq<T>, x: T, rest: seq<T>) returns (k: nat)
    requires multiset([x] + rest) == multiset(b)
    ensures k < |b| && b[k] == x && multiset(b[..k] + b[k + 1..]) == multiset(rest)
  {
    assert x in multiset(b);
    k :| 0 <= k < |b| && b[k] == x;
    WithoutOne(b, k);
    MultisetCons(x, rest);
    Cancel(multiset(b[..k] + b[k + 1..]), multiset(rest), x);
  }

  lemma PayloadsWithout<T>(b: seq<DatedEntry<T>>, k: nat)
    requires k < |b|
    ensures multiset(Payloads(b)) == multiset(Payloads(b[..k] + b[k + 1..])) + multiset{b[k].payload}
  {
    var p := Payloads(b);
    assert p == p[..k] + [b[k].payload] + p[k + 1..];
    assert Payloads(b[..k] + b[k + 1..]) == p[..k] + p[k + 1..];
  }

  /** `b` keeps at least what `a` keeps in this tier. */
  predicate TierLe(a: Option<TierCount>, b: Option<TierCount>) {
    a == None || b == Some(All)
      || (a.Some? && b.Some? && a.value.Count? && b.value.Count? && a.value.count <= b.value.count)
  }

  predicate FloorLe(a: PreserveMin, b: PreserveMin) {
    || a == b || a == NoFloor || b == KeepAll
    || (a.Within? && b.Within? && a.unit == b.unit && a.count <= b.count)
  }

  /** The same calendar, with every count and the floor at least as generous. */
  predicate AtLeastAsGenerous(a: RetentionPolicy, b: RetentionPolicy) {
    && a.hourOfDay == b.hourOfDay && a.dayOfWeek == b.dayOfWeek
    && FloorLe(a.preserveMin, b.preserveMin)
    && TierLe(a.hourly, b.hourly) && TierLe(a.daily, b.daily) && TierLe(a.weekly, b.weekly)
    && TierLe(a.monthly, b.monthly) && TierLe(a.yearly, b.yearly)
  }

  lemma SameCalendarSameDeltas<T>(e: DatedEntry<T>, a: RetentionPolicy, b: RetentionPolicy, now: DateTime)
    requires ValidEntry(e) && Valid(now) && a.hourOfDay == b.hourOfDay && a.dayOfWeek == b.dayOfWeek
    ensures DeltasOf(e, now, a) == DeltasOf(e, now, b)
  {
    assert HoursIntoDay(e, a) == HoursIntoDay(e, b);
    assert DaysIntoWeek(e, a) == DaysIntoWeek(e, b);
    assert AnchorMonth(e, a) == AnchorMonth(e, b);
  }

  /** Raising counts or the floor only grows what is preserved, whatever the dates are. */
  lemma GenerosityGrows<T>(es: seq<DatedEntry<T>>, a: RetentionPolicy, b: RetentionPolicy, now: DateTime, i: nat)
    requires ValidEntries(es) && Valid(now) && i < |es| && AtLeastAsGenerous(a, b)
    ensures AllDeltas(es, now, a) == AllDeltas(es, now, b)
    ensures Kept(a, AllDeltas(es, now, a), i) ==> Kept(b, AllDeltas(es, now, b), i)
  {
    forall j | 0 <= j < |es| ensures DeltasOf(es[j], now, a) == DeltasOf(es[j], now, b) {
      SameCalendarSameDeltas(es[j], a, b, now);
    }
    assert AllDeltas(es, now, a) == AllDeltas(es, now, b);
    GenerousCovers(a, b, AllDeltas(es, now, a), i);
  }

  lemma GenerousCovers(a: RetentionPolicy, b: RetentionPolicy, d: seq<Deltas>, i: nat)
    requires i < |d| && AtLeastAsGenerous(a, b)
    ensures Kept(a, d, i) ==> Kept(b, d, i)
  {
    if unit :| TierKeeps(a, d, unit, i) {
      assert TierLe(a.Tier(unit), b.Tier(unit));
      assert TierKeeps(b, d, unit, i);
    }
  }

  // ---------------------------------------------------------------------------
  // The survivors of one run
  // ---------------------------------------------------------------------------

  function PeriodsOf(dt: DateTime, dow: Weekday): (p: Deltas)
    requires Valid(dt)
    ensures forall unit: Unit :: p.At(unit) == Period(unit, dt, dow)
  {
    Deltas(Period(Hours, dt, dow), Period(Days, dt, dow), Period(Weeks, dt, dow),
           Period(Months, dt, dow), Period(Years, dt, dow))
  }

  function NowPeriods(now: DateTime, dow: Weekday): (p: Deltas)
    requires Valid(now)
    ensures forall unit: Unit :: p.At(unit) == NowPeriod(unit, now, dow)
  {
    Deltas(NowPeriod(Hours, now, dow), NowPeriod(Days, now, dow), NowPeriod(Weeks, now, dow),
           NowPeriod(Months, now, dow), NowPeriod(Years, now, dow))
  }

  function Stamp<T>(dow: Weekday): DatedEntry<T> -> Deltas {
    (e: DatedEntry<T>) => if ValidEntry(e) then PeriodsOf(e.local, dow) else Deltas(0, 0, 0, 0, 0)
  }

  /** The entries one prune leaves behind, oldest first. */
  ghost function Survivors<T>(policy: RetentionPolicy, now: DateTime, es: seq<DatedEntry<T>>): seq<DatedEntry<T>>
    requires Valid(now)
  {
    History.Keep(policy, Stamp(policy.dayOfWeek), NowPeriods(now, policy.dayOfWeek), es, {})
  }

  lemma SlotIsOldest<T>(es: seq<DatedEntry<T>>, dow: Weekday, unit: Unit, k: nat)
    requires ValidEntries(es) && k < |es|
    ensures OldestOfPeriod(es, unit, k, dow)
      <==> (unit, Stamp(dow)(es[k]).At(unit)) !in History.SeenBefore(Stamp(dow), es, k)
  {
    History.SeenBeforeMeans(Stamp(dow), es, k, unit, Stamp(dow)(es[k]).At(unit));
    forall j | 0 <= j <= k ensures Stamp(dow)(es[j]).At(unit) == Period(unit, es[j].local, dow) {
    }
  }

  lemma NewIsFlat<T>(es: seq<DatedEntry<T>>, policy: RetentionPolicy, now: DateTime, k: nat, unit: Unit)
    requires ValidEntries(es) && Valid(now) && k < |es|
    ensures History.NewInRange(policy, NowPeriods(now, policy.dayOfWeek), Stamp(policy.dayOfWeek)(es[k]),
                               History.SeenBefore(Stamp(policy.dayOfWeek), es, k), unit)
       <==> FlatTier(es, policy, now, unit, k)
  {
    SlotIsOldest(es, policy.dayOfWeek, unit, k);
    assert Stamp(policy.dayOfWeek)(es[k]).At(unit) == Period(unit, es[k].local, policy.dayOfWeek);
  }

  lemma FloorHoldsIsFlat<T>(e: DatedEntry<T>, policy: RetentionPolicy, now: DateTime)
    requires ValidEntry(e) && Valid(now)
    ensures History.FloorHolds(policy, NowPeriods(now, policy.dayOfWeek), Stamp(policy.dayOfWeek)(e))
      <==> FloorKeeps(policy, e, now)
  {
    assert forall unit: Unit :: Stamp(policy.dayOfWeek)(e).At(unit) == Period(unit, e.local, policy.dayOfWeek);
  }

  lemma KeepsNextIsFlat<T>(es: seq<DatedEntry<T>>, policy: RetentionPolicy, now: DateTime, k: nat)
    requires ValidEntries(es) && Valid(now) && k < |es|
    ensures History.KeepsNext(policy, NowPeriods(now, policy.dayOfWeek), Stamp(policy.dayOfWeek)(es[k]),
                              History.SeenBefore(Stamp(policy.dayOfWeek), es, k), k == |es| - 1)
       <==> FlatKeeps(es, policy, now, k)
  {
    var p, at := NowPeriods(now, policy.dayOfWeek), Stamp(policy.dayOfWeek)(es[k]);
    var seen := History.SeenBefore(Stamp(policy.dayOfWeek), es, k);
    FloorHoldsIsFlat(es[k], policy, now);
    forall unit: Unit
      ensures History.NewInRange(policy, p, at, seen, unit) <==> FlatTier(es, policy, now, unit, k)
    {
      NewIsFlat(es, policy, now, k, unit);
    }
  }

  lemma PayloadsCons<T>(e: DatedEntry<T>, rest: seq<DatedEntry<T>>)
    ensures Payloads([e] + rest) == [e.payload] + Payloads(rest)
  {
  }

  lemma {:induction false} SelectPicks<T>(es: seq<DatedEntry<T>>, flags: seq<bool>)
    requires |es| == |flags|
    ensures Select(es, flags, true) == Payloads(History.Pick(es, flags))
  {
    if es != [] {
      SelectPicks(es[1..], flags[1..]);
      History.PickCons(es, flags);
      PayloadsCons(es[0], History.Pick(es[1..], flags[1..]));
      if !flags[0] {
        assert [] + History.Pick(es[1..], flags[1..]) == History.Pick(es[1..], flags[1..]);
      }
    }
  }

  /** The cascade's flags decide every entry as the flat rule does. */
  lemma VerdictDecides<T>(es: seq<DatedEntry<T>>, offset: int, policy: RetentionPolicy, now: DateTime)
    requires Timeline(es, offset) && WithinHorizon(es, now) && policy.hourOfDay == 0
    ensures forall i :: 0 <= i < |es| ==>
      History.Decided(policy, Stamp(policy.dayOfWeek), NowPeriods(now, policy.dayOfWeek), es,
                      Flags(policy, AllDeltas(es, now, policy)), i)
  {
    var flags := Flags(policy, AllDeltas(es, now, policy));
    var at, p := Stamp<T>(policy.dayOfWeek), NowPeriods(now, policy.dayOfWeek);
    forall i | 0 <= i < |es| ensures History.Decided(policy, at, p, es, flags, i) {
      CascadeIsFlat(es, offset, policy, now, i);
      KeepsNextIsFlat(es, policy, now, i);
    }
  }

  /** One run of the scheduler preserves the survivors, in order. */
  lemma VerdictKeepsSurvivors<T>(es: seq<DatedEntry<T>>, offset: int, policy: RetentionPolicy, now: DateTime)
    requires Timeline(es, offset) && WithinHorizon(es, now) && policy.hourOfDay == 0
    ensures Verdict(es, policy, now).preserve == Payloads(Survivors(policy, now, es))
    ensures Survivors(policy, now, es) == History.Pick(es, Flags(policy, AllDeltas(es, now, policy)))
  {
    var flags := Flags(policy, AllDeltas(es, now, policy));
    var at, p := Stamp<T>(policy.dayOfWeek), NowPeriods(now, policy.dayOfWeek);
    VerdictDecides(es, offset, policy, now);
    History.KeepPicks(policy, at, p, es, flags, 0);
    SelectPicks(es, flags);
    assert es[0..] == es && flags[0..] == flags;
  }

  /** With no floor and counting tiers, at most the sum of `n + 1` over the tiers with `n > 0` is kept. */
  lemma VerdictBounded<T>(es: seq<DatedEntry<T>>, offset: int, policy: RetentionPolicy, now: DateTime)
    requires Timeline(es, offset) && Valid(now) && policy.hourOfDay == 0
    requires forall i :: 0 <= i < |es| ==> HourIndex(es[i].local) <= HourIndex(now)
    requires History.CountOnly(policy)
    ensures |Verdict(es, policy, now).preserve| <= History.PolicyBound(policy)
  {
    var p, at := NowPeriods(now, policy.dayOfWeek), Stamp<T>(policy.dayOfWeek);
    VerdictKeepsSurvivors(es, offset, policy, now);
    forall i | 0 <= i < |es| ensures History.NotLater(at(es[i]), p) {
      forall unit: Unit ensures at(es[i]).At(unit) <= p.At(unit) {
        DeltasArePeriods(es[i], now, policy, unit);
      }
    }
    History.KeepBounded(policy, at, p, es, {}, History.AllSlots(policy, p));
    assert History.AllSlots(policy, p) - {} == History.AllSlots(policy, p);
  }

  /** The one tier that is on counts `n`, and there is no floor. */
  predicate OnlyTier(policy: RetentionPolicy, unit: Unit, n: u32) {
    && policy.preserveMin == NoFloor
    && policy.hourly == (if unit == Hours then Some(Count(n)) else None)
    && policy.daily == (if unit == Days then Some(Count(n)) else None)
    && policy.weekly == (if unit == Weeks then Some(Count(n)) else None)
    && policy.monthly == (if unit == Months then Some(Count(n)) else None)
    && policy.yearly == (if unit == Years then Some(Count(n)) else None)
  }

  /** One entry in each of the last `n + 1` periods, that of `now` included, oldest first. */
  ghost predicate OnePerPeriod<T>(es: seq<DatedEntry<T>>, unit: Unit, n: nat, now: DateTime, dow: Weekday)
    requires ValidEntries(es) && Valid(now)
  {
    |es| == n + 1 && forall i :: 0 <= i < |es| ==> Period(unit, es[i].local, dow) == NowPeriod(unit, now, dow) - n + i
  }

  lemma {:induction false} AllFlagged<T>(es: seq<DatedEntry<T>>, flags: seq<bool>)
    requires |es| == |flags| && forall i :: 0 <= i < |flags| ==> flags[i]
    ensures Select(es, flags, true) == Payloads(es) && Select(es, flags, false) == []
  {
    if es != [] {
      AllFlagged(es[1..], flags[1..]);
      PayloadsCons(es[0], es[1..]);
      assert es == [es[0]] + es[1..];
    }
  }

  lemma InFullIsKept<T>(es: seq<DatedEntry<T>>, offset: int, policy: RetentionPolicy, now: DateTime, unit: Unit,
                        n: u32, i: nat)
    requires Timeline(es, offset) && WithinHorizon(es, now) && policy.hourOfDay == 0 && n > 0 && i < |es|
    requires policy.Tier(unit) == Some(Count(n)) && OnePerPeriod(es, unit, n, now, policy.dayOfWeek)
    ensures Kept(policy, AllDeltas(es, now, policy), i)
  {
    TierIsFlat(es, offset, policy, now, unit, i);
  }

  lemma BoundOfOne(policy: RetentionPolicy, unit: Unit, n: u32)
    requires OnlyTier(policy, unit, n) && n > 0
    ensures policy.Tier(unit) == Some(Count(n)) && History.PolicyBound(policy) == n + 1
  {
  }

  /** The bound is reached: of one entry in each of the last `n + 1` periods a tier of `n` alone loses none. */
  lemma BoundIsReached<T>(es: seq<DatedEntry<T>>, offset: int, policy: RetentionPolicy, now: DateTime, unit: Unit,
                          n: u32)
    requires Timeline(es, offset) && WithinHorizon(es, now) && policy.hourOfDay == 0 && n > 0
    requires OnlyTier(policy, unit, n) && OnePerPeriod(es, unit, n, now, policy.dayOfWeek)
    ensures Verdict(es, policy, now) == Schedule(Payloads(es), [])
    ensures |Verdict(es, policy, now).preserve| == n + 1 == History.PolicyBound(policy)
  {
    BoundOfOne(policy, unit, n);
    forall i | 0 <= i < |es| ensures Kept(policy, AllDeltas(es, now, policy), i) {
      InFullIsKept(es, offset, policy, now, unit, n, i);
    }
    AllFlagged(es, Flags(policy, AllDeltas(es, now, policy)));
  }

  /** An entry of the next older period is one too many. */
  lemma OnePeriodMore<T>(es: seq<DatedEntry<T>>, offset: int, policy: RetentionPolicy, now: DateTime, unit: Unit,
                         n: u32, i: nat)
    requires Timeline(es, offset) && WithinHorizon(es, now) && policy.hourOfDay == 0 && OnlyTier(policy, unit, n)
    requires i < |es| && Period(unit, es[i].local, policy.dayOfWeek) < NowPeriod(unit, now, policy.dayOfWeek) - n
    ensures !Kept(policy, AllDeltas(es, now, policy), i)
  {
    CascadeIsFlat(es, offset, policy, now, i);
  }

  /** The first hour of an hour, a day or a week. */
  function FirstHourOf(unit: Unit, period: int, dow: Weekday): int {
    match unit
    case Hours => period
    case Days => period * HOURS_PER_DAY
    case _ => (period * DAYS_PER_WEEK + WeekPhase(dow)) * HOURS_PER_DAY
  }

  lemma OpensItsPeriod(unit: Unit, period: int, dow: Weekday)
    requires unit in {Hours, Days, Weeks}
    ensures Period(unit, AtHour(FirstHourOf(unit, period, dow), 0).local, dow) == period
  {
    assert WeekIndex(period * DAYS_PER_WEEK + WeekPhase(dow), dow) == period;
  }

  lemma OpensByNow(unit: Unit, period: int, now: DateTime, dow: Weekday)
    requires unit in {Hours, Days, Weeks} && Valid(now) && period <= NowPeriod(unit, now, dow)
    ensures Placed(AtHour(FirstHourOf(unit, period, dow), 0), now)
  {
    HourIndexOfSeconds(now);
    assert WeekIndex(DayOf(now), dow) * DAYS_PER_WEEK + WeekPhase(dow) <= DayOf(now);
  }

  lemma OpensLater(unit: Unit, earlier: int, later: int, dow: Weekday)
    requires earlier < later
    ensures EntryLe(AtHour(FirstHourOf(unit, earlier, dow), 0), AtHour(FirstHourOf(unit, later, dow), 0))
  {
    assert FirstHourOf(unit, earlier, dow) < FirstHourOf(unit, later, dow);
  }

  /** An entry at the start of each of `n + 1` periods from `first` on. */
  function FullTimeline(unit: Unit, n: nat, first: int, dow: Weekday): (es: seq<DatedEntry<int>>)
    ensures |es| == n + 1
    ensures forall i :: 0 <= i < |es| ==> es[i] == AtHour(FirstHourOf(unit, first + i, dow), 0)
  {
    seq(n + 1, i requires 0 <= i < n + 1 => AtHour(FirstHourOf(unit, first + i, dow), 0))
  }

  lemma FullIsTimeline(unit: Unit, n: nat, first: int, dow: Weekday)
    ensures Timeline(FullTimeline(unit, n, first, dow), 0)
  {
    var es := FullTimeline(unit, n, first, dow);
    forall i, j | 0 <= i < j < |es| ensures EntryLe(es[i], es[j]) {
      OpensLater(unit, first + i, first + j, dow);
    }
  }

  /** There are such entries for the hours, the days and the weeks, whenever `now` is. */
  lemma SomeFullTimeline(unit: Unit, n: nat, now: DateTime, dow: Weekday) returns (es: seq<DatedEntry<int>>)
    requires unit in {Hours, Days, Weeks} && Valid(now)
    ensures Timeline(es, 0) && WithinHorizon(es, now) && OnePerPeriod(es, unit, n, now, dow)
  {
    var first := NowPeriod(unit, now, dow) - n;
    es := FullTimeline(unit, n, first, dow);
    FullIsTimeline(unit, n, first, dow);
    forall i | 0 <= i < |es| ensures Placed(es[i], now) {
      OpensByNow(unit, first + i, now, dow);
    }
    forall i | 0 <= i < |es| ensures Period(unit, es[i].local, dow) == first + i {
      OpensItsPeriod(unit, first + i, dow);
    }
  }

  // ---------------------------------------------------------------------------
  // Path independence
  // ---------------------------------------------------------------------------

  /** Subvolumes created since the last prune, and the time of the prune that ends the round. */
  datatype Round<T> = Round(taken: seq<T>, now: DateTime)

  /** The way a subvolume's name is read: one entry per subvolume, carrying the subvolume. */
  ghost predicate Dates<T(!new)>(date: T -> DatedEntry<T>) {
    forall x :: date(x).payload == x
  }

  function DateAll<T>(date: T -> DatedEntry<T>, xs: seq<T>): (es: seq<DatedEntry<T>>)
    ensures |es| == |xs|
    ensures forall i :: 0 <= i < |es| ==> es[i] == date(xs[i])
  {
    seq(|xs|, i requires 0 <= i < |xs| => date(xs[i]))
  }

  /** What one prune of these subvolumes preserves. */
  ghost function Prune<T>(policy: RetentionPolicy, date: T -> DatedEntry<T>, now: DateTime, xs: seq<T>): seq<T> {
    var es := SortEntries(DateAll(date, xs));
    if ValidEntries(es) && Valid(now) then Verdict(es, policy, now).preserve else xs
  }

  ghost function AllTaken<T>(rounds: seq<Round<T>>): seq<T> {
    if rounds == [] then [] else AllTaken(rounds[..|rounds| - 1]) + rounds[|rounds| - 1].taken
  }

  /** What is on disk when every round ends with a prune. */
  ghost function PrunedEachRound<T>(policy: RetentionPolicy, date: T -> DatedEntry<T>, rounds: seq<Round<T>>): seq<T> {
    if rounds == [] then []
    else
      var round := rounds[|rounds| - 1];
      Prune(policy, date, round.now, PrunedEachRound(policy, date, rounds[..|rounds| - 1]) + round.taken)
  }

  /** The entry is on the reference offset and not after `now`. */
  ghost predicate TakenBy<T>(e: DatedEntry<T>, now: DateTime, offset: int) {
    Valid(now) && OnOffset(e, offset) && Seconds(e.local) <= Seconds(now)
  }

  /** Every subvolume of an earlier round sorts before, or with, every one of a later round. */
  ghost predicate RoundsInOrder<T(!new)>(date: T -> DatedEntry<T>, rounds: seq<Round<T>>) {
    forall i, j, x, y ::
      0 <= i < j < |rounds| && x in rounds[i].taken && y in rounds[j].taken ==> EntryLe(date(x), date(y))
  }

  /** Clocks that do not run backwards, one reference offset throughout, and names that follow the order of creation. */
  ghost predicate Chronicle<T(!new)>(date: T -> DatedEntry<T>, rounds: seq<Round<T>>, offset: int) {
    && (forall i :: 0 <= i < |rounds| ==> Valid(rounds[i].now))
    && (forall i :: 0 < i < |rounds| ==> Seconds(rounds[i - 1].now) <= Seconds(rounds[i].now))
    && (forall i, x :: 0 <= i < |rounds| && x in rounds[i].taken ==> TakenBy(date(x), rounds[i].now, offset))
    && RoundsInOrder(date, rounds)
  }

  lemma {:induction false} ChroniclePrefix<T(!new)>(date: T -> DatedEntry<T>, rounds: seq<Round<T>>, offset: int,
                                                     n: nat)
    requires n <= |rounds| && Chronicle(date, rounds, offset)
    ensures Chronicle(date, rounds[..n], offset)
  {
    var before := rounds[..n];
    forall i, x | 0 <= i < |before| && x in before[i].taken ensures TakenBy(date(x), before[i].now, offset) {
      assert x in rounds[i].taken;
    }
    forall i, j, x, y | 0 <= i < j < |before| && x in before[i].taken && y in before[j].taken
      ensures EntryLe(date(x), date(y))
    {
      assert x in rounds[i].taken && y in rounds[j].taken;
    }
  }

  /** What was taken was taken in some round. */
  lemma {:induction false} TakenInRound<T>(rounds: seq<Round<T>>, x: T) returns (k: nat)
    requires x in AllTaken(rounds)
    ensures k < |rounds| && x in rounds[k].taken
  {
    k := |rounds| - 1;
    if x !in rounds[k].taken {
      k := TakenInRound(rounds[..k], x);
    }
  }

  lemma {:induction false} TakenIsPast<T(!new)>(date: T -> DatedEntry<T>, rounds: seq<Round<T>>, offset: int)
    requires rounds != [] && Chronicle(date, rounds, offset)
    ensures forall x :: x in AllTaken(rounds) ==> TakenBy(date(x), rounds[|rounds| - 1].now, offset)
  {
    var n := |rounds| - 1;
    if n > 0 {
      ChroniclePrefix(date, rounds, offset, n);
      TakenIsPast(date, rounds[..n], offset);
    }
  }

  lemma EntryOrder<T(!new)>()
    ensures TotalPreorder<DatedEntry<T>>(EntryLe)
  {
  }

  /** Sorting dated subvolumes that are all in the past gives a timeline with nothing after `now`. */
  lemma SortedTimeline<T(!new)>(date: T -> DatedEntry<T>, xs: seq<T>, offset: int, now: DateTime)
    requires Valid(now)
    requires forall x :: x in xs ==> OnOffset(date(x), offset) && Seconds(date(x).local) <= Seconds(now)
    ensures Timeline(SortEntries(DateAll(date, xs)), offset) && WithinHorizon(SortEntries(DateAll(date, xs)), now)
  {
    var es := SortEntries(DateAll(date, xs));
    EntryOrder<T>();
    StableSortSorted(DateAll(date, xs), EntryLe);
    forall i | 0 <= i < |es| ensures OnOffset(es[i], offset) && Placed(es[i], now) {
      assert es[i] in multiset(DateAll(date, xs));
      HourIndexOfSeconds(es[i].local);
      HourIndexOfSeconds(now);
    }
  }

  function DateRound<T>(date: T -> DatedEntry<T>, round: Round<T>, dow: Weekday): History.Round<DatedEntry<T>>
    requires Valid(round.now)
  {
    History.Round(DateAll(date, round.taken), NowPeriods(round.now, dow))
  }

  function DateRounds<T>(date: T -> DatedEntry<T>, rounds: seq<Round<T>>, dow: Weekday)
    : (r: seq<History.Round<DatedEntry<T>>>)
    requires forall i :: 0 <= i < |rounds| ==> Valid(rounds[i].now)
    ensures |r| == |rounds|
    ensures forall i :: 0 <= i < |r| ==> r[i] == DateRound(date, rounds[i], dow)
  {
    seq(|rounds|, i requires 0 <= i < |rounds| => DateRound(date, rounds[i], dow))
  }

  lemma DateAllConcat<T>(date: T -> DatedEntry<T>, a: seq<T>, b: seq<T>)
    ensures DateAll(date, a + b) == DateAll(date, a) + DateAll(date, b)
  {
  }

  lemma {:induction false} DatedAllTaken<T>(date: T -> DatedEntry<T>, rounds: seq<Round<T>>, dow: Weekday)
    requires forall i :: 0 <= i < |rounds| ==> Valid(rounds[i].now)
    ensures History.AllTaken(DateRounds(date, rounds, dow)) == DateAll(date, AllTaken(rounds))
  {
    if rounds != [] {
      var before := rounds[..|rounds| - 1];
      DatedAllTaken(date, before, dow);
      assert DateRounds(date, rounds, dow)[..|rounds| - 1] == DateRounds(date, before, dow);
      DateAllConcat(date, AllTaken(before), rounds[|rounds| - 1].taken);
    }
  }

  /** Dating what was preserved gives the surviving entries back. */
  lemma RedatePreserved<T(!new)>(policy: RetentionPolicy, date: T -> DatedEntry<T>, now: DateTime, xs: seq<T>,
                                 offset: int)
    requires Dates(date) && policy.hourOfDay == 0 && Valid(now)
    requires forall x :: x in xs ==> OnOffset(date(x), offset) && Seconds(date(x).local) <= Seconds(now)
    ensures DateAll(date, Prune(policy, date, now, xs)) == Survivors(policy, now, SortEntries(DateAll(date, xs)))
  {
    var es := SortEntries(DateAll(date, xs));
    SortedTimeline(date, xs, offset, now);
    VerdictKeepsSurvivors(es, offset, policy, now);
    var kept := Survivors(policy, now, es);
    forall i | 0 <= i < |kept| ensures date(kept[i].payload) == kept[i] {
      assert kept[i] in es;
      assert kept[i] in multiset(DateAll(date, xs));
    }
  }

  /** What round `i` finds on disk, when round `k` left `lefts[k]`. */
  function OnDisk<T>(rounds: seq<Round<T>>, lefts: seq<seq<T>>, i: nat): seq<T>
    requires i < |rounds| && i <= |lefts|
  {
    (if i == 0 then [] else lefts[i - 1]) + rounds[i].taken
  }

  /** A prune, or a part of one: what is left are some of the entries, among them all that the policy keeps. */
  ghost predicate Thinned<T>(policy: RetentionPolicy, date: T -> DatedEntry<T>, now: DateTime, disk: seq<T>,
                             left: seq<T>)
    requires Valid(now)
  {
    History.Thinned(policy, Stamp(policy.dayOfWeek), NowPeriods(now, policy.dayOfWeek), DateAll(date, disk),
                    DateAll(date, left), EntryLe)
  }

  /** Every round but the last ended with a prune, or a part of one. */
  ghost predicate ThinnedBetween<T>(policy: RetentionPolicy, date: T -> DatedEntry<T>, rounds: seq<Round<T>>,
                                    lefts: seq<seq<T>>)
    requires forall i :: 0 <= i < |rounds| ==> Valid(rounds[i].now)
  {
    && |rounds| == |lefts| + 1
    && forall i :: 0 <= i < |lefts| ==> Thinned(policy, date, rounds[i].now, OnDisk(rounds, lefts, i), lefts[i])
  }

  function DateLefts<T>(date: T -> DatedEntry<T>, lefts: seq<seq<T>>): (r: seq<seq<DatedEntry<T>>>)
    ensures |r| == |lefts|
    ensures forall i :: 0 <= i < |r| ==> r[i] == DateAll(date, lefts[i])
  {
    seq(|lefts|, i requires 0 <= i < |lefts| => DateAll(date, lefts[i]))
  }

  lemma DatedOnDisk<T>(date: T -> DatedEntry<T>, rounds: seq<Round<T>>, lefts: seq<seq<T>>, dow: Weekday, i: nat)
    requires i < |rounds| && i <= |lefts| && forall k :: 0 <= k < |rounds| ==> Valid(rounds[k].now)
    ensures History.OnDisk(DateRounds(date, rounds, dow), DateLefts(date, lefts), i)
         == DateAll(date, OnDisk(rounds, lefts, i))
  {
    if i > 0 {
      DateAllConcat(date, lefts[i - 1], rounds[i].taken);
    } else {
      assert [] + rounds[i].taken == rounds[i].taken;
    }
  }

  lemma DatedBetween<T>(policy: RetentionPolicy, date: T -> DatedEntry<T>, rounds: seq<Round<T>>, lefts: seq<seq<T>>)
    requires forall i :: 0 <= i < |rounds| ==> Valid(rounds[i].now)
    requires ThinnedBetween(policy, date, rounds, lefts)
    ensures History.ThinnedBetween(policy, Stamp(policy.dayOfWeek), DateRounds(date, rounds, policy.dayOfWeek),
                                   DateLefts(date, lefts), EntryLe)
  {
    var at, rs, ls := Stamp<T>(policy.dayOfWeek), DateRounds(date, rounds, policy.dayOfWeek), DateLefts(date, lefts);
    forall i | 0 <= i < |ls| ensures History.ThinnedAt(policy, at, rs, ls, EntryLe, i) {
      DatedOnDisk(date, rounds, lefts, policy.dayOfWeek, i);
      assert Thinned(policy, date, rounds[i].now, OnDisk(rounds, lefts, i), lefts[i]);
    }
  }

  /** What is on disk was taken. */
  lemma {:induction false} OnDiskWasTaken<T(!new)>(policy: RetentionPolicy, date: T -> DatedEntry<T>,
          rounds: seq<Round<T>>, lefts: seq<seq<T>>, x: T)
    requires Dates(date) && forall i :: 0 <= i < |rounds| ==> Valid(rounds[i].now)
    requires ThinnedBetween(policy, date, rounds, lefts) && x in OnDisk(rounds, lefts, |lefts|)
    ensures x in AllTaken(rounds)
  {
    var dow, n := policy.dayOfWeek, |lefts|;
    DatedBetween(policy, date, rounds, lefts);
    History.OnDiskWasTaken(policy, Stamp(dow), DateRounds(date, rounds, dow), DateLefts(date, lefts), EntryLe);
    DatedOnDisk(date, rounds, lefts, dow, n);
    DatedAllTaken(date, rounds, dow);
    var k :| 0 <= k < |OnDisk(rounds, lefts, n)| && OnDisk(rounds, lefts, n)[k] == x;
    assert DateAll(date, OnDisk(rounds, lefts, n))[k] == date(x);
    var y := Undated(date, AllTaken(rounds), date(x));
    assert date(y).payload == y && date(x).payload == x;
  }

  /**
   Whatever the prunes of the earlier rounds deleted among what the policy did not keep, the last prune
   preserves exactly what it would have preserved of everything ever taken.
   */
  lemma EarlierPrunesVanish<T(!new)>(policy: RetentionPolicy, date: T -> DatedEntry<T>, rounds: seq<Round<T>>,
                                     lefts: seq<seq<T>>, offset: int)
    requires Dates(date) && Chronicle(date, rounds, offset) && policy.hourOfDay == 0
    requires ThinnedBetween(policy, date, rounds, lefts)
    ensures
      var now := rounds[|lefts|].now;
      Prune(policy, date, now, OnDisk(rounds, lefts, |lefts|)) == Prune(policy, date, now, AllTaken(rounds))
  {
    var dow, n := policy.dayOfWeek, |lefts|;
    var disk, all, now := OnDisk(rounds, lefts, n), AllTaken(rounds), rounds[n].now;
    SameKept(policy, date, rounds, lefts, offset);
    TakenIsPast(date, rounds, offset);
    forall x | x in disk ensures TakenBy(date(x), now, offset) {
      OnDiskWasTaken(policy, date, rounds, lefts, x);
    }
    RedatePreserved(policy, date, now, disk, offset);
    RedatePreserved(policy, date, now, all, offset);
    SameDates(date, Prune(policy, date, now, disk), Prune(policy, date, now, all));
  }

  lemma SameKept<T(!new)>(policy: RetentionPolicy, date: T -> DatedEntry<T>, rounds: seq<Round<T>>,
                          lefts: seq<seq<T>>, offset: int)
    requires Chronicle(date, rounds, offset) && ThinnedBetween(policy, date, rounds, lefts)
    ensures
      var now := rounds[|lefts|].now;
      Survivors(policy, now, SortEntries(DateAll(date, OnDisk(rounds, lefts, |lefts|))))
      == Survivors(policy, now, SortEntries(DateAll(date, AllTaken(rounds))))
  {
    var dow := policy.dayOfWeek;
    EntryOrder<T>();
    RoundsAdvance(date, rounds, dow, offset);
    DatedBetween(policy, date, rounds, lefts);
    History.PathIndependence(policy, Stamp(dow), DateRounds(date, rounds, dow), DateLefts(date, lefts), EntryLe);
    DatedOnDisk(date, rounds, lefts, dow, |lefts|);
    DatedAllTaken(date, rounds, dow);
  }

  /** Leaving at least what the scheduler flags is thinning. */
  lemma SparingThins<T(!new)>(policy: RetentionPolicy, date: T -> DatedEntry<T>, now: DateTime, disk: seq<T>,
                              left: seq<T>, flags: seq<bool>, offset: int)
    requires policy.hourOfDay == 0 && Valid(now)
    requires forall x :: x in disk ==> OnOffset(date(x), offset) && Seconds(date(x).local) <= Seconds(now)
    requires ValidEntries(SortEntries(DateAll(date, disk)))
    requires
      var es := SortEntries(DateAll(date, disk));
      && |flags| == |es| && SortEntries(DateAll(date, left)) == History.Pick(es, flags)
      && forall i :: 0 <= i < |es| && Flags(policy, AllDeltas(es, now, policy))[i] ==> flags[i]
    ensures Thinned(policy, date, now, disk, left)
  {
    var es := SortEntries(DateAll(date, disk));
    var at, p := Stamp<T>(policy.dayOfWeek), NowPeriods(now, policy.dayOfWeek);
    SortedTimeline(date, disk, offset, now);
    VerdictDecides(es, offset, policy, now);
    History.SparesDecided(policy, at, p, es, Flags(policy, AllDeltas(es, now, policy)), flags, 0);
    assert es[0..] == es && flags[0..] == flags;
    assert History.Spares(policy, at, p, es, {}, flags);
  }

  // ---------------------------------------------------------------------------
  // Prunes that delete all they can
  // ---------------------------------------------------------------------------

  /** A whole prune thins, of course. */
  lemma PruneThins<T(!new)>(policy: RetentionPolicy, date: T -> DatedEntry<T>, now: DateTime, disk: seq<T>,
                            offset: int)
    requires Dates(date) && policy.hourOfDay == 0 && Valid(now)
    requires forall x :: x in disk ==> OnOffset(date(x), offset) && Seconds(date(x).local) <= Seconds(now)
    ensures Thinned(policy, date, now, disk, Prune(policy, date, now, disk))
  {
    var es := SortEntries(DateAll(date, disk));
    SortedTimeline(date, disk, offset, now);
    var flags := Flags(policy, AllDeltas(es, now, policy));
    EntryOrder<T>();
    StableSortSorted(DateAll(date, disk), EntryLe);
    RedatePreserved(policy, date, now, disk, offset);
    VerdictKeepsSurvivors(es, offset, policy, now);
    History.PickSorted(es, flags, EntryLe);
    StableSortOfSorted(History.Pick(es, flags), EntryLe);
    SparingThins(policy, date, now, disk, Prune(policy, date, now, disk), flags, offset);
  }

  /** What the whole prunes of the earlier rounds leave. */
  ghost function Lefts<T>(policy: RetentionPolicy, date: T -> DatedEntry<T>, rounds: seq<Round<T>>)
    : (r: seq<seq<T>>)
    requires rounds != []
    ensures |r| == |rounds| - 1
    ensures forall i :: 0 <= i < |r| ==> r[i] == PrunedEachRound(policy, date, rounds[..i + 1])
  {
    seq(|rounds| - 1, i requires 0 <= i < |rounds| - 1 => PrunedEachRound(policy, date, rounds[..i + 1]))
  }

  lemma {:induction false} SelectIsPart<T>(es: seq<DatedEntry<T>>, flags: seq<bool>, want: bool, x: T)
    requires |es| == |flags| && x in Select(es, flags, want)
    ensures x in Payloads(es)
  {
    if x in Select(es[1..], flags[1..], want) {
      SelectIsPart(es[1..], flags[1..], want, x);
      assert Payloads(es) == [es[0].payload] + Payloads(es[1..]);
    } else {
      assert Payloads(es)[0] == x;
    }
  }

  /** A prune preserves only what was there. */
  lemma {:induction false} PreservedIsOnDisk<T(!new)>(policy: RetentionPolicy, date: T -> DatedEntry<T>,
                                                       now: DateTime, disk: seq<T>, x: T)
    requires Dates(date) && x in Prune(policy, date, now, disk)
    ensures x in disk
  {
    var es := SortEntries(DateAll(date, disk));
    if ValidEntries(es) && Valid(now) {
      SelectIsPart(es, Flags(policy, AllDeltas(es, now, policy)), true, x);
      var k :| 0 <= k < |es| && es[k].payload == x;
      assert es[k] in multiset(DateAll(date, disk));
    }
  }

  lemma {:induction false} PrunedWasTaken<T(!new)>(policy: RetentionPolicy, date: T -> DatedEntry<T>,
          rounds: seq<Round<T>>, x: T)
    requires Dates(date) && x in PrunedEachRound(policy, date, rounds)
    ensures x in AllTaken(rounds)
  {
    var n := |rounds| - 1;
    PreservedIsOnDisk(policy, date, rounds[n].now, PrunedEachRound(policy, date, rounds[..n]) + rounds[n].taken, x);
    if x !in rounds[n].taken {
      PrunedWasTaken(policy, date, rounds[..n], x);
    }
  }

  lemma {:induction false} PrunedThrough<T>(policy: RetentionPolicy, date: T -> DatedEntry<T>, rounds: seq<Round<T>>,
                                            i: nat)
    requires i < |rounds|
    ensures PrunedEachRound(policy, date, rounds[..i + 1])
         == Prune(policy, date, rounds[i].now, PrunedEachRound(policy, date, rounds[..i]) + rounds[i].taken)
    ensures AllTaken(rounds[..i + 1]) == AllTaken(rounds[..i]) + rounds[i].taken
  {
    assert rounds[..i + 1][..i] == rounds[..i];
  }

  lemma {:induction false} LeftsOnDisk<T>(policy: RetentionPolicy, date: T -> DatedEntry<T>, rounds: seq<Round<T>>,
                                          i: nat)
    requires i < |rounds|
    ensures OnDisk(rounds, Lefts(policy, date, rounds), i)
         == PrunedEachRound(policy, date, rounds[..i]) + rounds[i].taken
    ensures PrunedEachRound(policy, date, rounds[..i + 1])
         == Prune(policy, date, rounds[i].now, OnDisk(rounds, Lefts(policy, date, rounds), i))
    ensures AllTaken(rounds[..i + 1]) == AllTaken(rounds[..i]) + rounds[i].taken
  {
    PrunedThrough(policy, date, rounds, i);
    if i == 0 {
      assert rounds[..0] == [];
    }
  }

  lemma WholePrunesThin<T(!new)>(policy: RetentionPolicy, date: T -> DatedEntry<T>, rounds: seq<Round<T>>, offset: int)
    requires Dates(date) && rounds != [] && Chronicle(date, rounds, offset) && policy.hourOfDay == 0
    ensures ThinnedBetween(policy, date, rounds, Lefts(policy, date, rounds))
  {
    var lefts := Lefts(policy, date, rounds);
    forall i | 0 <= i < |lefts| ensures Thinned(policy, date, rounds[i].now, OnDisk(rounds, lefts, i), lefts[i]) {
      var disk := OnDisk(rounds, lefts, i);
      LeftsOnDisk(policy, date, rounds, i);
      ChroniclePrefix(date, rounds, offset, i + 1);
      TakenIsPast(date, rounds[..i + 1], offset);
      forall x | x in disk ensures TakenBy(date(x), rounds[i].now, offset) {
        if x in PrunedEachRound(policy, date, rounds[..i]) {
          PrunedWasTaken(policy, date, rounds[..i], x);
        }
      }
      PruneThins(policy, date, rounds[i].now, disk, offset);
    }
  }

  /**
   Pruning after every round of snapshots leaves exactly what never pruning, and then pruning once
   at the last moment, would leave.
   */
  lemma PathIndependence<T(!new)>(policy: RetentionPolicy, date: T -> DatedEntry<T>, rounds: seq<Round<T>>, offset: int)
    requires Dates(date) && rounds != [] && Chronicle(date, rounds, offset) && policy.hourOfDay == 0
    ensures PrunedEachRound(policy, date, rounds) == Prune(policy, date, rounds[|rounds| - 1].now, AllTaken(rounds))
  {
    var n := |rounds| - 1;
    WholePrunesThin(policy, date, rounds, offset);
    EarlierPrunesVanish(policy, date, rounds, Lefts(policy, date, rounds), offset);
    LeftsOnDisk(policy, date, rounds, n);
    assert rounds[..n + 1] == rounds;
  }

  lemma SameDates<T(!new)>(date: T -> DatedEntry<T>, a: seq<T>, b: seq<T>)
    requires Dates(date) && DateAll(date, a) == DateAll(date, b)
    ensures a == b
  {
    assert |a| == |b|;
    forall i | 0 <= i < |a| ensures a[i] == b[i] {
      assert DateAll(date, a)[i].payload == DateAll(date, b)[i].payload;
    }
  }

  lemma RoundsAdvance<T(!new)>(date: T -> DatedEntry<T>, rounds: seq<Round<T>>, dow: Weekday, offset: int)
    requires Chronicle(date, rounds, offset)
    ensures History.Advancing(DateRounds(date, rounds, dow), EntryLe)
  {
    var rs := DateRounds(date, rounds, dow);
    forall i | 0 < i < |rs| ensures History.NotLater(rs[i - 1].now, rs[i].now) {
      forall unit: Unit ensures rs[i - 1].now.At(unit) <= rs[i].now.At(unit) {
        PeriodMonotone(unit, rounds[i - 1].now, rounds[i].now, dow);
      }
    }
    forall i, x, y | 0 <= i < |rs| && x in History.AllTaken(rs[..i]) && y in rs[i].taken ensures EntryLe(x, y) {
      RoundFollows(date, rounds, dow, i, x, y);
    }
  }

  lemma DatedTaken<T(!new)>(date: T -> DatedEntry<T>, rounds: seq<Round<T>>, dow: Weekday, i: nat)
    requires i < |rounds| && forall k :: 0 <= k < |rounds| ==> Valid(rounds[k].now)
    ensures History.AllTaken(DateRounds(date, rounds, dow)[..i]) == DateAll(date, AllTaken(rounds[..i]))
    ensures DateRounds(date, rounds, dow)[i].taken == DateAll(date, rounds[i].taken)
  {
    assert DateRounds(date, rounds, dow)[..i] == DateRounds(date, rounds[..i], dow);
    DatedAllTaken(date, rounds[..i], dow);
  }

  lemma Undated<T(!new)>(date: T -> DatedEntry<T>, xs: seq<T>, e: DatedEntry<T>) returns (x: T)
    requires e in DateAll(date, xs)
    ensures x in xs && date(x) == e
  {
    var a :| 0 <= a < |xs| && date(xs[a]) == e;
    x := xs[a];
  }

  lemma RoundFollows<T(!new)>(date: T -> DatedEntry<T>, rounds: seq<Round<T>>, dow: Weekday, i: nat, x: DatedEntry<T>,
                              y: DatedEntry<T>)
    requires RoundsInOrder(date, rounds) && i < |rounds| && forall k :: 0 <= k < |rounds| ==> Valid(rounds[k].now)
    requires x in History.AllTaken(DateRounds(date, rounds, dow)[..i]) && y in DateRounds(date, rounds, dow)[i].taken
    ensures EntryLe(x, y)
  {
    DatedTaken(date, rounds, dow, i);
    var a := Undated(date, AllTaken(rounds[..i]), x);
    var b := Undated(date, rounds[i].taken, y);
    var k := TakenInRound(rounds[..i], a);
    assert a in rounds[k].taken;
  }

  /** Pruning again at once deletes nothing. */
  lemma Idempotence<T(!new)>(policy: RetentionPolicy, date: T -> DatedEntry<T>, now: DateTime, xs: seq<T>, offset: int)
    requires Dates(date) && policy.hourOfDay == 0 && Valid(now)
    requires forall x :: x in xs ==> OnOffset(date(x), offset) && Seconds(date(x).local) <= Seconds(now)
    ensures Prune(policy, date, now, Prune(policy, date, now, xs)) == Prune(policy, date, now, xs)
  {
    var first, again := [Round(xs, now)], Round([], now);
    OneMoreRound(policy, date, [], Round(xs, now));
    assert [] + first == first;
    OneMoreRound(policy, date, first, again);
    assert PrunedEachRound(policy, date, []) + xs == xs && AllTaken<T>([]) + xs == xs;
    assert Prune(policy, date, now, xs) + [] == Prune(policy, date, now, xs) && xs + [] == xs;
    RoundsAtOnce(date, xs, now, offset);
    PathIndependence(policy, date, first + [again], offset);
  }

  lemma RoundsAtOnce<T(!new)>(date: T -> DatedEntry<T>, xs: seq<T>, now: DateTime, offset: int)
    requires Valid(now)
    requires forall x :: x in xs ==> OnOffset(date(x), offset) && Seconds(date(x).local) <= Seconds(now)
    ensures Chronicle(date, [Round(xs, now)] + [Round([], now)], offset)
  {
  }

  lemma OneMoreRound<T>(policy: RetentionPolicy, date: T -> DatedEntry<T>, rounds: seq<Round<T>>, round: Round<T>)
    ensures PrunedEachRound(policy, date, rounds + [round])
         == Prune(policy, date, round.now, PrunedEachRound(policy, date, rounds) + round.taken)
    ensures AllTaken(rounds + [round]) == AllTaken(rounds) + round.taken
  {
    assert (rounds + [round])[..|rounds|] == rounds;
  }
}
