/**
 The retention scheduler: `schedule` and `compute_deltas` of crates/domain/src/retention.rs.

 The methods follow the Rust code step by step: a stable sort, one delta vector per entry, and a
 five-stage cascade over ordered maps. `Kept` says which entries the cascade keeps, for every
 input. What that means in calendar terms is proved in module RetentionLaws.
 */
module Retention {
  import opened Wrappers
  import opened Sequences
  import opened Calendar

  datatype Unit = Hours | Days | Weeks | Months | Years

  /** The floor below which everything is kept. */
  datatype PreserveMin = KeepAll | Latest | NoFloor | Within(count: u32, unit: Unit)

  /** How many representatives of a tier to keep. */
  datatype TierCount = All | Count(count: u32)

  /** `num_days_from_sunday` of a weekday. */
  type Weekday = d: int | 0 <= d < 7

  datatype RetentionPolicy = RetentionPolicy(
    preserveMin: PreserveMin,
    hourly: Option<TierCount>,
    daily: Option<TierCount>,
    weekly: Option<TierCount>,
    monthly: Option<TierCount>,
    yearly: Option<TierCount>,
    hourOfDay: u32,
    dayOfWeek: Weekday
  ) {
    function Tier(unit: Unit): Option<TierCount> {
      match unit
      case Hours => hourly
      case Days => daily
      case Weeks => weekly
      case Months => monthly
      case Years => yearly
    }

    /** The documented range of `hour_of_day`. */
    predicate Valid() { hourOfDay < HOURS_PER_DAY }
  }

  datatype DatedEntry<+T> = DatedEntry(instant: int, local: DateTime, hasExactTime: bool, nn: u32, payload: T)

  datatype Schedule<+T> = Schedule(preserve: seq<T>, delete: seq<T>)

  /** How long ago an entry is, in each unit. */
  datatype Deltas = Deltas(hours: int, days: int, weeks: int, months: int, years: int) {
    function At(unit: Unit): int {
      match unit
      case Hours => hours
      case Days => days
      case Weeks => weeks
      case Months => months
      case Years => years
    }
  }

  /** The order of `entries.sort_by`: absolute time, then collision counter. */
  predicate EntryLe<T>(a: DatedEntry<T>, b: DatedEntry<T>) {
    a.instant < b.instant || (a.instant == b.instant && a.nn <= b.nn)
  }

  predicate ValidEntry<T>(e: DatedEntry<T>) {
    Valid(e.local)
  }

  predicate ValidEntries<T>(es: seq<DatedEntry<T>>) {
    forall i :: 0 <= i < |es| ==> ValidEntry(es[i])
  }

  // ---------------------------------------------------------------------------
  // Deltas
  // ---------------------------------------------------------------------------

  /** Rust's `/` on signed integers: truncation toward zero. */
  function TruncDiv(a: int, b: int): int
    requires b > 0
  {
    if 0 <= a then a / b else -((-a) / b)
  }

  /** Clears minute and second but, as in the code, not the fraction of a second. */
  function StartOfHour(dt: DateTime): (r: DateTime)
    requires Valid(dt)
    ensures Valid(r)
    ensures Seconds(r) == Seconds(dt) - dt.minute * SECONDS_PER_MINUTE - dt.second
  {
    dt.(minute := 0, second := 0)
  }

  /** `(a - b).num_hours()`: the nanosecond difference, truncated to seconds and then to hours. */
  function WholeHours(a: DateTime, b: DateTime): int
    requires Valid(a) && Valid(b)
  {
    var nanos := (Seconds(a) - Seconds(b)) * NANOS_PER_SECOND + a.nanos - b.nanos;
    TruncDiv(TruncDiv(nanos, NANOS_PER_SECOND), SECONDS_PER_HOUR)
  }

  /** Hours since the policy's day began; names without a time of day ignore `hour_of_day`. */
  function HoursIntoDay<T>(e: DatedEntry<T>, policy: RetentionPolicy): int {
    (e.local.hour - if e.hasExactTime then policy.hourOfDay else 0) % HOURS_PER_DAY
  }

  /** Days since the policy's week began. */
  function DaysIntoWeek<T>(e: DatedEntry<T>, policy: RetentionPolicy): int
    requires ValidEntry(e)
  {
    var borrow := if e.hasExactTime && e.local.hour < policy.hourOfDay then 1 else 0;
    (WeekdayFromSunday(DayOf(e.local)) - policy.dayOfWeek - borrow) % DAYS_PER_WEEK
  }

  /** The month that holds the day `DaysIntoWeek` days before the entry. */
  function AnchorMonth<T>(e: DatedEntry<T>, policy: RetentionPolicy): int
    requires ValidEntry(e)
  {
    MonthOfDay(DayOf(e.local) - DaysIntoWeek(e, policy))
  }

  function DeltasOf<T>(e: DatedEntry<T>, now: DateTime, policy: RetentionPolicy): Deltas
    requires ValidEntry(e) && Valid(now)
  {
    var hours := WholeHours(StartOfHour(now), StartOfHour(e.local));
    var days := TruncDiv(hours + HoursIntoDay(e, policy), HOURS_PER_DAY);
    var weeks := TruncDiv(days + DaysIntoWeek(e, policy), DAYS_PER_WEEK);
    var months := MonthIndex(now.year, now.month0) - AnchorMonth(e, policy);
    var years := now.year - AnchorMonth(e, policy) / MONTHS_PER_YEAR;
    Deltas(hours, days, weeks, months, years)
  }

  lemma StepsIntoPrevious(year: int, month0: int, day: int, back: int)
    requires ValidDate(year, month0, day) && day <= back < DAYS_PER_WEEK
    ensures MonthOfDay(DayNumber(year, month0, day) - back) == MonthIndex(year, month0) - 1
  {
    var month := MonthIndex(year, month0);
    DateInMonth(year, month0, day);
    MonthLength(month - 1);
    MonthOfDayUnique(DayNumber(year, month0, day) - back, month - 1);
  }

  lemma StaysInMonth(year: int, month0: int, day: int, back: int)
    requires ValidDate(year, month0, day) && 0 <= back < day
    ensures MonthOfDay(DayNumber(year, month0, day) - back) == MonthIndex(year, month0)
  {
    DateInMonth(year, month0, day);
    MonthOfDayUnique(DayNumber(year, month0, day) - back, MonthIndex(year, month0));
  }

  /** Stepping back at most six days lands in the same month or in the one before. */
  lemma StepBackMonth(year: int, month0: int, day: int, back: int)
    requires ValidDate(year, month0, day) && 0 <= back < DAYS_PER_WEEK
    ensures MonthOfDay(DayNumber(year, month0, day) - back)
         == if day <= back then MonthIndex(year, month0) - 1 else MonthIndex(year, month0)
  {
    if day <= back {
      StepsIntoPrevious(year, month0, day, back);
    } else {
      StaysInMonth(year, month0, day, back);
    }
  }

  /** The corrections `compute_deltas` makes to its two running differences. */
  lemma Corrections<T>(e: DatedEntry<T>, policy: RetentionPolicy)
    requires ValidEntry(e) && policy.Valid()
    ensures
      var h := e.local.hour - if e.hasExactTime then policy.hourOfDay else 0;
      var w := WeekdayFromSunday(DayOf(e.local)) - policy.dayOfWeek - if h < 0 then 1 else 0;
      && HoursIntoDay(e, policy) == (if h < 0 then h + HOURS_PER_DAY else h)
      && DaysIntoWeek(e, policy) == (if w < 0 then w + DAYS_PER_WEEK else w)
  {
  }

  /** `compute_deltas`, with its mutable corrections and the month borrow. */
  method ComputeDeltas<T>(entry: DatedEntry<T>, now: DateTime, nowStartOfHour: DateTime, policy: RetentionPolicy)
    returns (d: Deltas)
    requires ValidEntry(entry) && Valid(now) && policy.Valid()
    requires nowStartOfHour == StartOfHour(now)
    ensures d == DeltasOf(entry, now, policy)
  {
    var local := entry.local;
    var hoursFromDayStart := local.hour - if entry.hasExactTime then policy.hourOfDay else 0;
    var daysFromWeekStart := WeekdayFromSunday(DayOf(local)) - policy.dayOfWeek;
    if hoursFromDayStart < 0 {
      hoursFromDayStart := hoursFromDayStart + HOURS_PER_DAY;
      daysFromWeekStart := daysFromWeekStart - 1;
    }
    if daysFromWeekStart < 0 {
      daysFromWeekStart := daysFromWeekStart + DAYS_PER_WEEK;
    }
    Corrections(entry, policy);
    d := Differences(entry, now, nowStartOfHour, policy, hoursFromDayStart, daysFromWeekStart);
  }

  /** The second half of `compute_deltas`: the running differences, one from the other. */
  method Differences<T>(entry: DatedEntry<T>, now: DateTime, nowStartOfHour: DateTime, policy: RetentionPolicy,
                        hoursFromDayStart: int, daysFromWeekStart: int)
    returns (d: Deltas)
    requires ValidEntry(entry) && Valid(now) && nowStartOfHour == StartOfHour(now)
    requires hoursFromDayStart == HoursIntoDay(entry, policy) && daysFromWeekStart == DaysIntoWeek(entry, policy)
    ensures d == DeltasOf(entry, now, policy)
  {
    var month0, year := AnchoredMonth(entry.local, daysFromWeekStart);
    var hours := WholeHours(nowStartOfHour, StartOfHour(entry.local));
    var days := TruncDiv(hours + hoursFromDayStart, HOURS_PER_DAY);
    var weeks := TruncDiv(days + daysFromWeekStart, DAYS_PER_WEEK);
    var years := now.year - year;
    var months := years * MONTHS_PER_YEAR + (now.month0 - month0);
    d := Deltas(hours, days, weeks, months, years);
  }

  /** The month borrow of `compute_deltas`: months and years are anchored on the week's first day. */
  method AnchoredMonth(local: DateTime, daysFromWeekStart: int) returns (month0: int, year: int)
    requires Valid(local) && 0 <= daysFromWeekStart < DAYS_PER_WEEK
    ensures 0 <= month0 < MONTHS_PER_YEAR
    ensures MonthIndex(year, month0) == MonthOfDay(DayOf(local) - daysFromWeekStart)
    ensures year == MonthOfDay(DayOf(local) - daysFromWeekStart) / MONTHS_PER_YEAR
  {
    month0, year := local.month0, local.year;
    if local.day <= daysFromWeekStart {
      month0 := month0 - 1;
      if month0 < 0 {
        month0 := MONTHS_PER_YEAR - 1;
        year := year - 1;
      }
    }
    StepBackMonth(local.year, local.month0, local.day, daysFromWeekStart);
  }

  predicate Covers(tier: Option<TierCount>, delta: int) {
    match tier
    case Some(All) => true
    case Some(Count(count)) => count > 0 && delta <= count
    case None => false
  }

  predicate MinCovers(policy: RetentionPolicy, deltas: Deltas) {
    match policy.preserveMin
    case KeepAll => true
    case NoFloor => false
    case Latest => false
    case Within(count, unit) => deltas.At(unit) <= count
  }

  // ---------------------------------------------------------------------------
  // What the cascade selects, for arbitrary deltas
  // ---------------------------------------------------------------------------

  function Rank(unit: Unit): nat {
    match unit
    case Hours => 0
    case Days => 1
    case Weeks => 2
    case Months => 3
    case Years => 4
  }

  function Finer(unit: Unit): (f: Unit)
    requires unit != Hours
    ensures Rank(f) == Rank(unit) - 1
  {
    match unit
    case Days => Hours
    case Weeks => Days
    case Months => Weeks
    case Years => Months
  }

  /**
   Entry `i` represents its period. The first entry of an hour represents the hour; of the finer
   representatives that share a period, the one with the largest finer delta represents it.
   */
  ghost predicate Rep(d: seq<Deltas>, unit: Unit, i: nat)
    requires i < |d|
    decreases Rank(unit)
  {
    if unit == Hours then
      forall j :: 0 <= j < i ==> d[j].hours != d[i].hours
    else
      && Rep(d, Finer(unit), i)
      && forall j :: 0 <= j < |d| && Rep(d, Finer(unit), j) && d[j].At(unit) == d[i].At(unit)
                     ==> d[j].At(Finer(unit)) <= d[i].At(Finer(unit))
  }

  ghost predicate TierKeeps(policy: RetentionPolicy, d: seq<Deltas>, unit: Unit, i: nat)
    requires i < |d|
  {
    Rep(d, unit, i) && Covers(policy.Tier(unit), d[i].At(unit))
  }

  /** The verdict of the whole scheduler on entry `i` of the sorted list. */
  ghost predicate Kept(policy: RetentionPolicy, d: seq<Deltas>, i: nat)
    requires i < |d|
  {
    || MinCovers(policy, d[i])
    || (policy.preserveMin == Latest && i == |d| - 1)
    || exists unit :: TierKeeps(policy, d, unit, i)
  }

  function AllDeltas<T>(es: seq<DatedEntry<T>>, now: DateTime, policy: RetentionPolicy): (d: seq<Deltas>)
    requires ValidEntries(es) && Valid(now)
    ensures |d| == |es|
    ensures forall i :: 0 <= i < |d| ==> d[i] == DeltasOf(es[i], now, policy)
  {
    seq(|es|, i requires 0 <= i < |es| => DeltasOf(es[i], now, policy))
  }

  /** The payloads of the entries whose flag equals `want`, in order. */
  function Select<T>(es: seq<DatedEntry<T>>, flags: seq<bool>, want: bool): (r: seq<T>)
    requires |es| == |flags|
  {
    if es == [] then []
    else (if flags[0] == want then [es[0].payload] else []) + Select(es[1..], flags[1..], want)
  }

  ghost function Flags(policy: RetentionPolicy, d: seq<Deltas>): (f: seq<bool>)
    ensures |f| == |d|
    ensures forall i :: 0 <= i < |d| ==> (f[i] <==> Kept(policy, d, i))
  {
    seq(|d|, i requires 0 <= i < |d| => Kept(policy, d, i))
  }

  ghost function Verdict<T>(es: seq<DatedEntry<T>>, policy: RetentionPolicy, now: DateTime): Schedule<T>
    requires ValidEntries(es) && Valid(now)
  {
    var flags := Flags(policy, AllDeltas(es, now, policy));
    Schedule(Select(es, flags, true), Select(es, flags, false))
  }

  /** The input as the scheduler orders it: oldest first, ties in arrival order. */
  function SortEntries<T>(entries: seq<DatedEntry<T>>): (r: seq<DatedEntry<T>>)
    ensures multiset(r) == multiset(entries)
  {
    StableSort(entries, EntryLe)
  }

  lemma SortKeepsValid<T>(entries: seq<DatedEntry<T>>)
    requires ValidEntries(entries)
    ensures ValidEntries(SortEntries(entries))
  {
    var r := SortEntries(entries);
    forall i | 0 <= i < |r| ensures ValidEntry(r[i]) {
      assert r[i] in multiset(entries);
    }
  }

  // ---------------------------------------------------------------------------
  // The imperative scheduler
  // ---------------------------------------------------------------------------

  lemma SomeMember(s: set<int>)
    requires s != {}
    ensures exists k :: k in s
  {
    if forall k :: k !in s {
      assert false;
    }
  }

  /** The greatest key that is left: `values().rev()` visits the keys from the greatest down. */
  method Greatest(s: set<int>) returns (k: int)
    requires s != {}
    ensures k in s && forall x :: x in s ==> x <= k
  {
    SomeMember(s);
    k :| k in s;
    var rest := s - {k};
    while rest != {}
      invariant rest <= s && k in s
      invariant forall x :: x in s ==> x in rest || x <= k
      decreases rest
    {
      SomeMember(rest);
      var y :| y in rest;
      if k < y {
        k := y;
      }
      rest := rest - {y};
    }
  }

  /** Every index sits under its own delta. */
  predicate Filed(d: seq<Deltas>, unit: Unit, m: map<int, nat>) {
    forall k :: k in m ==> m[k] < |d| && d[m[k]].At(unit) == k
  }

  predicate InMap(d: seq<Deltas>, unit: Unit, m: map<int, nat>, i: nat)
    requires i < |d|
  {
    d[i].At(unit) in m && m[d[i].At(unit)] == i
  }

  /** The map a stage hands over: one representative per period, filed under its delta. */
  ghost predicate RepMap(d: seq<Deltas>, unit: Unit, m: map<int, nat>) {
    && Filed(d, unit, m)
    && (forall k :: k in m ==> Rep(d, unit, m[k]))
    && (forall i :: 0 <= i < |d| && Rep(d, unit, i) ==> InMap(d, unit, m, i))
  }

  /** The flags after the periods in `done` were visited. */
  ghost predicate Marked(policy: RetentionPolicy, d: seq<Deltas>, unit: Unit, m: map<int, nat>, done: set<int>,
                         before: seq<bool>, after: seq<bool>)
    requires |before| == |after| == |d|
  {
    forall i :: 0 <= i < |d| ==>
      (after[i] <==> before[i] || (InMap(d, unit, m, i) && d[i].At(unit) in done
                                   && Covers(policy.Tier(unit), d[i].At(unit))))
  }

  /** What the roll-up has filed once the periods in `done` were visited, oldest first. */
  ghost predicate RolledUp(d: seq<Deltas>, fine: Unit, unit: Unit, reps: map<int, nat>, done: set<int>,
                           coarser: map<int, nat>)
    requires Filed(d, fine, reps)
  {
    && Filed(d, unit, coarser)
    && (forall k :: k in coarser ==> InMap(d, fine, reps, coarser[k]) && d[coarser[k]].At(fine) in done)
    && (forall h :: h in done && h in reps ==>
          var k := d[reps[h]].At(unit);
          k in coarser && h <= d[coarser[k]].At(fine))
  }

  /** What the roll-up filed is a representative of its period. */
  lemma FiledIsRep(d: seq<Deltas>, unit: Unit, reps: map<int, nat>, coarser: map<int, nat>, k: int)
    requires unit != Hours && RepMap(d, Finer(unit), reps)
    requires RolledUp(d, Finer(unit), unit, reps, reps.Keys, coarser) && k in coarser
    ensures Rep(d, unit, coarser[k])
  {
    var fine, i := Finer(unit), coarser[k];
    assert Rep(d, fine, reps[d[i].At(fine)]);
    forall j | 0 <= j < |d| && Rep(d, fine, j) && d[j].At(unit) == d[i].At(unit)
      ensures d[j].At(fine) <= d[i].At(fine)
    {
      assert reps[d[j].At(fine)] == j;
    }
  }

  /** A representative of a period is what the roll-up filed for it. */
  lemma RepIsFiled(d: seq<Deltas>, unit: Unit, reps: map<int, nat>, coarser: map<int, nat>, i: nat)
    requires unit != Hours && RepMap(d, Finer(unit), reps) && i < |d| && Rep(d, unit, i)
    requires RolledUp(d, Finer(unit), unit, reps, reps.Keys, coarser)
    ensures InMap(d, unit, coarser, i)
  {
    var fine := Finer(unit);
    assert Rep(d, fine, i) && reps[d[i].At(fine)] == i;
    var c := coarser[d[i].At(unit)];
    assert InMap(d, fine, reps, c) && Rep(d, fine, c);
  }

  lemma RolledUpIsRepMap(d: seq<Deltas>, unit: Unit, reps: map<int, nat>, coarser: map<int, nat>)
    requires unit != Hours && RepMap(d, Finer(unit), reps)
    requires RolledUp(d, Finer(unit), unit, reps, reps.Keys, coarser)
    ensures RepMap(d, unit, coarser)
  {
    forall k | k in coarser ensures Rep(d, unit, coarser[k]) {
      FiledIsRep(d, unit, reps, coarser, k);
    }
    forall i | 0 <= i < |d| && Rep(d, unit, i) ensures InMap(d, unit, coarser, i) {
      RepIsFiled(d, unit, reps, coarser, i);
    }
  }

  lemma MarkStep(policy: RetentionPolicy, d: seq<Deltas>, unit: Unit, reps: map<int, nat>, done: set<int>, key: int,
                 before: seq<bool>, marked: seq<bool>, after: seq<bool>)
    requires |before| == |marked| == |after| == |d| && Filed(d, unit, reps) && key in reps
    requires Marked(policy, d, unit, reps, done, before, marked)
    requires after == if Covers(policy.Tier(unit), d[reps[key]].At(unit)) then marked[reps[key] := true] else marked
    ensures Marked(policy, d, unit, reps, done + {key}, before, after)
  {
  }

  lemma RollStep(d: seq<Deltas>, fine: Unit, unit: Unit, reps: map<int, nat>, done: set<int>, key: int,
                 rolled: map<int, nat>, coarser: map<int, nat>)
    requires Filed(d, fine, reps) && key in reps && RolledUp(d, fine, unit, reps, done, rolled)
    requires forall y :: y in done ==> key < y
    requires
      var k := d[reps[key]].At(unit);
      coarser == if k in rolled then rolled else rolled[k := reps[key]]
    ensures RolledUp(d, fine, unit, reps, done + {key}, coarser)
  {
  }

  /** The walk from the oldest period: those left to visit lie before, that is, are smaller than, those done. */
  ghost predicate Halves(keys: set<int>, rest: set<int>, done: set<int>) {
    rest + done == keys && forall x, y :: x in rest && y in done ==> x < y
  }

  lemma HalvesStep(keys: set<int>, rest: set<int>, done: set<int>, key: int)
    requires Halves(keys, rest, done) && key in rest && forall x :: x in rest ==> x <= key
    ensures Halves(keys, rest - {key}, done + {key})
    ensures key in keys && forall y :: y in done ==> key < y
  {
  }

  /** One stage keeps what its tier keeps, besides what was kept before. */
  ghost predicate Adds(policy: RetentionPolicy, d: seq<Deltas>, unit: Unit, before: seq<bool>, after: seq<bool>)
    requires |before| == |after| == |d|
  {
    forall i :: 0 <= i < |d| ==> (after[i] <==> before[i] || TierKeeps(policy, d, unit, i))
  }

  lemma MarkedAdds(policy: RetentionPolicy, d: seq<Deltas>, unit: Unit, reps: map<int, nat>, before: seq<bool>,
                   after: seq<bool>)
    requires |before| == |after| == |d|
    requires RepMap(d, unit, reps) && Marked(policy, d, unit, reps, reps.Keys, before, after)
    ensures Adds(policy, d, unit, before, after)
  {
    forall i | 0 <= i < |d| ensures after[i] <==> before[i] || TierKeeps(policy, d, unit, i) {
      assert InMap(d, unit, reps, i) <==> Rep(d, unit, i);
    }
  }

  /** The loop shared by the first four stages: walk the periods from the oldest, mark, roll up. */
  method RollUp(policy: RetentionPolicy, d: seq<Deltas>, unit: Unit, reps: map<int, nat>, before: seq<bool>)
    returns (preserve: seq<bool>, coarser: map<int, nat>)
    requires unit != Hours && |before| == |d|
    requires RepMap(d, Finer(unit), reps)
    ensures |preserve| == |d| && Adds(policy, d, Finer(unit), before, preserve)
    ensures RepMap(d, unit, coarser)
  {
    var fine := Finer(unit);
    preserve, coarser := before, map[];
    var rest := reps.Keys;
    ghost var done: set<int> := {};
    while rest != {}
      invariant Halves(reps.Keys, rest, done)
      invariant |preserve| == |d| && Marked(policy, d, fine, reps, done, before, preserve)
      invariant RolledUp(d, fine, unit, reps, done, coarser)
      decreases rest
    {
      ghost var marked, rolled := preserve, coarser;
      var key := Greatest(rest);
      HalvesStep(reps.Keys, rest, done, key);
      var idx := reps[key];
      if Covers(policy.Tier(fine), d[idx].At(fine)) {
        preserve := preserve[idx := true];
      }
      if d[idx].At(unit) !in coarser {
        coarser := coarser[d[idx].At(unit) := idx];
      }
      MarkStep(policy, d, fine, reps, done, key, before, marked, preserve);
      RollStep(d, fine, unit, reps, done, key, rolled, coarser);
      rest, done := rest - {key}, done + {key};
    }
    assert done == reps.Keys;
    RolledUpIsRepMap(d, unit, reps, coarser);
    MarkedAdds(policy, d, fine, reps, before, preserve);
  }

  /** The last stage marks years and rolls nothing up. */
  method MarkYears(policy: RetentionPolicy, d: seq<Deltas>, reps: map<int, nat>, before: seq<bool>)
    returns (preserve: seq<bool>)
    requires |before| == |d| && RepMap(d, Years, reps)
    ensures |preserve| == |d| && Adds(policy, d, Years, before, preserve)
  {
    preserve := before;
    var rest := reps.Keys;
    while rest != {}
      invariant rest <= reps.Keys
      invariant |preserve| == |d| && Marked(policy, d, Years, reps, reps.Keys - rest, before, preserve)
      decreases rest
    {
      var key := Greatest(rest);
      var idx := reps[key];
      if Covers(policy.yearly, d[idx].years) {
        preserve := preserve[idx := true];
      }
      rest := rest - {key};
    }
    assert reps.Keys - rest == reps.Keys;
    MarkedAdds(policy, d, Years, reps, before, preserve);
  }

  /** What is kept whatever the tiers say. */
  ghost predicate FloorFlags(policy: RetentionPolicy, d: seq<Deltas>, flags: seq<bool>) {
    && |flags| == |d|
    && forall i :: 0 <= i < |d| ==>
         (flags[i] <==> MinCovers(policy, d[i]) || (policy.preserveMin == Latest && i == |d| - 1))
  }

  /** The floor and the hour buckets: the first loop of `schedule`. */
  method FirstHours(policy: RetentionPolicy, d: seq<Deltas>) returns (preserve: seq<bool>, reps: map<int, nat>)
    ensures FloorFlags(policy, d, preserve) && RepMap(d, Hours, reps)
  {
    preserve := seq(|d|, _ => false);
    reps := map[];
    for idx := 0 to |d|
      invariant |preserve| == |d|
      invariant forall i :: 0 <= i < |d| ==> (preserve[i] <==> i < idx && MinCovers(policy, d[i]))
      invariant forall k :: k in reps ==> reps[k] < idx && Rep(d, Hours, reps[k]) && d[reps[k]].hours == k
      invariant forall i :: 0 <= i < idx ==> d[i].hours in reps && reps[d[i].hours] <= i
    {
      if MinCovers(policy, d[idx]) {
        preserve := preserve[idx := true];
      }
      if d[idx].hours !in reps {
        reps := reps[d[idx].hours := idx];
      }
    }
    if policy.preserveMin == Latest && |d| > 0 {
      preserve := preserve[|d| - 1 := true];
    }
  }

  method CollectDeltas<T>(entries: seq<DatedEntry<T>>, policy: RetentionPolicy, now: DateTime)
    returns (d: seq<Deltas>)
    requires ValidEntries(entries) && Valid(now) && policy.Valid()
    ensures d == AllDeltas(entries, now, policy)
  {
    var nowStartOfHour := StartOfHour(now);
    d := [];
    for i := 0 to |entries|
      invariant |d| == i
      invariant forall j :: 0 <= j < i ==> d[j] == DeltasOf(entries[j], now, policy)
    {
      var delta := ComputeDeltas(entries[i], now, nowStartOfHour, policy);
      d := d + [delta];
    }
  }

  /** The floor, then the five tiers, each fed by the representatives of the one before. */
  method Cascade(policy: RetentionPolicy, d: seq<Deltas>) returns (preserve: seq<bool>)
    ensures preserve == Flags(policy, d)
  {
    assert Finer(Days) == Hours && Finer(Weeks) == Days && Finer(Months) == Weeks && Finer(Years) == Months;
    var floor, firstHours := FirstHours(policy, d);
    var hourly, firstDays := RollUp(policy, d, Days, firstHours, floor);
    var daily, firstWeeks := RollUp(policy, d, Weeks, firstDays, hourly);
    var weekly, firstWeeklyMonths := RollUp(policy, d, Months, firstWeeks, daily);
    var monthly, firstMonthlyYears := RollUp(policy, d, Years, firstWeeklyMonths, weekly);
    preserve := MarkYears(policy, d, firstMonthlyYears, monthly);
    AddUp(policy, d, floor, hourly, daily, weekly, monthly, preserve);
  }

  lemma AddUp(policy: RetentionPolicy, d: seq<Deltas>, floor: seq<bool>, hourly: seq<bool>, daily: seq<bool>,
              weekly: seq<bool>, monthly: seq<bool>, preserve: seq<bool>)
    requires |floor| == |hourly| == |daily| == |weekly| == |monthly| == |preserve| == |d|
    requires FloorFlags(policy, d, floor)
    requires Adds(policy, d, Hours, floor, hourly) && Adds(policy, d, Days, hourly, daily)
    requires Adds(policy, d, Weeks, daily, weekly) && Adds(policy, d, Months, weekly, monthly)
    requires Adds(policy, d, Years, monthly, preserve)
    ensures preserve == Flags(policy, d)
  {
    forall i | 0 <= i < |d| ensures preserve[i] <==> Kept(policy, d, i) {
      AllTiers(policy, d, i);
    }
  }

  /** The last loop of `schedule`: deal the payloads out by their flags. */
  method Split<T>(entries: seq<DatedEntry<T>>, preserve: seq<bool>) returns (result: Schedule<T>)
    requires |entries| == |preserve|
    ensures result == Schedule(Select(entries, preserve, true), Select(entries, preserve, false))
  {
    var keep: seq<T>, drop: seq<T> := [], [];
    for idx := 0 to |entries|
      invariant keep + Select(entries[idx..], preserve[idx..], true) == Select(entries, preserve, true)
      invariant drop + Select(entries[idx..], preserve[idx..], false) == Select(entries, preserve, false)
    {
      assert entries[idx..][1..] == entries[idx + 1..];
      assert preserve[idx..][1..] == preserve[idx + 1..];
      if preserve[idx] {
        keep := keep + [entries[idx].payload];
      } else {
        drop := drop + [entries[idx].payload];
      }
    }
    result := Schedule(keep, drop);
  }

  /** `schedule`: sort, compare with `now`, cascade, split. */
  method ScheduleEntries<T>(input: seq<DatedEntry<T>>, policy: RetentionPolicy, now: DateTime)
    returns (result: Schedule<T>)
    requires ValidEntries(input) && Valid(now) && policy.Valid()
    ensures ValidEntries(SortEntries(input))
    ensures result == Verdict(SortEntries(input), policy, now)
  {
    var entries := SortEntries(input);
    SortKeepsValid(input);
    var d := CollectDeltas(entries, policy, now);
    var preserve := Cascade(policy, d);
    result := Split(entries, preserve);
  }

  lemma AllTiers(policy: RetentionPolicy, d: seq<Deltas>, i: nat)
    requires i < |d|
    ensures (exists unit :: TierKeeps(policy, d, unit, i)) <==>
      || TierKeeps(policy, d, Hours, i) || TierKeeps(policy, d, Days, i) || TierKeeps(policy, d, Weeks, i)
      || TierKeeps(policy, d, Months, i) || TierKeeps(policy, d, Years, i)
  {
  }
}
