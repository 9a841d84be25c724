/**
 What the retention cascade means.

 The strong laws are stated for `hour_of_day == 0`, the only value the program ever sets, and for
 entries up to a horizon: the end of today, or the hour of `now` if `now` has a fraction of a second.
 `HoursAreExact` and `DaysAreExact` say exactly when the deltas are the calendar differences, and
 `HorizonIsExact` that the cascade is the flat rule up to the horizon and no further.
 */
module RetentionLaws {
  import opened Wrappers
  import opened Calendar
  import opened Retention

  // ---------------------------------------------------------------------------
  // Deltas are differences of calendar periods
  // ---------------------------------------------------------------------------

  /** The residue, modulo seven, of the day numbers that fall on weekday `dow`. */
  function WeekPhase(dow: Weekday): int { (dow + 6) % DAYS_PER_WEEK }

  function WeekIndex(day: int, dow: Weekday): int { (day - WeekPhase(dow)) / DAYS_PER_WEEK }

  /** The last day on or before `day` that falls on weekday `dow`. */
  function WeekStart(day: int, dow: Weekday): (r: int)
    ensures day - 7 < r <= day
    ensures WeekdayFromSunday(r) == dow
  {
    WeekIndex(day, dow) * DAYS_PER_WEEK + WeekPhase(dow)
  }

  /** The hour, day, week, anchored month or anchored year of a reading, on an absolute scale. */
  function Period(unit: Unit, dt: DateTime, dow: Weekday): int
    requires Valid(dt)
  {
    match unit
    case Hours => HourIndex(dt)
    case Days => DayOf(dt)
    case Weeks => WeekIndex(DayOf(dt), dow)
    case Months => MonthOfDay(WeekStart(DayOf(dt), dow))
    case Years => MonthOfDay(WeekStart(DayOf(dt), dow)) / MONTHS_PER_YEAR
  }

  /** Where `now` stands on the same scale; its month and year are not anchored. */
  function NowPeriod(unit: Unit, now: DateTime, dow: Weekday): int
    requires Valid(now)
  {
    match unit
    case Hours => HourIndex(now)
    case Days => DayOf(now)
    case Weeks => WeekIndex(DayOf(now), dow)
    case Months => MonthIndex(now.year, now.month0)
    case Years => now.year
  }

  /**
   The last hour up to which the deltas are exact: the end of today, or the hour of `now` if `now` has a
   fraction of a second.
   */
  function LastHour(now: DateTime): int
    requires Valid(now)
  {
    if now.nanos == 0 then DayOf(now) * HOURS_PER_DAY + HOURS_PER_DAY - 1 else HourIndex(now)
  }

  /** An entry as `dated_entry` builds it, not beyond the horizon. */
  predicate Placed<T>(e: DatedEntry<T>, now: DateTime) {
    Valid(now) && ValidEntry(e) && e.local.nanos == 0 && HourIndex(e.local) <= LastHour(now)
  }

  lemma WholeHoursValue(now: DateTime, local: DateTime)
    requires Valid(now) && Valid(local) && local.nanos == 0
    ensures WholeHours(StartOfHour(now), StartOfHour(local))
         == HourIndex(now) - HourIndex(local)
            + (if HourIndex(now) < HourIndex(local) && now.nanos > 0 then 1 else 0)
  {
    var k := HourIndex(now) - HourIndex(local);
    var nanos := k * SECONDS_PER_HOUR * NANOS_PER_SECOND + now.nanos;
    assert Seconds(StartOfHour(now)) == HourIndex(now) * SECONDS_PER_HOUR;
    assert Seconds(StartOfHour(local)) == HourIndex(local) * SECONDS_PER_HOUR;
    if 0 <= k {
      assert TruncDiv(nanos, NANOS_PER_SECOND) == k * SECONDS_PER_HOUR;
    } else if now.nanos > 0 {
      assert TruncDiv(nanos, NANOS_PER_SECOND) == k * SECONDS_PER_HOUR + 1;
      assert TruncDiv(k * SECONDS_PER_HOUR + 1, SECONDS_PER_HOUR) == k + 1;
    } else {
      assert TruncDiv(nanos, NANOS_PER_SECOND) == k * SECONDS_PER_HOUR;
    }
  }

  /** The hour delta is the difference of the hours, unless a fraction of a second meets a later hour. */
  lemma HoursAreExact<T>(e: DatedEntry<T>, now: DateTime, policy: RetentionPolicy)
    requires Valid(now) && ValidEntry(e) && e.local.nanos == 0
    ensures DeltasOf(e, now, policy).hours == HourIndex(now) - HourIndex(e.local)
       <==> HourIndex(e.local) <= HourIndex(now) || now.nanos == 0
  {
    WholeHoursValue(now, e.local);
  }

  /**
   The day delta is the difference of the days exactly for entries up to the end of today, and for
   all entries when `now` is inside the midnight hour with no fraction of a second.
   */
  lemma DaysAreExact<T>(e: DatedEntry<T>, now: DateTime, policy: RetentionPolicy)
    requires Valid(now) && ValidEntry(e) && e.local.nanos == 0 && policy.hourOfDay == 0
    ensures DeltasOf(e, now, policy).days == DayOf(now) - DayOf(e.local)
       <==> DayOf(e.local) <= DayOf(now) || (now.hour == 0 && now.nanos == 0)
  {
    WholeHoursValue(now, e.local);
    var hours := WholeHours(StartOfHour(now), StartOfHour(e.local));
    var k := DayOf(now) - DayOf(e.local);
    assert HoursIntoDay(e, policy) == e.local.hour;
    if 0 <= k {
      assert k * 24 <= hours + e.local.hour < k * 24 + 24;
    } else {
      assert hours + e.local.hour == k * 24 + now.hour + (if now.nanos > 0 then 1 else 0);
    }
  }

  lemma WeekStartDistance(day: int, dow: Weekday)
    ensures (WeekdayFromSunday(day) - dow) % DAYS_PER_WEEK == day - WeekStart(day, dow)
  {
    var r := WeekStart(day, dow);
    assert (r + 1) % 7 == dow;
    assert day + 1 == 7 * ((r + 1) / 7) + dow + (day - r);
    if dow + (day - r) < 7 {
      assert (day + 1) % 7 == dow + (day - r);
    } else {
      assert (day + 1) % 7 == dow + (day - r) - 7;
    }
  }

  lemma DaysIntoWeekValue<T>(e: DatedEntry<T>, policy: RetentionPolicy)
    requires ValidEntry(e) && policy.hourOfDay == 0
    ensures DayOf(e.local) - DaysIntoWeek(e, policy) == WeekStart(DayOf(e.local), policy.dayOfWeek)
  {
    WeekStartDistance(DayOf(e.local), policy.dayOfWeek);
  }

  lemma HoursAndDaysArePeriods<T>(e: DatedEntry<T>, now: DateTime, policy: RetentionPolicy)
    requires Placed(e, now) && policy.hourOfDay == 0
    ensures DeltasOf(e, now, policy).hours == HourIndex(now) - HourIndex(e.local)
    ensures DeltasOf(e, now, policy).days == DayOf(now) - DayOf(e.local) >= 0
  {
    HoursAreExact(e, now, policy);
    HourIndexOfSeconds(now);
    HourIndexOfSeconds(e.local);
    DaysAreExact(e, now, policy);
  }

  lemma WeeksArePeriods<T>(e: DatedEntry<T>, now: DateTime, policy: RetentionPolicy)
    requires Placed(e, now) && policy.hourOfDay == 0
    ensures DeltasOf(e, now, policy).weeks
      == WeekIndex(DayOf(now), policy.dayOfWeek) - WeekIndex(DayOf(e.local), policy.dayOfWeek) >= 0
  {
    HoursAndDaysArePeriods(e, now, policy);
    DaysIntoWeekValue(e, policy);
    WeeksBetween(DayOf(now), DayOf(e.local), policy.dayOfWeek);
  }

  lemma AnchorIsWeekStart<T>(e: DatedEntry<T>, policy: RetentionPolicy)
    requires ValidEntry(e) && policy.hourOfDay == 0
    ensures AnchorMonth(e, policy) == MonthOfDay(WeekStart(DayOf(e.local), policy.dayOfWeek))
  {
    DaysIntoWeekValue(e, policy);
  }

  lemma MonthNotAfter(start: int, now: DateTime)
    requires Valid(now) && start <= DayOf(now)
    ensures MonthOfDay(start) <= MonthIndex(now.year, now.month0)
  {
    DateRoundTrip(now.year, now.month0, now.day);
    MonthOfDayMonotone(start, DayOf(now));
  }

  lemma DayNotAfter<T>(e: DatedEntry<T>, now: DateTime)
    requires Placed(e, now)
    ensures DayOf(e.local) <= DayOf(now)
  {
    HourIndexOfSeconds(now);
    HourIndexOfSeconds(e.local);
  }

  lemma AnchorIsPast<T>(e: DatedEntry<T>, now: DateTime, policy: RetentionPolicy)
    requires Placed(e, now) && policy.hourOfDay == 0
    ensures AnchorMonth(e, policy)
      == MonthOfDay(WeekStart(DayOf(e.local), policy.dayOfWeek)) <= MonthIndex(now.year, now.month0)
  {
    DayNotAfter(e, now);
    AnchorIsWeekStart(e, policy);
    MonthNotAfter(WeekStart(DayOf(e.local), policy.dayOfWeek), now);
  }

  lemma YearOfMonth(month: int, year: int, month0: int)
    requires month <= MonthIndex(year, month0) && 0 <= month0 < MONTHS_PER_YEAR
    ensures month / MONTHS_PER_YEAR <= year
  {
  }

  lemma MonthsAndYearsArePeriods<T>(e: DatedEntry<T>, now: DateTime, policy: RetentionPolicy)
    requires Placed(e, now) && policy.hourOfDay == 0
    ensures DeltasOf(e, now, policy).months
      == NowPeriod(Months, now, policy.dayOfWeek) - Period(Months, e.local, policy.dayOfWeek) >= 0
    ensures DeltasOf(e, now, policy).years
      == NowPeriod(Years, now, policy.dayOfWeek) - Period(Years, e.local, policy.dayOfWeek) >= 0
  {
    AnchorIsPast(e, now, policy);
    YearOfMonth(AnchorMonth(e, policy), now.year, now.month0);
  }

  /**
   Every delta is the distance between the entry's period and that of `now`; only later hours of
   today are negative.
   */
  lemma DeltasArePeriods<T>(e: DatedEntry<T>, now: DateTime, policy: RetentionPolicy, unit: Unit)
    requires Placed(e, now) && policy.hourOfDay == 0
    ensures DeltasOf(e, now, policy).At(unit)
         == NowPeriod(unit, now, policy.dayOfWeek) - Period(unit, e.local, policy.dayOfWeek)
    ensures 0 <= DeltasOf(e, now, policy).At(unit) <==> unit != Hours || HourIndex(e.local) <= HourIndex(now)
  {
    match unit {
      case Hours => HoursAndDaysArePeriods(e, now, policy);
      case Days => HoursAndDaysArePeriods(e, now, policy);
      case Weeks => WeeksArePeriods(e, now, policy);
      case Months => MonthsAndYearsArePeriods(e, now, policy);
      case Years => MonthsAndYearsArePeriods(e, now, policy);
    }
  }

  lemma WeeksBetween(now: int, day: int, dow: Weekday)
    requires day <= now
    ensures TruncDiv(now - day + (day - WeekStart(day, dow)), DAYS_PER_WEEK)
      == WeekIndex(now, dow) - WeekIndex(day, dow)
    ensures 0 <= WeekIndex(now, dow) - WeekIndex(day, dow)
  {
  }

  /** Later readings are in later periods or in the same one. */
  lemma PeriodMonotone(unit: Unit, a: DateTime, b: DateTime, dow: Weekday)
    requires Valid(a) && Valid(b) && Seconds(a) <= Seconds(b)
    ensures Period(unit, a, dow) <= Period(unit, b, dow)
    ensures NowPeriod(unit, a, dow) <= NowPeriod(unit, b, dow)
  {
    HourIndexOfSeconds(a);
    HourIndexOfSeconds(b);
    WeekIndexMonotone(DayOf(a), DayOf(b), dow);
    MonthOfDayMonotone(WeekStart(DayOf(a), dow), WeekStart(DayOf(b), dow));
    DateRoundTrip(a.year, a.month0, a.day);
    DateRoundTrip(b.year, b.month0, b.day);
    MonthOfDayMonotone(DayOf(a), DayOf(b));
  }

  lemma WeekIndexMonotone(a: int, b: int, dow: Weekday)
    requires a <= b
    ensures WeekIndex(a, dow) <= WeekIndex(b, dow) && WeekStart(a, dow) <= WeekStart(b, dow)
  {
  }

  /** Same hour, same day, same week, same month, same year. */
  lemma PeriodsNest(unit: Unit, a: DateTime, b: DateTime, dow: Weekday)
    requires Valid(a) && Valid(b) && unit != Hours
    requires Period(Finer(unit), a, dow) == Period(Finer(unit), b, dow)
    ensures Period(unit, a, dow) == Period(unit, b, dow)
  {
    HourIndexOfSeconds(a);
    HourIndexOfSeconds(b);
  }

  // ---------------------------------------------------------------------------
  // The cascade is the flat rule
  // ---------------------------------------------------------------------------

  /** The wall-clock reading lies `offset` seconds from the instant. */
  predicate OnOffset<T>(e: DatedEntry<T>, offset: int) {
    ValidEntry(e) && e.local.nanos == 0 && Seconds(e.local) == e.instant + offset
  }

  /** Sorted entries whose wall-clock readings all lie `offset` seconds from their instants. */
  ghost predicate Timeline<T>(es: seq<DatedEntry<T>>, offset: int) {
    && ValidEntries(es)
    && (forall i :: 0 <= i < |es| ==> OnOffset(es[i], offset))
    && (forall i, j :: 0 <= i < j < |es| ==> EntryLe(es[i], es[j]))
  }

  ghost predicate WithinHorizon<T>(es: seq<DatedEntry<T>>, now: DateTime) {
    Valid(now) && forall i :: 0 <= i < |es| ==> Placed(es[i], now)
  }

  predicate FloorKeeps<T>(policy: RetentionPolicy, e: DatedEntry<T>, now: DateTime)
    requires ValidEntry(e) && Valid(now)
  {
    match policy.preserveMin
    case KeepAll => true
    case NoFloor => false
    case Latest => false
    case Within(count, unit) =>
      NowPeriod(unit, now, policy.dayOfWeek) - Period(unit, e.local, policy.dayOfWeek) <= count
  }

  /** A tier of `n > 0` reaches back to the `n`th period before that of `now`, that period included. */
  predicate InRange<T>(policy: RetentionPolicy, unit: Unit, e: DatedEntry<T>, now: DateTime)
    requires ValidEntry(e) && Valid(now)
  {
    match policy.Tier(unit)
    case None => false
    case Some(All) => true
    case Some(Count(n)) =>
      n != 0 && NowPeriod(unit, now, policy.dayOfWeek) - n <= Period(unit, e.local, policy.dayOfWeek)
  }

  /** `es[i]` is the oldest entry of its period: nothing before it in the sorted list shares it. */
  ghost predicate OldestOfPeriod<T>(es: seq<DatedEntry<T>>, unit: Unit, i: nat, dow: Weekday)
    requires i < |es| && ValidEntries(es)
  {
    forall j :: 0 <= j < i ==> Period(unit, es[j].local, dow) != Period(unit, es[i].local, dow)
  }

  ghost predicate FlatTier<T>(es: seq<DatedEntry<T>>, policy: RetentionPolicy, now: DateTime, unit: Unit, i: nat)
    requires i < |es| && Valid(now) && ValidEntries(es)
  {
    OldestOfPeriod(es, unit, i, policy.dayOfWeek) && InRange(policy, unit, es[i], now)
  }

  /** The declarative rule: floor, newest, or oldest of a period that is still in range. */
  ghost predicate FlatKeeps<T>(es: seq<DatedEntry<T>>, policy: RetentionPolicy, now: DateTime, i: nat)
    requires i < |es| && Valid(now) && ValidEntries(es)
  {
    || FloorKeeps(policy, es[i], now)
    || (policy.preserveMin == Latest && i == |es| - 1)
    || exists unit :: FlatTier(es, policy, now, unit, i)
  }

  ghost predicate Antitone(d: seq<Deltas>) {
    forall unit: Unit, i, j :: 0 <= i < j < |d| ==> d[j].At(unit) <= d[i].At(unit)
  }

  ghost predicate Nested(d: seq<Deltas>) {
    forall unit: Unit, i, j :: unit != Hours && 0 <= i < |d| && 0 <= j < |d| ==>
      (d[i].At(Finer(unit)) == d[j].At(Finer(unit)) ==> d[i].At(unit) == d[j].At(unit))
  }

  ghost predicate FirstIn(d: seq<Deltas>, unit: Unit, i: nat)
    requires i < |d|
  {
    forall j :: 0 <= j < i ==> d[j].At(unit) != d[i].At(unit)
  }

  lemma FirstInFiner(d: seq<Deltas>, unit: Unit, i: nat)
    requires Nested(d) && unit != Hours && i < |d| && FirstIn(d, unit, i)
    ensures FirstIn(d, Finer(unit), i)
  {
  }

  /** Of the entries sharing entry `i`'s period, some first one comes at or before `i`. */
  lemma {:induction false} SomeFirst(d: seq<Deltas>, unit: Unit, i: nat) returns (j: nat)
    requires i < |d|
    ensures j <= i && d[j].At(unit) == d[i].At(unit) && FirstIn(d, unit, j)
  {
    if FirstIn(d, unit, i) {
      j := i;
    } else {
      var k :| 0 <= k < i && d[k].At(unit) == d[i].At(unit);
      j := SomeFirst(d, unit, k);
    }
  }

  ghost predicate RepsAreFirst(d: seq<Deltas>, unit: Unit) {
    forall j :: 0 <= j < |d| ==> (Rep(d, unit, j) <==> FirstIn(d, unit, j))
  }

  lemma FirstIsRep(d: seq<Deltas>, unit: Unit, i: nat)
    requires Antitone(d) && Nested(d) && i < |d| && unit != Hours && RepsAreFirst(d, Finer(unit)) && FirstIn(d, unit, i)
    ensures Rep(d, unit, i)
  {
    FirstInFiner(d, unit, i);
  }

  lemma LaterIsNotRep(d: seq<Deltas>, unit: Unit, i: nat)
    requires Antitone(d) && Nested(d) && i < |d| && unit != Hours && RepsAreFirst(d, Finer(unit))
      && !FirstIn(d, unit, i)
    ensures !Rep(d, unit, i)
  {
    var fine := Finer(unit);
    var j := SomeFirst(d, unit, i);
    FirstInFiner(d, unit, j);
    assert d[i].At(fine) <= d[j].At(fine);
    assert !Rep(d, fine, i) || d[j].At(fine) > d[i].At(fine);
  }

  /** With antitone, nested deltas every stage picks the first entry of each of its periods. */
  lemma {:induction false} RepIsFirst(d: seq<Deltas>, unit: Unit, i: nat)
    requires Antitone(d) && Nested(d) && i < |d|
    ensures Rep(d, unit, i) <==> FirstIn(d, unit, i)
    decreases Rank(unit)
  {
    if unit != Hours {
      forall j | 0 <= j < |d| ensures Rep(d, Finer(unit), j) <==> FirstIn(d, Finer(unit), j) {
        RepIsFirst(d, Finer(unit), j);
      }
      if FirstIn(d, unit, i) {
        FirstIsRep(d, unit, i);
      } else {
        LaterIsNotRep(d, unit, i);
      }
    }
  }

  lemma TimelineDeltas<T>(es: seq<DatedEntry<T>>, offset: int, policy: RetentionPolicy, now: DateTime)
    requires Timeline(es, offset) && WithinHorizon(es, now) && policy.hourOfDay == 0
    ensures Antitone(AllDeltas(es, now, policy)) && Nested(AllDeltas(es, now, policy))
  {
    var d := AllDeltas(es, now, policy);
    forall unit: Unit, i, j | 0 <= i < j < |d| ensures d[j].At(unit) <= d[i].At(unit) {
      assert EntryLe(es[i], es[j]);
      PeriodMonotone(unit, es[i].local, es[j].local, policy.dayOfWeek);
      DeltasArePeriods(es[i], now, policy, unit);
      DeltasArePeriods(es[j], now, policy, unit);
    }
    forall unit: Unit, i, j | unit != Hours && 0 <= i < |d| && 0 <= j < |d|
      && d[i].At(Finer(unit)) == d[j].At(Finer(unit)) ensures d[i].At(unit) == d[j].At(unit)
    {
      DeltasArePeriods(es[i], now, policy, unit);
      DeltasArePeriods(es[j], now, policy, unit);
      DeltasArePeriods(es[i], now, policy, Finer(unit));
      DeltasArePeriods(es[j], now, policy, Finer(unit));
      PeriodsNest(unit, es[i].local, es[j].local, policy.dayOfWeek);
    }
  }

  /** The first entry with its delta is the oldest of its period. */
  lemma FirstIsOldest<T>(es: seq<DatedEntry<T>>, policy: RetentionPolicy, now: DateTime, unit: Unit, i: nat)
    requires ValidEntries(es) && Valid(now) && policy.hourOfDay == 0 && i < |es|
    requires forall j :: 0 <= j < |es| ==> Placed(es[j], now)
    ensures
      (forall j :: 0 <= j < i ==> AllDeltas(es, now, policy)[j].At(unit) != AllDeltas(es, now, policy)[i].At(unit))
      <==> OldestOfPeriod(es, unit, i, policy.dayOfWeek)
  {
    var d := AllDeltas(es, now, policy);
    DeltasArePeriods(es[i], now, policy, unit);
    forall j | 0 <= j < i
      ensures d[j].At(unit) != d[i].At(unit)
        <==> Period(unit, es[j].local, policy.dayOfWeek) != Period(unit, es[i].local, policy.dayOfWeek)
    {
      DeltasArePeriods(es[j], now, policy, unit);
    }
  }

  /** What a tier covers by its delta is what lies in its range by the calendar. */
  lemma CoveredIsInRange<T>(e: DatedEntry<T>, policy: RetentionPolicy, now: DateTime, unit: Unit)
    requires Placed(e, now) && policy.hourOfDay == 0
    ensures Covers(policy.Tier(unit), DeltasOf(e, now, policy).At(unit)) <==> InRange(policy, unit, e, now)
  {
    DeltasArePeriods(e, now, policy, unit);
  }

  lemma RepIsOldest<T>(es: seq<DatedEntry<T>>, offset: int, policy: RetentionPolicy, now: DateTime, unit: Unit, i: nat)
    requires Timeline(es, offset) && WithinHorizon(es, now) && policy.hourOfDay == 0 && i < |es|
    ensures Rep(AllDeltas(es, now, policy), unit, i) <==> OldestOfPeriod(es, unit, i, policy.dayOfWeek)
  {
    TimelineDeltas(es, offset, policy, now);
    RepIsFirst(AllDeltas(es, now, policy), unit, i);
    FirstIsOldest(es, policy, now, unit, i);
  }

  lemma TierIsFlat<T>(es: seq<DatedEntry<T>>, offset: int, policy: RetentionPolicy, now: DateTime, unit: Unit, i: nat)
    requires Timeline(es, offset) && WithinHorizon(es, now) && policy.hourOfDay == 0 && i < |es|
    ensures TierKeeps(policy, AllDeltas(es, now, policy), unit, i) <==> FlatTier(es, policy, now, unit, i)
  {
    RepIsOldest(es, offset, policy, now, unit, i);
    CoveredIsInRange(es[i], policy, now, unit);
  }

  lemma FloorIsFlat<T>(e: DatedEntry<T>, policy: RetentionPolicy, now: DateTime)
    requires Placed(e, now) && policy.hourOfDay == 0
    ensures MinCovers(policy, DeltasOf(e, now, policy)) <==> FloorKeeps(policy, e, now)
  {
    if policy.preserveMin.Within? {
      DeltasArePeriods(e, now, policy, policy.preserveMin.unit);
    }
  }

  /** The five-stage cascade keeps exactly what the flat rule keeps. */
  lemma CascadeIsFlat<T>(es: seq<DatedEntry<T>>, offset: int, policy: RetentionPolicy, now: DateTime, i: nat)
    requires Timeline(es, offset) && WithinHorizon(es, now) && policy.hourOfDay == 0 && i < |es|
    ensures Kept(policy, AllDeltas(es, now, policy), i) <==> FlatKeeps(es, policy, now, i)
  {
    var d := AllDeltas(es, now, policy);
    FloorIsFlat(es[i], policy, now);
    forall unit: Unit ensures TierKeeps(policy, d, unit, i) <==> FlatTier(es, policy, now, unit, i) {
      TierIsFlat(es, offset, policy, now, unit, i);
    }
  }

  // ---------------------------------------------------------------------------
  // The horizon is exact
  // ---------------------------------------------------------------------------

  /** An entry at the start of the hour with this index. */
  function AtHour(hour: int, nn: u32): (e: DatedEntry<int>)
    ensures ValidEntry(e) && OnOffset(e, 0) && HourIndex(e.local) == hour && e.local.hour == hour % HOURS_PER_DAY
    ensures DayOf(e.local) == hour / HOURS_PER_DAY && e.instant == hour * SECONDS_PER_HOUR
  {
    var local := FromSeconds(hour * SECONDS_PER_HOUR);
    HourIndexOfSeconds(local);
    DatedEntry(hour * SECONDS_PER_HOUR, local, true, nn, nn)
  }

  /** An entry in the hour of `now`, and one in the first hour beyond the horizon. */
  ghost predicate Straddles<T>(es: seq<DatedEntry<T>>, now: DateTime) {
    && Valid(now) && |es| == 2 && ValidEntries(es) && es[0].local.nanos == 0 == es[1].local.nanos
    && HourIndex(es[0].local) == HourIndex(now) && HourIndex(es[1].local) == LastHour(now) + 1
  }

  /** With a fraction of a second, truncation merges the next hour into hour 0. */
  lemma NextHourIsHourZero<T>(es: seq<DatedEntry<T>>, now: DateTime, policy: RetentionPolicy)
    requires Straddles(es, now) && now.nanos > 0
    ensures AllDeltas(es, now, policy)[0].hours == 0 == AllDeltas(es, now, policy)[1].hours
  {
    WholeHoursValue(now, es[0].local);
    WholeHoursValue(now, es[1].local);
  }

  const HOURLY := RetentionPolicy(NoFloor, Some(Count(1)), None, None, None, None, 0, 0)

  lemma NextHourIsNew<T>(es: seq<DatedEntry<T>>, now: DateTime)
    requires Straddles(es, now) && now.nanos > 0
    ensures FlatKeeps(es, HOURLY, now, 1)
  {
    assert FlatTier(es, HOURLY, now, Hours, 1);
  }

  /** For every `now` with a fraction of a second, an entry of the next hour is deleted against the flat rule. */
  lemma NextHourBreaksTheFlatRule<T>(es: seq<DatedEntry<T>>, now: DateTime)
    requires Straddles(es, now) && now.nanos > 0
    ensures FlatKeeps(es, HOURLY, now, 1) && !Kept(HOURLY, AllDeltas(es, now, HOURLY), 1)
  {
    NextHourIsNew(es, now);
    NextHourIsHourZero(es, now, HOURLY);
    AllTiers(HOURLY, AllDeltas(es, now, HOURLY), 1);
  }

  /** Weeks that begin tomorrow, one of them kept. */
  function WeeklyFromTomorrow(now: DateTime): RetentionPolicy
    requires Valid(now)
  {
    RetentionPolicy(NoFloor, None, None, Some(Count(1)), None, None, 0, WeekdayFromSunday(DayOf(now) + 1))
  }

  lemma WeekChanges(day: int)
    ensures WeekIndex(day + 1, WeekdayFromSunday(day + 1)) == WeekIndex(day, WeekdayFromSunday(day + 1)) + 1
  {
  }

  lemma TodayIsWeekZero<T>(e: DatedEntry<T>, now: DateTime, policy: RetentionPolicy)
    requires Placed(e, now) && HourIndex(e.local) == HourIndex(now) && policy.hourOfDay == 0
    ensures
      var d := DeltasOf(e, now, policy);
      d.weeks == 0 && d.days == 0 && d.hours == 0
  {
    HourIndexOfSeconds(now);
    HourIndexOfSeconds(e.local);
    HoursAndDaysArePeriods(e, now, policy);
    WeeksArePeriods(e, now, policy);
  }

  lemma NegativeDay(hours: int)
    requires -HOURS_PER_DAY <= hours < 0
    ensures TruncDiv(hours, HOURS_PER_DAY) == if hours == -HOURS_PER_DAY then -1 else 0
    ensures TruncDiv(TruncDiv(hours, HOURS_PER_DAY), DAYS_PER_WEEK) == 0
  {
  }

  lemma FirstOfTomorrow(local: DateTime, now: DateTime)
    requires Valid(local) && Valid(now) && now.nanos == 0 && HourIndex(local) == LastHour(now) + 1
    ensures local.hour == 0 && DayOf(local) == DayOf(now) + 1
    ensures HourIndex(now) - HourIndex(local) == now.hour - HOURS_PER_DAY
  {
  }

  lemma WeekOpens<T>(e: DatedEntry<T>, policy: RetentionPolicy)
    requires ValidEntry(e) && e.local.hour == 0 && policy.hourOfDay == 0
    requires policy.dayOfWeek == WeekdayFromSunday(DayOf(e.local))
    ensures HoursIntoDay(e, policy) == 0 && DaysIntoWeek(e, policy) == 0
  {
    ZeroRemains(e.local.hour - if e.hasExactTime then policy.hourOfDay else 0, HOURS_PER_DAY);
    var borrow := if e.hasExactTime && e.local.hour < policy.hourOfDay then 1 else 0;
    ZeroRemains(WeekdayFromSunday(DayOf(e.local)) - policy.dayOfWeek - borrow, DAYS_PER_WEEK);
  }

  lemma ZeroRemains(n: int, m: nat)
    requires n == 0 && m > 0
    ensures n % m == 0
  {
  }

  lemma WeekZero<T>(e: DatedEntry<T>, now: DateTime, policy: RetentionPolicy)
    requires ValidEntry(e) && Valid(now) && HoursIntoDay(e, policy) == 0 && DaysIntoWeek(e, policy) == 0
    requires -HOURS_PER_DAY <= WholeHours(StartOfHour(now), StartOfHour(e.local)) < 0
    ensures
      var d := DeltasOf(e, now, policy);
      d.weeks == 0 && d.hours < 0 && (d.days == 0 || d.days == -1)
  {
    NegativeDay(WholeHours(StartOfHour(now), StartOfHour(e.local)));
  }

  /** Without one, it merges tomorrow's week into week 0. */
  lemma TomorrowIsWeekZero<T>(e: DatedEntry<T>, now: DateTime)
    requires Valid(now) && ValidEntry(e) && now.nanos == 0 == e.local.nanos && HourIndex(e.local) == LastHour(now) + 1
    ensures
      var d := DeltasOf(e, now, WeeklyFromTomorrow(now));
      d.weeks == 0 && d.hours < 0 && (d.days == 0 || d.days == -1)
  {
    FirstOfTomorrow(e.local, now);
    WeekOpens(e, WeeklyFromTomorrow(now));
    WholeHoursValue(now, e.local);
    WeekZero(e, now, WeeklyFromTomorrow(now));
  }

  /** Of two entries in one week bucket the newer one does not represent it. */
  lemma NewerIsNotWeekRep(d: seq<Deltas>)
    requires |d| == 2 && d[0].weeks == d[1].weeks && d[0].hours > d[1].hours && d[0].days >= d[1].days
    ensures !Rep(d, Weeks, 1)
  {
    assert Rep(d, Hours, 0);
    if d[0].days > d[1].days {
      assert Rep(d, Days, 0);
    } else {
      assert !Rep(d, Days, 1);
    }
  }

  lemma OnlyWeekly(policy: RetentionPolicy, d: seq<Deltas>)
    requires |d| == 2 && !Rep(d, Weeks, 1) && policy.preserveMin == NoFloor
    requires policy.hourly == None && policy.daily == None && policy.monthly == None && policy.yearly == None
    ensures !Kept(policy, d, 1)
  {
    AllTiers(policy, d, 1);
  }

  lemma TomorrowOpensItsWeek<T>(es: seq<DatedEntry<T>>, now: DateTime)
    requires Straddles(es, now) && now.nanos == 0
    ensures FlatTier(es, WeeklyFromTomorrow(now), now, Weeks, 1)
  {
    FirstOfTomorrow(es[1].local, now);
    HourIndexOfSeconds(now);
    HourIndexOfSeconds(es[0].local);
    WeekChanges(DayOf(now));
  }

  /** For every other `now`, an entry of tomorrow's first hour is deleted against the flat rule. */
  lemma TomorrowBreaksTheFlatRule<T>(es: seq<DatedEntry<T>>, now: DateTime)
    requires Straddles(es, now) && now.nanos == 0
    ensures
      var policy := WeeklyFromTomorrow(now);
      FlatKeeps(es, policy, now, 1) && !Kept(policy, AllDeltas(es, now, policy), 1)
  {
    var policy := WeeklyFromTomorrow(now);
    TomorrowOpensItsWeek(es, now);
    TodayIsWeekZero(es[0], now, policy);
    TomorrowIsWeekZero(es[1], now);
    NewerIsNotWeekRep(AllDeltas(es, now, policy));
    OnlyWeekly(policy, AllDeltas(es, now, policy));
  }

  /** There is such a pair for every `now`. */
  lemma SomePairStraddles(now: DateTime) returns (es: seq<DatedEntry<int>>)
    requires Valid(now)
    ensures Straddles(es, now) && Timeline(es, 0)
  {
    assert HourIndex(now) <= LastHour(now);
    es := [AtHour(HourIndex(now), 0), AtHour(LastHour(now) + 1, 0)];
  }

  ghost predicate Agrees<T>(es: seq<DatedEntry<T>>, policy: RetentionPolicy, now: DateTime, i: nat)
    requires i < |es| && Valid(now) && ValidEntries(es)
  {
    Kept(policy, AllDeltas(es, now, policy), i) <==> FlatKeeps(es, policy, now, i)
  }

  /** Whatever the entries up to hour `limit` and the policy are, the cascade is the flat rule. */
  ghost predicate FollowsFlatRule(now: DateTime, limit: int)
    requires Valid(now)
  {
    forall es: seq<DatedEntry<int>>, offset: int, policy: RetentionPolicy, i: nat
      {:trigger Timeline(es, offset), Agrees(es, policy, now, i)} ::
      && Timeline(es, offset) && policy.hourOfDay == 0 && i < |es|
      && (forall j :: 0 <= j < |es| ==> HourIndex(es[j].local) <= limit)
      ==> Agrees(es, policy, now, i)
  }

  /** The cascade is the flat rule for all entries up to an hour if and only if that hour is within the horizon. */
  lemma HorizonIsExact(now: DateTime, limit: int)
    requires Valid(now)
    ensures FollowsFlatRule(now, limit) <==> limit <= LastHour(now)
  {
    if limit <= LastHour(now) {
      forall es: seq<DatedEntry<int>>, offset: int, policy: RetentionPolicy, i: nat
        | Timeline(es, offset) && policy.hourOfDay == 0 && i < |es|
          && (forall j :: 0 <= j < |es| ==> HourIndex(es[j].local) <= limit)
        ensures Agrees(es, policy, now, i)
      {
        CascadeIsFlat(es, offset, policy, now, i);
      }
    } else {
      var es := SomePairStraddles(now);
      var policy := BeyondDisagrees(es, now);
      assert !Agrees(es, policy, now, 1);
    }
  }

  /** Some policy tells the two readings of such a pair apart. */
  lemma BeyondDisagrees(es: seq<DatedEntry<int>>, now: DateTime) returns (policy: RetentionPolicy)
    requires Straddles(es, now)
    ensures policy.hourOfDay == 0 && !Agrees(es, policy, now, 1)
  {
    if now.nanos > 0 {
      policy := HOURLY;
      NextHourBreaksTheFlatRule(es, now);
    } else {
      policy := WeeklyFromTomorrow(now);
      TomorrowBreaksTheFlatRule(es, now);
    }
  }
}
