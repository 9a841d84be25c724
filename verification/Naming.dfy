/**
 Snapshot names: crates/domain/src/naming.rs.

 `Captures` and `Render` are the name grammar written as a printer. `Capture` is the matcher; it
 finds the one way a text can be written in the grammar, if there is one.
 */
module Naming {
  import opened Wrappers
  import opened Calendar
  import opened Decimal

  datatype TimestampFormat = Short | Long | LongIso

  /** A `DateTime<FixedOffset>`: wall-clock reading and offset east of UTC in seconds. */
  datatype Zoned = Zoned(local: DateTime, offset: int)

  predicate ValidZoned(dt: Zoned) {
    Valid(dt.local) && ValidOffset(dt.offset)
  }

  /** What `FixedOffset::east_opt` accepts. */
  predicate ValidOffset(offset: int) { -SECONDS_PER_DAY < offset < SECONDS_PER_DAY }

  datatype ParsedName = ParsedName(basename: string, naive: DateTime, hasExactTime: bool, offset: Option<int>, nn: u32)

  // ---------------------------------------------------------------------------
  // Formatting
  // ---------------------------------------------------------------------------

  /** `%Y`: four digits, with a sign outside 0..9999. */
  function FormatYear(year: int): string {
    if 0 <= year <= 9999 then Padded(year, 4)
    else if year < 0 then "-" + (if year > -10000 then Padded(-year, 4) else Print(-year))
    else "+" + Print(year)
  }

  /** `%z`: `+hhmm` or `-hhmm`, seconds rounded to the nearest minute. */
  function FormatOffset(offset: int): string {
    var minutes := ((if offset < 0 then -offset else offset) + 30) / 60;
    (if offset < 0 then "-" else "+") + Padded(minutes / 60, 2) + Padded(minutes % 60, 2)
  }

  function FormatDate(dt: DateTime): string
    requires Valid(dt)
  {
    FormatYear(dt.year) + Padded(dt.month0 + 1, 2) + Padded(dt.day, 2)
  }

  function FormatTimestamp(dt: Zoned, fmt: TimestampFormat): string
    requires Valid(dt.local)
  {
    match fmt
    case Short => FormatDate(dt.local)
    case Long => FormatDate(dt.local) + "T" + Padded(dt.local.hour, 2) + Padded(dt.local.minute, 2)
    case LongIso => FormatDate(dt.local) + "T" + Padded(dt.local.hour, 2) + Padded(dt.local.minute, 2)
                    + Padded(dt.local.second, 2) + FormatOffset(dt.offset)
  }

  function MakeName(basename: string, dt: Zoned, fmt: TimestampFormat): string
    requires Valid(dt.local)
  {
    basename + "." + FormatTimestamp(dt, fmt)
  }

  function WithCounter(name: string, counter: u32): string {
    name + "_" + Print(counter)
  }

  // ---------------------------------------------------------------------------
  // The grammar
  // ---------------------------------------------------------------------------

  datatype TimePart = NoTime | Clock(h: string, min: string) | ExactClock(h: string, min: string, s: string, z: string)

  datatype Captures =
    Captures(name: string, year: string, month: string, day: string, time: TimePart, nn: Option<string>)

  predicate Digits(s: string, n: nat) { |s| == n && AllDigits(s) }

  predicate IsZone(z: string) {
    z == "Z" || (|z| == 5 && z[0] in {'+', '-'} && AllDigits(z[1..]))
  }

  predicate WellFormed(c: Captures) {
    && c.name != [] && '\n' !in c.name
    && Digits(c.year, 4) && Digits(c.month, 2) && Digits(c.day, 2)
    && (match c.time
        case NoTime => true
        case Clock(h, min) => Digits(h, 2) && Digits(min, 2)
        case ExactClock(h, min, s, z) => Digits(h, 2) && Digits(min, 2) && Digits(s, 2) && IsZone(z))
    && (c.nn.Some? ==> c.nn.value != [] && AllDigits(c.nn.value))
  }

  function RenderTime(time: TimePart): string {
    match time
    case NoTime => ""
    case Clock(h, min) => "T" + h + min
    case ExactClock(h, min, s, z) => "T" + h + min + s + z
  }

  function RenderCounter(nn: Option<string>): string {
    match nn
    case None => ""
    case Some(digits) => "_" + digits
  }

  function RenderTail(c: Captures): string {
    c.year + c.month + c.day + RenderTime(c.time) + RenderCounter(c.nn)
  }

  function Render(c: Captures): string {
    c.name + "." + RenderTail(c)
  }

  // ---------------------------------------------------------------------------
  // The matcher
  // ---------------------------------------------------------------------------

  /** The position of the last dot, or `|s|` if there is none. */
  function LastDot(s: string): (k: nat)
    ensures k <= |s|
    ensures k < |s| ==> s[k] == '.' && '.' !in s[k + 1..]
    ensures k == |s| ==> '.' !in s
  {
    if s == [] then 0
    else
      var k := LastDot(s[1..]);
      assert s == [s[0]] + s[1..];
      if k < |s| - 1 then
        assert s[1..][k + 1..] == s[k + 2..];
        k + 1
      else if s[0] == '.' then 0 else |s|
  }

  lemma {:induction false} LastDotUnique(s: string, k: nat)
    requires k < |s| && s[k] == '.' && '.' !in s[k + 1..]
    ensures LastDot(s) == k
  {
    if k > 0 {
      assert s[1..][k..] == s[k + 1..];
      LastDotUnique(s[1..], k - 1);
    } else {
      assert LastDot(s[1..]) == |s| - 1;
    }
  }

  function CaptureCounter(t: string): Option<Option<string>> {
    if t == "" then Some(None)
    else if t[0] == '_' && |t| > 1 && AllDigits(t[1..]) then Some(Some(t[1..]))
    else None
  }

  /** The length of the zone designator at the front of `t`; 0 if there is none. */
  function ZoneLength(t: string): (n: nat)
    ensures n <= |t|
    ensures n > 0 ==> IsZone(t[..n])
  {
    if t != [] && t[0] == 'Z' then
      assert t[..1] == "Z";
      1
    else if |t| >= 5 && t[0] in {'+', '-'} && AllDigits(t[1..5]) then
      assert t[..5][1..] == t[1..5];
      5
    else 0
  }

  /** The optional time part and what follows it. */
  function CaptureTime(t: string): (TimePart, string) {
    if |t| >= 5 && t[0] == 'T' && AllDigits(t[1..5]) then
      if |t| >= 7 && AllDigits(t[5..7]) && ZoneLength(t[7..]) > 0 then
        var n := ZoneLength(t[7..]);
        (ExactClock(t[1..3], t[3..5], t[5..7], t[7..][..n]), t[7..][n..])
      else
        (Clock(t[1..3], t[3..5]), t[5..])
    else (NoTime, t)
  }

  /** Everything behind the last dot. */
  function CaptureTail(name: string, t: string): Option<Captures> {
    if |t| < 8 || !AllDigits(t[..8]) then None
    else
      var (time, rest) := CaptureTime(t[8..]);
      var nn := CaptureCounter(rest);
      if nn.None? then None
      else Some(Captures(name, t[..4], t[4..6], t[6..8], time, nn.value))
  }

  function Capture(s: string): Option<Captures> {
    var k := LastDot(s);
    if k == |s| || k == 0 || '\n' in s[..k] then None
    else CaptureTail(s[..k], s[k + 1..])
  }

  lemma TimeSplits(t: string)
    ensures
      var (time, rest) := CaptureTime(t);
      && RenderTime(time) + rest == t
      && (time.Clock? ==> Digits(time.h, 2) && Digits(time.min, 2))
      && (time.ExactClock? ==> Digits(time.h, 2) && Digits(time.min, 2) && Digits(time.s, 2) && IsZone(time.z))
  {
    if |t| >= 5 && t[0] == 'T' && AllDigits(t[1..5]) {
      var d := t[1..5];
      assert AllDigits(d[..2]) && AllDigits(d[2..]);
      assert t[1..3] == d[..2] && t[3..5] == d[2..];
    }
  }

  lemma DateSplits(t: string)
    requires |t| >= 8 && AllDigits(t[..8])
    ensures Digits(t[..4], 4) && Digits(t[4..6], 2) && Digits(t[6..8], 2)
    ensures t[..4] + t[4..6] + t[6..8] + t[8..] == t
  {
    var d := t[..8];
    assert t[..4] == d[..4] && t[4..6] == d[4..6] && t[6..8] == d[6..8];
  }

  lemma TailSound(name: string, t: string)
    requires name != [] && '\n' !in name
    ensures CaptureTail(name, t).Some?
      ==> WellFormed(CaptureTail(name, t).value) && RenderTail(CaptureTail(name, t).value) == t
    ensures CaptureTail(name, t).Some? ==> CaptureTail(name, t).value.name == name
  {
    if CaptureTail(name, t).Some? {
      var c := CaptureTail(name, t).value;
      var (time, rest) := CaptureTime(t[8..]);
      DateSplits(t);
      TimeSplits(t[8..]);
      CounterSplits(rest);
      Assoc(c.year + c.month + c.day, RenderTime(time), rest);
    }
  }

  lemma CounterSplits(t: string)
    ensures CaptureCounter(t).Some? ==> RenderCounter(CaptureCounter(t).value) == t
    ensures CaptureCounter(t).Some? && CaptureCounter(t).value.Some? ==>
      CaptureCounter(t).value.value != [] && AllDigits(CaptureCounter(t).value.value)
  {
  }

  lemma Assoc(a: string, b: string, c: string)
    ensures a + b + c == a + (b + c)
  {
  }

  /** What the matcher returns is a reading of the text in the grammar. */
  lemma CaptureSound(s: string)
    ensures Capture(s).Some? ==> WellFormed(Capture(s).value) && Render(Capture(s).value) == s
  {
    if Capture(s).Some? {
      var k := LastDot(s);
      TailSound(s[..k], s[k + 1..]);
      SplitAtDot(s, k);
    }
  }

  lemma SplitAtDot(s: string, k: nat)
    requires k < |s| && s[k] == '.'
    ensures s == s[..k] + "." + s[k + 1..]
  {
  }

  lemma DigitsHaveNoDot(s: string)
    requires AllDigits(s)
    ensures '.' !in s
  {
  }

  lemma NoDotInEither(a: string, b: string)
    requires '.' !in a && '.' !in b
    ensures '.' !in a + b
  {
  }

  lemma ZoneHasNoDot(z: string)
    requires IsZone(z)
    ensures '.' !in z
  {
    if z != "Z" {
      assert z == [z[0]] + z[1..];
      DigitsHaveNoDot(z[1..]);
    }
  }

  lemma TimeHasNoDot(c: Captures)
    requires WellFormed(c)
    ensures '.' !in RenderTime(c.time)
  {
    match c.time {
      case NoTime =>
      case Clock(h, min) =>
        DigitsHaveNoDot(h);
        DigitsHaveNoDot(min);
      case ExactClock(h, min, s, z) =>
        DigitsHaveNoDot(h);
        DigitsHaveNoDot(min);
        DigitsHaveNoDot(s);
        ZoneHasNoDot(z);
    }
  }

  lemma TailHasNoDot(c: Captures)
    requires WellFormed(c)
    ensures '.' !in RenderTail(c)
  {
    DigitsHaveNoDot(c.year + c.month + c.day);
    TimeHasNoDot(c);
    NoDotInEither(c.year + c.month + c.day, RenderTime(c.time));
    NoDotInEither(c.year + c.month + c.day + RenderTime(c.time), RenderCounter(c.nn));
  }

  /** A counter never looks like the start of a time part. */
  predicate IsCounter(tail: string) { tail == "" || tail[0] == '_' }

  lemma ClockComplete(h: string, min: string, tail: string)
    requires Digits(h, 2) && Digits(min, 2) && IsCounter(tail)
    ensures CaptureTime("T" + h + min + tail) == (Clock(h, min), tail)
  {
    var t := "T" + h + min + tail;
    assert t[1..5] == h + min && t[5..] == tail;
    assert t[1..3] == h && t[3..5] == min;
    if |t| >= 7 {
      assert t[5] == tail[0];
      assert t[5..7][0] == '_';
    }
  }

  lemma ZoneComplete(z: string, tail: string)
    requires IsZone(z)
    ensures ZoneLength(z + tail) == |z| && (z + tail)[..|z|] == z && (z + tail)[|z|..] == tail
  {
    if z != "Z" {
      assert (z + tail)[1..5] == z[1..];
    }
  }

  lemma ExactClockComplete(h: string, min: string, s: string, z: string, tail: string)
    requires Digits(h, 2) && Digits(min, 2) && Digits(s, 2) && IsZone(z)
    ensures CaptureTime("T" + h + min + s + (z + tail)) == (ExactClock(h, min, s, z), tail)
  {
    var t := "T" + h + min + s + (z + tail);
    assert t[1..5] == h + min && t[5..7] == s && t[7..] == z + tail;
    assert t[1..3] == h && t[3..5] == min;
    ZoneComplete(z, tail);
  }

  lemma CaptureTimeComplete(c: Captures)
    requires WellFormed(c)
    ensures CaptureTime(RenderTime(c.time) + RenderCounter(c.nn)) == (c.time, RenderCounter(c.nn))
  {
    var tail := RenderCounter(c.nn);
    match c.time {
      case NoTime =>
        assert RenderTime(c.time) + tail == tail;
      case Clock(h, min) =>
        ClockComplete(h, min, tail);
      case ExactClock(h, min, s, z) =>
        ExactClockComplete(h, min, s, z, tail);
        assert "T" + h + min + s + z + tail == "T" + h + min + s + (z + tail);
    }
  }

  lemma DateSlices(y: string, m: string, d: string, tail: string)
    requires |y| == 4 && |m| == 2 && |d| == 2
    ensures
      var t := y + m + d + tail;
      t[..4] == y && t[4..6] == m && t[6..8] == d && t[..8] == y + m + d && t[8..] == tail
  {
  }

  lemma TailComplete(c: Captures)
    requires WellFormed(c)
    ensures CaptureTail(c.name, RenderTail(c)) == Some(c)
  {
    var tail := RenderTime(c.time) + RenderCounter(c.nn);
    assert RenderTail(c) == c.year + c.month + c.day + tail;
    DateSlices(c.year, c.month, c.day, tail);
    CaptureTimeComplete(c);
    if c.nn.Some? {
      assert RenderCounter(c.nn)[1..] == c.nn.value;
    }
  }

  /** The matcher finds every text the grammar can write, and recovers how it was written. */
  lemma CaptureComplete(c: Captures)
    requires WellFormed(c)
    ensures Capture(Render(c)) == Some(c)
  {
    var s, k := Render(c), |c.name|;
    TailHasNoDot(c);
    assert s[k] == '.' && s[k + 1..] == RenderTail(c) && s[..k] == c.name;
    LastDotUnique(s, k);
    TailComplete(c);
  }

  /** A text has at most one reading, so greediness never matters. */
  lemma CapturesUnique(a: Captures, b: Captures)
    requires WellFormed(a) && WellFormed(b) && Render(a) == Render(b)
    ensures a == b
  {
    CaptureComplete(a);
    CaptureComplete(b);
  }

  // ---------------------------------------------------------------------------
  // parse_name
  // ---------------------------------------------------------------------------

  function ParseOffset(text: string): Option<int> {
    if |text| != 5 || text[0] !in {'+', '-'} || !AllDigits(text[1..]) then None
    else
      var sign := if text[0] == '+' then 1 else -1;
      var d := text[1..];
      var seconds := sign * (Value(d[..2]) * SECONDS_PER_HOUR + Value(d[2..]) * SECONDS_PER_MINUTE);
      if ValidOffset(seconds) then Some(seconds) else None
  }

  /** `group("nn").and_then(parse).unwrap_or(0)`: an overlong counter counts as 0. */
  function CounterOf(nn: Option<string>): u32 {
    match nn
    case None => 0
    case Some(digits) => match ParseU32(digits) case Some(n) => n case None => 0
  }

  /** Turn the captured groups into a name; out-of-range dates, times and offsets are refused. */
  function Interpret(c: Captures): (r: Option<ParsedName>)
    requires WellFormed(c)
    ensures r.Some? ==> Valid(r.value.naive) && r.value.naive.nanos == 0
    ensures r.Some? && r.value.offset.Some? ==> ValidOffset(r.value.offset.value)
  {
    var hour := if c.time.NoTime? then 0 else Value(c.time.h);
    var minute := if c.time.NoTime? then 0 else Value(c.time.min);
    var second := if c.time.ExactClock? then Value(c.time.s) else 0;
    if !ValidDate(Value(c.year), Value(c.month) - 1, Value(c.day)) || !ValidTime(hour, minute, second) then None
    else
      var naive := DateTime(Value(c.year), Value(c.month) - 1, Value(c.day), hour, minute, second, 0);
      var name := ParsedName(c.name, naive, !c.time.NoTime?, None, CounterOf(c.nn));
      if !c.time.ExactClock? then Some(name)
      else if c.time.z == "Z" then Some(name.(offset := Some(0)))
      else match ParseOffset(c.time.z)
        case None => None
        case Some(offset) => Some(name.(offset := Some(offset)))
  }

  function ParseName(s: string): (r: Option<ParsedName>)
    ensures r.Some? ==> Valid(r.value.naive) && r.value.naive.nanos == 0
    ensures r.Some? && r.value.offset.Some? ==> ValidOffset(r.value.offset.value)
  {
    var c := Capture(s);
    if c.None? then None
    else
      CaptureSound(s);
      Interpret(c.value)
  }

  /** The reading of a time part on the clock: hour, minute, second. */
  ghost predicate Tells(time: TimePart, dt: DateTime) {
    match time
    case NoTime => dt.hour == 0 && dt.minute == 0 && dt.second == 0
    case Clock(h, min) =>
      AllDigits(h) && AllDigits(min) && dt.hour == Value(h) && dt.minute == Value(min) && dt.second == 0
    case ExactClock(h, min, s, _) =>
      && AllDigits(h) && AllDigits(min) && AllDigits(s)
      && dt.hour == Value(h) && dt.minute == Value(min) && dt.second == Value(s)
  }

  /** The zone designator of a time part: none, `Z`, or hours and minutes east or west, less than a day. */
  ghost predicate Zones(time: TimePart, offset: Option<int>) {
    match time
    case NoTime => offset == None
    case Clock(_, _) => offset == None
    case ExactClock(_, _, _, z) =>
      if z == "Z" then offset == Some(0)
      else
        && offset.Some? && ValidOffset(offset.value) && |z| == 5 && AllDigits(z[1..3]) && AllDigits(z[3..5])
        && offset.value == (if z[0] == '-' then -60 else 60) * (60 * Value(z[1..3]) + Value(z[3..5]))
  }

  /** What the groups of a name say. A counter that does not fit counts as 0. */
  ghost predicate Says(c: Captures, p: ParsedName)
    requires WellFormed(c)
  {
    && p.basename == c.name && Valid(p.naive) && p.naive.nanos == 0
    && p.naive.year == Value(c.year) && p.naive.month0 == Value(c.month) - 1 && p.naive.day == Value(c.day)
    && Tells(c.time, p.naive) && p.hasExactTime == (c.time != NoTime) && Zones(c.time, p.offset)
    && p.nn == if c.nn.None? || Value(c.nn.value) > U32_MAX then 0 else Value(c.nn.value)
  }

  lemma OffsetZones(z: string, offset: int)
    requires IsZone(z) && z != "Z"
    ensures AllDigits(z[1..3]) && AllDigits(z[3..5])
    ensures ParseOffset(z) == Some(offset) <==>
      ValidOffset(offset) && offset == (if z[0] == '-' then -60 else 60) * (60 * Value(z[1..3]) + Value(z[3..5]))
  {
    var d := z[1..];
    assert d[..2] == z[1..3] && d[2..] == z[3..5];
  }

  lemma CounterSays(nn: Option<string>)
    requires nn.Some? ==> nn.value != [] && AllDigits(nn.value)
    ensures CounterOf(nn) == if nn.None? || Value(nn.value) > U32_MAX then 0 else Value(nn.value)
  {
    if nn.Some? {
      assert IsDigit(nn.value[0]);
    }
  }

  lemma InterpretSays(c: Captures, p: ParsedName)
    requires WellFormed(c)
    ensures Interpret(c) == Some(p) <==> Says(c, p)
  {
    CounterSays(c.nn);
    if c.time.ExactClock? && c.time.z != "Z" && p.offset.Some? {
      OffsetZones(c.time.z, p.offset.value);
    }
  }

  /** A text is a name in the scheme exactly if the grammar can write it with a valid date; it means what that says. */
  lemma ParseNameMeans(s: string, p: ParsedName)
    ensures ParseName(s) == Some(p) <==> exists c :: WellFormed(c) && Render(c) == s && Says(c, p)
  {
    CaptureSound(s);
    if ParseName(s) == Some(p) {
      InterpretSays(Capture(s).value, p);
    }
    forall c | WellFormed(c) && Render(c) == s && Says(c, p) ensures ParseName(s) == Some(p) {
      CaptureComplete(c);
      InterpretSays(c, p);
    }
  }

  // ---------------------------------------------------------------------------
  // Round trip
  // ---------------------------------------------------------------------------

  /** The part of the time a format keeps. */
  function Truncated(dt: DateTime, fmt: TimestampFormat): DateTime {
    match fmt
    case Short => dt.(hour := 0, minute := 0, second := 0, nanos := 0)
    case Long => dt.(second := 0, nanos := 0)
    case LongIso => dt.(nanos := 0)
  }

  /** The groups a made name is read as. */
  function Made(basename: string, dt: Zoned, fmt: TimestampFormat, nn: Option<string>): Captures
    requires Valid(dt.local)
  {
    var l := dt.local;
    var h, min := Padded(l.hour, 2), Padded(l.minute, 2);
    var time := match fmt
      case Short => NoTime
      case Long => Clock(h, min)
      case LongIso => ExactClock(h, min, Padded(l.second, 2), FormatOffset(dt.offset));
    Captures(basename, Padded(if l.year >= 0 then l.year else 0, 4), Padded(l.month0 + 1, 2), Padded(l.day, 2),
             time, nn)
  }

  lemma TwoDigits(n: nat)
    requires n < 100
    ensures Digits(Padded(n, 2), 2) && Value(Padded(n, 2)) == n
  {
    assert Pow10(2) == 100;
    ValueOfPadded(n, 2);
  }

  lemma FourDigits(n: nat)
    requires n < 10000
    ensures Digits(Padded(n, 4), 4) && Value(Padded(n, 4)) == n
  {
    assert Pow10(4) == 10000;
    ValueOfPadded(n, 4);
  }

  lemma ParsedOffset(sign: char, hh: string, mm: string)
    requires sign in {'+', '-'} && Digits(hh, 2) && Digits(mm, 2)
    ensures IsZone([sign] + hh + mm)
    ensures
      var seconds := (if sign == '+' then 1 else -1) * (Value(hh) * SECONDS_PER_HOUR + Value(mm) * SECONDS_PER_MINUTE);
      ParseOffset([sign] + hh + mm) == if ValidOffset(seconds) then Some(seconds) else None
  {
    var z := [sign] + hh + mm;
    assert z[1..] == hh + mm;
    assert (hh + mm)[..2] == hh && (hh + mm)[2..] == mm;
  }

  /** The nearest whole minute; half a minute counts away from zero. */
  predicate NearestMinute(offset: int, rounded: int) {
    && rounded % 60 == 0
    && if 0 <= offset then 0 <= rounded && rounded - 30 <= offset < rounded + 30
       else rounded <= 0 && rounded - 30 < offset <= rounded + 30
  }

  lemma OffsetMinutes(offset: int, rounded: int, minutes: int)
    requires ValidOffset(rounded) && NearestMinute(offset, rounded)
    requires minutes == ((if offset < 0 then -offset else offset) + 30) / 60
    ensures rounded == (if offset < 0 then -1 else 1) * minutes * 60
    ensures 0 <= minutes / 60 < 24 && 0 <= minutes % 60 < 60
  {
    if offset < 0 {
      assert -rounded <= -offset + 30 < -rounded + 60;
    } else {
      assert rounded <= offset + 30 < rounded + 60;
    }
  }

  lemma SignedMinutes(sign: int, minutes: int, rounded: int)
    requires rounded == sign * minutes * 60 && (sign == 1 || sign == -1)
    ensures sign * (minutes / 60 * SECONDS_PER_HOUR + minutes % 60 * SECONDS_PER_MINUTE) == rounded
  {
  }

  /** A printed offset is read as the nearest whole minute. */
  lemma OffsetIsRounded(offset: int, rounded: int)
    requires ValidOffset(offset) && ValidOffset(rounded) && NearestMinute(offset, rounded)
    ensures IsZone(FormatOffset(offset)) && ParseOffset(FormatOffset(offset)) == Some(rounded)
    ensures FormatOffset(offset) != "Z"
  {
    var minutes := ((if offset < 0 then -offset else offset) + 30) / 60;
    OffsetMinutes(offset, rounded, minutes);
    var hh, mm := Padded(minutes / 60, 2), Padded(minutes % 60, 2);
    TwoDigits(minutes / 60);
    TwoDigits(minutes % 60);
    assert FormatOffset(offset) == [if offset < 0 then '-' else '+'] + hh + mm;
    SignedMinutes(if offset < 0 then -1 else 1, minutes, rounded);
    ParsedOffset(if offset < 0 then '-' else '+', hh, mm);
  }

  lemma OffsetRoundTrip(offset: int)
    requires ValidOffset(offset) && offset % 60 == 0
    ensures IsZone(FormatOffset(offset)) && ParseOffset(FormatOffset(offset)) == Some(offset)
    ensures FormatOffset(offset) != "Z"
  {
    OffsetIsRounded(offset, offset);
  }

  lemma ClockAssoc(d: string, h: string, min: string)
    ensures d + "T" + h + min == d + ("T" + h + min)
  {
  }

  lemma ExactClockAssoc(d: string, h: string, min: string, s: string, z: string)
    ensures d + "T" + h + min + s + z == d + ("T" + h + min + s + z)
  {
  }

  /** The printed timestamp is the date followed by the grammar's time part. */
  lemma TimestampIsRendered(basename: string, dt: Zoned, fmt: TimestampFormat, nn: Option<string>)
    requires Valid(dt.local) && 0 <= dt.local.year <= 9999
    ensures
      var c := Made(basename, dt, fmt, nn);
      FormatTimestamp(dt, fmt) == c.year + c.month + c.day + RenderTime(c.time)
  {
    var c := Made(basename, dt, fmt, nn);
    var d := FormatDate(dt.local);
    assert d == c.year + c.month + c.day;
    match fmt {
      case Short =>
        assert d + "" == d;
      case Long =>
        ClockAssoc(d, c.time.h, c.time.min);
      case LongIso =>
        ExactClockAssoc(d, c.time.h, c.time.min, c.time.s, c.time.z);
    }
  }

  lemma MadeIsWellFormed(basename: string, dt: Zoned, fmt: TimestampFormat, nn: Option<string>)
    requires Valid(dt.local) && 0 <= dt.local.year <= 9999 && basename != [] && '\n' !in basename
    requires ValidOffset(dt.offset) && dt.offset % 60 == 0
    requires nn.Some? ==> nn.value != [] && AllDigits(nn.value)
    ensures WellFormed(Made(basename, dt, fmt, nn))
  {
    OffsetRoundTrip(dt.offset);
  }

  lemma MadeIsRendered(basename: string, dt: Zoned, fmt: TimestampFormat, nn: Option<string>)
    requires Valid(dt.local) && 0 <= dt.local.year <= 9999
    ensures Render(Made(basename, dt, fmt, nn)) == MakeName(basename, dt, fmt) + RenderCounter(nn)
  {
    TimestampIsRendered(basename, dt, fmt, nn);
    Assoc(basename + ".", FormatTimestamp(dt, fmt), RenderCounter(nn));
  }

  /** The groups of `c` are the fields of `dt`, as far as the format writes them. */
  predicate Spells(c: Captures, dt: Zoned, fmt: TimestampFormat)
    requires WellFormed(c)
  {
    var l := dt.local;
    && Value(c.year) == l.year && Value(c.month) == l.month0 + 1 && Value(c.day) == l.day
    && (match fmt
        case Short => c.time.NoTime?
        case Long => c.time.Clock? && Value(c.time.h) == l.hour && Value(c.time.min) == l.minute
        case LongIso => && c.time.ExactClock? && Value(c.time.h) == l.hour && Value(c.time.min) == l.minute
                        && Value(c.time.s) == l.second && c.time.z != "Z" && ParseOffset(c.time.z) == Some(dt.offset))
  }

  lemma SpelledIsInterpreted(c: Captures, dt: Zoned, fmt: TimestampFormat)
    requires Valid(dt.local) && WellFormed(c) && Spells(c, dt, fmt)
    ensures Interpret(c) == Some(ParsedName(c.name, Truncated(dt.local, fmt), fmt != Short,
                                            if fmt == LongIso then Some(dt.offset) else None, CounterOf(c.nn)))
  {
  }

  lemma MadeIsSpelled(basename: string, dt: Zoned, fmt: TimestampFormat, nn: Option<string>)
    requires Valid(dt.local) && 0 <= dt.local.year <= 9999 && basename != [] && '\n' !in basename
    requires ValidOffset(dt.offset) && dt.offset % 60 == 0
    requires nn.Some? ==> nn.value != [] && AllDigits(nn.value)
    ensures WellFormed(Made(basename, dt, fmt, nn)) && Spells(Made(basename, dt, fmt, nn), dt, fmt)
  {
    MadeIsWellFormed(basename, dt, fmt, nn);
    OffsetRoundTrip(dt.offset);
    var l := dt.local;
    FourDigits(l.year);
    TwoDigits(l.month0 + 1);
    TwoDigits(l.day);
    TwoDigits(l.hour);
    TwoDigits(l.minute);
    TwoDigits(l.second);
  }

  lemma MadeIsParsed(basename: string, dt: Zoned, fmt: TimestampFormat, nn: Option<string>)
    requires Valid(dt.local) && 0 <= dt.local.year <= 9999 && basename != [] && '\n' !in basename
    requires ValidOffset(dt.offset) && dt.offset % 60 == 0
    requires nn.Some? ==> nn.value != [] && AllDigits(nn.value)
    ensures ParseName(MakeName(basename, dt, fmt) + RenderCounter(nn))
         == Some(ParsedName(basename, Truncated(dt.local, fmt), fmt != Short,
                            if fmt == LongIso then Some(dt.offset) else None, CounterOf(nn)))
  {
    var c := Made(basename, dt, fmt, nn);
    MadeIsRendered(basename, dt, fmt, nn);
    MadeIsSpelled(basename, dt, fmt, nn);
    SpelledIsInterpreted(c, dt, fmt);
    CaptureComplete(c);
  }

  /**
   Parsing a made name gives back the basename, the time cut to the format's granularity, the offset
   for long-iso, and the counter. The basename may hold dots and timestamp-like text.
   */
  lemma NameRoundTrip(basename: string, dt: Zoned, fmt: TimestampFormat, counter: u32)
    requires ValidZoned(dt) && 0 <= dt.local.year <= 9999 && dt.offset % 60 == 0
    requires basename != [] && '\n' !in basename
    ensures
      var made := ParsedName(basename, Truncated(dt.local, fmt), fmt != Short,
                             if fmt == LongIso then Some(dt.offset) else None, 0);
      && ParseName(MakeName(basename, dt, fmt)) == Some(made)
      && ParseName(WithCounter(MakeName(basename, dt, fmt), counter)) == Some(made.(nn := counter))
  {
    MadeIsParsed(basename, dt, fmt, None);
    NoCounter(MakeName(basename, dt, fmt));
    MadeIsParsed(basename, dt, fmt, Some(Print(counter)));
    Counted(MakeName(basename, dt, fmt), counter);
  }

  lemma NoCounter(name: string)
    ensures name + RenderCounter(None) == name
  {
  }

  lemma Counted(name: string, counter: u32)
    ensures name + RenderCounter(Some(Print(counter))) == WithCounter(name, counter)
    ensures CounterOf(Some(Print(counter))) == counter
  {
    ParsePrinted(counter);
  }

  // ---------------------------------------------------------------------------
  // Collision-free names
  // ---------------------------------------------------------------------------

  /** The counter a leaf stands for relative to `base`. */
  function LeafCounter(base: string, leaf: string): Option<u32> {
    if leaf == base then Some(0)
    else if base + "_" <= leaf then ParseU32(leaf[|base| + 1..])
    else None
  }

  /** The leaf is the base itself, counted 0, or the base, `_` and a numeral. */
  predicate Counts(base: string, leaf: string, c: nat) {
    || (leaf == base && c == 0)
    || (|leaf| > |base| && leaf[..|base|] == base && leaf[|base|] == '_' && Numeral(leaf[|base| + 1..], c))
  }

  lemma LeafCounts(base: string, leaf: string, c: u32)
    ensures LeafCounter(base, leaf) == Some(c) <==> Counts(base, leaf, c)
  {
    if |leaf| > |base| {
      assert leaf[..|base| + 1] == leaf[..|base|] + [leaf[|base|]];
      assert base + "_" <= leaf <==> leaf[..|base| + 1] == base + "_";
      assert (base + "_")[..|base|] == base && (base + "_")[|base|] == '_';
      ParsesNumerals(leaf[|base| + 1..], c);
    }
  }

  /** The higher of two counters, if there are any. */
  function Higher(a: Option<u32>, b: Option<u32>): Option<u32> {
    if b.None? then a else if a.None? || a.value <= b.value then b else a
  }

  /** The highest counter present, `None` when no leaf belongs to `base`. */
  function HighestCounter(base: string, existing: seq<string>): Option<u32> {
    if existing == [] then None
    else
      var n := |existing| - 1;
      Higher(HighestCounter(base, existing[..n]), LeafCounter(base, existing[n]))
  }

  lemma {:induction false} HighestCovers(base: string, existing: seq<string>, leaf: string, c: u32)
    requires leaf in existing && LeafCounter(base, leaf) == Some(c)
    ensures HighestCounter(base, existing).Some? && c <= HighestCounter(base, existing).value
  {
    var n := |existing| - 1;
    if leaf != existing[n] {
      assert leaf in existing[..n];
      HighestCovers(base, existing[..n], leaf, c);
    }
  }

  lemma {:induction false} HighestOccurs(base: string, existing: seq<string>)
    requires HighestCounter(base, existing).Some?
    ensures exists leaf :: leaf in existing && LeafCounter(base, leaf) == HighestCounter(base, existing)
  {
    var n := |existing| - 1;
    if LeafCounter(base, existing[n]) == HighestCounter(base, existing) {
      assert existing[n] in existing;
    } else {
      HighestOccurs(base, existing[..n]);
      var leaf :| leaf in existing[..n] && LeafCounter(base, leaf) == HighestCounter(base, existing[..n]);
      assert leaf in existing;
    }
  }

  /** `n + 1` wraps at `u32::MAX` in a release build. */
  function NextFreeName(base: string, existing: seq<string>): string {
    match HighestCounter(base, existing)
    case None => base
    case Some(n) => WithCounter(base, if n == U32_MAX then 0 else n + 1)
  }

  lemma CounterOfCountered(base: string, counter: u32)
    ensures LeafCounter(base, WithCounter(base, counter)) == Some(counter)
    ensures WithCounter(base, counter) != base
  {
    var leaf := WithCounter(base, counter);
    assert leaf == (base + "_") + Print(counter);
    assert leaf[|base| + 1..] == Print(counter);
    ParsePrinted(counter);
    assert |leaf| > |base|;
  }

  lemma {:induction false} NoneMeansFree(base: string, existing: seq<string>)
    requires HighestCounter(base, existing).None?
    ensures base !in existing
  {
    if base in existing {
      HighestCovers(base, existing, base, 0);
    }
  }

  lemma BeyondHighest(base: string, existing: seq<string>, c: u32)
    requires HighestCounter(base, existing).Some? && HighestCounter(base, existing).value < c
    ensures WithCounter(base, c) !in existing
  {
    CounterOfCountered(base, c);
    if WithCounter(base, c) in existing {
      HighestCovers(base, existing, WithCounter(base, c), c);
    }
  }

  /** Some name of the base carries this counter. */
  ghost predicate Carried(base: string, existing: seq<string>, c: nat) {
    exists leaf :: leaf in existing && Counts(base, leaf, c)
  }

  /** Some name of the base carries the last counter. */
  ghost predicate UsedUp(base: string, existing: seq<string>) { Carried(base, existing, U32_MAX) }

  lemma CarriedIsCovered(base: string, existing: seq<string>, c: u32)
    requires Carried(base, existing, c)
    ensures HighestCounter(base, existing).Some? && c <= HighestCounter(base, existing).value
  {
    var leaf :| leaf in existing && Counts(base, leaf, c);
    LeafCounts(base, leaf, c);
    HighestCovers(base, existing, leaf, c);
  }

  lemma HighestIsCarried(base: string, existing: seq<string>, c: u32)
    requires HighestCounter(base, existing) == Some(c)
    ensures Carried(base, existing, c)
  {
    HighestOccurs(base, existing);
    var leaf :| leaf in existing && LeafCounter(base, leaf) == Some(c);
    LeafCounts(base, leaf, c);
  }

  lemma CarriedAtMost(base: string, existing: seq<string>, max: u32)
    requires HighestCounter(base, existing).Some? ==> HighestCounter(base, existing).value <= max
    ensures Carried(base, existing, max) <==> HighestCounter(base, existing) == Some(max)
  {
    if Carried(base, existing, max) {
      CarriedIsCovered(base, existing, max);
    }
    if HighestCounter(base, existing) == Some(max) {
      HighestIsCarried(base, existing, max);
    }
  }

  lemma {:induction false} UsedUpIsHighest(base: string, existing: seq<string>)
    ensures UsedUp(base, existing) <==> HighestCounter(base, existing) == Some(U32_MAX)
  {
    CarriedAtMost(base, existing, U32_MAX);
  }

  /** The chosen name is free, unless the last counter is in use and `base_0` exists. */
  lemma NextNameIsFree(base: string, existing: seq<string>)
    ensures NextFreeName(base, existing) !in existing <==> !(UsedUp(base, existing) && WithCounter(base, 0) in existing)
  {
    UsedUpIsHighest(base, existing);
    match HighestCounter(base, existing) {
      case None => NoneMeansFree(base, existing);
      case Some(n) =>
        if n < U32_MAX {
          BeyondHighest(base, existing, n + 1);
        }
    }
  }

  lemma HighestOfAppend(base: string, existing: seq<string>, leaf: string)
    ensures HighestCounter(base, existing + [leaf]) == Higher(HighestCounter(base, existing), LeafCounter(base, leaf))
  {
    assert (existing + [leaf])[..|existing|] == existing;
  }

  /** Snapshots with the same timestamp, each named after looking at the ones before it. */
  ghost predicate RepeatedUse(base: string, names: seq<string>) {
    names == [] || (RepeatedUse(base, Front(names)) && Last(names) == NextFreeName(base, Front(names)))
  }

  function Front(names: seq<string>): (r: seq<string>)
    requires names != []
    ensures |r| == |names| - 1
    ensures names == r + [Last(names)]
  {
    names[..|names| - 1]
  }

  function Last(names: seq<string>): string
    requires names != []
  {
    names[|names| - 1]
  }

  function NthName(base: string, i: u32): string {
    if i == 0 then base else WithCounter(base, i)
  }

  lemma NthCounter(base: string, i: u32)
    ensures LeafCounter(base, NthName(base, i)) == Some(i)
  {
    CounterOfCountered(base, i);
  }

  lemma NameAfter(base: string, existing: seq<string>, n: u32)
    requires HighestCounter(base, existing) == Some(n) && n < U32_MAX
    ensures NextFreeName(base, existing) == NthName(base, n + 1)
  {
  }

  lemma NthNext(base: string, existing: seq<string>, k: u32)
    requires HighestCounter(base, existing) == if k == 0 then None else Some(k - 1)
    ensures NextFreeName(base, existing) == NthName(base, k)
  {
    if k > 0 {
      NameAfter(base, existing, k - 1);
    }
  }

  /** Repeated use from an empty directory yields `base`, `base_1`, `base_2`, ... */
  lemma {:induction false} RepeatedNames(base: string, names: seq<string>, i: nat)
    requires RepeatedUse(base, names) && i < |names| <= U32_MAX + 1
    ensures names[i] == NthName(base, i)
  {
    if i < |names| - 1 {
      RepeatedNames(base, Front(names), i);
      assert names[i] == Front(names)[i];
    } else {
      RepeatedCounter(base, Front(names));
      NthNext(base, Front(names), i);
    }
  }

  lemma {:induction false} RepeatedCounter(base: string, names: seq<string>)
    requires RepeatedUse(base, names) && |names| <= U32_MAX + 1
    ensures HighestCounter(base, names) == if names == [] then None else Some(|names| - 1)
  {
    if names != [] {
      var k := |names| - 1;
      RepeatedCounter(base, Front(names));
      NthNext(base, Front(names), k);
      NthCounter(base, k);
      HighestOfAppend(base, Front(names), Last(names));
    }
  }

  lemma BelowMax(n: Option<u32>)
    requires n.Some? && n != Some(U32_MAX)
    ensures n.value < U32_MAX
  {
  }

  /** The next free name counts beyond every name of its timestamp that is in use. */
  lemma NextCountsOn(base: string, existing: seq<string>, c: u32) returns (next: u32)
    requires NthName(base, c) in existing && !UsedUp(base, existing)
    ensures c < next && NextFreeName(base, existing) == NthName(base, next)
  {
    NthCounter(base, c);
    UsedUpIsHighest(base, existing);
    HighestCovers(base, existing, NthName(base, c), c);
    var highest := HighestCounter(base, existing);
    BelowMax(highest);
    next := highest.value + 1;
    NameAfter(base, existing, highest.value);
  }

}
