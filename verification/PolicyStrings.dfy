/**
 Policy strings: the parsing half of crates/domain/src/retention.rs, and `entry_policy` of
 crates/cli/src/cli.rs, which prints a schedule and parses it again.
 */
module PolicyStrings {
  import opened Wrappers
  import opened Sequences
  import opened Decimal
  import opened Calendar
  import opened Retention
  import opened RetentionTheorems

  // ---------------------------------------------------------------------------
  // Whitespace
  // ---------------------------------------------------------------------------

  /** `char::is_whitespace`: the Unicode property White_Space. */
  predicate IsSpace(c: char) {
    var n := c as int;
    || 0x9 <= n <= 0xD || n == 0x20 || n == 0x85 || n == 0xA0 || n == 0x1680
    || 0x2000 <= n <= 0x200A || n == 0x2028 || n == 0x2029 || n == 0x202F || n == 0x205F || n == 0x3000
  }

  /** The code points of Unicode's White_Space. */
  const WHITE_SPACE: seq<int> := [
    0x9, 0xA, 0xB, 0xC, 0xD, 0x20, 0x85, 0xA0, 0x1680, 0x2000, 0x2001, 0x2002, 0x2003, 0x2004, 0x2005, 0x2006, 0x2007,
    0x2008, 0x2009, 0x200A, 0x2028, 0x2029, 0x202F, 0x205F, 0x3000
  ]

  predicate Blank(s: string) { forall i :: 0 <= i < |s| ==> s[i] as int in WHITE_SPACE }

  lemma SpacesAreWhite(c: char)
    ensures IsSpace(c) <==> c as int in WHITE_SPACE
  {
  }

  predicate IsWord(s: string) { s != [] && forall i :: 0 <= i < |s| ==> !IsSpace(s[i]) }

  function TrimStart(s: string): string {
    if s != [] && IsSpace(s[0]) then TrimStart(s[1..]) else s
  }

  function TrimEnd(s: string): string {
    if s != [] && IsSpace(s[|s| - 1]) then TrimEnd(s[..|s| - 1]) else s
  }

  function Trim(s: string): string { TrimEnd(TrimStart(s)) }

  function WordLength(s: string): (n: nat)
    ensures n <= |s| && (forall i :: 0 <= i < n ==> !IsSpace(s[i])) && (n < |s| ==> IsSpace(s[n]))
  {
    if s == [] || IsSpace(s[0]) then 0 else 1 + WordLength(s[1..])
  }

  /** `split_whitespace`: the maximal runs of other characters. */
  function Words(s: string): (r: seq<string>)
    ensures forall k :: 0 <= k < |r| ==> IsWord(r[k])
    decreases |s|
  {
    if s == [] then []
    else if IsSpace(s[0]) then Words(s[1..])
    else
      var n := WordLength(s);
      [s[..n]] + Words(s[n..])
  }

  /** `join(" ")` */
  function Join(words: seq<string>): string {
    if words == [] then []
    else if |words| == 1 then words[0]
    else words[0] + " " + Join(words[1..])
  }

  lemma {:induction false} WordLengthOfWord(w: string, rest: string)
    requires (forall i :: 0 <= i < |w| ==> !IsSpace(w[i])) && (rest == [] || IsSpace(rest[0]))
    ensures WordLength(w + rest) == |w|
  {
    if w == [] {
      assert w + rest == rest;
    } else {
      assert (w + rest)[1..] == w[1..] + rest;
      WordLengthOfWord(w[1..], rest);
    }
  }

  lemma WordsOfOne(w: string, rest: string)
    requires IsWord(w) && (rest == [] || IsSpace(rest[0]))
    ensures Words(w + rest) == [w] + Words(rest)
  {
    WordLengthOfWord(w, rest);
    assert (w + rest)[..|w|] == w && (w + rest)[|w|..] == rest;
  }

  /** Joining words and splitting them again gives the words back. */
  lemma {:induction false} WordsOfJoin(words: seq<string>)
    requires forall k :: 0 <= k < |words| ==> IsWord(words[k])
    ensures Words(Join(words)) == words
  {
    if |words| == 1 {
      WordsOfOne(words[0], "");
      assert words[0] + "" == words[0] && words == [words[0]];
    } else if |words| > 1 {
      var rest := " " + Join(words[1..]);
      WordsOfOne(words[0], rest);
      assert Join(words) == words[0] + rest && rest[1..] == Join(words[1..]);
      WordsOfJoin(words[1..]);
      assert words == [words[0]] + words[1..];
    }
  }

  /** A joined list has no space at either end. */
  lemma {:induction false} JoinIsTrimmed(words: seq<string>)
    requires words != [] && IsWord(words[0]) && forall k :: 0 <= k < |words| ==> IsWord(words[k])
    ensures Join(words) != [] && Join(words)[0] == words[0][0] && !IsSpace(Join(words)[|Join(words)| - 1])
    ensures Trim(Join(words)) == Join(words)
  {
    if |words| > 1 {
      JoinIsTrimmed(words[1..]);
      var tail := Join(words[1..]);
      assert Join(words)[|Join(words)| - 1] == tail[|tail| - 1];
    }
  }

  lemma {:induction false} TrimStartCuts(before: string, s: string)
    requires Blank(before) && (s == [] || !IsSpace(s[0]))
    ensures TrimStart(before + s) == s
  {
    if before == [] {
      assert before + s == s;
    } else {
      SpacesAreWhite(before[0]);
      assert (before + s)[1..] == before[1..] + s;
      TrimStartCuts(before[1..], s);
    }
  }

  lemma {:induction false} TrimEndCuts(s: string, after: string)
    requires Blank(after) && (s == [] || !IsSpace(s[|s| - 1]))
    ensures TrimEnd(s + after) == s
  {
    if after == [] {
      assert s + after == s;
    } else {
      SpacesAreWhite(after[|after| - 1]);
      assert (s + after)[..|s + after| - 1] == s + after[..|after| - 1];
      TrimEndCuts(s, after[..|after| - 1]);
    }
  }

  /** Trimming removes the white space around a text that neither begins nor ends with any. */
  lemma TrimCuts(before: string, s: string, after: string)
    requires Blank(before) && Blank(after) && s != [] && !IsSpace(s[0]) && !IsSpace(s[|s| - 1])
    ensures Trim(before + s + after) == s
  {
    assert before + s + after == before + (s + after);
    TrimStartCuts(before, s + after);
    TrimEndCuts(s, after);
  }

  lemma {:induction false} WordsAfterBlank(before: string, s: string)
    requires Blank(before)
    ensures Words(before + s) == Words(s)
  {
    if before == [] {
      assert before + s == s;
    } else {
      SpacesAreWhite(before[0]);
      assert (before + s)[1..] == before[1..] + s;
      WordsAfterBlank(before[1..], s);
    }
  }

  /** The tokens between the gaps. */
  function Spaced(tokens: seq<string>, gaps: seq<string>): string
    requires |gaps| == |tokens| + 1
  {
    if tokens == [] then gaps[0] else gaps[0] + (tokens[0] + Spaced(tokens[1..], gaps[1..]))
  }

  /** White space around the tokens, and at least some between any two of them. */
  predicate Separates(gaps: seq<string>) {
    forall i :: 0 <= i < |gaps| ==> Blank(gaps[i]) && (0 < i < |gaps| - 1 ==> gaps[i] != [])
  }

  /** Splitting gives the tokens back, whatever white space stands around and between them. */
  lemma {:induction false} WordsOfSpaced(tokens: seq<string>, gaps: seq<string>)
    requires |gaps| == |tokens| + 1 && Separates(gaps)
    requires forall k :: 0 <= k < |tokens| ==> IsWord(tokens[k])
    ensures Words(Spaced(tokens, gaps)) == tokens
  {
    if tokens == [] {
      WordsAfterBlank(gaps[0], "");
      assert gaps[0] + "" == gaps[0];
    } else {
      var rest := Spaced(tokens[1..], gaps[1..]);
      assert forall i :: 0 <= i < |gaps| - 1 ==> gaps[1..][i] == gaps[i + 1];
      RestAfterGap(tokens[1..], gaps[1..]);
      WordsOfSpaced(tokens[1..], gaps[1..]);
      WordsAfterBlank(gaps[0], tokens[0] + rest);
      WordsOfOne(tokens[0], rest);
      assert tokens == [tokens[0]] + tokens[1..];
    }
  }

  lemma RestAfterGap(tokens: seq<string>, gaps: seq<string>)
    requires |gaps| == |tokens| + 1 && Blank(gaps[0]) && (tokens != [] ==> gaps[0] != [])
    ensures Spaced(tokens, gaps) == [] || IsSpace(Spaced(tokens, gaps)[0])
  {
    if gaps[0] != [] {
      SpacesAreWhite(gaps[0][0]);
    }
  }

  lemma {:induction false} WordsOfTrimmedEnd(s: string)
    ensures Words(TrimEnd(s)) == Words(s)
    decreases |s|
  {
    if s != [] && IsSpace(s[|s| - 1]) {
      WordsOfTrimmedEnd(s[..|s| - 1]);
      SpaceAtEnd(s[..|s| - 1], s[|s| - 1]);
      assert s == s[..|s| - 1] + [s[|s| - 1]];
    }
  }

  lemma {:induction false} WordLengthWithSpace(s: string, c: char)
    requires IsSpace(c)
    ensures WordLength(s + [c]) == WordLength(s)
  {
    if s != [] {
      assert (s + [c])[1..] == s[1..] + [c];
      if !IsSpace(s[0]) {
        WordLengthWithSpace(s[1..], c);
      }
    }
  }

  lemma {:induction false} SpaceAtEnd(s: string, c: char)
    requires IsSpace(c)
    ensures Words(s + [c]) == Words(s)
    decreases |s|
  {
    if s == [] {
      assert s + [c] == [c] && [c][1..] == [];
    } else if IsSpace(s[0]) {
      assert (s + [c])[1..] == s[1..] + [c];
      SpaceAtEnd(s[1..], c);
    } else {
      var n := WordLength(s);
      WordLengthWithSpace(s, c);
      assert (s + [c])[..n] == s[..n] && (s + [c])[n..] == s[n..] + [c];
      SpaceAtEnd(s[n..], c);
    }
  }

  lemma {:induction false} WordsOfTrimmedStart(s: string)
    ensures Words(TrimStart(s)) == Words(s)
  {
    if s != [] && IsSpace(s[0]) {
      WordsOfTrimmedStart(s[1..]);
    }
  }

  /** Trimming does not change the words. */
  lemma WordsOfTrim(s: string)
    ensures Words(Trim(s)) == Words(s)
  {
    WordsOfTrimmedEnd(TrimStart(s));
    WordsOfTrimmedStart(s);
  }

  // ---------------------------------------------------------------------------
  // Tokens
  // ---------------------------------------------------------------------------

  function UnitFromChar(c: char): Option<Unit> {
    match c
    case 'h' => Some(Hours)
    case 'd' => Some(Days)
    case 'w' => Some(Weeks)
    case 'm' => Some(Months)
    case 'y' => Some(Years)
    case _ => None
  }

  function UnitChar(unit: Unit): char {
    match unit
    case Hours => 'h'
    case Days => 'd'
    case Weeks => 'w'
    case Months => 'm'
    case Years => 'y'
  }

  function SplitUnit(token: string): Option<(string, Unit)> {
    if token == [] then None
    else match UnitFromChar(token[|token| - 1])
      case None => None
      case Some(unit) =>
        var count := token[..|token| - 1];
        if count == [] then None else Some((count, unit))
  }

  function SplitCountUnit(token: string): Option<(u32, Unit)> {
    match SplitUnit(token)
    case None => None
    case Some((count, unit)) => match ParseU32(count) case None => None case Some(n) => Some((n, unit))
  }

  function ParseTier(token: string): Option<(Unit, TierCount)> {
    match SplitUnit(token)
    case None => None
    case Some((count, unit)) =>
      if count == "*" then Some((unit, All))
      else match ParseU32(count) case None => None case Some(n) => Some((unit, Count(n)))
  }

  function ParseMin(value: string): Option<PreserveMin> {
    var v := Trim(value);
    if v == "all" then Some(KeepAll)
    else if v == "latest" then Some(Latest)
    else if v == "no" then Some(NoFloor)
    else match SplitCountUnit(v) case None => None case Some((n, unit)) => Some(Within(n, unit))
  }

  /** `format!("{n}{unit}")` */
  function Token(n: nat, unit: Unit): string { Print(n) + [UnitChar(unit)] }

  lemma TokenSplits(n: nat, unit: Unit)
    ensures SplitUnit(Token(n, unit)) == Some((Print(n), unit))
    ensures IsWord(Token(n, unit)) && IsDigit(Token(n, unit)[0])
  {
    var token := Token(n, unit);
    assert token[..|token| - 1] == Print(n);
    forall i | 0 <= i < |token| ensures !IsSpace(token[i]) {
      assert i < |Print(n)| ==> token[i] == Print(n)[i] && IsDigit(Print(n)[i]);
    }
  }

  /** A printed tier parses back, unless the count does not fit. */
  lemma TokenRoundTrip(n: nat, unit: Unit)
    ensures ParseTier(Token(n, unit)) == if n <= U32_MAX then Some((unit, Count(n))) else None
  {
    TokenSplits(n, unit);
    ParsePrinted(n);
    assert IsDigit(Print(n)[0]) && !IsDigit("*"[0]);
  }

  /** So does a printed window. */
  lemma WindowRoundTrip(n: nat, unit: Unit)
    ensures ParseMin(Token(n, unit)) == if n <= U32_MAX then Some(Within(n, unit)) else None
  {
    TokenSplits(n, unit);
    ParsePrinted(n);
    JoinIsTrimmed([Token(n, unit)]);
    assert Join([Token(n, unit)]) == Token(n, unit);
    assert !IsDigit("all"[0]) && !IsDigit("latest"[0]) && !IsDigit("no"[0]);
  }

  /** How the units are written. */
  function UnitText(unit: Unit): (s: string)
    ensures |s| == 1
  {
    match unit
    case Hours => "h"
    case Days => "d"
    case Weeks => "w"
    case Months => "m"
    case Years => "y"
  }

  /** How a floor is written. */
  function FloorText(min: PreserveMin): string {
    match min
    case KeepAll => "all"
    case Latest => "latest"
    case NoFloor => "no"
    case Within(count, unit) => Print(count) + UnitText(unit)
  }

  /** How a tier is written. */
  function TierText(unit: Unit, count: TierCount): string {
    match count
    case All => "*" + UnitText(unit)
    case Count(n) => Print(n) + UnitText(unit)
  }

  lemma TokenIsText(n: nat, unit: Unit)
    ensures Token(n, unit) == Print(n) + UnitText(unit)
  {
  }

  lemma SplitsCount(count: string, unit: Unit, token: string)
    ensures SplitUnit(token) == Some((count, unit)) <==> count != [] && token == count + UnitText(unit)
  {
    if token != [] && UnitFromChar(token[|token| - 1]) == Some(unit) {
      assert token == token[..|token| - 1] + [token[|token| - 1]];
      assert [token[|token| - 1]] == UnitText(unit);
    }
    if count != [] && token == count + UnitText(unit) {
      assert token[..|token| - 1] == count && token[|token| - 1] == UnitText(unit)[0];
    }
  }

  /** `t` writes the number `n` and then the unit. */
  predicate Writes(t: string, n: nat, unit: Unit) {
    |t| > 0 && t[|t| - 1..] == UnitText(unit) && Numeral(t[..|t| - 1], n)
  }

  lemma WritesCount(token: string, n: u32, unit: Unit)
    ensures Writes(token, n, unit) <==>
      SplitUnit(token).Some? && SplitUnit(token).value.1 == unit && ParseU32(SplitUnit(token).value.0) == Some(n)
  {
    if token != [] {
      var count := token[..|token| - 1];
      assert token == count + token[|token| - 1..];
      SplitsCount(count, unit, token);
      ParsesNumerals(count, n);
    }
  }

  /** Exactly the `*` tiers and the numbered ones are read, each as what it says. */
  lemma TierMeans(token: string, unit: Unit, count: TierCount)
    ensures ParseTier(token) == Some((unit, count)) <==>
      match count case All => token == "*" + UnitText(unit) case Count(n) => Writes(token, n, unit)
  {
    SplitsCount("*", unit, token);
    if count.Count? {
      WritesCount(token, count.count, unit);
      assert !IsDigit("*"[0]);
    }
  }

  /** Exactly the three words and the windows are read, each as what it says. */
  lemma FloorMeans(text: string, min: PreserveMin)
    ensures ParseMin(text) == Some(min) <==>
      match min
      case KeepAll => Trim(text) == "all"
      case Latest => Trim(text) == "latest"
      case NoFloor => Trim(text) == "no"
      case Within(n, unit) => Writes(Trim(text), n, unit)
  {
    if min.Within? {
      WritesCount(Trim(text), min.count, min.unit);
    }
  }

  lemma PrintIsNumeral(n: nat)
    ensures Numeral(Print(n), n)
  {
    ValueOfPrint(n);
  }

  lemma TierTextIsWord(unit: Unit, count: TierCount)
    ensures IsWord(TierText(unit, count)) && TierText(unit, count)[0] != 'n'
  {
    if count.Count? {
      TokenSplits(count.count, unit);
      TokenIsText(count.count, unit);
    }
  }

  /** A written tier is read as itself. */
  lemma TierTextParses(unit: Unit, count: TierCount)
    ensures ParseTier(TierText(unit, count)) == Some((unit, count))
  {
    if count.Count? {
      TokenRoundTrip(count.count, unit);
      TokenIsText(count.count, unit);
    } else {
      TierMeans(TierText(unit, count), unit, count);
    }
  }

  lemma FloorTextIsWord(min: PreserveMin)
    ensures IsWord(FloorText(min))
  {
    if min.Within? {
      TokenSplits(min.count, min.unit);
      TokenIsText(min.count, min.unit);
    }
  }

  /** A written floor is read as itself, with any white space around it. */
  lemma FloorTextParses(min: PreserveMin, before: string, after: string)
    requires Blank(before) && Blank(after)
    ensures ParseMin(before + FloorText(min) + after) == Some(min)
  {
    var text := FloorText(min);
    FloorTextIsWord(min);
    TrimCuts(before, text, after);
    FloorMeans(before + text + after, min);
    if min.Within? {
      PrintIsNumeral(min.count);
      assert text[..|text| - 1] == Print(min.count) && text[|text| - 1..] == UnitText(min.unit);
    }
  }

  // ---------------------------------------------------------------------------
  // Schedules
  // ---------------------------------------------------------------------------

  /** The tokens of a schedule; `no` and blank mean none. */
  function Tokens(preserve: string): seq<string> {
    var schedule := Trim(preserve);
    if schedule == [] || schedule == "no" then [] else Words(schedule)
  }

  predicate Clash(a: string, b: string) {
    ParseTier(a).Some? && ParseTier(b).Some? && ParseTier(a).value.0 == ParseTier(b).value.0
  }

  /** Every token is valid and no unit repeats. */
  predicate ValidTokens(tokens: seq<string>) {
    && (forall i :: 0 <= i < |tokens| ==> ParseTier(tokens[i]).Some?)
    && (forall i, j :: 0 <= i < j < |tokens| ==> !Clash(tokens[i], tokens[j]))
  }

  /** Some token gives `unit` this count. */
  predicate Sets(tokens: seq<string>, unit: Unit, count: TierCount) {
    exists i :: 0 <= i < |tokens| && ParseTier(tokens[i]) == Some((unit, count))
  }

  /** The tiers are what the tokens say. */
  ghost predicate Describes(tokens: seq<string>, policy: RetentionPolicy) {
    forall unit, count :: policy.Tier(unit) == Some(count) <==> Sets(tokens, unit, count)
  }

  datatype PolicyError = BadToken(token: string) | BadMin(value: string)

  /** The first token that is invalid or repeats a unit. */
  ghost predicate FirstBad(tokens: seq<string>, k: nat) {
    k < |tokens| && ValidTokens(tokens[..k]) && !ValidTokens(tokens[..k + 1])
  }

  const DEFAULT := RetentionPolicy(KeepAll, None, None, None, None, None, 0, 0)

  function WithTier(policy: RetentionPolicy, unit: Unit, count: TierCount): RetentionPolicy {
    match unit
    case Hours => policy.(hourly := Some(count))
    case Days => policy.(daily := Some(count))
    case Weeks => policy.(weekly := Some(count))
    case Months => policy.(monthly := Some(count))
    case Years => policy.(yearly := Some(count))
  }

  /** A token of a unit not given yet clashes with no earlier one. */
  lemma NewUnit(front: seq<string>, token: string, policy: RetentionPolicy, unit: Unit, count: TierCount, j: nat)
    requires Describes(front, policy) && policy.Tier(unit).None? && ParseTier(token) == Some((unit, count))
    requires j < |front|
    ensures !Clash(front[j], token)
  {
    if Clash(front[j], token) {
      assert Sets(front, unit, ParseTier(front[j]).value.1);
    }
  }

  lemma StillValid(front: seq<string>, token: string)
    requires ValidTokens(front) && ParseTier(token).Some?
    requires forall j :: 0 <= j < |front| ==> !Clash(front[j], token)
    ensures ValidTokens(front + [token])
  {
  }

  lemma OneMoreSets(front: seq<string>, token: string, unit: Unit, count: TierCount, u: Unit, c: TierCount)
    requires ParseTier(token) == Some((unit, count))
    ensures Sets(front + [token], u, c) <==> Sets(front, u, c) || (u == unit && c == count)
  {
    var all := front + [token];
    assert all[|front|] == token;
    if Sets(front, u, c) {
      var j :| 0 <= j < |front| && ParseTier(front[j]) == Some((u, c));
      assert all[j] == front[j];
    }
  }

  lemma OneTokenMore(tokens: seq<string>, i: nat, policy: RetentionPolicy, unit: Unit, count: TierCount)
    requires i < |tokens| && ValidTokens(tokens[..i]) && Describes(tokens[..i], policy)
    requires ParseTier(tokens[i]) == Some((unit, count)) && policy.Tier(unit).None?
    ensures ValidTokens(tokens[..i + 1]) && Describes(tokens[..i + 1], WithTier(policy, unit, count))
  {
    var front := tokens[..i];
    assert tokens[..i + 1] == front + [tokens[i]];
    forall j | 0 <= j < i ensures !Clash(front[j], tokens[i]) {
      NewUnit(front, tokens[i], policy, unit, count, j);
    }
    StillValid(front, tokens[i]);
    forall u, c ensures Sets(tokens[..i + 1], u, c) <==> WithTier(policy, unit, count).Tier(u) == Some(c) {
      OneMoreSets(front, tokens[i], unit, count, u, c);
    }
  }

  lemma RepeatIsBad(tokens: seq<string>, i: nat, policy: RetentionPolicy, unit: Unit, count: TierCount)
    requires i < |tokens| && ValidTokens(tokens[..i]) && Describes(tokens[..i], policy)
    requires ParseTier(tokens[i]) == Some((unit, count)) && policy.Tier(unit).Some?
    ensures FirstBad(tokens, i)
  {
    assert Sets(tokens[..i], unit, policy.Tier(unit).value);
    var j :| 0 <= j < i && ParseTier(tokens[..i][j]) == Some((unit, policy.Tier(unit).value));
    assert Clash(tokens[..i + 1][j], tokens[..i + 1][i]);
  }

  lemma PrefixIsValid(tokens: seq<string>, k: nat)
    requires ValidTokens(tokens) && k <= |tokens|
    ensures ValidTokens(tokens[..k])
  {
    var front := tokens[..k];
    forall i, j | 0 <= i < j < |front| ensures !Clash(front[i], front[j]) {
      assert front[i] == tokens[i] && front[j] == tokens[j];
    }
  }

  lemma FirstBadMeansInvalid(tokens: seq<string>, k: nat)
    requires FirstBad(tokens, k)
    ensures !ValidTokens(tokens)
  {
    if ValidTokens(tokens) {
      PrefixIsValid(tokens, k + 1);
    }
  }

  /** The token loop of `RetentionPolicy::parse`. */
  method ParseTokens(start: RetentionPolicy, tokens: seq<string>) returns (r: Result<RetentionPolicy, PolicyError>)
    requires Describes([], start)
    ensures r.Ok? <==> ValidTokens(tokens)
    ensures r.Ok? ==> Describes(tokens, r.value)
    ensures r.Ok? ==> r.value.preserveMin == start.preserveMin && r.value.hourOfDay == start.hourOfDay
                      && r.value.dayOfWeek == start.dayOfWeek
    ensures r.Err? ==> exists k: nat :: FirstBad(tokens, k) && r.error == BadToken(tokens[k])
  {
    var policy := start;
    for i := 0 to |tokens|
      invariant ValidTokens(tokens[..i]) && Describes(tokens[..i], policy)
      invariant policy.preserveMin == start.preserveMin && policy.hourOfDay == start.hourOfDay
      invariant policy.dayOfWeek == start.dayOfWeek
    {
      match ParseTier(tokens[i]) {
        case None =>
          assert tokens[..i + 1][i] == tokens[i];
          FirstBadMeansInvalid(tokens, i);
          return Err(BadToken(tokens[i]));
        case Some((unit, count)) =>
          if policy.Tier(unit).Some? {
            RepeatIsBad(tokens, i, policy, unit, count);
            FirstBadMeansInvalid(tokens, i);
            return Err(BadToken(tokens[i]));
          }
          OneTokenMore(tokens, i, policy, unit, count);
          policy := WithTier(policy, unit, count);
      }
    }
    assert tokens[..|tokens|] == tokens;
    r := Ok(policy);
  }

  /** What parsing a policy answers. */
  ghost predicate ParsedAs(preserveMin: string, preserve: string, r: Result<RetentionPolicy, PolicyError>) {
    && (r.Ok? <==> ParseMin(preserveMin).Some? && ValidTokens(Tokens(preserve)))
    && (r.Ok? ==> Some(r.value.preserveMin) == ParseMin(preserveMin) && Describes(Tokens(preserve), r.value))
    && (r.Ok? ==> r.value.hourOfDay == 0 && r.value.dayOfWeek == 0)
    && (r.Err? ==> if ParseMin(preserveMin).None? then r.error == BadMin(Trim(preserveMin))
                   else exists k: nat :: FirstBad(Tokens(preserve), k) && r.error == BadToken(Tokens(preserve)[k]))
  }

  /** `RetentionPolicy::parse`. */
  method Parse(preserveMin: string, preserve: string) returns (r: Result<RetentionPolicy, PolicyError>)
    ensures ParsedAs(preserveMin, preserve, r)
  {
    var min := ParseMin(preserveMin);
    if min.None? {
      return Err(BadMin(Trim(preserveMin)));
    }
    r := ParseTokens(DEFAULT.(preserveMin := min.value), Tokens(preserve));
  }

  // ---------------------------------------------------------------------------
  // Consequences
  // ---------------------------------------------------------------------------

  /** The tokens and the floor determine the policy. */
  lemma PolicyIsDetermined(tokens: seq<string>, a: RetentionPolicy, b: RetentionPolicy)
    requires Describes(tokens, a) && Describes(tokens, b)
    requires a.preserveMin == b.preserveMin && a.hourOfDay == b.hourOfDay && a.dayOfWeek == b.dayOfWeek
    ensures a == b
  {
    forall unit ensures a.Tier(unit) == b.Tier(unit) {
      if a.Tier(unit).Some? {
        assert Sets(tokens, unit, a.Tier(unit).value);
      }
      if b.Tier(unit).Some? {
        assert Sets(tokens, unit, b.Tier(unit).value);
      }
    }
    assert a.Tier(Hours) == b.Tier(Hours) && a.Tier(Days) == b.Tier(Days) && a.Tier(Weeks) == b.Tier(Weeks);
    assert a.Tier(Months) == b.Tier(Months) && a.Tier(Years) == b.Tier(Years);
  }

  lemma {:induction false} TwoOf<T>(s: seq<T>, i: nat, j: nat)
    requires i < j < |s| && s[i] == s[j]
    ensures multiset(s)[s[i]] >= 2
  {
    assert s == s[..i] + [s[i]] + s[i + 1..];
    assert s[j] == s[i + 1..][j - i - 1];
  }

  lemma {:induction false} FindTwo<T>(s: seq<T>, x: T) returns (i: nat, j: nat)
    requires multiset(s)[x] >= 2
    ensures i < j < |s| && s[i] == x && s[j] == x
  {
    assert s == [s[0]] + s[1..];
    if s[0] == x {
      assert x in multiset(s[1..]);
      var k :| 0 <= k < |s[1..]| && s[1..][k] == x;
      i, j := 0, k + 1;
    } else {
      i, j := FindTwo(s[1..], x);
      i, j := i + 1, j + 1;
    }
  }

  /** Reordering the tokens changes neither whether they are valid nor what they say. */
  lemma OrderDoesNotMatter(a: seq<string>, b: seq<string>)
    requires multiset(a) == multiset(b) && ValidTokens(a)
    ensures ValidTokens(b)
    ensures forall unit, count :: Sets(a, unit, count) <==> Sets(b, unit, count)
  {
    SameElements(a, b);
    forall i | 0 <= i < |b| ensures ParseTier(b[i]).Some? {
      assert b[i] in a;
    }
    forall i, j | 0 <= i < j < |b| ensures !Clash(b[i], b[j]) {
      if b[i] == b[j] {
        TwoOf(b, i, j);
        var m, n := FindTwo(a, b[i]);
        assert !Clash(a[m], a[n]);
      } else {
        NoClash(a, b[i], b[j]);
      }
    }
    forall unit, count ensures Sets(a, unit, count) <==> Sets(b, unit, count) {
      SetsIn(a, b, unit, count);
      SetsIn(b, a, unit, count);
    }
  }

  lemma NoClash(a: seq<string>, x: string, y: string)
    requires ValidTokens(a) && x in a && y in a && x != y
    ensures !Clash(x, y)
  {
    var m :| 0 <= m < |a| && a[m] == x;
    var n :| 0 <= n < |a| && a[n] == y;
    assert m < n ==> !Clash(a[m], a[n]);
    assert n < m ==> !Clash(a[n], a[m]);
  }

  lemma SetsIn(a: seq<string>, b: seq<string>, unit: Unit, count: TierCount)
    requires forall x :: x in a ==> x in b
    ensures Sets(a, unit, count) ==> Sets(b, unit, count)
  {
    if Sets(a, unit, count) {
      var i :| 0 <= i < |a| && ParseTier(a[i]) == Some((unit, count));
      assert a[i] in b;
      var j :| 0 <= j < |b| && b[j] == a[i];
    }
  }

  /** So two schedules with the same tokens in any order and any spacing parse to the same policy. */
  lemma ParseIgnoresOrder(s: string, t: string, a: RetentionPolicy, b: RetentionPolicy)
    requires multiset(Tokens(s)) == multiset(Tokens(t)) && ValidTokens(Tokens(s))
    requires Describes(Tokens(s), a) && Describes(Tokens(t), b)
    requires a.preserveMin == b.preserveMin && a.hourOfDay == b.hourOfDay && a.dayOfWeek == b.dayOfWeek
    ensures a == b
  {
    OrderDoesNotMatter(Tokens(s), Tokens(t));
    assert Describes(Tokens(s), b);
    PolicyIsDetermined(Tokens(s), a, b);
  }

  // ---------------------------------------------------------------------------
  // Parsing inverts printing
  // ---------------------------------------------------------------------------

  /** The tiers of a policy, in some order. */
  ghost predicate Lists(tiers: seq<(Unit, TierCount)>, policy: RetentionPolicy) {
    && (forall i, j :: 0 <= i < j < |tiers| ==> tiers[i].0 != tiers[j].0)
    && forall unit, count :: policy.Tier(unit) == Some(count) <==> (unit, count) in tiers
  }

  function TierTexts(tiers: seq<(Unit, TierCount)>): (r: seq<string>)
    ensures |r| == |tiers| && forall i :: 0 <= i < |r| ==> r[i] == TierText(tiers[i].0, tiers[i].1)
  {
    seq(|tiers|, i requires 0 <= i < |tiers| => TierText(tiers[i].0, tiers[i].1))
  }

  /** The tokens are the words, unless the only word is `no`. */
  lemma TokensAreWords(text: string)
    requires Words(text) == [] || Words(text)[0] != "no"
    ensures Tokens(text) == Words(text)
  {
    WordsOfTrim(text);
    WordsOfOne("no", "");
    assert "no" + "" == "no";
  }

  lemma TextsAreTokens(tiers: seq<(Unit, TierCount)>, gaps: seq<string>)
    requires |gaps| == |tiers| + 1 && Separates(gaps)
    ensures Tokens(Spaced(TierTexts(tiers), gaps)) == TierTexts(tiers)
  {
    var texts := TierTexts(tiers);
    forall k | 0 <= k < |texts| ensures IsWord(texts[k]) && texts[k][0] != 'n' {
      TierTextIsWord(tiers[k].0, tiers[k].1);
    }
    WordsOfSpaced(texts, gaps);
    TokensAreWords(Spaced(texts, gaps));
  }

  lemma TextsAreValid(tiers: seq<(Unit, TierCount)>, policy: RetentionPolicy)
    requires Lists(tiers, policy)
    ensures ValidTokens(TierTexts(tiers)) && Describes(TierTexts(tiers), policy)
  {
    var texts := TierTexts(tiers);
    forall k | 0 <= k < |texts| ensures ParseTier(texts[k]) == Some(tiers[k]) {
      TierTextParses(tiers[k].0, tiers[k].1);
    }
    forall unit, count ensures policy.Tier(unit) == Some(count) <==> Sets(texts, unit, count) {
      if (unit, count) in tiers {
        var k :| 0 <= k < |tiers| && tiers[k] == (unit, count);
        assert ParseTier(texts[k]) == Some((unit, count));
      }
    }
  }

  /**
   A policy is read as it was written: the floor in its word or as a window, the tiers in any order, `*` or
   numbered, with any white space around and between them.
   */
  lemma ParseInvertsPrint(policy: RetentionPolicy, before: string, after: string, tiers: seq<(Unit, TierCount)>,
                          gaps: seq<string>, r: Result<RetentionPolicy, PolicyError>)
    requires policy.hourOfDay == 0 && policy.dayOfWeek == 0 && Blank(before) && Blank(after)
    requires Lists(tiers, policy) && |gaps| == |tiers| + 1 && Separates(gaps)
    requires ParsedAs(before + FloorText(policy.preserveMin) + after, Spaced(TierTexts(tiers), gaps), r)
    ensures r == Ok(policy)
  {
    FloorTextParses(policy.preserveMin, before, after);
    TextsAreTokens(tiers, gaps);
    TextsAreValid(tiers, policy);
    PolicyIsDetermined(TierTexts(tiers), policy, r.value);
  }

  function TierOf(policy: RetentionPolicy, unit: Unit): seq<(Unit, TierCount)> {
    match policy.Tier(unit) case None => [] case Some(count) => [(unit, count)]
  }

  /** Every policy can be written. */
  lemma EveryPolicyIsListed(policy: RetentionPolicy) returns (tiers: seq<(Unit, TierCount)>)
    ensures Lists(tiers, policy)
  {
    tiers := TierOf(policy, Hours) + TierOf(policy, Days) + TierOf(policy, Weeks) + TierOf(policy, Months)
             + TierOf(policy, Years);
  }

  /** `all` as the floor keeps everything, whatever the schedule says. */
  lemma AllDeletesNothing<T>(before: string, after: string, preserve: string,
                             r: Result<RetentionPolicy, PolicyError>, es: seq<DatedEntry<T>>, now: DateTime)
    requires Blank(before) && Blank(after) && ParsedAs(before + "all" + after, preserve, r) && r.Ok?
    requires ValidEntries(es) && Valid(now)
    ensures Verdict(es, r.value, now) == Schedule(Payloads(es), [])
  {
    FloorTextParses(KeepAll, before, after);
    AllFlagged(es, Flags(r.value, AllDeltas(es, now, r.value)));
  }

  lemma {:induction false} NoneFlagged<T>(es: seq<DatedEntry<T>>, flags: seq<bool>)
    requires |es| == |flags| && forall i :: 0 <= i < |flags| ==> !flags[i]
    ensures Select(es, flags, true) == [] && Select(es, flags, false) == Payloads(es)
  {
    if es != [] {
      NoneFlagged(es[1..], flags[1..]);
      PayloadsCons(es[0], es[1..]);
      assert es == [es[0]] + es[1..];
    }
  }

  lemma TierHasToken(tokens: seq<string>, policy: RetentionPolicy, unit: Unit)
    requires Describes(tokens, policy)
    ensures policy.Tier(unit).Some? ==> tokens != []
  {
    if policy.Tier(unit).Some? {
      assert Sets(tokens, unit, policy.Tier(unit).value);
    }
  }

  /** `no` as the floor and as the schedule keeps nothing. */
  lemma NoKeepsNothing<T>(min: string, preserve: string, r: Result<RetentionPolicy, PolicyError>,
                          es: seq<DatedEntry<T>>, now: DateTime)
    requires Trim(min) == "no" == Trim(preserve) && ParsedAs(min, preserve, r)
    requires ValidEntries(es) && Valid(now)
    ensures r.Ok? && Verdict(es, r.value, now) == Schedule([], Payloads(es))
  {
    FloorMeans(min, NoFloor);
    var policy := r.value;
    forall unit ensures policy.Tier(unit) == None {
      TierHasToken(Tokens(preserve), policy, unit);
    }
    NoneFlagged(es, Flags(policy, AllDeltas(es, now, policy)));
  }

  // ---------------------------------------------------------------------------
  // entry_policy
  // ---------------------------------------------------------------------------

  /** The per-job fields of a backup set. */
  datatype EntryFields = EntryFields(
    preserveMin: Option<string>,
    hourly: Option<nat>,
    daily: Option<nat>,
    weekly: Option<nat>,
    monthly: Option<nat>,
    yearly: Option<nat>
  ) {
    function Field(unit: Unit): Option<nat> {
      match unit
      case Hours => hourly
      case Days => daily
      case Weeks => weekly
      case Months => monthly
      case Years => yearly
    }

    predicate HasAny() {
      preserveMin.Some? || hourly.Some? || daily.Some? || weekly.Some? || monthly.Some? || yearly.Some?
    }

    /** No field is set. */
    ghost predicate Unset() {
      preserveMin == None && forall unit :: Field(unit) == None
    }

    function MinText(): string { match preserveMin case None => "all" case Some(text) => text }
  }

  const UNITS: seq<Unit> := [Hours, Days, Weeks, Months, Years]

  /** The printed tiers of the first `n` units. */
  function Printed(fields: EntryFields, n: nat): (r: seq<string>)
    requires n <= 5
  {
    if n == 0 then []
    else Printed(fields, n - 1) + PrintedOne(fields, UNITS[n - 1])
  }

  function PrintedOne(fields: EntryFields, unit: Unit): seq<string> {
    match fields.Field(unit) case None => [] case Some(count) => [Token(count, unit)]
  }

  function UnitIndex(unit: Unit): (i: nat)
    ensures i < 5 && UNITS[i] == unit
  {
    match unit
    case Hours => 0
    case Days => 1
    case Weeks => 2
    case Months => 3
    case Years => 4
  }

  /** The printed tokens are words that begin with a digit. */
  lemma {:induction false} PrintedWords(fields: EntryFields, n: nat)
    requires n <= 5
    ensures forall k :: 0 <= k < |Printed(fields, n)| ==>
      IsWord(Printed(fields, n)[k]) && IsDigit(Printed(fields, n)[k][0])
  {
    if n > 0 {
      PrintedWords(fields, n - 1);
      if fields.Field(UNITS[n - 1]).Some? {
        TokenSplits(fields.Field(UNITS[n - 1]).value, UNITS[n - 1]);
      }
    }
  }

  /** Each belongs to a field that is set. */
  lemma {:induction false} PrintedBelong(fields: EntryFields, n: nat, token: string)
    requires n <= 5 && token in Printed(fields, n)
    ensures BelongsTo(fields, n, token)
  {
    if token in Printed(fields, n - 1) {
      PrintedBelong(fields, n - 1, token);
    } else {
      assert IsToken(fields, UNITS[n - 1], token);
    }
  }

  /** Each field that is set has one. */
  lemma {:induction false} PrintedHas(fields: EntryFields, n: nat, i: nat)
    requires i < n <= 5 && fields.Field(UNITS[i]).Some?
    ensures Token(fields.Field(UNITS[i]).value, UNITS[i]) in Printed(fields, n)
  {
    if i < n - 1 {
      PrintedHas(fields, n - 1, i);
    }
  }

  /** No two name the same unit. */
  lemma {:induction false} PrintedApart(fields: EntryFields, n: nat)
    requires n <= 5
    ensures forall j, k :: 0 <= j < k < |Printed(fields, n)| ==> !Clash(Printed(fields, n)[j], Printed(fields, n)[k])
  {
    if n > 0 {
      PrintedApart(fields, n - 1);
      var front, last := Printed(fields, n - 1), PrintedOne(fields, UNITS[n - 1]);
      if last != [] {
        forall j | 0 <= j < |front| ensures !Clash(front[j], last[0]) {
          ApartFromLast(fields, n, front[j]);
        }
      }
    }
  }

  lemma ApartFromLast(fields: EntryFields, n: nat, token: string)
    requires 0 < n <= 5 && token in Printed(fields, n - 1) && fields.Field(UNITS[n - 1]).Some?
    ensures !Clash(token, PrintedOne(fields, UNITS[n - 1])[0])
  {
    PrintedBelong(fields, n - 1, token);
    var i :| 0 <= i < n - 1 && IsToken(fields, UNITS[i], token);
    OtherUnit(fields, UNITS[i], UNITS[n - 1], token, PrintedOne(fields, UNITS[n - 1])[0]);
  }

  /** The token is one of the first `n` units'. */
  predicate BelongsTo(fields: EntryFields, n: nat, token: string)
    requires n <= 5
  {
    exists i :: 0 <= i < n && IsToken(fields, UNITS[i], token)
  }

  predicate IsToken(fields: EntryFields, unit: Unit, token: string) {
    fields.Field(unit).Some? && token == Token(fields.Field(unit).value, unit)
  }

  lemma OtherUnit(fields: EntryFields, u: Unit, v: Unit, a: string, b: string)
    requires u != v && IsToken(fields, u, a) && IsToken(fields, v, b)
    ensures !Clash(a, b)
  {
    TokenRoundTrip(fields.Field(u).value, u);
    TokenRoundTrip(fields.Field(v).value, v);
  }

  /** Every count that is set can be stored. */
  predicate Fits(fields: EntryFields) {
    forall unit :: fields.Field(unit).Some? ==> fields.Field(unit).value <= U32_MAX
  }

  /** The printed schedule is read as the tokens it was printed from. */
  lemma PrintedIsRead(fields: EntryFields)
    ensures Tokens(Join(Printed(fields, 5))) == Printed(fields, 5)
  {
    PrintedWords(fields, 5);
    var tokens := Printed(fields, 5);
    if tokens != [] {
      JoinIsTrimmed(tokens);
      WordsOfJoin(tokens);
      assert IsDigit(Join(tokens)[0]) && !IsDigit("no"[0]);
    }
  }

  /** Its tokens are valid exactly when every count fits. */
  lemma PrintedIsValid(fields: EntryFields)
    ensures ValidTokens(Printed(fields, 5)) <==> Fits(fields)
  {
    PrintedApart(fields, 5);
    var tokens := Printed(fields, 5);
    if Fits(fields) {
      forall k | 0 <= k < |tokens| ensures ParseTier(tokens[k]).Some? {
        PrintedBelong(fields, 5, tokens[k]);
        var i :| 0 <= i < 5 && IsToken(fields, UNITS[i], tokens[k]);
        TokenRoundTrip(fields.Field(UNITS[i]).value, UNITS[i]);
      }
    }
    if ValidTokens(tokens) {
      forall unit | fields.Field(unit).Some? ensures fields.Field(unit).value <= U32_MAX {
        TokenRoundTrip(fields.Field(unit).value, unit);
        PrintedHas(fields, 5, UnitIndex(unit));
      }
    }
  }

  /** They set exactly the fields. */
  lemma PrintedSays(fields: EntryFields, policy: RetentionPolicy)
    requires Fits(fields) && Describes(Printed(fields, 5), policy)
    ensures forall unit ::
      policy.Tier(unit) == match fields.Field(unit) case None => None case Some(n) => Some(Count(n))
  {
    var tokens := Printed(fields, 5);
    forall unit
      ensures policy.Tier(unit) == match fields.Field(unit) case None => None case Some(n) => Some(Count(n))
    {
      if fields.Field(unit).Some? {
        var n := fields.Field(unit).value;
        TokenRoundTrip(n, unit);
        PrintedHas(fields, 5, UnitIndex(unit));
        var k :| 0 <= k < |tokens| && tokens[k] == Token(n, unit);
        assert Sets(tokens, unit, Count(n));
      } else if policy.Tier(unit).Some? {
        assert Sets(tokens, unit, policy.Tier(unit).value);
        var k :| 0 <= k < |tokens| && ParseTier(tokens[k]) == Some((unit, policy.Tier(unit).value));
        PrintedBelong(fields, 5, tokens[k]);
        var i :| 0 <= i < 5 && IsToken(fields, UNITS[i], tokens[k]);
        TokenRoundTrip(fields.Field(UNITS[i]).value, UNITS[i]);
      }
    }
  }

  lemma UnsetMeans(fields: EntryFields)
    ensures fields.HasAny() <==> !fields.Unset()
  {
    assert fields.Field(Hours) == fields.hourly && fields.Field(Days) == fields.daily;
    assert fields.Field(Weeks) == fields.weekly && fields.Field(Months) == fields.monthly;
    assert fields.Field(Years) == fields.yearly;
  }

  lemma UnsetFloor(fields: EntryFields)
    ensures fields.preserveMin.None? ==> ParseMin(fields.MinText()) == Some(KeepAll)
    ensures fields.preserveMin.Some? ==> fields.MinText() == fields.preserveMin.value
  {
    FloorTextParses(KeepAll, "", "");
    assert "" + "all" + "" == "all";
  }

  /**
   `entry_policy`: print the set counts and parse the text. What comes back has exactly those counts, or
   an error because one does not fit or the floor is malformed; with nothing set, the fallback.
   */
  method EntryPolicy(fields: EntryFields, fallback: RetentionPolicy) returns (r: Result<RetentionPolicy, PolicyError>)
    ensures fields.Unset() ==> r == Ok(fallback)
    ensures !fields.Unset() ==>
      (r.Ok? <==> (fields.preserveMin.Some? ==> ParseMin(fields.preserveMin.value).Some?) && Fits(fields))
    ensures !fields.Unset() && r.Ok? ==>
      && r.value.hourOfDay == 0 && r.value.dayOfWeek == 0
      && (if fields.preserveMin.None? then r.value.preserveMin == KeepAll
          else Some(r.value.preserveMin) == ParseMin(fields.preserveMin.value))
      && forall unit :: r.value.Tier(unit) == match fields.Field(unit) case None => None case Some(n) => Some(Count(n))
  {
    UnsetMeans(fields);
    if !fields.HasAny() {
      return Ok(fallback);
    }
    var tiers: seq<string> := [];
    if fields.hourly.Some? {
      tiers := tiers + [Token(fields.hourly.value, Hours)];
    }
    assert tiers == Printed(fields, 1);
    if fields.daily.Some? {
      tiers := tiers + [Token(fields.daily.value, Days)];
    }
    assert tiers == Printed(fields, 2);
    if fields.weekly.Some? {
      tiers := tiers + [Token(fields.weekly.value, Weeks)];
    }
    assert tiers == Printed(fields, 3);
    if fields.monthly.Some? {
      tiers := tiers + [Token(fields.monthly.value, Months)];
    }
    assert tiers == Printed(fields, 4);
    if fields.yearly.Some? {
      tiers := tiers + [Token(fields.yearly.value, Years)];
    }
    assert tiers == Printed(fields, 5);
    PrintedIsRead(fields);
    PrintedIsValid(fields);
    UnsetFloor(fields);
    r := Parse(fields.MinText(), Join(tiers));
    if r.Ok? {
      PrintedSays(fields, r.value);
    }
  }
}
