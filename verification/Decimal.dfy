/** Decimal numbers as Rust prints (`{n}`) and parses (`str::parse::<u32>`) them. */
module Decimal {
  import opened Wrappers

  predicate IsDigit(c: char) { '0' <= c <= '9' }

  predicate AllDigits(s: string) { forall i :: 0 <= i < |s| ==> IsDigit(s[i]) }

  function Digit(n: nat): (c: char)
    requires n < 10
    ensures IsDigit(c) && DigitValue(c) == n
  {
    '0' + n as char
  }

  function DigitValue(c: char): nat
    requires IsDigit(c)
  {
    c as int - '0' as int
  }

  function Print(n: nat): (s: string)
    ensures s != [] && AllDigits(s)
  {
    if n < 10 then [Digit(n)] else Print(n / 10) + [Digit(n % 10)]
  }

  /** Zero-padded to `width` digits; higher digits are cut off. */
  function Padded(n: nat, width: nat): (s: string)
    ensures |s| == width && AllDigits(s)
  {
    if width == 0 then [] else Padded(n / 10, width - 1) + [Digit(n % 10)]
  }

  function Value(s: string): nat
    requires AllDigits(s)
  {
    if s == [] then 0 else Value(s[..|s| - 1]) * 10 + DigitValue(s[|s| - 1])
  }

  function Pow10(k: nat): (p: nat)
    ensures p > 0
  {
    if k == 0 then 1 else 10 * Pow10(k - 1)
  }

  lemma {:induction false} ValueOfPrint(n: nat)
    ensures Value(Print(n)) == n
  {
    if n >= 10 {
      ValueOfPrint(n / 10);
      assert Print(n)[..|Print(n)| - 1] == Print(n / 10);
    }
  }

  lemma {:induction false} ValueOfPadded(n: nat, width: nat)
    requires n < Pow10(width)
    ensures Value(Padded(n, width)) == n
  {
    if width > 0 {
      ValueOfPadded(n / 10, width - 1);
      assert Padded(n, width)[..width - 1] == Padded(n / 10, width - 1);
    }
  }

  /** Different numbers print differently. */
  lemma PrintInjective(a: nat, b: nat)
    requires Print(a) == Print(b)
    ensures a == b
  {
    ValueOfPrint(a);
    ValueOfPrint(b);
  }

  /** `parse::<u32>()`: an optional `+`, at least one digit, and a value in range. */
  function ParseU32(s: string): (r: Option<u32>)
  {
    var digits := if |s| > 1 && s[0] == '+' then s[1..] else s;
    if digits == [] || !AllDigits(digits) || Value(digits) > U32_MAX then None else Some(Value(digits))
  }

  /** An optional `+` and at least one digit, with this value. */
  predicate Numeral(s: string, n: nat) {
    || (s != [] && AllDigits(s) && Value(s) == n)
    || (|s| > 1 && s[0] == '+' && AllDigits(s[1..]) && Value(s[1..]) == n)
  }

  /** What is parsed are the numerals that fit, leading zeros and a plus sign included. */
  lemma ParsesNumerals(s: string, n: u32)
    ensures ParseU32(s) == Some(n) <==> Numeral(s, n)
  {
    if |s| > 1 && s[0] == '+' {
      assert !IsDigit(s[0]);
    }
  }

  /** Parsing a printed number gives the number back exactly when it fits. */
  lemma ParsePrinted(n: nat)
    ensures ParseU32(Print(n)) == if n <= U32_MAX then Some(n) else None
  {
    ValueOfPrint(n);
    assert IsDigit(Print(n)[0]);
  }
}
