/** Decimal numerals: the digit strings `strconv` reads and writes. */
module Decimal {

  predicate IsDigit(c: char) { '0' <= c <= '9' }

  predicate AllDigits(s: string) {
    forall i :: 0 <= i < |s| ==> IsDigit(s[i])
  }

  function DigitValue(c: char): (d: nat)
    requires IsDigit(c)
    ensures d <= 9
  {
    c as int - '0' as int
  }

  /** The number a digit string denotes, most significant digit first. */
  function Value(s: string): nat
    requires AllDigits(s)
  {
    if s == "" then 0 else 10 * Value(s[..|s| - 1]) + DigitValue(s[|s| - 1])
  }

  /** A numeral without leading zeros, as `FormatUint` writes it. */
  predicate Canonical(s: string) {
    s != "" && AllDigits(s) && (|s| > 1 ==> s[0] != '0')
  }

  function DigitChar(d: nat): (c: char)
    requires d <= 9
    ensures IsDigit(c) && DigitValue(c) == d
  {
    (d + '0' as int) as char
  }

  function Format(n: nat): (s: string)
    ensures Canonical(s)
    ensures Value(s) == n
    ensures n > 0 ==> s[0] != '0'
  {
    if n < 10 then
      var s := [DigitChar(n)];
      assert s[..0] == "";
      s
    else
      var h := Format(n / 10);
      var s := h + [DigitChar(n % 10)];
      assert s[..|s| - 1] == h;
      s
  }

  lemma {:induction false} LeadingDigitCounts(s: string)
    requires s != "" && AllDigits(s) && s[0] != '0'
    ensures Value(s) >= 1
  {
    if |s| > 1 {
      LeadingDigitCounts(s[..|s| - 1]);
    }
  }

  /** Two canonical numerals denote the same number only when they are the same text. */
  lemma {:induction false} CanonicalInjective(s: string, t: string)
    requires Canonical(s) && Canonical(t) && Value(s) == Value(t)
    ensures s == t
    decreases |s|
  {
    if |s| > 1 {
      LeadingDigitCounts(s[..|s| - 1]);
    }
    if |t| > 1 {
      LeadingDigitCounts(t[..|t| - 1]);
    }
    if |s| == 1 && |t| == 1 {
      assert s[..0] == "" && t[..0] == "";
      assert s == [s[0]] && t == [t[0]];
    } else if |s| > 1 && |t| > 1 {
      assert Value(s[..|s| - 1]) == Value(t[..|t| - 1]);
      CanonicalInjective(s[..|s| - 1], t[..|t| - 1]);
      assert s == s[..|s| - 1] + [s[|s| - 1]];
      assert t == t[..|t| - 1] + [t[|t| - 1]];
    }
  }

  const TWO64: nat := 0x1_0000_0000_0000_0000

  datatype Parsed = Number(n: nat) | Syntax | Range

  /** `strconv.ParseUint(s, 10, 64)`: only digits, at least one, below 2^64. */
  function ParseUint(s: string): Parsed {
    if s == "" || !AllDigits(s) then Syntax
    else if Value(s) < TWO64 then Number(Value(s))
    else Range
  }

  /** The value `ParseUint` hands back when its error is ignored: the largest 64-bit number
      on overflow and zero on a syntax error. */
  function ParseUintIgnoringError(s: string): (n: nat)
    ensures n < TWO64
  {
    match ParseUint(s)
    case Number(n) => n
    case Range => TWO64 - 1
    case Syntax => 0
  }

  /** Writing a 64-bit number and reading it back. */
  lemma ParseFormat(n: nat)
    requires n < TWO64
    ensures ParseUint(Format(n)) == Number(n)
  {
  }
}
