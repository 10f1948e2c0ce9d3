/** Decimal text of Rust's `usize`: the `Display` form written by `{}` and the
    `str::parse::<usize>` reading of it. A 64-bit target is assumed. */
module Decimal {
  import opened Wrappers

  /** Largest value of `usize` on a 64-bit target. */
  const USIZE_MAX: nat := 0xFFFF_FFFF_FFFF_FFFF

  predicate IsDigit(c: char) {
    '0' <= c <= '9'
  }

  predicate AllDigits(s: string) {
    forall i :: 0 <= i < |s| ==> IsDigit(s[i])
  }

  function DigitChar(d: nat): (c: char)
    requires d < 10
    ensures IsDigit(c) && c as int - '0' as int == d
  {
    ('0' as int + d) as char
  }

  /** The number a string of decimal digits denotes, most significant digit first. */
  function ValueOf(s: string): nat
    requires AllDigits(s)
  {
    if s == [] then 0 else ValueOf(s[..|s| - 1]) * 10 + (s[|s| - 1] as int - '0' as int)
  }

  /** `format!("{}", n)`: the shortest decimal form of `n`. */
  function ToDecimal(n: nat): (s: string)
    ensures |s| >= 1 && AllDigits(s)
    ensures ValueOf(s) == n
    ensures s[0] == '0' <==> n == 0
    decreases n
  {
    if n < 10 then [DigitChar(n)]
    else
      var s := ToDecimal(n / 10) + [DigitChar(n % 10)];
      assert s[..|s| - 1] == ToDecimal(n / 10);
      s
  }

  /** `str::parse::<usize>`: an optional leading `+`, then one or more decimal
      digits (leading zeros allowed) whose value fits in a `usize`. An empty
      string, a lone `+`, a `-` sign, any other character and an overflowing
      value are all errors. */
  function ParseUsize(s: string): (r: Option<nat>)
    ensures r.Some? ==> r.value <= USIZE_MAX
    ensures r.Some? ==> |s| >= 1 && (IsDigit(s[0]) || (s[0] == '+' && |s| >= 2))
  {
    var digits := if |s| > 0 && s[0] == '+' then s[1..] else s;
    if digits != [] && AllDigits(digits) && ValueOf(digits) <= USIZE_MAX then
      Some(ValueOf(digits))
    else
      None
  }

  /** Parsing what `Display` printed gives the number back. */
  lemma ParseDisplayRoundTrip(n: nat)
    requires n <= USIZE_MAX
    ensures ParseUsize(ToDecimal(n)) == Some(n)
  {
    var s := ToDecimal(n);
    assert s[0] != '+';
  }

  /** Leading zeros are accepted, and an explicit `+` sign. */
  lemma ParseAcceptsPaddingAndPlus(n: nat, zeros: nat)
    requires n <= USIZE_MAX
    ensures ParseUsize(seq(zeros, _ => '0') + ToDecimal(n)) == Some(n)
    ensures ParseUsize("+" + ToDecimal(n)) == Some(n)
  {
    ZerosPrefixValue(zeros, ToDecimal(n));
    var s := seq(zeros, _ => '0') + ToDecimal(n);
    assert s[0] != '+';
    assert ("+" + ToDecimal(n))[1..] == ToDecimal(n);
  }

  /** Zeros in front do not change the value of a digit string. */
  lemma {:induction false} ZerosPrefixValue(zeros: nat, s: string)
    requires AllDigits(s)
    ensures AllDigits(seq(zeros, _ => '0') + s)
    ensures ValueOf(seq(zeros, _ => '0') + s) == ValueOf(s)
    decreases |s|
  {
    var t := seq(zeros, _ => '0') + s;
    if s == [] {
      assert t == seq(zeros, _ => '0');
      AllZerosValue(zeros);
    } else {
      ZerosPrefixValue(zeros, s[..|s| - 1]);
      assert t[..|t| - 1] == seq(zeros, _ => '0') + s[..|s| - 1];
    }
  }

  lemma {:induction false} AllZerosValue(zeros: nat)
    ensures AllDigits(seq(zeros, _ => '0'))
    ensures ValueOf(seq(zeros, _ => '0')) == 0
  {
    if zeros > 0 {
      AllZerosValue(zeros - 1);
      assert seq(zeros, _ => '0')[..zeros - 1] == seq(zeros - 1, _ => '0');
    }
  }

  /** A value beyond `usize` is rejected even though every character is a digit. */
  lemma ParseRejectsOverflow()
    ensures ParseUsize(ToDecimal(USIZE_MAX + 1)) == None
  {
    var s := ToDecimal(USIZE_MAX + 1);
    assert s[0] != '+';
  }
}
