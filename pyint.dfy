/** `str(n)` on Python integers: the decimal form with a leading `-` for
    negative values, no leading zeros and no `+`. `ParseInt` reads such a
    string back and serves as the inverse that pins the rendering down. */
module PyInt {

  function DigitChar(d: nat): (c: char)
    requires d < 10
    ensures '0' <= c <= '9'
  {
    ('0' as int + d) as char
  }

  function DigitValue(c: char): (d: nat)
    requires '0' <= c <= '9'
    ensures d < 10
  {
    c as int - '0' as int
  }

  predicate IsDigits(s: string) {
    forall i :: 0 <= i < |s| ==> '0' <= s[i] <= '9'
  }

  /** The decimal digits of `n`, most significant first. */
  function NatToString(n: nat): (s: string)
    ensures |s| >= 1 && IsDigits(s)
    ensures |s| > 1 ==> s[0] != '0'
    ensures s[0] == '0' <==> n == 0
    decreases n
  {
    if n < 10 then [DigitChar(n)]
    else NatToString(n / 10) + [DigitChar(n % 10)]
  }

  /** The strings `str` produces for ints: digits, optionally after a minus sign. */
  predicate IsNumeral(s: string) {
    |s| >= 1 && (IsDigits(s) || (s[0] == '-' && IsDigits(s[1..])))
  }

  /** `str(i)` for an int. */
  function IntToString(i: int): (s: string)
    ensures IsNumeral(s)
    ensures IsDigits(s) <==> i >= 0
    ensures |s| > 1 && s[0] != '-' ==> s[0] != '0'
    ensures s[0] == '-' ==> |s| >= 2 && s[1] != '0'
  {
    if i < 0 then
      var s := "-" + NatToString(-i);
      assert s[1..] == NatToString(-i);
      assert !IsDigits(s) by { assert s[0] == '-'; }
      s
    else NatToString(i)
  }

  /** The value of a non-empty digit string. */
  function ParseNat(s: string): nat
    requires IsDigits(s)
  {
    if |s| == 0 then 0
    else ParseNat(s[..|s| - 1]) * 10 + DigitValue(s[|s| - 1])
  }

  /** `int(s)` on the strings `str` produces. */
  function ParseInt(s: string): (r: int)
    requires IsNumeral(s)
  {
    if s[0] == '-' then 0 - ParseNat(s[1..]) as int else ParseNat(s)
  }

  lemma {:induction false} ParseNatToString(n: nat)
    ensures ParseNat(NatToString(n)) == n
    decreases n
  {
    if n >= 10 {
      var s := NatToString(n);
      assert s[..|s| - 1] == NatToString(n / 10);
      ParseNatToString(n / 10);
    }
  }

  /** The rendering of an int reads back as that int: `int(str(i)) == i`. */
  lemma IntToStringRoundTrip(i: int)
    ensures ParseInt(IntToString(i)) == i
  {
    var s := IntToString(i);
    if i < 0 {
      assert s[1..] == NatToString(-i);
      ParseNatToString(-i);
    } else {
      ParseNatToString(i);
    }
  }

  /** Non-negative values render with digits only and no leading zero. */
  lemma IntToStringNonNegative(i: int)
    requires i >= 0
    ensures IsDigits(IntToString(i))
    ensures |IntToString(i)| > 1 ==> IntToString(i)[0] != '0'
  {
  }
}
