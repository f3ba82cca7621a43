/** Decimal numerals as Go's `%d` prints them and `strconv.Atoi` reads them.

    A numeral is printed without leading zeros and with a sign only below zero; it may be read with
    leading zeros and with either sign, and is refused if it does not fit 64 bits. */
module Decimal {
  import opened Wrappers

  const MAX_INT64 := 0x7FFF_FFFF_FFFF_FFFF
  const MIN_INT64 := -0x8000_0000_0000_0000

  predicate IsDigit(c: char) {
    '0' <= c <= '9'
  }

  function DigitValue(c: char): (v: nat)
    requires IsDigit(c)
    ensures v < 10
  {
    c as int - '0' as int
  }

  function Digit(v: nat): (c: char)
    requires v < 10
    ensures IsDigit(c) && DigitValue(c) == v
  {
    ('0' as int + v) as char
  }

  predicate AllDigits(s: string) {
    forall i :: 0 <= i < |s| ==> IsDigit(s[i])
  }

  function FormatNat(n: nat): (s: string)
    ensures |s| > 0 && AllDigits(s)
  {
    if n < 10 then [Digit(n)] else FormatNat(n / 10) + [Digit(n % 10)]
  }

  function NatValue(s: string): nat
    requires AllDigits(s)
  {
    if s == [] then 0 else NatValue(s[..|s| - 1]) * 10 + DigitValue(s[|s| - 1])
  }

  lemma {:induction false} NatRoundTrip(n: nat)
    ensures NatValue(FormatNat(n)) == n
  {
    var s := FormatNat(n);
    if n < 10 {
      assert s[..|s| - 1] == [];
      assert NatValue([]) == 0;
    } else {
      NatRoundTrip(n / 10);
      assert s[..|s| - 1] == FormatNat(n / 10);
    }
  }

  lemma FormatNatInjective(m: nat, n: nat)
    ensures FormatNat(m) == FormatNat(n) <==> m == n
  {
    NatRoundTrip(m);
    NatRoundTrip(n);
  }

  function FormatInt(n: int): (s: string) {
    if n < 0 then "-" + FormatNat(-n) else FormatNat(n)
  }

  /** `strconv.Atoi` and `strconv.ParseInt(s, 10, 64)`: an optional sign, digits, 64-bit range. */
  function Atoi(s: string): Option<int> {
    var signed := s != "" && (s[0] == '-' || s[0] == '+');
    var digits := if signed then s[1..] else s;
    if digits == "" || !AllDigits(digits) then None
    else
      var n: int := if signed && s[0] == '-' then -(NatValue(digits) as int) else NatValue(digits);
      if MIN_INT64 <= n <= MAX_INT64 then Some(n) else None
  }

  lemma AtoiRoundTrip(n: int)
    requires MIN_INT64 <= n <= MAX_INT64
    ensures Atoi(FormatInt(n)) == Some(n)
  {
    NatRoundTrip(if n < 0 then -n else n);
    if n < 0 {
      assert FormatInt(n)[1..] == FormatNat(-n);
    }
  }

  /** A plus sign is allowed, a sign alone is not a number, and neither is one that does not fit. */
  lemma AtoiSigns(n: int)
    requires n >= 0
    ensures Atoi("+" + FormatNat(n)) == if n <= MAX_INT64 then Some(n) else None
    ensures Atoi("-" + FormatNat(n)) == if -n >= MIN_INT64 then Some(-n) else None
    ensures Atoi("") == Atoi("-") == Atoi("+") == None
  {
    NatRoundTrip(n);
    assert ("+" + FormatNat(n))[1..] == FormatNat(n) && ("-" + FormatNat(n))[1..] == FormatNat(n);
  }
}
