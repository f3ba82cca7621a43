/** Durations in the configuration file (pkg/config/loader.go: parseDuration, formatDuration).

    A duration is a number of nanoseconds in 64 bits. It is printed in days, hours or minutes if it is
    a whole number of them, and otherwise in whole seconds. It is read in Go's own notation, a sign
    and then numbers with units, each with or without a fraction, or else as a whole number with one
    of the suffixes of the file. */
module Durations {
  import opened Decimal
  import opened Wrappers
  import opened Words

  const SECOND := 1_000_000_000
  const MINUTE := 60 * SECOND
  const HOUR := 60 * MINUTE
  const DAY := 24 * HOUR

  /** Go's integer division, which truncates toward zero. */
  function TruncDiv(a: int, b: int): int
    requires b > 0
  {
    if a >= 0 then a / b else -(-a / b)
  }

  /** Multiplication of 64-bit integers wraps around. */
  function Wrap64(x: int): (r: int)
    ensures MIN_INT64 <= r <= MAX_INT64 && (x - r) % 0x1_0000_0000_0000_0000 == 0
  {
    var m := x % 0x1_0000_0000_0000_0000;
    if m > MAX_INT64 then m - 0x1_0000_0000_0000_0000 else m
  }

  function FormatDuration(d: int): string {
    if d % DAY == 0 && d >= DAY then FormatInt(d / DAY) + "d"
    else if d % HOUR == 0 && d >= HOUR then FormatInt(d / HOUR) + "h"
    else if d % MINUTE == 0 && d >= MINUTE then FormatInt(d / MINUTE) + "m"
    else FormatInt(TruncDiv(d, SECOND)) + "s"
  }

  // ----- time.ParseDuration -------------------------------------------------------------------

  function DigitsLength(s: string): (n: nat)
    ensures n <= |s| && AllDigits(s[..n])
  {
    if s == "" || !IsDigit(s[0]) then 0 else 1 + DigitsLength(s[1..])
  }

  /** A unit runs up to the next digit or dot. */
  function UnitLength(s: string): (n: nat)
    ensures n <= |s|
  {
    if s == "" || IsDigit(s[0]) || s[0] == '.' then 0 else 1 + UnitLength(s[1..])
  }

  /** A number of a unit, in nanoseconds. */
  function InUnit(n: int, u: string): Option<int> {
    if u == "ns" then Some(n)
    else if u == "us" || u == "\U{B5}s" || u == "\U{3BC}s" then Some(n * 1_000)
    else if u == "ms" then Some(n * 1_000_000)
    else if u == "s" then Some(n * SECOND)
    else if u == "m" then Some(n * MINUTE)
    else if u == "h" then Some(n * HOUR)
    else None
  }

  function Pow10(k: nat): (r: nat)
    ensures r > 0
  {
    if k == 0 then 1 else 10 * Pow10(k - 1)
  }

  /** Whole digits and, after a dot, fraction digits of a unit; nanoseconds are rounded down. */
  function Amount(whole: string, fraction: string, u: string): Option<int>
    requires AllDigits(whole) && AllDigits(fraction)
  {
    var n, f := InUnit(NatValue(whole), u), InUnit(NatValue(fraction), u);
    if n.None? || f.None? then None else Some(n.value + f.value / Pow10(|fraction|))
  }

  /** The number of fraction digits if there is a dot. */
  function FractionLength(s: string): (k: nat)
    ensures s != "" && s[0] == '.' ==> k < |s| && AllDigits(s[1..][..k])
  {
    if s != "" && s[0] == '.' then DigitsLength(s[1..]) else 0
  }

  predicate HasDot(s: string) {
    DigitsLength(s) < |s| && s[DigitsLength(s)] == '.'
  }

  /** The digits before the dot, those after it, and where the unit starts. */
  function Whole(s: string): (w: string)
    ensures AllDigits(w)
  {
    s[..DigitsLength(s)]
  }

  function Fraction(s: string): (f: string)
    ensures AllDigits(f)
  {
    if HasDot(s) then s[DigitsLength(s)..][1..][..FractionLength(s[DigitsLength(s)..])] else ""
  }

  function NumberEnd(s: string): (p: nat)
    ensures p <= |s|
  {
    |Whole(s)| + if HasDot(s) then 1 + |Fraction(s)| else 0
  }

  function Sum(a: Option<int>, b: Option<int>): Option<int> {
    if a.None? || b.None? then None else Some(a.value + b.value)
  }

  /** A sum of numbers with units. */
  function Components(s: string): Option<int>
    decreases |s|
  {
    if s == "" then Some(0)
    else
      var p := NumberEnd(s);
      var m := UnitLength(s[p..]);
      if |Whole(s)| + |Fraction(s)| == 0 || m == 0 then None
      else Sum(Amount(Whole(s), Fraction(s), s[p..p + m]), Components(s[p + m..]))
  }

  function Unsigned(body: string): Option<int> {
    if body == "0" then Some(0) else if body == "" then None else Components(body)
  }

  /** The sign is applied last, and the result must fit 64 bits. */
  function Signed(negative: bool, v: Option<int>): Option<int> {
    if v.None? then None
    else
      var d := if negative then -v.value else v.value;
      if MIN_INT64 <= d <= MAX_INT64 then Some(d) else None
  }

  function GoParseDuration(s: string): Option<int> {
    if s != "" && s[0] == '-' then Signed(true, Unsigned(s[1..]))
    else if s != "" && s[0] == '+' then Signed(false, Unsigned(s[1..]))
    else Signed(false, Unsigned(s))
  }

  /** What is tried when Go does not know the format: an integer with one of four suffixes. */
  function ParseSuffix(s: string): Option<int> {
    if |s| < 2 then None
    else
      var suffix, value := s[|s| - 1], Atoi(s[..|s| - 1]);
      if value.None? then None
      else if suffix == 's' || suffix == 'S' then Some(Wrap64(value.value * SECOND))
      else if suffix == 'm' || suffix == 'M' then Some(Wrap64(value.value * MINUTE))
      else if suffix == 'h' || suffix == 'H' then Some(Wrap64(value.value * HOUR))
      else if suffix == 'd' || suffix == 'D' then Some(Wrap64(value.value * DAY))
      else if Atoi(s).None? then None
      else Some(Wrap64(Atoi(s).value * SECOND))
  }

  function ParseDuration(text: string): Option<int> {
    var s := TrimSpace(text);
    if s == "" then None
    else if GoParseDuration(s).Some? then GoParseDuration(s)
    else ParseSuffix(s)
  }

  // ----- the round trip -----------------------------------------------------------------------

  lemma {:induction false} DigitsStop(digits: string, rest: string)
    requires AllDigits(digits) && rest != "" && !IsDigit(rest[0])
    ensures DigitsLength(digits + rest) == |digits|
  {
    if digits == "" {
      assert digits + rest == rest;
    } else {
      assert (digits + rest)[1..] == digits[1..] + rest;
      DigitsStop(digits[1..], rest);
    }
  }

  lemma UnitAtEnd(s: string, p: nat, u: char)
    requires p < |s| && s[p..] == [u] && !IsDigit(u) && u != '.'
    ensures UnitLength(s[p..]) == 1 && s[p..p + 1] == [u] && s[p + 1..] == ""
  {
    assert [u][1..] == "";
    assert |s| == p + 1;
  }

  lemma OneLast(s: string, p: nat)
    requires s != "" && p == NumberEnd(s) < |s| && UnitLength(s[p..]) == 1 && s[p + 1..] == ""
    requires |Whole(s)| + |Fraction(s)| > 0
    ensures Components(s) == Amount(Whole(s), Fraction(s), s[p..p + 1])
  {
    assert Components(s[p + 1..]) == Some(0);
  }

  lemma WholeParts(digits: string, u: char, s: string)
    requires AllDigits(digits) && !IsDigit(u) && u != '.' && s == digits + [u]
    ensures Whole(s) == digits && Fraction(s) == "" && NumberEnd(s) == |digits| < |s|
    ensures UnitLength(s[|digits|..]) == 1 && s[|digits|..|digits| + 1] == [u] && s[|digits| + 1..] == ""
  {
    DigitsStop(digits, [u]);
    assert s[..|digits|] == digits && s[|digits|] == u && s[|digits|..] == [u];
    UnitAtEnd(s, |digits|, u);
  }

  lemma AmountOfWhole(digits: string, n: nat, u: string)
    requires AllDigits(digits) && NatValue(digits) == n
    ensures Amount(digits, "", u) == InUnit(n, u)
  {
    assert NatValue("") == 0;
  }

  lemma OneComponent(n: nat, u: char)
    requires !IsDigit(u) && u != '.'
    ensures Components(FormatNat(n) + [u]) == InUnit(n, [u])
  {
    var digits := FormatNat(n);
    NatRoundTrip(n);
    WholeParts(digits, u, digits + [u]);
    OneLast(digits + [u], |digits|);
    AmountOfWhole(digits, n, [u]);
  }

  lemma FractionParts(whole: string, fraction: string, u: char, s: string, p: nat)
    requires AllDigits(whole) && AllDigits(fraction) && !IsDigit(u) && u != '.'
    requires s == whole + ("." + (fraction + [u])) && p == |whole| + 1 + |fraction|
    ensures Whole(s) == whole && Fraction(s) == fraction && NumberEnd(s) == p < |s|
    ensures UnitLength(s[p..]) == 1 && s[p..p + 1] == [u] && s[p + 1..] == ""
  {
    var n := |whole|;
    DigitsStop(whole, "." + (fraction + [u]));
    assert s[..n] == whole && s[n] == '.' && s[n..] == "." + (fraction + [u]);
    assert s[n..][1..] == fraction + [u];
    DigitsStop(fraction, [u]);
    assert s[n..][1..][..|fraction|] == fraction;
    assert s[p..] == [u];
    UnitAtEnd(s, p, u);
  }

  lemma DigitsAreNotSpaces(s: string)
    requires AllDigits(s)
    ensures forall i :: 0 <= i < |s| ==> !IsSpace(s[i]) && s[i] != '-' && s[i] != '+'
  {
  }

  predicate IsClockUnit(u: char) {
    u == 's' || u == 'm' || u == 'h'
  }

  function Nanos(u: char): nat
    requires IsClockUnit(u)
  {
    if u == 's' then SECOND else if u == 'm' then MINUTE else HOUR
  }

  lemma InClockUnit(n: int, u: char)
    requires IsClockUnit(u)
    ensures InUnit(n, [u]) == Some(n * Nanos(u))
  {
  }

  lemma UnsignedComponent(n: nat, u: char)
    requires !IsDigit(u) && u != '.'
    ensures Unsigned(FormatNat(n) + [u]) == InUnit(n, [u])
  {
    OneComponent(n, u);
    assert |FormatNat(n) + [u]| >= 2;
  }

  lemma GoParsesSigned(negative: bool, body: string, s: string)
    requires body != "" && body[0] != '-' && body[0] != '+'
    requires s == (if negative then "-" else "") + body
    ensures GoParseDuration(s) == Signed(negative, Unsigned(body))
  {
    if negative {
      assert s[0] == '-' && s[1..] == body;
    } else {
      assert s == body;
    }
  }

  lemma GoParses(n: int, u: char)
    requires !IsDigit(u) && u != '.'
    ensures GoParseDuration(FormatInt(n) + [u]) == Signed(n < 0, InUnit(if n < 0 then -n else n, [u]))
  {
    var a := if n < 0 then -n else n;
    var digits := FormatNat(a);
    UnsignedComponent(a, u);
    DigitsAreNotSpaces(digits);
    assert FormatInt(n) + [u] == (if n < 0 then "-" else "") + (digits + [u]);
    GoParsesSigned(n < 0, digits + [u], FormatInt(n) + [u]);
  }

  /** An integer with a suffix has no space at either end. */
  lemma SuffixedIsTrimmed(n: int, u: char)
    requires IsClockUnit(u) || u == 'd'
    ensures TrimSpace(FormatInt(n) + [u]) == FormatInt(n) + [u]
  {
    DigitsAreNotSpaces(FormatNat(if n < 0 then -n else n));
    TrimmedAlready(FormatInt(n) + [u]);
  }

  lemma SignedAmount(n: int, unit: nat, a: nat)
    requires a == if n < 0 then -n else n
    requires MIN_INT64 <= n * unit <= MAX_INT64
    ensures Signed(n < 0, Some(a * unit)) == Some(n * unit)
  {
    assert n < 0 ==> a * unit == -(n * unit);
  }

  /** What the parser makes of an integer with a suffix Go knows. */
  lemma ParseSuffixed(n: int, u: char)
    requires IsClockUnit(u) && MIN_INT64 <= n * Nanos(u) <= MAX_INT64
    ensures ParseDuration(FormatInt(n) + [u]) == Some(n * Nanos(u))
  {
    var a := if n < 0 then -n else n;
    SuffixedIsTrimmed(n, u);
    GoParses(n, u);
    InClockUnit(a, u);
    SignedAmount(n, Nanos(u), a);
    assert |FormatInt(n) + [u]| > 0;
  }

  lemma ParseDays(n: nat)
    requires n * DAY <= MAX_INT64
    ensures ParseDuration(FormatInt(n) + "d") == Some(n * DAY)
  {
    hide Components, GoParseDuration;
    var s := FormatNat(n) + "d";
    SuffixedIsTrimmed(n, 'd');
    GoParses(n, 'd');
    assert s[..|s| - 1] == FormatNat(n) && s[|s| - 1] == 'd';
    AtoiRoundTrip(n);
  }

  lemma TruncatedSeconds(d: int)
    ensures var q := TruncDiv(d, SECOND);
            && (q * SECOND == d <==> d % SECOND == 0)
            && (0 <= q * SECOND <= d || d <= q * SECOND <= 0)
  {
  }

  /** The whole seconds of a duration, toward zero. */
  function Truncated(d: int): int {
    TruncDiv(d, SECOND) * SECOND
  }

  lemma WholeIsTruncated(d: int, k: int)
    requires d == k * SECOND
    ensures Truncated(d) == d
  {
  }

  /** Formatting and parsing a 64-bit duration drops the fraction of a second, and nothing else. */
  lemma DurationTruncates(d: int)
    requires MIN_INT64 <= d <= MAX_INT64
    ensures ParseDuration(FormatDuration(d)) == Some(Truncated(d))
  {
    if d % DAY == 0 && d >= DAY {
      var k := d / DAY;
      assert d == k * DAY;
      WholeIsTruncated(d, k * 86400);
      ParseDays(k);
    } else if d % HOUR == 0 && d >= HOUR {
      var k := d / HOUR;
      assert d == k * HOUR;
      WholeIsTruncated(d, k * 3600);
      ParseSuffixed(k, 'h');
    } else if d % MINUTE == 0 && d >= MINUTE {
      var k := d / MINUTE;
      assert d == k * MINUTE;
      WholeIsTruncated(d, k * 60);
      ParseSuffixed(k, 'm');
    } else {
      TruncatedSeconds(d);
      ParseSuffixed(TruncDiv(d, SECOND), 's');
    }
  }

  /** So a duration comes back exactly when it is a whole number of seconds, negative ones
      included. */
  lemma DurationRoundTripIff(d: int)
    requires MIN_INT64 <= d <= MAX_INT64
    ensures ParseDuration(FormatDuration(d)) == Some(d) <==> d % SECOND == 0
  {
    DurationTruncates(d);
    TruncatedSeconds(d);
  }

  // ----- fractions ----------------------------------------------------------------------------

  lemma AmountIs(whole: string, fraction: string, u: char, v: nat)
    requires AllDigits(whole) && AllDigits(fraction) && IsClockUnit(u)
    requires v == NatValue(whole) * Nanos(u) + NatValue(fraction) * Nanos(u) / Pow10(|fraction|)
    ensures Amount(whole, fraction, [u]) == Some(v)
  {
    InClockUnit(NatValue(whole), u);
    InClockUnit(NatValue(fraction), u);
  }

  lemma UnsignedFraction(whole: string, fraction: string, u: char, body: string, v: nat)
    requires AllDigits(whole) && AllDigits(fraction) && |whole| + |fraction| > 0 && IsClockUnit(u)
    requires body == whole + ("." + (fraction + [u]))
    requires v == NatValue(whole) * Nanos(u) + NatValue(fraction) * Nanos(u) / Pow10(|fraction|)
    ensures Unsigned(body) == Some(v) && body[0] == if whole == "" then '.' else whole[0]
  {
    var p := |whole| + 1 + |fraction|;
    FractionParts(whole, fraction, u, body, p);
    OneLast(body, p);
    AmountIs(whole, fraction, u, v);
    assert |body| >= 2;
  }

  /** Go knows the format, so the suffix form is tried only when the value does not fit, and then it
      fails on the dot. */
  lemma FractionHasNoSuffixForm(sign: string, whole: string, fraction: string, u: char, s: string)
    requires sign == "" || sign == "-"
    requires AllDigits(whole) && AllDigits(fraction) && IsClockUnit(u)
    requires s == sign + (whole + ("." + (fraction + [u])))
    ensures ParseSuffix(s) == None && TrimSpace(s) == s && s != ""
  {
    var number := s[..|s| - 1];
    var at := |sign| + |whole|;
    assert s[|s| - 1] == u && s[at] == '.';
    DigitsAreNotSpaces(whole);
    assert whole != "" ==> s[|sign|] == whole[0];
    TrimmedAlready(s);
    assert number[at] == '.';
    var digits := if number[0] == '-' || number[0] == '+' then number[1..] else number;
    assert digits[if sign == "" then at else at - 1] == '.';
  }

  /** A number with a dot is its whole units and the fraction of a unit in nanoseconds, rounded down,
      if that fits 64 bits, and is refused otherwise; a minus sign negates it. */
  lemma FractionReads(negative: bool, whole: string, fraction: string, u: char, v: nat)
    requires AllDigits(whole) && AllDigits(fraction) && |whole| + |fraction| > 0 && IsClockUnit(u)
    requires v == NatValue(whole) * Nanos(u) + NatValue(fraction) * Nanos(u) / Pow10(|fraction|)
    ensures ParseDuration((if negative then "-" else "") + (whole + ("." + (fraction + [u]))))
         == Signed(negative, Some(v))
  {
    var sign, body := if negative then "-" else "", whole + ("." + (fraction + [u]));
    var s := sign + body;
    UnsignedFraction(whole, fraction, u, body, v);
    FractionHasNoSuffixForm(sign, whole, fraction, u, s);
    DigitsAreNotSpaces(whole);
    GoParsesSigned(negative, body, s);
  }
}
