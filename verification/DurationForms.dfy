/** The forms in which a duration may be written (pkg/config/loader.go: parseDuration).

    A number may have one of the suffixes s, m, h and d in either letter case, or none, and a sum of
    numbers may have Go's units. What each form stands for is stated in nanoseconds. */
module DurationForms {
  import opened Decimal
  import opened Wrappers
  import opened Words
  import opened Durations

  // ----- numbers with units -------------------------------------------------------------------

  /** Go's units; a microsecond is spelled with a u, a micro sign or a Greek mu. */
  datatype Unit = Nano | Micro | MicroSign | Mu | Milli | Second | Minute | Hour

  function Text(u: Unit): string {
    match u
    case Nano => "ns"
    case Micro => "us"
    case MicroSign => "\U{B5}s"
    case Mu => "\U{3BC}s"
    case Milli => "ms"
    case Second => "s"
    case Minute => "m"
    case Hour => "h"
  }

  /** Its nanoseconds. */
  function Scale(u: Unit): nat {
    match u
    case Nano => 1
    case Micro | MicroSign | Mu => 1_000
    case Milli => 1_000_000
    case Second => 1_000_000_000
    case Minute => 60_000_000_000
    case Hour => 3_600_000_000_000
  }

  datatype Part = Part(n: nat, unit: Unit)

  /** The parts one after the other. */
  function Spelled(parts: seq<Part>): string {
    if parts == [] then "" else FormatNat(parts[0].n) + (Text(parts[0].unit) + Spelled(parts[1..]))
  }

  /** The nanoseconds they add up to. */
  function Total(parts: seq<Part>): nat {
    if parts == [] then 0 else parts[0].n * Scale(parts[0].unit) + Total(parts[1..])
  }

  predicate IsUnitText(u: string) {
    u != "" && forall i :: 0 <= i < |u| ==> !IsDigit(u[i]) && u[i] != '.' && !IsSpace(u[i])
  }

  lemma {:induction false} UnitStops(u: string, rest: string)
    requires forall i :: 0 <= i < |u| ==> !IsDigit(u[i]) && u[i] != '.'
    requires rest == "" || IsDigit(rest[0])
    ensures UnitLength(u + rest) == |u|
  {
    if u == "" {
      assert u + rest == rest;
    } else {
      assert (u + rest)[1..] == u[1..] + rest;
      UnitStops(u[1..], rest);
    }
  }

  lemma TextIsUnit(u: Unit, n: nat)
    ensures IsUnitText(Text(u)) && InUnit(n, Text(u)) == Some(n * Scale(u))
  {
  }

  lemma NumberStops(digits: string, u: string, rest: string, s: string)
    requires AllDigits(digits) && IsUnitText(u) && s == digits + (u + rest)
    ensures Whole(s) == digits && Fraction(s) == "" && NumberEnd(s) == |digits| < |s| && s[|digits|..] == u + rest
  {
    DigitsStop(digits, u + rest);
    assert s[|digits|] == u[0] && s[..|digits|] == digits;
  }

  lemma NumberThenUnit(digits: string, u: string, rest: string, s: string, n: nat, m: nat)
    requires digits != "" && Whole(s) == digits && Fraction(s) == "" && NumberEnd(s) == n <= |s|
    requires 0 < m == UnitLength(s[n..]) && s[n..n + m] == u && s[n + m..] == rest
    ensures Components(s) == Sum(Amount(digits, "", u), Components(rest))
  {
    hide Whole, Fraction, NumberEnd, UnitLength, Amount;
    assert s != "";
  }

  /** The first number of a sum is read off with its unit. */
  lemma FirstPart(digits: string, u: string, rest: string, s: string)
    requires AllDigits(digits) && digits != "" && IsUnitText(u) && (rest == "" || IsDigit(rest[0]))
    requires s == digits + (u + rest)
    ensures Components(s) == Sum(Amount(digits, "", u), Components(rest))
  {
    hide Components;
    var n := |digits|;
    NumberStops(digits, u, rest, s);
    UnitStops(u, rest);
    assert s[n..n + |u|] == u && s[n + |u|..] == rest;
    NumberThenUnit(digits, u, rest, s, n, |u|);
  }

  /** The string is a sum of so many nanoseconds. */
  ghost predicate AddsUpTo(s: string, v: int) {
    Components(s) == Some(v)
  }

  /** The first number of s comes to x, and the rest follows it. */
  ghost predicate Leads(s: string, x: int, rest: string) {
    Components(s) == Sum(Some(x), Components(rest))
  }

  lemma TextLeads(digits: string, u: string, x: int, rest: string, s: string)
    requires AllDigits(digits) && digits != "" && IsUnitText(u) && Amount(digits, "", u) == Some(x)
    requires (rest == "" || IsDigit(rest[0])) && s == digits + (u + rest)
    ensures Leads(s, x, rest)
  {
    FirstPart(digits, u, rest, s);
  }

  lemma Adds(s: string, x: int, rest: string, v: int, w: int)
    requires Leads(s, x, rest) && AddsUpTo(rest, v) && w == x + v
    ensures AddsUpTo(s, w)
  {
    hide Components;
  }

  lemma PartAmount(p: Part)
    ensures Amount(FormatNat(p.n), "", Text(p.unit)) == Some(p.n * Scale(p.unit))
  {
    TextIsUnit(p.unit, p.n);
    NatRoundTrip(p.n);
    AmountOfWhole(FormatNat(p.n), p.n, Text(p.unit));
  }

  lemma PartAdds(p: Part, rest: string, v: int, s: string, w: int)
    requires (rest == "" || IsDigit(rest[0])) && AddsUpTo(rest, v)
    requires s == FormatNat(p.n) + (Text(p.unit) + rest) && w == p.n * Scale(p.unit) + v
    ensures AddsUpTo(s, w)
  {
    PartAmount(p);
    TextIsUnit(p.unit, p.n);
    TextLeads(FormatNat(p.n), Text(p.unit), p.n * Scale(p.unit), rest, s);
    Adds(s, p.n * Scale(p.unit), rest, v, w);
  }

  /** A spelled sum begins with a digit and ends with a letter. */
  lemma {:induction false} SpelledShape(parts: seq<Part>, s: string)
    requires parts != [] && s == Spelled(parts)
    ensures |s| >= 2 && IsDigit(s[0]) && !IsSpace(s[|s| - 1])
  {
    var u, rest := Text(parts[0].unit), parts[1..];
    TextIsUnit(parts[0].unit, 0);
    if rest == [] {
      assert s[|s| - 1] == u[|u| - 1];
    } else {
      SpelledShape(rest, Spelled(rest));
    }
  }

  lemma SpelledOut(parts: seq<Part>, r: string)
    requires parts != [] && r == Spelled(parts[1..])
    ensures Spelled(parts) == FormatNat(parts[0].n) + (Text(parts[0].unit) + r)
    ensures r == "" || IsDigit(r[0])
  {
    if parts[1..] != [] {
      SpelledShape(parts[1..], r);
    }
  }

  lemma {:induction false} PartsAddUp(parts: seq<Part>, s: string)
    requires s == Spelled(parts)
    ensures AddsUpTo(s, Total(parts))
  {
    if parts != [] {
      var r := Spelled(parts[1..]);
      PartsAddUp(parts[1..], r);
      SpelledOut(parts, r);
      PartAdds(parts[0], r, Total(parts[1..]), s, Total(parts));
    }
  }

  // ----- sums as durations --------------------------------------------------------------------

  lemma GoFirst(s: string, d: int)
    requires TrimSpace(s) == s && s != "" && GoParseDuration(s) == Some(d)
    ensures ParseDuration(s) == Some(d)
  {
  }

  lemma SuffixSecond(s: string, r: Option<int>)
    requires TrimSpace(s) == s && s != "" && GoParseDuration(s) == None && ParseSuffix(s) == r
    ensures ParseDuration(s) == r
  {
  }

  lemma UnsignedSum(body: string, v: int)
    requires |body| >= 2 && AddsUpTo(body, v)
    ensures Unsigned(body) == Some(v)
  {
  }

  lemma GoReads(negative: bool, body: string, v: int, s: string, d: int)
    requires |body| >= 2 && IsDigit(body[0]) && Unsigned(body) == Some(v)
    requires s == (if negative then "-" else "") + body
    requires d == (if negative then -v else v) && MIN_INT64 <= d <= MAX_INT64
    ensures GoParseDuration(s) == Some(d)
  {
    GoParsesSigned(negative, body, s);
  }

  /** A sum of numbers with Go's units, with or without a minus sign, if it fits 64 bits. */
  lemma SumReads(negative: bool, parts: seq<Part>, s: string, d: int)
    requires parts != [] && s == (if negative then "-" else "") + Spelled(parts)
    requires d == (if negative then -(Total(parts) as int) else Total(parts)) && MIN_INT64 <= d <= MAX_INT64
    ensures ParseDuration(s) == Some(d)
  {
    hide Components, GoParseDuration, ParseDuration;
    var body := Spelled(parts);
    PartsAddUp(parts, body);
    SpelledShape(parts, body);
    UnsignedSum(body, Total(parts));
    GoReads(negative, body, Total(parts), s, d);
    assert s[|s| - 1] == body[|body| - 1] && s[0] == if negative then '-' else body[0];
    TrimmedAlready(s);
    GoFirst(s, d);
  }

  /** A letter before the last place, so that what stands before a suffix is not an integer. */
  lemma NoInteger(s: string, j: nat)
    requires 0 < j < |s| - 1 && !IsDigit(s[j])
    ensures ParseSuffix(s) == None
  {
    var number := s[..|s| - 1];
    assert number[j] == s[j];
    assert number[1..][j - 1] == s[j];
  }

  lemma GoRefusesSum(negative: bool, body: string, v: int, s: string, d: int)
    requires |body| >= 2 && IsDigit(body[0]) && Unsigned(body) == Some(v)
    requires s == (if negative then "-" else "") + body
    requires d == (if negative then -v else v) && !(MIN_INT64 <= d <= MAX_INT64)
    ensures GoParseDuration(s) == None
  {
    GoParsesSigned(negative, body, s);
  }

  lemma UnitInside(parts: seq<Part>, body: string) returns (j: nat)
    requires body == Spelled(parts) && parts != [] && (|parts| >= 2 || |Text(parts[0].unit)| == 2)
    ensures 0 < j < |body| - 1 && !IsDigit(body[j])
  {
    var digits, u, r := FormatNat(parts[0].n), Text(parts[0].unit), Spelled(parts[1..]);
    TextIsUnit(parts[0].unit, 0);
    SpelledOut(parts, r);
    if |parts| >= 2 {
      SpelledShape(parts[1..], r);
    }
    j := |digits|;
    assert body[j] == u[0];
  }

  /** One that does not fit is refused, unless it is a single number of s, m or h. */
  lemma LargeSumRefused(negative: bool, parts: seq<Part>, s: string, d: int)
    requires parts != [] && (|parts| >= 2 || |Text(parts[0].unit)| == 2)
    requires s == (if negative then "-" else "") + Spelled(parts)
    requires d == (if negative then -(Total(parts) as int) else Total(parts)) && !(MIN_INT64 <= d <= MAX_INT64)
    ensures ParseDuration(s) == None
  {
    hide Components, GoParseDuration, ParseDuration, ParseSuffix;
    var body := Spelled(parts);
    PartsAddUp(parts, body);
    SpelledShape(parts, body);
    UnsignedSum(body, Total(parts));
    GoRefusesSum(negative, body, Total(parts), s, d);
    assert s[|s| - 1] == body[|body| - 1] && s[0] == if negative then '-' else body[0];
    TrimmedAlready(s);
    var j := UnitInside(parts, body);
    var at := if negative then j + 1 else j;
    assert s[at] == body[j];
    NoInteger(s, at);
    SuffixSecond(s, None);
  }

  lemma PlainSumReads(parts: seq<Part>, s: string)
    requires parts != [] && s == Spelled(parts) && Total(parts) <= MAX_INT64
    ensures ParseDuration(s) == Some(Total(parts))
  {
    assert s == "" + Spelled(parts);
    SumReads(false, parts, s, Total(parts));
  }

  lemma OnePart(p: Part)
    ensures Spelled([p]) == FormatNat(p.n) + Text(p.unit) && Total([p]) == p.n * Scale(p.unit)
  {
    assert [p][1..] == [];
    assert Text(p.unit) + "" == Text(p.unit);
  }

  /** Hours, minutes and seconds, one after the other. */
  function Clock(h: nat, m: nat, s: nat): seq<Part> {
    [Part(h, Hour), Part(m, Minute), Part(s, Second)]
  }

  lemma ClockSpelled(h: nat, m: nat, s: nat)
    ensures Spelled(Clock(h, m, s)) == FormatNat(h) + ("h" + (FormatNat(m) + ("m" + (FormatNat(s) + "s"))))
  {
    OnePart(Part(s, Second));
    assert Clock(h, m, s)[1..][1..] == [Part(s, Second)];
  }

  lemma ClockTotal(h: nat, m: nat, s: nat)
    ensures Total(Clock(h, m, s)) == h * 3_600_000_000_000 + m * 60_000_000_000 + s * 1_000_000_000
  {
    OnePart(Part(s, Second));
    assert Clock(h, m, s)[1..][1..] == [Part(s, Second)];
  }

  lemma ClockReads(h: nat, m: nat, s: nat, d: nat)
    requires d == h * 3_600_000_000_000 + m * 60_000_000_000 + s * 1_000_000_000 <= MAX_INT64
    ensures ParseDuration(Spelled(Clock(h, m, s))) == Some(d)
  {
    hide ParseDuration;
    var parts := Clock(h, m, s);
    ClockTotal(h, m, s);
    PlainSumReads(parts, Spelled(parts));
  }

  lemma UnitReads(p: Part, s: string)
    requires s == FormatNat(p.n) + Text(p.unit) && p.n * Scale(p.unit) <= MAX_INT64
    ensures ParseDuration(s) == Some(p.n * Scale(p.unit))
  {
    OnePart(p);
    PlainSumReads([p], s);
  }

  /** Units below a second. */
  lemma SmallUnitReads(n: nat, u: string, scale: nat)
    requires (u == "ms" && scale == 1_000_000) || (u == "us" && scale == 1_000) || (u == "ns" && scale == 1)
    requires n * scale <= MAX_INT64
    ensures ParseDuration(FormatNat(n) + u) == Some(n * scale)
  {
    var unit := if u == "ms" then Milli else if u == "us" then Micro else Nano;
    UnitReads(Part(n, unit), FormatNat(n) + u);
  }

  // ----- one number with or without a suffix --------------------------------------------------

  /** The suffixes and what they stand for. */
  predicate StandsFor(u: char, scale: nat) {
    || (u in {'s', 'S'} && scale == 1_000_000_000)
    || (u in {'m', 'M'} && scale == 60_000_000_000)
    || (u in {'h', 'H'} && scale == 3_600_000_000_000)
    || (u in {'d', 'D'} && scale == 86_400_000_000_000)
  }

  lemma WrapsToItself(x: int)
    requires MIN_INT64 <= x <= MAX_INT64
    ensures Wrap64(x) == x
  {
  }

  lemma SuffixScales(n: int, u: char, scale: nat, s: string)
    requires MIN_INT64 <= n <= MAX_INT64 && StandsFor(u, scale) && s == FormatInt(n) + [u]
    ensures ParseSuffix(s) == Some(Wrap64(n * scale))
  {
    hide Atoi, Wrap64;
    AtoiRoundTrip(n);
    assert s[..|s| - 1] == FormatInt(n) && s[|s| - 1] == u;
  }

  lemma NumberIsTrimmed(n: int, u: string)
    requires u == "" || !IsSpace(u[|u| - 1])
    ensures TrimSpace(FormatInt(n) + u) == FormatInt(n) + u
  {
    DigitsAreNotSpaces(FormatNat(if n < 0 then -n else n));
    TrimmedAlready(FormatInt(n) + u);
  }

  lemma ClockSigned(n: int, u: char, a: nat)
    requires IsClockUnit(u) && a == if n < 0 then -n else n
    ensures var d := n * Nanos(u);
            Signed(n < 0, InUnit(a, [u])) == if MIN_INT64 <= d <= MAX_INT64 then Some(d) else None
  {
    InClockUnit(a, u);
    assert n < 0 ==> -(a * Nanos(u)) == n * Nanos(u);
  }

  lemma GoClock(n: int, u: char, s: string)
    requires IsClockUnit(u) && s == FormatInt(n) + [u]
    ensures var d := n * Nanos(u);
            GoParseDuration(s) == if MIN_INT64 <= d <= MAX_INT64 then Some(d) else None
  {
    ClockSigned(n, u, if n < 0 then -n else n);
    GoParses(n, u);
  }

  lemma NoGoUnit(n: int, u: char)
    requires u == 'S' || u == 'M' || u == 'H' || u == 'd' || u == 'D'
    ensures InUnit(n, [u]) == None && !IsDigit(u) && u != '.'
  {
  }

  lemma GoUnknown(n: int, u: char, s: string)
    requires InUnit(if n < 0 then -n else n, [u]) == None && !IsDigit(u) && u != '.' && s == FormatInt(n) + [u]
    ensures GoParseDuration(s) == None
  {
    GoParses(n, u);
  }

  /** A 64-bit integer with a suffix in either letter case; what does not fit 64 bits wraps around. */
  lemma SuffixReads(n: int, u: char, scale: nat, s: string)
    requires MIN_INT64 <= n <= MAX_INT64 && StandsFor(u, scale) && s == FormatInt(n) + [u]
    ensures ParseDuration(s) == Some(Wrap64(n * scale))
  {
    NumberIsTrimmed(n, [u]);
    SuffixScales(n, u, scale, s);
    if IsClockUnit(u) && MIN_INT64 <= n * scale <= MAX_INT64 {
      GoClock(n, u, s);
      WrapsToItself(n * scale);
      GoFirst(s, n * scale);
    } else {
      if IsClockUnit(u) {
        GoClock(n, u, s);
      } else {
        NoGoUnit(if n < 0 then -n else n, u);
        GoUnknown(n, u, s);
      }
      SuffixSecond(s, Some(Wrap64(n * scale)));
    }
  }

  lemma {:induction false} AllAreDigits(s: string)
    requires AllDigits(s)
    ensures DigitsLength(s) == |s|
  {
    if s != "" {
      AllAreDigits(s[1..]);
    }
  }

  /** Go wants a unit. */
  lemma NoUnit(digits: string)
    requires AllDigits(digits) && digits != ""
    ensures Components(digits) == None
  {
    AllAreDigits(digits);
    assert !HasDot(digits) && NumberEnd(digits) == |digits| && digits[|digits|..] == "";
  }

  lemma GoRefusesBare(n: int)
    requires n != 0
    ensures GoParseDuration(FormatInt(n)) == None
  {
    var a: nat := if n < 0 then -n else n;
    var digits := FormatNat(a);
    NatRoundTrip(a);
    NoUnit(digits);
    DigitsAreNotSpaces(digits);
    assert digits != "0" by {
      assert "0"[..0] == "" && NatValue("") == 0;
      assert NatValue("0") == 0;
    }
    GoParsesSigned(n < 0, digits, FormatInt(n));
  }

  /** All digits but the last. */
  lemma DropsLastDigit(n: int, q: int)
    requires n >= 10 || n <= -10
    requires q == if n < 0 then -(-n / 10) else n / 10
    ensures var s := FormatInt(n); |s| >= 2 && s[..|s| - 1] == FormatInt(q) && IsDigit(s[|s| - 1])
  {
  }

  lemma OneDigitSuffix(n: int)
    requires n != 0 && -10 < n < 10
    ensures ParseSuffix(FormatInt(n)) == None
  {
    if n < 0 {
      assert FormatInt(n)[..1] == "-";
    }
  }

  lemma DigitSuffix(s: string, n: int, q: int)
    requires |s| >= 2 && IsDigit(s[|s| - 1]) && Atoi(s[..|s| - 1]) == Some(q) && Atoi(s) == Some(n)
    ensures ParseSuffix(s) == Some(Wrap64(n * 1_000_000_000))
  {
  }

  lemma BareSuffix(n: int)
    requires MIN_INT64 <= n <= MAX_INT64 && n != 0
    ensures ParseSuffix(FormatInt(n)) == if -10 < n < 10 then None else Some(Wrap64(n * 1_000_000_000))
  {
    if n >= 10 || n <= -10 {
      var q := if n < 0 then -(-n / 10) else n / 10;
      AtoiRoundTrip(n);
      DropsLastDigit(n, q);
      AtoiRoundTrip(q);
      DigitSuffix(FormatInt(n), n, q);
    } else {
      OneDigitSuffix(n);
    }
  }

  /** A 64-bit integer without a suffix is a number of seconds, but one of a single digit is refused
      unless it is 0. */
  lemma BareNumberReads(n: int)
    requires MIN_INT64 <= n <= MAX_INT64
    ensures ParseDuration(FormatInt(n)) ==
            if n == 0 then Some(0)
            else if -10 < n < 10 then None
            else Some(Wrap64(n * 1_000_000_000))
  {
    var s := FormatInt(n);
    NumberIsTrimmed(n, "");
    assert s + "" == s;
    if n == 0 {
      GoFirst(s, 0);
    } else {
      GoRefusesBare(n);
      BareSuffix(n);
      SuffixSecond(s, ParseSuffix(s));
    }
  }

  // ----- how a duration is printed ------------------------------------------------------------

  lemma Smaller(k: int, b: nat)
    requires 0 <= k * b < b
    ensures k == 0
  {
    assert k >= 1 ==> k * b >= b;
    assert k <= -1 ==> k * b + b <= 0;
  }

  lemma MultipleOf(d: nat, n: nat, b: nat)
    requires b > 0 && d == n * b
    ensures d % b == 0
  {
    var m := d / b;
    assert (n - m) * b == n * b - m * b == d % b;
    Smaller(n - m, b);
  }

  /** A multiple of a times b is one of b. */
  lemma DividesToo(d: nat, a: nat, b: nat, c: nat)
    requires b > 0 && c == a * b && c > 0 && d % c == 0
    ensures d % b == 0
  {
    var q := d / c;
    assert d == q * c;
    assert q * (a * b) == (q * a) * b;
    MultipleOf(d, q * a, b);
  }

  lemma NoLargerUnit(d: nat)
    ensures d % HOUR != 0 ==> d % DAY != 0
    ensures d % MINUTE != 0 ==> d % HOUR != 0
  {
    if d % DAY == 0 {
      DividesToo(d, 24, HOUR, DAY);
    }
    if d % HOUR == 0 {
      DividesToo(d, 60, MINUTE, HOUR);
    }
  }

  /** A positive duration is printed in the largest unit of which it is a whole number. */
  lemma PrintsDays(k: nat)
    requires k > 0
    ensures FormatDuration(k * 86_400_000_000_000) == FormatNat(k) + "d"
  {
    var d := k * DAY;
    assert d / DAY == k && d % DAY == 0;
  }

  lemma PrintsHours(d: nat, k: nat)
    requires k > 0 && d == k * 3_600_000_000_000 && d % 86_400_000_000_000 != 0
    ensures FormatDuration(d) == FormatNat(k) + "h"
  {
    assert d / HOUR == k && d % HOUR == 0;
  }

  lemma PrintsMinutes(d: nat, k: nat)
    requires k > 0 && d == k * 60_000_000_000 && d % 3_600_000_000_000 != 0
    ensures FormatDuration(d) == FormatNat(k) + "m"
  {
    NoLargerUnit(d);
    assert d / MINUTE == k && d % MINUTE == 0;
  }

  /** What is not a whole number of minutes is printed in whole seconds, rounded down. */
  lemma PrintsSeconds(d: nat)
    requires d % 60_000_000_000 != 0
    ensures FormatDuration(d) == FormatNat(d / 1_000_000_000) + "s"
  {
    NoLargerUnit(d);
  }
}
