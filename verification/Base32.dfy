/** Base32 without padding (section 6 of RFC 4648) in whole groups: 5 bytes to 8 characters. */
module Base32 {
  import opened Bytes

  type quint = x: int | 0 <= x < 32

  predicate IsSymbol(c: char) {
    'A' <= c <= 'Z' || '2' <= c <= '7'
  }

  function Symbol(q: quint): (c: char)
    ensures IsSymbol(c)
  {
    if q < 26 then ('A' as int + q) as char else ('2' as int + q - 26) as char
  }

  function SymbolValue(c: char): (q: quint)
    requires IsSymbol(c)
    ensures Symbol(q) == c
  {
    if 'A' <= c <= 'Z' then c as int - 'A' as int else c as int - '2' as int + 26
  }

  lemma SymbolRoundTrip(q: quint)
    ensures SymbolValue(Symbol(q)) == q
  {
  }

  function Quints(b: seq<byte>): (q: seq<quint>)
    requires |b| == 5
    ensures |q| == 8
  {
    [b[0] / 8, b[0] % 8 * 4 + b[1] / 64, b[1] / 2 % 32, b[1] % 2 * 16 + b[2] / 16,
     b[2] % 16 * 2 + b[3] / 128, b[3] / 4 % 32, b[3] % 4 * 8 + b[4] / 32, b[4] % 32]
  }

  function Octets(q: seq<quint>): (b: seq<byte>)
    requires |q| == 8
    ensures |b| == 5
  {
    var q0: int, q1: int, q2: int, q3: int := q[0], q[1], q[2], q[3];
    var q4: int, q5: int, q6: int, q7: int := q[4], q[5], q[6], q[7];
    [q0 * 8 + q1 / 4, q1 % 4 * 64 + q2 * 2 + q3 / 16, q3 % 16 * 16 + q4 / 2,
     q4 % 2 * 128 + q5 * 4 + q6 / 8, q6 % 8 * 32 + q7]
  }

  /** A number written as a high and a low part. */
  lemma Parts(h: nat, l: nat)
    ensures l < 2 ==> (h * 2 + l) / 2 == h && (h * 2 + l) % 2 == l
    ensures l < 4 ==> (h * 4 + l) / 4 == h && (h * 4 + l) % 4 == l
    ensures l < 8 ==> (h * 8 + l) / 8 == h && (h * 8 + l) % 8 == l
    ensures l < 16 ==> (h * 16 + l) / 16 == h && (h * 16 + l) % 16 == l
    ensures l < 32 ==> (h * 32 + l) / 32 == h && (h * 32 + l) % 32 == l
  {
  }

  lemma SplitOctet(x: byte)
    ensures x == x / 64 * 64 + x / 2 % 32 * 2 + x % 2
    ensures x == x / 128 * 128 + x / 4 % 32 * 4 + x % 4
  {
  }

  lemma OctetsOfQuints(b: seq<byte>)
    requires |b| == 5
    ensures Octets(Quints(b)) == b
  {
    Parts(b[0] % 8, b[1] / 64);
    Parts(b[1] % 2, b[2] / 16);
    Parts(b[2] % 16, b[3] / 128);
    Parts(b[3] % 4, b[4] / 32);
    var q, r := Quints(b), Octets(Quints(b));
    assert q[1] / 4 == b[0] % 8 && r[0] == b[0];
    assert q[1] % 4 == b[1] / 64 && q[3] / 16 == b[1] % 2;
    SplitOctet(b[1]);
    assert r[1] == b[1];
    assert q[3] % 16 == b[2] / 16 && q[4] / 2 == b[2] % 16 && r[2] == b[2];
    assert q[4] % 2 == b[3] / 128 && q[6] / 8 == b[3] % 4;
    SplitOctet(b[3]);
    assert r[3] == b[3];
    assert q[6] % 8 == b[4] / 32 && r[4] == b[4];
  }

  lemma JoinOctet(h: nat, m: quint, l: nat)
    ensures h < 4 && l < 2 ==>
      var x := h * 64 + m * 2 + l; x < 256 && x / 64 == h && x / 2 % 32 == m && x % 2 == l
    ensures h < 2 && l < 4 ==>
      var x := h * 128 + m * 4 + l; x < 256 && x / 128 == h && x / 4 % 32 == m && x % 4 == l
  {
  }

  lemma FirstQuints(q: seq<quint>)
    requires |q| == 8
    ensures Quints(Octets(q))[..4] == q[..4]
  {
    var r := Quints(Octets(q));
    Parts(q[0], q[1] / 4);
    JoinOctet(q[1] % 4, q[2], q[3] / 16);
    Parts(q[3] % 16, q[4] / 2);
    assert r[0] == q[0] && r[1] == q[1] && r[2] == q[2] && r[3] == q[3];
  }

  lemma LastQuints(q: seq<quint>)
    requires |q| == 8
    ensures Quints(Octets(q))[4..] == q[4..]
  {
    var r := Quints(Octets(q));
    Parts(q[3] % 16, q[4] / 2);
    JoinOctet(q[4] % 2, q[5], q[6] / 8);
    Parts(q[6] % 8, q[7]);
    assert r[4] == q[4] && r[5] == q[5] && r[6] == q[6] && r[7] == q[7];
  }

  lemma QuintsOfOctets(q: seq<quint>)
    requires |q| == 8
    ensures Quints(Octets(q)) == q
  {
    FirstQuints(q);
    LastQuints(q);
    var r := Quints(Octets(q));
    assert r == r[..4] + r[4..] && q == q[..4] + q[4..];
  }

  function Symbols(q: seq<quint>): (s: string)
    ensures |s| == |q| && forall i :: 0 <= i < |s| ==> IsSymbol(s[i])
  {
    seq(|q|, i requires 0 <= i < |q| => Symbol(q[i]))
  }

  predicate AllSymbols(s: string) {
    forall i :: 0 <= i < |s| ==> IsSymbol(s[i])
  }

  function Values(s: string): (q: seq<quint>)
    requires AllSymbols(s)
    ensures |q| == |s|
  {
    seq(|s|, i requires 0 <= i < |s| => SymbolValue(s[i]))
  }

  function Encode(data: seq<byte>): (s: string)
    requires |data| % 5 == 0
    ensures |s| == |data| / 5 * 8 && AllSymbols(s)
  {
    if data == [] then "" else Symbols(Quints(data[..5])) + Encode(data[5..])
  }

  function DecodeSymbols(s: string): (data: seq<byte>)
    requires |s| % 8 == 0 && AllSymbols(s)
    ensures |data| == |s| / 8 * 5
  {
    if s == "" then [] else Octets(Values(s[..8])) + DecodeSymbols(s[8..])
  }

  /** Go's decoder drops line breaks before it decodes. */
  function WithoutBreaks(s: string): (r: string)
    ensures |r| <= |s|
    ensures |r| == |s| ==> r == s
    ensures AllSymbols(s) ==> r == s
  {
    if s == "" then ""
    else if s[0] == '\r' || s[0] == '\n' then WithoutBreaks(s[1..])
    else [s[0]] + WithoutBreaks(s[1..])
  }

  /** How many bytes n symbols decode to; a last group of 1, 3 or 6 symbols gives none. */
  function DecodedLength(n: nat): nat {
    var m := n % 8;
    n / 8 * 5 + if m == 2 then 1 else if m == 4 then 2 else if m == 5 then 3 else if m == 7 then 4 else 0
  }

  lemma {:induction false} DecodeOfEncode(data: seq<byte>)
    requires |data| % 5 == 0
    ensures DecodeSymbols(Encode(data)) == data
  {
    if data != [] {
      var q := Quints(data[..5]);
      var s := Encode(data);
      assert s[..8] == Symbols(q) && s[8..] == Encode(data[5..]);
      forall i | 0 <= i < 8
        ensures Values(s[..8])[i] == q[i]
      {
        SymbolRoundTrip(q[i]);
      }
      assert Values(s[..8]) == q;
      OctetsOfQuints(data[..5]);
      DecodeOfEncode(data[5..]);
    }
  }

  lemma {:induction false} EncodeOfDecode(s: string)
    requires |s| % 8 == 0 && AllSymbols(s)
    ensures Encode(DecodeSymbols(s)) == s
  {
    if s != "" {
      var q := Values(s[..8]);
      var data := DecodeSymbols(s);
      assert data[..5] == Octets(q) && data[5..] == DecodeSymbols(s[8..]);
      QuintsOfOctets(q);
      assert Symbols(q) == s[..8];
      EncodeOfDecode(s[8..]);
    }
  }

  // ----- groups as numbers --------------------------------------------------------------------

  const ALPHABET := "ABCDEFGHIJKLMNOPQRSTUVWXYZ234567"

  lemma AlphabetOrder(q: quint)
    ensures Symbol(q) == ALPHABET[q]
  {
  }

  /** Five bytes as one number of 40 bits, highest first. */
  function Bits40(b: seq<byte>): nat
    requires |b| == 5
  {
    (((b[0] as nat * 256 + b[1]) * 256 + b[2]) * 256 + b[3]) * 256 + b[4]
  }

  /** Eight numbers of five bits as one of 40. */
  function Bits8x5(q: seq<quint>): nat
    requires |q| == 8
  {
    ((((((q[0] as nat * 32 + q[1]) * 32 + q[2]) * 32 + q[3]) * 32 + q[4]) * 32 + q[5]) * 32 + q[6]) * 32 + q[7]
  }

  lemma QuintsAreBits(b: seq<byte>)
    requires |b| == 5
    ensures Bits8x5(Quints(b)) == Bits40(b)
  {
    SplitOctet(b[1]);
    SplitOctet(b[3]);
    assert b[0] == b[0] / 8 * 8 + b[0] % 8 && b[2] == b[2] / 16 * 16 + b[2] % 16;
    assert b[4] == b[4] / 32 * 32 + b[4] % 32;
  }

  lemma FirstGroup(data: seq<byte>, i: nat)
    requires |data| % 5 == 0 && data != [] && i < 8
    ensures Encode(data)[i] == Symbol(Quints(data[..5])[i])
  {
    hide Quints, Symbol;
    assert Encode(data) == Symbols(Quints(data[..5])) + Encode(data[5..]);
  }

  lemma LaterGroup(data: seq<byte>, i: nat)
    requires |data| % 5 == 0 && 8 <= i < |data| / 5 * 8
    ensures Encode(data)[i] == Encode(data[5..])[i - 8]
  {
    hide Quints, Symbols;
  }

  /** The symbols of group g stand for the forty bits of its five bytes, five bits each, highest first. */
  lemma {:induction false} SymbolsAreBits(data: seq<byte>, g: nat) returns (q: seq<quint>)
    requires |data| % 5 == 0 && g < |data| / 5
    ensures |q| == 8 && Bits8x5(q) == Bits40(data[5 * g..5 * g + 5])
    ensures forall i :: 0 <= i < 8 ==> Encode(data)[8 * g + i] == ALPHABET[q[i]]
    decreases |data|
  {
    hide Encode, Quints, Symbol, Bits8x5, Bits40;
    if g == 0 {
      q := Quints(data[..5]);
      QuintsAreBits(data[..5]);
      forall i | 0 <= i < 8
        ensures Encode(data)[i] == ALPHABET[q[i]]
      {
        FirstGroup(data, i);
        AlphabetOrder(q[i]);
      }
    } else {
      q := SymbolsAreBits(data[5..], g - 1);
      assert data[5..][5 * (g - 1)..5 * (g - 1) + 5] == data[5 * g..5 * g + 5];
      forall i | 0 <= i < 8
        ensures Encode(data)[8 * g + i] == ALPHABET[q[i]]
      {
        LaterGroup(data, 8 * g + i);
        assert Encode(data[5..])[8 * (g - 1) + i] == ALPHABET[q[i]];
      }
    }
  }
}
