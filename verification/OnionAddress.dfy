/** Version-3 onion addresses (pkg/onion/onion.go; section 6 of rend-spec-v3). */
module OnionAddress {
  import opened Bytes
  import opened Letters
  import opened Wrappers
  import Base32

  const SUFFIX := ".onion"
  const ADDRESS_LENGTH := 56
  const VERSION: byte := 3

  /** The first two bytes of the hash of key and version. */
  type Checksum = (seq<byte>, byte) -> (byte, byte)

  datatype Error =
    | UnsupportedFormat | InvalidBase32 | InvalidLength | InvalidVersion | InvalidChecksum | InvalidKeyLength

  /** Printed: base32 of key, checksum and version. A string is the sequence of its bytes, one
      character for each. */
  datatype Address = Address(pubkey: seq<byte>, raw: string)

  // ----- letter case --------------------------------------------------------------------------

  lemma CaseRoundTrips(s: string)
    ensures ToLower(ToUpper(s)) == ToLower(s) && ToUpper(ToLower(s)) == ToUpper(s)
    ensures Base32.AllSymbols(s) ==> ToUpper(s) == s
  {
  }

  // ----- printing and parsing -----------------------------------------------------------------

  function Packed(pubkey: seq<byte>, checksum: Checksum): (r: seq<byte>)
    requires |pubkey| == 32
    ensures |r| == 35
  {
    var (c0, c1) := checksum(pubkey, VERSION);
    pubkey + [c0, c1, VERSION]
  }

  /** `Address.Encode` on a version-3 address. */
  function Print(pubkey: seq<byte>, checksum: Checksum): string
    requires |pubkey| == 32
  {
    ToLower(Base32.Encode(Packed(pubkey, checksum))) + SUFFIX
  }

  /** `strings.TrimSuffix(addr, ".onion")`. */
  function Trim(s: string): string {
    if |s| >= |SUFFIX| && s[|s| - |SUFFIX|..] == SUFFIX then s[..|s| - |SUFFIX|] else s
  }

  function ParseV3(addr: string, checksum: Checksum): Result<Address, Error>
    requires |addr| == ADDRESS_LENGTH
  {
    var symbols := Base32.WithoutBreaks(ToUpper(addr));
    if !Base32.AllSymbols(symbols) then Err(InvalidBase32)
    else if Base32.DecodedLength(|symbols|) != 35 then Err(InvalidLength)
    else
      var decoded := Base32.DecodeSymbols(symbols);
      var pubkey, version := decoded[..32], decoded[34];
      if version != VERSION then Err(InvalidVersion)
      else if (decoded[32], decoded[33]) != checksum(pubkey, version) then Err(InvalidChecksum)
      else Ok(Address(pubkey, addr + SUFFIX))
  }

  function Parse(s: string, checksum: Checksum): Result<Address, Error> {
    var addr := Trim(s);
    if |addr| != ADDRESS_LENGTH then Err(UnsupportedFormat) else ParseV3(addr, checksum)
  }

  lemma TrimOfSuffixed(s: string)
    ensures Trim(s + SUFFIX) == s
  {
  }

  /** One suffix is cut off if it is there, and otherwise the string is left as it is. */
  lemma TrimCutsSuffix(s: string, t: string)
    ensures s == t + ".onion" ==> Trim(s) == t
    ensures Trim(s) == s || s == Trim(s) + ".onion"
    ensures Trim(s) == s <==> |s| < 6 || s[|s| - 6..] != ".onion"
  {
  }

  /** The suffix is optional. */
  lemma SuffixIsOptional(s: string, checksum: Checksum)
    requires Trim(s) == s
    ensures Parse(s, checksum) == Parse(s + ".onion", checksum)
  {
    TrimCutsSuffix(s + ".onion", s);
  }

  lemma AcceptedIsPrinted(s: string, checksum: Checksum)
    requires Parse(s, checksum).Ok?
    ensures var pubkey := Parse(s, checksum).value.pubkey;
            |pubkey| == 32 && Base32.Encode(Packed(pubkey, checksum)) == ToUpper(Trim(s))
  {
    var upper := ToUpper(Trim(s));
    var decoded := Base32.DecodeSymbols(upper);
    var pubkey := Parse(s, checksum).value.pubkey;
    assert decoded == pubkey + [decoded[32], decoded[33], decoded[34]];
    assert Packed(pubkey, checksum) == decoded;
    Base32.EncodeOfDecode(upper);
  }

  lemma PrintedIsAccepted(s: string, pubkey: seq<byte>, checksum: Checksum)
    requires |pubkey| == 32 && ToUpper(Trim(s)) == Base32.Encode(Packed(pubkey, checksum))
    ensures Parse(s, checksum) == Ok(Address(pubkey, Trim(s) + SUFFIX))
  {
    var packed := Packed(pubkey, checksum);
    Base32.DecodeOfEncode(packed);
    assert packed[..32] == pubkey;
  }

  /** A string is accepted, with a given key, exactly when its trimmed lower-case form is what
      printing that key gives. */
  lemma AcceptsExactlyPrinted(s: string, pubkey: seq<byte>, checksum: Checksum)
    requires |pubkey| == 32
    ensures (Parse(s, checksum).Ok? && Parse(s, checksum).value.pubkey == pubkey)
            <==> ToLower(Trim(s)) + SUFFIX == Print(pubkey, checksum)
  {
    var addr, printed := Trim(s), Base32.Encode(Packed(pubkey, checksum));
    CaseRoundTrips(addr);
    CaseRoundTrips(printed);
    if Parse(s, checksum).Ok? && Parse(s, checksum).value.pubkey == pubkey {
      AcceptedIsPrinted(s, checksum);
    } else if ToLower(addr) + SUFFIX == Print(pubkey, checksum) {
      TrimOfSuffixed(ToLower(addr));
      TrimOfSuffixed(ToLower(printed));
      PrintedIsAccepted(s, pubkey, checksum);
    }
  }

  /** Parsing a printed key returns the key and the printed string. */
  lemma ParseOfPrint(pubkey: seq<byte>, checksum: Checksum)
    requires |pubkey| == 32
    ensures Parse(Print(pubkey, checksum), checksum) == Ok(Address(pubkey, Print(pubkey, checksum)))
  {
    var printed := Base32.Encode(Packed(pubkey, checksum));
    CaseRoundTrips(printed);
    TrimOfSuffixed(ToLower(printed));
    PrintedIsAccepted(Print(pubkey, checksum), pubkey, checksum);
  }

  /** Re-encoding any accepted address gives its lower-case form. */
  lemma PrintOfParse(s: string, checksum: Checksum)
    requires Parse(s, checksum).Ok?
    ensures var a := Parse(s, checksum).value;
            && |a.pubkey| == 32
            && Print(a.pubkey, checksum) == ToLower(Trim(s)) + SUFFIX
            && a.raw == Trim(s) + SUFFIX
  {
    AcceptedIsPrinted(s, checksum);
    CaseRoundTrips(Trim(s));
  }

  lemma LastFive(q: seq<Base32.quint>, b: seq<byte>)
    requires |q| == 8 && |b| == 5 && Base32.Bits8x5(q) == Base32.Bits40(b) && b[4] == 3
    ensures q[7] == 3
  {
  }

  /** A printed address has 62 characters, lower-case letters and digits from 2 to 7 before the suffix,
      and ends in "d.onion", since the last five bits are those of version 3. */
  lemma PrintedShape(pubkey: seq<byte>, checksum: Checksum)
    requires |pubkey| == 32
    ensures var s := Print(pubkey, checksum);
            && |s| == 62 && s[55..] == "d.onion"
            && forall i :: 0 <= i < 56 ==> 'a' <= s[i] <= 'z' || '2' <= s[i] <= '7'
  {
    var data, s := Packed(pubkey, checksum), Print(pubkey, checksum);
    var q := Base32.SymbolsAreBits(data, 6);
    assert data[30..35][4] == 3;
    LastFive(q, data[30..35]);
    assert Base32.Encode(data)[55] == 'D';
    assert s[55] == 'd' && s[56..] == ".onion" && s[55..] == [s[55]] + s[56..];
  }

  /** Different keys never share an address. */
  lemma PrintInjective(a: seq<byte>, b: seq<byte>, checksum: Checksum)
    requires |a| == 32 && |b| == 32 && Print(a, checksum) == Print(b, checksum)
    ensures a == b
  {
    ParseOfPrint(a, checksum);
    ParseOfPrint(b, checksum);
  }

  // ----- refusals -----------------------------------------------------------------------------

  predicate IsBreak(c: char) {
    c == '\r' || c == '\n'
  }

  predicate IsAddressChar(c: char) {
    'a' <= c <= 'z' || 'A' <= c <= 'Z' || '2' <= c <= '7'
  }

  predicate Decodable(s: string) {
    forall i :: 0 <= i < |s| ==> IsBreak(s[i]) || Base32.IsSymbol(s[i])
  }

  predicate Unbroken(s: string) {
    forall i :: 0 <= i < |s| ==> !IsBreak(s[i])
  }

  lemma OneCharMore(c: char, s: string)
    ensures Decodable([c] + s) <==> (IsBreak(c) || Base32.IsSymbol(c)) && Decodable(s)
    ensures Unbroken([c] + s) <==> !IsBreak(c) && Unbroken(s)
    ensures Base32.AllSymbols([c] + s) <==> Base32.IsSymbol(c) && Base32.AllSymbols(s)
  {
    var t := [c] + s;
    assert t[0] == c && forall i :: 0 <= i < |s| ==> s[i] == t[i + 1];
  }

  lemma {:induction false} BreaksDropped(s: string)
    ensures Base32.AllSymbols(Base32.WithoutBreaks(s)) <==> Decodable(s)
    ensures |Base32.WithoutBreaks(s)| == |s| <==> Unbroken(s)
  {
    if s != "" {
      BreaksDropped(s[1..]);
      OneCharMore(s[0], s[1..]);
      assert [s[0]] + s[1..] == s;
      OneCharMore(s[0], Base32.WithoutBreaks(s[1..]));
    }
  }

  lemma UpperIsSymbol(c: char)
    ensures Base32.IsSymbol(Upper(c)) <==> IsAddressChar(c)
    ensures IsBreak(Upper(c)) <==> IsBreak(c)
  {
  }

  lemma OnlyFullLengthFits(n: nat)
    requires n <= 56
    ensures Base32.DecodedLength(n) == 35 <==> n == 56
  {
  }

  /** Which string is refused with which error: first the length, then a character that is neither a
      letter, a digit from 2 to 7 nor a line break, then a line break, and last the version byte and the
      checksum of what the symbols decode to. */
  lemma RefusalReasons(s: string, checksum: Checksum)
    ensures var addr, r := Trim(s), Parse(s, checksum);
            var known := forall i :: 0 <= i < |addr| ==> IsBreak(addr[i]) || IsAddressChar(addr[i]);
            var broken := exists i :: 0 <= i < |addr| && IsBreak(addr[i]);
            && (|addr| != 56 <==> r == Err(UnsupportedFormat))
            && (|addr| == 56 && !known <==> r == Err(InvalidBase32))
            && (|addr| == 56 && known && broken <==> r == Err(InvalidLength))
            && (|addr| == 56 && known && !broken ==>
                  && Base32.AllSymbols(ToUpper(addr))
                  && var data := Base32.DecodeSymbols(ToUpper(addr));
                     if data[34] != 3 then r == Err(InvalidVersion)
                     else if (data[32], data[33]) != checksum(data[..32], 3) then r == Err(InvalidChecksum)
                     else r == Ok(Address(data[..32], addr + ".onion")))
  {
    var upper := ToUpper(Trim(s));
    BreaksDropped(upper);
    forall i | 0 <= i < |upper|
      ensures Base32.IsSymbol(upper[i]) <==> IsAddressChar(Trim(s)[i])
      ensures IsBreak(upper[i]) <==> IsBreak(Trim(s)[i])
    {
      UpperIsSymbol(Trim(s)[i]);
    }
    if |upper| == 56 {
      OnlyFullLengthFits(|Base32.WithoutBreaks(upper)|);
    }
  }

  // ----- the code -----------------------------------------------------------------------------

  /** The in-place conversion at the head of `parseV3Address`. */
  method UpperInPlace(a: array<char>)
    modifies a
    ensures a[..] == ToUpper(old(a[..]))
  {
    for i := 0 to a.Length
      invariant forall j :: 0 <= j < i ==> a[j] == Upper(old(a[j]))
      invariant forall j :: i <= j < a.Length ==> a[j] == old(a[j])
    {
      if 'a' <= a[i] <= 'z' {
        a[i] := (a[i] as int - 32) as char;
      }
    }
  }

  method ParseAddress(s: string, checksum: Checksum) returns (r: Result<Address, Error>)
    ensures r == Parse(s, checksum)
  {
    var addr := Trim(s);
    if |addr| != ADDRESS_LENGTH {
      return Err(UnsupportedFormat);
    }
    var buf := new char[|addr|](i requires 0 <= i < |addr| => addr[i]);
    assert buf[..] == addr;
    UpperInPlace(buf);
    var upper := buf[..];
    var symbols := Base32.WithoutBreaks(upper);
    if !Base32.AllSymbols(symbols) {
      return Err(InvalidBase32);
    }
    if Base32.DecodedLength(|symbols|) != 32 + 2 + 1 {
      return Err(InvalidLength);
    }
    var decoded := Base32.DecodeSymbols(symbols);
    var pubkey, version := decoded[0..32], decoded[34];
    if version != VERSION {
      return Err(InvalidVersion);
    }
    var expected := checksum(pubkey, version);
    if decoded[32] != expected.0 || decoded[33] != expected.1 {
      return Err(InvalidChecksum);
    }
    return Ok(Address(pubkey, addr + SUFFIX));
  }

  /** `addressFromPublicKey`: the address stored with a service is the one `Encode` prints. */
  method AddressFromPublicKey(pubkey: seq<byte>, checksum: Checksum) returns (r: Result<Address, Error>)
    ensures |pubkey| != 32 ==> r == Err(InvalidKeyLength)
    ensures |pubkey| == 32 ==> r == Ok(Address(pubkey, Print(pubkey, checksum)))
                               && r == Parse(Print(pubkey, checksum), checksum)
  {
    if |pubkey| != 32 {
      return Err(InvalidKeyLength);
    }
    var sum := checksum(pubkey, VERSION);
    var data := pubkey;
    data := data + [sum.0, sum.1];
    data := data + [VERSION];
    assert data == Packed(pubkey, checksum);
    ParseOfPrint(pubkey, checksum);
    return Ok(Address(pubkey, ToLower(Base32.Encode(data)) + SUFFIX));
  }
}
