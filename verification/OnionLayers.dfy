/** Onion layering of relay payloads (pkg/circuit/circuit.go). */
module OnionLayers {
  import opened Bytes

  type KeyStream = nat -> byte

  // ----- layers as values ---------------------------------------------------------------------

  /** A keystream and a position in it; a hop without a cipher passes data through. The relays along
      the path hold their own copies of the ciphers and their own positions. */
  datatype Cipher = NoCipher | Stream(key: KeyStream, pos: nat)

  /** One pass of a cipher over a buffer. */
  function Mask(c: Cipher, data: seq<byte>): (r: seq<byte>)
    ensures |r| == |data|
  {
    match c
    case NoCipher => data
    case Stream(key, pos) => seq(|data|, i requires 0 <= i < |data| => Xor(data[i], key(pos + i)))
  }

  function Advance(c: Cipher, n: nat): Cipher {
    match c
    case NoCipher => NoCipher
    case Stream(key, pos) => Stream(key, pos + n)
  }

  function AdvanceAll(hops: seq<Cipher>, n: nat): (r: seq<Cipher>)
    ensures |r| == |hops|
  {
    seq(|hops|, i requires 0 <= i < |hops| => Advance(hops[i], n))
  }

  /** The layers of hops, the last hop's innermost. */
  function Wrap(hops: seq<Cipher>, data: seq<byte>): (r: seq<byte>)
    ensures |r| == |data|
  {
    if hops == [] then data else Mask(hops[0], Wrap(hops[1..], data))
  }

  /** Strip the layers of hops, the first hop's first. */
  function Unwrap(hops: seq<Cipher>, data: seq<byte>): (r: seq<byte>)
    ensures |r| == |data|
  {
    if hops == [] then data else Unwrap(hops[1..], Mask(hops[0], data))
  }

  lemma MaskUndoesItself(c: Cipher, data: seq<byte>)
    ensures Mask(c, Mask(c, data)) == data
  {
    if c.Stream? {
      forall i | 0 <= i < |data|
        ensures Mask(c, Mask(c, data))[i] == data[i]
      {
        XorUndoesItself(data[i], c.key(c.pos + i));
      }
    }
  }

  lemma {:induction false} UnwrapOneMore(hops: seq<Cipher>, i: nat, data: seq<byte>)
    requires i < |hops|
    ensures Unwrap(hops[..i + 1], data) == Mask(hops[i], Unwrap(hops[..i], data))
  {
    assert hops[..i + 1][1..] == hops[1..][..i];
    if i > 0 {
      UnwrapOneMore(hops[1..], i - 1, Mask(hops[0], data));
      assert hops[..i][1..] == hops[1..][..i - 1];
    }
  }

  /** Peeling: relays 0..i-1 leave exactly the layers of hops i.. on the payload. */
  lemma {:induction false} PeelPrefix(hops: seq<Cipher>, i: nat, data: seq<byte>)
    requires i <= |hops|
    ensures Unwrap(hops[..i], Wrap(hops, data)) == Wrap(hops[i..], data)
  {
    if i == 0 {
      assert hops[i..] == hops;
    } else {
      MaskUndoesItself(hops[0], Wrap(hops[1..], data));
      PeelPrefix(hops[1..], i - 1, data);
      assert hops[..i][1..] == hops[1..][..i - 1];
      assert hops[1..][i - 1..] == hops[i..];
    }
  }

  lemma AdvanceAllAdds(hops: seq<Cipher>, m: nat, n: nat)
    ensures AdvanceAll(AdvanceAll(hops, m), n) == AdvanceAll(hops, m + n)
    ensures AdvanceAll(hops, 0) == hops
  {
  }

  // ----- layers as one pad --------------------------------------------------------------------

  /** The keystream byte a cipher applies to byte x of the next buffer. */
  function KeyByte(c: Cipher, x: nat): byte {
    match c
    case NoCipher => 0
    case Stream(key, pos) => key(pos + x)
  }

  /** The exclusive-or of the keystream bytes of all ciphers. */
  function Pad(cs: seq<Cipher>, x: nat): byte {
    if cs == [] then 0 else Xor(KeyByte(cs[0], x), Pad(cs[1..], x))
  }

  lemma MaskIsXor(c: Cipher, data: seq<byte>, x: nat)
    requires x < |data|
    ensures Mask(c, data)[x] == Xor(data[x], KeyByte(c, x))
  {
    XorLaws(data[x], 0, 0);
  }

  lemma {:induction false} WrapIsXor(cs: seq<Cipher>, data: seq<byte>, x: nat)
    requires x < |data|
    ensures Wrap(cs, data)[x] == Xor(data[x], Pad(cs, x))
  {
    if cs == [] {
      XorLaws(data[x], 0, 0);
    } else {
      WrapIsXor(cs[1..], data, x);
      MaskIsXor(cs[0], Wrap(cs[1..], data), x);
      XorLaws(data[x], Pad(cs[1..], x), KeyByte(cs[0], x));
      XorLaws(Pad(cs[1..], x), KeyByte(cs[0], x), 0);
    }
  }

  lemma {:induction false} UnwrapIsXor(cs: seq<Cipher>, data: seq<byte>, x: nat)
    requires x < |data|
    ensures Unwrap(cs, data)[x] == Xor(data[x], Pad(cs, x))
  {
    if cs == [] {
      XorLaws(data[x], 0, 0);
    } else {
      MaskIsXor(cs[0], data, x);
      UnwrapIsXor(cs[1..], Mask(cs[0], data), x);
      XorLaws(data[x], KeyByte(cs[0], x), Pad(cs[1..], x));
    }
  }

  /** The two pads agree on the first n bytes. */
  ghost predicate PadsAgree(a: seq<Cipher>, b: seq<Cipher>, n: nat) {
    forall x :: 0 <= x < n ==> Pad(a, x) == Pad(b, x)
  }

  lemma CancelsIff(a: byte, b: byte, d: byte)
    ensures Xor(d, Xor(a, b)) == d <==> a == b
  {
    XorLaws(a, b, b);
    XorLaws(d, d, Xor(a, b));
    XorLaws(Xor(a, b), 0, 0);
    XorLaws(b, 0, 0);
    XorLaws(0, b, 0);
    XorLaws(0, Xor(a, b), 0);
  }

  /** For any sender and receiver ciphers, in step or not: a payload comes through exactly when the
      two pads agree over its length, whatever its bytes are. */
  lemma ComesThroughIff(sender: seq<Cipher>, receivers: seq<Cipher>, payload: seq<byte>)
    ensures Unwrap(receivers, Wrap(sender, payload)) == payload <==> PadsAgree(sender, receivers, |payload|)
  {
    var wire := Wrap(sender, payload);
    var got := Unwrap(receivers, wire);
    forall x | 0 <= x < |payload|
      ensures got[x] == payload[x] <==> Pad(sender, x) == Pad(receivers, x)
    {
      var a, b, d := Pad(sender, x), Pad(receivers, x), payload[x];
      WrapIsXor(sender, payload, x);
      UnwrapIsXor(receivers, wire, x);
      XorLaws(d, a, b);
      CancelsIff(a, b, d);
    }
  }

  lemma {:induction false} PadAppends(a: seq<Cipher>, b: seq<Cipher>, x: nat)
    ensures Pad(a + b, x) == Xor(Pad(a, x), Pad(b, x))
  {
    if a == [] {
      assert a + b == b;
      XorLaws(0, Pad(b, x), 0);
      XorLaws(Pad(b, x), 0, 0);
    } else {
      assert (a + b)[1..] == a[1..] + b;
      PadAppends(a[1..], b, x);
      XorLaws(KeyByte(a[0], x), Pad(a[1..], x), Pad(b, x));
    }
  }

  // ----- the circuit's own ciphers ------------------------------------------------------------

  class CipherStream {
    const key: KeyStream
    var pos: nat

    constructor (key: KeyStream)
      ensures this.key == key && pos == 0
    {
      this.key := key;
      pos := 0;
    }

    method XORKeyStream(buf: array<byte>)
      modifies this, buf
      ensures buf[..] == Mask(Stream(key, old(pos)), old(buf[..]))
      ensures forall i :: 0 <= i < buf.Length ==> buf[i] == Xor(old(buf[i]), key(old(pos) + i))
      ensures pos == old(pos) + buf.Length
    {
      ghost var before := buf[..];
      for i := 0 to buf.Length
        invariant pos == old(pos)
        invariant forall j :: 0 <= j < i ==> buf[j] == Xor(before[j], key(pos + j))
        invariant forall j :: i <= j < buf.Length ==> buf[j] == before[j]
      {
        buf[i] := Xor(buf[i], key(pos + i));
      }
      pos := pos + buf.Length;
    }
  }

  datatype Hop = Hop(forwardCipher: CipherStream?, backwardCipher: CipherStream?)

  ghost function Snapshot(c: CipherStream?): Cipher
    reads c
  {
    if c == null then NoCipher else Stream(c.key, c.pos)
  }

  /** One hop of either loop: a nil cipher leaves the buffer alone. */
  method ApplyCipher(cipher: CipherStream?, buf: array<byte>)
    modifies cipher, buf
    ensures buf[..] == Mask(old(Snapshot(cipher)), old(buf[..]))
    ensures Snapshot(cipher) == Advance(old(Snapshot(cipher)), buf.Length)
  {
    if cipher != null {
      cipher.XORKeyStream(buf);
    }
  }

  ghost function SnapshotAll(cs: seq<CipherStream?>): (r: seq<Cipher>)
    reads cs
    ensures |r| == |cs| && forall i :: 0 <= i < |cs| ==> r[i] == Snapshot(cs[i])
  {
    if cs == [] then [] else [Snapshot(cs[0])] + SnapshotAll(cs[1..])
  }

  /** How many of the hops hold the object c. */
  ghost function Uses(cs: seq<CipherStream?>, c: CipherStream?): nat {
    if cs == [] then 0 else (if cs[0] == c then 1 else 0) + Uses(cs[1..], c)
  }

  lemma {:induction false} UsesAppends(cs: seq<CipherStream?>, d: CipherStream?, c: CipherStream?)
    ensures Uses(cs + [d], c) == Uses(cs, c) + if d == c then 1 else 0
  {
    if cs == [] {
      assert (cs + [d])[1..] == [];
    } else {
      assert (cs + [d])[1..] == cs[1..] + [d];
      UsesAppends(cs[1..], d, c);
    }
  }

  /** The ciphers after n bytes have passed through each of the hops done: an object that several
      of them hold has moved on several times. */
  ghost function AdvancedBy(cs: seq<CipherStream?>, was: seq<Cipher>, n: nat, done: seq<CipherStream?>)
    : (r: seq<Cipher>)
    requires |was| == |cs|
    ensures |r| == |cs|
  {
    seq(|cs|, j requires 0 <= j < |cs| => Advance(was[j], n * Uses(done, cs[j])))
  }

  /** The ciphers after one more pass through the object c. */
  ghost function Bumped(cs: seq<CipherStream?>, was: seq<Cipher>, n: nat, c: CipherStream?): (r: seq<Cipher>)
    requires |was| == |cs|
    ensures |r| == |cs|
  {
    seq(|cs|, j requires 0 <= j < |cs| => if cs[j] == c then Advance(was[j], n) else was[j])
  }

  lemma OneMorePass(c: Cipher, n: nat, uses: nat)
    ensures Advance(Advance(c, n * uses), n) == Advance(c, n * (uses + 1))
  {
    assert n * (uses + 1) == n * uses + n;
  }

  lemma BumpFront(cs: seq<CipherStream?>, was: seq<Cipher>, n: nat, done: seq<CipherStream?>, c: CipherStream?)
    requires |was| == |cs|
    ensures Bumped(cs, AdvancedBy(cs, was, n, done), n, c) == AdvancedBy(cs, was, n, [c] + done)
  {
    assert ([c] + done)[1..] == done;
    forall j | 0 <= j < |cs|
      ensures Bumped(cs, AdvancedBy(cs, was, n, done), n, c)[j] == AdvancedBy(cs, was, n, [c] + done)[j]
    {
      OneMorePass(was[j], n, Uses(done, cs[j]));
    }
  }

  lemma BumpBack(cs: seq<CipherStream?>, was: seq<Cipher>, n: nat, done: seq<CipherStream?>, c: CipherStream?)
    requires |was| == |cs|
    ensures Bumped(cs, AdvancedBy(cs, was, n, done), n, c) == AdvancedBy(cs, was, n, done + [c])
  {
    forall j | 0 <= j < |cs|
      ensures Bumped(cs, AdvancedBy(cs, was, n, done), n, c)[j] == AdvancedBy(cs, was, n, done + [c])[j]
    {
      UsesAppends(done, c, cs[j]);
      OneMorePass(was[j], n, Uses(done, cs[j]));
    }
  }

  /** Before the first pass no cipher has moved. */
  lemma NothingDone(cs: seq<CipherStream?>, was: seq<Cipher>, n: nat)
    requires |was| == |cs|
    ensures AdvancedBy(cs, was, n, []) == was
  {
    forall j | 0 <= j < |cs|
      ensures AdvancedBy(cs, was, n, [])[j] == was[j]
    {
      assert n * 0 == 0;
    }
  }

  /** One hop of a loop over all ciphers: exactly the hops that hold the same object move on. */
  method ApplyAt(cs: seq<CipherStream?>, i: nat, buf: array<byte>)
    requires i < |cs|
    modifies cs[i], buf
    ensures buf[..] == Mask(old(SnapshotAll(cs))[i], old(buf[..]))
    ensures SnapshotAll(cs) == Bumped(cs, old(SnapshotAll(cs)), buf.Length, cs[i])
  {
    ghost var was := SnapshotAll(cs);
    ApplyCipher(cs[i], buf);
    forall j | 0 <= j < |cs|
      ensures SnapshotAll(cs)[j] == Bumped(cs, was, buf.Length, cs[i])[j]
    {
    }
  }

  /** The ciphers as the loop from last to first finds them, hop by hop: an object shared with
      later hops has already moved on. */
  ghost function UsedFromLast(cs: seq<CipherStream?>, was: seq<Cipher>, n: nat): (r: seq<Cipher>)
    requires |was| == |cs|
    ensures |r| == |cs|
  {
    seq(|cs|, i requires 0 <= i < |cs| => AdvancedBy(cs, was, n, cs[i + 1..])[i])
  }

  /** The same for the loop from first to last. */
  ghost function UsedFromFirst(cs: seq<CipherStream?>, was: seq<Cipher>, n: nat): (r: seq<Cipher>)
    requires |was| == |cs|
    ensures |r| == |cs|
  {
    seq(|cs|, i requires 0 <= i < |cs| => AdvancedBy(cs, was, n, cs[..i])[i])
  }

  /** What the two loops have made of the payload with the hops from i on, and before i. */
  ghost function WrappedFrom(cs: seq<CipherStream?>, was: seq<Cipher>, payload: seq<byte>, i: nat): seq<byte>
    requires |was| == |cs| && i <= |cs|
  {
    Wrap(UsedFromLast(cs, was, |payload|)[i..], payload)
  }

  ghost function UnwrappedUpTo(cs: seq<CipherStream?>, was: seq<Cipher>, payload: seq<byte>, i: nat): seq<byte>
    requires |was| == |cs| && i <= |cs|
  {
    Unwrap(UsedFromFirst(cs, was, |payload|)[..i], payload)
  }

  lemma WrappedOneMore(cs: seq<CipherStream?>, was: seq<Cipher>, payload: seq<byte>, i: nat)
    requires |was| == |cs| && i < |cs|
    ensures WrappedFrom(cs, was, payload, i)
         == Mask(AdvancedBy(cs, was, |payload|, cs[i + 1..])[i], WrappedFrom(cs, was, payload, i + 1))
    ensures AdvancedBy(cs, was, |payload|, cs[i..])
         == Bumped(cs, AdvancedBy(cs, was, |payload|, cs[i + 1..]), |payload|, cs[i])
  {
    BumpFront(cs, was, |payload|, cs[i + 1..], cs[i]);
    assert cs[i..] == [cs[i]] + cs[i + 1..];
    var used := UsedFromLast(cs, was, |payload|);
    assert used[i..][1..] == used[i + 1..];
  }

  lemma UnwrappedOneMore(cs: seq<CipherStream?>, was: seq<Cipher>, payload: seq<byte>, i: nat)
    requires |was| == |cs| && i < |cs|
    ensures UnwrappedUpTo(cs, was, payload, i + 1)
         == Mask(AdvancedBy(cs, was, |payload|, cs[..i])[i], UnwrappedUpTo(cs, was, payload, i))
    ensures AdvancedBy(cs, was, |payload|, cs[..i + 1])
         == Bumped(cs, AdvancedBy(cs, was, |payload|, cs[..i]), |payload|, cs[i])
  {
    BumpBack(cs, was, |payload|, cs[..i], cs[i]);
    assert cs[..i + 1] == cs[..i] + [cs[i]];
    UnwrapOneMore(UsedFromFirst(cs, was, |payload|), i, payload);
  }

  lemma UnwrappedEnds(cs: seq<CipherStream?>, was: seq<Cipher>, payload: seq<byte>)
    requires |was| == |cs|
    ensures cs[..0] == [] && UnwrappedUpTo(cs, was, payload, 0) == payload
    ensures cs[..|cs|] == cs
    ensures UnwrappedUpTo(cs, was, payload, |cs|) == Unwrap(UsedFromFirst(cs, was, |payload|), payload)
  {
    var used := UsedFromFirst(cs, was, |payload|);
    assert used[..|cs|] == used;
  }

  /** The loop of `encryptForward`: last hop to first. */
  method MaskLastToFirst(cs: seq<CipherStream?>, buf: array<byte>)
    modifies cs, buf
    ensures buf[..] == Wrap(UsedFromLast(cs, old(SnapshotAll(cs)), buf.Length), old(buf[..]))
    ensures SnapshotAll(cs) == AdvancedBy(cs, old(SnapshotAll(cs)), buf.Length, cs)
  {
    ghost var was, payload := SnapshotAll(cs), buf[..];
    var i := |cs|;
    NothingDone(cs, was, buf.Length);
    while i > 0
      invariant 0 <= i <= |cs|
      invariant buf[..] == WrappedFrom(cs, was, payload, i)
      invariant SnapshotAll(cs) == AdvancedBy(cs, was, buf.Length, cs[i..])
    {
      i := i - 1;
      WrappedOneMore(cs, was, payload, i);
      ApplyAt(cs, i, buf);
    }
    assert UsedFromLast(cs, was, buf.Length)[0..] == UsedFromLast(cs, was, buf.Length) && cs[0..] == cs;
  }

  /** The loop of `decryptBackward`: first hop to last. */
  method MaskFirstToLast(cs: seq<CipherStream?>, buf: array<byte>)
    modifies cs, buf
    ensures buf[..] == Unwrap(UsedFromFirst(cs, old(SnapshotAll(cs)), buf.Length), old(buf[..]))
    ensures SnapshotAll(cs) == AdvancedBy(cs, old(SnapshotAll(cs)), buf.Length, cs)
  {
    ghost var was, payload := SnapshotAll(cs), buf[..];
    NothingDone(cs, was, buf.Length);
    UnwrappedEnds(cs, was, payload);
    for i := 0 to |cs|
      invariant buf[..] == UnwrappedUpTo(cs, was, payload, i)
      invariant SnapshotAll(cs) == AdvancedBy(cs, was, buf.Length, cs[..i])
    {
      UnwrappedOneMore(cs, was, payload, i);
      ApplyAt(cs, i, buf);
    }
  }

  /** No two hops share a cipher object. */
  ghost predicate Separate(cs: seq<CipherStream?>) {
    forall i, j :: 0 <= i < j < |cs| && cs[i] != null ==> cs[i] != cs[j]
  }

  lemma {:induction false} UnusedElsewhere(cs: seq<CipherStream?>, c: CipherStream?)
    requires c !in cs
    ensures Uses(cs, c) == 0
  {
    if cs != [] {
      UnusedElsewhere(cs[1..], c);
    }
  }

  lemma {:induction false} UsesSplit(a: seq<CipherStream?>, b: seq<CipherStream?>, c: CipherStream?)
    ensures Uses(a + b, c) == Uses(a, c) + Uses(b, c)
  {
    if a == [] {
      assert a + b == b;
    } else {
      assert (a + b)[1..] == a[1..] + b;
      UsesSplit(a[1..], b, c);
    }
  }

  /** A cipher object of its own is used by its own hop only. */
  lemma UsedOnce(cs: seq<CipherStream?>, i: nat)
    requires i < |cs| && Separate(cs) && cs[i] != null
    ensures Uses(cs[..i], cs[i]) == 0 && Uses(cs[i + 1..], cs[i]) == 0 && Uses(cs, cs[i]) == 1
  {
    UnusedElsewhere(cs[..i], cs[i]);
    UnusedElsewhere(cs[i + 1..], cs[i]);
    UsesSplit(cs[..i], cs[i..], cs[i]);
    assert cs[..i] + cs[i..] == cs && cs[i..][1..] == cs[i + 1..];
  }

  /** When every hop has its own cipher, each is used once, from where it stands. */
  lemma SeparateMeansOnce(cs: seq<CipherStream?>, was: seq<Cipher>, n: nat)
    requires |was| == |cs| && Separate(cs)
    requires forall i :: 0 <= i < |cs| && cs[i] == null ==> was[i] == NoCipher
    ensures UsedFromLast(cs, was, n) == was && UsedFromFirst(cs, was, n) == was
    ensures AdvancedBy(cs, was, n, cs) == AdvanceAll(was, n)
  {
    forall i | 0 <= i < |cs|
      ensures UsedFromLast(cs, was, n)[i] == was[i] && UsedFromFirst(cs, was, n)[i] == was[i]
      ensures AdvancedBy(cs, was, n, cs)[i] == Advance(was[i], n)
    {
      if cs[i] != null {
        UsedOnce(cs, i);
        assert n * 0 == 0 && n * 1 == n;
      }
    }
  }

  class Circuit {
    var hops: seq<Hop>

    function ForwardCiphers(): (r: seq<CipherStream?>)
      reads this
    {
      seq(|hops|, i requires 0 <= i < |hops| reads this => hops[i].forwardCipher)
    }

    function BackwardCiphers(): (r: seq<CipherStream?>)
      reads this
    {
      seq(|hops|, i requires 0 <= i < |hops| reads this => hops[i].backwardCipher)
    }

    method EncryptForward(payload: seq<byte>) returns (encrypted: seq<byte>)
      modifies ForwardCiphers()
      ensures ForwardCiphers() == old(ForwardCiphers())
      ensures var cs, was, n := ForwardCiphers(), old(SnapshotAll(ForwardCiphers())), |payload|;
              && encrypted == Wrap(UsedFromLast(cs, was, n), payload)
              && SnapshotAll(cs) == AdvancedBy(cs, was, n, cs)
              && (Separate(cs) ==> encrypted == Wrap(was, payload) && SnapshotAll(cs) == AdvanceAll(was, n))
    {
      var buf := new byte[|payload|](i requires 0 <= i < |payload| => payload[i]);
      assert buf[..] == payload;
      var cs := ForwardCiphers();
      ghost var was := SnapshotAll(cs);
      if Separate(cs) {
        SeparateMeansOnce(cs, was, |payload|);
      }
      MaskLastToFirst(cs, buf);
      encrypted := buf[..];
    }

    method DecryptBackward(payload: seq<byte>) returns (decrypted: seq<byte>)
      modifies BackwardCiphers()
      ensures BackwardCiphers() == old(BackwardCiphers())
      ensures var cs, was, n := BackwardCiphers(), old(SnapshotAll(BackwardCiphers())), |payload|;
              && decrypted == Unwrap(UsedFromFirst(cs, was, n), payload)
              && SnapshotAll(cs) == AdvancedBy(cs, was, n, cs)
              && (Separate(cs) ==> decrypted == Unwrap(was, payload) && SnapshotAll(cs) == AdvanceAll(was, n))
    {
      var buf := new byte[|payload|](i requires 0 <= i < |payload| => payload[i]);
      assert buf[..] == payload;
      var cs := BackwardCiphers();
      ghost var was := SnapshotAll(cs);
      if Separate(cs) {
        SeparateMeansOnce(cs, was, |payload|);
      }
      MaskFirstToLast(cs, buf);
      decrypted := buf[..];
    }
  }
}
