/** Runs in which a send fails, cells overtake each other, or two senders interleave, and the cell that
    comes out is readable only if a keystream repeats itself (pkg/circuit/circuit.go). */
module OnionMishaps {
  import opened Bytes
  import opened OnionLayers
  import opened OnionQueues
  import opened OnionRuns

  // ----- short runs ---------------------------------------------------------------------------

  /** The event takes w to v. */
  ghost predicate Goes(w: World, e: Event, v: World) {
    Enabled(w, e) && Step(w, e) == v
  }

  /** The run passes through these worlds. */
  ghost predicate Through(ws: seq<World>, run: seq<Event>) {
    |ws| == |run| + 1 && forall k: nat :: k < |run| ==> Goes(ws[k], run[k], ws[k + 1])
  }

  /** The run takes w to v. */
  ghost predicate Takes(w: World, run: seq<Event>, v: World) {
    exists ws :: Through(ws, run) && ws[0] == w && ws[|run|] == v
  }

  lemma {:induction false} RunsThrough(ws: seq<World>, run: seq<Event>)
    requires Through(ws, run)
    ensures IsRun(ws[0], run) && Final(ws[0], run) == ws[|run|]
    decreases |run|
  {
    if run != [] {
      assert Goes(ws[0], run[0], ws[1]);
      forall k: nat | k < |run[1..]|
        ensures Goes(ws[1..][k], run[1..][k], ws[1..][k + 1])
      {
        assert Goes(ws[k + 1], run[k + 1], ws[k + 2]);
      }
      RunsThrough(ws[1..], run[1..]);
    }
  }

  lemma TakenLeads(hops: seq<Cipher>, run: seq<Event>, w: World)
    requires Takes(Start(hops, hops), run, w)
    ensures Leads(hops, hops, run, w)
  {
    var ws :| Through(ws, run) && ws[0] == Start(hops, hops) && ws[|run|] == w;
    RunsThrough(ws, run);
  }

  lemma TakesOne(w: World, e: Event, v: World)
    requires Goes(w, e, v)
    ensures Takes(w, [e], v)
  {
    assert Through([w, v], [e]);
  }

  lemma TakesBoth(w: World, r1: seq<Event>, v: World, r2: seq<Event>, u: World)
    requires Takes(w, r1, v) && Takes(v, r2, u)
    ensures Takes(w, r1 + r2, u)
  {
    var ws :| Through(ws, r1) && ws[0] == w && ws[|r1|] == v;
    var vs :| Through(vs, r2) && vs[0] == v && vs[|r2|] == u;
    var all, run := ws[..|r1|] + vs, r1 + r2;
    forall k: nat | k < |run|
      ensures Goes(all[k], run[k], all[k + 1])
    {
      if k < |r1| {
        assert Goes(ws[k], r1[k], ws[k + 1]);
      } else {
        assert Goes(vs[k - |r1|], r2[k - |r1|], vs[k - |r1| + 1]);
      }
    }
    assert Through(all, run);
  }

  /** Beginning and encrypting a cell of one hop. */
  lemma Encrypted(w: World, payload: seq<byte>, j: nat) returns (v: World)
    requires |w.sender| == |w.made| == 1 && j == |w.hand|
    ensures Takes(w, [Begin(payload)] + [EncryptHop(j)], v)
    ensures v.hand == w.hand + [Layer(InHand(payload, payload, []), w.sender[0], w.made[0])]
    ensures v.made == [w.made[0] + |payload|] && |v.sender| == 1
    ensures v.stages == w.stages && v.queues == w.queues && v.sent == w.sent && v.failed == w.failed
  {
    var c := InHand(payload, payload, []);
    var w1 := Step(w, Begin(payload));
    assert w1.hand[j] == c;
    v := Step(w1, EncryptHop(j));
    assert v.hand == w1.hand[j := Layer(c, w.sender[0], w.made[0])];
    TakesOne(w, Begin(payload), w1);
    TakesOne(w1, EncryptHop(j), v);
    TakesBoth(w, [Begin(payload)], w1, [EncryptHop(j)], v);
  }

  /** Handing over a finished cell and carrying it over a path of one hop. */
  lemma Crosses(w: World, j: nat) returns (v: World)
    requires |w.sender| == |w.stages| == 1 && w.queues == [[], []] && w.sent == []
    requires j < |w.hand| && |w.hand[j].ats| == 1
    ensures Takes(w, [HandOver(j)] + [Process(0)], v)
    ensures |Output(v)| == 1 && v.sent == [Sent(w.hand[j].payload, w.hand[j].ats, w.failed)]
  {
    var w1 := Step(w, HandOver(j));
    assert [] + [w.hand[j].wire] == [w.hand[j].wire];
    assert w1.queues == [[w.hand[j].wire], []];
    v := Step(w1, Process(0));
    assert |v.queues| == 2 && |v.queues[1]| == 1;
    TakesOne(w, HandOver(j), w1);
    TakesOne(w1, Process(0), v);
    TakesBoth(w, [HandOver(j)], w1, [Process(0)], v);
  }

  lemma Fails(w: World) returns (v: World)
    requires |w.hand| == 1 && |w.hand[0].ats| == |w.sender|
    ensures Takes(w, [SendFails(0)], v)
    ensures v == w.(hand := [], failed := w.failed + |w.hand[0].payload|)
  {
    v := Step(w, SendFails(0));
    assert Without(w.hand, 0) == [];
    TakesOne(w, SendFails(0), v);
  }

  // ----- keystreams that repeat ---------------------------------------------------------------

  /** The keystream has the same n bytes at p and at q. */
  ghost predicate Repeats(key: KeyStream, p: nat, q: nat, n: nat) {
    forall x: nat :: x < n ==> KeyByte(Stream(key, p), x) == KeyByte(Stream(key, q), x)
  }

  lemma FirstStreamDecides(key: KeyStream, p: nat, q: nat, rest: seq<Cipher>, n: nat)
    ensures PadsAgree([Stream(key, p)] + rest, [Stream(key, q)] + rest, n) <==> Repeats(key, p, q, n)
  {
    assert ([Stream(key, p)] + rest)[1..] == rest && ([Stream(key, q)] + rest)[1..] == rest;
    forall x: nat
      ensures Pad([Stream(key, p)] + rest, x) == Pad([Stream(key, q)] + rest, x) <==>
              KeyByte(Stream(key, p), x) == KeyByte(Stream(key, q), x)
    {
      XorInjective(KeyByte(Stream(key, p), x), KeyByte(Stream(key, q), x), Pad(rest, x));
    }
  }

  // ----- a failed send ------------------------------------------------------------------------

  lemma OneCellOut(key: KeyStream, p: nat, run: seq<Event>, w: World, payload: seq<byte>, at: nat, failed: nat)
    requires Leads([Stream(key, p)], [Stream(key, p)], run, w)
    requires |Output(w)| == 1 && w.sent == [Sent(payload, [at], failed)]
    ensures Output(w)[0] == payload <==> Repeats(key, p + at, p, |payload|)
  {
    var hops := [Stream(key, p)];
    ComesOutIff(hops, hops, run, w, 0);
    assert AdvanceEach(hops, [at]) == [Stream(key, p + at)] + [];
    AdvanceAllAdds(hops, 0, 0);
    assert SentBytes(w.sent, 0) == 0 && hops == hops + [];
    FirstStreamDecides(key, p + at, p, [], |payload|);
  }

  function FailedSend(a: seq<byte>, b: seq<byte>): seq<Event> {
    [Begin(a)] + [EncryptHop(0)] + [SendFails(0)] + ([Begin(b)] + [EncryptHop(0)]) + ([HandOver(0)] + [Process(0)])
  }

  lemma FailedSendRun(hops: seq<Cipher>, a: seq<byte>, b: seq<byte>) returns (w: World)
    requires |hops| == 1
    ensures Takes(Start(hops, hops), FailedSend(a, b), w)
    ensures |Output(w)| == 1 && w.sent == [Sent(b, [|a|], |a|)]
  {
    var w0 := Start(hops, hops);
    assert w0.queues == [[], []] && w0.made == [0];
    var w1 := Encrypted(w0, a, 0);
    var w2 := Fails(w1);
    var w3 := Encrypted(w2, b, 0);
    assert w3.hand[0].ats == [|a|];
    w := Crosses(w3, 0);
    var r1, r2 := [Begin(a)] + [EncryptHop(0)], [Begin(b)] + [EncryptHop(0)];
    TakesBoth(w0, r1, w1, [SendFails(0)], w2);
    TakesBoth(w0, r1 + [SendFails(0)], w2, r2, w3);
    TakesBoth(w0, r1 + [SendFails(0)] + r2, w3, [HandOver(0)] + [Process(0)], w);
  }

  /** With one hop, after a failed send of a, the next cell b comes out as its payload exactly when the
      keystream repeats itself |a| bytes further on. */
  lemma FailedSendGarblesUnless(key: KeyStream, p: nat, a: seq<byte>, b: seq<byte>) returns (w: World)
    ensures Leads([Stream(key, p)], [Stream(key, p)], FailedSend(a, b), w)
    ensures |Output(w)| == 1
    ensures Output(w)[0] == b <==> Repeats(key, p + |a|, p, |b|)
  {
    w := FailedSendRun([Stream(key, p)], a, b);
    TakenLeads([Stream(key, p)], FailedSend(a, b), w);
    OneCellOut(key, p, FailedSend(a, b), w, b, |a|, |a|);
  }

  // ----- overtaking ---------------------------------------------------------------------------

  function Overtaking(a: seq<byte>, b: seq<byte>): seq<Event> {
    [Begin(a)] + [EncryptHop(0)] + ([Begin(b)] + [EncryptHop(1)]) + ([HandOver(1)] + [Process(0)])
  }

  lemma OvertakingRun(hops: seq<Cipher>, a: seq<byte>, b: seq<byte>) returns (w: World)
    requires |hops| == 1
    ensures Takes(Start(hops, hops), Overtaking(a, b), w)
    ensures |Output(w)| == 1 && w.sent == [Sent(b, [|a|], 0)]
  {
    var w0 := Start(hops, hops);
    assert w0.queues == [[], []] && w0.made == [0];
    var w1 := Encrypted(w0, a, 0);
    var w2 := Encrypted(w1, b, 1);
    assert w2.hand[1].ats == [|a|] && w2.hand[1].payload == b;
    w := Crosses(w2, 1);
    var r1, r2 := [Begin(a)] + [EncryptHop(0)], [Begin(b)] + [EncryptHop(1)];
    TakesBoth(w0, r1, w1, r2, w2);
    TakesBoth(w0, r1 + r2, w2, [HandOver(1)] + [Process(0)], w);
  }

  /** When b is encrypted after a but handed over before it, b comes out as its payload exactly when
      the keystream repeats itself. */
  lemma OvertakingGarblesUnless(key: KeyStream, p: nat, a: seq<byte>, b: seq<byte>) returns (w: World)
    ensures Leads([Stream(key, p)], [Stream(key, p)], Overtaking(a, b), w)
    ensures |Output(w)| == 1
    ensures Output(w)[0] == b <==> Repeats(key, p + |a|, p, |b|)
  {
    w := OvertakingRun([Stream(key, p)], a, b);
    TakenLeads([Stream(key, p)], Overtaking(a, b), w);
    OneCellOut(key, p, Overtaking(a, b), w, b, |a|, 0);
  }

  // ----- two senders inside the encryption loop -----------------------------------------------

  lemma TwoBegun(w: World, a: seq<byte>, b: seq<byte>) returns (v: World)
    requires w.hand == []
    ensures Takes(w, [Begin(a)] + [Begin(b)], v)
    ensures v == w.(hand := [InHand(a, a, []), InHand(b, b, [])])
  {
    var w1 := Step(w, Begin(a));
    assert w1.hand == [InHand(a, a, [])];
    v := Step(w1, Begin(b));
    assert v.hand == [InHand(a, a, []), InHand(b, b, [])];
    TakesOne(w, Begin(a), w1);
    TakesOne(w1, Begin(b), v);
    TakesBoth(w, [Begin(a)], w1, [Begin(b)], v);
  }

  /** One cell of two gets its next layer. */
  lemma LayerAdded(w: World, j: nat, i: nat) returns (v: World)
    requires |w.sender| == |w.made| == |w.hand| == 2 && j < 2 && i + 1 + |w.hand[j].ats| == 2
    ensures Takes(w, [EncryptHop(j)], v)
    ensures |v.sender| == |v.made| == |v.hand| == 2 && v.hand[1 - j] == w.hand[1 - j]
    ensures v.hand[j].payload == w.hand[j].payload && v.hand[j].ats == [w.made[i]] + w.hand[j].ats
    ensures |v.hand[j].wire| == |w.hand[j].wire|
    ensures v.made[i] == w.made[i] + |w.hand[j].wire| && v.made[1 - i] == w.made[1 - i]
    ensures v.stages == w.stages && v.queues == w.queues && v.sent == w.sent && v.failed == w.failed
  {
    v := Step(w, EncryptHop(j));
    TakesOne(w, EncryptHop(j), v);
  }

  function TwoLoops(): seq<Event> {
    [EncryptHop(0)] + [EncryptHop(1)] + [EncryptHop(1)] + [EncryptHop(0)]
  }

  /** Cell a gets the layer of the second hop before cell b, and that of the first hop after it. */
  lemma Interleaved(w: World, a: seq<byte>, b: seq<byte>) returns (v: World)
    requires |w.sender| == 2 && w.made == [0, 0] && w.hand == [InHand(a, a, []), InHand(b, b, [])]
    ensures Takes(w, TwoLoops(), v)
    ensures |v.sender| == |v.hand| == 2 && v.hand[0].payload == a && v.hand[0].ats == [|b|, 0]
    ensures v.stages == w.stages && v.queues == w.queues && v.sent == w.sent && v.failed == w.failed
  {
    var w1 := LayerAdded(w, 0, 1);
    var w2 := LayerAdded(w1, 1, 1);
    var w3 := LayerAdded(w2, 1, 0);
    v := LayerAdded(w3, 0, 0);
    TakesBoth(w, [EncryptHop(0)], w1, [EncryptHop(1)], w2);
    TakesBoth(w, [EncryptHop(0)] + [EncryptHop(1)], w2, [EncryptHop(1)], w3);
    TakesBoth(w, [EncryptHop(0)] + [EncryptHop(1)] + [EncryptHop(1)], w3, [EncryptHop(0)], v);
  }

  /** The oldest cell is handed over and carried over a path of two hops. */
  lemma CrossesTwo(w: World) returns (v: World)
    requires |w.sender| == |w.stages| == 2 && w.queues == [[], [], []] && w.sent == []
    requires w.hand != [] && |w.hand[0].ats| == 2
    ensures Takes(w, [HandOver(0)] + [Process(0)] + [Process(1)], v)
    ensures |Output(v)| == 1 && v.sent == [Sent(w.hand[0].payload, w.hand[0].ats, w.failed)]
  {
    var w1 := Step(w, HandOver(0));
    assert [] + [w.hand[0].wire] == [w.hand[0].wire];
    assert w1.queues == [[w.hand[0].wire], [], []];
    var w2 := Step(w1, Process(0));
    assert |w2.queues| == 3 && |w2.queues[1]| == 1 && w2.queues[2] == [];
    v := Step(w2, Process(1));
    assert |v.queues| == 3 && |v.queues[2]| == 1;
    TakesOne(w, HandOver(0), w1);
    TakesOne(w1, Process(0), w2);
    TakesOne(w2, Process(1), v);
    TakesBoth(w, [HandOver(0)], w1, [Process(0)], w2);
    TakesBoth(w, [HandOver(0)] + [Process(0)], w2, [Process(1)], v);
  }

  function Interleaving(a: seq<byte>, b: seq<byte>): seq<Event> {
    [Begin(a)] + [Begin(b)] + TwoLoops() + ([HandOver(0)] + [Process(0)] + [Process(1)])
  }

  lemma InterleavingRun(hops: seq<Cipher>, a: seq<byte>, b: seq<byte>) returns (w: World)
    requires |hops| == 2
    ensures Takes(Start(hops, hops), Interleaving(a, b), w)
    ensures |Output(w)| == 1 && w.sent == [Sent(a, [|b|, 0], 0)]
  {
    var w0 := Start(hops, hops);
    assert w0.queues == [[], [], []] && w0.made == [0, 0];
    var w1 := TwoBegun(w0, a, b);
    var w2 := Interleaved(w1, a, b);
    w := CrossesTwo(w2);
    TakesBoth(w0, [Begin(a)] + [Begin(b)], w1, TwoLoops(), w2);
    TakesBoth(w0, [Begin(a)] + [Begin(b)] + TwoLoops(), w2, [HandOver(0)] + [Process(0)] + [Process(1)], w);
  }

  lemma FirstOfTwo(key: KeyStream, p: nat, c: Cipher, sent: seq<Sent>, a: seq<byte>, n: nat)
    requires sent == [Sent(a, [n, 0], 0)]
    ensures KeysMeet([Stream(key, p), c], [Stream(key, p), c], sent, 0) <==> Repeats(key, p + n, p, |a|)
  {
    var hops := [Stream(key, p), c];
    assert AdvanceEach(hops, [n, 0]) == [Stream(key, p + n)] + [c];
    AdvanceAllAdds(hops, 0, 0);
    assert SentBytes(sent, 0) == 0 && hops == [Stream(key, p)] + [c];
    FirstStreamDecides(key, p + n, p, [c], |a|);
  }

  /** Two senders that interleave inside the loop over two hops: the first cell handed over has no
      single position, and comes out as its payload exactly when the first hop's keystream repeats
      itself after the bytes of the other cell. */
  lemma InterleavingGarblesUnless(key: KeyStream, p: nat, c: Cipher, a: seq<byte>, b: seq<byte>) returns (w: World)
    ensures Leads([Stream(key, p), c], [Stream(key, p), c], Interleaving(a, b), w)
    ensures |Output(w)| == 1
    ensures Output(w)[0] == a <==> Repeats(key, p + |b|, p, |a|)
  {
    var hops := [Stream(key, p), c];
    w := InterleavingRun(hops, a, b);
    TakenLeads(hops, Interleaving(a, b), w);
    ComesOutIff(hops, hops, Interleaving(a, b), w, 0);
    FirstOfTwo(key, p, c, w.sent, a, |b|);
  }
}
