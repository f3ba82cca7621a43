/** Runs of relay cells over a path (pkg/circuit/circuit.go: SendRelayCell). */
module OnionRuns {
  import opened Bytes
  import opened OnionLayers
  import opened OnionQueues

  /** A cell under the layers of the last |ats| hops; `ats` counts, hop by hop, the bytes that had
      passed the sender's cipher before it. */
  datatype InHand = InHand(wire: seq<byte>, payload: seq<byte>, ats: seq<nat>)

  /** A cell that was handed over, and the bytes of the failed sends before that. */
  datatype Sent = Sent(payload: seq<byte>, ats: seq<nat>, failed: nat)

  /** A cell is encrypted hop by hop, last hop first, each time with the sender's cipher as it then
      stands, and is handed over to the connection, which takes it or fails. No lock spans these steps
      in the source, so those of several senders interleave freely. Every later stage has one cipher
      of its own and an ordered queue of cells in front of it; each cell it takes moves its cipher on
      and joins the next queue. Cells leave through the last queue. `made` counts the bytes that have
      passed each of the sender's ciphers. */
  datatype World = World(
    sender: seq<Cipher>, hand: seq<InHand>, stages: seq<Cipher>, queues: seq<seq<seq<byte>>>,
    made: seq<nat>, failed: nat, sent: seq<Sent>)

  datatype Event =
    | Begin(payload: seq<byte>)
    | EncryptHop(j: nat)
    | HandOver(j: nat)
    | SendFails(j: nat)
    | Process(i: nat)

  function Start(sender: seq<Cipher>, stages: seq<Cipher>): World {
    World(sender, [], stages, seq(|stages| + 1, i => []), seq(|sender|, i => 0), 0, [])
  }

  /** The hop whose layer cell j gets next; -1 when it has all layers. */
  function NextHop(w: World, j: nat): int
    requires j < |w.hand|
  {
    |w.sender| - |w.hand[j].ats| - 1
  }

  predicate Enabled(w: World, e: Event) {
    match e
    case Begin(_) => true
    case EncryptHop(j) => j < |w.hand| && NextHop(w, j) >= 0 && |w.made| == |w.sender|
    case HandOver(j) => j < |w.hand| && NextHop(w, j) < 0 && w.queues != []
    case SendFails(j) => j < |w.hand| && NextHop(w, j) < 0
    case Process(i) => i < |w.stages| && i + 1 < |w.queues| && w.queues[i] != []
  }

  /** Cell c with one more layer, from a cipher that n bytes had passed. */
  function Layer(c: InHand, cipher: Cipher, n: nat): InHand {
    InHand(Mask(cipher, c.wire), c.payload, [n] + c.ats)
  }

  function Without(hand: seq<InHand>, j: nat): seq<InHand>
    requires j < |hand|
  {
    hand[..j] + hand[j + 1..]
  }

  function Step(w: World, e: Event): World
    requires Enabled(w, e)
  {
    match e
    case Begin(payload) => w.(hand := w.hand + [InHand(payload, payload, [])])
    case EncryptHop(j) =>
      var i, c := NextHop(w, j), w.hand[j];
      w.(sender := w.sender[i := Advance(w.sender[i], |c.wire|)],
         made := w.made[i := w.made[i] + |c.wire|],
         hand := w.hand[j := Layer(c, w.sender[i], w.made[i])])
    case HandOver(j) =>
      w.(hand := Without(w.hand, j),
         queues := Joined(w.queues, w.hand[j].wire),
         sent := w.sent + [Sent(w.hand[j].payload, w.hand[j].ats, w.failed)])
    case SendFails(j) =>
      w.(hand := Without(w.hand, j), failed := w.failed + |w.hand[j].payload|)
    case Process(i) =>
      var cell := w.queues[i][0];
      w.(stages := w.stages[i := Advance(w.stages[i], |cell|)],
         queues := Moved(w.queues, i, Mask(w.stages[i], cell)))
  }

  predicate IsRun(w: World, run: seq<Event>)
    decreases |run|
  {
    if run == [] then true else Enabled(w, run[0]) && IsRun(Step(w, run[0]), run[1..])
  }

  function Final(w: World, run: seq<Event>): World
    requires IsRun(w, run)
    decreases |run|
  {
    if run == [] then w else Final(Step(w, run[0]), run[1..])
  }

  /** The run is possible from the start and ends in w. */
  ghost predicate Leads(sender: seq<Cipher>, stages: seq<Cipher>, run: seq<Event>, w: World) {
    IsRun(Start(sender, stages), run) && Final(Start(sender, stages), run) == w
  }

  /** The cells that have left the path, in order. */
  function Output(w: World): seq<seq<byte>> {
    if w.queues == [] then [] else w.queues[|w.queues| - 1]
  }

  // ----- counting -----------------------------------------------------------------------------

  /** The bytes of the first m cells handed over. */
  function SentBytes(sent: seq<Sent>, m: nat): nat
    requires m <= |sent|
  {
    if m == 0 then 0 else SentBytes(sent, m - 1) + |sent[m - 1].payload|
  }

  lemma {:induction false} SentBytesOfPrefix(sent: seq<Sent>, x: Sent, m: nat)
    requires m <= |sent|
    ensures SentBytes(sent + [x], m) == SentBytes(sent, m)
  {
    if m > 0 {
      SentBytesOfPrefix(sent, x, m - 1);
    }
  }

  lemma SentBytesAppends(sent: seq<Sent>, x: Sent)
    ensures SentBytes(sent + [x], |sent| + 1) == SentBytes(sent, |sent|) + |x.payload|
    ensures forall m: nat :: m <= |sent| ==> SentBytes(sent + [x], m) == SentBytes(sent, m)
  {
    forall m: nat | m <= |sent|
      ensures SentBytes(sent + [x], m) == SentBytes(sent, m)
    {
      SentBytesOfPrefix(sent, x, m);
    }
  }

  function Own(c: InHand, layers: nat): nat {
    if |c.ats| >= layers then |c.payload| else 0
  }

  /** The bytes in hand that have at least `layers` layers. */
  function HandBytes(hand: seq<InHand>, layers: nat): nat {
    if hand == [] then 0 else Own(hand[0], layers) + HandBytes(hand[1..], layers)
  }

  lemma {:induction false} HandBytesConcat(a: seq<InHand>, b: seq<InHand>, layers: nat)
    ensures HandBytes(a + b, layers) == HandBytes(a, layers) + HandBytes(b, layers)
  {
    if a == [] {
      assert a + b == b;
    } else {
      assert (a + b)[1..] == a[1..] + b;
      HandBytesConcat(a[1..], b, layers);
    }
  }

  lemma HandBytesAt(hand: seq<InHand>, j: nat, layers: nat)
    requires j < |hand|
    ensures HandBytes(hand, layers) == HandBytes(Without(hand, j), layers) + Own(hand[j], layers)
  {
    assert hand == hand[..j] + hand[j..] && hand[j..][1..] == hand[j + 1..];
    HandBytesConcat(hand[..j], hand[j..], layers);
    HandBytesConcat(hand[..j], hand[j + 1..], layers);
  }

  lemma HandBytesUpdated(hand: seq<InHand>, j: nat, c: InHand, layers: nat)
    requires j < |hand|
    ensures HandBytes(hand[j := c], layers) == HandBytes(hand, layers) - Own(hand[j], layers) + Own(c, layers)
  {
    var after := hand[j := c];
    HandBytesAt(hand, j, layers);
    HandBytesAt(after, j, layers);
    assert Without(after, j) == Without(hand, j);
  }

  // ----- the sender's side --------------------------------------------------------------------

  function AdvanceEach(cs: seq<Cipher>, ats: seq<nat>): (r: seq<Cipher>)
    requires |ats| == |cs|
    ensures |r| == |cs|
  {
    seq(|cs|, i requires 0 <= i < |cs| => Advance(cs[i], ats[i]))
  }

  /** The payload under the layers of the last |ats| hops, each at its own position. */
  function Wrapped(s: seq<Cipher>, ats: seq<nat>, payload: seq<byte>): (r: seq<byte>)
    requires |ats| <= |s|
    ensures |r| == |payload|
  {
    Wrap(AdvanceEach(s[|s| - |ats|..], ats), payload)
  }

  lemma WrappedOnceMore(s: seq<Cipher>, ats: seq<nat>, payload: seq<byte>, i: nat, n: nat)
    requires i + 1 + |ats| == |s|
    ensures Wrapped(s, [n] + ats, payload) == Mask(Advance(s[i], n), Wrapped(s, ats, payload))
  {
    var longer := AdvanceEach(s[i..], [n] + ats);
    assert longer[0] == Advance(s[i], n);
    assert longer[1..] == AdvanceEach(s[i + 1..], ats);
  }

  ghost predicate GoodCell(s: seq<Cipher>, c: InHand) {
    |c.ats| <= |s| && c.wire == Wrapped(s, c.ats, c.payload)
  }

  ghost predicate AllGood(s: seq<Cipher>, hand: seq<InHand>) {
    forall j :: 0 <= j < |hand| ==> GoodCell(s, hand[j])
  }

  /** What has passed the cipher of hop i is handed over, failed (both in base), or still in hand. */
  ghost predicate Accounted(made: seq<nat>, hand: seq<InHand>, base: nat) {
    forall i :: 0 <= i < |made| ==> made[i] == HandBytes(hand, |made| - i) + base
  }

  /** Every cell handed over has all its layers. */
  ghost predicate AllWhole(n: nat, sent: seq<Sent>) {
    forall k :: 0 <= k < |sent| ==> |sent[k].ats| == n
  }

  ghost predicate SenderInv(s: seq<Cipher>, w: World, base: nat) {
    && |w.made| == |s| && w.sender == AdvanceEach(s, w.made)
    && base == SentBytes(w.sent, |w.sent|) + w.failed
    && Accounted(w.made, w.hand, base)
    && AllGood(s, w.hand) && AllWhole(|s|, w.sent)
  }

  lemma AccountedAfterBegin(made: seq<nat>, hand: seq<InHand>, base: nat, c: InHand)
    requires Accounted(made, hand, base) && c.ats == []
    ensures Accounted(made, hand + [c], base)
  {
    forall i | 0 <= i < |made|
      ensures made[i] == HandBytes(hand + [c], |made| - i) + base
    {
      HandBytesConcat(hand, [c], |made| - i);
    }
  }

  lemma AccountedAfterHop(made: seq<nat>, hand: seq<InHand>, base: nat, j: nat, c: InHand, i: nat, made': seq<nat>)
    requires Accounted(made, hand, base) && j < |hand| && i < |made|
    requires |hand[j].ats| == |made| - i - 1 && |c.ats| == |made| - i && c.payload == hand[j].payload
    requires made' == made[i := made[i] + |c.payload|]
    ensures Accounted(made', hand[j := c], base)
  {
    forall l | 0 <= l < |made'|
      ensures made'[l] == HandBytes(hand[j := c], |made'| - l) + base
    {
      HandBytesUpdated(hand, j, c, |made| - l);
    }
  }

  lemma AccountedAfterLeaving(made: seq<nat>, hand: seq<InHand>, base: nat, j: nat, base': nat)
    requires Accounted(made, hand, base) && j < |hand| && |hand[j].ats| == |made|
    requires base' == base + |hand[j].payload|
    ensures Accounted(made, Without(hand, j), base')
  {
    forall i | 0 <= i < |made|
      ensures made[i] == HandBytes(Without(hand, j), |made| - i) + base'
    {
      HandBytesAt(hand, j, |made| - i);
    }
  }

  lemma GoodWithout(s: seq<Cipher>, hand: seq<InHand>, j: nat)
    requires j < |hand| && AllGood(s, hand)
    ensures AllGood(s, Without(hand, j))
  {
    forall l | 0 <= l < |hand| - 1
      ensures GoodCell(s, Without(hand, j)[l])
    {
      assert Without(hand, j)[l] == hand[if l < j then l else l + 1];
    }
  }

  lemma SenderKeptByBegin(s: seq<Cipher>, w: World, base: nat, payload: seq<byte>, v: World)
    requires SenderInv(s, w, base) && v == Step(w, Begin(payload))
    ensures SenderInv(s, v, base)
  {
    var c := InHand(payload, payload, []);
    AccountedAfterBegin(w.made, w.hand, base, c);
    assert AdvanceEach(s[|s|..], []) == [];
    assert GoodCell(s, c);
    assert v.hand == w.hand + [c];
  }

  lemma SenderKeptByHop(s: seq<Cipher>, w: World, base: nat, j: nat, v: World)
    requires SenderInv(s, w, base) && Enabled(w, EncryptHop(j)) && v == Step(w, EncryptHop(j))
    ensures SenderInv(s, v, base)
  {
    var i, c := NextHop(w, j), w.hand[j];
    assert GoodCell(s, c);
    var c' := Layer(c, w.sender[i], w.made[i]);
    WrappedOnceMore(s, c.ats, c.payload, i, w.made[i]);
    assert GoodCell(s, c');
    assert v.hand == w.hand[j := c'] && v.made == w.made[i := w.made[i] + |c.payload|];
    AccountedAfterHop(w.made, w.hand, base, j, c', i, v.made);
    assert v.sender == AdvanceEach(s, v.made);
  }

  lemma SenderKeptByHandOver(s: seq<Cipher>, w: World, base: nat, j: nat, v: World, base': nat)
    requires SenderInv(s, w, base) && Enabled(w, HandOver(j)) && v == Step(w, HandOver(j))
    requires base' == base + |w.hand[j].payload|
    ensures SenderInv(s, v, base')
  {
    var x := Sent(w.hand[j].payload, w.hand[j].ats, w.failed);
    assert GoodCell(s, w.hand[j]);
    AccountedAfterLeaving(w.made, w.hand, base, j, base');
    GoodWithout(s, w.hand, j);
    SentBytesAppends(w.sent, x);
    assert v.sent == w.sent + [x] && |v.sent| == |w.sent| + 1;
  }

  lemma SenderKeptByFailure(s: seq<Cipher>, w: World, base: nat, j: nat, v: World, base': nat)
    requires SenderInv(s, w, base) && Enabled(w, SendFails(j)) && v == Step(w, SendFails(j))
    requires base' == base + |w.hand[j].payload|
    ensures SenderInv(s, v, base')
  {
    assert GoodCell(s, w.hand[j]);
    AccountedAfterLeaving(w.made, w.hand, base, j, base');
    GoodWithout(s, w.hand, j);
    assert v.failed == w.failed + |w.hand[j].payload| && v.sent == w.sent;
  }

  /** The bytes handed over or failed after an event. */
  function BaseAfter(w: World, e: Event, base: nat): nat
    requires Enabled(w, e)
  {
    if e.HandOver? || e.SendFails? then base + |w.hand[e.j].payload| else base
  }

  lemma SenderInvKept(s: seq<Cipher>, w: World, base: nat, e: Event)
    requires SenderInv(s, w, base) && Enabled(w, e)
    ensures SenderInv(s, Step(w, e), BaseAfter(w, e, base))
  {
    match e
    case Begin(payload) => SenderKeptByBegin(s, w, base, payload, Step(w, e));
    case EncryptHop(j) => SenderKeptByHop(s, w, base, j, Step(w, e));
    case HandOver(j) => SenderKeptByHandOver(s, w, base, j, Step(w, e), BaseAfter(w, e, base));
    case SendFails(j) => SenderKeptByFailure(s, w, base, j, Step(w, e), BaseAfter(w, e, base));
    case Process(_) =>
  }

  // ----- the stages' side ---------------------------------------------------------------------

  /** Cell m of those handed over, once the first i stages have had it. */
  function AtStage(s: seq<Cipher>, t: seq<Cipher>, sent: seq<Sent>, m: nat, i: nat): (r: seq<byte>)
    requires m < |sent| && i <= |t| && |sent[m].ats| == |s|
    ensures |r| == |sent[m].payload|
  {
    Unwrap(AdvanceAll(t, SentBytes(sent, m))[..i], Wrapped(s, sent[m].ats, sent[m].payload))
  }

  ghost function Expected(s: seq<Cipher>, t: seq<Cipher>, sent: seq<Sent>): (nat, nat) -> seq<byte> {
    (m: nat, i: nat) =>
      if m < |sent| && i <= |t| && |sent[m].ats| == |s| then AtStage(s, t, sent, m, i) else []
  }

  /** All cells handed over are in the queues. */
  ghost predicate Shape(n: nat, queues: seq<seq<seq<byte>>>, count: nat) {
    && |queues| == n + 1
    && Past(queues, 0) == count
    && forall i: nat :: Past(queues, i) <= count
  }

  /** Every stage is where the cells it took have moved it. */
  ghost predicate StagesInv(t: seq<Cipher>, stages: seq<Cipher>, queues: seq<seq<seq<byte>>>, sent: seq<Sent>)
    requires Shape(|t|, queues, |sent|)
  {
    |stages| == |t|
    && forall i: nat :: i < |t| ==> stages[i] == Advance(t[i], SentBytes(sent, Past(queues, i + 1)))
  }

  ghost predicate StageInv(s: seq<Cipher>, t: seq<Cipher>, w: World) {
    && Shape(|t|, w.queues, |w.sent|)
    && StagesInv(t, w.stages, w.queues, w.sent)
    && QueuesHold(Expected(s, t, w.sent), w.queues)
  }

  ghost predicate Inv(s: seq<Cipher>, t: seq<Cipher>, w: World, base: nat) {
    SenderInv(s, w, base) && StageInv(s, t, w)
  }

  lemma ExpectedSame(s: seq<Cipher>, t: seq<Cipher>, sent: seq<Sent>, x: Sent, m: nat, i: nat)
    requires m < |sent|
    ensures Expected(s, t, sent + [x])(m, i) == Expected(s, t, sent)(m, i)
  {
    assert (sent + [x])[m] == sent[m];
    SentBytesOfPrefix(sent, x, m);
  }

  /** One more cell handed over leaves what is expected of the earlier ones. */
  lemma ExpectedGrows(s: seq<Cipher>, t: seq<Cipher>, sent: seq<Sent>, x: Sent, queues: seq<seq<seq<byte>>>)
    requires Shape(|t|, queues, |sent|) && QueuesHold(Expected(s, t, sent), queues)
    ensures QueuesHold(Expected(s, t, sent + [x]), queues)
  {
    var f, g := Expected(s, t, sent), Expected(s, t, sent + [x]);
    forall m: nat, i: nat | m < |sent|
      ensures g(m, i) == f(m, i)
    {
      ExpectedSame(s, t, sent, x, m, i);
    }
    HoldsAsWell(f, g, queues, |sent|);
  }

  lemma StagesKeptByHandOver(s: seq<Cipher>, t: seq<Cipher>, w: World, j: nat, v: World)
    requires StageInv(s, t, w) && Enabled(w, HandOver(j)) && v == Step(w, HandOver(j))
    requires |w.hand[j].ats| == |s| && GoodCell(s, w.hand[j])
    ensures StageInv(s, t, v)
  {
    var x := Sent(w.hand[j].payload, w.hand[j].ats, w.failed);
    var sent := w.sent + [x];
    ExpectedGrows(s, t, w.sent, x, w.queues);
    assert w.hand[j].wire == AtStage(s, t, sent, |w.sent|, 0);
    QueuesAfterHandOver(Expected(s, t, sent), w.queues, w.hand[j].wire);
    SentBytesAppends(w.sent, x);
    assert v.sent == sent && v.queues == Joined(w.queues, w.hand[j].wire) && v.stages == w.stages;
  }

  /** The stage takes its layer off at the position where its next cell needs it. */
  lemma {:induction false} ProcessedCell(s: seq<Cipher>, t: seq<Cipher>, sent: seq<Sent>, m: nat, i: nat)
    requires m < |sent| && i < |t| && |sent[m].ats| == |s|
    ensures AtStage(s, t, sent, m, i + 1) == Mask(Advance(t[i], SentBytes(sent, m)), AtStage(s, t, sent, m, i))
  {
    UnwrapOneMore(AdvanceAll(t, SentBytes(sent, m)), i, Wrapped(s, sent[m].ats, sent[m].payload));
  }

  lemma AdvanceByNext(c: Cipher, sent: seq<Sent>, m: nat)
    requires m < |sent|
    ensures Advance(Advance(c, SentBytes(sent, m)), |sent[m].payload|) == Advance(c, SentBytes(sent, m + 1))
  {
  }

  lemma StagesAfterMove(
      t: seq<Cipher>, stages: seq<Cipher>, queues: seq<seq<seq<byte>>>, sent: seq<Sent>, i: nat, y: seq<byte>)
    requires i < |t| && Shape(|t|, queues, |sent|) && StagesInv(t, stages, queues, sent)
    requires i + 1 < |queues| && queues[i] != [] && Past(queues, i + 1) < |sent|
    requires Shape(|t|, Moved(queues, i, y), |sent|)
    ensures StagesInv(
              t, stages[i := Advance(stages[i], |sent[Past(queues, i + 1)].payload|)], Moved(queues, i, y), sent)
  {
    AdvanceByNext(t[i], sent, Past(queues, i + 1));
    forall l: nat
      ensures Past(Moved(queues, i, y), l) == Past(queues, l) + if l == i + 1 then 1 else 0
    {
      PastAfterMove(queues, i, y, l);
    }
  }

  lemma StagesKeptByProcess(s: seq<Cipher>, t: seq<Cipher>, w: World, i: nat)
    requires StageInv(s, t, w) && AllWhole(|s|, w.sent) && Enabled(w, Process(i))
    ensures StageInv(s, t, Step(w, Process(i)))
  {
    var m, cell := Past(w.queues, i + 1), w.queues[i][0];
    var y := Mask(w.stages[i], cell);
    assert Past(w.queues, i) == |w.queues[i]| + m;
    assert Holds(Expected(s, t, w.sent), w.queues, i, 0);
    assert cell == AtStage(s, t, w.sent, m, i);
    ProcessedCell(s, t, w.sent, m, i);
    QueuesAfterMove(Expected(s, t, w.sent), w.queues, i, y);
    forall l: nat
      ensures Past(Moved(w.queues, i, y), l) == Past(w.queues, l) + if l == i + 1 then 1 else 0
    {
      PastAfterMove(w.queues, i, y, l);
    }
    StagesAfterMove(t, w.stages, w.queues, w.sent, i, y);
  }

  // ----- whole runs ---------------------------------------------------------------------------

  lemma InvKept(s: seq<Cipher>, t: seq<Cipher>, w: World, base: nat, e: Event)
    requires Inv(s, t, w, base) && Enabled(w, e)
    ensures Inv(s, t, Step(w, e), BaseAfter(w, e, base))
  {
    SenderInvKept(s, w, base, e);
    match e
    case HandOver(j) =>
      assert GoodCell(s, w.hand[j]);
      StagesKeptByHandOver(s, t, w, j, Step(w, e));
    case Process(i) => StagesKeptByProcess(s, t, w, i);
    case _ =>
  }

  lemma {:induction false} InvOverRun(s: seq<Cipher>, t: seq<Cipher>, w: World, base: nat, run: seq<Event>,
                                      v: World, base': nat)
    requires Inv(s, t, w, base) && IsRun(w, run) && v == Final(w, run)
    requires base' == SentBytes(v.sent, |v.sent|) + v.failed
    ensures Inv(s, t, v, base')
    decreases |run|
  {
    if run == [] {
      assert base == base';
    } else {
      InvKept(s, t, w, base, run[0]);
      InvOverRun(s, t, Step(w, run[0]), BaseAfter(w, run[0], base), run[1..], v, base');
    }
  }

  lemma StartInv(s: seq<Cipher>, t: seq<Cipher>)
    ensures Inv(s, t, Start(s, t), 0)
  {
    var w := Start(s, t);
    AdvanceAllAdds(t, 0, 0);
    forall l: nat
      ensures Past(w.queues, l) == 0
    {
      NothingPast(w.queues, l);
    }
    assert forall i :: 0 <= i < |t| ==> t[i] == AdvanceAll(t, 0)[i];
    assert forall i :: 0 <= i < |s| ==> s[i] == Advance(s[i], 0);
    assert s == AdvanceEach(s, w.made);
  }

  lemma RunInv(s: seq<Cipher>, t: seq<Cipher>, run: seq<Event>, w: World) returns (base: nat)
    requires Leads(s, t, run, w)
    ensures Inv(s, t, w, base)
  {
    StartInv(s, t);
    base := SentBytes(w.sent, |w.sent|) + w.failed;
    InvOverRun(s, t, Start(s, t), 0, run, w, base);
  }

  // ----- positions ----------------------------------------------------------------------------

  lemma HeldAtStage(s: seq<Cipher>, t: seq<Cipher>, w: World, i: nat, q: nat, m: nat)
    requires StageInv(s, t, w) && AllWhole(|s|, w.sent)
    requires i < |w.queues| && q < |w.queues[i]| && m == Past(w.queues, i + 1) + q
    ensures m < |w.sent| && |w.sent[m].ats| == |s|
    ensures w.queues[i][q] == AtStage(s, t, w.sent, m, i)
  {
    HeldAt(Expected(s, t, w.sent), w.queues, i, q, m);
  }

  /** The cells of the queue are as long as those handed over from number p on. */
  ghost predicate LengthsMatch(queue: seq<seq<byte>>, sent: seq<Sent>, p: nat) {
    p + |queue| <= |sent| && forall q: nat :: q < |queue| ==> |queue[q]| == |sent[p + q].payload|
  }

  lemma {:induction false} QueueHoldsSentBytes(queue: seq<seq<byte>>, sent: seq<Sent>, p: nat, q: nat, m: nat)
    requires LengthsMatch(queue, sent, p) && q <= |queue| && m == p + q
    ensures QueueBytes(queue[..q]) == SentBytes(sent, m) - SentBytes(sent, p)
  {
    if q == 0 {
      assert queue[..q] == [];
    } else {
      QueueHoldsSentBytes(queue, sent, p, q - 1, m - 1);
      assert queue[..q] == queue[..q - 1] + [queue[q - 1]];
      QueueBytesAppends(queue[..q - 1], queue[q - 1]);
    }
  }

  lemma QueueMatches(s: seq<Cipher>, t: seq<Cipher>, w: World, i: nat, p: nat)
    requires StageInv(s, t, w) && AllWhole(|s|, w.sent) && i < |w.queues| && p == Past(w.queues, i + 1)
    ensures LengthsMatch(w.queues[i], w.sent, p)
  {
    assert Past(w.queues, i) == |w.queues[i]| + p;
    forall q: nat | q < |w.queues[i]|
      ensures |w.queues[i][q]| == |w.sent[p + q].payload|
    {
      HeldAtStage(s, t, w, i, q, p + q);
    }
  }

  lemma {:induction false} WaitingIsSent(s: seq<Cipher>, t: seq<Cipher>, w: World, i: nat, p: nat)
    requires StageInv(s, t, w) && AllWhole(|s|, w.sent) && i < |w.queues| && p == Past(w.queues, i + 1)
    ensures p <= |w.sent|
    ensures SentBytes(w.sent, |w.sent|) == WaitingBytes(w.queues, i) + SentBytes(w.sent, p)
  {
    var n := |w.queues[i]|;
    QueueMatches(s, t, w, i, p);
    QueueHoldsSentBytes(w.queues[i], w.sent, p, n, p + n);
    assert w.queues[i][..n] == w.queues[i];
    assert Past(w.queues, i) == n + p;
    if i > 0 {
      WaitingIsSent(s, t, w, i - 1, p + n);
    }
  }

  /** The bytes that wait in front of relay i, those in hand that have the layer of hop i, and those of
      failed sends. */
  function Lead(w: World, i: nat): nat
    requires i < |w.queues| && i < |w.sender|
  {
    WaitingBytes(w.queues, i) + HandBytes(w.hand, |w.sender| - i) + w.failed
  }

  lemma AheadBy(c: Cipher, p: nat, q: nat, n: nat)
    requires p == q + n
    ensures Advance(c, p) == Advance(Advance(c, q), n)
  {
  }

  lemma LeadIs(hops: seq<Cipher>, w: World, i: nat, base: nat, handed: nat)
    requires SenderInv(hops, w, base) && i < |hops| && i < |w.queues|
    requires SentBytes(w.sent, |w.sent|) == WaitingBytes(w.queues, i) + handed
    ensures w.made[i] == handed + Lead(w, i)
  {
    assert w.made[i] == HandBytes(w.hand, |w.made| - i) + base;
  }

  lemma SenderLeadsAt(hops: seq<Cipher>, w: World, i: nat, base: nat, p: nat)
    requires Inv(hops, hops, w, base) && i < |hops| && p == Past(w.queues, i + 1)
    ensures w.sender[i] == Advance(w.stages[i], Lead(w, i))
  {
    WaitingIsSent(hops, hops, w, i, p);
    LeadIs(hops, w, i, base, SentBytes(w.sent, p));
    AheadBy(hops[i], w.made[i], SentBytes(w.sent, p), Lead(w, i));
  }

  /** In every run, at every moment: the sender's cipher for hop i is ahead of that relay by the bytes
      that wait in front of it, those in hand that have the layer of hop i, and those of failed sends,
      which it never makes up for. */
  lemma SenderLeadsBy(hops: seq<Cipher>, run: seq<Event>, w: World, i: nat)
    requires Leads(hops, hops, run, w) && i < |hops|
    ensures |w.sender| == |w.stages| == |hops| < |w.queues|
    ensures w.sender[i] == Advance(w.stages[i], Lead(w, i))
  {
    var base := RunInv(hops, hops, run, w);
    SenderLeadsAt(hops, w, i, base, Past(w.queues, i + 1));
  }

  // ----- what comes through -------------------------------------------------------------------

  lemma HeldOverRun(s: seq<Cipher>, t: seq<Cipher>, run: seq<Event>, w: World, i: nat, q: nat, m: nat)
    requires Leads(s, t, run, w) && i < |w.queues| && q < |w.queues[i]| && m == Past(w.queues, i + 1) + q
    ensures m < |w.sent| && i <= |t| && |w.sent[m].ats| == |s|
    ensures w.queues[i][q] == AtStage(s, t, w.sent, m, i)
  {
    var base := RunInv(s, t, run, w);
    HeldAtStage(s, t, w, i, q, m);
  }

  lemma RunShape(s: seq<Cipher>, t: seq<Cipher>, run: seq<Event>, w: World)
    requires Leads(s, t, run, w)
    ensures |w.queues| == |t| + 1 && Past(w.queues, |t| + 1) == 0
  {
    var base := RunInv(s, t, run, w);
  }

  /** The keystreams at the positions where cell k got its layers agree, over its length, with those
      at the position that the cells handed over before it give the stages. */
  ghost predicate KeysMeet(s: seq<Cipher>, t: seq<Cipher>, sent: seq<Sent>, k: nat)
    requires k < |sent| && |sent[k].ats| == |s|
  {
    PadsAgree(AdvanceEach(s, sent[k].ats), AdvanceAll(t, SentBytes(sent, k)), |sent[k].payload|)
  }

  lemma ReadableIffKeysMeet(s: seq<Cipher>, t: seq<Cipher>, sent: seq<Sent>, k: nat)
    requires k < |sent| && |sent[k].ats| == |s|
    ensures AtStage(s, t, sent, k, |t|) == sent[k].payload <==> KeysMeet(s, t, sent, k)
  {
    var ts := AdvanceAll(t, SentBytes(sent, k));
    assert ts[..|t|] == ts && s[0..] == s;
    ComesThroughIff(AdvanceEach(s, sent[k].ats), ts, sent[k].payload);
  }

  /** In every run, however the steps of several senders interleave, whatever was lost or overtaken,
      and whatever the ciphers of both ends: cell k comes out as its payload exactly when the
      keystreams meet. */
  lemma ComesOutIff(s: seq<Cipher>, t: seq<Cipher>, run: seq<Event>, w: World, k: nat)
    requires Leads(s, t, run, w) && k < |Output(w)|
    ensures k < |w.sent| && |w.sent[k].ats| == |s|
    ensures Output(w)[k] == w.sent[k].payload <==> KeysMeet(s, t, w.sent, k)
  {
    RunShape(s, t, run, w);
    HeldOverRun(s, t, run, w, |t|, k, k);
    ReadableIffKeysMeet(s, t, w.sent, k);
  }

  // ----- cells in order -----------------------------------------------------------------------

  /** A cell gets a layer only after the cells begun before it have it, and the connection is given
      the oldest cell. */
  predicate InTurn(w: World, e: Event) {
    match e
    case EncryptHop(j) => j < |w.hand| && forall l :: 0 <= l < j ==> |w.hand[l].ats| > |w.hand[j].ats|
    case HandOver(j) => j == 0
    case SendFails(j) => j == 0
    case _ => true
  }

  predicate InOrder(w: World, run: seq<Event>)
    requires IsRun(w, run)
    decreases |run|
  {
    run == [] || (InTurn(w, run[0]) && InOrder(Step(w, run[0]), run[1..]))
  }

  /** One sender at a time: a cell is begun only when none is in hand. */
  predicate OneAtATime(w: World, run: seq<Event>)
    requires IsRun(w, run)
    decreases |run|
  {
    run == [] || ((run[0].Begin? ==> w.hand == []) && OneAtATime(Step(w, run[0]), run[1..]))
  }

  /** Then the cells are in order. */
  lemma {:induction false} OneAtATimeIsInOrder(w: World, run: seq<Event>)
    requires IsRun(w, run) && OneAtATime(w, run) && |w.hand| <= 1
    ensures InOrder(w, run)
    decreases |run|
  {
    if run != [] {
      OneAtATimeIsInOrder(Step(w, run[0]), run[1..]);
    }
  }

  predicate AllAre(ats: seq<nat>, n: nat) {
    forall i :: 0 <= i < |ats| ==> ats[i] == n
  }

  /** Cell k got all its layers after the cells handed over before it and those that had failed. */
  predicate InStep(sent: seq<Sent>, k: nat)
    requires k < |sent|
  {
    AllAre(sent[k].ats, SentBytes(sent, k) + sent[k].failed)
  }

  ghost predicate SentInOrder(sent: seq<Sent>) {
    forall k: nat :: k < |sent| ==> InStep(sent, k)
  }

  /** The cells in hand get their layers in turn, from the n-th byte on. */
  ghost predicate HandInOrder(hand: seq<InHand>, n: nat)
    decreases |hand|
  {
    hand == [] || (AllAre(hand[0].ats, n) && HandInOrder(hand[1..], n + |hand[0].payload|))
  }

  /** Older cells have no fewer layers. */
  ghost predicate Falling(hand: seq<InHand>) {
    forall l, j :: 0 <= l < j < |hand| ==> |hand[l].ats| >= |hand[j].ats|
  }

  ghost predicate OrderInv(w: World, base: nat) {
    HandInOrder(w.hand, base) && Falling(w.hand) && SentInOrder(w.sent)
  }

  lemma {:induction false} BegunInOrder(hand: seq<InHand>, n: nat, c: InHand)
    requires HandInOrder(hand, n) && c.ats == []
    ensures HandInOrder(hand + [c], n)
    decreases |hand|
  {
    if hand == [] {
      assert (hand + [c])[1..] == [];
    } else {
      assert (hand + [c])[1..] == hand[1..] + [c];
      BegunInOrder(hand[1..], n + |hand[0].payload|, c);
    }
  }

  lemma {:induction false} NoneHas(hand: seq<InHand>, layers: nat)
    requires forall l :: 0 <= l < |hand| ==> |hand[l].ats| < layers
    ensures HandBytes(hand, layers) == 0
  {
    if hand != [] {
      NoneHas(hand[1..], layers);
    }
  }

  /** The cell at j is the first without this layer, so it gets it right behind the cells before. */
  lemma {:induction false} LayeredInOrder(
      hand: seq<InHand>, n: nat, j: nat, layers: nat, c: InHand, p: nat, bytes: nat)
    requires HandInOrder(hand, n) && j < |hand|
    requires forall l :: 0 <= l < j ==> |hand[l].ats| >= layers
    requires forall l :: j <= l < |hand| ==> |hand[l].ats| < layers
    requires bytes == HandBytes(hand, layers) && p == n + bytes
    requires c.payload == hand[j].payload && c.ats == [p] + hand[j].ats
    ensures HandInOrder(hand[j := c], n)
    decreases |hand|
  {
    if j == 0 {
      NoneHas(hand, layers);
      assert hand[0 := c][1..] == hand[1..];
    } else {
      var rest := hand[1..];
      assert rest[j - 1] == hand[j];
      LayeredInOrder(rest, n + |hand[0].payload|, j - 1, layers, c, p, bytes - |hand[0].payload|);
      assert hand[j := c][1..] == rest[j - 1 := c];
    }
  }

  lemma InStepStays(sent: seq<Sent>, x: Sent, k: nat, base: nat)
    requires k <= |sent| && base == SentBytes(sent, |sent|) + x.failed
    requires if k < |sent| then InStep(sent, k) else AllAre(x.ats, base)
    ensures InStep(sent + [x], k)
  {
    SentBytesOfPrefix(sent, x, k);
    assert k < |sent| ==> (sent + [x])[k] == sent[k];
  }

  lemma SentGrows(sent: seq<Sent>, x: Sent, base: nat)
    requires SentInOrder(sent) && base == SentBytes(sent, |sent|) + x.failed && AllAre(x.ats, base)
    ensures SentInOrder(sent + [x])
  {
    forall k: nat | k < |sent + [x]|
      ensures InStep(sent + [x], k)
    {
      InStepStays(sent, x, k, base);
    }
  }

  lemma OldestLeaves(hand: seq<InHand>, base: nat, j: nat, base': nat)
    requires j == 0 < |hand| && HandInOrder(hand, base) && Falling(hand) && base' == base + |hand[j].payload|
    ensures AllAre(hand[j].ats, base) && HandInOrder(Without(hand, j), base') && Falling(Without(hand, j))
  {
    assert Without(hand, j) == hand[1..];
  }

  lemma OrderKeptByHop(s: seq<Cipher>, w: World, base: nat, j: nat, v: World)
    requires SenderInv(s, w, base) && OrderInv(w, base) && Enabled(w, EncryptHop(j)) && InTurn(w, EncryptHop(j))
    requires v == Step(w, EncryptHop(j))
    ensures OrderInv(v, base)
  {
    var i, c := NextHop(w, j), w.hand[j];
    var c', layers := Layer(c, w.sender[i], w.made[i]), |c.ats| + 1;
    assert w.made[i] == HandBytes(w.hand, |w.made| - i) + base;
    LayeredInOrder(w.hand, base, j, layers, c', w.made[i], HandBytes(w.hand, layers));
    assert v.hand == w.hand[j := c'] && v.sent == w.sent;
  }

  lemma OrderKeptByHandOver(s: seq<Cipher>, w: World, base: nat, j: nat, v: World, base': nat)
    requires SenderInv(s, w, base) && OrderInv(w, base) && Enabled(w, HandOver(j)) && j == 0
    requires v == Step(w, HandOver(j)) && base' == base + |w.hand[j].payload|
    ensures OrderInv(v, base')
  {
    OldestLeaves(w.hand, base, j, base');
    SentGrows(w.sent, Sent(w.hand[j].payload, w.hand[j].ats, w.failed), base);
    assert v.hand == Without(w.hand, j) && v.sent == w.sent + [Sent(w.hand[j].payload, w.hand[j].ats, w.failed)];
  }

  lemma OrderInvKept(s: seq<Cipher>, w: World, base: nat, e: Event)
    requires SenderInv(s, w, base) && OrderInv(w, base) && Enabled(w, e) && InTurn(w, e)
    ensures OrderInv(Step(w, e), BaseAfter(w, e, base))
  {
    var v := Step(w, e);
    match e
    case Begin(payload) =>
      BegunInOrder(w.hand, base, InHand(payload, payload, []));
      assert v.hand == w.hand + [InHand(payload, payload, [])] && v.sent == w.sent;
    case EncryptHop(j) => OrderKeptByHop(s, w, base, j, v);
    case HandOver(j) => OrderKeptByHandOver(s, w, base, j, v, BaseAfter(w, e, base));
    case SendFails(j) => OldestLeaves(w.hand, base, j, BaseAfter(w, e, base));
    case Process(_) =>
  }

  lemma {:induction false} OrderInvOverRun(s: seq<Cipher>, w: World, base: nat, run: seq<Event>)
    requires SenderInv(s, w, base) && OrderInv(w, base) && IsRun(w, run) && InOrder(w, run)
    ensures SentInOrder(Final(w, run).sent)
    decreases |run|
  {
    if run != [] {
      SenderInvKept(s, w, base, run[0]);
      OrderInvKept(s, w, base, run[0]);
      OrderInvOverRun(s, Step(w, run[0]), BaseAfter(w, run[0], base), run[1..]);
    }
  }

  lemma OrderOverRun(hops: seq<Cipher>, run: seq<Event>, w: World)
    requires Leads(hops, hops, run, w) && InOrder(Start(hops, hops), run)
    ensures SentInOrder(w.sent)
  {
    StartInv(hops, hops);
    OrderInvOverRun(hops, Start(hops, hops), 0, run);
  }

  lemma EachAsAll(cs: seq<Cipher>, ats: seq<nat>, n: nat)
    requires |ats| == |cs| && AllAre(ats, n)
    ensures AdvanceEach(cs, ats) == AdvanceAll(cs, n)
  {
  }

  /** Cell m under the layers of hops i.., at the position of the cells before it. */
  function Layered(hops: seq<Cipher>, sent: seq<Sent>, m: nat, i: nat): seq<byte>
    requires m < |sent| && i <= |hops|
  {
    Wrap(AdvanceAll(hops, SentBytes(sent, m))[i..], sent[m].payload)
  }

  lemma PeeledAtStage(hops: seq<Cipher>, sent: seq<Sent>, m: nat, i: nat)
    requires m < |sent| && i <= |hops| && |sent[m].ats| == |hops| && SentInOrder(sent) && sent[m].failed == 0
    ensures AtStage(hops, hops, sent, m, i) == Layered(hops, sent, m, i)
  {
    assert InStep(sent, m) && hops[0..] == hops;
    EachAsAll(hops, sent[m].ats, SentBytes(sent, m));
    PeelPrefix(AdvanceAll(hops, SentBytes(sent, m)), i, sent[m].payload);
  }

  /** Peeling over every run with the cells in order: as long as no send has failed before it, the
      cell at place q in front of relay i stands under exactly the layers of hops i.., at the position
      of the cells before it. */
  lemma ForwardRunPeels(hops: seq<Cipher>, run: seq<Event>, w: World, i: nat, q: nat, m: nat)
    requires Leads(hops, hops, run, w) && InOrder(Start(hops, hops), run)
    requires i < |w.queues| && q < |w.queues[i]| && m == Past(w.queues, i + 1) + q
    ensures m < |w.sent| && i <= |hops|
    ensures w.sent[m].failed == 0 ==> w.queues[i][q] == Layered(hops, w.sent, m, i)
  {
    HeldOverRun(hops, hops, run, w, i, q, m);
    OrderOverRun(hops, run, w);
    if w.sent[m].failed == 0 {
      PeeledAtStage(hops, w.sent, m, i);
    }
  }

  /** The keystreams repeat themselves `gap` bytes further on, over n bytes from position p. */
  ghost predicate RepeatsAfter(hops: seq<Cipher>, p: nat, gap: nat, n: nat) {
    PadsAgree(AdvanceAll(hops, p + gap), AdvanceAll(hops, p), n)
  }

  lemma KeysMeetInOrder(hops: seq<Cipher>, sent: seq<Sent>, k: nat, p: nat, gap: nat)
    requires SentInOrder(sent) && k < |sent| && |sent[k].ats| == |hops|
    requires p == SentBytes(sent, k) && gap == sent[k].failed
    ensures KeysMeet(hops, hops, sent, k) <==> RepeatsAfter(hops, p, gap, |sent[k].payload|)
    ensures gap == 0 ==> KeysMeet(hops, hops, sent, k)
  {
    assert InStep(sent, k);
    EachAsAll(hops, sent[k].ats, p + gap);
  }

  /** Delivery, exactly, p being the bytes handed over before cell k: with the cells in order the cell
      leaves the path as its payload if and only if the keystreams repeat themselves after as many
      bytes as had failed to be sent by then; if none had, it always does. */
  lemma ForwardRunDeliversIff(hops: seq<Cipher>, run: seq<Event>, w: World, k: nat, p: nat)
    requires Leads(hops, hops, run, w) && InOrder(Start(hops, hops), run) && k < |Output(w)|
    requires k < |w.sent| ==> p == SentBytes(w.sent, k)
    ensures k < |w.sent|
    ensures Output(w)[k] == w.sent[k].payload <==> RepeatsAfter(hops, p, w.sent[k].failed, |w.sent[k].payload|)
    ensures w.sent[k].failed == 0 ==> Output(w)[k] == w.sent[k].payload
  {
    ComesOutIff(hops, hops, run, w, k);
    OrderOverRun(hops, run, w);
    KeysMeetInOrder(hops, w.sent, k, p, w.sent[k].failed);
  }

  // ----- the way back -------------------------------------------------------------------------

  function Reversed(cs: seq<Cipher>): (r: seq<Cipher>)
    ensures |r| == |cs|
  {
    if cs == [] then [] else Reversed(cs[1..]) + [cs[0]]
  }

  /** The stages of a cell from the last hop to the client: each relay from the last to the first
      adds its layer, and then `decryptBackward` applies the client's ciphers from first to last. */
  function ThereAndBack(hops: seq<Cipher>): seq<Cipher> {
    Reversed(hops) + hops
  }

  lemma {:induction false} ReversedPad(cs: seq<Cipher>, x: nat)
    ensures Pad(Reversed(cs), x) == Pad(cs, x)
  {
    if cs != [] {
      ReversedPad(cs[1..], x);
      PadAppends(Reversed(cs[1..]), [cs[0]], x);
      XorLaws(KeyByte(cs[0], x), 0, 0);
      XorLaws(KeyByte(cs[0], x), Pad(cs[1..], x), 0);
    }
  }

  lemma {:induction false} ReversedAdvances(cs: seq<Cipher>, n: nat)
    ensures AdvanceAll(Reversed(cs), n) == Reversed(AdvanceAll(cs, n))
  {
    if cs != [] {
      ReversedAdvances(cs[1..], n);
      assert AdvanceAll(cs, n)[1..] == AdvanceAll(cs[1..], n);
      assert AdvanceAll(Reversed(cs), n) == AdvanceAll(Reversed(cs[1..]), n) + [Advance(cs[0], n)];
    }
  }

  /** The client's pad cancels the relays'. */
  lemma BackCancels(hops: seq<Cipher>, n: nat, x: nat)
    ensures Pad(AdvanceAll(ThereAndBack(hops), n), x) == 0
  {
    var cs := AdvanceAll(hops, n);
    ReversedAdvances(hops, n);
    assert AdvanceAll(ThereAndBack(hops), n) == Reversed(cs) + cs;
    PadAppends(Reversed(cs), cs, x);
    ReversedPad(cs, x);
    XorLaws(Pad(cs, x), 0, 0);
  }

  /** In every run of the way back the client recovers every payload the last hop sends. */
  lemma BackwardRunRecovers(hops: seq<Cipher>, run: seq<Event>, w: World, k: nat)
    requires Leads([], ThereAndBack(hops), run, w) && k < |Output(w)|
    ensures k < |w.sent| && Output(w)[k] == w.sent[k].payload
  {
    ComesOutIff([], ThereAndBack(hops), run, w, k);
    forall x: nat
      ensures Pad(AdvanceEach([], w.sent[k].ats), x) == Pad(AdvanceAll(ThereAndBack(hops), SentBytes(w.sent, k)), x)
    {
      BackCancels(hops, SentBytes(w.sent, k), x);
    }
  }
}
