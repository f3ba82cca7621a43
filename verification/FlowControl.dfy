/** Circuit-level flow control (pkg/circuit/circuit.go). */
module FlowControl {

  const INITIAL_WINDOW := 1000
  const SENDME_INCREMENT := 100

  // ----- the counters of one endpoint ---------------------------------------------------------

  datatype Windows = Windows(package: int, deliver: int, sendmeReceived: int, sendmeSent: int)

  const FRESH_WINDOWS := Windows(INITIAL_WINDOW, INITIAL_WINDOW, 0, 0)

  /** Whether a cell may be sent, and the windows after the attempt. */
  function TakePackage(w: Windows): (bool, Windows) {
    if w.package <= 0 then (false, w) else (true, w.(package := w.package - 1))
  }

  function GrantPackage(w: Windows): Windows {
    w.(package := w.package + SENDME_INCREMENT)
  }

  /** Whether a cell is taken, and the windows after it. */
  function TakeDeliver(w: Windows): (bool, Windows) {
    if w.deliver <= 0 then (false, w)
    else (true, w.(deliver := w.deliver - 1, sendmeReceived := w.sendmeReceived + 1))
  }

  function GrantDeliver(w: Windows): Windows {
    w.(deliver := w.deliver + SENDME_INCREMENT, sendmeReceived := 0, sendmeSent := w.sendmeSent + 1)
  }

  class Circuit {
    var packageWindow: int
    var deliverWindow: int
    var sendmeReceived: int
    var sendmeSent: int

    ghost function View(): Windows
      reads this
    {
      Windows(packageWindow, deliverWindow, sendmeReceived, sendmeSent)
    }

    constructor ()
      ensures View() == FRESH_WINDOWS
    {
      packageWindow, deliverWindow := INITIAL_WINDOW, INITIAL_WINDOW;
      sendmeReceived, sendmeSent := 0, 0;
    }

    method DecrementPackageWindow() returns (ok: bool)
      modifies `packageWindow
      ensures ok <==> old(packageWindow) > 0
      ensures packageWindow == old(packageWindow) - if ok then 1 else 0
      ensures (ok, View()) == TakePackage(old(View()))
    {
      if packageWindow <= 0 {
        return false;
      }
      packageWindow := packageWindow - 1;
      return true;
    }

    method IncrementPackageWindow()
      modifies `packageWindow
      ensures packageWindow == old(packageWindow) + 100
      ensures View() == GrantPackage(old(View()))
    {
      packageWindow := packageWindow + SENDME_INCREMENT;
    }

    method DecrementDeliverWindow() returns (ok: bool)
      modifies `deliverWindow, `sendmeReceived
      ensures ok <==> old(deliverWindow) > 0
      ensures deliverWindow == old(deliverWindow) - if ok then 1 else 0
      ensures sendmeReceived == old(sendmeReceived) + if ok then 1 else 0
      ensures (ok, View()) == TakeDeliver(old(View()))
    {
      if deliverWindow <= 0 {
        return false;
      }
      deliverWindow := deliverWindow - 1;
      sendmeReceived := sendmeReceived + 1;
      return true;
    }

    method ShouldSendCircuitSendme() returns (due: bool)
      ensures due <==> sendmeReceived >= 100
    {
      due := sendmeReceived >= SENDME_INCREMENT;
    }

    /** The DATA branch of `DeliverRelayCell`: a refused cell, or one delivered and checked; `spawn`
        says that a goroutine is to send a SENDME. */
    method DeliverData() returns (ok: bool, spawn: bool)
      modifies `deliverWindow, `sendmeReceived
      ensures ok <==> old(deliverWindow) > 0
      ensures !ok ==> unchanged(this)
      ensures (ok, View()) == TakeDeliver(old(View()))
      ensures spawn <==> ok && sendmeReceived >= 100
    {
      ok := DecrementDeliverWindow();
      if !ok {
        return false, false;
      }
      spawn := ShouldSendCircuitSendme();
    }

    /** The locked section of `sendCircuitSendme`; the cell itself is sent afterwards. */
    method GrantCircuitSendme()
      modifies this
      ensures packageWindow == old(packageWindow) && deliverWindow == old(deliverWindow) + 100
      ensures sendmeReceived == 0 && sendmeSent == old(sendmeSent) + 1
      ensures View() == GrantDeliver(old(View()))
    {
      sendmeReceived := 0;
      sendmeSent := sendmeSent + 1;
      deliverWindow := deliverWindow + SENDME_INCREMENT;
    }
  }

  // ----- two endpoints and the wires between them ---------------------------------------------

  datatype Cell = Data | Sendme

  /** An unordered bag of cells. */
  datatype Cells = Cells(data: nat, sendme: nat) {
    predicate Has(c: Cell) {
      match c case Data => data > 0 case Sendme => sendme > 0
    }

    function Add(c: Cell): Cells {
      match c case Data => Cells(data + 1, sendme) case Sendme => Cells(data, sendme + 1)
    }

    function Remove(c: Cell): Cells
      requires Has(c)
    {
      match c case Data => Cells(data - 1, sendme) case Sendme => Cells(data, sendme - 1)
    }
  }

  /** outbox:   cells whose window update is done but which the connection has not taken yet;
      checking: deliveries between the decrement and the SENDME check;
      pending:  SENDME goroutines that have been spawned and have not taken the lock yet. */
  datatype Endpoint = Endpoint(w: Windows, outbox: Cells, checking: nat, pending: nat)

  /** Two endpoints over a pair of wires. Every lock section is its own step, so the SENDME goroutine,
      a delivery between its decrement and its check, and a cell between its window update and the
      connection can interleave in any order; wires may reorder, and (in runs that are not `Lossless`)
      lose cells. */
  datatype System = System(a: Endpoint, b: Endpoint, toA: Cells, toB: Cells)

  datatype Event =
    | SendData
    | Transmit(cell: Cell, ok: bool)
    | DeliverData
    | CheckSendme
    | RunSendme
    | DeliverSendme
    | Lose(lost: Cell)

  /** One event of a run, taken by endpoint a or by endpoint b. */
  datatype Move = Move(byA: bool, event: Event)

  function FreshEndpoint(): Endpoint {
    Endpoint(FRESH_WINDOWS, Cells(0, 0), 0, 0)
  }

  function Init(): System {
    System(FreshEndpoint(), FreshEndpoint(), Cells(0, 0), Cells(0, 0))
  }

  function Swap(s: System): System {
    System(s.b, s.a, s.toB, s.toA)
  }

  /** Whether endpoint a can take the event. */
  predicate EnabledA(s: System, e: Event) {
    match e
    case SendData => true
    case Transmit(c, _) => s.a.outbox.Has(c)
    case DeliverData => s.toA.Has(Data)
    case CheckSendme => s.a.checking > 0
    case RunSendme => s.a.pending > 0
    case DeliverSendme => s.toA.Has(Sendme)
    case Lose(c) => s.toA.Has(c)
  }

  /** The effect of the event at endpoint a. */
  function StepA(s: System, e: Event): System
    requires EnabledA(s, e)
  {
    var a := s.a;
    match e
    case SendData =>
      var (ok, w) := TakePackage(a.w);
      s.(a := a.(w := w, outbox := if ok then a.outbox.Add(Data) else a.outbox))
    case Transmit(c, ok) =>
      s.(a := a.(outbox := a.outbox.Remove(c)), toB := if ok then s.toB.Add(c) else s.toB)
    case DeliverData =>
      var (ok, w) := TakeDeliver(a.w);
      s.(a := a.(w := w, checking := if ok then a.checking + 1 else a.checking), toA := s.toA.Remove(Data))
    case CheckSendme =>
      var spawned := if a.w.sendmeReceived >= SENDME_INCREMENT then 1 else 0;
      s.(a := a.(checking := a.checking - 1, pending := a.pending + spawned))
    case RunSendme =>
      s.(a := a.(w := GrantDeliver(a.w), pending := a.pending - 1, outbox := a.outbox.Add(Sendme)))
    case DeliverSendme =>
      s.(a := a.(w := GrantPackage(a.w)), toA := s.toA.Remove(Sendme))
    case Lose(c) =>
      s.(toA := s.toA.Remove(c))
  }

  predicate Enabled(s: System, m: Move) {
    EnabledA(if m.byA then s else Swap(s), m.event)
  }

  function Step(s: System, m: Move): System
    requires Enabled(s, m)
  {
    if m.byA then StepA(s, m.event) else Swap(StepA(Swap(s), m.event))
  }

  predicate IsRun(s: System, run: seq<Move>)
    decreases |run|
  {
    run == [] || (Enabled(s, run[0]) && IsRun(Step(s, run[0]), run[1..]))
  }

  function Final(s: System, run: seq<Move>): System
    requires IsRun(s, run)
    decreases |run|
  {
    if run == [] then s else Final(Step(s, run[0]), run[1..])
  }

  function Mirrored(run: seq<Move>): seq<Move> {
    seq(|run|, i requires 0 <= i < |run| => run[i].(byA := !run[i].byA))
  }

  /** The endpoints are interchangeable, so whatever is proved of a as sender holds of b. */
  lemma {:induction false} MirroredRuns(s: System, run: seq<Move>)
    requires IsRun(s, run)
    ensures IsRun(Swap(s), Mirrored(run)) && Final(Swap(s), Mirrored(run)) == Swap(Final(s, run))
    decreases |run|
  {
    if run != [] {
      MirroredRuns(Step(s, run[0]), run[1..]);
      assert Mirrored(run)[1..] == Mirrored(run[1..]);
    }
  }

  /** A refused cell leaves all counters as they were: nothing is sent at an exhausted package window,
      and a DATA cell at an exhausted deliver window is dropped. */
  lemma RefusalChangesNoCounter(s: System)
    ensures s.a.w.package <= 0 ==> StepA(s, SendData) == s
    ensures s.toA.Has(Data) && s.a.w.deliver <= 0 ==>
              StepA(s, DeliverData) == s.(toA := Cells(s.toA.data - 1, s.toA.sendme))
  {
  }

  /** A cell is lost when a send fails or the wire (or a check before flow control) drops it. */
  predicate LosesNothing(e: Event) {
    !e.Lose? && !(e.Transmit? && !e.ok)
  }

  predicate Lossless(run: seq<Move>) {
    forall i :: 0 <= i < |run| ==> LosesNothing(run[i].event)
  }

  // ----- safety -------------------------------------------------------------------------------

  function DataOnTheWay(snd: Endpoint, toRcv: Cells): nat {
    snd.outbox.data + toRcv.data
  }

  function SendmeOnTheWay(rcv: Endpoint, toSnd: Cells): nat {
    rcv.outbox.sendme + toSnd.sendme
  }

  /** Everything that can still be charged to the receiver's deliver window. */
  function Credit(snd: Endpoint, rcv: Endpoint, toRcv: Cells, toSnd: Cells): int {
    snd.w.package + DataOnTheWay(snd, toRcv) + SENDME_INCREMENT * SendmeOnTheWay(rcv, toSnd)
  }

  ghost predicate Safe(snd: Endpoint, rcv: Endpoint, toRcv: Cells, toSnd: Cells) {
    && snd.w.package >= 0
    && rcv.w.deliver >= Credit(snd, rcv, toRcv, toSnd)
  }

  ghost predicate SafeBothWays(s: System) {
    Safe(s.a, s.b, s.toB, s.toA) && Safe(s.b, s.a, s.toA, s.toB)
  }

  lemma StepAKeepsSafe(s: System, e: Event)
    requires SafeBothWays(s) && EnabledA(s, e)
    ensures SafeBothWays(StepA(s, e))
  {
  }

  lemma StepKeepsSafe(s: System, m: Move)
    requires SafeBothWays(s) && Enabled(s, m)
    ensures SafeBothWays(Step(s, m))
  {
    StepAKeepsSafe(if m.byA then s else Swap(s), m.event);
  }

  /** Flow-control safety: in every interleaving, with lost cells and failed sends, each deliver
      window covers the peer's package window and every DATA cell on the way, so no delivery of a
      DATA cell that went through the package window finds the deliver window exhausted. */
  lemma {:induction false} DeliverWindowCoversSender(s: System, run: seq<Move>)
    requires SafeBothWays(s) && IsRun(s, run)
    ensures SafeBothWays(Final(s, run))
    ensures Final(s, run).toA.Has(Data) ==> Final(s, run).a.w.deliver > 0
    ensures Final(s, run).toB.Has(Data) ==> Final(s, run).b.w.deliver > 0
    decreases |run|
  {
    if run != [] {
      StepKeepsSafe(s, run[0]);
      DeliverWindowCoversSender(Step(s, run[0]), run[1..]);
    }
  }

  lemma NoDeliveryRefused(run: seq<Move>)
    requires IsRun(Init(), run)
    ensures var s := Final(Init(), run);
            && s.b.w.deliver >= s.a.w.package + s.a.outbox.data + s.toB.data
            && s.a.w.deliver >= s.b.w.package + s.b.outbox.data + s.toA.data
            && (s.toA.Has(Data) ==> s.a.w.deliver > 0) && (s.toB.Has(Data) ==> s.b.w.deliver > 0)
  {
    DeliverWindowCoversSender(Init(), run);
  }

  // ----- conservation and absence of deadlock -------------------------------------------------

  /** In a lossless run credit is conserved exactly; `deliver + sendmeReceived` never falls below
      one increment; and a counter at the threshold has a check or a goroutine outstanding. */
  ghost predicate Live(snd: Endpoint, rcv: Endpoint, toRcv: Cells, toSnd: Cells) {
    && snd.w.package >= 0
    && rcv.w.deliver == Credit(snd, rcv, toRcv, toSnd)
    && rcv.w.sendmeReceived >= 0
    && rcv.w.deliver + rcv.w.sendmeReceived >= SENDME_INCREMENT
    && (rcv.w.sendmeReceived >= SENDME_INCREMENT ==> rcv.checking + rcv.pending > 0)
  }

  ghost predicate LiveBothWays(s: System) {
    Live(s.a, s.b, s.toB, s.toA) && Live(s.b, s.a, s.toA, s.toB)
  }

  lemma StepAKeepsLive(s: System, e: Event)
    requires LiveBothWays(s) && EnabledA(s, e) && LosesNothing(e)
    ensures LiveBothWays(StepA(s, e))
  {
  }

  lemma StepKeepsLive(s: System, m: Move)
    requires LiveBothWays(s) && Enabled(s, m) && LosesNothing(m.event)
    ensures LiveBothWays(Step(s, m))
  {
    StepAKeepsLive(if m.byA then s else Swap(s), m.event);
  }

  lemma {:induction false} LosslessRunsConserveCredit(s: System, run: seq<Move>)
    requires LiveBothWays(s) && IsRun(s, run) && Lossless(run)
    ensures LiveBothWays(Final(s, run))
    decreases |run|
  {
    if run != [] {
      assert LosesNothing(run[0].event);
      StepKeepsLive(s, run[0]);
      LosslessRunsConserveCredit(Step(s, run[0]), run[1..]);
    }
  }

  /** Work left in the system for a sender a that waits on its window. */
  function Outstanding(s: System): nat {
    DataOnTheWay(s.a, s.toB) + SendmeOnTheWay(s.b, s.toA) + s.b.checking + s.b.pending
  }

  /** No credit deadlock: after any lossless run, a sender whose window is 0 has a cell on the way,
      a check in progress or a SENDME goroutine pending. */
  lemma NoCreditDeadlock(run: seq<Move>)
    requires IsRun(Init(), run) && Lossless(run)
    ensures var s := Final(Init(), run);
            s.a.w.package == 0 ==> Outstanding(s) > 0
  {
    LosslessRunsConserveCredit(Init(), run);
  }

  /** The steps that carry DATA from a to b and SENDMEs back. */
  predicate IsExchange(m: Move) {
    if m.byA then m.event == Transmit(Data, true) || m.event.DeliverSendme?
    else m.event.DeliverData? || m.event.CheckSendme? || m.event.RunSendme? || m.event == Transmit(Sendme, true)
  }

  /** An upper bound on the exchange steps the system can take without new DATA from a. */
  function Potential(s: System): nat {
    6 * s.a.outbox.data + 5 * s.toB.data + 4 * s.b.checking + 3 * s.b.pending
    + 2 * s.b.outbox.sendme + s.toA.sendme
  }

  /** The step that moves a waiting sender's outstanding work forward. */
  function UnblockingMove(s: System): (m: Move)
    requires Outstanding(s) > 0
    ensures Enabled(s, m) && LosesNothing(m.event) && IsExchange(m)
  {
    if s.toA.Has(Sendme) then Move(true, DeliverSendme)
    else if s.b.outbox.Has(Sendme) then Move(false, Transmit(Sendme, true))
    else if s.b.pending > 0 then Move(false, RunSendme)
    else if s.b.checking > 0 then Move(false, CheckSendme)
    else if s.toB.Has(Data) then Move(false, DeliverData)
    else Move(true, Transmit(Data, true))
  }

  /** While a is blocked no lossless step adds to the potential, and exchange steps use it up. */
  lemma BlockedStepsDrain(s: System, m: Move)
    requires LiveBothWays(s) && s.a.w.package == 0 && Enabled(s, m) && LosesNothing(m.event)
    ensures Potential(Step(s, m)) + (if IsExchange(m) then 1 else 0) <= Potential(s)
  {
  }

  /** A blocked sender can always be unblocked by steps the system itself will take: the run built
      here consists of exchange steps only and ends with an open package window. */
  lemma {:induction false} BlockedSenderRecovers(s: System) returns (run: seq<Move>)
    requires LiveBothWays(s)
    ensures IsRun(s, run) && Lossless(run)
    ensures forall i :: 0 <= i < |run| ==> IsExchange(run[i])
    ensures Final(s, run).a.w.package > 0
    decreases Potential(s)
  {
    if s.a.w.package > 0 {
      return [];
    }
    var m := UnblockingMove(s);
    StepKeepsLive(s, m);
    BlockedStepsDrain(s, m);
    var rest := BlockedSenderRecovers(Step(s, m));
    run := [m] + rest;
    assert run[1..] == rest;
  }

  predicate StaysBlocked(s: System, run: seq<Move>)
    requires IsRun(s, run)
    decreases |run|
  {
    s.a.w.package == 0 && (run == [] || StaysBlocked(Step(s, run[0]), run[1..]))
  }

  function Exchanges(run: seq<Move>): nat {
    if run == [] then 0 else (if IsExchange(run[0]) then 1 else 0) + Exchanges(run[1..])
  }

  /** And it must be: however the two endpoints are scheduled, a lossless run in which a stays blocked
      contains at most `Potential` exchange steps, and at its end another one is enabled. */
  lemma {:induction false} BlockedRunsAreBounded(s: System, run: seq<Move>)
    requires LiveBothWays(s) && IsRun(s, run) && Lossless(run) && StaysBlocked(s, run)
    ensures Exchanges(run) + Potential(Final(s, run)) <= Potential(s)
    ensures exists m :: IsExchange(m) && Enabled(Final(s, run), m)
    decreases |run|
  {
    if run == [] {
      assert IsExchange(UnblockingMove(s));
    } else {
      assert LosesNothing(run[0].event);
      StepKeepsLive(s, run[0]);
      BlockedStepsDrain(s, run[0]);
      BlockedRunsAreBounded(Step(s, run[0]), run[1..]);
    }
  }

  // ----- the 901 bound ------------------------------------------------------------------------

  /** No goroutine takes the lock while a delivery of the same endpoint is between its decrement
      and its check. */
  predicate Undisturbed(s: System, run: seq<Move>)
    requires IsRun(s, run)
    decreases |run|
  {
    run == [] ||
    (&& (run[0].event.RunSendme? ==> (if run[0].byA then s.a else s.b).checking == 0)
     && Undisturbed(Step(s, run[0]), run[1..]))
  }

  function LossAt(s: System, m: Move): nat {
    if !m.byA && m.event.RunSendme? && s.b.w.sendmeReceived >= SENDME_INCREMENT then s.b.checking else 0
  }

  /** What interruptions cost: when a goroutine of b takes the lock with the count at the threshold,
      every delivery that has counted but not checked yet finds the count restarted. */
  function LostAtB(s: System, run: seq<Move>): nat
    requires IsRun(s, run)
    decreases |run|
  {
    if run == [] then 0
    else LossAt(s, run[0]) + LostAtB(Step(s, run[0]), run[1..])
  }

  function GainAt(s: System, m: Move): nat {
    if m.byA then 0
    else if m.event.RunSendme? && 0 <= s.b.w.sendmeReceived < SENDME_INCREMENT - 1 then
      SENDME_INCREMENT - 1 - s.b.w.sendmeReceived
    else if m.event.DeliverData? && s.b.w.deliver > 0 && s.b.w.sendmeReceived == SENDME_INCREMENT - 1 then
      s.b.checking
    else 0
  }

  /** What other orders gain: a goroutine that takes the lock below the threshold grants for cells
      not counted yet, and the delivery that reaches the threshold puts the deliveries still to be
      checked in front of it. */
  function GainedAtB(s: System, run: seq<Move>): nat
    requires IsRun(s, run)
    decreases |run|
  {
    if run == [] then 0
    else GainAt(s, run[0]) + GainedAtB(Step(s, run[0]), run[1..])
  }

  /** The cells counted towards the next goroutine, or from the threshold on the 99 before it and one
      goroutine for every delivery still to be checked. */
  function Counted(e: Endpoint): int {
    if e.w.sendmeReceived < SENDME_INCREMENT then e.w.sendmeReceived else SENDME_INCREMENT - 1 + e.checking
  }

  lemma StepAccount(s: System, m: Move)
    requires Enabled(s, m) && s.b.w.sendmeReceived >= 0
    ensures var t := Step(s, m);
            && t.b.w.sendmeReceived >= 0
            && t.b.w.deliver + Counted(t.b) + t.b.pending
               == s.b.w.deliver + Counted(s.b) + s.b.pending - LossAt(s, m) + GainAt(s, m)
  {
  }

  /** The account of endpoint b over any run, losses included. */
  lemma {:induction false} RunAccount(s: System, run: seq<Move>)
    requires IsRun(s, run) && s.b.w.sendmeReceived >= 0
    ensures var t := Final(s, run);
            && t.b.w.sendmeReceived >= 0
            && t.b.w.deliver + Counted(t.b) + t.b.pending
               == s.b.w.deliver + Counted(s.b) + s.b.pending - LostAtB(s, run) + GainedAtB(s, run)
    decreases |run|
  {
    if run != [] {
      StepAccount(s, run[0]);
      RunAccount(Step(s, run[0]), run[1..]);
    }
  }

  /** The exact account, for every lossless run: the credit that is usable, on the way, pending or
      about to be checked falls short of 1000 by the cells counted but not covered, and by what
      interruptions cost beyond what they gained. It is at least 901 exactly when those shortfalls
      come to at most 99. */
  lemma CreditAccount(run: seq<Move>)
    requires IsRun(Init(), run) && Lossless(run)
    ensures var s := Final(Init(), run);
            var open := Counted(s.b) - s.b.checking;
            var credit := Credit(s.a, s.b, s.toB, s.toA) + s.b.pending + s.b.checking;
            && credit == INITIAL_WINDOW - open - LostAtB(Init(), run) + GainedAtB(Init(), run)
            && (credit >= 901 <==> LostAtB(Init(), run) + open <= GainedAtB(Init(), run) + 99)
  {
    RunAccount(Init(), run);
    LosslessRunsConserveCredit(Init(), run);
  }

  /** In particular all but 99 cells' worth stays, apart from what interruptions have cost. */
  lemma CreditLostOnlyToInterruptions(run: seq<Move>)
    requires IsRun(Init(), run) && Lossless(run)
    ensures var s := Final(Init(), run);
            Credit(s.a, s.b, s.toB, s.toA) + s.b.pending + s.b.checking >= 901 - LostAtB(Init(), run)
  {
    RunAccount(Init(), run);
    CreditAccount(run);
  }

  lemma {:induction false} UndisturbedLosesNothing(s: System, run: seq<Move>)
    requires IsRun(s, run) && Undisturbed(s, run)
    ensures LostAtB(s, run) == 0
    decreases |run|
  {
    if run != [] {
      UndisturbedLosesNothing(Step(s, run[0]), run[1..]);
    }
  }

  /** In particular, if the decrement, the check and the spawn of each delivery are not interrupted
      by a SENDME goroutine, at least 901 cells' worth of credit stays. */
  lemma UsableCreditAtLeast901(run: seq<Move>)
    requires IsRun(Init(), run) && Lossless(run) && Undisturbed(Init(), run)
    ensures var s := Final(Init(), run);
            Credit(s.a, s.b, s.toB, s.toA) + s.b.pending + s.b.checking >= 901
  {
    UndisturbedLosesNothing(Init(), run);
    CreditLostOnlyToInterruptions(run);
  }

  lemma {:induction false} RunsCompose(s: System, r1: seq<Move>, r2: seq<Move>)
    requires IsRun(s, r1) && IsRun(Final(s, r1), r2)
    ensures IsRun(s, r1 + r2) && Final(s, r1 + r2) == Final(Final(s, r1), r2)
    decreases |r1|
  {
    if r1 == [] {
      assert r1 + r2 == r2;
    } else {
      RunsCompose(Step(s, r1[0]), r1[1..], r2);
      assert (r1 + r2)[1..] == r1[1..] + r2;
    }
  }

  /** Nothing on the way; b has received DATA from a only. */
  function Quiet(package: int, deliver: int, received: int, sent: int, pending: nat): System {
    System(Endpoint(Windows(package, INITIAL_WINDOW, 0, 0), Cells(0, 0), 0, 0),
           Endpoint(Windows(INITIAL_WINDOW, deliver, received, sent), Cells(0, 0), 0, pending),
           Cells(0, 0), Cells(0, 0))
  }

  ghost predicate Leads(s: System, run: seq<Move>, t: System) {
    IsRun(s, run) && Lossless(run) && Final(s, run) == t
  }

  lemma Chain(s: System, r1: seq<Move>, t: System, r2: seq<Move>, u: System)
    requires Leads(s, r1, t) && Leads(t, r2, u)
    ensures Leads(s, r1 + r2, u)
  {
    RunsCompose(s, r1, r2);
  }

  lemma Prepend(s: System, m: Move, t: System, run: seq<Move>, u: System)
    requires Enabled(s, m) && LosesNothing(m.event) && Step(s, m) == t && Leads(t, run, u)
    ensures Leads(s, [m] + run, u)
  {
    assert ([m] + run)[1..] == run;
  }

  /** The same with one delivery between its decrement and its check. */
  function Checking(package: int, deliver: int, received: int, sent: int, pending: nat): System {
    var q := Quiet(package, deliver, received, sent, pending);
    q.(b := q.b.(checking := 1))
  }

  /** One DATA cell on the wire. */
  function Carrying(package: int, deliver: int, received: int, sent: int, pending: nat): System {
    Quiet(package, deliver, received, sent, pending).(toB := Cells(1, 0))
  }

  lemma CellSent(package: int, deliver: int, received: int, sent: int, pending: nat) returns (run: seq<Move>)
    requires package > 0
    ensures Leads(Quiet(package, deliver, received, sent, pending), run,
                  Carrying(package - 1, deliver, received, sent, pending))
  {
    var s0 := Quiet(package, deliver, received, sent, pending);
    var s1 := StepA(s0, SendData);
    var s2 := Carrying(package - 1, deliver, received, sent, pending);
    Prepend(s1, Move(true, Transmit(Data, true)), s2, [], s2);
    run := [Move(true, Transmit(Data, true))] + [];
    Prepend(s0, Move(true, SendData), s1, run, s2);
    run := [Move(true, SendData)] + run;
  }

  lemma CellArrives(package: int, deliver: int, received: int, sent: int, pending: nat) returns (run: seq<Move>)
    requires package > 0 && deliver > 0
    ensures Leads(Quiet(package, deliver, received, sent, pending), run,
                  Checking(package - 1, deliver - 1, received + 1, sent, pending))
  {
    var s2 := Carrying(package - 1, deliver, received, sent, pending);
    var s3 := Checking(package - 1, deliver - 1, received + 1, sent, pending);
    run := CellSent(package, deliver, received, sent, pending);
    Prepend(s2, Move(false, DeliverData), s3, [], s3);
    Chain(Quiet(package, deliver, received, sent, pending), run, s2, [Move(false, DeliverData)] + [], s3);
    run := run + ([Move(false, DeliverData)] + []);
  }

  /** One DATA cell sent, carried, delivered and checked without interruption. */
  lemma OneCell(package: int, deliver: int, received: int, sent: int, pending: nat) returns (run: seq<Move>)
    requires package > 0 && deliver > 0
    ensures Leads(Quiet(package, deliver, received, sent, pending), run,
                  Quiet(package - 1, deliver - 1, received + 1, sent,
                        if received + 1 >= 100 then pending + 1 else pending))
  {
    var s0 := Quiet(package, deliver, received, sent, pending);
    var s3 := Checking(package - 1, deliver - 1, received + 1, sent, pending);
    var s4 := Step(s3, Move(false, CheckSendme));
    run := CellArrives(package, deliver, received, sent, pending);
    Prepend(s3, Move(false, CheckSendme), s4, [], s4);
    Chain(s0, run, s3, [Move(false, CheckSendme)] + [], s4);
    run := run + ([Move(false, CheckSendme)] + []);
  }

  lemma {:induction false} ManyCells(n: nat, package: int, deliver: int, sent: int, pending: nat)
      returns (run: seq<Move>)
    requires n <= 99 && package >= n && deliver >= n
    ensures Leads(Quiet(package, deliver, 0, sent, pending), run,
                  Quiet(package - n, deliver - n, n, sent, pending))
  {
    if n == 0 {
      return [];
    }
    run := ManyCells(n - 1, package, deliver, sent, pending);
    var last := OneCell(package - n + 1, deliver - n + 1, n - 1, sent, pending);
    Chain(Quiet(package, deliver, 0, sent, pending), run,
          Quiet(package - n + 1, deliver - n + 1, n - 1, sent, pending), last,
          Quiet(package - n, deliver - n, n, sent, pending));
    run := run + last;
  }

  /** A SENDME that has been granted reaches the sender. */
  lemma SendmeArrives(s: System, package: int, deliver: int, sent: int, pending: nat) returns (run: seq<Move>)
    requires var q := Quiet(package, deliver, 0, sent, pending); s == q.(b := q.b.(outbox := Cells(0, 1)))
    ensures Leads(s, run, Quiet(package + 100, deliver, 0, sent, pending))
  {
    var s1 := Step(s, Move(false, Transmit(Sendme, true)));
    var s2 := Quiet(package + 100, deliver, 0, sent, pending);
    Prepend(s1, Move(true, DeliverSendme), s2, [], s2);
    Prepend(s, Move(false, Transmit(Sendme, true)), s1, [Move(true, DeliverSendme)] + [], s2);
    run := [Move(false, Transmit(Sendme, true))] + ([Move(true, DeliverSendme)] + []);
  }

  /** A goroutine grants, and its SENDME reaches the sender. */
  lemma OneGrant(package: int, deliver: int, received: int, sent: int, pending: nat) returns (run: seq<Move>)
    requires pending > 0
    ensures Leads(Quiet(package, deliver, received, sent, pending), run,
                  Quiet(package + 100, deliver + 100, 0, sent + 1, pending - 1))
  {
    var s0 := Quiet(package, deliver, received, sent, pending);
    var s1 := Step(s0, Move(false, RunSendme));
    run := SendmeArrives(s1, package, deliver + 100, sent + 1, pending - 1);
    Prepend(s0, Move(false, RunSendme), s1, run, Quiet(package + 100, deliver + 100, 0, sent + 1, pending - 1));
    run := [Move(false, RunSendme)] + run;
  }

  /** The goroutine takes the lock between a delivery's decrement and its check. */
  lemma InterruptedCheck(package: int, deliver: int, sent: int) returns (run: seq<Move>)
    ensures Leads(Checking(package, deliver, 100, sent, 1), run, Quiet(package + 100, deliver + 100, 0, sent + 1, 0))
  {
    var s0 := Checking(package, deliver, 100, sent, 1);
    var s1 := Step(s0, Move(false, RunSendme));
    var s2 := Step(s1, Move(false, CheckSendme));
    var end := Quiet(package + 100, deliver + 100, 0, sent + 1, 0);
    run := SendmeArrives(s2, package, deliver + 100, sent + 1, 0);
    Prepend(s1, Move(false, CheckSendme), s2, run, end);
    run := [Move(false, CheckSendme)] + run;
    Prepend(s0, Move(false, RunSendme), s1, run, end);
    run := [Move(false, RunSendme)] + run;
  }

  /** Up to the first grant, with a second goroutine left over. */
  lemma FirstGrant() returns (run: seq<Move>)
    ensures Leads(Init(), run, Quiet(999, 999, 0, 1, 1))
  {
    var r1 := ManyCells(99, 1000, 1000, 0, 0);
    var r2 := OneCell(901, 901, 99, 0, 0);
    var r3 := OneCell(900, 900, 100, 0, 1);
    var r4 := OneGrant(899, 899, 101, 0, 2);
    Chain(Init(), r1, Quiet(901, 901, 99, 0, 0), r2, Quiet(900, 900, 100, 0, 1));
    Chain(Init(), r1 + r2, Quiet(900, 900, 100, 0, 1), r3, Quiet(899, 899, 101, 0, 2));
    Chain(Init(), r1 + r2 + r3, Quiet(899, 899, 101, 0, 2), r4, Quiet(999, 999, 0, 1, 1));
    run := r1 + r2 + r3 + r4;
  }

  /** Ninety-nine more cells, then the interrupted one, then ninety-nine again. */
  lemma SecondGrant() returns (run: seq<Move>)
    ensures Leads(Quiet(999, 999, 0, 1, 1), run, Quiet(900, 900, 99, 2, 0))
  {
    var r1 := ManyCells(99, 999, 999, 1, 1);
    var r2 := CellArrives(900, 900, 99, 1, 1);
    var r3 := InterruptedCheck(899, 899, 1);
    var r4 := ManyCells(99, 999, 999, 2, 0);
    var start := Quiet(999, 999, 0, 1, 1);
    Chain(start, r1, Quiet(900, 900, 99, 1, 1), r2, Checking(899, 899, 100, 1, 1));
    Chain(start, r1 + r2, Checking(899, 899, 100, 1, 1), r3, Quiet(999, 999, 0, 2, 0));
    Chain(start, r1 + r2 + r3, Quiet(999, 999, 0, 2, 0), r4, Quiet(900, 900, 99, 2, 0));
    run := r1 + r2 + r3 + r4;
  }

  /** The `Undisturbed` condition is needed: one interruption loses a cell's worth of credit, and a
      lossless run reaches a quiet state with only 900 left. */
  lemma InterruptionLosesCredit() returns (run: seq<Move>)
    ensures IsRun(Init(), run) && Lossless(run)
    ensures var s := Final(Init(), run);
            s == Quiet(900, 900, 99, 2, 0) && Credit(s.a, s.b, s.toB, s.toA) + s.b.pending + s.b.checking == 900
  {
    var r1 := FirstGrant();
    var r2 := SecondGrant();
    Chain(Init(), r1, Quiet(999, 999, 0, 1, 1), r2, Quiet(900, 900, 99, 2, 0));
    run := r1 + r2;
  }
}
