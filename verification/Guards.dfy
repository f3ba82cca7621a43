/** Persistent guards (pkg/path/guards.go). */
module Guards {
  datatype Relay = Relay(fingerprint: string, nickname: string, address: string, isExit: bool)

  datatype GuardEntry = GuardEntry(fingerprint: string, nickname: string, address: string,
                                   firstUsed: int, lastUsed: int, confirmed: bool)

  // ----- the guard list as a value ------------------------------------------------------------

  /** The index of the first entry with this fingerprint, or the length. */
  function Find(gs: seq<GuardEntry>, fingerprint: string): (i: nat)
    ensures i <= |gs|
    ensures i < |gs| ==> gs[i].fingerprint == fingerprint
    ensures forall j :: 0 <= j < i ==> gs[j].fingerprint != fingerprint
  {
    if gs == [] || gs[0].fingerprint == fingerprint then 0 else 1 + Find(gs[1..], fingerprint)
  }

  /** The index of the first unconfirmed entry, or the length. */
  function FindUnconfirmed(gs: seq<GuardEntry>): (i: nat)
    ensures i <= |gs|
    ensures i < |gs| ==> !gs[i].confirmed
    ensures forall j :: 0 <= j < i ==> gs[j].confirmed
  {
    if gs == [] || !gs[0].confirmed then 0 else 1 + FindUnconfirmed(gs[1..])
  }

  function Without(gs: seq<GuardEntry>, i: nat): seq<GuardEntry>
    requires i < |gs|
  {
    gs[..i] + gs[i + 1..]
  }

  function Refreshed(gs: seq<GuardEntry>, i: nat, now: int): seq<GuardEntry>
    requires i < |gs|
  {
    gs[i := gs[i].(lastUsed := now, confirmed := true)]
  }

  function NewEntry(relay: Relay, now: int): GuardEntry {
    GuardEntry(relay.fingerprint, relay.nickname, relay.address, now, now, false)
  }

  function Add(gs: seq<GuardEntry>, max: int, relay: Relay, now: int): seq<GuardEntry> {
    var i := Find(gs, relay.fingerprint);
    if i < |gs| then Refreshed(gs, i, now)
    else if |gs| < max then gs + [NewEntry(relay, now)]
    else
      var u := FindUnconfirmed(gs);
      if u == |gs| then gs else Without(gs, u) + [NewEntry(relay, now)]
  }

  function Confirm(gs: seq<GuardEntry>, fingerprint: string, now: int): seq<GuardEntry> {
    var i := Find(gs, fingerprint);
    if i < |gs| then Refreshed(gs, i, now) else gs
  }

  function Remove(gs: seq<GuardEntry>, fingerprint: string): seq<GuardEntry> {
    var i := Find(gs, fingerprint);
    if i < |gs| then Without(gs, i) else gs
  }

  /** The entries used recently enough, in order. */
  function Unexpired(gs: seq<GuardEntry>, now: int, expiry: int): seq<GuardEntry> {
    if gs == [] then []
    else
      var before, last := Unexpired(gs[..|gs| - 1], now, expiry), gs[|gs| - 1];
      if now - last.lastUsed < expiry then before + [last] else before
  }

  // ----- what every operation keeps -----------------------------------------------------------

  ghost predicate Distinct(gs: seq<GuardEntry>) {
    forall i, j :: 0 <= i < j < |gs| ==> gs[i].fingerprint != gs[j].fingerprint
  }

  /** Oldest first, and nothing from the future. */
  ghost predicate OldestFirst(gs: seq<GuardEntry>, clock: int) {
    && (forall i, j :: 0 <= i < j < |gs| ==> gs[i].firstUsed <= gs[j].firstUsed)
    && (forall i :: 0 <= i < |gs| ==> gs[i].firstUsed <= clock)
  }

  ghost predicate WellFormed(gs: seq<GuardEntry>, max: int, clock: int) {
    Distinct(gs) && OldestFirst(gs, clock) && |gs| <= max
  }

  lemma {:induction false} UnexpiredMembers(gs: seq<GuardEntry>, now: int, expiry: int, e: GuardEntry)
    ensures e in Unexpired(gs, now, expiry) <==> e in gs && now - e.lastUsed < expiry
  {
    if gs != [] {
      var init, last := gs[..|gs| - 1], gs[|gs| - 1];
      UnexpiredMembers(init, now, expiry, e);
      assert gs == init + [last];
    }
  }

  /** Cleaning keeps the list well formed and keeps exactly the unexpired entries. */
  lemma {:induction false} UnexpiredIsSubsequence(gs: seq<GuardEntry>, now: int, expiry: int, max: int, clock: int)
    requires WellFormed(gs, max, clock)
    ensures WellFormed(Unexpired(gs, now, expiry), max, clock)
  {
    if gs != [] {
      var init, last := gs[..|gs| - 1], gs[|gs| - 1];
      UnexpiredIsSubsequence(init, now, expiry, max - 1, clock);
      var u := Unexpired(init, now, expiry);
      forall i | 0 <= i < |u|
        ensures u[i].fingerprint != last.fingerprint && u[i].firstUsed <= last.firstUsed
      {
        UnexpiredMembers(init, now, expiry, u[i]);
        var k :| 0 <= k < |init| && init[k] == u[i];
        assert gs[k] == init[k];
      }
    }
  }

  datatype Op =
    | AddGuard(relay: Relay)
    | ConfirmGuard(fingerprint: string)
    | RemoveGuard(fingerprint: string)
    | CleanupExpired

  function Apply(gs: seq<GuardEntry>, max: int, expiry: int, op: Op, now: int): seq<GuardEntry> {
    match op
    case AddGuard(r) => Add(gs, max, r, now)
    case ConfirmGuard(f) => Confirm(gs, f, now)
    case RemoveGuard(f) => Remove(gs, f)
    case CleanupExpired => Unexpired(gs, now, expiry)
  }

  lemma WithoutKeepsWellFormed(gs: seq<GuardEntry>, i: nat, max: int, clock: int)
    requires WellFormed(gs, max, clock) && i < |gs|
    ensures WellFormed(Without(gs, i), max - 1, clock)
  {
  }

  lemma AppendKeepsWellFormed(gs: seq<GuardEntry>, max: int, clock: int, relay: Relay, now: int)
    requires WellFormed(gs, max - 1, clock) && clock <= now
    requires forall j :: 0 <= j < |gs| ==> gs[j].fingerprint != relay.fingerprint
    ensures WellFormed(gs + [NewEntry(relay, now)], max, now)
  {
  }

  lemma RefreshKeepsWellFormed(gs: seq<GuardEntry>, i: nat, max: int, clock: int, now: int)
    requires WellFormed(gs, max, clock) && clock <= now && i < |gs|
    ensures WellFormed(Refreshed(gs, i, now), max, now)
  {
  }

  lemma AddKeepsWellFormed(gs: seq<GuardEntry>, max: int, relay: Relay, clock: int, now: int)
    requires WellFormed(gs, max, clock) && clock <= now
    ensures WellFormed(Add(gs, max, relay, now), max, now)
  {
    var i, u := Find(gs, relay.fingerprint), FindUnconfirmed(gs);
    if i < |gs| {
      RefreshKeepsWellFormed(gs, i, max, clock, now);
    } else if |gs| < max {
      AppendKeepsWellFormed(gs, max, clock, relay, now);
    } else if u < |gs| {
      WithoutKeepsWellFormed(gs, u, max, clock);
      AppendKeepsWellFormed(Without(gs, u), max, clock, relay, now);
    }
  }

  lemma ApplyKeepsWellFormed(gs: seq<GuardEntry>, max: int, expiry: int, op: Op, clock: int, now: int)
    requires WellFormed(gs, max, clock) && clock <= now
    ensures WellFormed(Apply(gs, max, expiry, op, now), max, now)
  {
    match op
    case AddGuard(r) => AddKeepsWellFormed(gs, max, r, clock, now);
    case ConfirmGuard(f) =>
      if Find(gs, f) < |gs| {
        RefreshKeepsWellFormed(gs, Find(gs, f), max, clock, now);
      }
    case RemoveGuard(f) =>
      if Find(gs, f) < |gs| {
        WithoutKeepsWellFormed(gs, Find(gs, f), max, clock);
      }
    case CleanupExpired => UnexpiredIsSubsequence(gs, now, expiry, max, now);
  }

  /** Each operation with the time it runs at. */
  datatype Timed = Timed(op: Op, now: int)

  predicate InOrder(ops: seq<Timed>, clock: int)
    decreases |ops|
  {
    ops == [] || (clock <= ops[0].now && InOrder(ops[1..], ops[0].now))
  }

  function EndOf(ops: seq<Timed>, clock: int): int {
    if ops == [] then clock else ops[|ops| - 1].now
  }

  function ApplyAll(gs: seq<GuardEntry>, max: int, expiry: int, ops: seq<Timed>): seq<GuardEntry>
    decreases |ops|
  {
    if ops == [] then gs
    else ApplyAll(Apply(gs, max, expiry, ops[0].op, ops[0].now), max, expiry, ops[1..])
  }

  /** Nothing in the run removes this fingerprint on purpose. */
  predicate NeverRemoves(ops: seq<Timed>, fingerprint: string) {
    forall i :: 0 <= i < |ops| ==> ops[i].op != RemoveGuard(fingerprint)
  }

  /** Every cleanup of the run comes before this time. */
  predicate CleansBefore(ops: seq<Timed>, time: int) {
    forall i :: 0 <= i < |ops| ==> ops[i].op.CleanupExpired? ==> ops[i].now < time
  }

  ghost predicate ConfirmedAt(gs: seq<GuardEntry>, i: int, fingerprint: string, since: int) {
    0 <= i < |gs| && gs[i].fingerprint == fingerprint && gs[i].confirmed && gs[i].lastUsed >= since
  }

  /** A confirmed entry for the fingerprint, used no earlier than a given time. */
  ghost predicate HoldsConfirmed(gs: seq<GuardEntry>, fingerprint: string, since: int) {
    exists i :: ConfirmedAt(gs, i, fingerprint, since)
  }

  /** AddGuard either keeps every entry in its place, confirmed ones confirmed, or (u < |gs|) drops
      exactly entry u of a full list, which is unconfirmed and the oldest such, and appends the new
      guard. */
  lemma AddEvictsOldestUnconfirmed(gs: seq<GuardEntry>, max: int, relay: Relay, clock: int, now: int)
      returns (u: nat)
    requires WellFormed(gs, max, clock) && clock <= now
    ensures var gs' := Add(gs, max, relay, now);
            && u <= |gs|
            && (u < |gs| ==>
                  && |gs| == max && !gs[u].confirmed
                  && (forall j :: 0 <= j < |gs| && !gs[j].confirmed ==> gs[u].firstUsed <= gs[j].firstUsed)
                  && gs' == gs[..u] + gs[u + 1..] + [NewEntry(relay, now)])
            && (u == |gs| ==>
                  && |gs| <= |gs'|
                  && forall j :: 0 <= j < |gs| ==>
                       gs'[j].fingerprint == gs[j].fingerprint && (gs[j].confirmed ==> gs'[j].confirmed))
  {
    var unknown := Find(gs, relay.fingerprint) == |gs|;
    u := if unknown && |gs| >= max then FindUnconfirmed(gs) else |gs|;
  }

  lemma AddKeepsConfirmed(gs: seq<GuardEntry>, max: int, relay: Relay, now: int, i: nat,
                          fingerprint: string, since: int)
    requires ConfirmedAt(gs, i, fingerprint, since) && since <= now
    ensures HoldsConfirmed(Add(gs, max, relay, now), fingerprint, since)
  {
    var gs' := Add(gs, max, relay, now);
    if Find(gs, relay.fingerprint) == |gs| && |gs| >= max && FindUnconfirmed(gs) < i {
      assert ConfirmedAt(gs', i - 1, fingerprint, since);
    } else {
      assert ConfirmedAt(gs', i, fingerprint, since);
    }
  }

  lemma RemoveKeepsConfirmed(gs: seq<GuardEntry>, f: string, i: nat, fingerprint: string, since: int)
    requires ConfirmedAt(gs, i, fingerprint, since) && f != fingerprint
    ensures HoldsConfirmed(Remove(gs, f), fingerprint, since)
  {
    assert ConfirmedAt(Remove(gs, f), if Find(gs, f) < i then i - 1 else i, fingerprint, since);
  }

  lemma ApplyKeepsConfirmed(gs: seq<GuardEntry>, max: int, expiry: int, t: Timed, clock: int,
                            fingerprint: string, since: int)
    requires WellFormed(gs, max, clock) && clock <= t.now && since <= t.now
    requires HoldsConfirmed(gs, fingerprint, since) && t.op != RemoveGuard(fingerprint)
    requires t.op.CleanupExpired? ==> t.now < since + expiry
    ensures HoldsConfirmed(Apply(gs, max, expiry, t.op, t.now), fingerprint, since)
  {
    var i :| ConfirmedAt(gs, i, fingerprint, since);
    var gs' := Apply(gs, max, expiry, t.op, t.now);
    match t.op
    case AddGuard(r) => AddKeepsConfirmed(gs, max, r, t.now, i, fingerprint, since);
    case ConfirmGuard(f) => assert ConfirmedAt(gs', i, fingerprint, since);
    case RemoveGuard(f) => RemoveKeepsConfirmed(gs, f, i, fingerprint, since);
    case CleanupExpired =>
      UnexpiredMembers(gs, t.now, expiry, gs[i]);
      var k :| 0 <= k < |gs'| && gs'[k] == gs[i];
      assert ConfirmedAt(gs', k, fingerprint, since);
  }

  /** Over any run in time order the list keeps distinct fingerprints, its size bound and its age
      order; and a confirmed guard stays confirmed in the list until it is removed by name or a
      cleanup comes at least the expiry time after its last use. */
  lemma {:induction false} ConfirmedGuardsStay(gs: seq<GuardEntry>, max: int, expiry: int, ops: seq<Timed>, clock: int,
                                               fingerprint: string, since: int)
    requires WellFormed(gs, max, clock) && InOrder(ops, clock) && since <= clock
    ensures WellFormed(ApplyAll(gs, max, expiry, ops), max, EndOf(ops, clock))
    ensures HoldsConfirmed(gs, fingerprint, since)
            && NeverRemoves(ops, fingerprint) && CleansBefore(ops, since + expiry)
            ==> HoldsConfirmed(ApplyAll(gs, max, expiry, ops), fingerprint, since)
    decreases |ops|
  {
    if ops != [] {
      var t := ops[0];
      ApplyKeepsWellFormed(gs, max, expiry, t.op, clock, t.now);
      if HoldsConfirmed(gs, fingerprint, since) && NeverRemoves(ops, fingerprint) && CleansBefore(ops, since + expiry) {
        ApplyKeepsConfirmed(gs, max, expiry, t, clock, fingerprint, since);
        assert NeverRemoves(ops[1..], fingerprint) && CleansBefore(ops[1..], since + expiry);
      }
      ConfirmedGuardsStay(Apply(gs, max, expiry, t.op, t.now), max, expiry, ops[1..], t.now, fingerprint, since);
    }
  }

  /** A guard that was added is at the end of the list, unconfirmed, under the relay's nickname and
      address; one that was in the list stays in its place and is confirmed and used now. */
  lemma AddedGuard(gs: seq<GuardEntry>, max: int, relay: Relay, now: int, i: nat)
    requires i <= |gs| && (forall j :: 0 <= j < i ==> gs[j].fingerprint != relay.fingerprint)
    requires i < |gs| ==> gs[i].fingerprint == relay.fingerprint
    ensures var gs' := Add(gs, max, relay, now);
            && (i < |gs| ==>
                  && |gs'| == |gs| && (forall j :: 0 <= j < |gs| && j != i ==> gs'[j] == gs[j])
                  && gs'[i] == GuardEntry(gs[i].fingerprint, gs[i].nickname, gs[i].address, gs[i].firstUsed, now, true))
            && (i == |gs| && gs' != gs ==>
                  && gs' != []
                  && gs'[|gs'| - 1]
                     == GuardEntry(relay.fingerprint, relay.nickname, relay.address, now, now, false))
            && (i == |gs| ==> (gs' == gs <==> |gs| >= max && forall j :: 0 <= j < |gs| ==> gs[j].confirmed))
  {
    assert Find(gs, relay.fingerprint) == i;
    var u := FindUnconfirmed(gs);
    if i == |gs| && |gs| >= max && u < |gs| {
      var gs' := Add(gs, max, relay, now);
      assert gs'[|gs'| - 1] == NewEntry(relay, now) && gs' != gs;
    }
  }

  /** Confirming a guard of the list leaves it confirmed and used now, and every other entry as it was;
      no later AddGuard evicts it. */
  lemma ConfirmedGuardIsKept(gs: seq<GuardEntry>, max: int, fingerprint: string, now: int, relay: Relay, later: int)
    requires Find(gs, fingerprint) < |gs| && now <= later
    ensures var gs', i := Confirm(gs, fingerprint, now), Find(gs, fingerprint);
            && |gs'| == |gs| && (forall j :: 0 <= j < |gs| && j != i ==> gs'[j] == gs[j])
            && gs'[i].confirmed && gs'[i].lastUsed == now
            && gs'[i] == gs[i].(lastUsed := now, confirmed := true)
            && HoldsConfirmed(gs', fingerprint, now)
            && HoldsConfirmed(Add(gs', max, relay, later), fingerprint, now)
  {
    var i := Find(gs, fingerprint);
    assert ConfirmedAt(Confirm(gs, fingerprint, now), i, fingerprint, now);
    AddKeepsConfirmed(Confirm(gs, fingerprint, now), max, relay, later, i, fingerprint, now);
  }

  /** Removing a guard leaves the others, in order. */
  lemma RemovedGuard(gs: seq<GuardEntry>, fingerprint: string)
    requires Distinct(gs)
    ensures forall e :: e in Remove(gs, fingerprint) <==> e in gs && e.fingerprint != fingerprint
  {
    var i := Find(gs, fingerprint);
    if i < |gs| {
      assert gs == gs[..i] + [gs[i]] + gs[i + 1..];
    }
  }

  // ----- the guard manager --------------------------------------------------------------------

  lemma {:induction false} SameLengthMeansSame(gs: seq<GuardEntry>, now: int, expiry: int)
    ensures |Unexpired(gs, now, expiry)| <= |gs|
    ensures |Unexpired(gs, now, expiry)| == |gs| ==> Unexpired(gs, now, expiry) == gs
  {
    if gs != [] {
      SameLengthMeansSame(gs[..|gs| - 1], now, expiry);
      assert gs == gs[..|gs| - 1] + [gs[|gs| - 1]];
    }
  }

  class GuardManager {
    var guards: seq<GuardEntry>
    const maxGuards: int
    const guardExpiry: int

    constructor (guards: seq<GuardEntry>, maxGuards: int, guardExpiry: int)
      ensures this.guards == guards && this.maxGuards == maxGuards && this.guardExpiry == guardExpiry
    {
      this.guards, this.maxGuards, this.guardExpiry := guards, maxGuards, guardExpiry;
    }

    method IndexOf(fingerprint: string) returns (i: nat)
      ensures i == Find(guards, fingerprint)
    {
      i := 0;
      while i < |guards|
        invariant 0 <= i <= |guards|
        invariant forall j :: 0 <= j < i ==> guards[j].fingerprint != fingerprint
      {
        if guards[i].fingerprint == fingerprint {
          return;
        }
        i := i + 1;
      }
    }

    method GetGuards(now: int) returns (valid: seq<GuardEntry>)
      ensures valid == Unexpired(guards, now, guardExpiry)
    {
      valid := [];
      for i := 0 to |guards|
        invariant valid == Unexpired(guards[..i], now, guardExpiry)
      {
        assert guards[..i + 1][..i] == guards[..i];
        if now - guards[i].lastUsed < guardExpiry {
          valid := valid + [guards[i]];
        }
      }
      assert guards[..|guards|] == guards;
    }

    method AddGuard(relay: Relay, now: int)
      modifies this
      ensures guards == Add(old(guards), maxGuards, relay, now)
    {
      var i := IndexOf(relay.fingerprint);
      if i < |guards| {
        guards := guards[i := guards[i].(lastUsed := now, confirmed := true)];
        return;
      }
      if |guards| >= maxGuards {
        var removed := false;
        var k := 0;
        while k < |guards| && !removed
          invariant 0 <= k <= |old(guards)|
          invariant !removed ==> guards == old(guards) && forall j :: 0 <= j < k ==> guards[j].confirmed
          invariant removed ==> k < |old(guards)| && k == FindUnconfirmed(old(guards))
                                && guards == Without(old(guards), k)
          decreases |old(guards)| - k, !removed
        {
          if !guards[k].confirmed {
            guards := guards[..k] + guards[k + 1..];
            removed := true;
          } else {
            k := k + 1;
          }
        }
        if !removed {
          return;
        }
      }
      guards := guards + [GuardEntry(relay.fingerprint, relay.nickname, relay.address, now, now, false)];
    }

    method ConfirmGuard(fingerprint: string, now: int) returns (found: bool)
      modifies this
      ensures found <==> Find(old(guards), fingerprint) < |old(guards)|
      ensures guards == Confirm(old(guards), fingerprint, now)
    {
      var i := IndexOf(fingerprint);
      if i == |guards| {
        return false;
      }
      guards := guards[i := guards[i].(confirmed := true)];
      guards := guards[i := guards[i].(lastUsed := now)];
      return true;
    }

    method RemoveGuard(fingerprint: string) returns (found: bool)
      modifies this
      ensures found <==> Find(old(guards), fingerprint) < |old(guards)|
      ensures guards == Remove(old(guards), fingerprint)
    {
      var i := IndexOf(fingerprint);
      if i == |guards| {
        return false;
      }
      guards := guards[..i] + guards[i + 1..];
      return true;
    }

    method CleanupExpired(now: int)
      modifies this
      ensures guards == Unexpired(old(guards), now, guardExpiry)
    {
      var valid := GetGuards(now);
      if |valid| != |guards| {
        guards := valid;
      } else {
        SameLengthMeansSame(guards, now, guardExpiry);
      }
    }
  }
}
