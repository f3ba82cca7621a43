/** Path selection (pkg/path/path.go): a persistent guard, an exit and a middle relay.
    Random indices are nondeterministic choices, and the random source may fail. */
module Paths {
  import opened Wrappers
  import opened Guards

  datatype Path = Path(guard: Relay, middle: Relay, exit: Relay)

  datatype Error = NoConsensus | NoGuards | NoExit | NoMiddle | NoRandomness

  // ----- which guard is preferred -------------------------------------------------------------

  function RelayWith(relays: seq<Relay>, fingerprint: string): (r: Option<Relay>)
    ensures r.Some? ==> r.value in relays && r.value.fingerprint == fingerprint
  {
    if relays == [] then None
    else if relays[0].fingerprint == fingerprint then Some(relays[0])
    else RelayWith(relays[1..], fingerprint)
  }

  lemma {:induction false} RelayWithFinds(relays: seq<Relay>, relay: Relay)
    requires relay in relays
    ensures RelayWith(relays, relay.fingerprint).Some?
  {
    if relays[0].fingerprint != relay.fingerprint {
      RelayWithFinds(relays[1..], relay);
    }
  }

  /** The first persisted guard that is in the consensus. */
  function FirstKnown(persisted: seq<GuardEntry>, consensus: seq<Relay>): (r: Option<Relay>)
    ensures r.Some? ==> r.value in consensus
  {
    if persisted == [] then None
    else if RelayWith(consensus, persisted[0].fingerprint).Some? then RelayWith(consensus, persisted[0].fingerprint)
    else FirstKnown(persisted[1..], consensus)
  }

  function Preferred(gs: seq<GuardEntry>, now: int, expiry: int, consensus: seq<Relay>): Option<Relay> {
    FirstKnown(Unexpired(gs, now, expiry), consensus)
  }

  /** An entry that is unexpired and in the consensus. */
  predicate Usable(e: GuardEntry, now: int, expiry: int, consensus: seq<Relay>) {
    now - e.lastUsed < expiry && RelayWith(consensus, e.fingerprint).Some?
  }

  /** Entry i is the first usable one; i is the length if there is none. */
  ghost predicate FirstUsable(gs: seq<GuardEntry>, now: int, expiry: int, consensus: seq<Relay>, i: nat) {
    && i <= |gs|
    && (i < |gs| ==> Usable(gs[i], now, expiry, consensus))
    && forall j :: 0 <= j < i ==> !Usable(gs[j], now, expiry, consensus)
  }

  lemma {:induction false} FirstKnownAppends(a: seq<GuardEntry>, e: GuardEntry, consensus: seq<Relay>)
    ensures FirstKnown(a + [e], consensus) ==
            if FirstKnown(a, consensus).Some? then FirstKnown(a, consensus)
            else RelayWith(consensus, e.fingerprint)
  {
    if a == [] {
      assert (a + [e])[1..] == [];
    } else {
      assert (a + [e])[1..] == a[1..] + [e];
      FirstKnownAppends(a[1..], e, consensus);
    }
  }

  /** The preferred guard is the consensus relay of the first usable entry. */
  lemma {:induction false} PreferredIsFirstUsable(gs: seq<GuardEntry>, now: int, expiry: int,
                                                  consensus: seq<Relay>, i: nat)
    requires FirstUsable(gs, now, expiry, consensus, i)
    ensures Preferred(gs, now, expiry, consensus) ==
            if i < |gs| then RelayWith(consensus, gs[i].fingerprint) else None
  {
    if gs != [] {
      var n := |gs| - 1;
      assert FirstUsable(gs[..n], now, expiry, consensus, if i < n then i else n);
      PreferredIsFirstUsable(gs[..n], now, expiry, consensus, if i < n then i else n);
      FirstKnownAppends(Unexpired(gs[..n], now, expiry), gs[n], consensus);
      assert i == |gs| ==> !Usable(gs[n], now, expiry, consensus);
    }
  }

  lemma SomeFirstUsable(gs: seq<GuardEntry>, now: int, expiry: int, consensus: seq<Relay>) returns (i: nat)
    ensures FirstUsable(gs, now, expiry, consensus, i)
  {
    i := 0;
    while i < |gs| && !Usable(gs[i], now, expiry, consensus)
      invariant 0 <= i <= |gs|
      invariant forall j :: 0 <= j < i ==> !Usable(gs[j], now, expiry, consensus)
    {
      i := i + 1;
    }
  }

  /** An entry stays the first usable one until it expires. */
  lemma StaysFirstUsable(gs: seq<GuardEntry>, expiry: int, consensus: seq<Relay>, earlier: int, later: int, i: nat)
    requires earlier <= later && i < |gs| && FirstUsable(gs, earlier, expiry, consensus, i)
    requires later < gs[i].lastUsed + expiry
    ensures FirstUsable(gs, later, expiry, consensus, i)
  {
    forall j | 0 <= j < i
      ensures !Usable(gs[j], later, expiry, consensus)
    {
      assert !Usable(gs[j], earlier, expiry, consensus);
    }
  }

  /** Stability: as time passes over an unchanged list and consensus, the preferred guard stays the
      same until the moment its own entry expires. */
  lemma GuardIsSticky(gs: seq<GuardEntry>, expiry: int, consensus: seq<Relay>, earlier: int, later: int, i: nat)
    requires earlier <= later && i < |gs| && FirstUsable(gs, earlier, expiry, consensus, i)
    requires later < gs[i].lastUsed + expiry
    ensures Preferred(gs, later, expiry, consensus) == Preferred(gs, earlier, expiry, consensus)
    ensures Preferred(gs, later, expiry, consensus).Some?
  {
    StaysFirstUsable(gs, expiry, consensus, earlier, later, i);
    PreferredIsFirstUsable(gs, earlier, expiry, consensus, i);
    PreferredIsFirstUsable(gs, later, expiry, consensus, i);
  }

  lemma NoneUsable(gs: seq<GuardEntry>, now: int, expiry: int, consensus: seq<Relay>)
    requires Preferred(gs, now, expiry, consensus).None?
    ensures FirstUsable(gs, now, expiry, consensus, |gs|)
  {
    var i := SomeFirstUsable(gs, now, expiry, consensus);
    PreferredIsFirstUsable(gs, now, expiry, consensus, i);
  }

  lemma RefreshedIsFirst(gs: seq<GuardEntry>, now: int, expiry: int, consensus: seq<Relay>, f: nat)
    requires FirstUsable(gs, now, expiry, consensus, |gs|) && f < |gs| && expiry > 0
    requires RelayWith(consensus, gs[f].fingerprint).Some?
    ensures FirstUsable(Refreshed(gs, f, now), now, expiry, consensus, f)
  {
  }

  lemma AppendedIsFirst(gs: seq<GuardEntry>, e: GuardEntry, now: int, expiry: int, consensus: seq<Relay>)
    requires FirstUsable(gs, now, expiry, consensus, |gs|) && Usable(e, now, expiry, consensus)
    ensures FirstUsable(gs + [e], now, expiry, consensus, |gs|)
  {
  }

  lemma StillNoneUsable(gs: seq<GuardEntry>, now: int, expiry: int, consensus: seq<Relay>, u: nat)
    requires FirstUsable(gs, now, expiry, consensus, |gs|) && u < |gs|
    ensures FirstUsable(Without(gs, u), now, expiry, consensus, |gs| - 1)
  {
  }

  /** A guard picked because none was preferred is preferred from then on exactly when the list had
      its entry, a free slot or an unconfirmed entry to give up; a full list of confirmed guards
      forgets it. */
  lemma PickedGuardIsRemembered(gs: seq<GuardEntry>, max: int, expiry: int, consensus: seq<Relay>,
                                relay: Relay, now: int)
    requires expiry > 0 && relay in consensus && Preferred(gs, now, expiry, consensus).None?
    ensures var after := Preferred(Add(gs, max, relay, now), now, expiry, consensus);
            (after.Some? && after.value.fingerprint == relay.fingerprint) <==>
            (Find(gs, relay.fingerprint) < |gs| || |gs| < max || FindUnconfirmed(gs) < |gs|)
  {
    NoneUsable(gs, now, expiry, consensus);
    RelayWithFinds(consensus, relay);
    var gs', e := Add(gs, max, relay, now), NewEntry(relay, now);
    var f, u := Find(gs, relay.fingerprint), FindUnconfirmed(gs);
    if f < |gs| {
      RefreshedIsFirst(gs, now, expiry, consensus, f);
      PreferredIsFirstUsable(gs', now, expiry, consensus, f);
    } else if |gs| < max {
      AppendedIsFirst(gs, e, now, expiry, consensus);
      PreferredIsFirstUsable(gs', now, expiry, consensus, |gs|);
    } else if u < |gs| {
      StillNoneUsable(gs, now, expiry, consensus, u);
      AppendedIsFirst(Without(gs, u), e, now, expiry, consensus);
      PreferredIsFirstUsable(gs', now, expiry, consensus, |gs| - 1);
    }
  }

  // ----- the selector -------------------------------------------------------------------------

  /** An exit-flagged relay is taken if there is one besides the guard. */
  ghost predicate GoodExit(relays: seq<Relay>, guard: Relay, exit: Relay) {
    && exit in relays && exit.fingerprint != guard.fingerprint
    && (exit.isExit || forall r :: r in relays && r.isExit ==> r.fingerprint == guard.fingerprint)
  }

  ghost predicate HasTwoOthers(relays: seq<Relay>, guard: Relay) {
    exists x, y :: x in relays && y in relays && x.fingerprint != y.fingerprint
                   && x.fingerprint != guard.fingerprint && y.fingerprint != guard.fingerprint
  }

  method RandomIndex(max: int) returns (r: Result<nat, Error>)
    ensures r.Ok? ==> r.value < max
    ensures r.Err? ==> r.error == NoRandomness
  {
    if max <= 0 {
      return Err(NoRandomness);
    }
    if * {
      return Err(NoRandomness);
    }
    var i :| 0 <= i < max;
    return Ok(i);
  }

  class Selector {
    const guardManager: GuardManager?
    var guards: seq<Relay>
    var relays: seq<Relay>

    constructor (guardManager: GuardManager?)
      ensures this.guardManager == guardManager && guards == [] && relays == []
    {
      this.guardManager, guards, relays := guardManager, [], [];
    }

    /** The nested search of `selectGuard`. */
    method FindPersistent(persisted: seq<GuardEntry>) returns (r: Option<Relay>)
      ensures r == FirstKnown(persisted, guards)
    {
      assert persisted[0..] == persisted;
      for i := 0 to |persisted|
        invariant FirstKnown(persisted[i..], guards) == FirstKnown(persisted, guards)
      {
        assert persisted[i..][1..] == persisted[i + 1..];
        assert guards[0..] == guards;
        for j := 0 to |guards|
          invariant RelayWith(guards[j..], persisted[i].fingerprint) == RelayWith(guards, persisted[i].fingerprint)
        {
          assert guards[j..][1..] == guards[j + 1..];
          if guards[j].fingerprint == persisted[i].fingerprint {
            return Some(guards[j]);
          }
        }
      }
      return None;
    }

    method SelectGuard(now: int) returns (r: Result<Relay, Error>)
      modifies guardManager
      ensures r.Ok? ==> r.value in guards
      ensures r == Err(NoGuards) <==> guards == []
      ensures r.Err? ==>
                && (r.error == NoGuards || r.error == NoRandomness)
                && (guardManager != null ==> guardManager.guards == old(guardManager.guards))
      ensures guardManager != null && guards != [] ==>
                var preferred := Preferred(old(guardManager.guards), now, guardManager.guardExpiry, guards);
                && (preferred.Some? ==> r == Ok(preferred.value) && guardManager.guards == old(guardManager.guards))
                && (preferred.None? && r.Ok? ==>
                      guardManager.guards == Add(old(guardManager.guards), guardManager.maxGuards, r.value, now))
    {
      if |guards| == 0 {
        return Err(NoGuards);
      }
      if guardManager != null {
        var persisted := guardManager.GetGuards(now);
        var found := FindPersistent(persisted);
        if found.Some? {
          return Ok(found.value);
        }
      }
      var idx := RandomIndex(|guards|);
      if idx.Err? {
        return Err(NoRandomness);
      }
      var guard := guards[idx.value];
      if guardManager != null {
        guardManager.AddGuard(guard, now);
      }
      return Ok(guard);
    }

    method SelectExit(avoid: Relay) returns (r: Result<Relay, Error>)
      ensures r.Ok? ==> GoodExit(relays, avoid, r.value)
      ensures r == Err(NoExit) <==> forall x :: x in relays ==> x.fingerprint == avoid.fingerprint
      ensures r.Err? ==> r.error == NoExit || r.error == NoRandomness
    {
      var exits := [];
      for i := 0 to |relays|
        invariant forall x :: x in exits <==> x in relays[..i] && x.isExit && x.fingerprint != avoid.fingerprint
      {
        if relays[i].isExit && relays[i].fingerprint != avoid.fingerprint {
          exits := exits + [relays[i]];
        }
      }
      assert relays[..|relays|] == relays;
      if |exits| == 0 {
        for i := 0 to |relays|
          invariant forall x :: x in exits <==> x in relays[..i] && x.fingerprint != avoid.fingerprint
        {
          if relays[i].fingerprint != avoid.fingerprint {
            exits := exits + [relays[i]];
          }
        }
      }
      if |exits| == 0 {
        return Err(NoExit);
      }
      assert exits[0] in exits;
      var idx := RandomIndex(|exits|);
      if idx.Err? {
        return Err(NoRandomness);
      }
      assert exits[idx.value] in exits;
      return Ok(exits[idx.value]);
    }

    method SelectMiddle(guard: Relay, exit: Relay) returns (r: Result<Relay, Error>)
      ensures r.Ok? ==>
                r.value in relays && r.value.fingerprint != guard.fingerprint && r.value.fingerprint != exit.fingerprint
      ensures r == Err(NoMiddle) <==>
                forall x :: x in relays ==> x.fingerprint == guard.fingerprint || x.fingerprint == exit.fingerprint
      ensures r.Err? ==> r.error == NoMiddle || r.error == NoRandomness
    {
      var candidates := [];
      for i := 0 to |relays|
        invariant forall x :: x in candidates <==>
          x in relays[..i] && x.fingerprint != guard.fingerprint && x.fingerprint != exit.fingerprint
      {
        if relays[i].fingerprint != guard.fingerprint && relays[i].fingerprint != exit.fingerprint {
          candidates := candidates + [relays[i]];
        }
      }
      assert relays[..|relays|] == relays;
      if |candidates| == 0 {
        return Err(NoMiddle);
      }
      assert candidates[0] in candidates;
      var idx := RandomIndex(|candidates|);
      if idx.Err? {
        return Err(NoRandomness);
      }
      assert candidates[idx.value] in candidates;
      return Ok(candidates[idx.value]);
    }

    /** A path has three different relays; the guard is the preferred one, with the list untouched,
        whenever there is one; and apart from a failing random source, selection fails exactly when
        the consensus is empty or has not two further fingerprints besides the guard's. */
    method SelectPath(now: int) returns (r: Result<Path, Error>, ghost guard: Option<Relay>)
      modifies guardManager
      ensures r.Ok? ==> guard == Some(r.value.guard) && r.value.guard in guards
                        && GoodExit(relays, r.value.guard, r.value.exit) && r.value.middle in relays
                        && r.value.guard.fingerprint != r.value.exit.fingerprint
                        && r.value.guard.fingerprint != r.value.middle.fingerprint
                        && r.value.middle.fingerprint != r.value.exit.fingerprint
      ensures r == Err(NoConsensus) <==> guards == [] || relays == []
      ensures guard.Some? && r != Err(NoRandomness) ==> (r.Ok? <==> HasTwoOthers(relays, guard.value))
      ensures guardManager != null && guards != [] && relays != [] ==>
                var preferred := Preferred(old(guardManager.guards), now, guardManager.guardExpiry, guards);
                preferred.Some? ==> guard == preferred && guardManager.guards == old(guardManager.guards)
    {
      guard := None;
      if |guards| == 0 || |relays| == 0 {
        return Err(NoConsensus), None;
      }
      var g := SelectGuard(now);
      if g.Err? {
        return Err(g.error), None;
      }
      guard := Some(g.value);
      var e := SelectExit(g.value);
      if e.Err? {
        return Err(e.error), guard;
      }
      var m := SelectMiddle(g.value, e.value);
      if m.Err? {
        return Err(m.error), guard;
      }
      assert HasTwoOthers(relays, g.value) by {
        assert e.value in relays && m.value in relays;
      }
      return Ok(Path(g.value, m.value, e.value)), guard;
    }
  }
}
