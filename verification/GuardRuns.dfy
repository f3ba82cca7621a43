/** What a client sees of its guard over time (pkg/client/client.go, pkg/path/path.go,
    pkg/path/guards.go): path selections, list maintenance and consensus updates in time order. */
module GuardRuns {
  import opened Wrappers
  import opened Guards
  import opened Paths

  /** A selection draws `pick` if it finds no preferred guard. */
  datatype Action = Select(pick: Relay) | Manage(op: Op) | Update(consensus: seq<Relay>)

  datatype Use = Use(action: Action, now: int)

  datatype Limits = Limits(max: int, expiry: int)

  /** The guard list and the relays of the consensus that can be guards. */
  datatype State = State(gs: seq<GuardEntry>, consensus: seq<Relay>)

  function Guard(s: State, l: Limits, now: int): Option<Relay> {
    Preferred(s.gs, now, l.expiry, s.consensus)
  }

  predicate GuardIs(s: State, l: Limits, now: int, fingerprint: string) {
    Guard(s, l, now).Some? && Guard(s, l, now).value.fingerprint == fingerprint
  }

  /** The state after `SelectGuard`, an operation of the guard manager, or a new consensus. */
  function After(s: State, l: Limits, u: Use): State {
    match u.action
    case Select(pick) => if Guard(s, l, u.now).Some? then s else s.(gs := Add(s.gs, l.max, pick, u.now))
    case Manage(op) => s.(gs := Apply(s.gs, l.max, l.expiry, op, u.now))
    case Update(consensus) => s.(consensus := consensus)
  }

  function AfterAll(s: State, l: Limits, run: seq<Use>): State
    decreases |run|
  {
    if run == [] then s else AfterAll(After(s, l, run[0]), l, run[1..])
  }

  /** The guards of the paths selected in a run, in order. */
  function Selections(s: State, l: Limits, run: seq<Use>): seq<Relay>
    decreases |run|
  {
    if run == [] then []
    else
      var more := Selections(After(s, l, run[0]), l, run[1..]);
      match run[0].action
      case Select(pick) =>
        [if Guard(s, l, run[0].now).Some? then Guard(s, l, run[0].now).value else pick] + more
      case _ => more
  }

  // ----- what leaves a guard in front ---------------------------------------------------------

  /** Refreshing entry k does not bring it in front of entry i. */
  predicate RefreshSpares(s: State, k: nat, i: nat) {
    k >= i || k >= |s.gs| || RelayWith(s.consensus, s.gs[k].fingerprint).None?
  }

  /** The use neither removes entry i nor makes an earlier entry usable. */
  predicate Spares(s: State, l: Limits, u: Use, i: nat)
    requires i < |s.gs|
  {
    match u.action
    case Select(_) => true
    case Manage(op) => (
      match op
      case AddGuard(r) =>
        if Find(s.gs, r.fingerprint) < |s.gs| then RefreshSpares(s, Find(s.gs, r.fingerprint), i)
        else |s.gs| < l.max || FindUnconfirmed(s.gs) != i
      case ConfirmGuard(f) => RefreshSpares(s, Find(s.gs, f), i)
      case RemoveGuard(f) => Find(s.gs, f) != i
      case CleanupExpired => true
    )
    case Update(consensus) =>
      && RelayWith(consensus, s.gs[i].fingerprint).Some?
      && forall j :: 0 <= j < i ==> !Usable(s.gs[j], u.now, l.expiry, consensus)
  }

  /** The use confirms or adds the guard itself. */
  predicate Renews(a: Action, fingerprint: string) {
    a.Manage? && (a.op == ConfirmGuard(fingerprint) || (a.op.AddGuard? && a.op.relay.fingerprint == fingerprint))
  }

  /** Entry i decides which guard is preferred. */
  ghost predicate Leads(s: State, l: Limits, now: int, i: nat, fingerprint: string, used: int) {
    && i < |s.gs|
    && FirstUsable(s.gs, now, l.expiry, s.consensus, i)
    && s.gs[i].fingerprint == fingerprint
    && s.gs[i].lastUsed == used
  }

  lemma LeadsMeansGuard(s: State, l: Limits, now: int, i: nat, fingerprint: string, used: int)
    requires Leads(s, l, now, i, fingerprint, used)
    ensures GuardIs(s, l, now, fingerprint)
  {
    PreferredIsFirstUsable(s.gs, now, l.expiry, s.consensus, i);
  }

  /** The guard comes from an entry of the list that is usable. */
  lemma GuardHasEntry(s: State, l: Limits, now: int) returns (i: nat)
    requires Guard(s, l, now).Some?
    ensures i < |s.gs| && FirstUsable(s.gs, now, l.expiry, s.consensus, i)
    ensures s.gs[i].fingerprint == Guard(s, l, now).value.fingerprint
  {
    i := SomeFirstUsable(s.gs, now, l.expiry, s.consensus);
    PreferredIsFirstUsable(s.gs, now, l.expiry, s.consensus, i);
  }

  lemma FindIs(gs: seq<GuardEntry>, i: nat)
    requires Distinct(gs) && i < |gs|
    ensures Find(gs, gs[i].fingerprint) == i
  {
  }

  // ----- each operation -----------------------------------------------------------------------

  lemma AfterRefresh(s: State, l: Limits, now: int, i: nat, fingerprint: string, used: int, k: nat)
    requires Distinct(s.gs) && l.expiry > 0 && Leads(s, l, now, i, fingerprint, used) && k < |s.gs|
    ensures var t := s.(gs := Refreshed(s.gs, k, now));
            && (RefreshSpares(s, k, i) ==> Leads(t, l, now, i, fingerprint, if k == i then now else used))
            && (!RefreshSpares(s, k, i) ==> !GuardIs(t, l, now, fingerprint))
  {
    var gs' := Refreshed(s.gs, k, now);
    forall j | 0 <= j < i && (j != k || RelayWith(s.consensus, s.gs[k].fingerprint).None?)
      ensures !Usable(gs'[j], now, l.expiry, s.consensus)
    {
      assert !Usable(s.gs[j], now, l.expiry, s.consensus);
    }
    if !RefreshSpares(s, k, i) {
      PreferredIsFirstUsable(gs', now, l.expiry, s.consensus, k);
      assert s.gs[k].fingerprint != s.gs[i].fingerprint;
    }
  }

  lemma AfterRemoval(s: State, l: Limits, now: int, i: nat, fingerprint: string, used: int, k: nat)
    requires Leads(s, l, now, i, fingerprint, used) && k < |s.gs| && k != i
    ensures Leads(s.(gs := Without(s.gs, k)), l, now, if k < i then i - 1 else i, fingerprint, used)
  {
    var gs', i' := Without(s.gs, k), if k < i then i - 1 else i;
    forall j | 0 <= j < i'
      ensures !Usable(gs'[j], now, l.expiry, s.consensus)
    {
      assert gs'[j] == s.gs[if j < k then j else j + 1];
    }
  }

  lemma AfterAppend(s: State, l: Limits, now: int, i: nat, fingerprint: string, used: int, e: GuardEntry)
    requires Leads(s, l, now, i, fingerprint, used)
    ensures Leads(s.(gs := s.gs + [e]), l, now, i, fingerprint, used)
  {
  }

  /** A guard without an entry is no guard. */
  lemma GoneIsNoGuard(s: State, l: Limits, now: int, fingerprint: string)
    requires forall i :: 0 <= i < |s.gs| ==> s.gs[i].fingerprint != fingerprint
    ensures !GuardIs(s, l, now, fingerprint)
  {
    if Guard(s, l, now).Some? {
      var i := GuardHasEntry(s, l, now);
    }
  }

  /** Cleaning twice at one time is cleaning once. */
  lemma {:induction false} CleanedIsClean(gs: seq<GuardEntry>, now: int, expiry: int)
    ensures Unexpired(Unexpired(gs, now, expiry), now, expiry) == Unexpired(gs, now, expiry)
  {
    if gs != [] {
      var init, last := gs[..|gs| - 1], gs[|gs| - 1];
      CleanedIsClean(init, now, expiry);
      var u := Unexpired(init, now, expiry);
      assert (u + [last])[..|u|] == u;
    }
  }

  lemma AfterCleanup(s: State, l: Limits, now: int, i: nat, fingerprint: string, used: int) returns (i': nat)
    requires Distinct(s.gs) && Leads(s, l, now, i, fingerprint, used)
    ensures Leads(s.(gs := Unexpired(s.gs, now, l.expiry)), l, now, i', fingerprint, used)
  {
    var t := s.(gs := Unexpired(s.gs, now, l.expiry));
    CleanedIsClean(s.gs, now, l.expiry);
    LeadsMeansGuard(s, l, now, i, fingerprint, used);
    i' := GuardHasEntry(t, l, now);
    UnexpiredMembers(s.gs, now, l.expiry, t.gs[i']);
    var j :| 0 <= j < |s.gs| && s.gs[j] == t.gs[i'];
    assert s.gs[j].fingerprint == s.gs[i].fingerprint;
    assert i == j;
  }

  lemma AfterAdd(s: State, l: Limits, now: int, i: nat, fingerprint: string, used: int, r: Relay) returns (i': nat)
    requires WellFormed(s.gs, l.max, now) && l.expiry > 0 && Leads(s, l, now, i, fingerprint, used)
    ensures var u := Use(Manage(AddGuard(r)), now); var t := After(s, l, u);
            && (Spares(s, l, u, i) ==>
                  Leads(t, l, now, i', fingerprint, if r.fingerprint == fingerprint then now else used))
            && (!Spares(s, l, u, i) ==> !GuardIs(t, l, now, fingerprint))
  {
    var k, v, e := Find(s.gs, r.fingerprint), FindUnconfirmed(s.gs), NewEntry(r, now);
    i' := i;
    FindIs(s.gs, i);
    if k < |s.gs| {
      AfterRefresh(s, l, now, i, fingerprint, used, k);
    } else if |s.gs| < l.max {
      AfterAppend(s, l, now, i, fingerprint, used, e);
    } else if v < |s.gs| && v != i {
      AfterRemoval(s, l, now, i, fingerprint, used, v);
      i' := if v < i then i - 1 else i;
      AfterAppend(s.(gs := Without(s.gs, v)), l, now, i', fingerprint, used, e);
    } else if v == i {
      var gs' := Without(s.gs, i) + [e];
      forall j | 0 <= j < |gs'|
        ensures gs'[j].fingerprint != fingerprint
      {
        assert j < |gs'| - 1 ==> gs'[j] == s.gs[if j < i then j else j + 1];
      }
      GoneIsNoGuard(s.(gs := gs'), l, now, fingerprint);
    }
  }

  lemma AfterConfirm(s: State, l: Limits, now: int, i: nat, fingerprint: string, used: int, f: string)
    requires Distinct(s.gs) && l.expiry > 0 && Leads(s, l, now, i, fingerprint, used)
    ensures var u := Use(Manage(ConfirmGuard(f)), now); var t := After(s, l, u);
            && (Spares(s, l, u, i) ==> Leads(t, l, now, i, fingerprint, if f == fingerprint then now else used))
            && (!Spares(s, l, u, i) ==> !GuardIs(t, l, now, fingerprint))
  {
    FindIs(s.gs, i);
    if Find(s.gs, f) < |s.gs| {
      AfterRefresh(s, l, now, i, fingerprint, used, Find(s.gs, f));
    }
  }

  lemma AfterRemoveGuard(s: State, l: Limits, now: int, i: nat, fingerprint: string, used: int, f: string)
      returns (i': nat)
    requires Distinct(s.gs) && Leads(s, l, now, i, fingerprint, used)
    ensures var u := Use(Manage(RemoveGuard(f)), now); var t := After(s, l, u);
            && (Spares(s, l, u, i) ==> Leads(t, l, now, i', fingerprint, used))
            && (!Spares(s, l, u, i) ==> !GuardIs(t, l, now, fingerprint))
  {
    var k := Find(s.gs, f);
    i' := if k < i then i - 1 else i;
    if k == i {
      var gs' := Without(s.gs, i);
      forall j | 0 <= j < |gs'|
        ensures gs'[j].fingerprint != fingerprint
      {
        assert gs'[j] == s.gs[if j < i then j else j + 1];
      }
      GoneIsNoGuard(s.(gs := gs'), l, now, fingerprint);
    } else if k < |s.gs| {
      AfterRemoval(s, l, now, i, fingerprint, used, k);
    }
  }

  lemma AfterUpdate(s: State, l: Limits, now: int, i: nat, fingerprint: string, used: int, consensus: seq<Relay>)
    requires Distinct(s.gs) && Leads(s, l, now, i, fingerprint, used)
    ensures var u := Use(Update(consensus), now); var t := After(s, l, u);
            && (Spares(s, l, u, i) ==> Leads(t, l, now, i, fingerprint, used))
            && (!Spares(s, l, u, i) ==> !GuardIs(t, l, now, fingerprint))
  {
    var t := s.(consensus := consensus);
    if !Spares(s, l, Use(Update(consensus), now), i) && Guard(t, l, now).Some? {
      var k := GuardHasEntry(t, l, now);
      assert k > i ==> !Usable(s.gs[i], now, l.expiry, consensus);
      assert k != i ==> s.gs[k].fingerprint != s.gs[i].fingerprint;
    }
  }

  // ----- one use and whole runs ---------------------------------------------------------------

  /** The exact condition for one use: the same guard is preferred afterwards exactly when the use
      spares its entry. */
  lemma SameGuardAfterIff(s: State, l: Limits, clock: int, u: Use, i: nat, fingerprint: string, used: int)
      returns (i': nat)
    requires l.expiry > 0 && WellFormed(s.gs, l.max, clock) && Leads(s, l, clock, i, fingerprint, used)
    requires clock <= u.now < used + l.expiry
    ensures GuardIs(After(s, l, u), l, u.now, fingerprint) <==> Spares(s, l, u, i)
    ensures Spares(s, l, u, i) ==>
            Leads(After(s, l, u), l, u.now, i', fingerprint, if Renews(u.action, fingerprint) then u.now else used)
    ensures WellFormed(After(s, l, u).gs, l.max, u.now)
    ensures u.action.Select? ==> After(s, l, u) == s && GuardIs(s, l, u.now, fingerprint)
  {
    StaysFirstUsable(s.gs, l.expiry, s.consensus, clock, u.now, i);
    LeadsMeansGuard(s, l, u.now, i, fingerprint, used);
    i' := i;
    if u.action.Update? {
      AfterUpdate(s, l, u.now, i, fingerprint, used, u.action.consensus);
    } else if u.action.Manage? {
      ApplyKeepsWellFormed(s.gs, l.max, l.expiry, u.action.op, clock, u.now);
      match u.action.op
      case AddGuard(r) => i' := AfterAdd(s, l, u.now, i, fingerprint, used, r);
      case ConfirmGuard(f) => AfterConfirm(s, l, u.now, i, fingerprint, used, f);
      case RemoveGuard(f) => i' := AfterRemoveGuard(s, l, u.now, i, fingerprint, used, f);
      case CleanupExpired => i' := AfterCleanup(s, l, u.now, i, fingerprint, used);
    }
    if Spares(s, l, u, i) {
      LeadsMeansGuard(After(s, l, u), l, u.now, i', fingerprint, if Renews(u.action, fingerprint) then u.now else used);
    }
  }

  /** Every use of the run spares the guard's entry. */
  predicate SparedBy(s: State, l: Limits, run: seq<Use>, fingerprint: string)
    decreases |run|
  {
    run == [] ||
    (&& Find(s.gs, fingerprint) < |s.gs| && Spares(s, l, run[0], Find(s.gs, fingerprint))
     && SparedBy(After(s, l, run[0]), l, run[1..], fingerprint))
  }

  /** In time order, and never as long as the expiry time since the guard, last used at `used`, was
      confirmed again. */
  predicate Timely(run: seq<Use>, l: Limits, clock: int, fingerprint: string, used: int)
    decreases |run|
  {
    run == [] ||
    (&& clock <= run[0].now < used + l.expiry
     && Timely(run[1..], l, run[0].now, fingerprint,
               if Renews(run[0].action, fingerprint) then run[0].now else used))
  }

  function EndOf(run: seq<Use>, clock: int): int {
    if run == [] then clock else run[|run| - 1].now
  }

  /** Over any run that spares the guard and never lets it go unconfirmed for as long as the expiry
      time, every path is given the same guard, and it is preferred at the end. */
  lemma {:induction false} SameGuardOverRun(s: State, l: Limits, clock: int, run: seq<Use>,
                                            i: nat, fingerprint: string, used: int)
    requires l.expiry > 0 && WellFormed(s.gs, l.max, clock) && Leads(s, l, clock, i, fingerprint, used)
    requires Timely(run, l, clock, fingerprint, used) && SparedBy(s, l, run, fingerprint)
    ensures forall r :: r in Selections(s, l, run) ==> r.fingerprint == fingerprint
    ensures GuardIs(AfterAll(s, l, run), l, EndOf(run, clock), fingerprint)
    decreases |run|
  {
    if run == [] {
      LeadsMeansGuard(s, l, clock, i, fingerprint, used);
    } else {
      FindIs(s.gs, i);
      var i' := SameGuardAfterIff(s, l, clock, run[0], i, fingerprint, used);
      SameGuardOverRun(After(s, l, run[0]), l, run[0].now, run[1..], i', fingerprint,
                       if Renews(run[0].action, fingerprint) then run[0].now else used);
    }
  }

  /** How a run begins: a guard picked because none was preferred leads from then on, if the list had
      its entry, a free slot or an unconfirmed entry to give up. */
  lemma PickedGuardLeads(s: State, l: Limits, clock: int, pick: Relay, now: int)
    requires l.expiry > 0 && WellFormed(s.gs, l.max, clock) && clock <= now
    requires Guard(s, l, now).None? && pick in s.consensus
    requires Find(s.gs, pick.fingerprint) < |s.gs| || |s.gs| < l.max || FindUnconfirmed(s.gs) < |s.gs|
    ensures var t := After(s, l, Use(Select(pick), now));
            WellFormed(t.gs, l.max, now) && exists i: nat :: Leads(t, l, now, i, pick.fingerprint, now)
  {
    var t := s.(gs := Add(s.gs, l.max, pick, now));
    AddKeepsWellFormed(s.gs, l.max, pick, clock, now);
    PickedGuardIsRemembered(s.gs, l.max, l.expiry, s.consensus, pick, now);
    var i := GuardHasEntry(t, l, now);
    var k := if Find(s.gs, pick.fingerprint) < |s.gs| then Find(s.gs, pick.fingerprint) else |t.gs| - 1;
    assert t.gs[k].fingerprint == pick.fingerprint && t.gs[k].lastUsed == now;
    assert Leads(t, l, now, i, pick.fingerprint, now);
  }
}
