/** The circuit manager and its ID allocator (pkg/circuit/circuit.go: Manager). */
module Manager {
  import opened Bytes
  import opened Wrappers

  /** The number of usable circuit IDs: every 32-bit value except 0. */
  const IDS: nat := 0xFFFF_FFFF

  datatype State = Building | Open | Closed | Failed

  datatype Error = ManagerClosed | NoAvailableIds | NotFound

  predicate IsId(id: int) {
    1 <= id <= IDS
  }

  /** The ID after this one, skipping 0 on wrap-around. */
  function Succ(id: uint32): (r: uint32)
    requires IsId(id)
    ensures IsId(r)
  {
    if id == IDS then 1 else id + 1
  }

  /** The ID k places after start in cyclic order. */
  function Cyclic(start: uint32, k: nat): (r: uint32)
    requires IsId(start) && k < IDS
    ensures IsId(r)
  {
    if start + k <= IDS then start + k else start + k - IDS
  }

  /** The cyclic order meets every ID exactly once. */
  lemma CyclicCovers(start: uint32, id: uint32) returns (k: nat)
    requires IsId(start) && IsId(id)
    ensures k < IDS && Cyclic(start, k) == id
    ensures forall j :: 0 <= j < IDS && Cyclic(start, j) == id ==> j == k
  {
    k := if id >= start then id - start else id - start + IDS;
  }

  // ----- the allocator as a value -------------------------------------------------------------

  /** The first ID at or after start, in cyclic order, that is not in use, having passed k. */
  function FirstFree(used: set<uint32>, start: uint32, k: nat): (r: Result<uint32, Error>)
    requires IsId(start) && k <= IDS
    ensures r.Ok? ==> IsId(r.value)
    decreases IDS - k
  {
    if k == IDS then Err(NoAvailableIds)
    else if Cyclic(start, k) !in used then Ok(Cyclic(start, k))
    else FirstFree(used, start, k + 1)
  }

  /** No ID from start up to this one, in cyclic order, is free. */
  ghost predicate IsFirstFree(used: set<uint32>, start: uint32, id: uint32)
    requires IsId(start)
  {
    && IsId(id) && id !in used
    && exists m :: 0 <= m < IDS && Cyclic(start, m) == id && forall j :: 0 <= j < m ==> Cyclic(start, j) in used
  }

  /** Soundness and completeness of the search: an ID found is valid, unused and the first such in
      cyclic order; the search fails exactly when every valid ID is in use. */
  lemma {:induction false} FirstFreeCorrect(used: set<uint32>, start: uint32, k: nat)
    requires IsId(start) && k <= IDS
    requires forall j :: 0 <= j < k ==> Cyclic(start, j) in used
    ensures var r := FirstFree(used, start, k);
            && (r.Ok? ==> IsFirstFree(used, start, r.value))
            && (r.Err? <==> forall id: uint32 :: IsId(id) ==> id in used)
    decreases IDS - k
  {
    if k == IDS {
      forall id: uint32 | IsId(id)
        ensures id in used
      {
        var j := CyclicCovers(start, id);
      }
    } else if Cyclic(start, k) in used {
      FirstFreeCorrect(used, start, k + 1);
    }
  }

  datatype Ids = Ids(used: set<uint32>, next: uint32, closed: bool)

  datatype Call = Create | CloseOne(id: uint32) | CloseAll

  ghost predicate WellFormed(m: Ids) {
    IsId(m.next) && (forall id :: id in m.used ==> IsId(id)) && (m.closed ==> m.used == {})
  }

  function Apply(m: Ids, c: Call): (m': Ids)
    requires WellFormed(m)
    ensures WellFormed(m')
  {
    match c
    case Create =>
      var r := FirstFree(m.used, m.next, 0);
      if m.closed || r.Err? then m else Ids(m.used + {r.value}, Succ(r.value), false)
    case CloseOne(id) => m.(used := m.used - {id})
    case CloseAll => if m.closed then m else Ids({}, m.next, true)
  }

  function After(m: Ids, calls: seq<Call>): (m': Ids)
    requires WellFormed(m)
    ensures WellFormed(m') && 0 !in m'.used && m'.next != 0
    decreases |calls|
  {
    if calls == [] then m else After(Apply(m, calls[0]), calls[1..])
  }

  /** The ID a call issues, if any. */
  function Issue(m: Ids, c: Call): set<uint32>
    requires WellFormed(m)
  {
    Apply(m, c).used - m.used
  }

  function Issued(m: Ids, calls: seq<Call>): set<uint32>
    requires WellFormed(m)
    decreases |calls|
  {
    if calls == [] then {} else Issue(m, calls[0]) + Issued(Apply(m, calls[0]), calls[1..])
  }

  /** The first d IDs after x are all in base, and so is everything in use. */
  ghost predicate Swept(m: Ids, x: uint32, d: nat, base: set<uint32>)
    requires IsId(x) && d < IDS && WellFormed(m)
  {
    && m.next == Cyclic(Succ(x), d)
    && (forall j :: 0 <= j < d ==> Cyclic(Succ(x), j) in base)
    && m.used <= base
  }

  lemma SweptAll(x: uint32, y: uint32, base: set<uint32>)
    requires IsId(x) && IsId(y) && x != y
    requires forall j :: 0 <= j < IDS - 1 ==> Cyclic(Succ(x), j) in base
    ensures y in base
  {
    var k := CyclicCovers(Succ(x), y);
  }

  lemma CreateSweeps(m: Ids, x: uint32, d: nat, base: set<uint32>)
      returns (id: uint32, k: nat)
    requires IsId(x) && d < IDS && WellFormed(m) && Swept(m, x, d, base)
    requires Issue(m, Create) != {}
    ensures Issue(m, Create) == {id} && k < IDS && id == Cyclic(m.next, k)
    ensures forall j :: 0 <= j < d + k && j < IDS ==> Cyclic(Succ(x), j) in base
  {
    FirstFreeCorrect(m.used, m.next, 0);
    id := FirstFree(m.used, m.next, 0).value;
    k :| 0 <= k < IDS && Cyclic(m.next, k) == id && forall j :: 0 <= j < k ==> Cyclic(m.next, j) in m.used;
    forall j | 0 <= j < d + k && j < IDS
      ensures Cyclic(Succ(x), j) in base
    {
      if j >= d {
        assert Cyclic(Succ(x), j) == Cyclic(m.next, j - d);
      }
    }
  }

  lemma OtherCallsKeepSwept(m: Ids, c: Call, x: uint32, d: nat, base: set<uint32>)
    requires IsId(x) && d < IDS && WellFormed(m) && Swept(m, x, d, base) && Issue(m, c) == {}
    ensures Swept(Apply(m, c), x, d, base)
  {
    FirstFreeCorrect(m.used, m.next, 0);
    assert m.used <= Apply(m, c).used ==> Apply(m, c).used == m.used;
  }

  lemma CreateKeepsSwept(m: Ids, x: uint32, d: nat, base: set<uint32>, id: uint32, k: nat)
    requires IsId(x) && k < IDS && d + k + 1 < IDS && WellFormed(m) && Swept(m, x, d, base)
    requires Issue(m, Create) == {id} && id == Cyclic(m.next, k)
    requires forall j :: 0 <= j < d + k ==> Cyclic(Succ(x), j) in base
    ensures Swept(Apply(m, Create), x, d + k + 1, base + {id})
  {
  }

  /** An ID is issued a second time only after a full turn of the cursor: by then every other ID has
      been issued in between or was in use all along from the start. */
  lemma {:induction false} ReuseNeedsFullTurn(m: Ids, x: uint32, d: nat, base: set<uint32>, calls: seq<Call>, y: uint32)
    requires IsId(x) && IsId(y) && y != x && d < IDS
    requires WellFormed(m) && Swept(m, x, d, base)
    requires x in Issued(m, calls)
    ensures y in base || y in Issued(m, calls)
    decreases |calls|
  {
    var m' := Apply(m, calls[0]);
    if Issue(m, calls[0]) == {} {
      OtherCallsKeepSwept(m, calls[0], x, d, base);
      ReuseNeedsFullTurn(m', x, d, base, calls[1..], y);
    } else {
      var id, k := CreateSweeps(m, x, d, base);
      if d + k >= IDS - 1 {
        SweptAll(x, y, base);
      } else {
        CreateKeepsSwept(m, x, d, base, id, k);
        ReuseNeedsFullTurn(m', x, d + k + 1, base + {id}, calls[1..], y);
      }
    }
  }

  /** Stated from the moment x was issued. */
  lemma IssuedAgainOnlyAfterAllOthers(m: Ids, x: uint32, calls: seq<Call>, y: uint32)
    requires WellFormed(m) && Issue(m, Create) == {x} && IsId(y) && y != x
    requires x in Issued(Apply(m, Create), calls)
    ensures y in m.used || y in Issued(Apply(m, Create), calls)
  {
    var m' := Apply(m, Create);
    assert x in m'.used;
    ReuseNeedsFullTurn(m', x, 0, m'.used, calls, y);
  }

  /** Closing a circuit frees its ID and no other, so that a new circuit can be made. */
  lemma ClosedIdIsFree(m: Ids, id: uint32)
    requires WellFormed(m) && id in m.used
    ensures var m' := Apply(m, CloseOne(id));
            && id !in m'.used && (forall other :: other != id ==> (other in m'.used <==> other in m.used))
            && m'.next == m.next && Issue(m', Create) != {}
  {
    var m' := Apply(m, CloseOne(id));
    FirstFreeCorrect(m'.used, m'.next, 0);
    assert IsId(id) && !m'.closed;
    var issued := FirstFree(m'.used, m'.next, 0).value;
    assert issued in Issue(m', Create);
  }

  /** When all IDs are in use and one circuit is closed, the next circuit gets its ID. */
  lemma OnlyFreeIdIsIssued(m: Ids, id: uint32)
    requires WellFormed(m) && forall i: uint32 :: IsId(i) ==> i in m.used
    requires IsId(id)
    ensures Issue(m, Create) == {} && Issue(Apply(m, CloseOne(id)), Create) == {id}
  {
    FirstFreeCorrect(m.used, m.next, 0);
    ClosedIdIsFree(m, id);
    var m' := Apply(m, CloseOne(id));
    FirstFreeCorrect(m'.used, m'.next, 0);
    assert FirstFree(m'.used, m'.next, 0) == Ok(id);
    assert Issue(m', Create) == {id};
  }

  // ----- the manager object -------------------------------------------------------------------

  class Circuit {
    const id: uint32
    var state: State

    constructor (id: uint32)
      ensures this.id == id && state == Building
    {
      this.id, state := id, Building;
    }
  }

  class CircuitManager {
    var circuits: map<uint32, Circuit>
    var nextID: uint32
    var closed: bool

    /** Reachable managers: 0 is never a key nor the next ID, and each circuit is filed under its ID. */
    ghost predicate Valid()
      reads this
    {
      && WellFormed(View())
      && (forall id :: id in circuits ==> circuits[id].id == id)
    }

    ghost function View(): Ids
      reads this
    {
      Ids(circuits.Keys, nextID, closed)
    }

    constructor ()
      ensures Valid() && View() == Ids({}, 1, false)
    {
      circuits, nextID, closed := map[], 1, false;
    }

    /** The search loop of `CreateCircuit`. */
    method FindUnusedID() returns (r: Result<uint32, Error>)
      requires IsId(nextID)
      ensures r == FirstFree(circuits.Keys, nextID, 0)
    {
      var id := nextID;
      ghost var k := 0;
      while id in circuits
        invariant 0 <= k < IDS && id == Cyclic(nextID, k)
        invariant FirstFree(circuits.Keys, nextID, k) == FirstFree(circuits.Keys, nextID, 0)
        decreases IDS - k
      {
        id := if id == 0xFFFF_FFFF then 0 else id + 1;
        if id == 0 {
          id := 1;
        }
        if id == nextID {
          assert k == IDS - 1;
          return Err(NoAvailableIds);
        }
        k := k + 1;
      }
      return Ok(id);
    }

    method CreateCircuit() returns (r: Result<Circuit, Error>)
      requires Valid()
      modifies this
      ensures Valid() && View() == Apply(old(View()), Create)
      ensures r.Err? && r.error == ManagerClosed <==> old(closed)
      ensures !old(closed) ==> (r.Err? <==> forall id: uint32 :: IsId(id) ==> id in old(circuits))
      ensures r.Ok? ==> fresh(r.value) && r.value.state == Building && r.value.id !in old(circuits)
                        && circuits == old(circuits)[r.value.id := r.value]
                        && nextID == if r.value.id == 0xFFFF_FFFF then 1 else r.value.id + 1
      ensures r.Err? ==> circuits == old(circuits) && nextID == old(nextID)
      ensures closed == old(closed)
    {
      if closed {
        return Err(ManagerClosed);
      }
      var found := FindUnusedID();
      FirstFreeCorrect(circuits.Keys, nextID, 0);
      if found.Err? {
        return Err(NoAvailableIds);
      }
      var id := found.value;
      nextID := if id == 0xFFFF_FFFF then 0 else id + 1;
      if nextID == 0 {
        nextID := 1;
      }
      var circuit := new Circuit(id);
      circuits := circuits[id := circuit];
      return Ok(circuit);
    }

    method CloseCircuit(id: uint32) returns (r: Result<(), Error>)
      requires Valid()
      modifies this, circuits.Values
      ensures Valid() && View() == Apply(old(View()), CloseOne(id))
      ensures r == if id in old(circuits) then Ok(()) else Err(NotFound)
      ensures id in old(circuits) ==> old(circuits)[id].state == Closed
      ensures id !in circuits && circuits == old(circuits) - {id}
      ensures nextID == old(nextID) && closed == old(closed)
      ensures forall other :: other in old(circuits) && other != id ==>
                other in circuits && circuits[other] == old(circuits)[other]
                && circuits[other].state == old(circuits[other].state)
    {
      if id !in circuits {
        return Err(NotFound);
      }
      circuits[id].state := Closed;
      circuits := circuits - {id};
      return Ok(());
    }

    method Close() returns (r: Result<(), Error>)
      requires Valid()
      modifies this, circuits.Values
      ensures Valid() && View() == Apply(old(View()), CloseAll)
      ensures r == if old(closed) then Err(ManagerClosed) else Ok(())
      ensures !old(closed) ==> forall id :: id in old(circuits) ==> old(circuits)[id].state == Closed
      ensures closed && circuits == map[] && nextID == old(nextID)
    {
      if closed {
        return Err(ManagerClosed);
      }
      closed := true;
      ghost var all := circuits;
      while circuits.Keys != {}
        invariant circuits.Keys <= all.Keys && nextID == old(nextID) && closed
        invariant forall id :: id in circuits ==> circuits[id] == all[id]
        invariant forall id :: id in all && id !in circuits ==> all[id].state == Closed
        decreases circuits.Keys
      {
        var id :| id in circuits.Keys;
        var circuit := circuits[id];
        assert circuit in all.Values;
        circuit.state := Closed;
        circuits := circuits - {id};
      }
      return Ok(());
    }
  }
}
