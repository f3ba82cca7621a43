/** The circuit pool (pkg/pool/circuit_pool.go).

    Circuits are numbers; `keyOf` and `open` hold the isolation key and the state that the source
    keeps on each circuit object. */
module Pooling {
  import opened Wrappers
  import opened Isolation

  type Circuit = nat
  type MaybeKey = Option<IsolationKey>

  // ----- the pool as a value ------------------------------------------------------------------

  datatype Pool = Pool(circuits: seq<Circuit>, isolated: map<string, seq<Circuit>>,
                       keyOf: map<Circuit, MaybeKey>, open: set<Circuit>)

  /** What a builder returns: a circuit, the key it already carries, if any, and its state. */
  datatype Built = Built(circuit: Circuit, key: MaybeKey, isOpen: bool)

  predicate Isolated(k: MaybeKey) {
    k.Some? && k.value.level != NONE
  }

  /** The queue that serves a key. */
  function Queue(p: Pool, k: MaybeKey): seq<Circuit> {
    if !Isolated(k) then p.circuits
    else if Key(k) in p.isolated then p.isolated[Key(k)] else []
  }

  function WithQueue(p: Pool, k: MaybeKey, q: seq<Circuit>): Pool {
    if Isolated(k) then p.(isolated := p.isolated[Key(k) := q]) else p.(circuits := q)
  }

  /** The queue from its first open circuit on. */
  function FromFirstOpen(q: seq<Circuit>, open: set<Circuit>): seq<Circuit> {
    if q == [] || q[0] in open then q else FromFirstOpen(q[1..], open)
  }

  /** A built circuit as the pool sees it. */
  function Adopt(p: Pool, b: Built): Pool {
    p.(keyOf := p.keyOf[b.circuit := b.key],
       open := if b.isOpen then p.open + {b.circuit} else p.open - {b.circuit})
  }

  /** A request with a key puts it on the built circuit; one without leaves the builder's. */
  function KeyedFor(b: Built, k: MaybeKey): Built {
    if k.Some? then b.(key := k) else b
  }

  /** Pool and circuit after a Get; `built` is what the builder returns if it is called. */
  function TakeFor(p: Pool, k: MaybeKey, built: Option<Built>): (Pool, Option<Circuit>) {
    var q := FromFirstOpen(Queue(p, k), p.open);
    if q != [] then (WithQueue(p, k, q[1..]), Some(q[0]))
    else
      var emptied := if Queue(p, k) == [] then p else WithQueue(p, k, []);
      if built.None? then (emptied, None)
      else (Adopt(emptied, KeyedFor(built.value, k)), Some(built.value.circuit))
  }

  function Restore(p: Pool, capacity: int, c: Circuit): Pool
    requires c in p.keyOf
  {
    var q := Queue(p, p.keyOf[c]);
    if c !in p.open || |q| >= capacity then p else WithQueue(p, p.keyOf[c], q + [c])
  }

  /** One round of prebuilding: the builds that succeed are put into the pool one by one. */
  function PrebuildAll(p: Pool, capacity: int, builds: seq<Option<Built>>): Pool {
    if builds == [] then p
    else
      var before := PrebuildAll(p, capacity, builds[..|builds| - 1]);
      match builds[|builds| - 1]
      case None => before
      case Some(b) => Restore(Adopt(before, b), capacity, b.circuit)
  }

  /** The open circuits without an isolation key among those built, in order. */
  function Usable(builds: seq<Option<Built>>): seq<Circuit> {
    if builds == [] then []
    else
      var before, last := Usable(builds[..|builds| - 1]), builds[|builds| - 1];
      if last.Some? && last.value.isOpen && !Isolated(last.value.key) then before + [last.value.circuit] else before
  }

  /** As many of these elements as there is room for. */
  function UpTo(q: seq<Circuit>, room: int): seq<Circuit> {
    if room <= 0 then [] else if room <= |q| then q[..room] else q
  }

  /** A round of prebuilding appends the usable circuits in the order in which they were built, as long
      as there is room. */
  lemma {:induction false} PrebuildFillsQueue(p: Pool, capacity: int, builds: seq<Option<Built>>)
    ensures PrebuildAll(p, capacity, builds).circuits
         == p.circuits + UpTo(Usable(builds), capacity - |p.circuits|)
  {
    if builds != [] {
      PrebuildFillsQueue(p, capacity, builds[..|builds| - 1]);
    }
  }

  /** What FIFO order means: everything skipped is closed, and the circuit taken is open. */
  lemma {:induction false} TakesFirstOpen(q: seq<Circuit>, open: set<Circuit>) returns (i: nat)
    ensures i <= |q| && FromFirstOpen(q, open) == q[i..]
    ensures forall j :: 0 <= j < i ==> q[j] !in open
    ensures i < |q| ==> q[i] in open
  {
    if q == [] || q[0] in open {
      return 0;
    }
    var j := TakesFirstOpen(q[1..], open);
    i := j + 1;
    assert q[1..][j..] == q[i..];
    assert forall n :: 1 <= n < i ==> q[n] == q[1..][n - 1];
  }

  /** The two keys are served by the same queue. */
  predicate SameQueue(a: MaybeKey, b: MaybeKey) {
    Isolated(a) == Isolated(b) && (Isolated(a) ==> Key(a) == Key(b))
  }

  /** A Get takes the first open circuit, drops only closed ones before it, touches no other queue,
      and calls the builder only when every queued circuit is closed; a built circuit gets the key of
      the request, or keeps its own if the request has none. */
  lemma GetIsFifo(p: Pool, k: MaybeKey, other: MaybeKey, built: Option<Built>) returns (i: nat)
    ensures var q := Queue(p, k); var (p', c) := TakeFor(p, k, built);
            && i <= |q|
            && (forall j :: 0 <= j < i ==> q[j] !in p.open)
            && (i < |q| ==> q[i] in p.open && c == Some(q[i]) && Queue(p', k) == q[i + 1..])
            && (i == |q| ==> Queue(p', k) == [] && c == if built.Some? then Some(built.value.circuit) else None)
            && (i < |q| || built.None? ==> p'.keyOf == p.keyOf && p'.open == p.open)
            && (i == |q| && built.Some? ==>
                  var b := built.value;
                  && p'.keyOf == p.keyOf[b.circuit := if k.Some? then k else b.key]
                  && p'.open == if b.isOpen then p.open + {b.circuit} else p.open - {b.circuit})
            && (!SameQueue(k, other) ==> Queue(p', other) == Queue(p, other))
  {
    i := TakesFirstOpen(Queue(p, k), p.open);
  }

  // ----- runs ---------------------------------------------------------------------------------

  datatype Event =
    | GetFor(key: MaybeKey, built: Option<Built>)
    | PutBack(circuit: Circuit)
    | Prebuild(made: Built)
    | SetState(circuit: Circuit, isOpen: bool)

  /** The pool together with what has happened to its circuits: every hand-out with its key, and
      the circuits that are out. */
  datatype World = World(pool: Pool, handed: seq<(Circuit, MaybeKey)>, held: set<Circuit>)

  const EMPTY_WORLD := World(Pool([], map[], map[], {}), [], {})

  /** The builder returns circuits never seen before; states change on known circuits only. */
  predicate Enabled(w: World, e: Event) {
    match e
    case GetFor(_, built) => built.Some? ==> built.value.circuit !in w.pool.keyOf
    case PutBack(c) => c in w.pool.keyOf
    case Prebuild(b) => b.circuit !in w.pool.keyOf
    case SetState(c, _) => c in w.pool.keyOf
  }

  function Step(w: World, capacity: int, e: Event): World
    requires Enabled(w, e)
  {
    match e
    case GetFor(k, built) =>
      var (p, c) := TakeFor(w.pool, k, built);
      if c.None? then w.(pool := p)
      else World(p, w.handed + [(c.value, k)], w.held + {c.value})
    case PutBack(c) => w.(pool := Restore(w.pool, capacity, c), held := w.held - {c})
    case Prebuild(b) => w.(pool := Restore(Adopt(w.pool, b), capacity, b.circuit))
    case SetState(c, isOpen) =>
      w.(pool := w.pool.(open := if isOpen then w.pool.open + {c} else w.pool.open - {c}))
  }

  predicate IsRun(w: World, capacity: int, run: seq<Event>)
    decreases |run|
  {
    run == [] || (Enabled(w, run[0]) && IsRun(Step(w, capacity, run[0]), capacity, run[1..]))
  }

  function Final(w: World, capacity: int, run: seq<Event>): World
    requires IsRun(w, capacity, run)
    decreases |run|
  {
    if run == [] then w else Final(Step(w, capacity, run[0]), capacity, run[1..])
  }

  // ----- isolation ----------------------------------------------------------------------------

  ghost predicate Sorted(p: Pool) {
    && (forall c :: c in p.circuits ==> c in p.keyOf && !Isolated(p.keyOf[c]))
    && (forall s, c :: s in p.isolated && c in p.isolated[s] ==>
          c in p.keyOf && Isolated(p.keyOf[c]) && Key(p.keyOf[c]) == s)
  }

  ghost predicate HandedByKey(w: World) {
    forall i :: 0 <= i < |w.handed| ==>
      w.handed[i].0 in w.pool.keyOf && SameQueue(w.handed[i].1, w.pool.keyOf[w.handed[i].0])
  }

  lemma QueueSorted(p: Pool, k: MaybeKey, c: Circuit)
    requires Sorted(p) && c in Queue(p, k)
    ensures c in p.keyOf && SameQueue(k, p.keyOf[c])
  {
  }

  lemma ShorterQueueSorted(p: Pool, k: MaybeKey, i: nat)
    requires Sorted(p) && i <= |Queue(p, k)|
    ensures Sorted(WithQueue(p, k, Queue(p, k)[i..]))
  {
  }

  /** A request without a key finds no open circuit and is given one that its builder keyed for
      isolation. */
  predicate KeyedBuild(w: World, e: Event) {
    && e.GetFor? && e.key.None? && FromFirstOpen(w.pool.circuits, w.pool.open) == []
    && e.built.Some? && Isolated(e.built.value.key)
  }

  lemma GetKeepsSorted(w: World, capacity: int, e: Event)
    requires Sorted(w.pool) && e.GetFor? && Enabled(w, e)
    ensures Sorted(Step(w, capacity, e).pool)
    ensures HandedByKey(w) && !KeyedBuild(w, e) ==> HandedByKey(Step(w, capacity, e))
  {
    var p, k := w.pool, e.key;
    var i := TakesFirstOpen(Queue(p, k), p.open);
    if i < |Queue(p, k)| {
      QueueSorted(p, k, Queue(p, k)[i]);
      ShorterQueueSorted(p, k, i + 1);
      assert Queue(p, k)[i..][1..] == Queue(p, k)[i + 1..];
    } else {
      ShorterQueueSorted(p, k, i);
    }
  }

  lemma PutKeepsSorted(p: Pool, capacity: int, c: Circuit)
    requires Sorted(p) && c in p.keyOf
    ensures Sorted(Restore(p, capacity, c))
    ensures Restore(p, capacity, c).keyOf == p.keyOf
  {
    var q := Queue(p, p.keyOf[c]);
    forall d | d in q + [c]
      ensures d in p.keyOf && SameQueue(p.keyOf[c], p.keyOf[d])
    {
      if d in q {
        QueueSorted(p, p.keyOf[c], d);
      }
    }
  }

  lemma StepKeepsSorted(w: World, capacity: int, e: Event)
    requires Sorted(w.pool) && Enabled(w, e)
    ensures Sorted(Step(w, capacity, e).pool)
    ensures HandedByKey(w) && !KeyedBuild(w, e) ==> HandedByKey(Step(w, capacity, e))
  {
    match e
    case GetFor(_, _) => GetKeepsSorted(w, capacity, e);
    case PutBack(c) => PutKeepsSorted(w.pool, capacity, c);
    case Prebuild(b) => PutKeepsSorted(Adopt(w.pool, b), capacity, b.circuit);
    case SetState(_, _) =>
  }

  predicate NoKeyedBuild(w: World, capacity: int, run: seq<Event>)
    requires IsRun(w, capacity, run)
    decreases |run|
  {
    run == [] || (!KeyedBuild(w, run[0]) && NoKeyedBuild(Step(w, capacity, run[0]), capacity, run[1..]))
  }

  lemma {:induction false} RunKeepsSorted(w: World, capacity: int, run: seq<Event>)
    requires Sorted(w.pool) && IsRun(w, capacity, run)
    ensures Sorted(Final(w, capacity, run).pool)
    ensures HandedByKey(w) && NoKeyedBuild(w, capacity, run) ==> HandedByKey(Final(w, capacity, run))
    decreases |run|
  {
    if run != [] {
      StepKeepsSorted(w, capacity, run[0]);
      RunKeepsSorted(Step(w, capacity, run[0]), capacity, run[1..]);
    }
  }

  /** Isolation over whole runs: two hand-outs of one circuit are both without isolation, or both
      isolated with keys that are `Equals` as soon as one of the two levels is a known one. */
  lemma CircuitsAreNotShared(capacity: int, run: seq<Event>, i: nat, j: nat)
    requires IsRun(EMPTY_WORLD, capacity, run) && NoKeyedBuild(EMPTY_WORLD, capacity, run)
    requires var handed := Final(EMPTY_WORLD, capacity, run).handed;
             i < |handed| && j < |handed| && handed[i].0 == handed[j].0
    ensures var handed := Final(EMPTY_WORLD, capacity, run).handed; var a, b := handed[i].1, handed[j].1;
            && Isolated(a) == Isolated(b)
            && (Isolated(a) && (Known(a) || Known(b)) ==> Equals(a, b))
  {
    RunKeepsSorted(EMPTY_WORLD, capacity, run);
    var handed := Final(EMPTY_WORLD, capacity, run).handed;
    KeyAgreesWithEquals(handed[i].1, handed[j].1);
  }

  // ----- exclusive lease and capacity ---------------------------------------------------------

  /** Holders put back only what they hold. */
  predicate Disciplined(w: World, capacity: int, run: seq<Event>)
    requires IsRun(w, capacity, run)
    decreases |run|
  {
    run == [] ||
    ((run[0].PutBack? ==> run[0].circuit in w.held)
     && Disciplined(Step(w, capacity, run[0]), capacity, run[1..]))
  }

  ghost predicate NoDuplicates(q: seq<Circuit>) {
    forall i, j :: 0 <= i < j < |q| ==> q[i] != q[j]
  }

  ghost predicate GoodQueue(q: seq<Circuit>, held: set<Circuit>, capacity: int) {
    NoDuplicates(q) && (forall c :: c in q ==> c !in held) && |q| <= if capacity < 0 then 0 else capacity
  }

  ghost predicate Leased(w: World, capacity: int) {
    && Sorted(w.pool)
    && w.held <= w.pool.keyOf.Keys
    && GoodQueue(w.pool.circuits, w.held, capacity)
    && (forall s :: s in w.pool.isolated ==> GoodQueue(w.pool.isolated[s], w.held, capacity))
  }

  /** A queue after replacing one: every other queue is as before. */
  lemma ReplaceQueue(p: Pool, k: MaybeKey, q: seq<Circuit>, held: set<Circuit>, held': set<Circuit>, capacity: int)
    requires Leased(World(p, [], held), capacity) && Sorted(WithQueue(p, k, q))
    requires GoodQueue(q, held', capacity) && held' <= p.keyOf.Keys
    requires forall c :: c in held' && c !in held ==> c in p.keyOf && SameQueue(k, p.keyOf[c])
    ensures Leased(World(WithQueue(p, k, q), [], held'), capacity)
  {
  }

  lemma TakeKeepsLeased(w: World, capacity: int, k: MaybeKey, i: nat)
    requires Leased(w, capacity) && i < |Queue(w.pool, k)|
    ensures var c := Queue(w.pool, k)[i]; var p := WithQueue(w.pool, k, Queue(w.pool, k)[i + 1..]);
            c !in w.held && Leased(World(p, w.handed, w.held + {c}), capacity)
  {
    var q := Queue(w.pool, k);
    QueueSorted(w.pool, k, q[i]);
    ShorterQueueSorted(w.pool, k, i + 1);
    ReplaceQueue(w.pool, k, q[i + 1..], w.held, w.held + {q[i]}, capacity);
  }

  lemma EmptyKeepsLeased(w: World, capacity: int, k: MaybeKey)
    requires Leased(w, capacity)
    ensures Leased(w.(pool := WithQueue(w.pool, k, [])), capacity)
  {
  }

  lemma BuildKeepsLeased(w: World, capacity: int, b: Built, k: MaybeKey)
    requires Leased(w, capacity) && b.circuit !in w.pool.keyOf
    ensures Leased(World(Adopt(w.pool, b), w.handed + [(b.circuit, k)], w.held + {b.circuit}), capacity)
    ensures Leased(World(Adopt(w.pool, b), w.handed, w.held), capacity)
  {
  }

  lemma GetKeepsLeased(w: World, capacity: int, e: Event)
    requires Leased(w, capacity) && e.GetFor? && Enabled(w, e)
    ensures Leased(Step(w, capacity, e), capacity)
    ensures var c := TakeFor(w.pool, e.key, e.built).1; c.Some? ==> c.value !in w.held
  {
    var q := Queue(w.pool, e.key);
    var i := TakesFirstOpen(q, w.pool.open);
    if i < |q| {
      TakeKeepsLeased(w, capacity, e.key, i);
      assert q[i..][1..] == q[i + 1..];
      assert TakeFor(w.pool, e.key, e.built) == (WithQueue(w.pool, e.key, q[i + 1..]), Some(q[i]));
    } else {
      var w' := if q == [] then w else w.(pool := WithQueue(w.pool, e.key, []));
      EmptyKeepsLeased(w, capacity, e.key);
      if e.built.Some? {
        BuildKeepsLeased(w', capacity, KeyedFor(e.built.value, e.key), e.key);
      }
    }
  }

  lemma PutKeepsLeased(w: World, capacity: int, c: Circuit)
    requires Leased(w, capacity) && c in w.pool.keyOf
    requires forall k :: c !in Queue(w.pool, k)
    ensures Leased(w.(pool := Restore(w.pool, capacity, c), held := w.held - {c}), capacity)
  {
    PutKeepsSorted(w.pool, capacity, c);
    var k := w.pool.keyOf[c];
    var q := Queue(w.pool, k);
    if c in w.pool.open && |q| < capacity {
      ReplaceQueue(w.pool, k, q + [c], w.held, w.held - {c}, capacity);
    }
  }

  lemma StepKeepsLeased(w: World, capacity: int, e: Event)
    requires Leased(w, capacity) && Enabled(w, e)
    requires e.PutBack? ==> e.circuit in w.held
    ensures Leased(Step(w, capacity, e), capacity)
  {
    match e
    case GetFor(_, _) => GetKeepsLeased(w, capacity, e);
    case PutBack(c) => PutKeepsLeased(w, capacity, c);
    case Prebuild(b) =>
      var w' := w.(pool := Adopt(w.pool, b));
      BuildKeepsLeased(w, capacity, b, b.key);
      PutKeepsLeased(w', capacity, b.circuit);
      assert w'.held - {b.circuit} == w.held;
    case SetState(_, _) =>
  }

  /** Exclusive lease and capacity: with a fresh builder and one Put per Get, no circuit sits in a
      queue twice, in two queues, or in a queue while it is held, and no queue exceeds capacity. */
  lemma {:induction false} LeasesAreExclusive(w: World, capacity: int, run: seq<Event>)
    requires Leased(w, capacity)
    requires IsRun(w, capacity, run) && Disciplined(w, capacity, run)
    ensures Leased(Final(w, capacity, run), capacity)
    decreases |run|
  {
    if run != [] {
      StepKeepsLeased(w, capacity, run[0]);
      LeasesAreExclusive(Step(w, capacity, run[0]), capacity, run[1..]);
    }
  }

  /** What a lease state says of any two places a circuit could be. */
  lemma LeasedMeansOnePlace(w: World, capacity: int, a: MaybeKey, b: MaybeKey, i: nat, j: nat)
    requires Leased(w, capacity) && i < |Queue(w.pool, a)| && j < |Queue(w.pool, b)|
    requires Queue(w.pool, a)[i] == Queue(w.pool, b)[j]
    ensures Queue(w.pool, a)[i] !in w.held
    ensures SameQueue(a, b) && i == j
  {
    QueueSorted(w.pool, a, Queue(w.pool, a)[i]);
    QueueSorted(w.pool, b, Queue(w.pool, b)[j]);
  }

  // ----- the pool object ----------------------------------------------------------------------

  class CircuitPool {
    var circuits: seq<Circuit>
    var isolatedCircuits: map<string, seq<Circuit>>
    var keyOf: map<Circuit, MaybeKey>
    var open: set<Circuit>
    const minCircuits: int
    const maxCircuits: int

    constructor (minCircuits: int, maxCircuits: int)
      ensures View() == EMPTY_WORLD.pool
      ensures this.minCircuits == minCircuits && this.maxCircuits == maxCircuits
    {
      circuits, isolatedCircuits, keyOf, open := [], map[], map[], {};
      this.minCircuits, this.maxCircuits := minCircuits, maxCircuits;
    }

    ghost function View(): Pool
      reads this
    {
      Pool(circuits, isolatedCircuits, keyOf, open)
    }

    method GetWithIsolation(key: MaybeKey, built: Option<Built>) returns (circ: Option<Circuit>)
      modifies this
      ensures (View(), circ) == TakeFor(old(View()), key, built)
    {
      var isolated := key.Some? && key.value.level != NONE;
      var poolKey := if isolated then Key(key) else "";
      var poolCircuits := circuits;
      if isolated {
        poolCircuits := if poolKey in isolatedCircuits then isolatedCircuits[poolKey] else [];
      }
      ghost var q := poolCircuits;
      while poolCircuits != []
        invariant FromFirstOpen(poolCircuits, open) == FromFirstOpen(q, open)
        invariant View() == if poolCircuits == q then old(View()) else WithQueue(old(View()), key, poolCircuits)
        invariant |poolCircuits| <= |q|
        invariant poolCircuits != q ==> |poolCircuits| < |q|
        decreases |poolCircuits|
      {
        var c := poolCircuits[0];
        poolCircuits := poolCircuits[1..];
        if isolated {
          isolatedCircuits := isolatedCircuits[poolKey := poolCircuits];
        } else {
          circuits := poolCircuits;
        }
        if c in open {
          assert View() == WithQueue(old(View()), key, poolCircuits);
          return Some(c);
        }
      }
      if built.None? {
        return None;
      }
      ghost var emptied := View();
      AddBuilt(built.value);
      if key.Some? {
        keyOf := keyOf[built.value.circuit := key];
      }
      assert keyOf == emptied.keyOf[built.value.circuit := KeyedFor(built.value, key).key];
      assert View() == Adopt(emptied, KeyedFor(built.value, key));
      return Some(built.value.circuit);
    }

    /** The builder's circuit, with the key and the state it comes with. */
    method AddBuilt(b: Built)
      modifies this
      ensures View() == Adopt(old(View()), b)
      ensures circuits == old(circuits) && isolatedCircuits == old(isolatedCircuits)
      ensures keyOf == old(keyOf)[b.circuit := b.key]
      ensures open == if b.isOpen then old(open) + {b.circuit} else old(open) - {b.circuit}
    {
      keyOf := keyOf[b.circuit := b.key];
      open := if b.isOpen then open + {b.circuit} else open - {b.circuit};
    }

    method Put(circ: Circuit)
      requires circ in keyOf
      modifies this
      ensures View() == Restore(old(View()), maxCircuits, circ)
      ensures keyOf == old(keyOf) && open == old(open)
      ensures var q := Queue(old(View()), keyOf[circ]);
              Queue(View(), keyOf[circ]) == if circ in open && |q| < maxCircuits then q + [circ] else q
      ensures forall other :: !SameQueue(keyOf[circ], other) ==> Queue(View(), other) == Queue(old(View()), other)
    {
      if circ !in open {
        return;
      }
      var key := keyOf[circ];
      if key.Some? && key.value.level != NONE {
        var poolKey := Key(key);
        var poolCircuits := if poolKey in isolatedCircuits then isolatedCircuits[poolKey] else [];
        if |poolCircuits| >= maxCircuits {
          return;
        }
        isolatedCircuits := isolatedCircuits[poolKey := poolCircuits + [circ]];
      } else {
        if |circuits| >= maxCircuits {
          return;
        }
        circuits := circuits + [circ];
      }
    }

    /** `builds` is what the builder returns, call by call. */
    method EnsureMinCircuits(builds: seq<Option<Built>>)
      requires |builds| >= minCircuits - |circuits|
      modifies this
      ensures View() == if old(|circuits|) >= minCircuits then old(View())
                        else PrebuildAll(old(View()), maxCircuits, builds[..minCircuits - old(|circuits|)])
    {
      var currentCount := |circuits|;
      if currentCount >= minCircuits {
        return;
      }
      var needed := minCircuits - currentCount;
      for i := 0 to needed
        invariant View() == PrebuildAll(old(View()), maxCircuits, builds[..i])
      {
        assert builds[..i + 1][..i] == builds[..i];
        if builds[i].Some? {
          AddBuilt(builds[i].value);
          Put(builds[i].value.circuit);
        }
      }
    }
  }
}
