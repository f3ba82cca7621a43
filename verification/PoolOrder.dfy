/** The order in which the circuit pool hands out its circuits (pkg/pool/circuit_pool.go). */
module PoolOrder {
  import opened Wrappers
  import opened Isolation
  import opened Pooling

  // ----- the queues as lines ------------------------------------------------------------------

  predicate HasRoom(w: World, capacity: int, k: MaybeKey) {
    |Queue(w.pool, k)| < capacity
  }

  /** What an event adds to the back of the queue that serves k: an open circuit with a key of that
      queue, if there is room. */
  function Joins(w: World, capacity: int, k: MaybeKey, e: Event): seq<Circuit>
    requires Enabled(w, e)
  {
    match e
    case PutBack(c) =>
      if SameQueue(k, w.pool.keyOf[c]) && c in w.pool.open && HasRoom(w, capacity, k) then [c] else []
    case Prebuild(b) => if SameQueue(k, b.key) && b.isOpen && HasRoom(w, capacity, k) then [b.circuit] else []
    case _ => []
  }

  /** The closed circuits at the front, and the first open one. */
  function ThroughFirstOpen(q: seq<Circuit>, open: set<Circuit>): seq<Circuit> {
    if q == [] then [] else if q[0] in open then [q[0]] else [q[0]] + ThroughFirstOpen(q[1..], open)
  }

  /** What an event removes from its front. */
  function Leaves(w: World, k: MaybeKey, e: Event): seq<Circuit> {
    if e.GetFor? && SameQueue(k, e.key) then ThroughFirstOpen(Queue(w.pool, k), w.pool.open) else []
  }

  function Joined(w: World, capacity: int, k: MaybeKey, run: seq<Event>): seq<Circuit>
    requires IsRun(w, capacity, run)
    decreases |run|
  {
    if run == [] then []
    else Joins(w, capacity, k, run[0]) + Joined(Step(w, capacity, run[0]), capacity, k, run[1..])
  }

  function Left(w: World, capacity: int, k: MaybeKey, run: seq<Event>): seq<Circuit>
    requires IsRun(w, capacity, run)
    decreases |run|
  {
    if run == [] then []
    else Leaves(w, k, run[0]) + Left(Step(w, capacity, run[0]), capacity, k, run[1..])
  }

  /** Where the first open circuit is, and what is left after it has been taken. */
  lemma {:induction false} LineSplits(q: seq<Circuit>, open: set<Circuit>, i: nat)
    requires i <= |q| && (forall j :: 0 <= j < i ==> q[j] !in open) && (i < |q| ==> q[i] in open)
    ensures ThroughFirstOpen(q, open) == if i < |q| then q[..i + 1] else q
  {
    if q != [] && i > 0 {
      LineSplits(q[1..], open, i - 1);
      assert q == [q[0]] + q[1..];
    }
  }

  lemma GetKeepsLine(w: World, capacity: int, k: MaybeKey, e: Event)
    requires Enabled(w, e) && e.GetFor?
    ensures Queue(w.pool, k) == Leaves(w, k, e) + Queue(Step(w, capacity, e).pool, k)
  {
    hide ThroughFirstOpen, TakeFor;
    var i := GetIsFifo(w.pool, e.key, k, e.built);
    if SameQueue(k, e.key) {
      var q := Queue(w.pool, k);
      assert q == Queue(w.pool, e.key);
      LineSplits(q, w.pool.open, i);
      if i < |q| {
        assert q == q[..i + 1] + q[i + 1..];
      } else {
        assert Queue(Step(w, capacity, e).pool, k) == [] && q == q + [];
      }
    }
  }

  lemma StepKeepsLine(w: World, capacity: int, k: MaybeKey, e: Event)
    requires Enabled(w, e)
    ensures Queue(w.pool, k) + Joins(w, capacity, k, e) == Leaves(w, k, e) + Queue(Step(w, capacity, e).pool, k)
  {
    if e.GetFor? {
      GetKeepsLine(w, capacity, k, e);
    }
  }

  lemma LinesCompose(q: seq<Circuit>, a: seq<Circuit>, l: seq<Circuit>, q': seq<Circuit>,
                     joined: seq<Circuit>, left: seq<Circuit>, end: seq<Circuit>)
    requires q + a == l + q' && q' + joined == left + end
    ensures q + (a + joined) == (l + left) + end
  {
    assert q + (a + joined) == (q + a) + joined;
    assert (l + q') + joined == l + (q' + joined);
    assert l + (left + end) == (l + left) + end;
  }

  /** First in, first out, for every queue and every run: what was queued, followed by what joined, is
      what left, followed by what is queued now. */
  lemma {:induction false} QueuesAreFifo(w: World, capacity: int, k: MaybeKey, run: seq<Event>)
    requires IsRun(w, capacity, run)
    ensures Queue(w.pool, k) + Joined(w, capacity, k, run)
         == Left(w, capacity, k, run) + Queue(Final(w, capacity, run).pool, k)
    decreases |run|
  {
    if run != [] {
      var e, w' := run[0], Step(w, capacity, run[0]);
      StepKeepsLine(w, capacity, k, e);
      QueuesAreFifo(w', capacity, k, run[1..]);
      LinesCompose(Queue(w.pool, k), Joins(w, capacity, k, e), Leaves(w, k, e), Queue(w'.pool, k),
                   Joined(w', capacity, k, run[1..]), Left(w', capacity, k, run[1..]),
                   Queue(Final(w', capacity, run[1..]).pool, k));
    }
  }

  /** A request is handed the last circuit that leaves, if it is open, and otherwise what the builder
      returns; the others that leave are closed. */
  lemma HandedIsLastToLeave(w: World, capacity: int, e: Event)
    requires Enabled(w, e) && e.GetFor?
    ensures var leaving := Leaves(w, e.key, e); var handed := Step(w, capacity, e).handed;
            && (forall j :: 0 <= j < |leaving| - 1 ==> leaving[j] !in w.pool.open)
            && handed == w.handed +
                 if leaving != [] && leaving[|leaving| - 1] in w.pool.open then [(leaving[|leaving| - 1], e.key)]
                 else if e.built.Some? then [(e.built.value.circuit, e.key)]
                 else []
  {
    var i := GetIsFifo(w.pool, e.key, e.key, e.built);
    LineSplits(Queue(w.pool, e.key), w.pool.open, i);
  }

  // ----- putting circuits and taking them back ------------------------------------------------

  function Puts(cs: seq<Circuit>): (run: seq<Event>)
    ensures |run| == |cs|
  {
    seq(|cs|, i requires 0 <= i < |cs| => PutBack(cs[i]))
  }

  function Gets(n: nat, k: MaybeKey): (run: seq<Event>)
    ensures |run| == n
  {
    seq(n, i => GetFor(k, None))
  }

  function HandOuts(cs: seq<Circuit>, k: MaybeKey): seq<(Circuit, MaybeKey)> {
    seq(|cs|, i requires 0 <= i < |cs| => (cs[i], k))
  }

  /** Open circuits that the queue of k serves. */
  predicate Waiting(w: World, k: MaybeKey, cs: seq<Circuit>) {
    forall i :: 0 <= i < |cs| ==> cs[i] in w.pool.open && cs[i] in w.pool.keyOf && SameQueue(k, w.pool.keyOf[cs[i]])
  }

  /** In v these circuits have joined the queue of k; keys, states and hand-outs are those of w. */
  predicate QueuedUp(w: World, k: MaybeKey, cs: seq<Circuit>, v: World) {
    && Queue(v.pool, k) == Queue(w.pool, k) + cs
    && v.pool.open == w.pool.open && v.pool.keyOf == w.pool.keyOf && v.handed == w.handed
  }

  lemma PutJoins(w: World, capacity: int, k: MaybeKey, c: Circuit)
    requires c in w.pool.open && c in w.pool.keyOf && SameQueue(k, w.pool.keyOf[c]) && HasRoom(w, capacity, k)
    ensures QueuedUp(w, k, [c], Step(w, capacity, PutBack(c)))
  {
  }

  lemma QueuedUpOneByOne(w: World, k: MaybeKey, cs: seq<Circuit>, w': World, v: World)
    requires cs != [] && QueuedUp(w, k, [cs[0]], w') && QueuedUp(w', k, cs[1..], v)
    ensures QueuedUp(w, k, cs, v)
  {
    assert (Queue(w.pool, k) + [cs[0]]) + cs[1..] == Queue(w.pool, k) + cs;
  }

  lemma GetTakesFirst(w: World, capacity: int, k: MaybeKey)
    requires Queue(w.pool, k) != [] && Queue(w.pool, k)[0] in w.pool.open
    ensures var q := Queue(w.pool, k); var v := Step(w, capacity, GetFor(k, None));
            && Queue(v.pool, k) == q[1..] && v.handed == w.handed + [(q[0], k)]
            && v.pool.open == w.pool.open
  {
    var i := GetIsFifo(w.pool, k, k, None);
  }

  lemma {:induction false} PutsQueueUp(w: World, capacity: int, k: MaybeKey, cs: seq<Circuit>)
    requires Waiting(w, k, cs) && |Queue(w.pool, k)| + |cs| <= capacity
    ensures IsRun(w, capacity, Puts(cs)) && QueuedUp(w, k, cs, Final(w, capacity, Puts(cs)))
    decreases |cs|
  {
    if cs == [] {
      assert Queue(w.pool, k) + cs == Queue(w.pool, k);
    } else {
      var w' := Step(w, capacity, PutBack(cs[0]));
      PutJoins(w, capacity, k, cs[0]);
      assert Puts(cs)[0] == PutBack(cs[0]) && Puts(cs)[1..] == Puts(cs[1..]);
      assert Waiting(w', k, cs[1..]);
      PutsQueueUp(w', capacity, k, cs[1..]);
      QueuedUpOneByOne(w, k, cs, w', Final(w', capacity, Puts(cs[1..])));
    }
  }

  lemma {:induction false} GetsTakeInOrder(w: World, capacity: int, k: MaybeKey, cs: seq<Circuit>)
    requires Queue(w.pool, k) == cs && forall c :: c in cs ==> c in w.pool.open
    ensures IsRun(w, capacity, Gets(|cs|, k))
    ensures Final(w, capacity, Gets(|cs|, k)).handed == w.handed + HandOuts(cs, k)
    decreases |cs|
  {
    if cs != [] {
      var get := GetFor(k, None);
      var w' := Step(w, capacity, get);
      assert Gets(|cs|, k)[0] == get && Gets(|cs|, k)[1..] == Gets(|cs| - 1, k);
      GetTakesFirst(w, capacity, k);
      GetsTakeInOrder(w', capacity, k, cs[1..]);
      assert [(cs[0], k)] + HandOuts(cs[1..], k) == HandOuts(cs, k);
    }
  }

  /** Open circuits put one after the other into an empty queue with room for them are handed out in the
      order in which they were put. */
  lemma PutsComeOutInOrder(w: World, capacity: int, k: MaybeKey, cs: seq<Circuit>)
    requires Waiting(w, k, cs) && Queue(w.pool, k) == [] && |cs| <= capacity
    ensures IsRun(w, capacity, Puts(cs))
    ensures var v := Final(w, capacity, Puts(cs));
            && IsRun(v, capacity, Gets(|cs|, k))
            && Final(v, capacity, Gets(|cs|, k)).handed == w.handed + HandOuts(cs, k)
  {
    PutsQueueUp(w, capacity, k, cs);
    var v := Final(w, capacity, Puts(cs));
    assert Queue(v.pool, k) == cs;
    GetsTakeInOrder(v, capacity, k, cs);
  }
}
