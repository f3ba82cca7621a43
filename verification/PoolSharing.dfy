/** Exactly when the circuit pool can hand one circuit to requests that should not share
    (pkg/pool/circuit_pool.go: GetWithIsolation, Put; pkg/circuit/isolation.go). */
module PoolSharing {
  import opened Wrappers
  import opened Isolation
  import opened Pooling

  /** One circuit was handed out for two keys that different queues serve. */
  ghost predicate Shares(w: World) {
    exists i, j :: 0 <= i < |w.handed| && 0 <= j < |w.handed|
      && w.handed[i].0 == w.handed[j].0 && !SameQueue(w.handed[i].1, w.handed[j].1)
  }

  /** The run is possible, has no keyed build, and ends in v. */
  ghost predicate Continues(w: World, capacity: int, run: seq<Event>, v: World) {
    IsRun(w, capacity, run) && NoKeyedBuild(w, capacity, run) && Final(w, capacity, run) == v
  }

  ghost predicate CanShare(w: World, capacity: int, more: seq<Event>) {
    IsRun(w, capacity, more) && NoKeyedBuild(w, capacity, more) && Shares(Final(w, capacity, more))
  }

  /** Some continuation without a keyed build shares a circuit. */
  ghost predicate Sharable(w: World, capacity: int) {
    exists more :: CanShare(w, capacity, more)
  }

  // ----- runs ---------------------------------------------------------------------------------

  lemma OneEvent(w: World, capacity: int, e: Event, v: World)
    requires Enabled(w, e) && !KeyedBuild(w, e) && v == Step(w, capacity, e)
    ensures Continues(w, capacity, [e], v)
  {
    assert IsRun(v, capacity, []) && [e][1..] == [];
  }

  lemma {:induction false} Compose(w: World, capacity: int, r1: seq<Event>, v: World, r2: seq<Event>, u: World)
    requires Continues(w, capacity, r1, v) && Continues(v, capacity, r2, u)
    ensures Continues(w, capacity, r1 + r2, u)
    decreases |r1|
  {
    if r1 == [] {
      assert r1 + r2 == r2;
    } else {
      Compose(Step(w, capacity, r1[0]), capacity, r1[1..], v, r2, u);
      assert (r1 + r2)[1..] == r1[1..] + r2;
    }
  }

  // ----- without a keyed build nothing is shared ----------------------------------------------

  lemma MatchedNeverShares(w: World, capacity: int, more: seq<Event>)
    requires Sorted(w.pool) && HandedByKey(w) && IsRun(w, capacity, more) && NoKeyedBuild(w, capacity, more)
    ensures !Shares(Final(w, capacity, more))
  {
    RunKeepsSorted(w, capacity, more);
  }

  // ----- a keyed build leaves a mismatch for good ---------------------------------------------

  /** A hand-out was for a key that is not served by the queue of the circuit's own key. */
  ghost predicate MismatchAt(w: World, i: int) {
    0 <= i < |w.handed| && w.handed[i].0 in w.pool.keyOf
    && !SameQueue(w.handed[i].1, w.pool.keyOf[w.handed[i].0])
  }

  lemma KeyedBuildMismatches(w: World, capacity: int, e: Event)
    requires Enabled(w, e) && KeyedBuild(w, e)
    ensures MismatchAt(Step(w, capacity, e), |w.handed|)
  {
  }

  lemma MismatchStays(w: World, capacity: int, e: Event, i: int)
    requires Enabled(w, e) && MismatchAt(w, i)
    ensures MismatchAt(Step(w, capacity, e), i)
  {
    var v := Step(w, capacity, e);
    assert w.handed <= v.handed;
    assert v.pool.keyOf[w.handed[i].0] == w.pool.keyOf[w.handed[i].0];
  }

  lemma {:induction false} MismatchOverRun(w: World, capacity: int, run: seq<Event>, i: int) returns (i': int)
    requires IsRun(w, capacity, run) && (MismatchAt(w, i) || !NoKeyedBuild(w, capacity, run))
    ensures MismatchAt(Final(w, capacity, run), i')
    decreases |run|
  {
    i' := i;
    if run != [] {
      if MismatchAt(w, i) {
        MismatchStays(w, capacity, run[0], i);
      } else if KeyedBuild(w, run[0]) {
        KeyedBuildMismatches(w, capacity, run[0]);
        i' := |w.handed|;
      }
      i' := MismatchOverRun(Step(w, capacity, run[0]), capacity, run[1..], i');
    }
  }

  // ----- from a mismatch to a shared circuit --------------------------------------------------

  lemma {:induction false} Drain(w: World, capacity: int, k: MaybeKey) returns (more: seq<Event>, v: World)
    ensures Continues(w, capacity, more, v)
    ensures Queue(v.pool, k) == [] && v.pool.keyOf == w.pool.keyOf && w.handed <= v.handed
    decreases |Queue(w.pool, k)|
  {
    if Queue(w.pool, k) == [] {
      more, v := [], w;
    } else {
      var e := GetFor(k, None);
      var w1 := Step(w, capacity, e);
      var i := GetIsFifo(w.pool, k, k, None);
      OneEvent(w, capacity, e, w1);
      var rest;
      rest, v := Drain(w1, capacity, k);
      more := [e] + rest;
      Compose(w, capacity, [e], w1, rest, v);
    }
  }

  lemma HandedAgain(w: World, capacity: int, c: Circuit) returns (more: seq<Event>, v: World)
    requires capacity >= 1 && c in w.pool.keyOf && Queue(w.pool, w.pool.keyOf[c]) == []
    ensures Continues(w, capacity, more, v)
    ensures v.handed == w.handed + [(c, w.pool.keyOf[c])]
  {
    var k := w.pool.keyOf[c];
    var w1 := Step(w, capacity, SetState(c, true));
    var w2 := Step(w1, capacity, PutBack(c));
    assert Queue(w2.pool, k) == [c];
    v := Step(w2, capacity, GetFor(k, None));
    OneEvent(w, capacity, SetState(c, true), w1);
    OneEvent(w1, capacity, PutBack(c), w2);
    OneEvent(w2, capacity, GetFor(k, None), v);
    Compose(w1, capacity, [PutBack(c)], w2, [GetFor(k, None)], v);
    more := [SetState(c, true)] + ([PutBack(c)] + [GetFor(k, None)]);
    Compose(w, capacity, [SetState(c, true)], w1, [PutBack(c)] + [GetFor(k, None)], v);
  }

  lemma MismatchCanShare(w: World, capacity: int, i: int) returns (more: seq<Event>)
    requires capacity >= 1 && MismatchAt(w, i)
    ensures CanShare(w, capacity, more)
  {
    var c := w.handed[i].0;
    var r1, w1 := Drain(w, capacity, w.pool.keyOf[c]);
    var r2, w2 := HandedAgain(w1, capacity, c);
    more := r1 + r2;
    Compose(w, capacity, r1, w1, r2, w2);
    assert w2.handed[i] == w.handed[i];
    assert w2.handed[|w1.handed|] == (c, w.pool.keyOf[c]);
  }

  // ----- a pool without room ------------------------------------------------------------------

  /** Nothing is queued, and every hand-out was a new circuit. */
  ghost predicate NeverReused(w: World) {
    && w.pool.circuits == [] && (forall s :: s in w.pool.isolated ==> w.pool.isolated[s] == [])
    && (forall i :: 0 <= i < |w.handed| ==> w.handed[i].0 in w.pool.keyOf)
    && forall i, j :: 0 <= i < j < |w.handed| ==> w.handed[i].0 != w.handed[j].0
  }

  lemma {:induction false} NoRoomNeverReuses(w: World, capacity: int, run: seq<Event>)
    requires capacity < 1 && NeverReused(w) && IsRun(w, capacity, run)
    ensures NeverReused(Final(w, capacity, run))
    decreases |run|
  {
    if run != [] {
      NoRoomNeverReuses(Step(w, capacity, run[0]), capacity, run[1..]);
    }
  }

  // ----- the exact condition ------------------------------------------------------------------

  /** After any run from the empty pool: some continuation without keyed builds hands one circuit to
      two requests that different queues serve, exactly when the pool has room for a circuit and the
      run had a keyed build. */
  lemma SharingIff(capacity: int, run: seq<Event>)
    requires IsRun(EMPTY_WORLD, capacity, run)
    ensures Sharable(Final(EMPTY_WORLD, capacity, run), capacity)
            <==> capacity >= 1 && !NoKeyedBuild(EMPTY_WORLD, capacity, run)
  {
    var w := Final(EMPTY_WORLD, capacity, run);
    if capacity < 1 {
      NoRoomNeverReuses(EMPTY_WORLD, capacity, run);
      forall more | IsRun(w, capacity, more)
        ensures !Shares(Final(w, capacity, more))
      {
        NoRoomNeverReuses(w, capacity, more);
      }
    } else if NoKeyedBuild(EMPTY_WORLD, capacity, run) {
      RunKeepsSorted(EMPTY_WORLD, capacity, run);
      forall more | IsRun(w, capacity, more) && NoKeyedBuild(w, capacity, more)
        ensures !Shares(Final(w, capacity, more))
      {
        MatchedNeverShares(w, capacity, more);
      }
    } else {
      var i := MismatchOverRun(EMPTY_WORLD, capacity, run, 0);
      var more := MismatchCanShare(w, capacity, i);
      assert Sharable(w, capacity);
    }
  }

  // ----- keys of unnamed levels ---------------------------------------------------------------

  ghost predicate HandsOut(w: World, c: Circuit, a: MaybeKey, b: MaybeKey) {
    (c, a) in w.handed && (c, b) in w.handed
  }

  /** The run, free of keyed builds, hands one circuit to a and to b. */
  ghost predicate Joins(capacity: int, run: seq<Event>, a: MaybeKey, b: MaybeKey) {
    && IsRun(EMPTY_WORLD, capacity, run) && NoKeyedBuild(EMPTY_WORLD, capacity, run)
    && exists c: Circuit :: HandsOut(Final(EMPTY_WORLD, capacity, run), c, a, b)
  }

  /** Keys that ought not to share: one is isolated and they are not `Equals`. */
  predicate Apart(a: MaybeKey, b: MaybeKey) {
    (Isolated(a) || Isolated(b)) && !Equals(a, b)
  }

  lemma UnknownLevelsShare(a: MaybeKey, b: MaybeKey) returns (run: seq<Event>)
    requires Isolated(a) && Isolated(b) && !Known(a) && !Known(b)
    ensures Joins(1, run, a, b) && Apart(a, b)
  {
    var get, put, again := GetFor(a, Some(Built(1, None, true))), PutBack(1), GetFor(b, None);
    var w1 := Step(EMPTY_WORLD, 1, get);
    assert w1.handed == [(1, a)] && w1.pool == Pool([], map[], map[1 := a], {1});
    assert Queue(w1.pool, a) + [1] == [1];
    var w2 := Step(w1, 1, put);
    assert w2.pool == Pool([], map["" := [1]], map[1 := a], {1});
    var w3 := Step(w2, 1, again);
    OneEvent(EMPTY_WORLD, 1, get, w1);
    OneEvent(w1, 1, put, w2);
    OneEvent(w2, 1, again, w3);
    Compose(w1, 1, [put], w2, [again], w3);
    Compose(EMPTY_WORLD, 1, [get], w1, [put] + [again], w3);
    run := [get] + ([put] + [again]);
    assert w3.handed == [(1, a), (1, b)];
    assert HandsOut(w3, 1, a, b);
  }

  /** Two keys that ought not to share are handed one circuit by some run without keyed builds
      exactly when both are isolated at levels that have no name. */
  lemma UnknownLevelsShareIff(a: MaybeKey, b: MaybeKey)
    ensures Apart(a, b) && (exists capacity: int, run :: Joins(capacity, run, a, b))
            <==> Isolated(a) && Isolated(b) && !Known(a) && !Known(b)
  {
    if Isolated(a) && Isolated(b) && !Known(a) && !Known(b) {
      var run := UnknownLevelsShare(a, b);
    } else {
      forall capacity: int, run | Joins(capacity, run, a, b)
        ensures !Apart(a, b)
      {
        var handed := Final(EMPTY_WORLD, capacity, run).handed;
        var c: Circuit :| HandsOut(Final(EMPTY_WORLD, capacity, run), c, a, b);
        var i :| 0 <= i < |handed| && handed[i] == (c, a);
        var j :| 0 <= j < |handed| && handed[j] == (c, b);
        CircuitsAreNotShared(capacity, run, i, j);
      }
    }
  }
}
