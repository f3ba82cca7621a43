/** Replay protection (pkg/cell/replay.go). */
module Replay {
  import opened Bytes

  const U64: nat := 0x1_0000_0000_0000_0000

  type Digest = seq<byte>

  datatype Verdict = Accepted | EmptyCell | DuplicateDigest | DuplicateSequence | TooOld | TooFarAhead

  // ----- one direction as a value -------------------------------------------------------------

  /** A sliding window of sequence numbers and a digest map, with eviction behind the window. Sequence
      numbers are 64-bit and wrap. */
  datatype Track = Track(next: nat, window: set<nat>, digests: map<Digest, nat>,
                         replays: nat, outOfOrder: nat)

  function Fresh(replays: nat, outOfOrder: nat): Track {
    Track(0, {}, map[], replays, outOfOrder)
  }

  /** The smallest sequence number that is not too old. */
  function Threshold(next: nat, size: nat): nat {
    if next > size then next - size else 0
  }

  function CheckSequence(t: Track, size: nat, seqNum: nat): Verdict {
    if seqNum in t.window then DuplicateSequence
    else if t.next > size && seqNum < t.next - size then TooOld
    else if seqNum > (t.next + size * 2 % U64) % U64 then TooFarAhead
    else Accepted
  }

  function Judge(t: Track, size: nat, seqNum: nat, digest: Digest): Verdict {
    if digest in t.digests then DuplicateDigest else CheckSequence(t, size, seqNum)
  }

  function Record(t: Track, seqNum: nat, digest: Digest): Track {
    t.(window := t.window + {seqNum}, digests := t.digests[digest := seqNum],
       outOfOrder := if seqNum < t.next then t.outOfOrder + 1 else t.outOfOrder)
  }

  function Evict(t: Track, size: nat): Track {
    var least := Threshold(t.next, size);
    t.(window := (set s | s in t.window && s >= least),
       digests := map d | d in t.digests && t.digests[d] >= least :: t.digests[d])
  }

  /** `ValidateAndTrack` on a non-empty cell. */
  function TrackExplicit(t: Track, size: nat, seqNum: nat, digest: Digest): Track {
    if Judge(t, size, seqNum, digest) != Accepted then t.(replays := t.replays + 1)
    else
      var r := Record(t, seqNum, digest);
      Evict(r.(next := if seqNum >= r.next then (seqNum + 1) % U64 else r.next), size)
  }

  /** `ValidateAndTrackAuto` on a non-empty cell: eviction happens before the counter moves. */
  function TrackAuto(t: Track, size: nat, digest: Digest): Track {
    if Judge(t, size, t.next, digest) != Accepted then t.(replays := t.replays + 1)
    else
      var r := Evict(Record(t, t.next, digest), size);
      r.(next := (r.next + 1) % U64)
  }

  function TakeSequence(t: Track): Track {
    t.(next := (t.next + 1) % U64)
  }

  // ----- whole runs of mixed calls ------------------------------------------------------------

  datatype Op = Explicit(seqNum: nat, digest: Digest) | Auto(digest: Digest) | Next

  function Apply(t: Track, size: nat, op: Op): Track {
    match op
    case Explicit(n, d) => TrackExplicit(t, size, n, d)
    case Auto(d) => TrackAuto(t, size, d)
    case Next => TakeSequence(t)
  }

  /** The sequence number an operation accepts, if any. */
  function Accepts(t: Track, size: nat, op: Op): seq<nat> {
    match op
    case Explicit(n, d) => if Judge(t, size, n, d) == Accepted then [n] else []
    case Auto(d) => if Judge(t, size, t.next, d) == Accepted then [t.next] else []
    case Next => []
  }

  function After(t: Track, size: nat, ops: seq<Op>): Track {
    if ops == [] then t
    else Apply(After(t, size, ops[..|ops| - 1]), size, ops[|ops| - 1])
  }

  /** All sequence numbers accepted by a run, in order. */
  function AcceptedIn(t: Track, size: nat, ops: seq<Op>): seq<nat> {
    if ops == [] then []
    else
      var before := ops[..|ops| - 1];
      AcceptedIn(t, size, before) + Accepts(After(t, size, before), size, ops[|ops| - 1])
  }

  /** The operation takes the 64-bit counter past its limit. */
  predicate Wraps(t: Track, size: nat, op: Op) {
    match op
    case Explicit(n, d) => Judge(t, size, n, d) == Accepted && n >= t.next && n + 1 >= U64
    case Auto(d) => Judge(t, size, t.next, d) == Accepted && t.next + 1 >= U64
    case Next => t.next + 1 >= U64
  }

  /** No operation of the run does. */
  ghost predicate NoWrap(t: Track, size: nat, ops: seq<Op>) {
    forall k :: 0 <= k < |ops| ==> !Wraps(After(t, size, ops[..k]), size, ops[k])
  }

  /** The digest map is a bijection onto the window. */
  ghost predicate Bijection(t: Track) {
    && (forall d :: d in t.digests ==> t.digests[d] in t.window)
    && (forall s :: s in t.window ==> exists d :: d in t.digests && t.digests[d] == s)
    && (forall d, e :: d in t.digests && e in t.digests && t.digests[d] == t.digests[e] ==> d == e)
  }

  ghost predicate WindowSpans(t: Track, size: nat) {
    && (forall s :: s in t.window ==> s < t.next)
    && (forall s, u :: s in t.window && u in t.window ==> u <= s + size)
  }

  /** Every accepted number is still in the window or below the too-old threshold. */
  ghost predicate Remembers(t: Track, size: nat, accepted: seq<nat>) {
    && (forall s :: s in accepted ==> s in t.window || s < Threshold(t.next, size))
    && (forall s :: s in t.window ==> s in accepted)
  }

  lemma RecordKeepsBijection(t: Track, seqNum: nat, digest: Digest)
    requires Bijection(t) && digest !in t.digests && seqNum !in t.window
    ensures Bijection(Record(t, seqNum, digest))
  {
    var r := Record(t, seqNum, digest);
    forall s | s in r.window
      ensures exists d :: d in r.digests && r.digests[d] == s
    {
      if s == seqNum {
        assert r.digests[digest] == s;
      } else {
        var d :| d in t.digests && t.digests[d] == s;
        assert r.digests[d] == s;
      }
    }
  }

  lemma EvictKeepsBijection(t: Track, size: nat)
    requires Bijection(t)
    ensures Bijection(Evict(t, size))
  {
    var r := Evict(t, size);
    forall s | s in r.window
      ensures exists d :: d in r.digests && r.digests[d] == s
    {
      var d :| d in t.digests && t.digests[d] == s;
      assert r.digests[d] == s;
    }
  }

  lemma ApplyKeepsBijection(t: Track, size: nat, op: Op)
    requires Bijection(t)
    ensures Bijection(Apply(t, size, op))
  {
    if op.Explicit? && Judge(t, size, op.seqNum, op.digest) == Accepted {
      var r := Record(t, op.seqNum, op.digest);
      RecordKeepsBijection(t, op.seqNum, op.digest);
      EvictKeepsBijection(r.(next := if op.seqNum >= r.next then (op.seqNum + 1) % U64 else r.next), size);
    } else if op.Auto? && Judge(t, size, t.next, op.digest) == Accepted {
      RecordKeepsBijection(t, t.next, op.digest);
      EvictKeepsBijection(Record(t, t.next, op.digest), size);
    }
  }

  lemma ExplicitKeepsSpan(t: Track, size: nat, seqNum: nat, digest: Digest)
    requires WindowSpans(t, size) && Judge(t, size, seqNum, digest) == Accepted
    requires !Wraps(t, size, Explicit(seqNum, digest))
    ensures WindowSpans(TrackExplicit(t, size, seqNum, digest), size)
    ensures t.next <= TrackExplicit(t, size, seqNum, digest).next
  {
  }

  lemma ExplicitKeepsMemory(t: Track, size: nat, seqNum: nat, digest: Digest, accepted: seq<nat>)
    requires Remembers(t, size, accepted) && Judge(t, size, seqNum, digest) == Accepted
    requires !Wraps(t, size, Explicit(seqNum, digest))
    ensures Remembers(TrackExplicit(t, size, seqNum, digest), size, accepted + [seqNum])
    ensures seqNum !in accepted
  {
  }

  lemma AutoKeepsWindow(t: Track, size: nat, digest: Digest, accepted: seq<nat>)
    requires WindowSpans(t, size) && Remembers(t, size, accepted)
    requires Judge(t, size, t.next, digest) == Accepted && !Wraps(t, size, Auto(digest))
    ensures var t' := TrackAuto(t, size, digest);
            WindowSpans(t', size) && Remembers(t', size, accepted + [t.next]) && t'.next == t.next + 1
    ensures t.next !in accepted
  {
  }

  lemma ApplyKeepsWindow(t: Track, size: nat, op: Op, accepted: seq<nat>)
    requires !Wraps(t, size, op) && WindowSpans(t, size) && Remembers(t, size, accepted)
    ensures var t' := Apply(t, size, op);
            && WindowSpans(t', size) && Remembers(t', size, accepted + Accepts(t, size, op))
            && t.next <= t'.next && Threshold(t.next, size) <= Threshold(t'.next, size)
    ensures forall n :: n in Accepts(t, size, op) ==> n !in accepted
  {
    assert accepted + [] == accepted;
    if op.Explicit? && Judge(t, size, op.seqNum, op.digest) == Accepted {
      ExplicitKeepsSpan(t, size, op.seqNum, op.digest);
      ExplicitKeepsMemory(t, size, op.seqNum, op.digest, accepted);
    } else if op.Auto? && Judge(t, size, t.next, op.digest) == Accepted {
      AutoKeepsWindow(t, size, op.digest, accepted);
    }
  }

  ghost predicate Distinct(s: seq<nat>) {
    forall i, j :: 0 <= i < j < |s| ==> s[i] != s[j]
  }

  lemma CallKeepsAll(t: Track, size: nat, op: Op, accepted: seq<nat>)
    requires !Wraps(t, size, op) && WindowSpans(t, size) && Bijection(t)
    requires Remembers(t, size, accepted) && Distinct(accepted)
    ensures var t', accepted' := Apply(t, size, op), accepted + Accepts(t, size, op);
            WindowSpans(t', size) && Bijection(t') && Remembers(t', size, accepted') && Distinct(accepted')
  {
    ApplyKeepsWindow(t, size, op, accepted);
    ApplyKeepsBijection(t, size, op);
  }

  lemma PrefixNoWrap(t: Track, size: nat, ops: seq<Op>, k: nat)
    requires NoWrap(t, size, ops) && k <= |ops|
    ensures NoWrap(t, size, ops[..k])
  {
    forall j | 0 <= j < k
      ensures !Wraps(After(t, size, ops[..k][..j]), size, ops[..k][j])
    {
      assert ops[..k][..j] == ops[..j];
    }
  }

  /** Any mix of the three entry points, from a fresh or reset state and until the counter wraps: no
      sequence number is accepted twice, every accepted one is in the window or below the threshold,
      all window entries are below the expected number, and the digest map is a bijection onto the
      window. */
  lemma {:induction false} NoSequenceAcceptedTwice(t: Track, size: nat, ops: seq<Op>)
    requires t == Fresh(t.replays, t.outOfOrder) && NoWrap(t, size, ops)
    ensures Distinct(AcceptedIn(t, size, ops))
    ensures Remembers(After(t, size, ops), size, AcceptedIn(t, size, ops))
    ensures WindowSpans(After(t, size, ops), size) && Bijection(After(t, size, ops))
  {
    if ops != [] {
      var before, op := ops[..|ops| - 1], ops[|ops| - 1];
      PrefixNoWrap(t, size, ops, |ops| - 1);
      NoSequenceAcceptedTwice(t, size, before);
      var u, accepted := After(t, size, before), AcceptedIn(t, size, before);
      assert !Wraps(u, size, op);
      CallKeepsAll(u, size, op, accepted);
      assert After(t, size, ops) == Apply(u, size, op);
      assert AcceptedIn(t, size, ops) == accepted + Accepts(u, size, op);
    }
  }

  /** The too-old threshold never moves back between resets. */
  lemma {:induction false} ThresholdOnlyAdvances(t: Track, size: nat, ops: seq<Op>, k: nat)
    requires t == Fresh(t.replays, t.outOfOrder) && NoWrap(t, size, ops) && k <= |ops|
    ensures Threshold(After(t, size, ops[..k]).next, size) <= Threshold(After(t, size, ops).next, size)
    decreases |ops| - k
  {
    if k == |ops| {
      assert ops[..k] == ops;
    } else {
      var upTo := ops[..k + 1];
      assert upTo[..k] == ops[..k];
      PrefixNoWrap(t, size, ops, k);
      NoSequenceAcceptedTwice(t, size, ops[..k]);
      ApplyKeepsWindow(After(t, size, ops[..k]), size, ops[k], AcceptedIn(t, size, ops[..k]));
      ThresholdOnlyAdvances(t, size, ops, k + 1);
    }
  }

  // ----- which numbers are accepted -----------------------------------------------------------

  /** As long as the sums stay below 2^64: a number is accepted exactly when it and its digest have not
      been seen and it lies between the counter less the window size and the counter plus twice the
      window size, both included; and the checks are made in the order of the source. */
  lemma ExplicitVerdict(t: Track, size: nat, n: nat, d: Digest)
    requires t.next + 2 * size < U64
    ensures var verdict := Judge(t, size, n, d);
            && (verdict == Accepted <==>
                  d !in t.digests && n !in t.window && t.next <= n + size && n <= t.next + 2 * size)
            && (verdict == DuplicateDigest <==> d in t.digests)
            && (verdict == DuplicateSequence <==> d !in t.digests && n in t.window)
            && (verdict == TooOld <==> d !in t.digests && n !in t.window && n + size < t.next)
            && (verdict == TooFarAhead <==> d !in t.digests && n !in t.window && n > t.next + 2 * size)
  {
  }

  /** In every run that does not wrap the counter an accepted number moves it past itself, and the window
      holds the numbers seen that are not too old for it. */
  lemma AcceptedMovesOn(t: Track, size: nat, n: nat, d: Digest)
    requires Judge(t, size, n, d) == Accepted && n + 1 < U64
    ensures var v := TrackExplicit(t, size, n, d);
            && v.next == (if n < t.next then t.next else n + 1)
            && (forall s :: s in v.window <==> (s in t.window || s == n) && v.next <= s + size)
            && (n in v.window ==> d in v.digests && v.digests[d] == n)
            && v.replays == t.replays && v.outOfOrder == t.outOfOrder + if n < t.next then 1 else 0
  {
  }

  /** An automatic call is given the counter; the window is cleaned before the counter moves. */
  lemma AcceptedAutoMovesOn(t: Track, size: nat, d: Digest)
    requires Judge(t, size, t.next, d) == Accepted && t.next + 1 < U64
    ensures var v := TrackAuto(t, size, d);
            && v.next == t.next + 1
            && (forall s :: s in v.window <==> (s in t.window || s == t.next) && t.next <= s + size)
            && d in v.digests && v.digests[d] == t.next
            && v.replays == t.replays && v.outOfOrder == t.outOfOrder
  {
  }

  /** Calls with a cell. */
  function Cells(ops: seq<Op>): nat {
    if ops == [] then 0 else Cells(ops[..|ops| - 1]) + if ops[|ops| - 1] == Next then 0 else 1
  }

  /** A cell is accepted or counted as a replay, and a refused one changes nothing else. */
  lemma CellIsCounted(t: Track, size: nat, op: Op)
    ensures |Accepts(t, size, op)| + Apply(t, size, op).replays == t.replays + if op == Next then 0 else 1
    ensures op != Next && Accepts(t, size, op) == [] ==> Apply(t, size, op) == t.(replays := t.replays + 1)
  {
  }

  /** Over every run the cells accepted and the replays counted are all the cells. */
  lemma {:induction false} EveryCellIsCounted(t: Track, size: nat, ops: seq<Op>)
    ensures |AcceptedIn(t, size, ops)| + After(t, size, ops).replays == t.replays + Cells(ops)
  {
    hide Apply, Accepts;
    if ops != [] {
      var before := ops[..|ops| - 1];
      EveryCellIsCounted(t, size, before);
      CellIsCounted(After(t, size, before), size, ops[|ops| - 1]);
    }
  }

  // ----- when the counter wraps ---------------------------------------------------------------

  /** The counter is taken n times. */
  function Skips(n: nat): (r: seq<Op>)
    ensures |r| == n
  {
    seq(n, i => Next)
  }

  /** From state u the run ops is in state v, having accepted these numbers. */
  ghost predicate Reaches(u: Track, size: nat, ops: seq<Op>, v: Track, accepted: seq<nat>) {
    After(u, size, ops) == v && AcceptedIn(u, size, ops) == accepted
  }

  lemma OneMoreCall(u: Track, size: nat, ops: seq<Op>, v: Track, accepted: seq<nat>, op: Op, accepted': seq<nat>)
    requires Reaches(u, size, ops, v, accepted) && accepted' == accepted + Accepts(v, size, op)
    ensures Reaches(u, size, ops + [op], Apply(v, size, op), accepted')
  {
    assert (ops + [op])[..|ops|] == ops;
  }

  lemma SkipsAppend(ops: seq<Op>, n: nat)
    requires n > 0
    ensures ops + Skips(n) == (ops + Skips(n - 1)) + [Next]
    ensures ops + Skips(0) == ops
  {
  }

  lemma OneMoreSkip(u: Track, size: nat, prev: seq<Op>, v: Track, accepted: seq<nat>, v': Track, all: seq<Op>)
    requires Reaches(u, size, prev, v, accepted) && v' == TakeSequence(v) && all == prev + [Next]
    ensures Reaches(u, size, all, v', accepted)
  {
    assert Accepts(v, size, Next) == [] && accepted + [] == accepted;
    OneMoreCall(u, size, prev, v, accepted, Next, accepted);
  }

  lemma CounterTaken(v: Track, n: nat, v': Track)
    requires 0 < n && v.next + n <= U64
    requires v' == v.(next := if v.next + n == U64 then 0 else v.next + n)
    ensures v' == TakeSequence(v.(next := v.next + (n - 1)))
  {
  }

  lemma {:induction false} SkipsMoveCounter(
      u: Track, size: nat, ops: seq<Op>, v: Track, accepted: seq<nat>, n: nat, v': Track, all: seq<Op>)
    requires Reaches(u, size, ops, v, accepted) && v.next + n <= U64 && v.next < U64
    requires v' == v.(next := if v.next + n == U64 then 0 else v.next + n)
    requires all == ops + Skips(n)
    ensures Reaches(u, size, all, v', accepted)
  {
    if n == 0 {
      assert all == ops;
    } else {
      var before, prev := v.(next := v.next + (n - 1)), ops + Skips(n - 1);
      SkipsMoveCounter(u, size, ops, v, accepted, n - 1, before, prev);
      SkipsAppend(ops, n);
      CounterTaken(v, n, v');
      OneMoreSkip(u, size, prev, before, accepted, v', all);
    }
  }

  lemma FirstCellTracked(size: nat, d: Digest)
    ensures var t := TrackExplicit(Fresh(0, 0), size, 0, d);
            t.next == 1 && t.window <= {0} && t.digests.Keys <= {d}
            && forall x :: x in t.digests ==> t.digests[x] == 0
    ensures Accepts(Fresh(0, 0), size, Explicit(0, d)) == [0]
  {
  }

  lemma NextCellEvictsFirst(t: Track, size: nat, d: Digest, e: Digest)
    requires t.next == size + 1 && t.window <= {0} && t.digests.Keys <= {d} && 3 * size + 2 < U64 && d != e
    requires forall x :: x in t.digests ==> t.digests[x] == 0
    ensures Accepts(t, size, Explicit(size + 1, e)) == [size + 1]
    ensures var v := TrackExplicit(t, size, size + 1, e); v.next == size + 2 && 0 !in v.window && d !in v.digests
  {
  }

  /** Once the counter has gone round, a cell that left the window is accepted again, with the same
      sequence number and the same digest. */
  lemma WrappedCounterAcceptsAgain(size: nat, d: Digest, e: Digest)
    requires 3 * size + 2 < U64 && d != e
    ensures AcceptedIn(Fresh(0, 0), size,
              [Explicit(0, d)] + Skips(size) + [Explicit(size + 1, e)] + Skips(U64 - size - 2) + [Explicit(0, d)])
         == [0, size + 1, 0]
  {
    var t, r1 := Fresh(0, 0), [Explicit(0, d)];
    var t1 := TrackExplicit(t, size, 0, d);
    FirstCellTracked(size, d);
    assert Reaches(t, size, r1, t1, [0]) by {
      assert [] + r1 == r1;
      OneMoreCall(t, size, [], t, [], Explicit(0, d), [0]);
    }
    var t2, r2 := t1.(next := size + 1), r1 + Skips(size);
    SkipsMoveCounter(t, size, r1, t1, [0], size, t2, r2);
    NextCellEvictsFirst(t2, size, d, e);
    var t3, r3 := TrackExplicit(t2, size, size + 1, e), r2 + [Explicit(size + 1, e)];
    OneMoreCall(t, size, r2, t2, [0], Explicit(size + 1, e), [0, size + 1]);
    var t4, r4 := t3.(next := 0), r3 + Skips(U64 - size - 2);
    SkipsMoveCounter(t, size, r3, t3, [0, size + 1], U64 - size - 2, t4, r4);
    assert Accepts(t4, size, Explicit(0, d)) == [0];
    OneMoreCall(t, size, r4, t4, [0, size + 1], Explicit(0, d), [0, size + 1, 0]);
  }

  // ----- size of the state --------------------------------------------------------------------

  lemma {:induction false} IntervalSize(s: set<nat>, lo: nat, n: nat)
    requires forall x :: x in s ==> lo <= x < lo + n
    ensures |s| <= n
  {
    if n == 0 {
      assert s == {};
    } else {
      IntervalSize(s - {lo + n - 1}, lo, n - 1);
    }
  }

  lemma {:induction false} Least(s: set<nat>) returns (lo: nat)
    requires s != {}
    ensures lo in s && forall x :: x in s ==> lo <= x
  {
    var x :| x in s;
    if s == {x} {
      return x;
    }
    var m := Least(s - {x});
    lo := if m < x then m else x;
    assert forall y :: y in s ==> y == x || y in s - {x};
  }

  lemma {:induction false} BijectionSize(m: map<Digest, nat>, s: set<nat>)
    requires Bijection(Track(0, s, m, 0, 0))
    ensures |m| == |s|
  {
    if m == map[] {
      assert s == {};
    } else {
      var d :| d in m;
      var m', s' := m - {d}, s - {m[d]};
      forall x | x in s'
        ensures exists e :: e in m' && m'[e] == x
      {
        var e :| e in m && m[e] == x;
        assert m'[e] == x;
      }
      BijectionSize(m', s');
      assert |m'| == |m| - 1;
    }
  }

  /** Window and digest map have the same size, at most one more than the window size, and at most
      the window size right after an accepting `ValidateAndTrack`. */
  lemma StateStaysSmall(t: Track, size: nat, ops: seq<Op>)
    requires t == Fresh(t.replays, t.outOfOrder) && NoWrap(t, size, ops)
    ensures var u := After(t, size, ops);
            && |u.digests| == |u.window| <= size + 1
            && (ops != [] && ops[|ops| - 1].Explicit?
                && Accepts(After(t, size, ops[..|ops| - 1]), size, ops[|ops| - 1]) != []
                ==> |u.window| <= size)
  {
    NoSequenceAcceptedTwice(t, size, ops);
    var u := After(t, size, ops);
    BijectionSize(u.digests, u.window);
    if u.window != {} {
      var lo := Least(u.window);
      IntervalSize(u.window, lo, size + 1);
    }
    if ops != [] && ops[|ops| - 1].Explicit?
       && Accepts(After(t, size, ops[..|ops| - 1]), size, ops[|ops| - 1]) != [] {
      IntervalSize(u.window, Threshold(u.next, size), size);
    }
  }

  // ----- the automatic entry point alone ------------------------------------------------------

  /** The last n elements. */
  function Recent(s: seq<Digest>, n: nat): seq<Digest> {
    if |s| <= n then s else s[|s| - n..]
  }

  /** The counter plus twice the window size stays below 2^64; beyond that the sum of the
      too-far-ahead check wraps and refuses every fresh digest. */
  predicate HasRoom(next: nat, size: nat) {
    next + size * 2 % U64 < U64
  }

  /** What a call does when these digests have been kept. */
  function Decision(kept: seq<Digest>, size: nat, d: Digest): Verdict {
    if d in Recent(kept, size + 1) then DuplicateDigest
    else if HasRoom(|kept|, size) then Accepted
    else TooFarAhead
  }

  /** The simple specification: keep the digests that are not among the last size + 1 kept, as long
      as there is room. */
  function Kept(kept: seq<Digest>, size: nat, arriving: seq<Digest>): seq<Digest>
    decreases |arriving|
  {
    if arriving == [] then kept
    else
      var d := arriving[0];
      Kept(if Decision(kept, size, d) == Accepted then kept + [d] else kept, size, arriving[1..])
  }

  function RunAuto(t: Track, size: nat, arriving: seq<Digest>): Track
    decreases |arriving|
  {
    if arriving == [] then t else RunAuto(TrackAuto(t, size, arriving[0]), size, arriving[1..])
  }

  /** The tracker holds exactly the last size + 1 kept digests, under their positions. */
  ghost predicate Holds(t: Track, size: nat, kept: seq<Digest>) {
    var lo := Threshold(|kept|, size + 1);
    && t.next == |kept|
    && (forall i :: i in t.window <==> lo <= i < |kept|)
    && (forall i :: lo <= i < |kept| ==> kept[i] in t.digests && t.digests[kept[i]] == i)
    && (forall d :: d in t.digests ==> lo <= t.digests[d] < |kept| && kept[t.digests[d]] == d)
  }

  lemma RecentAreHeld(t: Track, size: nat, kept: seq<Digest>, d: Digest)
    requires Holds(t, size, kept)
    ensures d in t.digests <==> d in Recent(kept, size + 1)
  {
  }

  /** One call decides exactly as the specification: the only sequence check that can fire is the
      wrapped too-far-ahead sum. */
  lemma AutoDecides(t: Track, size: nat, kept: seq<Digest>, d: Digest)
    requires Holds(t, size, kept) && |kept| < U64
    ensures Judge(t, size, t.next, d) == Decision(kept, size, d)
  {
    RecentAreHeld(t, size, kept, d);
  }

  lemma AutoAppends(t: Track, size: nat, kept: seq<Digest>, d: Digest)
    requires Holds(t, size, kept) && |kept| + 1 < U64 && Judge(t, size, t.next, d) == Accepted
    ensures Holds(TrackAuto(t, size, d), size, kept + [d])
    ensures TrackAuto(t, size, d).replays == t.replays
  {
    var kept' := kept + [d];
    assert kept'[|kept|] == d && forall i :: 0 <= i < |kept| ==> kept'[i] == kept[i];
  }

  /** No call of the run takes the counter past its limit: with a window size whose double is not a
      multiple of 2^64 the too-far-ahead check stops it before. */
  predicate CounterLasts(count: nat, size: nat, calls: nat) {
    count < U64 && (size * 2 % U64 == 0 ==> count + calls < U64)
  }

  lemma AutoStep(t: Track, size: nat, kept: seq<Digest>, d: Digest, calls: nat)
    requires Holds(t, size, kept) && calls > 0 && CounterLasts(|kept|, size, calls)
    ensures var kept' := if Decision(kept, size, d) == Accepted then kept + [d] else kept;
            && Holds(TrackAuto(t, size, d), size, kept') && CounterLasts(|kept'|, size, calls - 1)
            && TrackAuto(t, size, d).replays == t.replays + 1 - (|kept'| - |kept|)
  {
    AutoDecides(t, size, kept, d);
    if Decision(kept, size, d) == Accepted {
      AutoAppends(t, size, kept, d);
    }
  }

  /** Refinement: from a fresh or reset state, `ValidateAndTrackAuto` alone keeps exactly what the
      specification keeps; the counter is the number accepted and every other call is a replay. */
  lemma {:induction false} AutoRefinesRecentDigests(t: Track, size: nat, kept: seq<Digest>, arriving: seq<Digest>)
    requires Holds(t, size, kept) && CounterLasts(|kept|, size, |arriving|)
    ensures var u := RunAuto(t, size, arriving); var all := Kept(kept, size, arriving);
            && Holds(u, size, all) && u.next == |all| < U64
            && |kept| <= |all| <= |kept| + |arriving|
            && u.replays == t.replays + |arriving| - (|all| - |kept|)
    decreases |arriving|
  {
    if arriving != [] {
      var d := arriving[0];
      AutoStep(t, size, kept, d, |arriving|);
      AutoRefinesRecentDigests(TrackAuto(t, size, d), size,
                               if Decision(kept, size, d) == Accepted then kept + [d] else kept, arriving[1..]);
    }
  }

  /** From a fresh or reset state, call k of a run of automatic calls is a duplicate digest exactly
      when its digest is among the last size + 1 accepted ones, and is otherwise accepted as long as
      there is room. */
  lemma AutoAcceptsUnlessRecent(t: Track, size: nat, arriving: seq<Digest>, k: nat)
    requires t == Fresh(t.replays, t.outOfOrder) && k < |arriving| && CounterLasts(0, size, |arriving|)
    ensures var u := RunAuto(t, size, arriving[..k]); var kept := Kept([], size, arriving[..k]);
            && u.next == |kept| <= k
            && Judge(u, size, u.next, arriving[k]) == Decision(kept, size, arriving[k])
  {
    assert Holds(t, size, []);
    AutoRefinesRecentDigests(t, size, [], arriving[..k]);
    AutoDecides(RunAuto(t, size, arriving[..k]), size, Kept([], size, arriving[..k]), arriving[k]);
  }

  /** The room matters: with the window size 2^63 - 1 the third different cell is refused. */
  lemma HugeWindowRefusesThird(a: Digest, b: Digest, c: Digest)
    requires a != b && a != c && b != c
    ensures Kept([], U64 / 2 - 1, [a, b, c]) == [a, b]
  {
    var size := U64 / 2 - 1;
    assert [] + [a] == [a] && [a] + [b] == [a, b];
    assert Kept([a, b], size, [c]) == [a, b] by {
      assert [c][1..] == [] && !HasRoom(2, size);
      assert Decision([a, b], size, c) != Accepted;
    }
    assert Kept([a], size, [b, c]) == [a, b] by {
      assert [b, c][1..] == [c] && HasRoom(1, size);
    }
    assert [a, b, c][1..] == [b, c] && HasRoom(0, size);
  }

  // ----- the tracker object -------------------------------------------------------------------

  datatype Direction = Forward | Backward

  /** The fields of one direction. */
  class Tracker {
    var next: nat
    var window: set<nat>
    var digests: map<Digest, nat>
    var replays: nat
    var outOfOrder: nat

    ghost function View(): Track
      reads this
    {
      Track(next, window, digests, replays, outOfOrder)
    }

    constructor ()
      ensures View() == Fresh(0, 0)
    {
      next, window, digests, replays, outOfOrder := 0, {}, map[], 0, 0;
    }

    method ValidateSequence(seqNum: nat, size: nat) returns (verdict: Verdict)
      ensures verdict == CheckSequence(View(), size, seqNum)
    {
      if seqNum in window {
        return DuplicateSequence;
      }
      if next > size && seqNum < next - size {
        return TooOld;
      }
      var maxAhead := size * 2 % U64;
      if seqNum > (next + maxAhead) % U64 {
        return TooFarAhead;
      }
      return Accepted;
    }

    method CleanupWindow(size: nat)
      modifies this
      ensures View() == Evict(old(View()), size)
    {
      var least := 0;
      if next > size {
        least := next - size;
      }
      var numbers := window;
      while numbers != {}
        invariant numbers <= old(window)
        invariant window == set s | s in old(window) && (s in numbers || s >= least)
        invariant unchanged(`next, `digests, `replays, `outOfOrder)
        decreases numbers
      {
        var s :| s in numbers;
        numbers := numbers - {s};
        if s < least {
          window := window - {s};
        }
      }
      var keys := digests.Keys;
      while keys != {}
        invariant keys <= old(digests).Keys
        invariant digests == map d | d in old(digests) && (d in keys || old(digests)[d] >= least) :: old(digests)[d]
        invariant unchanged(`next, `replays, `outOfOrder)
        invariant window == set s | s in old(window) && s >= least
        decreases keys
      {
        var d :| d in keys;
        keys := keys - {d};
        if digests[d] < least {
          digests := digests - {d};
        }
      }
    }

    /** The shared part of the four validate functions: judge and, if accepted, record. */
    method JudgeAndRecord(seqNum: nat, digest: Digest, size: nat) returns (verdict: Verdict)
      modifies this
      ensures verdict == Judge(old(View()), size, seqNum, digest)
      ensures View() == if verdict == Accepted then Record(old(View()), seqNum, digest)
                        else old(View()).(replays := old(replays) + 1)
    {
      if digest in digests {
        replays := replays + 1;
        return DuplicateDigest;
      }
      verdict := ValidateSequence(seqNum, size);
      if verdict != Accepted {
        replays := replays + 1;
        return;
      }
      window := window + {seqNum};
      digests := digests[digest := seqNum];
      if seqNum < next {
        outOfOrder := outOfOrder + 1;
      }
    }

    method Validate(seqNum: nat, digest: Digest, size: nat) returns (verdict: Verdict)
      modifies this
      ensures verdict == Judge(old(View()), size, seqNum, digest)
      ensures View() == TrackExplicit(old(View()), size, seqNum, digest)
    {
      verdict := JudgeAndRecord(seqNum, digest, size);
      if verdict == Accepted {
        if seqNum >= next {
          next := (seqNum + 1) % U64;
        }
        CleanupWindow(size);
      }
    }

    method ValidateAuto(digest: Digest, size: nat) returns (verdict: Verdict)
      modifies this
      ensures verdict == Judge(old(View()), size, old(next), digest)
      ensures View() == TrackAuto(old(View()), size, digest)
    {
      verdict := JudgeAndRecord(next, digest, size);
      if verdict == Accepted {
        CleanupWindow(size);
        next := (next + 1) % U64;
      }
    }
  }

  class ReplayProtection {
    const windowSize: nat
    const digestOf: seq<byte> -> Digest
    const forward: Tracker
    const backward: Tracker

    ghost predicate Valid() {
      forward != backward
    }

    constructor (windowSize: nat, digestOf: seq<byte> -> Digest)
      ensures Valid() && this.windowSize == windowSize && this.digestOf == digestOf
      ensures fresh(forward) && fresh(backward)
      ensures forward.View() == Fresh(0, 0) && backward.View() == Fresh(0, 0)
    {
      this.windowSize, this.digestOf := windowSize, digestOf;
      forward := new Tracker();
      backward := new Tracker();
    }

    function Of(direction: Direction): Tracker {
      if direction == Forward then forward else backward
    }

    function Other(direction: Direction): Tracker {
      if direction == Forward then backward else forward
    }

    method ValidateAndTrack(direction: Direction, seqNum: nat, cellData: seq<byte>) returns (verdict: Verdict)
      requires Valid()
      modifies Of(direction)
      ensures unchanged(Other(direction))
      ensures cellData == [] ==> verdict == EmptyCell && unchanged(Of(direction))
      ensures cellData != [] ==>
                && verdict == Judge(old(Of(direction).View()), windowSize, seqNum, digestOf(cellData))
                && Of(direction).View()
                   == TrackExplicit(old(Of(direction).View()), windowSize, seqNum, digestOf(cellData))
    {
      if |cellData| == 0 {
        return EmptyCell;
      }
      verdict := Of(direction).Validate(seqNum, digestOf(cellData), windowSize);
    }

    method ValidateAndTrackAuto(direction: Direction, cellData: seq<byte>) returns (verdict: Verdict)
      requires Valid()
      modifies Of(direction)
      ensures unchanged(Other(direction))
      ensures cellData == [] ==> verdict == EmptyCell && unchanged(Of(direction))
      ensures cellData != [] ==>
                && verdict == Judge(old(Of(direction).View()), windowSize, old(Of(direction).next), digestOf(cellData))
                && Of(direction).View() == TrackAuto(old(Of(direction).View()), windowSize, digestOf(cellData))
    {
      if |cellData| == 0 {
        return EmptyCell;
      }
      verdict := Of(direction).ValidateAuto(digestOf(cellData), windowSize);
    }

    method GetNextSequence(direction: Direction) returns (n: nat)
      requires Valid()
      modifies Of(direction)
      ensures unchanged(Other(direction))
      ensures n == old(Of(direction).next)
      ensures Of(direction).View() == TakeSequence(old(Of(direction).View()))
    {
      var t := Of(direction);
      n := t.next;
      t.next := (t.next + 1) % U64;
    }

    method Reset()
      modifies forward, backward
      ensures forward.View() == Fresh(old(forward.replays), old(forward.outOfOrder))
      ensures backward.View() == Fresh(old(backward.replays), old(backward.outOfOrder))
      ensures forward.next == 0 && forward.window == {} && forward.digests == map[]
      ensures backward.next == 0 && backward.window == {} && backward.digests == map[]
      ensures forward.replays == old(forward.replays) && forward.outOfOrder == old(forward.outOfOrder)
      ensures backward.replays == old(backward.replays) && backward.outOfOrder == old(backward.outOfOrder)
    {
      forward.next, forward.window, forward.digests := 0, {}, map[];
      backward.next, backward.window, backward.digests := 0, {}, map[];
    }
  }
}
