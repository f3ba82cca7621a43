/** Ordered queues of cells in front of the stages of a path, and the cells that have left it. */
module OnionQueues {
  import opened Bytes

  /** The queues after a cell joins the first. */
  function Joined(queues: seq<seq<seq<byte>>>, wire: seq<byte>): seq<seq<seq<byte>>>
    requires queues != []
  {
    queues[0 := queues[0] + [wire]]
  }

  /** The queues after stage i puts the result y of its next cell into the next queue. */
  function Moved(queues: seq<seq<seq<byte>>>, i: nat, y: seq<byte>): seq<seq<seq<byte>>>
    requires i + 1 < |queues| && queues[i] != []
  {
    queues[i := queues[i][1..]][i + 1 := queues[i + 1] + [y]]
  }

  /** How many cells are in the queues from number i on. */
  function Past(queues: seq<seq<seq<byte>>>, i: nat): nat
    decreases |queues| - i
  {
    if i >= |queues| then 0 else |queues[i]| + Past(queues, i + 1)
  }

  function QueueBytes(queue: seq<seq<byte>>): nat {
    if queue == [] then 0 else |queue[0]| + QueueBytes(queue[1..])
  }

  /** The bytes still in front of stage i. */
  function WaitingBytes(queues: seq<seq<seq<byte>>>, i: nat): nat
    requires i < |queues|
  {
    QueueBytes(queues[i]) + if i == 0 then 0 else WaitingBytes(queues, i - 1)
  }

  lemma {:induction false} QueueBytesAppends(queue: seq<seq<byte>>, x: seq<byte>)
    ensures QueueBytes(queue + [x]) == QueueBytes(queue) + |x|
  {
    if queue == [] {
      assert (queue + [x])[1..] == [];
    } else {
      assert (queue + [x])[1..] == queue[1..] + [x];
      QueueBytesAppends(queue[1..], x);
    }
  }

  lemma {:induction false} PastUpdated(queues: seq<seq<seq<byte>>>, i: nat, queue: seq<seq<byte>>, l: nat)
    requires i < |queues|
    ensures Past(queues[i := queue], l) == Past(queues, l) + if l <= i then |queue| - |queues[i]| else 0
    decreases |queues| - l
  {
    if l < |queues| {
      PastUpdated(queues, i, queue, l + 1);
    }
  }

  lemma {:induction false} NothingPast(queues: seq<seq<seq<byte>>>, l: nat)
    requires forall i :: 0 <= i < |queues| ==> queues[i] == []
    ensures Past(queues, l) == 0
    decreases |queues| - l
  {
    if l < |queues| {
      NothingPast(queues, l + 1);
    }
  }

  /** Place q of queue i, if taken, holds f(m, i) for the cell number m it should hold. */
  predicate Holds(f: (nat, nat) -> seq<byte>, queues: seq<seq<seq<byte>>>, i: nat, q: nat) {
    i < |queues| && q < |queues[i]| ==> queues[i][q] == f(Past(queues, i + 1) + q, i)
  }

  /** Queue i holds f(m, i) for consecutive cells m, the oldest cells in the last queue. */
  ghost predicate QueuesHold(f: (nat, nat) -> seq<byte>, queues: seq<seq<seq<byte>>>) {
    forall i: nat, q: nat :: Holds(f, queues, i, q)
  }

  lemma QueuesAfterHandOver(f: (nat, nat) -> seq<byte>, queues: seq<seq<seq<byte>>>, wire: seq<byte>)
    requires queues != [] && QueuesHold(f, queues) && wire == f(Past(queues, 0), 0)
    ensures QueuesHold(f, Joined(queues, wire))
    ensures forall l: nat :: Past(Joined(queues, wire), l) == Past(queues, l) + if l == 0 then 1 else 0
  {
    forall l: nat
      ensures Past(Joined(queues, wire), l) == Past(queues, l) + if l == 0 then 1 else 0
    {
      PastUpdated(queues, 0, queues[0] + [wire], l);
    }
    assert Past(queues, 0) == |queues[0]| + Past(queues, 1);
    forall l: nat, q: nat
      ensures Holds(f, Joined(queues, wire), l, q)
    {
      assert Holds(f, queues, l, q);
    }
  }

  lemma PastAfterMove(queues: seq<seq<seq<byte>>>, i: nat, y: seq<byte>, l: nat)
    requires i + 1 < |queues| && queues[i] != []
    ensures Past(Moved(queues, i, y), l) == Past(queues, l) + if l == i + 1 then 1 else 0
  {
    PastUpdated(queues, i, queues[i][1..], l);
    PastUpdated(queues[i := queues[i][1..]], i + 1, queues[i + 1] + [y], l);
  }

  lemma MovedAt(queues: seq<seq<seq<byte>>>, i: nat, y: seq<byte>, l: nat, q: nat)
    requires i + 1 < |queues| && queues[i] != []
    requires l < |queues| && q < |Moved(queues, i, y)[l]|
    ensures l == i ==> q + 1 < |queues[l]| && Moved(queues, i, y)[l][q] == queues[l][q + 1]
    ensures l != i && q < |queues[l]| ==> Moved(queues, i, y)[l][q] == queues[l][q]
    ensures l != i && q >= |queues[l]| ==> l == i + 1 && q == |queues[l]| && Moved(queues, i, y)[l][q] == y
  {
  }

  lemma CellAfterMove(f: (nat, nat) -> seq<byte>, queues: seq<seq<seq<byte>>>, i: nat, y: seq<byte>, l: nat, q: nat)
    requires i + 1 < |queues| && queues[i] != [] && QueuesHold(f, queues)
    requires y == f(Past(queues, i + 1), i + 1)
    requires l < |queues| && q < |Moved(queues, i, y)[l]|
    ensures Moved(queues, i, y)[l][q] == f(Past(Moved(queues, i, y), l + 1) + q, l)
  {
    PastAfterMove(queues, i, y, l + 1);
    MovedAt(queues, i, y, l, q);
    var before, after := Past(queues, l + 1), Past(Moved(queues, i, y), l + 1);
    if l == i {
      assert Holds(f, queues, l, q + 1);
      assert after + q == before + (q + 1);
    } else if q < |queues[l]| {
      assert Holds(f, queues, l, q);
      assert after == before;
    } else {
      assert Past(queues, l) == |queues[l]| + before;
      assert after + q == Past(queues, l);
    }
  }

  lemma QueuesAfterMove(f: (nat, nat) -> seq<byte>, queues: seq<seq<seq<byte>>>, i: nat, y: seq<byte>)
    requires i + 1 < |queues| && queues[i] != [] && QueuesHold(f, queues)
    requires y == f(Past(queues, i + 1), i + 1)
    ensures QueuesHold(f, Moved(queues, i, y))
  {
    forall l: nat, q: nat
      ensures Holds(f, Moved(queues, i, y), l, q)
    {
      if l < |queues| && q < |Moved(queues, i, y)[l]| {
        CellAfterMove(f, queues, i, y, l, q);
      }
    }
  }

  /** What place q of queue i holds, m being the number of its cell. */
  lemma HeldAt(f: (nat, nat) -> seq<byte>, queues: seq<seq<seq<byte>>>, i: nat, q: nat, m: nat)
    requires QueuesHold(f, queues) && i < |queues| && q < |queues[i]| && m == Past(queues, i + 1) + q
    ensures queues[i][q] == f(m, i) && m < Past(queues, i)
  {
    assert Holds(f, queues, i, q);
    assert Past(queues, i) == |queues[i]| + Past(queues, i + 1);
  }

  /** The queues hold the same by a function that agrees on the cells in them. */
  lemma HoldsAsWell(f: (nat, nat) -> seq<byte>, g: (nat, nat) -> seq<byte>, queues: seq<seq<seq<byte>>>, count: nat)
    requires QueuesHold(f, queues) && forall i: nat :: Past(queues, i) <= count
    requires forall m: nat, i: nat :: m < count ==> g(m, i) == f(m, i)
    ensures QueuesHold(g, queues)
  {
    forall i: nat, q: nat
      ensures Holds(g, queues, i, q)
    {
      if i < |queues| && q < |queues[i]| {
        HeldAt(f, queues, i, q, Past(queues, i + 1) + q);
      }
    }
  }
}
