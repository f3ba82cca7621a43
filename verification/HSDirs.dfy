/** Selection of hidden-service directories (pkg/onion/onion.go, pkg/onion/service.go): the three
    relays whose fingerprints are closest, by XOR, to a replica's descriptor ID. */
module HSDirs {
  import opened Bytes

  datatype HSDirectory = HSDirectory(fingerprint: seq<byte>, address: string, orPort: int, dirPort: int)

  function Min(a: int, b: int): int {
    if b < a then b else a
  }

  // ----- distance -----------------------------------------------------------------------------

  function Distance(a: seq<byte>, b: seq<byte>): (d: seq<byte>)
    ensures |d| == Min(|a|, |b|)
  {
    seq(Min(|a|, |b|), i requires 0 <= i < Min(|a|, |b|) => Xor(a[i], b[i]))
  }

  method ComputeXORDistance(a: seq<byte>, b: seq<byte>) returns (distance: seq<byte>)
    ensures distance == Distance(a, b)
    ensures |distance| == Min(|a|, |b|) && forall i :: 0 <= i < |distance| ==> distance[i] == Xor(a[i], b[i])
  {
    var minLen := |a|;
    if |b| < minLen {
      minLen := |b|;
    }
    var buf := new byte[minLen];
    for i := 0 to minLen
      invariant forall j :: 0 <= j < i ==> buf[j] == Xor(a[j], b[j])
    {
      buf[i] := Xor(a[i], b[i]);
    }
    distance := buf[..];
  }

  /** The part of a fingerprint that the distance to an n-byte ID can see. */
  function Visible(fingerprint: seq<byte>, n: nat): seq<byte> {
    fingerprint[..Min(|fingerprint|, n)]
  }

  /** Two fingerprints are equally far from an ID exactly when they agree on the ID's length. */
  lemma EquallyFarIffVisiblyEqual(a: seq<byte>, b: seq<byte>, id: seq<byte>)
    ensures Distance(a, id) == Distance(b, id) <==> Visible(a, |id|) == Visible(b, |id|)
  {
    var da, db, va, vb := Distance(a, id), Distance(b, id), Visible(a, |id|), Visible(b, |id|);
    if |da| == |db| {
      forall i | 0 <= i < |da|
        ensures da[i] == db[i] <==> va[i] == vb[i]
      {
        XorInjective(a[i], b[i], id[i]);
      }
    }
  }

  // ----- order --------------------------------------------------------------------------------

  /** Lexicographic comparison, shorter first. */
  function Compare(a: seq<byte>, b: seq<byte>): (r: int)
    ensures -1 <= r <= 1
  {
    if a == [] then (if b == [] then 0 else -1)
    else if b == [] then 1
    else if a[0] < b[0] then -1
    else if a[0] > b[0] then 1
    else Compare(a[1..], b[1..])
  }

  lemma {:induction false} CompareTotal(a: seq<byte>, b: seq<byte>)
    ensures Compare(a, b) == -Compare(b, a)
    ensures Compare(a, b) == 0 <==> a == b
  {
    if a != [] && b != [] && a[0] == b[0] {
      CompareTotal(a[1..], b[1..]);
      assert a == [a[0]] + a[1..] && b == [b[0]] + b[1..];
    }
  }

  lemma {:induction false} CompareTransitive(a: seq<byte>, b: seq<byte>, c: seq<byte>)
    requires Compare(a, b) <= 0 && Compare(b, c) <= 0
    ensures Compare(a, c) <= 0
  {
    if a != [] && b != [] && c != [] && a[0] == b[0] == c[0] {
      CompareTransitive(a[1..], b[1..], c[1..]);
    }
  }

  /** a is a proper prefix of b, or smaller at the first byte where they differ. */
  ghost predicate Precedes(a: seq<byte>, b: seq<byte>) {
    exists n: nat :: DiffersFirstAt(a, b, n)
  }

  ghost predicate DiffersFirstAt(a: seq<byte>, b: seq<byte>, n: nat) {
    n <= |a| && n < |b| && a[..n] == b[..n] && (n == |a| || a[n] < b[n])
  }

  lemma {:induction false} CompareIsLexicographic(a: seq<byte>, b: seq<byte>)
    ensures Compare(a, b) < 0 <==> Precedes(a, b)
  {
    if b == [] {
      assert !Precedes(a, b);
    } else if a == [] || a[0] != b[0] {
      assert DiffersFirstAt(a, b, 0) <==> (a == [] || a[0] < b[0]);
      assert forall n: nat :: 0 < n && DiffersFirstAt(a, b, n) ==> a[..n][0] == b[..n][0];
    } else {
      CompareIsLexicographic(a[1..], b[1..]);
      forall n: nat | n < |a| && n < |b|
        ensures a[..n + 1] == b[..n + 1] <==> a[1..][..n] == b[1..][..n]
      {
        assert a[..n + 1] == [a[0]] + a[1..][..n] && b[..n + 1] == [b[0]] + b[1..][..n];
      }
      assert forall n: nat :: DiffersFirstAt(a[1..], b[1..], n) <==> DiffersFirstAt(a, b, n + 1);
      if Precedes(a, b) {
        var n: nat :| DiffersFirstAt(a, b, n);
        assert n > 0 && DiffersFirstAt(a[1..], b[1..], n - 1);
      }
    }
  }

  method CompareBytes(a: seq<byte>, b: seq<byte>) returns (r: int)
    ensures r == Compare(a, b)
    ensures -1 <= r <= 1
    ensures r < 0 <==> Precedes(a, b)
    ensures r > 0 <==> Precedes(b, a)
    ensures r == 0 <==> a == b
  {
    CompareTotal(a, b);
    CompareIsLexicographic(a, b);
    CompareIsLexicographic(b, a);
    var minLen := |a|;
    if |b| < minLen {
      minLen := |b|;
    }
    assert a[0..] == a && b[0..] == b;
    for i := 0 to minLen
      invariant Compare(a[i..], b[i..]) == Compare(a, b)
    {
      assert a[i..][1..] == a[i + 1..] && b[i..][1..] == b[i + 1..];
      if a[i] < b[i] {
        return -1;
      }
      if a[i] > b[i] {
        return 1;
      }
    }
    if |a| < |b| {
      return -1;
    }
    if |a| > |b| {
      return 1;
    }
    return 0;
  }

  // ----- distances as numbers -----------------------------------------------------------------

  function Scale(k: nat): (r: nat)
    ensures r >= 1
  {
    if k == 0 then 1 else 256 * Scale(k - 1)
  }

  lemma HighByteDecides(x: nat, y: nat, p: nat, q: nat, scale: nat)
    requires x < y && p < scale
    ensures x * scale + p < y * scale + q
  {
    assert (x + 1) * scale <= y * scale;
  }

  /** The number with these big-endian digits. */
  function Number(b: seq<byte>): (n: nat)
    ensures n < Scale(|b|)
  {
    if b == [] then 0
    else
      HighByteDecides(b[0], 256, Number(b[1..]), 0, Scale(|b| - 1));
      b[0] * Scale(|b| - 1) + Number(b[1..])
  }

  /** The number of b made n bytes long with zeros at the end. */
  function Extended(b: seq<byte>, n: nat): nat
    requires |b| <= n
  {
    Number(b + Zeros(n - |b|))
  }

  lemma {:induction false} NumberOfZeros(n: nat)
    ensures Number(Zeros(n)) == 0
  {
    if n > 0 {
      assert Zeros(n)[1..] == Zeros(n - 1);
      NumberOfZeros(n - 1);
    }
  }

  lemma ExtendedParts(b: seq<byte>, n: nat)
    requires |b| <= n
    ensures b == [] ==> Extended(b, n) == 0
    ensures b != [] ==> Extended(b, n) == b[0] * Scale(n - 1) + Extended(b[1..], n - 1)
    ensures b != [] ==> Extended(b[1..], n - 1) < Scale(n - 1)
  {
    if b == [] {
      assert b + Zeros(n) == Zeros(n);
      NumberOfZeros(n);
    } else {
      assert (b + Zeros(n - |b|))[1..] == b[1..] + Zeros(n - |b|);
    }
  }

  /** Comparing two byte sequences is comparing them as big-endian numbers of a common length, and
      between equal numbers the shorter sequence comes first. */
  lemma {:induction false} CompareAsNumbers(a: seq<byte>, b: seq<byte>, n: nat)
    requires |a| <= n && |b| <= n
    ensures Compare(a, b) < 0 <==>
            Extended(a, n) < Extended(b, n) || (Extended(a, n) == Extended(b, n) && |a| < |b|)
  {
    ExtendedParts(a, n);
    ExtendedParts(b, n);
    if a != [] && b != [] {
      var scale, p, q := Scale(n - 1), Extended(a[1..], n - 1), Extended(b[1..], n - 1);
      if a[0] < b[0] {
        HighByteDecides(a[0], b[0], p, q, scale);
      } else if b[0] < a[0] {
        HighByteDecides(b[0], a[0], q, p, scale);
      } else {
        CompareAsNumbers(a[1..], b[1..], n - 1);
      }
    }
  }

  /** How far a fingerprint is from an ID: their exclusive-or as a number of the ID's length. */
  function Remoteness(fingerprint: seq<byte>, id: seq<byte>): nat {
    Extended(Distance(fingerprint, id), |id|)
  }

  /** x is nearer to the ID than y, or as near; a fingerprint shorter than the ID comes before a longer
      one at the same distance. */
  predicate NoFarther(x: HSDirectory, y: HSDirectory, id: seq<byte>) {
    var p, q := Remoteness(x.fingerprint, id), Remoteness(y.fingerprint, id);
    p < q || (p == q && Min(|x.fingerprint|, |id|) <= Min(|y.fingerprint|, |id|))
  }

  lemma ComparedAsNumbers(x: HSDirectory, y: HSDirectory, id: seq<byte>)
    ensures Compare(Distance(x.fingerprint, id), Distance(y.fingerprint, id)) <= 0 <==> NoFarther(x, y, id)
  {
    CompareAsNumbers(Distance(y.fingerprint, id), Distance(x.fingerprint, id), |id|);
    CompareTotal(Distance(x.fingerprint, id), Distance(y.fingerprint, id));
  }

  // ----- sorting ------------------------------------------------------------------------------

  datatype Entry = Entry(hsdir: HSDirectory, distance: seq<byte>)

  predicate Le(x: Entry, y: Entry) {
    Compare(x.distance, y.distance) <= 0
  }

  ghost predicate Sorted(s: seq<Entry>) {
    forall i, j :: 0 <= i < j < |s| ==> Le(s[i], s[j])
  }

  /** Everything before position i is at most everything from i on. */
  ghost predicate Below(s: seq<Entry>, i: int) {
    forall p, q :: 0 <= p < i <= q < |s| ==> Le(s[p], s[q])
  }

  ghost function Swapped(s: seq<Entry>, i: nat, j: nat): (r: seq<Entry>)
    requires i < j < |s|
    ensures multiset(r) == multiset(s)
  {
    s[i := s[j]][j := s[i]]
  }

  /** One comparison of the sort. */
  method Exchange(a: array<Entry>, i: nat, j: nat)
    requires i < j < a.Length
    modifies a
    ensures a[..] == if Le(old(a[i]), old(a[j])) then old(a[..]) else Swapped(old(a[..]), i, j)
    ensures Le(a[i], a[j]) && Le(a[i], old(a[i]))
  {
    var c := CompareBytes(a[i].distance, a[j].distance);
    CompareTotal(a[i].distance, a[j].distance);
    CompareTotal(a[i].distance, a[i].distance);
    if c > 0 {
      a[i], a[j] := a[j], a[i];
    }
  }

  /** The inner loop: position i receives a least element of the rest. */
  method PullLeast(a: array<Entry>, i: nat)
    requires i < a.Length && Below(a[..], i)
    modifies a
    ensures multiset(a[..]) == old(multiset(a[..]))
    ensures a[..i] == old(a[..i])
    ensures Below(a[..], i) && forall q :: i < q < a.Length ==> Le(a[i], a[q])
    ensures Sorted(old(a[..])) ==> a[..] == old(a[..])
  {
    for j := i + 1 to a.Length
      invariant multiset(a[..]) == old(multiset(a[..]))
      invariant a[..i] == old(a[..i])
      invariant Below(a[..], i)
      invariant forall q :: i < q < j ==> Le(a[i], a[q])
      invariant Sorted(old(a[..])) ==> a[..] == old(a[..])
    {
      ghost var was := a[..];
      Exchange(a, i, j);
      forall q | i < q < j
        ensures Le(a[i], a[q])
      {
        assert a[q] == was[q];
        CompareTransitive(a[i].distance, was[i].distance, was[q].distance);
      }
    }
  }

  method SortByDistance(a: array<Entry>)
    modifies a
    ensures multiset(a[..]) == old(multiset(a[..]))
    ensures Sorted(a[..])
    ensures Sorted(old(a[..])) ==> a[..] == old(a[..])
  {
    var i := 0;
    while i < a.Length - 1
      invariant 0 <= i <= a.Length
      invariant i <= a.Length - 1 || a.Length == 0
      invariant multiset(a[..]) == old(multiset(a[..]))
      invariant Sorted(a[..i]) && Below(a[..], i)
      invariant Sorted(old(a[..])) ==> a[..] == old(a[..])
    {
      ghost var was := a[..];
      PullLeast(a, i);
      assert a[..i] == was[..i];
      assert Sorted(a[..i + 1]) && Below(a[..], i + 1);
      i := i + 1;
    }
  }

  // ----- selection ----------------------------------------------------------------------------

  function Measure(h: HSDirectory, id: seq<byte>): Entry {
    Entry(h, Distance(h.fingerprint, id))
  }

  function Measured(hsdirs: seq<HSDirectory>, id: seq<byte>): (r: seq<Entry>)
    ensures |r| == |hsdirs|
  {
    seq(|hsdirs|, i requires 0 <= i < |hsdirs| => Measure(hsdirs[i], id))
  }

  function Names(s: seq<Entry>): (r: seq<HSDirectory>)
    ensures |r| == |s|
  {
    seq(|s|, i requires 0 <= i < |s| => s[i].hsdir)
  }

  /** `all` lists the relays by distance to the ID. */
  ghost predicate Ordering(hsdirs: seq<HSDirectory>, id: seq<byte>, all: seq<Entry>) {
    multiset(all) == multiset(Measured(hsdirs, id)) && Sorted(all)
  }

  ghost predicate IsFront(all: seq<Entry>, chosen: seq<HSDirectory>) {
    chosen == Names(all)[..Min(3, |all|)]
  }

  /** `chosen` is the front, of length min(3, n), of an ordering of the relays by distance. */
  ghost predicate Closest(hsdirs: seq<HSDirectory>, id: seq<byte>, chosen: seq<HSDirectory>) {
    exists all :: Ordering(hsdirs, id, all) && IsFront(all, chosen)
  }

  method MeasureAll(hsdirs: seq<HSDirectory>, id: seq<byte>) returns (distances: array<Entry>)
    ensures fresh(distances) && distances[..] == Measured(hsdirs, id)
  {
    distances := new Entry[|hsdirs|](i requires 0 <= i < |hsdirs| => Entry(hsdirs[i], []));
    for i := 0 to |hsdirs|
      invariant forall j :: 0 <= j < i ==> distances[j] == Measure(hsdirs[j], id)
    {
      var distance := ComputeXORDistance(hsdirs[i].fingerprint, id);
      distances[i] := Entry(hsdirs[i], distance);
    }
  }

  method FrontNames(distances: array<Entry>, n: nat) returns (selected: seq<HSDirectory>)
    ensures selected == Names(distances[..])[..Min(n, distances.Length)]
  {
    selected := [];
    var i := 0;
    while i < n && i < distances.Length
      invariant 0 <= i <= Min(n, distances.Length)
      invariant selected == Names(distances[..])[..i]
    {
      selected := selected + [distances[i].hsdir];
      i := i + 1;
    }
  }

  ghost predicate WellMeasured(s: seq<Entry>, id: seq<byte>) {
    forall i :: 0 <= i < |s| ==> s[i] == Measure(s[i].hsdir, id)
  }

  lemma {:induction false} CountNames(s: seq<Entry>, id: seq<byte>, h: HSDirectory)
    requires WellMeasured(s, id)
    ensures multiset(Names(s))[h] == multiset(s)[Measure(h, id)]
  {
    if s != [] {
      var s', e := s[1..], s[0];
      CountNames(s', id, h);
      assert s == [e] + s' && Names(s) == [e.hsdir] + Names(s');
    }
  }

  lemma SameRelays(s: seq<Entry>, hsdirs: seq<HSDirectory>, id: seq<byte>)
    requires multiset(s) == multiset(Measured(hsdirs, id))
    ensures WellMeasured(s, id) && multiset(Names(s)) == multiset(hsdirs)
  {
    var m := Measured(hsdirs, id);
    forall i | 0 <= i < |s|
      ensures s[i] == Measure(s[i].hsdir, id)
    {
      assert s[i] in multiset(s);
      assert s[i] in m;
    }
    assert Names(m) == hsdirs;
    forall h
      ensures multiset(Names(s))[h] == multiset(hsdirs)[h]
    {
      CountNames(s, id, h);
      CountNames(m, id, h);
    }
  }

  /** Relays whose measured entries are sorted are in order of distance, the first k among themselves and
      against the rest. */
  lemma NamesSorted(all: seq<Entry>, id: seq<byte>, k: nat)
    requires WellMeasured(all, id) && Sorted(all) && k <= |all|
    ensures forall i, j :: 0 <= i < j < k ==> NoFarther(Names(all)[..k][i], Names(all)[..k][j], id)
    ensures forall i, j :: 0 <= i < k && 0 <= j < |all| - k ==>
              NoFarther(Names(all)[..k][i], Names(all)[k..][j], id)
  {
    forall i, j | 0 <= i < j < |all|
      ensures NoFarther(Names(all)[i], Names(all)[j], id)
    {
      assert all[i] == Measure(all[i].hsdir, id) && all[j] == Measure(all[j].hsdir, id);
      ComparedAsNumbers(all[i].hsdir, all[j].hsdir, id);
      assert Le(all[i], all[j]);
    }
  }

  /** The other relays, none of them nearer than a chosen one. */
  ghost predicate IsRest(hsdirs: seq<HSDirectory>, id: seq<byte>, chosen: seq<HSDirectory>, rest: seq<HSDirectory>) {
    && multiset(hsdirs) == multiset(chosen) + multiset(rest)
    && forall i, j :: 0 <= i < |chosen| && 0 <= j < |rest| ==> NoFarther(chosen[i], rest[j], id)
  }

  /** min(3, n) relays of the input, nearest first, and no other one is nearer. */
  ghost predicate Nearest(hsdirs: seq<HSDirectory>, id: seq<byte>, chosen: seq<HSDirectory>) {
    && |chosen| == Min(3, |hsdirs|)
    && (forall i, j :: 0 <= i < j < |chosen| ==> NoFarther(chosen[i], chosen[j], id))
    && exists rest :: IsRest(hsdirs, id, chosen, rest)
  }

  /** Closeness, in numbers: the front of an ordering consists of the relays whose fingerprints have the
      smallest exclusive-or with the ID. */
  lemma ClosestAreNearest(hsdirs: seq<HSDirectory>, id: seq<byte>, chosen: seq<HSDirectory>)
    requires Closest(hsdirs, id, chosen)
    ensures Nearest(hsdirs, id, chosen)
  {
    var all :| Ordering(hsdirs, id, all) && IsFront(all, chosen);
    SameRelays(all, hsdirs, id);
    assert |multiset(all)| == |all| && |multiset(hsdirs)| == |hsdirs|;
    var k := Min(3, |all|);
    var rest := Names(all)[k..];
    assert Names(all) == chosen + rest;
    NamesSorted(all, id, k);
    assert IsRest(hsdirs, id, chosen, rest);
  }

  /** `idOf` stands for the hash of a descriptor ID and a replica number. */
  method SelectHSDirs(descriptorID: seq<byte>, hsdirs: seq<HSDirectory>, replica: nat,
                      idOf: (seq<byte>, byte) -> seq<byte>) returns (selected: seq<HSDirectory>)
    ensures Closest(hsdirs, idOf(descriptorID, replica % 256), selected)
    ensures Nearest(hsdirs, idOf(descriptorID, replica % 256), selected)
    ensures Sorted(Measured(hsdirs, idOf(descriptorID, replica % 256))) ==> selected == hsdirs[..Min(3, |hsdirs|)]
  {
    var id := idOf(descriptorID, replica % 256);
    if |hsdirs| == 0 {
      assert Ordering(hsdirs, id, []) && IsFront([], []);
      ClosestAreNearest(hsdirs, id, []);
      return [];
    }
    var numHSDirs := 3;
    if |hsdirs| < numHSDirs {
      numHSDirs := |hsdirs|;
    }
    var distances := MeasureAll(hsdirs, id);
    SortByDistance(distances);
    assert Ordering(hsdirs, id, distances[..]);
    selected := FrontNames(distances, numHSDirs);
    assert IsFront(distances[..], selected);
    ClosestAreNearest(hsdirs, id, selected);
    assert Names(Measured(hsdirs, id)) == hsdirs;
  }

  // ----- publishing ---------------------------------------------------------------------------

  function CountAccepted(hsdirs: seq<HSDirectory>, replica: nat, accepts: (HSDirectory, nat) -> bool): nat {
    if hsdirs == [] then 0
    else CountAccepted(hsdirs[..|hsdirs| - 1], replica, accepts)
         + if accepts(hsdirs[|hsdirs| - 1], replica) then 1 else 0
  }

  /** Accepted uploads over the replicas tried so far. */
  function TotalAccepted(tried: seq<seq<HSDirectory>>, accepts: (HSDirectory, nat) -> bool): nat {
    if tried == [] then 0
    else
      var last := |tried| - 1;
      TotalAccepted(tried[..last], accepts) + CountAccepted(tried[last], last, accepts)
  }

  lemma OneMoreReplica(tried: seq<seq<HSDirectory>>, selected: seq<HSDirectory>,
                       accepts: (HSDirectory, nat) -> bool)
    ensures TotalAccepted(tried + [selected], accepts)
         == TotalAccepted(tried, accepts) + CountAccepted(selected, |tried|, accepts)
  {
    assert (tried + [selected])[..|tried|] == tried;
  }

  /** The accepting (replica, place) pairs among those before place m of replica r. */
  function AcceptingBefore(tried: seq<seq<HSDirectory>>, accepts: (HSDirectory, nat) -> bool, r: nat, m: nat)
    : set<(nat, nat)>
  {
    set x: nat, j: nat | x < |tried| && j < |tried[x]| && (x < r || (x == r && j < m)) && accepts(tried[x][j], x)
      :: (x, j)
  }

  /** All of them. */
  function Accepting(tried: seq<seq<HSDirectory>>, accepts: (HSDirectory, nat) -> bool): set<(nat, nat)> {
    set x: nat, j: nat | x < |tried| && j < |tried[x]| && accepts(tried[x][j], x) :: (x, j)
  }

  lemma {:induction false} CountsAccepting(tried: seq<seq<HSDirectory>>, accepts: (HSDirectory, nat) -> bool,
                                           r: nat, m: nat)
    requires r < |tried| && m <= |tried[r]|
    ensures |AcceptingBefore(tried, accepts, r, m)|
         == TotalAccepted(tried[..r], accepts) + CountAccepted(tried[r][..m], r, accepts)
    decreases r, m
  {
    var places := AcceptingBefore(tried, accepts, r, m);
    if m > 0 {
      CountsAccepting(tried, accepts, r, m - 1);
      var before := AcceptingBefore(tried, accepts, r, m - 1);
      assert tried[r][..m][..m - 1] == tried[r][..m - 1];
      assert places == if accepts(tried[r][m - 1], r) then before + {(r, m - 1)} else before;
    } else if r > 0 {
      var n := |tried[r - 1]|;
      CountsAccepting(tried, accepts, r - 1, n);
      assert places == AcceptingBefore(tried, accepts, r - 1, n);
      assert tried[..r][..r - 1] == tried[..r - 1] && tried[r - 1][..n] == tried[r - 1];
    } else {
      assert places == {};
    }
  }

  /** The count is the number of accepting pairs. */
  lemma TotalIsNumberOfAccepting(tried: seq<seq<HSDirectory>>, accepts: (HSDirectory, nat) -> bool)
    ensures TotalAccepted(tried, accepts) == |Accepting(tried, accepts)|
  {
    if tried == [] {
      assert Accepting(tried, accepts) == {};
    } else {
      var last := |tried| - 1;
      CountsAccepting(tried, accepts, last, |tried[last]|);
      assert tried[last][..|tried[last]|] == tried[last];
      assert Accepting(tried, accepts) == AcceptingBefore(tried, accepts, last, |tried[last]|);
    }
  }

  method UploadAll(selected: seq<HSDirectory>, replica: nat, accepts: (HSDirectory, nat) -> bool)
      returns (accepted: nat)
    ensures accepted == CountAccepted(selected, replica, accepts)
  {
    accepted := 0;
    for i := 0 to |selected|
      invariant accepted == CountAccepted(selected[..i], replica, accepts)
    {
      assert selected[..i + 1][..i] == selected[..i];
      if accepts(selected[i], replica) {
        accepted := accepted + 1;
      }
    }
    assert selected[..|selected|] == selected;
  }

  method PublishReplica(descriptorID: seq<byte>, hsdirs: seq<HSDirectory>, replica: byte,
                        idOf: (seq<byte>, byte) -> seq<byte>, accepts: (HSDirectory, nat) -> bool)
      returns (accepted: nat, selected: seq<HSDirectory>)
    ensures Closest(hsdirs, idOf(descriptorID, replica), selected)
    ensures accepted == CountAccepted(selected, replica, accepts)
  {
    selected := SelectHSDirs(descriptorID, hsdirs, replica, idOf);
    assert replica % 256 == replica;
    accepted := UploadAll(selected, replica, accepts);
  }

  /** Every replica tried so far was tried on its nearest directories. */
  ghost predicate TriedNearest(descriptorID: seq<byte>, hsdirs: seq<HSDirectory>,
                               idOf: (seq<byte>, byte) -> seq<byte>, tried: seq<seq<HSDirectory>>) {
    |tried| <= 2 && forall r :: 0 <= r < |tried| ==> Closest(hsdirs, idOf(descriptorID, r), tried[r])
  }

  lemma TriedOneMore(descriptorID: seq<byte>, hsdirs: seq<HSDirectory>, idOf: (seq<byte>, byte) -> seq<byte>,
                     tried: seq<seq<HSDirectory>>, selected: seq<HSDirectory>)
    requires TriedNearest(descriptorID, hsdirs, idOf, tried) && |tried| < 2
    requires Closest(hsdirs, idOf(descriptorID, |tried|), selected)
    ensures TriedNearest(descriptorID, hsdirs, idOf, tried + [selected])
  {
  }

  /** `accepts` says which uploads succeed; the directories tried are returned beside the count. */
  method PublishDescriptor(descriptorID: seq<byte>, hsdirs: seq<HSDirectory>,
                           idOf: (seq<byte>, byte) -> seq<byte>, accepts: (HSDirectory, nat) -> bool)
      returns (ok: bool, published: nat, tried: seq<seq<HSDirectory>>)
    ensures |tried| == 2
    ensures forall r :: 0 <= r < 2 ==> Closest(hsdirs, idOf(descriptorID, r), tried[r])
    ensures forall r :: 0 <= r < 2 ==> Nearest(hsdirs, idOf(descriptorID, r), tried[r])
    ensures published == |Accepting(tried, accepts)|
    ensures ok <==> published > 0
  {
    published, tried := 0, [];
    for replica := 0 to 2
      invariant |tried| == replica && TriedNearest(descriptorID, hsdirs, idOf, tried)
      invariant published == TotalAccepted(tried, accepts)
    {
      var accepted, selected := PublishReplica(descriptorID, hsdirs, replica, idOf, accepts);
      published := published + accepted;
      OneMoreReplica(tried, selected, accepts);
      TriedOneMore(descriptorID, hsdirs, idOf, tried, selected);
      tried := tried + [selected];
    }
    ok := published > 0;
    TotalIsNumberOfAccepting(tried, accepts);
    forall r | 0 <= r < 2
      ensures Nearest(hsdirs, idOf(descriptorID, r), tried[r])
    {
      ClosestAreNearest(hsdirs, idOf(descriptorID, r), tried[r]);
    }
  }
}
