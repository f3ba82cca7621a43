/** When publisher and fetcher choose the same directories (pkg/onion/onion.go). */
module HSDirAgreement {
  import opened Bytes
  import opened HSDirs

  // ----- counting nearer relays ---------------------------------------------------------------

  predicate Nearer(e: Entry, d: seq<byte>) {
    Compare(e.distance, d) < 0
  }

  /** How many entries are strictly nearer than d. */
  function CountNearer(s: seq<Entry>, d: seq<byte>): (n: nat)
    ensures n <= |s|
  {
    if s == [] then 0 else (if Nearer(s[0], d) then 1 else 0) + CountNearer(s[1..], d)
  }

  lemma {:induction false} CountNearerAppends(s: seq<Entry>, t: seq<Entry>, d: seq<byte>)
    ensures CountNearer(s + t, d) == CountNearer(s, d) + CountNearer(t, d)
  {
    if s == [] {
      assert s + t == t;
    } else {
      assert (s + t)[1..] == s[1..] + t;
      CountNearerAppends(s[1..], t, d);
    }
  }

  lemma CountWithout(t: seq<Entry>, j: nat, d: seq<byte>)
    requires j < |t|
    ensures CountNearer(t, d) == CountNearer(t[..j] + t[j + 1..], d) + if Nearer(t[j], d) then 1 else 0
  {
    assert t == t[..j] + t[j..] && t[j..] == [t[j]] + t[j + 1..];
    CountNearerAppends(t[..j], t[j..], d);
    CountNearerAppends(t[..j], t[j + 1..], d);
    assert t[j..][1..] == t[j + 1..];
  }

  lemma RemovedOne(t: seq<Entry>, j: nat)
    requires j < |t|
    ensures multiset(t[..j] + t[j + 1..]) == multiset(t) - multiset{t[j]}
  {
    assert t == t[..j] + t[j..] && t[j..] == [t[j]] + t[j + 1..];
  }

  lemma RemovedFirst(s: seq<Entry>)
    requires s != []
    ensures multiset(s[1..]) == multiset(s) - multiset{s[0]}
  {
    assert s == [s[0]] + s[1..];
  }

  lemma PlaceOf(t: seq<Entry>, e: Entry) returns (j: nat)
    requires e in multiset(t)
    ensures j < |t| && t[j] == e
  {
    assert e in t;
    j :| 0 <= j < |t| && t[j] == e;
  }

  lemma {:induction false} CountNearerIgnoresOrder(s: seq<Entry>, t: seq<Entry>, d: seq<byte>)
    requires multiset(s) == multiset(t)
    ensures CountNearer(s, d) == CountNearer(t, d)
  {
    if s == [] {
      assert |multiset(t)| == |t|;
    } else {
      assert s[0] in multiset(s);
      var j := PlaceOf(t, s[0]);
      RemovedOne(t, j);
      RemovedFirst(s);
      CountWithout(t, j, d);
      CountNearerIgnoresOrder(s[1..], t[..j] + t[j + 1..], d);
    }
  }

  lemma {:induction false} CountNone(s: seq<Entry>, d: seq<byte>)
    requires forall i :: 0 <= i < |s| ==> !Nearer(s[i], d)
    ensures CountNearer(s, d) == 0
  {
    if s != [] {
      CountNone(s[1..], d);
    }
  }

  lemma {:induction false} CountAll(s: seq<Entry>, d: seq<byte>)
    requires forall i :: 0 <= i < |s| ==> Nearer(s[i], d)
    ensures CountNearer(s, d) == |s|
  {
    if s != [] {
      CountAll(s[1..], d);
    }
  }

  lemma NearerTransitive(e: Entry, f: Entry, d: seq<byte>)
    requires (e == f || Le(e, f)) && Nearer(f, d)
    ensures Nearer(e, d)
  {
    if e != f {
      CompareTransitive(e.distance, f.distance, d);
      if Compare(e.distance, d) == 0 {
        CompareTotal(e.distance, d);
        CompareTotal(f.distance, d);
      }
    }
  }

  /** In a sorted list nothing after an entry that is not nearer than d is. */
  lemma NearerStopAt(s: seq<Entry>, i: nat, d: seq<byte>)
    requires Sorted(s) && i < |s| && !Nearer(s[i], d)
    ensures CountNearer(s, d) <= i
  {
    forall l | 0 <= l < |s[i..]|
      ensures !Nearer(s[i..][l], d)
    {
      if Nearer(s[i..][l], d) {
        NearerTransitive(s[i], s[i..][l], d);
      }
    }
    CountNone(s[i..], d);
    CountNearerAppends(s[..i], s[i..], d);
    assert s == s[..i] + s[i..];
  }

  /** In a sorted list only entries before place k can be nearer than the entry at k. */
  lemma NearerComeBefore(s: seq<Entry>, k: nat)
    requires Sorted(s) && k < |s|
    ensures CountNearer(s, s[k].distance) <= k
  {
    CompareTotal(s[k].distance, s[k].distance);
    NearerStopAt(s, k, s[k].distance);
  }

  lemma FrontIsNearer(s: seq<Entry>, k: nat, d: seq<byte>, front: seq<Entry>)
    requires Sorted(s) && k < |s| && Nearer(s[k], d) && front == s[..k + 1]
    ensures CountNearer(front, d) == k + 1
  {
    forall i | 0 <= i < |front|
      ensures Nearer(front[i], d)
    {
      assert i < k ==> Le(s[i], s[k]);
      NearerTransitive(s[i], s[k], d);
    }
    CountAll(front, d);
  }

  /** If the entry at place k of a sorted list is nearer than d, so are all before it. */
  lemma NearerFillFront(s: seq<Entry>, k: nat, d: seq<byte>)
    requires Sorted(s) && k < |s| && Nearer(s[k], d)
    ensures CountNearer(s, d) > k
  {
    FrontIsNearer(s, k, d, s[..k + 1]);
    CountNearerAppends(s[..k + 1], s[k + 1..], d);
    assert s == s[..k + 1] + s[k + 1..];
  }

  lemma NotNearerAt(s: seq<Entry>, t: seq<Entry>, k: nat)
    requires multiset(s) == multiset(t) && Sorted(s) && Sorted(t) && k < |s| && k < |t|
    ensures !Nearer(s[k], t[k].distance)
  {
    CountNearerIgnoresOrder(s, t, t[k].distance);
    NearerComeBefore(t, k);
    if Nearer(s[k], t[k].distance) {
      NearerFillFront(s, k, t[k].distance);
    }
  }

  /** Two sorted lists of the same entries have the same distances, place by place. */
  lemma DistancesAgree(s: seq<Entry>, t: seq<Entry>, k: nat)
    requires multiset(s) == multiset(t) && Sorted(s) && Sorted(t) && k < |s|
    ensures k < |t| && s[k].distance == t[k].distance
  {
    assert |multiset(s)| == |s| && |multiset(t)| == |t|;
    CompareTotal(s[k].distance, t[k].distance);
    NotNearerAt(s, t, k);
    NotNearerAt(t, s, k);
  }

  // ----- contested places ---------------------------------------------------------------------

  /** Two different relays that look alike to the ID. */
  predicate Rivals(x: HSDirectory, y: HSDirectory, id: seq<byte>) {
    x != y && Visible(x.fingerprint, |id|) == Visible(y.fingerprint, |id|)
  }

  /** Rivals with fewer than three relays strictly nearer. The sort is not stable, so relays at equal
      distance may come out in the order of the input; that matters exactly when such a tie reaches
      into the first three. */
  predicate Contested(hs: seq<HSDirectory>, id: seq<byte>) {
    exists i, j :: 0 <= i < |hs| && 0 <= j < |hs| && Rivals(hs[i], hs[j], id)
      && CountNearer(Measured(hs, id), Distance(hs[i].fingerprint, id)) < 3
  }

  lemma SamePermutation(hs: seq<HSDirectory>, hs': seq<HSDirectory>, id: seq<byte>)
    requires multiset(hs) == multiset(hs')
    ensures multiset(Measured(hs, id)) == multiset(Measured(hs', id))
  {
    var m, m' := Measured(hs, id), Measured(hs', id);
    assert Names(m) == hs && Names(m') == hs';
    forall e: Entry
      ensures multiset(m)[e] == multiset(m')[e]
    {
      if e == Measure(e.hsdir, id) {
        CountNames(m, id, e.hsdir);
        CountNames(m', id, e.hsdir);
      } else {
        assert e !in m && e !in m';
      }
    }
  }

  lemma InInput(hs: seq<HSDirectory>, id: seq<byte>, all: seq<Entry>, k: nat) returns (i: nat)
    requires Ordering(hs, id, all) && k < |all|
    ensures i < |hs| && hs[i] == all[k].hsdir && all[k] == Measure(hs[i], id)
  {
    SameRelays(all, hs, id);
    assert Names(all)[k] in multiset(hs);
    i :| 0 <= i < |hs| && hs[i] == all[k].hsdir;
  }

  /** In an uncontested list every ordering has the same relay at each of the first three places. */
  lemma FrontsAgree(hs: seq<HSDirectory>, id: seq<byte>, s: seq<Entry>, t: seq<Entry>, k: nat)
    requires Ordering(hs, id, s) && Ordering(hs, id, t) && !Contested(hs, id) && k < 3 && k < |s|
    ensures k < |t| && s[k].hsdir == t[k].hsdir
  {
    DistancesAgree(s, t, k);
    var i := InInput(hs, id, s, k);
    var j := InInput(hs, id, t, k);
    EquallyFarIffVisiblyEqual(hs[i].fingerprint, hs[j].fingerprint, id);
    NearerComeBefore(s, k);
    CountNearerIgnoresOrder(s, Measured(hs, id), s[k].distance);
    assert !Rivals(hs[i], hs[j], id);
  }

  /** Agreement: if no place is contested, the selection does not depend on the order in which the
      consensus lists the relays. */
  lemma SelectionIgnoresOrder(hs: seq<HSDirectory>, hs': seq<HSDirectory>, id: seq<byte>,
                              chosen: seq<HSDirectory>, chosen': seq<HSDirectory>)
    requires multiset(hs) == multiset(hs') && !Contested(hs, id)
    requires Closest(hs, id, chosen) && Closest(hs', id, chosen')
    ensures chosen == chosen'
  {
    var all :| Ordering(hs, id, all) && IsFront(all, chosen);
    var all' :| Ordering(hs', id, all') && IsFront(all', chosen');
    SamePermutation(hs, hs', id);
    assert |multiset(all)| == |all| && |multiset(all')| == |all'|;
    forall k | 0 <= k < |chosen|
      ensures chosen[k] == chosen'[k]
    {
      FrontsAgree(hs, id, all, all', k);
    }
  }

  // ----- contested lists do depend on the order -----------------------------------------------

  lemma InsertedSorted(rest: seq<Entry>, e: Entry, k: nat)
    requires Sorted(rest) && k == CountNearer(rest, e.distance)
    ensures Sorted(rest[..k] + [e] + rest[k..])
  {
    forall i | 0 <= i < |rest|
      ensures if i < k then Le(rest[i], e) else Le(e, rest[i])
    {
      CompareTotal(rest[i].distance, e.distance);
      if Nearer(rest[i], e.distance) {
        NearerFillFront(rest, i, e.distance);
      } else if i < k {
        NearerStopAt(rest, i, e.distance);
      }
    }
  }

  lemma {:induction false} SomeOrdering(s: seq<Entry>) returns (t: seq<Entry>)
    ensures multiset(t) == multiset(s) && Sorted(t)
  {
    if s == [] {
      t := [];
    } else {
      var rest := SomeOrdering(s[1..]);
      var k := CountNearer(rest, s[0].distance);
      t := rest[..k] + [s[0]] + rest[k..];
      InsertedSorted(rest, s[0], k);
      assert s == [s[0]] + s[1..] && rest == rest[..k] + rest[k..];
    }
  }

  /** The first place of a tie. */
  lemma TieStarts(s: seq<Entry>, p: nat, k: nat)
    requires Sorted(s) && p < |s| && k == CountNearer(s, s[p].distance)
    ensures k <= p && s[k].distance == s[p].distance
  {
    NearerComeBefore(s, p);
    CompareTotal(s[k].distance, s[p].distance);
    if Nearer(s[k], s[p].distance) {
      NearerFillFront(s, k, s[p].distance);
    }
    assert k < p ==> Le(s[k], s[p]);
  }

  lemma SwapInTie(s: seq<Entry>, i: nat, j: nat)
    requires Sorted(s) && i < j < |s| && s[i].distance == s[j].distance
    ensures Sorted(Swapped(s, i, j))
  {
    var t := Swapped(s, i, j);
    assert forall l :: 0 <= l < |s| ==> t[l].distance == s[l].distance;
  }

  /** Any relay can be put at the first place of its tie. */
  lemma FirstOfTie(hs: seq<HSDirectory>, id: seq<byte>, all: seq<Entry>, i: nat, k: nat) returns (t: seq<Entry>)
    requires Ordering(hs, id, all) && i < |hs|
    requires k == CountNearer(Measured(hs, id), Distance(hs[i].fingerprint, id))
    ensures Ordering(hs, id, t) && k < |t| && t[k].hsdir == hs[i]
  {
    var e := Measured(hs, id)[i];
    assert e in multiset(all);
    var p :| 0 <= p < |all| && all[p] == e;
    CountNearerIgnoresOrder(all, Measured(hs, id), e.distance);
    TieStarts(all, p, k);
    if k == p {
      t := all;
    } else {
      SwapInTie(all, k, p);
      t := Swapped(all, k, p);
    }
  }

  /** For every contested list there are two orders of the same relays that are both sorted already,
      so that each is selected from as it stands, and that begin with different relays. */
  lemma ContestedSelectionsDiffer(hs: seq<HSDirectory>, id: seq<byte>)
      returns (hs1: seq<HSDirectory>, hs2: seq<HSDirectory>)
    requires Contested(hs, id)
    ensures multiset(hs1) == multiset(hs) == multiset(hs2)
    ensures Sorted(Measured(hs1, id)) && Sorted(Measured(hs2, id))
    ensures Closest(hs, id, hs1[..Min(3, |hs1|)]) && Closest(hs, id, hs2[..Min(3, |hs2|)])
    ensures hs1[..Min(3, |hs1|)] != hs2[..Min(3, |hs2|)]
  {
    var i, j :| 0 <= i < |hs| && 0 <= j < |hs| && Rivals(hs[i], hs[j], id)
      && CountNearer(Measured(hs, id), Distance(hs[i].fingerprint, id)) < 3;
    var k := CountNearer(Measured(hs, id), Distance(hs[i].fingerprint, id));
    EquallyFarIffVisiblyEqual(hs[i].fingerprint, hs[j].fingerprint, id);
    var all := SomeOrdering(Measured(hs, id));
    var s := FirstOfTie(hs, id, all, i, k);
    var t := FirstOfTie(hs, id, all, j, k);
    hs1, hs2 := Names(s), Names(t);
    SameRelays(s, hs, id);
    SameRelays(t, hs, id);
    assert Measured(hs1, id) == s && Measured(hs2, id) == t;
    assert IsFront(s, hs1[..Min(3, |hs1|)]) && IsFront(t, hs2[..Min(3, |hs2|)]);
    assert hs1[..Min(3, |hs1|)][k] == hs[i] && hs2[..Min(3, |hs2|)][k] == hs[j];
  }

  /** The exact condition: the distances alone fix the selection exactly when no place is contested. */
  lemma SelectionUniqueIff(hs: seq<HSDirectory>, id: seq<byte>)
    ensures (forall c, c' :: Closest(hs, id, c) && Closest(hs, id, c') ==> c == c') <==> !Contested(hs, id)
  {
    if Contested(hs, id) {
      var hs1, hs2 := ContestedSelectionsDiffer(hs, id);
    } else {
      forall c, c' | Closest(hs, id, c) && Closest(hs, id, c')
        ensures c == c'
      {
        SelectionIgnoresOrder(hs, hs, id, c, c');
      }
    }
  }

  lemma PairSorted(x: HSDirectory, y: HSDirectory, id: seq<byte>)
    requires Le(Measure(x, id), Measure(y, id))
    ensures Sorted(Measured([x, y], id))
  {
  }

  /** The smallest case: two rivals alone are taken in input order, since both inputs are already
      sorted, and so the two selections differ. */
  lemma LookalikesFollowInputOrder(x: HSDirectory, y: HSDirectory, id: seq<byte>)
    requires Rivals(x, y, id)
    ensures Contested([x, y], id)
    ensures Sorted(Measured([x, y], id)) && Sorted(Measured([y, x], id))
    ensures [x, y][..Min(3, 2)] != [y, x][..Min(3, 2)]
  {
    EquallyFarIffVisiblyEqual(x.fingerprint, y.fingerprint, id);
    CompareTotal(Distance(x.fingerprint, id), Distance(y.fingerprint, id));
    PairSorted(x, y, id);
    PairSorted(y, x, id);
    assert [x, y][0] == x && [x, y][1] == y;
    assert [x, y][..2] == [x, y] && [y, x][..2][0] == y;
  }

  // ----- publisher and fetcher ----------------------------------------------------------------

  /** The period a descriptor belongs to: days that start at noon. */
  function GetTimePeriod(unixTime: int): nat {
    if unixTime < 0 then 0 else (unixTime + 12 * 60 * 60) / (24 * 60 * 60)
  }

  /** Period n lasts the 24 hours from the noon before day n to the noon of day n. */
  lemma PeriodIsNoonToNoon(unixTime: int, n: int)
    requires unixTime >= 0
    ensures GetTimePeriod(unixTime) == n <==> n * 86400 - 43200 <= unixTime < n * 86400 + 43200
  {
  }

  /** Publisher and fetcher derive the same directories for a replica whenever their clocks fall in
      the same period and their consensuses list the same relays; `descriptorID` stands for the
      hashes of key and period. */
  lemma PublisherAndFetcherAgree(publisher: seq<HSDirectory>, fetcher: seq<HSDirectory>,
                                 publishedAt: int, fetchedAt: int, key: seq<byte>, replica: nat,
                                 descriptorID: (seq<byte>, nat) -> seq<byte>,
                                 idOf: (seq<byte>, byte) -> seq<byte>,
                                 uploaded: seq<HSDirectory>, asked: seq<HSDirectory>)
    requires multiset(publisher) == multiset(fetcher)
    requires GetTimePeriod(publishedAt) == GetTimePeriod(fetchedAt)
    requires var id := idOf(descriptorID(key, GetTimePeriod(publishedAt)), replica % 256);
             !Contested(publisher, id) && Closest(publisher, id, uploaded)
    requires Closest(fetcher, idOf(descriptorID(key, GetTimePeriod(fetchedAt)), replica % 256), asked)
    ensures uploaded == asked
  {
    var id := idOf(descriptorID(key, GetTimePeriod(publishedAt)), replica % 256);
    SelectionIgnoresOrder(publisher, fetcher, id, uploaded, asked);
  }
}
