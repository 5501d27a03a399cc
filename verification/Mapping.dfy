/**
 The mapping of entries to the slots of streams (src/box/archive.cpp, `read` and
 `checkEntriesMappingToStreams`): every entry names a stream and an index in it; the streams'
 slots are filled in entry order by an assignment that resizes to index + 1, so it can shrink.
 */
module Mapping {
  /** The place an entry claims, as the signed 32-bit fields of its record. */
  datatype Place = Place(stream: int, index: int)

  const INVALID_INDEX: int := -1

  datatype Verdict =
    | Accepted
    | LengthError
    | IndexNotSet(entry: nat)
    | StreamNotSet(entry: nat)
    | SamePlace(entry: nat)
    | StreamOutOfBounds(entry: nat)
    | IndexOutOfBounds(entry: nat)
    | EntryNotSet(stream: nat)
    | EntryOutOfBounds(stream: nat)

  // ---------------------------------------------------------------------------------------
  // Assigning
  // ---------------------------------------------------------------------------------------

  function Resize(slots: seq<int>, n: nat): (r: seq<int>)
    ensures |r| == n
  {
    if n <= |slots| then slots[..n] else slots + seq(n - |slots|, _ => INVALID_INDEX)
  }

  /** `assignEntryAtIndex` */
  function AssignAt(slots: seq<int>, index: nat, entry: int): seq<int> {
    Resize(slots, index + 1)[index := entry]
  }

  /** The guard of the assigning loop; a negative stream is a huge one once it is unsigned. */
  predicate Assigned(p: Place, n: nat) {
    0 <= p.stream < n && p.index != INVALID_INDEX
  }

  /** A negative index other than -1 asks for more slots than there can be. */
  predicate TooLong(p: Place, n: nat) {
    Assigned(p, n) && p.index < 0
  }

  /** One turn of the assigning loop. */
  function Assign(streams: seq<seq<int>>, p: Place, entry: int): (r: seq<seq<int>>)
    ensures |r| == |streams|
  {
    if Assigned(p, |streams|) && p.index >= 0 then streams[p.stream := AssignAt(streams[p.stream], p.index, entry)] else streams
  }

  /** The slots of `n` streams after the first `k` entries. */
  function Slots(places: seq<Place>, k: nat, n: nat): (streams: seq<seq<int>>)
    requires k <= |places|
    ensures |streams| == n
    decreases k
  {
    if k == 0 then seq(n, _ => [])
    else
      Assign(Slots(places, k - 1, n), places[k - 1], k - 1)
  }

  // ---------------------------------------------------------------------------------------
  // Checking
  // ---------------------------------------------------------------------------------------

  ghost predicate Placed(p: Place, streams: seq<seq<int>>) {
    0 <= p.stream < |streams| && 0 <= p.index < |streams[p.stream]|
  }

  ghost predicate Distinct(places: seq<Place>, k: nat)
    requires k <= |places|
  {
    forall e, f :: 0 <= e < f < k ==> places[e] != places[f]
  }

  ghost predicate Filled(slots: seq<int>, count: nat) {
    forall i :: 0 <= i < |slots| ==> 0 <= slots[i] < count
  }

  /** What the check looks at: places that exist and differ, and slots that are all filled. */
  ghost predicate Consistent(places: seq<Place>, streams: seq<seq<int>>) {
    && (forall e :: 0 <= e < |places| ==> Placed(places[e], streams))
    && Distinct(places, |places|)
    && forall s :: 0 <= s < |streams| ==> Filled(streams[s], |places|)
  }

  /** How many of the first `k` entries are in stream `s`. */
  function Count(places: seq<Place>, k: nat, s: int): nat
    requires k <= |places|
    decreases k
  {
    if k == 0 then 0 else Count(places, k - 1, s) + if places[k - 1].stream == s then 1 else 0
  }

  /** Entry `e` is in a stream, right after the earlier entries of that stream. */
  predicate InTurn(places: seq<Place>, e: nat, n: nat)
    requires e < |places|
  {
    0 <= places[e].stream < n && places[e].index == Count(places, e, places[e].stream)
  }

  ghost predicate InOrder(places: seq<Place>, k: nat, n: nat)
    requires k <= |places|
  {
    forall e :: 0 <= e < k ==> InTurn(places, e, n)
  }

  /** Slots and the first `k` entries are in bijection: slot i of stream s holds the entry placed there. */
  ghost predicate Bijection(places: seq<Place>, k: nat, streams: seq<seq<int>>)
    requires k <= |places|
  {
    && (forall e :: 0 <= e < k ==> Placed(places[e], streams) && streams[places[e].stream][places[e].index] == e)
    && (forall s, i :: 0 <= s < |streams| && 0 <= i < |streams[s]| ==>
          0 <= streams[s][i] < k && places[streams[s][i]] == Place(s, i))
  }

  lemma AppendedSlot(slots: seq<int>, entry: int)
    ensures AssignAt(slots, |slots|, entry) == slots + [entry]
  {
  }

  lemma AppendingKeepsBijection(places: seq<Place>, k: nat, streams: seq<seq<int>>)
    requires k < |places| && Bijection(places, k, streams)
    requires 0 <= places[k].stream < |streams| && places[k].index == |streams[places[k].stream]|
    ensures var s := places[k].stream; Bijection(places, k + 1, streams[s := streams[s] + [k]])
  {
    var p := places[k];
    var after := streams[p.stream := streams[p.stream] + [k]];
    forall e | 0 <= e < k + 1
      ensures Placed(places[e], after) && after[places[e].stream][places[e].index] == e
    {
      if e < k {
        assert Placed(places[e], streams);
      }
    }
  }

  /** In order, every assignment appends, and slots and entries stay in bijection. */
  lemma {:induction false} OrderGivesBijection(places: seq<Place>, k: nat, n: nat)
    requires k <= |places| && InOrder(places, k, n)
    ensures Bijection(places, k, Slots(places, k, n))
    ensures forall s :: 0 <= s < n ==> |Slots(places, k, n)[s]| == Count(places, k, s)
    decreases k
  {
    hide AssignAt, Bijection, Slots, Count;
    SlotsStart(places, n);
    if k > 0 {
      OrderGivesBijection(places, k - 1, n);
      assert InTurn(places, k - 1, n);
      var p, before := places[k - 1], Slots(places, k - 1, n);
      AppendedSlot(before[p.stream], k - 1);
      AppendingKeepsBijection(places, k - 1, before);
      SlotsStep(places, k, n);
      forall s | 0 <= s < n
        ensures |Slots(places, k, n)[s]| == Count(places, k, s)
      {
        CountStep(places, k, s);
      }
    }
  }

  lemma SlotsStart(places: seq<Place>, n: nat)
    ensures Bijection(places, 0, Slots(places, 0, n))
    ensures forall s :: 0 <= s < n ==> |Slots(places, 0, n)[s]| == Count(places, 0, s)
  {
  }

  lemma SlotsStep(places: seq<Place>, k: nat, n: nat)
    requires 0 < k <= |places|
    ensures Slots(places, k, n) == Assign(Slots(places, k - 1, n), places[k - 1], k - 1)
  {
    hide Assign;
  }

  lemma CountStep(places: seq<Place>, k: nat, s: int)
    requires 0 < k <= |places|
    ensures Count(places, k, s) == Count(places, k - 1, s) + if places[k - 1].stream == s then 1 else 0
  {
  }

  /** The first place out of turn, beyond the end of its stream, leaves a hole at `r`, or `j` cut off. */
  ghost predicate Broken(slots: seq<int>, r: nat, j: nat)
    requires r < j
  {
    |slots| > j ==> slots[r] == INVALID_INDEX || slots[j] == INVALID_INDEX
  }

  lemma HoleIsBroken(slots: seq<int>, j: nat, entry: int)
    requires |slots| < j
    ensures Broken(AssignAt(slots, j, entry), |slots|, j)
  {
  }

  lemma StaysBroken(slots: seq<int>, r: nat, j: nat, index: nat, entry: int)
    requires r < j && Broken(slots, r, j) && index != j
    ensures Broken(AssignAt(slots, index, entry), r, j)
  {
  }

  lemma FirstHole(places: seq<Place>, e: nat, n: nat)
    requires e < |places| && InOrder(places, e, n)
    requires 0 <= places[e].stream < n && places[e].index > Count(places, e, places[e].stream)
    ensures Broken(Slots(places, e + 1, n)[places[e].stream], Count(places, e, places[e].stream), places[e].index)
  {
    hide AssignAt, Slots, Count, Bijection, Broken;
    OrderGivesBijection(places, e, n);
    SlotsStep(places, e + 1, n);
    HoleIsBroken(Slots(places, e, n)[places[e].stream], places[e].index, e);
  }

  /** No later entry can mend it without claiming the same place. */
  lemma {:induction false} BrokenForGood(places: seq<Place>, e: nat, k: nat, n: nat, s: nat, r: nat, j: nat)
    requires e < k <= |places| && Distinct(places, |places|)
    requires places[e] == Place(s, j) && s < n && r < j && Broken(Slots(places, e + 1, n)[s], r, j)
    ensures Broken(Slots(places, k, n)[s], r, j)
    decreases k
  {
    hide AssignAt, Slots, Broken, Distinct;
    if k > e + 1 {
      BrokenForGood(places, e, k - 1, n, s, r, j);
      SlotsStep(places, k, n);
      var p := places[k - 1];
      if p.stream == s && p.index >= 0 {
        DistinctAt(places, e, k - 1);
        StaysBroken(Slots(places, k - 1, n)[s], r, j, p.index, k - 1);
      }
    }
  }

  lemma DistinctAt(places: seq<Place>, e: nat, f: nat)
    requires Distinct(places, |places|) && e < f < |places|
    ensures places[e] != places[f]
  {
  }

  /** An index that is too small has been claimed by an earlier entry. */
  lemma EarlierHolder(places: seq<Place>, e: nat, n: nat)
    requires e < |places| && InOrder(places, e, n)
    requires 0 <= places[e].stream < n && 0 <= places[e].index < Count(places, e, places[e].stream)
    ensures !Distinct(places, |places|)
  {
    hide Slots, Count;
    OrderGivesBijection(places, e, n);
    var f := Slots(places, e, n)[places[e].stream][places[e].index];
    assert 0 <= f < e && places[f] == places[e];
  }

  /** A consistent outcome means that the first entry was in turn, and the next, and so on. */
  lemma {:induction false} ConsistentInOrder(places: seq<Place>, k: nat, n: nat)
    requires k <= |places| && Consistent(places, Slots(places, |places|, n))
    ensures InOrder(places, k, n)
    decreases k
  {
    hide Slots, Count;
    if k > 0 {
      ConsistentInOrder(places, k - 1, n);
      var e, final := k - 1, Slots(places, |places|, n);
      assert Placed(places[e], final);
      var s, j := places[e].stream, places[e].index;
      var r := Count(places, e, s);
      if j < r {
        EarlierHolder(places, e, n);
        assert false;
      } else if j > r {
        FirstHole(places, e, n);
        BrokenForGood(places, e, |places|, n, s, r, j);
        assert false;
      }
    }
  }

  /**
   The check accepts what the assigning loop leaves exactly when every entry is in an existing
   stream, right after the earlier entries of that stream; and then slots and entries are in
   bijection.
   */
  lemma CheckAcceptsExactly(places: seq<Place>, n: nat)
    ensures Consistent(places, Slots(places, |places|, n)) <==> InOrder(places, |places|, n)
    ensures InOrder(places, |places|, n) ==> Bijection(places, |places|, Slots(places, |places|, n))
  {
    hide Slots, Count, InTurn;
    if Consistent(places, Slots(places, |places|, n)) {
      ConsistentInOrder(places, |places|, n);
    }
    if InOrder(places, |places|, n) {
      OrderGivesBijection(places, |places|, n);
      BijectionIsConsistent(places, Slots(places, |places|, n));
    }
  }

  /** Two entries that are listed the other way round: the first is lost, and the check rejects a bijection. */
  lemma DescendingIsRejected()
    ensures var places := [Place(0, 1), Place(0, 0)];
            Bijection(places, 2, [[1, 0]]) && Slots(places, 2, 1) == [[1]] && !Consistent(places, Slots(places, 2, 1))
  {
    var places := [Place(0, 1), Place(0, 0)];
    assert Placed(places[0], [[1, 0]]) && Placed(places[1], [[1, 0]]);
    var none: seq<int> := [];
    assert Slots(places, 0, 1) == [none];
    assert AssignAt(none, 1, 0) == [INVALID_INDEX, 0];
    assert Slots(places, 1, 1) == Assign([none], places[0], 0) == [[INVALID_INDEX, 0]];
    assert AssignAt([INVALID_INDEX, 0], 0, 1) == [1];
    assert Slots(places, 2, 1) == Assign([[INVALID_INDEX, 0]], places[1], 1) == [[1]];
    assert !Placed(places[0], [[1]]);
  }

  lemma BijectionIsConsistent(places: seq<Place>, streams: seq<seq<int>>)
    requires Bijection(places, |places|, streams)
    ensures Consistent(places, streams)
  {
    forall s | 0 <= s < |streams|
      ensures Filled(streams[s], |places|)
    {
    }
    forall e, f | 0 <= e < f < |places|
      ensures places[e] != places[f]
    {
      assert Placed(places[e], streams) && Placed(places[f], streams);
    }
  }

  /** Places and the number of streams decide the slots. */
  lemma BijectionIsUnique(places: seq<Place>, a: seq<seq<int>>, b: seq<seq<int>>)
    requires |a| == |b| && Bijection(places, |places|, a) && Bijection(places, |places|, b)
    ensures a == b
  {
    forall s | 0 <= s < |a|
      ensures a[s] == b[s]
    {
      SlotsAgree(places, a, b, s);
      SlotsAgree(places, b, a, s);
    }
  }

  lemma SlotsAgree(places: seq<Place>, a: seq<seq<int>>, b: seq<seq<int>>, s: nat)
    requires s < |a| == |b| && Bijection(places, |places|, a) && Bijection(places, |places|, b)
    ensures |a[s]| <= |b[s]| && forall i :: 0 <= i < |a[s]| ==> a[s][i] == b[s][i]
  {
    forall i | 0 <= i < |a[s]|
      ensures i < |b[s]| && a[s][i] == b[s][i]
    {
      assert Placed(places[a[s][i]], b);
    }
    if |a[s]| > 0 {
      var last := a[s][|a[s]| - 1];
      assert Placed(places[last], b);
    }
  }

  // ---------------------------------------------------------------------------------------
  // Building
  // ---------------------------------------------------------------------------------------

  ghost predicate InRange(lists: seq<seq<int>>, n: nat) {
    forall s, i :: 0 <= s < |lists| && 0 <= i < |lists[s]| ==> 0 <= lists[s][i] < n
  }

  predicate ListedAt(lists: seq<seq<int>>, e: int, s: int, i: int) {
    0 <= s < |lists| && 0 <= i < |lists[s]| && lists[s][i] == e
  }

  ghost predicate Somewhere(lists: seq<seq<int>>, e: int) {
    exists s, i :: ListedAt(lists, e, s, i)
  }

  /** Every entry is listed, and only once. */
  ghost predicate ExactCover(lists: seq<seq<int>>, n: nat) {
    && (forall e, s, i, t, j :: ListedAt(lists, e, s, i) && ListedAt(lists, e, t, j) ==> s == t && i == j)
    && forall e :: 0 <= e < n ==> Somewhere(lists, e)
  }

  /** Place (s, i) comes before place (t, j) in the streams' lists. */
  predicate Earlier(s: int, i: int, t: int, j: int) {
    s < t || (s == t && i < j)
  }

  /** The places that listing the entries up to (t, j) leaves. */
  ghost predicate Listed(lists: seq<seq<int>>, t: nat, j: nat, places: seq<Place>) {
    && (forall e :: 0 <= e < |places| ==>
          places[e] == Place(INVALID_INDEX, INVALID_INDEX)
          || ListedAt(lists, e, places[e].stream, places[e].index))
    && (ExactCover(lists, |places|) ==>
          forall e, s, i :: ListedAt(lists, e, s, i) && 0 <= e < |places| && Earlier(s, i, t, j) ==> places[e] == Place(s, i))
  }

  /**
   `ofData`: from the streams' lists, the place of every entry. Lists and places are in bijection
   exactly when the lists are an exact cover of the entries.
   */
  method AssignPlaces(lists: seq<seq<int>>, n: nat) returns (places: seq<Place>)
    requires InRange(lists, n)
    ensures |places| == n && (Bijection(places, n, lists) <==> ExactCover(lists, n))
  {
    places := seq(n, _ => Place(INVALID_INDEX, INVALID_INDEX));
    for s := 0 to |lists|
      invariant |places| == n && Listed(lists, s, 0, places)
    {
      for i := 0 to |lists[s]|
        invariant |places| == n && Listed(lists, s, i, places)
      {
        assert ListedAt(lists, lists[s][i], s, i);
        places := places[lists[s][i] := Place(s, i)];
      }
    }
    CoverExactly(places, n, lists);
  }

  lemma CoverExactly(places: seq<Place>, n: nat, lists: seq<seq<int>>)
    requires |places| == n && InRange(lists, n) && Listed(lists, |lists|, 0, places)
    ensures Bijection(places, n, lists) <==> ExactCover(lists, n)
  {
    if ExactCover(lists, n) {
      CoverIsBijection(places, n, lists);
    }
    if Bijection(places, n, lists) {
      BijectionIsCover(places, n, lists);
    }
  }

  lemma CoverIsBijection(places: seq<Place>, n: nat, lists: seq<seq<int>>)
    requires |places| == n && InRange(lists, n) && Listed(lists, |lists|, 0, places) && ExactCover(lists, n)
    ensures Bijection(places, n, lists)
  {
    forall e: nat | e < n
      ensures Placed(places[e], lists) && lists[places[e].stream][places[e].index] == e
    {
      assert Somewhere(lists, e);
      var s, i :| ListedAt(lists, e, s, i);
      assert Earlier(s, i, |lists|, 0);
    }
    forall s, i | 0 <= s < |lists| && 0 <= i < |lists[s]|
      ensures 0 <= lists[s][i] < n && places[lists[s][i]] == Place(s, i)
    {
      assert ListedAt(lists, lists[s][i], s, i) && Earlier(s, i, |lists|, 0);
    }
  }

  lemma BijectionIsCover(places: seq<Place>, n: nat, lists: seq<seq<int>>)
    requires |places| == n && Bijection(places, n, lists)
    ensures ExactCover(lists, n)
  {
    forall e: nat | e < n
      ensures Somewhere(lists, e)
    {
      assert Placed(places[e], lists);
      assert ListedAt(lists, e, places[e].stream, places[e].index);
    }
  }

  // ---------------------------------------------------------------------------------------
  // The loops
  // ---------------------------------------------------------------------------------------

  /** The loop of `read` that maps every entry; false stands for the thrown length error. */
  method MapEntries(places: seq<Place>, n: nat) returns (ok: bool, streams: seq<seq<int>>)
    ensures ok <==> forall e :: 0 <= e < |places| ==> !TooLong(places[e], n)
    ensures ok ==> streams == Slots(places, |places|, n)
  {
    hide AssignAt;
    streams := seq(n, _ => []);
    for index := 0 to |places|
      invariant streams == Slots(places, index, n)
      invariant forall e :: 0 <= e < index ==> !TooLong(places[e], n)
    {
      var p := places[index];
      if p.stream != INVALID_INDEX && p.index != INVALID_INDEX && 0 <= p.stream < |streams| {
        if p.index < 0 {
          assert TooLong(places[index], n);
          return false, streams;
        }
        streams := streams[p.stream := AssignAt(streams[p.stream], p.index, index)];
      }
    }
    ok := true;
  }

  /** `checkEntriesMappingToStreams` */
  method Check(places: seq<Place>, streams: seq<seq<int>>) returns (verdict: Verdict)
    ensures verdict.Accepted? <==> Consistent(places, streams)
  {
    var mapping: set<Place> := {};
    for e := 0 to |places|
      invariant forall f :: 0 <= f < e ==> Placed(places[f], streams)
      invariant Distinct(places, e)
      invariant forall p :: p in mapping <==> p in places[..e]
    {
      var p := places[e];
      assert places[..e + 1] == places[..e] + [p];
      if p.index == INVALID_INDEX {
        assert !Placed(places[e], streams);
        return IndexNotSet(e);
      } else if p.stream == INVALID_INDEX {
        assert !Placed(places[e], streams);
        return StreamNotSet(e);
      }
      if p in mapping {
        var f :| 0 <= f < e && places[f] == p;
        assert !Distinct(places, |places|);
        return SamePlace(e);
      }
      if !(0 <= p.stream < |streams|) {
        assert !Placed(places[e], streams);
        return StreamOutOfBounds(e);
      } else if !(0 <= p.index < |streams[p.stream]|) {
        assert !Placed(places[e], streams);
        return IndexOutOfBounds(e);
      }
      mapping := mapping + {p};
    }
    for s := 0 to |streams|
      invariant forall t :: 0 <= t < s ==> Filled(streams[t], |places|)
    {
      for i := 0 to |streams[s]|
        invariant Filled(streams[s][..i], |places|)
      {
        assert streams[s][..i + 1] == streams[s][..i] + [streams[s][i]];
        if streams[s][i] == INVALID_INDEX {
          assert !Filled(streams[s], |places|);
          return EntryNotSet(s);
        }
        if !(0 <= streams[s][i] < |places|) {
          assert !Filled(streams[s], |places|);
          return EntryOutOfBounds(s);
        }
      }
      assert streams[s][..|streams[s]|] == streams[s];
    }
    verdict := Accepted;
  }

  /**
   Mapping and checking together: reading comes through exactly when the entries of each stream
   have the indices 0, 1, 2, and so on in entry order, and then slots and entries are in bijection.
   */
  method ReadMapping(places: seq<Place>, n: nat) returns (verdict: Verdict, streams: seq<seq<int>>)
    ensures verdict.Accepted? <==> InOrder(places, |places|, n)
    ensures verdict.Accepted? ==> streams == Slots(places, |places|, n) && Bijection(places, |places|, streams)
  {
    hide Slots, Count, Consistent, Bijection;
    CheckAcceptsExactly(places, n);
    var ok;
    ok, streams := MapEntries(places, n);
    if !ok {
      var e :| 0 <= e < |places| && TooLong(places[e], n);
      TooLongIsDisorder(places, n, e);
      return LengthError, streams;
    }
    verdict := Check(places, streams);
  }

  lemma TooLongIsDisorder(places: seq<Place>, n: nat, e: nat)
    requires e < |places| && TooLong(places[e], n)
    ensures !InOrder(places, |places|, n)
  {
    assert !InTurn(places, e, n);
  }
}
