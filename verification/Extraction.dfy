/**
 Extraction (`ArchiveReadHandle::source` in src/box/archive.cpp): seek to the stream, undo its
 filters, perhaps undo the entry's, then skip to the entry and let its bytes through. The stream
 is not cut off where it ends in the file, so what comes after it flows through the same filters.
 */
module Extraction {
  import opened Bytes
  import opened Filters
  import opened Streams
  import opened Chains

  // ---------------------------------------------------------------------------------------
  // Towers of xor filters
  // ---------------------------------------------------------------------------------------

  ghost predicate Stages(keys: seq<seq<byte>>, capacities: seq<nat>) {
    Keys(keys) && |keys| == |capacities| && forall i :: 0 <= i < |capacities| ==> capacities[i] >= 1
  }

  /** The source wrapped by one filter for each key, the first key innermost. */
  function Tower(s: Source, keys: seq<seq<byte>>, capacities: seq<nat>): Source
    requires |keys| == |capacities|
    decreases |keys|
  {
    if keys == [] then s else Tower(Filtered(s, FreshXor(capacities[0], keys[0])), keys[1..], capacities[1..])
  }

  lemma FreshXorGood(s: Source, key: seq<byte>, capacity: nat)
    requires Good(s) && key != [] && capacity >= 1
    ensures var t := Filtered(s, FreshXor(capacity, key)); Good(t) && Denote(t) == XorKey(Denote(s), key, 0)
  {
    hide XorKey;
    assert [] + Denote(s) == Denote(s);
    assert [] + XorKey(Denote(s), key, 0) == XorKey(Denote(s), key, 0);
  }

  /** A freshly built tower delivers the chain's bytes, whatever its buffers. */
  lemma {:induction false} TowerDelivers(s: Source, keys: seq<seq<byte>>, capacities: seq<nat>)
    requires Good(s) && Stages(keys, capacities)
    ensures Good(Tower(s, keys, capacities)) && Denote(Tower(s, keys, capacities)) == XorAll(keys, Denote(s))
    decreases |keys|
  {
    hide XorKey, Good, Denote;
    GoodIsBounded(s);
    if keys != [] {
      FreshXorGood(s, keys[0], capacities[0]);
      TowerDelivers(Filtered(s, FreshXor(capacities[0], keys[0])), keys[1..], capacities[1..]);
    }
  }

  // ---------------------------------------------------------------------------------------
  // The skip filter is a slice
  // ---------------------------------------------------------------------------------------

  /** The bytes from `skip` on: `pass` of them, or all of them when `pass` is 0. */
  function Slice(x: seq<byte>, skip: nat, pass: nat): seq<byte>
    requires skip + pass <= |x|
  {
    if pass == 0 then x[skip..] else x[skip..skip + pass]
  }

  function Skipper(s: Source, capacity: nat, skip: nat, pass: nat): Source {
    Filtered(s, FreshSkip(capacity, skip, pass, 0))
  }

  lemma FreshSkipSlices(x: seq<byte>, capacity: nat, skip: nat, pass: nat)
    requires capacity >= 1 && skip + pass <= |x|
    ensures FilterGood(FreshSkip(capacity, skip, pass, 0), x)
    ensures FilterDenotes(FreshSkip(capacity, skip, pass, 0), x) == Slice(x, skip, pass)
  {
    assert [] + x == x;
    assert [] + Slice(x, skip, pass) == Slice(x, skip, pass);
  }

  /** With enough bytes in the source, a skip filter delivers exactly the slice. */
  lemma SkipperDelivers(s: Source, capacity: nat, skip: nat, pass: nat)
    requires Good(s) && capacity >= 1 && skip + pass <= |Denote(s)|
    ensures Good(Skipper(s, capacity, skip, pass)) && Denote(Skipper(s, capacity, skip, pass)) == Slice(Denote(s), skip, pass)
  {
    hide FilterGood, FilterDenotes, Slice;
    FreshSkipSlices(Denote(s), capacity, skip, pass);
  }

  /** A skip filter that counts on more bytes than there will be. */
  ghost predicate Starved(s: Source) {
    && s.Filtered? && Good(s.inner) && s.filter.kind.Skip? && InBounds(s.filter) && !s.filter.finished
    && (s.filter.ended ==> AtEnd(s.inner))
    && |s.filter.input| + |Denote(s.inner)| < Needs(s.filter.kind)
  }

  lemma {:induction false} StarvedProcess(f: Filter, upstream: nat)
    requires InBounds(f) && f.started && f.kind.Skip? && |f.input| + upstream < Needs(f.kind)
    ensures var g := SkipProcess(f);
            InBounds(g) && g.kind.Skip? && g.started && !g.finished && g.ended == f.ended && |g.input| + upstream < Needs(g.kind)
    decreases |f.input|
  {
    StarvedLevel(f, upstream);
    var (g, again) := SkipLevel(f);
    LevelInBounds(f);
    if again {
      StarvedProcess(g, upstream);
    }
  }

  lemma StarvedLevel(f: Filter, upstream: nat)
    requires InBounds(f) && f.started && f.kind.Skip? && |f.input| + upstream < Needs(f.kind)
    ensures var g := SkipLevel(f).0; g.kind.Skip? && g.started && g.ended == f.ended && |g.input| + upstream < Needs(g.kind)
  {
  }

  lemma StarvedDrained(f: Filter, upstream: nat, amount: nat)
    requires InBounds(f) && f.started && f.kind.Skip? && !f.finished && |f.input| + upstream < Needs(f.kind)
    ensures var (h, r) := Drained(f, amount);
            r.Data? && h.kind.Skip? && h.started && !h.finished && h.ended == f.ended && |h.input| + upstream < Needs(h.kind)
  {
    hide SkipProcess;
    StarvedProcess(f, upstream);
  }

  /** A starved skip filter never answers end of stream, and stays starved. */
  lemma StarvedNeverEnds(s: Source, amount: nat)
    requires Starved(s) && amount >= 1
    ensures Starved(Read(s, amount).0) && Read(s, amount).1.Data?
  {
    hide Drained, Good, Denote, AtEnd;
    GoodIsBounded(s.inner);
    var f := Begun(s.filter);
    assert f.kind == s.filter.kind by { BegunKind(s.filter); }
    if |f.input| < f.capacity {
      ReadKeeps(s.inner, f.capacity - |f.input|);
      var (inner', r) := Read(s.inner, f.capacity - |f.input|);
      StarvedDrained(Fetched(f, r), |Denote(inner')|, amount);
    } else {
      StarvedDrained(f, |Denote(s.inner)|, amount);
    }
  }

  lemma BegunKind(f: Filter)
    requires InBounds(f)
    ensures Begun(f).kind == f.kind
  {
    if f.kind.Skip? && !f.started {
      assert f.kind.(skipped := 0) == f.kind;
    }
  }

  lemma {:induction false} StarvedRun(s: Source, sizes: seq<nat>)
    requires Starved(s) && Bounded(s) && Positive(sizes)
    ensures !Run(s, sizes).ended
    decreases |sizes|
  {
    hide Read, Starved;
    if sizes != [] {
      StarvedNeverEnds(s, sizes[0]);
      StarvedRun(Read(s, sizes[0]).0, sizes[1..]);
    }
  }

  /**
   A skip filter reaches the end of its stream exactly when the source holds at least the bytes
   to skip and the bytes to let through; then it has delivered the slice.
   */
  lemma SkipperEndsExactly(s: Source, capacity: nat, skip: nat, pass: nat, sizes: seq<nat>)
    requires Good(s) && capacity >= 1 && Positive(sizes)
    requires |sizes| > 3 * Work(s) + 1
    ensures Bounded(Skipper(s, capacity, skip, pass))
    ensures Run(Skipper(s, capacity, skip, pass), sizes).ended <==> skip + pass <= |Denote(s)|
    ensures skip + pass <= |Denote(s)| ==> Run(Skipper(s, capacity, skip, pass), sizes).delivered == Slice(Denote(s), skip, pass)
  {
    hide Good, Denote, Run, Slice;
    GoodIsBounded(s);
    var t := Skipper(s, capacity, skip, pass);
    if skip + pass <= |Denote(s)| {
      SkipperDelivers(s, capacity, skip, pass);
      assert Work(t) == 3 * Work(s) + 1;
      RunDelivers(t, sizes);
    } else {
      StarvedRun(t, sizes);
    }
  }

  /** One byte, and two to skip: no run of reads ever meets the end of the stream. */
  lemma SkippingPastTheEnd(b: byte, capacity: nat, sizes: seq<nat>)
    requires capacity >= 1 && Positive(sizes)
    ensures Bounded(Skipper(Buffer([b], 0), capacity, 2, 0)) && !Run(Skipper(Buffer([b], 0), capacity, 2, 0), sizes).ended
  {
    hide Run;
    var t := Skipper(Buffer([b], 0), capacity, 2, 0);
    assert Denote(Buffer([b], 0)) == [b];
    StarvedRun(t, sizes);
  }

  // ---------------------------------------------------------------------------------------
  // Extracting an entry
  // ---------------------------------------------------------------------------------------

  /** How an extraction is set up: the archive file, the stream, the entry in it, the buffers. */
  datatype Extraction = Extraction(
    file: seq<byte>, offset: nat,
    streamKeys: seq<seq<byte>>, entryKeys: seq<seq<byte>>,
    streamCapacities: seq<nat>, entryCapacities: seq<nat>, capacity: nat,
    skip: nat, amount: nat)

  ghost predicate WellSet(e: Extraction) {
    && e.offset <= |e.file| && e.capacity >= 1
    && Stages(e.streamKeys, e.streamCapacities) && Stages(e.entryKeys, e.entryCapacities)
  }

  /** The filters that `source(total)` unapplies, in the order in which it unapplies them. */
  function UnappliedKeys(e: Extraction, total: bool): seq<seq<byte>> {
    Reverse(e.streamKeys) + if total then Reverse(e.entryKeys) else []
  }

  function UnappliedCapacities(e: Extraction, total: bool): seq<nat> {
    Reverse(e.streamCapacities) + if total then Reverse(e.entryCapacities) else []
  }

  /** The source that `ArchiveReadHandle::source` builds. */
  function EntrySource(e: Extraction, total: bool): Source
    requires |e.streamKeys| == |e.streamCapacities| && |e.entryKeys| == |e.entryCapacities|
  {
    var base := LazySeek(e.file, 0, e.offset, false);
    Skipper(Tower(base, UnappliedKeys(e, total), UnappliedCapacities(e, total)), e.capacity, e.skip, e.amount)
  }

  lemma UnappliedStages(e: Extraction, total: bool)
    requires WellSet(e)
    ensures Stages(UnappliedKeys(e, total), UnappliedCapacities(e, total))
  {
    KeyStreamReverse(e.streamKeys, 0);
    KeyStreamReverse(e.entryKeys, 0);
  }

  /** Undoing filters commutes with looking at one byte. */
  lemma UnappliedAt(e: Extraction, total: bool, x: seq<byte>, i: nat)
    requires WellSet(e) && i < |x|
    ensures Keys(UnappliedKeys(e, total))
    ensures XorAll(UnappliedKeys(e, total), x)[i]
         == XorByte(XorByte(x[i], KeyStream(e.streamKeys, i)), if total then KeyStream(e.entryKeys, i) else 0)
  {
    hide XorByte, KeyStream, XorAll;
    UnappliedStages(e, total);
    KeyStreamReverse(e.streamKeys, i);
    KeyStreamReverse(e.entryKeys, i);
    var tail := if total then Reverse(e.entryKeys) else [];
    KeyStreamConcat(Reverse(e.streamKeys), tail, i);
    XorAllAt(UnappliedKeys(e, total), x, i);
    NoKeys(i);
    XorByteLaws(x[i], KeyStream(e.streamKeys, i), KeyStream(tail, i));
  }

  lemma NoKeys(i: nat)
    ensures KeyStream([], i) == 0
  {
  }

  /** The stream lies in the file at its offset, whatever follows it. */
  ghost predicate Stored(e: Extraction, before: seq<byte>, entry: seq<byte>, after: seq<byte>, rest: seq<byte>)
    requires WellSet(e)
  {
    && e.skip == |before| && e.amount == |entry|
    && e.file[e.offset..] == XorAll(e.streamKeys, before + entry + after) + rest
  }

  /** In general: a slice of the rest of the file, with the filters undone from the stream's start. */
  lemma EntrySourceDenotes(e: Extraction, total: bool)
    requires WellSet(e) && e.skip + e.amount <= |e.file| - e.offset
    ensures Keys(UnappliedKeys(e, total)) && Good(EntrySource(e, total))
    ensures Denote(EntrySource(e, total)) == Slice(XorAll(UnappliedKeys(e, total), e.file[e.offset..]), e.skip, e.amount)
  {
    hide XorAll, Good, Denote, Slice;
    var base := LazySeek(e.file, 0, e.offset, false);
    LazySeekDenotes(e.file, e.offset);
    UnappliedStages(e, total);
    TowerDelivers(base, UnappliedKeys(e, total), UnappliedCapacities(e, total));
    SkipperDelivers(Tower(base, UnappliedKeys(e, total), UnappliedCapacities(e, total)), e.capacity, e.skip, e.amount);
  }

  lemma StoredByte(e: Extraction, total: bool, before: seq<byte>, entry: seq<byte>, after: seq<byte>, rest: seq<byte>, i: nat)
    requires WellSet(e) && Stored(e, before, entry, after, rest) && i < |entry|
    ensures Keys(UnappliedKeys(e, total)) && |before| + i < |e.file| - e.offset
    ensures XorAll(UnappliedKeys(e, total), e.file[e.offset..])[|before| + i]
         == XorByte(entry[i], if total then KeyStream(e.entryKeys, |before| + i) else 0)
  {
    hide XorByte, KeyStream, XorAll, Keys, UnappliedKeys;
    assert Keys(e.streamKeys) && Keys(e.entryKeys);
    var j := |before| + i;
    var plain := before + entry + after;
    var x := e.file[e.offset..];
    UnappliedAt(e, total, x, j);
    assert x[j] == XorAll(e.streamKeys, plain)[j];
    XorAllAt(e.streamKeys, plain, j);
    assert plain[j] == entry[i];
    XorByteLaws(entry[i], KeyStream(e.streamKeys, j), 0);
  }

  /** What `source(total)` delivers of a stored entry: its bytes, plus a key stream if `total`. */
  lemma EntryDelivered(e: Extraction, total: bool, before: seq<byte>, entry: seq<byte>, after: seq<byte>, rest: seq<byte>)
    requires WellSet(e) && Stored(e, before, entry, after, rest) && entry != []
    ensures Good(EntrySource(e, total)) && Bounded(EntrySource(e, total))
    ensures |Denote(EntrySource(e, total))| == |entry|
    ensures forall i :: 0 <= i < |entry| ==>
              Denote(EntrySource(e, total))[i] == XorByte(entry[i], if total then KeyStream(e.entryKeys, |before| + i) else 0)
  {
    hide XorByte, KeyStream, XorAll, Good, Denote, Keys, UnappliedKeys, EntrySource;
    assert Keys(e.streamKeys) && Keys(e.entryKeys);
    assert |e.file[e.offset..]| >= |before| + |entry|;
    EntrySourceDenotes(e, total);
    GoodIsBounded(EntrySource(e, total));
    forall i | 0 <= i < |entry|
      ensures Denote(EntrySource(e, total))[i] == XorByte(entry[i], if total then KeyStream(e.entryKeys, |before| + i) else 0)
    {
      StoredByte(e, total, before, entry, after, rest, i);
    }
  }

  lemma LazySeekDenotes(file: seq<byte>, offset: nat)
    requires offset <= |file|
    ensures var s := LazySeek(file, 0, offset, false); Good(s) && Denote(s) == file[offset..]
  {
  }

  /** Stream filters only: extraction gives exactly the filtered bytes of the entry. */
  lemma FilteredExtractionExact(e: Extraction, before: seq<byte>, entry: seq<byte>, after: seq<byte>, rest: seq<byte>)
    requires WellSet(e) && Stored(e, before, entry, after, rest) && entry != []
    ensures Good(EntrySource(e, false)) && Denote(EntrySource(e, false)) == entry
  {
    hide XorByte, KeyStream, Stored, Good, Denote;
    EntryDelivered(e, false, before, entry, after, rest);
    GoodIsBounded(EntrySource(e, false));
    forall i | 0 <= i < |entry|
      ensures Denote(EntrySource(e, false))[i] == entry[i]
    {
      XorByteLaws(entry[i], 0, 0);
    }
  }

  /** The entry's key stream repeats itself where the entry starts in the stream. */
  ghost predicate KeysAligned(keys: seq<seq<byte>>, skip: nat, amount: nat)
    requires Keys(keys)
  {
    forall i :: 0 <= i < amount ==> KeyStream(keys, skip + i) == KeyStream(keys, i)
  }

  /**
   Entry filters too: they are undone from the start of the stream, not from the start of the
   entry. So extraction gives the original bytes exactly when the key stream looks the same from
   both places.
   */
  lemma TotalExtractionExact(e: Extraction, before: seq<byte>, original: seq<byte>, after: seq<byte>, rest: seq<byte>)
    requires WellSet(e) && original != []
    requires Stored(e, before, XorAll(e.entryKeys, original), after, rest)
    ensures Good(EntrySource(e, true))
    ensures Denote(EntrySource(e, true)) == original <==> KeysAligned(e.entryKeys, |before|, |original|)
  {
    hide XorByte, KeyStream, Good, Denote, XorAll, Stored, EntrySource;
    var entry := XorAll(e.entryKeys, original);
    EntryDelivered(e, true, before, entry, after, rest);
    var d := Denote(EntrySource(e, true));
    forall i | 0 <= i < |original|
      ensures d[i] == original[i] <==> KeyStream(e.entryKeys, |before| + i) == KeyStream(e.entryKeys, i)
    {
      TwiceAt(e.entryKeys, original, i, d[i], |before| + i);
    }
  }

  lemma TwiceAt(keys: seq<seq<byte>>, x: seq<byte>, i: nat, b: byte, j: nat)
    requires Keys(keys) && i < |x| && b == XorByte(XorAll(keys, x)[i], KeyStream(keys, j))
    ensures b == x[i] <==> KeyStream(keys, j) == KeyStream(keys, i)
  {
    hide XorByte, KeyStream, XorAll;
    XorAllAt(keys, x, i);
    CancelsExactly(x[i], KeyStream(keys, i), KeyStream(keys, j));
  }

  lemma CancelsExactly(a: byte, k: byte, m: byte)
    ensures XorByte(XorByte(a, k), m) == a <==> m == k
  {
    hide XorByte;
    XorByteLaws(a, k, m);
    XorByteLaws(k, m, 0);
    XorByteLaws(a, XorByte(k, m), 0);
    XorByteLaws(XorByte(a, k), m, 0);
    XorByteLaws(m, k, 0);
    if XorByte(XorByte(a, k), m) == a {
      ZeroMeansEqual(a, k, m);
    }
  }

  lemma ZeroMeansEqual(a: byte, k: byte, m: byte)
    requires XorByte(XorByte(a, k), m) == a
    ensures m == k
  {
  }

  /** No entry filters, or the first entry of its stream: extraction is exact. */
  lemma TotalExtractionOfPlainOrFirst(e: Extraction, before: seq<byte>, original: seq<byte>, after: seq<byte>, rest: seq<byte>)
    requires WellSet(e) && original != [] && (e.entryKeys == [] || before == [])
    requires Stored(e, before, XorAll(e.entryKeys, original), after, rest)
    ensures Good(EntrySource(e, true)) && Denote(EntrySource(e, true)) == original
  {
    hide XorByte, Good, Denote, XorAll, Stored, EntrySource;
    TotalExtractionExact(e, before, original, after, rest);
  }

  /**
   An empty entry asks for 0 bytes, which means everything: extraction gives nothing exactly when
   nothing follows the entry in the file.
   */
  lemma EmptyExtractionExact(e: Extraction, total: bool, before: seq<byte>, after: seq<byte>, rest: seq<byte>)
    requires WellSet(e) && Stored(e, before, [], after, rest)
    ensures Good(EntrySource(e, total))
    ensures Denote(EntrySource(e, total)) == [] <==> after == [] && rest == []
  {
    hide XorAll, Good, Denote, EntrySource, Keys, UnappliedKeys;
    assert Keys(e.streamKeys);
    assert |e.file[e.offset..]| == |before| + |after| + |rest|;
    EntrySourceDenotes(e, total);
  }

  // ---------------------------------------------------------------------------------------
  // Where extraction fails
  // ---------------------------------------------------------------------------------------

  /** A plain stream of the file's bytes, with no filters on it. */
  function PlainExtraction(file: seq<byte>, entryKeys: seq<seq<byte>>, skip: nat, amount: nat): Extraction {
    Extraction(file, 0, [], entryKeys, [], seq(|entryKeys|, _ => 1), 1, skip, amount)
  }

  lemma TwoKeyBytes()
    ensures Keys([[1, 2]]) && KeyStream([[1, 2]], 0) == 1 && KeyStream([[1, 2]], 1) == 2 && XorByte(0, 1) == 1
  {
    var keys: seq<seq<byte>> := [[1, 2]];
    assert keys[1..] == [];
    assert KeyStream(keys[1..], 0) == 0 && KeyStream(keys[1..], 1) == 0;
  }

  /** An empty entry before one byte of something else: that byte comes out. */
  lemma EmptyExtraction(other: byte, total: bool)
    ensures var x := PlainExtraction([other], [], 0, 0);
            WellSet(x) && Stored(x, [], [], [], [other]) && Good(EntrySource(x, total)) && Denote(EntrySource(x, total)) != []
  {
    hide Good, Denote, EntrySource;
    var x := PlainExtraction([other], [], 0, 0);
    EmptyExtractionExact(x, total, [], [], [other]);
  }
}
