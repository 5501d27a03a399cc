/**
 Writing one stream of an archive (`Archive::writeStream` in src/box/archive.cpp): the sources of
 its entries, each counted, digested, filtered and counted again, one after the other through the
 stream's filters and a last counter, piped into the file.
 */
module StreamWriting {
  import opened Bytes
  import opened Filters
  import opened Streams
  import opened Chains
  import opened Extraction
  import Md5Count
  import P = Pipes
  import Transfer

  /** One entry's part of a stream: where its bytes come from, and its filters. */
  datatype Part = Part(source: Source, keys: seq<seq<byte>>, capacities: seq<nat>)

  ghost predicate PartGood(p: Part) {
    Good(p.source) && Stages(p.keys, p.capacities)
  }

  function Original(p: Part): seq<byte>
    requires Bounded(p.source)
  {
    Denote(p.source)
  }

  /** The bytes of an entry after its filters. */
  function Filtrate(p: Part): (r: seq<byte>)
    requires Bounded(p.source) && Keys(p.keys)
    ensures |r| == |Original(p)|
  {
    XorAll(p.keys, Original(p))
  }

  function PartTree(p: Part): Source
    requires |p.keys| == |p.capacities|
  {
    Counter(Tower(Digest(Counter(p.source, 0), [], []), p.keys, p.capacities), 0)
  }

  ghost predicate PartsGood(parts: seq<Part>) {
    forall i :: 0 <= i < |parts| ==> PartGood(parts[i])
  }

  function PartTrees(parts: seq<Part>): (trees: seq<Source>)
    requires forall i :: 0 <= i < |parts| ==> |parts[i].keys| == |parts[i].capacities|
    ensures |trees| == |parts| && forall i :: 0 <= i < |parts| ==> trees[i] == PartTree(parts[i])
    decreases |parts|
  {
    if parts == [] then [] else [PartTree(parts[0])] + PartTrees(parts[1..])
  }

  /** The filtered entries of a stream, one after the other. */
  function Filtrates(parts: seq<Part>): (r: seq<seq<byte>>)
    requires forall i :: 0 <= i < |parts| ==> Bounded(parts[i].source) && Keys(parts[i].keys)
    ensures |r| == |parts| && forall i :: 0 <= i < |parts| ==> r[i] == Filtrate(parts[i])
    decreases |parts|
  {
    if parts == [] then [] else [Filtrate(parts[0])] + Filtrates(parts[1..])
  }

  function StreamTree(parts: seq<Part>, keys: seq<seq<byte>>, capacities: seq<nat>): Source
    requires |keys| == |capacities|
    requires forall i :: 0 <= i < |parts| ==> |parts[i].keys| == |parts[i].capacities|
  {
    Counter(Tower(Multiple([], PartTrees(parts), true, []), keys, capacities), 0)
  }

  lemma BaseGood(p: Part)
    requires PartGood(p)
    ensures var base := Digest(Counter(p.source, 0), [], []); Good(base) && Bounded(base) && Denote(base) == Denote(p.source)
  {
    GoodIsBounded(p.source);
  }

  lemma PartTreeDelivers(p: Part)
    requires PartGood(p)
    ensures Good(PartTree(p)) && Bounded(PartTree(p)) && Denote(PartTree(p)) == Filtrate(p)
  {
    hide XorAll, Tower;
    var base := Digest(Counter(p.source, 0), [], []);
    BaseGood(p);
    TowerDelivers(base, p.keys, p.capacities);
    GoodIsBounded(Tower(base, p.keys, p.capacities));
  }

  lemma GoodPartBounded(p: Part)
    requires PartGood(p)
    ensures Bounded(p.source) && Keys(p.keys) && |p.keys| == |p.capacities|
  {
    GoodIsBounded(p.source);
  }

  lemma {:induction false} PartTreesDeliver(parts: seq<Part>)
    requires PartsGood(parts)
    ensures forall i :: 0 <= i < |parts| ==> Bounded(parts[i].source) && Keys(parts[i].keys) && |parts[i].keys| == |parts[i].capacities|
    ensures AllGood(PartTrees(parts)) && AllBounded(PartTrees(parts)) && DenoteAll(PartTrees(parts)) == Concat(Filtrates(parts))
    decreases |parts|
  {
    hide PartGood, PartTree, Filtrate, Bounded, Keys, Good, Denote;
    forall i | 0 <= i < |parts|
      ensures Bounded(parts[i].source) && Keys(parts[i].keys) && |parts[i].keys| == |parts[i].capacities|
    {
      GoodPartBounded(parts[i]);
    }
    if parts != [] {
      PartTreeDelivers(parts[0]);
      PartTreesDeliver(parts[1..]);
      var trees := PartTrees(parts);
      assert trees[1..] == PartTrees(parts[1..]);
      assert AllBounded(trees) by { AllBoundedConcat([trees[0]], trees[1..]); assert [trees[0]] + trees[1..] == trees; }
    }
  }

  /** What a stream delivers to the file. */
  lemma StreamTreeDelivers(parts: seq<Part>, keys: seq<seq<byte>>, capacities: seq<nat>)
    requires PartsGood(parts) && Stages(keys, capacities)
    ensures forall i :: 0 <= i < |parts| ==> Bounded(parts[i].source) && Keys(parts[i].keys) && |parts[i].keys| == |parts[i].capacities|
    ensures var t := StreamTree(parts, keys, capacities);
            Good(t) && Bounded(t) && Denote(t) == XorAll(keys, Concat(Filtrates(parts)))
  {
    hide XorAll, Tower, PartTrees, PartGood;
    PartTreesDeliver(parts);
    var m := Multiple([], PartTrees(parts), true, []);
    P.FreshMultipleGood(PartTrees(parts));
    TowerDelivers(m, keys, capacities);
    GoodIsBounded(StreamTree(parts, keys, capacities));
  }

  // ---------------------------------------------------------------------------------------
  // What the counters and digests say afterwards
  // ---------------------------------------------------------------------------------------

  /** The source under `n` filters. */
  function Peel(t: Source, n: nat): Source
    decreases n
  {
    if n == 0 then t
    else
      var u := Peel(t, n - 1);
      if u.Filtered? then u.inner else u
  }

  /** How much the source under a tower is asked for at most, when the tower is asked for `bound` bytes. */
  function Innermost(capacities: seq<nat>, bound: nat): nat {
    if capacities == [] then bound else capacities[0]
  }

  /** A tower at its end: what is under it has evolved from what was under it, and is at its end. */
  lemma {:induction false} PeelTower(s: Source, keys: seq<seq<byte>>, capacities: seq<nat>, t: Source, bound: nat)
    requires Good(s) && Bounded(s) && Stages(keys, capacities) && Bounded(Tower(s, keys, capacities))
    requires Bounded(t) && Good(t) && AtEnd(t) && Evolved(Tower(s, keys, capacities), t) && Within(t, bound)
    ensures var u := Peel(t, |keys|); Bounded(u) && Good(u) && AtEnd(u) && Evolved(s, u) && Within(u, Innermost(capacities, bound))
    decreases |keys|
  {
    hide Good, Bounded, AtEnd, Evolved, Denote, Within;
    if keys != [] {
      var f := FreshXor(capacities[0], keys[0]);
      FreshXorGood(s, keys[0], capacities[0]);
      GoodIsBounded(Filtered(s, f));
      PeelTower(Filtered(s, f), keys[1..], capacities[1..], t, bound);
      PeelOne(s, f, Peel(t, |keys| - 1), Innermost(capacities[1..], bound));
    }
  }

  lemma PeelOne(s: Source, f: Filter, u: Source, bound: nat)
    requires Bounded(s) && Bounded(Filtered(s, f)) && Bounded(u) && Good(u) && AtEnd(u) && Evolved(Filtered(s, f), u) && Within(u, bound)
    ensures u.Filtered? && Bounded(u.inner) && Good(u.inner) && AtEnd(u.inner) && Evolved(s, u.inner) && Within(u.inner, f.capacity)
  {
  }

  /** What an entry's record is filled from, once its stream is written. */
  datatype Measured = Measured(filteredSize: nat, size: nat, digested: seq<byte>, pieces: seq<nat>)

  /** The counters and the digester of an entry's tree. */
  function Measure(t: Source, n: nat): Measured
  {
    if t.Counter? then
      var u := Peel(t.inner, n);
      if u.Digest? && u.inner.Counter? then Measured(t.count, u.inner.count, u.digested, u.pieces) else Measured(t.count, 0, [], [])
    else Measured(0, 0, [], [])
  }

  /** The bytes `x` of an entry are counted and digested, in pieces of at most `bound` bytes. */
  predicate MeasureOf(m: Measured, x: seq<byte>, bound: nat) {
    m.filteredSize == m.size == |x| && m.digested == x && Total(m.pieces) == |x| && AtMost(m.pieces, bound)
  }

  lemma MeasuredPart(p: Part, t: Source, bound: nat)
    requires PartGood(p) && Bounded(PartTree(p)) && Bounded(t) && Good(t) && AtEnd(t) && Evolved(PartTree(p), t) && Within(t, bound)
    ensures Bounded(p.source)
    ensures MeasureOf(Measure(t, |p.keys|), Original(p), Innermost(p.capacities, bound))
  {
    hide Tower, XorAll, Peel;
    GoodPartBounded(p);
    PartTreeDelivers(p);
    BaseGood(p);
    var base := Digest(Counter(p.source, 0), [], []);
    CounterBounded(Tower(base, p.keys, p.capacities));
    CounterAtEnd(Tower(base, p.keys, p.capacities), t);
    PeelTower(base, p.keys, p.capacities, t.inner, bound);
    var u := Peel(t.inner, |p.keys|);
    DigestAtEnd(Counter(p.source, 0), u);
    CounterAtEnd(p.source, u.inner);
  }

  lemma CounterAtEnd(s: Source, t: Source)
    requires Bounded(s) && Bounded(t) && Good(t) && AtEnd(t) && Evolved(Counter(s, 0), t)
    ensures t.Counter? && Bounded(t.inner) && Good(t.inner) && AtEnd(t.inner) && Evolved(s, t.inner) && t.count == |Denote(s)|
  {
    EndDenotesNothing(t.inner);
  }

  lemma DigestAtEnd(s: Source, t: Source)
    requires Bounded(s) && Bounded(t) && Good(t) && AtEnd(t) && Evolved(Digest(s, [], []), t)
    ensures t.Digest? && Bounded(t.inner) && Good(t.inner) && AtEnd(t.inner) && Evolved(s, t.inner) && t.digested == Denote(s)
    ensures Total(t.pieces) == |Denote(s)|
  {
    EndDenotesNothing(t.inner);
    assert t.digested == t.digested + Denote(t.inner);
    assert [] + Denote(s) == Denote(s);
  }

  lemma MultipleAtEnd(sources: seq<Source>, t: Source)
    requires AllBounded(sources) && Bounded(t) && Good(t) && AtEnd(t) && Evolved(Multiple([], sources, true, []), t)
    ensures t.Multiple? && t.rest == [] && AllBounded(t.done) && |t.done| == |sources|
    ensures forall i :: 0 <= i < |sources| ==> Good(t.done[i]) && AtEnd(t.done[i]) && Evolved(sources[i], t.done[i])
  {
    assert t.done[0..] + t.rest == t.done;
    P.AllEvolvedLength(sources, t.done);
    AllEvolvedEach(sources, t.done);
  }

  lemma {:induction false} AllEvolvedEach(s: seq<Source>, t: seq<Source>)
    requires AllBounded(s) && AllBounded(t) && AllEvolved(s, t)
    ensures |s| == |t| && forall i :: 0 <= i < |s| ==> Evolved(s[i], t[i])
    decreases s
  {
    hide Evolved;
    if s != [] {
      AllEvolvedEach(s[1..], t[1..]);
      forall i | 0 <= i < |s|
        ensures Evolved(s[i], t[i])
      {
        if i > 0 {
          assert s[i] == s[1..][i - 1] && t[i] == t[1..][i - 1];
        }
      }
    }
  }

  /** What is read off the tree once the pipe is closed. */
  datatype Report = Report(data: seq<byte>, length: nat, measured: seq<Measured>)

  /** The largest piece that the digester of a part may be given. */
  function PartBound(p: Part, capacities: seq<nat>, bufferSize: nat): nat {
    Innermost(p.capacities, Innermost(capacities, bufferSize))
  }

  /** The report that the written bytes call for. */
  ghost predicate Reports(r: Report, parts: seq<Part>, keys: seq<seq<byte>>, capacities: seq<nat>, bufferSize: nat)
    requires Keys(keys)
    requires forall i :: 0 <= i < |parts| ==> Bounded(parts[i].source) && Keys(parts[i].keys)
  {
    && r.data == XorAll(keys, Concat(Filtrates(parts))) && r.length == |r.data| && |r.measured| == |parts|
    && forall i :: 0 <= i < |parts| ==> MeasureOf(r.measured[i], Original(parts[i]), PartBound(parts[i], capacities, bufferSize))
  }

  lemma StreamMeasured(parts: seq<Part>, keys: seq<seq<byte>>, capacities: seq<nat>, t: Source, bound: nat)
    requires PartsGood(parts) && Stages(keys, capacities)
    requires forall i :: 0 <= i < |parts| ==> Bounded(parts[i].source) && Keys(parts[i].keys) && |parts[i].keys| == |parts[i].capacities|
    requires Bounded(StreamTree(parts, keys, capacities)) && Bounded(t) && Good(t) && AtEnd(t)
    requires Evolved(StreamTree(parts, keys, capacities), t) && Within(t, bound)
    ensures t.Counter? && t.count == |XorAll(keys, Concat(Filtrates(parts)))|
    ensures var m := Peel(t.inner, |keys|);
            m.Multiple? && |m.done| == |parts|
            && forall i :: 0 <= i < |parts| ==>
                 MeasureOf(Measure(m.done[i], |parts[i].keys|), Original(parts[i]), PartBound(parts[i], capacities, bound))
  {
    hide Tower, XorAll, Peel, Good, AtEnd, Evolved, Denote, Bounded, Measure, Original, PartGood, PartTree, Filtrates, MeasureOf;
    var m0 := Multiple([], PartTrees(parts), true, []);
    PartTreesDeliver(parts);
    StreamTreeDelivers(parts, keys, capacities);
    CounterBounded(Tower(m0, keys, capacities));
    CounterAtEnd(Tower(m0, keys, capacities), t);
    CounterDenotes(Tower(m0, keys, capacities));
    P.FreshMultipleGood(PartTrees(parts));
    GoodIsBounded(m0);
    PeelTower(m0, keys, capacities, t.inner, bound);
    var m := Peel(t.inner, |keys|);
    MultipleAtEnd(PartTrees(parts), m);
    forall i | 0 <= i < |parts|
      ensures MeasureOf(Measure(m.done[i], |parts[i].keys|), Original(parts[i]), PartBound(parts[i], capacities, bound))
    {
      assert Bounded(m.done[i]) && Bounded(PartTrees(parts)[i]);
      MeasuredPart(parts[i], m.done[i], Innermost(capacities, bound));
    }
  }

  lemma CounterBounded(s: Source)
    ensures Bounded(Counter(s, 0)) <==> Bounded(s)
  {
  }

  lemma CounterDenotes(s: Source)
    requires Bounded(s)
    ensures Bounded(Counter(s, 0)) && Denote(Counter(s, 0)) == Denote(s)
  {
  }

  /** Nothing is digested yet. */
  lemma {:induction false} TowerWithin(s: Source, keys: seq<seq<byte>>, capacities: seq<nat>, bound: nat)
    requires |keys| == |capacities| && Within(s, Innermost(capacities, bound))
    ensures Within(Tower(s, keys, capacities), bound)
    decreases |keys|
  {
    if keys != [] {
      TowerWithin(Filtered(s, FreshXor(capacities[0], keys[0])), keys[1..], capacities[1..], bound);
    }
  }

  lemma StreamTreeWithin(parts: seq<Part>, keys: seq<seq<byte>>, capacities: seq<nat>, bound: nat)
    requires |keys| == |capacities|
    requires forall i :: 0 <= i < |parts| ==> |parts[i].keys| == |parts[i].capacities|
    ensures Within(StreamTree(parts, keys, capacities), bound)
  {
    hide Tower;
    var inner := Innermost(capacities, bound);
    forall i | 0 <= i < |parts|
      ensures Within(PartTree(parts[i]), inner)
    {
      TowerWithin(Digest(Counter(parts[i].source, 0), [], []), parts[i].keys, parts[i].capacities, inner);
    }
    TowerWithin(Multiple([], PartTrees(parts), true, []), keys, capacities, bound);
  }

  /** One entry without filters, in a stream without filters, before anything is read, and once all of it is read. */
  function PlainEntry(x: seq<byte>): Source {
    StreamTree([Part(Buffer(x, 0), [], [])], [], [])
  }

  function PlainEntryRead(x: seq<byte>): Source {
    Counter(Multiple([], [Counter(Digest(Counter(Buffer(x, |x|), |x|), x, [|x|]), |x|)], false, [Begin(0)]), |x|)
  }

  /** A buffer as large as the entry: the digester is given all of it at once. */
  lemma PlainEntryInOnePiece(x: seq<byte>, bufferSize: nat)
    requires 0 < |x| <= bufferSize
    ensures Bounded(PlainEntry(x)) && Read(PlainEntry(x), bufferSize) == (PlainEntryRead(x), Data(x))
  {
    hide Read, ReadList, Tower;
    var base := Counter(Digest(Counter(Buffer(x, 0), 0), [], []), 0);
    NoTower(Digest(Counter(Buffer(x, 0), 0), [], []));
    var list := [base];
    assert PartTrees([Part(Buffer(x, 0), [], [])]) == list;
    NoTower(Multiple([], list, true, []));
    assert PlainEntry(x) == Counter(Multiple([], list, true, []), 0);
    EntryRead(x, bufferSize);
    ListOfOne(base, Counter(Digest(Counter(Buffer(x, |x|), |x|), x, [|x|]), |x|), bufferSize, x);
    CounterRead(Multiple([], list, true, []), bufferSize, x);
  }

  lemma NoTower(s: Source)
    ensures Tower(s, [], []) == s
  {
  }

  lemma CounterRead(s: Source, amount: nat, x: seq<byte>)
    requires Bounded(s) && Read(s, amount).1 == Data(x)
    ensures Bounded(Counter(s, 0)) && Read(Counter(s, 0), amount) == (Counter(Read(s, amount).0, |x|), Data(x))
  {
  }

  lemma EntryRead(x: seq<byte>, amount: nat)
    requires 0 < |x| <= amount
    ensures var base := Counter(Digest(Counter(Buffer(x, 0), 0), [], []), 0);
            Bounded(base) && Read(base, amount) == (Counter(Digest(Counter(Buffer(x, |x|), |x|), x, [|x|]), |x|), Data(x))
  {
    var s := Buffer(x, 0);
    assert x[0..0 + |x|] == x;
    assert Read(s, amount) == (Buffer(x, |x|), Data(x));
    CounterRead(s, amount, x);
    var c := Counter(s, 0);
    assert [] + x == x && [] + [|x|] == [|x|];
    assert Read(Digest(c, [], []), amount) == (Digest(Counter(Buffer(x, |x|), |x|), x, [|x|]), Data(x));
    CounterRead(Digest(c, [], []), amount, x);
  }

  lemma ListOfOne(s: Source, t: Source, amount: nat, x: seq<byte>)
    requires Bounded(s) && Read(s, amount) == (t, Data(x))
    ensures var m := Multiple([], [s], true, []);
            Bounded(m) && Read(m, amount) == (Multiple([], [t], false, [Begin(0)]), Data(x))
  {
    var list := [s];
    assert list[1..] == [] && [t] + list[1..] == [t];
    var l := ReadList(list, 0, true, amount);
    assert l == ListRead([], [t], false, [Begin(0)], Data(x));
    var done: seq<Source> := [];
    var events: seq<Event> := [];
    assert done + l.finished == done && events + l.events == [Begin(0)];
    assert Read(Multiple(done, list, true, events), amount) == (Multiple(done + l.finished, l.rest, l.pristine, events + l.events), l.result);
  }

  /** With 2^29 bytes, the digester's counter is wrong then. */
  lemma LongPieceMiscounted(x: seq<byte>, bufferSize: nat)
    requires |x| == Md5Count.TWO29 <= bufferSize
    ensures Bounded(PlainEntry(x)) && Read(PlainEntry(x), bufferSize) == (PlainEntryRead(x), Data(x))
    ensures !Md5Count.Right(Md5Count.CountAll([|x|]), |x|)
  {
    hide Read, Bounded;
    PlainEntryInOnePiece(x, bufferSize);
    Md5Count.CounterFails();
  }

  /** A pipe from a good source into memory: what arrives, and how the source ends up. */
  method PipeToMemory(tree: Source, bufferSize: nat) returns (data: seq<byte>, t: Source)
    requires Good(tree) && bufferSize >= 1
    ensures Bounded(tree) && data == Denote(tree)
    ensures Good(t) && Bounded(t) && AtEnd(t) && Evolved(tree, t) && (Within(tree, bufferSize) ==> Within(t, bufferSize))
  {
    hide P.Process, Good, Bounded, AtEnd, Evolved, Denote, Within;
    ghost var p := P.Pipe(tree, P.Memory([]), [], bufferSize, P.Open);
    GoodIsBounded(tree);
    P.CopyIsExact(tree, bufferSize);
    P.ProcessDelivers(p);
    P.ProcessEvolves(p);
    if Within(tree, bufferSize) {
      P.ProcessWithin(p);
    }
    var pipe := new Transfer.PassthroughPipe(tree, P.Memory([]), bufferSize);
    assert pipe.Model() == p;
    pipe.Process();
    data, t := P.Received(pipe.sink), pipe.source;
    ProcessedGood(P.Process(p));
  }

  lemma ProcessedGood(p: P.Pipe)
    requires P.PipeGood(p)
    ensures Good(p.source) && Bounded(p.source)
  {
    GoodIsBounded(p.source);
  }

  /**
   `writeStream`: builds the tree, pipes it out and reads counters and digests off it. What comes
   out is every entry through its own filters, one after the other, through the stream's filters;
   and every counter and digester has seen exactly the bytes it stands for, the digester in pieces
   of at most what the buffer nearest to it holds.
   */
  method WriteParts(parts: seq<Part>, keys: seq<seq<byte>>, capacities: seq<nat>, bufferSize: nat) returns (report: Report)
    requires PartsGood(parts) && Stages(keys, capacities) && bufferSize >= 1
    ensures forall i :: 0 <= i < |parts| ==> Bounded(parts[i].source) && Keys(parts[i].keys)
    ensures Reports(report, parts, keys, capacities, bufferSize)
  {
    hide Good, Bounded, AtEnd, Evolved, Denote, PartGood, StreamTree, Measure, Original, XorAll, Filtrates, Keys, Peel, Within, MeasureOf;
    StreamTreeDelivers(parts, keys, capacities);
    assert |keys| == |capacities|;
    StreamTreeWithin(parts, keys, capacities, bufferSize);
    var data, t := PipeToMemory(StreamTree(parts, keys, capacities), bufferSize);
    StreamMeasured(parts, keys, capacities, t, bufferSize);
    var m := Peel(t.inner, |keys|);
    var measured: seq<Measured> := [];
    for i := 0 to |parts|
      invariant |measured| == i
      invariant forall j :: 0 <= j < i ==> MeasureOf(measured[j], Original(parts[j]), PartBound(parts[j], capacities, bufferSize))
    {
      measured := measured + [Measure(m.done[i], |parts[i].keys|)];
    }
    report := Report(data, t.count, measured);
  }
}
