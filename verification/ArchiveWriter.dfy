/**
 Writing an archive (`Archive::write` and what it calls in src/box/archive.cpp). Sections are
 written one behind the other; the tables, the payloads and the header are reserved first and
 filled in place once everything they say is known.
 */
module ArchiveWriter {
  import opened Bytes
  import opened Records
  import opened Buffers
  import opened FilterQueue
  import opened Segments
  import opened ArchiveLayout
  import opened StreamWriting
  import Chains
  import Crc32
  import DigestFilter
  import Extraction
  import Mapping
  import Md5Count
  import Md5Digester
  import Md5Standard
  import Sha1Standard
  import Streams

  // ---------------------------------------------------------------------------------------
  // Reserving, and filling what is reserved
  // ---------------------------------------------------------------------------------------

  /** The buffer holds the parts, one behind the other. */
  ghost predicate Holds(w: MemoryBuffer, parts: seq<seq<byte>>)
    reads w, w.data
  {
    w.Valid() && w.Contents() == Concat(parts)
  }

  ghost predicate Growing(w: MemoryBuffer, parts: seq<seq<byte>>)
    reads w, w.data
  {
    Holds(w, parts) && w.position == w.size
  }

  /** One more part of `n` bytes; what they are is settled later. */
  method ReservePart(w: MemoryBuffer, n: nat, ghost parts: seq<seq<byte>>) returns (at: nat, ghost after: seq<seq<byte>>)
    requires Growing(w, parts)
    modifies w, w.data
    ensures Growing(w, after) && (w.data == old(w.data) || fresh(w.data))
    ensures |after| == |parts| + 1 && after[..|parts|] == parts && |after[|parts|]| == n
    ensures at == Start(after, |parts|)
  {
    at := w.position;
    ghost var reserved := w.Reserve(n);
    ConcatAppend(parts, reserved);
    after := parts + [reserved];
  }

  /** One more part with the given bytes. */
  method AddPart(w: MemoryBuffer, bytes: seq<byte>, ghost parts: seq<seq<byte>>) returns (at: nat)
    requires Growing(w, parts)
    modifies w, w.data
    ensures Growing(w, parts + [bytes]) && (w.data == old(w.data) || fresh(w.data))
    ensures at == |Concat(parts)|
  {
    at := w.position;
    Append(w, bytes);
    ConcatAppend(parts, bytes);
  }

  /** Writing inside part `k`, whatever the position; as `data_reference::write` does. */
  method PatchPart(w: MemoryBuffer, ghost parts: seq<seq<byte>>, ghost k: nat, ghost offset: nat, at: nat, bytes: seq<byte>)
    requires Holds(w, parts) && k < |parts| && offset + |bytes| <= |parts[k]| && at == Start(parts, k) + offset
    modifies w, w.data
    ensures Holds(w, parts[k := Overwrite(parts[k], offset, bytes, [])]) && (w.data == old(w.data) || fresh(w.data))
    ensures |Overwrite(parts[k], offset, bytes, [])| == |parts[k]|
  {
    hide Concat, Overwrite;
    OverwriteInside(parts, k, offset, bytes);
    WriteBack(w, at, bytes);
  }

  /** Writing at the position, which is inside part `k`. */
  method WriteInside(w: MemoryBuffer, ghost parts: seq<seq<byte>>, ghost k: nat, ghost offset: nat, bytes: seq<byte>)
    requires Holds(w, parts) && k < |parts| && offset + |bytes| <= |parts[k]| && w.position == Start(parts, k) + offset
    modifies w, w.data
    ensures Holds(w, parts[k := Overwrite(parts[k], offset, bytes, [])]) && (w.data == old(w.data) || fresh(w.data))
    ensures |Overwrite(parts[k], offset, bytes, [])| == |parts[k]| && w.position == old(w.position) + |bytes|
  {
    hide Concat, Overwrite;
    OverwriteInside(parts, k, offset, bytes);
    ghost var gap := w.Write(bytes);
  }

  lemma OverwriteNothing(x: seq<byte>)
    ensures Overwrite(x, 0, [], []) == x
  {
  }

  /** Filling part `k`, an array of records of one width, record by record. */
  method FillPart(w: MemoryBuffer, at: nat, records: seq<seq<byte>>, width: nat, ghost parts: seq<seq<byte>>, ghost k: nat)
    requires Holds(w, parts) && k < |parts| && at == Start(parts, k) && |parts[k]| == width * |records|
    requires forall i :: 0 <= i < |records| ==> |records[i]| == width
    modifies w, w.data
    ensures Holds(w, parts[k := Concat(records)]) && (w.data == old(w.data) || fresh(w.data))
  {
    hide Concat, Overwrite;
    ghost var block := parts[k];
    assert parts[k := block] == parts;
    EmptyPrefix(records, block);
    EqualParts(records, width);
    for i := 0 to |records|
      invariant w.data == old(w.data) || fresh(w.data)
      invariant Holds(w, parts[k := block]) && |block| == |parts[k]| && Start(records, i) <= |block|
      invariant block[..Start(records, i)] == Concat(records[..i])
    {
      EqualStart(records, width, i);
      PartAt(records, i);
      OverwriteNext(block, records, i);
      SameLengthStart(parts, k, block);
      PatchPart(w, parts[k := block], k, Start(records, i), at + width * i, records[i]);
      ghost var next := Overwrite(block, Start(records, i), records[i], []);
      assert parts[k := block][k := next] == parts[k := next];
      block := next;
    }
    WholeStart(records);
    assert records[..|records|] == records;
    assert block == block[..|block|];
  }

  lemma EmptyPrefix(records: seq<seq<byte>>, block: seq<byte>)
    ensures Start(records, 0) == 0 && block[..0] == Concat(records[..0])
  {
    assert records[..0] == [];
  }

  lemma SameLengthStart(parts: seq<seq<byte>>, k: nat, block: seq<byte>)
    requires k < |parts| && |block| == |parts[k]|
    ensures forall i :: 0 <= i <= |parts| ==> Start(parts[k := block], i) == Start(parts, i)
  {
    hide Start;
    forall i | 0 <= i <= |parts|
      ensures Start(parts[k := block], i) == Start(parts, i)
    {
      SameStart(parts[k := block], parts, i);
    }
  }

  /**
   Filling part `k` with payloads, each at its own place: a seek and a write, which leave the position
   behind the last payload. An empty payload has place 0, where nothing is written.
   */
  method FillPayloads(w: MemoryBuffer, places: seq<nat>, queues: seq<seq<Builder>>, ghost parts: seq<seq<byte>>, ghost k: nat)
    requires Holds(w, parts) && k < |parts| && |places| == |queues|
    requires |parts[k]| == |Concat(Payloads(queues))|
    requires forall i :: 0 <= i < |queues| ==> places[i] == PlaceOf(Start(parts, k), Payloads(queues), i)
    modifies w, w.data
    ensures Holds(w, parts[k := Concat(Payloads(queues))]) && (w.data == old(w.data) || fresh(w.data))
    ensures w.position == if queues == [] then old(w.position) else places[|queues| - 1] + |QueuePayload(queues[|queues| - 1])|
  {
    hide Concat, Overwrite, QueuePayload;
    ghost var payloads, block := Payloads(queues), parts[k];
    assert parts[k := block] == parts;
    EmptyPrefix(payloads, block);
    WholeStart(payloads);
    for i := 0 to |queues|
      invariant w.data == old(w.data) || fresh(w.data)
      invariant Holds(w, parts[k := block]) && |block| == |parts[k]| && Start(payloads, i) <= |block|
      invariant block[..Start(payloads, i)] == Concat(payloads[..i])
      invariant w.position == if i == 0 then old(w.position) else places[i - 1] + |payloads[i - 1]|
    {
      var queue := new Queue(queues[i]);
      var payload := queue.Payload();
      var bytes := payload.Peek(payload.size);
      assert bytes == payload.Contents() == payloads[i];
      PartAt(payloads, i);
      w.Seek(places[i], FromStart);
      if |bytes| > 0 {
        OverwriteNext(block, payloads, i);
        SameLengthStart(parts, k, block);
        WriteInside(w, parts[k := block], k, Start(payloads, i), bytes);
        ghost var next := Overwrite(block, Start(payloads, i), bytes, []);
        assert parts[k := block][k := next] == parts[k := next];
        block := next;
      } else {
        NothingMore(payloads, i);
        OverwriteNothing(w.Contents());
        ghost var gap := w.Write(bytes);
      }
    }
    assert payloads[..|payloads|] == payloads;
    assert block == block[..|block|];
  }

  lemma NothingMore(payloads: seq<seq<byte>>, i: nat)
    requires i < |payloads| && payloads[i] == []
    ensures Concat(payloads[..i + 1]) == Concat(payloads[..i])
  {
    assert payloads[..i + 1] == payloads[..i] + [payloads[i]];
    ConcatAppend(payloads[..i], payloads[i]);
  }

  /** An iteration of the map, in whatever order. */
  method IterationOrder(headers: map<nat, SectionHeader>) returns (order: seq<nat>)
    ensures Permutation(order, headers)
  {
    order := [];
    var left := headers.Keys;
    while left != {}
      invariant left <= headers.Keys
      invariant forall i, j :: 0 <= i < j < |order| ==> order[i] != order[j]
      invariant forall k :: k in order <==> k in headers && k !in left
      decreases |left|
    {
      var k :| k in left;
      order := order + [k];
      left := left - {k};
    }
  }

  // ---------------------------------------------------------------------------------------
  // What an archive draws on
  // ---------------------------------------------------------------------------------------

  datatype Options = Options(bufferSize: nat, crc32: bool, md5: bool, sha1: bool, globalChecksum: bool, digesterBuffer: nat)

  /** Where an entry's bytes come from, and the buffer sizes of its filters. */
  datatype Supply = Supply(source: Streams.Source, buffers: seq<nat>)

  predicate AllXor(filters: seq<Builder>) {
    forall i :: 0 <= i < |filters| ==> filters[i].XorFilter?
  }

  function KeysOf(filters: seq<Builder>): (keys: seq<seq<byte>>)
    requires AllXor(filters)
    ensures |keys| == |filters|
  {
    seq(|filters|, i requires 0 <= i < |filters| => filters[i].key)
  }

  ghost predicate Supplied(item: Item, supply: Supply) {
    && AllXor(item.filters) && Extraction.Stages(KeysOf(item.filters), supply.buffers)
    && Streams.Good(supply.source) && Streams.Bounded(supply.source) && Sha1Standard.Short(|Streams.Denote(supply.source)|)
  }

  ghost predicate Equipped(chunk: Chunk, buffers: seq<nat>) {
    AllXor(chunk.filters) && Extraction.Stages(KeysOf(chunk.filters), buffers)
  }

  function PlaceIn(e: Entry): Mapping.Place {
    Mapping.Place(e.stream, e.indexInStream)
  }

  function Places(items: seq<Item>): (r: seq<Mapping.Place>)
    ensures |r| == |items|
  {
    seq(|items|, i requires 0 <= i < |items| => PlaceIn(items[i].binary))
  }

  function Lists(chunks: seq<Chunk>): (r: seq<seq<int>>)
    ensures |r| == |chunks|
  {
    seq(|chunks|, s requires 0 <= s < |chunks| => chunks[s].entries)
  }

  /** The largest piece that the digester of an entry may be given: what the buffer nearest to it holds. */
  function PieceBound(item: Item, supply: Supply, chunkBuffers: seq<seq<nat>>, o: Options): nat {
    var s := item.binary.stream;
    Innermost(supply.buffers, Innermost(if 0 <= s < |chunkBuffers| then chunkBuffers[s] else [], o.bufferSize))
  }

  /** No piece of an entry's bytes reaches `limit`. */
  ghost predicate PiecesShort(item: Item, supply: Supply, chunkBuffers: seq<seq<nat>>, o: Options, limit: nat) {
    Streams.Bounded(supply.source) && (PieceBound(item, supply, chunkBuffers, o) < limit || |Streams.Denote(supply.source)| < limit)
  }

  /**
   Everything has its supply, and every entry is listed once, at the place its record names. The MD5
   digester needs pieces on which its loop comes to an end.
   */
  ghost predicate Ready(items: seq<Item>, supplies: seq<Supply>, chunks: seq<Chunk>, chunkBuffers: seq<seq<nat>>, o: Options) {
    && |items| == |supplies| && |chunks| == |chunkBuffers| && o.bufferSize >= 1 && o.digesterBuffer >= 1
    && ItemsFit(items)
    && (forall i :: 0 <= i < |items| ==> Supplied(items[i], supplies[i]))
    && (forall s :: 0 <= s < |chunks| ==> Equipped(chunks[s], chunkBuffers[s]))
    && (o.md5 ==> forall i :: 0 <= i < |items| ==> PiecesShort(items[i], supplies[i], chunkBuffers, o, Md5Count.TWO32 - 64))
    && Mapping.Bijection(Places(items), |items|, Lists(chunks))
  }

  function Word(c: bv32): (n: nat)
    ensures n < 0x1_0000_0000
  {
    c as nat
  }

  function Crc32Of(x: seq<byte>): nat { Word(Crc32.Checksum(0, x)) }

  function Md5Of(x: seq<byte>): nat { Number(Md5Standard.Md5(x)) }

  /** What the digester says once it has been given `x` in pieces of the given lengths. */
  function Md5From(x: seq<byte>, pieces: seq<nat>): nat { Number(Md5Digester.FinalDigest(x, Md5Count.CountAll(pieces))) }

  function Sha1Of(x: seq<byte>): nat
    requires Sha1Standard.Short(|x|)
  {
    Number(Sha1Standard.Sha1(x))
  }

  /** An entry's record once its stream is written: sizes, and the digests that are enabled. */
  function Recorded(e: Entry, m: Measured, o: Options): Entry
    requires Sha1Standard.Short(|m.digested|)
  {
    e.(filteredSize := m.filteredSize,
       digest := DigestInfo(m.size,
                            if o.crc32 then Crc32Of(m.digested) else e.digest.crc32,
                            if o.md5 then Md5From(m.digested, m.pieces) else e.digest.md5,
                            if o.sha1 then Sha1Of(m.digested) else e.digest.sha1))
  }

  /** What is measured of a source: everything it delivers. */
  function MeasuredOf(x: seq<byte>, pieces: seq<nat>): Measured { Measured(|x|, |x|, x, pieces) }

  function PartOf(filters: seq<Builder>, supply: Supply): Part
    requires AllXor(filters)
  {
    Part(supply.source, KeysOf(filters), supply.buffers)
  }

  ghost predicate Listed(entries: seq<int>, n: nat) {
    forall i :: 0 <= i < |entries| ==> 0 <= entries[i] < n
  }

  /** The parts of a stream. */
  ghost function PartsOf(items: seq<Item>, supplies: seq<Supply>, entries: seq<int>): (r: seq<Part>)
    requires |items| == |supplies| && Listed(entries, |items|)
    requires forall i :: 0 <= i < |items| ==> Supplied(items[i], supplies[i])
    ensures |r| == |entries|
  {
    seq(|entries|, i requires 0 <= i < |entries| =>
          assert Supplied(items[entries[i]], supplies[entries[i]]); PartOf(items[entries[i]].filters, supplies[entries[i]]))
  }

  /** What stream `s` delivers to the file: its entries through their filters, and then through its own. */
  ghost function Delivered(items: seq<Item>, supplies: seq<Supply>, chunk: Chunk): seq<byte>
    requires |items| == |supplies| && Listed(chunk.entries, |items|) && AllXor(chunk.filters) && Chains.Keys(KeysOf(chunk.filters))
    requires forall i :: 0 <= i < |items| ==> Supplied(items[i], supplies[i])
  {
    SuppliedParts(items, supplies, chunk.entries);
    Chains.XorAll(KeysOf(chunk.filters), Concat(Filtrates(PartsOf(items, supplies, chunk.entries))))
  }

  lemma SuppliedParts(items: seq<Item>, supplies: seq<Supply>, entries: seq<int>)
    requires |items| == |supplies| && Listed(entries, |items|)
    requires forall i :: 0 <= i < |items| ==> Supplied(items[i], supplies[i])
    ensures PartsGood(PartsOf(items, supplies, entries))
    ensures forall i :: 0 <= i < |entries| ==>
              Streams.Bounded(PartsOf(items, supplies, entries)[i].source) && Chains.Keys(PartsOf(items, supplies, entries)[i].keys)
  {
    forall i | 0 <= i < |entries|
      ensures PartGood(PartsOf(items, supplies, entries)[i])
      ensures Streams.Bounded(PartsOf(items, supplies, entries)[i].source) && Chains.Keys(PartsOf(items, supplies, entries)[i].keys)
    {
      assert Supplied(items[entries[i]], supplies[entries[i]]);
    }
  }

  /** Only records have changed, and not in what says where an entry belongs. */
  ghost predicate SameItems(a: seq<Item>, b: seq<Item>) {
    |a| == |b| && forall i :: 0 <= i < |a| ==> SameItem(a[i], b[i])
  }

  ghost predicate SameItem(a: Item, b: Item) {
    && a.name == b.name && a.filters == b.filters
    && a.binary.stream == b.binary.stream && a.binary.indexInStream == b.binary.indexInStream
    && a.binary.timestamp == b.binary.timestamp
  }

  ghost predicate SameChunks(a: seq<Chunk>, b: seq<Chunk>) {
    |a| == |b| && forall s :: 0 <= s < |a| ==> a[s].entries == b[s].entries && a[s].filters == b[s].filters
  }

  lemma StaysReady(a: seq<Item>, b: seq<Item>, c: seq<Chunk>, d: seq<Chunk>, supplies: seq<Supply>, chunkBuffers: seq<seq<nat>>, o: Options)
    requires Ready(a, supplies, c, chunkBuffers, o) && SameItems(a, b) && SameChunks(c, d)
    ensures Ready(b, supplies, d, chunkBuffers, o)
  {
    hide Extraction.Stages, Streams.Good, Streams.Bounded, Streams.Denote;
    assert Places(a) == Places(b);
    assert Lists(c) == Lists(d);
    forall i | 0 <= i < |b|
      ensures Supplied(b[i], supplies[i])
    {
      assert Supplied(a[i], supplies[i]) && SameItem(a[i], b[i]);
    }
    forall s | 0 <= s < |d|
      ensures Equipped(d[s], chunkBuffers[s])
    {
      assert Equipped(c[s], chunkBuffers[s]);
    }
    forall i | 0 <= i < |b|
      ensures SignedFit(b[i].binary)
      ensures o.md5 ==> PiecesShort(b[i], supplies[i], chunkBuffers, o, Md5Count.TWO32 - 64)
    {
      assert SameItem(a[i], b[i]);
      assert o.md5 ==> PiecesShort(a[i], supplies[i], chunkBuffers, o, Md5Count.TWO32 - 64);
    }
  }

  // ---------------------------------------------------------------------------------------
  // The archive
  // ---------------------------------------------------------------------------------------

  class Archive {
    var options: Options
    var header: Header
    var items: seq<Item>
    var supplies: seq<Supply>
    var chunks: seq<Chunk>
    var chunkBuffers: seq<seq<nat>>
    var headers: map<nat, SectionHeader>

    ghost predicate Valid()
      reads this
    {
      header.magic == MAGIC && Ready(items, supplies, chunks, chunkBuffers, options)
    }

    /** Places the entries' payloads one behind the other from `base` on. */
    method PlaceItemPayloads(base: nat) returns (length: nat)
      modifies this`items
      ensures |items| == |old(items)| && length == |Concat(Payloads(ItemFilters(old(items))))|
      ensures forall i :: 0 <= i < |items| ==> items[i] == WithPayload(old(items), base, i)
    {
      hide QueuePayload, PlaceOf;
      ghost var payloads := Payloads(ItemFilters(items));
      length := 0;
      EmptyPrefix(payloads, []);
      for i := 0 to |items|
        invariant |items| == |old(items)| && length == Start(payloads, i)
        invariant forall j :: 0 <= j < i ==> items[j] == WithPayload(old(items), base, j)
        invariant forall j :: i <= j < |items| ==> items[j] == old(items)[j]
      {
        PartAt(payloads, i);
        PlaceIs(base, payloads, i);
        var item := items[i];
        var payloadLength := QueuePayloadLength(item.filters);
        assert payloadLength == |payloads[i]|;
        var place := if payloadLength > 0 then base + length else 0;
        items := items[i := item.(binary := item.binary.(payload := place, payloadLength := payloadLength))];
        length := length + payloadLength;
      }
      WholeStart(payloads);
    }

    /** The same for the streams. */
    method PlaceChunkPayloads(base: nat) returns (length: nat)
      modifies this`chunks
      ensures |chunks| == |old(chunks)| && length == |Concat(Payloads(ChunkFilters(old(chunks))))|
      ensures forall s :: 0 <= s < |chunks| ==> chunks[s] == ChunkWithPayload(old(chunks), base, s)
    {
      hide QueuePayload, PlaceOf;
      ghost var payloads := Payloads(ChunkFilters(chunks));
      length := 0;
      EmptyPrefix(payloads, []);
      for s := 0 to |chunks|
        invariant |chunks| == |old(chunks)| && length == Start(payloads, s)
        invariant forall t :: 0 <= t < s ==> chunks[t] == ChunkWithPayload(old(chunks), base, t)
        invariant forall t :: s <= t < |chunks| ==> chunks[t] == old(chunks)[t]
      {
        PartAt(payloads, s);
        PlaceIs(base, payloads, s);
        var chunk := chunks[s];
        var payloadLength := QueuePayloadLength(chunk.filters);
        assert payloadLength == |payloads[s]|;
        var place := if payloadLength > 0 then base + length else 0;
        chunks := chunks[s := chunk.(binary := chunk.binary.(payload := place, payloadLength := payloadLength))];
        length := length + payloadLength;
      }
      WholeStart(payloads);
    }

    /**
     `writeStream`: the entries of stream `s` through their filters and the stream's into the file;
     sizes and digests into the records.
     */
    method WriteStream(w: MemoryBuffer, s: nat, ghost parts: seq<seq<byte>>) returns (ghost delivered: seq<byte>)
      requires Valid() && s < |chunks| && Growing(w, parts)
      modifies this`items, this`chunks, w, w.data
      ensures Growing(w, parts + [delivered]) && (w.data == old(w.data) || fresh(w.data))
      ensures IsDelivered(old(items), supplies, old(chunks), chunkBuffers, options, s, delivered)
      ensures chunks == old(chunks)[s := WithData(old(chunks)[s], |Concat(parts)|, |delivered|)]
      ensures |items| == |old(items)|
      ensures forall e :: 0 <= e < |items| ==>
                if old(items)[e].binary.stream == s then IsRecorded(old(items)[e], items[e], supplies[e], chunkBuffers, options)
                else items[e] == old(items)[e]
    {
      hide Streams.Good, Streams.Bounded, Streams.Denote, Extraction.Stages, Chains.XorAll, Ready, Filtrates, Mapping.Bijection;
      hide Sha1Standard.Short, Supplied, Concat, IsRecorded, MeasureOf;
      ListedEntries(items, supplies, chunks, chunkBuffers, options, s);
      var entries, filters := chunks[s].entries, chunks[s].filters;
      var ps := CollectParts(entries);
      SuppliedParts(items, supplies, entries);
      var report := WriteParts(ps, KeysOf(filters), chunkBuffers[s], options.bufferSize);
      delivered := report.data;
      AllMeasured(s, ps, report);
      var at := AddPart(w, report.data, parts);
      RecordEntries(s, report.measured);
      chunks := chunks[s := WithData(chunks[s], at, report.length)];
    }

    /** The parts of a stream, from the supplies of its entries. */
    method CollectParts(entries: seq<int>) returns (ps: seq<Part>)
      requires |items| == |supplies| && Listed(entries, |items|)
      requires forall i :: 0 <= i < |items| ==> Supplied(items[i], supplies[i])
      ensures ps == PartsOf(items, supplies, entries)
    {
      hide Streams.Good, Streams.Bounded, Streams.Denote, Extraction.Stages, Sha1Standard.Short;
      ps := [];
      for i := 0 to |entries|
        invariant ps == PartsOf(items, supplies, entries)[..i]
      {
        assert Supplied(items[entries[i]], supplies[entries[i]]);
        ps := ps + [PartOf(items[entries[i]].filters, supplies[entries[i]])];
      }
    }

    lemma AllMeasured(s: nat, ps: seq<Part>, report: Report)
      requires Valid() && s < |chunks| && EntriesAreListed(items, supplies, chunks, chunkBuffers, options, s)
      requires ps == PartsOf(items, supplies, chunks[s].entries)
      requires forall i :: 0 <= i < |ps| ==> Streams.Bounded(ps[i].source) && Chains.Keys(ps[i].keys)
      requires Reports(report, ps, KeysOf(chunks[s].filters), chunkBuffers[s], options.bufferSize)
      ensures |report.measured| == |chunks[s].entries|
      ensures forall i :: 0 <= i < |report.measured| ==>
                IsMeasured(items, supplies, chunkBuffers, options, chunks[s].entries[i], report.measured[i])
    {
      hide Streams.Good, Streams.Bounded, Streams.Denote, Extraction.Stages, Chains.XorAll, Filtrates, Supplied, Sha1Standard.Short, MeasureOf;
      var entries := chunks[s].entries;
      forall i | 0 <= i < |entries|
        ensures IsMeasured(items, supplies, chunkBuffers, options, entries[i], report.measured[i])
      {
        ListAt(Places(items), chunks, s, i);
        SuppliedIsXor(items[entries[i]], supplies[entries[i]]);
        assert ps[i] == PartOf(items[entries[i]].filters, supplies[entries[i]]);
        assert MeasureOf(report.measured[i], Original(ps[i]), PartBound(ps[i], chunkBuffers[s], options.bufferSize));
        assert Places(items)[entries[i]].stream == s;
      }
    }

    /** The counters and digests of a stream's entries into their records. */
    method RecordEntries(s: nat, measured: seq<Measured>)
      requires Valid() && s < |chunks| && |measured| == |chunks[s].entries| && Listed(chunks[s].entries, |items|)
      requires forall i :: 0 <= i < |measured| ==>
                 IsMeasured(items, supplies, chunkBuffers, options, chunks[s].entries[i], measured[i])
      modifies this`items
      ensures |items| == |old(items)|
      ensures forall e :: 0 <= e < |items| ==>
                if old(items)[e].binary.stream == s then IsRecorded(old(items)[e], items[e], supplies[e], chunkBuffers, options)
                else items[e] == old(items)[e]
    {
      hide Streams.Good, Streams.Bounded, Streams.Denote, Extraction.Stages, Sha1Standard.Short, IsRecorded, IsMeasured, Recorded,
           Supplied, PiecesShort;
      ghost var places := Places(items);
      var entries := chunks[s].entries;
      for i := 0 to |measured|
        invariant |items| == |old(items)|
        invariant forall e :: 0 <= e < |items| ==>
                    if places[e].stream == s && places[e].index < i then IsRecorded(old(items)[e], items[e], supplies[e], chunkBuffers, options)
                    else items[e] == old(items)[e]
      {
        var e := entries[i];
        ListAt(places, chunks, s, i);
        assert IsMeasured(old(items), supplies, chunkBuffers, options, e, measured[i]);
        assert Supplied(old(items)[e], supplies[e]);
        assert options.md5 ==> PiecesShort(old(items)[e], supplies[e], chunkBuffers, options, Md5Count.TWO32 - 64);
        assert items[e] == old(items)[e];
        MeasuredIs(old(items), supplies, chunkBuffers, options, e, measured[i]);
        var item := RecordEntry(items[e], measured[i], supplies[e], chunkBuffers, options);
        items := items[e := item];
      }
      forall e | 0 <= e < |items| && places[e].stream == s
        ensures places[e].index < |measured|
      {
        assert Mapping.Placed(places[e], Lists(chunks));
      }
    }

    /** All streams, one behind the other. */
    method WriteStreams(w: MemoryBuffer, ghost parts: seq<seq<byte>>) returns (ghost data: seq<seq<byte>>)
      requires Valid() && Growing(w, parts)
      modifies this`items, this`chunks, w, w.data
      ensures Growing(w, parts + [Concat(data)]) && (w.data == old(w.data) || fresh(w.data))
      ensures |data| == |chunks| == |old(chunks)| && |items| == |old(items)|
      ensures forall s :: 0 <= s < |data| ==> IsDelivered(old(items), supplies, old(chunks), chunkBuffers, options, s, data[s])
      ensures forall s :: 0 <= s < |data| ==> chunks[s] == WithData(old(chunks)[s], |Concat(parts)| + Start(data, s), |data[s]|)
      ensures forall e :: 0 <= e < |items| ==> IsRecorded(old(items)[e], items[e], supplies[e], chunkBuffers, options)
    {
      hide Concat, Ready, IsDelivered, Start, Delivered, EntriesAreListed, Supplied, IsRecorded;
      ReadyBasics(items, supplies, chunks, chunkBuffers, options);
      ghost var items0, chunks0 := items, chunks;
      data := [];
      assert parts + data == parts;
      for s := 0 to |chunks|
        invariant w.data == old(w.data) || fresh(w.data)
        invariant Growing(w, parts + data) && |data| == s && |chunks| == |chunks0| && |items| == |items0|
        invariant forall t :: 0 <= t < s ==> IsDelivered(items0, supplies, chunks0, chunkBuffers, options, t, data[t])
        invariant forall t :: 0 <= t < |chunks| ==>
                    chunks[t] == if t < s then WithData(chunks0[t], |Concat(parts)| + Start(data, t), |data[t]|) else chunks0[t]
        invariant forall e :: 0 <= e < |items| ==>
                    if items0[e].binary.stream < s then IsRecorded(items0[e], items[e], supplies[e], chunkBuffers, options)
                    else items[e] == items0[e]
      {
        AllStaySame(items0, items, supplies, chunkBuffers, options, s);
        StaysReady(items0, items, chunks0, chunks, supplies, chunkBuffers, options);
        ListedEntries(items0, supplies, chunks0, chunkBuffers, options, s);
        ghost var before, chunksBefore := items, chunks;
        ghost var x := WriteStream(w, s, parts + data);
        DeliveredStays(items0, before, chunks0, chunksBefore, supplies, chunkBuffers, options, s, x);
        StartsGrow(parts, data, x);
        assert (parts + data) + [x] == parts + (data + [x]);
        data := data + [x];
      }
      AsOnePart(parts, data);
    }

    /** Writes every name with its NUL and notes where it stands. */
    method WriteNames(w: MemoryBuffer, ghost parts: seq<seq<byte>>) returns (base: nat)
      requires Growing(w, parts)
      modifies this`items, w, w.data
      ensures |items| == |old(items)| && base == |Concat(parts)|
      ensures forall i :: 0 <= i < |items| ==> items[i] == WithName(old(items), base, i)
      ensures Growing(w, parts + [Concat(NameRecords(old(items)))]) && (w.data == old(w.data) || fresh(w.data))
    {
      hide Concat;
      ghost var names := NameRecords(items);
      base := w.position;
      assert parts + names[..0] == parts;
      EmptyPrefix(names, []);
      for i := 0 to |items|
        invariant w.data == old(w.data) || fresh(w.data)
        invariant |items| == |old(items)| && Growing(w, parts + names[..i]) && w.position == base + Start(names, i)
        invariant forall j :: 0 <= j < i ==> items[j] == WithName(old(items), base, j)
        invariant forall j :: i <= j < |items| ==> items[j] == old(items)[j]
      {
        PartAt(names, i);
        assert names[i] == items[i].name + [0];
        items := items[i := items[i].(binary := items[i].binary.(nameOffset := w.position))];
        WriteName(w, items[i].name, parts + names[..i]);
        assert (parts + names[..i]) + [names[i]] == parts + names[..i + 1];
      }
      assert names[..|names|] == names;
      AsOnePart(parts, names);
    }
  
    /** The header, the tables and the payloads: reserved, and placed. */
    method ReserveTables(w: MemoryBuffer) returns (refs: Refs, ghost parts: seq<seq<byte>>)
      requires w.Valid() && w.Contents() == [] && w.position == 0
      modifies this`items, this`chunks, this`header, this`headers, w, w.data
      ensures Growing(w, parts) && (w.data == old(w.data) || fresh(w.data))
      ensures |items| == |old(items)| && |chunks| == |old(chunks)|
      ensures |parts| == 6 && TablesReserved(parts, refs, old(items), old(chunks))
      ensures forall i :: 0 <= i < |items| ==> items[i] == WithPayload(old(items), Start(parts, 3), i)
      ensures forall s :: 0 <= s < |chunks| ==> chunks[s] == ChunkWithPayload(old(chunks), Start(parts, 5), s)
      ensures headers == FrontSections(parts, |items|, |chunks|)
      ensures var n := Reserved(old(items), old(chunks));
              header == old(header).(index := SectionHeader(HEADER_SIZE, SECTION_SIZE * n, SECTION_TABLE, n))
    {
      hide Concat, Start, Payloads, FrontSections, Reserved;
      parts := [];
      EmptyConcat();
      var headerAt, tableAt;
      headerAt, parts := ReservePart(w, HEADER_SIZE, parts);
      assert |parts[0]| == HEADER_SIZE;
      var effectiveSections := Reserved(items, chunks);
      ghost var one := parts;
      tableAt, parts := ReservePart(w, SECTION_SIZE * effectiveSections, parts);
      GrownStart(one, parts);
      FirstStarts(parts);
      header := header.(index := SectionHeader(tableAt, SECTION_SIZE * effectiveSections, SECTION_TABLE, effectiveSections));
      ghost var two := parts;
      var entryAt, streamAt;
      entryAt, parts := ReserveEntries(w, parts);
      GrownStart(two, parts);
      ghost var four := parts;
      streamAt, parts := ReserveStreams(w, parts);
      GrownStart(four, parts);
      refs := Refs(headerAt, tableAt, entryAt, streamAt);
    }

    /** The entry table and the entries' payloads. */
    method ReserveEntries(w: MemoryBuffer, ghost front: seq<seq<byte>>) returns (entryAt: nat, ghost parts: seq<seq<byte>>)
      requires |front| == 2 && Growing(w, front)
      modifies this`items, this`headers, w, w.data
      ensures Growing(w, parts) && (w.data == old(w.data) || fresh(w.data))
      ensures |items| == |old(items)|
      ensures |parts| == 4 && parts[..2] == front && entryAt == Start(parts, 2)
      ensures |parts[2]| == ENTRY_SIZE * |items| && |parts[3]| == |Concat(Payloads(ItemFilters(old(items))))|
      ensures forall i :: 0 <= i < |items| ==> items[i] == WithPayload(old(items), Start(parts, 3), i)
      ensures headers == EntrySections(parts, |items|)
    {
      hide Concat, Start, Payloads, PlaceOf;
      headers := map[];
      parts := front;
      entryAt, parts := ReservePart(w, ENTRY_SIZE * |items|, parts);
      headers := WithSection(headers, SectionHeader(entryAt, ENTRY_SIZE * |items|, ENTRY_TABLE, |items|));
      ghost var three := parts;
      var base := w.position;
      var length := PlaceItemPayloads(base);
      var at;
      at, parts := ReservePart(w, length, parts);
      WholeStart(three);
      GrownStart(three, parts);
      headers := WithSection(headers, SectionHeader(base, length, ENTRY_PAYLOAD, 0));
      assert three[..2] == front;
      assert parts[..2] == three[..2];
    }

    /** The stream table and the streams' payloads. */
    method ReserveStreams(w: MemoryBuffer, ghost front: seq<seq<byte>>) returns (streamAt: nat, ghost parts: seq<seq<byte>>)
      requires |front| == 4 && Growing(w, front) && headers == EntrySections(front, |items|)
      modifies this`chunks, this`headers, w, w.data
      ensures Growing(w, parts) && (w.data == old(w.data) || fresh(w.data))
      ensures |chunks| == |old(chunks)|
      ensures |parts| == 6 && parts[..4] == front && streamAt == Start(parts, 4)
      ensures |parts[4]| == STREAM_SIZE * |chunks| && |parts[5]| == |Concat(Payloads(ChunkFilters(old(chunks))))|
      ensures forall s :: 0 <= s < |chunks| ==> chunks[s] == ChunkWithPayload(old(chunks), Start(parts, 5), s)
      ensures headers == FrontSections(parts, |items|, |chunks|)
    {
      hide Concat, Start, Payloads, PlaceOf;
      parts := front;
      streamAt, parts := ReservePart(w, STREAM_SIZE * |chunks|, parts);
      headers := WithSection(headers, SectionHeader(streamAt, STREAM_SIZE * |chunks|, STREAM_TABLE, |chunks|));
      ghost var five := parts;
      var base := w.position;
      var length := PlaceChunkPayloads(base);
      var at;
      at, parts := ReservePart(w, length, parts);
      WholeStart(five);
      GrownStart(five, parts);
      headers := WithSection(headers, SectionHeader(base, length, STREAM_PAYLOAD, 0));
      assert five[..4] == front;
      assert parts[..4] == five[..4];
      GrownStart(front, parts);
    }
  
    /** The streams and the names. */
    method WriteContents(w: MemoryBuffer, ghost front: seq<seq<byte>>) returns (ghost parts: seq<seq<byte>>, ghost data: seq<seq<byte>>)
      requires Valid() && |front| == 6 && Growing(w, front) && headers == FrontSections(front, |items|, |chunks|)
      modifies this`items, this`chunks, this`headers, w, w.data
      ensures Growing(w, parts) && (w.data == old(w.data) || fresh(w.data))
      ensures |data| == |chunks| == |old(chunks)| && |items| == |old(items)|
      ensures |parts| == 8 && parts[..6] == front && parts[6] == Concat(data) && parts[7] == Concat(NameRecords(items))
      ensures forall s :: 0 <= s < |data| ==> IsDelivered(old(items), supplies, old(chunks), chunkBuffers, options, s, data[s])
      ensures forall s :: 0 <= s < |data| ==> chunks[s] == WithData(old(chunks)[s], Start(parts, 6) + Start(data, s), |data[s]|)
      ensures forall e :: 0 <= e < |items| ==> IsNamed(old(items)[e], items[e], supplies[e], chunkBuffers, options)
      ensures forall e :: 0 <= e < |items| ==> items[e].binary.nameOffset == Start(parts, 7) + Start(NameRecords(items), e)
      ensures headers == SectionsOf(parts, |items|, |chunks|)
    {
      hide Concat, Start, Ready, IsDelivered, Supplied, FrontSections, EntrySections, NameRecords, IsRecorded, IsNamed;
      ReadyBasics(items, supplies, chunks, chunkBuffers, options);
      var dataAt := w.position;
      data := WriteStreams(w, front);
      parts := front + [Concat(data)];
      AppendedParts(front, Concat(data));
      assert w.position == |Concat(parts)| == dataAt + |Concat(data)|;
      headers := WithSection(headers, SectionHeader(dataAt, w.position - dataAt, STREAM_DATA, 1));
      ghost var seven := parts;
      ghost var recorded := items;
      var namesAt := WriteNames(w, parts);
      SameNames(recorded, items);
      parts := parts + [Concat(NameRecords(items))];
      AppendedParts(seven, Concat(NameRecords(items)));
      assert w.position == |Concat(parts)| == namesAt + |Concat(NameRecords(items))|;
      headers := WithSection(headers, SectionHeader(namesAt, w.position - namesAt, FILE_NAME_TABLE, 0));
      forall e | 0 <= e < |items|
        ensures IsNamed(old(items)[e], items[e], supplies[e], chunkBuffers, options)
      {
        RecordedNamed(old(items)[e], recorded, namesAt, e, supplies[e], chunkBuffers, options);
      }
      assert parts[..6] == seven[..6] == front;
      FrontStays(front, parts, |items|, |chunks|);
    }
  
    /** Payloads, section table, entry table, stream table: all into the places reserved for them. */
    method FillReserved(w: MemoryBuffer, refs: Refs, ghost parts: seq<seq<byte>>, ghost data: seq<seq<byte>>)
      returns (ghost order: seq<nat>)
      requires Holds(w, parts) && Settled(Box(header, headers, [], items, chunks, data), parts, refs)
      modifies w, w.data
      ensures |parts| == 8 && Encodable(Box(header, headers, order, items, chunks, data))
      ensures Permutation(order, headers) && (w.data == old(w.data) || fresh(w.data))
      ensures Holds(w, FileParts(Box(header, headers, order, items, chunks, data))[0 := parts[0]])
    {
      hide Concat, Start, PlaceOf, Payloads, Reserved, EntryRecords, StreamRecords, SectionRecords, NameRecords, EncodeHeader, Permutation,
           SectionsOf, QueuePayload, ItemsFit;
      PlacesSettled(Box(header, headers, [], items, chunks, data), parts, refs);
      ghost var p := FillAllPayloads(w, parts);
      var iteration := IterationOrder(headers);
      order := iteration;
      FillTables(w, refs, p, iteration);
      assert p[1 := Concat(SectionRecords(headers, order))][2 := Concat(EntryRecords(items))][4 := Concat(StreamRecords(chunks))]
          == FileParts(Box(header, headers, order, items, chunks, data))[0 := parts[0]];
    }

    /** `writeEntryPayloads` and `writeStreamPayloads` */
    method FillAllPayloads(w: MemoryBuffer, ghost parts: seq<seq<byte>>) returns (ghost after: seq<seq<byte>>)
      requires |parts| == 8 && Holds(w, parts)
      requires |parts[3]| == |Concat(Payloads(ItemFilters(items)))| && |parts[5]| == |Concat(Payloads(ChunkFilters(chunks)))|
      requires forall i :: 0 <= i < |items| ==> items[i].binary.payload == PlaceOf(Start(parts, 3), Payloads(ItemFilters(items)), i)
      requires forall s :: 0 <= s < |chunks| ==> chunks[s].binary.payload == PlaceOf(Start(parts, 5), Payloads(ChunkFilters(chunks)), s)
      modifies w, w.data
      ensures Holds(w, after) && (w.data == old(w.data) || fresh(w.data))
      ensures after == parts[3 := Concat(Payloads(ItemFilters(items)))][5 := Concat(Payloads(ChunkFilters(chunks)))]
      ensures forall k :: 0 <= k <= 8 ==> Start(after, k) == Start(parts, k)
    {
      hide Concat, Start, PlaceOf, Payloads;
      var itemPlaces := seq(|items|, i requires 0 <= i < |items| reads this => items[i].binary.payload);
      FillPayloads(w, itemPlaces, ItemFilters(items), parts, 3);
      SameLengthStart(parts, 3, Concat(Payloads(ItemFilters(items))));
      after := parts[3 := Concat(Payloads(ItemFilters(items)))];
      var chunkPlaces := seq(|chunks|, s requires 0 <= s < |chunks| reads this => chunks[s].binary.payload);
      FillPayloads(w, chunkPlaces, ChunkFilters(chunks), after, 5);
      SameLengthStart(after, 5, Concat(Payloads(ChunkFilters(chunks))));
      after := after[5 := Concat(Payloads(ChunkFilters(chunks)))];
    }

    /** The section table in the order of the iteration, and the two record tables. */
    method FillTables(w: MemoryBuffer, refs: Refs, ghost parts: seq<seq<byte>>, order: seq<nat>)
      requires |parts| == 8 && Holds(w, parts) && Permutation(order, headers) && ItemsFit(items)
      requires |parts[1]| == SECTION_SIZE * |headers| && |parts[2]| == ENTRY_SIZE * |items| && |parts[4]| == STREAM_SIZE * |chunks|
      requires refs.sectionTable == Start(parts, 1) && refs.entryTable == Start(parts, 2) && refs.streamTable == Start(parts, 4)
      modifies w, w.data
      ensures forall i :: 0 <= i < |order| ==> order[i] in headers
      ensures Holds(w, parts[1 := Concat(SectionRecords(headers, order))][2 := Concat(EntryRecords(items))][4 := Concat(StreamRecords(chunks))])
      ensures w.data == old(w.data) || fresh(w.data)
    {
      hide Concat, Start, EntryRecords, StreamRecords, SectionRecords, Permutation;
      OrderCounted(order, headers);
      IterationKnown(order, headers);
      EqualParts(SectionRecords(headers, order), SECTION_SIZE);
      EqualParts(EntryRecords(items), ENTRY_SIZE);
      ghost var p := parts;
      FillPart(w, refs.sectionTable, SectionRecords(headers, order), SECTION_SIZE, p, 1);
      SameLengthStart(p, 1, Concat(SectionRecords(headers, order)));
      p := p[1 := Concat(SectionRecords(headers, order))];
      FillPart(w, refs.entryTable, EntryRecords(items), ENTRY_SIZE, p, 2);
      SameLengthStart(p, 2, Concat(EntryRecords(items)));
      p := p[2 := Concat(EntryRecords(items))];
      FillPart(w, refs.streamTable, StreamRecords(chunks), STREAM_SIZE, p, 4);
    }

    /** All sections in their order; everything is known then, and what is reserved is not filled yet. */
    method WriteSections(w: MemoryBuffer) returns (refs: Refs, ghost parts: seq<seq<byte>>, ghost data: seq<seq<byte>>)
      requires Valid() && w.Valid() && w.Contents() == [] && w.position == 0
      requires chunks != [] ==> SomethingToWrite(supplies)
      modifies this`items, this`chunks, this`header, this`headers, w, w.data
      ensures Holds(w, parts) && (w.data == old(w.data) || fresh(w.data))
      ensures Settled(Box(header, headers, [], items, chunks, data), parts, refs)
      ensures WrittenFrom(old(items), supplies, old(chunks), chunkBuffers, options, items, chunks, data)
      ensures header == old(header).(index := header.index)
    {
      hide Concat, Start, Ready, IsDelivered, Supplied, FrontSections, SectionsOf, TablesReserved, Payloads, WithPayload, ChunkWithPayload,
           IsNamed, WithData, NameRecords, Reserved, ItemFilters, ChunkFilters, PlaceOf, QueuePayload, IsWritten, SameButRecord, FileParts,
           SomethingToWrite;
      ghost var items0, chunks0 := items, chunks;
      ReadyBasics(items, supplies, chunks, chunkBuffers, options);
      ghost var front;
      refs, front := ReserveTables(w);
      ghost var items1, chunks1 := items, chunks;
      PlacedSame(items0, items1, chunks0, chunks1, Start(front, 3), Start(front, 5));
      StaysReady(items0, items1, chunks0, chunks1, supplies, chunkBuffers, options);
      parts, data := WriteContents(w, front);
      GrownStart(front, parts);
      ItemsSettled(items0, items1, items, supplies, chunkBuffers, options, Start(parts, 3));
      ChunksSettled(chunks0, chunks1, chunks, Start(parts, 5), Start(parts, 6), data);
      AllDelivered(items0, items1, supplies, chunks0, chunks1, chunkBuffers, options, data);
      DataNotEmpty(items0, supplies, chunks0, chunkBuffers, options, data);
      ReservedStays(items0, items, chunks0, chunks, front, parts, refs);
      ghost var b := Box(header, headers, [], items, chunks, data);
      PartsMatch(b, parts, refs);
      HeadersCounted(b, parts);
    }

    /**
     `write`: the file it leaves is laid out as its records say, its streams hold the filtered
     entries, its records the sizes of the sources and what the digesters say of them (`WrittenDigests`),
     and its checksum is right.
     */
    method Write(w: MemoryBuffer) returns (ghost b: Box)
      requires Valid() && w.Valid() && w.Contents() == [] && w.position == 0
      requires CastsLoseNothing(items, chunks) && (chunks != [] ==> SomethingToWrite(supplies))
      modifies this`items, this`chunks, this`header, this`headers, w, w.data
      ensures b == Box(header, headers, b.order, items, chunks, b.data)
      ensures LaidOut(b) && w.Valid() && w.Contents() == File(b)
      ensures WrittenFrom(old(items), supplies, old(chunks), chunkBuffers, options, items, chunks, b.data)
      ensures header.magic == MAGIC && header.version == CURRENT_VERSION
      ensures header.flags == if options.globalChecksum then WithChecksumFlag(old(header).flags) else old(header).flags
      ensures !options.globalChecksum ==> header.fileChecksum == old(header).fileChecksum
      ensures options.globalChecksum ==> HasChecksumFlag(header.flags) && header.fileChecksum == ChecksumOf(header, w.Contents()[HEADER_SIZE..])
    {
      hide Concat, Start, Ready, SectionsOf, Payloads, NameRecords, Reserved, LaidOut, FileParts, WrittenFrom, Permutation, EncodeHeader, ItemsFit;
      ReadyBasics(items, supplies, chunks, chunkBuffers, options);
      var refs;
      ghost var parts, data;
      refs, parts, data := WriteSections(w);
      ghost var order := FillReserved(w, refs, parts, data);
      b := Box(header, headers, order, items, chunks, data);
      HeaderSettled(b.(order := []), parts, refs);
      FirstLength(b, parts[0]);
      FinalizeHeader(w);
      PatchPart(w, FileParts(b)[0 := parts[0]], 0, 0, refs.header, EncodeHeader(header));
      Finished(b, parts, refs, options, header);
      b := b.(header := header);
    }

    /** Length, version, and the checksum over everything but itself. */
    method FinalizeHeader(w: MemoryBuffer)
      requires w.Valid() && w.size >= HEADER_SIZE && options.digesterBuffer >= 1
      modifies this`header, w`position
      ensures header == Finalized(old(header), options, w.Contents())
    {
      w.Seek(0, FromEnd);
      header := header.(fileLength := w.position, version := CURRENT_VERSION);
      if options.globalChecksum {
        header := header.(flags := WithChecksumFlag(header.flags));
        var checksum := GlobalChecksum(w, header, options.digesterBuffer);
        header := header.(fileChecksum := checksum);
      }
    }
  }

  const CURRENT_VERSION: nat := 1

  /** "box!" */
  const MAGIC: nat := 0x2178_6F62

  /** What is cast to 32 bits fits in 32 bits. */
  ghost predicate CastsLoseNothing(items: seq<Item>, chunks: seq<Chunk>) {
    && |items| < Base(4) && |chunks| < Base(4) && |Concat(NameRecords(items))| < Base(4)
    && (forall i :: 0 <= i < |items| ==> |QueuePayload(items[i].filters)| < Base(4))
    && (forall s :: 0 <= s < |chunks| ==> |QueuePayload(chunks[s].filters)| < Base(4))
  }

  ghost predicate SomethingToWrite(supplies: seq<Supply>) {
    exists e :: 0 <= e < |supplies| && Streams.Bounded(supplies[e].source) && Streams.Denote(supplies[e].source) != []
  }

  /** `after` is `before` with everything known about it in its record. */
  ghost predicate IsWritten(before: Item, after: Item, supply: Supply, chunkBuffers: seq<seq<nat>>, o: Options) {
    Supplied(before, supply) && exists pieces :: WrittenAs(before, after, supply, PieceBound(before, supply, chunkBuffers, o), o, pieces)
  }

  ghost predicate WrittenAs(before: Item, after: Item, supply: Supply, bound: nat, o: Options, pieces: seq<nat>)
    requires Supplied(before, supply)
  {
    && PiecesOf(supply, bound, pieces)
    && after == before.(binary := Recorded(before.binary, MeasuredOf(Streams.Denote(supply.source), pieces), o).(
                          payload := after.binary.payload, payloadLength := after.binary.payloadLength,
                          nameOffset := after.binary.nameOffset))
  }

  /** The pieces make up the bytes of the source, and none is longer than the bound. */
  ghost predicate PiecesOf(supply: Supply, bound: nat, pieces: seq<nat>) {
    Streams.Bounded(supply.source) && Total(pieces) == |Streams.Denote(supply.source)| && Streams.AtMost(pieces, bound)
  }

  /** The sizes and the digests of a written entry; the MD5 is right if no piece reaches 2^29 bytes. */
  lemma WrittenDigests(before: Item, after: Item, supply: Supply, chunkBuffers: seq<seq<nat>>, o: Options)
    requires IsWritten(before, after, supply, chunkBuffers, o)
    ensures Streams.Bounded(supply.source) && Sha1Standard.Short(|Streams.Denote(supply.source)|)
    ensures DigestsRight(after.binary.digest, Streams.Denote(supply.source), o, PiecesShort(before, supply, chunkBuffers, o, Md5Count.TWO29))
  {
    hide Streams.Good, Streams.Denote, Extraction.Stages, Sha1Standard.Short;
    var bound := PieceBound(before, supply, chunkBuffers, o);
    var pieces :| WrittenAs(before, after, supply, bound, o, pieces);
    if PiecesShort(before, supply, chunkBuffers, o, Md5Count.TWO29) {
      DigestFilter.PiecesBelow(pieces, bound, Md5Count.TWO29);
      Md5Digester.ShortPiecesGiveMd5(Streams.Denote(supply.source), pieces);
    }
  }

  ghost predicate DigestsRight(d: DigestInfo, x: seq<byte>, o: Options, short: bool)
    requires Sha1Standard.Short(|x|)
  {
    && d.size == |x| && (o.crc32 ==> d.crc32 == Crc32Of(x)) && (o.sha1 ==> d.sha1 == Sha1Of(x))
    && (o.md5 && short ==> d.md5 == Md5Of(x))
  }

  ghost predicate SameButRecord(before: Chunk, after: Chunk) {
    after == before.(binary := before.binary.(offset := after.binary.offset, length := after.binary.length,
                                              payload := after.binary.payload, payloadLength := after.binary.payloadLength))
  }

  lemma PlacedSame(items0: seq<Item>, items1: seq<Item>, chunks0: seq<Chunk>, chunks1: seq<Chunk>, base: nat, base': nat)
    requires |items0| == |items1| && |chunks0| == |chunks1|
    requires forall i :: 0 <= i < |items1| ==> items1[i] == WithPayload(items0, base, i)
    requires forall s :: 0 <= s < |chunks1| ==> chunks1[s] == ChunkWithPayload(chunks0, base', s)
    ensures SameItems(items0, items1) && SameChunks(chunks0, chunks1)
  {
    hide PlaceOf, QueuePayload;
  }

  /** Bit 0 of the flags: the file has a checksum. */
  predicate HasChecksumFlag(flags: nat) {
    flags % 2 == 1
  }

  function WithChecksumFlag(flags: nat): (r: nat)
    ensures HasChecksumFlag(r)
  {
    if flags % 2 == 1 then flags else flags + 1
  }

  /** The checksum of the header up to the checksum, and of everything behind the header. */
  function ChecksumOf(header: Header, rest: seq<byte>): (n: nat)
    ensures n < 0x1_0000_0000
  {
    Crc32Of(EncodeHeader(header)[..CHECKSUM_OFFSET] + rest)
  }

  function Finalized(header: Header, o: Options, contents: seq<byte>): Header
    requires |contents| >= HEADER_SIZE
  {
    var h := header.(fileLength := |contents|, version := CURRENT_VERSION);
    if o.globalChecksum then
      var g := h.(flags := WithChecksumFlag(h.flags));
      g.(fileChecksum := ChecksumOf(g, contents[HEADER_SIZE..]))
    else h
  }

  /** `calculateGlobalChecksum`, in pieces of any size. */
  method GlobalChecksum(w: MemoryBuffer, header: Header, bufferSize: nat) returns (checksum: nat)
    requires w.Valid() && w.size >= HEADER_SIZE && bufferSize >= 1
    modifies w`position
    ensures checksum == ChecksumOf(header, w.Contents()[HEADER_SIZE..])
  {
    hide Crc32.Checksum, EncodeHeader;
    var digester := new Crc32.Digester();
    w.Seek(0, FromStart);
    var front := EncodeHeader(header)[..CHECKSUM_OFFSET];
    digester.Update(front);
    w.Seek(HEADER_SIZE, FromStart);
    ghost var contents := w.Contents();
    assert front + contents[HEADER_SIZE..HEADER_SIZE] == front;
    var read := [0];
    while |read| > 0
      invariant w.Valid() && w.Contents() == contents && HEADER_SIZE <= w.position <= w.size
      invariant digester.Valid() && fresh(digester) && fresh(digester.lut)
      invariant digester.value == Crc32.Checksum(0, front + contents[HEADER_SIZE..w.position])
      invariant |read| == 0 ==> w.position == w.size
      decreases w.size - w.position, |read|
    {
      ghost var at := w.position;
      read := w.Read(bufferSize);
      assert read == contents[at..w.position];
      digester.Update(read);
      Crc32.ChecksumConcat(0, front + contents[HEADER_SIZE..at], read);
      OnePieceMore(front, contents, HEADER_SIZE, at, w.position);
    }
    assert contents[HEADER_SIZE..w.position] == contents[HEADER_SIZE..];
    checksum := Word(digester.value);
  }

  lemma OnePieceMore(front: seq<byte>, x: seq<byte>, a: nat, b: nat, c: nat)
    requires a <= b <= c <= |x|
    ensures (front + x[a..b]) + x[b..c] == front + x[a..c]
  {
    assert x[a..b] + x[b..c] == x[a..c];
  }

  lemma IterationKnown(order: seq<nat>, headers: map<nat, SectionHeader>)
    requires Permutation(order, headers)
    ensures forall i :: 0 <= i < |order| ==> order[i] in headers
  {
  }

  lemma ItemsSettled(items0: seq<Item>, items1: seq<Item>, items: seq<Item>, supplies: seq<Supply>, chunkBuffers: seq<seq<nat>>, o: Options,
                     base: nat)
    requires |items0| == |items1| == |items| == |supplies| && ItemsFit(items0)
    requires forall i :: 0 <= i < |items| ==> items1[i] == WithPayload(items0, base, i)
    requires forall i :: 0 <= i < |items| ==> IsNamed(items1[i], items[i], supplies[i], chunkBuffers, o)
    ensures ItemsFit(items) && ItemFilters(items) == ItemFilters(items0)
    ensures forall i :: 0 <= i < |items| ==> IsWritten(items0[i], items[i], supplies[i], chunkBuffers, o)
    ensures forall i :: 0 <= i < |items| ==>
              items[i].binary.payload == PlaceOf(base, Payloads(ItemFilters(items)), i)
              && items[i].binary.payloadLength == |QueuePayload(items[i].filters)|
  {
    hide PlaceOf, QueuePayload, Supplied, Payloads, IsNamed, IsWritten;
    forall i | 0 <= i < |items|
      ensures SignedFit(items[i].binary) && items[i].filters == items0[i].filters
      ensures IsWritten(items0[i], items[i], supplies[i], chunkBuffers, o)
      ensures items[i].binary.payload == PlaceOf(base, Payloads(ItemFilters(items0)), i)
      ensures items[i].binary.payloadLength == |QueuePayload(items[i].filters)|
    {
      ItemSettled(items0, items1[i], items[i], supplies[i], chunkBuffers, o, base, i);
    }
    assert ItemFilters(items) == ItemFilters(items0);
  }

  lemma ItemSettled(items0: seq<Item>, item1: Item, item: Item, supply: Supply, chunkBuffers: seq<seq<nat>>, o: Options, base: nat, i: nat)
    requires i < |items0| && ItemsFit(items0) && item1 == WithPayload(items0, base, i) && IsNamed(item1, item, supply, chunkBuffers, o)
    ensures SignedFit(item.binary) && item.filters == items0[i].filters && IsWritten(items0[i], item, supply, chunkBuffers, o)
    ensures item.binary.payload == PlaceOf(base, Payloads(ItemFilters(items0)), i)
    ensures item.binary.payloadLength == |QueuePayload(item.filters)|
  {
    hide PlaceOf, QueuePayload, Payloads, Sha1Of, Md5From, Crc32Of, Sha1Standard.Short, Extraction.Stages, Streams.Good, Streams.Bounded,
         Streams.Denote, PieceBound, PiecesOf;
    var bound := PieceBound(item1, supply, chunkBuffers, o);
    assert bound == PieceBound(items0[i], supply, chunkBuffers, o) by { SameBound(items0[i], item1, supply, chunkBuffers, o); }
    var pieces :| NamedAs(item1, item, supply, bound, o, pieces);
    assert WrittenAs(items0[i], item, supply, bound, o, pieces);
  }

  lemma SameBound(a: Item, b: Item, supply: Supply, chunkBuffers: seq<seq<nat>>, o: Options)
    requires a.binary.stream == b.binary.stream
    ensures PieceBound(a, supply, chunkBuffers, o) == PieceBound(b, supply, chunkBuffers, o)
  {
  }

  lemma ChunksSettled(chunks0: seq<Chunk>, chunks1: seq<Chunk>, chunks: seq<Chunk>, payloads: nat, streams: nat, data: seq<seq<byte>>)
    requires |chunks0| == |chunks1| == |chunks| == |data|
    requires forall s :: 0 <= s < |chunks| ==> chunks1[s] == ChunkWithPayload(chunks0, payloads, s)
    requires forall s :: 0 <= s < |chunks| ==> chunks[s] == WithData(chunks1[s], streams + Start(data, s), |data[s]|)
    ensures ChunkFilters(chunks) == ChunkFilters(chunks0)
    ensures forall s :: 0 <= s < |chunks| ==> SameButRecord(chunks0[s], chunks[s]) && ChunkPlaced(chunks, data, s, payloads, streams)
  {
    hide PlaceOf, QueuePayload, Payloads, Start;
    forall s | 0 <= s < |chunks|
      ensures chunks[s].filters == chunks0[s].filters
    {
      assert chunks[s] == WithData(chunks1[s], streams + Start(data, s), |data[s]|);
    }
    assert ChunkFilters(chunks) == ChunkFilters(chunks0);
  }

  lemma SomeConcat(parts: seq<seq<byte>>, i: nat)
    requires i < |parts| && parts[i] != []
    ensures Concat(parts) != []
  {
    ConcatEmpty(parts);
    assert |parts[i]| > 0;
  }

  /** Something is written exactly when there is something to write: every entry is in some stream. */
  lemma DataNotEmpty(items: seq<Item>, supplies: seq<Supply>, chunks: seq<Chunk>, chunkBuffers: seq<seq<nat>>, o: Options, data: seq<seq<byte>>)
    requires Ready(items, supplies, chunks, chunkBuffers, o) && |data| == |chunks|
    requires forall s :: 0 <= s < |chunks| ==> IsDelivered(items, supplies, chunks, chunkBuffers, o, s, data[s])
    ensures SomethingToWrite(supplies) <==> Concat(data) != []
  {
    hide Supplied, Concat, Chains.XorAll, Streams.Denote, Streams.Bounded;
    if e :| 0 <= e < |supplies| && Streams.Bounded(supplies[e].source) && Streams.Denote(supplies[e].source) != [] {
      assert Mapping.Placed(Places(items)[e], Lists(chunks));
      var s, i := items[e].binary.stream, items[e].binary.indexInStream;
      assert Lists(chunks)[s][i] == e;
      assert IsDelivered(items, supplies, chunks, chunkBuffers, o, s, data[s]);
      SuppliedParts(items, supplies, chunks[s].entries);
      SuppliedIsXor(items[e], supplies[e]);
      var ps := PartsOf(items, supplies, chunks[s].entries);
      assert |Filtrates(ps)[i]| == |Original(ps[i])| == |Streams.Denote(supplies[e].source)|;
      SomeConcat(Filtrates(ps), i);
      SomeConcat(data, s);
    }
    if Concat(data) != [] {
      ConcatEmpty(data);
      var s :| 0 <= s < |data| && |data[s]| > 0;
      assert IsDelivered(items, supplies, chunks, chunkBuffers, o, s, data[s]);
      DeliveredSomething(items, supplies, chunks[s]);
    }
  }

  lemma DeliveredSomething(items: seq<Item>, supplies: seq<Supply>, chunk: Chunk)
    requires |items| == |supplies| && Listed(chunk.entries, |items|) && AllXor(chunk.filters) && Chains.Keys(KeysOf(chunk.filters))
    requires forall i :: 0 <= i < |items| ==> Supplied(items[i], supplies[i])
    requires Delivered(items, supplies, chunk) != []
    ensures SomethingToWrite(supplies)
  {
    hide Supplied, Concat, Chains.XorAll, Streams.Denote, Streams.Bounded;
    SuppliedParts(items, supplies, chunk.entries);
    var ps := PartsOf(items, supplies, chunk.entries);
    ConcatEmpty(Filtrates(ps));
    var i :| 0 <= i < |Filtrates(ps)| && |Filtrates(ps)[i]| > 0;
    var e := chunk.entries[i];
    SuppliedIsXor(items[e], supplies[e]);
    assert Streams.Bounded(ps[i].source) && ps[i].source == supplies[e].source;
    assert |Filtrates(ps)[i]| == |Original(ps[i])|;
    assert Streams.Denote(supplies[e].source) != [];
  }

  /**
   As many headers as are reserved in the section table are there exactly when there are no streams,
   or there is something to write.
   */
  lemma ReservedExactly(items: seq<Item>, supplies: seq<Supply>, chunks: seq<Chunk>, chunkBuffers: seq<seq<nat>>, o: Options, b: Box)
    requires Ready(items, supplies, chunks, chunkBuffers, o) && Encodable(b) && |b.chunks| == |chunks|
    requires forall s :: 0 <= s < |chunks| ==> IsDelivered(items, supplies, chunks, chunkBuffers, o, s, b.data[s])
    ensures |SectionsOf(FileParts(b), |b.items|, |b.chunks|)| == Reserved(b.items, b.chunks)
            <==> (chunks == [] || SomethingToWrite(supplies))
  {
    hide SectionsOf, FileParts, Reserved, Concat, Ready, IsDelivered, SomethingToWrite;
    DataNotEmpty(items, supplies, chunks, chunkBuffers, o, b.data);
    HeadersAgreeExactly(b);
    assert chunks == [] <==> b.chunks == [];
  }

  lemma ReservedStays(items0: seq<Item>, items: seq<Item>, chunks0: seq<Chunk>, chunks: seq<Chunk>,
                      front: seq<seq<byte>>, parts: seq<seq<byte>>, refs: Refs)
    requires TablesReserved(front, refs, items0, chunks0) && |front| == 6 <= |parts| && parts[..6] == front
    requires |items| == |items0| && |chunks| == |chunks0|
    requires ItemFilters(items) == ItemFilters(items0) && ChunkFilters(chunks) == ChunkFilters(chunks0)
    ensures TablesReserved(parts, refs, items, chunks)
    ensures Reserved(items, chunks) == Reserved(items0, chunks0)
  {
    hide Start, Concat, Payloads, AnyPayload, ItemFilters, ChunkFilters;
    GrownStart(front, parts);
    assert items != [] <==> items0 != [];
    assert chunks != [] <==> chunks0 != [];
  }

  lemma PartsMatch(b: Box, parts: seq<seq<byte>>, refs: Refs)
    requires Encodable(b) && |parts| == 8 && TablesReserved(parts, refs, b.items, b.chunks)
    requires parts[6] == Concat(b.data) && parts[7] == Concat(NameRecords(b.items))
    ensures |parts[0]| == |FileParts(b)[0]| && forall k :: 2 <= k < 8 ==> |parts[k]| == |FileParts(b)[k]|
    ensures |b.order| == Reserved(b.items, b.chunks) ==> |parts[1]| == |FileParts(b)[1]|
  {
    hide Concat, Start, EncodeHeader, EntryRecords, StreamRecords, SectionRecords, NameRecords, Payloads, Reserved;
    EqualParts(SectionRecords(b.headers, b.order), SECTION_SIZE);
    EqualParts(EntryRecords(b.items), ENTRY_SIZE);
    EqualParts(StreamRecords(b.chunks), STREAM_SIZE);
  }

  lemma FirstLength(b: Box, x: seq<byte>)
    requires Encodable(b) && |x| == HEADER_SIZE
    ensures |Concat(FileParts(b)[0 := x])| >= HEADER_SIZE && Start(FileParts(b)[0 := x], 0) == 0
    ensures FileParts(b)[0 := x][0] == x
  {
    hide FileParts, Concat;
    StartZero(FileParts(b)[0 := x]);
    PartAt(FileParts(b)[0 := x], 0);
  }

  lemma RestOfFile(parts: seq<seq<byte>>, x: seq<byte>)
    requires |parts| > 0
    ensures |Concat(parts[0 := x])| >= |x| && Concat(parts[0 := x])[|x|..] == Concat(parts[1..])
    ensures Concat(parts[0 := x]) == x + Concat(parts[1..])
  {
    assert parts[0 := x][1..] == parts[1..];
  }

  lemma OverwriteAll(x: seq<byte>, v: seq<byte>)
    requires |x| == |v|
    ensures Overwrite(x, 0, v, []) == v
  {
    OverwriteCut(x, 0, v);
  }

  lemma SectionsStay(a: seq<seq<byte>>, b: seq<seq<byte>>, items: nat, chunks: nat)
    requires |a| == |b| == 8 && forall k :: 0 <= k < 8 ==> |a[k]| == |b[k]|
    ensures SectionsOf(a, items, chunks) == SectionsOf(b, items, chunks)
    ensures forall k :: 0 <= k <= 8 ==> Start(a, k) == Start(b, k)
  {
    hide Start;
    forall k | 0 <= k <= 8
      ensures Start(a, k) == Start(b, k)
    {
      SameStart(a, b, k);
    }
  }

  /** All parts are there, and everything but the reserved bytes is as it will be. */
  ghost predicate Settled(b: Box, parts: seq<seq<byte>>, refs: Refs) {
    && ItemsFit(b.items) && |b.data| == |b.chunks| && |parts| == 8 && TablesReserved(parts, refs, b.items, b.chunks)
    && parts[6] == Concat(b.data) && parts[7] == Concat(NameRecords(b.items))
    && b.headers == SectionsOf(parts, |b.items|, |b.chunks|) && |b.headers| == Reserved(b.items, b.chunks)
    && (forall i :: 0 <= i < |b.items| ==> ItemPlaced(b.items, i, Start(parts, 3), Start(parts, 7)))
    && (forall s :: 0 <= s < |b.chunks| ==> ChunkPlaced(b.chunks, b.data, s, Start(parts, 5), Start(parts, 6)))
    && b.header.index == SectionHeader(HEADER_SIZE, SECTION_SIZE * |b.headers|, SECTION_TABLE, |b.headers|)
  }

  lemma PlacesSettled(b: Box, parts: seq<seq<byte>>, refs: Refs)
    requires Settled(b, parts, refs)
    ensures |parts| == 8 && ItemsFit(b.items)
    ensures forall i :: 0 <= i < |b.items| ==> b.items[i].binary.payload == PlaceOf(Start(parts, 3), Payloads(ItemFilters(b.items)), i)
    ensures forall s :: 0 <= s < |b.chunks| ==> b.chunks[s].binary.payload == PlaceOf(Start(parts, 5), Payloads(ChunkFilters(b.chunks)), s)
  {
    hide PlaceOf, Payloads, QueuePayload, SectionsOf, Reserved;
    forall i | 0 <= i < |b.items|
      ensures b.items[i].binary.payload == PlaceOf(Start(parts, 3), Payloads(ItemFilters(b.items)), i)
    {
      assert ItemPlaced(b.items, i, Start(parts, 3), Start(parts, 7));
    }
    forall s | 0 <= s < |b.chunks|
      ensures b.chunks[s].binary.payload == PlaceOf(Start(parts, 5), Payloads(ChunkFilters(b.chunks)), s)
    {
      assert ChunkPlaced(b.chunks, b.data, s, Start(parts, 5), Start(parts, 6));
    }
  }

  lemma HeaderSettled(b: Box, parts: seq<seq<byte>>, refs: Refs)
    requires Settled(b, parts, refs)
    ensures |parts| == 8 && |parts[0]| == HEADER_SIZE && refs.header == 0
  {
    StartZero(parts);
  }

  /** The archive's records and its data, as they follow from what it was before. */
  ghost predicate WrittenFrom(items0: seq<Item>, supplies: seq<Supply>, chunks0: seq<Chunk>, chunkBuffers: seq<seq<nat>>, o: Options,
                              items: seq<Item>, chunks: seq<Chunk>, data: seq<seq<byte>>)
  {
    && |items| == |items0| == |supplies| && |chunks| == |chunks0| == |data|
    && (forall e :: 0 <= e < |items| ==> IsWritten(items0[e], items[e], supplies[e], chunkBuffers, o))
    && (forall s :: 0 <= s < |chunks| ==> SameButRecord(chunks0[s], chunks[s]))
    && (forall s :: 0 <= s < |chunks| ==> IsDelivered(items0, supplies, chunks0, chunkBuffers, o, s, data[s]))
  }

  lemma AllDelivered(items0: seq<Item>, items1: seq<Item>, supplies: seq<Supply>, chunks0: seq<Chunk>, chunks1: seq<Chunk>,
                     chunkBuffers: seq<seq<nat>>, o: Options, data: seq<seq<byte>>)
    requires Ready(items0, supplies, chunks0, chunkBuffers, o) && SameItems(items0, items1) && SameChunks(chunks0, chunks1)
    requires |data| == |chunks0|
    requires forall s :: 0 <= s < |data| ==> IsDelivered(items1, supplies, chunks1, chunkBuffers, o, s, data[s])
    ensures forall s :: 0 <= s < |data| ==> IsDelivered(items0, supplies, chunks0, chunkBuffers, o, s, data[s])
  {
    hide Ready, IsDelivered;
    forall s | 0 <= s < |data|
      ensures IsDelivered(items0, supplies, chunks0, chunkBuffers, o, s, data[s])
    {
      ListedEntries(items0, supplies, chunks0, chunkBuffers, o, s);
      DeliveredStays(items0, items1, chunks0, chunks1, supplies, chunkBuffers, o, s, data[s]);
    }
  }

  /** The finished file, header and all. */
  lemma Finished(b: Box, parts: seq<seq<byte>>, refs: Refs, o: Options, header: Header)
    requires Settled(b.(order := []), parts, refs) && Permutation(b.order, b.headers)
    requires Encodable(b) && |Concat(FileParts(b)[0 := parts[0]])| >= HEADER_SIZE
    requires header == Finalized(b.header, o, Concat(FileParts(b)[0 := parts[0]]))
    ensures var c := b.(header := header);
            LaidOut(c)
            && File(c) == Concat(FileParts(b)[0 := parts[0]][0 := Overwrite(parts[0], 0, EncodeHeader(header), [])])
            && |File(c)| >= HEADER_SIZE
            && (o.globalChecksum ==> HasChecksumFlag(header.flags) && header.fileChecksum == ChecksumOf(header, File(c)[HEADER_SIZE..]))
  {
    hide Concat, Start, EncodeHeader, EntryRecords, StreamRecords, SectionRecords, NameRecords, Payloads, Reserved, ItemPlaced, ChunkPlaced,
         SectionsOf, Overwrite, Crc32Of, ItemsFit;
    OrderCounted(b.order, b.headers);
    PartsMatch(b, parts, refs);
    var c := b.(header := header);
    assert FileParts(c) == FileParts(b)[0 := EncodeHeader(header)];
    SectionsStay(parts, FileParts(c), |b.items|, |b.chunks|);
    OverwriteAll(parts[0], EncodeHeader(header));
    assert FileParts(b)[0 := parts[0]][0 := EncodeHeader(header)] == FileParts(c);
    RestOfFile(FileParts(b), parts[0]);
    RestOfFile(FileParts(b), EncodeHeader(header));
    if o.globalChecksum {
      HeaderBeforeChecksum(header.(fileChecksum := b.header.fileChecksum), header.fileChecksum);
    }
  }

  /** As many headers as were reserved. */
  lemma HeadersCounted(b: Box, parts: seq<seq<byte>>)
    requires Encodable(b) && |parts| == 8 && (b.chunks != [] ==> Concat(b.data) != [])
    requires forall k :: 2 <= k < 8 ==> |parts[k]| == |FileParts(b)[k]|
    ensures |SectionsOf(parts, |b.items|, |b.chunks|)| == Reserved(b.items, b.chunks)
  {
    hide SectionsOf, FileParts, Encodable, AnyPayload, Concat;
    SectionsCounted(parts, |b.items|, |b.chunks|);
    PartsEmpty(b);
  }

  /** What two lists say that agree on the names. */
  lemma SameNames(a: seq<Item>, b: seq<Item>)
    requires |a| == |b| && forall i :: 0 <= i < |a| ==> a[i].name == b[i].name
    ensures NameRecords(a) == NameRecords(b)
  {
  }

  lemma AppendedParts(parts: seq<seq<byte>>, last: seq<byte>)
    ensures var after := parts + [last];
            Start(after, |parts|) == |Concat(parts)| && |Concat(after)| == |Concat(parts)| + |last|
            && forall k :: 0 <= k <= |parts| ==> Start(after, k) == Start(parts, k)
  {
    ConcatAppend(parts, last);
    assert (parts + [last])[..|parts|] == parts;
    GrownStart(parts, parts + [last]);
  }

  lemma FrontStays(front: seq<seq<byte>>, parts: seq<seq<byte>>, items: nat, chunks: nat)
    requires |front| == 6 <= |parts| && parts[..6] == front
    ensures FrontSections(parts, items, chunks) == FrontSections(front, items, chunks)
  {
    hide Start;
    GrownStart(front, parts);
  }

  /** `after` is `before` with sizes and digests in its record. */
  ghost predicate IsRecorded(before: Item, after: Item, supply: Supply, chunkBuffers: seq<seq<nat>>, o: Options) {
    Supplied(before, supply) && exists pieces :: RecordedAs(before, after, supply, PieceBound(before, supply, chunkBuffers, o), o, pieces)
  }

  ghost predicate RecordedAs(before: Item, after: Item, supply: Supply, bound: nat, o: Options, pieces: seq<nat>)
    requires Supplied(before, supply)
  {
    PiecesOf(supply, bound, pieces) && after == RecordedItem(before, supply, o, pieces)
  }

  /** And with the place of its name. */
  ghost predicate IsNamed(before: Item, after: Item, supply: Supply, chunkBuffers: seq<seq<nat>>, o: Options) {
    Supplied(before, supply) && exists pieces :: NamedAs(before, after, supply, PieceBound(before, supply, chunkBuffers, o), o, pieces)
  }

  ghost predicate NamedAs(before: Item, after: Item, supply: Supply, bound: nat, o: Options, pieces: seq<nat>)
    requires Supplied(before, supply)
  {
    && PiecesOf(supply, bound, pieces)
    && after == RecordedItem(before, supply, o, pieces).(binary := RecordedItem(before, supply, o, pieces).binary.(nameOffset := after.binary.nameOffset))
  }

  lemma RecordedNamed(before: Item, recorded: seq<Item>, base: nat, e: nat, supply: Supply, chunkBuffers: seq<seq<nat>>, o: Options)
    requires e < |recorded| && IsRecorded(before, recorded[e], supply, chunkBuffers, o)
    ensures IsNamed(before, WithName(recorded, base, e), supply, chunkBuffers, o)
  {
    hide Supplied, PiecesOf, PieceBound, Start, NameRecords;
    var bound := PieceBound(before, supply, chunkBuffers, o);
    var pieces :| RecordedAs(before, recorded[e], supply, bound, o, pieces);
    assert NamedAs(before, WithName(recorded, base, e), supply, bound, o, pieces);
  }

  lemma RecordedSame(before: Item, after: Item, supply: Supply, chunkBuffers: seq<seq<nat>>, o: Options)
    requires IsRecorded(before, after, supply, chunkBuffers, o)
    ensures SameItem(before, after)
  {
  }

  lemma AllStaySame(items0: seq<Item>, items: seq<Item>, supplies: seq<Supply>, chunkBuffers: seq<seq<nat>>, o: Options, s: int)
    requires |items| == |items0| == |supplies|
    requires forall e :: 0 <= e < |items| ==>
               if items0[e].binary.stream < s then IsRecorded(items0[e], items[e], supplies[e], chunkBuffers, o) else items[e] == items0[e]
    ensures SameItems(items0, items)
  {
    hide IsRecorded;
    forall e | 0 <= e < |items|
      ensures SameItem(items0[e], items[e])
    {
      if items0[e].binary.stream < s {
        RecordedSame(items0[e], items[e], supplies[e], chunkBuffers, o);
      }
    }
  }

  /** Sizes from the counters and digests from the digesters, those that are enabled, into an entry's record. */
  method RecordEntry(item: Item, m: Measured, supply: Supply, chunkBuffers: seq<seq<nat>>, o: Options) returns (recorded: Item)
    requires Supplied(item, supply) && (o.md5 ==> PiecesShort(item, supply, chunkBuffers, o, Md5Count.TWO32 - 64))
    requires MeasureOf(m, Streams.Denote(supply.source), PieceBound(item, supply, chunkBuffers, o))
    ensures IsRecorded(item, recorded, supply, chunkBuffers, o)
  {
    hide Streams.Good, Streams.Denote, Extraction.Stages, Sha1Standard.Short, Number, PieceBound, Crc32.Checksum, Md5Digester.FinalDigest,
         Md5Count.CountAll, Sha1Standard.Sha1, Total;
    if o.md5 {
      DigestFilter.PiecesBelow(m.pieces, PieceBound(item, supply, chunkBuffers, o), Md5Count.TWO32 - 64);
    }
    var crc32, md5, sha1 := DigestFilter.DigestPieces(m.digested, m.pieces, o.crc32, o.md5, o.sha1);
    var before := item.binary.digest;
    var digest := DigestInfo(m.size, if o.crc32 then Word(crc32) else before.crc32, if o.md5 then Number(md5) else before.md5,
                             if o.sha1 then Number(sha1) else before.sha1);
    recorded := item.(binary := item.binary.(filteredSize := m.filteredSize, digest := digest));
    assert RecordedAs(item, recorded, supply, PieceBound(item, supply, chunkBuffers, o), o, m.pieces);
  }

  /** Where the reserved places stand. */
  datatype Refs = Refs(header: nat, sectionTable: nat, entryTable: nat, streamTable: nat)

  ghost predicate TablesReserved(parts: seq<seq<byte>>, refs: Refs, items: seq<Item>, chunks: seq<Chunk>) {
    && |parts| >= 6 && |parts[0]| == HEADER_SIZE && |parts[1]| == SECTION_SIZE * Reserved(items, chunks)
    && |parts[2]| == ENTRY_SIZE * |items| && |parts[3]| == |Concat(Payloads(ItemFilters(items)))|
    && |parts[4]| == STREAM_SIZE * |chunks| && |parts[5]| == |Concat(Payloads(ChunkFilters(chunks)))|
    && refs == Refs(Start(parts, 0), Start(parts, 1), Start(parts, 2), Start(parts, 4))
  }

  lemma EmptyConcat()
    ensures Concat([]) == []
  {
  }

  lemma FirstStarts(parts: seq<seq<byte>>)
    requires |parts| == 2 && |parts[0]| == HEADER_SIZE
    ensures Start(parts, 0) == 0 && Start(parts, 1) == HEADER_SIZE
  {
    StartZero(parts);
    PartAt(parts, 0);
  }

  /** The name, and then the NUL. */
  method WriteName(w: MemoryBuffer, name: seq<byte>, ghost parts: seq<seq<byte>>)
    requires Growing(w, parts)
    modifies w, w.data
    ensures Growing(w, parts + [name + [0]]) && (w.data == old(w.data) || fresh(w.data))
    ensures w.position == old(w.position) + |name| + 1
  {
    Append(w, name);
    Append(w, [0]);
    ConcatAppend(parts, name + [0]);
    assert Concat(parts) + (name + [0]) == Concat(parts) + name + [0];
  }

  function WithData(chunk: Chunk, offset: nat, length: nat): Chunk {
    chunk.(binary := chunk.binary.(offset := offset, length := length))
  }

  /** An entry once its stream is written. */
  ghost function RecordedItem(item: Item, supply: Supply, o: Options, pieces: seq<nat>): Item
    requires Supplied(item, supply)
  {
    item.(binary := Recorded(item.binary, MeasuredOf(Streams.Denote(supply.source), pieces), o))
  }

  ghost predicate IsMeasured(items: seq<Item>, supplies: seq<Supply>, chunkBuffers: seq<seq<nat>>, o: Options, e: int, m: Measured) {
    && 0 <= e < |supplies| && |items| == |supplies| && Streams.Bounded(supplies[e].source)
    && MeasureOf(m, Streams.Denote(supplies[e].source), PieceBound(items[e], supplies[e], chunkBuffers, o))
  }

  lemma MeasuredIs(items: seq<Item>, supplies: seq<Supply>, chunkBuffers: seq<seq<nat>>, o: Options, e: int, m: Measured)
    requires IsMeasured(items, supplies, chunkBuffers, o, e, m)
    ensures 0 <= e < |supplies| == |items| && Streams.Bounded(supplies[e].source)
    ensures MeasureOf(m, Streams.Denote(supplies[e].source), PieceBound(items[e], supplies[e], chunkBuffers, o))
  {
  }

  /** The entries of stream `s` are entries, and everything it needs is there. */
  ghost predicate EntriesAreListed(items: seq<Item>, supplies: seq<Supply>, chunks: seq<Chunk>, chunkBuffers: seq<seq<nat>>,
                                   o: Options, s: nat)
  {
    && s < |chunks| == |chunkBuffers| && |items| == |supplies| && Listed(chunks[s].entries, |items|)
    && AllXor(chunks[s].filters) && Chains.Keys(KeysOf(chunks[s].filters)) && Extraction.Stages(KeysOf(chunks[s].filters), chunkBuffers[s])
    && o.bufferSize >= 1 && forall i :: 0 <= i < |items| ==> Supplied(items[i], supplies[i])
  }

  lemma ListedEntries(items: seq<Item>, supplies: seq<Supply>, chunks: seq<Chunk>, chunkBuffers: seq<seq<nat>>, o: Options, s: nat)
    requires Ready(items, supplies, chunks, chunkBuffers, o) && s < |chunks|
    ensures EntriesAreListed(items, supplies, chunks, chunkBuffers, o, s)
  {
    hide Streams.Good, Streams.Bounded, Streams.Denote, Supplied;
    var entries := chunks[s].entries;
    forall i | 0 <= i < |entries|
      ensures 0 <= entries[i] < |items|
    {
      assert entries[i] == Lists(chunks)[s][i];
    }
    assert Equipped(chunks[s], chunkBuffers[s]);
  }

  lemma ListAt(places: seq<Mapping.Place>, chunks: seq<Chunk>, s: nat, i: nat)
    requires Mapping.Bijection(places, |places|, Lists(chunks)) && s < |chunks| && i < |chunks[s].entries|
    ensures 0 <= chunks[s].entries[i] < |places| && places[chunks[s].entries[i]] == Mapping.Place(s, i)
    ensures forall e :: 0 <= e < |places| && places[e] == Mapping.Place(s, i) ==> e == chunks[s].entries[i]
  {
    assert Lists(chunks)[s][i] == chunks[s].entries[i];
    forall e | 0 <= e < |places| && places[e] == Mapping.Place(s, i)
      ensures e == chunks[s].entries[i]
    {
      assert Mapping.Placed(places[e], Lists(chunks));
    }
  }

  ghost predicate IsDelivered(items: seq<Item>, supplies: seq<Supply>, chunks: seq<Chunk>, chunkBuffers: seq<seq<nat>>,
                              o: Options, s: nat, x: seq<byte>)
  {
    EntriesAreListed(items, supplies, chunks, chunkBuffers, o, s) && x == Delivered(items, supplies, chunks[s])
  }

  lemma ReadyBasics(items: seq<Item>, supplies: seq<Supply>, chunks: seq<Chunk>, chunkBuffers: seq<seq<nat>>, o: Options)
    requires Ready(items, supplies, chunks, chunkBuffers, o)
    ensures |items| == |supplies| && ItemsFit(items) && o.digesterBuffer >= 1
    ensures forall e :: 0 <= e < |items| ==> Supplied(items[e], supplies[e]) && 0 <= items[e].binary.stream < |chunks|
  {
    hide Supplied;
    forall e | 0 <= e < |items|
      ensures 0 <= items[e].binary.stream < |chunks|
    {
      assert Mapping.Placed(Places(items)[e], Lists(chunks));
    }
  }

  /** Records do not matter for what a stream delivers. */
  lemma DeliveredStays(a: seq<Item>, b: seq<Item>, c: seq<Chunk>, d: seq<Chunk>, supplies: seq<Supply>, chunkBuffers: seq<seq<nat>>,
                       o: Options, s: nat, x: seq<byte>)
    requires SameItems(a, b) && SameChunks(c, d) && s < |c|
    requires EntriesAreListed(a, supplies, c, chunkBuffers, o, s)
    requires IsDelivered(b, supplies, d, chunkBuffers, o, s, x)
    ensures IsDelivered(a, supplies, c, chunkBuffers, o, s, x)
  {
    hide Supplied, Filtrates, Chains.XorAll;
    var entries := c[s].entries;
    forall i | 0 <= i < |entries|
      ensures PartsOf(a, supplies, entries)[i] == PartsOf(b, supplies, entries)[i]
    {
      assert SameItem(a[entries[i]], b[entries[i]]);
      SuppliedIsXor(a[entries[i]], supplies[entries[i]]);
      SuppliedIsXor(b[entries[i]], supplies[entries[i]]);
    }
    assert PartsOf(a, supplies, entries) == PartsOf(b, supplies, entries);
  }

  lemma SuppliedIsXor(item: Item, supply: Supply)
    requires Supplied(item, supply)
    ensures AllXor(item.filters)
  {
  }

  lemma StartsGrow(parts: seq<seq<byte>>, data: seq<seq<byte>>, x: seq<byte>)
    ensures |Concat(parts + data)| == |Concat(parts)| + Start(data + [x], |data|)
    ensures forall t :: 0 <= t <= |data| ==> Start(data + [x], t) == Start(data, t)
  {
    ConcatTwo(parts, data);
    assert (data + [x])[..|data|] == data;
    forall t | 0 <= t <= |data|
      ensures Start(data + [x], t) == Start(data, t)
    {
      AppendedStart(data, x, t);
    }
  }

  lemma AsOnePart(parts: seq<seq<byte>>, more: seq<seq<byte>>)
    ensures Concat(parts + more) == Concat(parts + [Concat(more)])
  {
    ConcatTwo(parts, more);
    ConcatAppend(parts, Concat(more));
  }

  lemma PlaceIs(base: nat, payloads: seq<seq<byte>>, i: nat)
    requires i < |payloads|
    ensures PlaceOf(base, payloads, i) == if |payloads[i]| > 0 then base + Start(payloads, i) else 0
  {
  }

  function WithPayload(items: seq<Item>, base: nat, i: nat): Item
    requires i < |items|
  {
    var b := items[i].binary;
    items[i].(binary := b.(payload := PlaceOf(base, Payloads(ItemFilters(items)), i), payloadLength := |QueuePayload(items[i].filters)|))
  }

  function ChunkWithPayload(chunks: seq<Chunk>, base: nat, s: nat): Chunk
    requires s < |chunks|
  {
    var b := chunks[s].binary;
    chunks[s].(binary := b.(payload := PlaceOf(base, Payloads(ChunkFilters(chunks)), s), payloadLength := |QueuePayload(chunks[s].filters)|))
  }

  function WithName(items: seq<Item>, base: nat, i: nat): Item
    requires i < |items|
  {
    items[i].(binary := items[i].binary.(nameOffset := base + Start(NameRecords(items), i)))
  }
}
