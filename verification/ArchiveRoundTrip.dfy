/**
 From sources to a file and back (src/box/archive.cpp): an archive is written, read back, checked,
 and its entries are extracted through `ArchiveReadHandle::source`.
 */
module ArchiveRoundTrip {
  import opened Bytes
  import opened Records
  import opened Buffers
  import opened FilterQueue
  import opened Segments
  import opened ArchiveFits
  import opened ArchiveLayout
  import opened StreamWriting
  import Chains
  import Extraction
  import Filters
  import Mapping
  import Md5Count
  import Reader = ArchiveReader
  import Sha1Standard
  import Streams
  import Writer = ArchiveWriter

  // ---------------------------------------------------------------------------------------
  // Writing and reading
  // ---------------------------------------------------------------------------------------

  /** Writing does not change which entry belongs where. */
  lemma PlacesStay(items0: seq<Item>, supplies: seq<Writer.Supply>, chunks0: seq<Chunk>, chunkBuffers: seq<seq<nat>>, o: Writer.Options,
                   items: seq<Item>, chunks: seq<Chunk>, data: seq<seq<byte>>)
    requires Writer.WrittenFrom(items0, supplies, chunks0, chunkBuffers, o, items, chunks, data)
    ensures Writer.Places(items) == Writer.Places(items0) && Writer.Lists(chunks) == Writer.Lists(chunks0)
  {
    hide Writer.IsDelivered, Writer.Supplied, Writer.Recorded;
    forall e | 0 <= e < |items|
      ensures Writer.Places(items)[e] == Writer.Places(items0)[e]
    {
      assert Writer.IsWritten(items0[e], items[e], supplies[e], chunkBuffers, o);
      SamePlace(items0[e], items[e], supplies[e], chunkBuffers, o);
    }
    forall s | 0 <= s < |chunks|
      ensures Writer.Lists(chunks)[s] == Writer.Lists(chunks0)[s]
    {
      assert Writer.SameButRecord(chunks0[s], chunks[s]);
    }
  }

  lemma SamePlace(before: Item, after: Item, supply: Writer.Supply, chunkBuffers: seq<seq<nat>>, o: Writer.Options)
    requires Writer.IsWritten(before, after, supply, chunkBuffers, o)
    ensures Writer.PlaceIn(after.binary) == Writer.PlaceIn(before.binary) && after.name == before.name && after.filters == before.filters
  {
  }

  lemma ReadyBijection(items: seq<Item>, supplies: seq<Writer.Supply>, chunks: seq<Chunk>, chunkBuffers: seq<seq<nat>>, o: Writer.Options)
    requires Writer.Ready(items, supplies, chunks, chunkBuffers, o)
    ensures Mapping.Bijection(Writer.Places(items), |items|, Writer.Lists(chunks))
  {
  }

  /** Each stream lists its entries in ascending order. */
  ghost predicate InOrder(items: seq<Item>, chunks: nat) {
    Mapping.InOrder(Writer.Places(items), |items|, chunks)
  }

  /** What is read is what was written, as far as the format says it. */
  ghost predicate ReadBack(b: Box, l: Reader.Loaded) {
    l == Reader.Loaded(b.header, b.headers, Reader.ItemsBack(b.items), Reader.ListedBack(b.chunks))
  }

  /** An entry's sizes and digests are those of its source, the MD5 if no piece of it reaches 2^29 bytes. */
  ghost predicate EntryRight(before: Item, after: Item, supply: Writer.Supply, chunkBuffers: seq<seq<nat>>, o: Writer.Options) {
    && Streams.Bounded(supply.source) && Sha1Standard.Short(|Streams.Denote(supply.source)|)
    && after.binary.filteredSize == |Streams.Denote(supply.source)|
    && Writer.DigestsRight(after.binary.digest, Streams.Denote(supply.source), o,
                           Writer.PiecesShort(before, supply, chunkBuffers, o, Md5Count.TWO29))
  }

  ghost predicate AllRight(before: seq<Item>, after: seq<Item>, supplies: seq<Writer.Supply>, chunkBuffers: seq<seq<nat>>, o: Writer.Options) {
    |before| == |after| == |supplies| && forall e :: 0 <= e < |before| ==> EntryRight(before[e], after[e], supplies[e], chunkBuffers, o)
  }

  lemma EntriesRight(b: Box, items0: seq<Item>, supplies: seq<Writer.Supply>, chunks0: seq<Chunk>, chunkBuffers: seq<seq<nat>>, o: Writer.Options)
    requires WrittenBox(b, items0, supplies, chunks0, chunkBuffers, o)
    ensures AllRight(items0, b.items, supplies, chunkBuffers, o)
  {
    hide LaidOut, Writer.Ready, Writer.IsDelivered, Writer.IsWritten, Writer.DigestsRight, Writer.PiecesShort;
    forall e | 0 <= e < |items0|
      ensures EntryRight(items0[e], b.items[e], supplies[e], chunkBuffers, o)
    {
      assert Writer.IsWritten(items0[e], b.items[e], supplies[e], chunkBuffers, o);
      Writer.WrittenDigests(items0[e], b.items[e], supplies[e], chunkBuffers, o);
      WrittenSizes(items0[e], b.items[e], supplies[e], chunkBuffers, o);
    }
  }

  /**
   An archive written and read back: the file is as large as what goes into it says, reading comes
   through exactly when each stream lists its entries in ascending order; then everything is as it
   was, and the checksum is found valid, whatever the sizes of the digesters' buffers on either side.
   */
  method WriteAndRead(a: Writer.Archive, w: MemoryBuffer, back: Reader.Archive, digesterBuffer: nat)
    returns (ok: bool, valid: bool, ghost b: Box)
    requires a.Valid() && w.Valid() && w.Contents() == [] && w.position == 0 && digesterBuffer >= 1
    requires Fits(a.header, a.items, a.supplies, a.chunks) && (a.chunks != [] ==> Writer.SomethingToWrite(a.supplies))
    modifies a`items, a`chunks, a`header, a`headers, w, w.data, back
    ensures b == Box(a.header, a.headers, b.order, a.items, a.chunks, b.data)
    ensures Encodable(b) && w.Valid() && w.Contents() == File(b)
    ensures |w.Contents()| == FileSize(old(a.items), a.supplies, old(a.chunks))
    ensures AllRight(old(a.items), a.items, a.supplies, a.chunkBuffers, a.options)
    ensures ok <==> InOrder(old(a.items), |old(a.chunks)|)
    ensures ok ==> ReadBack(b, Reader.Loaded(back.header, back.sections, back.items, back.chunks))
    ensures ok && a.options.globalChecksum ==> valid
    ensures WrittenBox(b, old(a.items), a.supplies, old(a.chunks), a.chunkBuffers, a.options)
  {
    hide Writer.Ready, Writer.WrittenFrom, LaidOut, Reader.BoxFits, File, Reader.Load, Mapping.InOrder, Mapping.Bijection, AllRight,
         Writer.CastsLoseNothing, Writer.SomethingToWrite, Writer.ChecksumOf, Encodable, FileSize, RecordsFit;
    ghost var items0, chunks0, header0 := a.items, a.chunks, a.header;
    ReadyBijection(a.items, a.supplies, a.chunks, a.chunkBuffers, a.options);
    b := a.Write(w);
    Reader.Ordered(b);
    PlacesStay(items0, a.supplies, chunks0, a.chunkBuffers, a.options, a.items, a.chunks, b.data);
    SameCounts(items0, a.supplies, chunks0, a.chunkBuffers, a.options, a.items, a.chunks, b.data);
    EntriesRight(b, items0, a.supplies, chunks0, a.chunkBuffers, a.options);
    FileSizeIs(b, items0, a.supplies, chunks0, a.chunkBuffers, a.options);
    WrittenFits(b, header0, items0, a.supplies, chunks0, a.chunkBuffers, a.options);
    Reader.WrittenReadsBack(b);
    ok := back.Read(w);
    valid := true;
    if ok && w.size >= HEADER_SIZE {
      valid := back.IsValidGlobalChecksum(w, digesterBuffer);
    }
  }

  lemma SameCounts(items0: seq<Item>, supplies: seq<Writer.Supply>, chunks0: seq<Chunk>, chunkBuffers: seq<seq<nat>>, o: Writer.Options,
                   items: seq<Item>, chunks: seq<Chunk>, data: seq<seq<byte>>)
    requires Writer.WrittenFrom(items0, supplies, chunks0, chunkBuffers, o, items, chunks, data)
    ensures |items| == |items0| && |chunks| == |chunks0|
  {
  }

  /** What comes back of an entry is the entry exactly when its name has no NUL and its keys are short enough. */
  lemma ItemComesBackExactly(item: Item)
    ensures Reader.ItemBack(item) == item
            <==> 0 !in item.name && forall i :: 0 <= i < |item.filters| && item.filters[i].XorFilter? ==> |item.filters[i].key| < Base(4)
  {
    hide Base, Trimmed;
    Reader.NameComesBackExactly(item.name);
    forall i | 0 <= i < |item.filters|
      ensures Trimmed(item.filters[i]) == item.filters[i] <==> (item.filters[i].XorFilter? ==> |item.filters[i].key| < Base(4))
    {
      TrimmedSame(item.filters[i]);
    }
    if forall i :: 0 <= i < |item.filters| && item.filters[i].XorFilter? ==> |item.filters[i].key| < Base(4) {
      assert AllTrimmed(item.filters) == item.filters;
    } else {
      var i :| 0 <= i < |item.filters| && item.filters[i].XorFilter? && |item.filters[i].key| >= Base(4);
      assert AllTrimmed(item.filters)[i] != item.filters[i];
    }
  }

  // ---------------------------------------------------------------------------------------
  // Extracting
  // ---------------------------------------------------------------------------------------

  /** The size that an entry has in its stream, as extraction sees it. */
  function SizeIn(e: Entry, total: bool): nat {
    if total then e.digest.size else e.filteredSize
  }

  /** The bytes of the first `i` entries of a stream. */
  function SkipAmount(items: seq<Item>, entries: seq<int>, i: nat, total: bool): nat
    requires i <= |entries| && forall j :: 0 <= j < |entries| ==> 0 <= entries[j] < |items|
    decreases i
  {
    if i == 0 then 0 else SkipAmount(items, entries, i - 1, total) + SizeIn(items[entries[i - 1]].binary, total)
  }

  ghost predicate Extractable(items: seq<Item>, chunks: seq<Chunk>, e: nat) {
    && e < |items| && 0 <= items[e].binary.stream < |chunks|
    && var chunk := chunks[items[e].binary.stream];
    && 0 <= items[e].binary.indexInStream < |chunk.entries|
    && (forall j :: 0 <= j < |chunk.entries| ==> 0 <= chunk.entries[j] < |items|)
    && Writer.AllXor(items[e].filters) && Writer.AllXor(chunk.filters)
  }

  function BufferSizes(n: nat, bufferSize: nat): (r: seq<nat>)
    ensures |r| == n
  {
    seq(n, _ => bufferSize)
  }

  /** How entry `e` is extracted. */
  ghost function ExtractionOf(file: seq<byte>, items: seq<Item>, chunks: seq<Chunk>, e: nat, total: bool, bufferSize: nat): Extraction.Extraction
    requires Extractable(items, chunks, e)
  {
    var b := items[e].binary;
    var chunk := chunks[b.stream];
    Extraction.Extraction(file, chunk.binary.offset, Writer.KeysOf(chunk.filters), Writer.KeysOf(items[e].filters),
                          BufferSizes(|chunk.filters|, bufferSize), BufferSizes(|items[e].filters|, bufferSize), bufferSize,
                          SkipAmount(items, chunk.entries, b.indexInStream, total), SizeIn(b, total))
  }

  function OriginalSizes(items: seq<Item>, entries: seq<int>): (r: seq<nat>)
    requires forall j :: 0 <= j < |entries| ==> 0 <= entries[j] < |items|
    ensures |r| == |entries|
  {
    seq(|entries|, j requires 0 <= j < |entries| => items[entries[j]].binary.digest.size)
  }

  function FilteredSizes(items: seq<Item>, entries: seq<int>): (r: seq<nat>)
    requires forall j :: 0 <= j < |entries| ==> 0 <= entries[j] < |items|
    ensures |r| == |entries|
  {
    seq(|entries|, j requires 0 <= j < |entries| => items[entries[j]].binary.filteredSize)
  }

  lemma {:induction false} SkipSums(items: seq<Item>, entries: seq<int>, i: nat)
    requires i <= |entries| && forall j :: 0 <= j < |entries| ==> 0 <= entries[j] < |items|
    ensures SkipAmount(items, entries, i, true) == Total(OriginalSizes(items, entries[..i]))
    ensures SkipAmount(items, entries, i, false) == Total(FilteredSizes(items, entries[..i]))
    decreases i
  {
    if i > 0 {
      SkipSums(items, entries, i - 1);
      var e := entries[i - 1];
      assert OriginalSizes(items, entries[..i]) == OriginalSizes(items, entries[..i - 1]) + [items[e].binary.digest.size];
      assert FilteredSizes(items, entries[..i]) == FilteredSizes(items, entries[..i - 1]) + [items[e].binary.filteredSize];
      SumAppend(OriginalSizes(items, entries[..i - 1]), items[e].binary.digest.size);
      SumAppend(FilteredSizes(items, entries[..i - 1]), items[e].binary.filteredSize);
    }
  }

  /**
   Whatever the records say: with the entry's filters undone, the original sizes of the entries before it
   are skipped and its original size is passed on; else their filtered sizes, and its own.
   */
  lemma SkipCounts(file: seq<byte>, items: seq<Item>, chunks: seq<Chunk>, e: nat, bufferSize: nat)
    requires Extractable(items, chunks, e)
    ensures var b, x := items[e].binary, ExtractionOf(file, items, chunks, e, true, bufferSize);
            x.skip == Total(OriginalSizes(items, chunks[b.stream].entries[..b.indexInStream])) && x.amount == b.digest.size
    ensures var b, x := items[e].binary, ExtractionOf(file, items, chunks, e, false, bufferSize);
            x.skip == Total(FilteredSizes(items, chunks[b.stream].entries[..b.indexInStream])) && x.amount == b.filteredSize
  {
    hide Total, SkipAmount, OriginalSizes, FilteredSizes, BufferSizes;
    SkipSums(items, chunks[items[e].binary.stream].entries, items[e].binary.indexInStream);
  }

  /** One filter more for each key, the last of the queue first. */
  method Unapply(source: Streams.Source, filters: seq<Builder>, bufferSize: nat) returns (tail: Streams.Source)
    requires Writer.AllXor(filters)
    ensures tail == Extraction.Tower(source, Chains.Reverse(Writer.KeysOf(filters)), BufferSizes(|filters|, bufferSize))
  {
    hide Filters.FreshXor;
    var keys := Writer.KeysOf(filters);
    tail := source;
    var i := |filters|;
    ghost var reversed := Chains.Reverse(keys);
    assert reversed[..0] == [] && BufferSizes(0, bufferSize) == [];
    while i > 0
      invariant 0 <= i <= |filters|
      invariant tail == Extraction.Tower(source, reversed[..|keys| - i], BufferSizes(|keys| - i, bufferSize))
    {
      i := i - 1;
      var n := |keys| - i - 1;
      TowerOneMore(source, reversed[..n], BufferSizes(n, bufferSize), reversed[n], bufferSize);
      assert reversed[..n] + [reversed[n]] == reversed[..n + 1];
      assert BufferSizes(n, bufferSize) + [bufferSize] == BufferSizes(n + 1, bufferSize);
      tail := Streams.Filtered(tail, Filters.FreshXor(bufferSize, filters[i].key));
    }
    assert reversed[..|keys|] == reversed;
  }

  lemma {:induction false} TowerOneMore(s: Streams.Source, keys: seq<seq<byte>>, capacities: seq<nat>, key: seq<byte>, capacity: nat)
    requires |keys| == |capacities|
    ensures Extraction.Tower(s, keys + [key], capacities + [capacity])
         == Streams.Filtered(Extraction.Tower(s, keys, capacities), Filters.FreshXor(capacity, key))
    decreases |keys|
  {
    hide Filters.FreshXor;
    if keys == [] {
      var one: seq<seq<byte>> := [key];
      assert keys + [key] == one && capacities + [capacity] == [capacity] && one[1..] == [] && [capacity][1..] == [];
    } else {
      assert (keys + [key])[1..] == keys[1..] + [key] && (capacities + [capacity])[1..] == capacities[1..] + [capacity];
      TowerOneMore(Streams.Filtered(s, Filters.FreshXor(capacities[0], keys[0])), keys[1..], capacities[1..], key, capacity);
    }
  }

  lemma {:induction false} TowerTwo(s: Streams.Source, a: seq<seq<byte>>, b: seq<seq<byte>>, ca: seq<nat>, cb: seq<nat>)
    requires |a| == |ca| && |b| == |cb|
    ensures Extraction.Tower(s, a + b, ca + cb) == Extraction.Tower(Extraction.Tower(s, a, ca), b, cb)
    decreases |a|
  {
    hide Filters.FreshXor;
    if a == [] {
      assert a + b == b && ca + cb == cb;
    } else {
      assert (a + b)[1..] == a[1..] + b && (ca + cb)[1..] == ca[1..] + cb;
      TowerTwo(Streams.Filtered(s, Filters.FreshXor(ca[0], a[0])), a[1..], b, ca[1..], cb);
    }
  }

  lemma SizesReverse(n: nat, bufferSize: nat)
    ensures Chains.Reverse(BufferSizes(n, bufferSize)) == BufferSizes(n, bufferSize)
  {
  }

  /** `ArchiveReadHandle::source`: the stream's filters undone, perhaps the entry's, and a skip filter to the entry. */
  method EntrySource(file: seq<byte>, items: seq<Item>, chunks: seq<Chunk>, e: nat, total: bool, bufferSize: nat)
    returns (source: Streams.Source)
    requires Extractable(items, chunks, e)
    ensures source == Extraction.EntrySource(ExtractionOf(file, items, chunks, e, total, bufferSize), total)
  {
    hide Extraction.Tower, Chains.Reverse, BufferSizes;
    var b := items[e].binary;
    var chunk := chunks[b.stream];
    var base := Streams.LazySeek(file, 0, chunk.binary.offset, false);
    source := Unapply(base, chunk.filters, bufferSize);
    SizesReverse(|chunk.filters|, bufferSize);
    SizesReverse(|items[e].filters|, bufferSize);
    ghost var first, second := Chains.Reverse(Writer.KeysOf(chunk.filters)), Chains.Reverse(Writer.KeysOf(items[e].filters));
    if total {
      source := Unapply(source, items[e].filters, bufferSize);
      TowerTwo(base, first, second, BufferSizes(|chunk.filters|, bufferSize), BufferSizes(|items[e].filters|, bufferSize));
    } else {
      assert first + [] == first && BufferSizes(|chunk.filters|, bufferSize) + [] == BufferSizes(|chunk.filters|, bufferSize);
    }
    var skipAmount := 0;
    for i := 0 to b.indexInStream
      invariant skipAmount == SkipAmount(items, chunk.entries, i, total)
    {
      var other := items[chunk.entries[i]].binary;
      skipAmount := skipAmount + if total then other.digest.size else other.filteredSize;
    }
    source := Streams.Filtered(source, Filters.FreshSkip(bufferSize, skipAmount, if total then b.digest.size else b.filteredSize, 0));
  }

  // ---------------------------------------------------------------------------------------
  // What is extracted of what was written
  // ---------------------------------------------------------------------------------------

  /** The file from a stream's offset on: what the stream delivered, and something. */
  lemma StreamInFile(b: Box, s: nat)
    requires LaidOut(b) && s < |b.chunks|
    ensures Encodable(b) && b.chunks[s].binary.offset + |b.data[s]| <= |File(b)|
    ensures File(b)[b.chunks[s].binary.offset..] == b.data[s] + File(b)[b.chunks[s].binary.offset + |b.data[s]|..]
  {
    hide Concat, Start, ItemPlaced, SectionsOf, Permutation, EncodeHeader, SectionRecords, EntryRecords, StreamRecords, Payloads, NameRecords;
    hide PlaceOf, QueuePayload;
    assert ChunkPlaced(b.chunks, b.data, s, Start(FileParts(b), 5), Start(FileParts(b), 6));
    Reader.RecordBytes(FileParts(b), 6, b.data, s);
    var file, at := File(b), b.chunks[s].binary.offset;
    assert file[at..] == file[at..at + |b.data[s]|] + file[at + |b.data[s]|..];
  }

  lemma WrittenSizes(before: Item, after: Item, supply: Writer.Supply, chunkBuffers: seq<seq<nat>>, o: Writer.Options)
    requires Writer.IsWritten(before, after, supply, chunkBuffers, o)
    ensures Streams.Bounded(supply.source)
    ensures after.binary.filteredSize == after.binary.digest.size == |Streams.Denote(supply.source)|
    ensures after.filters == before.filters && Writer.AllXor(before.filters)
  {
  }

  /** Where an entry belongs, and what is known there. */
  lemma EntryPlaced(b: Box, items0: seq<Item>, supplies: seq<Writer.Supply>, chunks0: seq<Chunk>, chunkBuffers: seq<seq<nat>>,
                    o: Writer.Options, e: nat)
    requires WrittenBox(b, items0, supplies, chunks0, chunkBuffers, o) && e < |b.items|
    ensures Extractable(b.items, b.chunks, e) && |b.chunks| == |chunks0| == |b.data|
    ensures var s := b.items[e].binary.stream;
            && b.chunks[s].entries == chunks0[s].entries && b.chunks[s].filters == chunks0[s].filters
            && chunks0[s].entries[b.items[e].binary.indexInStream] == e
            && Writer.EntriesAreListed(items0, supplies, chunks0, chunkBuffers, o, s)
            && b.data[s] == Writer.Delivered(items0, supplies, chunks0[s])
  {
    hide Writer.Supplied, LaidOut, Writer.Delivered, Writer.IsWritten;
    PlacesStay(items0, supplies, chunks0, chunkBuffers, o, b.items, b.chunks, b.data);
    ReadyBijection(items0, supplies, chunks0, chunkBuffers, o);
    var places, lists := Writer.Places(b.items), Writer.Lists(b.chunks);
    assert Mapping.Placed(places[e], lists);
    var s := b.items[e].binary.stream;
    assert lists[s] == b.chunks[s].entries == Writer.Lists(chunks0)[s];
    Writer.ListedEntries(items0, supplies, chunks0, chunkBuffers, o, s);
    assert Writer.IsDelivered(items0, supplies, chunks0, chunkBuffers, o, s, b.data[s]);
    assert Writer.IsWritten(items0[e], b.items[e], supplies[e], chunkBuffers, o);
    WrittenSizes(items0[e], b.items[e], supplies[e], chunkBuffers, o);
    assert Writer.SameButRecord(chunks0[s], b.chunks[s]);
  }

  /** What is skipped is what the earlier entries of the stream take up in it. */
  lemma {:induction false} SkipIsStart(b: Box, items0: seq<Item>, supplies: seq<Writer.Supply>, chunks0: seq<Chunk>, chunkBuffers: seq<seq<nat>>,
                                       o: Writer.Options, entries: seq<int>, i: nat, total: bool)
    requires Writer.WrittenFrom(items0, supplies, chunks0, chunkBuffers, o, b.items, b.chunks, b.data)
    requires Writer.Listed(entries, |items0|) && i <= |entries|
    requires forall e :: 0 <= e < |items0| ==> Writer.Supplied(items0[e], supplies[e])
    ensures forall j :: 0 <= j < |entries| ==> 0 <= entries[j] < |b.items|
    ensures forall j :: 0 <= j < |entries| ==>
              Streams.Bounded(Writer.PartsOf(items0, supplies, entries)[j].source) && Chains.Keys(Writer.PartsOf(items0, supplies, entries)[j].keys)
    ensures SkipAmount(b.items, entries, i, total) == Start(Filtrates(Writer.PartsOf(items0, supplies, entries)), i)
    decreases i
  {
    hide Writer.Supplied, Start, Writer.IsWritten, Streams.Bounded, Chains.Keys, Streams.Denote, Concat, Filtrates, Writer.PartsOf;
    Writer.SuppliedParts(items0, supplies, entries);
    var ps := Writer.PartsOf(items0, supplies, entries);
    StartZero(Filtrates(ps));
    if i > 0 {
      SkipIsStart(b, items0, supplies, chunks0, chunkBuffers, o, entries, i - 1, total);
      PartAt(Filtrates(ps), i - 1);
      var e := entries[i - 1];
      FiltrateLength(items0, supplies, entries, i - 1);
      assert Writer.IsWritten(items0[e], b.items[e], supplies[e], chunkBuffers, o);
      WrittenSizes(items0[e], b.items[e], supplies[e], chunkBuffers, o);
    }
  }

  lemma FiltrateLength(items: seq<Item>, supplies: seq<Writer.Supply>, entries: seq<int>, i: nat)
    requires |items| == |supplies| && Writer.Listed(entries, |items|) && i < |entries|
    requires forall e :: 0 <= e < |items| ==> Writer.Supplied(items[e], supplies[e])
    ensures forall j :: 0 <= j < |entries| ==>
              Streams.Bounded(Writer.PartsOf(items, supplies, entries)[j].source) && Chains.Keys(Writer.PartsOf(items, supplies, entries)[j].keys)
    ensures Streams.Bounded(supplies[entries[i]].source)
    ensures |Filtrates(Writer.PartsOf(items, supplies, entries))[i]| == |Streams.Denote(supplies[entries[i]].source)|
  {
    hide Writer.Supplied, Streams.Bounded, Chains.Keys, Streams.Denote, Chains.XorAll;
    Writer.SuppliedParts(items, supplies, entries);
    var ps := Writer.PartsOf(items, supplies, entries);
    Writer.SuppliedIsXor(items[entries[i]], supplies[entries[i]]);
    assert Filtrates(ps)[i] == Filtrate(ps[i]);
  }

  /** What stands before entry `i` of a stream, and behind it. */
  ghost function BeforeEntry(parts: seq<Part>, i: nat): seq<byte>
    requires i < |parts| && forall j :: 0 <= j < |parts| ==> Streams.Bounded(parts[j].source) && Chains.Keys(parts[j].keys)
  {
    Concat(Filtrates(parts)[..i])
  }

  ghost function AfterEntry(parts: seq<Part>, i: nat): seq<byte>
    requires i < |parts| && forall j :: 0 <= j < |parts| ==> Streams.Bounded(parts[j].source) && Chains.Keys(parts[j].keys)
  {
    Concat(Filtrates(parts)[i + 1..])
  }

  /** Extraction finds the file as writing left it. */
  lemma StoredAsWritten(b: Box, items0: seq<Item>, supplies: seq<Writer.Supply>, chunks0: seq<Chunk>, chunkBuffers: seq<seq<nat>>,
                        o: Writer.Options, e: nat, total: bool, bufferSize: nat)
    requires WrittenBox(b, items0, supplies, chunks0, chunkBuffers, o) && e < |b.items| && bufferSize >= 1
    ensures Extractable(b.items, b.chunks, e) && Encodable(b)
    ensures e < |supplies| && Streams.Bounded(supplies[e].source) && Writer.AllXor(items0[e].filters) && Chains.Keys(Writer.KeysOf(items0[e].filters))
    ensures var x := ExtractionOf(File(b), b.items, b.chunks, e, total, bufferSize);
            && Extraction.WellSet(x) && x.entryKeys == Writer.KeysOf(items0[e].filters)
            && exists before, after, rest ::
                 Extraction.Stored(x, before, Chains.XorAll(x.entryKeys, Streams.Denote(supplies[e].source)), after, rest)
  {
    hide Writer.Supplied, LaidOut, File, Start, Streams.Bounded, Chains.XorAll, Streams.Denote, Concat, Writer.Delivered, Encodable, Writer.Ready,
         Writer.WrittenFrom, Filtrates;
    Writer.ReadyBasics(items0, supplies, chunks0, chunkBuffers, o);
    EntryPlaced(b, items0, supplies, chunks0, chunkBuffers, o, e);
    var record := b.items[e].binary;
    var s, i, entries := record.stream, record.indexInStream, chunks0[record.stream].entries;
    StreamInFile(b, s);
    SkipIsStart(b, items0, supplies, chunks0, chunkBuffers, o, entries, i, total);
    var ps := Writer.PartsOf(items0, supplies, entries);
    DeliveredIs(items0, supplies, chunks0[s]);
    ThreeParts(Filtrates(ps), i);
    EntryKeys(b, items0, supplies, chunks0, chunkBuffers, o, e);
    var x := ExtractionOf(File(b), b.items, b.chunks, e, total, bufferSize);
    var before, after := BeforeEntry(ps, i), AfterEntry(ps, i);
    var rest := File(b)[b.chunks[s].binary.offset + |b.data[s]|..];
    assert Filtrates(ps)[i] == Chains.XorAll(x.entryKeys, Streams.Denote(supplies[e].source));
    assert x.skip == |before| by { SkipLength(ps, i); }
    assert Extraction.Stored(x, before, Chains.XorAll(x.entryKeys, Streams.Denote(supplies[e].source)), after, rest);
  }

  lemma SkipLength(parts: seq<Part>, i: nat)
    requires i < |parts| && forall j :: 0 <= j < |parts| ==> Streams.Bounded(parts[j].source) && Chains.Keys(parts[j].keys)
    ensures Start(Filtrates(parts), i) == |BeforeEntry(parts, i)|
  {
  }

  lemma DeliveredIs(items: seq<Item>, supplies: seq<Writer.Supply>, chunk: Chunk)
    requires |items| == |supplies| && Writer.Listed(chunk.entries, |items|) && Writer.AllXor(chunk.filters)
    requires Chains.Keys(Writer.KeysOf(chunk.filters)) && forall i :: 0 <= i < |items| ==> Writer.Supplied(items[i], supplies[i])
    ensures var ps := Writer.PartsOf(items, supplies, chunk.entries);
            (forall j :: 0 <= j < |ps| ==> Streams.Bounded(ps[j].source) && Chains.Keys(ps[j].keys))
            && Writer.Delivered(items, supplies, chunk) == Chains.XorAll(Writer.KeysOf(chunk.filters), Concat(Filtrates(ps)))
  {
    hide Writer.Supplied, Chains.XorAll, Concat, Filtrates, Streams.Bounded;
    Writer.SuppliedParts(items, supplies, chunk.entries);
  }

  lemma EntryKeys(b: Box, items0: seq<Item>, supplies: seq<Writer.Supply>, chunks0: seq<Chunk>, chunkBuffers: seq<seq<nat>>,
                  o: Writer.Options, e: nat)
    requires WrittenBox(b, items0, supplies, chunks0, chunkBuffers, o) && e < |b.items|
    ensures |items0| == |b.items| == |supplies| && b.items[e].filters == items0[e].filters && Writer.AllXor(items0[e].filters)
    ensures Chains.Keys(Writer.KeysOf(items0[e].filters)) && Streams.Bounded(supplies[e].source)
    ensures b.items[e].binary.filteredSize == b.items[e].binary.digest.size == |Streams.Denote(supplies[e].source)|
  {
    hide LaidOut, Writer.Ready;
    assert Writer.IsWritten(items0[e], b.items[e], supplies[e], chunkBuffers, o);
    WrittenSizes(items0[e], b.items[e], supplies[e], chunkBuffers, o);
  }

  /** Where entry `i` of a stream starts in it: behind the bytes of the earlier ones. */
  ghost function StartOf(supplies: seq<Writer.Supply>, entries: seq<int>, i: nat): nat
    requires i <= |entries|
  {
    Total(SourceLengths(supplies, entries[..i]))
  }

  lemma {:induction false} SkipIsStartOf(b: Box, items0: seq<Item>, supplies: seq<Writer.Supply>, chunks0: seq<Chunk>, chunkBuffers: seq<seq<nat>>,
                                         o: Writer.Options, entries: seq<int>, i: nat, total: bool)
    requires Writer.WrittenFrom(items0, supplies, chunks0, chunkBuffers, o, b.items, b.chunks, b.data)
    requires Writer.Listed(entries, |items0|) && i <= |entries|
    ensures |b.items| == |items0| && SkipAmount(b.items, entries, i, total) == StartOf(supplies, entries, i)
    decreases i
  {
    hide Writer.IsWritten, Streams.Bounded, Streams.Denote, Total;
    if i == 0 {
      assert SourceLengths(supplies, entries[..0]) == [];
      NothingTotal();
    } else {
      SkipIsStartOf(b, items0, supplies, chunks0, chunkBuffers, o, entries, i - 1, total);
      var e := entries[i - 1];
      assert Writer.IsWritten(items0[e], b.items[e], supplies[e], chunkBuffers, o);
      WrittenSizes(items0[e], b.items[e], supplies[e], chunkBuffers, o);
      SumAppend(SourceLengths(supplies, entries[..i - 1]), SourceLength(supplies, e));
      assert SourceLengths(supplies, entries[..i]) == SourceLengths(supplies, entries[..i - 1]) + [SourceLength(supplies, e)];
    }
  }

  lemma NothingTotal()
    ensures Total([]) == 0
  {
  }

  /**
   What extraction gives of an entry that starts at `start` in its stream. Without its filters
   undone: exactly its filtered bytes. With them undone: the original bytes exactly when the entry's
   key stream is the same at the start of the stream as where the entry stands in it. Of an empty
   entry: bytes that are not its own.
   */
  ghost predicate ExtractedFrom(got: seq<byte>, item: Item, supply: Writer.Supply, start: nat, total: bool) {
    && Writer.AllXor(item.filters) && Chains.Keys(Writer.KeysOf(item.filters)) && Streams.Bounded(supply.source)
    && var keys, original := Writer.KeysOf(item.filters), Streams.Denote(supply.source);
       if original == [] then got != []
       else if total then (got == original <==> Extraction.KeysAligned(keys, start, |original|))
       else got == Chains.XorAll(keys, original)
  }

  /** Every entry of every written archive. */
  lemma WrittenExtracts(b: Box, items0: seq<Item>, supplies: seq<Writer.Supply>, chunks0: seq<Chunk>, chunkBuffers: seq<seq<nat>>,
                        o: Writer.Options, e: nat, total: bool, bufferSize: nat)
    requires WrittenBox(b, items0, supplies, chunks0, chunkBuffers, o) && e < |b.items| && bufferSize >= 1
    ensures Encodable(b) && EntryKnown(items0, supplies, chunks0, e) && Extractable(b.items, b.chunks, e)
    ensures var source := Extraction.EntrySource(ExtractionOf(File(b), b.items, b.chunks, e, total, bufferSize), total);
            Streams.Good(source) && Streams.Bounded(source)
            && ExtractedFrom(Streams.Denote(source), items0[e], supplies[e], EntryStart(items0, supplies, chunks0, e), total)
  {
    hide WrittenBox, File, Streams.Bounded, Chains.XorAll, Streams.Denote, Streams.Good, Extraction.EntrySource, Extraction.KeysAligned,
         Extraction.WellSet, Extraction.Stored, ExtractionOf, Chains.Keys, Extractable, Encodable, StartOf, EntryKnown, EntryStart;
    StoredAsWritten(b, items0, supplies, chunks0, chunkBuffers, o, e, total, bufferSize);
    var original := Streams.Denote(supplies[e].source);
    StartsWhereWritten(b, items0, supplies, chunks0, chunkBuffers, o, e, total, bufferSize);
    var x := ExtractionOf(File(b), b.items, b.chunks, e, total, bufferSize);
    var before, after, rest :| Extraction.Stored(x, before, Chains.XorAll(x.entryKeys, original), after, rest);
    StoredSkip(x, before, Chains.XorAll(x.entryKeys, original), after, rest);
    if original == [] {
      NamesFollow(b, items0, supplies, chunks0, chunkBuffers, o, e, total, bufferSize);
      RestNotEmpty(x, before, Chains.XorAll(x.entryKeys, original), after, rest);
      Extraction.EmptyExtractionExact(x, total, before, after, rest);
    } else if total {
      Extraction.TotalExtractionExact(x, before, original, after, rest);
    } else {
      Extraction.FilteredExtractionExact(x, before, Chains.XorAll(x.entryKeys, original), after, rest);
    }
    EntrySourceBounded(x, total);
  }

  lemma EntrySourceBounded(x: Extraction.Extraction, total: bool)
    requires Extraction.WellSet(x) && Streams.Good(Extraction.EntrySource(x, total))
    ensures Streams.Bounded(Extraction.EntrySource(x, total))
  {
    Streams.GoodIsBounded(Extraction.EntrySource(x, total));
  }

  /** An entry's stream and its place there are known, and so is where it starts. */
  ghost predicate EntryKnown(items: seq<Item>, supplies: seq<Writer.Supply>, chunks: seq<Chunk>, e: nat) {
    && e < |items| == |supplies| && 0 <= items[e].binary.stream < |chunks|
    && 0 <= items[e].binary.indexInStream < |chunks[items[e].binary.stream].entries|
  }

  ghost function EntryStart(items: seq<Item>, supplies: seq<Writer.Supply>, chunks: seq<Chunk>, e: nat): nat
    requires EntryKnown(items, supplies, chunks, e)
  {
    StartOf(supplies, chunks[items[e].binary.stream].entries, items[e].binary.indexInStream)
  }

  lemma StartsWhereWritten(b: Box, items0: seq<Item>, supplies: seq<Writer.Supply>, chunks0: seq<Chunk>, chunkBuffers: seq<seq<nat>>,
                           o: Writer.Options, e: nat, total: bool, bufferSize: nat)
    requires WrittenBox(b, items0, supplies, chunks0, chunkBuffers, o) && e < |b.items|
    ensures EntryKnown(items0, supplies, chunks0, e) && Extractable(b.items, b.chunks, e)
    ensures ExtractionOf(File(b), b.items, b.chunks, e, total, bufferSize).skip == EntryStart(items0, supplies, chunks0, e)
  {
    hide LaidOut, Writer.Ready, StartOf, SkipAmount, Writer.Supplied, Writer.Delivered, Writer.IsDelivered, Writer.IsWritten, File;
    Writer.ReadyBasics(items0, supplies, chunks0, chunkBuffers, o);
    EntryPlaced(b, items0, supplies, chunks0, chunkBuffers, o, e);
    PlacesStay(items0, supplies, chunks0, chunkBuffers, o, b.items, b.chunks, b.data);
    assert Writer.Places(items0)[e] == Writer.Places(b.items)[e];
    var entries := chunks0[items0[e].binary.stream].entries;
    SkipIsStartOf(b, items0, supplies, chunks0, chunkBuffers, o, entries, items0[e].binary.indexInStream, total);
  }

  /** Behind an entry's place in its stream there is more in the file: at least a name's NUL. */
  lemma NamesFollow(b: Box, items0: seq<Item>, supplies: seq<Writer.Supply>, chunks0: seq<Chunk>, chunkBuffers: seq<seq<nat>>,
                    o: Writer.Options, e: nat, total: bool, bufferSize: nat)
    requires WrittenBox(b, items0, supplies, chunks0, chunkBuffers, o) && e < |b.items| && Extractable(b.items, b.chunks, e)
    ensures Encodable(b)
    ensures var x := ExtractionOf(File(b), b.items, b.chunks, e, total, bufferSize); x.offset + x.skip + x.amount < |x.file|
  {
    hide Concat, Start, SectionsOf, Permutation, EncodeHeader, SectionRecords, EntryRecords, StreamRecords, Payloads, PlaceOf, QueuePayload;
    hide Writer.Supplied, Writer.Delivered, Writer.Ready, ItemPlaced, SkipAmount, Writer.IsWritten, Filtrates, Chains.XorAll, Writer.PartsOf;
    hide Streams.Bounded, Streams.Denote, Chains.Keys;
    Writer.ReadyBasics(items0, supplies, chunks0, chunkBuffers, o);
    EntryPlaced(b, items0, supplies, chunks0, chunkBuffers, o, e);
    var s, i := b.items[e].binary.stream, b.items[e].binary.indexInStream;
    var entries := chunks0[s].entries;
    assert ChunkPlaced(b.chunks, b.data, s, Start(FileParts(b), 5), Start(FileParts(b), 6));
    SkipIsStart(b, items0, supplies, chunks0, chunkBuffers, o, entries, i + 1, total);
    assert SkipAmount(b.items, entries, i + 1, total) == SkipAmount(b.items, entries, i, total) + SizeIn(b.items[e].binary, total) by {
      SkipNext(b.items, entries, i, total);
    }
    var ps := Writer.PartsOf(items0, supplies, entries);
    StartWithin(Filtrates(ps), i + 1);
    DeliveredIs(items0, supplies, chunks0[s]);
    PartAt(b.data, s);
    PartAt(FileParts(b), 6);
    PartAt(FileParts(b), 7);
    TablesEmpty(b.items, b.chunks);
    assert |FileParts(b)[7]| > 0;
    assert |b.data[s]| == |Concat(Filtrates(ps))|;
  }

  lemma SkipNext(items: seq<Item>, entries: seq<int>, i: nat, total: bool)
    requires i < |entries| && forall j :: 0 <= j < |entries| ==> 0 <= entries[j] < |items|
    ensures SkipAmount(items, entries, i + 1, total) == SkipAmount(items, entries, i, total) + SizeIn(items[entries[i]].binary, total)
  {
  }

  lemma RestNotEmpty(x: Extraction.Extraction, before: seq<byte>, entry: seq<byte>, after: seq<byte>, rest: seq<byte>)
    requires Extraction.WellSet(x) && Extraction.Stored(x, before, entry, after, rest) && x.offset + x.skip + x.amount < |x.file|
    ensures after != [] || rest != []
  {
    hide Chains.XorAll;
    assert |x.file[x.offset..]| == |before| + |entry| + |after| + |rest|;
  }

  lemma StoredSkip(x: Extraction.Extraction, before: seq<byte>, entry: seq<byte>, after: seq<byte>, rest: seq<byte>)
    requires Extraction.WellSet(x) && Extraction.Stored(x, before, entry, after, rest)
    ensures x.skip == |before| && Chains.Keys(x.entryKeys)
  {
  }

  /**
   Draining an extracted entry with reads of any positive sizes, with its filters undone or not: after
   enough of them the end of the stream is met, and what extraction gives has been delivered.
   */
  lemma WrittenDrains(b: Box, items0: seq<Item>, supplies: seq<Writer.Supply>, chunks0: seq<Chunk>, chunkBuffers: seq<seq<nat>>,
                      o: Writer.Options, e: nat, total: bool, bufferSize: nat, sizes: seq<nat>)
    requires WrittenBox(b, items0, supplies, chunks0, chunkBuffers, o) && e < |b.items| && bufferSize >= 1 && Streams.Positive(sizes)
    ensures Encodable(b) && EntryKnown(items0, supplies, chunks0, e) && Extractable(b.items, b.chunks, e)
    ensures var source := Extraction.EntrySource(ExtractionOf(File(b), b.items, b.chunks, e, total, bufferSize), total);
            Streams.Bounded(source)
            && (|sizes| > Streams.Work(source) ==>
                  Streams.Run(source, sizes).ended
                  && ExtractedFrom(Streams.Run(source, sizes).delivered, items0[e], supplies[e], EntryStart(items0, supplies, chunks0, e), total))
  {
    hide WrittenBox, File, ExtractedFrom, Streams.Denote, Streams.Good, Extraction.EntrySource, Extractable, Encodable, EntryKnown, EntryStart,
         Streams.Run, Streams.Work, Streams.Bounded;
    WrittenExtracts(b, items0, supplies, chunks0, chunkBuffers, o, e, total, bufferSize);
    var source := Extraction.EntrySource(ExtractionOf(File(b), b.items, b.chunks, e, total, bufferSize), total);
    Streams.RunDelivers(source, sizes);
  }

  // ---------------------------------------------------------------------------------------
  // Written, read back, extracted
  // ---------------------------------------------------------------------------------------

  lemma ShortKeysComeBack(filters: seq<Builder>)
    requires Writer.AllXor(filters) && |QueuePayload(filters)| < Base(4)
    ensures AllTrimmed(filters) == filters
  {
    hide Base, Trimmed;
    forall i | 0 <= i < |filters|
      ensures Trimmed(filters[i]) == filters[i]
    {
      KeyInPayload(filters, i);
      TrimmedSame(filters[i]);
    }
  }

  /** Extracting from what was read back is extracting from what was written. */
  lemma ExtractionBack(b: Box, l: Reader.Loaded, e: nat, total: bool, bufferSize: nat)
    requires ReadBack(b, l) && Extractable(b.items, b.chunks, e) && Encodable(b)
    requires AllTrimmed(b.items[e].filters) == b.items[e].filters
    requires var s := b.items[e].binary.stream; AllTrimmed(b.chunks[s].filters) == b.chunks[s].filters
    ensures Extractable(l.items, l.chunks, e)
    ensures ExtractionOf(File(b), l.items, l.chunks, e, total, bufferSize) == ExtractionOf(File(b), b.items, b.chunks, e, total, bufferSize)
  {
    hide AllTrimmed, File, BufferSizes, Writer.KeysOf, Reader.UpToNul;
    var s := b.items[e].binary.stream;
    assert l.items[e].binary == b.items[e].binary && l.items[e].filters == b.items[e].filters;
    assert l.chunks[s].binary == b.chunks[s].binary && l.chunks[s].filters == b.chunks[s].filters && l.chunks[s].entries == b.chunks[s].entries;
    SameSkip(b.items, l.items, b.chunks[s].entries, b.items[e].binary.indexInStream, total);
  }

  lemma {:induction false} SameSkip(a: seq<Item>, c: seq<Item>, entries: seq<int>, i: nat, total: bool)
    requires i <= |entries| && |a| == |c| && forall j :: 0 <= j < |entries| ==> 0 <= entries[j] < |a|
    requires forall e :: 0 <= e < |a| ==> c[e].binary == a[e].binary
    ensures SkipAmount(a, entries, i, total) == SkipAmount(c, entries, i, total)
    decreases i
  {
    if i > 0 {
      SameSkip(a, c, entries, i - 1, total);
    }
  }

  /** What was read back of a written archive whose payloads are short serves as well. */
  lemma ReadBackExtracts(b: Box, l: Reader.Loaded, items0: seq<Item>, supplies: seq<Writer.Supply>, chunks0: seq<Chunk>,
                         chunkBuffers: seq<seq<nat>>, o: Writer.Options, e: nat, total: bool, bufferSize: nat)
    requires WrittenBox(b, items0, supplies, chunks0, chunkBuffers, o) && Writer.CastsLoseNothing(items0, chunks0)
    requires ReadBack(b, l) && e < |items0| && bufferSize >= 1
    ensures Encodable(b) && EntryKnown(items0, supplies, chunks0, e) && Extractable(l.items, l.chunks, e)
    ensures var source := Extraction.EntrySource(ExtractionOf(File(b), l.items, l.chunks, e, total, bufferSize), total);
            Streams.Good(source) && Streams.Bounded(source)
            && ExtractedFrom(Streams.Denote(source), items0[e], supplies[e], EntryStart(items0, supplies, chunks0, e), total)
  {
    hide WrittenBox, ReadBack, ExtractionOf, ExtractedFrom, EntryKnown, EntryStart, Streams.Good, Streams.Bounded, Streams.Denote, File, Base,
         QueuePayload, AllTrimmed, Extraction.EntrySource, Encodable, NameRecords, ItemFilters, ChunkFilters, Concat;
    WrittenSame(b, items0, supplies, chunks0, chunkBuffers, o);
    WrittenExtracts(b, items0, supplies, chunks0, chunkBuffers, o, e, total, bufferSize);
    var s := b.items[e].binary.stream;
    assert b.items[e].filters == ItemFilters(b.items)[e] == items0[e].filters by { SameFilters(b, items0, chunks0, e, s); }
    assert b.chunks[s].filters == chunks0[s].filters by { SameFilters(b, items0, chunks0, e, s); }
    ShortKeysComeBack(b.items[e].filters);
    ShortKeysComeBack(b.chunks[s].filters);
    ExtractionBack(b, l, e, total, bufferSize);
  }

  lemma SameFilters(b: Box, items0: seq<Item>, chunks0: seq<Chunk>, e: nat, s: int)
    requires ItemFilters(b.items) == ItemFilters(items0) && ChunkFilters(b.chunks) == ChunkFilters(chunks0)
    requires e < |b.items| == |items0| && 0 <= s < |b.chunks| == |chunks0|
    ensures b.items[e].filters == ItemFilters(b.items)[e] == items0[e].filters && b.chunks[s].filters == chunks0[s].filters
  {
    assert ItemFilters(b.items)[e] == ItemFilters(items0)[e];
    assert ChunkFilters(b.chunks)[s] == ChunkFilters(chunks0)[s];
  }

  /**
   From sources to a file, back from the file, and an entry out of it: reading comes through exactly
   when each stream lists its entries in ascending order; and then the entry comes out of what was
   read, through buffers of any size.
   */
  method WriteReadExtract(a: Writer.Archive, w: MemoryBuffer, back: Reader.Archive, digesterBuffer: nat, e: nat, total: bool, bufferSize: nat)
    returns (ok: bool, extracted: seq<byte>)
    requires a.Valid() && w.Valid() && w.Contents() == [] && w.position == 0 && digesterBuffer >= 1
    requires Fits(a.header, a.items, a.supplies, a.chunks) && (a.chunks != [] ==> Writer.SomethingToWrite(a.supplies))
    requires e < |a.items| && bufferSize >= 1
    modifies a`items, a`chunks, a`header, a`headers, w, w.data, back
    ensures ok <==> InOrder(old(a.items), |old(a.chunks)|)
    ensures EntryKnown(old(a.items), a.supplies, old(a.chunks), e)
    ensures ok ==> ExtractedFrom(extracted, old(a.items)[e], a.supplies[e], EntryStart(old(a.items), a.supplies, old(a.chunks), e), total)
  {
    hide Writer.Archive.Valid, WrittenBox, ReadBack, ExtractedFrom, EntryKnown, EntryStart, FileSize, RecordsFit, Writer.CastsLoseNothing,
         Writer.SomethingToWrite, InOrder, AllRight, File, Encodable, Streams.Good, Streams.Bounded, Streams.Denote, ExtractionOf, Extractable,
         Extraction.EntrySource, MemoryBuffer.Contents;
    ghost var items0, chunks0 := a.items, a.chunks;
    var valid;
    ghost var b;
    ok, valid, b := WriteAndRead(a, w, back, digesterBuffer);
    KnownEntry(b, items0, a.supplies, chunks0, a.chunkBuffers, a.options, e);
    extracted := [];
    if ok {
      ghost var l := Reader.Loaded(back.header, back.sections, back.items, back.chunks);
      ReadBackExtracts(b, l, items0, a.supplies, chunks0, a.chunkBuffers, a.options, e, total, bufferSize);
      var file := w.Peek(w.size);
      assert file == File(b) by { WholeContents(w); }
      var source := EntrySource(file, back.items, back.chunks, e, total, bufferSize);
      var end;
      extracted, end := PipeToMemory(source, bufferSize);
    }
  }

  lemma WholeContents(w: MemoryBuffer)
    requires w.Valid()
    ensures w.Contents()[..w.size] == w.Contents()
  {
  }

  lemma KnownEntry(b: Box, items0: seq<Item>, supplies: seq<Writer.Supply>, chunks0: seq<Chunk>, chunkBuffers: seq<seq<nat>>,
                   o: Writer.Options, e: nat)
    requires WrittenBox(b, items0, supplies, chunks0, chunkBuffers, o) && e < |items0|
    ensures EntryKnown(items0, supplies, chunks0, e)
  {
    hide LaidOut, WrittenBox;
    WrittenSame(b, items0, supplies, chunks0, chunkBuffers, o);
    StartsWhereWritten(b, items0, supplies, chunks0, chunkBuffers, o, e, false, 1);
  }
}
