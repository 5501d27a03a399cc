/**
 The size of an archive's file, and the widths of its records' fields, known from what the archive is
 written from (src/box/archive.cpp, src/box/header.h).
 */
module ArchiveFits {
  import opened Bytes
  import opened Records
  import opened FilterQueue
  import opened Segments
  import opened ArchiveLayout
  import opened StreamWriting
  import Chains
  import Md5Count
  import Md5Digester
  import Reader = ArchiveReader
  import Sha1Standard
  import Streams
  import Writer = ArchiveWriter

  const TWO63: nat := 0x8000_0000_0000_0000

  // ---------------------------------------------------------------------------------------
  // The size of the file
  // ---------------------------------------------------------------------------------------

  ghost function SourceLength(supplies: seq<Writer.Supply>, e: int): nat {
    if 0 <= e < |supplies| && Streams.Bounded(supplies[e].source) then |Streams.Denote(supplies[e].source)| else 0
  }

  /** The lengths of a stream's entries. */
  ghost function SourceLengths(supplies: seq<Writer.Supply>, entries: seq<int>): (r: seq<nat>)
    ensures |r| == |entries|
  {
    seq(|entries|, i requires 0 <= i < |entries| => SourceLength(supplies, entries[i]))
  }

  ghost function StreamTotals(supplies: seq<Writer.Supply>, chunks: seq<Chunk>): (r: seq<nat>)
    ensures |r| == |chunks|
  {
    seq(|chunks|, s requires 0 <= s < |chunks| => Total(SourceLengths(supplies, chunks[s].entries)))
  }

  /** The size of the file, from what goes into it. */
  ghost function FileSize(items: seq<Item>, supplies: seq<Writer.Supply>, chunks: seq<Chunk>): nat {
    HEADER_SIZE + SECTION_SIZE * Reserved(items, chunks) + ENTRY_SIZE * |items| + STREAM_SIZE * |chunks|
    + |Concat(Payloads(ItemFilters(items)))| + |Concat(Payloads(ChunkFilters(chunks)))|
    + Total(StreamTotals(supplies, chunks)) + |Concat(NameRecords(items))|
  }

  /** What stream `s` delivers is as long as its entries are together. */
  lemma DeliveredLength(items: seq<Item>, supplies: seq<Writer.Supply>, chunk: Chunk)
    requires |items| == |supplies| && Writer.Listed(chunk.entries, |items|) && Writer.AllXor(chunk.filters)
    requires Chains.Keys(Writer.KeysOf(chunk.filters)) && forall i :: 0 <= i < |items| ==> Writer.Supplied(items[i], supplies[i])
    ensures |Writer.Delivered(items, supplies, chunk)| == Total(SourceLengths(supplies, chunk.entries))
  {
    hide Writer.Supplied, Chains.XorAll, Streams.Denote, Streams.Bounded, Concat, Filtrates, Total;
    Writer.SuppliedParts(items, supplies, chunk.entries);
    var ps := Writer.PartsOf(items, supplies, chunk.entries);
    forall i | 0 <= i < |chunk.entries|
      ensures |Filtrates(ps)[i]| == SourceLengths(supplies, chunk.entries)[i]
    {
      Writer.SuppliedIsXor(items[chunk.entries[i]], supplies[chunk.entries[i]]);
      assert Filtrates(ps)[i] == Filtrate(ps[i]) && Original(ps[i]) == Streams.Denote(supplies[chunk.entries[i]].source);
    }
    ConcatLength(Filtrates(ps), SourceLengths(supplies, chunk.entries));
  }

  /** A written archive: its records, its data and what it was written from. */
  ghost predicate WrittenBox(b: Box, items0: seq<Item>, supplies: seq<Writer.Supply>, chunks0: seq<Chunk>, chunkBuffers: seq<seq<nat>>,
                             o: Writer.Options)
  {
    && LaidOut(b) && Writer.Ready(items0, supplies, chunks0, chunkBuffers, o)
    && Writer.WrittenFrom(items0, supplies, chunks0, chunkBuffers, o, b.items, b.chunks, b.data)
  }

  lemma DataLength(b: Box, items0: seq<Item>, supplies: seq<Writer.Supply>, chunks0: seq<Chunk>, chunkBuffers: seq<seq<nat>>, o: Writer.Options)
    requires WrittenBox(b, items0, supplies, chunks0, chunkBuffers, o)
    ensures |Concat(b.data)| == Total(StreamTotals(supplies, chunks0))
  {
    hide LaidOut, Writer.Ready, Writer.Supplied, Writer.Delivered, Chains.Keys, Concat, Total, SourceLengths;
    forall s | 0 <= s < |b.data|
      ensures |b.data[s]| == StreamTotals(supplies, chunks0)[s]
    {
      assert Writer.IsDelivered(items0, supplies, chunks0, chunkBuffers, o, s, b.data[s]);
      DeliveredLength(items0, supplies, chunks0[s]);
    }
    ConcatLength(b.data, StreamTotals(supplies, chunks0));
  }

  lemma WrittenSame(b: Box, items0: seq<Item>, supplies: seq<Writer.Supply>, chunks0: seq<Chunk>, chunkBuffers: seq<seq<nat>>, o: Writer.Options)
    requires WrittenBox(b, items0, supplies, chunks0, chunkBuffers, o)
    ensures |b.items| == |items0| == |supplies| && |b.chunks| == |chunks0| == |b.data|
    ensures ItemFilters(b.items) == ItemFilters(items0) && ChunkFilters(b.chunks) == ChunkFilters(chunks0)
    ensures NameRecords(b.items) == NameRecords(items0)
  {
    hide LaidOut, Writer.Ready, Writer.Supplied, Writer.IsDelivered, Writer.WrittenAs;
    forall e | 0 <= e < |b.items|
      ensures b.items[e].filters == items0[e].filters && b.items[e].name == items0[e].name
    {
      assert Writer.IsWritten(items0[e], b.items[e], supplies[e], chunkBuffers, o);
      ItemSame(items0[e], b.items[e], supplies[e], chunkBuffers, o);
    }
    forall s | 0 <= s < |b.chunks|
      ensures b.chunks[s].filters == chunks0[s].filters
    {
      assert Writer.SameButRecord(chunks0[s], b.chunks[s]);
    }
    assert ItemFilters(b.items) == ItemFilters(items0);
    assert ChunkFilters(b.chunks) == ChunkFilters(chunks0);
    assert NameRecords(b.items) == NameRecords(items0);
  }

  lemma ItemSame(before: Item, after: Item, supply: Writer.Supply, chunkBuffers: seq<seq<nat>>, o: Writer.Options)
    requires Writer.IsWritten(before, after, supply, chunkBuffers, o)
    ensures after.filters == before.filters && after.name == before.name
  {
  }

  /** The size of a written file. */
  lemma FileSizeIs(b: Box, items0: seq<Item>, supplies: seq<Writer.Supply>, chunks0: seq<Chunk>, chunkBuffers: seq<seq<nat>>, o: Writer.Options)
    requires WrittenBox(b, items0, supplies, chunks0, chunkBuffers, o) && (chunks0 != [] ==> Writer.SomethingToWrite(supplies))
    ensures Encodable(b) && |File(b)| == b.header.fileLength == FileSize(items0, supplies, chunks0)
  {
    hide WrittenBox, Concat, Total, Start, EncodeHeader, SectionsOf, AnyPayload, Payloads, ItemFilters, ChunkFilters, NameRecords, Permutation;
    hide Writer.SomethingToWrite, Writer.IsDelivered, Writer.Ready, EntryRecords, StreamRecords, SectionRecords, StreamTotals;
    WrittenSame(b, items0, supplies, chunks0, chunkBuffers, o);
    DataLength(b, items0, supplies, chunks0, chunkBuffers, o);
    WrittenReserved(b, items0, supplies, chunks0, chunkBuffers, o);
    EightLengths(FileParts(b));
    EqualParts(SectionRecords(b.headers, b.order), SECTION_SIZE);
    EqualParts(EntryRecords(b.items), ENTRY_SIZE);
    EqualParts(StreamRecords(b.chunks), STREAM_SIZE);
    assert |FileParts(b)[0]| == HEADER_SIZE;
  }

  lemma WrittenReserved(b: Box, items0: seq<Item>, supplies: seq<Writer.Supply>, chunks0: seq<Chunk>, chunkBuffers: seq<seq<nat>>, o: Writer.Options)
    requires WrittenBox(b, items0, supplies, chunks0, chunkBuffers, o) && (chunks0 != [] ==> Writer.SomethingToWrite(supplies))
    ensures Encodable(b) && b.header.fileLength == |File(b)| && |b.order| == Reserved(items0, chunks0) <= 6
  {
    hide Concat, Start, SectionsOf, AnyPayload, Payloads, ItemFilters, ChunkFilters, NameRecords, FileParts;
    hide Writer.SomethingToWrite, Writer.IsDelivered, Writer.Ready, Writer.IsWritten, ItemPlaced, ChunkPlaced;
    WrittenSame(b, items0, supplies, chunks0, chunkBuffers, o);
    Writer.ReservedExactly(items0, supplies, chunks0, chunkBuffers, o, b);
    OrderCounted(b.order, b.headers);
    assert b.items == [] <==> items0 == [];
    assert b.chunks == [] <==> chunks0 == [];
  }

  // ---------------------------------------------------------------------------------------
  // The widths of the fields
  // ---------------------------------------------------------------------------------------

  /** Every field of the records that an archive starts from has a value of its type. */
  ghost predicate RecordsFit(header: Header, items: seq<Item>, chunks: seq<Chunk>) {
    && HeaderFits(header)
    && (forall i :: 0 <= i < |items| ==> EntryFits(items[i].binary))
    && (forall s :: 0 <= s < |chunks| ==> StreamFits(chunks[s].binary))
  }

  lemma Widths()
    ensures Base(4) == 0x1_0000_0000 && Base(8) == 0x1_0000_0000_0000_0000
  {
  }

  lemma StartWithin(parts: seq<seq<byte>>, i: nat)
    requires i <= |parts|
    ensures Start(parts, i) <= |Concat(parts)|
  {
    ConcatTwo(parts[..i], parts[i..]);
    assert parts == parts[..i] + parts[i..];
  }

  lemma PlaceWithin(whole: seq<seq<byte>>, k: nat, parts: seq<seq<byte>>, i: nat)
    requires k < |whole| && whole[k] == Concat(parts) && i < |parts|
    ensures Start(whole, k) + Start(parts, i) <= |Concat(whole)| && PlaceOf(Start(whole, k), parts, i) <= |Concat(whole)|
  {
    hide Start, Concat;
    PartAt(whole, k);
    StartWithin(parts, i);
  }

  lemma HeaderStillFits(before: Header, after: Header)
    requires HeaderFits(before) && after.magic == before.magic && after.version == Writer.CURRENT_VERSION
    requires after.flags < Base(8) && after.fileChecksum < Base(4) && after.fileLength < TWO63
    requires after.index.offset == HEADER_SIZE && after.index.size <= 6 * SECTION_SIZE && after.index.kind == SECTION_TABLE && after.index.count <= 6
    ensures HeaderFits(after)
  {
    hide Base;
    Widths();
    assert HeaderValues(before)[0] < Base(HeaderWidths()[0]);
  }

  lemma SectionStillFits(h: SectionHeader)
    requires h.offset < TWO63 && h.size < TWO63 && h.kind < 10 && h.count < Base(4)
    ensures SectionFits(h)
  {
    hide Base;
    Widths();
  }

  lemma EntryStillFits(before: Entry, after: Entry)
    requires EntryFits(before) && after.stream == before.stream && after.indexInStream == before.indexInStream && after.timestamp == before.timestamp
    requires after.filteredSize < TWO63 && after.digest.size < TWO63 && after.payload < TWO63 && after.nameOffset < TWO63
    requires after.digest.crc32 < Base(4) && after.digest.md5 < Base(16) && after.digest.sha1 < Base(20) && after.payloadLength < Base(4)
    ensures EntryFits(after)
  {
    hide Base, Unsigned;
    Widths();
    assert EntryValues(before)[5] < Base(EntryWidths()[5]);
    assert EntryValues(before)[6] < Base(EntryWidths()[6]);
    assert EntryValues(before)[9] < Base(EntryWidths()[9]);
  }

  lemma DigestsKnown(e: Entry)
    requires EntryFits(e)
    ensures e.digest.crc32 < Base(4) && e.digest.md5 < Base(16) && e.digest.sha1 < Base(20)
  {
    hide Base, Unsigned;
    assert EntryValues(e)[2] < Base(EntryWidths()[2]);
    assert EntryValues(e)[3] < Base(EntryWidths()[3]);
    assert EntryValues(e)[4] < Base(EntryWidths()[4]);
  }

  lemma StreamStillFits(before: Stream, after: Stream)
    requires StreamFits(before) && after.flags == before.flags && after.checksum == before.checksum
    requires after.offset < TWO63 && after.length < TWO63 && after.payload < TWO63 && after.payloadLength < Base(4)
    ensures StreamFits(after)
  {
    hide Base;
    Widths();
    assert StreamValues(before)[0] < Base(StreamWidths()[0]);
    assert StreamValues(before)[3] < Base(StreamWidths()[3]);
  }

  /** The digests of a written entry are as wide as their fields. */
  lemma WrittenEntryFits(before: Item, after: Item, supply: Writer.Supply, chunkBuffers: seq<seq<nat>>, o: Writer.Options)
    requires Writer.IsWritten(before, after, supply, chunkBuffers, o) && EntryFits(before.binary)
    requires after.binary.payload < TWO63 && after.binary.nameOffset < TWO63 && after.binary.payloadLength < Base(4)
    ensures EntryFits(after.binary)
  {
    hide EntryFits, Number, Base, Md5Digester.FinalDigest, Sha1Standard.Sha1, Streams.Denote, Streams.Good, Writer.PieceBound;
    var pieces :| Writer.WrittenAs(before, after, supply, Writer.PieceBound(before, supply, chunkBuffers, o), o, pieces);
    var x := Streams.Denote(supply.source);
    Widths();
    DigestsKnown(before.binary);
    DigitsOfNumber(Md5Digester.FinalDigest(x, Md5Count.CountAll(pieces)));
    DigitsOfNumber(Sha1Standard.Sha1(x));
    EntryStillFits(before.binary, after.binary);
  }

  /** A builder's parameters are part of the payload. */
  lemma QueueStillFits(filters: seq<Builder>)
    requires Writer.AllXor(filters) && |QueuePayload(filters)| < Base(4)
    ensures Reader.QueueFits(filters)
  {
    hide Base;
    Widths();
    forall i | 0 <= i < |filters|
      ensures BuilderFits(filters[i])
    {
      KeyInPayload(filters, i);
    }
  }

  lemma {:induction false} KeyInPayload(filters: seq<Builder>, i: nat)
    requires i < |filters| && filters[i].XorFilter?
    ensures |QueuePayload(filters)| >= PAYLOAD_SIZE + ParametersLength(filters[i]) && |filters[i].key| <= ParametersLength(filters[i])
    decreases |filters|
  {
    if i > 0 {
      KeyInPayload(filters[1..], i - 1);
    }
  }

  lemma SectionCounts(parts: seq<seq<byte>>, items: nat, chunks: nat)
    requires |parts| == 8
    ensures forall k :: k in SectionsOf(parts, items, chunks) ==>
              var n := SectionsOf(parts, items, chunks)[k].count; n == items || n == chunks || n <= 1
  {
    hide Start;
  }

  lemma SectionsFit(parts: seq<seq<byte>>, items: nat, chunks: nat)
    requires |parts| == 8 && |Concat(parts)| < TWO63 && items < Base(4) && chunks < Base(4)
    ensures forall k :: k in SectionsOf(parts, items, chunks) ==> SectionFits(SectionsOf(parts, items, chunks)[k])
  {
    hide SectionsOf, Start, Concat, Base, SectionFits;
    SectionsNamed(parts, items, chunks);
    SectionCounts(parts, items, chunks);
    Widths();
    forall k | k in SectionsOf(parts, items, chunks)
      ensures SectionFits(SectionsOf(parts, items, chunks)[k])
    {
      PartAt(parts, PartNumber(k));
      SectionStillFits(SectionsOf(parts, items, chunks)[k]);
    }
  }

  lemma ItemFits(b: Box, items0: seq<Item>, supplies: seq<Writer.Supply>, chunks0: seq<Chunk>, chunkBuffers: seq<seq<nat>>, o: Writer.Options,
                 i: nat)
    requires WrittenBox(b, items0, supplies, chunks0, chunkBuffers, o) && i < |b.items| == |items0|
    requires EntryFits(items0[i].binary) && |QueuePayload(items0[i].filters)| < Base(4)
    requires Encodable(b) && |File(b)| < TWO63
    ensures EntryFits(b.items[i].binary) && Reader.QueueFits(b.items[i].filters)
  {
    hide EntryFits, Base, Start, Concat, EncodeHeader, SectionsOf, Permutation, EntryRecords, StreamRecords, SectionRecords, Payloads, NameRecords;
    hide QueuePayload, Reader.QueueFits, Writer.Ready, PlaceOf, Writer.WrittenAs, Writer.IsDelivered, Writer.Supplied;
    var parts := FileParts(b);
    assert ItemPlaced(b.items, i, Start(parts, 3), Start(parts, 7));
    PlaceWithin(parts, 3, Payloads(ItemFilters(b.items)), i);
    PlaceWithin(parts, 7, NameRecords(b.items), i);
    assert Writer.IsWritten(items0[i], b.items[i], supplies[i], chunkBuffers, o);
    ItemSame(items0[i], b.items[i], supplies[i], chunkBuffers, o);
    WrittenEntryFits(items0[i], b.items[i], supplies[i], chunkBuffers, o);
    Writer.SuppliedIsXor(items0[i], supplies[i]);
    QueueStillFits(b.items[i].filters);
  }

  lemma ChunkFits(b: Box, items0: seq<Item>, supplies: seq<Writer.Supply>, chunks0: seq<Chunk>, chunkBuffers: seq<seq<nat>>, o: Writer.Options,
                  s: nat)
    requires WrittenBox(b, items0, supplies, chunks0, chunkBuffers, o) && s < |b.chunks| == |chunks0|
    requires StreamFits(chunks0[s].binary) && |QueuePayload(chunks0[s].filters)| < Base(4)
    requires Encodable(b) && |File(b)| < TWO63
    ensures StreamFits(b.chunks[s].binary) && Reader.QueueFits(b.chunks[s].filters)
  {
    hide StreamFits, Base, Start, Concat, EncodeHeader, SectionsOf, Permutation, EntryRecords, StreamRecords, SectionRecords, Payloads, NameRecords;
    hide QueuePayload, Reader.QueueFits, PlaceOf, Writer.IsWritten, Writer.Supplied, Writer.Delivered;
    var parts := FileParts(b);
    assert ChunkPlaced(b.chunks, b.data, s, Start(parts, 5), Start(parts, 6));
    PlaceWithin(parts, 5, Payloads(ChunkFilters(b.chunks)), s);
    PlaceWithin(parts, 6, b.data, s);
    Reader.RecordBytes(parts, 6, b.data, s);
    assert Writer.SameButRecord(chunks0[s], b.chunks[s]);
    StreamStillFits(chunks0[s].binary, b.chunks[s].binary);
    assert Writer.IsDelivered(items0, supplies, chunks0, chunkBuffers, o, s, b.data[s]);
    QueueStillFits(b.chunks[s].filters);
  }

  /** What writing makes of the header's fields that are not about the layout. */
  ghost predicate HeaderFrom(before: Header, after: Header, o: Writer.Options) {
    && after.magic == before.magic && after.version == Writer.CURRENT_VERSION
    && after.flags == (if o.globalChecksum then Writer.WithChecksumFlag(before.flags) else before.flags)
    && (after.fileChecksum == before.fileChecksum || after.fileChecksum < 0x1_0000_0000)
  }

  lemma WrittenHeaderFits(b: Box, before: Header, items0: seq<Item>, supplies: seq<Writer.Supply>, chunks0: seq<Chunk>, chunkBuffers: seq<seq<nat>>,
                          o: Writer.Options)
    requires WrittenBox(b, items0, supplies, chunks0, chunkBuffers, o) && (chunks0 != [] ==> Writer.SomethingToWrite(supplies))
    requires HeaderFits(before) && HeaderFrom(before, b.header, o) && Encodable(b) && |File(b)| < TWO63
    ensures HeaderFits(b.header)
  {
    hide Base, Start, Concat, FileParts, SectionsOf, Permutation, ItemPlaced, ChunkPlaced, HeaderFits, Writer.Ready, Writer.WrittenFrom,
         Writer.SomethingToWrite, Reserved;
    WrittenReserved(b, items0, supplies, chunks0, chunkBuffers, o);
    Widths();
    FlagsAndChecksum(before);
    HeaderStillFits(before, b.header);
  }

  lemma FlagsAndChecksum(h: Header)
    requires HeaderFits(h)
    ensures h.flags < Base(8) && h.fileChecksum < Base(4) && Writer.WithChecksumFlag(h.flags) < Base(8)
  {
    hide Base;
    Widths();
    assert HeaderValues(h)[2] < Base(HeaderWidths()[2]);
    assert HeaderValues(h)[8] < Base(HeaderWidths()[8]);
  }

  /** What an archive must fit into, known before it is written. */
  ghost predicate Fits(header: Header, items: seq<Item>, supplies: seq<Writer.Supply>, chunks: seq<Chunk>) {
    RecordsFit(header, items, chunks) && Writer.CastsLoseNothing(items, chunks) && FileSize(items, supplies, chunks) < TWO63
  }

  /** Then every field of every record that is written fits its width. */
  lemma WrittenFits(b: Box, header: Header, items0: seq<Item>, supplies: seq<Writer.Supply>, chunks0: seq<Chunk>, chunkBuffers: seq<seq<nat>>,
                    o: Writer.Options)
    requires WrittenBox(b, items0, supplies, chunks0, chunkBuffers, o) && (chunks0 != [] ==> Writer.SomethingToWrite(supplies))
    requires Fits(header, items0, supplies, chunks0) && HeaderFrom(header, b.header, o)
    ensures Reader.BoxFits(b)
  {
    hide WrittenBox, Base, File, FileSize, HeaderFits, EntryFits, StreamFits, Reader.QueueFits, HeaderFrom, Writer.SomethingToWrite, QueuePayload,
         Concat, NameRecords, SectionFits;
    WrittenSame(b, items0, supplies, chunks0, chunkBuffers, o);
    FileSizeIs(b, items0, supplies, chunks0, chunkBuffers, o);
    WrittenHeaderFits(b, header, items0, supplies, chunks0, chunkBuffers, o);
    BoxSectionsFit(b, items0, supplies, chunks0, chunkBuffers, o);
    forall i | 0 <= i < |b.items|
      ensures EntryFits(b.items[i].binary) && Reader.QueueFits(b.items[i].filters)
    {
      ItemFits(b, items0, supplies, chunks0, chunkBuffers, o, i);
    }
    forall s | 0 <= s < |b.chunks|
      ensures StreamFits(b.chunks[s].binary) && Reader.QueueFits(b.chunks[s].filters)
    {
      ChunkFits(b, items0, supplies, chunks0, chunkBuffers, o, s);
    }
  }

  lemma BoxSectionsFit(b: Box, items0: seq<Item>, supplies: seq<Writer.Supply>, chunks0: seq<Chunk>, chunkBuffers: seq<seq<nat>>, o: Writer.Options)
    requires WrittenBox(b, items0, supplies, chunks0, chunkBuffers, o) && Encodable(b) && |File(b)| < TWO63
    requires |b.items| < Base(4) && |b.chunks| < Base(4)
    ensures forall k :: k in b.headers ==> SectionFits(b.headers[k])
  {
    hide SectionFits, SectionsOf, FileParts, Base, Start, Concat, Permutation, ItemPlaced, ChunkPlaced, Writer.Ready, Writer.WrittenFrom;
    SectionsFit(FileParts(b), |b.items|, |b.chunks|);
  }
}
