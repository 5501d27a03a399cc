/**
 An archive whose extraction goes wrong (src/box/archive.cpp:882-886): one stream of two entries of one
 byte each, both with a xor filter whose key is 1, 2.
 */
module ArchiveExample {
  import opened Bytes
  import opened Records
  import opened Buffers
  import opened FilterQueue
  import opened ArchiveFits
  import opened ArchiveLayout
  import opened ArchiveRoundTrip
  import opened StreamWriting
  import Chains
  import Extraction
  import Filters
  import Mapping
  import Md5Count
  import Reader = ArchiveReader
  import Sha1Standard
  import Streams
  import Writer = ArchiveWriter

  const KEY: seq<byte> := [1, 2]

  function NewRecord(index: nat): Entry {
    Entry(0, DigestInfo(0, 0, 0, 0), 0, index, 0, 0, 0, 0)
  }

  /** An entry with a name of one character. */
  function NewItem(name: byte, index: nat): Item {
    Item([name], [XorFilter(KEY)], NewRecord(index))
  }

  function Items(): seq<Item> { [NewItem(97, 0), NewItem(98, 1)] }

  function NewSupply(b: byte): Writer.Supply { Writer.Supply(Streams.Buffer([b], 0), [1]) }

  /** The first entry is any byte, and the second is 0. */
  function Supplies(first: byte): seq<Writer.Supply> { [NewSupply(first), NewSupply(0)] }

  function Chunks(): seq<Chunk> { [Chunk([0, 1], [], Stream(0, 0, 0, 0, 0, 0))] }

  function ChunkBuffers(): seq<seq<nat>> { [[]] }

  lemma ItemSupplied(name: byte, index: nat, b: byte)
    ensures Writer.Supplied(NewItem(name, index), NewSupply(b)) && Streams.Denote(NewSupply(b).source) == [b]
    ensures Writer.KeysOf(NewItem(name, index).filters) == [KEY]
  {
    var filters := NewItem(name, index).filters;
    assert Writer.KeysOf(filters) == [KEY];
    assert [b][0..] == [b];
  }

  lemma Placing()
    ensures Mapping.Bijection(Writer.Places(Items()), |Items()|, Writer.Lists(Chunks())) && InOrder(Items(), |Chunks()|)
  {
    var places, lists := Writer.Places(Items()), Writer.Lists(Chunks());
    assert places == [Mapping.Place(0, 0), Mapping.Place(0, 1)];
    assert lists == [[0, 1]];
    assert Mapping.Count(places, 0, 0) == 0;
    assert Mapping.Count(places, 1, 0) == 1;
    assert Mapping.InTurn(places, 0, 1) && Mapping.InTurn(places, 1, 1);
    assert Mapping.Placed(places[0], lists) && Mapping.Placed(places[1], lists);
  }

  lemma ShortPieces(i: nat, first: byte, o: Writer.Options)
    requires i < 2
    ensures Writer.PiecesShort(Items()[i], Supplies(first)[i], ChunkBuffers(), o, Md5Count.TWO32 - 64)
  {
    ItemSupplied(97, 0, first);
    ItemSupplied(98, 1, 0);
  }

  /** The archive can be written. */
  lemma IsReady(first: byte, o: Writer.Options)
    requires o.bufferSize >= 1 && o.digesterBuffer >= 1
    ensures Writer.Ready(Items(), Supplies(first), Chunks(), ChunkBuffers(), o) && Writer.SomethingToWrite(Supplies(first))
  {
    hide Writer.Supplied, Streams.Denote, Mapping.Bijection, Writer.PiecesShort, InOrder;
    ItemSupplied(97, 0, first);
    ItemSupplied(98, 1, 0);
    Placing();
    ShortPieces(0, first, o);
    ShortPieces(1, first, o);
    var chunk := Chunks()[0];
    assert Writer.KeysOf(chunk.filters) == [];
    assert Writer.Equipped(chunk, ChunkBuffers()[0]);
    SecondHasBytes(first);
  }

  lemma SecondHasBytes(first: byte)
    ensures Writer.SomethingToWrite(Supplies(first))
  {
    ItemSupplied(98, 1, 0);
    assert Streams.Bounded(Supplies(first)[1].source) && Streams.Denote(Supplies(first)[1].source) != [];
  }

  lemma RecordFits(index: nat)
    requires index < 2
    ensures EntryFits(NewRecord(index))
  {
    hide Base;
    Widths();
    MoreWidths();
    var values, widths := EntryValues(NewRecord(index)), EntryWidths();
    forall i | 0 <= i < |values|
      ensures values[i] < Base(widths[i])
    {
    }
  }

  lemma MoreWidths()
    ensures Base(16) > 1 && Base(20) > 1
  {
  }

  lemma NewStreamFits()
    ensures StreamFits(Stream(0, 0, 0, 0, 0, 0))
  {
    hide Base;
    Widths();
  }

  lemma PayloadSize(index: nat, name: byte)
    ensures |QueuePayload(NewItem(name, index).filters)| == 22 && |QueuePayload(Chunks()[0].filters)| == 0
  {
    var filters := NewItem(name, index).filters;
    assert filters[1..] == [];
    assert QueuePayloadLength(filters) == PAYLOAD_SIZE + ParametersLength(filters[0]) + QueuePayloadLength([]);
  }

  lemma Lengths()
    ensures |Concat(NameRecords(Items()))| == 4 && |Concat(Payloads(ItemFilters(Items())))| == 44 && |Concat(Payloads(ChunkFilters(Chunks())))| == 0
  {
    hide QueuePayload;
    PayloadSize(0, 97);
    PayloadSize(1, 98);
    TwoLengths(NameRecords(Items()));
    TwoLengths(Payloads(ItemFilters(Items())));
    var p := Payloads(ChunkFilters(Chunks()));
    assert p[1..] == [];
    assert Concat(p) == p[0] + Concat([]);
  }

  lemma TwoLengths(parts: seq<seq<byte>>)
    requires |parts| == 2
    ensures |Concat(parts)| == |parts[0]| + |parts[1]|
  {
    assert parts[1..][1..] == [];
    assert Concat(parts[1..]) == parts[1] + Concat([]);
  }

  lemma TotalOfTwo(a: nat, b: nat)
    ensures Total([a, b]) == a + b && Total([a]) == a
  {
    SumOfTwo(a, b);
    SumOfOne(a);
  }

  lemma SourcesTotal(first: byte)
    ensures StreamTotals(Supplies(first), Chunks()) == [2] && StartOf(Supplies(first), [0, 1], 1) == 1
  {
    hide Total;
    ItemSupplied(97, 0, first);
    ItemSupplied(98, 1, 0);
    TotalOfTwo(1, 1);
    assert SourceLengths(Supplies(first), [0, 1]) == [1, 1];
    assert [0, 1][..1] == [0];
    assert SourceLengths(Supplies(first), [0]) == [1];
    assert StreamTotals(Supplies(first), Chunks()) == [Total(SourceLengths(Supplies(first), [0, 1]))];
  }

  lemma ItFits(header: Header, first: byte)
    requires HeaderFits(header)
    ensures Fits(header, Items(), Supplies(first), Chunks())
  {
    hide HeaderFits, EntryFits, StreamFits, Base, QueuePayload, Concat, NameRecords, Payloads, ItemFilters, ChunkFilters, StreamTotals, Total,
         AnyPayload;
    Widths();
    RecordFits(0);
    RecordFits(1);
    NewStreamFits();
    PayloadSize(0, 97);
    PayloadSize(1, 98);
    Lengths();
    SourcesTotal(first);
    TotalOfTwo(2, 0);
  }

  /** The key stream at the start of the second entry is not that at the start of the stream. */
  lemma NotAligned()
    ensures Chains.Keys([KEY]) && !Extraction.KeysAligned([KEY], 1, 1)
  {
    Extraction.TwoKeyBytes();
    assert Chains.KeyStream([KEY], 1 + 0) != Chains.KeyStream([KEY], 0);
  }

  /** What is extracted of the second entry is not the byte it was written from. */
  lemma SecondIsLost(got: seq<byte>, first: byte)
    requires EntryKnown(Items(), Supplies(first), Chunks(), 1)
    requires ExtractedFrom(got, Items()[1], Supplies(first)[1], EntryStart(Items(), Supplies(first), Chunks(), 1), true)
    ensures got != [0]
  {
    hide Extraction.KeysAligned;
    ItemSupplied(98, 1, 0);
    SourcesTotal(first);
    NotAligned();
  }

  /** Written, read back, and the second entry extracted with its filters undone: it is not what it was. */
  method WriteAndLose(a: Writer.Archive, w: MemoryBuffer, back: Reader.Archive, first: byte, bufferSize: nat) returns (ok: bool, extracted: seq<byte>)
    requires a.header.magic == Writer.MAGIC && HeaderFits(a.header) && a.options.bufferSize >= 1 && a.options.digesterBuffer >= 1
    requires a.items == Items() && a.supplies == Supplies(first) && a.chunks == Chunks() && a.chunkBuffers == ChunkBuffers()
    requires w.Valid() && w.Contents() == [] && w.position == 0 && bufferSize >= 1
    modifies a`items, a`chunks, a`header, a`headers, w, w.data, back
    ensures ok && extracted != [0]
  {
    hide Writer.Ready, Fits, Writer.SomethingToWrite, ExtractedFrom, EntryKnown, EntryStart, InOrder, Mapping.Bijection, HeaderFits;
    IsReady(first, a.options);
    ItFits(a.header, first);
    Placing();
    ok, extracted := WriteReadExtract(a, w, back, 1, 1, true, bufferSize);
    SecondIsLost(extracted, first);
  }
}
