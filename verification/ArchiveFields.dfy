/**
 A written archive byte by byte (src/box/header.h): what stands at each place of the file, as a
 reader finds it who knows nothing but the format.
 */
module ArchiveFields {
  import opened Bytes
  import opened Records
  import opened Buffers
  import opened FilterQueue
  import opened Segments
  import opened ArchiveFits
  import opened ArchiveLayout
  import opened ArchiveRoundTrip
  import Md5Count
  import Md5Standard
  import Reader = ArchiveReader
  import Sha1Standard
  import Streams
  import Writer = ArchiveWriter

  /** Where the table of entries, their payloads, the table of streams, their payloads, the data and the names start. */
  datatype Tables = Tables(entries: nat, entryPayloads: nat, streams: nat, streamPayloads: nat, data: nat, names: nat)

  function TablesOf(b: Box): Tables
    requires Encodable(b)
  {
    var parts := FileParts(b);
    Tables(Start(parts, 2), Start(parts, 3), Start(parts, 4), Start(parts, 5), Start(parts, 6), Start(parts, 7))
  }

  /** The bytes stand at the place. */
  predicate StandsAt(file: seq<byte>, at: nat, bytes: seq<byte>) {
    at + |bytes| <= |file| && file[at..at + |bytes|] == bytes
  }

  /** The number stands at the place, in `w` bytes. */
  predicate NumberAt(file: seq<byte>, at: nat, w: nat, n: nat) {
    StandsAt(file, at, LittleEndian(n, w))
  }

  lemma SliceStands(file: seq<byte>, at: nat, record: seq<byte>, from: nat, to: nat)
    requires StandsAt(file, at, record) && from <= to <= |record|
    ensures StandsAt(file, at + from, record[from..to])
  {
    var whole := file[at..at + |record|];
    forall k | from <= k < to
      ensures file[at + k] == record[k]
    {
      assert whole[k] == record[k];
    }
    assert file[at + from..at + to] == record[from..to];
  }

  lemma FieldStandsAt(file: seq<byte>, at: nat, record: seq<byte>, from: nat, w: nat, n: nat)
    requires StandsAt(file, at, record) && from + w <= |record| && record[from..from + w] == LittleEndian(n, w)
    ensures NumberAt(file, at + from, w, n)
  {
    hide StandsAt, LittleEndian;
    SliceStands(file, at, record, from, from + w);
  }

  /** Record `i` of part `k`. */
  lemma RecordStands(parts: seq<seq<byte>>, k: nat, records: seq<seq<byte>>, i: nat)
    requires k < |parts| && parts[k] == Concat(records) && i < |records|
    ensures StandsAt(Concat(parts), Start(parts, k) + Start(records, i), records[i])
  {
    hide Concat, Start;
    Reader.RecordBytes(parts, k, records, i);
  }

  // ---------------------------------------------------------------------------------------
  // The header
  // ---------------------------------------------------------------------------------------

  /**
   The first 52 bytes of a file: "box!", the version, the flags, the section table (at 52, its size, its
   type 2, the number of headers), the length of the file and the checksum.
   */
  predicate HeaderSays(file: seq<byte>, flags: nat, headers: nat, checksum: nat) {
    && StandsAt(file, 0, [0x62, 0x6f, 0x78, 0x21]) && NumberAt(file, 4, 4, 1) && NumberAt(file, 8, 8, flags)
    && NumberAt(file, 16, 8, 52) && NumberAt(file, 24, 8, 24 * headers) && NumberAt(file, 32, 4, 2) && NumberAt(file, 36, 4, headers)
    && NumberAt(file, 40, 8, |file|) && NumberAt(file, 48, 4, checksum)
  }

  lemma HeaderStands(b: Box)
    requires Encodable(b)
    ensures StandsAt(File(b), 0, EncodeHeader(b.header))
  {
    hide Concat, Start, EncodeHeader, SectionRecords, EntryRecords, StreamRecords, Payloads, NameRecords;
    var parts := FileParts(b);
    StartZero(parts);
    PartAt(parts, 0);
  }

  /** The header of a written file. */
  lemma HeaderInFile(b: Box)
    requires LaidOut(b) && b.header.magic == Writer.MAGIC && b.header.version == Writer.CURRENT_VERSION
    ensures Encodable(b) && HeaderSays(File(b), b.header.flags, |b.headers|, b.header.fileChecksum)
  {
    hide StandsAt, LittleEndian, File, EncodeHeader, SectionsOf, FileParts, ItemPlaced, ChunkPlaced, Permutation;
    HeaderStands(b);
    HeaderBytes(b.header);
    OrderCounted(b.order, b.headers);
    var file, record := File(b), EncodeHeader(b.header);
    FieldStandsAt(file, 0, record, 0, 4, b.header.magic);
    MagicBytes();
    FieldStandsAt(file, 0, record, 4, 4, b.header.version);
    FieldStandsAt(file, 0, record, 8, 8, b.header.flags);
    FieldStandsAt(file, 0, record, 16, 8, b.header.index.offset);
    FieldStandsAt(file, 0, record, 24, 8, b.header.index.size);
    FieldStandsAt(file, 0, record, 32, 4, b.header.index.kind);
    FieldStandsAt(file, 0, record, 36, 4, b.header.index.count);
    FieldStandsAt(file, 0, record, 40, 8, b.header.fileLength);
    FieldStandsAt(file, 0, record, 48, 4, b.header.fileChecksum);
  }

  lemma MagicBytes()
    ensures LittleEndian(Writer.MAGIC, 4) == [0x62, 0x6f, 0x78, 0x21]
  {
    hide Base;
    NumberOfFour([0x62, 0x6f, 0x78, 0x21], Writer.MAGIC);
    DigitsOfNumber([0x62, 0x6f, 0x78, 0x21]);
  }

  /** The checksum in the file is that of its first 48 bytes and of all behind the first 52. */
  lemma ChecksumInFile(b: Box)
    requires LaidOut(b) && Encodable(b) && |File(b)| >= 52
    requires b.header.fileChecksum == Writer.ChecksumOf(b.header, File(b)[HEADER_SIZE..])
    ensures var file := File(b); NumberAt(file, 48, 4, Writer.Crc32Of(file[..48] + file[52..]))
  {
    hide StandsAt, LittleEndian, File, EncodeHeader, LaidOut, Writer.Crc32Of, Encodable;
    HeaderStands(b);
    HeaderBytes(b.header);
    var file, record := File(b), EncodeHeader(b.header);
    FieldStandsAt(file, 0, record, 48, 4, b.header.fileChecksum);
    FrontIs(file, record);
  }

  lemma FrontIs(file: seq<byte>, record: seq<byte>)
    requires StandsAt(file, 0, record) && |record| == HEADER_SIZE
    ensures |file| >= HEADER_SIZE && file[..48] == record[..48]
  {
    assert file[..52][..48] == file[..48];
  }

  // ---------------------------------------------------------------------------------------
  // The section table
  // ---------------------------------------------------------------------------------------

  /** One of the headers at 52 and behind it says this of a section: where it is, its size, its type and its count. */
  ghost predicate SectionListed(file: seq<byte>, headers: nat, offset: nat, size: nat, kind: nat, count: nat) {
    exists i: nat :: i < headers && SectionSays(file, 52 + 24 * i, offset, size, kind, count)
  }

  predicate SectionSays(file: seq<byte>, at: nat, offset: nat, size: nat, kind: nat, count: nat) {
    NumberAt(file, at, 8, offset) && NumberAt(file, at + 8, 8, size) && NumberAt(file, at + 16, 4, kind) && NumberAt(file, at + 20, 4, count)
  }

  lemma SectionStands(b: Box, i: nat)
    requires LaidOut(b) && i < |b.order|
    ensures Encodable(b) && b.order[i] in b.headers
    ensures var h := b.headers[b.order[i]]; SectionSays(File(b), 52 + 24 * i, h.offset, h.size, h.kind, h.count)
  {
    hide Concat, Start, ItemPlaced, ChunkPlaced, SectionsOf, EncodeHeader, EncodeSection, EntryRecords, StreamRecords, Payloads, NameRecords,
         StandsAt, LittleEndian;
    var parts, records := FileParts(b), SectionRecords(b.headers, b.order);
    RecordStands(parts, 1, records, i);
    StartZero(parts);
    PartAt(parts, 0);
    EqualStart(records, SECTION_SIZE, i);
    var h := b.headers[b.order[i]];
    SectionBytes(h);
    var file, at := File(b), 52 + 24 * i;
    FieldStandsAt(file, at, records[i], 0, 8, h.offset);
    FieldStandsAt(file, at, records[i], 8, 8, h.size);
    FieldStandsAt(file, at, records[i], 16, 4, h.kind);
    FieldStandsAt(file, at, records[i], 20, 4, h.count);
  }

  lemma Ordered(b: Box, k: nat)
    requires LaidOut(b) && k in b.headers
    ensures Encodable(b) && var h := b.headers[k]; SectionListed(File(b), |b.headers|, h.offset, h.size, h.kind, h.count)
  {
    hide ItemPlaced, ChunkPlaced, SectionsOf, FileParts, SectionSays;
    var i :| 0 <= i < |b.order| && b.order[i] == k;
    SectionStands(b, i);
    OrderCounted(b.order, b.headers);
  }

  /** What stands under the numbers of the sections. */
  lemma SectionKinds(parts: seq<seq<byte>>, items: nat, chunks: nat)
    requires |parts| == 8
    ensures var s := SectionsOf(parts, items, chunks);
            && (|parts[2]| > 0 ==> 3 in s && s[3] == SectionHeader(Start(parts, 2), |parts[2]|, 3, items))
            && (|parts[3]| > 0 ==> 5 in s && s[5] == SectionHeader(Start(parts, 3), |parts[3]|, 5, 0))
            && (|parts[4]| > 0 ==> 6 in s && s[6] == SectionHeader(Start(parts, 4), |parts[4]|, 6, chunks))
            && (|parts[5]| > 0 ==> 7 in s && s[7] == SectionHeader(Start(parts, 5), |parts[5]|, 7, 0))
            && (|parts[6]| > 0 ==> 8 in s && s[8] == SectionHeader(Start(parts, 6), |parts[6]|, 8, 1))
            && (|parts[7]| > 0 ==> 9 in s && s[9] == SectionHeader(Start(parts, 7), |parts[7]|, 9, 0))
  {
    hide Start;
  }

  /**
   Every section that is not empty is listed, under its number in the format: 3 the entries, 5 their
   payloads, 6 the streams, 7 their payloads, 8 the data, 9 the names.
   */
  ghost predicate AllListed(file: seq<byte>, headers: nat, t: Tables, items: seq<Item>, chunks: seq<Chunk>, data: seq<seq<byte>>) {
    && (items != [] ==> SectionListed(file, headers, t.entries, 92 * |items|, 3, |items|))
    && (AnyPayload(ItemFilters(items)) ==> SectionListed(file, headers, t.entryPayloads, |Concat(Payloads(ItemFilters(items)))|, 5, 0))
    && (chunks != [] ==> SectionListed(file, headers, t.streams, 40 * |chunks|, 6, |chunks|))
    && (AnyPayload(ChunkFilters(chunks)) ==> SectionListed(file, headers, t.streamPayloads, |Concat(Payloads(ChunkFilters(chunks)))|, 7, 0))
    && (Concat(data) != [] ==> SectionListed(file, headers, t.data, |Concat(data)|, 8, 1))
    && (items != [] ==> SectionListed(file, headers, t.names, |Concat(NameRecords(items))|, 9, 0))
  }

  /** The section table of a written file lists every section that is not empty. */
  lemma SectionsInFile(b: Box)
    requires LaidOut(b)
    ensures Encodable(b) && AllListed(File(b), |b.headers|, TablesOf(b), b.items, b.chunks, b.data)
  {
    hide Concat, Start, ItemPlaced, ChunkPlaced, SectionsOf, Permutation, SectionListed, AnyPayload, FileParts, Encodable, File,
         Payloads, ItemFilters, ChunkFilters, NameRecords;
    PartsEmpty(b);
    SectionKinds(FileParts(b), |b.items|, |b.chunks|);
    TableLengths(b);
    forall k | k in b.headers
      ensures var h := b.headers[k]; SectionListed(File(b), |b.headers|, h.offset, h.size, h.kind, h.count)
    {
      Ordered(b, k);
    }
  }

  lemma TableLengths(b: Box)
    requires LaidOut(b)
    ensures Encodable(b) && |FileParts(b)[2]| == 92 * |b.items| && |FileParts(b)[4]| == 40 * |b.chunks|
    ensures FileParts(b)[3] == Concat(Payloads(ItemFilters(b.items))) && FileParts(b)[5] == Concat(Payloads(ChunkFilters(b.chunks)))
    ensures FileParts(b)[6] == Concat(b.data) && FileParts(b)[7] == Concat(NameRecords(b.items))
  {
    hide Concat;
    EqualParts(EntryRecords(b.items), ENTRY_SIZE);
    EqualParts(StreamRecords(b.chunks), STREAM_SIZE);
  }

  // ---------------------------------------------------------------------------------------
  // Streams
  // ---------------------------------------------------------------------------------------

  /** A payload stands where the record says; an empty one has place 0. */
  predicate PayloadStands(file: seq<byte>, at: nat, filters: seq<Builder>) {
    if QueuePayload(filters) == [] then at == 0 else StandsAt(file, at, QueuePayload(filters))
  }

  /** A record of a stream with these fields. */
  predicate StreamSays(file: seq<byte>, at: nat, flags: nat, offset: nat, length: nat, checksum: nat, payload: nat, payloadLength: nat) {
    && NumberAt(file, at, 8, flags) && NumberAt(file, at + 8, 8, offset) && NumberAt(file, at + 16, 8, length)
    && NumberAt(file, at + 24, 4, checksum) && NumberAt(file, at + 28, 8, payload) && NumberAt(file, at + 36, 4, payloadLength)
  }

  lemma PayloadPlaced(parts: seq<seq<byte>>, k: nat, queues: seq<seq<Builder>>, i: nat)
    requires k < |parts| && parts[k] == Concat(Payloads(queues)) && i < |queues|
    ensures PayloadStands(Concat(parts), PlaceOf(Start(parts, k), Payloads(queues), i), queues[i])
  {
    hide Concat, Start, QueuePayload, StandsAt;
    RecordStands(parts, k, Payloads(queues), i);
  }

  /**
   Record `s` of the stream table: behind the flags stand the place of the stream's data and then
   their length, and there in the file the data are; and likewise with the payload of the filters.
   */
  ghost predicate StreamStands(file: seq<byte>, t: Tables, chunks: seq<Chunk>, data: seq<seq<byte>>, s: nat) {
    && s < |chunks| == |data|
    && var r := chunks[s].binary;
    && StreamSays(file, t.streams + 40 * s, r.flags, t.data + Start(data, s), |data[s]|, r.checksum, r.payload, |QueuePayload(chunks[s].filters)|)
    && StandsAt(file, t.data + Start(data, s), data[s])
    && PayloadStands(file, r.payload, chunks[s].filters)
  }

  lemma StreamRecordInFile(b: Box, s: nat)
    requires LaidOut(b) && s < |b.chunks|
    ensures Encodable(b)
    ensures StreamStands(File(b), TablesOf(b), b.chunks, b.data, s)
  {
    hide Concat, Start, ItemPlaced, SectionsOf, Permutation, EncodeHeader, SectionRecords, EntryRecords, Payloads, NameRecords, QueuePayload,
         StandsAt, LittleEndian, EncodeStream, PlaceOf, PayloadStands;
    var parts, file, r := FileParts(b), File(b), b.chunks[s].binary;
    assert ChunkPlaced(b.chunks, b.data, s, Start(parts, 5), Start(parts, 6));
    var records := StreamRecords(b.chunks);
    RecordStands(parts, 4, records, s);
    EqualStart(records, STREAM_SIZE, s);
    RecordStands(parts, 6, b.data, s);
    PayloadPlaced(parts, 5, ChunkFilters(b.chunks), s);
    StreamBytes(r);
    var at := Start(parts, 4) + 40 * s;
    FieldStandsAt(file, at, records[s], 0, 8, r.flags);
    FieldStandsAt(file, at, records[s], 8, 8, r.offset);
    FieldStandsAt(file, at, records[s], 16, 8, r.length);
    FieldStandsAt(file, at, records[s], 24, 4, r.checksum);
    FieldStandsAt(file, at, records[s], 28, 8, r.payload);
    FieldStandsAt(file, at, records[s], 36, 4, r.payloadLength);
  }

  // ---------------------------------------------------------------------------------------
  // Entries
  // ---------------------------------------------------------------------------------------

  /** The sizes and digests of a record: of a source `x`, those that are enabled, as the bytes the digesters give. */
  ghost predicate DigestsStand(file: seq<byte>, at: nat, x: seq<byte>, o: Writer.Options, short: bool)
    requires Sha1Standard.Short(|x|)
  {
    && NumberAt(file, at, 8, |x|) && NumberAt(file, at + 8, 8, |x|)
    && (o.crc32 ==> NumberAt(file, at + 16, 4, Writer.Crc32Of(x)))
    && (o.md5 && short ==> StandsAt(file, at + 20, Md5Standard.Md5(x)))
    && (o.sha1 ==> StandsAt(file, at + 36, Sha1Standard.Sha1(x)))
  }

  /** The rest of a record: the place in a stream, the payload, the time and the name. */
  predicate EntrySays(file: seq<byte>, at: nat, stream: int, indexInStream: int, payload: nat, payloadLength: nat, timestamp: int, name: nat) {
    && NumberAt(file, at + 56, 4, stream % 0x1_0000_0000) && NumberAt(file, at + 60, 4, indexInStream % 0x1_0000_0000)
    && NumberAt(file, at + 64, 8, payload) && NumberAt(file, at + 72, 4, payloadLength)
    && NumberAt(file, at + 76, 8, timestamp % 0x1_0000_0000_0000_0000) && NumberAt(file, at + 84, 8, name)
  }

  lemma EntryRecordStands(b: Box, e: nat)
    requires LaidOut(b) && e < |b.items|
    ensures Encodable(b) && StandsAt(File(b), TablesOf(b).entries + 92 * e, EncodeEntry(b.items[e].binary))
  {
    hide Concat, Start, ItemPlaced, ChunkPlaced, SectionsOf, Permutation, EncodeHeader, SectionRecords, StreamRecords, Payloads, NameRecords,
         StandsAt, EncodeEntry;
    var records := EntryRecords(b.items);
    RecordStands(FileParts(b), 2, records, e);
    EqualStart(records, ENTRY_SIZE, e);
  }

  /** Record `e` of the entry table; where it says, the file holds the name with its NUL and the payload of the filters. */
  ghost predicate EntryStands(file: seq<byte>, t: Tables, items: seq<Item>, e: nat) {
    && e < |items|
    && var r := items[e].binary;
    && EntrySays(file, t.entries + 92 * e, r.stream, r.indexInStream, r.payload, |QueuePayload(items[e].filters)|, r.timestamp,
                 t.names + Start(NameRecords(items), e))
    && StandsAt(file, t.names + Start(NameRecords(items), e), items[e].name + [0])
    && PayloadStands(file, r.payload, items[e].filters)
  }

  lemma EntryRecordInFile(b: Box, e: nat)
    requires LaidOut(b) && e < |b.items|
    ensures Encodable(b)
    ensures EntryStands(File(b), TablesOf(b), b.items, e)
  {
    hide Concat, Start, ChunkPlaced, SectionsOf, Permutation, EncodeHeader, SectionRecords, EntryRecords, StreamRecords, Payloads, QueuePayload,
         StandsAt, LittleEndian, EncodeEntry, PlaceOf, PayloadStands, File;
    var parts, file, r := FileParts(b), File(b), b.items[e].binary;
    assert ItemPlaced(b.items, e, Start(parts, 3), Start(parts, 7));
    EntryRecordStands(b, e);
    NamePlaced(b, e);
    EntryPayloadPlaced(b, e);
    EntryBytes(r);
    var at, record := TablesOf(b).entries + 92 * e, EncodeEntry(r);
    FieldStandsAt(file, at, record, 56, 4, r.stream % 0x1_0000_0000);
    FieldStandsAt(file, at, record, 60, 4, r.indexInStream % 0x1_0000_0000);
    FieldStandsAt(file, at, record, 64, 8, r.payload);
    FieldStandsAt(file, at, record, 72, 4, r.payloadLength);
    FieldStandsAt(file, at, record, 76, 8, r.timestamp % 0x1_0000_0000_0000_0000);
    FieldStandsAt(file, at, record, 84, 8, r.nameOffset);
  }

  lemma NamePlaced(b: Box, e: nat)
    requires Encodable(b) && e < |b.items|
    ensures StandsAt(File(b), TablesOf(b).names + Start(NameRecords(b.items), e), b.items[e].name + [0])
  {
    hide Concat, Start, EncodeHeader, SectionRecords, EntryRecords, StreamRecords, Payloads, StandsAt;
    RecordStands(FileParts(b), 7, NameRecords(b.items), e);
  }

  lemma EntryPayloadPlaced(b: Box, e: nat)
    requires Encodable(b) && e < |b.items|
    ensures PayloadStands(File(b), PlaceOf(TablesOf(b).entryPayloads, Payloads(ItemFilters(b.items)), e), b.items[e].filters)
  {
    hide Concat, Start, EncodeHeader, SectionRecords, EntryRecords, StreamRecords, NameRecords, StandsAt, PlaceOf, PayloadStands, QueuePayload;
    PayloadPlaced(FileParts(b), 3, ItemFilters(b.items), e);
  }

  /** Sizes and digests of entry `e` in the file: those of its source, the MD5 if no piece of it reaches 2^29 bytes. */
  ghost predicate SourceStands(file: seq<byte>, t: Tables, items0: seq<Item>, supplies: seq<Writer.Supply>, chunkBuffers: seq<seq<nat>>,
                               o: Writer.Options, e: nat)
  {
    && e < |items0| == |supplies| && Streams.Bounded(supplies[e].source)
    && var x := Streams.Denote(supplies[e].source);
    && Sha1Standard.Short(|x|)
    && DigestsStand(file, t.entries + 92 * e, x, o, Writer.PiecesShort(items0[e], supplies[e], chunkBuffers, o, Md5Count.TWO29))
  }

  lemma EntryDigestsInFile(b: Box, items0: seq<Item>, supplies: seq<Writer.Supply>, chunks0: seq<Chunk>, chunkBuffers: seq<seq<nat>>,
                           o: Writer.Options, e: nat)
    requires WrittenBox(b, items0, supplies, chunks0, chunkBuffers, o) && e < |b.items|
    ensures Encodable(b) && SourceStands(File(b), TablesOf(b), items0, supplies, chunkBuffers, o, e)
  {
    hide WrittenBox, File, Encodable, TablesOf, LaidOut, StandsAt, LittleEndian, EncodeEntry, Streams.Bounded, Streams.Denote, Sha1Standard.Short,
         Writer.PiecesShort, Writer.Crc32Of, Sha1Standard.Sha1, Md5Standard.Md5, Number;
    BoxIsLaidOut(b, items0, supplies, chunks0, chunkBuffers, o);
    EntriesRight(b, items0, supplies, chunks0, chunkBuffers, o);
    EntryRecordStands(b, e);
    assert EntryRight(items0[e], b.items[e], supplies[e], chunkBuffers, o);
    RecordedDigests(File(b), TablesOf(b).entries + 92 * e, b.items[e].binary, Streams.Denote(supplies[e].source), o,
                    Writer.PiecesShort(items0[e], supplies[e], chunkBuffers, o, Md5Count.TWO29));
  }

  lemma BoxIsLaidOut(b: Box, items0: seq<Item>, supplies: seq<Writer.Supply>, chunks0: seq<Chunk>, chunkBuffers: seq<seq<nat>>, o: Writer.Options)
    requires WrittenBox(b, items0, supplies, chunks0, chunkBuffers, o)
    ensures LaidOut(b) && Encodable(b) && ItemsFit(b.items)
  {
    hide Writer.Ready, Writer.WrittenFrom, ItemPlaced, ChunkPlaced, SectionsOf, FileParts, Permutation;
  }

  lemma RecordedDigests(file: seq<byte>, at: nat, r: Entry, x: seq<byte>, o: Writer.Options, short: bool)
    requires Sha1Standard.Short(|x|) && SignedFit(r) && StandsAt(file, at, EncodeEntry(r))
    requires r.filteredSize == |x| && Writer.DigestsRight(r.digest, x, o, short)
    ensures DigestsStand(file, at, x, o, short)
  {
    hide StandsAt, LittleEndian, EncodeEntry, Sha1Standard.Short, Writer.Crc32Of, Sha1Standard.Sha1, Md5Standard.Md5, Number, SignedFit, Base;
    EntryBytes(r);
    var record := EncodeEntry(r);
    FieldStandsAt(file, at, record, 0, 8, r.filteredSize);
    FieldStandsAt(file, at, record, 8, 8, r.digest.size);
    FieldStandsAt(file, at, record, 16, 4, r.digest.crc32);
    FieldStandsAt(file, at, record, 20, 16, r.digest.md5);
    FieldStandsAt(file, at, record, 36, 20, r.digest.sha1);
    DigitsOfNumber(Md5Standard.Md5(x));
    DigitsOfNumber(Sha1Standard.Sha1(x));
  }

  // ---------------------------------------------------------------------------------------
  // The whole file
  // ---------------------------------------------------------------------------------------

  /**
   The tables, payloads, data and names follow the section table without a gap, in the order of the
   source: entries and their payloads, streams and their payloads, the data, the names.
   */
  ghost predicate InTurn(t: Tables, headers: nat, items: seq<Item>, chunks: seq<Chunk>, data: seq<seq<byte>>, length: nat) {
    && t.entries == 52 + 24 * headers && t.entryPayloads == t.entries + 92 * |items|
    && t.streams == t.entryPayloads + |Concat(Payloads(ItemFilters(items)))|
    && t.streamPayloads == t.streams + 40 * |chunks|
    && t.data == t.streamPayloads + |Concat(Payloads(ChunkFilters(chunks)))|
    && t.names == t.data + |Concat(data)| && length == t.names + |Concat(NameRecords(items))|
  }

  lemma TablesInTurn(b: Box)
    requires LaidOut(b)
    ensures Encodable(b) && InTurn(TablesOf(b), |b.headers|, b.items, b.chunks, b.data, |File(b)|)
  {
    hide Concat, Start, ItemPlaced, ChunkPlaced, SectionsOf, Permutation, FileParts, Payloads, ItemFilters, ChunkFilters, NameRecords, Encodable;
    TableLengths(b);
    FirstPart(b);
    var parts := FileParts(b);
    PartAt(parts, 2);
    PartAt(parts, 3);
    PartAt(parts, 4);
    PartAt(parts, 5);
    PartAt(parts, 6);
    PartAt(parts, 7);
    WholeStart(parts);
  }

  lemma FirstPart(b: Box)
    requires LaidOut(b)
    ensures Encodable(b) && Start(FileParts(b), 2) == 52 + 24 * |b.headers|
  {
    hide Start, Concat, ItemPlaced, ChunkPlaced, EncodeHeader, EntryRecords, StreamRecords, NameRecords, Payloads, SectionsOf;
    var parts := FileParts(b);
    EqualParts(SectionRecords(b.headers, b.order), SECTION_SIZE);
    OrderCounted(b.order, b.headers);
    StartZero(parts);
    PartAt(parts, 0);
    PartAt(parts, 1);
  }

  /** Everything that the format says about a file, for what it was written from. */
  ghost predicate InFormat(file: seq<byte>, t: Tables, b: Box, items0: seq<Item>, supplies: seq<Writer.Supply>, chunkBuffers: seq<seq<nat>>,
                           o: Writer.Options)
  {
    && HeaderSays(file, b.header.flags, |b.headers|, b.header.fileChecksum)
    && InTurn(t, |b.headers|, b.items, b.chunks, b.data, |file|)
    && AllListed(file, |b.headers|, t, b.items, b.chunks, b.data)
    && (forall s :: 0 <= s < |b.chunks| ==> StreamStands(file, t, b.chunks, b.data, s))
    && (forall e :: 0 <= e < |b.items| ==> EntryStands(file, t, b.items, e) && SourceStands(file, t, items0, supplies, chunkBuffers, o, e))
  }

  /** `write`: every byte of every record stands where the format has it; and so does the checksum, if it is enabled. */
  method WriteInFormat(a: Writer.Archive, w: MemoryBuffer) returns (ghost b: Box, ghost t: Tables)
    requires a.Valid() && w.Valid() && w.Contents() == [] && w.position == 0
    requires Writer.CastsLoseNothing(a.items, a.chunks) && (a.chunks != [] ==> Writer.SomethingToWrite(a.supplies))
    modifies a`items, a`chunks, a`header, a`headers, w, w.data
    ensures b == Box(a.header, a.headers, b.order, a.items, a.chunks, b.data) && w.Valid()
    ensures WrittenBox(b, old(a.items), a.supplies, old(a.chunks), a.chunkBuffers, a.options)
    ensures InFormat(w.Contents(), t, b, old(a.items), a.supplies, a.chunkBuffers, a.options)
    ensures var file := w.Contents();
            a.options.globalChecksum ==> |file| >= 52 && a.header.flags % 2 == 1 && NumberAt(file, 48, 4, Writer.Crc32Of(file[..48] + file[52..]))
  {
    hide Writer.Ready, Writer.WrittenFrom, LaidOut, File, Writer.CastsLoseNothing, Writer.SomethingToWrite, Writer.ChecksumOf, Encodable,
         HeaderSays, AllListed, InTurn, StreamStands, EntryStands, SourceStands, TablesOf, NumberAt, Writer.Crc32Of;
    ghost var items0, chunks0 := a.items, a.chunks;
    b := a.Write(w);
    BoxIsLaidOut(b, items0, a.supplies, chunks0, a.chunkBuffers, a.options);
    t := TablesOf(b);
    HeaderInFile(b);
    LongEnough(w.Contents(), b);
    if a.options.globalChecksum {
      ChecksumInFile(b);
    }
    SectionsInFile(b);
    TablesInTurn(b);
    forall s | 0 <= s < |b.chunks|
      ensures StreamStands(File(b), t, b.chunks, b.data, s)
    {
      StreamRecordInFile(b, s);
    }
    forall e | 0 <= e < |b.items|
      ensures EntryStands(File(b), t, b.items, e) && SourceStands(File(b), t, items0, a.supplies, a.chunkBuffers, a.options, e)
    {
      EntryRecordInFile(b, e);
      EntryDigestsInFile(b, items0, a.supplies, chunks0, a.chunkBuffers, a.options, e);
    }
  }

  lemma LongEnough(file: seq<byte>, b: Box)
    requires HeaderSays(file, b.header.flags, |b.headers|, b.header.fileChecksum)
    ensures |file| >= 52
  {
  }
}
