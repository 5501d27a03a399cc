/**
 The layout of a box file (src/box/archive.cpp, src/box/header.h): what each part of the file
 holds, and which places the records of entries, streams and sections name.
 */
module ArchiveLayout {
  import opened Bytes
  import opened Records
  import opened FilterQueue
  import opened Segments

  /** An archive's entry: its name, its filters, its record. */
  datatype Item = Item(name: seq<byte>, filters: seq<Builder>, binary: Entry)

  /** An archive's stream: the entries in it, its filters, its record. */
  datatype Chunk = Chunk(entries: seq<int>, filters: seq<Builder>, binary: Stream)

  /** Everything that decides the bytes of a file; `data` is what each stream delivers. */
  datatype Box = Box(header: Header, headers: map<nat, SectionHeader>, order: seq<nat>,
                     items: seq<Item>, chunks: seq<Chunk>, data: seq<seq<byte>>)

  // The sections, by the numbers that stand for them in the file.
  const SECTION_TABLE: nat := 2
  const ENTRY_TABLE: nat := 3
  const ENTRY_PAYLOAD: nat := 5
  const STREAM_TABLE: nat := 6
  const STREAM_PAYLOAD: nat := 7
  const STREAM_DATA: nat := 8
  const FILE_NAME_TABLE: nat := 9

  // ---------------------------------------------------------------------------------------
  // The parts of the file
  // ---------------------------------------------------------------------------------------

  predicate ItemsFit(items: seq<Item>) {
    forall i :: 0 <= i < |items| ==> SignedFit(items[i].binary)
  }

  function EntryRecords(items: seq<Item>): (r: seq<seq<byte>>)
    requires ItemsFit(items)
    ensures |r| == |items| && forall i :: 0 <= i < |r| ==> |r[i]| == ENTRY_SIZE
  {
    seq(|items|, i requires 0 <= i < |items| => EncodeEntry(items[i].binary))
  }

  function StreamRecords(chunks: seq<Chunk>): (r: seq<seq<byte>>)
    ensures |r| == |chunks| && forall i :: 0 <= i < |r| ==> |r[i]| == STREAM_SIZE
  {
    seq(|chunks|, i requires 0 <= i < |chunks| => EncodeStream(chunks[i].binary))
  }

  function Payloads(queues: seq<seq<Builder>>): (r: seq<seq<byte>>)
    ensures |r| == |queues|
  {
    seq(|queues|, i requires 0 <= i < |queues| => QueuePayload(queues[i]))
  }

  function ItemFilters(items: seq<Item>): (r: seq<seq<Builder>>)
    ensures |r| == |items|
  {
    seq(|items|, i requires 0 <= i < |items| => items[i].filters)
  }

  function ChunkFilters(chunks: seq<Chunk>): (r: seq<seq<Builder>>)
    ensures |r| == |chunks|
  {
    seq(|chunks|, i requires 0 <= i < |chunks| => chunks[i].filters)
  }

  /** Names, each with its terminating NUL. */
  function NameRecords(items: seq<Item>): (r: seq<seq<byte>>)
    ensures |r| == |items|
  {
    seq(|items|, i requires 0 <= i < |items| => items[i].name + [0])
  }

  /** The section headers in the order in which the map happens to be iterated. */
  function SectionRecords(headers: map<nat, SectionHeader>, order: seq<nat>): (r: seq<seq<byte>>)
    requires forall i :: 0 <= i < |order| ==> order[i] in headers
    ensures |r| == |order| && forall i :: 0 <= i < |r| ==> |r[i]| == SECTION_SIZE
  {
    seq(|order|, i requires 0 <= i < |order| => EncodeSection(headers[order[i]]))
  }

  predicate Encodable(b: Box) {
    ItemsFit(b.items) && |b.data| == |b.chunks| && forall i :: 0 <= i < |b.order| ==> b.order[i] in b.headers
  }

  /** The eight parts of a file, one behind the other. */
  function FileParts(b: Box): (parts: seq<seq<byte>>)
    requires Encodable(b)
    ensures |parts| == 8
  {
    [EncodeHeader(b.header),
     Concat(SectionRecords(b.headers, b.order)),
     Concat(EntryRecords(b.items)),
     Concat(Payloads(ItemFilters(b.items))),
     Concat(StreamRecords(b.chunks)),
     Concat(Payloads(ChunkFilters(b.chunks))),
     Concat(b.data),
     Concat(NameRecords(b.items))]
  }

  function File(b: Box): seq<byte>
    requires Encodable(b)
  {
    Concat(FileParts(b))
  }

  // ---------------------------------------------------------------------------------------
  // The places that the records name
  // ---------------------------------------------------------------------------------------

  /** Where part `i` of a list stands whose parts start at `base`; 0 for an empty part. */
  function PlaceOf(base: nat, parts: seq<seq<byte>>, i: nat): nat
    requires i < |parts|
  {
    if |parts[i]| > 0 then base + Start(parts, i) else 0
  }

  ghost predicate ItemPlaced(items: seq<Item>, i: nat, payloads: nat, names: nat)
    requires i < |items|
  {
    var b := items[i].binary;
    && b.payloadLength == |QueuePayload(items[i].filters)|
    && b.payload == PlaceOf(payloads, Payloads(ItemFilters(items)), i)
    && b.nameOffset == names + Start(NameRecords(items), i)
  }

  ghost predicate ChunkPlaced(chunks: seq<Chunk>, data: seq<seq<byte>>, s: nat, payloads: nat, streams: nat)
    requires s < |chunks| == |data|
  {
    var b := chunks[s].binary;
    && b.payloadLength == |QueuePayload(chunks[s].filters)|
    && b.payload == PlaceOf(payloads, Payloads(ChunkFilters(chunks)), s)
    && b.offset == streams + Start(data, s)
    && b.length == |data[s]|
  }

  /** Only a section with something in it gets a header. */
  function WithSection(headers: map<nat, SectionHeader>, h: SectionHeader): map<nat, SectionHeader> {
    if h.size > 0 then headers[h.kind := h] else headers
  }

  /** Headers of the sections that parts 2 and 3 are: the entry table and the entries' payloads. */
  function EntrySections(parts: seq<seq<byte>>, items: nat): map<nat, SectionHeader>
    requires |parts| >= 4
  {
    var h := WithSection(map[], SectionHeader(Start(parts, 2), |parts[2]|, ENTRY_TABLE, items));
    WithSection(h, SectionHeader(Start(parts, 3), |parts[3]|, ENTRY_PAYLOAD, 0))
  }

  /** With those that parts 4 and 5 are: the stream table and the streams' payloads. */
  function FrontSections(parts: seq<seq<byte>>, items: nat, chunks: nat): map<nat, SectionHeader>
    requires |parts| >= 6
  {
    var h := WithSection(EntrySections(parts, items), SectionHeader(Start(parts, 4), |parts[4]|, STREAM_TABLE, chunks));
    WithSection(h, SectionHeader(Start(parts, 5), |parts[5]|, STREAM_PAYLOAD, 0))
  }

  /** Headers of the sections that parts 2 to 7 are. */
  function SectionsOf(parts: seq<seq<byte>>, items: nat, chunks: nat): map<nat, SectionHeader>
    requires |parts| == 8
  {
    var h := WithSection(FrontSections(parts, items, chunks), SectionHeader(Start(parts, 6), |parts[6]|, STREAM_DATA, 1));
    WithSection(h, SectionHeader(Start(parts, 7), |parts[7]|, FILE_NAME_TABLE, 0))
  }

  ghost predicate Permutation(order: seq<nat>, headers: map<nat, SectionHeader>) {
    && (forall i, j :: 0 <= i < j < |order| ==> order[i] != order[j])
    && (forall i :: 0 <= i < |order| ==> order[i] in headers)
    && (forall k :: k in headers ==> k in order)
  }

  /** A file all of whose records name the places where things are. */
  ghost predicate LaidOut(b: Box) {
    && Encodable(b) && Permutation(b.order, b.headers)
    && b.headers == SectionsOf(FileParts(b), |b.items|, |b.chunks|)
    && (forall i :: 0 <= i < |b.items| ==> ItemPlaced(b.items, i, Start(FileParts(b), 3), Start(FileParts(b), 7)))
    && (forall s :: 0 <= s < |b.chunks| ==> ChunkPlaced(b.chunks, b.data, s, Start(FileParts(b), 5), Start(FileParts(b), 6)))
    && b.header.index == SectionHeader(HEADER_SIZE, SECTION_SIZE * |b.order|, SECTION_TABLE, |b.order|)
    && b.header.fileLength == |File(b)|
  }

  // ---------------------------------------------------------------------------------------
  // How many headers there are
  // ---------------------------------------------------------------------------------------

  function One(b: bool): nat { if b then 1 else 0 }

  predicate AnyPayload(queues: seq<seq<Builder>>) {
    exists i :: 0 <= i < |queues| && |QueuePayload(queues[i])| > 0
  }

  /** `willSectionBeSerialized` over the sections behind the section table. */
  function Reserved(items: seq<Item>, chunks: seq<Chunk>): nat {
    One(items != []) + One(AnyPayload(ItemFilters(items))) + One(chunks != []) + One(AnyPayload(ChunkFilters(chunks)))
    + One(chunks != []) + One(items != [])
  }

  lemma {:induction false} ConcatEmpty(parts: seq<seq<byte>>)
    ensures |Concat(parts)| > 0 <==> exists i :: 0 <= i < |parts| && |parts[i]| > 0
    decreases |parts|
  {
    if parts != [] {
      ConcatEmpty(parts[1..]);
      if |parts[0]| == 0 && |Concat(parts[1..])| > 0 {
        var i :| 0 <= i < |parts[1..]| && |parts[1..][i]| > 0;
        assert |parts[i + 1]| > 0;
      }
      if i :| 0 <= i < |parts| && |parts[i]| > 0 && |parts[0]| == 0 {
        assert |parts[1..][i - 1]| > 0;
      }
    }
  }

  lemma PayloadsEmpty(queues: seq<seq<Builder>>)
    ensures |Concat(Payloads(queues))| > 0 <==> AnyPayload(queues)
  {
    ConcatEmpty(Payloads(queues));
    if AnyPayload(queues) {
      var i :| 0 <= i < |queues| && |QueuePayload(queues[i])| > 0;
      assert |Payloads(queues)[i]| > 0;
    }
  }

  lemma TablesEmpty(items: seq<Item>, chunks: seq<Chunk>)
    requires ItemsFit(items)
    ensures |Concat(EntryRecords(items))| > 0 <==> items != []
    ensures |Concat(StreamRecords(chunks))| > 0 <==> chunks != []
    ensures |Concat(NameRecords(items))| > 0 <==> items != []
  {
    EqualParts(EntryRecords(items), ENTRY_SIZE);
    EqualParts(StreamRecords(chunks), STREAM_SIZE);
    ConcatEmpty(NameRecords(items));
    if items != [] {
      assert |NameRecords(items)[0]| > 0;
    }
  }

  lemma SectionsCounted(parts: seq<seq<byte>>, items: nat, chunks: nat)
    requires |parts| == 8
    ensures |SectionsOf(parts, items, chunks)|
         == One(|parts[2]| > 0) + One(|parts[3]| > 0) + One(|parts[4]| > 0) + One(|parts[5]| > 0) + One(|parts[6]| > 0) + One(|parts[7]| > 0)
  {
    hide Start;
  }

  lemma PartsEmpty(b: Box)
    requires Encodable(b)
    ensures var parts := FileParts(b);
            && (|parts[2]| > 0 <==> b.items != [])
            && (|parts[3]| > 0 <==> AnyPayload(ItemFilters(b.items)))
            && (|parts[4]| > 0 <==> b.chunks != [])
            && (|parts[5]| > 0 <==> AnyPayload(ChunkFilters(b.chunks)))
            && parts[6] == Concat(b.data) && (b.chunks == [] ==> parts[6] == [])
            && (|parts[7]| > 0 <==> b.items != [])
  {
    hide EncodeHeader, AnyPayload, Payloads, EntryRecords, StreamRecords, NameRecords, SectionRecords;
    PayloadsEmpty(ItemFilters(b.items));
    PayloadsEmpty(ChunkFilters(b.chunks));
    TablesEmpty(b.items, b.chunks);
    assert b.chunks == [] ==> b.data == [];
  }

  /**
   The number of headers reserved in the section table is the number of headers there are exactly
   when there are no streams or there is at least one byte of stream data.
   */
  lemma HeadersAgreeExactly(b: Box)
    requires Encodable(b)
    ensures |SectionsOf(FileParts(b), |b.items|, |b.chunks|)| == Reserved(b.items, b.chunks)
            <==> (b.chunks == [] || |Concat(b.data)| > 0)
  {
    hide SectionsOf, FileParts, Encodable, AnyPayload, Concat;
    SectionsCounted(FileParts(b), |b.items|, |b.chunks|);
    PartsEmpty(b);
  }

  /** One stream of one empty entry: four headers are reserved, and three are there. */
  lemma HeadersDisagree(item: Item, chunk: Chunk, header: Header)
    requires SignedFit(item.binary) && item.filters == [] && chunk.filters == []
    ensures var b := Box(header, map[], [], [item], [chunk], [[]]);
            Encodable(b) && Reserved(b.items, b.chunks) == 4 && |SectionsOf(FileParts(b), 1, 1)| == 3
  {
    hide SectionsOf, FileParts, QueuePayload;
    var b := Box(header, map[], [], [item], [chunk], [[]]);
    SectionsCounted(FileParts(b), 1, 1);
    PartsEmpty(b);
    assert Concat(b.data) == [] by { ConcatEmpty(b.data); }
    EmptyPayload();
    assert ItemFilters(b.items) == [[]] && ChunkFilters(b.chunks) == [[]];
    assert |QueuePayload(ItemFilters(b.items)[0])| == 0 && |QueuePayload(ChunkFilters(b.chunks)[0])| == 0;
  }

  lemma EmptyPayload()
    ensures QueuePayload([]) == []
  {
  }

  // ---------------------------------------------------------------------------------------
  // Sizes
  // ---------------------------------------------------------------------------------------

  function PayloadLengths(items: seq<Item>): (r: seq<nat>)
    ensures |r| == |items|
  {
    seq(|items|, i requires 0 <= i < |items| => items[i].binary.payloadLength)
  }

  function ChunkPayloadLengths(chunks: seq<Chunk>): (r: seq<nat>)
    ensures |r| == |chunks|
  {
    seq(|chunks|, i requires 0 <= i < |chunks| => chunks[i].binary.payloadLength)
  }

  function StreamLengths(chunks: seq<Chunk>): (r: seq<nat>)
    ensures |r| == |chunks|
  {
    seq(|chunks|, i requires 0 <= i < |chunks| => chunks[i].binary.length)
  }

  function NameLengths(items: seq<Item>): (r: seq<nat>)
    ensures |r| == |items|
  {
    seq(|items|, i requires 0 <= i < |items| => |items[i].name| + 1)
  }

  /** `sizeInfo().totalSize` */
  function TotalSize(items: seq<Item>, chunks: seq<Chunk>): nat {
    var entriesPayload, streamsPayload := Total(PayloadLengths(items)), Total(ChunkPayloadLengths(chunks));
    HEADER_SIZE + ENTRY_SIZE * |items| + STREAM_SIZE * |chunks|
    + (if items != [] && chunks != [] then SECTION_SIZE * 4 else 0)
    + (if entriesPayload > 0 then SECTION_SIZE else 0)
    + (if streamsPayload > 0 then SECTION_SIZE else 0)
    + Total(StreamLengths(chunks)) + Total(NameLengths(items)) + entriesPayload + streamsPayload
  }

  lemma {:induction false} ConcatLength(parts: seq<seq<byte>>, sizes: seq<nat>)
    requires |parts| == |sizes| && forall i :: 0 <= i < |parts| ==> |parts[i]| == sizes[i]
    ensures |Concat(parts)| == Total(sizes)
    decreases |parts|
  {
    if parts != [] {
      ConcatLength(parts[1..], sizes[1..]);
    }
  }

  lemma EightLengths(parts: seq<seq<byte>>)
    requires |parts| == 8
    ensures |Concat(parts)| == |parts[0]| + |parts[1]| + |parts[2]| + |parts[3]| + |parts[4]| + |parts[5]| + |parts[6]| + |parts[7]|
  {
    hide Concat, Start;
    WholeStart(parts);
    StartZero(parts);
    PartAt(parts, 0);
    PartAt(parts, 1);
    PartAt(parts, 2);
    PartAt(parts, 3);
    PartAt(parts, 4);
    PartAt(parts, 5);
    PartAt(parts, 6);
    PartAt(parts, 7);
  }

  lemma StartZero(parts: seq<seq<byte>>)
    ensures Start(parts, 0) == 0
  {
    assert parts[..0] == [];
  }

  lemma OrderCounted(order: seq<nat>, headers: map<nat, SectionHeader>)
    requires Permutation(order, headers)
    ensures |order| == |headers|
  {
    assert headers.Keys == Elements(order);
    DistinctCounted(order);
  }

  function Elements(order: seq<nat>): set<nat> {
    set k | k in order
  }

  lemma ElementsAppend(rest: seq<nat>, last: nat)
    ensures Elements(rest + [last]) == Elements(rest) + {last}
  {
  }

  lemma {:induction false} DistinctCounted(order: seq<nat>)
    requires forall i, j :: 0 <= i < j < |order| ==> order[i] != order[j]
    ensures |Elements(order)| == |order|
    decreases |order|
  {
    if order == [] {
      assert Elements(order) == {};
    } else {
      var last, rest := order[|order| - 1], order[..|order| - 1];
      DistinctCounted(rest);
      ElementsAppend(rest, last);
      assert order == rest + [last];
      assert last !in Elements(rest);
    }
  }

  /**
   The size that the archive announces is the size of its file exactly when entries and streams are
   there together or not at all, and streams hold something.
   */
  lemma TotalSizeIsFileSize(b: Box)
    requires LaidOut(b)
    ensures Encodable(b) && |File(b)| == b.header.fileLength
    ensures TotalSize(b.items, b.chunks) == |File(b)|
            <==> (b.items != [] <==> b.chunks != []) && (b.chunks != [] ==> |Concat(b.data)| > 0)
  {
    hide Concat, Total, SectionsOf, Start, ItemPlaced, ChunkPlaced, EncodeHeader, PlaceOf, FileParts, AnyPayload, ItemsFit;
    var parts := FileParts(b);
    EightLengths(parts);
    SectionsCounted(parts, |b.items|, |b.chunks|);
    PartsEmpty(b);
    OrderCounted(b.order, b.headers);
    PartLengths(b);
  }

  lemma PartLengths(b: Box)
    requires LaidOut(b)
    ensures Encodable(b)
    ensures var parts := FileParts(b);
            && |parts[0]| == HEADER_SIZE
            && |parts[1]| == SECTION_SIZE * |b.order|
            && |parts[2]| == ENTRY_SIZE * |b.items|
            && |parts[3]| == Total(PayloadLengths(b.items))
            && |parts[4]| == STREAM_SIZE * |b.chunks|
            && |parts[5]| == Total(ChunkPayloadLengths(b.chunks))
            && |parts[6]| == Total(StreamLengths(b.chunks))
            && |parts[7]| == Total(NameLengths(b.items))
  {
    hide Concat, Total, SectionsOf, Start, EncodeHeader, PlaceOf, Permutation, Payloads;
    EqualParts(SectionRecords(b.headers, b.order), SECTION_SIZE);
    EqualParts(EntryRecords(b.items), ENTRY_SIZE);
    EqualParts(StreamRecords(b.chunks), STREAM_SIZE);
    PayloadSizes(b);
    ConcatLength(NameRecords(b.items), NameLengths(b.items));
  }

  lemma PayloadSizes(b: Box)
    requires LaidOut(b)
    ensures |Concat(Payloads(ItemFilters(b.items)))| == Total(PayloadLengths(b.items))
    ensures |Concat(Payloads(ChunkFilters(b.chunks)))| == Total(ChunkPayloadLengths(b.chunks))
    ensures |Concat(b.data)| == Total(StreamLengths(b.chunks))
  {
    hide Concat, Total, SectionsOf, Start, FileParts, PlaceOf, Permutation, QueuePayload;
    var parts := FileParts(b);
    forall i | 0 <= i < |b.items|
      ensures b.items[i].binary.payloadLength == |QueuePayload(b.items[i].filters)|
    {
      assert ItemPlaced(b.items, i, Start(parts, 3), Start(parts, 7));
    }
    forall s | 0 <= s < |b.chunks|
      ensures b.chunks[s].binary.payloadLength == |QueuePayload(b.chunks[s].filters)| && b.chunks[s].binary.length == |b.data[s]|
    {
      assert ChunkPlaced(b.chunks, b.data, s, Start(parts, 5), Start(parts, 6));
    }
    ConcatLength(Payloads(ItemFilters(b.items)), PayloadLengths(b.items));
    ConcatLength(Payloads(ChunkFilters(b.chunks)), ChunkPayloadLengths(b.chunks));
    ConcatLength(b.data, StreamLengths(b.chunks));
  }

  // ---------------------------------------------------------------------------------------
  // Contiguous and disjoint
  // ---------------------------------------------------------------------------------------

  /** The part of the file that a section is. */
  function PartNumber(kind: nat): nat {
    if kind == ENTRY_TABLE then 2 else if kind == ENTRY_PAYLOAD then 3 else if kind == STREAM_TABLE then 4
    else if kind == STREAM_PAYLOAD then 5 else if kind == STREAM_DATA then 6 else 7
  }

  lemma SectionsNamed(parts: seq<seq<byte>>, items: nat, chunks: nat)
    requires |parts| == 8
    ensures forall k :: k in SectionsOf(parts, items, chunks) ==>
              && k in {ENTRY_TABLE, ENTRY_PAYLOAD, STREAM_TABLE, STREAM_PAYLOAD, STREAM_DATA, FILE_NAME_TABLE}
              && SectionsOf(parts, items, chunks)[k].kind == k
              && SectionsOf(parts, items, chunks)[k].offset == Start(parts, PartNumber(k))
              && SectionsOf(parts, items, chunks)[k].size == |parts[PartNumber(k)]| > 0
  {
    hide Start;
  }

  lemma {:induction false} StartsAscend(parts: seq<seq<byte>>, i: nat, j: nat)
    requires i < j <= |parts|
    ensures Start(parts, i) + |parts[i]| <= Start(parts, j) <= |Concat(parts)|
    decreases j
  {
    hide Start, Concat;
    PartAt(parts, j - 1);
    if i < j - 1 {
      StartsAscend(parts, i, j - 1);
    }
  }

  /** The sections of a file lie one behind the other: within the file, and none over another. */
  lemma SectionsDisjoint(parts: seq<seq<byte>>, items: nat, chunks: nat, k: nat, l: nat)
    requires |parts| == 8 && k != l && k in SectionsOf(parts, items, chunks) && l in SectionsOf(parts, items, chunks)
    ensures var a, b, file := SectionsOf(parts, items, chunks)[k], SectionsOf(parts, items, chunks)[l], Concat(parts);
            && a.offset + a.size <= |file| && file[a.offset..a.offset + a.size] == parts[PartNumber(k)]
            && (a.offset + a.size <= b.offset || b.offset + b.size <= a.offset)
  {
    hide SectionsOf, Start, Concat;
    SectionsNamed(parts, items, chunks);
    PartAt(parts, PartNumber(k));
    if PartNumber(k) < PartNumber(l) {
      StartsAscend(parts, PartNumber(k), PartNumber(l));
    } else {
      StartsAscend(parts, PartNumber(l), PartNumber(k));
    }
  }

  /** Header, section table and sections take up the whole file, and nothing else does. */
  lemma SectionsTile(b: Box)
    requires LaidOut(b)
    ensures Encodable(b) && Start(FileParts(b), 2) == HEADER_SIZE + SECTION_SIZE * |b.order|
    ensures |File(b)| == HEADER_SIZE + SECTION_SIZE * |b.order|
                         + SizeOf(b.headers, ENTRY_TABLE) + SizeOf(b.headers, ENTRY_PAYLOAD) + SizeOf(b.headers, STREAM_TABLE)
                         + SizeOf(b.headers, STREAM_PAYLOAD) + SizeOf(b.headers, STREAM_DATA) + SizeOf(b.headers, FILE_NAME_TABLE)
  {
    hide Start, Concat, ItemPlaced, ChunkPlaced, EncodeHeader, SectionRecords, EntryRecords, StreamRecords, NameRecords, Payloads, Permutation;
    var parts := FileParts(b);
    SectionSizes(parts, |b.items|, |b.chunks|);
    EightLengths(parts);
    EqualParts(SectionRecords(b.headers, b.order), SECTION_SIZE);
    StartZero(parts);
    PartAt(parts, 0);
    PartAt(parts, 1);
  }

  function SizeOf(headers: map<nat, SectionHeader>, kind: nat): nat {
    if kind in headers then headers[kind].size else 0
  }

  lemma SectionSizes(parts: seq<seq<byte>>, items: nat, chunks: nat)
    requires |parts| == 8
    ensures var s := SectionsOf(parts, items, chunks);
            SizeOf(s, ENTRY_TABLE) == |parts[2]| && SizeOf(s, ENTRY_PAYLOAD) == |parts[3]| && SizeOf(s, STREAM_TABLE) == |parts[4]|
            && SizeOf(s, STREAM_PAYLOAD) == |parts[5]| && SizeOf(s, STREAM_DATA) == |parts[6]| && SizeOf(s, FILE_NAME_TABLE) == |parts[7]|
  {
    hide Start;
  }
}
