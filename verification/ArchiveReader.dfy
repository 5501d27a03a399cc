/**
 Reading an archive (`Archive::read` and `readSection` in src/box/archive.cpp) from a memory
 buffer, and what comes back of an archive that was written.
 */
module ArchiveReader {
  import opened Bytes
  import opened Records
  import opened Buffers
  import opened FilterQueue
  import opened Segments
  import opened ArchiveLayout
  import opened Optional
  import Crc32
  import Mapping
  import Writer = ArchiveWriter

  /** What reading leaves in the archive. */
  datatype Loaded = Loaded(header: Header, sections: map<nat, SectionHeader>, items: seq<Item>, chunks: seq<Chunk>)

  // Sections that a reader does not expect, or does not know what to do with.
  const HEADER: nat := 1
  const COMMENTS_TABLE: nat := 4
  const GROUP_TABLE: nat := 10

  /** The position that a 64-bit offset means to `seek`: negative once it is signed is 0. */
  function SeekPosition(offset: nat): nat {
    var n := offset % 0x1_0000_0000_0000_0000;
    if n >= 0x8000_0000_0000_0000 then 0 else n
  }

  /** `n` bytes at a position, as the checked reads want them. */
  function BytesAt(file: seq<byte>, at: nat, n: nat): (r: Option<seq<byte>>)
    ensures r.Some? ==> |r.value| == n
  {
    if at + n <= |file| then Some(file[at..at + n]) else None
  }

  function Zeros(n: nat): (z: seq<byte>)
    ensures |z| == n
  {
    seq(n, _ => 0)
  }

  /** `n` bytes at a position, as the unchecked reads give them: zeros for those beyond the end. */
  function PaddedAt(file: seq<byte>, at: nat, n: nat): (r: Option<seq<byte>>)
    ensures r.Some? ==> |r.value| == n
  {
    if at > |file| then None
    else if at + n <= |file| then Some(file[at..at + n])
    else Some(file[at..] + Zeros(at + n - |file|))
  }

  /** The bytes up to the next NUL. */
  function NameAt(file: seq<byte>, at: nat): Option<seq<byte>>
    decreases if at < |file| then |file| - at else 0
  {
    if at >= |file| then None
    else if file[at] == 0 then Some([])
    else
      var rest := NameAt(file, at + 1);
      if rest.None? then None else Some([file[at]] + rest.value)
  }

  function PayloadAt(file: seq<byte>, place: nat, length: nat): Option<seq<byte>> {
    if length > 0 then PaddedAt(file, SeekPosition(place), length) else Some([])
  }

  /** The builders of a payload, if it can be read. */
  function FiltersOf(payload: seq<byte>): Option<seq<Builder>> {
    var p := Parse(payload);
    if p.status.Done? then Some(p.builders) else None
  }

  function ItemAt(file: seq<byte>, at: nat): Option<Item> {
    match BytesAt(file, at, ENTRY_SIZE)
    case None => None
    case Some(bytes) =>
      var entry := DecodeEntry(bytes);
      var name, payload := NameAt(file, SeekPosition(entry.nameOffset)), PayloadAt(file, entry.payload, entry.payloadLength);
      if name.None? || payload.None? then None
      else
        var filters := FiltersOf(payload.value);
        if filters.None? then None else Some(Item(name.value, filters.value, entry))
  }

  function ChunkAt(file: seq<byte>, at: nat): Option<Chunk> {
    match BytesAt(file, at, STREAM_SIZE)
    case None => None
    case Some(bytes) =>
      var stream := DecodeStream(bytes);
      var payload := PayloadAt(file, stream.payload, stream.payloadLength);
      if payload.None? then None
      else
        var filters := FiltersOf(payload.value);
        if filters.None? then None else Some(Chunk([], filters.value, stream))
  }

  /** Entries `0` to `n` of the table at `offset`. */
  function ItemsAt(file: seq<byte>, offset: nat, n: nat): (r: Option<seq<Item>>)
    ensures r.Some? ==> |r.value| == n
    decreases n
  {
    if n == 0 then Some([])
    else
      var front, last := ItemsAt(file, offset, n - 1), ItemAt(file, SeekPosition(offset + (n - 1) * ENTRY_SIZE));
      if front.None? || last.None? then None else Some(front.value + [last.value])
  }

  function ChunksAt(file: seq<byte>, offset: nat, n: nat): (r: Option<seq<Chunk>>)
    ensures r.Some? ==> |r.value| == n
    decreases n
  {
    if n == 0 then Some([])
    else
      var front, last := ChunksAt(file, offset, n - 1), ChunkAt(file, SeekPosition(offset + (n - 1) * STREAM_SIZE));
      if front.None? || last.None? then None else Some(front.value + [last.value])
  }

  /** The first `n` headers of the section table; of several of one kind the first counts. */
  function SectionsAt(file: seq<byte>, offset: nat, n: nat): Option<map<nat, SectionHeader>>
    decreases n
  {
    if n == 0 then Some(map[])
    else
      var front, bytes := SectionsAt(file, offset, n - 1), BytesAt(file, offset + (n - 1) * SECTION_SIZE, SECTION_SIZE);
      if front.None? || bytes.None? then None
      else
        var h := DecodeSection(bytes.value);
        Some(if h.kind in front.value then front.value else front.value[h.kind := h])
  }

  predicate Expected(sections: map<nat, SectionHeader>) {
    HEADER !in sections && SECTION_TABLE !in sections && COMMENTS_TABLE !in sections && GROUP_TABLE !in sections
  }

  function TableItems(file: seq<byte>, sections: map<nat, SectionHeader>): Option<seq<Item>> {
    if ENTRY_TABLE in sections then ItemsAt(file, sections[ENTRY_TABLE].offset, sections[ENTRY_TABLE].count) else Some([])
  }

  function TableChunks(file: seq<byte>, sections: map<nat, SectionHeader>): Option<seq<Chunk>> {
    if STREAM_TABLE in sections then ChunksAt(file, sections[STREAM_TABLE].offset, sections[STREAM_TABLE].count) else Some([])
  }

  function WithEntries(chunks: seq<Chunk>, lists: seq<seq<int>>): (r: seq<Chunk>)
    requires |chunks| == |lists|
    ensures |r| == |chunks|
  {
    seq(|chunks|, s requires 0 <= s < |chunks| => chunks[s].(entries := lists[s]))
  }

  /** The archive in a file, if reading does not throw. */
  ghost function Load(file: seq<byte>): Option<Loaded> {
    if |file| < HEADER_SIZE then None
    else
      var header := DecodeHeader(file[..HEADER_SIZE]);
      var sections := SectionsAt(file, SeekPosition(header.index.offset), header.index.count);
      if sections.None? || header.magic != Writer.MAGIC || !Expected(sections.value) then None
      else
        var items, chunks := TableItems(file, sections.value), TableChunks(file, sections.value);
        if items.None? || chunks.None? then None
        else
          var places := Writer.Places(items.value);
          if !Mapping.InOrder(places, |places|, |chunks.value|) then None
          else
            var lists := Mapping.Slots(places, |places|, |chunks.value|);
            Some(Loaded(header, sections.value, items.value, WithEntries(chunks.value, lists)))
  }

  // ---------------------------------------------------------------------------------------
  // What comes back of a file that was written
  // ---------------------------------------------------------------------------------------

  /** A name as a C string says it: up to its first NUL. */
  function UpToNul(name: seq<byte>): (r: seq<byte>)
    ensures 0 !in name ==> r == name
    decreases |name|
  {
    if name == [] || name[0] == 0 then [] else [name[0]] + UpToNul(name[1..])
  }

  ghost predicate QueueFits(filters: seq<Builder>) {
    forall i :: 0 <= i < |filters| ==> BuilderFits(filters[i])
  }

  /** Every field of every record fits its width, and offsets stay positive when signed. */
  ghost predicate BoxFits(b: Box) {
    && Encodable(b) && |File(b)| < 0x8000_0000_0000_0000 && HeaderFits(b.header)
    && (forall k :: k in b.headers ==> SectionFits(b.headers[k]))
    && (forall i :: 0 <= i < |b.items| ==> EntryFits(b.items[i].binary) && QueueFits(b.items[i].filters))
    && (forall s :: 0 <= s < |b.chunks| ==> StreamFits(b.chunks[s].binary) && QueueFits(b.chunks[s].filters))
  }

  /** An entry as it comes back: its name as a C string, its keys as long as their length fields say. */
  function ItemBack(item: Item): Item {
    Item(UpToNul(item.name), AllTrimmed(item.filters), item.binary)
  }

  function ChunkBack(chunk: Chunk): Chunk {
    Chunk([], AllTrimmed(chunk.filters), chunk.binary)
  }

  lemma SeekSame(n: nat)
    requires n < 0x8000_0000_0000_0000
    ensures SeekPosition(n) == n
  {
  }

  lemma SliceOfSlice(s: seq<byte>, at: nat, m: nat, o: nat, n: nat)
    requires at + m <= |s| && o + n <= m
    ensures s[at..at + m][o..o + n] == s[at + o..at + o + n]
  {
    var a, b := s[at..at + m][o..o + n], s[at + o..at + o + n];
    assert |a| == |b| == n;
    forall k | 0 <= k < n
      ensures a[k] == b[k]
    {
      assert a[k] == s[at..at + m][o + k] == s[at + (o + k)] == b[k];
    }
  }

  /** Bytes of one part, found in the whole. */
  lemma PartBytes(parts: seq<seq<byte>>, k: nat, o: nat, n: nat)
    requires k < |parts| && o + n <= |parts[k]|
    ensures BytesAt(Concat(parts), Start(parts, k) + o, n) == Some(parts[k][o..o + n])
  {
    hide Concat, Start;
    PartAt(parts, k);
    var file, at := Concat(parts), Start(parts, k);
    SliceOfSlice(file, at, |parts[k]|, o, n);
  }

  /** A record of a table that is a part, found in the whole. */
  lemma RecordBytes(parts: seq<seq<byte>>, k: nat, records: seq<seq<byte>>, i: nat)
    requires k < |parts| && parts[k] == Concat(records) && i < |records|
    ensures BytesAt(Concat(parts), Start(parts, k) + Start(records, i), |records[i]|) == Some(records[i])
    ensures Start(parts, k) + Start(records, i) + |records[i]| <= |Concat(parts)|
  {
    hide Concat, Start;
    PartAt(records, i);
    PartAt(parts, k);
    PartBytes(parts, k, Start(records, i), |records[i]|);
  }

  lemma {:induction false} NameBack(file: seq<byte>, at: nat, name: seq<byte>)
    requires at + |name| + 1 <= |file| && file[at..at + |name| + 1] == name + [0]
    ensures NameAt(file, at) == Some(UpToNul(name))
    decreases |name|
  {
    assert file[at] == file[at..at + |name| + 1][0] == (name + [0])[0];
    if name != [] && name[0] != 0 {
      var window := file[at..at + |name| + 1];
      assert window[1..] == file[at + 1..at + 1 + |name[1..]| + 1];
      assert (name + [0])[1..] == name[1..] + [0];
      NameBack(file, at + 1, name[1..]);
    }
  }

  lemma PayloadBack(parts: seq<seq<byte>>, k: nat, queues: seq<seq<Builder>>, i: nat)
    requires k < |parts| && parts[k] == Concat(Payloads(queues)) && i < |queues| && QueueFits(queues[i])
    requires |Concat(parts)| < 0x8000_0000_0000_0000
    ensures PayloadAt(Concat(parts), PlaceOf(Start(parts, k), Payloads(queues), i), |QueuePayload(queues[i])|) == Some(QueuePayload(queues[i]))
    ensures FiltersOf(QueuePayload(queues[i])) == Some(AllTrimmed(queues[i]))
  {
    hide Concat, Start, QueuePayload, SeekPosition, AllTrimmed, Parse;
    RecordBytes(parts, k, Payloads(queues), i);
    PayloadReadsBack(queues[i]);
    if |QueuePayload(queues[i])| > 0 {
      SeekSame(Start(parts, k) + Start(Payloads(queues), i));
    }
  }

  lemma ItemReadsBack(b: Box, i: nat)
    requires BoxFits(b) && LaidOut(b) && i < |b.items|
    ensures ItemAt(File(b), SeekPosition(Start(FileParts(b), 2) + i * ENTRY_SIZE)) == Some(ItemBack(b.items[i]))
  {
    hide Concat, Start, QueuePayload, SeekPosition, AllTrimmed, PayloadAt, FiltersOf, EncodeEntry, DecodeEntry, EntryFits, PlaceOf, BuilderFits,
         SectionsOf, HeaderFits, Permutation, UpToNul, EncodeHeader, SectionRecords, StreamRecords;
    var parts, item := FileParts(b), b.items[i];
    assert ItemPlaced(b.items, i, Start(parts, 3), Start(parts, 7));
    RecordBytes(parts, 2, EntryRecords(b.items), i);
    EqualStart(EntryRecords(b.items), ENTRY_SIZE, i);
    SeekSame(Start(parts, 2) + i * ENTRY_SIZE);
    EntryRoundTrip(item.binary);
    RecordBytes(parts, 7, NameRecords(b.items), i);
    SeekSame(item.binary.nameOffset);
    NameBack(File(b), item.binary.nameOffset, item.name);
    PayloadBack(parts, 3, ItemFilters(b.items), i);
  }

  lemma ChunkReadsBack(b: Box, s: nat)
    requires BoxFits(b) && LaidOut(b) && s < |b.chunks|
    ensures ChunkAt(File(b), SeekPosition(Start(FileParts(b), 4) + s * STREAM_SIZE)) == Some(ChunkBack(b.chunks[s]))
  {
    hide Concat, Start, QueuePayload, SeekPosition, AllTrimmed, PayloadAt, FiltersOf, EncodeStream, DecodeStream, StreamFits, PlaceOf, BuilderFits,
         SectionsOf, HeaderFits, Permutation, EncodeHeader, SectionRecords, EntryRecords, NameRecords;
    var parts, chunk := FileParts(b), b.chunks[s];
    assert ChunkPlaced(b.chunks, b.data, s, Start(parts, 5), Start(parts, 6));
    RecordBytes(parts, 4, StreamRecords(b.chunks), s);
    EqualStart(StreamRecords(b.chunks), STREAM_SIZE, s);
    SeekSame(Start(parts, 4) + s * STREAM_SIZE);
    StreamRoundTrip(chunk.binary);
    PayloadBack(parts, 5, ChunkFilters(b.chunks), s);
  }

  function ItemsBack(items: seq<Item>): (r: seq<Item>)
    ensures |r| == |items| && forall i :: 0 <= i < |items| ==> r[i] == ItemBack(items[i])
  {
    seq(|items|, i requires 0 <= i < |items| => ItemBack(items[i]))
  }

  function ChunksBack(chunks: seq<Chunk>): (r: seq<Chunk>)
    ensures |r| == |chunks| && forall s :: 0 <= s < |chunks| ==> r[s] == ChunkBack(chunks[s])
  {
    seq(|chunks|, s requires 0 <= s < |chunks| => ChunkBack(chunks[s]))
  }

  lemma {:induction false} ItemsReadBack(b: Box, n: nat)
    requires BoxFits(b) && LaidOut(b) && n <= |b.items|
    ensures ItemsAt(File(b), Start(FileParts(b), 2), n) == Some(ItemsBack(b.items[..n]))
    decreases n
  {
    hide File, FileParts, Start, BoxFits, LaidOut, ItemAt, ItemBack, SeekPosition;
    if n > 0 {
      ItemsReadBack(b, n - 1);
      ItemReadsBack(b, n - 1);
      assert ItemsBack(b.items[..n]) == ItemsBack(b.items[..n - 1]) + [ItemBack(b.items[n - 1])];
    }
  }

  lemma {:induction false} ChunksReadBack(b: Box, n: nat)
    requires BoxFits(b) && LaidOut(b) && n <= |b.chunks|
    ensures ChunksAt(File(b), Start(FileParts(b), 4), n) == Some(ChunksBack(b.chunks[..n]))
    decreases n
  {
    hide File, FileParts, Start, BoxFits, LaidOut, ChunkAt, ChunkBack, SeekPosition;
    if n > 0 {
      ChunksReadBack(b, n - 1);
      ChunkReadsBack(b, n - 1);
      assert ChunksBack(b.chunks[..n]) == ChunksBack(b.chunks[..n - 1]) + [ChunkBack(b.chunks[n - 1])];
    }
  }

  /** The sections of the first `n` of an iteration. */
  function Taken(headers: map<nat, SectionHeader>, order: seq<nat>, n: nat): map<nat, SectionHeader>
    requires n <= |order| && forall i :: 0 <= i < |order| ==> order[i] in headers
  {
    map k | k in headers && k in order[..n] :: headers[k]
  }

  ghost predicate Kinds(headers: map<nat, SectionHeader>) {
    forall k :: k in headers ==> headers[k].kind == k
  }

  lemma TakenNext(headers: map<nat, SectionHeader>, order: seq<nat>, n: nat)
    requires 0 < n <= |order| && Permutation(order, headers) && Kinds(headers)
    ensures forall i :: 0 <= i < |order| ==> order[i] in headers
    ensures var h := headers[order[n - 1]];
            h.kind !in Taken(headers, order, n - 1) && Taken(headers, order, n) == Taken(headers, order, n - 1)[h.kind := h]
  {
    assert order[..n] == order[..n - 1] + [order[n - 1]];
  }

  lemma Ordered(b: Box)
    requires LaidOut(b)
    ensures Encodable(b) && Permutation(b.order, b.headers) && forall i :: 0 <= i < |b.order| ==> b.order[i] in b.headers
  {
  }

  lemma {:induction false} SectionsReadBack(b: Box, n: nat)
    requires BoxFits(b) && LaidOut(b) && Kinds(b.headers) && n <= |b.order|
    ensures SectionsAt(File(b), HEADER_SIZE, n) == Some(Taken(b.headers, b.order, n))
    decreases n
  {
    hide File, BoxFits, LaidOut, DecodeSection, EncodeSection, BytesAt, Permutation, Kinds;
    Ordered(b);
    if n == 0 {
      assert Taken(b.headers, b.order, 0) == map[];
    } else {
      hide Taken;
      SectionsReadBack(b, n - 1);
      SectionReadsBack(b, n - 1);
      TakenNext(b.headers, b.order, n);
    }
  }

  lemma SectionReadsBack(b: Box, i: nat)
    requires BoxFits(b) && LaidOut(b) && i < |b.order|
    ensures BytesAt(File(b), HEADER_SIZE + i * SECTION_SIZE, SECTION_SIZE) == Some(EncodeSection(b.headers[b.order[i]]))
    ensures DecodeSection(EncodeSection(b.headers[b.order[i]])) == b.headers[b.order[i]]
  {
    hide Concat, Start, EncodeSection, DecodeSection, SectionFits, EncodeHeader, EntryRecords, StreamRecords, NameRecords, Payloads,
         ItemPlaced, ChunkPlaced, SectionsOf;
    var parts := FileParts(b);
    RecordBytes(parts, 1, SectionRecords(b.headers, b.order), i);
    EqualStart(SectionRecords(b.headers, b.order), SECTION_SIZE, i);
    SectionRoundTrip(b.headers[b.order[i]]);
    StartZero(parts);
    PartAt(parts, 0);
  }

  lemma SectionsLook(parts: seq<seq<byte>>, items: nat, chunks: nat)
    requires |parts| == 8
    ensures var s := SectionsOf(parts, items, chunks);
            Kinds(s) && Expected(s)
            && (ENTRY_TABLE in s <==> |parts[2]| > 0)
            && (ENTRY_TABLE in s ==> s[ENTRY_TABLE] == SectionHeader(Start(parts, 2), |parts[2]|, ENTRY_TABLE, items))
            && (STREAM_TABLE in s <==> |parts[4]| > 0)
            && (STREAM_TABLE in s ==> s[STREAM_TABLE] == SectionHeader(Start(parts, 4), |parts[4]|, STREAM_TABLE, chunks))
  {
    hide Start;
  }

  lemma TablesReadBack(b: Box)
    requires BoxFits(b) && LaidOut(b)
    ensures Kinds(b.headers) && Expected(b.headers)
    ensures TableItems(File(b), b.headers) == Some(ItemsBack(b.items))
    ensures TableChunks(File(b), b.headers) == Some(ChunksBack(b.chunks))
  {
    hide File, FileParts, Start, BoxFits, LaidOut, SectionsOf, Kinds, Expected, Encodable, TableItems, TableChunks;
    Sectioned(b);
    SectionsLook(FileParts(b), |b.items|, |b.chunks|);
    ItemTableReadsBack(b);
    ChunkTableReadsBack(b);
  }

  lemma ItemTableReadsBack(b: Box)
    requires BoxFits(b) && LaidOut(b)
    ensures TableItems(File(b), b.headers) == Some(ItemsBack(b.items))
  {
    hide File, FileParts, Start, BoxFits, LaidOut, ItemsAt, SectionsOf, Kinds, Expected, Encodable, AnyPayload, ItemBack;
    Sectioned(b);
    SectionsLook(FileParts(b), |b.items|, |b.chunks|);
    PartsEmpty(b);
    ItemsReadBack(b, |b.items|);
    assert b.items[..|b.items|] == b.items;
    assert b.items == [] ==> ItemsBack(b.items) == [];
  }

  lemma ChunkTableReadsBack(b: Box)
    requires BoxFits(b) && LaidOut(b)
    ensures TableChunks(File(b), b.headers) == Some(ChunksBack(b.chunks))
  {
    hide File, FileParts, Start, BoxFits, LaidOut, ChunksAt, SectionsOf, Kinds, Expected, Encodable, AnyPayload, ChunkBack;
    Sectioned(b);
    SectionsLook(FileParts(b), |b.items|, |b.chunks|);
    PartsEmpty(b);
    ChunksReadBack(b, |b.chunks|);
    assert b.chunks[..|b.chunks|] == b.chunks;
    assert b.chunks == [] ==> ChunksBack(b.chunks) == [];
  }

  lemma Sectioned(b: Box)
    requires LaidOut(b)
    ensures Encodable(b) && b.headers == SectionsOf(FileParts(b), |b.items|, |b.chunks|)
    ensures b.header.index == SectionHeader(HEADER_SIZE, SECTION_SIZE * |b.order|, SECTION_TABLE, |b.order|)
  {
  }

  lemma HeaderReadsBack(b: Box)
    requires BoxFits(b) && LaidOut(b)
    ensures |File(b)| >= HEADER_SIZE && DecodeHeader(File(b)[..HEADER_SIZE]) == b.header
    ensures SectionsAt(File(b), SeekPosition(b.header.index.offset), b.header.index.count) == Some(b.headers)
  {
    TablesReadBack(b);
    Ordered(b);
    Sectioned(b);
    SectionsReadBack(b, |b.order|);
    AllTaken(b.headers, b.order);
    HeaderBytes(b);
  }

  lemma HeaderBytes(b: Box)
    requires BoxFits(b) && LaidOut(b)
    ensures |File(b)| >= HEADER_SIZE && DecodeHeader(File(b)[..HEADER_SIZE]) == b.header
  {
    hide Concat, Start, EncodeHeader, DecodeHeader, HeaderFits, SectionsOf, ItemPlaced, ChunkPlaced, Permutation;
    StartZero(FileParts(b));
    PartAt(FileParts(b), 0);
    HeaderRoundTrip(b.header);
  }

  lemma AllTaken(headers: map<nat, SectionHeader>, order: seq<nat>)
    requires Permutation(order, headers)
    ensures forall i :: 0 <= i < |order| ==> order[i] in headers
    ensures Taken(headers, order, |order|) == headers
  {
    assert order[..|order|] == order;
  }

  /** A stream as it comes back: with its entries. */
  function ListedBack(chunks: seq<Chunk>): (r: seq<Chunk>)
    ensures |r| == |chunks|
  {
    seq(|chunks|, s requires 0 <= s < |chunks| => ChunkBack(chunks[s]).(entries := chunks[s].entries))
  }

  lemma PlacesBack(items: seq<Item>)
    ensures Writer.Places(ItemsBack(items)) == Writer.Places(items)
  {
  }

  /**
   Reading what was written comes through exactly when each stream lists its entries in ascending
   order; and then the header, the sections, the records, the filters, the names and the lists of
   entries are back, whatever the order in which the section table was written.
   */
  lemma WrittenReadsBack(b: Box)
    requires LaidOut(b) && BoxFits(b) && b.header.magic == Writer.MAGIC
    requires Mapping.Bijection(Writer.Places(b.items), |b.items|, Writer.Lists(b.chunks))
    ensures Load(File(b)).Some? <==> Mapping.InOrder(Writer.Places(b.items), |b.items|, |b.chunks|)
    ensures Load(File(b)).Some? ==> Load(File(b)).value == Loaded(b.header, b.headers, ItemsBack(b.items), ListedBack(b.chunks))
  {
    hide LaidOut, BoxFits, File, SectionsAt, SeekPosition, TableItems, TableChunks, Expected, DecodeHeader, Mapping.Bijection, Mapping.InOrder,
         Mapping.Slots, ItemBack, ChunkBack, Encodable;
    Ordered(b);
    HeaderReadsBack(b);
    TablesReadBack(b);
    PlacesBack(b.items);
    var places := Writer.Places(b.items);
    if Mapping.InOrder(places, |places|, |b.chunks|) {
      Mapping.CheckAcceptsExactly(places, |b.chunks|);
      Mapping.BijectionIsUnique(places, Mapping.Slots(places, |places|, |b.chunks|), Writer.Lists(b.chunks));
      assert WithEntries(ChunksBack(b.chunks), Writer.Lists(b.chunks)) == ListedBack(b.chunks);
    }
  }

  /** A name comes back as it was exactly when there is no NUL in it. */
  lemma {:induction false} NameComesBackExactly(name: seq<byte>)
    ensures UpToNul(name) == name <==> 0 !in name
    decreases |name|
  {
    if name != [] {
      NameComesBackExactly(name[1..]);
      assert name == [name[0]] + name[1..];
    }
  }

  // ---------------------------------------------------------------------------------------
  // The reader
  // ---------------------------------------------------------------------------------------

  /** A checked read: all of the bytes, or nothing at all. */
  method ReadChecked(r: MemoryBuffer, n: nat) returns (bytes: Option<seq<byte>>)
    requires r.Valid() && n > 0
    modifies r`position
    ensures bytes == BytesAt(r.Contents(), old(r.position), n)
    ensures bytes.Some? ==> r.position == old(r.position) + n
  {
    if r.position > r.size {
      return None;
    }
    ghost var at := r.position;
    var read := r.Read(n);
    if |read| == n {
      bytes := Some(read);
    } else {
      bytes := None;
    }
  }

  /** A read into a buffer of zeros. */
  method ReadPadded(r: MemoryBuffer, n: nat) returns (bytes: Option<seq<byte>>)
    requires r.Valid() && n > 0
    modifies r`position
    ensures bytes == PaddedAt(r.Contents(), old(r.position), n)
  {
    if r.position > r.size {
      return None;
    }
    ghost var file, at := r.Contents(), r.position;
    var read := r.Read(n);
    bytes := Some(read + Zeros(n - |read|));
    if |read| == n {
      assert read + Zeros(0) == file[at..at + n];
    } else {
      assert read == file[at..];
    }
  }

  /** Character by character, up to the NUL. */
  method ReadName(r: MemoryBuffer) returns (name: Option<seq<byte>>)
    requires r.Valid()
    modifies r`position
    ensures name == NameAt(r.Contents(), old(r.position))
  {
    ghost var file, start := r.Contents(), r.position;
    var characters: seq<byte> := [];
    var c := ReadChecked(r, 1);
    LongerByNothing(NameAt(file, start));
    while c.Some? && c.value[0] != 0
      invariant r.Valid() && r.Contents() == file
      invariant c == BytesAt(file, start + |characters|, 1) && (c.Some? ==> r.position == start + |characters| + 1)
      invariant NameAt(file, start) == Longer(characters, NameAt(file, start + |characters|))
      decreases c.Some?, |file| - start - |characters|
    {
      ghost var rest := NameAt(file, start + |characters| + 1);
      LongerTwice(characters, c.value[0], rest);
      characters := characters + [c.value[0]];
      c := ReadChecked(r, 1);
    }
    name := if c.None? then None else Some(characters);
    assert characters + [] == characters;
  }

  function Longer(front: seq<byte>, name: Option<seq<byte>>): Option<seq<byte>> {
    if name.None? then None else Some(front + name.value)
  }

  lemma LongerByNothing(name: Option<seq<byte>>)
    ensures Longer([], name) == name
  {
    if name.Some? {
      assert [] + name.value == name.value;
    }
  }

  lemma LongerTwice(front: seq<byte>, c: byte, rest: Option<seq<byte>>)
    ensures Longer(front, Longer([c], rest)) == Longer(front + [c], rest)
  {
    if rest.Some? {
      assert front + ([c] + rest.value) == (front + [c]) + rest.value;
    }
  }

  method ReadPayload(r: MemoryBuffer, place: nat, length: nat) returns (payload: Option<seq<byte>>)
    requires r.Valid()
    modifies r`position
    ensures payload == PayloadAt(r.Contents(), place, length)
  {
    payload := Some([]);
    if length > 0 {
      r.Seek(SeekPosition(place), FromStart);
      payload := ReadPadded(r, length);
    }
  }

  /** `unserializePayload`: the payload is a buffer of its own. */
  method Unserialize(payload: seq<byte>) returns (filters: Option<seq<Builder>>)
    ensures filters == FiltersOf(payload)
  {
    hide Parse;
    var buffer := new MemoryBuffer(|payload|);
    Append(buffer, payload);
    assert buffer.Contents() == payload;
    var queue := new Queue([]);
    var status := queue.Unserialize(buffer);
    assert queue.builders == Parse(payload).builders;
    if status.Done? {
      filters := Some(queue.builders);
    } else {
      filters := None;
    }
  }

  method ReadItem(r: MemoryBuffer, at: nat) returns (item: Option<Item>)
    requires r.Valid()
    modifies r`position
    ensures item == ItemAt(r.Contents(), at)
  {
    hide DecodeEntry, NameAt, PayloadAt, FiltersOf;
    r.Seek(at, FromStart);
    var bytes := ReadChecked(r, ENTRY_SIZE);
    if bytes.None? {
      return None;
    }
    var entry := DecodeEntry(bytes.value);
    r.Seek(SeekPosition(entry.nameOffset), FromStart);
    var name := ReadName(r);
    var payload := ReadPayload(r, entry.payload, entry.payloadLength);
    if name.None? || payload.None? {
      return None;
    }
    var filters := Unserialize(payload.value);
    if filters.None? {
      return None;
    }
    item := Some(Item(name.value, filters.value, entry));
  }

  method ReadChunk(r: MemoryBuffer, at: nat) returns (chunk: Option<Chunk>)
    requires r.Valid()
    modifies r`position
    ensures chunk == ChunkAt(r.Contents(), at)
  {
    hide DecodeStream, PayloadAt, FiltersOf;
    r.Seek(at, FromStart);
    var bytes := ReadChecked(r, STREAM_SIZE);
    if bytes.None? {
      return None;
    }
    var stream := DecodeStream(bytes.value);
    var payload := ReadPayload(r, stream.payload, stream.payloadLength);
    if payload.None? {
      return None;
    }
    var filters := Unserialize(payload.value);
    if filters.None? {
      return None;
    }
    chunk := Some(Chunk([], filters.value, stream));
  }

  /** The file has no checksum, or the right one. */
  ghost predicate ChecksumHolds(header: Header, contents: seq<byte>)
    requires |contents| >= HEADER_SIZE
  {
    Writer.HasChecksumFlag(header.flags) ==> header.fileChecksum == Writer.ChecksumOf(header, contents[HEADER_SIZE..])
  }

  /** A burst of up to 32 bits behind the header of a file with a right checksum is found out. */
  lemma BurstInvalidates(file: seq<byte>, corrupted: seq<byte>, start: nat, end: nat)
    requires |file| >= HEADER_SIZE && |corrupted| >= HEADER_SIZE && corrupted[..HEADER_SIZE] == file[..HEADER_SIZE]
    requires Crc32.Burst(file[HEADER_SIZE..], corrupted[HEADER_SIZE..], start, end)
    requires Writer.HasChecksumFlag(DecodeHeader(file[..HEADER_SIZE]).flags)
    ensures ChecksumHolds(DecodeHeader(file[..HEADER_SIZE]), file) ==> !ChecksumHolds(DecodeHeader(corrupted[..HEADER_SIZE]), corrupted)
  {
    hide DecodeHeader, EncodeHeader, Crc32.Checksum, Crc32.Burst;
    var header := DecodeHeader(file[..HEADER_SIZE]);
    var front := EncodeHeader(header)[..CHECKSUM_OFFSET];
    var rest, other := file[HEADER_SIZE..], corrupted[HEADER_SIZE..];
    Crc32.ChecksumConcat(0, front, rest);
    Crc32.ChecksumConcat(0, front, other);
    Crc32.BurstDetected(Crc32.Checksum(0, front), rest, other, start, end);
    WordsDiffer(Crc32.Checksum(0, front + rest), Crc32.Checksum(0, front + other));
  }

  lemma WordBack(c: bv32)
    ensures Writer.Word(c) as bv32 == c
  {
  }

  lemma WordsDiffer(a: bv32, b: bv32)
    requires a != b
    ensures Writer.Word(a) != Writer.Word(b)
  {
    hide Writer.Word;
    WordBack(a);
    WordBack(b);
  }

  class Archive {
    var header: Header
    var sections: map<nat, SectionHeader>
    var items: seq<Item>
    var chunks: seq<Chunk>

    method ReadSections(r: MemoryBuffer, offset: nat, count: nat) returns (ok: bool)
      requires r.Valid()
      modifies this`sections, r`position
      ensures var s := SectionsAt(r.Contents(), SeekPosition(offset), count); ok == s.Some? && (ok ==> sections == s.value)
    {
      hide DecodeSection, SeekPosition;
      sections := map[];
      r.Seek(SeekPosition(offset), FromStart);
      for i := 0 to count
        invariant r.Valid() && r.position == SeekPosition(offset) + i * SECTION_SIZE
        invariant SectionsAt(r.Contents(), SeekPosition(offset), i) == Some(sections)
      {
        var bytes := ReadChecked(r, SECTION_SIZE);
        if bytes.None? {
          SectionsFail(r.Contents(), SeekPosition(offset), i + 1, count);
          return false;
        }
        var h := DecodeSection(bytes.value);
        if h.kind !in sections {
          sections := sections[h.kind := h];
        }
      }
      ok := true;
    }

    method ReadItems(r: MemoryBuffer, offset: nat, count: nat) returns (ok: bool)
      requires r.Valid()
      modifies this`items, r`position
      ensures var s := ItemsAt(r.Contents(), offset, count); ok == s.Some? && (ok ==> items == s.value)
    {
      hide ItemAt, SeekPosition;
      items := [];
      for i := 0 to count
        invariant r.Valid() && ItemsAt(r.Contents(), offset, i) == Some(items)
      {
        var item := ReadItem(r, SeekPosition(offset + i * ENTRY_SIZE));
        if item.None? {
          ItemsFail(r.Contents(), offset, i + 1, count);
          return false;
        }
        items := items + [item.value];
      }
      ok := true;
    }

    method ReadChunks(r: MemoryBuffer, offset: nat, count: nat) returns (ok: bool)
      requires r.Valid()
      modifies this`chunks, r`position
      ensures var s := ChunksAt(r.Contents(), offset, count); ok == s.Some? && (ok ==> chunks == s.value)
    {
      hide ChunkAt, SeekPosition;
      chunks := [];
      for i := 0 to count
        invariant r.Valid() && ChunksAt(r.Contents(), offset, i) == Some(chunks)
      {
        var chunk := ReadChunk(r, SeekPosition(offset + i * STREAM_SIZE));
        if chunk.None? {
          ChunksFail(r.Contents(), offset, i + 1, count);
          return false;
        }
        chunks := chunks + [chunk.value];
      }
      ok := true;
    }

    /** `readSection` of every section, in whatever order the map is iterated. */
    method ReadTables(r: MemoryBuffer) returns (ok: bool)
      requires r.Valid() && items == [] && chunks == []
      modifies this`items, this`chunks, r`position
      ensures var i, c := TableItems(r.Contents(), sections), TableChunks(r.Contents(), sections);
              ok == (Expected(sections) && i.Some? && c.Some?) && (ok ==> items == i.value && chunks == c.value)
    {
      hide ItemsAt, ChunksAt;
      var left := sections.Keys;
      ok := true;
      while left != {}
        invariant r.Valid() && left <= sections.Keys
        invariant forall k :: k in sections && k !in left ==> k != HEADER && k != SECTION_TABLE && k != COMMENTS_TABLE && k != GROUP_TABLE
        invariant if ENTRY_TABLE in sections && ENTRY_TABLE !in left
                  then TableItems(r.Contents(), sections) == Some(items) else items == []
        invariant if STREAM_TABLE in sections && STREAM_TABLE !in left
                  then TableChunks(r.Contents(), sections) == Some(chunks) else chunks == []
        decreases |left|
      {
        var kind :| kind in left;
        left := left - {kind};
        if kind == ENTRY_TABLE {
          ok := ReadItems(r, sections[kind].offset, sections[kind].count);
        } else if kind == STREAM_TABLE {
          ok := ReadChunks(r, sections[kind].offset, sections[kind].count);
        } else if kind == HEADER || kind == SECTION_TABLE || kind == COMMENTS_TABLE || kind == GROUP_TABLE {
          ok := false;
        }
        if !ok {
          return;
        }
      }
    }

    /** `read`; what it accepts lists every entry once, at the place its record names, whatever the file. */
    method Read(r: MemoryBuffer) returns (ok: bool)
      requires r.Valid()
      modifies this, r`position
      ensures ok == Load(r.Contents()).Some?
      ensures ok ==> Loaded(header, sections, items, chunks) == Load(r.Contents()).value
      ensures ok ==> Mapping.Bijection(Writer.Places(items), |items|, Writer.Lists(chunks))
    {
      hide SectionsAt, SeekPosition, Expected, TableItems, TableChunks, DecodeHeader, Mapping.InOrder, Mapping.Slots, Mapping.Bijection;
      sections, items, chunks := map[], [], [];
      r.Seek(0, FromStart);
      var bytes := ReadChecked(r, HEADER_SIZE);
      if bytes.None? {
        return false;
      }
      assert bytes.value == r.Contents()[..HEADER_SIZE];
      header := DecodeHeader(bytes.value);
      ok := ReadSections(r, header.index.offset, header.index.count);
      if !ok || header.magic != Writer.MAGIC {
        return false;
      }
      ok := ReadTables(r);
      if !ok {
        return false;
      }
      var verdict, lists := Mapping.ReadMapping(Writer.Places(items), |chunks|);
      ok := verdict.Accepted?;
      if ok {
        chunks := WithEntries(chunks, lists);
        assert Writer.Lists(chunks) == lists;
      }
    }

    /** `isValidGlobalChecksum` */
    method IsValidGlobalChecksum(r: MemoryBuffer, digesterBuffer: nat) returns (valid: bool)
      requires r.Valid() && r.size >= HEADER_SIZE && digesterBuffer >= 1
      modifies r`position
      ensures valid <==> ChecksumHolds(header, r.Contents())
    {
      valid := true;
      if Writer.HasChecksumFlag(header.flags) {
        var checksum := Writer.GlobalChecksum(r, header, digesterBuffer);
        valid := header.fileChecksum == checksum;
      }
    }
  }

  lemma {:induction false} SectionsFail(file: seq<byte>, offset: nat, i: nat, n: nat)
    requires i <= n && SectionsAt(file, offset, i).None?
    ensures SectionsAt(file, offset, n).None?
    decreases n
  {
    if i < n {
      SectionsFail(file, offset, i, n - 1);
    }
  }

  lemma {:induction false} ItemsFail(file: seq<byte>, offset: nat, i: nat, n: nat)
    requires i <= n && ItemsAt(file, offset, i).None?
    ensures ItemsAt(file, offset, n).None?
    decreases n
  {
    hide ItemAt, SeekPosition;
    if i < n {
      ItemsFail(file, offset, i, n - 1);
    }
  }

  lemma {:induction false} ChunksFail(file: seq<byte>, offset: nat, i: nat, n: nat)
    requires i <= n && ChunksAt(file, offset, i).None?
    ensures ChunksAt(file, offset, n).None?
    decreases n
  {
    hide ChunkAt, SeekPosition;
    if i < n {
      ChunksFail(file, offset, i, n - 1);
    }
  }
}
