/**
 Which files reading accepts, and what it makes of them (`Archive::read` in src/box/archive.cpp),
 stated on the bytes of any file whatever.
 */
module ArchiveAccepts {
  import opened Bytes
  import opened Records
  import opened FilterQueue
  import opened ArchiveLayout
  import opened ArchiveReader
  import opened Optional
  import Mapping
  import Writer = ArchiveWriter

  /** The number in the `w` bytes at a place. */
  function NumberIn(file: seq<byte>, at: nat, w: nat): nat
    requires at + w <= |file|
  {
    Number(file[at..at + w])
  }

  // ---------------------------------------------------------------------------------------
  // The section table
  // ---------------------------------------------------------------------------------------

  predicate TableThere(file: seq<byte>, at: nat, n: nat) {
    n == 0 || at + 24 * n <= |file|
  }

  /** The type of header `i` of a table. */
  function KindAt(file: seq<byte>, at: nat, i: nat): nat
    requires at + 24 * i + 24 <= |file|
  {
    NumberIn(file, at + 24 * i + 16, 4)
  }

  function HeaderAt(file: seq<byte>, at: nat, i: nat): SectionHeader
    requires at + 24 * i + 24 <= |file|
  {
    var from := at + 24 * i;
    SectionHeader(NumberIn(file, from, 8), NumberIn(file, from + 8, 8), NumberIn(file, from + 16, 4), NumberIn(file, from + 20, 4))
  }

  /** Header `i` is the first of its type. */
  ghost predicate IsFirst(file: seq<byte>, at: nat, i: nat, kind: nat) {
    && at + 24 * i + 24 <= |file| && KindAt(file, at, i) == kind
    && forall j :: 0 <= j < i ==> KindAt(file, at, j) != kind
  }

  /** Of several headers of one type the first counts. */
  ghost predicate TableIs(file: seq<byte>, at: nat, n: nat, m: map<nat, SectionHeader>)
    requires TableThere(file, at, n)
  {
    && (forall i: nat, k: nat :: i < n && IsFirst(file, at, i, k) ==> k in m && m[k] == HeaderAt(file, at, i))
    && (forall k :: k in m ==> exists i: nat :: i < n && IsFirst(file, at, i, k))
  }

  lemma HeaderBytesAt(file: seq<byte>, at: nat, i: nat)
    requires at + 24 * i + 24 <= |file|
    ensures DecodeSection(file[at + 24 * i..at + 24 * i + 24]) == HeaderAt(file, at, i) && HeaderAt(file, at, i).kind == KindAt(file, at, i)
  {
    hide Number, DecodeSection;
    var s, from := file[at + 24 * i..at + 24 * i + 24], at + 24 * i;
    SectionNumbers(s);
    SliceOfSlice(file, from, 24, 0, 8);
    SliceOfSlice(file, from, 24, 8, 8);
    SliceOfSlice(file, from, 24, 16, 4);
    SliceOfSlice(file, from, 24, 20, 4);
  }

  /** The section table is read exactly when all of it is in the file. */
  lemma {:induction false} SectionsExactly(file: seq<byte>, at: nat, n: nat)
    ensures SectionsAt(file, at, n).Some? <==> TableThere(file, at, n)
    ensures TableThere(file, at, n) ==> TableIs(file, at, n, SectionsAt(file, at, n).value)
    decreases n
  {
    hide DecodeSection, IsFirst, HeaderAt, KindAt;
    if n > 0 {
      SectionsExactly(file, at, n - 1);
      if at + 24 * n <= |file| {
        HeaderBytesAt(file, at, n - 1);
        OneHeaderMore(file, at, n, SectionsAt(file, at, n - 1).value);
      }
    }
  }

  lemma OneHeaderMore(file: seq<byte>, at: nat, n: nat, m: map<nat, SectionHeader>)
    requires n > 0 && at + 24 * n <= |file| && TableIs(file, at, n - 1, m)
    ensures var h := HeaderAt(file, at, n - 1); TableIs(file, at, n, if h.kind in m then m else m[h.kind := h])
  {
    hide HeaderAt, KindAt;
    var h := HeaderAt(file, at, n - 1);
    HeaderBytesAt(file, at, n - 1);
    if h.kind in m {
      var i: nat :| i < n - 1 && IsFirst(file, at, i, h.kind);
      assert KindAt(file, at, i) == KindAt(file, at, n - 1) == h.kind;
    } else {
      NoneBefore(file, at, n - 1, h.kind, m);
      assert IsFirst(file, at, n - 1, h.kind);
    }
  }

  /** A type that is in no header before: the next one is its first. */
  lemma NoneBefore(file: seq<byte>, at: nat, n: nat, kind: nat, m: map<nat, SectionHeader>)
    requires at + 24 * n <= |file| && TableIs(file, at, n, m) && kind !in m
    ensures forall j :: 0 <= j < n ==> KindAt(file, at, j) != kind
  {
    hide KindAt, HeaderAt;
    if j :| 0 <= j < n && KindAt(file, at, j) == kind {
      var i := FirstOf(file, at, j, kind);
      assert false;
    }
  }

  lemma {:induction false} FirstOf(file: seq<byte>, at: nat, j: nat, kind: nat) returns (i: nat)
    requires at + 24 * j + 24 <= |file| && KindAt(file, at, j) == kind
    ensures i <= j && IsFirst(file, at, i, kind)
    decreases j
  {
    hide KindAt;
    i := j;
    if k :| 0 <= k < j && KindAt(file, at, k) == kind {
      i := FirstOf(file, at, k, kind);
    }
  }

  // ---------------------------------------------------------------------------------------
  // Entries and streams
  // ---------------------------------------------------------------------------------------

  /** A name: what stands from the place up to the first NUL. */
  ghost predicate NameIs(file: seq<byte>, at: nat, name: seq<byte>) {
    at + |name| < |file| && file[at..at + |name|] == name && file[at + |name|] == 0 && 0 !in name
  }

  lemma {:induction false} NameExactly(file: seq<byte>, at: nat, name: seq<byte>)
    ensures NameAt(file, at) == Some(name) <==> NameIs(file, at, name)
    decreases |name|
  {
    if name != [] {
      NameStarts(file, at, name);
      if at < |file| && file[at] != 0 {
        NameExactly(file, at + 1, name[1..]);
        assert name == [name[0]] + name[1..];
      }
    }
  }

  lemma NameStarts(file: seq<byte>, at: nat, name: seq<byte>)
    requires name != []
    ensures NameIs(file, at, name) <==> at < |file| && file[at] == name[0] && file[at] != 0 && NameIs(file, at + 1, name[1..])
  {
    var rest := name[1..];
    if at + |name| < |file| {
      assert file[at..at + |name|] == [file[at]] + file[at + 1..at + 1 + |rest|];
      assert name == [name[0]] + rest;
    }
  }

  /** A payload: the bytes at its place, and zeros for those beyond the end of the file. */
  ghost predicate PayloadIs(file: seq<byte>, place: nat, length: nat, payload: seq<byte>) {
    && |payload| == length
    && (length > 0 ==> SeekPosition(place) <= |file|)
    && forall k :: 0 <= k < length ==> payload[k] == if SeekPosition(place) + k < |file| then file[SeekPosition(place) + k] else 0
  }

  lemma PayloadExactly(file: seq<byte>, place: nat, length: nat, payload: seq<byte>)
    ensures PayloadAt(file, place, length) == Some(payload) <==> PayloadIs(file, place, length, payload)
  {
    hide SeekPosition;
    if PayloadIs(file, place, length, payload) && length > 0 {
      assert PayloadAt(file, place, length).value == payload;
    }
  }

  /** What an entry's record, its name and its payload say. */
  ghost predicate EntryIs(file: seq<byte>, at: nat, item: Item) {
    && at + 92 <= |file| && item.binary == DecodeEntry(file[at..at + 92])
    && NameIs(file, SeekPosition(NumberIn(file, at + 84, 8)), item.name)
    && exists payload :: PayloadIs(file, NumberIn(file, at + 64, 8), NumberIn(file, at + 72, 4), payload) && FiltersAre(payload, item.filters)
  }

  ghost predicate FiltersAre(payload: seq<byte>, filters: seq<Builder>) {
    Parse(payload).status.Done? && Parse(payload).builders == filters
  }

  lemma EntryExactly(file: seq<byte>, at: nat, item: Item)
    ensures ItemAt(file, at) == Some(item) <==> EntryIs(file, at, item)
  {
    hide NameAt, NameIs, PayloadAt, PayloadIs, Parse, SeekPosition, Number, DecodeEntry;
    if at + 92 <= |file| {
      var s := file[at..at + 92];
      EntryNumbers(s);
      SliceOfSlice(file, at, 92, 64, 8);
      SliceOfSlice(file, at, 92, 72, 4);
      SliceOfSlice(file, at, 92, 84, 8);
      var e := DecodeEntry(s);
      NameExactly(file, SeekPosition(e.nameOffset), item.name);
      if EntryIs(file, at, item) {
        var payload :| PayloadIs(file, e.payload, e.payloadLength, payload) && FiltersAre(payload, item.filters);
        PayloadExactly(file, e.payload, e.payloadLength, payload);
      }
      if ItemAt(file, at) == Some(item) {
        var payload := PayloadAt(file, e.payload, e.payloadLength).value;
        PayloadExactly(file, e.payload, e.payloadLength, payload);
        assert FiltersAre(payload, item.filters);
      }
    }
  }

  ghost predicate StreamIs(file: seq<byte>, at: nat, chunk: Chunk) {
    && at + 40 <= |file| && chunk.binary == DecodeStream(file[at..at + 40]) && chunk.entries == []
    && exists payload :: PayloadIs(file, NumberIn(file, at + 28, 8), NumberIn(file, at + 36, 4), payload) && FiltersAre(payload, chunk.filters)
  }

  lemma StreamExactly(file: seq<byte>, at: nat, chunk: Chunk)
    ensures ChunkAt(file, at) == Some(chunk) <==> StreamIs(file, at, chunk)
  {
    hide PayloadAt, PayloadIs, Parse, SeekPosition, Number, DecodeStream;
    if at + 40 <= |file| {
      var s := file[at..at + 40];
      StreamNumbers(s);
      SliceOfSlice(file, at, 40, 28, 8);
      SliceOfSlice(file, at, 40, 36, 4);
      var r := DecodeStream(s);
      if StreamIs(file, at, chunk) {
        var payload :| PayloadIs(file, r.payload, r.payloadLength, payload) && FiltersAre(payload, chunk.filters);
        PayloadExactly(file, r.payload, r.payloadLength, payload);
      }
      if ChunkAt(file, at) == Some(chunk) {
        var payload := PayloadAt(file, r.payload, r.payloadLength).value;
        PayloadExactly(file, r.payload, r.payloadLength, payload);
        assert FiltersAre(payload, chunk.filters);
      }
    }
  }

  lemma {:induction false} ItemsExactly(file: seq<byte>, offset: nat, n: nat, items: seq<Item>)
    ensures ItemsAt(file, offset, n) == Some(items)
            <==> |items| == n && forall e :: 0 <= e < n ==> EntryIs(file, SeekPosition(offset + 92 * e), items[e])
    decreases n
  {
    hide ItemAt, EntryIs, SeekPosition;
    if n > 0 {
      var at := SeekPosition(offset + (n - 1) * ENTRY_SIZE);
      assert at == SeekPosition(offset + 92 * (n - 1));
      if |items| == n {
        var front := items[..n - 1];
        ItemsExactly(file, offset, n - 1, front);
        EntryExactly(file, at, items[n - 1]);
        assert front + [items[n - 1]] == items;
        if ItemsAt(file, offset, n) == Some(items) {
          assert ItemsAt(file, offset, n - 1).value == front;
          assert ItemAt(file, at).value == items[n - 1];
        }
      }
    }
  }

  lemma {:induction false} ChunksExactly(file: seq<byte>, offset: nat, n: nat, chunks: seq<Chunk>)
    ensures ChunksAt(file, offset, n) == Some(chunks)
            <==> |chunks| == n && forall s :: 0 <= s < n ==> StreamIs(file, SeekPosition(offset + 40 * s), chunks[s])
    decreases n
  {
    hide ChunkAt, StreamIs, SeekPosition;
    if n > 0 {
      var at := SeekPosition(offset + (n - 1) * STREAM_SIZE);
      assert at == SeekPosition(offset + 40 * (n - 1));
      if |chunks| == n {
        var front := chunks[..n - 1];
        ChunksExactly(file, offset, n - 1, front);
        StreamExactly(file, at, chunks[n - 1]);
        assert front + [chunks[n - 1]] == chunks;
        if ChunksAt(file, offset, n) == Some(chunks) {
          assert ChunksAt(file, offset, n - 1).value == front;
          assert ChunkAt(file, at).value == chunks[n - 1];
        }
      }
    }
  }

  // ---------------------------------------------------------------------------------------
  // The whole file
  // ---------------------------------------------------------------------------------------

  /** The entries are those of the table that section 3 is; without it there are none. */
  ghost predicate EntriesAre(file: seq<byte>, sections: map<nat, SectionHeader>, items: seq<Item>) {
    if 3 in sections then
      && |items| == sections[3].count
      && forall e :: 0 <= e < |items| ==> EntryIs(file, SeekPosition(sections[3].offset + 92 * e), items[e])
    else items == []
  }

  /** The streams are those of the table that section 6 is; without it there are none. */
  ghost predicate StreamsAre(file: seq<byte>, sections: map<nat, SectionHeader>, chunks: seq<Chunk>) {
    if 6 in sections then
      && |chunks| == sections[6].count
      && forall s :: 0 <= s < |chunks| ==> StreamIs(file, SeekPosition(sections[6].offset + 40 * s), chunks[s])
    else chunks == []
  }

  /** The streams without their entries, as they are before the mapping. */
  function Unmapped(chunks: seq<Chunk>): (r: seq<Chunk>)
    ensures |r| == |chunks|
  {
    seq(|chunks|, s requires 0 <= s < |chunks| => chunks[s].(entries := []))
  }

  /**
   What a file must be to be read as `l`: 52 bytes that start with "box!"; a section table all of which
   is there, with no header of type 1, 2, 4 or 10; its entries and streams; the entries at the places
   0, 1, 2 and so on of their streams in the order in which they are listed; and each of them in the
   slot that its record names.
   */
  ghost predicate IsArchive(file: seq<byte>, l: Loaded) {
    && |file| >= 52 && file[0..4] == [0x62, 0x6f, 0x78, 0x21] && l.header == DecodeHeader(file[..52])
    && var at, n := SeekPosition(NumberIn(file, 16, 8)), NumberIn(file, 36, 4);
    && TableThere(file, at, n) && TableIs(file, at, n, l.sections)
    && (forall i :: 0 <= i < n ==> KindAt(file, at, i) !in [1, 2, 4, 10])
    && EntriesAre(file, l.sections, l.items) && StreamsAre(file, l.sections, Unmapped(l.chunks))
    && Mapping.InOrder(Writer.Places(l.items), |l.items|, |l.chunks|)
    && Mapping.Bijection(Writer.Places(l.items), |l.items|, Writer.Lists(l.chunks))
  }

  lemma MapsAreOne(file: seq<byte>, at: nat, n: nat, m: map<nat, SectionHeader>, o: map<nat, SectionHeader>)
    requires TableThere(file, at, n) && TableIs(file, at, n, m) && TableIs(file, at, n, o)
    ensures m == o
  {
    hide IsFirst, HeaderAt;
    forall k | k in m
      ensures k in o && o[k] == m[k]
    {
      var i: nat :| i < n && IsFirst(file, at, i, k);
    }
    forall k | k in o
      ensures k in m
    {
      var i: nat :| i < n && IsFirst(file, at, i, k);
    }
  }

  /** No header of these types: none in the map. */
  lemma NotInMap(file: seq<byte>, at: nat, n: nat, m: map<nat, SectionHeader>)
    requires TableThere(file, at, n) && TableIs(file, at, n, m)
    ensures Expected(m) <==> forall i :: 0 <= i < n ==> KindAt(file, at, i) !in [1, 2, 4, 10]
  {
    hide KindAt, HeaderAt;
    forall k | k == 1 || k == 2 || k == 4 || k == 10
      ensures k in m <==> exists i :: 0 <= i < n && KindAt(file, at, i) == k
    {
      KindInMap(file, at, n, m, k);
    }
  }

  lemma KindInMap(file: seq<byte>, at: nat, n: nat, m: map<nat, SectionHeader>, k: nat)
    requires TableThere(file, at, n) && TableIs(file, at, n, m)
    ensures k in m <==> exists i :: 0 <= i < n && KindAt(file, at, i) == k
  {
    hide KindAt, HeaderAt;
    if k in m {
      var i: nat :| i < n && IsFirst(file, at, i, k);
    }
    if j :| 0 <= j < n && KindAt(file, at, j) == k {
      var i := FirstOf(file, at, j, k);
    }
  }

  lemma EntriesExactly(file: seq<byte>, sections: map<nat, SectionHeader>, items: seq<Item>)
    ensures TableItems(file, sections) == Some(items) <==> EntriesAre(file, sections, items)
  {
    hide ItemsAt, EntryIs, SeekPosition;
    if 3 in sections {
      ItemsExactly(file, sections[3].offset, sections[3].count, items);
    }
  }

  lemma StreamsExactly(file: seq<byte>, sections: map<nat, SectionHeader>, chunks: seq<Chunk>)
    ensures TableChunks(file, sections) == Some(chunks) <==> StreamsAre(file, sections, chunks)
  {
    hide ChunksAt, StreamIs, SeekPosition;
    if 6 in sections {
      ChunksExactly(file, sections[6].offset, sections[6].count, chunks);
    }
  }

  lemma MagicBytes()
    ensures Number([0x62, 0x6f, 0x78, 0x21]) == Writer.MAGIC
  {
    NumberOfFour([0x62, 0x6f, 0x78, 0x21], Writer.MAGIC);
  }

  lemma FirstBytes(file: seq<byte>)
    requires |file| >= 52
    ensures var h := DecodeHeader(file[..52]);
            h.index.offset == NumberIn(file, 16, 8) && h.index.count == NumberIn(file, 36, 4)
            && (h.magic == Writer.MAGIC <==> file[0..4] == [0x62, 0x6f, 0x78, 0x21])
  {
    hide Number, DecodeHeader, Base;
    var s := file[..52];
    HeaderNumbers(s);
    assert s == file[0..52];
    SliceOfSlice(file, 0, 52, 0, 4);
    SliceOfSlice(file, 0, 52, 16, 8);
    SliceOfSlice(file, 0, 52, 36, 4);
    MagicBytes();
    DigitsOfNumber(file[0..4]);
    DigitsOfNumber([0x62, 0x6f, 0x78, 0x21]);
  }

  /** Mapping entries to streams that have none yet, and taking them away again. */
  lemma MappedAndBack(chunks: seq<Chunk>, lists: seq<seq<int>>)
    requires |chunks| == |lists| && forall s :: 0 <= s < |chunks| ==> chunks[s].entries == []
    ensures Unmapped(WithEntries(chunks, lists)) == chunks && Writer.Lists(WithEntries(chunks, lists)) == lists
  {
  }

  lemma BackAndMapped(chunks: seq<Chunk>)
    ensures WithEntries(Unmapped(chunks), Writer.Lists(chunks)) == chunks
  {
  }

  lemma NoEntriesYet(file: seq<byte>, sections: map<nat, SectionHeader>, chunks: seq<Chunk>)
    requires StreamsAre(file, sections, chunks)
    ensures forall s :: 0 <= s < |chunks| ==> chunks[s].entries == []
  {
    hide SeekPosition;
  }

  lemma LoadedIsArchive(file: seq<byte>, l: Loaded)
    requires Load(file) == Some(l)
    ensures IsArchive(file, l)
  {
    hide DecodeHeader, SectionsAt, SeekPosition, Expected, TableItems, TableChunks, TableIs, EntriesAre, StreamsAre, KindAt, NumberIn,
         Mapping.InOrder, Mapping.Slots, Mapping.Bijection, Writer.Places, Writer.Lists, WithEntries, Unmapped;
    FirstBytes(file);
    var h := DecodeHeader(file[..52]);
    var at, n := SeekPosition(h.index.offset), h.index.count;
    SectionsExactly(file, at, n);
    NotInMap(file, at, n, l.sections);
    EntriesExactly(file, l.sections, l.items);
    var chunks := TableChunks(file, l.sections).value;
    StreamsExactly(file, l.sections, chunks);
    NoEntriesYet(file, l.sections, chunks);
    var places := Writer.Places(l.items);
    MappedAndBack(chunks, Mapping.Slots(places, |places|, |chunks|));
    Mapping.OrderGivesBijection(places, |places|, |chunks|);
  }

  lemma ArchiveIsLoaded(file: seq<byte>, l: Loaded)
    requires IsArchive(file, l)
    ensures Load(file) == Some(l)
  {
    hide DecodeHeader, SectionsAt, SeekPosition, Expected, TableItems, TableChunks, TableIs, EntriesAre, StreamsAre, KindAt, NumberIn,
         Mapping.InOrder, Mapping.Slots, Mapping.Bijection, Writer.Places, Writer.Lists, WithEntries, Unmapped;
    FirstBytes(file);
    var at, n := SeekPosition(l.header.index.offset), l.header.index.count;
    SectionsExactly(file, at, n);
    MapsAreOne(file, at, n, l.sections, SectionsAt(file, at, n).value);
    NotInMap(file, at, n, l.sections);
    EntriesExactly(file, l.sections, l.items);
    StreamsExactly(file, l.sections, Unmapped(l.chunks));
    var places := Writer.Places(l.items);
    Mapping.OrderGivesBijection(places, |places|, |l.chunks|);
    Mapping.BijectionIsUnique(places, Mapping.Slots(places, |places|, |l.chunks|), Writer.Lists(l.chunks));
    BackAndMapped(l.chunks);
  }

  /** Reading a file gives `l` exactly when the file is an archive of `l`; so it fails exactly on files that are none. */
  lemma LoadsExactly(file: seq<byte>)
    ensures Load(file).Some? <==> exists l :: IsArchive(file, l)
    ensures forall l :: IsArchive(file, l) <==> Load(file) == Some(l)
  {
    hide Load, IsArchive;
    forall l
      ensures IsArchive(file, l) <==> Load(file) == Some(l)
    {
      if Load(file) == Some(l) {
        LoadedIsArchive(file, l);
      }
      if IsArchive(file, l) {
        ArchiveIsLoaded(file, l);
      }
    }
    if Load(file).Some? {
      assert IsArchive(file, Load(file).value);
    }
  }
}
