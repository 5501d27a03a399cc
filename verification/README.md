# RetroZip: model and proofs

This project models the streaming engine, the box archive format, the digests, the block cipher
and the indexes of RetroZip, and proves what they are for. The proofs are for Dafny 4.11;
`dafny verify dfyconfig.toml` checks them all.

## What is modelled

**Streaming.** A source is a tree of stages, each with bounded buffers, flags and an end-of-stream
sentinel (`Filters`, `Streams`); a pipe moves bytes from a source to a sink in five states
(`Pipes`). `Denote` is what a source still has to deliver. One theorem about one read (`ReadKeeps`)
gives all statements about runs: reads of any sizes through buffers of any sizes deliver exactly
what the source denotes, then end, and stay ended. `Engine`, `Transfer` and `DigestFilter` hold the
same stages as objects that move bytes between `MemoryBuffer`s (`Buffers`) and flip fields; each
method is proved equal to its step of the state machine. `SkipOffset` and `Splitting` are about the
runs that go wrong: skipping from an offset, and sinks of sizes that do not add up.

**Archive.** `Records`, `FilterQueue`, `Mapping`, `Segments` and `ArchiveLayout` describe the file:
packed records, payload chains, the mapping of entries to stream slots, the eight contiguous
parts. `StreamWriting` and `ArchiveWriter` write it, with late filling of reserved places;
`ArchiveReader` reads any bytes; `ArchiveFits` says from the inputs how large the file is and that
all fields fit; `ArchiveRoundTrip` joins them with extraction (`Extraction`, `Chains`): one method
(`WriteReadExtract`) writes, reads back and extracts. Writer and reader are also held, each on its
own, against the format: `ArchiveFields` says what stands at each place of a written file, and
`ArchiveAccepts` which bytes are read as what.

**Digests and cipher.** `Crc32`, `Sha1`, `Md5` (with `Md5Count`) and `AesField`/`Aes`/`AesCipher` each hold the
definition of a standard (section 8 of RFC 1952, sections 5.1.1 and 6.1 of FIPS 180-4, sections
3.1 to 3.4 of RFC 1321, FIPS 197) and the code as objects that refine it. The definitions are
pinned by answers that the standards print, stepped through round by round (`Crc32Example`,
`Sha1Example`, `Md5Example`, `AesExample`).

**Indexes and parsing.** `HashMap` is the repository of roms with its three indexes. `ClrMamePro`
is the tokenizer, the push parser and the handlers.

## What was found

Some statements that one would make about the code are not true of it. The model keeps the code as
it is, and the exact condition is proved instead:

- `cbc` combines every block with the same vector. Decryption undoes encryption for any number of
  blocks (`DecryptEncrypt`); agreement with CBC holds exactly under `ChainingAgreesExactly`, and
  fails on `ChainingDiffers`.
- Undoing entry filters starts at the stream's start, not at the entry's: `TotalExtractionExact`;
  `ArchiveExample` has an archive that is written, read back, and loses its second entry.
- An empty entry is extracted as everything that follows it: `EmptyExtractionExact`,
  `EmptyExtraction`. In a written archive something always follows (`NamesFollow`).
- A skip filter that counts on missing bytes never ends (`SkipperEndsExactly`,
  `SkippingPastTheEnd`), and one with an offset may recurse for ever on a full buffer
  (`SkipEndsExactly` for its state, `GetsStuckExactly` for what a caller chooses, `TwoReads`).
- The MD5 bit counter is wrong after some updates of 2^29 bytes or more: `CounterIsExact`,
  `RunCountsExactly`, `CounterFails`. Writing an archive with buffers of that size brings it about:
  `LongPieceMiscounted`. An update of 2^32 - 64 bytes or more with no byte waiting, or of 2^32 or
  more together with the bytes that wait, does not end: `UpdateEndsExactly`, `UpdateNeverEnds`.
- Streams without any byte leave the section table longer than its headers: `HeadersAgreeExactly`,
  `ReservedExactly`, `HeadersDisagree`.
- A filter payload that lacks its end is not always found out: one that is cut to nothing is an
  empty queue, and one that lacks up to 16 bytes of the cut filter is read past its end:
  `TruncationIsDetectedExactly`.
- Reading back needs each stream to list its entries in ascending order: `CheckAcceptsExactly`,
  `DescendingIsRejected`.
- An entry that two records match is merged into one of them, and the two then share a digest:
  `SharesExactly`, `TwoRecordsShare`.
- Roms outside of games are counted: `CountsExactly`, `StrayRom`.
- Fixed-size sinks must add up to the length: with too much room the rest of the last one is written
  from a null pointer, and with too little a write answers end of stream, which the pipe takes for a
  number of bytes (`SplitEndsExactly`).

## Model

| member | source | states |
|---|---|---|
| ArchiveRoundTrip.WriteAndRead | src/box/archive.cpp:241-657 | An archive written and read back, all conditions being about what it is written from: the file has the size that follows from it; every entry is recorded with its sizes and digests, the MD5 if no piece of it reaches 2^29 bytes; reading comes through exactly when each stream lists its entries in ascending order; then header, sections, records, names, filters and entry lists are back and the global checksum is found valid, for any digester buffers on either side |
| ArchiveRoundTrip.WriteReadExtract | src/box/archive.cpp:241-912 | Written to a file, read back from it, and an entry extracted from what was read, through a pipe of any size: reading comes through exactly when each stream lists its entries in ascending order; then `source(false)` gives the filtered bytes, `source(true)` the original bytes exactly when the entry's keys are aligned to its start in the stream, and an empty entry bytes that are not its own |
| ArchiveRoundTrip.WrittenExtracts | src/box/archive.cpp:697-912 | For every written archive, every entry and every buffer size: `source(false)` delivers exactly the filtered bytes of the entry; `source(true)` delivers the original bytes exactly when the entry's key stream is the same at the start of the stream as where the entry stands; of an empty entry, both deliver bytes of what follows |
| ArchiveRoundTrip.WrittenDrains | src/box/archive.cpp:837-912 | The same, for `source(false)` and `source(true)`, for a whole run of reads of any positive sizes: after enough of them the end is met and exactly those bytes have been delivered |
| ArchiveRoundTrip.ReadBackExtracts | src/box/archive.cpp:605-912 | Extraction from the archive that was read back delivers what extraction from the written one does: payloads below 2^32 bytes bring back the keys whole |
| ArchiveRoundTrip.NamesFollow | src/box/archive.cpp:370-460 | Behind every entry of a written archive there is more in the file, so an empty entry is never extracted as nothing |
| ArchiveRoundTrip.StoredAsWritten | src/box/archive.cpp:837-909 | What extraction is set up with (offset, filters, amount to skip, amount to pass) matches what writing left in the file |
| ArchiveRoundTrip.SkipIsStart | src/box/archive.cpp:891-901 | The sum over the earlier entries of the stream, of original or of filtered sizes, is where the entry starts in the stream |
| ArchiveRoundTrip.SkipIsStartOf | src/box/archive.cpp:891-901 | The amount to skip is the sum of the lengths of the sources of the earlier entries |
| ArchiveRoundTrip.SkipCounts | src/box/archive.cpp:889-902 | Whatever the records say: `source(true)` skips the original sizes of the entries before it and passes on its original size, `source(false)` the filtered sizes |
| ArchiveRoundTrip.StreamInFile | src/box/archive.cpp:426-460 | From a stream's recorded offset on, the file holds what the stream delivered |
| ArchiveRoundTrip.EntrySource | src/box/archive.cpp:837-912 | The source that is built, filter by filter and with the amount to skip summed in a loop, is the tower of undone filters under a skip filter |
| ArchiveRoundTrip.Unapply | src/box/filter_queue.h:170-174 | Unapplying a queue wraps one filter for each key, the last of the queue innermost |
| ArchiveRoundTrip.ItemComesBackExactly | src/box/archive.cpp:513-522 | What comes back of an entry is the entry exactly when its name has no NUL and every key is shorter than 2^32 bytes |
| ArchiveExample.WriteAndLose | src/box/archive.cpp:241-912 | An archive of one stream with two entries of one byte, both with the key 1, 2, written, read back and extracted with its filters undone: the second entry is not what it was |
| ArchiveExample.SecondIsLost | src/box/archive.cpp:882-886 | Whatever is extracted of that entry, it is not the byte it was written from |
| ArchiveExample.IsReady | src/box/archive.cpp:183-215 | That archive can be written |
| ArchiveFits.FileSizeIs | src/box/archive.cpp:241-490 | The size of the file, from the names, filters and sources that go into it |
| ArchiveFits.WrittenFits | src/box/archive.cpp:241-490 | If the records it starts from have values of their types, what is cast to 32 bits fits, and the size of the file is below 2^63, every field of every record that is written fits its width |
| ArchiveWriter.Archive.Write | src/box/archive.cpp:241-490 | The file is laid out as its records say, its streams hold the filtered entries, its records the sizes of the sources and what the digesters say of them, fed in pieces of at most what the buffer nearest to each holds; and its checksum is right although the header is rewritten after hashing |
| ArchiveFields.WriteInFormat | src/box/archive.cpp:241-490 | `write`, byte by byte: the header, the section table, every record of an entry and of a stream has each field at its own place of the format, the fields name the places where data, names and payloads stand in the file, the digest fields hold the bytes of the digests of the source, and the checksum field the CRC-32 of bytes 0 to 48 and of all from 52 on |
| ArchiveFields.HeaderInFile | src/box/header.h:53-78 | The first 52 bytes of a written file: "box!", version 1, flags, section table at 52 with its size, type 2 and count, the length of the file, the checksum |
| ArchiveFields.ChecksumInFile | src/box/archive.cpp:659-695 | Bytes 48 to 52 are the CRC-32 of the other bytes of the file |
| ArchiveFields.SectionsInFile | src/box/header.h:24-38 | The section table lists every section that is not empty under its number (3, 5, 6, 7, 8, 9) with place, size and count |
| ArchiveFields.TablesInTurn | src/box/archive.cpp:241-464 | The sections follow each other without a gap, in the order of the constructor |
| ArchiveFields.StreamRecordInFile | src/box/header.h:124-135 | At 40 * s of the stream table: behind the flags the place where the data of stream s stand in the file, behind it their length, then checksum, place and length of the payload |
| ArchiveFields.EntryRecordInFile | src/box/header.h:103-122 | At 92 * e of the entry table: stream, place in it, payload, time and the place of the name, where the name and its NUL stand |
| ArchiveFields.EntryDigestsInFile | src/box/header.h:81-122 | and before them filtered size, size, CRC-32, MD5 and SHA-1 of the source, as the bytes of the digests |
| ArchiveWriter.Archive.WriteSections | src/box/archive.cpp:241-464 | After the last section every part is in place, every record is known, and only the reserved bytes are still open |
| ArchiveWriter.Archive.ReserveTables | src/box/archive.cpp:251-368 | Header, section table, tables and payloads are reserved one behind the other with the sizes that filling them will take |
| ArchiveWriter.Archive.ReserveEntries | src/box/archive.cpp:286-339 | Entry table and entry payloads: part sizes, section headers and the place of every payload |
| ArchiveWriter.Archive.ReserveStreams | src/box/archive.cpp:299-368 | Stream table and stream payloads, likewise |
| ArchiveWriter.Archive.PlaceItemPayloads | src/box/archive.cpp:314-330 | Every entry's payload gets the place behind the payloads before it, or 0 when it is empty |
| ArchiveWriter.Archive.PlaceChunkPayloads | src/box/archive.cpp:343-358 | Every stream's payload, likewise |
| ArchiveWriter.Archive.WriteContents | src/box/archive.cpp:370-460 | Streams and names are appended; offsets, lengths, sizes and digests are recorded |
| ArchiveWriter.Archive.WriteStreams | src/box/archive.cpp:426-460 | All streams, one behind the other: each delivers its entries through their filters and its own, and is recorded where it stands |
| ArchiveWriter.Archive.WriteStream | src/box/archive.cpp:697-809 | One stream: what reaches the file, and the record of exactly the entries of this stream, with the digests of the pieces in which their bytes were read |
| ArchiveWriter.Archive.RecordEntries | src/box/archive.cpp:791-806 | Sizes and the digests of the enabled digesters go to the entries of the stream and to no others |
| ArchiveWriter.RecordEntry | src/box/archive.cpp:791-806 | An entry's record is filled from the counters, and from digester objects that are fed its bytes in the pieces in which they were read |
| ArchiveWriter.WrittenDigests | src/box/archive.cpp:791-806 | What is recorded are the size, the CRC-32 and the SHA-1 of the source, and its MD5 if the source or the buffer nearest to its digester is below 2^29 bytes |
| ArchiveWriter.Archive.WriteNames | src/box/archive.cpp:370-393 | The names with their NULs are the last part, and every record names where its name starts |
| ArchiveWriter.Archive.FillReserved | src/box/archive.cpp:467-486 | Filling payloads and tables in place changes the reserved parts into what they should hold and no other byte |
| ArchiveWriter.Archive.FillAllPayloads | src/box/archive.cpp:811-835 | Seeking and writing payload by payload fills exactly the two payload parts; an empty payload at place 0 writes nothing |
| ArchiveWriter.Archive.FillTables | src/box/archive.cpp:473-486 | Section table (in the order of the iteration), entry table and stream table |
| ArchiveWriter.FillPart | src/tbx/streams/memory_buffer.h:307-330 | Filling a reserved array record by record replaces that part and leaves all others |
| ArchiveWriter.FillPayloads | src/box/archive.cpp:812-835 | The same for payloads of different lengths at their own places; the position is left behind the last one |
| ArchiveWriter.IterationOrder | src/box/archive.cpp:474-477 | The unordered map is iterated in some order that visits every section once |
| ArchiveWriter.Archive.FinalizeHeader | src/box/archive.cpp:659-673 | File length, version, flag and checksum of the finished file |
| ArchiveWriter.GlobalChecksum | src/box/archive.cpp:675-695 | In pieces of any size, the checksum is the CRC-32 of the header up to the checksum and of everything behind the header |
| ArchiveWriter.Finished | src/box/archive.cpp:488-489 | Replacing the header leaves a laid-out file whose checksum matches |
| ArchiveWriter.DataNotEmpty | src/box/archive.cpp:426-460 | Some stream data is written exactly when some source holds a byte, because every entry is in some stream |
| ArchiveWriter.ReservedExactly | src/box/archive.cpp:217-239 | As many section headers are emitted as were reserved exactly when there are no streams or some source holds a byte |
| ArchiveLayout.HeadersAgreeExactly | src/box/archive.cpp:217-239 | As many section headers are emitted as were reserved exactly when there are no streams or at least one byte of stream data |
| ArchiveLayout.HeadersDisagree | src/box/archive.cpp:217-239 | One stream of one empty entry: four headers reserved, three emitted |
| ArchiveLayout.TotalSizeIsFileSize | src/box/archive.cpp:41-70 | `sizeInfo().totalSize` is the size of the file exactly when there are entries and streams or neither, and streams hold a byte |
| ArchiveLayout.SectionsDisjoint | src/box/archive.cpp:241-464 | Every section lies within the file, is the part it is meant to be, and lies over no other section |
| ArchiveLayout.SectionsTile | src/box/archive.cpp:241-464 | Header, section table and sections add up to the whole file |
| ArchiveReader.WrittenReadsBack | src/box/archive.cpp:605-657 | A laid-out file whose fields fit loads exactly when the mapping is in order, and then gives back everything, in whatever order the section table was written |
| ArchiveReader.ItemReadsBack | src/box/archive.cpp:502-537 | Entry `i` of a written file reads back with its record, its name and its filters |
| ArchiveReader.ChunkReadsBack | src/box/archive.cpp:539-562 | Stream `s`, likewise |
| ArchiveReader.SectionsReadBack | src/box/archive.cpp:619-626 | The section table reads back to the map it was written from |
| ArchiveReader.HeaderReadsBack | src/box/archive.cpp:615-626 | The header reads back, and leads to the sections |
| ArchiveReader.NameComesBackExactly | src/box/archive.cpp:513-522 | A name comes back unchanged exactly when it holds no NUL |
| ArchiveReader.NameBack | src/box/archive.cpp:513-522 | Reading up to the NUL gives the name as a C string |
| ArchiveReader.Archive.Read | src/box/archive.cpp:605-657 | Reading any bytes comes through exactly when the specification says so, with exactly its result, whatever order the sections are visited in; and then every entry is listed once, at the place its record names |
| ArchiveAccepts.LoadsExactly | src/box/archive.cpp:605-657 | For any bytes: reading gives an archive exactly when the file is one, that is, starts with "box!", has its whole section table and no unexpected type in it, has every entry and stream of its tables readable, and maps the entries in order; and then gives what these bytes say |
| ArchiveAccepts.SectionsExactly | src/box/archive.cpp:619-626 | The section table is read exactly when all of it is there, and of several headers of one type the first counts |
| ArchiveAccepts.EntryExactly | src/box/archive.cpp:502-537 | An entry is read from a place exactly when its 92 bytes are there, a NUL ends its name and its payload is read to a normal end; the name is what stands before the first NUL, and bytes of a payload beyond the end are zeros |
| ArchiveAccepts.StreamExactly | src/box/archive.cpp:539-562 | A stream, likewise |
| ArchiveReader.Archive.ReadTables | src/box/archive.cpp:632-634 | Visiting the sections in any order gives the same entries and streams; an unexpected section fails |
| ArchiveReader.Archive.ReadSections | src/box/archive.cpp:619-626 | Of several headers of one kind the first counts; a short table fails |
| ArchiveReader.Archive.ReadItems | src/box/archive.cpp:502-537 | The entry table as the specification reads it, or failure |
| ArchiveReader.Archive.ReadChunks | src/box/archive.cpp:539-562 | The stream table, likewise |
| ArchiveReader.ReadName | src/box/archive.cpp:513-522 | The character loop reads up to the NUL, or fails at the end of the file |
| ArchiveReader.ReadPadded | src/box/archive.cpp:524-531 | An unchecked read past the end leaves zeros |
| ArchiveReader.Unserialize | src/box/archive.h:46-49 | Payload bytes become filters exactly when reading them ends normally |
| ArchiveReader.Archive.IsValidGlobalChecksum | src/box/archive.cpp:36-39 | Valid exactly when there is no checksum flag or the checksum matches, for any digester buffer |
| ArchiveReader.BurstInvalidates | src/box/archive.cpp:675-695 | A burst of up to 32 bits, at any alignment, behind the header of a file with a right checksum makes the checksum invalid |
| Mapping.CheckAcceptsExactly | src/box/archive.cpp:72-152 | The check accepts what the truncating assignments leave exactly when the entries of each stream have the indices 0, 1, 2, ... in entry order; slots and entries are then in bijection |
| Mapping.DescendingIsRejected | src/box/archive.cpp:642-656 | Two entries that are listed the other way round: the second assignment truncates the first away, and the check rejects |
| Mapping.ReadMapping | src/box/archive.cpp:642-656 | Assigning and checking together, including the length error of a negative index |
| Mapping.MapEntries | src/box/archive.cpp:642-653 | The assigning loop gives the specified slots, or throws exactly when a negative index meets an existing stream |
| Mapping.Check | src/box/archive.cpp:92-137 | The two loops of the check accept exactly the consistent mappings |
| Mapping.OrderGivesBijection | src/box/archive.h:114 | In order, every assignment appends, so nothing is ever truncated |
| Mapping.ConsistentInOrder | src/box/archive.cpp:642-656 | A mapping that passes the check was in order from the first entry on |
| Mapping.BrokenForGood | src/box/archive.h:114 | Once an entry is placed beyond the end of its stream, no later entry can mend the stream without claiming its place |
| Mapping.AssignPlaces | src/box/archive.cpp:183-215 | From the lists of the streams: lists and places are in bijection exactly when every entry is listed once |
| Mapping.BijectionIsUnique | src/box/archive.cpp:642-656 | Places decide the slots |
| StreamWriting.WriteParts | src/box/archive.cpp:697-809 | A stream's tree, piped out: the file gets every entry through its filters and then the stream's, and every counter and digester has seen exactly the bytes it stands for, the digester in pieces of at most what the buffer nearest to it holds |
| StreamWriting.StreamTreeDelivers | src/box/archive.cpp:716-762 | What the tree of counters, digesters and filters delivers |
| StreamWriting.StreamMeasured | src/box/archive.cpp:791-808 | What the counters and digesters under the filters say after the run, and the bound on the digesters' pieces |
| StreamWriting.PeelTower | src/box/archive.cpp:733-739 | Under a tower of filters at its end, the source has evolved from the one it was built over, is at its end, and has been asked for no more at a time than the innermost filter holds |
| StreamWriting.PipeToMemory | src/box/archive.cpp:780-789 | A pipe into a buffer delivers everything and leaves the source at its end |
| StreamWriting.LongPieceMiscounted | src/box/archive.cpp:780-789 | An entry of 2^29 bytes without filters, a stream without filters and a buffer of that size: the digester is given all bytes at once, and its counter is wrong |
| Extraction.FilteredExtractionExact | src/box/archive.cpp:837-912 | Stream filters undone and the rest skipped: exactly the filtered entry, whatever follows the stream in the file |
| Extraction.TotalExtractionExact | src/box/archive.cpp:882-886 | Entry filters are undone from the start of the stream; the original comes out exactly when the key stream repeats itself where the entry starts |
| Extraction.TotalExtractionOfPlainOrFirst | src/box/archive.cpp:882-886 | So it is exact for entries without filters and for the first entry of a stream |
| Extraction.EmptyExtractionExact | src/filters/filters.h:193-205 | An empty entry asks for 0 bytes, which means everything: nothing comes out exactly when nothing follows in the file |
| Extraction.EmptyExtraction | src/filters/filters.h:193-205 | An empty entry before one byte: that byte comes out |
| Extraction.EntrySourceDenotes | src/box/archive.cpp:868-909 | In general, extraction is a slice of the rest of the file with the filters undone from the stream's start |
| Extraction.SkipperDelivers | src/filters/filters.h:135-225 | With enough bytes in the source a skip filter delivers exactly the slice |
| Extraction.SkipperEndsExactly | src/filters/filters.h:135-225 | For reads of any sizes, the end of the stream is met exactly when the source holds the bytes to skip and to pass; then the slice has been delivered |
| Extraction.SkippingPastTheEnd | src/filters/filters.h:193-224 | One byte, and two to skip: no run of reads meets the end |
| Extraction.StarvedNeverEnds | src/filters/filters.h:193-224 | A skip filter that counts on more bytes than there are never answers end of stream |
| Extraction.TowerDelivers | src/box/filter_queue.h:164-188 | A freshly built tower of xor filters delivers the whole chain applied to its source, whatever its buffers |
| Chains.XorAllAt | src/filters/filters.h:108-127 | A chain of xor filters adds to byte i every key at i modulo its length, and nothing else |
| Chains.UnapplyApply | src/box/filter_queue.h:164-188 | A chain applied in reverse order undoes the chain |
| Chains.XorAllPrefix | src/filters/filters.h:108-127 | A prefix of the input gives the same prefix of the output |
| Chains.QueueInverts | src/box/filter_queue.h:164-188 | Unapplying any queue of pairwise inverse filters undoes applying it |
| Filters.SkipEndsExactly | src/filters/filters.h:169-225 | The recursion of the skip filter ends exactly when, before the offset, the output buffer has room for the bytes to let through |
| SkipOffset.GetsStuckExactly | src/filters/filters.h:135-225 | Over a memory buffer, some run of reads of positive sizes gets into an endless recursion exactly when the filter's buffer holds two bytes or more, and both the offset and the contents go two bytes or more beyond it |
| SkipOffset.TwoReads | src/filters/filters.h:169-186 | Such a run: two reads of one byte, from a new filter |
| SkipOffset.HarmlessRuns | src/filters/filters.h:169-186 | Over any source, no run gets stuck with a smaller buffer, offset or source |
| SkipOffset.OffsetSkipEndsExactly | src/filters/filters.h:135-225 | Of runs that do not get stuck, over any source and for any offset: the end is met exactly when the source holds offset, bytes to skip and bytes to pass, or there is nothing to skip and pass; then the bytes before the offset and the slice behind it have been delivered |
| SkipOffset.HarmlessSkipEndsExactly | src/filters/filters.h:135-225 | The same of every run, when buffer, offset or source are small enough |
| SkipOffset.ReadSkipKeeps | src/tbx/streams/data_filter.h:176-203 | A read with an offset that does not get stuck loses nothing and comes closer to the end |
| SkipOffset.ProcessKeepsRest | src/filters/filters.h:169-225 | The recursion keeps what is still to be delivered before the offset, across it and behind it |
| SkipOffset.ReadsAlike | src/tbx/streams/data_filter.h:176-203 | Without an offset it is the read of the source tree |
| Filters.DrainedKeeps | src/tbx/streams/data_filter.h:176-203 | One turn of a filter delivers a prefix of what it still has to deliver, makes progress, or ends |
| Filters.SkipProcessKeeps | src/filters/filters.h:169-225 | The skip filter's recursion keeps what is still to be delivered and lowers the work that is left |
| Filters.XorProcessKeeps | src/filters/filters.h:108-127 | So does the xor filter, whatever fits into its buffers |
| Filters.DumpKeeps | src/tbx/streams/data_filter.h:153-203 | Handing out output, discarding leftover input at the end and the end-of-stream decision lose nothing |
| Filters.XorKeyConcat | src/filters/filters.h:115-120 | Combining with the key in two goes continues where the first stopped in the key |
| Streams.ReadKeeps | src/tbx/streams/data_filter.h:176-203 | One read of any source tree: what it delivers and what is left are what was there before, and either the work gets less or everything is at its end |
| Streams.RunDelivers | src/tbx/streams/data_filter.h:176-203 | Draining with reads of any sizes through buffers of any sizes delivers exactly what the source denotes and then ends |
| Streams.EndIsSticky | src/tbx/streams/data_filter.h:199-202 | After end of stream, every later read answers end of stream |
| Streams.ListReadKeeps | src/tbx/streams/data_source.h:136-161 | The loop of `multiple_data_source`: nothing lost between sources |
| Streams.ListReadEvents | src/tbx/streams/data_source.h:143-157 | The callbacks come once for each source, in order |
| Streams.ReadEvolves | src/filters/filters.h:80-84 | Counted and digested bytes plus bytes to come never change, nor do the pieces' lengths plus bytes to come |
| Streams.EvolvedTransitive | src/filters/filters.h:69-86 | Nor do they over several reads |
| Streams.ReadStaysWithin | src/tbx/streams/data_filter.h:176-203 | No digester is given a longer piece than the filter next to it holds, or than is asked for |
| Streams.LazySeekReadKeeps | src/tbx/streams/data_source.h:254-273 | A source that seeks on its first read |
| Pipes.StepKeeps | src/tbx/streams/data_pipe.h:35-100 | Every step keeps delivered + buffered + unread, moves the state only forward and comes closer to the end |
| Pipes.ProcessDelivers | src/tbx/streams/data_pipe.h:102-108 | Every run reaches CLOSED with the sink holding the whole source |
| Pipes.ProcessEvolves | src/tbx/streams/data_pipe.h:102-108 | Counters and digests come out of a run as they come out of reads |
| Pipes.ProcessWithin | src/tbx/streams/data_pipe.h:102-108 | Nor, in a whole run of a pipe, than the pipe's buffer holds |
| Pipes.MultipleIsConcatenation | src/tbx/streams/data_source.h:136-161 | From several sources the sink gets the concatenation, with begin and end of each exactly once and in order |
| Pipes.SplitIsExact | src/tbx/streams/data_source.h:174-248 | Into fixed-size sinks that add up to the length, the split is exact |
| Splitting.SplitEndsExactly | src/tbx/streams/data_source.h:187-248 | Over fixed-size sinks of any sizes a run ends in one of three ways: closed, with pieces of exactly these sizes, if they add up to the length; at a write that no sink takes if they are less; at a write from a null pointer if they are more |
| Splitting.RunIsProcess | src/tbx/streams/data_pipe.h:102-108 | If they add up, that run is the pipe's |
| Splitting.OfferedKeeps | src/tbx/streams/data_source.h:227-246 | A data write takes a prefix, and finds no sink exactly without any room |
| Splitting.NoticedKeeps | src/tbx/streams/data_source.h:187-246 | A notification is acknowledged only without any room, closes a full sink, or writes what the open sink has left |
| Pipes.CopyIsExact | src/tbx/streams/data_pipe.h:102-108 | Into a buffer, the pipe copies the source |
| Pipes.SplitWriteKeeps | src/tbx/streams/data_source.h:187-248 | A write to a multiple sink takes a prefix, fills no sink too far, and takes something or moves on |
| Pipes.NotifyKeeps | src/tbx/streams/data_pipe.h:76-90 | An end-of-stream notification loses nothing and is acknowledged after finitely many tries |
| Engine.DataFilter.ProcessXor | src/filters/filters.h:108-127 | In-place combination with the key over the out buffer does what the state machine does |
| Engine.XorInPlace | src/filters/filters.h:114-120 | The loop over the tail: the key continued from the counter, the counter advanced, other bytes untouched |
| Engine.DataFilter.ProcessSkip | src/filters/filters.h:169-225 | The recursive skip method, on its two buffers, does what the state machine does |
| Engine.DataFilter.SkipOnce | src/filters/filters.h:169-222 | One activation, with its three branches |
| Engine.DataFilter.PassThrough | src/filters/filters.h:146-156 | Moves as much as is there, as fits and as is asked for |
| Engine.SourceFilter.Read | src/tbx/streams/data_filter.h:176-203 | A read of the filter object is a read of the state machine |
| Engine.SourceFilter.FetchInput | src/tbx/streams/data_filter.h:130-151 | Fetching fills the room in the in buffer or marks the end |
| Engine.SourceFilter.DumpOutput | src/tbx/streams/data_filter.h:153-203 | Handing out output, and the decision about the end |
| Engine.Drain | src/tbx/streams/data_filter.h:176-203 | Reading an object to its end, in pieces of any size, gives exactly what it denoted |
| Engine.MultipleSource.Read | src/tbx/streams/data_source.h:136-161 | The loop over sources with its callbacks does what the state machine does |
| Engine.MultipleSource.ReadCurrent | src/tbx/streams/data_source.h:144-157 | One turn of that loop: delivers, or moves on without changing what the whole read will answer |
| Transfer.PassthroughPipe.StepInput | src/tbx/streams/data_pipe.h:35-56 | The step of the pipe object is the step of the state machine |
| Transfer.PassthroughPipe.StepOutput | src/tbx/streams/data_pipe.h:58-92 | Likewise for output |
| Transfer.PassthroughPipe.Process | src/tbx/streams/data_pipe.h:102-108 | The loop ends closed, everything delivered |
| Transfer.PassthroughPipe.ProcessSome | src/tbx/streams/data_pipe.h:110-130 | The loop with a required size ends closed or with at least that much delivered, and loses nothing |
| Transfer.FixedSizeSinks.Write | src/tbx/streams/data_source.h:227-246 | Policy and sink objects take what the state machine takes |
| Transfer.FixedSizeSinks.BuildNext | src/tbx/streams/data_source.h:199-210 | A further sink exactly while sizes are left |
| DigestFilter.DigestAll | src/tbx/streams/data_filter.h:36-43 | Digesting a source in reads of any size on which the MD5 digester comes to an end gives the CRC-32 and SHA-1 of everything it delivers, and the MD5 if no read brings 2^29 bytes |
| DigestFilter.DigestPieces | src/filters/filters.h:51-65 | Bytes fed in given pieces to the enabled digesters: CRC-32 and SHA-1 of the bytes, and the MD5 digest with the counter that these pieces lead to |
| DigestFilter.MultipleDigest.Process | src/filters/filters.h:51-60 | Each enabled digester sees each piece on which the MD5 digester, if enabled, comes to an end; the end of the stream is no piece |
| DigestFilter.DigestingSource.Read | src/tbx/streams/data_filter.h:36-43 | The pass-through filter delivers what its source delivers, and its digesters are given it in the same pieces as in the state machine |
| Buffers.MemoryBuffer.Write | src/tbx/streams/memory_buffer.h:157-173 | Writing at any position replaces exactly the bytes there, growing when needed |
| Buffers.MemoryBuffer.Read | src/tbx/streams/memory_buffer.h:176-184 | Up to the asked amount from the position, which moves along |
| Buffers.MemoryBuffer.Reserve | src/tbx/streams/memory_buffer.h:149-154 | Position and size move on from any position; what was there stays, and the contents still lie within the block unless the position was before their end and the block is too short |
| Buffers.MemoryBuffer.EnsureCapacity | src/tbx/streams/memory_buffer.h:131-144 | A larger block takes over the contents and is otherwise zero |
| Buffers.MemoryBuffer.Append | src/tbx/streams/memory_buffer.h:264-279 | The queue view: bytes go to the end |
| Buffers.MemoryBuffer.Consume | src/tbx/streams/memory_buffer.h:270-276 | and leave at the front |
| Buffers.MemoryBuffer.Seek | src/tbx/streams/memory_buffer.h:120-129 | The position, never negative |
| Buffers.MemoryBuffer.Trim | src/tbx/streams/memory_buffer.h:186-198 | The block shrinks to the contents |
| Buffers.WriteBack | src/tbx/streams/memory_buffer.h:282-357 | Writing through a reference changes its window only and puts the position back |
| Segments.OverwriteInside | src/tbx/streams/memory_buffer.h:282-330 | Writing within one part of a file changes that part only |
| Records.EntryBytes | src/box/header.h:103-122 | Every field of an entry at its own place of the 92 bytes, the signed ones modulo 2^32 and 2^64 |
| Records.EntryNumbers | src/box/header.h:103-122 | and read from there, for any 92 bytes |
| Records.StreamBytes | src/box/header.h:124-135 | Every field of a stream record at its own place: flags 0, offset 8, length 16, checksum 24, payload 28, its length 36 |
| Records.StreamNumbers | src/box/header.h:124-135 | and read from there |
| Records.HeaderBytes | src/box/header.h:62-78 | Every field of the header at its own place |
| Records.HeaderNumbers | src/box/header.h:62-78 | and read from there |
| Records.SectionBytes | src/box/header.h:53-60 | Every field of a section header at its own place |
| Records.SectionNumbers | src/box/header.h:53-60 | and read from there |
| Records.PayloadBytes | src/box/header.h:137-142 | Every field of a payload header at its own place |
| Records.PayloadNumbers | src/box/header.h:137-142 | and read from there |
| Records.DigestInfoBytes | src/box/header.h:81-98 | Every field of a digest record at its own place |
| Records.DigestInfoNumbers | src/box/header.h:81-98 | and read from there |
| Bytes.LittleEndianAt | src/box/header.h:51-149 | Byte k of a field is the digit of weight 256^k |
| Records.EntryRoundTrip | src/box/header.h:103-122 | An entry record whose fields fit comes back from its 92 bytes |
| Records.EntryBytesRoundTrip | src/box/header.h:103-122 | Any 92 bytes are the record of exactly one entry with fitting fields |
| Records.StreamRoundTrip | src/box/header.h:124-135 | A stream record comes back from its 40 bytes |
| Records.HeaderRoundTrip | src/box/header.h:62-78 | A header comes back from its 52 bytes |
| Records.SectionRoundTrip | src/box/header.h:53-60 | A section header comes back from its 24 bytes |
| Records.PayloadRoundTrip | src/box/header.h:137-142 | A payload header comes back from its 16 bytes |
| Records.HeaderBeforeChecksum | src/box/archive.cpp:677-685 | The hashed part of the header does not depend on the checksum |
| FilterQueue.PayloadReadsBack | src/box/filter_queue.cpp:70-96 | Reading the payload of any queue ends normally, uses up exactly the payload and gives the builders in order, each key cut to what its 32-bit length field says |
| FilterQueue.PayloadRoundTripExactly | src/box/filter_queue.h:244-276 | The round trip is the identity exactly on the queues whose keys are shorter than 2^32 |
| FilterQueue.BuilderInPayload | src/box/filter_queue.h:118-135 | Builder i of any queue stands behind those before it: its number (2, 1025, 1026 or 2049), what it takes up, whether another one follows, then key length and key, or digest, window and block size, each at its place |
| FilterQueue.TruncationIsDetectedExactly | src/box/filter_queue.cpp:70-96 | Any queue's payload cut anywhere: cut to nothing it is taken for an empty queue; else a header is found too short exactly when fewer than 16 bytes of the cut builder are there, its data exactly when more than 16 bytes of it are missing; otherwise memory beyond the buffer is read (or, for a last key of 2^32 bytes or more, nothing is noticed) |
| FilterQueue.CutInBuilder | src/box/filter_queue.cpp:70-96 | Every cut is inside one of the builders |
| FilterQueue.Queue.Payload | src/box/filter_queue.h:118-135 | The loop writes the queue's payload, whose length is `payloadLength` |
| FilterQueue.Queue.Unserialize | src/box/filter_queue.cpp:70-96 | For any bytes: the builders added, the position reached, and the way reading ends, including overruns and endless loops |
| FilterQueue.GenerateParameters | src/box/filter_queue.cpp:43-51 | Every builder is generated from its own parameters |
| Sha1Digester.Sha1Object.Transform | src/tbx/hash/sha1.cpp:27-120 | The eighty unrolled calls over the 16-word circular block compute the compression of section 6.1.2 of FIPS 180-4 |
| Sha1Digester.Sha1Object.FirstTwenty | src/tbx/hash/sha1.cpp:31-51 | Twenty calls with rotated registers reach round 20 |
| Sha1Digester.Sha1Object.LastTwenty | src/tbx/hash/sha1.cpp:92-111 | and so on up to round 80 |
| Sha1Digester.Sha1Object.Update | src/tbx/hash/sha1.cpp:134-165 | Every split into updates absorbs the same message |
| Sha1Digester.Sha1Object.Finalize | src/tbx/hash/sha1.cpp:167-201 | One finalize gives SHA-1 of the message, padded as in section 5.1.1 of FIPS 180-4; what that is, `Sha1OfAbc` and `ConstantsAreRoots` pin |
| Sha1Example.Sha1OfAbc | src/tbx/hash/sha1.cpp:10-201 | SHA-1 of "abc" is a9993e36 4706816a ba3e2571 7850c26c 9cd0d89d, through all eighty rounds |
| Sha1Example.ConstantsAreRoots | src/tbx/hash/hash.h:150-154 | The constants of the rounds are the integer parts of 2^30 times the square roots of 2, 3, 5 and 10 |
| Sha1Digester.Rf | src/tbx/hash/hash.h:136-141 | One round step in registers updated by reference |
| Sha1Digester.Blk | src/tbx/hash/hash.h:129 | The circular word is the schedule word |
| Sha1Standard.HashBlocksConcat | src/tbx/hash/sha1.cpp:134-165 | Hashing blocks in two goes |
| Sha1Digester.FIsCh | src/tbx/hash/hash.h:131 | The choose function in its shorter form |
| Sha1Digester.HIsMaj | src/tbx/hash/hash.h:133 | The majority function, likewise |
| Md5Digester.Md5Object.Transform | src/tbx/hash/md5.cpp:54-148 | The 64 unrolled steps compute the compression of section 3.4 of RFC 1321 |
| Md5Digester.Md5Object.Round1 | src/tbx/hash/md5.cpp:69-85 | Sixteen steps with their own words, shifts and sines |
| Md5Digester.Md5Object.Round4 | src/tbx/hash/md5.cpp:123-139 | and the last sixteen |
| Md5Digester.Md5Object.Update | src/tbx/hash/md5.cpp:154-189 | Every split into updates on which the block loop comes to an end absorbs the same message, and the counter has counted the lengths of the pieces |
| Md5Digester.Md5Object.Finalize | src/tbx/hash/md5.cpp:195-227 | The digest of the padded message with the counter's eight bytes behind it, and the same again on every later call |
| Md5Example.Md5OfAbc | src/tbx/hash/md5.cpp:15-160 | MD5 of "abc" is 90015098 3cd24fb0 d6963f7d 28e17f72 (appendix A.5 of RFC 1321), through all sixty-four operations |
| Md5Digester.ShortPiecesGiveMd5 | src/tbx/hash/md5.cpp:154-227 | For messages taken in by pieces below 2^29 bytes, that digest is the MD5 |
| Md5Count.CounterIsExact | src/tbx/hash/md5.cpp:161-164 | After an update that comes to an end, a right 64-bit counter is right again exactly when the carry of the low half agrees with the sum |
| Md5Count.RunCountsExactly | src/tbx/hash/md5.cpp:161-164 | Over any run of updates, fewer than 2^61 bytes together, the counter ends up right exactly when every carry agreed |
| Md5Count.ShortPiecesCountRight | src/tbx/hash/md5.cpp:161-164 | Pieces below 2^29 bytes are counted right, however many there are |
| Md5Count.CounterFails | src/tbx/hash/md5.cpp:161-164 | One update of 2^29 bytes leaves 2 in the high half, where 1 is right |
| Md5Count.UpdateEndsExactly | src/tbx/hash/md5.cpp:166-184 | The block loop, whose index is 32 bits wide, comes to an end exactly on lengths below 2^32 - 64, or, with `index` bytes waiting, on lengths that make less than 2^32 with them |
| Md5Count.UpdateNeverEnds | src/tbx/hash/md5.cpp:178-181 | 2^32 - 64 bytes: with nothing waiting the loop goes on for ever, with one byte waiting it ends |
| Crc32.BurstDetected | src/tbx/hash/crc32.cpp:33-42 | Two inputs of equal length whose bits differ, but only within 32 consecutive bits at any alignment, have different checksums |
| Crc32.ChecksumConcat | src/tbx/hash/crc32.cpp:33-47 | Updating with a and then b is updating with a + b |
| Crc32Example.CheckValue | src/tbx/hash/crc32.cpp:11-60 | The CRC-32 of the digits 1 to 9 is cbf43926 |
| Crc32.TableStep | src/tbx/hash/crc32.cpp:38-39 | One table lookup is eight steps of the division |
| Crc32.Digester.Continue | src/tbx/hash/crc32.cpp:33-42 | The table-driven loop is bit-by-bit division by the polynomial (section 8 of RFC 1952) |
| Crc32.Digester.Update | src/tbx/hash/crc32.cpp:44-47 | The running value continues the division |
| Crc32.PrecomputeLut | src/tbx/hash/crc32.cpp:14-31 | The table holds the remainders of all bytes |
| Crc32.DivideInjective | src/tbx/hash/crc32.cpp:38-39 | For a fixed message, the division is a bijection of the register |
| AesStandard.InvCipherCipher | src/crypto/aes.cpp:236-286 | For every key schedule and block the inverse cipher undoes the cipher (sections 5.1 and 5.3 of FIPS 197) |
| AesStandard.CipherInvCipher | src/crypto/aes.cpp:236-286 | and the cipher the inverse cipher |
| AesStandard.DecryptEncrypt | src/crypto/aes.cpp:288-326 | `cbc<false>` undoes `cbc<true>` for any whole number of blocks |
| AesStandard.ChainingAgreesExactly | src/crypto/aes.cpp:302-326 | The code, which combines every block with the same vector, gives the CBC of section 6.2 of NIST SP 800-38A exactly when every encrypted block but the last is that vector |
| AesStandard.OnlyFixedBlock | src/crypto/aes.cpp:302-326 | which, from the second block on, one plaintext block only can bring about |
| AesStandard.ChainingDiffers | src/crypto/aes.cpp:302-326 | A concrete input on which the two differ |
| AesStandard.MixInverse | src/crypto/aes.cpp:200-234 | Mixing columns is undone over GF(2^8) |
| AesStandard.SubInverse | src/crypto/aes.cpp:126-140 | Substitution is undone by the inverse table, byte by byte |
| AesStandard.ShiftInverse | src/crypto/aes.cpp:142-198 | Shifting rows is undone |
| AesField.UnmixMix | src/crypto/aes.cpp:200-234 | The inverse mixing matrix times the mixing matrix is the identity on every column |
| AesField.MixUnmix | src/crypto/aes.cpp:200-234 | and the other way round |
| AesField.MultiplyIsProduct | src/crypto/crypto.h:43-50 | `Multiply` is the product modulo x^8 + x^4 + x^3 + x + 1 for factors below 32 |
| AesField.SboxInverse | src/crypto/aes.cpp:5-41 | The tables `sbox` and `rsbox` are inverse |
| AesSbox.SboxIsAffineInverse | src/crypto/aes.cpp:5-22 | The table `sbox` is the one defined in section 5.1.1 of FIPS 197: the affine transformation of the inverse of the index in GF(2^8) |
| AesField.OneDoublingSuffices | src/crypto/aes.cpp:207-213 | The trick with one doubling for each byte is the matrix product |
| AesField.SourceUnmixes | src/crypto/aes.cpp:229-232 | The expressions of the inverse mixing are the inverse matrix |
| AesCipher.Aes.KeyExpansion | src/crypto/aes.cpp:46-116 | For all three key sizes the loop fills the key schedule of section 5.2 of FIPS 197, which the three expansions and the example below pin |
| AesExample.Expansion128 | src/crypto/aes.cpp:46-116 | The key 2b7e1516 28aed2a6 abf71588 09cf4f3c expands to a0fafe17 88542cb1 and so on (appendix A.1 of FIPS 197) |
| AesExample.Expansion192 | src/crypto/aes.cpp:46-116 | The key of appendix A.2, likewise |
| AesExample.Expansion256 | src/crypto/aes.cpp:46-116 | The key of appendix A.3, likewise, with the words that are substituted without being turned |
| AesExample.CipherExample | src/crypto/aes.cpp:119-260 | The block 00112233 44556677 8899aabb ccddeeff under the key 00010203 04050607 08090a0b 0c0d0e0f becomes 69c4e0d8 6a7b0430 d8cdb780 70b4c55a (appendix C.1 of FIPS 197), through all ten rounds |
| AesCipher.Aes.MixTheColumns | src/crypto/aes.cpp:200-215 | The loop over columns, in place |
| AesCipher.Aes.UnmixTheColumns | src/crypto/aes.cpp:217-234 | and its inverse |
| AesCipher.Aes.ShiftTheRows | src/crypto/aes.cpp:142-169 | Rows turned left in place |
| AesCipher.Aes.UnshiftTheRows | src/crypto/aes.cpp:171-198 | and right |
| AesCipher.Aes.Encipher | src/crypto/aes.cpp:236-260 | The rounds in place are the cipher of the block |
| AesCipher.Aes.Decipher | src/crypto/aes.cpp:262-286 | and the inverse cipher |
| AesCipher.Aes.Crypt | src/crypto/crypto.h:85-89 | Prepares and enciphers the first block; the rest is copied |
| AesCipher.Aes.Decrypt | src/crypto/crypto.h:91-95 | Prepares and deciphers |
| AesCipher.Aes.Chain | src/crypto/aes.cpp:288-340 | Encryption and decryption of any length: whole blocks, also the one that the length ends in; and then the bytes that the length is over, taken from behind that block and ciphered with what the output holds there |
| AesCipher.Aes.ChainWhole | src/crypto/aes.cpp:302-326 | The loop over blocks is the block-by-block definition, and touches nothing behind them |
| AesCipher.Aes.Leftover | src/crypto/aes.cpp:328-339 | What is done with the bytes that the length is over |
| HashMap.RunKeepsEverything | src/data/hash_map.h:78-154 | Over every run of adds the references add up to the accepted adds, and every accepted entry is still in the record it went to |
| HashMap.AddKeeps | src/data/hash_map.h:78-154 | An add keeps both directions of every index; a rejected one changes nothing; an accepted one puts in everything the entry says and takes nothing from any record |
| HashMap.TwoRecordsAdded | src/data/hash_map.h:78-154 | Two adds to an empty repository, one with a CRC-32 and one with an MD5, leave those two records |
| HashMap.RejectedExactly | src/data/hash_map.h:82-131 | While no records share a digest, an entry is rejected exactly when a record that has one of its digests contradicts it |
| HashMap.FullRunRejectsExactly | src/data/hash_map.h:78-154 | and so it is after every run of entries that carry all three digests |
| HashMap.SharesExactly | src/data/hash_map.h:133-151 | Records that share no digest still share none after an accepted add exactly when all indexes that know one of the entry's digests lead to the same record |
| HashMap.TwoRecordsShare | src/data/hash_map.h:133-151 | A rom known by its CRC-32, one by its MD5, and an entry with both: two records have the same CRC-32 afterwards |
| HashMap.FullRunUnshared | src/data/hash_map.h:78-154 | If every entry carries all three digests, no two records ever share one |
| HashMap.MergeKeepsExactly | src/data/entry.h:35-73 | Merging loses nothing of either side exactly when the two are compatible |
| HashMap.AddedExactly | src/data/hash_map.h:78-154 | An accepted add goes to the record its SHA-1 is known by, else its MD5, else its CRC-32, else to a new one; that record has the rom behind those it had and every digest of the entry over what it said, and all other records are what they were |
| HashMap.RunKeepsRoms | src/data/hash_map.h:78-154 | Over every run of adds, the roms of a record are exactly those of the entries that went to it, in order |
| HashMap.Hashes.Add | src/data/hash_map.h:78-154 | The method on the four fields adds as specified: the rom goes behind those of its record, and no other record changes |
| HashMap.Hashes.FindRecord | src/data/hash_map.h:82-131 | Three searches, of which the last match counts and any collision rejects |
| HashMap.Hashes.Find | src/data/hash_map.h:69-76 | Finds a record with the SHA-1 exactly when there is one |
| ClrMamePro.ParsePrinted | src/parsers/clrmamepro.cpp:110-228 | Any text that spells a tree, laid out and quoted in any way, fires exactly the tree's events in pre-order and leaves the stack empty |
| ClrMamePro.PrintedParses | src/parsers/clrmamepro.cpp:110-228 | A tree printed with every atom between quotes parses back to its events |
| ClrMamePro.HasTextExactly | src/parsers/clrmamepro.cpp:110-156 | A tree has a text exactly when none of its atoms is empty or has a quote in it |
| ClrMamePro.ReadPrinted | src/parsers/clrmamepro.cpp:232-327 | and, with games outside of games and roms in games, gives exactly the games of the tree, with a count and a size that are the sums over them; every rom has as name, size, CRC-32, MD5 and SHA-1 the values of its last pairs `name`, `size`, `crc`, `md5` and `sha1` in pre-order, and every game as name the last one outside of its roms |
| ClrMamePro.GamesAreSaid | src/parsers/clrmamepro.cpp:258-327 | The games of any nodes, field by field: one for each game scope, with one rom for each rom scope in it; pairs count if a `clrmamepro` scope has ended before |
| ClrMamePro.RomFields | src/parsers/clrmamepro.cpp:258-290 | The rom that nodes describe: each digest is the value of the last pair with its own key, and none without such a pair |
| ClrMamePro.NameIsSaid | src/parsers/clrmamepro.cpp:263-269 | The name of a game is the last one given outside of its roms |
| ClrMamePro.CountsExactly | src/parsers/clrmamepro.cpp:292-327 | For every tree, scopes standing anywhere: count and size are those of all its rom scopes, and the games list the roms that end in a game with no start of a game behind them; so the count is that of the listed roms exactly when the tree has as many of the ones as of the others, and the size likewise |
| ClrMamePro.TreeMoves | src/parsers/clrmamepro.cpp:258-327 | What the nodes of any tree do to count, size and games |
| ClrMamePro.StrayRom | src/parsers/clrmamepro.cpp:292-327 | A rom outside of every game is counted, and no game has it |
| ClrMamePro.TokenizeText | src/parsers/clrmamepro.cpp:110-156 | Tokenizing a text gives back the tokens it spells |
| ClrMamePro.PushTree | src/parsers/clrmamepro.cpp:194-228 | The tokens of a tree fire its events, whatever scopes are open |
| ClrMamePro.HandleDat | src/parsers/clrmamepro.cpp:258-327 | The handlers compute what a file's nodes mean |
| ClrMamePro.HandleGame | src/parsers/clrmamepro.cpp:258-327 | and what the nodes of a game mean |
| ClrMamePro.HandleRom | src/parsers/clrmamepro.cpp:263-289 | and of a rom: each field is the value of the last pair with its own key, or what it was |
| ClrMamePro.Tokenizer.Parse | src/parsers/clrmamepro.cpp:110-156 | The character loop hands exactly the tokens of the text to the tree parser; line and column are those of its end |
| ClrMamePro.TreeParser.Token | src/parsers/clrmamepro.cpp:194-228 | One token: the stack afterwards and the callbacks made |
| ClrMamePro.DatHandler.OnScope | src/parsers/clrmamepro.cpp:292-327 | Start and end of a scope |
| ClrMamePro.DatHandler.OnPair | src/parsers/clrmamepro.cpp:258-290 | A pair: `crc`, `md5`, `sha1` and `size` set their own field of the rom, `name` that of the rom or of the game by the scope, and nothing else changes; before the first `clrmamepro` scope has ended nothing does |
| ClrMamePro.ReadText | src/parsers/clrmamepro.cpp:232-256 | The three objects together |

## Left out

- Deflate, LZMA and xdelta3 data paths: foreign state machines. Their builders take part in payloads (`FilterQueue`) and, as any pair of inverse functions, in `QueueInverts`; streams are written and extracted with xor filters only.
- Upstream sources and pipe ends are held as values (`Streams.Source`, `Pipes.Sink`) by the objects that read from them and write to them, so sharing one source between two readers, and writing into a caller's buffer at a pointer, are not captured.
- StreamWriting.PipeToMemory: collects what the pipe delivers and appends it to the file at once, where the original appends piece by piece.
- ArchiveWriter.Archive.Write: requires that what is cast to 32 bits fits in 32 bits, that the buffer is empty, at least one stream byte when there are streams, and, with MD5 enabled, pieces below 2^32 - 64 bytes, because the digester does not come back from longer ones; in which pieces an entry is read is said only by their sum and their bound; the constructor's fixed order of sections is followed directly, and a second write of the same object is not modelled.
- ArchiveReader.WrittenReadsBack: requires that every field fits its width and that the file is shorter than 2^63 bytes; `WrittenFits` derives both from what is written.
- ArchiveReader.Archive.Read: every way of not coming back (an exception, a failed assertion, a read outside of a buffer, an endless loop over a payload) is one outcome; a file with a group table counts as not readable.
- ArchiveReader.Archive.ReadTables: a group table fails here, where the original reads it.
- Archive groups, comments, stream checksums and seekable streams: not implemented in the original or never taken.
- Mapping.MapEntries: memory running out for a huge index is not modelled, only the length error of a negative one.
- FilterQueue.Queue.Unserialize: reading memory past the payload is one outcome, `OutOfBounds`, without saying what is read.
- Engine.DataFilter.ProcessSkip: with an offset, only for states on which the recursion ends (`SkipEndsExactly` says which). Source trees hold skip filters with offset 0, the only one the archive uses; `SkipOffset` has the others, over any source tree.
- Extraction.SkipperEndsExactly: for offset 0; `OffsetSkipEndsExactly` is for any.
- Md5Digester.Md5Object.Update: for lengths on which the loop comes to an end, as `UpdateEndsExactly` says; from others the original does not come back. Updating after finalizing is not modelled.
- Sha1Digester.Sha1Object.Finalize: for messages of under 2^61 bytes, as the standard demands; updating or finalizing again afterwards is not modelled.
- AesCipher.Aes.Chain: requires as many bytes of input and room of output as the code touches, which for a partial last block is more than the length.
- Buffers.MemoryBuffer.Write: bytes of a gap left by seeking past the end are whatever the block held.
- `sink_filter`: its flush loop does not end with a sink that takes less than everything.
- HashMap.Hashes.SizeInBytes: a size that was never set counts as 0; in the original it is indeterminate.
- ClrMamePro.ReadPrinted: what games a tree stands for is said only for games outside of games and roms in games; for others, `ReadText` gives the handlers' result and `CountsExactly` count and size. How a size is read from its digits, and the value of a size that was never set, are parameters; digests are kept as they are written.
- ClrMamePro.TreeParser.Token: popping an empty stack, undefined in the original, is marked as a crash.
- `file_data_source.h`, the FUSE file system, command lines, XML, paths and hexadecimal conversion: input and output, or easy members.
