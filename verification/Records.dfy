/**
 The packed records of the box format (src/box/header.h): little-endian fields of fixed widths,
 one after the other.
 */
module Records {
  import opened Bytes

  // ---------------------------------------------------------------------------------------
  // Fields
  // ---------------------------------------------------------------------------------------

  /** Each value written with its width. */
  function Fields(values: seq<nat>, widths: seq<nat>): (s: seq<byte>)
    requires |values| == |widths|
    ensures |s| == Total(widths)
    decreases |widths|
  {
    if widths == [] then [] else LittleEndian(values[0], widths[0]) + Fields(values[1..], widths[1..])
  }

  function Numbers(s: seq<byte>, widths: seq<nat>): (values: seq<nat>)
    requires |s| == Total(widths)
    ensures |values| == |widths|
    decreases |widths|
  {
    if widths == [] then [] else [Number(s[..widths[0]])] + Numbers(s[widths[0]..], widths[1..])
  }

  ghost predicate Fit(values: seq<nat>, widths: seq<nat>)
    requires |values| == |widths|
  {
    forall i :: 0 <= i < |values| ==> values[i] < Base(widths[i])
  }

  lemma {:induction false} FieldsRead(values: seq<nat>, widths: seq<nat>)
    requires |values| == |widths| && Fit(values, widths)
    ensures Numbers(Fields(values, widths), widths) == values
    decreases |widths|
  {
    if widths != [] {
      NumberOfDigits(values[0], widths[0]);
      FieldsRead(values[1..], widths[1..]);
      var s := Fields(values, widths);
      assert s[..widths[0]] == LittleEndian(values[0], widths[0]);
      assert s[widths[0]..] == Fields(values[1..], widths[1..]);
    }
  }

  lemma {:induction false} NumbersWritten(s: seq<byte>, widths: seq<nat>)
    requires |s| == Total(widths)
    ensures Fields(Numbers(s, widths), widths) == s && Fit(Numbers(s, widths), widths)
    decreases |widths|
  {
    if widths != [] {
      var first, rest := s[..widths[0]], s[widths[0]..];
      DigitsOfNumber(first);
      NumbersWritten(rest, widths[1..]);
      assert s == first + rest;
    }
  }

  // ---------------------------------------------------------------------------------------
  // Signed fields
  // ---------------------------------------------------------------------------------------

  /** Two's complement in a field that holds the numbers below `base`. */
  function Unsigned(i: int, base: int): (n: int)
    ensures -base <= 2 * i < base ==> 0 <= n < base
  {
    if i < 0 then i + base else i
  }

  function Signed(n: int, base: int): int {
    if 2 * n >= base then n - base else n
  }

  lemma SignedUnsigned(i: int, base: int)
    requires -base <= 2 * i < base
    ensures Signed(Unsigned(i, base), base) == i
  {
  }

  lemma UnsignedSigned(n: int, base: int)
    requires 0 <= n < base && base % 2 == 0
    ensures Unsigned(Signed(n, base), base) == n && -base <= 2 * Signed(n, base) < base
  {
  }

  // ---------------------------------------------------------------------------------------
  // The records
  // ---------------------------------------------------------------------------------------

  /** Size and digests of a source; the digests as the numbers that their bytes spell. */
  datatype DigestInfo = DigestInfo(size: nat, crc32: nat, md5: nat, sha1: nat)

  datatype SectionHeader = SectionHeader(offset: nat, size: nat, kind: nat, count: nat)

  datatype Header = Header(magic: nat, version: nat, flags: nat, index: SectionHeader, fileLength: nat, fileChecksum: nat)

  datatype Entry = Entry(filteredSize: nat, digest: DigestInfo, stream: int, indexInStream: int,
                         payload: nat, payloadLength: nat, timestamp: int, nameOffset: nat)

  datatype Stream = Stream(flags: nat, offset: nat, length: nat, checksum: nat, payload: nat, payloadLength: nat)

  datatype Payload = Payload(identifier: nat, length: nat, hasNext: nat)

  function DigestWidths(): seq<nat> { [8, 4, 16, 20] }
  function SectionWidths(): seq<nat> { [8, 8, 4, 4] }
  function HeaderWidths(): seq<nat> { [4, 4, 8, 8, 8, 4, 4, 8, 4] }
  function EntryWidths(): seq<nat> { [8, 8, 4, 16, 20, 4, 4, 8, 4, 8, 8] }
  function StreamWidths(): seq<nat> { [8, 8, 8, 4, 8, 4] }
  function PayloadWidths(): seq<nat> { [4, 8, 4] }

  const SECTION_SIZE: nat := 24
  const HEADER_SIZE: nat := 52
  const ENTRY_SIZE: nat := 92
  const STREAM_SIZE: nat := 40
  const PAYLOAD_SIZE: nat := 16
  const DIGEST_SIZE: nat := 48
  /** Where the checksum stands in the header. */
  const CHECKSUM_OFFSET: nat := 48

  lemma SumOfOne(a: nat)
    ensures Total([a]) == a
  {
    var s := [a];
    assert s[1..] == [];
  }

  lemma SumOfTwo(a: nat, b: nat)
    ensures Total([a, b]) == a + b
  {
    var s := [a, b];
    assert s[1..] == [b];
    SumOfOne(b);
  }

  lemma {:induction false} SumTwo(a: seq<nat>, b: seq<nat>)
    ensures Total(a + b) == Total(a) + Total(b)
    decreases |a|
  {
    if a == [] {
      assert a + b == b;
    } else {
      assert (a + b)[1..] == a[1..] + b;
      SumTwo(a[1..], b);
    }
  }

  lemma SumOfFour(a: nat, b: nat, c: nat, d: nat)
    ensures Total([a, b, c, d]) == a + b + c + d
  {
    hide Total;
    assert [a, b, c, d] == [a, b] + [c, d];
    SumOfTwo(a, b);
    SumOfTwo(c, d);
    SumTwo([a, b], [c, d]);
  }

  lemma SmallRecordSizes()
    ensures Total(DigestWidths()) == DIGEST_SIZE && Total(SectionWidths()) == SECTION_SIZE
    ensures Total(StreamWidths()) == STREAM_SIZE && Total(PayloadWidths()) == PAYLOAD_SIZE
  {
    hide Total;
    SumOfFour(8, 4, 16, 20);
    SumOfFour(8, 8, 4, 4);
    SumOfFour(8, 8, 8, 4);
    SumOfTwo(8, 4);
    SumTwo([8, 8, 8, 4], [8, 4]);
    assert StreamWidths() == [8, 8, 8, 4] + [8, 4];
    SumOfTwo(4, 8);
    SumOfOne(4);
    SumTwo([4, 8], [4]);
    assert PayloadWidths() == [4, 8] + [4];
  }

  lemma LargeRecordSizes()
    ensures Total(HeaderWidths()) == HEADER_SIZE && Total(EntryWidths()) == ENTRY_SIZE
  {
    hide Total;
    SumOfFour(4, 4, 8, 8);
    SumOfFour(8, 4, 4, 8);
    SumOfOne(4);
    SumTwo([4, 4, 8, 8], [8, 4, 4, 8]);
    SumTwo([4, 4, 8, 8] + [8, 4, 4, 8], [4]);
    assert HeaderWidths() == [4, 4, 8, 8] + [8, 4, 4, 8] + [4];
    SumOfFour(8, 8, 4, 16);
    SumOfFour(20, 4, 4, 8);
    SumOfTwo(4, 8);
    SumOfOne(8);
    SumTwo([8, 8, 4, 16], [20, 4, 4, 8]);
    SumTwo([8, 8, 4, 16] + [20, 4, 4, 8], [4, 8]);
    SumTwo([8, 8, 4, 16] + [20, 4, 4, 8] + [4, 8], [8]);
    assert EntryWidths() == [8, 8, 4, 16] + [20, 4, 4, 8] + [4, 8] + [8];
  }

  // ---------------------------------------------------------------------------------------
  // Encoding and decoding
  // ---------------------------------------------------------------------------------------

  function DigestValues(d: DigestInfo): seq<nat> { [d.size, d.crc32, d.md5, d.sha1] }

  function SectionValues(h: SectionHeader): seq<nat> { [h.offset, h.size, h.kind, h.count] }

  function HeaderValues(h: Header): seq<nat> {
    [h.magic, h.version, h.flags, h.index.offset, h.index.size, h.index.kind, h.index.count, h.fileLength, h.fileChecksum]
  }

  const INDEX_BASE: int := 0x1_0000_0000
  const TIME_BASE: int := 0x1_0000_0000_0000_0000

  /** The signed fields are in the range of their types. */
  predicate SignedFit(e: Entry) {
    -INDEX_BASE <= 2 * e.stream < INDEX_BASE && -INDEX_BASE <= 2 * e.indexInStream < INDEX_BASE
    && -TIME_BASE <= 2 * e.timestamp < TIME_BASE
  }

  function EntryValues(e: Entry): seq<nat>
    requires SignedFit(e)
  {
    [e.filteredSize, e.digest.size, e.digest.crc32, e.digest.md5, e.digest.sha1,
     Unsigned(e.stream, INDEX_BASE), Unsigned(e.indexInStream, INDEX_BASE), e.payload, e.payloadLength,
     Unsigned(e.timestamp, TIME_BASE), e.nameOffset]
  }

  function StreamValues(s: Stream): seq<nat> { [s.flags, s.offset, s.length, s.checksum, s.payload, s.payloadLength] }

  function PayloadValues(p: Payload): seq<nat> { [p.identifier, p.length, p.hasNext] }

  ghost predicate DigestFits(d: DigestInfo) { Fit(DigestValues(d), DigestWidths()) }
  ghost predicate SectionFits(h: SectionHeader) { Fit(SectionValues(h), SectionWidths()) }
  ghost predicate HeaderFits(h: Header) { Fit(HeaderValues(h), HeaderWidths()) }
  ghost predicate EntryFits(e: Entry) { SignedFit(e) && Fit(EntryValues(e), EntryWidths()) }
  ghost predicate StreamFits(s: Stream) { Fit(StreamValues(s), StreamWidths()) }
  ghost predicate PayloadFits(p: Payload) { Fit(PayloadValues(p), PayloadWidths()) }

  function EncodeDigest(d: DigestInfo): (s: seq<byte>)
    ensures |s| == DIGEST_SIZE
  {
    SmallRecordSizes();
    Fields(DigestValues(d), DigestWidths())
  }

  function DecodeDigest(s: seq<byte>): DigestInfo
    requires |s| == DIGEST_SIZE
  {
    SmallRecordSizes();
    var v := Numbers(s, DigestWidths());
    DigestInfo(v[0], v[1], v[2], v[3])
  }

  function EncodeSection(h: SectionHeader): (s: seq<byte>)
    ensures |s| == SECTION_SIZE
  {
    SmallRecordSizes();
    Fields(SectionValues(h), SectionWidths())
  }

  function DecodeSection(s: seq<byte>): SectionHeader
    requires |s| == SECTION_SIZE
  {
    SmallRecordSizes();
    var v := Numbers(s, SectionWidths());
    SectionHeader(v[0], v[1], v[2], v[3])
  }

  function EncodeHeader(h: Header): (s: seq<byte>)
    ensures |s| == HEADER_SIZE
  {
    LargeRecordSizes();
    Fields(HeaderValues(h), HeaderWidths())
  }

  function DecodeHeader(s: seq<byte>): Header
    requires |s| == HEADER_SIZE
  {
    LargeRecordSizes();
    var v := Numbers(s, HeaderWidths());
    Header(v[0], v[1], v[2], SectionHeader(v[3], v[4], v[5], v[6]), v[7], v[8])
  }

  function EncodeEntry(e: Entry): (s: seq<byte>)
    requires SignedFit(e)
    ensures |s| == ENTRY_SIZE
  {
    LargeRecordSizes();
    Fields(EntryValues(e), EntryWidths())
  }

  function DecodeEntry(s: seq<byte>): Entry
    requires |s| == ENTRY_SIZE
  {
    LargeRecordSizes();
    var v := Numbers(s, EntryWidths());
    Entry(v[0], DigestInfo(v[1], v[2], v[3], v[4]), Signed(v[5], INDEX_BASE), Signed(v[6], INDEX_BASE), v[7], v[8],
          Signed(v[9], TIME_BASE), v[10])
  }

  function EncodeStream(r: Stream): (s: seq<byte>)
    ensures |s| == STREAM_SIZE
  {
    SmallRecordSizes();
    Fields(StreamValues(r), StreamWidths())
  }

  function DecodeStream(s: seq<byte>): Stream
    requires |s| == STREAM_SIZE
  {
    SmallRecordSizes();
    var v := Numbers(s, StreamWidths());
    Stream(v[0], v[1], v[2], v[3], v[4], v[5])
  }

  function EncodePayload(p: Payload): (s: seq<byte>)
    ensures |s| == PAYLOAD_SIZE
  {
    SmallRecordSizes();
    Fields(PayloadValues(p), PayloadWidths())
  }

  function DecodePayload(s: seq<byte>): Payload
    requires |s| == PAYLOAD_SIZE
  {
    SmallRecordSizes();
    var v := Numbers(s, PayloadWidths());
    Payload(v[0], v[1], v[2])
  }

  /** A digest record whose fields fit comes back from its bytes. */
  lemma DigestRoundTrip(d: DigestInfo)
    requires DigestFits(d)
    ensures DecodeDigest(EncodeDigest(d)) == d
  {
    hide Fit, Fields, Numbers;
    SmallRecordSizes();
    FieldsRead(DigestValues(d), DigestWidths());
  }

  lemma SectionRoundTrip(h: SectionHeader)
    requires SectionFits(h)
    ensures DecodeSection(EncodeSection(h)) == h
  {
    hide Fit, Fields, Numbers;
    SmallRecordSizes();
    FieldsRead(SectionValues(h), SectionWidths());
  }

  lemma HeaderRoundTrip(h: Header)
    requires HeaderFits(h)
    ensures DecodeHeader(EncodeHeader(h)) == h
  {
    hide Fit, Fields, Numbers;
    LargeRecordSizes();
    FieldsRead(HeaderValues(h), HeaderWidths());
  }

  lemma EntryRoundTrip(e: Entry)
    requires EntryFits(e)
    ensures DecodeEntry(EncodeEntry(e)) == e
  {
    hide Fit, Fields, Numbers, Unsigned, Signed;
    LargeRecordSizes();
    FieldsRead(EntryValues(e), EntryWidths());
    SignedUnsigned(e.stream, INDEX_BASE);
    SignedUnsigned(e.indexInStream, INDEX_BASE);
    SignedUnsigned(e.timestamp, TIME_BASE);
  }

  lemma StreamRoundTrip(r: Stream)
    requires StreamFits(r)
    ensures DecodeStream(EncodeStream(r)) == r
  {
    hide Fit, Fields, Numbers;
    SmallRecordSizes();
    FieldsRead(StreamValues(r), StreamWidths());
  }

  lemma PayloadRoundTrip(p: Payload)
    requires PayloadFits(p)
    ensures DecodePayload(EncodePayload(p)) == p
  {
    hide Fit, Fields, Numbers;
    SmallRecordSizes();
    FieldsRead(PayloadValues(p), PayloadWidths());
  }

  /** Every 92 bytes are the record of exactly one entry. */
  lemma EntryBytesRoundTrip(s: seq<byte>)
    requires |s| == ENTRY_SIZE
    ensures EntryFits(DecodeEntry(s)) && EncodeEntry(DecodeEntry(s)) == s
  {
    hide Fields, Numbers, Unsigned, Signed, Base, Fit;
    LargeRecordSizes();
    NumbersWritten(s, EntryWidths());
    var v := Numbers(s, EntryWidths());
    FieldBound(v, EntryWidths(), 5);
    FieldBound(v, EntryWidths(), 6);
    FieldBound(v, EntryWidths(), 9);
    BaseIs();
    EntryOfValues(v);
  }

  lemma EntryOfValues(v: seq<nat>)
    requires |v| == 11 && v[5] < INDEX_BASE && v[6] < INDEX_BASE && v[9] < TIME_BASE
    ensures var e := Entry(v[0], DigestInfo(v[1], v[2], v[3], v[4]), Signed(v[5], INDEX_BASE), Signed(v[6], INDEX_BASE), v[7], v[8],
                           Signed(v[9], TIME_BASE), v[10]);
            SignedFit(e) && EntryValues(e) == v
  {
    hide Unsigned, Signed;
    UnsignedSigned(v[5], INDEX_BASE);
    UnsignedSigned(v[6], INDEX_BASE);
    UnsignedSigned(v[9], TIME_BASE);
  }

  lemma FieldBound(v: seq<nat>, widths: seq<nat>, i: nat)
    requires |v| == |widths| && Fit(v, widths) && i < |v|
    ensures v[i] < Base(widths[i])
  {
  }

  lemma BaseStep(w: nat)
    ensures Base(w + 1) == 256 * Base(w)
  {
  }

  lemma BaseIs()
    ensures Base(4) == INDEX_BASE && Base(8) == TIME_BASE
  {
    hide Base;
    BaseZero();
    BaseStep(0);
    BaseStep(1);
    BaseStep(2);
    BaseStep(3);
    BaseStep(4);
    BaseStep(5);
    BaseStep(6);
    BaseStep(7);
  }

  lemma BaseZero()
    ensures Base(0) == 1
  {
  }

  lemma {:induction false} FieldsConcat(v: seq<nat>, w: seq<nat>, widths: seq<nat>, more: seq<nat>)
    requires |v| == |widths| && |w| == |more|
    ensures Fields(v + w, widths + more) == Fields(v, widths) + Fields(w, more)
    decreases |v|
  {
    if v == [] {
      assert v + w == w && widths + more == more;
    } else {
      assert (v + w)[1..] == v[1..] + w && (widths + more)[1..] == widths[1..] + more;
      FieldsConcat(v[1..], w, widths[1..], more);
    }
  }

  /** The header up to its checksum does not depend on the checksum. */
  lemma HeaderBeforeChecksum(h: Header, checksum: nat)
    ensures EncodeHeader(h.(fileChecksum := checksum))[..CHECKSUM_OFFSET] == EncodeHeader(h)[..CHECKSUM_OFFSET]
  {
    hide Fields, Total;
    var g := h.(fileChecksum := checksum);
    var front, last := HeaderValues(h)[..8], HeaderWidths()[..8];
    assert HeaderValues(h) == front + [h.fileChecksum] && HeaderValues(g) == front + [checksum];
    assert HeaderWidths() == last + [4];
    FieldsConcat(front, [h.fileChecksum], last, [4]);
    FieldsConcat(front, [checksum], last, [4]);
    LargeRecordSizes();
    SumTwo(last, [4]);
    SumOfOne(4);
  }

  // ---------------------------------------------------------------------------------------
  // The place of every field
  // ---------------------------------------------------------------------------------------

  /** The first `i` widths. */
  function Before(widths: seq<nat>, i: nat): nat
    requires i <= |widths|
  {
    Total(widths[..i])
  }

  lemma BeforeNext(widths: seq<nat>, i: nat)
    requires i < |widths|
    ensures Before(widths, i + 1) == Before(widths, i) + widths[i]
  {
    assert widths[..i + 1] == widths[..i] + [widths[i]];
    SumAppend(widths[..i], widths[i]);
  }

  lemma BeforeNone(widths: seq<nat>)
    ensures Before(widths, 0) == 0
  {
    assert widths[..0] == [];
  }

  /** Field `i` stands behind those before it, whatever the other fields are. */
  lemma FieldStands(values: seq<nat>, widths: seq<nat>, i: nat)
    requires |values| == |widths| && i < |widths|
    ensures Before(widths, i) + widths[i] <= Total(widths)
    ensures Fields(values, widths)[Before(widths, i)..Before(widths, i) + widths[i]] == LittleEndian(values[i], widths[i])
  {
    var v, w := values[..i] + [values[i]], widths[..i] + [widths[i]];
    assert values == v + values[i + 1..] && widths == w + widths[i + 1..];
    FieldsConcat(v, values[i + 1..], w, widths[i + 1..]);
    FieldsConcat(values[..i], [values[i]], widths[..i], [widths[i]]);
    var x := [values[i]];
    assert x[1..] == [];
    assert Fields(x, [widths[i]]) == LittleEndian(values[i], widths[i]);
    SumTwo(w, widths[i + 1..]);
    SumAppend(widths[..i], widths[i]);
  }

  lemma NumbersNext(s: seq<byte>, t: seq<byte>, w: nat, widths: seq<nat>)
    requires |s| == w && |t| == Total(widths)
    ensures Total([w] + widths) == w + Total(widths) && Numbers(s + t, [w] + widths) == [Number(s)] + Numbers(t, widths)
  {
    hide Number;
    var all := [w] + widths;
    assert all[0] == w && all[1..] == widths;
    assert (s + t)[..w] == s && (s + t)[w..] == t;
  }

  lemma {:induction false} NumbersConcat(s: seq<byte>, t: seq<byte>, widths: seq<nat>, more: seq<nat>)
    requires |s| == Total(widths) && |t| == Total(more)
    ensures Total(widths + more) == |s + t| && Numbers(s + t, widths + more) == Numbers(s, widths) + Numbers(t, more)
    decreases |widths|
  {
    SumTwo(widths, more);
    if widths == [] {
      assert s + t == t && widths + more == more;
    } else {
      var first, rest := s[..widths[0]], s[widths[0]..];
      NumbersConcat(rest, t, widths[1..], more);
      NumbersLater(first, rest, t, widths, more);
      assert s == first + rest;
    }
  }

  lemma NumbersLater(first: seq<byte>, rest: seq<byte>, t: seq<byte>, widths: seq<nat>, more: seq<nat>)
    requires widths != [] && |first| == widths[0] && |rest| == Total(widths[1..]) && |t| == Total(more)
    requires Total(widths[1..] + more) == |rest + t| && Numbers(rest + t, widths[1..] + more) == Numbers(rest, widths[1..]) + Numbers(t, more)
    ensures Total(widths + more) == |(first + rest) + t| && Total(widths) == |first + rest|
    ensures Numbers((first + rest) + t, widths + more) == Numbers(first + rest, widths) + Numbers(t, more)
  {
    hide Number, Numbers, Total;
    NumbersNext(first, rest + t, widths[0], widths[1..] + more);
    NumbersNext(first, rest, widths[0], widths[1..]);
    assert [widths[0]] + widths[1..] == widths && [widths[0]] + (widths[1..] + more) == widths + more;
    assert first + (rest + t) == (first + rest) + t;
    assert [Number(first)] + (Numbers(rest, widths[1..]) + Numbers(t, more)) == ([Number(first)] + Numbers(rest, widths[1..])) + Numbers(t, more);
  }

  /** Field `i` is read from its place, whatever the other bytes are. */
  lemma NumberStands(s: seq<byte>, widths: seq<nat>, i: nat)
    requires |s| == Total(widths) && i < |widths|
    ensures Before(widths, i) + widths[i] <= |s|
    ensures Numbers(s, widths)[i] == Number(s[Before(widths, i)..Before(widths, i) + widths[i]])
  {
    var from := Before(widths, i);
    var w := widths[..i] + [widths[i]];
    assert widths == w + widths[i + 1..];
    SumTwo(w, widths[i + 1..]);
    SumAppend(widths[..i], widths[i]);
    var to := from + widths[i];
    assert s == s[..to] + s[to..] && s[..to] == s[..from] + s[from..to];
    NumbersConcat(s[..to], s[to..], w, widths[i + 1..]);
    NumbersConcat(s[..from], s[from..to], widths[..i], [widths[i]]);
    var one := [widths[i]];
    assert one[1..] == [] && s[from..to][..widths[i]] == s[from..to];
    assert Numbers(s[from..to], one) == [Number(s[from..to])];
  }

  lemma DigestPlaces()
    ensures var w := DigestWidths(); Before(w, 0) == 0 && Before(w, 1) == 8 && Before(w, 2) == 12 && Before(w, 3) == 28
  {
    hide Before;
    BeforeNone(DigestWidths());
    BeforeNext(DigestWidths(), 0);
    BeforeNext(DigestWidths(), 1);
    BeforeNext(DigestWidths(), 2);
  }

  lemma SectionPlaces()
    ensures var w := SectionWidths(); Before(w, 0) == 0 && Before(w, 1) == 8 && Before(w, 2) == 16 && Before(w, 3) == 20
  {
    hide Before;
    BeforeNone(SectionWidths());
    BeforeNext(SectionWidths(), 0);
    BeforeNext(SectionWidths(), 1);
    BeforeNext(SectionWidths(), 2);
  }

  lemma StreamPlaces()
    ensures var w := StreamWidths();
            Before(w, 0) == 0 && Before(w, 1) == 8 && Before(w, 2) == 16 && Before(w, 3) == 24 && Before(w, 4) == 28 && Before(w, 5) == 36
  {
    hide Before;
    BeforeNone(StreamWidths());
    BeforeNext(StreamWidths(), 0);
    BeforeNext(StreamWidths(), 1);
    BeforeNext(StreamWidths(), 2);
    BeforeNext(StreamWidths(), 3);
    BeforeNext(StreamWidths(), 4);
  }

  lemma PayloadPlaces()
    ensures var w := PayloadWidths(); Before(w, 0) == 0 && Before(w, 1) == 4 && Before(w, 2) == 12
  {
    hide Before;
    BeforeNone(PayloadWidths());
    BeforeNext(PayloadWidths(), 0);
    BeforeNext(PayloadWidths(), 1);
  }

  lemma HeaderPlaces()
    ensures var w := HeaderWidths();
            Before(w, 0) == 0 && Before(w, 1) == 4 && Before(w, 2) == 8 && Before(w, 3) == 16 && Before(w, 4) == 24
            && Before(w, 5) == 32 && Before(w, 6) == 36 && Before(w, 7) == 40 && Before(w, 8) == 48
  {
    hide Before;
    BeforeNone(HeaderWidths());
    BeforeNext(HeaderWidths(), 0);
    BeforeNext(HeaderWidths(), 1);
    BeforeNext(HeaderWidths(), 2);
    BeforeNext(HeaderWidths(), 3);
    BeforeNext(HeaderWidths(), 4);
    BeforeNext(HeaderWidths(), 5);
    BeforeNext(HeaderWidths(), 6);
    BeforeNext(HeaderWidths(), 7);
  }

  lemma EntryPlaces()
    ensures var w := EntryWidths();
            Before(w, 0) == 0 && Before(w, 1) == 8 && Before(w, 2) == 16 && Before(w, 3) == 20 && Before(w, 4) == 36 && Before(w, 5) == 56
            && Before(w, 6) == 60 && Before(w, 7) == 64 && Before(w, 8) == 72 && Before(w, 9) == 76 && Before(w, 10) == 84
  {
    hide Before;
    BeforeNone(EntryWidths());
    BeforeNext(EntryWidths(), 0);
    BeforeNext(EntryWidths(), 1);
    BeforeNext(EntryWidths(), 2);
    BeforeNext(EntryWidths(), 3);
    BeforeNext(EntryWidths(), 4);
    BeforeNext(EntryWidths(), 5);
    BeforeNext(EntryWidths(), 6);
    BeforeNext(EntryWidths(), 7);
    BeforeNext(EntryWidths(), 8);
    BeforeNext(EntryWidths(), 9);
  }

  /** Every byte of a section's header: offset, size, type and count, in this order. */
  lemma SectionBytes(h: SectionHeader)
    ensures var s := EncodeSection(h);
            && s[0..8] == LittleEndian(h.offset, 8) && s[8..16] == LittleEndian(h.size, 8)
            && s[16..20] == LittleEndian(h.kind, 4) && s[20..24] == LittleEndian(h.count, 4)
  {
    hide Fields, Before, LittleEndian, Total;
    SmallRecordSizes();
    SectionPlaces();
    var v, w := SectionValues(h), SectionWidths();
    FieldStands(v, w, 0);
    FieldStands(v, w, 1);
    FieldStands(v, w, 2);
    FieldStands(v, w, 3);
  }

  lemma SectionNumbers(s: seq<byte>)
    requires |s| == SECTION_SIZE
    ensures DecodeSection(s) == SectionHeader(Number(s[0..8]), Number(s[8..16]), Number(s[16..20]), Number(s[20..24]))
  {
    hide Numbers, Before, Number, Total;
    SmallRecordSizes();
    SectionPlaces();
    var w := SectionWidths();
    NumberStands(s, w, 0);
    NumberStands(s, w, 1);
    NumberStands(s, w, 2);
    NumberStands(s, w, 3);
  }

  /** Every byte of the record of a stream: flags, offset, length, checksum, payload and its length. */
  lemma StreamBytes(r: Stream)
    ensures var s := EncodeStream(r);
            && s[0..8] == LittleEndian(r.flags, 8) && s[8..16] == LittleEndian(r.offset, 8) && s[16..24] == LittleEndian(r.length, 8)
            && s[24..28] == LittleEndian(r.checksum, 4) && s[28..36] == LittleEndian(r.payload, 8)
            && s[36..40] == LittleEndian(r.payloadLength, 4)
  {
    hide Fields, Before, LittleEndian, Total;
    SmallRecordSizes();
    StreamPlaces();
    var v, w := StreamValues(r), StreamWidths();
    FieldStands(v, w, 0);
    FieldStands(v, w, 1);
    FieldStands(v, w, 2);
    FieldStands(v, w, 3);
    FieldStands(v, w, 4);
    FieldStands(v, w, 5);
  }

  lemma StreamNumbers(s: seq<byte>)
    requires |s| == STREAM_SIZE
    ensures DecodeStream(s) == Stream(Number(s[0..8]), Number(s[8..16]), Number(s[16..24]), Number(s[24..28]), Number(s[28..36]),
                                      Number(s[36..40]))
  {
    hide Numbers, Before, Number, Total;
    SmallRecordSizes();
    StreamPlaces();
    var w := StreamWidths();
    NumberStands(s, w, 0);
    NumberStands(s, w, 1);
    NumberStands(s, w, 2);
    NumberStands(s, w, 3);
    NumberStands(s, w, 4);
    NumberStands(s, w, 5);
  }

  /** Every byte of the header of a payload: identifier, length, and whether another one follows. */
  lemma PayloadBytes(p: Payload)
    ensures var s := EncodePayload(p);
            s[0..4] == LittleEndian(p.identifier, 4) && s[4..12] == LittleEndian(p.length, 8) && s[12..16] == LittleEndian(p.hasNext, 4)
  {
    hide Fields, Before, LittleEndian, Total;
    SmallRecordSizes();
    PayloadPlaces();
    var v, w := PayloadValues(p), PayloadWidths();
    FieldStands(v, w, 0);
    FieldStands(v, w, 1);
    FieldStands(v, w, 2);
  }

  lemma PayloadNumbers(s: seq<byte>)
    requires |s| == PAYLOAD_SIZE
    ensures DecodePayload(s) == Payload(Number(s[0..4]), Number(s[4..12]), Number(s[12..16]))
  {
    hide Numbers, Before, Number, Total;
    SmallRecordSizes();
    PayloadPlaces();
    var w := PayloadWidths();
    NumberStands(s, w, 0);
    NumberStands(s, w, 1);
    NumberStands(s, w, 2);
  }

  /** Every byte of a digest record: size, CRC-32, MD5 and SHA-1. */
  lemma DigestInfoBytes(d: DigestInfo)
    ensures var s := EncodeDigest(d);
            && s[0..8] == LittleEndian(d.size, 8) && s[8..12] == LittleEndian(d.crc32, 4)
            && s[12..28] == LittleEndian(d.md5, 16) && s[28..48] == LittleEndian(d.sha1, 20)
  {
    hide Fields, Before, LittleEndian, Total;
    SmallRecordSizes();
    DigestPlaces();
    var v, w := DigestValues(d), DigestWidths();
    FieldStands(v, w, 0);
    FieldStands(v, w, 1);
    FieldStands(v, w, 2);
    FieldStands(v, w, 3);
  }

  lemma DigestInfoNumbers(s: seq<byte>)
    requires |s| == DIGEST_SIZE
    ensures DecodeDigest(s) == DigestInfo(Number(s[0..8]), Number(s[8..12]), Number(s[12..28]), Number(s[28..48]))
  {
    hide Numbers, Before, Number, Total;
    SmallRecordSizes();
    DigestPlaces();
    var w := DigestWidths();
    NumberStands(s, w, 0);
    NumberStands(s, w, 1);
    NumberStands(s, w, 2);
    NumberStands(s, w, 3);
  }

  /** Every byte of the header: magic, version, flags, the header of the section table, length and checksum. */
  lemma HeaderBytes(h: Header)
    ensures var s := EncodeHeader(h);
            && s[0..4] == LittleEndian(h.magic, 4) && s[4..8] == LittleEndian(h.version, 4) && s[8..16] == LittleEndian(h.flags, 8)
            && s[16..24] == LittleEndian(h.index.offset, 8) && s[24..32] == LittleEndian(h.index.size, 8)
            && s[32..36] == LittleEndian(h.index.kind, 4) && s[36..40] == LittleEndian(h.index.count, 4)
            && s[40..48] == LittleEndian(h.fileLength, 8) && s[48..52] == LittleEndian(h.fileChecksum, 4)
  {
    hide Fields, Before, LittleEndian, Total;
    LargeRecordSizes();
    HeaderPlaces();
    var v, w := HeaderValues(h), HeaderWidths();
    FieldStands(v, w, 0);
    FieldStands(v, w, 1);
    FieldStands(v, w, 2);
    FieldStands(v, w, 3);
    FieldStands(v, w, 4);
    FieldStands(v, w, 5);
    FieldStands(v, w, 6);
    FieldStands(v, w, 7);
    FieldStands(v, w, 8);
  }

  lemma HeaderNumbers(s: seq<byte>)
    requires |s| == HEADER_SIZE
    ensures DecodeHeader(s)
         == Header(Number(s[0..4]), Number(s[4..8]), Number(s[8..16]),
                   SectionHeader(Number(s[16..24]), Number(s[24..32]), Number(s[32..36]), Number(s[36..40])),
                   Number(s[40..48]), Number(s[48..52]))
  {
    hide Numbers, Before, Number, Total;
    LargeRecordSizes();
    HeaderPlaces();
    var w := HeaderWidths();
    NumberStands(s, w, 0);
    NumberStands(s, w, 1);
    NumberStands(s, w, 2);
    NumberStands(s, w, 3);
    NumberStands(s, w, 4);
    NumberStands(s, w, 5);
    NumberStands(s, w, 6);
    NumberStands(s, w, 7);
    NumberStands(s, w, 8);
  }

  /**
   Every byte of the record of an entry: the filtered size, size and digests of the original, stream
   and place in it, payload and its length, time and the place of the name. Negative numbers are
   stored modulo 2^32 and 2^64.
   */
  lemma EntryBytes(e: Entry)
    requires SignedFit(e)
    ensures var s := EncodeEntry(e);
            && s[0..8] == LittleEndian(e.filteredSize, 8)
            && s[8..16] == LittleEndian(e.digest.size, 8) && s[16..20] == LittleEndian(e.digest.crc32, 4)
            && s[20..36] == LittleEndian(e.digest.md5, 16) && s[36..56] == LittleEndian(e.digest.sha1, 20)
            && s[56..60] == LittleEndian(e.stream % 0x1_0000_0000, 4) && s[60..64] == LittleEndian(e.indexInStream % 0x1_0000_0000, 4)
            && s[64..72] == LittleEndian(e.payload, 8) && s[72..76] == LittleEndian(e.payloadLength, 4)
            && s[76..84] == LittleEndian(e.timestamp % 0x1_0000_0000_0000_0000, 8) && s[84..92] == LittleEndian(e.nameOffset, 8)
  {
    hide Fields, Before, LittleEndian, Total, Unsigned;
    LargeRecordSizes();
    EntryPlaces();
    UnsignedIsModulo(e.stream, INDEX_BASE);
    UnsignedIsModulo(e.indexInStream, INDEX_BASE);
    UnsignedIsModulo(e.timestamp, TIME_BASE);
    var v, w := EntryValues(e), EntryWidths();
    FieldStands(v, w, 0);
    FieldStands(v, w, 1);
    FieldStands(v, w, 2);
    FieldStands(v, w, 3);
    FieldStands(v, w, 4);
    FieldStands(v, w, 5);
    FieldStands(v, w, 6);
    FieldStands(v, w, 7);
    FieldStands(v, w, 8);
    FieldStands(v, w, 9);
    FieldStands(v, w, 10);
  }

  lemma UnsignedIsModulo(i: int, base: int)
    requires -base <= 2 * i < base
    ensures Unsigned(i, base) == i % base
  {
    if i < 0 {
      assert (i + base) % base == i + base;
      assert i == -base + (i + base);
    }
  }

  /** The number that `n` stands for in a field whose highest bit is the sign. */
  predicate StandsFor(i: int, n: nat, base: int)
    requires base > 0
  {
    -base <= 2 * i < base && i % base == n
  }

  lemma EntryNumbers(s: seq<byte>)
    requires |s| == ENTRY_SIZE
    ensures var e := DecodeEntry(s);
            && e.filteredSize == Number(s[0..8])
            && e.digest == DigestInfo(Number(s[8..16]), Number(s[16..20]), Number(s[20..36]), Number(s[36..56]))
            && StandsFor(e.stream, Number(s[56..60]), 0x1_0000_0000) && StandsFor(e.indexInStream, Number(s[60..64]), 0x1_0000_0000)
            && e.payload == Number(s[64..72]) && e.payloadLength == Number(s[72..76])
            && StandsFor(e.timestamp, Number(s[76..84]), 0x1_0000_0000_0000_0000) && e.nameOffset == Number(s[84..92])
  {
    hide Numbers, Before, Number, Total, Signed, StandsFor, Base;
    LargeRecordSizes();
    EntryPlaces();
    BaseIs();
    var w := EntryWidths();
    NumberStands(s, w, 0);
    NumberStands(s, w, 1);
    NumberStands(s, w, 2);
    NumberStands(s, w, 3);
    NumberStands(s, w, 4);
    NumberStands(s, w, 5);
    NumberStands(s, w, 6);
    NumberStands(s, w, 7);
    NumberStands(s, w, 8);
    NumberStands(s, w, 9);
    NumberStands(s, w, 10);
    DigitsOfNumber(s[56..60]);
    DigitsOfNumber(s[60..64]);
    DigitsOfNumber(s[76..84]);
    SignedStandsFor(Number(s[56..60]), INDEX_BASE);
    SignedStandsFor(Number(s[60..64]), INDEX_BASE);
    SignedStandsFor(Number(s[76..84]), TIME_BASE);
  }

  lemma SignedStandsFor(n: nat, base: int)
    requires n < base && base % 2 == 0
    ensures StandsFor(Signed(n, base), n, base)
  {
    UnsignedSigned(n, base);
    UnsignedIsModulo(Signed(n, base), base);
  }
}
