/**
 Filter queues and their payloads (src/box/filter_queue.h, filter_queue.cpp): every builder of a
 queue is stored as a 16-byte header and its parameters; a flag says whether another one follows.
 */
module FilterQueue {
  import opened Bytes
  import opened Records
  import opened Buffers

  datatype Builder =
    | XorFilter(key: seq<byte>)
    | Deflate
    | Lzma
    | Xdelta3(digest: DigestInfo, window: nat, block: nat)

  const XOR_FILTER: nat := 2
  const DEFLATE_FILTER: nat := 1025
  const LZMA_FILTER: nat := 1026
  const XDELTA3_FILTER: nat := 2049

  function Identifier(b: Builder): nat {
    match b case XorFilter(_) => XOR_FILTER case Deflate => DEFLATE_FILTER case Lzma => LZMA_FILTER case Xdelta3(_, _, _) => XDELTA3_FILTER
  }

  /** The parameters of a builder; the length of a key is cast to 32 bits. */
  function Parameters(b: Builder): (s: seq<byte>)
    ensures |s| == ParametersLength(b)
  {
    match b
    case XorFilter(key) => LittleEndian(|key|, 4) + key
    case Deflate => []
    case Lzma => []
    case Xdelta3(digest, window, block) => EncodeDigest(digest) + LittleEndian(window, 8) + LittleEndian(block, 8)
  }

  function ParametersLength(b: Builder): nat {
    match b case XorFilter(key) => 4 + |key| case Deflate => 0 case Lzma => 0 case Xdelta3(_, _, _) => DIGEST_SIZE + 16
  }

  function PayloadHeader(b: Builder, hasNext: bool): Payload {
    Payload(Identifier(b), ParametersLength(b) + PAYLOAD_SIZE, if hasNext then 1 else 0)
  }

  /** The payload of a whole queue. */
  function QueuePayload(queue: seq<Builder>): (s: seq<byte>)
    ensures |s| == QueuePayloadLength(queue)
    decreases |queue|
  {
    if queue == [] then []
    else EncodePayload(PayloadHeader(queue[0], |queue| > 1)) + Parameters(queue[0]) + QueuePayload(queue[1..])
  }

  function QueuePayloadLength(queue: seq<Builder>): nat
    decreases |queue|
  {
    if queue == [] then 0 else ParametersLength(queue[0]) + PAYLOAD_SIZE + QueuePayloadLength(queue[1..])
  }

  // ---------------------------------------------------------------------------------------
  // Reading
  // ---------------------------------------------------------------------------------------

  /** How reading ends: `OutOfBounds` reads memory past the payload, `Endless` never comes back. */
  datatype Status = Done | HeaderTooShort | DataTooShort | UnknownIdentifier | OutOfBounds | Endless

  datatype Parsed = Parsed(status: Status, builders: seq<Builder>, position: nat)

  datatype Generated = Generated(builder: Builder) | Unknown | Overrun

  /** `filter_repository::generate`: the builder whose parameters start at `s`. */
  function Generate(identifier: nat, s: seq<byte>): Generated {
    if identifier == XOR_FILTER then
      if |s| < 4 || |s| - 4 < Number(s[..4]) then Overrun else Generated(XorFilter(s[4..4 + Number(s[..4])]))
    else if identifier == DEFLATE_FILTER then Generated(Deflate)
    else if identifier == LZMA_FILTER then Generated(Lzma)
    else if identifier == XDELTA3_FILTER then
      if |s| < DIGEST_SIZE + 16 then Overrun
      else Generated(Xdelta3(DecodeDigest(s[..48]), Number(s[48..56]), Number(s[56..64])))
    else Unknown
  }

  /** The loop of `unserialize`, from one header on; the builders it adds. */
  function ParseFrom(data: seq<byte>, position: nat): Parsed
    decreases if position <= |data| then |data| - position + 1 else 0
  {
    if position > |data| then Parsed(OutOfBounds, [], position)
    else if |data| - position < PAYLOAD_SIZE then Parsed(HeaderTooShort, [], position)
    else
      var header := DecodePayload(data[position..position + PAYLOAD_SIZE]);
      if header.length > |data| - position + PAYLOAD_SIZE then Parsed(DataTooShort, [], position)
      else
        match Generate(header.identifier, data[position + PAYLOAD_SIZE..])
        case Unknown => Parsed(UnknownIdentifier, [], position)
        case Overrun => Parsed(OutOfBounds, [], position)
        case Generated(b) =>
          if header.hasNext == 0 then Parsed(Done, [b], position + header.length)
          else if header.length == 0 then Parsed(Endless, [b], position)
          else
            After([b], ParseFrom(data, position + header.length))
  }

  /** The same after the builders `done`. */
  function After(done: seq<Builder>, p: Parsed): Parsed {
    p.(builders := done + p.builders)
  }

  function Parse(data: seq<byte>): Parsed {
    if data == [] then Parsed(Done, [], 0) else ParseFrom(data, 0)
  }

  // ---------------------------------------------------------------------------------------
  // Writing and reading back
  // ---------------------------------------------------------------------------------------

  /** The fields of a builder fit, except perhaps the length of a key. */
  ghost predicate BuilderFits(b: Builder) {
    ParametersLength(b) + PAYLOAD_SIZE < Base(8)
    && (b.Xdelta3? ==> DigestFits(b.digest) && b.window < Base(8) && b.block < Base(8))
  }

  /** A builder with as much of its key as the length field can say. */
  function Trimmed(b: Builder): Builder {
    if b.XorFilter? then XorFilter(b.key[..|b.key| % Base(4)]) else b
  }

  function AllTrimmed(queue: seq<Builder>): (r: seq<Builder>)
    ensures |r| == |queue| && forall i :: 0 <= i < |queue| ==> r[i] == Trimmed(queue[i])
  {
    if queue == [] then [] else [Trimmed(queue[0])] + AllTrimmed(queue[1..])
  }

  lemma NumberOfCut(n: nat, w: nat)
    ensures Number(LittleEndian(n, w)) == n % Base(w)
  {
    hide Base;
    DivMod(n, Base(w));
    var q, r := n / Base(w), n % Base(w);
    LittleEndianCut(r, q, w);
    NumberOfDigits(r, w);
  }

  lemma DivMod(n: nat, m: nat)
    requires m > 0
    ensures n == n % m + m * (n / m)
  {
  }

  lemma GenerateXor(key: seq<byte>, rest: seq<byte>)
    ensures Generate(XOR_FILTER, Parameters(XorFilter(key)) + rest) == Generated(Trimmed(XorFilter(key)))
  {
    hide Base, Number;
    var s := Parameters(XorFilter(key)) + rest;
    assert s[..4] == LittleEndian(|key|, 4);
    NumberOfCut(|key|, 4);
    CutIsSmaller(|key|, Base(4));
    var n := |key| % Base(4);
    assert s[4..4 + n] == key[..n];
  }

  lemma CutIsSmaller(n: nat, m: nat)
    requires m > 0
    ensures n % m <= n
  {
  }

  lemma GenerateXdelta3(b: Builder, rest: seq<byte>)
    requires b.Xdelta3? && BuilderFits(b)
    ensures Generate(XDELTA3_FILTER, Parameters(b) + rest) == Generated(b)
  {
    hide Base, Number, EncodeDigest, DecodeDigest, DigestFits;
    FixedParts(EncodeDigest(b.digest), LittleEndian(b.window, 8), LittleEndian(b.block, 8), rest);
    DigestRoundTrip(b.digest);
    NumberOfDigits(b.window, 8);
    NumberOfDigits(b.block, 8);
  }

  lemma FixedParts(a: seq<byte>, b: seq<byte>, c: seq<byte>, rest: seq<byte>)
    requires |a| == 48 && |b| == 8 && |c| == 8
    ensures var s := a + b + c + rest; s[..48] == a && s[48..56] == b && s[56..64] == c
  {
  }

  lemma GenerateParameters(b: Builder, rest: seq<byte>)
    requires BuilderFits(b)
    ensures Generate(Identifier(b), Parameters(b) + rest) == Generated(Trimmed(b))
  {
    hide Parameters, BuilderFits;
    match b
    case XorFilter(key) => GenerateXor(key, rest);
    case Xdelta3(_, _, _) => GenerateXdelta3(b, rest);
    case _ =>
  }

  lemma HeaderFields(b: Builder, hasNext: bool)
    requires BuilderFits(b)
    ensures DecodePayload(EncodePayload(PayloadHeader(b, hasNext))) == PayloadHeader(b, hasNext)
  {
    BaseIs();
    PayloadRoundTrip(PayloadHeader(b, hasNext));
  }

  /** One header and its parameters, wherever they stand. */
  lemma ParseOne(data: seq<byte>, position: nat, b: Builder, hasNext: bool, rest: seq<byte>)
    requires BuilderFits(b) && position <= |data|
    requires data[position..] == EncodePayload(PayloadHeader(b, hasNext)) + Parameters(b) + rest
    ensures var next := position + PAYLOAD_SIZE + ParametersLength(b);
            ParseFrom(data, position) ==
            if hasNext then After([Trimmed(b)], ParseFrom(data, next))
            else Parsed(Done, [Trimmed(b)], next)
  {
    hide Parameters, ParametersLength, EncodePayload, DecodePayload, Generate, BuilderFits, Trimmed;
    var header := EncodePayload(PayloadHeader(b, hasNext));
    assert data[position..position + PAYLOAD_SIZE] == header by {
      assert data[position..][..PAYLOAD_SIZE] == header;
    }
    assert data[position + PAYLOAD_SIZE..] == Parameters(b) + rest by {
      assert data[position..][PAYLOAD_SIZE..] == Parameters(b) + rest;
    }
    HeaderFields(b, hasNext);
    GenerateParameters(b, rest);
  }

  /** Where a queue's payload stands to the end, reading gives back the queue and stops there. */
  lemma {:induction false} ParsePayload(data: seq<byte>, position: nat, queue: seq<Builder>)
    requires queue != [] && position <= |data| && data[position..] == QueuePayload(queue)
    requires forall i :: 0 <= i < |queue| ==> BuilderFits(queue[i])
    ensures ParseFrom(data, position) == Parsed(Done, AllTrimmed(queue), |data|)
    decreases |queue|
  {
    hide Parameters, EncodePayload, BuilderFits, Trimmed, ParseFrom;
    var b, rest := queue[0], queue[1..];
    ParseOne(data, position, b, |queue| > 1, QueuePayload(rest));
    var next := position + PAYLOAD_SIZE + ParametersLength(b);
    if |queue| > 1 {
      assert data[next..] == data[position..][PAYLOAD_SIZE + ParametersLength(b)..] == QueuePayload(rest);
      ParsePayload(data, next, rest);
    } else {
      assert rest == [];
    }
  }

  /**
   Reading the payload of any queue ends normally, having used up exactly the payload, with the
   same builders in the same order; a key keeps as many bytes as its 32-bit length field says.
   */
  lemma PayloadReadsBack(queue: seq<Builder>)
    requires forall i :: 0 <= i < |queue| ==> BuilderFits(queue[i])
    ensures Parse(QueuePayload(queue)) == Parsed(Done, AllTrimmed(queue), |QueuePayload(queue)|)
  {
    hide BuilderFits, ParseFrom, Trimmed;
    if queue != [] {
      var data := QueuePayload(queue);
      assert data[0..] == data;
      ParsePayload(data, 0, queue);
    }
  }

  /** The round trip is the identity exactly on the queues whose keys are shorter than 2^32. */
  lemma PayloadRoundTripExactly(queue: seq<Builder>)
    requires forall i :: 0 <= i < |queue| ==> BuilderFits(queue[i])
    ensures Parse(QueuePayload(queue)).builders == queue
            <==> forall i :: 0 <= i < |queue| && queue[i].XorFilter? ==> |queue[i].key| < Base(4)
  {
    hide BuilderFits, Base, Parse, QueuePayload, Trimmed;
    PayloadReadsBack(queue);
    forall i | 0 <= i < |queue|
      ensures Trimmed(queue[i]) == queue[i] <==> (queue[i].XorFilter? ==> |queue[i].key| < Base(4))
    {
      TrimmedSame(queue[i]);
    }
    if forall i :: 0 <= i < |queue| && queue[i].XorFilter? ==> |queue[i].key| < Base(4) {
      assert AllTrimmed(queue) == queue;
    } else {
      var i :| 0 <= i < |queue| && queue[i].XorFilter? && |queue[i].key| >= Base(4);
      assert AllTrimmed(queue)[i] != queue[i];
    }
  }

  lemma TrimmedSame(b: Builder)
    ensures Trimmed(b) == b <==> (b.XorFilter? ==> |b.key| < Base(4))
  {
    hide Base;
    if b.XorFilter? {
      var n := |b.key| % Base(4);
      CutIsSmaller(|b.key|, Base(4));
      SmallModulo(|b.key|, Base(4));
      assert n == |b.key| ==> b.key[..n] == b.key;
    }
  }

  lemma SmallModulo(n: nat, m: nat)
    requires m > 0
    ensures n % m == n <==> n < m
  {
  }

  // ---------------------------------------------------------------------------------------
  // Payloads that lack their end
  // ---------------------------------------------------------------------------------------

  /** What a builder takes up in a payload. */
  function Width(b: Builder): nat {
    PAYLOAD_SIZE + ParametersLength(b)
  }

  /**
   How reading ends when `have` bytes are left of a builder that takes up more. The check of the
   header's length lets 16 missing bytes pass; then the parameters are read from beyond the buffer,
   unless the length of a last key is so large that its 32-bit field says less than is there.
   */
  function CutStatus(b: Builder, last: bool, have: nat): Status {
    if have < PAYLOAD_SIZE then HeaderTooShort
    else if Width(b) - have > PAYLOAD_SIZE then DataTooShort
    else if last && b.XorFilter? && |b.key| >= Base(4) then Done
    else OutOfBounds
  }

  lemma FirstCut(queue: seq<Builder>, have: nat)
    requires queue != [] && PAYLOAD_SIZE <= have <= Width(queue[0])
    ensures have <= |QueuePayload(queue)|
    ensures QueuePayload(queue)[..have] == EncodePayload(PayloadHeader(queue[0], |queue| > 1)) + Parameters(queue[0])[..have - PAYLOAD_SIZE]
  {
    hide EncodePayload, Parameters;
    var header := EncodePayload(PayloadHeader(queue[0], |queue| > 1));
    var x := header + Parameters(queue[0]);
    assert QueuePayload(queue) == x + QueuePayload(queue[1..]);
    assert QueuePayload(queue)[..have] == x[..have];
    assert x[..have] == header + Parameters(queue[0])[..have - PAYLOAD_SIZE];
  }

  /** Parameters that lack up to 16 bytes of their end. */
  lemma GenerateCut(b: Builder, m: nat)
    requires BuilderFits(b) && m < ParametersLength(b) <= m + PAYLOAD_SIZE
    ensures var g := Generate(Identifier(b), Parameters(b)[..m]);
            if b.XorFilter? && |b.key| >= Base(4) then g.Generated? else g.Overrun?
  {
    hide Base, Number, LittleEndian, EncodeDigest, BuilderFits, DecodeDigest;
    if b.XorFilter? {
      GenerateXorCut(b.key, m);
    }
  }

  lemma GenerateXorCut(key: seq<byte>, m: nat)
    requires m < 4 + |key| <= m + PAYLOAD_SIZE
    ensures var g := Generate(XOR_FILTER, Parameters(XorFilter(key))[..m]);
            if |key| >= Base(4) then g.Generated? else g.Overrun?
  {
    hide Base, Number, LittleEndian;
    BaseIs();
    KeyLengthRead(|key|);
    if m >= 4 {
      var s := Parameters(XorFilter(key))[..m];
      assert s[..4] == LittleEndian(|key|, 4);
    }
  }

  lemma KeyLengthRead(n: nat)
    ensures Number(LittleEndian(n, 4)) == n % Base(4) && (n >= Base(4) ==> n % Base(4) + Base(4) <= n)
  {
    hide LittleEndian, Number;
    BaseIs();
    Remainder(n, Base(4));
    LittleEndianCut(n % Base(4), n / Base(4), 4);
    NumberOfDigits(n % Base(4), 4);
  }

  lemma Remainder(n: nat, m: nat)
    requires m > 0
    ensures n == n % m + m * (n / m) && n % m < m && (n >= m ==> n % m + m <= n)
  {
    if n >= m {
      assert n / m >= 1;
    }
  }

  lemma ParseFirstCut(data: seq<byte>, position: nat, queue: seq<Builder>, have: nat)
    requires queue != [] && BuilderFits(queue[0]) && have < Width(queue[0]) && position <= |data|
    requires have <= |QueuePayload(queue)| && data[position..] == QueuePayload(queue)[..have]
    ensures ParseFrom(data, position).status == CutStatus(queue[0], |queue| == 1, have)
  {
    hide EncodePayload, DecodePayload, Parameters, Generate, BuilderFits, QueuePayload, Base;
    assert |data| - position == have;
    if have >= PAYLOAD_SIZE {
      var b := queue[0];
      FirstCut(queue, have);
      var header := EncodePayload(PayloadHeader(b, |queue| > 1));
      assert data[position..position + PAYLOAD_SIZE] == header by {
        assert data[position..][..PAYLOAD_SIZE] == header;
      }
      HeaderFields(b, |queue| > 1);
      if Width(b) - have <= PAYLOAD_SIZE {
        assert data[position + PAYLOAD_SIZE..] == data[position..][PAYLOAD_SIZE..] == Parameters(b)[..have - PAYLOAD_SIZE];
        GenerateCut(b, have - PAYLOAD_SIZE);
      }
    }
  }

  lemma {:induction false} ParseCut(data: seq<byte>, position: nat, queue: seq<Builder>, i: nat, have: nat)
    requires forall k :: 0 <= k < |queue| ==> BuilderFits(queue[k])
    requires i < |queue| && have < Width(queue[i]) && position <= |data|
    requires QueuePayloadLength(queue[..i]) + have <= |QueuePayload(queue)|
    requires data[position..] == QueuePayload(queue)[..QueuePayloadLength(queue[..i]) + have]
    ensures ParseFrom(data, position).status == CutStatus(queue[i], i == |queue| - 1, have)
    decreases i
  {
    hide EncodePayload, Parameters, BuilderFits, ParseFrom, CutStatus, Trimmed;
    if i == 0 {
      assert queue[..0] == [];
      ParseFirstCut(data, position, queue, have);
    } else {
      var b, rest := queue[0], queue[1..];
      var m := QueuePayloadLength(rest[..i - 1]) + have;
      assert queue[..i] == [b] + rest[..i - 1];
      assert queue[..i][1..] == rest[..i - 1];
      assert QueuePayloadLength(queue[..i]) == Width(b) + QueuePayloadLength(rest[..i - 1]);
      var x := EncodePayload(PayloadHeader(b, |queue| > 1)) + Parameters(b);
      assert QueuePayload(queue) == x + QueuePayload(rest);
      assert data[position..] == x + QueuePayload(rest)[..m];
      ParseOne(data, position, b, true, QueuePayload(rest)[..m]);
      var next := position + PAYLOAD_SIZE + ParametersLength(b);
      assert data[next..] == data[position..][Width(b)..] == QueuePayload(rest)[..m];
      ParseCut(data, next, rest, i - 1, have);
    }
  }

  /** Every cut is in one of the builders. */
  lemma {:induction false} CutInBuilder(queue: seq<Builder>, n: nat) returns (i: nat, have: nat)
    requires n < QueuePayloadLength(queue)
    ensures i < |queue| && have < Width(queue[i]) && n == QueuePayloadLength(queue[..i]) + have
    decreases |queue|
  {
    hide ParametersLength;
    if n < Width(queue[0]) {
      i, have := 0, n;
      assert queue[..0] == [];
    } else {
      i, have := CutInBuilder(queue[1..], n - Width(queue[0]));
      assert queue[..i + 1][1..] == queue[1..][..i];
      i := i + 1;
    }
  }

  /**
   Reading the first `n` bytes of a payload of any queue, `have` of them of builder `i`, which is the
   one that is cut. Cut to nothing, a payload is never found out. Else the header is found too short
   exactly when less than 16 bytes of builder `i` are there, the data exactly when a whole header is
   there and more than 16 bytes are missing; otherwise memory beyond the buffer is read, or, of a last
   key of 2^32 bytes or more, nothing is noticed.
   */
  lemma TruncationIsDetectedExactly(queue: seq<Builder>, i: nat, have: nat)
    requires forall k :: 0 <= k < |queue| ==> BuilderFits(queue[k])
    requires i < |queue| && have < Width(queue[i])
    ensures var n := QueuePayloadLength(queue[..i]) + have;
            n < |QueuePayload(queue)|
            && Parse(QueuePayload(queue)[..n]).status == if n == 0 then Done else CutStatus(queue[i], i == |queue| - 1, have)
  {
    hide BuilderFits, ParseFrom, CutStatus;
    PrefixLength(queue, i);
    var n := QueuePayloadLength(queue[..i]) + have;
    var data := QueuePayload(queue)[..n];
    if n > 0 {
      assert data[0..] == data;
      ParseCut(data, 0, queue, i, have);
    }
  }

  lemma {:induction false} PrefixLength(queue: seq<Builder>, i: nat)
    requires i < |queue|
    ensures QueuePayloadLength(queue[..i]) + Width(queue[i]) <= QueuePayloadLength(queue)
    decreases i
  {
    if i == 0 {
      assert queue[..0] == [];
    } else {
      assert queue[..i][1..] == queue[1..][..i - 1];
      PrefixLength(queue[1..], i - 1);
    }
  }

  // ---------------------------------------------------------------------------------------
  // Every byte of a payload
  // ---------------------------------------------------------------------------------------

  /** The number that stands for a kind of filter in the file. */
  function KindNumber(b: Builder): nat {
    match b case XorFilter(_) => 2 case Deflate => 1025 case Lzma => 1026 case Xdelta3(_, _, _) => 2049
  }

  /** One builder: its number, how much it takes up, whether another one follows, and its parameters. */
  predicate BuilderSays(s: seq<byte>, b: Builder, hasNext: bool) {
    && |s| >= 16 && s[0..4] == LittleEndian(KindNumber(b), 4) && s[4..12] == LittleEndian(|s|, 8)
    && s[12..16] == LittleEndian(if hasNext then 1 else 0, 4)
    && match b
       case XorFilter(key) => |s| == 20 + |key| && s[16..20] == LittleEndian(|key|, 4) && s[20..] == key
       case Xdelta3(d, window, block) =>
         && |s| == 80 && s[16..24] == LittleEndian(d.size, 8) && s[24..28] == LittleEndian(d.crc32, 4)
         && s[28..44] == LittleEndian(d.md5, 16) && s[44..64] == LittleEndian(d.sha1, 20)
         && s[64..72] == LittleEndian(window, 8) && s[72..80] == LittleEndian(block, 8)
       case _ => |s| == 16
  }

  lemma BuilderBytes(b: Builder, hasNext: bool)
    ensures BuilderSays(EncodePayload(PayloadHeader(b, hasNext)) + Parameters(b), b, hasNext)
  {
    hide EncodePayload, EncodeDigest, LittleEndian;
    var header := EncodePayload(PayloadHeader(b, hasNext));
    PayloadBytes(PayloadHeader(b, hasNext));
    var s := header + Parameters(b);
    assert s[0..4] == header[0..4] && s[4..12] == header[4..12] && s[12..16] == header[12..16];
    match b
    case XorFilter(key) =>
      assert s[16..20] == LittleEndian(|key|, 4) && s[20..] == key;
    case Xdelta3(d, window, block) =>
      DigestInfoBytes(d);
      var digest := EncodeDigest(d);
      assert s[16..24] == digest[0..8] && s[24..28] == digest[8..12] && s[28..44] == digest[12..28] && s[44..64] == digest[28..48];
      assert s[64..72] == LittleEndian(window, 8) && s[72..80] == LittleEndian(block, 8);
    case _ =>
  }

  /**
   Builder `i` of any queue stands in the payload behind those before it, every field at its place;
   only the last one says that none follows.
   */
  lemma {:induction false} BuilderInPayload(queue: seq<Builder>, i: nat)
    requires i < |queue|
    ensures var at := QueuePayloadLength(queue[..i]);
            at + Width(queue[i]) <= |QueuePayload(queue)|
            && BuilderSays(QueuePayload(queue)[at..at + Width(queue[i])], queue[i], i + 1 < |queue|)
    decreases i
  {
    hide EncodePayload, Parameters, BuilderSays;
    var first := EncodePayload(PayloadHeader(queue[0], |queue| > 1)) + Parameters(queue[0]);
    assert QueuePayload(queue) == first + QueuePayload(queue[1..]);
    if i == 0 {
      assert queue[..0] == [];
      BuilderBytes(queue[0], |queue| > 1);
      assert QueuePayload(queue)[0..Width(queue[0])] == first;
    } else {
      BuilderInPayload(queue[1..], i - 1);
      assert queue[..i][1..] == queue[1..][..i - 1];
      var at := QueuePayloadLength(queue[1..][..i - 1]);
      assert QueuePayloadLength(queue[..i]) == Width(queue[0]) + at;
      LaterSlice(first, QueuePayload(queue[1..]), at, Width(queue[i]));
    }
  }

  lemma LaterSlice(a: seq<byte>, b: seq<byte>, at: nat, n: nat)
    requires at + n <= |b|
    ensures (a + b)[|a| + at..|a| + at + n] == b[at..at + n]
  {
  }

  // ---------------------------------------------------------------------------------------
  // The queue as an object
  // ---------------------------------------------------------------------------------------

  lemma Appended(x: seq<byte>, b: seq<byte>)
    ensures Overwrite(x, |x|, b, []) == x + b
  {
  }

  method Append(buffer: MemoryBuffer, bytes: seq<byte>)
    requires buffer.Valid() && buffer.position == buffer.size
    modifies buffer, buffer.data
    ensures buffer.Valid() && (buffer.data == old(buffer.data) || fresh(buffer.data)) && buffer.position == buffer.size
    ensures buffer.Contents() == old(buffer.Contents()) + bytes
  {
    Appended(buffer.Contents(), bytes);
    ghost var gap := buffer.Write(bytes);
  }

  class Queue {
    var builders: seq<Builder>

    constructor (builders: seq<Builder>)
      ensures this.builders == builders
    {
      this.builders := builders;
    }

    method Payload() returns (total: MemoryBuffer)
      ensures fresh(total) && fresh(total.data) && total.Valid() && total.Contents() == QueuePayload(builders)
    {
      hide EncodePayload, Parameters;
      total := new MemoryBuffer(256);
      assert builders[0..] == builders && total.Contents() == [];
      for i := 0 to |builders|
        invariant fresh(total) && fresh(total.data) && total.Valid() && total.position == total.size
        invariant total.Contents() + QueuePayload(builders[i..]) == QueuePayload(builders)
      {
        var b, hasNext := builders[i], i != |builders| - 1;
        NextPayload(builders, i);
        ghost var before := total.Contents();
        Append(total, EncodePayload(PayloadHeader(b, hasNext)));
        Append(total, Parameters(b));
        Regroup(before, EncodePayload(PayloadHeader(b, hasNext)), Parameters(b), QueuePayload(builders[i + 1..]));
      }
      assert builders[|builders|..] == [] && QueuePayload([]) == [];
    }

    /** Reads the builders from a payload and adds them; a throw leaves what it has added so far. */
    method Unserialize(data: MemoryBuffer) returns (status: Status)
      requires data.Valid()
      modifies this, data`position
      ensures var p := Parse(data.Contents());
              status == p.status && builders == old(builders) + p.builders && data.position == p.position
    {
      hide Parse, ParseFrom, After;
      var hasNext := data.size > 0;
      data.Seek(0, FromStart);
      ghost var all, done: seq<Builder> := data.Contents(), [];
      ParseStarts(all);
      assert builders + done == builders;
      status := Done;
      while hasNext
        invariant data.Valid() && data.Contents() == all && builders == old(builders) + done && status == Done
        invariant Parse(all) == if hasNext then After(done, ParseFrom(all, data.position)) else Parsed(Done, done, data.position)
        decreases hasNext, |all| + PAYLOAD_SIZE - data.position
      {
        var found := ReadBuilder(data);
        match found {
          case Stopped(s) =>
            AfterStopped(done, s, data.position);
            return s;
          case Read(b, length, more) =>
            AfterMore(done, b, ParseFrom(all, data.position + length));
            AfterLast(done, b, data.position + length);
            AfterEndless(done, b, data.position);
            assert builders + [b] == old(builders) + (done + [b]);
            builders, done := builders + [b], done + [b];
            hasNext := more;
            if more && length == 0 {
              return Endless;
            }
            data.Seek(length, FromCurrent);
        }
      }
    }
  }

  lemma ParseStarts(all: seq<byte>)
    ensures Parse(all) == if |all| > 0 then After([], ParseFrom(all, 0)) else Parsed(Done, [], 0)
  {
    hide ParseFrom;
    assert [] + ParseFrom(all, 0).builders == ParseFrom(all, 0).builders;
  }

  lemma AfterStopped(done: seq<Builder>, s: Status, at: nat)
    ensures After(done, Parsed(s, [], at)) == Parsed(s, done, at)
  {
    assert done + [] == done;
  }

  lemma AfterLast(done: seq<Builder>, b: Builder, at: nat)
    ensures After(done, Parsed(Done, [b], at)) == Parsed(Done, done + [b], at)
  {
  }

  lemma AfterEndless(done: seq<Builder>, b: Builder, at: nat)
    ensures After(done, Parsed(Endless, [b], at)) == Parsed(Endless, done + [b], at)
  {
  }

  lemma AfterMore(done: seq<Builder>, b: Builder, p: Parsed)
    ensures After(done, After([b], p)) == After(done + [b], p)
  {
    assert done + ([b] + p.builders) == (done + [b]) + p.builders;
  }

  /** What one turn of the reading loop finds at the position. */
  datatype Found = Stopped(status: Status) | Read(builder: Builder, length: nat, hasNext: bool)

  method ReadBuilder(data: MemoryBuffer) returns (found: Found)
    requires data.Valid()
    ensures var all, at := data.Contents(), data.position;
            match found
            case Stopped(s) => ParseFrom(all, at) == Parsed(s, [], at)
            case Read(b, length, more) =>
              length <= |all| - at + PAYLOAD_SIZE &&
              ParseFrom(all, at) ==
              if !more then Parsed(Done, [b], at + length)
              else if length == 0 then Parsed(Endless, [b], at)
              else After([b], ParseFrom(all, at + length))
  {
    hide Generate, DecodePayload;
    if data.position > data.size {
      return Stopped(OutOfBounds);
    }
    var toRead := data.size - data.position;
    if toRead < PAYLOAD_SIZE {
      return Stopped(HeaderTooShort);
    }
    var direct := data.data[data.position..data.size];
    assert direct == data.Contents()[data.position..];
    var header := DecodePayload(direct[..PAYLOAD_SIZE]);
    assert direct[..PAYLOAD_SIZE] == data.Contents()[data.position..data.position + PAYLOAD_SIZE];
    assert direct[PAYLOAD_SIZE..] == data.Contents()[data.position + PAYLOAD_SIZE..];
    if header.length > toRead + PAYLOAD_SIZE {
      return Stopped(DataTooShort);
    }
    match Generate(header.identifier, direct[PAYLOAD_SIZE..]) {
      case Unknown => found := Stopped(UnknownIdentifier);
      case Overrun => found := Stopped(OutOfBounds);
      case Generated(b) => found := Read(b, header.length, header.hasNext != 0);
    }
  }

  lemma NextPayload(builders: seq<Builder>, i: nat)
    requires i < |builders|
    ensures QueuePayload(builders[i..])
         == EncodePayload(PayloadHeader(builders[i], i != |builders| - 1)) + Parameters(builders[i]) + QueuePayload(builders[i + 1..])
  {
    hide EncodePayload, Parameters;
    assert builders[i..][1..] == builders[i + 1..];
  }

  lemma Regroup(a: seq<byte>, b: seq<byte>, c: seq<byte>, d: seq<byte>)
    ensures a + (b + c + d) == ((a + b) + c) + d
  {
  }
}
