/**
 The digest filters (src/filters/filters.h, src/tbx/streams/data_filter.h): a source read through a
 `multiple_digest_filter` feeds every piece it delivers to the digesters that are enabled.
 */
module DigestFilter {
  import opened Bytes
  import opened Filters
  import opened Streams
  import Crc32
  import Md5Count
  import Md5Digester
  import Md5Standard
  import Sha1Digester
  import Sha1Standard

  class MultipleDigest {
    const crc32: Crc32.Digester
    const md5: Md5Digester.Md5Object
    const sha1: Sha1Digester.Sha1Object
    const crc32Enabled: bool
    const md5Enabled: bool
    const sha1Enabled: bool
    /** Every byte that has come through, and in pieces of which lengths. */
    ghost var message: seq<byte>
    ghost var pieces: seq<nat>

    ghost predicate Valid()
      reads this, crc32, crc32.lut, md5, md5.buffer, sha1, sha1.buffer
    {
      && crc32.Valid() && md5.Valid() && sha1.Valid() && md5.buffer != sha1.buffer
      && !md5.finalized && |message| == Total(pieces)
      && crc32.value == Crc32.Checksum(0, if crc32Enabled then message else [])
      && md5.message == (if md5Enabled then message else [])
      && md5.pieces == (if md5Enabled then pieces else [])
      && sha1.message == (if sha1Enabled then message else [])
    }

    constructor (crc32Enabled: bool, md5Enabled: bool, sha1Enabled: bool)
      ensures this.crc32Enabled == crc32Enabled && this.md5Enabled == md5Enabled && this.sha1Enabled == sha1Enabled
      ensures Valid() && message == [] && pieces == []
      ensures fresh(crc32) && fresh(crc32.lut) && fresh(md5) && fresh(md5.buffer) && fresh(sha1) && fresh(sha1.buffer)
    {
      crc32 := new Crc32.Digester();
      md5 := new Md5Digester.Md5Object();
      sha1 := new Sha1Digester.Sha1Object();
      this.crc32Enabled, this.md5Enabled, this.sha1Enabled := crc32Enabled, md5Enabled, sha1Enabled;
      message, pieces := [], [];
      new;
      Crc32OfNothing();
    }

    /** The enabled digesters come to an end with a piece of `length` bytes. */
    ghost predicate Takes(length: nat)
      reads this
    {
      md5Enabled ==> Md5Count.UpdateEnds(|message| % 64, length)
    }

    /** A piece for the enabled digesters; the end of the stream is not a piece. */
    method Process(r: ReadResult)
      requires Valid() && (r.Data? ==> Takes(|r.bytes|))
      modifies this, crc32`value, md5, md5.buffer, sha1, sha1.buffer
      ensures Valid()
      ensures message == if r.Data? then old(message) + r.bytes else old(message)
      ensures pieces == if r.Data? then old(pieces) + [|r.bytes|] else old(pieces)
    {
      hide Crc32.Checksum, Md5Digester.Md5Object.Valid, Sha1Digester.Sha1Object.Valid, Crc32.Digester.Valid, Total, Md5Count.UpdateEnds;
      if r.Data? {
        if crc32Enabled {
          Crc32.ChecksumConcat(0, message, r.bytes);
          crc32.Update(r.bytes);
        }
        if md5Enabled {
          md5.Update(r.bytes);
        }
        if sha1Enabled {
          sha1.Update(r.bytes);
        }
        SumAppend(pieces, |r.bytes|);
        message, pieces := message + r.bytes, pieces + [|r.bytes|];
      }
    }

    /** The digests of everything that has come through, from the digesters that are enabled. */
    method Digests() returns (c: bv32, m: seq<byte>, s: seq<byte>)
      requires Valid() && (sha1Enabled ==> Sha1Standard.Short(|message|))
      modifies md5, md5.buffer, sha1, sha1.buffer
      ensures crc32Enabled ==> c == Crc32.Checksum(0, message)
      ensures md5Enabled ==> m == Md5Digester.FinalDigest(message, Md5Count.CountAll(pieces))
      ensures sha1Enabled ==> s == Sha1Standard.Sha1(message)
    {
      hide Crc32.Checksum, Sha1Standard.Sha1, Md5Digester.Md5Object.Valid, Sha1Digester.Sha1Object.Valid, Crc32.Digester.Valid,
           Md5Digester.FinalDigest, Md5Count.CountAll, Total;
      c, m, s := 0, [], [];
      if crc32Enabled {
        c := crc32.value;
      }
      if md5Enabled {
        m := md5.Finalize();
      }
      if sha1Enabled {
        s := sha1.Finalize();
      }
    }
  }

  lemma Crc32OfNothing()
    ensures Crc32.Checksum(0, []) == 0
  {
  }

  /** An `unbuffered_source_filter` around the digesters. */
  class DigestingSource {
    var upstream: Source
    const filter: MultipleDigest

    ghost predicate Valid()
      reads this, filter, filter.crc32, filter.crc32.lut, filter.md5, filter.md5.buffer, filter.sha1, filter.sha1.buffer
    {
      Bounded(upstream) && filter.Valid()
    }

    ghost function Model(): Source
      reads this, filter
    {
      Digest(upstream, filter.message, filter.pieces)
    }

    constructor (upstream: Source, crc32: bool, md5: bool, sha1: bool)
      requires Bounded(upstream)
      ensures Valid() && Model() == Digest(upstream, [], []) && this.upstream == upstream
      ensures fresh(filter) && fresh(filter.crc32) && fresh(filter.md5) && fresh(filter.md5.buffer) && fresh(filter.sha1) && fresh(filter.sha1.buffer)
      ensures filter.crc32Enabled == crc32 && filter.md5Enabled == md5 && filter.sha1Enabled == sha1
    {
      hide MultipleDigest.Valid, Bounded;
      this.upstream := upstream;
      filter := new MultipleDigest(crc32, md5, sha1);
    }

    /** The digesters come to an end with what a read of `amount` bytes brings. */
    ghost predicate TakesRead(amount: nat)
      requires Bounded(upstream)
      reads this, filter
    {
      var r := Streams.Read(upstream, amount).1;
      r.Data? ==> filter.Takes(|r.bytes|)
    }

    method Read(amount: nat) returns (r: ReadResult)
      requires Valid() && TakesRead(amount)
      modifies this`upstream, filter, filter.crc32`value, filter.md5, filter.md5.buffer, filter.sha1, filter.sha1.buffer
      ensures Valid() && (Model(), r) == Streams.Read(old(Model()), amount)
    {
      hide Bounded, MultipleDigest.Valid, MultipleDigest.Takes;
      var next, answer := ReadFrom(upstream, amount);
      r := answer;
      upstream := next;
      filter.Process(r);
    }
  }

  method ReadFrom(source: Source, amount: nat) returns (next: Source, r: ReadResult)
    requires Bounded(source)
    ensures (next, r) == Streams.Read(source, amount) && Bounded(next) && (r.Data? ==> |r.bytes| <= amount)
  {
    hide Streams.Read;
    var answer := Streams.Read(source, amount);
    next, r := answer.0, answer.1;
  }

  /** The pieces of a source, or of reads, that the digesters come to an end with. */
  ghost predicate EndingPieces(n: nat, size: nat) {
    size < Md5Count.TWO32 - 64 || n < Md5Count.TWO32 - 64
  }

  lemma ShortTaken(d: MultipleDigest, length: nat)
    requires length < Md5Count.TWO32 - 64
    ensures d.Takes(length)
  {
  }

  lemma TakesNext(d: DigestingSource, size: nat, n: nat)
    requires d.Valid() && Good(d.Model()) && Bounded(d.Model()) && size >= 1 && EndingPieces(n, size)
    requires |d.filter.message| + |Denote(d.Model())| == n
    ensures d.TakesRead(size)
  {
    hide Good, Denote, Streams.Read, AtEnd, Work, MultipleDigest.Takes, MultipleDigest.Valid;
    ReadKeeps(d.Model(), size);
    DigestRead(d.Model(), size);
    var r := Streams.Read(d.upstream, size).1;
    if r.Data? {
      ShortTaken(d.filter, |r.bytes|);
    }
  }

  lemma NoPieces(bound: nat)
    ensures AtMost([], bound)
  {
  }

  lemma OnePieceMore(pieces: seq<nat>, piece: nat, bound: nat)
    requires AtMost(pieces, bound) && piece <= bound
    ensures AtMost(pieces + [piece], bound)
  {
  }

  /** Reads of `size` bytes to the end: everything the source still delivers goes through the digesters. */
  method ReadToEnd(d: DigestingSource, size: nat)
    requires d.Valid() && Good(d.Model()) && Bounded(d.Model()) && size >= 1 && AtMost(d.filter.pieces, size)
    requires EndingPieces(|d.filter.message| + |Denote(d.Model())|, size)
    modifies d`upstream, d.filter, d.filter.crc32`value, d.filter.md5, d.filter.md5.buffer, d.filter.sha1, d.filter.sha1.buffer
    ensures d.Valid() && AtMost(d.filter.pieces, size)
    ensures d.filter.message == old(d.filter.message) + old(Denote(d.Model()))
  {
    hide Good, Denote, AtEnd, Streams.Read, Bounded, Work, MultipleDigest.Valid, MultipleDigest.Takes, AtMost, EndingPieces,
         DigestingSource.TakesRead;
    ghost var whole := d.filter.message + Denote(d.Model());
    var r := Data([]);
    while r.Data?
      invariant d.Valid() && Good(d.Model()) && Bounded(d.Model()) && AtMost(d.filter.pieces, size)
      invariant d.filter.message + Denote(d.Model()) == whole
      invariant r.EndOfStream? ==> Denote(d.Model()) == []
      decreases r.Data?, Work(d.Model())
    {
      ghost var before, model := d.filter.message, d.Model();
      ReadKeeps(model, size);
      DigestRead(model, size);
      TakesNext(d, size, |whole|);
      r := d.Read(size);
      GoodIsBounded(d.Model());
      if r.Data? {
        OnePieceMore(model.pieces, |r.bytes|, size);
        Regrouped(before, r.bytes, Denote(d.Model()));
      }
    }
    assert d.filter.message + [] == d.filter.message;
  }

  lemma Regrouped(a: seq<byte>, b: seq<byte>, c: seq<byte>)
    ensures (a + b) + c == a + (b + c)
  {
  }

  /**
   Digesting a whole source in reads of `size` bytes: the CRC-32 and the SHA-1 are those of
   everything the source delivers, and so is the MD5 if no read brings 2^29 bytes.
   */
  method DigestAll(source: Source, size: nat) returns (c: bv32, m: seq<byte>, s: seq<byte>)
    requires Good(source) && Bounded(source) && 1 <= size && EndingPieces(|Denote(source)|, size) && Sha1Standard.Short(|Denote(source)|)
    ensures c == Crc32.Checksum(0, Denote(source)) && s == Sha1Standard.Sha1(Denote(source))
    ensures size < Md5Count.TWO29 || |Denote(source)| < Md5Count.TWO29 ==> m == Md5Standard.Md5(Denote(source))
  {
    hide Good, Denote, AtEnd, Streams.Read, Bounded, Work, Crc32.Checksum, Md5Standard.Md5, Sha1Standard.Sha1, MultipleDigest.Valid,
         MultipleDigest.Takes, Md5Digester.FinalDigest, Md5Count.CountAll, Total, AtMost, EndingPieces, DigestingSource.TakesRead;
    NoPieces(size);
    var digesting := new DigestingSource(source, true, true, true);
    DigestGood(source);
    assert digesting.Model() == Digest(source, [], []);
    ReadToEnd(digesting, size);
    assert digesting.filter.message == Denote(source);
    LengthIs(digesting.filter);
    if size < Md5Count.TWO29 || |Denote(source)| < Md5Count.TWO29 {
      PiecesBelow(digesting.filter.pieces, size, Md5Count.TWO29);
      Md5Digester.ShortPiecesGiveMd5(digesting.filter.message, digesting.filter.pieces);
    }
    c, m, s := digesting.filter.Digests();
  }

  lemma LengthIs(d: MultipleDigest)
    requires d.Valid()
    ensures |d.message| == Total(d.pieces)
  {
  }

  /** A piece is no longer than all of them together. */
  lemma {:induction false} PieceInTotal(pieces: seq<nat>, k: nat)
    requires k < |pieces|
    ensures pieces[k] <= Total(pieces)
    decreases |pieces|
  {
    if k > 0 {
      PieceInTotal(pieces[1..], k - 1);
    }
  }

  lemma PiecesBelow(pieces: seq<nat>, bound: nat, limit: nat)
    requires AtMost(pieces, bound) && (bound < limit || Total(pieces) < limit)
    ensures Md5Count.AllBelow(pieces, limit)
  {
    forall k | 0 <= k < |pieces|
      ensures pieces[k] < limit
    {
      PieceInTotal(pieces, k);
    }
  }

  lemma DigestGood(s: Source)
    requires Good(s) && Bounded(s)
    ensures var d := Digest(s, [], []); Good(d) && Bounded(d) && Denote(d) == Denote(s) && [] + Denote(s) == Denote(s)
  {
  }

  lemma DigestRead(s: Source, amount: nat)
    requires s.Digest? && Bounded(s)
    ensures var (t, r) := Streams.Read(s, amount);
            && t.Digest? && r == Streams.Read(s.inner, amount).1 && (r.Data? ==> |r.bytes| <= amount)
            && t.digested == (if r.Data? then s.digested + r.bytes else s.digested)
            && t.pieces == (if r.Data? then s.pieces + [|r.bytes|] else s.pieces)
  {
  }

  /** The bytes `x` through the digesters in pieces of the given lengths, as a stage has passed them on. */
  method DigestPieces(x: seq<byte>, pieces: seq<nat>, crc32: bool, md5: bool, sha1: bool) returns (c: bv32, m: seq<byte>, s: seq<byte>)
    requires |x| == Total(pieces) && (md5 ==> Md5Count.AllBelow(pieces, Md5Count.TWO32 - 64)) && (sha1 ==> Sha1Standard.Short(|x|))
    ensures crc32 ==> c == Crc32.Checksum(0, x)
    ensures md5 ==> m == Md5Digester.FinalDigest(x, Md5Count.CountAll(pieces))
    ensures sha1 ==> s == Sha1Standard.Sha1(x)
  {
    hide Crc32.Checksum, Sha1Standard.Sha1, MultipleDigest.Valid, MultipleDigest.Takes, Md5Digester.FinalDigest, Md5Count.CountAll, Total,
         Sha1Standard.Short;
    var digests := new MultipleDigest(crc32, md5, sha1);
    var at := 0;
    assert pieces[..0] == [];
    FrontTotal(pieces, 0);
    for i := 0 to |pieces|
      invariant fresh(digests) && fresh(digests.crc32) && fresh(digests.md5) && fresh(digests.md5.buffer)
      invariant fresh(digests.sha1) && fresh(digests.sha1.buffer)
      invariant digests.Valid() && at == Total(pieces[..i]) <= |x| && digests.message == x[..at] && digests.pieces == pieces[..i]
    {
      PieceOf(x, pieces, i, at);
      var piece := x[at..at + pieces[i]];
      if md5 {
        ShortTaken(digests, pieces[i]);
      } else {
        Untaken(digests, pieces[i]);
      }
      digests.Process(Data(piece));
      at := at + pieces[i];
    }
    assert pieces[..|pieces|] == pieces;
    assert x[..at] == x;
    c, m, s := digests.Digests();
  }

  lemma PieceOf(x: seq<byte>, pieces: seq<nat>, i: nat, at: nat)
    requires i < |pieces| && |x| == Total(pieces) && at == Total(pieces[..i]) <= |x|
    ensures at + pieces[i] == Total(pieces[..i + 1]) <= |x|
    ensures x[..at] + x[at..at + pieces[i]] == x[..at + pieces[i]] && pieces[..i] + [pieces[i]] == pieces[..i + 1]
  {
    hide Total;
    OneMoreTaken(pieces, i);
    SumAppend(pieces[..i], pieces[i]);
    FrontTotal(pieces, i + 1);
    TakenNext(x, at, at + pieces[i]);
  }

  lemma OneMoreTaken(pieces: seq<nat>, i: nat)
    requires i < |pieces|
    ensures pieces[..i] + [pieces[i]] == pieces[..i + 1]
  {
  }

  lemma TakenNext(x: seq<byte>, a: nat, b: nat)
    requires a <= b <= |x|
    ensures x[..a] + x[a..b] == x[..b]
  {
  }

  lemma Untaken(d: MultipleDigest, length: nat)
    requires !d.md5Enabled
    ensures d.Takes(length)
  {
  }

  lemma {:induction false} FrontTotal(pieces: seq<nat>, i: nat)
    requires i <= |pieces|
    ensures Total(pieces[..i]) <= Total(pieces)
    decreases |pieces|
  {
    if i > 0 {
      FrontTotal(pieces[1..], i - 1);
      assert pieces[..i][1..] == pieces[1..][..i - 1];
    }
  }
}
