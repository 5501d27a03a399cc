/**
 The streaming engine as a state machine (src/tbx/streams/data_source.h, data_filter.h and
 src/filters/filters.h): a source is a tree of stages, each with its own buffers and flags, and
 one `Read` moves bytes through the whole tree. `Denote` is what a source still has to deliver;
 the theorems say that reading, in pieces of any size and through buffers of any size, delivers
 exactly that and then ends.
 */
module Streams {
  import opened Bytes
  import opened Filters

  datatype Event = Begin(index: nat) | End(index: nat)

  datatype Source =
    /** A memory buffer read from its position. */
    | Buffer(data: seq<byte>, position: nat)
    /** A buffer that is moved to `offset` by its first read. */
    | LazySeek(data: seq<byte>, position: nat, offset: nat, executed: bool)
    /** A pass-through that counts. */
    | Counter(inner: Source, count: nat)
    /** A pass-through that feeds the digesters: what they were given, and in pieces of which lengths. */
    | Digest(inner: Source, digested: seq<byte>, pieces: seq<nat>)
    | Filtered(inner: Source, filter: Filter)
    /** Several sources one after the other; `rest[0]` is the current one. */
    | Multiple(done: seq<Source>, rest: seq<Source>, pristine: bool, events: seq<Event>)

  // ---------------------------------------------------------------------------------------
  // Reading
  // ---------------------------------------------------------------------------------------

  /** Every buffer in the tree is within its bounds. */
  predicate Bounded(s: Source) {
    match s
    case Buffer(data, position) => position <= |data|
    case LazySeek(data, position, offset, executed) => position <= |data| && offset <= |data|
    case Counter(inner, _) => Bounded(inner)
    case Digest(inner, _, _) => Bounded(inner)
    case Filtered(inner, f) => Bounded(inner) && InBounds(f)
    case Multiple(done, rest, _, _) => AllBounded(done) && AllBounded(rest)
  }

  predicate AllBounded(sources: seq<Source>) {
    forall i :: 0 <= i < |sources| ==> Bounded(sources[i])
  }

  lemma AllBoundedConcat(a: seq<Source>, b: seq<Source>)
    requires AllBounded(a) && AllBounded(b)
    ensures AllBounded(a + b)
  {
    forall i | 0 <= i < |a + b|
      ensures Bounded((a + b)[i])
    {
      if i < |a| { assert Bounded(a[i]); } else { assert Bounded(b[i - |a|]); }
    }
  }

  /** What reading from a list of sources leaves: those used up, the rest, and what was seen. */
  datatype ListRead = ListRead(finished: seq<Source>, rest: seq<Source>, pristine: bool, events: seq<Event>, result: ReadResult)

  /** `memory_buffer::read`: the bytes at the position, or the end. */
  function ReadAt(data: seq<byte>, position: nat, amount: nat): (r: ReadResult)
    requires position <= |data|
    ensures r.Data? ==> |r.bytes| <= amount && position + |r.bytes| <= |data|
  {
    if position == |data| then EndOfStream else Data(data[position..position + Min(|data| - position, amount)])
  }

  function Length(r: ReadResult): nat {
    if r.Data? then |r.bytes| else 0
  }

  /** One read of at most `amount` bytes: the source afterwards, and the answer. */
  function Read(s: Source, amount: nat): (r: (Source, ReadResult))
    requires Bounded(s)
    ensures Bounded(r.0) && (r.1.Data? ==> |r.1.bytes| <= amount)
    decreases s
  {
    match s
    case Buffer(data, position) =>
      var r := ReadAt(data, position, amount);
      (Buffer(data, position + Length(r)), r)
    case LazySeek(data, position, offset, executed) =>
      var from := if executed then position else offset;
      var r := ReadAt(data, from, amount);
      (LazySeek(data, from + Length(r), offset, true), r)
    case Counter(inner, count) =>
      var (inner', r) := Read(inner, amount);
      (Counter(inner', count + Length(r)), r)
    case Digest(inner, digested, pieces) =>
      var (inner', r) := Read(inner, amount);
      (if r.Data? then Digest(inner', digested + r.bytes, pieces + [|r.bytes|]) else Digest(inner', digested, pieces), r)
    case Filtered(inner, filter) =>
      var f := Begun(filter);
      var (inner', g) :=
        if |f.input| < f.capacity then
          var (inner', r) := Read(inner, f.capacity - |f.input|);
          (inner', Fetched(f, r))
        else (inner, f);
      var (h, r) := Drained(g, amount);
      (Filtered(inner', h), r)
    case Multiple(done, rest, pristine, events) =>
      var l := ReadList(rest, |done|, pristine, amount);
      AllBoundedConcat(done, l.finished);
      (Multiple(done + l.finished, l.rest, l.pristine, events + l.events), l.result)
  }

  /** The loop of `multiple_data_source::read`, from the current source on. */
  function ReadList(rest: seq<Source>, index: nat, pristine: bool, amount: nat): (l: ListRead)
    requires AllBounded(rest)
    ensures AllBounded(l.finished) && AllBounded(l.rest) && (l.result.Data? ==> |l.result.bytes| <= amount)
    decreases rest
  {
    if rest == [] then ListRead([], [], pristine, [], EndOfStream)
    else
      var begun := if pristine then [Begin(index)] else [];
      var (first, r) := Read(rest[0], amount);
      if r.Data? then ListRead([], [first] + rest[1..], false, begun, r)
      else
        var l := ReadList(rest[1..], index + 1, true, amount);
        ListRead([first] + l.finished, l.rest, l.pristine, begun + [End(index)] + l.events, l.result)
  }

  // ---------------------------------------------------------------------------------------
  // What a source still has to deliver
  // ---------------------------------------------------------------------------------------

  function Denote(s: Source): seq<byte>
    requires Bounded(s)
    decreases s
  {
    match s
    case Buffer(data, position) => data[position..]
    case LazySeek(data, position, offset, executed) => data[if executed then position else offset..]
    case Counter(inner, _) => Denote(inner)
    case Digest(inner, _, _) => Denote(inner)
    case Filtered(inner, f) => FilterDenotes(f, Denote(inner))
    case Multiple(_, rest, _, _) => DenoteAll(rest)
  }

  function DenoteAll(sources: seq<Source>): seq<byte>
    requires AllBounded(sources)
    decreases sources
  {
    if sources == [] then [] else Denote(sources[0]) + DenoteAll(sources[1..])
  }

  /** The source has answered end of stream: it and everything below it is used up. */
  ghost predicate AtEnd(s: Source)
    decreases s
  {
    match s
    case Buffer(data, position) => position == |data|
    case LazySeek(data, position, _, executed) => executed && position == |data|
    case Counter(inner, _) => AtEnd(inner)
    case Digest(inner, _, _) => AtEnd(inner)
    case Filtered(inner, f) => f.started && f.ended && f.finished && AtEnd(inner)
    case Multiple(done, rest, _, _) => rest == [] && forall i :: 0 <= i < |done| ==> AtEnd(done[i])
  }

  /** Begin and end of the first `n` sources, in order. */
  function EventsUpTo(n: nat): seq<Event> {
    if n == 0 then [] else EventsUpTo(n - 1) + [Begin(n - 1), End(n - 1)]
  }

  /** The invariant of a source at work. */
  ghost predicate Good(s: Source)
    decreases s
  {
    Bounded(s) &&
    match s
    case Buffer(_, _) => true
    case LazySeek(_, _, _, _) => true
    case Counter(inner, _) => Good(inner)
    case Digest(inner, _, _) => Good(inner)
    case Filtered(inner, f) => Good(inner) && FilterGood(f, Denote(inner)) && (f.ended ==> AtEnd(inner))
    case Multiple(done, rest, pristine, events) =>
      && AllAtEnd(done)
      && AllGood(rest)
      && (rest == [] ==> pristine)
      && events == EventsAt(|done|, pristine)
  }

  ghost predicate AllGood(sources: seq<Source>)
    decreases sources
  {
    sources != [] ==> Good(sources[0]) && AllGood(sources[1..])
  }

  /** Reads left before the end, with room for every byte still to be moved. */
  function Work(s: Source): nat
    requires Bounded(s)
    decreases s
  {
    match s
    case Buffer(data, position) => 2 * (|data| - position)
    case LazySeek(data, position, offset, executed) => 2 * (|data| - if executed then position else offset)
    case Counter(inner, _) => Work(inner)
    case Digest(inner, _, _) => Work(inner)
    case Filtered(inner, f) => 3 * Work(inner) + FilterWork(f)
    case Multiple(_, rest, _, _) => WorkAll(rest)
  }

  function WorkAll(sources: seq<Source>): nat
    requires AllBounded(sources)
    decreases sources
  {
    if sources == [] then 0 else Work(sources[0]) + WorkAll(sources[1..])
  }

  // ---------------------------------------------------------------------------------------
  // One read
  // ---------------------------------------------------------------------------------------

  /** What every read of at least one byte guarantees. */
  ghost predicate ReadKept(s: Source, s': Source, r: ReadResult)
    requires Bounded(s) && Bounded(s')
  {
    Good(s') && (AtEnd(s) ==> r.EndOfStream?) &&
    match r
    case EndOfStream => Denote(s) == [] && Denote(s') == [] && AtEnd(s') && Work(s') <= Work(s)
    case Data(c) => Denote(s) == c + Denote(s') && Work(s') + |c| < Work(s)
  }

  ghost predicate AllAtEnd(sources: seq<Source>) {
    forall i :: 0 <= i < |sources| ==> Good(sources[i]) && AtEnd(sources[i])
  }

  ghost predicate ListReadKept(rest: seq<Source>, l: ListRead)
    requires AllBounded(rest) && AllBounded(l.rest)
  {
    && AllGood(l.rest) && AllAtEnd(l.finished)
    && match l.result
       case EndOfStream => DenoteAll(rest) == [] && l.rest == []
       case Data(c) => DenoteAll(rest) == c + DenoteAll(l.rest) && WorkAll(l.rest) + |c| < WorkAll(rest) && l.rest != []
  }

  /** The callbacks seen so far, the current source being `index`. */
  function EventsAt(index: nat, pristine: bool): seq<Event> {
    EventsUpTo(index) + if pristine then [] else [Begin(index)]
  }

  lemma EndDenotesNothing(s: Source)
    requires Good(s) && AtEnd(s)
    ensures Denote(s) == []
  {
    match s
    case Counter(inner, _) => EndDenotesNothing(inner);
    case Digest(inner, _, _) => EndDenotesNothing(inner);
    case Filtered(inner, f) => FinishedDenotesNothing(f, Denote(inner));
    case _ =>
  }

  lemma ReadAtKeeps(data: seq<byte>, position: nat, amount: nat)
    requires position <= |data| && amount >= 1
    ensures match ReadAt(data, position, amount)
            case EndOfStream => position == |data|
            case Data(c) => position < |data| && c != [] && data[position..] == c + data[position + |c|..]
  {
  }

  lemma BufferReadKeeps(s: Source, amount: nat)
    requires s.Buffer? && Good(s) && amount >= 1
    ensures ReadKept(s, Read(s, amount).0, Read(s, amount).1)
  {
    hide ReadAt, AllGood, AllAtEnd, DenoteAll, WorkAll;
    ReadAtKeeps(s.data, s.position, amount);
    var t := Read(s, amount).0;
    assert t == Buffer(s.data, s.position + Length(ReadAt(s.data, s.position, amount)));
  }

  lemma LazySeekReadKeeps(s: Source, amount: nat)
    requires s.LazySeek? && Good(s) && amount >= 1
    ensures ReadKept(s, Read(s, amount).0, Read(s, amount).1)
  {
    hide ReadAt, AllGood, AllAtEnd, DenoteAll, WorkAll;
    var from := if s.executed then s.position else s.offset;
    ReadAtKeeps(s.data, from, amount);
    var t := Read(s, amount).0;
    assert t == LazySeek(s.data, from + Length(ReadAt(s.data, from, amount)), s.offset, true);
  }

  lemma {:induction false} ReadKeeps(s: Source, amount: nat)
    requires Good(s) && amount >= 1
    ensures ReadKept(s, Read(s, amount).0, Read(s, amount).1)
    decreases s, 1
  {
    hide FilterDenotes, Drained, Begun, Fetched, ReadList, ReadAt;
    match s
    case Buffer(_, _) => BufferReadKeeps(s, amount);
    case LazySeek(_, _, _, _) => LazySeekReadKeeps(s, amount);
    case Counter(inner, _) => ReadKeeps(inner, amount);
    case Digest(inner, _, _) => ReadKeeps(inner, amount);
    case Filtered(inner, filter) => FilteredReadKeeps(s, amount);
    case Multiple(done, rest, pristine, events) => MultipleReadKeeps(s, amount);
  }

  lemma {:induction false} FilteredReadKeeps(s: Source, amount: nat)
    requires s.Filtered? && Good(s) && amount >= 1
    ensures ReadKept(s, Read(s, amount).0, Read(s, amount).1)
    decreases s, 0
  {
    hide FilterDenotes, FilterWork, Drained, Begun, FilterGood, ReadList, AllGood, AllAtEnd, DenoteAll, WorkAll;
    var f := Begun(s.filter);
    BegunKeeps(s.filter, Denote(s.inner));
    GoodInBounds(f, Denote(s.inner));
    if |f.input| < f.capacity {
      ReadKeeps(s.inner, f.capacity - |f.input|);
      var (inner', r) := Read(s.inner, f.capacity - |f.input|);
      match r
      case EndOfStream =>
        EndedKeeps(f);
        TurnKeeps(s, f, inner', Fetched(f, r), amount);
      case Data(c) =>
        FinishedHasEnded(f, Denote(s.inner));
        FetchedKeeps(f, c, Denote(inner'));
        TurnKeeps(s, f, inner', Fetched(f, r), amount);
    } else {
      TurnKeeps(s, f, s.inner, f, amount);
    }
  }

  lemma FinishedHasEnded(f: Filter, upstream: seq<byte>)
    requires FilterGood(f, upstream)
    ensures f.finished ==> f.ended
  {
  }

  /** A filter's turn, once its input is fetched: `g` is the filter `f` after fetching. */
  lemma TurnKeeps(s: Source, f: Filter, inner': Source, g: Filter, amount: nat)
    requires s.Filtered? && Good(s) && Good(inner') && amount >= 1
    requires f == Begun(s.filter) && InBounds(f) && FilterWork(f) == FilterWork(s.filter)
    requires g.started && FilterGood(g, Denote(inner')) && (g.ended ==> AtEnd(inner'))
    requires FilterDenotes(s.filter, Denote(s.inner)) == FilterDenotes(g, Denote(inner'))
    requires 3 * Work(inner') + FilterWork(g) <= 3 * Work(s.inner) + FilterWork(f)
    requires 3 * Work(inner') + FilterWork(g) < 3 * Work(s.inner) + FilterWork(f) || g.input != [] || g.ended
    requires s.filter.finished ==> g.finished
    ensures var (h, r) := Drained(g, amount);
            ReadKept(s, Filtered(inner', h), r)
  {
    hide FilterDenotes, FilterWork, Drained, Begun;
    DrainedKeeps(g, Denote(inner'), amount);
    var (h, r) := Drained(g, amount);
    EndedStays(g, amount);
  }
 
  lemma {:induction false} MultipleReadKeeps(s: Source, amount: nat)
    requires s.Multiple? && Good(s) && amount >= 1
    ensures ReadKept(s, Read(s, amount).0, Read(s, amount).1)
    decreases s, 0
  {
    ListReadKeeps(s.rest, |s.done|, s.pristine, amount);
    ListReadEvents(s.rest, |s.done|, s.pristine, amount);
    var l := ReadList(s.rest, |s.done|, s.pristine, amount);
    assert AllAtEnd(s.done + l.finished);
    assert s.events + l.events == EventsAt(|s.done + l.finished|, l.pristine);
  }

  lemma {:induction false} ListReadKeeps(rest: seq<Source>, index: nat, pristine: bool, amount: nat)
    requires AllBounded(rest) && AllGood(rest) && amount >= 1
    ensures ListReadKept(rest, ReadList(rest, index, pristine, amount))
    decreases rest
  {
    if rest != [] {
      ReadKeeps(rest[0], amount);
      var (first, r) := Read(rest[0], amount);
      if r.EndOfStream? {
        ListReadKeeps(rest[1..], index + 1, true, amount);
      } else {
        assert ([first] + rest[1..])[1..] == rest[1..];
      }
    }
  }

  lemma NextEvents(index: nat)
    ensures EventsUpTo(index + 1) == EventsUpTo(index) + [Begin(index), End(index)]
  {
  }

  lemma {:induction false} ListReadEvents(rest: seq<Source>, index: nat, pristine: bool, amount: nat)
    requires AllBounded(rest) && (rest == [] ==> pristine)
    ensures var l := ReadList(rest, index, pristine, amount);
            |l.finished| + |l.rest| == |rest| && (l.rest == [] ==> l.pristine) && (l.result.Data? ==> !l.pristine)
            && EventsAt(index, pristine) + l.events == EventsAt(index + |l.finished|, l.pristine)
    decreases rest
  {
    hide Read, EventsUpTo;
    if rest != [] {
      var (first, r) := Read(rest[0], amount);
      if r.EndOfStream? {
        ListReadEvents(rest[1..], index + 1, true, amount);
        var l := ReadList(rest[1..], index + 1, true, amount);
        var begun := if pristine then [Begin(index)] else [];
        NextEvents(index);
        assert EventsAt(index, pristine) + (begun + [End(index)] + l.events) == EventsAt(index + 1, true) + l.events;
      }
    }
  }

  // ---------------------------------------------------------------------------------------
  // Whole runs
  // ---------------------------------------------------------------------------------------

  /** What a run of reads delivers, and whether it met the end of the stream. */
  datatype Outcome = Outcome(source: Source, delivered: seq<byte>, ended: bool)

  /** Reads of the given sizes, one after the other, until the end of the stream. */
  function Run(s: Source, sizes: seq<nat>): (o: Outcome)
    requires Bounded(s)
    ensures Bounded(o.source)
    decreases |sizes|
  {
    if sizes == [] then Outcome(s, [], false)
    else
      var (s', r) := Read(s, sizes[0]);
      match r
      case EndOfStream => Outcome(s', [], true)
      case Data(c) =>
        var o := Run(s', sizes[1..]);
        o.(delivered := c + o.delivered)
  }

  ghost predicate Positive(sizes: seq<nat>) {
    forall i :: 0 <= i < |sizes| ==> sizes[i] >= 1
  }

  lemma GoodIsBounded(s: Source)
    requires Good(s)
    ensures Bounded(s)
  {
  }

  /**
   Draining: whatever the sizes of the reads and of the buffers inside, what is delivered plus
   what is left is what the source denoted; at the end nothing is left; and the end comes
   after at most `Work(s)` reads and stays.
   */
  lemma {:induction false} RunDelivers(s: Source, sizes: seq<nat>)
    requires Good(s) && Positive(sizes)
    ensures var o := Run(s, sizes);
            Good(o.source) && Denote(s) == o.delivered + Denote(o.source)
            && (o.ended ==> o.delivered == Denote(s) && AtEnd(o.source))
            && (|sizes| > Work(s) ==> o.ended)
    decreases |sizes|
  {
    hide Read, Good, Denote, Work, AtEnd, Bounded;
    GoodIsBounded(s);
    if sizes != [] {
      ReadKeeps(s, sizes[0]);
      var (s', r) := Read(s, sizes[0]);
      if r.Data? {
        RunDelivers(s', sizes[1..]);
        var o := Run(s', sizes[1..]);
        assert (r.bytes + o.delivered) + Denote(o.source) == r.bytes + (o.delivered + Denote(o.source));
      }
    }
  }

  /** Once a read has answered end of stream, every later one does. */
  lemma EndIsSticky(s: Source, amount: nat, again: nat)
    requires Good(s) && amount >= 1 && again >= 1 && Read(s, amount).1.EndOfStream?
    ensures Read(Read(s, amount).0, again).1.EndOfStream?
  {
    ReadKeeps(s, amount);
    ReadKeeps(Read(s, amount).0, again);
  }

  // ---------------------------------------------------------------------------------------
  // Counters and digests
  // ---------------------------------------------------------------------------------------

  /** `t` is a later state of `s`: nothing counted or digested has been lost or invented. */
  ghost predicate Evolved(s: Source, t: Source)
    requires Bounded(s) && Bounded(t)
    decreases s
  {
    match s
    case Buffer(data, _) => t.Buffer? && t.data == data
    case LazySeek(data, _, offset, _) => t.LazySeek? && t.data == data && t.offset == offset
    case Counter(inner, count) =>
      t.Counter? && Evolved(inner, t.inner) && count + |Denote(inner)| == t.count + |Denote(t.inner)|
    case Digest(inner, digested, pieces) =>
      t.Digest? && Evolved(inner, t.inner) && digested + Denote(inner) == t.digested + Denote(t.inner)
      && Total(pieces) + |Denote(inner)| == Total(t.pieces) + |Denote(t.inner)|
    case Filtered(inner, f) => t.Filtered? && Evolved(inner, t.inner) && t.filter.capacity == f.capacity
    case Multiple(done, rest, _, _) =>
      t.Multiple? && |t.done| >= |done| && t.done[..|done|] == done
      && AllBounded(t.done[|done|..] + t.rest) && AllEvolved(rest, t.done[|done|..] + t.rest)
  }

  ghost predicate AllEvolved(sources: seq<Source>, later: seq<Source>)
    requires AllBounded(sources) && AllBounded(later)
    decreases sources
  {
    |sources| == |later| && (sources != [] ==> Evolved(sources[0], later[0]) && AllEvolved(sources[1..], later[1..]))
  }

  lemma {:induction false} EvolvedSame(s: Source)
    requires Bounded(s)
    ensures Evolved(s, s)
    decreases s
  {
    match s
    case Counter(inner, _) => EvolvedSame(inner);
    case Digest(inner, _, _) => EvolvedSame(inner);
    case Filtered(inner, _) => EvolvedSame(inner);
    case Multiple(done, rest, _, _) =>
      AllEvolvedSame(rest);
      assert done[|done|..] + rest == rest;
    case _ =>
  }

  lemma {:induction false} AllEvolvedSame(sources: seq<Source>)
    requires AllBounded(sources)
    ensures AllEvolved(sources, sources)
    decreases sources
  {
    if sources != [] {
      EvolvedSame(sources[0]);
      AllEvolvedSame(sources[1..]);
    }
  }

  lemma {:induction false} EvolvedTransitive(s: Source, t: Source, u: Source)
    requires Bounded(s) && Bounded(t) && Bounded(u) && Evolved(s, t) && Evolved(t, u)
    ensures Evolved(s, u)
    decreases s
  {
    match s
    case Counter(inner, _) => EvolvedTransitive(inner, t.inner, u.inner);
    case Digest(inner, _, _) => EvolvedTransitive(inner, t.inner, u.inner);
    case Filtered(inner, _) => EvolvedTransitive(inner, t.inner, u.inner);
    case Multiple(done, rest, _, _) =>
      var between := t.done[|done|..];
      assert u.done[|done|..] == between + u.done[|t.done|..];
      AllEvolvedPrefix(between, t.rest, u.done[|t.done|..] + u.rest);
      AllEvolvedTransitive(rest, between + t.rest, between + (u.done[|t.done|..] + u.rest));
      assert between + (u.done[|t.done|..] + u.rest) == u.done[|done|..] + u.rest;
    case _ =>
  }

  lemma {:induction false} AllEvolvedTransitive(s: seq<Source>, t: seq<Source>, u: seq<Source>)
    requires AllBounded(s) && AllBounded(t) && AllBounded(u) && AllEvolved(s, t) && AllEvolved(t, u)
    ensures AllEvolved(s, u)
    decreases s
  {
    if s != [] {
      EvolvedTransitive(s[0], t[0], u[0]);
      AllEvolvedTransitive(s[1..], t[1..], u[1..]);
    }
  }

  lemma {:induction false} AllEvolvedPrefix(a: seq<Source>, b: seq<Source>, c: seq<Source>)
    requires AllBounded(a) && AllBounded(b) && AllBounded(c) && AllEvolved(b, c)
    ensures AllBounded(a + b) && AllBounded(a + c) && AllEvolved(a + b, a + c)
    decreases a
  {
    AllBoundedConcat(a, b);
    AllBoundedConcat(a, c);
    if a == [] {
      assert a + b == b && a + c == c;
    } else {
      EvolvedSame(a[0]);
      AllEvolvedPrefix(a[1..], b, c);
      assert (a + b)[1..] == a[1..] + b && (a + c)[1..] == a[1..] + c;
    }
  }

  lemma FilteredCapacity(s: Source, amount: nat)
    requires s.Filtered? && Bounded(s)
    ensures var t := Read(s, amount).0; t.Filtered? && t.filter.capacity == s.filter.capacity
  {
    hide Drained, Begun;
    var f := Begun(s.filter);
    CapacityStays(f, amount);
    if |f.input| < f.capacity {
      CapacityStays(Fetched(f, Read(s.inner, f.capacity - |f.input|).1), amount);
    }
  }

  lemma {:induction false} ReadEvolves(s: Source, amount: nat)
    requires Good(s) && amount >= 1
    ensures Evolved(s, Read(s, amount).0)
    decreases s
  {
    hide FilterDenotes, Drained, Begun, Fetched, Work, WorkAll, Total;
    match s
    case Counter(inner, _) =>
      ReadEvolves(inner, amount);
      ReadKeeps(inner, amount);
    case Digest(inner, digested, pieces) =>
      ReadEvolves(inner, amount);
      ReadKeeps(inner, amount);
      var (inner', r) := Read(inner, amount);
      if r.Data? {
        SumAppend(pieces, |r.bytes|);
        assert (digested + r.bytes) + Denote(inner') == digested + (r.bytes + Denote(inner'));
      }
    case Filtered(inner, filter) =>
      EvolvedSame(inner);
      FilteredCapacity(s, amount);
      var f := Begun(filter);
      if |f.input| < f.capacity {
        ReadEvolves(inner, f.capacity - |f.input|);
      }
    case Multiple(done, rest, pristine, _) =>
      ListReadEvolves(rest, |done|, pristine, amount);
      var l := ReadList(rest, |done|, pristine, amount);
      assert (done + l.finished)[..|done|] == done && (done + l.finished)[|done|..] == l.finished;
    case _ =>
  }

  lemma ConsEvolved(s: Source, rest: seq<Source>, t: Source, later: seq<Source>)
    requires Bounded(s) && Bounded(t) && AllBounded(rest) && AllBounded(later)
    requires Evolved(s, t) && AllEvolved(rest, later)
    ensures AllBounded([s] + rest) && AllBounded([t] + later) && AllEvolved([s] + rest, [t] + later)
  {
    hide Evolved;
    AllBoundedConcat([s], rest);
    AllBoundedConcat([t], later);
    assert ([s] + rest)[1..] == rest && ([t] + later)[1..] == later;
  }

  lemma {:induction false} ListReadEvolves(rest: seq<Source>, index: nat, pristine: bool, amount: nat)
    requires AllBounded(rest) && AllGood(rest) && amount >= 1
    ensures var l := ReadList(rest, index, pristine, amount);
            AllBounded(l.finished + l.rest) && AllEvolved(rest, l.finished + l.rest)
    decreases rest
  {
    hide Work, WorkAll, Denote, DenoteAll, Read, Evolved, AllEvolved, Good, Bounded;
    if rest == [] {
      AllEvolvedSame(rest);
      assert rest + rest == rest;
    } else {
      ReadEvolves(rest[0], amount);
      var (first, r) := Read(rest[0], amount);
      assert rest == [rest[0]] + rest[1..];
      if r.EndOfStream? {
        ListReadEvolves(rest[1..], index + 1, true, amount);
        var m := ReadList(rest[1..], index + 1, true, amount);
        ConsEvolved(rest[0], rest[1..], first, m.finished + m.rest);
        assert ([first] + m.finished) + m.rest == [first] + (m.finished + m.rest);
      } else {
        AllEvolvedSame(rest[1..]);
        ConsEvolved(rest[0], rest[1..], first, rest[1..]);
        assert [] + ([first] + rest[1..]) == [first] + rest[1..];
      }
    }
  }

  // ---------------------------------------------------------------------------------------
  // The lengths of the pieces
  // ---------------------------------------------------------------------------------------

  predicate AtMost(pieces: seq<nat>, bound: nat) {
    forall k :: 0 <= k < |pieces| ==> pieces[k] <= bound
  }

  /** Of a source that is read at most `bound` bytes at a time: the pieces that its digesters have been given. */
  ghost predicate Within(s: Source, bound: nat)
    decreases s
  {
    match s
    case Counter(inner, _) => Within(inner, bound)
    case Digest(_, _, pieces) => AtMost(pieces, bound)
    case Filtered(inner, f) => Within(inner, f.capacity)
    case Multiple(done, rest, _, _) =>
      (forall i :: 0 <= i < |done| ==> Within(done[i], bound)) && forall i :: 0 <= i < |rest| ==> Within(rest[i], bound)
    case _ => true
  }

  ghost predicate AllWithin(sources: seq<Source>, bound: nat) {
    forall i :: 0 <= i < |sources| ==> Within(sources[i], bound)
  }

  lemma AllWithinConcat(a: seq<Source>, b: seq<Source>, bound: nat)
    requires AllWithin(a, bound) && AllWithin(b, bound)
    ensures AllWithin(a + b, bound)
  {
    forall i | 0 <= i < |a + b|
      ensures Within((a + b)[i], bound)
    {
      if i < |a| { assert Within(a[i], bound); } else { assert Within(b[i - |a|], bound); }
    }
  }

  /** A digester is given what one read brings, and the innermost filter's buffer bounds the read. */
  lemma {:induction false} ReadStaysWithin(s: Source, bound: nat, amount: nat)
    requires Bounded(s) && Within(s, bound) && amount <= bound
    ensures Within(Read(s, amount).0, bound)
    decreases s
  {
    hide Drained, Begun, Fetched;
    match s
    case Counter(inner, _) => ReadStaysWithin(inner, bound, amount);
    case Filtered(inner, filter) =>
      FilteredCapacity(s, amount);
      var f := Begun(filter);
      if |f.input| < f.capacity {
        ReadStaysWithin(inner, f.capacity, f.capacity - |f.input|);
      }
    case Multiple(done, rest, pristine, _) =>
      ListStaysWithin(rest, |done|, pristine, bound, amount);
      AllWithinConcat(done, ReadList(rest, |done|, pristine, amount).finished, bound);
    case _ =>
  }

  lemma {:induction false} ListStaysWithin(rest: seq<Source>, index: nat, pristine: bool, bound: nat, amount: nat)
    requires AllBounded(rest) && AllWithin(rest, bound) && amount <= bound
    ensures var l := ReadList(rest, index, pristine, amount); AllWithin(l.finished, bound) && AllWithin(l.rest, bound)
    decreases rest
  {
    hide Read, Within;
    if rest != [] {
      ReadStaysWithin(rest[0], bound, amount);
      var (first, r) := Read(rest[0], amount);
      if r.EndOfStream? {
        ListStaysWithin(rest[1..], index + 1, true, bound, amount);
        AllWithinConcat([first], ReadList(rest[1..], index + 1, true, amount).finished, bound);
      } else {
        AllWithinConcat([first], rest[1..], bound);
      }
    }
  }
}
