/**
 Splitting a stream over sinks of fixed sizes that need not add up to its length
 (src/tbx/streams/data_source.h, `multiple_data_sink` and `multiple_fixed_size_sink_policy`): with
 too little room a write answers end of stream, and the pipe consumes that many bytes; with too much,
 the notification of the end writes the rest of the last sink from a null pointer.
 */
module Splitting {
  import opened Bytes
  import Filters
  import opened Streams
  import opened Pipes

  /** What a write comes to: some bytes taken, or the answer that there is no sink left. */
  datatype Offer = Taken(sink: Sink, n: nat) | NoSinkLeft

  function Offered(k: Sink, bytes: seq<byte>): Offer
    requires k.Split? && SinkGood(k)
  {
    OpenedKeeps(k);
    var o := Opened(k);
    if !o.open then NoSinkLeft
    else if o.left == 0 then Taken(o.(open := false), 0)
    else Taken(Filled(o, bytes, Filters.Min(|bytes|, o.left)), Filters.Min(|bytes|, o.left))
  }

  /** What a notification comes to: acknowledged, taken for a sink being full, or a write of `n` bytes from nowhere. */
  datatype Notice = Acknowledged(sink: Sink) | NextSink(sink: Sink) | NullWritten(n: nat)

  function Noticed(k: Sink): Notice
    requires k.Split?
  {
    var o := Opened(k);
    if !o.open then Acknowledged(o) else if o.left == 0 then NextSink(o.(open := false)) else NullWritten(o.left)
  }

  /** With room for all the bytes, that is the write, and without any room left the notification, of a pipe that fits. */
  lemma OfferedIsWrite(k: Sink, bytes: seq<byte>)
    requires k.Split? && SinkGood(k) && bytes != [] && |bytes| <= Space(k)
    ensures Offered(k, bytes) == Taken(Write(k, bytes).0, Write(k, bytes).1)
  {
    hide Space;
    OpenedKeeps(k);
    var o := Opened(k);
    if !o.open {
      NoRoomLeft(o);
    }
  }

  lemma NoticedIsNotify(k: Sink)
    requires k.Split? && SinkGood(k) && Space(k) == 0
    ensures Noticed(k) == if Notify(k).1 then Acknowledged(Notify(k).0) else NextSink(Notify(k).0)
  {
    hide Space;
    OpenedKeeps(k);
    OpenHasRoom(Opened(k));
  }

  lemma OpenHasRoom(o: Sink)
    requires o.Split? && SinkGood(o) && Space(o) == 0
    ensures o.open ==> o.left == 0
  {
  }

  /** A write takes a prefix, fills no sink too far, and takes something or closes a sink; there is no sink left exactly without one. */
  lemma OfferedKeeps(k: Sink, bytes: seq<byte>)
    requires k.Split? && SinkGood(k) && bytes != []
    ensures match Offered(k, bytes)
            case NoSinkLeft => Space(k) == 0
            case Taken(t, n) =>
              n <= |bytes| && t.Split? && t.sizes == k.sizes && SinkGood(t) && Received(t) == Received(k) + bytes[..n]
              && Space(t) + n == Space(k) && Delay(t) <= Delay(k) && (n == 0 ==> Delay(t) < Delay(k))
  {
    hide Received, SinkGood, Delay, Opened, Space;
    OpenedKeeps(k);
    var o := Opened(k);
    OpenHasLast(o);
    if !o.open {
      NoRoomLeft(o);
    } else if o.left > 0 {
      FilledKeeps(o, bytes, Filters.Min(|bytes|, o.left));
    } else {
      FullKeeps(o);
      assert Received(o) + bytes[..0] == Received(o);
    }
  }

  lemma NoRoomLeft(o: Sink)
    requires o.Split? && SinkGood(o) && !o.open && |o.filled| == |o.sizes|
    ensures Space(o) == 0
  {
    assert o.sizes[|o.filled|..] == [];
  }

  lemma NoticedKeeps(k: Sink)
    requires k.Split? && SinkGood(k)
    ensures match Noticed(k)
            case Acknowledged(t) =>
              Space(k) == 0 && t.Split? && t.sizes == k.sizes && SinkGood(t) && Received(t) == Received(k) && |t.filled| == |t.sizes| && !t.open
            case NextSink(t) =>
              t.Split? && t.sizes == k.sizes && SinkGood(t) && Received(t) == Received(k) && Space(t) == Space(k) && Delay(t) < Delay(k)
            case NullWritten(n) => 0 < n <= Space(k)
  {
    hide Received, SinkGood, Delay, Opened, Space;
    OpenedKeeps(k);
    var o := Opened(k);
    if !o.open {
      NoRoomLeft(o);
    } else if o.left == 0 {
      FullKeeps(o);
    } else {
      LeftIsSpace(o);
    }
  }

  lemma LeftIsSpace(o: Sink)
    requires o.Split? && SinkGood(o) && o.open
    ensures o.left <= Space(o)
  {
  }

  // ---------------------------------------------------------------------------------------
  // Runs
  // ---------------------------------------------------------------------------------------

  /** A pipe at work over fixed-size sinks; their room may be any. */
  ghost predicate Working(p: Pipe) {
    && p.sink.Split? && SinkGood(p.sink) && Good(p.source)
    && |p.buffer| <= p.capacity && p.capacity >= 1
    && (!p.state.Open? ==> AtEnd(p.source))
    && (p.state.Closed? ==> p.buffer == [])
  }

  /** How a run ends. */
  datatype Ending = Done(sink: Sink) | TooLittleRoom | TooMuchRoom

  /** The step for the input does not look at the sink. */
  function Filling(p: Pipe): Pipe
    requires Working(p)
  {
    GoodIsBounded(p.source);
    if p.state.Open? then StepInput(p) else p
  }

  lemma FillingKeeps(p: Pipe)
    requires Working(p) && !p.state.Closed?
    ensures var q := Filling(p);
            Working(q) && Stream(q) == Stream(p) && q.sink == p.sink && q.capacity == p.capacity && !q.state.Closed?
            && PipeWork(q) <= PipeWork(p) && (q.buffer == [] && q.state.Open? ==> PipeWork(q) < PipeWork(p))
            && |q.buffer| + |Denote(q.source)| == |p.buffer| + |Denote(p.source)|
  {
    hide Denote, Good, Read, AtEnd, Work, SinkGood, Received, Delay;
    GoodIsBounded(p.source);
    if p.state.Open? && |p.buffer| < p.capacity {
      ReadKeeps(p.source, p.capacity - |p.buffer|);
      var (source, r) := Read(p.source, p.capacity - |p.buffer|);
      if r.Data? {
        assert Received(p.sink) + (p.buffer + r.bytes) + Denote(source) == Received(p.sink) + p.buffer + (r.bytes + Denote(source));
      }
    }
  }

  lemma WritingWorks(q: Pipe, t: Sink, n: nat)
    requires Working(q) && !q.state.Closed? && q.buffer != [] && Offered(q.sink, q.buffer) == Taken(t, n)
    ensures n <= |q.buffer|
    ensures var u := q.(sink := t, buffer := q.buffer[n..]);
            Working(u) && Stream(u) == Stream(q) && PipeWork(u) < PipeWork(q) && Space(u.sink) + n == Space(q.sink)
            && u.sink.sizes == q.sink.sizes
  {
    hide Denote, Good, AtEnd, SinkGood, Space, Delay, Received, Work, Offered;
    GoodIsBounded(q.source);
    OfferedKeeps(q.sink, q.buffer);
    assert q.buffer == q.buffer[..n] + q.buffer[n..];
    assert (Received(q.sink) + q.buffer[..n]) + q.buffer[n..] == Received(q.sink) + q.buffer;
  }

  lemma NoticingWorks(q: Pipe, t: Sink)
    requires Working(q) && q.buffer == [] && (q.state.EndOfInput? || q.state.NotifiedSink?) && Noticed(q.sink) == NextSink(t)
    ensures var u := q.(sink := t, state := NotifiedSink);
            Working(u) && Stream(u) == Stream(q) && PipeWork(u) < PipeWork(q) && Space(u.sink) == Space(q.sink)
            && u.sink.sizes == q.sink.sizes
  {
    hide Denote, Good, AtEnd, SinkGood, Space, Delay, Received, Work, Noticed;
    GoodIsBounded(q.source);
    NoticedKeeps(q.sink);
  }

  /** The pipe run until it is closed, or does what it must not. */
  function RunSplit(p: Pipe): Ending
    requires Working(p)
    decreases (GoodIsBounded(p.source); PipeWork(p))
  {
    GoodIsBounded(p.source);
    if p.state.Closed? then Done(p.sink)
    else
      FillingKeeps(p);
      var q := Filling(p);
      GoodIsBounded(q.source);
      if q.buffer != [] then
        match Offered(q.sink, q.buffer)
        case NoSinkLeft => TooLittleRoom
        case Taken(t, n) =>
          WritingWorks(q, t, n);
          RunSplit(q.(sink := t, buffer := q.buffer[n..]))
      else if q.state.Open? then RunSplit(q)
      else
        match Noticed(q.sink)
        case Acknowledged(t) => Done(t)
        case NextSink(t) =>
          NoticingWorks(q, t);
          RunSplit(q.(sink := t, state := NotifiedSink))
        case NullWritten(_) => TooMuchRoom
  }

  /** What is still to come, and the room there is for it. */
  ghost predicate EndsWell(p: Pipe, e: Ending)
    requires Working(p)
  {
    GoodIsBounded(p.source);
    var room, length := Space(p.sink), |p.buffer| + |Denote(p.source)|;
    match e
    case TooLittleRoom => room < length
    case TooMuchRoom => room > length
    case Done(t) =>
      room == length && t.Split? && SinkGood(t) && t.sizes == p.sink.sizes && |t.filled| == |t.sizes| && !t.open && Received(t) == Stream(p)
  }

  lemma AcknowledgedWell(q: Pipe)
    requires Working(q) && q.buffer == [] && (q.state.EndOfInput? || q.state.NotifiedSink?) && !Noticed(q.sink).NextSink?
    ensures EndsWell(q, match Noticed(q.sink) case Acknowledged(t) => Done(t) case _ => TooMuchRoom)
  {
    hide Denote, Good, AtEnd, SinkGood, Space, Received, Noticed;
    GoodIsBounded(q.source);
    EndLeavesNothing(q.source);
    NoticedKeeps(q.sink);
    assert Received(q.sink) + [] + [] == Received(q.sink);
  }

  /** The first steps do not matter for how the rest ends. */
  lemma SameEnding(p: Pipe, q: Pipe, e: Ending)
    requires Working(p) && Working(q) && EndsWell(q, e) && p.sink.sizes == q.sink.sizes
    requires Bounded(p.source) && Bounded(q.source) && Stream(q) == Stream(p)
    requires Space(p.sink) - (|p.buffer| + |Denote(p.source)|) == Space(q.sink) - (|q.buffer| + |Denote(q.source)|)
    ensures EndsWell(p, e)
  {
  }

  lemma {:induction false} RunEndsWell(p: Pipe)
    requires Working(p) && !p.state.Closed?
    ensures EndsWell(p, RunSplit(p))
    decreases (GoodIsBounded(p.source); PipeWork(p))
  {
    hide Filling, EndsWell, Stream, Space, SinkGood, Received, PipeWork, Offered, Noticed, Denote, Good, AtEnd;
    GoodIsBounded(p.source);
    FillingKeeps(p);
    var q := Filling(p);
    GoodIsBounded(q.source);
    if q.buffer != [] {
      OfferedKeeps(q.sink, q.buffer);
      match Offered(q.sink, q.buffer) {
        case NoSinkLeft => NoneLeftEnds(p, q);
        case Taken(t, n) =>
          WritingWorks(q, t, n);
          var u := q.(sink := t, buffer := q.buffer[n..]);
          RunEndsWell(u);
          SameEnding(p, u, RunSplit(u));
      }
    } else if q.state.Open? {
      RunEndsWell(q);
      SameEnding(p, q, RunSplit(q));
    } else {
      match Noticed(q.sink) {
        case NextSink(t) =>
          NoticingWorks(q, t);
          var u := q.(sink := t, state := NotifiedSink);
          RunEndsWell(u);
          SameEnding(p, u, RunSplit(u));
        case _ =>
          AcknowledgedWell(q);
          SameEnding(p, q, RunSplit(p));
      }
    }
  }

  lemma NoneLeftEnds(p: Pipe, q: Pipe)
    requires Working(p) && Working(q) && q.sink == p.sink && q.buffer != [] && Space(q.sink) == 0
    requires Bounded(p.source) && Bounded(q.source) && |q.buffer| + |Denote(q.source)| == |p.buffer| + |Denote(p.source)|
    ensures EndsWell(p, TooLittleRoom)
  {
  }

  lemma SplitStarts(source: Source, sizes: seq<nat>, capacity: nat)
    requires Good(source) && Bounded(source) && capacity >= 1
    ensures var p := SplitPipe(source, sizes, capacity);
            && Working(p) && p.source == source && p.buffer == [] && p.sink.Split? && p.sink.sizes == sizes && p.state.Open?
            && Space(p.sink) == Total(sizes) && Stream(p) == Denote(source)
  {
    hide Good, Denote;
    assert sizes[0..] == sizes;
  }

  lemma FullSinks(t: Sink, x: seq<byte>)
    requires t.Split? && SinkGood(t) && |t.filled| == |t.sizes| && !t.open && Received(t) == x
    ensures Total(t.sizes) == |x| && t.filled == Pieces(x, t.sizes)
  {
    PiecesOf(t.filled, t.sizes);
  }

  /**
   Over sinks of any sizes a run ends in one of three ways, and the sizes alone say in which: it is
   closed, with pieces of exactly these sizes, when they add up to the length; with less it meets a
   write that no sink takes, and with more a write from nowhere.
   */
  lemma SplitEndsExactly(source: Source, sizes: seq<nat>, capacity: nat)
    requires Good(source) && capacity >= 1
    ensures Bounded(source) && Working(SplitPipe(source, sizes, capacity))
    ensures var e := RunSplit(SplitPipe(source, sizes, capacity));
            && (e.Done? <==> Total(sizes) == |Denote(source)|)
            && (e.TooLittleRoom? <==> Total(sizes) < |Denote(source)|)
            && (e.TooMuchRoom? <==> Total(sizes) > |Denote(source)|)
            && (e.Done? ==> e.sink.Split? && e.sink.filled == Pieces(Denote(source), sizes))
  {
    hide RunSplit, Good, Denote, Working, SplitPipe, Space, Stream, SinkGood, Received, Total;
    GoodIsBounded(source);
    SplitStarts(source, sizes, capacity);
    var p := SplitPipe(source, sizes, capacity);
    RunEndsWell(p);
    var e := RunSplit(p);
    if e.Done? {
      FullSinks(e.sink, Denote(source));
    }
  }

  /** When the sizes add up, it is the run of the pipe that fits. */
  lemma {:induction false} RunIsProcess(p: Pipe)
    requires PipeGood(p) && p.sink.Split? && !p.state.Closed?
    ensures Working(p) && RunSplit(p) == Done(Process(p).sink)
    decreases (GoodIsBounded(p.source); PipeWork(p))
  {
    hide PipeWork, Stream, Space, SinkGood, Received, Denote, Good, AtEnd, Offered, Noticed, Write, Notify, Filling, StepInput;
    GoodIsBounded(p.source);
    FillingKeeps(p);
    StepInputKeeps(p);
    StepKeeps(p);
    var q := Filling(p);
    assert q == if p.state.Open? then StepInput(p) else p by { FillingIs(p); }
    GoodIsBounded(q.source);
    OutputAllowed(q);
    var u := Step(p);
    GoodIsBounded(u.source);
    if q.buffer != [] {
      OfferedIsWrite(q.sink, q.buffer);
      RunIsProcess(u);
    } else if q.state.Open? {
      RunIsProcess(u);
    } else {
      NoticedIsNotify(q.sink);
      if !Notify(q.sink).1 {
        RunIsProcess(u);
      }
    }
  }

  lemma FillingIs(p: Pipe)
    requires Working(p) && Bounded(p.source)
    ensures Filling(p) == if p.state.Open? then StepInput(p) else p
  {
  }
}
