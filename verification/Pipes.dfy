/**
 Pipes and sinks as state machines (src/tbx/streams/data_pipe.h, src/tbx/streams/data_source.h).
 A pipe moves bytes from a source through one bounded buffer to a sink until the sink has
 acknowledged the end of the stream.
 */
module Pipes {
  import opened Bytes
  import opened Filters
  import opened Streams

  // ---------------------------------------------------------------------------------------
  // Sinks
  // ---------------------------------------------------------------------------------------

  datatype Sink =
    /** A memory buffer: takes everything, acknowledges the end at once. */
    | Memory(data: seq<byte>)
    /**
     Any other single sink: the next writes take at most the amounts of `pace` (then everything),
     and `patience` end-of-stream notifications go by before one is acknowledged.
     */
    | Paced(data: seq<byte>, pace: seq<nat>, patience: nat)
    /** `multiple_data_sink` under the fixed-size policy: sinks built so far, and room in the last. */
    | Split(sizes: seq<nat>, filled: seq<seq<byte>>, left: nat, open: bool)

  /** Everything a sink has taken, in order. */
  function Received(k: Sink): seq<byte> {
    match k
    case Memory(data) => data
    case Paced(data, _, _) => data
    case Split(_, filled, _, _) => Concat(filled)
  }

  /** Sinks already built hold what they should; the open one has room for `left` more bytes. */
  ghost predicate SinkGood(k: Sink) {
    k.Split? ==>
      && |k.filled| <= |k.sizes|
      && (k.open ==> k.filled != [] && |k.filled[|k.filled| - 1]| + k.left == k.sizes[|k.filled| - 1])
      && (!k.open ==> k.filled != [] ==> |k.filled[|k.filled| - 1]| == k.sizes[|k.filled| - 1])
      && forall i :: 0 <= i < |k.filled| - 1 ==> |k.filled[i]| == k.sizes[i]
  }

  /** How many more bytes a split sink takes. */
  function Space(k: Sink): nat
    requires k.Split? && |k.filled| <= |k.sizes|
  {
    (if k.open then k.left else 0) + Total(k.sizes[|k.filled|..])
  }

  /** `multiple_data_sink::write`, up to the policy: makes sure a sink is open, if one is left. */
  function Opened(k: Sink): (o: Sink)
    requires k.Split?
    ensures o.Split?
  {
    if k.open || |k.filled| >= |k.sizes| then k
    else k.(filled := k.filled + [[]], left := k.sizes[|k.filled|], open := true)
  }

  /** A data write: the sink afterwards, and how many bytes it took (None is end of stream). */
  function Write(k: Sink, bytes: seq<byte>): (r: (Sink, nat))
    requires SinkGood(k)
    requires k.Split? ==> |bytes| <= Space(k)
    ensures r.1 <= |bytes|
  {
    match k
    case Memory(data) => (Memory(data + bytes), |bytes|)
    case Paced(data, pace, patience) =>
      if pace == [] then (Paced(data + bytes, [], patience), |bytes|)
      else
        var n := Min(pace[0], |bytes|);
        (Paced(data + bytes[..n], pace[1..], patience), n)
    case Split(_, _, _, _) =>
      var o := Opened(k);
      if !o.open then (o, 0)
      else if o.left == 0 then (o.(open := false), 0)
      else
        var n := Min(|bytes|, o.left);
        var last := |o.filled| - 1;
        (o.(filled := o.filled[last := o.filled[last] + bytes[..n]], left := o.left - n), n)
  }

  /** An end-of-stream notification: is it acknowledged? */
  function Notify(k: Sink): (r: (Sink, bool))
    requires SinkGood(k)
    requires k.Split? ==> Space(k) == 0
  {
    match k
    case Memory(_) => (k, true)
    case Paced(data, pace, patience) => if patience == 0 then (k, true) else (Paced(data, pace, patience - 1), false)
    case Split(_, _, _, _) =>
      var o := Opened(k);
      if o.open then (o.(open := false), false) else (o, true)
  }

  /** Writes and notifications that may go by without effect. */
  function Delay(k: Sink): nat {
    match k
    case Memory(_) => 0
    case Paced(_, pace, patience) => |pace| + patience
    case Split(sizes, filled, _, open) => 2 * (if |filled| <= |sizes| then |sizes| - |filled| else 0) + if open then 1 else 0
  }

  lemma OpenedKeeps(k: Sink)
    requires k.Split? && SinkGood(k)
    ensures var o := Opened(k);
            SinkGood(o) && Received(o) == Received(k) && Space(o) == Space(k) && Delay(o) <= Delay(k)
            && o.sizes == k.sizes && (!o.open ==> |o.filled| == |o.sizes|)
  {
    if !k.open && |k.filled| < |k.sizes| {
      ConcatAppend(k.filled, []);
      assert Opened(k).filled[..|k.filled|] == k.filled;
    }
  }

  /** A data write takes a prefix, and either takes something or uses up some delay. */
  lemma WriteKeeps(k: Sink, bytes: seq<byte>)
    requires SinkGood(k) && (k.Split? ==> |bytes| <= Space(k))
    ensures var (k', n) := Write(k, bytes);
            SinkGood(k') && Received(k') == Received(k) + bytes[..n] && Delay(k') <= Delay(k)
            && (bytes != [] && n == 0 ==> Delay(k') < Delay(k))
            && k'.Split? == k.Split? && (k.Split? ==> k'.sizes == k.sizes && Space(k') == Space(k) - n)
  {
    match k
    case Memory(_) => assert bytes[..|bytes|] == bytes;
    case Paced(data, pace, _) =>
      assert bytes[..|bytes|] == bytes;
    case Split(_, _, _, _) => SplitWriteKeeps(k, bytes);
  }

  /** The open sink takes `n` more bytes. */
  function Filled(o: Sink, bytes: seq<byte>, n: nat): Sink
    requires o.Split? && o.filled != [] && n <= |bytes| && n <= o.left
  {
    var last := |o.filled| - 1;
    o.(filled := o.filled[last := o.filled[last] + bytes[..n]], left := o.left - n)
  }

  lemma FilledKeeps(o: Sink, bytes: seq<byte>, n: nat)
    requires o.Split? && SinkGood(o) && o.open && n <= |bytes| && n <= o.left
    ensures var k := Filled(o, bytes, n);
            SinkGood(k) && Received(k) == Received(o) + bytes[..n] && Delay(k) == Delay(o) && Space(k) == Space(o) - n
  {
    var last := |o.filled| - 1;
    var before := o.filled[..last];
    assert o.filled == before + [o.filled[last]];
    assert Filled(o, bytes, n).filled == before + [o.filled[last] + bytes[..n]];
    ConcatAppend(before, o.filled[last]);
    ConcatAppend(before, o.filled[last] + bytes[..n]);
    assert Concat(before) + (o.filled[last] + bytes[..n]) == (Concat(before) + o.filled[last]) + bytes[..n];
  }

  lemma FullKeeps(o: Sink)
    requires o.Split? && SinkGood(o) && (o.open ==> o.left == 0)
    ensures var k := o.(open := false);
            SinkGood(k) && Received(k) == Received(o) && Delay(k) <= Delay(o) && Space(k) == Space(o)
            && (o.open ==> Delay(k) < Delay(o))
  {
  }

  lemma SplitWriteKeeps(k: Sink, bytes: seq<byte>)
    requires k.Split? && SinkGood(k) && |bytes| <= Space(k)
    ensures var (k', n) := Write(k, bytes);
            SinkGood(k') && Received(k') == Received(k) + bytes[..n] && Delay(k') <= Delay(k)
            && (bytes != [] && n == 0 ==> Delay(k') < Delay(k))
            && k'.Split? && k'.sizes == k.sizes && Space(k') == Space(k) - n
  {
    hide Received, SinkGood, Delay, Opened;
    OpenedKeeps(k);
    var o := Opened(k);
    OpenHasLast(o);
    if o.open && o.left > 0 {
      FilledKeeps(o, bytes, Min(|bytes|, o.left));
    } else {
      FullKeeps(o);
      assert Received(o) + [] == Received(o);
      if !o.open {
        assert o.sizes[|o.filled|..] == [];
      }
    }
  }

  lemma OpenHasLast(o: Sink)
    requires o.Split? && SinkGood(o)
    ensures |o.filled| <= |o.sizes| && (o.open ==> o.filled != [])
  {
  }

  lemma NotifyKeeps(k: Sink)
    requires SinkGood(k) && (k.Split? ==> Space(k) == 0)
    ensures var (k', acknowledged) := Notify(k);
            SinkGood(k') && Received(k') == Received(k) && Delay(k') <= Delay(k)
            && (!acknowledged ==> Delay(k') < Delay(k))
            && k'.Split? == k.Split? && (k.Split? ==> k'.sizes == k.sizes && Space(k') == 0)
            && (acknowledged && k.Split? ==> |k'.filled| == |k'.sizes| && !k'.open)
  {
    if k.Split? {
      OpenedKeeps(k);
      var o := Opened(k);
      if !k.open && |k.filled| < |k.sizes| {
        assert k.sizes[|k.filled|..][0] == k.sizes[|k.filled|];
      }
    }
  }

  // ---------------------------------------------------------------------------------------
  // The pipe
  // ---------------------------------------------------------------------------------------

  datatype State = Open | EndOfInput | NotifiedSink | Closed

  function Rank(s: State): nat {
    match s case Open => 3 case EndOfInput => 2 case NotifiedSink => 1 case Closed => 0
  }

  datatype Pipe = Pipe(source: Source, sink: Sink, buffer: seq<byte>, capacity: nat, state: State)

  function StepInput(p: Pipe): Pipe
    requires Bounded(p.source) && |p.buffer| <= p.capacity
  {
    if |p.buffer| == p.capacity then p
    else
      var (source, r) := Read(p.source, p.capacity - |p.buffer|);
      match r
      case EndOfStream => p.(source := source, state := EndOfInput)
      case Data(c) => p.(source := source, buffer := p.buffer + c)
  }

  function StepOutput(p: Pipe): Pipe
    requires SinkGood(p.sink)
    requires p.sink.Split? ==> |p.buffer| <= Space(p.sink)
    requires p.sink.Split? && p.buffer == [] && (p.state.EndOfInput? || p.state.NotifiedSink?) ==> Space(p.sink) == 0
  {
    if p.buffer != [] then
      var (sink, n) := Write(p.sink, p.buffer);
      p.(sink := sink, buffer := p.buffer[n..])
    else if p.state.EndOfInput? || p.state.NotifiedSink? then
      var (sink, acknowledged) := Notify(p.sink);
      if acknowledged then p.(sink := sink, state := Closed)
      else p.(sink := sink, state := NotifiedSink)
    else p
  }

  /** The invariant of a pipe; a split sink has room for exactly what is still to come. */
  ghost predicate PipeGood(p: Pipe) {
    && Good(p.source) && SinkGood(p.sink)
    && |p.buffer| <= p.capacity && p.capacity >= 1
    && (!p.state.Open? ==> AtEnd(p.source))
    && (p.state.Closed? ==> p.buffer == [])
    && (p.sink.Split? ==> Space(p.sink) == |p.buffer| + |Denote(p.source)|)
    && (p.state.Closed? && p.sink.Split? ==> |p.sink.filled| == |p.sink.sizes| && !p.sink.open)
  }

  /** Delivered, buffered and unread bytes, together the whole stream at every step. */
  function Stream(p: Pipe): seq<byte>
    requires Bounded(p.source)
  {
    Received(p.sink) + p.buffer + Denote(p.source)
  }

  function PipeWork(p: Pipe): nat
    requires Bounded(p.source)
  {
    2 * Work(p.source) + |p.buffer| + Delay(p.sink) + Rank(p.state)
  }

  function Step(p: Pipe): Pipe
    requires PipeGood(p)
  {
    var q := if p.state.Open? then StepInput(p) else p;
    StepInputKeeps(p);
    EndLeavesNothing(q.source);
    StepOutput(q)
  }

  lemma EndLeavesNothing(s: Source)
    requires Good(s)
    ensures AtEnd(s) ==> Denote(s) == []
  {
    if AtEnd(s) {
      EndDenotesNothing(s);
    }
  }

  lemma StepInputKeeps(p: Pipe)
    requires PipeGood(p)
    ensures p.state.Open? ==>
              var q := StepInput(p);
              PipeGood(q) && Stream(q) == Stream(p) && PipeWork(q) <= PipeWork(p) && Rank(q.state) <= Rank(p.state)
              && q.sink == p.sink && q.capacity == p.capacity && !q.state.Closed?
              && (q.buffer == [] ==> PipeWork(q) < PipeWork(p))
  {
    hide Denote, Good, Read, AtEnd, Work;
    if p.state.Open? && |p.buffer| < p.capacity {
      GoodIsBounded(p.source);
      ReadKeeps(p.source, p.capacity - |p.buffer|);
      var (source, r) := Read(p.source, p.capacity - |p.buffer|);
      if r.Data? {
        assert Received(p.sink) + (p.buffer + r.bytes) + Denote(source) == Received(p.sink) + p.buffer + (r.bytes + Denote(source));
      }
    }
  }

  lemma OutputAllowed(q: Pipe)
    requires PipeGood(q)
    ensures q.sink.Split? ==> |q.buffer| <= Space(q.sink)
    ensures q.sink.Split? && q.buffer == [] && (q.state.EndOfInput? || q.state.NotifiedSink?) ==> Space(q.sink) == 0
  {
    hide Denote, Good, AtEnd, SinkGood, Space;
    EndLeavesNothing(q.source);
  }

  lemma WritingKeeps(q: Pipe)
    requires PipeGood(q) && !q.state.Closed? && q.buffer != []
    ensures q.sink.Split? ==> |q.buffer| <= Space(q.sink)
    ensures var (sink, n) := Write(q.sink, q.buffer);
            var t := q.(sink := sink, buffer := q.buffer[n..]);
            PipeGood(t) && Stream(t) == Stream(q) && PipeWork(t) < PipeWork(q)
            && t.sink.Split? == q.sink.Split? && (q.sink.Split? ==> t.sink.sizes == q.sink.sizes)
  {
    hide Denote, Good, AtEnd, Write, SinkGood, Space, Delay, Received, Work;
    OutputAllowed(q);
    WriteKeeps(q.sink, q.buffer);
    var (sink, n) := Write(q.sink, q.buffer);
    assert q.buffer == q.buffer[..n] + q.buffer[n..];
    assert (Received(q.sink) + q.buffer[..n]) + q.buffer[n..] == Received(q.sink) + q.buffer;
  }

  lemma NotifyingKeeps(q: Pipe)
    requires PipeGood(q) && q.buffer == [] && (q.state.EndOfInput? || q.state.NotifiedSink?)
    ensures q.sink.Split? ==> Space(q.sink) == 0
    ensures var (sink, acknowledged) := Notify(q.sink);
            var t := q.(sink := sink, state := if acknowledged then Closed else NotifiedSink);
            PipeGood(t) && Stream(t) == Stream(q) && PipeWork(t) < PipeWork(q)
            && t.sink.Split? == q.sink.Split? && (q.sink.Split? ==> t.sink.sizes == q.sink.sizes)
  {
    hide Denote, Good, AtEnd, Notify, SinkGood, Space, Delay, Received, Work;
    OutputAllowed(q);
    NotifyKeeps(q.sink);
    EndLeavesNothing(q.source);
  }

  lemma StepOutputKeeps(q: Pipe)
    requires PipeGood(q) && !q.state.Closed?
    ensures q.sink.Split? ==> |q.buffer| <= Space(q.sink)
    ensures q.sink.Split? && q.buffer == [] && (q.state.EndOfInput? || q.state.NotifiedSink?) ==> Space(q.sink) == 0
    ensures var t := StepOutput(q);
            PipeGood(t) && Stream(t) == Stream(q) && PipeWork(t) <= PipeWork(q) && Rank(t.state) <= Rank(q.state)
            && t.capacity == q.capacity && t.source == q.source && t.sink.Split? == q.sink.Split?
            && (q.sink.Split? ==> t.sink.sizes == q.sink.sizes)
            && (q.buffer != [] || !q.state.Open? ==> PipeWork(t) < PipeWork(q))
  {
    hide PipeGood, Stream, PipeWork, Write, Notify;
    OutputAllowed(q);
    if q.buffer != [] {
      WritingKeeps(q);
    } else if q.state.EndOfInput? || q.state.NotifiedSink? {
      NotifyingKeeps(q);
    }
  }

  /** Every step keeps the stream, only moves the state forward, and comes closer to the end. */
  lemma StepKeeps(p: Pipe)
    requires PipeGood(p) && !p.state.Closed?
    ensures var q := Step(p);
            PipeGood(q) && Stream(q) == Stream(p) && Rank(q.state) <= Rank(p.state) && PipeWork(q) < PipeWork(p)
            && q.sink.Split? == p.sink.Split? && (p.sink.Split? ==> q.sink.sizes == p.sink.sizes)
  {
    hide Stream, PipeWork, StepInput, StepOutput, Good, SinkGood, AtEnd, Space, Denote;
    GoodIsBounded(p.source);
    StepInputKeeps(p);
    if p.state.Open? {
      var q := StepInput(p);
      StepOutputKeeps(q);
    } else {
      StepOutputKeeps(p);
    }
  }

  /** The pipe run until it is closed. */
  function Process(p: Pipe): Pipe
    requires PipeGood(p)
    decreases PipeWork(p)
  {
    if p.state.Closed? then p
    else
      StepKeeps(p);
      Process(Step(p))
  }

  /** Every run ends closed, with the sink holding what it had and then the whole source. */
  lemma {:induction false} ProcessDelivers(p: Pipe)
    requires PipeGood(p)
    ensures var q := Process(p);
            PipeGood(q) && q.state.Closed? && AtEnd(q.source) && q.buffer == []
            && Received(q.sink) == Stream(p)
            && q.sink.Split? == p.sink.Split? && (p.sink.Split? ==> q.sink.sizes == p.sink.sizes)
    decreases PipeWork(p)
  {
    hide Step, Stream;
    if p.state.Closed? {
      ClosedDelivered(p);
    } else {
      StepKeeps(p);
      ProcessDelivers(Step(p));
    }
  }

  lemma ClosedDelivered(p: Pipe)
    requires PipeGood(p) && p.state.Closed?
    ensures Received(p.sink) == Stream(p)
  {
    EndLeavesNothing(p.source);
  }

  /** The pieces of `x` of the given sizes, in order. */
  function Pieces(x: seq<byte>, sizes: seq<nat>): seq<seq<byte>>
    requires Total(sizes) == |x|
    decreases |sizes|
  {
    if sizes == [] then [] else [x[..sizes[0]]] + Pieces(x[sizes[0]..], sizes[1..])
  }

  lemma {:induction false} PiecesOf(parts: seq<seq<byte>>, sizes: seq<nat>)
    requires |parts| == |sizes| && forall i :: 0 <= i < |parts| ==> |parts[i]| == sizes[i]
    ensures Total(sizes) == |Concat(parts)| && Pieces(Concat(parts), sizes) == parts
    decreases |parts|
  {
    if parts != [] {
      PiecesOf(parts[1..], sizes[1..]);
      var x := Concat(parts);
      assert x[..sizes[0]] == parts[0] && x[sizes[0]..] == Concat(parts[1..]);
    }
  }

  ghost function SplitPipe(source: Source, sizes: seq<nat>, capacity: nat): Pipe {
    Pipe(source, Split(sizes, [], 0, false), [], capacity, Open)
  }

  lemma SplitPipeGood(source: Source, sizes: seq<nat>, capacity: nat)
    requires Good(source) && capacity >= 1 && Total(sizes) == |Denote(source)|
    ensures var p := SplitPipe(source, sizes, capacity); PipeGood(p) && Stream(p) == Denote(source)
  {
    hide Good, Denote;
    assert sizes[0..] == sizes;
  }

  /** Into fixed-size sinks whose sizes add up to the length, the split is exact. */
  lemma SplitIsExact(source: Source, sizes: seq<nat>, capacity: nat)
    requires Good(source) && capacity >= 1 && Total(sizes) == |Denote(source)|
    ensures var p := SplitPipe(source, sizes, capacity);
            PipeGood(p) && var k := Process(p).sink;
            k.Split? && k.filled == Pieces(Denote(source), sizes)
  {
    hide Process, Good, Denote, SplitPipe, Stream;
    SplitPipeGood(source, sizes, capacity);
    var p := SplitPipe(source, sizes, capacity);
    ProcessDelivers(p);
    var k := Process(p).sink;
    assert k.Split? && k.sizes == sizes by { SplitPipeSink(source, sizes, capacity); }
    PiecesOf(k.filled, sizes);
  }

  lemma SplitPipeSink(source: Source, sizes: seq<nat>, capacity: nat)
    ensures var k := SplitPipe(source, sizes, capacity).sink; k.Split? && k.sizes == sizes
  {
  }

  /** Into a memory buffer, the pipe copies the source. */
  lemma CopyIsExact(source: Source, capacity: nat)
    requires Good(source) && capacity >= 1
    ensures var p := Pipe(source, Memory([]), [], capacity, Open);
            PipeGood(p) && var q := Process(p);
            Received(q.sink) == Denote(source) && AtEnd(q.source) && q.state.Closed?
  {
    hide Process;
    var p := Pipe(source, Memory([]), [], capacity, Open);
    assert Stream(p) == Denote(source);
    ProcessDelivers(p);
  }

  /** Counters and digests in the source come out of a whole run as they come out of every read. */
  lemma {:induction false} ProcessEvolves(p: Pipe)
    requires PipeGood(p)
    ensures Bounded(p.source) && Bounded(Process(p).source) && Evolved(p.source, Process(p).source)
    decreases PipeWork(p)
  {
    hide Step, Stream, Evolved, Good;
    GoodIsBounded(p.source);
    if p.state.Closed? {
      EvolvedSame(p.source);
    } else {
      StepKeeps(p);
      var q := Step(p);
      StepEvolves(p);
      ProcessEvolves(q);
      GoodIsBounded(q.source);
      EvolvedTransitive(p.source, q.source, Process(p).source);
    }
  }

  lemma StepEvolves(p: Pipe)
    requires PipeGood(p) && !p.state.Closed?
    ensures Bounded(p.source) && Bounded(Step(p).source) && Evolved(p.source, Step(p).source)
  {
    hide Evolved, Good, Read, StepOutput, AtEnd, Denote;
    GoodIsBounded(p.source);
    EvolvedSame(p.source);
    var q := if p.state.Open? then StepInput(p) else p;
    StepInputKeeps(p);
    if p.state.Open? && |p.buffer| < p.capacity {
      ReadEvolves(p.source, p.capacity - |p.buffer|);
    }
    StepOutputKeeps(q);
  }

  /** A pipe's source is never asked for more than the pipe's buffer holds. */
  lemma {:induction false} ProcessWithin(p: Pipe)
    requires PipeGood(p) && Within(p.source, p.capacity)
    ensures Within(Process(p).source, p.capacity)
    decreases PipeWork(p)
  {
    hide Step, Stream, Within, Good;
    if !p.state.Closed? {
      StepKeeps(p);
      StepWithin(p);
      ProcessWithin(Step(p));
    }
  }

  lemma StepWithin(p: Pipe)
    requires PipeGood(p) && !p.state.Closed? && Within(p.source, p.capacity)
    ensures Step(p).capacity == p.capacity && Within(Step(p).source, p.capacity)
  {
    hide Within, Good, Read, StepOutput, AtEnd, Denote;
    GoodIsBounded(p.source);
    var q := if p.state.Open? then StepInput(p) else p;
    StepInputKeeps(p);
    if p.state.Open? && |p.buffer| < p.capacity {
      ReadStaysWithin(p.source, p.capacity, p.capacity - |p.buffer|);
    }
    StepOutputKeeps(q);
  }

  /**
   Several sources one after the other: the sink gets the concatenation, and each source is begun
   and ended exactly once, in order.
   */
  lemma MultipleIsConcatenation(sources: seq<Source>, capacity: nat)
    requires AllBounded(sources) && AllGood(sources) && capacity >= 1
    ensures var p := Pipe(Multiple([], sources, true, []), Memory([]), [], capacity, Open);
            PipeGood(p) && var q := Process(p);
            Received(q.sink) == DenoteAll(sources) && q.source.Multiple? && q.source.events == EventsUpTo(|sources|)
  {
    hide Process, Good, AllGood, DenoteAll;
    var s := Multiple([], sources, true, []);
    FreshMultipleGood(sources);
    CopyIsExact(s, capacity);
    var p := Pipe(s, Memory([]), [], capacity, Open);
    ProcessDelivers(p);
    ProcessEvolves(p);
    AllEvent(s, Process(p).source);
  }

  lemma FreshMultipleGood(sources: seq<Source>)
    requires AllBounded(sources) && AllGood(sources)
    ensures var s := Multiple([], sources, true, []); Good(s) && Denote(s) == DenoteAll(sources)
  {
  }

  lemma AllEvent(s: Source, t: Source)
    requires s.Multiple? && s.done == [] && Bounded(s) && Bounded(t) && Evolved(s, t) && Good(t) && AtEnd(t)
    ensures t.Multiple? && t.events == EventsUpTo(|s.rest|)
  {
    AllEvolvedLength(s.rest, t.done[0..] + t.rest);
    assert EventsUpTo(|t.done|) + [] == EventsUpTo(|t.done|);
  }

  lemma AllEvolvedLength(s: seq<Source>, t: seq<Source>)
    requires AllBounded(s) && AllBounded(t) && AllEvolved(s, t)
    ensures |s| == |t|
  {
  }
}
