/**
 Pipes and multiple sinks in their own form (src/tbx/streams/data_pipe.h, data_source.h): objects
 stepped inside while loops, proved equal to the state machines of module Pipes.
 */
module Transfer {
  import opened Bytes
  import opened Buffers
  import opened Filters
  import opened Streams
  import opened Pipes

  /** A `multiple_data_sink` with the fixed-size policy; `sinks` holds what each sink has taken. */
  class FixedSizeSinks {
    const sizes: seq<nat>
    var sinks: seq<seq<byte>>
    var leftAmount: nat
    var hasSink: bool

    ghost function Model(): (k: Sink)
      reads this
      ensures k.Split?
    {
      Split(sizes, sinks, leftAmount, hasSink)
    }

    constructor (sizes: seq<nat>)
      ensures Model() == Split(sizes, [], 0, false)
    {
      this.sizes := sizes;
      sinks, leftAmount, hasSink := [], 0, false;
    }

    /** `buildNext`: a further sink, if a size is left for one. */
    method BuildNext() returns (built: bool)
      requires !hasSink
      modifies this
      ensures Model() == Opened(old(Model())) && built == hasSink
    {
      built := |sinks| < |sizes|;
      if built {
        leftAmount := sizes[|sinks|];
        sinks := sinks + [[]];
        hasSink := true;
      }
    }

    /** `availableToWrite`: how much the current sink still takes, or the sentinel when it is full. */
    method AvailableToWrite(requested: nat) returns (available: ReadResult, n: nat)
      modifies this`leftAmount
      ensures old(leftAmount) == 0 ==> available.EndOfStream? && leftAmount == 0
      ensures old(leftAmount) > 0 ==> available.Data? && n == Min(requested, old(leftAmount)) && leftAmount == old(leftAmount) - n
    {
      available, n := EndOfStream, 0;
      if leftAmount != 0 {
        n := Min(requested, leftAmount);
        leftAmount := leftAmount - n;
        available := Data([]);
      }
    }

    method Write(bytes: seq<byte>) returns (n: nat)
      requires SinkGood(Model()) && |bytes| <= Space(Model())
      modifies this
      ensures (Model(), n) == Pipes.Write(old(Model()), bytes)
    {
      hide Space;
      n := 0;
      if !hasSink {
        var built := BuildNext();
        if !built {
          return;
        }
      }
      assert |sinks| > 0;
      var available;
      available, n := AvailableToWrite(|bytes|);
      if available.EndOfStream? {
        hasSink, n := false, 0;
      } else {
        var last := |sinks| - 1;
        sinks := sinks[last := sinks[last] + bytes[..n]];
      }
    }

    /** The same call with the end-of-stream sentinel for an amount. */
    method Notify() returns (acknowledged: bool)
      requires SinkGood(Model()) && Space(Model()) == 0
      modifies this
      ensures (Model(), acknowledged) == Pipes.Notify(old(Model()))
    {
      acknowledged := false;
      if !hasSink {
        var built := BuildNext();
        if !built {
          return true;
        }
      }
      hasSink := false;
    }
  }

  /** A `passthrough_pipe`. */
  class PassthroughPipe {
    var source: Source
    var sink: Sink
    const buffer: MemoryBuffer
    var state: State

    ghost predicate Valid()
      reads this, buffer
    {
      buffer.Valid()
    }

    ghost function Model(): Pipe
      requires Valid()
      reads this, buffer, buffer.data
    {
      Pipe(source, sink, buffer.Contents(), buffer.data.Length, state)
    }

    constructor (source: Source, sink: Sink, capacity: nat)
      ensures Valid() && fresh(buffer) && fresh(buffer.data)
      ensures Model() == Pipe(source, sink, [], capacity, Open)
    {
      this.source, this.sink := source, sink;
      buffer := new MemoryBuffer(capacity);
      state := Open;
    }

    method StepInput()
      requires Valid() && Bounded(source)
      modifies this`source, this`state, buffer`size, buffer.data
      ensures Valid() && Model() == Pipes.StepInput(old(Model()))
    {
      hide Bounded, Read;
      var available := buffer.Available();
      if available > 0 {
        var (next, r) := Read(source, available);
        source := next;
        match r {
          case EndOfStream => state := EndOfInput;
          case Data(bytes) => buffer.Append(bytes);
        }
      }
    }

    method StepOutput()
      requires Valid() && SinkGood(sink) && (sink.Split? ==> buffer.size <= Space(sink))
      requires sink.Split? && buffer.size == 0 && (state.EndOfInput? || state.NotifiedSink?) ==> Space(sink) == 0
      modifies this`sink, this`state, buffer`size, buffer.data
      ensures Valid() && Model() == Pipes.StepOutput(old(Model()))
    {
      hide Write, Notify, SinkGood, Space;
      if buffer.size != 0 {
        var bytes := buffer.Peek(buffer.size);
        assert bytes == buffer.Contents();
        var (next, n) := Write(sink, bytes);
        sink := next;
        buffer.Consume(n);
      } else if state.EndOfInput? || state.NotifiedSink? {
        var (next, acknowledged) := Notify(sink);
        sink := next;
        if !acknowledged {
          state := NotifiedSink;
        } else {
          state := Closed;
        }
      }
    }

    method Step()
      requires Valid() && PipeGood(Model()) && !state.Closed?
      modifies this`source, this`sink, this`state, buffer`size, buffer.data
      ensures Valid() && Model() == Pipes.Step(old(Model()))
    {
      hide Pipes.StepInput, Pipes.StepOutput, Bounded, Good, SinkGood, Space, AtEnd, Denote;
      ghost var p := Model();
      GoodIsBounded(p.source);
      StepInputKeeps(p);
      if state.Open? {
        StepInput();
      }
      OutputAllowed(Model());
      StepOutput();
    }

    /** Steps until the pipe is closed: everything in the source has then reached the sink. */
    method Process()
      requires Valid() && PipeGood(Model())
      modifies this`source, this`sink, this`state, buffer`size, buffer.data
      ensures Valid() && Model() == Pipes.Process(old(Model()))
      ensures state.Closed? && Received(sink) == Stream(old(Model()))
    {
      hide PipeGood, Pipes.Step, Stream, PipeWork;
      PipeIsBounded(Model());
      ProcessDelivers(Model());
      while !state.Closed?
        invariant Valid() && PipeGood(Model()) && Bounded(source) && Pipes.Process(Model()) == Pipes.Process(old(Model()))
        decreases PipeWork(Model())
      {
        StepKeeps(Model());
        PipeIsBounded(Pipes.Step(Model()));
        Step();
      }
    }

    /**
     Steps until the sink has taken `required` more bytes, or everything: nothing is lost either
     way, and what has been taken is a prefix of the stream.
     */
    method ProcessSome(required: nat)
      requires Valid() && PipeGood(Model())
      modifies this`source, this`sink, this`state, buffer`size, buffer.data
      ensures Valid() && PipeGood(Model()) && Stream(Model()) == Stream(old(Model()))
      ensures Pipes.Process(Model()) == Pipes.Process(old(Model()))
      ensures state.Closed? || |Received(sink)| >= |Received(old(sink))| + required
    {
      hide PipeGood, Pipes.Step, Stream, PipeWork, Received, Pipes.StepInput, Pipes.StepOutput;
      PipeIsBounded(Model());
      var size := 0;
      while !state.Closed?
        invariant Valid() && PipeGood(Model()) && Bounded(source) && Stream(Model()) == Stream(old(Model()))
        invariant Pipes.Process(Model()) == Pipes.Process(old(Model()))
        invariant |Received(sink)| == |Received(old(sink))| + size
        decreases PipeWork(Model())
      {
        ghost var p := Model();
        StepKeeps(p);
        PipeIsBounded(Pipes.Step(p));
        StepParts(p);
        if state.Open? {
          StepInput();
        }
        var availableOutput := buffer.size;
        StepOutput();
        size := size + (availableOutput - buffer.size);
        if size >= required {
          break;
        }
      }
    }
  }

  lemma PipeIsBounded(p: Pipe)
    requires PipeGood(p)
    ensures Bounded(p.source)
  {
    GoodIsBounded(p.source);
  }

  /** A step by its two halves: what leaves the buffer reaches the sink. */
  lemma StepParts(p: Pipe)
    requires PipeGood(p) && !p.state.Closed?
    ensures Bounded(p.source)
    ensures var q := if p.state.Open? then StepInput(p) else p;
            SinkGood(q.sink) && (q.sink.Split? ==> |q.buffer| <= Space(q.sink))
            && (q.sink.Split? && q.buffer == [] && (q.state.EndOfInput? || q.state.NotifiedSink?) ==> Space(q.sink) == 0)
            && Step(p) == StepOutput(q)
            && |Received(Step(p).sink)| + |Step(p).buffer| == |Received(p.sink)| + |q.buffer|
  {
    hide StepInput, Good, SinkGood, Space, AtEnd, Denote, Write, Notify, Received, Work, Delay;
    GoodIsBounded(p.source);
    StepInputKeeps(p);
    var q := if p.state.Open? then StepInput(p) else p;
    OutputAllowed(q);
    if q.buffer != [] {
      WriteKeeps(q.sink, q.buffer);
    } else if q.state.EndOfInput? || q.state.NotifiedSink? {
      NotifyKeeps(q.sink);
    }
  }
}
