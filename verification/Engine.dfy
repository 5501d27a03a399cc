/**
 The streaming engine in its own form: objects that move bytes between bounded buffers and flip
 flags (src/tbx/streams/data_filter.h, data_source.h, data_pipe.h and src/filters/filters.h).
 Every method is proved equal to the step function of the same name on the state machines.
 */
module Engine {
  import opened Bytes
  import opened Buffers
  import opened Filters
  import opened Streams

  /** A `data_filter`: two bounded buffers, the flags, and the state of a xor or a skip filter. */
  class DataFilter {
    const input: MemoryBuffer
    const output: MemoryBuffer
    const capacity: nat
    var started: bool
    var ended: bool
    var finished: bool
    var kind: Kind

    ghost predicate Valid()
      reads this, input, output
    {
      && input != output && input.data != output.data
      && input.Valid() && output.Valid()
      && input.data.Length == output.data.Length == capacity
    }

    ghost function Model(): Filter
      requires Valid()
      reads this, input, output, input.data, output.data
    {
      Filter(input.Contents(), output.Contents(), capacity, started, ended, finished, kind)
    }

    constructor (capacity: nat, kind: Kind)
      ensures Valid() && fresh(input) && fresh(output) && fresh(input.data) && fresh(output.data)
      ensures Model() == Filter([], [], capacity, false, false, false, kind)
    {
      input := new MemoryBuffer(capacity);
      output := new MemoryBuffer(capacity);
      this.capacity := capacity;
      started, ended, finished := false, false, false;
      this.kind := kind;
    }

    /** Up to `amount` bytes from the input to the output. */
    method PassThrough(amount: nat) returns (n: nat)
      requires Valid()
      modifies input`size, output`size, input.data, output.data
      ensures Valid() && (Model(), n) == Filters.PassThrough(old(Model()), amount)
    {
      n := Min(Min(input.size, output.Available()), amount);
      if n > 0 {
        var bytes := input.Peek(n);
        input.Consume(n);
        output.Append(bytes);
      } else {
        ghost var f := Model();
        assert f.input[0..] == f.input && f.output + f.input[..0] == f.output;
      }
    }

    /** The xor filter: the bytes are copied over and combined with the key where they are. */
    method ProcessXor()
      requires Valid() && kind.Xor? && kind.counter < |kind.key|
      modifies this`finished, this`kind, input`size, output`size, input.data, output.data
      ensures Valid() && Model() == XorProcess(old(Model()))
    {
      hide XorByte, XorKey, Turn;
      var n := Min(input.size, output.Available());
      var counter := CombineOver(n);
      input.Consume(n);
      kind := kind.(counter := counter);
      if ended && input.size == 0 && output.size == 0 {
        finished := true;
      }
    }

    /** `n` bytes of the input copied to the output, combined with the key. */
    method CombineOver(n: nat) returns (counter: nat)
      requires Valid() && kind.Xor? && kind.counter < |kind.key| && n <= input.size && n <= output.Available()
      modifies output`size, output.data
      ensures Valid() && counter == Turn(kind.counter, n, |kind.key|)
      ensures output.Contents() == old(output.Contents()) + XorKey(input.Contents()[..n], kind.key, kind.counter)
    {
      hide XorByte, XorKey, Turn;
      var bytes := input.Peek(n);
      ghost var kept := output.Contents();
      output.Append(bytes);
      var at := output.size - n;
      assert output.data[..at] == kept && output.data[at..at + n] == bytes by { Cut(output.data[..at + n], kept, bytes); }
      counter := XorInPlace(output.data, at, n, kind.key, kind.counter);
      assert output.Contents() == output.data[..at] + output.data[at..at + n];
    }

    /** The skip filter, which calls itself until it runs out of input or of room. */
    method ProcessSkip()
      requires Valid() && SkipInRange(Model()) && SkipAdvances(Model())
      modifies this`finished, this`kind, input`size, output`size, input.data, output.data
      ensures Valid() && Model() == SkipProcess(old(Model()))
      decreases input.size
    {
      LevelAdvances(Model());
      var again := SkipOnce();
      if again {
        ProcessSkip();
      } else {
        var k := kind;
        finished := k.skipped == k.toSkip && k.passed >= k.toPass && input.size == 0 && output.size == 0 && ended;
      }
    }

    /** One activation of the skip filter's `process`; does it call itself again? */
    method SkipOnce() returns (again: bool)
      requires Valid() && SkipInRange(Model())
      modifies this`kind, input`size, output`size, input.data, output.data
      ensures Valid() && (Model(), again) == SkipLevel(old(Model()))
    {
      hide MemoryBuffer.Contents, PassAfter, PassBefore, SkipSome;
      if kind.position < kind.offset {
        again := PassUpTo();
      } else if kind.skipped == kind.toSkip {
        again := SkipNoMore();
      } else {
        again := SkipAhead();
      }
    }

    /** Before the offset. */
    method PassUpTo() returns (again: bool)
      requires Valid() && SkipInRange(Model()) && kind.position < kind.offset
      modifies this`kind, input`size, output`size, input.data, output.data
      ensures Valid() && (Model(), again) == PassBefore(old(Model()))
    {
      hide MemoryBuffer.Contents, Filters.PassThrough;
      var k := kind;
      ghost var f := Model();
      var n := PassThrough(Min(input.size, k.offset - k.position));
      assert Model() == Filters.PassThrough(f, Min(|f.input|, k.offset - k.position)).0;
      kind := k.(position := k.position + n);
      again := input.size != 0;
    }

    method SkipAhead() returns (again: bool)
      requires Valid() && SkipInRange(Model())
      modifies this`kind, input`size, input.data
      ensures Valid() && (Model(), again) == SkipSome(old(Model()))
    {
      var k := kind;
      var n := Min(k.toSkip - k.skipped, input.size);
      input.Consume(n);
      kind := k.(skipped := k.skipped + n);
      again := n > 0 && input.size != 0;
    }

    /** Everything to skip is skipped. */
    method SkipNoMore() returns (again: bool)
      requires Valid() && SkipInRange(Model())
      modifies this`kind, input`size, output`size, input.data, output.data
      ensures Valid() && (Model(), again) == PassAfter(old(Model()))
    {
      if kind.passed < kind.toPass {
        PassLimited();
      } else if kind.toPass != 0 {
        Discard();
      } else {
        PassAll();
      }
      again := output.Available() > 0 && input.size != 0;
    }

    method PassLimited()
      requires Valid() && kind.Skip? && SkipInRange(Model()) && kind.passed < kind.toPass
      modifies this`kind, input`size, output`size, input.data, output.data
      ensures Valid() && Model() == PassAfter(old(Model())).0
    {
      hide MemoryBuffer.Contents, Filters.PassThrough, SkipInRange;
      var k := kind;
      ghost var f := Model();
      var n := PassThrough(k.toPass - k.passed);
      assert Model() == Filters.PassThrough(f, k.toPass - k.passed).0;
      kind := k.(passed := k.passed + n, position := k.position + n);
    }

    method Discard()
      requires Valid() && kind.Skip? && SkipInRange(Model()) && kind.passed >= kind.toPass != 0
      modifies this`kind, input`size, output`size, input.data, output.data
      ensures Valid() && Model() == PassAfter(old(Model())).0
    {
      var k := kind;
      var n := input.size;
      input.Consume(n);
      kind := k.(position := k.position + n);
    }

    method PassAll()
      requires Valid() && kind.Skip? && SkipInRange(Model()) && kind.passed >= kind.toPass == 0
      modifies this`kind, input`size, output`size, input.data, output.data
      ensures Valid() && Model() == PassAfter(old(Model())).0
    {
      hide MemoryBuffer.Contents, Filters.PassThrough, SkipInRange;
      var k := kind;
      ghost var f := Model();
      var n := PassThrough(input.size);
      assert Model() == Filters.PassThrough(f, |f.input|).0;
      kind := k.(position := k.position + n);
    }

    method Process()
      requires Valid() && InBounds(Model()) && started
      modifies this`finished, this`kind, input`size, output`size, input.data, output.data
      ensures Valid() && Model() == Filters.Process(old(Model()))
    {
      if kind.Xor? {
        ProcessXor();
      } else {
        ProcessSkip();
      }
    }
  }

  /** A `source_filter`: what it reads from, and the filter it feeds. */
  class SourceFilter {
    var upstream: Source
    const filter: DataFilter

    ghost predicate Valid()
      reads this, filter, filter.input, filter.output, filter.input.data, filter.output.data
    {
      filter.Valid() && Bounded(upstream) && InBounds(filter.Model())
    }

    ghost function Model(): Source
      requires Valid()
      reads this, filter, filter.input, filter.output, filter.input.data, filter.output.data
    {
      Filtered(upstream, filter.Model())
    }

    constructor (upstream: Source, capacity: nat, kind: Kind)
      requires Bounded(upstream) && InBounds(Filter([], [], capacity, false, false, false, kind))
      ensures Valid() && fresh(filter) && fresh(filter.input) && fresh(filter.output)
      ensures fresh(filter.input.data) && fresh(filter.output.data)
      ensures Model() == Filtered(upstream, Filter([], [], capacity, false, false, false, kind))
    {
      this.upstream := upstream;
      filter := new DataFilter(capacity, kind);
    }

    /** `init` and `start`, on the first read. */
    method Begin()
      requires Valid()
      modifies filter`started, filter`kind
      ensures filter.Valid() && filter.Model() == Begun(old(filter.Model()))
    {
      if !filter.started {
        if filter.kind.Skip? {
          filter.kind := filter.kind.(skipped := 0);
        }
        filter.started := true;
      }
    }

    method FetchInput()
      requires Valid()
      modifies this`upstream, filter`ended, filter.input`size, filter.input.data
      ensures Valid()
      ensures var f := old(filter.Model());
              if |f.input| < f.capacity
              then
                var (s, r) := Streams.Read(old(upstream), f.capacity - |f.input|);
                upstream == s && filter.Model() == Fetched(f, r)
              else upstream == old(upstream) && filter.Model() == f
    {
      hide InBounds, Bounded, Streams.Read;
      if filter.input.Available() > 0 {
        var (s, r) := Streams.Read(upstream, filter.input.Available());
        FetchedInBounds(filter.Model(), r);
        upstream := s;
        match r {
          case EndOfStream => filter.ended := true;
          case Data(bytes) => filter.input.Append(bytes);
        }
      }
    }

    /** Up to `amount` bytes of the output, and `dumpOutput`'s aftermath: end of stream or not. */
    method DumpOutput(amount: nat) returns (r: ReadResult)
      requires filter.Valid()
      modifies filter.input`size, filter.output`size, filter.input.data, filter.output.data
      ensures filter.Valid() && (filter.Model(), r) == Dump(old(filter.Model()), amount)
    {
      var n := Min(filter.output.size, amount);
      var bytes := filter.output.Peek(n);
      filter.output.Consume(n);
      if filter.ended && filter.finished {
        filter.input.Consume(filter.input.size);
      }
      if n == 0 && filter.ended && filter.input.size == 0 && filter.output.size == 0 && filter.finished {
        r := EndOfStream;
      } else {
        r := Data(bytes);
      }
    }

    method Read(amount: nat) returns (r: ReadResult)
      requires Valid()
      modifies this`upstream, filter`started, filter`ended, filter`finished, filter`kind
      modifies filter.input`size, filter.output`size, filter.input.data, filter.output.data
      ensures Valid() && (Model(), r) == Streams.Read(old(Model()), amount)
    {
      hide InBounds, Bounded, Filters.Process, Dump, Begun, Fetched, Streams.Read, MemoryBuffer.Contents;
      ghost var inner, f := upstream, filter.Model();
      BegunInBounds(f);
      Begin();
      FetchInput();
      ghost var g := filter.Model();
      if !filter.finished && (filter.input.size != 0 || filter.output.Available() > 0) {
        filter.Process();
      }
      assert filter.Model() == Processed(g);
      r := DumpOutput(amount);
      ReadFiltered(inner, f, amount);
    }
  }

  lemma ReadFiltered(inner: Source, filter: Filter, amount: nat)
    requires Bounded(inner) && InBounds(filter)
    ensures InBounds(Begun(filter)) && Begun(filter).started
    ensures var f := Begun(filter);
            var s := if |f.input| < f.capacity then Streams.Read(inner, f.capacity - |f.input|).0 else inner;
            var g := if |f.input| < f.capacity then Fetched(f, Streams.Read(inner, f.capacity - |f.input|).1) else f;
            InBounds(g) && g.started
            && Streams.Read(Filtered(inner, filter), amount) == (Filtered(s, Drained(g, amount).0), Drained(g, amount).1)
  {
    hide Drained, Fetched, InBounds;
    BegunInBounds(filter);
    var f := Begun(filter);
    if |f.input| < f.capacity {
      FetchedInBounds(f, Streams.Read(inner, f.capacity - |f.input|).1);
    }
  }

  /** Reads of `size` bytes until the end of the stream. */
  method Drain(source: SourceFilter, size: nat) returns (bytes: seq<byte>)
    requires source.Valid() && Good(source.Model()) && size >= 1
    modifies source`upstream, source.filter`started, source.filter`ended, source.filter`finished, source.filter`kind
    modifies source.filter.input`size, source.filter.output`size, source.filter.input.data, source.filter.output.data
    ensures source.Valid() && Good(source.Model()) && AtEnd(source.Model())
    ensures bytes == Denote(old(source.Model()))
  {
    hide Good, Denote, AtEnd, Streams.Read, Bounded, InBounds, Work;
    bytes := [];
    GoodIsBounded(source.Model());
    var r := Data([]);
    while r.Data?
      invariant source.Valid() && Good(source.Model()) && Bounded(source.Model())
      invariant Denote(old(source.Model())) == bytes + Denote(source.Model())
      invariant r.EndOfStream? ==> AtEnd(source.Model()) && Denote(source.Model()) == []
      decreases r.Data?, Work(source.Model())
    {
      ghost var s := source.Model();
      ReadKeeps(s, size);
      r := source.Read(size);
      GoodIsBounded(source.Model());
      if r.Data? {
        assert (bytes + r.bytes) + Denote(source.Model()) == bytes + (r.bytes + Denote(source.Model()));
        bytes := bytes + r.bytes;
      }
    }
  }

  /** A `multiple_data_source`: the sources, which one is current, and the callbacks made. */
  class MultipleSource {
    var sources: seq<Source>
    var current: nat
    var pristine: bool
    var events: seq<Event>

    ghost predicate Valid()
      reads this
    {
      AllBounded(sources) && current <= |sources|
    }

    ghost function Model(): (s: Source)
      requires Valid()
      reads this
      ensures Bounded(s)
    {
      Multiple(sources[..current], sources[current..], pristine, events)
    }

    constructor (sources: seq<Source>)
      requires AllBounded(sources)
      ensures Valid() && Model() == Multiple([], sources, true, [])
    {
      this.sources := sources;
      current, pristine, events := 0, true, [];
    }

    method Read(amount: nat) returns (r: ReadResult)
      requires Valid()
      modifies this
      ensures Valid() && (Model(), r) == Streams.Read(old(Model()), amount)
    {
      hide Streams.Read, AllBounded;
      if current == |sources| {
        NothingLeft(Model(), amount);
        return EndOfStream;
      }
      r := EndOfStream;
      while r.EndOfStream? && current != |sources|
        invariant Valid()
        invariant if r.EndOfStream?
                  then Streams.Read(Model(), amount) == Streams.Read(old(Model()), amount)
                  else (Model(), r) == Streams.Read(old(Model()), amount)
        decreases r.EndOfStream?, |sources| - current
      {
        r := ReadCurrent(amount);
      }
      if r.EndOfStream? {
        NothingLeft(Model(), amount);
      }
    }

    /** One turn of the loop: asks the current source, and moves on when that is at its end. */
    method ReadCurrent(amount: nat) returns (r: ReadResult)
      requires Valid() && current < |sources|
      modifies this
      ensures Valid() && |sources| == old(|sources|)
      ensures if r.EndOfStream?
              then current == old(current) + 1 && Streams.Read(Model(), amount) == Streams.Read(old(Model()), amount)
              else (Model(), r) == Streams.Read(old(Model()), amount)
    {
      hide Streams.Read, AllBounded;
      ghost var before := Model();
      CurrentBounded(sources, current);
      if pristine {
        events := events + [Begin(current)];
        pristine := false;
      }
      assert events == before.events + if before.pristine then [Begin(|before.done|)] else [];
      var next;
      next, r := Ask(sources[current], amount);
      ReplacedBounded(sources, current, next);
      sources := sources[current := next];
      assert before.rest[1..] == sources[current + 1..];
      if r.EndOfStream? {
        events := events + [End(current)];
        current := current + 1;
        pristine := true;
        assert sources[..current] == before.done + [next];
        CurrentEnded(before, amount);
      } else {
        assert sources[..current] == before.done && sources[current..] == [next] + before.rest[1..];
        CurrentDelivered(before, amount);
      }
    }
  }

  method Ask(source: Source, amount: nat) returns (next: Source, r: ReadResult)
    requires Bounded(source)
    ensures (next, r) == Streams.Read(source, amount) && Bounded(next)
  {
    hide Streams.Read;
    var answer := Streams.Read(source, amount);
    next, r := answer.0, answer.1;
  }

  lemma CurrentBounded(sources: seq<Source>, i: nat)
    requires AllBounded(sources) && i < |sources|
    ensures Bounded(sources[i]) && AllBounded(sources[..i]) && AllBounded(sources[i..]) && AllBounded(sources[i..][1..])
  {
  }

  lemma ReplacedBounded(sources: seq<Source>, i: nat, next: Source)
    requires AllBounded(sources) && i < |sources| && Bounded(next)
    ensures AllBounded(sources[i := next])
  {
  }

  lemma NothingLeft(s: Source, amount: nat)
    requires Bounded(s) && s.Multiple? && s.rest == []
    ensures Streams.Read(s, amount) == (s, EndOfStream)
  {
    assert s.done + [] == s.done && s.events + [] == s.events;
  }

  lemma CurrentDelivered(s: Source, amount: nat)
    requires Bounded(s) && s.Multiple? && s.rest != [] && Bounded(s.rest[0]) && Streams.Read(s.rest[0], amount).1.Data?
    ensures var (next, r) := Streams.Read(s.rest[0], amount);
            var begun := if s.pristine then [Begin(|s.done|)] else [];
            Streams.Read(s, amount) == (Multiple(s.done, [next] + s.rest[1..], false, s.events + begun), r)
  {
    assert s.done + [] == s.done;
  }

  lemma CurrentEnded(s: Source, amount: nat)
    requires Bounded(s) && s.Multiple? && s.rest != [] && Bounded(s.rest[0]) && Streams.Read(s.rest[0], amount).1.EndOfStream?
    ensures var next := Streams.Read(s.rest[0], amount).0;
            var begun := if s.pristine then [Begin(|s.done|)] else [];
            var t := Multiple(s.done + [next], s.rest[1..], true, s.events + begun + [End(|s.done|)]);
            Bounded(t) && Streams.Read(t, amount) == Streams.Read(s, amount)
  {
    var next := Streams.Read(s.rest[0], amount).0;
    var begun := if s.pristine then [Begin(|s.done|)] else [];
    AllBoundedConcat(s.done, [next]);
    var l := ReadList(s.rest[1..], |s.done| + 1, true, amount);
    assert (s.done + [next]) + l.finished == s.done + ([next] + l.finished);
    assert (s.events + begun + [End(|s.done|)]) + l.events == s.events + (begun + [End(|s.done|)] + l.events);
  }

  lemma FetchedInBounds(f: Filter, r: ReadResult)
    requires InBounds(f) && (r.Data? ==> |f.input| + |r.bytes| <= f.capacity)
    ensures InBounds(Fetched(f, r))
  {
  }

  lemma BegunInBounds(f: Filter)
    requires InBounds(f)
    ensures InBounds(Begun(f))
  {
  }

  lemma Cut(whole: seq<byte>, a: seq<byte>, b: seq<byte>)
    requires whole == a + b
    ensures whole[..|a|] == a && whole[|a|..] == b
  {
  }

  /** The bytes of `data` from `at` on are combined with the key, one after the other. */
  method XorInPlace(data: array<byte>, at: nat, n: nat, key: seq<byte>, start: nat) returns (counter: nat)
    requires at + n <= data.Length && start < |key|
    modifies data
    ensures counter == Turn(start, n, |key|)
    ensures data[at..at + n] == XorKey(old(data[at..at + n]), key, start)
    ensures data[..at] == old(data[..at]) && data[at + n..] == old(data[at + n..])
  {
    hide XorByte, XorKey, Turn;
    ghost var bytes := data[at..at + n];
    counter := start;
    TurnNone(start, key);
    for i := 0 to n
      invariant counter < |key| && counter == Turn(start, i, |key|)
      invariant data[at..at + i] == XorKey(bytes[..i], key, start)
      invariant forall k :: 0 <= k < data.Length && !(at <= k < at + i) ==> data[k] == old(data[k])
    {
      XorOneMore(bytes, key, start, i);
      data[at + i] := XorByte(data[at + i], key[counter]);
      NextIsRemainder(counter, |key|);
      counter := (counter + 1) % |key|;
    }
    assert bytes[..n] == bytes;
    assert data[..at] == old(data[..at]) && data[at + n..] == old(data[at + n..]);
  }

  lemma TurnNone(c: nat, key: seq<byte>)
    requires c < |key|
    ensures Turn(c, 0, |key|) == c && XorKey([], key, c) == []
  {
  }

  lemma XorOneMore(bytes: seq<byte>, key: seq<byte>, start: nat, i: nat)
    requires start < |key| && i < |bytes|
    ensures Turn(start, i, |key|) < |key| && Turn(start, i + 1, |key|) == NextPlace(Turn(start, i, |key|), |key|)
    ensures XorKey(bytes[..i + 1], key, start) == XorKey(bytes[..i], key, start) + [XorByte(bytes[i], key[Turn(start, i, |key|)])]
  {
    hide XorByte;
    var one := [bytes[i]];
    assert bytes[..i + 1] == bytes[..i] + one;
    XorKeyConcat(bytes[..i], one, key, start);
    assert one[1..] == [];
    TurnOneMore(start, i, |key|);
  }

  lemma {:induction false} TurnOneMore(c: nat, n: nat, length: nat)
    ensures Turn(c, n + 1, length) == NextPlace(Turn(c, n, length), length)
    decreases n
  {
    if n > 0 {
      TurnOneMore(NextPlace(c, length), n - 1, length);
    }
  }

  lemma NextIsRemainder(c: nat, length: nat)
    requires c < length
    ensures NextPlace(c, length) == (c + 1) % length
  {
    if c + 1 == length {
      assert length % length == 0;
    }
  }
}
