/**
 The skip filter that skips from an offset on (src/filters/filters.h:135-225): which choices of buffer
 size and offset let its recursion run for ever, and what it delivers when they do not.
 */
module SkipOffset {
  import opened Bytes
  import opened Filters
  import opened Streams
  import Extraction

  /** Buffers within their bounds and counters in range, whatever the offset. */
  predicate Fits(f: Filter) {
    && f.kind.Skip? && 1 <= f.capacity && |f.input| <= f.capacity && |f.output| <= f.capacity
    && f.kind.skipped <= f.kind.toSkip && f.kind.passed <= f.kind.toPass && (f.kind.passed > 0 ==> f.kind.skipped == f.kind.toSkip)
    && (!f.started || f.kind.position < f.kind.offset ==> f.kind.skipped == 0 && f.kind.passed == 0)
  }

  /** Bytes still to let through before skipping starts. */
  function Before(k: Kind): nat
    requires k.Skip?
  {
    if k.position < k.offset then k.offset - k.position else 0
  }

  // ---------------------------------------------------------------------------------------
  // Reads and runs
  // ---------------------------------------------------------------------------------------

  /** What a read comes to: `Stuck` is a recursion that never comes back. */
  datatype Turn = Stuck | Turned(source: Source, filter: Filter, result: ReadResult)

  lemma LevelFits(f: Filter)
    requires Fits(f) && f.started && SkipAdvances(f)
    ensures var (g, again) := SkipLevel(f);
            Fits(g) && g.started && g.capacity == f.capacity && g.kind.offset == f.kind.offset && g.ended == f.ended && g.finished == f.finished
            && g.kind.position >= f.kind.position && |g.output| >= |f.output|
            && (again ==> SkipAdvances(g) && |g.input| < |f.input| && g.kind.position >= g.kind.offset)
  {
  }

  lemma {:induction false} ProcessFits(f: Filter)
    requires Fits(f) && f.started && SkipAdvances(f)
    ensures var g := SkipProcess(f);
            Fits(g) && g.started && g.capacity == f.capacity && g.kind.offset == f.kind.offset && g.ended == f.ended
            && g.kind.position >= f.kind.position && |g.output| >= |f.output|
    decreases |f.input|
  {
    hide SkipLevel;
    LevelFits(f);
    var (g, again) := SkipLevel(f);
    if again {
      ProcessFits(g);
    }
  }

  lemma BegunFits(f: Filter)
    requires Fits(f)
    ensures Fits(Begun(f)) && Begun(f) == f.(started := true)
  {
    if !f.started {
      assert f.kind.(skipped := 0) == f.kind;
    }
  }

  /** `process`, unless finished or blocked, and `dumpOutput`, once the input is fetched. */
  function Turning(s: Source, g: Filter, amount: nat): (t: Turn)
    requires Bounded(s) && Fits(g) && g.started
    ensures t.Turned? ==> t.source == s && Fits(t.filter)
  {
    if !g.finished && (g.input != [] || |g.output| < g.capacity) then
      if !SkipAdvances(g) then Stuck
      else
        ProcessFits(g);
        var (h, r) := Dump(SkipProcess(g), amount);
        Turned(s, h, r)
    else
      var (h, r) := Dump(g, amount);
      Turned(s, h, r)
  }

  /** One read of a skip filter over a source. */
  function ReadSkip(s: Source, filter: Filter, amount: nat): (t: Turn)
    requires Bounded(s) && Fits(filter)
    ensures t.Turned? ==> Bounded(t.source) && Fits(t.filter)
  {
    BegunFits(filter);
    var f := Begun(filter);
    if |f.input| < f.capacity then
      var (s', r) := Read(s, f.capacity - |f.input|);
      Turning(s', Fetched(f, r), amount)
    else Turning(s, f, amount)
  }

  /** With offset 0 it is the read of the source tree. */
  lemma ReadsAlike(s: Source, f: Filter, amount: nat)
    requires Bounded(s) && Fits(f) && f.kind.offset == 0
    ensures Bounded(Filtered(s, f))
    ensures var (t, r) := Read(Filtered(s, f), amount);
            t.Filtered? && ReadSkip(s, f, amount) == Turned(t.inner, t.filter, r)
  {
    hide SkipProcess, Dump;
    BegunFits(f);
  }

  datatype SkipOutcome = SkipOutcome(source: Source, filter: Filter, delivered: seq<byte>, ended: bool, stuck: bool)

  /** Reads of the given sizes, until the end of the stream, or until one does not come back. */
  function RunSkip(s: Source, f: Filter, sizes: seq<nat>): (o: SkipOutcome)
    requires Bounded(s) && Fits(f)
    ensures Bounded(o.source) && Fits(o.filter)
    decreases |sizes|
  {
    if sizes == [] then SkipOutcome(s, f, [], false, false)
    else
      match ReadSkip(s, f, sizes[0])
      case Stuck => SkipOutcome(s, f, [], false, true)
      case Turned(s', f', r) =>
        match r
        case EndOfStream => SkipOutcome(s', f', [], true, false)
        case Data(c) =>
          var o := RunSkip(s', f', sizes[1..]);
          o.(delivered := c + o.delivered)
  }

  lemma FreshFits(capacity: nat, skip: nat, pass: nat, offset: nat)
    requires capacity >= 1
    ensures Fits(FreshSkip(capacity, skip, pass, offset))
  {
  }

  // ---------------------------------------------------------------------------------------
  // When a run gets stuck
  // ---------------------------------------------------------------------------------------

  /**
   Between two reads, before the offset: a byte has been handed out, or none is waiting; and bytes put
   out, waiting and to come are no more than the source had.
   */
  ghost predicate Roomy(f: Filter, ahead: nat, length: nat)
    requires f.kind.Skip?
  {
    f.kind.position < f.kind.offset ==>
      && f.kind.position + |f.input| + ahead <= length
      && |f.output| < f.capacity
      && (f.output != [] ==> |f.output| < f.kind.position)
  }

  /** A buffer of one byte, or an offset or a source that goes at most one byte beyond the buffer. */
  predicate Harmless(capacity: nat, offset: nat, length: nat) {
    capacity < 2 || offset < capacity + 2 || length < capacity + 2
  }

  lemma RoomyAdvances(f: Filter, ahead: nat, length: nat)
    requires Fits(f) && Roomy(f, ahead, length) && Harmless(f.capacity, f.kind.offset, length)
    ensures SkipAdvances(f)
  {
  }

  /** Before the offset, one level of the recursion lets through all there is, or reaches the offset. */
  lemma LevelBefore(f: Filter)
    requires Fits(f) && f.started && SkipAdvances(f) && f.kind.position < f.kind.offset
    ensures var n := Min(|f.input|, Before(f.kind));
            SkipLevel(f) == (f.(input := f.input[n..], output := f.output + f.input[..n], kind := f.kind.(position := f.kind.position + n)),
                             f.input[n..] != [])
  {
  }

  lemma MarkSame(g: Filter)
    requires g.kind.Skip?
    ensures SkipMark(g) == g.(finished := SkipMark(g).finished)
  {
  }

  lemma ProcessBefore(f: Filter)
    requires Fits(f) && f.started && SkipAdvances(f) && f.kind.position < f.kind.offset
    ensures var g := SkipProcess(f);
            g.kind.position < g.kind.offset ==>
              |f.input| < Before(f.kind) && g.input == [] && |g.output| == |f.output| + |f.input| && g.kind.position == f.kind.position + |f.input|
  {
    hide SkipLevel, SkipMark;
    LevelBefore(f);
    LevelFits(f);
    var (g, again) := SkipLevel(f);
    if again {
      ProcessFits(g);
    } else {
      MarkSame(g);
    }
  }

  lemma TurningIsRoomy(s: Source, g: Filter, amount: nat, length: nat)
    requires Bounded(s) && Fits(g) && g.started && amount >= 1
    requires Roomy(g, |Denote(s)|, length) && Harmless(g.capacity, g.kind.offset, length)
    ensures var t := Turning(s, g, amount);
            t.Turned? && t.filter.capacity == g.capacity && t.filter.kind.offset == g.kind.offset && Roomy(t.filter, |Denote(s)|, length)
  {
    hide SkipProcess, Denote;
    RoomyAdvances(g, |Denote(s)|, length);
    if !g.finished && (g.input != [] || |g.output| < g.capacity) {
      ProcessFits(g);
      if g.kind.position < g.kind.offset {
        ProcessBefore(g);
      }
    }
  }

  lemma FetchedIsRoomy(f: Filter, c: seq<byte>, ahead: nat, length: nat)
    requires Fits(f) && f.started && |f.input| + |c| <= f.capacity && Roomy(f, |c| + ahead, length)
    ensures var g := Fetched(f, Data(c));
            Fits(g) && g.started && g.capacity == f.capacity && g.kind == f.kind && Roomy(g, ahead, length)
  {
  }

  lemma EndedIsRoomy(f: Filter, ahead: nat, length: nat)
    requires Fits(f) && f.started && Roomy(f, ahead, length)
    ensures var g := Fetched(f, EndOfStream);
            Fits(g) && g.started && g.capacity == f.capacity && g.kind == f.kind && Roomy(g, ahead, length)
  {
  }

  lemma BegunIsRoomy(f: Filter, ahead: nat, length: nat)
    requires Fits(f) && Roomy(f, ahead, length)
    ensures var g := Begun(f);
            Fits(g) && g.started && g.capacity == f.capacity && g.kind == f.kind && g.input == f.input && Roomy(g, ahead, length)
  {
    BegunFits(f);
  }

  lemma ReadIsRoomy(s: Source, f: Filter, amount: nat, length: nat)
    requires Good(s) && Bounded(s) && Fits(f) && amount >= 1
    requires Roomy(f, |Denote(s)|, length) && Harmless(f.capacity, f.kind.offset, length)
    ensures var t := ReadSkip(s, f, amount);
            t.Turned? && Good(t.source) && t.filter.capacity == f.capacity && t.filter.kind.offset == f.kind.offset
            && Roomy(t.filter, |Denote(t.source)|, length)
  {
    hide Denote, Good, Read, AtEnd, Work, Turning, Roomy, Begun, Fetched, Harmless;
    BegunIsRoomy(f, |Denote(s)|, length);
    var g := Begun(f);
    if |g.input| < g.capacity {
      ReadKeeps(s, g.capacity - |g.input|);
      var (s', r) := Read(s, g.capacity - |g.input|);
      if r.Data? {
        FetchedIsRoomy(g, r.bytes, |Denote(s')|, length);
      } else {
        EndedIsRoomy(g, |Denote(s')|, length);
      }
      TurningIsRoomy(s', Fetched(g, r), amount, length);
    } else {
      TurningIsRoomy(s, g, amount, length);
    }
  }

  lemma {:induction false} RoomyRun(s: Source, f: Filter, sizes: seq<nat>, length: nat)
    requires Good(s) && Bounded(s) && Fits(f) && Positive(sizes)
    requires Roomy(f, |Denote(s)|, length) && Harmless(f.capacity, f.kind.offset, length)
    ensures !RunSkip(s, f, sizes).stuck
    decreases |sizes|
  {
    hide Denote, Good, ReadSkip, Roomy;
    if sizes != [] {
      ReadIsRoomy(s, f, sizes[0], length);
      var t := ReadSkip(s, f, sizes[0]);
      if t.result.Data? {
        RoomyRun(t.source, t.filter, sizes[1..], length);
      }
    }
  }

  /** Over any source, no run gets stuck unless buffer, offset and source are large enough. */
  lemma HarmlessRuns(s: Source, capacity: nat, skip: nat, pass: nat, offset: nat, sizes: seq<nat>)
    requires Good(s) && capacity >= 1 && Positive(sizes) && Bounded(s) && Harmless(capacity, offset, |Denote(s)|)
    ensures Fits(FreshSkip(capacity, skip, pass, offset)) && !RunSkip(s, FreshSkip(capacity, skip, pass, offset), sizes).stuck
  {
    hide Denote, Good, RunSkip;
    RoomyRun(s, FreshSkip(capacity, skip, pass, offset), sizes, |Denote(s)|);
  }

  /** After the first read of one byte: all but one byte of the buffer still waits to be handed out. */
  lemma FirstRead(x: seq<byte>, capacity: nat, skip: nat, pass: nat, offset: nat)
    requires capacity >= 2 && offset >= capacity + 2 && |x| >= capacity + 2
    ensures Fits(FreshSkip(capacity, skip, pass, offset))
    ensures ReadSkip(Buffer(x, 0), FreshSkip(capacity, skip, pass, offset), 1)
         == Turned(Buffer(x, capacity), Filter([], x[1..capacity], capacity, true, false, false, Skip(skip, pass, offset, capacity, 0, 0)), Data([x[0]]))
  {
    var f := Begun(FreshSkip(capacity, skip, pass, offset));
    assert Read(Buffer(x, 0), capacity) == (Buffer(x, capacity), Data(x[0..capacity]));
    var g := Fetched(f, Data(x[0..capacity]));
    assert [] + x[0..capacity] == x[..capacity];
    LevelBefore(g);
    assert g.input[capacity..] == [] && [] + g.input[..capacity] == x[..capacity];
    var h := SkipProcess(g);
    assert h == Filter([], x[..capacity], capacity, true, false, false, Skip(skip, pass, offset, capacity, 0, 0));
    assert x[..capacity][1..] == x[1..capacity] && x[..capacity][..1] == [x[0]];
  }

  /** Then the second read fetches two bytes or more, for which there is room for one. */
  lemma SecondReadIsStuck(x: seq<byte>, capacity: nat, skip: nat, pass: nat, offset: nat)
    requires capacity >= 2 && offset >= capacity + 2 && |x| >= capacity + 2
    ensures var f := Filter([], x[1..capacity], capacity, true, false, false, Skip(skip, pass, offset, capacity, 0, 0));
            Fits(f) && ReadSkip(Buffer(x, capacity), f, 1).Stuck?
  {
    var f := Filter([], x[1..capacity], capacity, true, false, false, Skip(skip, pass, offset, capacity, 0, 0));
    var (s, r) := Read(Buffer(x, capacity), capacity);
    assert |r.bytes| >= 2;
    assert !SkipAdvances(Fetched(f, r));
  }

  lemma TwoReads(x: seq<byte>, capacity: nat, skip: nat, pass: nat, offset: nat)
    requires capacity >= 2 && offset >= capacity + 2 && |x| >= capacity + 2
    ensures Fits(FreshSkip(capacity, skip, pass, offset)) && RunSkip(Buffer(x, 0), FreshSkip(capacity, skip, pass, offset), [1, 1]).stuck
  {
    hide ReadSkip;
    FirstRead(x, capacity, skip, pass, offset);
    SecondReadIsStuck(x, capacity, skip, pass, offset);
    var two, one := [1, 1], [1];
    assert two[1..] == one;
    var f := Filter([], x[1..capacity], capacity, true, false, false, Skip(skip, pass, offset, capacity, 0, 0));
    assert RunSkip(Buffer(x, capacity), f, one).stuck;
  }

  /** A run that gets stuck, of reads of positive sizes. */
  ghost predicate StuckRun(s: Source, f: Filter, sizes: seq<nat>)
    requires Bounded(s) && Fits(f)
  {
    Positive(sizes) && RunSkip(s, f, sizes).stuck
  }

  /**
   Over a memory buffer some run of reads gets stuck exactly when the filter's buffer holds two bytes
   or more, and offset and contents go two bytes or more beyond it.
   */
  lemma GetsStuckExactly(x: seq<byte>, capacity: nat, skip: nat, pass: nat, offset: nat)
    requires capacity >= 1
    ensures Fits(FreshSkip(capacity, skip, pass, offset))
    ensures (exists sizes :: StuckRun(Buffer(x, 0), FreshSkip(capacity, skip, pass, offset), sizes))
            <==> capacity >= 2 && offset >= capacity + 2 && |x| >= capacity + 2
  {
    hide RunSkip;
    var f := FreshSkip(capacity, skip, pass, offset);
    if capacity >= 2 && offset >= capacity + 2 && |x| >= capacity + 2 {
      TwoReads(x, capacity, skip, pass, offset);
      assert StuckRun(Buffer(x, 0), f, [1, 1]);
    } else if sizes :| StuckRun(Buffer(x, 0), f, sizes) {
      assert |Denote(Buffer(x, 0))| == |x|;
      HarmlessRuns(Buffer(x, 0), capacity, skip, pass, offset, sizes);
      assert false;
    }
  }

  // ---------------------------------------------------------------------------------------
  // What runs deliver that do not get stuck
  // ---------------------------------------------------------------------------------------

  /** What a filter still has to deliver: its output, the bytes before the offset, and what it makes of those behind it. */
  function Rest(f: Filter, upstream: seq<byte>): seq<byte>
    requires Fits(f)
  {
    f.output + (Take(f.input + upstream, Before(f.kind)) + Transform(f.kind, Drop(f.input + upstream, Before(f.kind))))
  }

  /** The bytes there are, are enough for the filter to come to its end. */
  predicate Enough(f: Filter, ahead: nat)
    requires Fits(f)
  {
    Needs(f.kind) == 0 || |f.input| + ahead >= Before(f.kind) + Needs(f.kind)
  }

  ghost predicate Fine(f: Filter, upstream: seq<byte>) {
    && Fits(f) && Enough(f, |upstream|)
    && (f.ended ==> upstream == [])
    && (f.finished ==> f.ended && f.input == [] && f.output == [] && Needs(f.kind) == 0)
  }

  /** The filter with its offset behind it, as if it had none. */
  function NoOffset(f: Filter): Filter
    requires f.kind.Skip?
  {
    f.(kind := f.kind.(offset := 0))
  }

  lemma PassThroughBehind(f: Filter, amount: nat)
    requires f.kind.Skip? && |f.output| <= f.capacity
    ensures PassThrough(NoOffset(f), amount) == (NoOffset(PassThrough(f, amount).0), PassThrough(f, amount).1)
    ensures PassThrough(f, amount).0.kind == f.kind
  {
  }

  lemma PassAfterBehind(f: Filter)
    requires SkipInRange(f)
    ensures PassAfter(NoOffset(f)) == (NoOffset(PassAfter(f).0), PassAfter(f).1)
  {
    hide PassThrough;
    var k := f.kind;
    if k.passed < k.toPass {
      PassThroughBehind(f, k.toPass - k.passed);
    } else if k.toPass == 0 {
      PassThroughBehind(f, |f.input|);
    }
  }

  lemma SkipSomeBehind(f: Filter)
    requires SkipInRange(f)
    ensures SkipSome(NoOffset(f)) == (NoOffset(SkipSome(f).0), SkipSome(f).1)
  {
  }

  lemma LevelBehind(f: Filter)
    requires Fits(f) && f.started && f.kind.position >= f.kind.offset
    ensures var (g, again) := SkipLevel(f);
            g.kind.Skip? && g.kind.offset == f.kind.offset && g.kind.position >= g.kind.offset
            && SkipLevel(NoOffset(f)) == (NoOffset(g), again)
  {
    hide PassAfter, SkipSome;
    PassAfterBehind(f);
    SkipSomeBehind(f);
  }

  lemma MarkBehind(f: Filter)
    requires f.kind.Skip?
    ensures NoOffset(SkipMark(f)) == SkipMark(NoOffset(f))
  {
  }

  lemma {:induction false} ProcessBehind(f: Filter)
    requires Fits(f) && f.started && f.kind.position >= f.kind.offset
    ensures InBounds(NoOffset(f)) && SkipAdvances(f)
    ensures var g := SkipProcess(f);
            g.kind.Skip? && g.kind.offset == f.kind.offset && g.kind.position >= g.kind.offset && SkipProcess(NoOffset(f)) == NoOffset(g)
    decreases |f.input|
  {
    hide SkipLevel, SkipMark;
    LevelBehind(f);
    LevelFits(f);
    var (g, again) := SkipLevel(f);
    if again {
      ProcessBehind(g);
    } else {
      MarkBehind(g);
      MarkSame(g);
    }
  }

  lemma GoodBehind(f: Filter, upstream: seq<byte>)
    requires Fits(f) && f.kind.position >= f.kind.offset
    ensures InBounds(NoOffset(f)) && (Fine(f, upstream) <==> FilterGood(NoOffset(f), upstream))
  {
    assert Needs(NoOffset(f).kind) == Needs(f.kind) && Before(f.kind) == 0;
  }

  lemma RestBehind(f: Filter, upstream: seq<byte>)
    requires Fits(f) && f.kind.position >= f.kind.offset && InBounds(NoOffset(f))
    ensures Rest(f, upstream) == FilterDenotes(NoOffset(f), upstream)
  {
    hide Transform, Take, Drop;
    var x := f.input + upstream;
    NothingBefore(x);
    SameBehind(f.kind, x);
    assert [] + Transform(f.kind, x) == Transform(f.kind, x);
  }

  lemma NothingBefore(x: seq<byte>)
    ensures Take(x, 0) == [] && Drop(x, 0) == x
  {
  }

  lemma SameBehind(k: Kind, x: seq<byte>)
    requires k.Skip? && k.skipped <= k.toSkip && k.passed <= k.toPass
    ensures Transform(k.(offset := 0), x) == Transform(k, x)
  {
    hide Take, Drop;
  }

  lemma FineBehind(f: Filter, upstream: seq<byte>)
    requires Fits(f) && f.kind.position >= f.kind.offset
    ensures InBounds(NoOffset(f)) && (Fine(f, upstream) <==> FilterGood(NoOffset(f), upstream))
    ensures Rest(f, upstream) == FilterDenotes(NoOffset(f), upstream) && FilterWork(f) == FilterWork(NoOffset(f))
  {
    hide Rest, FilterDenotes, FilterGood, Fine;
    GoodBehind(f, upstream);
    RestBehind(f, upstream);
  }

  /** Bytes that are let through before the offset. */
  lemma PassingBefore(input: seq<byte>, upstream: seq<byte>, n: nat, before: nat)
    requires n <= |input| && n <= before
    ensures Take(input + upstream, before) == input[..n] + Take(input[n..] + upstream, before - n)
    ensures Drop(input + upstream, before) == Drop(input[n..] + upstream, before - n)
  {
    var x, y := input + upstream, input[n..] + upstream;
    assert x == input[..n] + y;
  }

  /** `n` bytes let through before the offset. */
  function PassedOn(f: Filter, n: nat): Filter
    requires f.kind.Skip? && n <= |f.input|
  {
    f.(input := f.input[n..], output := f.output + f.input[..n], kind := f.kind.(position := f.kind.position + n))
  }

  lemma PassedOnIsFine(f: Filter, upstream: seq<byte>, n: nat)
    requires Fine(f, upstream) && !f.finished && f.kind.position < f.kind.offset && n == Min(|f.input|, Before(f.kind)) && n <= f.Room()
    ensures var g := PassedOn(f, n); Fine(g, upstream) && FilterWork(g) == FilterWork(f) - n && Before(g.kind) == Before(f.kind) - n
  {
    assert Needs(PassedOn(f, n).kind) == Needs(f.kind);
  }

  lemma PassedOnKeeps(f: Filter, upstream: seq<byte>, n: nat)
    requires Fits(f) && n <= |f.input| && n <= Before(f.kind) && Fits(PassedOn(f, n)) && Before(PassedOn(f, n).kind) == Before(f.kind) - n
    ensures Rest(PassedOn(f, n), upstream) == Rest(f, upstream)
  {
    hide Transform, Take, Drop, Before;
    var before := Before(f.kind);
    PassingBefore(f.input, upstream, n, before);
    var y := f.input[n..] + upstream;
    var t := Take(y, before - n);
    var rest := Transform(f.kind, Drop(y, before - n));
    SameTransform(f.kind, f.kind.position + n, Drop(y, before - n));
    assert (f.output + f.input[..n]) + (t + rest) == f.output + ((f.input[..n] + t) + rest);
  }

  lemma LevelBeforeKeeps(f: Filter, upstream: seq<byte>)
    requires Fine(f, upstream) && f.started && !f.finished && SkipAdvances(f) && f.kind.position < f.kind.offset
    ensures var (g, again) := SkipLevel(f);
            Fine(g, upstream) && Rest(g, upstream) == Rest(f, upstream) && FilterWork(g) <= FilterWork(f)
            && (f.input != [] && |f.output| < f.capacity ==> FilterWork(g) < FilterWork(f))
            && (again ==> g.kind.position >= g.kind.offset)
  {
    hide SkipLevel, Rest, FilterWork, Enough, Needs;
    LevelBefore(f);
    LevelFits(f);
    var n := Min(|f.input|, Before(f.kind));
    PassedOnIsFine(f, upstream, n);
    PassedOnKeeps(f, upstream, n);
  }

  lemma SameTransform(k: Kind, position: nat, x: seq<byte>)
    requires k.Skip? && k.skipped <= k.toSkip && k.passed <= k.toPass
    ensures Transform(k.(position := position), x) == Transform(k, x)
  {
  }

  lemma MarkIsFine(f: Filter, upstream: seq<byte>)
    requires Fine(f, upstream) && !f.finished
    ensures var g := SkipMark(f);
            Fine(g, upstream) && Rest(g, upstream) == Rest(f, upstream) && FilterWork(g) == FilterWork(f)
            && (f.ended && f.input == [] && f.output == [] ==> g.finished)
  {
    hide Transform, Take, Drop;
    assert SkipMark(f) == f.(finished := SkipMark(f).finished);
  }

  lemma ProcessBehindKeeps(f: Filter, upstream: seq<byte>)
    requires Fine(f, upstream) && f.started && !f.finished && f.kind.position >= f.kind.offset
    ensures SkipAdvances(f)
    ensures var g := SkipProcess(f);
            Fine(g, upstream) && Rest(g, upstream) == Rest(f, upstream) && FilterWork(g) <= FilterWork(f)
            && (f.input != [] && |f.output| < f.capacity ==> FilterWork(g) < FilterWork(f))
            && (f.ended && f.input == [] && f.output == [] ==> g.finished)
  {
    hide SkipProcess, FilterDenotes, FilterGood, Fine, Rest, FilterWork;
    assert Fits(f) by { FineFits(f, upstream); }
    ProcessBehind(f);
    ProcessFits(f);
    FineBehind(f, upstream);
    FineBehind(SkipProcess(f), upstream);
    SkipProcessKeeps(NoOffset(f), upstream);
  }

  lemma FineFits(f: Filter, upstream: seq<byte>)
    requires Fine(f, upstream)
    ensures Fits(f)
  {
  }

  /** The whole recursion: nothing is lost, before the offset, across it and behind it. */
  lemma ProcessKeepsRest(f: Filter, upstream: seq<byte>)
    requires Fine(f, upstream) && f.started && !f.finished && SkipAdvances(f)
    ensures var g := SkipProcess(f);
            Fine(g, upstream) && Rest(g, upstream) == Rest(f, upstream) && FilterWork(g) <= FilterWork(f)
            && (f.input != [] && |f.output| < f.capacity ==> FilterWork(g) < FilterWork(f))
            && (f.ended && f.input == [] && f.output == [] ==> g.finished)
  {
    hide SkipLevel, SkipMark, Rest, FilterWork, Needs, Before;
    if f.kind.position >= f.kind.offset {
      ProcessBehindKeeps(f, upstream);
    } else {
      LevelBeforeKeeps(f, upstream);
      LevelFits(f);
      var (g, again) := SkipLevel(f);
      NothingPassed(f);
      if again {
        ProcessBehindKeeps(g, upstream);
      } else {
        MarkIsFine(g, upstream);
      }
    }
  }

  /** With nothing waiting and nothing left to come, a level does nothing. */
  lemma NothingPassed(f: Filter)
    requires Fits(f) && f.started && SkipAdvances(f) && f.kind.position < f.kind.offset
    ensures f.input == [] ==> SkipLevel(f).0.input == [] && SkipLevel(f).0.output == f.output && !SkipLevel(f).1
  {
    hide SkipLevel;
    LevelBefore(f);
  }

  ghost predicate DumpKept(g: Filter, upstream: seq<byte>, h: Filter, r: ReadResult) {
    && Fits(g) && Fine(h, upstream) && h.ended == g.ended
    && (r.EndOfStream? ==> h == g && g.ended && g.finished)
    && (r.Data? ==>
          && Rest(g, upstream) == r.bytes + Rest(h, upstream) && FilterWork(h) + |r.bytes| <= FilterWork(g)
          && (g.output != [] ==> FilterWork(h) + |r.bytes| < FilterWork(g))
          && !(g.finished && g.ended))
  }

  lemma DumpKeepsRest(g: Filter, upstream: seq<byte>, amount: nat)
    requires Fine(g, upstream) && amount >= 1
    ensures DumpKept(g, upstream, Dump(g, amount).0, Dump(g, amount).1)
  {
    hide Take, Drop, Transform, Needs, Before;
    var n := Min(|g.output|, amount);
    var x := g.input + upstream;
    var rest := Take(x, Before(g.kind)) + Transform(g.kind, Drop(x, Before(g.kind)));
    assert g.output + rest == g.output[..n] + (g.output[n..] + rest);
  }

  lemma FinishedRest(f: Filter, upstream: seq<byte>)
    requires Fine(f, upstream) && f.finished
    ensures Rest(f, upstream) == []
  {
    assert f.input + upstream == [];
  }

  /** A filter over its source, between two reads. */
  ghost predicate FineOver(s: Source, f: Filter)
    requires Bounded(s)
  {
    Good(s) && Fine(f, Denote(s)) && (f.ended ==> AtEnd(s))
  }

  function SkipWork(s: Source, f: Filter): nat
    requires Bounded(s)
  {
    3 * Work(s) + FilterWork(f)
  }

  /** What a turn delivers and what it leaves are what there was. */
  ghost predicate Kept(s: Source, f: Filter, t: Source, h: Filter, r: ReadResult)
    requires Bounded(s) && Bounded(t) && Fits(f) && Fits(h)
  {
    && FineOver(t, h)
    && if r.EndOfStream? then Rest(f, Denote(s)) == [] && Rest(h, Denote(t)) == []
       else Rest(f, Denote(s)) == r.bytes + Rest(h, Denote(t))
  }

  /** A turn, once the input is fetched. */
  lemma TurningKeeps(s: Source, g: Filter, amount: nat)
    requires Bounded(s) && FineOver(s, g) && g.started && amount >= 1
    ensures Fits(g)
    ensures var t := Turning(s, g, amount);
            t.Turned? ==>
              && Kept(s, g, s, t.filter, t.result)
              && (t.result.Data? ==>
                    && FilterWork(t.filter) + |t.result.bytes| <= FilterWork(g)
                    && (g.input != [] || g.ended ==> FilterWork(t.filter) + |t.result.bytes| < FilterWork(g)))
  {
    hide SkipProcess, Dump, Rest, Denote, Good, AtEnd, Enough, FilterWork;
    if !g.finished && (g.input != [] || |g.output| < g.capacity) {
      if SkipAdvances(g) {
        ProcessKeepsRest(g, Denote(s));
        ProcessFits(g);
        var p := SkipProcess(g);
        DumpKeepsRest(p, Denote(s), amount);
        if p.finished {
          FinishedRest(p, Denote(s));
        }
        if g.input != [] && |g.output| >= g.capacity {
          assert p.output != [];
        }
        if g.ended && g.input == [] && g.output != [] {
          assert p.output != [];
        }
      }
    } else {
      DumpKeepsRest(g, Denote(s), amount);
      if g.finished {
        FinishedRest(g, Denote(s));
      }
    }
  }

  lemma FetchedIsFine(f: Filter, c: seq<byte>, upstream: seq<byte>)
    requires Fine(f, c + upstream) && f.started && |f.input| + |c| <= f.capacity && !f.ended && !f.finished
    ensures var g := Fetched(f, Data(c));
            Fine(g, upstream) && g.started && g.ended == f.ended && g.input == f.input + c && Rest(g, upstream) == Rest(f, c + upstream)
            && FilterWork(g) == FilterWork(f) + 3 * |c|
  {
    hide Take, Drop, Transform;
    assert f.input + (c + upstream) == (f.input + c) + upstream;
  }

  lemma EndedIsFine(f: Filter)
    requires Fine(f, []) && f.started
    ensures var g := Fetched(f, EndOfStream);
            Fine(g, []) && g.started && g.ended && Rest(g, []) == Rest(f, []) && FilterWork(g) <= FilterWork(f)
  {
  }

  lemma BegunIsFine(f: Filter, upstream: seq<byte>)
    requires Fine(f, upstream)
    ensures var g := Begun(f);
            Fine(g, upstream) && g.started && g.input == f.input && g.ended == f.ended && g.finished == f.finished && g.capacity == f.capacity
            && Rest(g, upstream) == Rest(f, upstream) && FilterWork(g) == FilterWork(f)
  {
    BegunFits(f);
  }

  lemma NotFinishedEarly(f: Filter, upstream: seq<byte>)
    requires Fine(f, upstream)
    ensures f.finished ==> f.ended && upstream == []
  {
  }

  /** One read keeps what is still to be delivered, unless it gets stuck, and comes closer to the end. */
  lemma ReadSkipKeeps(s: Source, f: Filter, amount: nat)
    requires Bounded(s) && FineOver(s, f) && amount >= 1
    ensures Fits(f)
    ensures var t := ReadSkip(s, f, amount);
            t.Turned? ==>
              && Kept(s, f, t.source, t.filter, t.result)
              && (t.result.Data? ==> SkipWork(t.source, t.filter) + |t.result.bytes| < SkipWork(s, f))
  {
    hide Turning, Rest, Fine, Denote, Good, AtEnd, Work, Read, Begun, Fetched, FilterWork;
    FineFits(f, Denote(s));
    BegunFits(f);
    BegunIsFine(f, Denote(s));
    var g := Begun(f);
    if |g.input| < g.capacity {
      ReadKeeps(s, g.capacity - |g.input|);
      var (s', r) := Read(s, g.capacity - |g.input|);
      NotFinishedEarly(g, Denote(s));
      match r
      case EndOfStream =>
        EndedIsFine(g);
        TurningKeeps(s', Fetched(g, r), amount);
      case Data(c) =>
        FetchedIsFine(g, c, Denote(s'));
        TurningKeeps(s', Fetched(g, r), amount);
    } else {
      TurningKeeps(s, g, amount);
    }
  }

  ghost predicate RunKept(s: Source, f: Filter, o: SkipOutcome)
    requires Bounded(s) && Fits(f) && Bounded(o.source) && Fits(o.filter)
  {
    && Rest(f, Denote(s)) == o.delivered + Rest(o.filter, Denote(o.source))
    && (o.ended ==> o.delivered == Rest(f, Denote(s)))
  }

  lemma {:induction false} RunSkipDelivers(s: Source, f: Filter, sizes: seq<nat>)
    requires Bounded(s) && FineOver(s, f) && Positive(sizes)
    ensures Fits(f)
    ensures var o := RunSkip(s, f, sizes);
            !o.stuck ==> RunKept(s, f, o) && (|sizes| > SkipWork(s, f) ==> o.ended)
    decreases |sizes|
  {
    hide ReadSkip, Rest, Fine, Good, Denote, SkipWork, AtEnd;
    FineFits(f, Denote(s));
    if sizes == [] {
      assert [] + Rest(f, Denote(s)) == Rest(f, Denote(s));
    } else {
      ReadSkipKeeps(s, f, sizes[0]);
      var t := ReadSkip(s, f, sizes[0]);
      if t.Turned? {
        if t.result.Data? {
          RunSkipDelivers(t.source, t.filter, sizes[1..]);
          var o := RunSkip(t.source, t.filter, sizes[1..]);
          assert (t.result.bytes + o.delivered) + Rest(o.filter, Denote(o.source)) == t.result.bytes + (o.delivered + Rest(o.filter, Denote(o.source)));
        }
      }
    }
  }

  /** The bytes before the offset, and of those behind it the slice, or all of them. */
  function OffsetSlice(x: seq<byte>, offset: nat, skip: nat, pass: nat): seq<byte>
    requires skip + pass == 0 || offset + skip + pass <= |x|
  {
    if skip + pass == 0 then x else x[..offset] + Extraction.Slice(x[offset..], skip, pass)
  }

  /** The bytes there are, are enough. */
  predicate LongEnough(length: nat, offset: nat, skip: nat, pass: nat) {
    skip + pass == 0 || offset + skip + pass <= length
  }

  lemma FreshIsFine(x: seq<byte>, capacity: nat, skip: nat, pass: nat, offset: nat)
    requires capacity >= 1 && LongEnough(|x|, offset, skip, pass)
    ensures var f := FreshSkip(capacity, skip, pass, offset);
            Fine(f, x) && !f.ended && FilterWork(f) == 1 && Rest(f, x) == OffsetSlice(x, offset, skip, pass)
  {
    var f := FreshSkip(capacity, skip, pass, offset);
    assert [] + x == x;
    assert Before(f.kind) == offset && Needs(f.kind) == skip + pass;
    if skip + pass == 0 {
      assert Take(x, offset) + Drop(Drop(x, offset), 0) == x;
    } else {
      assert Take(x, offset) == x[..offset] && Drop(x, offset) == x[offset..];
    }
  }

  /** A filter that counts on more bytes than there will be. */
  ghost predicate Short(f: Filter, ahead: nat) {
    Fits(f) && !f.finished && Needs(f.kind) > 0 && |f.input| + ahead < Before(f.kind) + Needs(f.kind)
  }

  lemma ShortBehind(f: Filter, ahead: nat)
    requires Fits(f) && f.kind.position >= f.kind.offset && !f.finished
    ensures InBounds(NoOffset(f)) && (Short(f, ahead) <==> |f.input| + ahead < Needs(NoOffset(f).kind))
  {
    assert Needs(NoOffset(f).kind) == Needs(f.kind) && Before(f.kind) == 0;
  }

  lemma ShortMark(f: Filter, ahead: nat)
    requires Short(f, ahead)
    ensures Short(SkipMark(f), ahead)
  {
    MarkSame(f);
  }

  lemma ProcessStaysShort(f: Filter, ahead: nat)
    requires Short(f, ahead) && f.started && SkipAdvances(f)
    ensures Short(SkipProcess(f), ahead)
  {
    hide SkipLevel, SkipMark, Needs, Before, Short;
    assert Fits(f) && !f.finished by { ShortFits(f, ahead); }
    ProcessFits(f);
    if f.kind.position >= f.kind.offset {
      BehindStaysShort(f, ahead);
    } else {
      LevelBefore(f);
      LevelFits(f);
      var (g, again) := SkipLevel(f);
      var n := Min(|f.input|, Before(f.kind));
      PassedOnIsShort(f, ahead, n);
      if again {
        BehindStaysShort(g, ahead);
      } else {
        ShortMark(g, ahead);
      }
    }
  }

  lemma ShortFits(f: Filter, ahead: nat)
    requires Short(f, ahead)
    ensures Fits(f) && !f.finished
  {
  }

  lemma PassedOnIsShort(f: Filter, ahead: nat, n: nat)
    requires Short(f, ahead) && f.kind.position < f.kind.offset && n == Min(|f.input|, Before(f.kind)) && n <= f.Room()
    ensures Short(PassedOn(f, n), ahead)
  {
    assert Needs(PassedOn(f, n).kind) == Needs(f.kind) && Before(PassedOn(f, n).kind) == Before(f.kind) - n;
  }

  lemma BehindStaysShort(f: Filter, ahead: nat)
    requires Short(f, ahead) && f.started && f.kind.position >= f.kind.offset
    ensures SkipAdvances(f) && Short(SkipProcess(f), ahead)
  {
    hide SkipProcess, Needs, Short;
    ShortFits(f, ahead);
    ProcessBehind(f);
    ProcessFits(f);
    ShortBehind(f, ahead);
    Extraction.StarvedProcess(NoOffset(f), ahead);
    ShortBehind(SkipProcess(f), ahead);
  }

  lemma TurningStaysShort(s: Source, g: Filter, amount: nat, ahead: nat)
    requires Bounded(s) && Short(g, ahead) && g.started && amount >= 1
    ensures Fits(g)
    ensures var t := Turning(s, g, amount); t.Turned? ==> Short(t.filter, ahead) && t.result.Data?
  {
    hide SkipProcess, Needs, Before;
    if g.input != [] || |g.output| < g.capacity {
      if SkipAdvances(g) {
        ProcessStaysShort(g, ahead);
      }
    }
  }

  lemma FetchedIsShort(f: Filter, c: seq<byte>, ahead: nat)
    requires Short(f, |c| + ahead) && f.started && |f.input| + |c| <= f.capacity
    ensures Short(Fetched(f, Data(c)), ahead) && Fetched(f, Data(c)).started
  {
  }

  lemma EndedIsShort(f: Filter, ahead: nat)
    requires Short(f, ahead) && f.started
    ensures Short(Fetched(f, EndOfStream), ahead) && Fetched(f, EndOfStream).started
  {
  }

  lemma ReadStaysShort(s: Source, f: Filter, amount: nat)
    requires Good(s) && Bounded(s) && Short(f, |Denote(s)|) && amount >= 1
    ensures Fits(f)
    ensures var t := ReadSkip(s, f, amount); t.Turned? ==> Good(t.source) && Short(t.filter, |Denote(t.source)|) && t.result.Data?
  {
    hide Turning, Short, Denote, Good, AtEnd, Work, Read, Begun, Fetched;
    ShortFits(f, |Denote(s)|);
    BegunFits(f);
    var g := Begun(f);
    assert Short(g, |Denote(s)|) by { StartedIsShort(f, |Denote(s)|); }
    if |g.input| < g.capacity {
      ReadKeeps(s, g.capacity - |g.input|);
      var (s', r) := Read(s, g.capacity - |g.input|);
      if r.Data? {
        FetchedIsShort(g, r.bytes, |Denote(s')|);
      } else {
        EndedIsShort(g, |Denote(s')|);
      }
      TurningStaysShort(s', Fetched(g, r), amount, |Denote(s')|);
    } else {
      TurningStaysShort(s, g, amount, |Denote(s)|);
    }
  }

  lemma StartedIsShort(f: Filter, ahead: nat)
    requires Short(f, ahead)
    ensures Short(f.(started := true), ahead)
  {
  }

  lemma {:induction false} ShortNeverEnds(s: Source, f: Filter, sizes: seq<nat>)
    requires Good(s) && Bounded(s) && Short(f, |Denote(s)|) && Positive(sizes)
    ensures Fits(f) && !RunSkip(s, f, sizes).ended
    decreases |sizes|
  {
    hide ReadSkip, Short, Denote, Good;
    ShortFits(f, |Denote(s)|);
    if sizes != [] {
      ReadStaysShort(s, f, sizes[0]);
      var t := ReadSkip(s, f, sizes[0]);
      if t.Turned? {
        ShortNeverEnds(t.source, t.filter, sizes[1..]);
      }
    }
  }

  /**
   Of reads of any positive sizes over any source, as long as they do not get stuck: with enough of
   them the end of the stream is met exactly when the source holds offset, bytes to skip and bytes to
   pass, or there is nothing to skip and to pass; and then the bytes before the offset and the slice
   behind it have been delivered.
   */
  lemma OffsetSkipEndsExactly(s: Source, capacity: nat, skip: nat, pass: nat, offset: nat, sizes: seq<nat>)
    requires Good(s) && Bounded(s) && capacity >= 1 && Positive(sizes) && |sizes| > 3 * Work(s) + 1
    ensures var f := FreshSkip(capacity, skip, pass, offset);
            Fits(f) && var o := RunSkip(s, f, sizes);
            !o.stuck ==>
              && (o.ended <==> LongEnough(|Denote(s)|, offset, skip, pass))
              && (o.ended ==> o.delivered == OffsetSlice(Denote(s), offset, skip, pass))
  {
    hide RunSkip, Denote, Good, Rest, Fine, FilterWork;
    var f := FreshSkip(capacity, skip, pass, offset);
    FreshFits(capacity, skip, pass, offset);
    if LongEnough(|Denote(s)|, offset, skip, pass) {
      FreshIsFine(Denote(s), capacity, skip, pass, offset);
      RunSkipDelivers(s, f, sizes);
    } else {
      assert Before(f.kind) == offset && Needs(f.kind) == skip + pass;
      ShortNeverEnds(s, f, sizes);
    }
  }

  /** So it is without any condition on the run when buffer, offset or source are small enough. */
  lemma HarmlessSkipEndsExactly(s: Source, capacity: nat, skip: nat, pass: nat, offset: nat, sizes: seq<nat>)
    requires Good(s) && Bounded(s) && capacity >= 1 && Positive(sizes) && |sizes| > 3 * Work(s) + 1
    requires Harmless(capacity, offset, |Denote(s)|)
    ensures var f := FreshSkip(capacity, skip, pass, offset);
            Fits(f) && var o := RunSkip(s, f, sizes);
            && (o.ended <==> LongEnough(|Denote(s)|, offset, skip, pass))
            && (o.ended ==> o.delivered == OffsetSlice(Denote(s), offset, skip, pass))
  {
    hide RunSkip, Denote, Good;
    HarmlessRuns(s, capacity, skip, pass, offset, sizes);
    OffsetSkipEndsExactly(s, capacity, skip, pass, offset, sizes);
  }
}
