/**
 The buffered filters as state machines (src/tbx/streams/data_filter.h, src/filters/filters.h):
 two bounded buffers, three flags, and the state of a xor or a skip filter. `FilterDenotes` is
 what a filter still has to deliver; each step keeps it and lowers `FilterWork`.
 */
module Filters {
  import opened Bytes

  /** What a read gives: some bytes (perhaps none yet), or the end-of-stream sentinel. */
  datatype ReadResult = EndOfStream | Data(bytes: seq<byte>)

  /** The state particular to one kind of buffered filter. */
  datatype Kind =
    | Xor(key: seq<byte>, counter: nat)
    | Skip(toSkip: nat, toPass: nat, offset: nat, position: nat, skipped: nat, passed: nat)

  /** A buffered filter: the two bounded buffers and the flags of `data_filter`. */
  datatype Filter = Filter(input: seq<byte>, output: seq<byte>, capacity: nat,
                           started: bool, ended: bool, finished: bool, kind: Kind) {
    function Room(): int { capacity - |output| }
  }

  // ---------------------------------------------------------------------------------------
  // Filters
  // ---------------------------------------------------------------------------------------

  function Min(a: int, b: int): int { if a < b then a else b }

  function XorByte(a: byte, b: byte): byte { a ^ b }

  /** The place in the key after place `c`. */
  function NextPlace(c: nat, length: nat): nat {
    if c + 1 >= length then 0 else c + 1
  }

  function Turn(c: nat, n: nat, length: nat): nat
    decreases n
  {
    if n == 0 then c else Turn(NextPlace(c, length), n - 1, length)
  }

  /** Bytes combined with the key, starting at place `c` of the key. */
  function XorKey(bytes: seq<byte>, key: seq<byte>, c: nat): (r: seq<byte>)
    requires c < |key|
    ensures |r| == |bytes|
    decreases |bytes|
  {
    if bytes == [] then [] else [XorByte(bytes[0], key[c])] + XorKey(bytes[1..], key, NextPlace(c, |key|))
  }

  function FreshXor(capacity: nat, key: seq<byte>): Filter {
    Filter([], [], capacity, false, false, false, Xor(key, 0))
  }

  function FreshSkip(capacity: nat, toSkip: nat, toPass: nat, offset: nat): Filter {
    Filter([], [], capacity, false, false, false, Skip(toSkip, toPass, offset, 0, 0, 0))
  }

  /** Moves up to `amount` bytes from the input to the output buffer; `n` is how many. */
  function PassThrough(f: Filter, amount: nat): (r: (Filter, nat))
    requires |f.output| <= f.capacity
  {
    var n := Min(Min(|f.input|, f.Room()), amount);
    (f.(input := f.input[n..], output := f.output + f.input[..n]), n)
  }

  /** The end of every activation of the skip filter's `process`. */
  function SkipMark(f: Filter): Filter
    requires f.kind.Skip?
  {
    f.(finished := f.kind.skipped == f.kind.toSkip && f.kind.passed >= f.kind.toPass
                   && f.input == [] && f.output == [] && f.ended)
  }

  /** The skip filter's output fits and its counters are in range. */
  predicate SkipInRange(f: Filter) {
    |f.output| <= f.capacity && f.kind.Skip? && f.kind.skipped <= f.kind.toSkip && f.kind.passed <= f.kind.toPass
  }

  /** Before the place where skipping starts: let bytes through up to there. */
  function PassBefore(f: Filter): (r: (Filter, bool))
    requires SkipInRange(f) && f.kind.position < f.kind.offset
    ensures SkipInRange(r.0) && |r.0.input| <= |f.input|
  {
    var k := f.kind;
    var (g, n) := PassThrough(f, Min(|f.input|, k.offset - k.position));
    (g.(kind := k.(position := k.position + n)), g.input != [])
  }

  /** Everything to skip is skipped: let through what is asked for, then throw the rest away. */
  function PassAfter(f: Filter): (r: (Filter, bool))
    requires SkipInRange(f)
    ensures SkipInRange(r.0) && (r.1 ==> |r.0.input| < |f.input|) && |r.0.input| <= |f.input|
    ensures r.0.kind.position >= f.kind.position && r.0.kind.offset == f.kind.offset
  {
    var k := f.kind;
    if k.passed < k.toPass then
      var (g, n) := PassThrough(f, k.toPass - k.passed);
      (g.(kind := k.(passed := k.passed + n, position := k.position + n)), |g.output| < g.capacity && g.input != [])
    else if k.toPass != 0 then
      (f.(input := [], kind := k.(position := k.position + |f.input|)), false)
    else
      var (g, n) := PassThrough(f, |f.input|);
      (g.(kind := k.(position := k.position + n)), |g.output| < g.capacity && g.input != [])
  }

  /** Skip what is there of the bytes still to skip. */
  function SkipSome(f: Filter): (r: (Filter, bool))
    requires SkipInRange(f)
    ensures SkipInRange(r.0) && (r.1 ==> |r.0.input| < |f.input|) && |r.0.input| <= |f.input|
    ensures r.0.kind.position == f.kind.position && r.0.kind.offset == f.kind.offset
  {
    var k := f.kind;
    var n := Min(k.toSkip - k.skipped, |f.input|);
    (f.(input := f.input[n..], kind := k.(skipped := k.skipped + n)), n > 0 && f.input[n..] != [])
  }

  /** One activation of the skip filter's `process`, up to its recursive call: does it recurse? */
  function SkipLevel(f: Filter): (r: (Filter, bool))
    requires SkipInRange(f)
    ensures SkipInRange(r.0)
  {
    if f.kind.position < f.kind.offset then PassBefore(f)
    else if f.kind.skipped == f.kind.toSkip then PassAfter(f)
    else SkipSome(f)
  }

  /** The guard under which the recursion of the skip filter ends; always true for offset 0. */
  predicate SkipAdvances(f: Filter)
    requires f.kind.Skip?
  {
    f.kind.position < f.kind.offset ==> f.Room() >= Min(|f.input|, f.kind.offset - f.kind.position)
  }

  /** The skip filter's `process`, recursion included. */
  function SkipProcess(f: Filter): (g: Filter)
    requires SkipInRange(f) && SkipAdvances(f)
    ensures SkipInRange(g) && |g.input| <= |f.input|
    decreases |f.input|
  {
    var (g, again) := SkipLevel(f);
    if again then SkipProcess(g) else SkipMark(g)
  }

  /** `n` levels of the recursion, from outside. */
  function SkipLevels(f: Filter, n: nat): (r: (Filter, bool))
    requires SkipInRange(f)
    ensures SkipInRange(r.0)
    decreases n
  {
    var (g, again) := SkipLevel(f);
    if again && n > 0 then SkipLevels(g, n - 1) else (g, again)
  }

  /**
   The skip filter's `process` comes back exactly when, before the offset, the output buffer has
   room for every byte to let through; otherwise it calls itself on an unchanged state for ever.
   */
  lemma SkipEndsExactly(f: Filter)
    requires SkipInRange(f)
    ensures SkipAdvances(f) <==> exists n: nat :: !SkipLevels(f, n).1
  {
    if SkipAdvances(f) {
      SkipEnds(f);
    } else {
      forall n: nat
        ensures SkipLevels(f, n).1
      {
        SkipIsStuck(f, n);
      }
    }
  }

  lemma LevelAdvances(f: Filter)
    requires SkipInRange(f) && SkipAdvances(f)
    ensures var (g, again) := SkipLevel(f); again ==> SkipAdvances(g) && |g.input| < |f.input|
  {
  }

  lemma {:induction false} SkipEnds(f: Filter)
    requires SkipInRange(f) && SkipAdvances(f)
    ensures exists n: nat :: !SkipLevels(f, n).1
    decreases |f.input|
  {
    hide SkipLevel;
    LevelAdvances(f);
    var (g, again) := SkipLevel(f);
    if again {
      SkipEnds(g);
      var n: nat :| !SkipLevels(g, n).1;
      assert !SkipLevels(f, n + 1).1;
    } else {
      assert !SkipLevels(f, 0).1;
    }
  }

  lemma {:induction false} SkipIsStuck(f: Filter, n: nat)
    requires SkipInRange(f) && !SkipAdvances(f)
    ensures SkipLevels(f, n).1
    decreases n
  {
    var (g, again) := SkipLevel(f);
    assert again && !SkipAdvances(g);
    if n > 0 {
      SkipIsStuck(g, n - 1);
    }
  }

  function XorProcess(f: Filter): (g: Filter)
    requires f.kind.Xor? && |f.output| <= f.capacity && f.kind.counter < |f.kind.key|
    ensures g.kind.Xor? && g.kind.counter < |g.kind.key| && |g.output| <= g.capacity == f.capacity && |g.input| <= |f.input|
  {
    TurnInRange(f.kind.counter, Min(|f.input|, f.Room()), |f.kind.key|);
    var n := Min(|f.input|, f.Room());
    var k := f.kind;
    var input := f.input[n..];
    var output := f.output + XorKey(f.input[..n], k.key, k.counter);
    f.(input := input, output := output, kind := k.(counter := Turn(k.counter, n, |k.key|)),
       finished := f.finished || (f.ended && input == [] && output == []))
  }

  /** Buffers within their bounds and the counters of the kind in range. */
  predicate InBounds(f: Filter) {
    1 <= f.capacity && |f.input| <= f.capacity && |f.output| <= f.capacity
    && match f.kind
       case Xor(key, counter) => counter < |key|
       case Skip(toSkip, toPass, offset, position, skipped, passed) =>
         offset == 0 && skipped <= toSkip && passed <= toPass && (passed > 0 ==> skipped == toSkip)
         && (!f.started ==> skipped == 0 && passed == 0)
  }

  function Process(f: Filter): (g: Filter)
    requires InBounds(f) && f.started
    ensures InBounds(g)
  {
    if f.kind.Xor? then XorProcess(f)
    else
      SkipStaysInBounds(f);
      SkipProcess(f)
  }

  lemma {:induction false} SkipStaysInBounds(f: Filter)
    requires InBounds(f) && f.kind.Skip? && f.started
    ensures InBounds(SkipProcess(f)) && SkipProcess(f).started
    decreases |f.input|
  {
    var (g, again) := SkipLevel(f);
    LevelInBounds(f);
    if again {
      SkipStaysInBounds(g);
    }
  }

  lemma LevelInBounds(f: Filter)
    requires InBounds(f) && f.kind.Skip? && f.started
    ensures SkipLevel(f).0.started && InBounds(SkipLevel(f).0) && (SkipLevel(f).1 ==> |SkipLevel(f).0.input| < |f.input|)
  {
  }

  /** `init` and `start`, once. */
  function Begun(f: Filter): (g: Filter)
    ensures InBounds(f) ==> InBounds(g)
    ensures g.input == f.input && g.capacity == f.capacity && g.started
  {
    if f.started then f
    else f.(started := true, kind := if f.kind.Skip? then f.kind.(skipped := 0) else f.kind)
  }

  /** `fetchInput`, given what the source answered. */
  function Fetched(f: Filter, r: ReadResult): (g: Filter)
    ensures g.started == f.started
    ensures InBounds(f) && (r.Data? ==> |f.input| + |r.bytes| <= f.capacity) ==> InBounds(g)
  {
    match r
    case EndOfStream => f.(ended := true)
    case Data(bytes) => f.(input := f.input + bytes)
  }

  /** `process`, unless finished or blocked. */
  function Processed(f: Filter): (g: Filter)
    requires InBounds(f) && f.started
    ensures InBounds(g)
  {
    if !f.finished && (f.input != [] || |f.output| < f.capacity) then Process(f) else f
  }

  /** `dumpOutput`, then the end-of-stream decision. */
  function Dump(g: Filter, amount: nat): (r: (Filter, ReadResult))
    ensures InBounds(g) ==> InBounds(r.0)
    ensures r.1.Data? ==> |r.1.bytes| <= amount
  {
    var n := Min(|g.output|, amount);
    var h := g.(output := g.output[n..], input := if g.ended && g.finished then [] else g.input);
    (h, if n == 0 && h.ended && h.input == [] && h.output == [] && h.finished then EndOfStream else Data(g.output[..n]))
  }

  function Drained(f: Filter, amount: nat): (r: (Filter, ReadResult))
    requires InBounds(f) && f.started
    ensures InBounds(r.0) && (r.1.Data? ==> |r.1.bytes| <= amount)
  {
    Dump(Processed(f), amount)
  }

  lemma {:induction false} SkipCapacity(f: Filter)
    requires InBounds(f) && f.kind.Skip? && f.started
    ensures SkipProcess(f).capacity == f.capacity
    decreases |f.input|
  {
    var (g, again) := SkipLevel(f);
    LevelInBounds(f);
    if again {
      SkipCapacity(g);
    }
  }

  /** The buffers keep their size. */
  lemma CapacityStays(f: Filter, amount: nat)
    requires InBounds(f) && f.started
    ensures Drained(f, amount).0.capacity == f.capacity
  {
    hide SkipProcess, XorProcess;
    if f.kind.Skip? {
      SkipCapacity(f);
    }
  }

  // ---------------------------------------------------------------------------------------
  // What a filter still has to deliver, given what its source still has to deliver
  // ---------------------------------------------------------------------------------------

  function Drop(x: seq<byte>, n: nat): seq<byte> {
    if n <= |x| then x[n..] else []
  }

  function Take(x: seq<byte>, n: nat): seq<byte> {
    if n <= |x| then x[..n] else x
  }

  /** What a kind of filter makes of the bytes that have not reached its output yet. */
  function Transform(k: Kind, x: seq<byte>): seq<byte>
    requires k.Xor? ==> k.counter < |k.key|
    requires k.Skip? ==> k.skipped <= k.toSkip && k.passed <= k.toPass
  {
    match k
    case Xor(key, counter) => XorKey(x, key, counter)
    case Skip(toSkip, toPass, _, _, skipped, passed) =>
      var kept := Drop(x, toSkip - skipped);
      if toPass == 0 then kept else Take(kept, toPass - passed)
  }

  function FilterDenotes(f: Filter, upstream: seq<byte>): seq<byte>
    requires InBounds(f)
  {
    f.output + Transform(f.kind, f.input + upstream)
  }

  /** How many more bytes a skip filter counts on getting. */
  function Needs(k: Kind): nat
    requires k.Skip? ==> k.skipped <= k.toSkip && k.passed <= k.toPass
  {
    if k.Skip? then (k.toSkip - k.skipped) + (k.toPass - k.passed) else 0
  }

  ghost predicate FilterGood(f: Filter, upstream: seq<byte>) {
    && InBounds(f)
    && (f.ended ==> upstream == [])
    && (f.finished ==> f.ended && f.input == [] && f.output == [] && Needs(f.kind) == 0)
    && |f.input| + |upstream| >= Needs(f.kind)
  }

  /** Steps left in a filter: a byte costs more the further it has to go. */
  function FilterWork(f: Filter): nat {
    3 * |f.input| + 2 * |f.output| + if f.ended then 0 else 1
  }

  lemma {:induction false} TurnInRange(c: nat, n: nat, length: nat)
    requires c < length
    ensures Turn(c, n, length) < length
    decreases n
  {
    if n > 0 {
      TurnInRange(NextPlace(c, length), n - 1, length);
    }
  }

  lemma {:induction false} XorKeyConcat(a: seq<byte>, b: seq<byte>, key: seq<byte>, c: nat)
    requires c < |key|
    ensures Turn(c, |a|, |key|) < |key|
    ensures XorKey(a + b, key, c) == XorKey(a, key, c) + XorKey(b, key, Turn(c, |a|, |key|))
    decreases |a|
  {
    hide XorByte;
    if a == [] {
      assert a + b == b;
    } else {
      assert (a + b)[1..] == a[1..] + b;
      XorKeyConcat(a[1..], b, key, NextPlace(c, |key|));
    }
  }

  lemma XorProcessKeeps(f: Filter, upstream: seq<byte>)
    requires FilterGood(f, upstream) && f.kind.Xor?
    ensures var g := XorProcess(f);
            FilterGood(g, upstream) && FilterDenotes(g, upstream) == FilterDenotes(f, upstream)
            && FilterWork(g) <= FilterWork(f)
            && (f.input != [] && |f.output| < f.capacity ==> FilterWork(g) < FilterWork(f))
  {
    hide XorByte, XorKey, Turn;
    var n := Min(|f.input|, f.Room());
    var k := f.kind;
    XorKeyConcat(f.input[..n], f.input[n..] + upstream, k.key, k.counter);
    assert f.input + upstream == f.input[..n] + (f.input[n..] + upstream);
  }

  lemma SkippingKeeps(f: Filter, upstream: seq<byte>, n: nat)
    requires FilterGood(f, upstream) && f.kind.Skip? && f.kind.skipped < f.kind.toSkip && f.started && !f.finished
    requires n <= |f.input| && n <= f.kind.toSkip - f.kind.skipped
    ensures var g := f.(input := f.input[n..], kind := f.kind.(skipped := f.kind.skipped + n));
            FilterGood(g, upstream) && FilterDenotes(g, upstream) == FilterDenotes(f, upstream)
            && FilterWork(g) == FilterWork(f) - 3 * n
  {
    hide Drop, Take;
    DropMore(f.input, upstream, n, f.kind.toSkip - f.kind.skipped);
  }

  lemma SkipSomeKeeps(f: Filter, upstream: seq<byte>)
    requires FilterGood(f, upstream) && f.kind.Skip? && f.kind.skipped < f.kind.toSkip && f.started && !f.finished
    ensures var (g, _) := SkipSome(f);
            FilterGood(g, upstream) && FilterDenotes(g, upstream) == FilterDenotes(f, upstream)
            && FilterWork(g) <= FilterWork(f) && (f.input != [] ==> FilterWork(g) < FilterWork(f))
  {
    hide FilterDenotes, FilterGood, FilterWork;
    GoodInBounds(f, upstream);
    SkippingKeeps(f, upstream, Min(f.kind.toSkip - f.kind.skipped, |f.input|));
  }

  lemma DropMore(input: seq<byte>, upstream: seq<byte>, n: nat, all: nat)
    requires n <= |input| && n <= all
    ensures Drop(input + upstream, all) == Drop(input[n..] + upstream, all - n)
  {
    assert (input + upstream)[n..] == input[n..] + upstream;
  }

  lemma PassingKeeps(f: Filter, upstream: seq<byte>, n: nat)
    requires FilterGood(f, upstream) && f.kind.Skip? && f.kind.skipped == f.kind.toSkip && f.started && !f.finished
    requires n <= |f.input| && n <= f.Room() && (f.kind.toPass == 0 || n <= f.kind.toPass - f.kind.passed)
    ensures var k := f.kind;
            var g := f.(input := f.input[n..], output := f.output + f.input[..n],
                        kind := k.(passed := if k.toPass == 0 then k.passed else k.passed + n, position := k.position + n));
            FilterGood(g, upstream) && FilterDenotes(g, upstream) == FilterDenotes(f, upstream) && FilterWork(g) == FilterWork(f) - n
  {
    var k := f.kind;
    var x, y := f.input + upstream, f.input[n..] + upstream;
    assert x == f.input[..n] + y;
    assert Drop(x, 0) == x && Drop(y, 0) == y;
    if k.toPass == 0 {
      assert f.output + x == (f.output + f.input[..n]) + y;
    } else {
      var left := k.toPass - k.passed;
      assert Take(x, left) == f.input[..n] + Take(y, left - n);
      assert f.output + Take(x, left) == (f.output + f.input[..n]) + Take(y, left - n);
    }
  }

  lemma DiscardingKeeps(f: Filter, upstream: seq<byte>)
    requires FilterGood(f, upstream) && f.kind.Skip? && f.kind.skipped == f.kind.toSkip && f.started && !f.finished
    requires f.kind.toPass != 0 && f.kind.passed == f.kind.toPass
    ensures var g := f.(input := [], kind := f.kind.(position := f.kind.position + |f.input|));
            FilterGood(g, upstream) && FilterDenotes(g, upstream) == FilterDenotes(f, upstream)
            && FilterWork(g) == FilterWork(f) - 3 * |f.input|
  {
    assert Take(f.input + upstream, 0) == [] && Take([] + upstream, 0) == [];
  }

  lemma PassAfterKeeps(f: Filter, upstream: seq<byte>)
    requires FilterGood(f, upstream) && f.kind.Skip? && f.kind.skipped == f.kind.toSkip && f.started && !f.finished
    ensures var (g, _) := PassAfter(f);
            FilterGood(g, upstream) && FilterDenotes(g, upstream) == FilterDenotes(f, upstream)
            && FilterWork(g) <= FilterWork(f)
            && (f.input != [] && |f.output| < f.capacity ==> FilterWork(g) < FilterWork(f))
  {
    hide FilterDenotes, FilterGood, FilterWork;
    var k := f.kind;
    if k.passed < k.toPass || k.toPass == 0 {
      var amount := if k.toPass == 0 then |f.input| else k.toPass - k.passed;
      var n := Min(Min(|f.input|, f.Room()), amount);
      GoodInBounds(f, upstream);
      PassingKeeps(f, upstream, n);
    } else {
      GoodInBounds(f, upstream);
      DiscardingKeeps(f, upstream);
    }
  }

  lemma GoodInBounds(f: Filter, upstream: seq<byte>)
    requires FilterGood(f, upstream)
    ensures InBounds(f)
  {
  }

  lemma {:induction false} SkipProcessKeeps(f: Filter, upstream: seq<byte>)
    requires FilterGood(f, upstream) && f.kind.Skip? && f.started && !f.finished
    ensures var g := SkipProcess(f);
            FilterGood(g, upstream) && FilterDenotes(g, upstream) == FilterDenotes(f, upstream)
            && FilterWork(g) <= FilterWork(f)
            && (f.input != [] && |f.output| < f.capacity ==> FilterWork(g) < FilterWork(f))
            && (f.ended && f.input == [] && f.output == [] ==> g.finished && g.input == [] && g.output == [])
    decreases |f.input|
  {
    hide PassAfter, SkipSome, FilterDenotes;
    if f.kind.skipped == f.kind.toSkip {
      PassAfterKeeps(f, upstream);
    } else {
      SkipSomeKeeps(f, upstream);
    }
    var (g, again) := SkipLevel(f);
    LevelFlags(f);
    if again {
      SkipProcessKeeps(g, upstream);
    } else {
      MarkKeeps(g, upstream);
    }
  }

  lemma LevelFlags(f: Filter)
    requires SkipInRange(f) && f.kind.position >= f.kind.offset
    ensures var g := SkipLevel(f).0;
            g.finished == f.finished && g.started == f.started && g.ended == f.ended && g.capacity == f.capacity
            && (f.input == [] ==> g.input == [] && g.output == f.output && !SkipLevel(f).1)
  {
  }

  lemma MarkKeeps(f: Filter, upstream: seq<byte>)
    requires FilterGood(f, upstream) && f.kind.Skip? && !f.finished
    ensures var g := SkipMark(f);
            FilterGood(g, upstream) && FilterDenotes(g, upstream) == FilterDenotes(f, upstream) && FilterWork(g) == FilterWork(f)
            && (f.ended && f.input == [] && f.output == [] ==> g.finished)
  {
  }

  lemma ProcessKeeps(f: Filter, upstream: seq<byte>)
    requires FilterGood(f, upstream) && f.started && !f.finished
    ensures var g := Process(f);
            FilterGood(g, upstream) && FilterDenotes(g, upstream) == FilterDenotes(f, upstream)
            && FilterWork(g) <= FilterWork(f)
            && (f.input != [] && |f.output| < f.capacity ==> FilterWork(g) < FilterWork(f))
            && (f.ended && f.input == [] && f.output == [] ==> g.finished && g.input == [] && g.output == [])
  {
    hide XorProcess, SkipProcess, FilterDenotes;
    if f.kind.Xor? {
      XorProcessKeeps(f, upstream);
      if f.ended && f.input == [] && f.output == [] {
        XorFinishes(f);
      }
    } else {
      SkipProcessKeeps(f, upstream);
    }
  }

  lemma XorFinishes(f: Filter)
    requires InBounds(f) && f.kind.Xor? && f.ended && f.input == [] && f.output == []
    ensures var g := XorProcess(f); g.finished && g.input == [] && g.output == []
  {
  }

  lemma BegunKeeps(f: Filter, upstream: seq<byte>)
    requires FilterGood(f, upstream)
    ensures var g := Begun(f);
            FilterGood(g, upstream) && g.started && FilterDenotes(g, upstream) == FilterDenotes(f, upstream)
            && FilterWork(g) == FilterWork(f) && g.ended == f.ended && g.finished == f.finished && g.capacity == f.capacity
  {
    if f.kind.Skip? && !f.started {
      assert f.kind.(skipped := 0) == f.kind;
    }
  }

  lemma FetchedKeeps(f: Filter, c: seq<byte>, upstream: seq<byte>)
    requires FilterGood(f, c + upstream) && |f.input| + |c| <= f.capacity && !f.finished
    ensures var g := Fetched(f, Data(c));
            (f.ended ==> c == []) && FilterGood(g, upstream) && FilterDenotes(g, upstream) == FilterDenotes(f, c + upstream)
            && FilterWork(g) == FilterWork(f) + 3 * |c|
  {
    assert f.input + (c + upstream) == (f.input + c) + upstream;
  }

  lemma EndedKeeps(f: Filter)
    requires FilterGood(f, [])
    ensures var g := Fetched(f, EndOfStream);
            FilterGood(g, []) && FilterDenotes(g, []) == FilterDenotes(f, []) && FilterWork(g) <= FilterWork(f)
            && (!f.ended ==> FilterWork(g) < FilterWork(f))
  {
  }

  lemma FinishedDenotesNothing(h: Filter, upstream: seq<byte>)
    requires FilterGood(h, upstream) && h.finished
    ensures FilterDenotes(h, upstream) == []
  {
    assert h.input + upstream == [];
  }

  lemma DumpKeeps(g: Filter, upstream: seq<byte>, amount: nat)
    requires FilterGood(g, upstream) && amount >= 1
    ensures var (h, r) := Dump(g, amount);
            FilterGood(h, upstream) && h.started == g.started && h.kind == g.kind
            && match r
               case EndOfStream => h == g && g.ended && g.finished
               case Data(c) =>
                 |c| <= amount && FilterDenotes(g, upstream) == c + FilterDenotes(h, upstream) && FilterWork(h) + |c| <= FilterWork(g)
                 && (g.output != [] ==> FilterWork(h) + |c| < FilterWork(g))
                 && !(g.finished && g.ended)
  {
    var n := Min(|g.output|, amount);
    var rest := Transform(g.kind, g.input + upstream);
    assert g.output + rest == g.output[..n] + (g.output[n..] + rest);
  }

  lemma ProcessedKeeps(f: Filter, upstream: seq<byte>)
    requires FilterGood(f, upstream) && f.started
    ensures var g := Processed(f);
            FilterGood(g, upstream) && g.started && g.kind.Xor? == f.kind.Xor? && FilterDenotes(g, upstream) == FilterDenotes(f, upstream)
            && FilterWork(g) <= FilterWork(f)
            && (f.input != [] ==> g.output != [] || FilterWork(g) < FilterWork(f))
            && (f.ended ==> g.output != [] || FilterWork(g) < FilterWork(f) || g.finished)
            && (f.finished ==> g.finished)
  {
    hide FilterDenotes, Process;
    if !f.finished && (f.input != [] || |f.output| < f.capacity) {
      ProcessKeeps(f, upstream);
      ProcessStarted(f);
      var g := Process(f);
      if f.input == [] && f.output != [] {
        OutputStays(f);
      } else if f.input != [] && |f.output| >= f.capacity {
        OutputStays(f);
      }
    }
  }

  /** `process` only adds to the output. */
  lemma OutputStays(f: Filter)
    requires InBounds(f) && f.started && f.output != []
    ensures Process(f).output != []
  {
    if f.kind.Skip? {
      SkipOutputStays(f);
    }
  }

  lemma {:induction false} SkipOutputStays(f: Filter)
    requires SkipInRange(f) && SkipAdvances(f) && f.output != []
    ensures SkipProcess(f).output != []
    decreases |f.input|
  {
    var (g, again) := SkipLevel(f);
    if again {
      SkipOutputStays(g);
    }
  }

  /** One turn of a filter delivers a prefix of what it denotes, makes progress, or ends. */
  lemma DrainedKeeps(f: Filter, upstream: seq<byte>, amount: nat)
    requires FilterGood(f, upstream) && f.started && amount >= 1
    ensures var (h, r) := Drained(f, amount);
            FilterGood(h, upstream) && h.started && h.kind.Xor? == f.kind.Xor? && FilterWork(h) <= FilterWork(f)
            && match r
               case EndOfStream => h.ended && h.finished && FilterDenotes(f, upstream) == [] && FilterDenotes(h, upstream) == []
               case Data(c) =>
                 !f.finished && |c| <= amount && FilterDenotes(f, upstream) == c + FilterDenotes(h, upstream) && FilterWork(h) + |c| <= FilterWork(f)
                 && (f.input != [] || f.ended ==> FilterWork(h) + |c| < FilterWork(f))
  {
    hide FilterDenotes, Process, Processed, Dump, FilterWork;
    ProcessedKeeps(f, upstream);
    var g := Processed(f);
    DumpKeeps(g, upstream, amount);
    if g.finished {
      FinishedDenotesNothing(g, upstream);
    }
  }

  lemma ProcessStarted(f: Filter)
    requires InBounds(f) && f.started
    ensures Process(f).started == f.started && Process(f).kind.Xor? == f.kind.Xor?
  {
    if f.kind.Skip? {
      SkipProcessStarted(f);
    }
  }

  lemma {:induction false} SkipProcessStarted(f: Filter)
    requires SkipInRange(f) && SkipAdvances(f)
    ensures SkipProcess(f).started == f.started
    decreases |f.input|
  {
    var (g, again) := SkipLevel(f);
    if again {
      SkipProcessStarted(g);
    }
  }

  /** Only `fetchInput` marks a filter as ended. */
  lemma EndedStays(f: Filter, amount: nat)
    requires InBounds(f) && f.started
    ensures Drained(f, amount).0.ended == f.ended
  {
    hide XorProcess, SkipProcess;
    if f.kind.Skip? {
      SkipEndedStays(f);
    } else {
      XorEndedStays(f);
    }
  }

  lemma XorEndedStays(f: Filter)
    requires InBounds(f) && f.kind.Xor?
    ensures XorProcess(f).ended == f.ended
  {
  }

  lemma {:induction false} SkipEndedStays(f: Filter)
    requires SkipInRange(f) && SkipAdvances(f)
    ensures SkipProcess(f).ended == f.ended
    decreases |f.input|
  {
    var (g, again) := SkipLevel(f);
    if again {
      SkipEndedStays(g);
    }
  }
}
