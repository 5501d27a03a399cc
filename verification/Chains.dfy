/**
 Chains of filters over a source, as filter queues build them (src/box/filter_queue.h), and the
 slice an extraction takes (src/filters/filters.h): what they deliver, for any buffer sizes and
 any sizes of the reads.
 */
module Chains {
  import opened Bytes
  import opened Filters
  import opened Streams

  // ---------------------------------------------------------------------------------------
  // Xor chains, byte by byte
  // ---------------------------------------------------------------------------------------

  ghost predicate Keys(keys: seq<seq<byte>>) {
    forall i :: 0 <= i < |keys| ==> keys[i] != []
  }

  /** The bytes after every filter of the chain, the first key being applied first. */
  function XorAll(keys: seq<seq<byte>>, x: seq<byte>): (r: seq<byte>)
    requires Keys(keys)
    ensures |r| == |x|
    decreases |keys|
  {
    if keys == [] then x else XorAll(keys[1..], XorKey(x, keys[0], 0))
  }

  /** What the whole chain adds to byte `i`. */
  function KeyStream(keys: seq<seq<byte>>, i: nat): byte
    requires Keys(keys)
    decreases |keys|
  {
    if keys == [] then 0 else XorByte(keys[0][i % |keys[0]|], KeyStream(keys[1..], i))
  }

  lemma XorByteAssociative(a: byte, b: byte, c: byte)
    ensures XorByte(a, XorByte(b, c)) == XorByte(XorByte(a, b), c)
  {
  }

  lemma XorByteBasics(a: byte, b: byte)
    ensures XorByte(a, b) == XorByte(b, a)
    ensures XorByte(a, a) == 0
    ensures XorByte(a, 0) == a
  {
  }

  lemma XorByteLaws(a: byte, b: byte, c: byte)
    ensures XorByte(a, b) == XorByte(b, a)
    ensures XorByte(a, XorByte(b, c)) == XorByte(XorByte(a, b), c)
    ensures XorByte(XorByte(a, b), b) == a
    ensures XorByte(a, 0) == a
  {
    hide XorByte;
    XorByteAssociative(a, b, c);
    XorByteAssociative(a, b, b);
    XorByteBasics(a, b);
    XorByteBasics(b, b);
  }

  lemma {:induction false} XorKeyAt(x: seq<byte>, key: seq<byte>, c: nat, i: nat)
    requires c < |key| && i < |x|
    ensures Turn(c, i, |key|) < |key| && XorKey(x, key, c)[i] == XorByte(x[i], key[Turn(c, i, |key|)])
    decreases i
  {
    hide XorByte;
    if i > 0 {
      XorKeyAt(x[1..], key, NextPlace(c, |key|), i - 1);
    }
    TurnInRange(c, i, |key|);
  }

  lemma {:induction false} TurnIsModulo(c: nat, i: nat, length: nat)
    requires c < length
    ensures Turn(c, i, length) == (c + i) % length
    decreases i
  {
    if i > 0 {
      TurnIsModulo(NextPlace(c, length), i - 1, length);
      if c + 1 == length {
        WrapAround(i - 1, length);
      }
    } else {
      assert c % length == c;
    }
  }

  lemma WrapAround(i: nat, length: nat)
    requires length > 0
    ensures (length + i) % length == i % length
  {
    var q := i / length;
    assert i == length * q + i % length;
    assert length + i == length * (q + 1) + i % length by {
      assert length * (q + 1) == length * q + length;
    }
    Remainder(length + i, length, q + 1, i % length);
  }

  lemma Remainder(n: nat, m: nat, q: nat, r: nat)
    requires m > 0 && r < m && n == m * q + r
    ensures n % m == r
  {
    var q', r' := n / m, n % m;
    assert n == m * q' + r';
    Distribute(m, q, q');
    if q > q' {
      AtLeastOne(m, q - q');
    } else if q < q' {
      Distribute(m, q', q);
      AtLeastOne(m, q' - q);
    }
  }

  lemma Distribute(m: int, a: int, b: int)
    ensures m * (a - b) == m * a - m * b
  {
  }

  lemma AtLeastOne(m: nat, d: nat)
    requires d >= 1
    ensures m * d >= m
  {
  }

  /** A chain adds to byte i every key at place i modulo its length, and nothing else. */
  lemma {:induction false} XorAllAt(keys: seq<seq<byte>>, x: seq<byte>, i: nat)
    requires Keys(keys) && i < |x|
    ensures XorAll(keys, x)[i] == XorByte(x[i], KeyStream(keys, i))
    decreases |keys|
  {
    hide XorByte, XorKey, Turn;
    if keys == [] {
      XorByteLaws(x[i], 0, 0);
    } else {
      var key := keys[0];
      XorAllAt(keys[1..], XorKey(x, key, 0), i);
      XorKeyAt(x, key, 0, i);
      TurnIsModulo(0, i, |key|);
      XorByteLaws(x[i], key[i % |key|], KeyStream(keys[1..], i));
    }
  }

  function Reverse<T>(s: seq<T>): (r: seq<T>)
    ensures |r| == |s|
    ensures forall i :: 0 <= i < |s| ==> r[i] == s[|s| - 1 - i]
  {
    if s == [] then [] else Reverse(s[1..]) + [s[0]]
  }

  lemma {:induction false} KeyStreamConcat(a: seq<seq<byte>>, b: seq<seq<byte>>, i: nat)
    requires Keys(a) && Keys(b)
    ensures Keys(a + b) && KeyStream(a + b, i) == XorByte(KeyStream(a, i), KeyStream(b, i))
    decreases |a|
  {
    hide XorByte;
    if a == [] {
      assert a + b == b;
      XorByteLaws(KeyStream(b, i), 0, 0);
    } else {
      KeyStreamConcat(a[1..], b, i);
      assert (a + b)[1..] == a[1..] + b;
      XorByteLaws(a[0][i % |a[0]|], KeyStream(a[1..], i), KeyStream(b, i));
    }
  }

  lemma {:induction false} KeyStreamReverse(keys: seq<seq<byte>>, i: nat)
    requires Keys(keys)
    ensures Keys(Reverse(keys)) && KeyStream(Reverse(keys), i) == KeyStream(keys, i)
    decreases |keys|
  {
    hide XorByte;
    if keys != [] {
      var key, rest := keys[0], keys[1..];
      KeyStreamReverse(rest, i);
      KeyStreamConcat(Reverse(rest), [key], i);
      assert KeyStream([key], i) == XorByte(key[i % |key|], 0) by {
        var one: seq<seq<byte>> := [key];
        assert one[1..] == [];
      }
      XorByteLaws(key[i % |key|], 0, 0);
      XorByteLaws(key[i % |key|], KeyStream(rest, i), 0);
    }
  }

  /** The chain applied in reverse order undoes the chain. */
  lemma UnapplyApply(keys: seq<seq<byte>>, x: seq<byte>)
    requires Keys(keys)
    ensures Keys(Reverse(keys)) && XorAll(Reverse(keys), XorAll(keys, x)) == x
  {
    hide XorByte;
    KeyStreamReverse(keys, 0);
    var y := XorAll(keys, x);
    forall i | 0 <= i < |x|
      ensures XorAll(Reverse(keys), y)[i] == x[i]
    {
      KeyStreamReverse(keys, i);
      XorAllAt(keys, x, i);
      XorAllAt(Reverse(keys), y, i);
      XorByteLaws(x[i], KeyStream(keys, i), 0);
    }
  }

  /** A prefix of the input gives the same prefix of the output: what comes after never matters. */
  lemma XorAllPrefix(keys: seq<seq<byte>>, x: seq<byte>, y: seq<byte>)
    requires Keys(keys)
    ensures XorAll(keys, x + y)[..|x|] == XorAll(keys, x)
  {
    hide XorByte;
    forall i | 0 <= i < |x|
      ensures XorAll(keys, x + y)[i] == XorAll(keys, x)[i]
    {
      XorAllAt(keys, x, i);
      XorAllAt(keys, x + y, i);
    }
  }

  // ---------------------------------------------------------------------------------------
  // Queues of arbitrary inverse filters
  // ---------------------------------------------------------------------------------------

  /** Any filter, by what it makes of a whole stream in each direction. */
  datatype Codec = Codec(apply: seq<byte> -> seq<byte>, unapply: seq<byte> -> seq<byte>)

  ghost predicate Inverse(c: Codec) {
    forall x :: c.unapply(c.apply(x)) == x
  }

  function ApplyQueue(queue: seq<Codec>, x: seq<byte>): seq<byte>
    decreases |queue|
  {
    if queue == [] then x else ApplyQueue(queue[1..], queue[0].apply(x))
  }

  /** Unapplying goes through the queue backwards. */
  function UnapplyQueue(queue: seq<Codec>, x: seq<byte>): seq<byte>
    decreases |queue|
  {
    if queue == [] then x else UnapplyQueue(queue[..|queue| - 1], queue[|queue| - 1].unapply(x))
  }

  lemma {:induction false} ApplyQueueLast(queue: seq<Codec>, x: seq<byte>)
    requires queue != []
    ensures ApplyQueue(queue, x) == queue[|queue| - 1].apply(ApplyQueue(queue[..|queue| - 1], x))
    decreases |queue|
  {
    if |queue| > 1 {
      ApplyQueueLast(queue[1..], queue[0].apply(x));
      assert queue[1..][..|queue| - 2] == queue[..|queue| - 1][1..];
    }
  }

  /** Unapplying a queue of pairwise inverse filters undoes applying it. */
  lemma {:induction false} QueueInverts(queue: seq<Codec>, x: seq<byte>)
    requires forall i :: 0 <= i < |queue| ==> Inverse(queue[i])
    ensures UnapplyQueue(queue, ApplyQueue(queue, x)) == x
    decreases |queue|
  {
    if queue != [] {
      var last, rest := queue[|queue| - 1], queue[..|queue| - 1];
      ApplyQueueLast(queue, x);
      assert Inverse(last);
      QueueInverts(rest, x);
    }
  }
}
