/** Bytes and little-endian numbers, shared by every component. */
module Bytes {
  type byte = bv8

  /** The lowest base-256 digit of `n`. */
  function Digit(n: nat): byte {
    (n % 256) as byte
  }

  /** `w` bytes of `n`, least significant first; higher digits are cut off. */
  function LittleEndian(n: nat, w: nat): (s: seq<byte>)
    ensures |s| == w
    decreases w
  {
    if w == 0 then [] else [Digit(n)] + LittleEndian(n / 256, w - 1)
  }

  /** 256^w */
  function Base(w: nat): (b: nat)
    ensures b > 0
  {
    if w == 0 then 1 else 256 * Base(w - 1)
  }

  lemma DigitAndRest(low: nat, b: nat, high: nat)
    ensures Digit(low + (256 * b) * high) == Digit(low) && (low + (256 * b) * high) / 256 == low / 256 + b * high
  {
    Reassociate(b, high);
    assert (low + 256 * (b * high)) % 256 == low % 256;
  }

  lemma Reassociate(b: nat, h: nat)
    ensures (256 * b) * h == 256 * (b * h)
  {
  }

  /** Low digits and then high digits are the digits of the combined number. */
  lemma {:induction false} LittleEndianSplit(low: nat, high: nat, v: nat, w: nat)
    requires low < Base(v)
    ensures LittleEndian(low, v) + LittleEndian(high, w) == LittleEndian(low + Base(v) * high, v + w)
    decreases v
  {
    hide Digit;
    if v == 0 {
      assert [] + LittleEndian(high, w) == LittleEndian(high, w);
    } else {
      DigitAndRest(low, Base(v - 1), high);
      LittleEndianSplit(low / 256, high, v - 1, w);
    }
  }

  /** What lies above the `w` digits does not show. */
  lemma {:induction false} LittleEndianCut(low: nat, high: nat, w: nat)
    ensures LittleEndian(low + Base(w) * high, w) == LittleEndian(low, w)
    decreases w
  {
    hide Digit;
    if w > 0 {
      DigitAndRest(low, Base(w - 1), high);
      LittleEndianCut(low / 256, high, w - 1);
    }
  }

  function Value(b: byte): (n: nat)
    ensures n < 256
  {
    b as nat
  }

  /** The number whose base-256 digits are `s`, least significant first. */
  function Number(s: seq<byte>): nat {
    if s == [] then 0 else Value(s[0]) + 256 * Number(s[1..])
  }

  lemma DigitValue(n: nat, b: byte)
    ensures Value(Digit(n)) == n % 256 && Digit(Value(b)) == b
  {
    SmallValue(n % 256);
    ValueSmall(b);
    assert Value(b) % 256 == Value(b);
  }

  lemma SmallValue(k: nat)
    requires k < 256
    ensures Value(k as byte) == k
  {
  }

  lemma ValueSmall(b: byte)
    ensures Value(b) as byte == b
  {
  }

  lemma DivideTwice(n: nat, b: nat)
    requires b > 0
    ensures (n / 256) / b == n / (256 * b)
  {
    var d, q, r := n / 256, (n / 256) / b, (n / 256) % b;
    assert d == b * q + r;
    Reassociate(b, q);
    QuotientIs(n, 256 * b, q, 256 * r + n % 256);
  }

  lemma QuotientIs(n: nat, m: nat, q: nat, r: nat)
    requires n == m * q + r && r < m
    ensures n / m == q
  {
    assert n == m * (n / m) + n % m;
    if n / m > q {
      Distribute(m, n / m, q);
      AtLeastOnce(m, n / m - q);
    } else if n / m < q {
      Distribute(m, q, n / m);
      AtLeastOnce(m, q - n / m);
    }
  }

  lemma Distribute(m: int, a: int, b: int)
    ensures m * (a - b) == m * a - m * b
  {
  }

  lemma {:induction false} AtLeastOnce(m: int, d: int)
    requires m >= 0 && d > 0
    ensures m * d >= m
    decreases d
  {
    if d > 1 {
      AtLeastOnce(m, d - 1);
      Distribute(m, d, 1);
    }
  }

  /** Byte `k` of a number is its digit of weight 256^k: the least significant byte stands first. */
  lemma {:induction false} LittleEndianAt(n: nat, w: nat, k: nat)
    requires k < w
    ensures Value(LittleEndian(n, w)[k]) == n / Base(k) % 256
    decreases w
  {
    hide Digit, Value;
    if k == 0 {
      DigitValue(n, 0);
    } else {
      LittleEndianAt(n / 256, w - 1, k - 1);
      DivideTwice(n, Base(k - 1));
    }
  }

  lemma Quotient(n: nat, d: nat, rest: nat)
    requires n == d + 256 * rest && d < 256
    ensures n / 256 == rest && n % 256 == d
  {
  }

  /** Writing a number that fits and reading it back. */
  lemma {:induction false} NumberOfDigits(n: nat, w: nat)
    requires n < Base(w)
    ensures Number(LittleEndian(n, w)) == n
    decreases w
  {
    hide Digit, Value;
    if w > 0 {
      DigitValue(n, 0);
      NumberOfDigits(n / 256, w - 1);
      var s := LittleEndian(n, w);
      assert s[1..] == LittleEndian(n / 256, w - 1);
    }
  }

  /** Reading a number and writing it back. */
  lemma {:induction false} DigitsOfNumber(s: seq<byte>)
    ensures Number(s) < Base(|s|) && LittleEndian(Number(s), |s|) == s
    decreases |s|
  {
    hide Digit, Value;
    if s != [] {
      DigitsOfNumber(s[1..]);
      Quotient(Number(s), Value(s[0]), Number(s[1..]));
      DigitOfSum(Value(s[0]), Number(s[1..]));
      DigitValue(0, s[0]);
      assert s == [s[0]] + s[1..];
    }
  }

  lemma NumberOfFour(s: seq<byte>, n: nat)
    requires |s| == 4 && n == Value(s[0]) + 256 * (Value(s[1]) + 256 * (Value(s[2]) + 256 * Value(s[3])))
    ensures Number(s) == n
  {
    hide Value;
    assert s[1..][1..] == s[2..] && s[2..][1..] == s[3..] && s[3..][1..] == [];
    assert Number(s[3..]) == Value(s[3]);
    assert Number(s[2..]) == Value(s[2]) + 256 * Number(s[3..]);
    assert Number(s[1..]) == Value(s[1]) + 256 * Number(s[2..]);
  }

  lemma DigitOfSum(d: nat, rest: nat)
    ensures Digit(d + 256 * rest) == Digit(d)
  {
    assert (d + 256 * rest) % 256 == d % 256;
  }

  function Concat(parts: seq<seq<byte>>): seq<byte>
    decreases |parts|
  {
    if parts == [] then [] else parts[0] + Concat(parts[1..])
  }

  function Total(sizes: seq<nat>): nat
    decreases |sizes|
  {
    if sizes == [] then 0 else sizes[0] + Total(sizes[1..])
  }

  lemma {:induction false} ConcatAppend(parts: seq<seq<byte>>, last: seq<byte>)
    ensures Concat(parts + [last]) == Concat(parts) + last
    decreases |parts|
  {
    if parts == [] {
      var one: seq<seq<byte>> := [last];
      assert one[1..] == [] && parts + [last] == one;
    } else {
      assert (parts + [last])[1..] == parts[1..] + [last];
      ConcatAppend(parts[1..], last);
    }
  }

  lemma {:induction false} ConcatTwo(a: seq<seq<byte>>, b: seq<seq<byte>>)
    ensures Concat(a + b) == Concat(a) + Concat(b)
    decreases |a|
  {
    if a == [] {
      assert a + b == b;
    } else {
      assert (a + b)[1..] == a[1..] + b;
      ConcatTwo(a[1..], b);
    }
  }

  lemma {:induction false} SumAppend(sizes: seq<nat>, last: nat)
    ensures Total(sizes + [last]) == Total(sizes) + last
    decreases |sizes|
  {
    if sizes == [] {
      var one: seq<nat> := [last];
      assert one[1..] == [] && sizes + [last] == one;
    } else {
      assert (sizes + [last])[1..] == sizes[1..] + [last];
      SumAppend(sizes[1..], last);
    }
  }
}
