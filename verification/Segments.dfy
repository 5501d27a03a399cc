/**
 A file as a sequence of contiguous parts: where each part stands, and what writing inside one
 part changes.
 */
module Segments {
  import opened Bytes
  import opened Buffers

  /** Where part `i` starts. */
  function Start(parts: seq<seq<byte>>, i: nat): nat
    requires i <= |parts|
  {
    |Concat(parts[..i])|
  }

  lemma ThreeParts(parts: seq<seq<byte>>, i: nat)
    requires i < |parts|
    ensures Concat(parts) == Concat(parts[..i]) + parts[i] + Concat(parts[i + 1..])
  {
    var one: seq<seq<byte>> := [parts[i]];
    assert parts == parts[..i] + one + parts[i + 1..];
    ConcatTwo(parts[..i] + one, parts[i + 1..]);
    ConcatAppend(parts[..i], parts[i]);
  }

  /** A part is found at its start. */
  lemma PartAt(parts: seq<seq<byte>>, i: nat)
    requires i < |parts|
    ensures Start(parts, i) + |parts[i]| <= |Concat(parts)|
    ensures Concat(parts)[Start(parts, i)..Start(parts, i) + |parts[i]|] == parts[i]
    ensures Start(parts, i + 1) == Start(parts, i) + |parts[i]|
  {
    ThreeParts(parts, i);
    assert parts[..i + 1] == parts[..i] + [parts[i]];
    ConcatAppend(parts[..i], parts[i]);
  }

  lemma WholeStart(parts: seq<seq<byte>>)
    ensures Start(parts, |parts|) == |Concat(parts)|
  {
    assert parts[..|parts|] == parts;
  }

  lemma OverwriteMiddle(a: seq<byte>, b: seq<byte>, c: seq<byte>, k: nat, v: seq<byte>)
    requires k + |v| <= |b|
    ensures Overwrite(a + b + c, |a| + k, v, []) == a + Overwrite(b, k, v, []) + c
    ensures |Overwrite(b, k, v, [])| == |b|
  {
    var x := a + b + c;
    assert x[..|a| + k] == a + b[..k];
    assert x[|a| + k + |v|..] == b[k + |v|..] + c;
    OverwriteCut(x, |a| + k, v);
    OverwriteCut(b, k, v);
    assert (a + b[..k]) + v + (b[k + |v|..] + c) == a + (b[..k] + v + b[k + |v|..]) + c;
  }

  lemma OverwriteCut(x: seq<byte>, k: nat, v: seq<byte>)
    requires k + |v| <= |x|
    ensures Overwrite(x, k, v, []) == x[..k] + v + x[k + |v|..]
  {
    if k + |v| == |x| {
      assert x[k + |v|..] == [];
      assert k == |x| ==> x[..k] == x && v == [];
    }
  }

  /** Writing within part `i` changes that part only. */
  lemma OverwriteInside(parts: seq<seq<byte>>, i: nat, k: nat, v: seq<byte>)
    requires i < |parts| && k + |v| <= |parts[i]|
    ensures Start(parts, i) + k + |v| <= |Concat(parts)| && |Overwrite(parts[i], k, v, [])| == |parts[i]|
    ensures Overwrite(Concat(parts), Start(parts, i) + k, v, []) == Concat(parts[i := Overwrite(parts[i], k, v, [])])
  {
    hide Overwrite;
    var after := parts[i := Overwrite(parts[i], k, v, [])];
    ThreeParts(parts, i);
    ThreeParts(after, i);
    assert after[..i] == parts[..i] && after[i + 1..] == parts[i + 1..];
    OverwriteMiddle(Concat(parts[..i]), parts[i], Concat(parts[i + 1..]), k, v);
  }

  /** Two lists of parts with the same lengths start their parts at the same places. */
  lemma {:induction false} SameStarts(a: seq<seq<byte>>, b: seq<seq<byte>>)
    requires |a| == |b| && forall i :: 0 <= i < |a| ==> |a[i]| == |b[i]|
    ensures |Concat(a)| == |Concat(b)|
    decreases |a|
  {
    if a != [] {
      SameStarts(a[1..], b[1..]);
    }
  }

  lemma SameStart(a: seq<seq<byte>>, b: seq<seq<byte>>, i: nat)
    requires |a| == |b| && i <= |a| && forall j :: 0 <= j < |a| ==> |a[j]| == |b[j]|
    ensures Start(a, i) == Start(b, i)
  {
    SameStarts(a[..i], b[..i]);
  }

  lemma AppendedStart(parts: seq<seq<byte>>, last: seq<byte>, i: nat)
    requires i <= |parts|
    ensures Start(parts + [last], i) == Start(parts, i)
  {
    assert (parts + [last])[..i] == parts[..i];
  }

  /** Parts of equal length start at multiples of it. */
  lemma {:induction false} EqualParts(parts: seq<seq<byte>>, width: nat)
    requires forall i :: 0 <= i < |parts| ==> |parts[i]| == width
    ensures |Concat(parts)| == width * |parts|
    decreases |parts|
  {
    if parts != [] {
      EqualParts(parts[1..], width);
      OneMore(width, |parts| - 1);
    }
  }

  lemma OneMore(w: nat, n: nat)
    ensures w * (n + 1) == w * n + w
  {
  }

  lemma EqualStart(parts: seq<seq<byte>>, width: nat, i: nat)
    requires i <= |parts| && forall j :: 0 <= j < |parts| ==> |parts[j]| == width
    ensures Start(parts, i) == width * i
  {
    EqualParts(parts[..i], width);
  }

  /** Writing the next part of a list right behind those already written. */
  lemma OverwriteNext(block: seq<byte>, parts: seq<seq<byte>>, i: nat)
    requires i < |parts| && Start(parts, i) + |parts[i]| <= |block| && block[..Start(parts, i)] == Concat(parts[..i])
    ensures Start(parts, i + 1) == Start(parts, i) + |parts[i]|
    ensures var after := Overwrite(block, Start(parts, i), parts[i], []);
            |after| == |block| && after[..Start(parts, i + 1)] == Concat(parts[..i + 1])
  {
    PartAt(parts, i);
    assert parts[..i + 1] == parts[..i] + [parts[i]];
    ConcatAppend(parts[..i], parts[i]);
    OverwriteCut(block, Start(parts, i), parts[i]);
  }

  lemma GrownStart(parts: seq<seq<byte>>, after: seq<seq<byte>>)
    requires |parts| <= |after| && after[..|parts|] == parts
    ensures forall k :: 0 <= k <= |parts| ==> Start(after, k) == Start(parts, k)
    ensures forall k :: 0 <= k < |parts| ==> after[k] == parts[k]
  {
    forall k | 0 <= k < |parts|
      ensures after[k] == parts[k]
    {
      assert after[..|parts|][k] == parts[k];
    }
    forall k | 0 <= k <= |parts|
      ensures Start(after, k) == Start(parts, k)
    {
      assert after[..k] == parts[..k];
    }
  }
}
