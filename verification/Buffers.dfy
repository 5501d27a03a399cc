/**
 The memory buffer (src/tbx/streams/memory_buffer.h): one block of bytes seen as a file with a
 position, and as a bounded queue.
 */
module Buffers {
  import opened Bytes

  datatype Origin = FromStart | FromCurrent | FromEnd

  /** `x` with `bytes` written over it at `at`; a gap is filled from `gap`. */
  function Overwrite(x: seq<byte>, at: nat, bytes: seq<byte>, gap: seq<byte>): (y: seq<byte>)
    requires |gap| == if at > |x| then at - |x| else 0
    ensures |y| == if at + |bytes| > |x| then at + |bytes| else |x|
  {
    if at >= |x| then x + gap + bytes
    else if at + |bytes| >= |x| then x[..at] + bytes
    else x[..at] + bytes + x[at + |bytes|..]
  }

  /** Writing into the block behind the contents overwrites the contents. */
  lemma OverwritesBlock(x: seq<byte>, at: nat, bytes: seq<byte>, gap: seq<byte>, before: seq<byte>, after: seq<byte>)
    requires |gap| == if at > |x| then at - |x| else 0
    requires before == if at > |x| then x + gap else x[..at]
    requires at + |bytes| < |x| ==> |x| - at - |bytes| <= |after| && after[..|x| - at - |bytes|] == x[at + |bytes|..]
    ensures var n := if |x| > at + |bytes| then |x| else at + |bytes|;
            n <= |before + bytes + after| && (before + bytes + after)[..n] == Overwrite(x, at, bytes, gap)
  {
    if at + |bytes| < |x| {
      assert (before + bytes + after)[..|x|] == before + bytes + after[..|x| - at - |bytes|];
    } else {
      assert (before + bytes + after)[..at + |bytes|] == before + bytes;
      assert at == |x| ==> x[..at] == x + gap;
    }
  }

  class MemoryBuffer {
    var data: array<byte>
    var size: nat
    var position: nat

    ghost predicate Valid()
      reads this
    {
      size <= data.Length
    }

    ghost function Contents(): (s: seq<byte>)
      requires Valid()
      reads this, data
      ensures |s| == size
    {
      data[..size]
    }

    constructor (capacity: nat)
      ensures Valid() && fresh(data) && data.Length == capacity && Contents() == [] && position == 0
    {
      data := new byte[capacity];
      size, position := 0, 0;
    }

    // -------------------------------------------------------------------------------------
    // The queue view
    // -------------------------------------------------------------------------------------

    function Available(): nat
      requires Valid()
      reads this
    {
      data.Length - size
    }

    /** Copying to `tail()` and `advance`. */
    method Append(bytes: seq<byte>)
      requires Valid() && |bytes| <= Available()
      modifies this`size, data
      ensures Valid() && Contents() == old(Contents()) + bytes
    {
      for i := 0 to |bytes|
        invariant Valid() && size == old(size) && data[..size] == old(data[..size]) && data[size..size + i] == bytes[..i]
      {
        data[size + i] := bytes[i];
      }
      assert data[..size + |bytes|] == data[..size] + data[size..size + |bytes|];
      size := size + |bytes|;
    }

    /** Forgets the first `amount` bytes and moves the rest to the front. */
    method Consume(amount: nat)
      requires Valid() && amount <= size
      modifies this`size, data
      ensures Valid() && Contents() == old(Contents())[amount..]
    {
      if size != amount {
        for i := 0 to size - amount
          invariant Valid() && size == old(size) && data[..i] == old(data[amount..amount + i])
          invariant forall k :: i <= k < data.Length ==> data[k] == old(data[k])
        {
          data[i] := data[i + amount];
        }
      }
      size := size - amount;
    }

    /** The first `n` bytes, from `head()`. */
    method Peek(n: nat) returns (bytes: seq<byte>)
      requires Valid() && n <= size
      ensures bytes == Contents()[..n]
    {
      bytes := data[..n];
    }

    // -------------------------------------------------------------------------------------
    // The file view
    // -------------------------------------------------------------------------------------

    method Seek(offset: int, origin: Origin)
      requires Valid()
      modifies this`position
      ensures position == var p := (match origin case FromStart => 0 case FromCurrent => old(position) case FromEnd => size) + offset;
                          if p < 0 then 0 else p
    {
      var p := match origin case FromStart => offset case FromCurrent => position + offset case FromEnd => size + offset;
      position := if p < 0 then 0 else p;
    }

    /** A larger block is zeroed and takes over the old bytes. */
    method EnsureCapacity(capacity: nat)
      requires Valid()
      modifies this`data
      ensures Valid() && Contents() == old(Contents())
      ensures data.Length == if capacity > old(data.Length) then capacity else old(data.Length)
      ensures data == old(data) || fresh(data)
      ensures capacity > old(data.Length) ==> forall k :: size <= k < data.Length ==> data[k] == 0
    {
      if capacity > data.Length {
        var bigger := new byte[capacity](_ => 0);
        for i := 0 to size
          invariant data == old(data) && bigger[..i] == data[..i] && data[..size] == old(data[..size])
          invariant forall k :: i <= k < capacity ==> bigger[k] == 0
        {
          bigger[i] := data[i];
        }
        data := bigger;
      }
    }

    /** Copies `bytes` into the block at the position. */
    method Copy(bytes: seq<byte>)
      requires position + |bytes| <= data.Length
      modifies data
      ensures data[position..position + |bytes|] == bytes
      ensures data[..position] == old(data[..position]) && data[position + |bytes|..] == old(data[position + |bytes|..])
    {
      for i := 0 to |bytes|
        invariant data[position..position + i] == bytes[..i]
        invariant forall k :: 0 <= k < data.Length && !(position <= k < position + i) ==> data[k] == old(data[k])
      {
        data[position + i] := bytes[i];
      }
      assert data[..position] == old(data[..position]);
      assert data[position + |bytes|..] == old(data[position + |bytes|..]);
    }

    /** Makes room for `required` bytes, growing by half or as much as needed. */
    method Grow(required: nat)
      requires Valid()
      modifies this`data
      ensures Valid() && Contents() == old(Contents()) && required <= data.Length
      ensures data == old(data) || fresh(data)
    {
      if required > data.Length {
        var half := data.Length / 2;
        var delta := if half > required - data.Length then half else required - data.Length;
        EnsureCapacity(data.Length + delta);
      }
    }

    /** Writes at the position; the rest stays as it is, and a gap shows what the block held there. */
    method Write(bytes: seq<byte>) returns (ghost gap: seq<byte>)
      requires Valid()
      modifies this, data
      ensures Valid() && (data == old(data) || fresh(data)) && position == old(position) + |bytes|
      ensures |gap| == if old(position) > old(size) then old(position) - old(size) else 0
      ensures Contents() == Overwrite(old(Contents()), old(position), bytes, gap)
    {
      var required := position + |bytes|;
      Grow(required);
      gap := if position > size then data[size..position] else [];
      ghost var x, before, after := Contents(), data[..position], data[required..];
      Copy(bytes);
      assert data[..] == before + bytes + after;
      OverwritesBlock(x, position, bytes, gap, before, after);
      size := if size > required then size else required;
      position := required;
    }

    /** Reads up to `amount` bytes at the position; None at the end of the buffer. */
    method Read(amount: nat) returns (bytes: seq<byte>)
      requires Valid() && position <= size
      modifies this`position
      ensures position == old(position) + (if size - old(position) < amount then size - old(position) else amount)
      ensures bytes == Contents()[old(position)..position]
    {
      var n := if size - position < amount then size - position else amount;
      bytes := data[position..position + n];
      assert bytes == Contents()[position..position + n];
      position := position + n;
    }

    /**
     Moves position and size on by `n`, with room for `n` bytes at the position; what the reserved
     bytes are is not promised. The contents stay within the block unless the position is before
     their end and the block is too short.
     */
    method Reserve(n: nat) returns (ghost reserved: seq<byte>)
      requires Valid()
      modifies this
      ensures data.Length == if old(position) + n > old(data.Length) then old(position) + n else old(data.Length)
      ensures (data == old(data) || fresh(data)) && position == old(position) + n && size == old(size) + n
      ensures Valid() <==> old(size) <= old(position) || old(size) + n <= old(data.Length)
      ensures old(size) <= data.Length && data[..old(size)] == old(Contents())
      ensures |reserved| == n && (Valid() ==> Contents() == old(Contents()) + reserved)
    {
      EnsureCapacity(position + n);
      assert Contents() == data[..size];
      position := position + n;
      size := size + n;
      reserved := if size <= data.Length then data[size - n..size] else seq(n, _ => 0);
    }

    method Trim()
      requires Valid()
      modifies this`data
      ensures Valid() && Contents() == old(Contents()) && data.Length == size
      ensures data == old(data) || fresh(data)
    {
      if data.Length > size {
        var smaller := new byte[size](_ => 0);
        for i := 0 to size
          invariant data == old(data) && smaller[..i] == data[..i] && data[..size] == old(data[..size])
        {
          smaller[i] := data[i];
        }
        data := smaller;
      }
    }
  }

  /**
   A reference to a reserved place: writing through it puts the value there and leaves both the
   position and every other byte alone.
   */
  method WriteBack(buffer: MemoryBuffer, at: nat, value: seq<byte>)
    requires buffer.Valid() && at + |value| <= buffer.size
    modifies buffer, buffer.data
    ensures buffer.Valid() && (buffer.data == old(buffer.data) || fresh(buffer.data))
    ensures buffer.position == old(buffer.position) && buffer.size == old(buffer.size)
    ensures buffer.Contents() == Overwrite(old(buffer.Contents()), at, value, [])
  {
    var mark := buffer.position;
    buffer.Seek(at, FromStart);
    ghost var gap := buffer.Write(value);
    buffer.Seek(mark, FromStart);
  }
}
