/**
 * The two .NET primitives the core drives step by step: a MemoryStream (a byte
 * buffer with a cursor, read into caller arrays, written at the cursor, disposed)
 * and Array.Reverse. BitConverter.ToUInt16/ToUInt64 read their bytes
 * little-endian, which is `Wire.LittleEndian` on the platforms the code targets.
 */
module Runtime {
  import opened Wire

  function Min(a: nat, b: nat): (m: nat)
    ensures m <= a && m <= b && (m == a || m == b)
  {
    if a < b then a else b
  }

  /** System.IO.MemoryStream over a growable buffer. */
  class MemoryStream {
    var buffer: Bytes
    var position: nat
    var disposed: bool

    ghost predicate Valid()
      reads this
    {
      position <= |buffer|
    }

    /** `new MemoryStream()`: empty, cursor at 0. */
    constructor Empty()
      ensures Valid() && buffer == [] && position == 0 && !disposed
    {
      buffer := [];
      position := 0;
      disposed := false;
    }

    /** `new MemoryStream(bytes)`: over the given bytes, cursor at 0. */
    constructor Over(data: Bytes)
      ensures Valid() && buffer == data && position == 0 && !disposed
    {
      buffer := data;
      position := 0;
      disposed := false;
    }

    /**
     * `Read(dest, offset, count)`: copies up to `count` bytes from the cursor into
     * dest[offset..], fewer when the buffer ends first, and advances the cursor;
     * the rest of dest is untouched.
     */
    method Read(dest: array<Byte>, offset: nat, count: nat) returns (n: nat)
      requires Valid() && !disposed
      requires offset + count <= dest.Length
      modifies this`position, dest
      ensures Valid()
      ensures n == Min(count, |buffer| - old(position))
      ensures position == old(position) + n
      ensures forall j :: offset <= j < offset + n ==> dest[j] == buffer[old(position) + j - offset]
      ensures forall j :: 0 <= j < dest.Length && !(offset <= j < offset + n) ==> dest[j] == old(dest[j])
    {
      n := Min(count, |buffer| - position);
      var i := 0;
      while i < n
        invariant 0 <= i <= n && position == old(position) && position + n <= |buffer|
        invariant forall j :: offset <= j < offset + i ==> dest[j] == buffer[position + j - offset]
        invariant forall j :: 0 <= j < dest.Length && !(offset <= j < offset + i) ==> dest[j] == old(dest[j])
      {
        dest[offset + i] := buffer[position + i];
        i := i + 1;
      }
      position := position + n;
    }

    /** `Write(bytes)`: overwrites from the cursor, extending the buffer as needed, and advances the cursor. */
    method Write(bytes: Bytes)
      requires Valid() && !disposed
      modifies this`buffer, this`position
      ensures Valid()
      ensures buffer == old(buffer[..position]) + bytes
                        + old(if position + |bytes| < |buffer| then buffer[position + |bytes|..] else [])
      ensures position == old(position) + |bytes|
    {
      var rest := if position + |bytes| < |buffer| then buffer[position + |bytes|..] else [];
      buffer := buffer[..position] + bytes + rest;
      position := position + |bytes|;
    }

    /** `Position = p`. */
    method Seek(p: nat)
      requires Valid() && !disposed && p <= |buffer|
      modifies this`position
      ensures Valid() && position == p
    {
      position := p;
    }

    /** `ToArray()`: the whole buffer, whatever the cursor, even once disposed. */
    method ToArray() returns (r: Bytes)
      ensures r == buffer
    {
      r := buffer;
    }

    /** `Dispose()`. */
    method Dispose()
      modifies this`disposed
      ensures disposed
    {
      disposed := true;
    }
  }

  /** Array.Reverse(a). */
  method Reverse(a: array<Byte>)
    modifies a
    ensures a[..] == Reversed(old(a[..]))
  {
    var lo, hi := 0, a.Length;
    while lo + 1 < hi
      invariant 0 <= lo <= hi <= a.Length && lo + hi == a.Length
      invariant forall j :: 0 <= j < lo ==> a[j] == old(a[a.Length - 1 - j]) && a[a.Length - 1 - j] == old(a[j])
      invariant forall j :: lo <= j < hi ==> a[j] == old(a[j])
    {
      a[lo], a[hi - 1] := a[hi - 1], a[lo];
      lo, hi := lo + 1, hi - 1;
    }
  }
}
