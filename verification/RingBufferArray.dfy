/**
  The ring buffer as the program keeps it: a fixed storage array, a read position and a length. Slices
  that wrap around the end of the storage are handled in two contiguous parts.
 */
module RingBufferArray {
  import opened Octets
  import opened RingSpec

  class RingBuffer {
    const storage: array<byte>
    var readAt: nat
    var length: nat

    ghost predicate Valid()
      reads this
    {
      length <= storage.Length && (readAt < storage.Length || readAt == 0)
    }

    ghost function View(): Ring
      requires Valid()
      reads this, storage
    {
      Ring(storage[readAt..] + storage[..readAt], readAt, length)
    }

    constructor (capacity: nat)
      ensures Valid() && fresh(storage) && View().len == 0 && View().Capacity() == capacity
    {
      storage := new byte[capacity];
      readAt, length := 0, 0;
    }

    method Clear()
      requires Valid()
      modifies this
      ensures Valid() && View() == old(View()).Clear()
    {
      ghost var r := View();
      readAt, length := 0, 0;
      assert View().cells == storage[..];
      assert r.cells[|r.cells| - r.readAt..] == storage[..r.readAt];
      assert r.cells[..|r.cells| - r.readAt] == storage[r.readAt..];
    }

    /** The place in the storage of the `idx`-th cell. */
    method GetIdx(idx: nat) returns (i: nat)
      requires Valid() && idx <= storage.Length
      ensures storage.Length > 0 ==>
              i == if readAt + idx < storage.Length then readAt + idx else readAt + idx - storage.Length
      ensures storage.Length == 0 ==> i == 0
      ensures i <= storage.Length && storage.Length - i == if storage.Length == 0 then 0 else View().UntilEnd(idx)
      ensures idx < storage.Length ==> i < storage.Length && View().cells[idx] == storage[i]
    {
      if storage.Length > 0 {
        i := (readAt + idx) % storage.Length;
        WrapOnce(readAt + idx, storage.Length);
      } else {
        i := 0;
      }
    }

    static lemma WrapOnce(i: nat, n: nat)
      requires i < 2 * n
      ensures i % n == if i < n then i else i - n
    {
      if i >= n {
        assert i == n * 1 + (i - n);
      }
    }

    /** The longest contiguous run of allocated octets from `offset` on, up to `size`. */
    method GetAllocated(offset: nat, size: nat) returns (data: seq<byte>)
      requires Valid()
      ensures data == View().GetAllocated(offset, size)
    {
      if offset > length {
        return [];
      }
      var startAt := GetIdx(offset);
      var n := Min(size, length - offset);
      var untilEnd := storage.Length - startAt;
      if n > untilEnd {
        n := untilEnd;
      }
      data := storage[startAt..startAt + n];
      SliceCells(storage[..], readAt, startAt, offset, n);
    }

    static lemma SliceCells(storage: seq<byte>, readAt: nat, startAt: nat, offset: nat, n: nat)
      requires readAt <= |storage| && startAt + n <= |storage| && offset + n <= |storage|
      requires n > 0 ==> startAt == if readAt + offset < |storage| then readAt + offset else readAt + offset - |storage|
      ensures (storage[readAt..] + storage[..readAt])[offset..offset + n] == storage[startAt..startAt + n]
    {
    }

    /** Copy `data` into the storage from `start` on. */
    method CopyIn(start: nat, data: seq<byte>)
      requires start + |data| <= storage.Length
      modifies storage
      ensures storage[..] == old(storage[..start]) + data + old(storage[start + |data|..])
    {
      var i := 0;
      while i < |data|
        invariant 0 <= i <= |data|
        invariant forall j :: 0 <= j < storage.Length ==>
          storage[j] == if start <= j < start + i then data[j - start] else old(storage[j])
      {
        storage[start + i] := data[i];
        i := i + 1;
      }
    }

    /** How much of `size` octets lies contiguously in the free cells from `offset` on. */
    static function ContigSize(capacity: nat, readAt: nat, length: nat, offset: nat, size: nat): nat {
      if length + offset > capacity then 0
      else
        var i := readAt + length + offset;
        var untilEnd := if i < capacity then capacity - i
            else if i - capacity < capacity then capacity - (i - capacity) else 0;
        Min(Min(size, capacity - length - offset), untilEnd)
    }

    /** Write as much of `data` as lies contiguously in the free cells from `offset` on. */
    method WriteContiguous(offset: nat, data: seq<byte>, ghost was: Ring) returns (n: nat, ghost now: Ring)
      requires Valid() && View() == was
      modifies storage
      ensures n <= |data| && View() == now
      ensures now == was.WriteUnallocated(offset, data[..n])
      ensures n == ContigSize(storage.Length, readAt, length, offset, |data|)
    {
      if offset > storage.Length - length {
        n, now := 0, was;
        return;
      }
      var startAt := GetIdx(length + offset);
      n := Min(|data|, storage.Length - length - offset);
      var untilEnd := storage.Length - startAt;
      if n > untilEnd {
        n := untilEnd;
      }
      assert n == ContigSize(storage.Length, readAt, length, offset, |data|);
      assert offset + n <= storage.Length - length;
      ghost var r := View();
      ghost var before := storage[..];
      CopyIn(startAt, data[..n]);
      WrittenCells(r, before, storage[..], startAt, offset, data[..n]);
      now := View();
    }

    /** Writing into the storage is writing into the cells. */
    static lemma WrittenCells(r: Ring, before: seq<byte>, after: seq<byte>, startAt: nat, offset: nat, data: seq<byte>)
      requires r.Valid() && |before| == |after| == |r.cells| && r.cells == before[r.readAt..] + before[..r.readAt]
      requires r.len + offset + |data| <= |r.cells| && startAt + |data| <= |before|
      requires |before| > 0 ==> startAt == if r.readAt + r.len + offset < |before| then r.readAt + r.len + offset
                                          else r.readAt + r.len + offset - |before|
      requires after == before[..startAt] + data + before[startAt + |data|..]
      ensures Ring(after[r.readAt..] + after[..r.readAt], r.readAt, r.len) == r.WriteUnallocated(offset, data)
    {
      var cells := after[r.readAt..] + after[..r.readAt];
      var w := r.WriteUnallocated(offset, data);
      assert data[..|data|] == data;
      var n, at := |before|, r.len + offset;
      forall i | 0 <= i < |cells|
        ensures cells[i] == w.cells[i]
      {
        var j := if r.readAt + i < n then r.readAt + i else r.readAt + i - n;
        assert cells[i] == after[j] && r.cells[i] == before[j];
        assert w.cells[i] == if at <= i < at + |data| then data[i - at] else r.cells[i];
        assert after[j] == if startAt <= j < startAt + |data| then data[j - startAt] else before[j];
      }
      assert cells == w.cells;
    }

    /** Write `data` into the free cells from `offset` on, in two parts when it wraps around. */
    method WriteUnallocated(offset: nat, data: seq<byte>) returns (n: nat)
      requires Valid()
      modifies storage
      ensures View() == old(View()).WriteUnallocated(offset, data)
      ensures offset + |data| <= storage.Length - length ==> n == |data|
    {
      ghost var r, r1, r2 := View(), View(), View();
      assert |r.cells| == storage.Length && r.readAt == readAt && r.len == length;
      var n1, n2;
      n1, r1 := WriteContiguous(offset, data, r);
      var rest := data[n1..];
      n2, r2 := WriteContiguous(offset + n1, rest, r1);
      n := n1 + n2;
      Joined(r, r1, r2, offset, data, rest, n1, n2);
    }

    /** The two contiguous parts together are one write. */
    static lemma {:induction false} Joined(r: Ring, r1: Ring, r2: Ring, offset: nat, data: seq<byte>, rest: seq<byte>,
                                           n1: nat, n2: nat)
      requires r.Valid() && n1 == ContigSize(|r.cells|, r.readAt, r.len, offset, |data|) && n1 <= |data|
               && rest == data[n1..]
      requires n2 == ContigSize(|r.cells|, r.readAt, r.len, offset + n1, |rest|) && n2 <= |rest|
      requires r1 == r.WriteUnallocated(offset, data[..n1]) && r2 == r1.WriteUnallocated(offset + n1, rest[..n2])
      ensures r2 == r.WriteUnallocated(offset, data)
      ensures offset + |data| <= |r.cells| - r.len ==> n1 + n2 == |data|
    {
      TwoSizes(|r.cells|, r.readAt, r.len, offset, |data|);
      PartsOf(data, n1, n2);
      TwoParts(r, r1, r2, offset, offset + n1, data, data[..n1], rest[..n2]);
    }

    /** How much of `size` octets fits from `offset` on. */
    static ghost function Clipped(r: Ring, offset: nat, size: nat): nat {
      if r.len + offset > |r.cells| then 0 else Min(size, |r.cells| - r.len - offset)
    }

    static lemma PartsOf(data: seq<byte>, n1: nat, n2: nat)
      requires n1 + n2 <= |data|
      ensures data[..n1] + data[n1..][..n2] <= data
    {
      assert data[..n1] + data[n1..][..n2] == data[..n1 + n2];
    }

    static lemma TwoSizes(capacity: nat, readAt: nat, length: nat, offset: nat, size: nat)
      requires length <= capacity && (readAt < capacity || readAt == 0)
      ensures var n1 := ContigSize(capacity, readAt, length, offset, size);
              n1 <= size &&
              var n2 := ContigSize(capacity, readAt, length, offset + n1, size - n1);
              n1 + n2 == if length + offset > capacity then 0 else Min(size, capacity - length - offset)
    {
    }

    /** Two writes, one after the other, are one write. */
    static lemma TwoParts(r: Ring, r1: Ring, r2: Ring, offset: nat, next: nat, data: seq<byte>, d1: seq<byte>,
                          d2: seq<byte>)
      requires r.Valid() && next == offset + |d1| && r1 == r.WriteUnallocated(offset, d1)
               && r2 == r1.WriteUnallocated(next, d2)
      requires d1 + d2 <= data
      requires |d1| + |d2| == Clipped(r, offset, |data|)
      ensures r2 == r.WriteUnallocated(offset, data)
    {
      if r.len + offset <= |r.cells| {
        WriteIsOverwrite(r, offset, d1);
        WriteIsOverwrite(r1, offset + |d1|, d2);
        OverwriteTwice(r.cells, r.len + offset, d1, d2);
        WriteClipped(r, offset, data, d1 + d2);
      }
    }

    static lemma WriteClipped(r: Ring, offset: nat, data: seq<byte>, d: seq<byte>)
      requires r.Valid() && offset <= r.Window() && d <= data && |d| == Min(|data|, r.Window() - offset)
      ensures r.WriteUnallocated(offset, data) == r.(cells := Overwrite(r.cells, r.len + offset, d))
    {
      assert data[..|d|] == d;
    }

    static lemma WriteIsOverwrite(r: Ring, offset: nat, d: seq<byte>)
      requires r.Valid() && offset + |d| <= r.Window()
      ensures r.WriteUnallocated(offset, d) == r.(cells := Overwrite(r.cells, r.len + offset, d))
    {
      assert d[..|d|] == d;
    }

    static lemma OverwriteTwice(c: seq<byte>, at: nat, d1: seq<byte>, d2: seq<byte>)
      requires at + |d1| + |d2| <= |c|
      ensures Overwrite(Overwrite(c, at, d1), at + |d1|, d2) == Overwrite(c, at, d1 + d2)
    {
    }

    method EnqueueUnallocated(count: nat)
      requires Valid() && count <= storage.Length - length
      modifies this
      ensures Valid() && View() == old(View()).EnqueueUnallocated(count)
    {
      length := length + count;
    }

    /** Append as much of `data` as fits; an empty ring is first rewound to the start of its storage. */
    method EnqueueSlice(data: seq<byte>) returns (n: nat)
      requires Valid()
      modifies this, storage
      ensures Valid() && View() == old(View()).Enqueue(data)
      ensures n == Min(|data|, old(View()).Window())
    {
      ghost var r := View();
      if length == 0 {
        readAt := 0;
      }
      RewoundCells(storage[..], r);
      assert View() == r.Rewound();
      var size := Min(|data|, storage.Length - length);
      n := WriteUnallocated(0, data[..size]);
      length := length + n;
    }

    static lemma RewoundCells(storage: seq<byte>, r: Ring)
      requires r.Valid() && |r.cells| == |storage| && r.cells == storage[r.readAt..] + storage[..r.readAt]
      ensures r.len == 0 ==> r.Rewound().cells == storage[0..] + storage[..0]
    {
      assert r.cells[|r.cells| - r.readAt..] == storage[..r.readAt];
      assert r.cells[..|r.cells| - r.readAt] == storage[r.readAt..];
    }

    method DequeueAllocated(count: nat)
      requires Valid() && count <= length
      modifies this
      ensures Valid() && View() == old(View()).DequeueAllocated(count)
    {
      ghost var r := View();
      var next := GetIdx(count);
      Rotated(storage[..], readAt, next, count);
      length := length - count;
      readAt := next;
      assert View().cells == r.cells[count..] + r.cells[..count];
    }

    /** Reading from further on turns the cells around. */
    static lemma {:induction false} Rotated(storage: seq<byte>, readAt: nat, next: nat, count: nat)
      requires readAt <= |storage| && count <= |storage| && (readAt < |storage| || readAt == 0)
      requires |storage| > 0 ==>
               next == if readAt + count < |storage| then readAt + count else readAt + count - |storage|
      requires |storage| == 0 ==> next == 0
      ensures var cells := storage[readAt..] + storage[..readAt];
              storage[next..] + storage[..next] == cells[count..] + cells[..count]
    {
      var cells, turned := storage[readAt..] + storage[..readAt], storage[next..] + storage[..next];
      forall i | 0 <= i < |storage|
        ensures turned[i] == (cells[count..] + cells[..count])[i]
      {
      }
    }

    /** Take octets off the front, as many as lie contiguously, up to `want`. */
    method DequeueContiguous(want: nat, ghost was: Ring) returns (data: seq<byte>, ghost now: Ring)
      requires Valid() && View() == was
      modifies this
      ensures Valid() && View() == now && length + |data| == old(length)
      ensures |data| == Min(Min(want, old(length)), old(storage.Length - readAt))
      ensures now == was.DequeueAllocated(|data|) && data == was.Contents()[..|data|]
    {
      var n := Min(Min(want, length), storage.Length - readAt);
      data := storage[readAt..readAt + n];
      FrontSlice(storage[..], readAt, n, length);
      DequeueAllocated(n);
      now := View();
    }

    static lemma {:induction false} FrontSlice(storage: seq<byte>, readAt: nat, n: nat, len: nat)
      requires readAt + n <= |storage| && n <= len <= |storage|
      ensures (storage[readAt..] + storage[..readAt])[..len][..n] == storage[readAt..readAt + n]
    {
    }

    /** Take up to `want` octets off the front, in two parts when they wrap around. */
    method DequeueSlice(want: nat) returns (data: seq<byte>)
      requires Valid()
      modifies this
      ensures Valid() && |data| == Min(want, old(length))
      ensures View() == old(View()).DequeueAllocated(|data|)
      ensures data == old(View()).Contents()[..|data|]
    {
      ghost var r, r1, r2 := View(), View(), View();
      var first, second;
      first, r1 := DequeueContiguous(want, r);
      second, r2 := DequeueContiguous(want - |first|, r1);
      data := first + second;
      DequeueTwice(r, r1, r2, first, second, data);
    }

    /** Two steps from the front are one. */
    static lemma {:induction false} DequeueTwice(r: Ring, r1: Ring, r2: Ring, first: seq<byte>, second: seq<byte>,
                                                 data: seq<byte>)
      requires r.Valid() && |first| + |second| <= r.len && data == first + second
      requires r1 == r.DequeueAllocated(|first|) && r2 == r1.DequeueAllocated(|second|)
      requires first == r.Contents()[..|first|] && second == r1.Contents()[..|second|]
      ensures r2 == r.DequeueAllocated(|data|) && data == r.Contents()[..|data|]
    {
      RotateTwice(r.cells, |first|, |second|, r.len);
    }

    static lemma {:induction false} RotateTwice(c: seq<byte>, a: nat, b: nat, len: nat)
      requires a + b <= len <= |c|
      ensures var d := c[a..] + c[..a];
              d[b..] + d[..b] == c[a + b..] + c[..a + b] && c[..len][..a] + d[..len - a][..b] == c[..len][..a + b]
    {
      var d := c[a..] + c[..a];
      assert d[..b] == c[a..a + b];
      assert d[b..] == c[a + b..] + c[..a];
      assert c[..a] + c[a..a + b] == c[..a + b];
    }
  }
}
