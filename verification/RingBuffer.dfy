/**
  The ring buffer as a value. `cells` lists the storage from the read position on, so the first `len`
  cells are the allocated octets in order; `readAt` is the read position itself, which limits how much a
  contiguous slice can hold.
 */
module RingSpec {
  import opened Octets

  function Min(a: nat, b: nat): nat {
    if a < b then a else b
  }

  /** The cells with `d` in place from `at` on. */
  function Overwrite(c: seq<byte>, at: nat, d: seq<byte>): (r: seq<byte>)
    requires at + |d| <= |c|
    ensures |r| == |c|
  {
    seq(|c|, i requires 0 <= i < |c| => if at <= i < at + |d| then d[i - at] else c[i])
  }

  datatype Ring = Ring(cells: seq<byte>, readAt: nat, len: nat) {
    predicate Valid() {
      len <= |cells| && (readAt < |cells| || readAt == 0)
    }

    function Capacity(): nat {
      |cells|
    }

    function Window(): nat {
      if len <= |cells| then |cells| - len else 0
    }

    function Contents(): seq<byte> {
      if len <= |cells| then cells[..len] else cells
    }

    /** How many octets fit between the cell `idx` and the end of the storage. */
    function UntilEnd(idx: nat): nat {
      if readAt + idx < |cells| then |cells| - (readAt + idx)
      else if readAt + idx - |cells| < |cells| then |cells| - (readAt + idx - |cells|)
      else 0
    }

    function GetAllocated(offset: nat, size: nat): seq<byte> {
      if offset > len || len > |cells| then []
      else cells[offset..offset + Min(Min(size, len - offset), UntilEnd(offset))]
    }

    /** Write into the free cells from `offset` on; what does not fit is dropped. */
    function WriteUnallocated(offset: nat, data: seq<byte>): Ring {
      if len + offset > |cells| then this
      else
        var n := Min(|data|, |cells| - (len + offset));
        this.(cells := Overwrite(cells, len + offset, data[..n]))
    }

    function EnqueueUnallocated(count: nat): Ring {
      this.(len := Min(len + count, |cells|))
    }

    function DequeueAllocated(count: nat): Ring {
      if count > len || len > |cells| then this
      else
        Ring(cells[count..] + cells[..count],
             if readAt + count < |cells| then readAt + count else readAt + count - |cells|,
             len - count)
    }

    /** An empty ring is rewound to the start of its storage before octets are appended. */
    function Rewound(): Ring {
      if len == 0 && readAt <= |cells| then Ring(cells[|cells| - readAt..] + cells[..|cells| - readAt], 0, 0) else this
    }

    function Enqueue(data: seq<byte>): Ring {
      var r := Rewound();
      var n := Min(|data|, r.Window());
      r.WriteUnallocated(0, data[..n]).EnqueueUnallocated(n)
    }

    function Clear(): Ring {
      Ring(if readAt <= |cells| then cells[|cells| - readAt..] + cells[..|cells| - readAt] else cells, 0, 0)
    }
  }

  lemma GetAllocatedFacts(r: Ring, offset: nat, size: nat)
    requires r.Valid()
    ensures var p := r.GetAllocated(offset, size);
            && |p| <= size
            && (offset <= r.len ==> offset + |p| <= r.len && p == r.Contents()[offset..offset + |p|])
            && (offset >= r.len ==> p == [])
            && (offset < r.len && size > 0 ==> |p| > 0)
  {
    if offset <= r.len {
      var n := Min(Min(size, r.len - offset), r.UntilEnd(offset));
      var c := r.cells[..r.len];
      assert offset + n <= r.len && c[offset..offset + n] == r.cells[offset..offset + n];
    }
  }

  lemma WriteFacts(r: Ring, offset: nat, data: seq<byte>)
    requires r.Valid() && offset + |data| <= r.Window()
    ensures var w := r.WriteUnallocated(offset, data);
            && w.Valid() && w.len == r.len && w.readAt == r.readAt && w.Capacity() == r.Capacity()
            && w.Contents() == r.Contents()
            && (forall i :: 0 <= i < |data| ==> w.cells[r.len + offset + i] == data[i])
            && (forall i :: 0 <= i < |r.cells| && !(r.len + offset <= i < r.len + offset + |data|) ==>
                  w.cells[i] == r.cells[i])
  {
    assert data[..|data|] == data;
  }

  /** Writing into the free part and then counting `n` octets of it as allocated. */
  lemma StoreFacts(r: Ring, offset: nat, data: seq<byte>, n: nat)
    requires r.Valid() && offset + |data| <= r.Window() && n <= r.Window()
    ensures var w := r.WriteUnallocated(offset, data).EnqueueUnallocated(n);
            w.Valid() && w.len == r.len + n && w.Capacity() == r.Capacity() && w.Window() == r.Window() - n
  {
    WriteFacts(r, offset, data);
  }

  lemma DequeueFacts(r: Ring, count: nat)
    requires r.Valid() && count <= r.len
    ensures var d := r.DequeueAllocated(count);
            && d.Valid() && d.len == r.len - count && d.Capacity() == r.Capacity()
            && d.Contents() == r.Contents()[count..]
            && (forall i :: 0 <= i < |r.cells| - count ==> d.cells[i] == r.cells[i + count])
  {
  }

  lemma RewoundFacts(r: Ring)
    requires r.Valid()
    ensures var q := r.Rewound();
            q.Valid() && q.len == r.len && q.Capacity() == r.Capacity() && q.Contents() == r.Contents()
  {
  }

  lemma AppendFacts(q: Ring, data: seq<byte>)
    requires q.Valid() && |data| <= q.Window()
    ensures var e := q.WriteUnallocated(0, data).EnqueueUnallocated(|data|);
            && e.Valid() && e.len == q.len + |data| && e.Capacity() == q.Capacity()
            && e.Contents() == q.Contents() + data
  {
    WriteFacts(q, 0, data);
    var w := q.WriteUnallocated(0, data);
    assert w.cells[..q.len + |data|] == w.cells[..q.len] + data;
  }

  /** Appending keeps what was there and adds as much of `data` as fits. */
  lemma EnqueueFacts(r: Ring, data: seq<byte>)
    requires r.Valid()
    ensures var e := r.Enqueue(data);
            var n := Min(|data|, r.Window());
            && e.Valid() && e.len == r.len + n && e.Capacity() == r.Capacity()
            && e.Contents() == r.Contents() + data[..n]
  {
    RewoundFacts(r);
    AppendFacts(r.Rewound(), data[..Min(|data|, r.Window())]);
  }
}
