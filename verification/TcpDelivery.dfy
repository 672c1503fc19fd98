/** What the arrival of a segment does to the two directions of a connection. */
module TcpDelivery {
  import opened Options
  import opened Octets
  import opened Shifts
  import opened SeqNumber
  import opened Timers
  import opened RingSpec
  import opened TcpModel
  import opened TcpInvariant
  import opened TcpNetwork
  import A = AssemblerSpec

  // ----- storing a payload

  /** After the payload is written, every octet known to be present is the right one. */
  lemma WrittenByte(rcv: RecvHalf, payload: seq<byte>, offset: nat, received: nat, w: seq<byte>, o: nat)
    requires rcv.buf.Valid() && offset + |payload| <= rcv.buf.Window() && AheadOk(rcv, received, w)
    requires received + offset + |payload| <= |w| && payload == w[received + offset..received + offset + |payload|]
    requires rcv.buf.len + o < |rcv.buf.cells|
    requires A.Covers(rcv.asm, o) || offset <= o < offset + |payload|
    ensures received + o < |w|
    ensures rcv.buf.WriteUnallocated(offset, payload).cells[rcv.buf.len + o] == w[received + o]
  {
    WriteFacts(rcv.buf, offset, payload);
    if offset <= o < offset + |payload| {
      var i := o - offset;
      assert rcv.buf.WriteUnallocated(offset, payload).cells[rcv.buf.len + offset + i] == payload[i];
    }
  }

  lemma Spliced(cells: seq<byte>, contents: seq<byte>, w: seq<byte>, from: nat, n: nat)
    requires |contents| + n <= |cells| && from + n <= |w| && cells[..|contents|] == contents
    requires forall i :: |contents| <= i < |contents| + n ==> cells[i] == w[from + (i - |contents|)]
    ensures cells[..|contents| + n] == contents + w[from..from + n]
  {
  }

  /** `n` octets from the left edge on are present once the payload is there. */
  ghost predicate Contiguous(asm: seq<A.Contig>, offset: nat, size: nat, n: nat) {
    forall x: int {:trigger A.Covers(asm, x)} :: 0 <= x < n ==> A.Covers(asm, x) || offset <= x < offset + size
  }

  lemma ContigBytes(rcv: RecvHalf, payload: seq<byte>, offset: nat, received: nat, w: seq<byte>, n: nat)
    requires rcv.buf.Valid() && offset + |payload| <= rcv.buf.Window() && AheadOk(rcv, received, w)
    requires received + offset + |payload| <= |w| && payload == w[received + offset..received + offset + |payload|]
    requires n <= rcv.buf.Window() && Contiguous(rcv.asm, offset, |payload|, n)
    ensures received + n <= |w|
    ensures rcv.buf.WriteUnallocated(offset, payload).cells[..rcv.buf.len + n] ==
            rcv.buf.Contents() + w[received..received + n]
  {
    var cells := rcv.buf.WriteUnallocated(offset, payload).cells;
    var len := rcv.buf.len;
    if n > 0 {
      assert A.Covers(rcv.asm, n - 1) || offset <= n - 1 < offset + |payload|;
      WrittenByte(rcv, payload, offset, received, w, n - 1);
    }
    forall i | len <= i < len + n
      ensures cells[i] == w[received + (i - len)]
    {
      assert A.Covers(rcv.asm, i - len) || offset <= i - len < offset + |payload|;
      WrittenByte(rcv, payload, offset, received, w, i - len);
    }
    assert cells[..len] == rcv.buf.Contents() by {
      WriteFacts(rcv.buf, offset, payload);
    }
    Spliced(cells, rcv.buf.Contents(), w, received, n);
  }

  lemma AheadKept(rcv: RecvHalf, rcv': RecvHalf, payload: seq<byte>, offset: nat, received: nat, w: seq<byte>, n: nat)
    requires rcv.buf.Valid() && offset + |payload| <= rcv.buf.Window() && AheadOk(rcv, received, w)
    requires received + offset + |payload| <= |w| && payload == w[received + offset..received + offset + |payload|]
    requires rcv'.buf.cells == rcv.buf.WriteUnallocated(offset, payload).cells && rcv'.buf.len == rcv.buf.len + n
    requires A.IsUnionStripped(rcv.asm, offset, |payload|, rcv'.asm, n)
    ensures AheadOk(rcv', received + n, w)
  {
    WriteFacts(rcv.buf, offset, payload);
    forall o: nat | A.Covers(rcv'.asm, o) && rcv'.buf.len + o < |rcv'.buf.cells|
      ensures received + n + o < |w| && rcv'.buf.cells[rcv'.buf.len + o] == w[received + n + o]
    {
      WrittenByte(rcv, payload, offset, received, w, o + n);
    }
  }

  /** The octets a payload makes contiguous are the next ones of the stream, and what stays ahead is right. */
  lemma ReceiveBytes(rcv: RecvHalf, slots: nat, payload: seq<byte>, offset: nat, received: nat, w: seq<byte>)
    requires RecvOk(Ideal, rcv, slots) && offset + |payload| <= rcv.buf.Window() && AheadOk(rcv, received, w)
    requires received + offset + |payload| <= |w| && payload == w[received + offset..received + offset + |payload|]
    requires Receive(rcv, slots, payload, offset).Some?
    ensures var rcv' := Receive(rcv, slots, payload, offset).value;
            var n := rcv'.buf.len - rcv.buf.len;
            && 0 <= n <= rcv.buf.Window() && received + n <= |w|
            && rcv'.buf.Contents() == rcv.buf.Contents() + w[received..received + n]
            && AheadOk(rcv', received + n, w)
  {
    var rcv' := Receive(rcv, slots, payload, offset).value;
    var n := A.AddThenRemoveFront(rcv.asm, slots, offset, |payload|).value.1;
    ReceiveShape(rcv, slots, payload, offset);
    ContigBytes(rcv, payload, offset, received, w, n);
    AheadKept(rcv, rcv', payload, offset, received, w, n);
  }

  lemma ReceiveShape(rcv: RecvHalf, slots: nat, payload: seq<byte>, offset: nat)
    requires RecvOk(Ideal, rcv, slots) && offset + |payload| <= rcv.buf.Window()
    requires Receive(rcv, slots, payload, offset).Some?
    ensures var rcv' := Receive(rcv, slots, payload, offset).value;
            var n := A.AddThenRemoveFront(rcv.asm, slots, offset, |payload|).value.1;
            var cells := rcv.buf.WriteUnallocated(offset, payload).cells;
            && n <= rcv.buf.Window() && rcv'.buf.len == rcv.buf.len + n && rcv'.buf.cells == cells
            && rcv'.buf.Contents() == cells[..rcv.buf.len + n] && |cells| == |rcv.buf.cells|
            && A.Canonical(rcv'.asm)
            && A.IsUnionStripped(rcv.asm, offset, |payload|, rcv'.asm, n)
            && Contiguous(rcv.asm, offset, |payload|, n)
  {
    var n := A.AddThenRemoveFront(rcv.asm, slots, offset, |payload|).value.1;
    ContigFits(Ideal, rcv, slots, |payload|, offset);
    WriteFacts(rcv.buf, offset, payload);
    A.AddThenRemoveFrontMeaning(rcv.asm, slots, offset, |payload|);
  }

  /** A payload at the left edge that reaches the end of the stream leaves nothing ahead. */
  lemma ReceiveLast(rcv: RecvHalf, slots: nat, payload: seq<byte>, received: nat, w: seq<byte>)
    requires RecvOk(Ideal, rcv, slots) && |payload| <= rcv.buf.Window() && AheadOk(rcv, received, w)
    requires received + |payload| == |w| && |payload| > 0
    ensures var r := Receive(rcv, slots, payload, 0);
            r.Some? && r.value.asm == [] && r.value.buf.len == rcv.buf.len + |payload|
  {
    A.AddThenRemoveFrontMeaning(rcv.asm, slots, 0, |payload|);
    var r := Receive(rcv, slots, payload, 0).value;
    var n := A.AddThenRemoveFront(rcv.asm, slots, 0, |payload|).value.1;
    ReceiveShape(rcv, slots, payload, 0);
    forall o: nat | A.Covers(rcv.asm, o)
      ensures o < |payload|
    {
      A.CoversRange(rcv.asm, o);
    }
    assert n >= |payload|;
    assert !A.Covers(rcv.asm, |payload|);
    A.EmptyIfUncovered(r.asm);
  }

  // ----- the window, with unbounded sequence numbers

  lemma IdealWindow(rcv: RecvHalf, slots: nat, s: Segment)
    requires RecvOk(Ideal, rcv, slots) && SegmentOk(Ideal, s) && CheckWindow(Ideal, rcv, s).Inside?
    ensures var d := s.seqNo - rcv.Next(Ideal);
            var n, w := |s.payload|, rcv.buf.Window();
            var lo, hi := if d < 0 then 0 else d, if w < d + n then w else d + n;
            && 0 <= lo <= hi <= w && hi - d <= n
            && CheckWindow(Ideal, rcv, s) == Inside(s.payload[lo - d..hi - d], lo)
            && (n == 0 ==> d >= 0)
            && (n > 0 ==> d < w && 0 < d + n)
  {
    WindowEdge(Ideal, rcv, slots);
    OverlapIsIntersection(Ideal, rcv.Next(Ideal), rcv.buf.Window(), s.seqNo, |s.payload|);
    WindowTest(Ideal, rcv.Next(Ideal), rcv.buf.Window(), s.seqNo, |s.payload|);
  }

  /** A segment that keeps to an advertised edge is never cut on the right. */
  lemma NeverCut(rcv: RecvHalf, slots: nat, s: Segment)
    requires RecvOk(Ideal, rcv, slots) && SegmentOk(Ideal, s) && CheckWindow(Ideal, rcv, s).Inside?
    requires |s.payload| > 1 ==> s.seqNo + |s.payload| <= rcv.start + rcv.buf.Capacity()
    ensures var lost := |s.payload| - |CheckWindow(Ideal, rcv, s).payload|;
            0 <= lost && CheckWindow(Ideal, rcv, s).payload == s.payload[lost..]
  {
    IdealWindow(rcv, slots, s);
  }

  function Taken(rcv: RecvHalf, fin: bool): RecvHalf {
    if fin then TakeFin(Ideal, rcv) else rcv
  }

  function Stored(rcv: RecvHalf, slots: nat, payload: seq<byte>, offset: nat): RecvHalf {
    if payload == [] then rcv
    else match Receive(rcv, slots, payload, offset)
    case None => rcv
    case Some(r) => r
  }

  /** The octets that became contiguous. */
  function Gained(rcv: RecvHalf, rcv': RecvHalf): seq<byte> {
    if rcv.buf.len <= |rcv'.buf.Contents()| then rcv'.buf.Contents()[rcv.buf.len..] else []
  }

  lemma KeptBytes(rcv: RecvHalf, slots: nat, received: nat, w: seq<byte>, base: int, s: Segment, closing: bool)
    requires RecvOk(Ideal, rcv, slots) && CheckWindow(Ideal, rcv, s).Inside?
    requires s.control != Rst && DataOk(s, w, closing, base)
    requires rcv.Next(Ideal) == base + received
    ensures var p, o := CheckWindow(Ideal, rcv, s).payload, CheckWindow(Ideal, rcv, s).offset;
            && o + |p| <= rcv.buf.Window()
            && (p != [] ==> received + o + |p| <= |w| && p == w[received + o..received + o + |p|])
  {
    IdealWindow(rcv, slots, s);
    var p, o := CheckWindow(Ideal, rcv, s).payload, CheckWindow(Ideal, rcv, s).offset;
    if p != [] {
      var from, skip := s.seqNo - base, o - (s.seqNo - rcv.Next(Ideal));
      assert from + skip == received + o;
      KeptSlice(s.payload, w, from, skip, p);
    }
  }

  /** A slice of the payload, found again in the stream. */
  lemma KeptSlice(payload: seq<byte>, w: seq<byte>, from: nat, skip: nat, p: seq<byte>)
    requires from + |payload| <= |w| && payload == w[from..from + |payload|]
    requires skip + |p| <= |payload| && p == payload[skip..skip + |p|]
    ensures from + skip + |p| <= |w| && p == w[from + skip..from + skip + |p|]
  {
    SliceOfSlice(w, from, |payload|, skip, |p|);
  }

  lemma SliceOfSlice(w: seq<byte>, from: nat, n: nat, skip: nat, len: nat)
    requires from + n <= |w| && skip + len <= n
    ensures w[from..from + n][skip..skip + len] == w[from + skip..from + skip + len]
  {
    var a := w[from..from + n];
    var b, c := a[skip..skip + len], w[from + skip..from + skip + len];
    forall i | 0 <= i < len
      ensures b[i] == c[i]
    {
      assert b[i] == a[skip + i] == w[from + (skip + i)];
    }
  }

  /** After the FIN no octet is kept: everything the peer sends lies to the left of the window. */
  lemma NothingAfterFin(rcv: RecvHalf, slots: nat, w: seq<byte>, base: int, s: Segment, closing: bool)
    requires RecvOk(Ideal, rcv, slots) && CheckWindow(Ideal, rcv, s).Inside?
    requires s.control != Rst && DataOk(s, w, closing, base)
    requires rcv.Next(Ideal) == base + |w| + 1
    ensures CheckWindow(Ideal, rcv, s).payload == []
  {
    IdealWindow(rcv, slots, s);
  }

  // ----- the receiving half across a segment

  /** An accepted FIN ends the stream: it follows everything that was received, and nothing is ahead. */
  lemma FinIsLast(rcv: RecvHalf, slots: nat, received: seq<byte>, w: seq<byte>, base: int, s: Segment)
    requires RecvOk(Ideal, rcv, slots) && CheckWindow(Ideal, rcv, s).Inside?
    requires DataOk(s, w, true, base) && s.control == Fin && s.seqNo <= rcv.Next(Ideal)
    requires rcv.Next(Ideal) == base + |received| && received <= w
    requires |s.payload| > 1 ==> s.seqNo + |s.payload| <= rcv.start + rcv.buf.Capacity()
    ensures var p, o := CheckWindow(Ideal, rcv, s).payload, CheckWindow(Ideal, rcv, s).offset;
            o == 0 && |received| + |p| == |w|
  {
    IdealWindow(rcv, slots, s);
  }

  lemma NothingAhead(rcv: RecvHalf, slots: nat, w: seq<byte>)
    requires RecvOk(Ideal, rcv, slots) && AheadOk(rcv, |w|, w)
    ensures rcv.asm == []
  {
    forall x: int | 0 <= x
      ensures !A.Covers(rcv.asm, x)
    {
      if A.Covers(rcv.asm, x) {
        A.CoversRange(rcv.asm, x);
      }
    }
    A.EmptyIfUncovered(rcv.asm);
  }

  /** The statement of one arrival for the receiving half. */
  ghost predicate Arrived(rcv: RecvHalf, rcv': RecvHalf, delivered: seq<byte>, received: seq<byte>, finSeen: bool,
                          fin: bool,
                          w: seq<byte>, base: int) {
    && RecvData(rcv', delivered, received + Gained(rcv, rcv'), finSeen || fin, w, base)
    && received + Gained(rcv, rcv') <= w
    && (finSeen || fin ==> received + Gained(rcv, rcv') == w)
  }

  lemma ArriveWithPayload(rcv: RecvHalf, slots: nat, delivered: seq<byte>, received: seq<byte>, w: seq<byte>, base: int,
                          payload: seq<byte>, offset: nat, fin: bool)
    requires RecvOk(Ideal, rcv, slots) && RecvData(rcv, delivered, received, false, w, base) && received <= w
    requires payload != [] && offset + |payload| <= rcv.buf.Window()
    requires |received| + offset + |payload| <= |w|
             && payload == w[|received| + offset..|received| + offset + |payload|]
    requires fin ==> offset == 0 && |received| + |payload| == |w|
    ensures Arrived(rcv, Stored(Taken(rcv, fin), slots, payload, offset), delivered, received, false, fin, w, base)
  {
    var t := Taken(rcv, fin);
    TakeFinOk(Ideal, rcv, slots);
    ReceiveOk(Ideal, t, slots, payload, offset);
    if Receive(t, slots, payload, offset).Some? {
      ArriveStored(rcv, t, slots, delivered, received, w, base, payload, offset, fin);
    } else {
      ArriveRefused(rcv, delivered, received, w, base);
    }
  }

  lemma ArriveRefused(rcv: RecvHalf, delivered: seq<byte>, received: seq<byte>, w: seq<byte>, base: int)
    requires rcv.buf.Valid() && RecvData(rcv, delivered, received, false, w, base) && received <= w
    ensures Arrived(rcv, rcv, delivered, received, false, false, w, base)
  {
    assert Gained(rcv, rcv) == [];
    assert received + [] == received;
  }

  lemma ArriveStored(rcv: RecvHalf, t: RecvHalf, slots: nat, delivered: seq<byte>, received: seq<byte>, w: seq<byte>,
                     base: int,
                     payload: seq<byte>, offset: nat, fin: bool)
    requires RecvOk(Ideal, t, slots) && RecvData(rcv, delivered, received, false, w, base) && received <= w
    requires t == Taken(rcv, fin) && payload != [] && offset + |payload| <= rcv.buf.Window()
    requires |received| + offset + |payload| <= |w|
             && payload == w[|received| + offset..|received| + offset + |payload|]
    requires fin ==> offset == 0 && |received| + |payload| == |w|
    requires Receive(t, slots, payload, offset).Some?
    ensures Arrived(rcv, Receive(t, slots, payload, offset).value, delivered, received, false, fin, w, base)
  {
    var rcv' := Receive(t, slots, payload, offset).value;
    assert AheadOk(t, |received|, w);
    StoredBytes(t, slots, |received|, w, payload, offset, fin);
    ArrivedGain(rcv, rcv', delivered, received, w, base, fin, rcv'.buf.len - rcv.buf.len);
  }

  lemma StoredBytes(t: RecvHalf, slots: nat, received: nat, w: seq<byte>, payload: seq<byte>, offset: nat, fin: bool)
    requires RecvOk(Ideal, t, slots) && AheadOk(t, received, w)
    requires payload != [] && offset + |payload| <= t.buf.Window() && received + offset + |payload| <= |w|
    requires payload == w[received + offset..received + offset + |payload|]
    requires fin ==> offset == 0 && received + |payload| == |w|
    requires Receive(t, slots, payload, offset).Some?
    ensures var rcv' := Receive(t, slots, payload, offset).value;
            var n := rcv'.buf.len - t.buf.len;
            && rcv'.start == t.start && rcv'.fin == t.fin && 0 <= n && received + n <= |w|
            && rcv'.buf.Contents() == t.buf.Contents() + w[received..received + n] && AheadOk(rcv', received + n, w)
            && (fin ==> rcv'.asm == [] && received + n == |w|)
  {
    ReceiveBytes(t, slots, payload, offset, received, w);
    if fin {
      ReceiveLast(t, slots, payload, received, w);
    }
  }

  lemma ArrivedGain(rcv: RecvHalf, rcv': RecvHalf, delivered: seq<byte>, received: seq<byte>, w: seq<byte>, base: int,
                    fin: bool, n: nat)
    requires rcv.buf.Valid() && RecvData(rcv, delivered, received, false, w, base) && received <= w
             && |received| + n <= |w|
    requires rcv'.buf.Contents() == rcv.buf.Contents() + w[|received|..|received| + n]
    requires rcv'.start == Taken(rcv, fin).start && rcv'.fin == fin && AheadOk(rcv', |received| + n, w)
    requires fin ==> rcv'.asm == [] && |received| + n == |w|
    ensures Arrived(rcv, rcv', delivered, received, false, fin, w, base)
  {
    GainedBytes(rcv, rcv', delivered, received, w, n);
  }

  lemma GainedBytes(rcv: RecvHalf, rcv': RecvHalf, delivered: seq<byte>, received: seq<byte>, w: seq<byte>, n: nat)
    requires rcv.buf.Valid() && received <= w && |received| + n <= |w| && delivered + rcv.buf.Contents() == received
    requires rcv'.buf.Contents() == rcv.buf.Contents() + w[|received|..|received| + n]
    ensures Gained(rcv, rcv') == w[|received|..|received| + n]
    ensures received + Gained(rcv, rcv') == w[..|received| + n]
    ensures delivered + rcv'.buf.Contents() == received + Gained(rcv, rcv')
  {
    assert received == w[..|received|];
    assert w[..|received|] + w[|received|..|received| + n] == w[..|received| + n];
    assert delivered + (rcv.buf.Contents() + w[|received|..|received| + n]) ==
        (delivered + rcv.buf.Contents()) + w[|received|..|received| + n];
  }

  lemma ArriveWithoutPayload(rcv: RecvHalf, slots: nat, delivered: seq<byte>, received: seq<byte>, finSeen: bool,
                             fin: bool,
                             w: seq<byte>, base: int)
    requires RecvOk(Ideal, rcv, slots) && RecvData(rcv, delivered, received, finSeen, w, base) && received <= w
    requires finSeen || fin ==> received == w
    requires fin ==> !finSeen
    ensures Arrived(rcv, Taken(rcv, fin), delivered, received, finSeen, fin, w, base)
  {
    assert Gained(rcv, Taken(rcv, fin)) == [];
    assert received + [] == received;
    if fin {
      NothingAhead(rcv, slots, w);
    }
  }

  /** A segment of the peer, accepted into the window, extends what was received by the right octets. */
  lemma Arrive(rcv: RecvHalf, slots: nat, delivered: seq<byte>, received: seq<byte>, finSeen: bool, fin: bool,
               w: seq<byte>, closing: bool, base: int, s: Segment)
    requires RecvOk(Ideal, rcv, slots) && RecvData(rcv, delivered, received, finSeen, w, base) && received <= w
    requires finSeen ==> received == w
    requires s.control != Rst && DataOk(s, w, closing, base) && CheckWindow(Ideal, rcv, s).Inside?
    requires |s.payload| > 1 ==> s.seqNo + |s.payload| <= rcv.start + rcv.buf.Capacity()
    requires fin ==> s.control == Fin && s.seqNo <= rcv.Next(Ideal) && !finSeen
    ensures var wv := CheckWindow(Ideal, rcv, s);
            Arrived(rcv, Stored(Taken(rcv, fin), slots, wv.payload, wv.offset), delivered, received, finSeen, fin, w,
                    base)
  {
    var wv := CheckWindow(Ideal, rcv, s);
    assert |delivered + rcv.buf.Contents()| == |received|;
    if finSeen {
      NothingAfterFin(rcv, slots, w, base, s, closing);
      ArriveWithoutPayload(rcv, slots, delivered, received, finSeen, fin, w, base);
    } else {
      KeptBytes(rcv, slots, |received|, w, base, s, closing);
      if fin {
        FinIsLast(rcv, slots, received, w, base, s);
      }
      if wv.payload == [] {
        ArriveWithoutPayload(rcv, slots, delivered, received, finSeen, fin, w, base);
      } else {
        ArriveWithPayload(rcv, slots, delivered, received, w, base, wv.payload, wv.offset, fin);
      }
    }
  }

  // ----- the sending half across a segment

  lemma Acked(st: State, st': State, snd: SendHalf, s: Segment, written: seq<byte>, base: int)
    requires SendOk(Ideal, snd) && SeqSpace(Ideal, st, snd) && SegmentOk(Ideal, s)
    requires Synced(st) && s.control != Rst && CheckAck(Ideal, st, snd, s) == AckAccept
    requires Moves(st, st', AnalyseAck(Ideal, st, snd, s).ofFin) && SendData(st, snd, written, base)
    ensures var snd' := UpdateSend(Ideal, snd, s, AnalyseAck(Ideal, st, snd, s).len);
            && (Synced(st') ==> SendData(st', snd', written, base))
            && s.ack.Some? && snd'.una == s.ack.value && snd'.winLen == WindowOf(snd, s)
            && snd'.winScale == snd.winScale
            && snd'.buf.len == snd.buf.len - AnalyseAck(Ideal, st, snd, s).len
    ensures AnalyseAck(Ideal, st, snd, s).ofFin ==> s.ack.value == base + |written| + 1
  {
    var a := AnalyseAck(Ideal, st, snd, s);
    AcceptedAck(Ideal, st, snd, s);
    AckLenFits(Ideal, st, snd, s);
    UpdateSendShape(snd, s, a.len);
    AckedData(st, st', snd, UpdateSend(Ideal, snd, s, a.len), a, s.ack.value, written, base);
  }

  lemma UpdateSendShape(snd: SendHalf, s: Segment, n: nat)
    requires snd.buf.Valid() && s.ack.Some? && n <= snd.buf.len
    ensures var snd' := UpdateSend(Ideal, snd, s, n);
            && snd'.una == s.ack.value && snd'.winLen == WindowOf(snd, s) && snd'.winScale == snd.winScale
            && snd'.buf.len == snd.buf.len - n && snd'.buf.Contents() == snd.buf.Contents()[n..]
  {
    DequeueFacts(snd.buf, n);
  }

  lemma AckedData(st: State, st': State, snd: SendHalf, snd': SendHalf, a: AckInfo, ack: int, written: seq<byte>,
                  base: int)
    requires snd.buf.Valid() && Synced(st) && SeqSpace(Ideal, st, snd) && SendData(st, snd, written, base)
    requires Moves(st, st', a.ofFin) && a.len <= snd.buf.len
    requires ack - snd.una == a.len + (if a.ofFin then 1 else 0)
    requires a.ofFin ==> SentFin(st) && a.len == snd.buf.len
    requires snd'.una == ack && snd'.buf.Contents() == snd.buf.Contents()[a.len..]
    ensures Synced(st') ==> SendData(st', snd', written, base)
    ensures a.ofFin ==> ack == base + |written| + 1
  {
    if !FinAcked(st) && !a.ofFin {
      var j := snd.una - base;
      assert written[j..][a.len..] == written[j + a.len..];
    }
  }

  /** After an acknowledgement the sender's view is what the segment said. */
  lemma AckedView(x: End, t': Tcb, y: End, back: set<Segment>, base: int, shift: nat, s: Segment)
    requires Synced(x.t.state) && Inv(Ideal, x.t) && ViewOk(x, y, back, base, shift)
    requires s in back && s.control != Rst && s.control != Syn && SegmentOk(Ideal, s) && AckOk(s, y, base, shift)
    requires CheckAck(Ideal, x.t.state, x.t.snd, s) == AckAccept
    requires Moves(x.t.state, t'.state, AnalyseAck(Ideal, x.t.state, x.t.snd, s).ofFin)
    requires t'.snd == UpdateSend(Ideal, x.t.snd, s, AnalyseAck(Ideal, x.t.state, x.t.snd, s).len)
    requires y.received <= x.written && (y.finSeen ==> y.received == x.written)
    ensures ViewOk(x.(t := t'), y, back, base, shift)
  {
    Acked(x.t.state, t'.state, x.t.snd, s, x.written, base);
    assert WindowOf(x.t.snd, s) == Shl(s.win, shift);
    assert Advertises(s, shift, s.ack.value + Shl(s.win, shift));
    AckedHeld(x.(t := t'), y, base);
  }

  /** What is no longer in the transmit buffer was received, in CLOSED as well. */
  lemma AckedHeld(x: End, y: End, base: int)
    requires x.t.snd.buf.Valid() && x.t.snd.una <= Expected(y, base)
    requires y.received <= x.written && (y.finSeen ==> y.received == x.written)
    requires (Synced(x.t.state) && SendData(x.t.state, x.t.snd, x.written, base))
             || x.t.snd.una == base + |x.written| + 1
    requires x.t.snd.una == base + |x.written| + 1 ==> x.t.snd.buf.len == 0
    ensures Held(x, y)
  {
  }

  // ----- process

  /** A bare acknowledgement of the socket's own state. */
  ghost predicate SelfAck(t: Tcb, g: Segment) {
    && g.seqNo == t.snd.nxt && g.ack == Some(t.rcv.Next(Ideal)) && g.win == t.rcv.ScaledWindow()
    && g.payload == [] && g.control == NoFlag && g.scale == None && g.mss == None
  }

  lemma SelfAckOk(x: End, y: End, back: set<Segment>, k: Link2, g: Segment)
    requires EndOk(x) && Synced(x.t.state) && ViewOk(x, y, back, k.base, k.mine) && ReceiverOk(x, y.written, k.other)
    requires x.t.rcv.shift == k.theirs && SelfAck(x.t, g)
    ensures ReplyOk(x, back, k, g)
  {
    OwnAckOk(x, y.written, k.other, k.theirs, g);
    BareDataOk(x, k.base, back, k.mine, g);
  }

  lemma ChallengeShape(t: Tcb, cx: Context, s: Segment)
    ensures var (t', reply) := ChallengeAck(Ideal, t, cx, s);
            && t'.state == t.state && t'.snd == t.snd && SameRecv(t.rcv, t'.rcv) && t'.timer == t.timer
            && t'.conf == t.conf
            && (reply.Some? ==> SelfAck(t', reply.value))
  {
  }

  /** The segments that change no data: refused, out of the window, or not expected in the state. */
  ghost predicate ProcessQuiet(t: Tcb, cx: Context, s: Segment) {
    || CheckAck(Ideal, t.state, t.snd, s) != AckAccept
    || CheckWindow(Ideal, t.rcv, s).Outside?
    || Advance(Ideal, t, cx, s).Stop?
  }

  lemma StopShape(t: Tcb, cx: Context, s: Segment)
    requires Synced(t.state) && Advance(Ideal, t, cx, s).Stop?
    ensures var t' := Advance(Ideal, t, cx, s).t;
            (NoKeepAlive(t) ==> NoKeepAlive(t')) && KeepsData(t, t') && t'.rcv == t.rcv
  {
    if s.control == Rst {
    } else {
      AdvanceShape(Ideal, t, cx, s);
    }
  }

  lemma QuietShape(t: Tcb, cx: Context, s: Segment)
    requires Synced(t.state) && ProcessQuiet(t, cx, s) && NoKeepAlive(t)
    ensures var (t', reply) := Process(Ideal, t, cx, s);
            && NoKeepAlive(t') && KeepsData(t, t') && SameRecv(t.rcv, t'.rcv)
            && (reply.Some? ==> t'.state == t.state && SelfAck(t', reply.value))
  {
    match CheckAck(Ideal, t.state, t.snd, s)
    case AckIgnore =>
    case AckReset =>
    case AckChallenge => ChallengeShape(t, cx, s);
    case AckAccept =>
      match CheckWindow(Ideal, t.rcv, s)
      case Outside => ChallengeShape(if t.state == TimeWait then t.(timer := ForClose(cx.now)) else t, cx, s);
      case Inside(payload, offset) => StopShape(t, cx, s);
  }

  lemma StoreShape(t: Tcb, cx: Context, s: Segment, payload: seq<byte>, offset: nat)
    ensures var (t', reply) := if payload == [] then (t, None) else StorePayload(Ideal, t, cx, s, payload, offset);
            && t'.state == t.state && t'.snd == t.snd && t'.timer == t.timer && t'.conf == t.conf && t'.tuple == t.tuple
            && SameRecv(Stored(t.rcv, t.conf.slots, payload, offset), t'.rcv)
            && (reply.Some? ==> payload != [] && SelfAck(t', reply.value))
  {
  }

  lemma UpdateTimerNoKeepAlive(timer: Timer, fast: bool, a: AckInfo, now: int, rto: nat, winLen: nat, txEmpty: bool)
    requires timer.Idle? ==> timer.keepAliveAt.None?
    ensures var t := UpdateTimer(timer, fast, a, now, None, rto, winLen, txEmpty); t.Idle? ==> t.keepAliveAt.None?
  {
  }

  /** What an accepted segment makes of the socket. */
  lemma GoShape(t: Tcb, cx: Context, s: Segment)
    requires Synced(t.state) && s.control != Rst && NoKeepAlive(t) && Advance(Ideal, t, cx, s).Go?
    ensures var t' := Advance(Ideal, t, cx, s).t;
            var a := AnalyseAck(Ideal, t.state, t.snd, s);
            var fin := EffectiveControl(Ideal, t.rcv, s) == Fin;
            && Moves(t.state, t'.state, a.ofFin) && t'.snd == UpdateSend(Ideal, t.snd, s, a.len)
            && t'.rcv == Taken(t.rcv, fin) && t'.conf == t.conf && NoKeepAlive(t')
            && (fin ==> !PeerFinished(t.state) && s.control == Fin && s.seqNo <= t.rcv.Next(Ideal))
  {
    AdvanceShape(Ideal, t, cx, s);
    var a := AnalyseAck(Ideal, t.state, t.snd, s);
    var t1 := SampleRtt(Ideal, t, cx, s);
    var t2 := Transition(Ideal, t1, cx, s, EffectiveControl(Ideal, t.rcv, s), a.ofFin).t;
    UpdateTimerNoKeepAlive(t2.timer, StartsFastRetransmit(Ideal, t2.snd, s), a, cx.now, t2.rtte.Timeout(),
                           UpdateSend(Ideal, t2.snd, s, a.len).winLen, UpdateSend(Ideal, t2.snd, s, a.len).buf.len ==
                               0);
  }

  function ProcessEnd(x: End, cx: Context, s: Segment): (End, Reply) {
    var (t', reply) := Process(Ideal, x.t, cx, s);
    (x.(t := t', received := x.received + Gained(x.t.rcv, t'.rcv), finSeen := x.finSeen || t'.rcv.fin), reply)
  }

  lemma QuietKeeps(x: End, y: End, out: set<Segment>, back: set<Segment>, k: Link2, cx: Context, s: Segment)
    requires Live(x, y, out, back, k) && Accepts(x.t, s) && SegmentOk(Ideal, s) && ProcessQuiet(x.t, cx, s)
    ensures var (x', reply) := ProcessEnd(x, cx, s); Live(x', y, With(out, reply), back, k)
  {
    var (t', reply) := Process(Ideal, x.t, cx, s);
    ProcessInv(Ideal, x.t, cx, s);
    QuietShape(x.t, cx, s);
    if reply.Some? {
      QuietView(x, t', y, back, k.base, k.mine);
      QuietReceiver(x, t', y.written, k.other);
      SelfAckOk(x.(t := t'), y, back, k, reply.value);
    }
    QuietStep(x, t', reply, y, out, back, k);
    GainedNothing(x, t');
  }

  lemma GainedNothing(x: End, t': Tcb)
    requires x.t.rcv.buf.Valid() && SameRecv(x.t.rcv, t'.rcv) && x.t.rcv.fin == x.finSeen
    ensures x.(t := t', received := x.received + Gained(x.t.rcv, t'.rcv), finSeen := x.finSeen || t'.rcv.fin) ==
            x.(t := t')
  {
    assert Gained(x.t.rcv, t'.rcv) == [];
    assert x.received + [] == x.received;
  }

  /** An advertised edge is within the buffer. */
  lemma WithinEdge(x: End, out: set<Segment>, base: int, shift: nat, e: int)
    requires Advertised(out, shift, e) && forall g :: g in out ==> AckOk(g, x, base, shift)
    ensures e <= Edge(x, base)
  {
    var g :| g in out && Advertises(g, shift, e);
    assert AckOk(g, x, base, shift);
  }

  lemma ArrivedReceiver(x: End, x': End, rcv': RecvHalf, fin: bool, w: seq<byte>, base: int)
    requires Synced(x.t.state) && RecvData(x.t.rcv, x.delivered, x.received, x.finSeen, w, base) && x.t.rcv.buf.Valid()
    requires Arrived(x.t.rcv, rcv', x.delivered, x.received, x.finSeen, fin, w, base)
    requires SameRecv(rcv', x'.t.rcv)
    requires x' == x.(t := x'.t, received := x.received + Gained(x.t.rcv, x'.t.rcv), finSeen := x.finSeen
                      || x'.t.rcv.fin)
    ensures ReceiverOk(x', w, base) && x'.finSeen == (x.finSeen || fin)
    ensures x.received <= x'.received && (x'.finSeen ==> x'.received == w)
  {
  }

  lemma GoArrives(x: End, y: End, out: set<Segment>, back: set<Segment>, k: Link2, cx: Context, s: Segment)
    requires Live(x, y, out, back, k) && s in back && s.control != Rst && Synced(x.t.state)
    requires CheckWindow(Ideal, x.t.rcv, s).Inside? && Advance(Ideal, x.t, cx, s).Go?
    ensures var fin := EffectiveControl(Ideal, x.t.rcv, s) == Fin;
            var wv := CheckWindow(Ideal, x.t.rcv, s);
            && Arrived(x.t.rcv, Stored(Taken(x.t.rcv, fin), x.t.conf.slots, wv.payload, wv.offset), x.delivered,
                       x.received,
                       x.finSeen, fin, y.written, k.other)
            && (fin ==> !MaySend(y.t.state))
  {
    GoShape(x.t, cx, s);
    assert DataOk(s, y.written, !MaySend(y.t.state), k.other) && FlowOk(s, out, k.theirs);
    if |s.payload| > 1 {
      WithinEdge(x, out, k.other, k.theirs, s.seqNo + |s.payload|);
    }
    Arrive(x.t.rcv, x.t.conf.slots, x.delivered, x.received, x.finSeen, EffectiveControl(Ideal, x.t.rcv, s) == Fin,
           y.written, !MaySend(y.t.state), k.other, s);
  }

  /** The socket after an accepted segment. */
  lemma ProcessGoShape(t: Tcb, cx: Context, s: Segment)
    requires Synced(t.state) && !ProcessQuiet(t, cx, s) && s.control != Rst && NoKeepAlive(t)
    ensures var (t', reply) := Process(Ideal, t, cx, s);
            var a := AnalyseAck(Ideal, t.state, t.snd, s);
            var fin := EffectiveControl(Ideal, t.rcv, s) == Fin;
            var wv := CheckWindow(Ideal, t.rcv, s);
            && Moves(t.state, t'.state, a.ofFin) && t'.snd == UpdateSend(Ideal, t.snd, s, a.len) && t'.conf == t.conf
            && SameRecv(Stored(Taken(t.rcv, fin), t.conf.slots, wv.payload, wv.offset), t'.rcv) && NoKeepAlive(t')
            && (reply.Some? ==> wv.payload != [] && SelfAck(t', reply.value))
  {
    GoShape(t, cx, s);
    var wv := CheckWindow(Ideal, t.rcv, s);
    StoreShape(Advance(Ideal, t, cx, s).t, cx, s, wv.payload, wv.offset);
  }

  lemma ReplyNeedsLife(x: End, y: End, out: set<Segment>, back: set<Segment>, k: Link2, s: Segment)
    requires Live(x, y, out, back, k) && s in back && s.control != Rst && x.t.state == LastAck
    requires CheckWindow(Ideal, x.t.rcv, s).Inside?
    ensures CheckWindow(Ideal, x.t.rcv, s).payload == []
  {
    assert DataOk(s, y.written, !MaySend(y.t.state), k.other);
    assert |x.delivered + x.t.rcv.buf.Contents()| == |x.received|;
    NothingAfterFin(x.t.rcv, x.t.conf.slots, y.written, k.other, s, !MaySend(y.t.state));
  }

  lemma GoEnd(x: End, t': Tcb, cx: Context, s: Segment)
    requires Synced(x.t.state) && NoKeepAlive(x.t) && !ProcessQuiet(x.t, cx, s)
    requires s.control != Rst && t' == Process(Ideal, x.t, cx, s).0
    ensures NoKeepAlive(t') && (Synced(t'.state) || t'.state == Closed)
    ensures !MaySend(x.t.state) ==> !MaySend(t'.state)
  {
    ProcessGoShape(x.t, cx, s);
    MovesFacts(x.t.state, t'.state, AnalyseAck(Ideal, x.t.state, x.t.snd, s).ofFin);
  }

  lemma MovesFacts(st: State, st': State, ofFin: bool)
    requires Synced(st) && Moves(st, st', ofFin)
    ensures (Synced(st') || st' == Closed) && (!MaySend(st) ==> !MaySend(st'))
  {
  }

  lemma GoView(x: End, t': Tcb, y: End, out: set<Segment>, back: set<Segment>, k: Link2, cx: Context, s: Segment)
    requires Live(x, y, out, back, k) && SegmentOk(Ideal, s) && !ProcessQuiet(x.t, cx, s) && Synced(x.t.state)
    requires s in back && s.control != Rst && t' == Process(Ideal, x.t, cx, s).0
    ensures ViewOk(x.(t := t'), y, back, k.base, k.mine)
  {
    assert DataOk(s, y.written, !MaySend(y.t.state), k.other) && AckOk(s, y, k.base, k.mine);
    ProcessGoShape(x.t, cx, s);
    AckedView(x, t', y, back, k.base, k.mine, s);
  }

  lemma GoReceiver(x: End, y: End, out: set<Segment>, back: set<Segment>, k: Link2, cx: Context, s: Segment)
    requires Live(x, y, out, back, k) && Accepts(x.t, s) && SegmentOk(Ideal, s) && !ProcessQuiet(x.t, cx, s)
    requires s in back && s.control != Rst
    ensures var x' := ProcessEnd(x, cx, s).0;
            && ReceiverGrows(x, x') && ReceiverOk(x', y.written, k.other) && x'.t.rcv.shift == k.theirs
            && (x'.finSeen ==> !MaySend(y.t.state) && x'.received == y.written)
  {
    var x' := ProcessEnd(x, cx, s).0;
    ProcessGoShape(x.t, cx, s);
    GoArrives(x, y, out, back, k, cx, s);
    var fin := EffectiveControl(Ideal, x.t.rcv, s) == Fin;
    var wv := CheckWindow(Ideal, x.t.rcv, s);
    ArrivedReceiver(x, x', Stored(Taken(x.t.rcv, fin), x.t.conf.slots, wv.payload, wv.offset), fin, y.written, k.other);
    StoredKeeps(Taken(x.t.rcv, fin), x.t.conf.slots, wv.payload, wv.offset);
  }

  lemma StoredKeeps(rcv: RecvHalf, slots: nat, payload: seq<byte>, offset: nat)
    requires rcv.buf.Valid()
    ensures var r := Stored(rcv, slots, payload, offset); r.shift == rcv.shift && r.buf.Capacity() == rcv.buf.Capacity()
  {
  }

  /** The arrival of any segment of the peer, old or new, keeps both directions. */
  lemma ProcessKeeps(x: End, y: End, out: set<Segment>, back: set<Segment>, k: Link2, cx: Context, s: Segment)
    requires Live(x, y, out, back, k) && Accepts(x.t, s) && SegmentOk(Ideal, s) && (s in back || s.control == Rst)
    ensures var (x', reply) := ProcessEnd(x, cx, s); Live(x', y, With(out, reply), back, k)
  {
    if ProcessQuiet(x.t, cx, s) {
      QuietKeeps(x, y, out, back, k, cx, s);
    } else {
      if s.control == Rst {
        ResetByPeer(Ideal, x.t, cx, s);
        assert false;
      }
      var (x', reply) := ProcessEnd(x, cx, s);
      GoKeeps(x, y, out, back, k, cx, s);
      GoReplies(x, y, out, back, k, cx, s);
      BothKept(x, x', reply, y, out, back, k);
    }
  }

  lemma GoKeeps(x: End, y: End, out: set<Segment>, back: set<Segment>, k: Link2, cx: Context, s: Segment)
    requires Live(x, y, out, back, k) && Accepts(x.t, s) && SegmentOk(Ideal, s) && s in back && s.control != Rst
    requires !ProcessQuiet(x.t, cx, s)
    ensures StepOk(x, ProcessEnd(x, cx, s).0, y, back, k)
  {
    var x' := ProcessEnd(x, cx, s).0;
    ProcessInv(Ideal, x.t, cx, s);
    GoEnd(x, x'.t, cx, s);
    GoView(x, x'.t, y, out, back, k, cx, s);
    GoReceiver(x, y, out, back, k, cx, s);
    Gathered(x, x', y, back, k);
  }

  lemma Gathered(x: End, x': End, y: End, back: set<Segment>, k: Link2)
    requires EndOk(x') && x'.written == x.written && (!MaySend(x.t.state) ==> !MaySend(x'.t.state))
    requires ViewOk(x.(t := x'.t), y, back, k.base, k.mine)
    requires ReceiverGrows(x, x') && ReceiverOk(x', y.written, k.other) && x'.t.rcv.shift == k.theirs
    requires x'.finSeen ==> !MaySend(y.t.state) && x'.received == y.written
    ensures StepOk(x, x', y, back, k)
  {
  }

  lemma GoReplies(x: End, y: End, out: set<Segment>, back: set<Segment>, k: Link2, cx: Context, s: Segment)
    requires Live(x, y, out, back, k) && Accepts(x.t, s) && SegmentOk(Ideal, s) && s in back && s.control != Rst
    requires !ProcessQuiet(x.t, cx, s) && StepOk(x, ProcessEnd(x, cx, s).0, y, back, k)
    ensures var (x', reply) := ProcessEnd(x, cx, s); reply.Some? ==> ReplyOk(x', back, k, reply.value)
  {
    var (x', reply) := ProcessEnd(x, cx, s);
    if reply.Some? {
      ProcessGoShape(x.t, cx, s);
      if x.t.state == LastAck {
        ReplyNeedsLife(x, y, out, back, k, s);
      }
      SelfAckOk(x', y, back, k, reply.value);
    }
  }
}
