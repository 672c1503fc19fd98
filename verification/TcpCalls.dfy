/**
  What the calls of the application mean for the application: which octets are taken, handed out and kept,
  when a call is refused, and what the socket will send because of it.
 */
module TcpCalls {
  import opened Options
  import opened Octets
  import opened Shifts
  import opened SeqNumber
  import opened Timers
  import opened RingSpec
  import opened TcpModel
  import opened TcpInvariant

  // ----- send

  /** The window will be probed, the first time after one retransmission timeout. */
  function Probing(t: Tcb): Timer {
    ZeroWindowProbe(1000 * t.rtte.rto, 1000 * t.rtte.rto)
  }

  /** As much as fits is appended to what is to be sent, and a closed window will be probed. */
  ghost predicate SendMeans(t: Tcb, data: seq<byte>, t': Tcb, r: Option<nat>) {
    && (r.None? <==> t.state !in {Established, CloseWait}) && (r.None? ==> t' == t)
    && (r.Some? ==>
          && r.value == Min(|data|, t.snd.buf.Window())
          && t'.snd.buf.Contents() == t.snd.buf.Contents() + data[..r.value]
          && (t'.timer == if r.value > 0 && t.snd.winLen == 0 && t.timer.Idle? then Probing(t) else t.timer)
          && (t'.lastTs == if r.value > 0 && t.snd.buf.len == 0 then None else t.lastTs))
    && t'.rtte == t.rtte && t'.tuple == t.tuple && t'.conf == t.conf
    && t'.rcv == t.rcv && t'.snd == t.snd.(buf := t'.snd.buf) && t'.state == t.state
  }

  lemma SendMeaning(m: Arith, t: Tcb, data: seq<byte>)
    requires Inv(m, t)
    ensures Inv(m, DoSend(t, data).0) && SendMeans(t, data, DoSend(t, data).0, DoSend(t, data).1)
  {
    DoSendInv(m, t, data);
    EnqueueFacts(t.snd.buf, data);
  }

  // ----- recv

  /** The oldest octets are handed out; the window grows by as many, and its left edge stays where it is. */
  ghost predicate RecvMeans(m: Arith, t: Tcb, want: nat, t': Tcb, r: Option<seq<byte>>) {
    && (r.None? <==> t.state !in {Established, FinWait1, FinWait2} && t.rcv.buf.len == 0) && (r.None? ==> t' == t)
    && (r.Some? ==>
          && |r.value| == Min(want, t.rcv.buf.len)
          && r.value + t'.rcv.buf.Contents() == t.rcv.buf.Contents()
          && t'.rcv.buf.Window() == t.rcv.buf.Window() + |r.value|
          && t'.rcv.Next(m) == t.rcv.Next(m)
          && (forall i :: 0 <= i < t.rcv.buf.Capacity() - |r.value| ==>
                t'.rcv.buf.cells[i] == t.rcv.buf.cells[i + |r.value|]))
    && t' == t.(rcv := t.rcv.(buf := t'.rcv.buf, start := t'.rcv.start))
    && t'.rcv.buf.Capacity() == t.rcv.buf.Capacity()
  }

  lemma RecvMeaning(m: Arith, t: Tcb, want: nat)
    requires Inv(m, t)
    ensures Inv(m, DoRecv(m, t, want).0) && RecvMeans(m, t, want, DoRecv(m, t, want).0, DoRecv(m, t, want).1)
  {
    var n := Min(want, t.rcv.buf.len);
    DoRecvInv(m, t, want);
    DequeueFacts(t.rcv.buf, n);
    var c := t.rcv.buf.Contents();
    assert c == c[..n] + c[n..];
  }

  // ----- close

  /** The sequence number one past the last octet written. */
  function StreamEnd(m: Arith, snd: SendHalf): int {
    Add(m, snd.una, snd.buf.len)
  }

  /** What the socket would send ends with the FIN exactly when the FIN's number is that of the stream's end. */
  ghost predicate FinComesLast(m: Arith, t: Tcb, cx: Context) {
    t.tuple.Some? ==>
      var s := DraftSegment(m, t, t.tuple.value, cx);
      s.control == Fin <==> Add(m, s.seqNo, |s.payload|) == StreamEnd(m, t.snd)
  }

  /** The socket is closed and takes no segment any more. */
  ghost predicate Deaf(t: Tcb) {
    t.state == Closed && forall s: Segment :: !Accepts(t, s)
  }

  /**
    No more octets are taken; what was taken before still goes out, and the FIN after it; reading goes on. A
    socket that has not heard from a peer yet is closed at once and hears nothing any more; one that has sent
    its FIN, or is closed, stays as it is.
   */
  ghost predicate CloseMeans(m: Arith, t: Tcb, t': Tcb) {
    && t'.state !in {Established, CloseWait} && t' == t.(state := t'.state)
    && (t.state == Listen || t.state == SynSent ==> Deaf(t'))
    && (t.state == SynReceived || t.state == Established ==> t'.state == FinWait1)
    && (t.state == CloseWait ==> t'.state == LastAck)
    && (t.state in {Closed, FinWait1, FinWait2, Closing, LastAck, TimeWait} ==> t' == t)
    && (MayRecv(t) ==> MayRecv(t'))
    && (t.state in {Established, CloseWait} ==> forall cx: Context :: FinComesLast(m, t', cx))
    && DoClose(t') == t'
  }

  lemma CloseMeaning(m: Arith, t: Tcb)
    requires Inv(m, t)
    ensures Inv(m, DoClose(t)) && CloseMeans(m, t, DoClose(t))
  {
    CloseCallsInv(m, t);
    var t' := DoClose(t);
    if MaySend(t.state) {
      forall cx: Context
        ensures FinComesLast(m, t', cx)
      {
        FinLast(m, t', cx);
      }
    }
  }

  lemma FinLast(m: Arith, t: Tcb, cx: Context)
    requires Inv(m, t) && SentFin(t.state)
    ensures FinComesLast(m, t, cx)
  {
    if t.tuple.Some? {
      DataPayloadFits(m, t, cx);
      SameNumber(m, t.snd.una, t.snd.nxt, |DataPayload(m, t, cx)|, t.snd.buf.len);
    }
  }

  lemma SameNumber(m: Arith, una: int, nxt: int, size: nat, len: nat)
    requires InRange(m, una) && InRange(m, nxt) && len <= TX_LIMIT && 0 <= Diff(m, nxt, una) <= len + 1
    requires size == 0 || Diff(m, nxt, una) + size <= len
    ensures Add(m, nxt, size) == Add(m, una, len) <==> Diff(m, nxt, una) + size == len
  {
  }

  // ----- listen and connect

  /** Nothing is left of an earlier connection except the buffers' storage and the settings. */
  ghost predicate Cleared(t: Tcb, t': Tcb) {
    && t'.timer == Idle(None) && t'.rtte == RTTE_DEFAULT && t'.lastTs.None? && t'.challengeAt == 0 && t'.conf == t.conf
    && t'.snd.buf.len == 0 && t'.snd.buf.Capacity() == t.snd.buf.Capacity()
    && t'.snd.winLen == 0 && t'.snd.winScale.None? && t'.snd.mss == 536
    && t'.rcv.buf.len == 0 && t'.rcv.buf.Capacity() == t.rcv.buf.Capacity() && t'.rcv.asm == [] && !t'.rcv.fin
    && t'.rcv.lastAck.None? && t'.rcv.lastWin == 0 && t'.rcv.ackTimer.AckIdle?
    && ScalesFor(t'.rcv.buf.Capacity(), t'.rcv.shift)
  }

  /** The smallest shift with which 16 bits can express the whole buffer. */
  ghost predicate ScalesFor(capacity: nat, shift: nat) {
    capacity < Shl(1, 16 + shift) && (shift > 0 ==> Shl(1, 15 + shift) <= capacity)
  }

  lemma {:induction false} BitLengthExact(n: nat)
    ensures n < Shl(1, BitLength(n)) && (n > 0 ==> BitLength(n) > 0 && Shl(1, BitLength(n) - 1) <= n)
    decreases n
  {
    if n > 0 {
      BitLengthExact(n / 2);
    }
  }

  lemma ResetClears(t: Tcb)
    requires t.snd.buf.Valid() && t.rcv.buf.Valid()
    ensures Cleared(t, Reset(t))
  {
    var n := t.rcv.buf.Capacity();
    BitLengthExact(n);
    if BitLength(n) <= 16 {
      ShlMonotoneShift(1, BitLength(n), 16);
    }
  }

  /** A closed socket starts listening, with nothing buffered; an open one is left alone. */
  ghost predicate ListenMeans(t: Tcb, local: ListenEndpoint, t': Tcb, ok: bool) {
    && (ok <==> local.port != 0 && (t.state in {Closed, TimeWait} || (t.state == Listen && t.listen == local)))
    && (!ok || t.state !in {Closed, TimeWait} ==> t' == t)
    && (ok && t.state in {Closed, TimeWait} ==>
          t'.state == Listen && t'.listen == local && t'.tuple.None? && Cleared(t, t'))
    && (ok ==> t'.snd.buf.len == 0 && t'.rcv.buf.len == 0)
    && (ok ==> forall s: Segment :: Accepts(t', s) <==> Addressed(local, s))
  }

  /** A segment that may open a connection, sent to the endpoint. */
  predicate Addressed(local: ListenEndpoint, s: Segment) {
    s.ack.None? && s.control != Rst && s.dst.port == local.port && (local.addr.Some? ==> s.dst.addr == local.addr.value)
  }

  lemma ListenMeaning(m: Arith, t: Tcb, local: ListenEndpoint)
    requires Inv(m, t)
    ensures Inv(m, DoListen(t, local).0) && ListenMeans(t, local, DoListen(t, local).0, DoListen(t, local).1)
  {
    ResetInv(m, t);
    ResetClears(t);
  }

  /** The socket would now send its SYN, and nothing else. */
  ghost predicate SendsSyn(m: Arith, t: Tcb, endpoints: Tuple, isn: int, cx: Context) {
    var s := Dispatch(m, t, cx, true).1;
    && s.Some? && s.value.control == Syn && s.value.seqNo == isn && s.value.ack.None? && s.value.payload == []
    && s.value.src == endpoints.local && s.value.dst == endpoints.remote
  }

  /** The endpoints a connection needs. */
  predicate Connectable(endpoints: Tuple) {
    && endpoints.remote.port != 0 && endpoints.remote.addr.octets != 0
    && endpoints.local.port != 0 && endpoints.local.addr.octets != 0
    && endpoints.local.addr.Ipv4? == endpoints.remote.addr.Ipv4?
  }

  /**
    A closed socket opens a connection: it takes only segments of that connection, and the first segment it
    sends is the SYN (unless the connection timeout is zero, when it gives up at once).
   */
  ghost predicate ConnectMeans(m: Arith, t: Tcb, endpoints: Tuple, isn: int, t': Tcb, ok: bool) {
    && (ok <==> t.state in {Closed, TimeWait} && Connectable(endpoints)) && (!ok ==> t' == t)
    && (ok ==> forall s: Segment :: Accepts(t', s) <==> s.dst == endpoints.local && s.src == endpoints.remote)
    && (ok ==> t'.state == SynSent && t'.listen.port == 0 && t'.snd.una == isn && t'.snd.nxt == isn && Cleared(t, t'))
    && (ok && t.conf.timeout != Some(0) ==> forall cx: Context :: SendsSyn(m, t', endpoints, isn, cx))
  }

  lemma ConnectMeaning(m: Arith, t: Tcb, endpoints: Tuple, isn: int)
    requires Inv(m, t) && InRange(m, isn)
    ensures Inv(m, DoConnect(t, endpoints, isn).0)
    ensures ConnectMeans(m, t, endpoints, isn, DoConnect(t, endpoints, isn).0, DoConnect(t, endpoints, isn).1)
  {
    OpenCallsInv(m, t, t.listen, endpoints, isn);
    ResetClears(t);
    var (t', ok) := DoConnect(t, endpoints, isn);
    if ok && t.conf.timeout != Some(0) {
      forall cx: Context
        ensures SendsSyn(m, t', endpoints, isn, cx)
      {
        SynComesFirst(m, t', endpoints, isn, cx);
      }
    }
  }

  lemma SynComesFirst(m: Arith, t: Tcb, endpoints: Tuple, isn: int, cx: Context)
    requires t.state == SynSent && t.tuple == Some(endpoints) && t.snd.una == isn && t.snd.nxt == isn && t.lastTs.None?
    requires t.timer == Idle(None) && t.conf.timeout != Some(0)
    ensures SendsSyn(m, t, endpoints, isn, cx)
  {
    var t1 := t.(lastTs := Some(cx.now));
    assert SeqToTransmit(m, t1, cx) && BeforeDispatch(m, t, cx) == t1;
  }
}
