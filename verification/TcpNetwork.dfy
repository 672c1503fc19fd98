/**
  Two sockets joined by a network that drops, duplicates and reorders segments. Both start ESTABLISHED,
  with matching sequence numbers and window scales, unbounded sequence numbers and keep-alive off.
 */
module TcpNetwork {
  import opened Options
  import opened Octets
  import opened Shifts
  import opened SeqNumber
  import opened Timers
  import opened RingSpec
  import opened TcpModel
  import opened TcpInvariant
  import A = AssemblerSpec

  /**
    An endpoint: its socket, what its application has written and read, everything it has received in
    order, and whether it has counted the peer's FIN.
   */
  datatype End = End(t: Tcb, written: seq<byte>, delivered: seq<byte>, received: seq<byte>, finSeen: bool)

  predicate Synced(st: State) {
    st != Closed && st != Listen && st != SynSent && st != SynReceived
  }

  predicate FinAcked(st: State) {
    st == FinWait2 || st == TimeWait
  }

  // ----- what holds in one direction

  /** The next sequence number expected by `r` of a peer whose data starts at `base`. */
  function Expected(r: End, base: int): int {
    base + |r.received| + (if r.finSeen then 1 else 0)
  }

  /** The right edge of the receive window. */
  function Edge(r: End, base: int): int {
    base + |r.delivered| + (if r.finSeen then 1 else 0) + r.t.rcv.buf.Capacity()
  }

  /** The transmit buffer holds exactly what is written and not acknowledged. */
  ghost predicate SendData(st: State, snd: SendHalf, written: seq<byte>, base: int) {
    if FinAcked(st) then snd.una == base + |written| + 1
    else base <= snd.una <= base + |written| && snd.buf.Contents() == written[snd.una - base..]
  }

  /** Octets that arrived ahead of time are the right ones. */
  ghost predicate AheadOk(rcv: RecvHalf, received: nat, w: seq<byte>) {
    forall o: nat {:trigger A.Covers(rcv.asm, o)} :: A.Covers(rcv.asm, o) && rcv.buf.len + o < |rcv.buf.cells| ==>
      received + o < |w| && rcv.buf.cells[rcv.buf.len + o] == w[received + o]
  }

  ghost predicate RecvData(rcv: RecvHalf, delivered: seq<byte>, received: seq<byte>, finSeen: bool, w: seq<byte>,
                           base: int) {
    && rcv.start == base + |delivered| + (if finSeen then 1 else 0)
    && delivered + rcv.buf.Contents() == received
    && rcv.fin == finSeen
    && AheadOk(rcv, |received|, w)
    && (finSeen ==> rcv.asm == [])
  }

  /**
    What was received in order was read or waits in the buffer. Only the end of TIME-WAIT drops what waits,
    and it also drops the socket's own record of the FIN.
   */
  ghost predicate ReceiverOk(r: End, w: seq<byte>, base: int) {
    && r.received <= w
    && r.delivered + r.t.rcv.buf.Contents() <= r.received
    && (r.t.rcv.fin ==> r.finSeen)
    && (r.t.rcv.fin == r.finSeen ==> r.delivered + r.t.rcv.buf.Contents() == r.received)
    && (Synced(r.t.state) ==> RecvData(r.t.rcv, r.delivered, r.received, r.finSeen, w, base))
  }

  /** Some segment in `back` has advertised a right edge at or beyond `e`. */
  ghost predicate Advertised(back: set<Segment>, shift: nat, e: int) {
    exists s :: s in back && Advertises(s, shift, e)
  }

  ghost predicate Advertises(s: Segment, shift: nat, e: int) {
    s.control != Rst && s.ack.Some? && e <= s.ack.value + Shl(s.win, shift)
  }

  /** A segment carries what was written at its sequence number, and a FIN only at the very end. */
  ghost predicate DataOk(s: Segment, written: seq<byte>, closing: bool, base: int) {
    s.control != Rst ==>
      && s.control != Syn && SegmentOk(Ideal, s) && base <= s.seqNo
      && (s.payload != [] ==>
            s.seqNo - base + |s.payload| <= |written|
            && s.payload == written[s.seqNo - base..s.seqNo - base + |s.payload|])
      && (s.control == Fin ==> closing && s.seqNo - base + |s.payload| == |written|)
  }

  /** A segment with more than one octet stays inside a right edge that was advertised. */
  ghost predicate FlowOk(s: Segment, back: set<Segment>, shift: nat) {
    s.control != Rst && |s.payload| > 1 ==> Advertised(back, shift, s.seqNo + |s.payload|)
  }

  /** A segment acknowledges only what was received, and advertises only what fits. */
  ghost predicate AckOk(s: Segment, r: End, base: int, shift: nat) {
    s.control != Rst ==>
      s.ack.Some? && s.ack.value <= Expected(r, base) && s.ack.value + Shl(s.win, shift) <= Edge(r, base)
  }

  function ScaleOf(snd: SendHalf): nat {
    if snd.winScale.Some? then snd.winScale.value else 0
  }

  /** Every octet written is still in the transmit buffer or has been received in order. */
  ghost predicate Held(s: End, r: End) {
    var n := s.t.snd.buf.len;
    && n <= |s.written| && s.t.snd.buf.Contents() == s.written[|s.written| - n..]
    && |s.written| - n <= |r.received|
  }

  /** The sender's view of the receiver lags behind but is never wrong. */
  ghost predicate ViewOk(s: End, r: End, back: set<Segment>, base: int, shift: nat) {
    Held(s, r) && (Synced(s.t.state) ==>
      && SendData(s.t.state, s.t.snd, s.written, base)
      && ScaleOf(s.t.snd) == shift
      && s.t.snd.una <= Expected(r, base)
      && Advertised(back, shift, s.t.snd.una + s.t.snd.winLen))
  }

  /** The direction from `s` to `r`: `net` holds what `s` has sent, `back` what `r` has sent. */
  ghost predicate Link(s: End, r: End, net: set<Segment>, back: set<Segment>, base: int, shift: nat) {
    && ViewOk(s, r, back, base, shift)
    && ReceiverOk(r, s.written, base)
    && (r.finSeen ==> !MaySend(s.t.state) && r.received == s.written)
    && (Synced(r.t.state) ==> r.t.rcv.shift == shift)
    && (forall g :: g in net ==> DataOk(g, s.written, !MaySend(s.t.state), base) && FlowOk(g, back, shift))
    && (forall g :: g in back ==> AckOk(g, r, base, shift))
  }

  ghost predicate NoKeepAlive(t: Tcb) {
    t.conf.keepAlive.None? && (t.timer.Idle? ==> t.timer.keepAliveAt.None?)
  }

  ghost predicate EndOk(e: End) {
    Inv(Ideal, e.t) && NoKeepAlive(e.t) && (Synced(e.t.state) || e.t.state == Closed)
  }

  // ----- the sender's side of a step

  /** An endpoint's history only grows, and nothing is written after the FIN is decided on. */
  ghost predicate SenderGrows(s: End, s': End) {
    && s.written <= s'.written
    && (!MaySend(s.t.state) ==> !MaySend(s'.t.state) && s'.written == s.written)
  }

  ghost predicate ReceiverGrows(r: End, r': End) {
    && r.delivered <= r'.delivered && r.received <= r'.received && (r.finSeen ==> r'.finSeen)
    && r'.t.rcv.buf.Capacity() == r.t.rcv.buf.Capacity()
  }

  lemma DataOkGrows(g: Segment, s: End, s': End, base: int)
    requires SenderGrows(s, s') && DataOk(g, s.written, !MaySend(s.t.state), base)
    ensures DataOk(g, s'.written, !MaySend(s'.t.state), base)
  {
  }

  lemma AckOkGrows(g: Segment, r: End, r': End, base: int, shift: nat)
    requires ReceiverGrows(r, r') && AckOk(g, r, base, shift)
    ensures AckOk(g, r', base, shift)
  {
  }

  lemma ReceiverOkGrows(r: End, w: seq<byte>, w': seq<byte>, base: int)
    requires w <= w' && ReceiverOk(r, w, base)
    ensures ReceiverOk(r, w', base)
  {
  }

  lemma AdvertisedGrows(back: set<Segment>, back': set<Segment>, shift: nat, e: int)
    requires back <= back' && Advertised(back, shift, e)
    ensures Advertised(back', shift, e)
  {
    var s :| s in back && Advertises(s, shift, e);
    assert s in back';
  }

  function With(net: set<Segment>, reply: Reply): set<Segment> {
    if reply.Some? then net + {reply.value} else net
  }

  /** A step of the sender keeps the direction. */
  lemma LinkSenderStep(s: End, s': End, r: End, net: set<Segment>, back: set<Segment>, reply: Reply, base: int,
                       shift: nat)
    requires Link(s, r, net, back, base, shift) && SenderGrows(s, s')
    requires ViewOk(s', r, back, base, shift)
    requires reply.Some? ==>
             DataOk(reply.value, s'.written, !MaySend(s'.t.state), base) && FlowOk(reply.value, back, shift)
    ensures Link(s', r, With(net, reply), back, base, shift)
  {
    forall g | g in With(net, reply)
      ensures DataOk(g, s'.written, !MaySend(s'.t.state), base) && FlowOk(g, back, shift)
    {
      if g in net {
        DataOkGrows(g, s, s', base);
      }
    }
    ReceiverOkGrows(r, s.written, s'.written, base);
  }

  /** A step of the receiver keeps the direction. */
  lemma LinkReceiverStep(s: End, r: End, r': End, net: set<Segment>, back: set<Segment>, reply: Reply, base: int,
                         shift: nat)
    requires Link(s, r, net, back, base, shift) && ReceiverGrows(r, r')
    requires ReceiverOk(r', s.written, base)
    requires r'.finSeen ==> !MaySend(s.t.state) && r'.received == s.written
    requires Synced(r'.t.state) ==> r'.t.rcv.shift == shift
    requires reply.Some? ==> AckOk(reply.value, r', base, shift)
    ensures Link(s, r', net, With(back, reply), base, shift)
  {
    forall g | g in With(back, reply)
      ensures AckOk(g, r', base, shift)
    {
      if g in back {
        AckOkGrows(g, r, r', base, shift);
      }
    }
    forall g | g in net
      ensures FlowOk(g, With(back, reply), shift)
    {
      if g.control != Rst && |g.payload| > 1 {
        AdvertisedGrows(back, With(back, reply), shift, g.seqNo + |g.payload|);
      }
    }
    if Synced(s.t.state) {
      AdvertisedGrows(back, With(back, reply), shift, s.t.snd.una + s.t.snd.winLen);
    }
  }

  // ----- what goes out

  ghost predicate SameSend(snd: SendHalf, snd': SendHalf) {
    snd'.una == snd.una && snd'.buf == snd.buf && snd'.winLen == snd.winLen && snd'.winScale == snd.winScale
  }

  ghost predicate SameRecv(rcv: RecvHalf, rcv': RecvHalf) {
    && rcv'.buf == rcv.buf && rcv'.asm == rcv.asm && rcv'.start == rcv.start && rcv'.fin == rcv.fin
    && rcv'.shift == rcv.shift
  }

  /** What an acknowledgement of a live socket says is true of it. */
  lemma OwnAckOk(r: End, w: seq<byte>, base: int, shift: nat, g: Segment)
    requires ReceiverOk(r, w, base) && Synced(r.t.state) && RecvOk(Ideal, r.t.rcv, r.t.conf.slots)
    requires r.t.rcv.shift == shift && g.ack == Some(r.t.rcv.Next(Ideal)) && g.win == r.t.rcv.ScaledWindow()
    ensures AckOk(g, r, base, shift)
    ensures g.win <= U16_MAX
  {
    var win := r.t.rcv.buf.Window();
    ShrShlBelow(win, shift);
    ShlMonotone(g.win, Shr(win, shift), shift);
    assert |r.delivered + r.t.rcv.buf.Contents()| == |r.received|;
  }

  /** A segment without payload or FIN carries no wrong data. */
  lemma BareDataOk(s: End, base: int, back: set<Segment>, shift: nat, g: Segment)
    requires Synced(s.t.state) && Inv(Ideal, s.t) && SendData(s.t.state, s.t.snd, s.written, base)
    requires g.seqNo == s.t.snd.nxt && g.payload == [] && g.control == NoFlag && g.win <= U16_MAX
    requires g.scale == None && g.mss == None
    ensures DataOk(g, s.written, !MaySend(s.t.state), base) && FlowOk(g, back, shift)
  {
  }

  /** A data segment is cut out of what was written. */
  lemma DraftDataOk(s: End, base: int, cx: Context, tuple: Tuple)
    requires Synced(s.t.state) && Inv(Ideal, s.t) && SendData(s.t.state, s.t.snd, s.written, base)
    requires s.t.tuple == Some(tuple)
    ensures DataOk(DraftSegment(Ideal, s.t, tuple, cx), s.written, !MaySend(s.t.state), base)
  {
    DraftRecvFields(Ideal, s.t, tuple, cx);
    if CarriesData(s.t.state) {
      DataSegmentOk(s, base, cx);
      DataDraftOk(s, base, cx, tuple);
    }
  }

  lemma DataDraftOk(s: End, base: int, cx: Context, tuple: Tuple)
    requires CarriesData(s.t.state) && SendData(s.t.state, s.t.snd, s.written, base) && s.t.tuple == Some(tuple)
    requires DraftSegment(Ideal, s.t, tuple, cx).win <= U16_MAX
    requires var p := DataPayload(Ideal, s.t, cx);
             var from := s.t.snd.nxt - base;
             && |p| < RX_LIMIT && from >= 0
             && (p != [] ==> from + |p| <= |s.written| && p == s.written[from..from + |p|])
             && (DataControl(Ideal, s.t, p) == Fin ==> SentFin(s.t.state) && from + |p| == |s.written|)
    ensures DataOk(DraftSegment(Ideal, s.t, tuple, cx), s.written, !MaySend(s.t.state), base)
  {
  }

  lemma DataSegmentOk(s: End, base: int, cx: Context)
    requires SendOk(Ideal, s.t.snd) && SeqSpace(Ideal, s.t.state, s.t.snd) && CarriesData(s.t.state) && s.t.tuple.Some?
    requires SendData(s.t.state, s.t.snd, s.written, base)
    ensures var p := DataPayload(Ideal, s.t, cx);
            var from := s.t.snd.nxt - base;
            && |p| < RX_LIMIT && from >= 0
            && (p != [] ==> from + |p| <= |s.written| && p == s.written[from..from + |p|])
            && (DataControl(Ideal, s.t, p) == Fin ==> SentFin(s.t.state) && from + |p| == |s.written|)
  {
    var p := DataPayload(Ideal, s.t, cx);
    var offset := Dist(Ideal, s.t.snd.nxt, s.t.snd.una);
    PayloadFacts(s.t, cx);
    if offset <= s.t.snd.buf.len {
      DraftBytes(s, base, offset, p);
    }
  }

  lemma PayloadFacts(t: Tcb, cx: Context)
    requires SendOk(Ideal, t.snd) && SeqSpace(Ideal, t.state, t.snd) && CarriesData(t.state) && t.tuple.Some?
    ensures var p, offset := DataPayload(Ideal, t, cx), t.snd.nxt - t.snd.una;
            && |p| < RX_LIMIT && offset >= 0
            && (offset <= t.snd.buf.len ==>
                  offset + |p| <= t.snd.buf.len && p == t.snd.buf.Contents()[offset..offset + |p|])
            && (offset > t.snd.buf.len ==> p == [] && DataControl(Ideal, t, p) == NoFlag)
  {
    var limit := if IsProbe(Ideal, t, cx.now) then 1 else WindowLimit(Ideal, t.snd);
    GetAllocatedFacts(t.snd.buf, t.snd.nxt - t.snd.una, Min(Min(limit, t.snd.mss), LocalMss(t.tuple.value, cx)));
  }

  lemma DraftBytes(s: End, base: int, offset: nat, p: seq<byte>)
    requires Synced(s.t.state) && !FinAcked(s.t.state) && SendData(s.t.state, s.t.snd, s.written, base)
             && s.t.snd.buf.Valid()
    requires offset + |p| <= s.t.snd.buf.len && p == s.t.snd.buf.Contents()[offset..offset + |p|]
    ensures var from := s.t.snd.una - base + offset;
            from + |p| <= |s.written| && p == s.written[from..from + |p|]
    ensures offset + |p| == s.t.snd.buf.len ==> s.t.snd.una - base + offset + |p| == |s.written|
  {
    var k := s.t.snd.una - base;
    assert s.written[k..][offset..offset + |p|] == s.written[k + offset..k + offset + |p|];
  }

  /** Except for one-octet probes, data stays inside an advertised right edge. */
  lemma DraftFlowOk(s: End, r: End, back: set<Segment>, base: int, shift: nat, cx: Context, tuple: Tuple)
    requires Synced(s.t.state) && Inv(Ideal, s.t) && ViewOk(s, r, back, base, shift)
    requires s.t.tuple == Some(tuple)
    ensures var g := DraftSegment(Ideal, s.t, tuple, cx);
            && FlowOk(g, back, shift)
            && (g.payload != [] && !IsProbe(Ideal, s.t, cx.now) ==> Advertised(back, shift, g.seqNo + |g.payload|))
            && (IsProbe(Ideal, s.t, cx.now) ==> |g.payload| <= 1)
  {
    var g := DraftSegment(Ideal, s.t, tuple, cx);
    if CarriesData(s.t.state) {
      var limit := if IsProbe(Ideal, s.t, cx.now) then 1 else WindowLimit(Ideal, s.t.snd);
      GetAllocatedFacts(s.t.snd.buf, Dist(Ideal, s.t.snd.nxt, s.t.snd.una),
                        Min(Min(limit, s.t.snd.mss), LocalMss(tuple, cx)));
      if g.payload != [] && !IsProbe(Ideal, s.t, cx.now) {
        LowerEdge(back, shift, s.t.snd.una + s.t.snd.winLen, g.seqNo + |g.payload|);
      }
    }
  }

  lemma LowerEdge(back: set<Segment>, shift: nat, e: int, e': int)
    requires e' <= e && Advertised(back, shift, e)
    ensures Advertised(back, shift, e')
  {
    var g :| g in back && Advertises(g, shift, e);
    assert Advertises(g, shift, e');
  }

  // ----- dispatch

  lemma BeforeFields(t: Tcb, cx: Context)
    requires NoKeepAlive(t)
    ensures var t1 := BeforeDispatch(Ideal, t, cx);
            && NoKeepAlive(t1) && (t1.state == t.state || t1.state == Closed)
            && SameSend(t.snd, t1.snd) && t1.rcv == t.rcv && t1.conf == t.conf && t1.tuple == t.tuple
  {
  }

  lemma AfterFields(t: Tcb, tuple: Tuple, cx: Context, s: Segment)
    requires NoKeepAlive(t)
    ensures var t' := AfterSend(Ideal, t, tuple, cx, s);
            NoKeepAlive(t') && t'.state == t.state && SameSend(t.snd, t'.snd) && SameRecv(t.rcv, t'.rcv)
            && t'.conf == t.conf
  {
  }

  /** The end of TIME-WAIT. */
  ghost predicate Expires(t: Tcb, t': Tcb) {
    && t.state == TimeWait && t'.state == Closed
    && t'.snd.buf == t.snd.buf.Clear() && t'.rcv.buf == t.rcv.buf.Clear() && !t'.rcv.fin
  }

  /** The data of both directions is untouched, even when the socket is closed, except by the end of TIME-WAIT. */
  ghost predicate KeepsData(t: Tcb, t': Tcb) {
    && (t'.state == t.state || t'.state == Closed)
    && ((SameSend(t.snd, t'.snd) && SameRecv(t.rcv, t'.rcv)) || Expires(t, t'))
  }

  /** What `dispatch` sends and what it leaves alone. */
  lemma DispatchFields(t: Tcb, cx: Context, sent: bool)
    requires NoKeepAlive(t) && t.state != Listen && TimerOk(t.state, t.timer, t.snd.winLen)
    ensures var (t', reply) := Dispatch(Ideal, t, cx, sent);
            var t1 := BeforeDispatch(Ideal, t, cx);
            && NoKeepAlive(t') && KeepsData(t, t')
            && (reply.Some? ==>
                  && t.tuple.Some? && t'.state == t1.state
                  && reply.value == DraftSegment(Ideal, t1, t.tuple.value, cx))
  {
    BeforeFields(t, cx);
    var t1 := BeforeDispatch(Ideal, t, cx);
    if t.tuple.Some? {
      AfterFields(t1, t.tuple.value, cx, OutgoingSegment(Ideal, t1, t.tuple.value, cx));
      assert !IsKeepAlive(Ideal, t1, t.tuple.value, cx);
    }
  }

  /** An endpoint and both directions: `out` is what `x` has sent to `y`, `back` what `y` has sent to `x`. */
  ghost predicate Live(x: End, y: End, out: set<Segment>, back: set<Segment>, k: Link2) {
    EndOk(x) && Link(x, y, out, back, k.base, k.mine) && Link(y, x, back, out, k.other, k.theirs)
  }

  /** The constants of the two directions as `x` sees them: first sequence numbers and window scales. */
  datatype Link2 = Link2(base: int, other: int, mine: nat, theirs: nat)

  ghost predicate ReplyOk(x: End, back: set<Segment>, k: Link2, g: Segment) {
    && DataOk(g, x.written, !MaySend(x.t.state), k.base) && FlowOk(g, back, k.mine)
    && AckOk(g, x, k.other, k.theirs)
  }

  /** What a step of `x` must show for both directions to be kept. */
  ghost predicate StepOk(x: End, x': End, y: End, back: set<Segment>, k: Link2) {
    && EndOk(x') && SenderGrows(x, x') && ReceiverGrows(x, x')
    && ViewOk(x', y, back, k.base, k.mine) && ReceiverOk(x', y.written, k.other)
    && (x'.finSeen ==> !MaySend(y.t.state) && x'.received == y.written)
    && (Synced(x'.t.state) ==> x'.t.rcv.shift == k.theirs)
  }

  lemma BothKept(x: End, x': End, reply: Reply, y: End, out: set<Segment>, back: set<Segment>, k: Link2)
    requires Live(x, y, out, back, k) && StepOk(x, x', y, back, k)
    requires reply.Some? ==> ReplyOk(x', back, k, reply.value)
    ensures Live(x', y, With(out, reply), back, k)
  {
    LinkSenderStep(x, x', y, out, back, reply, k.base, k.mine);
    LinkReceiverStep(y, x, x', back, out, reply, k.other, k.theirs);
  }

  lemma QuietView(x: End, t': Tcb, y: End, back: set<Segment>, base: int, shift: nat)
    requires ViewOk(x, y, back, base, shift) && KeepsData(x.t, t') && (Synced(x.t.state) || x.t.state == Closed)
    requires SeqSpace(Ideal, x.t.state, x.t.snd)
    ensures ViewOk(x.(t := t'), y, back, base, shift)
  {
    if Expires(x.t, t') {
      assert t'.snd.buf.len == 0 && t'.snd.buf.Contents() == [];
    }
  }

  lemma QuietReceiver(x: End, t': Tcb, w: seq<byte>, base: int)
    requires ReceiverOk(x, w, base) && KeepsData(x.t, t') && RecvHistory(x.t.state, x.t.rcv)
    ensures ReceiverOk(x.(t := t'), w, base)
    ensures t'.rcv.buf.Capacity() == x.t.rcv.buf.Capacity()
  {
  }

  /** A step that touches no data keeps both directions. */
  lemma QuietStep(x: End, t': Tcb, reply: Reply, y: End, out: set<Segment>, back: set<Segment>, k: Link2)
    requires Live(x, y, out, back, k) && Inv(Ideal, t') && NoKeepAlive(t') && KeepsData(x.t, t')
    requires reply.Some? ==> ReplyOk(x.(t := t'), back, k, reply.value)
    ensures Live(x.(t := t'), y, With(out, reply), back, k)
  {
    QuietView(x, t', y, back, k.base, k.mine);
    QuietReceiver(x, t', y.written, k.other);
    BothKept(x, x.(t := t'), reply, y, out, back, k);
  }

  lemma DraftReplyOk(x: End, y: End, back: set<Segment>, k: Link2, cx: Context, tuple: Tuple)
    requires EndOk(x) && ViewOk(x, y, back, k.base, k.mine) && ReceiverOk(x, y.written, k.other)
    requires Synced(x.t.state) ==> x.t.rcv.shift == k.theirs
    requires x.t.tuple == Some(tuple)
    ensures ReplyOk(x, back, k, DraftSegment(Ideal, x.t, tuple, cx))
  {
    if Synced(x.t.state) {
      DraftDataOk(x, k.base, cx, tuple);
      DraftFlowOk(x, y, back, k.base, k.mine, cx, tuple);
      OwnAckOk(x, y.written, k.other, k.theirs, DraftSegment(Ideal, x.t, tuple, cx));
    }
  }

  lemma BeforeKeepsView(x: End, y: End, out: set<Segment>, back: set<Segment>, k: Link2, cx: Context)
    requires Live(x, y, out, back, k)
    ensures var x1 := x.(t := BeforeDispatch(Ideal, x.t, cx));
            && EndOk(x1) && ViewOk(x1, y, back, k.base, k.mine) && ReceiverOk(x1, y.written, k.other)
            && (Synced(x1.t.state) ==> x1.t.rcv.shift == k.theirs) && x1.t.tuple == x.t.tuple
  {
    BeforeEndOk(x, cx);
    BeforeViewOk(x, y, back, k, cx);
  }

  lemma BeforeEndOk(x: End, cx: Context)
    requires EndOk(x)
    ensures EndOk(x.(t := BeforeDispatch(Ideal, x.t, cx)))
  {
    BeforeFields(x.t, cx);
    BeforeDispatchInv(Ideal, x.t, cx);
  }

  lemma BeforeViewOk(x: End, y: End, back: set<Segment>, k: Link2, cx: Context)
    requires NoKeepAlive(x.t) && ViewOk(x, y, back, k.base, k.mine) && ReceiverOk(x, y.written, k.other)
    requires Synced(x.t.state) ==> x.t.rcv.shift == k.theirs
    ensures var x1 := x.(t := BeforeDispatch(Ideal, x.t, cx));
            && ViewOk(x1, y, back, k.base, k.mine) && ReceiverOk(x1, y.written, k.other)
            && (Synced(x1.t.state) ==> x1.t.rcv.shift == k.theirs) && x1.t.tuple == x.t.tuple
  {
    BeforeFields(x.t, cx);
  }

  lemma ReplyOkFields(x1: End, x: End, back: set<Segment>, k: Link2, g: Segment)
    requires ReplyOk(x1, back, k, g)
    requires x == x1.(t := x.t) && x.t.state == x1.t.state
    requires x.t.rcv.buf.Capacity() == x1.t.rcv.buf.Capacity()
    ensures ReplyOk(x, back, k, g)
  {
  }

  lemma DispatchReplyOk(x: End, y: End, out: set<Segment>, back: set<Segment>, k: Link2, cx: Context, sent: bool)
    requires Live(x, y, out, back, k) && Dispatch(Ideal, x.t, cx, sent).1.Some?
    ensures var (t', reply) := Dispatch(Ideal, x.t, cx, sent);
            ReplyOk(x.(t := t'), back, k, reply.value)
  {
    var (t', reply) := Dispatch(Ideal, x.t, cx, sent);
    DispatchFields(x.t, cx, sent);
    var x1 := x.(t := BeforeDispatch(Ideal, x.t, cx));
    BeforeKeepsView(x, y, out, back, k, cx);
    DraftReplyOk(x1, y, back, k, cx, x.t.tuple.value);
    BeforeFields(x.t, cx);
    ReplyOkFields(x1, x.(t := t'), back, k, reply.value);
  }

  /** `dispatch` keeps both directions: what it sends is right. */
  lemma DispatchKeeps(x: End, y: End, out: set<Segment>, back: set<Segment>, k: Link2, cx: Context, sent: bool)
    requires Live(x, y, out, back, k)
    ensures var (t', reply) := Dispatch(Ideal, x.t, cx, sent);
            Live(x.(t := t'), y, With(out, reply), back, k)
  {
    var (t', reply) := Dispatch(Ideal, x.t, cx, sent);
    DispatchInv(Ideal, x.t, cx, sent);
    DispatchFields(x.t, cx, sent);
    if reply.Some? {
      DispatchReplyOk(x, y, out, back, k, cx, sent);
    }
    QuietStep(x, t', reply, y, out, back, k);
  }

  // ----- the calls of the application

  function SendEnd(x: End, data: seq<byte>): End {
    var (t', n) := DoSend(x.t, data);
    x.(t := t', written := x.written + (if n.Some? && n.value <= |data| then data[..n.value] else []))
  }

  function RecvEnd(x: End, want: nat): End {
    var (t', data) := DoRecv(Ideal, x.t, want);
    x.(t := t', delivered := x.delivered + (if data.Some? then data.value else []))
  }

  lemma SendDataGrows(snd: SendHalf, data: seq<byte>, written: seq<byte>, base: int)
    requires snd.buf.Valid() && SendData(Established, snd, written, base)
    ensures var n := Min(|data|, snd.buf.Window());
            SendData(Established, snd.(buf := snd.buf.Enqueue(data)), written + data[..n], base)
  {
    EnqueueFacts(snd.buf, data);
    var n := Min(|data|, snd.buf.Window());
    var j := snd.una - base;
    assert (written + data[..n])[j..] == written[j..] + data[..n];
  }

  lemma SendFields(x: End, data: seq<byte>)
    requires MaySend(x.t.state)
    ensures var x' := SendEnd(x, data);
            && x'.t.state == x.t.state && x'.t.rcv == x.t.rcv && x'.t.conf == x.t.conf
            && x'.t.snd == x.t.snd.(buf := x.t.snd.buf.Enqueue(data))
            && x' == x.(t := x'.t, written := x.written + data[..Min(|data|, x.t.snd.buf.Window())])
            && (NoKeepAlive(x.t) ==> NoKeepAlive(x'.t))
  {
  }

  lemma SendKeeps(x: End, y: End, out: set<Segment>, back: set<Segment>, k: Link2, data: seq<byte>)
    requires Live(x, y, out, back, k)
    ensures Live(SendEnd(x, data), y, out, back, k)
  {
    var x' := SendEnd(x, data);
    if MaySend(x.t.state) {
      SendStepOk(x, y, out, back, k, data);
      BothKept(x, x', None, y, out, back, k);
    } else {
      assert x' == x;
    }
  }

  lemma SendStepOk(x: End, y: End, out: set<Segment>, back: set<Segment>, k: Link2, data: seq<byte>)
    requires Live(x, y, out, back, k) && MaySend(x.t.state)
    ensures StepOk(x, SendEnd(x, data), y, back, k)
  {
    var x' := SendEnd(x, data);
    DoSendInv(Ideal, x.t, data);
    SendFields(x, data);
    SendDataGrows(x.t.snd, data, x.written, k.base);
    SendHeld(x, y, data);
    ReceiverUntouched(x, x', y.written, k.other);
  }

  lemma SendHeld(x: End, y: End, data: seq<byte>)
    requires MaySend(x.t.state) && x.t.snd.buf.Valid() && Held(x, y)
    ensures Held(SendEnd(x, data), y)
  {
    SendFields(x, data);
    EnqueueFacts(x.t.snd.buf, data);
    var n, j := Min(|data|, x.t.snd.buf.Window()), |x.written| - x.t.snd.buf.len;
    assert (x.written + data[..n])[j..] == x.written[j..] + data[..n];
  }

  lemma ReceiverUntouched(x: End, x': End, w: seq<byte>, base: int)
    requires ReceiverOk(x, w, base) && x'.t.rcv == x.t.rcv && x'.t.state == x.t.state
    requires x'.delivered == x.delivered && x'.received == x.received && x'.finSeen == x.finSeen
    ensures ReceiverOk(x', w, base)
  {
  }

  lemma RecvFields(x: End, want: nat)
    requires MayRecv(x.t) && x.t.rcv.buf.Valid()
    ensures var x' := RecvEnd(x, want);
            var n := Min(want, x.t.rcv.buf.len);
            && x'.t == x.t.(rcv := x.t.rcv.(buf := x.t.rcv.buf.DequeueAllocated(n), start := x.t.rcv.start + n))
            && x' == x.(t := x'.t, delivered := x.delivered + x.t.rcv.buf.Contents()[..n])
  {
  }

  lemma RecvAhead(rcv: RecvHalf, rcv': RecvHalf, received: nat, n: nat, w: seq<byte>)
    requires rcv.buf.Valid() && n <= rcv.buf.len
    requires rcv'.asm == rcv.asm && rcv'.buf == rcv.buf.DequeueAllocated(n)
    requires A.Extent(rcv.asm) <= rcv.buf.Window() && AheadOk(rcv, received, w)
    ensures AheadOk(rcv', received, w)
  {
    DequeueFacts(rcv.buf, n);
    forall o: nat | A.Covers(rcv'.asm, o) && rcv'.buf.len + o < |rcv'.buf.cells|
      ensures received + o < |w| && rcv'.buf.cells[rcv'.buf.len + o] == w[received + o]
    {
      A.CoversRange(rcv.asm, o);
    }
  }

  lemma MoveAcross(a: seq<byte>, c: seq<byte>, n: nat)
    requires n <= |c|
    ensures (a + c[..n]) + c[n..] == a + c
  {
    assert c == c[..n] + c[n..];
  }

  lemma RecvReceiverOk(x: End, want: nat, w: seq<byte>, base: int)
    requires MayRecv(x.t) && Inv(Ideal, x.t) && ReceiverOk(x, w, base)
    ensures ReceiverOk(RecvEnd(x, want), w, base)
  {
    var x' := RecvEnd(x, want);
    var n := Min(want, x.t.rcv.buf.len);
    RecvFields(x, want);
    DequeueFacts(x.t.rcv.buf, n);
    MoveAcross(x.delivered, x.t.rcv.buf.Contents(), n);
    if Synced(x.t.state) {
      RecvAhead(x.t.rcv, x'.t.rcv, |x.received|, n, w);
    }
  }

  lemma RecvKeeps(x: End, y: End, out: set<Segment>, back: set<Segment>, k: Link2, want: nat)
    requires Live(x, y, out, back, k)
    ensures Live(RecvEnd(x, want), y, out, back, k)
  {
    var x' := RecvEnd(x, want);
    if MayRecv(x.t) {
      RecvStepOk(x, y, out, back, k, want);
      BothKept(x, x', None, y, out, back, k);
    } else {
      assert x' == x;
    }
  }

  lemma RecvStepOk(x: End, y: End, out: set<Segment>, back: set<Segment>, k: Link2, want: nat)
    requires Live(x, y, out, back, k) && MayRecv(x.t)
    ensures StepOk(x, RecvEnd(x, want), y, back, k)
  {
    DoRecvInv(Ideal, x.t, want);
    RecvFields(x, want);
    DequeueFacts(x.t.rcv.buf, Min(want, x.t.rcv.buf.len));
    RecvReceiverOk(x, want, y.written, k.other);
  }

  /** Closing, aborting and reconfiguring touch no data. */
  lemma CloseKeeps(x: End, t': Tcb, y: End, out: set<Segment>, back: set<Segment>, k: Link2)
    requires Live(x, y, out, back, k) && Inv(Ideal, t')
    requires t'.state == DoClose(x.t).state || t'.state == Closed || t'.state == x.t.state
    requires t' == x.t.(state := t'.state, conf := t'.conf) && t'.conf.keepAlive.None?
    ensures Live(x.(t := t'), y, out, back, k)
  {
    BothKept(x, x.(t := t'), None, y, out, back, k);
  }
}
