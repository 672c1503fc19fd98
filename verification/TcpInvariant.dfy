/**
  What holds of one socket in every run, whatever segments arrive: the sequence-space invariant, the
  history that each state carries, and the bounds that keep every subtraction and buffer operation of
  `process` and `dispatch` in its domain. All of it is proved for the program's 32-bit arithmetic and
  for unbounded sequence numbers alike.
 */
module TcpInvariant {
  import opened Options
  import opened Octets
  import opened Shifts
  import opened Polling
  import opened SeqNumber
  import opened Timers
  import opened RingSpec
  import opened TcpModel
  import AssemblerSpec

  const RX_LIMIT: nat := 0x4000_0000
  const TX_LIMIT: nat := 0x7fff_fffe

  ghost predicate OptionInRange(m: Arith, o: Option<int>) {
    o.Some? ==> InRange(m, o.value)
  }

  // ----- the parts of the invariant

  ghost predicate SendOk(m: Arith, snd: SendHalf) {
    && snd.buf.Valid() && snd.buf.Capacity() <= TX_LIMIT
    && InRange(m, snd.una) && InRange(m, snd.nxt)
    && 0 < snd.mss <= U16_MAX && snd.winLen < RX_LIMIT
    && (snd.winScale.Some? ==> snd.winScale.value <= 14)
  }

  /** What was sent and not acknowledged fits what is buffered plus an unacknowledged SYN or FIN. */
  ghost predicate SeqSpace(m: Arith, st: State, snd: SendHalf) {
    && 0 <= Diff(m, snd.nxt, snd.una) <= snd.buf.len + (if st == Closed || st == Listen then 1 else ControlLen(st))
    && (st == FinWait2 || st == TimeWait ==> snd.buf.len == 0 && snd.nxt == snd.una)
    && (SentSyn(st) ==> snd.buf.len == 0)
  }

  ghost predicate RecvOk(m: Arith, rcv: RecvHalf, slots: nat) {
    && rcv.buf.Valid() && rcv.buf.Capacity() <= RX_LIMIT
    && InRange(m, rcv.start) && OptionInRange(m, rcv.lastAck)
    && AssemblerSpec.Canonical(rcv.asm) && |rcv.asm| <= slots && slots > 0
    && AssemblerSpec.Extent(rcv.asm) <= rcv.buf.Window()
    && rcv.lastWin <= U16_MAX && rcv.shift <= 15
  }

  /** The peer's FIN has been counted exactly in these states. */
  predicate PeerFinished(st: State) {
    st == CloseWait || st == LastAck || st == Closing || st == TimeWait
  }

  ghost predicate RecvHistory(st: State, rcv: RecvHalf) {
    && (st != Closed ==> (rcv.fin <==> PeerFinished(st)))
    && (st == Listen || SentSyn(st) ==> rcv.buf.len == 0 && rcv.asm == [])
  }

  ghost predicate TimerOk(st: State, timer: Timer, winLen: nat) {
    && (st == TimeWait ==> timer.Close?)
    && (timer.Close? ==> st == TimeWait || st == Closed)
    && (timer.ZeroWindowProbe? ==> winLen == 0 && timer.delay > 0)
  }

  ghost predicate RttOk(r: Rtte) {
    RTTE_MIN_RTO <= r.rto <= RTTE_MAX_RTO
  }

  ghost predicate TupleOk(st: State, tuple: Option<Tuple>) {
    && (st == Listen ==> tuple.None?)
    && (st != Listen && st != Closed ==> tuple.Some?)
  }

  /** The invariant of a socket. */
  ghost predicate Inv(m: Arith, t: Tcb) {
    && SendOk(m, t.snd) && SeqSpace(m, t.state, t.snd) && (t.state == Listen ==> t.snd.buf.len == 0)
    && RecvOk(m, t.rcv, t.conf.slots) && RecvHistory(t.state, t.rcv)
    && TimerOk(t.state, t.timer, t.snd.winLen)
    && RttOk(t.rtte)
    && TupleOk(t.state, t.tuple)
  }

  /** What the wire format guarantees of an incoming segment. */
  ghost predicate SegmentOk(m: Arith, s: Segment) {
    && InRange(m, s.seqNo) && OptionInRange(m, s.ack)
    && |s.payload| < RX_LIMIT
    && s.win <= U16_MAX && (s.scale.Some? ==> s.scale.value <= 14) && (s.mss.Some? ==> s.mss.value <= U16_MAX)
  }

  // ----- the send side

  /** An accepted acknowledgement lies between `una` and everything that could have been sent. */
  lemma AcceptedAck(m: Arith, st: State, snd: SendHalf, s: Segment)
    requires SendOk(m, snd) && SegmentOk(m, s)
    requires st != Closed && st != Listen && st != SynSent && s.control != Rst
    requires CheckAck(m, st, snd, s) == AckAccept
    ensures s.ack.Some?
    ensures 0 <= Diff(m, s.ack.value, snd.una) <= snd.buf.len + ControlLen(st)
    ensures SentSyn(st) ==> s.ack.value == Add(m, snd.una, 1)
  {
  }

  /** The acknowledged octets are in the buffer. */
  lemma AckLenFits(m: Arith, st: State, snd: SendHalf, s: Segment)
    requires SendOk(m, snd) && SegmentOk(m, s)
    requires st != Closed && s.control != Rst && (st == Listen ==> s.ack.None?)
    requires CheckAck(m, st, snd, s) == AckAccept
    ensures var a := AnalyseAck(m, st, snd, s);
            && a.len <= snd.buf.len
            && (SentSyn(st) ==> a.len == 0)
            && (a.ofFin ==>
                  SentFin(st) && a.len == snd.buf.len && s.ack.Some?
                  && Diff(m, s.ack.value, snd.una) == snd.buf.len + 1)
            && (!a.ofFin && st != Listen && st != SynSent ==>
                  s.ack.Some? && Diff(m, s.ack.value, snd.una) == a.len + (if SentSyn(st) then 1 else 0))
  {
    if st != Listen && st != SynSent {
      AcceptedAck(m, st, snd, s);
    }
  }

  /** The states to which a state may move while an acknowledgement is handled. */
  predicate Moves(st: State, st': State, ofFin: bool) {
    match st
    case SynReceived => st' == Established || st' == CloseWait
    case Established => st' == Established || st' == CloseWait
    case CloseWait => st' == CloseWait
    case FinWait1 => if ofFin then st' == FinWait2 || st' == TimeWait else st' == FinWait1 || st' == Closing
    case Closing => if ofFin then st' == TimeWait else st' == Closing
    case LastAck => if ofFin then st' == Closed else st' == LastAck
    case FinWait2 => st' == FinWait2 || st' == TimeWait
    case _ => false
  }

  lemma WindowOfBound(snd: SendHalf, s: Segment)
    requires s.win <= U16_MAX && (snd.winScale.Some? ==> snd.winScale.value <= 14)
    ensures WindowOf(snd, s) < RX_LIMIT
  {
    var n := if s.control == Syn || snd.winScale.None? then 0 else snd.winScale.value;
    ShlMonotone(s.win, U16_MAX, n);
    ShlMonotoneShift(U16_MAX, n, 14);
    assert Shl(U16_MAX, 14) == 1073725440 by {
      assert Shl(U16_MAX, 4) == 1048560;
      assert Shl(U16_MAX, 8) == 16776960;
      assert Shl(U16_MAX, 12) == 268431360;
    }
  }

  lemma UpdateSendOk(m: Arith, st: State, snd: SendHalf, s: Segment, ackLen: nat)
    requires SendOk(m, snd) && SegmentOk(m, s) && ackLen <= snd.buf.len
    ensures SendOk(m, UpdateSend(m, snd, s, ackLen))
    ensures UpdateSend(m, snd, s, ackLen).buf.len == snd.buf.len - ackLen
  {
    WindowOfBound(snd, s);
    DequeueFacts(snd.buf, ackLen);
  }

  /** Handling an acknowledgement keeps the sequence-space invariant across the state change. */
  lemma UpdateSendSeqSpace(m: Arith, st: State, st': State, snd: SendHalf, s: Segment)
    requires SendOk(m, snd) && SeqSpace(m, st, snd) && SegmentOk(m, s)
    requires s.control != Rst && CheckAck(m, st, snd, s) == AckAccept
    requires Moves(st, st', AnalyseAck(m, st, snd, s).ofFin)
    ensures SeqSpace(m, st', UpdateSend(m, snd, s, AnalyseAck(m, st, snd, s).len))
  {
    var a := AnalyseAck(m, st, snd, s);
    AcceptedAck(m, st, snd, s);
    AckLenFits(m, st, snd, s);
    UpdateSendOk(m, st, snd, s, a.len);
    AckMovesOn(m, snd.una, snd.nxt, s.ack.value, snd.buf.len + ControlLen(st));
  }

  /** Moving `una` up to an acknowledgement, and `nxt` with it when it is behind. */
  lemma AckMovesOn(m: Arith, una: int, nxt: int, ack: int, sent: nat)
    requires InRange(m, una) && InRange(m, nxt) && InRange(m, ack) && sent <= TX_LIMIT + 1
    requires 0 <= Diff(m, nxt, una) <= sent && 0 <= Diff(m, ack, una) <= sent
    ensures var n := if Lt(m, nxt, ack) then ack else nxt;
            && 0 <= Diff(m, n, ack) <= sent - Diff(m, ack, una)
            && (Diff(m, ack, una) == sent ==> n == ack)
  {
  }

  // ----- the receive side

  /**
    The acceptance test in terms of distances from the left edge: `d` is how far the segment starts from
    it (modulo 2^32 in the program's arithmetic), `n` its length, `w` the window. A non-empty segment is
    accepted exactly when its first or its last octet falls into the window.
   */
  lemma WindowTest(m: Arith, left: int, w: nat, from: int, n: nat)
    requires InRange(m, left) && InRange(m, from) && w <= RX_LIMIT && n < RX_LIMIT
    ensures var d := Diff(m, from, left);
            InWindow(m, left, Add(m, left, w), from, Add(m, from, n)) <==>
            if n == 0 then (if w == 0 then d == 0 else 0 <= d < w)
            else w > 0 && (0 <= d < w || 0 < d + n <= w)
  {
  }

  /** The overlap that is kept is the intersection of segment and window; the debug assertion holds. */
  lemma OverlapIsIntersection(m: Arith, left: int, w: nat, from: int, n: nat)
    requires InRange(m, left) && InRange(m, from) && w <= RX_LIMIT && n < RX_LIMIT
    requires InWindow(m, left, Add(m, left, w), from, Add(m, from, n))
    ensures var d := Diff(m, from, left);
            var lo, hi := if d < 0 then 0 else d, if w < d + n then w else d + n;
            var start, end := SeqMax(m, left, from), SeqMin(m, Add(m, left, w), Add(m, from, n));
            && 0 <= lo <= hi <= w
            && Le(m, start, end)
            && Dist(m, start, from) == lo - d && Dist(m, end, from) == hi - d && Dist(m, start, left) == lo
  {
    WindowTest(m, left, w, from, n);
  }

  lemma CheckWindowFits(m: Arith, rcv: RecvHalf, s: Segment, slots: nat)
    requires RecvOk(m, rcv, slots) && SegmentOk(m, s)
    requires CheckWindow(m, rcv, s).Inside?
    ensures var w := CheckWindow(m, rcv, s);
            w.offset + |w.payload| <= rcv.buf.Window()
  {
    WindowEdge(m, rcv, slots);
    OverlapIsIntersection(m, rcv.Next(m), rcv.buf.Window(), s.seqNo, |s.payload|);
  }

  lemma WindowEdge(m: Arith, rcv: RecvHalf, slots: nat)
    requires RecvOk(m, rcv, slots)
    ensures InRange(m, rcv.Next(m))
    ensures Add(m, rcv.start, rcv.buf.Capacity()) == Add(m, rcv.Next(m), rcv.buf.Window())
  {
  }

  /** What becomes contiguous fits the free part of the buffer. */
  lemma ContigFits(m: Arith, rcv: RecvHalf, slots: nat, size: nat, offset: nat)
    requires RecvOk(m, rcv, slots) && offset + size <= rcv.buf.Window()
    ensures var r := AssemblerSpec.AddThenRemoveFront(rcv.asm, slots, offset, size);
            r.Some? ==> r.value.1 <= rcv.buf.Window()
  {
    AssemblerSpec.InsertExtent(rcv.asm, offset, size);
    AssemblerSpec.InsertCanonical(rcv.asm, offset, size);
    AssemblerSpec.RemoveFrontMeaning(AssemblerSpec.Insert(rcv.asm, offset, size));
  }

  lemma ReceiveOk(m: Arith, rcv: RecvHalf, slots: nat, payload: seq<byte>, offset: nat)
    requires RecvOk(m, rcv, slots) && offset + |payload| <= rcv.buf.Window()
    ensures var r := Receive(rcv, slots, payload, offset);
            && (r.None? ==> offset != 0)
            && (r.Some? ==> RecvOk(m, r.value, slots) && r.value.fin == rcv.fin)
  {
    AssemblerSpec.AddThenRemoveFrontFits(rcv.asm, slots, offset, |payload|);
    var r := AssemblerSpec.AddThenRemoveFront(rcv.asm, slots, offset, |payload|);
    if r.Some? {
      StoreFacts(rcv.buf, offset, payload, r.value.1);
    }
  }

  // ----- timers

  lemma OnAckOk(m: Arith, r: Rtte, now: int, seqNo: int)
    requires RttOk(r)
    ensures RttOk(r.OnAck(m, now, seqNo)) && RttOk(r.OnRetransmit()) && RttOk(r.OnSend(m, now, seqNo))
  {
  }

  lemma UpdateTimerOk(st: State, st': State, timer: Timer, fast: bool, a: AckInfo, now: int, keepAlive: Option<nat>,
                      rto: nat, winLen: nat, winLen': nat, txEmpty: bool)
    requires rto > 0 && TimerOk(st, timer, winLen) && st != Closed
    requires st' != TimeWait && (st' == Closed || !timer.Close?)
    ensures TimerOk(st', UpdateTimer(timer, fast, a, now, keepAlive, rto, winLen', txEmpty), winLen')
  {
  }

  /** Entering TIME-WAIT arms the close timer and nothing in the same step replaces it. */
  lemma UpdateTimerClose(timer: Timer, a: AckInfo, now: int, keepAlive: Option<nat>, rto: nat, winLen: nat)
    requires timer.Close?
    ensures UpdateTimer(timer, false, a, now, keepAlive, rto, winLen, true) == timer
  {
  }

  /** A segment that acknowledges our FIN, or arrives when nothing is in flight, is no duplicate acknowledgement. */
  lemma NoFastRetransmit(m: Arith, st: State, snd: SendHalf, s: Segment)
    requires SendOk(m, snd) && SeqSpace(m, st, snd) && SegmentOk(m, s)
    requires s.control != Rst && CheckAck(m, st, snd, s) == AckAccept
    requires st == FinWait2 || (SentFin(st) && AnalyseAck(m, st, snd, s).ofFin)
    ensures !StartsFastRetransmit(m, snd, s)
    ensures UpdateSend(m, snd, s, AnalyseAck(m, st, snd, s).len).buf.len == 0
  {
    AcceptedAck(m, st, snd, s);
    AckLenFits(m, st, snd, s);
    UpdateSendOk(m, st, snd, s, AnalyseAck(m, st, snd, s).len);
  }

  // ----- process

  lemma AckReplyInv(m: Arith, t: Tcb, s: Segment)
    requires Inv(m, t)
    ensures Inv(m, AckReply(m, t, s).0)
  {
  }

  lemma ChallengeAckInv(m: Arith, t: Tcb, cx: Context, s: Segment)
    requires Inv(m, t)
    ensures Inv(m, ChallengeAck(m, t, cx, s).0)
  {
    AckReplyInv(m, t.(challengeAt := cx.now + CHALLENGE_ACK_INTERVAL), s);
  }

  lemma StorePayloadInv(m: Arith, t: Tcb, cx: Context, s: Segment, payload: seq<byte>, offset: nat)
    requires Inv(m, t) && t.state != Listen && !SentSyn(t.state)
    requires offset + |payload| <= t.rcv.buf.Window()
    ensures Inv(m, StorePayload(m, t, cx, s, payload, offset).0)
  {
    ReceiveOk(m, t.rcv, t.conf.slots, payload, offset);
    match Receive(t.rcv, t.conf.slots, payload, offset)
    case None =>
    case Some(rcv) =>
      var t1 := t.(rcv := rcv.(ackTimer := UpdateAckTimer(m, rcv, t.snd.mss, t.conf.ackDelay, cx.now)));
      assert Inv(m, t1);
      AckReplyInv(m, t1, s);
  }

  /** What a state change leaves alone and where it goes, outside LISTEN and SYN-SENT. */
  ghost predicate MovedTo(m: Arith, t: Tcb, t': Tcb, now: int, control: Control, ofFin: bool) {
    && Moves(t.state, t'.state, ofFin)
    && t'.snd == t.snd && t'.rtte == t.rtte && t'.conf == t.conf && t'.lastTs == t.lastTs && t'.listen == t.listen
    && t'.challengeAt == t.challengeAt
    && t'.rcv == (if control == Fin then TakeFin(m, t.rcv) else t.rcv)
    && t'.timer == (if t'.state == TimeWait then ForClose(now) else t.timer)
    && t'.tuple == (if t'.state == Closed then None else t.tuple)
    && (t'.state == TimeWait ==> t.state == FinWait2 || (SentFin(t.state) && ofFin))
    && (PeerFinished(t'.state) || t'.state == Closed <==> control == Fin || PeerFinished(t.state))
    && (control == Fin ==> !PeerFinished(t.state))
  }

  lemma TransitionMoves(m: Arith, t: Tcb, cx: Context, s: Segment, control: Control, ofFin: bool)
    requires t.state != Listen && t.state != SynSent && t.state != Closed && control != Rst
    ensures var r := Transition(m, t, cx, s, control, ofFin);
            if r.Go? then MovedTo(m, t, r.t, cx.now, control, ofFin) else r.t == t
  {
  }

  lemma UpdateRemoteInv(m: Arith, t: Tcb, t2: Tcb, cx: Context, s: Segment, control: Control)
    requires Inv(m, t) && SegmentOk(m, s) && s.control != Rst
    requires t.state != Listen && t.state != SynSent && t.state != Closed
    requires CheckAck(m, t.state, t.snd, s) == AckAccept
    requires MovedTo(m, t, t2, cx.now, control, AnalyseAck(m, t.state, t.snd, s).ofFin)
    ensures Inv(m, UpdateRemote(m, t2, cx, s, AnalyseAck(m, t.state, t.snd, s)))
  {
    var a := AnalyseAck(m, t.state, t.snd, s);
    TakeFinOk(m, t.rcv, t.conf.slots);
    AckLenFits(m, t.state, t.snd, s);
    UpdateSendOk(m, t.state, t.snd, s, a.len);
    UpdateSendSeqSpace(m, t.state, t2.state, t.snd, s);
    var snd := UpdateSend(m, t.snd, s, a.len);
    UpdateRemoteTimer(m, t, t2, cx, s, control);
  }

  lemma UpdateRemoteTimer(m: Arith, t: Tcb, t2: Tcb, cx: Context, s: Segment, control: Control)
    requires Inv(m, t) && SegmentOk(m, s) && s.control != Rst
    requires t.state != Listen && t.state != SynSent && t.state != Closed
    requires CheckAck(m, t.state, t.snd, s) == AckAccept
    requires MovedTo(m, t, t2, cx.now, control, AnalyseAck(m, t.state, t.snd, s).ofFin)
    ensures var t' := UpdateRemote(m, t2, cx, s, AnalyseAck(m, t.state, t.snd, s));
            TimerOk(t'.state, t'.timer, t'.snd.winLen)
  {
    var a := AnalyseAck(m, t.state, t.snd, s);
    var snd := UpdateSend(m, t.snd, s, a.len);
    if t2.state == TimeWait {
      NoFastRetransmit(m, t.state, t.snd, s);
      UpdateTimerClose(t2.timer, a, cx.now, t.conf.keepAlive, t2.rtte.Timeout(), snd.winLen);
    } else {
      UpdateTimerOk(t.state, t2.state, t.timer, StartsFastRetransmit(m, t.snd, s), a, cx.now, t.conf.keepAlive,
                    t2.rtte.Timeout(), t.snd.winLen, snd.winLen, snd.buf.len == 0);
    }
  }

  lemma TakeFinOk(m: Arith, rcv: RecvHalf, slots: nat)
    requires RecvOk(m, rcv, slots)
    ensures RecvOk(m, TakeFin(m, rcv), slots)
  {
  }

  lemma SampleRttInv(m: Arith, t: Tcb, cx: Context, s: Segment)
    requires Inv(m, t)
    ensures Inv(m, SampleRtt(m, t, cx, s))
  {
    if s.ack.Some? {
      OnAckOk(m, t.rtte, cx.now, s.ack.value);
    }
  }

  lemma ResetByPeer(m: Arith, t: Tcb, cx: Context, s: Segment)
    requires Inv(m, t) && t.state != Listen && s.control == Rst
    ensures Advance(m, t, cx, s).Stop? && Inv(m, Advance(m, t, cx, s).t)
    ensures Advance(m, t, cx, s).t.state in {Closed, Listen}
  {
  }

  /** The shape of `Advance` in a synchronized state. */
  lemma AdvanceShape(m: Arith, t: Tcb, cx: Context, s: Segment)
    requires s.control != Rst && t.state != Listen && t.state != SynSent && t.state != Closed
    ensures var r := Advance(m, t, cx, s);
            var a := AnalyseAck(m, t.state, t.snd, s);
            var t1 := SampleRtt(m, t, cx, s);
            var t2 := Transition(m, t1, cx, s, EffectiveControl(m, t.rcv, s), a.ofFin).t;
            if r.Go? then r.t == UpdateRemote(m, t2, cx, s, a)
                && MovedTo(m, t1, t2, cx.now, EffectiveControl(m, t.rcv, s), a.ofFin)
            else r.t == t1
  {
    TransitionMoves(m, SampleRtt(m, t, cx, s), cx, s, EffectiveControl(m, t.rcv, s),
                    AnalyseAck(m, t.state, t.snd, s).ofFin);
  }

  lemma AdvanceKeeps(m: Arith, t: Tcb, cx: Context, s: Segment)
    requires s.control != Rst && t.state != Listen && t.state != SynSent && t.state != Closed
    requires Advance(m, t, cx, s).Go?
    ensures var t' := Advance(m, t, cx, s).t;
            && t'.state != Listen && !SentSyn(t'.state) && t'.rcv.buf == t.rcv.buf && t'.rcv.asm == t.rcv.asm
            && t'.conf == t.conf
  {
    AdvanceShape(m, t, cx, s);
  }

  /** An accepted segment in a synchronized state. */
  lemma AdvanceInv(m: Arith, t: Tcb, cx: Context, s: Segment)
    requires Inv(m, t) && SegmentOk(m, s) && s.control != Rst
    requires t.state != Listen && t.state != SynSent && t.state != Closed
    requires CheckAck(m, t.state, t.snd, s) == AckAccept
    ensures Inv(m, Advance(m, t, cx, s).t)
  {
    var a := AnalyseAck(m, t.state, t.snd, s);
    var t1 := SampleRtt(m, t, cx, s);
    var control := EffectiveControl(m, t.rcv, s);
    SampleRttInv(m, t, cx, s);
    AdvanceShape(m, t, cx, s);
    if Advance(m, t, cx, s).Go? {
      UpdateRemoteInv(m, t1, Transition(m, t1, cx, s, control, a.ofFin).t, cx, s, control);
    }
  }

  lemma ProcessAcceptedInv(m: Arith, t: Tcb, cx: Context, s: Segment, payload: seq<byte>, offset: nat)
    requires Inv(m, t) && SegmentOk(m, s)
    requires t.state != Listen && t.state != SynSent && t.state != Closed
    requires CheckAck(m, t.state, t.snd, s) == AckAccept
    requires offset + |payload| <= t.rcv.buf.Window()
    ensures Inv(m, ProcessAccepted(m, t, cx, s, payload, offset).0)
  {
    if s.control == Rst {
      ResetByPeer(m, t, cx, s);
    } else {
      AdvanceInv(m, t, cx, s);
      if Advance(m, t, cx, s).Go? {
        AdvanceKeeps(m, t, cx, s);
      }
      match Advance(m, t, cx, s)
      case Stop(t1) =>
      case Go(t1) => StorePayloadInv(m, t1, cx, s, payload, offset);
    }
  }

  lemma OpenInv(m: Arith, t: Tcb, cx: Context, s: Segment, snd: SendHalf)
    requires SendOk(m, snd) && snd.buf.len == 0 && SegmentOk(m, s)
    requires CheckAck(m, SynSent, snd, s) == AckAccept && s.control == Syn && s.mss != Some(0)
    ensures var a := AnalyseAck(m, SynSent, snd, s);
            var snd1 := OpenSend(snd, s, snd.una, Add(m, snd.una, 1));
            var snd2 := UpdateSend(m, snd1, s, a.len);
            && a.len == 0 && !a.ofFin
            && SendOk(m, snd2) && SeqSpace(m, if s.ack.Some? then Established else SynReceived, snd2)
  {
    var snd1 := OpenSend(snd, s, snd.una, Add(m, snd.una, 1));
    UpdateSendOk(m, SynSent, snd1, s, 0);
  }

  function Opened(m: Arith, t: Tcb, s: Segment): Tcb {
    t.(state := if s.ack.Some? then Established else SynReceived,
       snd := OpenSend(t.snd, s, t.snd.una, Add(m, t.snd.una, 1)),
       rcv := OpenRecv(m, t.rcv, s).(lastAck := Some(s.seqNo)))
  }

  lemma SynSentShape(m: Arith, t: Tcb, cx: Context, s: Segment)
    requires t.state == SynSent && CheckAck(m, t.state, t.snd, s) == AckAccept && s.control != Rst
    ensures s.control == Syn
    ensures var a := AnalyseAck(m, SynSent, t.snd, s);
            var t1 := SampleRtt(m, t, cx, s);
            Advance(m, t, cx, s) == if s.mss == Some(0) then Stop(t1)
            else Go(UpdateRemote(m, Opened(m, t1, s), cx, s, a))
  {
  }

  lemma OpenedInv(m: Arith, t: Tcb, cx: Context, s: Segment)
    requires Inv(m, t) && t.state == SynSent && SegmentOk(m, s)
    requires CheckAck(m, t.state, t.snd, s) == AckAccept && s.control == Syn && s.mss != Some(0)
    ensures Inv(m, UpdateRemote(m, Opened(m, t, s), cx, s, AnalyseAck(m, SynSent, t.snd, s)))
  {
    OpenInv(m, t, cx, s, t.snd);
  }

  lemma SynSentInv(m: Arith, t: Tcb, cx: Context, s: Segment)
    requires Inv(m, t) && SegmentOk(m, s) && s.control != Rst
    requires t.state == SynSent && CheckAck(m, t.state, t.snd, s) == AckAccept
    ensures Inv(m, Advance(m, t, cx, s).t)
  {
    SynSentShape(m, t, cx, s);
    SampleRttInv(m, t, cx, s);
    if s.mss != Some(0) {
      OpenedInv(m, SampleRtt(m, t, cx, s), cx, s);
    }
  }

  lemma ListenInv(m: Arith, t: Tcb, cx: Context, s: Segment)
    requires Inv(m, t) && SegmentOk(m, s) && InRange(m, cx.isn)
    requires t.state == Listen && s.ack.None? && s.control != Rst
    ensures Inv(m, Advance(m, t, cx, s).t)
  {
    if s.control == Syn && s.mss != Some(0) {
      UpdateSendOk(m, Listen, OpenSend(t.snd, s, cx.isn, cx.isn), s, 0);
    }
  }

  lemma SynSentProcessInv(m: Arith, t: Tcb, cx: Context, s: Segment)
    requires Inv(m, t) && SegmentOk(m, s) && t.state == SynSent && CheckAck(m, t.state, t.snd, s) == AckAccept
    ensures Inv(m, ProcessAccepted(m, t, cx, s, [], 0).0)
  {
    if s.control == Rst {
      ResetByPeer(m, t, cx, s);
    } else {
      SynSentInv(m, t, cx, s);
    }
  }

  /** Whatever segment arrives, `process` keeps the invariant. */
  lemma ProcessInv(m: Arith, t: Tcb, cx: Context, s: Segment)
    requires Inv(m, t) && SegmentOk(m, s) && InRange(m, cx.isn) && Accepts(t, s)
    ensures Inv(m, Process(m, t, cx, s).0)
  {
    match CheckAck(m, t.state, t.snd, s)
    case AckIgnore =>
    case AckReset =>
    case AckChallenge => ChallengeAckInv(m, t, cx, s);
    case AckAccept =>
      if t.state == Listen {
        ListenInv(m, t, cx, s);
      } else if t.state == SynSent {
        SynSentProcessInv(m, t, cx, s);
      } else {
        match CheckWindow(m, t.rcv, s)
        case Outside =>
          ChallengeAckInv(m, if t.state == TimeWait then t.(timer := ForClose(cx.now)) else t, cx, s);
        case Inside(payload, offset) =>
          CheckWindowFits(m, t.rcv, s, t.conf.slots);
          ProcessAcceptedInv(m, t, cx, s, payload, offset);
      }
  }

  // ----- dispatch

  lemma {:induction false} BitLengthBound(n: nat, k: nat)
    requires n < Shl(1, k)
    ensures BitLength(n) <= k
    decreases n
  {
    if n > 0 {
      BitLengthBound(n / 2, k - 1);
    }
  }

  lemma ShiftBound(capacity: nat)
    requires capacity <= RX_LIMIT
    ensures DefaultShift(capacity) <= 15
  {
    assert Shl(1, 31) == 0x8000_0000 by {
      assert Shl(1, 8) == 0x100;
      assert Shl(1, 16) == 0x1_0000;
      assert Shl(1, 24) == 0x100_0000;
    }
    BitLengthBound(capacity, 31);
  }

  lemma ResetInv(m: Arith, t: Tcb)
    requires Inv(m, t)
    ensures Inv(m, Reset(t))
  {
    ShiftBound(t.rcv.buf.Capacity());
  }

  lemma BeforeDispatchInv(m: Arith, t: Tcb, cx: Context)
    requires Inv(m, t)
    ensures Inv(m, BeforeDispatch(m, t, cx))
    ensures BeforeDispatch(m, t, cx).tuple == t.tuple
  {
    OnAckOk(m, t.rtte, 0, 0);
  }

  /** The subtraction that locates the unsent octets is in its domain, and what is sent is in the buffer. */
  lemma DataPayloadFits(m: Arith, t: Tcb, cx: Context)
    requires SendOk(m, t.snd) && SeqSpace(m, t.state, t.snd) && CarriesData(t.state) && t.tuple.Some?
    ensures Diff(m, t.snd.nxt, t.snd.una) >= 0
    ensures var p := DataPayload(m, t, cx);
            var offset := Dist(m, t.snd.nxt, t.snd.una);
            && (offset <= t.snd.buf.len ==> offset + |p| <= t.snd.buf.len)
            && (offset > t.snd.buf.len ==> p == [] && DataControl(m, t, p) == NoFlag)
  {
    var limit := if IsProbe(m, t, cx.now) then 1 else WindowLimit(m, t.snd);
    GetAllocatedFacts(t.snd.buf, Dist(m, t.snd.nxt, t.snd.una),
                      Min(Min(limit, t.snd.mss), LocalMss(t.tuple.value, cx)));
  }

  lemma SegmentSeqSpace(m: Arith, t: Tcb, tuple: Tuple, cx: Context)
    requires SendOk(m, t.snd) && SeqSpace(m, t.state, t.snd) && t.tuple == Some(tuple)
    requires t.state != Listen && t.state != Closed
    ensures var s := DraftSegment(m, t, tuple, cx);
            var snd := t.snd.(nxt := Add(m, s.seqNo, s.Len()));
            SendOk(m, snd) && SeqSpace(m, t.state, snd)
    ensures t.state == TimeWait ==> DraftSegment(m, t, tuple, cx).Len() == 0
  {
    if CarriesData(t.state) {
      DataPayloadFits(m, t, cx);
    }
  }

  lemma ClosedSegment(m: Arith, t: Tcb, tuple: Tuple, cx: Context)
    requires SendOk(m, t.snd) && t.state == Closed
    ensures var s := DraftSegment(m, t, tuple, cx);
            s.Len() == 0 && !s.IsEmpty() && Add(m, s.seqNo, s.Len()) == t.snd.nxt
  {
  }

  lemma DraftRecvFields(m: Arith, t: Tcb, tuple: Tuple, cx: Context)
    requires RecvOk(m, t.rcv, t.conf.slots)
    ensures var s := DraftSegment(m, t, tuple, cx);
            s.win <= U16_MAX && OptionInRange(m, s.ack)
  {
    WindowEdge(m, t.rcv, t.conf.slots);
  }

  lemma AfterSendInv(m: Arith, t: Tcb, tuple: Tuple, cx: Context)
    requires Inv(m, t) && t.tuple == Some(tuple) && t.state != Listen
    ensures Inv(m, AfterSend(m, t, tuple, cx, OutgoingSegment(m, t, tuple, cx)))
  {
    var s := OutgoingSegment(m, t, tuple, cx);
    if IsProbe(m, t, cx.now) || IsKeepAlive(m, t, tuple, cx) {
    } else {
      if t.state == Closed {
        ClosedSegment(m, t, tuple, cx);
      } else {
        SegmentSeqSpace(m, t, tuple, cx);
      }
      DraftRecvFields(m, t, tuple, cx);
      var seqEnd := Add(m, s.seqNo, s.Len());
      OnAckOk(m, t.rtte, cx.now, seqEnd);
    }
  }

  /** `dispatch` keeps the invariant, whether or not the device takes the segment. */
  lemma DispatchInv(m: Arith, t: Tcb, cx: Context, sent: bool)
    requires Inv(m, t)
    ensures Inv(m, Dispatch(m, t, cx, sent).0)
  {
    if t.tuple.Some? {
      BeforeDispatchInv(m, t, cx);
      var t1 := BeforeDispatch(m, t, cx);
      if WantsToSend(m, t1, cx) {
        if t1.state != Listen && sent {
          AfterSendInv(m, t1, t.tuple.value, cx);
        }
      } else if t1.timer.ShouldClose(cx.now) {
        ResetInv(m, t1);
      }
    }
  }

  // ----- the calls of the application

  lemma DoSendInv(m: Arith, t: Tcb, data: seq<byte>)
    requires Inv(m, t)
    ensures Inv(m, DoSend(t, data).0)
  {
    EnqueueFacts(t.snd.buf, data);
  }

  lemma DoRecvInv(m: Arith, t: Tcb, want: nat)
    requires Inv(m, t)
    ensures Inv(m, DoRecv(m, t, want).0)
  {
    DequeueFacts(t.rcv.buf, Min(want, t.rcv.buf.len));
  }

  lemma CloseCallsInv(m: Arith, t: Tcb)
    requires Inv(m, t)
    ensures Inv(m, DoClose(t)) && Inv(m, DoAbort(t))
  {
  }

  lemma SettingsInv(m: Arith, t: Tcb, timeout: Option<nat>, ackDelay: Option<nat>, nagle: bool, interval: Option<nat>)
    requires Inv(m, t)
    ensures Inv(m, Reconfigure(t, timeout, ackDelay, nagle)) && Inv(m, SetKeepAlive(t, interval))
  {
  }

  lemma OpenCallsInv(m: Arith, t: Tcb, local: ListenEndpoint, tuple: Tuple, isn: int)
    requires Inv(m, t) && InRange(m, isn)
    ensures Inv(m, DoListen(t, local).0) && Inv(m, DoConnect(t, tuple, isn).0)
  {
    ResetInv(m, t);
  }

  // ----- every run

  /** Everything that can happen to a socket. */
  datatype Event =
    | EvListen(local: ListenEndpoint)
    | EvConnect(tuple: Tuple, isn: int)
    | EvClose
    | EvAbort
    | EvSend(data: seq<byte>)
    | EvRecv(want: nat)
    | EvProcess(cx: Context, segment: Segment)
    | EvDispatch(cx: Context, sent: bool)
    | EvKeepAlive(interval: Option<nat>)
    | EvConfig(timeout: Option<nat>, ackDelay: Option<nat>, nagle: bool)

  /**
    `process` is only called on segments that the socket accepts; `dispatch` must not hit the panic in
    `last_scaled_window`.
   */
  ghost predicate Enabled(m: Arith, t: Tcb, e: Event) {
    match e
    case EvConnect(_, isn) => InRange(m, isn)
    case EvProcess(cx, s) => Accepts(t, s) && SegmentOk(m, s) && InRange(m, cx.isn)
    case EvDispatch(cx, _) => DispatchSafe(m, t, cx)
    case _ => true
  }

  function Step(m: Arith, t: Tcb, e: Event): Tcb {
    match e
    case EvListen(local) => DoListen(t, local).0
    case EvConnect(tuple, isn) => DoConnect(t, tuple, isn).0
    case EvClose => DoClose(t)
    case EvAbort => DoAbort(t)
    case EvSend(data) => DoSend(t, data).0
    case EvRecv(want) => DoRecv(m, t, want).0
    case EvProcess(cx, s) => Process(m, t, cx, s).0
    case EvDispatch(cx, sent) => Dispatch(m, t, cx, sent).0
    case EvKeepAlive(interval) => SetKeepAlive(t, interval)
    case EvConfig(timeout, ackDelay, nagle) => Reconfigure(t, timeout, ackDelay, nagle)
  }

  lemma StepInv(m: Arith, t: Tcb, e: Event)
    requires Inv(m, t) && Enabled(m, t, e)
    ensures Inv(m, Step(m, t, e))
  {
    match e
    case EvListen(local) => OpenCallsInv(m, t, local, Tuple(Endpoint(Ipv4(0), 0), Endpoint(Ipv4(0), 0)), 0);
    case EvConnect(tuple, isn) => OpenCallsInv(m, t, ListenEndpoint(None, 0), tuple, isn);
    case EvSend(data) => DoSendInv(m, t, data);
    case EvRecv(want) => DoRecvInv(m, t, want);
    case EvProcess(cx, s) => ProcessInv(m, t, cx, s);
    case EvDispatch(cx, sent) => DispatchInv(m, t, cx, sent);
    case EvKeepAlive(interval) => SettingsInv(m, t, None, None, true, interval);
    case EvConfig(timeout, ackDelay, nagle) => SettingsInv(m, t, timeout, ackDelay, nagle, None);
    case _ => CloseCallsInv(m, t);
  }

  /** `t` is reached from `t0` by the events, all of them enabled when they happen. */
  ghost predicate Runs(m: Arith, t0: Tcb, events: seq<Event>, t: Tcb)
    decreases |events|
  {
    if |events| == 0 then t == t0
    else Enabled(m, t0, events[0]) && Runs(m, Step(m, t0, events[0]), events[1..], t)
  }

  /** The invariant holds throughout every run of a fresh socket. */
  lemma {:induction false} RunInv(m: Arith, t0: Tcb, events: seq<Event>, t: Tcb)
    requires Inv(m, t0) && Runs(m, t0, events, t)
    ensures Inv(m, t)
    decreases |events|
  {
    if |events| > 0 {
      StepInv(m, t0, events[0]);
      RunInv(m, Step(m, t0, events[0]), events[1..], t);
    }
  }

  lemma NewSocketInv(m: Arith, rx: Ring, tx: Ring, slots: nat)
    requires rx.Valid() && rx.len == 0 && rx.Capacity() <= RX_LIMIT
    requires tx.Valid() && tx.len == 0 && tx.Capacity() <= TX_LIMIT && slots > 0
    ensures Inv(m, NewSocket(rx, tx, slots))
  {
    ShiftBound(rx.Capacity());
  }
}
