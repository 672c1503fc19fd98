/**
  The program's 32-bit socket does on encoded numbers what the unbounded one does, as long as the numbers that
  meet lie within 2^31 of each other. So what is proved of two endpoints with unbounded sequence numbers
  holds of the program's sockets.
 */
module TcpCommute {
  import opened Options
  import opened Octets
  import opened Shifts
  import opened SeqNumber
  import opened Timers
  import opened RingSpec
  import opened TcpModel
  import opened TcpInvariant
  import opened TcpPolling
  import opened TcpWrap
  import A = AssemblerSpec

  function EncodeRtte(r: Rtte): Rtte {
    r.(timestamp := if r.timestamp.Some? then Some((r.timestamp.value.0, Encode(r.timestamp.value.1))) else None,
       maxSeqSent := EncodeOption(r.maxSeqSent))
  }

  /** The socket as the program holds it. */
  function EncodeTcb(t: Tcb): Tcb {
    t.(snd := EncodeSend(t.snd), rcv := EncodeRecv(t.rcv), rtte := EncodeRtte(t.rtte))
  }

  function EncodeReply(r: Reply): Reply {
    if r.Some? then Some(EncodeSegment(r.value)) else None
  }

  function EncodeContext(cx: Context): Context {
    cx.(isn := Encode(cx.isn))
  }

  predicate Within(a: int, b: int, d: nat) {
    a - b < d && b - a < d
  }

  // ----- what must be near what

  ghost predicate NearSend(snd: SendHalf) {
    0 <= snd.nxt - snd.una <= snd.buf.len + 1 && snd.buf.len <= TX_LIMIT && snd.winLen < RX_LIMIT && snd.mss <= U16_MAX
  }

  ghost predicate NearRecv(rcv: RecvHalf) {
    && rcv.buf.Capacity() <= RX_LIMIT && rcv.buf.len <= rcv.buf.Capacity() && rcv.lastWin <= U16_MAX && rcv.shift <= 15
    && NearAck(rcv)
  }

  /** The numbers of a socket lie near each other. */
  ghost predicate Near(t: Tcb) {
    NearSend(t.snd) && NearRecv(t.rcv)
  }

  /** The last acknowledgement and the edge it advertised lie near what was received. */
  ghost predicate NearAck(rcv: RecvHalf) {
    rcv.lastAck.Some? ==>
      Within(rcv.lastAck.value, rcv.Next(Ideal), RX_LIMIT - 1) && Within(LastEdge(Ideal, rcv), rcv.Next(Ideal), HALF)
  }

  /** The highest number the estimator has seen lies near what is buffered. */
  ghost predicate NearRtte(t: Tcb) {
    t.rtte.maxSeqSent.Some? ==>
      && t.rtte.maxSeqSent.value - t.snd.una < HALF
      && t.snd.una + t.snd.buf.len + 1 - t.rtte.maxSeqSent.value < HALF
  }

  /** The segment's numbers lie near those of the socket. */
  ghost predicate NearSegment(t: Tcb, s: Segment) {
    && Within(s.seqNo, t.rcv.Next(Ideal), HALF)
    && (s.ack.Some? ==>
          && Within(s.ack.value, t.snd.una, HALF)
          && (t.snd.lastRxAck.Some? ==> Within(t.snd.lastRxAck.value, s.ack.value, MODULUS))
          && (t.rtte.timestamp.Some? ==> Within(t.rtte.timestamp.value.1, s.ack.value, HALF)))
  }

  /** Everything else that must be near follows from the invariant. */
  lemma InvNear(t: Tcb)
    requires Inv(Ideal, t) && NearAck(t.rcv)
    ensures Near(t)
  {
  }

  // ----- the pieces of process

  lemma EncodeNext(rcv: RecvHalf)
    requires rcv.buf.len < HALF
    ensures EncodeRecv(rcv).Next(Wrapped) == Encode(rcv.Next(Ideal))
  {
    EncodeAdd(rcv.start, rcv.buf.len);
  }

  lemma AnalyseCommutes(st: State, snd: SendHalf, s: Segment)
    requires NearSend(snd) && (s.ack.Some? ==> Within(s.ack.value, snd.una, HALF))
    ensures AnalyseAck(Wrapped, st, EncodeSend(snd), EncodeSegment(s)) == AnalyseAck(Ideal, st, snd, s)
  {
    if s.ack.Some? {
      var first := snd.una + (if SentSyn(st) then 1 else 0);
      EncodeAdd(snd.una, if SentSyn(st) then 1 else 0);
      EncodeDiff(s.ack.value, first);
      if s.ack.value >= first {
        EncodeDiff(snd.nxt, s.ack.value);
      }
    }
  }

  lemma ControlCommutes(rcv: RecvHalf, s: Segment)
    requires rcv.buf.len < HALF && Within(s.seqNo, rcv.Next(Ideal), HALF)
    ensures EffectiveControl(Wrapped, EncodeRecv(rcv), EncodeSegment(s)) == EffectiveControl(Ideal, rcv, s)
  {
    EncodeNext(rcv);
    EncodeDiff(rcv.Next(Ideal), s.seqNo);
  }

  lemma SampleCommutes(t: Tcb, cx: Context, s: Segment)
    requires NearSegment(t, s)
    ensures SampleRtt(Wrapped, EncodeTcb(t), EncodeContext(cx), EncodeSegment(s)) ==
            EncodeTcb(SampleRtt(Ideal, t, cx, s))
  {
    if s.ack.Some? && t.rtte.timestamp.Some? {
      EncodeDiff(t.rtte.timestamp.value.1, s.ack.value);
    }
  }

  lemma TransitionCommutes(t: Tcb, cx: Context, s: Segment, control: Control, ofFin: bool)
    ensures var r := Transition(Ideal, t, cx, s, control, ofFin);
            var e := if r.Go? then Go(EncodeTcb(r.t)) else Stop(EncodeTcb(r.t));
            Transition(Wrapped, EncodeTcb(t), EncodeContext(cx), EncodeSegment(s), control, ofFin) == e
  {
    if t.state == Listen || t.state == SynSent {
      OpenCommutes(t, cx, s, control, ofFin);
    } else {
      EncodeAdd(t.rcv.start, 1);
      assert TakeFin(Wrapped, EncodeRecv(t.rcv)) == EncodeRecv(TakeFin(Ideal, t.rcv));
    }
  }

  lemma OpenCommutes(t: Tcb, cx: Context, s: Segment, control: Control, ofFin: bool)
    requires t.state == Listen || t.state == SynSent
    ensures var r := Transition(Ideal, t, cx, s, control, ofFin);
            var e := if r.Go? then Go(EncodeTcb(r.t)) else Stop(EncodeTcb(r.t));
            Transition(Wrapped, EncodeTcb(t), EncodeContext(cx), EncodeSegment(s), control, ofFin) == e
  {
    EncodeAdd(s.seqNo, 1);
    EncodeAdd(t.snd.una, 1);
    assert OpenRecv(Wrapped, EncodeRecv(t.rcv), EncodeSegment(s)) == EncodeRecv(OpenRecv(Ideal, t.rcv, s));
  }

  lemma UpdateSendCommutes(snd: SendHalf, s: Segment, ackLen: nat)
    requires s.ack.Some? ==>
             Within(snd.nxt, s.ack.value, HALF)
             && (snd.lastRxAck.Some? ==> Within(snd.lastRxAck.value, s.ack.value, MODULUS))
    ensures UpdateSend(Wrapped, EncodeSend(snd), EncodeSegment(s), ackLen) ==
            EncodeSend(UpdateSend(Ideal, snd, s, ackLen))
    ensures StartsFastRetransmit(Wrapped, EncodeSend(snd), EncodeSegment(s)) == StartsFastRetransmit(Ideal, snd, s)
  {
    if s.ack.Some? {
      EncodeDiff(snd.nxt, s.ack.value);
      EncodeDiff(s.ack.value, snd.nxt);
      if snd.lastRxAck.Some? {
        EncodeEqual(snd.lastRxAck.value, s.ack.value);
      }
    }
  }

  lemma UpdateRemoteCommutes(t: Tcb, cx: Context, s: Segment, a: AckInfo)
    requires s.ack.Some? ==>
             Within(t.snd.nxt, s.ack.value, HALF)
             && (t.snd.lastRxAck.Some? ==> Within(t.snd.lastRxAck.value, s.ack.value, MODULUS))
    ensures UpdateRemote(Wrapped, EncodeTcb(t), EncodeContext(cx), EncodeSegment(s), a) ==
            EncodeTcb(UpdateRemote(Ideal, t, cx, s, a))
  {
    UpdateSendCommutes(t.snd, s, a.len);
  }

  lemma AckReplyCommutes(t: Tcb, s: Segment)
    requires t.rcv.buf.len < HALF
    ensures var (t', reply) := AckReply(Ideal, t, s);
            AckReply(Wrapped, EncodeTcb(t), EncodeSegment(s)) == (EncodeTcb(t'), EncodeReply(reply))
  {
    EncodeNext(t.rcv);
  }

  lemma ChallengeCommutes(t: Tcb, cx: Context, s: Segment)
    requires t.rcv.buf.len < HALF
    ensures var (t', reply) := ChallengeAck(Ideal, t, cx, s);
            ChallengeAck(Wrapped, EncodeTcb(t), EncodeContext(cx), EncodeSegment(s)) ==
                (EncodeTcb(t'), EncodeReply(reply))
  {
    AckReplyCommutes(t.(challengeAt := cx.now + CHALLENGE_ACK_INTERVAL), s);
  }

  lemma RstReplyCommutes(s: Segment)
    requires |s.payload| < RX_LIMIT
    ensures RstReply(Wrapped, EncodeSegment(s)) == EncodeSegment(RstReply(Ideal, s))
  {
    EncodeAdd(s.seqNo, s.Len());
  }

  lemma AckTimerCommutes(rcv: RecvHalf, mss: nat, ackDelay: Option<nat>, now: int)
    requires rcv.buf.len < HALF && mss <= U16_MAX
    requires rcv.lastAck.Some? ==>
             rcv.Next(Ideal) - rcv.lastAck.value < 2 * RX_LIMIT && rcv.lastAck.value - rcv.Next(Ideal) < RX_LIMIT
    ensures UpdateAckTimer(Wrapped, EncodeRecv(rcv), mss, ackDelay, now) ==
            UpdateAckTimer(Ideal, rcv, mss, ackDelay, now)
    ensures AckToTransmit(Wrapped, EncodeRecv(rcv)) == AckToTransmit(Ideal, rcv)
  {
    EncodeNext(rcv);
    if rcv.lastAck.Some? {
      EncodeDiff(rcv.lastAck.value, rcv.Next(Ideal));
      EncodeAdd(rcv.lastAck.value, mss);
      EncodeDiff(rcv.lastAck.value + mss, rcv.Next(Ideal));
    }
  }

  lemma ReceiveCommutes(rcv: RecvHalf, slots: nat, payload: seq<byte>, offset: nat)
    ensures var r := Receive(rcv, slots, payload, offset);
            Receive(EncodeRecv(rcv), slots, payload, offset) == if r.Some? then Some(EncodeRecv(r.value)) else None
  {
  }

  lemma StoreCommutes(t: Tcb, cx: Context, s: Segment, payload: seq<byte>, offset: nat)
    requires RecvOk(Ideal, t.rcv, t.conf.slots) && offset + |payload| <= t.rcv.buf.Window() && t.snd.mss <= U16_MAX
    requires t.rcv.lastAck.Some? ==> Within(t.rcv.lastAck.value, t.rcv.Next(Ideal), RX_LIMIT)
    ensures var (t', reply) := StorePayload(Ideal, t, cx, s, payload, offset);
            StorePayload(Wrapped, EncodeTcb(t), EncodeContext(cx), EncodeSegment(s), payload, offset) ==
                (EncodeTcb(t'), EncodeReply(reply))
  {
    ReceiveCommutes(t.rcv, t.conf.slots, payload, offset);
    var r := Receive(t.rcv, t.conf.slots, payload, offset);
    if r.Some? {
      StoredNext(t.rcv, t.conf.slots, payload, offset);
      AckTimerCommutes(r.value, t.snd.mss, t.conf.ackDelay, cx.now);
      AckReplyCommutes(t.(rcv := r.value.(ackTimer :=
                                          UpdateAckTimer(Ideal, r.value, t.snd.mss, t.conf.ackDelay, cx.now))), s);
    }
  }

  lemma StoredNext(rcv: RecvHalf, slots: nat, payload: seq<byte>, offset: nat)
    requires RecvOk(Ideal, rcv, slots) && offset + |payload| <= rcv.buf.Window()
             && Receive(rcv, slots, payload, offset).Some?
    ensures var r := Receive(rcv, slots, payload, offset).value;
            0 <= r.Next(Ideal) - rcv.Next(Ideal) <= RX_LIMIT && r.buf.len <= RX_LIMIT && r.lastAck == rcv.lastAck
  {
    ReceiveOk(Ideal, rcv, slots, payload, offset);
    ContigFits(Ideal, rcv, slots, |payload|, offset);
    StoreFacts(rcv.buf, offset, payload, A.AddThenRemoveFront(rcv.asm, slots, offset, |payload|).value.1);
  }

  // ----- process

  /** Everything an acceptable segment does except storing its payload. */
  lemma AdvanceCommutes(t: Tcb, cx: Context, s: Segment)
    requires Near(t) && NearSegment(t, s) && Inv(Ideal, t) && SegmentOk(Ideal, s) && Accepts(t, s)
    requires CheckAck(Ideal, t.state, t.snd, s) == AckAccept
    ensures var r := Advance(Ideal, t, cx, s);
            var e := if r.Go? then Go(EncodeTcb(r.t)) else Stop(EncodeTcb(r.t));
            Advance(Wrapped, EncodeTcb(t), EncodeContext(cx), EncodeSegment(s)) == e
  {
    var a := AnalyseAck(Ideal, t.state, t.snd, s);
    var control := EffectiveControl(Ideal, t.rcv, s);
    AnalyseCommutes(t.state, t.snd, s);
    ControlCommutes(t.rcv, s);
    SampleCommutes(t, cx, s);
    var t1 := SampleRtt(Ideal, t, cx, s);
    TransitionCommutes(t1, cx, s, control, a.ofFin);
    var r := Transition(Ideal, t1, cx, s, control, a.ofFin);
    if r.Go? {
      GoesNear(t, t1, cx, s, control, a.ofFin);
      UpdateRemoteCommutes(r.t, cx, s, a);
    }
  }

  /** After the state change the acknowledgement is still near what it is compared with. */
  lemma GoesNear(t: Tcb, t1: Tcb, cx: Context, s: Segment, control: Control, ofFin: bool)
    requires NearSegment(t, s) && Inv(Ideal, t) && SegmentOk(Ideal, s) && Accepts(t, s)
    requires CheckAck(Ideal, t.state, t.snd, s) == AckAccept
    requires t1 == SampleRtt(Ideal, t, cx, s) && control == EffectiveControl(Ideal, t.rcv, s)
    requires Transition(Ideal, t1, cx, s, control, ofFin).Go?
    ensures var snd := Transition(Ideal, t1, cx, s, control, ofFin).t.snd;
            s.ack.Some? ==>
                Within(snd.nxt, s.ack.value, HALF)
                && (snd.lastRxAck.Some? ==> Within(snd.lastRxAck.value, s.ack.value, MODULUS))
  {
    if t.state != Listen && t.state != SynSent && s.control != Rst {
      AcceptedAck(Ideal, t.state, t.snd, s);
      TransitionMoves(Ideal, t1, cx, s, control, ofFin);
    }
  }

  lemma AcceptedCommutes(t: Tcb, cx: Context, s: Segment, payload: seq<byte>, offset: nat)
    requires Near(t) && NearSegment(t, s) && Inv(Ideal, t) && SegmentOk(Ideal, s) && Accepts(t, s)
    requires CheckAck(Ideal, t.state, t.snd, s) == AckAccept && offset + |payload| <= t.rcv.buf.Window()
    requires t.state == Listen || t.state == SynSent ==> payload == []
    ensures var (t', reply) := ProcessAccepted(Ideal, t, cx, s, payload, offset);
            ProcessAccepted(Wrapped, EncodeTcb(t), EncodeContext(cx), EncodeSegment(s), payload, offset) ==
                (EncodeTcb(t'), EncodeReply(reply))
  {
    AdvanceCommutes(t, cx, s);
    var r := Advance(Ideal, t, cx, s);
    if r.Go? && payload != [] {
      AdvancedReceiver(t, cx, s);
      StoreCommutes(r.t, cx, s, payload, offset);
    }
  }

  lemma AdvancedReceiver(t: Tcb, cx: Context, s: Segment)
    requires Near(t) && Inv(Ideal, t) && t.state != Listen && t.state != SynSent && t.state != Closed
    requires Advance(Ideal, t, cx, s).Go?
    ensures var t' := Advance(Ideal, t, cx, s).t;
            && RecvOk(Ideal, t'.rcv, t'.conf.slots) && t'.rcv.buf == t.rcv.buf && t'.snd.mss == t.snd.mss
            && (t'.rcv.lastAck.Some? ==> Within(t'.rcv.lastAck.value, t'.rcv.Next(Ideal), RX_LIMIT))
  {
    if s.control == Rst {
      ResetByPeer(Ideal, t, cx, s);
    } else {
      AdvanceShape(Ideal, t, cx, s);
      TakeFinOk(Ideal, t.rcv, t.conf.slots);
    }
  }

  /** `process` on the program's numbers is `process` on unbounded ones. */
  lemma ProcessCommutes(t: Tcb, cx: Context, s: Segment)
    requires Inv(Ideal, t) && SegmentOk(Ideal, s) && Accepts(t, s) && NearAck(t.rcv) && NearSegment(t, s)
    ensures var (t', reply) := Process(Ideal, t, cx, s);
            Process(Wrapped, EncodeTcb(t), EncodeContext(cx), EncodeSegment(s)) == (EncodeTcb(t'), EncodeReply(reply))
  {
    InvNear(t);
    CheckAckAgrees(t.state, t.snd, s);
    match CheckAck(Ideal, t.state, t.snd, s)
    case AckIgnore =>
    case AckReset => RstReplyCommutes(s);
    case AckChallenge => ChallengeCommutes(t, cx, s);
    case AckAccept =>
      if t.state == Listen || t.state == SynSent {
        AcceptedCommutes(t, cx, s, [], 0);
      } else {
        CheckWindowAgrees(t.rcv, t.conf.slots, s);
        match CheckWindow(Ideal, t.rcv, s)
        case Outside => ChallengeCommutes(if t.state == TimeWait then t.(timer := ForClose(cx.now)) else t, cx, s);
        case Inside(payload, offset) =>
          CheckWindowFits(Ideal, t.rcv, s, t.conf.slots);
          AcceptedCommutes(t, cx, s, payload, offset);
      }
  }

  // ----- dispatch

  lemma SequenceCommutes(t: Tcb, cx: Context)
    requires NearSend(t.snd)
    ensures SeqToTransmit(Wrapped, EncodeTcb(t), EncodeContext(cx)) == SeqToTransmit(Ideal, t, cx)
  {
    var snd := t.snd;
    var k := Min(snd.winLen, snd.buf.len);
    EncodeEqual(snd.nxt, snd.una);
    EncodeAdd(snd.una, k);
    EncodeDiff(snd.una + k, snd.nxt);
    EncodeAdd(snd.una, snd.buf.len);
    EncodeEqual(snd.nxt, snd.una + snd.buf.len);
  }

  lemma WindowUpdateCommutes(t: Tcb)
    requires NearRecv(t.rcv)
    ensures WindowToUpdate(Wrapped, EncodeTcb(t)) == WindowToUpdate(Ideal, t)
    ensures AckToTransmit(Wrapped, EncodeRecv(t.rcv)) == AckToTransmit(Ideal, t.rcv)
  {
    var rcv := t.rcv;
    EncodeNext(rcv);
    if rcv.lastAck.Some? {
      ScaledBound(rcv.lastWin, rcv.shift);
      EncodeAdd(rcv.lastAck.value, Shl(rcv.lastWin, rcv.shift));
      EncodeDiff(LastEdge(Ideal, rcv), rcv.Next(Ideal));
      EncodeDiff(rcv.lastAck.value, rcv.Next(Ideal));
    }
  }

  lemma BeforeCommutes(t: Tcb, cx: Context)
    requires Near(t)
    ensures BeforeDispatch(Wrapped, EncodeTcb(t), EncodeContext(cx)) == EncodeTcb(BeforeDispatch(Ideal, t, cx))
    ensures Near(BeforeDispatch(Ideal, t, cx)) && BeforeDispatch(Ideal, t, cx).tuple == t.tuple
    ensures NearRtte(t) ==> NearRtte(BeforeDispatch(Ideal, t, cx))
  {
    SequenceCommutes(t.(lastTs := if t.lastTs.None? then Some(cx.now) else t.lastTs), cx);
  }

  lemma WantsCommutes(t: Tcb, cx: Context)
    requires Near(t)
    ensures WantsToSend(Wrapped, EncodeTcb(t), EncodeContext(cx)) == WantsToSend(Ideal, t, cx)
  {
    SequenceCommutes(t, cx);
    WindowUpdateCommutes(t);
  }

  lemma LimitCommutes(snd: SendHalf)
    requires NearSend(snd)
    ensures WindowLimit(Wrapped, EncodeSend(snd)) == WindowLimit(Ideal, snd)
    ensures Dist(Wrapped, Encode(snd.nxt), Encode(snd.una)) == Dist(Ideal, snd.nxt, snd.una)
  {
    EncodeAdd(snd.una, snd.winLen);
    EncodeDiff(snd.una + snd.winLen, snd.nxt);
    EncodeDiff(snd.nxt, snd.una);
  }

  lemma PayloadCommutes(t: Tcb, cx: Context)
    requires NearSend(t.snd)
    ensures IsProbe(Wrapped, EncodeTcb(t), cx.now) == IsProbe(Ideal, t, cx.now)
    ensures DataPayload(Wrapped, EncodeTcb(t), EncodeContext(cx)) == DataPayload(Ideal, t, cx)
  {
    LimitCommutes(t.snd);
  }

  lemma FlagCommutes(t: Tcb, payload: seq<byte>)
    requires NearSend(t.snd)
    ensures DataControl(Wrapped, EncodeTcb(t), payload) == DataControl(Ideal, t, payload)
  {
    LimitCommutes(t.snd);
  }

  lemma DraftCommutes(t: Tcb, tuple: Tuple, cx: Context)
    requires Near(t)
    ensures DraftSegment(Wrapped, EncodeTcb(t), tuple, EncodeContext(cx)) ==
            EncodeSegment(DraftSegment(Ideal, t, tuple, cx))
  {
    EncodeNext(t.rcv);
    if CarriesData(t.state) {
      DataCommutes(t, tuple, cx);
    } else {
      BareCommutes(t, tuple, cx);
    }
  }

  lemma DataCommutes(t: Tcb, tuple: Tuple, cx: Context)
    requires NearSend(t.snd) && CarriesData(t.state) && EncodeRecv(t.rcv).Next(Wrapped) == Encode(t.rcv.Next(Ideal))
    ensures DraftSegment(Wrapped, EncodeTcb(t), tuple, EncodeContext(cx)) ==
            EncodeSegment(DraftSegment(Ideal, t, tuple, cx))
  {
    PayloadCommutes(t, cx);
    FlagCommutes(t, DataPayload(Ideal, t, cx));
  }

  lemma BareCommutes(t: Tcb, tuple: Tuple, cx: Context)
    requires !CarriesData(t.state) && EncodeRecv(t.rcv).Next(Wrapped) == Encode(t.rcv.Next(Ideal))
    ensures DraftSegment(Wrapped, EncodeTcb(t), tuple, EncodeContext(cx)) ==
            EncodeSegment(DraftSegment(Ideal, t, tuple, cx))
  {
    WindowSame(t);
    if SentSyn(t.state) {
      SynCommutes(t, tuple, cx);
    }
  }

  lemma WindowSame(t: Tcb)
    ensures EncodeTcb(t).rcv.ScaledWindow() == t.rcv.ScaledWindow()
  {
  }

  lemma SynCommutes(t: Tcb, tuple: Tuple, cx: Context)
    requires SentSyn(t.state) && EncodeRecv(t.rcv).Next(Wrapped) == Encode(t.rcv.Next(Ideal))
    ensures DraftSegment(Wrapped, EncodeTcb(t), tuple, EncodeContext(cx)) ==
            EncodeSegment(DraftSegment(Ideal, t, tuple, cx))
  {
  }

  lemma OutgoingCommutes(t: Tcb, tuple: Tuple, cx: Context)
    requires Near(t)
    ensures OutgoingSegment(Wrapped, EncodeTcb(t), tuple, EncodeContext(cx)) ==
            EncodeSegment(OutgoingSegment(Ideal, t, tuple, cx))
    ensures IsKeepAlive(Wrapped, EncodeTcb(t), tuple, EncodeContext(cx)) == IsKeepAlive(Ideal, t, tuple, cx)
  {
    DraftCommutes(t, tuple, cx);
    var s := DraftSegment(Ideal, t, tuple, cx);
    EncodePrev(s.seqNo);
    assert EncodeSegment(s).IsEmpty() == s.IsEmpty() && EncodeTcb(t).timer == t.timer;
  }

  /** What is sent ends within what the estimator has seen so far and what is buffered. */
  ghost predicate EndsNear(r: Rtte, s: Segment) {
    s.Len() < HALF && (r.maxSeqSent.Some? ==> Within(r.maxSeqSent.value, s.seqNo + s.Len(), HALF))
  }

  lemma AfterSegmentCommutes(t: Tcb, cx: Context, s: Segment)
    requires EndsNear(t.rtte, s)
    ensures AfterSegment(Wrapped, EncodeTcb(t), EncodeContext(cx), EncodeSegment(s)) ==
            EncodeTcb(AfterSegment(Ideal, t, cx, s))
  {
    EncodeAdd(s.seqNo, s.Len());
    if t.rtte.maxSeqSent.Some? {
      EncodeDiff(t.rtte.maxSeqSent.value, s.seqNo + s.Len());
    }
  }

  lemma AfterSendCommutes(t: Tcb, tuple: Tuple, cx: Context, s: Segment)
    requires Near(t) && EndsNear(t.rtte, s)
    ensures AfterSend(Wrapped, EncodeTcb(t), tuple, EncodeContext(cx), EncodeSegment(s)) ==
            EncodeTcb(AfterSend(Ideal, t, tuple, cx, s))
  {
    PayloadCommutes(t, cx);
    OutgoingCommutes(t, tuple, cx);
    var t1 := t.(timer := t.timer.RewindKeepAlive(cx.now, t.conf.keepAlive), rcv := t.rcv.(ackTimer := AckIdle));
    AfterSegmentCommutes(t1, cx, s);
  }

  /** An ordinary segment ends inside what is buffered. */
  lemma DraftEndsNear(t: Tcb, tuple: Tuple, cx: Context)
    requires NearRtte(t) && Inv(Ideal, t) && t.tuple == Some(tuple) && t.state != Listen
    ensures EndsNear(t.rtte, DraftSegment(Ideal, t, tuple, cx))
  {
    if t.state != Closed {
      SegmentSeqSpace(Ideal, t, tuple, cx);
    }
    if CarriesData(t.state) {
      DataPayloadFits(Ideal, t, cx);
    }
  }

  lemma SendCommutes(t: Tcb, tuple: Tuple, cx: Context)
    requires Near(t) && NearRtte(t) && Inv(Ideal, t) && t.tuple == Some(tuple) && t.state != Listen
    ensures var s := OutgoingSegment(Ideal, t, tuple, cx);
            AfterSend(Wrapped, EncodeTcb(t), tuple, EncodeContext(cx), EncodeSegment(s)) ==
                EncodeTcb(AfterSend(Ideal, t, tuple, cx, s))
  {
    var s := OutgoingSegment(Ideal, t, tuple, cx);
    OutgoingCommutes(t, tuple, cx);
    if IsKeepAlive(Ideal, t, tuple, cx) {
      KeepAliveSent(t, tuple, cx, s);
    } else {
      DraftEndsNear(t, tuple, cx);
      AfterSendCommutes(t, tuple, cx, s);
    }
  }

  lemma KeepAliveSent(t: Tcb, tuple: Tuple, cx: Context, s: Segment)
    requires Near(t) && IsKeepAlive(Ideal, t, tuple, cx)
    ensures AfterSend(Wrapped, EncodeTcb(t), tuple, EncodeContext(cx), EncodeSegment(s)) ==
            EncodeTcb(AfterSend(Ideal, t, tuple, cx, s))
  {
    PayloadCommutes(t, cx);
    OutgoingCommutes(t, tuple, cx);
  }

  lemma ResetCommutes(t: Tcb)
    ensures Reset(EncodeTcb(t)) == EncodeTcb(Reset(t))
  {
  }

  /** `dispatch` on the program's numbers is `dispatch` on unbounded ones. */
  lemma DispatchCommutes(t: Tcb, cx: Context, sent: bool)
    requires Inv(Ideal, t) && NearAck(t.rcv) && NearRtte(t)
    ensures var (t', reply) := Dispatch(Ideal, t, cx, sent);
            Dispatch(Wrapped, EncodeTcb(t), EncodeContext(cx), sent) == (EncodeTcb(t'), EncodeReply(reply))
  {
    InvNear(t);
    if t.tuple.Some? {
      BeforeDispatchInv(Ideal, t, cx);
      BeforeCommutes(t, cx);
      var t1 := BeforeDispatch(Ideal, t, cx);
      WantsCommutes(t1, cx);
      ResetCommutes(t1);
      if t1.state != Listen {
        OutgoingCommutes(t1, t.tuple.value, cx);
        SendCommutes(t1, t.tuple.value, cx);
      }
    }
  }
}
