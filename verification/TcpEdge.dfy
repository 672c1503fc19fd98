/**
  The right edge last advertised. `last_scaled_window` subtracts what was received from it, and the program
  stops when more was received than that edge covered. This can happen; here it is said, for every state of
  a socket and every segment, exactly when, in terms of the socket and the segment before the call, and what
  follows for whole runs.
 */
module TcpEdge {
  import opened Options
  import opened Octets
  import opened Shifts
  import opened SeqNumber
  import opened Timers
  import opened RingSpec
  import opened TcpModel
  import opened TcpInvariant
  import opened TcpPolling
  import opened TcpNetwork
  import opened TcpDelivery
  import opened TcpStream
  import A = AssemblerSpec

  // ----- one segment

  /** How far the advertised edge lies beyond what was received. */
  function Room(m: Arith, rcv: RecvHalf): nat {
    Dist(m, LastEdge(m, rcv), rcv.Next(m))
  }

  /** Some octet up to the advertised edge is neither there already nor in the payload. */
  ghost predicate LeavesGap(m: Arith, rcv: RecvHalf, offset: nat, size: nat) {
    exists x: nat {:trigger A.Covers(rcv.asm, x)} ::
      x <= Room(m, rcv) && !A.Covers(rcv.asm, x) && !(offset <= x < offset + size)
  }

  /**
    After a payload is stored, the edge last advertised still covers what was received exactly when the
    payload leaves a gap up to that edge.
   */
  lemma EdgeAfterReceive(m: Arith, rcv: RecvHalf, slots: nat, payload: seq<byte>, offset: nat)
    requires RecvOk(m, rcv, slots) && offset + |payload| <= rcv.buf.Window()
    requires rcv.lastAck.Some? && EdgeHolds(m, rcv) && Receive(rcv, slots, payload, offset).Some?
    ensures EdgeHolds(m, Receive(rcv, slots, payload, offset).value) <==> LeavesGap(m, rcv, offset, |payload|)
  {
    var n := A.AddThenRemoveFront(rcv.asm, slots, offset, |payload|).value.1;
    EdgeMoves(m, rcv, slots, payload, offset);
    A.AddThenRemoveFrontMeaning(rcv.asm, slots, offset, |payload|);
    assert !(A.Covers(rcv.asm, n) || offset <= n < offset + |payload|);
  }

  lemma EdgeMoves(m: Arith, rcv: RecvHalf, slots: nat, payload: seq<byte>, offset: nat)
    requires RecvOk(m, rcv, slots) && offset + |payload| <= rcv.buf.Window()
    requires rcv.lastAck.Some? && EdgeHolds(m, rcv) && Receive(rcv, slots, payload, offset).Some?
    ensures var n := A.AddThenRemoveFront(rcv.asm, slots, offset, |payload|).value.1;
            EdgeHolds(m, Receive(rcv, slots, payload, offset).value) <==> n <= Room(m, rcv)
  {
    var n := A.AddThenRemoveFront(rcv.asm, slots, offset, |payload|).value.1;
    ContigFits(m, rcv, slots, |payload|, offset);
    StoreFacts(rcv.buf, offset, payload, n);
    ScaledBound(rcv.lastWin, rcv.shift);
    WindowEdge(m, rcv, slots);
    EdgeDistance(m, LastEdge(m, rcv), rcv.Next(m), n);
    var rcv' := Receive(rcv, slots, payload, offset).value;
    assert rcv'.Next(m) == Add(m, rcv.Next(m), n) && LastEdge(m, rcv') == LastEdge(m, rcv);
  }

  lemma EdgeDistance(m: Arith, edge: int, next: int, k: nat)
    requires InRange(m, edge) && InRange(m, next) && Diff(m, edge, next) >= 0 && k <= RX_LIMIT
    ensures Diff(m, edge, Add(m, next, k)) >= 0 <==> k <= Dist(m, edge, next)
  {
  }

  /** A connection that tells its peer about the window, past the handshake of the side that opened it. */
  predicate Tells(st: State) {
    st == SynReceived || st == Established || st == FinWait1 || st == FinWait2
  }

  /**
    The segment takes the socket past the edge it has advertised: nothing was missing before, the segment
    starts at the left edge, and what is kept of it is longer than the room up to the advertised edge.
   */
  predicate Overruns(m: Arith, t: Tcb, s: Segment) {
    && CheckAck(m, t.state, t.snd, s) == AckAccept && (s.control == NoFlag || s.control == Psh)
    && CheckWindow(m, t.rcv, s).Inside?
    && PassesEdge(m, t.rcv, CheckWindow(m, t.rcv, s).payload, CheckWindow(m, t.rcv, s).offset)
  }

  predicate PassesEdge(m: Arith, rcv: RecvHalf, payload: seq<byte>, offset: nat) {
    rcv.lastAck.Some? && rcv.asm == [] && offset == 0 && |payload| > Room(m, rcv)
  }

  /** The segment opens the connection. */
  predicate Opens(m: Arith, t: Tcb, s: Segment) {
    CheckAck(m, t.state, t.snd, s) == AckAccept && s.control == Syn && s.mss != Some(0)
  }

  /**
    The peer's SYN is taken as if it had been acknowledged together with the window last sent. A socket that
    has not got its own SYN out yet has sent a window of zero, which does not even cover the SYN.
   */
  predicate OpensUntold(m: Arith, t: Tcb, s: Segment) {
    Opens(m, t, s) && t.rcv.lastWin == 0
  }

  /** A listening socket keeps the edge of an attempt that was reset, and it lies before the new SYN. */
  predicate OpensBehind(m: Arith, t: Tcb, s: Segment) {
    && Opens(m, t, s) && t.rcv.lastAck.Some?
    && Lt(m, Add(m, t.rcv.lastAck.value, Shl(t.rcv.lastWin, if s.scale.None? then 0 else t.rcv.shift)),
          Add(m, s.seqNo, 1))
  }

  /** The segment takes the subtraction out of its domain. */
  predicate LosesEdge(m: Arith, t: Tcb, s: Segment) {
    match t.state
    case Listen => OpensBehind(m, t, s)
    case SynSent => OpensUntold(m, t, s)
    case _ => Tells(t.state) && Overruns(m, t, s)
  }

  /** Acknowledging advertises a new edge. */
  lemma AckReplyEdge(m: Arith, t: Tcb, s: Segment)
    requires RecvOk(m, t.rcv, t.conf.slots)
    ensures EdgeHolds(m, AckReply(m, t, s).0.rcv)
  {
    var rcv := AckReply(m, t, s).0.rcv;
    WindowEdge(m, t.rcv, t.conf.slots);
    ScaledBound(rcv.lastWin, rcv.shift);
  }

  /** Storing a payload when nothing was missing: either it starts at the left edge, or it is answered at once. */
  lemma StoreEdge(m: Arith, t: Tcb, cx: Context, s: Segment, payload: seq<byte>, offset: nat)
    requires RecvOk(m, t.rcv, t.conf.slots) && EdgeHolds(m, t.rcv)
    requires payload != [] && offset + |payload| <= t.rcv.buf.Window()
    ensures EdgeHolds(m, StorePayload(m, t, cx, s, payload, offset).0.rcv) <==> !PassesEdge(m, t.rcv, payload, offset)
  {
    var r := Receive(t.rcv, t.conf.slots, payload, offset);
    ReceiveOk(m, t.rcv, t.conf.slots, payload, offset);
    if r.Some? {
      var rcv := r.value;
      var t1 := t.(rcv := rcv.(ackTimer := UpdateAckTimer(m, rcv, t.snd.mss, t.conf.ackDelay, cx.now)));
      if t.rcv.asm == [] {
        OnlyRange(t.conf.slots, offset, |payload|);
      }
      if rcv.asm != [] || t.rcv.asm != [] {
        AckReplyEdge(m, t1, s);
      } else if t.rcv.lastAck.Some? {
        EdgeMoves(m, t.rcv, t.conf.slots, payload, offset);
      }
    }
  }

  lemma OnlyRange(slots: nat, offset: nat, size: nat)
    requires size > 0 && slots > 0
    ensures A.AddThenRemoveFront([], slots, offset, size) == if offset == 0 then Some(([], size))
            else Some(([A.Contig(offset, size)], 0))
  {
    var v := A.Insert([], offset, size);
    assert v == [A.Contig(offset, size)] && v[1..] == [];
  }

  /**
    In every state and for every segment, `process` keeps the subtraction in its domain exactly when the
    segment does not lose the edge.
   */
  lemma EdgeAfterProcess(m: Arith, t: Tcb, cx: Context, s: Segment)
    requires Inv(m, t) && SegmentOk(m, s) && Accepts(t, s) && EdgeOk(m, t)
    ensures EdgeOk(m, Process(m, t, cx, s).0) <==> !LosesEdge(m, t, s)
  {
    if t.state == Listen {
      ListenEdge(m, t, cx, s);
    } else if t.state == SynSent {
      SynSentEdge(m, t, cx, s);
    } else if Tells(t.state) {
      TellsEdge(m, t, cx, s);
    } else {
      FinishedEdge(m, t, cx, s);
    }
  }

  lemma OpenedEdge(m: Arith, rcv: RecvHalf, s: Segment)
    requires SegmentOk(m, s) && rcv.lastWin <= U16_MAX && rcv.shift <= 15 && rcv.buf.len == 0
    ensures EdgeHolds(m, OpenRecv(m, rcv, s).(lastAck := Some(s.seqNo))) <==> rcv.lastWin > 0
  {
    var shift := if s.scale.None? then 0 else rcv.shift;
    ScaledBound(rcv.lastWin, shift);
    ShlMonotone(rcv.lastWin, rcv.lastWin, shift);
  }

  lemma SynSentEdge(m: Arith, t: Tcb, cx: Context, s: Segment)
    requires Inv(m, t) && SegmentOk(m, s) && t.state == SynSent && EdgeOk(m, t)
    ensures EdgeOk(m, Process(m, t, cx, s).0) <==> !OpensUntold(m, t, s)
  {
    if CheckAck(m, t.state, t.snd, s) == AckAccept && s.control != Rst {
      SynSentShape(m, t, cx, s);
      OpenedEdge(m, t.rcv, s);
    }
  }

  lemma ListenEdge(m: Arith, t: Tcb, cx: Context, s: Segment)
    requires Inv(m, t) && SegmentOk(m, s) && t.state == Listen && s.control != Rst
    ensures EdgeOk(m, Process(m, t, cx, s).0) <==> !OpensBehind(m, t, s)
  {
  }

  /** Once the peer has finished, the socket no longer advertises. */
  lemma FinishedEdge(m: Arith, t: Tcb, cx: Context, s: Segment)
    requires t.state != Listen && t.state != SynSent && !Tells(t.state) && t.state != Closed
    ensures !TellsWindow(Process(m, t, cx, s).0.state)
  {
    if CheckAck(m, t.state, t.snd, s) == AckAccept {
      match CheckWindow(m, t.rcv, s)
      case Outside =>
      case Inside(payload, offset) => FinishedTakes(m, t, cx, s, payload, offset);
    }
  }

  lemma FinishedTakes(m: Arith, t: Tcb, cx: Context, s: Segment, payload: seq<byte>, offset: nat)
    requires t.state != Listen && t.state != SynSent && !Tells(t.state) && t.state != Closed
    ensures !TellsWindow(ProcessAccepted(m, t, cx, s, payload, offset).0.state)
  {
    FinishedAdvance(m, t, cx, s);
    match Advance(m, t, cx, s)
    case Stop(t1) =>
    case Go(t1) => StoreKeepsState(m, t1, cx, s, payload, offset);
  }

  lemma FinishedAdvance(m: Arith, t: Tcb, cx: Context, s: Segment)
    requires t.state != Listen && t.state != SynSent && !Tells(t.state) && t.state != Closed
    ensures !TellsWindow(Advance(m, t, cx, s).t.state)
  {
    if s.control != Rst {
      AdvanceShape(m, t, cx, s);
    }
  }

  lemma TellsEdge(m: Arith, t: Tcb, cx: Context, s: Segment)
    requires Inv(m, t) && SegmentOk(m, s) && Tells(t.state) && EdgeHolds(m, t.rcv)
    ensures EdgeOk(m, Process(m, t, cx, s).0) <==> !Overruns(m, t, s)
  {
    match CheckAck(m, t.state, t.snd, s)
    case AckIgnore =>
    case AckReset =>
    case AckChallenge => ChallengeEdge(m, t, cx, s);
    case AckAccept =>
      match CheckWindow(m, t.rcv, s)
      case Outside => ChallengeEdge(m, t, cx, s);
      case Inside(payload, offset) =>
        CheckWindowFits(m, t.rcv, s, t.conf.slots);
        LateSegment(m, t, s);
        AcceptedEdge(m, t, cx, s, payload, offset);
  }

  lemma ChallengeEdge(m: Arith, t: Tcb, cx: Context, s: Segment)
    requires RecvOk(m, t.rcv, t.conf.slots) && EdgeHolds(m, t.rcv)
    ensures EdgeHolds(m, ChallengeAck(m, t, cx, s).0.rcv)
  {
    AckReplyEdge(m, t.(challengeAt := cx.now + CHALLENGE_ACK_INTERVAL), s);
  }

  lemma AcceptedEdge(m: Arith, t: Tcb, cx: Context, s: Segment, payload: seq<byte>, offset: nat)
    requires Inv(m, t) && Tells(t.state) && EdgeHolds(m, t.rcv) && offset + |payload| <= t.rcv.buf.Window()
    requires Lt(m, t.rcv.Next(m), s.seqNo) ==> offset > 0
    ensures EdgeOk(m, ProcessAccepted(m, t, cx, s, payload, offset).0) <==>
            !((s.control == NoFlag || s.control == Psh) && PassesEdge(m, t.rcv, payload, offset))
  {
    if s.control == Rst {
      ResetEdge(m, t, cx, s);
    } else {
      match Advance(m, t, cx, s)
      case Stop(t1) => AdvanceStops(m, t, cx, s);
      case Go(t1) =>
        AdvanceTells(m, t, cx, s);
        if payload != [] {
          StoredEdge(m, t.rcv, t1, cx, s, payload, offset);
        }
    }
  }

  lemma StoredEdge(m: Arith, rcv: RecvHalf, t: Tcb, cx: Context, s: Segment, payload: seq<byte>, offset: nat)
    requires RecvOk(m, rcv, t.conf.slots) && EdgeHolds(m, rcv) && (TellsWindow(t.state) ==> t.rcv == rcv)
    requires payload != [] && offset + |payload| <= rcv.buf.Window()
    ensures EdgeOk(m, StorePayload(m, t, cx, s, payload, offset).0) <==>
            !(TellsWindow(t.state) && PassesEdge(m, rcv, payload, offset))
  {
    StoreKeepsState(m, t, cx, s, payload, offset);
    if TellsWindow(t.state) {
      StoreEdge(m, t, cx, s, payload, offset);
    }
  }

  lemma StoreKeepsState(m: Arith, t: Tcb, cx: Context, s: Segment, payload: seq<byte>, offset: nat)
    ensures StorePayload(m, t, cx, s, payload, offset).0.state == t.state
  {
  }

  /** A segment past a hole does not start at the left edge. */
  lemma LateSegment(m: Arith, t: Tcb, s: Segment)
    requires Inv(m, t) && SegmentOk(m, s) && CheckWindow(m, t.rcv, s).Inside?
    ensures Lt(m, t.rcv.Next(m), s.seqNo) ==> CheckWindow(m, t.rcv, s).offset > 0
  {
    WindowEdge(m, t.rcv, t.conf.slots);
    WindowTest(m, t.rcv.Next(m), t.rcv.buf.Window(), s.seqNo, |s.payload|);
    OverlapIsIntersection(m, t.rcv.Next(m), t.rcv.buf.Window(), s.seqNo, |s.payload|);
  }

  lemma ResetEdge(m: Arith, t: Tcb, cx: Context, s: Segment)
    requires s.control == Rst && Tells(t.state)
    ensures Advance(m, t, cx, s).Stop? && !TellsWindow(Advance(m, t, cx, s).t.state)
  {
  }

  /** While the socket goes on advertising, its receiving half does not change before the payload is stored. */
  lemma AdvanceTells(m: Arith, t: Tcb, cx: Context, s: Segment)
    requires s.control != Rst && Tells(t.state) && Advance(m, t, cx, s).Go?
    ensures var t' := Advance(m, t, cx, s).t;
            && t'.conf == t.conf
            && (TellsWindow(t'.state) ==>
                  t'.rcv == t.rcv && (s.control == NoFlag || s.control == Psh || Lt(m, t.rcv.Next(m), s.seqNo)))
  {
    AdvanceShape(m, t, cx, s);
  }

  lemma AdvanceStops(m: Arith, t: Tcb, cx: Context, s: Segment)
    requires s.control != Rst && Tells(t.state) && Advance(m, t, cx, s).Stop?
    ensures Advance(m, t, cx, s).t.rcv == t.rcv && s.control != NoFlag && s.control != Psh
  {
    AdvanceShape(m, t, cx, s);
  }

  // ----- polling after a segment

  /**
    An Established socket that has nothing to send, delays no acknowledgement, and is less than a buffer
    behind with it.
   */
  ghost predicate AtRest(m: Arith, t: Tcb) {
    && Inv(m, t) && t.state == Established && t.snd.buf.len == 0 && t.conf.timeout.None?
    && EdgeHolds(m, t.rcv) && t.rcv.ackTimer == AckIdle && t.conf.ackDelay.Some?
    && NotFarBehind(m, t.rcv)
  }

  predicate NotFarBehind(m: Arith, rcv: RecvHalf) {
    rcv.lastAck.Some? ==> 0 <= Diff(m, rcv.Next(m), rcv.lastAck.value) < RX_LIMIT
  }

  lemma NothingToSend(m: Arith, t: Tcb, cx: Context)
    requires t.state == Established && t.snd.buf.len == 0 && t.snd.nxt == t.snd.una && InRange(m, t.snd.una)
    ensures !SeqToTransmit(m, t, cx)
  {
  }

  /** Whether such a socket may be polled depends on the edge and on the delayed acknowledgement alone. */
  lemma SafeIff(m: Arith, t: Tcb, cx: Context)
    requires t.state == Established && t.tuple.Some? && t.conf.timeout.None?
    requires t.snd.buf.len == 0 && t.snd.nxt == t.snd.una && InRange(m, t.snd.una)
    ensures DispatchSafe(m, t, cx) <==>
            EdgeHolds(m, t.rcv) || (AckToTransmit(m, t.rcv) && DelayedAckExpired(t.rcv.ackTimer, cx.now))
  {
    var t1 := BeforeDispatch(m, t, cx);
    assert t1.state == Established && t1.rcv == t.rcv && t1.tuple == t.tuple;
    NothingToSend(m, t1, cx);
  }

  /** A plain segment leaves such a socket Established and with nothing to send. */
  lemma PlainKeepsRest(m: Arith, t: Tcb, cx: Context, s: Segment)
    requires AtRest(m, t) && SegmentOk(m, s) && Accepts(t, s) && (s.control == NoFlag || s.control == Psh)
    ensures var t' := Process(m, t, cx, s).0;
            && t'.state == Established && t'.tuple == t.tuple && t'.conf == t.conf
            && t'.snd.buf.len == 0 && t'.snd.nxt == t'.snd.una && InRange(m, t'.snd.una)
  {
    if CheckAck(m, t.state, t.snd, s) != AckAccept || CheckWindow(m, t.rcv, s).Outside? {
      RefusedKeepsSend(m, t, cx, s);
    } else {
      PlainAdvance(m, t, cx, s);
      var w := CheckWindow(m, t.rcv, s);
      StoreKeepsRest(m, Advance(m, t, cx, s).t, cx, s, w.payload, w.offset);
    }
  }

  lemma RefusedKeepsSend(m: Arith, t: Tcb, cx: Context, s: Segment)
    requires t.state == Established
    requires CheckAck(m, t.state, t.snd, s) != AckAccept || CheckWindow(m, t.rcv, s).Outside?
    ensures var t' := Process(m, t, cx, s).0;
            t'.state == t.state && t'.tuple == t.tuple && t'.conf == t.conf && t'.snd == t.snd
  {
  }

  lemma PlainAdvance(m: Arith, t: Tcb, cx: Context, s: Segment)
    requires AtRest(m, t) && SegmentOk(m, s) && (s.control == NoFlag || s.control == Psh)
    requires CheckAck(m, t.state, t.snd, s) == AckAccept
    ensures var r := Advance(m, t, cx, s);
            && r.Go? && r.t.state == Established && r.t.tuple == t.tuple && r.t.conf == t.conf && r.t.rcv == t.rcv
            && r.t.snd.buf.len == 0 && r.t.snd.nxt == r.t.snd.una && InRange(m, r.t.snd.una) && r.t.lastTs.Some?
  {
    AdvanceInv(m, t, cx, s);
    AckLenFits(m, t.state, t.snd, s);
    AdvanceShape(m, t, cx, s);
  }

  lemma StoreKeepsRest(m: Arith, t: Tcb, cx: Context, s: Segment, payload: seq<byte>, offset: nat)
    ensures var t' := StorePayload(m, t, cx, s, payload, offset).0;
            t'.state == t.state && t'.tuple == t.tuple && t'.conf == t.conf && t'.snd == t.snd
  {
  }

  /** A segment that overruns the edge is stored without an answer, and its acknowledgement is delayed. */
  lemma OverrunIsSilent(m: Arith, t: Tcb, cx: Context, s: Segment)
    requires AtRest(m, t) && SegmentOk(m, s) && Accepts(t, s) && Overruns(m, t, s)
    ensures var t' := Process(m, t, cx, s).0;
            AckToTransmit(m, t'.rcv) && t'.rcv.ackTimer == AckWaiting(cx.now + t.conf.ackDelay.value) && t'.lastTs.Some?
  {
    var payload, t1 := CheckWindow(m, t.rcv, s).payload, Advance(m, t, cx, s).t;
    PlainAdvance(m, t, cx, s);
    CheckWindowFits(m, t.rcv, s, t.conf.slots);
    OverrunStored(m, t1, cx, s, payload);
    KeptIsStored(m, t, cx, s, payload, t1);
  }

  lemma KeptIsStored(m: Arith, t: Tcb, cx: Context, s: Segment, payload: seq<byte>, t1: Tcb)
    requires t.state == Established && CheckAck(m, t.state, t.snd, s) == AckAccept
    requires CheckWindow(m, t.rcv, s) == Inside(payload, 0) && payload != [] && Advance(m, t, cx, s) == Go(t1)
    ensures Process(m, t, cx, s) == StorePayload(m, t1, cx, s, payload, 0)
  {
  }

  lemma OverrunStored(m: Arith, t: Tcb, cx: Context, s: Segment, payload: seq<byte>)
    requires RecvOk(m, t.rcv, t.conf.slots) && EdgeHolds(m, t.rcv) && t.rcv.lastAck.Some? && t.rcv.asm == []
    requires t.rcv.ackTimer == AckIdle && t.conf.ackDelay.Some? && NotFarBehind(m, t.rcv)
    requires Room(m, t.rcv) < |payload| <= t.rcv.buf.Window()
    ensures var t' := StorePayload(m, t, cx, s, payload, 0).0;
            AckToTransmit(m, t'.rcv) && t'.rcv.ackTimer == AckWaiting(cx.now + t.conf.ackDelay.value)
            && t'.lastTs == t.lastTs
  {
    OnlyRange(t.conf.slots, 0, |payload|);
    StoreFacts(t.rcv.buf, 0, payload, |payload|);
    WindowEdge(m, t.rcv, t.conf.slots);
    var rcv := Receive(t.rcv, t.conf.slots, payload, 0).value;
    assert rcv.asm == [] && rcv.Next(m) == Add(m, t.rcv.Next(m), |payload|);
    PastAck(m, t.rcv.lastAck.value, t.rcv.Next(m), |payload|);
  }

  lemma PastAck(m: Arith, ack: int, next: int, k: nat)
    requires InRange(m, ack) && InRange(m, next) && 0 < k <= RX_LIMIT && 0 <= Diff(m, next, ack) < RX_LIMIT
    ensures Lt(m, ack, Add(m, next, k))
  {
  }

  /**
    After any plain segment, `dispatch` on a socket at rest is in the domain of the program exactly when the
    segment did not overrun the advertised edge, or the acknowledgement has become due by then; `poll_at` is
    so exactly when the segment did not overrun.
   */
  lemma PollAfterProcess(m: Arith, t: Tcb, cx: Context, s: Segment, later: Context)
    requires AtRest(m, t) && SegmentOk(m, s) && Accepts(t, s) && (s.control == NoFlag || s.control == Psh)
    ensures DispatchSafe(m, Process(m, t, cx, s).0, later) <==>
            !Overruns(m, t, s) || later.now >= cx.now + t.conf.ackDelay.value
    ensures PollSafe(m, Process(m, t, cx, s).0, later) <==> !Overruns(m, t, s)
  {
    var t' := Process(m, t, cx, s).0;
    PlainKeepsRest(m, t, cx, s);
    SafeIff(m, t', later);
    NothingToSend(m, t', later);
    EdgeAfterProcess(m, t, cx, s);
    if Overruns(m, t, s) {
      OverrunIsSilent(m, t, cx, s);
    }
  }

  // ----- two inputs that overrun the edge

  /** A segment at the left edge that acknowledges nothing new. */
  ghost predicate InOrder(m: Arith, t: Tcb, s: Segment) {
    && SegmentOk(m, s) && Accepts(t, s) && s.control == NoFlag && s.payload != []
    && s.seqNo == t.rcv.Next(m) && s.ack == Some(t.snd.una)
  }

  /** The socket has just told its peer the window, and nothing is missing. */
  ghost predicate JustTold(m: Arith, t: Tcb) {
    AtRest(m, t) && t.rcv.asm == [] && t.rcv.lastAck == Some(t.rcv.Next(m))
  }

  lemma InOrderKept(m: Arith, t: Tcb, s: Segment)
    requires AtRest(m, t) && InOrder(m, t, s) && |s.payload| <= t.rcv.buf.Window()
    ensures CheckAck(m, t.state, t.snd, s) == AckAccept
    ensures CheckWindow(m, t.rcv, s) == Inside(s.payload, 0)
  {
    WindowEdge(m, t.rcv, t.conf.slots);
    WindowTest(m, t.rcv.Next(m), t.rcv.buf.Window(), s.seqNo, |s.payload|);
    OverlapIsIntersection(m, t.rcv.Next(m), t.rcv.buf.Window(), s.seqNo, |s.payload|);
    assert s.payload[..|s.payload|] == s.payload;
  }

  /**
    Right after an acknowledgement, a segment at the left edge that fits the buffer overruns exactly when
    it is longer than the window the acknowledgement carried. That window is smaller than the buffer
    whenever it was rounded down to the scale, cut to 16 bits, or followed by a read.
   */
  lemma OverrunsWhenTold(m: Arith, t: Tcb, s: Segment)
    requires JustTold(m, t) && InOrder(m, t, s) && |s.payload| <= t.rcv.buf.Window()
    ensures Overruns(m, t, s) <==> |s.payload| > Shl(t.rcv.lastWin, t.rcv.shift)
  {
    InOrderKept(m, t, s);
    WindowEdge(m, t.rcv, t.conf.slots);
    ScaledBound(t.rcv.lastWin, t.rcv.shift);
  }

  // ----- polling while a connection opens

  /**
    A socket in SYN-SENT that has just taken the peer's SYN has nothing to send but its acknowledgement, so
    `poll_at` makes the comparison at once: it is in its domain exactly when the socket had sent a window.
   */
  lemma PollAfterOpening(m: Arith, t: Tcb, cx: Context, s: Segment, later: Context)
    requires Inv(m, t) && SegmentOk(m, s) && t.state == SynSent && Opens(m, t, s)
    ensures PollSafe(m, Process(m, t, cx, s).0, later) <==> t.rcv.lastWin > 0
  {
    OpenedEdge(m, t.rcv, s);
    SynSentShape(m, t, cx, s);
    var t' := Process(m, t, cx, s).0;
    assert !SeqToTransmit(m, t', later);
  }

  /** A listening socket that has just taken a SYN has its own to send, which comes before the comparison. */
  lemma PollAfterListening(m: Arith, t: Tcb, cx: Context, s: Segment, later: Context)
    requires Inv(m, t) && SegmentOk(m, s) && t.state == Listen && Opens(m, t, s) && s.ack.None?
    ensures var t' := Process(m, t, cx, s).0; PollSafe(m, t', later) && DispatchSafe(m, t', later)
  {
    var t' := Process(m, t, cx, s).0;
    assert SeqToTransmit(m, t', later);
  }

  // ----- whole runs

  lemma ReadKeepsEdge(m: Arith, t: Tcb, want: nat)
    requires Inv(m, t) && EdgeOk(m, t)
    ensures EdgeOk(m, DoRecv(m, t, want).0)
  {
    DequeueFacts(t.rcv.buf, Min(want, t.rcv.buf.len));
  }

  /** What may happen to a socket, said without the hypothesis on polling: no segment loses the edge. */
  ghost predicate EnabledWithin(m: Arith, t: Tcb, e: Event) {
    match e
    case EvProcess(_, s) => Enabled(m, t, e) && !LosesEdge(m, t, s)
    case EvDispatch(_, _) => true
    case _ => Enabled(m, t, e)
  }

  ghost predicate RunsWithin(m: Arith, t0: Tcb, events: seq<Event>, t: Tcb)
    decreases |events|
  {
    if |events| == 0 then t == t0
    else EnabledWithin(m, t0, events[0]) && RunsWithin(m, Step(m, t0, events[0]), events[1..], t)
  }

  lemma StepKeepsEdge(m: Arith, t: Tcb, e: Event)
    requires Inv(m, t) && EdgeOk(m, t) && EnabledWithin(m, t, e)
    ensures Enabled(m, t, e) && EdgeOk(m, Step(m, t, e))
  {
    match e
    case EvProcess(cx, s) => EdgeAfterProcess(m, t, cx, s);
    case EvDispatch(cx, sent) =>
      EdgeOkIsSafe(m, t, cx);
      DispatchKeepsEdge(m, t, cx, sent);
    case EvRecv(want) => ReadKeepsEdge(m, t, want);
    case _ =>
  }

  /**
    In a run of one socket, whatever its peer sends, as long as no segment loses the edge every poll is in
    the domain of the program: the run needs no hypothesis on polling.
   */
  lemma {:induction false} SocketWithinEdges(m: Arith, t0: Tcb, events: seq<Event>, t: Tcb)
    requires Inv(m, t0) && EdgeOk(m, t0) && RunsWithin(m, t0, events, t)
    ensures Runs(m, t0, events, t) && Inv(m, t) && EdgeOk(m, t)
    decreases |events|
  {
    if |events| > 0 {
      StepKeepsEdge(m, t0, events[0]);
      StepInv(m, t0, events[0]);
      SocketWithinEdges(m, Step(m, t0, events[0]), events[1..], t);
    }
  }

  // ----- whole runs of two endpoints

  /** What may happen, said without the hypothesis on polling: no arriving segment loses the edge. */
  ghost predicate CanArrive(w: World, act: Action) {
    match act
    case Arrive(_, s) => CanHappen(w, act) && !LosesEdge(Ideal, w.a.t, s)
    case _ => true
  }

  ghost predicate StepsWithin(w: World, run: seq<(bool, Action)>, w': World)
    decreases |run|
  {
    if |run| == 0 then w' == w
    else
      && CanArrive(if run[0].0 then w else w.Swap(), run[0].1)
      && StepsWithin(StepWorld(w, run[0].0, run[0].1), run[1..], w')
  }

  lemma ActKeepsEdge(w: World, act: Action)
    requires WorldInv(w) && EdgeOk(Ideal, w.a.t) && CanArrive(w, act)
    ensures CanHappen(w, act) && EdgeOk(Ideal, StepA(w, act).a.t)
  {
    match act
    case Transmit(cx, sent) =>
      EdgeOkIsSafe(Ideal, w.a.t, cx);
      DispatchKeepsEdge(Ideal, w.a.t, cx, sent);
    case Arrive(cx, s) => EdgeAfterProcess(Ideal, w.a.t, cx, s);
    case Read(want) => ReadKeepsEdge(Ideal, w.a.t, want);
    case _ => CallKeepsEdge(w.a, act);
  }

  lemma CallKeepsEdge(x: End, act: Action)
    requires EdgeOk(Ideal, x.t) && (Synced(x.t.state) || x.t.state == Closed)
    requires act.Write? || act.CloseCall? || act.AbortCall? || act.Configure?
    ensures EdgeOk(Ideal, Act(x, act).0.t)
  {
    CallKeepsReceived(x, act);
  }

  /**
    Runs of two endpoints in which no arriving segment overruns the advertised edge need no hypothesis on
    polling: every poll in them is in the domain of the program.
   */
  lemma {:induction false} RunsWithinEdges(w: World, run: seq<(bool, Action)>, w': World)
    requires WorldInv(w) && EdgeOk(Ideal, w.a.t) && EdgeOk(Ideal, w.b.t) && StepsWithin(w, run, w')
    ensures Steps(w, run, w') && EdgeOk(Ideal, w'.a.t) && EdgeOk(Ideal, w'.b.t)
    decreases |run|
  {
    if |run| > 0 {
      var (atA, act) := run[0];
      var v := if atA then w else w.Swap();
      SwapInv(w);
      ActKeepsEdge(v, act);
      StepWorldInv(w, atA, act);
      RunsWithinEdges(StepWorld(w, atA, act), run[1..], w');
    }
  }
}
