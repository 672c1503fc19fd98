/**
  What the invariant means for the states that a new socket can reach, and the one state in which polling
  never comes to rest.
 */
module TcpReachable {
  import opened Options
  import opened Octets
  import opened Shifts
  import opened Polling
  import opened SeqNumber
  import opened Timers
  import opened RingSpec
  import opened TcpModel
  import opened TcpInvariant
  import opened TcpPolling
  import AssemblerSpec
  import Loops

  /** `t` is a state that a new socket gets to by some events. */
  ghost predicate Reachable(m: Arith, rx: Ring, tx: Ring, slots: nat, events: seq<Event>, t: Tcb) {
    && rx.Valid() && rx.len == 0 && rx.Capacity() <= RX_LIMIT
    && tx.Valid() && tx.len == 0 && tx.Capacity() <= TX_LIMIT && slots > 0
    && Runs(m, NewSocket(rx, tx, slots), events, t)
  }

  lemma ReachableInv(m: Arith, rx: Ring, tx: Ring, slots: nat, events: seq<Event>, t: Tcb)
    requires Reachable(m, rx, tx, slots, events, t)
    ensures Inv(m, t)
  {
    NewSocketInv(m, rx, tx, slots);
    RunInv(m, NewSocket(rx, tx, slots), events, t);
  }

  /** How much a state can have in flight beyond its buffered octets: an unacknowledged SYN or FIN. */
  function InFlightControl(st: State): nat {
    match st
    case SynSent => 1
    case SynReceived => 1
    case FinWait1 => 1
    case Closing => 1
    case LastAck => 1
    case _ => 0
  }

  /** In every run the sequence numbers of a connection stay within what is buffered. */
  lemma SequenceSpace(m: Arith, rx: Ring, tx: Ring, slots: nat, events: seq<Event>, t: Tcb)
    requires Reachable(m, rx, tx, slots, events, t) && t.state != Closed && t.state != Listen
    ensures Diff(m, t.snd.nxt, t.snd.una) >= 0
    ensures Le(m, t.snd.nxt, Add(m, t.snd.una, t.snd.buf.len + InFlightControl(t.state)))
    ensures Dist(m, t.snd.nxt, t.snd.una) <= t.snd.buf.len + InFlightControl(t.state)
  {
    ReachableInv(m, rx, tx, slots, events, t);
  }

  /** In every run each state carries its history. */
  lemma Lifecycle(m: Arith, rx: Ring, tx: Ring, slots: nat, events: seq<Event>, t: Tcb)
    requires Reachable(m, rx, tx, slots, events, t)
    ensures t.state != Closed ==> (t.rcv.fin <==> t.state in {CloseWait, LastAck, Closing, TimeWait})
    ensures t.state == TimeWait ==> t.timer.Close?
    ensures t.state in {FinWait2, TimeWait} ==> t.snd.buf.len == 0 && t.snd.nxt == t.snd.una
    ensures t.state in {SynSent, SynReceived} ==> t.snd.buf.len == 0 && t.rcv.buf.len == 0 && t.rcv.asm == []
    ensures t.state == Listen ==> t.tuple.None?
    ensures t.state !in {Closed, Listen} ==> t.tuple.Some?
    ensures RTTE_MIN_RTO <= t.rtte.rto <= RTTE_MAX_RTO
  {
    ReachableInv(m, rx, tx, slots, events, t);
  }

  /**
    In every run, whatever acceptable segment arrives: what it acknowledges is in the transmit buffer, its
    part inside the window fits the free space, and so does what becomes contiguous.
   */
  lemma ProcessInDomain(m: Arith, rx: Ring, tx: Ring, slots: nat, events: seq<Event>, t: Tcb, s: Segment)
    requires Reachable(m, rx, tx, slots, events, t) && SegmentOk(m, s) && Accepts(t, s) && s.control != Rst
    requires CheckAck(m, t.state, t.snd, s) == AckAccept
    ensures AnalyseAck(m, t.state, t.snd, s).len <= t.snd.buf.len
    ensures CheckWindow(m, t.rcv, s).Inside? ==>
              var w := CheckWindow(m, t.rcv, s);
              var r := AssemblerSpec.AddThenRemoveFront(t.rcv.asm, t.conf.slots, w.offset, |w.payload|);
              && w.offset + |w.payload| <= t.rcv.buf.Window()
              && (r.Some? ==> r.value.1 <= t.rcv.buf.Window())
              && (w.offset == 0 ==> r.Some?)
  {
    ReachableInv(m, rx, tx, slots, events, t);
    AckLenFits(m, t.state, t.snd, s);
    if CheckWindow(m, t.rcv, s).Inside? {
      var w := CheckWindow(m, t.rcv, s);
      CheckWindowFits(m, t.rcv, s, t.conf.slots);
      ContigFits(m, t.rcv, t.conf.slots, |w.payload|, w.offset);
      AssemblerSpec.AddThenRemoveFrontMeaning(t.rcv.asm, t.conf.slots, w.offset, |w.payload|);
    }
  }

  /** In every run the octets to transmit lie in the transmit buffer. */
  lemma DispatchInDomain(m: Arith, rx: Ring, tx: Ring, slots: nat, events: seq<Event>, t: Tcb, cx: Context)
    requires Reachable(m, rx, tx, slots, events, t) && CarriesData(t.state)
    ensures Diff(m, t.snd.nxt, t.snd.una) >= 0
    ensures var p, offset := DataPayload(m, t, cx), Dist(m, t.snd.nxt, t.snd.una);
            p != [] ==> offset + |p| <= t.snd.buf.len
  {
    ReachableInv(m, rx, tx, slots, events, t);
    DataPayloadFits(m, t, cx);
  }

  // ----- the state that never comes to rest

  /** An acknowledgement of everything and the FIN, with the window still closed. */
  ghost predicate FinalAck(m: Arith, t: Tcb, s: Segment) {
    && SegmentOk(m, s) && Accepts(t, s) && s.control == NoFlag && s.payload == [] && s.win == 0
    && s.seqNo == t.rcv.Next(m) && s.ack == Some(Add(m, t.snd.una, t.snd.buf.len + 1))
  }

  lemma FinalAckKept(m: Arith, t: Tcb, s: Segment)
    requires Inv(m, t) && t.state == FinWait1 && FinalAck(m, t, s)
    ensures CheckAck(m, t.state, t.snd, s) == AckAccept && CheckWindow(m, t.rcv, s) == Inside([], 0)
    ensures AnalyseAck(m, t.state, t.snd, s).ofFin && AnalyseAck(m, t.state, t.snd, s).len == t.snd.buf.len
  {
    WindowEdge(m, t.rcv, t.conf.slots);
    WindowTest(m, t.rcv.Next(m), t.rcv.buf.Window(), s.seqNo, 0);
    OverlapIsIntersection(m, t.rcv.Next(m), t.rcv.buf.Window(), s.seqNo, 0);
  }

  /**
    FIN-WAIT-1 with the zero-window-probe timer armed turns into FIN-WAIT-2 with that timer still armed
    when the peer acknowledges the FIN and keeps its window closed; once the timer is due, polling never
    comes to rest.
   */
  lemma StuckArises(m: Arith, t: Tcb, cx: Context, s: Segment, later: Context)
    requires Inv(m, t) && t.state == FinWait1 && t.timer.ZeroWindowProbe? && t.conf.timeout.None? && FinalAck(m, t, s)
    requires later.now >= t.timer.expiresAt
    ensures var t' := Process(m, t, cx, s).0;
            t'.state == FinWait2 && t'.timer == t.timer && Inv(m, t') && Stuck(t', later.now)
    ensures forall n: nat :: !Resting(m, later)(Loops.Iterate(Poll(m, later), Process(m, t, cx, s).0, n))
  {
    var t' := Process(m, t, cx, s).0;
    FinalAckKept(m, t, s);
    StuckAdvance(m, t, cx, s);
    AdvanceInv(m, t, cx, s);
    assert t' == Advance(m, t, cx, s).t;
    forall n: nat
      ensures !Resting(m, later)(Loops.Iterate(Poll(m, later), t', n))
    {
      StuckForever(m, t', later, n);
    }
  }

  lemma StuckAdvance(m: Arith, t: Tcb, cx: Context, s: Segment)
    requires Inv(m, t) && t.state == FinWait1 && t.timer.ZeroWindowProbe? && FinalAck(m, t, s)
    ensures var r := Advance(m, t, cx, s); r.Go? && r.t.state == FinWait2 && r.t.timer == t.timer && r.t.conf == t.conf
  {
    FinalAckKept(m, t, s);
    AdvanceShape(m, t, cx, s);
    NoFastRetransmit(m, t.state, t.snd, s);
    ShlMonotone(0, 0, if t.snd.winScale.None? then 0 else t.snd.winScale.value);
  }
}
