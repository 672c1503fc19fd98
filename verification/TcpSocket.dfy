/**
  The socket as an object. It holds the ring buffers, the range tracker and the round-trip estimator as the
  program does, and `process`, `dispatch` and the calls of the application update it step by step, with the
  program's 32-bit sequence arithmetic. `View` is the value that the object stands for. The assertions in
  the bodies are those of the program, and none of them can fail.
 */
module TcpSocket {
  import opened Options
  import opened Octets
  import opened Shifts
  import opened Polling
  import opened SeqNumber
  import opened Timers
  import opened RingSpec
  import opened TcpModel
  import opened TcpInvariant
  import opened TcpCalls
  import opened RingBufferArray
  import opened AssemblerArray
  import opened RttBounds
  import TcpPolling
  import TcpArrival
  import TcpSending
  import A = AssemblerSpec

  /** No round trip that is measured takes this many milliseconds; the estimator's 32-bit steps rest on it. */
  const TRIP_LIMIT: nat := 0x1fff_ffff

  /** What is kept about the direction to the peer, besides the transmit buffer. */
  datatype SendVars = SendVars(una: int, nxt: int, winLen: nat, winScale: Option<nat>, mss: nat,
                               lastRxAck: Option<int>, dupAcks: nat)

  /** What is kept about the direction from the peer, besides the receive buffer and the tracker. */
  datatype RecvVars = RecvVars(start: int, fin: bool, lastAck: Option<int>, lastWin: nat, shift: nat,
                               ackTimer: AckDelayTimer)

  datatype Settings = Settings(timeout: Option<nat>, keepAlive: Option<nat>, ackDelay: Option<nat>, nagle: bool)

  class Socket {
    var state: State
    var tuple: Option<Tuple>
    var listenEndpoint: ListenEndpoint
    var timer: Timer
    const rtte: RttEstimator
    var remoteLastTs: Option<int>
    var challengeAckTimer: int
    const txBuffer: RingBuffer
    var snd: SendVars
    const rxBuffer: RingBuffer
    const assembler: Assembler
    var rcv: RecvVars
    var settings: Settings

    /** The parts are in order, and the two buffers share nothing. */
    ghost predicate Parts()
      reads this, rtte, txBuffer, rxBuffer, assembler, assembler.contigs
    {
      && txBuffer.Valid() && rxBuffer.Valid() && assembler.Valid()
      && txBuffer != rxBuffer && txBuffer.storage != rxBuffer.storage
      && Bounded(rtte.View(), TRIP_LIMIT)
    }

    ghost function SendView(): SendHalf
      requires txBuffer.Valid()
      reads this, txBuffer, txBuffer.storage
    {
      SendHalf(txBuffer.View(), snd.una, snd.nxt, snd.winLen, snd.winScale, snd.mss, snd.lastRxAck, snd.dupAcks)
    }

    ghost function RecvView(): RecvHalf
      requires rxBuffer.Valid() && assembler.Valid()
      reads this, rxBuffer, rxBuffer.storage, assembler, assembler.contigs
    {
      RecvHalf(rxBuffer.View(), assembler.List(), rcv.start, rcv.fin, rcv.lastAck, rcv.lastWin, rcv.shift, rcv.ackTimer)
    }

    /** The socket as a value. */
    ghost function View(): Tcb
      requires Parts()
      reads this, rtte, txBuffer, txBuffer.storage, rxBuffer, rxBuffer.storage, assembler, assembler.contigs
    {
      Tcb(state, tuple, listenEndpoint, timer, rtte.View(), remoteLastTs, challengeAckTimer, SendView(), RecvView(),
          Config(assembler.contigs.Length, settings.timeout, settings.keepAlive, settings.ackDelay, settings.nagle))
    }

    ghost predicate Valid()
      reads this, rtte, txBuffer, txBuffer.storage, rxBuffer, rxBuffer.storage, assembler, assembler.contigs
    {
      Parts() && Inv(Wrapped, View())
    }

    constructor (rxCapacity: nat, txCapacity: nat, slots: nat)
      requires rxCapacity <= RX_LIMIT && txCapacity <= TX_LIMIT && slots > 0
      ensures Valid() && fresh({rtte, txBuffer, txBuffer.storage, rxBuffer, rxBuffer.storage, assembler,
                                assembler.contigs})
      ensures state == Closed && rxBuffer.storage.Length == rxCapacity && txBuffer.storage.Length == txCapacity
      ensures View() == NewSocket(rxBuffer.View(), txBuffer.View(), slots)
    {
      state, tuple, listenEndpoint, timer := Closed, None, ListenEndpoint(None, 0), Idle(None);
      rtte := new RttEstimator();
      remoteLastTs, challengeAckTimer := None, 0;
      txBuffer := new RingBuffer(txCapacity);
      snd := SendVars(0, 0, 0, None, DEFAULT_MSS, None, 0);
      rxBuffer := new RingBuffer(rxCapacity);
      assembler := new Assembler(slots);
      rcv := RecvVars(0, false, None, 0, DefaultShift(rxCapacity), AckIdle);
      settings := Settings(None, None, Some(ACK_DELAY_DEFAULT), true);
      new;
      NewSocketInv(Wrapped, rxBuffer.View(), txBuffer.View(), slots);
    }

    method ResetFields()
      requires Parts()
      modifies this, rtte, txBuffer, rxBuffer, assembler, assembler.contigs
      ensures Parts() && View() == Reset(old(View()))
    {
      ClearParts();
      state, timer := Closed, Idle(None);
      listenEndpoint, tuple := ListenEndpoint(None, 0), None;
      snd := SendVars(0, 0, 0, None, DEFAULT_MSS, snd.lastRxAck, snd.dupAcks);
      rcv := RecvVars(0, false, None, 0, DefaultShift(rxBuffer.storage.Length), AckIdle);
      remoteLastTs, challengeAckTimer := None, 0;
    }

    method ClearParts()
      requires Parts()
      modifies rtte, txBuffer, rxBuffer, assembler, assembler.contigs
      ensures Parts() && rtte.View() == RTTE_DEFAULT && assembler.List() == []
      ensures txBuffer.View() == old(txBuffer.View()).Clear() && rxBuffer.View() == old(rxBuffer.View()).Clear()
    {
      rtte.Reset();
      assembler.Clear();
      txBuffer.Clear();
      rxBuffer.Clear();
    }

    // ----- the calls of the application

    method Listen(local: ListenEndpoint) returns (ok: bool)
      requires Valid()
      modifies this, rtte, txBuffer, rxBuffer, assembler, assembler.contigs
      ensures Valid() && (View(), ok) == DoListen(old(View()), local)
      ensures ListenMeans(old(View()), local, View(), ok)
    {
      ListenMeaning(Wrapped, View(), local);
      if local.port == 0 {
        return false;
      }
      if IsOpen(state) {
        return state == State.Listen && listenEndpoint == local;
      }
      Await(local);
      ok := true;
    }

    method Await(local: ListenEndpoint)
      requires Parts()
      modifies this, rtte, txBuffer, rxBuffer, assembler, assembler.contigs
      ensures Parts() && View() == Reset(old(View())).(listen := local, state := State.Listen)
    {
      ResetFields();
      listenEndpoint := local;
      state := State.Listen;
    }

    method Connect(endpoints: Tuple, isn: int) returns (ok: bool)
      requires Valid() && InRange(Wrapped, isn)
      modifies this, rtte, txBuffer, rxBuffer, assembler, assembler.contigs
      ensures Valid() && (View(), ok) == DoConnect(old(View()), endpoints, isn)
      ensures ConnectMeans(Wrapped, old(View()), endpoints, isn, View(), ok)
    {
      ghost var t := View();
      if IsOpen(state) {
        ok := false;
      } else if endpoints.remote.port == 0 || endpoints.remote.addr.octets == 0 {
        ok := false;
      } else if endpoints.local.port == 0 || endpoints.local.addr.octets == 0 {
        ok := false;
      } else if endpoints.local.addr.Ipv4? != endpoints.remote.addr.Ipv4? {
        ok := false;
      } else {
        Open(endpoints, isn);
        ok := true;
      }
      assert (View(), ok) == DoConnect(t, endpoints, isn);
      ConnectMeaning(Wrapped, t, endpoints, isn);
    }

    method Open(endpoints: Tuple, isn: int)
      requires Parts()
      modifies this, rtte, txBuffer, rxBuffer, assembler, assembler.contigs
      ensures Parts()
      ensures var r := Reset(old(View()));
              View() == r.(tuple := Some(endpoints), state := SynSent, snd := r.snd.(una := isn, nxt := isn))
    {
      ResetFields();
      tuple := Some(endpoints);
      state := SynSent;
      snd := snd.(una := isn, nxt := isn);
    }

    method Close()
      requires Valid()
      modifies this
      ensures Valid() && View() == DoClose(old(View()))
      ensures CloseMeans(Wrapped, old(View()), View())
    {
      ghost var t := View();
      match state {
        case Listen => state := Closed;
        case SynSent => state := Closed;
        case SynReceived => state := FinWait1;
        case Established => state := FinWait1;
        case CloseWait => state := LastAck;
        case _ =>
      }
      assert View() == DoClose(t);
      CloseMeaning(Wrapped, t);
    }

    method Abort()
      requires Valid()
      modifies this
      ensures Valid() && View() == DoAbort(old(View()))
    {
      CloseCallsInv(Wrapped, View());
      state := Closed;
    }

    method Send(data: seq<byte>) returns (r: Option<nat>)
      requires Valid()
      modifies this, txBuffer, txBuffer.storage
      ensures Valid() && (View(), r) == DoSend(old(View()), data)
      ensures SendMeans(old(View()), data, View(), r)
    {
      ghost var t := View();
      if state != Established && state != CloseWait {
        r := None;
      } else {
        var wasEmpty := txBuffer.length == 0;
        var size := Enqueue(data);
        if size > 0 {
          Talk(wasEmpty);
        }
        r := Some(size);
      }
      assert (View(), r) == DoSend(t, data);
      SendMeaning(Wrapped, t, data);
    }

    /** The connection is no longer quiet, and a closed window must be probed. */
    method Talk(wasEmpty: bool)
      requires Parts()
      modifies this
      ensures Parts()
      ensures var t := old(View());
              View() == t.(lastTs := if wasEmpty then None else t.lastTs,
                           timer := if t.snd.winLen != 0 || !t.timer.Idle? then t.timer
                                    else ZeroWindowProbe(t.rtte.Timeout(), t.rtte.Timeout()))
    {
      if wasEmpty {
        remoteLastTs := None;
      }
      if snd.winLen == 0 && timer.Idle? {
        var delay := rtte.Timeout();
        timer := ZeroWindowProbe(delay, delay);
      }
    }

    method Enqueue(data: seq<byte>) returns (size: nat)
      requires Parts()
      modifies txBuffer, txBuffer.storage
      ensures Parts() && size == Min(|data|, old(View()).snd.buf.Window())
      ensures View() == old(View()).(snd := old(View()).snd.(buf := old(View()).snd.buf.Enqueue(data)))
    {
      size := txBuffer.EnqueueSlice(data);
    }

    method Recv(want: nat) returns (r: Option<seq<byte>>)
      requires Valid()
      modifies this, rxBuffer
      ensures Valid() && (View(), r) == DoRecv(Wrapped, old(View()), want)
      ensures RecvMeans(Wrapped, old(View()), want, View(), r)
    {
      ghost var t := View();
      if !(state == Established || state == FinWait1 || state == FinWait2 || rxBuffer.length > 0) {
        r := None;
      } else {
        var data := rxBuffer.DequeueSlice(want);
        rcv := rcv.(start := Add(Wrapped, rcv.start, |data|));
        r := Some(data);
      }
      assert (View(), r) == DoRecv(Wrapped, t, want);
      RecvMeaning(Wrapped, t, want);
    }

    // ----- process

    /** Whether a segment is for this socket. */
    method IsFor(s: Segment) returns (b: bool)
      requires Valid()
      ensures b == Accepts(View(), s) == TcpArrival.Concerns(View(), s)
    {
      if state == Closed || (state == State.Listen && (s.ack.Some? || s.control == Rst)) {
        b := false;
      } else if tuple.Some? {
        b := s.dst == tuple.value.local && s.src == tuple.value.remote;
      } else {
        var addrOk := listenEndpoint.addr.None? || s.dst.addr == listenEndpoint.addr.value;
        b := addrOk && s.dst.port != 0 && s.dst.port == listenEndpoint.port;
      }
      TcpArrival.AcceptsMeaning(Wrapped, View(), s);
    }

    /** The window to advertise, in units of its scale. */
    method ScaledWindow() returns (win: nat)
      requires Parts()
      ensures win == RecvView().ScaledWindow()
    {
      win := Min(Shr(rxBuffer.storage.Length - rxBuffer.length, rcv.shift), U16_MAX);
    }

    method SendAck(s: Segment) returns (reply: Reply)
      requires Parts()
      modifies this
      ensures Parts() && (View(), reply) == AckReply(Wrapped, old(View()), s)
    {
      var win := ScaledWindow();
      var ack := Some(Add(Wrapped, rcv.start, rxBuffer.length));
      rcv := rcv.(lastAck := ack, lastWin := win);
      reply := Some(BareReply(s).(seqNo := snd.nxt, ack := ack, win := win));
    }

    method SendChallengeAck(cx: Context, s: Segment) returns (reply: Reply)
      requires Parts()
      modifies this
      ensures Parts() && (View(), reply) == ChallengeAck(Wrapped, old(View()), cx, s)
    {
      if cx.now < challengeAckTimer {
        return None;
      }
      challengeAckTimer := cx.now + CHALLENGE_ACK_INTERVAL;
      reply := SendAck(s);
    }

    /** Count the peer's FIN. */
    method CountFin()
      requires Parts()
      modifies this
      ensures Parts() && View() == old(View()).(rcv := TakeFin(Wrapped, old(View()).rcv))
    {
      rcv := rcv.(start := Add(Wrapped, rcv.start, 1), fin := true);
    }

    /** What the peer's SYN says about it. */
    method LearnPeer(s: Segment)
      requires Parts() && s.mss != Some(0)
      modifies this
      ensures Parts()
      ensures var t := old(View());
              View() == t.(snd := OpenSend(t.snd, s, t.snd.una, t.snd.nxt), rcv := OpenRecv(Wrapped, t.rcv, s))
    {
      if s.mss.Some? {
        snd := snd.(mss := s.mss.value);
      }
      rcv := rcv.(start := Add(Wrapped, s.seqNo, 1));
      snd := snd.(winScale := s.scale);
      if snd.winScale.None? {
        rcv := rcv.(shift := 0);
      }
    }

    /** Validate and update the state; false means that the segment goes no further. */
    method ChangeState(cx: Context, s: Segment, control: Control, ofFin: bool) returns (go: bool)
      requires Parts()
      modifies this
      ensures Parts()
      ensures var r := Transition(Wrapped, old(View()), cx, s, control, ofFin);
              go == r.Go? && View() == r.t
    {
      if control == Rst {
        ResetByPeer();
        go := false;
      } else if state == State.Listen || state == SynSent {
        go := OpenConnection(cx, s, control, ofFin);
      } else if control == Fin {
        go := PeerCloses(cx, s, ofFin);
      } else {
        go := Acknowledged(cx, s, control, ofFin);
      }
    }

    /** A reset: back to LISTEN if the socket came from there, else CLOSED. */
    method ResetByPeer()
      requires Parts()
      modifies this
      ensures Parts()
      ensures var t := old(View());
              View() == if t.state == State.Listen then t
                        else if t.state == SynReceived && t.listen.port != 0 then
                          t.(tuple := None, state := State.Listen)
                        else t.(state := Closed, tuple := None)
    {
      if state == SynReceived && listenEndpoint.port != 0 {
        tuple := None;
        state := State.Listen;
      } else if state != State.Listen {
        state := Closed;
        tuple := None;
      }
    }

    /** A SYN in LISTEN or SYN-SENT. */
    method OpenConnection(cx: Context, s: Segment, control: Control, ghost ofFin: bool) returns (go: bool)
      requires Parts() && (state == State.Listen || state == SynSent) && control != Rst
      modifies this
      ensures Parts()
      ensures var r := Transition(Wrapped, old(View()), cx, s, control, ofFin);
              go == r.Go? && View() == r.t
    {
      if control != Syn || s.mss == Some(0) {
        return false;
      }
      LearnPeer(s);
      if state == State.Listen {
        Answer(cx, s);
      } else {
        snd := snd.(nxt := Add(Wrapped, snd.una, 1));
        rcv := rcv.(lastAck := Some(s.seqNo));
        state := if s.ack.Some? then Established else SynReceived;
      }
      go := true;
    }

    /** A SYN in LISTEN is answered on a new connection. */
    method Answer(cx: Context, s: Segment)
      requires Parts()
      modifies this
      ensures Parts()
      ensures var t := old(View());
              View() == t.(tuple := Some(Tuple(s.dst, s.src)), state := SynReceived,
                           timer := ForIdle(cx.now, t.conf.keepAlive),
                           snd := t.snd.(una := cx.isn, nxt := cx.isn))
    {
      tuple := Some(Tuple(s.dst, s.src));
      snd := snd.(una := cx.isn, nxt := cx.isn);
      state := SynReceived;
      timer := ForIdle(cx.now, settings.keepAlive);
    }

    /** A FIN that follows everything received so far. */
    method PeerCloses(cx: Context, s: Segment, ofFin: bool) returns (go: bool)
      requires Parts() && state != State.Listen && state != SynSent
      modifies this
      ensures Parts()
      ensures var r := Transition(Wrapped, old(View()), cx, s, Fin, ofFin);
              go == r.Go? && View() == r.t
    {
      go := true;
      match state {
        case SynReceived => state := CloseWait;
        case Established => state := CloseWait;
        case FinWait1 =>
          if ofFin {
            state := TimeWait;
            timer := ForClose(cx.now);
          } else {
            state := Closing;
          }
        case FinWait2 =>
          state := TimeWait;
          timer := ForClose(cx.now);
        case _ => return false;
      }
      CountFin();
    }

    /** An acknowledgement. */
    method Acknowledged(cx: Context, s: Segment, control: Control, ofFin: bool) returns (go: bool)
      requires Parts() && state != State.Listen && state != SynSent && control != Rst && control != Fin
      modifies this
      ensures Parts()
      ensures var r := Transition(Wrapped, old(View()), cx, s, control, ofFin);
              go == r.Go? && View() == r.t
    {
      if control != NoFlag {
        return false;
      }
      go := true;
      match state {
        case SynReceived => state := Established;
        case Established =>
        case FinWait1 => state := if ofFin then FinWait2 else state;
        case FinWait2 =>
        case Closing =>
          if ofFin {
            state := TimeWait;
            timer := ForClose(cx.now);
          }
        case CloseWait =>
        case LastAck =>
          if ofFin {
            state := Closed;
            tuple := None;
          }
        case _ => go := false;
      }
    }

    /** Drop the octets that were acknowledged. */
    method DropAcked(ackLen: nat)
      requires Parts() && ackLen <= txBuffer.length
      modifies txBuffer
      ensures Parts()
      ensures var t := old(View());
              View() == t.(snd := t.snd.(buf := if ackLen > 0 then t.snd.buf.DequeueAllocated(ackLen) else t.snd.buf))
    {
      if ackLen > 0 {
        assert txBuffer.length >= ackLen;
        txBuffer.DequeueAllocated(ackLen);
      }
    }

    /** Take in the window, drop what was acknowledged, count duplicates and advance. */
    method UpdateSendSide(s: Segment, ackLen: nat) returns (fast: bool)
      requires Parts() && ackLen <= txBuffer.length
      modifies this, txBuffer
      ensures Parts()
      ensures fast == StartsFastRetransmit(Wrapped, old(SendView()), s)
      ensures View() == old(View()).(snd := UpdateSend(Wrapped, old(SendView()), s, ackLen))
    {
      DropAcked(ackLen);
      fast := UpdateSendVars(s);
    }

    method UpdateSendVars(s: Segment) returns (fast: bool)
      requires Parts()
      modifies this
      ensures Parts()
      ensures fast == StartsFastRetransmit(Wrapped, old(SendView()), s)
      ensures View() == old(View()).(snd := UpdateSend(Wrapped, old(SendView()), s, 0))
    {
      var newRemoteWinLen := Shl(s.win, if s.control == Syn || snd.winScale.None? then 0 else snd.winScale.value);
      var isWindowUpdate := newRemoteWinLen != snd.winLen;
      var v := snd.(winLen := newRemoteWinLen);
      fast := false;
      if s.ack.Some? {
        var ack := s.ack.value;
        if v.lastRxAck == Some(ack) && s.payload == [] && Lt(Wrapped, ack, v.nxt) && !isWindowUpdate {
          v := v.(dupAcks := Min(v.dupAcks + 1, 255));
          fast := v.dupAcks == 3;
        } else {
          v := v.(dupAcks := 0, lastRxAck := Some(ack));
        }
        v := v.(una := ack);
        if Lt(Wrapped, v.nxt, v.una) {
          v := v.(nxt := v.una);
        }
      }
      snd := v;
    }

    method UpdateTimers(cx: Context, a: AckInfo, fast: bool)
      requires Parts()
      modifies this`timer
      ensures Parts()
      ensures var t := old(View());
              View() == t.(timer := UpdateTimer(t.timer, fast, a, cx.now, t.conf.keepAlive, t.rtte.Timeout(),
                                                t.snd.winLen, t.snd.buf.len == 0))
    {
      var next := if fast then FastRetransmit else timer;
      if next.IsRetransmit() {
        if a.all {
          next := ForIdle(cx.now, settings.keepAlive);
        } else if a.len > 0 {
          next := next.SetForRetransmit(cx.now, rtte.Timeout());
        }
      } else if next.Idle? {
        next := ForIdle(cx.now, settings.keepAlive);
      }
      if snd.winLen == 0 && txBuffer.length != 0 && (next.Idle? || a.len > 0) {
        next := ZeroWindowProbe(cx.now + rtte.Timeout(), rtte.Timeout());
      }
      if snd.winLen != 0 && next.ZeroWindowProbe? {
        next := ForIdle(cx.now, settings.keepAlive);
      }
      timer := next;
    }

    method UpdateRemoteState(cx: Context, s: Segment, a: AckInfo)
      requires Parts() && a.len <= txBuffer.length
      modifies this, txBuffer
      ensures Parts() && View() == UpdateRemote(Wrapped, old(View()), cx, s, a)
    {
      remoteLastTs := Some(cx.now);
      var fast := UpdateSendSide(s, a.len);
      UpdateTimers(cx, a, fast);
    }

    /** Record the range and put the octets into the free part of the buffer; refused when the tracker has no slot. */
    method StoreOctets(payload: seq<byte>, offset: nat) returns (ok: bool)
      requires Parts() && RecvOk(Wrapped, RecvView(), assembler.contigs.Length)
      requires offset + |payload| <= rxBuffer.storage.Length - rxBuffer.length
      modifies rxBuffer, rxBuffer.storage, assembler, assembler.contigs
      ensures Parts()
      ensures match Receive(old(RecvView()), assembler.contigs.Length, payload, offset)
              case None => !ok && View() == old(View())
              case Some(r) => ok && View() == old(View()).(rcv := r)
    {
      ContigFits(Wrapped, RecvView(), assembler.contigs.Length, |payload|, offset);
      var contigLen := Track(offset, |payload|);
      if contigLen.None? {
        return false;
      }
      Fill(payload, offset, contigLen.value);
      ok := true;
    }

    /** Record the range, and take off what is contiguous at the front. */
    method Track(offset: nat, size: nat) returns (contigLen: Option<nat>)
      requires Parts()
      modifies assembler, assembler.contigs
      ensures Parts()
      ensures match A.AddThenRemoveFront(old(assembler.List()), assembler.contigs.Length, offset, size)
              case None => contigLen.None? && View() == old(View())
              case Some(p) => contigLen == Some(p.1) && View() == old(View()).(rcv := old(RecvView()).(asm := p.0))
    {
      contigLen := assembler.AddThenRemoveFront(offset, size);
    }

    /** Put the octets into the free part of the buffer and count the first `n` free octets as received. */
    method Fill(payload: seq<byte>, offset: nat, n: nat)
      requires Parts() && offset + |payload| <= rxBuffer.storage.Length - rxBuffer.length
      requires n <= rxBuffer.storage.Length - rxBuffer.length
      modifies rxBuffer, rxBuffer.storage
      ensures Parts()
      ensures var rcv := old(RecvView());
              View() == old(View()).(rcv := rcv.(buf :=
                                                 rcv.buf.WriteUnallocated(offset, payload).EnqueueUnallocated(n)))
    {
      var written := rxBuffer.WriteUnallocated(offset, payload);
      assert written == |payload|;
      rxBuffer.EnqueueUnallocated(n);
    }

    /** Whether there is something to acknowledge. */
    method AckOwed() returns (b: bool)
      requires Parts()
      ensures b == AckToTransmit(Wrapped, RecvView())
    {
      b := rcv.lastAck.Some? && Lt(Wrapped, rcv.lastAck.value, Add(Wrapped, rcv.start, rxBuffer.length));
    }

    /** Delay the acknowledgement, or not any longer when a whole segment is waiting for it. */
    method DelayAck(cx: Context)
      requires Parts()
      modifies this
      ensures Parts()
      ensures var t := old(View());
              View() == t.(rcv := t.rcv.(ackTimer :=
                                         UpdateAckTimer(Wrapped, t.rcv, t.snd.mss, t.conf.ackDelay, cx.now)))
    {
      var owed := AckOwed();
      if settings.ackDelay.Some? && owed {
        if rcv.ackTimer.AckIdle? {
          rcv := rcv.(ackTimer := AckWaiting(cx.now + settings.ackDelay.value));
        } else if rcv.ackTimer.AckWaiting?
               && Lt(Wrapped, Add(Wrapped, rcv.lastAck.value, snd.mss), Add(Wrapped, rcv.start, rxBuffer.length)) {
          rcv := rcv.(ackTimer := AckImmediate);
        }
      }
    }

    /** Put the payload into the receive buffer and decide about the acknowledgement. */
    method Store(cx: Context, s: Segment, payload: seq<byte>, offset: nat) returns (reply: Reply)
      requires Parts() && RecvOk(Wrapped, RecvView(), assembler.contigs.Length)
      requires offset + |payload| <= rxBuffer.storage.Length - rxBuffer.length
      modifies this, rxBuffer, rxBuffer.storage, assembler, assembler.contigs
      ensures Parts() && (View(), reply) == StorePayload(Wrapped, old(View()), cx, s, payload, offset)
    {
      var assemblerWasEmpty := assembler.IsEmpty();
      var ok := StoreOctets(payload, offset);
      if !ok {
        return None;
      }
      DelayAck(cx);
      var assemblerIsEmpty := assembler.IsEmpty();
      if !assemblerIsEmpty || !assemblerWasEmpty {
        reply := SendAck(s);
      } else {
        reply := None;
      }
    }

    /** What the acknowledgement covers: octets, our FIN, everything sent. */
    method Analyse(s: Segment) returns (a: AckInfo)
      requires Parts()
      ensures a == AnalyseAck(Wrapped, state, SendView(), s)
    {
      a := AckInfo(0, false, false);
      if s.control != Rst && s.ack.Some? {
        var first := Add(Wrapped, snd.una, if state == SynSent || state == SynReceived then 1 else 0);
        if !Lt(Wrapped, s.ack.value, first) {
          var n := Dist(Wrapped, s.ack.value, first);
          var ofFin := (state == FinWait1 || state == LastAck || state == Closing) && txBuffer.length + 1 == n;
          a := AckInfo(if ofFin then n - 1 else n, ofFin, Le(Wrapped, snd.nxt, s.ack.value));
        }
      }
    }

    /** The round trip that the segment completes, if any, is one that the estimator can take. */
    ghost predicate ShortTrip(now: int)
      reads this, rtte
    {
      rtte.timestamp.Some? ==> Millis(now, rtte.timestamp.value.0) <= TRIP_LIMIT
    }

    method MeasureTrip(cx: Context, s: Segment)
      requires Parts() && ShortTrip(cx.now)
      modifies rtte
      ensures Parts() && View() == SampleRtt(Wrapped, old(View()), cx, s)
    {
      if s.control != Rst && s.ack.Some? {
        rtte.OnAck(cx.now, s.ack.value, TRIP_LIMIT);
      }
    }

    /** The part of `process` that follows the acceptance tests. */
    method Accepted(cx: Context, s: Segment, payload: seq<byte>, offset: nat) returns (reply: Reply)
      requires Valid() && AcceptedSegment(View(), s, payload, offset) && ShortTrip(cx.now)
      modifies this, rtte, txBuffer, rxBuffer, rxBuffer.storage, assembler, assembler.contigs
      ensures Parts() && (View(), reply) == ProcessAccepted(Wrapped, old(View()), cx, s, payload, offset)
    {
      StoreReady(View(), cx, s, payload, offset);
      var go := GoOn(cx, s);
      if !go || payload == [] {
        return None;
      }
      reply := Store(cx, s, payload, offset);
    }

    /** Everything an acceptable segment does except storing its payload; false means that it goes no further. */
    method GoOn(cx: Context, s: Segment) returns (go: bool)
      requires Parts() && ShortTrip(cx.now) && AckedFits(View(), cx, s)
      modifies this, rtte, txBuffer
      ensures Parts()
      ensures var r := Advance(Wrapped, old(View()), cx, s); go == r.Go? && View() == r.t
    {
      var a := Analyse(s);
      var windowStart := Add(Wrapped, rcv.start, rxBuffer.length);
      var late := s.control == Fin && Lt(Wrapped, windowStart, s.seqNo);
      var control := if s.control == Psh || late then NoFlag else s.control;
      MeasureTrip(cx, s);
      go := ChangeState(cx, s, control, a.ofFin);
      if go {
        UpdateRemoteState(cx, s, a);
      }
    }

    /** Whether the acknowledgement number is acceptable, and if not, what to do about it. */
    method TestAck(s: Segment) returns (v: AckVerdict)
      requires Parts() && (state == State.Listen ==> s.ack.None?)
      ensures v == CheckAck(Wrapped, state, SendView(), s)
    {
      if state == SynSent {
        v := TestSynSent(s);
      } else if s.control == Rst || state == State.Listen {
        v := AckAccept;
      } else if s.ack.None? {
        v := AckIgnore;
      } else if state == SynReceived {
        v := if s.ack.value == Add(Wrapped, snd.una, 1) then AckAccept else AckReset;
      } else {
        var sentFin := state == FinWait1 || state == LastAck || state == Closing;
        var ackMax := Add(Wrapped, snd.una, txBuffer.length + (if sentFin then 1 else 0));
        if Lt(Wrapped, s.ack.value, snd.una) {
          v := AckIgnore;
        } else if Lt(Wrapped, ackMax, s.ack.value) {
          v := AckChallenge;
        } else {
          v := AckAccept;
        }
      }
    }

    method TestSynSent(s: Segment) returns (v: AckVerdict)
      requires Parts() && state == SynSent
      ensures v == CheckAck(Wrapped, state, SendView(), s)
    {
      var right := s.ack == Some(Add(Wrapped, snd.una, 1));
      if s.control == Rst {
        v := if right then AckAccept else AckIgnore;
      } else if s.control == Syn {
        v := if right || s.ack.None? then AckAccept else AckReset;
      } else {
        v := if s.control == NoFlag && s.ack.Some? && !right then AckReset else AckIgnore;
      }
    }

    /** The part of the payload inside the window, and where it goes; `None` when the segment is not acceptable. */
    method TestWindow(s: Segment) returns (r: Option<(seq<byte>, nat)>)
      requires Parts() && RecvOk(Wrapped, RecvView(), assembler.contigs.Length) && SegmentOk(Wrapped, s)
      ensures r.None? <==> CheckWindow(Wrapped, RecvView(), s).Outside?
      ensures r.Some? ==> CheckWindow(Wrapped, RecvView(), s) == Inside(r.value.0, r.value.1)
      ensures r.Some? ==> r.value.1 + |r.value.0| <= rxBuffer.storage.Length - rxBuffer.length
    {
      var windowStart := Add(Wrapped, rcv.start, rxBuffer.length);
      var windowEnd := Add(Wrapped, rcv.start, rxBuffer.storage.Length);
      WindowEdge(Wrapped, RecvView(), assembler.contigs.Length);
      CheckWindowShape(RecvView(), s, windowStart, windowEnd);
      r := KeptPart(windowStart, windowEnd, s, rxBuffer.storage.Length - rxBuffer.length);
    }

    static method KeptPart(windowStart: int, windowEnd: int, s: Segment, ghost w: nat)
        returns (r: Option<(seq<byte>, nat)>)
      requires InRange(Wrapped, windowStart) && w <= RX_LIMIT && windowEnd == Add(Wrapped, windowStart, w)
               && SegmentOk(Wrapped, s)
      ensures KeptFrom(windowStart, windowEnd, s) == if r.None? then Outside else Inside(r.value.0, r.value.1)
      ensures r.Some? ==> r.value.1 + |r.value.0| <= w
    {
      var segmentEnd := Add(Wrapped, s.seqNo, |s.payload|);
      var inside := TestOverlap(windowStart, windowEnd, s.seqNo, segmentEnd);
      if !inside {
        return None;
      }
      var overlapStart := SeqMax(Wrapped, windowStart, s.seqNo);
      var overlapEnd := SeqMin(Wrapped, windowEnd, segmentEnd);
      OverlapIsIntersection(Wrapped, windowStart, w, s.seqNo, |s.payload|);
      assert Le(Wrapped, overlapStart, overlapEnd);
      var from, to := Dist(Wrapped, overlapStart, s.seqNo), Dist(Wrapped, overlapEnd, s.seqNo);
      r := Some((s.payload[from..to], Dist(Wrapped, overlapStart, windowStart)));
    }

    static method TestOverlap(windowStart: int, windowEnd: int, segmentStart: int, segmentEnd: int) returns (b: bool)
      ensures b == InWindow(Wrapped, windowStart, windowEnd, segmentStart, segmentEnd)
    {
      if segmentStart == segmentEnd {
        if segmentEnd == Prev(Wrapped, windowStart) {
          b := false;
        } else if windowStart == windowEnd {
          b := windowStart == segmentStart;
        } else {
          b := Le(Wrapped, windowStart, segmentStart) && Lt(Wrapped, segmentStart, windowEnd);
        }
      } else if windowStart == windowEnd {
        b := false;
      } else {
        b := Le(Wrapped, windowStart, segmentStart) && Lt(Wrapped, segmentStart, windowEnd);
        if !b {
          b := Lt(Wrapped, windowStart, segmentEnd) && Le(Wrapped, segmentEnd, windowEnd);
        }
      }
    }

    /** A segment arrives. */
    method Process(cx: Context, s: Segment) returns (reply: Reply)
      requires Valid() && Accepts(View(), s) && SegmentOk(Wrapped, s) && InRange(Wrapped, cx.isn) && ShortTrip(cx.now)
      modifies this, rtte, txBuffer, rxBuffer, rxBuffer.storage, assembler, assembler.contigs
      ensures Valid() && (View(), reply) == TcpModel.Process(Wrapped, old(View()), cx, s)
      ensures TcpArrival.ArrivalMeans(Wrapped, old(View()), cx, s, View(), reply)
    {
      ghost var t := View();
      reply := TakeSegment(cx, s);
      ProcessInv(Wrapped, t, cx, s);
      TcpArrival.ArrivalMeaning(Wrapped, t, cx, s);
    }

    method TakeSegment(cx: Context, s: Segment) returns (reply: Reply)
      requires Valid() && Accepts(View(), s) && SegmentOk(Wrapped, s) && ShortTrip(cx.now)
      modifies this, rtte, txBuffer, rxBuffer, rxBuffer.storage, assembler, assembler.contigs
      ensures Parts() && (View(), reply) == TcpModel.Process(Wrapped, old(View()), cx, s)
    {
      var verdict := TestAck(s);
      if verdict != AckAccept {
        reply := Refuse(cx, s, verdict);
      } else if state == State.Listen || state == SynSent {
        reply := Accepted(cx, s, [], 0);
      } else {
        reply := ProcessSynchronized(cx, s);
      }
    }

    /** The acknowledgement number is not acceptable. */
    method Refuse(cx: Context, s: Segment, verdict: AckVerdict) returns (reply: Reply)
      requires Parts() && verdict == CheckAck(Wrapped, state, SendView(), s) != AckAccept
      modifies this
      ensures Parts() && (View(), reply) == TcpModel.Process(Wrapped, old(View()), cx, s)
    {
      if verdict == AckIgnore {
        reply := None;
      } else if verdict == AckReset {
        reply := Some(RstReply(Wrapped, s));
      } else {
        reply := SendChallengeAck(cx, s);
      }
    }

    method ProcessSynchronized(cx: Context, s: Segment) returns (reply: Reply)
      requires Valid() && SegmentOk(Wrapped, s) && state != Closed && state != State.Listen && state != SynSent
      requires CheckAck(Wrapped, state, SendView(), s) == AckAccept && ShortTrip(cx.now)
      modifies this, rtte, txBuffer, rxBuffer, rxBuffer.storage, assembler, assembler.contigs
      ensures Parts() && (View(), reply) == TcpModel.Process(Wrapped, old(View()), cx, s)
    {
      var kept := TestWindow(s);
      if kept.Some? {
        reply := Accepted(cx, s, kept.value.0, kept.value.1);
      } else {
        if state == TimeWait {
          timer := ForClose(cx.now);
        }
        reply := SendChallengeAck(cx, s);
      }
    }

    // ----- dispatch

    /** Whether there are octets or flags to send now. */
    method HasSequence(cx: Context) returns (b: bool)
      requires Parts() && tuple.Some?
      ensures b == SeqToTransmit(Wrapped, View(), cx)
    {
      var effectiveMss := Min(LocalMss(tuple.value, cx), snd.mss);
      var dataInFlight := snd.nxt != snd.una;
      if (state == SynSent || state == SynReceived) && !dataInFlight {
        return true;
      }
      var maxSendSeq := Add(Wrapped, snd.una, Min(snd.winLen, txBuffer.length));
      var maxSend := Dist(Wrapped, maxSendSeq, snd.nxt);
      var canSend := maxSend != 0;
      var canSendFull := maxSend >= effectiveMss;
      var wantFin := state == FinWait1 || state == Closing || state == LastAck;
      if settings.nagle && dataInFlight && !canSendFull && !wantFin {
        canSend := false;
      }
      var canFin := wantFin && snd.nxt == Add(Wrapped, snd.una, txBuffer.length);
      b := canSend || canFin;
    }

    /** Whether the window has grown enough to be told; the subtraction must be in its domain. */
    method WindowOwed() returns (b: bool)
      requires Parts() && (TellsWindow(state) ==> EdgeHolds(Wrapped, RecvView()))
      ensures b == WindowToUpdate(Wrapped, View())
    {
      b := false;
      if TellsWindow(state) && rcv.lastAck.Some? {
        var newWin := ScaledWindow();
        var nextAck := Add(Wrapped, rcv.start, rxBuffer.length);
        var edge := Add(Wrapped, rcv.lastAck.value, Shl(rcv.lastWin, rcv.shift));
        assert Diff(Wrapped, edge, nextAck) >= 0;
        var lastWin := Min(Shr(Dist(Wrapped, edge, nextAck), rcv.shift), U16_MAX);
        b := newWin > 0 && newWin / 2 >= lastWin;
      }
    }

    /** The reasons to send, in the order in which the program looks at them. */
    method WantsNow(cx: Context) returns (b: bool)
      requires Parts() && tuple.Some?
      requires || SeqToTransmit(Wrapped, View(), cx)
               || (AckToTransmit(Wrapped, RecvView()) && DelayedAckExpired(rcv.ackTimer, cx.now))
               || (TellsWindow(state) ==> EdgeHolds(Wrapped, RecvView()))
      ensures b == WantsToSend(Wrapped, View(), cx)
    {
      b := HasSequence(cx);
      if b {
        return;
      }
      b := AckOwed();
      if b && (rcv.ackTimer.AckWaiting? ==> rcv.ackTimer.at <= cx.now) {
        return;
      }
      b := WindowOwed();
      if !b {
        b := state == Closed || timer.ShouldKeepAlive(cx.now) || timer.ShouldZeroWindowProbe(cx.now);
      }
    }

    /** Timestamp, connection timeout, retransmission. */
    method CheckTimers(cx: Context)
      requires Parts() && tuple.Some?
      modifies this, rtte
      ensures Parts() && View() == BeforeDispatch(Wrapped, old(View()), cx)
    {
      if remoteLastTs.None? {
        remoteLastTs := Some(cx.now);
      }
      if settings.timeout.Some? && cx.now >= remoteLastTs.value + settings.timeout.value {
        state := Closed;
        return;
      }
      var hasSequence := HasSequence(cx);
      if !hasSequence && timer.ShouldRetransmit(cx.now) {
        snd := snd.(nxt := snd.una);
        timer := ForIdle(cx.now, settings.keepAlive);
        rtte.OnRetransmit(TRIP_LIMIT);
      }
    }

    /** The segment to send, and whether it is a zero-window probe or a keep-alive. */
    method BuildSegment(cx: Context, endpoints: Tuple) returns (s: Segment, probe: bool, keepAlivePacket: bool)
      requires Valid() && tuple == Some(endpoints) && state != State.Listen
      ensures s == OutgoingSegment(Wrapped, View(), endpoints, cx)
      ensures probe == IsProbe(Wrapped, View(), cx.now)
              && keepAlivePacket == IsKeepAlive(Wrapped, View(), endpoints, cx)
    {
      s, probe := Draft(cx, endpoints);
      keepAlivePacket := timer.ShouldKeepAlive(cx.now) && s.IsEmpty();
      if keepAlivePacket {
        s := s.(seqNo := Prev(Wrapped, s.seqNo), payload := [0]);
      }
    }

    /** The segment before the keep-alive substitution. */
    method Draft(cx: Context, endpoints: Tuple) returns (s: Segment, probe: bool)
      requires Valid() && tuple == Some(endpoints) && state != State.Listen
      ensures s == DraftSegment(Wrapped, View(), endpoints, cx) && probe == IsProbe(Wrapped, View(), cx.now)
    {
      var win := ScaledWindow();
      var ack := Add(Wrapped, rcv.start, rxBuffer.length);
      s := Segment(endpoints.local, endpoints.remote, NoFlag, snd.nxt, Some(ack), win, None, None, []);
      probe := false;
      if state == Closed {
        s := s.(control := Rst);
      } else if state == SynSent || state == SynReceived {
        var freeSpace := rxBuffer.storage.Length - rxBuffer.length;
        s := s.(control := Syn, seqNo := snd.una, win := Min(freeSpace, U16_MAX),
                mss := Some(LocalMss(endpoints, cx) % 0x1_0000));
        if state == SynSent {
          s := s.(ack := None, scale := Some(rcv.shift));
        } else {
          s := s.(scale := if snd.winScale.Some? then Some(rcv.shift) else None);
        }
      } else if CarriesData(state) {
        s, probe := AttachData(cx, endpoints, s);
      }
    }

    /** As much data as the peer's window, its segment size and ours allow, with the flag that goes with it. */
    method AttachData(cx: Context, endpoints: Tuple, bare: Segment) returns (s: Segment, probe: bool)
      requires Valid() && tuple == Some(endpoints) && CarriesData(state) && bare.control == NoFlag
      ensures var payload := DataPayload(Wrapped, View(), cx);
              s == bare.(payload := payload, control := DataControl(Wrapped, View(), payload))
      ensures probe == IsProbe(Wrapped, View(), cx.now)
    {
      probe := false;
      var winRightEdge := Add(Wrapped, snd.una, snd.winLen);
      var winLimit := Dist(Wrapped, winRightEdge, snd.nxt);
      if winLimit == 0 && timer.ShouldZeroWindowProbe(cx.now) {
        winLimit := 1;
        probe := true;
      }
      var size := Min(Min(winLimit, snd.mss), LocalMss(endpoints, cx));
      DataPayloadFits(Wrapped, View(), cx);
      assert Diff(Wrapped, snd.nxt, snd.una) >= 0;
      var offset := Dist(Wrapped, snd.nxt, snd.una);
      var payload := txBuffer.GetAllocated(offset, size);
      s := bare.(payload := payload);
      if offset + |payload| == txBuffer.length {
        if state == FinWait1 || state == LastAck || state == Closing {
          s := s.(control := Fin);
        } else if payload != [] {
          s := s.(control := Psh);
        }
      }
    }

    /** The segment has gone out. */
    method Sent(cx: Context, endpoints: Tuple, s: Segment, probe: bool, keepAlivePacket: bool)
      requires Parts() && tuple.Some?
      requires probe == IsProbe(Wrapped, View(), cx.now)
               && keepAlivePacket == IsKeepAlive(Wrapped, View(), endpoints, cx)
      modifies this, rtte
      ensures Parts() && View() == AfterSend(Wrapped, old(View()), endpoints, cx, s)
    {
      timer := timer.RewindKeepAlive(cx.now, settings.keepAlive);
      rcv := rcv.(ackTimer := AckIdle);
      if probe {
        timer := timer.RewindZeroWindowProbe(cx.now);
      } else if !keepAlivePacket {
        Advanced(cx, s);
      }
    }

    /** An ordinary segment has gone out. */
    method Advanced(cx: Context, s: Segment)
      requires Parts()
      modifies this, rtte
      ensures Parts() && View() == AfterSegment(Wrapped, old(View()), cx, s)
    {
      var end := Add(Wrapped, s.seqNo, s.Len());
      if s.Len() > 0 {
        StartTrip(cx, end);
      }
      snd := snd.(nxt := end);
      rcv := rcv.(lastAck := s.ack, lastWin := s.win);
      if state == Closed {
        tuple := None;
      }
    }

    /** Something that takes up sequence space has gone out: time it, and start the retransmission timer. */
    method StartTrip(cx: Context, end: int)
      requires Parts()
      modifies this, rtte
      ensures Parts()
      ensures var t := old(View());
              View() == t.(rtte := t.rtte.OnSend(Wrapped, cx.now, end),
                           timer := if t.timer.IsRetransmit() then t.timer
                                    else t.timer.SetForRetransmit(cx.now, t.rtte.Timeout()))
    {
      if !timer.IsRetransmit() {
        timer := timer.SetForRetransmit(cx.now, rtte.Timeout());
      }
      rtte.OnSend(cx.now, end);
    }

    /** Send one segment if there is a reason to; `emit` says whether the device takes it. */
    method Dispatch(cx: Context, emit: bool) returns (reply: Reply)
      requires Valid() && DispatchSafe(Wrapped, View(), cx)
      modifies this, rtte, txBuffer, rxBuffer, assembler, assembler.contigs
      ensures Valid() && (View(), reply) == TcpModel.Dispatch(Wrapped, old(View()), cx, emit)
      ensures TcpSending.PollMeans(Wrapped, old(View()), cx, emit, View(), reply)
      ensures reply.Some? ==> TcpSending.Fits(reply.value, old(snd.mss), cx)
    {
      ghost var t := View();
      reply := SendDue(cx, emit);
      DispatchInv(Wrapped, t, cx, emit);
      TcpSending.PollMeaning(Wrapped, t, cx, emit);
      if reply.Some? {
        TcpSending.SegmentFits(Wrapped, t, cx, emit);
      }
    }

    method SendDue(cx: Context, emit: bool) returns (reply: Reply)
      requires Valid() && DispatchSafe(Wrapped, View(), cx)
      modifies this, rtte, txBuffer, rxBuffer, assembler, assembler.contigs
      ensures Parts() && (View(), reply) == TcpModel.Dispatch(Wrapped, old(View()), cx, emit)
    {
      if tuple.None? {
        return None;
      }
      BeforeDispatchInv(Wrapped, View(), cx);
      CheckTimers(cx);
      reply := DispatchNow(cx, emit);
    }

    method DispatchNow(cx: Context, emit: bool) returns (reply: Reply)
      requires Valid() && tuple.Some?
      requires || SeqToTransmit(Wrapped, View(), cx)
               || (AckToTransmit(Wrapped, RecvView()) && DelayedAckExpired(rcv.ackTimer, cx.now))
               || (TellsWindow(state) ==> EdgeHolds(Wrapped, RecvView()))
      modifies this, rtte, txBuffer, rxBuffer, assembler, assembler.contigs
      ensures Parts()
      ensures var t := old(View());
              (View(), reply) ==
              if WantsToSend(Wrapped, t, cx) then
                if t.state == State.Listen || !emit then (t, None)
                else
                  var s := OutgoingSegment(Wrapped, t, t.tuple.value, cx);
                  (AfterSend(Wrapped, t, t.tuple.value, cx, s), Some(s))
              else if t.timer.ShouldClose(cx.now) then (Reset(t), None)
              else (t, None)
    {
      var endpoints := tuple.value;
      var wants := WantsNow(cx);
      reply := None;
      if wants {
        if state != State.Listen && emit {
          var s, probe, keepAlivePacket := BuildSegment(cx, endpoints);
          Sent(cx, endpoints, s, probe, keepAlivePacket);
          reply := Some(s);
        }
      } else if timer.ShouldClose(cx.now) {
        ResetFields();
      }
    }

    /**
      When to call `Dispatch` next, if nothing else happens: at every instant before that it would do nothing, and
      at every instant from then on it does something.
     */
    method NextPoll(cx: Context) returns (p: PollTime)
      requires Valid() && PollSafe(Wrapped, View(), cx)
      ensures p == PollAt(Wrapped, View(), cx)
      ensures forall later: Context :: later.ipMtu == cx.ipMtu ==>
                (LaterThan(p, later.now) <==> TcpModel.Dispatch(Wrapped, View(), later, true) == (View(), None))
    {
      p := Deadline(cx);
      ghost var t := View();
      forall later: Context | later.ipMtu == cx.ipMtu
        ensures LaterThan(p, later.now) <==> TcpModel.Dispatch(Wrapped, t, later, true) == (t, None)
      {
        TcpPolling.PollAtLasts(Wrapped, t, cx, later);
        TcpPolling.PollAtIsExact(Wrapped, t, later);
      }
    }

    method Deadline(cx: Context) returns (p: PollTime)
      requires Parts() && PollSafe(Wrapped, View(), cx)
      ensures p == PollAt(Wrapped, View(), cx)
    {
      if tuple.None? {
        return Ingress;
      }
      if remoteLastTs.None? || state == Closed {
        return Now;
      }
      var hasSequence := HasSequence(cx);
      if hasSequence {
        return Now;
      }
      var windowOwed := WindowOwed();
      if windowOwed {
        return Now;
      }
      p := FirstTimer();
    }

    /** The earliest of the timers. */
    method FirstTimer() returns (p: PollTime)
      requires Parts() && remoteLastTs.Some?
      ensures var giveUp := if settings.timeout.None? then Ingress
                            else Time(remoteLastTs.value + settings.timeout.value);
              p == Earliest(Earliest(timer.PollAt(), giveUp), AckPollAt(Wrapped, RecvView()))
    {
      p := timer.PollAt();
      if settings.timeout.Some? {
        p := Earliest(p, Time(remoteLastTs.value + settings.timeout.value));
      }
      var ackOwed := AckOwed();
      if ackOwed {
        p := Earliest(p, if rcv.ackTimer.AckWaiting? then Time(rcv.ackTimer.at) else Now);
      }
    }
  }

  /** The acceptance test and the kept slice, between two edges. */
  ghost function KeptFrom(windowStart: int, windowEnd: int, s: Segment): WindowVerdict {
    var segmentEnd := Add(Wrapped, s.seqNo, |s.payload|);
    if InWindow(Wrapped, windowStart, windowEnd, s.seqNo, segmentEnd) then
      var start, end := SeqMax(Wrapped, windowStart, s.seqNo), SeqMin(Wrapped, windowEnd, segmentEnd);
      Inside(Slice(s.payload, Dist(Wrapped, start, s.seqNo), Dist(Wrapped, end, s.seqNo)),
             Dist(Wrapped, start, windowStart))
    else Outside
  }

  lemma CheckWindowShape(rcv: RecvHalf, s: Segment, windowStart: int, windowEnd: int)
    requires windowStart == rcv.Next(Wrapped) && windowEnd == Add(Wrapped, rcv.start, rcv.buf.Capacity())
    ensures CheckWindow(Wrapped, rcv, s) == KeptFrom(windowStart, windowEnd, s)
  {
  }

  /** The octets that the segment acknowledges are in the buffer when they are to be dropped. */
  ghost predicate AckedFits(t: Tcb, cx: Context, s: Segment) {
    var a := AnalyseAck(Wrapped, t.state, t.snd, s);
    var r := Transition(Wrapped, SampleRtt(Wrapped, t, cx, s), cx, s, EffectiveControl(Wrapped, t.rcv, s), a.ofFin);
    r.Go? ==> a.len <= r.t.snd.buf.len
  }

  /** A segment that has passed the acceptance tests, with what is kept of its payload. */
  ghost predicate AcceptedSegment(t: Tcb, s: Segment, payload: seq<byte>, offset: nat) {
    && SegmentOk(Wrapped, s) && t.state != Closed && (t.state == Listen ==> s.ack.None? && s.control != Rst)
    && CheckAck(Wrapped, t.state, t.snd, s) == AckAccept && offset + |payload| <= t.rcv.buf.Window()
    && (t.state == Listen || t.state == SynSent ==> payload == [])
  }

  /** The assertions on the way of an accepted segment: the octets to drop are there, and the payload fits. */
  lemma StoreReady(t: Tcb, cx: Context, s: Segment, payload: seq<byte>, offset: nat)
    requires Inv(Wrapped, t) && AcceptedSegment(t, s, payload, offset)
    ensures AckedFits(t, cx, s)
    ensures var r := Advance(Wrapped, t, cx, s);
            r.Go? && payload != [] ==>
                RecvOk(Wrapped, r.t.rcv, r.t.conf.slots) && offset + |payload| <= r.t.rcv.buf.Window()
  {
    var a := AnalyseAck(Wrapped, t.state, t.snd, s);
    if s.control == Rst {
      TcpInvariant.ResetByPeer(Wrapped, t, cx, s);
    } else if t.state == Listen || t.state == SynSent {
      AckLenFits(Wrapped, t.state, t.snd, s);
    } else {
      AckLenFits(Wrapped, t.state, t.snd, s);
      AdvanceShape(Wrapped, t, cx, s);
      TakeFinOk(Wrapped, t.rcv, t.conf.slots);
    }
  }
}
