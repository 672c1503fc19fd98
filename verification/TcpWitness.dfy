/**
  Runs that two endpoints, or one socket, really have. Those of two endpoints start right after the handshake,
  with buffers of one octet on both sides, and every step is a call, a poll or the arrival of a segment that
  the peer has sent; those of one socket start from a new one. They reach the states in which the program does
  not do what one would expect of it.
 */
module TcpWitness {
  import opened Options
  import opened Octets
  import opened Shifts
  import opened SeqNumber
  import opened Timers
  import opened RingSpec
  import opened TcpModel
  import opened TcpInvariant
  import opened TcpPolling
  import opened TcpNetwork
  import opened TcpDelivery
  import opened TcpStream
  import opened TcpReachable
  import opened TcpEdge
  import opened TcpArrival
  import A = AssemblerSpec
  import Loops

  // ----- sockets with buffers of one octet

  function Snd(octet: byte, len: nat, una: int, nxt: int, winLen: nat, lastRxAck: Option<int>): SendHalf {
    SendHalf(Ring([octet], 0, len), una, nxt, winLen, None, DEFAULT_MSS, lastRxAck, 0)
  }

  function Rcv(octet: byte, len: nat, start: int, fin: bool, lastAck: int, lastWin: nat,
               ackTimer: AckDelayTimer): RecvHalf {
    RecvHalf(Ring([octet], 0, len), [], start, fin, Some(lastAck), lastWin, 0, ackTimer)
  }

  function Sock(state: State, tuple: Tuple, timer: Timer, rtte: Rtte, lastTs: Option<int>, snd: SendHalf,
                rcv: RecvHalf): Tcb {
    Tcb(state, Some(tuple), ListenEndpoint(None, 0), timer, rtte, lastTs, 0, snd, rcv,
        Config(4, None, None, Some(ACK_DELAY_DEFAULT), true))
  }

  function Seg(tuple: Tuple, control: Control, seqNo: int, ack: int, win: nat, payload: seq<byte>): Segment {
    Segment(tuple.local, tuple.remote, control, seqNo, Some(ack), win, None, None, payload)
  }

  function Reverse(tuple: Tuple): Tuple {
    Tuple(tuple.remote, tuple.local)
  }

  predicate Clock(cx: Context) {
    cx.ipMtu == 1500
  }

  // ----- single steps

  lemma RingStep(c: byte, x: byte)
    ensures Ring([c], 0, 0).Enqueue([x]) == Ring([x], 0, 1)
    ensures Ring([c], 0, 0).WriteUnallocated(0, [x]).EnqueueUnallocated(1) == Ring([x], 0, 1)
    ensures Ring([c], 0, 1).DequeueAllocated(1) == Ring([c], 0, 0)
    ensures Ring([c], 0, 1).GetAllocated(0, 1) == [c]
  {
  }

  /** The application writes one octet while the window is open. */
  lemma WriteStep(state: State, tuple: Tuple, rtte: Rtte, ts: Option<int>, c: byte, una: int, win: nat,
                  la: Option<int>, rcv: RecvHalf, x: byte)
    requires MaySend(state)
    ensures var timer := if win == 0 then ZeroWindowProbe(rtte.Timeout(), rtte.Timeout()) else Idle(None);
            DoSend(Sock(state, tuple, Idle(None), rtte, ts, Snd(c, 0, una, una, win, la), rcv), [x]) ==
            (Sock(state, tuple, timer, rtte, None, Snd(x, 1, una, una, win, la), rcv), Some(1))
  {
    RingStep(c, x);
  }

  /** It is sent. */
  lemma DataStep(tuple: Tuple, x: byte, una: int, la: Option<int>, rcv: RecvHalf, cx: Context)
    requires Clock(cx)
    ensures var s := Seg(tuple, Psh, una, rcv.Next(Ideal), rcv.ScaledWindow(), [x]);
            var t := Sock(Established, tuple, Idle(None), RTTE_DEFAULT, None, Snd(x, 1, una, una, 1, la), rcv);
            Dispatch(Ideal, t, cx, true) ==
            (Sock(Established, tuple, Retransmit(cx.now + 1_000_000), RTTE_DEFAULT.OnSend(Ideal, cx.now, una + 1),
                  Some(cx.now),
                  Snd(x, 1, una, una + 1, 1, la),
                      rcv.(lastAck := Some(rcv.Next(Ideal)), lastWin := rcv.ScaledWindow(), ackTimer := AckIdle)),
             Some(s))
            && DispatchSafe(Ideal, t, cx)
  {
    RingStep(x, x);
    var t := Sock(Established, tuple, Idle(None), RTTE_DEFAULT, None, Snd(x, 1, una, una, 1, la), rcv);
    var t1 := t.(lastTs := Some(cx.now));
    assert SeqToTransmit(Ideal, t1, cx);
    assert BeforeDispatch(Ideal, t, cx) == t1;
    assert DataPayload(Ideal, t1, cx) == [x];
  }

  // ----- the parts of an arrival

  /** An octet at the left edge of an empty buffer is kept. */
  lemma OctetInWindow(c: byte, start: int, fin: bool, lastAck: int, win: nat, timer: AckDelayTimer, s: Segment)
    requires s.seqNo == start && |s.payload| == 1
    ensures CheckWindow(Ideal, Rcv(c, 0, start, fin, lastAck, win, timer), s) == Inside(s.payload, 0)
  {
    assert s.payload[0..1] == s.payload;
  }

  /** An empty segment at the left edge is kept, whether the buffer is full or not. */
  lemma EmptyInWindow(c: byte, len: nat, start: int, fin: bool, lastAck: int, win: nat, timer: AckDelayTimer,
                      s: Segment)
    requires len <= 1 && s.seqNo == start + len && s.payload == []
    ensures CheckWindow(Ideal, Rcv(c, len, start, fin, lastAck, win, timer), s) == Inside([], 0)
  {
  }

  lemma StoreStep(t: Tcb, cx: Context, s: Segment, c: byte, start: int, fin: bool, lastAck: int, win: nat, x: byte)
    requires t.rcv == Rcv(c, 0, start, fin, lastAck, win, AckIdle) && lastAck <= start
    requires t.conf == Config(4, None, None, Some(ACK_DELAY_DEFAULT), true)
    ensures StorePayload(Ideal, t, cx, s, [x], 0) ==
            (t.(rcv := Rcv(x, 1, start, fin, lastAck, win, AckWaiting(cx.now + ACK_DELAY_DEFAULT))), None)
  {
    RingStep(c, x);
    OnlyRange(t.conf.slots, 0, |[x]|);
    assert Receive(t.rcv, t.conf.slots, [x], 0) == Some(Rcv(x, 1, start, fin, lastAck, win, AckIdle));
  }

  lemma StoredProcess(t: Tcb, cx: Context, s: Segment, x: byte, t1: Tcb, t2: Tcb)
    requires t.state != Listen && t.state != SynSent
    requires CheckAck(Ideal, t.state, t.snd, s) == AckAccept && CheckWindow(Ideal, t.rcv, s) == Inside([x], 0)
    requires Advance(Ideal, t, cx, s) == Go(t1) && StorePayload(Ideal, t1, cx, s, [x], 0) == (t2, None)
    ensures Process(Ideal, t, cx, s) == (t2, None)
  {
  }

  lemma BareProcess(t: Tcb, cx: Context, s: Segment, t1: Tcb)
    requires t.state != Listen && t.state != SynSent
    requires CheckAck(Ideal, t.state, t.snd, s) == AckAccept && CheckWindow(Ideal, t.rcv, s) == Inside([], 0)
    requires Advance(Ideal, t, cx, s) == Go(t1)
    ensures Process(Ideal, t, cx, s) == (t1, None)
  {
  }

  /** It arrives. */
  lemma ArriveStep(tuple: Tuple, rtte: Rtte, ts: Option<int>, c: byte, d: byte, una: int, la: Option<int>, start: int,
                   lastAck: int,
                   win: nat, cx: Context, x: byte)
    requires rtte.timestamp.None? && (la.Some? ==> la.value == una) && lastAck <= start
    ensures var s := Seg(Reverse(tuple), Psh, start, una, 1, [x]);
            var t := Sock(Established, tuple, Idle(None), rtte, ts, Snd(d, 0, una, una, 1, la),
                          Rcv(c, 0, start, false, lastAck, win, AckIdle));
            Accepts(t, s) &&
            Process(Ideal, t, cx, s) ==
            (Sock(Established, tuple, Idle(None), rtte, Some(cx.now), Snd(d, 0, una, una, 1, Some(una)),
                  Rcv(x, 1, start, false, lastAck, win, AckWaiting(cx.now + ACK_DELAY_DEFAULT))), None)
  {
    var s := Seg(Reverse(tuple), Psh, start, una, 1, [x]);
    var t := Sock(Established, tuple, Idle(None), rtte, ts, Snd(d, 0, una, una, 1, la),
                  Rcv(c, 0, start, false, lastAck, win, AckIdle));
    var t1 := Sock(Established, tuple, Idle(None), rtte, Some(cx.now), Snd(d, 0, una, una, 1, Some(una)),
                   Rcv(c, 0, start, false, lastAck, win, AckIdle));
    assert CheckAck(Ideal, t.state, t.snd, s) == AckAccept;
    assert Advance(Ideal, t, cx, s) == Go(t1);
    OctetInWindow(c, start, false, lastAck, win, AckIdle, s);
    StoreStep(t1, cx, s, c, start, false, lastAck, win, x);
    StoredProcess(t, cx, s, x, t1, t1.(rcv :=
                                       Rcv(x, 1, start, false, lastAck, win, AckWaiting(cx.now + ACK_DELAY_DEFAULT))));
  }

  /** The acknowledgement goes out once its delay is over; the window is closed. */
  lemma AckStep(state: State, tuple: Tuple, rtte: Rtte, ts: int, d: byte, una: int, win: nat, la: Option<int>, x: byte,
                start: int,
                fin: bool, lastAck: int, lastWin: nat, due: int, cx: Context)
    requires (state == Established || state == CloseWait) && lastAck <= start && due <= cx.now
    ensures var s := Seg(tuple, NoFlag, una, start + 1, 0, []);
            var t := Sock(state, tuple, Idle(None), rtte, Some(ts), Snd(d, 0, una, una, win, la),
                          Rcv(x, 1, start, fin, lastAck, lastWin, AckWaiting(due)));
            Dispatch(Ideal, t, cx, true) ==
            (Sock(state, tuple, Idle(None), rtte, Some(ts), Snd(d, 0, una, una, win, la),
                  Rcv(x, 1, start, fin, start + 1, 0, AckIdle)), Some(s))
            && DispatchSafe(Ideal, t, cx)
  {
    var t := Sock(state, tuple, Idle(None), rtte, Some(ts), Snd(d, 0, una, una, win, la),
                  Rcv(x, 1, start, fin, lastAck, lastWin, AckWaiting(due)));
    assert !SeqToTransmit(Ideal, t, cx);
    assert BeforeDispatch(Ideal, t, cx) == t;
    assert DataPayload(Ideal, t, cx) == [];
  }

  /** The acknowledgement arrives and closes the window; nothing is left to send. */
  lemma AckedStep(tuple: Tuple, rtte: Rtte, ts: int, x: byte, una: int, rto: int, la: Option<int>, rcv: RecvHalf,
                  c: byte, cx: Context)
    requires rcv == Rcv(c, 0, rcv.start, false, rcv.start, 1, AckIdle) && la != Some(una + 1)
    ensures var s := Seg(Reverse(tuple), NoFlag, rcv.start, una + 1, 0, []);
            var t := Sock(Established, tuple, Retransmit(rto), rtte, Some(ts), Snd(x, 1, una, una + 1, 1, la), rcv);
            Accepts(t, s) &&
            Process(Ideal, t, cx, s) ==
            (Sock(Established, tuple, Idle(None), rtte.OnAck(Ideal, cx.now, una + 1), Some(cx.now),
                  Snd(x, 0, una + 1, una + 1, 0, Some(una + 1)), rcv), None)
  {
    var s := Seg(Reverse(tuple), NoFlag, rcv.start, una + 1, 0, []);
    var t := Sock(Established, tuple, Retransmit(rto), rtte, Some(ts), Snd(x, 1, una, una + 1, 1, la), rcv);
    RingStep(x, x);
    EmptyInWindow(c, 0, rcv.start, false, rcv.start, 1, AckIdle, s);
    var t1 := Sock(Established, tuple, Idle(None), rtte.OnAck(Ideal, cx.now, una + 1), Some(cx.now),
                   Snd(x, 0, una + 1, una + 1, 0, Some(una + 1)), rcv);
    assert CheckAck(Ideal, t.state, t.snd, s) == AckAccept;
    assert AnalyseAck(Ideal, t.state, t.snd, s) == AckInfo(1, false, true);
    assert UpdateSend(Ideal, t.snd, s, 1) == t1.snd;
    assert Advance(Ideal, t, cx, s) == Go(t1);
    BareProcess(t, cx, s, t1);
  }

  /** The application reads the octet. */
  lemma ReadStep(state: State, tuple: Tuple, rtte: Rtte, ts: Option<int>, snd: SendHalf, x: byte, start: int,
                 lastAck: int, win: nat)
    ensures var t := Sock(state, tuple, Idle(None), rtte, ts, snd, Rcv(x, 1, start, false, lastAck, win, AckIdle));
            DoRecv(Ideal, t, 1) ==
            (Sock(state, tuple, Idle(None), rtte, ts, snd, Rcv(x, 0, start + 1, false, lastAck, win, AckIdle)),
             Some([x]))
  {
    RingStep(x, x);
    assert [x][..1] == [x];
  }

  function Doubled(delay: nat): nat {
    if delay * 2 < 60_000_000 then delay * 2 else 60_000_000
  }

  /** The closed window is probed with the octet that waits, and with the FIN if the socket is closing. */
  lemma ProbeStep(state: State, tuple: Tuple, rtte: Rtte, y: byte, una: int, la: Option<int>, rcv: RecvHalf, at: int,
                  delay: nat, cx: Context)
    requires (state == Established || state == FinWait1) && at <= cx.now && Clock(cx)
    requires !AckToTransmit(Ideal, rcv) && EdgeHolds(Ideal, rcv)
    ensures var t := Sock(state, tuple, ZeroWindowProbe(at, delay), rtte, None, Snd(y, 1, una, una, 0, la), rcv);
            var s := Seg(tuple, if state == FinWait1 then Fin else Psh, una, rcv.Next(Ideal), rcv.ScaledWindow(), [y]);
            var d := Doubled(delay);
            Dispatch(Ideal, t, cx, true) ==
            (Sock(state, tuple, ZeroWindowProbe(cx.now + d, d), rtte, Some(cx.now), Snd(y, 1, una, una, 0, la),
                  rcv.(ackTimer := AckIdle)), Some(s))
            && DispatchSafe(Ideal, t, cx)
  {
    var t := Sock(state, tuple, ZeroWindowProbe(at, delay), rtte, None, Snd(y, 1, una, una, 0, la), rcv);
    var t1 := t.(lastTs := Some(cx.now));
    RingStep(y, y);
    assert !SeqToTransmit(Ideal, t1, cx);
    assert BeforeDispatch(Ideal, t, cx) == t1;
    assert IsProbe(Ideal, t1, cx.now) && DataPayload(Ideal, t1, cx) == [y];
  }

  // ----- runs

  lemma {:induction false} StepsThen(w: World, run: seq<(bool, Action)>, w1: World, atA: bool, act: Action)
    requires Steps(w, run, w1) && CanHappen(if atA then w1 else w1.Swap(), act)
    ensures Steps(w, run + [(atA, act)], StepWorld(w1, atA, act))
    decreases |run|
  {
    var longer := run + [(atA, act)];
    if |run| == 0 {
      assert longer[1..] == [];
    } else {
      assert longer[0] == run[0] && longer[1..] == run[1..] + [(atA, act)];
      StepsThen(StepWorld(w, run[0].0, run[0].1), run[1..], w1, atA, act);
    }
  }

  function At(now: int): Context {
    Context(now, 1500, 0)
  }

  function OneOctetSide(at: Endpoint, isn: int): Side {
    Side(Ring([0], 0, 0), Ring([0], 0, 0), at, isn, DEFAULT_MSS)
  }

  function Start(here: Endpoint, there: Endpoint, base: int, other: int): World {
    FreshWorld(OneOctetSide(here, base), OneOctetSide(there, other), false)
  }

  lemma StartSockets(here: Endpoint, there: Endpoint, base: int, other: int)
    ensures var w := Start(here, there, base, other);
            && Established2(w)
            && w.a.t == Sock(Established, Tuple(here, there), Idle(None), RTTE_DEFAULT, None,
                             Snd(0, 0, base, base, 1, None),
                             Rcv(0, 0, other, false, other, 1, AckIdle))
            && w.b.t == Sock(Established, Tuple(there, here), Idle(None), RTTE_DEFAULT, None,
                             Snd(0, 0, other, other, 1, None),
                             Rcv(0, 0, base, false, base, 1, AckIdle))
  {
    FreshWorldEstablished(OneOctetSide(here, base), OneOctetSide(there, other), false);
  }

  /** One more step, with what it leaves behind. */
  lemma Do(w0: World, run: seq<(bool, Action)>, w: World, atA: bool, act: Action, t': Tcb, reply: Reply)
    returns (run': seq<(bool, Action)>, w': World)
    requires Steps(w0, run, w) && CanHappen(if atA then w else w.Swap(), act)
    requires Act(if atA then w.a else w.b, act).0.t == t' && Act(if atA then w.a else w.b, act).1 == reply
    ensures Steps(w0, run', w')
    ensures atA ==> w'.a.t == t' && w'.b == w.b && w'.ab == With(w.ab, reply) && w'.ba == w.ba
    ensures !atA ==> w'.b.t == t' && w'.a == w.a && w'.ba == With(w.ba, reply) && w'.ab == w.ab
    ensures w' == StepWorld(w, atA, act)
  {
    StepsThen(w0, run, w, atA, act);
    run', w' := run + [(atA, act)], StepWorld(w, atA, act);
  }

  /** One more poll. */
  lemma Polled(w0: World, run: seq<(bool, Action)>, w: World, atA: bool, cx: Context, t': Tcb, s: Segment)
    returns (run': seq<(bool, Action)>, w': World)
    requires Steps(w0, run, w)
    requires var t := if atA then w.a.t else w.b.t;
             DispatchSafe(Ideal, t, cx) && Dispatch(Ideal, t, cx, true) == (t', Some(s))
    ensures Steps(w0, run', w')
    ensures atA ==> w'.a.t == t' && w'.b == w.b && s in w'.ab && w'.ba == w.ba
    ensures !atA ==> w'.b.t == t' && w'.a == w.a && s in w'.ba && w'.ab == w.ab
  {
    run', w' := Do(w0, run, w, atA, Transmit(cx, true), t', Some(s));
  }

  /** A writes `x` and sends it. */
  lemma OctetSent(here: Endpoint, there: Endpoint, base: int, other: int, x: byte)
    returns (run: seq<(bool, Action)>, w: World)
    ensures Steps(Start(here, there, base, other), run, w)
    ensures w.a.t == Sock(Established, Tuple(here, there), Retransmit(1_000_000),
                          RTTE_DEFAULT.OnSend(Ideal, 0, base + 1), Some(0),
                          Snd(x, 1, base, base + 1, 1, None), Rcv(0, 0, other, false, other, 1, AckIdle))
    ensures w.b.t == Sock(Established, Tuple(there, here), Idle(None), RTTE_DEFAULT, None,
                          Snd(0, 0, other, other, 1, None),
                          Rcv(0, 0, base, false, base, 1, AckIdle))
    ensures Seg(Tuple(here, there), Psh, base, other, 1, [x]) in w.ab
  {
    var tuple, rcv := Tuple(here, there), Rcv(0, 0, other, false, other, 1, AckIdle);
    var w0 := Start(here, there, base, other);
    StartSockets(here, there, base, other);
    WriteStep(Established, tuple, RTTE_DEFAULT, None, 0, base, 1, None, rcv, x);
    run, w := Do(w0, [], w0, true, Write([x]), DoSend(w0.a.t, [x]).0, None);
    DataStep(tuple, x, base, None, rcv, At(0));
    var sent := Dispatch(Ideal, w.a.t, At(0), true);
    run, w := Polled(w0, run, w, true, At(0), sent.0, sent.1.value);
  }

  /** It arrives and fills B's buffer. */
  lemma OctetDelivered(here: Endpoint, there: Endpoint, base: int, other: int, x: byte)
    returns (run: seq<(bool, Action)>, w: World)
    ensures Steps(Start(here, there, base, other), run, w)
    ensures w.a.t == Sock(Established, Tuple(here, there), Retransmit(1_000_000),
                          RTTE_DEFAULT.OnSend(Ideal, 0, base + 1), Some(0),
                          Snd(x, 1, base, base + 1, 1, None), Rcv(0, 0, other, false, other, 1, AckIdle))
    ensures w.b.t == Sock(Established, Tuple(there, here), Idle(None), RTTE_DEFAULT, Some(0),
                          Snd(0, 0, other, other, 1, Some(other)),
                          Rcv(x, 1, base, false, base, 1, AckWaiting(ACK_DELAY_DEFAULT)))
  {
    run, w := OctetSent(here, there, base, other, x);
    var s := Seg(Tuple(here, there), Psh, base, other, 1, [x]);
    ArriveStep(Tuple(there, here), RTTE_DEFAULT, None, 0, 0, other, None, base, base, 1, At(0), x);
    run, w := Do(Start(here, there, base, other), run, w, false, Arrive(At(0), s), Process(Ideal, w.b.t, At(0), s).0,
                 None);
  }

  /** The estimator of A after the round trip. */
  function Measured(base: int): Rtte {
    RTTE_DEFAULT.OnSend(Ideal, 0, base + 1).OnAck(Ideal, ACK_DELAY_DEFAULT, base + 1)
  }

  lemma MeasuredTimeout(base: int)
    ensures Measured(base).Timeout() <= 60_000_000
  {
    OnAckOk(Ideal, RTTE_DEFAULT.OnSend(Ideal, 0, base + 1), ACK_DELAY_DEFAULT, base + 1);
  }

  /** B acknowledges with a closed window, and A learns of it. */
  lemma WindowClosed(here: Endpoint, there: Endpoint, base: int, other: int, x: byte)
    returns (run: seq<(bool, Action)>, w: World)
    ensures Steps(Start(here, there, base, other), run, w)
    ensures w.a.t == Sock(Established, Tuple(here, there), Idle(None), Measured(base), Some(ACK_DELAY_DEFAULT),
                          Snd(x, 0, base + 1, base + 1, 0, Some(base + 1)), Rcv(0, 0, other, false, other, 1, AckIdle))
    ensures w.b.t == Sock(Established, Tuple(there, here), Idle(None), RTTE_DEFAULT, Some(0),
                          Snd(0, 0, other, other, 1, Some(other)),
                          Rcv(x, 1, base, false, base + 1, 0, AckIdle))
  {
    var w0, cx := Start(here, there, base, other), At(ACK_DELAY_DEFAULT);
    run, w := OctetDelivered(here, there, base, other, x);
    AckStep(Established, Tuple(there, here), RTTE_DEFAULT, 0, 0, other, 1, Some(other), x, base, false, base, 1,
            ACK_DELAY_DEFAULT, cx);
    var sent := Dispatch(Ideal, w.b.t, cx, true);
    run, w := Polled(w0, run, w, false, cx, sent.0, sent.1.value);
    var s := Seg(Tuple(there, here), NoFlag, other, base + 1, 0, []);
    AckedStep(Tuple(here, there), RTTE_DEFAULT.OnSend(Ideal, 0, base + 1), 0, x, base, 1_000_000, None, w.a.t.rcv, 0,
              cx);
    run, w := Do(w0, run, w, true, Arrive(cx, s), Process(Ideal, w.a.t, cx, s).0, None);
  }

  /** A writes `y`, which must wait; the probe timer is armed. */
  lemma ProbeArmed(here: Endpoint, there: Endpoint, base: int, other: int, x: byte, y: byte)
    returns (run: seq<(bool, Action)>, w: World)
    ensures Steps(Start(here, there, base, other), run, w)
    ensures w.a.t == Sock(Established, Tuple(here, there),
                          ZeroWindowProbe(Measured(base).Timeout(), Measured(base).Timeout()),
                          Measured(base), None, Snd(y, 1, base + 1, base + 1, 0, Some(base + 1)),
                              Rcv(0, 0, other, false, other, 1, AckIdle))
    ensures w.b.t == Sock(Established, Tuple(there, here), Idle(None), RTTE_DEFAULT, Some(0),
                          Snd(0, 0, other, other, 1, Some(other)),
                          Rcv(x, 1, base, false, base + 1, 0, AckIdle))
  {
    run, w := WindowClosed(here, there, base, other, x);
    WriteStep(Established, Tuple(here, there), Measured(base), Some(ACK_DELAY_DEFAULT), x, base + 1, 0, Some(base + 1),
              w.a.t.rcv, y);
    run, w := Do(Start(here, there, base, other), run, w, true, Write([y]), DoSend(w.a.t, [y]).0, None);
  }

  // ----- a probe after a read

  /** B's application reads, and A's probe goes out before B has said so. */
  lemma ProbeSent(here: Endpoint, there: Endpoint, base: int, other: int, x: byte, y: byte)
    returns (run: seq<(bool, Action)>, w: World)
    ensures Steps(Start(here, there, base, other), run, w)
    ensures w.b.t == Sock(Established, Tuple(there, here), Idle(None), RTTE_DEFAULT, Some(0),
                          Snd(0, 0, other, other, 1, Some(other)),
                          Rcv(x, 0, base + 1, false, base + 1, 0, AckIdle))
    ensures Seg(Tuple(here, there), Psh, base + 1, other, 1, [y]) in w.ab
  {
    var w0, cx := Start(here, there, base, other), At(60_000_000);
    run, w := ProbeArmed(here, there, base, other, x, y);
    ReadStep(Established, Tuple(there, here), RTTE_DEFAULT, Some(0), w.b.t.snd, x, base, base + 1, 0);
    run, w := Do(w0, run, w, false, Read(1), DoRecv(Ideal, w.b.t, 1).0, None);
    MeasuredTimeout(base);
    var rto := Measured(base).Timeout();
    ProbeStep(Established, Tuple(here, there), Measured(base), y, base + 1, Some(base + 1), w.a.t.rcv, rto, rto, cx);
    var sent := Dispatch(Ideal, w.a.t, cx, true);
    run, w := Polled(w0, run, w, true, cx, sent.0, sent.1.value);
  }

  /**
    Two honest endpoints reach a state in which polling B leaves the domain of the subtraction in
    `last_scaled_window`: the probe has arrived after the read, and its acknowledgement is delayed.
   */
  lemma ProbeAfterRead(here: Endpoint, there: Endpoint, base: int, other: int, x: byte, y: byte)
    returns (run: seq<(bool, Action)>, w: World)
    ensures Established2(Start(here, there, base, other)) && Steps(Start(here, there, base, other), run, w)
    ensures forall later: Context :: later.now < 60_000_000 + ACK_DELAY_DEFAULT ==> !DispatchSafe(Ideal, w.b.t, later)
  {
    var w0, cx := Start(here, there, base, other), At(60_000_000);
    StartSockets(here, there, base, other);
    run, w := ProbeSent(here, there, base, other, x, y);
    Reached(w0, run, w);
    var s, t := Seg(Tuple(here, there), Psh, base + 1, other, 1, [y]), w.b.t;
    ProbeOverruns(here, there, base, other, x, y);
    forall later: Context | later.now < 60_000_000 + ACK_DELAY_DEFAULT
      ensures !DispatchSafe(Ideal, Process(Ideal, t, cx, s).0, later)
    {
      PollAfterProcess(Ideal, t, cx, s, later);
    }
    run, w := Do(w0, run, w, false, Arrive(cx, s), Process(Ideal, t, cx, s).0, Process(Ideal, t, cx, s).1);
  }

  lemma ProbeOverruns(here: Endpoint, there: Endpoint, base: int, other: int, x: byte, y: byte)
    ensures var t := Sock(Established, Tuple(there, here), Idle(None), RTTE_DEFAULT, Some(0),
                          Snd(0, 0, other, other, 1, Some(other)),
                          Rcv(x, 0, base + 1, false, base + 1, 0, AckIdle));
            var s := Seg(Tuple(here, there), Psh, base + 1, other, 1, [y]);
            AtRest(Ideal, t) && Accepts(t, s) && SegmentOk(Ideal, s) && Overruns(Ideal, t, s)
  {
    var s := Seg(Tuple(here, there), Psh, base + 1, other, 1, [y]);
    OctetInWindow(x, base + 1, false, base + 1, 0, AckIdle, s);
  }

  // ----- FIN-WAIT-2 with the probe timer armed

  /** An octet and the FIN arrive together. */
  lemma FinArriveStep(tuple: Tuple, rtte: Rtte, ts: Option<int>, c: byte, d: byte, una: int, start: int, win: nat,
                      cx: Context, y: byte)
    requires rtte.timestamp.None?
    ensures var s := Seg(Reverse(tuple), Fin, start, una, 1, [y]);
            var t := Sock(Established, tuple, Idle(None), rtte, ts, Snd(d, 0, una, una, 1, Some(una)),
                          Rcv(c, 0, start, false, start, win, AckIdle));
            Accepts(t, s) &&
            Process(Ideal, t, cx, s) ==
            (Sock(CloseWait, tuple, Idle(None), rtte, Some(cx.now), Snd(d, 0, una, una, 1, Some(una)),
                  Rcv(y, 1, start + 1, true, start, win, AckWaiting(cx.now + ACK_DELAY_DEFAULT))), None)
  {
    var s := Seg(Reverse(tuple), Fin, start, una, 1, [y]);
    var t := Sock(Established, tuple, Idle(None), rtte, ts, Snd(d, 0, una, una, 1, Some(una)),
                  Rcv(c, 0, start, false, start, win, AckIdle));
    var t1 := Sock(CloseWait, tuple, Idle(None), rtte, Some(cx.now), Snd(d, 0, una, una, 1, Some(una)),
                   Rcv(c, 0, start + 1, true, start, win, AckIdle));
    assert CheckAck(Ideal, t.state, t.snd, s) == AckAccept;
    assert Advance(Ideal, t, cx, s) == Go(t1);
    OctetInWindow(c, start, false, start, win, AckIdle, s);
    StoreStep(t1, cx, s, c, start + 1, true, start, win, y);
    StoredProcess(t, cx, s, y, t1, t1.(rcv :=
                                       Rcv(y, 1, start + 1, true, start, win, AckWaiting(cx.now + ACK_DELAY_DEFAULT))));
  }

  /** A closes, and B reads. */
  lemma ClosedAndRead(here: Endpoint, there: Endpoint, base: int, other: int, x: byte, y: byte)
    returns (run: seq<(bool, Action)>, w: World)
    ensures Steps(Start(here, there, base, other), run, w)
    ensures w.a.t == Sock(FinWait1, Tuple(here, there),
                          ZeroWindowProbe(Measured(base).Timeout(), Measured(base).Timeout()),
                          Measured(base), None, Snd(y, 1, base + 1, base + 1, 0, Some(base + 1)),
                              Rcv(0, 0, other, false, other, 1, AckIdle))
    ensures w.b.t == Sock(Established, Tuple(there, here), Idle(None), RTTE_DEFAULT, Some(0),
                          Snd(0, 0, other, other, 1, Some(other)),
                          Rcv(x, 0, base + 1, false, base + 1, 0, AckIdle))
  {
    var w0 := Start(here, there, base, other);
    run, w := ProbeArmed(here, there, base, other, x, y);
    ReadStep(Established, Tuple(there, here), RTTE_DEFAULT, Some(0), w.b.t.snd, x, base, base + 1, 0);
    run, w := Do(w0, run, w, false, Read(1), DoRecv(Ideal, w.b.t, 1).0, None);
    CloseStep(Established, Tuple(here, there), w.a.t.timer, Measured(base), None, w.a.t.snd, w.a.t.rcv);
    run, w := Do(w0, run, w, true, CloseCall, DoClose(w.a.t), None);
  }

  /** A's probe carries its last octet and the FIN. */
  lemma LastProbeSent(here: Endpoint, there: Endpoint, base: int, other: int, x: byte, y: byte)
    returns (run: seq<(bool, Action)>, w: World, d: nat)
    ensures Steps(Start(here, there, base, other), run, w)
    ensures w.a.t == LastProbe(Tuple(here, there), Measured(base), y, base, other, d, 60_000_000)
    ensures w.b.t == Sock(Established, Tuple(there, here), Idle(None), RTTE_DEFAULT, Some(0),
                          Snd(0, 0, other, other, 1, Some(other)),
                          Rcv(x, 0, base + 1, false, base + 1, 0, AckIdle))
    ensures Seg(Tuple(here, there), Fin, base + 1, other, 1, [y]) in w.ab
  {
    var w0, cx := Start(here, there, base, other), At(60_000_000);
    var rto := Measured(base).Timeout();
    run, w := ClosedAndRead(here, there, base, other, x, y);
    MeasuredTimeout(base);
    d := Doubled(rto);
    LastProbeStep(Tuple(here, there), Measured(base), y, base, other, rto, cx);
    var t := LastProbe(Tuple(here, there), Measured(base), y, base, other, d, cx.now);
    run, w := Polled(w0, run, w, true, cx, t, Seg(Tuple(here, there), Fin, base + 1, other, 1, [y]));
  }

  /** The socket after the last probe at `now`. */
  function LastProbe(tuple: Tuple, rtte: Rtte, y: byte, base: int, other: int, d: nat, now: int): Tcb {
    Sock(FinWait1, tuple, ZeroWindowProbe(now + d, d), rtte, Some(now),
         Snd(y, 1, base + 1, base + 1, 0, Some(base + 1)),
         Rcv(0, 0, other, false, other, 1, AckIdle))
  }

  lemma LastProbeStep(tuple: Tuple, rtte: Rtte, y: byte, base: int, other: int, rto: nat, cx: Context)
    requires rto <= cx.now && Clock(cx)
    ensures var rcv := Rcv(0, 0, other, false, other, 1, AckIdle);
            var t := Sock(FinWait1, tuple, ZeroWindowProbe(rto, rto), rtte, None,
                          Snd(y, 1, base + 1, base + 1, 0, Some(base + 1)), rcv);
            DispatchSafe(Ideal, t, cx) && Dispatch(Ideal, t, cx, true) ==
            (LastProbe(tuple, rtte, y, base, other, Doubled(rto), cx.now),
             Some(Seg(tuple, Fin, base + 1, other, 1, [y])))
  {
    var rcv := Rcv(0, 0, other, false, other, 1, AckIdle);
    assert rcv.Next(Ideal) == other && rcv.ScaledWindow() == 1 && rcv.(ackTimer := AckIdle) == rcv;
    ProbeStep(FinWait1, tuple, rtte, y, base + 1, Some(base + 1), rcv, rto, rto, cx);
  }

  /** B takes both and acknowledges them; its buffer is full again. */
  lemma LastProbeAcked(here: Endpoint, there: Endpoint, base: int, other: int, x: byte, y: byte)
    returns (run: seq<(bool, Action)>, w: World, d: nat)
    ensures Steps(Start(here, there, base, other), run, w)
    ensures w.a.t == LastProbe(Tuple(here, there), Measured(base), y, base, other, d, 60_000_000)
    ensures Seg(Tuple(there, here), NoFlag, other, base + 3, 0, []) in w.ba
  {
    var w0, cx, later := Start(here, there, base, other), At(60_000_000), At(60_000_000 + ACK_DELAY_DEFAULT);
    run, w, d := LastProbeSent(here, there, base, other, x, y);
    var s := Seg(Tuple(here, there), Fin, base + 1, other, 1, [y]);
    FinArriveStep(Tuple(there, here), RTTE_DEFAULT, Some(0), x, 0, other, base + 1, 0, cx, y);
    run, w := Do(w0, run, w, false, Arrive(cx, s), Process(Ideal, w.b.t, cx, s).0, None);
    AckStep(CloseWait, Tuple(there, here), RTTE_DEFAULT, cx.now, 0, other, 1, Some(other), y, base + 2, true, base + 1,
            0, later.now, later);
    var sent := Dispatch(Ideal, w.b.t, later, true);
    run, w := Polled(w0, run, w, false, later, sent.0, sent.1.value);
  }

  /** However often it is polled at one instant from `due` on, the socket asks to be polled again. */
  ghost predicate NeverSettles(t: Tcb, due: int) {
    forall cx: Context, n: nat :: cx.now >= due ==> !Resting(Ideal, cx)(Loops.Iterate(Poll(Ideal, cx), t, n))
  }

  /**
    Two honest endpoints reach a state in which A never comes to rest: the FIN is acknowledged while the
    window stays closed, so A is in FIN-WAIT-2 with the probe timer armed.
   */
  lemma NeverAtRest(here: Endpoint, there: Endpoint, base: int, other: int, x: byte, y: byte)
    returns (run: seq<(bool, Action)>, w: World, due: int)
    ensures Established2(Start(here, there, base, other)) && Steps(Start(here, there, base, other), run, w)
    ensures w.a.t.state == FinWait2 && NeverSettles(w.a.t, due)
  {
    StartSockets(here, there, base, other);
    var d;
    run, w, d := LastProbeAcked(here, there, base, other, x, y);
    due := 60_000_000 + d;
    var s := Seg(Tuple(there, here), NoFlag, other, base + 3, 0, []);
    run, w := FinalArrival(Start(here, there, base, other), run, w, At(60_000_000 + ACK_DELAY_DEFAULT), s, due);
  }

  /** The last acknowledgement arrives. */
  lemma FinalArrival(w0: World, run: seq<(bool, Action)>, w: World, cx: Context, s: Segment, due: int)
    returns (run': seq<(bool, Action)>, w': World)
    requires Established2(w0) && Steps(w0, run, w) && s in w.ba && FinalAck(Ideal, w.a.t, s)
    requires w.a.t.state == FinWait1 && w.a.t.conf.timeout.None?
    requires w.a.t.timer.ZeroWindowProbe? && w.a.t.timer.expiresAt == due
    ensures Steps(w0, run', w') && w'.a.t.state == FinWait2 && NeverSettles(w'.a.t, due)
  {
    Reached(w0, run, w);
    NeverRests(w.a.t, cx, s, due);
    var (t', reply) := Process(Ideal, w.a.t, cx, s);
    run', w' := Do(w0, run, w, true, Arrive(cx, s), t', reply);
  }

  lemma NeverRests(t: Tcb, cx: Context, s: Segment, due: int)
    requires Inv(Ideal, t) && t.state == FinWait1 && t.timer.ZeroWindowProbe? && t.timer.expiresAt == due
    requires t.conf.timeout.None? && FinalAck(Ideal, t, s)
    ensures Process(Ideal, t, cx, s).0.state == FinWait2 && NeverSettles(Process(Ideal, t, cx, s).0, due)
  {
    StuckArises(Ideal, t, cx, s, At(due));
    forall later: Context, n: nat | later.now >= due
      ensures !Resting(Ideal, later)(Loops.Iterate(Poll(Ideal, later), Process(Ideal, t, cx, s).0, n))
    {
      StuckArises(Ideal, t, cx, s, later);
    }
  }

  // ----- unread octets at the end of TIME-WAIT

  /** A FIN without data goes out. */
  lemma FinStep(tuple: Tuple, una: int, start: int, cx: Context)
    requires Clock(cx)
    ensures var t := Sock(FinWait1, tuple, Idle(None), RTTE_DEFAULT, None, Snd(0, 0, una, una, 1, None),
                          Rcv(0, 0, start, false, start, 1, AckIdle));
            Dispatch(Ideal, t, cx, true) ==
            (Sock(FinWait1, tuple, Retransmit(cx.now + 1_000_000), RTTE_DEFAULT.OnSend(Ideal, cx.now, una + 1),
                  Some(cx.now),
                  Snd(0, 0, una, una + 1, 1, None), Rcv(0, 0, start, false, start, 1, AckIdle)),
             Some(Seg(tuple, Fin, una, start, 1, [])))
            && DispatchSafe(Ideal, t, cx)
  {
    var t := Sock(FinWait1, tuple, Idle(None), RTTE_DEFAULT, None, Snd(0, 0, una, una, 1, None),
                  Rcv(0, 0, start, false, start, 1, AckIdle));
    var t1 := t.(lastTs := Some(cx.now));
    assert SeqToTransmit(Ideal, t1, cx);
    assert BeforeDispatch(Ideal, t, cx) == t1;
    assert DataPayload(Ideal, t1, cx) == [];
  }

  /** It arrives. */
  lemma FinTakenStep(tuple: Tuple, una: int, start: int, cx: Context)
    ensures var s := Seg(Reverse(tuple), Fin, start, una, 1, []);
            var t := Sock(Established, tuple, Idle(None), RTTE_DEFAULT, None, Snd(0, 0, una, una, 1, None),
                          Rcv(0, 0, start, false, start, 1, AckIdle));
            Accepts(t, s) &&
            Process(Ideal, t, cx, s) ==
            (Sock(CloseWait, tuple, Idle(None), RTTE_DEFAULT, Some(cx.now), Snd(0, 0, una, una, 1, Some(una)),
                  Rcv(0, 0, start + 1, true, start, 1, AckIdle)), None)
  {
    var s := Seg(Reverse(tuple), Fin, start, una, 1, []);
    var t := Sock(Established, tuple, Idle(None), RTTE_DEFAULT, None, Snd(0, 0, una, una, 1, None),
                  Rcv(0, 0, start, false, start, 1, AckIdle));
    var t1 := Sock(CloseWait, tuple, Idle(None), RTTE_DEFAULT, Some(cx.now), Snd(0, 0, una, una, 1, Some(una)),
                   Rcv(0, 0, start + 1, true, start, 1, AckIdle));
    EmptyInWindow(0, 0, start, false, start, 1, AckIdle, s);
    assert CheckAck(Ideal, t.state, t.snd, s) == AckAccept;
    assert Advance(Ideal, t, cx, s) == Go(t1);
    BareProcess(t, cx, s, t1);
  }

  /** The last octet goes out together with the FIN. */
  lemma LastOctetStep(tuple: Tuple, z: byte, una: int, start: int, cx: Context)
    requires Clock(cx)
    ensures var t := Sock(LastAck, tuple, Idle(None), RTTE_DEFAULT, None, Snd(z, 1, una, una, 1, Some(una)),
                          Rcv(0, 0, start + 1, true, start, 1, AckIdle));
            DispatchSafe(Ideal, t, cx) && Dispatch(Ideal, t, cx, true).1 ==
                Some(Seg(tuple, Fin, una, start + 1, 1, [z]))
  {
    var t := Sock(LastAck, tuple, Idle(None), RTTE_DEFAULT, None, Snd(z, 1, una, una, 1, Some(una)),
                  Rcv(0, 0, start + 1, true, start, 1, AckIdle));
    var t1 := t.(lastTs := Some(cx.now));
    RingStep(z, z);
    assert SeqToTransmit(Ideal, t1, cx);
    assert BeforeDispatch(Ideal, t, cx) == t1;
    assert DataPayload(Ideal, t1, cx) == [z];
  }

  /** In FIN-WAIT-1 they arrive together with the acknowledgement of our FIN. */
  lemma TimeWaitStep(tuple: Tuple, rtte: Rtte, ts: int, una: int, rto: int, start: int, cx: Context, z: byte)
    ensures var s := Seg(Reverse(tuple), Fin, start, una + 1, 1, [z]);
            var t := Sock(FinWait1, tuple, Retransmit(rto), rtte, Some(ts), Snd(0, 0, una, una + 1, 1, None),
                          Rcv(0, 0, start, false, start, 1, AckIdle));
            Accepts(t, s) &&
            Process(Ideal, t, cx, s) ==
            (Sock(TimeWait, tuple, Close(cx.now + CLOSE_DELAY), rtte.OnAck(Ideal, cx.now, una + 1), Some(cx.now),
                  Snd(0, 0, una + 1, una + 1, 1, Some(una + 1)),
                      Rcv(z, 1, start + 1, true, start, 1, AckWaiting(cx.now + ACK_DELAY_DEFAULT))), None)
  {
    var s := Seg(Reverse(tuple), Fin, start, una + 1, 1, [z]);
    var t := Sock(FinWait1, tuple, Retransmit(rto), rtte, Some(ts), Snd(0, 0, una, una + 1, 1, None),
                  Rcv(0, 0, start, false, start, 1, AckIdle));
    var t1 := Sock(TimeWait, tuple, Close(cx.now + CLOSE_DELAY), rtte.OnAck(Ideal, cx.now, una + 1), Some(cx.now),
                   Snd(0, 0, una + 1, una + 1, 1, Some(una + 1)), Rcv(0, 0, start + 1, true, start, 1, AckIdle));
    assert CheckAck(Ideal, t.state, t.snd, s) == AckAccept;
    assert AnalyseAck(Ideal, t.state, t.snd, s) == AckInfo(0, true, true);
    assert UpdateSend(Ideal, t.snd, s, 0) == t1.snd;
    assert Advance(Ideal, t, cx, s) == Go(t1);
    OctetInWindow(0, start, false, start, 1, AckIdle, s);
    StoreStep(t1, cx, s, 0, start + 1, true, start, 1, z);
    StoredProcess(t, cx, s, z, t1, t1.(rcv :=
                                       Rcv(z, 1, start + 1, true, start, 1, AckWaiting(cx.now + ACK_DELAY_DEFAULT))));
  }

  /** The acknowledgement goes out in TIME-WAIT. */
  lemma TimeWaitAckStep(t: Tcb, z: byte, start: int, at: int, due: int, cx: Context)
    requires t.state == TimeWait && t.tuple.Some? && t.lastTs.Some? && t.conf.timeout.None? && t.timer == Close(at)
             && cx.now < at
    requires t.snd == Snd(0, 0, t.snd.una, t.snd.una, 1, t.snd.lastRxAck)
    requires t.rcv == Rcv(z, 1, start + 1, true, start, 1, AckWaiting(due)) && due <= cx.now
    ensures DispatchSafe(Ideal, t, cx)
    ensures var t' := Dispatch(Ideal, t, cx, true).0;
            t'.state == TimeWait && t'.timer == t.timer && t'.conf == t.conf && t'.lastTs == t.lastTs &&
            t'.rcv == Rcv(z, 1, start + 1, true, start + 2, 0, AckIdle)
  {
    assert !SeqToTransmit(Ideal, t, cx);
    assert BeforeDispatch(Ideal, t, cx) == t;
  }

  /** A closes; B takes the FIN, writes `z`, closes and sends both; A is in TIME-WAIT with `z` unread. */
  lemma UnreadInTimeWait(here: Endpoint, there: Endpoint, base: int, other: int, z: byte)
    returns (run: seq<(bool, Action)>, w: World)
    ensures Steps(Start(here, there, base, other), run, w)
    ensures w.a.t.state == TimeWait && w.a.t.timer == Close(CLOSE_DELAY) && w.a.t.conf.timeout.None?
    ensures w.a.t.rcv == Rcv(z, 1, other + 1, true, other + 2, 0, AckIdle)
  {
    var w0, cx := Start(here, there, base, other), At(0);
    run, w := BothClosed(here, there, base, other, z);
    TimeWaitStep(Tuple(here, there), RTTE_DEFAULT.OnSend(Ideal, 0, base + 1), 0, base, 1_000_000, other, cx, z);
    var s := Seg(Tuple(there, here), Fin, other, base + 1, 1, [z]);
    run, w := Do(w0, run, w, true, Arrive(cx, s), Process(Ideal, w.a.t, cx, s).0, None);
    var later := At(ACK_DELAY_DEFAULT);
    TimeWaitAckStep(w.a.t, z, other, CLOSE_DELAY, ACK_DELAY_DEFAULT, later);
    var sent := Dispatch(Ideal, w.a.t, later, true);
    run, w := Polled(w0, run, w, true, later, sent.0, sent.1.value);
  }

  lemma FinSeen(here: Endpoint, there: Endpoint, base: int, other: int) returns (run: seq<(bool, Action)>, w: World)
    ensures Steps(Start(here, there, base, other), run, w)
    ensures w.a.t == Sock(FinWait1, Tuple(here, there), Retransmit(1_000_000), RTTE_DEFAULT.OnSend(Ideal, 0, base + 1),
                          Some(0),
                          Snd(0, 0, base, base + 1, 1, None), Rcv(0, 0, other, false, other, 1, AckIdle))
    ensures w.b.t == Sock(CloseWait, Tuple(there, here), Idle(None), RTTE_DEFAULT, Some(0),
                          Snd(0, 0, other, other, 1, Some(other)),
                          Rcv(0, 0, base + 1, true, base, 1, AckIdle))
  {
    var w0, cx := Start(here, there, base, other), At(0);
    StartSockets(here, there, base, other);
    run, w := Do(w0, [], w0, true, CloseCall, DoClose(w0.a.t), None);
    FinStep(Tuple(here, there), base, other, cx);
    var sent := Dispatch(Ideal, w.a.t, cx, true);
    run, w := Polled(w0, run, w, true, cx, sent.0, sent.1.value);
    var s := Seg(Tuple(here, there), Fin, base, other, 1, []);
    FinTakenStep(Tuple(there, here), other, base, cx);
    run, w := Do(w0, run, w, false, Arrive(cx, s), Process(Ideal, w.b.t, cx, s).0, None);
  }

  lemma CloseStep(state: State, tuple: Tuple, timer: Timer, rtte: Rtte, ts: Option<int>, snd: SendHalf, rcv: RecvHalf)
    requires MaySend(state)
    ensures DoClose(Sock(state, tuple, timer, rtte, ts, snd, rcv)) ==
            Sock(if state == Established then FinWait1 else LastAck, tuple, timer, rtte, ts, snd, rcv)
  {
  }

  lemma LastWritten(here: Endpoint, there: Endpoint, base: int, other: int, z: byte)
    returns (run: seq<(bool, Action)>, w: World)
    ensures Steps(Start(here, there, base, other), run, w)
    ensures w.a.t == Sock(FinWait1, Tuple(here, there), Retransmit(1_000_000), RTTE_DEFAULT.OnSend(Ideal, 0, base + 1),
                          Some(0),
                          Snd(0, 0, base, base + 1, 1, None), Rcv(0, 0, other, false, other, 1, AckIdle))
    ensures w.b.t == Sock(LastAck, Tuple(there, here), Idle(None), RTTE_DEFAULT, None,
                          Snd(z, 1, other, other, 1, Some(other)),
                          Rcv(0, 0, base + 1, true, base, 1, AckIdle))
  {
    var w0 := Start(here, there, base, other);
    run, w := FinSeen(here, there, base, other);
    var rcv := Rcv(0, 0, base + 1, true, base, 1, AckIdle);
    WriteStep(CloseWait, Tuple(there, here), RTTE_DEFAULT, Some(0), 0, other, 1, Some(other), rcv, z);
    run, w := Do(w0, run, w, false, Write([z]), DoSend(w.b.t, [z]).0, None);
    CloseStep(CloseWait, Tuple(there, here), Idle(None), RTTE_DEFAULT, None, Snd(z, 1, other, other, 1, Some(other)),
              rcv);
    run, w := Do(w0, run, w, false, CloseCall, DoClose(w.b.t), None);
  }

  lemma BothClosed(here: Endpoint, there: Endpoint, base: int, other: int, z: byte)
    returns (run: seq<(bool, Action)>, w: World)
    ensures Steps(Start(here, there, base, other), run, w)
    ensures w.a.t == Sock(FinWait1, Tuple(here, there), Retransmit(1_000_000), RTTE_DEFAULT.OnSend(Ideal, 0, base + 1),
                          Some(0),
                          Snd(0, 0, base, base + 1, 1, None), Rcv(0, 0, other, false, other, 1, AckIdle))
    ensures Seg(Tuple(there, here), Fin, other, base + 1, 1, [z]) in w.ba
  {
    var w0, cx := Start(here, there, base, other), At(0);
    run, w := LastWritten(here, there, base, other, z);
    LastOctetStep(Tuple(there, here), z, other, base, cx);
    var sent := Dispatch(Ideal, w.b.t, cx, true);
    run, w := Polled(w0, run, w, false, cx, sent.0, sent.1.value);
  }

  /** Two honest endpoints reach a state in which the end of TIME-WAIT drops an octet that was received and not read. */
  lemma TimeWaitDropsUnread(here: Endpoint, there: Endpoint, base: int, other: int, z: byte)
    returns (run: seq<(bool, Action)>, w: World)
    ensures Established2(Start(here, there, base, other)) && Steps(Start(here, there, base, other), run, w)
    ensures w.a.finSeen && w.a.received == w.b.written && NothingLost(w.a)
    ensures var poll := Transmit(At(CLOSE_DELAY), true); CanHappen(w, poll) && !NothingLost(StepA(w, poll).a)
  {
    StartSockets(here, there, base, other);
    run, w := UnreadInTimeWait(here, there, base, other, z);
    Reached(Start(here, there, base, other), run, w);
    var poll := Transmit(At(CLOSE_DELAY), true);
    assert EdgeOk(Ideal, w.a.t);
    EdgeOkIsSafe(Ideal, w.a.t, At(CLOSE_DELAY));
    assert EndsTimeWait(w.a.t, At(CLOSE_DELAY));
    UnreadStep(w, poll);
  }

  // ----- a window rounded down to its scale

  lemma {:induction false} RunsThen(m: Arith, t0: Tcb, events: seq<Event>, t: Tcb, e: Event)
    requires Runs(m, t0, events, t) && Enabled(m, t, e)
    ensures Runs(m, t0, events + [e], Step(m, t, e))
    decreases |events|
  {
    var longer := events + [e];
    if |events| == 0 {
      assert longer[1..] == [];
    } else {
      assert longer[0] == events[0] && longer[1..] == events[1..] + [e];
      RunsThen(m, Step(m, t0, events[0]), events[1..], t, e);
    }
  }

  const LARGE: nat := 65536
  const HERE := Endpoint(Ipv4(0x0a00_0001), 80)
  const THERE := Endpoint(Ipv4(0x0a00_0002), 49500)

  lemma LargeShift()
    ensures DefaultShift(LARGE) == 1
  {
    assert BitLength(16) == 5;
    assert BitLength(256) == 9;
    assert BitLength(4096) == 13;
  }

  /** An Established socket without data of its own, whose receiving half is `rcv`. */
  ghost predicate Idling(t: Tcb, una: int, rcv: RecvHalf) {
    && t.state == Established && t.tuple == Some(Tuple(HERE, THERE)) && t.timer == Idle(None) && t.lastTs.Some?
    && t.snd.buf.len == 0 && t.snd.una == una && t.snd.nxt == una && t.rcv == rcv
    && t.conf == Config(4, None, None, Some(ACK_DELAY_DEFAULT), true)
  }

  function LargeRcv(buf: Ring, start: int, lastAck: int, lastWin: nat, timer: AckDelayTimer): RecvHalf {
    RecvHalf(buf, [], start, false, Some(lastAck), lastWin, 1, timer)
  }

  /** A segment of the peer. */
  function FromPeer(seqNo: int, ack: int, payload: seq<byte>): Segment {
    Segment(THERE, HERE, NoFlag, seqNo, Some(ack), 1000, None, None, payload)
  }

  /** The socket connects and sends its SYN. */
  lemma SynStep(rx: seq<byte>, tx: seq<byte>, isn: int)
    requires |rx| == LARGE
    ensures var t := DoConnect(NewSocket(Ring(rx, 0, 0), Ring(tx, 0, 0), 4), Tuple(HERE, THERE), isn).0;
            DispatchSafe(Ideal, t, At(0)) &&
            Dispatch(Ideal, t, At(0), true).0 ==
            Tcb(SynSent, Some(Tuple(HERE, THERE)), ListenEndpoint(None, 0), Retransmit(1_000_000),
                RTTE_DEFAULT.OnSend(Ideal, 0, isn + 1), Some(0), 0,
                SendHalf(Ring(tx, 0, 0), isn, isn + 1, 0, None, DEFAULT_MSS, None, 0),
                RecvHalf(Ring(rx, 0, 0), [], 0, false, None, U16_MAX, 1, AckIdle),
                    Config(4, None, None, Some(ACK_DELAY_DEFAULT), true))
  {
    LargeShift();
    assert Ring(rx, 0, 0).Clear() == Ring(rx, 0, 0) && Ring(tx, 0, 0).Clear() == Ring(tx, 0, 0);
    var t := DoConnect(NewSocket(Ring(rx, 0, 0), Ring(tx, 0, 0), 4), Tuple(HERE, THERE), isn).0;
    var t1 := t.(lastTs := Some(0));
    assert SeqToTransmit(Ideal, t1, At(0)) && BeforeDispatch(Ideal, t, At(0)) == t1;
  }

  /** The SYN|ACK arrives. */
  lemma SynAckStep(rx: seq<byte>, tx: seq<byte>, isn: int, irs: int)
    requires |rx| == LARGE
    ensures var t := Tcb(SynSent, Some(Tuple(HERE, THERE)), ListenEndpoint(None, 0), Retransmit(1_000_000),
                         RTTE_DEFAULT.OnSend(Ideal, 0, isn + 1), Some(0), 0,
                SendHalf(Ring(tx, 0, 0), isn, isn + 1, 0, None, DEFAULT_MSS, None, 0),
                RecvHalf(Ring(rx, 0, 0), [], 0, false, None, U16_MAX, 1, AckIdle),
                    Config(4, None, None, Some(ACK_DELAY_DEFAULT), true));
            var s := Segment(THERE, HERE, Syn, irs, Some(isn + 1), 1000, Some(0), None, []);
            Accepts(t, s) &&
            Idling(Process(Ideal, t, At(0), s).0, isn + 1, LargeRcv(Ring(rx, 0, 0), irs + 1, irs, U16_MAX, AckIdle))
  {
    var t := Tcb(SynSent, Some(Tuple(HERE, THERE)), ListenEndpoint(None, 0), Retransmit(1_000_000),
                 RTTE_DEFAULT.OnSend(Ideal, 0, isn + 1), Some(0), 0,
                SendHalf(Ring(tx, 0, 0), isn, isn + 1, 0, None, DEFAULT_MSS, None, 0),
                RecvHalf(Ring(rx, 0, 0), [], 0, false, None, U16_MAX, 1, AckIdle),
                    Config(4, None, None, Some(ACK_DELAY_DEFAULT), true));
    var s := Segment(THERE, HERE, Syn, irs, Some(isn + 1), 1000, Some(0), None, []);
    assert CheckAck(Ideal, t.state, t.snd, s) == AckAccept;
    SynSentShape(Ideal, t, At(0), s);
  }

  /** An owed acknowledgement goes out and carries the window, rounded down to its scale. */
  lemma RoundedStep(t: Tcb, una: int, buf: Ring, start: int, lastAck: int, lastWin: nat, timer: AckDelayTimer,
                    cx: Context)
    requires Idling(t, una, LargeRcv(buf, start, lastAck, lastWin, timer)) && DelayedAckExpired(timer, cx.now)
    requires Inv(Ideal, t) && buf.Capacity() == LARGE && lastAck < start + buf.len
    ensures DispatchSafe(Ideal, t, cx)
    ensures Idling(Dispatch(Ideal, t, cx, true).0, una,
                   LargeRcv(buf, start, start + buf.len, buf.Window() / 2, AckIdle))
  {
    NothingToSend(Ideal, t, cx);
    assert BeforeDispatch(Ideal, t, cx) == t;
    assert Shr(buf.Window(), 1) == Shr(buf.Window(), 0) / 2;
    GetAllocatedFacts(t.snd.buf, 0, Min(Min(WindowLimit(Ideal, t.snd), t.snd.mss), LocalMss(Tuple(HERE, THERE), cx)));
    assert DataPayload(Ideal, t, cx) == [];
  }

  /** A segment at the left edge arrives, with the acknowledgement idle. */
  lemma LargeArriveStep(t: Tcb, una: int, buf: Ring, start: int, win: nat, cx: Context, payload: seq<byte>)
    requires Inv(Ideal, t) && Idling(t, una, LargeRcv(buf, start, start + buf.len, win, AckIdle))
             && buf.Capacity() == LARGE
    requires 0 < |payload| <= buf.Window()
    ensures var s := FromPeer(start + buf.len, una, payload);
            var buf' := buf.WriteUnallocated(0, payload).EnqueueUnallocated(|payload|);
            && Accepts(t, s) && SegmentOk(Ideal, s)
            && Idling(Process(Ideal, t, cx, s).0, una,
                      LargeRcv(buf', start, start + buf.len, win, AckWaiting(cx.now + ACK_DELAY_DEFAULT)))
  {
    var s := FromPeer(start + buf.len, una, payload);
    InOrderKept(Ideal, t, s);
    OnlyRange(t.conf.slots, 0, |payload|);
    StoreFacts(buf, 0, payload, |payload|);
    LargeAdvance(t, una, cx, s);
    var t1 := Advance(Ideal, t, cx, s).t;
    assert Receive(t1.rcv, 4, payload, 0) ==
           Some(LargeRcv(buf.WriteUnallocated(0, payload).EnqueueUnallocated(|payload|), start, start + buf.len, win,
                         AckIdle));
  }

  lemma LargeAdvance(t: Tcb, una: int, cx: Context, s: Segment)
    requires Idling(t, una, t.rcv) && s.control == NoFlag && s.ack == Some(una) && s.win == 1000
    ensures var r := Advance(Ideal, t, cx, s); r.Go? && Idling(r.t, una, t.rcv)
  {
    AdvanceShape(Ideal, t, cx, s);
    ShlMonotone(1000, 1000, if t.snd.winScale.None? then 0 else t.snd.winScale.value);
  }

  /** One more event. */
  lemma Happens(rx: Ring, tx: Ring, events: seq<Event>, t: Tcb, e: Event) returns (events': seq<Event>, t': Tcb)
    requires Reachable(Ideal, rx, tx, 4, events, t) && Enabled(Ideal, t, e)
    ensures Reachable(Ideal, rx, tx, 4, events', t') && t' == Step(Ideal, t, e) && Inv(Ideal, t')
    ensures events' == events + [e]
  {
    RunsThen(Ideal, NewSocket(rx, tx, 4), events, t, e);
    events', t' := events + [e], Step(Ideal, t, e);
    ReachableInv(Ideal, rx, tx, 4, events', t');
  }

  /** The handshake is over. */
  lemma LargeConnected(rx: seq<byte>, tx: seq<byte>, isn: int, irs: int) returns (events: seq<Event>, t: Tcb)
    requires |rx| == LARGE && |tx| <= TX_LIMIT
    ensures Reachable(Ideal, Ring(rx, 0, 0), Ring(tx, 0, 0), 4, events, t) && Inv(Ideal, t)
    ensures Idling(t, isn + 1, LargeRcv(Ring(rx, 0, 0), irs + 1, irs, U16_MAX, AckIdle))
  {
    var r, q, cx := Ring(rx, 0, 0), Ring(tx, 0, 0), At(0);
    events, t := Happens(r, q, [], NewSocket(r, q, 4), EvConnect(Tuple(HERE, THERE), isn));
    SynStep(rx, tx, isn);
    events, t := Happens(r, q, events, t, EvDispatch(cx, true));
    SynAckStep(rx, tx, isn, irs);
    var s := Segment(THERE, HERE, Syn, irs, Some(isn + 1), 1000, Some(0), None, []);
    events, t := Happens(r, q, events, t, EvProcess(cx, s));
  }

  /** All of the buffer has been advertised. */
  lemma LargeTold(rx: seq<byte>, tx: seq<byte>, isn: int, irs: int) returns (events: seq<Event>, t: Tcb)
    requires |rx| == LARGE && |tx| <= TX_LIMIT
    ensures Reachable(Ideal, Ring(rx, 0, 0), Ring(tx, 0, 0), 4, events, t) && Inv(Ideal, t)
    ensures Idling(t, isn + 1, LargeRcv(Ring(rx, 0, 0), irs + 1, irs + 1, LARGE / 2, AckIdle))
  {
    var r, q, cx := Ring(rx, 0, 0), Ring(tx, 0, 0), At(0);
    events, t := LargeConnected(rx, tx, isn, irs);
    RoundedStep(t, isn + 1, r, irs + 1, irs, U16_MAX, AckIdle, cx);
    events, t := Happens(r, q, events, t, EvDispatch(cx, true));
  }

  /** An odd number of octets arrives. */
  lemma LargeFilled(rx: seq<byte>, tx: seq<byte>, isn: int, irs: int, first: seq<byte>)
    returns (events: seq<Event>, t: Tcb, buf: Ring)
    requires |rx| == LARGE && |tx| <= TX_LIMIT && |first| == 65001
    ensures Reachable(Ideal, Ring(rx, 0, 0), Ring(tx, 0, 0), 4, events, t) && Inv(Ideal, t)
    ensures buf.len == 65001 && buf.Capacity() == LARGE
    ensures Idling(t, isn + 1, LargeRcv(buf, irs + 1, irs + 1, LARGE / 2, AckWaiting(ACK_DELAY_DEFAULT)))
  {
    var r, q, cx := Ring(rx, 0, 0), Ring(tx, 0, 0), At(0);
    events, t := LargeTold(rx, tx, isn, irs);
    LargeArriveStep(t, isn + 1, r, irs + 1, LARGE / 2, cx, first);
    StoreFacts(r, 0, first, |first|);
    buf := r.WriteUnallocated(0, first).EnqueueUnallocated(|first|);
    events, t := Happens(r, q, events, t, EvProcess(cx, FromPeer(irs + 1, isn + 1, first)));
  }

  /**
    A new socket reaches, without any probe or read, a state in which polling leaves the domain of the
    subtraction: 65536 octets were advertised, 65001 arrive and are acknowledged, which rounds the
    remaining window of 535 down to 534, and then the other 535 octets arrive in one segment.
   */
  lemma RoundedWindow(rx: seq<byte>, tx: seq<byte>, isn: int, irs: int, first: seq<byte>, second: seq<byte>)
    returns (events: seq<Event>, t: Tcb)
    requires |rx| == LARGE && |tx| <= TX_LIMIT && |first| == 65001 && |second| == 535
    ensures Reachable(Ideal, Ring(rx, 0, 0), Ring(tx, 0, 0), 4, events, t)
    ensures forall later: Context :: later.now < 2 * ACK_DELAY_DEFAULT ==> !DispatchSafe(Ideal, t, later)
  {
    var r, q, cx := Ring(rx, 0, 0), Ring(tx, 0, 0), At(ACK_DELAY_DEFAULT);
    var before, buf;
    events, before, buf := LargeFilled(rx, tx, isn, irs, first);
    RoundedStep(before, isn + 1, buf, irs + 1, irs + 1, LARGE / 2, AckWaiting(ACK_DELAY_DEFAULT), cx);
    events, before := Happens(r, q, events, before, EvDispatch(cx, true));
    var s := FromPeer(irs + 65002, isn + 1, second);
    OneShort(before, isn, irs, buf, s);
    events, t := Happens(r, q, events, before, EvProcess(cx, s));
    forall later: Context | later.now < 2 * ACK_DELAY_DEFAULT
      ensures !DispatchSafe(Ideal, t, later)
    {
      PollAfterProcess(Ideal, before, cx, s, later);
    }
  }

  lemma OneShort(t: Tcb, isn: int, irs: int, buf: Ring, s: Segment)
    requires Inv(Ideal, t) && Idling(t, isn + 1, LargeRcv(buf, irs + 1, irs + 65002, 267, AckIdle))
    requires buf.len == 65001 && buf.Capacity() == LARGE
    requires s == FromPeer(irs + 65002, isn + 1, s.payload) && |s.payload| == 535
    ensures AtRest(Ideal, t) && Accepts(t, s) && SegmentOk(Ideal, s) && Overruns(Ideal, t, s)
  {
    assert Shl(267, 1) == 534;
    OverrunsWhenTold(Ideal, t, s);
  }

  // ----- a simultaneous open

  /** The peer's own SYN, which acknowledges nothing. */
  function PeerSyn(tuple: Tuple, irs: int): Segment {
    Segment(tuple.remote, tuple.local, Syn, irs, None, 1000, None, None, [])
  }

  /**
    A new socket leaves the domain of the subtraction in two events: it connects, and the SYN of a peer that
    connects to it arrives before its own has gone out. No segment overruns an edge; none was advertised.
   */
  lemma SimultaneousOpen(rx: Ring, tx: Ring, tuple: Tuple, isn: int, irs: int)
    returns (events: seq<Event>, t: Tcb)
    requires rx.Valid() && rx.len == 0 && rx.Capacity() <= RX_LIMIT
    requires tx.Valid() && tx.len == 0 && tx.Capacity() <= TX_LIMIT
    requires DoConnect(NewSocket(rx, tx, 4), tuple, isn).1
    ensures events == [EvConnect(tuple, isn), EvProcess(At(0), PeerSyn(tuple, irs))]
    ensures Reachable(Ideal, rx, tx, 4, events, t)
    ensures t.state == SynReceived && forall later: Context :: !PollSafe(Ideal, t, later)
  {
    var t0, s := NewSocket(rx, tx, 4), PeerSyn(tuple, irs);
    var sent;
    events, sent := Happens(rx, tx, [], t0, EvConnect(tuple, isn));
    PeerSynTaken(sent, tuple, irs);
    events, t := Happens(rx, tx, events, sent, EvProcess(At(0), s));
  }

  lemma PeerSynTaken(t: Tcb, tuple: Tuple, irs: int)
    requires Inv(Ideal, t) && t.state == SynSent && t.tuple == Some(tuple) && t.rcv.lastWin == 0
    ensures var s := PeerSyn(tuple, irs);
            var t' := Process(Ideal, t, At(0), s).0;
            && Accepts(t, s) && SegmentOk(Ideal, s)
            && t'.state == SynReceived && forall later: Context :: !PollSafe(Ideal, t', later)
  {
    var s := PeerSyn(tuple, irs);
    SynSentShape(Ideal, t, At(0), s);
    forall later: Context
      ensures !PollSafe(Ideal, Process(Ideal, t, At(0), s).0, later)
    {
      PollAfterOpening(Ideal, t, At(0), s, later);
    }
  }

  // ----- a segment size from an attempt before

  function SynTo80(irs: int, mss: Option<nat>): Segment {
    Segment(THERE, HERE, Syn, irs, None, 1000, None, mss, [])
  }

  /** A SYN that names a size, or leaves it open, arrives at a listening socket. */
  lemma ListeningTakes(t: Tcb, irs: int, mss: Option<nat>)
    requires Inv(Ideal, t) && t.state == Listen && t.listen == ListenEndpoint(None, 80) && mss != Some(0)
    requires mss.Some? ==> mss.value <= U16_MAX
    ensures var s := SynTo80(irs, mss);
            var t' := Process(Ideal, t, At(0), s).0;
            && Accepts(t, s) && SegmentOk(Ideal, s)
            && t'.state == SynReceived && t'.tuple == Some(Tuple(HERE, THERE)) && t'.listen == t.listen
            && t'.rcv.start == irs + 1 && t'.snd.mss == (if mss.Some? then mss.value else t.snd.mss)
  {
    ArrivalMeaning(Ideal, t, At(0), SynTo80(irs, mss));
  }

  /** A reset at the left edge sends it back to listening. */
  lemma AnsweringResets(t: Tcb, irs: int)
    requires Inv(Ideal, t) && t.state == SynReceived && t.tuple == Some(Tuple(HERE, THERE)) && t.rcv.start == irs + 1
    requires t.listen == ListenEndpoint(None, 80)
    ensures var s := Segment(THERE, HERE, Rst, irs + 1, None, 0, None, None, []);
            Accepts(t, s) && SegmentOk(Ideal, s)
            && Process(Ideal, t, At(0), s).0 == t.(state := Listen, tuple := None)
  {
    ArrivalMeaning(Ideal, t, At(0), Segment(THERE, HERE, Rst, irs + 1, None, 0, None, None, []));
  }

  /**
    A listening socket keeps the segment size of an attempt that was reset: the SYN that opens the connection
    names none, and the socket goes by the size of the one before.
   */
  lemma StaleSegmentSize(rx: Ring, tx: Ring, irs: int) returns (events: seq<Event>, t: Tcb)
    requires rx.Valid() && rx.len == 0 && rx.Capacity() <= RX_LIMIT
    requires tx.Valid() && tx.len == 0 && tx.Capacity() <= TX_LIMIT
    ensures events == [EvListen(ListenEndpoint(None, 80)), EvProcess(At(0), SynTo80(irs, Some(1460))),
                       EvProcess(At(0), Segment(THERE, HERE, Rst, irs + 1, None, 0, None, None, [])),
                       EvProcess(At(0), SynTo80(irs, None))]
    ensures Reachable(Ideal, rx, tx, 4, events, t) && t.state == SynReceived && t.snd.mss == 1460
  {
    events, t := Happens(rx, tx, [], NewSocket(rx, tx, 4), EvListen(ListenEndpoint(None, 80)));
    ListeningTakes(t, irs, Some(1460));
    events, t := Happens(rx, tx, events, t, EvProcess(At(0), SynTo80(irs, Some(1460))));
    AnsweringResets(t, irs);
    events, t := Happens(rx, tx, events, t,
                         EvProcess(At(0), Segment(THERE, HERE, Rst, irs + 1, None, 0, None, None, [])));
    ListeningTakes(t, irs, None);
    events, t := Happens(rx, tx, events, t, EvProcess(At(0), SynTo80(irs, None)));
  }
}
