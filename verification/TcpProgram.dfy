/**
  End-to-end safety of the program's own sockets, with 32-bit sequence numbers: they follow the unbounded
  ones step by step, as long as no number is compared with one that lies 2^31 or more away.
 */
module TcpProgram {
  import opened Options
  import opened Octets
  import opened Shifts
  import opened SeqNumber
  import opened Timers
  import opened RingSpec
  import opened TcpModel
  import opened TcpInvariant
  import opened TcpNetwork
  import opened TcpDelivery
  import opened TcpStream
  import opened TcpWrap
  import opened TcpCommute
  import A = AssemblerSpec

  /** The two sockets of the program, and everything each has ever sent, on 32-bit numbers. */
  datatype Program = Program(a: Tcb, b: Tcb, ab: set<Segment>, ba: set<Segment>) {
    function Swap(): Program {
      Program(b, a, ba, ab)
    }
  }

  function EncodeNet(net: set<Segment>): set<Segment> {
    set g | g in net :: EncodeSegment(g)
  }

  /** The connection as the program holds it. */
  function EncodeWorld(w: World): Program {
    Program(EncodeTcb(w.a.t), EncodeTcb(w.b.t), EncodeNet(w.ab), EncodeNet(w.ba))
  }

  /** One call, poll or arrival at a socket of the program. */
  function ActProgram(t: Tcb, act: Action): (Tcb, Reply) {
    match act
    case Write(data) => (DoSend(t, data).0, None)
    case Read(want) => (DoRecv(Wrapped, t, want).0, None)
    case CloseCall => (DoClose(t), None)
    case AbortCall => (DoAbort(t), None)
    case Configure(timeout, ackDelay, nagle) => (Reconfigure(t, timeout, ackDelay, nagle), None)
    case Transmit(cx, sent) => Dispatch(Wrapped, t, EncodeContext(cx), sent)
    case Arrive(cx, s) => Process(Wrapped, t, EncodeContext(cx), EncodeSegment(s))
  }

  function StepSocket(p: Program, act: Action): Program {
    var (t', reply) := ActProgram(p.a, act);
    p.(a := t', ab := With(p.ab, reply))
  }

  function StepProgram(p: Program, atA: bool, act: Action): Program {
    if atA then StepSocket(p, act) else StepSocket(p.Swap(), act).Swap()
  }

  /** What arrives was sent by the other socket of the program, unless it is a reset. */
  ghost predicate WasSent(p: Program, act: Action) {
    act.Arrive? ==> EncodeSegment(act.segment) in p.ba || act.segment.control == Rst
  }

  ghost predicate ProgramRuns(p: Program, run: seq<(bool, Action)>, p': Program)
    decreases |run|
  {
    if |run| == 0 then p' == p
    else
      && WasSent(if run[0].0 then p else p.Swap(), run[0].1)
      && ProgramRuns(StepProgram(p, run[0].0, run[0].1), run[1..], p')
  }

  // ----- what must be near what

  /** The socket is less than a buffer behind with its acknowledgements. */
  ghost predicate CaughtUp(rcv: RecvHalf) {
    rcv.lastAck.Some? ==> rcv.Next(Ideal) - rcv.lastAck.value < RX_LIMIT - 1
  }

  /** The segment and the estimator are near, and the socket acknowledges what it receives. */
  ghost predicate NearStep(t: Tcb, act: Action) {
    match act
    case Transmit(_, _) => CaughtUp(t.rcv) && NearRtte(t)
    case Arrive(_, s) => CaughtUp(t.rcv) && NearSegment(t, s)
    case _ => true
  }

  ghost predicate NearRun(w: World, run: seq<(bool, Action)>)
    decreases |run|
  {
    |run| > 0 ==>
      && NearStep(if run[0].0 then w.a.t else w.b.t, run[0].1)
      && NearRun(StepWorld(w, run[0].0, run[0].1), run[1..])
  }

  lemma ToldIsNear(rcv: RecvHalf, slots: nat)
    requires RecvOk(Ideal, rcv, slots) && Told(rcv) && CaughtUp(rcv)
    ensures NearAck(rcv)
  {
    ShlMonotone(rcv.lastWin, rcv.lastWin, rcv.shift);
  }

  lemma WindowTold(rcv: RecvHalf, slots: nat)
    requires RecvOk(Ideal, rcv, slots)
    ensures Told(rcv.(lastAck := Some(rcv.Next(Ideal)), lastWin := rcv.ScaledWindow()))
  {
    ShrShlBelow(rcv.buf.Window(), rcv.shift);
    ShlMonotone(rcv.ScaledWindow(), Shr(rcv.buf.Window(), rcv.shift), rcv.shift);
  }

  lemma DispatchTold(t: Tcb, cx: Context, sent: bool)
    requires Inv(Ideal, t) && Told(t.rcv) && (Synced(t.state) || t.state == Closed)
    ensures Told(Dispatch(Ideal, t, cx, sent).0.rcv)
  {
    if t.tuple.Some? {
      var t1 := BeforeDispatch(Ideal, t, cx);
      assert t1.rcv == t.rcv && !SentSyn(t1.state);
      WindowTold(t.rcv, t.conf.slots);
      SendTold(t1, t.tuple.value, cx);
    }
  }

  lemma SendTold(t: Tcb, tuple: Tuple, cx: Context)
    requires RecvOk(Ideal, t.rcv, t.conf.slots) && Told(t.rcv) && !SentSyn(t.state)
    ensures Told(AfterSend(Ideal, t, tuple, cx, OutgoingSegment(Ideal, t, tuple, cx)).rcv)
  {
    WindowTold(t.rcv, t.conf.slots);
    var s := DraftSegment(Ideal, t, tuple, cx);
    assert s.ack == Some(t.rcv.Next(Ideal)) && s.win == t.rcv.ScaledWindow();
  }

  lemma ReplyTold(t: Tcb, s: Segment)
    requires RecvOk(Ideal, t.rcv, t.conf.slots)
    ensures Told(AckReply(Ideal, t, s).0.rcv)
  {
    WindowTold(t.rcv, t.conf.slots);
  }

  lemma ChallengeTold(t: Tcb, cx: Context, s: Segment)
    requires RecvOk(Ideal, t.rcv, t.conf.slots) && Told(t.rcv)
    ensures Told(ChallengeAck(Ideal, t, cx, s).0.rcv)
  {
    ReplyTold(t.(challengeAt := cx.now + CHALLENGE_ACK_INTERVAL), s);
  }

  lemma StoreTold(t: Tcb, cx: Context, s: Segment, payload: seq<byte>, offset: nat)
    requires RecvOk(Ideal, t.rcv, t.conf.slots) && Told(t.rcv) && offset + |payload| <= t.rcv.buf.Window()
    ensures Told(StorePayload(Ideal, t, cx, s, payload, offset).0.rcv)
  {
    var r := Receive(t.rcv, t.conf.slots, payload, offset);
    ReceiveOk(Ideal, t.rcv, t.conf.slots, payload, offset);
    if r.Some? {
      StoredNext(t.rcv, t.conf.slots, payload, offset);
      ReceiveKeepsSize(t.rcv, t.conf.slots, payload, offset);
      ReplyTold(t.(rcv := r.value.(ackTimer :=
                                   UpdateAckTimer(Ideal, r.value, t.snd.mss, t.conf.ackDelay, cx.now))), s);
    }
  }

  lemma ReceiveKeepsSize(rcv: RecvHalf, slots: nat, payload: seq<byte>, offset: nat)
    requires RecvOk(Ideal, rcv, slots) && offset + |payload| <= rcv.buf.Window()
             && Receive(rcv, slots, payload, offset).Some?
    ensures var r := Receive(rcv, slots, payload, offset).value;
            && r.buf.Capacity() == rcv.buf.Capacity() && r.start == rcv.start
            && r.shift == rcv.shift && r.lastWin == rcv.lastWin
  {
    ContigFits(Ideal, rcv, slots, |payload|, offset);
    StoreFacts(rcv.buf, offset, payload, A.AddThenRemoveFront(rcv.asm, slots, offset, |payload|).value.1);
  }

  lemma AdvanceTold(t: Tcb, cx: Context, s: Segment)
    requires Inv(Ideal, t) && Synced(t.state) && Told(t.rcv)
    ensures var t' := Advance(Ideal, t, cx, s).t;
            Told(t'.rcv) && RecvOk(Ideal, t'.rcv, t'.conf.slots) && t'.rcv.buf == t.rcv.buf
  {
    if s.control != Rst {
      AdvanceShape(Ideal, t, cx, s);
      TakeFinOk(Ideal, t.rcv, t.conf.slots);
    }
  }

  lemma ProcessTold(t: Tcb, cx: Context, s: Segment)
    requires Inv(Ideal, t) && SegmentOk(Ideal, s) && Synced(t.state) && Told(t.rcv)
    ensures Told(Process(Ideal, t, cx, s).0.rcv)
  {
    match CheckAck(Ideal, t.state, t.snd, s)
    case AckIgnore =>
    case AckReset =>
    case AckChallenge => ChallengeTold(t, cx, s);
    case AckAccept =>
      match CheckWindow(Ideal, t.rcv, s)
      case Outside => ChallengeTold(if t.state == TimeWait then t.(timer := ForClose(cx.now)) else t, cx, s);
      case Inside(payload, offset) =>
        CheckWindowFits(Ideal, t.rcv, s, t.conf.slots);
        AdvanceTold(t, cx, s);
        if Advance(Ideal, t, cx, s).Go? {
          StoreTold(Advance(Ideal, t, cx, s).t, cx, s, payload, offset);
        }
  }

  lemma ActTold(w: World, act: Action)
    requires WorldInv(w) && CanHappen(w, act) && Told(w.a.t.rcv)
    ensures Told(StepA(w, act).a.t.rcv)
  {
    match act
    case Transmit(cx, sent) => DispatchTold(w.a.t, cx, sent);
    case Arrive(cx, s) => ProcessTold(w.a.t, cx, s);
    case Read(want) => DequeueFacts(w.a.t.rcv.buf, Min(want, w.a.t.rcv.buf.len));
    case _ => CallKeepsReceived(w.a, act);
  }

  // ----- one step

  lemma ReadCommutes(t: Tcb, want: nat)
    requires t.rcv.buf.len < HALF
    ensures DoRecv(Wrapped, EncodeTcb(t), want) == (EncodeTcb(DoRecv(Ideal, t, want).0), DoRecv(Ideal, t, want).1)
  {
    EncodeAdd(t.rcv.start, Min(want, t.rcv.buf.len));
  }

  /** The program's socket does what the unbounded one does, and sends what it sends. */
  lemma ActCommutes(w: World, act: Action)
    requires WorldInv(w) && CanHappen(w, act) && NearStep(w.a.t, act) && Told(w.a.t.rcv)
    ensures var (x, reply) := Act(w.a, act); ActProgram(EncodeTcb(w.a.t), act) == (EncodeTcb(x.t), EncodeReply(reply))
  {
    var t := w.a.t;
    if act.Transmit? || act.Arrive? {
      ToldIsNear(t.rcv, t.conf.slots);
    }
    match act
    case Transmit(cx, sent) => DispatchCommutes(t, cx, sent);
    case Arrive(cx, s) => ProcessCommutes(t, cx, s);
    case Read(want) => ReadCommutes(t, want);
    case _ => CallCommutes(w.a, act);
  }

  lemma CallCommutes(x: End, act: Action)
    requires act.Write? || act.CloseCall? || act.AbortCall? || act.Configure?
    ensures ActProgram(EncodeTcb(x.t), act) == (EncodeTcb(Act(x, act).0.t), None)
  {
    match act
    case Write(data) => WriteCommutes(x.t, data);
    case CloseCall => CloseCommutes(x.t);
    case _ =>
  }

  lemma WriteCommutes(t: Tcb, data: seq<byte>)
    ensures DoSend(EncodeTcb(t), data) == (EncodeTcb(DoSend(t, data).0), DoSend(t, data).1)
  {
  }

  lemma CloseCommutes(t: Tcb)
    ensures DoClose(EncodeTcb(t)) == EncodeTcb(DoClose(t))
  {
  }

  lemma NetCommutes(net: set<Segment>, reply: Reply)
    ensures EncodeNet(With(net, reply)) == With(EncodeNet(net), EncodeReply(reply))
  {
    if reply.Some? {
      assert EncodeNet(net + {reply.value}) == EncodeNet(net) + {EncodeSegment(reply.value)};
    }
  }

  lemma StepSocketFollows(w: World, act: Action)
    requires WorldInv(w) && CanHappen(w, act) && NearStep(w.a.t, act) && Told(w.a.t.rcv)
    ensures WasSent(EncodeWorld(w), act) && StepSocket(EncodeWorld(w), act) == EncodeWorld(StepA(w, act))
  {
    ActCommutes(w, act);
    NetCommutes(w.ab, Act(w.a, act).1);
  }

  lemma StepFollows(w: World, atA: bool, act: Action)
    requires WorldInv(w) && CanHappen(if atA then w else w.Swap(), act)
    requires NearStep(if atA then w.a.t else w.b.t, act) && Told(w.a.t.rcv) && Told(w.b.t.rcv)
    ensures var w' := StepWorld(w, atA, act);
            && WasSent(if atA then EncodeWorld(w) else EncodeWorld(w).Swap(), act)
            && StepProgram(EncodeWorld(w), atA, act) == EncodeWorld(w')
            && Told(w'.a.t.rcv) && Told(w'.b.t.rcv)
  {
    SwapInv(w);
    var v := if atA then w else w.Swap();
    StepSocketFollows(v, act);
    ActTold(v, act);
  }

  /**
    Whole runs commute as well: the program's sockets hold the encoded state of the unbounded ones, its
    network carries the encoded segments, and everything that arrives in its run was sent in its run.
   */
  lemma {:induction false} ProgramFollows(w: World, run: seq<(bool, Action)>, w': World)
    requires WorldInv(w) && Told(w.a.t.rcv) && Told(w.b.t.rcv) && Steps(w, run, w') && NearRun(w, run)
    ensures ProgramRuns(EncodeWorld(w), run, EncodeWorld(w'))
    decreases |run|
  {
    if |run| > 0 {
      var (atA, act) := run[0];
      StepFollows(w, atA, act);
      StepWorldInv(w, atA, act);
      ProgramFollows(StepWorld(w, atA, act), run[1..], w');
    }
  }

  lemma {:induction false} OneOutcome(p: Program, run: seq<(bool, Action)>, p': Program, q': Program)
    requires ProgramRuns(p, run, p') && ProgramRuns(p, run, q')
    ensures p' == q'
    decreases |run|
  {
    if |run| > 0 {
      OneOutcome(StepProgram(p, run[0].0, run[0].1), run[1..], p', q');
    }
  }

  /**
    In every such run the program's sockets deliver the right streams: what was read, followed by what waits
    in the receive buffer, is a prefix of what the other side has written, and all of it once the FIN is
    counted; and what was written is still in the transmit buffer or was received in order.
   */
  lemma ProgramSafety(w: World, run: seq<(bool, Action)>, w': World, p: Program)
    requires Established2(w) && Steps(w, run, w') && NearRun(w, run)
    requires ProgramRuns(EncodeWorld(w), run, p)
    ensures var a, b := w'.a.(t := p.a), w'.b.(t := p.b);
            StreamSafe(a, b) && StreamSafe(b, a) && Conserved(a, b) && Conserved(b, a)
  {
    EstablishedInv(w);
    ProgramFollows(w, run, w');
    OneOutcome(EncodeWorld(w), run, p, EncodeWorld(w'));
    ConnectionSafety(w, run, w');
    EncodedSafe(w'.a, w'.b);
    EncodedSafe(w'.b, w'.a);
  }

  /** What is said about buffers and states does not depend on how sequence numbers are kept. */
  lemma EncodedSafe(s: End, r: End)
    requires StreamSafe(s, r) && Conserved(s, r)
    ensures var s', r' := s.(t := EncodeTcb(s.t)), r.(t := EncodeTcb(r.t)); StreamSafe(s', r') && Conserved(s', r')
  {
  }
}
