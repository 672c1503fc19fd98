/**
  End-to-end stream safety: two sockets and a network that may lose, repeat and reorder segments.
 */
module TcpStream {
  import opened Options
  import opened Octets
  import opened Shifts
  import opened SeqNumber
  import opened Timers
  import opened RingSpec
  import opened TcpModel
  import opened TcpInvariant
  import opened TcpNetwork
  import opened TcpDelivery

  /** Both endpoints, everything each has ever sent, and the constants of the connection. */
  datatype World = World(a: End, b: End, ab: set<Segment>, ba: set<Segment>, k: Link2) {
    /** The same connection with the endpoints exchanged. */
    function Swap(): World {
      World(b, a, ba, ab, Link2(k.other, k.base, k.theirs, k.mine))
    }
  }

  /**
    What an endpoint can do. The network is a set of segments that only grows: a segment may arrive any
    number of times, at any time, or never. A reset may arrive from anywhere.
   */
  datatype Action =
    | Write(data: seq<byte>)
    | Read(want: nat)
    | CloseCall
    | AbortCall
    | Configure(timeout: Option<nat>, ackDelay: Option<nat>, nagle: bool)
    | Transmit(cx: Context, sent: bool)
    | Arrive(cx: Context, segment: Segment)

  ghost predicate CanHappen(w: World, act: Action) {
    match act
    case Transmit(cx, _) => DispatchSafe(Ideal, w.a.t, cx)
    case Arrive(_, s) => Accepts(w.a.t, s) && SegmentOk(Ideal, s) && (s in w.ba || s.control == Rst)
    case _ => true
  }

  function Act(x: End, act: Action): (End, Reply) {
    match act
    case Write(data) => (SendEnd(x, data), None)
    case Read(want) => (RecvEnd(x, want), None)
    case CloseCall => (x.(t := DoClose(x.t)), None)
    case AbortCall => (x.(t := DoAbort(x.t)), None)
    case Configure(timeout, ackDelay, nagle) => (x.(t := Reconfigure(x.t, timeout, ackDelay, nagle)), None)
    case Transmit(cx, sent) => var (t', reply) := Dispatch(Ideal, x.t, cx, sent); (x.(t := t'), reply)
    case Arrive(cx, s) => ProcessEnd(x, cx, s)
  }

  /** One step of endpoint A. */
  function StepA(w: World, act: Action): World {
    var (x, reply) := Act(w.a, act);
    w.(a := x, ab := With(w.ab, reply))
  }

  /** One step of the connection; `atA` says which endpoint moves. */
  function StepWorld(w: World, atA: bool, act: Action): World {
    if atA then StepA(w, act) else StepA(w.Swap(), act).Swap()
  }

  ghost predicate Steps(w: World, run: seq<(bool, Action)>, w': World)
    decreases |run|
  {
    if |run| == 0 then w' == w
    else
      && CanHappen(if run[0].0 then w else w.Swap(), run[0].1)
      && Steps(StepWorld(w, run[0].0, run[0].1), run[1..], w')
  }

  ghost predicate WorldInv(w: World) {
    Live(w.a, w.b, w.ab, w.ba, w.k) && EndOk(w.b)
  }

  /**
    Both sides are ESTABLISHED and quiet: nothing is buffered, each expects the other's first octet, and
    each knows a window that the other has advertised in the last segment of the handshake.
   */
  ghost predicate Established2(w: World) {
    && EndOk(w.a) && EndOk(w.b)
    && Fresh(w.a, w.b, w.ba, w.k.base, w.k.mine) && Fresh(w.b, w.a, w.ab, w.k.other, w.k.theirs)
    && (forall g :: g in w.ab ==> Handshake(g, w.a, w.k.base, w.k.other, w.k.theirs))
    && (forall g :: g in w.ba ==> Handshake(g, w.b, w.k.other, w.k.base, w.k.mine))
  }

  /** What was acknowledged was received, and the edge advertised with it fits the buffer. */
  ghost predicate Told(rcv: RecvHalf) {
    rcv.lastAck.Some? ==>
      && rcv.lastAck.value <= rcv.Next(Ideal)
      && LastEdge(Ideal, rcv) <= rcv.start + rcv.buf.Capacity()
  }

  ghost predicate Fresh(s: End, r: End, back: set<Segment>, base: int, shift: nat) {
    && s.t.state == Established && s.written == [] && s.delivered == [] && s.received == [] && !s.finSeen
    && s.t.snd.una == base && s.t.snd.buf.len == 0
    && s.t.rcv.buf.len == 0 && s.t.rcv.asm == [] && Told(s.t.rcv)
    && r.t.rcv.start == base && r.t.rcv.shift == shift && ScaleOf(s.t.snd) == shift
    && Advertised(back, shift, base + s.t.snd.winLen)
  }

  /** A bare acknowledgement from the end of the handshake. */
  ghost predicate Handshake(g: Segment, x: End, base: int, other: int, shift: nat) {
    && g.control == NoFlag && g.payload == [] && g.seqNo == base && SegmentOk(Ideal, g)
    && g.ack == Some(other) && Shl(g.win, shift) <= x.t.rcv.buf.Capacity()
  }

  /** One side of a new connection: its buffers, address, first sequence number and the segment size it accepts. */
  datatype Side = Side(rx: Ring, tx: Ring, at: Endpoint, isn: int, mss: nat) {
    ghost predicate Valid() {
      && rx.Valid() && rx.len == 0 && rx.Capacity() < RX_LIMIT
      && tx.Valid() && tx.len == 0 && tx.Capacity() <= TX_LIMIT && 0 < mss <= U16_MAX
    }

    /** The scale of its window, when both sides agree to scale. */
    function Shift(scaled: bool): nat {
      if scaled then DefaultShift(rx.Capacity()) else 0
    }

    function Window(scaled: bool): nat {
      Min(Shr(rx.Capacity(), Shift(scaled)), U16_MAX)
    }
  }

  /** An endpoint right after the handshake. */
  function FreshEnd(me: Side, peer: Side, scaled: bool): End {
    End(NewSocket(me.rx, me.tx, 4).(
          state := Established, tuple := Some(Tuple(me.at, peer.at)),
          snd := SendHalf(me.tx, me.isn, me.isn, Shl(peer.Window(scaled), peer.Shift(scaled)),
                          if scaled then Some(peer.Shift(scaled)) else None, peer.mss, None, 0),
          rcv := RecvHalf(me.rx, [], peer.isn, false, Some(peer.isn), me.Window(scaled), me.Shift(scaled), AckIdle)),
        [], [], [], false)
  }

  /** The acknowledgement that tells the other side its window. */
  function LastOfHandshake(me: Side, peer: Side, scaled: bool): Segment {
    Segment(me.at, peer.at, NoFlag, me.isn, Some(peer.isn), me.Window(scaled), None, None, [])
  }

  function FreshWorld(a: Side, b: Side, scaled: bool): World {
    World(FreshEnd(a, b, scaled), FreshEnd(b, a, scaled), {LastOfHandshake(a, b, scaled)},
          {LastOfHandshake(b, a, scaled)},
          Link2(a.isn, b.isn, b.Shift(scaled), a.Shift(scaled)))
  }

  lemma SideWindow(me: Side, scaled: bool)
    requires me.Valid()
    ensures me.Shift(scaled) <= 14 && Shl(me.Window(scaled), me.Shift(scaled)) <= me.rx.Capacity()
  {
    assert Shl(1, 30) == RX_LIMIT by {
      assert Shl(1, 10) == 0x400;
      assert Shl(1, 20) == 0x10_0000;
    }
    BitLengthBound(me.rx.Capacity(), 30);
    ShrShlBelow(me.rx.Capacity(), me.Shift(scaled));
    ShlMonotone(me.Window(scaled), Shr(me.rx.Capacity(), me.Shift(scaled)), me.Shift(scaled));
  }

  lemma FreshEndOk(me: Side, peer: Side, scaled: bool)
    requires me.Valid() && peer.Valid()
    ensures EndOk(FreshEnd(me, peer, scaled))
  {
    SideWindow(me, scaled);
    SideWindow(peer, scaled);
  }

  /** Such a start exists for all buffers, endpoints and initial sequence numbers, with and without window scaling. */
  lemma FreshWorldEstablished(a: Side, b: Side, scaled: bool)
    requires a.Valid() && b.Valid()
    ensures Established2(FreshWorld(a, b, scaled))
  {
    FreshEndOk(a, b, scaled);
    FreshEndOk(b, a, scaled);
    SideWindow(a, scaled);
    SideWindow(b, scaled);
    var w := FreshWorld(a, b, scaled);
    var g, h := LastOfHandshake(a, b, scaled), LastOfHandshake(b, a, scaled);
    assert g in w.ab && Advertises(g, a.Shift(scaled), b.isn + Shl(a.Window(scaled), a.Shift(scaled)));
    assert h in w.ba && Advertises(h, b.Shift(scaled), a.isn + Shl(b.Window(scaled), b.Shift(scaled)));
  }

  lemma HandshakesAck(s: End, r: End, back: set<Segment>, base: int, other: int, shift: nat)
    requires Fresh(s, r, back, base, shift) && r.received == [] && !r.finSeen
    requires forall g :: g in back ==> Handshake(g, r, other, base, shift)
    ensures forall g :: g in back ==> AckOk(g, r, base, shift)
  {
  }

  lemma HandshakesCarryNothing(s: End, net: set<Segment>, back: set<Segment>, base: int, other: int, shift: nat,
                               shift': nat)
    requires forall g :: g in net ==> Handshake(g, s, base, other, shift')
    ensures forall g :: g in net ==> DataOk(g, s.written, !MaySend(s.t.state), base) && FlowOk(g, back, shift)
  {
  }

  lemma FreshLink(s: End, r: End, net: set<Segment>, back: set<Segment>, base: int, other: int, shift: nat, shift': nat)
    requires Fresh(s, r, back, base, shift) && Fresh(r, s, net, other, shift') && !r.t.rcv.fin
    requires forall g :: g in net ==> Handshake(g, s, base, other, shift')
    requires forall g :: g in back ==> Handshake(g, r, other, base, shift)
    ensures Link(s, r, net, back, base, shift)
  {
    HandshakesAck(s, r, back, base, other, shift);
    HandshakesCarryNothing(s, net, back, base, other, shift, shift');
    FreshReceiver(r, s.written, base);
    FreshView(s, r, back, base, shift);
  }

  lemma FreshView(s: End, r: End, back: set<Segment>, base: int, shift: nat)
    requires Fresh(s, r, back, base, shift)
    ensures ViewOk(s, r, back, base, shift)
  {
    FreshSend(s.t.snd, base);
    assert Held(s, r);
  }

  lemma FreshSend(snd: SendHalf, base: int)
    requires snd.buf.len == 0 && snd.una == base
    ensures snd.buf.Contents() == [] && SendData(Established, snd, [], base)
  {
  }

  lemma FreshReceiver(r: End, w: seq<byte>, base: int)
    requires r.t.rcv.buf.len == 0 && r.t.rcv.asm == [] && r.t.rcv.start == base && !r.t.rcv.fin
    requires r.delivered == [] && r.received == [] && !r.finSeen
    ensures ReceiverOk(r, w, base)
  {
    assert r.t.rcv.buf.Contents() == [];
  }

  lemma EstablishedInv(w: World)
    requires Established2(w)
    ensures WorldInv(w)
  {
    FreshLink(w.a, w.b, w.ab, w.ba, w.k.base, w.k.other, w.k.mine, w.k.theirs);
    FreshLink(w.b, w.a, w.ba, w.ab, w.k.other, w.k.base, w.k.theirs, w.k.mine);
  }

  lemma SwapInv(w: World)
    requires WorldInv(w)
    ensures WorldInv(w.Swap())
  {
  }

  lemma CloseStepInv(w: World)
    requires WorldInv(w)
    ensures WorldInv(StepA(w, CloseCall))
  {
    CloseCallsInv(Ideal, w.a.t);
    CloseShape(w.a.t);
    CloseKeeps(w.a, DoClose(w.a.t), w.b, w.ab, w.ba, w.k);
  }

  lemma CloseShape(t: Tcb)
    ensures DoClose(t) == t.(state := DoClose(t).state)
  {
  }

  lemma AbortStepInv(w: World)
    requires WorldInv(w)
    ensures WorldInv(StepA(w, AbortCall))
  {
    CloseKeeps(w.a, DoAbort(w.a.t), w.b, w.ab, w.ba, w.k);
  }

  lemma ConfigureStepInv(w: World, timeout: Option<nat>, ackDelay: Option<nat>, nagle: bool)
    requires WorldInv(w)
    ensures WorldInv(StepA(w, Configure(timeout, ackDelay, nagle)))
  {
    CloseKeeps(w.a, Reconfigure(w.a.t, timeout, ackDelay, nagle), w.b, w.ab, w.ba, w.k);
  }

  lemma StepAInv(w: World, act: Action)
    requires WorldInv(w) && CanHappen(w, act)
    ensures WorldInv(StepA(w, act))
  {
    match act
    case Write(data) => SendKeeps(w.a, w.b, w.ab, w.ba, w.k, data);
    case Read(want) => RecvKeeps(w.a, w.b, w.ab, w.ba, w.k, want);
    case Transmit(cx, sent) => DispatchKeeps(w.a, w.b, w.ab, w.ba, w.k, cx, sent);
    case Arrive(cx, s) => ProcessKeeps(w.a, w.b, w.ab, w.ba, w.k, cx, s);
    case Configure(timeout, ackDelay, nagle) => ConfigureStepInv(w, timeout, ackDelay, nagle);
    case CloseCall => CloseStepInv(w);
    case AbortCall => AbortStepInv(w);
  }

  lemma StepWorldInv(w: World, atA: bool, act: Action)
    requires WorldInv(w) && CanHappen(if atA then w else w.Swap(), act)
    ensures WorldInv(StepWorld(w, atA, act))
  {
    if atA {
      StepAInv(w, act);
    } else {
      SwapInv(w);
      StepAInv(w.Swap(), act);
      SwapInv(StepA(w.Swap(), act));
    }
  }

  lemma {:induction false} RunWorldInv(w: World, run: seq<(bool, Action)>, w': World)
    requires WorldInv(w) && Steps(w, run, w')
    ensures WorldInv(w')
    decreases |run|
  {
    if |run| > 0 {
      StepWorldInv(w, run[0].0, run[0].1);
      RunWorldInv(StepWorld(w, run[0].0, run[0].1), run[1..], w');
    }
  }

  // ----- the theorems

  /**
    What an application has read, followed by what waits in its receive buffer, is a prefix of what the
    other application has written; once the FIN has been counted it is all of it.
   */
  ghost predicate StreamSafe(s: End, r: End) {
    && r.delivered + r.t.rcv.buf.Contents() <= s.written
    && (r.t.rcv.fin ==> r.delivered + r.t.rcv.buf.Contents() == s.written)
  }

  /**
    Every octet an application has handed over is still in its transmit buffer or has been received in
    order by the peer; and a sender whose FIN was acknowledged has a peer that received everything and the FIN.
   */
  ghost predicate Conserved(s: End, r: End) {
    && s.t.snd.buf.len <= |s.written|
    && s.t.snd.buf.Contents() == s.written[|s.written| - s.t.snd.buf.len..]
    && |s.written| - s.t.snd.buf.len <= |r.received| && r.received <= s.written
    && (FinAcked(s.t.state) ==> r.finSeen && r.received == s.written)
  }

  /** Except for one-octet probes, no octet was ever sent beyond a right edge that the peer had advertised. */
  ghost predicate FlowControlled(net: set<Segment>, back: set<Segment>, shift: nat) {
    forall g :: g in net && g.control != Rst && |g.payload| > 1 ==> Advertised(back, shift, g.seqNo + |g.payload|)
  }

  lemma StreamSafeFromLink(s: End, r: End, net: set<Segment>, back: set<Segment>, base: int, shift: nat)
    requires Link(s, r, net, back, base, shift)
    ensures StreamSafe(s, r)
  {
  }

  lemma ConservedFromLink(s: End, r: End, net: set<Segment>, back: set<Segment>, base: int, shift: nat)
    requires Link(s, r, net, back, base, shift) && Inv(Ideal, s.t)
    ensures Conserved(s, r)
  {
    if Synced(s.t.state) && !FinAcked(s.t.state) {
      assert |s.t.snd.buf.Contents()| == |s.written| - (s.t.snd.una - base);
    }
  }

  /** In every run, in both directions: stream safety, conservation and flow control. */
  lemma ConnectionSafety(w: World, run: seq<(bool, Action)>, w': World)
    requires Established2(w) && Steps(w, run, w')
    ensures StreamSafe(w'.a, w'.b) && StreamSafe(w'.b, w'.a)
    ensures Conserved(w'.a, w'.b) && Conserved(w'.b, w'.a)
    ensures FlowControlled(w'.ab, w'.ba, w'.k.mine) && FlowControlled(w'.ba, w'.ab, w'.k.theirs)
  {
    EstablishedInv(w);
    RunWorldInv(w, run, w');
    StreamSafeFromLink(w'.a, w'.b, w'.ab, w'.ba, w'.k.base, w'.k.mine);
    StreamSafeFromLink(w'.b, w'.a, w'.ba, w'.ab, w'.k.other, w'.k.theirs);
    ConservedFromLink(w'.a, w'.b, w'.ab, w'.ba, w'.k.base, w'.k.mine);
    ConservedFromLink(w'.b, w'.a, w'.ba, w'.ab, w'.k.other, w'.k.theirs);
  }

  // ----- unread octets

  /** Nothing that was received in order is lost: it was read or waits to be read. */
  ghost predicate NothingLost(r: End) {
    r.delivered + r.t.rcv.buf.Contents() == r.received
  }

  /** Polling the socket now would end its TIME-WAIT. */
  predicate EndsTimeWait(t: Tcb, cx: Context) {
    && t.state == TimeWait && t.timer.ShouldClose(cx.now)
    && !TimedOut(t.(lastTs := if t.lastTs.None? then Some(cx.now) else t.lastTs), cx.now)
    && !(AckToTransmit(Ideal, t.rcv) && DelayedAckExpired(t.rcv.ackTimer, cx.now))
  }

  /** In TIME-WAIT only an owed acknowledgement or the connection timeout makes the socket send. */
  lemma TimeWaitSends(t: Tcb, cx: Context)
    requires SeqSpace(Ideal, t.state, t.snd) && t.state == TimeWait && t.timer.Close? && t.tuple.Some?
    ensures var t1 := BeforeDispatch(Ideal, t, cx);
            && t1.rcv == t.rcv && t1.timer == t.timer && t1.tuple == t.tuple
            && (t1.state == TimeWait || t1.state == Closed)
            && (t1.timer.ShouldClose(cx.now) && !WantsToSend(Ideal, t1, cx) <==> EndsTimeWait(t, cx))
  {
    assert !SeqToTransmit(Ideal, t, cx);
  }

  lemma DispatchEndsTimeWait(t: Tcb, cx: Context, sent: bool)
    requires Inv(Ideal, t) && NoKeepAlive(t) && t.state != Listen
    ensures var t' := Dispatch(Ideal, t, cx, sent).0;
            if EndsTimeWait(t, cx) then t'.rcv.buf == t.rcv.buf.Clear() else SameRecv(t.rcv, t'.rcv)
  {
    if t.state == TimeWait {
      TimeWaitSends(t, cx);
      BeforeFields(t, cx);
      var t1 := BeforeDispatch(Ideal, t, cx);
      AfterFields(t1, t.tuple.value, cx, OutgoingSegment(Ideal, t1, t.tuple.value, cx));
    } else {
      DispatchFields(t, cx, sent);
    }
  }

  lemma ProcessKeepsFin(t: Tcb, cx: Context, s: Segment)
    requires Synced(t.state) && NoKeepAlive(t) && t.rcv.fin && Accepts(t, s)
    ensures Process(Ideal, t, cx, s).0.rcv.fin
  {
    if ProcessQuiet(t, cx, s) {
      QuietShape(t, cx, s);
    } else {
      if s.control == Rst {
        assert false;
      }
      ProcessGoShape(t, cx, s);
    }
  }

  lemma ArrivalLosesNothing(w: World, cx: Context, s: Segment)
    requires WorldInv(w) && CanHappen(w, Arrive(cx, s))
    ensures NothingLost(StepA(w, Arrive(cx, s)).a)
  {
    StepAInv(w, Arrive(cx, s));
    if w.a.t.rcv.fin {
      ProcessKeepsFin(w.a.t, cx, s);
    }
  }

  /** The poll that ends TIME-WAIT, while octets wait to be read. */
  predicate DropsUnread(t: Tcb, act: Action) {
    act.Transmit? && EndsTimeWait(t, act.cx) && t.rcv.buf.len > 0
  }

  /** A socket that has lost octets is closed for good. */
  lemma LostIsClosed(w: World)
    requires WorldInv(w)
    ensures w.a.t.state != Closed ==> NothingLost(w.a)
  {
  }

  /** Once lost, octets stay lost; and one step loses some exactly when it is the poll that ends TIME-WAIT. */
  lemma UnreadStep(w: World, act: Action)
    requires WorldInv(w) && CanHappen(w, act)
    ensures NothingLost(StepA(w, act).a) <==> NothingLost(w.a) && !DropsUnread(w.a.t, act)
  {
    LostIsClosed(w);
    match act
    case Transmit(cx, sent) => PollLoses(w.a, cx, sent);
    case Arrive(cx, s) => ArrivalLosesNothing(w, cx, s);
    case Read(want) => ReadLosesNothing(w.a, want);
    case _ => CallKeepsReceived(w.a, act);
  }

  function EndOf(w: World, atA: bool): End {
    if atA then w.a else w.b
  }

  /** No step of the run at this endpoint is a poll that ends TIME-WAIT with octets unread. */
  ghost predicate NeverDrops(w: World, run: seq<(bool, Action)>, atA: bool)
    decreases |run|
  {
    |run| > 0 ==>
      && (run[0].0 == atA ==> !DropsUnread(EndOf(w, atA).t, run[0].1))
      && NeverDrops(StepWorld(w, run[0].0, run[0].1), run[1..], atA)
  }

  lemma UnreadStepAt(w: World, moves: bool, act: Action, atA: bool)
    requires WorldInv(w) && CanHappen(if moves then w else w.Swap(), act)
    ensures NothingLost(EndOf(StepWorld(w, moves, act), atA)) <==>
            NothingLost(EndOf(w, atA)) && !(moves == atA && DropsUnread(EndOf(w, atA).t, act))
  {
    SwapInv(w);
    if moves == atA {
      UnreadStep(if moves then w else w.Swap(), act);
    }
  }

  lemma {:induction false} UnreadRun(w: World, run: seq<(bool, Action)>, w': World, atA: bool)
    requires WorldInv(w) && Steps(w, run, w')
    ensures NothingLost(EndOf(w', atA)) <==> NothingLost(EndOf(w, atA)) && NeverDrops(w, run, atA)
    decreases |run|
  {
    if |run| > 0 {
      UnreadStepAt(w, run[0].0, run[0].1, atA);
      StepWorldInv(w, run[0].0, run[0].1);
      UnreadRun(StepWorld(w, run[0].0, run[0].1), run[1..], w', atA);
    }
  }

  /**
    After a run, everything an endpoint has received in order was read or waits to be read, in CLOSED too,
    exactly when no poll of the run ended its TIME-WAIT with octets unread.
   */
  lemma UnreadOctetsStay(w: World, run: seq<(bool, Action)>, w': World, atA: bool)
    requires Established2(w) && Steps(w, run, w')
    ensures NothingLost(EndOf(w', atA)) <==> NeverDrops(w, run, atA)
  {
    EstablishedInv(w);
    LostIsClosed(w);
    SwapInv(w);
    LostIsClosed(w.Swap());
    UnreadRun(w, run, w', atA);
  }

  lemma CallKeepsReceived(x: End, act: Action)
    requires act.Write? || act.CloseCall? || act.AbortCall? || act.Configure?
    ensures var x' := Act(x, act).0; x'.t.rcv == x.t.rcv && x'.delivered == x.delivered && x'.received == x.received
  {
    CloseShape(x.t);
  }

  lemma PollLoses(x: End, cx: Context, sent: bool)
    requires EndOk(x) && (x.t.state != Closed ==> NothingLost(x))
    ensures NothingLost(x.(t := Dispatch(Ideal, x.t, cx, sent).0)) <==>
            NothingLost(x) && !(EndsTimeWait(x.t, cx) && x.t.rcv.buf.len > 0)
  {
    var t' := Dispatch(Ideal, x.t, cx, sent).0;
    DispatchEndsTimeWait(x.t, cx, sent);
    Appended(x.delivered, x.t.rcv.buf.Contents(), t'.rcv.buf.Contents());
  }

  lemma ReadLosesNothing(x: End, want: nat)
    requires x.t.rcv.buf.Valid()
    ensures NothingLost(RecvEnd(x, want)) <==> NothingLost(x)
  {
    if MayRecv(x.t) {
      RecvFields(x, want);
      var n := Min(want, x.t.rcv.buf.len);
      DequeueFacts(x.t.rcv.buf, n);
      MoveAcross(x.delivered, x.t.rcv.buf.Contents(), n);
    } else {
      assert RecvEnd(x, want) == x;
    }
  }

  lemma Appended(a: seq<byte>, b: seq<byte>, c: seq<byte>)
    ensures a + b == a + c <==> b == c
  {
    if a + b == a + c {
      assert b == (a + b)[|a|..] && c == (a + c)[|a|..];
    }
  }

  /** A socket that leaves LAST-ACK for CLOSED on an acknowledgement has a peer that received everything and the FIN. */
  lemma LastAckConserves(w: World, run: seq<(bool, Action)>, w': World, cx: Context, s: Segment)
    requires Established2(w) && Steps(w, run, w')
    requires w'.a.t.state == LastAck && CanHappen(w', Arrive(cx, s)) && s.control != Rst
    requires StepA(w', Arrive(cx, s)).a.t.state == Closed
    ensures w'.b.finSeen && w'.b.received == w'.a.written
  {
    EstablishedInv(w);
    RunWorldInv(w, run, w');
    var t := w'.a.t;
    assert AckOk(s, w'.b, w'.k.base, w'.k.mine);
    if ProcessQuiet(t, cx, s) {
      QuietStays(t, cx, s);
    } else {
      ProcessGoShape(t, cx, s);
      Acked(t.state, Closed, t.snd, s, w'.a.written, w'.k.base);
    }
  }

  lemma QuietStays(t: Tcb, cx: Context, s: Segment)
    requires t.state == LastAck && s.control != Rst && ProcessQuiet(t, cx, s)
    ensures Process(Ideal, t, cx, s).0.state == LastAck
  {
    AdvanceShape(Ideal, t, cx, s);
  }

  lemma Reached(w: World, run: seq<(bool, Action)>, w': World)
    requires Established2(w) && Steps(w, run, w')
    ensures WorldInv(w')
  {
    EstablishedInv(w);
    RunWorldInv(w, run, w');
  }

  lemma NotCut(w: World, s: Segment)
    requires WorldInv(w) && s in w.ba && s.control != Rst && Synced(w.a.t.state)
             && CheckWindow(Ideal, w.a.t.rcv, s).Inside?
    ensures var kept := CheckWindow(Ideal, w.a.t.rcv, s).payload;
            |kept| <= |s.payload| && kept == s.payload[|s.payload| - |kept|..]
  {
    assert DataOk(s, w.b.written, !MaySend(w.b.t.state), w.k.other) && FlowOk(s, w.ab, w.k.theirs);
    if |s.payload| > 1 {
      WithinEdge(w.a, w.ab, w.k.other, w.k.theirs, s.seqNo + |s.payload|);
    }
    NeverCut(w.a.t.rcv, w.a.t.conf.slots, s);
  }

  /** The receiver never cuts a segment of its peer at the right edge of its window. */
  lemma NoSegmentIsCut(w: World, run: seq<(bool, Action)>, w': World, s: Segment)
    requires Established2(w) && Steps(w, run, w')
    requires s in w'.ba && s.control != Rst && Synced(w'.a.t.state) && CheckWindow(Ideal, w'.a.t.rcv, s).Inside?
    ensures var kept := CheckWindow(Ideal, w'.a.t.rcv, s).payload;
            |kept| <= |s.payload| && kept == s.payload[|s.payload| - |kept|..]
  {
    Reached(w, run, w');
    NotCut(w', s);
  }

  lemma ProbeExceeds(w: World, cx: Context, g: Segment)
    requires WorldInv(w) && Dispatch(Ideal, w.a.t, cx, true).1 == Some(g) && g.control != Rst && g.payload != []
    requires !Advertised(w.ba, w.k.mine, g.seqNo + |g.payload|)
    ensures |g.payload| == 1 && IsProbe(Ideal, BeforeDispatch(Ideal, w.a.t, cx), cx.now)
  {
    var t1 := BeforeDispatch(Ideal, w.a.t, cx);
    DispatchFields(w.a.t, cx, true);
    BeforeKeepsView(w.a, w.b, w.ab, w.ba, w.k, cx);
    DraftFlowOk(w.a.(t := t1), w.b, w.ba, w.k.base, w.k.mine, cx, w.a.t.tuple.value);
  }

  /** What a socket sends beyond every edge its peer has advertised is one octet: a probe of a closed window. */
  lemma OnlyProbesExceed(w: World, run: seq<(bool, Action)>, w': World, cx: Context, g: Segment)
    requires Established2(w) && Steps(w, run, w')
    requires Dispatch(Ideal, w'.a.t, cx, true).1 == Some(g) && g.control != Rst && g.payload != []
    requires !Advertised(w'.ba, w'.k.mine, g.seqNo + |g.payload|)
    ensures |g.payload| == 1 && IsProbe(Ideal, BeforeDispatch(Ideal, w'.a.t, cx), cx.now)
  {
    Reached(w, run, w');
    ProbeExceeds(w', cx, g);
  }
}
