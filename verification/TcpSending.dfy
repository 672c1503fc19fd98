/**
  What `dispatch` does, said from the socket alone: when it sends, what the segment is, down to the number of
  octets, and what becomes of every field of the socket.
 */
module TcpSending {
  import opened Options
  import opened Octets
  import opened Shifts
  import opened SeqNumber
  import opened Timers
  import opened RingSpec
  import opened TcpModel
  import opened TcpInvariant
  import opened TcpArrival
  import C = TcpCalls
  import R = RttBounds

  // ----- what there is to send

  /** What the packet leaves for octets. */
  function RoomInPacket(endpoints: Tuple, cx: Context): nat {
    var headers := if endpoints.local.addr.Ipv4? then 40 else 60;
    if cx.ipMtu > headers then cx.ipMtu - headers else 0
  }

  /** How many numbers are sent and not acknowledged. */
  function InFlight(m: Arith, t: Tcb): int {
    Diff(m, t.snd.nxt, t.snd.una)
  }

  /** How many octets there are to send that the peer has room for. */
  function Sendable(m: Arith, t: Tcb): int {
    (if t.snd.winLen < t.snd.buf.len then t.snd.winLen else t.snd.buf.len) - InFlight(m, t)
  }

  /**
    A SYN that is not in flight, or a FIN whose turn it is, or octets; but with octets in flight those are held
    back while they do not fill a segment, unless the stream is ending or the application has asked for haste.
   */
  predicate HasNews(m: Arith, t: Tcb, endpoints: Tuple, cx: Context) {
    var n := Sendable(m, t);
    || (t.state in {SynSent, SynReceived} && InFlight(m, t) == 0)
    || (n > 0 && (!t.conf.nagle || InFlight(m, t) == 0 || Finishing(t.state) || n >= RoomInPacket(endpoints, cx)
                  || n >= t.snd.mss))
    || (Finishing(t.state) && InFlight(m, t) == t.snd.buf.len)
  }

  // ----- before anything is sent

  /** Nothing was heard for as long as the connection timeout. */
  predicate GivesUp(t: Tcb, cx: Context) {
    t.conf.timeout.Some? && cx.now >= (if t.lastTs.Some? then t.lastTs.value else cx.now) + t.conf.timeout.value
  }

  predicate ResendDue(t: Tcb, cx: Context) {
    t.timer.FastRetransmit? || (t.timer.Retransmit? && cx.now >= t.timer.expiresAt)
  }

  /** Twice the timeout, up to a minute, and nothing is timed; the third time in a row the measurement is dropped. */
  function BackedOff(r: Rtte): Rtte {
    r.(timestamp := None, rto := if r.rto <= 30_000 then 2 * r.rto else 60_000,
       rtoCount := if r.rtoCount >= 2 then 0 else r.rtoCount + 1,
       haveMeasurement := r.haveMeasurement && r.rtoCount < 2)
  }

  /** The socket gives up, or goes back to what is not acknowledged, or stays; from now on silence is counted. */
  function Started(m: Arith, t: Tcb, endpoints: Tuple, cx: Context): Tcb {
    var t1 := t.(lastTs := if t.lastTs.None? then Some(cx.now) else t.lastTs);
    if GivesUp(t, cx) then t1.(state := Closed)
    else if !HasNews(m, t, endpoints, cx) && ResendDue(t, cx) then
      t1.(snd := t.snd.(nxt := t.snd.una), timer := Quiet(cx, t), rtte := BackedOff(t.rtte))
    else t1
  }

  // ----- the reasons to send

  /** There is something to acknowledge, and the delay is over. */
  predicate AckDue(m: Arith, t: Tcb, cx: Context) {
    Owing(m, t.rcv.lastAck, Awaited(m, t.rcv)) && !(t.rcv.ackTimer.AckWaiting? && t.rcv.ackTimer.at > cx.now)
  }

  /** A number of octets in units of the window's scale. */
  function Units(space: nat, shift: nat): nat {
    if Shr(space, shift) < 65535 then Shr(space, shift) else 65535
  }

  /** What is left of the window told last. */
  function LeftOfWindow(m: Arith, rcv: RecvHalf): nat
    requires rcv.lastAck.Some?
  {
    var d := Diff(m, Add(m, rcv.lastAck.value, Shl(rcv.lastWin, rcv.shift)), Awaited(m, rcv));
    if d > 0 then d else 0
  }

  /** The window can be told to be twice what is left of the one told last. */
  predicate WindowGrown(m: Arith, t: Tcb) {
    && t.state in {SynSent, SynReceived, Established, FinWait1, FinWait2} && t.rcv.lastAck.Some?
    && Units(t.rcv.buf.Window(), t.rcv.shift) > 0
    && Units(t.rcv.buf.Window(), t.rcv.shift) / 2 >= Units(LeftOfWindow(m, t.rcv), t.rcv.shift)
  }

  predicate KeepAliveDue(t: Tcb, cx: Context) {
    t.timer.Idle? && t.timer.keepAliveAt.Some? && cx.now >= t.timer.keepAliveAt.value
  }

  predicate ProbeDue(t: Tcb, cx: Context) {
    t.timer.ZeroWindowProbe? && cx.now >= t.timer.expiresAt
  }

  predicate MustSend(m: Arith, t: Tcb, endpoints: Tuple, cx: Context) {
    || HasNews(m, t, endpoints, cx) || AckDue(m, t, cx) || WindowGrown(m, t)
    || t.state == Closed || KeepAliveDue(t, cx) || ProbeDue(t, cx)
  }

  // ----- the segment

  predicate SendsOctets(st: State) {
    st in {Established, FinWait1, Closing, CloseWait, LastAck}
  }

  /** The peer's window beyond what is in flight. */
  function PeerRoom(m: Arith, t: Tcb): nat {
    if t.snd.winLen > InFlight(m, t) then t.snd.winLen - InFlight(m, t) else 0
  }

  /** A closed window is probed with one octet. */
  predicate Probes(m: Arith, t: Tcb, cx: Context) {
    SendsOctets(t.state) && PeerRoom(m, t) == 0 && ProbeDue(t, cx)
  }

  /** How far the octets from `from` on lie in one piece in the storage. */
  function InOnePiece(buf: Ring, from: nat): nat {
    if buf.Capacity() == 0 then 0 else buf.Capacity() - (buf.readAt + from) % buf.Capacity()
  }

  /**
    The most octets that the peer's segment size, the packet and the peer's window allow, of those that are not
    in flight and lie in one piece.
   */
  ghost predicate LargestPiece(m: Arith, t: Tcb, endpoints: Tuple, cx: Context, n: nat) {
    var from := InFlight(m, t);
    var limit := if Probes(m, t, cx) then 1 else PeerRoom(m, t);
    if from < 0 || from > t.snd.buf.len then n == 0
    else
      var unsent, piece := t.snd.buf.len - from, InOnePiece(t.snd.buf, from);
      && n <= t.snd.mss && n <= RoomInPacket(endpoints, cx) && n <= limit && n <= unsent && n <= piece
      && (n == t.snd.mss || n == RoomInPacket(endpoints, cx) || n == limit || n == unsent || n == piece)
  }

  /** The octets from the first that is not in flight on, with the flag of what is last. */
  ghost predicate CarriesOctets(m: Arith, t: Tcb, endpoints: Tuple, cx: Context, s: Segment) {
    var from, n := InFlight(m, t), |s.payload|;
    && LargestPiece(m, t, endpoints, cx, n)
    && (n > 0 ==> 0 <= from && from + n <= |t.snd.buf.Contents()| && s.payload == t.snd.buf.Contents()[from..from + n])
    && s.control == (if from + n != t.snd.buf.len then NoFlag
                     else if Finishing(t.state) then Fin
                     else if n > 0 then Psh else NoFlag)
  }

  /** The segment that the state calls for. Numbers and window are those of the socket. */
  ghost predicate Drafts(m: Arith, t: Tcb, endpoints: Tuple, cx: Context, s: Segment) {
    var ack := Some(Awaited(m, t.rcv));
    var free := if t.rcv.buf.Window() < 65535 then t.rcv.buf.Window() else 65535;
    var size := Some(RoomInPacket(endpoints, cx) % 65536);
    && s.src == endpoints.local && s.dst == endpoints.remote
    && if t.state == SynSent then
         s == Segment(s.src, s.dst, Syn, t.snd.una, None, free, Some(t.rcv.shift), size, [])
       else if t.state == SynReceived then
         s == Segment(s.src, s.dst, Syn, t.snd.una, ack, free, if t.snd.winScale.Some? then Some(t.rcv.shift) else None,
                      size, [])
       else
         && s == Segment(s.src, s.dst, s.control, t.snd.nxt, ack, s.win, None, None, s.payload)
         && WindowTold(s.win, t.rcv.buf.Window(), t.rcv.shift)
         && if SendsOctets(t.state) then CarriesOctets(m, t, endpoints, cx, s)
            else s.payload == [] && s.control == (if t.state == Closed then Rst else NoFlag)
  }

  /** A keep-alive stands in for a segment with neither octets nor a flag: one octet from before the stream. */
  ghost predicate KeepsAlive(m: Arith, t: Tcb, cx: Context, draft: Segment) {
    KeepAliveDue(t, cx) && draft.payload == [] && (draft.control == NoFlag || draft.control == Psh)
  }

  ghost predicate Sends(m: Arith, t: Tcb, endpoints: Tuple, cx: Context, draft: Segment, s: Segment) {
    && Drafts(m, t, endpoints, cx, draft)
    && s == if KeepsAlive(m, t, cx, draft) then draft.(seqNo := Prev(m, draft.seqNo), payload := [0]) else draft
  }

  // ----- after it was sent

  function NumbersOf(s: Segment): nat {
    |s.payload| + (if s.control == Syn || s.control == Fin then 1 else 0)
  }

  /**
    The acknowledgement is no longer delayed. A probe is repeated after twice the delay, up to a minute. Any other
    segment except a keep-alive moves `nxt` on, is on record with its acknowledgement and window, and if it takes
    up numbers it is timed and starts the retransmission timeout.
   */
  ghost predicate HasSent(m: Arith, t: Tcb, cx: Context, draft: Segment, t': Tcb) {
    var next := Add(m, draft.seqNo, NumbersOf(draft));
    var timer := if t.timer.Idle? then Quiet(cx, t) else t.timer;
    if Probes(m, t, cx) then
      var d := if t.timer.delay <= 30_000_000 then 2 * t.timer.delay else 60_000_000;
      t' == t.(timer := ZeroWindowProbe(cx.now + d, d), rcv := t.rcv.(ackTimer := AckIdle))
    else if KeepsAlive(m, t, cx, draft) then
      t' == t.(timer := timer, rcv := t.rcv.(ackTimer := AckIdle))
    else
      && t' == t.(snd := t.snd.(nxt := next), rtte := t'.rtte,
                  rcv := t.rcv.(lastAck := draft.ack, lastWin := draft.win, ackTimer := AckIdle),
                  timer := if NumbersOf(draft) == 0 || timer.Retransmit? || timer.FastRetransmit? || timer.Close? then
                    timer else Retransmit(cx.now + 1000 * t.rtte.rto),
                  tuple := if t.state == Closed then None else t.tuple)
      && if NumbersOf(draft) == 0 then t'.rtte == t.rtte else R.SendTimes(m, t.rtte, cx.now, next, t'.rtte)
  }

  // ----- the whole

  /** TIME-WAIT is over. */
  predicate WaitIsOver(t: Tcb, cx: Context) {
    t.timer.Close? && cx.now >= t.timer.expiresAt
  }

  ghost predicate IsReset(t: Tcb, t': Tcb) {
    t'.state == Closed && t'.tuple.None? && t'.listen == ListenEndpoint(None, 0) && C.Cleared(t, t')
  }

  /** What a poll does; `emit` says whether the device takes the segment. */
  ghost predicate PollMeans(m: Arith, t: Tcb, cx: Context, emit: bool, t': Tcb, reply: Reply) {
    match t.tuple
    case None => t' == t && reply.None?
    case Some(endpoints) =>
      var t1 := Started(m, t, endpoints, cx);
      if MustSend(m, t1, endpoints, cx) then
        if !emit then t' == t1 && reply.None?
        else
          && reply.Some?
          && exists draft: Segment :: Sends(m, t1, endpoints, cx, draft, reply.value) && HasSent(m, t1, cx, draft, t')
      else if WaitIsOver(t1, cx) then IsReset(t1, t') && reply.None?
      else t' == t1 && reply.None?
  }

  // ----- the reasons to send are those of the program

  lemma NewsIs(m: Arith, t: Tcb, endpoints: Tuple, cx: Context)
    requires SendOk(m, t.snd) && SeqSpace(m, t.state, t.snd) && t.tuple == Some(endpoints)
    ensures SeqToTransmit(m, t, cx) <==> HasNews(m, t, endpoints, cx)
  {
    Distances(m, t.snd.una, t.snd.nxt, Min(t.snd.winLen, t.snd.buf.len));
    Distances(m, t.snd.una, t.snd.nxt, t.snd.buf.len);
  }

  lemma Distances(m: Arith, una: int, nxt: int, k: nat)
    requires InRange(m, una) && InRange(m, nxt) && k <= TX_LIMIT && 0 <= Diff(m, nxt, una) <= TX_LIMIT + 1
    ensures nxt == una <==> Diff(m, nxt, una) == 0
    ensures nxt == Add(m, una, k) <==> Diff(m, nxt, una) == k
    ensures Dist(m, Add(m, una, k), nxt) == if k >= Diff(m, nxt, una) then k - Diff(m, nxt, una) else 0
  {
  }

  lemma StartedIs(m: Arith, t: Tcb, endpoints: Tuple, cx: Context)
    requires Inv(m, t) && t.tuple == Some(endpoints)
    ensures BeforeDispatch(m, t, cx) == Started(m, t, endpoints, cx)
  {
    var t1 := t.(lastTs := if t.lastTs.None? then Some(cx.now) else t.lastTs);
    NewsIs(m, t1, endpoints, cx);
    assert HasNews(m, t1, endpoints, cx) == HasNews(m, t, endpoints, cx);
  }

  lemma GrownIs(m: Arith, t: Tcb)
    ensures WindowToUpdate(m, t) <==> WindowGrown(m, t)
  {
  }

  lemma MustSendIs(m: Arith, t: Tcb, endpoints: Tuple, cx: Context)
    requires Inv(m, t) && t.tuple == Some(endpoints)
    ensures WantsToSend(m, t, cx) <==> MustSend(m, t, endpoints, cx)
  {
    NewsIs(m, t, endpoints, cx);
    GrownIs(m, t);
  }

  // ----- so is the segment

  lemma WrapsOnce(x: nat, c: nat)
    requires 0 < c && x < 2 * c
    ensures x % c == if x < c then x else x - c
  {
  }

  lemma OnePieceIs(buf: Ring, from: nat)
    requires buf.Valid() && from <= buf.len
    ensures InOnePiece(buf, from) == buf.UntilEnd(from)
  {
    if buf.Capacity() > 0 {
      WrapsOnce(buf.readAt + from, buf.Capacity());
    }
  }

  lemma RoomIs(m: Arith, t: Tcb)
    requires SendOk(m, t.snd) && SeqSpace(m, t.state, t.snd)
    ensures WindowLimit(m, t.snd) == PeerRoom(m, t) && InFlight(m, t) >= 0
    ensures Dist(m, t.snd.nxt, t.snd.una) == InFlight(m, t)
  {
    Distances(m, t.snd.una, t.snd.nxt, t.snd.winLen);
  }

  lemma ProbesIs(m: Arith, t: Tcb, cx: Context)
    requires SendOk(m, t.snd) && SeqSpace(m, t.state, t.snd)
    ensures IsProbe(m, t, cx.now) <==> Probes(m, t, cx)
  {
    RoomIs(m, t);
  }

  lemma PieceIs(buf: Ring, from: nat, size: nat)
    requires buf.Valid()
    ensures var p := buf.GetAllocated(from, size);
            && (from > buf.len ==> p == [])
            && (from <= buf.len ==>
                  var unsent, piece := buf.len - from, InOnePiece(buf, from);
                  && |p| <= size && |p| <= unsent && |p| <= piece && (|p| == size || |p| == unsent || |p| == piece)
                  && from + |p| <= |buf.Contents()| && p == buf.Contents()[from..from + |p|])
  {
    GetAllocatedFacts(buf, from, size);
    if from <= buf.len {
      OnePieceIs(buf, from);
    }
  }

  /** The size that is asked for, before what is unsent and in one piece is looked at. */
  function SizeAllowed(m: Arith, t: Tcb, endpoints: Tuple, cx: Context): nat {
    Min(Min(if Probes(m, t, cx) then 1 else PeerRoom(m, t), t.snd.mss), RoomInPacket(endpoints, cx))
  }

  lemma PayloadTaken(m: Arith, t: Tcb, endpoints: Tuple, cx: Context)
    requires SendOk(m, t.snd) && SeqSpace(m, t.state, t.snd) && t.tuple == Some(endpoints)
    ensures InFlight(m, t) >= 0
    ensures DataPayload(m, t, cx) == t.snd.buf.GetAllocated(InFlight(m, t), SizeAllowed(m, t, endpoints, cx))
  {
    RoomIs(m, t);
    ProbesIs(m, t, cx);
  }

  lemma PayloadIs(m: Arith, t: Tcb, endpoints: Tuple, cx: Context)
    requires SendOk(m, t.snd) && SeqSpace(m, t.state, t.snd) && t.tuple == Some(endpoints) && SendsOctets(t.state)
    ensures var p, from := DataPayload(m, t, cx), InFlight(m, t);
            && LargestPiece(m, t, endpoints, cx, |p|)
            && (|p| > 0 ==> from + |p| <= |t.snd.buf.Contents()| && p == t.snd.buf.Contents()[from..from + |p|])
  {
    PayloadTaken(m, t, endpoints, cx);
    PieceIs(t.snd.buf, InFlight(m, t), SizeAllowed(m, t, endpoints, cx));
  }

  lemma OctetsAre(m: Arith, t: Tcb, endpoints: Tuple, cx: Context, s: Segment)
    requires SendOk(m, t.snd) && SeqSpace(m, t.state, t.snd) && t.tuple == Some(endpoints) && SendsOctets(t.state)
    requires s.payload == DataPayload(m, t, cx) && s.control == DataControl(m, t, s.payload)
    ensures CarriesOctets(m, t, endpoints, cx, s)
  {
    PayloadIs(m, t, endpoints, cx);
    RoomIs(m, t);
  }

  lemma DraftIs(m: Arith, t: Tcb, endpoints: Tuple, cx: Context)
    requires Inv(m, t) && t.tuple == Some(endpoints)
    ensures Drafts(m, t, endpoints, cx, DraftSegment(m, t, endpoints, cx))
  {
    WindowUnits(t.rcv);
    if SendsOctets(t.state) {
      OctetsAre(m, t, endpoints, cx, DraftSegment(m, t, endpoints, cx));
    }
  }

  lemma KeepAliveIs(m: Arith, t: Tcb, endpoints: Tuple, cx: Context)
    ensures IsKeepAlive(m, t, endpoints, cx) <==> KeepsAlive(m, t, cx, DraftSegment(m, t, endpoints, cx))
  {
  }

  // ----- and what becomes of the socket

  lemma ProbeSent(m: Arith, t: Tcb, endpoints: Tuple, cx: Context, draft: Segment, s: Segment)
    requires IsProbe(m, t, cx.now) && Probes(m, t, cx)
    ensures HasSent(m, t, cx, draft, AfterSend(m, t, endpoints, cx, s))
  {
  }

  lemma KeepAliveSent(m: Arith, t: Tcb, endpoints: Tuple, cx: Context, draft: Segment, s: Segment)
    requires !IsProbe(m, t, cx.now) && !Probes(m, t, cx)
    requires IsKeepAlive(m, t, endpoints, cx) && KeepsAlive(m, t, cx, draft)
    ensures HasSent(m, t, cx, draft, AfterSend(m, t, endpoints, cx, s))
  {
  }

  lemma OrdinarySent(m: Arith, t: Tcb, endpoints: Tuple, cx: Context, draft: Segment)
    requires !IsProbe(m, t, cx.now) && !Probes(m, t, cx)
    requires !IsKeepAlive(m, t, endpoints, cx) && !KeepsAlive(m, t, cx, draft)
    ensures HasSent(m, t, cx, draft, AfterSend(m, t, endpoints, cx, draft))
  {
    var t1 := t.(timer := t.timer.RewindKeepAlive(cx.now, t.conf.keepAlive), rcv := t.rcv.(ackTimer := AckIdle));
    R.SendTiming(m, t1.rtte, cx.now, Add(m, draft.seqNo, NumbersOf(draft)));
    SegmentSent(m, t1, cx, draft);
  }

  lemma SegmentSent(m: Arith, t: Tcb, cx: Context, s: Segment)
    ensures var t' := AfterSegment(m, t, cx, s);
            var next := Add(m, s.seqNo, NumbersOf(s));
            t' == t.(snd := t.snd.(nxt := next), rcv := t.rcv.(lastAck := s.ack, lastWin := s.win),
                     rtte := if NumbersOf(s) == 0 then t.rtte else t.rtte.OnSend(m, cx.now, next),
                     timer := if NumbersOf(s) == 0 || t.timer.Retransmit? || t.timer.FastRetransmit? || t.timer.Close?
                       then t.timer else Retransmit(cx.now + 1000 * t.rtte.rto),
                     tuple := if t.state == Closed then None else t.tuple)
  {
  }

  lemma HasSentIs(m: Arith, t: Tcb, endpoints: Tuple, cx: Context)
    requires Inv(m, t) && t.tuple == Some(endpoints)
    ensures var draft := DraftSegment(m, t, endpoints, cx);
            HasSent(m, t, cx, draft, AfterSend(m, t, endpoints, cx, OutgoingSegment(m, t, endpoints, cx)))
  {
    var draft, s := DraftSegment(m, t, endpoints, cx), OutgoingSegment(m, t, endpoints, cx);
    ProbesIs(m, t, cx);
    KeepAliveIs(m, t, endpoints, cx);
    if IsProbe(m, t, cx.now) {
      ProbeSent(m, t, endpoints, cx, draft, s);
    } else if IsKeepAlive(m, t, endpoints, cx) {
      KeepAliveSent(m, t, endpoints, cx, draft, s);
    } else {
      OrdinarySent(m, t, endpoints, cx, draft);
    }
  }

  lemma ResetIs(m: Arith, t: Tcb)
    requires Inv(m, t)
    ensures IsReset(t, Reset(t))
  {
    C.ResetClears(t);
  }

  /** Whatever state a socket is in: what `dispatch` does is what the state calls for. */
  lemma PollMeaning(m: Arith, t: Tcb, cx: Context, emit: bool)
    requires Inv(m, t)
    ensures PollMeans(m, t, cx, emit, Dispatch(m, t, cx, emit).0, Dispatch(m, t, cx, emit).1)
  {
    if t.tuple.Some? {
      var endpoints := t.tuple.value;
      BeforeDispatchInv(m, t, cx);
      StartedIs(m, t, endpoints, cx);
      var t1 := Started(m, t, endpoints, cx);
      MustSendIs(m, t1, endpoints, cx);
      ResetIs(m, t1);
      DraftIs(m, t1, endpoints, cx);
      KeepAliveIs(m, t1, endpoints, cx);
      HasSentIs(m, t1, endpoints, cx);
      assert Sends(m, t1, endpoints, cx, DraftSegment(m, t1, endpoints, cx), OutgoingSegment(m, t1, endpoints, cx));
    }
  }

  // ----- no segment is too large

  /** The octets fit the peer's segment size and the packet, unless they are the one octet of a keep-alive. */
  ghost predicate Fits(s: Segment, mss: nat, cx: Context) {
    && |s.payload| <= mss
    && (s.payload != [] ==>
          || |s.payload| + (if s.src.addr.Ipv4? then 40 else 60) <= cx.ipMtu
          || (s.payload == [0] && s.control in {NoFlag, Psh}))
  }

  lemma SentFits(m: Arith, t: Tcb, endpoints: Tuple, cx: Context, draft: Segment, s: Segment)
    requires Sends(m, t, endpoints, cx, draft, s) && t.snd.mss > 0
    ensures Fits(s, t.snd.mss, cx)
  {
  }

  lemma StartedKeepsSize(m: Arith, t: Tcb, endpoints: Tuple, cx: Context)
    ensures Started(m, t, endpoints, cx).snd.mss == t.snd.mss
  {
  }

  /** What a segment carries of the stream fits the peer's segment size and the packet. */
  lemma SegmentFits(m: Arith, t: Tcb, cx: Context, emit: bool)
    requires Inv(m, t) && Dispatch(m, t, cx, emit).1.Some?
    ensures Fits(Dispatch(m, t, cx, emit).1.value, t.snd.mss, cx)
  {
    PollMeaning(m, t, cx, emit);
    var (t', reply) := Dispatch(m, t, cx, emit);
    PolledFits(m, t, cx, emit, t', reply);
  }

  lemma PolledFits(m: Arith, t: Tcb, cx: Context, emit: bool, t': Tcb, reply: Reply)
    requires PollMeans(m, t, cx, emit, t', reply) && reply.Some? && t.snd.mss > 0
    ensures Fits(reply.value, t.snd.mss, cx)
  {
    var endpoints := t.tuple.value;
    var t1 := Started(m, t, endpoints, cx);
    StartedKeepsSize(m, t, endpoints, cx);
    var draft: Segment :| Sends(m, t1, endpoints, cx, draft, reply.value) && HasSent(m, t1, cx, draft, t');
    SentFits(m, t1, endpoints, cx, draft, reply.value);
  }

  // ----- which size the peer accepts

  /** The segment size after an event, said from the events alone: the last that a SYN has named, or 536. */
  function SizeAfter(m: Arith, t: Tcb, e: Event, size: nat): nat {
    match e
    case EvListen(local) => if local.port != 0 && t.state in {Closed, TimeWait} then 536 else size
    case EvConnect(endpoints, _) => if C.Connectable(endpoints) && t.state in {Closed, TimeWait} then 536 else size
    case EvProcess(_, s) => if KindOf(m, t, s) == Opens && s.mss.Some? then s.mss.value else size
    case EvDispatch(cx, _) =>
      if t.tuple.Some? && !MustSend(m, Started(m, t, t.tuple.value, cx), t.tuple.value, cx)
         && WaitIsOver(Started(m, t, t.tuple.value, cx), cx) then 536 else size
    case _ => size
  }

  function SizeIn(m: Arith, t: Tcb, events: seq<Event>, size: nat): nat
    decreases |events|
  {
    if |events| == 0 then size else SizeIn(m, Step(m, t, events[0]), events[1..], SizeAfter(m, t, events[0], size))
  }

  lemma ArrivalSize(m: Arith, t: Tcb, cx: Context, s: Segment)
    requires Inv(m, t) && SegmentOk(m, s) && Accepts(t, s)
    ensures Process(m, t, cx, s).0.snd.mss == SizeAfter(m, t, EvProcess(cx, s), t.snd.mss)
  {
    ArrivalMeaning(m, t, cx, s);
  }

  lemma PollSize(m: Arith, t: Tcb, cx: Context, emit: bool)
    requires Inv(m, t)
    ensures Dispatch(m, t, cx, emit).0.snd.mss == SizeAfter(m, t, EvDispatch(cx, emit), t.snd.mss)
  {
    PollMeaning(m, t, cx, emit);
  }

  lemma StepSize(m: Arith, t: Tcb, e: Event)
    requires Inv(m, t) && Enabled(m, t, e)
    ensures Step(m, t, e).snd.mss == SizeAfter(m, t, e, t.snd.mss)
  {
    match e
    case EvProcess(cx, s) => ArrivalSize(m, t, cx, s);
    case EvDispatch(cx, emit) => PollSize(m, t, cx, emit);
    case _ =>
  }

  /**
    When a SYN opens a connection, the size is the one it names, or 536 if it names none, exactly when it names one
    or the socket had no other: a listening socket keeps the size of an attempt that was reset.
   */
  lemma SizeAtOpening(m: Arith, t: Tcb, cx: Context, s: Segment)
    requires Inv(m, t) && SegmentOk(m, s) && Accepts(t, s) && KindOf(m, t, s) == Opens
    ensures Process(m, t, cx, s).0.snd.mss == (if s.mss.Some? then s.mss.value else 536) <==>
            s.mss.Some? || t.snd.mss == 536
  {
    ArrivalMeaning(m, t, cx, s);
  }

  /**
    In every run the segment size is the one that the last SYN has named that opened a connection since the
    socket was last opened by its application, or 536 if none did.
   */
  lemma {:induction false} SizeInRun(m: Arith, t0: Tcb, events: seq<Event>, t: Tcb)
    requires Inv(m, t0) && Runs(m, t0, events, t)
    ensures t.snd.mss == SizeIn(m, t0, events, t0.snd.mss)
    decreases |events|
  {
    if |events| > 0 {
      StepSize(m, t0, events[0]);
      StepInv(m, t0, events[0]);
      SizeInRun(m, Step(m, t0, events[0]), events[1..], t);
    }
  }
}
