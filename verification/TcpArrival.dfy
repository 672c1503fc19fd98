/**
  What `process` does with a segment, said from the socket and the segment alone. An arrival is of one of seven
  kinds (section 3.10.7 of RFC 9293), and for each kind it is said what is answered and what becomes of every
  field of the socket. The octets that are stored are described by the set of offsets that are known.
 */
module TcpArrival {
  import opened Options
  import opened Octets
  import opened Shifts
  import opened SeqNumber
  import opened Timers
  import opened RingSpec
  import opened TcpModel
  import opened TcpInvariant
  import R = RttBounds
  import A = AssemblerSpec

  // ----- which segments arrive

  /**
    A listening socket takes what may open a connection to its endpoint, every other open socket only what comes
    from its peer.
   */
  predicate Concerns(t: Tcb, s: Segment) {
    if t.state == Closed then false
    else if t.state == Listen then
      && s.ack.None? && s.control != Rst && s.dst.port == t.listen.port && s.dst.port != 0
      && (t.listen.addr.Some? ==> s.dst.addr == t.listen.addr.value)
    else t.tuple == Some(Tuple(s.dst, s.src))
  }

  lemma AcceptsMeaning(m: Arith, t: Tcb, s: Segment)
    requires Inv(m, t)
    ensures Accepts(t, s) <==> Concerns(t, s)
  {
  }

  // ----- the kinds of arrival

  /** The next number that the socket waits for. */
  function Awaited(m: Arith, rcv: RecvHalf): int {
    Add(m, rcv.start, rcv.buf.len)
  }

  /** The connection exists on both sides. */
  predicate Joined(st: State) {
    st !in {Closed, Listen, SynSent, SynReceived}
  }

  /** Our FIN is on its way. */
  predicate Finishing(st: State) {
    st in {FinWait1, Closing, LastAck}
  }

  /** The peer's FIN was taken. */
  predicate PeerDone(st: State) {
    st in {CloseWait, Closing, LastAck, TimeWait}
  }

  /** How many numbers beyond `una` an acknowledgement may cover. */
  function Outstanding(t: Tcb): nat {
    t.snd.buf.len + (if Finishing(t.state) then 1 else 0)
  }

  /** How far beyond the awaited number the segment starts; negative when it starts before it. */
  function Ahead(m: Arith, t: Tcb, s: Segment): int {
    Diff(m, s.seqNo, Awaited(m, t.rcv))
  }

  /** How far the acknowledgement lies beyond what was acknowledged before. */
  function AckedBy(m: Arith, t: Tcb, ack: int): int {
    Diff(m, ack, t.snd.una)
  }

  /** A segment of `n` octets that starts `d` beyond the left edge reaches into a window of `w`. */
  predicate Reaches(d: int, n: nat, w: nat) {
    if n == 0 then (if w == 0 then d == 0 else 0 <= d < w) else w > 0 && (0 <= d < w || 0 < d + n <= w)
  }

  /** A FIN that follows no hole. */
  predicate InOrderFin(m: Arith, t: Tcb, s: Segment) {
    s.control == Fin && Ahead(m, t, s) <= 0
  }

  datatype Kind = Ignored | Refused | Challenged | Kills | Opens | Spent | Taken

  function KindOf(m: Arith, t: Tcb, s: Segment): Kind {
    match t.state
    case Closed => Ignored
    case Listen => if s.control == Syn && s.mss != Some(0) then Opens else Ignored
    case SynSent => KindInSynSent(m, t, s)
    case _ => KindLater(m, t, s)
  }

  /** Once the handshake has begun, the acknowledgement number counts first, and then the window. */
  function KindLater(m: Arith, t: Tcb, s: Segment): Kind {
    if s.control != Rst && s.ack.None? then Ignored
    else if s.control != Rst && t.state == SynReceived && s.ack.value != Add(m, t.snd.una, 1) then Refused
    else if s.control != Rst && Joined(t.state) && AckedBy(m, t, s.ack.value) < 0 then Ignored
    else if s.control != Rst && Joined(t.state) && AckedBy(m, t, s.ack.value) > Outstanding(t) then Challenged
    else if !Reaches(Ahead(m, t, s), |s.payload|, t.rcv.buf.Window()) then Challenged
    else if s.control == Rst then Kills
    else if s.control == Syn || t.state == TimeWait || (InOrderFin(m, t, s) && PeerDone(t.state)) then Spent
    else Taken
  }

  /** Before the peer's SYN: only it, or a reset of our own, counts, and a wrong acknowledgement is refused. */
  function KindInSynSent(m: Arith, t: Tcb, s: Segment): Kind {
    var right := s.ack == Some(Add(m, t.snd.una, 1));
    if s.control == Rst then if right then Kills else Ignored
    else if s.control == Syn && (right || s.ack.None?) then if s.mss == Some(0) then Spent else Opens
    else if s.ack.Some? && !right && (s.control == Syn || s.control == NoFlag) then Refused
    else Ignored
  }

  // ----- what is answered

  /** The window in units of its scale: the most that does not promise more than there is, within 16 bits. */
  ghost predicate WindowTold(win: nat, space: nat, shift: nat) {
    win <= 65535 && Shl(win, shift) <= space && (win < 65535 ==> space < Shl(win + 1, shift))
  }

  /** A bare acknowledgement to the sender of `s` that tells it what the socket `t'` waits for and has room for. */
  ghost predicate Acknowledges(m: Arith, t': Tcb, s: Segment, r: Segment) {
    && r == Segment(s.dst, s.src, NoFlag, t'.snd.nxt, Some(Awaited(m, t'.rcv)), r.win, None, None, [])
    && WindowTold(r.win, t'.rcv.buf.Window(), t'.rcv.shift)
    && t'.rcv.lastAck == r.ack && t'.rcv.lastWin == r.win
  }

  /**
    A segment outside the window, or an acknowledgement of what was never sent, is answered with an
    acknowledgement, but not again within a second. In TIME-WAIT a segment outside the window restarts the wait.
   */
  ghost predicate ChallengeMeans(m: Arith, t: Tcb, cx: Context, s: Segment, t': Tcb, reply: Reply) {
    && (reply.Some? <==> cx.now >= t.challengeAt)
    && t'.challengeAt == (if reply.Some? then cx.now + 1_000_000 else t.challengeAt)
    && (reply.Some? ==> Acknowledges(m, t', s, reply.value))
    && t'.timer == (if t.state == TimeWait && !TooFar(m, t, s) then Close(cx.now + 10_000_000) else t.timer)
    && t' == t.(challengeAt := t'.challengeAt, timer := t'.timer,
                rcv := t.rcv.(lastAck := t'.rcv.lastAck, lastWin := t'.rcv.lastWin))
    && (reply.None? ==> t'.rcv == t.rcv)
  }

  /** The segment acknowledges more than was sent. */
  predicate TooFar(m: Arith, t: Tcb, s: Segment) {
    s.control != Rst && s.ack.Some? && Joined(t.state) && AckedBy(m, t, s.ack.value) > Outstanding(t)
  }

  // ----- what is taken

  /** The round trip is sampled when the acknowledgement covers the segment being timed. */
  ghost predicate TripMeans(m: Arith, t: Tcb, cx: Context, s: Segment, rtte: Rtte) {
    if s.ack.Some? then R.AckMeans(m, t.rtte, cx.now, s.ack.value, rtte) else rtte == t.rtte
  }

  function Quiet(cx: Context, t: Tcb): Timer {
    Idle(if t.conf.keepAlive.Some? then Some(cx.now + t.conf.keepAlive.value) else None)
  }

  /** The sending half learns the peer's window, which is not scaled yet, its scale and its segment size. */
  ghost predicate OpenSends(m: Arith, t: Tcb, cx: Context, s: Segment, snd: SendHalf) {
    && snd.buf == t.snd.buf && snd.winLen == s.win && snd.winScale == s.scale
    && snd.mss == (if s.mss.Some? then s.mss.value else t.snd.mss)
    && snd.una == (if t.state == Listen then cx.isn else if s.ack.Some? then s.ack.value else t.snd.una)
    && snd.nxt == (if t.state == Listen then cx.isn else Add(m, t.snd.una, 1))
    && snd.lastRxAck == (if s.ack.Some? then s.ack else t.snd.lastRxAck)
    && snd.dupAcks == (if s.ack.Some? then 0 else t.snd.dupAcks)
  }

  /** An acknowledged SYN is not sent again. */
  ghost predicate OpenTimes(t: Tcb, cx: Context, s: Segment, timer: Timer) {
    timer == if t.state == Listen || t.timer.Idle? || (s.ack.Some? && (t.timer.Retransmit? || t.timer.FastRetransmit?))
                || (t.timer.ZeroWindowProbe? && s.win > 0) then Quiet(cx, t) else t.timer
  }

  /** The peer's SYN opens the connection. If it gives no scale, the socket's own window is not scaled either. */
  ghost predicate OpenMeans(m: Arith, t: Tcb, cx: Context, s: Segment, t': Tcb) {
    && t'.conf == t.conf && t'.listen == t.listen && t'.challengeAt == t.challengeAt && t'.lastTs == Some(cx.now)
    && t'.tuple == (if t.state == Listen then Some(Tuple(s.dst, s.src)) else t.tuple)
    && t'.state == (if s.ack.Some? then Established else SynReceived)
    && t'.rcv == t.rcv.(start := Add(m, s.seqNo, 1), shift := if s.scale.None? then 0 else t.rcv.shift,
                        lastAck := if t.state == Listen then t.rcv.lastAck else Some(s.seqNo))
    && OpenSends(m, t, cx, s, t'.snd) && OpenTimes(t, cx, s, t'.timer) && TripMeans(m, t, cx, s, t'.rtte)
  }

  /** Our FIN is acknowledged: its number is one past the last octet. */
  predicate FinAckedBy(m: Arith, t: Tcb, s: Segment) {
    s.ack.Some? && Finishing(t.state) && AckedBy(m, t, s.ack.value) == t.snd.buf.len + 1
  }

  /** How many octets of the transmit buffer are acknowledged. */
  function OctetsAcked(m: Arith, t: Tcb, s: Segment): int
    requires s.ack.Some?
  {
    AckedBy(m, t, s.ack.value) - (if t.state == SynReceived || FinAckedBy(m, t, s) then 1 else 0)
  }

  /** The state diagram: our FIN is acknowledged, or the peer's arrives, or both. */
  function NextState(st: State, fin: bool, finAcked: bool): State {
    match st
    case SynReceived => if fin then CloseWait else Established
    case Established => if fin then CloseWait else Established
    case FinWait1 =>
      if fin && finAcked then TimeWait else if fin then Closing else if finAcked then FinWait2 else FinWait1
    case FinWait2 => if fin then TimeWait else FinWait2
    case Closing => if finAcked then TimeWait else Closing
    case LastAck => if finAcked then Closed else LastAck
    case _ => st
  }

  /** The acknowledgement is the one before again, without octets or a new window, while something is in flight. */
  predicate Repeats(m: Arith, t: Tcb, s: Segment, winLen: nat) {
    && s.ack.Some? && t.snd.lastRxAck == s.ack && s.payload == [] && Diff(m, s.ack.value, t.snd.nxt) < 0
    && winLen == t.snd.winLen
  }

  /** The sending half takes the window and drops what is acknowledged. */
  ghost predicate SendTaken(m: Arith, t: Tcb, s: Segment, snd: SendHalf) {
    && s.ack.Some?
    && 0 <= OctetsAcked(m, t, s) <= |t.snd.buf.Contents()|
    && snd.buf.Contents() == t.snd.buf.Contents()[OctetsAcked(m, t, s)..]
    && snd.buf.Capacity() == t.snd.buf.Capacity()
    && snd.una == s.ack.value && snd.nxt == (if Diff(m, t.snd.nxt, s.ack.value) < 0 then s.ack.value else t.snd.nxt)
    && snd.winLen == Shl(s.win, if t.snd.winScale.Some? then t.snd.winScale.value else 0)
    && snd.winScale == t.snd.winScale && snd.mss == t.snd.mss
    && snd.lastRxAck == s.ack
    && snd.dupAcks == (if !Repeats(m, t, s, snd.winLen) then 0
                       else if t.snd.dupAcks < 255 then t.snd.dupAcks + 1 else 255)
  }

  /**
    The timer after an acknowledgement. A closed window with octets waiting is probed after one timeout. The third
    repetition in a row makes the first octets go out again at once. While something is in flight, new octets
    acknowledged restart the retransmission timeout, and everything acknowledged ends it.
   */
  ghost predicate TimerTaken(m: Arith, t: Tcb, cx: Context, s: Segment, t': Tcb) {
    s.ack.Some? &&
    if t'.state == TimeWait then t'.timer == Close(cx.now + 10_000_000)
    else TimerIs(t.timer, Repeats(m, t, s, t'.snd.winLen) && t.snd.dupAcks == 2, OctetsAcked(m, t, s) > 0,
                 Diff(m, t.snd.nxt, s.ack.value) <= 0, cx.now, Quiet(cx, t), 1000 * t'.rtte.rto, t'.snd.winLen,
                 t'.snd.buf.len, t'.timer)
  }

  /** `third` repetition, `some` octets acknowledged or `all` that is in flight; `left` octets stay in the buffer. */
  predicate TimerIs(timer: Timer, third: bool, some: bool, all: bool, now: int, quiet: Timer, rto: nat, winLen: nat,
                    left: nat, timer': Timer) {
    var resending := third || timer.Retransmit? || timer.FastRetransmit?;
    if winLen == 0 && left > 0 && (some || (if resending then all else timer.Idle?)) then
      timer' == ZeroWindowProbe(now + rto, rto)
    else if resending then
      timer' == if all then quiet else if some then Retransmit(now + rto) else if third then FastRetransmit else timer
    else timer' == if timer.Idle? || winLen > 0 then quiet else timer
  }

  // ----- what is received

  /** The part of the segment inside the window, as offsets from the left edge. */
  function From(m: Arith, t: Tcb, s: Segment): int {
    if Ahead(m, t, s) < 0 then 0 else Ahead(m, t, s)
  }

  function Until(m: Arith, t: Tcb, s: Segment): int {
    var end := Ahead(m, t, s) + |s.payload|;
    if end > t.rcv.buf.Window() then t.rcv.buf.Window() else end
  }

  /** Octets are kept: some lie in the window, and the tracker has room for their range. */
  ghost predicate Keeps(m: Arith, t: Tcb, s: Segment) {
    var lo, hi := From(m, t, s), Until(m, t, s);
    && lo < hi
    && (lo == 0 || |A.RunStarts(A.Denote(t.rcv.asm) + A.Interval(lo, hi - lo))| <= t.conf.slots)
  }

  /** In storage whose first `len` octets are received, `octets` has been laid from `d` on, cut to `lo` and `hi`. */
  ghost predicate Laid(before: seq<byte>, after: seq<byte>, len: nat, octets: seq<byte>, lo: int, hi: int, d: int) {
    && |after| == |before| && 0 <= lo <= hi && 0 <= lo - d && hi - d <= |octets|
    && forall i :: 0 <= i < |before| ==> after[i] == if lo <= i - len < hi then octets[i - len - d] else before[i]
  }

  /** The octets are in their place, the first offsets have become received, and the others are known ahead. */
  ghost predicate OctetsKept(m: Arith, t: Tcb, s: Segment, buf: Ring, asm: seq<A.Contig>) {
    var lo, hi := From(m, t, s), Until(m, t, s);
    && buf.len >= t.rcv.buf.len && buf.readAt == t.rcv.buf.readAt && 0 <= lo <= hi
    && Laid(t.rcv.buf.cells, buf.cells, t.rcv.buf.len, s.payload, lo, hi, Ahead(m, t, s))
    && A.IsUnionStripped(t.rcv.asm, lo, hi - lo, asm, buf.len - t.rcv.buf.len)
  }

  /** There is something to acknowledge beyond `last`. */
  predicate Owing(m: Arith, last: Option<int>, next: int) {
    last.Some? && Diff(m, last.value, next) < 0
  }

  /** The first octets to acknowledge start the delay; once they are more than a whole segment it is over. */
  ghost predicate DelayTaken(m: Arith, t: Tcb, cx: Context, next: int, timer: AckDelayTimer) {
    if t.conf.ackDelay.None? || !Owing(m, t.rcv.lastAck, next) then timer == t.rcv.ackTimer
    else if t.rcv.ackTimer.AckIdle? then timer == AckWaiting(cx.now + t.conf.ackDelay.value)
    else if t.rcv.ackTimer.AckWaiting? && Diff(m, Add(m, t.rcv.lastAck.value, t.snd.mss), next) < 0 then
      timer == AckImmediate
    else timer == t.rcv.ackTimer
  }

  /**
    The receiving half counts the FIN and keeps the octets. They are acknowledged at once exactly when something
    was missing before or is missing now; otherwise the acknowledgement is delayed.
   */
  ghost predicate ReceiveTaken(m: Arith, t: Tcb, cx: Context, s: Segment, t': Tcb, reply: Reply) {
    var fin := InOrderFin(m, t, s);
    && t'.rcv.start == (if fin then Add(m, t.rcv.start, 1) else t.rcv.start) && t'.rcv.fin == (t.rcv.fin || fin)
    && t'.rcv.shift == t.rcv.shift
    && if Keeps(m, t, s) then
         && OctetsKept(m, t, s, t'.rcv.buf, t'.rcv.asm) && DelayTaken(m, t, cx, Awaited(m, t'.rcv), t'.rcv.ackTimer)
         && (reply.Some? <==> t.rcv.asm != [] || t'.rcv.asm != [])
         && (reply.Some? ==> Acknowledges(m, t', s, reply.value))
         && (reply.None? ==> t'.rcv.lastAck == t.rcv.lastAck && t'.rcv.lastWin == t.rcv.lastWin)
       else
         && reply.None? && t'.rcv == t.rcv.(start := t'.rcv.start, fin := t'.rcv.fin)
  }

  /** Everything but the receiving half. */
  ghost predicate Proceeds(m: Arith, t: Tcb, cx: Context, s: Segment, t': Tcb) {
    && t'.conf == t.conf && t'.listen == t.listen && t'.challengeAt == t.challengeAt && t'.lastTs == Some(cx.now)
    && t'.state == NextState(t.state, InOrderFin(m, t, s), FinAckedBy(m, t, s))
    && t'.tuple == (if t'.state == Closed then None else t.tuple)
    && SendTaken(m, t, s, t'.snd) && TripMeans(m, t, cx, s, t'.rtte) && TimerTaken(m, t, cx, s, t')
  }

  ghost predicate TakenMeans(m: Arith, t: Tcb, cx: Context, s: Segment, t': Tcb, reply: Reply) {
    Proceeds(m, t, cx, s, t') && ReceiveTaken(m, t, cx, s, t', reply)
  }

  /** What an arriving segment does. */
  ghost predicate ArrivalMeans(m: Arith, t: Tcb, cx: Context, s: Segment, t': Tcb, reply: Reply) {
    match KindOf(m, t, s)
    case Ignored => t' == t && reply.None?
    case Refused =>
      t' == t && s.ack.Some? && reply == Some(Segment(s.dst, s.src, Rst, s.ack.value, None, 0, None, None, []))
    case Challenged => ChallengeMeans(m, t, cx, s, t', reply)
    case Kills =>
      && t' == t.(tuple := None, state := if t.state == SynReceived && t.listen.port != 0 then Listen else Closed)
      && reply.None?
    case Opens => OpenMeans(m, t, cx, s, t') && reply.None?
    case Spent => t' == t.(rtte := t'.rtte) && TripMeans(m, t, cx, s, t'.rtte) && reply.None?
    case Taken => TakenMeans(m, t, cx, s, t', reply)
  }

  // ----- the acceptance tests decide the kind

  lemma BeyondSent(m: Arith, una: int, ack: int, out: nat)
    requires InRange(m, una) && InRange(m, ack) && out <= TX_LIMIT + 1
    ensures Lt(m, ack, una) <==> Diff(m, ack, una) < 0
    ensures Diff(m, ack, una) >= 0 ==> (Lt(m, Add(m, una, out), ack) <==> Diff(m, ack, una) > out)
  {
  }

  /** The verdict on the acknowledgement number, once the handshake has begun. */
  lemma AckVerdictIs(m: Arith, t: Tcb, s: Segment)
    requires Inv(m, t) && SegmentOk(m, s) && (Joined(t.state) || t.state == SynReceived)
    ensures CheckAck(m, t.state, t.snd, s) ==
            if s.control == Rst then AckAccept
            else if s.ack.None? then AckIgnore
            else if t.state == SynReceived then
              if s.ack.value == Add(m, t.snd.una, 1) then AckAccept else AckReset
            else if AckedBy(m, t, s.ack.value) < 0 then AckIgnore
            else if AckedBy(m, t, s.ack.value) > Outstanding(t) then AckChallenge
            else AckAccept
  {
    if s.ack.Some? {
      BeyondSent(m, t.snd.una, s.ack.value, Outstanding(t));
    }
  }

  lemma WindowVerdictIs(m: Arith, t: Tcb, s: Segment)
    requires RecvOk(m, t.rcv, t.conf.slots) && SegmentOk(m, s)
    ensures CheckWindow(m, t.rcv, s).Inside? <==> Reaches(Ahead(m, t, s), |s.payload|, t.rcv.buf.Window())
  {
    WindowEdge(m, t.rcv, t.conf.slots);
    WindowTest(m, t.rcv.Next(m), t.rcv.buf.Window(), s.seqNo, |s.payload|);
  }

  /** `payload` is the part of the segment inside the window, and `lo` its offset. */
  predicate Cut(m: Arith, t: Tcb, s: Segment, payload: seq<byte>, lo: nat) {
    var hi, d := Until(m, t, s), Ahead(m, t, s);
    && lo == From(m, t, s) && lo <= hi <= t.rcv.buf.Window() && 0 <= lo - d <= hi - d <= |s.payload|
    && payload == s.payload[lo - d..hi - d]
  }

  lemma CutIs(m: Arith, t: Tcb, s: Segment, payload: seq<byte>, lo: nat)
    requires RecvOk(m, t.rcv, t.conf.slots) && SegmentOk(m, s) && CheckWindow(m, t.rcv, s) == Inside(payload, lo)
    ensures Cut(m, t, s, payload, lo)
  {
    InsideIsCut(m, t.rcv, t.conf.slots, s);
    CutOfRing(m, t, s, payload, lo);
  }

  lemma CutOfRing(m: Arith, t: Tcb, s: Segment, payload: seq<byte>, lo: nat)
    requires CutAt(Ahead(m, t, s), t.rcv.buf.Window(), s.payload, Inside(payload, lo))
    ensures Cut(m, t, s, payload, lo)
  {
  }

  lemma InsideIsCut(m: Arith, rcv: RecvHalf, slots: nat, s: Segment)
    requires RecvOk(m, rcv, slots) && SegmentOk(m, s) && CheckWindow(m, rcv, s).Inside?
    ensures CutAt(Diff(m, s.seqNo, rcv.Next(m)), rcv.buf.Window(), s.payload, CheckWindow(m, rcv, s))
  {
    WindowEdge(m, rcv, slots);
    OverlapCut(m, rcv.Next(m), rcv.buf.Window(), s.seqNo, s.payload);
  }

  ghost predicate CutAt(d: int, w: nat, octets: seq<byte>, v: WindowVerdict) {
    var lo, hi := if d < 0 then 0 else d, if w < d + |octets| then w else d + |octets|;
    && lo <= hi <= w && 0 <= lo - d <= hi - d <= |octets| && v == Inside(octets[lo - d..hi - d], lo)
  }

  lemma OverlapCut(m: Arith, left: int, w: nat, from: int, octets: seq<byte>)
    requires InRange(m, left) && InRange(m, from) && w <= RX_LIMIT && |octets| < RX_LIMIT
    requires InWindow(m, left, Add(m, left, w), from, Add(m, from, |octets|))
    ensures var start, end := SeqMax(m, left, from), SeqMin(m, Add(m, left, w), Add(m, from, |octets|));
            CutAt(Diff(m, from, left), w, octets,
                  Inside(Slice(octets, Dist(m, start, from), Dist(m, end, from)), Dist(m, start, left)))
  {
    OverlapIsIntersection(m, left, w, from, |octets|);
  }

  /** A FIN that reaches the window follows a hole exactly when it starts beyond the left edge. */
  lemma LateFin(m: Arith, t: Tcb, s: Segment)
    requires RecvOk(m, t.rcv, t.conf.slots) && SegmentOk(m, s)
    requires Reaches(Ahead(m, t, s), |s.payload|, t.rcv.buf.Window())
    ensures Lt(m, t.rcv.Next(m), s.seqNo) <==> Ahead(m, t, s) > 0
  {
    WindowEdge(m, t.rcv, t.conf.slots);
  }

  // ----- acknowledgements of the socket's own state

  lemma WindowUnits(rcv: RecvHalf)
    ensures WindowTold(rcv.ScaledWindow(), rcv.buf.Window(), rcv.shift)
  {
    var w, n := rcv.buf.Window(), rcv.shift;
    ShrShlBelow(w, n);
    ShrShlAbove(w, n);
    ShlMonotone(rcv.ScaledWindow(), Shr(w, n), n);
  }

  lemma AckReplyMeans(m: Arith, t: Tcb, s: Segment)
    ensures var (t', r) := AckReply(m, t, s);
            && r.Some? && Acknowledges(m, t', s, r.value)
            && t' == t.(rcv := t.rcv.(lastAck := t'.rcv.lastAck, lastWin := t'.rcv.lastWin))
  {
    WindowUnits(t.rcv);
  }

  lemma ChallengeAckMeans(m: Arith, t: Tcb, t1: Tcb, cx: Context, s: Segment)
    requires t1 == t.(timer := if t.state == TimeWait && !TooFar(m, t, s) then Close(cx.now + 10_000_000) else t.timer)
    ensures var (t', r) := ChallengeAck(m, t1, cx, s); ChallengeMeans(m, t, cx, s, t', r)
  {
    AckReplyMeans(m, t1.(challengeAt := cx.now + CHALLENGE_ACK_INTERVAL), s);
  }

  // ----- LISTEN and SYN-SENT

  lemma ListenMeans(m: Arith, t: Tcb, cx: Context, s: Segment)
    requires Inv(m, t) && SegmentOk(m, s) && Accepts(t, s) && t.state == Listen
    ensures ArrivalMeans(m, t, cx, s, Process(m, t, cx, s).0, Process(m, t, cx, s).1)
  {
    ListenShape(m, t, cx, s);
    if s.control == Syn && s.mss != Some(0) {
      ListenOpens(m, t, cx, s);
    }
  }

  /** The connection a SYN opens in LISTEN. */
  function Answered(m: Arith, t: Tcb, cx: Context, s: Segment): Tcb {
    UpdateRemote(m, t.(tuple := Some(Tuple(s.dst, s.src)), state := SynReceived,
                       timer := ForIdle(cx.now, t.conf.keepAlive), snd := OpenSend(t.snd, s, cx.isn, cx.isn),
                       rcv := OpenRecv(m, t.rcv, s)), cx, s, AnalyseAck(m, Listen, t.snd, s))
  }

  lemma ListenShape(m: Arith, t: Tcb, cx: Context, s: Segment)
    requires Accepts(t, s) && t.state == Listen
    ensures s.ack.None? && s.control != Rst
    ensures Process(m, t, cx, s) ==
            (if s.control == Syn && s.mss != Some(0) then Answered(m, t, cx, s) else t, None)
  {
  }

  lemma ListenOpens(m: Arith, t: Tcb, cx: Context, s: Segment)
    requires Inv(m, t) && SegmentOk(m, s) && t.state == Listen && s.ack.None? && s.control == Syn
    ensures OpenMeans(m, t, cx, s, Answered(m, t, cx, s))
  {
  }

  lemma SynSentKinds(m: Arith, t: Tcb, s: Segment)
    requires t.state == SynSent
    ensures CheckAck(m, t.state, t.snd, s) == AckIgnore <==> KindInSynSent(m, t, s) == Ignored
    ensures CheckAck(m, t.state, t.snd, s) == AckReset <==> KindInSynSent(m, t, s) == Refused
    ensures CheckAck(m, t.state, t.snd, s) == AckAccept <==> KindInSynSent(m, t, s) in {Kills, Opens, Spent}
    ensures KindInSynSent(m, t, s) in {Opens, Spent} ==> s.control == Syn
    ensures KindInSynSent(m, t, s) == Kills ==> s.control == Rst
  {
  }

  lemma TripTaken(m: Arith, t: Tcb, cx: Context, s: Segment)
    requires s.control != Rst
    ensures TripMeans(m, t, cx, s, SampleRtt(m, t, cx, s).rtte)
    ensures SampleRtt(m, t, cx, s) == t.(rtte := SampleRtt(m, t, cx, s).rtte)
  {
    if s.ack.Some? {
      R.AckMeaning(m, t.rtte, cx.now, s.ack.value);
    }
  }

  lemma SynOpensSend(m: Arith, t: Tcb, cx: Context, s: Segment)
    requires Inv(m, t) && SegmentOk(m, s) && t.state == SynSent && s.control == Syn
    requires CheckAck(m, t.state, t.snd, s) == AckAccept
    ensures AnalyseAck(m, SynSent, t.snd, s) == AckInfo(0, false, s.ack.Some?)
    ensures OpenSends(m, t, cx, s, UpdateSend(m, OpenSend(t.snd, s, t.snd.una, Add(m, t.snd.una, 1)), s, 0))
  {
  }

  lemma SynOpensTimer(t: Tcb, cx: Context, s: Segment, rto: nat)
    requires t.state == SynSent && !t.timer.Close?
    ensures OpenTimes(t, cx, s, UpdateTimer(t.timer, false, AckInfo(0, false, s.ack.Some?), cx.now,
                                            t.conf.keepAlive, rto, s.win, true))
  {
  }

  lemma NoRepeatAtOpen(m: Arith, t: Tcb, s: Segment)
    requires InRange(m, t.snd.una) && t.state == SynSent && s.control == Syn
    requires CheckAck(m, t.state, t.snd, s) == AckAccept
    ensures !StartsFastRetransmit(m, OpenSend(t.snd, s, t.snd.una, Add(m, t.snd.una, 1)), s)
  {
  }

  lemma SynOpens(m: Arith, t: Tcb, cx: Context, s: Segment)
    requires Inv(m, t) && SegmentOk(m, s) && t.state == SynSent && s.control == Syn && s.mss != Some(0)
    requires CheckAck(m, t.state, t.snd, s) == AckAccept
    ensures var a := AnalyseAck(m, SynSent, t.snd, s);
            OpenMeans(m, t, cx, s, UpdateRemote(m, Opened(m, SampleRtt(m, t, cx, s), s), cx, s, a))
  {
    TripTaken(m, t, cx, s);
    SynOpensSend(m, t, cx, s);
    NoRepeatAtOpen(m, t, s);
    SynOpensTimer(t, cx, s, SampleRtt(m, t, cx, s).rtte.Timeout());
  }

  lemma SynSentMeans(m: Arith, t: Tcb, cx: Context, s: Segment)
    requires Inv(m, t) && SegmentOk(m, s) && t.state == SynSent
    ensures ArrivalMeans(m, t, cx, s, Process(m, t, cx, s).0, Process(m, t, cx, s).1)
  {
    SynSentKinds(m, t, s);
    if CheckAck(m, t.state, t.snd, s) == AckAccept && s.control != Rst {
      SynSentTakes(m, t, cx, s);
    }
  }

  lemma SynSentTakes(m: Arith, t: Tcb, cx: Context, s: Segment)
    requires Inv(m, t) && SegmentOk(m, s) && t.state == SynSent && s.control != Rst
    requires CheckAck(m, t.state, t.snd, s) == AckAccept
    ensures ArrivalMeans(m, t, cx, s, Process(m, t, cx, s).0, Process(m, t, cx, s).1)
  {
    SynSentKinds(m, t, s);
    SynSentShape(m, t, cx, s);
    TripTaken(m, t, cx, s);
    if s.mss != Some(0) {
      SynOpens(m, t, cx, s);
    }
  }

  // ----- the rest of the states

  /** The shape of `process` in a state past SYN-SENT. */
  lemma LaterShape(m: Arith, t: Tcb, cx: Context, s: Segment)
    requires Joined(t.state) || t.state == SynReceived
    ensures Process(m, t, cx, s) ==
            match CheckAck(m, t.state, t.snd, s)
            case AckIgnore => (t, None)
            case AckReset => (t, Some(RstReply(m, s)))
            case AckChallenge => ChallengeAck(m, t, cx, s)
            case AckAccept => match CheckWindow(m, t.rcv, s)
              case Outside => ChallengeAck(m, if t.state == TimeWait then t.(timer := ForClose(cx.now)) else t, cx, s)
              case Inside(payload, offset) => ProcessAccepted(m, t, cx, s, payload, offset)
  {
  }

  /** Which kind the two tests make of a segment. */
  lemma VerdictKind(m: Arith, t: Tcb, s: Segment)
    requires Inv(m, t) && SegmentOk(m, s) && (Joined(t.state) || t.state == SynReceived)
    ensures KindOf(m, t, s) == KindLater(m, t, s)
    ensures match CheckAck(m, t.state, t.snd, s)
            case AckIgnore => KindLater(m, t, s) == Ignored
            case AckReset => KindLater(m, t, s) == Refused && s.ack.Some? && s.control != Rst
            case AckChallenge => KindLater(m, t, s) == Challenged && TooFar(m, t, s)
            case AckAccept =>
              if CheckWindow(m, t.rcv, s).Outside? then KindLater(m, t, s) == Challenged && !TooFar(m, t, s)
              else if s.control == Rst then KindLater(m, t, s) == Kills
              else if s.control == Syn || t.state == TimeWait || (InOrderFin(m, t, s) && PeerDone(t.state)) then
                KindLater(m, t, s) == Spent
              else KindLater(m, t, s) == Taken
  {
    AckVerdictIs(m, t, s);
    WindowVerdictIs(m, t, s);
  }

  lemma RefusalMeans(m: Arith, s: Segment)
    requires s.ack.Some?
    ensures RstReply(m, s) == Segment(s.dst, s.src, Rst, s.ack.value, None, 0, None, None, [])
  {
  }

  lemma LaterMeans(m: Arith, t: Tcb, cx: Context, s: Segment)
    requires Inv(m, t) && SegmentOk(m, s) && (Joined(t.state) || t.state == SynReceived)
    ensures ArrivalMeans(m, t, cx, s, Process(m, t, cx, s).0, Process(m, t, cx, s).1)
  {
    if CheckAck(m, t.state, t.snd, s) != AckAccept {
      UnacceptedMeans(m, t, cx, s);
    } else {
      LaterShape(m, t, cx, s);
      match CheckWindow(m, t.rcv, s)
      case Outside => OutsideMeans(m, t, cx, s);
      case Inside(payload, offset) => AcceptedMeans(m, t, cx, s, payload, offset);
    }
  }

  lemma UnacceptedMeans(m: Arith, t: Tcb, cx: Context, s: Segment)
    requires Inv(m, t) && SegmentOk(m, s) && (Joined(t.state) || t.state == SynReceived)
    requires CheckAck(m, t.state, t.snd, s) != AckAccept
    ensures ArrivalMeans(m, t, cx, s, Process(m, t, cx, s).0, Process(m, t, cx, s).1)
  {
    LaterShape(m, t, cx, s);
    VerdictKind(m, t, s);
    match CheckAck(m, t.state, t.snd, s)
    case AckReset => RefusalMeans(m, s);
    case AckChallenge => ChallengeAckMeans(m, t, t, cx, s);
    case _ =>
  }

  lemma OutsideMeans(m: Arith, t: Tcb, cx: Context, s: Segment)
    requires Inv(m, t) && SegmentOk(m, s) && (Joined(t.state) || t.state == SynReceived)
    requires CheckAck(m, t.state, t.snd, s) == AckAccept && CheckWindow(m, t.rcv, s).Outside?
    ensures ArrivalMeans(m, t, cx, s, Process(m, t, cx, s).0, Process(m, t, cx, s).1)
  {
    LaterShape(m, t, cx, s);
    VerdictKind(m, t, s);
    ChallengeAckMeans(m, t, if t.state == TimeWait then t.(timer := ForClose(cx.now)) else t, cx, s);
  }

  /** The segment passes both tests. */
  ghost predicate Passes(m: Arith, t: Tcb, s: Segment, payload: seq<byte>, offset: nat) {
    && (Joined(t.state) || t.state == SynReceived)
    && CheckAck(m, t.state, t.snd, s) == AckAccept && CheckWindow(m, t.rcv, s) == Inside(payload, offset)
  }

  lemma AcceptedMeans(m: Arith, t: Tcb, cx: Context, s: Segment, payload: seq<byte>, offset: nat)
    requires Inv(m, t) && SegmentOk(m, s) && Passes(m, t, s, payload, offset)
    ensures var (t', reply) := ProcessAccepted(m, t, cx, s, payload, offset); ArrivalMeans(m, t, cx, s, t', reply)
  {
    VerdictKind(m, t, s);
    WindowVerdictIs(m, t, s);
    LateFin(m, t, s);
    if s.control == Rst {
      KilledMeans(m, t, cx, s);
    } else {
      GoesOn(m, t, cx, s);
      match Advance(m, t, cx, s)
      case Stop(t1) => SpentMeans(m, t, cx, s);
      case Go(t1) => GoneOnMeans(m, t, cx, s, t1, payload, offset);
    }
  }

  lemma GoneOnMeans(m: Arith, t: Tcb, cx: Context, s: Segment, t1: Tcb, payload: seq<byte>, offset: nat)
    requires Inv(m, t) && SegmentOk(m, s) && Passes(m, t, s, payload, offset) && s.control != Rst
    requires Advance(m, t, cx, s) == Go(t1) && (Lt(m, t.rcv.Next(m), s.seqNo) <==> Ahead(m, t, s) > 0)
    ensures var (t', reply) := ProcessAccepted(m, t, cx, s, payload, offset); TakenMeans(m, t, cx, s, t', reply)
  {
    AdvancedMeans(m, t, cx, s, t1);
    StoredMeans(m, t, t1, cx, s, payload, offset);
  }

  lemma KilledMeans(m: Arith, t: Tcb, cx: Context, s: Segment)
    requires s.control == Rst && (Joined(t.state) || t.state == SynReceived)
    ensures Advance(m, t, cx, s) ==
            Stop(t.(tuple := None, state := if t.state == SynReceived && t.listen.port != 0 then Listen else Closed))
  {
  }

  /** The segment goes on exactly when its kind says so. */
  lemma GoesOn(m: Arith, t: Tcb, cx: Context, s: Segment)
    requires s.control != Rst && (Joined(t.state) || t.state == SynReceived)
    requires Lt(m, t.rcv.Next(m), s.seqNo) <==> Ahead(m, t, s) > 0
    ensures Advance(m, t, cx, s).Stop? <==>
            s.control == Syn || t.state == TimeWait || (InOrderFin(m, t, s) && PeerDone(t.state))
  {
  }

  lemma SpentMeans(m: Arith, t: Tcb, cx: Context, s: Segment)
    requires s.control != Rst && (Joined(t.state) || t.state == SynReceived) && Advance(m, t, cx, s).Stop?
    ensures var t' := Advance(m, t, cx, s).t; t' == t.(rtte := t'.rtte) && TripMeans(m, t, cx, s, t'.rtte)
  {
    AdvanceShape(m, t, cx, s);
    TripTaken(m, t, cx, s);
  }

  // ----- everything but the octets

  /** The receiving half counts the FIN before the octets are stored. */
  ghost predicate Counts(m: Arith, t: Tcb, s: Segment, rcv: RecvHalf) {
    var fin := InOrderFin(m, t, s);
    rcv == t.rcv.(start := if fin then Add(m, t.rcv.start, 1) else t.rcv.start, fin := t.rcv.fin || fin)
  }

  lemma AnalysisIs(m: Arith, t: Tcb, s: Segment)
    requires Inv(m, t) && SegmentOk(m, s) && (Joined(t.state) || t.state == SynReceived) && s.control != Rst
    requires CheckAck(m, t.state, t.snd, s) == AckAccept
    ensures s.ack.Some?
    ensures var a := AnalyseAck(m, t.state, t.snd, s);
            && a.ofFin == FinAckedBy(m, t, s) && a.len == OctetsAcked(m, t, s) && a.len <= t.snd.buf.len
            && a.all == (Diff(m, t.snd.nxt, s.ack.value) <= 0)
  {
    AcceptedAck(m, t.state, t.snd, s);
    AckLenFits(m, t.state, t.snd, s);
  }

  lemma SendSideMeans(m: Arith, t: Tcb, s: Segment, n: nat)
    requires Inv(m, t) && s.ack.Some? && s.control != Syn && n == OctetsAcked(m, t, s) && n <= t.snd.buf.len
    ensures SendTaken(m, t, s, UpdateSend(m, t.snd, s, n))
    ensures UpdateSend(m, t.snd, s, n).buf.len == t.snd.buf.len - n
  {
    DequeueFacts(t.snd.buf, n);
  }

  lemma AdvancedMeans(m: Arith, t: Tcb, cx: Context, s: Segment, t1: Tcb)
    requires Inv(m, t) && SegmentOk(m, s) && (Joined(t.state) || t.state == SynReceived) && s.control != Rst
    requires CheckAck(m, t.state, t.snd, s) == AckAccept && Advance(m, t, cx, s) == Go(t1)
    requires Lt(m, t.rcv.Next(m), s.seqNo) <==> Ahead(m, t, s) > 0
    ensures Proceeds(m, t, cx, s, t1) && Counts(m, t, s, t1.rcv)
  {
    var a := AnalyseAck(m, t.state, t.snd, s);
    var q := SampleRtt(m, t, cx, s);
    var control := EffectiveControl(m, t.rcv, s);
    AnalysisIs(m, t, s);
    TripTaken(m, t, cx, s);
    GoesOn(m, t, cx, s);
    AdvanceShape(m, t, cx, s);
    SendSideMeans(m, t, s, a.len);
    var t2 := Transition(m, q, cx, s, control, a.ofFin).t;
    MovesOn(m, t, q, cx, s, t2);
    TimerMeans(m, t, t2, cx, s);
  }

  lemma MovesOn(m: Arith, t: Tcb, q: Tcb, cx: Context, s: Segment, t2: Tcb)
    requires (Joined(t.state) || t.state == SynReceived) && s.control != Rst && q == t.(rtte := q.rtte)
    requires Lt(m, t.rcv.Next(m), s.seqNo) <==> Ahead(m, t, s) > 0
    requires Transition(m, q, cx, s, EffectiveControl(m, t.rcv, s), FinAckedBy(m, t, s)) == Go(t2)
    ensures var fin := InOrderFin(m, t, s);
            && t2.state == NextState(t.state, fin, FinAckedBy(m, t, s))
            && t2.tuple == (if t2.state == Closed then None else t.tuple)
            && t2.rcv == t.rcv.(start := if fin then Add(m, t.rcv.start, 1) else t.rcv.start, fin := t.rcv.fin || fin)
            && t2.timer == (if t2.state == TimeWait then Close(cx.now + 10_000_000) else t.timer)
            && t2 == q.(state := t2.state, tuple := t2.tuple, rcv := t2.rcv, timer := t2.timer)
  {
  }

  lemma TimerMeans(m: Arith, t: Tcb, t2: Tcb, cx: Context, s: Segment)
    requires Inv(m, t) && SegmentOk(m, s) && (Joined(t.state) || t.state == SynReceived)
    requires s.control != Rst && s.control != Syn
    requires CheckAck(m, t.state, t.snd, s) == AckAccept && t2.snd == t.snd && t2.conf == t.conf && t.state != TimeWait
    requires t2.state == NextState(t.state, InOrderFin(m, t, s), FinAckedBy(m, t, s))
    requires t2.timer == (if t2.state == TimeWait then Close(cx.now + 10_000_000) else t.timer)
    ensures TimerTaken(m, t, cx, s, UpdateRemote(m, t2, cx, s, AnalyseAck(m, t.state, t.snd, s)))
  {
    AnalysisIs(m, t, s);
    if t2.state == TimeWait {
      ClosingTimer(m, t, t2, cx, s);
    } else {
      RunningTimer(m, t, t2, cx, s, AnalyseAck(m, t.state, t.snd, s));
    }
  }

  /** Everything is acknowledged on the way to TIME-WAIT, so that the timer of that state is not overwritten. */
  lemma ClosingTimer(m: Arith, t: Tcb, t2: Tcb, cx: Context, s: Segment)
    requires Inv(m, t) && SegmentOk(m, s) && s.control != Rst && CheckAck(m, t.state, t.snd, s) == AckAccept
    requires t2.snd == t.snd && t2.timer == Close(cx.now + 10_000_000) && t.state != SynSent
    requires t.state == FinWait2 || (SentFin(t.state) && AnalyseAck(m, t.state, t.snd, s).ofFin)
    ensures UpdateRemote(m, t2, cx, s, AnalyseAck(m, t.state, t.snd, s)).timer == t2.timer
  {
    NoFastRetransmit(m, t.state, t.snd, s);
  }

  lemma RepeatIs(m: Arith, t: Tcb, s: Segment)
    requires s.control != Syn
    ensures StartsFastRetransmit(m, t.snd, s) <==> Repeats(m, t, s, WindowOf(t.snd, s)) && t.snd.dupAcks == 2
  {
  }

  lemma RunningTimer(m: Arith, t: Tcb, t2: Tcb, cx: Context, s: Segment, a: AckInfo)
    requires Inv(m, t) && s.ack.Some? && s.control != Syn && t2.snd == t.snd && t2.conf == t.conf && t2.timer == t.timer
    requires a.len == OctetsAcked(m, t, s) && a.all == (Diff(m, t.snd.nxt, s.ack.value) <= 0) && a.len <= t.snd.buf.len
    requires t2.state != TimeWait && !t.timer.Close?
    ensures TimerTaken(m, t, cx, s, UpdateRemote(m, t2, cx, s, a))
  {
    RepeatIs(m, t, s);
    var snd := UpdateSend(m, t.snd, s, a.len);
    TimerDecided(t.timer, StartsFastRetransmit(m, t.snd, s), a, cx.now, t.conf.keepAlive, t2.rtte.Timeout(), snd.winLen,
                 snd.buf.len);
  }

  lemma TimerDecided(timer: Timer, third: bool, a: AckInfo, now: int, keepAlive: Option<nat>, rto: nat, winLen: nat,
                     left: nat)
    requires !timer.Close?
    ensures var quiet := Idle(if keepAlive.Some? then Some(now + keepAlive.value) else None);
            TimerIs(timer, third, a.len > 0, a.all, now, quiet, rto, winLen, left,
                    UpdateTimer(timer, third, a, now, keepAlive, rto, winLen, left == 0))
  {
  }

  // ----- the octets

  lemma TrackerTakes(u: seq<A.Contig>, slots: nat, lo: nat, size: nat)
    requires A.Canonical(u) && |u| <= slots && slots > 0
    ensures A.AddThenRemoveFront(u, slots, lo, size).Some? <==>
            lo == 0 || |A.RunStarts(A.Denote(u) + A.Interval(lo, size))| <= slots
    ensures A.AddThenRemoveFront(u, slots, lo, size).Some? ==>
              var (v, n) := A.AddThenRemoveFront(u, slots, lo, size).value; A.IsUnionStripped(u, lo, size, v, n)
  {
    A.AddThenRemoveFrontMeaning(u, slots, lo, size);
  }

  lemma ReceivedMeans(m: Arith, t: Tcb, rcv: RecvHalf, s: Segment, payload: seq<byte>, lo: nat)
    requires RecvOk(m, t.rcv, t.conf.slots) && SegmentOk(m, s) && CheckWindow(m, t.rcv, s) == Inside(payload, lo)
    requires rcv == t.rcv.(start := rcv.start, fin := rcv.fin) && payload != []
    ensures Receive(rcv, t.conf.slots, payload, lo).Some? <==> Keeps(m, t, s)
    ensures Keeps(m, t, s) ==>
              var r := Receive(rcv, t.conf.slots, payload, lo).value;
              OctetsKept(m, t, s, r.buf, r.asm) && r == rcv.(buf := r.buf, asm := r.asm)
  {
    CutIs(m, t, s, payload, lo);
    KeepsExactly(m, t, s, payload, lo);
    var r := A.AddThenRemoveFront(t.rcv.asm, t.conf.slots, lo, |payload|);
    if r.Some? {
      ContigFits(m, t.rcv, t.conf.slots, |payload|, lo);
      StoredOctets(m, t, rcv, s, payload, lo, r.value.0, r.value.1);
    }
  }

  lemma KeepsExactly(m: Arith, t: Tcb, s: Segment, payload: seq<byte>, lo: nat)
    requires A.Canonical(t.rcv.asm) && |t.rcv.asm| <= t.conf.slots && t.conf.slots > 0
    requires Cut(m, t, s, payload, lo) && payload != []
    ensures A.AddThenRemoveFront(t.rcv.asm, t.conf.slots, lo, |payload|).Some? <==> Keeps(m, t, s)
    ensures Keeps(m, t, s) ==>
              var (v, n) := A.AddThenRemoveFront(t.rcv.asm, t.conf.slots, lo, |payload|).value;
              A.IsUnionStripped(t.rcv.asm, lo, |payload|, v, n)
  {
    TrackerTakes(t.rcv.asm, t.conf.slots, lo, |payload|);
  }

  lemma StoredOctets(m: Arith, t: Tcb, rcv: RecvHalf, s: Segment, payload: seq<byte>, lo: nat, v: seq<A.Contig>, n: nat)
    requires t.rcv.buf.Valid() && rcv == t.rcv.(start := rcv.start, fin := rcv.fin) && payload != []
    requires Cut(m, t, s, payload, lo) && n <= t.rcv.buf.Window()
    requires A.AddThenRemoveFront(rcv.asm, t.conf.slots, lo, |payload|) == Some((v, n))
    requires A.IsUnionStripped(t.rcv.asm, lo, |payload|, v, n)
    ensures Receive(rcv, t.conf.slots, payload, lo).Some?
    ensures var r := Receive(rcv, t.conf.slots, payload, lo).value;
            OctetsKept(m, t, s, r.buf, r.asm) && r == rcv.(buf := r.buf, asm := r.asm)
  {
    WriteFacts(rcv.buf, lo, payload);
    StoreFacts(rcv.buf, lo, payload, n);
    PlacedOctets(m, t, s, Receive(rcv, t.conf.slots, payload, lo).value, payload, lo, n);
  }

  lemma PlacedOctets(m: Arith, t: Tcb, s: Segment, rcv: RecvHalf, payload: seq<byte>, lo: nat, n: nat)
    requires t.rcv.buf.Valid() && Cut(m, t, s, payload, lo)
    requires rcv.buf.cells == t.rcv.buf.WriteUnallocated(lo, payload).cells && rcv.buf.len == t.rcv.buf.len + n
    requires rcv.buf.readAt == t.rcv.buf.readAt
    requires A.IsUnionStripped(t.rcv.asm, lo, |payload|, rcv.asm, n)
    ensures OctetsKept(m, t, s, rcv.buf, rcv.asm)
  {
    LaidOctets(m, t, s, payload, lo);
  }

  lemma LaidOctets(m: Arith, t: Tcb, s: Segment, payload: seq<byte>, lo: nat)
    requires t.rcv.buf.Valid() && Cut(m, t, s, payload, lo)
    ensures |payload| == Until(m, t, s) - lo
    ensures Laid(t.rcv.buf.cells, t.rcv.buf.WriteUnallocated(lo, payload).cells, t.rcv.buf.len, s.payload, lo,
                 Until(m, t, s), Ahead(m, t, s))
  {
    WriteOverwrites(t.rcv.buf, lo, payload);
    InPlace(t.rcv.buf.cells, t.rcv.buf.len, s.payload, lo, Until(m, t, s), Ahead(m, t, s));
  }

  lemma WriteOverwrites(r: Ring, offset: nat, data: seq<byte>)
    requires r.Valid() && offset + |data| <= r.Window()
    ensures r.WriteUnallocated(offset, data).cells == Overwrite(r.cells, r.len + offset, data)
  {
    assert data[..|data|] == data;
  }

  lemma InPlace(cells: seq<byte>, len: nat, octets: seq<byte>, lo: int, hi: int, d: int)
    requires 0 <= lo <= hi && len + hi <= |cells| && 0 <= lo - d <= hi - d <= |octets|
    ensures Laid(cells, Overwrite(cells, len + lo, octets[lo - d..hi - d]), len, octets, lo, hi, d)
  {
  }

  lemma StoredMeans(m: Arith, t: Tcb, t1: Tcb, cx: Context, s: Segment, payload: seq<byte>, offset: nat)
    requires Inv(m, t) && SegmentOk(m, s) && CheckWindow(m, t.rcv, s) == Inside(payload, offset)
    requires Proceeds(m, t, cx, s, t1) && Counts(m, t, s, t1.rcv)
    ensures var (t', reply) := if payload == [] then (t1, None) else StorePayload(m, t1, cx, s, payload, offset);
            TakenMeans(m, t, cx, s, t', reply)
  {
    CutIs(m, t, s, payload, offset);
    if payload == [] {
      NothingKept(m, t, t1, cx, s);
    } else {
      ReceivedMeans(m, t, t1.rcv, s, payload, offset);
      if Keeps(m, t, s) {
        KeptMeans(m, t, t1, cx, s, payload, offset);
      } else {
        NothingKept(m, t, t1, cx, s);
      }
    }
  }

  lemma NothingKept(m: Arith, t: Tcb, t1: Tcb, cx: Context, s: Segment)
    requires Counts(m, t, s, t1.rcv) && !Keeps(m, t, s)
    ensures ReceiveTaken(m, t, cx, s, t1, None)
  {
  }

  /** The receiving half does not matter for the rest. */
  lemma ProceedsFrame(m: Arith, t: Tcb, cx: Context, s: Segment, t1: Tcb, t2: Tcb)
    requires Proceeds(m, t, cx, s, t1) && t2 == t1.(rcv := t2.rcv)
    ensures Proceeds(m, t, cx, s, t2)
  {
  }

  lemma KeptMeans(m: Arith, t: Tcb, t1: Tcb, cx: Context, s: Segment, payload: seq<byte>, offset: nat)
    requires Proceeds(m, t, cx, s, t1) && Counts(m, t, s, t1.rcv) && Keeps(m, t, s)
    requires Receive(t1.rcv, t.conf.slots, payload, offset).Some?
    requires var r := Receive(t1.rcv, t.conf.slots, payload, offset).value;
             OctetsKept(m, t, s, r.buf, r.asm) && r == t1.rcv.(buf := r.buf, asm := r.asm)
    ensures var (t', reply) := StorePayload(m, t1, cx, s, payload, offset); TakenMeans(m, t, cx, s, t', reply)
  {
    var r := Receive(t1.rcv, t.conf.slots, payload, offset).value;
    var delay := UpdateAckTimer(m, r, t1.snd.mss, t1.conf.ackDelay, cx.now);
    var t2 := t1.(rcv := r.(ackTimer := delay));
    assert t1.snd.mss == t.snd.mss;
    DelayMeans(m, t, cx, r);
    AckReplyMeans(m, t2, s);
    var (t', reply) := StorePayload(m, t1, cx, s, payload, offset);
    ProceedsFrame(m, t, cx, s, t1, t');
    KeptReceive(m, t, cx, s, r, t', reply);
  }

  lemma DelayMeans(m: Arith, t: Tcb, cx: Context, r: RecvHalf)
    requires r.lastAck == t.rcv.lastAck && r.ackTimer == t.rcv.ackTimer
    ensures DelayTaken(m, t, cx, Awaited(m, r), UpdateAckTimer(m, r, t.snd.mss, t.conf.ackDelay, cx.now))
  {
  }

  lemma KeptReceive(m: Arith, t: Tcb, cx: Context, s: Segment, r: RecvHalf, t': Tcb, reply: Reply)
    requires Keeps(m, t, s) && OctetsKept(m, t, s, r.buf, r.asm)
    requires Counts(m, t, s, r.(buf := t.rcv.buf, asm := t.rcv.asm))
    requires t'.rcv == r.(ackTimer := t'.rcv.ackTimer, lastAck := t'.rcv.lastAck, lastWin := t'.rcv.lastWin)
    requires DelayTaken(m, t, cx, Awaited(m, r), t'.rcv.ackTimer)
    requires reply.Some? <==> r.asm != [] || t.rcv.asm != []
    requires reply.Some? ==> Acknowledges(m, t', s, reply.value)
    requires reply.None? ==> t'.rcv.lastAck == r.lastAck && t'.rcv.lastWin == r.lastWin
    ensures ReceiveTaken(m, t, cx, s, t', reply)
  {
  }

  // ----- every arrival

  /** Whatever segment arrives, in whatever state: what `process` does is what its kind says. */
  lemma ArrivalMeaning(m: Arith, t: Tcb, cx: Context, s: Segment)
    requires Inv(m, t) && SegmentOk(m, s) && Accepts(t, s)
    ensures ArrivalMeans(m, t, cx, s, Process(m, t, cx, s).0, Process(m, t, cx, s).1)
  {
    if t.state == Listen {
      ListenMeans(m, t, cx, s);
    } else if t.state == SynSent {
      SynSentMeans(m, t, cx, s);
    } else {
      LaterMeans(m, t, cx, s);
    }
  }
}
