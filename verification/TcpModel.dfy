/**
  The TCP socket as a value, and its operations as functions: `Process` (segment in), `Dispatch`
  (segment out), `PollAt`, and the calls of the application. The class in TcpSocket.dfy updates the same
  fields in place and is proved to compute these functions.

  Subtractions and buffer operations on which the program would panic are total here; that they are never
  reached outside their domain is what the invariant of TcpInvariant.dfy is for.
 */
module TcpModel {
  import opened Options
  import opened Octets
  import opened Shifts
  import opened Polling
  import opened SeqNumber
  import opened Timers
  import opened RingSpec
  import AssemblerSpec

  const DEFAULT_MSS: nat := 536
  const TCP_HEADER_LEN: nat := 20
  const IPV4_HEADER_LEN: nat := 20
  const IPV6_HEADER_LEN: nat := 40
  const U16_MAX: nat := 65535
  const CHALLENGE_ACK_INTERVAL: nat := 1_000_000

  datatype State = Closed | Listen | SynSent | SynReceived | Established | FinWait1 | FinWait2
                 | CloseWait | Closing | LastAck | TimeWait

  datatype Control = NoFlag | Psh | Syn | Fin | Rst

  datatype IpAddress = Ipv4(octets: nat) | Ipv6(octets: nat)

  datatype Endpoint = Endpoint(addr: IpAddress, port: nat)

  datatype ListenEndpoint = ListenEndpoint(addr: Option<IpAddress>, port: nat)

  datatype Tuple = Tuple(local: Endpoint, remote: Endpoint)

  /** A segment together with the addresses of its packet. */
  datatype Segment = Segment(src: Endpoint, dst: Endpoint, control: Control, seqNo: int, ack: Option<int>,
                             win: nat, scale: Option<nat>, mss: Option<nat>, payload: seq<byte>) {
    /** The length in sequence space. */
    function Len(): nat {
      |payload| + (if control.Syn? || control.Fin? then 1 else 0)
    }

    predicate IsEmpty() {
      payload == [] && (control.NoFlag? || control.Psh?)
    }
  }

  datatype Context = Context(now: int, ipMtu: nat, isn: int)

  /** Everything about the direction from us to the peer. `una` is `local_seq_no`, `nxt` is `remote_last_seq`. */
  datatype SendHalf = SendHalf(buf: Ring, una: int, nxt: int, winLen: nat, winScale: Option<nat>, mss: nat,
                               lastRxAck: Option<int>, dupAcks: nat)

  /** Everything about the direction from the peer to us. `start` is `remote_seq_no`. */
  datatype RecvHalf = RecvHalf(buf: Ring, asm: seq<AssemblerSpec.Contig>, start: int, fin: bool,
                               lastAck: Option<int>, lastWin: nat, shift: nat, ackTimer: AckDelayTimer) {
    /** The next sequence number expected; also the left edge of the receive window. */
    function Next(m: Arith): int {
      Add(m, start, buf.len)
    }

    function ScaledWindow(): nat {
      Min(Shr(buf.Window(), shift), U16_MAX)
    }
  }

  datatype Config = Config(slots: nat, timeout: Option<nat>, keepAlive: Option<nat>, ackDelay: Option<nat>, nagle: bool)

  /** A socket. */
  datatype Tcb = Tcb(state: State, tuple: Option<Tuple>, listen: ListenEndpoint, timer: Timer, rtte: Rtte,
                     lastTs: Option<int>, challengeAt: int, snd: SendHalf, rcv: RecvHalf, conf: Config)

  type Reply = Option<Segment>

  // ----- the calls of the application

  /** The window shift a receive buffer calls for: its bit length beyond 16 bits. */
  function BitLength(n: nat): nat {
    if n == 0 then 0 else 1 + BitLength(n / 2)
  }

  function DefaultShift(capacity: nat): nat {
    if BitLength(capacity) <= 16 then 0 else BitLength(capacity) - 16
  }

  function NewSocket(rx: Ring, tx: Ring, slots: nat): Tcb {
    Tcb(Closed, None, ListenEndpoint(None, 0), Idle(None), RTTE_DEFAULT, None, 0,
        SendHalf(tx, 0, 0, 0, None, DEFAULT_MSS, None, 0),
        RecvHalf(rx, [], 0, false, None, 0, DefaultShift(rx.Capacity()), AckIdle),
        Config(slots, None, None, Some(ACK_DELAY_DEFAULT), true))
  }

  function Reset(t: Tcb): Tcb {
    Tcb(Closed, None, ListenEndpoint(None, 0), Idle(None), RTTE_DEFAULT, None, 0,
        SendHalf(t.snd.buf.Clear(), 0, 0, 0, None, DEFAULT_MSS, t.snd.lastRxAck, t.snd.dupAcks),
        RecvHalf(t.rcv.buf.Clear(), [], 0, false, None, 0, DefaultShift(t.rcv.buf.Capacity()), AckIdle),
        t.conf)
  }

  predicate IsOpen(s: State) {
    s != Closed && s != TimeWait
  }

  predicate MaySend(s: State) {
    s == Established || s == CloseWait
  }

  predicate MayRecv(t: Tcb) {
    t.state == Established || t.state == FinWait1 || t.state == FinWait2 || t.rcv.buf.len > 0
  }

  /** `listen`; false stands for either error. */
  function DoListen(t: Tcb, local: ListenEndpoint): (Tcb, bool) {
    if local.port == 0 then (t, false)
    else if IsOpen(t.state) then (t, t.state == Listen && t.listen == local)
    else (Reset(t).(listen := local, state := Listen), true)
  }

  /** `connect` to `tuple.remote` from `tuple.local`, with the initial sequence number `isn`. */
  function DoConnect(t: Tcb, tuple: Tuple, isn: int): (Tcb, bool) {
    if IsOpen(t.state) then (t, false)
    else if tuple.remote.port == 0 || tuple.remote.addr.octets == 0 then (t, false)
    else if tuple.local.port == 0 || tuple.local.addr.octets == 0 then (t, false)
    else if tuple.local.addr.Ipv4? != tuple.remote.addr.Ipv4? then (t, false)
    else
      var r := Reset(t);
      (r.(tuple := Some(tuple), state := SynSent, snd := r.snd.(una := isn, nxt := isn)), true)
  }

  function DoClose(t: Tcb): Tcb {
    match t.state
    case Listen => t.(state := Closed)
    case SynSent => t.(state := Closed)
    case SynReceived => t.(state := FinWait1)
    case Established => t.(state := FinWait1)
    case CloseWait => t.(state := LastAck)
    case _ => t
  }

  function DoAbort(t: Tcb): Tcb {
    t.(state := Closed)
  }

  /** `send_slice`: the new socket and the number of octets taken, or an error. */
  function DoSend(t: Tcb, data: seq<byte>): (Tcb, Option<nat>) {
    if !MaySend(t.state) then (t, None)
    else
      var n := Min(|data|, t.snd.buf.Window());
      if n == 0 then (t.(snd := t.snd.(buf := t.snd.buf.Enqueue(data))), Some(0))
      else
        (t.(snd := t.snd.(buf := t.snd.buf.Enqueue(data)),
            lastTs := if t.snd.buf.len == 0 then None else t.lastTs,
            timer := if t.snd.winLen == 0 && t.timer.Idle? then ZeroWindowProbe(t.rtte.Timeout(), t.rtte.Timeout())
                     else t.timer), Some(n))
  }

  /** `recv_slice` of at most `want` octets. */
  function DoRecv(m: Arith, t: Tcb, want: nat): (Tcb, Option<seq<byte>>) {
    if !MayRecv(t) then (t, None)
    else
      var n := Min(want, t.rcv.buf.len);
      (t.(rcv := t.rcv.(buf := t.rcv.buf.DequeueAllocated(n), start := Add(m, t.rcv.start, n))),
       Some(t.rcv.buf.Contents()[..if n <= |t.rcv.buf.Contents()| then n else 0]))
  }

  function SetKeepAlive(t: Tcb, interval: Option<nat>): Tcb {
    t.(conf := t.conf.(keepAlive := interval),
       timer := if interval.Some? then t.timer.SetKeepAlive() else t.timer)
  }

  function Reconfigure(t: Tcb, timeout: Option<nat>, ackDelay: Option<nat>, nagle: bool): Tcb {
    t.(conf := t.conf.(timeout := timeout, ackDelay := ackDelay, nagle := nagle))
  }

  // ----- replies

  function BareReply(s: Segment): Segment {
    Segment(s.dst, s.src, NoFlag, 0, None, 0, None, None, [])
  }

  function RstReply(m: Arith, s: Segment): Segment {
    BareReply(s).(control := Rst,
                  seqNo := if s.ack.Some? then s.ack.value else 0,
                  ack := if s.control == Syn && s.ack.None? then Some(Add(m, s.seqNo, s.Len())) else None)
  }

  function AckReply(m: Arith, t: Tcb, s: Segment): (Tcb, Reply) {
    var r := BareReply(s).(seqNo := t.snd.nxt, ack := Some(t.rcv.Next(m)), win := t.rcv.ScaledWindow());
    (t.(rcv := t.rcv.(lastAck := r.ack, lastWin := r.win)), Some(r))
  }

  function ChallengeAck(m: Arith, t: Tcb, cx: Context, s: Segment): (Tcb, Reply) {
    if cx.now < t.challengeAt then (t, None)
    else AckReply(m, t.(challengeAt := cx.now + CHALLENGE_ACK_INTERVAL), s)
  }

  // ----- process

  predicate Accepts(t: Tcb, s: Segment) {
    if t.state == Closed then false
    else if t.state == Listen && (s.ack.Some? || s.control == Rst) then false
    else match t.tuple
    case Some(tuple) => s.dst == tuple.local && s.src == tuple.remote
    case None =>
      && (t.listen.addr.Some? ==> s.dst.addr == t.listen.addr.value)
      && s.dst.port != 0 && s.dst.port == t.listen.port
  }

  predicate SentSyn(s: State) {
    s == SynSent || s == SynReceived
  }

  predicate SentFin(s: State) {
    s == FinWait1 || s == LastAck || s == Closing
  }

  function ControlLen(s: State): nat {
    if SentSyn(s) || SentFin(s) then 1 else 0
  }

  datatype AckVerdict = AckAccept | AckIgnore | AckReset | AckChallenge

  function CheckAck(m: Arith, st: State, snd: SendHalf, s: Segment): AckVerdict {
    match (st, s.control, s.ack)
    case (SynSent, Rst, None) => AckIgnore
    case (SynSent, Rst, Some(a)) => if a != Add(m, snd.una, 1) then AckIgnore else AckAccept
    case (_, Rst, _) => AckAccept
    case (Listen, _, _) => AckAccept
    case (SynSent, Syn, Some(a)) => if a != Add(m, snd.una, 1) then AckReset else AckAccept
    case (SynSent, Syn, None) => AckAccept
    case (SynSent, NoFlag, Some(a)) => if a == Add(m, snd.una, 1) then AckIgnore else AckReset
    case (SynSent, _, _) => AckIgnore
    case (_, _, None) => AckIgnore
    case (SynReceived, _, Some(a)) => if a != Add(m, snd.una, 1) then AckReset else AckAccept
    case (_, _, Some(a)) =>
      if Lt(m, a, snd.una) then AckIgnore
      else if Lt(m, Add(m, snd.una, snd.buf.len + ControlLen(st)), a) then AckChallenge
      else AckAccept
  }

  /** The payload that falls into the window, and where it goes relative to the left edge. */
  datatype WindowVerdict = Outside | Inside(payload: seq<byte>, offset: nat)

  predicate InWindow(m: Arith, windowStart: int, windowEnd: int, segStart: int, segEnd: int) {
    if segStart == segEnd && segEnd == Prev(m, windowStart) then false
    else if segStart == segEnd && windowStart == windowEnd then windowStart == segStart
    else if segStart == segEnd then Le(m, windowStart, segStart) && Lt(m, segStart, windowEnd)
    else if windowStart == windowEnd then false
    else
      || (Le(m, windowStart, segStart) && Lt(m, segStart, windowEnd))
      || (Lt(m, windowStart, segEnd) && Le(m, segEnd, windowEnd))
  }

  function CheckWindow(m: Arith, rcv: RecvHalf, s: Segment): WindowVerdict {
    var windowStart := rcv.Next(m);
    var windowEnd := Add(m, rcv.start, rcv.buf.Capacity());
    var segEnd := Add(m, s.seqNo, |s.payload|);
    if InWindow(m, windowStart, windowEnd, s.seqNo, segEnd) then
      var overlapStart := SeqMax(m, windowStart, s.seqNo);
      var overlapEnd := SeqMin(m, windowEnd, segEnd);
      Inside(Slice(s.payload, Dist(m, overlapStart, s.seqNo), Dist(m, overlapEnd, s.seqNo)),
             Dist(m, overlapStart, windowStart))
    else Outside
  }

  function Slice(data: seq<byte>, from: nat, to: nat): seq<byte> {
    if from <= to <= |data| then data[from..to] else []
  }

  function Process(m: Arith, t: Tcb, cx: Context, s: Segment): (Tcb, Reply) {
    match CheckAck(m, t.state, t.snd, s)
    case AckIgnore => (t, None)
    case AckReset => (t, Some(RstReply(m, s)))
    case AckChallenge => ChallengeAck(m, t, cx, s)
    case AckAccept =>
      if t.state == Listen || t.state == SynSent then ProcessAccepted(m, t, cx, s, [], 0)
      else match CheckWindow(m, t.rcv, s)
      case Outside =>
        ChallengeAck(m, if t.state == TimeWait then t.(timer := ForClose(cx.now)) else t, cx, s)
      case Inside(payload, offset) => ProcessAccepted(m, t, cx, s, payload, offset)
  }

  /** What an acceptable acknowledgement covers: octets, our FIN, everything sent. */
  datatype AckInfo = AckInfo(len: nat, ofFin: bool, all: bool)

  function AnalyseAck(m: Arith, st: State, snd: SendHalf, s: Segment): AckInfo {
    if s.control == Rst || s.ack.None? then AckInfo(0, false, false)
    else
      var first := Add(m, snd.una, if SentSyn(st) then 1 else 0);
      if Lt(m, s.ack.value, first) then AckInfo(0, false, false)
      else
        var n := Dist(m, s.ack.value, first);
        var ofFin := SentFin(st) && snd.buf.len + 1 == n;
        AckInfo(if ofFin then n - 1 else n, ofFin, Le(m, snd.nxt, s.ack.value))
  }

  /** PSH is dropped, and so is a FIN that follows a hole. */
  function EffectiveControl(m: Arith, rcv: RecvHalf, s: Segment): Control {
    if s.control == Psh then NoFlag
    else if s.control == Fin && Lt(m, rcv.Next(m), s.seqNo) then NoFlag
    else s.control
  }

  function ProcessAccepted(m: Arith, t: Tcb, cx: Context, s: Segment, payload: seq<byte>, offset: nat): (Tcb, Reply) {
    match Advance(m, t, cx, s)
    case Stop(t1) => (t1, None)
    case Go(t1) => if payload == [] then (t1, None) else StorePayload(m, t1, cx, s, payload, offset)
  }

  function SampleRtt(m: Arith, t: Tcb, cx: Context, s: Segment): Tcb {
    if s.control != Rst && s.ack.Some? then t.(rtte := t.rtte.OnAck(m, cx.now, s.ack.value)) else t
  }

  /** Everything an acceptable segment does except storing its payload. */
  function Advance(m: Arith, t: Tcb, cx: Context, s: Segment): Outcome {
    var a := AnalyseAck(m, t.state, t.snd, s);
    match Transition(m, SampleRtt(m, t, cx, s), cx, s, EffectiveControl(m, t.rcv, s), a.ofFin)
    case Stop(t1) => Stop(t1)
    case Go(t1) => Go(UpdateRemote(m, t1, cx, s, a))
  }

  datatype Outcome = Stop(t: Tcb) | Go(t: Tcb)

  function TakeFin(m: Arith, rcv: RecvHalf): RecvHalf {
    rcv.(start := Add(m, rcv.start, 1), fin := true)
  }

  function Transition(m: Arith, t: Tcb, cx: Context, s: Segment, control: Control, ofFin: bool): Outcome {
    match (t.state, control)
    case (Listen, Rst) => Stop(t)
    case (SynReceived, Rst) =>
      if t.listen.port != 0 then Stop(t.(tuple := None, state := Listen))
      else Stop(t.(state := Closed, tuple := None))
    case (_, Rst) => Stop(t.(state := Closed, tuple := None))
    case (Listen, Syn) =>
      if s.mss == Some(0) then Stop(t)
      else Go(t.(tuple := Some(Tuple(s.dst, s.src)), state := SynReceived, timer := ForIdle(cx.now, t.conf.keepAlive),
                 snd := OpenSend(t.snd, s, cx.isn, cx.isn), rcv := OpenRecv(m, t.rcv, s)))
    case (SynReceived, NoFlag) => Go(t.(state := Established))
    case (SynReceived, Fin) => Go(t.(state := CloseWait, rcv := TakeFin(m, t.rcv)))
    case (SynSent, Syn) =>
      if s.mss == Some(0) then Stop(t)
      else Go(t.(state := if s.ack.Some? then Established else SynReceived,
                 snd := OpenSend(t.snd, s, t.snd.una, Add(m, t.snd.una, 1)),
                 rcv := OpenRecv(m, t.rcv, s).(lastAck := Some(s.seqNo))))
    case (Established, NoFlag) => Go(t)
    case (Established, Fin) => Go(t.(state := CloseWait, rcv := TakeFin(m, t.rcv)))
    case (FinWait1, NoFlag) => Go(if ofFin then t.(state := FinWait2) else t)
    case (FinWait1, Fin) =>
      if ofFin then Go(t.(state := TimeWait, rcv := TakeFin(m, t.rcv), timer := ForClose(cx.now)))
      else Go(t.(state := Closing, rcv := TakeFin(m, t.rcv)))
    case (FinWait2, NoFlag) => Go(t)
    case (FinWait2, Fin) => Go(t.(state := TimeWait, rcv := TakeFin(m, t.rcv), timer := ForClose(cx.now)))
    case (Closing, NoFlag) => Go(if ofFin then t.(state := TimeWait, timer := ForClose(cx.now)) else t)
    case (CloseWait, NoFlag) => Go(t)
    case (LastAck, NoFlag) => Go(if ofFin then t.(state := Closed, tuple := None) else t)
    case _ => Stop(t)
  }

  function OpenSend(snd: SendHalf, s: Segment, una: int, nxt: int): SendHalf {
    snd.(una := una, nxt := nxt, winScale := s.scale, mss := if s.mss.Some? then s.mss.value else snd.mss)
  }

  function OpenRecv(m: Arith, rcv: RecvHalf, s: Segment): RecvHalf {
    rcv.(start := Add(m, s.seqNo, 1), shift := if s.scale.None? then 0 else rcv.shift)
  }

  /** The window of an incoming segment, in octets. */
  function WindowOf(snd: SendHalf, s: Segment): nat {
    Shl(s.win, if s.control == Syn || snd.winScale.None? then 0 else snd.winScale.value)
  }

  predicate IsDuplicateAck(m: Arith, snd: SendHalf, s: Segment) {
    && s.ack.Some? && snd.lastRxAck.Some? && s.payload == [] && snd.lastRxAck.value == s.ack.value
    && Lt(m, s.ack.value, snd.nxt) && WindowOf(snd, s) == snd.winLen
  }

  function UpdateSend(m: Arith, snd: SendHalf, s: Segment, ackLen: nat): SendHalf {
    var snd1 := snd.(winLen := WindowOf(snd, s),
                     buf := if ackLen > 0 then snd.buf.DequeueAllocated(ackLen) else snd.buf);
    if s.ack.None? then snd1
    else
      var dup := IsDuplicateAck(m, snd, s);
      snd1.(una := s.ack.value,
            nxt := if Lt(m, snd.nxt, s.ack.value) then s.ack.value else snd.nxt,
            dupAcks := if dup then Min(snd.dupAcks + 1, 255) else 0,
            lastRxAck := if dup then snd.lastRxAck else s.ack)
  }

  /** The third duplicate acknowledgement in a row starts a fast retransmission. */
  predicate StartsFastRetransmit(m: Arith, snd: SendHalf, s: Segment) {
    IsDuplicateAck(m, snd, s) && snd.dupAcks == 2
  }

  function UpdateTimer(timer: Timer, fast: bool, a: AckInfo, now: int, keepAlive: Option<nat>, rto: nat,
                       winLen: nat, txEmpty: bool): Timer {
    var t0 := if fast then FastRetransmit else timer;
    var t1 :=
      if t0.IsRetransmit() then
        if a.all then ForIdle(now, keepAlive)
        else if a.len > 0 then t0.SetForRetransmit(now, rto)
        else t0
      else if t0.Idle? then ForIdle(now, keepAlive)
      else t0;
    var t2 := if winLen == 0 && !txEmpty && (t1.Idle? || a.len > 0) then ZeroWindowProbe(now + rto, rto) else t1;
    if winLen != 0 && t2.ZeroWindowProbe? then ForIdle(now, keepAlive) else t2
  }

  function UpdateRemote(m: Arith, t: Tcb, cx: Context, s: Segment, a: AckInfo): Tcb {
    var snd := UpdateSend(m, t.snd, s, a.len);
    t.(lastTs := Some(cx.now), snd := snd,
       timer := UpdateTimer(t.timer, StartsFastRetransmit(m, t.snd, s), a, cx.now, t.conf.keepAlive,
                            t.rtte.Timeout(), snd.winLen, snd.buf.len == 0))
  }

  predicate AckToTransmit(m: Arith, rcv: RecvHalf) {
    rcv.lastAck.Some? && Lt(m, rcv.lastAck.value, rcv.Next(m))
  }

  predicate ImmediateAckToTransmit(m: Arith, rcv: RecvHalf, mss: nat) {
    rcv.lastAck.Some? && Lt(m, Add(m, rcv.lastAck.value, mss), rcv.Next(m))
  }

  function UpdateAckTimer(m: Arith, rcv: RecvHalf, mss: nat, ackDelay: Option<nat>, now: int): AckDelayTimer {
    if ackDelay.None? || !AckToTransmit(m, rcv) then rcv.ackTimer
    else match rcv.ackTimer
    case AckIdle => AckWaiting(now + ackDelay.value)
    case AckWaiting(_) => if ImmediateAckToTransmit(m, rcv, mss) then AckImmediate else rcv.ackTimer
    case AckImmediate => AckImmediate
  }

  /** Put the payload into the free part of the buffer; `None` when the tracker has no slot for it. */
  function Receive(rcv: RecvHalf, slots: nat, payload: seq<byte>, offset: nat): Option<RecvHalf> {
    match AssemblerSpec.AddThenRemoveFront(rcv.asm, slots, offset, |payload|)
    case None => None
    case Some(r) =>
      Some(rcv.(asm := r.0, buf := rcv.buf.WriteUnallocated(offset, payload).EnqueueUnallocated(r.1)))
  }

  function StorePayload(m: Arith, t: Tcb, cx: Context, s: Segment, payload: seq<byte>, offset: nat): (Tcb, Reply) {
    match Receive(t.rcv, t.conf.slots, payload, offset)
    case None => (t, None)
    case Some(rcv) =>
      var t1 := t.(rcv := rcv.(ackTimer := UpdateAckTimer(m, rcv, t.snd.mss, t.conf.ackDelay, cx.now)));
      if rcv.asm != [] || t.rcv.asm != [] then AckReply(m, t1, s) else (t1, None)
  }

  // ----- dispatch

  function LocalMss(tuple: Tuple, cx: Context): nat {
    var headers := (if tuple.local.addr.Ipv4? then IPV4_HEADER_LEN else IPV6_HEADER_LEN) + TCP_HEADER_LEN;
    if cx.ipMtu >= headers then cx.ipMtu - headers else 0
  }

  predicate TimedOut(t: Tcb, now: int) {
    t.lastTs.Some? && t.conf.timeout.Some? && now >= t.lastTs.value + t.conf.timeout.value
  }

  predicate SeqToTransmit(m: Arith, t: Tcb, cx: Context) {
    t.tuple.Some? &&
    var inFlight := t.snd.nxt != t.snd.una;
    if SentSyn(t.state) && !inFlight then true
    else
      var maxSend := Dist(m, Add(m, t.snd.una, Min(t.snd.winLen, t.snd.buf.len)), t.snd.nxt);
      var full := maxSend >= Min(LocalMss(t.tuple.value, cx), t.snd.mss);
      || (maxSend != 0 && !(t.conf.nagle && inFlight && !full && !SentFin(t.state)))
      || (SentFin(t.state) && t.snd.nxt == Add(m, t.snd.una, t.snd.buf.len))
  }

  predicate DelayedAckExpired(timer: AckDelayTimer, now: int) {
    timer.AckWaiting? ==> timer.at <= now
  }

  predicate TellsWindow(s: State) {
    s == SynSent || s == SynReceived || s == Established || s == FinWait1 || s == FinWait2
  }

  /** The right edge last advertised. */
  function LastEdge(m: Arith, rcv: RecvHalf): int {
    Add(m, if rcv.lastAck.Some? then rcv.lastAck.value else 0, Shl(rcv.lastWin, rcv.shift))
  }

  /** The subtraction in `last_scaled_window` is in its domain: not more was received than was advertised. */
  predicate EdgeHolds(m: Arith, rcv: RecvHalf) {
    rcv.lastAck.Some? ==> Diff(m, LastEdge(m, rcv), rcv.Next(m)) >= 0
  }

  predicate WindowToUpdate(m: Arith, t: Tcb) {
    && TellsWindow(t.state) && t.rcv.lastAck.Some?
    && var now := t.rcv.ScaledWindow();
       var last := Min(Shr(Dist(m, LastEdge(m, t.rcv), t.rcv.Next(m)), t.rcv.shift), U16_MAX);
       now > 0 && now / 2 >= last
  }

  /** The timestamp, the connection timeout and the retransmission timer are looked at first. */
  function BeforeDispatch(m: Arith, t: Tcb, cx: Context): Tcb {
    var t1 := t.(lastTs := if t.lastTs.None? then Some(cx.now) else t.lastTs);
    if TimedOut(t1, cx.now) then t1.(state := Closed)
    else if !SeqToTransmit(m, t1, cx) && t1.timer.ShouldRetransmit(cx.now) then
      t1.(snd := t1.snd.(nxt := t1.snd.una), timer := ForIdle(cx.now, t1.conf.keepAlive),
          rtte := t1.rtte.OnRetransmit())
    else t1
  }

  predicate WantsToSend(m: Arith, t: Tcb, cx: Context) {
    || SeqToTransmit(m, t, cx)
    || (AckToTransmit(m, t.rcv) && DelayedAckExpired(t.rcv.ackTimer, cx.now))
    || WindowToUpdate(m, t)
    || t.state == Closed
    || t.timer.ShouldKeepAlive(cx.now)
    || t.timer.ShouldZeroWindowProbe(cx.now)
  }

  predicate CarriesData(s: State) {
    s == Established || s == FinWait1 || s == Closing || s == CloseWait || s == LastAck
  }

  /** How much the peer's window lets us send from `nxt` on. */
  function WindowLimit(m: Arith, snd: SendHalf): nat {
    Dist(m, Add(m, snd.una, snd.winLen), snd.nxt)
  }

  predicate IsProbe(m: Arith, t: Tcb, now: int) {
    CarriesData(t.state) && WindowLimit(m, t.snd) == 0 && t.timer.ShouldZeroWindowProbe(now)
  }

  function DataPayload(m: Arith, t: Tcb, cx: Context): seq<byte> {
    if t.tuple.None? then []
    else
      var limit := if IsProbe(m, t, cx.now) then 1 else WindowLimit(m, t.snd);
      t.snd.buf.GetAllocated(Dist(m, t.snd.nxt, t.snd.una), Min(Min(limit, t.snd.mss), LocalMss(t.tuple.value, cx)))
  }

  function DataControl(m: Arith, t: Tcb, payload: seq<byte>): Control {
    if Dist(m, t.snd.nxt, t.snd.una) + |payload| != t.snd.buf.len then NoFlag
    else if SentFin(t.state) then Fin
    else if payload != [] then Psh
    else NoFlag
  }

  /** The segment before the keep-alive substitution. */
  function DraftSegment(m: Arith, t: Tcb, tuple: Tuple, cx: Context): Segment {
    var bare := Segment(tuple.local, tuple.remote, NoFlag, t.snd.nxt, Some(t.rcv.Next(m)), t.rcv.ScaledWindow(), None,
                        None, []);
    if t.state == Closed then bare.(control := Rst)
    else if SentSyn(t.state) then
      bare.(control := Syn, seqNo := t.snd.una, win := Min(t.rcv.buf.Window(), U16_MAX),
            ack := if t.state == SynSent then None else bare.ack,
            scale := if t.state == SynSent || t.snd.winScale.Some? then Some(t.rcv.shift) else None,
            mss := Some(LocalMss(tuple, cx) % 0x1_0000))
    else if CarriesData(t.state) then
      var payload := DataPayload(m, t, cx);
      bare.(payload := payload, control := DataControl(m, t, payload))
    else bare
  }

  predicate IsKeepAlive(m: Arith, t: Tcb, tuple: Tuple, cx: Context) {
    t.timer.ShouldKeepAlive(cx.now) && DraftSegment(m, t, tuple, cx).IsEmpty()
  }

  function OutgoingSegment(m: Arith, t: Tcb, tuple: Tuple, cx: Context): Segment {
    var s := DraftSegment(m, t, tuple, cx);
    if IsKeepAlive(m, t, tuple, cx) then s.(seqNo := Prev(m, s.seqNo), payload := [0]) else s
  }

  /** The socket after the segment `s` has gone out. */
  function AfterSend(m: Arith, t: Tcb, tuple: Tuple, cx: Context, s: Segment): Tcb {
    var t1 := t.(timer := t.timer.RewindKeepAlive(cx.now, t.conf.keepAlive), rcv := t.rcv.(ackTimer := AckIdle));
    if IsProbe(m, t, cx.now) then t1.(timer := t1.timer.RewindZeroWindowProbe(cx.now))
    else if IsKeepAlive(m, t, tuple, cx) then t1
    else AfterSegment(m, t1, cx, s)
  }

  function AfterSegment(m: Arith, t: Tcb, cx: Context, s: Segment): Tcb {
    t.(snd := t.snd.(nxt := Add(m, s.seqNo, s.Len())),
       rcv := t.rcv.(lastAck := s.ack, lastWin := s.win),
       rtte := if s.Len() > 0 then t.rtte.OnSend(m, cx.now, Add(m, s.seqNo, s.Len())) else t.rtte,
       timer := if s.Len() > 0 && !t.timer.IsRetransmit() then t.timer.SetForRetransmit(cx.now, t.rtte.Timeout())
       else t.timer,
       tuple := if t.state == Closed then None else t.tuple)
  }

  /** `sent` says whether the device took the segment. */
  function Dispatch(m: Arith, t: Tcb, cx: Context, sent: bool): (Tcb, Reply) {
    match t.tuple
    case None => (t, None)
    case Some(tuple) =>
      var t1 := BeforeDispatch(m, t, cx);
      if WantsToSend(m, t1, cx) then
        if t1.state == Listen || !sent then (t1, None)
        else
          var s := OutgoingSegment(m, t1, tuple, cx);
          (AfterSend(m, t1, tuple, cx, s), Some(s))
      else if t1.timer.ShouldClose(cx.now) then (Reset(t1), None)
      else (t1, None)
  }

  /** `dispatch` does not reach the window comparison with more received than advertised. */
  predicate DispatchSafe(m: Arith, t: Tcb, cx: Context) {
    t.tuple.Some? ==>
      var t1 := BeforeDispatch(m, t, cx);
      || SeqToTransmit(m, t1, cx)
      || (AckToTransmit(m, t1.rcv) && DelayedAckExpired(t1.rcv.ackTimer, cx.now))
      || (TellsWindow(t1.state) ==> EdgeHolds(m, t1.rcv))
  }

  /**
    `poll_at` does not reach the window comparison with more received than advertised. It makes that
    comparison before it looks at the acknowledgement that may be owed.
   */
  predicate PollSafe(m: Arith, t: Tcb, cx: Context) {
    t.tuple.Some? && t.lastTs.Some? && t.state != Closed && !SeqToTransmit(m, t, cx) && TellsWindow(t.state) ==>
      EdgeHolds(m, t.rcv)
  }

  function AckPollAt(m: Arith, rcv: RecvHalf): PollTime {
    if !AckToTransmit(m, rcv) then Ingress
    else match rcv.ackTimer
    case AckIdle => Now
    case AckWaiting(at) => Time(at)
    case AckImmediate => Now
  }

  function PollAt(m: Arith, t: Tcb, cx: Context): PollTime {
    if t.tuple.None? then Ingress
    else if t.lastTs.None? || t.state == Closed || SeqToTransmit(m, t, cx) || WindowToUpdate(m, t) then Now
    else
      var timeout := if t.conf.timeout.Some? then Time(t.lastTs.value + t.conf.timeout.value) else Ingress;
      Earliest(Earliest(t.timer.PollAt(), timeout), AckPollAt(m, t.rcv))
  }
}
