/** The round-trip estimator and the connection timers. */
module Timers {
  import opened Options
  import opened SeqNumber
  import opened Polling

  const RTTE_INITIAL_RTO: nat := 1000
  const RTTE_MIN_MARGIN: nat := 5
  const RTTE_K: nat := 4
  const RTTE_MIN_RTO: nat := 1000
  const RTTE_MAX_RTO: nat := 60_000
  const CLOSE_DELAY: nat := 10_000_000
  const ACK_DELAY_DEFAULT: nat := 10_000

  function Max(a: nat, b: nat): nat {
    if a < b then b else a
  }

  function Clamp(x: nat, lo: nat, hi: nat): nat {
    if x < lo then lo else if x > hi then hi else x
  }

  function DivCeil(a: nat, b: nat): nat
    requires b > 0
  {
    (a + b - 1) / b
  }

  function AbsDiff(a: int, b: int): nat {
    if a < b then b - a else a - b
  }

  /** Times are in milliseconds here; `timestamp` is the send time and end of the segment being timed. */
  datatype Rtte = Rtte(haveMeasurement: bool, srtt: nat, rttvar: nat, rto: nat,
                       timestamp: Option<(int, int)>, maxSeqSent: Option<int>, rtoCount: nat) {
    /** The retransmission timeout in microseconds. */
    function Timeout(): nat {
      1000 * rto
    }

    function Sample(newRtt: nat): Rtte {
      var s := if haveMeasurement then DivCeil(srtt * 7 + newRtt, 8) else newRtt;
      var v := if haveMeasurement then DivCeil(rttvar * 3 + AbsDiff(srtt, newRtt), 4) else newRtt / 2;
      this.(haveMeasurement := true, srtt := s, rttvar := v,
            rto := Clamp(s + Max(RTTE_MIN_MARGIN, v * RTTE_K), RTTE_MIN_RTO, RTTE_MAX_RTO), rtoCount := 0)
    }

    function OnSend(m: Arith, now: int, seqNo: int): Rtte {
      if maxSeqSent.None? || Lt(m, maxSeqSent.value, seqNo) then
        this.(maxSeqSent := Some(seqNo),
              timestamp := if timestamp.None? then Some((now, seqNo)) else timestamp)
      else this
    }

    function OnAck(m: Arith, now: int, seqNo: int): Rtte {
      if timestamp.Some? && Le(m, timestamp.value.1, seqNo) then
        Sample(Millis(now, timestamp.value.0)).(timestamp := None)
      else this
    }

    function OnRetransmit(): Rtte {
      var r := this.(timestamp := None, rto := if rto * 2 < RTTE_MAX_RTO then rto * 2 else RTTE_MAX_RTO);
      if rtoCount + 1 >= 3 then r.(rtoCount := 0, haveMeasurement := false) else r.(rtoCount := rtoCount + 1)
    }
  }

  const RTTE_DEFAULT := Rtte(false, 0, 0, RTTE_INITIAL_RTO, None, None, 0)

  /** The elapsed time in whole milliseconds, cut to 32 bits. */
  function Millis(now: int, sent: int): nat {
    (AbsDiff(now, sent) / 1000) % 0x1_0000_0000
  }

  datatype Timer =
    | Idle(keepAliveAt: Option<int>)
    | Retransmit(expiresAt: int)
    | FastRetransmit
    | ZeroWindowProbe(expiresAt: int, delay: nat)
    | Close(expiresAt: int)
  {
    predicate ShouldKeepAlive(now: int) {
      Idle? && keepAliveAt.Some? && now >= keepAliveAt.value
    }

    predicate ShouldRetransmit(now: int) {
      FastRetransmit? || (Retransmit? && now >= expiresAt)
    }

    predicate ShouldClose(now: int) {
      Close? && now >= expiresAt
    }

    predicate ShouldZeroWindowProbe(now: int) {
      ZeroWindowProbe? && now >= expiresAt
    }

    predicate IsRetransmit() {
      Retransmit? || FastRetransmit?
    }

    function PollAt(): PollTime {
      match this
      case Idle(Some(at)) => Time(at)
      case Idle(None) => Ingress
      case ZeroWindowProbe(at, _) => Time(at)
      case Retransmit(at) => Time(at)
      case FastRetransmit => Now
      case Close(at) => Time(at)
    }

    /** An idle timer without a deadline gets one in the past. */
    function SetKeepAlive(): Timer {
      if Idle? && keepAliveAt.None? then Idle(Some(0)) else this
    }

    function RewindKeepAlive(now: int, interval: Option<nat>): Timer {
      if Idle? then ForIdle(now, interval) else this
    }

    function SetForRetransmit(now: int, delay: nat): Timer {
      if Close? then this else Retransmit(now + delay)
    }

    function RewindZeroWindowProbe(now: int): Timer {
      if ZeroWindowProbe? then
        var d := if delay * 2 < 1000 * RTTE_MAX_RTO then delay * 2 else 1000 * RTTE_MAX_RTO;
        ZeroWindowProbe(now + d, d)
      else this
    }
  }

  function ForIdle(now: int, interval: Option<nat>): Timer {
    Idle(if interval.Some? then Some(now + interval.value) else None)
  }

  function ForClose(now: int): Timer {
    Close(now + CLOSE_DELAY)
  }

  datatype AckDelayTimer = AckIdle | AckWaiting(at: int) | AckImmediate
}
