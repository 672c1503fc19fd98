/**
  The retransmission-timeout estimator: what it computes (sections 2 and 5 of RFC 6298), its bounds over
  every run, and the object that updates its fields in place with 32-bit arithmetic.
 */
module RttBounds {
  import opened Options
  import opened SeqNumber
  import opened Timers

  const U32_MAX: int := 0xffff_ffff
  const I32_MAX: int := 0x7fff_ffff

  /** No sample has exceeded `bound` milliseconds. */
  ghost predicate Bounded(r: Rtte, bound: nat) {
    r.srtt <= bound && r.rttvar <= bound && RTTE_MIN_RTO <= r.rto <= RTTE_MAX_RTO && r.rtoCount < 3
  }

  /** Every intermediate result of `sample` fits its 32-bit type. */
  ghost predicate SampleFits(r: Rtte, newRtt: nat) {
    && newRtt <= I32_MAX && r.srtt <= I32_MAX
    && r.rttvar * 3 + AbsDiff(r.srtt, newRtt) + 3 <= U32_MAX
    && r.srtt * 7 + newRtt + 7 <= U32_MAX
    && r.Sample(newRtt).rttvar * RTTE_K <= U32_MAX
    && r.Sample(newRtt).srtt + Max(RTTE_MIN_MARGIN, r.Sample(newRtt).rttvar * RTTE_K) <= U32_MAX
  }

  /** With samples below 2^29 milliseconds the estimates stay below the largest sample and nothing overflows. */
  lemma SampleBounded(r: Rtte, newRtt: nat, bound: nat)
    requires Bounded(r, bound) && newRtt <= bound < 0x2000_0000
    ensures Bounded(r.Sample(newRtt), bound)
    ensures SampleFits(r, newRtt)
  {
  }

  // ----- what the estimator computes

  /** How far two numbers lie apart. */
  function Gap(a: int, b: int): nat {
    if a <= b then b - a else a - b
  }

  /** The timeout is the estimate and four times the variance, or five milliseconds if that is more, in its limits. */
  ghost predicate TimeoutMeans(q: Rtte) {
    var wanted := q.srtt + (if 4 * q.rttvar < 5 then 5 else 4 * q.rttvar);
    && 1000 <= q.rto <= 60_000
    && (wanted <= q.rto || q.rto == 60_000)
    && (wanted >= q.rto || q.rto == 1000)
  }

  /**
    A sample `x`: the first one is the estimate, with half of it as the variance. Each later one moves the
    estimate by an eighth and the variance by a quarter, rounded up to whole milliseconds.
   */
  ghost predicate SampleMeans(r: Rtte, x: nat, q: Rtte) {
    && q.haveMeasurement && q.rtoCount == 0 && q.maxSeqSent == r.maxSeqSent
    && TimeoutMeans(q)
    && if r.haveMeasurement then
         && 7 * r.srtt + x <= 8 * q.srtt <= 7 * r.srtt + x + 7
         && 3 * r.rttvar + Gap(r.srtt, x) <= 4 * q.rttvar <= 3 * r.rttvar + Gap(r.srtt, x) + 3
       else q.srtt == x && 2 * q.rttvar <= x <= 2 * q.rttvar + 1
  }

  lemma SampleMeaning(r: Rtte, x: nat)
    ensures SampleMeans(r, x, r.Sample(x)) && r.Sample(x).timestamp == r.timestamp
  {
  }

  /** A segment is being timed, and it does not end beyond the acknowledgement. */
  predicate Completes(m: Arith, r: Rtte, ack: int) {
    r.timestamp.Some? && Diff(m, r.timestamp.value.1, ack) <= 0
  }

  /**
    An acknowledgement gives a sample exactly when it covers the segment being timed: the whole milliseconds
    since that was sent. Then no segment is being timed any more.
   */
  ghost predicate AckMeans(m: Arith, r: Rtte, now: int, ack: int, q: Rtte) {
    if Completes(m, r, ack) then
      var elapsed := Gap(now, r.timestamp.value.0);
      q.timestamp.None? && (elapsed < 1000 * 0x1_0000_0000 ==> SampleMeans(r, elapsed / 1000, q))
    else q == r
  }

  lemma AckMeaning(m: Arith, r: Rtte, now: int, ack: int)
    ensures AckMeans(m, r, now, ack, r.OnAck(m, now, ack))
  {
    if r.timestamp.Some? {
      WholeMillis(now, r.timestamp.value.0);
      SampleMeaning(r, Millis(now, r.timestamp.value.0));
    }
  }

  lemma WholeMillis(now: int, sent: int)
    ensures Gap(now, sent) < 1000 * 0x1_0000_0000 ==> Millis(now, sent) == Gap(now, sent) / 1000
  {
  }

  /** Only a segment that ends beyond everything sent before is timed, and only when no other is. */
  ghost predicate SendTimes(m: Arith, r: Rtte, now: int, end: int, q: Rtte) {
    var beyond := r.maxSeqSent.Some? ==> Diff(m, r.maxSeqSent.value, end) < 0;
    && q.maxSeqSent == (if beyond then Some(end) else r.maxSeqSent)
    && q.timestamp == (if beyond && r.timestamp.None? then Some((now, end)) else r.timestamp)
    && q.srtt == r.srtt && q.rttvar == r.rttvar && q.rto == r.rto && q.haveMeasurement == r.haveMeasurement
    && q.rtoCount == r.rtoCount
  }

  lemma SendTiming(m: Arith, r: Rtte, now: int, end: int)
    ensures SendTimes(m, r, now, end, r.OnSend(m, now, end))
  {
  }

  /**
    A retransmission doubles the timeout, up to a minute, and no segment is being timed any more, because its
    acknowledgement could be that of either copy. The third in a row drops the measurement.
   */
  ghost predicate BacksOff(r: Rtte, q: Rtte) {
    && q.timestamp.None? && q.maxSeqSent == r.maxSeqSent && q.srtt == r.srtt && q.rttvar == r.rttvar
    && (if r.rto <= 30_000 then q.rto == 2 * r.rto else q.rto == 60_000)
    && (if r.rtoCount == 2 then q.rtoCount == 0 && !q.haveMeasurement
        else q.rtoCount == r.rtoCount + 1 && q.haveMeasurement == r.haveMeasurement)
  }

  lemma BackingOff(r: Rtte, bound: nat)
    requires Bounded(r, bound)
    ensures BacksOff(r, r.OnRetransmit())
  {
  }

  datatype RttEvent = Sent(now: int, seqNo: int) | Acked(now: int, seqNo: int) | Retransmitted

  function RttStep(m: Arith, r: Rtte, e: RttEvent): Rtte {
    match e
    case Sent(now, seqNo) => r.OnSend(m, now, seqNo)
    case Acked(now, seqNo) => r.OnAck(m, now, seqNo)
    case Retransmitted => r.OnRetransmit()
  }

  /** Every round trip that gets measured takes at most `bound` milliseconds. */
  ghost predicate ShortTrips(m: Arith, r: Rtte, events: seq<RttEvent>, bound: nat)
    decreases |events|
  {
    |events| > 0 ==>
      && (events[0].Acked? && r.timestamp.Some? ==> Millis(events[0].now, r.timestamp.value.0) <= bound)
      && ShortTrips(m, RttStep(m, r, events[0]), events[1..], bound)
  }

  function RttRun(m: Arith, r: Rtte, events: seq<RttEvent>): Rtte
    decreases |events|
  {
    if |events| == 0 then r else RttRun(m, RttStep(m, r, events[0]), events[1..])
  }

  /** Over every run the timeout stays between one and sixty seconds and the estimates below the largest sample. */
  lemma {:induction false} RunBounded(m: Arith, r: Rtte, events: seq<RttEvent>, bound: nat)
    requires Bounded(r, bound) && bound < 0x2000_0000 && ShortTrips(m, r, events, bound)
    ensures Bounded(RttRun(m, r, events), bound)
    decreases |events|
  {
    if |events| > 0 {
      if events[0].Acked? && r.timestamp.Some? {
        SampleBounded(r, Millis(events[0].now, r.timestamp.value.0), bound);
      }
      RunBounded(m, RttStep(m, r, events[0]), events[1..], bound);
    }
  }

  /** In particular over every run of a new estimator. */
  lemma NewEstimatorBounded(m: Arith, events: seq<RttEvent>, bound: nat)
    requires bound < 0x2000_0000 && ShortTrips(m, RTTE_DEFAULT, events, bound)
    ensures Bounded(RttRun(m, RTTE_DEFAULT, events), bound)
  {
    RunBounded(m, RTTE_DEFAULT, events, bound);
  }

  /** No acknowledgement of the run gives a sample. */
  ghost predicate NoSample(m: Arith, r: Rtte, events: seq<RttEvent>)
    decreases |events|
  {
    |events| > 0 ==>
      (events[0].Acked? ==> !Completes(m, r, events[0].seqNo)) && NoSample(m, RttStep(m, r, events[0]), events[1..])
  }

  /** How many retransmissions a run has. */
  function Retries(events: seq<RttEvent>): nat {
    if |events| == 0 then 0 else (if events[0].Retransmitted? then 1 else 0) + Retries(events[1..])
  }

  function Doubled(rto: nat, n: nat): nat
    decreases n
  {
    if n == 0 then rto else Doubled(if rto <= 30_000 then 2 * rto else 60_000, n - 1)
  }

  /**
    Until the next sample the timeout only grows: it is the one there was, doubled once for each
    retransmission, up to a minute. So no acknowledgement of data sent twice brings it down.
   */
  lemma {:induction false} BackoffStays(m: Arith, r: Rtte, events: seq<RttEvent>, bound: nat)
    requires Bounded(r, bound) && NoSample(m, r, events)
    ensures RttRun(m, r, events).rto == Doubled(r.rto, Retries(events)) >= r.rto
    decreases |events|
  {
    if |events| > 0 {
      BackoffStays(m, RttStep(m, r, events[0]), events[1..], bound);
    }
  }

  /** `n` equal samples. */
  function Repeat(r: Rtte, sample: nat, n: nat): Rtte {
    if n == 0 then r else Repeat(r, sample, n - 1).Sample(sample)
  }

  /**
    Equal samples: the estimate is that sample from the first measurement on, and the variance comes down
    by at least one per sample until it is at most 3.
   */
  lemma {:induction false} EqualSamplesConverge(r: Rtte, sample: nat, n: nat)
    requires !r.haveMeasurement && n > 0
    ensures var q := Repeat(r, sample, n);
            q.haveMeasurement && q.srtt == sample && (q.rttvar <= 3 || q.rttvar + (n - 1) <= sample / 2)
    decreases n
  {
    if n > 1 {
      EqualSamplesConverge(r, sample, n - 1);
    }
  }

  lemma EqualSamplesSettle(r: Rtte, sample: nat, n: nat)
    requires !r.haveMeasurement && n > sample / 2 + 1
    ensures Repeat(r, sample, n).srtt == sample && Repeat(r, sample, n).rttvar <= 3
  {
    EqualSamplesConverge(r, sample, n);
  }

  /** The estimator as the socket holds it. */
  class RttEstimator {
    var haveMeasurement: bool
    var srtt: nat
    var rttvar: nat
    var rto: nat
    var timestamp: Option<(int, int)>
    var maxSeqSent: Option<int>
    var rtoCount: nat

    ghost function View(): Rtte
      reads this
    {
      Rtte(haveMeasurement, srtt, rttvar, rto, timestamp, maxSeqSent, rtoCount)
    }

    constructor ()
      ensures View() == RTTE_DEFAULT
    {
      haveMeasurement, srtt, rttvar, rto := false, 0, 0, RTTE_INITIAL_RTO;
      timestamp, maxSeqSent, rtoCount := None, None, 0;
    }

    /** The retransmission timeout in microseconds. */
    function Timeout(): nat
      reads this
    {
      1000 * rto
    }

    /** Back to the default. */
    method Reset()
      modifies this
      ensures View() == RTTE_DEFAULT
    {
      haveMeasurement, srtt, rttvar, rto := false, 0, 0, RTTE_INITIAL_RTO;
      timestamp, maxSeqSent, rtoCount := None, None, 0;
    }

    method Sample(newRtt: nat, ghost bound: nat)
      requires Bounded(View(), bound) && newRtt <= bound < 0x2000_0000
      modifies this
      ensures View() == old(View()).Sample(newRtt) && Bounded(View(), bound)
      ensures SampleMeans(old(View()), newRtt, View())
    {
      SampleMeaning(View(), newRtt);
      TakeSample(newRtt, bound);
    }

    method TakeSample(newRtt: nat, ghost bound: nat)
      requires Bounded(View(), bound) && newRtt <= bound < 0x2000_0000
      modifies this
      ensures View() == old(View()).Sample(newRtt) && Bounded(View(), bound)
    {
      SampleBounded(View(), newRtt, bound);
      if haveMeasurement {
        assert -I32_MAX <= srtt - newRtt <= I32_MAX;
        var diff := if srtt < newRtt then newRtt - srtt else srtt - newRtt;
        assert rttvar * 3 + diff + 3 <= U32_MAX;
        rttvar := DivCeil(rttvar * 3 + diff, 4);
        assert srtt * 7 + newRtt + 7 <= U32_MAX;
        srtt := DivCeil(srtt * 7 + newRtt, 8);
      } else {
        haveMeasurement := true;
        srtt := newRtt;
        rttvar := newRtt / 2;
      }
      assert rttvar * RTTE_K <= U32_MAX;
      var margin := Max(RTTE_MIN_MARGIN, rttvar * RTTE_K);
      assert srtt + margin <= U32_MAX;
      rto := Clamp(srtt + margin, RTTE_MIN_RTO, RTTE_MAX_RTO);
      rtoCount := 0;
    }

    method OnSend(now: int, seqNo: int)
      modifies this
      ensures View() == old(View()).OnSend(Wrapped, now, seqNo)
      ensures SendTimes(Wrapped, old(View()), now, seqNo, View())
    {
      SendTiming(Wrapped, View(), now, seqNo);
      if maxSeqSent.None? || Lt(Wrapped, maxSeqSent.value, seqNo) {
        maxSeqSent := Some(seqNo);
        if timestamp.None? {
          timestamp := Some((now, seqNo));
        }
      }
    }

    method OnAck(now: int, seqNo: int, ghost bound: nat)
      requires Bounded(View(), bound) && bound < 0x2000_0000
      requires timestamp.Some? ==> Millis(now, timestamp.value.0) <= bound
      modifies this
      ensures View() == old(View()).OnAck(Wrapped, now, seqNo) && Bounded(View(), bound)
      ensures AckMeans(Wrapped, old(View()), now, seqNo, View())
    {
      AckMeaning(Wrapped, View(), now, seqNo);
      if timestamp.Some? {
        var (sentAt, sentSeq) := timestamp.value;
        if Le(Wrapped, sentSeq, seqNo) {
          Sample(Millis(now, sentAt), bound);
          timestamp := None;
        }
      }
    }

    method OnRetransmit(ghost bound: nat)
      requires Bounded(View(), bound)
      modifies this
      ensures View() == old(View()).OnRetransmit() && Bounded(View(), bound)
      ensures BacksOff(old(View()), View())
    {
      BackingOff(View(), bound);
      timestamp := None;
      rto := if rto * 2 < RTTE_MAX_RTO then rto * 2 else RTTE_MAX_RTO;
      rtoCount := rtoCount + 1;
      if rtoCount >= 3 {
        rtoCount := 0;
        haveMeasurement := false;
      }
    }
  }
}
