/**
  The wrapped 32-bit tests of the socket agree with unbounded arithmetic. `Encode` is the sequence number
  that the program stores for an unbounded one.
 */
module TcpWrap {
  import opened Options
  import opened Octets
  import opened SeqNumber
  import opened RingSpec
  import opened TcpModel
  import opened TcpInvariant

  function Encode(x: int): int {
    (x + HALF) % MODULUS - HALF
  }

  function EncodeOption(o: Option<int>): Option<int> {
    if o.Some? then Some(Encode(o.value)) else None
  }

  lemma EncodeRange(x: int)
    ensures InRange(Wrapped, Encode(x))
  {
  }

  /** Nearby numbers keep their difference. */
  lemma EncodeDiff(a: int, b: int)
    requires -HALF <= a - b < HALF
    ensures Diff(Wrapped, Encode(a), Encode(b)) == a - b
  {
    var p, q := (a + HALF) / MODULUS, (b + HALF) / MODULUS;
    assert Encode(a) == a - p * MODULUS && Encode(b) == b - q * MODULUS;
  }

  lemma EncodeAdd(a: int, n: nat)
    requires n < HALF
    ensures Add(Wrapped, Encode(a), n) == Encode(a + n)
  {
    var p, q := (a + HALF) / MODULUS, (a + n + HALF) / MODULUS;
    assert Encode(a) == a - p * MODULUS && Encode(a + n) == a + n - q * MODULUS;
  }

  lemma EncodePrev(a: int)
    ensures Prev(Wrapped, Encode(a)) == Encode(a - 1)
  {
    var p, q := (a + HALF) / MODULUS, (a - 1 + HALF) / MODULUS;
    assert Encode(a) == a - p * MODULUS && Encode(a - 1) == a - 1 - q * MODULUS;
  }

  lemma EncodeEqual(a: int, b: int)
    requires -MODULUS < a - b < MODULUS
    ensures Encode(a) == Encode(b) <==> a == b
  {
    var p, q := (a + HALF) / MODULUS, (b + HALF) / MODULUS;
    assert Encode(a) == a - p * MODULUS && Encode(b) == b - q * MODULUS;
  }

  function EncodeSend(snd: SendHalf): SendHalf {
    snd.(una := Encode(snd.una), nxt := Encode(snd.nxt), lastRxAck := EncodeOption(snd.lastRxAck))
  }

  function EncodeRecv(rcv: RecvHalf): RecvHalf {
    rcv.(start := Encode(rcv.start), lastAck := EncodeOption(rcv.lastAck))
  }

  function EncodeSegment(s: Segment): Segment {
    s.(seqNo := Encode(s.seqNo), ack := EncodeOption(s.ack))
  }

  /** The distance of `a` past `b` modulo 2^32. */
  function Modular(a: int, b: int): nat {
    (a - b) % MODULUS
  }

  lemma DiffIsModular(a: int, b: int)
    requires InRange(Wrapped, a) && InRange(Wrapped, b)
    ensures Diff(Wrapped, a, b) == if Modular(a, b) < HALF then Modular(a, b) else Modular(a, b) - MODULUS
  {
  }

  /** An acknowledgement is accepted exactly when its distance modulo 2^32 from `una` is within what was sent. */
  lemma AckTestIsModular(st: State, snd: SendHalf, s: Segment)
    requires SendOk(Wrapped, snd) && SegmentOk(Wrapped, s) && s.ack.Some? && s.control != Rst
    requires st != Closed && st != Listen && !SentSyn(st)
    ensures CheckAck(Wrapped, st, snd, s) == AckAccept <==>
            Modular(s.ack.value, snd.una) <= snd.buf.len + ControlLen(st)
  {
    DiffIsModular(s.ack.value, snd.una);
    DiffIsModular(Add(Wrapped, snd.una, snd.buf.len + ControlLen(st)), s.ack.value);
  }

  /** A non-empty segment is accepted exactly when, modulo 2^32, its first or its last octet is in the window. */
  lemma WindowTestIsModular(rcv: RecvHalf, slots: nat, s: Segment)
    requires RecvOk(Wrapped, rcv, slots) && SegmentOk(Wrapped, s) && s.payload != []
    ensures var w, n := rcv.buf.Window(), |s.payload|;
            var left := rcv.Next(Wrapped);
            CheckWindow(Wrapped, rcv, s).Inside? <==>
            Modular(s.seqNo, left) < w || Modular(s.seqNo + n - 1, left) < w
  {
    WindowEdge(Wrapped, rcv, slots);
    var left := rcv.Next(Wrapped);
    WindowTest(Wrapped, left, rcv.buf.Window(), s.seqNo, |s.payload|);
    DiffIsModular(s.seqNo, left);
    LastOctet(s.seqNo, left, |s.payload|);
  }

  lemma LastOctet(from: int, left: int, n: nat)
    requires InRange(Wrapped, from) && InRange(Wrapped, left) && 0 < n < RX_LIMIT
    ensures var d := Diff(Wrapped, from, left);
            Modular(from + n - 1, left) == if d + n - 1 < 0 then d + n - 1 + MODULUS else d + n - 1
  {
  }

  /** The acknowledgement test on encoded numbers is the test on unbounded ones. */
  lemma CheckAckAgrees(st: State, snd: SendHalf, s: Segment)
    requires SendOk(Ideal, snd) && (s.ack.Some? ==> -HALF < s.ack.value - snd.una < HALF)
    ensures CheckAck(Wrapped, st, EncodeSend(snd), EncodeSegment(s)) == CheckAck(Ideal, st, snd, s)
  {
    if s.ack.Some? {
      EncodeAdd(snd.una, 1);
      EncodeEqual(s.ack.value, snd.una + 1);
      AckRangeAgrees(snd.una, s.ack.value, snd.buf.len + ControlLen(st));
    }
  }

  lemma AckRangeAgrees(una: int, ack: int, sent: nat)
    requires -HALF < ack - una < HALF && sent < HALF
    ensures Lt(Wrapped, Encode(ack), Encode(una)) <==> ack < una
    ensures ack >= una ==> (Lt(Wrapped, Add(Wrapped, Encode(una), sent), Encode(ack)) <==> una + sent < ack)
  {
    EncodeAdd(una, sent);
    EncodeDiff(ack, una);
    if ack >= una {
      EncodeDiff(una + sent, ack);
    }
  }

  /** The window test on encoded numbers, and what it keeps, is that on unbounded ones. */
  lemma CheckWindowAgrees(rcv: RecvHalf, slots: nat, s: Segment)
    requires RecvOk(Ideal, rcv, slots) && SegmentOk(Ideal, s)
    requires -HALF <= s.seqNo - rcv.Next(Ideal) < HALF
    ensures CheckWindow(Wrapped, EncodeRecv(rcv), EncodeSegment(s)) == CheckWindow(Ideal, rcv, s)
  {
    EncodedEdges(rcv, slots);
    WindowEdge(Ideal, rcv, slots);
    VerdictIs(Ideal, rcv, s);
    VerdictIs(Wrapped, EncodeRecv(rcv), EncodeSegment(s));
    VerdictAgrees(rcv.Next(Ideal), rcv.buf.Window(), s.seqNo, s.payload);
  }

  /** The acceptance test and the kept slice, between two edges. */
  function Verdict(m: Arith, left: int, right: int, from: int, payload: seq<byte>): WindowVerdict {
    var to := Add(m, from, |payload|);
    if InWindow(m, left, right, from, to) then
      var (lo, hi, at) := Cuts(m, left, right, from, to);
      Inside(Slice(payload, lo, hi), at)
    else Outside
  }

  lemma VerdictIs(m: Arith, rcv: RecvHalf, s: Segment)
    ensures CheckWindow(m, rcv, s) == Verdict(m, rcv.Next(m), Add(m, rcv.start, rcv.buf.Capacity()), s.seqNo, s.payload)
  {
  }

  lemma VerdictAgrees(left: int, w: nat, from: int, payload: seq<byte>)
    requires -HALF <= from - left < HALF && w <= RX_LIMIT && |payload| < RX_LIMIT
    ensures Verdict(Wrapped, Encode(left), Add(Wrapped, Encode(left), w), Encode(from), payload) ==
            Verdict(Ideal, left, left + w, from, payload)
  {
    WindowAgrees(left, w, from, |payload|);
    if InWindow(Ideal, left, left + w, from, from + |payload|) {
      OverlapAgrees(left, w, from, |payload|);
    }
  }

  lemma WindowAgrees(left: int, w: nat, from: int, n: nat)
    requires -HALF <= from - left < HALF && w <= RX_LIMIT && n < RX_LIMIT
    ensures InWindow(Wrapped, Encode(left), Add(Wrapped, Encode(left), w), Encode(from),
                     Add(Wrapped, Encode(from), n)) <==>
            InWindow(Ideal, left, left + w, from, from + n)
  {
    EncodeRange(left);
    EncodeRange(from);
    EncodeDiff(from, left);
    WindowTest(Wrapped, Encode(left), w, Encode(from), n);
    WindowTest(Ideal, left, w, from, n);
  }

  /** The three lengths that cut the payload. */
  function Cuts(m: Arith, left: int, right: int, from: int, to: int): (nat, nat, nat) {
    var start, end := SeqMax(m, left, from), SeqMin(m, right, to);
    (Dist(m, start, from), Dist(m, end, from), Dist(m, start, left))
  }

  lemma OverlapAgrees(left: int, w: nat, from: int, n: nat)
    requires -HALF <= from - left < HALF && w <= RX_LIMIT && n < RX_LIMIT
    requires InWindow(Ideal, left, left + w, from, from + n)
    ensures Cuts(Wrapped, Encode(left), Add(Wrapped, Encode(left), w), Encode(from), Add(Wrapped, Encode(from), n)) ==
            Cuts(Ideal, left, left + w, from, from + n)
  {
    EncodeRange(left);
    EncodeRange(from);
    EncodeDiff(from, left);
    WindowAgrees(left, w, from, n);
    OverlapIsIntersection(Wrapped, Encode(left), w, Encode(from), n);
    OverlapIsIntersection(Ideal, left, w, from, n);
  }

  lemma EncodedEdges(rcv: RecvHalf, slots: nat)
    requires RecvOk(Ideal, rcv, slots)
    ensures EncodeRecv(rcv).Next(Wrapped) == Encode(rcv.Next(Ideal))
    ensures Add(Wrapped, Encode(rcv.start), rcv.buf.Capacity()) ==
            Add(Wrapped, Encode(rcv.Next(Ideal)), rcv.buf.Window())
  {
    EncodeAdd(rcv.start, rcv.buf.len);
    EncodeAdd(rcv.start, rcv.buf.Capacity());
    EncodeAdd(rcv.Next(Ideal), rcv.buf.Window());
  }
}
