/** Loops over an arbitrary state. */
module Loops {
  ghost function Iterate<T>(f: T -> T, x: T, n: nat): T
    decreases n
  {
    if n == 0 then x else Iterate(f, f(x), n - 1)
  }

  /** A loop whose every step lowers a rank ends within that many steps. */
  lemma {:induction false} Ends<T(!new)>(f: T -> T, good: T -> bool, done: T -> bool, rank: T -> nat, x: T)
      returns (n: nat)
    requires good(x)
    requires forall y :: good(y) && !done(y) ==> good(f(y)) && rank(f(y)) < rank(y)
    ensures n <= rank(x) && done(Iterate(f, x, n))
    decreases rank(x)
  {
    if done(x) {
      n := 0;
    } else {
      var k := Ends(f, good, done, rank, f(x));
      n := k + 1;
    }
  }

  lemma {:induction false} Stays<T(!new)>(f: T -> T, keep: T -> bool, x: T, n: nat)
    requires keep(x)
    requires forall y :: keep(y) ==> keep(f(y))
    ensures keep(Iterate(f, x, n))
    decreases n
  {
    if n > 0 {
      Stays(f, keep, f(x), n - 1);
    }
  }
}

/**
  The contract between `poll_at` and `dispatch`: a socket does something at an instant exactly when it
  asked to be polled by then, and polling it again and again at one instant comes to rest.
 */
module TcpPolling {
  import opened Options
  import opened Octets
  import opened Shifts
  import opened Polling
  import opened SeqNumber
  import opened Timers
  import opened RingSpec
  import opened TcpModel
  import opened TcpInvariant
  import Loops

  // ----- quiet until the deadline, and only until then

  /** Until its deadline a socket sends nothing and changes no field. */
  lemma QuietBeforeDeadline(m: Arith, t: Tcb, cx: Context, sent: bool)
    requires LaterThan(PollAt(m, t, cx), cx.now)
    ensures Dispatch(m, t, cx, sent) == (t, None)
  {
    if t.tuple.Some? {
      assert BeforeDispatch(m, t, cx) == t;
      assert !WantsToSend(m, t, cx);
    }
  }

  lemma ExpiredChanges(m: Arith, t: Tcb, cx: Context)
    requires t.tuple.Some? && t.lastTs.None?
    ensures BeforeDispatch(m, t, cx).lastTs.Some?
  {
  }

  /** Whatever is sent or rewound, a timestamp once taken stays. */
  lemma AfterSendKeepsTimestamp(m: Arith, t: Tcb, tuple: Tuple, cx: Context, s: Segment)
    ensures AfterSend(m, t, tuple, cx, s).lastTs == t.lastTs
  {
  }

  /** From its deadline on, a socket sends something or changes. */
  lemma ActsFromDeadline(m: Arith, t: Tcb, cx: Context)
    requires Inv(m, t) && !LaterThan(PollAt(m, t, cx), cx.now)
    ensures Dispatch(m, t, cx, true) != (t, None)
  {
    var t1 := BeforeDispatch(m, t, cx);
    if t.lastTs.None? {
      ExpiredChanges(m, t, cx);
      if WantsToSend(m, t1, cx) {
      } else if t1.timer.ShouldClose(cx.now) {
        assert t1.state == TimeWait;
      }
    } else if TimedOut(t, cx.now) {
      assert t1.state == Closed;
    } else if t1 != t {
      assert t1.timer.Idle? && !t.timer.Idle?;
    } else {
      DueWithoutChange(m, t, cx);
    }
  }

  lemma DueWithoutChange(m: Arith, t: Tcb, cx: Context)
    requires Inv(m, t) && !LaterThan(PollAt(m, t, cx), cx.now)
    requires t.lastTs.Some? && !TimedOut(t, cx.now) && BeforeDispatch(m, t, cx) == t
    ensures WantsToSend(m, t, cx) || (t.timer.ShouldClose(cx.now) && t.state == TimeWait)
  {
  }

  /** Dispatching does something exactly from the deadline on. */
  lemma PollAtIsExact(m: Arith, t: Tcb, cx: Context)
    requires Inv(m, t)
    ensures Dispatch(m, t, cx, true) == (t, None) <==> LaterThan(PollAt(m, t, cx), cx.now)
  {
    if LaterThan(PollAt(m, t, cx), cx.now) {
      QuietBeforeDeadline(m, t, cx, true);
    } else {
      ActsFromDeadline(m, t, cx);
    }
  }

  /** The deadline does not depend on when it is asked for. */
  lemma PollAtLasts(m: Arith, t: Tcb, cx: Context, later: Context)
    requires later.ipMtu == cx.ipMtu
    ensures PollAt(m, t, later) == PollAt(m, t, cx)
  {
  }

  // ----- the domain of the program

  /** The advertised edge is in order as long as the socket advertises one. */
  predicate EdgeOk(m: Arith, t: Tcb) {
    TellsWindow(t.state) ==> EdgeHolds(m, t.rcv)
  }

  /** Then every poll is in the domain of the program. */
  lemma EdgeOkIsSafe(m: Arith, t: Tcb, cx: Context)
    requires EdgeOk(m, t)
    ensures DispatchSafe(m, t, cx) && PollSafe(m, t, cx)
  {
    var t1 := BeforeDispatch(m, t, cx);
    assert t1.rcv == t.rcv && (t1.state == t.state || t1.state == Closed);
  }

  // ----- polling at one instant comes to rest

  /**
    What a dispatch loop at one instant uses up, most significant first: the connection, the missing
    timestamp, a due retransmission, a due keep-alive or probe, what is unsent, an owed acknowledgement
    or window update.
   */
  function Alive(t: Tcb): nat {
    if t.tuple.Some? then 1 else 0
  }

  function Unstamped(t: Tcb): nat {
    if t.lastTs.None? then 1 else 0
  }

  function Rewinds(t: Tcb, now: int): nat {
    if t.timer.ShouldRetransmit(now) then 1 else 0
  }

  function Pokes(t: Tcb, now: int): nat {
    if t.timer.ShouldKeepAlive(now) || t.timer.ShouldZeroWindowProbe(now) then 1 else 0
  }

  function Unsent(m: Arith, st: State, snd: SendHalf): nat {
    var d := Dist(m, snd.nxt, snd.una);
    if snd.buf.len + ControlLen(st) >= d then snd.buf.len + ControlLen(st) - d else 0
  }

  function Owes(m: Arith, t: Tcb): nat {
    if AckToTransmit(m, t.rcv) || WindowToUpdate(m, t) then 1 else 0
  }

  ghost predicate Less(m: Arith, t': Tcb, t: Tcb, now: int) {
    || Alive(t') < Alive(t)
    || (Alive(t') == Alive(t) &&
        (|| Unstamped(t') < Unstamped(t)
         || (Unstamped(t') == Unstamped(t) &&
             (|| Rewinds(t', now) < Rewinds(t, now)
              || (Rewinds(t', now) == Rewinds(t, now) && LessBelow(m, t', t, now))))))
  }

  ghost predicate LessBelow(m: Arith, t': Tcb, t: Tcb, now: int) {
    || Pokes(t', now) < Pokes(t, now)
    || (Pokes(t', now) == Pokes(t, now) &&
        (|| Unsent(m, t'.state, t'.snd) < Unsent(m, t.state, t.snd)
         || (Unsent(m, t'.state, t'.snd) == Unsent(m, t.state, t.snd) && Owes(m, t') < Owes(m, t))))
  }

  /**
    What a loop at one instant needs: some room for payload, no keep-alive interval of zero, and, as long as
    the socket advertises its window, no more received than was advertised, so that the window comparison
    stays in its domain.
   */
  ghost predicate Ready(m: Arith, t: Tcb, cx: Context) {
    && Inv(m, t) && EdgeOk(m, t)
    && (t.tuple.Some? ==> LocalMss(t.tuple.value, cx) > 0)
    && (t.conf.keepAlive.Some? ==> t.conf.keepAlive.value > 0)
  }

  /**
    The one state that never comes to rest: FIN-WAIT-2 entered with the zero-window-probe timer still
    armed. No branch of `dispatch` rewinds that timer outside the states that carry data.
   */
  predicate Stuck(t: Tcb, now: int) {
    && t.state == FinWait2 && t.timer.ShouldZeroWindowProbe(now)
    && !TimedOut(t.(lastTs := if t.lastTs.None? then Some(now) else t.lastTs), now)
  }

  /** With something to transmit, the segment takes up sequence space unless it is a probe. */
  lemma TransmitsSomething(m: Arith, t: Tcb, tuple: Tuple, cx: Context)
    requires Ready(m, t, cx) && t.tuple == Some(tuple) && t.state != Closed && t.state != Listen
    requires SeqToTransmit(m, t, cx)
    ensures IsProbe(m, t, cx.now) || DraftSegment(m, t, tuple, cx).Len() > 0
  {
    if CarriesData(t.state) && !IsProbe(m, t, cx.now) {
      var size := Min(Min(WindowLimit(m, t.snd), t.snd.mss), LocalMss(tuple, cx));
      GetAllocatedFacts(t.snd.buf, Dist(m, t.snd.nxt, t.snd.una), size);
    }
  }

  /** A segment that takes up sequence space leaves less unsent; any other leaves it alone. */
  lemma SendUsesUp(m: Arith, t: Tcb, tuple: Tuple, cx: Context)
    requires Inv(m, t) && t.tuple == Some(tuple) && t.state != Closed && t.state != Listen
    ensures var s := DraftSegment(m, t, tuple, cx);
            var after := Unsent(m, t.state, t.snd.(nxt := Add(m, s.seqNo, s.Len())));
            && after <= Unsent(m, t.state, t.snd)
            && (s.Len() > 0 && !SentSyn(t.state) ==> after < Unsent(m, t.state, t.snd))
            && (SentSyn(t.state) && t.snd.nxt == t.snd.una ==> after < Unsent(m, t.state, t.snd))
  {
    SegmentSeqSpace(m, t, tuple, cx);
    if CarriesData(t.state) {
      DataPayloadFits(m, t, cx);
    }
  }

  lemma ScaledBound(win: nat, shift: nat)
    requires win <= U16_MAX && shift <= 15
    ensures Shl(win, shift) < HALF
  {
    ShlMonotone(win, U16_MAX, shift);
    ShlMonotoneShift(U16_MAX, shift, 15);
    assert Shl(U16_MAX, 15) < HALF by {
      assert Shl(U16_MAX, 5) == 2097120;
      assert Shl(U16_MAX, 10) == 67107840;
    }
  }

  /** After an ordinary segment nothing is owed. */
  lemma NothingOwed(m: Arith, t: Tcb, slots: nat)
    requires RecvOk(m, t.rcv, slots)
    requires t.rcv.lastAck.Some? ==> t.rcv.lastAck == Some(t.rcv.Next(m)) && t.rcv.ScaledWindow() <= t.rcv.lastWin
    ensures Owes(m, t) == 0
  {
    WindowEdge(m, t.rcv, slots);
    ShlShr(t.rcv.lastWin, t.rcv.shift);
    ScaledBound(t.rcv.lastWin, t.rcv.shift);
    if t.rcv.lastAck.Some? {
      assert Dist(m, LastEdge(m, t.rcv), t.rcv.Next(m)) == Shl(t.rcv.lastWin, t.rcv.shift);
    }
  }

  lemma DraftWindow(m: Arith, t: Tcb, tuple: Tuple, cx: Context)
    ensures var s := DraftSegment(m, t, tuple, cx);
            && t.rcv.ScaledWindow() <= s.win
            && (s.ack.Some? ==> s.ack == Some(t.rcv.Next(m)))
  {
    ShrShlBelow(t.rcv.buf.Window(), t.rcv.shift);
    ShlMonotone(Shr(t.rcv.buf.Window(), t.rcv.shift), Shr(t.rcv.buf.Window(), t.rcv.shift), t.rcv.shift);
  }

  /** Sending the keep-alive or the probe that was due. */
  lemma PokeDecreases(m: Arith, t: Tcb, tuple: Tuple, cx: Context, s: Segment)
    requires Ready(m, t, cx) && t.tuple == Some(tuple)
    requires IsProbe(m, t, cx.now) || IsKeepAlive(m, t, tuple, cx)
    ensures Less(m, AfterSend(m, t, tuple, cx, s), t, cx.now)
  {
  }

  /** Sending an ordinary segment. */
  lemma SendDecreases(m: Arith, t: Tcb, tuple: Tuple, cx: Context)
    requires Ready(m, t, cx) && t.tuple == Some(tuple) && t.state != Closed && t.state != Listen
    requires WantsToSend(m, t, cx) && !Stuck(t, cx.now) && !TimedOut(t, cx.now) && t.lastTs.Some?
    requires !IsProbe(m, t, cx.now) && !IsKeepAlive(m, t, tuple, cx)
    ensures Less(m, AfterSend(m, t, tuple, cx, DraftSegment(m, t, tuple, cx)), t, cx.now)
  {
    SendUsesUp(m, t, tuple, cx);
    SendPays(m, t, tuple, cx);
    if SeqToTransmit(m, t, cx) {
      TransmitsSomething(m, t, tuple, cx);
    }
    SentFields(m, t, tuple, cx);
  }

  /** What an ordinary segment does to the more significant parts of the measure. */
  lemma SentFields(m: Arith, t: Tcb, tuple: Tuple, cx: Context)
    requires Ready(m, t, cx) && t.tuple == Some(tuple) && t.state != Closed && t.lastTs.Some?
    requires !IsProbe(m, t, cx.now) && !IsKeepAlive(m, t, tuple, cx)
    ensures var s := DraftSegment(m, t, tuple, cx);
            var t' := AfterSend(m, t, tuple, cx, s);
            && Alive(t') == Alive(t) && Unstamped(t') == Unstamped(t) && Rewinds(t', cx.now) <= Rewinds(t, cx.now)
            && Pokes(t', cx.now) <= Pokes(t, cx.now) && (t.timer.ShouldKeepAlive(cx.now) ==> Pokes(t', cx.now) == 0)
            && t'.state == t.state && t'.snd == t.snd.(nxt := Add(m, s.seqNo, s.Len()))
  {
  }

  /** After an ordinary segment no acknowledgement or window update is owed. */
  lemma SendPays(m: Arith, t: Tcb, tuple: Tuple, cx: Context)
    requires Inv(m, t) && !IsProbe(m, t, cx.now) && !IsKeepAlive(m, t, tuple, cx)
    ensures Owes(m, AfterSend(m, t, tuple, cx, DraftSegment(m, t, tuple, cx))) == 0
  {
    var s := DraftSegment(m, t, tuple, cx);
    var t' := AfterSend(m, t, tuple, cx, s);
    DraftWindow(m, t, tuple, cx);
    DraftRecvFields(m, t, tuple, cx);
    assert t'.rcv.buf == t.rcv.buf && t'.rcv.shift == t.rcv.shift && t'.rcv.start == t.rcv.start;
    NothingOwed(m, t', t.conf.slots);
  }

  lemma TimedOutDecreases(m: Arith, t: Tcb, cx: Context)
    requires Ready(m, t, cx) && t.tuple.Some? && BeforeDispatch(m, t, cx).state == Closed
    ensures Less(m, Dispatch(m, t, cx, true).0, t, cx.now)
  {
    var t1 := BeforeDispatch(m, t, cx);
    assert t1.tuple == t.tuple;
    assert !DraftSegment(m, t1, t.tuple.value, cx).IsEmpty();
  }

  lemma StampDecreases(m: Arith, t: Tcb, cx: Context)
    requires Ready(m, t, cx) && t.tuple.Some? && t.lastTs.None?
    ensures Less(m, Dispatch(m, t, cx, true).0, t, cx.now)
  {
    var t1 := BeforeDispatch(m, t, cx);
    assert t1.tuple == t.tuple && t1.lastTs.Some?;
    AfterSendKeepsTimestamp(m, t1, t.tuple.value, cx, OutgoingSegment(m, t1, t.tuple.value, cx));
  }

  lemma AfterSendNotDue(m: Arith, t: Tcb, tuple: Tuple, cx: Context, s: Segment)
    requires Ready(m, t, cx) && t.timer.Idle?
    ensures !AfterSend(m, t, tuple, cx, s).timer.ShouldRetransmit(cx.now)
    ensures AfterSend(m, t, tuple, cx, s).tuple in {None, t.tuple}
  {
  }

  lemma RewindDecreases(m: Arith, t: Tcb, cx: Context)
    requires Ready(m, t, cx) && t.tuple.Some? && t.lastTs.Some? && !TimedOut(t, cx.now)
    requires !SeqToTransmit(m, t, cx) && t.timer.ShouldRetransmit(cx.now)
    ensures Less(m, Dispatch(m, t, cx, true).0, t, cx.now)
  {
    var t1 := BeforeDispatch(m, t, cx);
    BeforeDispatchInv(m, t, cx);
    assert t1.lastTs == t.lastTs && t1.timer.Idle? && t1.conf == t.conf;
    var s := OutgoingSegment(m, t1, t.tuple.value, cx);
    AfterSendNotDue(m, t1, t.tuple.value, cx, s);
    AfterSendKeepsTimestamp(m, t1, t.tuple.value, cx, s);
  }

  /** Every dispatch that was asked for uses something up, unless the socket is stuck. */
  lemma DispatchDecreases(m: Arith, t: Tcb, cx: Context)
    requires Ready(m, t, cx) && !Stuck(t, cx.now)
    requires !LaterThan(PollAt(m, t, cx), cx.now)
    ensures Less(m, Dispatch(m, t, cx, true).0, t, cx.now)
  {
    var t1 := BeforeDispatch(m, t, cx);
    var tuple := t.tuple.value;
    if t1.state == Closed {
      TimedOutDecreases(m, t, cx);
    } else if t.lastTs.None? {
      StampDecreases(m, t, cx);
    } else if !SeqToTransmit(m, t, cx) && t.timer.ShouldRetransmit(cx.now) {
      RewindDecreases(m, t, cx);
    } else {
      assert t1 == t;
      DueWithoutChange(m, t, cx);
      if WantsToSend(m, t, cx) {
        var s := OutgoingSegment(m, t, tuple, cx);
        if IsProbe(m, t, cx.now) || IsKeepAlive(m, t, tuple, cx) {
          PokeDecreases(m, t, tuple, cx, s);
        } else {
          SendDecreases(m, t, tuple, cx);
        }
      }
    }
  }

  lemma EdgeKept(m: Arith, t: Tcb, tuple: Tuple, cx: Context)
    requires Inv(m, t) && EdgeHolds(m, t.rcv)
    ensures EdgeHolds(m, AfterSend(m, t, tuple, cx, OutgoingSegment(m, t, tuple, cx)).rcv)
  {
    var s := OutgoingSegment(m, t, tuple, cx);
    if !IsProbe(m, t, cx.now) && !IsKeepAlive(m, t, tuple, cx) {
      DraftWindow(m, t, tuple, cx);
      DraftRecvFields(m, t, tuple, cx);
      ScaledBound(s.win, t.rcv.shift);
      WindowEdge(m, t.rcv, t.conf.slots);
      var rcv := AfterSend(m, t, tuple, cx, s).rcv;
      assert rcv.Next(m) == t.rcv.Next(m) && rcv.shift == t.rcv.shift && rcv.lastAck == s.ack && rcv.lastWin == s.win;
    }
  }

  lemma DispatchKeepsEdge(m: Arith, t: Tcb, cx: Context, sent: bool)
    requires Inv(m, t) && EdgeOk(m, t)
    ensures EdgeOk(m, Dispatch(m, t, cx, sent).0)
  {
    if t.tuple.Some? {
      BeforeDispatchInv(m, t, cx);
      BeforeKeepsEdge(m, t, cx);
      SendKeepsEdge(m, BeforeDispatch(m, t, cx), t.tuple.value, cx);
    }
  }

  lemma BeforeKeepsEdge(m: Arith, t: Tcb, cx: Context)
    requires EdgeOk(m, t)
    ensures EdgeOk(m, BeforeDispatch(m, t, cx))
  {
  }

  lemma SendKeepsEdge(m: Arith, t: Tcb, tuple: Tuple, cx: Context)
    requires Inv(m, t) && EdgeOk(m, t)
    ensures EdgeOk(m, AfterSend(m, t, tuple, cx, OutgoingSegment(m, t, tuple, cx)))
  {
    if TellsWindow(t.state) {
      EdgeKept(m, t, tuple, cx);
    }
    AfterSendState(m, t, tuple, cx, OutgoingSegment(m, t, tuple, cx));
  }

  lemma AfterSendState(m: Arith, t: Tcb, tuple: Tuple, cx: Context, s: Segment)
    ensures AfterSend(m, t, tuple, cx, s).state == t.state
  {
  }

  lemma DispatchKeepsSetup(m: Arith, t: Tcb, cx: Context)
    ensures var t' := Dispatch(m, t, cx, true).0; t'.conf == t.conf && t'.tuple in {None, t.tuple}
  {
  }

  /** Each dispatch of the loop is in the domain of the program, and so is the next. */
  lemma ReadyKept(m: Arith, t: Tcb, cx: Context)
    requires Ready(m, t, cx)
    ensures DispatchSafe(m, t, cx)
    ensures Ready(m, Dispatch(m, t, cx, true).0, cx)
  {
    EdgeOkIsSafe(m, t, cx);
    DispatchInv(m, t, cx, true);
    DispatchKeepsSetup(m, t, cx);
    DispatchKeepsEdge(m, t, cx, true);
  }

  /** `dispatch` leaves the state alone except for closing it, and arms no probe outside the states that carry data. */
  lemma NotStuckKept(m: Arith, t: Tcb, cx: Context)
    requires Ready(m, t, cx) && !Stuck(t, cx.now)
    ensures !Stuck(Dispatch(m, t, cx, true).0, cx.now)
  {
    var t1 := BeforeDispatch(m, t, cx);
    if t.tuple.Some? && t1.state == FinWait2 {
      assert !t1.timer.ShouldZeroWindowProbe(cx.now);
      NoProbeArmed(m, t1, t.tuple.value, cx, OutgoingSegment(m, t1, t.tuple.value, cx));
    }
    DispatchState(m, t, cx);
  }

  lemma NoProbeArmed(m: Arith, t: Tcb, tuple: Tuple, cx: Context, s: Segment)
    requires !t.timer.ShouldZeroWindowProbe(cx.now)
    ensures !AfterSend(m, t, tuple, cx, s).timer.ShouldZeroWindowProbe(cx.now)
  {
  }

  lemma DispatchState(m: Arith, t: Tcb, cx: Context)
    ensures var t' := Dispatch(m, t, cx, true).0; t'.state in {Closed, BeforeDispatch(m, t, cx).state, t.state}
  {
  }

  /** The measure as one number. */
  function Rank(m: Arith, t: Tcb, now: int): nat {
    (((Alive(t) * 2 + Unstamped(t)) * 2 + Rewinds(t, now)) * 2 + Pokes(t, now)) * 0x2_0000_0000
      + Unsent(m, t.state, t.snd) * 2 + Owes(m, t)
  }

  lemma LessRank(m: Arith, t': Tcb, t: Tcb, now: int)
    requires Less(m, t', t, now) && Inv(m, t') && Inv(m, t)
    ensures Rank(m, t', now) < Rank(m, t, now)
  {
    assert Unsent(m, t'.state, t'.snd) < 0x8000_0000;
  }

  lemma LoopStep(m: Arith, t: Tcb, t': Tcb, cx: Context)
    requires Ready(m, t, cx) && !Stuck(t, cx.now)
    requires !LaterThan(PollAt(m, t, cx), cx.now) && t' == Dispatch(m, t, cx, true).0
    ensures Ready(m, t', cx) && !Stuck(t', cx.now) && Rank(m, t', cx.now) < Rank(m, t, cx.now)
  {
    DispatchDecreases(m, t, cx);
    ReadyKept(m, t, cx);
    NotStuckKept(m, t, cx);
    LessRank(m, t', t, cx.now);
  }

  /** One dispatch, as a function of the socket alone. */
  ghost function Poll(m: Arith, cx: Context): Tcb -> Tcb {
    (t: Tcb) => Dispatch(m, t, cx, true).0
  }

  ghost function Resting(m: Arith, cx: Context): Tcb -> bool {
    (t: Tcb) => LaterThan(PollAt(m, t, cx), cx.now)
  }

  /** The loop ends: it takes at most as many dispatches as its measure. */
  lemma Settles(m: Arith, t: Tcb, cx: Context) returns (n: nat)
    requires Ready(m, t, cx) && !Stuck(t, cx.now)
    ensures n <= Rank(m, t, cx.now) && Resting(m, cx)(Loops.Iterate(Poll(m, cx), t, n))
  {
    var good := (y: Tcb) => Ready(m, y, cx) && !Stuck(y, cx.now);
    var rank := (y: Tcb) => Rank(m, y, cx.now);
    forall y: Tcb | good(y) && !Resting(m, cx)(y)
      ensures good(Poll(m, cx)(y)) && rank(Poll(m, cx)(y)) < rank(y)
    {
      LoopStep(m, y, Poll(m, cx)(y), cx);
    }
    n := Loops.Ends(Poll(m, cx), good, Resting(m, cx), rank, t);
  }

  lemma StuckKept(m: Arith, t: Tcb, cx: Context)
    requires Inv(m, t) && Stuck(t, cx.now)
    ensures var t' := Dispatch(m, t, cx, true).0; Inv(m, t') && Stuck(t', cx.now)
    ensures Dispatch(m, t, cx, true).1.Some?
  {
    DispatchInv(m, t, cx, true);
    var t1 := BeforeDispatch(m, t, cx);
    assert t1.state == FinWait2 && t1.timer == t.timer && t1.lastTs.Some? && !TimedOut(t1, cx.now);
    var s := OutgoingSegment(m, t1, t.tuple.value, cx);
    assert s.Len() == 0;
  }

  lemma StuckForever(m: Arith, t: Tcb, cx: Context, n: nat)
    requires Inv(m, t) && Stuck(t, cx.now)
    ensures !Resting(m, cx)(Loops.Iterate(Poll(m, cx), t, n))
  {
    var stuck := (y: Tcb) => Inv(m, y) && Stuck(y, cx.now);
    forall y: Tcb | stuck(y)
      ensures stuck(Poll(m, cx)(y))
    {
      StuckKept(m, y, cx);
    }
    Loops.Stays(Poll(m, cx), stuck, t, n);
    StuckIsDue(m, Loops.Iterate(Poll(m, cx), t, n), cx);
  }

  lemma StuckIsDue(m: Arith, t: Tcb, cx: Context)
    requires Inv(m, t) && Stuck(t, cx.now)
    ensures !LaterThan(PollAt(m, t, cx), cx.now)
  {
  }

  /**
    Polling a socket at one instant until it no longer asks for it comes to an end, with a deadline that
    lies later, exactly when the socket is not in FIN-WAIT-2 with a due zero-window probe.
   */
  lemma SettlesIffNotStuck(m: Arith, t: Tcb, cx: Context)
    requires Ready(m, t, cx)
    ensures (exists n: nat :: Resting(m, cx)(Loops.Iterate(Poll(m, cx), t, n))) <==> !Stuck(t, cx.now)
  {
    if Stuck(t, cx.now) {
      forall n: nat
        ensures !Resting(m, cx)(Loops.Iterate(Poll(m, cx), t, n))
      {
        StuckForever(m, t, cx, n);
      }
    } else {
      var n := Settles(m, t, cx);
    }
  }
}
