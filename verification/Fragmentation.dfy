/**
  The datagram reassembler: one slot per packet under way, found by key. Slots are reused without clearing
  their buffers, and the refusal of the range tracker to record a fragment is ignored.
 */
module Fragmentation {
  import opened Options
  import opened Octets
  import A = AssemblerSpec

  /** A `PacketAssembler`; `ranges` is its range tracker. */
  datatype Slot<K> = Slot(key: Option<K>, buffer: seq<byte>, ranges: seq<A.Contig>, totalSize: Option<nat>,
                          expiresAt: int) {
    predicate IsFree() {
      key.None?
    }

    predicate IsComplete() {
      totalSize == Some(A.PeekFront(ranges))
    }

    /** The buffer keeps its octets. */
    function Reset(): Slot<K> {
      this.(key := None, ranges := [], totalSize := None, expiresAt := 0)
    }
  }

  /** `slots` is the number of ranges a tracker can hold; `grows` says whether buffers are resized on demand. */
  datatype Limits = Limits(slots: nat, grows: bool)

  function Zeros(n: nat): seq<byte> {
    seq(n, _ => 0)
  }

  /** The buffer, with room for `size` octets if that can be had. */
  function Room(buffer: seq<byte>, size: nat, grows: bool): Option<seq<byte>> {
    if |buffer| >= size then Some(buffer)
    else if grows then Some(buffer + Zeros(size - |buffer|))
    else None
  }

  /** `set_total_size`; `None` is the error. */
  function SetTotalSize<K>(s: Slot<K>, size: nat, lim: Limits): Option<Slot<K>> {
    if s.totalSize.Some? && s.totalSize.value != size then None
    else match Room(s.buffer, size, lim.grows)
    case None => None
    case Some(b) => Some(s.(buffer := b, totalSize := Some(size)))
  }

  /** Recording a range may be refused; the reassembler does not look. */
  function Record(ranges: seq<A.Contig>, offset: nat, size: nat, slots: nat): seq<A.Contig> {
    var v := A.Insert(ranges, offset, size);
    if |v| <= slots then v else ranges
  }

  function AddFragment<K>(s: Slot<K>, data: seq<byte>, offset: nat, lim: Limits): Option<Slot<K>> {
    match Room(s.buffer, offset + |data|, lim.grows)
    case None => None
    case Some(b) =>
      if |b| < offset + |data| then None
      else Some(s.(buffer := b[..offset] + data + b[offset + |data|..],
                   ranges := Record(s.ranges, offset, |data|, lim.slots)))
  }

  /** `assemble`: the packet and the freed slot, or nothing. */
  function Assemble<K>(s: Slot<K>): (Slot<K>, Option<seq<byte>>) {
    if !s.IsComplete() || s.totalSize.value > |s.buffer| then (s, None)
    else (s.Reset(), Some(s.buffer[..s.totalSize.value]))
  }

  // ----- the slot invariant

  /** Everything recorded in the slot is an octet of packet `p`, whatever else its buffer holds. */
  ghost predicate Holds<K>(s: Slot<K>, p: seq<byte>, lim: Limits) {
    && A.Canonical(s.ranges) && |s.ranges| <= lim.slots
    && (forall x: nat {:trigger A.Covers(s.ranges, x)} :: A.Covers(s.ranges, x) ==>
          x < |p| && x < |s.buffer| && s.buffer[x] == p[x])
    && (s.totalSize.Some? ==> s.totalSize.value == |p| && |p| <= |s.buffer|)
  }

  /** A fragment that agrees with packet `p`. */
  ghost predicate Agrees(data: seq<byte>, offset: nat, p: seq<byte>) {
    offset + |data| <= |p| && data == p[offset..offset + |data|]
  }

  lemma FreshHolds<K>(s: Slot<K>, p: seq<byte>, lim: Limits)
    requires s.ranges == [] && s.totalSize.None?
    ensures Holds(s, p, lim)
  {
  }

  lemma SetTotalHolds<K>(s: Slot<K>, p: seq<byte>, lim: Limits)
    requires Holds(s, p, lim)
    ensures SetTotalSize(s, |p|, lim).Some? ==> Holds(SetTotalSize(s, |p|, lim).value, p, lim)
  {
  }

  lemma RecordCovers(ranges: seq<A.Contig>, offset: nat, size: nat, slots: nat, x: int)
    requires A.Canonical(ranges) && |ranges| <= slots
    ensures A.Canonical(Record(ranges, offset, size, slots)) && |Record(ranges, offset, size, slots)| <= slots
    ensures A.Covers(Record(ranges, offset, size, slots), x) ==> A.Covers(ranges, x) || offset <= x < offset + size
  {
    A.InsertCanonical(ranges, offset, size);
    A.InsertCovers(ranges, offset, size, x);
  }

  /** A fragment overlapping, repeating or refused: the recorded octets stay right. */
  lemma AddHolds<K>(s: Slot<K>, data: seq<byte>, offset: nat, p: seq<byte>, lim: Limits)
    requires Holds(s, p, lim) && Agrees(data, offset, p)
    ensures AddFragment(s, data, offset, lim).Some? ==> Holds(AddFragment(s, data, offset, lim).value, p, lim)
  {
    if AddFragment(s, data, offset, lim).Some? {
      var t := AddFragment(s, data, offset, lim).value;
      RecordCovers(s.ranges, offset, |data|, lim.slots, 0);
      forall x: nat | A.Covers(t.ranges, x)
        ensures x < |p| && x < |t.buffer| && t.buffer[x] == p[x]
      {
        RecordCovers(s.ranges, offset, |data|, lim.slots, x);
        AddedByte(s, t, data, offset, p, x, lim);
      }
    }
  }

  lemma AddedByte<K>(s: Slot<K>, t: Slot<K>, data: seq<byte>, offset: nat, p: seq<byte>, x: nat, lim: Limits)
    requires Holds(s, p, lim) && Agrees(data, offset, p) && AddFragment(s, data, offset, lim) == Some(t)
    requires A.Covers(s.ranges, x) || offset <= x < offset + |data|
    ensures x < |p| && x < |t.buffer| && t.buffer[x] == p[x]
  {
    var b := Room(s.buffer, offset + |data|, lim.grows).value;
    assert |t.buffer| == |b| >= |s.buffer|;
    if offset <= x < offset + |data| {
      assert t.buffer[x] == data[x - offset] == p[offset + (x - offset)];
    } else {
      assert b[x] == s.buffer[x];
    }
  }

  /** A slot is complete exactly when every octet of its packet has been recorded and its size is known. */
  lemma CompleteIff<K>(s: Slot<K>, p: seq<byte>, lim: Limits)
    requires Holds(s, p, lim)
    ensures s.IsComplete() <==> s.totalSize.Some? && forall x: nat :: x < |p| ==> A.Covers(s.ranges, x)
  {
    A.RemoveFrontMeaning(s.ranges);
    var n := A.PeekFront(s.ranges);
    assert !A.Covers(s.ranges, |p|);
  }

  /** What is assembled is the packet: no stale octet, none missing. */
  lemma AssembleExact<K>(s: Slot<K>, p: seq<byte>, lim: Limits)
    requires Holds(s, p, lim)
    ensures s.IsComplete() ==> Assemble(s) == (s.Reset(), Some(p))
    ensures !s.IsComplete() ==> Assemble(s) == (s, None)
  {
    CompleteIff(s, p, lim);
    if s.IsComplete() {
      forall x | 0 <= x < |p|
        ensures s.buffer[x] == p[x]
      {
        assert A.Covers(s.ranges, x);
      }
      assert s.buffer[..|p|] == p;
    }
  }

  // ----- what the calls on a slot do

  /** The buffer has room for `size` octets; what it had before is kept. */
  ghost predicate Roomy<K>(s: Slot<K>, t: Slot<K>, size: nat) {
    && |t.buffer| == (if |s.buffer| < size then size else |s.buffer|)
    && forall x :: 0 <= x < |s.buffer| ==> t.buffer[x] == s.buffer[x]
  }

  /** The size is fixed once; a different one is refused, and so is one without room. */
  ghost predicate SizeMeans<K>(s: Slot<K>, size: nat, lim: Limits, t: Slot<K>, ok: bool) {
    && (ok <==> (s.totalSize.Some? ==> s.totalSize.value == size) && (|s.buffer| >= size || lim.grows))
    && (ok ==> t == s.(buffer := t.buffer, totalSize := Some(size)) && Roomy(s, t, size))
    && (!ok ==> t == s)
  }

  lemma SizeMeaning<K>(s: Slot<K>, size: nat, lim: Limits)
    ensures var r := SetTotalSize(s, size, lim);
            SizeMeans(s, size, lim, if r.Some? then r.value else s, r.Some?)
  {
  }

  /** The octets are written at their place and every other octet is kept. */
  ghost predicate Written(before: seq<byte>, data: seq<byte>, offset: nat, after: seq<byte>) {
    && |after| == (if |before| < offset + |data| then offset + |data| else |before|)
    && (forall x :: offset <= x < offset + |data| ==> after[x] == data[x - offset])
    && (forall x :: 0 <= x < |before| && !(offset <= x < offset + |data|) ==> after[x] == before[x])
  }

  /**
    A fragment is written into the buffer unless there is no room. Its range is recorded, that is, the
    recorded set becomes the union, unless that has more runs than the tracker has slots; then the record stays.
   */
  ghost predicate AddMeans<K>(s: Slot<K>, data: seq<byte>, offset: nat, lim: Limits, t: Slot<K>, ok: bool) {
    && (ok <==> |s.buffer| >= offset + |data| || lim.grows)
    && (!ok ==> t == s)
    && (ok ==>
          && t == s.(buffer := t.buffer, ranges := t.ranges) && Written(s.buffer, data, offset, t.buffer)
          && var all := A.Denote(s.ranges) + A.Interval(offset, |data|);
             if |A.RunStarts(all)| <= lim.slots then A.Denote(t.ranges) == all else t.ranges == s.ranges)
  }

  lemma AddMeaning<K>(s: Slot<K>, data: seq<byte>, offset: nat, lim: Limits)
    requires A.Canonical(s.ranges)
    ensures var r := AddFragment(s, data, offset, lim);
            AddMeans(s, data, offset, lim, if r.Some? then r.value else s, r.Some?)
  {
    A.InsertCanonical(s.ranges, offset, |data|);
    A.InsertDenotesUnion(s.ranges, offset, |data|);
    A.SlotsAreRuns(A.Insert(s.ranges, offset, |data|));
    var r := AddFragment(s, data, offset, lim);
    if r.Some? {
      var b := Room(s.buffer, offset + |data|, lim.grows).value;
      WrittenInto(s.buffer, b, data, offset);
    }
  }

  lemma WrittenInto(before: seq<byte>, room: seq<byte>, data: seq<byte>, offset: nat)
    requires |room| == (if |before| < offset + |data| then offset + |data| else |before|) && room[..|before|] == before
    ensures Written(before, data, offset, room[..offset] + data + room[offset + |data|..])
  {
    var after := room[..offset] + data + room[offset + |data|..];
    forall x | 0 <= x < |before| && !(offset <= x < offset + |data|)
      ensures after[x] == before[x]
    {
      assert room[..|before|][x] == room[x];
    }
  }

  /** Nothing is on record any more, and no key, size or time limit; the buffer keeps its octets. */
  ghost predicate Freed<K>(s: Slot<K>, t: Slot<K>) {
    t.key.None? && t.ranges == [] && t.totalSize.None? && t.expiresAt == 0 && t.buffer == s.buffer
  }

  /** The recorded octets run from the first to just before the last of `size`. */
  ghost predicate AllRecorded<K>(s: Slot<K>, size: nat) {
    (forall x: nat :: x < size ==> A.Covers(s.ranges, x)) && !A.Covers(s.ranges, size)
  }

  /** A packet is handed out exactly when its size is known and just its octets are recorded; the slot is then free. */
  ghost predicate TakeMeans<K>(s: Slot<K>, t: Slot<K>, out: Option<seq<byte>>) {
    && (out.Some? <==> s.totalSize.Some? && AllRecorded(s, s.totalSize.value))
    && (out.Some? ==> s.totalSize.value <= |s.buffer| && out.value == s.buffer[..s.totalSize.value] && Freed(s, t))
    && (out.None? ==> t == s)
  }

  lemma TakeMeaning<K>(s: Slot<K>)
    requires A.Canonical(s.ranges) && (s.totalSize.Some? ==> s.totalSize.value <= |s.buffer|)
    ensures TakeMeans(s, Assemble(s).0, Assemble(s).1)
  {
    A.RemoveFrontMeaning(s.ranges);
    if s.totalSize.Some? {
      FrontIs(s, s.totalSize.value);
    }
  }

  lemma FrontIs<K>(s: Slot<K>, size: nat)
    requires A.Canonical(s.ranges)
    ensures A.PeekFront(s.ranges) == size <==> AllRecorded(s, size)
  {
    A.RemoveFrontMeaning(s.ranges);
    if A.PeekFront(s.ranges) < size {
      assert !A.Covers(s.ranges, A.PeekFront(s.ranges));
    }
  }

  // ----- the set of slots

  /** No key occupies two slots, and a free slot has nothing recorded. */
  ghost predicate SetOk<K(!new)>(slots: seq<Slot<K>>, packets: K -> seq<byte>, lim: Limits) {
    && (forall i, j :: 0 <= i < j < |slots| && slots[i].key.Some? ==> slots[i].key != slots[j].key)
    && (forall i :: 0 <= i < |slots| ==>
          if slots[i].key.Some? then Holds(slots[i], packets(slots[i].key.value), lim)
          else slots[i].ranges == [] && slots[i].totalSize.None?)
  }

  /** The slot that belongs to `key`. */
  predicate Owns<K(==)>(slots: seq<Slot<K>>, i: int, key: K) {
    0 <= i < |slots| && slots[i].key == Some(key)
  }

  /** At most slot `i` differs. */
  ghost predicate SameSlots<K>(v: seq<Slot<K>>, w: seq<Slot<K>>, i: int) {
    |w| == |v| && forall j :: 0 <= j < |v| && j != i ==> w[j] == v[j]
  }

  // ----- every run

  /**
    What happens to the set: a slot is asked for, a packet's size becomes known, a fragment arrives, the
    packet is asked for, or time passes. Every fragment agrees with the one packet of its key.
   */
  datatype Event<K> =
    | Ask(key: K, expires: int)
    | Total(key: K)
    | Fragment(key: K, data: seq<byte>, offset: nat)
    | Take(key: K)
    | Expire(now: int)

  function Find<K(==)>(slots: seq<Slot<K>>, key: K): Option<nat>
    ensures Find(slots, key).Some? ==> Owns(slots, Find(slots, key).value, key)
    ensures Find(slots, key).None? ==> forall i :: 0 <= i < |slots| ==> slots[i].key != Some(key)
  {
    if |slots| == 0 then None
    else if slots[|slots| - 1].key == Some(key) then Some(|slots| - 1)
    else Find(slots[..|slots| - 1], key)
  }

  function LastFree<K>(slots: seq<Slot<K>>): Option<nat>
    ensures LastFree(slots).Some? ==> LastFree(slots).value < |slots| && slots[LastFree(slots).value].key.None?
  {
    if |slots| == 0 then None
    else if slots[|slots| - 1].key.None? then Some(|slots| - 1)
    else LastFree(slots[..|slots| - 1])
  }

  lemma {:induction false} LastFreeIsLast<K>(slots: seq<Slot<K>>)
    ensures LastFree(slots).None? ==> forall i :: 0 <= i < |slots| ==> slots[i].key.Some?
    ensures LastFree(slots).Some? ==> forall i :: LastFree(slots).value < i < |slots| ==> slots[i].key.Some?
  {
    if |slots| > 0 {
      LastFreeIsLast(slots[..|slots| - 1]);
    }
  }

  function Expired<K>(slots: seq<Slot<K>>, now: int): seq<Slot<K>> {
    seq(|slots|, i requires 0 <= i < |slots| =>
                   if slots[i].key.Some? && slots[i].expiresAt < now then slots[i].Reset() else slots[i])
  }

  /** The set after an event, and the packet it hands out. */
  function Happen<K(==)>(slots: seq<Slot<K>>, e: Event<K>, packets: K -> seq<byte>, lim: Limits)
    : (seq<Slot<K>>, Option<seq<byte>>)
  {
    match e
    case Ask(key, expires) =>
      if Find(slots, key).Some? || LastFree(slots).None? then (slots, None)
      else
        var i := LastFree(slots).value;
        (slots[i := slots[i].(key := Some(key), expiresAt := expires)], None)
    case Total(key) =>
      (match Find(slots, key)
       case None => (slots, None)
       case Some(i) => match SetTotalSize(slots[i], |packets(key)|, lim)
         case None => (slots, None)
         case Some(s) => (slots[i := s], None))
    case Fragment(key, data, offset) =>
      (match Find(slots, key)
       case None => (slots, None)
       case Some(i) => match AddFragment(slots[i], data, offset, lim)
         case None => (slots, None)
         case Some(s) => (slots[i := s], None))
    case Take(key) =>
      (match Find(slots, key)
       case None => (slots, None)
       case Some(i) => (slots[i := Assemble(slots[i]).0], Assemble(slots[i]).1))
    case Expire(now) => (Expired(slots, now), None)
  }

  ghost predicate Sound<K>(e: Event<K>, packets: K -> seq<byte>) {
    e.Fragment? ==> Agrees(e.data, e.offset, packets(e.key))
  }

  lemma ReplaceOk<K(!new)>(slots: seq<Slot<K>>, i: nat, s: Slot<K>, packets: K -> seq<byte>, lim: Limits)
    requires SetOk(slots, packets, lim) && i < |slots|
    requires s.key == slots[i].key || (s.key.None? && s.ranges == [] && s.totalSize.None?)
    requires s.key.Some? ==> Holds(s, packets(s.key.value), lim)
    requires s.key.None? ==> s.ranges == [] && s.totalSize.None?
    ensures SetOk(slots[i := s], packets, lim)
  {
  }

  lemma AskOk<K(!new)>(slots: seq<Slot<K>>, key: K, expires: int, packets: K -> seq<byte>, lim: Limits)
    requires SetOk(slots, packets, lim) && Find(slots, key).None? && LastFree(slots).Some?
    ensures var i := LastFree(slots).value;
            SetOk(slots[i := slots[i].(key := Some(key), expiresAt := expires)], packets, lim)
  {
    var i := LastFree(slots).value;
    FreshHolds(slots[i].(key := Some(key), expiresAt := expires), packets(key), lim);
  }

  /** Every event keeps the set in order, and a packet that is handed out is the packet of its key. */
  lemma HappenOk<K(!new)>(slots: seq<Slot<K>>, e: Event<K>, packets: K -> seq<byte>, lim: Limits)
    requires SetOk(slots, packets, lim) && Sound(e, packets)
    ensures var (slots', out) := Happen(slots, e, packets, lim);
            && SetOk(slots', packets, lim)
            && (out.Some? ==> e.Take? && out.value == packets(e.key))
  {
    match e
    case Ask(key, expires) =>
      if Find(slots, key).None? && LastFree(slots).Some? {
        AskOk(slots, key, expires, packets, lim);
      }
    case Total(key) =>
      var f := Find(slots, key);
      if f.Some? {
        SetTotalHolds(slots[f.value], packets(key), lim);
        var s := SetTotalSize(slots[f.value], |packets(key)|, lim);
        if s.Some? {
          ReplaceOk(slots, f.value, s.value, packets, lim);
        }
      }
    case Fragment(key, data, offset) =>
      var f := Find(slots, key);
      if f.Some? {
        AddHolds(slots[f.value], data, offset, packets(key), lim);
        var s := AddFragment(slots[f.value], data, offset, lim);
        if s.Some? {
          ReplaceOk(slots, f.value, s.value, packets, lim);
        }
      }
    case Take(key) =>
      var f := Find(slots, key);
      if f.Some? {
        AssembleExact(slots[f.value], packets(key), lim);
        ReplaceOk(slots, f.value, Assemble(slots[f.value]).0, packets, lim);
      }
    case Expire(now) => ExpireOk(slots, now, packets, lim);
  }

  lemma ExpireOk<K(!new)>(slots: seq<Slot<K>>, now: int, packets: K -> seq<byte>, lim: Limits)
    requires SetOk(slots, packets, lim)
    ensures SetOk(Expired(slots, now), packets, lim)
  {
  }

  /**
    When time has passed, a slot is free if it was before or its limit has passed; every other slot is as it
    was. A slot whose limit is just reached stays.
   */
  ghost predicate ExpireMeans<K>(slots: seq<Slot<K>>, now: int, slots': seq<Slot<K>>) {
    && |slots'| == |slots|
    && forall i :: 0 <= i < |slots| ==>
         if slots[i].key.Some? && slots[i].expiresAt < now then Freed(slots[i], slots'[i]) else slots'[i] == slots[i]
  }

  lemma ExpireMeaning<K>(slots: seq<Slot<K>>, now: int)
    ensures ExpireMeans(slots, now, Expired(slots, now))
  {
  }

  /** The packets handed out in a run, each with its key. */
  function Delivered<K(==)>(slots: seq<Slot<K>>, run: seq<Event<K>>, packets: K -> seq<byte>, lim: Limits)
    : seq<(K, seq<byte>)>
    decreases |run|
  {
    if |run| == 0 then []
    else
      var (slots', out) := Happen(slots, run[0], packets, lim);
      (if out.Some? && run[0].Take? then [(run[0].key, out.value)] else []) + Delivered(slots', run[1..], packets, lim)
  }

  /**
    For any interleaving of keys and any order, overlap, repetition, expiry, reuse or refusal of fragments
    that agree with one packet per key, everything handed out is exactly the packet of its key.
   */
  lemma {:induction false} RunDeliversPackets<K(!new)>(slots: seq<Slot<K>>, run: seq<Event<K>>,
                                                       packets: K -> seq<byte>, lim: Limits)
    requires SetOk(slots, packets, lim) && forall i :: 0 <= i < |run| ==> Sound(run[i], packets)
    ensures forall i :: 0 <= i < |Delivered(slots, run, packets, lim)| ==>
              Delivered(slots, run, packets, lim)[i].1 == packets(Delivered(slots, run, packets, lim)[i].0)
    decreases |run|
  {
    if |run| > 0 {
      HappenOk(slots, run[0], packets, lim);
      RunDeliversPackets(Happen(slots, run[0], packets, lim).0, run[1..], packets, lim);
    }
  }

  function After<K(==)>(slots: seq<Slot<K>>, run: seq<Event<K>>, packets: K -> seq<byte>, lim: Limits): seq<Slot<K>>
    decreases |run|
  {
    if |run| == 0 then slots else After(Happen(slots, run[0], packets, lim).0, run[1..], packets, lim)
  }

  /** In every run no key occupies two slots, and no slot has a stale octet on record. */
  lemma {:induction false} RunKeepsSet<K(!new)>(slots: seq<Slot<K>>, run: seq<Event<K>>, packets: K -> seq<byte>,
                                                lim: Limits)
    requires SetOk(slots, packets, lim) && forall i :: 0 <= i < |run| ==> Sound(run[i], packets)
    ensures SetOk(After(slots, run, packets, lim), packets, lim)
    decreases |run|
  {
    if |run| > 0 {
      HappenOk(slots, run[0], packets, lim);
      RunKeepsSet(Happen(slots, run[0], packets, lim).0, run[1..], packets, lim);
    }
  }

  // ----- how long a slot is kept

  /** The event is neither the end of the slot's time nor the delivery of its packet. */
  ghost predicate Spares<K>(s: Slot<K>, e: Event<K>) {
    && (e.Expire? ==> e.now <= s.expiresAt)
    && (e.Take? && Some(e.key) == s.key ==> !(s.totalSize.Some? && AllRecorded(s, s.totalSize.value)))
  }

  /** The slot is still that of the key, with its time limit, and nothing that was on record is gone. */
  ghost predicate StillHeld<K>(s: Slot<K>, t: Slot<K>) {
    && t.key == s.key && t.expiresAt == s.expiresAt && (s.totalSize.Some? ==> t.totalSize == s.totalSize)
    && forall x: nat {:trigger A.Covers(t.ranges, x)} :: A.Covers(s.ranges, x) ==> A.Covers(t.ranges, x)
  }

  lemma AddKeepsRecord<K>(s: Slot<K>, data: seq<byte>, offset: nat, lim: Limits)
    requires A.Canonical(s.ranges)
    ensures AddFragment(s, data, offset, lim).Some? ==> StillHeld(s, AddFragment(s, data, offset, lim).value)
  {
    var r := AddFragment(s, data, offset, lim);
    if r.Some? {
      forall x: nat | A.Covers(s.ranges, x)
        ensures A.Covers(r.value.ranges, x)
      {
        A.InsertCovers(s.ranges, offset, |data|, x);
      }
    }
  }

  /** One event that spares the slot. */
  lemma EventKeepsSlot<K(!new)>(slots: seq<Slot<K>>, e: Event<K>, i: nat, key: K, packets: K -> seq<byte>, lim: Limits)
    requires SetOk(slots, packets, lim) && Owns(slots, i, key) && Spares(slots[i], e)
    ensures var slots' := Happen(slots, e, packets, lim).0;
            |slots'| == |slots| && StillHeld(slots[i], slots'[i])
  {
    match e
    case Fragment(k, data, offset) =>
      if k == key {
        CallsAreEvents(slots, i, key, data, offset, packets, lim);
        AddKeepsRecord(slots[i], data, offset, lim);
      }
    case Take(k) =>
      if k == key {
        CallsAreEvents(slots, i, key, [], 0, packets, lim);
        TakeMeaning(slots[i]);
      }
    case Total(k) =>
      if k == key {
        CallsAreEvents(slots, i, key, [], 0, packets, lim);
      }
    case _ =>
  }

  ghost predicate SparedIn<K(!new)>(slots: seq<Slot<K>>, run: seq<Event<K>>, i: nat, packets: K -> seq<byte>,
                                    lim: Limits)
    decreases |run|
  {
    i < |slots| &&
    (|run| > 0 ==>
       Spares(slots[i], run[0]) && SparedIn(Happen(slots, run[0], packets, lim).0, run[1..], i, packets, lim))
  }

  /**
    A slot keeps its key, its time limit and everything on record until its packet is handed out or an
    instant after the limit is announced, whatever else happens to it and to the other slots.
   */
  lemma {:induction false} SlotIsKept<K(!new)>(slots: seq<Slot<K>>, run: seq<Event<K>>, i: nat, key: K,
                                               packets: K -> seq<byte>, lim: Limits)
    requires SetOk(slots, packets, lim) && Owns(slots, i, key) && SparedIn(slots, run, i, packets, lim)
    requires forall j :: 0 <= j < |run| ==> Sound(run[j], packets)
    ensures var slots' := After(slots, run, packets, lim);
            |slots'| == |slots| && StillHeld(slots[i], slots'[i])
    decreases |run|
  {
    if |run| > 0 {
      var next := Happen(slots, run[0], packets, lim).0;
      HappenOk(slots, run[0], packets, lim);
      EventKeepsSlot(slots, run[0], i, key, packets, lim);
      SlotIsKept(next, run[1..], i, key, packets, lim);
      HeldThrough(slots[i], next[i], After(slots, run, packets, lim)[i]);
    }
  }

  lemma HeldThrough<K>(s: Slot<K>, t: Slot<K>, u: Slot<K>)
    requires StillHeld(s, t) && StillHeld(t, u)
    ensures StillHeld(s, u)
  {
  }

  /**
    So a packet whose octets are all on record, and whose size is known, comes out at the next asking, as
    long as its time is not over: no event in between can lose it.
   */
  lemma CompleteIsDelivered<K(!new)>(slots: seq<Slot<K>>, run: seq<Event<K>>, i: nat, key: K,
                                     packets: K -> seq<byte>, lim: Limits)
    requires SetOk(slots, packets, lim) && Owns(slots, i, key) && SparedIn(slots, run, i, packets, lim)
    requires forall j :: 0 <= j < |run| ==> Sound(run[j], packets)
    requires slots[i].totalSize.Some? && forall x: nat :: x < |packets(key)| ==> A.Covers(slots[i].ranges, x)
    ensures Happen(After(slots, run, packets, lim), Take(key), packets, lim).1 == Some(packets(key))
  {
    SlotIsKept(slots, run, i, key, packets, lim);
    RunKeepsSet(slots, run, packets, lim);
    var slots' := After(slots, run, packets, lim);
    CallsAreEvents(slots', i, key, [], 0, packets, lim);
    CompleteIff(slots'[i], packets(key), lim);
    AssembleExact(slots'[i], packets(key), lim);
  }

  /** The slot found for a key is the only one; so a call on it is the event of that key. */
  lemma CallsAreEvents<K(!new)>(slots: seq<Slot<K>>, i: nat, key: K, data: seq<byte>, offset: nat,
                                packets: K -> seq<byte>, lim: Limits)
    requires SetOk(slots, packets, lim) && Owns(slots, i, key)
    ensures Find(slots, key) == Some(i)
    ensures Happen(slots, Take(key), packets, lim) == (slots[i := Assemble(slots[i]).0], Assemble(slots[i]).1)
    ensures match AddFragment(slots[i], data, offset, lim)
            case None => Happen(slots, Fragment(key, data, offset), packets, lim) == (slots, None)
            case Some(s) => Happen(slots, Fragment(key, data, offset), packets, lim) == (slots[i := s], None)
    ensures match SetTotalSize(slots[i], |packets(key)|, lim)
            case None => Happen(slots, Total(key), packets, lim) == (slots, None)
            case Some(s) => Happen(slots, Total(key), packets, lim) == (slots[i := s], None)
  {
    var f := Find(slots, key);
    assert f.Some? && slots[f.value].key == slots[i].key;
  }
}
