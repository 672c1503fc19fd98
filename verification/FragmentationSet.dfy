/**
  The datagram reassembler as the program keeps it: objects that own a buffer and a range tracker, edited in
  place, and a set of them searched by key.
 */
module FragmentationSet {
  import opened Options
  import opened Octets
  import opened Fragmentation
  import opened AssemblerArray
  import A = AssemblerSpec

  /** One packet under way. */
  class PacketAssembler<K(!new, ==)> {
    var key: Option<K>
    var buffer: seq<byte>
    const assembler: Assembler
    var totalSize: Option<nat>
    var expiresAt: int

    ghost predicate Valid()
      reads this, assembler, assembler.contigs
    {
      assembler.Valid()
    }

    ghost function View(): Slot<K>
      requires Valid()
      reads this, assembler, assembler.contigs
    {
      Slot(key, buffer, assembler.List(), totalSize, expiresAt)
    }

    constructor (buffer: seq<byte>, slots: nat)
      requires slots > 0
      ensures Valid() && fresh(assembler) && fresh(assembler.contigs) && assembler.contigs.Length == slots
      ensures View() == Slot(None, buffer, [], None, 0)
    {
      key, this.buffer, totalSize, expiresAt := None, buffer, None, 0;
      assembler := new Assembler(slots);
    }

    ghost function Capacity(grows: bool): Limits {
      Limits(assembler.contigs.Length, grows)
    }

    /** The slot is free again; the buffer keeps its octets. */
    method Reset()
      requires Valid()
      modifies this, assembler, assembler.contigs
      ensures Valid() && View() == old(View()).Reset() && Freed(old(View()), View())
    {
      key, totalSize, expiresAt := None, None, 0;
      assembler.Clear();
    }

    /** The size of the packet becomes known. What is on record for a packet of that size stays right. */
    method SetTotalSize(size: nat, grows: bool) returns (ok: bool)
      requires Valid()
      modifies this
      ensures Valid()
      ensures var r := Fragmentation.SetTotalSize(old(View()), size, Limits(assembler.contigs.Length, grows));
              ok == r.Some? && View() == if ok then r.value else old(View())
      ensures SizeMeans(old(View()), size, Capacity(grows), View(), ok)
      ensures forall p: seq<byte> :: |p| == size && Holds(old(View()), p, Capacity(grows)) ==>
              Holds(View(), p, Capacity(grows))
    {
      ghost var s := View();
      ok := !(totalSize.Some? && totalSize.value != size) && (|buffer| >= size || grows);
      if ok {
        if |buffer| < size {
          buffer := buffer + Zeros(size - |buffer|);
        }
        totalSize := Some(size);
      }
      SizeMeaning(s, size, Capacity(grows));
      forall p: seq<byte> | |p| == size && Holds(s, p, Limits(assembler.contigs.Length, grows))
        ensures Holds(View(), p, Limits(assembler.contigs.Length, grows))
      {
        SetTotalHolds(s, p, Limits(assembler.contigs.Length, grows));
      }
    }

    /**
      A fragment arrives. If it agrees with a packet for which the record was right, the record stays right,
      whether or not the tracker had room for it.
     */
    method Add(data: seq<byte>, offset: nat, grows: bool) returns (ok: bool)
      requires Valid()
      modifies this, assembler, assembler.contigs
      ensures Valid()
      ensures var r := AddFragment(old(View()), data, offset, Limits(assembler.contigs.Length, grows));
              ok == r.Some? && View() == if ok then r.value else old(View())
      ensures AddMeans(old(View()), data, offset, Capacity(grows), View(), ok)
      ensures forall p: seq<byte> :: Agrees(data, offset, p) && Holds(old(View()), p, Capacity(grows)) ==>
              Holds(View(), p, Capacity(grows))
    {
      ghost var s := View();
      if |buffer| < offset + |data| && !grows {
        ok := false;
      } else {
        if |buffer| < offset + |data| {
          buffer := buffer + Zeros(offset + |data| - |buffer|);
        }
        buffer := buffer[..offset] + data + buffer[offset + |data|..];
        var recorded := assembler.Add(offset, |data|);
        ok := true;
      }
      AddMeaning(s, data, offset, Capacity(grows));
      forall p: seq<byte> | Agrees(data, offset, p) && Holds(s, p, Limits(assembler.contigs.Length, grows))
        ensures Holds(View(), p, Limits(assembler.contigs.Length, grows))
      {
        AddHolds(s, data, offset, p, Limits(assembler.contigs.Length, grows));
      }
    }

    /** The packet, once every octet of it is on record; the slot is then free again. */
    method Assemble() returns (packet: Option<seq<byte>>)
      requires Valid() && (totalSize.Some? ==> totalSize.value <= |buffer|)
      modifies this, assembler, assembler.contigs
      ensures Valid() && (View(), packet) == Fragmentation.Assemble(old(View()))
      ensures TakeMeans(old(View()), View(), packet)
      ensures forall p: seq<byte>, lim: Limits :: Holds(old(View()), p, lim) ==>
              packet == if old(View()).IsComplete() then Some(p) else None
    {
      ghost var s := View();
      TakeMeaning(s);
      var front := assembler.Front();
      if totalSize == Some(front) {
        var size := totalSize.value;
        Reset();
        packet := Some(buffer[..size]);
      } else {
        packet := None;
      }
      forall p: seq<byte>, lim: Limits | Holds(s, p, lim)
        ensures packet == if s.IsComplete() then Some(p) else None
      {
        AssembleExact(s, p, lim);
      }
    }
  }

  /** The set of packets under way. */
  class PacketAssemblerSet<K(!new, ==)> {
    const slots: seq<PacketAssembler<K>>
    const lim: Limits
    ghost const trackers: seq<Assembler>
    ghost const ranges: seq<array<A.Contig>>

    /** The slots share nothing. */
    ghost predicate Valid()
      reads this, slots, trackers, ranges
    {
      && |trackers| == |slots| && |ranges| == |slots|
      && (forall i :: 0 <= i < |slots| ==> Fits(i))
      && (forall i, j :: 0 <= i < j < |slots| ==>
            slots[i] != slots[j] && trackers[i] != trackers[j] && ranges[i] != ranges[j])
    }

    ghost predicate Fits(i: int)
      requires 0 <= i < |slots| && |trackers| == |slots| && |ranges| == |slots|
      reads this, slots, trackers, ranges
    {
      && slots[i].assembler == trackers[i] && trackers[i].contigs == ranges[i]
      && slots[i].Valid() && ranges[i].Length == lim.slots
    }

    ghost function View(): seq<Slot<K>>
      requires Valid()
      reads this, slots, trackers, ranges
    {
      seq(|slots|, i requires 0 <= i < |slots| reads this, slots, trackers, ranges requires Fits(i) => slots[i].View())
    }

    constructor (count: nat, lim: Limits, buffer: seq<byte>)
      requires lim.slots > 0
      ensures Valid() && this.lim == lim && |slots| == count
      ensures fresh(slots) && fresh(trackers) && fresh(ranges)
      ensures forall packets: K -> seq<byte> :: SetOk(View(), packets, lim)
    {
      var built;
      ghost var built1, built2;
      built, built1, built2 := Build(count, lim.slots, buffer);
      slots, trackers, ranges := built, built1, built2;
      this.lim := lim;
    }

    /** Free slots that share nothing. */
    static method Build(count: nat, size: nat, buffer: seq<byte>)
      returns (built: seq<PacketAssembler<K>>, ghost built1: seq<Assembler>, ghost built2: seq<array<A.Contig>>)
      requires size > 0
      ensures |built| == count && |built1| == count && |built2| == count
      ensures fresh(built) && fresh(built1) && fresh(built2)
      ensures forall i :: 0 <= i < count ==> FreeSlot(built[i], built1[i], built2[i], size, buffer)
      ensures forall i, j :: 0 <= i < j < count ==>
              built[i] != built[j] && built1[i] != built1[j] && built2[i] != built2[j]
    {
      built, built1, built2 := [], [], [];
      while |built| < count
        invariant |built| <= count && |built1| == |built| && |built2| == |built|
        invariant fresh(built) && fresh(built1) && fresh(built2)
        invariant forall i :: 0 <= i < |built| ==> FreeSlot(built[i], built1[i], built2[i], size, buffer)
        invariant forall i, j :: 0 <= i < j < |built| ==>
          built[i] != built[j] && built1[i] != built1[j] && built2[i] != built2[j]
        decreases count - |built|
      {
        var slot := new PacketAssembler<K>(buffer, size);
        built, built1, built2 := built + [slot], built1 + [slot.assembler], built2 + [slot.assembler.contigs];
      }
    }

    static ghost predicate FreeSlot(slot: PacketAssembler<K>, tracker: Assembler, contigs: array<A.Contig>, size: nat,
                                    buffer: seq<byte>)
      reads slot, tracker, contigs
    {
      && slot.assembler == tracker && tracker.contigs == contigs && contigs.Length == size
      && slot.Valid() && slot.View() == Slot(None, buffer, [], None, 0)
    }

    /** Changing slot `i` alone leaves the others as they were. */
    twostate lemma Elsewhere(i: nat)
      requires i < |slots| && old(Valid())
      requires forall j :: 0 <= j < |slots| && j != i ==>
               unchanged(slots[j]) && unchanged(trackers[j]) && unchanged(ranges[j])
      ensures forall j :: 0 <= j < |slots| && j != i ==> Fits(j) && slots[j].View() == old(slots[j].View())
    {
      forall j | 0 <= j < |slots| && j != i
        ensures Fits(j) && slots[j].View() == old(slots[j].View())
      {
        assert old(Fits(j));
      }
    }

    /** The slot that holds `key`, and the last free slot before it. */
    method Search(key: K) returns (found: Option<nat>, free: Option<nat>)
      requires Valid()
      ensures found.Some? ==> Owns(View(), found.value, key)
      ensures found.None? ==> free == LastFree(View()) && forall i :: 0 <= i < |slots| ==> View()[i].key != Some(key)
      ensures free.Some? ==> free.value < |slots| && View()[free.value].IsFree()
      ensures found.None? && free.Some? ==> forall i :: free.value < i < |slots| ==> !View()[i].IsFree()
      ensures found.None? && free.None? ==> forall i :: 0 <= i < |slots| ==> View()[i].key.Some?
    {
      ghost var v := View();
      found, free := None, None;
      var i := 0;
      while i < |slots|
        invariant 0 <= i <= |slots|
        invariant forall j :: 0 <= j < i ==> v[j].key != Some(key)
        invariant free == LastFree(v[..i])
      {
        assert Fits(i) && v[i] == slots[i].View();
        assert v[..i + 1][..i] == v[..i];
        if slots[i].key == Some(key) {
          found := Some(i);
          return;
        }
        if slots[i].key.None? {
          free := Some(i);
        }
        i := i + 1;
      }
      assert v[..i] == v;
      LastFreeIsLast(v);
    }

    /** Take a slot for `key`. */
    method Claim(i: nat, key: K, expiresAt: int)
      requires Valid() && i < |slots|
      modifies slots[i]
      ensures Valid() && View() == old(View())[i := old(View())[i].(key := Some(key), expiresAt := expiresAt)]
    {
      assert Fits(i);
      slots[i].key := Some(key);
      slots[i].expiresAt := expiresAt;
      assert Fits(i);
      Elsewhere(i);
    }

    /**
      The slot for `key`: the one that holds it already, else a free one, which is then taken; `None`
      exactly when the key has no slot and none is free.
     */
    method Get(key: K, expiresAt: int) returns (r: Option<nat>)
      requires Valid()
      modifies slots
      ensures Valid()
      ensures r.None? <==> forall i :: 0 <= i < |slots| ==> old(View())[i].key.Some? && old(View())[i].key != Some(key)
      ensures r.Some? ==> Owns(View(), r.value, key) && SameSlots(old(View()), View(), r.value)
      ensures r.None? || Owns(old(View()), r.value, key) ==> View() == old(View())
      ensures r.Some? && !Owns(old(View()), r.value, key) ==>
                var s := old(View())[r.value];
                && (forall i :: 0 <= i < |slots| ==> old(View())[i].key != Some(key))
                && s.IsFree() && (forall i :: r.value < i < |slots| ==> !old(View())[i].IsFree())
                && View()[r.value] == s.(key := Some(key), expiresAt := expiresAt)
      ensures forall packets: K -> seq<byte> :: View() == Happen(old(View()), Ask(key, expiresAt), packets, lim).0
    {
      var found, free := Search(key);
      if found.Some? {
        return found;
      }
      if free.Some? {
        Claim(free.value, key, expiresAt);
      }
      r := free;
    }

    method ResetAt(i: nat)
      requires Valid() && i < |slots|
      modifies slots[i], trackers[i], ranges[i]
      ensures Valid() && View() == old(View())[i := old(View())[i].Reset()]
    {
      assert Fits(i);
      slots[i].Reset();
      assert Fits(i);
      Elsewhere(i);
    }

    /** Free every slot whose packet has expired; nothing else changes. */
    method RemoveExpired(timestamp: int)
      requires Valid()
      modifies slots, trackers, ranges
      ensures Valid() && View() == Expired(old(View()), timestamp)
      ensures ExpireMeans(old(View()), timestamp, View())
    {
      ghost var before := View();
      ExpireMeaning(before, timestamp);
      for i := 0 to |slots|
        invariant Valid()
        invariant forall j :: 0 <= j < |slots| ==>
          View()[j] == if j < i && before[j].key.Some? && before[j].expiresAt < timestamp then before[j].Reset()
          else before[j]
      {
        assert Fits(i) && View()[i] == slots[i].View();
        if slots[i].key.Some? && slots[i].expiresAt < timestamp {
          ResetAt(i);
        }
      }
    }

    /**
      A fragment for the packet of slot `i`. Whatever the packets under way are, if the fragment agrees with
      its packet the set stays in order.
     */
    method AddData(i: nat, data: seq<byte>, offset: nat) returns (ok: bool)
      requires Valid() && i < |slots|
      modifies slots[i], trackers[i], ranges[i]
      ensures Valid()
      ensures match AddFragment(old(View())[i], data, offset, lim)
              case None => !ok && View() == old(View())
              case Some(s) => ok && View() == old(View())[i := s]
      ensures SameSlots(old(View()), View(), i) && AddMeans(old(View())[i], data, offset, lim, View()[i], ok)
      ensures forall packets: K -> seq<byte> ::
                SetOk(old(View()), packets, lim) && KeyAgrees(old(View())[i], data, offset, packets) ==>
                    SetOk(View(), packets, lim)
    {
      ghost var before := View();
      assert Fits(i);
      ok := slots[i].Add(data, offset, lim.grows);
      assert Fits(i);
      Elsewhere(i);
      assert View() == before[i := slots[i].View()];
      forall packets: K -> seq<byte> | SetOk(before, packets, lim) && KeyAgrees(before[i], data, offset, packets)
        ensures SetOk(View(), packets, lim)
      {
        AddHolds(before[i], data, offset, packets(before[i].key.value), lim);
        ReplaceOk(before, i, View()[i], packets, lim);
      }
    }

    /** The size of the packet of slot `i` becomes known. */
    method SetTotal(i: nat, size: nat) returns (ok: bool)
      requires Valid() && i < |slots|
      modifies slots[i]
      ensures Valid()
      ensures match Fragmentation.SetTotalSize(old(View())[i], size, lim)
              case None => !ok && View() == old(View())
              case Some(s) => ok && View() == old(View())[i := s]
      ensures SameSlots(old(View()), View(), i) && SizeMeans(old(View())[i], size, lim, View()[i], ok)
      ensures forall packets: K -> seq<byte> ::
                SetOk(old(View()), packets, lim) && KeySize(old(View())[i], size, packets) ==>
                    SetOk(View(), packets, lim)
    {
      ghost var before := View();
      assert Fits(i);
      ok := slots[i].SetTotalSize(size, lim.grows);
      assert Fits(i);
      Elsewhere(i);
      assert View() == before[i := slots[i].View()];
      forall packets: K -> seq<byte> | SetOk(before, packets, lim) && KeySize(before[i], size, packets)
        ensures SetOk(View(), packets, lim)
      {
        SetTotalHolds(before[i], packets(before[i].key.value), lim);
        ReplaceOk(before, i, View()[i], packets, lim);
      }
    }

    /** What is handed out is the packet of the slot's key, and the slot is free again. */
    method TakePacket(i: nat, ghost packets: K -> seq<byte>) returns (packet: Option<seq<byte>>)
      requires Valid() && i < |slots| && SetOk(View(), packets, lim) && View()[i].key.Some?
      modifies slots[i], trackers[i], ranges[i]
      ensures Valid() && SetOk(View(), packets, lim)
      ensures packet == if old(View())[i].IsComplete() then Some(packets(old(View())[i].key.value)) else None
      ensures packet.Some? ==> View()[i].IsFree()
      ensures SameSlots(old(View()), View(), i) && TakeMeans(old(View())[i], View()[i], packet)
    {
      ghost var before := View();
      assert Fits(i) && before[i] == slots[i].View();
      packet := slots[i].Assemble();
      assert Fits(i);
      Elsewhere(i);
      assert View() == before[i := slots[i].View()];
      AssembleExact(before[i], packets(before[i].key.value), lim);
      ReplaceOk(before, i, View()[i], packets, lim);
    }
  }

  /** The slot is taken, and the fragment agrees with the packet of its key. */
  ghost predicate KeyAgrees<K>(s: Slot<K>, data: seq<byte>, offset: nat, packets: K -> seq<byte>) {
    s.key.Some? && Agrees(data, offset, packets(s.key.value))
  }

  ghost predicate KeySize<K>(s: Slot<K>, size: nat, packets: K -> seq<byte>) {
    s.key.Some? && |packets(s.key.value)| == size
  }
}
