/**
  The tracker as the program keeps it: a fixed array of contigs edited in place by search, shift and
  coalesce loops. Every method is proved to do to the used slots what AssemblerSpec says, and to leave
  the unused slots all zero.
 */
module AssemblerArray {
  import opened Options
  import opened AssemblerSpec

  class Assembler {
    const contigs: array<Contig>
    ghost var used: nat

    /** The slots with data come first and are canonical; every other slot is all zero. */
    ghost predicate Valid()
      reads this, contigs
    {
      && 0 < contigs.Length
      && Packed()
      && Canonical(contigs[..used])
    }

    ghost predicate Packed()
      reads this, contigs
    {
      && used <= contigs.Length
      && (forall i :: used <= i < contigs.Length ==> contigs[i] == EMPTY)
    }

    ghost function List(): seq<Contig>
      requires used <= contigs.Length
      reads this, contigs
    {
      contigs[..used]
    }

    constructor (slots: nat)
      requires slots > 0
      ensures Valid() && List() == [] && contigs.Length == slots && fresh(contigs)
    {
      contigs := new Contig[slots](_ => EMPTY);
      used := 0;
    }

    method Clear()
      requires Valid()
      modifies this, contigs
      ensures Valid() && List() == []
    {
      for i := 0 to contigs.Length
        invariant forall k :: 0 <= k < i ==> contigs[k] == EMPTY
      {
        contigs[i] := EMPTY;
      }
      used := 0;
    }

    method Front() returns (n: nat)
      requires Valid()
      ensures n == PeekFront(List())
      ensures forall x: int :: 0 <= x < n ==> Covers(List(), x)
      ensures !Covers(List(), n)
    {
      n := if contigs[0].hole != 0 then 0 else contigs[0].data;
      RemoveFrontMeaning(List());
    }

    method IsEmpty() returns (b: bool)
      requires Valid()
      ensures b <==> Denote(List()) == {}
      ensures b <==> List() == []
    {
      b := contigs[0].data == 0;
      if !b {
        InDenote(List(), contigs[0].hole);
      } else {
        assert Denote(List()) == {};
      }
    }

    method RemoveContigAt(at: nat)
      requires Valid() && at < used
      modifies this, contigs
      ensures Valid()
      ensures List() == old(List()[..at] + List()[at + 1..])
    {
      ghost var before := contigs[..];
      MoveDown(at);
      TakenOut(before, contigs[..], used, at);
      used := used - 1;
    }

    /** Move every slot after `at` down by one; the last used slot becomes all zero. */
    method MoveDown(at: nat)
      requires Packed() && at < used && forall k :: 0 <= k < used ==> contigs[k].data > 0
      modifies contigs
      ensures forall k :: 0 <= k < at ==> contigs[k] == old(contigs[k])
      ensures forall k :: at <= k < used - 1 ==> contigs[k] == old(contigs[k + 1])
      ensures forall k :: used - 1 <= k < contigs.Length ==> contigs[k] == EMPTY
    {
      var i := at;
      while i < contigs.Length - 1
        invariant at <= i <= contigs.Length - 1 && i <= used
        invariant forall k :: 0 <= k < at ==> contigs[k] == old(contigs[k])
        invariant forall k :: at <= k < i ==> contigs[k] == old(contigs[k + 1])
        invariant forall k :: i <= k < contigs.Length ==> contigs[k] == old(contigs[k])
      {
        if contigs[i].data == 0 {
          return;
        }
        contigs[i] := contigs[i + 1];
        i := i + 1;
      }
      contigs[contigs.Length - 1] := EMPTY;
    }

    /** Open an all-zero slot at `at`, moving the rest up; refuse when the last slot is taken. */
    method AddContigAt(at: nat) returns (ok: bool)
      requires Valid() && at < used
      modifies contigs
      ensures ok <==> used < contigs.Length
      ensures !ok ==> contigs[..] == old(contigs[..])
      ensures ok ==> contigs[..used + 1] == old(List()[..at] + [EMPTY] + List()[at..])
      ensures ok ==> forall k :: used < k < contigs.Length ==> contigs[k] == EMPTY
    {
      if contigs[contigs.Length - 1].data != 0 {
        return false;
      }
      ghost var before := contigs[..];
      var i := contigs.Length - 1;
      while i > at
        invariant at <= i < contigs.Length
        invariant forall k :: 0 <= k <= i ==> contigs[k] == before[k]
        invariant forall k :: i < k < contigs.Length ==> contigs[k] == before[k - 1]
      {
        contigs[i] := contigs[i - 1];
        i := i - 1;
      }
      contigs[at] := EMPTY;
      PutIn(before, contigs[..], used, at);
      ok := true;
    }

    /** The contig in which the range starts, and the offset of the range relative to that contig. */
    method Locate(offset: nat, size: nat) returns (i: nat, off: nat)
      requires Valid() && size > 0
      ensures i <= used && (i < used ==> off <= contigs[i].Total())
      ensures Insert(List(), offset, size) == List()[..i] + Insert(List()[i..], off, size)
    {
      ghost var u := List();
      off, i := offset, 0;
      assert u == u[0..];
      while i < contigs.Length && contigs[i].data != 0 && off > contigs[i].Total()
        invariant i <= used
        invariant Insert(u, offset, size) == u[..i] + Insert(u[i..], off, size)
        decreases contigs.Length - i
      {
        InsertSkips(u, i, off, size);
        off := off - contigs[i].Total();
        i := i + 1;
      }
    }

    /**
      Add a range. It is refused exactly when the list would need more slots than there are, and then
      nothing changes; otherwise the list becomes `Insert`.
     */
    method Add(offset: nat, size: nat) returns (ok: bool)
      requires Valid()
      modifies this, contigs
      ensures Valid()
      ensures ok <==> |Insert(old(List()), offset, size)| <= contigs.Length
      ensures ok ==> List() == Insert(old(List()), offset, size)
      ensures !ok ==> contigs[..] == old(contigs[..]) && used == old(used)
    {
      if size == 0 {
        return true;
      }
      ghost var u := List();
      InsertCanonical(u, offset, size);
      var i, off := Locate(offset, size);
      InsertLast(u, off, size);
      if i == contigs.Length {
        // After all the ranges, and no slot is left.
        return false;
      }
      if contigs[i].data == 0 {
        // After all the ranges: take the next slot.
        TakeNext(i, Contig(off, size));
        return true;
      }
      if off < contigs[i].hole && off + size < contigs[i].hole {
        ok := SplitHole(off, i, size);
      } else {
        Extend(off, i, size);
        ok := true;
      }
    }

    method TakeNext(i: nat, c: Contig)
      requires Packed() && i == used < contigs.Length
      modifies this, contigs
      ensures Packed() && List() == old(List()) + [c]
    {
      contigs[i] := c;
      used := used + 1;
    }

    /** The range lies strictly inside the hole of contig `i`. */
    method SplitHole(off: nat, i: nat, size: nat) returns (ok: bool)
      requires Valid() && i < used && size > 0
      requires off + size < contigs[i].hole
      modifies this, contigs
      ensures Packed()
      ensures ok <==> old(used) < contigs.Length
      ensures ok ==> List() == old(List()[..i] + Insert(List()[i..], off, size))
      ensures |old(List()[..i] + Insert(List()[i..], off, size))| == old(used) + 1
      ensures !ok ==> contigs[..] == old(contigs[..]) && used == old(used)
    {
      ghost var u := List();
      ghost var whole := u[i];
      InsertSplits(u, i, off, size);
      ok := AddContigAt(i);
      if ok {
        ghost var wider := contigs[..used + 1];
        OpenedAt(u, i, wider);
        assert contigs[i + 1] == wider[i + 1];
        contigs[i] := Contig(off, size);
        contigs[i + 1] := Contig(contigs[i + 1].hole - (off + size), contigs[i + 1].data);
        used := used + 1;
        assert contigs[..used] == wider[i := Contig(off, size)][i + 1 := Contig(whole.hole - (off + size), whole.data)];
      }
    }

    /** The range meets contig `i`: grow it leftwards, coalesce to the right, then grow what remains. */
    method Extend(off: nat, i: nat, size: nat)
      requires Valid() && i < used && size > 0
      requires off <= contigs[i].Total() && off + size >= contigs[i].hole
      modifies this, contigs
      ensures Packed()
      ensures List() == old(List()[..i] + Insert(List()[i..], off, size))
    {
      ghost var u := List();
      ghost var goal := Insert(u[i..], off, size);
      InsertMeets(u, i, off, size);
      if off < contigs[i].hole {
        contigs[i] := Contig(off, contigs[i].Total() - off);
      }
      assert contigs[i + 1..used] == u[i + 1..];
      Coalesce(off, i, size, goal);
      assert contigs[..used] == contigs[..i] + contigs[i..used];
      assert contigs[..i] == u[..i];
    }

    method Coalesce(off: nat, i: nat, size: nat, ghost goal: seq<Contig>)
      requires Packed() && i < used
      requires forall k :: 0 <= k < used ==> contigs[k].data > 0
      requires goal == Absorb(contigs[i], contigs[i + 1..used], off + size)
      modifies this, contigs
      ensures Packed() && i < used
      ensures forall k :: 0 <= k < i ==> contigs[k] == old(contigs[k])
      ensures contigs[i..used] == goal
    {
      ghost var rest;
      var j;
      j, rest := Swallow(i, off + size, goal);
      if j - i - 1 != 0 {
        ShiftDown(i + 1, j - i - 1, rest);
      }
      GrowLast(i, off + size, rest);
    }

    /** Merge into contig `i` every following contig that the range reaches; `j` is the first it does not. */
    method Swallow(i: nat, end: nat, ghost goal: seq<Contig>) returns (j: nat, ghost rest: seq<Contig>)
      requires Packed() && i < used
      requires forall k :: 0 <= k < used ==> contigs[k].data > 0
      requires goal == Absorb(contigs[i], contigs[i + 1..used], end)
      modifies contigs
      ensures i < j <= used && Packed() && rest == contigs[j..used]
      ensures forall k :: 0 <= k < i ==> contigs[k] == old(contigs[k])
      ensures forall k :: i <= k < used ==> contigs[k].data > 0
      ensures goal == Absorb(contigs[i], rest, end)
      ensures forall k :: 0 <= k < |rest| ==> rest[k].data > 0
      ensures |rest| > 0 ==> end < contigs[i].Total() + rest[0].hole
    {
      ghost var before := contigs[..];
      ghost var u := contigs[..used];
      ghost var c := contigs[i];
      assert contigs[i + 1..used] == u[i + 1..];
      j := i + 1;
      while j < contigs.Length && contigs[j].data != 0 && end >= contigs[i].Total() + contigs[j].hole
        invariant i < j <= used && contigs[i] == c && c.data > 0
        invariant forall k :: 0 <= k < contigs.Length && k != i ==> contigs[k] == before[k]
        invariant Absorbs(c, u, j, end, goal)
      {
        AbsorbNext(c, u, j, end, goal);
        c := Contig(c.hole, c.data + u[j].Total());
        contigs[i] := Contig(contigs[i].hole, contigs[i].data + contigs[j].Total());
        j := j + 1;
      }
      rest := u[j..];
      SameFrom(before, contigs[..], j, used);
    }

    /** Grow contig `i` up to `end` at the expense of the hole that follows. */
    method GrowLast(i: nat, end: nat, ghost rest: seq<Contig>)
      requires Packed() && i < used && contigs[i + 1..used] == rest
      requires forall k :: 0 <= k < |rest| ==> rest[k].data > 0
      requires |rest| > 0 ==> end < contigs[i].Total() + rest[0].hole
      modifies contigs
      ensures Packed()
      ensures forall k :: 0 <= k < i ==> contigs[k] == old(contigs[k])
      ensures contigs[i..used] == Absorb(old(contigs[i]), rest, end)
    {
      if end > contigs[i].Total() {
        var left := end - contigs[i].Total();
        contigs[i] := Contig(contigs[i].hole, contigs[i].data + left);
        ghost var grown := contigs[i];
        assert contigs[i + 1..used] == rest;
        if i + 1 < contigs.Length && contigs[i + 1].data != 0 {
          assert contigs[i + 1] == rest[0];
          contigs[i + 1] := Contig(contigs[i + 1].hole - left, contigs[i + 1].data);
        }
        assert contigs[i..used] == [grown] + ShrinkFirstHole(rest, left);
      } else {
        assert contigs[i..used] == [contigs[i]] + rest;
      }
    }

    /** Drop the `shift` slots from `from` on, moving the later ones down and zeroing what they leave. */
    method ShiftDown(from: nat, shift: nat, ghost rest: seq<Contig>)
      requires Packed() && 0 < shift && from + shift <= used && rest == contigs[from + shift..used]
      requires forall k :: from <= k < used ==> contigs[k].data > 0
      modifies this, contigs
      ensures used == old(used) - shift
      ensures forall k :: 0 <= k < from ==> contigs[k] == old(contigs[k])
      ensures contigs[from..used] == rest
      ensures Packed()
    {
      ghost var before := contigs[..];
      var x := from;
      while x < contigs.Length
        invariant x <= used && used == old(used) && Moving(before, contigs[..], from, x, shift)
      {
        if contigs[x].data == 0 {
          break;
        }
        contigs[x] := if x + shift < contigs.Length then contigs[x + shift] else EMPTY;
        x := x + 1;
      }
      assert x == used;
      used := used - shift;
      Shifted(before, contigs[..], from, shift, used);
    }

    /** `Assembler::add`, stated on the denoted set. */
    method AddRange(offset: nat, size: nat) returns (ok: bool)
      requires Valid()
      modifies this, contigs
      ensures Valid()
      ensures ok <==> |RunStarts(old(Denote(List())) + Interval(offset, size))| <= contigs.Length
      ensures ok ==> Denote(List()) == old(Denote(List())) + Interval(offset, size)
      ensures !ok ==> contigs[..] == old(contigs[..])
    {
      ghost var u := List();
      InsertCanonical(u, offset, size);
      InsertDenotesUnion(u, offset, size);
      SlotsAreRuns(Insert(u, offset, size));
      ok := Add(offset, size);
    }

    method RemoveFront() returns (n: nat)
      requires Valid()
      modifies this, contigs
      ensures Valid()
      ensures List() == AssemblerSpec.RemoveFront(old(List()))
      ensures n == PeekFront(old(List()))
    {
      var front := contigs[0];
      if front.hole != 0 || front.data == 0 {
        n := 0;
      } else {
        ghost var u := List();
        RemoveContigAt(0);
        assert u[..0] + u[1..] == u[1..];
        n := front.data;
      }
    }

    method AddThenRemoveFront(offset: nat, size: nat) returns (r: Option<nat>)
      requires Valid()
      modifies this, contigs
      ensures Valid()
      ensures match AssemblerSpec.AddThenRemoveFront(old(List()), contigs.Length, offset, size)
              case None => r == None && contigs[..] == old(contigs[..]) && List() == old(List())
              case Some(p) => List() == p.0 && r == Some(p.1)
    {
      ghost var u := List();
      InsertCanonical(u, offset, size);
      if offset == 0 && size < contigs[0].hole {
        contigs[0] := Contig(contigs[0].hole - size, contigs[0].data);
        if size > 0 {
          assert List() == AssemblerSpec.RemoveFront(Insert(u, offset, size));
        } else {
          assert List() == u;
        }
        return Some(size);
      }
      var ok := Add(offset, size);
      if !ok {
        return None;
      }
      var n := RemoveFront();
      r := Some(n);
    }
  }

  /** Element by element, one slot was taken out of the used ones. */
  lemma {:induction false} TakenOut(before: seq<Contig>, after: seq<Contig>, used: nat, at: nat)
    requires |after| == |before| && at < used <= |before| && Canonical(before[..used])
    requires forall k :: 0 <= k < at ==> after[k] == before[k]
    requires forall k :: at <= k < used - 1 ==> after[k] == before[k + 1]
    ensures after[..used - 1] == before[..used][..at] + before[..used][at + 1..]
    ensures Canonical(after[..used - 1])
  {
    var u, v := before[..used], after[..used - 1];
    assert v == u[..at] + u[at + 1..];
    forall k | 0 <= k < |v|
      ensures v[k].data > 0 && (k > 0 ==> v[k].hole > 0)
    {
      assert v[k] == if k < at then u[k] else u[k + 1];
    }
  }

  /** A slot opened at `i`: where the contigs are then, and what filling it gives. */
  lemma {:induction false} OpenedAt(u: seq<Contig>, i: nat, wider: seq<Contig>)
    requires i < |u| && wider == u[..i] + [EMPTY] + u[i..]
    ensures |wider| == |u| + 1 && wider[i + 1] == u[i]
    ensures forall a, b :: wider[i := a][i + 1 := b] == u[..i] + ([a, b] + u[i + 1..])
  {
    assert wider[i + 1] == u[i..][0];
    forall a, b
      ensures wider[i := a][i + 1 := b] == u[..i] + ([a, b] + u[i + 1..])
    {
      assert wider == u[..i] + [EMPTY, u[i]] + u[i + 1..];
    }
  }

  /** A range strictly inside the hole of contig `i` splits that hole. */
  lemma {:induction false} InsertSplits(u: seq<Contig>, i: nat, off: nat, size: nat)
    requires i < |u| && size > 0 && off + size < u[i].hole
    ensures Insert(u[i..], off, size) == [Contig(off, size), Contig(u[i].hole - (off + size), u[i].data)] + u[i + 1..]
  {
    assert u[i..][0] == u[i] && u[i..][1..] == u[i + 1..];
  }

  /** The data ranges of the contigs from `index` on; `base` is where contig `index` starts. */
  ghost function RangesAfter(u: seq<Contig>, index: nat, base: nat): seq<(nat, nat)> {
    if index < |u| then Ranges(u[index..], base) else []
  }

  lemma {:induction false} RangesStep(u: seq<Contig>, index: nat, base: nat)
    ensures index < |u| ==>
              var r := RangesAfter(u, index, base);
              && r != [] && r[0] == (base + u[index].hole, base + u[index].Total())
              && r[1..] == RangesAfter(u, index + 1, base + u[index].Total())
    ensures index >= |u| ==> RangesAfter(u, index, base) == RangesAfter(u, index + 1, base) == []
  {
    if index < |u| {
      assert u[index..][0] == u[index] && u[index..][1..] == u[index + 1..];
    }
  }

  /** Element by element, an all-zero slot was put in among the used ones. */
  lemma {:induction false} PutIn(before: seq<Contig>, after: seq<Contig>, used: nat, at: nat)
    requires |after| == |before| && at < used < |before| && after[at] == EMPTY
    requires forall k :: 0 <= k < at ==> after[k] == before[k]
    requires forall k :: at < k <= used ==> after[k] == before[k - 1]
    ensures after[..used + 1] == before[..used][..at] + [EMPTY] + before[..used][at..]
  {
  }

  lemma {:induction false} SameFrom(before: seq<Contig>, after: seq<Contig>, j: nat, used: nat)
    requires |after| == |before| && j <= used <= |before|
    requires forall k :: j <= k < used ==> after[k] == before[k] && before[k].data > 0
    ensures after[j..used] == before[..used][j..]
    ensures forall k :: 0 <= k < used - j ==> before[..used][j..][k].data > 0
  {
    forall k | 0 <= k < used - j
      ensures before[..used][j..][k].data > 0
    {
      assert before[..used][j..][k] == before[j + k];
    }
  }

  /** Element by element, the used slots from `from + shift` on have moved down. */
  /** The cells from `from` up to `x` have come down by `shift`; those that have no successor are empty. */
  ghost predicate Moving(before: seq<Contig>, after: seq<Contig>, from: nat, x: nat, shift: nat) {
    && |after| == |before| && from <= x <= |before|
    && (forall k :: 0 <= k < from ==> after[k] == before[k])
    && (forall k :: from <= k < x ==> after[k] == if k + shift < |before| then before[k + shift] else EMPTY)
    && (forall k :: x <= k < |before| ==> after[k] == before[k])
  }

  lemma {:induction false} Shifted(before: seq<Contig>, after: seq<Contig>, from: nat, shift: nat, used: nat)
    requires |after| == |before| && from <= used && used + shift <= |before|
    requires forall k :: from <= k < used ==> after[k] == before[k + shift]
    ensures after[from..used] == before[from + shift..used + shift]
  {
  }

  /** One step of the coalescing loop. */
  ghost predicate Absorbs(c: Contig, u: seq<Contig>, j: nat, end: nat, goal: seq<Contig>) {
    j <= |u| && goal == Absorb(c, u[j..], end)
  }

  lemma {:induction false} AbsorbNext(c: Contig, u: seq<Contig>, j: nat, end: nat, goal: seq<Contig>)
    requires j < |u| && end >= c.Total() + u[j].hole && Absorbs(c, u, j, end, goal)
    ensures Absorbs(Contig(c.hole, c.data + u[j].Total()), u, j + 1, end, goal)
  {
    assert u[j..][0] == u[j] && u[j..][1..] == u[j + 1..];
  }

  lemma {:induction false} InsertLast(u: seq<Contig>, off: nat, size: nat)
    requires size > 0
    ensures u[..|u|] + Insert(u[|u|..], off, size) == u + [Contig(off, size)]
  {
  }

  /** A range that meets contig `i` makes that contig grow. */
  lemma {:induction false} InsertMeets(u: seq<Contig>, i: nat, off: nat, size: nat)
    requires i < |u| && size > 0 && off <= u[i].Total() && off + size >= u[i].hole
    ensures var hole := Min(off, u[i].hole);
            Insert(u[i..], off, size) == Absorb(Contig(hole, u[i].Total() - hole), u[i + 1..], off + size)
  {
    assert u[i..][0] == u[i] && u[i..][1..] == u[i + 1..];
  }

  /** The iterator behind `iter_data`. */
  class AssemblerIter {
    const assembler: Assembler
    const offset: nat
    var index: nat
    var left: nat
    var right: nat

    /** What is still to come, as a list of ranges. */
    ghost function Pending(): seq<(nat, nat)>
      requires assembler.Valid()
      reads this, assembler, assembler.contigs
    {
      RangesAfter(assembler.List(), index, left + offset)
    }

    constructor (assembler: Assembler, offset: nat)
      requires assembler.Valid()
      ensures this.assembler == assembler && this.offset == offset
      ensures index == 0 && Pending() == Ranges(assembler.List(), offset)
    {
      this.assembler := assembler;
      this.offset := offset;
      index, left, right := 0, 0, 0;
      new;
      assert assembler.List()[0..] == assembler.List();
    }

    method Next() returns (r: Option<(nat, nat)>)
      requires assembler.Valid() && index <= assembler.contigs.Length
      modifies this
      ensures index <= assembler.contigs.Length
      ensures old(Pending()) == [] ==> r == None && Pending() == []
      ensures old(Pending()) != [] ==> r == Some(old(Pending())[0]) && Pending() == old(Pending())[1..]
    {
      ghost var u := assembler.List();
      ghost var pending := Pending();
      while index < assembler.contigs.Length
        invariant index <= assembler.contigs.Length && RangesAfter(u, index, left + offset) == pending
      {
        var contig := assembler.contigs[index];
        assert index < |u| ==> contig == u[index];
        RangesStep(u, index, left + offset);
        left := left + contig.hole;
        right := left + contig.data;
        index := index + 1;
        if left < right {
          r := Some((left + offset, right + offset));
          left := right;
          return;
        }
        assert pending == [];
      }
      r := None;
    }
  }
}
