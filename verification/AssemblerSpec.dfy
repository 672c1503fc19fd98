/**
  The reassembly tracker as a value: a list of (hole, data) pairs that denotes a set of offsets.

  `Insert`, `RemoveFront` and `AddThenRemoveFront` are what `Assembler::add`, `remove_front` and
  `add_then_remove_front` do to the used slots; the class in AssemblerArray.dfy is proved to do exactly
  this in place. The lemmas here say what the list operations mean for the denoted set.
 */
module AssemblerSpec {
  import opened Options

  /** A stretch of absent data followed by a stretch of present data. */
  datatype Contig = Contig(hole: nat, data: nat) {
    function Total(): nat {
      hole + data
    }
  }

  const EMPTY := Contig(0, 0)

  /** Every contig has data, and only the first may start without a hole. */
  predicate Canonical(u: seq<Contig>) {
    && (forall i :: 0 <= i < |u| ==> u[i].data > 0)
    && (forall i :: 1 <= i < |u| ==> u[i].hole > 0)
  }

  /** Offset `x` is marked as present. */
  predicate Covers(u: seq<Contig>, x: int) {
    |u| > 0 && (u[0].hole <= x < u[0].Total() || Covers(u[1..], x - u[0].Total()))
  }

  /** One past the last offset the list speaks about. */
  function Extent(u: seq<Contig>): nat {
    if |u| == 0 then 0 else u[0].Total() + Extent(u[1..])
  }

  /** The denoted set of offsets. */
  ghost function Denote(u: seq<Contig>): set<int> {
    set x | 0 <= x < Extent(u) && Covers(u, x)
  }

  predicate Within(x: int, offset: int, size: nat) {
    offset <= x < offset + size
  }

  ghost function Interval(offset: int, size: nat): set<int> {
    set x | offset <= x < offset + size && Within(x, offset, size)
  }

  /** The first offsets of the maximal runs of `s`; there is one per run. */
  ghost function RunStarts(s: set<int>): set<int> {
    set x | x in s && !Preceded(s, x)
  }

  ghost predicate Preceded(s: set<int>, x: int) {
    x - 1 in s
  }

  // ----- the operations on the used slots

  function Min(a: nat, b: nat): nat {
    if a < b then a else b
  }

  /** Grow `c` up to `end` (measured from the start of its hole), swallowing every contig it meets. */
  function Absorb(c: Contig, rest: seq<Contig>, end: nat): (r: seq<Contig>)
    ensures 1 <= |r| <= 1 + |rest|
    decreases |rest|
  {
    if |rest| > 0 && end >= c.Total() + rest[0].hole then
      Absorb(Contig(c.hole, c.data + rest[0].Total()), rest[1..], end)
    else if end > c.Total() then
      [Contig(c.hole, c.data + (end - c.Total()))] + ShrinkFirstHole(rest, end - c.Total())
    else
      [c] + rest
  }

  function ShrinkFirstHole(rest: seq<Contig>, amount: nat): (r: seq<Contig>)
    ensures |r| == |rest|
  {
    if |rest| == 0 || rest[0].hole < amount then rest
    else [Contig(rest[0].hole - amount, rest[0].data)] + rest[1..]
  }

  /** `Assembler::add` with as many slots as it takes. */
  function Insert(u: seq<Contig>, offset: nat, size: nat): seq<Contig>
    decreases |u|
  {
    if size == 0 then u
    else if |u| == 0 then [Contig(offset, size)]
    else if offset > u[0].Total() then [u[0]] + Insert(u[1..], offset - u[0].Total(), size)
    else if offset + size < u[0].hole then
      [Contig(offset, size), Contig(u[0].hole - (offset + size), u[0].data)] + u[1..]
    else
      var hole := Min(offset, u[0].hole);
      Absorb(Contig(hole, u[0].Total() - hole), u[1..], offset + size)
  }

  /** A range that starts past contig `i` leaves it alone. */
  lemma {:induction false} InsertSkips(u: seq<Contig>, i: nat, off: nat, size: nat)
    requires i < |u| && size > 0 && off > u[i].Total()
    ensures u[..i] + Insert(u[i..], off, size) == u[..i + 1] + Insert(u[i + 1..], off - u[i].Total(), size)
  {
    var x := Insert(u[i + 1..], off - u[i].Total(), size);
    assert u[i..][0] == u[i] && u[i..][1..] == u[i + 1..];
    assert Insert(u[i..], off, size) == [u[i]] + x;
    MoveAcross(u, i, x);
  }

  lemma {:induction false} MoveAcross(u: seq<Contig>, i: nat, x: seq<Contig>)
    requires i < |u|
    ensures u[..i] + ([u[i]] + x) == u[..i + 1] + x
  {
    assert u[..i + 1] == u[..i] + [u[i]];
  }

  function PeekFront(u: seq<Contig>): nat {
    if |u| == 0 || u[0].hole != 0 then 0 else u[0].data
  }

  function RemoveFront(u: seq<Contig>): seq<Contig> {
    if |u| == 0 || u[0].hole != 0 then u else u[1..]
  }

  /** `Assembler::add_then_remove_front` with `slots` slots: the new list and the stripped length. */
  function AddThenRemoveFront(u: seq<Contig>, slots: nat, offset: nat, size: nat): Option<(seq<Contig>, nat)> {
    var v := Insert(u, offset, size);
    if offset != 0 && |v| > slots then None else Some((RemoveFront(v), PeekFront(v)))
  }

  /** What `iter_data` yields: the data ranges, shifted by `base`. */
  function Ranges(u: seq<Contig>, base: nat): seq<(nat, nat)> {
    if |u| == 0 then []
    else [(base + u[0].hole, base + u[0].Total())] + Ranges(u[1..], base + u[0].Total())
  }

  // ----- canonical form is kept

  lemma {:induction false} AbsorbCanonical(c: Contig, rest: seq<Contig>, end: nat)
    requires c.data > 0 && Canonical(rest) && (|rest| > 0 ==> rest[0].hole > 0)
    ensures Canonical(Absorb(c, rest, end))
    ensures Absorb(c, rest, end)[0].hole == c.hole
    decreases |rest|
  {
    if |rest| > 0 && end >= c.Total() + rest[0].hole {
      AbsorbCanonical(Contig(c.hole, c.data + rest[0].Total()), rest[1..], end);
    }
  }

  lemma {:induction false} ConsCanonical(c: Contig, rest: seq<Contig>)
    requires c.data > 0 && Canonical(rest) && (|rest| > 0 ==> rest[0].hole > 0)
    ensures Canonical([c] + rest)
  {
  }

  lemma {:induction false} SplitCanonical(u: seq<Contig>, offset: nat, size: nat)
    requires Canonical(u) && |u| > 0 && size > 0 && offset + size < u[0].hole
    ensures Canonical([Contig(offset, size), Contig(u[0].hole - (offset + size), u[0].data)] + u[1..])
  {
    var v := [Contig(offset, size), Contig(u[0].hole - (offset + size), u[0].data)] + u[1..];
    forall i | 0 <= i < |v|
      ensures v[i].data > 0 && (i > 0 ==> v[i].hole > 0)
    {
      if i >= 2 {
        assert v[i] == u[i - 1];
      }
    }
  }

  lemma {:induction false} InsertCanonical(u: seq<Contig>, offset: nat, size: nat)
    requires Canonical(u)
    ensures Canonical(Insert(u, offset, size))
    ensures |u| > 0 && u[0].hole > 0 && offset > 0 ==> Insert(u, offset, size)[0].hole > 0
    ensures |u| == 0 && size > 0 ==> Insert(u, offset, size)[0].hole == offset
    ensures |Insert(u, offset, size)| <= |u| + 1
    ensures size > 0 && offset == 0 && |u| > 0 && size >= u[0].hole ==> |Insert(u, offset, size)| <= |u|
    decreases |u|
  {
    if size == 0 || |u| == 0 {
    } else if offset > u[0].Total() {
      var v := Insert(u[1..], offset - u[0].Total(), size);
      InsertCanonical(u[1..], offset - u[0].Total(), size);
      ConsCanonical(u[0], v);
    } else if offset + size < u[0].hole {
      SplitCanonical(u, offset, size);
    } else {
      var hole := Min(offset, u[0].hole);
      AbsorbCanonical(Contig(hole, u[0].Total() - hole), u[1..], offset + size);
    }
  }

  // ----- what the operations mean

  lemma {:induction false} CoversRange(u: seq<Contig>, x: int)
    requires Covers(u, x)
    ensures 0 <= x < Extent(u)
    decreases |u|
  {
    if !(u[0].hole <= x < u[0].Total()) {
      CoversRange(u[1..], x - u[0].Total());
    }
  }

  lemma {:induction false} InDenote(u: seq<Contig>, x: int)
    ensures x in Denote(u) <==> Covers(u, x)
  {
    if Covers(u, x) {
      CoversRange(u, x);
    }
  }

  lemma {:induction false} CoversCons(c: Contig, rest: seq<Contig>, x: int)
    ensures Covers([c] + rest, x) <==> c.hole <= x < c.Total() || Covers(rest, x - c.Total())
  {
    assert ([c] + rest)[1..] == rest;
  }

  lemma {:induction false} CoversHead(rest: seq<Contig>, y: int)
    requires |rest| > 0
    ensures Covers(rest, y) <==> rest[0].hole <= y < rest[0].Total() || Covers(rest[1..], y - rest[0].Total())
  {
  }

  lemma {:induction false} ShrinkCovers(rest: seq<Contig>, grow: nat, y: int)
    requires |rest| > 0 ==> grow <= rest[0].hole
    ensures Covers(ShrinkFirstHole(rest, grow), y) <==> Covers(rest, y + grow)
  {
    if |rest| > 0 {
      CoversCons(Contig(rest[0].hole - grow, rest[0].data), rest[1..], y);
    }
  }

  lemma {:induction false} AbsorbCovers(c: Contig, rest: seq<Contig>, end: nat, x: int)
    requires Canonical(rest)
    ensures Covers(Absorb(c, rest, end), x) <==> Covers([c] + rest, x) || c.hole <= x < end
    decreases |rest|
  {
    CoversCons(c, rest, x);
    var y := x - c.Total();
    if |rest| > 0 && end >= c.Total() + rest[0].hole {
      var d := Contig(c.hole, c.data + rest[0].Total());
      AbsorbCovers(d, rest[1..], end, x);
      CoversCons(d, rest[1..], x);
      CoversHead(rest, y);
    } else if end > c.Total() {
      var grow := end - c.Total();
      CoversCons(Contig(c.hole, c.data + grow), ShrinkFirstHole(rest, grow), x);
      ShrinkCovers(rest, grow, y - grow);
      if Covers(rest, y) {
        CoversRange(rest, y);
      }
    }
  }

  /** `Insert` is set union with the added range. */
  lemma {:induction false} InsertCovers(u: seq<Contig>, offset: nat, size: nat, x: int)
    requires Canonical(u)
    ensures Covers(Insert(u, offset, size), x) <==> Covers(u, x) || offset <= x < offset + size
    decreases |u|
  {
    if size == 0 {
    } else if |u| == 0 {
      CoversCons(Contig(offset, size), [], x);
      assert [Contig(offset, size)] + [] == [Contig(offset, size)];
    } else if offset > u[0].Total() {
      var d := u[0].Total();
      InsertCovers(u[1..], offset - d, size, x - d);
      CoversCons(u[0], Insert(u[1..], offset - d, size), x);
    } else if offset + size < u[0].hole {
      SplitCovers(u, offset, size, x);
    } else {
      MeetCovers(u, offset, size, x);
    }
  }

  /** The range lies inside the first hole. */
  lemma {:induction false} SplitCovers(u: seq<Contig>, offset: nat, size: nat, x: int)
    requires |u| > 0 && offset + size < u[0].hole
    ensures var v := [Contig(offset, size), Contig(u[0].hole - (offset + size), u[0].data)] + u[1..];
            Covers(v, x) <==> Covers(u, x) || offset <= x < offset + size
  {
    var a, b := Contig(offset, size), Contig(u[0].hole - (offset + size), u[0].data);
    assert [a, b] + u[1..] == [a] + ([b] + u[1..]);
    CoversCons(a, [b] + u[1..], x);
    CoversCons(b, u[1..], x - a.Total());
  }

  /** The range meets the first contig. */
  lemma {:induction false} MeetCovers(u: seq<Contig>, offset: nat, size: nat, x: int)
    requires Canonical(u) && |u| > 0 && offset <= u[0].Total() && offset + size >= u[0].hole
    ensures var hole := Min(offset, u[0].hole);
            var v := Absorb(Contig(hole, u[0].Total() - hole), u[1..], offset + size);
            Covers(v, x) <==> Covers(u, x) || offset <= x < offset + size
  {
    var c := Contig(Min(offset, u[0].hole), u[0].Total() - Min(offset, u[0].hole));
    AbsorbCovers(c, u[1..], offset + size, x);
    CoversCons(c, u[1..], x);
  }

  lemma {:induction false} InsertCoversAll(u: seq<Contig>, offset: nat, size: nat)
    requires Canonical(u)
    ensures forall x: int :: Covers(Insert(u, offset, size), x) <==> Covers(u, x) || offset <= x < offset + size
  {
    forall x: int
      ensures Covers(Insert(u, offset, size), x) <==> Covers(u, x) || offset <= x < offset + size
    {
      InsertCovers(u, offset, size, x);
    }
  }

  lemma {:induction false} InsertDenotesUnion(u: seq<Contig>, offset: nat, size: nat)
    requires Canonical(u)
    ensures Denote(Insert(u, offset, size)) == Denote(u) + Interval(offset, size)
  {
    var v := Insert(u, offset, size);
    forall x: int
      ensures x in Denote(v) <==> x in Denote(u) + Interval(offset, size)
    {
      InDenote(v, x);
      InDenote(u, x);
      InsertCovers(u, offset, size, x);
    }
  }

  // ----- canonicity: the list is determined by the set

  /** Just past the data of its first contig a canonical list has nothing. */
  lemma {:induction false} GapAfterFirst(u: seq<Contig>)
    requires Canonical(u) && |u| > 0
    ensures !Covers(u, u[0].Total())
  {
    if |u| > 1 {
      FirstHoleNotCovered(u[1..], 0);
    }
  }

  lemma {:induction false} FirstHoleNotCovered(u: seq<Contig>, x: int)
    requires |u| > 0 && x < u[0].hole
    ensures !Covers(u, x)
  {
    if Covers(u[1..], x - u[0].Total()) {
      CoversRange(u[1..], x - u[0].Total());
    }
  }

  lemma {:induction false} EmptyIfUncovered(u: seq<Contig>)
    requires Canonical(u) && forall x: int :: 0 <= x ==> !Covers(u, x)
    ensures u == []
  {
    if |u| > 0 {
      var x := u[0].hole;
      assert u[0].hole <= x < u[0].Total();
      assert Covers(u, x);
    }
  }

  /** If `v` covers everything `u` does, its first data starts no later. */
  lemma {:induction false} FirstHoleCompare(u: seq<Contig>, v: seq<Contig>)
    requires Canonical(u) && Canonical(v) && |u| > 0
    requires forall x: int :: Covers(u, x) ==> Covers(v, x)
    ensures |v| > 0 && v[0].hole <= u[0].hole
  {
    assert Covers(u, u[0].hole);
    assert Covers(v, u[0].hole);
    if u[0].hole < v[0].hole {
      FirstHoleNotCovered(v, u[0].hole);
    }
  }

  lemma {:induction false} FirstDataCompare(u: seq<Contig>, v: seq<Contig>)
    requires Canonical(u) && Canonical(v) && |u| > 0 && |v| > 0
    requires forall x: int :: Covers(u, x) ==> Covers(v, x)
    requires u[0].hole == v[0].hole
    ensures u[0].data <= v[0].data
  {
    if u[0].data > v[0].data {
      GapAfterFirst(v);
      assert Covers(u, v[0].Total());
    }
  }

  /** Two well-formed trackers that denote the same set are the same list. */
  lemma {:induction false} CanonicalUnique(u: seq<Contig>, v: seq<Contig>)
    requires Canonical(u) && Canonical(v)
    requires forall x: int :: Covers(u, x) <==> Covers(v, x)
    ensures u == v
    decreases |u|
  {
    if |u| == 0 {
      if |v| > 0 {
        FirstHoleCompare(v, u);
      }
    } else {
      FirstHoleCompare(u, v);
      FirstHoleCompare(v, u);
      FirstDataCompare(u, v);
      FirstDataCompare(v, u);
      assert u[0] == v[0];
      forall x: int
        ensures Covers(u[1..], x) <==> Covers(v[1..], x)
      {
        TailCovers(u, v, x);
      }
      CanonicalUnique(u[1..], v[1..]);
      assert u == [u[0]] + u[1..] && v == [v[0]] + v[1..];
    }
  }

  lemma {:induction false} TailCovers(u: seq<Contig>, v: seq<Contig>, x: int)
    requires |u| > 0 && |v| > 0 && u[0] == v[0]
    requires forall y: int :: Covers(u, y) <==> Covers(v, y)
    ensures Covers(u[1..], x) <==> Covers(v[1..], x)
  {
    if x < 0 {
      if Covers(u[1..], x) { CoversRange(u[1..], x); }
      if Covers(v[1..], x) { CoversRange(v[1..], x); }
    } else {
      assert Covers(u, x + u[0].Total()) <==> Covers(v, x + u[0].Total());
    }
  }

  lemma {:induction false} DenoteUnique(u: seq<Contig>, v: seq<Contig>)
    requires Canonical(u) && Canonical(v) && Denote(u) == Denote(v)
    ensures u == v
  {
    forall x: int
      ensures Covers(u, x) <==> Covers(v, x)
    {
      InDenote(u, x);
      InDenote(v, x);
    }
    CanonicalUnique(u, v);
  }

  /** Additions commute: any order of successful additions ends in the same tracker. */
  lemma {:induction false} InsertCommutes(u: seq<Contig>, o1: nat, s1: nat, o2: nat, s2: nat)
    requires Canonical(u)
    ensures Insert(Insert(u, o1, s1), o2, s2) == Insert(Insert(u, o2, s2), o1, s1)
  {
    InsertCanonical(u, o1, s1);
    InsertCanonical(u, o2, s2);
    var v, w := Insert(u, o1, s1), Insert(u, o2, s2);
    InsertCanonical(v, o2, s2);
    InsertCanonical(w, o1, s1);
    InsertDenotesUnion(u, o1, s1);
    InsertDenotesUnion(u, o2, s2);
    InsertDenotesUnion(v, o2, s2);
    InsertDenotesUnion(w, o1, s1);
    assert Denote(Insert(v, o2, s2)) == Denote(Insert(w, o1, s1));
    DenoteUnique(Insert(v, o2, s2), Insert(w, o1, s1));
  }

  /** A whole history of additions, each an (offset, size) pair. */
  function InsertAll(u: seq<Contig>, adds: seq<(nat, nat)>): seq<Contig>
    decreases |adds|
  {
    if |adds| == 0 then u else InsertAll(Insert(u, adds[0].0, adds[0].1), adds[1..])
  }

  ghost predicate CoveredBy(adds: seq<(nat, nat)>, x: int) {
    exists i :: 0 <= i < |adds| && adds[i].0 <= x < adds[i].0 + adds[i].1
  }

  lemma {:induction false} InsertAllCovers(u: seq<Contig>, adds: seq<(nat, nat)>, x: int)
    requires Canonical(u)
    ensures Canonical(InsertAll(u, adds))
    ensures Covers(InsertAll(u, adds), x) <==> Covers(u, x) || CoveredBy(adds, x)
    decreases |adds|
  {
    if |adds| > 0 {
      var v := Insert(u, adds[0].0, adds[0].1);
      InsertCanonical(u, adds[0].0, adds[0].1);
      InsertCovers(u, adds[0].0, adds[0].1, x);
      InsertAllCovers(v, adds[1..], x);
      var tail := adds[1..];
      if CoveredBy(tail, x) {
        var i :| 0 <= i < |tail| && tail[i].0 <= x < tail[i].0 + tail[i].1;
        assert adds[i + 1] == tail[i];
      }
      if CoveredBy(adds, x) && !(adds[0].0 <= x < adds[0].0 + adds[0].1) {
        var i :| 0 <= i < |adds| && adds[i].0 <= x < adds[i].0 + adds[i].1;
        assert tail[i - 1] == adds[i];
      }
    }
  }

  /** Two histories that cover the same offsets leave the same tracker, whatever their order and overlaps. */
  lemma {:induction false} InsertAllOrderIrrelevant(adds: seq<(nat, nat)>, adds': seq<(nat, nat)>)
    requires forall x: int :: CoveredBy(adds, x) <==> CoveredBy(adds', x)
    ensures InsertAll([], adds) == InsertAll([], adds')
  {
    var u, v := InsertAll([], adds), InsertAll([], adds');
    InsertAllCovers([], adds, 0);
    InsertAllCovers([], adds', 0);
    forall x: int
      ensures Covers(u, x) <==> Covers(v, x)
    {
      InsertAllCovers([], adds, x);
      InsertAllCovers([], adds', x);
    }
    CanonicalUnique(u, v);
  }

  // ----- the number of slots needed

  /** The denoted set when the list starts at `base`. */
  ghost function DenoteFrom(u: seq<Contig>, base: int): set<int> {
    set x | base <= x < base + Extent(u) && CoversFrom(u, base, x)
  }

  predicate CoversFrom(u: seq<Contig>, base: int, x: int) {
    Covers(u, x - base)
  }

  lemma {:induction false} InDenoteFrom(u: seq<Contig>, base: int, x: int)
    ensures x in DenoteFrom(u, base) <==> Covers(u, x - base)
  {
    if Covers(u, x - base) {
      CoversRange(u, x - base);
    }
  }

  lemma {:induction false} StartsCons(u: seq<Contig>, base: int)
    requires Canonical(u) && |u| > 0
    ensures var tail := RunStarts(DenoteFrom(u[1..], base + u[0].Total()));
            && RunStarts(DenoteFrom(u, base)) == {base + u[0].hole} + tail
            && base + u[0].hole !in tail
  {
    var d := u[0].Total();
    var all, tail := DenoteFrom(u, base), DenoteFrom(u[1..], base + d);
    forall x: int
      ensures x in RunStarts(all) <==> x == base + u[0].hole || x in RunStarts(tail)
    {
      InDenoteFrom(u, base, x);
      InDenoteFrom(u, base, x - 1);
      InDenoteFrom(u[1..], base + d, x);
      InDenoteFrom(u[1..], base + d, x - 1);
      TailStart(u, x - base);
    }
  }

  lemma {:induction false} TailStart(u: seq<Contig>, x: int)
    requires Canonical(u) && |u| > 0
    ensures Covers(u, x) && !Covers(u, x - 1) <==>
            x == u[0].hole || (Covers(u[1..], x - u[0].Total()) && !Covers(u[1..], x - u[0].Total() - 1))
  {
    var d := u[0].Total();
    var tail := u[1..];
    FirstHoleNotCovered(u, u[0].hole - 1);
    if Covers(tail, x - d) {
      CoversRange(tail, x - d);
      if x == d {
        GapAfterFirst(u);
      }
    }
    if Covers(tail, x - d - 1) {
      CoversRange(tail, x - d - 1);
    }
  }

  lemma {:induction false} SlotsAreRunsFrom(u: seq<Contig>, base: int)
    requires Canonical(u)
    ensures |RunStarts(DenoteFrom(u, base))| == |u|
    decreases |u|
  {
    if |u| == 0 {
      assert DenoteFrom(u, base) == {};
      assert RunStarts({}) == {};
    } else {
      SlotsAreRunsFrom(u[1..], base + u[0].Total());
      StartsCons(u, base);
    }
  }

  /** A canonical list uses exactly one slot per maximal run of the set it denotes. */
  lemma {:induction false} SlotsAreRuns(u: seq<Contig>)
    requires Canonical(u)
    ensures |RunStarts(Denote(u))| == |u|
  {
    SlotsAreRunsFrom(u, 0);
    assert Denote(u) == DenoteFrom(u, 0);
  }

  // ----- taking the front run

  /** `PeekFront` is the length of the maximal run at offset 0, and `RemoveFront` strips it and shifts down. */
  lemma {:induction false} RemoveFrontMeaning(u: seq<Contig>)
    requires Canonical(u)
    ensures Canonical(RemoveFront(u)) && PeekFront(RemoveFront(u)) == 0
    ensures forall x: int :: 0 <= x < PeekFront(u) ==> Covers(u, x)
    ensures !Covers(u, PeekFront(u))
    ensures forall x: int :: 0 <= x ==> (Covers(RemoveFront(u), x) <==> Covers(u, x + PeekFront(u)))
    ensures Extent(u) == PeekFront(u) + Extent(RemoveFront(u))
  {
    if |u| > 0 {
      if u[0].hole == 0 {
        GapAfterFirst(u);
        BeyondFirst(u);
        assert RemoveFront(u) == u[1..] && PeekFront(u) == u[0].Total();
      } else {
        FirstHoleNotCovered(u, 0);
      }
    }
  }

  lemma {:induction false} BeyondFirst(u: seq<Contig>)
    requires Canonical(u) && |u| > 0
    ensures Canonical(u[1..]) && PeekFront(u[1..]) == 0
    ensures forall x: int :: 0 <= x ==> (Covers(u[1..], x) <==> Covers(u, x + u[0].Total()))
  {
  }

  /** `v` and `n` are union, then strip the maximal run at offset 0 (of length `n`) and shift down. */
  ghost predicate IsUnionStripped(u: seq<Contig>, offset: nat, size: nat, v: seq<Contig>, n: nat) {
    && (forall x: int :: 0 <= x < n ==> Covers(u, x) || offset <= x < offset + size)
    && !(Covers(u, n) || offset <= n < offset + size)
    && (forall x: int :: 0 <= x ==> (Covers(v, x) <==> Covers(u, x + n) || offset <= x + n < offset + size))
  }

  lemma {:induction false} UnionStripped(u: seq<Contig>, offset: nat, size: nat)
    requires Canonical(u)
    ensures var w := Insert(u, offset, size); IsUnionStripped(u, offset, size, RemoveFront(w), PeekFront(w))
  {
    var w := Insert(u, offset, size);
    InsertCanonical(u, offset, size);
    InsertCoversAll(u, offset, size);
    StripUnion(u, offset, size, w);
  }

  lemma {:induction false} StripUnion(u: seq<Contig>, offset: nat, size: nat, w: seq<Contig>)
    requires Canonical(w) && forall x: int :: Covers(w, x) <==> Covers(u, x) || offset <= x < offset + size
    ensures IsUnionStripped(u, offset, size, RemoveFront(w), PeekFront(w))
  {
    RemoveFrontMeaning(w);
  }

  /**
    `add_then_remove_front` never fails at offset 0; otherwise it fails exactly when the union needs more
    runs than there are slots. When it succeeds it is union, then strip the run at 0 and shift down.
   */
  lemma {:induction false} AddThenRemoveFrontMeaning(u: seq<Contig>, slots: nat, offset: nat, size: nat)
    requires Canonical(u) && |u| <= slots && slots > 0
    ensures var r := AddThenRemoveFront(u, slots, offset, size);
            && (r.None? <==> offset != 0 && |RunStarts(Denote(u) + Interval(offset, size))| > slots)
            && (r.Some? ==>
                  && Canonical(r.value.0) && |r.value.0| <= slots && PeekFront(r.value.0) == 0
                  && IsUnionStripped(u, offset, size, r.value.0, r.value.1))
  {
    var w := Insert(u, offset, size);
    InsertCanonical(u, offset, size);
    InsertDenotesUnion(u, offset, size);
    SlotsAreRuns(w);
    RemoveFrontMeaning(w);
    UnionStripped(u, offset, size);
    FrontSlotFreed(u, slots, offset, size);
  }

  lemma {:induction false} FrontSlotFreed(u: seq<Contig>, slots: nat, offset: nat, size: nat)
    requires Canonical(u) && |u| <= slots && slots > 0
    ensures offset == 0 ==> |RemoveFront(Insert(u, offset, size))| <= slots
  {
    InsertCanonical(u, offset, size);
  }

  /** What stays is canonical and has a slot, and together with what was stripped reaches no further than before. */
  lemma {:induction false} AddThenRemoveFrontFits(u: seq<Contig>, slots: nat, offset: nat, size: nat)
    requires Canonical(u) && |u| <= slots && slots > 0
    ensures var r := AddThenRemoveFront(u, slots, offset, size);
            && (r.None? ==> offset != 0)
            && (r.Some? ==>
                  && Canonical(r.value.0) && |r.value.0| <= slots
                  && r.value.1 + Extent(r.value.0) <= (if offset + size > Extent(u) then offset + size else Extent(u)))
  {
    InsertCanonical(u, offset, size);
    InsertExtent(u, offset, size);
    RemoveFrontMeaning(Insert(u, offset, size));
    FrontSlotFreed(u, slots, offset, size);
  }

  // ----- extents

  lemma {:induction false} ExtentCons(c: Contig, rest: seq<Contig>)
    ensures Extent([c] + rest) == c.Total() + Extent(rest)
  {
    assert ([c] + rest)[1..] == rest;
  }

  lemma {:induction false} ShrinkExtent(rest: seq<Contig>, grow: nat)
    requires |rest| > 0 ==> grow <= rest[0].hole
    ensures Extent(ShrinkFirstHole(rest, grow)) == if |rest| == 0 then 0 else Extent(rest) - grow
  {
    if |rest| > 0 {
      ExtentCons(Contig(rest[0].hole - grow, rest[0].data), rest[1..]);
    }
  }

  lemma {:induction false} AbsorbExtent(c: Contig, rest: seq<Contig>, end: nat)
    ensures Extent(Absorb(c, rest, end)) <= (if end > c.Total() + Extent(rest) then end else c.Total() + Extent(rest))
    decreases |rest|
  {
    if |rest| > 0 && end >= c.Total() + rest[0].hole {
      AbsorbExtent(Contig(c.hole, c.data + rest[0].Total()), rest[1..], end);
    } else if end > c.Total() {
      var grow := end - c.Total();
      ExtentCons(Contig(c.hole, c.data + grow), ShrinkFirstHole(rest, grow));
      ShrinkExtent(rest, grow);
    } else {
      ExtentCons(c, rest);
    }
  }

  /** An addition never reaches past the old extent or its own end. */
  lemma {:induction false} InsertExtent(u: seq<Contig>, offset: nat, size: nat)
    ensures Extent(Insert(u, offset, size)) <= (if offset + size > Extent(u) then offset + size else Extent(u))
    decreases |u|
  {
    if size == 0 || |u| == 0 {
    } else if offset > u[0].Total() {
      var v := Insert(u[1..], offset - u[0].Total(), size);
      InsertExtent(u[1..], offset - u[0].Total(), size);
      assert ([u[0]] + v)[1..] == v;
    } else if offset + size < u[0].hole {
      var a, b := Contig(offset, size), Contig(u[0].hole - (offset + size), u[0].data);
      assert ([a, b] + u[1..])[1..] == [b] + u[1..];
      assert ([b] + u[1..])[1..] == u[1..];
    } else {
      var c := Contig(Min(offset, u[0].hole), u[0].Total() - Min(offset, u[0].hole));
      AbsorbExtent(c, u[1..], offset + size);
    }
  }

  // ----- the listed ranges

  /** The listed ranges are exactly the maximal runs, ascending and never touching, shifted by `base`. */
  lemma {:induction false} RangesAreRuns(u: seq<Contig>, base: nat)
    requires Canonical(u)
    ensures var r := Ranges(u, base);
            && |r| == |u|
            && (forall i :: 0 <= i < |r| ==> base <= r[i].0 < r[i].1)
            && (|u| > 0 && u[0].hole > 0 ==> forall i :: 0 <= i < |r| ==> base < r[i].0)
            && (forall i, j :: 0 <= i < j < |r| ==> r[i].1 < r[j].0)
            && (forall x: int :: Covers(u, x) <==> InRanges(r, x + base))
    decreases |u|
  {
    if |u| > 0 {
      var d := u[0].Total();
      RangesAreRuns(u[1..], base + d);
      var r, tail := Ranges(u, base), Ranges(u[1..], base + d);
      forall x: int
        ensures Covers(u, x) <==> InRanges(r, x + base)
      {
        assert Covers(u[1..], x - d) <==> InRanges(tail, x - d + (base + d));
        InRangesCons(r[0], tail, x + base);
      }
    }
  }

  ghost predicate InRanges(r: seq<(nat, nat)>, x: int) {
    exists i :: 0 <= i < |r| && r[i].0 <= x < r[i].1
  }

  lemma {:induction false} InRangesCons(first: (nat, nat), tail: seq<(nat, nat)>, x: int)
    ensures InRanges([first] + tail, x) <==> first.0 <= x < first.1 || InRanges(tail, x)
  {
    var r := [first] + tail;
    if InRanges(tail, x) {
      var i :| 0 <= i < |tail| && tail[i].0 <= x < tail[i].1;
      assert r[i + 1] == tail[i];
    }
    if first.0 <= x < first.1 {
      assert r[0] == first;
    }
  }
}
