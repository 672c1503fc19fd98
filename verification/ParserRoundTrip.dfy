/**
  IPv6 text round trips (section 2.2 of RFC 4291): an address is spelled by giving a text of one to four
  hexadecimal digits for each group, in either case and with or without leading zeros.
 */
module ParserRoundTrip {
  import opened Options
  import opened Octets
  import opened ParserSpec

  // ----- spellings of numbers

  predicate IsDigits(t: Text, hex: bool) {
    forall i :: 0 <= i < |t| ==> DigitValue(t[i], hex).Some?
  }

  /** The value of a text of digits, on top of what came before. */
  function ValueFrom(t: Text, value: nat, hex: bool): nat {
    if |t| == 0 then value
    else ValueFrom(t[1..], value * Base(hex) + (if DigitValue(t[0], hex).Some? then DigitValue(t[0], hex).value
                                                else 0), hex)
  }

  /** `t` spells `value` with one to `max` digits. */
  predicate Spells(t: Text, value: nat, max: nat, hex: bool) {
    1 <= |t| <= max && IsDigits(t, hex) && ValueFrom(t, 0, hex) == value
  }

  lemma {:induction false} MoreDigitsReads(t: Text, r: Text, left: nat, value: nat, hex: bool)
    requires IsDigits(t, hex) && |t| <= left && (|t| == left || !StartsWithDigit(r, hex))
    ensures MoreDigits(t + r, left, value, hex) == (ValueFrom(t, value, hex), r)
    decreases |t|
  {
    if |t| == 0 {
      assert t + r == r;
    } else {
      assert (t + r)[1..] == t[1..] + r;
      MoreDigitsReads(t[1..], r, left - 1, value * Base(hex) + DigitValue(t[0], hex).value, hex);
    }
  }

  /** A spelled number followed by something that is no digit is read back, and nothing more. */
  lemma {:induction false} NumberReads(t: Text, r: Text, value: nat, max: nat, limit: nat, hex: bool)
    requires Spells(t, value, max, hex) && value < limit && !StartsWithDigit(r, hex)
    ensures Number(t + r, max, limit, hex) == Some((value, r))
  {
    assert (t + r)[1..] == t[1..] + r;
    assert (t + r)[0] == t[0];
    MoreDigitsReads(t[1..], r, max - 1, DigitValue(t[0], hex).value, hex);
  }

  // ----- a group is never mistaken for the start of a dotted quad

  lemma {:induction false} MoreDigitsStops(t: Text, r: Text, left: nat, value: nat)
    requires IsDigits(t, true) && (|r| > 0 ==> r[0] == COLON)
    ensures var rest := MoreDigits(t + r, left, value, false).1; !(|rest| > 0 && rest[0] == DOT)
    decreases left
  {
    var s := t + r;
    if left > 0 && StartsWithDigit(s, false) {
      assert |t| > 0;
      assert s[1..] == t[1..] + r;
      MoreDigitsStops(t[1..], r, left - 1, value * Base(false) + DigitValue(s[0], false).value);
    } else if |t| > 0 {
      assert s[0] == t[0];
    } else {
      assert s == r;
    }
  }

  lemma {:induction false} NotDotted(t: Text, r: Text, n: nat)
    requires IsDigits(t, true) && (|r| > 0 ==> r[0] == COLON) && n > 1
    ensures DottedOctets(t + r, n).None?
  {
    var s := t + r;
    if StartsWithDigit(s, false) {
      assert |t| > 0;
      assert s[1..] == t[1..] + r;
      MoreDigitsStops(t[1..], r, 2, DigitValue(s[0], false).value);
    }
  }

  /** What may follow a group: the end, a colon and another group, or a double colon. */
  ghost predicate Follows(s: Text) {
    s == [] || (s[0] == COLON && exists t, r :: IsRest(s[1..], t, r))
  }

  ghost predicate IsRest(s: Text, t: Text, r: Text) {
    IsDigits(t, true) && s == t + r && (|r| > 0 ==> r[0] == COLON)
  }

  lemma {:induction false} NotMapped(s: Text)
    requires Follows(s)
    ensures MappedPart(s).None? && !StartsWithDigit(s, true)
  {
    if s != [] {
      var t, r :| IsRest(s[1..], t, r);
      NotDotted(t, r, 4);
    }
  }

  // ----- one group at a time

  /** A colon in front of every group but the first. */
  function Lead(first: bool, t: Text): Text {
    if first then t else [COLON] + t
  }

  ghost predicate Word(t: Text, value: nat) {
    Spells(t, value, 4, true) && value < 0x10000
  }

  lemma {:induction false} LeadShape(first: bool, t: Text, s: Text, value: nat)
    requires Word(t, value)
    ensures var x := Lead(first, t) + s;
            !DoubleColon(x) && (if first then x == t + s else AfterChar(x, COLON) == Some(t + s))
  {
    var x := Lead(first, t) + s;
    if first {
      assert x[0] == t[0];
    } else {
      assert x[1] == t[0];
      assert x[1..] == t + s;
    }
  }

  /** Reading one group before the double colon. */
  lemma {:induction false} HeadStep(g: Groups, t: Text, value: nat, s: Text)
    requires g.Valid() && g.headLen < 8 && g.tailLen == 0 && Word(t, value) && Follows(s)
    ensures Part(Lead(g.headLen == 0, t) + s, g, false) ==
            Continue(s, g.(head := g.head[g.headLen := value], headLen := g.headLen + 1), false)
  {
    LeadShape(g.headLen == 0, t, s, value);
    NotMapped(s);
    NumberReads(t, s, value, 4, 0x10000, true);
  }

  /** Reading one group after the double colon. */
  lemma {:induction false} TailStep(g: Groups, t: Text, value: nat, s: Text)
    requires g.Valid() && 0 < g.headLen + g.tailLen && g.tailLen < 6 && Word(t, value) && Follows(s)
    ensures Part(Lead(false, t) + s, g, true) ==
            Continue(s, g.(tail := g.tail[g.tailLen := value], tailLen := g.tailLen + 1), true)
  {
    LeadShape(false, t, s, value);
    NotMapped(s);
    NumberReads(t, s, value, 4, 0x10000, true);
  }

  /** Reading the double colon together with the first group after it. */
  lemma {:induction false} GapStep(g: Groups, t: Text, value: nat, s: Text)
    requires g.Valid() && g.headLen < 7 && g.tailLen == 0 && Word(t, value) && Follows(s)
    ensures Part([COLON, COLON] + t + s, g, false) ==
            Continue(s, g.(tail := g.tail[0 := value], tailLen := 1), true)
  {
    var x := [COLON, COLON] + t + s;
    assert x[2..] == t + s;
    NotMapped(s);
    NumberReads(t, s, value, 4, 0x10000, true);
  }

  /** The double colon at the very end. */
  lemma {:induction false} GapEnd(g: Groups)
    requires g.Valid() && g.headLen < 7 && g.tailLen == 0
    ensures Part([COLON, COLON], g, false) == Continue([], g, true)
  {
    assert [COLON, COLON][2..] == [];
  }

  // ----- texts of several groups

  /** The texts spell the values, group by group. */
  ghost predicate Words(ts: seq<Text>, vs: seq<nat>) {
    |ts| == |vs| && forall i :: 0 <= i < |ts| ==> Word(ts[i], vs[i])
  }

  /** Groups separated by colons; with a leading colon unless they come first. */
  function Chain(ts: seq<Text>, first: bool): Text {
    if |ts| == 0 then [] else Lead(first, ts[0]) + Chain(ts[1..], false)
  }

  /** The text after a double colon. */
  function Ending(ts: seq<Text>): Text {
    if |ts| == 0 then [] else ts[0] + Chain(ts[1..], false)
  }

  function Put(a: seq<nat>, at: nat, vs: seq<nat>): seq<nat>
    requires at + |vs| <= |a|
  {
    a[..at] + vs + a[at + |vs|..]
  }

  lemma {:induction false} PutFirst(a: seq<nat>, at: nat, vs: seq<nat>)
    requires |vs| > 0 && at + |vs| <= |a|
    ensures Put(a[at := vs[0]], at + 1, vs[1..]) == Put(a, at, vs)
  {
  }

  lemma {:induction false} ColonFollows(t: Text, r: Text, value: nat)
    requires Word(t, value) && (|r| > 0 ==> r[0] == COLON)
    ensures Follows([COLON] + t + r) && ([COLON] + t + r)[0] == COLON
  {
    var s := [COLON] + t + r;
    assert s[1..] == t + r;
    assert IsRest(s[1..], t, r);
  }

  lemma {:induction false} GapFollows(r: Text)
    ensures Follows([COLON, COLON] + r)
  {
    var s := [COLON, COLON] + r;
    assert IsRest(s[1..], [], s[1..]);
  }

  /** A chain without its first group can follow it. */
  lemma {:induction false} ChainFollows(ts: seq<Text>, vs: seq<nat>, s: Text)
    requires Words(ts, vs) && Follows(s)
    ensures Follows(Chain(ts, false) + s)
    ensures |ts| > 0 ==> (Chain(ts, false) + s)[0] == COLON
  {
    if |ts| == 0 {
      assert Chain(ts, false) + s == s;
    } else {
      var r := Chain(ts[1..], false) + s;
      ChainUnfold(ts, false, s);
      RestStarts(ts[1..], s);
      ColonFollows(ts[0], r, vs[0]);
    }
  }

  lemma {:induction false} ChainUnfold(ts: seq<Text>, first: bool, s: Text)
    requires |ts| > 0
    ensures Chain(ts, first) + s == Lead(first, ts[0]) + (Chain(ts[1..], false) + s)
    ensures !first ==> Chain(ts, first) + s == [COLON] + ts[0] + (Chain(ts[1..], false) + s)
  {
  }

  lemma {:induction false} RestStarts(ts: seq<Text>, s: Text)
    requires |s| > 0 ==> s[0] == COLON
    ensures var r := Chain(ts, false) + s; |r| > 0 ==> r[0] == COLON
  {
    if |ts| == 0 {
      assert Chain(ts, false) + s == s;
    } else {
      ChainUnfold(ts, false, s);
    }
  }

  lemma {:induction false} FirstHead(ts: seq<Text>, vs: seq<nat>, g: Groups, s: Text)
    requires Words(ts, vs) && |ts| > 0 && Follows(s) && g.Valid() && g.tailLen == 0 && g.headLen < 8
    ensures var rest := Chain(ts[1..], false) + s;
            && Part(Chain(ts, g.headLen == 0) + s, g, false) ==
               Continue(rest, g.(head := g.head[g.headLen := vs[0]], headLen := g.headLen + 1), false)
            && (|ts| > 1 ==> |rest| > 0 && rest[0] == COLON)
  {
    ChainUnfold(ts, g.headLen == 0, s);
    ChainFollows(ts[1..], vs[1..], s);
    HeadStep(g, ts[0], vs[0], Chain(ts[1..], false) + s);
  }

  /** Reading the groups before the double colon, or all of them. */
  lemma {:induction false} HeadsRead(ts: seq<Text>, vs: seq<nat>, g: Groups, s: Text)
    requires Words(ts, vs) && |ts| > 0 && Follows(s)
    requires g.Valid() && g.tailLen == 0 && g.headLen + |ts| <= 8
    ensures Part(Chain(ts, g.headLen == 0) + s, g, false) ==
            Continue(s, g.(head := Put(g.head, g.headLen, vs), headLen := g.headLen + |ts|), false)
    decreases |ts|
  {
    var g1 := g.(head := g.head[g.headLen := vs[0]], headLen := g.headLen + 1);
    FirstHead(ts, vs, g, s);
    PutFirst(g.head, g.headLen, vs);
    if |ts| == 1 {
      HeadsEnd(ts, vs, g, s);
    } else {
      HeadsRead(ts[1..], vs[1..], g1, s);
      AtColon(Chain(ts[1..], false) + s, g1);
    }
  }

  lemma {:induction false} AtColon(s: Text, g: Groups)
    requires g.Valid() && g.headLen + g.tailLen <= 8 && |s| > 0 && s[0] == COLON
    ensures Continue(s, g, false) == Part(s, g, false)
  {
  }

  lemma {:induction false} HeadsEnd(ts: seq<Text>, vs: seq<nat>, g: Groups, s: Text)
    requires |ts| == 1 && |vs| == 1 && g.Valid() && g.headLen < 8
    ensures Chain(ts[1..], false) + s == s && Put(g.head, g.headLen, vs) == g.head[g.headLen := vs[0]]
  {
  }

  /** Reading the groups after the double colon. */
  lemma {:induction false} TailsRead(ts: seq<Text>, vs: seq<nat>, g: Groups)
    requires Words(ts, vs)
    requires g.Valid() && 0 < g.headLen + g.tailLen && g.tailLen + |ts| <= 6 && g.headLen + g.tailLen + |ts| <= 8
    ensures Continue(Chain(ts, false), g, true) ==
            Some((g.(tail := Put(g.tail, g.tailLen, vs), tailLen := g.tailLen + |ts|), []))
    decreases |ts|
  {
    if |ts| == 0 {
      assert Put(g.tail, g.tailLen, vs) == g.tail;
    } else {
      var rest := Chain(ts[1..], false);
      var g1 := g.(tail := g.tail[g.tailLen := vs[0]], tailLen := g.tailLen + 1);
      ChainFollows(ts[1..], vs[1..], []);
      assert rest + [] == rest;
      TailStep(g, ts[0], vs[0], rest);
      PutFirst(g.tail, g.tailLen, vs);
      TailsRead(ts[1..], vs[1..], g1);
    }
  }

  // ----- the round trips

  /** Eight groups separated by colons. */
  function FullText(ts: seq<Text>): Text {
    Chain(ts, true)
  }

  /** Groups, a double colon, groups. */
  function GapText(heads: seq<Text>, tails: seq<Text>): Text {
    Chain(heads, true) + ([COLON, COLON] + Ending(tails))
  }

  /** An address written in full is read back, to the last octet. */
  lemma {:induction false} FullRoundTrip(ts: seq<Text>, address: seq<nat>)
    requires |address| == 8 && Words(ts, address)
    ensures Ipv6Address(FullText(ts)) == Some(address)
  {
    HeadsRead(ts, address, START, []);
    assert Chain(ts, true) + [] == FullText(ts);
    assert Put(ZEROS, 0, address) == address;
    assert address[..8] + START.tail[..0] == address;
  }

  /** Reading a double colon and what follows it. */
  lemma {:induction false} GapRead(tails: seq<Text>, vs: seq<nat>, g: Groups)
    requires Words(tails, vs) && |tails| <= 6
    requires g.Valid() && g.tailLen == 0 && g.headLen < 7 && g.headLen + |tails| <= 8
    ensures Part([COLON, COLON] + Ending(tails), g, false) ==
            Some((g.(tail := Put(g.tail, 0, vs), tailLen := |tails|), []))
  {
    if |tails| == 0 {
      assert [COLON, COLON] + Ending(tails) == [COLON, COLON];
      GapEnd(g);
      assert Put(g.tail, 0, vs) == g.tail;
    } else {
      var rest := Chain(tails[1..], false);
      assert [COLON, COLON] + Ending(tails) == [COLON, COLON] + tails[0] + rest;
      ChainFollows(tails[1..], vs[1..], []);
      assert rest + [] == rest;
      GapStep(g, tails[0], vs[0], rest);
      TailsRead(tails[1..], vs[1..], g.(tail := g.tail[0 := vs[0]], tailLen := 1));
      PutFirst(g.tail, 0, vs);
    }
  }

  /** What stands before the double colon is read, and then the parser stands at the double colon. */
  lemma {:induction false} UpToGap(heads: seq<Text>, vs: seq<nat>, gap: Text)
    requires Words(heads, vs) && |heads| <= 8 && DoubleColon(gap)
    ensures Part(Chain(heads, true) + gap, START, false) ==
            Part(gap, START.(head := Put(ZEROS, 0, vs), headLen := |heads|), false)
  {
    assert gap == [COLON, COLON] + gap[2..];
    GapFollows(gap[2..]);
    if |heads| == 0 {
      assert Chain(heads, true) + gap == gap;
      assert Put(ZEROS, 0, vs) == ZEROS;
    } else {
      HeadsRead(heads, vs, START, gap);
    }
  }

  /** The address a gap stands for: zeros fill it up to eight groups. */
  function GapAddress(hs: seq<nat>, ts: seq<nat>): seq<nat>
    requires |hs| + |ts| <= 8
  {
    hs + seq(8 - |hs| - |ts|, _ => 0) + ts
  }

  lemma {:induction false} PutOnZeros(z: seq<nat>, hs: seq<nat>, n: nat)
    requires |hs| <= n <= |z| && forall i :: 0 <= i < |z| ==> z[i] == 0
    ensures Put(z, 0, hs)[..n] == hs + seq(n - |hs|, _ => 0)
  {
  }

  lemma {:induction false} PutFront(a: seq<nat>, vs: seq<nat>)
    requires |vs| <= |a|
    ensures Put(a, 0, vs)[..|vs|] == vs
  {
  }

  lemma {:induction false} JoinedGap(hs: seq<nat>, ts: seq<nat>)
    requires |hs| <= 6 && |ts| <= 6 && |hs| + |ts| <= 8
    ensures Join(Groups(Put(ZEROS, 0, hs), Put(START.tail, 0, ts), |hs|, |ts|)) == GapAddress(hs, ts)
  {
    PutOnZeros(ZEROS, hs, 8 - |ts|);
    PutFront(START.tail, ts);
  }

  lemma {:induction false} GapFits(heads: seq<Text>, hs: seq<nat>, tails: seq<Text>, ts: seq<nat>)
    requires Words(heads, hs) && Words(tails, ts) && |heads| <= 6 && |tails| <= 6 && |heads| + |tails| <= 8
    ensures Ipv6Address(GapText(heads, tails)) == Some(GapAddress(hs, ts))
  {
    UpToGap(heads, hs, [COLON, COLON] + Ending(tails));
    var g := START.(head := Put(ZEROS, 0, hs), headLen := |heads|);
    GapRead(tails, ts, g);
    JoinedGap(hs, ts);
  }

  lemma {:induction false} GapAfterSeven(heads: seq<Text>, hs: seq<nat>, tails: seq<Text>)
    requires Words(heads, hs) && 7 <= |heads| <= 8
    ensures Ipv6Address(GapText(heads, tails)) == None
  {
    UpToGap(heads, hs, [COLON, COLON] + Ending(tails));
  }

  /** A seventh group after the double colon is refused. */
  lemma {:induction false} TailsOverflow(ts: seq<Text>, vs: seq<nat>, g: Groups)
    requires Words(ts, vs) && g.Valid() && 0 < g.tailLen && g.tailLen + |ts| > 6
    ensures Continue(Chain(ts, false), g, true).None?
    decreases |ts|
  {
    if |ts| > 0 {
      var rest := Chain(ts[1..], false);
      ChainFollows(ts[1..], vs[1..], []);
      assert rest + [] == rest;
      if g.tailLen == 6 {
        LeadShape(false, ts[0], rest, vs[0]);
        NotMapped(rest);
        NumberReads(ts[0], rest, vs[0], 4, 0x10000, true);
      } else {
        TailStep(g, ts[0], vs[0], rest);
        TailsOverflow(ts[1..], vs[1..], g.(tail := g.tail[g.tailLen := vs[0]], tailLen := g.tailLen + 1));
      }
    }
  }

  lemma {:induction false} GapBeforeSeven(heads: seq<Text>, hs: seq<nat>, tails: seq<Text>, ts: seq<nat>)
    requires Words(heads, hs) && |heads| <= 6 && Words(tails, ts) && |tails| >= 7
    ensures Ipv6Address(GapText(heads, tails)) == None
  {
    UpToGap(heads, hs, [COLON, COLON] + Ending(tails));
    var g := START.(head := Put(ZEROS, 0, hs), headLen := |heads|);
    var rest := Chain(tails[1..], false);
    assert [COLON, COLON] + Ending(tails) == [COLON, COLON] + tails[0] + rest;
    ChainFollows(tails[1..], ts[1..], []);
    assert rest + [] == rest;
    GapStep(g, tails[0], ts[0], rest);
    TailsOverflow(tails[1..], ts[1..], g.(tail := g.tail[0 := ts[0]], tailLen := 1));
  }

  /**
    A double colon in a text of up to eight groups: the text is read back as the address, with zeros in the
    gap, exactly when at most six groups stand on each side. With two or more groups left out that is always
    so. A single zero group at either end cannot be written this way; and a double colon that stands for no
    group at all, which section 2.2 of RFC 4291 does not allow, is taken between two and six groups.
   */
  lemma {:induction false} GapRoundTrip(heads: seq<Text>, hs: seq<nat>, tails: seq<Text>, ts: seq<nat>)
    requires Words(heads, hs) && Words(tails, ts) && |heads| + |tails| <= 8
    ensures Ipv6Address(GapText(heads, tails)) ==
            if |heads| <= 6 && |tails| <= 6 then Some(GapAddress(hs, ts)) else None
    ensures |heads| + |tails| <= 6 ==> Ipv6Address(GapText(heads, tails)) == Some(GapAddress(hs, ts))
    ensures |heads| + |tails| == 8 && 2 <= |heads| <= 6 ==> Ipv6Address(GapText(heads, tails)) == Some(hs + ts)
  {
    if |heads| >= 7 {
      GapAfterSeven(heads, hs, tails);
    } else if |tails| >= 7 {
      GapBeforeSeven(heads, hs, tails, ts);
    } else {
      GapFits(heads, hs, tails, ts);
      NoGapAddress(hs, ts);
    }
  }

  lemma {:induction false} NoGapAddress(hs: seq<nat>, ts: seq<nat>)
    requires |hs| + |ts| <= 8
    ensures |hs| + |ts| == 8 ==> GapAddress(hs, ts) == hs + ts
  {
  }

  // ----- IPv4-mapped addresses

  /** `n` octets separated by dots. */
  function Dotted(ts: seq<Text>): Text {
    if |ts| == 0 then [] else if |ts| == 1 then ts[0] else ts[0] + ([DOT] + Dotted(ts[1..]))
  }

  ghost predicate OctetWords(ts: seq<Text>, os: seq<nat>) {
    |ts| == |os| && forall i :: 0 <= i < |ts| ==> Spells(ts[i], os[i], 3, false) && os[i] < 256
  }

  lemma {:induction false} DottedReads(ts: seq<Text>, os: seq<nat>, rest: Text)
    requires OctetWords(ts, os) && |ts| > 0 && !StartsWithDigit(rest, false)
    ensures DottedOctets(Dotted(ts) + rest, |ts|) == Some((os, rest))
    decreases |ts|
  {
    if |ts| == 1 {
      NumberReads(ts[0], rest, os[0], 3, 0x100, false);
      assert [os[0]] == os;
    } else {
      var r := [DOT] + (Dotted(ts[1..]) + rest);
      assert Dotted(ts) + rest == ts[0] + r;
      NumberReads(ts[0], r, os[0], 3, 0x100, false);
      assert r[1..] == Dotted(ts[1..]) + rest;
      DottedReads(ts[1..], os[1..], rest);
      assert [os[0]] + os[1..] == os;
    }
  }

  function MappedAddress(hi: nat, lo: nat): seq<nat> {
    [0, 0, 0, 0, 0, 0xffff, hi, lo]
  }

  ghost predicate Mapped(s: Text, hi: nat, lo: nat) {
    |s| > 0 && s[0] == COLON && MappedPart(s) == Some(((hi, lo), []))
  }

  /** The text after the colon determines the two groups, whatever it looks like. */
  lemma {:induction false} MappedFrom(s: Text, rest: Text, os: seq<nat>)
    requires DottedOctets(s, |os|) == Some((os, rest)) && |os| == 4
    ensures MappedPart([COLON] + s) == Some(((os[0] * 256 + os[1], os[2] * 256 + os[3]), rest))
  {
    assert ([COLON] + s)[1..] == s;
  }

  lemma {:induction false} MappedReads(ts: seq<Text>, os: seq<nat>)
    requires OctetWords(ts, os) && |ts| == 4
    ensures Mapped([COLON] + Dotted(ts), os[0] * 256 + os[1], os[2] * 256 + os[3])
  {
    DottedReads(ts, os, []);
    assert Dotted(ts) + [] == Dotted(ts);
    MappedFrom(Dotted(ts), [], os);
  }

  lemma {:induction false} TailMapped(s: Text, hi: nat, lo: nat)
    requires Mapped(s, hi, lo)
    ensures FillTail(START, 0xffff, s) == (Groups(ZEROS, [0xffff, hi, lo, 0, 0, 0], 0, 3), [])
  {
    assert START.tail[0 := 0xffff][1 := hi][2 := lo] == [0xffff, hi, lo, 0, 0, 0];
  }

  /** A double colon and a group, when filling the tail leaves nothing to read. */
  lemma {:induction false} GapStops(t: Text, s: Text, value: nat, g: Groups)
    requires Word(t, value) && !StartsWithDigit(s, true)
    requires FillTail(START, value, s) == (g, []) && g.Valid() && g.headLen + g.tailLen <= 8
    ensures Part([COLON, COLON] + t + s, START, false) == Some((g, []))
  {
    var x := [COLON, COLON] + t + s;
    assert x[2..] == t + s;
    NumberReads(t, s, value, 4, 0x10000, true);
  }

  lemma {:induction false} GapMapped(ffff: Text, s: Text, hi: nat, lo: nat)
    requires Word(ffff, 0xffff) && Mapped(s, hi, lo)
    ensures Ipv6Address([COLON, COLON] + ffff + s) == Some(MappedAddress(hi, lo))
  {
    TailMapped(s, hi, lo);
    var g := Groups(ZEROS, [0xffff, hi, lo, 0, 0, 0], 0, 3);
    GapStops(ffff, s, 0xffff, g);
    assert Join(g) == MappedAddress(hi, lo);
  }

  lemma {:induction false} HeadMapped(s: Text, hi: nat, lo: nat)
    requires Mapped(s, hi, lo)
    ensures FillHead(START.(headLen := 5), 0xffff, s) == (START.(head := MappedAddress(hi, lo), headLen := 8), [])
  {
    var h := ZEROS[5 := 0xffff];
    assert h[..6] == MAPPED_PREFIX;
    assert h[6 := hi][7 := lo] == MappedAddress(hi, lo);
  }

  lemma {:induction false} LastHeadMapped(last: Text, s: Text, hi: nat, lo: nat)
    requires Word(last, 0xffff) && Mapped(s, hi, lo)
    ensures Part([COLON] + last + s, START.(headLen := 5), false) ==
            Some((START.(head := MappedAddress(hi, lo), headLen := 8), []))
  {
    var x := [COLON] + last + s;
    assert x == Lead(false, last) + s;
    LeadShape(false, last, s, 0xffff);
    assert x[1..] == last + s;
    NumberReads(last, s, 0xffff, 4, 0x10000, true);
    HeadMapped(s, hi, lo);
    var r := START.(head := MappedAddress(hi, lo), headLen := 8);
    assert Continue([], r, false) == Some((r, []));
  }

  lemma {:induction false} FirstFive(heads: seq<Text>, s: Text)
    requires Words(heads, MAPPED_PREFIX) && |s| > 0 && s[0] == COLON
    ensures Part(Chain(heads, true) + s, START, false) == Part([COLON] + heads[5] + s, START.(headLen := 5), false)
  {
    AllButLast(heads, MAPPED_PREFIX, s);
    assert Put(ZEROS, 0, MAPPED_PREFIX[..5]) == ZEROS;
  }

  lemma {:induction false} AllButLast(heads: seq<Text>, vs: seq<nat>, s: Text)
    requires Words(heads, vs) && 1 < |vs| <= 8 && |s| > 0 && s[0] == COLON
    ensures var n := |vs| - 1;
            Part(Chain(heads, true) + s, START, false) ==
            Part([COLON] + heads[n] + s, START.(head := Put(ZEROS, 0, vs[..n]), headLen := n), false)
  {
    var n := |vs| - 1;
    var rest := [COLON] + heads[n] + s;
    ChainSplit(heads, s);
    ColonFollows(heads[n], s, vs[n]);
    HeadsRead(heads[..n], vs[..n], START, rest);
    AtColon(rest, START.(head := Put(ZEROS, 0, vs[..n]), headLen := n));
  }

  lemma {:induction false} HeadsMapped(heads: seq<Text>, s: Text, hi: nat, lo: nat)
    requires Words(heads, MAPPED_PREFIX) && Mapped(s, hi, lo)
    ensures Ipv6Address(Chain(heads, true) + s) == Some(MappedAddress(hi, lo))
  {
    FirstFive(heads, s);
    LastHeadMapped(heads[5], s, hi, lo);
    var r := START.(head := MappedAddress(hi, lo), headLen := 8);
    assert Join(r) == MappedAddress(hi, lo);
  }

  /**
    The last two groups of an IPv4-mapped address may be written as four decimal octets: both
    `::ffff:a.b.c.d` and `0:0:0:0:0:ffff:a.b.c.d` are read as that address.
   */
  lemma {:induction false} MappedRoundTrip(ffff: Text, heads: seq<Text>, ts: seq<Text>, os: seq<nat>)
    requires Word(ffff, 0xffff) && Words(heads, MAPPED_PREFIX) && OctetWords(ts, os) && |ts| == 4
    ensures Ipv6Address([COLON, COLON] + ffff + ([COLON] + Dotted(ts))) ==
            Some(MappedAddress(os[0] * 256 + os[1], os[2] * 256 + os[3]))
    ensures Ipv6Address(Chain(heads, true) + ([COLON] + Dotted(ts))) ==
            Some(MappedAddress(os[0] * 256 + os[1], os[2] * 256 + os[3]))
  {
    var hi, lo := os[0] * 256 + os[1], os[2] * 256 + os[3];
    MappedReads(ts, os);
    GapMapped(ffff, [COLON] + Dotted(ts), hi, lo);
    HeadsMapped(heads, [COLON] + Dotted(ts), hi, lo);
  }

  lemma {:induction false} ChainSplit(heads: seq<Text>, s: Text)
    requires |heads| > 1
    ensures var n := |heads| - 1; Chain(heads, true) + s == Chain(heads[..n], true) + ([COLON] + heads[n] + s)
  {
    ChainLast(heads, true);
  }

  lemma {:induction false} ChainLast(ts: seq<Text>, first: bool)
    requires |ts| > 0
    ensures Chain(ts, first) == Chain(ts[..|ts| - 1], first) + Lead(first && |ts| == 1, ts[|ts| - 1])
    decreases |ts|
  {
    if |ts| > 1 {
      ChainLast(ts[1..], false);
      assert ts[1..][..|ts| - 2] == ts[..|ts| - 1][1..];
    }
  }
}
