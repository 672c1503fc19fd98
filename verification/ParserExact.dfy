/**
  Exactly which texts are read as addresses. Besides the spellings of section 2.2 of RFC 4291 these are texts
  with a double colon that stands for no group at all, and texts with three colons in a row. Of the spellings
  with a dotted quad only those are read in which the quad comes right after the prefix of the IPv4-mapped
  addresses; after a double colon more groups may follow it.
 */
module ParserExact {
  import opened Options
  import opened Octets
  import opened ParserSpec
  import opened ParserRoundTrip

  /**
    Groups, and then the end, or a dotted quad, or two or three colons and more groups; the first of these may
    have a dotted quad behind it. No octets stand for no quad.
   */
  datatype Spelling = Spelling(heads: seq<Text>, gap: bool, third: bool, tails: seq<Text>, quad: seq<Text>) {
    function Written(): Text {
      Chain(heads, true) + Rest()
    }

    /** What follows the groups in front. */
    function Rest(): Text {
      if gap then [COLON, COLON] + AfterGap() else QuadText(quad)
    }

    function AfterGap(): Text {
      (if third then [COLON] else []) + TailText(tails, quad)
    }
  }

  function QuadText(quad: seq<Text>): Text {
    if quad == [] then [] else [COLON] + Dotted(quad)
  }

  function TailText(tails: seq<Text>, quad: seq<Text>): Text {
    if tails == [] then [] else tails[0] + (QuadText(quad) + Chain(tails[1..], false))
  }

  /** What the groups and the octets spell. */
  datatype Values = Values(heads: seq<nat>, tails: seq<nat>, quad: seq<nat>) {
    /** The quad as two groups. */
    function Pair(): seq<nat> {
      if |quad| == 4 then [quad[0] * 256 + quad[1], quad[2] * 256 + quad[3]] else []
    }

    function Head(gap: bool): seq<nat> {
      if gap then heads else heads + Pair()
    }

    function Tail(): seq<nat> {
      if tails == [] then [] else [tails[0]] + Pair() + tails[1..]
    }
  }

  ghost predicate SpelledBy(sp: Spelling, v: Values) {
    && Words(sp.heads, v.heads) && Words(sp.tails, v.tails) && OctetWords(sp.quad, v.quad)
    && (|v.quad| == 0 || |v.quad| == 4)
    && (!sp.gap ==> v.tails == [])
  }

  predicate AllZero(vs: seq<nat>) {
    forall i :: 0 <= i < |vs| ==> vs[i] == 0
  }

  /** A quad stands only behind the prefix of the mapped addresses, in full or with a double colon in its zeros. */
  predicate QuadAllowed(gap: bool, v: Values) {
    v.quad != [] ==>
      if gap then v.tails != [] && v.tails[0] == 0xffff && AllZero(v.heads) else v.heads == MAPPED_PREFIX
  }

  /** The spelling is one that the parser takes, and it stands for the address. */
  ghost predicate Reads(sp: Spelling, v: Values, address: seq<nat>) {
    && SpelledBy(sp, v) && QuadAllowed(sp.gap, v)
    && (sp.third ==> sp.gap && v.heads != [] && v.tails != [])
    && if sp.gap then
         && |v.heads| <= 6 && |v.Tail()| <= 6 && |v.heads| + |v.Tail()| <= 8
         && address == GapAddress(v.heads, v.Tail())
       else |v.Head(false)| == 8 && address == v.Head(false)
  }

  // ----- numbers

  lemma {:induction false} MoreDigitsSound(s: Text, left: nat, value: nat, hex: bool)
    ensures var (v, r) := MoreDigits(s, left, value, hex);
            var n := |s| - |r|;
            && 0 <= n <= left && n <= |s| && r == s[n..] && IsDigits(s[..n], hex) && v == ValueFrom(s[..n], value, hex)
    decreases left
  {
    if left > 0 && StartsWithDigit(s, hex) {
      var d := DigitValue(s[0], hex).value;
      MoreDigitsSound(s[1..], left - 1, value * Base(hex) + d, hex);
      var (v, r) := MoreDigits(s, left, value, hex);
      var n := |s| - |r|;
      assert s[..n][1..] == s[1..][..n - 1];
      assert forall i :: 1 <= i < n ==> s[i] == s[1..][..n - 1][i - 1];
    }
  }

  /** What is read as a number is a spelling of it. */
  lemma {:induction false} NumberSound(s: Text, max: nat, limit: nat, hex: bool)
    requires max > 0 && Number(s, max, limit, hex).Some?
    ensures var (v, r) := Number(s, max, limit, hex).value;
            var n := |s| - |r|;
            && 0 < n <= |s| && s == s[..n] + r && Spells(s[..n], v, max, hex) && v < limit
  {
    var d := DigitValue(s[0], hex).value;
    MoreDigitsSound(s[1..], max - 1, d, hex);
    var (v, r) := Number(s, max, limit, hex).value;
    var n := |s| - |r|;
    assert s[..n][1..] == s[1..][..n - 1];
    assert forall i :: 1 <= i < n ==> s[i] == s[1..][..n - 1][i - 1];
    assert ValueFrom(s[..n], 0, hex) == ValueFrom(s[..n][1..], d, hex);
  }

  // ----- dotted quads

  /** The first of some dotted octets, and what follows it. */
  lemma {:induction false} FirstOctet(s: Text, n: nat) returns (t: Text, v: nat, s1: Text)
    requires DottedOctets(s, n).Some?
    ensures n > 0 && Spells(t, v, 3, false) && v < 256 && s == t + s1
    ensures n == 1 ==> DottedOctets(s, n) == Some(([v], s1))
    ensures n > 1 ==> |s1| > 0 && s1[0] == DOT && DottedOctets(s1[1..], n - 1).Some?
                      && var (os, r) := DottedOctets(s1[1..], n - 1).value; DottedOctets(s, n) == Some(([v] + os, r))
  {
    NumberSound(s, 3, 0x100, false);
    var number := Number(s, 3, 0x100, false).value;
    v, s1 := number.0, number.1;
    t := s[..|s| - |s1|];
  }

  /** What is read as dotted octets is a spelling of them. */
  lemma {:induction false} DottedSound(s: Text, n: nat) returns (ts: seq<Text>)
    requires DottedOctets(s, n).Some?
    ensures var (os, r) := DottedOctets(s, n).value;
            OctetWords(ts, os) && |ts| == n && s == Dotted(ts) + r
    decreases n
  {
    var t, v, s1 := FirstOctet(s, n);
    if n == 1 {
      ts := [t];
    } else {
      var us := DottedSound(s1[1..], n - 1);
      var (os, r) := DottedOctets(s1[1..], n - 1).value;
      ts := [t] + us;
      DottedCons(t, us);
      DottedJoined(t, s1, Dotted(us), r);
      LongerOctets(t, v, us, os);
    }
  }

  lemma {:induction false} DottedJoined(t: Text, s: Text, dotted: Text, r: Text)
    requires |s| > 0 && s[0] == DOT && s[1..] == dotted + r
    ensures t + s == t + ([DOT] + dotted) + r
  {
    assert s == [DOT] + s[1..];
  }

  lemma {:induction false} DottedCons(t: Text, us: seq<Text>)
    requires |us| > 0
    ensures Dotted([t] + us) == t + ([DOT] + Dotted(us))
  {
    assert ([t] + us)[1..] == us;
  }

  lemma {:induction false} LongerOctets(t: Text, v: nat, us: seq<Text>, os: seq<nat>)
    requires Spells(t, v, 3, false) && v < 256 && OctetWords(us, os)
    ensures OctetWords([t] + us, [v] + os)
  {
  }

  lemma {:induction false} MappedIs(s: Text, n: nat)
    requires n == 4 && MappedPart(s).Some?
    ensures |s| > 0 && s[0] == COLON && DottedOctets(s[1..], n).Some?
    ensures var (o, r) := DottedOctets(s[1..], n).value;
            |o| == 4 && MappedPart(s) == Some(((o[0] * 256 + o[1], o[2] * 256 + o[3]), r))
  {
  }

  lemma {:induction false} QuadSound(s: Text, n: nat, os: seq<nat>, r: Text) returns (quad: seq<Text>)
    requires n > 0 && |s| > 0 && s[0] == COLON && DottedOctets(s[1..], n) == Some((os, r))
    ensures OctetWords(quad, os) && |quad| == n && s == QuadText(quad) + r
  {
    quad := DottedSound(s[1..], n);
    ColonJoined(s, Dotted(quad), r);
  }

  lemma {:induction false} ColonJoined(s: Text, dotted: Text, r: Text)
    requires |s| > 0 && s[0] == COLON && s[1..] == dotted + r
    ensures s == [COLON] + dotted + r
  {
  }

  lemma {:induction false} QuadOf(s: Text) returns (quad: seq<Text>, os: seq<nat>)
    requires MappedPart(s).Some?
    ensures var ((hi, lo), r) := MappedPart(s).value;
            && OctetWords(quad, os) && |os| == 4 && s == QuadText(quad) + r
            && hi == os[0] * 256 + os[1] && lo == os[2] * 256 + os[3]
  {
    var n := 4;
    MappedIs(s, n);
    var (o, r) := DottedOctets(s[1..], n).value;
    os := o;
    quad := QuadSound(s, n, o, r);
  }

  // ----- the groups after the gap

  /** Whatever is read after the first group behind the gap is a chain of groups. */
  lemma {:induction false} TailSound(s: Text, g: Groups) returns (ts: seq<Text>, vs: seq<nat>)
    requires g.Valid() && Continue(s, g, true).Some? && Continue(s, g, true).value.1 == [] && 0 < g.tailLen
    ensures Words(ts, vs) && s == Chain(ts, false) && g.tailLen + |ts| <= 6 && g.headLen + g.tailLen + |ts| <= 8
    ensures Continue(s, g, true).value.0 == g.(tail := Put(g.tail, g.tailLen, vs), tailLen := g.tailLen + |ts|)
    decreases |s|
  {
    if s == [] {
      ts, vs := [], [];
      assert Put(g.tail, g.tailLen, vs) == g.tail;
    } else {
      assert |s| > 0 && s[0] == COLON;
      var s1 := s[1..];
      NumberShrinks(s1, 4, 0x10000, true);
      NumberSound(s1, 4, 0x10000, true);
      var (v, s2) := Number(s1, 4, 0x10000, true).value;
      var t := s1[..|s1| - |s2|];
      var g1 := g.(tail := g.tail[g.tailLen := v], tailLen := g.tailLen + 1);
      assert Part(s, g, true) == Continue(s2, g1, true);
      var us, ws := TailSound(s2, g1);
      ts, vs := [t] + us, [v] + ws;
      LongerWords(t, v, us, ws);
      PutAfter(g.tail, g.tailLen, v, ws);
      assert s == [COLON] + (t + s2);
      ChainCons(t, us);
    }
  }

  lemma {:induction false} ChainCons(t: Text, ts: seq<Text>)
    ensures Chain([t] + ts, false) == [COLON] + (t + Chain(ts, false))
  {
    assert ([t] + ts)[1..] == ts;
  }

  /** The groups read behind the gap, from the groups `g` on. */
  ghost predicate TailIs(s: Text, g: Groups, sp: Spelling, v: Values, end: Groups) {
    && SpelledBy(sp, v) && v.tails != [] && s == TailText(sp.tails, sp.quad)
    && (v.quad != [] ==> v.tails[0] == 0xffff && g.head == ZEROS)
    && |v.Tail()| <= 6 && g.headLen + |v.Tail()| <= 8 && |g.tail| == 6
    && end == g.(tail := Put(g.tail, 0, v.Tail()), tailLen := |v.Tail()|)
  }

  /** The quad behind the first group, if there is one. */
  lemma {:induction false} FillSound(g: Groups, part: nat, s: Text) returns (v: Values, quad: seq<Text>)
    requires g.Valid() && g.tailLen == 0
    ensures v.heads == [] && v.tails == [part] && OctetWords(quad, v.quad) && (|v.quad| == 0 || |v.quad| == 4)
    ensures v.quad != [] ==> part == 0xffff && g.head == ZEROS
    ensures var (g1, rest) := FillTail(g, part, s);
            && s == QuadText(quad) + rest
            && g1 == g.(tail := Put(g.tail, 0, v.Tail()), tailLen := |v.Tail()|) && |v.Tail()| in {1, 3}
  {
    var (g1, rest) := FillTail(g, part, s);
    quad, v := [], Values([], [part], []);
    if g1.tailLen == 3 {
      var os;
      quad, os := QuadOf(s);
      v := v.(quad := os);
      PutThree(g.tail, v.Tail());
    } else {
      assert QuadText([]) + s == s;
      assert Put(g.tail, 0, [part]) == g.tail[0 := part];
    }
  }

  lemma {:induction false} PutThree(a: seq<nat>, vs: seq<nat>)
    requires |vs| == 3 <= |a|
    ensures a[0 := vs[0]][1 := vs[1]][2 := vs[2]] == Put(a, 0, vs)
  {
  }

  lemma {:induction false} PutTwice(a: seq<nat>, vs: seq<nat>, ws: seq<nat>)
    requires |vs| + |ws| <= |a|
    ensures Put(Put(a, 0, vs), |vs|, ws) == Put(a, 0, vs + ws)
  {
  }

  /** The first group behind the gap, perhaps a quad, and the groups after it. */
  lemma {:induction false} FirstTailSound(s: Text, g: Groups, end: Groups, third: bool)
    returns (sp: Spelling, v: Values)
    requires g.Valid() && g.tailLen == 0 && Number(s, 4, 0x10000, true).Some?
    requires var (part, s2) := Number(s, 4, 0x10000, true).value;
             var (g1, s3) := FillTail(g, part, s2);
             g1.Valid() && Continue(s3, g1, true) == Some((end, []))
    ensures sp.heads == [] && v.heads == [] && sp.gap && sp.third == third && TailIs(s, g, sp, v, end)
  {
    NumberSound(s, 4, 0x10000, true);
    var (part, s2) := Number(s, 4, 0x10000, true).value;
    var t := s[..|s| - |s2|];
    var first, quad := FillSound(g, part, s2);
    var (g1, s3) := FillTail(g, part, s2);
    sp, v := TailFrom(t, part, s2, g, first, quad, g1, s3, end, third);
  }

  lemma {:induction false} TailFrom(t: Text, part: nat, s: Text, g: Groups, first: Values, quad: seq<Text>, g1: Groups,
                                    rest: Text, end: Groups, third: bool)
    returns (sp: Spelling, v: Values)
    requires g.Valid() && g.tailLen == 0 && Word(t, part) && OctetWords(quad, first.quad)
    requires first.heads == [] && first.tails == [part] && (|first.quad| == 0 || |first.quad| == 4)
    requires first.quad != [] ==> part == 0xffff && g.head == ZEROS
    requires |first.Tail()| in {1, 3} && s == QuadText(quad) + rest
    requires g1 == g.(tail := Put(g.tail, 0, first.Tail()), tailLen := |first.Tail()|)
    requires Continue(rest, g1, true) == Some((end, []))
    ensures sp.heads == [] && v.heads == [] && sp.gap && sp.third == third && TailIs(t + s, g, sp, v, end)
  {
    var us, ws := TailSound(rest, g1);
    LongerWords(t, part, us, ws);
    sp, v := Spelling([], true, third, [t] + us, quad), first.(tails := [part] + ws);
    TailTextCons(t, us, quad);
    LongerTail(first, part, ws);
    PutTwice(g.tail, first.Tail(), ws);
  }

  lemma {:induction false} TailTextCons(t: Text, us: seq<Text>, quad: seq<Text>)
    ensures TailText([t] + us, quad) == t + (QuadText(quad) + Chain(us, false))
  {
    assert ([t] + us)[1..] == us;
  }

  lemma {:induction false} LongerTail(first: Values, part: nat, ws: seq<nat>)
    requires first.tails == [part]
    ensures first.(tails := [part] + ws).Tail() == first.Tail() + ws
  {
    assert ([part] + ws)[1..] == ws && first.Tail() == [part] + first.Pair();
  }

  // ----- the gap

  lemma {:induction false} GapAt(s: Text, g: Groups, end: Groups)
    requires g.Valid() && g.tailLen == 0 && DoubleColon(s) && Part(s, g, false) == Some((end, []))
    ensures g.headLen <= 6
    ensures Number(s[2..], 4, 0x10000, true).Some? ==>
              var (part, s2) := Number(s[2..], 4, 0x10000, true).value;
              var (g1, s3) := FillTail(g, part, s2);
              g1.Valid() && Continue(s3, g1, true) == Some((end, []))
    ensures Number(s[2..], 4, 0x10000, true).None? ==> Continue(s[2..], g, true) == Some((end, []))
  {
    var number := Number(s[2..], 4, 0x10000, true);
    if number.Some? {
      MappedShrinks(number.value.1);
    }
  }

  /** The third colon, and the first group behind it. */
  lemma {:induction false} ThirdAt(s: Text, g: Groups, end: Groups)
    requires g.Valid() && g.tailLen == 0 && |s| > 0 && Continue(s, g, true) == Some((end, []))
    ensures g.headLen > 0 && s[0] == COLON && Number(s[1..], 4, 0x10000, true).Some?
    ensures var (part, s2) := Number(s[1..], 4, 0x10000, true).value;
            var (g1, s3) := FillTail(g, part, s2);
            g1.Valid() && Continue(s3, g1, true) == Some((end, []))
  {
    assert Part(s, g, true) == Some((end, []));
    var number := Number(s[1..], 4, 0x10000, true);
    if number.Some? {
      MappedShrinks(number.value.1);
    }
  }

  lemma {:induction false} ContinuesWithGap(s: Text, s1: Text, g: Groups, sp: Spelling, v: Values, end: Groups)
    requires g.Valid() && g.headLen <= 6 && sp.heads == [] && v.heads == [] && sp.gap && TailIs(s1, g, sp, v, end)
    requires s == [COLON, COLON] + ((if sp.third then [COLON] else []) + s1) && (sp.third ==> g.headLen > 0)
    ensures Continues(s, g, sp, v, end)
  {
    assert Put(g.head, g.headLen, []) == g.head;
    assert Chain(sp.heads, g.headLen == 0) + sp.Rest() == sp.Rest();
  }

  lemma {:induction false} ContinuesWithZeros(s: Text, g: Groups)
    requires g.Valid() && g.headLen <= 6 && g.tailLen == 0 && s == [COLON, COLON]
    ensures Continues(s, g, Spelling([], true, false, [], []), Values([], [], []), g)
  {
    assert Put(g.head, g.headLen, []) == g.head && Put(g.tail, 0, []) == g.tail;
    assert Spelling([], true, false, [], []).Rest() == s;
  }

  /** What is read from a double colon on. */
  lemma {:induction false} GapSound(s: Text, g: Groups, end: Groups) returns (sp: Spelling, v: Values)
    requires g.Valid() && g.tailLen == 0 && DoubleColon(s) && Part(s, g, false) == Some((end, []))
    ensures Continues(s, g, sp, v, end)
  {
    var s1 := s[2..];
    GapAt(s, g, end);
    assert s == [COLON, COLON] + s1;
    if Number(s1, 4, 0x10000, true).Some? {
      sp, v := FirstTailSound(s1, g, end, false);
      assert [] + s1 == s1;
      ContinuesWithGap(s, s1, g, sp, v, end);
    } else {
      sp, v := NoNumberSound(s, s1, g, end);
    }
  }

  /** Behind the double colon comes the end of the text or a third colon. */
  lemma {:induction false} NoNumberSound(s: Text, s1: Text, g: Groups, end: Groups) returns (sp: Spelling, v: Values)
    requires g.Valid() && g.tailLen == 0 && g.headLen <= 6 && s == [COLON, COLON] + s1
    requires Continue(s1, g, true) == Some((end, []))
    ensures Continues(s, g, sp, v, end)
  {
    if s1 == [] {
      sp, v := Spelling([], true, false, [], []), Values([], [], []);
      ContinuesWithZeros(s, g);
    } else {
      ThirdAt(s1, g, end);
      sp, v := FirstTailSound(s1[1..], g, end, true);
      assert s1 == [COLON] + s1[1..];
      ContinuesWithGap(s, s1[1..], g, sp, v, end);
    }
  }

  // ----- the groups before the gap

  /** `s` continues the groups `g` by a spelling, and that gives the groups `end`. */
  ghost predicate Continues(s: Text, g: Groups, sp: Spelling, v: Values, end: Groups) {
    && SpelledBy(sp, v) && Counts(g, sp, |v.Head(sp.gap)|, |v.Tail()|)
    && WrittenAs(s, g.headLen == 0, sp)
    && EndsAs(g, v.Head(sp.gap), v.Tail(), end)
    && QuadAt(g, sp.gap, v)
  }

  ghost predicate WrittenAs(s: Text, first: bool, sp: Spelling) {
    s == Chain(sp.heads, first) + sp.Rest()
  }

  /** The numbers of groups are in their limits. */
  ghost predicate Counts(g: Groups, sp: Spelling, heads: nat, tails: nat) {
    && g.headLen + heads <= 8 && tails <= 6
    && (sp.gap ==>
          && g.headLen + heads <= 6 && g.headLen + heads + tails <= 8
          && (sp.third ==> g.headLen + heads > 0 && tails > 0))
    && (!sp.gap ==> g.headLen + heads == 8 && tails == 0 && !sp.third)
  }

  ghost predicate EndsAs(g: Groups, hs: seq<nat>, ts: seq<nat>, end: Groups) {
    && |g.head| == 8 && |g.tail| == 6 && g.headLen + |hs| <= 8 && |ts| <= 6
    && end == Groups(Put(g.head, g.headLen, hs), Put(g.tail, 0, ts), g.headLen + |hs|, |ts|)
  }

  /** The prefix of the mapped addresses stands before a quad. */
  ghost predicate QuadAt(g: Groups, gap: bool, v: Values) {
    v.quad != [] ==>
      && |g.head| == 8 && g.headLen + |v.heads| <= 6
      && var head := Put(g.head, g.headLen, v.heads);
         if gap then v.tails != [] && v.tails[0] == 0xffff && head == ZEROS
         else g.headLen + |v.heads| == 6 && head[..6] == MAPPED_PREFIX
  }

  lemma {:induction false} LongerWords(t: Text, v: nat, ts: seq<Text>, vs: seq<nat>)
    requires Word(t, v) && Words(ts, vs)
    ensures Words([t] + ts, [v] + vs)
  {
  }

  lemma {:induction false} PutAfter(a: seq<nat>, at: nat, v: nat, vs: seq<nat>)
    requires at + 1 + |vs| <= |a|
    ensures Put(a[at := v], at + 1, vs) == Put(a, at, [v] + vs)
  {
    assert ([v] + vs)[1..] == vs;
    PutFirst(a, at, [v] + vs);
  }

  lemma {:induction false} LongerWritten(t: Text, sp: Spelling, first: bool, s: Text, s2: Text)
    requires s == Lead(first, t) + s2 && WrittenAs(s2, false, sp)
    ensures WrittenAs(s, first, sp.(heads := [t] + sp.heads))
  {
    var longer := sp.(heads := [t] + sp.heads);
    assert longer.heads[1..] == sp.heads && longer.Rest() == sp.Rest();
    ChainUnfold(longer.heads, first, sp.Rest());
  }

  lemma {:induction false} LongerEnd(g: Groups, value: nat, hs: seq<nat>, ts: seq<nat>, end: Groups)
    requires g.Valid() && g.headLen < 8 && g.tailLen == 0
    requires EndsAs(g.(head := g.head[g.headLen := value], headLen := g.headLen + 1), hs, ts, end)
    ensures EndsAs(g, [value] + hs, ts, end)
  {
    PutAfter(g.head, g.headLen, value, hs);
  }

  lemma {:induction false} LongerQuad(g: Groups, value: nat, gap: bool, v: Values)
    requires g.Valid() && g.headLen < 8 && g.tailLen == 0
    requires QuadAt(g.(head := g.head[g.headLen := value], headLen := g.headLen + 1), gap, v)
    ensures QuadAt(g, gap, v.(heads := [value] + v.heads))
  {
    if v.quad != [] {
      PutAfter(g.head, g.headLen, value, v.heads);
    }
  }

  lemma {:induction false} LongerHead(value: nat, gap: bool, v: Values)
    ensures v.(heads := [value] + v.heads).Head(gap) == [value] + v.Head(gap)
    ensures v.(heads := [value] + v.heads).Tail() == v.Tail()
  {
  }

  lemma {:induction false} AllContinues(s: Text, g: Groups, sp: Spelling, v: Values, end: Groups, hs: seq<nat>,
                                        ts: seq<nat>)
    requires SpelledBy(sp, v) && hs == v.Head(sp.gap) && ts == v.Tail() && Counts(g, sp, |hs|, |ts|)
    requires WrittenAs(s, g.headLen == 0, sp) && EndsAs(g, hs, ts, end) && QuadAt(g, sp.gap, v)
    ensures Continues(s, g, sp, v, end)
  {
  }

  lemma {:induction false} LongerSpelled(t: Text, value: nat, sp: Spelling, v: Values)
    requires Word(t, value) && SpelledBy(sp, v)
    ensures SpelledBy(sp.(heads := [t] + sp.heads), v.(heads := [value] + v.heads))
  {
    LongerWords(t, value, sp.heads, v.heads);
  }

  lemma {:induction false} LongerCounts(g: Groups, value: nat, t: Text, sp: Spelling, heads: nat, tails: nat)
    requires g.Valid() && g.headLen < 8
    requires Counts(g.(head := g.head[g.headLen := value], headLen := g.headLen + 1), sp, heads, tails)
    ensures Counts(g, sp.(heads := [t] + sp.heads), heads + 1, tails)
  {
  }

  lemma {:induction false} ContinuesWithGroup(s: Text, g: Groups, t: Text, value: nat, s2: Text, sp: Spelling,
                                              v: Values, end: Groups)
    requires g.Valid() && g.tailLen == 0 && g.headLen < 8 && Word(t, value) && s == Lead(g.headLen == 0, t) + s2
    requires Continues(s2, g.(head := g.head[g.headLen := value], headLen := g.headLen + 1), sp, v, end)
    ensures Continues(s, g, sp.(heads := [t] + sp.heads), v.(heads := [value] + v.heads), end)
  {
    var hs := v.Head(sp.gap);
    LongerSpelled(t, value, sp, v);
    LongerCounts(g, value, t, sp, |hs|, |v.Tail()|);
    LongerHead(value, sp.gap, v);
    LongerEnd(g, value, hs, v.Tail(), end);
    LongerQuad(g, value, sp.gap, v);
    LongerWritten(t, sp, g.headLen == 0, s, s2);
    AllContinues(s, g, sp.(heads := [t] + sp.heads), v.(heads := [value] + v.heads), end, [value] + hs, v.Tail());
  }

  /** The end of the text, after eight groups. */
  lemma {:induction false} ContinuesToEnd(g: Groups)
    requires g.Valid() && g.tailLen == 0 && g.headLen == 8
    ensures Continues([], g, Spelling([], false, false, [], []), Values([], [], []), g)
  {
    assert Put(g.head, 8, []) == g.head && Put(g.tail, 0, []) == g.tail;
  }

  /** A quad after the prefix of the mapped addresses ends the text. */
  lemma {:induction false} ContinuesWithQuad(s: Text, g: Groups, quad: seq<Text>, os: seq<nat>, hi: nat, lo: nat)
    requires g.Valid() && g.tailLen == 0 && g.headLen == 6 && g.head[..6] == MAPPED_PREFIX
    requires OctetWords(quad, os) && |os| == 4 && s == QuadText(quad) + []
    requires hi == os[0] * 256 + os[1] && lo == os[2] * 256 + os[3]
    ensures Continues(s, g, Spelling([], false, false, [], quad), Values([], [], os),
                      g.(head := g.head[6 := hi][7 := lo], headLen := 8))
  {
    var v := Values([], [], os);
    assert QuadText(quad) + [] == QuadText(quad);
    PutNone(g.head, 6);
    PutNone(g.tail, 0);
    PutTwo(g.head, 6, hi, lo);
    assert v.Head(false) == [hi, lo];
  }

  lemma {:induction false} PutNone(a: seq<nat>, at: nat)
    requires at <= |a|
    ensures Put(a, at, []) == a
  {
  }

  lemma {:induction false} PutTwo(a: seq<nat>, at: nat, x: nat, y: nat)
    requires at + 2 <= |a|
    ensures Put(a, at, [x, y]) == a[at := x][at + 1 := y]
  {
  }

  /** No group can follow a full address. */
  lemma {:induction false} NothingAfterEight(s: Text, g: Groups)
    requires g.Valid() && g.headLen == 8 && g.tailLen == 0 && |s| > 0 && s[0] == COLON
    ensures Continue(s, g, false).None?
  {
    var number := Number(s[1..], 4, 0x10000, true);
    if !DoubleColon(s) && number.Some? {
      MappedShrinks(number.value.1);
      var r := FillTail(g, number.value.0, number.value.1);
      assert Part(s, g, false) == Continue(r.1, r.0, false);
    }
  }

  /** One group, and what follows it. */
  lemma {:induction false} OneGroup(s: Text, g: Groups, end: Groups) returns (t: Text, value: nat, s2: Text)
    requires g.Valid() && g.tailLen == 0 && Part(s, g, false) == Some((end, [])) && !DoubleColon(s)
    ensures Word(t, value) && s == Lead(g.headLen == 0, t) + s2 && |s2| < |s| && g.headLen < 8
    ensures var r := FillHead(g, value, s2); r.0.Valid() && Continue(r.1, r.0, false) == Some((end, []))
  {
    var s1 := if g.headLen != 0 then s[1..] else s;
    NumberSound(s1, 4, 0x10000, true);
    var (v, rest) := Number(s1, 4, 0x10000, true).value;
    MappedShrinks(rest);
    t, value, s2 := s1[..|s1| - |rest|], v, rest;
    assert s == Lead(g.headLen == 0, t) + s2;
  }

  /** Whatever is read from the start on is a spelling. */
  lemma {:induction false} HeadSound(s: Text, g: Groups, end: Groups) returns (sp: Spelling, v: Values)
    requires g.Valid() && g.tailLen == 0 && Part(s, g, false) == Some((end, []))
    ensures Continues(s, g, sp, v, end)
    decreases |s|
  {
    if DoubleColon(s) {
      sp, v := GapSound(s, g, end);
    } else {
      var t, value, s2 := OneGroup(s, g, end);
      var g1 := g.(head := g.head[g.headLen := value], headLen := g.headLen + 1);
      var (g2, s3) := FillHead(g, value, s2);
      if g2.headLen > g1.headLen {
        EndsAtEight(s3, g2, end);
        sp, v := QuadEnds(s2, g1, MappedPart(s2).value.0.0, MappedPart(s2).value.0.1);
      } else if s2 == [] {
        sp, v := Spelling([], false, false, [], []), Values([], [], []);
        ContinuesToEnd(g1);
      } else {
        sp, v := HeadSound(s2, g1, end);
      }
      ContinuesWithGroup(s, g, t, value, s2, sp, v, end);
      sp, v := sp.(heads := [t] + sp.heads), v.(heads := [value] + v.heads);
    }
  }

  lemma {:induction false} EndsAtEight(s: Text, g: Groups, end: Groups)
    requires g.Valid() && g.headLen == 8 && g.tailLen == 0 && Continue(s, g, false) == Some((end, []))
    ensures s == [] && end == g
  {
    if |s| > 0 && s[0] == COLON {
      NothingAfterEight(s, g);
    }
  }

  lemma {:induction false} QuadEnds(s: Text, g: Groups, hi: nat, lo: nat) returns (sp: Spelling, v: Values)
    requires g.Valid() && g.tailLen == 0 && g.headLen == 6 && g.head[..6] == MAPPED_PREFIX
    requires MappedPart(s) == Some(((hi, lo), []))
    ensures Continues(s, g, sp, v, g.(head := g.head[6 := hi][7 := lo], headLen := 8))
  {
    var quad, os := QuadOf(s);
    ContinuesWithQuad(s, g, quad, os, hi, lo);
    sp, v := Spelling([], false, false, [], quad), Values([], [], os);
  }

  /** Every text that is read as an address is a spelling of that address. */
  lemma {:induction false} AcceptedIsSpelled(s: Text, address: seq<nat>) returns (sp: Spelling, v: Values)
    requires Ipv6Address(s) == Some(address)
    ensures s == sp.Written() && Reads(sp, v, address)
  {
    sp, v := HeadSound(s, START, Part(s, START, false).value.0);
    QuadAtStart(sp.gap, v);
    if sp.gap {
      JoinedGap(v.heads, v.Tail());
    } else {
      JoinedFull(v.Head(false));
    }
  }

  lemma {:induction false} JoinedFull(hs: seq<nat>)
    requires |hs| == 8
    ensures Join(Groups(Put(ZEROS, 0, hs), Put(START.tail, 0, []), 8, 0)) == hs
  {
    assert Put(ZEROS, 0, hs) == hs && hs[..8] + Put(START.tail, 0, [])[..0] == hs;
  }

  lemma {:induction false} QuadAtStart(gap: bool, v: Values)
    requires QuadAt(START, gap, v)
    ensures QuadAllowed(gap, v)
  {
    if v.quad != [] {
      PutFront(ZEROS, v.heads);
      if gap {
        assert v.heads == ZEROS[..|v.heads|];
      }
    }
  }

  // ----- and the other way round

  lemma {:induction false} TailTextPlain(tails: seq<Text>)
    ensures TailText(tails, []) == Ending(tails)
  {
  }

  lemma {:induction false} ThirdColon(ts: seq<Text>)
    requires |ts| > 0
    ensures Chain(ts, false) == [COLON] + Ending(ts)
  {
  }

  /** Three colons: the third is taken for the one in front of the first group after the gap. */
  lemma {:induction false} ThirdFits(heads: seq<Text>, hs: seq<nat>, tails: seq<Text>, ts: seq<nat>)
    requires Words(heads, hs) && Words(tails, ts) && 0 < |heads| <= 6 && 0 < |tails| <= 6 && |heads| + |tails| <= 8
    ensures Ipv6Address(Spelling(heads, true, true, tails, []).Written()) == Some(GapAddress(hs, ts))
  {
    var rest := Chain(tails, false);
    ThirdColon(tails);
    TailTextPlain(tails);
    var gap := Spelling(heads, true, true, tails, []).Rest();
    assert gap == [COLON, COLON] + rest;
    UpToGap(heads, hs, gap);
    var g := START.(head := Put(ZEROS, 0, hs), headLen := |heads|);
    GapWithoutNumber(rest, g);
    TailsRead(tails, ts, g);
    JoinedGap(hs, ts);
  }

  lemma {:induction false} GapWithoutNumber(rest: Text, g: Groups)
    requires g.Valid() && 0 < g.headLen <= 6 && |rest| > 0 && rest[0] == COLON
    ensures Part([COLON, COLON] + rest, g, false) == Continue(rest, g, true)
  {
    assert ([COLON, COLON] + rest)[2..] == rest;
  }

  /** Behind the gap, the prefix and a quad fill three groups. */
  lemma {:induction false} QuadFills(start: Groups, s: Text, three: seq<nat>, rest: Text)
    requires start.Valid() && start.tailLen == 0 && start.head == ZEROS
    requires |three| == 3 && three[0] == 0xffff && MappedPart(s) == Some(((three[1], three[2]), rest))
    ensures FillTail(start, 0xffff, s) == (start.(tail := Put(start.tail, 0, three), tailLen := 3), rest)
  {
    PutThree(start.tail, three);
  }

  lemma {:induction false} QuadStep(ffff: Text, s: Text, rest: Text, start: Groups, g: Groups)
    requires start.Valid() && start.headLen <= 5 && start.tailLen == 0 && Word(ffff, 0xffff)
    requires |s| > 0 && s[0] == COLON && g.Valid() && FillTail(start, 0xffff, s) == (g, rest)
    ensures Part([COLON, COLON] + (ffff + s), start, false) == Continue(rest, g, true)
  {
    NumberReads(ffff, s, 0xffff, 4, 0x10000, true);
    assert ([COLON, COLON] + (ffff + s))[2..] == ffff + s;
  }

  lemma {:induction false} TailFillStep(g: Groups, t: Text, value: nat, s: Text, g1: Groups, rest: Text)
    requires g.Valid() && 0 < g.headLen + g.tailLen && g.tailLen < 6 && Word(t, value) && !StartsWithDigit(s, true)
    requires FillTail(g, value, s) == (g1, rest) && g1.Valid()
    ensures Part(Lead(false, t) + s, g, true) == Continue(rest, g1, true)
  {
    LeadShape(false, t, s, value);
    NumberReads(t, s, value, 4, 0x10000, true);
  }

  lemma {:induction false} AtTailColon(s: Text, g: Groups)
    requires g.Valid() && g.headLen + g.tailLen <= 8 && |s| > 0 && s[0] == COLON
    ensures Continue(s, g, true) == Part(s, g, true)
  {
  }

  lemma {:induction false} QuadThirdStep(ffff: Text, s: Text, rest: Text, start: Groups, g: Groups)
    requires start.Valid() && 0 < start.headLen <= 5 && start.tailLen == 0 && Word(ffff, 0xffff)
    requires |s| > 0 && s[0] == COLON && g.Valid() && FillTail(start, 0xffff, s) == (g, rest)
    ensures Part([COLON, COLON] + ([COLON] + (ffff + s)), start, false) == Continue(rest, g, true)
  {
    var x := [COLON] + (ffff + s);
    GapWithoutNumber(x, start);
    AtTailColon(x, start);
    assert x == Lead(false, ffff) + s;
    TailFillStep(start, ffff, 0xffff, s, g, rest);
  }

  lemma {:induction false} QuadAnyStep(third: bool, ffff: Text, s: Text, rest: Text, start: Groups, g: Groups)
    requires start.Valid() && start.headLen <= 5 && start.tailLen == 0 && Word(ffff, 0xffff)
    requires |s| > 0 && s[0] == COLON && g.Valid() && FillTail(start, 0xffff, s) == (g, rest)
    requires third ==> start.headLen > 0
    ensures Part([COLON, COLON] + ((if third then [COLON] else []) + (ffff + s)), start, false) ==
            Continue(rest, g, true)
  {
    if third {
      QuadThirdStep(ffff, s, rest, start, g);
    } else {
      assert [] + (ffff + s) == ffff + s;
      QuadStep(ffff, s, rest, start, g);
    }
  }

  lemma {:induction false} ZeroHeads(hs: seq<nat>)
    requires AllZero(hs) && |hs| <= 8
    ensures Put(ZEROS, 0, hs) == ZEROS
  {
  }

  /** The text from the double colon on, with a quad in it. */
  lemma {:induction false} QuadGapRead(start: Groups, third: bool, tails: seq<Text>, quad: seq<Text>, v: Values)
    requires Words(tails, v.tails) && OctetWords(quad, v.quad) && |v.quad| == 4 && v.tails != [] && v.tails[0] == 0xffff
    requires start.Valid() && start.tailLen == 0 && start.head == ZEROS && |v.tails| <= 4
    requires start.headLen + |v.tails| <= 6 && (third ==> start.headLen > 0)
    ensures Part([COLON, COLON] + ((if third then [COLON] else []) + TailText(tails, quad)), start, false) ==
            Some((start.(tail := Put(start.tail, 0, v.Tail()), tailLen := |v.Tail()|), []))
  {
    var three := [0xffff] + v.Pair();
    var rest := Chain(tails[1..], false);
    var s := QuadText(quad) + rest;
    QuadReads(quad, v.quad, rest, |quad|);
    QuadFills(start, s, three, rest);
    var g := start.(tail := Put(start.tail, 0, three), tailLen := 3);
    TailsRead(tails[1..], v.tails[1..], g);
    PutTwice(start.tail, three, v.tails[1..]);
    assert v.Tail() == three + v.tails[1..];
    QuadAnyStep(third, tails[0], s, rest, start, g);
  }

  lemma {:induction false} QuadReads(quad: seq<Text>, os: seq<nat>, rest: Text, n: nat)
    requires OctetWords(quad, os) && |quad| == n == 4 && !StartsWithDigit(rest, false)
    ensures var s := QuadText(quad) + rest;
            && |s| > 0 && s[0] == COLON
            && MappedPart(s) == Some(((os[0] * 256 + os[1], os[2] * 256 + os[3]), rest))
  {
    assert QuadText(quad) + rest == [COLON] + (Dotted(quad) + rest);
    DottedReads(quad, os, rest);
    MappedFrom(Dotted(quad) + rest, rest, os);
  }

  /** A quad behind the gap is read wherever the zeros before it are written. */
  lemma {:induction false} QuadBehindGap(sp: Spelling, v: Values)
    requires SpelledBy(sp, v) && QuadAllowed(true, v) && sp.gap && v.quad != [] && (sp.third ==> v.heads != [])
    requires |v.heads| <= 6 && |v.Tail()| <= 6 && |v.heads| + |v.Tail()| <= 8
    ensures Ipv6Address(sp.Written()) == Some(GapAddress(v.heads, v.Tail()))
  {
    var n := |v.heads|;
    QuadGapRead(START.(headLen := n), sp.third, sp.tails, sp.quad, v);
    ZeroHeads(v.heads);
    GapAccepted(sp.heads, v.heads, sp.Rest(),
                Groups(Put(ZEROS, 0, v.heads), Put(START.tail, 0, v.Tail()), n, |v.Tail()|));
    JoinedGap(v.heads, v.Tail());
  }

  lemma {:induction false} GapAccepted(heads: seq<Text>, hs: seq<nat>, gap: Text, end: Groups)
    requires Words(heads, hs) && |heads| <= 6 && DoubleColon(gap) && end.Valid()
    requires Part(gap, START.(head := Put(ZEROS, 0, hs), headLen := |heads|), false) == Some((end, []))
    ensures Ipv6Address(Chain(heads, true) + gap) == Some(Join(end))
  {
    UpToGap(heads, hs, gap);
  }

  lemma {:induction false} QuadAtEnd(sp: Spelling, v: Values)
    requires SpelledBy(sp, v) && QuadAllowed(false, v) && !sp.gap && v.quad != []
    ensures Ipv6Address(sp.Written()) == Some(v.Head(false))
  {
    MappedReads(sp.quad, v.quad);
    assert sp.Rest() == [COLON] + Dotted(sp.quad);
    HeadsMapped(sp.heads, sp.Rest(), v.quad[0] * 256 + v.quad[1], v.quad[2] * 256 + v.quad[3]);
    assert v.Head(false) == MappedAddress(v.quad[0] * 256 + v.quad[1], v.quad[2] * 256 + v.quad[3]);
  }

  lemma {:induction false} SpelledIsAccepted(sp: Spelling, v: Values, address: seq<nat>)
    requires Reads(sp, v, address)
    ensures Ipv6Address(sp.Written()) == Some(address)
  {
    if v.quad == [] {
      TailTextPlain(sp.tails);
      PlainIsAccepted(sp, v, address);
    } else if sp.gap {
      QuadBehindGap(sp, v);
    } else {
      QuadAtEnd(sp, v);
    }
  }

  lemma {:induction false} PlainIsAccepted(sp: Spelling, v: Values, address: seq<nat>)
    requires Reads(sp, v, address) && v.quad == [] && TailText(sp.tails, []) == Ending(sp.tails)
    ensures Ipv6Address(sp.Written()) == Some(address)
  {
    assert v.tails != [] ==> v.Tail() == v.tails;
    if !sp.gap {
      FullRoundTrip(sp.heads, address);
      assert sp.Written() == FullText(sp.heads);
    } else if sp.third {
      ThirdFits(sp.heads, v.heads, sp.tails, v.tails);
    } else {
      GapFits(sp.heads, v.heads, sp.tails, v.tails);
      assert sp.AfterGap() == Ending(sp.tails);
    }
  }

  /** A text is read as an address exactly when it is one of these spellings of it. */
  lemma {:induction false} AcceptedIff(s: Text, address: seq<nat>)
    ensures Ipv6Address(s) == Some(address) <==>
            exists sp: Spelling, v: Values :: s == sp.Written() && Reads(sp, v, address)
  {
    if Ipv6Address(s) == Some(address) {
      var sp, v := AcceptedIsSpelled(s, address);
    }
    forall sp: Spelling, v: Values | s == sp.Written() && Reads(sp, v, address)
      ensures Ipv6Address(s) == Some(address)
    {
      SpelledIsAccepted(sp, v, address);
    }
  }

  // ----- where this is not section 2.2 of RFC 4291

  /** With the third colon the address is the one without it: `1:::2` is read as `1::2`. */
  lemma {:induction false} ThirdColonIgnored(heads: seq<Text>, hs: seq<nat>, tails: seq<Text>, ts: seq<nat>)
    requires Words(heads, hs) && Words(tails, ts) && 0 < |heads| <= 6 && 0 < |tails| <= 6 && |heads| + |tails| <= 8
    ensures Ipv6Address(Chain(heads, true) + ([COLON, COLON, COLON] + Ending(tails))) ==
            Ipv6Address(GapText(heads, tails)) == Some(GapAddress(hs, ts))
  {
    ThirdFits(heads, hs, tails, ts);
    GapFits(heads, hs, tails, ts);
    TailTextPlain(tails);
    assert Spelling(heads, true, true, tails, []).Rest() == [COLON, COLON, COLON] + Ending(tails);
  }

  /** `::ffff:a.b.c.d` may be followed by up to three more groups. */
  lemma {:induction false} QuadInTheMiddle(ffff: Text, quad: seq<Text>, os: seq<nat>, more: seq<Text>, vs: seq<nat>)
    requires Word(ffff, 0xffff) && OctetWords(quad, os) && |quad| == 4 && Words(more, vs) && |more| <= 3
    ensures var hi, lo := os[0] * 256 + os[1], os[2] * 256 + os[3];
            Ipv6Address([COLON, COLON] + (ffff + ([COLON] + Dotted(quad) + Chain(more, false)))) ==
            Some(GapAddress([], [0xffff, hi, lo] + vs))
  {
    var sp, v := Spelling([], true, false, [ffff] + more, quad), Values([], [0xffff] + vs, os);
    LongerWords(ffff, 0xffff, more, vs);
    MiddleTail(v, vs);
    QuadBehindGap(sp, v);
    MiddleText(sp, ffff, more);
  }

  lemma {:induction false} MiddleTail(v: Values, vs: seq<nat>)
    requires v.tails == [0xffff] + vs && |v.quad| == 4
    ensures v.Tail() == [0xffff, v.quad[0] * 256 + v.quad[1], v.quad[2] * 256 + v.quad[3]] + vs
  {
    assert v.tails[1..] == vs;
  }

  lemma {:induction false} MiddleText(sp: Spelling, ffff: Text, more: seq<Text>)
    requires sp.heads == [] && sp.gap && !sp.third && sp.tails == [ffff] + more && sp.quad != []
    ensures sp.Written() == [COLON, COLON] + (ffff + ([COLON] + Dotted(sp.quad) + Chain(more, false)))
  {
    TailTextCons(ffff, more, sp.quad);
    assert [] + sp.Rest() == sp.Rest() && [] + TailText(sp.tails, sp.quad) == TailText(sp.tails, sp.quad);
  }

  /** The first octet is taken for a group, and nothing takes the dot. */
  lemma {:induction false} OctetAsGroup(quad: seq<Text>, os: seq<nat>) returns (value: nat, rest: Text)
    requires OctetWords(quad, os) && |quad| == 4
    ensures Number(Dotted(quad), 4, 0x10000, true) == Some((value, rest)) && |rest| > 0 && rest[0] == DOT
  {
    value, rest := ValueFrom(quad[0], 0, true), [DOT] + Dotted(quad[1..]);
    assert forall i :: 0 <= i < |quad[0]| ==> DigitValue(quad[0][i], false).Some?;
    ThreeDigits(quad[0], 0, 3);
    NumberReads(quad[0], rest, value, 4, 0x10000, true);
  }

  lemma {:induction false} ThreeDigits(t: Text, value: nat, n: nat)
    requires |t| <= n <= 3
    requires n == 3 ==> value < 1
    requires n == 2 ==> value < 0x10
    requires n == 1 ==> value < 0x100
    requires n == 0 ==> value < 0x1000
    ensures ValueFrom(t, value, true) < 0x1000
    decreases n
  {
    if |t| > 0 {
      ThreeDigits(t[1..], value * 16 + (if DigitValue(t[0], true).Some? then DigitValue(t[0], true).value else 0),
                  n - 1);
    }
  }

  /** A quad right after a double colon is refused, `::13.1.68.3` for one. */
  lemma {:induction false} QuadAfterGapRefused(heads: seq<Text>, hs: seq<nat>, quad: seq<Text>, os: seq<nat>)
    requires Words(heads, hs) && |heads| <= 6 && OctetWords(quad, os) && |quad| == 4
    ensures Ipv6Address(Chain(heads, true) + ([COLON, COLON] + Dotted(quad))) == None
  {
    var value, rest := OctetAsGroup(quad, os);
    var gap := [COLON, COLON] + Dotted(quad);
    UpToGap(heads, hs, gap);
    var g := START.(head := Put(ZEROS, 0, hs), headLen := |heads|);
    assert gap[2..] == Dotted(quad);
    assert MappedPart(rest).None?;
    var g1 := g.(tail := g.tail[0 := value], tailLen := 1);
    assert Part(gap, g, false) == Continue(rest, g1, true);
  }

  /** Six groups and a quad are read exactly when the groups are the prefix of the mapped addresses. */
  lemma {:induction false} QuadAfterSix(heads: seq<Text>, hs: seq<nat>, quad: seq<Text>, os: seq<nat>)
    requires Words(heads, hs) && |hs| == 6 && OctetWords(quad, os) && |quad| == 4
    ensures Ipv6Address(Chain(heads, true) + ([COLON] + Dotted(quad))) ==
            if hs == MAPPED_PREFIX then Some(MappedAddress(os[0] * 256 + os[1], os[2] * 256 + os[3])) else None
  {
    var s := [COLON] + Dotted(quad);
    if hs == MAPPED_PREFIX {
      MappedReads(quad, os);
      HeadsMapped(heads, s, os[0] * 256 + os[1], os[2] * 256 + os[3]);
    } else {
      OtherSixRefused(heads, hs, quad, os, |hs| - 1);
    }
  }

  lemma {:induction false} OtherSixRefused(heads: seq<Text>, hs: seq<nat>, quad: seq<Text>, os: seq<nat>, n: nat)
    requires Words(heads, hs) && |hs| == 6 && n == 5 && OctetWords(quad, os) && |quad| == 4 && hs != MAPPED_PREFIX
    ensures Ipv6Address(Chain(heads, true) + ([COLON] + Dotted(quad))) == None
  {
    var s := [COLON] + Dotted(quad);
    var g := START.(head := Put(ZEROS, 0, hs[..n]), headLen := n);
    AllButLast(heads, hs, s);
    PutLast(ZEROS, hs, n);
    SixthGroup(heads[n], hs[n], s, g);
    SeventhRefused(quad, os, g.(head := g.head[n := hs[n]], headLen := n + 1));
  }

  lemma {:induction false} PutLast(a: seq<nat>, vs: seq<nat>, n: nat)
    requires |vs| == n + 1 <= |a|
    ensures Put(a, 0, vs[..n])[n := vs[n]][..n + 1] == vs
  {
  }

  lemma {:induction false} SixthGroup(t: Text, value: nat, s: Text, g: Groups)
    requires g.Valid() && g.headLen == 5 && g.tailLen == 0 && Word(t, value) && |s| > 0 && s[0] == COLON
    requires g.head[5 := value][..6] != MAPPED_PREFIX
    ensures Part([COLON] + t + s, g, false) == Part(s, g.(head := g.head[5 := value], headLen := 6), false)
  {
    assert [COLON] + t + s == Lead(false, t) + s;
    LeadShape(false, t, s, value);
    NumberReads(t, s, value, 4, 0x10000, true);
  }

  lemma {:induction false} SeventhRefused(quad: seq<Text>, os: seq<nat>, g: Groups)
    requires g.Valid() && g.headLen == 6 && g.tailLen == 0 && OctetWords(quad, os) && |quad| == 4
    ensures Part([COLON] + Dotted(quad), g, false) == None
  {
    var value, rest := OctetAsGroup(quad, os);
    var s := [COLON] + Dotted(quad);
    assert s[1..] == Dotted(quad) && s[1] == quad[0][0];
    var g1 := g.(head := g.head[6 := value], headLen := 7);
    assert Part(s, g, false) == Continue(rest, g1, false);
  }
}
