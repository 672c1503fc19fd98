/**
  The address parser as functions of the remaining input. `Number`, `Octets`, `Part` and `Ipv6` compute
  what `accept_number`, `accept_ipv4_octets`, `accept_ipv6_part` and `accept_ipv6` accept, and what is left.
 */
module ParserSpec {
  import opened Options
  import opened Octets

  const COLON: byte := 58
  const DOT: byte := 46

  type Text = seq<byte>

  function DigitValue(b: byte, hex: bool): Option<nat> {
    if 48 <= b <= 57 then Some((b - 48) as nat)
    else if hex && 97 <= b <= 102 then Some((b - 97) as nat + 10)
    else if hex && 65 <= b <= 70 then Some((b - 65) as nat + 10)
    else None
  }

  predicate StartsWithDigit(s: Text, hex: bool) {
    |s| > 0 && DigitValue(s[0], hex).Some?
  }

  function Base(hex: bool): nat {
    if hex then 16 else 10
  }

  function AfterChar(s: Text, c: byte): Option<Text> {
    if |s| > 0 && s[0] == c then Some(s[1..]) else None
  }

  /** Take at most `left` more digits. */
  function MoreDigits(s: Text, left: nat, value: nat, hex: bool): (nat, Text)
    decreases |s|
  {
    if left == 0 || !StartsWithDigit(s, hex) then (value, s)
    else MoreDigits(s[1..], left - 1, value * Base(hex) + DigitValue(s[0], hex).value, hex)
  }

  function Number(s: Text, maxDigits: nat, maxValue: nat, hex: bool): Option<(nat, Text)> {
    if !StartsWithDigit(s, hex) then None
    else
      var r := MoreDigits(s[1..], if maxDigits > 1 then maxDigits - 1 else 0, DigitValue(s[0], hex).value, hex);
      if r.0 < maxValue then Some(r) else None
  }

  /** `n` decimal octets separated by dots. */
  function DottedOctets(s: Text, n: nat): Option<(seq<nat>, Text)>
    decreases n, |s|
  {
    if n == 0 then None
    else match Number(s, 3, 0x100, false)
    case None => None
    case Some((v, s1)) =>
      if n == 1 then Some(([v], s1))
      else match AfterChar(s1, DOT)
      case None => None
      case Some(s2) => match DottedOctets(s2, n - 1)
        case None => None
        case Some((rest, s3)) => Some(([v] + rest, s3))
  }

  /** A colon and four octets, as two groups. */
  function MappedPart(s: Text): Option<((nat, nat), Text)> {
    match AfterChar(s, COLON)
    case None => None
    case Some(s1) => match DottedOctets(s1, 4)
      case None => None
      case Some((o, s2)) =>
        if |o| == 4 then Some(((o[0] * 256 + o[1], o[2] * 256 + o[3]), s2)) else None
  }

  /** The groups before and after the double colon, as far as they are filled in. */
  datatype Groups = Groups(head: seq<nat>, tail: seq<nat>, headLen: nat, tailLen: nat) {
    predicate Valid() {
      |head| == 8 && |tail| == 6 && headLen <= 8 && tailLen <= 6
    }
  }

  const ZEROS: seq<nat> := [0, 0, 0, 0, 0, 0, 0, 0]
  const START := Groups(ZEROS, [0, 0, 0, 0, 0, 0], 0, 0)
  const MAPPED_PREFIX: seq<nat> := [0, 0, 0, 0, 0, 0xffff]

  function FillHead(g: Groups, part: nat, s: Text): (Groups, Text)
    requires g.Valid() && g.headLen < 8
  {
    var g1 := g.(head := g.head[g.headLen := part], headLen := g.headLen + 1);
    if g1.headLen == 6 && g1.head[..6] == MAPPED_PREFIX && MappedPart(s).Some? then
      var ((hi, lo), s1) := MappedPart(s).value;
      (g1.(head := g1.head[6 := hi][7 := lo], headLen := 8), s1)
    else (g1, s)
  }

  function FillTail(g: Groups, part: nat, s: Text): (Groups, Text)
    requires g.Valid() && g.tailLen < 6
  {
    var g1 := g.(tail := g.tail[g.tailLen := part], tailLen := g.tailLen + 1);
    if g1.tailLen == 1 && g1.tail[0] == 0xffff && g1.head == ZEROS && MappedPart(s).Some? then
      var ((hi, lo), s1) := MappedPart(s).value;
      (g1.(tail := g1.tail[1 := hi][2 := lo], tailLen := 3), s1)
    else (g1, s)
  }

  predicate DoubleColon(s: Text) {
    |s| >= 2 && s[0] == COLON && s[1] == COLON
  }

  // ----- nothing is invented: what is left is a suffix

  lemma {:induction false} MoreDigitsShrinks(s: Text, left: nat, value: nat, hex: bool)
    ensures |MoreDigits(s, left, value, hex).1| <= |s|
    decreases left
  {
    if left > 0 && StartsWithDigit(s, hex) {
      MoreDigitsShrinks(s[1..], left - 1, value * Base(hex) + DigitValue(s[0], hex).value, hex);
    }
  }

  lemma {:induction false} NumberShrinks(s: Text, maxDigits: nat, maxValue: nat, hex: bool)
    ensures var r := Number(s, maxDigits, maxValue, hex); r.Some? ==> |r.value.1| < |s| && r.value.0 < maxValue
  {
    if StartsWithDigit(s, hex) {
      MoreDigitsShrinks(s[1..], if maxDigits > 1 then maxDigits - 1 else 0, DigitValue(s[0], hex).value, hex);
    }
  }

  lemma {:induction false} DottedShrinks(s: Text, n: nat)
    ensures var r := DottedOctets(s, n); r.Some? ==>
            |r.value.1| < |s| && |r.value.0| == n && forall i :: 0 <= i < n ==> r.value.0[i] < 256
    decreases n
  {
    if n > 0 {
      NumberShrinks(s, 3, 0x100, false);
      var r := Number(s, 3, 0x100, false);
      if r.Some? && n > 1 {
        var d := AfterChar(r.value.1, DOT);
        if d.Some? {
          DottedShrinks(d.value, n - 1);
        }
      }
    }
  }

  lemma {:induction false} MappedShrinks(s: Text)
    ensures var r := MappedPart(s); r.Some? ==> |r.value.1| < |s| && r.value.0.0 < 0x10000 && r.value.0.1 < 0x10000
  {
    var c := AfterChar(s, COLON);
    if c.Some? {
      DottedShrinks(c.value, 4);
    }
  }

  /** `accept_ipv6_part`: one group, or a double colon, and then the rest. */
  function Part(s: Text, g: Groups, useTail: bool): (r: Option<(Groups, Text)>)
    requires g.Valid()
    ensures r.Some? ==> r.value.0.Valid() && r.value.0.headLen + r.value.0.tailLen <= 8
    decreases |s|, 1
  {
    var dc := DoubleColon(s);
    if dc && (useTail || g.headLen >= 7) then None
    else
      var tail := useTail || dc;
      var s1 := if dc then Some(s[2..])
                else if g.headLen != 0 || (useTail && g.tailLen != 0) then AfterChar(s, COLON)
                else Some(s);
      if s1.None? then None
      else
        NumberShrinks(s1.value, 4, 0x10000, true);
        match Number(s1.value, 4, 0x10000, true)
        case None => if dc then Continue(s1.value, g, tail) else None
        case Some((part, s2)) =>
          MappedShrinks(s2);
          if !tail && g.headLen < 8 then
            var r := FillHead(g, part, s2);
            Continue(r.1, r.0, tail)
          else if g.tailLen < 6 then
            var r := FillTail(g, part, s2);
            Continue(r.1, r.0, tail)
          else None
  }

  /** After a group: stop, or go on at a colon. */
  function Continue(s: Text, g: Groups, useTail: bool): (r: Option<(Groups, Text)>)
    requires g.Valid()
    ensures r.Some? ==> r.value.0.Valid() && r.value.0.headLen + r.value.0.tailLen <= 8
    decreases |s|, 2
  {
    if g.headLen + g.tailLen > 8 then None
    else if !(|s| > 0 && s[0] == COLON) then
      if g.headLen < 8 && !useTail then None else Some((g, s))
    else Part(s, g, useTail)
  }

  /** The tail goes to the end of the address. */
  function Join(g: Groups): seq<nat>
    requires g.Valid()
  {
    g.head[..8 - g.tailLen] + g.tail[..g.tailLen]
  }

  function Ipv6(s: Text): Option<(seq<nat>, Text)> {
    match Part(s, START, false)
    case None => None
    case Some((g, rest)) => Some((Join(g), rest))
  }

  /** `until_eof`: the whole input must be consumed. */
  function Ipv6Address(s: Text): Option<seq<nat>> {
    match Ipv6(s)
    case None => None
    case Some((a, rest)) => if rest == [] then Some(a) else None
  }
}
