/**
  Printing an address and reading it back. Groups are printed as in section 4 of RFC 5952: lower case,
  no leading zeros.
 */
module ParserPrint {
  import opened Options
  import opened Octets
  import opened ParserSpec
  import opened ParserRoundTrip

  function Digit(d: nat): byte
    requires d < 16
  {
    if d < 10 then (48 + d) as byte else (87 + d) as byte
  }

  /** The shortest digits of `v`. */
  function Digits(v: nat, hex: bool): (t: Text)
    ensures |t| > 0
    decreases v
  {
    if v < Base(hex) then [Digit(v)] else Digits(v / Base(hex), hex) + [Digit(v % Base(hex))]
  }

  lemma {:induction false} ValueAppend(t: Text, d: nat, value: nat, hex: bool)
    requires d < Base(hex)
    ensures ValueFrom(t + [Digit(d)], value, hex) == ValueFrom(t, value, hex) * Base(hex) + d
    decreases |t|
  {
    assert [Digit(d)][1..] == [];
    if |t| == 0 {
      assert t + [Digit(d)] == [Digit(d)];
      assert ValueFrom([], value * Base(hex) + d, hex) == value * Base(hex) + d;
    } else {
      assert (t + [Digit(d)])[1..] == t[1..] + [Digit(d)];
      ValueAppend(t[1..], d, value * Base(hex) + (if DigitValue(t[0], hex).Some? then DigitValue(t[0], hex).value
                                                  else 0), hex);
    }
  }

  /** The printed digits are digits and spell the number. */
  lemma {:induction false} DigitsSpell(v: nat, hex: bool)
    ensures IsDigits(Digits(v, hex), hex) && ValueFrom(Digits(v, hex), 0, hex) == v
    decreases v
  {
    var b := Base(hex);
    ValueAppend([], v % b, 0, hex);
    if v < b {
      assert [] + [Digit(v)] == [Digit(v)];
      assert ValueFrom([], 0, hex) == 0;
    } else {
      DigitsSpell(v / b, hex);
      ValueAppend(Digits(v / b, hex), v % b, 0, hex);
      assert v / b * b + v % b == v;
    }
  }

  lemma {:induction false} DigitsShort(v: nat, hex: bool)
    ensures v < Base(hex) ==> |Digits(v, hex)| == 1
    ensures v < Base(hex) * Base(hex) ==> |Digits(v, hex)| <= 2
    ensures v < Base(hex) * Base(hex) * Base(hex) ==> |Digits(v, hex)| <= 3
    ensures v < Base(hex) * Base(hex) * Base(hex) * Base(hex) ==> |Digits(v, hex)| <= 4
  {
    var b := Base(hex);
    assert b == 10 || b == 16;
    var v1 := v / b;
    var v2 := v1 / b;
    assert |Digits(v2 / b, hex)| == 1 || v2 / b >= b;
    assert v >= b ==> |Digits(v, hex)| == |Digits(v1, hex)| + 1;
    assert v1 >= b ==> |Digits(v1, hex)| == |Digits(v2, hex)| + 1;
    assert v2 >= b ==> |Digits(v2, hex)| == |Digits(v2 / b, hex)| + 1;
  }

  lemma {:induction false} GroupSpelled(v: nat)
    requires v < 0x10000
    ensures Word(Digits(v, true), v)
  {
    DigitsSpell(v, true);
    DigitsShort(v, true);
  }

  lemma {:induction false} OctetSpelled(v: nat)
    requires v < 256
    ensures Spells(Digits(v, false), v, 3, false)
  {
    DigitsSpell(v, false);
    DigitsShort(v, false);
  }

  predicate Address(a: seq<nat>) {
    |a| == 8 && GroupsFit(a)
  }

  predicate GroupsFit(vs: seq<nat>) {
    forall i :: 0 <= i < |vs| ==> vs[i] < 0x10000
  }

  function Printed(vs: seq<nat>): (ts: seq<Text>) {
    seq(|vs|, i requires 0 <= i < |vs| => Digits(vs[i], true))
  }

  lemma {:induction false} PrintedWords(vs: seq<nat>)
    requires GroupsFit(vs)
    ensures Words(Printed(vs), vs)
  {
    forall i | 0 <= i < |vs| ensures Word(Printed(vs)[i], vs[i]) {
      GroupSpelled(vs[i]);
    }
  }

  /** Every address printed in full is read back. */
  lemma {:induction false} PrintedInFull(a: seq<nat>)
    requires Address(a)
    ensures Ipv6Address(FullText(Printed(a))) == Some(a)
  {
    PrintedWords(a);
    FullRoundTrip(Printed(a), a);
  }

  predicate ZeroRun(a: seq<nat>, i: nat, j: nat) {
    i <= j <= |a| && forall k :: i <= k < j ==> a[k] == 0
  }

  /**
    Every address printed with a non-empty run of zero groups as a double colon is read back, unless the
    run is a single group at either end; such a text is refused.
   */
  lemma {:induction false} PrintedWithGap(a: seq<nat>, i: nat, j: nat)
    requires Address(a) && i < j <= 8 && ZeroRun(a, i, j)
    ensures Ipv6Address(GapText(Printed(a[..i]), Printed(a[j..]))) ==
            if j - i == 1 && (i == 0 || j == 8) then None else Some(a)
  {
    var hs, ts := a[..i], a[j..];
    PrintedWords(hs);
    PrintedWords(ts);
    GapRoundTrip(Printed(hs), hs, Printed(ts), ts);
    assert GapAddress(hs, ts) == a;
  }

  /** The octets of the last two groups. */
  function LastOctets(a: seq<nat>): seq<nat>
    requires |a| == 8
  {
    [a[6] / 256, a[6] % 256, a[7] / 256, a[7] % 256]
  }

  function PrintedOctets(os: seq<nat>): (ts: seq<Text>) {
    seq(|os|, i requires 0 <= i < |os| => Digits(os[i], false))
  }

  lemma {:induction false} OctetsSpelled(os: seq<nat>)
    requires forall i :: 0 <= i < |os| ==> os[i] < 256
    ensures OctetWords(PrintedOctets(os), os)
  {
    forall i | 0 <= i < |os| ensures Spells(PrintedOctets(os)[i], os[i], 3, false) {
      OctetSpelled(os[i]);
    }
  }

  /** Every IPv4-mapped address printed as `::ffff:a.b.c.d`, or in full with the dotted end, is read back. */
  lemma {:induction false} PrintedMapped(a: seq<nat>)
    requires Address(a) && a[..6] == MAPPED_PREFIX
    ensures var dotted := [COLON] + Dotted(PrintedOctets(LastOctets(a)));
            Ipv6Address([COLON, COLON] + Digits(a[5], true) + dotted) == Some(a) &&
            Ipv6Address(Chain(Printed(a[..6]), true) + dotted) == Some(a)
  {
    var os := LastOctets(a);
    var ffff, heads, quad := Digits(a[5], true), Printed(a[..6]), PrintedOctets(os);
    assert a[5] == a[..6][5] == 0xffff;
    OctetsSpelled(os);
    GroupSpelled(a[5]);
    PrintedWords(a[..6]);
    MappedWhole(a);
    MappedRoundTrip(ffff, heads, quad, os);
  }

  lemma {:induction false} MappedWhole(a: seq<nat>)
    requires |a| == 8 && a[..6] == MAPPED_PREFIX
    ensures var os := LastOctets(a); MappedAddress(os[0] * 256 + os[1], os[2] * 256 + os[3]) == a
  {
    var m := MappedAddress(a[6], a[7]);
    assert a == a[..6] + a[6..];
    assert m == MAPPED_PREFIX + [a[6], a[7]];
  }
}
