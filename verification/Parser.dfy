/**
  The address parser as the program has it: a cursor that moves forward and is put back when an attempt
  fails, loops over digits and octets, and a recursion that fills the head and the tail in place. Every
  method accepts exactly what the functions of `ParserSpec` accept, for every string of octets.
 */
module ParserCursor {
  import opened Options
  import opened Octets
  import opened ParserSpec

  class Parser {
    const data: Text
    var pos: nat

    ghost predicate Valid()
      reads this
    {
      pos <= |data|
    }

    ghost function Rest(): Text
      reads this
      requires Valid()
    {
      data[pos..]
    }

    constructor (text: Text)
      ensures Valid() && data == text && Rest() == text
    {
      data := text;
      pos := 0;
    }

    method LookaheadChar(c: byte) returns (r: bool)
      requires Valid()
      ensures r == AfterChar(Rest(), c).Some?
    {
      r := pos < |data| && data[pos] == c;
    }

    method Advance() returns (r: Option<byte>)
      requires Valid()
      modifies this
      ensures Valid() && pos >= old(pos)
      ensures r.Some? ==> pos > old(pos)
      ensures r.Some? == (old(Rest()) != [])
      ensures r.Some? ==> r.value == old(Rest())[0] && Rest() == old(Rest())[1..]
      ensures r.None? ==> pos == old(pos)
    {
      if pos < |data| {
        r := Some(data[pos]);
        pos := pos + 1;
      } else {
        r := None;
      }
    }

    method AcceptEof() returns (r: bool)
      requires Valid()
      ensures r == (Rest() == [])
    {
      r := pos == |data|;
    }

    method AcceptChar(c: byte) returns (ok: bool)
      requires Valid()
      modifies this
      ensures Valid() && pos >= old(pos)
      ensures AfterChar(old(Rest()), c) == if ok then Some(Rest()) else None
    {
      var b := Advance();
      ok := b == Some(c);
    }

    /** An attempt at the double colon: the cursor is put back when it fails. */
    method TryDoubleColon() returns (ok: bool)
      requires Valid()
      modifies this
      ensures Valid() && pos >= old(pos)
      ensures ok == DoubleColon(old(Rest()))
      ensures Rest() == if ok then old(Rest())[2..] else old(Rest())
    {
      var before := pos;
      ok := AcceptChar(COLON);
      if ok {
        ok := AcceptChar(COLON);
      }
      if !ok {
        pos := before;
      }
    }

    method AcceptDigit(hex: bool) returns (r: Option<nat>)
      requires Valid()
      modifies this
      ensures Valid() && pos >= old(pos)
      ensures r.Some? ==> pos > old(pos)
      ensures r.Some? == StartsWithDigit(old(Rest()), hex)
      ensures r.Some? ==> r == DigitValue(old(Rest())[0], hex) && Rest() == old(Rest())[1..]
    {
      var b := Advance();
      if b.None? {
        return None;
      }
      r := DigitValue(b.value, hex);
    }

    method AcceptNumber(maxDigits: nat, maxValue: nat, hex: bool) returns (r: Option<nat>)
      requires Valid()
      modifies this
      ensures Valid() && pos >= old(pos)
      ensures r.Some? ==> pos > old(pos)
      ensures Number(old(Rest()), maxDigits, maxValue, hex) == if r.Some? then Some((r.value, Rest())) else None
    {
      var first := AcceptDigit(hex);
      if first.None? {
        return None;
      }
      var value: nat := first.value;
      var left: nat := if maxDigits > 1 then maxDigits - 1 else 0;
      ghost var all := MoreDigits(Rest(), left, value, hex);
      while left > 0
        invariant Valid() && pos > old(pos) && MoreDigits(Rest(), left, value, hex) == all
      {
        var before := pos;
        var digit := AcceptDigit(hex);
        if digit.None? {
          pos := before;
          break;
        }
        value := value * (if hex then 16 else 10) + digit.value;
        left := left - 1;
      }
      assert all == (value, Rest());
      r := if value < maxValue then Some(value) else None;
    }

    /** An attempt at a number: the cursor is put back when it fails. */
    method TryNumber(maxDigits: nat, maxValue: nat, hex: bool) returns (r: Option<nat>)
      requires Valid()
      modifies this
      ensures Valid() && pos >= old(pos)
      ensures r.Some? ==> pos > old(pos)
      ensures Number(old(Rest()), maxDigits, maxValue, hex) == if r.Some? then Some((r.value, Rest())) else None
      ensures r.None? ==> Rest() == old(Rest())
    {
      var before := pos;
      r := AcceptNumber(maxDigits, maxValue, hex);
      if r.None? {
        pos := before;
      }
    }

    /** `n` decimal octets with dots between them. */
    method AcceptDotted(n: nat) returns (r: Option<seq<nat>>)
      requires Valid() && n > 0
      modifies this
      ensures Valid() && pos >= old(pos)
      ensures DottedOctets(old(Rest()), n) == if r.Some? then Some((r.value, Rest())) else None
      ensures r.Some? ==> |r.value| == n
    {
      DottedShrinks(Rest(), n);
      var octets: seq<nat> := [];
      ghost var all := DottedOctets(Rest(), n);
      PrefixedNothing(all);
      for i := 0 to n - 1
        invariant Valid() && pos >= old(pos) && all == Prefixed(octets, DottedOctets(Rest(), n - i))
      {
        ghost var soFar, at := octets, Rest();
        var v := AcceptNumber(3, 0x100, false);
        if v.None? {
          return None;
        }
        octets := octets + [v.value];
        var dot := AcceptChar(DOT);
        if !dot {
          return None;
        }
        OneOctet(soFar, at, v.value, Rest(), n - i);
      }
      var last := AcceptNumber(3, 0x100, false);
      if last.None? {
        return None;
      }
      r := Some(octets + [last.value]);
    }

    /** A colon and four octets, as two groups. */
    method AcceptMapped() returns (r: Option<(nat, nat)>)
      requires Valid()
      modifies this
      ensures Valid() && pos >= old(pos)
      ensures MappedPart(old(Rest())) == if r.Some? then Some((r.value, Rest())) else None
    {
      var colon := AcceptChar(COLON);
      if !colon {
        return None;
      }
      var o := AcceptDotted(4);
      r := if o.None? then None else Some((o.value[0] * 256 + o.value[1], o.value[2] * 256 + o.value[3]));
    }

    /** A colon and a dotted quad, written into the two groups from `idx`; nothing changes when it fails. */
    method TryMapped(parts: array<nat>, idx: nat) returns (ok: bool)
      requires Valid() && idx + 2 <= parts.Length
      modifies this, parts
      ensures Valid() && pos >= old(pos)
      ensures ok == MappedPart(old(Rest())).Some?
      ensures ok ==> MappedPart(old(Rest())) == Some(((parts[idx], parts[idx + 1]), Rest()))
      ensures ok ==> parts[..] == old(parts[..])[idx := parts[idx]][idx + 1 := parts[idx + 1]]
      ensures !ok ==> parts[..] == old(parts[..]) && Rest() == old(Rest())
    {
      var before := pos;
      var groups := AcceptMapped();
      ok := groups.Some?;
      if ok {
        parts[idx], parts[idx + 1] := groups.value.0, groups.value.1;
      } else {
        pos := before;
      }
    }

    /** `FillHead`, in place. */
    method PutHead(head: array<nat>, headLen: nat, part: nat, ghost g: Groups) returns (len: nat)
      requires Valid() && g.Valid() && headLen < 8 && head.Length == 8
      requires g.head == head[..] && g.headLen == headLen
      modifies this, head
      ensures Valid() && pos >= old(pos) && len <= 8
      ensures FillHead(g, part, old(Rest())) == (g.(head := head[..], headLen := len), Rest())
    {
      head[headLen] := part;
      len := headLen + 1;
      if len == 6 && head[..6] == MAPPED_PREFIX {
        var ok := TryMapped(head, len);
        if ok {
          len := 8;
        }
      }
    }

    /** `FillTail`, in place. */
    method PutTail(head: array<nat>, tail: array<nat>, tailLen: nat, part: nat, ghost g: Groups) returns (len: nat)
      requires Valid() && g.Valid() && tailLen < 6 && head != tail && head.Length == 8 && tail.Length == 6
      requires g.head == head[..] && g.tail == tail[..] && g.tailLen == tailLen
      modifies this, tail
      ensures Valid() && pos >= old(pos) && len <= 6
      ensures FillTail(g, part, old(Rest())) == (g.(tail := tail[..], tailLen := len), Rest())
    {
      tail[tailLen] := part;
      len := tailLen + 1;
      if len == 1 && tail[0] == 0xffff && head[..] == ZEROS {
        var ok := TryMapped(tail, len);
        if ok {
          len := 3;
        }
      }
    }

    method AcceptSeparator(headLen: nat, tailLen: nat, useTail: bool) returns (ok: bool, doubleColon: bool)
      requires Valid()
      modifies this
      ensures Valid() && pos >= old(pos)
      ensures Separator(old(Rest()), headLen, tailLen, useTail) == if ok then Some((doubleColon, Rest())) else None
      ensures ok && doubleColon ==> pos > old(pos)
    {
      doubleColon := TryDoubleColon();
      if doubleColon {
        ok := !useTail && headLen < 7;
      } else if headLen != 0 || (useTail && tailLen != 0) {
        ok := AcceptChar(COLON);
      } else {
        ok := true;
      }
    }

    /** One group, unless the text ends with the double colon. */
    method AcceptGroup(head: array<nat>, tail: array<nat>, headLen: nat, tailLen: nat, useTail: bool, doubleColon: bool)
      returns (ok: bool, headEnd: nat, tailEnd: nat)
      requires Valid() && head != tail
      requires Groups(head[..], tail[..], headLen, tailLen).Valid()
      modifies this, head, tail
      ensures Valid() && pos >= old(pos)
      ensures ok ==> Groups(head[..], tail[..], headEnd, tailEnd).Valid()
      ensures ok && !doubleColon ==> pos > old(pos)
      ensures FromGroup(old(Rest()), old(Groups(head[..], tail[..], headLen, tailLen)), useTail, doubleColon) ==
              if ok then Continue(Rest(), Groups(head[..], tail[..], headEnd, tailEnd), useTail) else None
    {
      ghost var g := Groups(head[..], tail[..], headLen, tailLen);
      headEnd, tailEnd := headLen, tailLen;
      var part := TryNumber(4, 0x10000, true);
      if part.None? {
        ok := doubleColon;
      } else if !useTail && headLen < 8 {
        ok := true;
        headEnd := PutHead(head, headLen, part.value, g);
      } else if tailLen < 6 {
        ok := true;
        tailEnd := PutTail(head, tail, tailLen, part.value, g);
      } else {
        ok := false;
      }
    }

    /** One group or a double colon, and then the rest; the recursion ends because the cursor has moved. */
    method AcceptIpv6Part(head: array<nat>, tail: array<nat>, headLen: nat, tailLen: nat, useTail: bool)
      returns (ok: bool, headEnd: nat, tailEnd: nat)
      requires Valid() && head != tail
      requires Groups(head[..], tail[..], headLen, tailLen).Valid()
      modifies this, head, tail
      ensures Valid() && pos >= old(pos)
      ensures Part(old(Rest()), old(Groups(head[..], tail[..], headLen, tailLen)), useTail) ==
              if ok then Some((Groups(head[..], tail[..], headEnd, tailEnd), Rest())) else None
      decreases |data| - pos
    {
      headEnd, tailEnd := headLen, tailLen;
      PartSplit(Rest(), Groups(head[..], tail[..], headLen, tailLen), useTail);
      var doubleColon;
      ok, doubleColon := AcceptSeparator(headLen, tailLen, useTail);
      if !ok {
        return;
      }
      var intoTail := useTail || doubleColon;
      ok, headEnd, tailEnd := AcceptGroup(head, tail, headLen, tailLen, intoTail, doubleColon);
      if !ok {
        return;
      }
      if headEnd + tailEnd > 8 {
        return false, headEnd, tailEnd;
      }
      var more := LookaheadChar(COLON);
      if more {
        ok, headEnd, tailEnd := AcceptIpv6Part(head, tail, headEnd, tailEnd, intoTail);
      } else {
        ok := headEnd >= 8 || intoTail;
      }
    }

    /** The tail is copied to the end of the head. */
    method AcceptIpv6() returns (r: Option<seq<nat>>)
      requires Valid()
      modifies this
      ensures Valid() && pos >= old(pos)
      ensures Ipv6(old(Rest())) == if r.Some? then Some((r.value, Rest())) else None
      ensures r.Some? ==> |r.value| == 8
    {
      var addr := new nat[8](_ => 0);
      var tail := new nat[6](_ => 0);
      assert addr[..] == ZEROS && tail[..] == START.tail;
      var ok, headLen, tailLen := AcceptIpv6Part(addr, tail, 0, 0, false);
      if !ok {
        return None;
      }
      ghost var g := Groups(addr[..], tail[..], headLen, tailLen);
      forall i | 0 <= i < tailLen {
        addr[8 - tailLen + i] := tail[i];
      }
      assert addr[..] == Join(g);
      r := Some(addr[..]);
    }

    /** An address and then the end of the input. */
    method ParseIpv6() returns (r: Option<seq<nat>>)
      requires Valid()
      modifies this
      ensures Valid() && pos >= old(pos)
      ensures r == Ipv6Address(old(Rest()))
    {
      r := AcceptIpv6();
      if r.Some? {
        var end := AcceptEof();
        if !end {
          r := None;
        }
      }
    }
  }

  /** What was read so far, in front of what is read next. */
  ghost function Prefixed(octets: seq<nat>, r: Option<(seq<nat>, Text)>): Option<(seq<nat>, Text)> {
    match r
    case None => None
    case Some((os, s)) => Some((octets + os, s))
  }

  lemma {:induction false} PrefixedNothing(r: Option<(seq<nat>, Text)>)
    ensures Prefixed([], r) == r
  {
    if r.Some? {
      assert [] + r.value.0 == r.value.0;
    }
  }

  lemma {:induction false} OneOctet(octets: seq<nat>, at: Text, v: nat, rest: Text, n: nat)
    requires n > 1 && Number(at, 3, 0x100, false).Some?
    requires var (w, s) := Number(at, 3, 0x100, false).value; w == v && AfterChar(s, DOT) == Some(rest)
    ensures Prefixed(octets, DottedOctets(at, n)) == Prefixed(octets + [v], DottedOctets(rest, n - 1))
  {
    var r := DottedOctets(rest, n - 1);
    if r.Some? {
      assert octets + ([v] + r.value.0) == octets + [v] + r.value.0;
    }
  }

  /** The separator in front of a group: whether it is a double colon, and what is left. */
  ghost function Separator(s: Text, headLen: nat, tailLen: nat, useTail: bool): Option<(bool, Text)> {
    if DoubleColon(s) then
      if useTail || headLen >= 7 then None else Some((true, s[2..]))
    else if headLen != 0 || (useTail && tailLen != 0) then
      match AfterChar(s, COLON)
      case None => None
      case Some(s1) => Some((false, s1))
    else Some((false, s))
  }

  /** What follows the separator. */
  ghost function FromGroup(s: Text, g: Groups, tail: bool, doubleColon: bool): Option<(Groups, Text)>
    requires g.Valid()
  {
    match Number(s, 4, 0x10000, true)
    case None => if doubleColon then Continue(s, g, tail) else None
    case Some((part, s2)) =>
      if !tail && g.headLen < 8 then
        var r := FillHead(g, part, s2);
        Continue(r.1, r.0, tail)
      else if g.tailLen < 6 then
        var r := FillTail(g, part, s2);
        Continue(r.1, r.0, tail)
      else None
  }

  lemma {:induction false} PartSplit(s: Text, g: Groups, useTail: bool)
    requires g.Valid()
    ensures Part(s, g, useTail) ==
            match Separator(s, g.headLen, g.tailLen, useTail)
            case None => None
            case Some((dc, s1)) => FromGroup(s1, g, useTail || dc, dc)
  {
  }
}
