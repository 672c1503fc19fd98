/** Optional values. */
module Options {
  datatype Option<+T> = None | Some(value: T)
}

/** Octets. */
module Octets {
  newtype byte = b: int | 0 <= b < 256
}

/** Shifts of unbounded naturals, for the window scales and the retry back-off. */
module Shifts {
  function Shl(x: nat, n: nat): (r: nat) {
    if n == 0 then x else 2 * Shl(x, n - 1)
  }

  function Shr(x: nat, n: nat): nat {
    if n == 0 then x else Shr(x, n - 1) / 2
  }

  lemma {:induction false} ShlMonotone(x: nat, y: nat, n: nat)
    requires x <= y
    ensures x <= Shl(x, n) <= Shl(y, n)
    ensures x == 0 ==> Shl(x, n) == 0
  {
    if n > 0 {
      ShlMonotone(x, y, n - 1);
    }
  }

  lemma {:induction false} ShlMonotoneShift(x: nat, m: nat, n: nat)
    requires m <= n
    ensures Shl(x, m) <= Shl(x, n)
    decreases n - m
  {
    if m < n {
      ShlMonotoneShift(x, m + 1, n);
    }
  }

  lemma {:induction false} ShlHalf(x: nat, n: nat)
    ensures Shl(2 * x, n) == 2 * Shl(x, n)
  {
    if n > 0 {
      ShlHalf(x, n - 1);
    }
  }

  lemma {:induction false} ShlSplit(x: nat, a: nat, b: nat)
    ensures Shl(x, a + b) == Shl(Shl(x, a), b)
    decreases b
  {
    if b > 0 {
      ShlSplit(x, a, b - 1);
    }
  }

  lemma ShlTen(x: nat)
    ensures Shl(x, 10) == 1024 * x
  {
    ShlFive(x);
    ShlSplit(x, 5, 5);
    ShlFive(32 * x);
  }

  lemma ShlFive(x: nat)
    ensures Shl(x, 5) == 32 * x
  {
    assert Shl(x, 1) == 2 * Shl(x, 0);
    assert Shl(x, 2) == 2 * Shl(x, 1);
    assert Shl(x, 3) == 2 * Shl(x, 2);
    assert Shl(x, 4) == 2 * Shl(x, 3);
  }

  /** Rounding a window down to its scale never enlarges it. */
  lemma {:induction false} ShrShlBelow(x: nat, n: nat)
    ensures Shl(Shr(x, n), n) <= x
  {
    if n > 0 {
      var h := Shr(x, n - 1);
      ShrShlBelow(x, n - 1);
      ShlHalf(h / 2, n - 1);
      ShlMonotone(2 * (h / 2), h, n - 1);
    }
  }

  /** And one unit more would be too much. */
  lemma {:induction false} ShrShlAbove(x: nat, n: nat)
    ensures x < Shl(Shr(x, n) + 1, n)
  {
    if n > 0 {
      var h := Shr(x, n - 1);
      ShrShlAbove(x, n - 1);
      ShlHalf(h / 2 + 1, n - 1);
      ShlMonotone(h + 1, 2 * (h / 2 + 1), n - 1);
    }
  }

  lemma {:induction false} ShlShr(x: nat, n: nat)
    ensures Shr(Shl(x, n), n) == x
    decreases n
  {
    if n > 0 {
      ShlShr(2 * x, n - 1);
      ShlHalf(x, n - 1);
    }
  }
}

/** When a socket wants to be polled next; the order is Now, then times, then Ingress. */
module Polling {
  datatype PollTime = Now | Time(at: int) | Ingress

  function Earliest(a: PollTime, b: PollTime): PollTime {
    match (a, b)
    case (Now, _) => Now
    case (_, Now) => Now
    case (Time(x), Time(y)) => if x <= y then a else b
    case (Time(_), Ingress) => a
    case (Ingress, _) => b
  }

  /** The socket does not want to be polled at `now` or before. */
  predicate LaterThan(p: PollTime, now: int) {
    match p
    case Now => false
    case Time(at) => at > now
    case Ingress => true
  }
}
