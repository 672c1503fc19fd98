/**
  TCP sequence numbers. `Wrapped` is the program's arithmetic: a 32-bit signed integer compared by the
  sign of the wrapping difference. `Ideal` is unbounded arithmetic, used to reason about two endpoints.
 */
module SeqNumber {
  datatype Arith = Wrapped | Ideal

  const HALF: int := 0x8000_0000
  const MODULUS: int := 0x1_0000_0000

  predicate InRange(m: Arith, a: int) {
    m.Ideal? || -HALF <= a < HALF
  }

  /** Bring a sum or difference of two numbers in range back into range. */
  function Norm(m: Arith, x: int): int {
    if m.Ideal? then x
    else if x >= HALF then x - MODULUS
    else if x < -HALF then x + MODULUS
    else x
  }

  function Add(m: Arith, a: int, n: nat): int {
    Norm(m, a + n)
  }

  function Prev(m: Arith, a: int): int {
    Norm(m, a - 1)
  }

  function Diff(m: Arith, a: int, b: int): int {
    Norm(m, a - b)
  }

  predicate Lt(m: Arith, a: int, b: int) {
    Diff(m, a, b) < 0
  }

  predicate Le(m: Arith, a: int, b: int) {
    Diff(m, a, b) <= 0
  }

  /** The subtraction `a - b` to a length; the program panics unless `Diff(m, a, b) >= 0`. */
  function Dist(m: Arith, a: int, b: int): nat {
    if Diff(m, a, b) >= 0 then Diff(m, a, b) else 0
  }

  function SeqMax(m: Arith, a: int, b: int): int {
    if Lt(m, b, a) then a else b
  }

  function SeqMin(m: Arith, a: int, b: int): int {
    if Lt(m, a, b) then a else b
  }
}
