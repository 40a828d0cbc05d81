/** The machine arithmetic of the node: unsigned 64-bit integers, modelled on `nat`. */
module Uint64 {

  const MAX: nat := 0xFFFF_FFFF_FFFF_FFFF

  const MODULUS: nat := 0x1_0000_0000_0000_0000

  /** A 64-bit word. */
  type Word = x: nat | x <= 0xFFFF_FFFF_FFFF_FFFF

  /** Reduction of any result to a word. */
  function Wrap(x: nat): (r: Word)
    ensures x <= MAX ==> r == x
    ensures r <= x
  {
    x % MODULUS
  }

  /** Addition as the machine does it. */
  function WrapAdd(a: Word, b: Word): Word {
    if a + b <= MAX then a + b else a + b - MODULUS
  }

  /** Subtraction as the machine does it: it wraps when `b` exceeds `a`. */
  function WrapSub(a: Word, b: Word): Word {
    if b <= a then a - b else a + MODULUS - b
  }

  /** Multiplication as the machine does it. */
  function WrapMul(a: Word, b: Word): Word {
    Wrap(a * b)
  }
}
