/** The program's unsigned integers. */
module Unsigned {
  const U32: int := 0x1_0000_0000
  const U64: int := 0x1_0000_0000_0000_0000

  /** 64-bit subtraction. */
  function Minus(a: nat, b: nat): nat { (a - b) % U64 }

  lemma MinusExact(a: nat, b: nat)
    requires b <= a < U64
    ensures Minus(a, b) == a - b
  {
  }
}
