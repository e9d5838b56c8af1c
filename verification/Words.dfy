/** The machine integers and the small wrapper the model needs. */
module Words {
  const TWO32 := 0x1_0000_0000
  const TWO64 := 0x1_0000_0000_0000_0000

  type u32 = x: int | 0 <= x < TWO32
  type u64 = x: int | 0 <= x < TWO64

  datatype Option<+T> = None | Some(value: T)

  /** C's unsigned 32-bit arithmetic: a result is reduced modulo 2^32. */
  function Wrap(x: int): (r: u32)
    ensures 0 <= x < TWO32 <==> r == x
  {
    if 0 <= x < TWO32 then x else x % TWO32
  }

  /** C's unsigned 64-bit arithmetic. */
  function Wrap64(x: int): (r: u64)
    ensures 0 <= x < TWO64 <==> r == x
  {
    if 0 <= x < TWO64 then x else x % TWO64
  }

  /** One more of the same. */
  lemma OneMore(k: nat, x: nat)
    ensures (k + 1) * x == k * x + x
  {
  }

  /** Wrapping changes a number by a multiple of the modulus. */
  lemma WrapIsCongruent(x: int) returns (q: int, r: int)
    ensures x == q * TWO32 + Wrap(x) && x == r * TWO64 + Wrap64(x)
  {
    q := if 0 <= x < TWO32 then 0 else x / TWO32;
    r := if 0 <= x < TWO64 then 0 else x / TWO64;
  }
}
