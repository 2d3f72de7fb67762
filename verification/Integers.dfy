/** The unsigned integer types of C that the daemon uses, and truncation to them. */
module Integers {

  type uint8 = n: int | 0 <= n < 0x100
  type uint16 = n: int | 0 <= n < 0x1_0000
  type uint32 = n: int | 0 <= n < 0x1_0000_0000

  const TWO32: nat := 0x1_0000_0000

  function Wrap8(n: nat): uint8 {
    n % 0x100
  }

  function Wrap32(n: nat): uint32 {
    n % TWO32
  }

  lemma Wrap8Small(n: uint8)
    ensures Wrap8(n) == n
  {
  }

  lemma Wrap8Add(a: nat, b: nat)
    ensures Wrap8(Wrap8(a) + b) == Wrap8(a + b)
  {
    assert a == 0x100 * (a / 0x100) + Wrap8(a);
    assert a + b == 0x100 * (a / 0x100) + (Wrap8(a) + b);
  }

  lemma Wrap32Small(n: uint32)
    ensures Wrap32(n) == n
  {
  }

  lemma Wrap32Add(a: nat, b: nat)
    ensures Wrap32(Wrap32(a) + b) == Wrap32(a + b)
  {
    assert a == TWO32 * (a / TWO32) + Wrap32(a);
    assert a + b == TWO32 * (a / TWO32) + (Wrap32(a) + b);
  }
}
