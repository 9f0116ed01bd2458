/** Fixed-width words, byte strings and the small amount of arithmetic on them
    that the LWP/1 codec needs. Integers are unbounded in the model, so every
    truncation the Go code performs is written out here. */
module Words {
  const TWO16: int := 0x1_0000
  const TWO32: int := 0x1_0000_0000
  const TWO63: int := 0x8000_0000_0000_0000
  const TWO64: int := 0x1_0000_0000_0000_0000

  type byte = b: int | 0 <= b < 256
  type uint16 = n: int | 0 <= n < 0x1_0000
  type uint32 = n: int | 0 <= n < 0x1_0000_0000
  type uint64 = n: int | 0 <= n < 0x1_0000_0000_0000_0000
  type int64 = n: int | -0x8000_0000_0000_0000 <= n < 0x8000_0000_0000_0000

  type Bytes = seq<byte>

  datatype Option<+T> = None | Some(value: T)

  function Pow2(k: nat): (r: nat)
    ensures r >= 1
  {
    if k == 0 then 1 else 2 * Pow2(k - 1)
  }

  lemma {:induction false} Pow2Adds(a: nat, b: nat)
    ensures Pow2(a + b) == Pow2(a) * Pow2(b)
  {
    if a == 0 {
    } else {
      Pow2Adds(a - 1, b);
      assert Pow2(a + b) == 2 * Pow2(a - 1 + b);
      assert 2 * (Pow2(a - 1) * Pow2(b)) == (2 * Pow2(a - 1)) * Pow2(b);
    }
  }

  lemma Pow2Of64()
    ensures Pow2(7) == 128
    ensures Pow2(64) == TWO64
  {
    assert Pow2(8) == 256;
    Pow2Adds(8, 8);
    Pow2Adds(16, 16);
    Pow2Adds(32, 32);
  }

  /** Bitwise OR of two natural numbers, bit by bit. */
  function BitOr(a: nat, b: nat): nat
    decreases a + b
  {
    if a == 0 && b == 0 then 0
    else (if a % 2 == 1 || b % 2 == 1 then 1 else 0) + 2 * BitOr(a / 2, b / 2)
  }

  lemma {:induction false} BitOrZero(b: nat)
    ensures BitOr(0, b) == b
  {
    if b != 0 {
      BitOrZero(b / 2);
    }
  }

  lemma {:induction false} OrZero(a: nat)
    ensures BitOr(a, 0) == a
  {
    if a != 0 {
      OrZero(a / 2);
    }
  }

  /** OR with a number whose low `k` bits are clear is addition. */
  lemma {:induction false} BitOrDisjoint(a: nat, c: nat, k: nat)
    requires a < Pow2(k)
    ensures BitOr(a, c * Pow2(k)) == a + c * Pow2(k)
  {
    if k == 0 {
      BitOrZero(c * Pow2(k));
    } else {
      var b := c * Pow2(k);
      var h := c * Pow2(k - 1);
      assert b == 2 * h by {
        assert c * (2 * Pow2(k - 1)) == 2 * (c * Pow2(k - 1));
      }
      BitOrDisjoint(a / 2, c, k - 1);
      assert b / 2 == h && b % 2 == 0;
      if a == 0 && b == 0 {
      } else {
        assert BitOr(a, b) == a % 2 + 2 * BitOr(a / 2, h);
      }
    }
  }

  /** Go's `x << shift` on a uint64: the bits pushed past bit 63 are lost, and a
      shift of 64 or more leaves zero. */
  function Shl64(x: nat, shift: nat): (r: uint64)
  {
    (x * Pow2(shift)) % TWO64
  }
}
