/** Go's fixed-width integer types as subset types of `int`, and the
    conversions and shifts between them that the emitters perform. */
module Ints {

  const TWO_TO_THE_63: int := 0x8000_0000_0000_0000
  const TWO_TO_THE_64: int := 0x1_0000_0000_0000_0000

  type u8 = x: int | 0 <= x < 0x100
  type u16 = x: int | 0 <= x < 0x1_0000
  /** Go's `int` on a 64-bit platform, and `int64`. */
  type i64 = x: int | -TWO_TO_THE_63 <= x < TWO_TO_THE_63
  /** Go's `uint64` and `uint`. */
  type u64 = x: int | 0 <= x < TWO_TO_THE_64

  function Pow2(n: nat): (p: nat)
    ensures p >= 1
  {
    if n == 0 then 1 else 2 * Pow2(n - 1)
  }

  /** The conversion `int64(x)` of a `uint64`: the same bits read as two's complement. */
  function ToInt64(x: u64): (r: i64)
    ensures r >= 0 ==> r == x
    ensures r < 0 ==> r == x - TWO_TO_THE_64
  {
    if x < TWO_TO_THE_63 then x else x - TWO_TO_THE_64
  }

  /** The conversion `uint64(x)` of an `int64`: the same bits read as unsigned. */
  function ToUint64(x: i64): (r: u64)
    ensures r % TWO_TO_THE_64 == x % TWO_TO_THE_64
  {
    if x >= 0 then x else x + TWO_TO_THE_64
  }

  /** The two conversions are inverse to each other, as bit reinterpretations are. */
  lemma ConversionsInverse(x: u64, y: i64)
    ensures ToUint64(ToInt64(x)) == x
    ensures ToInt64(ToUint64(y)) == y
  {
  }

  /** Go's `1 << bit` on a signed 64-bit `int`: bits shifted past bit 63 are lost. */
  function OneShiftedLeft(bit: u64): (r: i64)
    ensures bit < 63 ==> r > 0
    ensures bit == 63 ==> r == -TWO_TO_THE_63
    ensures bit >= 64 ==> r == 0
  {
    if bit < 63 then Pow2Bound(bit, 63); Pow2At63(); Pow2(bit) else if bit == 63 then -TWO_TO_THE_63 else 0
  }

  lemma Pow2At63()
    ensures Pow2(63) == TWO_TO_THE_63
  {
    assert Pow2(1) == 2;
    Pow2Add(1, 1);
    assert Pow2(2) == 4;
    Pow2Add(2, 2);
    assert Pow2(4) == 0x10;
    Pow2Add(4, 4);
    assert Pow2(8) == 0x100;
    Pow2Add(8, 8);
    assert Pow2(16) == 0x1_0000;
    Pow2Add(16, 16);
    assert Pow2(32) == 0x1_0000_0000;
    Pow2Add(32, 16);
    assert Pow2(48) == 0x1_0000_0000_0000;
    Pow2Add(48, 8);
    assert Pow2(56) == 0x100_0000_0000_0000;
    Pow2Add(56, 4);
    assert Pow2(60) == 0x1000_0000_0000_0000;
    Pow2Add(60, 2);
    assert Pow2(62) == 0x4000_0000_0000_0000;
    Pow2Add(62, 1);
  }

  lemma Pow2At30()
    ensures Pow2(30) == 0x4000_0000
  {
    assert Pow2(1) == 2;
    Pow2Add(1, 1);
    assert Pow2(2) == 4;
    Pow2Add(2, 2);
    assert Pow2(4) == 0x10;
    Pow2Add(4, 2);
    assert Pow2(6) == 0x40;
    Pow2Add(4, 4);
    assert Pow2(8) == 0x100;
    Pow2Add(8, 6);
    assert Pow2(14) == 0x4000;
    Pow2Add(8, 8);
    assert Pow2(16) == 0x1_0000;
    Pow2Add(16, 14);
  }

  lemma {:induction false} Pow2Add(a: nat, b: nat)
    ensures Pow2(a + b) == Pow2(a) * Pow2(b)
    decreases b
  {
    if b > 0 {
      Pow2Add(a, b - 1);
    }
  }

  lemma {:induction false} Pow2Bound(n: nat, m: nat)
    requires n < m
    ensures Pow2(n) < Pow2(m)
    decreases m
  {
    if n < m - 1 {
      Pow2Bound(n, m - 1);
    }
  }
}
