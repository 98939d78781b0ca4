// Vocabulary shared by every module: bytes, optional results and shifts.
module Basics {

  type byte = x: int | 0 <= x < 256

  datatype Option<+T> = None | Some(value: T) {
    predicate IsFailure() { None? }

    function PropagateFailure<U>(): Option<U>
      requires None?
    {
      None
    }

    function Extract(): T
      requires Some?
    {
      value
    }
  }

  // v shifted left by n bits, without truncation.
  function Shl(v: int, n: nat): (r: int) {
    if n == 0 then v else 2 * Shl(v, n - 1)
  }

  function Pow2(n: nat): (r: int) {
    Shl(1, n)
  }

  lemma {:induction false} ShlAdd(a: int, b: int, n: nat)
    ensures Shl(a + b, n) == Shl(a, n) + Shl(b, n)
  {
    if n > 0 {
      ShlAdd(a, b, n - 1);
    }
  }

  lemma {:induction false} ShlSmall(a: int, k: nat, n: nat)
    requires k <= 128
    ensures Shl(k * a, n) == k * Shl(a, n)
  {
    if n > 0 {
      ShlSmall(a, k, n - 1);
    }
  }

  lemma {:induction false} ShlMonotone(a: int, b: int, n: nat)
    requires a <= b
    ensures Shl(a, n) <= Shl(b, n)
  {
    if n > 0 {
      ShlMonotone(a, b, n - 1);
    }
  }

  lemma {:induction false} Pow2Monotone(a: nat, b: nat)
    requires a <= b
    ensures 0 < Pow2(a) <= Pow2(b)
    decreases b
  {
    if a < b {
      Pow2Monotone(a, b - 1);
    } else if a > 0 {
      Pow2Monotone(a - 1, a - 1);
    }
  }

  lemma Shl7(v: int, n: nat)
    ensures Shl(v, n + 7) == 128 * Shl(v, n)
  {
    assert Shl(v, n + 2) == 2 * Shl(v, n + 1) == 4 * Shl(v, n);
    assert Shl(v, n + 4) == 2 * Shl(v, n + 3) == 4 * Shl(v, n + 2);
    assert Shl(v, n + 6) == 2 * Shl(v, n + 5) == 4 * Shl(v, n + 4);
  }

  // The shifts by whole payloads that occur in 32- and 64-bit numbers.
  lemma ShlPayloads(v: int)
    ensures Shl(v, 7) == 0x80 * v && Shl(v, 14) == 0x4000 * v && Shl(v, 21) == 0x20_0000 * v
    ensures Shl(v, 28) == 0x1000_0000 * v && Shl(v, 35) == 0x8_0000_0000 * v
    ensures Shl(v, 42) == 0x400_0000_0000 * v && Shl(v, 49) == 0x2_0000_0000_0000 * v
    ensures Shl(v, 56) == 0x100_0000_0000_0000 * v && Shl(v, 63) == 0x8000_0000_0000_0000 * v
  {
    Shl7(v, 0);
    Shl7(v, 7);
    Shl7(v, 14);
    Shl7(v, 21);
    Shl7(v, 28);
    Shl7(v, 35);
    Shl7(v, 42);
    Shl7(v, 49);
    Shl7(v, 56);
  }

  lemma Pow2Values()
    ensures Pow2(0) == 1 && Pow2(1) == 2 && Pow2(3) == 8 && Pow2(4) == 16 && Pow2(6) == 64 && Pow2(7) == 128
    ensures Pow2(28) == 0x1000_0000 && Pow2(31) == 0x8000_0000 && Pow2(32) == 0x1_0000_0000
    ensures Pow2(63) == 0x8000_0000_0000_0000 && Pow2(64) == 0x1_0000_0000_0000_0000
  {
    ShlPayloads(1);
    assert Pow2(3) == 2 * Pow2(2) == 8;
    assert Pow2(6) == 2 * Pow2(5) == 4 * Pow2(4);
    assert Pow2(31) == 2 * Pow2(30) == 4 * Pow2(29);
  }

  function Min(a: int, b: int): int {
    if a < b then a else b
  }

  function Max(a: int, b: int): int {
    if a < b then b else a
  }
}
