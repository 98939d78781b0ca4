/**
 Numbers in memory: little-endian digits of any width, and what reading and writing them do to a
 byte sequence.
 */
module LittleEndian {
  import opened Basics

  // The number that bytes spell, least significant first.
  function Number(s: seq<byte>): (v: nat) {
    if s == [] then 0 else s[0] + 0x100 * Number(s[1..])
  }

  // The n least significant digits of a number.
  function Digits(v: nat, n: nat): (s: seq<byte>)
    ensures |s| == n
  {
    if n == 0 then [] else [v % 0x100] + Digits(v / 0x100, n - 1)
  }

  // How many numbers n bytes can spell.
  function Radix(n: nat): (r: nat)
    ensures r > 0
  {
    if n == 0 then 1 else 0x100 * Radix(n - 1)
  }

  // Four bytes, the least significant first.
  function Word(mem: seq<byte>, p: nat): nat
    requires p + 4 <= |mem|
  {
    mem[p] + 0x100 * (mem[p + 1] as int) + 0x1_0000 * (mem[p + 2] as int) + 0x100_0000 * (mem[p + 3] as int)
  }

  function ReadAt(mem: seq<byte>, a: nat, n: nat): (v: nat)
    requires a + n <= |mem|
  {
    Number(mem[a..a + n])
  }

  function WriteAt(mem: seq<byte>, a: nat, n: nat, v: nat): (r: seq<byte>)
    requires a + n <= |mem|
    ensures |r| == |mem|
  {
    mem[..a] + Digits(v, n) + mem[a + n..]
  }

  function FillAt(mem: seq<byte>, a: nat, n: nat, b: byte): (r: seq<byte>)
    requires a + n <= |mem|
    ensures |r| == |mem|
  {
    mem[..a] + seq(n, _ => b) + mem[a + n..]
  }

  // The source is read before anything is written, so the ranges may overlap.
  function CopyAt(mem: seq<byte>, dst: nat, src: nat, n: nat): (r: seq<byte>)
    requires dst + n <= |mem| && src + n <= |mem|
    ensures |r| == |mem|
  {
    mem[..dst] + mem[src..src + n] + mem[dst + n..]
  }

  // ----- Laws -----

  lemma RadixValues()
    ensures Radix(1) == 0x100 && Radix(2) == 0x1_0000 && Radix(4) == 0x1_0000_0000
    ensures Radix(8) == 0x1_0000_0000_0000_0000
  {
    assert Radix(3) == 0x100 * Radix(2) && Radix(4) == 0x100 * Radix(3);
    assert Radix(5) == 0x100 * Radix(4) && Radix(6) == 0x100 * Radix(5);
    assert Radix(7) == 0x100 * Radix(6) && Radix(8) == 0x100 * Radix(7);
  }

  // Division by one digit and then by the rest.
  lemma ModSplit(v: nat, r: nat)
    requires r > 0
    ensures v % (0x100 * r) == v % 0x100 + 0x100 * (v / 0x100 % r)
  {
    var q, d := v / 0x100, v % 0x100;
    var k, e := q / r, q % r;
    assert v == 0x100 * q + d && q == r * k + e;
    assert v == (0x100 * r) * k + (d + 0x100 * e) by {
      assert 0x100 * (r * k) == (0x100 * r) * k;
    }
    ModUnique(v, 0x100 * r, k, d + 0x100 * e);
  }

  lemma ModUnique(v: int, m: int, k: int, e: int)
    requires 0 <= e < m && v == m * k + e
    ensures v % m == e
  {
    var k2, e2 := v / m, v % m;
    assert m * (k - k2) == e2 - e;
    if k > k2 {
      assert m * (k - k2) >= m by { MulAtLeast(m, k - k2); }
    } else if k < k2 {
      assert m * (k2 - k) >= m by { MulAtLeast(m, k2 - k); }
    }
  }

  lemma MulAtLeast(m: int, k: int)
    requires m > 0 && k > 0
    ensures m * k >= m
  {
  }

  // Reading digits back gives the number, cut to the width.
  lemma {:induction false} NumberOfDigits(v: nat, n: nat)
    ensures Number(Digits(v, n)) == v % Radix(n)
  {
    if n == 0 {
      assert v % 1 == 0;
    } else {
      NumberOfDigits(v / 0x100, n - 1);
      ModSplit(v, Radix(n - 1));
      assert Digits(v, n)[1..] == Digits(v / 0x100, n - 1);
    }
  }

  lemma LowDigit(d: byte, q: nat)
    ensures (d + 0x100 * q) % 0x100 == d && (d + 0x100 * q) / 0x100 == q
  {
  }

  // And writing a number that was read gives back its bytes.
  lemma {:induction false} DigitsOfNumber(s: seq<byte>)
    ensures Number(s) < Radix(|s|) && Digits(Number(s), |s|) == s
  {
    if s != [] {
      var tail := s[1..];
      DigitsOfNumber(tail);
      LowDigit(s[0], Number(tail));
      assert [s[0]] + tail == s;
    }
  }

  // A write reads back cut to its width, and no other byte moves.
  lemma WriteThenRead(mem: seq<byte>, a: nat, n: nat, v: nat)
    requires a + n <= |mem|
    ensures ReadAt(WriteAt(mem, a, n, v), a, n) == v % Radix(n)
    ensures forall i :: 0 <= i < |mem| && !(a <= i < a + n) ==> WriteAt(mem, a, n, v)[i] == mem[i]
  {
    assert WriteAt(mem, a, n, v)[a..a + n] == Digits(v, n);
    NumberOfDigits(v, n);
  }

  // Writing back what was read changes nothing.
  lemma ReadThenWrite(mem: seq<byte>, a: nat, n: nat)
    requires a + n <= |mem|
    ensures WriteAt(mem, a, n, ReadAt(mem, a, n)) == mem
  {
    DigitsOfNumber(mem[a..a + n]);
    assert mem[..a] + mem[a..a + n] + mem[a + n..] == mem;
  }

  // Each width as the program spells it out, byte by byte.
  lemma ReadBytes(mem: seq<byte>, a: nat)
    ensures a + 1 <= |mem| ==> ReadAt(mem, a, 1) == mem[a]
    ensures a + 2 <= |mem| ==> ReadAt(mem, a, 2) == mem[a] + 0x100 * (mem[a + 1] as int)
    ensures a + 4 <= |mem| ==>
              ReadAt(mem, a, 4) == mem[a] + 0x100 * (mem[a + 1] as int) + 0x1_0000 * (mem[a + 2] as int)
                  + 0x100_0000 * (mem[a + 3] as int)
    ensures a + 8 <= |mem| ==> ReadAt(mem, a, 8) == ReadAt(mem, a, 4) + 0x1_0000_0000 * ReadAt(mem, a + 4, 4)
  {
    if a + 1 <= |mem| { NumberCons(mem, a, 1); }
    if a + 2 <= |mem| { NumberCons(mem, a, 2); NumberCons(mem, a + 1, 1); }
    if a + 4 <= |mem| { Read4(mem, a); }
    if a + 8 <= |mem| {
      Read4(mem, a);
      NumberCons(mem, a, 8);
      NumberCons(mem, a + 1, 7);
      NumberCons(mem, a + 2, 6);
      NumberCons(mem, a + 3, 5);
    }
  }

  lemma NumberCons(mem: seq<byte>, a: nat, n: nat)
    requires 0 < n && a + n <= |mem|
    ensures ReadAt(mem, a, n) == mem[a] + 0x100 * ReadAt(mem, a + 1, n - 1)
    ensures ReadAt(mem, a + n, 0) == 0
  {
    assert mem[a..a + n][1..] == mem[a + 1..a + n];
  }

  lemma Read4(mem: seq<byte>, a: nat)
    requires a + 4 <= |mem|
    ensures ReadAt(mem, a, 4) == mem[a] + 0x100 * (mem[a + 1] as int) + 0x1_0000 * (mem[a + 2] as int)
            + 0x100_0000 * (mem[a + 3] as int)
  {
    NumberCons(mem, a, 4);
    NumberCons(mem, a + 1, 3);
    NumberCons(mem, a + 2, 2);
    NumberCons(mem, a + 3, 1);
  }

  // What is left of a number after its k least significant digits.
  function Shifted(v: nat, k: nat): nat {
    if k == 0 then v else Shifted(v, k - 1) / 0x100
  }

  lemma {:induction false} ShiftedTail(v: nat, k: nat)
    ensures Shifted(v / 0x100, k) == Shifted(v, k + 1)
  {
    if k > 0 {
      ShiftedTail(v, k - 1);
    }
  }

  // The writing loop emits the digits from the least significant on.
  lemma {:induction false} DigitsNext(v: nat, k: nat)
    ensures Digits(v, k + 1) == Digits(v, k) + [Shifted(v, k) % 0x100]
  {
    if k > 0 {
      DigitsNext(v / 0x100, k - 1);
      ShiftedTail(v, k - 1);
    }
  }

  lemma WriteNothing(mem: seq<byte>, a: nat, v: nat)
    requires a <= |mem|
    ensures WriteAt(mem, a, 0, v) == mem
  {
    assert mem[..a] + [] + mem[a..] == mem;
  }

  // One more byte of a number.
  lemma WriteNext(mem: seq<byte>, a: nat, k: nat, v: nat)
    requires a + k < |mem|
    ensures WriteAt(mem, a, k + 1, v) == WriteAt(mem, a, k, v)[a + k := Shifted(v, k) % 0x100]
  {
    hide Digits;
    DigitsNext(v, k);
  }
}
