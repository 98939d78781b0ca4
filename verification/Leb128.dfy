/**
 LEB128 integers: the grammar of section 5.2.2 of the WebAssembly Core Specification as
 two functions, an encoder, the checked stream readers used while decoding and validating,
 and the unrolled unchecked readers used by the interpreters.

 A C bitwise-or of a value below 2^k with a value shifted left by k is written as a sum.
 */
module Leb128 {
  import opened Basics

  // A number together with the count of bytes that spell it.
  datatype Num = Num(value: int, len: nat)

  // The productions for uN.
  function Unsigned(s: seq<byte>, p: nat, n: nat): (r: Option<Num>)
    ensures r.Some? ==> 0 < r.value.len && p + r.value.len <= |s|
    decreases n
  {
    if p >= |s| then None
    else if s[p] < 128 then
      if s[p] < Pow2(n) then Some(Num(s[p], 1)) else None
    else if n > 7 then
      var m :- Unsigned(s, p + 1, n - 7);
      Some(Num(128 * m.value + s[p] - 128, m.len + 1))
    else None
  }

  // The productions for sN.
  function Signed(s: seq<byte>, p: nat, n: nat): (r: Option<Num>)
    requires n > 0
    ensures r.Some? ==> 0 < r.value.len && p + r.value.len <= |s|
    decreases n
  {
    if p >= |s| then None
    else if s[p] < 64 then
      if s[p] < Pow2(n - 1) then Some(Num(s[p], 1)) else None
    else if s[p] < 128 then
      if s[p] >= 128 - Pow2(n - 1) then Some(Num(s[p] as int - 128, 1)) else None
    else if n > 7 then
      var m :- Signed(s, p + 1, n - 7);
      Some(Num(128 * m.value + s[p] - 128, m.len + 1))
    else None
  }

  // Accepted numbers are in range.
  lemma {:induction false} NumbersFit(s: seq<byte>, p: nat, n: nat)
    requires n > 0
    ensures Unsigned(s, p, n).Some? ==> 0 <= Unsigned(s, p, n).value.value < Pow2(n)
    ensures Signed(s, p, n).Some? ==> -Pow2(n - 1) <= Signed(s, p, n).value.value < Pow2(n - 1)
    decreases n
  {
    if n > 7 {
      Shl7(1, n - 7);
      Shl7(1, n - 8);
      NumbersFit(s, p + 1, n - 7);
    }
  }

  // ----- Encoders -----

  function EncodeUnsigned(v: nat): (s: seq<byte>)
    ensures 0 < |s|
  {
    if v < 128 then [v] else [v % 128 + 128] + EncodeUnsigned(v / 128)
  }

  function EncodeSigned(v: int): (s: seq<byte>)
    ensures 0 < |s|
    decreases if v < 0 then -v else v
  {
    if 0 <= v < 64 then [v]
    else if -64 <= v < 0 then [v + 128]
    else [v % 128 + 128] + EncodeSigned(v / 128)
  }

  // The unsigned reader inverts the encoder, whatever surrounds the encoding.
  lemma {:induction false} UnsignedRoundTrip(pre: seq<byte>, v: nat, post: seq<byte>, n: nat)
    requires v < Pow2(n)
    ensures Unsigned(pre + EncodeUnsigned(v) + post, |pre|, n) == Some(Num(v, |EncodeUnsigned(v)|))
    decreases v
  {
    Pow2Values();
    if v >= 128 {
      if n <= 7 {
        Pow2Monotone(n, 7);
        assert false;
      }
      Shl7(1, n - 7);
      var first: byte := v % 128 + 128;
      assert pre + EncodeUnsigned(v) + post == (pre + [first]) + EncodeUnsigned(v / 128) + post;
      UnsignedRoundTrip(pre + [first], v / 128, post, n - 7);
    }
  }

  // The signed reader inverts the signed encoder.
  lemma {:induction false} SignedRoundTrip(pre: seq<byte>, v: int, post: seq<byte>, n: nat)
    requires n > 0 && -Pow2(n - 1) <= v < Pow2(n - 1)
    ensures Signed(pre + EncodeSigned(v) + post, |pre|, n) == Some(Num(v, |EncodeSigned(v)|))
    decreases if v < 0 then -v else v
  {
    Pow2Values();
    if !(-64 <= v < 64) {
      if n <= 7 {
        Pow2Monotone(n - 1, 6);
        assert false;
      }
      Shl7(1, n - 8);
      var first: byte := v % 128 + 128;
      assert pre + EncodeSigned(v) + post == (pre + [first]) + EncodeSigned(v / 128) + post;
      SignedRoundTrip(pre + [first], v / 128, post, n - 7);
    }
  }

  // ----- The grammar in closed form -----

  // The number that the low seven bits of len bytes spell to the base 128, the least significant first.
  function Payloads(s: seq<byte>, p: nat, len: nat): nat
    requires p + len <= |s|
    decreases len
  {
    if len == 0 then 0 else s[p] % 128 + 128 * Payloads(s, p + 1, len - 1)
  }

  // 128 to the power of len.
  function Base(len: nat): nat {
    if len == 0 then 1 else 128 * Base(len - 1)
  }

  // len bytes at p, of which the last and only the last has no continuation bit; no more than n bits need.
  predicate Spelled(s: seq<byte>, p: nat, n: nat, len: nat) {
    && 0 < len <= (n + 6) / 7 && p + len <= |s| && s[p + len - 1] < 128
    && forall k :: p <= k < p + len - 1 ==> s[k] >= 128
  }

  // A number is there exactly if bytes that spell it are, and it is in range.
  lemma {:induction false} UnsignedExact(s: seq<byte>, p: nat, n: nat, v: int, len: nat)
    requires n > 0
    ensures Unsigned(s, p, n) == Some(Num(v, len))
       <==> Spelled(s, p, n, len) && v == Payloads(s, p, len) && v < Pow2(n)
    decreases n
  {
    hide Payloads, Pow2;
    if p >= |s| || len == 0 || s[p] < 128 {
      UnsignedByte(s, p, n, v, len);
    } else {
      SpelledRest(s, p, n, len);
      if n > 7 && len > 1 {
        var b, w := s[p] as int - 128, (v - (s[p] as int - 128)) / 128;
        UnsignedExact(s, p + 1, n - 7, w, len - 1);
        SevenBits(n);
        if Spelled(s, p, n, len) {
          UnsignedRest(s, p, len);
        }
      }
    }
  }

  lemma SevenBits(n: nat)
    requires n > 7
    ensures Pow2(n) == 128 * Pow2(n - 7)
  {
    Shl7(1, n - 7);
  }

  lemma UnsignedByte(s: seq<byte>, p: nat, n: nat, v: int, len: nat)
    requires n > 0 && (p >= |s| || len == 0 || s[p] < 128)
    ensures Unsigned(s, p, n) == Some(Num(v, len))
       <==> Spelled(s, p, n, len) && v == Payloads(s, p, len) && v < Pow2(n)
  {
    hide Pow2;
    if len == 1 && p < |s| {
      assert Payloads(s, p + 1, 0) == 0;
    }
  }

  lemma UnsignedRest(s: seq<byte>, p: nat, len: nat)
    requires len > 1 && p + len <= |s| && s[p] >= 128
    ensures Payloads(s, p, len) == s[p] - 128 + 128 * Payloads(s, p + 1, len - 1)
  {
  }

  lemma SpelledRest(s: seq<byte>, p: nat, n: nat, len: nat)
    requires 0 < n && p < |s| && s[p] >= 128 && len > 0
    ensures Spelled(s, p, n, len) <==> n > 7 && len > 1 && Spelled(s, p + 1, n - 7, len - 1)
  {
  }

  // In two's complement: the last byte's seventh bit is the sign.
  function SignedPayloads(s: seq<byte>, p: nat, len: nat): int
    requires 0 < len && p + len <= |s|
  {
    Payloads(s, p, len) - if s[p + len - 1] % 128 >= 64 then Base(len) else 0
  }

  lemma {:induction false} SignedExact(s: seq<byte>, p: nat, n: nat, v: int, len: nat)
    requires n > 0
    ensures Signed(s, p, n) == Some(Num(v, len))
       <==> Spelled(s, p, n, len) && v == SignedPayloads(s, p, len) && -Pow2(n - 1) <= v < Pow2(n - 1)
    decreases n
  {
    hide SignedPayloads, Pow2;
    if p >= |s| || len == 0 || s[p] < 128 {
      SignedByte(s, p, n, v, len);
    } else {
      SpelledRest(s, p, n, len);
      if n > 7 && len > 1 {
        var b, w := s[p] as int - 128, (v - (s[p] as int - 128)) / 128;
        SignedExact(s, p + 1, n - 7, w, len - 1);
        if v == b + 128 * w {
          RangeStep(b, w, n);
        }
        if Spelled(s, p, n, len) {
          SignedRest(s, p, len);
        }
      }
    }
  }

  lemma SignedByte(s: seq<byte>, p: nat, n: nat, v: int, len: nat)
    requires n > 0 && (p >= |s| || len == 0 || s[p] < 128)
    ensures Signed(s, p, n) == Some(Num(v, len))
       <==> Spelled(s, p, n, len) && v == SignedPayloads(s, p, len) && -Pow2(n - 1) <= v < Pow2(n - 1)
  {
    hide Pow2;
    Pow2Monotone(n - 1, n - 1);
    if len == 1 && p < |s| {
      assert Payloads(s, p + 1, 0) == 0 && Base(1) == 128 * Base(0) == 128;
    }
  }

  lemma SignedRest(s: seq<byte>, p: nat, len: nat)
    requires len > 1 && p + len <= |s| && s[p] >= 128
    ensures SignedPayloads(s, p, len) == s[p] - 128 + 128 * SignedPayloads(s, p + 1, len - 1)
  {
  }

  lemma RangeStep(b: int, w: int, n: nat)
    requires 0 <= b < 128 && n > 7
    ensures -Pow2(n - 1) <= b + 128 * w < Pow2(n - 1) <==> -Pow2(n - 8) <= w < Pow2(n - 8)
  {
    Shl7(1, n - 8);
  }

  // ----- What one round of a checked reader's loop establishes -----

  predicate Width(bits: nat) {
    bits == 32 || bits == 64
  }

  // The longest encoding of a `bits`-bit number.
  function MaxLen(bits: nat): (r: nat)
    requires Width(bits)
    ensures (bits == 32 ==> r == 5) && (bits == 64 ==> r == 10)
  {
    if bits == 32 then (32 - 1) / 7 + 1 else (64 - 1) / 7 + 1
  }

  // The last byte of a longest encoding carries 32 % 7 == 4 or 64 % 7 == 1 bits: two to that power.
  function LastLimit(bits: nat): (r: nat)
    requires Width(bits)
  {
    if bits == 32 then 16 else 2
  }

  // The seven payload bits of a byte; its eighth bit says that more follow.
  function Payload(b: byte): (r: int)
    ensures 0 <= r < 128
  {
    if b < 0x80 then b else b - 0x80
  }

  // Two to the power of the width.
  function Modulus(bits: nat): int
    requires Width(bits)
  {
    if bits == 32 then 0x1_0000_0000 else 0x1_0000_0000_0000_0000
  }

  // Truncation to an unsigned machine integer.
  function Wrap(v: int, bits: nat): int
    requires Width(bits)
  {
    if 0 <= v < Modulus(bits) then v
    else if bits == 32 then v % 0x1_0000_0000
    else v % 0x1_0000_0000_0000_0000
  }

  // The two's complement reading of a `bits`-bit pattern.
  function ToSigned(v: int, bits: nat): int
    requires Width(bits)
  {
    if 2 * v < Modulus(bits) then v else v - Modulus(bits)
  }

  // The numbers that `off` payloads can spell lie below this.
  function Capacity(off: nat): int {
    Pow2(7 * off)
  }

  // Prefixing `off` continuation bytes whose payload is `low` to what follows them.
  function Prefixed(low: int, off: nat, tail: Option<Num>): Option<Num> {
    match tail
    case None => None
    case Some(m) => Some(Num(low + Shl(m.value, 7 * off), off + m.len))
  }

  // What is left to read after `off` continuation bytes of a `bits`-bit number starting at p.
  function UnsignedAt(s: seq<byte>, p: nat, bits: nat, off: nat): Option<Num>
    requires Width(bits)
  {
    if off < MaxLen(bits) then Unsigned(s, p + off, bits - 7 * off) else None
  }

  function SignedAt(s: seq<byte>, p: nat, bits: nat, off: nat): Option<Num>
    requires Width(bits)
  {
    if off < MaxLen(bits) then Signed(s, p + off, bits - 7 * off) else None
  }

  // One more continuation byte moves its payload from the tail to the prefix.
  lemma PrefixedStep(low: int, off: nat, b: int, m: Num)
    ensures Prefixed(low, off, Some(Num(128 * m.value + b, m.len + 1)))
         == Prefixed(low + Shl(b, 7 * off), off + 1, Some(m))
  {
    ShlAdd(128 * m.value, b, 7 * off);
    ShlSmall(m.value, 128, 7 * off);
    Shl7(m.value, 7 * off);
  }

  // Accumulating a payload below 128 stays under the next power; only a full-length encoding can be truncated.
  lemma Accumulate(low: int, off: nat, bits: nat, pay: int)
    requires Width(bits) && off < MaxLen(bits)
    requires 0 <= low < Pow2(7 * off) && 0 <= pay < 128
    ensures 0 <= low + Shl(pay, 7 * off) < Pow2(7 * (off + 1))
    ensures off + 1 < MaxLen(bits) ==> 2 * Pow2(7 * (off + 1)) <= Modulus(bits)
    ensures off + 1 < MaxLen(bits) ==> Wrap(low + Shl(pay, 7 * off), bits) == low + Shl(pay, 7 * off)
    ensures 0 <= Wrap(low + Shl(pay, 7 * off), bits) < Pow2(7 * (off + 1))
  {
    ShlAdd(1, pay, 7 * off);
    ShlMonotone(0, pay, 7 * off);
    ShlAdd(0, 0, 7 * off);
    ShlMonotone(1 + pay, 128, 7 * off);
    ShlSmall(1, 128, 7 * off);
    Shl7(1, 7 * off);
    Pow2Values();
    if off + 1 < MaxLen(bits) {
      Pow2Monotone(7 * (off + 1), bits - 1);
    }
  }

  // A continuation byte: all rounds but the last go on, the last one refuses.
  lemma UnsignedMore(s: seq<byte>, p: nat, bits: nat, off: nat, low: int)
    requires Width(bits) && off < MaxLen(bits) && p + off < |s| && s[p + off] >= 128
    requires 0 <= low < Pow2(7 * off)
    ensures off + 1 < MaxLen(bits) ==>
              Prefixed(low, off, Unsigned(s, p + off, bits - 7 * off))
              == Prefixed(Wrap(low + Shl(Payload(s[p + off]), 7 * off), bits), off + 1,
                          Unsigned(s, p + off + 1, bits - 7 * (off + 1)))
    ensures off + 1 == MaxLen(bits) ==> Unsigned(s, p + off, bits - 7 * off) == None
  {
    if off + 1 < MaxLen(bits) {
      var pay: int := s[p + off] - 128;
      Accumulate(low, off, bits, pay);
      var tail := Unsigned(s, p + off + 1, bits - 7 * (off + 1));
      if tail.Some? {
        PrefixedStep(low, off, pay, tail.value);
      }
    }
  }

  // A final byte.
  lemma UnsignedDone(s: seq<byte>, p: nat, bits: nat, off: nat, low: int)
    requires Width(bits) && off < MaxLen(bits) && p + off < |s| && s[p + off] < 128
    requires 0 <= low < Pow2(7 * off)
    ensures Prefixed(low, off, Unsigned(s, p + off, bits - 7 * off))
         == if off + 1 == MaxLen(bits) && s[p + off] >= LastLimit(bits) then None
            else Some(Num(Wrap(low + Shl(s[p + off], 7 * off), bits), off + 1))
  {
    Accumulate(low, off, bits, s[p + off]);
    Pow2Values();
    if off + 1 < MaxLen(bits) {
      Pow2Monotone(7, bits - 7 * off);
    } else {
      ShlPayloads(s[p + off]);
    }
  }

  // Both cases together, as the loop of the checked reader meets them.
  lemma UnsignedRound(s: seq<byte>, p: nat, bits: nat, off: nat, low: int)
    requires Width(bits) && off < MaxLen(bits) && p + off < |s|
    requires 0 <= low < Capacity(off)
    ensures var b := s[p + off];
            var next := Wrap(low + Shl(Payload(b), 7 * off), bits);
            var whole := Prefixed(low, off, UnsignedAt(s, p, bits, off));
            && 0 <= next < Capacity(off + 1)
            && (b < 128 ==> whole == if off + 1 == MaxLen(bits) && b >= LastLimit(bits) then None
                  else Some(Num(next, off + 1)))
            && (b >= 128 ==> whole == Prefixed(next, off + 1, UnsignedAt(s, p, bits, off + 1)))
  {
    Accumulate(low, off, bits, Payload(s[p + off]));
    hide Shl, Wrap, Unsigned, Prefixed, ToSigned, Extended, BadLastByte, LastLimit;
    if s[p + off] < 128 {
      UnsignedDone(s, p, bits, off, low);
    } else {
      UnsignedMore(s, p, bits, off, low);
    }
  }

  // The sign rule on a full-length encoding: the unused bits must repeat the sign bit.
  predicate BadLastByte(b: byte, bits: nat)
    requires Width(bits)
  {
    if b < 0x40 then b >= LastLimit(bits) / 2 else 127 - b >= LastLimit(bits) / 2
  }

  // Copies of the sign bit above the `len` payloads read, when there is room for them.
  function Extended(v: int, b: byte, len: nat, bits: nat): int
    requires Width(bits)
  {
    if 7 * len < bits && Payload(b) >= 0x40 then v + (Modulus(bits) - Pow2(7 * len)) else v
  }

  lemma SignedMore(s: seq<byte>, p: nat, bits: nat, off: nat, low: int)
    requires Width(bits) && off < MaxLen(bits) && p + off < |s| && s[p + off] >= 128
    requires 0 <= low < Pow2(7 * off)
    ensures off + 1 < MaxLen(bits) ==>
              Prefixed(low, off, Signed(s, p + off, bits - 7 * off))
              == Prefixed(Wrap(low + Shl(Payload(s[p + off]), 7 * off), bits), off + 1,
                          Signed(s, p + off + 1, bits - 7 * (off + 1)))
    ensures off + 1 == MaxLen(bits) ==> Signed(s, p + off, bits - 7 * off) == None
  {
    if off + 1 < MaxLen(bits) {
      var pay: int := s[p + off] - 128;
      Accumulate(low, off, bits, pay);
      var tail := Signed(s, p + off + 1, bits - 7 * (off + 1));
      if tail.Some? {
        PrefixedStep(low, off, pay, tail.value);
      }
    }
  }

  lemma SignedDone(s: seq<byte>, p: nat, bits: nat, off: nat, low: int)
    requires Width(bits) && off < MaxLen(bits) && p + off < |s| && s[p + off] < 128
    requires 0 <= low < Pow2(7 * off)
    ensures var b := s[p + off];
            Prefixed(low, off, Signed(s, p + off, bits - 7 * off))
            == if off + 1 == MaxLen(bits) && BadLastByte(b, bits) then None
               else Some(Num(ToSigned(Extended(Wrap(low + Shl(b, 7 * off), bits), b, off + 1, bits), bits), off + 1))
  {
    var b := s[p + off];
    Accumulate(low, off, bits, b);
    Pow2Values();
    if off + 1 < MaxLen(bits) {
      Pow2Monotone(7, bits - 7 * off - 1);
      SignedShort(low, off, bits, b);
    } else {
      if !BadLastByte(b, bits) {
        SignedLast(low, off, bits, b);
      }
    }
  }

  // A final byte in the last position: the accumulated pattern wraps, and reads back as a negative number.
  lemma SignedLast(low: int, off: nat, bits: nat, b: byte)
    requires Width(bits) && off + 1 == MaxLen(bits) && b < 128 && !BadLastByte(b, bits)
    requires 0 <= low < Pow2(7 * off)
    ensures ToSigned(Wrap(low + Shl(b, 7 * off), bits), bits)
         == low + Shl(if b < 64 then b else b as int - 128, 7 * off)
  {
    Pow2Values();
    ShlPayloads(b);
    ShlPayloads(b as int - 128);
  }

  // Both cases together, as the loop of the checked reader meets them.
  lemma SignedRound(s: seq<byte>, p: nat, bits: nat, off: nat, low: int)
    requires Width(bits) && off < MaxLen(bits) && p + off < |s|
    requires 0 <= low < Capacity(off)
    ensures var b := s[p + off];
            var next := Wrap(low + Shl(Payload(b), 7 * off), bits);
            var whole := Prefixed(low, off, SignedAt(s, p, bits, off));
            && 0 <= next < Capacity(off + 1)
            && (b < 128 ==> whole == if off + 1 == MaxLen(bits) && BadLastByte(b, bits) then None
                     else Some(Num(ToSigned(Extended(next, b, off + 1, bits), bits), off + 1)))
            && (b >= 128 ==> whole == Prefixed(next, off + 1, SignedAt(s, p, bits, off + 1)))
  {
    Accumulate(low, off, bits, Payload(s[p + off]));
    hide Shl, Wrap, Signed, Prefixed, ToSigned, Extended, BadLastByte, LastLimit;
    if s[p + off] < 128 {
      SignedDone(s, p, bits, off, low);
    } else {
      SignedMore(s, p, bits, off, low);
    }
  }

  // A final byte before the last position: its sign bit is copied upwards.
  lemma SignedShort(low: int, off: nat, bits: nat, b: byte)
    requires Width(bits) && off + 1 < MaxLen(bits) && b < 128
    requires 0 <= low < Pow2(7 * off)
    ensures ToSigned(Extended(low + Shl(b, 7 * off), b, off + 1, bits), bits)
         == low + Shl(if b < 64 then b else b - 128, 7 * off)
  {
    Accumulate(low, off, bits, b);
    ShlAdd(b - 128, 128, 7 * off);
    ShlSmall(1, 128, 7 * off);
    Shl7(1, 7 * off);
    if b >= 64 {
      ShlMonotone(64, b, 7 * off);
      ShlSmall(1, 64, 7 * off);
    }
  }

  // The first k bytes from p all carry the continuation bit.
  ghost predicate AllMore(s: seq<byte>, p: nat, k: nat) {
    p + k <= |s| && forall i :: p <= i < p + k ==> s[i] >= 128
  }

  // What the loop has accumulated, with its truncation, after k bytes.
  ghost function Folded(s: seq<byte>, p: nat, bits: nat, k: nat): int
    requires Width(bits) && p + k <= |s|
  {
    if k == 0 then 0
    else Wrap(Folded(s, p, bits, k - 1) + Shl(Payload(s[p + k - 1]), 7 * (k - 1)), bits)
  }

  lemma PrefixedNone(tail: Option<Num>)
    ensures Prefixed(0, 0, tail) == tail && Capacity(0) == 1
  {
  }

  // After `off` continuation bytes the loop holds their payloads, and the rest of the number is still to come.
  lemma {:induction false} UnsignedPrefix(s: seq<byte>, p: nat, bits: nat, off: nat)
    requires Width(bits) && off <= MaxLen(bits) && AllMore(s, p, off)
    ensures 0 <= Folded(s, p, bits, off) < Capacity(off)
    ensures UnsignedAt(s, p, bits, 0) == Prefixed(Folded(s, p, bits, off), off, UnsignedAt(s, p, bits, off))
  {
    hide Shl, Pow2, Wrap, Unsigned, Prefixed, Capacity;
    if off == 0 {
      PrefixedNone(UnsignedAt(s, p, bits, 0));
    } else {
      UnsignedPrefix(s, p, bits, off - 1);
      UnsignedRound(s, p, bits, off - 1, Folded(s, p, bits, off - 1));
    }
  }

  // The loop gives up on too many continuation bytes and at the end of the data.
  lemma UnsignedStuck(s: seq<byte>, p: nat, bits: nat, off: nat)
    requires Width(bits) && off <= MaxLen(bits) && AllMore(s, p, off)
    requires off == MaxLen(bits) || p + off == |s|
    ensures UnsignedAt(s, p, bits, 0) == None
  {
    UnsignedPrefix(s, p, bits, off);
  }

  // The loop returns at a final byte, unless that byte spells too large a number.
  lemma UnsignedExit(s: seq<byte>, p: nat, bits: nat, off: nat)
    requires Width(bits) && off < MaxLen(bits) && AllMore(s, p, off)
    requires p + off < |s| && s[p + off] < 128
    ensures UnsignedAt(s, p, bits, 0)
         == if off + 1 == MaxLen(bits) && s[p + off] >= LastLimit(bits) then None
            else Some(Num(Folded(s, p, bits, off + 1), off + 1))
  {
    hide Shl, Pow2, Wrap, Unsigned, Prefixed, ToSigned, Extended, BadLastByte, LastLimit;
    UnsignedPrefix(s, p, bits, off);
    UnsignedRound(s, p, bits, off, Folded(s, p, bits, off));
  }

  // After `off` continuation bytes the loop holds their payloads, and the rest of the number is still to come.
  lemma {:induction false} SignedPrefix(s: seq<byte>, p: nat, bits: nat, off: nat)
    requires Width(bits) && off <= MaxLen(bits) && AllMore(s, p, off)
    ensures 0 <= Folded(s, p, bits, off) < Capacity(off)
    ensures SignedAt(s, p, bits, 0) == Prefixed(Folded(s, p, bits, off), off, SignedAt(s, p, bits, off))
  {
    hide Shl, Pow2, Wrap, Signed, Prefixed, Capacity;
    if off == 0 {
      PrefixedNone(SignedAt(s, p, bits, 0));
    } else {
      SignedPrefix(s, p, bits, off - 1);
      SignedRound(s, p, bits, off - 1, Folded(s, p, bits, off - 1));
    }
  }

  // The loop gives up on too many continuation bytes and at the end of the data.
  lemma SignedStuck(s: seq<byte>, p: nat, bits: nat, off: nat)
    requires Width(bits) && off <= MaxLen(bits) && AllMore(s, p, off)
    requires off == MaxLen(bits) || p + off == |s|
    ensures SignedAt(s, p, bits, 0) == None
  {
    SignedPrefix(s, p, bits, off);
  }

  // The loop returns at a final byte, unless that byte spells too large a number.
  lemma SignedExit(s: seq<byte>, p: nat, bits: nat, off: nat)
    requires Width(bits) && off < MaxLen(bits) && AllMore(s, p, off)
    requires p + off < |s| && s[p + off] < 128
    ensures SignedAt(s, p, bits, 0)
         == if off + 1 == MaxLen(bits) && BadLastByte(s[p + off], bits) then None
            else Some(Num(ToSigned(Extended(Folded(s, p, bits, off + 1), s[p + off], off + 1, bits), bits), off + 1))
  {
    hide Shl, Pow2, Wrap, Signed, Prefixed, ToSigned, Extended, BadLastByte, LastLimit;
    SignedPrefix(s, p, bits, off);
    SignedRound(s, p, bits, off, Folded(s, p, bits, off));
  }

  // The tail of the signed reader: fill with the sign bit, then reinterpret.
  method SignExtend(v: int, b: byte, len: nat, bits: nat) returns (r: int)
    requires Width(bits)
    ensures r == ToSigned(Extended(v, b, len, bits), bits)
  {
    r := v;
    var shift := 7 * len;
    if shift < bits && Payload(b) >= 0x40 {
      r := r + (Modulus(bits) - Pow2(shift));
    }
    r := ToSigned(r, bits);
  }

  // ----- The checked readers -----

  // A byte sequence with the position of the next read.
  class Stream {
    const s: seq<byte>
    var p: nat

    ghost predicate Valid()
      reads this
    {
      p <= |s|
    }

    constructor (s: seq<byte>)
      ensures Valid() && this.s == s && p == 0
    {
      this.s := s;
      this.p := 0;
    }

    // A copy of a stream at some position.
    constructor From(s: seq<byte>, p: nat)
      requires p <= |s|
      ensures Valid() && this.s == s && this.p == p
    {
      this.s := s;
      this.p := p;
    }

    method ReadU8() returns (r: Option<byte>)
      requires Valid()
      modifies this`p
      ensures Valid()
      ensures old(p) < |s| ==> r == Some(s[old(p)]) && p == old(p) + 1
      ensures old(p) == |s| ==> r == None && p == old(p)
    {
      if |s| - p < 1 { return None; }
      r := Some(s[p]);
      p := p + 1;
    }

    // A one-byte signed number.
    method ReadVi7() returns (r: Option<int>)
      requires Valid()
      modifies this`p
      ensures Valid()
      ensures match Signed(s, old(p), 7)
              case Some(m) => r == Some(m.value) && p == old(p) + m.len
              case None => r == None && p == old(p)
    {
      Pow2Values();
      if |s| - p < 1 { return None; }
      var u: int := s[p];
      if u >= 0x80 { return None; }
      p := p + 1;
      r := Some(if (u / 64) % 2 == 1 then u - 128 else u);
    }

    // A one-byte unsigned number.
    method ReadVu7() returns (r: Option<int>)
      requires Valid()
      modifies this`p
      ensures Valid()
      ensures match Unsigned(s, old(p), 7)
              case Some(m) => r == Some(m.value) && p == old(p) + m.len
              case None => r == None && p == old(p)
    {
      Pow2Values();
      if |s| - p < 1 { return None; }
      var u: int := s[p];
      if u >= 0x80 { return None; }
      p := p + 1;
      r := Some(u);
    }

    // Seeks that would leave the sequence fail and do not move.
    method Seek(len: int) returns (ok: bool)
      requires Valid()
      modifies this`p
      ensures Valid()
      ensures ok <==> 0 <= old(p) + len <= |s|
      ensures p == if ok then old(p) + len else old(p)
    {
      if p + len < 0 || p + len > |s| { return false; }
      p := p + len;
      return true;
    }

    // The loop accepts exactly the uN grammar, and does not move when it refuses.
    method ReadVu(bits: nat) returns (r: Option<int>)
      requires Valid() && Width(bits)
      modifies this`p
      ensures Valid()
      ensures match Unsigned(s, old(p), bits)
              case Some(m) => r == Some(m.value) && p == old(p) + m.len
              case None => r == None && p == old(p)
    {
      hide Shl, Wrap, Unsigned, ToSigned, Extended;
      var result, offset, shift := 0, 0, 0;
      while offset < MaxLen(bits) && offset < |s| - p
        invariant p == old(p) && offset <= MaxLen(bits) && p + offset <= |s| && shift == 7 * offset
        invariant AllMore(s, p, offset) && result == Folded(s, p, bits, offset)
      {
        var b := s[p + offset];
        if b < 0x80 { UnsignedExit(s, p, bits, offset); }
        result := Wrap(result + Shl(Payload(b), shift), bits);
        shift := shift + 7;
        offset := offset + 1;
        if b < 0x80 {
          if offset == MaxLen(bits) && b >= LastLimit(bits) {
            return None;
          }
          p := p + offset;
          return Some(result);
        }
      }
      UnsignedStuck(s, p, bits, offset);
      return None;
    }

    // The signed loop: the same walk, with the sign rule on a full-length encoding.
    method ReadVi(bits: nat) returns (r: Option<int>)
      requires Valid() && Width(bits)
      modifies this`p
      ensures Valid()
      ensures match Signed(s, old(p), bits)
              case Some(m) => r == Some(m.value) && p == old(p) + m.len
              case None => r == None && p == old(p)
    {
      hide Shl, Wrap, Signed, ToSigned, Extended;
      var result, offset, shift := 0, 0, 0;
      while offset < MaxLen(bits) && offset < |s| - p
        invariant p == old(p) && offset <= MaxLen(bits) && p + offset <= |s| && shift == 7 * offset
        invariant AllMore(s, p, offset) && result == Folded(s, p, bits, offset)
      {
        var b := s[p + offset];
        if b < 0x80 { SignedExit(s, p, bits, offset); }
        result := Wrap(result + Shl(Payload(b), shift), bits);
        shift := shift + 7;
        offset := offset + 1;
        if b < 0x80 {
          if offset == MaxLen(bits) && BadLastByte(b, bits) {
            return None;
          }
          p := p + offset;
          result := SignExtend(result, b, offset, bits);
          return Some(result);
        }
      }
      SignedStuck(s, p, bits, offset);
      return None;
    }
  }

  // ----- The unchecked readers -----
  // They add a whole byte, then take its continuation bit away again, in modular arithmetic.
  // Each returns what the checked reader returns, wherever the checked reader accepts.

  lemma AddAndSubtract(low: int, off: nat, bits: nat, b: byte)
    requires Width(bits) && off + 1 < MaxLen(bits) && b >= 0x80 && 0 <= low < Capacity(off)
    ensures Wrap(Wrap(low + Shl(b, 7 * off), bits) - Shl(0x80, 7 * off), bits)
            == Wrap(low + Shl(Payload(b), 7 * off), bits)
  {
    var pay: int := b - 0x80;
    Accumulate(low, off, bits, pay);
    ShlAdd(pay, 0x80, 7 * off);
    ShlSmall(1, 128, 7 * off);
    Shl7(1, 7 * off);
  }

  lemma NothingFolded(s: seq<byte>, p: nat, bits: nat)
    requires Width(bits) && p <= |s|
    ensures Folded(s, p, bits, 0) == 0
  {
  }

  // One byte of an accepted unsigned number.
  lemma UnsignedUnchecked(s: seq<byte>, p: nat, bits: nat, off: nat)
    requires Width(bits) && off < MaxLen(bits) && AllMore(s, p, off) && Unsigned(s, p, bits).Some?
    ensures p + off < |s|
    ensures s[p + off] < 0x80 ==>
              Unsigned(s, p, bits) == Some(Num(Wrap(Folded(s, p, bits, off) + Shl(s[p + off], 7 * off), bits), off + 1))
    ensures s[p + off] >= 0x80 ==>
              && off + 1 < MaxLen(bits) && AllMore(s, p, off + 1)
              && Wrap(Wrap(Folded(s, p, bits, off) + Shl(s[p + off], 7 * off), bits) - Shl(0x80, 7 * off), bits)
                 == Folded(s, p, bits, off + 1)
  {
    hide Shl, Wrap, Unsigned, ToSigned, Extended, Capacity, LastLimit;
    if p + off == |s| {
      UnsignedStuck(s, p, bits, off);
    } else if s[p + off] < 0x80 {
      UnsignedExit(s, p, bits, off);
    } else if off + 1 == MaxLen(bits) {
      UnsignedStuck(s, p, bits, off + 1);
    } else {
      UnsignedPrefix(s, p, bits, off);
      AddAndSubtract(Folded(s, p, bits, off), off, bits, s[p + off]);
    }
  }

  // One byte of an accepted signed number.
  lemma SignedUnchecked(s: seq<byte>, p: nat, bits: nat, off: nat)
    requires Width(bits) && off < MaxLen(bits) && AllMore(s, p, off) && Signed(s, p, bits).Some?
    ensures p + off < |s|
    ensures s[p + off] < 0x80 ==>
              Signed(s, p, bits)
              == Some(Num(ToSigned(Extended(Wrap(Folded(s, p, bits, off) + Shl(s[p + off], 7 * off), bits),
                  s[p + off], off + 1, bits), bits), off + 1))
    ensures s[p + off] >= 0x80 ==>
              && off + 1 < MaxLen(bits) && AllMore(s, p, off + 1)
              && Wrap(Wrap(Folded(s, p, bits, off) + Shl(s[p + off], 7 * off), bits) - Shl(0x80, 7 * off), bits)
                 == Folded(s, p, bits, off + 1)
  {
    hide Shl, Wrap, Signed, ToSigned, Extended, Capacity, LastLimit;
    if p + off == |s| {
      SignedStuck(s, p, bits, off);
    } else if s[p + off] < 0x80 {
      SignedExit(s, p, bits, off);
    } else if off + 1 == MaxLen(bits) {
      SignedStuck(s, p, bits, off + 1);
    } else {
      SignedPrefix(s, p, bits, off);
      AddAndSubtract(Folded(s, p, bits, off), off, bits, s[p + off]);
    }
  }

  method UncheckedVu32(s: seq<byte>, p: nat) returns (v: int, n: nat)
    requires Unsigned(s, p, 32).Some?
    ensures Unsigned(s, p, 32) == Some(Num(v, n))
  {
    hide Shl, Wrap, Folded, Unsigned, Signed;
    v := 0;
    NothingFolded(s, p, 32);
    UnsignedUnchecked(s, p, 32, 0);
    var b: byte := s[p]; v := Wrap(v + Shl(b, 0), 32); if b < 0x80 { return v, 1; }
    v := Wrap(v - Shl(0x80, 0), 32);
    UnsignedUnchecked(s, p, 32, 1);
    b := s[p + 1]; v := Wrap(v + Shl(b, 7), 32); if b < 0x80 { return v, 2; }
    v := Wrap(v - Shl(0x80, 7), 32);
    UnsignedUnchecked(s, p, 32, 2);
    b := s[p + 2]; v := Wrap(v + Shl(b, 14), 32); if b < 0x80 { return v, 3; }
    v := Wrap(v - Shl(0x80, 14), 32);
    UnsignedUnchecked(s, p, 32, 3);
    b := s[p + 3]; v := Wrap(v + Shl(b, 21), 32); if b < 0x80 { return v, 4; }
    v := Wrap(v - Shl(0x80, 21), 32);
    UnsignedUnchecked(s, p, 32, 4);
    b := s[p + 4]; v := Wrap(v + Shl(b, 28), 32); if b < 0x80 { return v, 5; }
  }

  method UncheckedVu64(s: seq<byte>, p: nat) returns (v: int, n: nat)
    requires Unsigned(s, p, 64).Some?
    ensures Unsigned(s, p, 64) == Some(Num(v, n))
  {
    hide Shl, Wrap, Folded, Unsigned, Signed;
    v := 0;
    NothingFolded(s, p, 64);
    UnsignedUnchecked(s, p, 64, 0);
    var b: byte := s[p]; v := Wrap(v + Shl(b, 0), 64); if b < 0x80 { return v, 1; }
    v := Wrap(v - Shl(0x80, 0), 64);
    UnsignedUnchecked(s, p, 64, 1);
    b := s[p + 1]; v := Wrap(v + Shl(b, 7), 64); if b < 0x80 { return v, 2; }
    v := Wrap(v - Shl(0x80, 7), 64);
    UnsignedUnchecked(s, p, 64, 2);
    b := s[p + 2]; v := Wrap(v + Shl(b, 14), 64); if b < 0x80 { return v, 3; }
    v := Wrap(v - Shl(0x80, 14), 64);
    UnsignedUnchecked(s, p, 64, 3);
    b := s[p + 3]; v := Wrap(v + Shl(b, 21), 64); if b < 0x80 { return v, 4; }
    v := Wrap(v - Shl(0x80, 21), 64);
    UnsignedUnchecked(s, p, 64, 4);
    b := s[p + 4]; v := Wrap(v + Shl(b, 28), 64); if b < 0x80 { return v, 5; }
    v := Wrap(v - Shl(0x80, 28), 64);
    UnsignedUnchecked(s, p, 64, 5);
    b := s[p + 5]; v := Wrap(v + Shl(b, 35), 64); if b < 0x80 { return v, 6; }
    v := Wrap(v - Shl(0x80, 35), 64);
    UnsignedUnchecked(s, p, 64, 6);
    b := s[p + 6]; v := Wrap(v + Shl(b, 42), 64); if b < 0x80 { return v, 7; }
    v := Wrap(v - Shl(0x80, 42), 64);
    UnsignedUnchecked(s, p, 64, 7);
    b := s[p + 7]; v := Wrap(v + Shl(b, 49), 64); if b < 0x80 { return v, 8; }
    v := Wrap(v - Shl(0x80, 49), 64);
    UnsignedUnchecked(s, p, 64, 8);
    b := s[p + 8]; v := Wrap(v + Shl(b, 56), 64); if b < 0x80 { return v, 9; }
    v := Wrap(v - Shl(0x80, 56), 64);
    UnsignedUnchecked(s, p, 64, 9);
    b := s[p + 9]; v := Wrap(v + Shl(b, 63), 64); if b < 0x80 { return v, 10; }
  }

  method UncheckedVi32(s: seq<byte>, p: nat) returns (v: int, n: nat)
    requires Signed(s, p, 32).Some?
    ensures Signed(s, p, 32) == Some(Num(v, n))
  {
    hide Shl, Wrap, Folded, Unsigned, Signed;
    v := 0;
    NothingFolded(s, p, 32);
    SignedUnchecked(s, p, 32, 0);
    var b: byte := s[p]; v := Wrap(v + Shl(b, 0), 32); if b < 0x80 { v := SignExtend(v, b, 1, 32); return v, 1; }
    v := Wrap(v - Shl(0x80, 0), 32);
    SignedUnchecked(s, p, 32, 1);
    b := s[p + 1]; v := Wrap(v + Shl(b, 7), 32); if b < 0x80 { v := SignExtend(v, b, 2, 32); return v, 2; }
    v := Wrap(v - Shl(0x80, 7), 32);
    SignedUnchecked(s, p, 32, 2);
    b := s[p + 2]; v := Wrap(v + Shl(b, 14), 32); if b < 0x80 { v := SignExtend(v, b, 3, 32); return v, 3; }
    v := Wrap(v - Shl(0x80, 14), 32);
    SignedUnchecked(s, p, 32, 3);
    b := s[p + 3]; v := Wrap(v + Shl(b, 21), 32); if b < 0x80 { v := SignExtend(v, b, 4, 32); return v, 4; }
    v := Wrap(v - Shl(0x80, 21), 32);
    SignedUnchecked(s, p, 32, 4);
    b := s[p + 4]; v := Wrap(v + Shl(b, 28), 32); if b < 0x80 { v := SignExtend(v, b, 5, 32); return v, 5; }
  }

  method UncheckedVi64(s: seq<byte>, p: nat) returns (v: int, n: nat)
    requires Signed(s, p, 64).Some?
    ensures Signed(s, p, 64) == Some(Num(v, n))
  {
    hide Shl, Wrap, Folded, Unsigned, Signed;
    v := 0;
    NothingFolded(s, p, 64);
    SignedUnchecked(s, p, 64, 0);
    var b: byte := s[p]; v := Wrap(v + Shl(b, 0), 64); if b < 0x80 { v := SignExtend(v, b, 1, 64); return v, 1; }
    v := Wrap(v - Shl(0x80, 0), 64);
    SignedUnchecked(s, p, 64, 1);
    b := s[p + 1]; v := Wrap(v + Shl(b, 7), 64); if b < 0x80 { v := SignExtend(v, b, 2, 64); return v, 2; }
    v := Wrap(v - Shl(0x80, 7), 64);
    SignedUnchecked(s, p, 64, 2);
    b := s[p + 2]; v := Wrap(v + Shl(b, 14), 64); if b < 0x80 { v := SignExtend(v, b, 3, 64); return v, 3; }
    v := Wrap(v - Shl(0x80, 14), 64);
    SignedUnchecked(s, p, 64, 3);
    b := s[p + 3]; v := Wrap(v + Shl(b, 21), 64); if b < 0x80 { v := SignExtend(v, b, 4, 64); return v, 4; }
    v := Wrap(v - Shl(0x80, 21), 64);
    SignedUnchecked(s, p, 64, 4);
    b := s[p + 4]; v := Wrap(v + Shl(b, 28), 64); if b < 0x80 { v := SignExtend(v, b, 5, 64); return v, 5; }
    v := Wrap(v - Shl(0x80, 28), 64);
    SignedUnchecked(s, p, 64, 5);
    b := s[p + 5]; v := Wrap(v + Shl(b, 35), 64); if b < 0x80 { v := SignExtend(v, b, 6, 64); return v, 6; }
    v := Wrap(v - Shl(0x80, 35), 64);
    SignedUnchecked(s, p, 64, 6);
    b := s[p + 6]; v := Wrap(v + Shl(b, 42), 64); if b < 0x80 { v := SignExtend(v, b, 7, 64); return v, 7; }
    v := Wrap(v - Shl(0x80, 42), 64);
    SignedUnchecked(s, p, 64, 7);
    b := s[p + 7]; v := Wrap(v + Shl(b, 49), 64); if b < 0x80 { v := SignExtend(v, b, 8, 64); return v, 8; }
    v := Wrap(v - Shl(0x80, 49), 64);
    SignedUnchecked(s, p, 64, 8);
    b := s[p + 8]; v := Wrap(v + Shl(b, 56), 64); if b < 0x80 { v := SignExtend(v, b, 9, 64); return v, 9; }
    v := Wrap(v - Shl(0x80, 56), 64);
    SignedUnchecked(s, p, 64, 9);
    b := s[p + 9]; v := Wrap(v + Shl(b, 63), 64); if b < 0x80 { v := SignExtend(v, b, 10, 64); return v, 10; }
  }
}
