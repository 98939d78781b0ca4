/**
 What every opcode does, said in bytes of code, bytes of memory and bits of cells: one step of the
 machine from the byte at its position on, with nothing of the decoder's instructions, of their
 operands' readings or of the memory's functions.
 */
module Opcodes {
  import opened Basics
  import opened Leb128
  import opened LittleEndian
  import opened Wasm
  import opened Acts
  import opened Decoder
  import opened JumpTable
  import opened Reference
  import opened InPlace

  // ----- From a byte to a step -----

  lemma StepIs(im: Image, f: Func, at: Pc, s: State, op: Op, len: nat)
    requires OpAt(im.m, im.code, at.pc, op, len) && IsSimple(op)
    ensures FlatStep(im, f, at, s) == SimpleAct(im.m, op, s, Pc(at.pc + len, at.idx))
  {
    hide Decode, SimpleAct, CallAct, FlatControl;
  }

  // The step goes on behind len bytes, with v instead of the top k cells.
  function Puts(at: Pc, len: nat, s: State, k: nat, v: Value): Act<Pc>
    requires k <= |s.stack|
  {
    Next(Pc(at.pc + len, at.idx), s.(stack := s.stack[..|s.stack| - k] + [v]))
  }

  // Or without them.
  function Drops(at: Pc, len: nat, s: State, k: nat): Act<Pc>
    requires k <= |s.stack|
  {
    Next(Pc(at.pc + len, at.idx), s.(stack := s.stack[..|s.stack| - k]))
  }

  lemma ByteAt(m: Module, code: seq<byte>, pos: nat)
    requires pos < |code|
    ensures code[pos] == 0x00 ==> OpAt(m, code, pos, Unreachable, 1)
    ensures code[pos] == 0x01 ==> OpAt(m, code, pos, Nop, 1)
    ensures code[pos] == 0x0b ==> OpAt(m, code, pos, EndOp, 1)
    ensures code[pos] == 0x0f ==> OpAt(m, code, pos, Return, 1)
    ensures code[pos] == 0x1a ==> OpAt(m, code, pos, Drop, 1)
    ensures code[pos] == 0x1b ==> OpAt(m, code, pos, Select, 1)
    ensures code[pos] == 0x45 ==> OpAt(m, code, pos, I32Eqz, 1)
    ensures code[pos] == 0x6a ==> OpAt(m, code, pos, I32Add, 1)
    ensures code[pos] == 0x6e ==> OpAt(m, code, pos, I32DivU, 1)
    ensures code[pos] == 0x7c ==> OpAt(m, code, pos, I64Add, 1)
    ensures code[pos] == 0xa7 ==> OpAt(m, code, pos, I32WrapI64, 1)
    ensures code[pos] == 0xad ==> OpAt(m, code, pos, I64ExtendI32U, 1)
  {
    hide Unsigned, Signed, Labels, BlockType, Table, Reserved, Bulk, Accessing;
  }

  lemma WithIndex(m: Module, code: seq<byte>, pos: nat, x: nat, n: nat)
    requires pos < |code| && Unsigned(code, pos + 1, 32) == Some(Num(x, n))
    ensures code[pos] == 0x10 ==> OpAt(m, code, pos, Call(x), 1 + n)
    ensures code[pos] == 0x20 ==> OpAt(m, code, pos, LocalGet(x), 1 + n)
    ensures code[pos] == 0x21 ==> OpAt(m, code, pos, LocalSet(x), 1 + n)
    ensures code[pos] == 0x22 ==> OpAt(m, code, pos, LocalTee(x), 1 + n)
    ensures code[pos] == 0x23 ==> OpAt(m, code, pos, GlobalGet(x), 1 + n)
    ensures code[pos] == 0x24 ==> OpAt(m, code, pos, GlobalSet(x), 1 + n)
  {
    hide Unsigned, Signed, Labels, BlockType, Table, Reserved, Bulk, Accessing;
  }

  // ----- Constants and numbers -----

  lemma ConstantAt(m: Module, code: seq<byte>, pos: nat, v: int, n: nat)
    requires pos < |code|
    ensures code[pos] == 0x41 && Signed(code, pos + 1, 32) == Some(Num(v, n)) ==>
              OpAt(m, code, pos, I32Const(v), 1 + n) && -0x8000_0000 <= v < 0x8000_0000
    ensures code[pos] == 0x42 && Signed(code, pos + 1, 64) == Some(Num(v, n)) ==>
              OpAt(m, code, pos, I64Const(v), 1 + n) && -0x8000_0000_0000_0000 <= v < 0x8000_0000_0000_0000
  {
    hide Unsigned, Signed, Labels, BlockType, Table, Reserved, Bulk, Accessing, Pow2;
    NumbersFit(code, pos + 1, 32);
    NumbersFit(code, pos + 1, 64);
    Pow2Values();
  }

  lemma I32Constant(im: Image, f: Func, at: Pc, s: State, v: int, n: nat)
    requires at.pc < |im.code| && im.code[at.pc] == 0x41 && Signed(im.code, at.pc + 1, 32) == Some(Num(v, n))
    ensures -0x8000_0000 <= v < 0x8000_0000
    ensures FlatStep(im, f, at, s) == Puts(at, 1 + n, s, 0, Value(I32, if v < 0 then v + 0x1_0000_0000 else v))
  {
    hide SimpleAct, FlatStep, Decode, Signed;
    ConstantAt(im.m, im.code, at.pc, v, n);
    StepIs(im, f, at, s, I32Const(v), 1 + n);
    ConstAct(im.m, I32Const(v), s, Pc(at.pc + 1 + n, at.idx));
    assert s.stack[..|s.stack|] == s.stack;
  }

  lemma I64Constant(im: Image, f: Func, at: Pc, s: State, v: int, n: nat)
    requires at.pc < |im.code| && im.code[at.pc] == 0x42 && Signed(im.code, at.pc + 1, 64) == Some(Num(v, n))
    ensures -0x8000_0000_0000_0000 <= v < 0x8000_0000_0000_0000
    ensures FlatStep(im, f, at, s)
         == Puts(at, 1 + n, s, 0, Value(I64, if v < 0 then v + 0x1_0000_0000_0000_0000 else v))
  {
    hide SimpleAct, FlatStep, Decode, Signed;
    ConstantAt(im.m, im.code, at.pc, v, n);
    StepIs(im, f, at, s, I64Const(v), 1 + n);
    ConstAct(im.m, I64Const(v), s, Pc(at.pc + 1 + n, at.idx));
    assert s.stack[..|s.stack|] == s.stack;
  }

  // i32.eqz, i32.wrap_i64 and i64.extend_i32_u
  lemma OneOperand(im: Image, f: Func, at: Pc, s: State)
    requires at.pc < |im.code| && s.stack != []
    ensures var a := s.stack[|s.stack| - 1].bits % 0x1_0000_0000;
            && (im.code[at.pc] == 0x45 ==>
                  FlatStep(im, f, at, s) == Puts(at, 1, s, 1, Value(I32, if a == 0 then 1 else 0)))
            && (im.code[at.pc] == 0xa7 ==> FlatStep(im, f, at, s) == Puts(at, 1, s, 1, Value(I32, a)))
            && (im.code[at.pc] == 0xad ==> FlatStep(im, f, at, s) == Puts(at, 1, s, 1, Value(I64, a)))
  {
    hide SimpleAct, FlatStep, Decode;
    ByteAt(im.m, im.code, at.pc);
    var b, next := im.code[at.pc], Pc(at.pc + 1, at.idx);
    if b == 0x45 || b == 0xa7 || b == 0xad {
      var op := if b == 0x45 then I32Eqz else if b == 0xa7 then I32WrapI64 else I64ExtendI32U;
      StepIs(im, f, at, s, op, 1);
      UnaryAct(im.m, op, s, next);
    }
  }

  // i32.add, i32.div_u and i64.add
  lemma TwoOperands(im: Image, f: Func, at: Pc, s: State)
    requires at.pc < |im.code| && |s.stack| >= 2
    ensures var a, b := s.stack[|s.stack| - 2].bits, s.stack[|s.stack| - 1].bits;
            var x, y := a % 0x1_0000_0000, b % 0x1_0000_0000;
            && (im.code[at.pc] == 0x6a ==>
                  FlatStep(im, f, at, s) == Puts(at, 1, s, 2, Value(I32, (a + b) % 0x1_0000_0000)))
            && (im.code[at.pc] == 0x6e ==>
                  FlatStep(im, f, at, s) == if y == 0 then Fault else Puts(at, 1, s, 2, Value(I32, x / y)))
            && (im.code[at.pc] == 0x7c ==>
                  FlatStep(im, f, at, s) == Puts(at, 1, s, 2, Value(I64, (a + b) % 0x1_0000_0000_0000_0000)))
  {
    hide SimpleAct, FlatStep, Decode;
    ByteAt(im.m, im.code, at.pc);
    var b, next := im.code[at.pc], Pc(at.pc + 1, at.idx);
    if b == 0x6a || b == 0x6e || b == 0x7c {
      var op := if b == 0x6a then I32Add else if b == 0x6e then I32DivU else I64Add;
      StepIs(im, f, at, s, op, 1);
      BinaryAct(im.m, op, s, next);
      SumOfRests(s.stack[|s.stack| - 2].bits, s.stack[|s.stack| - 1].bits);
      QuotientFits(s.stack[|s.stack| - 2].bits % 0x1_0000_0000, s.stack[|s.stack| - 1].bits % 0x1_0000_0000);
    }
  }

  lemma SumOfRests(a: nat, b: nat)
    ensures (a % 0x1_0000_0000 + b % 0x1_0000_0000) % 0x1_0000_0000 == (a + b) % 0x1_0000_0000
  {
  }

  lemma QuotientFits(x: nat, y: nat)
    requires x < 0x1_0000_0000
    ensures y > 0 ==> 0 <= x / y && x / y % 0x1_0000_0000 == x / y
  {
    if y > 0 {
      assert x / y <= x;
    }
  }

  // A number below 2^32 is what its cell is read as, in addresses, sizes and tests.
  lemma ReadBack(n: nat)
    requires n < 0x1_0000_0000
    ensures Int32(n) == Value(I32, n) && U32(Int32(n)) == n && U32(Value(I64, n + 0x1_0000_0000)) == n
    ensures Int32(-1) == Value(I32, 0xffff_ffff) && Int64(-1) == Value(I64, 0xffff_ffff_ffff_ffff)
  {
  }

  // ----- Stack, locals and globals -----

  lemma StackOps(im: Image, f: Func, at: Pc, s: State)
    requires at.pc < |im.code|
    ensures im.code[at.pc] == 0x00 ==> FlatStep(im, f, at, s) == Fault
    ensures im.code[at.pc] == 0x01 ==> FlatStep(im, f, at, s) == Next(Pc(at.pc + 1, at.idx), s)
    ensures im.code[at.pc] == 0x1a && s.stack != [] ==> FlatStep(im, f, at, s) == Drops(at, 1, s, 1)
    ensures im.code[at.pc] == 0x1b && |s.stack| >= 3 ==>
              var n := |s.stack|;
              FlatStep(im, f, at, s)
              == Puts(at, 1, s, 3, s.stack[if s.stack[n - 1].bits % 0x1_0000_0000 != 0 then n - 3 else n - 2])
  {
    hide SimpleAct, FlatStep, Decode;
    ByteAt(im.m, im.code, at.pc);
    var b, next := im.code[at.pc], Pc(at.pc + 1, at.idx);
    if b == 0x00 {
      HaltIs(im, f, at, s);
    } else if b == 0x01 {
      StepIs(im, f, at, s, Nop, 1);
      NopAct(im.m, s, next);
    } else if b == 0x1a {
      StepIs(im, f, at, s, Drop, 1);
      DropAct(im.m, s, next);
    } else if b == 0x1b {
      StepIs(im, f, at, s, Select, 1);
      SelectAct(im.m, s, next);
    }
  }

  lemma HaltIs(im: Image, f: Func, at: Pc, s: State)
    requires OpAt(im.m, im.code, at.pc, Unreachable, 1)
    ensures FlatStep(im, f, at, s) == Fault
  {
    hide Decode, SimpleAct, CallAct;
  }

  lemma LocalOps(im: Image, f: Func, at: Pc, s: State, x: nat, n: nat)
    requires at.pc < |im.code| && Unsigned(im.code, at.pc + 1, 32) == Some(Num(x, n)) && x < |s.locals|
    ensures im.code[at.pc] == 0x20 ==> FlatStep(im, f, at, s) == Puts(at, 1 + n, s, 0, s.locals[x])
    ensures im.code[at.pc] == 0x21 && s.stack != [] ==>
              FlatStep(im, f, at, s) == Drops(at, 1 + n, s.(locals := s.locals[x := s.stack[|s.stack| - 1]]), 1)
    ensures im.code[at.pc] == 0x22 && s.stack != [] ==>
              FlatStep(im, f, at, s) == Drops(at, 1 + n, s.(locals := s.locals[x := s.stack[|s.stack| - 1]]), 0)
  {
    hide SimpleAct, FlatStep, Decode, Unsigned;
    WithIndex(im.m, im.code, at.pc, x, n);
    var b, next := im.code[at.pc], Pc(at.pc + 1 + n, at.idx);
    assert s.stack[..|s.stack|] == s.stack;
    if b == 0x20 {
      StepIs(im, f, at, s, LocalGet(x), 1 + n);
      GetAct(im.m, x, s, next);
    } else if b == 0x21 {
      StepIs(im, f, at, s, LocalSet(x), 1 + n);
      SetAct(im.m, x, s, next);
    } else if b == 0x22 {
      StepIs(im, f, at, s, LocalTee(x), 1 + n);
      TeeAct(im.m, x, s, next);
    }
  }

  lemma GlobalOps(im: Image, f: Func, at: Pc, s: State, x: nat, n: nat)
    requires at.pc < |im.code| && Unsigned(im.code, at.pc + 1, 32) == Some(Num(x, n)) && x < |s.store.globals|
    ensures im.code[at.pc] == 0x23 ==> FlatStep(im, f, at, s) == Puts(at, 1 + n, s, 0, s.store.globals[x])
    ensures im.code[at.pc] == 0x24 && s.stack != [] ==>
              var globals := s.store.globals[x := s.stack[|s.stack| - 1]];
              FlatStep(im, f, at, s) == Drops(at, 1 + n, s.(store := s.store.(globals := globals)), 1)
  {
    hide SimpleAct, FlatStep, Decode, Unsigned;
    WithIndex(im.m, im.code, at.pc, x, n);
    var b, next := im.code[at.pc], Pc(at.pc + 1 + n, at.idx);
    assert s.stack[..|s.stack|] == s.stack;
    if b == 0x23 {
      StepIs(im, f, at, s, GlobalGet(x), 1 + n);
      GlobalGetAct(im.m, x, s, next);
    } else if b == 0x24 {
      StepIs(im, f, at, s, GlobalSet(x), 1 + n);
      GlobalSetAct(im.m, x, s, next);
    }
  }

  // ----- Loads and stores -----

  // A load or store at pos: an alignment in al bytes, then an offset in ol bytes.
  predicate AccessImmediates(code: seq<byte>, pos: nat, al: nat, offset: nat, ol: nat) {
    && pos < |code| && Unsigned(code, pos + 1, 7).Some? && Unsigned(code, pos + 1, 7).value.len == al
    && Unsigned(code, pos + 1 + al, 32) == Some(Num(offset, ol))
  }

  // The same, in a module that has a memory; p is the address that the operand k cells below the top
  // gives: its low 32 bits and the offset.
  predicate Accesses(im: Image, at: Pc, s: State, al: nat, offset: nat, ol: nat, k: nat, p: nat) {
    && AccessImmediates(im.code, at.pc, al, offset, ol) && im.m.memMax.Some? && k < |s.stack|
    && p == s.stack[|s.stack| - 1 - k].bits % 0x1_0000_0000 + offset
  }

  lemma AccessAt(im: Image, at: Pc, s: State, al: nat, offset: nat, ol: nat, k: nat, p: nat)
    requires Accesses(im, at, s, al, offset, ol, k, p) && 0x28 <= im.code[at.pc] <= 0x3e
    ensures var align := Unsigned(im.code, at.pc + 1, 7).value.value;
            align >= 0 && OpAt(im.m, im.code, at.pc, MemOp(im.code[at.pc], align, offset), 1 + al + ol)
  {
    hide Unsigned, Signed, Labels, BlockType, Table, Reserved, Bulk;
    NumbersFit(im.code, at.pc + 1, 7);
  }

  // What any load does, its access known.
  lemma LoadsAs(im: Image, f: Func, at: Pc, s: State, al: nat, offset: nat, ol: nat, p: nat, acc: Access)
    requires Accesses(im, at, s, al, offset, ol, 0, p) && 0x28 <= im.code[at.pc] <= 0x35
    requires acc == AccessOf(im.code[at.pc])
    ensures FlatStep(im, f, at, s)
         == if p + acc.width > |s.store.mem| then Fault
            else Puts(at, 1 + al + ol, s, 1, Widened(acc, ReadAt(s.store.mem, p, acc.width)))
  {
    hide SimpleAct, FlatStep, Decode, Widened, ReadAt, Unsigned, AccessOf;
    AccessAt(im, at, s, al, offset, ol, 0, p);
    var align: nat := Unsigned(im.code, at.pc + 1, 7).value.value;
    StepIs(im, f, at, s, Load(acc, align, offset), 1 + al + ol);
    LoadAct(im.m, acc, align, offset, s, Pc(at.pc + 1 + al + ol, at.idx));
  }

  lemma StoresAs(im: Image, f: Func, at: Pc, s: State, al: nat, offset: nat, ol: nat, p: nat, acc: Access)
    requires Accesses(im, at, s, al, offset, ol, 1, p) && 0x36 <= im.code[at.pc] <= 0x3e
    requires acc == AccessOf(im.code[at.pc])
    ensures FlatStep(im, f, at, s)
         == if p + acc.width > |s.store.mem| then Fault
            else
              var mem := WriteAt(s.store.mem, p, acc.width, s.stack[|s.stack| - 1].bits);
              Drops(at, 1 + al + ol, s.(store := s.store.(mem := mem)), 2)
  {
    hide SimpleAct, FlatStep, Decode, WriteAt, Unsigned, AccessOf;
    AccessAt(im, at, s, al, offset, ol, 1, p);
    var align: nat := Unsigned(im.code, at.pc + 1, 7).value.value;
    StepIs(im, f, at, s, Save(acc, align, offset), 1 + al + ol);
    SaveAct(im.m, acc, align, offset, s, Pc(at.pc + 1 + al + ol, at.idx));
    assert s.stack[..|s.stack| - 1][..|s.stack| - 2] == s.stack[..|s.stack| - 2];
  }

  // How the narrow loads fill a cell.
  lemma SignFilled(b: nat)
    ensures b < 0x100 ==>
      && Widened(AccessOf(0x2c), b) == Value(I32, if b < 0x80 then b else b + 0xffff_ff00)
      && Widened(AccessOf(0x30), b) == Value(I64, if b < 0x80 then b else b + 0xffff_ffff_ffff_ff00)
    ensures b < 0x1_0000 ==>
      && Widened(AccessOf(0x2e), b) == Value(I32, if b < 0x8000 then b else b + 0xffff_0000)
      && Widened(AccessOf(0x32), b) == Value(I64, if b < 0x8000 then b else b + 0xffff_ffff_ffff_0000)
    ensures b < 0x1_0000_0000 ==>
      Widened(AccessOf(0x34), b) == Value(I64, if b < 0x8000_0000 then b else b + 0xffff_ffff_0000_0000)
  {
    hide Radix;
    RadixValues();
  }

  lemma ZeroFilled(b: nat)
    ensures Widened(AccessOf(0x2d), b) == Widened(AccessOf(0x2f), b) == Widened(AccessOf(0x28), b) == Value(I32, b)
    ensures Widened(AccessOf(0x31), b) == Widened(AccessOf(0x33), b) == Widened(AccessOf(0x35), b) == Value(I64, b)
    ensures Widened(AccessOf(0x2a), b) == Value(F32, b) && Widened(AccessOf(0x29), b) == Value(I64, b)
    ensures Widened(AccessOf(0x2b), b) == Value(F64, b)
  {
    hide Radix;
  }

  lemma Widths(opcode: byte)
    ensures opcode in {0x2c, 0x2d, 0x30, 0x31, 0x3a, 0x3c} ==> AccessOf(opcode).width == 1
    ensures opcode in {0x2e, 0x2f, 0x32, 0x33, 0x3b, 0x3d} ==> AccessOf(opcode).width == 2
    ensures opcode in {0x28, 0x2a, 0x34, 0x35, 0x36, 0x38, 0x3e} ==> AccessOf(opcode).width == 4
    ensures opcode in {0x29, 0x2b, 0x37, 0x39} ==> AccessOf(opcode).width == 8
  {
  }

  // i32.load8_s, i32.load8_u, i64.load8_s and i64.load8_u
  lemma Load8(im: Image, f: Func, at: Pc, s: State, al: nat, offset: nat, ol: nat, p: nat)
    requires Accesses(im, at, s, al, offset, ol, 0, p) && im.code[at.pc] in {0x2c, 0x2d, 0x30, 0x31}
    ensures p + 1 > |s.store.mem| ==> FlatStep(im, f, at, s) == Fault
    ensures p + 1 <= |s.store.mem| ==>
              var b: nat := s.store.mem[p];
              var go := v => Puts(at, 1 + al + ol, s, 1, v);
              && (im.code[at.pc] == 0x2c ==>
                    FlatStep(im, f, at, s) == go(Value(I32, if b < 0x80 then b else b + 0xffff_ff00)))
              && (im.code[at.pc] == 0x2d ==> FlatStep(im, f, at, s) == go(Value(I32, b)))
              && (im.code[at.pc] == 0x30 ==>
                    FlatStep(im, f, at, s) == go(Value(I64, if b < 0x80 then b else b + 0xffff_ffff_ffff_ff00)))
              && (im.code[at.pc] == 0x31 ==> FlatStep(im, f, at, s) == go(Value(I64, b)))
  {
    hide FlatStep, ReadAt, Widened, AccessOf;
    Widths(im.code[at.pc]);
    ReadBytes(s.store.mem, p);
    LoadsAs(im, f, at, s, al, offset, ol, p, AccessOf(im.code[at.pc]));
    if p + 1 <= |s.store.mem| {
      SignFilled(s.store.mem[p]);
      ZeroFilled(s.store.mem[p]);
    }
  }

  // i32.load16_s, i32.load16_u, i64.load16_s and i64.load16_u
  lemma Load16(im: Image, f: Func, at: Pc, s: State, al: nat, offset: nat, ol: nat, p: nat)
    requires Accesses(im, at, s, al, offset, ol, 0, p) && im.code[at.pc] in {0x2e, 0x2f, 0x32, 0x33}
    ensures p + 2 > |s.store.mem| ==> FlatStep(im, f, at, s) == Fault
    ensures p + 2 <= |s.store.mem| ==>
              var b := s.store.mem[p] + 0x100 * (s.store.mem[p + 1] as int);
              var go := v => Puts(at, 1 + al + ol, s, 1, v);
              && (im.code[at.pc] == 0x2e ==>
                    FlatStep(im, f, at, s) == go(Value(I32, if b < 0x8000 then b else b + 0xffff_0000)))
              && (im.code[at.pc] == 0x2f ==> FlatStep(im, f, at, s) == go(Value(I32, b)))
              && (im.code[at.pc] == 0x32 ==>
                    FlatStep(im, f, at, s) == go(Value(I64, if b < 0x8000 then b else b + 0xffff_ffff_ffff_0000)))
              && (im.code[at.pc] == 0x33 ==> FlatStep(im, f, at, s) == go(Value(I64, b)))
  {
    hide FlatStep, ReadAt, Widened, AccessOf;
    Widths(im.code[at.pc]);
    ReadBytes(s.store.mem, p);
    LoadsAs(im, f, at, s, al, offset, ol, p, AccessOf(im.code[at.pc]));
    if p + 2 <= |s.store.mem| {
      SignFilled(s.store.mem[p] + 0x100 * (s.store.mem[p + 1] as int));
      ZeroFilled(s.store.mem[p] + 0x100 * (s.store.mem[p + 1] as int));
    }
  }

  // i32.load, f32.load, i64.load32_s and i64.load32_u
  lemma Load32(im: Image, f: Func, at: Pc, s: State, al: nat, offset: nat, ol: nat, p: nat)
    requires Accesses(im, at, s, al, offset, ol, 0, p) && im.code[at.pc] in {0x28, 0x2a, 0x34, 0x35}
    ensures p + 4 > |s.store.mem| ==> FlatStep(im, f, at, s) == Fault
    ensures p + 4 <= |s.store.mem| ==>
              var b := Word(s.store.mem, p);
              var go := v => Puts(at, 1 + al + ol, s, 1, v);
              && (im.code[at.pc] == 0x28 ==> FlatStep(im, f, at, s) == go(Value(I32, b)))
              && (im.code[at.pc] == 0x2a ==> FlatStep(im, f, at, s) == go(Value(F32, b)))
              && (im.code[at.pc] == 0x34 ==>
                    FlatStep(im, f, at, s) == go(Value(I64, if b < 0x8000_0000 then b else b + 0xffff_ffff_0000_0000)))
              && (im.code[at.pc] == 0x35 ==> FlatStep(im, f, at, s) == go(Value(I64, b)))
  {
    hide FlatStep, ReadAt, Widened, AccessOf;
    Widths(im.code[at.pc]);
    ReadBytes(s.store.mem, p);
    LoadsAs(im, f, at, s, al, offset, ol, p, AccessOf(im.code[at.pc]));
    if p + 4 <= |s.store.mem| {
      SignFilled(Word(s.store.mem, p));
      ZeroFilled(Word(s.store.mem, p));
    }
  }

  // i64.load and f64.load
  lemma Load64(im: Image, f: Func, at: Pc, s: State, al: nat, offset: nat, ol: nat, p: nat)
    requires Accesses(im, at, s, al, offset, ol, 0, p) && im.code[at.pc] in {0x29, 0x2b}
    ensures p + 8 > |s.store.mem| ==> FlatStep(im, f, at, s) == Fault
    ensures p + 8 <= |s.store.mem| ==>
              var b := Word(s.store.mem, p) + 0x1_0000_0000 * Word(s.store.mem, p + 4);
              FlatStep(im, f, at, s) == Puts(at, 1 + al
                  + ol, s, 1, Value(if im.code[at.pc] == 0x29 then I64 else F64, b))
  {
    hide FlatStep, ReadAt, Widened, AccessOf;
    Widths(im.code[at.pc]);
    ReadBytes(s.store.mem, p);
    ReadBytes(s.store.mem, p + 4);
    LoadsAs(im, f, at, s, al, offset, ol, p, AccessOf(im.code[at.pc]));
    if p + 8 <= |s.store.mem| {
      SignFilled(Word(s.store.mem, p) + 0x1_0000_0000 * Word(s.store.mem, p + 4));
      ZeroFilled(Word(s.store.mem, p) + 0x1_0000_0000 * Word(s.store.mem, p + 4));
    }
  }

  // A number's bytes, the least significant first.
  lemma Bytes(v: nat)
    ensures Digits(v, 1) == [v % 0x100] && Digits(v, 2) == [v % 0x100, v / 0x100 % 0x100]
    ensures Digits(v, 4) == [v % 0x100, v / 0x100 % 0x100, v / 0x1_0000 % 0x100, v / 0x100_0000 % 0x100]
    ensures Digits(v, 8) == Digits(v, 4) + Digits(v / 0x1_0000_0000, 4)
  {
    Shifts(v);
    var w := v / 0x100;
    assert Digits(v, 2) == [v % 0x100] + Digits(w, 1) && Digits(w, 1) == [w % 0x100] + Digits(w / 0x100, 0);
    FourBytes(v);
    FourBytes(v / 0x1_0000_0000);
    MoreBytes(v, 4, 4);
    assert Shifted(v, 4) == v / 0x1_0000_0000;
  }

  lemma Shifts(v: nat)
    ensures v / 0x100 / 0x100 == v / 0x1_0000 && v / 0x1_0000 / 0x100 == v / 0x100_0000
    ensures v / 0x100_0000 / 0x100 == v / 0x1_0000_0000
    ensures Shifted(v, 0) == v && Shifted(v, 1) == v / 0x100 && Shifted(v, 2) == v / 0x1_0000
    ensures Shifted(v, 3) == v / 0x100_0000 && Shifted(v, 4) == v / 0x1_0000_0000
  {
  }

  lemma FourBytes(v: nat)
    ensures Digits(v, 4) == [v % 0x100, v / 0x100 % 0x100, v / 0x1_0000 % 0x100, v / 0x100_0000 % 0x100]
  {
    hide Digits, Shifted;
    Shifts(v);
    assert Digits(v, 0) == [];
    DigitsNext(v, 0);
    DigitsNext(v, 1);
    DigitsNext(v, 2);
    DigitsNext(v, 3);
  }

  lemma {:induction false} MoreBytes(v: nat, n: nat, k: nat)
    ensures Digits(v, n + k) == Digits(v, n) + Digits(Shifted(v, n), k)
  {
    hide Digits;
    if k == 0 {
      assert Digits(Shifted(v, n), 0) == [];
    } else {
      MoreBytes(v, n, k - 1);
      DigitsNext(v, n + k - 1);
      DigitsNext(Shifted(v, n), k - 1);
      ShiftTwice(v, n, k - 1);
    }
  }

  lemma {:induction false} ShiftTwice(v: nat, n: nat, k: nat)
    ensures Shifted(Shifted(v, n), k) == Shifted(v, n + k)
  {
    if k > 0 {
      ShiftTwice(v, n, k - 1);
    }
  }

  // i32.store8 and i64.store8, i32.store16 and i64.store16, i32.store, f32.store and i64.store32,
  // i64.store and f64.store: as many bytes of the cell, the least significant first, and no other.
  lemma Stores(im: Image, f: Func, at: Pc, s: State, al: nat, offset: nat, ol: nat, p: nat, n: nat)
    requires Accesses(im, at, s, al, offset, ol, 1, p)
    requires || (im.code[at.pc] in {0x3a, 0x3c} && n == 1) || (im.code[at.pc] in {0x3b, 0x3d} && n == 2)
             || (im.code[at.pc] in {0x36, 0x38, 0x3e} && n == 4) || (im.code[at.pc] in {0x37, 0x39} && n == 8)
    ensures p + n > |s.store.mem| ==> FlatStep(im, f, at, s) == Fault
    ensures p + n <= |s.store.mem| ==>
              var v, mem := s.stack[|s.stack| - 1].bits, s.store.mem;
              var low := [v % 0x100, v / 0x100 % 0x100, v / 0x1_0000 % 0x100, v / 0x100_0000 % 0x100];
              var w := v / 0x1_0000_0000;
              var high := [w % 0x100, w / 0x100 % 0x100, w / 0x1_0000 % 0x100, w / 0x100_0000 % 0x100];
              var bytes := mem[..p] + (low + high)[..n] + mem[p + n..];
              FlatStep(im, f, at, s) == Drops(at, 1 + al + ol, s.(store := s.store.(mem := bytes)), 2)
  {
    hide FlatStep, AccessOf, Digits;
    Widths(im.code[at.pc]);
    StoresAs(im, f, at, s, al, offset, ol, p, AccessOf(im.code[at.pc]));
    var v := s.stack[|s.stack| - 1].bits;
    Bytes(v);
    FourBytes(v / 0x1_0000_0000);
    var low, high := Digits(v, 4), Digits(v / 0x1_0000_0000, 4);
    assert (low + high)[..1] == Digits(v, 1) && (low + high)[..2] == Digits(v, 2);
    assert (low + high)[..4] == Digits(v, 4) && (low + high)[..8] == Digits(v, 8);
  }

  // ----- The whole memory -----

  // memory.size and memory.grow, with their reserved byte: pages have 65536 bytes. Growing needs the
  // limit and, if it asks for anything, the allocator; otherwise it pushes -1.
  lemma Pages(im: Image, f: Func, at: Pc, s: State)
    requires at.pc + 1 < |im.code| && im.code[at.pc] in {0x3f, 0x40} && im.code[at.pc + 1] == 0x00
    requires im.m.memMax.Some? && |s.store.mem| % 65536 == 0 && |s.store.mem| / 65536 < 0x1_0000_0000
    ensures im.code[at.pc] == 0x3f ==> FlatStep(im, f, at, s) == Puts(at, 2, s, 0, Value(I32, |s.store.mem| / 65536))
    ensures im.code[at.pc] == 0x40 && s.stack != [] ==>
              var more, pages := s.stack[|s.stack| - 1].bits % 0x1_0000_0000, |s.store.mem| / 65536;
              var heap := if more == 0 || s.store.heap == [] then s.store.heap else s.store.heap[1..];
              var mem := s.store.mem + seq(more * 65536, _ => 0);
              FlatStep(im, f, at, s)
              == if pages + more > im.m.memMax.value then Puts(at, 2, s, 1, Value(I32, 0xffff_ffff))
                 else if more == 0 || s.store.heap == [] || s.store.heap[0] then
                   Puts(at, 2, s.(store := s.store.(mem := mem, heap := heap)), 1, Value(I32, pages))
                 else Puts(at, 2, s.(store := s.store.(heap := heap)), 1, Value(I32, 0xffff_ffff))
  {
    hide FlatStep, SimpleAct, Decode, Grow, Grown;
    PageOps(im.m, im.code, at.pc);
    assert s.stack[..|s.stack|] == s.stack;
    if im.code[at.pc] == 0x3f {
      StepIs(im, f, at, s, MemorySize, 2);
      SizeAct(im.m, s, Pc(at.pc + 2, at.idx));
    } else if s.stack != [] {
      StepIs(im, f, at, s, MemoryGrow, 2);
      GrowAct(im.m, s, Pc(at.pc + 2, at.idx));
      GrowsBy(im.m, s.store, s.stack[|s.stack| - 1].bits % 0x1_0000_0000);
    }
  }

  lemma PageOps(m: Module, code: seq<byte>, pos: nat)
    requires pos + 1 < |code| && code[pos + 1] == 0x00
    ensures code[pos] == 0x3f ==> OpAt(m, code, pos, MemorySize, 2)
    ensures code[pos] == 0x40 ==> OpAt(m, code, pos, MemoryGrow, 2)
  {
    hide Unsigned, Signed, Labels, BlockType, Table, Bulk, Accessing, Reserved;
    ZeroByte(code, pos + 1);
  }

  lemma GrowsBy(m: Module, store: Store, more: nat)
    requires m.memMax.Some? && |store.mem| % 65536 == 0 && |store.mem| / 65536 < 0x1_0000_0000
    ensures var pages := |store.mem| / 65536;
            var heap := if more == 0 || store.heap == [] then store.heap else store.heap[1..];
            var mem := store.mem + seq(more * 65536, _ => 0);
            Grown(m, store, more)
            == if pages + more > m.memMax.value then (Value(I32, 0xffff_ffff), store)
               else if more == 0 || store.heap == [] || store.heap[0] then
                 (Value(I32, pages), store.(mem := mem, heap := heap))
               else (Value(I32, 0xffff_ffff), store.(heap := heap))
  {
    var pages := |store.mem| / 65536;
    assert (pages + more) * 65536 == |store.mem| + more * 65536;
    if more == 0 {
      assert store.mem + seq(more * 65536, _ => 0) == store.mem == store.mem[..|store.mem|];
    }
  }

  // memory.copy and memory.fill: their second opcode and reserved bytes, then cell by cell of memory.
  lemma Copies(im: Image, f: Func, at: Pc, s: State, len: nat)
    requires at.pc < |im.code| && im.code[at.pc] == 0xfc && Unsigned(im.code, at.pc + 1, 32) == Some(Num(0x0a, len))
    requires at.pc + len + 2 < |im.code| && im.code[at.pc + len + 1] == im.code[at.pc + len + 2] == 0x00
    requires im.m.memMax.Some? && |s.stack| >= 3
    ensures var k, mem := |s.stack|, s.store.mem;
            var n, src := s.stack[k - 1].bits % 0x1_0000_0000, s.stack[k - 2].bits % 0x1_0000_0000;
            var dst := s.stack[k - 3].bits % 0x1_0000_0000;
            if src + n > |mem| || dst + n > |mem| then FlatStep(im, f, at, s) == Fault
            else
              var after := seq(|mem|, i requires 0 <= i < |mem| => if dst <= i < dst + n then mem[src + i - dst]
                  else mem[i]);
              FlatStep(im, f, at, s) == Drops(at, len + 3, s.(store := s.store.(mem := after)), 3)
  {
    hide FlatStep, SimpleAct, Decode, CopyAt, Unsigned;
    var k, mem := |s.stack|, s.store.mem;
    CopyOp(im.m, im.code, at.pc, len);
    StepIs(im, f, at, s, MemoryCopy, len + 3);
    CopyAct(im.m, s, Pc(at.pc + len + 3, at.idx));
    ThreeDropped(s);
    CopiedAt(mem, s.stack[k - 3].bits % 0x1_0000_0000, s.stack[k - 2].bits % 0x1_0000_0000,
      s.stack[k - 1].bits % 0x1_0000_0000);
  }

  lemma Fills(im: Image, f: Func, at: Pc, s: State, len: nat)
    requires at.pc < |im.code| && im.code[at.pc] == 0xfc && Unsigned(im.code, at.pc + 1, 32) == Some(Num(0x0b, len))
    requires at.pc + len + 1 < |im.code| && im.code[at.pc + len + 1] == 0x00
    requires im.m.memMax.Some? && |s.stack| >= 3
    ensures var k, mem := |s.stack|, s.store.mem;
            var n, b := s.stack[k - 1].bits % 0x1_0000_0000, s.stack[k - 2].bits % 0x100;
            var dst := s.stack[k - 3].bits % 0x1_0000_0000;
            if dst + n > |mem| then FlatStep(im, f, at, s) == Fault
            else
              var after := seq(|mem|, i requires 0 <= i < |mem| => if dst <= i < dst + n then b else mem[i]);
              FlatStep(im, f, at, s) == Drops(at, len + 2, s.(store := s.store.(mem := after)), 3)
  {
    hide FlatStep, SimpleAct, Decode, FillAt, Unsigned;
    var k, mem := |s.stack|, s.store.mem;
    FillOp(im.m, im.code, at.pc, len);
    StepIs(im, f, at, s, MemoryFill, len + 2);
    FillAct(im.m, s, Pc(at.pc + len + 2, at.idx));
    ThreeDropped(s);
    FilledAt(mem, s.stack[k - 3].bits % 0x1_0000_0000, s.stack[k - 1].bits % 0x1_0000_0000,
        s.stack[k - 2].bits % 0x100);
  }

  lemma ThreeDropped(s: State)
    requires |s.stack| >= 3
    ensures Drop1(Drop1(Drop1(s, 1), 1), 1) == s.(stack := s.stack[..|s.stack| - 3])
  {
    var low := s.stack[..|s.stack| - 1];
    assert low[..|low| - 1][..|low| - 2] == s.stack[..|s.stack| - 3];
  }

  lemma ZeroByte(code: seq<byte>, p: nat)
    requires p < |code| && code[p] == 0x00
    ensures Reserved(code, p) == Some(Num(0, 1))
  {
    Pow2Values();
  }

  lemma CopyOp(m: Module, code: seq<byte>, pos: nat, len: nat)
    requires pos < |code| && code[pos] == 0xfc && Unsigned(code, pos + 1, 32) == Some(Num(0x0a, len))
    requires pos + len + 2 < |code| && code[pos + len + 1] == code[pos + len + 2] == 0x00
    ensures OpAt(m, code, pos, MemoryCopy, len + 3)
  {
    hide Unsigned, Signed, Labels, BlockType, Table, Accessing, Reserved;
    ZeroByte(code, pos + 1 + len);
    ZeroByte(code, pos + 1 + len + 1);
  }

  lemma FillOp(m: Module, code: seq<byte>, pos: nat, len: nat)
    requires pos < |code| && code[pos] == 0xfc && Unsigned(code, pos + 1, 32) == Some(Num(0x0b, len))
    requires pos + len + 1 < |code| && code[pos + len + 1] == 0x00
    ensures OpAt(m, code, pos, MemoryFill, len + 2)
  {
    hide Unsigned, Signed, Labels, BlockType, Table, Accessing, Reserved;
    ZeroByte(code, pos + 1 + len);
  }

  lemma CopiedAt(mem: seq<byte>, dst: nat, src: nat, n: nat)
    ensures dst + n <= |mem| && src + n <= |mem| ==>
              CopyAt(mem, dst, src, n)
              == seq(|mem|, i requires 0 <= i < |mem| => if dst <= i < dst + n then mem[src + i - dst] else mem[i])
  {
  }

  lemma FilledAt(mem: seq<byte>, dst: nat, n: nat, b: byte)
    ensures dst + n <= |mem| ==>
              FillAt(mem, dst, n, b)
              == seq(|mem|, i requires 0 <= i < |mem| => if dst <= i < dst + n then b else mem[i])
  {
  }

  // ----- Control -----

  // The header of a block, loop or if: its type is one byte.
  lemma Headers(m: Module, code: seq<byte>, pos: nat)
    requires pos + 1 < |code| && code[pos] in {0x02, 0x03, 0x04}
    ensures var b := code[pos + 1];
            var ft := if b == 0x40 then Some(FuncType([], []))
                      else if b == 0x7f then Some(FuncType([], [I32]))
                      else if b == 0x7e then Some(FuncType([], [I64]))
                      else if b == 0x7d then Some(FuncType([], [F32]))
                      else if b == 0x7c then Some(FuncType([], [F64]))
                      else if b == 0x7b then Some(FuncType([], [V128]))
                      else if b == 0x70 then Some(FuncType([], [FuncRef]))
                      else if b == 0x6f then Some(FuncType([], [ExternRef]))
                      else if b < 0x40 && b < |m.types| then Some(m.types[b])
                      else None;
            Decode(m, code, pos)
            == if ft == None then None
               else Some(Instr(if code[pos] == 0x02 then BlockOp(ft.value)
                               else if code[pos] == 0x03 then LoopOp(ft.value) else IfOp(ft.value), 2))
  {
    hide Unsigned, Labels, Table, Reserved, Bulk, Accessing;
    Pow2Values();
    var b := code[pos + 1];
    assert Signed(code, pos + 1, 7) == if b < 0x40 then Some(Num(b, 1))
        else if b < 0x80 then Some(Num(b as int - 0x80, 1)) else None;
  }

  // Following a slot: to its target, with the arity's cells moved down over the offset's.
  function Branched(e: Entry, from: nat, s: State): Act<Pc> {
    var n := |s.stack|;
    if e.pc != from || from + e.jump < 0 then Undefined
    else if e.offset == 0 then Next(Pc(from + e.jump, e.next), s)
    else if n < e.offset + e.arity then Undefined
    else Next(Pc(from + e.jump, e.next), s.(stack := s.stack[..n - e.offset - e.arity] + s.stack[n - e.arity..]))
  }

  // block, loop, else and if
  lemma Brackets(im: Image, f: Func, at: Pc, s: State)
    requires at.pc < |im.code| && Decode(im.m, im.code, at.pc).Some?
    ensures im.code[at.pc] in {0x02, 0x03} ==> FlatStep(im, f, at, s) == Next(Pc(at.pc + 2, at.idx), s)
    ensures im.code[at.pc] == 0x04 && s.stack != [] ==>
              var low := s.(stack := s.stack[..|s.stack| - 1]);
              if s.stack[|s.stack| - 1].bits % 0x1_0000_0000 != 0 then
                FlatStep(im, f, at, s) == Next(Pc(at.pc + 2, (at.idx + 1) % 65536), low)
              else
                at.idx < |im.jt| && im.jt[at.idx].offset == 0 ==>
                  FlatStep(im, f, at, s) == Branched(im.jt[at.idx], at.pc + 1, low)
    ensures im.code[at.pc] == 0x05 && at.idx < |im.jt| ==>
              FlatStep(im, f, at, s) == Branched(im.jt[at.idx].(offset := 0), at.pc + 1, s)
  {
    hide SimpleAct, CallAct, Unsigned, Signed, Labels, BlockType, Table, Reserved, Bulk, Accessing;
  }

  lemma LabelByte(m: Module, code: seq<byte>, pos: nat)
    requires pos + 1 < |code|
    ensures code[pos] == 0x0c ==> OpAt(m, code, pos, Br(code[pos + 1]), 2)
    ensures code[pos] == 0x0d ==> OpAt(m, code, pos, BrIf(code[pos + 1]), 2)
  {
    hide Unsigned, Signed, Labels, BlockType, Table, Reserved, Bulk, Accessing;
  }

  // br, br_if and br_table. A br_table picks the slot of its operand's label, or of the last.
  lemma Branch(im: Image, f: Func, at: Pc, s: State)
    requires at.pc + 1 < |im.code| && at.idx < |im.jt|
    ensures im.code[at.pc] == 0x0c ==> FlatStep(im, f, at, s) == Branched(im.jt[at.idx], at.pc + 1, s)
  {
    hide SimpleAct, CallAct, Decode;
    LabelByte(im.m, im.code, at.pc);
  }

  lemma BranchIf(im: Image, f: Func, at: Pc, s: State)
    requires at.pc + 1 < |im.code| && at.idx < |im.jt|
    ensures im.code[at.pc] == 0x0d && s.stack != [] ==>
              var low := s.(stack := s.stack[..|s.stack| - 1]);
              FlatStep(im, f, at, s)
              == if s.stack[|s.stack| - 1].bits % 0x1_0000_0000 != 0 then Branched(im.jt[at.idx], at.pc + 1, low)
                 else Next(Pc(at.pc + 2, (at.idx + 1) % 65536), low)
  {
    hide SimpleAct, CallAct, Decode;
    LabelByte(im.m, im.code, at.pc);
  }

  lemma TableBranch(im: Image, f: Func, at: Pc, s: State, ls: seq<nat>, skew: nat, len: nat)
    requires OpAt(im.m, im.code, at.pc, BrTable(ls, skew), len) && ls != [] && |ls| <= 65536 && s.stack != []
    ensures var i := s.stack[|s.stack| - 1].bits % 0x1_0000_0000;
            var slot := (at.idx + if i < |ls| then i else |ls| - 1) % 65536;
            slot < |im.jt| ==>
              FlatStep(im, f, at, s) == Branched(im.jt[slot], at.pc + len, s.(stack := s.stack[..|s.stack| - 1]))
  {
    hide SimpleAct, CallAct, Decode;
  }

  // end, return and call
  lemma Leaves(im: Image, f: Func, at: Pc, s: State)
    requires at.pc < |im.code|
    ensures im.code[at.pc] == 0x0b && at.pc + 1 < |im.code| ==> FlatStep(im, f, at, s) == Next(Pc(at.pc + 1, at.idx), s)
    ensures (im.code[at.pc] == 0x0b && at.pc + 1 == |im.code|) || im.code[at.pc] == 0x0f ==>
              |s.stack| >= |f.ftype.results| ==>
                FlatStep(im, f, at, s) == Finish(s.stack[|s.stack| - |f.ftype.results|..], s.store)
  {
    hide FlatStep, Decode;
    ByteAt(im.m, im.code, at.pc);
    if im.code[at.pc] == 0x0b {
      EndIs(im, f, at, s);
    } else if im.code[at.pc] == 0x0f {
      ReturnIs(im, f, at, s);
    }
  }

  lemma EndIs(im: Image, f: Func, at: Pc, s: State)
    requires OpAt(im.m, im.code, at.pc, EndOp, 1)
    ensures FlatStep(im, f, at, s)
         == if at.pc + 1 == |im.code| then FinishAct(f, s) else Next(Pc(at.pc + 1, at.idx), s)
  {
    hide Decode, SimpleAct, CallAct, FinishAct;
  }

  lemma ReturnIs(im: Image, f: Func, at: Pc, s: State)
    requires OpAt(im.m, im.code, at.pc, Return, 1)
    ensures FlatStep(im, f, at, s) == FinishAct(f, s)
  {
    hide Decode, SimpleAct, CallAct, FinishAct;
  }

  lemma Invokes(im: Image, f: Func, at: Pc, s: State, g: nat, n: nat)
    requires at.pc < |im.code| && im.code[at.pc] == 0x10 && Unsigned(im.code, at.pc + 1, 32) == Some(Num(g, n))
    requires g < |im.m.funcs| && |im.m.funcs[g].ftype.params| <= |s.stack|
    ensures var low := |s.stack| - |im.m.funcs[g].ftype.params|;
            FlatStep(im, f, at, s)
            == Invoke(g, s.stack[low..], Pc(at.pc + 1 + n, at.idx), s.(stack := s.stack[..low]))
  {
    hide Decode, SimpleAct, Unsigned, FlatControl;
    WithIndex(im.m, im.code, at.pc, g, n);
  }

  // ----- Tests in the reference machine -----

  // The operand that an if, br_if or br_table of the reference machine tests is the low 32 bits of the
  // top cell, and which way it goes depends on that number alone.
  lemma RefTests(m: Module, f: Func, g: Cfg, s: State)
    requires s.stack != []
    ensures var c, low := s.stack[|s.stack| - 1].bits % 0x1_0000_0000, s.(stack := s.stack[..|s.stack| - 1]);
            match g.cur
            case If(ft, thn, rest) =>
              c == 0 ==> RefStep(m, f, g, s) == Next(g.(cur := rest), low)
            case Plain(BrIf(n), len, rest) =>
              RefStep(m, f, g, s)
              == if c == 0 then Next(g.(cur := rest), low) else RefStep(m, f, g.(cur := Plain(Br(n), len, rest)), low)
            case Plain(BrTable(ls, _), len, rest) =>
              ls != [] ==>
                RefStep(m, f, g, s)
                == RefStep(m, f, g.(cur := Plain(Br(ls[if c < |ls| then c else |ls| - 1]), len, rest)), low)
            case _ => true
  {
    hide SimpleAct, CallAct, Unwind;
  }

  // An arm is entered like a block.
  lemma RefArms(m: Module, f: Func, g: Cfg, s: State, ft: FuncType, thn: Body, els: Body, rest: Body)
    requires s.stack != []
    ensures var c, low := s.stack[|s.stack| - 1].bits % 0x1_0000_0000, s.(stack := s.stack[..|s.stack| - 1]);
            && (g.cur == If(ft, thn, rest) && c != 0 ==>
                  RefStep(m, f, g, s) == RefStep(m, f, g.(cur := Block(ft, thn, rest)), low))
            && (g.cur == IfElse(ft, thn, els, rest) ==>
                  RefStep(m, f, g, s) == RefStep(m, f, g.(cur := Block(ft, if c != 0 then thn else els, rest)), low))
  {
    hide SimpleAct, CallAct, BranchTo;
  }

  // ----- Decoding -----

  // Any other byte is no instruction of the model.
  lemma Refused(m: Module, code: seq<byte>, pos: nat)
    requires pos < |code| && !(0x28 <= code[pos] <= 0x42)
    requires code[pos] !in {0x00, 0x01, 0x02, 0x03, 0x04, 0x05, 0x0b, 0x0c, 0x0d, 0x0e, 0x0f, 0x10, 0x1a, 0x1b}
    requires code[pos] !in {0x20, 0x21, 0x22, 0x23, 0x24, 0x45, 0x6a, 0x6e, 0x7c, 0xa7, 0xad, 0xfc}
    ensures Decode(m, code, pos) == None
  {
    hide Unsigned, Signed, Labels, BlockType, Table, Reserved, Bulk, Accessing;
  }

  // The reserved byte of memory.size and memory.grow is zero, and so are those of memory.copy and
  // memory.fill; there is no other second opcode.
  lemma ReservedZero(m: Module, code: seq<byte>, pos: nat)
    requires pos + 1 < |code| && code[pos] in {0x3f, 0x40} && code[pos + 1] != 0x00
    ensures Decode(m, code, pos) == None
  {
    hide Unsigned, Signed, Labels, BlockType, Table, Bulk, Accessing, Reserved;
    OtherByte(code, pos + 1);
  }

  lemma OtherByte(code: seq<byte>, p: nat)
    requires p < |code| && code[p] != 0x00
    ensures Reserved(code, p) == None
  {
    Pow2Values();
  }

  lemma BulkZeros(m: Module, code: seq<byte>, pos: nat, sub: nat, n: nat)
    requires pos < |code| && code[pos] == 0xfc && Unsigned(code, pos + 1, 32) == Some(Num(sub, n))
    ensures sub !in {0x0a, 0x0b} ==> Decode(m, code, pos) == None
    ensures pos + 1 + n < |code| && code[pos + 1 + n] != 0x00 ==> Decode(m, code, pos) == None
    ensures sub == 0x0a && pos + 2 + n < |code| && code[pos + 2 + n] != 0x00 ==> Decode(m, code, pos) == None
  {
    hide Unsigned, Signed, Labels, BlockType, Table, Accessing, Reserved;
    if pos + 1 + n < |code| && code[pos + 1 + n] != 0x00 {
      OtherByte(code, pos + 1 + n);
    } else if pos + 2 + n < |code| && code[pos + 2 + n] != 0x00 {
      ZeroByte(code, pos + 1 + n);
      OtherByte(code, pos + 2 + n);
    }
  }

  // A br_table whose count and labels take one byte each: these labels, the last being the default.
  lemma TableAt(m: Module, code: seq<byte>, pos: nat, ls: seq<nat>)
    requires 0 < |ls| <= 128 && pos + 1 + |ls| < |code| && code[pos] == 0x0e && code[pos + 1] == |ls| - 1
    requires forall i :: 0 <= i < |ls| ==> ls[i] == code[pos + 2 + i] < 128
    ensures OpAt(m, code, pos, BrTable(ls, 0), |ls| + 2)
  {
    hide Unsigned, Signed, Labels, BlockType, Reserved, Bulk, Accessing, Index;
    OneByteIndex(code, pos + 1);
    LabelsAt(code, pos + 2, ls);
  }

  lemma OneByteIndex(code: seq<byte>, p: nat)
    requires p < |code| && code[p] < 128
    ensures Index(code, p) == Some(Num(code[p], 1))
  {
    Pow2Values();
  }

  lemma LaterLabel(code: seq<byte>, p: nat, ls: seq<nat>, k: nat)
    requires p + |ls| <= |code| && 0 < k < |ls| && forall i :: 0 <= i < |ls| ==> ls[i] == code[p + i] < 128
    ensures ls[1..][k - 1] == code[p + 1 + (k - 1)] < 128
  {
    assert ls[1..][k - 1] == ls[k] == code[p + k];
  }

  lemma {:induction false} LabelsAt(code: seq<byte>, p: nat, ls: seq<nat>)
    requires p + |ls| <= |code| && forall i :: 0 <= i < |ls| ==> ls[i] == code[p + i] < 128
    ensures Labels(code, p, |ls|) == Some((ls, p + |ls|))
    decreases |ls|
  {
    hide Unsigned, Index;
    if ls != [] {
      assert ls[0] == code[p + 0];
      OneByteIndex(code, p);
      var rest := ls[1..];
      forall i | 0 <= i < |rest| ensures rest[i] == code[p + 1 + i] < 128 {
        LaterLabel(code, p, ls, i + 1);
      }
      LabelsAt(code, p + 1, rest);
      assert [ls[0]] + ls[1..] == ls;
    }
  }
}
