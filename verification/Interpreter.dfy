/**
 The direct-threaded interpreter as the program has it: a program counter, a stack pointer into
 an array of exactly the validated size, locals inside the caller's array, and the index of the
 next jump-table slot, all updated in place.
 */
module Interpreter {
  import opened Basics
  import opened Leb128
  import opened LittleEndian
  import opened Wasm
  import opened Acts
  import opened Decoder
  import opened JumpTable
  import opened InPlace

  // The memory and the globals of a module instance, and what the allocator will answer.
  // ----- Ranges of bytes, one byte at a time -----

  lemma CopyNothing(mem: seq<byte>, dst: nat, src: nat)
    requires dst <= |mem| && src <= |mem|
    ensures CopyAt(mem, dst, src, 0) == mem
  {
  }

  // Upwards into lower addresses: the next byte to be read has not been written.
  lemma CopyUp(mem: seq<byte>, dst: nat, src: nat, k: nat)
    requires dst <= src && src + k < |mem|
    ensures CopyAt(mem, dst, src, k)[src + k] == mem[src + k]
    ensures CopyAt(mem, dst, src, k + 1) == CopyAt(mem, dst, src, k)[dst + k := mem[src + k]]
  {
  }

  // Downwards into higher ones likewise.
  lemma CopyDown(mem: seq<byte>, dst: nat, src: nat, n: nat)
    requires 0 < src < dst && dst + n <= |mem|
    ensures CopyAt(mem, dst, src, n)[src - 1] == mem[src - 1]
    ensures CopyAt(mem, dst - 1, src - 1, n + 1) == CopyAt(mem, dst, src, n)[dst - 1 := mem[src - 1]]
  {
    assert mem[src - 1..src + n] == [mem[src - 1]] + mem[src..src + n];
  }

  lemma FillNothing(mem: seq<byte>, a: nat, b: byte)
    requires a <= |mem|
    ensures FillAt(mem, a, 0, b) == mem
  {
  }

  lemma FillNext(mem: seq<byte>, a: nat, k: nat, b: byte)
    requires a + k < |mem|
    ensures FillAt(mem, a, k + 1, b) == FillAt(mem, a, k, b)[a + k := b]
  {
  }

  class Instance {
    const m: Module
    var mem: seq<byte>
    var globals: seq<Value>
    var heap: seq<bool>

    constructor (m: Module, mem: seq<byte>, globals: seq<Value>, heap: seq<bool>)
      ensures this.m == m && this.mem == mem && this.globals == globals && this.heap == heap
    {
      this.m, this.mem, this.globals, this.heap := m, mem, globals, heap;
    }

    ghost function Store(): Store
      reads this
    {
      Wasm.Store(mem, globals, heap)
    }

    // A number of 1, 2, 4 or 8 bytes: one load of a little-endian machine where the address is aligned,
    // put together byte by byte where it is not. Where the memory lies is not known here.
    method Read(a: nat, width: nat) returns (v: nat)
      requires a + width <= |mem| && width in {1, 2, 4, 8}
      ensures v == ReadAt(mem, a, width)
    {
      if * {
        return ReadAt(mem, a, width);
      }
      ReadBytes(mem, a);
      v := mem[a];
      if width >= 2 {
        v := v + 0x100 * (mem[a + 1] as int);
      }
      if width >= 4 {
        v := v + 0x1_0000 * (mem[a + 2] as int) + 0x100_0000 * (mem[a + 3] as int);
      }
      if width == 8 {
        ReadBytes(mem, a + 4);
        v := v + 0x1_0000_0000 * (mem[a + 4] as int) + 0x100_0000_0000 * (mem[a + 5] as int)
             + 0x1_0000_0000_0000 * (mem[a + 6] as int) + 0x100_0000_0000_0000 * (mem[a + 7] as int);
      }
    }

    // The low byte is written and shifted out, as often as the type has bytes. One store would do the
    // same; the source's test takes the loop unless the low half of the address is below the size.
    method Write(a: nat, width: nat, v: nat)
      requires a + width <= |mem|
      modifies this`mem
      ensures mem == WriteAt(old(mem), a, width, v)
    {
      var val := v;
      var k := 0;
      WriteNothing(mem, a, v);
      while k < width
        invariant k <= width && mem == WriteAt(old(mem), a, k, v) && val == Shifted(v, k)
      {
        WriteNext(old(mem), a, k, v);
        mem := mem[a + k := val % 0x100];
        val := val / 0x100;
        k := k + 1;
      }
    }

    // memmove: from the end that keeps what is still to be read.
    method MoveRange(dst: nat, src: nat, n: nat)
      requires dst + n <= |mem| && src + n <= |mem|
      modifies this`mem
      ensures mem == CopyAt(old(mem), dst, src, n)
    {
      hide CopyAt;
      CopyNothing(mem, dst, src);
      if dst <= src {
        var k := 0;
        while k < n
          invariant k <= n && mem == CopyAt(old(mem), dst, src, k)
        {
          CopyUp(old(mem), dst, src, k);
          mem := mem[dst + k := mem[src + k]];
          k := k + 1;
        }
      } else {
        var k := n;
        CopyNothing(mem, dst + n, src + n);
        while k > 0
          invariant 0 <= k <= n && mem == CopyAt(old(mem), dst + k, src + k, n - k)
        {
          CopyDown(old(mem), dst + k, src + k, n - k);
          k := k - 1;
          mem := mem[dst + k := mem[src + k]];
        }
      }
    }

    // memset
    method SetRange(a: nat, n: nat, b: byte)
      requires a + n <= |mem|
      modifies this`mem
      ensures mem == FillAt(old(mem), a, n, b)
    {
      hide FillAt;
      FillNothing(mem, a, b);
      var k := 0;
      while k < n
        invariant k <= n && mem == FillAt(old(mem), a, k, b)
      {
        FillNext(old(mem), a, k, b);
        mem := mem[a + k := b];
        k := k + 1;
      }
    }

    // Cutting down and keeping the size always succeed; growth does if the allocator agrees.
    method ResizeMemory(size: nat) returns (ok: bool)
      modifies this`mem, this`heap
      ensures (ok, Store()) == Grow(old(Store()), size)
    {
      if size <= |mem| {
        mem := mem[..size];
        return true;
      }
      if heap != [] {
        var agreed := heap[0];
        heap := heap[1..];
        if !agreed { return false; }
      }
      mem := mem + seq(size - |mem|, _ => 0);
      return true;
    }
  }

  // The cells after the first k of n have moved from src down to dst.
  function Moved(was: seq<Value>, dst: nat, src: nat, k: nat): (r: seq<Value>)
    requires dst <= src && src + k <= |was|
    ensures |r| == |was|
  {
    was[..dst] + was[src..src + k] + was[dst + k..]
  }

  // Moves n cells down to dst; the two ranges may overlap.
  method MoveCells(a: array<Value>, dst: nat, src: nat, n: nat)
    requires dst <= src && src + n <= a.Length
    modifies a
    ensures a[..] == Moved(old(a[..]), dst, src, n)
  {
    var k := 0;
    assert a[..] == Moved(a[..], dst, src, 0);
    while k < n
      invariant k <= n && a[..] == Moved(old(a[..]), dst, src, k)
    {
      MovedStep(old(a[..]), dst, src, k);
      assert a[src + k] == a[..][src + k];
      a[dst + k] := a[src + k];
      k := k + 1;
    }
  }

  lemma MovedStep(was: seq<Value>, dst: nat, src: nat, k: nat)
    requires dst <= src && src + k < |was|
    ensures Moved(was, dst, src, k)[src + k] == was[src + k]
    ensures Moved(was, dst, src, k + 1) == Moved(was, dst, src, k)[dst + k := was[src + k]]
  {
  }

  datatype Signal = Went | Left | Faulted

  // What an activation of a function keeps in registers.
  class Activation {
    const inst: Instance
    const f: Func
    const jt: seq<Entry>
    const local: array<Value>
    const base: nat
    const stack: array<Value>
    var pc: nat
    var sp: nat
    var idx: nat

    constructor (inst: Instance, f: Func, jt: seq<Entry>, local: array<Value>, base: nat, stack: array<Value>)
      ensures this.inst == inst && this.f == f && this.jt == jt && this.local == local && this.base == base
      ensures this.stack == stack
      ensures pc == 0 && sp == 0 && idx == 0
    {
      this.inst, this.f, this.jt, this.local, this.base, this.stack := inst, f, jt, local, base, stack;
      pc, sp, idx := 0, 0, 0;
    }

    ghost predicate Valid()
      reads this
    {
      local != stack && base + |f.Locals()| <= local.Length && sp <= stack.Length
    }

    ghost function St(): State
      requires Valid()
      reads this, stack, local, inst
    {
      State(stack[..sp], local[base..base + |f.Locals()|], inst.Store())
    }

    ghost function Im(): Image {
      Image(inst.m, f.code, jt)
    }

    ghost function Where(): Pc
      reads this
    {
      Pc(pc, idx)
    }

    // ----- Operands -----

    method Pop() returns (v: Value)
      requires Valid() && sp > 0
      modifies this`sp
      ensures Valid() && v == old(stack[sp - 1]) && St() == Drop1(old(St()), 1)
      ensures sp == old(sp) - 1
    {
      sp := sp - 1;
      v := stack[sp];
    }

    method Push(v: Value)
      requires Valid() && sp < stack.Length
      modifies this`sp, stack
      ensures Valid() && St() == Wasm.Push(old(St()), [v]) && sp == old(sp) + 1
      ensures local[..] == old(local[..])
    {
      stack[sp] := v;
      sp := sp + 1;
    }

    // Replaces the top operand.
    method Replace(v: Value)
      requires Valid() && sp > 0
      modifies stack
      ensures Valid() && St() == Wasm.Push(Drop1(old(St()), 1), [v])
      ensures local[..] == old(local[..])
    {
      stack[sp - 1] := v;
      assert stack[..sp] == old(stack[..sp - 1]) + [v];
    }

    // Gives up the top n operands, which stay where they are.
    method Lend(n: nat)
      requires Valid() && n <= sp
      modifies this`sp
      ensures Valid() && St() == Drop1(old(St()), n) && sp + n == old(sp)
      ensures stack[sp..sp + n] == TopN(old(St()), n)
    {
      sp := sp - n;
    }

    // Takes n operands found above the others.
    method TakeOver(n: nat)
      requires Valid() && sp + n <= stack.Length
      modifies this`sp
      ensures Valid() && St() == Wasm.Push(old(St()), old(stack[sp..sp + n]))
    {
      sp := sp + n;
      assert stack[..sp] == old(stack[..sp]) + old(stack[sp..sp + n]);
    }

    // ----- Simple instructions -----

    // The step that the instruction at pc stands for, if it is a simple one.
    ghost function Act(op: Op, len: nat): Act<Pc>
      requires Valid() && IsSimple(op)
      reads this, stack, local, inst
    {
      SimpleAct(inst.m, op, St(), Pc(pc + len, idx))
    }

    // That step is defined and stays inside the stack.
    ghost predicate Ready(op: Op, len: nat)
      reads this, stack, local, inst
    {
      && Valid() && IsSimple(op) && OpAt(inst.m, f.code, pc, op, len) && !Act(op, len).Undefined?
      && (Act(op, len).Next? ==> |Act(op, len).s.stack| <= stack.Length)
    }

    // It has been done.
    ghost predicate Did(a: Act<Pc>, r: Signal)
      reads this, stack, local, inst
    {
      if a.Next? then r.Went? && Valid() && Where() == a.at && St() == a.s else a.Fault? && r.Faulted?
    }

    // Constants.
    method OpConst(ghost op: Op, ghost len: nat, wide: bool) returns (r: Signal)
      requires Ready(op, len) && if wide then op.I64Const? else op.I32Const?
      modifies this`pc, this`sp, stack
      ensures Did(old(Act(op, len)), r) && local[..] == old(local[..])
    {
      hide Signed, SimpleAct, Decode, Int32, Int64;
      ConstBytes(inst.m, f.code, pc, op, len);
      ConstAct(inst.m, op, St(), Pc(pc + len, idx));
      pc := pc + 1;
      if wide {
        var v, n := UncheckedVi64(f.code, pc);
        pc := pc + n;
        Push(Int64(v));
      } else {
        var v, n := UncheckedVi32(f.code, pc);
        pc := pc + n;
        Push(Int32(v));
      }
      return Went;
    }

    // local.get, local.set, local.tee
    method OpLocal(opcode: byte, ghost op: Op, ghost len: nat) returns (r: Signal)
      requires Ready(op, len) && opcode == f.code[pc] && 0x20 <= opcode <= 0x22
      modifies this`pc, this`sp, stack, local
      ensures Did(old(Act(op, len)), r) && local[..base] == old(local[..base])
    {
      hide Unsigned, SimpleAct, Decode;
      IndexBytes(inst.m, f.code, pc, op, len);
      ghost var at := Pc(pc + len, idx);
      if op.LocalGet? { GetAct(inst.m, op.idx, St(), at); }
      if op.LocalSet? { SetAct(inst.m, op.idx, St(), at); }
      if op.LocalTee? { TeeAct(inst.m, op.idx, St(), at); }
      pc := pc + 1;
      var x, n := UncheckedVu32(f.code, pc);
      pc := pc + n;
      if opcode == 0x20 {
        Push(local[base + x]);
      } else if opcode == 0x21 {
        var v := Pop();
        SetLocal(x, v);
      } else {
        SetLocal(x, stack[sp - 1]);
      }
      return Went;
    }

    method SetLocal(x: nat, v: Value)
      requires Valid() && x < |f.Locals()|
      modifies local
      ensures Valid() && St() == old(St()).(locals := old(St()).locals[x := v]) && local[..base] == old(local[..base])
    {
      local[base + x] := v;
    }

    // global.get, global.set
    method OpGlobal(opcode: byte, ghost op: Op, ghost len: nat) returns (r: Signal)
      requires Ready(op, len) && opcode == f.code[pc] && 0x23 <= opcode <= 0x24
      modifies this`pc, this`sp, stack, inst`globals
      ensures Did(old(Act(op, len)), r) && local[..] == old(local[..])
    {
      hide Unsigned, SimpleAct, Decode;
      IndexBytes(inst.m, f.code, pc, op, len);
      ghost var at := Pc(pc + len, idx);
      if op.GlobalGet? { GlobalGetAct(inst.m, op.idx, St(), at); }
      if op.GlobalSet? { GlobalSetAct(inst.m, op.idx, St(), at); }
      pc := pc + 1;
      var x, n := UncheckedVu32(f.code, pc);
      pc := pc + n;
      if opcode == 0x23 {
        Push(inst.globals[x]);
      } else {
        var v := Pop();
        inst.globals := inst.globals[x := v];
      }
      return Went;
    }

    // The loads: the alignment is one byte, skipped.
    method OpLoad(opcode: byte, ghost op: Op, ghost len: nat) returns (r: Signal)
      requires Ready(op, len) && opcode == f.code[pc] && 0x28 <= opcode <= 0x35
      modifies this`pc, this`sp, stack
      ensures Did(old(Act(op, len)), r) && local[..] == old(local[..])
    {
      hide Unsigned, ReadAt, Widened, U32, Decode, SimpleAct;
      AccessBytes(inst.m, f.code, pc, op, len);
      var acc := AccessOf(opcode);
      LoadAct(inst.m, acc, op.align, op.offset, St(), Pc(pc + len, idx));
      pc := pc + 1;
      pc := pc + 1;
      var offset, n := UncheckedVu32(f.code, pc);
      pc := pc + n;
      var a := Pop();
      var at := U32(a) + offset;
      if at + acc.width > |inst.mem| { return Faulted; }
      var raw := inst.Read(at, acc.width);
      Push(Widened(acc, raw));
      return Went;
    }

    method OpStore(opcode: byte, ghost op: Op, ghost len: nat) returns (r: Signal)
      requires Ready(op, len) && opcode == f.code[pc] && 0x36 <= opcode <= 0x3e
      modifies this`pc, this`sp, inst`mem
      ensures Did(old(Act(op, len)), r) && local[..] == old(local[..])
    {
      hide Unsigned, WriteAt, U32, Decode, SimpleAct;
      AccessBytes(inst.m, f.code, pc, op, len);
      var acc := AccessOf(opcode);
      SaveAct(inst.m, acc, op.align, op.offset, St(), Pc(pc + len, idx));
      pc := pc + 1;
      pc := pc + 1;
      var offset, n := UncheckedVu32(f.code, pc);
      pc := pc + n;
      var v := Pop();
      var a := Pop();
      var at := U32(a) + offset;
      if at + acc.width > |inst.mem| { return Faulted; }
      inst.Write(at, acc.width, v.bits);
      return Went;
    }

    method OpMemorySize(ghost op: Op, ghost len: nat) returns (r: Signal)
      requires Ready(op, len) && op.MemorySize?
      modifies this`pc, this`sp, stack
      ensures Did(old(Act(op, len)), r) && local[..] == old(local[..])
    {
      hide Decode, SimpleAct, Int32;
      ReservedBytes(inst.m, f.code, pc, op, len);
      SizeAct(inst.m, St(), Pc(pc + len, idx));
      pc := pc + 1;
      pc := pc + 1;
      Push(Int32(|inst.mem| / PAGE));
      return Went;
    }

    // Growth beyond the limit, or that the allocator refuses, pushes -1.
    method OpMemoryGrow(ghost op: Op, ghost len: nat) returns (r: Signal)
      requires Ready(op, len) && op.MemoryGrow?
      modifies this`pc, this`sp, stack, inst`mem, inst`heap
      ensures Did(old(Act(op, len)), r) && local[..] == old(local[..])
    {
      hide Decode, SimpleAct, Int32, U32, Grow;
      ReservedBytes(inst.m, f.code, pc, op, len);
      GrowAct(inst.m, St(), Pc(pc + len, idx));
      pc := pc + 1;
      pc := pc + 1;
      var pages := |inst.mem| / PAGE;
      var more := Pop();
      if pages + U32(more) <= inst.m.memMax.value {
        var ok := inst.ResizeMemory((pages + U32(more)) * PAGE);
        if ok {
          Push(Int32(pages));
          return Went;
        }
      }
      Push(Int32(-1));
      return Went;
    }

    // memory.copy and memory.fill: a second opcode, then the reserved bytes, skipped.
    method OpBulk(ghost op: Op, ghost len: nat) returns (r: Signal)
      requires Ready(op, len) && f.code[pc] == 0xfc
      modifies this`pc, this`sp, inst`mem
      ensures Did(old(Act(op, len)), r) && local[..] == old(local[..])
    {
      hide Unsigned, U32, Decode, SimpleAct, CopyAt, FillAt;
      BulkBytes(inst.m, f.code, pc, op, len);
      ghost var next := Pc(pc + len, idx);
      if op.MemoryCopy? { CopyAct(inst.m, St(), next); } else { FillAct(inst.m, St(), next); }
      pc := pc + 1;
      var sub, n := UncheckedVu32(f.code, pc);
      pc := pc + n;
      if sub == 0x0a {
        pc := pc + 2;
        r := MoveBytes();
      } else {
        pc := pc + 1;
        r := SetBytes();
      }
    }

    method MoveBytes() returns (r: Signal)
      requires Valid() && sp >= 3
      modifies this`sp, inst`mem
      ensures var s := old(St());
              var dst, src, n := U32(FromTop(s, 2)), U32(FromTop(s, 1)), U32(FromTop(s, 0));
              if src + n > |s.store.mem| || dst + n > |s.store.mem| then r.Faulted?
              else
                && r.Went? && Valid()
                && St() == Drop1(Drop1(Drop1(s, 1), 1), 1).(store := s.store.(mem := CopyAt(s.store.mem, dst, src, n)))
    {
      hide U32, CopyAt;
      var size := Pop();
      var src := Pop();
      var dst := Pop();
      if U32(src) + U32(size) > |inst.mem| || U32(dst) + U32(size) > |inst.mem| { return Faulted; }
      inst.MoveRange(U32(dst), U32(src), U32(size));
      return Went;
    }

    method SetBytes() returns (r: Signal)
      requires Valid() && sp >= 3
      modifies this`sp, inst`mem
      ensures var s := old(St());
              var dst, n := U32(FromTop(s, 2)), U32(FromTop(s, 0));
              if dst + n > |s.store.mem| then r.Faulted?
              else
                var mem := FillAt(s.store.mem, dst, n, FromTop(s, 1).bits % 0x100);
                r.Went? && Valid() && St() == Drop1(Drop1(Drop1(s, 1), 1), 1).(store := s.store.(mem := mem))
    {
      hide U32, FillAt;
      var size := Pop();
      var val := Pop();
      var dst := Pop();
      if U32(dst) + U32(size) > |inst.mem| { return Faulted; }
      inst.SetRange(U32(dst), U32(size), val.bits % 0x100);
      return Went;
    }

    // Tests and conversions work on the top cell.
    method OpUnary(opcode: byte, ghost op: Op, ghost len: nat) returns (r: Signal)
      requires Ready(op, len) && opcode == f.code[pc] && opcode in {0x45, 0xa7, 0xad}
      modifies this`pc, stack
      ensures Did(old(Act(op, len)), r) && local[..] == old(local[..])
    {
      hide Int32, Int64, U32, SimpleAct, Decode;
      OneByte(inst.m, f.code, pc, op, len);
      UnaryAct(inst.m, op, St(), Pc(pc + len, idx));
      pc := pc + 1;
      var a := stack[sp - 1];
      if opcode == 0x45 {
        Replace(Int32(if U32(a) == 0 then 1 else 0));
      } else if opcode == 0xa7 {
        Replace(Int32(a.bits));
      } else {
        Replace(Int64(U32(a)));
      }
      return Went;
    }

    method OpBinary(opcode: byte, ghost op: Op, ghost len: nat) returns (r: Signal)
      requires Ready(op, len) && opcode == f.code[pc] && opcode in {0x6a, 0x6e, 0x7c}
      modifies this`pc, this`sp, stack
      ensures Did(old(Act(op, len)), r) && local[..] == old(local[..])
    {
      hide Int32, Int64, U32, SimpleAct, Decode;
      OneByte(inst.m, f.code, pc, op, len);
      BinaryAct(inst.m, op, St(), Pc(pc + len, idx));
      pc := pc + 1;
      var v2 := Pop();
      var v1 := Pop();
      if opcode == 0x6a {
        Push(Int32(U32(v1) + U32(v2)));
      } else if opcode == 0x7c {
        Push(Int64(v1.bits + v2.bits));
      } else {
        if U32(v2) == 0 { return Faulted; }
        Push(Int32(U32(v1) / U32(v2)));
      }
      return Went;
    }

    // nop and drop
    method OpDrop(opcode: byte, ghost op: Op, ghost len: nat) returns (r: Signal)
      requires Ready(op, len) && opcode == f.code[pc] && opcode in {0x01, 0x1a}
      modifies this`pc, this`sp
      ensures Did(old(Act(op, len)), r)
    {
      hide SimpleAct, Decode;
      OneByte(inst.m, f.code, pc, op, len);
      ghost var at := Pc(pc + len, idx);
      if op.Drop? { DropAct(inst.m, St(), at); } else { NopAct(inst.m, St(), at); }
      pc := pc + 1;
      if opcode == 0x1a {
        var v := Pop();
      }
      return Went;
    }

    method OpSelect(ghost op: Op, ghost len: nat) returns (r: Signal)
      requires Ready(op, len) && op.Select? && len == 1
      modifies this`pc, this`sp, stack
      ensures Did(old(Act(op, len)), r) && local[..] == old(local[..])
    {
      hide U32, Decode, SimpleAct;
      SelectAct(inst.m, St(), Pc(pc + 1, idx));
      pc := pc + 1;
      var cond := Pop();
      var falseVal := Pop();
      var trueVal := Pop();
      if U32(cond) != 0 {
        Push(trueVal);
      } else {
        Push(falseVal);
      }
      return Went;
    }

    // ----- Control -----

    // The step of the flat machine at pc.
    ghost function Flat(): Act<Pc>
      requires Valid()
      reads this, stack, local, inst
    {
      FlatStep(Im(), f, Where(), St())
    }

    // It is defined, stays inside the stack, and is not a call.
    ghost predicate Steady()
      reads this, stack, local, inst
    {
      Valid() && !Flat().Undefined? && !Flat().Invoke? && (Flat().Next? ==> |Flat().s.stack| <= stack.Length)
    }

    // It has been done; leaving the function changes nothing but pc.
    ghost predicate Stepped(a: Act<Pc>, s: State, r: Signal)
      reads this, stack, local, inst
    {
      if a.Next? then r.Went? && Valid() && Where() == a.at && St() == a.s
      else if a.Finish? then r.Left? && Valid() && St() == s
      else a.Fault? && r.Faulted?
    }

    // The top `arity` operands move down by `offset` cells.
    method MoveDown(offset: nat, arity: nat)
      requires Valid() && offset > 0 && offset + arity <= sp
      modifies this`sp, stack
      ensures Valid() && sp == old(sp) - offset
      ensures stack[..sp] == old(stack[..sp - offset - arity]) + old(stack[sp - arity..sp])
      ensures local[..] == old(local[..])
    {
      MoveCells(stack, sp - offset - arity, sp - arity, arity);
      sp := sp - offset;
      assert stack[..sp] == stack[..][..sp];
    }

    // Follows the slot at idx, which belongs to this position.
    method TakeBranch()
      requires Valid() && idx < |jt| && jt[idx].pc == pc && pc + jt[idx].jump >= 0 && Shuffle(St(), jt[idx]).Some?
      modifies this`pc, this`idx, this`sp, stack
      ensures Valid() && old(Shuffle(St(), jt[idx])) == Some(St())
      ensures old(Follow(Im(), idx, pc)) == FGo(pc, idx) && local[..] == old(local[..])
    {
      var tbl := jt[idx];
      idx := tbl.next;
      pc := pc + tbl.jump;
      if tbl.offset != 0 {
        ghost var s := old(St()).stack;
        assert s[..|s| - tbl.offset - tbl.arity] == old(stack[..sp - tbl.offset - tbl.arity]);
        assert s[|s| - tbl.arity..] == old(stack[sp - tbl.arity..sp]);
        MoveDown(tbl.offset, tbl.arity);
        assert St().locals == local[..][base..base + |f.Locals()|];
      }
    }

    method OpBr(ghost i: Instr) returns (r: Signal)
      requires Steady() && Decode(inst.m, f.code, pc) == Some(i) && i.op.Br?
      modifies this`pc, this`idx, this`sp, stack
      ensures Stepped(old(Flat()), old(St()), r) && local[..] == old(local[..])
    {
      hide Decode, Shuffle, FlatStep;
      BrFlat(Im(), f, Where(), St(), i);
      pc := pc + 1;
      TakeBranch();
      return Went;
    }

    method OpBrIf(ghost i: Instr) returns (r: Signal)
      requires Steady() && Decode(inst.m, f.code, pc) == Some(i) && i.op.BrIf? && i.len == 2
      modifies this`pc, this`idx, this`sp, stack
      ensures Stepped(old(Flat()), old(St()), r) && local[..] == old(local[..])
    {
      hide Decode, Shuffle, U32, FlatStep, Bump;
      BrIfFlat(Im(), f, Where(), St(), i);
      pc := pc + 1;
      var c := Pop();
      if U32(c) != 0 {
        TakeBranch();
      } else {
        pc := pc + 1;
        idx := Bump(idx, 1);
      }
      return Went;
    }

    method OpBrTable(ghost i: Instr) returns (r: Signal)
      requires Steady() && Decode(inst.m, f.code, pc) == Some(i) && i.op.BrTable?
      requires Unsigned(f.code, pc + 1, 32).Some?
      requires var n := Unsigned(f.code, pc + 1, 32).value;
               i.len == 1 + n.len + n.value + 1 && |i.op.depths| == n.value + 1
      modifies this`pc, this`idx, this`sp, stack
      ensures Stepped(old(Flat()), old(St()), r) && local[..] == old(local[..])
    {
      hide Decode, Shuffle, U32, Unsigned, Bump, FlatStep;
      NumbersFit(f.code, pc + 1, 32);
      TableFlat(Im(), f, Where(), St(), i);
      pc := pc + 1;
      var v := Pop();
      var pick := U32(v);
      var tableLen, n := UncheckedVu32(f.code, pc);
      pc := pc + n;
      pc := pc + tableLen + 1;
      if pick > tableLen {
        pick := tableLen;
      }
      idx := Bump(idx, pick);
      TakeBranch();
      return Went;
    }

    method OpIf(ghost i: Instr) returns (r: Signal)
      requires Steady() && Decode(inst.m, f.code, pc) == Some(i) && i.op.IfOp? && i.len == 2
      modifies this`pc, this`idx, this`sp
      ensures Stepped(old(Flat()), old(St()), r)
    {
      hide Decode, U32, FlatStep, Bump;
      IfFlat(Im(), f, Where(), St(), i);
      pc := pc + 1;
      var c := Pop();
      if U32(c) != 0 {
        pc := pc + 1;
        idx := Bump(idx, 1);
      } else {
        var tbl := jt[idx];
        idx := tbl.next;
        pc := pc + tbl.jump;
      }
      return Went;
    }

    method OpElse(ghost i: Instr) returns (r: Signal)
      requires Steady() && Decode(inst.m, f.code, pc) == Some(i) && i.op.ElseOp?
      modifies this`pc, this`idx
      ensures Stepped(old(Flat()), old(St()), r)
    {
      hide SimpleAct, CallAct, U32, Bump, Decode;
      pc := pc + 1;
      var tbl := jt[idx];
      idx := tbl.next;
      pc := pc + tbl.jump;
      return Went;
    }

    // block, loop, end, return and unreachable
    method OpPlain(opcode: byte, ghost i: Instr) returns (r: Signal)
      requires Steady() && Decode(inst.m, f.code, pc) == Some(i) && opcode == f.code[pc]
      requires if opcode == 0x02 then i.op.BlockOp? && i.len == 2
               else if opcode == 0x03 then i.op.LoopOp? && i.len == 2
               else if opcode == 0x0b then i.op.EndOp? && i.len == 1
               else if opcode == 0x0f then i.op.Return?
               else opcode == 0x00 && i.op.Unreachable?
      modifies this`pc
      ensures Stepped(old(Flat()), old(St()), r)
    {
      hide SimpleAct, CallAct, U32, Bump, Decode;
      pc := pc + 1;
      if opcode == 0x00 { return Faulted; }
      if opcode == 0x0f { return Left; }
      if opcode == 0x0b && pc == |f.code| { return Left; }
      if opcode != 0x0b {
        pc := pc + 1;
      }
      return Went;
    }

    // The first half of a call: the callee, and its arguments given up where they lie.
    method BeginCall(ghost i: Instr) returns (fi: nat)
      requires Valid() && Decode(inst.m, f.code, pc) == Some(i) && i.op.Call? && f.code[pc] == 0x10
      requires Flat().Invoke?
      modifies this`pc, this`sp
      ensures Valid() && fi < |inst.m.funcs| && Where() == old(Flat()).at && St() == old(Flat()).s
      ensures fi == old(Flat()).callee
      ensures sp + |inst.m.funcs[fi].ftype.params| <= stack.Length
      ensures stack[sp..sp + |inst.m.funcs[fi].ftype.params|] == old(Flat()).args
    {
      hide Decode, Unsigned, FlatStep;
      CalledBy(Im(), f, Where(), St(), i);
      IndexBytes(inst.m, f.code, pc, i.op, i.len);
      pc := pc + 1;
      var x, n := UncheckedVu32(f.code, pc);
      pc := pc + n;
      fi := x;
      Lend(|inst.m.funcs[fi].ftype.params|);
    }

    // One turn of the loop, for everything but a call.
    method Step() returns (r: Signal)
      requires Steady()
      modifies this`pc, this`idx, this`sp, stack, local, inst
      ensures Stepped(old(Flat()), old(St()), r) && local[..base] == old(local[..base])
    {
      hide Decode, FlatControl, SimpleAct, Shuffle;
      ghost var i := Decode(inst.m, f.code, pc).value;
      ByteOp(inst.m, f.code, pc, i);
      var opcode := f.code[pc];
      if opcode in {0x00, 0x02, 0x03, 0x0b, 0x0f} {
        r := OpPlain(opcode, i);
      } else if opcode == 0x04 {
        r := OpIf(i);
      } else if opcode == 0x05 {
        r := OpElse(i);
      } else if opcode == 0x0c {
        r := OpBr(i);
      } else if opcode == 0x0d {
        r := OpBrIf(i);
      } else if opcode == 0x0e {
        r := OpBrTable(i);
      } else {
        r := StepSimple(opcode, i);
      }
    }

    method StepSimple(opcode: byte, ghost i: Instr) returns (r: Signal)
      requires Steady() && Decode(inst.m, f.code, pc) == Some(i) && opcode == f.code[pc] && IsSimple(i.op)
      modifies this`pc, this`sp, stack, local, inst
      ensures Stepped(old(Flat()), old(St()), r) && local[..base] == old(local[..base])
    {
      hide Decode, FlatControl, SimpleAct;
      ByteOp(inst.m, f.code, pc, i);
      SimpleGoesOn(inst.m, i.op, St(), Pc(pc + i.len, idx));
      if 0x20 <= opcode <= 0x22 {
        r := OpLocal(opcode, i.op, i.len);
      } else if 0x23 <= opcode <= 0x24 {
        r := OpGlobal(opcode, i.op, i.len);
      } else if 0x28 <= opcode <= 0x35 {
        r := OpLoad(opcode, i.op, i.len);
      } else if 0x36 <= opcode <= 0x3e {
        r := OpStore(opcode, i.op, i.len);
      } else if opcode == 0xfc {
        r := OpBulk(i.op, i.len);
      } else if opcode == 0x3f {
        r := OpMemorySize(i.op, i.len);
      } else if opcode == 0x40 {
        r := OpMemoryGrow(i.op, i.len);
      } else if 0x41 <= opcode <= 0x42 {
        r := OpConst(i.op, i.len, opcode == 0x42);
      } else if opcode in {0x45, 0xa7, 0xad} {
        r := OpUnary(opcode, i.op, i.len);
      } else if opcode in {0x6a, 0x6e, 0x7c} {
        r := OpBinary(opcode, i.op, i.len);
      } else if opcode == 0x1b {
        r := OpSelect(i.op, i.len);
      } else {
        r := OpDrop(opcode, i.op, i.len);
      }
    }
  }

  // The slot at j, followed.
  ghost predicate Follows(im: Image, j: nat, at: nat, s: State, a: Act<Pc>) {
    && j < |im.jt| && im.jt[j].pc == at && at + im.jt[j].jump >= 0 && Shuffle(s, im.jt[j]).Some?
    && a == Next(Pc(at + im.jt[j].jump, im.jt[j].next), Shuffle(s, im.jt[j]).value)
  }

  // Defined steps at branches follow a slot.
  lemma BrFlat(im: Image, f: Func, at: Pc, s: State, i: Instr)
    requires Decode(im.m, im.code, at.pc) == Some(i) && i.op.Br? && !FlatStep(im, f, at, s).Undefined?
    ensures Follows(im, at.idx, at.pc + 1, s, FlatStep(im, f, at, s))
  {
    hide SimpleAct, CallAct, Decode, Shuffle;
  }

  lemma BrIfFlat(im: Image, f: Func, at: Pc, s: State, i: Instr)
    requires Decode(im.m, im.code, at.pc) == Some(i) && i.op.BrIf? && !FlatStep(im, f, at, s).Undefined?
    ensures s.stack != []
    ensures if U32(s.stack[|s.stack| - 1]) != 0 then Follows(im, at.idx, at.pc + 1, Drop1(s, 1), FlatStep(im, f, at, s))
            else FlatStep(im, f, at, s) == Next(Pc(at.pc + i.len, Bump(at.idx, 1)), Drop1(s, 1))
  {
    hide SimpleAct, CallAct, Decode, Shuffle, U32, Bump;
  }

  lemma TableFlat(im: Image, f: Func, at: Pc, s: State, i: Instr)
    requires Decode(im.m, im.code, at.pc) == Some(i) && i.op.BrTable? && i.op.depths != []
    requires !FlatStep(im, f, at, s).Undefined?
    ensures s.stack != []
    ensures var slot := Bump(at.idx, Clamp(U32(s.stack[|s.stack| - 1]), |i.op.depths|));
            Follows(im, slot, at.pc + i.len, Drop1(s, 1), FlatStep(im, f, at, s))
  {
    hide SimpleAct, CallAct, Decode, Shuffle, U32, Bump;
  }

  // A defined step at an `if` or an `else` follows a slot and leaves the operands alone.
  lemma IfFlat(im: Image, f: Func, at: Pc, s: State, i: Instr)
    requires Decode(im.m, im.code, at.pc) == Some(i) && i.op.IfOp? && !FlatStep(im, f, at, s).Undefined?
    ensures s.stack != []
    ensures if U32(s.stack[|s.stack| - 1]) != 0
            then FlatStep(im, f, at, s) == Next(Pc(at.pc + i.len, Bump(at.idx, 1)), Drop1(s, 1))
            else
              && at.idx < |im.jt| && at.pc + 1 + im.jt[at.idx].jump >= 0
              && FlatStep(im, f, at, s) == Next(Pc(at.pc + 1 + im.jt[at.idx].jump, im.jt[at.idx].next), Drop1(s, 1))
  {
    hide SimpleAct, CallAct, Decode, U32, Bump;
  }

  lemma CalledBy(im: Image, f: Func, at: Pc, s: State, i: Instr)
    requires Decode(im.m, im.code, at.pc) == Some(i) && i.op.Call?
    ensures FlatStep(im, f, at, s) == CallAct(im.m, i.op.func, s, Pc(at.pc + i.len, at.idx))
  {
    hide Decode, FlatControl, SimpleAct, CallAct, Shuffle, U32;
  }

  lemma SimpleGoesOn(m: Module, op: Op, s: State, at: Pc)
    requires IsSimple(op)
    ensures var a := SimpleAct(m, op, s, at); !a.Invoke? && !a.Finish?
  {
    hide Exec;
  }

  // The opcode byte decides which instruction it is.
  lemma ByteOp(m: Module, code: seq<byte>, pc: nat, i: Instr)
    requires Decode(m, code, pc) == Some(i)
    ensures pc < |code|
    ensures var b, op := code[pc], i.op;
            && (b == 0x00 ==> op.Unreachable?) && (b == 0x02 ==> op.BlockOp? && i.len == 2)
            && (b == 0x03 ==> op.LoopOp? && i.len == 2)
            && (b == 0x04 ==> op.IfOp? && i.len == 2) && (b == 0x05 ==> op.ElseOp?)
            && (b == 0x0b ==> op.EndOp? && i.len == 1)
            && (b == 0x0c ==> op.Br?) && (b == 0x0d ==> op.BrIf? && i.len == 2) && (b == 0x0f ==> op.Return?)
            && (b == 0x10 <==> op.Call?)
            && (b !in {0x00, 0x02, 0x03, 0x04, 0x05, 0x0b, 0x0c, 0x0d, 0x0e, 0x0f, 0x10} ==> IsSimple(op))
            && (b == 0x1b ==> op.Select? && i.len == 1)
            && (b == 0x3f ==> op.MemorySize?) && (b == 0x40 ==> op.MemoryGrow?)
            && (b == 0x41 ==> op.I32Const?) && (b == 0x42 ==> op.I64Const?)
            && (IsSimple(op) ==>
                  0x28 <= b <= 0x3e || b in {0x01, 0x1a, 0x1b, 0x20, 0x21, 0x22, 0x23, 0x24, 0x3f, 0x40, 0x41, 0x42,
                                                            0x45, 0x6a, 0x6e, 0x7c, 0xa7, 0xad, 0xfc})
    ensures code[pc] == 0x0e ==>
              && i.op.BrTable? && Unsigned(code, pc + 1, 32).Some?
              && var n := Unsigned(code, pc + 1, 32).value;
              i.len == 1 + n.len + n.value + 1 && |i.op.depths| == n.value + 1
  {
    hide Unsigned, Signed, Labels, BlockType;
  }

  lemma ConstBytes(m: Module, code: seq<byte>, pc: nat, op: Op, len: nat)
    requires OpAt(m, code, pc, op, len)
    ensures op.I32Const? ==> Signed(code, pc + 1, 32) == Some(Num(op.v, len - 1))
    ensures op.I64Const? ==> Signed(code, pc + 1, 64) == Some(Num(op.v, len - 1))
  {
    hide Unsigned, Signed, Labels, BlockType;
  }

  lemma IndexBytes(m: Module, code: seq<byte>, pc: nat, op: Op, len: nat)
    requires OpAt(m, code, pc, op, len)
    requires pc < |code| && code[pc] in {0x10, 0x20, 0x21, 0x22, 0x23, 0x24}
    ensures var x := Unsigned(code, pc + 1, 32);
            x.Some? && x.value.value >= 0 && x.value.len == len - 1 && op == Indexed(code[pc], x.value.value)
  {
    hide Unsigned, Signed, Labels, BlockType, Indexed;
  }

  // The immediates of a load or store.
  lemma AccessBytes(m: Module, code: seq<byte>, pc: nat, op: Op, len: nat)
    requires OpAt(m, code, pc, op, len)
    requires pc < |code| && 0x28 <= code[pc] <= 0x3e
    ensures if code[pc] < 0x36 then op.Load? else op.Save?
    ensures op.acc == AccessOf(code[pc]) && Unsigned(code, pc + 2, 32) == Some(Num(op.offset, len - 2))
  {
    hide Signed, Labels, BlockType, AccessOf;
  }

  lemma ReservedBytes(m: Module, code: seq<byte>, pc: nat, op: Op, len: nat)
    requires OpAt(m, code, pc, op, len) && (op.MemorySize? || op.MemoryGrow?)
    ensures len == 2
  {
    hide Signed, Labels, BlockType, AccessOf;
  }

  lemma BulkBytes(m: Module, code: seq<byte>, pc: nat, op: Op, len: nat)
    requires OpAt(m, code, pc, op, len)
    requires pc < |code| && code[pc] == 0xfc
    ensures op.MemoryCopy? || op.MemoryFill?
    ensures Unsigned(code, pc + 1, 32) ==
            if op.MemoryCopy? then Some(Num(0x0a, len - 3)) else Some(Num(0x0b, len - 2))
  {
    hide Decode, Unsigned, Reserved;
    BulkAt(m, code, pc);
    var sub := Unsigned(code, pc + 1, 32).value;
    ReservedByte(code, pc + 1 + sub.len);
    ReservedByte(code, pc + 2 + sub.len);
  }

  lemma ReservedByte(code: seq<byte>, p: nat)
    ensures Reserved(code, p).Some? ==> Reserved(code, p).value.len == 1
  {
  }

  lemma BulkAt(m: Module, code: seq<byte>, pc: nat)
    requires pc < |code| && code[pc] == 0xfc
    ensures Decode(m, code, pc) == Bulk(code, pc)
  {
    hide Signed, Unsigned, Labels, BlockType, Bulk, Accessing, Table, Reserved;
  }

  lemma OneByte(m: Module, code: seq<byte>, pc: nat, op: Op, len: nat)
    requires OpAt(m, code, pc, op, len)
    requires pc < |code| && code[pc] in {0x01, 0x1a, 0x1b, 0x45, 0x6a, 0x6e, 0x7c, 0xa7, 0xad}
    ensures len == 1
    ensures code[pc] == 0x01 ==> op.Nop?
    ensures code[pc] == 0x1a ==> op.Drop?
    ensures code[pc] == 0x1b ==> op.Select?
    ensures code[pc] == 0x45 ==> op.I32Eqz?
    ensures code[pc] == 0x6a ==> op.I32Add?
    ensures code[pc] == 0x6e ==> op.I32DivU?
    ensures code[pc] == 0x7c ==> op.I64Add?
    ensures code[pc] == 0xa7 ==> op.I32WrapI64?
    ensures code[pc] == 0xad ==> op.I64ExtendI32U?
  {
    hide Unsigned, Signed, Labels, BlockType;
  }
}
