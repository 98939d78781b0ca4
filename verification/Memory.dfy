/**
 Linear memory: what a load finds after a store, byte for byte and with the extension that the
 opcode asks for; what growing keeps; and, over whole runs, that the memory stays a whole number of
 pages within its limit and never shrinks.
 */
module Memory {
  import opened Basics
  import opened LittleEndian
  import opened Wasm
  import opened Acts
  import opened Decoder
  import opened InPlace

  // ----- Loads and stores -----

  // The signed number that a digit string of the given radix stands for in two's complement.
  function AsSigned(v: nat, radix: nat): int {
    if 2 * v >= radix then v - radix else v
  }

  lemma CellValues(opcode: byte)
    requires 0x28 <= opcode <= 0x3e
    ensures AccessOf(opcode).width in {1, 2, 4, 8}
    ensures 0 < Radix(AccessOf(opcode).width) <= CellRadix(AccessOf(opcode).ty)
    ensures opcode <= 0x35 && AccessOf(opcode).signed ==> Radix(AccessOf(opcode).width) < CellRadix(AccessOf(opcode).ty)
  {
    hide Radix;
    RadixValues();
  }

  // A signed load keeps the signed number, an unsigned one the number; the low bytes are those read.
  lemma Extension(opcode: byte, raw: nat)
    requires 0x28 <= opcode <= 0x35 && raw < Radix(AccessOf(opcode).width)
    ensures var acc := AccessOf(opcode);
            var v := Widened(acc, raw);
            && v.ty == acc.ty && v.bits < CellRadix(acc.ty) && v.bits % Radix(acc.width) == raw
            && if acc.signed then AsSigned(v.bits, CellRadix(acc.ty)) == AsSigned(raw, Radix(acc.width))
                  else v.bits == raw
  {
    hide Radix, AccessOf;
    var acc := AccessOf(opcode);
    CellValues(opcode);
    RadixValues();
    if acc.width == 1 {
      SignFill(raw, 0x100, CellRadix(acc.ty));
    } else if acc.width == 2 {
      SignFill(raw, 0x1_0000, CellRadix(acc.ty));
    } else if acc.width == 4 {
      SignFill(raw, 0x1_0000_0000, CellRadix(acc.ty));
    }
  }

  // Copies of the sign above a number cut off again.
  lemma SignFill(raw: nat, radix: nat, cell: nat)
    requires radix in {0x100, 0x1_0000, 0x1_0000_0000} && cell in {0x1_0000_0000, 0x1_0000_0000_0000_0000}
    requires raw < radix <= cell
    ensures (raw + (cell - radix)) % radix == raw && raw % radix == raw
  {
    assert cell % radix == 0;
  }

  // A load from where a store went: the stored cell cut to the store's width and extended as the
  // load's opcode says. No other byte has moved.
  lemma StoreThenLoad(m: Module, save: byte, load: byte, align: nat, offset: nat, a: Value, v: Value,
        locals: seq<Value>, store: Store)
    requires 0x28 <= load <= 0x35 && 0x36 <= save <= 0x3e && AccessOf(load).width == AccessOf(save).width
    requires m.memMax.Some? && U32(a) + offset + AccessOf(save).width <= |store.mem|
    ensures var acc := AccessOf(load);
            var cut := v.bits % Radix(acc.width);
            match Exec(m, MemOp(save, align, offset), [a, v], locals, store)
            case Done(_, _, after) =>
              && (forall i :: 0 <= i < |store.mem| && !(U32(a) + offset <= i < U32(a) + offset + acc.width) ==>
                    after.mem[i] == store.mem[i])
              && var w := Widened(acc, cut);
              && Exec(m, MemOp(load, align, offset), [a], locals, after) == Done([w], locals, after)
              && if acc.signed then AsSigned(w.bits, CellRadix(acc.ty)) == AsSigned(cut, Radix(acc.width))
                    else w.bits == cut
            case _ => false
  {
    hide Radix, AccessOf, Widened, U32, WriteAt, ReadAt, CellRadix, AsSigned;
    var acc := AccessOf(load);
    var at := U32(a) + offset;
    WriteThenRead(store.mem, at, acc.width, v.bits);
    ModBound(v.bits, Radix(acc.width));
    Extension(load, v.bits % Radix(acc.width));
  }

  lemma ModBound(v: nat, m: nat)
    requires m > 0
    ensures 0 <= v % m < m
  {
  }

  // ----- Growth -----

  // A whole number of pages, at most the limit.
  predicate Paged(m: Module, mem: seq<byte>) {
    |mem| % PAGE == 0 && (m.memMax.Some? ==> |mem| / PAGE <= m.memMax.value)
  }

  // Growing keeps every old byte and appends zeros. It is refused beyond the limit, and when the
  // allocator that it asks for more says no; then the memory is as before.
  lemma GrowKeeps(m: Module, store: Store, more: nat)
    requires m.memMax.Some? && Paged(m, store.mem)
    ensures var (pushed, after) := Grown(m, store, more);
            var pages := |store.mem| / PAGE;
            && after.globals == store.globals
            && if pages + more <= m.memMax.value && (more == 0 || store.heap == [] || store.heap[0]) then
                 && pushed == Int32(pages) && |after.mem| == (pages + more) * PAGE
                 && after.mem[..|store.mem|] == store.mem
                 && forall i :: |store.mem| <= i < |after.mem| ==> after.mem[i] == 0
               else pushed == Int32(-1) && after.mem == store.mem
  {
    hide Int32;
    Multiple(|store.mem|, more);
  }

  lemma Multiple(size: nat, more: nat)
    requires size % PAGE == 0
    ensures (size / PAGE + more) * PAGE == size + more * PAGE
  {
  }

  lemma PagesOf(n: nat)
    ensures n * PAGE % PAGE == 0 && n * PAGE / PAGE == n
  {
  }

  // ----- Runs -----

  // One simple instruction.
  lemma SimplePaged(m: Module, op: Op, s: State, at: Pc)
    requires IsSimple(op) && Paged(m, s.store.mem)
    ensures var a := SimpleAct(m, op, s, at);
            !a.Invoke? && !a.Finish? && (a.Next? ==> Paged(m, a.s.store.mem) && |s.store.mem| <= |a.s.store.mem|)
  {
    hide U32, Int32, Int64, ReadAt, WriteAt, FillAt, CopyAt, Widened, Grow, Paged;
    if op.MemoryGrow? {
      GrowPaged(m, s, at);
    } else {
      SimpleSized(m, op, s, at);
      SamePaged(m, s.store.mem);
    }
  }

  lemma SimpleSized(m: Module, op: Op, s: State, at: Pc)
    requires IsSimple(op) && !op.MemoryGrow?
    ensures var a := SimpleAct(m, op, s, at); !a.Invoke? && !a.Finish? && (a.Next? ==> |a.s.store.mem| == |s.store.mem|)
  {
    hide U32, Int32, Int64, ReadAt, WriteAt, FillAt, CopyAt, Widened, Grow;
  }

  lemma SamePaged(m: Module, mem: seq<byte>)
    ensures forall other: seq<byte> :: Paged(m, mem) && |other| == |mem| ==> Paged(m, other)
  {
  }

  lemma GrowPaged(m: Module, s: State, at: Pc)
    requires Paged(m, s.store.mem)
    ensures var a := SimpleAct(m, MemoryGrow, s, at);
            !a.Invoke? && !a.Finish? && (a.Next? ==> Paged(m, a.s.store.mem) && |s.store.mem| <= |a.s.store.mem|)
  {
    hide SimpleAct, Int32, U32, Grow;
    GrowAct(m, s, at);
    if s.stack != [] && m.memMax.Some? {
      Multiple(|s.store.mem|, U32(FromTop(s, 0)));
      PagesOf(|s.store.mem| / PAGE + U32(FromTop(s, 0)));
    }
  }

  lemma StepPaged(im: Image, f: Func, at: Pc, s: State)
    requires Paged(im.m, s.store.mem)
    ensures match FlatStep(im, f, at, s)
            case Next(_, s2) => Paged(im.m, s2.store.mem) && |s.store.mem| <= |s2.store.mem|
            case Invoke(_, _, _, s2) => s2.store == s.store
            case Finish(_, store) => store == s.store
            case _ => true
  {
    hide Decode, SimpleAct, FlatControl, Paged, U32;
    var i := Decode(im.m, im.code, at.pc);
    if i.Some? && IsSimple(i.value.op) {
      SimplePaged(im.m, i.value.op, s, Pc(at.pc + i.value.len, at.idx));
    }
  }

  // Whole runs, through any nesting of calls.
  lemma {:induction false} RunPaged(q: Program, fi: nat, at: Pc, s: State, u: Usage, fuel: nat)
    requires fi < |q.m.funcs| && fi < |q.prepared| && Paged(q.m, s.store.mem)
    ensures var o := FlatRun(q, fi, at, s, u, fuel);
            o.Returned? ==> Paged(q.m, o.store.mem) && |s.store.mem| <= |o.store.mem|
    decreases fuel, 0
  {
    hide FlatStep, Paged;
    if fuel > 0 {
      StepPaged(ImageOf(q, fi), q.m.funcs[fi], at, s);
      var a := FlatStep(ImageOf(q, fi), q.m.funcs[fi], at, s);
      if a.Next? {
        RunPaged(q, fi, a.at, a.s, u, fuel - 1);
      } else if a.Invoke? {
        CallPaged(q, a.callee, a.args, a.s.store, u, fuel - 1);
        var o := FlatCall(q, a.callee, a.args, a.s.store, u, fuel - 1);
        if o.Returned? {
          RunPaged(q, fi, a.at, Push(a.s, o.results).(store := o.store), u, fuel - 1);
        }
      }
    }
  }

  lemma {:induction false} CallPaged(q: Program, fi: nat, args: seq<Value>, store: Store, u: Usage, fuel: nat)
    requires Paged(q.m, store.mem)
    ensures var o := FlatCall(q, fi, args, store, u, fuel);
            o.Returned? ==> Paged(q.m, o.store.mem) && |store.mem| <= |o.store.mem|
    decreases fuel, 1
  {
    hide Paged, FlatRun;
    if fi < |q.m.funcs| && fi < |q.prepared| && !Exceeded(u) {
      RunPaged(q, fi, Pc(0, 0), State([], InitLocals(q.m.funcs[fi], args), store), Reserve(u, q.prepared[fi].peak),
          fuel);
    }
  }
}
