/**
 The fragment of WebAssembly that is modelled: types, modules, instructions as the decoder
 delivers them, nested function bodies, and run-time values with the effect of the
 instructions that do not touch control.
 */
module Wasm {
  import opened Basics
  import opened LittleEndian

  // Value types. `Unknown` is the validator's own, for operands of unreachable code.
  datatype ValType = I32 | I64 | F32 | F64 | V128 | FuncRef | ExternRef | AnyRef | Unknown

  predicate IsNum(t: ValType) {
    t.I32? || t.I64? || t.F32? || t.F64? || t.Unknown?
  }

  predicate IsVec(t: ValType) {
    t.V128? || t.Unknown?
  }

  predicate IsRef(t: ValType) {
    t.FuncRef? || t.ExternRef? || t.AnyRef? || t.Unknown?
  }

  type NumType = t: ValType | t.I32? || t.I64? || t.F32? || t.F64? witness I32

  datatype FuncType = FuncType(params: seq<ValType>, results: seq<ValType>)

  datatype Func = Func(ftype: FuncType, localTypes: seq<ValType>, code: seq<byte>) {
    // Parameters come first.
    function Locals(): seq<ValType> {
      ftype.params + localTypes
    }
  }

  datatype GlobalType = GlobalType(ty: ValType, mutable: bool)

  // Every function is defined in the module; a memory limit is given when there is a memory.
  datatype Module = Module(types: seq<FuncType>, funcs: seq<Func>, globals: seq<GlobalType>, memMax: Option<nat>) {
    function GlobalTypes(): (r: seq<ValType>)
      ensures |r| == |globals|
    {
      seq(|globals|, i requires 0 <= i < |globals| => globals[i].ty)
    }
  }

  // A load or store: the type of the operand, the bytes touched, and whether a narrow load fills
  // with the sign.
  datatype Access = Access(ty: NumType, width: nat, signed: bool)

  datatype Op =
    | Unreachable | Nop
    | BlockOp(ft: FuncType) | LoopOp(ft: FuncType) | IfOp(ft: FuncType) | ElseOp | EndOp
    | Br(depth: nat) | BrIf(depth: nat)
    // skew: bytes by which the labels, read as LEB128, overrun one byte each
    | BrTable(depths: seq<nat>, skew: nat)
    | Return | Call(func: nat)
    | Drop | Select
    | LocalGet(idx: nat) | LocalSet(idx: nat) | LocalTee(idx: nat)
    | GlobalGet(idx: nat) | GlobalSet(idx: nat)
    | Load(acc: Access, align: nat, offset: nat) | Save(acc: Access, align: nat, offset: nat)
    | MemorySize | MemoryGrow | MemoryFill | MemoryCopy
    | I32Const(v: int) | I64Const(v: int)
    | I32Eqz | I32Add | I32DivU | I64Add | I32WrapI64 | I64ExtendI32U

  // A nested instruction sequence. `len` is the number of bytes that spell an instruction.
  datatype Body =
    | Stop
    | Plain(op: Op, len: nat, rest: Body)
    | Block(ft: FuncType, body: Body, rest: Body)
    | Loop(ft: FuncType, body: Body, rest: Body)
    | If(ft: FuncType, thn: Body, rest: Body)
    | IfElse(ft: FuncType, thn: Body, els: Body, rest: Body)

  // Bytes taken by a body: headers are an opcode and a block type, `else` and `end` one byte.
  function Size(b: Body): nat {
    match b
    case Stop => 0
    case Plain(_, len, rest) => len + Size(rest)
    case Block(_, body, rest) => 2 + Size(body) + 1 + Size(rest)
    case Loop(_, body, rest) => 2 + Size(body) + 1 + Size(rest)
    case If(_, thn, rest) => 2 + Size(thn) + 1 + Size(rest)
    case IfElse(_, thn, els, rest) => 2 + Size(thn) + 1 + Size(els) + 1 + Size(rest)
  }

  // Instructions that open, split or close a nested sequence.
  predicate IsBracket(op: Op) {
    op.BlockOp? || op.LoopOp? || op.IfOp? || op.ElseOp? || op.EndOp?
  }

  // Instructions that may leave the straight line without being brackets.
  predicate IsJump(op: Op) {
    op.Unreachable? || op.Br? || op.BrIf? || op.BrTable? || op.Return? || op.Call?
  }

  predicate IsSimple(op: Op) {
    !IsBracket(op) && !IsJump(op)
  }

  // ----- Run time -----

  // A 64-bit stack cell. The type is carried for the proofs; no machine looks at it.
  datatype Value = Value(ty: ValType, bits: nat)

  function U32(v: Value): nat {
    v.bits % 0x1_0000_0000
  }

  function Int32(v: int): (r: Value)
    ensures r.ty == I32
  {
    Value(I32, v % 0x1_0000_0000)
  }

  function Int64(v: int): (r: Value)
    ensures r.ty == I64
  {
    Value(I64, v % 0x1_0000_0000_0000_0000)
  }

  // What all frames share. `heap` is what the allocator will answer when the memory asks for more;
  // with no answers left it agrees.
  datatype Store = Store(mem: seq<byte>, globals: seq<Value>, heap: seq<bool>)

  const PAGE := 65536

  // Operands a simple instruction pops.
  function Pops(op: Op): (n: nat)
    requires IsSimple(op)
  {
    match op
    case Select | MemoryFill | MemoryCopy => 3
    case Drop | LocalSet(_) | LocalTee(_) | GlobalSet(_) | Load(_, _, _) | MemoryGrow => 1
    case I32Eqz | I32WrapI64 | I64ExtendI32U => 1
    case Save(_, _, _) | I32Add | I32DivU | I64Add => 2
    case _ => 0
  }

  datatype Effect =
    | Done(push: seq<Value>, locals: seq<Value>, store: Store)
    | Trapped
    | Crashed   // an access that C leaves undefined

  // Cells of the 32-bit types.
  predicate Is32(t: ValType) {
    t.I32? || t.F32?
  }

  // Numbers that a cell of a type can hold.
  function CellRadix(t: ValType): nat {
    if Is32(t) then 0x1_0000_0000 else 0x1_0000_0000_0000_0000
  }

  // The cell that a load makes of the number it read: zeros above, or copies of the sign.
  function Widened(acc: Access, raw: nat): (v: Value)
    ensures v.ty == acc.ty
  {
    if acc.signed && 2 * raw >= Radix(acc.width) && Radix(acc.width) <= CellRadix(acc.ty)
    then Value(acc.ty, raw + (CellRadix(acc.ty) - Radix(acc.width)))
    else Value(acc.ty, raw)
  }

  // What a simple instruction does with the operands it pops (first pushed first).
  function Exec(m: Module, op: Op, a: seq<Value>, locals: seq<Value>, store: Store): Effect
    requires IsSimple(op) && |a| == Pops(op)
  {
    match op
    case Nop | Drop => Done([], locals, store)
    case Select => Done([if U32(a[2]) != 0 then a[0] else a[1]], locals, store)
    case LocalGet(x) => if x < |locals| then Done([locals[x]], locals, store) else Crashed
    case LocalSet(x) => if x < |locals| then Done([], locals[x := a[0]], store) else Crashed
    case LocalTee(x) => if x < |locals| then Done([a[0]], locals[x := a[0]], store) else Crashed
    case GlobalGet(x) => if x < |store.globals| then Done([store.globals[x]], locals, store) else Crashed
    case GlobalSet(x) =>
      if x < |store.globals| then Done([], locals, store.(globals := store.globals[x := a[0]])) else Crashed
    case Load(acc, _, offset) =>
      if m.memMax.None? then Crashed
      else if U32(a[0]) + offset + acc.width > |store.mem| then Trapped
      else Done([Widened(acc, ReadAt(store.mem, U32(a[0]) + offset, acc.width))], locals, store)
    case Save(acc, _, offset) =>
      if m.memMax.None? then Crashed
      else if U32(a[0]) + offset + acc.width > |store.mem| then Trapped
      else Done([], locals, store.(mem := WriteAt(store.mem, U32(a[0]) + offset, acc.width, a[1].bits)))
    case MemorySize => if m.memMax.None? then Crashed else Done([Int32(|store.mem| / PAGE)], locals, store)
    case MemoryGrow =>
      if m.memMax.None? then Crashed
      else
        var pages := |store.mem| / PAGE;
        var more := U32(a[0]);
        if pages + more <= m.memMax.value then
          var (grown, after) := Grow(store, (pages + more) * PAGE);
          Done([Int32(if grown then pages else -1)], locals, after)
        else Done([Int32(-1)], locals, store)
    case MemoryFill =>
      if m.memMax.None? then Crashed
      else if U32(a[0]) + U32(a[2]) > |store.mem| then Trapped
      else Done([], locals, store.(mem := FillAt(store.mem, U32(a[0]), U32(a[2]), a[1].bits % 0x100)))
    case MemoryCopy =>
      if m.memMax.None? then Crashed
      else if U32(a[1]) + U32(a[2]) > |store.mem| || U32(a[0]) + U32(a[2]) > |store.mem| then Trapped
      else Done([], locals, store.(mem := CopyAt(store.mem, U32(a[0]), U32(a[1]), U32(a[2]))))
    case I32Const(v) => Done([Int32(v)], locals, store)
    case I64Const(v) => Done([Int64(v)], locals, store)
    case I32Eqz => Done([Int32(if U32(a[0]) == 0 then 1 else 0)], locals, store)
    case I32Add => Done([Int32(U32(a[0]) + U32(a[1]))], locals, store)
    case I32DivU => if U32(a[1]) == 0 then Trapped else Done([Int32(U32(a[0]) / U32(a[1]))], locals, store)
    case I64Add => Done([Int64(a[0].bits + a[1].bits)], locals, store)
    case I32WrapI64 => Done([Int32(a[0].bits)], locals, store)
    case I64ExtendI32U => Done([Int64(U32(a[0]))], locals, store)
  }

  // Growing fills with zeros, shrinking cuts.
  function Resize(mem: seq<byte>, size: nat): (r: seq<byte>)
    ensures |r| == size
  {
    if size <= |mem| then mem[..size] else mem + seq(size - |mem|, _ => 0)
  }

  // Only more memory than there is asks the allocator, which may refuse. Then nothing else changes.
  function Grow(store: Store, size: nat): (r: (bool, Store))
    ensures r.1.globals == store.globals
    ensures |r.1.mem| == if r.0 then size else |store.mem|
  {
    if size <= |store.mem| || store.heap == [] then (true, store.(mem := Resize(store.mem, size)))
    else
      var after := store.(heap := store.heap[1..]);
      if store.heap[0] then (true, after.(mem := Resize(store.mem, size))) else (false, after)
  }

  // ----- Steps of a machine, whatever its positions are -----

  // Operands (last on top), locals, and what all frames share.
  datatype State = State(stack: seq<Value>, locals: seq<Value>, store: Store)

  datatype Act<C> =
    | Next(at: C, s: State)
    | Invoke(callee: nat, args: seq<Value>, at: C, s: State)
    | Finish(results: seq<Value>, store: Store)
    | Fault
    | Undefined   // the operand stack is too short, or the position is wrong

  function Push(s: State, vs: seq<Value>): State {
    s.(stack := s.stack + vs)
  }

  function Drop1(s: State, n: nat): State
    requires n <= |s.stack|
  {
    s.(stack := s.stack[..|s.stack| - n])
  }

  function TopN(s: State, n: nat): seq<Value>
    requires n <= |s.stack|
  {
    s.stack[|s.stack| - n..]
  }

  // The operand an instruction tests, if it tests one, and the state without it.
  function Tested(s: State, tests: bool): nat
    requires tests ==> s.stack != []
  {
    if tests then U32(s.stack[|s.stack| - 1]) else 0
  }

  function AfterTest(s: State, tests: bool): State
    requires tests ==> s.stack != []
  {
    if tests then Drop1(s, 1) else s
  }

  function SimpleAct<C>(m: Module, op: Op, s: State, next: C): Act<C>
    requires IsSimple(op)
  {
    if |s.stack| < Pops(op) then Undefined
    else EffectAct(Exec(m, op, TopN(s, Pops(op)), s.locals, s.store), Drop1(s, Pops(op)).stack, next)
  }

  // What it pushes goes on top of the operands it left.
  function EffectAct<C>(e: Effect, low: seq<Value>, next: C): Act<C> {
    match e
    case Done(push, locals, store) => Next(next, State(low + push, locals, store))
    case Trapped => Fault
    case Crashed => Undefined
  }

  function CallAct<C>(m: Module, g: nat, s: State, next: C): Act<C> {
    if g >= |m.funcs| || |s.stack| < |m.funcs[g].ftype.params| then Undefined
    else
      var n := |m.funcs[g].ftype.params|;
      Invoke(g, TopN(s, n), next, Drop1(s, n))
  }

  function FinishAct<C>(f: Func, s: State): Act<C> {
    if |s.stack| < |f.ftype.results| then Undefined else Finish(TopN(s, |f.ftype.results|), s.store)
  }

  // Frames in use and stack cells reserved for them, with the two limits checked on every call.
  datatype Usage = Usage(depth: nat, cells: nat)

  const FRAME_LIMIT := 256
  const CELL_LIMIT := 100 * 1024

  predicate Exceeded(u: Usage) {
    u.depth > FRAME_LIMIT || u.cells > CELL_LIMIT
  }

  function Reserve(u: Usage, cells: nat): Usage {
    Usage(u.depth + 1, u.cells + cells)
  }

  // How a call ends. Exhausted is the interpreter's own limit; Running means the fuel ran out.
  datatype Outcome =
    | Returned(results: seq<Value>, store: Store)
    | Trap
    | Exhausted
    | Running
    | Broken

  // The locals of a callee: its arguments, then zeros.
  function InitLocals(f: Func, args: seq<Value>): seq<Value> {
    args + seq(|f.localTypes|, i requires 0 <= i < |f.localTypes| => Value(f.localTypes[i], 0))
  }
}
