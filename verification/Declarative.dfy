/**
 The typing rules of section 3.3 of the WebAssembly Core Specification for nested bodies: label
 contexts, operand types among them the bottom type, and instructions after which the stack may be
 anything. There is no control stack, no height and no position here. The validator with all checks
 accepts exactly what these rules type.
 */
module Declarative {
  import opened Basics
  import opened Wasm

  // The labels of the enclosing brackets, innermost last; the first is the function's own.
  datatype Scope = Scope(m: Module, locals: seq<ValType>, labels: seq<seq<ValType>>)

  function Inner(s: Scope, types: seq<ValType>): Scope {
    s.(labels := s.labels + [types])
  }

  function LabelAt(s: Scope, n: nat): seq<ValType>
    requires n < |s.labels|
  {
    s.labels[|s.labels| - 1 - n]
  }

  // Operands of these types will do; Unknown is the bottom type.
  predicate Under(have: seq<ValType>, want: seq<ValType>) {
    |have| == |want| && forall i :: 0 <= i < |have| ==> have[i] == want[i] || have[i].Unknown?
  }

  predicate EndsUnder(have: seq<ValType>, want: seq<ValType>) {
    |want| <= |have| && Under(have[|have| - |want|..], want)
  }

  // An instruction of type [ins] -> [outs], on a stack that may hold more below.
  predicate Applies(have: seq<ValType>, ins: seq<ValType>, outs: seq<ValType>, left: seq<ValType>) {
    EndsUnder(have, ins) && left == have[..|have| - |ins|] + outs
  }

  // Instructions with one type.
  predicate Monomorphic(s: Scope, op: Op, ins: seq<ValType>, outs: seq<ValType>) {
    match op
    case Nop => ins == [] && outs == []
    case LocalGet(x) => x < |s.locals| && ins == [] && outs == [s.locals[x]]
    case LocalSet(x) => x < |s.locals| && ins == [s.locals[x]] && outs == []
    case LocalTee(x) => x < |s.locals| && ins == outs == [s.locals[x]]
    case GlobalGet(x) => x < |s.m.globals| && ins == [] && outs == [s.m.globals[x].ty]
    case GlobalSet(x) => x < |s.m.globals| && s.m.globals[x].mutable && ins == [s.m.globals[x].ty] && outs == []
    case Load(acc, align, _) => s.m.memMax.Some? && Pow2(align) <= acc.width && ins == [I32] && outs == [acc.ty]
    case Save(acc, align, _) => s.m.memMax.Some? && Pow2(align) <= acc.width && ins == [I32, acc.ty] && outs == []
    case MemorySize => s.m.memMax.Some? && ins == [] && outs == [I32]
    case MemoryGrow => s.m.memMax.Some? && ins == [I32] && outs == [I32]
    case MemoryFill | MemoryCopy => s.m.memMax.Some? && ins == [I32, I32, I32] && outs == []
    case I32Const(_) => ins == [] && outs == [I32]
    case I64Const(_) => ins == [] && outs == [I64]
    case I32Eqz => ins == [I32] && outs == [I32]
    case I32Add | I32DivU => ins == [I32, I32] && outs == [I32]
    case I64Add => ins == [I64, I64] && outs == [I64]
    case I32WrapI64 => ins == [I64] && outs == [I32]
    case I64ExtendI32U => ins == [I32] && outs == [I64]
    case Call(g) => g < |s.m.funcs| && ins == s.m.funcs[g].ftype.params && outs == s.m.funcs[g].ftype.results
    case BrIf(n) => n < |s.labels| && ins == LabelAt(s, n) + [I32] && outs == LabelAt(s, n)
    case _ => false
  }

  // The operands below the selector will do for every label of a table.
  predicate TableType(s: Scope, ls: seq<nat>, have: seq<ValType>) {
    && ls != [] && (forall i :: 0 <= i < |ls| ==> ls[i] < |s.labels|)
    && var n := |LabelAt(s, ls[|ls| - 1])|;
    && n + 1 <= |have| && Under(have[|have| - 1..], [I32])
    && forall i :: 0 <= i < |ls| ==> Under(have[|have| - 1 - n..|have| - 1], LabelAt(s, ls[i]))
  }

  // Numbers, vectors, or operands below a jump.
  predicate SelectType(have: seq<ValType>, left: seq<ValType>, t: ValType) {
    t in {I32, I64, F32, F64, V128, Unknown} && Applies(have, [t, t, I32], [t], left)
  }

  // From these operands to those. After a jump the stack may be anything.
  ghost predicate OpType(s: Scope, op: Op, have: seq<ValType>, left: seq<ValType>) {
    match op
    case Unreachable => true
    case Br(n) => n < |s.labels| && EndsUnder(have, LabelAt(s, n))
    case BrTable(ls, _) => TableType(s, ls, have)
    case Return => s.labels != [] && EndsUnder(have, s.labels[0])
    case Drop => have != [] && left == have[..|have| - 1]
    case Select => exists t :: SelectType(have, left, t)
    case _ => exists ins, outs :: Monomorphic(s, op, ins, outs) && Applies(have, ins, outs, left)
  }

  // A bracket and what follows it.
  ghost predicate Continues(s: Scope, ins: seq<ValType>, outs: seq<ValType>, rest: Body, have: seq<ValType>,
        want: seq<ValType>)
    decreases rest, 1
  {
    exists left :: Applies(have, ins, outs, left) && BodyType(s, rest, left, want)
  }

  // A nested sequence from these operands to those.
  ghost predicate BodyType(s: Scope, b: Body, have: seq<ValType>, want: seq<ValType>)
    decreases b, 0
  {
    match b
    case Stop => Under(have, want)
    case Plain(op, _, rest) => exists left :: OpType(s, op, have, left) && BodyType(s, rest, left, want)
    case Block(ft, body, rest) =>
      BodyType(Inner(s, ft.results), body, ft.params, ft.results)
          && Continues(s, ft.params, ft.results, rest, have, want)
    case Loop(ft, body, rest) =>
      BodyType(Inner(s, ft.params), body, ft.params, ft.results)
          && Continues(s, ft.params, ft.results, rest, have, want)
    // the missing arm is the empty sequence
    case If(ft, thn, rest) =>
      && BodyType(Inner(s, ft.results), thn, ft.params, ft.results) && Under(ft.params, ft.results)
      && Continues(s, ft.params + [I32], ft.results, rest, have, want)
    case IfElse(ft, thn, els, rest) =>
      && BodyType(Inner(s, ft.results), thn, ft.params, ft.results)
      && BodyType(Inner(s, ft.results), els, ft.params, ft.results)
      && Continues(s, ft.params + [I32], ft.results, rest, have, want)
  }

  // A function's body starts on an empty stack and leaves its results.
  ghost predicate FunctionType(m: Module, f: Func, b: Body) {
    BodyType(Scope(m, f.ftype.params + f.localTypes, [f.ftype.results]), b, [], f.ftype.results)
  }
}
